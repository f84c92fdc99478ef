/** The reference decoder and the second decoder are one function on their common domain, errors
    included; and exactly there do they accept the same envelopes. */
module Agreement {
  import opened Bytes
  import opened Framing
  import opened Primitives
  import opened Combiner
  import opened Sessions
  import E = Envelope
  import K = KeyBundle
  import R = Shield
  import S = Stream
  import A = AltCodec

  lemma SameReadTlv(buf: bytes, off: nat)
    ensures A.ReadTlv(buf, off) == ReadTlv(buf, off)
  {}

  /** `n` cursor reads from `off` are the first `n` fields of the suffix. */
  lemma {:induction false} SameFields(buf: bytes, off: nat, n: nat)
    requires off <= |buf|
    ensures A.ReadMany(buf, off, n).Err? ==> TakeFields(buf[off..], n) == Err(A.ReadMany(buf, off, n).error)
    ensures A.ReadMany(buf, off, n).Ok? ==>
              var (f, end) := A.ReadMany(buf, off, n).value;
              end <= |buf| && TakeFields(buf[off..], n) == Ok((f, buf[end..]))
    decreases n
  {
    if n > 0 {
      SameReadTlv(buf, off);
      ReadField(buf, off, n);
      if ReadTlv(buf, off).Ok? {
        SameFields(buf, ReadTlv(buf, off).value.1, n - 1);
      }
    }
  }

  lemma {:induction false} SameParts(buf: bytes, off: nat)
    requires off <= |buf|
    ensures A.ReadParts(buf, off) == TakeTlvs(buf[off..])
    decreases |buf| - off
  {
    if off < |buf| {
      SameReadTlv(buf, off);
      ReadIsTake(buf, off);
      if ReadTlv(buf, off).Ok? {
        SameParts(buf, ReadTlv(buf, off).value.1);
      }
    }
  }

  /** The incremental hash absorbs the concatenation. */
  lemma {:induction false} AbsorbsConcat(state: bytes, parts: seq<bytes>)
    ensures A.Absorb(state, parts) == state + Concat(parts)
    decreases |parts|
  {
    if parts == [] {
      assert state + [] == state;
    } else {
      AbsorbsConcat(state + parts[0], parts[1..]);
      assert (state + parts[0]) + Concat(parts[1..]) == state + (parts[0] + Concat(parts[1..]));
    }
  }

  function Fields(b: K.Bundle): A.KeyFields {
    A.KeyFields(b.suite, b.kid, b.parts)
  }

  /** The two key-bundle parsers accept the same bundles with the same fields and errors. */
  lemma SameKey(p: Prims, buf: bytes, role: byte)
    ensures A.ParseKey(p, buf, role) == if K.Parse(p, buf, role).Ok? then Ok(Fields(K.Parse(p, buf, role).value))
                                        else Err(K.Parse(p, buf, role).error)
  {
    if |buf| >= 7 {
      SameReadTlv(buf, 7);
      ReadIsTake(buf, 7);
      if A.ReadTlv(buf, 7).Ok? {
        var (kid, off) := A.ReadTlv(buf, 7).value;
        SameParts(buf, off);
        var parts := A.ReadParts(buf, off);
        if parts.Ok? { SameKid(p, K.Bundle(buf[5], role, kid, parts.value)); }
      }
    }
  }

  /** Both parsers recompute one fingerprint. */
  lemma SameKid(p: Prims, b: K.Bundle)
    ensures A.KidLabel(b.role) == K.KidLabel(b.role)
    ensures A.KidLabel(b.role).Some? ==>
              p.shake(A.Absorb([] + A.KidLabel(b.role).value + [b.suite], b.parts)) == p.shake(K.KidPreimage(b))
  {
    if A.KidLabel(b.role).Some? {
      var l := A.KidLabel(b.role).value;
      assert [] + l + [b.suite] == l + [b.suite];
      AbsorbsConcat(l + [b.suite], b.parts);
    }
  }

  /** The key-id that a signing bundle carries, single-part bundles only. */
  function CarriedKid(p: Prims, pub: bytes): Result<bytes> {
    var b :- R.ParseParts(p, pub, K.ROLE_SIG_PUB, 1);
    Ok(b.kid)
  }

  /** The recomputed key-id of a single-part signing bundle is the one it carries. */
  lemma SameSigKeyId(p: Prims, pub: bytes)
    ensures A.SigKeyId(p, pub) == CarriedKid(p, pub)
  {
    SameKey(p, pub, K.ROLE_SIG_PUB);
    var b := K.Parse(p, pub, K.ROLE_SIG_PUB);
    if b.Ok? && |b.value.parts| == 1 {
      assert Concat(b.value.parts) == b.value.parts[0] by {
        assert b.value.parts[1..] == [];
        assert b.value.parts[0] + [] == b.value.parts[0];
      }
    }
  }

  // ---------------------------------------------------------------- the common domain

  ghost predicate TwoPartPrivate(p: Prims, priv: bytes) {
    K.Parse(p, priv, K.ROLE_KEM_PRIV).Ok? ==> |K.Parse(p, priv, K.ROLE_KEM_PRIV).value.parts| == 2
  }

  ghost predicate OnePartPin(p: Prims, pin: Option<bytes>) {
    pin.Some? && K.Parse(p, pin.value, K.ROLE_SIG_PUB).Ok? ==> |K.Parse(p, pin.value, K.ROLE_SIG_PUB).value.parts| == 1
  }

  /** The sender block embeds a pure-PQC signing bundle. */
  ghost predicate EmbedsPureSuite(p: Prims, flags: byte, block: bytes) {
    && Authenticated(flags)
    && E.ParseBlock(block).Ok?
    && K.Parse(p, E.ParseBlock(block).value.pub, K.ROLE_SIG_PUB).Ok?
    && K.Parse(p, E.ParseBlock(block).value.pub, K.ROLE_SIG_PUB).value.suite == 3
  }

  /** Suite byte, PPK flag and embedded sender suite are ones the second decoder implements. */
  ghost predicate EnvelopeInScope(p: Prims, x: bytes) {
    && (|x| > 5 ==> x[5] != 3)
    && (|x| > 6 ==> !PpkBound(x[6]))
    && (E.Parse(x).Ok? ==> !EmbedsPureSuite(p, x[6], E.Parse(x).value.block))
  }

  // ---------------------------------------------------------------- agreement on envelopes

  lemma SamePrivate(p: Prims, priv: bytes, suite: byte, kid: bytes)
    requires TwoPartPrivate(p, priv)
    ensures A.PrivateKey(p, priv, suite, kid)
         == if R.MatchRecipient(p, priv, suite, kid).Ok? then Ok(R.MatchRecipient(p, priv, suite, kid).value.parts)
            else Err(R.MatchRecipient(p, priv, suite, kid).error)
  {
    SameKey(p, priv, K.ROLE_KEM_PRIV);
  }

  /** The cursor walk over a sender block is its parse. */
  lemma SameBlock(block: bytes, r: Result<(seq<bytes>, nat)>)
    requires r == A.ReadMany(block, 0, 3)
    ensures r.Err? ==> E.ParseBlock(block) == Err(r.error)
    ensures r.Ok? && r.value.1 != |block| ==> E.ParseBlock(block) == Err(SenderBlockTrailing)
    ensures r.Ok? && r.value.1 == |block| ==>
              E.ParseBlock(block) == Ok(E.SenderBlock(r.value.0[0], r.value.0[1], r.value.0[2]))
  {
    assert block[0..] == block;
    SameFields(block, 0, 3);
  }

  /** The key-id that the reference's sender checks bind into the key. */
  function BoundKid(p: Prims, e: E.Envelope, pin: Option<bytes>): Result<bytes> {
    var sender :- R.CheckSender(p, e, pin);
    Ok(R.KidOf(sender))
  }

  lemma SameSender(p: Prims, e: E.Envelope, pin: Option<bytes>)
    requires OnePartPin(p, pin) && !EmbedsPureSuite(p, e.flags, e.block)
    ensures A.SenderKid(p, e.flags, e.block, PreAuth(e.Transcript()), pin) == BoundKid(p, e, pin)
  {
    if Authenticated(e.flags) {
      var r := A.ReadMany(e.block, 0, 3);
      SameBlock(e.block, r);
      if r.Ok? && r.value.1 == |e.block| {
        var blk := E.ParseBlock(e.block).value;
        SameVerify(p, blk, PreAuth(e.Transcript()), pin);
      }
    }
  }

  lemma SameVerify(p: Prims, blk: E.SenderBlock, preAuth: bytes, pin: Option<bytes>)
    requires OnePartPin(p, pin)
    requires K.Parse(p, blk.pub, K.ROLE_SIG_PUB).Ok? ==> K.Parse(p, blk.pub, K.ROLE_SIG_PUB).value.suite != 3
    ensures A.VerifySender(p, blk.kid, blk.pub, blk.signature, preAuth, pin)
         == if R.VerifyBlock(p, blk, preAuth, pin).Ok? then Ok(R.VerifyBlock(p, blk, preAuth, pin).value.kid)
            else Err(R.VerifyBlock(p, blk, preAuth, pin).error)
  {
    SameKey(p, blk.pub, K.ROLE_SIG_PUB);
    var b := K.Parse(p, blk.pub, K.ROLE_SIG_PUB);
    if b.Ok? { SamePin(p, pin, b.value.kid); }
  }

  lemma SamePin(p: Prims, pin: Option<bytes>, kid: bytes)
    requires OnePartPin(p, pin)
    ensures A.CheckPin(p, pin, kid) == R.CheckPin(p, pin, kid)
  {
    if pin.Some? { SameSigKeyId(p, pin.value); }
  }

  lemma SameDerive(s: Suite, ssc: bytes, sspq: bytes, preAuth: bytes, senderKid: bytes)
    ensures A.DeriveKey(s, ssc, sspq, preAuth, senderKid) == DeriveKey(s, Legs(ssc, sspq, []), preAuth, senderKid)
  {
    var legs := Legs(ssc, sspq, []);
    assert legs == [ssc, sspq];
    if |ssc| <= 0xFFFF && |sspq| <= 0xFFFF {
      FlatTwo(ssc, sspq);
    } else {
      assert |legs[0]| > 0xFFFF || |legs[1]| > 0xFFFF;
    }
  }

  lemma SameSealed(x: bytes, off: nat)
    requires off <= |x|
    ensures A.SealedRegion(x, off) == E.TakeSealed(x[off..])
  {
    if off + 4 <= |x| {
      assert GetU32(x[off..off + 4]) == GetU32(x[off..]);
      assert x[off + 4..] == x[off..][4..];
    }
  }

  lemma SameOpening(p: Prims, e: E.Envelope, kb: K.Bundle, sender: Option<K.Bundle>, header: bytes)
    requires SuiteOf(e.suite).Ok? && e.suite != 3 && |kb.parts| == 2
    requires e.Printable() && header == E.Header(e)
    ensures A.CombineAndOpen(p, SuiteOf(e.suite).value, kb.parts, e.Fields(), PreAuth(e.Transcript()),
        R.KidOf(sender), e.sealed, header)
         == var plan := R.DerivePlan(p, e, kb, sender, []);
            if plan.Err? then Err(plan.error)
            else R.WrapTag(p.open(plan.value.key, e.nonce, e.sealed, header))
  {
    var s := SuiteOf(e.suite).value;
    var ssc := p.rawExchange(s.kex, kb.parts[0], e.eph);
    var sspq := p.decaps(s.kem, kb.parts[1], e.ct);
    if ssc.Ok? && sspq.Ok? {
      SameDerive(s, ssc.value, sspq.value, PreAuth(e.Transcript()), R.KidOf(sender));
    }
  }

  /** The cursor reads of the header are the field parse of the envelope. */
  lemma SameBody(x: bytes, r: Result<(seq<bytes>, nat)>)
    requires |x| >= 7 && r == A.ReadMany(x, 7, 5)
    ensures r.Err? ==> E.ParseBody(x[5], x[6], x[7..]) == Err(r.error)
    ensures r.Ok? ==> r.value.1 <= |x|
    ensures r.Ok? ==>
              var f, sealed := r.value.0, A.SealedRegion(x, r.value.1);
              E.ParseBody(x[5], x[6], x[7..]) == if sealed.Err? then Err(sealed.error)
                else Ok(E.Envelope(x[5], x[6], f[0], f[1], f[2], f[3], f[4], sealed.value))
  {
    SameFields(x, 7, 5);
    if r.Ok? { SameSealed(x, r.value.1); }
  }

  lemma ParseByBody(x: bytes, body: Result<E.Envelope>)
    requires |x| >= 7 && x[..4] == E.MAGIC && x[4] == E.VERSION && SuiteOf(x[5]).Ok?
    requires body == E.ParseBody(x[5], x[6], x[7..])
    ensures E.Parse(x) == body
  {}

  /** The header a cursor has passed is the header of the parsed envelope. */
  lemma HeaderByCursor(x: bytes, off: nat, e: E.Envelope)
    requires E.Parse(x) == Ok(e) && off <= |x| && E.TakeSealed(x[off..]) == Ok(e.sealed)
    ensures e.Printable() && x[..off] == E.Header(e)
  {
    E.ParseIff(x, e);
    E.TakeSealedIff(x[off..], e.sealed);
    var a, b := E.Header(e), U32(|e.sealed|) + e.sealed;
    assert x == a + b && x == x[..off] + x[off..];
    assert |a| == off;
    SplitEqual(x[..off], x[off..], a, b);
  }

  /** Parsing: the cursor reader finds the fields, the header and the sealed bytes of the envelope. */
  lemma SameParse(x: bytes, r: Result<(seq<bytes>, nat)>)
    requires |x| >= 7 && x[..4] == E.MAGIC && x[4] == E.VERSION && SuiteOf(x[5]).Ok?
    requires r == A.ReadMany(x, 7, 5)
    ensures r.Err? ==> E.Parse(x) == Err(r.error)
    ensures r.Ok? && A.SealedRegion(x, r.value.1).Err? ==> E.Parse(x) == Err(A.SealedRegion(x, r.value.1).error)
    ensures r.Ok? && A.SealedRegion(x, r.value.1).Ok? ==>
              IsParsed(x, r.value.0, r.value.1, A.SealedRegion(x, r.value.1).value)
  {
    SameBody(x, r);
    ParseByBody(x, E.ParseBody(x[5], x[6], x[7..]));
    if r.Ok? && A.SealedRegion(x, r.value.1).Ok? {
      var f, sealed := r.value.0, A.SealedRegion(x, r.value.1).value;
      ParsedHere(x, f, r.value.1, E.Envelope(x[5], x[6], f[0], f[1], f[2], f[3], f[4], sealed));
    }
  }

  lemma ParsedHere(x: bytes, f: seq<bytes>, off: nat, e: E.Envelope)
    requires |x| >= 7 && off <= |x| && |f| == 5 && E.Parse(x) == Ok(e) && e.suite == x[5] && e.flags == x[6]
    requires e.kid == f[0] && e.eph == f[1] && e.ct == f[2] && e.nonce == f[3] && e.block == f[4]
    requires A.SealedRegion(x, off) == Ok(e.sealed)
    ensures IsParsed(x, f, off, e.sealed)
  {
    SameSealed(x, off);
    HeaderByCursor(x, off, e);
    assert e.Fields() == f;
  }

  ghost predicate IsParsed(x: bytes, f: seq<bytes>, off: nat, sealed: bytes) {
    && |x| >= 7 && off <= |x|
    && E.Parse(x).Ok?
    && var e := E.Parse(x).value;
    && e.Fields() == f && e.sealed == sealed && e.suite == x[5] && e.flags == x[6]
    && e.Printable() && x[..off] == E.Header(e)
  }

  /** Two implementations, one format: on every byte string of the common domain both decoders return
      the same plaintext or raise the same error. */
  lemma EnvelopesAgree(p: Prims, x: bytes, priv: bytes, pin: Option<bytes>)
    requires EnvelopeInScope(p, x) && TwoPartPrivate(p, priv) && OnePartPin(p, pin)
    ensures A.OpenEnvelope(p, x, priv, pin) == R.Decrypt(p, x, priv, pin, None, None)
  {
    if |x| >= 7 && x[..4] == E.MAGIC && x[4] == E.VERSION && SuiteOf(x[5]).Ok? {
      var r := A.ReadMany(x, 7, 5);
      SameParse(x, r);
      if r.Ok? && A.SealedRegion(x, r.value.1).Ok? {
        AgreeAfterParse(p, E.Parse(x).value, priv, pin);
      }
    }
  }

  lemma AgreeAfterParse(p: Prims, e: E.Envelope, priv: bytes, pin: Option<bytes>)
    requires TwoPartPrivate(p, priv) && OnePartPin(p, pin)
    requires SuiteOf(e.suite).Ok? && e.suite != 3 && !PpkBound(e.flags) && !EmbedsPureSuite(p, e.flags, e.block)
    requires e.Printable()
    ensures A.OpenFields(p, SuiteOf(e.suite).value, e.flags, e.Fields(), e.sealed, E.Header(e), priv, pin)
         == var plan := R.PlanParsed(p, e, priv, pin, None, None);
            if plan.Err? then Err(plan.error)
            else R.WrapTag(p.open(plan.value.key, e.nonce, e.sealed, E.Header(e)))
  {
    assert A.Transcript(e.suite, e.flags, e.Fields()) == PreAuth(e.Transcript());
    SamePrivate(p, priv, e.suite, e.kid);
    SameSender(p, e, pin);
    assert R.ResolvePpk(e.flags, None, None) == Ok([]);
    var kb := R.MatchRecipient(p, priv, e.suite, e.kid);
    var sender := R.CheckSender(p, e, pin);
    if kb.Ok? && sender.Ok? {
      SameOpening(p, e, kb.value, sender.value, E.Header(e));
    }
  }

  // ---------------------------------------------------------------- the domain is exact

  lemma AltVerifyScope(p: Prims, blk: E.SenderBlock, preAuth: bytes, pin: Option<bytes>)
    requires A.VerifySender(p, blk.kid, blk.pub, blk.signature, preAuth, pin).Ok?
    ensures OnePartPin(p, pin)
    ensures K.Parse(p, blk.pub, K.ROLE_SIG_PUB).Ok? && K.Parse(p, blk.pub, K.ROLE_SIG_PUB).value.suite != 3
  {
    SameKey(p, blk.pub, K.ROLE_SIG_PUB);
    if pin.Some? { SameKey(p, pin.value, K.ROLE_SIG_PUB); }
  }

  lemma AltSenderScope(p: Prims, e: E.Envelope, preAuth: bytes, pin: Option<bytes>)
    requires A.SenderKid(p, e.flags, e.block, preAuth, pin).Ok?
    ensures OnePartPin(p, pin) && !EmbedsPureSuite(p, e.flags, e.block)
  {
    if Authenticated(e.flags) {
      var r := A.ReadMany(e.block, 0, 3);
      SameBlock(e.block, r);
      AltVerifyScope(p, E.ParseBlock(e.block).value, preAuth, pin);
    }
  }

  /** Outside its suites the second decoder never opens anything. */
  lemma AltScope(p: Prims, x: bytes, priv: bytes, pin: Option<bytes>)
    requires A.OpenEnvelope(p, x, priv, pin).Ok?
    ensures |x| >= 7 && x[5] != 3 && TwoPartPrivate(p, priv) && OnePartPin(p, pin)
    ensures E.Parse(x).Ok? && !EmbedsPureSuite(p, x[6], E.Parse(x).value.block)
  {
    var r := A.ReadMany(x, 7, 5);
    SameParse(x, r);
    var e := E.Parse(x).value;
    SameKey(p, priv, K.ROLE_KEM_PRIV);
    assert r.value.0[4] == e.block;
    AltSenderScope(p, e, A.Transcript(x[5], x[6], r.value.0), pin);
  }

  /** With no pre-shared key to offer, the reference opens no PPK-bound envelope. */
  lemma ReferenceScope(p: Prims, x: bytes, priv: bytes, pin: Option<bytes>)
    requires R.Decrypt(p, x, priv, pin, None, None).Ok?
    ensures |x| >= 7 && E.Parse(x).Ok? && !PpkBound(x[6]) && TwoPartPrivate(p, priv)
  {
    var e := E.Parse(x).value;
    E.ParseIff(x, e);
    PlanScope(p, e, priv, pin);
  }

  lemma PlanScope(p: Prims, e: E.Envelope, priv: bytes, pin: Option<bytes>)
    requires SuiteOf(e.suite).Ok? && R.PlanParsed(p, e, priv, pin, None, None).Ok?
    ensures !PpkBound(e.flags) && TwoPartPrivate(p, priv)
  {
    assert R.MatchRecipient(p, priv, e.suite, e.kid).Ok? && R.ResolvePpk(e.flags, None, None).Ok?;
  }

  /** Acceptance agrees exactly: the second decoder's acceptances that are not PPK-bound are the
      reference's acceptances outside the pure-PQC suite, with a single-part pin, and the plaintexts
      are equal. */
  lemma AcceptanceAgreesExactly(p: Prims, x: bytes, priv: bytes, pin: Option<bytes>, m: bytes)
    ensures A.OpenEnvelope(p, x, priv, pin) == Ok(m) && !PpkBound(x[6])
       <==> R.Decrypt(p, x, priv, pin, None, None) == Ok(m) && x[5] != 3 && OnePartPin(p, pin)
            && !EmbedsPureSuite(p, x[6], E.Parse(x).value.block)
  {
    if A.OpenEnvelope(p, x, priv, pin) == Ok(m) {
      AltScope(p, x, priv, pin);
      if !PpkBound(x[6]) { EnvelopesAgree(p, x, priv, pin); }
    }
    if R.Decrypt(p, x, priv, pin, None, None) == Ok(m) {
      ReferenceScope(p, x, priv, pin);
      if x[5] != 3 && OnePartPin(p, pin) && !EmbedsPureSuite(p, x[6], E.Parse(x).value.block) {
        EnvelopesAgree(p, x, priv, pin);
      }
    }
  }

  // ---------------------------------------------------------------- agreement on streams

  lemma AltChunksStep(x: bytes, off: nat)
    requires off < |x|
    ensures ReadBlob(x, off).Err? ==> A.ReadChunks(x, off) == Err(ReadBlob(x, off).error)
    ensures ReadBlob(x, off).Ok? ==>
              A.ReadChunks(x, off) == Prepended([ReadBlob(x, off).value.0], A.ReadChunks(x, ReadBlob(x, off).value.1))
  {}

  lemma {:induction false} SameChunks(x: bytes, off: nat)
    requires off <= |x|
    ensures A.ReadChunks(x, off) == TakeBlobs(x[off..])
    decreases |x| - off
  {
    if off < |x| {
      TakeBlobsStep(x, off);
      AltChunksStep(x, off);
      if ReadBlob(x, off).Ok? {
        SameChunks(x, ReadBlob(x, off).value.1);
      }
    }
  }

  /** The accumulating loop of the one and the recursion of the other. */
  lemma {:induction false} SameOpenChunks(p: Prims, key: Key, base: bytes, header: bytes, blobs: seq<bytes>, i: nat,
                                          out: bytes)
    requires i <= |blobs|
    ensures A.OpenChunks(p, key, base, header, blobs, i, out)
        == Prepended(out, S.OpenBlobs(p, key, base, header, blobs, i))
    decreases |blobs| - i
  {
    if i == |blobs| {
      PrependedUnits(out, Ok(out));
    } else if i <= 0xFFFF_FFFF {
      var ctr := Ctr(i, i == |blobs| - 1);
      assert ctr == U32(i) + [if i == |blobs| - 1 then 1 else 0];
      var m := p.open(key, base + ctr, blobs[i], header + ctr);
      if m.Ok? {
        SameOpenChunks(p, key, base, header, blobs, i + 1, out + m.value);
        PrependedTwice(out, m.value, S.OpenBlobs(p, key, base, header, blobs, i + 1));
      }
    }
  }

  /** The cursor that read the four fields stands at the end of the parsed header. */
  ghost predicate IsHead(x: bytes, f: seq<bytes>, off: nat, h: S.Head) {
    && |x| >= 7 && 7 <= off && off + 4 <= |x|
    && h.Fields() == f && h.t.suite == x[5] && h.t.flags == x[6]
    && AllShort(f) && x[..off + 4] == S.PrintHead(h)
    && S.ParseHead(x) == Ok((h, x[off + 4..]))
  }

  lemma SameStreamHead(x: bytes, r: Result<(seq<bytes>, nat)>) returns (h: S.Head)
    requires |x| >= 7 && x[..4] == S.STREAM_MAGIC && x[4] == S.VERSION && SuiteOf(x[5]).Ok?
    requires r == A.ReadMany(x, 7, 4)
    ensures r.Err? ==> S.ParseHead(x) == Err(r.error)
    ensures r.Ok? && r.value.1 + 4 > |x| ==> S.ParseHead(x) == Err(TruncatedStreamHeader)
    ensures r.Ok? && r.value.1 + 4 <= |x| ==> IsHead(x, r.value.0, r.value.1, h)
  {
    SameFields(x, 7, 4);
    if r.Ok? && r.value.1 + 4 <= |x| {
      var (f, off) := r.value;
      h := HeadOf(x, f, off);
      assert x[off..][..4] == x[off..off + 4] && x[off..][4..] == x[off + 4..];
      S.ParseHeadIff(x, h, x[off + 4..]);
      SplitEqual(x[..off + 4], x[off + 4..], S.PrintHead(h), x[off + 4..]);
      assert h.Fields() == f;
    } else {
      h := S.Head(Transcript(0, 0, [], [], [], []), []);
    }
  }

  function HeadOf(x: bytes, f: seq<bytes>, off: nat): S.Head
    requires |x| >= 7 && |f| == 4 && off + 4 <= |x|
  {
    S.Head(Transcript(x[5], x[6], f[0], f[1], f[2], f[3]), x[off..off + 4])
  }

  /** Both stream readers agree on every byte string outside the pure-PQC suite. */
  lemma StreamsAgree(p: Prims, x: bytes, priv: bytes)
    requires (|x| > 5 ==> x[5] != 3) && TwoPartPrivate(p, priv)
    ensures A.OpenStream(p, x, priv) == S.OpenStream(p, x, priv)
  {
    if |x| >= 7 && x[..4] == S.STREAM_MAGIC && x[4] == S.VERSION && SuiteOf(x[5]).Ok? {
      var r := A.ReadMany(x, 7, 4);
      var h := SameStreamHead(x, r);
      SameFramed(p, x, priv, r, h);
    } else {
      S.BadHead(p, x, priv);
    }
  }

  lemma SameFramed(p: Prims, x: bytes, priv: bytes, r: Result<(seq<bytes>, nat)>, h: S.Head)
    requires |x| >= 7 && SuiteOf(x[5]).Ok? && x[5] != 3 && TwoPartPrivate(p, priv)
    requires r.Err? ==> S.ParseHead(x) == Err(r.error)
    requires r.Ok? ==> |r.value.0| == 4 && 7 <= r.value.1
    requires r.Ok? && r.value.1 + 4 > |x| ==> S.ParseHead(x) == Err(TruncatedStreamHeader)
    requires r.Ok? && r.value.1 + 4 <= |x| ==> IsHead(x, r.value.0, r.value.1, h)
    ensures A.OpenFramed(p, SuiteOf(x[5]).value, x, r, priv) == S.OpenStream(p, x, priv)
  {
    if r.Ok? && r.value.1 + 4 <= |x| {
      SameAfterHead(p, x, priv, r.value.1 + 4, h);
    } else {
      S.BadHead(p, x, priv);
    }
  }

  lemma SameAfterHead(p: Prims, x: bytes, priv: bytes, end: nat, h: S.Head)
    requires 7 <= end <= |x| && x[6] == h.t.flags && SuiteOf(h.t.suite).Ok? && h.t.suite != 3 && TwoPartPrivate(p, priv)
    requires AllShort(h.Fields()) && x[..end] == S.PrintHead(h)
    requires S.ParseHead(x) == Ok((h, x[end..]))
    ensures A.OpenBody(p, SuiteOf(h.t.suite).value, x, end, h.Fields(), priv) == S.OpenStream(p, x, priv)
  {
    var r := S.AfterHead(p, h, S.StreamKey(p, h.t, priv), TakeBlobs(x[end..]));
    assert A.OpenBody(p, SuiteOf(h.t.suite).value, x, end, h.Fields(), priv) == r by {
      SameBodies(p, x, end, priv, h);
    }
    assert S.OpenStream(p, x, priv) == r by {
      S.OpenAfterHead(p, x, priv, h, x[end..]);
    }
  }

  /** After the header both readers do the same. */
  lemma SameBodies(p: Prims, x: bytes, off: nat, priv: bytes, h: S.Head)
    requires 7 <= off <= |x| && SuiteOf(h.t.suite).Ok? && h.t.suite != 3 && x[6] == h.t.flags && TwoPartPrivate(p, priv)
    requires AllShort(h.Fields()) && x[..off] == S.PrintHead(h)
    ensures A.OpenBody(p, SuiteOf(h.t.suite).value, x, off, h.Fields(), priv)
         == S.AfterHead(p, h, S.StreamKey(p, h.t, priv), TakeBlobs(x[off..]))
  {
    SameChunks(x, off);
    SameStreamKey(p, priv, h);
    var k, blobs := S.StreamKey(p, h.t, priv), TakeBlobs(x[off..]);
    if k.Ok? && blobs.Ok? {
      SameOpenChunks(p, k.value.key, h.t.nonce, S.PrintHead(h), blobs.value, 0, []);
      PrependedUnits([], S.OpenBlobs(p, k.value.key, h.t.nonce, S.PrintHead(h), blobs.value, 0));
    }
  }

  lemma SameStreamKey(p: Prims, priv: bytes, h: S.Head)
    requires TwoPartPrivate(p, priv) && SuiteOf(h.t.suite).Ok? && h.t.suite != 3
    ensures A.StreamKey(p, SuiteOf(h.t.suite).value, h.t.flags, h.Fields(), priv)
         == if S.StreamKey(p, h.t, priv).Ok? then Ok(S.StreamKey(p, h.t, priv).value.key)
            else Err(S.StreamKey(p, h.t, priv).error)
  {
    var s := SuiteOf(h.t.suite).value;
    assert A.Transcript(h.t.suite, h.t.flags, h.Fields()) == PreAuth(h.t);
    SamePrivate(p, priv, h.t.suite, h.t.kid);
    var kb := R.MatchRecipient(p, priv, h.t.suite, h.t.kid);
    if kb.Ok? {
      var ssc, sspq := p.rawExchange(s.kex, kb.value.parts[0], h.t.eph), p.decaps(s.kem, kb.value.parts[1], h.t.ct);
      if ssc.Ok? && sspq.Ok? {
        SameDerive(s, ssc.value, sspq.value, PreAuth(h.t), []);
      }
    }
  }
}
