/** The structural negatives of interop/gen_pstv_vectors.py, for every envelope and not one vector: each
    family is rejected with the error its category names.  And the promise behind the fuzz tests: the
    decoders raise their own errors only. */
module Negatives {
  import opened Bytes
  import opened Framing
  import opened Primitives
  import opened Combiner
  import opened Sessions
  import E = Envelope
  import K = KeyBundle
  import R = Shield
  import RT = ShieldTheorems
  import S = Stream
  import T = RunTheorems
  import W = Tamper

  // ---------------------------------------------------------------- framing

  /** A list of fields cut short: a length or a value is missing. */
  lemma {:induction false} CutFields(f: seq<bytes>, n: nat)
    requires AllShort(f) && n < |FlatTlv(f)|
    ensures TakeFields(FlatTlv(f)[..n], |f|).Err?
    ensures TakeFields(FlatTlv(f)[..n], |f|).error in {MissingTlvLength, TlvPastEnd}
    decreases |f|
  {
    var s, v, rest := FlatTlv(f), f[0], FlatTlv(f[1..]);
    var field := 2 + |v|;
    assert s == U16(|v|) + (v + rest);
    U16RoundTrip(|v|, v + rest);
    if n >= 2 {
      assert GetU16(s[..n]) == GetU16(s) == |v|;
      if n >= field {
        assert s[..n] == Tlv(v) + rest[..n - field];
        TakeTlvIff(s[..n], v, rest[..n - field]);
        CutFields(f[1..], n - field);
      }
    }
  }

  /** The category of an envelope cut after `n` bytes. */
  function CutError(header: nat, n: nat): set<Error> {
    if n < 7 then {NotAnEnvelope}
    else if n < header then {MissingTlvLength, TlvPastEnd}
    else if n < header + 4 then {MissingCiphertextLength}
    else {LengthMismatch}
  }

  /** A truncated envelope: identity, header under-run, missing ciphertext length or exact-length bound,
      by where the cut falls. */
  lemma Truncated(x: bytes, e: E.Envelope, n: nat)
    requires E.Parse(x) == Ok(e) && n < |x|
    ensures e.Printable() && E.Parse(x[..n]).Err? && E.Parse(x[..n]).error in CutError(|E.Header(e)|, n)
  {
    E.ParseIff(x, e);
    E.PrintPrefix(e);
    if n >= 7 { TruncatedBody(e, x[7..], n - 7); assert x[..n][7..] == x[7..][..n - 7]; }
  }

  lemma TruncatedBody(e: E.Envelope, s: bytes, n: nat)
    requires e.Printable() && s == FlatTlv(e.Fields()) + (U32(|e.sealed|) + e.sealed) && n < |s|
    ensures var r, header := E.ParseBody(e.suite, e.flags, s[..n]), |E.Header(e)|;
            r.Err? && r.error in CutError(header, n + 7)
  {
    var flat, tail := FlatTlv(e.Fields()), U32(|e.sealed|) + e.sealed;
    if n < |flat| {
      assert s[..n] == flat[..n];
      CutFields(e.Fields(), n);
    } else {
      var cut := tail[..n - |flat|];
      assert s[..n] == flat + cut;
      TakeFieldsComplete(e.Fields(), cut);
      if |cut| >= 4 {
        assert cut == U32(|e.sealed|) + e.sealed[..|cut| - 4];
        U32RoundTrip(|e.sealed|, e.sealed[..|cut| - 4]);
      }
    }
  }

  /** A length field that claims more than remains, after `pre` intact fields. */
  lemma {:induction false} InflatedField(pre: seq<bytes>, n: nat, tail: bytes, more: nat)
    requires AllShort(pre) && |tail| < n <= 0xFFFF
    ensures TakeFields(FlatTlv(pre) + (U16(n) + tail), |pre| + 1 + more) == Err(TlvPastEnd)
    decreases |pre|
  {
    var s := FlatTlv(pre) + (U16(n) + tail);
    if pre == [] {
      assert s == U16(n) + tail;
      U16RoundTrip(n, tail);
    } else {
      var rest := FlatTlv(pre[1..]) + (U16(n) + tail);
      S.Regroup(Tlv(pre[0]), FlatTlv(pre[1..]), U16(n) + tail);
      TakeTlvIff(s, pre[0], rest);
      InflatedField(pre[1..], n, tail, more);
    }
  }

  /** An inner length inflated past the end of the envelope. */
  lemma InflatedHeader(x: bytes, pre: seq<bytes>, n: nat, tail: bytes)
    requires |x| >= 7 && x[..4] == E.MAGIC && x[4] == E.VERSION && SuiteOf(x[5]).Ok?
    requires AllShort(pre) && |pre| < 5 && |tail| < n <= 0xFFFF && x[7..] == FlatTlv(pre) + (U16(n) + tail)
    ensures E.Parse(x) == Err(TlvPastEnd)
  {
    InflatedField(pre, n, tail, 4 - |pre|);
  }

  // ---------------------------------------------------------------- cross-checks

  /** Another suite byte: unknown, or not the recipient's. */
  lemma SuiteMutated(p: Prims, x: bytes, b: byte, priv: bytes, pin: Option<bytes>, psk: Option<bytes>,
                     policy: Option<string>)
    requires E.Parse(x).Ok? && b != x[5]
    requires R.ParseParts(p, priv, K.ROLE_KEM_PRIV, 2).Ok?
    requires R.ParseParts(p, priv, K.ROLE_KEM_PRIV, 2).value.suite == x[5]
    ensures R.Decrypt(p, x[5 := b], priv, pin, psk, policy)
        == Err(if SuiteOf(b).Ok? then SuiteMismatch else UnknownSuite)
  {
    var e, y := E.Parse(x).value, x[5 := b];
    assert y[..4] == x[..4] && y[7..] == x[7..] && y[5] == b && y[6] == x[6] && y[4] == x[4];
    if SuiteOf(b).Ok? {
      assert E.ParseBody(b, x[6], x[7..]) == Ok(e.(suite := b));
      assert E.Parse(y) == Ok(e.(suite := b));
      assert R.MatchRecipient(p, priv, b, e.kid) == Err(SuiteMismatch);
    }
  }

  /** Another recipient's key of the same suite. */
  lemma WrongKey(p: Prims, x: bytes, e: E.Envelope, priv: bytes, kb: K.Bundle, pin: Option<bytes>, psk: Option<bytes>,
                 policy: Option<string>)
    requires E.Parse(x) == Ok(e) && R.ParseParts(p, priv, K.ROLE_KEM_PRIV, 2) == Ok(kb) && kb.suite == e.suite
    requires kb.kid != e.kid
    ensures R.Decrypt(p, x, priv, pin, psk, policy) == Err(WrongRecipient)
  {
    assert R.MatchRecipient(p, priv, e.suite, e.kid) == Err(WrongRecipient);
  }

  /** What `decrypt` raises once its sender checks fail. */
  lemma SenderFails(p: Prims, x: bytes, e: E.Envelope, priv: bytes, pin: Option<bytes>, psk: Option<bytes>,
                    policy: Option<string>)
    requires E.Parse(x) == Ok(e) && R.MatchRecipient(p, priv, e.suite, e.kid).Ok? && R.CheckSender(p, e, pin).Err?
    ensures R.Decrypt(p, x, priv, pin, psk, policy) == Err(R.CheckSender(p, e, pin).error)
  {}

  /** FLAG_AUTHENTICATED set on an anonymous envelope with an empty sender block: the block under-runs. */
  lemma AuthFlagOverNothing(p: Prims, x: bytes, e: E.Envelope, b: byte, priv: bytes, pin: Option<bytes>,
                            psk: Option<bytes>, policy: Option<string>)
    requires E.Parse(x) == Ok(e) && R.MatchRecipient(p, priv, e.suite, e.kid).Ok? && e.block == [] && Authenticated(b)
    ensures R.Decrypt(p, x[6 := b], priv, pin, psk, policy) == Err(MissingTlvLength)
  {
    var y, f := x[6 := b], e.(flags := b);
    assert y[..4] == x[..4] && y[7..] == x[7..] && y[4] == x[4] && y[5] == x[5] && y[6] == b;
    assert E.Parse(y) == Ok(f);
    assert E.ParseBlock(f.block) == Err(MissingTlvLength);
    SenderFails(p, y, f, priv, pin, psk, policy);
  }

  /** Overwriting the value of the fifth header span, length for length, changes the sender block and
      nothing else: the edit behind the corrupted key-id, the swapped bundle and the grafted signature. */
  lemma BlockOverwritten(x: bytes, e: E.Envelope, block: bytes, y: bytes)
    requires E.Parse(x) == Ok(e) && |block| == |e.block|
    requires var s := W.FieldSpans(e.Fields(), 7)[4];
             s.valPos <= |x| && s.valPos + s.n <= |x| && y == x[..s.valPos] + block + x[s.valPos + s.n..]
    ensures E.Parse(y) == Ok(e.(block := block))
  {
    var f, s, tail := e.(block := block), W.FieldSpans(e.Fields(), 7)[4], U32(|e.sealed|) + e.sealed;
    E.ParseIff(x, e);
    W.EnvelopeLayout(x, e);
    W.FieldSpansTile(x, 7, e.Fields(), tail, 4);
    BlockValue(x, e, s);
    PrintedAround(e);
    PrintedAround(f);
    Overwrite(HeadFront(e), e.block, tail, x, s.valPos, block, y);
    E.ParseIff(y, f);
  }

  lemma BlockValue(x: bytes, e: E.Envelope, s: W.Span)
    requires s == W.FieldSpans(e.Fields(), 7)[4]
    ensures s.n == |e.block|
  {
    W.FieldSpansChain(e.Fields(), 7, 4);
  }

  lemma Overwrite(front: bytes, a: bytes, tail: bytes, x: bytes, v: nat, b: bytes, y: bytes)
    requires x == front + (a + tail) && v + |a| + |tail| == |x| && y == x[..v] + b + x[v + |a|..]
    ensures y == front + (b + tail)
  {
    assert v == |front| && x[..v] == front && x[v + |a|..] == tail;
  }

  /** The header bytes before the sender block's value. */
  function HeadFront(e: E.Envelope): bytes
    requires AllShort([e.kid, e.eph, e.ct, e.nonce]) && |e.block| <= 0xFFFF
  {
    E.MAGIC + [E.VERSION, e.suite, e.flags] + FlatTlv([e.kid, e.eph, e.ct, e.nonce]) + U16(|e.block|)
  }

  lemma PrintedAround(e: E.Envelope)
    requires e.Printable()
    ensures AllShort([e.kid, e.eph, e.ct, e.nonce])
    ensures E.Print(e) == HeadFront(e) + (e.block + (U32(|e.sealed|) + e.sealed))
  {
    var four := [e.kid, e.eph, e.ct, e.nonce];
    FlatTlvAppend(four, e.block);
    assert e.Fields() == four + [e.block];
    var prefix := E.MAGIC + [E.VERSION, e.suite, e.flags];
    assert E.Header(e) == prefix + (FlatTlv(four) + (U16(|e.block|) + e.block));
    assert E.Header(e) == HeadFront(e) + e.block;
  }

  /** A claimed key-id that is not the embedded bundle's: corrupted, or the bundle swapped. */
  lemma SenderSwapped(p: Prims, x: bytes, e: E.Envelope, blk: E.SenderBlock, b: K.Bundle, priv: bytes,
                      pin: Option<bytes>, psk: Option<bytes>, policy: Option<string>)
    requires E.Parse(x) == Ok(e) && R.MatchRecipient(p, priv, e.suite, e.kid).Ok? && Authenticated(e.flags)
    requires E.ParseBlock(e.block) == Ok(blk) && R.ParseParts(p, blk.pub, K.ROLE_SIG_PUB, 1) == Ok(b)
    requires blk.kid != b.kid
    ensures R.Decrypt(p, x, priv, pin, psk, policy) == Err(SenderKidMismatch)
  {
    SenderFails(p, x, e, priv, pin, psk, policy);
  }

  /** A signature verifies for no other message, and verification answers. */
  ghost predicate SignaturesBind(p: Prims) {
    && (forall alg, pk, msg, sig, ctx :: p.verify(alg, pk, msg, sig, ctx).Ok?)
    && (forall alg, sk, msg, ctx, coins, alg', pk', msg' :: p.sign(alg, sk, msg, ctx, coins).Ok? && msg' != msg ==>
          p.verify(alg', pk', msg', p.sign(alg, sk, msg, ctx, coins).value, ctx) != Ok(true))
  }

  lemma OtherText(a: bytes, b: bytes, tail: bytes)
    requires a != b
    ensures a + tail != b + tail
  {
    assert |a| == |b| ==> (a + tail)[..|a|] == a && (b + tail)[..|b|] == b;
    assert |a + tail| == |a| + |tail| && |b + tail| == |b| + |tail|;
  }

  /** Misbinding: a sender block that the same signer wrote for another transcript passes the key-id
      check and fails on the signature. */
  lemma BlockTransplanted(p: Prims, x: bytes, e: E.Envelope, s: Suite, sk: bytes, pk: bytes, other: bytes, coins: bytes,
                          priv: bytes, pin: Option<bytes>, psk: Option<bytes>, policy: Option<string>)
    requires E.Parse(x) == Ok(e) && R.MatchRecipient(p, priv, e.suite, e.kid).Ok? && Authenticated(e.flags)
    requires SuiteOf(s.id) == Ok(s) && RT.SenderMatches(p, s.id, Some(sk), Some(pk), None) && SignaturesBind(p)
    requires R.SignHandshake(p, s, other, Some(sk), Some(pk), coins).Ok? && other != PreAuth(e.Transcript())
    requires e.block == R.SignHandshake(p, s, other, Some(sk), Some(pk), coins).value.block
    ensures R.Decrypt(p, x, priv, pin, psk, policy) == Err(BadSignature)
  {
    var kb, b := R.ParseParts(p, sk, K.ROLE_SIG_PRIV, 1).value, R.ParseParts(p, pk, K.ROLE_SIG_PUB, 1).value;
    var sig := p.sign(s.sig, kb.parts[0], other + kb.kid, R.AuthCtx(), coins).value;
    E.ParseBlockIff(e.block, E.SenderBlock(kb.kid, pk, sig));
    OtherText(PreAuth(e.Transcript()), other, kb.kid);
    VerifiesElsewhere(p, s.sig, kb.parts[0], other + kb.kid, coins, SuiteOf(b.suite).value.sig, b.parts[0],
                      PreAuth(e.Transcript()) + kb.kid);
    T.FalseSignature(p, e, b, E.SenderBlock(kb.kid, pk, sig), pin);
    SenderFails(p, x, e, priv, pin, psk, policy);
  }

  lemma VerifiesElsewhere(p: Prims, alg: Sig, sk: bytes, msg: bytes, coins: bytes, alg': Sig, pk: bytes, msg': bytes)
    requires SignaturesBind(p) && p.sign(alg, sk, msg, R.AuthCtx(), coins).Ok? && msg' != msg
    ensures p.verify(alg', pk, msg', p.sign(alg, sk, msg, R.AuthCtx(), coins).value, R.AuthCtx()) == Ok(false)
  {
    var v := p.verify(alg', pk, msg', p.sign(alg, sk, msg, R.AuthCtx(), coins).value, R.AuthCtx());
    assert v.Ok? && v == Ok(v.value) && !v.value;
  }

  /** A valid authenticated envelope opened with a pin on somebody else. */
  lemma WrongPin(p: Prims, x: bytes, plan: R.Plan, priv: bytes, pin: Option<bytes>, other: bytes, psk: Option<bytes>,
                 policy: Option<string>)
    requires R.PlanOpen(p, x, priv, pin, psk, policy) == Ok(plan) && plan.sender.Some?
    requires K.Parse(p, other, K.ROLE_SIG_PUB).Ok?
    requires K.Parse(p, other, K.ROLE_SIG_PUB).value.kid != plan.sender.value.kid
    ensures R.Decrypt(p, x, priv, Some(other), psk, policy) == Err(WrongSender)
  {
    E.ParseIff(x, plan.e);
    PlanChecks(p, plan.e, priv, pin, psk, policy, plan);
    var blk := E.ParseBlock(plan.e.block).value;
    OtherPin(p, blk, PreAuth(plan.e.Transcript()), pin, other, plan.sender.value);
    SenderFails(p, x, plan.e, priv, Some(other), psk, policy);
  }

  lemma OtherPin(p: Prims, blk: E.SenderBlock, preAuth: bytes, pin: Option<bytes>, other: bytes, b: K.Bundle)
    requires R.VerifyBlock(p, blk, preAuth, pin) == Ok(b)
    requires K.Parse(p, other, K.ROLE_SIG_PUB).Ok? && K.Parse(p, other, K.ROLE_SIG_PUB).value.kid != b.kid
    ensures R.VerifyBlock(p, blk, preAuth, Some(other)) == Err(WrongSender)
  {}

  lemma PlanChecks(p: Prims, e: E.Envelope, priv: bytes, pin: Option<bytes>, psk: Option<bytes>,
                   policy: Option<string>, plan: R.Plan)
    requires SuiteOf(e.suite).Ok? && R.PlanParsed(p, e, priv, pin, psk, policy) == Ok(plan) && plan.sender.Some?
    ensures R.MatchRecipient(p, priv, e.suite, e.kid).Ok? && R.CheckSender(p, e, pin) == Ok(plan.sender)
    ensures Authenticated(e.flags) && E.ParseBlock(e.block).Ok?
    ensures R.VerifyBlock(p, E.ParseBlock(e.block).value, PreAuth(e.Transcript()), pin) == Ok(plan.sender.value)
  {
    var sender := R.CheckSender(p, e, pin);
    assert sender.Ok?;
  }

  // ---------------------------------------------------------------- streams

  /** The category of a stream whose header is cut after `n` bytes. */
  function HeadCutError(header: nat, n: nat): set<Error> {
    if n < 7 then {NotAStream}
    else if n + 4 < header then {MissingTlvLength, TlvPastEnd}
    else {TruncatedStreamHeader}
  }

  /** A stream cut inside its header. */
  lemma StreamHeaderCut(p: Prims, x: bytes, h: S.Head, rest: bytes, n: nat, priv: bytes)
    requires S.ParseHead(x) == Ok((h, rest)) && AllShort(h.Fields()) && n < |S.PrintHead(h)|
    ensures n <= |x| && S.OpenStream(p, x[..n], priv).Err?
    ensures S.OpenStream(p, x[..n], priv).error in HeadCutError(|S.PrintHead(h)|, n)
  {
    S.ParseHeadIff(x, h, rest);
    if n >= 7 {
      var prefix, flat := S.STREAM_MAGIC + [S.VERSION, h.t.suite, h.t.flags], FlatTlv(h.Fields());
      Reassociate(prefix, flat, h.size, rest);
      assert x[7..] == flat + (h.size + rest);
      var s := x[7..][..n - 7];
      assert x[..n][7..] == s && x[..n][..4] == x[..4];
      if n - 7 < |flat| {
        assert s == flat[..n - 7];
        CutFields(h.Fields(), n - 7);
      } else {
        assert s == flat + h.size[..n - 7 - |flat|];
        TakeFieldsComplete(h.Fields(), h.size[..n - 7 - |flat|]);
      }
    }
    S.BadHead(p, x[..n], priv);
  }

  /** Another suite byte, or another recipient's key, on a stream. */
  lemma StreamCrossChecks(p: Prims, x: bytes, h: S.Head, rest: bytes, b: byte, priv: bytes, kb: K.Bundle)
    requires S.ParseHead(x) == Ok((h, rest)) && R.ParseParts(p, priv, K.ROLE_KEM_PRIV, 2) == Ok(kb)
    ensures b != kb.suite ==>
              S.OpenStream(p, x[5 := b], priv) == Err(if SuiteOf(b).Ok? then SuiteMismatch else UnknownSuite)
    ensures kb.suite == h.t.suite && kb.kid != h.t.kid ==> S.OpenStream(p, x, priv) == Err(WrongRecipient)
  {
    S.ParseHeadIff(x, h, rest);
    var y, g := x[5 := b], h.(t := h.t.(suite := b));
    assert y[..4] == x[..4] && y[7..] == x[7..] && y[5] == b && y[6] == x[6] && y[4] == x[4];
    if SuiteOf(b).Ok? {
      assert S.ParseHead(y) == Ok((g, rest));
      S.ParseHeadIff(y, g, rest);
      S.OpenAfterHead(p, y, priv, g, rest);
    } else {
      S.BadHead(p, y, priv);
    }
    S.OpenAfterHead(p, x, priv, h, rest);
  }

  // ---------------------------------------------------------------- no foreign exception

  /** The libraries raise their own exceptions, never `struct.error`. */
  ghost predicate LibraryErrors(p: Prims) {
    && (forall kex, priv, peer :: p.rawExchange(kex, priv, peer).Err?
         ==> p.rawExchange(kex, priv, peer).error != PackRange)
    && (forall kem, dk, ct :: p.decaps(kem, dk, ct).Err? ==> p.decaps(kem, dk, ct).error != PackRange)
    && (forall alg, pk, msg, sig, ctx :: p.verify(alg, pk, msg, sig, ctx).Err? ==>
          p.verify(alg, pk, msg, sig, ctx).error != PackRange)
    && (forall key, nonce, ct, aad :: p.open(key, nonce, ct, aad).Err?
         ==> p.open(key, nonce, ct, aad).error != PackRange)
  }

  lemma {:induction false} FieldsRaise(s: bytes, n: nat)
    ensures TakeFields(s, n).Err? ==> TakeFields(s, n).error in {MissingTlvLength, TlvPastEnd}
  {
    if n > 0 && TakeTlv(s).Ok? { FieldsRaise(TakeTlv(s).value.1, n - 1); }
  }

  lemma {:induction false} PartsRaise(s: bytes)
    ensures TakeTlvs(s).Err? ==> TakeTlvs(s).error in {MissingTlvLength, TlvPastEnd}
    decreases |s|
  {
    if s != [] && TakeTlv(s).Ok? { PartsRaise(TakeTlv(s).value.1); }
  }

  lemma {:induction false} BlobsRaise(s: bytes)
    ensures TakeBlobs(s).Err? ==> TakeBlobs(s).error in {MissingChunkLength, ChunkPastEnd}
    decreases |s|
  {
    if s != [] && TakeBlob(s).Ok? { BlobsRaise(TakeBlob(s).value.1); }
  }

  lemma KeyRaises(p: Prims, buf: bytes, role: byte)
    ensures K.Parse(p, buf, role).Err? ==> K.Parse(p, buf, role).error != PackRange
  {
    if |buf| >= 7 && TakeTlv(buf[7..]).Ok? { PartsRaise(TakeTlv(buf[7..]).value.1); }
  }

  lemma PinRaises(p: Prims, pin: Option<bytes>, kid: bytes)
    ensures R.CheckPin(p, pin, kid).Err? ==> R.CheckPin(p, pin, kid).error != PackRange
  {
    if pin.Some? { KeyRaises(p, pin.value, K.ROLE_SIG_PUB); }
  }

  lemma BlockRaises(p: Prims, blk: E.SenderBlock, preAuth: bytes, pin: Option<bytes>)
    requires LibraryErrors(p)
    ensures R.VerifyBlock(p, blk, preAuth, pin).Err? ==> R.VerifyBlock(p, blk, preAuth, pin).error != PackRange
  {
    KeyRaises(p, blk.pub, K.ROLE_SIG_PUB);
    var b := R.ParseParts(p, blk.pub, K.ROLE_SIG_PUB, 1);
    if b.Ok? { PinRaises(p, pin, b.value.kid); }
  }

  lemma SenderRaises(p: Prims, e: E.Envelope, pin: Option<bytes>)
    requires LibraryErrors(p)
    ensures R.CheckSender(p, e, pin).Err? ==> R.CheckSender(p, e, pin).error != PackRange
  {
    FieldsRaise(e.block, 3);
    if Authenticated(e.flags) && E.ParseBlock(e.block).Ok? {
      BlockRaises(p, E.ParseBlock(e.block).value, PreAuth(e.Transcript()), pin);
    }
  }

  lemma DeriveRaises(p: Prims, e: E.Envelope, kb: K.Bundle, sender: Option<K.Bundle>, psk: bytes)
    requires Lengths(p) && LibraryErrors(p) && SuiteOf(e.suite).Ok? && |kb.parts| == 2
    ensures R.DerivePlan(p, e, kb, sender, psk) == Err(PackRange) <==> SecretsOk(p, e, kb) && |psk| > 0xFFFF
  {
    var s := SuiteOf(e.suite).value;
    var ssc, sspq := p.Exchange(s.kex, kb.parts[0], e.eph), p.decaps(s.kem, kb.parts[1], e.ct);
    if ssc.Ok? && sspq.Ok? {
      var legs := Legs(ssc.value, sspq.value, psk);
      assert |ssc.value| <= 56 && |sspq.value| == 32;
      assert forall i :: 0 <= i < |legs| ==> legs[i] == ssc.value || legs[i] == sspq.value || legs[i] == psk;
      assert psk != [] ==> legs[2] == psk;
    }
  }

  /** Both primitives return. */
  predicate SecretsOk(p: Prims, e: E.Envelope, kb: K.Bundle)
    requires SuiteOf(e.suite).Ok? && |kb.parts| == 2
  {
    var s := SuiteOf(e.suite).value;
    p.Exchange(s.kex, kb.parts[0], e.eph).Ok? && p.decaps(s.kem, kb.parts[1], e.ct).Ok?
  }

  /** `decrypt` gets as far as the third leg: the envelope parses and is bound to a pre-shared key,
      recipient, sender and policy checks pass, and both primitives return. */
  predicate ReachesThirdLeg(p: Prims, e: E.Envelope, priv: bytes, pin: Option<bytes>, psk: Option<bytes>,
                            policy: Option<string>) {
    && SuiteOf(e.suite).Ok?
    && R.MatchRecipient(p, priv, e.suite, e.kid).Ok?
    && R.CheckSender(p, e, pin).Ok?
    && PpkBound(e.flags) && R.GateAdmits(true, R.Given(psk) != [], policy)
    && SecretsOk(p, e, R.MatchRecipient(p, priv, e.suite, e.kid).value)
  }

  /** When `decrypt` raises `struct.error`, on arbitrary bytes, keys, pins and policies: exactly for a
      pre-shared key of 2^16 bytes or more that it actually frames. */
  lemma DecryptRaisesCleanly(p: Prims, x: bytes, priv: bytes, pin: Option<bytes>, psk: Option<bytes>,
                             policy: Option<string>)
    requires Lengths(p) && LibraryErrors(p)
    ensures R.Decrypt(p, x, priv, pin, psk, policy) == Err(PackRange) <==>
              |R.Given(psk)| > 0xFFFF && E.Parse(x).Ok? && ReachesThirdLeg(p, E.Parse(x).value, priv, pin, psk, policy)
  {
    EnvelopeRaises(x);
    var e := E.Parse(x);
    if e.Ok? {
      E.ParseIff(x, e.value);
      KeyRaises(p, priv, K.ROLE_KEM_PRIV);
      SenderRaises(p, e.value, pin);
      PlanRaises(p, e.value, priv, pin, psk, policy);
    }
  }

  /** An input on which it does: an honest envelope sealed with a pre-shared key, opened by its recipient
      with a longer one. */
  lemma LongKeyRaises(p: Prims, m: bytes, id: byte, xPriv: bytes, seed: bytes, ppk: bytes, psk: bytes, c: R.Coins)
    requires Lengths(p) && LibraryErrors(p) && KeysAgree(p) && K.RecipientKeys(p, id, xPriv, seed).Ok?
    requires ppk != [] && |psk| > 0xFFFF
    requires var (pub, priv) := K.RecipientKeys(p, id, xPriv, seed).value;
             K.Printable(pub) && K.Printable(priv) && R.Encrypt(p, m, K.Print(pub), None, None, Some(ppk), c).Ok?
    ensures var (pub, priv) := K.RecipientKeys(p, id, xPriv, seed).value;
            var x := Output(R.Encrypt(p, m, K.Print(pub), None, None, Some(ppk), c).value);
            R.Decrypt(p, x, K.Print(priv), None, Some(psk), Some("required")) == Err(PackRange)
  {
    var (pub, priv) := K.RecipientKeys(p, id, xPriv, seed).value;
    var x := Output(R.Encrypt(p, m, K.Print(pub), None, None, Some(ppk), c).value);
    var e := RT.OwnEnvelope(p, m, id, xPriv, seed, None, None, Some(ppk), c);
    K.ParseComplete(p, priv);
    assert R.MatchRecipient(p, K.Print(priv), e.suite, e.kid) == Ok(priv);
    assert R.CheckSender(p, e, None) == Ok(None);
    DecryptRaisesCleanly(p, x, K.Print(priv), None, Some(psk), Some("required"));
  }

  lemma EnvelopeRaises(x: bytes)
    ensures E.Parse(x).Err? ==> E.Parse(x).error != PackRange
  {
    if |x| >= 7 { FieldsRaise(x[7..], 5); }
  }

  lemma PlanRaises(p: Prims, e: E.Envelope, priv: bytes, pin: Option<bytes>, psk: Option<bytes>, policy: Option<string>)
    requires Lengths(p) && LibraryErrors(p) && SuiteOf(e.suite).Ok?
    requires K.Parse(p, priv, K.ROLE_KEM_PRIV).Err? ==> K.Parse(p, priv, K.ROLE_KEM_PRIV).error != PackRange
    requires R.CheckSender(p, e, pin).Err? ==> R.CheckSender(p, e, pin).error != PackRange
    ensures R.PlanParsed(p, e, priv, pin, psk, policy) == Err(PackRange) <==>
              |R.Given(psk)| > 0xFFFF && ReachesThirdLeg(p, e, priv, pin, psk, policy)
  {
    var kb, sender, gate := R.MatchRecipient(p, priv, e.suite, e.kid), R.CheckSender(p, e, pin),
        R.ResolvePpk(e.flags, psk, policy);
    GateOutcome(e.flags, psk, policy);
    if kb.Ok? && sender.Ok? && gate.Ok? {
      DeriveRaises(p, e, kb.value, sender.value, gate.value);
    }
  }

  /** A long third leg comes out of the gate exactly when the envelope is bound and the key is long. */
  lemma GateOutcome(flags: byte, psk: Option<bytes>, policy: Option<string>)
    ensures var gate := R.ResolvePpk(flags, psk, policy);
            && (gate.Err? ==> gate.error != PackRange)
            && (gate.Ok? && |gate.value| > 0xFFFF <==>
                 |R.Given(psk)| > 0xFFFF && PpkBound(flags) && R.GateAdmits(true, R.Given(psk) != [], policy))
  {
    R.GateTable(flags, psk, policy);
  }

  /** Chunk `j` opens at its position. */
  predicate ChunkOpens(p: Prims, key: Key, base: bytes, header: bytes, blobs: seq<bytes>, j: nat)
    requires j < |blobs| && j < 0x1_0000_0000
  {
    var ctr := Ctr(j, j == |blobs| - 1);
    p.open(key, base + ctr, blobs[j], header + ctr).Ok?
  }

  /** When `open_stream` raises `struct.error`, on arbitrary bytes and keys: exactly for a stream of more
      than 2^32 chunks whose first 2^32 all open. */
  lemma OpenStreamRaisesCleanly(p: Prims, x: bytes, priv: bytes)
    requires Lengths(p) && LibraryErrors(p)
    ensures S.OpenStream(p, x, priv) == Err(PackRange) <==>
              && S.PlanStream(p, x, priv).Ok? && TakeBlobs(S.PlanStream(p, x, priv).value.rest).Ok?
              && TooMany(p, S.PlanStream(p, x, priv).value, TakeBlobs(S.PlanStream(p, x, priv).value.rest).value)
  {
    if |x| >= 7 { FieldsRaise(x[7..], 4); }
    var head := S.ParseHead(x);
    assert head.Err? ==> head.error != PackRange;
    if head.Ok? {
      var (h, rest) := head.value;
      S.ParseHeadIff(x, h, rest);
      StreamKeyRaises(p, h.t, priv);
      BlobsRaise(rest);
      var k, blobs := S.StreamKey(p, h.t, priv), TakeBlobs(rest);
      if k.Ok? && blobs.Ok? {
        ChunksRaise(p, k.value.key, h.t.nonce, S.PrintHead(h), blobs.value, 0);
      }
      S.OpenAfterHead(p, x, priv, h, rest);
    }
  }

  /** More chunks than counters, each opening as far as counters go. */
  predicate TooMany(p: Prims, plan: S.StreamPlan, blobs: seq<bytes>)
    requires AllShort(plan.head.Fields())
  {
    && |blobs| > 0x1_0000_0000
    && forall j :: 0 <= j < 0x1_0000_0000 ==>
         ChunkOpens(p, plan.secrets.key, plan.head.t.nonce, S.PrintHead(plan.head), blobs, j)
  }

  lemma StreamKeyRaises(p: Prims, t: Transcript, priv: bytes)
    requires Lengths(p) && LibraryErrors(p) && SuiteOf(t.suite).Ok?
    ensures S.StreamKey(p, t, priv).Err? ==> S.StreamKey(p, t, priv).error != PackRange
  {
    KeyRaises(p, priv, K.ROLE_KEM_PRIV);
    var kb, s := R.MatchRecipient(p, priv, t.suite, t.kid), SuiteOf(t.suite).value;
    if kb.Ok? {
      var ssc, sspq := p.Exchange(s.kex, kb.value.parts[0], t.eph), p.decaps(s.kem, kb.value.parts[1], t.ct);
      if ssc.Ok? && sspq.Ok? {
        assert |ssc.value| <= 56 && |sspq.value| == 32;
        assert Legs(ssc.value, sspq.value, []) == [ssc.value, sspq.value];
      }
    }
  }

  lemma {:induction false} ChunksRaise(p: Prims, key: Key, base: bytes, header: bytes, blobs: seq<bytes>, i: nat)
    requires LibraryErrors(p) && i <= |blobs| && i <= 0x1_0000_0000
    ensures S.OpenBlobs(p, key, base, header, blobs, i) == Err(PackRange) <==>
              && |blobs| > 0x1_0000_0000
              && (forall j :: i <= j < 0x1_0000_0000 ==> ChunkOpens(p, key, base, header, blobs, j))
    decreases |blobs| - i
  {
    if i < |blobs| && i <= 0xFFFF_FFFF {
      ChunksRaise(p, key, base, header, blobs, i + 1);
      assert ChunkOpens(p, key, base, header, blobs, i) || S.OpenBlobs(p, key, base, header, blobs, i)
          != Err(PackRange);
    }
  }
}
