/** The procedures of interop/altcodec.py, step by step, against the reference decoder: what the second
    implementation returns is what `decrypt` and `open_stream` return on the declared common domain,
    and outside its suites, part counts and pins it opens nothing. */
module AltDecoder {
  import opened Bytes
  import opened Primitives
  import opened Combiner
  import opened Sessions
  import opened Agreement
  import A = AltCodec
  import E = Envelope
  import K = KeyBundle
  import R = Shield
  import S = Stream

  /** `_sig_key_id`: the fingerprint that is recomputed is the one the reference reads back, or the
      reference's error; several parts do not unpack. */
  method SigKeyIdBytes(p: Prims, pub: bytes) returns (r: Result<bytes>)
    ensures r == CarriedKid(p, pub)
  {
    SameSigKeyId(p, pub);
    var k :- A.ParseKeyBytes(p, pub, 3);
    if |k.parts| != 1 { return Err(WrongPartCount); }
    var h := Ascii("VRSK-sig-pub");
    h := h + [k.suite];
    h := h + k.parts[0];
    return Ok(p.shake(h));
  }

  /** The sender block: the key-id the reference binds, or its error, inside the common domain; outside
      it, nothing is accepted. */
  method SenderKidBytes(p: Prims, e: E.Envelope, pin: Option<bytes>) returns (r: Result<bytes>)
    ensures r == A.SenderKid(p, e.flags, e.block, PreAuth(e.Transcript()), pin)
    ensures OnePartPin(p, pin) && !EmbedsPureSuite(p, e.flags, e.block) ==> r == BoundKid(p, e, pin)
    ensures r.Ok? ==> OnePartPin(p, pin) && !EmbedsPureSuite(p, e.flags, e.block)
  {
    var preAuth := PreAuth(e.Transcript());
    if OnePartPin(p, pin) && !EmbedsPureSuite(p, e.flags, e.block) { SameSender(p, e, pin); }
    if A.SenderKid(p, e.flags, e.block, preAuth, pin).Ok? { AltSenderScope(p, e, preAuth, pin); }
    if e.flags % 2 == 0 {
      if pin.Some? { return Err(NotAuthenticated); }
      return Ok([]);
    }
    var three :- A.ReadMany(e.block, 0, 3);
    var f := three.0;
    if three.1 != |e.block| { return Err(SenderBlockTrailing); }
    var k :- A.ParseKeyBytes(p, f[1], 3);
    if |k.parts| != 1 { return Err(WrongPartCount); }
    if f[0] != k.kid { return Err(SenderKidMismatch); }
    var s :- A.SuiteOf(k.suite);
    var ok :- p.verify(s.sig, k.parts[0], preAuth + k.kid, f[2], A.AuthCtx());
    if !ok { return Err(BadSignature); }
    if pin.Some? {
      SameSigKeyId(p, pin.value);
      var expected :- SigKeyIdBytes(p, pin.value);
      if expected != k.kid { return Err(WrongSender); }
    }
    return Ok(k.kid);
  }

  /** The domain that the second decoder declares, with two private parts and a single-part pin. */
  ghost predicate CommonDomain(p: Prims, x: bytes, priv: bytes, pin: Option<bytes>) {
    EnvelopeInScope(p, x) && TwoPartPrivate(p, priv) && OnePartPin(p, pin)
  }

  /** `open_envelope`: on the common domain it returns what `decrypt` returns, errors included; what it
      opens lies in its suites, with two private parts and a single-part pin, and is what `decrypt`
      opens unless it is PPK-bound. */
  method OpenEnvelopeBytes(p: Prims, x: bytes, priv: bytes, pin: Option<bytes>) returns (r: Result<bytes>)
    ensures CommonDomain(p, x, priv, pin) ==> r == R.Decrypt(p, x, priv, pin, None, None)
    ensures r.Ok? ==> |x| >= 7 && x[5] != 3 && TwoPartPrivate(p, priv) && OnePartPin(p, pin)
    ensures r.Ok? && !PpkBound(x[6]) ==> r == R.Decrypt(p, x, priv, pin, None, None)
  {
    EnvelopeFacts(p, x, priv, pin);
    if |x| < 7 || x[..4] != A.ENVELOPE_MAGIC { return Err(NotAnEnvelope); }
    if x[4] != A.VERSION { return Err(UnsupportedVersion); }
    var s :- A.SuiteOf(x[5]);
    var five :- A.ReadMany(x, 7, 5);
    var f, off := five.0, five.1;
    var header := x[..off];
    var sealed :- A.SealedRegion(x, off);
    var k :- A.ParseKeyBytes(p, priv, 2);
    if k.suite != x[5] { return Err(SuiteMismatch); }
    if k.kid != f[0] { return Err(WrongRecipient); }
    if |k.parts| != 2 { return Err(WrongPartCount); }
    var e := E.Envelope(x[5], x[6], f[0], f[1], f[2], f[3], f[4], sealed);
    var preAuth := A.Transcript(x[5], x[6], f);
    assert preAuth == PreAuth(e.Transcript());
    var senderKid :- SenderKidBytes(p, e, pin);
    r := A.CombineAndOpen(p, s, k.parts, f, preAuth, senderKid, sealed, header);
  }

  lemma EnvelopeFacts(p: Prims, x: bytes, priv: bytes, pin: Option<bytes>)
    ensures var r := A.OpenEnvelope(p, x, priv, pin);
            && (CommonDomain(p, x, priv, pin) ==> r == R.Decrypt(p, x, priv, pin, None, None))
            && (r.Ok? ==> |x| >= 7 && x[5] != 3 && TwoPartPrivate(p, priv) && OnePartPin(p, pin))
            && (r.Ok? && !PpkBound(x[6]) ==> r == R.Decrypt(p, x, priv, pin, None, None))
  {
    var r := A.OpenEnvelope(p, x, priv, pin);
    if CommonDomain(p, x, priv, pin) { EnvelopesAgree(p, x, priv, pin); }
    if r.Ok? { AltScope(p, x, priv, pin); }
  }

  /** `open_stream`: outside the pure-PQC suite, which it rejects, it returns what the reference returns,
      errors included. */
  method OpenStreamBytes(p: Prims, x: bytes, priv: bytes) returns (r: Result<bytes>)
    ensures (|x| > 5 ==> x[5] != 3) && TwoPartPrivate(p, priv) ==> r == S.OpenStream(p, x, priv)
    ensures r.Ok? ==> |x| >= 7 && x[5] != 3 && TwoPartPrivate(p, priv)
  {
    if (|x| > 5 ==> x[5] != 3) && TwoPartPrivate(p, priv) { StreamsAgree(p, x, priv); }
    SameKey(p, priv, K.ROLE_KEM_PRIV);
    if |x| < 7 || x[..4] != A.STREAM_MAGIC { return Err(NotAStream); }
    if x[4] != A.VERSION { return Err(UnsupportedStreamVersion); }
    var s :- A.SuiteOf(x[5]);
    var four :- A.ReadMany(x, 7, 4);
    var f, off := four.0, four.1;
    if off + 4 > |x| { return Err(TruncatedStreamHeader); }
    off := off + 4;
    var k :- A.ParseKeyBytes(p, priv, 2);
    if k.suite != x[5] { return Err(SuiteMismatch); }
    if k.kid != f[0] { return Err(WrongRecipient); }
    if |k.parts| != 2 { return Err(WrongPartCount); }
    var ssc :- p.rawExchange(s.kex, k.parts[0], f[1]);
    var sspq :- p.decaps(s.kem, k.parts[1], f[2]);
    var key :- A.DeriveKey(s, ssc, sspq, A.Transcript(x[5], x[6], f), []);
    var blobs :- A.CollectChunks(x, off);
    if blobs == [] { return Err(EmptyStream); }
    SameOpenChunks(p, key, f[3], x[..off], blobs, 0, []);
    PrependedUnits([], S.OpenBlobs(p, key, f[3], x[..off], blobs, 0));
    r := DecryptChunks(p, key, f[3], x[..off], blobs);
  }

  /** The loop that opens the chunks is the reference's opening, position by position. */
  method DecryptChunks(p: Prims, key: Key, base: bytes, header: bytes, blobs: seq<bytes>) returns (r: Result<bytes>)
    ensures r == S.OpenBlobs(p, key, base, header, blobs, 0)
  {
    var out: bytes := [];
    var idx := 0;
    ghost var whole := S.OpenBlobs(p, key, base, header, blobs, 0);
    PrependedUnits(out, whole);
    while idx < |blobs|
      invariant 0 <= idx <= |blobs|
      invariant whole == Prepended(out, S.OpenBlobs(p, key, base, header, blobs, idx))
    {
      if idx >= 0x1_0000_0000 { return Err(PackRange); }
      var ctr := U32(idx) + [if idx == |blobs| - 1 then 1 else 0];
      assert ctr == Ctr(idx, idx == |blobs| - 1);
      var m :- A.Tagged(p.open(key, base + ctr, blobs[idx], header + ctr));
      PrependedTwice(out, m, S.OpenBlobs(p, key, base, header, blobs, idx + 1));
      out := out + m;
      idx := idx + 1;
    }
    PrependedUnits(out, whole);
    return Ok(out);
  }
}
