/** `encrypt` and `decrypt` of vorlath_shield/shield.py, with the pre-shared-key policy. */
module Shield {
  import opened Bytes
  import opened Framing
  import opened Primitives
  import opened Combiner
  import opened Sessions
  import E = Envelope
  import K = KeyBundle

  function AuthCtx(): bytes {
    Ascii("VORLATH-Shield/auth/v2")
  }

  /** Randomness of one sealing: ephemeral private key, encapsulation coins, nonce, signing coins. */
  datatype Coins = Coins(eph: bytes, kem: bytes, nonce: bytes, sig: bytes)

  /** `_, _, (a, b, ...) = _parse_key(...)`: unpacking demands an exact number of parts. */
  function ParseParts(p: Prims, buf: bytes, role: byte, n: nat): (r: Result<K.Bundle>)
    ensures r.Ok? ==> |r.value.parts| == n && K.Parse(p, buf, role) == r
  {
    var b :- K.Parse(p, buf, role);
    if |b.parts| == n then Ok(b) else Err(WrongPartCount)
  }

  // ---------------------------------------------------------------- encrypt

  function Given(ppk: Option<bytes>): bytes {
    if ppk.Some? then ppk.value else []
  }

  function SealFlags(authenticated: bool, ppk: Option<bytes>): byte {
    (if authenticated then FLAG_AUTHENTICATED else 0) + (if Given(ppk) != [] then FLAG_PPK else 0)
  }

  datatype Signed = Signed(kid: bytes, block: bytes, signer: Option<Signer>)

  /** The authenticated branch of `encrypt`: the sender signs the transcript and its own key-id. */
  function SignHandshake(p: Prims, s: Suite, preAuth: bytes, sk: Option<bytes>, pk: Option<bytes>, coins: bytes)
    : Result<Signed>
  {
    if sk.None? then Ok(Signed([], [], None))
    else if pk.None? then Err(SenderPublicMissing)
    else
      var b :- ParseParts(p, sk.value, K.ROLE_SIG_PRIV, 1);
      var sig :- p.sign(s.sig, b.parts[0], preAuth + b.kid, AuthCtx(), coins);
      var block := E.SenderBlock(b.kid, pk.value, sig);
      if |b.kid| > 0xFFFF || |pk.value| > 0xFFFF || |sig| > 0xFFFF then Err(TlvTooLong)
      else Ok(Signed(b.kid, E.PrintBlock(block), Some(Signer(s.sig, p.sigPublic(s.sig, b.parts[0])))))
  }

  /** `AESGCM(key).encrypt(...)` whose length is then packed as a u32. */
  function SealBlob(p: Prims, key: Key, nonce: bytes, pt: bytes, aad: bytes): (r: Result<bytes>)
    ensures r.Ok? ==> |r.value| < 0x1_0000_0000 && p.seal(key, nonce, pt, aad) == r
  {
    var sealed :- p.seal(key, nonce, pt, aad);
    if |sealed| < 0x1_0000_0000 then Ok(sealed) else Err(PackRange)
  }

  /** `encrypt`, returning everything it computed. */
  function Encrypt(p: Prims, m: bytes, pub: bytes, sk: Option<bytes>, pk: Option<bytes>, ppk: Option<bytes>, c: Coins)
    : (r: Result<Session>)
    ensures r.Ok? ==> Sound(r.value) && !r.value.stream && r.value.plain == [m]
  {
    var rb :- ParseParts(p, pub, K.ROLE_KEM_PUB, 2);
    var s :- SuiteOf(rb.suite);
    var eph := p.Public(s.kex, c.eph);
    var ssc :- p.Exchange(s.kex, c.eph, rb.parts[0]);
    var (sspq, ct) :- p.encaps(s.kem, rb.parts[1], c.kem);
    var t := Transcript(rb.suite, SealFlags(sk.Some?, ppk), rb.kid, eph, ct, c.nonce);
    var signed :- SignHandshake(p, s, PreAuth(t), sk, pk, c.sig);
    SealSession(p, s, t, signed, ssc, sspq, Given(ppk), m)
  }

  /** Header, key derivation and sealing. */
  function SealSession(p: Prims, s: Suite, t: Transcript, signed: Signed, ssc: bytes, sspq: bytes, ppk: bytes, m: bytes)
    : (r: Result<Session>)
    ensures r.Ok? ==> Sound(r.value) && !r.value.stream && r.value.plain == [m]
  {
    var fields := [t.kid, t.eph, t.ct, t.nonce, signed.block];
    if exists i :: 0 <= i < |fields| && |fields[i]| > 0xFFFF then Err(TlvTooLong)
    else
      var header := E.HeaderOf(t.suite, t.flags, fields);
      var key :- DeriveKey(s, Legs(ssc, sspq, ppk), PreAuth(t), signed.kid);
      var sealed :- SealBlob(p, key, t.nonce, m, header);
      Ok(Session(false, t, signed.kid, signed.signer, ssc, sspq, ppk, key, header, [m], [sealed]))
  }

  // ---------------------------------------------------------------- decrypt

  datatype Policy = Required | Optional | Forbidden

  /** `PPKPolicy(...)`. */
  function PolicyOf(name: string): Result<Policy> {
    if name == "required" then Ok(Required)
    else if name == "optional" then Ok(Optional)
    else if name == "forbidden" then Ok(Forbidden)
    else Err(UnknownPolicy)
  }

  /** The pre-shared-key gate: policy first, then the envelope's flag, then the local key. */
  function ResolvePpk(flags: byte, ppk: Option<bytes>, policy: Option<string>): Result<bytes> {
    var key := Given(ppk);
    if policy.None? && key != [] then Err(PpkWithoutPolicy)
    else
      var pol :- if policy.None? then Ok(Optional) else PolicyOf(policy.value);
      if pol.Required? && key == [] then Err(PpkRequiredButMissing)
      else if pol.Required? && !PpkBound(flags) then Err(PpkRequiredButUnbound)
      else if pol.Forbidden? && PpkBound(flags) then Err(PpkForbidden)
      else if PpkBound(flags) && key == [] then Err(PpkNotSupplied)
      else Ok(if PpkBound(flags) then key else [])
  }

  /** The sender block of an authenticated envelope: the embedded bundle whose key verified the
      transcript, or nothing for an anonymous envelope. */
  function CheckSender(p: Prims, e: E.Envelope, pin: Option<bytes>): (r: Result<Option<K.Bundle>>)
    ensures r.Ok? && r.value.Some? ==> |r.value.value.parts| == 1
  {
    if Authenticated(e.flags) then
      var blk :- E.ParseBlock(e.block);
      var b :- VerifyBlock(p, blk, PreAuth(e.Transcript()), pin);
      Ok(Some(b))
    else if pin.Some? then Err(NotAuthenticated)
    else Ok(None)
  }

  /** The embedded key is the claimed one, it verifies the transcript, and it is the pinned one. */
  function VerifyBlock(p: Prims, blk: E.SenderBlock, preAuth: bytes, pin: Option<bytes>): (r: Result<K.Bundle>)
    ensures r.Ok? ==> |r.value.parts| == 1
  {
    var b :- ParseParts(p, blk.pub, K.ROLE_SIG_PUB, 1);
    if blk.kid != b.kid then Err(SenderKidMismatch)
    else
      var s :- SuiteOf(b.suite);
      var ok :- p.verify(s.sig, b.parts[0], preAuth + b.kid, blk.signature, AuthCtx());
      if !ok then Err(BadSignature)
      else
        var _ :- CheckPin(p, pin, b.kid);
        Ok(b)
  }

  function CheckPin(p: Prims, pin: Option<bytes>, kid: bytes): Result<()> {
    if pin.None? then Ok(())
    else
      var b :- K.Parse(p, pin.value, K.ROLE_SIG_PUB);
      if b.kid != kid then Err(WrongSender) else Ok(())
  }

  function KidOf(sender: Option<K.Bundle>): bytes {
    if sender.Some? then sender.value.kid else []
  }

  /** What `decrypt` has established when it calls the AEAD. */
  datatype Plan = Plan(e: E.Envelope, sender: Option<K.Bundle>, ssc: bytes, sspq: bytes, ppk: bytes, key: Key)

  /** Decapsulate and derive the key. */
  function DerivePlan(p: Prims, e: E.Envelope, kb: K.Bundle, sender: Option<K.Bundle>, ppk: bytes): (r: Result<Plan>)
    requires SuiteOf(e.suite).Ok? && |kb.parts| == 2
    ensures r.Ok? ==> r.value.e == e
  {
    var s := SuiteOf(e.suite).value;
    var ssc :- p.Exchange(s.kex, kb.parts[0], e.eph);
    var sspq :- p.decaps(s.kem, kb.parts[1], e.ct);
    var key :- DeriveKey(s, Legs(ssc, sspq, ppk), PreAuth(e.Transcript()), KidOf(sender));
    Ok(Plan(e, sender, ssc, sspq, ppk, key))
  }

  /** The private bundle and the envelope agree on suite and key-id. */
  function MatchRecipient(p: Prims, priv: bytes, suite: byte, kid: bytes): (r: Result<K.Bundle>)
    ensures r.Ok? ==> |r.value.parts| == 2 && r.value.suite == suite && r.value.kid == kid
    ensures r.Ok? ==> K.Parse(p, priv, K.ROLE_KEM_PRIV) == r
  {
    var kb :- ParseParts(p, priv, K.ROLE_KEM_PRIV, 2);
    if kb.suite != suite then Err(SuiteMismatch)
    else if kb.kid != kid then Err(WrongRecipient)
    else Ok(kb)
  }

  function PlanOpen(p: Prims, x: bytes, priv: bytes, pin: Option<bytes>, ppk: Option<bytes>, policy: Option<string>)
    : (r: Result<Plan>)
    ensures r.Ok? ==> E.Parse(x) == Ok(r.value.e) && r.value.e.Printable()
  {
    var e :- E.Parse(x);
    E.ParseIff(x, e);
    PlanParsed(p, e, priv, pin, ppk, policy)
  }

  /** The checks of `decrypt` on a parsed envelope, in order. */
  function PlanParsed(p: Prims, e: E.Envelope, priv: bytes, pin: Option<bytes>, ppk: Option<bytes>,
                      policy: Option<string>)
    : (r: Result<Plan>)
    requires SuiteOf(e.suite).Ok?
    ensures r.Ok? ==> r.value.e == e
  {
    var kb :- MatchRecipient(p, priv, e.suite, e.kid);
    var sender :- CheckSender(p, e, pin);
    var psk :- ResolvePpk(e.flags, ppk, policy);
    DerivePlan(p, e, kb, sender, psk)
  }

  /** A failed tag check is re-raised as the program's own error. */
  function WrapTag<T>(r: Result<T>): Result<T> {
    if r == Err(InvalidTag) then Err(AeadOpenFailed) else r
  }

  /** `decrypt`. */
  function Decrypt(p: Prims, x: bytes, priv: bytes, pin: Option<bytes>, ppk: Option<bytes>, policy: Option<string>)
    : Result<bytes>
  {
    var plan :- PlanOpen(p, x, priv, pin, ppk, policy);
    WrapTag(p.open(plan.key, plan.e.nonce, plan.e.sealed, E.Header(plan.e)))
  }

  // ---------------------------------------------------------------- detached signatures

  /** `sign`: the context is the caller's. */
  function Sign(p: Prims, priv: bytes, msg: bytes, ctx: bytes, coins: bytes): Result<bytes> {
    var b :- ParseParts(p, priv, K.ROLE_SIG_PRIV, 1);
    var s :- SuiteOf(b.suite);
    p.sign(s.sig, b.parts[0], msg, ctx, coins)
  }

  /** `verify`: any exception counts as a bad signature. */
  predicate Verify(p: Prims, pub: bytes, msg: bytes, signature: bytes, ctx: bytes) {
    var b := ParseParts(p, pub, K.ROLE_SIG_PUB, 1);
    b.Ok? && SuiteOf(b.value.suite).Ok?
    && p.verify(SuiteOf(b.value.suite).value.sig, b.value.parts[0], msg, signature, ctx) == Ok(true)
  }

  // ---------------------------------------------------------------- the procedures themselves

  function OutputOf(r: Result<Session>): Result<bytes>
    requires r.Ok? ==> Sound(r.value)
  {
    if r.Ok? then Ok(Output(r.value)) else Err(r.error)
  }

  /** `encrypt` as the source writes it, against the session specification. */
  method EncryptBytes(p: Prims, m: bytes, pub: bytes, sk: Option<bytes>, pk: Option<bytes>, ppk: Option<bytes>,
                      c: Coins)
    returns (r: Result<bytes>)
    ensures r == OutputOf(Encrypt(p, m, pub, sk, pk, ppk, c))
  {
    var rb :- K.ParseKey(p, pub, K.ROLE_KEM_PUB);
    if |rb.parts| != 2 { return Err(WrongPartCount); }
    var s :- SuiteOf(rb.suite);
    var ephPub := p.Public(s.kex, c.eph);
    var ssc :- p.Exchange(s.kex, c.eph, rb.parts[0]);
    var enc :- p.encaps(s.kem, rb.parts[1], c.kem);
    var flags: byte := if sk.Some? then 1 else 0;
    if Given(ppk) != [] { flags := flags + 2; }
    var t := Transcript(rb.suite, flags, rb.kid, ephPub, enc.1, c.nonce);
    var signed :- SignBlock(p, s, PreAuth(t), sk, pk, c.sig);
    r := SealEnvelope(p, s, t, signed, ssc, enc.0, Given(ppk), m);
  }

  method SignBlock(p: Prims, s: Suite, preAuth: bytes, sk: Option<bytes>, pk: Option<bytes>, coins: bytes)
    returns (r: Result<Signed>)
    ensures r == SignHandshake(p, s, preAuth, sk, pk, coins)
  {
    if sk.None? { return Ok(Signed([], [], None)); }
    if pk.None? { return Err(SenderPublicMissing); }
    var kb :- K.ParseKey(p, sk.value, K.ROLE_SIG_PRIV);
    if |kb.parts| != 1 { return Err(WrongPartCount); }
    var signature :- p.sign(s.sig, kb.parts[0], preAuth + kb.kid, AuthCtx(), coins);
    var b1 :- EncodeTlv(kb.kid);
    var b2 :- EncodeTlv(pk.value);
    var b3 :- EncodeTlv(signature);
    FlatThree(kb.kid, pk.value, signature);
    return Ok(Signed(kb.kid, b1 + b2 + b3, Some(Signer(s.sig, p.sigPublic(s.sig, kb.parts[0])))));
  }

  method SealEnvelope(p: Prims, s: Suite, t: Transcript, signed: Signed, ssc: bytes, sspq: bytes, ppk: bytes, m: bytes)
    returns (r: Result<bytes>)
    ensures r == OutputOf(SealSession(p, s, t, signed, ssc, sspq, ppk, m))
  {
    var header :- EncodeHeader(t, signed.block);
    var key :- DeriveKeyStepwise(s, ssc, sspq, PreAuth(t), ppk, signed.kid);
    var sealed :- p.seal(key, t.nonce, m, header);
    if |sealed| >= 0x1_0000_0000 { return Err(PackRange); }
    return Ok(header + U32(|sealed|) + sealed);
  }

  method EncodeHeader(t: Transcript, block: bytes) returns (r: Result<bytes>)
    ensures var fields := [t.kid, t.eph, t.ct, t.nonce, block];
            r == if exists i :: 0 <= i < |fields| && |fields[i]| > 0xFFFF then Err(TlvTooLong)
                 else Ok(E.HeaderOf(t.suite, t.flags, fields))
  {
    ghost var fields := [t.kid, t.eph, t.ct, t.nonce, block];
    if |t.kid| > 0xFFFF || |t.eph| > 0xFFFF || |t.ct| > 0xFFFF || |t.nonce| > 0xFFFF || |block| > 0xFFFF {
      assert |fields[0]| > 0xFFFF || |fields[1]| > 0xFFFF || |fields[2]| > 0xFFFF
          || |fields[3]| > 0xFFFF || |fields[4]| > 0xFFFF;
      return Err(TlvTooLong);
    }
    FlatFive(t.kid, t.eph, t.ct, t.nonce, block);
    var body := Tlv(t.kid) + Tlv(t.eph) + Tlv(t.ct) + Tlv(t.nonce) + Tlv(block);
    return Ok(E.MAGIC + [E.VERSION, t.suite, t.flags] + body);
  }

  lemma FlatThree(a: bytes, b: bytes, c: bytes)
    requires |a| <= 0xFFFF && |b| <= 0xFFFF && |c| <= 0xFFFF
    ensures FlatTlv([a, b, c]) == Tlv(a) + Tlv(b) + Tlv(c)
  {
    FlatTwo(a, b);
    FlatTlvAppend([a, b], c);
    assert [a, b] + [c] == [a, b, c];
  }

  lemma FlatFive(a: bytes, b: bytes, c: bytes, d: bytes, e: bytes)
    requires |a| <= 0xFFFF && |b| <= 0xFFFF && |c| <= 0xFFFF && |d| <= 0xFFFF && |e| <= 0xFFFF
    ensures FlatTlv([a, b, c, d, e]) == Tlv(a) + Tlv(b) + Tlv(c) + Tlv(d) + Tlv(e)
  {
    FlatThree(a, b, c);
    FlatTlvAppend([a, b, c], d);
    assert [a, b, c] + [d] == [a, b, c, d];
    FlatTlvAppend([a, b, c, d], e);
    assert [a, b, c, d] + [e] == [a, b, c, d, e];
  }

  /** The cursor parse at the top of `decrypt`: fields, header bytes and sealed bytes. */
  method ReadEnvelope(x: bytes) returns (r: Result<(E.Envelope, bytes)>)
    ensures r.Err? ==> E.Parse(x) == Err(r.error)
    ensures r.Ok? ==> E.Parse(x) == Ok(r.value.0) && r.value.0.Printable() && r.value.1 == E.Header(r.value.0)
  {
    if |x| < 7 || x[..4] != E.MAGIC { return Err(NotAnEnvelope); }
    if x[4] != E.VERSION { return Err(UnsupportedVersion); }
    var _ :- SuiteOf(x[5]);
    var five :- ReadFields(x, 7, 5);
    var f, off := five.0, five.1;
    var header := x[..off];
    var sealed :- ReadSealed(x, off);
    var e := E.Envelope(x[5], x[6], f[0], f[1], f[2], f[3], f[4], sealed);
    assert E.Parse(x) == Ok(e);
    E.ParseIff(x, e);
    assert header == E.Header(e) by {
      E.TakeSealedIff(x[off..], sealed);
      SplitEqual(header, x[off..], E.Header(e), U32(|sealed|) + sealed);
    }
    return Ok((e, header));
  }

  method ReadSealed(x: bytes, start: nat) returns (r: Result<bytes>)
    requires start <= |x|
    ensures r == E.TakeSealed(x[start..])
  {
    var off := start;
    if off + 4 > |x| { return Err(MissingCiphertextLength); }
    var clen := GetU32(x[off..off + 4]);
    assert clen == GetU32(x[off..]);
    off := off + 4;
    if off + clen != |x| { return Err(LengthMismatch); }
    assert x[off..off + clen] == x[start..][4..];
    return Ok(x[off..off + clen]);
  }

  /** The authenticated branch of `decrypt`, reading the sender block with a cursor. */
  method ReadSender(p: Prims, e: E.Envelope, pin: Option<bytes>) returns (r: Result<Option<K.Bundle>>)
    ensures r == CheckSender(p, e, pin)
  {
    if !Authenticated(e.flags) {
      if pin.Some? { return Err(NotAuthenticated); }
      return Ok(None);
    }
    assert e.block[0..] == e.block;
    var three :- ReadFields(e.block, 0, 3);
    var f := three.0;
    if three.1 != |e.block| { return Err(SenderBlockTrailing); }
    var sb :- K.ParseKey(p, f[1], K.ROLE_SIG_PUB);
    if |sb.parts| != 1 { return Err(WrongPartCount); }
    if f[0] != sb.kid { return Err(SenderKidMismatch); }
    var s :- SuiteOf(sb.suite);
    var ok :- p.verify(s.sig, sb.parts[0], PreAuth(e.Transcript()) + sb.kid, f[2], AuthCtx());
    if !ok { return Err(BadSignature); }
    if pin.Some? {
      var pb :- K.ParseKey(p, pin.value, K.ROLE_SIG_PUB);
      if pb.kid != sb.kid { return Err(WrongSender); }
    }
    return Ok(Some(sb));
  }

  /** When the gate lets an envelope through: which policies accept which flag with which local key.
      Without a policy a key must not be at hand, and then the envelope must not ask for one. */
  predicate GateAdmits(bound: bool, held: bool, policy: Option<string>) {
    || (policy == None && !bound && !held)
    || (policy == Some("required") && bound && held)
    || (policy == Some("optional") && (bound ==> held))
    || (policy == Some("forbidden") && !bound)
  }

  lemma GateTable(flags: byte, ppk: Option<bytes>, policy: Option<string>)
    ensures ResolvePpk(flags, ppk, policy).Ok? <==> GateAdmits(PpkBound(flags), Given(ppk) != [], policy)
    ensures ResolvePpk(flags, ppk, policy).Ok? ==>
              ResolvePpk(flags, ppk, policy).value == if PpkBound(flags) then Given(ppk) else []
  {
    assert "optional"[0] != "required"[0] && "forbidden"[0] != "required"[0] && "forbidden"[0] != "optional"[0];
  }

  /** And which error it raises otherwise: the policy is judged before the envelope's flag, and a missing
      key under "required" before an unbound envelope. */
  lemma GateErrors(flags: byte, ppk: Option<bytes>, policy: Option<string>)
    ensures var gate, bound, held := ResolvePpk(flags, ppk, policy), PpkBound(flags), Given(ppk) != [];
            && (gate == Err(PpkWithoutPolicy) <==> policy == None && held)
            && (gate == Err(UnknownPolicy) <==>
                 policy.Some? && policy.value != "required" && policy.value != "optional"
                              && policy.value != "forbidden")
            && (gate == Err(PpkRequiredButMissing) <==> policy == Some("required") && !held)
            && (gate == Err(PpkRequiredButUnbound) <==> policy == Some("required") && held && !bound)
            && (gate == Err(PpkForbidden) <==> policy == Some("forbidden") && bound)
            && (gate == Err(PpkNotSupplied) <==> bound && !held && (policy == None || policy == Some("optional")))
  {
    assert "optional"[0] != "required"[0] && "forbidden"[0] != "required"[0] && "forbidden"[0] != "optional"[0];
  }

  /** The policy gate of `decrypt`: it passes exactly on the rows of the policy table, with the local
      key as third leg exactly when the envelope is bound to one. */
  method GatePpk(flags: byte, ppk: Option<bytes>, policy: Option<string>) returns (r: Result<bytes>)
    ensures r == ResolvePpk(flags, ppk, policy)
    ensures r.Ok? <==> GateAdmits(PpkBound(flags), Given(ppk) != [], policy)
    ensures r.Ok? ==> r.value == if PpkBound(flags) then Given(ppk) else []
  {
    GateTable(flags, ppk, policy);
    var bound := PpkBound(flags);
    var pol := Optional;
    if policy.None? {
      if Given(ppk) != [] { return Err(PpkWithoutPolicy); }
    } else {
      pol :- PolicyOf(policy.value);
    }
    if pol == Required {
      if Given(ppk) == [] { return Err(PpkRequiredButMissing); }
      if !bound { return Err(PpkRequiredButUnbound); }
    } else if pol == Forbidden && bound {
      return Err(PpkForbidden);
    }
    var effective: bytes := [];
    if bound {
      if Given(ppk) == [] { return Err(PpkNotSupplied); }
      effective := Given(ppk);
    }
    return Ok(effective);
  }

  /** `decrypt` as the source writes it. */
  method DecryptBytes(p: Prims, x: bytes, priv: bytes, pin: Option<bytes>, ppk: Option<bytes>, policy: Option<string>)
    returns (r: Result<bytes>)
    ensures r == Decrypt(p, x, priv, pin, ppk, policy)
  {
    var env :- ReadEnvelope(x);
    var e, header := env.0, env.1;
    var kb :- K.ParseKey(p, priv, K.ROLE_KEM_PRIV);
    if |kb.parts| != 2 { return Err(WrongPartCount); }
    if kb.suite != e.suite { return Err(SuiteMismatch); }
    if kb.kid != e.kid { return Err(WrongRecipient); }
    var sender :- ReadSender(p, e, pin);
    var effective :- GatePpk(e.flags, ppk, policy);
    var s := SuiteOf(e.suite).value;
    var ssc :- p.Exchange(s.kex, kb.parts[0], e.eph);
    var sspq :- p.decaps(s.kem, kb.parts[1], e.ct);
    var key :- DeriveKeyStepwise(s, ssc, sspq, PreAuth(e.Transcript()), effective, KidOf(sender));
    var plain := p.open(key, e.nonce, e.sealed, header);
    if plain == Err(InvalidTag) { return Err(AeadOpenFailed); }
    return plain;
  }
}
