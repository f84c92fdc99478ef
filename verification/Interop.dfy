/** Which generated identities interoperate: what a signer of one suite seals to a recipient of another is
    delivered exactly when both suites or neither is suite 1, outside a run and inside one. */
module Interop {
  import opened Bytes
  import opened Framing
  import opened Primitives
  import opened Combiner
  import opened Sessions
  import opened World
  import E = Envelope
  import K = KeyBundle
  import R = Shield
  import RT = ShieldTheorems
  import S = Stream
  import ST = StreamTheorems
  import O = Outcomes
  import L = Liveness
  import T = RunTheorems

  /** A pin on the identity with this key-id, or none. */
  predicate PinFits(p: Prims, pin: Option<bytes>, kid: bytes) {
    pin.Some? ==> K.Parse(p, pin.value, K.ROLE_SIG_PUB).Ok? && K.Parse(p, pin.value, K.ROLE_SIG_PUB).value.kid == kid
  }

  /** The bundles of one generated identity match a recipient's suite exactly when both suites or neither
      is suite 1, under exactly the pins on that identity. */
  lemma GeneratedSenderMatches(p: Prims, id: byte, sid: byte, secret: bytes, spub: K.Bundle, spriv: K.Bundle,
                               pin: Option<bytes>)
    requires SuiteOf(id).Ok? && K.SigningKeys(p, sid, secret) == Ok((spub, spriv))
    requires K.Printable(spub) && K.Printable(spriv)
    ensures RT.SenderMatches(p, id, Some(K.Print(spriv)), Some(K.Print(spub)), pin)
       <==> (sid == 1 <==> id == 1) && PinFits(p, pin, spub.kid)
  {
    K.ParseComplete(p, spub);
    K.ParseComplete(p, spriv);
    assert R.ParseParts(p, K.Print(spub), K.ROLE_SIG_PUB, 1) == Ok(spub);
    assert R.ParseParts(p, K.Print(spriv), K.ROLE_SIG_PRIV, 1) == Ok(spriv);
    SchemesShared(sid, id);
  }

  /** What one authenticated `encrypt` between generated identities works with. */
  ghost predicate Setting(p: Prims, id: byte, xPriv: bytes, seed: bytes, pub: K.Bundle, priv: K.Bundle, sid: byte,
                          secret: bytes, spub: K.Bundle, spriv: K.Bundle) {
    && K.RecipientKeys(p, id, xPriv, seed) == Ok((pub, priv)) && K.Printable(pub) && K.Printable(priv)
    && K.SigningKeys(p, sid, secret) == Ok((spub, spriv)) && K.Printable(spub) && K.Printable(spriv)
  }

  /** Exchange, encapsulation and signature return, and everything fits its frame. */
  ghost predicate Returning(p: Prims, m: bytes, id: byte, pub: K.Bundle, secret: bytes, spub: K.Bundle,
                            spriv: K.Bundle, psk: Option<bytes>, c: R.Coins, enc: (bytes, bytes), sig: bytes) {
    && SuiteOf(id).Ok? && |pub.parts| == 2 && |spub.parts| == 1 && K.Printable(spriv)
    && var s := SuiteOf(id).value;
    && p.Exchange(s.kex, c.eph, pub.parts[0]).Ok? && p.encaps(s.kem, pub.parts[1], c.kem) == Ok(enc)
    && var t := O.Handshake(p, pub, s, Some(K.Print(spriv)), psk, enc.1, c);
    && p.sign(s.sig, secret, PreAuth(t) + spriv.kid, R.AuthCtx(), c.sig) == Ok(sig)
    && 81 + |spub.parts[0]| + |sig| <= 0xFFFF && O.InRange(R.Given(psk), m)
  }

  /** Between generated identities, `encrypt` then returns. */
  lemma Sent(p: Prims, m: bytes, id: byte, xPriv: bytes, seed: bytes, pub: K.Bundle, priv: K.Bundle, sid: byte,
             secret: bytes, spub: K.Bundle, spriv: K.Bundle, psk: Option<bytes>, c: R.Coins, enc: (bytes, bytes),
             sig: bytes)
    requires Lengths(p) && ST.GcmTotal(p) && |c.nonce| == 12
    requires Setting(p, id, xPriv, seed, pub, priv, sid, secret, spub, spriv)
    requires Returning(p, m, id, pub, secret, spub, spriv, psk, c, enc, sig)
    ensures R.Encrypt(p, m, K.Print(pub), Some(K.Print(spriv)), Some(K.Print(spub)), psk, c).Ok?
  {
    K.ParseComplete(p, spriv);
    SigningBundleLength(p, sid, secret, spub);
    O.EncryptSucceeds(p, m, id, xPriv, seed, pub, priv, Some(K.Print(spriv)), Some(K.Print(spub)), psk, c);
  }

  /** Delivery between generated identities, from the key generators to the plaintext.  With exchange,
      encapsulation and signature returning, everything in range, an admitting policy and a fitting pin,
      `encrypt` returns; and `decrypt` returns its plaintext if both suites or neither is suite 1, and
      otherwise, where signatures name their signer, nothing at all. */
  lemma Delivered(p: Prims, m: bytes, id: byte, xPriv: bytes, seed: bytes, pub: K.Bundle, priv: K.Bundle, sid: byte,
                  secret: bytes, spub: K.Bundle, spriv: K.Bundle, psk: Option<bytes>, c: R.Coins, enc: (bytes, bytes),
                  sig: bytes, pin: Option<bytes>, policy: Option<string>)
    requires Correct(p) && Lengths(p) && ST.GcmTotal(p) && |c.nonce| == 12
    requires Setting(p, id, xPriv, seed, pub, priv, sid, secret, spub, spriv)
    requires Returning(p, m, id, pub, secret, spub, spriv, psk, c, enc, sig)
    requires RT.PolicyAdmits(policy, psk) && PinFits(p, pin, spub.kid)
    ensures R.Encrypt(p, m, K.Print(pub), Some(K.Print(spriv)), Some(K.Print(spub)), psk, c).Ok?
    ensures var x := Output(R.Encrypt(p, m, K.Print(pub), Some(K.Print(spriv)), Some(K.Print(spub)), psk, c).value);
            var r := R.Decrypt(p, x, K.Print(priv), pin, psk, policy);
            && ((sid == 1 <==> id == 1) ==> r == Ok(m))
            && (RT.SignaturesExclusive(p) ==> (r.Ok? <==> (sid == 1 <==> id == 1)))
  {
    Sent(p, m, id, xPriv, seed, pub, priv, sid, secret, spub, spriv, psk, c, enc, sig);
    GeneratedSenderMatches(p, id, sid, secret, spub, spriv, pin);
    RT.RoundTrip(p, m, id, xPriv, seed, Some(K.Print(spriv)), Some(K.Print(spub)), psk, c, pin, policy);
  }

  /** A printed public signing bundle is the raw key and 43 bytes. */
  lemma SigningBundleLength(p: Prims, sid: byte, secret: bytes, spub: K.Bundle)
    requires Lengths(p) && K.SigningKeys(p, sid, secret).Ok? && spub == K.SigningKeys(p, sid, secret).value.0
    requires K.Printable(spub)
    ensures |spub.kid| == 32 && |spub.parts| == 1 && |K.Print(spub)| == 43 + |spub.parts[0]|
  {
    K.PrintedOne(spub);
  }

  /** The same inside a run, for every generated sender: an honest envelope under a key the adversary lacks
      opens to its plaintext if both suites or neither is suite 1, and is a bad signature otherwise. */
  lemma DeliveredInRun(
    p: Prims, steps: seq<Step>, w: World, k: nat, m: bytes, id: byte, xPriv: bytes, seed: bytes, pub: K.Bundle,
    priv: K.Bundle, sid: byte, secret: bytes, spub: K.Bundle, spriv: K.Bundle, psk: Option<bytes>, c: R.Coins,
    pin: Option<bytes>, policy: Option<string>)
    requires Lengths(p) && KeysAgree(p) && Run(p, steps) == Some(w) && k < |w.sessions|
    requires Setting(p, id, xPriv, seed, pub, priv, sid, secret, spub, spriv)
    requires R.Encrypt(p, m, K.Print(pub), Some(K.Print(spriv)), Some(K.Print(spub)), psk, c) == Ok(w.sessions[k])
    requires w.sessions[k].key !in w.advKeys && |spub.parts| == 1 && T.HandshakesOnly(w, spub.parts[0])
    requires RT.PolicyAdmits(policy, psk) && PinFits(p, pin, spub.kid)
    ensures Sound(w.sessions[k])
    ensures R.Decrypt(Oracle(p, w), Output(w.sessions[k]), K.Print(priv), pin, psk, policy)
         == if sid == 1 <==> id == 1 then Ok(m) else Err(BadSignature)
  {
    SchemesShared(sid, id);
    if sid == 1 <==> id == 1 {
      OpensInRun(p, steps, w, k, m, id, xPriv, seed, pub, priv, sid, secret, spub, spriv, psk, c, pin, policy);
    } else {
      T.OtherSchemeRejected(p, steps, w, k, m, id, xPriv, seed, sid, secret, spub, spriv, psk, c, pin, policy);
    }
  }

  /** Runs in which this happens exist.  Any run continues with an authenticated `encrypt` between generated
      identities that share a scheme, as long as its draw is fresh and its key not already derived by the
      adversary, and the recipient opens what it returned. */
  lemma RunContinues(
    p: Prims, steps: seq<Step>, w: World, m: bytes, id: byte, xPriv: bytes, seed: bytes, pub: K.Bundle, priv: K.Bundle,
    sid: byte, secret: bytes, spub: K.Bundle, spriv: K.Bundle, psk: Option<bytes>, c: R.Coins, enc: (bytes, bytes),
    sig: bytes, pin: Option<bytes>, policy: Option<string>)
    returns (step: Step, w': World, s: Session)
    requires Lengths(p) && KeysAgree(p) && ST.GcmTotal(p) && |c.nonce| == 12 && Run(p, steps) == Some(w)
    requires Setting(p, id, xPriv, seed, pub, priv, sid, secret, spub, spriv) && (sid == 1 <==> id == 1)
    requires Returning(p, m, id, pub, secret, spub, spriv, psk, c, enc, sig)
    requires RT.PolicyAdmits(policy, psk) && PinFits(p, pin, spub.kid)
    requires var r := R.Encrypt(p, m, K.Print(pub), Some(K.Print(spriv)), Some(K.Print(spub)), psk, c);
             r.Ok? ==> Fresh(w, r.value) && r.value.key !in w.advKeys
    ensures Run(p, steps + [step]) == Some(w') && w' == w.(sessions := w.sessions + [s]) && Sound(s)
    ensures R.Encrypt(p, m, K.Print(pub), Some(K.Print(spriv)), Some(K.Print(spub)), psk, c) == Ok(s)
    ensures R.Decrypt(Oracle(p, w'), Output(s), K.Print(priv), pin, psk, policy) == Ok(m)
  {
    Sent(p, m, id, xPriv, seed, pub, priv, sid, secret, spub, spriv, psk, c, enc, sig);
    s := R.Encrypt(p, m, K.Print(pub), Some(K.Print(spriv)), Some(K.Print(spub)), psk, c).value;
    step := Step.Encrypt(m, K.Print(pub), Some(K.Print(spriv)), Some(K.Print(spub)), psk, c);
    w' := SealStep(p, steps, w, step, s);
    OpensInRun(p, steps + [step], w', |w.sessions|, m, id, xPriv, seed, pub, priv, sid, secret, spub, spriv, psk, c,
               pin, policy);
  }

  lemma SealStep(p: Prims, steps: seq<Step>, w: World, step: Step, s: Session) returns (w': World)
    requires Run(p, steps) == Some(w) && Fresh(w, s) && step.Encrypt? && |step.coins.nonce| == 12
    requires R.Encrypt(p, step.m, step.pub, step.sk, step.pk, step.psk, step.coins) == Ok(s)
    ensures Run(p, steps + [step]) == Some(w') && w' == w.(sessions := w.sessions + [s])
  {
    w' := w.(sessions := w.sessions + [s]);
    L.RunLast(p, steps + [step], steps, step);
  }

  /** And with a `seal_stream`, whose recipient opens it. */
  lemma StreamContinues(
    p: Prims, steps: seq<Step>, w: World, m: bytes, id: byte, xPriv: bytes, seed: bytes, pub: K.Bundle, priv: K.Bundle,
    chunkSize: nat, c: R.Coins)
    returns (step: Step, w': World, s: Session)
    requires Lengths(p) && KeysAgree(p) && ST.GcmTotal(p) && |c.nonce| == 7 && Run(p, steps) == Some(w)
    requires K.RecipientKeys(p, id, xPriv, seed) == Ok((pub, priv)) && K.Printable(pub) && K.Printable(priv)
    requires SuiteOf(id).Ok? && |pub.parts| == 2 && p.Exchange(SuiteOf(id).value.kex, c.eph, pub.parts[0]).Ok?
    requires p.encaps(SuiteOf(id).value.kem, pub.parts[1], c.kem).Ok?
    requires 1 <= chunkSize <= 0xFFFF_FFFF && |m| <= chunkSize * 0xFFFF_FFFF
    requires (if chunkSize < |m| then chunkSize else |m|) + 16 < 0x1_0000_0000
    requires var r := S.SealStream(p, m, K.Print(pub), chunkSize, c);
             r.Ok? ==> Fresh(w, r.value) && r.value.key !in w.advKeys
    ensures Run(p, steps + [step]) == Some(w') && w' == w.(sessions := w.sessions + [s]) && Sound(s)
    ensures S.SealStream(p, m, K.Print(pub), chunkSize, c) == Ok(s)
    ensures S.OpenStream(Oracle(p, w'), Output(s), K.Print(priv)) == Ok(m)
  {
    O.SealStreamSucceeds(p, m, id, xPriv, seed, pub, priv, chunkSize, c);
    s := S.SealStream(p, m, K.Print(pub), chunkSize, c).value;
    step := Step.SealStream(m, K.Print(pub), chunkSize, c);
    w' := StreamStep(p, steps, w, step, s);
    L.HonestStreamsOpen(p, steps + [step], w', |w.sessions|, m, id, xPriv, seed, chunkSize, c);
  }

  lemma StreamStep(p: Prims, steps: seq<Step>, w: World, step: Step, s: Session) returns (w': World)
    requires Run(p, steps) == Some(w) && Fresh(w, s) && step.SealStream? && |step.coins.nonce| == 7
    requires S.SealStream(p, step.m, step.pub, step.chunkSize, step.coins) == Ok(s)
    ensures Run(p, steps + [step]) == Some(w') && w' == w.(sessions := w.sessions + [s])
  {
    w' := w.(sessions := w.sessions + [s]);
    L.RunLast(p, steps + [step], steps, step);
  }

  lemma OpensInRun(
    p: Prims, steps: seq<Step>, w: World, k: nat, m: bytes, id: byte, xPriv: bytes, seed: bytes, pub: K.Bundle,
    priv: K.Bundle, sid: byte, secret: bytes, spub: K.Bundle, spriv: K.Bundle, psk: Option<bytes>, c: R.Coins,
    pin: Option<bytes>, policy: Option<string>)
    requires Lengths(p) && KeysAgree(p) && Run(p, steps) == Some(w) && k < |w.sessions|
    requires Setting(p, id, xPriv, seed, pub, priv, sid, secret, spub, spriv) && (sid == 1 <==> id == 1)
    requires R.Encrypt(p, m, K.Print(pub), Some(K.Print(spriv)), Some(K.Print(spub)), psk, c) == Ok(w.sessions[k])
    requires w.sessions[k].key !in w.advKeys && RT.PolicyAdmits(policy, psk) && PinFits(p, pin, spub.kid)
    ensures Sound(w.sessions[k])
    ensures R.Decrypt(Oracle(p, w), Output(w.sessions[k]), K.Print(priv), pin, psk, policy) == Ok(m)
  {
    MatchesInRun(p, w, id, sid, secret, spub, spriv, pin);
    T.HonestEnvelopesOpen(p, steps, w, k, m, id, xPriv, seed, Some(K.Print(spriv)), Some(K.Print(spub)), psk, c, pin,
                          policy);
  }

  lemma MatchesInRun(p: Prims, w: World, id: byte, sid: byte, secret: bytes, spub: K.Bundle, spriv: K.Bundle,
                     pin: Option<bytes>)
    requires SuiteOf(id).Ok? && K.SigningKeys(p, sid, secret) == Ok((spub, spriv))
    requires K.Printable(spub) && K.Printable(spriv)
    ensures RT.SenderMatches(Oracle(p, w), id, Some(K.Print(spriv)), Some(K.Print(spub)), pin)
       <==> (sid == 1 <==> id == 1) && PinFits(p, pin, spub.kid)
  {
    GeneratedSenderMatches(Oracle(p, w), id, sid, secret, spub, spriv, pin);
    if pin.Some? { RT.SameParts(p, Oracle(p, w), pin.value, K.ROLE_SIG_PUB, 1); }
  }
}
