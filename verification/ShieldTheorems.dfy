/** What `encrypt` and `decrypt` promise together: the single-shot round trip, the meaning of the
    pre-shared-key policies, and what an accepted byte string must be. */
module ShieldTheorems {
  import opened Bytes
  import opened Framing
  import opened Primitives
  import opened Combiner
  import opened Sessions
  import opened Shield
  import E = Envelope
  import K = KeyBundle

  /** The policy lets an envelope through that was sealed with exactly the key at hand. */
  predicate PolicyAdmits(policy: Option<string>, ppk: Option<bytes>) {
    GateAdmits(Given(ppk) != [], Given(ppk) != [], policy)
  }

  /** The sender's two bundles belong together, its suite names the recipient suite's signature
      scheme, and a pin names the same identity.  `encrypt` signs with the recipient suite's scheme
      and `decrypt` verifies with the sender's, so the scheme has to be shared. */
  predicate SenderMatches(p: Prims, id: byte, sk: Option<bytes>, pk: Option<bytes>, pin: Option<bytes>)
    requires SuiteOf(id).Ok?
  {
    if sk.None? then pin.None?
    else
      && pk.Some?
      && var kb, sb := ParseParts(p, sk.value, K.ROLE_SIG_PRIV, 1), ParseParts(p, pk.value, K.ROLE_SIG_PUB, 1);
      && kb.Ok? && sb.Ok? && kb.value.kid == sb.value.kid
      && SuiteOf(sb.value.suite).Ok?
      && SuiteOf(sb.value.suite).value.sig == SuiteOf(id).value.sig
      && sb.value.parts[0] == p.sigPublic(SuiteOf(id).value.sig, kb.value.parts[0])
      && CheckPin(p, pin, sb.value.kid).Ok?
  }

  lemma FlagBits(authenticated: bool, ppk: Option<bytes>)
    ensures Authenticated(SealFlags(authenticated, ppk)) <==> authenticated
    ensures PpkBound(SealFlags(authenticated, ppk)) <==> Given(ppk) != []
  {}

  /** The envelope a session prints. */
  function EnvelopeOf(s: Session, block: bytes): E.Envelope
    requires |s.sealed| == 1
  {
    E.Envelope(s.t.suite, s.t.flags, s.t.kid, s.t.eph, s.t.ct, s.t.nonce, block, s.sealed[0])
  }

  /** What a successful `encrypt` computed. */
  lemma EncryptInverts(p: Prims, m: bytes, pub: bytes, sk: Option<bytes>, pk: Option<bytes>, ppk: Option<bytes>,
                       c: Coins)
    returns (rb: K.Bundle, suite: Suite, signed: Signed)
    requires Encrypt(p, m, pub, sk, pk, ppk, c).Ok?
    ensures var s := Encrypt(p, m, pub, sk, pk, ppk, c).value;
      && ParseParts(p, pub, K.ROLE_KEM_PUB, 2) == Ok(rb) && SuiteOf(rb.suite) == Ok(suite)
      && p.Exchange(suite.kex, c.eph, rb.parts[0]) == Ok(s.ssc)
      && p.encaps(suite.kem, rb.parts[1], c.kem) == Ok((s.sspq, s.t.ct))
      && s.t == Transcript(rb.suite, SealFlags(sk.Some?, ppk), rb.kid, p.Public(suite.kex, c.eph), s.t.ct, c.nonce)
      && SignHandshake(p, suite, PreAuth(s.t), sk, pk, c.sig) == Ok(signed)
      && s.senderKid == signed.kid && s.signer == signed.signer && s.ppk == Given(ppk)
      && DeriveKey(suite, Legs(s.ssc, s.sspq, s.ppk), PreAuth(s.t), s.senderKid) == Ok(s.key)
      && p.seal(s.key, s.t.nonce, m, s.header) == Ok(s.sealed[0])
      && EnvelopeOf(s, signed.block).Printable()
      && s.header == E.Header(EnvelopeOf(s, signed.block))
      && Output(s) == E.Print(EnvelopeOf(s, signed.block))
  {
    rb := ParseParts(p, pub, K.ROLE_KEM_PUB, 2).value;
    suite := SuiteOf(rb.suite).value;
    var (sspq, ct) := p.encaps(suite.kem, rb.parts[1], c.kem).value;
    var t := Transcript(rb.suite, SealFlags(sk.Some?, ppk), rb.kid, p.Public(suite.kex, c.eph), ct, c.nonce);
    signed := SignHandshake(p, suite, PreAuth(t), sk, pk, c.sig).value;
    var s := Encrypt(p, m, pub, sk, pk, ppk, c).value;
    var fields := [t.kid, t.eph, t.ct, t.nonce, signed.block];
    assert EnvelopeOf(s, signed.block).Fields() == fields;
    assert |fields[0]| <= 0xFFFF && |fields[1]| <= 0xFFFF && |fields[2]| <= 0xFFFF && |fields[3]| <= 0xFFFF
        && |fields[4]| <= 0xFFFF;
  }

  /** The opener accepts the signature in a block that `SignHandshake` wrote. */
  ghost predicate BlockVerifies(o: Prims, s: Suite, sk: Option<bytes>, block: bytes, preAuth: bytes) {
    sk.Some? ==>
      var kb, blk := ParseParts(o, sk.value, K.ROLE_SIG_PRIV, 1), E.ParseBlock(block);
      kb.Ok? && blk.Ok? ==>
        o.verify(s.sig, o.sigPublic(s.sig, kb.value.parts[0]), preAuth + kb.value.kid, blk.value.signature,
            AuthCtx()) == Ok(true)
  }

  /** The signature in a block that `SignHandshake` wrote verifies, under the embedded bundle's scheme and
      key, for the signing scheme and key only. */
  ghost predicate BlockExclusive(o: Prims, s: Suite, sk: Option<bytes>, pk: Option<bytes>, block: bytes,
                                 preAuth: bytes) {
    sk.Some? && pk.Some? ==>
      var kb, sb := ParseParts(o, sk.value, K.ROLE_SIG_PRIV, 1), ParseParts(o, pk.value, K.ROLE_SIG_PUB, 1);
      var blk := E.ParseBlock(block);
      kb.Ok? && sb.Ok? && blk.Ok? && SuiteOf(sb.value.suite).Ok? ==>
        var alg, key := SuiteOf(sb.value.suite).value.sig, sb.value.parts[0];
        o.verify(alg, key, preAuth + kb.value.kid, blk.value.signature, AuthCtx()) == Ok(true) ==>
          alg == s.sig && key == o.sigPublic(s.sig, kb.value.parts[0])
  }

  /** `o` differs from `p` at most in how it opens and verifies. */
  ghost predicate SameKeys(p: Prims, o: Prims) {
    o == p.(open := o.open, verify := o.verify)
  }

  /** The block a sender wrote holds its private bundle's key-id, the public bundle it passed, and its
      signature. */
  lemma OwnBlock(p: Prims, o: Prims, s: Suite, sk: bytes, pk: Option<bytes>, coins: bytes, preAuth: bytes)
    requires SameKeys(p, o) && SignHandshake(p, s, preAuth, Some(sk), pk, coins).Ok?
    ensures var signed := SignHandshake(p, s, preAuth, Some(sk), pk, coins).value;
            var kb, blk := ParseParts(o, sk, K.ROLE_SIG_PRIV, 1), E.ParseBlock(signed.block);
            && pk.Some? && kb.Ok? && blk.Ok? && signed.kid == kb.value.kid == blk.value.kid && blk.value.pub == pk.value
            && signed.signer == Some(Signer(s.sig, o.sigPublic(s.sig, kb.value.parts[0])))
  {
    SameParts(p, o, sk, K.ROLE_SIG_PRIV, 1);
    var kb := ParseParts(p, sk, K.ROLE_SIG_PRIV, 1).value;
    var sig := p.sign(s.sig, kb.parts[0], preAuth + kb.kid, AuthCtx(), coins).value;
    var signed := SignHandshake(p, s, preAuth, Some(sk), pk, coins).value;
    E.ParseBlockIff(signed.block, E.SenderBlock(kb.kid, pk.value, sig));
  }

  /** Whatever sender `decrypt` accepts on the block is bound under the key-id the sender sealed with. */
  lemma SenderKidOnOwn(p: Prims, o: Prims, s: Suite, sk: Option<bytes>, pk: Option<bytes>, pin: Option<bytes>,
                       coins: bytes, e: E.Envelope)
    requires SameKeys(p, o) && (Authenticated(e.flags) <==> sk.Some?)
    requires SignHandshake(p, s, PreAuth(e.Transcript()), sk, pk, coins).Ok?
    requires e.block == SignHandshake(p, s, PreAuth(e.Transcript()), sk, pk, coins).value.block
    requires CheckSender(o, e, pin).Ok?
    ensures KidOf(CheckSender(o, e, pin).value) == SignHandshake(p, s, PreAuth(e.Transcript()), sk, pk, coins).value.kid
  {
    if sk.Some? { OwnBlock(p, o, s, sk.value, pk, coins, PreAuth(e.Transcript())); }
  }

  /** The sender block that a matching sender writes is one `decrypt` accepts. */
  lemma SenderAccepted(p: Prims, o: Prims, s: Suite, sk: Option<bytes>, pk: Option<bytes>, pin: Option<bytes>,
                       coins: bytes, e: E.Envelope)
    requires SameKeys(p, o) && SuiteOf(s.id) == Ok(s) && SenderMatches(o, s.id, sk, pk, pin)
    requires Authenticated(e.flags) <==> sk.Some?
    requires SignHandshake(p, s, PreAuth(e.Transcript()), sk, pk, coins).Ok?
    requires e.block == SignHandshake(p, s, PreAuth(e.Transcript()), sk, pk, coins).value.block
    requires BlockVerifies(o, s, sk, e.block, PreAuth(e.Transcript()))
    ensures CheckSender(o, e, pin).Ok?
  {
    if sk.Some? { OwnBlock(p, o, s, sk.value, pk, coins, PreAuth(e.Transcript())); }
  }

  /** And only a matching sender's: where a signature verifies for its own scheme and key alone,
      `decrypt` accepts the block of no other sender. */
  lemma SenderNecessary(p: Prims, o: Prims, s: Suite, sk: Option<bytes>, pk: Option<bytes>, pin: Option<bytes>,
                        coins: bytes, e: E.Envelope)
    requires SameKeys(p, o) && SuiteOf(s.id) == Ok(s) && CheckSender(o, e, pin).Ok?
    requires Authenticated(e.flags) <==> sk.Some?
    requires SignHandshake(p, s, PreAuth(e.Transcript()), sk, pk, coins).Ok?
    requires e.block == SignHandshake(p, s, PreAuth(e.Transcript()), sk, pk, coins).value.block
    requires BlockExclusive(o, s, sk, pk, e.block, PreAuth(e.Transcript()))
    ensures SenderMatches(o, s.id, sk, pk, pin)
  {
    if sk.Some? { OwnBlock(p, o, s, sk.value, pk, coins, PreAuth(e.Transcript())); }
  }

  lemma SameParts(p: Prims, o: Prims, buf: bytes, role: byte, n: nat)
    requires SameKeys(p, o)
    ensures K.Parse(o, buf, role) == K.Parse(p, buf, role) && ParseParts(o, buf, role, n) == ParseParts(p, buf, role, n)
  {}

  /** Both ends reach the same secrets. */
  lemma SecretsAgree(p: Prims, id: byte, xPriv: bytes, seed: bytes, eph: bytes, coins: bytes)
    requires KeysAgree(p) && K.RecipientKeys(p, id, xPriv, seed).Ok?
    requires var (pub, priv) := K.RecipientKeys(p, id, xPriv, seed).value;
             p.encaps(SuiteOf(id).value.kem, pub.parts[1], coins).Ok?
    ensures var (pub, priv) := K.RecipientKeys(p, id, xPriv, seed).value;
            var s := SuiteOf(id).value;
            && p.Exchange(s.kex, priv.parts[0], p.Public(s.kex, eph)) == p.Exchange(s.kex, eph, pub.parts[0])
            && p.decaps(s.kem, priv.parts[1], p.encaps(s.kem, pub.parts[1], coins).value.1)
                 == Ok(p.encaps(s.kem, pub.parts[1], coins).value.0)
  {}

  /** On its own envelope `decrypt` reaches the sealing key exactly when it accepts the sender block and
      the policy admits the pre-shared key at hand, whatever its opening and verifying primitives are. */
  lemma OwnEnvelopePlan(
    p: Prims, o: Prims, m: bytes, id: byte, xPriv: bytes, seed: bytes, sk: Option<bytes>, pk: Option<bytes>,
    ppk: Option<bytes>,
    c: Coins, pin: Option<bytes>, policy: Option<string>) returns (e: E.Envelope)
    requires KeysAgree(p) && SameKeys(p, o) && K.RecipientKeys(p, id, xPriv, seed).Ok?
    requires var (pub, priv) := K.RecipientKeys(p, id, xPriv, seed).value;
             K.Printable(pub) && K.Printable(priv) && Encrypt(p, m, K.Print(pub), sk, pk, ppk, c).Ok?
    ensures var (pub, priv) := K.RecipientKeys(p, id, xPriv, seed).value;
            var s := Encrypt(p, m, K.Print(pub), sk, pk, ppk, c).value;
            var plan, sender := PlanOpen(o, Output(s), K.Print(priv), pin, ppk, policy), CheckSender(o, e, pin);
            && WroteEnvelope(p, s, e, id, sk, pk, c)
            && (plan.Ok? <==> sender.Ok? && PolicyAdmits(policy, ppk))
            && (sender.Err? ==> plan == Err(sender.error))
            && (plan.Ok? ==> plan.value.e == e && plan.value.key == s.key)
  {
    var (pub, priv) := K.RecipientKeys(p, id, xPriv, seed).value;
    e := OwnEnvelope(p, m, id, xPriv, seed, sk, pk, ppk, c);
    K.ParseIff(o, K.Print(priv), K.ROLE_KEM_PRIV, priv);
    var s := Encrypt(p, m, K.Print(pub), sk, pk, ppk, c).value;
    assert MatchRecipient(o, K.Print(priv), e.suite, e.kid) == Ok(priv);
    PolicyOnOwnEnvelope(e.flags, ppk, policy);
    var sender := CheckSender(o, e, pin);
    if sender.Ok? {
      SenderKidOnOwn(p, o, SuiteOf(id).value, sk, pk, pin, c.sig, e);
      assert DerivePlan(o, e, priv, sender.value, Given(ppk)) == Ok(Plan(e, sender.value, s.ssc, s.sspq, s.ppk, s.key));
      PlanSteps(o, Output(s), K.Print(priv), pin, ppk, policy, e, priv, sender.value);
    }
  }

  /** `e` is the envelope that session `s` prints. */
  ghost predicate WroteEnvelope(p: Prims, s: Session, e: E.Envelope, id: byte, sk: Option<bytes>, pk: Option<bytes>,
                                c: Coins) {
    && SuiteOf(id).Ok? && e.suite == id && e.Transcript() == s.t && (Authenticated(e.flags) <==> sk.Some?)
    && |s.sealed| == 1 && e.sealed == s.sealed[0] && e.Printable() && s.header == E.Header(e)
    && var signed := SignHandshake(p, SuiteOf(id).value, PreAuth(s.t), sk, pk, c.sig);
    && signed.Ok? && e.block == signed.value.block && s.senderKid == signed.value.kid && s.signer == signed.value.signer
  }

  /** What an envelope sealed to generated keys holds, and the two secrets its recipient derives. */
  lemma OwnEnvelope(
    p: Prims, m: bytes, id: byte, xPriv: bytes, seed: bytes, sk: Option<bytes>, pk: Option<bytes>, ppk: Option<bytes>,
    c: Coins)
    returns (e: E.Envelope)
    requires KeysAgree(p) && K.RecipientKeys(p, id, xPriv, seed).Ok?
    requires var (pub, priv) := K.RecipientKeys(p, id, xPriv, seed).value;
             K.Printable(pub) && K.Printable(priv) && Encrypt(p, m, K.Print(pub), sk, pk, ppk, c).Ok?
    ensures var (pub, priv) := K.RecipientKeys(p, id, xPriv, seed).value;
            var s, suite := Encrypt(p, m, K.Print(pub), sk, pk, ppk, c).value, SuiteOf(id).value;
            && WroteEnvelope(p, s, e, id, sk, pk, c) && E.Parse(Output(s)) == Ok(e) && e.kid == priv.kid
            && (PpkBound(e.flags) <==> Given(ppk) != []) && s.ppk == Given(ppk)
            && p.Exchange(suite.kex, priv.parts[0], e.eph) == Ok(s.ssc)
                 && p.decaps(suite.kem, priv.parts[1], e.ct) == Ok(s.sspq)
            && DeriveKey(suite, Legs(s.ssc, s.sspq, s.ppk), PreAuth(s.t), s.senderKid) == Ok(s.key)
  {
    var (pub, priv) := K.RecipientKeys(p, id, xPriv, seed).value;
    K.ParseIff(p, K.Print(pub), K.ROLE_KEM_PUB, pub);
    var rb, suite, signed := EncryptInverts(p, m, K.Print(pub), sk, pk, ppk, c);
    assert rb == pub;
    var s := Encrypt(p, m, K.Print(pub), sk, pk, ppk, c).value;
    e := EnvelopeOf(s, signed.block);
    E.ParseIff(E.Print(e), e);
    assert e.Transcript() == s.t;
    FlagBits(sk.Some?, ppk);
    SecretsAgree(p, id, xPriv, seed, c.eph, c.kem);
  }

  /** A failing sender: the private bundle of one generated identity with the public bundle of another, of
      whatever suites.  What `encrypt` returns, `decrypt` rejects on the key-id, whatever pin and policy. */
  lemma MixedIdentitiesRejected(
    p: Prims, o: Prims, m: bytes, id: byte, xPriv: bytes, seed: bytes, a: K.Bundle, b: K.Bundle, ppk: Option<bytes>,
    c: Coins, pin: Option<bytes>, policy: Option<string>, sidA: byte, secretA: bytes, sidB: byte, secretB: bytes)
    requires KeysAgree(p) && SameKeys(p, o) && K.RecipientKeys(p, id, xPriv, seed).Ok?
    requires K.SigningKeys(p, sidA, secretA).Ok? && K.SigningKeys(p, sidB, secretB).Ok?
    requires a == K.SigningKeys(p, sidA, secretA).value.1 && b == K.SigningKeys(p, sidB, secretB).value.0
    requires a.kid != b.kid && K.Printable(a) && K.Printable(b)
    requires var (pub, priv) := K.RecipientKeys(p, id, xPriv, seed).value;
             && K.Printable(pub) && K.Printable(priv)
             && Encrypt(p, m, K.Print(pub), Some(K.Print(a)), Some(K.Print(b)), ppk, c).Ok?
    ensures var (pub, priv) := K.RecipientKeys(p, id, xPriv, seed).value;
            var x := Output(Encrypt(p, m, K.Print(pub), Some(K.Print(a)), Some(K.Print(b)), ppk, c).value);
            Decrypt(o, x, K.Print(priv), pin, ppk, policy) == Err(SenderKidMismatch)
  {
    var sk, pk := K.Print(a), K.Print(b);
    K.ParseComplete(o, a);
    K.ParseComplete(o, b);
    var e := OwnEnvelopePlan(p, o, m, id, xPriv, seed, Some(sk), Some(pk), ppk, c, pin, policy);
    OtherKid(p, o, SuiteOf(id).value, sk, pk, pin, c.sig, e, a, b);
  }

  lemma OtherKid(p: Prims, o: Prims, s: Suite, sk: bytes, pk: bytes, pin: Option<bytes>, coins: bytes, e: E.Envelope,
                 a: K.Bundle, b: K.Bundle)
    requires SameKeys(p, o) && Authenticated(e.flags) && a.kid != b.kid
    requires ParseParts(o, sk, K.ROLE_SIG_PRIV, 1) == Ok(a) && ParseParts(o, pk, K.ROLE_SIG_PUB, 1) == Ok(b)
    requires SignHandshake(p, s, PreAuth(e.Transcript()), Some(sk), Some(pk), coins).Ok?
    requires e.block == SignHandshake(p, s, PreAuth(e.Transcript()), Some(sk), Some(pk), coins).value.block
    ensures CheckSender(o, e, pin) == Err(SenderKidMismatch)
  {
    OwnBlock(p, o, s, sk, Some(pk), coins, PreAuth(e.Transcript()));
  }

  /** A signature that verifies names its signer: no other scheme or key accepts it. */
  ghost predicate SignaturesExclusive(p: Prims) {
    forall alg, sk, msg, ctx, coins, alg', pk' ::
      p.sign(alg, sk, msg, ctx, coins).Ok?
          && p.verify(alg', pk', msg, p.sign(alg, sk, msg, ctx, coins).value, ctx) == Ok(true)
      ==> alg' == alg && pk' == p.sigPublic(alg, sk)
  }

  /** Single-shot round trip: for every suite, anonymous or authenticated, with or without a
      pre-shared key, whatever sender bundles and pin are passed.  An envelope that `encrypt` returns
      opens to its plaintext when the policy admits the key at hand and the sender matches; it never
      opens to anything else, nor against the policy; and, where signatures name their signer, it opens
      exactly then. */
  lemma RoundTrip(
    p: Prims, m: bytes, id: byte, xPriv: bytes, seed: bytes, sk: Option<bytes>, pk: Option<bytes>, ppk: Option<bytes>,
    c: Coins, pin: Option<bytes>, policy: Option<string>)
    requires Correct(p) && K.RecipientKeys(p, id, xPriv, seed).Ok?
    requires var (pub, priv) := K.RecipientKeys(p, id, xPriv, seed).value;
             K.Printable(pub) && K.Printable(priv) && Encrypt(p, m, K.Print(pub), sk, pk, ppk, c).Ok?
    ensures var (pub, priv) := K.RecipientKeys(p, id, xPriv, seed).value;
            var x := Output(Encrypt(p, m, K.Print(pub), sk, pk, ppk, c).value);
            var r := Decrypt(p, x, K.Print(priv), pin, ppk, policy);
            && (PolicyAdmits(policy, ppk) && SenderMatches(p, id, sk, pk, pin) ==> r == Ok(m))
            && (r.Ok? ==> r == Ok(m) && PolicyAdmits(policy, ppk))
            && (SignaturesExclusive(p) ==> (r.Ok? <==> PolicyAdmits(policy, ppk) && SenderMatches(p, id, sk, pk, pin)))
  {
    var (pub, priv) := K.RecipientKeys(p, id, xPriv, seed).value;
    K.ParseIff(p, K.Print(pub), K.ROLE_KEM_PUB, pub);
    var s := Encrypt(p, m, K.Print(pub), sk, pk, ppk, c).value;
    var rb, suite, signed := EncryptInverts(p, m, K.Print(pub), sk, pk, ppk, c);
    var e := OwnEnvelopePlan(p, p, m, id, xPriv, seed, sk, pk, ppk, c, pin, policy);
    OwnSignatureVerifies(p, suite, PreAuth(s.t), sk, pk, c.sig);
    if SenderMatches(p, id, sk, pk, pin) { SenderAccepted(p, p, suite, sk, pk, pin, c.sig, e); }
    if SignaturesExclusive(p) && CheckSender(p, e, pin).Ok? {
      OwnSignatureExclusive(p, suite, PreAuth(s.t), sk, pk, c.sig);
      SenderNecessary(p, p, suite, sk, pk, pin, c.sig, e);
    }
  }

  lemma OwnSignatureExclusive(p: Prims, s: Suite, preAuth: bytes, sk: Option<bytes>, pk: Option<bytes>, coins: bytes)
    requires SignaturesExclusive(p) && SignHandshake(p, s, preAuth, sk, pk, coins).Ok?
    ensures BlockExclusive(p, s, sk, pk, SignHandshake(p, s, preAuth, sk, pk, coins).value.block, preAuth)
  {
    if sk.Some? {
      var kb := ParseParts(p, sk.value, K.ROLE_SIG_PRIV, 1).value;
      var sig := p.sign(s.sig, kb.parts[0], preAuth + kb.kid, AuthCtx(), coins).value;
      E.ParseBlockIff(SignHandshake(p, s, preAuth, sk, pk, coins).value.block, E.SenderBlock(kb.kid, pk.value, sig));
    }
  }

  lemma OwnSignatureVerifies(p: Prims, s: Suite, preAuth: bytes, sk: Option<bytes>, pk: Option<bytes>, coins: bytes)
    requires SignaturesVerify(p) && SignHandshake(p, s, preAuth, sk, pk, coins).Ok?
    ensures BlockVerifies(p, s, sk, SignHandshake(p, s, preAuth, sk, pk, coins).value.block, preAuth)
  {
    if sk.Some? {
      var kb := ParseParts(p, sk.value, K.ROLE_SIG_PRIV, 1).value;
      var sig := p.sign(s.sig, kb.parts[0], preAuth + kb.kid, AuthCtx(), coins).value;
      E.ParseBlockIff(SignHandshake(p, s, preAuth, sk, pk, coins).value.block, E.SenderBlock(kb.kid, pk.value, sig));
    }
  }

  // ---------------------------------------------------------------- detached signatures

  /** The bundle's bytes hold this suite and this key under its own fingerprint, and the suite's signature
      primitive accepted. */
  ghost predicate AcceptedUnder(p: Prims, pub: bytes, suite: byte, key: bytes, m: bytes, sig: bytes, ctx: bytes) {
    var kid := p.shake(Ascii("VRSK-sig-pub") + [suite] + key);
    && suite in {1, 2, 3} && |kid| <= 0xFFFF && |key| <= 0xFFFF
    && pub == [0x56, 0x52, 0x53, 0x4B, 2, suite, 3] + Tlv(kid) + Tlv(key)
    && p.verify(if suite == 1 then MLDSA65 else MLDSA87, key, m, sig, ctx) == Ok(true)
  }

  ghost predicate Accepted(p: Prims, pub: bytes, m: bytes, sig: bytes, ctx: bytes) {
    exists suite, key :: AcceptedUnder(p, pub, suite, key, m, sig, ctx)
  }

  /** `verify` is true exactly when the bytes are a public signing bundle of a known suite with one part,
      under its own fingerprint, and the primitive returned true for that part on this message, signature
      and context.  Everything else is false: a malformed bundle, another role, an unknown suite, a
      primitive that answers false or raises. */
  lemma VerifyIff(p: Prims, pub: bytes, m: bytes, sig: bytes, ctx: bytes)
    ensures Verify(p, pub, m, sig, ctx) <==> Accepted(p, pub, m, sig, ctx)
  {
    var b := ParseParts(p, pub, K.ROLE_SIG_PUB, 1);
    if b.Ok? && SuiteOf(b.value.suite).Ok? { ParsedIsBytes(p, pub, b.value); }
    if Verify(p, pub, m, sig, ctx) { assert AcceptedUnder(p, pub, b.value.suite, b.value.parts[0], m, sig, ctx); }
    if Accepted(p, pub, m, sig, ctx) {
      var suite, key :| AcceptedUnder(p, pub, suite, key, m, sig, ctx);
      BytesParse(p, pub, suite, key);
    }
  }

  lemma ParsedIsBytes(p: Prims, pub: bytes, b: K.Bundle)
    requires ParseParts(p, pub, K.ROLE_SIG_PUB, 1) == Ok(b)
    ensures var (kid, key) := (p.shake(Ascii("VRSK-sig-pub") + [b.suite] + b.parts[0]), b.parts[0]);
            && |kid| <= 0xFFFF && |key| <= 0xFFFF
            && pub == [0x56, 0x52, 0x53, 0x4B, 2, b.suite, 3] + Tlv(kid) + Tlv(key)
  {
    K.ParseIff(p, pub, K.ROLE_SIG_PUB, b);
    SigningBundleBytes(b);
  }

  lemma BytesParse(p: Prims, pub: bytes, suite: byte, key: bytes)
    requires var kid := p.shake(Ascii("VRSK-sig-pub") + [suite] + key);
             && |kid| <= 0xFFFF && |key| <= 0xFFFF
             && pub == [0x56, 0x52, 0x53, 0x4B, 2, suite, 3] + Tlv(kid) + Tlv(key)
    ensures ParseParts(p, pub, K.ROLE_SIG_PUB, 1)
         == Ok(K.Bundle(suite, 3, p.shake(Ascii("VRSK-sig-pub") + [suite] + key), [key]))
  {
    var b := K.Bundle(suite, 3, p.shake(Ascii("VRSK-sig-pub") + [suite] + key), [key]);
    SigningBundleBytes(b);
    K.ParseComplete(p, b);
  }

  lemma SigningBundleBytes(b: K.Bundle)
    requires K.Printable(b) && b.role == 3 && |b.parts| == 1
    ensures |b.parts[0]| <= 0xFFFF
    ensures K.Print(b) == [0x56, 0x52, 0x53, 0x4B, 2, b.suite, 3] + Tlv(b.kid) + Tlv(b.parts[0])
    ensures K.KidPreimage(b) == Ascii("VRSK-sig-pub") + [b.suite] + b.parts[0]
  {
    K.OnePart(b.parts);
    K.PrintedOne(b);
  }

  /** `sign` with a generated private bundle is the suite's primitive on that very key, message and
      context, its errors included. */
  lemma SignIsPrimitive(p: Prims, id: byte, sk: bytes, m: bytes, ctx: bytes, coins: bytes)
    requires K.SigningKeys(p, id, sk).Ok? && K.Printable(K.SigningKeys(p, id, sk).value.1)
    ensures Sign(p, K.Print(K.SigningKeys(p, id, sk).value.1), m, ctx, coins)
         == p.sign(if id == 1 then MLDSA65 else MLDSA87, sk, m, ctx, coins)
  {
    K.ParseComplete(p, K.SigningKeys(p, id, sk).value.1);
  }

  /** `decrypt`, once parse, recipient and sender checks have passed, is the gate and the opening. */
  lemma PlanSteps(p: Prims, x: bytes, privBytes: bytes, pin: Option<bytes>, ppk: Option<bytes>, policy: Option<string>,
                  e: E.Envelope, priv: K.Bundle, sender: Option<K.Bundle>)
    requires E.Parse(x) == Ok(e) && e.Printable() && MatchRecipient(p, privBytes, e.suite, e.kid) == Ok(priv)
    requires CheckSender(p, e, pin) == Ok(sender) && SuiteOf(e.suite).Ok? && |priv.parts| == 2
    ensures var gate := ResolvePpk(e.flags, ppk, policy);
            PlanOpen(p, x, privBytes, pin, ppk, policy) ==
            if gate.Err? then Err(gate.error) else DerivePlan(p, e, priv, sender, gate.value)
  {}

  lemma PolicyOnOwnEnvelope(flags: byte, ppk: Option<bytes>, policy: Option<string>)
    requires PpkBound(flags) <==> Given(ppk) != []
    ensures ResolvePpk(flags, ppk, policy).Ok? <==> PolicyAdmits(policy, ppk)
    ensures ResolvePpk(flags, ppk, policy).Ok? ==> ResolvePpk(flags, ppk, policy).value == Given(ppk)
  {
    GateTable(flags, ppk, policy);
  }

  /** The three policies partition acceptance.  With a key at hand, OPTIONAL accepts an envelope
      exactly when one, and then only one, of REQUIRED and FORBIDDEN does, with the same plaintext;
      an envelope accepted under REQUIRED was opened with a key whose third leg is that very
      pre-shared key, and one accepted under FORBIDDEN with a key that has no third leg. */
  lemma PoliciesPartition(p: Prims, x: bytes, priv: bytes, pin: Option<bytes>, ppk: bytes)
    requires ppk != []
    ensures var o, r, f := Decrypt(p, x, priv, pin, Some(ppk), Some("optional")),
                           Decrypt(p, x, priv, pin, Some(ppk), Some("required")),
                           Decrypt(p, x, priv, pin, Some(ppk), Some("forbidden"));
            && (o.Ok? <==> (r.Ok? || f.Ok?)) && !(r.Ok? && f.Ok?)
            && (r.Ok? ==> r == o) && (f.Ok? ==> f == o)
    ensures Decrypt(p, x, priv, pin, Some(ppk), Some("required")).Ok? ==>
              var plan := PlanOpen(p, x, priv, pin, Some(ppk), Some("required"));
              plan.Ok? && UsesLegs(plan.value.key, [plan.value.ssc, plan.value.sspq, ppk])
                  && PpkBound(plan.value.e.flags)
    ensures Decrypt(p, x, priv, pin, Some(ppk), Some("forbidden")).Ok? ==>
              var plan := PlanOpen(p, x, priv, pin, Some(ppk), Some("forbidden"));
              plan.Ok? && UsesLegs(plan.value.key, [plan.value.ssc, plan.value.sspq]) && !PpkBound(plan.value.e.flags)
  {
    var e := E.Parse(x);
    if e.Ok? {
      PolicyTable(e.value.flags, ppk);
      if PpkBound(e.value.flags) {
        SamePlan(p, x, priv, pin, Some(ppk), Some("optional"), Some("required"));
        GateCloses(p, x, priv, pin, Some(ppk), Some("forbidden"));
      } else {
        SamePlan(p, x, priv, pin, Some(ppk), Some("optional"), Some("forbidden"));
        GateCloses(p, x, priv, pin, Some(ppk), Some("required"));
      }
    }
    var r, f := PlanOpen(p, x, priv, pin, Some(ppk), Some("required")),
        PlanOpen(p, x, priv, pin, Some(ppk), Some("forbidden"));
    if r.Ok? {
      PlanLegs(p, x, priv, pin, Some(ppk), Some("required"));
      assert Legs(r.value.ssc, r.value.sspq, ppk) == [r.value.ssc, r.value.sspq, ppk];
    }
    if f.Ok? {
      PlanLegs(p, x, priv, pin, Some(ppk), Some("forbidden"));
      assert Legs(f.value.ssc, f.value.sspq, []) == [f.value.ssc, f.value.sspq];
    }
  }

  /** Only the outcome of the gate reaches the rest of `decrypt`. */
  lemma SamePlan(p: Prims, x: bytes, priv: bytes, pin: Option<bytes>, ppk: Option<bytes>, a: Option<string>,
                 b: Option<string>)
    requires E.Parse(x).Ok? ==> ResolvePpk(E.Parse(x).value.flags, ppk, a) == ResolvePpk(E.Parse(x).value.flags, ppk, b)
    ensures PlanOpen(p, x, priv, pin, ppk, a) == PlanOpen(p, x, priv, pin, ppk, b)
    ensures Decrypt(p, x, priv, pin, ppk, a) == Decrypt(p, x, priv, pin, ppk, b)
  {}

  lemma GateCloses(p: Prims, x: bytes, priv: bytes, pin: Option<bytes>, ppk: Option<bytes>, a: Option<string>)
    requires E.Parse(x).Ok? ==> ResolvePpk(E.Parse(x).value.flags, ppk, a).Err?
    ensures Decrypt(p, x, priv, pin, ppk, a).Err?
  {}

  lemma DerivedLegs(p: Prims, e: E.Envelope, kb: K.Bundle, sender: Option<K.Bundle>, psk: bytes)
    requires SuiteOf(e.suite).Ok? && |kb.parts| == 2 && DerivePlan(p, e, kb, sender, psk).Ok?
    ensures var plan := DerivePlan(p, e, kb, sender, psk).value;
            plan.ppk == psk && UsesLegs(plan.key, Legs(plan.ssc, plan.sspq, psk))
  {}

  /** The key of a plan is derived from the plan's own legs and from the gate's outcome. */
  lemma PlanLegs(p: Prims, x: bytes, priv: bytes, pin: Option<bytes>, ppk: Option<bytes>, policy: Option<string>)
    requires PlanOpen(p, x, priv, pin, ppk, policy).Ok?
    ensures var plan := PlanOpen(p, x, priv, pin, ppk, policy).value;
            && UsesLegs(plan.key, Legs(plan.ssc, plan.sspq, plan.ppk))
            && ResolvePpk(plan.e.flags, ppk, policy) == Ok(plan.ppk)
  {
    var e := E.Parse(x).value;
    E.ParseIff(x, e);
    ParsedPlanLegs(p, e, priv, pin, ppk, policy);
  }

  lemma ParsedPlanLegs(p: Prims, e: E.Envelope, priv: bytes, pin: Option<bytes>, ppk: Option<bytes>,
                       policy: Option<string>)
    requires SuiteOf(e.suite).Ok? && PlanParsed(p, e, priv, pin, ppk, policy).Ok?
    ensures var plan := PlanParsed(p, e, priv, pin, ppk, policy).value;
            UsesLegs(plan.key, Legs(plan.ssc, plan.sspq, plan.ppk)) && ResolvePpk(e.flags, ppk, policy) == Ok(plan.ppk)
  {
    var kb := MatchRecipient(p, priv, e.suite, e.kid).value;
    var sender := CheckSender(p, e, pin).value;
    DerivedLegs(p, e, kb, sender, ResolvePpk(e.flags, ppk, policy).value);
  }

  ghost predicate UsesLegs(k: Key, legs: seq<bytes>) {
    AllShort(legs) && k.ikm == FlatTlv(legs)
  }

  lemma PolicyTable(flags: byte, ppk: bytes)
    requires ppk != []
    ensures ResolvePpk(flags, Some(ppk), Some("optional")) == Ok(if PpkBound(flags) then ppk else [])
    ensures ResolvePpk(flags, Some(ppk), Some("required"))
        == if PpkBound(flags) then Ok(ppk) else Err(PpkRequiredButUnbound)
    ensures ResolvePpk(flags, Some(ppk), Some("forbidden")) == if PpkBound(flags) then Err(PpkForbidden) else Ok([])
  {
    assert "optional"[0] != "required"[0] && "forbidden"[0] != "required"[0] && "forbidden"[0] != "optional"[0];
  }

  /** An accepted byte string is, in all its bytes, the framing of the one AEAD opening it made. */
  lemma AcceptedIsFramed(p: Prims, x: bytes, priv: bytes, pin: Option<bytes>, ppk: Option<bytes>,
                         policy: Option<string>)
    returns (plan: Plan)
    requires Decrypt(p, x, priv, pin, ppk, policy).Ok?
    ensures PlanOpen(p, x, priv, pin, ppk, policy) == Ok(plan) && plan.e.Printable()
    ensures p.open(plan.key, plan.e.nonce, plan.e.sealed, E.Header(plan.e)) == Decrypt(p, x, priv, pin, ppk, policy)
    ensures x == E.Framed(E.Header(plan.e), plan.e.sealed)
  {
    plan := PlanOpen(p, x, priv, pin, ppk, policy).value;
    E.ParseIff(x, plan.e);
  }
}
