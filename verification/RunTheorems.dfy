/** The claims of the protocol over whole runs, for every sequence of steps. */
module RunTheorems {
  import opened Bytes
  import opened Framing
  import opened Primitives
  import opened Combiner
  import opened Sessions
  import opened World
  import opened Runs
  import E = Envelope
  import K = KeyBundle
  import R = Shield
  import RT = ShieldTheorems
  import S = Stream

  /** No (key, nonce) pair is used twice: two honest AEAD calls of a run, single-shot or chunk, that
      share key and nonce are the same call of the same session. */
  lemma NonceUniqueness(p: Prims, steps: seq<Step>, w: World, j: nat, i: nat, k: nat, l: nat)
    requires Lengths(p) && Run(p, steps) == Some(w)
    requires j < |w.sessions| && k < |w.sessions| && Sound(w.sessions[j]) && Sound(w.sessions[k])
    requires i < |w.sessions[j].sealed| && l < |w.sessions[k].sealed|
    ensures var a, b := CallOf(w.sessions[j], i), CallOf(w.sessions[k], l);
            |a.nonce| == 12 && (a.key == b.key && a.nonce == b.nonce ==> j == k && i == l)
  {
    RunKeeps(p, steps);
    var s, t := w.sessions[j], w.sessions[k];
    assert WellMade(s) && WellMade(t);
    var a, b := CallOf(s, i), CallOf(t, l);
    if a.key == b.key && a.nonce == b.nonce {
      OneKeyOneDraw(s, t);
      OneSession(w, j, k);
      if s.stream {
        SplitEqual(s.t.nonce, Ctr(i, i == |s.sealed| - 1), s.t.nonce, Ctr(l, l == |s.sealed| - 1));
        CtrInjective(i, i == |s.sealed| - 1, l, l == |s.sealed| - 1);
      }
    }
  }

  /** A key of an honest session that the adversary holds has every protective leg exposed. */
  lemma KeyNeedsEveryLeg(w: World, k: nat)
    requires Inv(w) && k < |w.sessions| && w.sessions[k].key in w.advKeys
    ensures forall o, v :: Leg(w.sessions[k], o, v) ==> o in w.exposed
  {
    var s := w.sessions[k];
    assert WellMade(s);
    var legs := Legs(s.ssc, s.sspq, s.ppk);
    assert Earned(w, s.key) && RT.UsesLegs(s.key, legs);
    assert legs[0] == s.ssc && legs[1] == s.sspq && (s.ppk != [] ==> legs[2] == s.ppk);
    forall o, v | Leg(s, o, v) ensures o in w.exposed {
      assert v in w.known;
      assert Harmless(w, s, v);
    }
  }

  /** Hybrid secrecy over whole runs, against an adversary that injects and has recipients open what
      it injects: a sealed plaintext reaches the adversary only if every leg mixed into its key has
      been exposed.  The pure-PQC suite rests on ML-KEM and any pre-shared key. */
  lemma HybridSecrecy(p: Prims, steps: seq<Step>, w: World, k: nat, i: nat)
    requires Lengths(p) && Run(p, steps) == Some(w) && k < |w.sessions| && Sound(w.sessions[k])
    requires i < |w.sessions[k].sealed|
    requires CallOf(w.sessions[k], i) in w.disclosed
    ensures var s := w.sessions[k];
            && (s.t.suite != 3 ==> ClassicalOf(s.t.kid) in w.exposed)
            && PqOf(s.t.kid) in w.exposed
            && (PpkBound(s.t.flags) ==> PpkOf(s.ppk) in w.exposed)
  {
    RunKeeps(p, steps);
    var s := w.sessions[k];
    assert WellMade(s);
    KeyNeedsEveryLeg(w, k);
    assert Leg(s, PqOf(s.t.kid), s.sspq);
    if s.t.suite != 3 { assert Leg(s, ClassicalOf(s.t.kid), s.ssc); }
    if PpkBound(s.t.flags) { assert Leg(s, PpkOf(s.ppk), s.ppk); }
  }

  /** Non-malleability over whole runs: what `decrypt` accepts is byte for byte an honest envelope
      with its plaintext, or was opened with a key the adversary holds. */
  lemma EnvelopesOnlyFromSenders(
    p: Prims, steps: seq<Step>, w: World, x: bytes, priv: bytes, pin: Option<bytes>, psk: Option<bytes>,
    policy: Option<string>, m: bytes)
    requires Lengths(p) && Run(p, steps) == Some(w)
    requires R.Decrypt(Oracle(p, w), x, priv, pin, psk, policy) == Ok(m)
    ensures R.PlanOpen(Oracle(p, w), x, priv, pin, psk, policy).Ok?
    ensures || R.PlanOpen(Oracle(p, w), x, priv, pin, psk, policy).value.key in w.advKeys
            || exists k: nat :: k < |w.sessions| && Sound(w.sessions[k]) && !w.sessions[k].stream
                                && Output(w.sessions[k]) == x && w.sessions[k].plain == [m]
  {
    RunKeeps(p, steps);
    if R.PlanOpen(Oracle(p, w), x, priv, pin, psk, policy).value.key !in w.advKeys {
      var k := EnvelopeIntegrity(p, w, x, priv, pin, psk, policy);
      assert w.sessions[k].plain == [m];
    }
  }

  /** Stream integrity over whole runs: what `open_stream` accepts is byte for byte an honest stream
      with its plaintext, or was opened with a key the adversary holds. */
  lemma StreamsOnlyFromSenders(p: Prims, steps: seq<Step>, w: World, x: bytes, priv: bytes, m: bytes)
    requires Lengths(p) && Run(p, steps) == Some(w) && S.OpenStream(Oracle(p, w), x, priv) == Ok(m)
    ensures S.PlanStream(Oracle(p, w), x, priv).Ok?
    ensures || S.PlanStream(Oracle(p, w), x, priv).value.secrets.key in w.advKeys
            || exists k: nat :: k < |w.sessions| && Sound(w.sessions[k]) && w.sessions[k].stream
                                && Output(w.sessions[k]) == x && m == Concat(w.sessions[k].plain)
  {
    RunKeeps(p, steps);
    if S.PlanStream(Oracle(p, w), x, priv).value.secrets.key !in w.advKeys {
      var k := StreamIntegrity(p, w, x, priv);
    }
  }

  lemma EarnedLegs(w: World, key: Key, legs: seq<bytes>, i: nat)
    requires Inv(w) && RT.UsesLegs(key, legs) && i < |legs|
    ensures key in w.advKeys ==> legs[i] in w.known
  {
    if key in w.advKeys { assert Earned(w, key); }
  }

  /** One secret the adversary lacks is enough: an envelope accepted under a key that mixes it is,
      byte for byte, an honest envelope sealed with the same secrets. */
  lemma AcceptedWithUnknownLeg(
    p: Prims, steps: seq<Step>, w: World, x: bytes, priv: bytes, pin: Option<bytes>, psk: Option<bytes>,
    policy: Option<string>, i: nat)
    returns (k: nat)
    requires Lengths(p) && Run(p, steps) == Some(w)
    requires R.Decrypt(Oracle(p, w), x, priv, pin, psk, policy).Ok?
    requires R.PlanOpen(Oracle(p, w), x, priv, pin, psk, policy).Ok?
    requires var plan := R.PlanOpen(Oracle(p, w), x, priv, pin, psk, policy).value;
             var legs := Legs(plan.ssc, plan.sspq, plan.ppk);
             i < |legs| && legs[i] !in w.known
    ensures k < |w.sessions| && Sound(w.sessions[k])
    ensures var s, plan := w.sessions[k], R.PlanOpen(Oracle(p, w), x, priv, pin, psk, policy).value;
            && !s.stream && x == Output(s) && R.Decrypt(Oracle(p, w), x, priv, pin, psk, policy) == Ok(s.plain[0])
            && s.ssc == plan.ssc && s.sspq == plan.sspq && s.ppk == plan.ppk
  {
    RunKeeps(p, steps);
    var o := Oracle(p, w);
    var plan := R.PlanOpen(o, x, priv, pin, psk, policy).value;
    RT.PlanLegs(o, x, priv, pin, psk, policy);
    var legs := Legs(plan.ssc, plan.sspq, plan.ppk);
    assert plan.key !in w.advKeys by { EarnedLegs(w, plan.key, legs, i); }
    k := EnvelopeIntegrity(p, w, x, priv, pin, psk, policy);
    var s := w.sessions[k];
    assert WellMade(s);
    FlatTlvInjective(legs, Legs(s.ssc, s.sspq, s.ppk));
    LegsInjective(plan.ssc, plan.sspq, plan.ppk, s.ssc, s.sspq, s.ppk);
  }

  /** What REQUIRED buys: an adversary that does not hold the pre-shared key, whatever else it has
      broken, cannot make an envelope that is accepted under it.  Only envelopes honestly sealed with
      that very key are. */
  lemma RequiredNeedsThePpk(
    p: Prims, steps: seq<Step>, w: World, x: bytes, priv: bytes, pin: Option<bytes>, psk: bytes, m: bytes)
    returns (k: nat)
    requires Lengths(p) && Run(p, steps) == Some(w) && psk != [] && psk !in w.known
    requires R.Decrypt(Oracle(p, w), x, priv, pin, Some(psk), Some("required")) == Ok(m)
    ensures k < |w.sessions| && Sound(w.sessions[k])
    ensures var s := w.sessions[k]; !s.stream && x == Output(s) && s.plain == [m] && s.ppk == psk
  {
    var o := Oracle(p, w);
    var plan := R.PlanOpen(o, x, priv, pin, Some(psk), Some("required")).value;
    RT.PlanLegs(o, x, priv, pin, Some(psk), Some("required"));
    RT.PolicyTable(plan.e.flags, psk);
    assert plan.ppk == psk && Legs(plan.ssc, plan.sspq, psk)[2] == psk;
    k := AcceptedWithUnknownLeg(p, steps, w, x, priv, pin, Some(psk), Some("required"), 2);
    RunKeeps(p, steps);
    assert WellMade(w.sessions[k]);
  }

  // ---------------------------------------------------------------- sender authentication

  /** The key was neither exposed nor used for documents under the handshake context. */
  ghost predicate HandshakesOnly(w: World, pk: bytes) {
    pk !in w.exposedSigners && forall c :: c in w.documents && c.pk == pk ==> c.ctx != R.AuthCtx()
  }

  /** The sender's key signed only handshakes, and these used its generated, 32-byte key-id. */
  ghost predicate SignerTrusted(w: World, pk: bytes) {
    && HandshakesOnly(w, pk)
    && (forall k :: 0 <= k < |w.sessions| && w.sessions[k].signer.Some? && w.sessions[k].signer.value.pk == pk ==>
          |w.sessions[k].senderKid| == 32)
  }

  lemma SameTail(a: bytes, b: bytes, c: bytes, d: bytes)
    requires a + b == c + d && |b| == |d|
    ensures a == c && b == d
  {
    assert |a + b| == |a| + |b| && |c + d| == |c| + |d|;
    SplitEqual(a, b, c, d);
  }

  /** The handshake behind a verified signature of a key that signs handshakes only: the signed bytes
      are one session's transcript and key-id, part by part when the key-ids have one length. */
  lemma SignatureIsHandshake(w: World, alg: Sig, pk: bytes, preAuth: bytes, kid: bytes) returns (k: nat)
    requires Inv(w) && HandshakesOnly(w, pk) && Signed(w, SigCall(alg, pk, preAuth + kid, R.AuthCtx()))
    ensures k < |w.sessions| && w.sessions[k].signer == Some(Signer(alg, pk)) && !w.sessions[k].stream
    ensures PreAuth(w.sessions[k].t) + w.sessions[k].senderKid == preAuth + kid
    ensures |w.sessions[k].senderKid| == |kid| ==> PreAuth(w.sessions[k].t) == preAuth && w.sessions[k].senderKid == kid
  {
    var c := SigCall(alg, pk, preAuth + kid, R.AuthCtx());
    assert c !in w.documents && c !in w.advSigs;
    k :| 0 <= k < |w.sessions| && w.sessions[k].signer.Some? && c == HandshakeSig(w.sessions[k]);
    var s := w.sessions[k];
    assert WellMade(s) && s.signer.value == Signer(alg, pk);
    if |s.senderKid| == |kid| { SameTail(PreAuth(s.t), s.senderKid, preAuth, kid); }
  }

  /** The transcript of an accepted envelope passed every length check. */
  lemma AcceptedIsPinned(p: Prims, w: World, e: E.Envelope, priv: bytes, pin: Option<bytes>, psk: Option<bytes>,
                         policy: Option<string>, kb: K.Bundle)
    requires Lengths(p) && SuiteOf(e.suite).Ok? && R.PlanParsed(Oracle(p, w), e, priv, pin, psk, policy).Ok?
    requires K.Parse(Oracle(p, w), priv, K.ROLE_KEM_PRIV) == Ok(kb) && |kb.kid| == 32
    ensures Pinned(e.Transcript())
  {
    SuiteLengths(e.suite);
    assert R.MatchRecipient(Oracle(p, w), priv, e.suite, e.kid) == Ok(kb);
    var s := SuiteOf(e.suite).value;
    assert p.decaps(s.kem, kb.parts[1], e.ct).Ok?;
    if e.suite != 3 { assert p.rawExchange(s.kex, kb.parts[0], e.eph).Ok?; }
  }

  /** The embedded bundle that verified under a pin: its key is the pinned key material, absent a
      collision of the two fingerprints, however many parts the pin has. */
  lemma PinnedSigner(o: Prims, blk: E.SenderBlock, preAuth: bytes, pin: bytes, b: K.Bundle, pinned: K.Bundle)
    returns (alg: Sig)
    requires R.VerifyBlock(o, blk, preAuth, Some(pin)) == Ok(b)
    requires K.Parse(o, pin, K.ROLE_SIG_PUB) == Ok(pinned) && NoKidCollision(o, b, pinned)
    requires forall y :: |o.shake(y)| == 32
    ensures |b.kid| == 32 && b.parts == [Concat(pinned.parts)]
    ensures o.verify(alg, b.parts[0], preAuth + b.kid, blk.signature, R.AuthCtx()) == Ok(true)
  {
    VerifiedBlock(o, blk, preAuth, pin);
    alg := SuiteOf(b.suite).value.sig;
    K.KidBinding(o, blk.pub, pin, K.ROLE_SIG_PUB, K.ROLE_SIG_PUB);
    K.OnePart(b.parts);
  }

  /** A pinned opening took the authenticated branch. */
  lemma PlanSender(o: Prims, e: E.Envelope, priv: bytes, pin: Option<bytes>, psk: Option<bytes>, policy: Option<string>)
    requires SuiteOf(e.suite).Ok? && pin.Some? && R.PlanParsed(o, e, priv, pin, psk, policy).Ok?
    ensures var plan := R.PlanParsed(o, e, priv, pin, psk, policy).value;
            Authenticated(e.flags) && E.ParseBlock(e.block).Ok?
            && R.VerifyBlock(o, E.ParseBlock(e.block).value, PreAuth(e.Transcript()), pin).Ok?
            && plan.sender == Some(R.VerifyBlock(o, E.ParseBlock(e.block).value, PreAuth(e.Transcript()), pin).value)
  {
    var sender := R.CheckSender(o, e, pin);
    assert sender.Ok?;
  }

  lemma VerifiedBlock(o: Prims, blk: E.SenderBlock, preAuth: bytes, pin: bytes)
    requires R.VerifyBlock(o, blk, preAuth, Some(pin)).Ok?
    ensures var b := R.VerifyBlock(o, blk, preAuth, Some(pin)).value;
            && K.Parse(o, blk.pub, K.ROLE_SIG_PUB) == Ok(b) && SuiteOf(b.suite).Ok?
            && o.verify(SuiteOf(b.suite).value.sig, b.parts[0], preAuth + b.kid, blk.signature, R.AuthCtx()) == Ok(true)
            && K.Parse(o, pin, K.ROLE_SIG_PUB).Ok? && K.Parse(o, pin, K.ROLE_SIG_PUB).value.kid == b.kid
            && b.kid == o.shake(K.KidPreimage(b))
  {}

  /** The fingerprints of two public bundles do not collide. */
  ghost predicate NoKidCollision(o: Prims, a: K.Bundle, b: K.Bundle) {
    K.KidLabel(a.role).Some? && K.KidLabel(b.role).Some? && o.shake(K.KidPreimage(a)) == o.shake(K.KidPreimage(b)) ==>
      K.KidPreimage(a) == K.KidPreimage(b)
  }

  /** One signed text has one reading for given field lengths. */
  lemma SignedText(t: Transcript, a: bytes, u: Transcript, b: bytes)
    requires PreAuth(t) + a == PreAuth(u) + b
    ensures t.suite == u.suite && t.flags == u.flags
    ensures t == u && a == b <==>
              |t.kid| == |u.kid| && |t.eph| == |u.eph| && |t.ct| == |u.ct| && |t.nonce| == |u.nonce|
  {
    var x, y := PreAuth(t) + a, PreAuth(u) + b;
    assert x[0] == t.suite && y[0] == u.suite && x[1] == t.flags && y[1] == u.flags;
    if |t.kid| == |u.kid| && |t.eph| == |u.eph| && |t.ct| == |u.ct| && |t.nonce| == |u.nonce| {
      SplitEqual(PreAuth(t), a, PreAuth(u), b);
      assert PreAuth(t) == [t.suite, t.flags] + t.kid + (t.eph + (t.ct + t.nonce));
      assert PreAuth(u) == [u.suite, u.flags] + u.kid + (u.eph + (u.ct + u.nonce));
      SplitFour([t.suite, t.flags] + t.kid, t.eph, t.ct, t.nonce, [u.suite, u.flags] + u.kid, u.eph, u.ct, u.nonce);
      SplitEqual([t.suite, t.flags], t.kid, [u.suite, u.flags], u.kid);
    }
  }

  /** Sender authentication over whole runs, with no condition on any length.  If `decrypt` returns with
      a pin whose key signs handshakes only, that signer ran `encrypt` and signed the same bytes, with
      the same suite and flags; and with the same fields and key-id exactly when the fields have the
      same lengths. */
  lemma SignedBytesAgree(
    p: Prims, steps: seq<Step>, w: World, x: bytes, priv: bytes, pin: bytes, psk: Option<bytes>, policy: Option<string>,
    plan: R.Plan, pinned: K.Bundle)
    returns (k: nat)
    requires Lengths(p) && Run(p, steps) == Some(w)
    requires R.Decrypt(Oracle(p, w), x, priv, Some(pin), psk, policy).Ok?
    requires R.PlanOpen(Oracle(p, w), x, priv, Some(pin), psk, policy) == Ok(plan)
    requires K.Parse(Oracle(p, w), pin, K.ROLE_SIG_PUB) == Ok(pinned)
    requires HandshakesOnly(w, Concat(pinned.parts))
    requires plan.sender.Some? ==> NoKidCollision(p, plan.sender.value, pinned)
    ensures k < |w.sessions| && !w.sessions[k].stream && w.sessions[k].signer.Some?
    ensures plan.sender.Some? && |plan.sender.value.kid| == 32
    ensures var s, t, kid := w.sessions[k], plan.e.Transcript(), plan.sender.value.kid;
            && s.signer.value.pk == Concat(pinned.parts)
            && PreAuth(s.t) + s.senderKid == PreAuth(t) + kid && s.t.suite == t.suite && s.t.flags == t.flags
            && (s.t == t && s.senderKid == kid <==>
                 |s.t.kid| == |t.kid| && |s.t.eph| == |t.eph| && |s.t.ct| == |t.ct| && |s.t.nonce| == |t.nonce|)
            && (|s.senderKid| == 32 ==> PreAuth(s.t) == PreAuth(t))
  {
    RunKeeps(p, steps);
    var o, e := Oracle(p, w), plan.e;
    E.ParseIff(x, e);
    assert forall y :: o.shake(y) == p.shake(y);
    PlanSender(o, e, priv, Some(pin), psk, policy);
    var b := plan.sender.value;
    var alg := PinnedSigner(o, E.ParseBlock(e.block).value, PreAuth(e.Transcript()), pin, b, pinned);
    assert Signed(w, SigCall(alg, b.parts[0], PreAuth(e.Transcript()) + b.kid, R.AuthCtx()));
    k := SignatureIsHandshake(w, alg, b.parts[0], PreAuth(e.Transcript()), b.kid);
    SignedText(w.sessions[k].t, w.sessions[k].senderKid, e.Transcript(), b.kid);
  }

  /** Sender authentication with generated key-ids (non-injective agreement).  If `decrypt` returns with a
      pin whose key material is trusted, that signer ran `encrypt` with the same suite, flags,
      recipient key-id and transcript bytes; with the same ephemeral key, ciphertext and nonce exactly
      when the envelope's ephemeral key has the suite's length, which every suite with a classical
      leg guarantees.  Exposing recipient keys makes no difference. */
  lemma SenderAgreement(
    p: Prims, steps: seq<Step>, w: World, x: bytes, priv: bytes, pin: bytes, psk: Option<bytes>, policy: Option<string>,
    plan: R.Plan, kb: K.Bundle, pinned: K.Bundle)
    returns (k: nat)
    requires Lengths(p) && Run(p, steps) == Some(w)
    requires R.Decrypt(Oracle(p, w), x, priv, Some(pin), psk, policy).Ok?
    requires R.PlanOpen(Oracle(p, w), x, priv, Some(pin), psk, policy) == Ok(plan)
    requires K.Parse(Oracle(p, w), priv, K.ROLE_KEM_PRIV) == Ok(kb) && |kb.kid| == 32
    requires K.Parse(Oracle(p, w), pin, K.ROLE_SIG_PUB) == Ok(pinned)
    requires SignerTrusted(w, Concat(pinned.parts))
    requires plan.sender.Some? ==> NoKidCollision(p, plan.sender.value, pinned)
    ensures k < |w.sessions| && !w.sessions[k].stream && w.sessions[k].signer.Some?
    ensures var s, e := w.sessions[k], plan.e;
            && s.signer.value.pk == Concat(pinned.parts)
            && PreAuth(s.t) == PreAuth(e.Transcript())
            && s.t.suite == e.suite && s.t.flags == e.flags && s.t.kid == e.kid
            && SuiteOf(s.t.suite).Ok? && (s.t == e.Transcript() <==> |e.eph| == SuiteOf(s.t.suite).value.ecdhPubLen)
            && (e.suite != 3 ==> s.t == e.Transcript())
  {
    k := SignedBytesAgree(p, steps, w, x, priv, pin, psk, policy, plan, pinned);
    RunKeeps(p, steps);
    E.ParseIff(x, plan.e);
    AcceptedIsPinned(p, w, plan.e, priv, Some(pin), psk, policy, kb);
    assert WellMade(w.sessions[k]);
    PreAuthInjective(w.sessions[k].t, plan.e.Transcript());
  }

  /** Origin and secrecy together: with a trusted pin and one leg that the adversary lacks, the accepted
      bytes are an envelope that the pinned signer sealed, and the plaintext is the signer's. */
  lemma PinnedEnvelopeIsSigners(
    p: Prims, steps: seq<Step>, w: World, x: bytes, priv: bytes, pin: bytes, psk: Option<bytes>, policy: Option<string>,
    plan: R.Plan, kb: K.Bundle, pinned: K.Bundle, i: nat)
    returns (k: nat)
    requires Lengths(p) && Run(p, steps) == Some(w)
    requires R.Decrypt(Oracle(p, w), x, priv, Some(pin), psk, policy).Ok?
    requires R.PlanOpen(Oracle(p, w), x, priv, Some(pin), psk, policy) == Ok(plan)
    requires K.Parse(Oracle(p, w), priv, K.ROLE_KEM_PRIV) == Ok(kb) && |kb.kid| == 32
    requires K.Parse(Oracle(p, w), pin, K.ROLE_SIG_PUB) == Ok(pinned)
    requires SignerTrusted(w, Concat(pinned.parts))
    requires plan.sender.Some? ==> NoKidCollision(p, plan.sender.value, pinned)
    requires var legs := Legs(plan.ssc, plan.sspq, plan.ppk); i < |legs| && legs[i] !in w.known
    ensures k < |w.sessions| && Sound(w.sessions[k]) && w.sessions[k].signer.Some?
    ensures var s := w.sessions[k];
            && s.signer.value.pk == Concat(pinned.parts) && x == Output(s)
            && R.Decrypt(Oracle(p, w), x, priv, Some(pin), psk, policy) == Ok(s.plain[0])
  {
    var j := AcceptedWithUnknownLeg(p, steps, w, x, priv, Some(pin), psk, policy, i);
    k := SenderAgreement(p, steps, w, x, priv, pin, psk, policy, plan, kb, pinned);
    RunKeeps(p, steps);
    assert WellMade(w.sessions[j]) && WellMade(w.sessions[k]);
    OutputTranscript(w.sessions[j], x, plan.e);
    OneSession(w, j, k);
  }

  /** `f` carries the signed bytes of `e`, cut at other places: `f` has an ephemeral key and `e` has none. */
  ghost predicate Recut(e: E.Envelope, f: E.Envelope) {
    && f.suite == e.suite && f.flags == e.flags && f.kid == e.kid && f.block == e.block
    && f.eph + f.ct + f.nonce == e.eph + e.ct + e.nonce && |f.ct| == |e.ct| && |e.eph| == 0 < |f.eph|
    && f.Printable()
  }

  lemma RecutTranscript(e: E.Envelope, f: E.Envelope)
    requires Recut(e, f)
    ensures PreAuth(f.Transcript()) == PreAuth(e.Transcript()) && f.Transcript() != e.Transcript()
  {
    Regrouped(e.Transcript());
    Regrouped(f.Transcript());
  }

  lemma Regrouped(t: Transcript)
    ensures PreAuth(t) == [t.suite, t.flags] + t.kid + (t.eph + t.ct + t.nonce)
  {}

  /** Such envelopes exist for every nonce of 12 bytes, also with a nonce that AES-GCM accepts. */
  lemma RecutExists(e: E.Envelope, j: nat, sealed: bytes) returns (f: E.Envelope)
    requires e.Printable() && |e.eph| == 0 && |e.ct| == 1568 && |e.nonce| == 12 && 0 < j <= 4
    requires |sealed| < 0x1_0000_0000
    ensures Recut(e, f) && |f.eph| == j && |f.nonce| == 12 - j >= 8 && f.sealed == sealed
  {
    var tail := e.ct + e.nonce;
    f := e.(eph := tail[..j], ct := tail[j..j + 1568], nonce := tail[j + 1568..], sealed := sealed);
    assert f.eph + f.ct + f.nonce == tail == e.eph + e.ct + e.nonce;
  }

  /** The length condition of `SenderAgreement` cannot be dropped for the pure-PQC suite.  Take a session
      that a matching sender sealed under suite 3 and an envelope with the same signed bytes, cut at
      other places.  Wherever its sealing is in the ledger, `decrypt` returns with the sender's pin, on
      transcript fields that are not the session's. */
  lemma PureSuiteNeedsLength(
    p: Prims, w: World, k: nat, m: bytes, xPriv: bytes, seed: bytes, sk: bytes, pk: bytes, c: R.Coins, pin: bytes,
    pub: K.Bundle, priv: K.Bundle, e: E.Envelope, f: E.Envelope, secret: bytes, plain: bytes)
    requires KeysAgree(p) && k < |w.sessions| && K.RecipientKeys(p, 3, xPriv, seed) == Ok((pub, priv))
    requires K.Printable(pub) && K.Printable(priv)
    requires R.Encrypt(p, m, K.Print(pub), Some(sk), Some(pk), None, c) == Ok(w.sessions[k])
    requires RT.SenderMatches(Oracle(p, w), 3, Some(sk), Some(pk), Some(pin))
    requires RT.WroteEnvelope(p, w.sessions[k], e, 3, Some(sk), Some(pk), c) && Recut(e, f)
    requires p.decaps(MLKEM1024, priv.parts[1], f.ct) == Ok(secret) && |secret| <= 0xFFFF
    requires RecutCall(w.sessions[k], f, secret, plain) in w.advCalls
    ensures R.Decrypt(Oracle(p, w), E.Print(f), K.Print(priv), Some(pin), None, None).Ok?
    ensures PreAuth(f.Transcript()) == PreAuth(w.sessions[k].t) && f.Transcript() != w.sessions[k].t
  {
    var o, s := Oracle(p, w), w.sessions[k];
    RecutTranscript(e, f);
    E.ParseIff(E.Print(f), f);
    SealedFor(p, s, m, xPriv, seed, sk, pk, c);
    var sender := RecutSender(p, w, k, Some(sk), Some(pk), Some(pin), c, e, f);
    RecutPlan(o, f, priv, Some(pin), sender, secret, s.key.info);
    LedgerOpens(p, w, f, Some(pin), K.Print(priv), RecutCall(s, f, secret, plain));
  }

  /** The sealing of a recut envelope: the session's FixedInfo, the secret of the recut ciphertext. */
  function RecutCall(s: Session, f: E.Envelope, secret: bytes, plain: bytes): SealCall
    requires f.Printable() && |secret| <= 0xFFFF
  {
    SealCall(Key(SHA384, FlatTlv([[], secret]), s.key.info), f.nonce, E.Header(f), plain, f.sealed)
  }

  lemma SealedFor(p: Prims, s: Session, m: bytes, xPriv: bytes, seed: bytes, sk: bytes, pk: bytes, c: R.Coins)
    requires K.RecipientKeys(p, 3, xPriv, seed).Ok?
    requires var pub := K.RecipientKeys(p, 3, xPriv, seed).value.0;
             K.Printable(pub) && R.Encrypt(p, m, K.Print(pub), Some(sk), Some(pk), None, c) == Ok(s)
    ensures s.t.kid == K.RecipientKeys(p, 3, xPriv, seed).value.1.kid && !PpkBound(s.t.flags) && s.t.nonce == c.nonce
    ensures s.key.info == Info(3, PreAuth(s.t), s.senderKid)
  {
    var pub := K.RecipientKeys(p, 3, xPriv, seed).value.0;
    K.ParseIff(p, K.Print(pub), K.ROLE_KEM_PUB, pub);
    var rb, suite, signed := RT.EncryptInverts(p, m, K.Print(pub), Some(sk), Some(pk), None, c);
    RT.FlagBits(true, None);
  }

  lemma LedgerOpens(p: Prims, w: World, f: E.Envelope, pin: Option<bytes>, priv: bytes, call: SealCall)
    requires f.Printable() && call in w.advCalls && call.nonce == f.nonce && call.aad == E.Header(f)
    requires call.ct == f.sealed
    requires var plan := R.PlanOpen(Oracle(p, w), E.Print(f), priv, pin, None, None);
             plan.Ok? && plan.value.e == f && plan.value.key == call.key
    ensures R.Decrypt(Oracle(p, w), E.Print(f), priv, pin, None, None).Ok?
  {
    assert Sealed(w, SealCall(call.key, f.nonce, E.Header(f), call.pt, f.sealed));
    assert Oracle(p, w).open(call.key, f.nonce, f.sealed, E.Header(f))
        == LedgerOpen(w, call.key, f.nonce, f.sealed, E.Header(f));
  }

  /** Equal signed bytes, equal sender checks. */
  lemma RecutSender(p: Prims, w: World, k: nat, sk: Option<bytes>, pk: Option<bytes>, pin: Option<bytes>, c: R.Coins,
                      e: E.Envelope, f: E.Envelope) returns (sender: Option<K.Bundle>)
    requires k < |w.sessions| && RT.SenderMatches(Oracle(p, w), 3, sk, pk, pin)
    requires RT.WroteEnvelope(p, w.sessions[k], e, 3, sk, pk, c)
    requires f.flags == e.flags && f.block == e.block && PreAuth(f.Transcript()) == PreAuth(e.Transcript())
    ensures R.CheckSender(Oracle(p, w), f, pin) == Ok(sender) && R.KidOf(sender) == w.sessions[k].senderKid
  {
    var o, suite := Oracle(p, w), SuiteOf(3).value;
    HandshakeVerifies(p, w, k, suite, sk, pk, c.sig);
    RT.SenderAccepted(p, o, suite, sk, pk, pin, c.sig, f);
    RT.SenderKidOnOwn(p, o, suite, sk, pk, pin, c.sig, f);
    sender := R.CheckSender(o, f, pin).value;
  }

  /** The pure-PQC suite decapsulates and never looks at the ephemeral key. */
  lemma RecutPlan(o: Prims, f: E.Envelope, priv: K.Bundle, pin: Option<bytes>, sender: Option<K.Bundle>, secret: bytes,
                  info: bytes)
    requires f.suite == 3 && !PpkBound(f.flags) && f.Printable() && E.Parse(E.Print(f)) == Ok(f)
    requires K.Printable(priv) && priv.role == K.ROLE_KEM_PRIV && |priv.parts| == 2 && priv.suite == 3
    requires priv.kid == f.kid
    requires R.CheckSender(o, f, pin) == Ok(sender) && o.decaps(MLKEM1024, priv.parts[1], f.ct) == Ok(secret)
    requires |secret| <= 0xFFFF
    requires info == Info(3, PreAuth(f.Transcript()), R.KidOf(sender))
    ensures R.PlanOpen(o, E.Print(f), K.Print(priv), pin, None, None)
         == Ok(R.Plan(f, sender, [], secret, [], Key(SHA384, FlatTlv([[], secret]), info)))
  {
    K.ParseComplete(o, priv);
    R.GateTable(f.flags, None, None);
    assert Legs([], secret, []) == [[], secret];
    RT.PlanSteps(o, E.Print(f), K.Print(priv), pin, None, None, f, priv, sender);
  }

  // ---------------------------------------------------------------- the model is live

  /** Two handshakes with one signed text are one draw. */
  lemma OneTextOneDraw(a: Session, b: Session)
    requires WellMade(a) && WellMade(b) && !a.stream && !b.stream
    requires PreAuth(a.t) + a.senderKid == PreAuth(b.t) + b.senderKid
    ensures SameDraw(a, b)
  {
    var x, y := [a.t.suite, a.t.flags] + a.t.kid, [b.t.suite, b.t.flags] + b.t.kid;
    assert PreAuth(a.t) + a.senderKid == x + (a.t.eph + (a.t.ct + (a.t.nonce + a.senderKid)));
    assert PreAuth(b.t) + b.senderKid == y + (b.t.eph + (b.t.ct + (b.t.nonce + b.senderKid)));
    assert a.t.suite == (PreAuth(a.t) + a.senderKid)[0] && b.t.suite == (PreAuth(b.t) + b.senderKid)[0];
    SplitFour(x, a.t.eph, a.t.ct, a.t.nonce + a.senderKid, y, b.t.eph, b.t.ct, b.t.nonce + b.senderKid);
    SplitEqual(a.t.nonce, a.senderKid, b.t.nonce, b.senderKid);
  }

  lemma HandshakeVerifies(p: Prims, w: World, k: nat, suite: Suite, sk: Option<bytes>, pk: Option<bytes>, coins: bytes)
    requires k < |w.sessions|
    requires R.SignHandshake(p, suite, PreAuth(w.sessions[k].t), sk, pk, coins).Ok?
    requires var signed := R.SignHandshake(p, suite, PreAuth(w.sessions[k].t), sk, pk, coins).value;
             w.sessions[k].signer == signed.signer && w.sessions[k].senderKid == signed.kid
    ensures var o := Oracle(p, w);
            RT.SameKeys(p, o)
            && RT.BlockVerifies(o, suite, sk,
                 R.SignHandshake(p, suite, PreAuth(w.sessions[k].t), sk, pk, coins).value.block,
                                PreAuth(w.sessions[k].t))
  {
    var o := Oracle(p, w);
    if sk.Some? {
      RT.SameParts(p, o, sk.value, K.ROLE_SIG_PRIV, 1);
      assert HandshakeSigned(w, HandshakeSig(w.sessions[k]));
    }
  }

  /** The bundle a sender embeds holds a key that signs handshakes only. */
  ghost predicate EmbeddedTrusted(o: Prims, w: World, pk: Option<bytes>) {
    pk.Some? && R.ParseParts(o, pk.value, K.ROLE_SIG_PUB, 1).Ok? ==>
      HandshakesOnly(w, R.ParseParts(o, pk.value, K.ROLE_SIG_PUB, 1).value.parts[0])
  }

  /** In a run, a signature on a handshake verifies for that handshake's signer only. */
  lemma HandshakeExclusive(w: World, k: nat, alg: Sig, key: bytes)
    requires Inv(w) && k < |w.sessions| && w.sessions[k].signer.Some? && HandshakesOnly(w, key)
    requires Signed(w, SigCall(alg, key, PreAuth(w.sessions[k].t) + w.sessions[k].senderKid, R.AuthCtx()))
    ensures w.sessions[k].signer == Some(Signer(alg, key))
  {
    var s := w.sessions[k];
    var c := SigCall(alg, key, PreAuth(s.t) + s.senderKid, R.AuthCtx());
    assert c !in w.documents && c !in w.advSigs;
    var j :| 0 <= j < |w.sessions| && w.sessions[j].signer.Some? && c == HandshakeSig(w.sessions[j]);
    assert WellMade(s) && WellMade(w.sessions[j]);
    OneTextOneDraw(w.sessions[j], s);
    OneSession(w, j, k);
  }

  lemma OwnBlockExclusive(p: Prims, w: World, k: nat, suite: Suite, sk: bytes, pk: bytes, coins: bytes,
                          signed: R.Signed)
    requires Inv(w) && k < |w.sessions| && EmbeddedTrusted(Oracle(p, w), w, Some(pk))
    requires R.SignHandshake(p, suite, PreAuth(w.sessions[k].t), Some(sk), Some(pk), coins) == Ok(signed)
    requires w.sessions[k].signer == signed.signer && w.sessions[k].senderKid == signed.kid
    ensures RT.BlockExclusive(Oracle(p, w), suite, Some(sk), Some(pk), signed.block, PreAuth(w.sessions[k].t))
  {
    var o := Oracle(p, w);
    RT.OwnBlock(p, o, suite, sk, Some(pk), coins, PreAuth(w.sessions[k].t));
    var kb, sb := R.ParseParts(o, sk, K.ROLE_SIG_PRIV, 1).value, R.ParseParts(o, pk, K.ROLE_SIG_PUB, 1);
    if sb.Ok? && SuiteOf(sb.value.suite).Ok? {
      OnlyItsSigner(w, k, SuiteOf(sb.value.suite).value.sig, sb.value.parts[0]);
    }
    ExclusiveByLedger(p, w, suite, sk, pk, signed.block, PreAuth(w.sessions[k].t), kb);
  }

  /** What the ledger says of a block, the opener's verification says. */
  lemma ExclusiveByLedger(p: Prims, w: World, suite: Suite, sk: bytes, pk: bytes, block: bytes, preAuth: bytes,
                          kb: K.Bundle)
    requires var o, sb := Oracle(p, w), R.ParseParts(Oracle(p, w), pk, K.ROLE_SIG_PUB, 1);
             && R.ParseParts(o, sk, K.ROLE_SIG_PRIV, 1) == Ok(kb)
             && (sb.Ok? && SuiteOf(sb.value.suite).Ok? ==>
                  var alg, key := SuiteOf(sb.value.suite).value.sig, sb.value.parts[0];
                  Signed(w, SigCall(alg, key, preAuth + kb.kid, R.AuthCtx())) ==>
                    alg == suite.sig && key == o.sigPublic(suite.sig, kb.parts[0]))
    ensures RT.BlockExclusive(Oracle(p, w), suite, Some(sk), Some(pk), block, preAuth)
  {}

  lemma OnlyItsSigner(w: World, k: nat, alg: Sig, key: bytes)
    requires Inv(w) && k < |w.sessions| && w.sessions[k].signer.Some? && HandshakesOnly(w, key)
    ensures Signed(w, SigCall(alg, key, PreAuth(w.sessions[k].t) + w.sessions[k].senderKid, R.AuthCtx())) ==>
              w.sessions[k].signer == Some(Signer(alg, key))
  {
    if Signed(w, SigCall(alg, key, PreAuth(w.sessions[k].t) + w.sessions[k].senderKid, R.AuthCtx())) {
      HandshakeExclusive(w, k, alg, key);
    }
  }

  /** An honest envelope's sealed bytes open to its plaintext while the adversary lacks the key. */
  lemma OwnOpening(w: World, k: nat, e: E.Envelope)
    requires Inv(w) && k < |w.sessions| && Sound(w.sessions[k]) && !w.sessions[k].stream
    requires w.sessions[k].key !in w.advKeys
    requires var s := w.sessions[k];
             e.Printable() && E.Header(e) == s.header && e.nonce == s.t.nonce && e.sealed == s.sealed[0]
    ensures LedgerOpen(w, w.sessions[k].key, e.nonce, e.sealed, E.Header(e)) == Ok(w.sessions[k].plain[0])
  {
    var s := w.sessions[k];
    var call := CallOf(s, 0);
    assert MadeCall(s, call) && Sealed(w, call);
    var r := LedgerOpen(w, s.key, e.nonce, e.sealed, E.Header(e));
    var found := SealCall(s.key, e.nonce, E.Header(e), r.value, e.sealed);
    var k' := EntryIsEnvelope(w, found, e);
    assert WellMade(s) && WellMade(w.sessions[k']);
    OneKeyOneDraw(s, w.sessions[k']);
    OneSession(w, k, k');
  }

  /** The round trip inside a run, for any sender bundles and any pin.  While the adversary lacks its
      key, an honest envelope opens to its plaintext when the policy admits the pre-shared key at hand
      and the sender matches; it opens to nothing else and not against the policy; and, if the embedded
      key signs handshakes only, it opens exactly then. */
  lemma HonestEnvelopesOpen(
    p: Prims, steps: seq<Step>, w: World, k: nat, m: bytes, id: byte, xPriv: bytes, seed: bytes,
    sk: Option<bytes>, pk: Option<bytes>, psk: Option<bytes>, c: R.Coins, pin: Option<bytes>, policy: Option<string>)
    requires Lengths(p) && KeysAgree(p) && Run(p, steps) == Some(w) && k < |w.sessions|
    requires K.RecipientKeys(p, id, xPriv, seed).Ok?
    requires var (pub, priv) := K.RecipientKeys(p, id, xPriv, seed).value;
             K.Printable(pub) && K.Printable(priv)
             && R.Encrypt(p, m, K.Print(pub), sk, pk, psk, c) == Ok(w.sessions[k])
    requires w.sessions[k].key !in w.advKeys
    ensures Sound(w.sessions[k])
    ensures var o, priv := Oracle(p, w), K.RecipientKeys(p, id, xPriv, seed).value.1;
            var r := R.Decrypt(o, Output(w.sessions[k]), K.Print(priv), pin, psk, policy);
            && (RT.PolicyAdmits(policy, psk) && RT.SenderMatches(o, id, sk, pk, pin) ==> r == Ok(m))
            && (r.Ok? ==> r == Ok(m) && RT.PolicyAdmits(policy, psk))
            && (EmbeddedTrusted(o, w, pk) ==>
                 (r.Ok? <==> RT.PolicyAdmits(policy, psk) && RT.SenderMatches(o, id, sk, pk, pin)))
  {
    RunKeeps(p, steps);
    var o, s, suite := Oracle(p, w), w.sessions[k], SuiteOf(id).value;
    var e := RT.OwnEnvelopePlan(p, o, m, id, xPriv, seed, sk, pk, psk, c, pin, policy);
    OwnSender(p, w, k, suite, sk, pk, pin, c, e);
    OwnOpening(w, k, e);
    assert o.open(s.key, e.nonce, e.sealed, E.Header(e)) == LedgerOpen(w, s.key, e.nonce, e.sealed, E.Header(e));
  }

  /** In a run, `decrypt` accepts the sender block of an honest envelope if, and for a trusted embedded
      key only if, the sender matches. */
  lemma OwnSender(p: Prims, w: World, k: nat, suite: Suite, sk: Option<bytes>, pk: Option<bytes>, pin: Option<bytes>,
                  c: R.Coins, e: E.Envelope)
    requires Inv(w) && k < |w.sessions| && SuiteOf(suite.id) == Ok(suite)
    requires RT.WroteEnvelope(p, w.sessions[k], e, suite.id, sk, pk, c)
    ensures RT.SenderMatches(Oracle(p, w), suite.id, sk, pk, pin) ==> R.CheckSender(Oracle(p, w), e, pin).Ok?
    ensures EmbeddedTrusted(Oracle(p, w), w, pk) && R.CheckSender(Oracle(p, w), e, pin).Ok? ==>
              RT.SenderMatches(Oracle(p, w), suite.id, sk, pk, pin)
  {
    var o := Oracle(p, w);
    var signed := R.SignHandshake(p, suite, PreAuth(w.sessions[k].t), sk, pk, c.sig).value;
    HandshakeVerifies(p, w, k, suite, sk, pk, c.sig);
    if RT.SenderMatches(o, suite.id, sk, pk, pin) { RT.SenderAccepted(p, o, suite, sk, pk, pin, c.sig, e); }
    if EmbeddedTrusted(o, w, pk) && R.CheckSender(o, e, pin).Ok? {
      if sk.Some? { OwnBlockExclusive(p, w, k, suite, sk.value, pk.value, c.sig, signed); }
      RT.SenderNecessary(p, o, suite, sk, pk, pin, c.sig, e);
    }
  }

  /** A failing sender: bundles as `generate_signing_keys` makes them, for a suite whose signature scheme
      is not the recipient suite's (suite 1 to suite 2, say).  If `encrypt` returns at all, `decrypt`
      raises on the signature, whatever pin and policy. */
  lemma OtherSchemeRejected(
    p: Prims, steps: seq<Step>, w: World, k: nat, m: bytes, id: byte, xPriv: bytes, seed: bytes, sid: byte,
    secret: bytes,
    spub: K.Bundle, spriv: K.Bundle, psk: Option<bytes>, c: R.Coins, pin: Option<bytes>, policy: Option<string>)
    requires Lengths(p) && KeysAgree(p) && Run(p, steps) == Some(w) && k < |w.sessions|
    requires K.RecipientKeys(p, id, xPriv, seed).Ok? && K.SigningKeys(p, sid, secret) == Ok((spub, spriv))
    requires SuiteOf(sid).Ok? && SuiteOf(sid).value.sig != SuiteOf(id).value.sig
    requires var (pub, priv) := K.RecipientKeys(p, id, xPriv, seed).value;
             && K.Printable(pub) && K.Printable(priv) && K.Printable(spub) && K.Printable(spriv)
             && R.Encrypt(p, m, K.Print(pub), Some(K.Print(spriv)), Some(K.Print(spub)), psk, c) == Ok(w.sessions[k])
    requires spub.parts != [] && HandshakesOnly(w, spub.parts[0])
    ensures var priv := K.RecipientKeys(p, id, xPriv, seed).value.1;
            Sound(w.sessions[k])
            && R.Decrypt(Oracle(p, w), Output(w.sessions[k]), K.Print(priv), pin, psk, policy) == Err(BadSignature)
  {
    RunKeeps(p, steps);
    var o, suite := Oracle(p, w), SuiteOf(id).value;
    var sk, pk := K.Print(spriv), K.Print(spub);
    GeneratedSigner(p, w, sid, secret, spub, spriv);
    var e := RT.OwnEnvelopePlan(p, o, m, id, xPriv, seed, Some(sk), Some(pk), psk, c, pin, policy);
    OtherSchemeSender(p, w, k, suite, sk, pk, spub, spriv, pin, c, e);
  }

  lemma GeneratedSigner(p: Prims, w: World, sid: byte, secret: bytes, spub: K.Bundle, spriv: K.Bundle)
    requires K.SigningKeys(p, sid, secret) == Ok((spub, spriv)) && K.Printable(spub) && K.Printable(spriv)
    ensures var o := Oracle(p, w);
            && RT.SameKeys(p, o) && spub.kid == spriv.kid && spub.suite == sid
            && R.ParseParts(o, K.Print(spub), K.ROLE_SIG_PUB, 1) == Ok(spub)
            && R.ParseParts(o, K.Print(spriv), K.ROLE_SIG_PRIV, 1) == Ok(spriv)
  {
    K.ParseComplete(Oracle(p, w), spub);
    K.ParseComplete(Oracle(p, w), spriv);
  }

  lemma OtherSchemeSender(p: Prims, w: World, k: nat, suite: Suite, sk: bytes, pk: bytes, spub: K.Bundle,
                          spriv: K.Bundle,
                          pin: Option<bytes>, c: R.Coins, e: E.Envelope)
    requires Inv(w) && k < |w.sessions| && RT.SameKeys(p, Oracle(p, w))
    requires R.ParseParts(Oracle(p, w), pk, K.ROLE_SIG_PUB, 1) == Ok(spub)
    requires R.ParseParts(Oracle(p, w), sk, K.ROLE_SIG_PRIV, 1) == Ok(spriv)
    requires spub.kid == spriv.kid && HandshakesOnly(w, spub.parts[0])
    requires SuiteOf(spub.suite).Ok? && SuiteOf(spub.suite).value.sig != suite.sig && SuiteOf(suite.id) == Ok(suite)
    requires RT.WroteEnvelope(p, w.sessions[k], e, suite.id, Some(sk), Some(pk), c)
    ensures R.CheckSender(Oracle(p, w), e, pin) == Err(BadSignature)
  {
    RT.OwnBlock(p, Oracle(p, w), suite, sk, Some(pk), c.sig, PreAuth(w.sessions[k].t));
    OnlyItsSigner(w, k, SuiteOf(spub.suite).value.sig, spub.parts[0]);
    FalseSignature(Oracle(p, w), e, spub, E.ParseBlock(e.block).value, pin);
  }

  /** An embedded bundle that does not verify is a bad signature. */
  lemma FalseSignature(o: Prims, e: E.Envelope, b: K.Bundle, blk: E.SenderBlock, pin: Option<bytes>)
    requires Authenticated(e.flags) && E.ParseBlock(e.block) == Ok(blk) && blk.kid == b.kid
    requires R.ParseParts(o, blk.pub, K.ROLE_SIG_PUB, 1) == Ok(b) && SuiteOf(b.suite).Ok?
    requires o.verify(SuiteOf(b.suite).value.sig, b.parts[0], PreAuth(e.Transcript()) + b.kid, blk.signature,
        R.AuthCtx()) == Ok(false)
    ensures R.CheckSender(o, e, pin) == Err(BadSignature)
  {}
}
