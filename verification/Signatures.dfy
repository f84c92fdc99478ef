/** When detached signatures are true.  In a run, `verify` answers true for an unexposed key exactly on what
    that key signed, under the context it signed it; outside one, where a signature binds its message and
    context, exactly on those.  Both are lifted to the dual and triple containers. */
module Signatures {
  import opened Bytes
  import opened Framing
  import opened Primitives
  import opened Combiner
  import opened Sessions
  import opened World
  import opened Runs
  import H = HighAssurance
  import K = KeyBundle
  import L = Liveness
  import N = Negatives
  import R = Shield
  import RT = ShieldTheorems

  // ---------------------------------------------------------------- inside a run

  /** The step has this key's owner sign this message under this context. */
  ghost predicate SignsDocument(p: Prims, a: Step, c: SigCall) {
    && a.SignDocument? && a.msg == c.msg && a.ctx == c.ctx && R.Sign(p, a.priv, a.msg, a.ctx, a.sigCoins).Ok?
    && c == DocumentCall(p, a)
  }

  function DocumentCall(p: Prims, a: Step): SigCall
    requires a.SignDocument? && R.Sign(p, a.priv, a.msg, a.ctx, a.sigCoins).Ok?
  {
    var b := R.ParseParts(p, a.priv, K.ROLE_SIG_PRIV, 1).value;
    var alg := SuiteOf(b.suite).value.sig;
    SigCall(alg, p.sigPublic(alg, b.parts[0]), a.msg, a.ctx)
  }

  /** Some step of the run was that signing. */
  ghost predicate SignedInRun(p: Prims, steps: seq<Step>, c: SigCall) {
    exists i :: 0 <= i < |steps| && SignsDocument(p, steps[i], c)
  }

  lemma NextDocuments(p: Prims, w: World, a: Step, w': World, c: SigCall)
    requires Next(p, w, a) == Some(w')
    ensures c in w'.documents <==> c in w.documents || SignsDocument(p, a, c)
  {}

  /** What each step adds to or leaves alone holds at the end of a run exactly when some step added it. */
  lemma {:induction false} RecordedByStep<W(!new), A(!new)>(
    run: seq<A> -> Option<W>, next: (W, A) -> Option<W>, recorded: W -> bool, records: A -> bool, steps: seq<A>)
    requires L.Folds(run, next) && run([]).Some? && !recorded(run([]).value)
    requires forall w, a :: next(w, a).Some? ==> (recorded(next(w, a).value) <==> recorded(w) || records(a))
    requires run(steps).Some?
    ensures recorded(run(steps).value) <==> exists i :: 0 <= i < |steps| && records(steps[i])
    decreases |steps|
  {
    if steps != [] {
      var before, a := steps[..|steps| - 1], steps[|steps| - 1];
      assert steps == before + [a];
      RecordedByStep(run, next, recorded, records, before);
      assert run(steps) == next(run(before).value, a);
      assert forall i :: 0 <= i < |before| ==> before[i] == steps[i];
    }
  }

  /** The ledger of documents is the list of signing steps. */
  lemma DocumentsAreSteps(p: Prims, steps: seq<Step>, w: World, c: SigCall)
    requires Run(p, steps) == Some(w)
    ensures c in w.documents <==> SignedInRun(p, steps, c)
  {
    L.RunFolds(p);
    var recorded: World -> bool, records := (v: World) => c in v.documents, Recorder(p, c);
    forall v, a | L.NextOf(p)(v, a).Some?
      ensures recorded(L.NextOf(p)(v, a).value) <==> recorded(v) || records(a)
    {
      NextDocuments(p, v, a, L.NextOf(p)(v, a).value, c);
    }
    RecordedByStep(L.RunOf(p), L.NextOf(p), recorded, records, steps);
  }

  ghost function Recorder(p: Prims, c: SigCall): Step -> bool {
    (a: Step) => SignsDocument(p, a, c)
  }

  /** Some authenticated `encrypt` of the run signed this message with this key. */
  ghost predicate HandshakeText(w: World, c: SigCall) {
    c.ctx == R.AuthCtx() && exists k: nat :: k < |w.sessions| && SignedText(w.sessions[k], c)
  }

  predicate SignedText(s: Session, c: SigCall) {
    s.signer == Some(Signer(c.alg, c.pk)) && c.msg == PreAuth(s.t) + s.senderKid
  }

  lemma HandshakeTextIff(w: World, c: SigCall)
    ensures HandshakeSigned(w, c) <==> HandshakeText(w, c)
  {
    if HandshakeSigned(w, c) {
      var k: nat :| k < |w.sessions| && w.sessions[k].signer.Some? && c == HandshakeSig(w.sessions[k]);
      assert SignedText(w.sessions[k], c);
    }
    if HandshakeText(w, c) {
      var k: nat :| k < |w.sessions| && SignedText(w.sessions[k], c);
      assert c == HandshakeSig(w.sessions[k]);
    }
  }

  /** Unforgeability as `verify` reports it.  In every run, for a bundle whose key was not exposed, `verify`
      is true of a message and context exactly when a step of the run signed that very message under that
      very context with that key, or, under the handshake context, an `encrypt` signed it as its
      transcript. */
  lemma VerifiedWasSigned(p: Prims, steps: seq<Step>, w: World, pub: bytes, b: K.Bundle, m: bytes, sig: bytes,
                          ctx: bytes)
    requires Lengths(p) && Run(p, steps) == Some(w)
    requires R.ParseParts(p, pub, K.ROLE_SIG_PUB, 1) == Ok(b) && SuiteOf(b.suite).Ok?
    requires b.parts[0] !in w.exposedSigners
    ensures var c := SigCall(SuiteOf(b.suite).value.sig, b.parts[0], m, ctx);
            R.Verify(Oracle(p, w), pub, m, sig, ctx) <==> SignedInRun(p, steps, c) || HandshakeText(w, c)
  {
    RunKeeps(p, steps);
    var c := SigCall(SuiteOf(b.suite).value.sig, b.parts[0], m, ctx);
    assert c !in w.advSigs;
    DocumentsAreSteps(p, steps, w, c);
    HandshakeTextIff(w, c);
    VerifyIsLedger(p, w, pub, b, m, sig, ctx);
  }

  /** What a generated key signs in a run, the run goes on to verify. */
  lemma SignedThenVerified(p: Prims, steps: seq<Step>, w: World, id: byte, sk: bytes, pub: K.Bundle, priv: K.Bundle,
                           m: bytes, ctx: bytes, coins: bytes, sig: bytes)
    returns (step: Step, w': World)
    requires Run(p, steps) == Some(w) && K.SigningKeys(p, id, sk) == Ok((pub, priv))
    requires K.Printable(pub) && K.Printable(priv) && R.Sign(p, K.Print(priv), m, ctx, coins).Ok?
    ensures Run(p, steps + [step]) == Some(w') && w' == w.(documents := w'.documents)
    ensures R.Verify(Oracle(p, w'), K.Print(pub), m, sig, ctx)
  {
    K.ParseComplete(p, pub);
    K.ParseComplete(p, priv);
    step := SignDocument(K.Print(priv), m, ctx, coins);
    w' := DocumentStep(p, steps, w, step);
    assert DocumentCall(p, step) == SigCall(SuiteOf(id).value.sig, pub.parts[0], m, ctx);
    VerifyIsLedger(p, w', K.Print(pub), pub, m, sig, ctx);
  }

  lemma DocumentStep(p: Prims, steps: seq<Step>, w: World, a: Step) returns (w': World)
    requires Run(p, steps) == Some(w) && a.SignDocument? && R.Sign(p, a.priv, a.msg, a.ctx, a.sigCoins).Ok?
    ensures Run(p, steps + [a]) == Some(w') && w' == w.(documents := w.documents + {DocumentCall(p, a)})
  {
    w' := w.(documents := w.documents + {DocumentCall(p, a)});
    L.RunLast(p, steps + [a], steps, a);
  }

  /** The exposure condition is needed: a run in which the key may be exposed continues, nothing else
      changed, to a world in which `verify` is true of any message the adversary likes. */
  lemma ExposureForges(p: Prims, steps: seq<Step>, w: World, pub: bytes, b: K.Bundle, m: bytes, sig: bytes, ctx: bytes)
    returns (ext: seq<Step>, end: World)
    requires Run(p, steps) == Some(w)
    requires R.ParseParts(p, pub, K.ROLE_SIG_PUB, 1) == Ok(b) && SuiteOf(b.suite).Ok?
    ensures Run(p, steps + ext) == Some(end) && R.Verify(Oracle(p, end), pub, m, sig, ctx)
    ensures end == w.(exposedSigners := w.exposedSigners + {b.parts[0]}, advSigs := end.advSigs)
  {
    var c := SigCall(SuiteOf(b.suite).value.sig, b.parts[0], m, ctx);
    ext, end := ForgeSteps(p, steps, w, c);
    VerifyIsLedger(p, end, pub, b, m, sig, ctx);
  }

  lemma ForgeSteps(p: Prims, steps: seq<Step>, w: World, c: SigCall) returns (ext: seq<Step>, end: World)
    requires Run(p, steps) == Some(w)
    ensures Run(p, steps + ext) == Some(end)
    ensures end == w.(exposedSigners := w.exposedSigners + {c.pk}, advSigs := w.advSigs + {c})
  {
    var held := w.(exposedSigners := w.exposedSigners + {c.pk});
    end := held.(advSigs := w.advSigs + {c});
    ext := [ExposeSigner(c.pk), SignAs(c)];
    L.RunFolds(p);
    L.PathRuns(L.RunOf(p), L.NextOf(p), steps, [w, held, end], ext);
  }

  lemma VerifyIsLedger(p: Prims, w: World, pub: bytes, b: K.Bundle, m: bytes, sig: bytes, ctx: bytes)
    requires R.ParseParts(p, pub, K.ROLE_SIG_PUB, 1) == Ok(b) && SuiteOf(b.suite).Ok?
    ensures R.Verify(Oracle(p, w), pub, m, sig, ctx)
       <==> Signed(w, SigCall(SuiteOf(b.suite).value.sig, b.parts[0], m, ctx))
  {
    RT.SameParts(p, Oracle(p, w), pub, K.ROLE_SIG_PUB, 1);
  }

  /** A dual or triple signature that verifies, in a run, on an ML-DSA key that was not exposed: that key
      signed this very message as a document.  No handshake, and no signature under another context, passes
      for the ML-DSA leg. */
  lemma DualWasSigned(p: Prims, steps: seq<Step>, w: World, v: H.Diversified, mlPub: bytes, b: K.Bundle, haPub: bytes,
                      m: bytes, blob: bytes)
    requires Lengths(p) && Run(p, steps) == Some(w)
    requires R.ParseParts(p, mlPub, K.ROLE_SIG_PUB, 1) == Ok(b) && SuiteOf(b.suite).Ok?
    requires b.parts[0] !in w.exposedSigners && H.DualValid(Oracle(p, w), v, mlPub, haPub, m, blob)
    ensures SignedInRun(p, steps, SigCall(SuiteOf(b.suite).value.sig, b.parts[0], m, H.SigCtx()))
  {
    var ml, ha :| AllBlobs([ml, ha]) && blob == H.Container(H.DUAL_MAGIC, [ml, ha])
      && R.Verify(Oracle(p, w), mlPub, m, ml, H.SigCtx()) && H.HaVerify(v, haPub, m, ha, H.HaCtx());
    H.ContextsSeparate();
    VerifiedWasSigned(p, steps, w, mlPub, b, m, ml, H.SigCtx());
  }

  lemma TripleWasSigned(p: Prims, steps: seq<Step>, w: World, v: H.Diversified, mlPub: bytes, b: K.Bundle,
                        haPub: bytes, ecPub: bytes, m: bytes, blob: bytes)
    requires Lengths(p) && Run(p, steps) == Some(w)
    requires R.ParseParts(p, mlPub, K.ROLE_SIG_PUB, 1) == Ok(b) && SuiteOf(b.suite).Ok?
    requires b.parts[0] !in w.exposedSigners && H.TripleValid(Oracle(p, w), v, mlPub, haPub, ecPub, m, blob)
    ensures SignedInRun(p, steps, SigCall(SuiteOf(b.suite).value.sig, b.parts[0], m, H.SigCtx()))
  {
    var ml, ha, ec :| AllBlobs([ml, ha, ec]) && blob == H.Container(H.TRIPLE_MAGIC, [ml, ha, ec])
      && R.Verify(Oracle(p, w), mlPub, m, ml, H.SigCtx()) && H.HaVerify(v, haPub, m, ha, H.HaCtx())
      && H.EcVerify(v, ecPub, m, ec, H.HaCtx());
    H.ContextsSeparate();
    VerifiedWasSigned(p, steps, w, mlPub, b, m, ml, H.SigCtx());
  }

  // ---------------------------------------------------------------- where signatures bind

  /** A signature verifies under no other context. */
  ghost predicate ContextsBind(p: Prims) {
    forall alg, sk, msg, ctx, coins, alg', pk', msg', ctx' :: p.sign(alg, sk, msg, ctx, coins).Ok? && ctx' != ctx ==>
      p.verify(alg', pk', msg', p.sign(alg, sk, msg, ctx, coins).value, ctx') != Ok(true)
  }

  /** What `sign` made of a message and context, `verify` accepts, under whatever bundle, for no other
      message and no other context. */
  lemma SignatureBinds(p: Prims, priv: bytes, m: bytes, ctx: bytes, coins: bytes, pub: bytes, m': bytes, ctx': bytes)
    requires N.SignaturesBind(p) && ContextsBind(p) && R.Sign(p, priv, m, ctx, coins).Ok?
    requires R.Verify(p, pub, m', R.Sign(p, priv, m, ctx, coins).value, ctx')
    ensures m' == m && ctx' == ctx
  {
    var b := R.ParseParts(p, priv, K.ROLE_SIG_PRIV, 1).value;
    var alg := SuiteOf(b.suite).value.sig;
    assert R.Sign(p, priv, m, ctx, coins) == p.sign(alg, b.parts[0], m, ctx, coins);
  }

  /** A generated key's signature is true of exactly one message under exactly one context, its own. */
  lemma DetachedExact(p: Prims, id: byte, sk: bytes, m: bytes, ctx: bytes, coins: bytes, m': bytes, ctx': bytes)
    requires SignaturesVerify(p) && N.SignaturesBind(p) && ContextsBind(p) && K.SigningKeys(p, id, sk).Ok?
    requires var (pub, priv) := K.SigningKeys(p, id, sk).value; K.Printable(pub) && K.Printable(priv)
    ensures var (pub, priv) := K.SigningKeys(p, id, sk).value;
            var s := R.Sign(p, K.Print(priv), m, ctx, coins);
            s.Ok? ==> (R.Verify(p, K.Print(pub), m', s.value, ctx') <==> m' == m && ctx' == ctx)
  {
    var (pub, priv) := K.SigningKeys(p, id, sk).value;
    H.MlRoundTrip(p, id, sk, m, ctx, coins);
    var s := R.Sign(p, K.Print(priv), m, ctx, coins);
    if s.Ok? && R.Verify(p, K.Print(pub), m', s.value, ctx') {
      SignatureBinds(p, K.Print(priv), m, ctx, coins, K.Print(pub), m', ctx');
    }
  }

  /** An SLH-DSA signature verifies for no other message. */
  ghost predicate SlhBinds(v: H.Diversified) {
    forall id, sk, m, id', pk', m' :: v.slhSign(id, sk, m).Ok? && m' != m ==>
      v.slhVerify(id', pk', m', v.slhSign(id, sk, m).value) != Ok(true)
  }

  /** Nor does an EdDSA signature. */
  ghost predicate EdBinds(v: H.Diversified) {
    forall id, sk, m, id', pk', m' :: v.edSign(id, sk, m).Ok? && m' != m ==>
      v.edVerify(id', pk', m', v.edSign(id, sk, m).value) != Ok(true)
  }

  /** The same for the framed legs: since framing is injective, binding the framed bytes binds message and
      context. */
  lemma HaExact(v: H.Diversified, id: byte, secret: bytes, m: bytes, ctx: bytes, m': bytes, ctx': bytes)
    requires H.DiversifiedVerify(v) && SlhBinds(v)
    ensures var (pub, priv) := H.HaKeys(v, id, secret);
            var s := H.HaSign(v, priv, m, ctx);
            s.Ok? ==> (H.HaVerify(v, pub, m', s.value, ctx') <==> m' == m && ctx' == ctx)
  {
    var (pub, priv) := H.HaKeys(v, id, secret);
    var s := H.HaSign(v, priv, m, ctx);
    H.HaRoundTrip(v, id, secret, m, ctx);
    if s.Ok? && H.HaVerify(v, pub, m', s.value, ctx') {
      H.HaSignIsPrimitive(v, id, secret, m, ctx);
      assert H.FramedMessage(ctx', m') == H.FramedMessage(ctx, m);
      H.FramedInjective(ctx, m, ctx', m');
    }
  }

  lemma EcExact(v: H.Diversified, id: byte, secret: bytes, m: bytes, ctx: bytes, m': bytes, ctx': bytes)
    requires H.DiversifiedVerify(v) && EdBinds(v)
    ensures var (pub, priv) := H.EcKeys(v, id, secret);
            var s := H.EcSign(v, priv, m, ctx);
            s.Ok? ==> (H.EcVerify(v, pub, m', s.value, ctx') <==> m' == m && ctx' == ctx)
  {
    var (pub, priv) := H.EcKeys(v, id, secret);
    var s := H.EcSign(v, priv, m, ctx);
    H.EcRoundTrip(v, id, secret, m, ctx);
    if s.Ok? && H.EcVerify(v, pub, m', s.value, ctx') {
      H.EcSignIsPrimitive(v, id, secret, m, ctx);
      assert H.FramedMessage(ctx', m') == H.FramedMessage(ctx, m);
      H.FramedInjective(ctx, m, ctx', m');
    }
  }

  /** One leg that binds is enough for the container: what `dual_sign` returned with generated keys verifies
      for its own message and no other, whether it is ML-DSA or SLH-DSA that still binds. */
  lemma DualExact(p: Prims, v: H.Diversified, id: byte, sk: bytes, haId: byte, haSecret: bytes, m: bytes, coins: bytes,
                  m': bytes)
    requires SignaturesVerify(p) && H.DiversifiedVerify(v) && (N.SignaturesBind(p) || SlhBinds(v))
    requires K.SigningKeys(p, id, sk).Ok?
    requires var (pub, priv) := K.SigningKeys(p, id, sk).value; K.Printable(pub) && K.Printable(priv)
    ensures var ((pub, priv), (haPub, haPriv)) := (K.SigningKeys(p, id, sk).value, H.HaKeys(v, haId, haSecret));
            var d := H.DualSign(p, v, K.Print(priv), haPriv, m, coins);
            d.Ok? ==> (H.DualValid(p, v, K.Print(pub), haPub, m', d.value) <==> m' == m)
  {
    var ((pub, priv), (haPub, haPriv)) := (K.SigningKeys(p, id, sk).value, H.HaKeys(v, haId, haSecret));
    var d := H.DualSign(p, v, K.Print(priv), haPriv, m, coins);
    H.DualRoundTrip(p, v, id, sk, haId, haSecret, m, coins);
    if d.Ok? && H.DualValid(p, v, K.Print(pub), haPub, m', d.value) {
      var ml, ha :| AllBlobs([ml, ha]) && d.value == H.Container(H.DUAL_MAGIC, [ml, ha])
        && R.Verify(p, K.Print(pub), m', ml, H.SigCtx()) && H.HaVerify(v, haPub, m', ha, H.HaCtx());
      var ml0, ha0 := R.Sign(p, K.Print(priv), m, H.SigCtx(), coins).value, H.HaSign(v, haPriv, m, H.HaCtx()).value;
      var legs, legs0 := [ml, ha], [ml0, ha0];
      H.ContainerUnique(H.DUAL_MAGIC, H.DUAL_MAGIC, legs, legs0);
      assert legs[0] == legs0[0] && legs[1] == legs0[1];
      if SlhBinds(v) {
        HaExact(v, haId, haSecret, m, H.HaCtx(), m', H.HaCtx());
      } else {
        MlMessageBinds(p, K.Print(priv), K.Print(pub), m, coins, m');
      }
    }
  }

  lemma MlMessageBinds(p: Prims, priv: bytes, pub: bytes, m: bytes, coins: bytes, m': bytes)
    requires N.SignaturesBind(p) && R.Sign(p, priv, m, H.SigCtx(), coins).Ok?
    requires R.Verify(p, pub, m', R.Sign(p, priv, m, H.SigCtx(), coins).value, H.SigCtx())
    ensures m' == m
  {
    var b := R.ParseParts(p, priv, K.ROLE_SIG_PRIV, 1).value;
    assert R.Sign(p, priv, m, H.SigCtx(), coins)
        == p.sign(SuiteOf(b.suite).value.sig, b.parts[0], m, H.SigCtx(), coins);
  }

  /** And for `triple_sign`: any one of the three legs is enough. */
  lemma TripleExact(p: Prims, v: H.Diversified, id: byte, sk: bytes, haId: byte, haSecret: bytes, ecId: byte,
                    ecSecret: bytes, m: bytes, coins: bytes, m': bytes)
    requires SignaturesVerify(p) && H.DiversifiedVerify(v) && (N.SignaturesBind(p) || SlhBinds(v) || EdBinds(v))
    requires K.SigningKeys(p, id, sk).Ok?
    requires var (pub, priv) := K.SigningKeys(p, id, sk).value; K.Printable(pub) && K.Printable(priv)
    ensures var (pub, priv) := K.SigningKeys(p, id, sk).value;
            var ((haPub, haPriv), (ecPub, ecPriv)) := (H.HaKeys(v, haId, haSecret), H.EcKeys(v, ecId, ecSecret));
            var t := H.TripleSign(p, v, K.Print(priv), haPriv, ecPriv, m, coins);
            t.Ok? ==> (H.TripleValid(p, v, K.Print(pub), haPub, ecPub, m', t.value) <==> m' == m)
  {
    var (pub, priv) := K.SigningKeys(p, id, sk).value;
    var ((haPub, haPriv), (ecPub, ecPriv)) := (H.HaKeys(v, haId, haSecret), H.EcKeys(v, ecId, ecSecret));
    var t := H.TripleSign(p, v, K.Print(priv), haPriv, ecPriv, m, coins);
    H.TripleRoundTrip(p, v, id, sk, haId, haSecret, ecId, ecSecret, m, coins);
    if t.Ok? && H.TripleValid(p, v, K.Print(pub), haPub, ecPub, m', t.value) {
      var ml, ha, ec :| AllBlobs([ml, ha, ec]) && t.value == H.Container(H.TRIPLE_MAGIC, [ml, ha, ec])
        && R.Verify(p, K.Print(pub), m', ml, H.SigCtx()) && H.HaVerify(v, haPub, m', ha, H.HaCtx())
        && H.EcVerify(v, ecPub, m', ec, H.HaCtx());
      var ml0, ha0 := R.Sign(p, K.Print(priv), m, H.SigCtx(), coins).value, H.HaSign(v, haPriv, m, H.HaCtx()).value;
      var legs0 := [ml0, ha0, H.EcSign(v, ecPriv, m, H.HaCtx()).value];
      var legs := [ml, ha, ec];
      H.ContainerUnique(H.TRIPLE_MAGIC, H.TRIPLE_MAGIC, legs, legs0);
      assert legs[0] == legs0[0] && legs[1] == legs0[1] && legs[2] == legs0[2];
      if EdBinds(v) {
        EcExact(v, ecId, ecSecret, m, H.HaCtx(), m', H.HaCtx());
      } else if SlhBinds(v) {
        HaExact(v, haId, haSecret, m, H.HaCtx(), m', H.HaCtx());
      } else {
        MlMessageBinds(p, K.Print(priv), K.Print(pub), m, coins, m');
      }
    }
  }
}
