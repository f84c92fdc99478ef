/** What runs can do, beside what they cannot: honest streams open, and hybrid secrecy is tight, for an
    adversary that may learn every leg of a key reads what was sealed under it. */
module Liveness {
  import opened Bytes
  import opened Framing
  import opened Primitives
  import opened Combiner
  import opened Sessions
  import opened World
  import opened Runs
  import E = Envelope
  import K = KeyBundle
  import R = Shield
  import RT = ShieldTheorems
  import S = Stream
  import ST = StreamTheorems
  import T = RunTheorems

  // ---------------------------------------------------------------- streams

  /** Chunk `j` of an honest stream opens to its plaintext while the adversary lacks the key. */
  lemma OwnChunkOpens(p: Prims, w: World, k: nat, h: S.Head, j: nat)
    requires Inv(w) && k < |w.sessions| && w.sessions[k].stream && w.sessions[k].key !in w.advKeys
    requires var s := w.sessions[k];
             h.t == s.t && h.Printable() && AllShort(h.Fields()) && s.header == S.PrintHead(h) && SuiteOf(h.t.suite).Ok?
    requires WellMade(w.sessions[k]) && j < |w.sessions[k].sealed|
    ensures var s := w.sessions[k]; ST.OpenedAt(Oracle(p, w), s.key, s.t.nonce, s.header, s.sealed, s.plain, j)
  {
    var s := w.sessions[k];
    var ctr := Ctr(j, j == |s.sealed| - 1);
    var call := CallOf(s, j);
    assert MadeCall(s, call) && Sealed(w, call);
    var r := LedgerOpen(w, s.key, s.t.nonce + ctr, s.sealed[j], s.header + ctr);
    var found := SealCall(s.key, s.t.nonce + ctr, s.header + ctr, r.value, s.sealed[j]);
    var k' := EntryIsChunk(w, found, h, j, j == |s.sealed| - 1);
    OneSession(w, k, k');
  }

  /** The stream round trip inside a run: while the adversary lacks its key, an honest stream opens to
      its plaintext. */
  lemma HonestStreamsOpen(
    p: Prims, steps: seq<Step>, w: World, k: nat, m: bytes, id: byte, xPriv: bytes, seed: bytes, chunkSize: int,
    c: R.Coins)
    requires Lengths(p) && KeysAgree(p) && Run(p, steps) == Some(w) && k < |w.sessions|
    requires K.RecipientKeys(p, id, xPriv, seed).Ok?
    requires var (pub, priv) := K.RecipientKeys(p, id, xPriv, seed).value;
             K.Printable(pub) && K.Printable(priv)
                 && S.SealStream(p, m, K.Print(pub), chunkSize, c) == Ok(w.sessions[k])
    requires w.sessions[k].key !in w.advKeys
    ensures Sound(w.sessions[k])
    ensures var priv := K.RecipientKeys(p, id, xPriv, seed).value.1;
            S.OpenStream(Oracle(p, w), Output(w.sessions[k]), K.Print(priv)) == Ok(m)
  {
    RunKeeps(p, steps);
    var o, s := Oracle(p, w), w.sessions[k];
    assert WellMade(s);
    var h := ST.OwnStreamPlan(p, o, m, id, xPriv, seed, chunkSize, c);
    forall j: nat | j < |s.sealed| ensures ST.OpenedAt(o, s.key, s.t.nonce, s.header, s.sealed, s.plain, j) {
      OwnChunkOpens(p, w, k, h, j);
    }
    ST.OpenBlobsForward(o, s.key, s.t.nonce, s.header, s.sealed, s.plain, 0);
    assert s.plain[0..] == s.plain;
    ST.ChunksConcat(m, chunkSize);
  }

  /** One secret the adversary lacks is enough: a stream accepted under a key that mixes it is, byte for
      byte, an honest stream sealed with the same secrets. */
  lemma StreamWithUnknownLeg(p: Prims, steps: seq<Step>, w: World, x: bytes, priv: bytes, plan: S.StreamPlan)
    returns (k: nat)
    requires Lengths(p) && Run(p, steps) == Some(w)
    requires S.OpenStream(Oracle(p, w), x, priv).Ok? && S.PlanStream(Oracle(p, w), x, priv) == Ok(plan)
    requires plan.secrets.ssc !in w.known || plan.secrets.sspq !in w.known
    ensures k < |w.sessions| && Sound(w.sessions[k])
    ensures var s := w.sessions[k];
            && s.stream && x == Output(s) && S.OpenStream(Oracle(p, w), x, priv) == Ok(Concat(s.plain))
            && s.ssc == plan.secrets.ssc && s.sspq == plan.secrets.sspq
  {
    RunKeeps(p, steps);
    StreamLegs(Oracle(p, w), plan.head.t, priv);
    var legs := Legs(plan.secrets.ssc, plan.secrets.sspq, []);
    assert legs[0] == plan.secrets.ssc && legs[1] == plan.secrets.sspq;
    assert plan.secrets.key !in w.advKeys by {
      T.EarnedLegs(w, plan.secrets.key, legs, 0);
      T.EarnedLegs(w, plan.secrets.key, legs, 1);
    }
    k := StreamIntegrity(p, w, x, priv);
    var s := w.sessions[k];
    assert WellMade(s);
    SameStreamKey(p, w, k, x, priv, plan);
    FlatTlvInjective(legs, Legs(s.ssc, s.sspq, s.ppk));
    LegsInjective(plan.secrets.ssc, plan.secrets.sspq, [], s.ssc, s.sspq, s.ppk);
  }

  lemma StreamLegs(o: Prims, t: Transcript, priv: bytes)
    requires SuiteOf(t.suite).Ok? && S.StreamKey(o, t, priv).Ok?
    ensures var k := S.StreamKey(o, t, priv).value; RT.UsesLegs(k.key, Legs(k.ssc, k.sspq, []))
  {}

  /** The key that opened an honest stream is the key that sealed it. */
  lemma SameStreamKey(p: Prims, w: World, k: nat, x: bytes, priv: bytes, plan: S.StreamPlan)
    requires Inv(w) && k < |w.sessions| && w.sessions[k].stream && Sound(w.sessions[k]) && x == Output(w.sessions[k])
    requires S.PlanStream(Oracle(p, w), x, priv) == Ok(plan) && plan.secrets.key !in w.advKeys
    requires S.OpenStream(Oracle(p, w), x, priv).Ok?
    ensures plan.secrets.key == w.sessions[k].key
  {
    var o, h, key := Oracle(p, w), plan.head, plan.secrets.key;
    S.ParseHeadIff(x, h, plan.rest);
    var blobs := TakeBlobs(plan.rest).value;
    var pts := ST.OpenBlobsInverts(o, key, h.t.nonce, S.PrintHead(h), blobs, 0);
    assert ST.OpenedAt(o, key, h.t.nonce, S.PrintHead(h), blobs, pts, 0);
    var k' := FirstChunkKey(p, w, key, h, blobs, pts);
    assert WellMade(w.sessions[k]);
    var g: S.Head :| g.t == w.sessions[k].t && g.Printable() && AllShort(g.Fields())
        && w.sessions[k].header == S.PrintHead(g);
    S.ParseHeadIff(x, g, FlatBlobs(w.sessions[k].sealed));
    OneSession(w, k, k');
  }

  lemma FirstChunkKey(p: Prims, w: World, key: Key, h: S.Head, blobs: seq<bytes>, pts: seq<bytes>) returns (k: nat)
    requires Inv(w) && key !in w.advKeys && h.Printable() && AllShort(h.Fields()) && SuiteOf(h.t.suite).Ok?
    requires 0 < |blobs| == |pts| <= 0x1_0000_0000
    requires ST.OpenedAt(Oracle(p, w), key, h.t.nonce, S.PrintHead(h), blobs, pts, 0)
    ensures k < |w.sessions| && w.sessions[k].key == key && w.sessions[k].t == h.t
  {
    var ctr := Ctr(0, 0 == |blobs| - 1);
    var c := SealCall(key, h.t.nonce + ctr, S.PrintHead(h) + ctr, pts[0], blobs[0]);
    assert LedgerOpen(w, key, h.t.nonce + ctr, blobs[0], S.PrintHead(h) + ctr) == Ok(pts[0]);
    assert Sealed(w, c);
    k := EntryIsChunk(w, c, h, 0, 0 == |blobs| - 1);
  }

  /** A stream's own recipient reads it under a key that one unexposed leg keeps from the adversary. */
  lemma RecipientKeyGuarded(
    p: Prims, w: World, k: nat, m: bytes, id: byte, xPriv: bytes, seed: bytes, chunkSize: int, c: R.Coins)
    requires KeysAgree(p) && Inv(w) && k < |w.sessions| && K.RecipientKeys(p, id, xPriv, seed).Ok?
    requires var (pub, priv) := K.RecipientKeys(p, id, xPriv, seed).value;
             K.Printable(pub) && K.Printable(priv)
                 && S.SealStream(p, m, K.Print(pub), chunkSize, c) == Ok(w.sessions[k])
    requires var t := w.sessions[k].t; (t.suite != 3 && ClassicalOf(t.kid) !in w.exposed) || PqOf(t.kid) !in w.exposed
    ensures Sound(w.sessions[k]) && w.sessions[k].stream
    ensures var priv := K.Print(K.RecipientKeys(p, id, xPriv, seed).value.1);
            var plan := S.PlanStream(Oracle(p, w), Output(w.sessions[k]), priv);
            plan.Ok? && plan.value.secrets.key == w.sessions[k].key && w.sessions[k].key !in w.advKeys
  {
    var s := w.sessions[k];
    var h := ST.OwnStreamPlan(p, Oracle(p, w), m, id, xPriv, seed, chunkSize, c);
    if s.key in w.advKeys {
      T.KeyNeedsEveryLeg(w, k);
      assert Leg(s, PqOf(s.t.kid), s.sspq);
      assert s.t.suite != 3 ==> Leg(s, ClassicalOf(s.t.kid), s.ssc);
    }
  }

  // ---------------------------------------------------------------- secrecy is tight

  /** The adversary's guard on learning, in this world. */
  ghost predicate MayLearn(w: World, v: bytes) {
    forall j :: 0 <= j < |w.sessions| ==> Harmless(w, w.sessions[j], v)
  }

  /** The steps `ext`, with nothing newly exposed, disclose the call. */
  ghost predicate Discloses(p: Prims, steps: seq<Step>, ext: seq<Step>, w: World, c: SealCall) {
    var end := Run(p, steps + ext);
    end.Some? && end.value.exposed == w.exposed && c in end.value.disclosed
  }

  /** `run` takes the steps of a list one after the other, and stops for good at an impossible one. */
  ghost predicate Folds<W(!new), A(!new)>(run: seq<A> -> Option<W>, next: (W, A) -> Option<W>) {
    forall s, a :: run(s + [a]) == if run(s).None? then None else next(run(s).value, a)
  }

  /** Worlds linked step by step. */
  ghost predicate Path<W(!new), A(!new)>(next: (W, A) -> Option<W>, ws: seq<W>, ext: seq<A>) {
    |ws| == |ext| + 1 && forall i :: 0 <= i < |ext| ==> next(ws[i], ext[i]) == Some(ws[i + 1])
  }

  /** A path from where a run ends continues the run. */
  lemma {:induction false} PathRuns<W(!new), A(!new)>(
    run: seq<A> -> Option<W>, next: (W, A) -> Option<W>, steps: seq<A>, ws: seq<W>, ext: seq<A>)
    requires Folds(run, next) && Path(next, ws, ext) && run(steps) == Some(ws[0])
    ensures run(steps + ext) == Some(ws[|ext|])
    decreases |ext|
  {
    if ext == [] {
      assert steps + ext == steps;
    } else {
      var n := |ext| - 1;
      PathRuns(run, next, steps, ws[..n + 1], ext[..n]);
      assert steps + ext == (steps + ext[..n]) + [ext[n]];
    }
  }

  /** A list that every step only extends is only extended by a run. */
  lemma {:induction false} RunExtends<W(!new), A(!new), T(!new)>(
    run: seq<A> -> Option<W>, next: (W, A) -> Option<W>, list: W -> seq<T>, steps: seq<A>, ext: seq<A>)
    requires Folds(run, next) && forall w, a :: next(w, a).Some? ==> list(w) <= list(next(w, a).value)
    requires run(steps + ext).Some?
    ensures run(steps).Some? && list(run(steps).value) <= list(run(steps + ext).value)
    decreases |ext|
  {
    if ext == [] {
      assert steps + ext == steps;
    } else {
      var n := |ext| - 1;
      assert steps + ext == (steps + ext[..n]) + [ext[n]];
      RunExtends(run, next, list, steps, ext[..n]);
    }
  }

  ghost function RunOf(p: Prims): seq<Step> -> Option<World> {
    steps => Run(p, steps)
  }

  ghost function NextOf(p: Prims): (World, Step) -> Option<World> {
    (w, a) => Next(p, w, a)
  }

  lemma RunFolds(p: Prims)
    ensures Folds(RunOf(p), NextOf(p))
  {
    forall s: seq<Step>, a: Step
      ensures RunOf(p)(s + [a]) == if RunOf(p)(s).None? then None else NextOf(p)(RunOf(p)(s).value, a)
    {
      var all := s + [a];
      assert all[..|all| - 1] == s && all[|all| - 1] == a;
      RunLast(p, all, s, a);
    }
  }

  lemma RunLast(p: Prims, all: seq<Step>, init: seq<Step>, a: Step)
    requires all != [] && all[..|all| - 1] == init && all[|all| - 1] == a
    ensures Run(p, all) == if Run(p, init).None? then None else Next(p, Run(p, init).value, a)
  {}

  function Knowing(w: World, vs: set<bytes>): World {
    w.(known := w.known + vs)
  }

  lemma LearnOne(p: Prims, w: World, vs: set<bytes>, v: bytes)
    requires MayLearn(w, v)
    ensures Next(p, Knowing(w, vs), Learn(v)) == Some(Knowing(w, vs + {v}))
  {
    forall k | 0 <= k < |w.sessions| ensures Harmless(Knowing(w, vs), w.sessions[k], v) {
      assert Harmless(w, w.sessions[k], v);
    }
    assert w.known + vs + {v} == w.known + (vs + {v});
  }

  /** With the legs in hand: derive the key, read the call. */
  lemma DeriveAndRead(p: Prims, w: World, k: nat, i: nat, vs: set<bytes>) returns (held: World, end: World)
    requires k < |w.sessions| && WellMade(w.sessions[k]) && i < |w.sessions[k].sealed|
    requires var legs := Legs(w.sessions[k].ssc, w.sessions[k].sspq, w.sessions[k].ppk);
             forall l :: 0 <= l < |legs| ==> legs[l] in vs
    ensures var s, call := w.sessions[k], CallOf(w.sessions[k], i);
            && Next(p, Knowing(w, vs), Derive(s.key.hash, Legs(s.ssc, s.sspq, s.ppk), s.key.info)) == Some(held)
            && Next(p, held, Read(call)) == Some(end)
            && end.exposed == w.exposed && call in end.disclosed
  {
    var s, call, mid := w.sessions[k], CallOf(w.sessions[k], i), Knowing(w, vs);
    var legs := Legs(s.ssc, s.sspq, s.ppk);
    assert AllShort(legs) && s.key == Key(s.key.hash, FlatTlv(legs), s.key.info);
    held := mid.(advKeys := mid.advKeys + {s.key});
    assert MadeCall(held.sessions[k], call) && Sealed(held, call);
    end := held.(disclosed := held.disclosed + {call});
  }

  /** Learn the legs, derive the key, read the call. */
  lemma ReadsSession(p: Prims, w: World, k: nat, i: nat) returns (ws: seq<World>, ext: seq<Step>)
    requires k < |w.sessions| && WellMade(w.sessions[k]) && i < |w.sessions[k].sealed|
    requires var legs := Legs(w.sessions[k].ssc, w.sessions[k].sspq, w.sessions[k].ppk);
             forall l :: 0 <= l < |legs| ==> MayLearn(w, legs[l])
    ensures Path(NextOf(p), ws, ext) && ws[0] == w
    ensures ws[|ext|].exposed == w.exposed && CallOf(w.sessions[k], i) in ws[|ext|].disclosed
  {
    var s, call := w.sessions[k], CallOf(w.sessions[k], i);
    var legs := Legs(s.ssc, s.sspq, s.ppk);
    var derive, read := Derive(s.key.hash, legs, s.key.info), Read(call);
    var one, two := {legs[0]}, {legs[0]} + {legs[1]};
    assert Knowing(w, {}) == w && {} + {legs[0]} == one;
    LearnOne(p, w, {}, legs[0]);
    LearnOne(p, w, one, legs[1]);
    if |legs| == 2 {
      var held, end := DeriveAndRead(p, w, k, i, two);
      ws, ext := [w, Knowing(w, one), Knowing(w, two), held, end], [Learn(legs[0]), Learn(legs[1]), derive, read];
    } else {
      var three := two + {legs[2]};
      LearnOne(p, w, two, legs[2]);
      var held, end := DeriveAndRead(p, w, k, i, three);
      ws := [w, Knowing(w, one), Knowing(w, two), Knowing(w, three), held, end];
      ext := [Learn(legs[0]), Learn(legs[1]), Learn(legs[2]), derive, read];
    }
  }

  ghost function SessionsOf(): World -> seq<Session> {
    (w: World) => w.sessions
  }

  lemma StepAppends(p: Prims, w: World, a: Step)
    requires Next(p, w, a).Some?
    ensures w.sessions <= Next(p, w, a).value.sessions
  {}

  /** A run keeps the sessions it has. */
  lemma SessionsStay(p: Prims, steps: seq<Step>, ext: seq<Step>)
    requires Run(p, steps + ext).Some?
    ensures Run(p, steps).Some? && Run(p, steps).value.sessions <= Run(p, steps + ext).value.sessions
  {
    RunFolds(p);
    forall w, a | NextOf(p)(w, a).Some? ensures SessionsOf()(w) <= SessionsOf()(NextOf(p)(w, a).value) {
      StepAppends(p, w, a);
    }
    RunExtends(RunOf(p), NextOf(p), SessionsOf(), steps, ext);
  }

  /** What was disclosed had every leg of its key learnt, hence learnable, then. */
  lemma DisclosedIsLearnable(p: Prims, end: World, k: nat, i: nat, l: nat)
    requires Inv(end) && k < |end.sessions| && i < |end.sessions[k].sealed| && Sound(end.sessions[k])
    requires CallOf(end.sessions[k], i) in end.disclosed
    requires var s := end.sessions[k]; l < |Legs(s.ssc, s.sspq, s.ppk)|
    ensures var s := end.sessions[k]; MayLearn(end, Legs(s.ssc, s.sspq, s.ppk)[l])
  {
    var s := end.sessions[k];
    assert WellMade(s);
    var legs := Legs(s.ssc, s.sspq, s.ppk);
    assert RT.UsesLegs(s.key, legs);
    T.EarnedLegs(end, s.key, legs, l);
  }

  lemma LearnableBefore(w: World, end: World, v: bytes)
    requires w.sessions <= end.sessions && end.exposed == w.exposed && MayLearn(end, v)
    ensures MayLearn(w, v)
  {
    forall j | 0 <= j < |w.sessions| ensures Harmless(w, w.sessions[j], v) {
      assert Harmless(end, end.sessions[j], v);
    }
  }

  /** Hybrid secrecy is tight.  From any reachable world, with nothing newly exposed, some continuation
      of the run discloses a sealed plaintext exactly when the adversary may learn every leg mixed into
      its key. */
  lemma SecrecyIsTight(p: Prims, steps: seq<Step>, w: World, k: nat, i: nat)
    requires Lengths(p) && Run(p, steps) == Some(w) && k < |w.sessions| && Sound(w.sessions[k])
    requires i < |w.sessions[k].sealed|
    ensures var legs := Legs(w.sessions[k].ssc, w.sessions[k].sspq, w.sessions[k].ppk);
            (exists ext :: Discloses(p, steps, ext, w, CallOf(w.sessions[k], i))) <==>
              forall l :: 0 <= l < |legs| ==> MayLearn(w, legs[l])
  {
    RunKeeps(p, steps);
    var legs := Legs(w.sessions[k].ssc, w.sessions[k].sspq, w.sessions[k].ppk);
    if ext :| Discloses(p, steps, ext, w, CallOf(w.sessions[k], i)) {
      var end := Run(p, steps + ext).value;
      SessionsStay(p, steps, ext);
      RunKeeps(p, steps + ext);
      forall l: nat | l < |legs| ensures MayLearn(w, legs[l]) {
        DisclosedIsLearnable(p, end, k, i, l);
        LearnableBefore(w, end, legs[l]);
      }
    }
    if forall l :: 0 <= l < |legs| ==> MayLearn(w, legs[l]) {
      assert WellMade(w.sessions[k]);
      var ws, ext := ReadsSession(p, w, k, i);
      RunFolds(p);
      PathRuns(RunOf(p), NextOf(p), steps, ws, ext);
      assert Discloses(p, steps, ext, w, CallOf(w.sessions[k], i));
    }
  }

  // ---------------------------------------------------------------- the length condition is needed

  /** No leg is empty, so learning the pure-PQC suite's empty classical secret is never guarded. */
  lemma EmptyIsHarmless(w: World)
    requires Inv(w)
    ensures MayLearn(w, [])
  {
    forall j | 0 <= j < |w.sessions| ensures Harmless(w, w.sessions[j], []) {
      assert WellMade(w.sessions[j]);
      SuiteLengths(w.sessions[j].t.suite);
    }
  }

  /** Whether a sender matches does not depend on the ledgers. */
  lemma MatchesInEveryWorld(p: Prims, w: World, w': World, sk: Option<bytes>, pk: Option<bytes>, pin: Option<bytes>)
    requires RT.SenderMatches(Oracle(p, w), 3, sk, pk, pin)
    ensures RT.SenderMatches(Oracle(p, w'), 3, sk, pk, pin)
  {}

  /** The adversary derives a key from two secrets it may learn and seals one call under it. */
  lemma SealsUnder(p: Prims, steps: seq<Step>, w: World, secret: bytes, call: SealCall)
    returns (ext: seq<Step>, end: World)
    requires Run(p, steps) == Some(w) && MayLearn(w, []) && MayLearn(w, secret) && |secret| <= 0xFFFF
    requires call.key == Key(SHA384, FlatTlv([[], secret]), call.key.info)
    ensures Run(p, steps + ext) == Some(end) && call in end.advCalls
    ensures end == w.(known := end.known, advKeys := end.advKeys, advCalls := end.advCalls)
  {
    var one, two := {[]}, {[]} + {secret};
    assert Knowing(w, {}) == w && {} + {[]} == one;
    LearnOne(p, w, {}, []);
    LearnOne(p, w, one, secret);
    var known := Knowing(w, two);
    var held := known.(advKeys := known.advKeys + {call.key});
    var legs := [[], secret];
    assert Next(p, known, Derive(SHA384, legs, call.key.info)) == Some(held);
    end := held.(advCalls := held.advCalls + {call});
    assert Next(p, held, Forge(call)) == Some(end);
    var ws := [w, Knowing(w, one), known, held, end];
    ext := [Learn([]), Learn(secret), Derive(SHA384, legs, call.key.info), Forge(call)];
    RunFolds(p);
    PathRuns(RunOf(p), NextOf(p), steps, ws, ext);
  }

  /** The length condition of `SenderAgreement` is needed at reachable worlds.  From any run with a session
      that a matching sender sealed under the pure-PQC suite, and any envelope with the same signed bytes
      cut at other places whose own decapsulated secret the adversary may learn, the run continues, with
      nothing exposed, sealed or signed anew by honest parties, to a world in which `decrypt` returns on
      that envelope with the sender's pin, although no session has its transcript. */
  lemma PureSuiteReached(
    p: Prims, steps: seq<Step>, w: World, k: nat, m: bytes, xPriv: bytes, seed: bytes, sk: bytes, pk: bytes, c: R.Coins,
    pin: bytes, pub: K.Bundle, priv: K.Bundle, e: E.Envelope, f: E.Envelope, secret: bytes, plain: bytes)
    returns (ext: seq<Step>, end: World)
    requires Lengths(p) && KeysAgree(p) && Run(p, steps) == Some(w) && k < |w.sessions|
    requires K.RecipientKeys(p, 3, xPriv, seed) == Ok((pub, priv)) && K.Printable(pub) && K.Printable(priv)
    requires R.Encrypt(p, m, K.Print(pub), Some(sk), Some(pk), None, c) == Ok(w.sessions[k])
    requires RT.SenderMatches(Oracle(p, w), 3, Some(sk), Some(pk), Some(pin))
    requires RT.WroteEnvelope(p, w.sessions[k], e, 3, Some(sk), Some(pk), c) && T.Recut(e, f)
    requires p.decaps(MLKEM1024, priv.parts[1], f.ct) == Ok(secret) && MayLearn(w, secret)
    ensures Run(p, steps + ext) == Some(end)
    ensures end == w.(known := end.known, advKeys := end.advKeys, advCalls := end.advCalls)
    ensures R.Decrypt(Oracle(p, end), E.Print(f), K.Print(priv), Some(pin), None, None).Ok?
    ensures PreAuth(f.Transcript()) == PreAuth(end.sessions[k].t)
    ensures forall j :: 0 <= j < |end.sessions| ==> end.sessions[j].t != f.Transcript()
  {
    RunKeeps(p, steps);
    EmptyIsHarmless(w);
    assert |secret| == 32;
    ext, end := SealsUnder(p, steps, w, secret, T.RecutCall(w.sessions[k], f, secret, plain));
    MatchesInEveryWorld(p, w, end, Some(sk), Some(pk), Some(pin));
    T.PureSuiteNeedsLength(p, end, k, m, xPriv, seed, sk, pk, c, pin, pub, priv, e, f, secret, plain);
    forall j | 0 <= j < |end.sessions| ensures end.sessions[j].t != f.Transcript() {
      assert WellMade(w.sessions[j]);
    }
  }
}
