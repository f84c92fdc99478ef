/** What every run keeps, and what follows for every reachable world: nonce uniqueness, integrity of
    envelopes and streams against arbitrary bytes, hybrid secrecy, and sender agreement. */
module Runs {
  import opened Bytes
  import opened Framing
  import opened Primitives
  import opened Combiner
  import opened Sessions
  import opened World
  import E = Envelope
  import R = Shield
  import RT = ShieldTheorems
  import S = Stream
  import ST = StreamTheorems

  // ---------------------------------------------------------------- honest sessions

  /** The shape of everything an honest sealing computes. */
  ghost predicate WellMade(s: Session) {
    && Sound(s)
    && SuiteOf(s.t.suite).Ok?
    && |s.t.kid| == 32
    && |s.t.eph| == SuiteOf(s.t.suite).value.ecdhPubLen
    && |s.t.ct| == SuiteOf(s.t.suite).value.kemCtLen
    && |s.t.nonce| == (if s.stream then 7 else 12)
    && |s.ssc| == SuiteOf(s.t.suite).value.ecdhPubLen && |s.sspq| == 32
    && (s.stream ==> s.senderKid == [] && s.signer.None?)
    && (PpkBound(s.t.flags) <==> s.ppk != [])
    && DeriveKey(SuiteOf(s.t.suite).value, Legs(s.ssc, s.sspq, s.ppk), PreAuth(s.t), s.senderKid) == Ok(s.key)
    && HeaderMade(s)
  }

  ghost predicate HeaderMade(s: Session) {
    if s.stream then
      exists h: S.Head :: h.t == s.t && h.Printable() && AllShort(h.Fields()) && s.header == S.PrintHead(h)
    else exists e: E.Envelope :: e.Printable() && e.Transcript() == s.t && s.header == E.Header(e)
  }

  lemma EncryptWellMade(p: Prims, m: bytes, pub: bytes, sk: Option<bytes>, pk: Option<bytes>, psk: Option<bytes>,
                        c: R.Coins)
    requires Lengths(p) && |c.nonce| == 12 && R.Encrypt(p, m, pub, sk, pk, psk, c).Ok?
    ensures WellMade(R.Encrypt(p, m, pub, sk, pk, psk, c).value)
  {
    var rb, suite, signed := RT.EncryptInverts(p, m, pub, sk, pk, psk, c);
    var s := R.Encrypt(p, m, pub, sk, pk, psk, c).value;
    SuiteLengths(rb.suite);
    RT.FlagBits(sk.Some?, psk);
    var e := RT.EnvelopeOf(s, signed.block);
    assert e.Transcript() == s.t;
  }

  lemma SealStreamWellMade(p: Prims, m: bytes, pub: bytes, chunkSize: int, c: R.Coins)
    requires Lengths(p) && |c.nonce| == 7 && S.SealStream(p, m, pub, chunkSize, c).Ok?
    ensures WellMade(S.SealStream(p, m, pub, chunkSize, c).value)
  {
    var rb, suite, head := ST.SealStreamInverts(p, m, pub, chunkSize, c);
    SuiteLengths(rb.suite);
  }

  /** An honest output that parses as an envelope is an envelope session's, with its transcript. */
  lemma OutputTranscript(s: Session, x: bytes, e: E.Envelope)
    requires WellMade(s) && Output(s) == x && E.Parse(x) == Ok(e)
    ensures !s.stream && e.Transcript() == s.t
  {
    if s.stream {
      var h: S.Head :| h.t == s.t && h.Printable() && AllShort(h.Fields()) && s.header == S.PrintHead(h);
      S.ParseHeadIff(x, h, FlatBlobs(s.sealed));
    } else {
      var f: E.Envelope :| f.Printable() && f.Transcript() == s.t && s.header == E.Header(f);
      var g := f.(sealed := s.sealed[0]);
      assert g.Fields() == f.Fields();
      E.ParseIff(x, g);
    }
  }

  lemma SplitFour(a: bytes, b: bytes, c: bytes, d: bytes, a': bytes, b': bytes, c': bytes, d': bytes)
    requires a + (b + (c + d)) == a' + (b' + (c' + d')) && |a| == |a'| && |b| == |b'| && |c| == |c'|
    ensures a == a' && b == b' && c == c' && d == d'
  {
    SplitEqual(a, b + (c + d), a', b' + (c' + d'));
    SplitEqual(b, c + d, b', c' + d');
    SplitEqual(c, d, c', d');
  }

  /** The FixedInfo of a session, cut where its lengths are pinned. */
  function InfoHead(s: Session): bytes {
    Label() + [s.t.suite] + [s.t.suite, s.t.flags] + s.t.kid
  }

  lemma InfoCut(s: Session)
    requires WellMade(s)
    ensures s.key.info == InfoHead(s) + (s.t.eph + (s.t.ct + (s.t.nonce + s.senderKid)))
    ensures |InfoHead(s)| == 71 && InfoHead(s)[36] == s.t.suite
  {}

  /** Two honest sessions with one key drew the same randomness. */
  lemma OneKeyOneDraw(a: Session, b: Session)
    requires WellMade(a) && WellMade(b) && a.key == b.key
    ensures SameDraw(a, b)
  {
    InfoCut(a);
    InfoCut(b);
    assert a.key.info[36] == a.t.suite && b.key.info[36] == b.t.suite;
    SplitFour(InfoHead(a), a.t.eph, a.t.ct, a.t.nonce + a.senderKid, InfoHead(b), b.t.eph, b.t.ct,
        b.t.nonce + b.senderKid);
    assert |a.t.nonce + a.senderKid| == |b.t.nonce + b.senderKid|;
    SplitEqual(a.t.nonce, a.senderKid, b.t.nonce, b.senderKid);
  }

  // ---------------------------------------------------------------- the invariant

  ghost predicate SessionsOk(w: World) {
    && (forall k :: 0 <= k < |w.sessions| ==> WellMade(w.sessions[k]))
    && (forall j, k :: 0 <= j < k < |w.sessions| ==> !SameDraw(w.sessions[j], w.sessions[k]))
  }

  /** The adversary holds protective secrets of exposed legs only. */
  ghost predicate SecretsGuarded(w: World) {
    forall k, v :: 0 <= k < |w.sessions| && v in w.known ==> Harmless(w, w.sessions[k], v)
  }

  /** Every key the adversary derived came from leg secrets it holds, or from no framed legs at all. */
  ghost predicate KeysEarned(w: World) {
    forall key :: key in w.advKeys ==> Earned(w, key)
  }

  ghost predicate Earned(w: World, key: Key) {
    forall legs :: RT.UsesLegs(key, legs) ==> forall i :: 0 <= i < |legs| ==> legs[i] in w.known
  }

  ghost predicate CallsByKeyHolders(w: World) {
    && (forall c :: c in w.advCalls ==> c.key in w.advKeys)
    && (forall c :: c in w.disclosed ==> c.key in w.advKeys)
    && (forall c :: c in w.advSigs ==> c.pk in w.exposedSigners)
  }

  ghost predicate Inv(w: World) {
    SessionsOk(w) && SecretsGuarded(w) && KeysEarned(w) && CallsByKeyHolders(w)
  }

  // ---------------------------------------------------------------- integrity in one world

  lemma HeadersDiffer(e: E.Envelope, h: S.Head, tail: bytes)
    requires e.Printable() && h.Printable() && AllShort(h.Fields())
    ensures E.Header(e) != S.PrintHead(h) + tail
  {
    assert E.Header(e)[3] == 0x48 && (S.PrintHead(h) + tail)[3] == 0x54;
  }

  /** The session behind an honest ledger entry whose associated data is an envelope header. */
  lemma EntryIsEnvelope(w: World, c: SealCall, e: E.Envelope) returns (k: nat)
    requires SessionsOk(w) && HonestCall(w, c) && e.Printable() && c.aad == E.Header(e)
    ensures k < |w.sessions| && Sound(w.sessions[k])
    ensures var s := w.sessions[k];
            !s.stream && s.header == c.aad && s.sealed == [c.ct] && s.plain == [c.pt] && s.key == c.key
  {
    k :| k < |w.sessions| && MadeCall(w.sessions[k], c);
    var s := w.sessions[k];
    var i: nat :| i < |s.sealed| && c == CallOf(s, i);
    assert WellMade(s);
    if s.stream {
      var h: S.Head :| h.t == s.t && h.Printable() && AllShort(h.Fields()) && s.header == S.PrintHead(h);
      HeadersDiffer(e, h, Ctr(i, i == |s.sealed| - 1));
    }
    assert i == 0;
  }

  /** Envelope integrity against arbitrary bytes: an accepted byte string is, in all its bytes, an
      envelope some honest `encrypt` returned, with that plaintext, unless the adversary holds the
      key the opening used. */
  lemma EnvelopeIntegrity(p: Prims, w: World, x: bytes, priv: bytes, pin: Option<bytes>, psk: Option<bytes>,
                          policy: Option<string>)
    returns (k: nat)
    requires Inv(w) && R.Decrypt(Oracle(p, w), x, priv, pin, psk, policy).Ok?
    requires R.PlanOpen(Oracle(p, w), x, priv, pin, psk, policy).Ok?
    requires R.PlanOpen(Oracle(p, w), x, priv, pin, psk, policy).value.key !in w.advKeys
    ensures k < |w.sessions| && Sound(w.sessions[k])
    ensures var s := w.sessions[k];
            !s.stream && x == Output(s) && R.Decrypt(Oracle(p, w), x, priv, pin, psk, policy) == Ok(s.plain[0])
            && s.key == R.PlanOpen(Oracle(p, w), x, priv, pin, psk, policy).value.key
  {
    var o := Oracle(p, w);
    var plan := RT.AcceptedIsFramed(o, x, priv, pin, psk, policy);
    var m := R.Decrypt(o, x, priv, pin, psk, policy).value;
    var c := EnvelopeCall(plan, m);
    assert o.open(plan.key, plan.e.nonce, plan.e.sealed, E.Header(plan.e))
        == LedgerOpen(w, plan.key, plan.e.nonce, plan.e.sealed, E.Header(plan.e));
    assert Sealed(w, c);
    k := EntryIsEnvelope(w, c, plan.e);
  }

  /** The session and position behind an honest ledger entry whose associated data is a stream header
      and a counter. */
  lemma EntryIsChunk(w: World, c: SealCall, h: S.Head, j: nat, final: bool) returns (k: nat)
    requires SessionsOk(w) && HonestCall(w, c) && h.Printable() && AllShort(h.Fields()) && SuiteOf(h.t.suite).Ok?
    requires j < 0x1_0000_0000 && c.aad == S.PrintHead(h) + Ctr(j, final)
    ensures k < |w.sessions| && Sound(w.sessions[k])
    ensures var s := w.sessions[k];
            s.stream && s.header == S.PrintHead(h) && s.t == h.t && s.key == c.key && j < |s.sealed|
            && s.sealed[j] == c.ct && s.plain[j] == c.pt && (final <==> j == |s.sealed| - 1)
  {
    k :| k < |w.sessions| && MadeCall(w.sessions[k], c);
    var s := w.sessions[k];
    var i: nat :| i < |s.sealed| && c == CallOf(s, i);
    assert WellMade(s);
    if !s.stream {
      var e: E.Envelope :| e.Printable() && e.Transcript() == s.t && s.header == E.Header(e);
      HeadersDiffer(e, h, Ctr(j, final));
    }
    SplitEqual(s.header, Ctr(i, i == |s.sealed| - 1), S.PrintHead(h), Ctr(j, final));
    CtrInjective(i, i == |s.sealed| - 1, j, final);
    var g: S.Head :| g.t == s.t && g.Printable() && AllShort(g.Fields()) && s.header == S.PrintHead(g);
    S.ParseHeadIff(S.PrintHead(h) + [], h, []);
    S.ParseHeadIff(S.PrintHead(h) + [], g, []);
  }

  /** Stream integrity against arbitrary bytes: among any number of honest streams and envelopes, a
      byte string `open_stream` accepts is, in all its bytes, one honest stream with its plaintext,
      so no reordering, drop, duplicate, truncation, extension or splice is accepted, unless the
      adversary holds the key the opening used. */
  lemma StreamIntegrity(p: Prims, w: World, x: bytes, priv: bytes) returns (k: nat)
    requires Inv(w) && S.OpenStream(Oracle(p, w), x, priv).Ok?
    requires S.PlanStream(Oracle(p, w), x, priv).Ok?
    requires S.PlanStream(Oracle(p, w), x, priv).value.secrets.key !in w.advKeys
    ensures k < |w.sessions| && Sound(w.sessions[k])
    ensures var s := w.sessions[k];
            s.stream && x == Output(s) && S.OpenStream(Oracle(p, w), x, priv) == Ok(Concat(s.plain))
  {
    var o := Oracle(p, w);
    var plan := S.PlanStream(o, x, priv).value;
    var h, key := plan.head, plan.secrets.key;
    S.ParseHeadIff(x, h, plan.rest);
    var blobs := TakeBlobs(plan.rest).value;
    TakeBlobsIff(plan.rest, blobs);
    var pts := ST.OpenBlobsInverts(o, key, h.t.nonce, S.PrintHead(h), blobs, 0);
    assert pts[0..] == pts;
    k := ChunksOfOneSession(p, w, key, h, blobs, pts);
  }

  /** Where chunk `j` of an accepted stream came from. */
  ghost predicate ChunkOf(s: Session, h: S.Head, blobs: seq<bytes>, pts: seq<bytes>, j: nat)
    requires j < |blobs| == |pts| && AllShort(h.Fields())
  {
    && s.stream && Sound(s) && s.header == S.PrintHead(h) && s.t == h.t && j < |s.sealed|
    && s.sealed[j] == blobs[j] && s.plain[j] == pts[j] && (j == |blobs| - 1 <==> j == |s.sealed| - 1)
  }

  lemma ChunksOfOneSession(p: Prims, w: World, key: Key, h: S.Head, blobs: seq<bytes>, pts: seq<bytes>) returns (k: nat)
    requires Inv(w) && key !in w.advKeys && h.Printable() && AllShort(h.Fields()) && SuiteOf(h.t.suite).Ok?
    requires 0 < |blobs| == |pts| <= 0x1_0000_0000
    requires forall j :: 0 <= j < |blobs| ==> ST.OpenedAt(Oracle(p, w), key, h.t.nonce, S.PrintHead(h), blobs, pts, j)
    ensures k < |w.sessions| && Sound(w.sessions[k])
    ensures var s := w.sessions[k]; s.stream && s.header == S.PrintHead(h) && s.sealed == blobs && s.plain == pts
  {
    k := ChunkSession(p, w, key, h, blobs, pts, 0);
    var s := w.sessions[k];
    forall j: nat | j < |blobs| ensures ChunkOf(s, h, blobs, pts, j) {
      var k' := ChunkSession(p, w, key, h, blobs, pts, j);
      OneSession(w, k, k');
    }
    assert ChunkOf(s, h, blobs, pts, |blobs| - 1);
    assert |s.sealed| == |blobs|;
    forall j | 0 <= j < |blobs| ensures s.sealed[j] == blobs[j] && s.plain[j] == pts[j] {
      assert ChunkOf(s, h, blobs, pts, j);
    }
  }

  lemma OneSession(w: World, j: nat, k: nat)
    requires SessionsOk(w) && j < |w.sessions| && k < |w.sessions| && SameDraw(w.sessions[j], w.sessions[k])
    ensures j == k
  {
    assert SameDraw(w.sessions[k], w.sessions[j]);
  }

  /** Each opened chunk leads to an honest stream session with the same header and position. */
  lemma ChunkSession(p: Prims, w: World, key: Key, h: S.Head, blobs: seq<bytes>, pts: seq<bytes>, j: nat)
    returns (k: nat)
    requires Inv(w) && key !in w.advKeys && h.Printable() && AllShort(h.Fields()) && SuiteOf(h.t.suite).Ok?
    requires j < |blobs| == |pts| <= 0x1_0000_0000
    requires ST.OpenedAt(Oracle(p, w), key, h.t.nonce, S.PrintHead(h), blobs, pts, j)
    ensures k < |w.sessions| && ChunkOf(w.sessions[k], h, blobs, pts, j)
  {
    var ctr := Ctr(j, j == |blobs| - 1);
    var c := SealCall(key, h.t.nonce + ctr, S.PrintHead(h) + ctr, pts[j], blobs[j]);
    assert LedgerOpen(w, key, h.t.nonce + ctr, blobs[j], S.PrintHead(h) + ctr) == Ok(pts[j]);
    assert Sealed(w, c);
    k := EntryIsChunk(w, c, h, j, j == |blobs| - 1);
  }

  // ---------------------------------------------------------------- every step keeps the invariant

  lemma AddSessionKeeps(w: World, s: Session)
    requires Inv(w) && WellMade(s) && Fresh(w, s)
    ensures Inv(w.(sessions := w.sessions + [s]))
  {
    var w' := w.(sessions := w.sessions + [s]);
    forall k, v | 0 <= k < |w'.sessions| && v in w'.known ensures Harmless(w', w'.sessions[k], v) {
      assert Harmless(w, w'.sessions[k], v);
    }
    forall key | key in w'.advKeys ensures Earned(w', key) { assert Earned(w, key); }
  }

  lemma ExposeKeeps(w: World, o: LegOwner)
    requires Inv(w)
    ensures Inv(w.(exposed := w.exposed + {o}))
  {
    var w' := w.(exposed := w.exposed + {o});
    forall k, v | 0 <= k < |w'.sessions| && v in w'.known ensures Harmless(w', w'.sessions[k], v) {
      assert Harmless(w, w.sessions[k], v);
    }
    forall key | key in w'.advKeys ensures Earned(w', key) { assert Earned(w, key); }
  }

  lemma LearnKeeps(w: World, v: bytes)
    requires Inv(w) && forall k :: 0 <= k < |w.sessions| ==> Harmless(w, w.sessions[k], v)
    ensures Inv(w.(known := w.known + {v}))
  {
    var w' := w.(known := w.known + {v});
    forall k, u | 0 <= k < |w'.sessions| && u in w'.known ensures Harmless(w', w'.sessions[k], u) {
      assert Harmless(w, w.sessions[k], u);
    }
    forall key | key in w'.advKeys ensures Earned(w', key) { assert Earned(w, key); }
  }

  lemma KeyKeeps(w: World, key: Key)
    requires Inv(w) && Earned(w, key)
    ensures Inv(w.(advKeys := w.advKeys + {key}))
  {
    var w' := w.(advKeys := w.advKeys + {key});
    forall k, v | 0 <= k < |w'.sessions| && v in w'.known ensures Harmless(w', w'.sessions[k], v) {
      assert Harmless(w, w.sessions[k], v);
    }
    forall q | q in w'.advKeys ensures Earned(w', q) { assert Earned(w, q); }
  }

  lemma DerivedIsEarned(w: World, hash: Hash, legs: seq<bytes>, info: bytes)
    requires AllShort(legs) && forall i :: 0 <= i < |legs| ==> legs[i] in w.known
    ensures Earned(w, Key(hash, FlatTlv(legs), info))
  {
    forall other | RT.UsesLegs(Key(hash, FlatTlv(legs), info), other) ensures other == legs {
      FlatTlvInjective(other, legs);
    }
  }

  lemma UnframedIsEarned(w: World, hash: Hash, ikm: bytes, info: bytes)
    requires TakeTlvs(ikm).Err?
    ensures Earned(w, Key(hash, ikm, info))
  {
    forall other | RT.UsesLegs(Key(hash, ikm, info), other) ensures false {
      TakeTlvsIff(ikm, other);
    }
  }

  /** Anything else a step changes leaves the first three parts of the invariant alone. */
  lemma LedgersKeep(w: World, w': World)
    requires Inv(w) && w'.sessions == w.sessions && w'.exposed == w.exposed && w'.known == w.known
    requires w'.advKeys == w.advKeys
    requires CallsByKeyHolders(w')
    ensures Inv(w')
  {
    forall k, v | 0 <= k < |w'.sessions| && v in w'.known ensures Harmless(w', w'.sessions[k], v) {
      assert Harmless(w, w.sessions[k], v);
    }
    forall key | key in w'.advKeys ensures Earned(w', key) { assert Earned(w, key); }
  }

  lemma InjectKeeps(p: Prims, w: World, x: bytes, priv: bytes, pin: Option<bytes>, psk: Option<bytes>,
                    policy: Option<string>)
    requires Inv(w) && AfterInject(p, w, x, priv, pin, psk, policy).Some?
    ensures Inv(AfterInject(p, w, x, priv, pin, psk, policy).value)
  {
    var plan := R.PlanOpen(Oracle(p, w), x, priv, pin, psk, policy).value;
    if plan.key !in w.advKeys {
      var k := EnvelopeIntegrity(p, w, x, priv, pin, psk, policy);
      assert IsOutput(w, x);
    }
    LedgersKeep(w, AfterInject(p, w, x, priv, pin, psk, policy).value);
  }

  lemma InjectStreamKeeps(p: Prims, w: World, x: bytes, priv: bytes)
    requires Inv(w) && AfterInjectStream(p, w, x, priv).Some?
    ensures Inv(AfterInjectStream(p, w, x, priv).value)
  {
    var o := Oracle(p, w);
    var plan := S.PlanStream(o, x, priv).value;
    if plan.secrets.key !in w.advKeys {
      var k := StreamIntegrity(p, w, x, priv);
      assert IsOutput(w, x);
    }
    StreamCallsKey(o, x, priv, w.advKeys);
    LedgersKeep(w, AfterInjectStream(p, w, x, priv).value);
  }

  lemma StreamCallsKey(o: Prims, x: bytes, priv: bytes, keys: set<Key>)
    requires S.PlanStream(o, x, priv).Ok? && S.PlanStream(o, x, priv).value.secrets.key in keys
    ensures forall c :: c in StreamCalls(o, x, priv) ==> c.key in keys
  {}

  lemma SealKeeps(p: Prims, w: World, a: Step, w': World)
    requires Lengths(p) && Inv(w) && (a.Encrypt? || a.SealStream?) && Next(p, w, a) == Some(w')
    ensures Inv(w')
  {
    match a {
      case Encrypt(m, pub, sk, pk, psk, c) =>
        EncryptWellMade(p, m, pub, sk, pk, psk, c);
        AddSessionKeeps(w, R.Encrypt(p, m, pub, sk, pk, psk, c).value);
      case SealStream(m, pub, n, c) =>
        SealStreamWellMade(p, m, pub, n, c);
        AddSessionKeeps(w, S.SealStream(p, m, pub, n, c).value);
    }
  }

  lemma DeriveKeeps(p: Prims, w: World, a: Step, w': World)
    requires Inv(w) && (a.Derive? || a.DeriveUnframed?) && Next(p, w, a) == Some(w')
    ensures Inv(w')
  {
    var key := DeriveStepOnly(p, w, a, w');
    match a {
      case Derive(hash, legs, info) => DerivedIsEarned(w, hash, legs, info);
      case DeriveUnframed(hash, ikm, info) => UnframedIsEarned(w, hash, ikm, info);
    }
    KeyKeeps(w, key);
  }

  /** The one key such a step adds, and where it comes from. */
  lemma DeriveStepOnly(p: Prims, w: World, a: Step, w': World) returns (key: Key)
    requires (a.Derive? || a.DeriveUnframed?) && Next(p, w, a) == Some(w')
    ensures w' == w.(advKeys := w.advKeys + {key})
    ensures a.Derive? ==> AllShort(a.legs) && (forall i :: 0 <= i < |a.legs| ==> a.legs[i] in w.known)
                          && key == Key(a.hash, FlatTlv(a.legs), a.info)
    ensures a.DeriveUnframed? ==> TakeTlvs(a.ikm).Err? && key == Key(a.hash, a.ikm, a.info)
  {
    key := match a case Derive(hash, legs, info) => Key(hash, FlatTlv(legs), info)
                   case DeriveUnframed(hash, ikm, info) => Key(hash, ikm, info);
  }

  lemma LedgerStepKeeps(p: Prims, w: World, a: Step, w': World)
    requires a.SignDocument? || a.ExposeSigner? || a.Forge? || a.SignAs? || a.Read?
    requires Inv(w) && Next(p, w, a) == Some(w')
    ensures Inv(w')
  {
    LedgerStepOnly(p, w, a, w');
    LedgersKeep(w, w');
  }

  /** What those steps change. */
  lemma LedgerStepOnly(p: Prims, w: World, a: Step, w': World)
    requires a.SignDocument? || a.ExposeSigner? || a.Forge? || a.SignAs? || a.Read?
    requires CallsByKeyHolders(w) && Next(p, w, a) == Some(w')
    ensures w'.sessions == w.sessions && w'.exposed == w.exposed && w'.known == w.known && w'.advKeys == w.advKeys
    ensures CallsByKeyHolders(w')
  {}

  lemma StepKeeps(p: Prims, w: World, a: Step, w': World)
    requires Lengths(p) && Inv(w) && Next(p, w, a) == Some(w')
    ensures Inv(w')
  {
    match a {
      case Encrypt(_, _, _, _, _, _) => SealKeeps(p, w, a, w');
      case SealStream(_, _, _, _) => SealKeeps(p, w, a, w');
      case ExposeLeg(o) => ExposeKeeps(w, o);
      case Learn(v) => LearnKeeps(w, v);
      case Derive(_, _, _) => DeriveKeeps(p, w, a, w');
      case DeriveUnframed(_, _, _) => DeriveKeeps(p, w, a, w');
      case Inject(x, priv, pin, psk, policy) => InjectKeeps(p, w, x, priv, pin, psk, policy);
      case InjectStream(x, priv) => InjectStreamKeeps(p, w, x, priv);
      case _ => LedgerStepKeeps(p, w, a, w');
    }
  }

  /** Every world any run reaches satisfies the invariant. */
  lemma {:induction false} RunKeeps(p: Prims, steps: seq<Step>)
    requires Lengths(p) && Run(p, steps).Some?
    ensures Inv(Run(p, steps).value)
  {
    if steps != [] {
      var before := steps[..|steps| - 1];
      RunKeeps(p, before);
      StepKeeps(p, Run(p, before).value, steps[|steps| - 1], Run(p, steps).value);
    }
  }
}
