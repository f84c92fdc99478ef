/** Whole runs: honest parties seal and sign, an adversary injects, learns exposed secrets, derives
    keys, seals under keys it holds and has honest recipients open what it injects.

    The AEAD opens exactly what some call sealed and a signature verifies exactly what its key
    signed; both are ledgers of the run.  What the adversary cannot do is a guard on its steps: it
    learns a leg secret of an honest sealing only once that leg has been exposed. */
module World {
  import opened Bytes
  import opened Framing
  import opened Primitives
  import opened Combiner
  import opened Sessions
  import E = Envelope
  import K = KeyBundle
  import R = Shield
  import S = Stream

  /** What can be exposed: a recipient's classical or ML-KEM private key, or a pre-shared key. */
  datatype LegOwner = ClassicalOf(kid: bytes) | PqOf(kid: bytes) | PpkOf(key: bytes)

  datatype SigCall = SigCall(alg: Sig, pk: bytes, msg: bytes, ctx: bytes)

  datatype World = World(
    sessions: seq<Session>,
    documents: set<SigCall>,
    exposed: set<LegOwner>,
    exposedSigners: set<bytes>,
    known: set<bytes>,
    advKeys: set<Key>,
    advCalls: set<SealCall>,
    advSigs: set<SigCall>,
    disclosed: set<SealCall>)

  const Start: World := World([], {}, {}, {}, {}, {}, {}, {}, {})

  // ---------------------------------------------------------------- ledgers

  ghost predicate MadeCall(s: Session, c: SealCall) {
    Sound(s) && exists i: nat :: i < |s.sealed| && c == CallOf(s, i)
  }

  ghost predicate HonestCall(w: World, c: SealCall) {
    exists k: nat :: k < |w.sessions| && MadeCall(w.sessions[k], c)
  }

  ghost predicate Sealed(w: World, c: SealCall) {
    c in w.advCalls || HonestCall(w, c)
  }

  /** What the sender of an authenticated session signed. */
  function HandshakeSig(s: Session): SigCall
    requires s.signer.Some?
  {
    SigCall(s.signer.value.alg, s.signer.value.pk, PreAuth(s.t) + s.senderKid, R.AuthCtx())
  }

  ghost predicate HandshakeSigned(w: World, c: SigCall) {
    exists k: nat :: k < |w.sessions| && w.sessions[k].signer.Some? && c == HandshakeSig(w.sessions[k])
  }

  ghost predicate Signed(w: World, c: SigCall) {
    c in w.documents || c in w.advSigs || HandshakeSigned(w, c)
  }

  ghost function LedgerOpen(w: World, key: Key, nonce: bytes, ct: bytes, aad: bytes): (r: Result<bytes>)
    ensures r.Ok? ==> Sealed(w, SealCall(key, nonce, aad, r.value, ct))
    ensures r.Err? ==> forall pt :: !Sealed(w, SealCall(key, nonce, aad, pt, ct))
  {
    if pt :| Sealed(w, SealCall(key, nonce, aad, pt, ct)) then Ok(pt) else Err(InvalidTag)
  }

  /** The primitives as the parties of this run meet them. */
  ghost function Oracle(p: Prims, w: World): Prims {
    p.(open := (key, nonce, ct, aad) => LedgerOpen(w, key, nonce, ct, aad),
       verify := (alg, pk, msg, sig, ctx) => Ok(Signed(w, SigCall(alg, pk, msg, ctx))))
  }

  // ---------------------------------------------------------------- steps

  /** The secrets that protect a session, with the party that holds each. */
  predicate Leg(s: Session, o: LegOwner, v: bytes) {
    || (s.t.suite != 3 && o == ClassicalOf(s.t.kid) && v == s.ssc)
    || (o == PqOf(s.t.kid) && v == s.sspq)
    || (s.ppk != [] && o == PpkOf(s.ppk) && v == s.ppk)
  }

  /** The adversary may hold `v` as far as session `s` goes. */
  ghost predicate Harmless(w: World, s: Session, v: bytes) {
    forall o :: Leg(s, o, v) ==> o in w.exposed
  }

  /** Fresh randomness: no earlier session drew this ephemeral key, ciphertext and nonce, and the
      adversary does not already hold a protective secret of the new session. */
  ghost predicate Fresh(w: World, s: Session) {
    && (forall k :: 0 <= k < |w.sessions| ==> !SameDraw(w.sessions[k], s))
    && (forall v :: v in w.known ==> Harmless(w, s, v))
  }

  predicate SameDraw(a: Session, b: Session) {
    a.t.eph == b.t.eph && a.t.ct == b.t.ct && a.t.nonce == b.t.nonce
  }

  ghost predicate IsOutput(w: World, x: bytes) {
    exists k: nat :: k < |w.sessions| && Sound(w.sessions[k]) && Output(w.sessions[k]) == x
  }

  datatype Step =
    | Encrypt(m: bytes, pub: bytes, sk: Option<bytes>, pk: Option<bytes>, psk: Option<bytes>, coins: R.Coins)
    | SealStream(m: bytes, pub: bytes, chunkSize: int, coins: R.Coins)
    | SignDocument(priv: bytes, msg: bytes, ctx: bytes, sigCoins: bytes)
    | ExposeLeg(owner: LegOwner)
    | ExposeSigner(signer: bytes)
    | Learn(secret: bytes)
    | Derive(hash: Hash, legs: seq<bytes>, info: bytes)
    | DeriveUnframed(hash: Hash, ikm: bytes, info: bytes)
    | Forge(call: SealCall)
    | SignAs(sig: SigCall)
    | Read(call: SealCall)
    | Inject(x: bytes, priv: bytes, pin: Option<bytes>, psk: Option<bytes>, policy: Option<string>)
    | InjectStream(x: bytes, priv: bytes)

  ghost function AddSession(w: World, r: Result<Session>): Option<World> {
    if r.Ok? && Fresh(w, r.value) then Some(w.(sessions := w.sessions + [r.value])) else None
  }

  /** The ledger calls that opening a stream makes. */
  ghost function StreamCalls(o: Prims, x: bytes, priv: bytes): set<SealCall> {
    var plan, blobs := S.PlanStream(o, x, priv), StreamBlobs(o, x, priv);
    if plan.Err? || |blobs| > 0x1_0000_0000 then {}
    else
      set i: nat | i < |blobs| :: ChunkCall(o, plan.value, blobs, i)
  }

  ghost function StreamBlobs(o: Prims, x: bytes, priv: bytes): seq<bytes> {
    var plan := S.PlanStream(o, x, priv);
    if plan.Err? || TakeBlobs(plan.value.rest).Err? then [] else TakeBlobs(plan.value.rest).value
  }

  ghost function ChunkCall(o: Prims, plan: S.StreamPlan, blobs: seq<bytes>, i: nat): SealCall
    requires i < |blobs| <= 0x1_0000_0000 && AllShort(plan.head.Fields())
  {
    var ctr := Ctr(i, i == |blobs| - 1);
    var nonce, aad := plan.head.t.nonce + ctr, S.PrintHead(plan.head) + ctr;
    var m := o.open(plan.secrets.key, nonce, blobs[i], aad);
    SealCall(plan.secrets.key, nonce, aad, if m.Ok? then m.value else [], blobs[i])
  }

  ghost function EnvelopeCall(plan: R.Plan, m: bytes): SealCall
    requires plan.e.Printable()
  {
    SealCall(plan.key, plan.e.nonce, E.Header(plan.e), m, plan.e.sealed)
  }

  /** A recipient opens bytes of the adversary's own making and discloses what was inside. */
  ghost function AfterInject(p: Prims, w: World, x: bytes, priv: bytes, pin: Option<bytes>, psk: Option<bytes>,
                             policy: Option<string>)
    : Option<World>
  {
    var o := Oracle(p, w);
    var m := R.Decrypt(o, x, priv, pin, psk, policy);
    if m.Ok? && !IsOutput(w, x)
    then Some(w.(disclosed := w.disclosed + {EnvelopeCall(R.PlanOpen(o, x, priv, pin, psk, policy).value, m.value)}))
    else None
  }

  ghost function AfterInjectStream(p: Prims, w: World, x: bytes, priv: bytes): Option<World> {
    var o := Oracle(p, w);
    if S.OpenStream(o, x, priv).Ok? && !IsOutput(w, x)
    then Some(w.(disclosed := w.disclosed + StreamCalls(o, x, priv)))
    else None
  }

  /** One step of a run, or `None` when the step is not possible. */
  ghost function Next(p: Prims, w: World, a: Step): Option<World> {
    match a
    case Encrypt(m, pub, sk, pk, psk, c) =>
      if |c.nonce| == 12 then AddSession(w, R.Encrypt(p, m, pub, sk, pk, psk, c)) else None
    case SealStream(m, pub, n, c) =>
      if |c.nonce| == 7 then AddSession(w, S.SealStream(p, m, pub, n, c)) else None
    case SignDocument(priv, msg, ctx, coins) =>
      var b := R.ParseParts(p, priv, K.ROLE_SIG_PRIV, 1);
      if R.Sign(p, priv, msg, ctx, coins).Err? then None
      else
        var alg := SuiteOf(b.value.suite).value.sig;
        Some(w.(documents := w.documents + {SigCall(alg, p.sigPublic(alg, b.value.parts[0]), msg, ctx)}))
    case ExposeLeg(o) => Some(w.(exposed := w.exposed + {o}))
    case ExposeSigner(pk) => Some(w.(exposedSigners := w.exposedSigners + {pk}))
    case Learn(v) =>
      if forall k :: 0 <= k < |w.sessions| ==> Harmless(w, w.sessions[k], v)
      then Some(w.(known := w.known + {v})) else None
    case Derive(hash, legs, info) =>
      if AllShort(legs) && forall i :: 0 <= i < |legs| ==> legs[i] in w.known
      then Some(w.(advKeys := w.advKeys + {Key(hash, FlatTlv(legs), info)})) else None
    case DeriveUnframed(hash, ikm, info) =>
      if TakeTlvs(ikm).Err? then Some(w.(advKeys := w.advKeys + {Key(hash, ikm, info)})) else None
    case Forge(c) => if c.key in w.advKeys then Some(w.(advCalls := w.advCalls + {c})) else None
    case SignAs(c) => if c.pk in w.exposedSigners then Some(w.(advSigs := w.advSigs + {c})) else None
    case Read(c) =>
      if c.key in w.advKeys && Sealed(w, c) then Some(w.(disclosed := w.disclosed + {c})) else None
    case Inject(x, priv, pin, psk, policy) => AfterInject(p, w, x, priv, pin, psk, policy)
    case InjectStream(x, priv) => AfterInjectStream(p, w, x, priv)
  }

  /** The world after a sequence of steps. */
  ghost function Run(p: Prims, steps: seq<Step>): Option<World> {
    if steps == [] then Some(Start)
    else
      var before := Run(p, steps[..|steps| - 1]);
      if before.None? then None else Next(p, before.value, steps[|steps| - 1])
  }
}
