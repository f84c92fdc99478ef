/** What one run of a sealing procedure computes: its transcript, the secrets it mixed, its key and
    the AEAD calls it makes. */
module Sessions {
  import opened Bytes
  import opened Framing
  import opened Primitives
  import opened Combiner
  import E = Envelope

  /** One AEAD sealing: `AESGCM(key).encrypt(nonce, pt, aad)` returned `ct`. */
  datatype SealCall = SealCall(key: Key, nonce: bytes, aad: bytes, pt: bytes, ct: bytes)

  datatype Signer = Signer(alg: Sig, pk: bytes)

  datatype Session = Session(
    stream: bool, t: Transcript, senderKid: bytes, signer: Option<Signer>,
    ssc: bytes, sspq: bytes, ppk: bytes, key: Key,
    header: bytes, plain: seq<bytes>, sealed: seq<bytes>)

  /** `struct.pack(">I", idx) + bytes([final])`. */
  function Ctr(i: nat, final: bool): (c: bytes)
    requires i < 0x1_0000_0000
    ensures |c| == 5
  {
    U32(i) + [if final then 1 else 0]
  }

  lemma CtrInjective(i: nat, f: bool, j: nat, g: bool)
    requires i < 0x1_0000_0000 && j < 0x1_0000_0000 && Ctr(i, f) == Ctr(j, g)
    ensures i == j && f == g
  {
    SplitEqual(U32(i), [if f then 1 else 0], U32(j), [if g then 1 else 0]);
    U32Injective(i, j);
    assert [if f then 1 else 0][0] == [if g then 1 else 0][0];
  }

  /** A session whose sealed bytes fit their frames. */
  ghost predicate Sound(s: Session) {
    && |s.plain| == |s.sealed| > 0
    && AllBlobs(s.sealed)
    && |s.sealed| <= 0xFFFF_FFFF
    && (!s.stream ==> |s.sealed| == 1)
  }

  function CallNonce(s: Session, i: nat): bytes
    requires i < |s.sealed| <= 0xFFFF_FFFF
  {
    if s.stream then s.t.nonce + Ctr(i, i == |s.sealed| - 1) else s.t.nonce
  }

  function CallAad(s: Session, i: nat): bytes
    requires i < |s.sealed| <= 0xFFFF_FFFF
  {
    if s.stream then s.header + Ctr(i, i == |s.sealed| - 1) else s.header
  }

  function CallOf(s: Session, i: nat): SealCall
    requires i < |s.plain| == |s.sealed| <= 0xFFFF_FFFF
  {
    SealCall(s.key, CallNonce(s, i), CallAad(s, i), s.plain[i], s.sealed[i])
  }

  /** The bytes the procedure returns. */
  function Output(s: Session): bytes
    requires Sound(s)
  {
    if s.stream then s.header + FlatBlobs(s.sealed) else E.Framed(s.header, s.sealed[0])
  }
}
