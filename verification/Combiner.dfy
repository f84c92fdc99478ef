/** The hybrid combiner of vorlath_shield/shield.py: `_pre_auth_transcript`, `_derive_key`, and what
    the byte string fed to the KDF determines. */
module Combiner {
  import opened Bytes
  import opened Framing
  import opened Primitives

  const FLAG_AUTHENTICATED: int := 1
  const FLAG_PPK: int := 2

  predicate Authenticated(flags: byte) {
    flags % 2 == 1
  }

  predicate PpkBound(flags: byte) {
    flags / 2 % 2 == 1
  }

  /** The handshake fields every transcript concatenates. */
  datatype Transcript = Transcript(suite: byte, flags: byte, kid: bytes, eph: bytes, ct: bytes, nonce: bytes)

  /** `_pre_auth_transcript`: a flat concatenation, no framing. */
  function PreAuth(t: Transcript): bytes {
    [t.suite, t.flags] + t.kid + t.eph + t.ct + t.nonce
  }

  function Label(): bytes {
    Ascii("VORLATH-Shield/2 hybrid-kem combiner")
  }

  function Info(suite: byte, preAuth: bytes, senderKid: bytes): bytes {
    Label() + [suite] + preAuth + senderKid
  }

  /** The secrets mixed in: an empty pre-shared key contributes no leg at all. */
  function Legs(ssc: bytes, sspq: bytes, ppk: bytes): seq<bytes> {
    [ssc, sspq] + if ppk == [] then [] else [ppk]
  }

  /** `_derive_key`; `struct.pack(">H")` raises on a leg of 2^16 bytes or more. */
  function DeriveKey(s: Suite, legs: seq<bytes>, preAuth: bytes, senderKid: bytes): Result<Key> {
    if forall i :: 0 <= i < |legs| ==> |legs[i]| <= 0xFFFF
    then Ok(Key(s.hash, FlatTlv(legs), Info(s.id, preAuth, senderKid)))
    else Err(PackRange)
  }

  /** The stepwise form of `_derive_key`, which appends to `ikm`. */
  method DeriveKeyStepwise(s: Suite, ssc: bytes, sspq: bytes, preAuth: bytes, ppk: bytes, senderKid: bytes)
    returns (r: Result<Key>)
    ensures r == DeriveKey(s, Legs(ssc, sspq, ppk), preAuth, senderKid)
  {
    ghost var legs := Legs(ssc, sspq, ppk);
    if |ssc| > 0xFFFF || |sspq| > 0xFFFF {
      assert |legs[0]| > 0xFFFF || |legs[1]| > 0xFFFF;
      return Err(PackRange);
    }
    var ikm := U16(|ssc|) + ssc + U16(|sspq|) + sspq;
    FlatTwo(ssc, sspq);
    if ppk != [] {
      if |ppk| > 0xFFFF {
        assert |legs[2]| > 0xFFFF;
        return Err(PackRange);
      }
      FlatTlvAppend([ssc, sspq], ppk);
      ikm := ikm + (U16(|ppk|) + ppk);
    }
    assert legs == if ppk == [] then [ssc, sspq] else [ssc, sspq] + [ppk];
    assert AllShort(legs) && ikm == FlatTlv(legs);
    var info := Info(s.id, preAuth, senderKid);
    return Ok(Key(s.hash, ikm, info));
  }

  lemma FlatTwo(a: bytes, b: bytes)
    requires |a| <= 0xFFFF && |b| <= 0xFFFF
    ensures FlatTlv([a, b]) == U16(|a|) + a + U16(|b|) + b
  {
    assert [a, b][1..] == [b] && [b][1..] == [];
    assert FlatTlv([b]) == Tlv(b) + [];
  }

  lemma LegsInjective(a: bytes, b: bytes, c: bytes, a': bytes, b': bytes, c': bytes)
    requires Legs(a, b, c) == Legs(a', b', c')
    ensures a == a' && b == b' && c == c'
  {
    var x, y := Legs(a, b, c), Legs(a', b', c');
    assert x[0] == a && x[1] == b && y[0] == a' && y[1] == b';
    assert |x| == |y|;
    if c != [] { assert x[2] == c && y[2] == c'; }
  }

  /** What an opener's length checks leave of a transcript: the key-id has the fingerprint's length,
      the ciphertext has ML-KEM's, and a suite with a classical leg pins the ephemeral key.  The
      nonce is free. */
  predicate Pinned(t: Transcript) {
    && SuiteOf(t.suite).Ok?
    && |t.kid| == 32
    && |t.ct| == SuiteOf(t.suite).value.kemCtLen
    && (t.suite != 3 ==> |t.eph| == SuiteOf(t.suite).value.ecdhPubLen)
  }

  /** The sender key-id in the FixedInfo: 32 bytes exactly when the flag says so. */
  predicate KidByFlag(flags: byte, senderKid: bytes) {
    |senderKid| == if Authenticated(flags) then 32 else 0
  }

  /** The unframed transcript determines suite, flags and key-id, and it determines the other three
      fields exactly when the ephemeral keys have one length, which a classical leg guarantees. */
  lemma PreAuthInjective(t: Transcript, u: Transcript)
    requires Pinned(t) && Pinned(u) && PreAuth(t) == PreAuth(u)
    ensures t.suite == u.suite && t.flags == u.flags && t.kid == u.kid
    ensures t.eph + t.ct + t.nonce == u.eph + u.ct + u.nonce
    ensures t == u <==> |t.eph| == |u.eph|
    ensures t.suite != 3 ==> t == u
  {
    assert PreAuth(t)[0] == t.suite && PreAuth(u)[0] == u.suite;
    assert PreAuth(t)[1] == t.flags && PreAuth(u)[1] == u.flags;
    assert PreAuth(t) == [t.suite, t.flags] + (t.kid + (t.eph + t.ct + t.nonce));
    assert PreAuth(u) == [u.suite, u.flags] + (u.kid + (u.eph + u.ct + u.nonce));
    SplitEqual([t.suite, t.flags], t.kid + (t.eph + t.ct + t.nonce), [u.suite, u.flags],
        u.kid + (u.eph + u.ct + u.nonce));
    SplitEqual(t.kid, t.eph + t.ct + t.nonce, u.kid, u.eph + u.ct + u.nonce);
    if |t.eph| == |u.eph| {
      assert t.eph + t.ct + t.nonce == t.eph + (t.ct + t.nonce) && u.eph + u.ct + u.nonce == u.eph + (u.ct + u.nonce);
      SplitEqual(t.eph, t.ct + t.nonce, u.eph, u.ct + u.nonce);
      SplitEqual(t.ct, t.nonce, u.ct, u.nonce);
    }
  }

  /** KDF input injectivity.  Equal derived keys force equal secrets, pre-shared-key presence and
      value, suite, flags, key-ids, and (as for `PreAuthInjective`) equal remaining fields exactly
      when the ephemeral keys have one length. */
  lemma DeriveKeyInjective(
    s: Suite, ssc: bytes, sspq: bytes, ppk: bytes, t: Transcript, senderKid: bytes,
    s': Suite, ssc': bytes, sspq': bytes, ppk': bytes, t': Transcript, senderKid': bytes)
    requires Pinned(t) && Pinned(t') && KidByFlag(t.flags, senderKid) && KidByFlag(t'.flags, senderKid')
    requires var k, k' := DeriveKey(s, Legs(ssc, sspq, ppk), PreAuth(t), senderKid),
                          DeriveKey(s', Legs(ssc', sspq', ppk'), PreAuth(t'), senderKid');
             k.Ok? && k == k'
    ensures ssc == ssc' && sspq == sspq' && ppk == ppk'
    ensures t.suite == t'.suite && t.flags == t'.flags && t.kid == t'.kid && senderKid == senderKid'
    ensures t == t' <==> |t.eph| == |t'.eph|
    ensures t.suite != 3 ==> t == t'
  {
    FlatTlvInjective(Legs(ssc, sspq, ppk), Legs(ssc', sspq', ppk'));
    LegsInjective(ssc, sspq, ppk, ssc', sspq', ppk');
    InfoSplit(s.id, t, senderKid, s'.id, t', senderKid');
    PreAuthInjective(t, t');
  }

  lemma InfoSplit(id: byte, t: Transcript, senderKid: bytes, id': byte, t': Transcript, senderKid': bytes)
    requires KidByFlag(t.flags, senderKid) && KidByFlag(t'.flags, senderKid')
    requires Info(id, PreAuth(t), senderKid) == Info(id', PreAuth(t'), senderKid')
    ensures PreAuth(t) == PreAuth(t') && senderKid == senderKid' && id == id'
  {
    var a, b := PreAuth(t), PreAuth(t');
    assert Info(id, a, senderKid) == (Label() + [id]) + (a + senderKid);
    assert Info(id', b, senderKid') == (Label() + [id']) + (b + senderKid');
    SplitEqual(Label() + [id], a + senderKid, Label() + [id'], b + senderKid');
    assert (Label() + [id])[36] == id && (Label() + [id'])[36] == id';
    assert a[1] == (a + senderKid)[1] && b[1] == (b + senderKid')[1];
    assert a[1] == t.flags && b[1] == t'.flags;
    SplitEqual(a, senderKid, b, senderKid');
  }

  /** The pure-PQC suite does not pin the ephemeral key, so there the flat transcript has two
      readings that pass every length check. */
  lemma PureSuiteTranscriptAmbiguous()
    ensures exists t: Transcript, u: Transcript ::
              Pinned(t) && Pinned(u) && t.suite == u.suite == 3 && t != u && PreAuth(t) == PreAuth(u)
              && |t.nonce| == 12 && |u.nonce| == 11
  {
    var zeros := (n: nat) => seq<byte>(n, _ => 0);
    var t := Transcript(3, 0, zeros(32), [], zeros(1568), zeros(12));
    var u := Transcript(3, 0, zeros(32), [0], zeros(1568), zeros(11));
    assert PreAuth(t) == [3, 0] + zeros(1612);
    assert PreAuth(u) == [3, 0] + zeros(1612);
  }
}
