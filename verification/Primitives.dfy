/** The suite table of vorlath_shield/shield.py and the cryptographic primitives it names.

    The primitives are a parameter of every function: a record of total functions that may raise.
    HKDF is the term constructor `Key`, so an AEAD key is exactly the KDF query that made it. */
module Primitives {
  import opened Bytes

  datatype Kex = X25519 | X448 | NullX
  datatype Kem = MLKEM768 | MLKEM1024
  datatype Sig = MLDSA65 | MLDSA87
  datatype Hash = SHA256 | SHA384

  datatype Suite = Suite(id: byte, kex: Kex, kem: Kem, sig: Sig, hash: Hash,
                         ecdhPubLen: nat, kemEkLen: nat, kemDkLen: nat, kemCtLen: nat)

  /** `SUITES` and `_suite`. */
  function SuiteOf(id: byte): (r: Result<Suite>)
    ensures r.Ok? ==> r.value.id == id && id in {1, 2, 3}
    ensures r.Err? ==> r.error == UnknownSuite && id !in {1, 2, 3}
  {
    if id == 1 then Ok(Suite(1, X25519, MLKEM768, MLDSA65, SHA256, 32, 1184, 2400, 1088))
    else if id == 2 then Ok(Suite(2, X448, MLKEM1024, MLDSA87, SHA384, 56, 1568, 3168, 1568))
    else if id == 3 then Ok(Suite(3, NullX, MLKEM1024, MLDSA87, SHA384, 0, 1568, 3168, 1568))
    else Err(UnknownSuite)
  }

  /** HKDF(hash, salt = _COMBINER_SALT, info).derive(ikm): salt and length are constants of the
      program, so the query is the hash, the input keying material and the FixedInfo. */
  datatype Key = Key(hash: Hash, ikm: bytes, info: bytes)

  datatype Prims = Prims(
    rawPublic: (Kex, bytes) -> bytes,
    rawExchange: (Kex, bytes, bytes) -> Result<bytes>,
    kemKeygen: (Kem, bytes) -> (bytes, bytes),
    encaps: (Kem, bytes, bytes) -> Result<(bytes, bytes)>,
    decaps: (Kem, bytes, bytes) -> Result<bytes>,
    sigPublic: (Sig, bytes) -> bytes,
    sign: (Sig, bytes, bytes, bytes, bytes) -> Result<bytes>,
    verify: (Sig, bytes, bytes, bytes, bytes) -> Result<bool>,
    seal: (Key, bytes, bytes, bytes) -> Result<bytes>,
    open: (Key, bytes, bytes, bytes) -> Result<bytes>,
    shake: bytes -> bytes)
  {
    /** `ecdh.public_raw(priv)`: empty for the null classical leg. */
    function Public(kex: Kex, priv: bytes): bytes {
      if kex.NullX? then [] else rawPublic(kex, priv)
    }

    /** `ecdh.exchange(ecdh.from_private(priv), peer)`: the null leg ignores both arguments. */
    function Exchange(kex: Kex, priv: bytes, peer: bytes): Result<bytes> {
      if kex.NullX? then Ok([]) else rawExchange(kex, priv, peer)
    }
  }

  function KexLen(kex: Kex): nat {
    match kex
    case X25519 => 32
    case X448 => 56
    case NullX => 0
  }

  function CtLen(kem: Kem): nat {
    match kem
    case MLKEM768 => 1088
    case MLKEM1024 => 1568
  }

  /** X25519/X448 values have one length and any other peer length is rejected (section 6 of
      RFC 7748); ML-KEM ciphertexts of any other length are rejected and secrets have 32 bytes
      (section 7 of FIPS 203); key-ids are 32 bytes of SHAKE-256. */
  ghost predicate Lengths(p: Prims) {
    && (forall kex: Kex, priv: bytes :: !kex.NullX? ==> |p.rawPublic(kex, priv)| == KexLen(kex))
    && (forall kex: Kex, priv: bytes, peer: bytes :: !kex.NullX? && p.rawExchange(kex, priv, peer).Ok? ==>
          |peer| == KexLen(kex) && |p.rawExchange(kex, priv, peer).value| == KexLen(kex))
    && (forall kem, ek, coins :: p.encaps(kem, ek, coins).Ok? ==>
          |p.encaps(kem, ek, coins).value.0| == 32 && |p.encaps(kem, ek, coins).value.1| == CtLen(kem))
    && (forall kem, dk, ct :: p.decaps(kem, dk, ct).Ok? ==>
          |p.decaps(kem, dk, ct).value| == 32 && |ct| == CtLen(kem))
    && (forall x :: |p.shake(x)| == 32)
  }

  /** Diffie-Hellman commutes (section 6 of RFC 7748) and decapsulation returns the encapsulated
      secret (section 7 of FIPS 203). */
  ghost predicate KeysAgree(p: Prims) {
    && (forall kex, a, b :: p.rawExchange(kex, a, p.rawPublic(kex, b)) == p.rawExchange(kex, b, p.rawPublic(kex, a)))
    && (forall kem, seed, coins :: p.encaps(kem, p.kemKeygen(kem, seed).0, coins).Ok? ==>
          p.decaps(kem, p.kemKeygen(kem, seed).1, p.encaps(kem, p.kemKeygen(kem, seed).0, coins).value.1)
            == Ok(p.encaps(kem, p.kemKeygen(kem, seed).0, coins).value.0))
  }

  /** A signature verifies under its own key (FIPS 204). */
  ghost predicate SignaturesVerify(p: Prims) {
    forall alg, sk, msg, ctx, coins :: p.sign(alg, sk, msg, ctx, coins).Ok? ==>
      p.verify(alg, p.sigPublic(alg, sk), msg, p.sign(alg, sk, msg, ctx, coins).value, ctx) == Ok(true)
  }

  /** AEAD opening inverts sealing (SP 800-38D). */
  ghost predicate AeadOpens(p: Prims) {
    forall k, nonce, pt, aad :: p.seal(k, nonce, pt, aad).Ok? ==>
      p.open(k, nonce, p.seal(k, nonce, pt, aad).value, aad) == Ok(pt)
  }

  ghost predicate Correct(p: Prims) {
    KeysAgree(p) && SignaturesVerify(p) && AeadOpens(p)
  }

  lemma SuiteLengths(id: byte)
    requires SuiteOf(id).Ok?
    ensures var s := SuiteOf(id).value; s.ecdhPubLen == KexLen(s.kex) && s.kemCtLen == CtLen(s.kem)
    ensures SuiteOf(id).value.kex.NullX? <==> id == 3
  {}

  /** The pure suite is suite 2's algorithm set without its classical leg. */
  lemma PureSuiteIsSuiteTwo()
    ensures SuiteOf(2).Ok? && SuiteOf(3).Ok?
    ensures var two, three := SuiteOf(2).value, SuiteOf(3).value;
            three == two.(id := 3, kex := NullX, ecdhPubLen := 0)
  {}

  /** Signatures interoperate between suites exactly when both or neither is suite 1. */
  lemma SchemesShared(a: byte, b: byte)
    requires SuiteOf(a).Ok? && SuiteOf(b).Ok?
    ensures SuiteOf(a).value.sig == SuiteOf(b).value.sig <==> (a == 1 <==> b == 1)
  {}
}
