/** When the sealing procedures of vorlath_shield/shield.py return at all: `encrypt` and `seal_stream` for
    every input, the errors they raise otherwise, and, from there, delivery between generated keys with
    nothing left to assume about what was returned. */
module Outcomes {
  import opened Bytes
  import opened Framing
  import opened Primitives
  import opened Combiner
  import opened Sessions
  import opened Shield
  import E = Envelope
  import K = KeyBundle
  import RT = ShieldTheorems
  import S = Stream
  import ST = StreamTheorems

  // ---------------------------------------------------------------- encrypt

  /** The sender arguments are absent, or the private bundle parses to one part and its key signs. */
  predicate SenderSigns(p: Prims, alg: Sig, preAuth: bytes, sk: Option<bytes>, pk: Option<bytes>, coins: bytes) {
    sk.Some? ==>
      && pk.Some?
      && var kb := ParseParts(p, sk.value, K.ROLE_SIG_PRIV, 1);
      && kb.Ok? && p.sign(alg, kb.value.parts[0], preAuth + kb.value.kid, AuthCtx(), coins).Ok?
  }

  /** And key-id, public bundle and signature, each behind two length bytes, fit the sender block. */
  predicate SenderReady(p: Prims, alg: Sig, preAuth: bytes, sk: Option<bytes>, pk: Option<bytes>, coins: bytes) {
    && SenderSigns(p, alg, preAuth, sk, pk, coins)
    && (sk.Some? ==>
         var kb := ParseParts(p, sk.value, K.ROLE_SIG_PRIV, 1).value;
         var sig := p.sign(alg, kb.parts[0], preAuth + kb.kid, AuthCtx(), coins).value;
         |kb.kid| + |pk.value| + |sig| + 6 <= 0xFFFF)
  }

  lemma HandshakeReady(p: Prims, s: Suite, preAuth: bytes, sk: Option<bytes>, pk: Option<bytes>, coins: bytes)
    ensures var signed := SignHandshake(p, s, preAuth, sk, pk, coins);
            && (SenderReady(p, s.sig, preAuth, sk, pk, coins) <==> signed.Ok? && |signed.value.block| <= 0xFFFF)
            && (SenderSigns(p, s.sig, preAuth, sk, pk, coins) && signed.Err? ==> signed == Err(TlvTooLong))
            && (sk.Some? && pk.None? ==> signed == Err(SenderPublicMissing))
            && (sk.None? ==> signed == Ok(Signed([], [], None)))
  {
    if sk.Some? && pk.Some? {
      var kb := ParseParts(p, sk.value, K.ROLE_SIG_PRIV, 1);
      if kb.Ok? {
        var sig := p.sign(s.sig, kb.value.parts[0], preAuth + kb.value.kid, AuthCtx(), coins);
        if sig.Ok? && |kb.value.kid| <= 0xFFFF && |pk.value| <= 0xFFFF && |sig.value| <= 0xFFFF {
          FlatThree(kb.value.kid, pk.value, sig.value);
        }
      }
    }
  }

  /** Both pre-shared key and plaintext fit what frames them. */
  predicate InRange(ppk: bytes, m: bytes) {
    |ppk| <= 0xFFFF && |m| + 16 < 0x1_0000_0000
  }

  lemma SessionReturns(p: Prims, s: Suite, t: Transcript, signed: Signed, ssc: bytes, sspq: bytes, ppk: bytes, m: bytes)
    requires ST.GcmTotal(p) && |t.nonce| == 12 && |t.kid| <= 0xFFFF && |t.eph| <= 0xFFFF && |t.ct| <= 0xFFFF
    requires |ssc| <= 0xFFFF && |sspq| <= 0xFFFF
    ensures var r := SealSession(p, s, t, signed, ssc, sspq, ppk, m);
            && (r.Ok? <==> |signed.block| <= 0xFFFF && InRange(ppk, m))
            && (|signed.block| > 0xFFFF ==> r == Err(TlvTooLong))
            && (|signed.block| <= 0xFFFF && !InRange(ppk, m) ==> r == Err(PackRange))
  {
    var fields, legs := [t.kid, t.eph, t.ct, t.nonce, signed.block], Legs(ssc, sspq, ppk);
    assert fields[4] == signed.block;
    assert forall i :: 0 <= i < |legs| ==> legs[i] == ssc || legs[i] == sspq || legs[i] == ppk;
    assert ppk != [] ==> legs[2] == ppk;
    if |signed.block| <= 0xFFFF && |ppk| <= 0xFFFF {
      var key, header := DeriveKey(s, legs, PreAuth(t), signed.kid).value, E.HeaderOf(t.suite, t.flags, fields);
      assert p.seal(key, t.nonce, m, header).Ok? && |p.seal(key, t.nonce, m, header).value| == |m| + 16;
    }
  }

  /** The transcript of one `encrypt`, with the flag bits spelt out. */
  function Handshake(p: Prims, rb: K.Bundle, s: Suite, sk: Option<bytes>, ppk: Option<bytes>, ct: bytes,
                     c: Coins): Transcript {
    var flags := if sk.Some? then (if Given(ppk) != [] then 3 else 1) else (if Given(ppk) != [] then 2 else 0);
    Transcript(rb.suite, flags, rb.kid, p.Public(s.kex, c.eph), ct, c.nonce)
  }

  /** When `encrypt` returns.  To a recipient bundle that parses, with the exchange and the encapsulation
      returning: exactly when the sender arguments work, the pre-shared key has at most 65535 bytes and
      plaintext and tag fit a u32.  A missing public bundle, a sender block that does not fit, and a length
      out of range have errors of their own. */
  lemma EncryptReturns(p: Prims, m: bytes, pub: bytes, sk: Option<bytes>, pk: Option<bytes>, ppk: Option<bytes>,
                       c: Coins, rb: K.Bundle, s: Suite, ssc: bytes, sspq: bytes, ct: bytes)
    requires Lengths(p) && ST.GcmTotal(p) && |c.nonce| == 12
    requires ParseParts(p, pub, K.ROLE_KEM_PUB, 2) == Ok(rb) && SuiteOf(rb.suite) == Ok(s)
    requires p.Exchange(s.kex, c.eph, rb.parts[0]) == Ok(ssc) && p.encaps(s.kem, rb.parts[1], c.kem) == Ok((sspq, ct))
    ensures var r, preAuth := Encrypt(p, m, pub, sk, pk, ppk, c), PreAuth(Handshake(p, rb, s, sk, ppk, ct, c));
            var ready := SenderReady(p, s.sig, preAuth, sk, pk, c.sig);
            && (r.Ok? <==> ready && InRange(Given(ppk), m))
            && (ready && !InRange(Given(ppk), m) ==> r == Err(PackRange))
            && (SenderSigns(p, s.sig, preAuth, sk, pk, c.sig) && !ready ==> r == Err(TlvTooLong))
            && (sk.Some? && pk.None? ==> r == Err(SenderPublicMissing))
  {
    var t := Handshake(p, rb, s, sk, ppk, ct, c);
    assert t == Transcript(rb.suite, SealFlags(sk.Some?, ppk), rb.kid, p.Public(s.kex, c.eph), ct, c.nonce);
    assert |rb.kid| == 32 by { assert K.KidMatches(p, rb) by { K.ParseIff(p, pub, K.ROLE_KEM_PUB, rb); } }
    HandshakeReady(p, s, PreAuth(t), sk, pk, c.sig);
    var signed := SignHandshake(p, s, PreAuth(t), sk, pk, c.sig);
    if signed.Ok? { SessionReturns(p, s, t, signed.value, ssc, sspq, Given(ppk), m); }
  }

  /** `encrypt` to a generated recipient: it returns exactly when exchange and encapsulation do and the
      conditions of `EncryptReturns` hold. */
  lemma EncryptSucceeds(p: Prims, m: bytes, id: byte, xPriv: bytes, seed: bytes, pub: K.Bundle, priv: K.Bundle,
                        sk: Option<bytes>, pk: Option<bytes>, ppk: Option<bytes>, c: Coins)
    requires Lengths(p) && ST.GcmTotal(p) && |c.nonce| == 12
    requires K.RecipientKeys(p, id, xPriv, seed) == Ok((pub, priv)) && K.Printable(pub)
    ensures SuiteOf(id).Ok? && |pub.parts| == 2
    ensures var s := SuiteOf(id).value;
            var ssc, enc := p.Exchange(s.kex, c.eph, pub.parts[0]), p.encaps(s.kem, pub.parts[1], c.kem);
            Encrypt(p, m, K.Print(pub), sk, pk, ppk, c).Ok? <==>
              && ssc.Ok? && enc.Ok? && InRange(Given(ppk), m)
              && SenderReady(p, s.sig, PreAuth(Handshake(p, pub, s, sk, ppk, enc.value.1, c)), sk, pk, c.sig)
  {
    K.ParseComplete(p, pub);
    var s := SuiteOf(id).value;
    var ssc, enc := p.Exchange(s.kex, c.eph, pub.parts[0]), p.encaps(s.kem, pub.parts[1], c.kem);
    if ssc.Ok? && enc.Ok? {
      EncryptReturns(p, m, K.Print(pub), sk, pk, ppk, c, pub, s, ssc.value, enc.value.0, enc.value.1);
    }
  }

  // ---------------------------------------------------------------- seal_stream

  /** No library raises the program's own error about chunk sizes. */
  ghost predicate NoSizeError(p: Prims) {
    && (forall kex, a, b :: p.rawExchange(kex, a, b) != Err(ChunkSizeOutOfRange))
    && (forall kem, ek, coins :: p.encaps(kem, ek, coins) != Err(ChunkSizeOutOfRange))
    && (forall key, nonce, pt, aad :: p.seal(key, nonce, pt, aad) != Err(ChunkSizeOutOfRange))
  }

  lemma {:induction false} PartsNoSizeError(s: bytes)
    ensures TakeTlvs(s) != Err(ChunkSizeOutOfRange)
    decreases |s|
  {
    if s != [] && TakeTlv(s).Ok? { PartsNoSizeError(TakeTlv(s).value.1); }
  }

  lemma {:induction false} BlobsNoSizeError(p: Prims, key: Key, base: bytes, header: bytes, chunks: seq<bytes>, i: nat)
    requires NoSizeError(p) && i <= |chunks| <= 0xFFFF_FFFF
    ensures S.SealBlobs(p, key, base, header, chunks, i) != Err(ChunkSizeOutOfRange)
    decreases |chunks| - i
  {
    if i < |chunks| { BlobsNoSizeError(p, key, base, header, chunks, i + 1); }
  }

  /** The chunk sizes `seal_stream` takes: it raises its range error for every size outside 1 to 2^32 - 1,
      whatever the other arguments, and for no other size. */
  lemma SizeRange(p: Prims, m: bytes, pub: bytes, chunkSize: int, c: Coins)
    requires NoSizeError(p)
    ensures S.SealStream(p, m, pub, chunkSize, c) == Err(ChunkSizeOutOfRange)
       <==> chunkSize < 1 || chunkSize > 0xFFFF_FFFF
  {
    if |pub| >= 7 && TakeTlv(pub[7..]).Ok? { PartsNoSizeError(TakeTlv(pub[7..]).value.1); }
    assert K.Parse(p, pub, K.ROLE_KEM_PUB) != Err(ChunkSizeOutOfRange);
    if 1 <= chunkSize <= 0xFFFF_FFFF {
      var rb := ParseParts(p, pub, K.ROLE_KEM_PUB, 2);
      if rb.Ok? && SuiteOf(rb.value.suite).Ok? {
        var s := SuiteOf(rb.value.suite).value;
        var ssc, enc := p.Exchange(s.kex, c.eph, rb.value.parts[0]), p.encaps(s.kem, rb.value.parts[1], c.kem);
        if ssc.Ok? && enc.Ok? {
          ChunksNoSizeError(p, StreamHead(p, rb.value, s, enc.value.1, chunkSize, c), s, ssc.value, enc.value.0, m,
                            chunkSize);
        }
      }
    }
  }

  function StreamHead(p: Prims, rb: K.Bundle, s: Suite, ct: bytes, chunkSize: nat, c: Coins): S.Head
    requires chunkSize <= 0xFFFF_FFFF
  {
    S.Head(Transcript(rb.suite, 0, rb.kid, p.Public(s.kex, c.eph), ct, c.nonce), U32(chunkSize))
  }

  lemma ChunksNoSizeError(p: Prims, head: S.Head, s: Suite, ssc: bytes, sspq: bytes, m: bytes, chunkSize: nat)
    requires NoSizeError(p) && chunkSize > 0
    ensures var key := DeriveKey(s, Legs(ssc, sspq, []), PreAuth(head.t), []);
            AllShort(head.Fields()) && key.Ok? ==>
              S.SealChunks(p, head, ssc, sspq, key.value, S.Chunks(m, chunkSize)) != Err(ChunkSizeOutOfRange)
  {
    var key, chunks := DeriveKey(s, Legs(ssc, sspq, []), PreAuth(head.t), []), S.Chunks(m, chunkSize);
    if AllShort(head.Fields()) && key.Ok? && |chunks| <= 0xFFFF_FFFF {
      BlobsNoSizeError(p, key.value, head.t.nonce, S.PrintHead(head), chunks, 0);
    }
  }

  /** At most `n` chunks exactly when the plaintext fits in `n` full ones. */
  lemma ChunkCount(m: bytes, c: nat, n: nat)
    requires c > 0 && n > 0
    ensures |S.Chunks(m, c)| <= n <==> |m| <= c * n
  {
    var cs := S.Chunks(m, c);
    ST.ChunksPartition(m, c);
    ST.ChunksConcat(m, c);
    FullRows(|cs| - 1, |cs[|cs| - 1]|, c, n);
  }

  /** `k` full rows and a last one fit in `n` rows exactly when there are less than `n` full ones. */
  lemma FullRows(k: nat, last: nat, c: nat, n: nat)
    requires last <= c && (k > 0 ==> last > 0) && n > 0
    ensures k < n <==> k * c + last <= c * n
  {
    if k < n {
      Monotone(k + 1, n, c);
      ST.OneMore(k, c);
    } else {
      Monotone(n, k, c);
    }
  }

  lemma Monotone(a: nat, b: nat, c: nat)
    requires a <= b
    ensures a * c <= c * b
  {
    assert c * b == a * c + (b - a) * c;
  }

  /** When `seal_stream` returns.  To a generated recipient, with the exchange and the encapsulation
      returning: exactly for a chunk size from 1 to 2^32 - 1 that cuts the plaintext into at most 2^32 - 1
      chunks, of which the longest fits a u32 with its tag. */
  lemma SealStreamSucceeds(p: Prims, m: bytes, id: byte, xPriv: bytes, seed: bytes, pub: K.Bundle, priv: K.Bundle,
                           chunkSize: int, c: Coins)
    requires Lengths(p) && ST.GcmTotal(p) && |c.nonce| == 7
    requires K.RecipientKeys(p, id, xPriv, seed) == Ok((pub, priv)) && K.Printable(pub)
    ensures SuiteOf(id).Ok? && |pub.parts| == 2
    ensures var s := SuiteOf(id).value;
            S.SealStream(p, m, K.Print(pub), chunkSize, c).Ok? <==>
              && p.Exchange(s.kex, c.eph, pub.parts[0]).Ok? && p.encaps(s.kem, pub.parts[1], c.kem).Ok?
              && 1 <= chunkSize <= 0xFFFF_FFFF && |m| <= chunkSize * 0xFFFF_FFFF
              && (if chunkSize < |m| then chunkSize else |m|) + 16 < 0x1_0000_0000
  {
    K.ParseComplete(p, pub);
    var s := SuiteOf(id).value;
    var ssc, enc := p.Exchange(s.kex, c.eph, pub.parts[0]), p.encaps(s.kem, pub.parts[1], c.kem);
    if 1 <= chunkSize <= 0xFFFF_FFFF && ssc.Ok? && enc.Ok? {
      StreamReturns(p, m, K.Print(pub), chunkSize, c, pub, s, ssc.value, enc.value.0, enc.value.1);
      ChunkCount(m, chunkSize, 0xFFFF_FFFF);
    }
  }

  lemma StreamReturns(p: Prims, m: bytes, pub: bytes, chunkSize: int, c: Coins, rb: K.Bundle, s: Suite, ssc: bytes,
                      sspq: bytes, ct: bytes)
    requires Lengths(p) && ST.GcmTotal(p) && |c.nonce| == 7 && 1 <= chunkSize <= 0xFFFF_FFFF
    requires ParseParts(p, pub, K.ROLE_KEM_PUB, 2) == Ok(rb) && SuiteOf(rb.suite) == Ok(s)
    requires p.Exchange(s.kex, c.eph, rb.parts[0]) == Ok(ssc) && p.encaps(s.kem, rb.parts[1], c.kem) == Ok((sspq, ct))
    ensures S.SealStream(p, m, pub, chunkSize, c).Ok? <==>
            && |S.Chunks(m, chunkSize)| <= 0xFFFF_FFFF
            && (if chunkSize < |m| then chunkSize else |m|) + 16 < 0x1_0000_0000
    ensures |S.Chunks(m, chunkSize)| > 0xFFFF_FFFF <==> S.SealStream(p, m, pub, chunkSize, c) == Err(TooManyChunks)
  {
    var head := StreamHead(p, rb, s, ct, chunkSize, c);
    assert |rb.kid| == 32 by { assert K.KidMatches(p, rb) by { K.ParseIff(p, pub, K.ROLE_KEM_PUB, rb); } }
    assert AllShort(head.Fields());
    assert Legs(ssc, sspq, []) == [ssc, sspq];
    var key := DeriveKey(s, Legs(ssc, sspq, []), PreAuth(head.t), []);
    assert key.Ok?;
    ST.SealChunksSucceeds(p, head, ssc, sspq, key.value, m, chunkSize);
  }
}
