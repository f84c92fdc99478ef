/** What `seal_stream` and `open_stream` promise together: chunking loses nothing, sealing succeeds
    exactly in range, and opening inverts sealing for every plaintext and chunk size. */
module StreamTheorems {
  import opened Bytes
  import opened Framing
  import opened Primitives
  import opened Combiner
  import opened Sessions
  import opened Shield
  import opened Stream
  import ST = ShieldTheorems
  import K = KeyBundle

  /** The chunks concatenate to the plaintext, and none is longer than the chunk size. */
  lemma {:induction false} ChunksConcat(m: bytes, c: nat)
    requires c > 0
    ensures Concat(Chunks(m, c)) == m
    ensures forall i :: 0 <= i < |Chunks(m, c)| ==> |Chunks(m, c)[i]| <= c
    decreases |m|
  {
    if |m| <= c {
      assert [m][1..] == [] && m + [] == m;
    } else {
      ChunksConcat(m[c..], c);
      assert Chunks(m, c)[1..] == Chunks(m[c..], c);
      assert m == m[..c] + m[c..];
    }
  }

  /** All chunks but the last are full and the last is empty only for the empty plaintext, so there
      are max(1, ceil(|m| / c)) of them. */
  lemma {:induction false} ChunksPartition(m: bytes, c: nat)
    requires c > 0
    ensures var cs := Chunks(m, c);
            && (forall i :: 0 <= i < |cs| - 1 ==> |cs[i]| == c)
            && (|cs| - 1) * c + |cs[|cs| - 1]| == |m|
            && (m != [] ==> cs[|cs| - 1] != [])
    decreases |m|
  {
    var cs := Chunks(m, c);
    if |m| > c {
      var tail := Chunks(m[c..], c);
      ChunksPartition(m[c..], c);
      assert cs == [m[..c]] + tail;
      OneMore(|tail| - 1, c);
    }
  }

  lemma OneMore(k: int, c: int)
    ensures (k + 1) * c == k * c + c
  {}

  /** AES-256-GCM on its whole domain: a nonce of 8 to 128 bytes always seals, adding a 16-byte tag. */
  ghost predicate GcmTotal(p: Prims) {
    forall key, nonce, pt, aad :: 8 <= |nonce| <= 128 ==>
      p.seal(key, nonce, pt, aad).Ok? && |p.seal(key, nonce, pt, aad).value| == |pt| + 16
  }

  lemma {:induction false} SealBlobsSucceeds(p: Prims, key: Key, base: bytes, header: bytes, chunks: seq<bytes>, i: nat)
    requires GcmTotal(p) && |base| == 7 && i <= |chunks| <= 0xFFFF_FFFF
    ensures SealBlobs(p, key, base, header, chunks, i).Ok? <==>
            forall j :: i <= j < |chunks| ==> |chunks[j]| + 16 < 0x1_0000_0000
    decreases |chunks| - i
  {
    if i < |chunks| {
      SealBlobsSucceeds(p, key, base, header, chunks, i + 1);
      var ctr := Ctr(i, i == |chunks| - 1);
      assert |base + ctr| == 12;
      assert p.seal(key, base + ctr, chunks[i], header + ctr).Ok?;
    }
  }

  /** Once a key is derived, sealing the chunks succeeds exactly when the chunk count is in range and
      the longest chunk with its tag fits the u32 length. */
  lemma SealChunksSucceeds(p: Prims, head: Head, ssc: bytes, sspq: bytes, key: Key, m: bytes, c: nat)
    requires GcmTotal(p) && |head.t.nonce| == 7 && AllShort(head.Fields()) && c > 0
    ensures SealChunks(p, head, ssc, sspq, key, Chunks(m, c)).Ok? <==>
            |Chunks(m, c)| <= 0xFFFF_FFFF && (if c < |m| then c else |m|) + 16 < 0x1_0000_0000
  {
    var cs := Chunks(m, c);
    ChunksConcat(m, c);
    if |cs| <= 0xFFFF_FFFF {
      SealBlobsSucceeds(p, key, head.t.nonce, PrintHead(head), cs, 0);
      if |m| <= c { assert cs == [m]; } else { assert |cs[0]| == c by { assert cs[0] == m[..c]; } }
    }
  }

  lemma {:induction false} OpenSealed(p: Prims, key: Key, base: bytes, header: bytes, chunks: seq<bytes>,
                                      blobs: seq<bytes>, i: nat)
    requires Correct(p) && i <= |chunks| == |blobs| <= 0xFFFF_FFFF
    requires SealBlobs(p, key, base, header, chunks, i) == Ok(blobs[i..])
    ensures OpenBlobs(p, key, base, header, blobs, i) == Ok(Concat(chunks[i..]))
    decreases |chunks| - i
  {
    if i < |chunks| {
      var ctr := Ctr(i, i == |chunks| - 1);
      var rest := SealBlobs(p, key, base, header, chunks, i + 1);
      assert blobs[i..] == [blobs[i]] + blobs[i + 1..];
      assert [SealBlob(p, key, base + ctr, chunks[i], header + ctr).value] + rest.value == blobs[i..];
      assert rest.value == blobs[i + 1..];
      OpenSealed(p, key, base, header, chunks, blobs, i + 1);
      assert p.open(key, base + ctr, blobs[i], header + ctr) == Ok(chunks[i]);
      assert chunks[i..] == [chunks[i]] + chunks[i + 1..];
    }
  }

  /** What a successful `seal_stream` computed. */
  lemma SealStreamInverts(p: Prims, m: bytes, pub: bytes, chunkSize: int, c: Coins)
    returns (rb: K.Bundle, suite: Suite, head: Head)
    requires SealStream(p, m, pub, chunkSize, c).Ok?
    ensures var s := SealStream(p, m, pub, chunkSize, c).value;
      && 1 <= chunkSize
      && ParseParts(p, pub, K.ROLE_KEM_PUB, 2) == Ok(rb) && SuiteOf(rb.suite) == Ok(suite)
      && p.Exchange(suite.kex, c.eph, rb.parts[0]) == Ok(s.ssc)
      && p.encaps(suite.kem, rb.parts[1], c.kem) == Ok((s.sspq, s.t.ct))
      && s.t == Transcript(rb.suite, 0, rb.kid, p.Public(suite.kex, c.eph), s.t.ct, c.nonce)
      && head == Head(s.t, U32(chunkSize)) && head.Printable() && AllShort(head.Fields())
      && s.senderKid == [] && s.signer == None && s.ppk == []
      && DeriveKey(suite, Legs(s.ssc, s.sspq, []), PreAuth(s.t), []) == Ok(s.key)
      && s.header == PrintHead(head)
      && SealBlobs(p, s.key, s.t.nonce, s.header, s.plain, 0) == Ok(s.sealed)
  {
    rb := ParseParts(p, pub, K.ROLE_KEM_PUB, 2).value;
    suite := SuiteOf(rb.suite).value;
    var (sspq, ct) := p.encaps(suite.kem, rb.parts[1], c.kem).value;
    head := Head(Transcript(rb.suite, 0, rb.kid, p.Public(suite.kex, c.eph), ct, c.nonce), U32(chunkSize));
    var f := head.Fields();
    assert |f[0]| <= 0xFFFF && |f[1]| <= 0xFFFF && |f[2]| <= 0xFFFF && |f[3]| <= 0xFFFF;
  }

  /** On its own stream `open_stream` reaches the sealing key, whatever its opening primitive is. */
  lemma OwnStreamPlan(p: Prims, o: Prims, m: bytes, id: byte, xPriv: bytes, seed: bytes, chunkSize: int, c: Coins)
    returns (head: Head)
    requires KeysAgree(p) && ST.SameKeys(p, o) && K.RecipientKeys(p, id, xPriv, seed).Ok?
    requires var (pub, priv) := K.RecipientKeys(p, id, xPriv, seed).value;
             K.Printable(pub) && K.Printable(priv) && SealStream(p, m, K.Print(pub), chunkSize, c).Ok?
    ensures var (pub, priv) := K.RecipientKeys(p, id, xPriv, seed).value;
            var s := SealStream(p, m, K.Print(pub), chunkSize, c).value;
            && head.t == s.t && AllShort(head.Fields()) && head.Printable() && s.header == PrintHead(head)
                 && SuiteOf(s.t.suite).Ok?
            && PlanStream(o, Output(s), K.Print(priv))
                 == Ok(StreamPlan(head, StreamSecrets(s.ssc, s.sspq, s.key), FlatBlobs(s.sealed)))
            && OpenStream(o, Output(s), K.Print(priv)) == OpenBlobs(o, s.key, s.t.nonce, s.header, s.sealed, 0)
            && s.plain == Chunks(m, chunkSize) && SealBlobs(p, s.key, s.t.nonce, s.header, s.plain, 0) == Ok(s.sealed)
  {
    var (pub, priv) := K.RecipientKeys(p, id, xPriv, seed).value;
    K.ParseIff(p, K.Print(pub), K.ROLE_KEM_PUB, pub);
    K.ParseIff(o, K.Print(priv), K.ROLE_KEM_PRIV, priv);
    var rb, suite, h := SealStreamInverts(p, m, K.Print(pub), chunkSize, c);
    head := h;
    var s := SealStream(p, m, K.Print(pub), chunkSize, c).value;
    assert rb == pub;
    ST.SecretsAgree(p, id, xPriv, seed, c.eph, c.kem);
    ParseHeadIff(Output(s), head, FlatBlobs(s.sealed));
    assert MatchRecipient(o, K.Print(priv), head.t.suite, head.t.kid) == Ok(priv);
    assert StreamKey(o, head.t, K.Print(priv)) == Ok(StreamSecrets(s.ssc, s.sspq, s.key));
    TakeBlobsIff(FlatBlobs(s.sealed), s.sealed);
  }

  /** Stream round trip: whatever `seal_stream` returns for generated keys opens to the plaintext, for
      every plaintext (the empty one included) and every chunk size. */
  lemma StreamRoundTrip(p: Prims, m: bytes, id: byte, xPriv: bytes, seed: bytes, chunkSize: int, c: Coins)
    requires Correct(p) && K.RecipientKeys(p, id, xPriv, seed).Ok?
    requires var (pub, priv) := K.RecipientKeys(p, id, xPriv, seed).value;
             K.Printable(pub) && K.Printable(priv) && SealStream(p, m, K.Print(pub), chunkSize, c).Ok?
    ensures var (pub, priv) := K.RecipientKeys(p, id, xPriv, seed).value;
            OpenStream(p, Output(SealStream(p, m, K.Print(pub), chunkSize, c).value), K.Print(priv)) == Ok(m)
  {
    var head := OwnStreamPlan(p, p, m, id, xPriv, seed, chunkSize, c);
    var pub := K.RecipientKeys(p, id, xPriv, seed).value.0;
    var s := SealStream(p, m, K.Print(pub), chunkSize, c).value;
    assert s.sealed[0..] == s.sealed && s.plain[0..] == s.plain;
    OpenSealed(p, s.key, s.t.nonce, s.header, s.plain, s.sealed, 0);
    ChunksConcat(m, chunkSize);
  }

  /** Chunk `i` of an accepted stream was opened at its own position. */
  ghost predicate OpenedAt(p: Prims, key: Key, base: bytes, header: bytes, blobs: seq<bytes>, pts: seq<bytes>, i: nat)
    requires i < |blobs| == |pts| <= 0x1_0000_0000
  {
    var ctr := Ctr(i, i == |blobs| - 1);
    p.open(key, base + ctr, blobs[i], header + ctr) == Ok(pts[i])
  }

  /** An accepted list of chunks was opened position by position. */
  lemma {:induction false} OpenBlobsInverts(p: Prims, key: Key, base: bytes, header: bytes, blobs: seq<bytes>, i: nat)
    returns (pts: seq<bytes>)
    requires i < |blobs| && OpenBlobs(p, key, base, header, blobs, i).Ok?
    ensures |pts| == |blobs| <= 0x1_0000_0000
    ensures OpenBlobs(p, key, base, header, blobs, i) == Ok(Concat(pts[i..]))
    ensures forall j :: i <= j < |blobs| ==> OpenedAt(p, key, base, header, blobs, pts, j)
    decreases |blobs| - i
  {
    var ctr := Ctr(i, i == |blobs| - 1);
    var m := p.open(key, base + ctr, blobs[i], header + ctr).value;
    if i == |blobs| - 1 {
      pts := seq(|blobs|, _ => m);
      assert pts[i..] == [m] && pts[i..][1..] == [];
      assert OpenBlobs(p, key, base, header, blobs, i + 1) == Ok([]);
    } else {
      var tail := OpenBlobsInverts(p, key, base, header, blobs, i + 1);
      pts := tail[i := m];
      assert pts[i..] == [m] + tail[i + 1..];
      assert pts[i..][1..] == tail[i + 1..];
      forall j | i <= j < |blobs| ensures OpenedAt(p, key, base, header, blobs, pts, j) {
        if j > i { assert OpenedAt(p, key, base, header, blobs, tail, j); }
      }
    }
  }

  /** Chunks that open position by position open together. */
  lemma {:induction false} OpenBlobsForward(p: Prims, key: Key, base: bytes, header: bytes, blobs: seq<bytes>,
                                            pts: seq<bytes>, i: nat)
    requires i <= |blobs| == |pts| <= 0x1_0000_0000
    requires forall j :: i <= j < |blobs| ==> OpenedAt(p, key, base, header, blobs, pts, j)
    ensures OpenBlobs(p, key, base, header, blobs, i) == Ok(Concat(pts[i..]))
    decreases |blobs| - i
  {
    if i < |blobs| {
      assert OpenedAt(p, key, base, header, blobs, pts, i);
      OpenBlobsForward(p, key, base, header, blobs, pts, i + 1);
      assert pts[i..] == [pts[i]] + pts[i + 1..];
    }
  }
}
