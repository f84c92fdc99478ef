/** The `VRST` stream of vorlath_shield/shield.py: `seal_stream`, `open_stream`, and their round
    trip. */
module Stream {
  import opened Bytes
  import opened Framing
  import opened Primitives
  import opened Combiner
  import opened Sessions
  import opened Shield
  import K = KeyBundle

  const STREAM_MAGIC: bytes := [0x56, 0x52, 0x53, 0x54] // "VRST"
  const VERSION: byte := 2

  /** The stream header; `size` holds the four bytes of the advisory chunk size. */
  datatype Head = Head(t: Transcript, size: bytes)
  {
    function Fields(): seq<bytes> {
      [t.kid, t.eph, t.ct, t.nonce]
    }

    ghost predicate Printable() {
      |t.kid| <= 0xFFFF && |t.eph| <= 0xFFFF && |t.ct| <= 0xFFFF && |t.nonce| <= 0xFFFF && |size| == 4
    }
  }

  function PrintHead(h: Head): bytes
    requires AllShort(h.Fields())
  {
    STREAM_MAGIC + [VERSION, h.t.suite, h.t.flags] + FlatTlv(h.Fields()) + h.size
  }

  /** The header parse of `open_stream`: the header and the bytes after it. */
  function ParseHead(x: bytes): Result<(Head, bytes)> {
    if |x| < 7 || x[..4] != STREAM_MAGIC then Err(NotAStream)
    else if x[4] != VERSION then Err(UnsupportedStreamVersion)
    else
      var _ :- SuiteOf(x[5]);
      var (f, rest) :- TakeFields(x[7..], 4);
      if |rest| < 4 then Err(TruncatedStreamHeader)
      else Ok((Head(Transcript(x[5], x[6], f[0], f[1], f[2], f[3]), rest[..4]), rest[4..]))
  }

  lemma ParseHeadSound(x: bytes)
    requires ParseHead(x).Ok?
    ensures var (h, rest) := ParseHead(x).value;
            h.Printable() && SuiteOf(h.t.suite).Ok? && AllShort(h.Fields()) && x == PrintHead(h) + rest
  {
    var (h, rest) := ParseHead(x).value;
    var (f, tail) := TakeFields(x[7..], 4).value;
    TakeFieldsSound(x[7..], 4);
    assert h.Fields() == f;
    assert |f[0]| <= 0xFFFF && |f[1]| <= 0xFFFF && |f[2]| <= 0xFFFF && |f[3]| <= 0xFFFF;
    assert tail == h.size + rest;
    var prefix := STREAM_MAGIC + [VERSION, h.t.suite, h.t.flags];
    PrefixSplit(x);
    Reassociate(prefix, FlatTlv(f), h.size, rest);
  }

  lemma ParseHeadComplete(h: Head, rest: bytes)
    requires h.Printable() && SuiteOf(h.t.suite).Ok? && AllShort(h.Fields())
    ensures ParseHead(PrintHead(h) + rest) == Ok((h, rest))
  {
    var x := PrintHead(h) + rest;
    var prefix := STREAM_MAGIC + [VERSION, h.t.suite, h.t.flags];
    var tail := FlatTlv(h.Fields()) + (h.size + rest);
    assert x == prefix + tail;
    assert x[..4] == STREAM_MAGIC && x[4] == VERSION && x[5] == h.t.suite && x[6] == h.t.flags && x[7..] == tail;
    TakeFieldsComplete(h.Fields(), h.size + rest);
  }

  /** Stream header bijection. */
  lemma ParseHeadIff(x: bytes, h: Head, rest: bytes)
    ensures ParseHead(x) == Ok((h, rest)) <==>
            h.Printable() && SuiteOf(h.t.suite).Ok? && AllShort(h.Fields()) && x == PrintHead(h) + rest
  {
    if ParseHead(x) == Ok((h, rest)) { ParseHeadSound(x); }
    if h.Printable() && SuiteOf(h.t.suite).Ok? && AllShort(h.Fields()) && x == PrintHead(h) + rest {
      ParseHeadComplete(h, rest);
    }
  }

  // ---------------------------------------------------------------- seal_stream

  /** `[plaintext[i:i + c] for i in range(0, len(plaintext), c)] or [b""]`. */
  function Chunks(m: bytes, c: nat): (cs: seq<bytes>)
    requires c > 0
    ensures |cs| > 0
    decreases |m|
  {
    if |m| <= c then [m] else [m[..c]] + Chunks(m[c..], c)
  }

  /** Chunk `i` and every later one, each sealed under its own counter and final flag. */
  function SealBlobs(p: Prims, key: Key, base: bytes, header: bytes, chunks: seq<bytes>,
                     i: nat): (r: Result<seq<bytes>>)
    requires i <= |chunks| <= 0xFFFF_FFFF
    ensures r.Ok? ==> |r.value| == |chunks| - i && AllBlobs(r.value)
    decreases |chunks| - i
  {
    if i == |chunks| then Ok([])
    else
      var ctr := Ctr(i, i == |chunks| - 1);
      var sealed :- SealBlob(p, key, base + ctr, chunks[i], header + ctr);
      var rest :- SealBlobs(p, key, base, header, chunks, i + 1);
      Ok([sealed] + rest)
  }

  /** `seal_stream`, returning everything it computed. */
  function SealStream(p: Prims, m: bytes, pub: bytes, chunkSize: int, c: Coins): (r: Result<Session>)
    ensures r.Ok? ==> Sound(r.value) && r.value.stream && 1 <= chunkSize && r.value.plain == Chunks(m, chunkSize)
  {
    if !(1 <= chunkSize <= 0xFFFF_FFFF) then Err(ChunkSizeOutOfRange)
    else
      var rb :- ParseParts(p, pub, K.ROLE_KEM_PUB, 2);
      var s :- SuiteOf(rb.suite);
      var eph := p.Public(s.kex, c.eph);
      var ssc :- p.Exchange(s.kex, c.eph, rb.parts[0]);
      var (sspq, ct) :- p.encaps(s.kem, rb.parts[1], c.kem);
      var head := Head(Transcript(rb.suite, 0, rb.kid, eph, ct, c.nonce), U32(chunkSize));
      if exists i :: 0 <= i < 4 && |head.Fields()[i]| > 0xFFFF then Err(TlvTooLong)
      else
        var key :- DeriveKey(s, Legs(ssc, sspq, []), PreAuth(head.t), []);
        SealChunks(p, head, ssc, sspq, key, Chunks(m, chunkSize))
  }

  function SealChunks(p: Prims, head: Head, ssc: bytes, sspq: bytes, key: Key, chunks: seq<bytes>): (r: Result<Session>)
    requires AllShort(head.Fields()) && |chunks| > 0
    ensures r.Ok? ==> Sound(r.value) && r.value.stream && r.value.plain == chunks
  {
    if |chunks| > 0xFFFF_FFFF then Err(TooManyChunks)
    else
      var sealed :- SealBlobs(p, key, head.t.nonce, PrintHead(head), chunks, 0);
      Ok(Session(true, head.t, [], None, ssc, sspq, [], key, PrintHead(head), chunks, sealed))
  }

  // ---------------------------------------------------------------- open_stream

  datatype StreamSecrets = StreamSecrets(ssc: bytes, sspq: bytes, key: Key)

  /** The cross-checks, decapsulation and key derivation of `open_stream`. */
  function StreamKey(p: Prims, t: Transcript, priv: bytes): Result<StreamSecrets>
    requires SuiteOf(t.suite).Ok?
  {
    var kb :- MatchRecipient(p, priv, t.suite, t.kid);
    var s := SuiteOf(t.suite).value;
    var ssc :- p.Exchange(s.kex, kb.parts[0], t.eph);
    var sspq :- p.decaps(s.kem, kb.parts[1], t.ct);
    var key :- DeriveKey(s, Legs(ssc, sspq, []), PreAuth(t), []);
    Ok(StreamSecrets(ssc, sspq, key))
  }

  datatype StreamPlan = StreamPlan(head: Head, secrets: StreamSecrets, rest: bytes)

  /** Everything `open_stream` establishes before it looks at the chunks. */
  function PlanStream(p: Prims, x: bytes, priv: bytes): (r: Result<StreamPlan>)
    ensures r.Ok? ==> ParseHead(x) == Ok((r.value.head, r.value.rest)) && AllShort(r.value.head.Fields())
    ensures r.Ok? ==> SuiteOf(r.value.head.t.suite).Ok? && StreamKey(p, r.value.head.t, priv) == Ok(r.value.secrets)
  {
    var (h, rest) :- ParseHead(x);
    ParseHeadIff(x, h, rest);
    var secrets :- StreamKey(p, h.t, priv);
    Ok(StreamPlan(h, secrets, rest))
  }

  /** Open chunk `i` and every later one under counters recomputed from the positions. */
  function OpenBlobs(p: Prims, key: Key, base: bytes, header: bytes, blobs: seq<bytes>, i: nat): Result<bytes>
    requires i <= |blobs|
    decreases |blobs| - i
  {
    if i == |blobs| then Ok([])
    else if i > 0xFFFF_FFFF then Err(PackRange)
    else
      var ctr := Ctr(i, i == |blobs| - 1);
      var m :- WrapTag(p.open(key, base + ctr, blobs[i], header + ctr));
      var rest :- OpenBlobs(p, key, base, header, blobs, i + 1);
      Ok(m + rest)
  }

  /** `open_stream`. */
  function OpenStream(p: Prims, x: bytes, priv: bytes): Result<bytes> {
    var plan :- PlanStream(p, x, priv);
    var blobs :- TakeBlobs(plan.rest);
    if blobs == [] then Err(EmptyStream)
    else OpenBlobs(p, plan.secrets.key, plan.head.t.nonce, PrintHead(plan.head), blobs, 0)
  }

  /** What is left to do once key and chunks are there, or the first error. */
  function AfterHead(p: Prims, h: Head, secrets: Result<StreamSecrets>, body: Result<seq<bytes>>): Result<bytes>
    requires AllShort(h.Fields())
  {
    var k :- secrets;
    var blobs :- body;
    if blobs == [] then Err(EmptyStream)
    else OpenBlobs(p, k.key, h.t.nonce, PrintHead(h), blobs, 0)
  }

  lemma BadHead(p: Prims, x: bytes, priv: bytes)
    requires ParseHead(x).Err?
    ensures OpenStream(p, x, priv) == Err(ParseHead(x).error)
  {}

  /** `open_stream` once the header is read. */
  lemma OpenAfterHead(p: Prims, x: bytes, priv: bytes, h: Head, rest: bytes)
    requires ParseHead(x) == Ok((h, rest)) && AllShort(h.Fields()) && SuiteOf(h.t.suite).Ok?
    ensures OpenStream(p, x, priv) == AfterHead(p, h, StreamKey(p, h.t, priv), TakeBlobs(rest))
  {}

  // ---------------------------------------------------------------- the procedures themselves

  /** The comprehension that cuts the plaintext. */
  method SplitPlaintext(m: bytes, c: nat) returns (chunks: seq<bytes>)
    requires c > 0
    ensures chunks == Chunks(m, c)
  {
    chunks := [];
    var i := 0;
    while i < |m|
      invariant 0 <= i
      invariant i < |m| ==> chunks + Chunks(m[i..], c) == Chunks(m, c)
      invariant i >= |m| ==> chunks == if m == [] then [] else Chunks(m, c)
      decreases |m| - i
    {
      var end := if i + c < |m| then i + c else |m|;
      var piece := m[i..end];
      if i + c < |m| {
        assert m[i..][..c] == piece && m[i..][c..] == m[i + c..];
        assert chunks + ([piece] + Chunks(m[i + c..], c)) == (chunks + [piece]) + Chunks(m[i + c..], c);
      } else {
        assert m[i..] == piece;
      }
      chunks := chunks + [piece];
      i := i + c;
    }
    if chunks == [] { chunks := [[]]; }
  }

  /** `seal_stream` as the source writes it. */
  method SealStreamBytes(p: Prims, m: bytes, pub: bytes, chunkSize: int, c: Coins) returns (r: Result<bytes>)
    ensures r == OutputOf(SealStream(p, m, pub, chunkSize, c))
  {
    if !(1 <= chunkSize <= 0xFFFF_FFFF) { return Err(ChunkSizeOutOfRange); }
    var rb :- K.ParseKey(p, pub, K.ROLE_KEM_PUB);
    if |rb.parts| != 2 { return Err(WrongPartCount); }
    var s :- SuiteOf(rb.suite);
    var ephPub := p.Public(s.kex, c.eph);
    var ssc :- p.Exchange(s.kex, c.eph, rb.parts[0]);
    var enc :- p.encaps(s.kem, rb.parts[1], c.kem);
    var head := Head(Transcript(rb.suite, 0, rb.kid, ephPub, enc.1, c.nonce), U32(chunkSize));
    var header :- EncodeStreamHeader(head);
    var key :- DeriveKeyStepwise(s, ssc, enc.0, PreAuth(head.t), [], []);
    var chunks := SplitPlaintext(m, chunkSize);
    if |chunks| > 0xFFFF_FFFF { return Err(TooManyChunks); }
    r := SealAll(p, head.t.nonce, key, header, chunks);
  }

  method EncodeStreamHeader(h: Head) returns (r: Result<bytes>)
    requires |h.size| == 4
    ensures r == if exists i :: 0 <= i < 4 && |h.Fields()[i]| > 0xFFFF then Err(TlvTooLong)
                 else Ok(PrintHead(h))
  {
    ghost var f := h.Fields();
    if |h.t.kid| > 0xFFFF || |h.t.eph| > 0xFFFF || |h.t.ct| > 0xFFFF || |h.t.nonce| > 0xFFFF {
      assert |f[0]| > 0xFFFF || |f[1]| > 0xFFFF || |f[2]| > 0xFFFF || |f[3]| > 0xFFFF;
      return Err(TlvTooLong);
    }
    FlatThree(h.t.kid, h.t.eph, h.t.ct);
    FlatTlvAppend([h.t.kid, h.t.eph, h.t.ct], h.t.nonce);
    assert f == [h.t.kid, h.t.eph, h.t.ct] + [h.t.nonce];
    var body := Tlv(h.t.kid) + Tlv(h.t.eph) + Tlv(h.t.ct) + Tlv(h.t.nonce);
    return Ok(STREAM_MAGIC + [VERSION, h.t.suite, h.t.flags] + body + h.size);
  }

  lemma Regroup(a: bytes, b: bytes, c: bytes)
    ensures a + (b + c) == a + b + c
  {}

  lemma AppendBlob(prefix: bytes, done: seq<bytes>, sealed: bytes)
    requires AllBlobs(done) && |sealed| < 0x1_0000_0000
    ensures AllBlobs(done + [sealed])
    ensures prefix + FlatBlobs(done + [sealed]) == prefix + FlatBlobs(done) + (U32(|sealed|) + sealed)
  {
    FlatBlobsOne(sealed);
    FlatBlobsConcat(done, [sealed]);
    Regroup(prefix, FlatBlobs(done), Blob(sealed));
  }

  lemma SealOneMore(p: Prims, key: Key, base: bytes, header: bytes, chunks: seq<bytes>, i: nat, sealed: bytes)
    requires i < |chunks| <= 0xFFFF_FFFF
    requires SealBlob(p, key, base + Ctr(i, i == |chunks| - 1), chunks[i], header + Ctr(i, i == |chunks| - 1))
        == Ok(sealed)
    ensures SealBlobs(p, key, base, header, chunks, i)
        == Prepended([sealed], SealBlobs(p, key, base, header, chunks, i + 1))
  {}

  /** The sealing loop: `out` grows by one framed blob per chunk. */
  method SealAll(p: Prims, base: bytes, key: Key, header: bytes, chunks: seq<bytes>) returns (r: Result<bytes>)
    requires 0 < |chunks| <= 0xFFFF_FFFF
    ensures var blobs := SealBlobs(p, key, base, header, chunks, 0);
            r == if blobs.Err? then Err(blobs.error) else Ok(header + FlatBlobs(blobs.value))
  {
    var out := header;
    ghost var done: seq<bytes> := [];
    var last := |chunks| - 1;
    var idx := 0;
    ghost var whole := SealBlobs(p, key, base, header, chunks, 0);
    PrependedUnits(done, whole);
    assert header + [] == header;
    while idx < |chunks|
      invariant 0 <= idx <= |chunks| && AllBlobs(done) && out == header + FlatBlobs(done)
      invariant whole == Prepended(done, SealBlobs(p, key, base, header, chunks, idx))
    {
      var final := idx == last;
      var ctr := Ctr(idx, final);
      var sealed :- p.seal(key, base + ctr, chunks[idx], header + ctr);
      if |sealed| >= 0x1_0000_0000 { return Err(PackRange); }
      SealOneMore(p, key, base, header, chunks, idx, sealed);
      PrependedTwice(done, [sealed], SealBlobs(p, key, base, header, chunks, idx + 1));
      AppendBlob(header, done, sealed);
      done := done + [sealed];
      out := out + (U32(|sealed|) + sealed);
      idx := idx + 1;
    }
    PrependedUnits(done, whole);
    return Ok(out);
  }

  /** The first pass of `open_stream`: collect the framed blobs. */
  method ReadBlobs(x: bytes, start: nat) returns (r: Result<seq<bytes>>)
    requires start <= |x|
    ensures r == TakeBlobs(x[start..])
  {
    var off := start;
    var blobs: seq<bytes> := [];
    ghost var whole := TakeBlobs(x[start..]);
    PrependedUnits(blobs, whole);
    while off < |x|
      invariant start <= off <= |x|
      invariant whole == Prepended(blobs, TakeBlobs(x[off..]))
      decreases |x| - off
    {
      TakeBlobsStep(x, off);
      var next :- ReadBlob(x, off);
      PrependedTwice(blobs, [next.0], TakeBlobs(x[next.1..]));
      blobs := blobs + [next.0];
      off := next.1;
    }
    PrependedUnits(blobs, whole);
    return Ok(blobs);
  }

  /** The header read of `open_stream` with its cursor. */
  method ReadStreamHeader(x: bytes) returns (r: Result<(Head, bytes, nat)>)
    ensures r.Err? ==> ParseHead(x) == Err(r.error)
    ensures r.Ok? ==> var (h, header, off) := r.value;
              off <= |x| && ParseHead(x) == Ok((h, x[off..])) && AllShort(h.Fields()) && header == PrintHead(h)
  {
    if |x| < 7 || x[..4] != STREAM_MAGIC { return Err(NotAStream); }
    if x[4] != VERSION { return Err(UnsupportedStreamVersion); }
    var _ :- SuiteOf(x[5]);
    var four :- ReadFields(x, 7, 4);
    var f, off := four.0, four.1;
    if off + 4 > |x| { return Err(TruncatedStreamHeader); }
    ghost var h := Head(Transcript(x[5], x[6], f[0], f[1], f[2], f[3]), x[off..off + 4]);
    assert x[off..][..4] == x[off..off + 4] && x[off..][4..] == x[off + 4..];
    off := off + 4;
    var header := x[..off];
    ParseHeadIff(x, h, x[off..]);
    SplitEqual(header, x[off..], PrintHead(h), x[off..]);
    return Ok((Head(Transcript(x[5], x[6], f[0], f[1], f[2], f[3]), x[off - 4..off]), header, off));
  }

  /** The second pass of `open_stream`. */
  method OpenAll(p: Prims, key: Key, base: bytes, header: bytes, blobs: seq<bytes>) returns (r: Result<bytes>)
    ensures r == OpenBlobs(p, key, base, header, blobs, 0)
  {
    var out: bytes := [];
    var last := |blobs| - 1;
    var idx := 0;
    ghost var whole := OpenBlobs(p, key, base, header, blobs, 0);
    PrependedUnits(out, whole);
    while idx < |blobs|
      invariant 0 <= idx <= |blobs|
      invariant whole == Prepended(out, OpenBlobs(p, key, base, header, blobs, idx))
    {
      if idx > 0xFFFF_FFFF { return Err(PackRange); }
      var ctr := Ctr(idx, idx == last);
      var m :- WrapTag(p.open(key, base + ctr, blobs[idx], header + ctr));
      PrependedTwice(out, m, OpenBlobs(p, key, base, header, blobs, idx + 1));
      out := out + m;
      idx := idx + 1;
    }
    PrependedUnits(out, whole);
    return Ok(out);
  }

  /** `open_stream` as the source writes it, in its two passes. */
  method OpenStreamBytes(p: Prims, x: bytes, priv: bytes) returns (r: Result<bytes>)
    ensures r == OpenStream(p, x, priv)
  {
    var read :- ReadStreamHeader(x);
    var h, header, off := read.0, read.1, read.2;
    ParseHeadIff(x, h, x[off..]);
    var kb :- K.ParseKey(p, priv, K.ROLE_KEM_PRIV);
    if |kb.parts| != 2 { return Err(WrongPartCount); }
    if kb.suite != h.t.suite { return Err(SuiteMismatch); }
    if kb.kid != h.t.kid { return Err(WrongRecipient); }
    var s := SuiteOf(h.t.suite).value;
    var ssc :- p.Exchange(s.kex, kb.parts[0], h.t.eph);
    var sspq :- p.decaps(s.kem, kb.parts[1], h.t.ct);
    var key :- DeriveKeyStepwise(s, ssc, sspq, PreAuth(h.t), [], []);
    var blobs :- ReadBlobs(x, off);
    if blobs == [] { return Err(EmptyStream); }
    r := OpenAll(p, key, h.t.nonce, header, blobs);
  }
}
