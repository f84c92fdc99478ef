/** The walkers and tamper transforms of interop/gen_pstv_vectors.py: they find exactly the spans the
    decoders read, and the streams they cut, repeat or reorder are rejected. */
module Tamper {
  import opened Bytes
  import opened Framing
  import opened Primitives
  import opened Sessions
  import opened World
  import opened Runs
  import A = AltCodec
  import L = Liveness
  import E = Envelope
  import G = Agreement
  import K = KeyBundle
  import R = Shield
  import RT = ShieldTheorems
  import T = RunTheorems
  import S = Stream

  /** Where a length field starts, where its value starts, and the value's length. */
  datatype Span = Span(lenPos: nat, valPos: nat, n: nat)

  /** The spans of u16-framed fields laid out from `off`. */
  function FieldSpans(f: seq<bytes>, off: nat): (spans: seq<Span>)
    ensures |spans| == |f|
  {
    if f == [] then [] else [Span(off, off + 2, |f[0]|)] + FieldSpans(f[1..], off + 2 + |f[0]|)
  }

  /** The spans of u32-framed chunks laid out from `off`. */
  function BlobSpans(b: seq<bytes>, off: nat): (spans: seq<Span>)
    ensures |spans| == |b|
  {
    if b == [] then [] else [Span(off, off + 4, |b[0]|)] + BlobSpans(b[1..], off + 4 + |b[0]|)
  }

  /** Where field `i` of a list laid out from `off` lies. */
  lemma {:induction false} FieldSpanAt(f: seq<bytes>, off: nat, i: nat)
    requires AllShort(f) && i < |f|
    ensures AllShort(f[..i])
    ensures FieldSpans(f, off)[i] == Span(off + |FlatTlv(f[..i])|, off + |FlatTlv(f[..i])| + 2, |f[i]|)
    decreases i
  {
    if i > 0 {
      FieldSpanAt(f[1..], off + 2 + |f[0]|, i - 1);
      assert f[1..][..i - 1] == f[..i][1..];
    }
  }

  lemma {:induction false} FlatTlvSplit(f: seq<bytes>, i: nat)
    requires AllShort(f) && i < |f|
    ensures AllShort(f[..i]) && AllShort(f[i + 1..])
    ensures FlatTlv(f) == FlatTlv(f[..i]) + Tlv(f[i]) + FlatTlv(f[i + 1..])
    decreases i
  {
    if i == 0 {
      assert [] + Tlv(f[0]) == Tlv(f[0]);
    } else {
      FlatTlvSplit(f[1..], i - 1);
      assert f[1..][..i - 1] == f[..i][1..] && f[1..][i..] == f[i + 1..];
      Reassociate(Tlv(f[0]), FlatTlv(f[..i][1..]), Tlv(f[i]), FlatTlv(f[i + 1..]));
    }
  }

  /** The bytes at field `i`'s span, when the fields are laid out from `off`. */
  lemma FieldAtSpan(x: bytes, off: nat, f: seq<bytes>, rest: bytes, i: nat)
    requires AllShort(f) && off <= |x| && x[off..] == FlatTlv(f) + rest && i < |f|
    ensures AllShort(f[i + 1..])
    ensures var s := FieldSpans(f, off)[i];
            s.lenPos <= s.valPos + s.n <= |x| && x[s.lenPos..s.valPos + s.n] == Tlv(f[i])
            && x[s.valPos + s.n..] == FlatTlv(f[i + 1..]) + rest
  {
    FieldSpanAt(f, off, i);
    FlatTlvSplit(f, i);
    Reassociate(FlatTlv(f[..i]), Tlv(f[i]), FlatTlv(f[i + 1..]), rest);
    Located(x, off, FlatTlv(f[..i]), Tlv(f[i]), FlatTlv(f[i + 1..]) + rest);
  }

  /** Field spans tile the bytes they describe: each value lies at its span, and each span starts
      where the one before ends. */
  lemma FieldSpansTile(x: bytes, off: nat, f: seq<bytes>, rest: bytes, i: nat)
    requires AllShort(f) && off <= |x| && x[off..] == FlatTlv(f) + rest && i < |f|
    ensures var s := FieldSpans(f, off)[i];
            && s.lenPos <= s.valPos <= s.valPos + s.n <= |x| && x[s.valPos..s.valPos + s.n] == f[i]
            && s.lenPos == (if i == 0 then off else FieldSpans(f, off)[i - 1].valPos + FieldSpans(f, off)[i - 1].n)
            && (i == |f| - 1 ==> s.valPos + s.n + |rest| == |x|)
  {
    FieldAtSpan(x, off, f, rest, i);
    FieldSpansChain(f, off, i);
    var s := FieldSpans(f, off)[i];
    assert x[s.valPos..s.valPos + s.n] == x[s.lenPos..s.valPos + s.n][2..];
  }

  lemma {:induction false} FieldSpansChain(f: seq<bytes>, off: nat, i: nat)
    requires i < |f|
    ensures var s := FieldSpans(f, off)[i];
            && s.valPos == s.lenPos + 2 && s.n == |f[i]|
            && s.lenPos == (if i == 0 then off else FieldSpans(f, off)[i - 1].valPos + FieldSpans(f, off)[i - 1].n)
    decreases i
  {
    if i > 0 { FieldSpansChain(f[1..], off + 2 + |f[0]|, i - 1); }
  }

  /** `n` steps of the header walk from `off`; only the two length bytes are bounds-checked. */
  function Walk(env: bytes, off: nat, n: nat): Result<(seq<Span>, nat)>
    decreases |env|, n
  {
    if n == 0 then Ok(([], off))
    else if off + 2 > |env| then Err(PackRange)
    else
      var len := GetU16(env[off..off + 2]);
      var (spans, end) :- Walk(env, off + 2 + len, n - 1);
      Ok(([Span(off, off + 2, len)] + spans, end))
  }

  /** Where span `i` of a walk from `off` has to start: at `off`, or where the span before ends. */
  function StartOf(off: nat, spans: seq<Span>, i: nat): nat
    requires i <= |spans|
  {
    if i == 0 then off else spans[i - 1].valPos + spans[i - 1].n
  }

  /** Span `i` starts there with two length bytes inside the buffer, and takes its length from them. */
  predicate LinkAt(env: bytes, off: nat, spans: seq<Span>, i: nat)
    requires i < |spans|
  {
    var s := spans[i];
    && s.lenPos == StartOf(off, spans, i) && s.valPos == s.lenPos + 2 <= |env|
    && s.n == GetU16(env[s.lenPos..s.valPos])
  }

  ghost predicate Chained(env: bytes, off: nat, spans: seq<Span>) {
    forall i :: 0 <= i < |spans| ==> LinkAt(env, off, spans, i)
  }

  /** A chain is a first link and a chain from where it ends. */
  lemma ChainedStep(env: bytes, off: nat, spans: seq<Span>)
    requires spans != []
    ensures Chained(env, off, spans) <==>
            LinkAt(env, off, spans, 0) && Chained(env, StartOf(off, spans, 1), spans[1..])
    ensures StartOf(off, spans, |spans|) == StartOf(StartOf(off, spans, 1), spans[1..], |spans| - 1)
  {
    var rest, next := spans[1..], StartOf(off, spans, 1);
    forall i | 0 < i < |spans| ensures LinkAt(env, off, spans, i) == LinkAt(env, next, rest, i - 1) {}
    if Chained(env, off, spans) {
      forall i | 0 <= i < |rest| ensures LinkAt(env, next, rest, i) { assert LinkAt(env, off, spans, i + 1); }
    }
  }

  /** The walk on every buffer, well-formed or not: it returns spans exactly when they are `n` in number and
      chained, ends where the last one does, inside the buffer or not, and otherwise raises the unpacking
      error. */
  lemma {:induction false} WalkIff(env: bytes, off: nat, n: nat, spans: seq<Span>, end: nat)
    ensures Walk(env, off, n) == Ok((spans, end)) <==>
            |spans| == n && end == StartOf(off, spans, |spans|) && Chained(env, off, spans)
    ensures Walk(env, off, n).Err? ==> Walk(env, off, n) == Err(PackRange)
    decreases n
  {
    if n > 0 {
      if spans != [] {
        ChainedStep(env, off, spans);
        assert spans == [spans[0]] + spans[1..];
      }
      if off + 2 <= |env| {
        var tail := if spans == [] then [] else spans[1..];
        var head := Span(off, off + 2, GetU16(env[off..off + 2]));
        WalkIff(env, head.valPos + head.n, n - 1, tail, end);
        var rest := Walk(env, head.valPos + head.n, n - 1);
        assert rest.Ok? ==> ([head] + rest.value.0)[0] == head && ([head] + rest.value.0)[1..] == rest.value.0;
      }
    }
  }

  /** The walk visits exactly the fields a cursor reader reads. */
  lemma {:induction false} WalkIsRead(env: bytes, off: nat, n: nat, f: seq<bytes>, end: nat)
    requires A.ReadMany(env, off, n) == Ok((f, end))
    ensures Walk(env, off, n) == Ok((FieldSpans(f, off), end))
    decreases n
  {
    if n > 0 {
      var (v, next) := A.ReadTlv(env, off).value;
      assert f == [v] + f[1..];
      WalkIsRead(env, next, n - 1, f[1..], end);
    }
  }

  /** On bytes whose first `n` fields parse, the walk returns exactly the decoder's spans. */
  lemma WalkIsParse(env: bytes, off: nat, n: nat, f: seq<bytes>, rest: bytes)
    requires off <= |env| && TakeFields(env[off..], n) == Ok((f, rest))
    ensures |rest| <= |env| && rest == env[|env| - |rest|..]
    ensures Walk(env, off, n) == Ok((FieldSpans(f, off), |env| - |rest|))
  {
    G.SameFields(env, off, n);
    WalkIsRead(env, off, n, f, A.ReadMany(env, off, n).value.1);
  }

  lemma WalkOverFields(env: bytes, off: nat, f: seq<bytes>, rest: bytes)
    requires off <= |env| && AllShort(f) && env[off..] == FlatTlv(f) + rest
    ensures Walk(env, off, |f|) == Ok((FieldSpans(f, off), |env| - |rest|))
  {
    TakeFieldsComplete(f, rest);
    WalkIsParse(env, off, |f|, f, rest);
  }

  /** `_walk_header_tlvs`. */
  method WalkHeaderTlvs(env: bytes, count: nat) returns (r: Result<(seq<Span>, nat)>)
    ensures r == Walk(env, 7, count)
  {
    var off: nat := 7;
    var spans: seq<Span> := [];
    var done := 0;
    assert Walk(env, 7, count).Ok? ==> [] + Walk(env, 7, count).value.0 == Walk(env, 7, count).value.0;
    while done < count
      invariant done <= count
      invariant var rest := Walk(env, off, count - done);
                Walk(env, 7, count) == if rest.Err? then rest else Ok((spans + rest.value.0, rest.value.1))
    {
      if off + 2 > |env| { return Err(PackRange); }
      var n := GetU16(env[off..off + 2]);
      ghost var rest := Walk(env, off + 2 + n, count - done - 1);
      ghost var here := [Span(off, off + 2, n)];
      assert rest.Ok? ==> spans + (here + rest.value.0) == (spans + here) + rest.value.0;
      spans := spans + [Span(off, off + 2, n)];
      off := off + 2 + n;
      done := done + 1;
    }
    assert spans + [] == spans;
    return Ok((spans, off));
  }

  /** The bytes of an envelope that parses: five fields, then the framed sealed bytes. */
  lemma EnvelopeLayout(env: bytes, e: E.Envelope)
    requires E.Parse(env) == Ok(e)
    ensures |env| >= 7 && e.Printable() && AllShort(e.Fields())
    ensures env[7..] == FlatTlv(e.Fields()) + (U32(|e.sealed|) + e.sealed)
    ensures |env| == |E.Header(e)| + 4 + |e.sealed| && env[|E.Header(e)|..] == U32(|e.sealed|) + e.sealed
  {
    E.ParseIff(env, e);
    E.PrintPrefix(e);
    assert env == E.Header(e) + (U32(|e.sealed|) + e.sealed);
  }

  /** The five header spans of an envelope that parses, and where they end. */
  lemma EnvelopeSpans(env: bytes, e: E.Envelope)
    requires E.Parse(env) == Ok(e)
    ensures e.Printable() && Walk(env, 7, 5) == Ok((FieldSpans(e.Fields(), 7), |E.Header(e)|))
  {
    EnvelopeLayout(env, e);
    WalkOverFields(env, 7, e.Fields(), U32(|e.sealed|) + e.sealed);
  }

  /** `_sealed_region`: the bytes the AEAD opens, which end the envelope. */
  method SealedRegion(env: bytes) returns (r: Result<(nat, nat)>)
    ensures E.Parse(env).Ok? ==>
              r.Ok? && r.value.0 + r.value.1 == |env| && env[r.value.0..] == E.Parse(env).value.sealed
  {
    if E.Parse(env).Ok? {
      EnvelopeLayout(env, E.Parse(env).value);
      EnvelopeSpans(env, E.Parse(env).value);
    }
    var walk :- WalkHeaderTlvs(env, 5);
    var off := walk.1;
    if off + 4 > |env| { return Err(PackRange); }
    var clen := GetU32(env[off..off + 4]);
    if E.Parse(env).Ok? {
      ghost var sealed := E.Parse(env).value.sealed;
      assert env[off..off + 4] == env[off..][..4] == U32(|sealed|);
      U32RoundTrip(|sealed|, []);
      assert U32(|sealed|) + [] == U32(|sealed|);
      assert env[off + 4..] == env[off..][4..] == sealed;
    }
    return Ok((off + 4, clen));
  }

  /** `_sender_block_span`: the value of the fifth header field. */
  method SenderBlockSpan(env: bytes) returns (r: Result<(nat, nat)>)
    ensures E.Parse(env).Ok? ==>
              r.Ok? && r.value.0 + r.value.1 <= |env|
                  && env[r.value.0..r.value.0 + r.value.1] == E.Parse(env).value.block
  {
    if E.Parse(env).Ok? {
      ghost var e := E.Parse(env).value;
      EnvelopeLayout(env, e);
      EnvelopeSpans(env, e);
      FieldSpansTile(env, 7, e.Fields(), U32(|e.sealed|) + e.sealed, 4);
    }
    var walk :- WalkHeaderTlvs(env, 5);
    if |walk.0| < 5 { return Err(PackRange); }
    return Ok((walk.0[4].valPos, walk.0[4].n));
  }

  /** Value positions and lengths, without the length positions. */
  function Values(spans: seq<Span>): (vs: seq<(nat, nat)>)
    ensures |vs| == |spans|
  {
    seq(|spans|, i requires 0 <= i < |spans| => (spans[i].valPos, spans[i].n))
  }

  /** `_sender_subtlvs`: in a canonical sender block, the positions of its three values. */
  method SenderSubTlvs(block: bytes) returns (r: Result<seq<(nat, nat)>>)
    ensures r == if Walk(block, 0, 3).Ok? then Ok(Values(Walk(block, 0, 3).value.0)) else Err(Walk(block, 0, 3).error)
  {
    var out: seq<(nat, nat)> := [];
    var o: nat := 0;
    var done := 0;
    ghost var spans: seq<Span> := [];
    ghost var whole := Walk(block, 0, 3);
    assert whole.Ok? ==> [] + whole.value.0 == whole.value.0;
    while done < 3
      invariant done <= 3 && out == Values(spans)
      invariant var rest := Walk(block, o, 3 - done);
                whole == if rest.Err? then rest else Ok((spans + rest.value.0, rest.value.1))
    {
      if o + 2 > |block| { return Err(PackRange); }
      var n := GetU16(block[o..o + 2]);
      ghost var rest := Walk(block, o + 2 + n, 3 - done - 1);
      assert rest.Ok? ==> spans + ([Span(o, o + 2, n)] + rest.value.0) == (spans + [Span(o, o + 2, n)]) + rest.value.0;
      spans := spans + [Span(o, o + 2, n)];
      out := out + [(o + 2, n)];
      o := o + 2 + n;
      done := done + 1;
    }
    assert spans + [] == spans;
    return Ok(out);
  }

  /** In a sender block whose `n` fields end where the block ends, the walk returns their spans (and
      `FieldSpansTile` says what lies there). */
  lemma SenderSpans(block: bytes, n: nat, f: seq<bytes>)
    requires TakeFields(block, n) == Ok((f, []))
    ensures Walk(block, 0, n) == Ok((FieldSpans(f, 0), |block|))
  {
    assert block[0..] == block;
    WalkIsParse(block, 0, n, f, []);
  }

  // ---------------------------------------------------------------- stream chunks

  lemma {:induction false} BlobSpanAt(b: seq<bytes>, off: nat, i: nat)
    requires AllBlobs(b) && i < |b|
    ensures AllBlobs(b[..i])
    ensures BlobSpans(b, off)[i] == Span(off + |FlatBlobs(b[..i])|, off + |FlatBlobs(b[..i])| + 4, |b[i]|)
    decreases i
  {
    if i > 0 {
      BlobSpanAt(b[1..], off + 4 + |b[0]|, i - 1);
      assert b[1..][..i - 1] == b[..i][1..];
    }
  }

  lemma {:induction false} FlatBlobsSplit(b: seq<bytes>, i: nat)
    requires AllBlobs(b) && i < |b|
    ensures AllBlobs(b[..i]) && AllBlobs(b[i + 1..])
    ensures FlatBlobs(b) == FlatBlobs(b[..i]) + Blob(b[i]) + FlatBlobs(b[i + 1..])
    decreases i
  {
    if i == 0 {
      assert [] + Blob(b[0]) == Blob(b[0]);
    } else {
      FlatBlobsSplit(b[1..], i - 1);
      assert b[1..][..i - 1] == b[..i][1..] && b[1..][i..] == b[i + 1..];
      Reassociate(Blob(b[0]), FlatBlobs(b[..i][1..]), Blob(b[i]), FlatBlobs(b[i + 1..]));
    }
  }

  /** The bytes before, at and after chunk `i`'s span, when the chunks are laid out from `off`. */
  lemma BlobAtSpan(x: bytes, off: nat, b: seq<bytes>, i: nat)
    requires AllBlobs(b) && off <= |x| && x[off..] == FlatBlobs(b) && i < |b|
    ensures AllBlobs(b[..i]) && AllBlobs(b[i + 1..])
    ensures var s := BlobSpans(b, off)[i];
            && s.lenPos <= s.valPos + s.n <= |x| && s.valPos == s.lenPos + 4
            && x[..s.lenPos] == x[..off] + FlatBlobs(b[..i])
            && x[s.lenPos..s.valPos + s.n] == Blob(b[i])
            && x[s.valPos + s.n..] == FlatBlobs(b[i + 1..])
  {
    BlobSpanAt(b, off, i);
    FlatBlobsSplit(b, i);
    Located(x, off, FlatBlobs(b[..i]), Blob(b[i]), FlatBlobs(b[i + 1..]));
  }

  /** Framed chunks put between a chunk prefix and a chunk suffix. */
  lemma Joined(pre: bytes, l: seq<bytes>, mid: seq<bytes>, r: seq<bytes>)
    requires AllBlobs(l) && AllBlobs(mid) && AllBlobs(r)
    ensures AllBlobs(l + mid + r)
    ensures pre + FlatBlobs(l) + FlatBlobs(mid) + FlatBlobs(r) == pre + FlatBlobs(l + mid + r)
  {
    FlatBlobsConcat(l, mid);
    FlatBlobsConcat(l + mid, r);
    Reassociate(pre, FlatBlobs(l), FlatBlobs(mid), FlatBlobs(r));
  }

  /** Replacing the bytes of chunk `i` by framed chunks replaces chunk `i` in the list. */
  lemma Splice(x: bytes, off: nat, b: seq<bytes>, i: nat, mid: seq<bytes>, y: bytes)
    requires AllBlobs(b) && off <= |x| && x[off..] == FlatBlobs(b) && i < |b| && AllBlobs(mid)
    requires var s := BlobSpans(b, off)[i];
             s.lenPos <= |x| && s.valPos + s.n <= |x| && y == x[..s.lenPos] + FlatBlobs(mid) + x[s.valPos + s.n..]
    ensures AllBlobs(b[..i] + mid + b[i + 1..]) && y == x[..off] + FlatBlobs(b[..i] + mid + b[i + 1..])
  {
    BlobAtSpan(x, off, b, i);
    Joined(x[..off], b[..i], mid, b[i + 1..]);
  }

  /** The chunk walk from `off`; only the four length bytes are bounds-checked. */
  function WalkChunks(env: bytes, off: nat): Result<seq<Span>>
    decreases |env| - off
  {
    if off >= |env| then Ok([])
    else if off + 4 > |env| then Err(PackRange)
    else
      var len := GetU32(env[off..off + 4]);
      Prepended([Span(off, off + 4, len)], WalkChunks(env, off + 4 + len))
  }

  predicate ChunkLinkAt(env: bytes, off: nat, spans: seq<Span>, i: nat)
    requires i < |spans|
  {
    var s := spans[i];
    && s.lenPos == StartOf(off, spans, i) < |env| && s.valPos == s.lenPos + 4 <= |env|
    && s.n == GetU32(env[s.lenPos..s.valPos])
  }

  ghost predicate ChunksChained(env: bytes, off: nat, spans: seq<Span>) {
    forall i :: 0 <= i < |spans| ==> ChunkLinkAt(env, off, spans, i)
  }

  lemma ChunksChainedStep(env: bytes, off: nat, spans: seq<Span>)
    requires spans != []
    ensures ChunksChained(env, off, spans) <==>
            ChunkLinkAt(env, off, spans, 0) && ChunksChained(env, StartOf(off, spans, 1), spans[1..])
    ensures StartOf(off, spans, |spans|) == StartOf(StartOf(off, spans, 1), spans[1..], |spans| - 1)
  {
    var rest, next := spans[1..], StartOf(off, spans, 1);
    forall i | 0 < i < |spans| ensures ChunkLinkAt(env, off, spans, i) == ChunkLinkAt(env, next, rest, i - 1) {}
    if ChunksChained(env, off, spans) {
      forall i | 0 <= i < |rest| ensures ChunkLinkAt(env, next, rest, i) { assert ChunkLinkAt(env, off, spans, i + 1); }
    }
  }

  /** The chunk walk on every buffer: it returns spans exactly when they are chained and the last one reaches
      the end of the buffer or past it, and otherwise raises the unpacking error. */
  lemma {:induction false} WalkChunksIff(env: bytes, off: nat, spans: seq<Span>)
    ensures WalkChunks(env, off) == Ok(spans) <==>
            StartOf(off, spans, |spans|) >= |env| && ChunksChained(env, off, spans)
    ensures WalkChunks(env, off).Err? ==> WalkChunks(env, off) == Err(PackRange)
    decreases |env| - off
  {
    if off + 4 <= |env| {
      var tail := if spans == [] then [] else spans[1..];
      WalkChunksIff(env, off + 4 + GetU32(env[off..off + 4]), tail);
    }
    if spans != [] {
      ChunksChainedStep(env, off, spans);
      assert spans == [spans[0]] + spans[1..];
    }
  }

  lemma {:induction false} WalkChunksIsRead(env: bytes, off: nat, b: seq<bytes>)
    requires A.ReadChunks(env, off) == Ok(b)
    ensures WalkChunks(env, off) == Ok(BlobSpans(b, off))
    decreases |env| - off
  {
    if off < |env| {
      var end := off + 4 + GetU32(env[off..off + 4]);
      assert b == [env[off + 4..end]] + b[1..];
      WalkChunksIsRead(env, end, b[1..]);
    }
  }

  /** On bytes whose body parses, the walk returns exactly the spans `open_stream` reads. */
  lemma WalkChunksIsParse(env: bytes, off: nat, b: seq<bytes>)
    requires off <= |env| && TakeBlobs(env[off..]) == Ok(b)
    ensures WalkChunks(env, off) == Ok(BlobSpans(b, off))
  {
    G.SameChunks(env, off);
    WalkChunksIsRead(env, off, b);
  }

  /** The bytes of a stream whose header parses. */
  lemma StreamLayout(env: bytes, h: S.Head, rest: bytes)
    requires S.ParseHead(env) == Ok((h, rest))
    ensures AllShort(h.Fields()) && env == S.PrintHead(h) + rest
    ensures Walk(env, 7, 4) == Ok((FieldSpans(h.Fields(), 7), |S.PrintHead(h)| - 4))
  {
    S.ParseHeadIff(env, h, rest);
    var prefix := S.STREAM_MAGIC + [S.VERSION, h.t.suite, h.t.flags];
    Reassociate(prefix, FlatTlv(h.Fields()), h.size, rest);
    WalkOverFields(env, 7, h.Fields(), h.size + rest);
  }

  /** `_stream_header_end`: where `open_stream` starts to read chunks. */
  method StreamHeaderEnd(env: bytes) returns (r: Result<nat>)
    ensures S.ParseHead(env).Ok? ==>
              r.Ok? && r.value <= |env| && env[r.value..] == S.ParseHead(env).value.1
  {
    if S.ParseHead(env).Ok? {
      ghost var (h, rest) := S.ParseHead(env).value;
      StreamLayout(env, h, rest);
    }
    var walk :- WalkHeaderTlvs(env, 4);
    return Ok(walk.1 + 4);
  }

  /** The loop of `_stream_chunks`. */
  method ChunkSpans(env: bytes, start: nat) returns (r: Result<seq<Span>>)
    ensures r == WalkChunks(env, start)
  {
    var off := start;
    var spans: seq<Span> := [];
    ghost var whole := WalkChunks(env, off);
    PrependedUnits(spans, whole);
    while off < |env|
      invariant whole == Prepended(spans, WalkChunks(env, off))
      decreases |env| - off
    {
      if off + 4 > |env| { return Err(PackRange); }
      var clen := GetU32(env[off..off + 4]);
      PrependedTwice(spans, [Span(off, off + 4, clen)], WalkChunks(env, off + 4 + clen));
      spans := spans + [Span(off, off + 4, clen)];
      off := off + 4 + clen;
    }
    PrependedUnits(spans, whole);
    return Ok(spans);
  }

  /** `_stream_chunks`: exactly the spans of the chunks that `open_stream` reads. */
  method StreamChunks(env: bytes) returns (r: Result<seq<Span>>)
    ensures S.ParseHead(env).Ok? && TakeBlobs(S.ParseHead(env).value.1).Ok? ==>
              var (_, body) := S.ParseHead(env).value;
              |body| <= |env| && r == Ok(BlobSpans(TakeBlobs(body).value, |env| - |body|))
  {
    var off :- StreamHeaderEnd(env);
    if S.ParseHead(env).Ok? && TakeBlobs(env[off..]).Ok? { WalkChunksIsParse(env, off, TakeBlobs(env[off..]).value); }
    r := ChunkSpans(env, off);
  }

  function Without<T>(b: seq<T>, i: nat): seq<T>
    requires i < |b|
  {
    b[..i] + b[i + 1..]
  }

  function Doubled<T>(b: seq<T>, i: nat): seq<T>
    requires i < |b|
  {
    b[..i] + [b[i]] + b[i..]
  }

  /** `del e[m[0]:m[1] + m[2]]`: one chunk removed. */
  method DropChunk(stream: bytes, start: nat, chunks: seq<Span>, i: nat, ghost blobs: seq<bytes>) returns (e: bytes)
    requires start <= |stream| && AllBlobs(blobs) && stream[start..] == FlatBlobs(blobs)
    requires chunks == BlobSpans(blobs, start) && i < |blobs|
    ensures AllBlobs(Without(blobs, i)) && e == stream[..start] + FlatBlobs(Without(blobs, i))
  {
    BlobAtSpan(stream, start, blobs, i);
    var m := chunks[i];
    e := stream;
    e := e[..m.lenPos] + e[m.valPos + m.n..];
    DroppedBytes(stream, start, blobs, i, e);
  }

  lemma DroppedBytes(x: bytes, off: nat, b: seq<bytes>, i: nat, e: bytes)
    requires AllBlobs(b) && off <= |x| && x[off..] == FlatBlobs(b) && i < |b|
    requires var s := BlobSpans(b, off)[i];
             s.lenPos <= |x| && s.valPos + s.n <= |x| && e == x[..s.lenPos] + x[s.valPos + s.n..]
    ensures AllBlobs(Without(b, i)) && e == x[..off] + FlatBlobs(Without(b, i))
  {
    var s := BlobSpans(b, off)[i];
    assert e == x[..s.lenPos] + FlatBlobs([]) + x[s.valPos + s.n..];
    Splice(x, off, b, i, [], e);
    assert b[..i] + [] + b[i + 1..] == Without(b, i);
  }

  /** `e[dup[0]:dup[0]] = seg`: one chunk repeated in place. */
  method DuplicateChunk(stream: bytes, start: nat, chunks: seq<Span>, i: nat, ghost blobs: seq<bytes>)
    returns (e: bytes)
    requires start <= |stream| && AllBlobs(blobs) && stream[start..] == FlatBlobs(blobs)
    requires chunks == BlobSpans(blobs, start) && i < |blobs|
    ensures AllBlobs(Doubled(blobs, i)) && e == stream[..start] + FlatBlobs(Doubled(blobs, i))
  {
    BlobAtSpan(stream, start, blobs, i);
    var dup := chunks[i];
    var seg := stream[dup.lenPos..dup.valPos + dup.n];
    e := stream;
    e := e[..dup.lenPos] + seg + e[dup.lenPos..];
    InsertedTwice(stream, dup.lenPos, dup.valPos + dup.n);
    DoubledBytes(stream, start, blobs, i, e);
  }

  lemma DoubledBytes(x: bytes, off: nat, b: seq<bytes>, i: nat, e: bytes)
    requires AllBlobs(b) && off <= |x| && x[off..] == FlatBlobs(b) && i < |b|
    requires var s := BlobSpans(b, off)[i];
             && s.lenPos <= |x| && s.valPos + s.n <= |x|
             && e == x[..s.lenPos] + (Blob(b[i]) + Blob(b[i])) + x[s.valPos + s.n..]
    ensures AllBlobs(Doubled(b, i)) && e == x[..off] + FlatBlobs(Doubled(b, i))
  {
    TwoBlobs(b[i]);
    Splice(x, off, b, i, [b[i], b[i]], e);
    assert b[..i] + [b[i], b[i]] + b[i + 1..] == Doubled(b, i);
  }

  lemma InsertedTwice(x: bytes, a: nat, b: nat)
    requires a <= b <= |x|
    ensures x[..a] + x[a..b] + x[a..] == x[..a] + (x[a..b] + x[a..b]) + x[b..]
  {
    assert x[a..] == x[a..b] + x[b..];
  }

  lemma TwoBlobs(v: bytes)
    requires |v| < 0x1_0000_0000
    ensures FlatBlobs([v, v]) == Blob(v) + Blob(v)
  {
    FlatBlobsOne(v);
    FlatBlobsConcat([v], [v]);
    assert [v] + [v] == [v, v];
  }

  /** Two slice assignments that swap two chunks of equal length. */
  method SwapChunks(stream: bytes, start: nat, chunks: seq<Span>, i: nat, j: nat, ghost blobs: seq<bytes>)
    returns (e: bytes)
    requires start <= |stream| && AllBlobs(blobs) && stream[start..] == FlatBlobs(blobs)
    requires chunks == BlobSpans(blobs, start) && i < j < |blobs| && chunks[i].n == chunks[j].n
    ensures AllBlobs(blobs[i := blobs[j]][j := blobs[i]])
    ensures e == stream[..start] + FlatBlobs(blobs[i := blobs[j]][j := blobs[i]])
  {
    BlobAtSpan(stream, start, blobs, i);
    BlobAtSpan(stream, start, blobs, j);
    var a, b := chunks[i], chunks[j];
    var segA := stream[a.lenPos..a.valPos + a.n];
    var segB := stream[b.lenPos..b.valPos + b.n];
    e := stream;
    e := e[..a.lenPos] + segB + e[a.valPos + a.n..];
    ghost var once := blobs[i := blobs[j]];
    PatchBytes(stream, start, blobs, i, blobs[j], e);
    OncePatched(blobs, start, i, j);
    BlobAtSpan(e, start, once, j);
    ghost var was := e;
    e := e[..b.lenPos] + segA + e[b.valPos + b.n..];
    PatchBytes(was, start, once, j, blobs[i], e);
  }

  /** Patching a chunk with one of equal length moves no span. */
  lemma OncePatched(b: seq<bytes>, off: nat, i: nat, j: nat)
    requires i < |b| && j < |b| && BlobSpans(b, off)[i].n == BlobSpans(b, off)[j].n && AllBlobs(b)
    ensures BlobSpans(b[i := b[j]], off) == BlobSpans(b, off)
  {
    BlobSpanAt(b, off, i);
    BlobSpanAt(b, off, j);
    SameSpans(b[i := b[j]], b, off);
  }

  /** Overwriting a chunk's bytes with another framed chunk updates the chunk list. */
  lemma PatchBytes(x: bytes, off: nat, b: seq<bytes>, i: nat, v: bytes, e: bytes)
    requires AllBlobs(b) && off <= |x| && x[off..] == FlatBlobs(b) && i < |b| && |v| < 0x1_0000_0000
    requires var s := BlobSpans(b, off)[i];
             s.lenPos <= |x| && s.valPos + s.n <= |x| && e == x[..s.lenPos] + Blob(v) + x[s.valPos + s.n..]
    ensures AllBlobs(b[i := v]) && e == x[..off] + FlatBlobs(b[i := v])
    ensures |e| >= off && e[..off] == x[..off] && e[off..] == FlatBlobs(b[i := v])
  {
    FlatBlobsOne(v);
    Splice(x, off, b, i, [v], e);
    assert b[i := v] == b[..i] + [v] + b[i + 1..];
  }

  /** Spans depend on the lengths only. */
  lemma {:induction false} SameSpans(a: seq<bytes>, b: seq<bytes>, off: nat)
    requires |a| == |b| && forall i :: 0 <= i < |a| ==> |a[i]| == |b[i]|
    ensures BlobSpans(a, off) == BlobSpans(b, off)
    decreases |a|
  {
    if a != [] { SameSpans(a[1..], b[1..], off + 4 + |a[0]|); }
  }

  // ---------------------------------------------------------------- rejection

  /** A stream whose key the adversary does not hold opens only as it was sealed: any other body after
      its header is rejected. */
  lemma AlteredBodyRejected(p: Prims, steps: seq<Step>, w: World, k: nat, priv: bytes, body: bytes)
    requires Lengths(p) && Run(p, steps) == Some(w) && k < |w.sessions| && Sound(w.sessions[k]) && w.sessions[k].stream
    requires S.PlanStream(Oracle(p, w), Output(w.sessions[k]), priv).Ok? ==>
               S.PlanStream(Oracle(p, w), Output(w.sessions[k]), priv).value.secrets.key !in w.advKeys
    requires body != FlatBlobs(w.sessions[k].sealed)
    ensures S.OpenStream(Oracle(p, w), w.sessions[k].header + body, priv).Err?
  {
    RunKeeps(p, steps);
    var o, s := Oracle(p, w), w.sessions[k];
    var x := s.header + body;
    if S.OpenStream(o, x, priv).Ok? {
      assert WellMade(s);
      var h: S.Head :| h.t == s.t && h.Printable() && AllShort(h.Fields()) && s.header == S.PrintHead(h);
      S.ParseHeadIff(x, h, body);
      S.ParseHeadIff(Output(s), h, FlatBlobs(s.sealed));
      var k' := StreamIntegrity(p, w, x, priv);
      var s' := w.sessions[k'];
      assert WellMade(s');
      var h': S.Head :| h'.t == s'.t && h'.Printable() && AllShort(h'.Fields()) && s'.header == S.PrintHead(h');
      S.ParseHeadIff(x, h', FlatBlobs(s'.sealed));
      OneSession(w, k, k');
      assert false;
    }
  }

  /** While the adversary has derived no key, as when test vectors are made from honest envelopes and
      streams, nothing opens but what was sealed, byte for byte: whatever was flipped, cut, appended,
      spliced or transplanted. */
  lemma OnlyOutputsOpen(p: Prims, steps: seq<Step>, w: World, x: bytes, priv: bytes,
                        pin: Option<bytes>, psk: Option<bytes>, policy: Option<string>)
    requires Lengths(p) && Run(p, steps) == Some(w) && w.advKeys == {}
    ensures R.Decrypt(Oracle(p, w), x, priv, pin, psk, policy).Ok? ==> IsOutput(w, x)
    ensures S.OpenStream(Oracle(p, w), x, priv).Ok? ==> IsOutput(w, x)
  {
    var m, n := R.Decrypt(Oracle(p, w), x, priv, pin, psk, policy), S.OpenStream(Oracle(p, w), x, priv);
    if m.Ok? { T.EnvelopesOnlyFromSenders(p, steps, w, x, priv, pin, psk, policy, m.value); }
    if n.Ok? { T.StreamsOnlyFromSenders(p, steps, w, x, priv, n.value); }
  }

  /** A changed envelope that keeps the ephemeral key, ciphertext and nonce of an honest one is no
      other honest envelope or stream. */
  lemma ChangedIsNoOutput(w: World, k: nat, x: bytes, e: E.Envelope)
    requires SessionsOk(w) && k < |w.sessions| && E.Parse(x) == Ok(e) && IsOutput(w, x)
    requires var t := w.sessions[k].t; e.eph == t.eph && e.ct == t.ct && e.nonce == t.nonce
    ensures Sound(w.sessions[k]) && x == Output(w.sessions[k])
  {
    var j: nat :| j < |w.sessions| && Sound(w.sessions[j]) && Output(w.sessions[j]) == x;
    assert WellMade(w.sessions[j]);
    OutputTranscript(w.sessions[j], x, e);
    OneSession(w, j, k);
  }

  /** Tamper families of an honest envelope: with the classical or the ML-KEM leg unexposed, any change
      that keeps suite, ephemeral key and ciphertext (flags, nonce, sender block, sealed bytes, tag,
      key-id, trailing bytes) is rejected, unless it happens to be another honest envelope. */
  lemma TamperedEnvelopesRejected(
    p: Prims, steps: seq<Step>, w: World, k: nat, m: bytes, id: byte, xPriv: bytes, seed: bytes,
    sk: Option<bytes>, pk: Option<bytes>, psk: Option<bytes>, c: R.Coins,
    x: bytes, e: E.Envelope, pin: Option<bytes>, psk': Option<bytes>, policy: Option<string>)
    requires Lengths(p) && KeysAgree(p) && Run(p, steps) == Some(w) && k < |w.sessions|
    requires K.RecipientKeys(p, id, xPriv, seed).Ok?
    requires var (pub, priv) := K.RecipientKeys(p, id, xPriv, seed).value;
             K.Printable(pub) && K.Printable(priv) && R.Encrypt(p, m, K.Print(pub), sk, pk, psk, c) == Ok(w.sessions[k])
    requires var s := w.sessions[k];
             (s.t.suite != 3 && ClassicalOf(s.t.kid) !in w.exposed) || PqOf(s.t.kid) !in w.exposed
    requires var s := w.sessions[k]; E.Parse(x) == Ok(e) && e.suite == s.t.suite && e.eph == s.t.eph && e.ct == s.t.ct
    requires !IsOutput(w, x)
    ensures var priv := K.RecipientKeys(p, id, xPriv, seed).value.1;
            R.Decrypt(Oracle(p, w), x, K.Print(priv), pin, psk', policy).Err?
  {
    RunKeeps(p, steps);
    var o, s := Oracle(p, w), w.sessions[k];
    var priv := K.RecipientKeys(p, id, xPriv, seed).value.1;
    if R.Decrypt(o, x, K.Print(priv), pin, psk', policy).Ok? {
      SameSecrets(p, w, k, m, id, xPriv, seed, sk, pk, psk, c, x, e, pin, psk', policy);
      var i := UnknownLeg(w, k);
      var k' := T.AcceptedWithUnknownLeg(p, steps, w, x, K.Print(priv), pin, psk', policy, i);
      assert false;
    }
  }

  /** A recipient who opens an envelope with this session's suite, ephemeral key and ciphertext derives
      this session's two KEM secrets. */
  lemma SameSecrets(
    p: Prims, w: World, k: nat, m: bytes, id: byte, xPriv: bytes, seed: bytes,
    sk: Option<bytes>, pk: Option<bytes>, psk: Option<bytes>, c: R.Coins,
    x: bytes, e: E.Envelope, pin: Option<bytes>, psk': Option<bytes>, policy: Option<string>)
    requires Lengths(p) && KeysAgree(p) && k < |w.sessions| && E.Parse(x) == Ok(e)
    requires K.RecipientKeys(p, id, xPriv, seed).Ok?
    requires var (pub, priv) := K.RecipientKeys(p, id, xPriv, seed).value;
             K.Printable(pub) && K.Printable(priv) && R.Encrypt(p, m, K.Print(pub), sk, pk, psk, c) == Ok(w.sessions[k])
    requires var s := w.sessions[k]; e.suite == s.t.suite && e.eph == s.t.eph && e.ct == s.t.ct
    requires var priv := K.RecipientKeys(p, id, xPriv, seed).value.1;
             R.PlanOpen(Oracle(p, w), x, K.Print(priv), pin, psk', policy).Ok?
    ensures var priv := K.RecipientKeys(p, id, xPriv, seed).value.1;
            var plan := R.PlanOpen(Oracle(p, w), x, K.Print(priv), pin, psk', policy).value;
            plan.ssc == w.sessions[k].ssc && plan.sspq == w.sessions[k].sspq
  {
    var o := Oracle(p, w);
    E.ParseIff(x, e);
    var priv := K.RecipientKeys(p, id, xPriv, seed).value.1;
    SessionSecrets(p, m, id, xPriv, seed, sk, pk, psk, c);
    K.ParseIff(o, K.Print(priv), K.ROLE_KEM_PRIV, priv);
    PlanSecrets(o, e, K.Print(priv), priv, pin, psk', policy);
  }

  /** The recipient's private parts recover the two KEM secrets of a session sealed to it. */
  lemma SessionSecrets(p: Prims, m: bytes, id: byte, xPriv: bytes, seed: bytes,
                       sk: Option<bytes>, pk: Option<bytes>, psk: Option<bytes>, c: R.Coins)
    requires KeysAgree(p) && K.RecipientKeys(p, id, xPriv, seed).Ok?
    requires var pub := K.RecipientKeys(p, id, xPriv, seed).value.0;
             K.Printable(pub) && R.Encrypt(p, m, K.Print(pub), sk, pk, psk, c).Ok?
    ensures var (pub, priv) := K.RecipientKeys(p, id, xPriv, seed).value;
            var s, suite := R.Encrypt(p, m, K.Print(pub), sk, pk, psk, c).value, SuiteOf(id).value;
            && s.t.suite == id
            && p.Exchange(suite.kex, priv.parts[0], s.t.eph) == Ok(s.ssc)
                 && p.decaps(suite.kem, priv.parts[1], s.t.ct) == Ok(s.sspq)
  {
    var (pub, priv) := K.RecipientKeys(p, id, xPriv, seed).value;
    K.ParseIff(p, K.Print(pub), K.ROLE_KEM_PUB, pub);
    var rb, suite, signed := RT.EncryptInverts(p, m, K.Print(pub), sk, pk, psk, c);
    RT.SecretsAgree(p, id, xPriv, seed, c.eph, c.kem);
  }

  /** One of the two KEM legs of a session with an unexposed owner is not in the adversary's hands. */
  lemma UnknownLeg(w: World, k: nat) returns (i: nat)
    requires Inv(w) && k < |w.sessions|
    requires var s := w.sessions[k];
             (s.t.suite != 3 && ClassicalOf(s.t.kid) !in w.exposed) || PqOf(s.t.kid) !in w.exposed
    ensures i < 2 && [w.sessions[k].ssc, w.sessions[k].sspq][i] !in w.known
  {
    var s := w.sessions[k];
    if PqOf(s.t.kid) !in w.exposed {
      i := 1;
      assert Leg(s, PqOf(s.t.kid), s.sspq);
      assert s.sspq in w.known ==> Harmless(w, s, s.sspq);
    } else {
      i := 0;
      assert Leg(s, ClassicalOf(s.t.kid), s.ssc);
      assert s.ssc in w.known ==> Harmless(w, s, s.ssc);
    }
  }

  lemma PlanSecrets(o: Prims, e: E.Envelope, privBytes: bytes, priv: K.Bundle, pin: Option<bytes>, psk: Option<bytes>,
                    policy: Option<string>)
    requires SuiteOf(e.suite).Ok? && R.PlanParsed(o, e, privBytes, pin, psk, policy).Ok?
    requires K.Parse(o, privBytes, K.ROLE_KEM_PRIV) == Ok(priv) && |priv.parts| == 2
    ensures var plan, s := R.PlanParsed(o, e, privBytes, pin, psk, policy).value, SuiteOf(e.suite).value;
            o.Exchange(s.kex, priv.parts[0], e.eph) == Ok(plan.ssc)
                && o.decaps(s.kem, priv.parts[1], e.ct) == Ok(plan.sspq)
  {
    var kb := R.MatchRecipient(o, privBytes, e.suite, e.kid);
    assert kb == Ok(priv);
  }

  /** Tamper families of an honest stream: every dropped chunk (the final one included), every
      repeated chunk and every swap of two different chunks is rejected. */
  lemma TamperedStreamsRejected(p: Prims, steps: seq<Step>, w: World, k: nat, priv: bytes, i: nat, j: nat)
    requires Lengths(p) && Run(p, steps) == Some(w) && k < |w.sessions| && Sound(w.sessions[k]) && w.sessions[k].stream
    requires S.PlanStream(Oracle(p, w), Output(w.sessions[k]), priv).Ok? ==>
               S.PlanStream(Oracle(p, w), Output(w.sessions[k]), priv).value.secrets.key !in w.advKeys
    requires i < |w.sessions[k].sealed| && j < |w.sessions[k].sealed|
    ensures var s, o := w.sessions[k], Oracle(p, w);
            var b, swapped := s.sealed, s.sealed[i := s.sealed[j]][j := s.sealed[i]];
            && AllBlobs(Without(b, i)) && AllBlobs(Doubled(b, i)) && AllBlobs(swapped)
            && S.OpenStream(o, s.header + FlatBlobs(Without(b, i)), priv).Err?
            && S.OpenStream(o, s.header + FlatBlobs(Doubled(b, i)), priv).Err?
            && (b[i] != b[j] ==> S.OpenStream(o, s.header + FlatBlobs(swapped), priv).Err?)
  {
    var b := w.sessions[k].sealed;
    ChunkListsDiffer(b, i, j);
    AlteredBodyRejected(p, steps, w, k, priv, FlatBlobs(Without(b, i)));
    AlteredBodyRejected(p, steps, w, k, priv, FlatBlobs(Doubled(b, i)));
    if b[i] != b[j] {
      AlteredBodyRejected(p, steps, w, k, priv, FlatBlobs(b[i := b[j]][j := b[i]]));
    }
  }

  /** And by the recipient itself, against an active adversary, as long as one KEM leg is unexposed. */
  lemma RecipientRejectsTamperedStreams(
    p: Prims, steps: seq<Step>, w: World, k: nat, m: bytes, id: byte, xPriv: bytes, seed: bytes, chunkSize: int,
    c: R.Coins,
    i: nat, j: nat)
    requires Lengths(p) && KeysAgree(p) && Run(p, steps) == Some(w) && k < |w.sessions|
    requires K.RecipientKeys(p, id, xPriv, seed).Ok?
    requires var (pub, priv) := K.RecipientKeys(p, id, xPriv, seed).value;
             K.Printable(pub) && K.Printable(priv)
                 && S.SealStream(p, m, K.Print(pub), chunkSize, c) == Ok(w.sessions[k])
    requires var t := w.sessions[k].t; (t.suite != 3 && ClassicalOf(t.kid) !in w.exposed) || PqOf(t.kid) !in w.exposed
    requires i < |w.sessions[k].sealed| && j < |w.sessions[k].sealed|
    ensures var s, o, priv := w.sessions[k], Oracle(p, w), K.Print(K.RecipientKeys(p, id, xPriv, seed).value.1);
            var b, swapped := s.sealed, s.sealed[i := s.sealed[j]][j := s.sealed[i]];
            && AllBlobs(Without(b, i)) && AllBlobs(Doubled(b, i)) && AllBlobs(swapped)
            && S.OpenStream(o, s.header + FlatBlobs(Without(b, i)), priv).Err?
            && S.OpenStream(o, s.header + FlatBlobs(Doubled(b, i)), priv).Err?
            && (b[i] != b[j] ==> S.OpenStream(o, s.header + FlatBlobs(swapped), priv).Err?)
  {
    RunKeeps(p, steps);
    L.RecipientKeyGuarded(p, w, k, m, id, xPriv, seed, chunkSize, c);
    TamperedStreamsRejected(p, steps, w, k, K.Print(K.RecipientKeys(p, id, xPriv, seed).value.1), i, j);
  }

  lemma ChunkListsDiffer(b: seq<bytes>, i: nat, j: nat)
    requires AllBlobs(b) && i < |b| && j < |b|
    ensures var swapped := b[i := b[j]][j := b[i]];
            && AllBlobs(Without(b, i)) && AllBlobs(Doubled(b, i)) && AllBlobs(swapped)
            && FlatBlobs(Without(b, i)) != FlatBlobs(b) && FlatBlobs(Doubled(b, i)) != FlatBlobs(b)
            && (b[i] != b[j] ==> FlatBlobs(swapped) != FlatBlobs(b))
  {
    var swapped := b[i := b[j]][j := b[i]];
    assert i == j || swapped[i] == b[j];
    if FlatBlobs(Without(b, i)) == FlatBlobs(b) { FlatBlobsInjective(Without(b, i), b); }
    if FlatBlobs(Doubled(b, i)) == FlatBlobs(b) { FlatBlobsInjective(Doubled(b, i), b); }
    if b[i] != b[j] && FlatBlobs(swapped) == FlatBlobs(b) { FlatBlobsInjective(swapped, b); assert false; }
  }
}
