/** The length-value framing of vorlath_shield/shield.py: a u16 length before each field, read by a
    cursor over an attacker-controlled buffer.  Parsing is specified on the remaining bytes
    (`TakeTlv`, `TakeTlvs`); the source's reader works on a buffer and an offset (`ReadTlv`). */
module Framing {
  import opened Bytes

  function Tlv(v: bytes): bytes
    requires |v| <= 0xFFFF
  {
    U16(|v|) + v
  }

  /** `_tlv`: the checked encoder. */
  function EncodeTlv(v: bytes): Result<bytes> {
    if |v| > 0xFFFF then Err(TlvTooLong) else Ok(Tlv(v))
  }

  /** `_read_tlv(buf, off)`: the value and the offset just past it. */
  function ReadTlv(buf: bytes, off: nat): (r: Result<(bytes, nat)>)
    ensures r.Ok? ==> off + 2 <= r.value.1 <= |buf|
  {
    if off + 2 > |buf| then Err(MissingTlvLength)
    else
      var n := GetU16(buf[off..off + 2]);
      var start := off + 2;
      var end := start + n;
      if end > |buf| then Err(TlvPastEnd) else Ok((buf[start..end], end))
  }

  /** The first field of `s` and the bytes after it. */
  function TakeTlv(s: bytes): (r: Result<(bytes, bytes)>)
    ensures r.Ok? ==> |r.value.1| + 2 <= |s|
  {
    if |s| < 2 then Err(MissingTlvLength)
    else
      var n := GetU16(s);
      if 2 + n > |s| then Err(TlvPastEnd) else Ok((s[2..2 + n], s[2 + n..]))
  }

  /** The cursor reader and the suffix reader are one function. */
  lemma ReadIsTake(buf: bytes, off: nat)
    requires off <= |buf|
    ensures ReadTlv(buf, off).Err? ==> TakeTlv(buf[off..]) == Err(ReadTlv(buf, off).error)
    ensures ReadTlv(buf, off).Ok? ==>
              TakeTlv(buf[off..]) == Ok((ReadTlv(buf, off).value.0, buf[ReadTlv(buf, off).value.1..]))
  {
    if off + 2 <= |buf| {
      assert GetU16(buf[off..off + 2]) == GetU16(buf[off..]);
      var n := GetU16(buf[off..]);
      if off + 2 + n <= |buf| {
        assert buf[off..][2..2 + n] == buf[off + 2..off + 2 + n];
        assert buf[off..][2 + n..] == buf[off + 2 + n..];
      }
    }
  }

  /** A field is read exactly when the buffer starts with its unique encoding. */
  lemma TakeTlvIff(s: bytes, v: bytes, rest: bytes)
    ensures TakeTlv(s) == Ok((v, rest)) <==> |v| <= 0xFFFF && s == Tlv(v) + rest
  {
    if |v| <= 0xFFFF && s == Tlv(v) + rest {
      assert s == U16(|v|) + (v + rest);
      U16RoundTrip(|v|, v + rest);
      assert s[2..2 + |v|] == v && s[2 + |v|..] == rest;
    }
    if TakeTlv(s) == Ok((v, rest)) {
      U16OfGet(s);
      assert s == s[..2] + s[2..2 + |v|] + s[2 + |v|..];
    }
  }

  ghost predicate AllShort(vs: seq<bytes>) {
    forall i :: 0 <= i < |vs| ==> |vs[i]| <= 0xFFFF
  }

  function FlatTlv(vs: seq<bytes>): bytes
    requires AllShort(vs)
  {
    if vs == [] then [] else Tlv(vs[0]) + FlatTlv(vs[1..])
  }

  lemma {:induction false} FlatTlvAppend(vs: seq<bytes>, v: bytes)
    requires AllShort(vs) && |v| <= 0xFFFF
    ensures AllShort(vs + [v]) && FlatTlv(vs + [v]) == FlatTlv(vs) + Tlv(v)
  {
    if vs == [] {
      assert vs + [v] == [v] && [v][1..] == [];
    } else {
      assert (vs + [v])[0] == vs[0] && (vs + [v])[1..] == vs[1..] + [v];
      FlatTlvAppend(vs[1..], v);
      assert Tlv(vs[0]) + (FlatTlv(vs[1..]) + Tlv(v)) == (Tlv(vs[0]) + FlatTlv(vs[1..])) + Tlv(v);
    }
  }

  /** Fields up to the end of the buffer. */
  function TakeTlvs(s: bytes): Result<seq<bytes>>
    decreases |s|
  {
    if s == [] then Ok([])
    else
      var (v, rest) :- TakeTlv(s);
      var vs :- TakeTlvs(rest);
      Ok([v] + vs)
  }

  lemma {:induction false} TakeTlvsSound(s: bytes)
    requires TakeTlvs(s).Ok?
    ensures AllShort(TakeTlvs(s).value) && s == FlatTlv(TakeTlvs(s).value)
    decreases |s|
  {
    if s != [] {
      var (v, rest) := TakeTlv(s).value;
      TakeTlvIff(s, v, rest);
      TakeTlvsSound(rest);
      assert TakeTlvs(s).value[1..] == TakeTlvs(rest).value;
    }
  }

  lemma {:induction false} TakeTlvsComplete(vs: seq<bytes>)
    requires AllShort(vs)
    ensures TakeTlvs(FlatTlv(vs)) == Ok(vs)
  {
    if vs != [] {
      TakeTlvIff(FlatTlv(vs), vs[0], FlatTlv(vs[1..]));
      TakeTlvsComplete(vs[1..]);
      assert vs == [vs[0]] + vs[1..];
    }
  }

  /** Parsing inverts printing and printing inverts parsing, for any number of fields. */
  lemma TakeTlvsIff(s: bytes, vs: seq<bytes>)
    ensures TakeTlvs(s) == Ok(vs) <==> AllShort(vs) && s == FlatTlv(vs)
  {
    if TakeTlvs(s) == Ok(vs) { TakeTlvsSound(s); }
    if AllShort(vs) && s == FlatTlv(vs) { TakeTlvsComplete(vs); }
  }

  /** Exactly `n` fields, and the bytes after them. */
  function TakeFields(s: bytes, n: nat): (r: Result<(seq<bytes>, bytes)>)
    ensures r.Ok? ==> |r.value.0| == n && |r.value.1| <= |s|
  {
    if n == 0 then Ok(([], s))
    else
      var (v, rest) :- TakeTlv(s);
      var (vs, tail) :- TakeFields(rest, n - 1);
      Ok(([v] + vs, tail))
  }

  lemma {:induction false} TakeFieldsSound(s: bytes, n: nat)
    requires TakeFields(s, n).Ok?
    ensures var (vs, tail) := TakeFields(s, n).value; AllShort(vs) && s == FlatTlv(vs) + tail
  {
    var (vs, tail) := TakeFields(s, n).value;
    if n > 0 {
      var (v, rest) := TakeTlv(s).value;
      TakeTlvIff(s, v, rest);
      TakeFieldsSound(rest, n - 1);
      assert vs[1..] == TakeFields(rest, n - 1).value.0;
      assert s == Tlv(v) + (FlatTlv(vs[1..]) + tail);
      assert s == (Tlv(v) + FlatTlv(vs[1..])) + tail;
    }
  }

  lemma {:induction false} TakeFieldsComplete(vs: seq<bytes>, tail: bytes)
    requires AllShort(vs)
    ensures TakeFields(FlatTlv(vs) + tail, |vs|) == Ok((vs, tail))
  {
    var s := FlatTlv(vs) + tail;
    if vs == [] {
      assert s == tail;
    } else {
      var rest := FlatTlv(vs[1..]) + tail;
      assert s == Tlv(vs[0]) + rest;
      TakeTlvIff(s, vs[0], rest);
      TakeFieldsComplete(vs[1..], tail);
      assert vs == [vs[0]] + vs[1..];
    }
  }

  lemma TakeFieldsIff(s: bytes, n: nat, vs: seq<bytes>, tail: bytes)
    ensures TakeFields(s, n) == Ok((vs, tail)) <==> |vs| == n && AllShort(vs) && s == FlatTlv(vs) + tail
  {
    if TakeFields(s, n) == Ok((vs, tail)) { TakeFieldsSound(s, n); }
    if |vs| == n && AllShort(vs) && s == FlatTlv(vs) + tail { TakeFieldsComplete(vs, tail); }
  }

  /** One cursor step of a reader that still wants `n` fields. */
  lemma ReadField(buf: bytes, off: nat, n: nat)
    requires off <= |buf| && n > 0
    ensures ReadTlv(buf, off).Err? ==> TakeFields(buf[off..], n) == Err(ReadTlv(buf, off).error)
    ensures ReadTlv(buf, off).Ok? ==>
              var (v, end) := ReadTlv(buf, off).value;
              var rest := TakeFields(buf[end..], n - 1);
              TakeFields(buf[off..], n) == if rest.Err? then rest else Ok(([v] + rest.value.0, rest.value.1))
  {
    ReadIsTake(buf, off);
  }

  /** `n` cursor reads in a row. */
  method ReadFields(x: bytes, start: nat, n: nat) returns (r: Result<(seq<bytes>, nat)>)
    requires start <= |x|
    ensures r.Err? ==> TakeFields(x[start..], n) == Err(r.error)
    ensures r.Ok? ==> |r.value.0| == n && start <= r.value.1 <= |x|
                      && TakeFields(x[start..], n) == Ok((r.value.0, x[r.value.1..]))
    decreases n
  {
    if n == 0 { return Ok(([], start)); }
    ReadField(x, start, n);
    var first :- ReadTlv(x, start);
    var rest :- ReadFields(x, first.1, n - 1);
    return Ok(([first.0] + rest.0, rest.1));
  }

  /** Length framing is injective: a list of fields is determined by its bytes. */
  lemma FlatTlvInjective(xs: seq<bytes>, ys: seq<bytes>)
    requires AllShort(xs) && AllShort(ys) && FlatTlv(xs) == FlatTlv(ys)
    ensures xs == ys
  {
    TakeTlvsIff(FlatTlv(xs), xs);
    TakeTlvsIff(FlatTlv(xs), ys);
  }

  // ---------------------------------------------------------------- u32-framed chunks of a stream

  ghost predicate AllBlobs(vs: seq<bytes>) {
    forall i :: 0 <= i < |vs| ==> |vs[i]| < 0x1_0000_0000
  }

  function Blob(v: bytes): bytes
    requires |v| < 0x1_0000_0000
  {
    U32(|v|) + v
  }

  function FlatBlobs(vs: seq<bytes>): bytes
    requires AllBlobs(vs)
  {
    if vs == [] then [] else Blob(vs[0]) + FlatBlobs(vs[1..])
  }

  function TakeBlob(s: bytes): (r: Result<(bytes, bytes)>)
    ensures r.Ok? ==> |r.value.1| + 4 <= |s|
  {
    if |s| < 4 then Err(MissingChunkLength)
    else
      var n := GetU32(s);
      if 4 + n > |s| then Err(ChunkPastEnd) else Ok((s[4..4 + n], s[4 + n..]))
  }

  /** Chunks up to the end of the buffer. */
  function TakeBlobs(s: bytes): Result<seq<bytes>>
    decreases |s|
  {
    if s == [] then Ok([])
    else
      var (v, rest) :- TakeBlob(s);
      var vs :- TakeBlobs(rest);
      Ok([v] + vs)
  }

  /** The bounds-checked read of one chunk at a cursor, as in the stream readers' loops. */
  function ReadBlob(x: bytes, off: nat): (r: Result<(bytes, nat)>)
    ensures r.Ok? ==> off + 4 <= r.value.1 <= |x|
  {
    if off + 4 > |x| then Err(MissingChunkLength)
    else
      var clen := GetU32(x[off..off + 4]);
      if off + 4 + clen > |x| then Err(ChunkPastEnd) else Ok((x[off + 4..off + 4 + clen], off + 4 + clen))
  }

  lemma ReadBlobIsTake(x: bytes, off: nat)
    requires off <= |x|
    ensures ReadBlob(x, off).Err? ==> TakeBlob(x[off..]) == Err(ReadBlob(x, off).error)
    ensures ReadBlob(x, off).Ok? ==>
              TakeBlob(x[off..]) == Ok((ReadBlob(x, off).value.0, x[ReadBlob(x, off).value.1..]))
  {
    if off + 4 <= |x| {
      assert GetU32(x[off..off + 4]) == GetU32(x[off..]);
      var n := GetU32(x[off..]);
      if off + 4 + n <= |x| {
        assert x[off..][4..4 + n] == x[off + 4..off + 4 + n];
        assert x[off..][4 + n..] == x[off + 4 + n..];
      }
    }
  }

  lemma TakeBlobsStep(x: bytes, off: nat)
    requires off < |x|
    ensures ReadBlob(x, off).Err? ==> TakeBlobs(x[off..]) == Err(ReadBlob(x, off).error)
    ensures ReadBlob(x, off).Ok? ==>
              TakeBlobs(x[off..]) == Prepended([ReadBlob(x, off).value.0], TakeBlobs(x[ReadBlob(x, off).value.1..]))
  {
    ReadBlobIsTake(x, off);
  }

  lemma TakeBlobIff(s: bytes, v: bytes, rest: bytes)
    ensures TakeBlob(s) == Ok((v, rest)) <==> |v| < 0x1_0000_0000 && s == Blob(v) + rest
  {
    if |v| < 0x1_0000_0000 && s == Blob(v) + rest {
      assert s == U32(|v|) + (v + rest);
      U32RoundTrip(|v|, v + rest);
      assert s[4..4 + |v|] == v && s[4 + |v|..] == rest;
    }
    if TakeBlob(s) == Ok((v, rest)) {
      U32OfGet(s);
      assert s == s[..4] + s[4..4 + |v|] + s[4 + |v|..];
    }
  }

  lemma {:induction false} TakeBlobsSound(s: bytes)
    requires TakeBlobs(s).Ok?
    ensures AllBlobs(TakeBlobs(s).value) && s == FlatBlobs(TakeBlobs(s).value)
    decreases |s|
  {
    if s != [] {
      var (v, rest) := TakeBlob(s).value;
      TakeBlobIff(s, v, rest);
      TakeBlobsSound(rest);
      assert TakeBlobs(s).value[1..] == TakeBlobs(rest).value;
    }
  }

  lemma {:induction false} TakeBlobsComplete(vs: seq<bytes>)
    requires AllBlobs(vs)
    ensures TakeBlobs(FlatBlobs(vs)) == Ok(vs)
  {
    if vs != [] {
      TakeBlobIff(FlatBlobs(vs), vs[0], FlatBlobs(vs[1..]));
      TakeBlobsComplete(vs[1..]);
      assert vs == [vs[0]] + vs[1..];
    }
  }

  lemma TakeBlobsIff(s: bytes, vs: seq<bytes>)
    ensures TakeBlobs(s) == Ok(vs) <==> AllBlobs(vs) && s == FlatBlobs(vs)
  {
    if TakeBlobs(s) == Ok(vs) { TakeBlobsSound(s); }
    if AllBlobs(vs) && s == FlatBlobs(vs) { TakeBlobsComplete(vs); }
  }

  lemma FlatBlobsInjective(xs: seq<bytes>, ys: seq<bytes>)
    requires AllBlobs(xs) && AllBlobs(ys) && FlatBlobs(xs) == FlatBlobs(ys)
    ensures xs == ys
  {
    TakeBlobsIff(FlatBlobs(xs), xs);
    TakeBlobsIff(FlatBlobs(xs), ys);
  }

  lemma FlatBlobsConcat(xs: seq<bytes>, ys: seq<bytes>)
    requires AllBlobs(xs) && AllBlobs(ys)
    ensures AllBlobs(xs + ys) && FlatBlobs(xs + ys) == FlatBlobs(xs) + FlatBlobs(ys)
  {
    if xs == [] {
      assert xs + ys == ys;
    } else {
      assert (xs + ys)[1..] == xs[1..] + ys;
      FlatBlobsConcat(xs[1..], ys);
    }
  }

  lemma FlatBlobsOne(v: bytes)
    requires |v| < 0x1_0000_0000
    ensures FlatBlobs([v]) == Blob(v)
  {
    assert [v][1..] == [];
    assert Blob(v) + [] == Blob(v);
  }
}
