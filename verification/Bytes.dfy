/** Byte strings, the big-endian integers of `struct.pack(">H")` / `struct.pack(">I")`, and the
    exceptions of the program as a failure-compatible `Result`. */
module Bytes {

  type byte = b: int | 0 <= b < 256
  type bytes = seq<byte>

  datatype Option<+T> = None | Some(value: T)

  /** One constructor per `raise` of the decoders and encoders.  `InvalidTag` is the AEAD
      library's own exception; `Primitive` stands for any other exception of a crypto library. */
  datatype Error =
    | NotAnEnvelope | UnsupportedVersion | NotAStream | UnsupportedStreamVersion | UnknownSuite
    | MissingTlvLength | TlvPastEnd | TlvTooLong
    | MissingCiphertextLength | LengthMismatch
    | TruncatedStreamHeader | MissingChunkLength | ChunkPastEnd | EmptyStream
    | ChunkSizeOutOfRange | TooManyChunks
    | NotAKeyBundle | UnsupportedKeyVersion | WrongKeyRole | KeyIdMismatch | WrongPartCount
    | SuiteMismatch | WrongRecipient
    | SenderBlockTrailing | SenderKidMismatch | BadSignature | WrongSender | NotAuthenticated
    | SenderPublicMissing
    | PpkWithoutPolicy | UnknownPolicy | PpkRequiredButMissing | PpkRequiredButUnbound
    | PpkForbidden | PpkNotSupplied
    | AeadOpenFailed | InvalidTag | PackRange | ContextTooLong | Primitive(code: int)

  datatype Result<+T> = Ok(value: T) | Err(error: Error) {
    predicate IsFailure() {
      Err?
    }

    function PropagateFailure<U>(): Result<U>
      requires Err?
    {
      Err(error)
    }

    function Extract(): T
      requires Ok?
    {
      value
    }
  }

  /** A result whose list gains a prefix: how an accumulating loop stands to its specification. */
  function Prepended<T>(xs: seq<T>, r: Result<seq<T>>): Result<seq<T>> {
    if r.Err? then r else Ok(xs + r.value)
  }

  lemma PrependedTwice<T>(xs: seq<T>, ys: seq<T>, r: Result<seq<T>>)
    ensures Prepended(xs, Prepended(ys, r)) == Prepended(xs + ys, r)
  {
    if r.Ok? { assert xs + (ys + r.value) == xs + ys + r.value; }
  }

  lemma PrependedUnits<T>(xs: seq<T>, r: Result<seq<T>>)
    ensures Prepended([], r) == r && Prepended(xs, Ok([])) == Ok(xs)
  {
    if r.Ok? { assert [] + r.value == r.value; }
    assert xs + [] == xs;
  }

  /** The bytes of an ASCII label. */
  function Ascii(s: string): (b: bytes)
    requires forall i :: 0 <= i < |s| ==> s[i] as int < 128
    ensures |b| == |s| && forall i :: 0 <= i < |s| ==> b[i] == s[i] as int
  {
    seq(|s|, i requires 0 <= i < |s| => s[i] as int)
  }

  function U16(n: nat): bytes
    requires n < 0x1_0000
  {
    [n / 0x100, n % 0x100]
  }

  function U32(n: nat): bytes
    requires n < 0x1_0000_0000
  {
    [n / 0x100_0000, n / 0x1_0000 % 0x100, n / 0x100 % 0x100, n % 0x100]
  }

  /** `struct.unpack_from(">H", b)` on the first two bytes. */
  function GetU16(b: bytes): (n: nat)
    requires |b| >= 2
    ensures n < 0x1_0000
  {
    var h: int := b[0];
    h * 0x100 + b[1]
  }

  /** `struct.unpack_from(">I", b)` on the first four bytes. */
  function GetU32(b: bytes): (n: nat)
    requires |b| >= 4
    ensures n < 0x1_0000_0000
  {
    var (x: int, y: int, z: int) := (b[0], b[1], b[2]);
    x * 0x100_0000 + y * 0x1_0000 + z * 0x100 + b[3]
  }

  lemma U16RoundTrip(n: nat, rest: bytes)
    requires n < 0x1_0000
    ensures GetU16(U16(n) + rest) == n
  {}

  lemma U16OfGet(b: bytes)
    requires |b| >= 2
    ensures U16(GetU16(b)) == b[..2]
  {
    var n := GetU16(b);
    assert n / 0x100 == b[0] && n % 0x100 == b[1];
  }

  lemma Digits32(a: int, b: int, c: int, d: int)
    requires 0 <= a < 256 && 0 <= b < 256 && 0 <= c < 256 && 0 <= d < 256
    ensures var n := a * 0x100_0000 + b * 0x1_0000 + c * 0x100 + d;
            n / 0x100_0000 == a && n / 0x1_0000 % 0x100 == b && n / 0x100 % 0x100 == c && n % 0x100 == d
  {
    var n := a * 0x100_0000 + b * 0x1_0000 + c * 0x100 + d;
    assert n / 0x1_0000 == a * 0x100 + b;
    assert n / 0x100 == a * 0x1_0000 + b * 0x100 + c;
  }

  lemma U32RoundTrip(n: nat, rest: bytes)
    requires n < 0x1_0000_0000
    ensures GetU32(U32(n) + rest) == n
  {
    var m := n / 0x100;
    assert n == m * 0x100 + n % 0x100;
    assert m == m / 0x100 * 0x100 + m % 0x100;
    assert n / 0x1_0000 == m / 0x100;
    assert n / 0x100_0000 == m / 0x1_0000;
    assert m / 0x100 == m / 0x1_0000 * 0x100 + m / 0x100 % 0x100;
  }

  lemma U32OfGet(b: bytes)
    requires |b| >= 4
    ensures U32(GetU32(b)) == b[..4]
  {
    Digits32(b[0], b[1], b[2], b[3]);
  }

  lemma U32Injective(m: nat, n: nat)
    requires m < 0x1_0000_0000 && n < 0x1_0000_0000 && U32(m) == U32(n)
    ensures m == n
  {
    U32RoundTrip(m, []);
    U32RoundTrip(n, []);
    assert U32(m) + [] == U32(m) && U32(n) + [] == U32(n);
  }

  /** Equal concatenations whose left parts have equal length agree part by part. */
  lemma SplitEqual<T>(a: seq<T>, b: seq<T>, c: seq<T>, d: seq<T>)
    requires a + b == c + d && |a| == |c|
    ensures a == c && b == d
  {
    assert a == (a + b)[..|a|] && c == (c + d)[..|c|];
    assert b == (a + b)[|a|..] && d == (c + d)[|c|..];
  }

  /** The four magic bytes, the three bytes after them, and the rest. */
  lemma PrefixSplit(x: bytes)
    requires |x| >= 7
    ensures x == x[..4] + [x[4], x[5], x[6]] + x[7..]
  {}

  /** A suffix that is three parts long, cut at the part boundaries. */
  lemma Located<T>(x: seq<T>, off: nat, a: seq<T>, m: seq<T>, c: seq<T>)
    requires off <= |x| && x[off..] == a + m + c
    ensures |x| == off + |a| + |m| + |c|
    ensures x[..off + |a|] == x[..off] + a
    ensures x[off + |a|..off + |a| + |m|] == m
    ensures x[off + |a| + |m|..] == c
  {
    assert x == x[..off] + x[off..];
    assert x == x[..off] + a + m + c;
  }

  lemma Reassociate<T>(a: seq<T>, b: seq<T>, c: seq<T>, d: seq<T>)
    ensures a + b + c + d == a + (b + c + d) && a + b + c + d == a + b + (c + d) && a + b + c + d == a + (b + (c + d))
  {}

  function Concat<T>(parts: seq<seq<T>>): seq<T> {
    if parts == [] then [] else parts[0] + Concat(parts[1..])
  }

  lemma ConcatAppend<T>(xs: seq<seq<T>>, y: seq<T>)
    ensures Concat(xs + [y]) == Concat(xs) + y
  {
    if xs == [] {
      assert [y][1..] == [];
    } else {
      assert (xs + [y])[1..] == xs[1..] + [y];
      ConcatAppend(xs[1..], y);
    }
  }
}
