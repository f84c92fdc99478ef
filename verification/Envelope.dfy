/** The single-shot `VRSH` envelope and its sender block as byte formats. */
module Envelope {
  import opened Bytes
  import opened Framing
  import opened Primitives
  import opened Combiner

  const MAGIC: bytes := [0x56, 0x52, 0x53, 0x48] // "VRSH"
  const VERSION: byte := 2

  datatype Envelope = Envelope(suite: byte, flags: byte, kid: bytes, eph: bytes, ct: bytes, nonce: bytes,
                               block: bytes, sealed: bytes)
  {
    ghost predicate Printable() {
      |kid| <= 0xFFFF && |eph| <= 0xFFFF && |ct| <= 0xFFFF && |nonce| <= 0xFFFF && |block| <= 0xFFFF
      && |sealed| < 0x1_0000_0000
    }

    function Fields(): seq<bytes> {
      [kid, eph, ct, nonce, block]
    }

    function Transcript(): Transcript {
      Combiner.Transcript.Transcript(suite, flags, kid, eph, ct, nonce)
    }
  }

  function HeaderOf(suite: byte, flags: byte, fields: seq<bytes>): bytes
    requires AllShort(fields)
  {
    MAGIC + [VERSION, suite, flags] + FlatTlv(fields)
  }

  /** The header, which is also the AEAD associated data. */
  function Header(e: Envelope): bytes
    requires e.Printable()
  {
    HeaderOf(e.suite, e.flags, e.Fields())
  }

  /** A header followed by its length-prefixed sealed bytes. */
  function Framed(header: bytes, sealed: bytes): bytes
    requires |sealed| < 0x1_0000_0000
  {
    header + U32(|sealed|) + sealed
  }

  function Print(e: Envelope): bytes
    requires e.Printable()
  {
    Framed(Header(e), e.sealed)
  }

  /** The sealed region: a u32 length that must account for every remaining byte. */
  function TakeSealed(s: bytes): Result<bytes> {
    if |s| < 4 then Err(MissingCiphertextLength)
    else if 4 + GetU32(s) != |s| then Err(LengthMismatch)
    else Ok(s[4..])
  }

  /** The fields after the seven-byte prefix. */
  function ParseBody(suite: byte, flags: byte, s: bytes): Result<Envelope> {
    var (f, rest) :- TakeFields(s, 5);
    var sealed :- TakeSealed(rest);
    Ok(Envelope(suite, flags, f[0], f[1], f[2], f[3], f[4], sealed))
  }

  /** The parse at the top of `decrypt`. */
  function Parse(x: bytes): Result<Envelope> {
    if |x| < 7 || x[..4] != MAGIC then Err(NotAnEnvelope)
    else if x[4] != VERSION then Err(UnsupportedVersion)
    else
      var _ :- SuiteOf(x[5]);
      ParseBody(x[5], x[6], x[7..])
  }

  lemma TakeSealedIff(s: bytes, sealed: bytes)
    ensures TakeSealed(s) == Ok(sealed) <==> |sealed| < 0x1_0000_0000 && s == U32(|sealed|) + sealed
  {
    if |sealed| < 0x1_0000_0000 && s == U32(|sealed|) + sealed {
      U32RoundTrip(|sealed|, sealed);
      assert s[4..] == sealed;
    }
    if TakeSealed(s) == Ok(sealed) {
      U32OfGet(s);
      assert s == s[..4] + s[4..];
    }
  }

  lemma ParseBodyIff(suite: byte, flags: byte, s: bytes, e: Envelope)
    ensures ParseBody(suite, flags, s) == Ok(e) <==>
            e.suite == suite && e.flags == flags && e.Printable()
            && s == FlatTlv(e.Fields()) + (U32(|e.sealed|) + e.sealed)
  {
    if ParseBody(suite, flags, s) == Ok(e) {
      var (f, rest) := TakeFields(s, 5).value;
      assert f == e.Fields();
      TakeFieldsIff(s, 5, f, rest);
      assert |f[0]| <= 0xFFFF && |f[1]| <= 0xFFFF && |f[2]| <= 0xFFFF && |f[3]| <= 0xFFFF && |f[4]| <= 0xFFFF;
      TakeSealedIff(rest, e.sealed);
    }
    if e.suite == suite && e.flags == flags && e.Printable()
       && s == FlatTlv(e.Fields()) + (U32(|e.sealed|) + e.sealed) {
      TakeFieldsIff(s, 5, e.Fields(), U32(|e.sealed|) + e.sealed);
      TakeSealedIff(U32(|e.sealed|) + e.sealed, e.sealed);
    }
  }

  lemma PrintPrefix(e: Envelope)
    requires e.Printable()
    ensures var x := Print(e);
            |x| >= 7 && x[..4] == MAGIC && x[4] == VERSION && x[5] == e.suite && x[6] == e.flags
            && x[7..] == FlatTlv(e.Fields()) + (U32(|e.sealed|) + e.sealed)
  {
    var body := FlatTlv(e.Fields()) + (U32(|e.sealed|) + e.sealed);
    assert Print(e) == MAGIC + [VERSION, e.suite, e.flags] + body;
  }

  /** Envelope codec bijection: parsing accepts exactly the printed envelopes of known suites, and
      recovers the fields that were printed. */
  lemma ParseIff(x: bytes, e: Envelope)
    ensures Parse(x) == Ok(e) <==> e.Printable() && SuiteOf(e.suite).Ok? && x == Print(e)
  {
    if Parse(x) == Ok(e) {
      ParseBodyIff(x[5], x[6], x[7..], e);
      assert x == x[..4] + [x[4], x[5], x[6]] + x[7..];
      PrintPrefix(e);
      var y := Print(e);
      assert y == y[..4] + [y[4], y[5], y[6]] + y[7..];
    }
    if e.Printable() && SuiteOf(e.suite).Ok? && x == Print(e) {
      PrintPrefix(e);
      ParseBodyIff(e.suite, e.flags, x[7..], e);
    }
  }

  /** Bytes after an envelope: the exact-length bound. */
  lemma TrailingBytes(x: bytes, y: bytes)
    requires Parse(x).Ok? && y != []
    ensures Parse(x + y) == Err(LengthMismatch)
  {
    var (f, rest) := TakeFields(x[7..], 5).value;
    TakeFieldsSound(x[7..], 5);
    assert (x + y)[7..] == FlatTlv(f) + (rest + y);
    TakeFieldsComplete(f, rest + y);
    assert GetU32(rest + y) == GetU32(rest);
  }

  /** No envelope is a proper prefix of another: cutting an envelope anywhere, or appending anything to
      it, leaves bytes that do not parse. */
  lemma PrefixFree(x: bytes, y: bytes)
    requires Parse(x).Ok? && Parse(x + y).Ok?
    ensures y == []
  {
    if y != [] { TrailingBytes(x, y); }
  }

  /** A header determines every field but the sealed bytes. */
  lemma HeaderInjective(e: Envelope, f: Envelope)
    requires e.Printable() && f.Printable() && SuiteOf(e.suite).Ok? && Header(e) == Header(f)
    ensures e.(sealed := []) == f.(sealed := [])
  {
    var e0, f0 := e.(sealed := []), f.(sealed := []);
    assert Print(e0) == Print(f0);
    PrintPrefix(e0);
    PrintPrefix(f0);
    ParseIff(Print(e0), e0);
    ParseIff(Print(e0), f0);
  }

  datatype SenderBlock = SenderBlock(kid: bytes, pub: bytes, signature: bytes)

  ghost predicate BlockPrintable(b: SenderBlock) {
    |b.kid| <= 0xFFFF && |b.pub| <= 0xFFFF && |b.signature| <= 0xFFFF
  }

  function PrintBlock(b: SenderBlock): bytes
    requires BlockPrintable(b)
  {
    FlatTlv([b.kid, b.pub, b.signature])
  }

  /** The authenticated branch's parse: three fields and nothing after them. */
  function ParseBlock(s: bytes): Result<SenderBlock> {
    var (f, rest) :- TakeFields(s, 3);
    if rest == [] then Ok(SenderBlock(f[0], f[1], f[2])) else Err(SenderBlockTrailing)
  }

  /** The sender block has one encoding. */
  lemma ParseBlockIff(s: bytes, b: SenderBlock)
    ensures ParseBlock(s) == Ok(b) <==> BlockPrintable(b) && s == PrintBlock(b)
  {
    var f := [b.kid, b.pub, b.signature];
    TakeFieldsIff(s, 3, f, []);
    if ParseBlock(s) == Ok(b) {
      assert TakeFields(s, 3).value.0 == f;
      assert |f[0]| <= 0xFFFF && |f[1]| <= 0xFFFF && |f[2]| <= 0xFFFF;
    }
    if BlockPrintable(b) && s == PrintBlock(b) {
      assert FlatTlv(f) + [] == FlatTlv(f);
    }
  }
}
