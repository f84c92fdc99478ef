/** interop/altcodec.py: the second decoder, written from the format and not from the reference.  It
    has its own suite table, reads every format with a cursor, and recomputes key-ids through an
    incremental hash; it shares only the primitive libraries. */
module AltCodec {
  import opened Bytes
  import opened Primitives

  const ENVELOPE_MAGIC: bytes := [0x56, 0x52, 0x53, 0x48]
  const STREAM_MAGIC: bytes := [0x56, 0x52, 0x53, 0x54]
  const KEY_MAGIC: bytes := [0x56, 0x52, 0x53, 0x4B]
  const VERSION: byte := 2

  function CombinerLabel(): bytes {
    Ascii("VORLATH-Shield/2 hybrid-kem combiner")
  }

  function AuthCtx(): bytes {
    Ascii("VORLATH-Shield/auth/v2")
  }

  /** `_SUITES`: the pure-PQC suite 0x03 is out of scope here. */
  function SuiteOf(id: byte): Result<Suite> {
    if id == 0x01 then Ok(Suite(0x01, X25519, MLKEM768, MLDSA65, SHA256, 32, 1184, 2400, 1088))
    else if id == 0x02 then Ok(Suite(0x02, X448, MLKEM1024, MLDSA87, SHA384, 56, 1568, 3168, 1568))
    else Err(UnknownSuite)
  }

  function ReadTlv(buf: bytes, off: nat): (r: Result<(bytes, nat)>)
    ensures r.Ok? ==> off + 2 <= r.value.1 <= |buf|
  {
    if off + 2 > |buf| then Err(MissingTlvLength)
    else
      var hi: int := buf[off];
      var end := off + 2 + hi * 256 + buf[off + 1];
      if end > |buf| then Err(TlvPastEnd) else Ok((buf[off + 2..end], end))
  }

  /** `n` successive `_read_tlv` calls from `off`. */
  function ReadMany(buf: bytes, off: nat, n: nat): (r: Result<(seq<bytes>, nat)>)
    ensures r.Ok? ==> |r.value.0| == n && off <= r.value.1 && (n > 0 ==> r.value.1 <= |buf|)
    decreases |buf|, n
  {
    if n == 0 then Ok(([], off))
    else
      var (v, next) :- ReadTlv(buf, off);
      var (vs, end) :- ReadMany(buf, next, n - 1);
      Ok(([v] + vs, end))
  }

  /** The parts of a key bundle, from `off` to the end. */
  function ReadParts(buf: bytes, off: nat): Result<seq<bytes>>
    decreases |buf| - off
  {
    if off >= |buf| then Ok([])
    else
      var (v, next) :- ReadTlv(buf, off);
      var vs :- ReadParts(buf, next);
      Ok([v] + vs)
  }

  /** What the incremental hash has absorbed after its updates. */
  function Absorb(state: bytes, parts: seq<bytes>): bytes
    decreases |parts|
  {
    if parts == [] then state else Absorb(state + parts[0], parts[1..])
  }

  function KidLabel(role: byte): Option<bytes> {
    if role == 1 then Some(Ascii("VRSK-kem-pub"))
    else if role == 3 then Some(Ascii("VRSK-sig-pub"))
    else None
  }

  datatype KeyFields = KeyFields(suite: byte, kid: bytes, parts: seq<bytes>)

  /** `_parse_key`. */
  function ParseKey(p: Prims, buf: bytes, role: byte): Result<KeyFields> {
    if |buf| < 7 || buf[..4] != KEY_MAGIC then Err(NotAKeyBundle)
    else if buf[4] != VERSION then Err(UnsupportedKeyVersion)
    else if buf[6] != role then Err(WrongKeyRole)
    else
      var (kid, off) :- ReadTlv(buf, 7);
      var parts :- ReadParts(buf, off);
      var expected := KidLabel(role);
      if expected.Some? && kid != p.shake(Absorb([] + expected.value + [buf[5]], parts)) then Err(KeyIdMismatch)
      else Ok(KeyFields(buf[5], kid, parts))
  }

  /** `_sig_key_id`: recomputed from the single part, not read back. */
  function SigKeyId(p: Prims, pub: bytes): Result<bytes> {
    var k :- ParseKey(p, pub, 3);
    if |k.parts| != 1 then Err(WrongPartCount)
    else Ok(p.shake(Ascii("VRSK-sig-pub") + [k.suite] + k.parts[0]))
  }

  function Transcript(suite: byte, flags: byte, f: seq<bytes>): bytes
    requires |f| >= 4
  {
    [suite, flags] + f[0] + f[1] + f[2] + f[3]
  }

  /** `_derive_key`: two legs, never three. */
  function DeriveKey(s: Suite, ssc: bytes, sspq: bytes, preAuth: bytes, senderKid: bytes): Result<Key> {
    if |ssc| > 0xFFFF || |sspq| > 0xFFFF then Err(PackRange)
    else Ok(Key(s.hash, U16(|ssc|) + ssc + U16(|sspq|) + sspq, CombinerLabel() + [s.id] + preAuth + senderKid))
  }

  /** The key cross-checks: suite, then key-id, then the unpacking of the two parts. */
  function PrivateKey(p: Prims, priv: bytes, suite: byte, kid: bytes): (r: Result<seq<bytes>>)
    ensures r.Ok? ==> |r.value| == 2
  {
    var k :- ParseKey(p, priv, 2);
    if k.suite != suite then Err(SuiteMismatch)
    else if k.kid != kid then Err(WrongRecipient)
    else if |k.parts| != 2 then Err(WrongPartCount)
    else Ok(k.parts)
  }

  /** The sender block; the key-id to bind into the KDF. */
  function SenderKid(p: Prims, flags: byte, block: bytes, preAuth: bytes, pin: Option<bytes>): Result<bytes> {
    if flags % 2 == 1 then
      var (f, end) :- ReadMany(block, 0, 3);
      if end != |block| then Err(SenderBlockTrailing) else VerifySender(p, f[0], f[1], f[2], preAuth, pin)
    else if pin.Some? then Err(NotAuthenticated)
    else Ok([])
  }

  function VerifySender(p: Prims, kid: bytes, pub: bytes, signature: bytes, preAuth: bytes,
                        pin: Option<bytes>): Result<bytes> {
    var k :- ParseKey(p, pub, 3);
    if |k.parts| != 1 then Err(WrongPartCount)
    else if kid != k.kid then Err(SenderKidMismatch)
    else
      var s :- SuiteOf(k.suite);
      var ok :- p.verify(s.sig, k.parts[0], preAuth + k.kid, signature, AuthCtx());
      if !ok then Err(BadSignature)
      else
        var _ :- CheckPin(p, pin, k.kid);
        Ok(k.kid)
  }

  function CheckPin(p: Prims, pin: Option<bytes>, kid: bytes): Result<()> {
    if pin.None? then Ok(())
    else
      var expected :- SigKeyId(p, pin.value);
      if expected != kid then Err(WrongSender) else Ok(())
  }

  function Tagged(r: Result<bytes>): Result<bytes> {
    if r == Err(InvalidTag) then Err(AeadOpenFailed) else r
  }

  /** The ciphertext framing after the header. */
  function SealedRegion(x: bytes, off: nat): Result<bytes> {
    if off + 4 > |x| then Err(MissingCiphertextLength)
    else if off + 4 + GetU32(x[off..off + 4]) != |x| then Err(LengthMismatch)
    else Ok(x[off + 4..])
  }

  /** Decapsulate, derive and open. */
  function CombineAndOpen(p: Prims, s: Suite, keys: seq<bytes>, f: seq<bytes>, preAuth: bytes, senderKid: bytes,
                          sealed: bytes, header: bytes): Result<bytes>
    requires |keys| == 2 && |f| == 5
  {
    var ssc :- p.rawExchange(s.kex, keys[0], f[1]);
    var sspq :- p.decaps(s.kem, keys[1], f[2]);
    var key :- DeriveKey(s, ssc, sspq, preAuth, senderKid);
    Tagged(p.open(key, f[3], sealed, header))
  }

  /** `open_envelope`. */
  function OpenEnvelope(p: Prims, x: bytes, priv: bytes, pin: Option<bytes>): Result<bytes> {
    if |x| < 7 || x[..4] != ENVELOPE_MAGIC then Err(NotAnEnvelope)
    else if x[4] != VERSION then Err(UnsupportedVersion)
    else
      var s :- SuiteOf(x[5]);
      var (f, off) :- ReadMany(x, 7, 5);
      var sealed :- SealedRegion(x, off);
      OpenFields(p, s, x[6], f, sealed, x[..off], priv, pin)
  }

  /** The checks and the opening, once the fields are read. */
  function OpenFields(p: Prims, s: Suite, flags: byte, f: seq<bytes>, sealed: bytes, header: bytes, priv: bytes,
                      pin: Option<bytes>)
    : Result<bytes>
    requires |f| == 5
  {
    var keys :- PrivateKey(p, priv, s.id, f[0]);
    var preAuth := Transcript(s.id, flags, f);
    var senderKid :- SenderKid(p, flags, f[4], preAuth, pin);
    CombineAndOpen(p, s, keys, f, preAuth, senderKid, sealed, header)
  }

  /** The chunk walk. */
  function ReadChunks(x: bytes, off: nat): Result<seq<bytes>>
    decreases |x| - off
  {
    if off >= |x| then Ok([])
    else if off + 4 > |x| then Err(MissingChunkLength)
    else
      var end := off + 4 + GetU32(x[off..off + 4]);
      if end > |x| then Err(ChunkPastEnd)
      else
        var rest :- ReadChunks(x, end);
        Ok([x[off + 4..end]] + rest)
  }

  /** The decryption loop from chunk `idx`, with the plaintext so far. */
  function OpenChunks(p: Prims, key: Key, base: bytes, header: bytes, blobs: seq<bytes>, idx: nat,
                      out: bytes): Result<bytes>
    requires idx <= |blobs|
    decreases |blobs| - idx
  {
    if idx == |blobs| then Ok(out)
    else if idx >= 0x1_0000_0000 then Err(PackRange)
    else
      var ctr := U32(idx) + [if idx == |blobs| - 1 then 1 else 0];
      var m :- Tagged(p.open(key, base + ctr, blobs[idx], header + ctr));
      OpenChunks(p, key, base, header, blobs, idx + 1, out + m)
  }

  /** The stream's key checks and key derivation. */
  function StreamKey(p: Prims, s: Suite, flags: byte, f: seq<bytes>, priv: bytes): Result<Key>
    requires |f| == 4
  {
    var keys :- PrivateKey(p, priv, s.id, f[0]);
    var ssc :- p.rawExchange(s.kex, keys[0], f[1]);
    var sspq :- p.decaps(s.kem, keys[1], f[2]);
    DeriveKey(s, ssc, sspq, Transcript(s.id, flags, f), [])
  }

  /** `open_stream`. */
  function OpenStream(p: Prims, x: bytes, priv: bytes): Result<bytes> {
    if |x| < 7 || x[..4] != STREAM_MAGIC then Err(NotAStream)
    else if x[4] != VERSION then Err(UnsupportedStreamVersion)
    else
      var s :- SuiteOf(x[5]);
      OpenFramed(p, s, x, ReadMany(x, 7, 4), priv)
  }

  /** The rest of the header and everything after it, once the four fields are read. */
  function OpenFramed(p: Prims, s: Suite, x: bytes, fields: Result<(seq<bytes>, nat)>, priv: bytes): Result<bytes>
    requires fields.Ok? ==> |fields.value.0| == 4 && 7 <= fields.value.1
  {
    var (f, off) :- fields;
    if off + 4 > |x| then Err(TruncatedStreamHeader) else OpenBody(p, s, x, off + 4, f, priv)
  }

  /** Key checks, chunk walk and chunk opening, from the end of the header. */
  function OpenBody(p: Prims, s: Suite, x: bytes, off: nat, f: seq<bytes>, priv: bytes): Result<bytes>
    requires |f| == 4 && 7 <= off <= |x|
  {
    var key :- StreamKey(p, s, x[6], f, priv);
    var blobs :- ReadChunks(x, off);
    if blobs == [] then Err(EmptyStream)
    else OpenChunks(p, key, f[3], x[..off], blobs, 0, [])
  }

  // ---------------------------------------------------------------- the procedures themselves

  /** `_parse_key` with its part loop and its incremental hash. */
  method ParseKeyBytes(p: Prims, bundle: bytes, role: byte) returns (r: Result<KeyFields>)
    ensures r == ParseKey(p, bundle, role)
  {
    if |bundle| < 7 || bundle[..4] != KEY_MAGIC { return Err(NotAKeyBundle); }
    if bundle[4] != VERSION { return Err(UnsupportedKeyVersion); }
    if bundle[6] != role { return Err(WrongKeyRole); }
    var first :- ReadTlv(bundle, 7);
    var kid, off := first.0, first.1;
    var parts: seq<bytes> := [];
    ghost var whole := ReadParts(bundle, off);
    PrependedUnits(parts, whole);
    while off < |bundle|
      invariant off <= |bundle|
      invariant whole == Prepended(parts, ReadParts(bundle, off))
      decreases |bundle| - off
    {
      var field :- ReadTlv(bundle, off);
      PrependedTwice(parts, [field.0], ReadParts(bundle, field.1));
      parts := parts + [field.0];
      off := field.1;
    }
    PrependedUnits(parts, whole);
    var expected := KidLabel(role);
    if expected.Some? {
      var h: bytes := [];
      h := h + expected.value;
      h := h + [bundle[5]];
      ghost var full := Absorb(h, parts);
      var i := 0;
      while i < |parts|
        invariant 0 <= i <= |parts|
        invariant full == Absorb(h, parts[i..])
      {
        assert parts[i..][0] == parts[i] && parts[i..][1..] == parts[i + 1..];
        h := h + parts[i];
        i := i + 1;
      }
      if kid != p.shake(h) { return Err(KeyIdMismatch); }
    }
    return Ok(KeyFields(bundle[5], kid, parts));
  }

  /** The chunk walk with its cursor. */
  method CollectChunks(x: bytes, start: nat) returns (r: Result<seq<bytes>>)
    requires start <= |x|
    ensures r == ReadChunks(x, start)
  {
    var off := start;
    var blobs: seq<bytes> := [];
    ghost var whole := ReadChunks(x, start);
    PrependedUnits(blobs, whole);
    while off < |x|
      invariant start <= off <= |x|
      invariant whole == Prepended(blobs, ReadChunks(x, off))
      decreases |x| - off
    {
      if off + 4 > |x| { return Err(MissingChunkLength); }
      var clen := GetU32(x[off..off + 4]);
      off := off + 4;
      if off + clen > |x| { return Err(ChunkPastEnd); }
      PrependedTwice(blobs, [x[off..off + clen]], ReadChunks(x, off + clen));
      blobs := blobs + [x[off..off + clen]];
      off := off + clen;
    }
    PrependedUnits(blobs, whole);
    return Ok(blobs);
  }
}
