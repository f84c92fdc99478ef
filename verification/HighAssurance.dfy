/** vorlath_shield/highassurance.py: the diversified dual and triple signature containers.  Each leg
    signs the same message; the container is a magic followed by u32-framed legs, and verification
    needs every leg. */
module HighAssurance {
  import opened Bytes
  import opened Framing
  import opened Primitives
  import K = KeyBundle
  import R = Shield
  import RT = ShieldTheorems

  const HA_MAGIC: bytes := [0x50, 0x4C, 0x48, 0x41]     // "PLHA"
  const EC_MAGIC: bytes := [0x50, 0x4C, 0x45, 0x43]     // "PLEC"
  const DUAL_MAGIC: bytes := [0x50, 0x4C, 0x44, 0x55]   // "PLDU"
  const TRIPLE_MAGIC: bytes := [0x50, 0x4C, 0x54, 0x52] // "PLTR"
  const ROLE_PUB: byte := 0
  const ROLE_PRIV: byte := 1

  function HaCtx(): bytes {
    Ascii("VORLATH-Shield/ha-sig/v1")
  }

  function SigCtx(): bytes {
    Ascii("VORLATH-Shield/sig/v1")
  }

  /** The three signing contexts, in full and pairwise different: no primitive call of one procedure is a
      call of another. */
  lemma ContextsSeparate()
    ensures SigCtx() == Ascii("VORLATH-Shield") + Ascii("/sig/v1") && |SigCtx()| == 21
    ensures HaCtx() == Ascii("VORLATH-Shield") + Ascii("/ha-sig/v1") && |HaCtx()| == 24
    ensures R.AuthCtx() == Ascii("VORLATH-Shield") + Ascii("/auth/v2") && |R.AuthCtx()| == 22
    ensures SigCtx() != HaCtx() && SigCtx() != R.AuthCtx() && HaCtx() != R.AuthCtx()
  {}

  /** SLH-DSA and EdDSA: public key, sign and verify by parameter id, key bytes, message (and
      signature).  A verification that raises is `Err`. */
  datatype Diversified = Diversified(
    slhPublic: (byte, bytes) -> bytes,
    edPublic: (byte, bytes) -> bytes,
    slhSign: (byte, bytes, bytes) -> Result<bytes>,
    slhVerify: (byte, bytes, bytes, bytes) -> Result<bool>,
    edSign: (byte, bytes, bytes) -> Result<bytes>,
    edVerify: (byte, bytes, bytes, bytes) -> Result<bool>)

  /** `_parse_ha` and `_parse_ec`: parameter id and key bytes. */
  function ParseTagged(bundle: bytes, magic: bytes, role: byte): Result<(byte, bytes)>
    requires |magic| == 4
  {
    if |bundle| < 6 || bundle[..4] != magic then Err(NotAKeyBundle)
    else if bundle[5] != role then Err(WrongKeyRole)
    else if bundle[4] != 1 && bundle[4] != 2 then Err(UnknownSuite)
    else Ok((bundle[4], bundle[6..]))
  }

  /** `_framed`: one length byte, the context, the message. */
  function FramedMessage(ctx: bytes, message: bytes): Result<bytes> {
    if |ctx| > 255 then Err(ContextTooLong) else Ok([|ctx|] + ctx + message)
  }

  /** The context framing is injective, also for contexts that hold a NUL or extend one another. */
  lemma FramedInjective(c: bytes, m: bytes, d: bytes, n: bytes)
    requires FramedMessage(c, m).Ok? && FramedMessage(c, m) == FramedMessage(d, n)
    ensures c == d && m == n
  {
    assert ([|c|] + c + m)[0] == |c| && ([|d|] + d + n)[0] == |d|;
    SplitEqual([|c|] + c, m, [|d|] + d, n);
    SplitEqual([|c|], c, [|d|], d);
  }

  function HaSign(v: Diversified, priv: bytes, message: bytes, ctx: bytes): Result<bytes> {
    var (id, digest) :- ParseTagged(priv, HA_MAGIC, ROLE_PRIV);
    var framed :- FramedMessage(ctx, message);
    v.slhSign(id, digest, framed)
  }

  predicate HaVerify(v: Diversified, pub: bytes, message: bytes, signature: bytes, ctx: bytes) {
    var key, framed := ParseTagged(pub, HA_MAGIC, ROLE_PUB), FramedMessage(ctx, message);
    key.Ok? && framed.Ok? && v.slhVerify(key.value.0, key.value.1, framed.value, signature) == Ok(true)
  }

  function EcSign(v: Diversified, priv: bytes, message: bytes, ctx: bytes): Result<bytes> {
    var (id, raw) :- ParseTagged(priv, EC_MAGIC, ROLE_PRIV);
    var framed :- FramedMessage(ctx, message);
    v.edSign(id, raw, framed)
  }

  predicate EcVerify(v: Diversified, pub: bytes, message: bytes, signature: bytes, ctx: bytes) {
    var key, framed := ParseTagged(pub, EC_MAGIC, ROLE_PUB), FramedMessage(ctx, message);
    key.Ok? && framed.Ok? && v.edVerify(key.value.0, key.value.1, framed.value, signature) == Ok(true)
  }

  /** A container: its magic and its framed legs. */
  function Container(magic: bytes, legs: seq<bytes>): bytes
    requires AllBlobs(legs)
  {
    magic + FlatBlobs(legs)
  }

  function Pack(magic: bytes, legs: seq<bytes>): Result<bytes> {
    if exists i :: 0 <= i < |legs| && |legs[i]| >= 0x1_0000_0000 then Err(PackRange) else Ok(Container(magic, legs))
  }

  /** `dual_sign`. */
  function DualSign(p: Prims, v: Diversified, mlPriv: bytes, haPriv: bytes, message: bytes,
                    coins: bytes): Result<bytes> {
    var ml :- R.Sign(p, mlPriv, message, SigCtx(), coins);
    var ha :- HaSign(v, haPriv, message, HaCtx());
    Pack(DUAL_MAGIC, [ml, ha])
  }

  /** `triple_sign`. */
  function TripleSign(p: Prims, v: Diversified, mlPriv: bytes, haPriv: bytes, ecPriv: bytes, message: bytes,
                      coins: bytes)
    : Result<bytes>
  {
    var ml :- R.Sign(p, mlPriv, message, SigCtx(), coins);
    var ha :- HaSign(v, haPriv, message, HaCtx());
    var ec :- EcSign(v, ecPriv, message, HaCtx());
    Pack(TRIPLE_MAGIC, [ml, ha, ec])
  }

  /** The blob is the canonical container of legs that all verify over one message. */
  ghost predicate DualValid(p: Prims, v: Diversified, mlPub: bytes, haPub: bytes, message: bytes, blob: bytes) {
    exists ml, ha ::
      AllBlobs([ml, ha]) && blob == Container(DUAL_MAGIC, [ml, ha])
      && R.Verify(p, mlPub, message, ml, SigCtx()) && HaVerify(v, haPub, message, ha, HaCtx())
  }

  ghost predicate TripleValid(p: Prims, v: Diversified, mlPub: bytes, haPub: bytes, ecPub: bytes, message: bytes,
                              blob: bytes) {
    exists ml, ha, ec ::
      AllBlobs([ml, ha, ec]) && blob == Container(TRIPLE_MAGIC, [ml, ha, ec])
      && R.Verify(p, mlPub, message, ml, SigCtx()) && HaVerify(v, haPub, message, ha, HaCtx())
      && EcVerify(v, ecPub, message, ec, HaCtx())
  }

  // ---------------------------------------------------------------- what is accepted, in bytes

  /** The SLH-DSA primitive accepted, for the parameter set and key in the bundle's bytes, on the framed
      context and message. */
  ghost predicate SlhAccepted(v: Diversified, pub: bytes, m: bytes, sig: bytes, ctx: bytes) {
    && |ctx| <= 255
    && exists id: byte, key: bytes ::
         id in {1, 2} && pub == [0x50, 0x4C, 0x48, 0x41, id, 0] + key
         && v.slhVerify(id, key, [|ctx|] + ctx + m, sig) == Ok(true)
  }

  ghost predicate EdAccepted(v: Diversified, pub: bytes, m: bytes, sig: bytes, ctx: bytes) {
    && |ctx| <= 255
    && exists id: byte, key: bytes ::
         id in {1, 2} && pub == [0x50, 0x4C, 0x45, 0x43, id, 0] + key
         && v.edVerify(id, key, [|ctx|] + ctx + m, sig) == Ok(true)
  }

  /** `high_assurance_verify` is true exactly when the primitive accepted; every other outcome, a raise
      included, is false. */
  lemma HaVerifyIff(v: Diversified, pub: bytes, m: bytes, sig: bytes, ctx: bytes)
    ensures HaVerify(v, pub, m, sig, ctx) <==> SlhAccepted(v, pub, m, sig, ctx)
  {
    forall id: byte, key: bytes
      ensures ParseTagged(pub, HA_MAGIC, ROLE_PUB) == Ok((id, key))
         <==> pub == [0x50, 0x4C, 0x48, 0x41, id, 0] + key && (id == 1 || id == 2)
    {
      ParseTaggedIff(pub, HA_MAGIC, ROLE_PUB, id, key);
    }
  }

  /** `ec_verify`: likewise. */
  lemma EcVerifyIff(v: Diversified, pub: bytes, m: bytes, sig: bytes, ctx: bytes)
    ensures EcVerify(v, pub, m, sig, ctx) <==> EdAccepted(v, pub, m, sig, ctx)
  {
    forall id: byte, key: bytes
      ensures ParseTagged(pub, EC_MAGIC, ROLE_PUB) == Ok((id, key))
         <==> pub == [0x50, 0x4C, 0x45, 0x43, id, 0] + key && (id == 1 || id == 2)
    {
      ParseTaggedIff(pub, EC_MAGIC, ROLE_PUB, id, key);
    }
  }

  /** "PLDU", then both legs behind their u32 lengths. */
  function DualBytes(ml: bytes, ha: bytes): bytes
    requires |ml| < 0x1_0000_0000 && |ha| < 0x1_0000_0000
  {
    [0x50, 0x4C, 0x44, 0x55] + U32(|ml|) + ml + U32(|ha|) + ha
  }

  /** "PLTR", then the three legs. */
  function TripleBytes(ml: bytes, ha: bytes, ec: bytes): bytes
    requires |ml| < 0x1_0000_0000 && |ha| < 0x1_0000_0000 && |ec| < 0x1_0000_0000
  {
    [0x50, 0x4C, 0x54, 0x52] + U32(|ml|) + ml + U32(|ha|) + ha + U32(|ec|) + ec
  }

  /** Both primitives accepted their legs, each on this message under its own context. */
  ghost predicate DualAccepted(p: Prims, v: Diversified, mlPub: bytes, haPub: bytes, m: bytes, blob: bytes) {
    exists ml: bytes, ha: bytes ::
      && |ml| < 0x1_0000_0000 && |ha| < 0x1_0000_0000 && blob == DualBytes(ml, ha)
      && RT.Accepted(p, mlPub, m, ml, SigCtx())
      && SlhAccepted(v, haPub, m, ha, HaCtx())
  }

  ghost predicate TripleAccepted(p: Prims, v: Diversified, mlPub: bytes, haPub: bytes, ecPub: bytes, m: bytes,
                                 blob: bytes) {
    exists ml: bytes, ha: bytes, ec: bytes ::
      && |ml| < 0x1_0000_0000 && |ha| < 0x1_0000_0000 && |ec| < 0x1_0000_0000 && blob == TripleBytes(ml, ha, ec)
      && RT.Accepted(p, mlPub, m, ml, SigCtx())
      && SlhAccepted(v, haPub, m, ha, HaCtx())
      && EdAccepted(v, ecPub, m, ec, HaCtx())
  }

  lemma DualContainer(ml: bytes, ha: bytes)
    requires |ml| < 0x1_0000_0000 && |ha| < 0x1_0000_0000
    ensures AllBlobs([ml, ha]) && Container(DUAL_MAGIC, [ml, ha]) == DualBytes(ml, ha)
  {
    FlatBlobsConcat([ml], [ha]);
    FlatBlobsOne(ml);
    FlatBlobsOne(ha);
    assert [ml] + [ha] == [ml, ha];
    assert DUAL_MAGIC + (Blob(ml) + Blob(ha)) == DualBytes(ml, ha);
  }

  lemma TripleContainer(ml: bytes, ha: bytes, ec: bytes)
    requires |ml| < 0x1_0000_0000 && |ha| < 0x1_0000_0000 && |ec| < 0x1_0000_0000
    ensures AllBlobs([ml, ha, ec]) && Container(TRIPLE_MAGIC, [ml, ha, ec]) == TripleBytes(ml, ha, ec)
  {
    FlatBlobsConcat([ml, ha], [ec]);
    FlatBlobsConcat([ml], [ha]);
    FlatBlobsOne(ml);
    FlatBlobsOne(ha);
    FlatBlobsOne(ec);
    assert [ml] + [ha] == [ml, ha] && [ml, ha] + [ec] == [ml, ha, ec];
    assert TRIPLE_MAGIC + (Blob(ml) + Blob(ha) + Blob(ec)) == TripleBytes(ml, ha, ec);
  }

  /** A dual container is valid exactly when both primitives accepted its two legs on this message. */
  lemma DualValidIff(p: Prims, v: Diversified, mlPub: bytes, haPub: bytes, m: bytes, blob: bytes)
    ensures DualValid(p, v, mlPub, haPub, m, blob) <==> DualAccepted(p, v, mlPub, haPub, m, blob)
  {
    if DualValid(p, v, mlPub, haPub, m, blob) {
      var ml, ha :| AllBlobs([ml, ha]) && blob == Container(DUAL_MAGIC, [ml, ha])
        && R.Verify(p, mlPub, m, ml, SigCtx()) && HaVerify(v, haPub, m, ha, HaCtx());
      var legs := [ml, ha];
      assert |legs[0]| < 0x1_0000_0000 && |legs[1]| < 0x1_0000_0000;
      DualContainer(ml, ha);
      DualLegs(p, v, mlPub, haPub, m, ml, ha);
    }
    if DualAccepted(p, v, mlPub, haPub, m, blob) {
      var ml, ha :| |ml| < 0x1_0000_0000 && |ha| < 0x1_0000_0000 && blob == DualBytes(ml, ha)
        && RT.Accepted(p, mlPub, m, ml, SigCtx())
        && SlhAccepted(v, haPub, m, ha, HaCtx());
      DualContainer(ml, ha);
      DualLegs(p, v, mlPub, haPub, m, ml, ha);
    }
  }

  lemma DualLegs(p: Prims, v: Diversified, mlPub: bytes, haPub: bytes, m: bytes, ml: bytes, ha: bytes)
    ensures R.Verify(p, mlPub, m, ml, SigCtx()) <==> RT.Accepted(p, mlPub, m, ml, SigCtx())
    ensures HaVerify(v, haPub, m, ha, HaCtx()) <==> SlhAccepted(v, haPub, m, ha, HaCtx())
  {
    RT.VerifyIff(p, mlPub, m, ml, SigCtx());
    HaVerifyIff(v, haPub, m, ha, HaCtx());
  }

  /** A triple container is valid exactly when all three primitives accepted their legs on this message. */
  lemma TripleValidIff(p: Prims, v: Diversified, mlPub: bytes, haPub: bytes, ecPub: bytes, m: bytes, blob: bytes)
    ensures TripleValid(p, v, mlPub, haPub, ecPub, m, blob) <==> TripleAccepted(p, v, mlPub, haPub, ecPub, m, blob)
  {
    if TripleValid(p, v, mlPub, haPub, ecPub, m, blob) {
      var ml, ha, ec :| AllBlobs([ml, ha, ec]) && blob == Container(TRIPLE_MAGIC, [ml, ha, ec])
        && R.Verify(p, mlPub, m, ml, SigCtx()) && HaVerify(v, haPub, m, ha, HaCtx())
        && EcVerify(v, ecPub, m, ec, HaCtx());
      var legs := [ml, ha, ec];
      assert |legs[0]| < 0x1_0000_0000 && |legs[1]| < 0x1_0000_0000 && |legs[2]| < 0x1_0000_0000;
      TripleContainer(ml, ha, ec);
      DualLegs(p, v, mlPub, haPub, m, ml, ha);
      EcVerifyIff(v, ecPub, m, ec, HaCtx());
    }
    if TripleAccepted(p, v, mlPub, haPub, ecPub, m, blob) {
      var ml, ha, ec :| |ml| < 0x1_0000_0000 && |ha| < 0x1_0000_0000 && |ec| < 0x1_0000_0000
        && blob == TripleBytes(ml, ha, ec) && RT.Accepted(p, mlPub, m, ml, SigCtx())
        && SlhAccepted(v, haPub, m, ha, HaCtx())
        && EdAccepted(v, ecPub, m, ec, HaCtx());
      TripleContainer(ml, ha, ec);
      DualLegs(p, v, mlPub, haPub, m, ml, ha);
      EcVerifyIff(v, ecPub, m, ec, HaCtx());
    }
  }

  /** A container has one reading. */
  lemma ContainerUnique(magic: bytes, magic': bytes, legs: seq<bytes>, legs': seq<bytes>)
    requires |magic| == |magic'| && AllBlobs(legs) && AllBlobs(legs')
    requires Container(magic, legs) == Container(magic', legs')
    ensures magic == magic' && legs == legs'
  {
    SplitEqual(magic, FlatBlobs(legs), magic', FlatBlobs(legs'));
    FlatBlobsInjective(legs, legs');
  }

  /** No blob is valid both as a dual and as a triple signature. */
  lemma DualIsNotTriple(p: Prims, v: Diversified, mlPub: bytes, haPub: bytes, ecPub: bytes, m: bytes, n: bytes,
                        blob: bytes)
    ensures !(DualValid(p, v, mlPub, haPub, m, blob) && TripleValid(p, v, mlPub, haPub, ecPub, n, blob))
  {
    assert DualValid(p, v, mlPub, haPub, m, blob) ==> |blob| > 2 && blob[2] == 0x44;
    assert TripleValid(p, v, mlPub, haPub, ecPub, n, blob) ==> |blob| > 2 && blob[2] == 0x54;
  }

  /** Python slicing: both ends clip to the length. */
  function Slice(b: bytes, lo: nat, hi: nat): bytes
    requires lo <= hi
  {
    var l := if lo < |b| then lo else |b|;
    var h := if hi < |b| then hi else |b|;
    b[l..h]
  }

  /** One leg at a cursor: `None` when the length field under-runs; the slice clips, the cursor does
      not. */
  function LegAt(b: bytes, off: nat): (r: Option<(bytes, nat)>)
    ensures r.Some? ==> off + 4 <= r.value.1 && off + 4 <= |b|
  {
    if off + 4 > |b| then None
    else
      var n := GetU32(b[off..off + 4]);
      Some((Slice(b, off + 4, off + 4 + n), off + 4 + n))
  }

  /** A leg whose cursor stays inside the blob is a framed leg; one whose length lies leaves the cursor
      past the end. */
  lemma LegAtIsBlob(b: bytes, off: nat)
    requires off <= |b|
    ensures LegAt(b, off).None? <==> off + 4 > |b|
    ensures LegAt(b, off).Some? && LegAt(b, off).value.1 <= |b| ==>
              TakeBlob(b[off..]) == Ok((LegAt(b, off).value.0, b[LegAt(b, off).value.1..]))
    ensures LegAt(b, off).None? || LegAt(b, off).value.1 > |b| ==> TakeBlob(b[off..]).Err?
  {
    ReadBlobIsTake(b, off);
  }

  /** Legs read one after the other up to the exact end are the container's legs. */
  lemma {:induction false} LegsIff(b: bytes, off: nat, legs: seq<bytes>)
    requires off <= |b|
    ensures LegsAt(b, off, legs) <==> AllBlobs(legs) && b[off..] == FlatBlobs(legs)
    decreases |legs|
  {
    if legs == [] {
    } else {
      LegAtIsBlob(b, off);
      var leg := LegAt(b, off);
      TakeBlobIff(b[off..], legs[0], FlatBlobs(if AllBlobs(legs[1..]) then legs[1..] else []));
      if leg.Some? && leg.value.1 <= |b| {
        TakeBlobIff(b[off..], leg.value.0, b[leg.value.1..]);
        LegsIff(b, leg.value.1, legs[1..]);
        if AllBlobs(legs) && b[off..] == FlatBlobs(legs) {
          TakeBlobIff(b[off..], legs[0], FlatBlobs(legs[1..]));
        }
        if LegsAt(b, off, legs) {
          assert legs == [legs[0]] + legs[1..];
        }
      }
    }
  }

  /** The cursor reads exactly these legs and ends at the end. */
  ghost predicate LegsAt(b: bytes, off: nat, legs: seq<bytes>)
    decreases |legs|
  {
    if legs == [] then off == |b|
    else
      var leg := LegAt(b, off);
      leg.Some? && leg.value.0 == legs[0] && leg.value.1 <= |b| && LegsAt(b, leg.value.1, legs[1..])
  }

  lemma ContainerIff(b: bytes, magic: bytes, legs: seq<bytes>)
    requires |magic| == 4
    ensures |b| >= 4 && b[..4] == magic && LegsAt(b, 4, legs) <==> AllBlobs(legs) && b == Container(magic, legs)
  {
    if |b| >= 4 {
      LegsIff(b, 4, legs);
      assert b == b[..4] + b[4..];
    }
  }

  /** `dual_verify`: true exactly on the canonical container of two legs that verify; a lying length
      or a trailing byte is never true. */
  method DualVerify(p: Prims, v: Diversified, mlPub: bytes, haPub: bytes, message: bytes, blob: bytes)
    returns (ok: bool)
    ensures ok <==> DualValid(p, v, mlPub, haPub, message, blob)
    ensures ok <==> DualAccepted(p, v, mlPub, haPub, message, blob)
  {
    DualValidIff(p, v, mlPub, haPub, message, blob);
    forall ml, ha ensures |blob| >= 4 && blob[..4] == DUAL_MAGIC && LegsAt(blob, 4, [ml, ha])
                          <==> AllBlobs([ml, ha]) && blob == Container(DUAL_MAGIC, [ml, ha]) {
      ContainerIff(blob, DUAL_MAGIC, [ml, ha]);
    }
    forall ml, ha ensures LegsAt(blob, 4, [ml, ha]) == TwoLegs(blob, ml, ha) { UnfoldTwo(blob, ml, ha); }
    if Slice(blob, 0, 4) != DUAL_MAGIC { return false; }
    var off := 4;
    var first := LegAt(blob, off);
    if first.None? { return false; }
    var ml := first.value.0;
    off := first.value.1;
    var second := LegAt(blob, off);
    if second.None? { return false; }
    var ha := second.value.0;
    if second.value.1 != |blob| { return false; }
    assert TwoLegs(blob, ml, ha);
    return R.Verify(p, mlPub, message, ml, SigCtx()) && HaVerify(v, haPub, message, ha, HaCtx());
  }

  ghost predicate TwoLegs(b: bytes, x: bytes, y: bytes) {
    var l1 := LegAt(b, 4);
    && l1.Some? && l1.value.0 == x && l1.value.1 <= |b|
    && var l2 := LegAt(b, l1.value.1);
    && l2.Some? && l2.value.0 == y && l2.value.1 == |b|
  }

  lemma UnfoldTwo(b: bytes, x: bytes, y: bytes)
    ensures LegsAt(b, 4, [x, y]) == TwoLegs(b, x, y)
  {
    assert [x, y][1..] == [y] && [y][1..] == [];
    var l1 := LegAt(b, 4);
    if l1.Some? {
      assert LegsAt(b, l1.value.1, [y]) ==
        (var l2 := LegAt(b, l1.value.1); l2.Some? && l2.value.0 == y && l2.value.1 <= |b| && LegsAt(b, l2.value.1, []));
    }
  }

  ghost predicate ThreeLegs(b: bytes, x: bytes, y: bytes, z: bytes) {
    var l1 := LegAt(b, 4);
    && l1.Some? && l1.value.0 == x && l1.value.1 <= |b|
    && var l2 := LegAt(b, l1.value.1);
    && l2.Some? && l2.value.0 == y && l2.value.1 <= |b|
    && var l3 := LegAt(b, l2.value.1);
    && l3.Some? && l3.value.0 == z && l3.value.1 == |b|
  }

  lemma UnfoldThree(b: bytes, x: bytes, y: bytes, z: bytes)
    ensures LegsAt(b, 4, [x, y, z]) == ThreeLegs(b, x, y, z)
  {
    assert [x, y, z][1..] == [y, z] && [y, z][1..] == [z] && [z][1..] == [];
    var l1 := LegAt(b, 4);
    if l1.Some? {
      var l2 := LegAt(b, l1.value.1);
      if l2.Some? {
        assert LegsAt(b, l2.value.1, [z]) ==
          (var l3 := LegAt(b, l2.value.1);
           l3.Some? && l3.value.0 == z && l3.value.1 <= |b| && LegsAt(b, l3.value.1, []));
      }
      assert LegsAt(b, l1.value.1, [y, z]) ==
        (l2.Some? && l2.value.0 == y && l2.value.1 <= |b| && LegsAt(b, l2.value.1, [z]));
    }
  }

  /** `triple_verify`: true exactly on the canonical container of three legs that verify. */
  method TripleVerify(p: Prims, v: Diversified, mlPub: bytes, haPub: bytes, ecPub: bytes, message: bytes, blob: bytes)
    returns (ok: bool)
    ensures ok <==> TripleValid(p, v, mlPub, haPub, ecPub, message, blob)
    ensures ok <==> TripleAccepted(p, v, mlPub, haPub, ecPub, message, blob)
  {
    TripleValidIff(p, v, mlPub, haPub, ecPub, message, blob);
    forall ml, ha, ec ensures |blob| >= 4 && blob[..4] == TRIPLE_MAGIC && LegsAt(blob, 4, [ml, ha, ec])
                              <==> AllBlobs([ml, ha, ec]) && blob == Container(TRIPLE_MAGIC, [ml, ha, ec]) {
      ContainerIff(blob, TRIPLE_MAGIC, [ml, ha, ec]);
    }
    forall ml, ha, ec ensures LegsAt(blob, 4, [ml, ha, ec]) == ThreeLegs(blob, ml, ha, ec) {
      UnfoldThree(blob, ml, ha, ec);
    }
    if Slice(blob, 0, 4) != TRIPLE_MAGIC { return false; }
    var off := 4;
    var first := LegAt(blob, off);
    if first.None? { return false; }
    var ml := first.value.0;
    off := first.value.1;
    var second := LegAt(blob, off);
    if second.None? { return false; }
    var ha := second.value.0;
    off := second.value.1;
    var third := LegAt(blob, off);
    if third.None? { return false; }
    var ec := third.value.0;
    off := third.value.1;
    if off != |blob| { return false; }
    assert ThreeLegs(blob, ml, ha, ec);
    return R.Verify(p, mlPub, message, ml, SigCtx()) && HaVerify(v, haPub, message, ha, HaCtx())
        && EcVerify(v, ecPub, message, ec, HaCtx());
  }

  // ---------------------------------------------------------------- sign, then verify

  /** SLH-DSA and EdDSA signatures verify under their own public keys (FIPS 205, RFC 8032). */
  ghost predicate DiversifiedVerify(v: Diversified) {
    && (forall id, sk, m :: v.slhSign(id, sk, m).Ok? ==>
          v.slhVerify(id, v.slhPublic(id, sk), m, v.slhSign(id, sk, m).value) == Ok(true))
    && (forall id, sk, m :: v.edSign(id, sk, m).Ok? ==>
          v.edVerify(id, v.edPublic(id, sk), m, v.edSign(id, sk, m).value) == Ok(true))
  }

  /** `generate_high_assurance_keys` and `generate_ec_keys`: magic, parameter id, role, key bytes. */
  function TaggedKey(magic: bytes, id: byte, role: byte, key: bytes): bytes {
    magic + [id, role] + key
  }

  function HaKeys(v: Diversified, id: byte, secret: bytes): (bytes, bytes) {
    (TaggedKey(HA_MAGIC, id, ROLE_PUB, v.slhPublic(id, secret)), TaggedKey(HA_MAGIC, id, ROLE_PRIV, secret))
  }

  function EcKeys(v: Diversified, id: byte, secret: bytes): (bytes, bytes) {
    (TaggedKey(EC_MAGIC, id, ROLE_PUB, v.edPublic(id, secret)), TaggedKey(EC_MAGIC, id, ROLE_PRIV, secret))
  }

  /** A tagged key is read exactly from its encoding. */
  lemma ParseTaggedIff(bundle: bytes, magic: bytes, role: byte, id: byte, key: bytes)
    requires |magic| == 4
    ensures ParseTagged(bundle, magic, role) == Ok((id, key))
       <==> bundle == TaggedKey(magic, id, role, key) && (id == 1 || id == 2)
  {
    var x := TaggedKey(magic, id, role, key);
    assert x[..4] == magic && x[4] == id && x[5] == role && x[6..] == key;
    assert |bundle| >= 6 ==> bundle == bundle[..4] + [bundle[4], bundle[5]] + bundle[6..];
  }

  /** `high_assurance_sign` with a generated private bundle is the primitive on the framed message, and
      raises of its own only for an unknown parameter set or a context of more than 255 bytes. */
  lemma HaSignIsPrimitive(v: Diversified, id: byte, secret: bytes, m: bytes, ctx: bytes)
    ensures HaKeys(v, id, secret).1 == [0x50, 0x4C, 0x48, 0x41, id, 1] + secret
    ensures HaSign(v, HaKeys(v, id, secret).1, m, ctx)
         == if id !in {1, 2} then Err(UnknownSuite) else if |ctx| > 255 then Err(ContextTooLong)
            else v.slhSign(id, secret, [|ctx|] + ctx + m)
  {
    var x := HaKeys(v, id, secret).1;
    assert x[..4] == HA_MAGIC && x[4] == id && x[5] == ROLE_PRIV && x[6..] == secret;
  }

  /** `ec_sign`: likewise. */
  lemma EcSignIsPrimitive(v: Diversified, id: byte, secret: bytes, m: bytes, ctx: bytes)
    ensures EcKeys(v, id, secret).1 == [0x50, 0x4C, 0x45, 0x43, id, 1] + secret
    ensures EcSign(v, EcKeys(v, id, secret).1, m, ctx)
         == if id !in {1, 2} then Err(UnknownSuite) else if |ctx| > 255 then Err(ContextTooLong)
            else v.edSign(id, secret, [|ctx|] + ctx + m)
  {
    var x := EcKeys(v, id, secret).1;
    assert x[..4] == EC_MAGIC && x[4] == id && x[5] == ROLE_PRIV && x[6..] == secret;
  }

  /** When `dual_sign` returns with generated keys, and what: exactly when both primitives return on this
      message under their own contexts and both signatures fit a u32. */
  lemma DualSignReturns(p: Prims, v: Diversified, id: byte, sk: bytes, haId: byte, haSecret: bytes, m: bytes,
                        coins: bytes)
    requires K.SigningKeys(p, id, sk).Ok? && K.Printable(K.SigningKeys(p, id, sk).value.1) && haId in {1, 2}
    ensures var d := DualSign(p, v, K.Print(K.SigningKeys(p, id, sk).value.1), HaKeys(v, haId, haSecret).1, m, coins);
            var ml := p.sign(if id == 1 then MLDSA65 else MLDSA87, sk, m, SigCtx(), coins);
            var ha := v.slhSign(haId, haSecret, [24] + HaCtx() + m);
            && (d.Ok? <==> ml.Ok? && ha.Ok? && |ml.value| < 0x1_0000_0000 && |ha.value| < 0x1_0000_0000)
            && (d.Ok? ==> d.value == DualBytes(ml.value, ha.value))
  {
    RT.SignIsPrimitive(p, id, sk, m, SigCtx(), coins);
    FramedLegs(v, haId, haSecret, m);
    var ml, ha := R.Sign(p, K.Print(K.SigningKeys(p, id, sk).value.1), m, SigCtx(), coins),
        HaSign(v, HaKeys(v, haId, haSecret).1, m, HaCtx());
    if ml.Ok? && ha.Ok? { PackTwo(ml.value, ha.value); }
  }

  /** What the two framed legs sign under the module's own context of 24 bytes. */
  lemma FramedLegs(v: Diversified, id: byte, secret: bytes, m: bytes)
    requires id in {1, 2}
    ensures HaSign(v, HaKeys(v, id, secret).1, m, HaCtx())
         == v.slhSign(id, secret, [24] + HaCtx() + m)
    ensures EcSign(v, EcKeys(v, id, secret).1, m, HaCtx())
         == v.edSign(id, secret, [24] + HaCtx() + m)
  {
    HaSignIsPrimitive(v, id, secret, m, HaCtx());
    EcSignIsPrimitive(v, id, secret, m, HaCtx());
  }

  lemma PackTwo(ml: bytes, ha: bytes)
    ensures var r := Pack(DUAL_MAGIC, [ml, ha]);
            && (r.Ok? <==> |ml| < 0x1_0000_0000 && |ha| < 0x1_0000_0000)
            && (r.Ok? ==> r.value == DualBytes(ml, ha))
  {
    var legs := [ml, ha];
    assert legs[0] == ml && legs[1] == ha;
    if |ml| < 0x1_0000_0000 && |ha| < 0x1_0000_0000 { DualContainer(ml, ha); }
  }

  /** Likewise for `triple_sign` and its three primitives. */
  lemma TripleSignReturns(p: Prims, v: Diversified, id: byte, sk: bytes, haId: byte, haSecret: bytes, ecId: byte,
                          ecSecret: bytes, m: bytes, coins: bytes)
    requires K.SigningKeys(p, id, sk).Ok? && K.Printable(K.SigningKeys(p, id, sk).value.1)
    requires haId in {1, 2} && ecId in {1, 2}
    ensures var t := TripleSign(p, v, K.Print(K.SigningKeys(p, id, sk).value.1), HaKeys(v, haId, haSecret).1,
                                EcKeys(v, ecId, ecSecret).1, m, coins);
            var ml := p.sign(if id == 1 then MLDSA65 else MLDSA87, sk, m, SigCtx(), coins);
            var ha := v.slhSign(haId, haSecret, [24] + HaCtx() + m);
            var ec := v.edSign(ecId, ecSecret, [24] + HaCtx() + m);
            && (t.Ok? <==> ml.Ok? && ha.Ok? && ec.Ok?
                           && |ml.value| < 0x1_0000_0000 && |ha.value| < 0x1_0000_0000 && |ec.value| < 0x1_0000_0000)
            && (t.Ok? ==> t.value == TripleBytes(ml.value, ha.value, ec.value))
  {
    RT.SignIsPrimitive(p, id, sk, m, SigCtx(), coins);
    FramedLegs(v, haId, haSecret, m);
    FramedLegs(v, ecId, ecSecret, m);
    var ml := R.Sign(p, K.Print(K.SigningKeys(p, id, sk).value.1), m, SigCtx(), coins);
    var ha := HaSign(v, HaKeys(v, haId, haSecret).1, m, HaCtx());
    var ec := EcSign(v, EcKeys(v, ecId, ecSecret).1, m, HaCtx());
    if ml.Ok? && ha.Ok? && ec.Ok? { PackThree(ml.value, ha.value, ec.value); }
  }

  lemma PackThree(ml: bytes, ha: bytes, ec: bytes)
    ensures var r := Pack(TRIPLE_MAGIC, [ml, ha, ec]);
            && (r.Ok? <==> |ml| < 0x1_0000_0000 && |ha| < 0x1_0000_0000 && |ec| < 0x1_0000_0000)
            && (r.Ok? ==> r.value == TripleBytes(ml, ha, ec))
  {
    var legs := [ml, ha, ec];
    assert legs[0] == ml && legs[1] == ha && legs[2] == ec;
    if |ml| < 0x1_0000_0000 && |ha| < 0x1_0000_0000 && |ec| < 0x1_0000_0000 { TripleContainer(ml, ha, ec); }
  }

  /** Generated SLH-DSA keys: what the private bundle signs, under any context, the public one verifies. */
  lemma HaRoundTrip(v: Diversified, id: byte, secret: bytes, m: bytes, ctx: bytes)
    requires DiversifiedVerify(v)
    ensures var (pub, priv) := HaKeys(v, id, secret);
            HaSign(v, priv, m, ctx).Ok? ==> HaVerify(v, pub, m, HaSign(v, priv, m, ctx).value, ctx)
  {}

  /** Generated EdDSA keys: likewise. */
  lemma EcRoundTrip(v: Diversified, id: byte, secret: bytes, m: bytes, ctx: bytes)
    requires DiversifiedVerify(v)
    ensures var (pub, priv) := EcKeys(v, id, secret);
            EcSign(v, priv, m, ctx).Ok? ==> EcVerify(v, pub, m, EcSign(v, priv, m, ctx).value, ctx)
  {}

  /** Generated ML-DSA keys: `sign` and `verify` through their printed bundles, under any context; and
      `verify` on the public bundle is the suite's primitive on that key, for any message and signature. */
  lemma MlRoundTrip(p: Prims, id: byte, sk: bytes, m: bytes, ctx: bytes, coins: bytes)
    requires SignaturesVerify(p) && K.SigningKeys(p, id, sk).Ok?
    requires var (pub, priv) := K.SigningKeys(p, id, sk).value; K.Printable(pub) && K.Printable(priv)
    ensures var (pub, priv) := K.SigningKeys(p, id, sk).value;
            var s := R.Sign(p, K.Print(priv), m, ctx, coins);
            s.Ok? ==> R.Verify(p, K.Print(pub), m, s.value, ctx)
    ensures var pub, alg := K.SigningKeys(p, id, sk).value.0, if id == 1 then MLDSA65 else MLDSA87;
            forall n, sig, d ::
              R.Verify(p, K.Print(pub), n, sig, d) <==> p.verify(alg, p.sigPublic(alg, sk), n, sig, d) == Ok(true)
  {
    var (pub, priv) := K.SigningKeys(p, id, sk).value;
    K.ParseComplete(p, pub);
    K.ParseComplete(p, priv);
    assert R.ParseParts(p, K.Print(pub), K.ROLE_SIG_PUB, 1) == Ok(pub);
    assert R.ParseParts(p, K.Print(priv), K.ROLE_SIG_PRIV, 1) == Ok(priv);
  }

  /** Sign-then-verify, with generated keys: what `dual_sign` returns verifies. */
  lemma DualRoundTrip(p: Prims, v: Diversified, id: byte, sk: bytes, haId: byte, haSecret: bytes, m: bytes,
                      coins: bytes)
    requires SignaturesVerify(p) && DiversifiedVerify(v) && K.SigningKeys(p, id, sk).Ok?
    requires var (pub, priv) := K.SigningKeys(p, id, sk).value; K.Printable(pub) && K.Printable(priv)
    ensures var ((pub, priv), (haPub, haPriv)) := (K.SigningKeys(p, id, sk).value, HaKeys(v, haId, haSecret));
            var d := DualSign(p, v, K.Print(priv), haPriv, m, coins);
            d.Ok? ==> DualValid(p, v, K.Print(pub), haPub, m, d.value)
  {
    var (pub, priv) := K.SigningKeys(p, id, sk).value;
    var haPriv := HaKeys(v, haId, haSecret).1;
    MlRoundTrip(p, id, sk, m, SigCtx(), coins);
    HaRoundTrip(v, haId, haSecret, m, HaCtx());
    var d := DualSign(p, v, K.Print(priv), haPriv, m, coins);
    if d.Ok? {
      var ml, ha := R.Sign(p, K.Print(priv), m, SigCtx(), coins).value, HaSign(v, haPriv, m, HaCtx()).value;
      assert AllBlobs([ml, ha]) && d.value == Container(DUAL_MAGIC, [ml, ha]);
    }
  }

  /** Likewise for `triple_sign`. */
  lemma TripleRoundTrip(p: Prims, v: Diversified, id: byte, sk: bytes, haId: byte, haSecret: bytes,
                        ecId: byte, ecSecret: bytes, m: bytes, coins: bytes)
    requires SignaturesVerify(p) && DiversifiedVerify(v) && K.SigningKeys(p, id, sk).Ok?
    requires var (pub, priv) := K.SigningKeys(p, id, sk).value; K.Printable(pub) && K.Printable(priv)
    ensures var (pub, priv) := K.SigningKeys(p, id, sk).value;
            var ((haPub, haPriv), (ecPub, ecPriv)) := (HaKeys(v, haId, haSecret), EcKeys(v, ecId, ecSecret));
            var t := TripleSign(p, v, K.Print(priv), haPriv, ecPriv, m, coins);
            t.Ok? ==> TripleValid(p, v, K.Print(pub), haPub, ecPub, m, t.value)
  {
    var (pub, priv) := K.SigningKeys(p, id, sk).value;
    var haPriv, ecPriv := HaKeys(v, haId, haSecret).1, EcKeys(v, ecId, ecSecret).1;
    MlRoundTrip(p, id, sk, m, SigCtx(), coins);
    HaRoundTrip(v, haId, haSecret, m, HaCtx());
    EcRoundTrip(v, ecId, ecSecret, m, HaCtx());
    var t := TripleSign(p, v, K.Print(priv), haPriv, ecPriv, m, coins);
    if t.Ok? {
      var ml, ha := R.Sign(p, K.Print(priv), m, SigCtx(), coins).value, HaSign(v, haPriv, m, HaCtx()).value;
      var ec := EcSign(v, ecPriv, m, HaCtx()).value;
      assert AllBlobs([ml, ha, ec]) && t.value == Container(TRIPLE_MAGIC, [ml, ha, ec]);
    }
  }

  /** Sign with generated keys, then verify: each verifier returns true exactly when its signer
      returned at all. */
  method SignThenVerify(p: Prims, v: Diversified, id: byte, sk: bytes, haId: byte, haSecret: bytes,
                        ecId: byte, ecSecret: bytes, m: bytes, coins: bytes) returns (dual: bool, triple: bool)
    requires SignaturesVerify(p) && DiversifiedVerify(v) && K.SigningKeys(p, id, sk).Ok?
    requires var (pub, priv) := K.SigningKeys(p, id, sk).value; K.Printable(pub) && K.Printable(priv)
    ensures var priv, haPriv := K.Print(K.SigningKeys(p, id, sk).value.1), HaKeys(v, haId, haSecret).1;
            dual <==> DualSign(p, v, priv, haPriv, m, coins).Ok?
    ensures var priv, haPriv := K.Print(K.SigningKeys(p, id, sk).value.1), HaKeys(v, haId, haSecret).1;
            triple <==> TripleSign(p, v, priv, haPriv, EcKeys(v, ecId, ecSecret).1, m, coins).Ok?
  {
    dual, triple := false, false;
    var (pub, priv) := K.SigningKeys(p, id, sk).value;
    var (haPub, haPriv) := HaKeys(v, haId, haSecret);
    var (ecPub, ecPriv) := EcKeys(v, ecId, ecSecret);
    DualRoundTrip(p, v, id, sk, haId, haSecret, m, coins);
    TripleRoundTrip(p, v, id, sk, haId, haSecret, ecId, ecSecret, m, coins);
    var d := DualSign(p, v, K.Print(priv), haPriv, m, coins);
    if d.Ok? { dual := DualVerify(p, v, K.Print(pub), haPub, m, d.value); }
    var t := TripleSign(p, v, K.Print(priv), haPriv, ecPriv, m, coins);
    if t.Ok? { triple := TripleVerify(p, v, K.Print(pub), haPub, ecPub, m, t.value); }
  }
}
