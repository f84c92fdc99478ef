/** Key bundles of vorlath_shield/shield.py: `_serialize_key`, `_parse_key`, key-ids and key
    generation. */
module KeyBundle {
  import opened Bytes
  import opened Framing
  import opened Primitives

  const KEY_MAGIC: bytes := [0x56, 0x52, 0x53, 0x4B] // "VRSK"
  const KEY_VERSION: byte := 2
  const ROLE_KEM_PUB: byte := 1
  const ROLE_KEM_PRIV: byte := 2
  const ROLE_SIG_PUB: byte := 3
  const ROLE_SIG_PRIV: byte := 4

  datatype Bundle = Bundle(suite: byte, role: byte, kid: bytes, parts: seq<bytes>)

  /** `_PUBLIC_KID_LABEL`: only public roles have a recomputable key-id. */
  function KidLabel(role: byte): Option<bytes> {
    if role == ROLE_KEM_PUB then Some(Ascii("VRSK-kem-pub"))
    else if role == ROLE_SIG_PUB then Some(Ascii("VRSK-sig-pub"))
    else None
  }

  /** What SHAKE-256 absorbs for a public bundle's key-id. */
  function KidPreimage(b: Bundle): bytes
    requires KidLabel(b.role).Some?
  {
    KidLabel(b.role).value + [b.suite] + Concat(b.parts)
  }

  predicate KidMatches(p: Prims, b: Bundle) {
    KidLabel(b.role).Some? ==> b.kid == p.shake(KidPreimage(b))
  }

  ghost predicate Printable(b: Bundle) {
    |b.kid| <= 0xFFFF && AllShort(b.parts)
  }

  function Print(b: Bundle): bytes
    requires Printable(b)
  {
    KEY_MAGIC + [KEY_VERSION, b.suite, b.role] + Tlv(b.kid) + FlatTlv(b.parts)
  }

  /** `_parse_key(bundle, expect_role)`. */
  function Parse(p: Prims, buf: bytes, role: byte): (r: Result<Bundle>)
    ensures r.Ok? ==> r.value.role == role
  {
    if |buf| < 7 || buf[..4] != KEY_MAGIC then Err(NotAKeyBundle)
    else if buf[4] != KEY_VERSION then Err(UnsupportedKeyVersion)
    else if buf[6] != role then Err(WrongKeyRole)
    else
      var (kid, rest) :- TakeTlv(buf[7..]);
      var parts :- TakeTlvs(rest);
      var b := Bundle(buf[5], role, kid, parts);
      if KidMatches(p, b) then Ok(b) else Err(KeyIdMismatch)
  }

  lemma PrintPrefix(b: Bundle)
    requires Printable(b)
    ensures var x := Print(b);
            |x| >= 7 && x[..4] == KEY_MAGIC && x[4] == KEY_VERSION && x[5] == b.suite && x[6] == b.role
    ensures Print(b)[7..] == Tlv(b.kid) + FlatTlv(b.parts)
  {
    assert Print(b) == KEY_MAGIC + [KEY_VERSION, b.suite, b.role] + (Tlv(b.kid) + FlatTlv(b.parts));
  }

  lemma ParseSound(p: Prims, buf: bytes, role: byte)
    requires Parse(p, buf, role).Ok?
    ensures var b := Parse(p, buf, role).value; Printable(b) && KidMatches(p, b) && buf == Print(b)
  {
    var b := Parse(p, buf, role).value;
    var (kid, rest) := TakeTlv(buf[7..]).value;
    TakeTlvIff(buf[7..], kid, rest);
    TakeTlvsSound(rest);
    PrefixSplit(buf);
    Reassociate(KEY_MAGIC, [KEY_VERSION, b.suite, b.role], Tlv(b.kid), FlatTlv(b.parts));
  }

  lemma ParseComplete(p: Prims, b: Bundle)
    requires Printable(b) && KidMatches(p, b)
    ensures Parse(p, Print(b), b.role) == Ok(b)
  {
    PrintPrefix(b);
    TakeTlvIff(Print(b)[7..], b.kid, FlatTlv(b.parts));
    TakeTlvsComplete(b.parts);
  }

  /** Codec bijection: a byte string parses to `b` exactly when it is the printed form of `b`, the
      role is the expected one and a public key-id is the fingerprint of the parts. */
  lemma ParseIff(p: Prims, buf: bytes, role: byte, b: Bundle)
    ensures Parse(p, buf, role) == Ok(b) <==>
            Printable(b) && b.role == role && KidMatches(p, b) && buf == Print(b)
  {
    if Parse(p, buf, role) == Ok(b) { ParseSound(p, buf, role); }
    if Printable(b) && b.role == role && KidMatches(p, b) && buf == Print(b) { ParseComplete(p, b); }
  }

  /** Key-id binding.  Absent a hash collision between the two recomputed fingerprints, accepted
      public bundles with one key-id have one role, one suite and one concatenated key material;
      KEM and signing key-ids never coincide. */
  lemma KidBinding(p: Prims, x: bytes, y: bytes, rx: byte, ry: byte)
    requires Parse(p, x, rx).Ok? && Parse(p, y, ry).Ok?
    requires KidLabel(rx).Some? && KidLabel(ry).Some?
    requires var a, b := KidPreimage(Parse(p, x, rx).value), KidPreimage(Parse(p, y, ry).value);
             p.shake(a) == p.shake(b) ==> a == b
    ensures var a, b := Parse(p, x, rx).value, Parse(p, y, ry).value;
            a.kid == b.kid <==> rx == ry && a.suite == b.suite && Concat(a.parts) == Concat(b.parts)
  {
    var a, b := Parse(p, x, rx).value, Parse(p, y, ry).value;
    if a.kid == b.kid {
      var la, lb := KidLabel(rx).value, KidLabel(ry).value;
      SplitEqual(la + [a.suite], Concat(a.parts), lb + [b.suite], Concat(b.parts));
      SplitEqual(la, [a.suite], lb, [b.suite]);
      assert la[5] != lb[5] || rx == ry;
    }
  }

  /** Equal key material in equally many parts means equal parts exactly when all parts but the last
      have equal lengths; always, then, for single parts. */
  lemma {:induction false} KidBindsParts(xs: seq<bytes>, ys: seq<bytes>)
    requires |xs| == |ys| && Concat(xs) == Concat(ys)
    ensures xs == ys <==> forall i :: 0 <= i < |xs| - 1 ==> |xs[i]| == |ys[i]|
  {
    if forall i :: 0 <= i < |xs| - 1 ==> |xs[i]| == |ys[i]| {
      if |xs| == 1 {
        assert xs[1..] == [] && ys[1..] == [];
        assert xs[0] + [] == xs[0] && ys[0] + [] == ys[0];
      } else if |xs| > 1 {
        SplitEqual(xs[0], Concat(xs[1..]), ys[0], Concat(ys[1..]));
        KidBindsParts(xs[1..], ys[1..]);
        assert xs == [xs[0]] + xs[1..] && ys == [ys[0]] + ys[1..];
      }
    }
  }

  /** The framing of the parts is not in the fingerprint: for either public role, two different byte
      strings are accepted with one key-id and different parts. */
  lemma KidIgnoresPartBoundaries(p: Prims, suite: byte, role: byte) returns (x: bytes, y: bytes)
    requires KidLabel(role).Some? && forall z :: |p.shake(z)| == 32
    ensures x != y && Parse(p, x, role).Ok? && Parse(p, y, role).Ok?
    ensures var a, b := Parse(p, x, role).value, Parse(p, y, role).value;
            a.kid == b.kid && a.suite == b.suite == suite && a.parts != b.parts
  {
    var two, one: seq<bytes> := [[1], [2]], [[1, 2]];
    SameMaterial();
    var kid := p.shake(KidLabel(role).value + [suite] + Concat(one));
    var a, b := Bundle(suite, role, kid, two), Bundle(suite, role, kid, one);
    assert |kid| == 32 && AllShort(two) && AllShort(one);
    x, y := Print(a), Print(b);
    ParseComplete(p, a);
    ParseComplete(p, b);
    assert |two| != |one|;
  }

  lemma SameMaterial()
    ensures var two, one: seq<bytes> := [[1], [2]], [[1, 2]]; Concat(two) == Concat(one) == [1, 2]
  {
    var two, one: seq<bytes> := [[1], [2]], [[1, 2]];
    assert two[1..] == [[2]] && one[1..] == [];
    assert Concat(two[1..]) == [2] + Concat([]);
    assert Concat(one) == [1, 2] + Concat([]);
  }

  /** The cursor form of `_serialize_key`. */
  method SerializeKey(suite: byte, role: byte, kid: bytes, parts: seq<bytes>) returns (r: Result<bytes>)
    ensures r == if Printable(Bundle(suite, role, kid, parts)) then Ok(Print(Bundle(suite, role, kid, parts)))
                 else Err(TlvTooLong)
  {
    var k :- EncodeTlv(kid);
    var out := KEY_MAGIC + [KEY_VERSION, suite, role] + k;
    var i := 0;
    while i < |parts|
      invariant 0 <= i <= |parts| && |kid| <= 0xFFFF
      invariant AllShort(parts[..i])
      invariant out == KEY_MAGIC + [KEY_VERSION, suite, role] + Tlv(kid) + FlatTlv(parts[..i])
    {
      var t :- EncodeTlv(parts[i]);
      FlatTlvAppend(parts[..i], parts[i]);
      assert parts[..i + 1] == parts[..i] + [parts[i]];
      out := out + t;
      i := i + 1;
    }
    assert parts[..i] == parts;
    return Ok(out);
  }

  /** `_shake16`: the hash state absorbs the parts one by one. */
  method Shake16(p: Prims, domain: bytes, suite: byte, parts: seq<bytes>) returns (digest: bytes)
    ensures digest == p.shake(domain + [suite] + Concat(parts))
  {
    var h := domain;
    h := h + [suite];
    var i := 0;
    while i < |parts|
      invariant 0 <= i <= |parts|
      invariant h == domain + [suite] + Concat(parts[..i])
    {
      ConcatAppend(parts[..i], parts[i]);
      assert parts[..i + 1] == parts[..i] + [parts[i]];
      h := h + parts[i];
      i := i + 1;
    }
    assert parts[..i] == parts;
    digest := p.shake(h);
  }

  /** The cursor form of `_parse_key` refines `Parse`: it terminates, never reads out of bounds and
      raises the same error. */
  method ParseKey(p: Prims, bundle: bytes, role: byte) returns (r: Result<Bundle>)
    ensures r == Parse(p, bundle, role)
  {
    if |bundle| < 7 || bundle[..4] != KEY_MAGIC { return Err(NotAKeyBundle); }
    if bundle[4] != KEY_VERSION { return Err(UnsupportedKeyVersion); }
    if bundle[6] != role { return Err(WrongKeyRole); }
    var off := 7;
    ReadIsTake(bundle, off);
    var first :- ReadTlv(bundle, off);
    var kid := first.0;
    off := first.1;
    ghost var rest := bundle[off..];
    var parts: seq<bytes> := [];
    PrependedUnits(parts, TakeTlvs(rest));
    while off < |bundle|
      invariant 7 <= off <= |bundle|
      invariant TakeTlvs(rest) == Prepended(parts, TakeTlvs(bundle[off..]))
    {
      ReadIsTake(bundle, off);
      var field :- ReadTlv(bundle, off);
      PrependedTwice(parts, [field.0], TakeTlvs(bundle[field.1..]));
      off := field.1;
      parts := parts + [field.0];
    }
    PrependedUnits(parts, TakeTlvs(rest));
    var b := Bundle(bundle[5], role, kid, parts);
    if KidLabel(role).Some? {
      var recomputed := Shake16(p, KidLabel(role).value, b.suite, parts);
      if kid != recomputed { return Err(KeyIdMismatch); }
    }
    return Ok(b);
  }

  /** `generate_recipient_keys`, with the generators' randomness as arguments. */
  function RecipientKeys(p: Prims, id: byte, xPriv: bytes, seed: bytes): Result<(Bundle, Bundle)> {
    var s :- SuiteOf(id);
    var (ek, dk) := p.kemKeygen(s.kem, seed);
    var pub := Bundle(id, ROLE_KEM_PUB, [], [p.Public(s.kex, xPriv), ek]);
    var kid := p.shake(KidPreimage(pub));
    Ok((pub.(kid := kid), Bundle(id, ROLE_KEM_PRIV, kid, [if s.kex.NullX? then [] else xPriv, dk])))
  }

  /** `generate_signing_keys`. */
  function SigningKeys(p: Prims, id: byte, sk: bytes): Result<(Bundle, Bundle)> {
    var s :- SuiteOf(id);
    var pub := Bundle(id, ROLE_SIG_PUB, [], [p.sigPublic(s.sig, sk)]);
    var kid := p.shake(KidPreimage(pub));
    Ok((pub.(kid := kid), Bundle(id, ROLE_SIG_PRIV, kid, [sk])))
  }

  /** A printed bundle whose key-id fits is accepted in its own role only. */
  lemma OwnRoleOnly(p: Prims, b: Bundle, role: byte)
    requires Printable(b) && KidMatches(p, b)
    ensures Parse(p, Print(b), role).Ok? <==> role == b.role
    ensures Parse(p, Print(b), b.role) == Ok(b)
  {
    ParseComplete(p, b);
    PrintPrefix(b);
  }

  /** Generated bundles that fit their frames are accepted by the parser, in their own role and in no
      other, and the public and private halves carry one key-id. */
  lemma GeneratedKeysParse(p: Prims, id: byte, xPriv: bytes, seed: bytes, sk: bytes, role: byte)
    requires SuiteOf(id).Ok?
    ensures var (pub, priv) := RecipientKeys(p, id, xPriv, seed).value;
            && pub.kid == priv.kid
            && (Printable(pub) ==> (Parse(p, Print(pub), role).Ok? <==> role == ROLE_KEM_PUB))
            && (Printable(pub) ==> Parse(p, Print(pub), ROLE_KEM_PUB) == Ok(pub))
            && (Printable(priv) ==> (Parse(p, Print(priv), role).Ok? <==> role == ROLE_KEM_PRIV))
            && (Printable(priv) ==> Parse(p, Print(priv), ROLE_KEM_PRIV) == Ok(priv))
    ensures var (pub, priv) := SigningKeys(p, id, sk).value;
            && pub.kid == priv.kid
            && (Printable(pub) ==> (Parse(p, Print(pub), role).Ok? <==> role == ROLE_SIG_PUB))
            && (Printable(pub) ==> Parse(p, Print(pub), ROLE_SIG_PUB) == Ok(pub))
            && (Printable(priv) ==> (Parse(p, Print(priv), role).Ok? <==> role == ROLE_SIG_PRIV))
            && (Printable(priv) ==> Parse(p, Print(priv), ROLE_SIG_PRIV) == Ok(priv))
  {
    var (pub, priv) := RecipientKeys(p, id, xPriv, seed).value;
    var (spub, spriv) := SigningKeys(p, id, sk).value;
    PairParses(p, pub, priv, role);
    PairParses(p, spub, spriv, role);
  }

  lemma PairParses(p: Prims, pub: Bundle, priv: Bundle, role: byte)
    requires KidMatches(p, pub) && KidMatches(p, priv)
    ensures Printable(pub) ==> Parse(p, Print(pub), pub.role) == Ok(pub)
    ensures Printable(pub) ==> (Parse(p, Print(pub), role).Ok? <==> role == pub.role)
    ensures Printable(priv) ==> Parse(p, Print(priv), priv.role) == Ok(priv)
    ensures Printable(priv) ==> (Parse(p, Print(priv), role).Ok? <==> role == priv.role)
  {
    if Printable(pub) { OwnRoleOnly(p, pub, role); }
    if Printable(priv) { OwnRoleOnly(p, priv, role); }
  }

  /** A printed bundle of one part. */
  lemma PrintedOne(b: Bundle)
    requires Printable(b) && |b.parts| == 1
    ensures |b.parts[0]| <= 0xFFFF && FlatTlv(b.parts) == Tlv(b.parts[0])
    ensures Print(b) == [0x56, 0x52, 0x53, 0x4B, 2, b.suite, b.role] + Tlv(b.kid) + Tlv(b.parts[0])
  {
    assert KEY_MAGIC + [KEY_VERSION, b.suite, b.role] == [0x56, 0x52, 0x53, 0x4B, 2, b.suite, b.role];
    assert b.parts[1..] == [] && Tlv(b.parts[0]) + [] == Tlv(b.parts[0]);
  }

  /** And of two. */
  lemma PrintedTwo(b: Bundle)
    requires Printable(b) && |b.parts| == 2
    ensures |b.parts[0]| <= 0xFFFF && |b.parts[1]| <= 0xFFFF
    ensures Print(b) == [0x56, 0x52, 0x53, 0x4B, 2, b.suite, b.role] + Tlv(b.kid) + Tlv(b.parts[0]) + Tlv(b.parts[1])
  {
    PrintedOne(b.(parts := b.parts[1..]));
    Regrouped([0x56, 0x52, 0x53, 0x4B, 2, b.suite, b.role] + Tlv(b.kid), Tlv(b.parts[0]), Tlv(b.parts[1]));
  }

  /** The generated recipient bundles, byte by byte: "VRSK", version 2, the suite, role 1 or 2, the key-id
      and two parts.  The key-id is the fingerprint of label, suite and public parts, and the pure suite
      has no classical part on either side. */
  lemma RecipientBytes(p: Prims, id: byte, xPriv: bytes, seed: bytes, pub: Bundle, priv: Bundle)
    requires RecipientKeys(p, id, xPriv, seed) == Ok((pub, priv)) && Printable(pub) && Printable(priv)
    ensures SuiteOf(id).Ok? && |pub.parts| == 2 && |priv.parts| == 2 && AllShort(pub.parts) && AllShort(priv.parts)
    ensures var s := SuiteOf(id).value;
            && pub.parts[0] == (if id == 3 then [] else p.rawPublic(s.kex, xPriv))
            && priv.parts[0] == (if id == 3 then [] else xPriv)
            && (pub.parts[1], priv.parts[1]) == p.kemKeygen(s.kem, seed)
    ensures pub.kid == priv.kid == p.shake(Ascii("VRSK-kem-pub") + [id] + pub.parts[0] + pub.parts[1])
    ensures Print(pub) == [0x56, 0x52, 0x53, 0x4B, 2, id, 1] + Tlv(pub.kid) + Tlv(pub.parts[0]) + Tlv(pub.parts[1])
    ensures Print(priv) == [0x56, 0x52, 0x53, 0x4B, 2, id, 2] + Tlv(priv.kid) + Tlv(priv.parts[0]) + Tlv(priv.parts[1])
  {
    PrintedTwo(pub);
    PrintedTwo(priv);
    TwoParts(pub.parts);
    Regrouped(Ascii("VRSK-kem-pub") + [id], pub.parts[0], pub.parts[1]);
  }

  lemma Regrouped(a: bytes, b: bytes, c: bytes)
    ensures a + b + c == a + (b + c)
  {}

  /** The generated signing bundles: role 3 or 4, the key-id and one part. */
  lemma SigningBytes(p: Prims, id: byte, sk: bytes, pub: Bundle, priv: Bundle)
    requires SigningKeys(p, id, sk) == Ok((pub, priv)) && Printable(pub) && Printable(priv)
    ensures SuiteOf(id).Ok? && |pub.parts| == 1 && priv.parts == [sk] && |pub.parts[0]| <= 0xFFFF && |sk| <= 0xFFFF
    ensures pub.parts[0] == p.sigPublic(SuiteOf(id).value.sig, sk)
    ensures pub.kid == priv.kid == p.shake(Ascii("VRSK-sig-pub") + [id] + pub.parts[0])
    ensures Print(pub) == [0x56, 0x52, 0x53, 0x4B, 2, id, 3] + Tlv(pub.kid) + Tlv(pub.parts[0])
    ensures Print(priv) == [0x56, 0x52, 0x53, 0x4B, 2, id, 4] + Tlv(priv.kid) + Tlv(sk)
  {
    PrintedOne(pub);
    PrintedOne(priv);
    OnePart(pub.parts);
  }

  lemma OnePart(parts: seq<bytes>)
    requires |parts| == 1
    ensures Concat(parts) == parts[0]
  {
    assert parts[1..] == [] && parts[0] + [] == parts[0];
  }

  lemma TwoParts(parts: seq<bytes>)
    requires |parts| == 2
    ensures Concat(parts) == parts[0] + parts[1]
  {
    OnePart(parts[1..]);
  }
}
