/** The keys of Aerospike's shared-memory segments: 64-bit numbers whose low 32 bits are fields. */
module ShmKey {
  import opened Numerals

  const TWO_64 := 0x1_0000_0000_0000_0000
  const TWO_32 := 0x1_0000_0000

  /** A signed 64-bit key. */
  newtype int64 = x: int | -0x8000_0000_0000_0000 <= x < 0x8000_0000_0000_0000

  /** Go's uint64(key). */
  function Unsigned(key: int64): nat
  {
    (key as int) % TWO_64
  }

  /** Go's byte(u >> 24), and the other fields by shift and mask. */
  function Prefix(u: nat): nat
  {
    (u / 0x100_0000) % 0x100
  }

  function Instance(u: nat): nat
  {
    (u / 0x10_0000) % 0x10
  }

  function NamespaceId(u: nat): nat
  {
    (u / 0x1000) % 0x100
  }

  function Suffix(u: nat): nat
  {
    u % 0x1000
  }

  const OTHER := "other"

  function TypeId(prefix: nat): string
  {
    if prefix == 0xae then "pi"
    else if prefix == 0xa2 then "si"
    else if prefix == 0xad then "data"
    else OTHER
  }

  predicate IsAerospikeShmSegment(key: int64)
  {
    var prefix := Prefix(Unsigned(key));
    prefix == 0xae || prefix == 0xa2 || prefix == 0xad
  }

  datatype KeyInfo = KeyInfo(hexKey: string, prefix: string, typeId: string, instanceId: string, namespaceId: string,
                             suffix: string)

  /** Leading zeros up to a width. */
  function Padded(digits: string, width: nat): string
    decreases width - |digits|
  {
    if |digits| >= width then digits else Padded("0" + digits, width)
  }

  /** decodeAerospikeShmKey */
  function Decode(key: int64): KeyInfo
  {
    var u := Unsigned(key);
    KeyInfo("0x" + Padded(Format(u, true), 8), "0x" + Padded(Format(Prefix(u), true), 2), TypeId(Prefix(u)),
            Format(Instance(u), false), Format(NamespaceId(u), false), Format(Suffix(u), false))
  }

  // ----- Bits -----

  function Composed(prefix: nat, instance: nat, namespaceId: nat, suffix: nat): nat
  {
    prefix * 0x100_0000 + instance * 0x10_0000 + namespaceId * 0x1000 + suffix
  }

  /** The fields make up the low 32 bits of the key ... */
  lemma FieldsMakeKey(key: int64)
    ensures var u := Unsigned(key);
            && Composed(Prefix(u), Instance(u), NamespaceId(u), Suffix(u)) == (key as int) % TWO_32
            && Prefix(u) < 0x100 && Instance(u) < 0x10 && NamespaceId(u) < 0x100 && Suffix(u) < 0x1000
  {
    var u := Unsigned(key);
    Cuts(u);
    ModMod(key as int);
  }

  lemma ModMod(x: int)
    ensures (x % TWO_64) % TWO_32 == x % TWO_32
  {
    var q := x / TWO_64;
    assert x == q * TWO_64 + x % TWO_64;
    var r := (x % TWO_64) / TWO_32;
    assert x == (q * TWO_32 + r) * TWO_32 + (x % TWO_64) % TWO_32;
  }

  lemma Cuts(u: nat)
    ensures Composed(Prefix(u), Instance(u), NamespaceId(u), Suffix(u)) == u % TWO_32
  {
    var a, b, c := u / 0x1000, u / 0x10_0000, u / 0x100_0000;
    assert a / 0x100 == b && b / 0x10 == c;
    assert a % 0x100 + 0x100 * b == a && b % 0x10 + 0x10 * c == b && u % 0x1000 + 0x1000 * a == u;
    assert c % 0x100 + 0x100 * (c / 0x100) == c;
  }

  /** ... and any fields within their widths are those of just one choice of the low 32 bits. */
  lemma KeyMakesFields(prefix: nat, instance: nat, namespaceId: nat, suffix: nat, key: int64)
    requires prefix < 0x100 && instance < 0x10 && namespaceId < 0x100 && suffix < 0x1000
    ensures Composed(prefix, instance, namespaceId, suffix) < TWO_32
    ensures var u := Unsigned(key);
            (prefix, instance, namespaceId, suffix) == (Prefix(u), Instance(u), NamespaceId(u), Suffix(u))
            <==> (key as int) % TWO_32 == Composed(prefix, instance, namespaceId, suffix)
  {
    var u := Unsigned(key);
    FieldsMakeKey(key);
    Unique(prefix, instance, namespaceId, suffix, Prefix(u), Instance(u), NamespaceId(u), Suffix(u));
  }

  lemma Unique(p: nat, i: nat, n: nat, s: nat, p': nat, i': nat, n': nat, s': nat)
    requires p < 0x100 && i < 0x10 && n < 0x100 && s < 0x1000
    requires p' < 0x100 && i' < 0x10 && n' < 0x100 && s' < 0x1000
    ensures Composed(p, i, n, s) == Composed(p', i', n', s') <==> (p, i, n, s) == (p', i', n', s')
  {
    if Composed(p, i, n, s) == Composed(p', i', n', s') {
      assert p == Composed(p, i, n, s) / 0x100_0000;
      assert p == p';
      assert i == i';
      assert n == n';
    }
  }

  /** Exactly the segments of a named type are Aerospike's. */
  lemma SegmentHasType(key: int64)
    ensures IsAerospikeShmSegment(key) <==> Decode(key).typeId != OTHER
  {
    var prefix := Prefix(Unsigned(key));
    assert "pi"[0] == 'p' && "si"[0] == 's' && "data"[0] == 'd' && OTHER[0] == 'o';
    hide Padded, Format;
  }

  /** The top byte of the low 32 bits of a key tells its type: 0xae a primary index, 0xa2 a secondary index,
      0xad data, and these are Aerospike's segments. */
  lemma TypeIsTold(key: int64)
    ensures var prefix := ((key as int) % TWO_32) / 0x100_0000;
            && Prefix(Unsigned(key)) == prefix
            && (Decode(key).typeId == "pi" <==> prefix == 0xae)
            && (Decode(key).typeId == "si" <==> prefix == 0xa2)
            && (Decode(key).typeId == "data" <==> prefix == 0xad)
            && (Decode(key).typeId == "other" <==> prefix != 0xae && prefix != 0xa2 && prefix != 0xad)
            && (IsAerospikeShmSegment(key) <==> prefix == 0xae || prefix == 0xa2 || prefix == 0xad)
  {
    FieldsMakeKey(key);
    TopByte(Prefix(Unsigned(key)), Instance(Unsigned(key)), NamespaceId(Unsigned(key)), Suffix(Unsigned(key)));
    assert "pi"[0] == 'p' && "si"[0] == 's' && "data"[0] == 'd' && OTHER[0] == 'o';
    hide Padded, Format, Prefix, Instance, NamespaceId, Suffix, Composed;
  }

  lemma TopByte(prefix: nat, instance: nat, namespaceId: nat, suffix: nat)
    requires instance < 0x10 && namespaceId < 0x100 && suffix < 0x1000
    ensures Composed(prefix, instance, namespaceId, suffix) / 0x100_0000 == prefix
  {
  }

  // ----- Numerals -----

  lemma {:induction false} ZeroInFront(digits: string, hex: bool)
    ensures Value("0" + digits, hex) == Value(digits, hex)
  {
    if digits == "" {
      ValueSnoc("", '0', hex);
      assert "0" + "" == "" + ['0'];
    } else {
      var front, last := digits[..|digits| - 1], digits[|digits| - 1];
      ZeroInFront(front, hex);
      assert "0" + digits == ("0" + front) + [last] && digits == front + [last];
      ValueSnoc("0" + front, last, hex);
      ValueSnoc(front, last, hex);
    }
  }

  lemma {:induction false} PaddingKeepsValue(digits: string, width: nat, hex: bool)
    ensures Value(Padded(digits, width), hex) == Value(digits, hex)
    ensures |Padded(digits, width)| == if |digits| >= width then |digits| else width
    decreases width - |digits|
  {
    if |digits| < width {
      PaddingKeepsValue("0" + digits, width, hex);
      ZeroInFront(digits, hex);
    }
  }

  lemma NumeralReads(n: nat, width: nat)
    ensures var s := "0x" + Padded(Format(n, true), width);
            |s| >= 2 && Value(s[2..], true) == n
  {
    var digits := Padded(Format(n, true), width);
    ValueOfFormat(n, true);
    PaddingKeepsValue(Format(n, true), width, true);
    assert ("0x" + digits)[2..] == digits;
  }

  /** The decoded strings tell every field, hence the low 32 bits; the hex key tells the whole key. */
  lemma DecodedReadsBack(key: int64)
    ensures var info := Decode(key);
            && |info.hexKey| >= 2 && Value(info.hexKey[2..], true) == Unsigned(key)
            && |info.prefix| >= 2
            && Composed(Value(info.prefix[2..], true), Value(info.instanceId, false), Value(info.namespaceId, false),
                        Value(info.suffix, false))
               == (key as int) % TWO_32
  {
    var u := Unsigned(key);
    hide Format, Padded, Value, Composed, Prefix, Instance, NamespaceId, Suffix;
    NumeralReads(u, 8);
    NumeralReads(Prefix(u), 2);
    ValueOfFormat(Instance(u), false);
    ValueOfFormat(NamespaceId(u), false);
    ValueOfFormat(Suffix(u), false);
    FieldsMakeKey(key);
  }

  /** The hex key has at least eight digits, and the prefix two. */
  lemma Widths(key: int64)
    ensures |Decode(key).hexKey| >= 10 && Decode(key).hexKey[..2] == "0x"
    ensures |Decode(key).prefix| >= 4 && Decode(key).prefix[..2] == "0x"
  {
    var u := Unsigned(key);
    PaddingKeepsValue(Format(u, true), 8, true);
    PaddingKeepsValue(Format(Prefix(u), true), 2, true);
    hide Padded, Format;
  }

  /** No two keys decode to the same strings. */
  lemma DecodeIsInjective(a: int64, b: int64)
    requires Decode(a) == Decode(b)
    ensures a == b
  {
    DecodedReadsBack(a);
    DecodedReadsBack(b);
    hide Decode, Value;
    SameResidue(a as int, b as int);
  }

  lemma SameResidue(a: int, b: int)
    requires a % TWO_64 == b % TWO_64 && -0x8000_0000_0000_0000 <= a < 0x8000_0000_0000_0000
             && -0x8000_0000_0000_0000 <= b < 0x8000_0000_0000_0000
    ensures a == b
  {
    assert a == TWO_64 * (a / TWO_64) + a % TWO_64 && b == TWO_64 * (b / TWO_64) + b % TWO_64;
  }
}
