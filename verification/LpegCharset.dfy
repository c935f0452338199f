/** charsettype (lib/lpeg/lpcode.c) on the bitmap of a set: 32 bytes of eight characters each. */
module LpegCharset {
  import opened LpegTree
  import opened LpegCode

  const CHARSETSIZE: nat := 32
  const BITSPERCHAR: nat := 8

  /** Bit k of a byte. */
  function Bit(b: bv8, k: nat): bool
    requires k < 8
  {
    b & Mask(k) != 0
  }

  function Mask(k: nat): bv8
    requires k < 8
  {
    match k
    case 0 => 1
    case 1 => 2
    case 2 => 4
    case 3 => 8
    case 4 => 16
    case 5 => 32
    case 6 => 64
    case _ => 128
  }

  predicate In(bits: seq<bv8>, c: Byte)
    requires |bits| == CHARSETSIZE
  {
    Bit(bits[c / 8], c % 8)
  }

  function ToSet(bits: seq<bv8>): Charset
    requires |bits| == CHARSETSIZE
  {
    set c: Byte | In(bits, c)
  }

  /** The bitmap of a set. */
  function ToBits(cs: Charset): (bits: seq<bv8>)
    ensures |bits| == CHARSETSIZE
  {
    seq(CHARSETSIZE, i requires 0 <= i < CHARSETSIZE => ByteOf(cs, i))
  }

  function ByteOf(cs: Charset, i: nat): bv8
    requires i < CHARSETSIZE
  {
    (if 8 * i in cs then 1 else 0) | (if 8 * i + 1 in cs then 2 else 0)
    | (if 8 * i + 2 in cs then 4 else 0) | (if 8 * i + 3 in cs then 8 else 0)
    | (if 8 * i + 4 in cs then 16 else 0) | (if 8 * i + 5 in cs then 32 else 0)
    | (if 8 * i + 6 in cs then 64 else 0) | (if 8 * i + 7 in cs then 128 else 0)
  }

  lemma ToSetToBits(cs: Charset)
    ensures ToSet(ToBits(cs)) == cs
  {
    forall c: Byte ensures In(ToBits(cs), c) <==> c in cs { BitOfByte(cs, c / 8, c % 8); }
  }

  lemma BitOfByte(cs: Charset, i: nat, k: nat)
    requires i < CHARSETSIZE && k < 8
    ensures Bit(ByteOf(cs, i), k) <==> 8 * i + k in cs
  {
  }

  lemma NoBits(b: bv8)
    ensures b == 0 <==> forall k :: 0 <= k < 8 ==> !Bit(b, k)
  {
    if forall k :: 0 <= k < 8 ==> !Bit(b, k) {
      assert !Bit(b, 0) && !Bit(b, 1) && !Bit(b, 2) && !Bit(b, 3) && !Bit(b, 4) && !Bit(b, 5) && !Bit(b, 6)
             && !Bit(b, 7);
    }
  }

  lemma AllBits(b: bv8)
    ensures b == 0xff <==> forall k :: 0 <= k < 8 ==> Bit(b, k)
  {
    if forall k :: 0 <= k < 8 ==> Bit(b, k) {
      assert Bit(b, 0) && Bit(b, 1) && Bit(b, 2) && Bit(b, 3) && Bit(b, 4) && Bit(b, 5) && Bit(b, 6) && Bit(b, 7);
    }
  }

  /** The position of the highest bit, as the source finds it. */
  function Position(b: bv8): (k: nat)
    ensures k < 8
  {
    var k1 := if b & 0xf0 != 0 then 4 else 0;
    var b1 := if b & 0xf0 != 0 then b >> 4 else b;
    var k2 := if b1 & 0x0c != 0 then k1 + 2 else k1;
    var b2 := if b1 & 0x0c != 0 then b1 >> 2 else b1;
    if b2 & 0x02 != 0 then k2 + 1 else k2
  }

  predicate Single(b: bv8) {
    b != 0 && b & (b - 1) == 0
  }

  lemma SingleIs(b: bv8)
    requires Single(b)
    ensures forall k :: 0 <= k < 8 ==> (Bit(b, k) <==> k == Position(b))
  {
    assert b == 1 || b == 2 || b == 4 || b == 8 || b == 16 || b == 32 || b == 64 || b == 128;
  }

  /** A byte that is neither empty nor single has another bit besides any one of its bits. */
  lemma Another(b: bv8, k: nat)
    requires b != 0 && !Single(b) && k < 8
    ensures exists j :: 0 <= j < 8 && j != k && Bit(b, j)
  {
    assert !(b == 1 || b == 2 || b == 4 || b == 8 || b == 16 || b == 32 || b == 64 || b == 128);
    assert (k != 0 && Bit(b, 0)) || (k != 1 && Bit(b, 1)) || (k != 2 && Bit(b, 2)) || (k != 3 && Bit(b, 3))
        || (k != 4 && Bit(b, 4)) || (k != 5 && Bit(b, 5)) || (k != 6 && Bit(b, 6)) || (k != 7 && Bit(b, 7));
  }

  lemma InAt(bits: seq<bv8>, i: nat, k: nat)
    requires |bits| == CHARSETSIZE && i < CHARSETSIZE && k < 8
    ensures 8 * i + k < 256 && (8 * i + k in ToSet(bits) <==> Bit(bits[i], k))
  {
    var c: Byte := 8 * i + k;
    assert c / 8 == i && c % 8 == k;
  }

  lemma InByte(bits: seq<bv8>, c: Byte)
    requires |bits| == CHARSETSIZE
    ensures c / 8 < CHARSETSIZE && (c in ToSet(bits) <==> Bit(bits[c / 8], c % 8))
  {
  }

  /** Two characters that are in the set and one that is not. */
  ghost predicate Mixed(cs: Charset) {
    && (exists c, d :: c in cs && d in cs && c != d)
    && (exists c: Byte :: c !in cs)
  }

  lemma MixedIsSet(cs: Charset)
    requires Mixed(cs)
    ensures CharsetType(cs) == KindSet
  {
    var c, d :| c in cs && d in cs && c != d;
    var e: Byte :| e !in cs;
    assert e in FULL;
  }

  lemma IsMixed(bits: seq<bv8>, i: nat, j: nat, k: nat, l: nat, m: nat, n: nat)
    requires |bits| == CHARSETSIZE && i < 32 && k < 32 && m < 32 && j < 8 && l < 8 && n < 8
    requires Bit(bits[i], j) && Bit(bits[k], l) && (i, j) != (k, l) && !Bit(bits[m], n)
    ensures CharsetType(ToSet(bits)) == KindSet
  {
    InAt(bits, i, j);
    InAt(bits, k, l);
    InAt(bits, m, n);
    var x: Byte, y: Byte, z: Byte := 8 * i + j, 8 * k + l, 8 * m + n;
    var cs := ToSet(bits);
    assert x in cs && y in cs && x != y && z !in cs;
    MixedIsSet(cs);
  }

  /** What is known after the first i bytes: all empty, all full, or one character. */
  ghost predicate Counted(bits: seq<bv8>, i: nat, count: nat, candidate: int) {
    && |bits| == CHARSETSIZE && i <= CHARSETSIZE
    && (count == 0 || count == 1 || count == 8 * i)
    && (count == 0 ==> forall j :: 0 <= j < i ==> bits[j] == 0)
    && (count == 8 * i ==> forall j :: 0 <= j < i ==> bits[j] == 0xff)
    && (count == 1 ==> 0 <= candidate < i && Single(bits[candidate]))
    && (count == 1 ==> forall j :: 0 <= j < i && j != candidate ==> bits[j] == 0)
  }

  /** charsettype: empty, singleton, full or general, each exactly for the sets of that kind. */
  method CharsetTypeOf(bits: seq<bv8>) returns (k: Kind)
    requires |bits| == CHARSETSIZE
    ensures k.KindEmpty? <==> ToSet(bits) == {}
    ensures k.KindFull? <==> ToSet(bits) == FULL
    ensures k.KindChar? <==> exists c :: ToSet(bits) == {c}
    ensures k.KindChar? ==> ToSet(bits) == {k.c}
    ensures k == CharsetType(ToSet(bits))
  {
    k := Classify(bits);
    KindIs(ToSet(bits));
  }

  lemma KindIs(cs: Charset)
    ensures var k := CharsetType(cs);
            && (k.KindEmpty? <==> cs == {}) && (k.KindFull? <==> cs == FULL)
            && (k.KindChar? <==> exists c :: cs == {c}) && (k.KindChar? ==> cs == {k.c})
  {
    if c :| cs == {c} { OneCharKind(c); }
  }

  /** The loop of charsettype. */
  method Classify(bits: seq<bv8>) returns (k: Kind)
    requires |bits| == CHARSETSIZE
    ensures k == CharsetType(ToSet(bits))
  {
    hide Bit, CharsetType, Single, ToSet;
    var count: nat, candidate, i: nat := 0, -1, 0;
    while i < CHARSETSIZE
      invariant Counted(bits, i, count, candidate)
    {
      var b := bits[i];
      if b == 0 {
        if count > 1 { MixedFull(bits, i); return KindSet; }
        NotSingle();
      } else if b == 0xff {
        if count < i * BITSPERCHAR { MixedEmpty(bits, i, candidate); return KindSet; }
        count := count + BITSPERCHAR;
      } else if Single(b) {
        if count > 0 { MixedSingle(bits, i, count, candidate); return KindSet; }
        count := count + 1;
        candidate := i;
      } else {
        MixedByte(bits, i);
        return KindSet;
      }
      i := i + 1;
    }
    if count == 0 {
      EmptySet(bits);
      return KindEmpty;
    } else if count == 1 {
      OneChar(bits, candidate);
      return KindChar(candidate * BITSPERCHAR + Position(bits[candidate]));
    }
    FullSet(bits);
    return KindFull;
  }

  lemma NotSingle()
    ensures !Single(0) && !Single(0xff)
  {
  }

  /** Full bytes and then an empty one. */
  lemma MixedFull(bits: seq<bv8>, i: nat)
    requires |bits| == CHARSETSIZE && 0 < i < CHARSETSIZE && bits[i] == 0 && bits[0] == 0xff
    ensures CharsetType(ToSet(bits)) == KindSet
  {
    hide CharsetType, ToSet;
    AllBits(bits[0]);
    NoBits(bits[i]);
    IsMixed(bits, 0, 0, 0, 1, i, 0);
  }

  /** A full byte after bytes that are not all full. */
  lemma MixedEmpty(bits: seq<bv8>, i: nat, candidate: int)
    requires |bits| == CHARSETSIZE && 0 < i < CHARSETSIZE && bits[i] == 0xff
    requires bits[0] == 0 || Single(bits[0])
    ensures CharsetType(ToSet(bits)) == KindSet
  {
    hide CharsetType, ToSet;
    AllBits(bits[i]);
    AllBits(bits[0]);
    NotSingle();
    var n :| 0 <= n < 8 && !Bit(bits[0], n);
    IsMixed(bits, i, 0, i, 1, 0, n);
  }

  /** A second byte with characters. */
  lemma MixedSingle(bits: seq<bv8>, i: nat, count: nat, candidate: int)
    requires Counted(bits, i, count, candidate) && i < CHARSETSIZE && Single(bits[i]) && count > 0
    ensures CharsetType(ToSet(bits)) == KindSet
  {
    hide CharsetType, ToSet;
    SingleIs(bits[i]);
    var j, p := Position(bits[i]), if count == 1 then candidate else 0;
    NoBits(bits[p]);
    NotSingle();
    var l :| 0 <= l < 8 && Bit(bits[p], l);
    IsMixed(bits, i, j, p, l, i, if j == 0 then 1 else 0);
  }

  /** A byte with some characters but not all. */
  lemma MixedByte(bits: seq<bv8>, i: nat)
    requires |bits| == CHARSETSIZE && i < CHARSETSIZE && bits[i] != 0 && bits[i] != 0xff && !Single(bits[i])
    ensures CharsetType(ToSet(bits)) == KindSet
  {
    hide CharsetType, ToSet;
    NoBits(bits[i]);
    AllBits(bits[i]);
    var j :| 0 <= j < 8 && Bit(bits[i], j);
    Another(bits[i], j);
    var l :| 0 <= l < 8 && l != j && Bit(bits[i], l);
    var n :| 0 <= n < 8 && !Bit(bits[i], n);
    IsMixed(bits, i, j, i, l, i, n);
  }

  lemma EmptySet(bits: seq<bv8>)
    requires |bits| == CHARSETSIZE && forall j :: 0 <= j < CHARSETSIZE ==> bits[j] == 0
    ensures CharsetType(ToSet(bits)) == KindEmpty
  {
    NoBits(0);
    forall c: Byte ensures c !in ToSet(bits) { InByte(bits, c); }
    assert ToSet(bits) == {};
  }

  lemma FullSet(bits: seq<bv8>)
    requires |bits| == CHARSETSIZE && forall j :: 0 <= j < CHARSETSIZE ==> bits[j] == 0xff
    ensures CharsetType(ToSet(bits)) == KindFull
  {
    AllBits(0xff);
    forall c: Byte ensures c in ToSet(bits) { InByte(bits, c); }
    assert ToSet(bits) == FULL;
  }

  lemma OneChar(bits: seq<bv8>, m: nat)
    requires |bits| == CHARSETSIZE && m < CHARSETSIZE && Single(bits[m])
    requires forall j :: 0 <= j < CHARSETSIZE && j != m ==> bits[j] == 0
    ensures m * 8 + Position(bits[m]) < 256 && CharsetType(ToSet(bits)) == KindChar(m * 8 + Position(bits[m]))
  {
    hide CharsetType, Position, Bit, Single, ToSet;
    var d: Byte := m * 8 + Position(bits[m]);
    SingleIs(bits[m]);
    NoBits(0);
    forall c: Byte ensures c in ToSet(bits) <==> c == d { InByte(bits, c); }
    assert ToSet(bits) == {d};
    OneCharKind(d);
  }

  lemma OneCharKind(d: Byte)
    ensures CharsetType({d}) == KindChar(d)
  {
    var k := CharsetType({d});
    assert 0 in FULL && 1 in FULL;
    assert {d} != FULL;
    assert d in {d};
    if k.KindChar? { assert k.c in {k.c}; }
  }
}
