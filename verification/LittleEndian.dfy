/** Bytes, little-endian numbers and buffers. */
module LittleEndian {
  type Byte = x: int | 0 <= x < 256

  function Pow2(n: nat): (p: nat)
    ensures p >= 1
  {
    if n == 0 then 1 else 2 * Pow2(n - 1)
  }

  function Pow256(n: nat): (p: nat)
    ensures p >= 1
  {
    if n == 0 then 1 else 256 * Pow256(n - 1)
  }

  /** The n lowest bytes of v, the lowest first. */
  function Le(n: nat, v: nat): (s: seq<Byte>)
    ensures |s| == n
  {
    if n == 0 then [] else [v % 256] + Le(n - 1, v / 256)
  }

  function Val(s: seq<Byte>): nat {
    if s == [] then 0 else s[0] + 256 * Val(s[1..])
  }

  lemma {:induction false} ValLe(n: nat, v: nat)
    requires v < Pow256(n)
    ensures Val(Le(n, v)) == v
  {
    if n > 0 {
      assert Le(n, v)[1..] == Le(n - 1, v / 256);
      ValLe(n - 1, v / 256);
    }
  }

  lemma {:induction false} ValBelow(s: seq<Byte>)
    ensures Val(s) < Pow256(|s|)
  {
    if s != [] { ValBelow(s[1..]); }
  }

  lemma Powers()
    ensures Pow256(1) == 0x100 && Pow256(2) == 0x1_0000 && Pow256(4) == 0x1_0000_0000
            && Pow256(8) == 0x1_0000_0000_0000_0000
  {
    assert Pow256(8) == 256 * Pow256(7) == 0x1_0000 * Pow256(6) == 0x100_0000 * Pow256(5) == 0x1_0000_0000 * Pow256(4);
    assert Pow256(4) == 256 * Pow256(3) == 0x1_0000 * Pow256(2);
  }

  lemma QuotientIs(v: nat, m: nat, q: nat, r: nat)
    requires m >= 1 && v == q * m + r && r < m
    ensures v / m == q && v % m == r
  {
    var d := v / m - q;
    assert v == (v / m) * m + v % m;
    assert d * m == r - v % m;
    assert d >= 1 ==> d * m >= m;
    assert d <= -1 ==> (-d) * m >= m;
  }

  /** A number of two parts, byte by byte. */
  lemma {:induction false} LeSplit(a: nat, b: nat, q: nat, r: nat)
    requires r < Pow256(a)
    ensures Le(a + b, q * Pow256(a) + r) == Le(a, r) + Le(b, q)
  {
    hide Pow256, Le;
    if a == 0 {
      LeSplitNone(b, q, r);
    } else {
      var m := Pow256(a - 1);
      PowUnfold(a);
      LowByte(q, m, r);
      Below(r, m);
      LeSplit(a - 1, b, q, r / 256);
      LeSplitMore(a, b, q, r, m);
    }
  }

  lemma LeSplitNone(b: nat, q: nat, r: nat)
    requires r < Pow256(0)
    ensures Le(b, q * Pow256(0) + r) == Le(0, r) + Le(b, q)
  {
    assert q * 1 + 0 == q;
  }

  lemma PowUnfold(a: nat)
    requires a > 0
    ensures Pow256(a) == 256 * Pow256(a - 1)
  {
  }

  lemma Below(r: nat, m: nat)
    requires r < 256 * m
    ensures r / 256 < m
  {
  }

  /** The lowest byte and the rest of a number of two parts. */
  lemma LowByte(q: nat, m: nat, r: nat)
    ensures (q * (256 * m) + r) % 256 == r % 256 && (q * (256 * m) + r) / 256 == q * m + r / 256
  {
    var p := q * m;
    Commute(q, m);
    QuotientIs(256 * p + r, 256, p + r / 256, r % 256);
  }

  lemma Commute(q: nat, m: nat)
    ensures q * (256 * m) == 256 * (q * m)
  {
  }

  lemma LeSplitMore(a: nat, b: nat, q: nat, r: nat, m: nat)
    requires a > 0 && m == Pow256(a - 1)
    requires Le(a - 1 + b, q * m + r / 256) == Le(a - 1, r / 256) + Le(b, q)
    requires (q * (256 * m) + r) % 256 == r % 256 && (q * (256 * m) + r) / 256 == q * m + r / 256
    ensures Le(a + b, q * (256 * m) + r) == Le(a, r) + Le(b, q)
  {
    hide Pow256;
    var v := q * (256 * m) + r;
    assert Le(a + b, v) == [v % 256] + Le(a - 1 + b, v / 256);
    assert Le(a, r) == [r % 256] + Le(a - 1, r / 256);
  }

  /** Consecutive bytes stored into a buffer. */
  method Store(buffer: array<Byte>, at: nat, bytes: seq<Byte>)
    requires at + |bytes| <= buffer.Length
    modifies buffer
    ensures buffer[at..at + |bytes|] == bytes
    ensures buffer[..at] == old(buffer[..at]) && buffer[at + |bytes|..] == old(buffer[at + |bytes|..])
  {
    forall j | 0 <= j < |bytes| { buffer[at + j] := bytes[j]; }
  }

  /** What is in a common prefix or suffix is the same. */
  lemma SameBefore(s: seq<Byte>, t: seq<Byte>, k: nat, a: nat, b: nat)
    requires a <= b <= k <= |s| && |s| == |t| && s[..k] == t[..k]
    ensures s[a..b] == t[a..b]
  {
    assert s[a..b] == s[..k][a..b];
    assert t[a..b] == t[..k][a..b];
  }

  lemma SameAfter(s: seq<Byte>, t: seq<Byte>, k: nat, a: nat, b: nat)
    requires k <= a <= b <= |s| && |s| == |t| && s[k..] == t[k..]
    ensures s[a..b] == t[a..b] && s[b..] == t[b..]
  {
    forall i | k <= i < |s| ensures s[i] == t[i] { assert s[k..][i - k] == t[k..][i - k]; }
  }

  lemma Joined(s: seq<Byte>, a: nat, b: nat, c: nat)
    requires a <= b <= c <= |s|
    ensures s[a..c] == s[a..b] + s[b..c]
  {
  }
}
