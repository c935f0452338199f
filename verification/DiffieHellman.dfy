/** The 64-bit modular arithmetic of the key exchange (lib/crypt/lua-crypt.c). Every machine
    operation wraps around at 2^64. */
module DiffieHellman {
  const P: nat := 0xffff_ffff_ffff_ffc5
  const G: nat := 5
  const TwoTo64: nat := 0x1_0000_0000_0000_0000

  type U64 = x: int | 0 <= x < TwoTo64

  function Wrap(x: int): U64 {
    x % TwoTo64
  }

  function Pow(a: nat, b: nat): nat {
    if b == 0 then 1 else a * Pow(a, b - 1)
  }

  lemma SameMod(x: int, y: int, k: int)
    requires x == y + k * P
    ensures x % P == y % P
  {
    var d := x / P - y / P - k;
    assert d * P == y % P - x % P;
    assert d >= 1 ==> d * P >= P;
    assert d <= -1 ==> d * P + P <= 0;
  }

  /** The addition inside mul_mod_p. */
  function AddModP(m: U64, a: U64): (r: U64)
    requires m < P && a <= P
    ensures r == if m + a >= P then m + a - P else m + a
    ensures r < P
  {
    var t := Wrap(P - a);
    if m >= t then Wrap(m - t) else Wrap(m + a)
  }

  /** The doubling inside mul_mod_p; the first product may wrap around. */
  function DoubleModP(a: U64): (r: U64)
    requires a <= P
    ensures r == if 2 * a >= P then 2 * a - P else 2 * a
    ensures r <= P
  {
    if a >= Wrap(P - a) then Wrap(Wrap(a * 2) - P) else Wrap(a * 2)
  }

  /** mul_mod_p, by doubling and adding without ever leaving 64 bits. */
  method MulModP(x: U64, y: U64) returns (m: U64)
    requires x <= P
    ensures m == x * y % P
  {
    var a: U64, b: U64 := x, y;
    m := 0;
    while b != 0
      invariant a <= P && m < P
      invariant (m + a * b) % P == x * y % P
      decreases b
    {
      ghost var m0, a0, b0 := m, a, b;
      if b % 2 == 1 { m := AddModP(m, a); }
      a := DoubleModP(a);
      b := b / 2;
      MulStep(m0, a0, b0, m, a, b);
    }
  }

  lemma MulStep(m: nat, a: nat, b: nat, m': nat, a': nat, b': nat)
    requires b == 2 * b' + b % 2
    requires m' == (if b % 2 == 0 then m else if m + a >= P then m + a - P else m + a)
    requires a' == if 2 * a >= P then 2 * a - P else 2 * a
    ensures (m' + a' * b') % P == (m + a * b) % P
  {
    var e := if b % 2 == 1 && m + a >= P then 1 else 0;
    var d := if 2 * a >= P then 1 else 0;
    assert a * b == 2 * a * b' + a * (b % 2);
    assert a' * b' == 2 * a * b' - d * P * b';
    assert d * P * b' == (d * b') * P;
    assert m' + a' * b' == m + a * b + (-e - d * b') * P;
    SameMod(m' + a' * b', m + a * b, -e - d * b');
  }

  lemma ModMul(x: nat, y: nat)
    ensures (x % P) * (y % P) % P == x * y % P
    ensures (x % P) * y % P == x * y % P
  {
    var p, q := x / P, y / P;
    assert x == p * P + x % P && y == q * P + y % P;
    assert x * y == (p * P + x % P) * y == (x % P) * y + (p * y) * P;
    SameMod(x * y, (x % P) * y, p * y);
    var r := x % P;
    assert r * y == r * (q * P + y % P) == r * (y % P) + (r * q) * P;
    SameMod(r * y, r * (y % P), r * q);
  }

  lemma {:induction false} PowAdd(a: nat, b: nat, c: nat)
    ensures Pow(a, b + c) == Pow(a, b) * Pow(a, c)
  {
    if b > 0 {
      PowAdd(a, b - 1, c);
      assert a * (Pow(a, b - 1) * Pow(a, c)) == (a * Pow(a, b - 1)) * Pow(a, c);
    }
  }

  lemma {:induction false} PowMod(a: nat, b: nat)
    ensures Pow(a % P, b) % P == Pow(a, b) % P
  {
    if b > 0 {
      var r := a % P;
      PowMod(a, b - 1);
      ModMul(Pow(r, b - 1), r);
      ModMul(Pow(a, b - 1), r);
      ModMul(a, Pow(a, b - 1));
      assert r * Pow(r, b - 1) == Pow(r, b - 1) * r;
      assert r * Pow(a, b - 1) == Pow(a, b - 1) * r;
    }
  }

  lemma {:induction false} PowPow(a: nat, b: nat, c: nat)
    ensures Pow(Pow(a, b), c) == Pow(a, b * c)
  {
    if c > 0 {
      PowPow(a, b, c - 1);
      assert b * c == b + b * (c - 1);
      PowAdd(a, b, b * (c - 1));
    } else {
      assert b * c == 0;
    }
  }

  /** What pow_mod_p returns: P itself for P to the power of one, because only numbers above P
      are reduced before. */
  function PowResult(a: nat, b: nat): nat {
    if a == P && b == 1 then P else Pow(a, b) % P
  }

  /** pow_mod_p */
  method PowModPrime(a: U64, b: U64) returns (r: U64)
    requires a <= P && b >= 1
    ensures r == PowResult(a, b) && r <= P
    decreases b
  {
    if b == 1 {
      assert Pow(a, 1) == a * Pow(a, 0) == a;
      return a;
    }
    var h := b / 2;
    var t := PowModPrime(a, h);
    ghost var low := t;
    t := MulModP(t, t);
    HalfResult(a, h);
    PowAdd(a, h, h);
    if b % 2 == 1 {
      ghost var sq := t;
      t := MulModP(t, a);
      ModMul(Pow(a, 2 * h), a);
      PowAdd(a, 2 * h, 1);
      assert Pow(a, 1) == a * Pow(a, 0) == a;
    }
    return t;
  }

  lemma HalfResult(a: nat, h: nat)
    ensures PowResult(a, h) * PowResult(a, h) % P == Pow(a, h) * Pow(a, h) % P
  {
    var x := Pow(a, h);
    ModMul(x, x);
    if a == P && h == 1 {
      assert x == P * Pow(P, 0) == P;
    }
  }

  /** powmodp: the power modulo P for every base but P itself with exponent one. */
  method PowModP(a: U64, b: U64) returns (r: U64)
    requires b >= 1
    ensures r == Pow(a, b) % P <==> !(a == P && b == 1)
    ensures a == P && b == 1 ==> r == P
  {
    var base := a;
    if base > P { base := base % P; }
    PowMod(a, b);
    r := PowModPrime(base, b);
    assert Pow(P, 1) == P * Pow(P, 0) == P;
  }

  /** The public keys are not zero, so that the other side accepts them, and not P. */
  lemma PublicKey(x: nat)
    ensures 0 < Pow(G, x) % P < P
  {
    var inverse := (2 * P + 1) / 5;
    UnitPower(G, inverse, x);
    var r, q := Pow(G, x) % P, Pow(inverse, x);
    ModMul(Pow(G, x), q);
    assert r == 0 ==> r * q == 0;
  }

  lemma {:induction false} UnitPower(a: nat, i: nat, x: nat)
    requires a * i % P == 1
    ensures Pow(a, x) * Pow(i, x) % P == 1
  {
    if x > 0 {
      UnitPower(a, i, x - 1);
      var p, q := Pow(a, x - 1), Pow(i, x - 1);
      Exchanged(a, p, i, q);
      ModMul(a * i, p * q);
      assert 1 * (p * q) == p * q;
    }
  }

  lemma Exchanged(a: nat, p: nat, i: nat, q: nat)
    ensures (a * p) * (i * q) == (a * i) * (p * q)
  {
    assert (a * p) * (i * q) == a * (p * (i * q));
    assert p * (i * q) == i * (p * q);
    assert a * (i * (p * q)) == (a * i) * (p * q);
  }

  /** Both sides of an exchange compute the same secret. */
  method Exchange(x: U64, y: U64) returns (sx: U64, sy: U64)
    requires x >= 1 && y >= 1
    ensures sx == sy == Pow(G, x * y) % P
  {
    var px := PowModP(G, x);
    var py := PowModP(G, y);
    PublicKey(x);
    PublicKey(y);
    sx := PowModP(py, x);
    sy := PowModP(px, y);
    PowMod(Pow(G, y), x);
    PowMod(Pow(G, x), y);
    PowPow(G, y, x);
    PowPow(G, x, y);
    assert x * y == y * x;
  }
}
