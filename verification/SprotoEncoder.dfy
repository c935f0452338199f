/** sproto_encode and its helpers on a byte buffer (lib/sproto/sproto.c), with the callback of
    lib/sproto/lsproto.c built in. */
module SprotoEncoder {
  import opened LittleEndian
  import opened SprotoCodec
  import opened SprotoRoundTrip

  // Integer arrays.

  lemma {:induction false} IntsConcat(n: nat, a: seq<int>, b: seq<int>)
    ensures Ints(n, a + b) == Ints(n, a) + Ints(n, b)
    decreases |a|
  {
    if a == [] {
      assert a + b == b;
    } else {
      assert (a + b)[1..] == a[1..] + b;
      IntsConcat(n, a[1..], b);
    }
  }

  lemma IntsOne(n: nat, x: int)
    ensures Ints(n, [x]) == IntLe(n, x)
  {
    assert [x][1..] == [];
  }

  lemma {:induction false} IntsSize(n: nat, xs: seq<int>)
    ensures |Ints(n, xs)| == n * |xs|
    decreases |xs|
  {
    if xs != [] { IntsSize(n, xs[1..]); }
  }

  function SignBytes(negative: bool): seq<Byte> {
    if negative then [0xff, 0xff, 0xff, 0xff] else [0, 0, 0, 0]
  }

  /** uint32_to_uint64: the sign of the four low bytes decides about the four high ones. */
  lemma Widen(x: int)
    requires Fits32(x)
    ensures var low := IntLe(4, x); (low[3] >= 0x80 <==> x < 0) && IntLe(8, x) == low + SignBytes(x < 0)
  {
    hide Le, Pow256;
    Powers();
    HighBytes();
    var r, q := x % TwoTo32, if x < 0 then TwoTo32 - 1 else 0;
    assert x % TwoTo64 == q * TwoTo32 + r;
    LeSplit(4, 4, q, r);
    LeSplit(3, 1, r / 0x100_0000, r % 0x100_0000);
  }

  lemma HighBytes()
    ensures Le(4, TwoTo32 - 1) == [0xff, 0xff, 0xff, 0xff] && Le(4, 0) == [0, 0, 0, 0]
    ensures forall v: nat {:trigger Le(1, v)} :: v < 256 ==> Le(1, v) == [v]
    ensures Pow256(3) == 0x100_0000
  {
    assert Le(4, TwoTo32 - 1) == [0xff] + Le(3, 0xff_ffff) == [0xff, 0xff] + Le(2, 0xffff);
    assert Le(2, 0xffff) == [0xff] + Le(1, 0xff);
    assert Le(4, 0) == [0] + Le(3, 0) == [0, 0] + Le(2, 0) == [0, 0, 0] + Le(1, 0);
    assert Pow256(3) == 256 * Pow256(2) == 0x1_0000 * Pow256(1);
  }

  lemma NoInts(n: nat)
    ensures Ints(n, []) == []
  {
  }

  lemma LastInt(s: seq<Byte>, xs: seq<int>)
    requires xs != [] && s == Ints(4, xs)
    ensures var m := |xs| - 1; |s| == 4 * m + 4 && s[..4 * m] == Ints(4, xs[..m]) && s[4 * m..] == IntLe(4, xs[m])
  {
    hide Ints, IntLe;
    var m := |xs| - 1;
    assert xs == xs[..m] + [xs[m]];
    IntsConcat(4, xs[..m], [xs[m]]);
    IntsOne(4, xs[m]);
    IntsSize(4, xs[..m]);
  }

  lemma SpreadStep(buf: seq<Byte>, now: seq<Byte>, at: nat, i: nat, n: nat, eight: seq<Byte>)
    requires |buf| == |now| && i < n && at + 8 * n <= |buf| && |eight| == 8
    requires now[..at + 8 * i] == buf[..at + 8 * i] && now[at + 8 * i..at + 8 * i + 8] == eight
    requires now[at + 8 * i + 8..] == buf[at + 8 * i + 8..]
    ensures now[at..at + 4 * i] == buf[at..at + 4 * i] && now[..at] == buf[..at]
            && now[at + 8 * n..] == buf[at + 8 * n..]
    ensures now[at + 8 * i..at + 8 * n] == eight + buf[at + 8 * i + 8..at + 8 * n]
  {
    SameBefore(now, buf, at + 8 * i, at, at + 4 * i);
    SameBefore(now, buf, at + 8 * i, 0, at);
    SameAfter(now, buf, at + 8 * i + 8, at + 8 * i + 8, at + 8 * n);
    Joined(now, at + 8 * i, at + 8 * i + 8, at + 8 * n);
  }

  /** The elements written so far are spread from four bytes to eight, the last one first. */
  method Rearrange(buffer: array<Byte>, at: nat, xs: seq<int>)
    requires at + 8 * |xs| <= buffer.Length && AllFit32(xs)
    requires buffer[at..at + 4 * |xs|] == Ints(4, xs)
    modifies buffer
    ensures buffer[at..at + 8 * |xs|] == Ints(8, xs)
    ensures buffer[..at] == old(buffer[..at]) && buffer[at + 8 * |xs|..] == old(buffer[at + 8 * |xs|..])
  {
    hide Ints, IntLe;
    var i := |xs|;
    assert xs[..i] == xs && xs[i..] == [];
    NoInts(8);
    while i > 0
      invariant 0 <= i <= |xs|
      invariant Spread(buffer[..], at, i, xs)
      invariant buffer[..at] == old(buffer[..at]) && buffer[at + 8 * |xs|..] == old(buffer[at + 8 * |xs|..])
    {
      i := i - 1;
      SpreadOne(buffer, at, i, xs);
    }
    SpreadDone(buffer[..], at, xs);
  }

  /** One round: element i moves to its place and gets its high bytes. */
  method SpreadOne(buffer: array<Byte>, at: nat, i: nat, xs: seq<int>)
    requires AllFit32(xs) && i < |xs| && Spread(buffer[..], at, i + 1, xs)
    modifies buffer
    ensures Spread(buffer[..], at, i, xs)
    ensures at + 8 * |xs| <= buffer.Length
    ensures buffer[..at] == old(buffer[..at]) && buffer[at + 8 * |xs|..] == old(buffer[at + 8 * |xs|..])
  {
    hide Ints, IntLe, Spread;
    ghost var buf := buffer[..];
    SpreadLast(buf, at, i, xs);
    Widen(xs[i]);
    var low := buffer[at + 4 * i..at + 4 * i + 4];
    Store(buffer, at + 8 * i, low + SignBytes(low[3] >= 0x80));
    SpreadStep(buf, buffer[..], at, i, |xs|, IntLe(8, xs[i]));
    SpreadMore(buf, buffer[..], at, i, xs);
  }

  /** The first i elements in four bytes each, the others in eight, each group in its place. */
  ghost predicate Spread(s: seq<Byte>, at: nat, i: nat, xs: seq<int>) {
    && i <= |xs| && at + 8 * |xs| <= |s|
    && s[at..at + 4 * i] == Ints(4, xs[..i])
    && s[at + 8 * i..at + 8 * |xs|] == Ints(8, xs[i..])
  }

  lemma SpreadLast(s: seq<Byte>, at: nat, i: nat, xs: seq<int>)
    requires i < |xs| && Spread(s, at, i + 1, xs)
    ensures at + 8 * |xs| <= |s|
    ensures s[at + 4 * i..at + 4 * i + 4] == IntLe(4, xs[i]) && s[at..at + 4 * i] == Ints(4, xs[..i])
  {
    hide Ints, IntLe;
    var part := s[at..at + 4 * (i + 1)];
    LastInt(part, xs[..i + 1]);
    assert xs[..i + 1][..i] == xs[..i];
    assert s[at + 4 * i..at + 4 * i + 4] == part[4 * i..];
    assert s[at..at + 4 * i] == part[..4 * i];
  }

  lemma SpreadMore(buf: seq<Byte>, now: seq<Byte>, at: nat, i: nat, xs: seq<int>)
    requires i < |xs| && Spread(buf, at, i + 1, xs) && |now| == |buf| && at + 8 * |xs| <= |buf|
    requires now[at..at + 4 * i] == Ints(4, xs[..i])
    requires now[at + 8 * i..at + 8 * |xs|] == IntLe(8, xs[i]) + buf[at + 8 * i + 8..at + 8 * |xs|]
    ensures Spread(now, at, i, xs)
  {
    hide IntLe;
    assert xs[i..][1..] == xs[i + 1..];
  }

  lemma SpreadDone(s: seq<Byte>, at: nat, xs: seq<int>)
    requires Spread(s, at, 0, xs)
    ensures s[at..at + 8 * |xs|] == Ints(8, xs)
  {
    assert xs[0..] == xs;
  }

  /** The elements of an integer array so far. */
  ghost predicate Written(s: seq<Byte>, at: nat, n: nat, xs: seq<int>) {
    at + n * |xs| <= |s| && s[at..at + n * |xs|] == Ints(n, xs)
  }

  lemma WrittenMore(buf: seq<Byte>, now: seq<Byte>, at: nat, n: nat, xs: seq<int>, k: nat)
    requires k < |xs| && Written(buf, at, n, xs[..k]) && |now| == |buf| && at + n * k + n <= |now|
    requires now[..at + n * k] == buf[..at + n * k] && now[at + n * k..at + n * k + n] == IntLe(n, xs[k])
    ensures Written(now, at, n, xs[..k + 1])
  {
    hide Ints, IntLe;
    var x, end := xs[k], at + n * k;
    IntsConcat(n, xs[..k], [x]);
    IntsOne(n, x);
    SameBefore(now, buf, end, at, end);
    Joined(now, at, end, end + n);
    assert xs[..k + 1] == xs[..k] + [x];
    assert n * (k + 1) == n * k + n;
  }

  lemma WrittenNone(s: seq<Byte>, at: nat, xs: seq<int>)
    requires at <= |s|
    ensures Written(s, at, 4, xs[..0])
  {
  }

  lemma FitMore(xs: seq<int>, k: nat)
    requires k < |xs|
    ensures AllFit32(xs[..k + 1]) <==> AllFit32(xs[..k]) && Fits32(xs[k])
  {
    assert forall j :: 0 <= j <= k ==> xs[..k + 1][j] == xs[j];
    assert forall j :: 0 <= j < k ==> xs[..k][j] == xs[..k + 1][j];
    assert xs[..k + 1][k] == xs[k];
  }

  lemma WrittenAll(s: seq<Byte>, now: seq<Byte>, at: nat, n: nat, xs: seq<int>)
    requires xs != [] && (n == 4 || n == 8) && Written(s, at + 1, n, xs) && (n == 4 <==> AllFit32(xs))
    requires |now| == |s| && now == s[at := n]
    ensures at + 1 + n * |xs| <= |s| && now[at..at + 1 + n * |xs|] == IntArray(xs)
  {
    hide Ints, AllFit32;
    var end := at + 1 + n * |xs|;
    assert now[at + 1..end] == s[at + 1..end];
    assert now[at..end] == [n] + now[at + 1..end];
  }

  /** One element of encode_integer_array, after the widening. */
  method StoreInt(buffer: array<Byte>, b: nat, intlen: nat, x: int)
    requires (intlen == 4 && Fits32(x)) || intlen == 8
    requires b + 8 <= buffer.Length
    modifies buffer
    ensures buffer[..b] == old(buffer[..b]) && buffer[b + 8..] == old(buffer[b + 8..])
    ensures buffer[b..b + intlen] == IntLe(intlen, x)
  {
    hide IntLe;
    ghost var buf := buffer[..];
    if Fits32(x) {
      Store(buffer, b, IntLe(4, x));
      SameAfter(buffer[..], buf, b + 4, b + 4, b + 8);
      if intlen == 8 {
        ghost var mid := buffer[..];
        Widen(x);
        Store(buffer, b + 4, SignBytes(x % TwoTo32 >= 0x8000_0000));
        SameBefore(buffer[..], mid, b + 4, 0, b);
        SameBefore(buffer[..], mid, b + 4, b, b + 4);
        Joined(buffer[..], b, b + 4, b + 8);
      }
    } else {
      Store(buffer, b, IntLe(8, x));
    }
  }

  /** encode_integer_array: the end of the array in the buffer, or -1 if there is no room. */
  method EncodeIntegerArray(buffer: array<Byte>, at: nat, size: int, xs: seq<int>) returns (end: int)
    requires at + size <= buffer.Length && size >= 0
    modifies buffer
    ensures buffer[..at] == old(buffer[..at]) && buffer[at + size..] == old(buffer[at + size..])
    ensures end >= 0 ==> at <= end <= at + size && buffer[at..end] == IntArray(xs) && end - at <= 1 + 8 * |xs|
    ensures size >= 1 + 8 * |xs| ==> end >= 0
  {
    hide Ints, IntLe, Written, AllFit32;
    if size < 1 { return -1; }
    var b, left, intlen, k := at + 1, size - 1, 4, 0;
    WrittenNone(buffer[..], at + 1, xs);
    FitNone(xs);
    while k < |xs|
      invariant 0 <= k <= |xs| && (intlen == 4 || intlen == 8)
      invariant b == at + 1 + intlen * k && left == size - 1 - intlen * k
      invariant Written(buffer[..], at + 1, intlen, xs[..k]) && (intlen == 4 <==> AllFit32(xs[..k]))
      invariant buffer[..at] == old(buffer[..at]) && buffer[at + size..] == old(buffer[at + size..])
    {
      var x := xs[k];
      if left < 8 { return -1; }
      FitMore(xs, k);
      if !Fits32(x) && intlen == 4 {
        left := left - k * 4;
        if left < 8 { return -1; }
        b := b + k * 4;
        SpreadOut(buffer, at, size, xs[..k]);
        intlen := 8;
      }
      AppendInt(buffer, at, size, b, intlen, xs, k);
      b, left, k := b + intlen, left - intlen, k + 1;
    }
    if b == at + 1 { return at; }
    assert xs[..k] == xs;
    StoreWidth(buffer, at, size, intlen, xs);
    return b;
  }

  method StoreWidth(buffer: array<Byte>, at: nat, size: nat, n: Byte, xs: seq<int>)
    requires at + size <= buffer.Length && 1 <= size
    requires xs != [] && (n == 4 || n == 8) && Written(buffer[..], at + 1, n, xs) && (n == 4 <==> AllFit32(xs))
    modifies buffer
    ensures buffer[at..at + 1 + n * |xs|] == IntArray(xs)
    ensures buffer[..at] == old(buffer[..at]) && buffer[at + size..] == old(buffer[at + size..])
  {
    hide Ints, AllFit32, Written;
    ghost var buf := buffer[..];
    buffer[at] := n;
    WrittenAll(buf, buffer[..], at, n, xs);
  }

  lemma FitNone(xs: seq<int>)
    ensures AllFit32(xs[..0])
  {
  }

  /** The widening in the middle of encode_integer_array. */
  method SpreadOut(buffer: array<Byte>, at: nat, size: int, xs: seq<int>)
    requires at + size <= buffer.Length && 1 + 8 * |xs| <= size && Written(buffer[..], at + 1, 4, xs) && AllFit32(xs)
    modifies buffer
    ensures Written(buffer[..], at + 1, 8, xs)
    ensures buffer[..at] == old(buffer[..at]) && buffer[at + size..] == old(buffer[at + size..])
  {
    hide Ints, AllFit32;
    ghost var buf := buffer[..];
    Rearrange(buffer, at + 1, xs);
    SameBefore(buffer[..], buf, at + 1, 0, at);
    SameAfter(buffer[..], buf, at + 1 + 8 * |xs|, at + size, at + size);
  }

  method AppendInt(buffer: array<Byte>, at: nat, size: int, b: nat, intlen: nat, xs: seq<int>, k: nat)
    requires at + size <= buffer.Length && k < |xs| && ((intlen == 4 && Fits32(xs[k])) || intlen == 8)
    requires Written(buffer[..], at + 1, intlen, xs[..k]) && b == at + 1 + intlen * k && b + 8 <= at + size
    modifies buffer
    ensures Written(buffer[..], at + 1, intlen, xs[..k + 1])
    ensures buffer[..at] == old(buffer[..at]) && buffer[at + size..] == old(buffer[at + size..])
  {
    hide Ints, IntLe, Written;
    ghost var buf := buffer[..];
    StoreInt(buffer, b, intlen, xs[k]);
    WrittenMore(buf, buffer[..], at + 1, intlen, xs, k);
    SameBefore(buffer[..], buf, b, 0, at);
    SameAfter(buffer[..], buf, b + 8, at + size, at + size);
  }
}
