/** The zero-packing of sproto (lib/sproto/sproto.c): groups of eight bytes are written either
    as a mask and their non-zero bytes or, in runs of up to 256 groups, as they are. */
module SprotoPack {
  import opened Wrappers
  import opened LittleEndian

  // The wire format.

  /** A mask with one bit per byte, the first byte lowest, set where the byte is not zero. */
  function Mask(g: seq<Byte>): nat {
    if g == [] then 0 else (if g[0] != 0 then 1 else 0) + 2 * Mask(g[1..])
  }

  function Dense(g: seq<Byte>): (d: seq<Byte>)
    ensures |d| <= |g|
  {
    if g == [] then [] else (if g[0] != 0 then [g[0]] else []) + Dense(g[1..])
  }

  datatype Segment = Sparse(group: seq<Byte>) | Raw(bytes: seq<Byte>)

  predicate Fits(s: Segment) {
    match s
    case Sparse(g) => |g| == 8 && |Dense(g)| < 8
    case Raw(b) => |b| % 8 == 0 && 8 <= |b| <= 2048
  }

  function Wire(s: Segment): seq<Byte>
    requires Fits(s)
  {
    match s
    case Sparse(g) => MaskBelow(g); [Mask(g)] + Dense(g)
    case Raw(b) => [255, |b| / 8 - 1] + b
  }

  lemma {:induction false} MaskBelow(g: seq<Byte>)
    ensures Mask(g) <= Pow2(|g|) - 1
    ensures Mask(g) == Pow2(|g|) - 1 <==> |Dense(g)| == |g|
    ensures |g| == 8 ==> Pow2(|g|) == 256
  {
    if g != [] { MaskBelow(g[1..]); }
    if |g| == 8 {
      assert Pow2(8) == 2 * Pow2(7) == 4 * Pow2(6) == 8 * Pow2(5) == 16 * Pow2(4);
      assert Pow2(4) == 2 * Pow2(3) == 4 * Pow2(2);
    }
  }

  function Bytes(s: Segment): seq<Byte> {
    match s
    case Sparse(g) => g
    case Raw(b) => b
  }

  predicate AllFit(ss: seq<Segment>) {
    forall i :: 0 <= i < |ss| ==> Fits(ss[i])
  }

  function WireAll(ss: seq<Segment>): seq<Byte>
    requires AllFit(ss)
  {
    if ss == [] then [] else Wire(ss[0]) + WireAll(ss[1..])
  }

  function BytesAll(ss: seq<Segment>): seq<Byte> {
    if ss == [] then [] else Bytes(ss[0]) + BytesAll(ss[1..])
  }

  // Packing. `mem` is the memory at the source, of which `sz` bytes belong to it.

  function Groups(sz: nat): nat {
    (sz + 7) / 8
  }

  /** The source, filled up with zeros to whole groups. */
  function Padded(mem: seq<Byte>, sz: nat): (p: seq<Byte>)
    requires sz <= |mem|
    ensures |p| == 8 * Groups(sz)
  {
    mem[..sz] + seq(8 * Groups(sz) - sz, _ => 0)
  }

  function Group(mem: seq<Byte>, sz: nat, i: nat): (g: seq<Byte>)
    requires sz <= |mem| && i < Groups(sz)
    ensures |g| == 8
  {
    Padded(mem, sz)[8 * i..8 * i + 8]
  }

  /** A group is left as it is when it has no zero or when it extends a run and has at most two. */
  predicate Keeps(g: seq<Byte>, k: nat) {
    |Dense(g)| == 8 || (k > 0 && |Dense(g)| >= 6)
  }

  /** The open run of k groups that ends before group i. */
  function Run(mem: seq<Byte>, sz: nat, i: nat, k: nat): (ss: seq<Segment>)
    requires sz <= |mem| && k <= i <= Groups(sz) && k < 256
    ensures AllFit(ss)
  {
    if k == 0 then [] else [Raw(Padded(mem, sz)[8 * (i - k)..8 * i])]
  }

  /** The segments for the groups from i on, and for the open run before them. A run that
      reaches 256 groups is closed with the bytes found in memory, padding or not. */
  function Segments(mem: seq<Byte>, sz: nat, i: nat, k: nat): (ss: seq<Segment>)
    requires 8 * Groups(sz) <= |mem| && k <= i <= Groups(sz) && k < 256
    ensures AllFit(ss)
    decreases Groups(sz) - i
  {
    if i == Groups(sz) then Run(mem, sz, i, k)
    else
      var g := Group(mem, sz, i);
      if Keeps(g, k) then
        if k == 255 then [Raw(mem[8 * (i - 255)..8 * i + 8])] + Segments(mem, sz, i + 1, 0)
        else Segments(mem, sz, i + 1, k + 1)
      else Run(mem, sz, i, k) + ([Sparse(g)] + Segments(mem, sz, i + 1, 0))
  }

  function Packed(mem: seq<Byte>, sz: nat): seq<Byte>
    requires 8 * Groups(sz) <= |mem|
  {
    WireAll(Segments(mem, sz, 0, 0))
  }

  // Unpacking, as a property of the stream alone: its whole segments and what is left of it.

  /** The number of bits set among the lowest n. */
  function Ones(mask: nat, n: nat): (k: nat)
    ensures k <= n
  {
    if n == 0 then 0 else mask % 2 + Ones(mask / 2, n - 1)
  }

  /** The bytes of d where the mask has a bit, and zeros elsewhere. */
  function Spread(mask: nat, d: seq<Byte>, n: nat): (g: seq<Byte>)
    requires |d| == Ones(mask, n)
    ensures |g| == n
    decreases n
  {
    if n == 0 then []
    else if mask % 2 == 1 then [d[0]] + Spread(mask / 2, d[1..], n - 1)
    else [0] + Spread(mask / 2, d, n - 1)
  }

  /** How many bytes the segment at the front takes. */
  function Extent(s: seq<Byte>): (n: nat)
    requires s != [] && (s[0] == 255 ==> |s| > 1)
    ensures n > 0
  {
    if s[0] != 255 then 1 + Ones(s[0], 8)
    else
      var count: int := s[1];
      2 + 8 * (count + 1)
  }

  /** Is there a whole segment at the front? */
  predicate Front(s: seq<Byte>) {
    s != [] && (s[0] == 255 ==> |s| > 1) && Extent(s) <= |s|
  }

  /** The bytes that the segment at the front stands for. */
  function FrontBytes(s: seq<Byte>): seq<Byte>
    requires Front(s)
  {
    if s[0] == 255 then s[2..Extent(s)] else Spread(s[0], s[1..Extent(s)], 8)
  }

  /** What a stream stands for, and the segment at its end that is cut short. */
  datatype Parsed = Parsed(bytes: seq<Byte>, rest: seq<Byte>)

  function Parse(s: seq<Byte>): (t: Parsed)
    ensures !Front(t.rest)
    decreases |s|
  {
    if !Front(s) then Parsed([], s)
    else
      var t := Parse(s[Extent(s)..]);
      Parsed(FrontBytes(s) + t.bytes, t.rest)
  }

  /** The stream ends one byte early, in a masked group. */
  predicate OneShort(s: seq<Byte>) {
    s != [] && s[0] != 255 && |s| + 1 == Extent(s)
  }

  /** What the source makes of a stream and the byte behind it in memory: it finds out too late
      that a masked group is cut short by one byte. */
  function Unpacked(s: seq<Byte>, behind: Byte): Option<seq<Byte>> {
    var t := Parse(s);
    if t.rest == [] then Some(t.bytes)
    else if OneShort(t.rest) then Some(t.bytes + FrontBytes(t.rest + [behind]))
    else None
  }

  // Unpacking what was packed.

  lemma {:induction false} SpreadDense(g: seq<Byte>)
    ensures Ones(Mask(g), |g|) == |Dense(g)| && Spread(Mask(g), Dense(g), |g|) == g
  {
    if g != [] {
      var rest := g[1..];
      SpreadDense(rest);
      assert Mask(g) / 2 == Mask(rest) && g == [g[0]] + rest;
      assert Dense(g) == if g[0] != 0 then [g[0]] + Dense(rest) else Dense(rest);
    }
  }

  /** The whole segment at the front does not depend on what follows it. */
  lemma FrontOnly(s: seq<Byte>, rest: seq<Byte>)
    requires Front(s)
    ensures Front(s + rest) && Extent(s + rest) == Extent(s) && FrontBytes(s + rest) == FrontBytes(s)
  {
    var n := Extent(s);
    assert (s + rest)[1..n] == s[1..n];
    assert s[0] == 255 ==> (s + rest)[2..n] == s[2..n];
  }

  lemma SparseFront(g: seq<Byte>)
    requires Fits(Sparse(g))
    ensures var w := Wire(Sparse(g)); Front(w) && Extent(w) == |w| && FrontBytes(w) == g
  {
    hide Mask, Dense, Ones, Spread;
    MaskBelow(g);
    SpreadDense(g);
    var w := Wire(Sparse(g));
    assert w[1..Extent(w)] == Dense(g);
  }

  lemma RawFront(b: seq<Byte>)
    requires Fits(Raw(b))
    ensures var w := Wire(Raw(b)); Front(w) && Extent(w) == |w| && FrontBytes(w) == b
  {
    var w := Wire(Raw(b));
    assert w == [255, |b| / 8 - 1] + b && w[1] == |b| / 8 - 1;
    assert 8 * (|b| / 8) == |b|;
    assert w[2..] == b;
  }

  lemma WireFront(x: Segment)
    requires Fits(x)
    ensures Front(Wire(x)) && Extent(Wire(x)) == |Wire(x)| && FrontBytes(Wire(x)) == Bytes(x)
  {
    hide Front, Extent, FrontBytes, Wire;
    if x.Sparse? { SparseFront(x.group); } else { RawFront(x.bytes); }
  }

  /** Whole segments at the front are unpacked to their bytes, and the rest as it is alone. */
  lemma {:induction false} ParseWire(ss: seq<Segment>, rest: seq<Byte>)
    requires AllFit(ss)
    ensures Parse(WireAll(ss) + rest) == Parsed(BytesAll(ss) + Parse(rest).bytes, Parse(rest).rest)
    decreases |ss|
  {
    hide Front, FrontBytes, Extent, Fits, Wire, Bytes;
    if ss == [] {
      assert WireAll(ss) + rest == rest && BytesAll(ss) + Parse(rest).bytes == Parse(rest).bytes;
    } else {
      var w, more := Wire(ss[0]), WireAll(ss[1..]) + rest;
      WireFront(ss[0]);
      FrontOnly(w, more);
      assert WireAll(ss) + rest == w + more && (w + more)[|w|..] == more;
      ParseWire(ss[1..], rest);
    }
  }

  /** The wire form stands for the bytes of its segments, with nothing left over. */
  lemma UnpackWire(ss: seq<Segment>)
    requires AllFit(ss)
    ensures Parse(WireAll(ss)) == Parsed(BytesAll(ss), [])
  {
    hide WireAll, BytesAll;
    ParseWire(ss, []);
    assert WireAll(ss) + [] == WireAll(ss) && BytesAll(ss) + [] == BytesAll(ss);
  }

  // Unpacking a stream that is cut short.

  /** The position of the k-th bit of the mask. */
  function Place(mask: nat, k: nat, n: nat): (i: nat)
    requires k < Ones(mask, n)
    ensures i < n
  {
    if mask % 2 == 0 then 1 + Place(mask / 2, k, n - 1)
    else if k == 0 then 0
    else 1 + Place(mask / 2, k - 1, n - 1)
  }

  lemma {:induction false} SpreadAt(mask: nat, d: seq<Byte>, n: nat, k: nat)
    requires |d| == Ones(mask, n) && k < |d|
    ensures Spread(mask, d, n)[Place(mask, k, n)] == d[k]
    decreases n
  {
    if mask % 2 == 0 {
      SpreadAt(mask / 2, d, n - 1, k);
    } else if k > 0 {
      SpreadAt(mask / 2, d[1..], n - 1, k - 1);
    }
  }

  /** The last byte of a group that is one byte short is the one behind it. */
  lemma LastIsBehind(s: seq<Byte>, x: Byte)
    requires OneShort(s)
    ensures Front(s + [x]) && Ones(s[0], 8) == |s|
    ensures var g := FrontBytes(s + [x]); |g| == 8 && g[Place(s[0], |s| - 1, 8)] == x
  {
    var d := (s + [x])[1..];
    assert d == (s + [x])[1..Extent(s + [x])];
    SpreadAt(s[0], d, 8, |s| - 1);
  }

  /** For every stream: exactly the whole ones are unpacked to their bytes, exactly those that
      lack something else than the last byte of a masked group are refused, and exactly those
      that lack that byte depend on what is behind them in memory. */
  lemma UnpackedWhen(s: seq<Byte>)
    ensures Parse(s).rest == [] <==> forall x :: Unpacked(s, x) == Some(Parse(s).bytes)
    ensures Parse(s).rest != [] && !OneShort(Parse(s).rest) <==> forall x :: Unpacked(s, x).None?
    ensures OneShort(Parse(s).rest) <==> exists x, y :: Unpacked(s, x) != Unpacked(s, y)
  {
    hide FrontBytes, Extent, Ones, Place;
    var t := Parse(s);
    assert Unpacked(s, 7) == Unpacked(s, 7);
    if OneShort(t.rest) {
      LastIsBehind(t.rest, 7);
      LastIsBehind(t.rest, 9);
      var u, v := FrontBytes(t.rest + [7]), FrontBytes(t.rest + [9]);
      assert u != v && (t.bytes + u)[|t.bytes|..] == u && (t.bytes + v)[|t.bytes|..] == v;
      assert Unpacked(s, 7) != Unpacked(s, 9);
      assert |t.bytes + u| > |t.bytes|;
    }
  }

  /** A packed stream that lost k bytes of its last segment. It is refused unless it lost the last
      byte of a masked group; then it is taken, with the byte behind it for the lost one. */
  lemma CutWire(ss: seq<Segment>, x: Segment, k: nat, behind: Byte)
    requires AllFit(ss) && Fits(x) && 0 < k < |Wire(x)|
    ensures var u := Unpacked(WireAll(ss) + Wire(x)[..|Wire(x)| - k], behind);
            && (u.Some? <==> x.Sparse? && k == 1)
            && (u == Some(BytesAll(ss) + Bytes(x)) <==> x.Sparse? && k == 1 && behind == Wire(x)[|Wire(x)| - 1])
  {
    hide WireAll, BytesAll, FrontBytes, Ones, Place;
    var w := Wire(x);
    var rest := w[..|w| - k];
    WireFront(x);
    assert !Front(rest);
    ParseWire(ss, rest);
    assert BytesAll(ss) + [] == BytesAll(ss);
    if OneShort(rest) {
      var last := w[|w| - 1];
      assert rest + [last] == w;
      LastIsBehind(rest, behind);
      LastIsBehind(rest, last);
      var g := FrontBytes(rest + [behind]);
      var all := BytesAll(ss) + g;
      assert all[|BytesAll(ss)|..] == g && (BytesAll(ss) + Bytes(x))[|BytesAll(ss)|..] == Bytes(x);
    }
  }

  /** A stream that is cut short and taken: a mask with one bit and nothing behind it. Each byte
      that may be there in memory gives other data. */
  lemma ShortStream(x: Byte)
    ensures Parse([1]) == Parsed([], [1]) && OneShort([1])
    ensures Unpacked([1], x) == Some([x, 0, 0, 0, 0, 0, 0, 0])
  {
    Zeros(7);
    assert Ones(1, 8) == 1 + Ones(0, 7);
    var s := [1] + [x];
    assert s[1..Extent(s)] == [x];
    assert Spread(1, [x], 8) == [x] + Spread(0, [x][1..], 7);
    assert FrontBytes(s) == Spread(1, [x], 8) == [x] + seq(7, _ => 0);
    assert [] + FrontBytes(s) == FrontBytes(s) == [x, 0, 0, 0, 0, 0, 0, 0];
  }

  lemma {:induction false} Zeros(n: nat)
    ensures Ones(0, n) == 0 && Spread(0, [], n) == seq(n, _ => 0)
  {
    if n > 0 { Zeros(n - 1); }
  }

  // What the segments hold.

  /** The length of the run that is open before group i. */
  function OpenRun(mem: seq<Byte>, sz: nat, i: nat): (k: nat)
    requires sz <= |mem| && i <= Groups(sz)
    ensures k <= i && k < 256
  {
    if i == 0 then 0
    else
      var k := OpenRun(mem, sz, i - 1);
      if Keeps(Group(mem, sz, i - 1), k) && k < 255 then k + 1 else 0
  }

  /** The last group is short, and it is the 256th of a run. */
  predicate Overreads(mem: seq<Byte>, sz: nat)
    requires sz <= |mem|
  {
    sz % 8 != 0 && var last := sz / 8;
    OpenRun(mem, sz, last) == 255 && Keeps(Group(mem, sz, last), 255)
  }

  /** What arrives at the other side. */
  function Delivered(mem: seq<Byte>, sz: nat): (d: seq<Byte>)
    requires 8 * Groups(sz) <= |mem|
    ensures |d| == 8 * Groups(sz)
  {
    if Overreads(mem, sz) then mem[..8 * Groups(sz)] else Padded(mem, sz)
  }

  lemma {:induction false} BytesConcat(a: seq<Segment>, b: seq<Segment>)
    ensures BytesAll(a + b) == BytesAll(a) + BytesAll(b)
    decreases |a|
  {
    if a == [] {
      assert a + b == b;
    } else {
      assert (a + b)[1..] == a[1..] + b;
      BytesConcat(a[1..], b);
    }
  }

  lemma DeliveredIs(mem: seq<Byte>, sz: nat, from: nat, to: nat)
    requires 8 * Groups(sz) <= |mem| && from <= to <= 8 * Groups(sz) && (to <= sz || !Overreads(mem, sz))
    ensures Padded(mem, sz)[from..to] == Delivered(mem, sz)[from..to]
  {
    if Overreads(mem, sz) { assert Padded(mem, sz)[from..to] == mem[from..to]; }
  }

  lemma Join(d: seq<Byte>, a: nat, b: nat)
    requires a <= b <= |d|
    ensures d[a..b] + d[b..] == d[a..]
  {
  }

  lemma RunBytes(mem: seq<Byte>, sz: nat, i: nat, k: nat)
    requires 8 * Groups(sz) <= |mem| && i <= Groups(sz) && k == OpenRun(mem, sz, i)
    ensures BytesAll(Run(mem, sz, i, k)) == Delivered(mem, sz)[8 * (i - k)..8 * i]
  {
    hide Delivered, Keeps;
    if k > 0 {
      assert 8 * i <= sz || !Overreads(mem, sz);
      DeliveredIs(mem, sz, 8 * (i - k), 8 * i);
      var run := Run(mem, sz, i, k);
      assert run[1..] == [];
    }
  }

  lemma FullRunBytes(mem: seq<Byte>, sz: nat, i: nat)
    requires 8 * Groups(sz) <= |mem| && i < Groups(sz) && 255 == OpenRun(mem, sz, i) && Keeps(Group(mem, sz, i), 255)
    ensures mem[8 * (i - 255)..8 * i + 8] == Delivered(mem, sz)[8 * (i - 255)..8 * i + 8]
  {
    hide Keeps, OpenRun;
    if 8 * i + 8 > sz { assert i == sz / 8 && sz % 8 != 0; }
  }

  /** The 256th group of a run is not written as a segment of its own. */
  lemma NotTheLast(mem: seq<Byte>, sz: nat, i: nat, k: nat)
    requires 8 * Groups(sz) <= |mem| && i < Groups(sz) && k == OpenRun(mem, sz, i) && !Keeps(Group(mem, sz, i), k)
    ensures 8 * i + 8 <= sz || !Overreads(mem, sz)
  {
    hide Keeps, OpenRun;
    if 8 * i + 8 > sz { assert i == sz / 8 && sz % 8 != 0; }
  }

  lemma BytesUnfold(mem: seq<Byte>, sz: nat, i: nat, k: nat)
    requires 8 * Groups(sz) <= |mem| && k <= i < Groups(sz) && k < 256
    ensures var g, rest := Group(mem, sz, i), BytesAll(Segments(mem, sz, i + 1, 0));
            BytesAll(Segments(mem, sz, i, k)) ==
              if !Keeps(g, k) then BytesAll(Run(mem, sz, i, k)) + (g + rest)
              else if k == 255 then mem[8 * (i - 255)..8 * i + 8] + rest
              else BytesAll(Segments(mem, sz, i + 1, k + 1))
  {
    hide Dense, Keeps, Group, Run;
    var g, rest := Group(mem, sz, i), Segments(mem, sz, i + 1, 0);
    if !Keeps(g, k) { BytesConcat(Run(mem, sz, i, k), [Sparse(g)] + rest); }
  }

  /** The segments for the groups from i on hold what is delivered from there. */
  lemma {:induction false} SegmentBytes(mem: seq<Byte>, sz: nat, i: nat, k: nat)
    requires 8 * Groups(sz) <= |mem| && i <= Groups(sz) && k == OpenRun(mem, sz, i)
    ensures BytesAll(Segments(mem, sz, i, k)) == Delivered(mem, sz)[8 * (i - k)..]
    decreases Groups(sz) - i
  {
    hide Dense, Keeps, Delivered, Segments, BytesAll, Run, Padded;
    var d := Delivered(mem, sz);
    RunBytes(mem, sz, i, k);
    if i == Groups(sz) {
      SegmentsEnd(mem, sz, i, k);
    } else {
      BytesUnfold(mem, sz, i, k);
      var g := Group(mem, sz, i);
      if Keeps(g, k) && k == 255 {
        FullRunBytes(mem, sz, i);
        SegmentBytes(mem, sz, i + 1, 0);
        Join(d, 8 * (i - 255), 8 * i + 8);
      } else if Keeps(g, k) {
        SegmentBytes(mem, sz, i + 1, k + 1);
      } else {
        NotTheLast(mem, sz, i, k);
        DeliveredIs(mem, sz, 8 * i, 8 * i + 8);
        SegmentBytes(mem, sz, i + 1, 0);
        Join(d, 8 * i, 8 * i + 8);
        Join(d, 8 * (i - k), 8 * i);
      }
    }
  }

  lemma SegmentsEnd(mem: seq<Byte>, sz: nat, i: nat, k: nat)
    requires 8 * Groups(sz) <= |mem| && k <= i == Groups(sz) && k < 256
    ensures Segments(mem, sz, i, k) == Run(mem, sz, i, k)
  {
  }

  /** The bytes that are unpacked from what was packed, for every source and every memory
      after it. They are the source filled up with zeros if and only if the packing does not
      read non-zero bytes after the source, which happens when a short last group is the 256th
      of a run. */
  lemma RoundTrip(mem: seq<Byte>, sz: nat)
    requires 8 * Groups(sz) <= |mem|
    ensures Parse(Packed(mem, sz)) == Parsed(Delivered(mem, sz), [])
    ensures Delivered(mem, sz) == Padded(mem, sz) <==>
              !Overreads(mem, sz) || forall j :: sz <= j < 8 * Groups(sz) ==> mem[j] == 0
    ensures sz % 8 == 0 ==> Delivered(mem, sz) == mem[..sz]
  {
    hide Parse, Segments, Overreads;
    UnpackWire(Segments(mem, sz, 0, 0));
    SegmentBytes(mem, sz, 0, 0);
    PaddedIsMemory(mem, sz);
  }

  /** A run of groups without zeros stays open. */
  lemma {:induction false} DenseRun(mem: seq<Byte>, sz: nat, i: nat)
    requires sz <= |mem| && 8 * i <= sz && i < 256 && forall j :: 0 <= j < 8 * i ==> mem[j] != 0
    ensures OpenRun(mem, sz, i) == i
  {
    if i > 0 {
      DenseRun(mem, sz, i - 1);
      var g := Group(mem, sz, i - 1);
      assert g == mem[8 * (i - 1)..8 * i];
      AllDense(g);
    }
  }

  lemma {:induction false} AllDense(g: seq<Byte>)
    requires forall j :: 0 <= j < |g| ==> g[j] != 0
    ensures |Dense(g)| == |g|
    decreases |g|
  {
    if g != [] { AllDense(g[1..]); }
  }

  /** A source that does not come back: 2046 bytes without a zero, and a byte behind them that is
      not zero either. The short last group is the 256th of the run. */
  lemma OverreadSource() returns (mem: seq<Byte>)
    ensures |mem| == 2048 && OpenRun(mem, 2046, 255) == 255 && Overreads(mem, 2046)
    ensures Delivered(mem, 2046) != Padded(mem, 2046)
  {
    mem := seq(2048, _ => 1);
    DenseRun(mem, 2046, 255);
    var g := Group(mem, 2046, 255);
    assert g == [1, 1, 1, 1, 1, 1] + [0, 0];
    SixDense();
    assert Delivered(mem, 2046)[2046] == 1 && Padded(mem, 2046)[2046] == 0;
  }

  lemma SixDense()
    ensures |Dense([1, 1, 1, 1, 1, 1] + [0, 0])| == 6
  {
    DenseAppend([1, 1, 1, 1, 1, 1], [0, 0]);
    AllDense([1, 1, 1, 1, 1, 1]);
    DenseBound([0, 0], 0);
  }

  lemma {:induction false} DenseAppend(a: seq<Byte>, b: seq<Byte>)
    ensures Dense(a + b) == Dense(a) + Dense(b)
    decreases |a|
  {
    if a == [] {
      assert a + b == b;
    } else {
      assert (a + b)[1..] == a[1..] + b;
      DenseAppend(a[1..], b);
    }
  }

  lemma PaddedIsMemory(mem: seq<Byte>, sz: nat)
    requires 8 * Groups(sz) <= |mem|
    ensures Padded(mem, sz) == mem[..8 * Groups(sz)] <==> forall j :: sz <= j < 8 * Groups(sz) ==> mem[j] == 0
    ensures sz % 8 == 0 ==> Padded(mem, sz) == mem[..sz]
  {
    var p, m := Padded(mem, sz), mem[..8 * Groups(sz)];
    if p == m {
      forall j | sz <= j < 8 * Groups(sz) ensures mem[j] == 0 { assert m[j] == p[j]; }
    }
  }

  // Which form a group gets.

  function CountZeros(g: seq<Byte>): nat {
    if g == [] then 0 else (if g[0] == 0 then 1 else 0) + CountZeros(g[1..])
  }

  lemma {:induction false} DenseIs(g: seq<Byte>)
    ensures |Dense(g)| == |g| - CountZeros(g)
  {
    if g != [] { DenseIs(g[1..]); }
  }

  /** A group is part of a raw run if and only if it has no zero, or at most two and the group before
      it is part of a run that is not full. */
  lemma RawExactly(mem: seq<Byte>, sz: nat, i: nat)
    requires sz <= |mem| && i < Groups(sz)
    ensures var zeros, open := CountZeros(Group(mem, sz, i)), OpenRun(mem, sz, i);
            Keeps(Group(mem, sz, i), open) <==> zeros == 0 || (zeros <= 2 && open > 0)
    ensures i > 0 ==>
              var open := OpenRun(mem, sz, i - 1);
              OpenRun(mem, sz, i) > 0 <==> Keeps(Group(mem, sz, i - 1), open) && open < 255
  {
    hide Dense, CountZeros;
    DenseIs(Group(mem, sz, i));
  }

  /** Two groups with many zeros: each gets its mask and its other bytes. */
  lemma PackTwo(a: seq<Byte>, b: seq<Byte>)
    requires |a| == |b| == 8 && |Dense(a)| < 6 && |Dense(b)| < 6
    ensures Mask(a) < 255 && Mask(b) < 255
    ensures Packed(a + b, 16) == ([Mask(a)] + Dense(a)) + ([Mask(b)] + Dense(b))
  {
    hide Dense, Mask;
    var mem := a + b;
    MaskBelow(a);
    MaskBelow(b);
    assert Padded(mem, 16) == mem;
    assert Group(mem, 16, 0) == a && Group(mem, 16, 1) == b;
    TwoGroups(mem, a, b);
    WireSingle(Sparse(a));
    WireSingle(Sparse(b));
    WireConcat([Sparse(a)], [Sparse(b)]);
  }

  /** The first example of the documentation. */
  lemma PackedExample()
    ensures var mem: seq<Byte> := [8, 0, 0, 0, 3, 0, 2, 0] + [0x19, 0, 0, 0, 0xaa, 1, 0, 0];
            Packed(mem, 16) == [0x51, 8, 3, 2, 0x31, 0x19, 0xaa, 1]
  {
    hide Dense, Mask, Packed;
    ExampleGroups();
    PackTwo([8, 0, 0, 0, 3, 0, 2, 0], [0x19, 0, 0, 0, 0xaa, 1, 0, 0]);
  }

  lemma TwoGroups(mem: seq<Byte>, a: seq<Byte>, b: seq<Byte>)
    requires |mem| == 16 && Group(mem, 16, 0) == a && Group(mem, 16, 1) == b && |Dense(a)| < 6 && |Dense(b)| < 6
    ensures Segments(mem, 16, 0, 0) == [Sparse(a)] + [Sparse(b)]
  {
    hide Dense, Group;
    assert Segments(mem, 16, 2, 0) == [];
    assert Segments(mem, 16, 1, 0) == [] + ([Sparse(b)] + []);
    assert Segments(mem, 16, 0, 0) == [] + ([Sparse(a)] + ([] + ([Sparse(b)] + [])));
  }

  lemma ExampleGroups()
    ensures Dense([8, 0, 0, 0, 3, 0, 2, 0]) == [8, 3, 2] && Mask([8, 0, 0, 0, 3, 0, 2, 0]) == 0x51
    ensures Dense([0x19, 0, 0, 0, 0xaa, 1, 0, 0]) == [0x19, 0xaa, 1] && Mask([0x19, 0, 0, 0, 0xaa, 1, 0, 0]) == 0x31
  {
    ByBytes(8, 0, 0, 0, 3, 0, 2, 0);
    ByBytes(0x19, 0, 0, 0, 0xaa, 1, 0, 0);
  }

  function NonZero(x: Byte): seq<Byte> {
    if x != 0 then [x] else []
  }

  lemma ByFour(a: Byte, b: Byte, c: Byte, d: Byte, rest: seq<Byte>)
    ensures Dense([a, b, c, d] + rest) == NonZero(a) + (NonZero(b) + (NonZero(c) + (NonZero(d) + Dense(rest))))
    ensures Mask([a, b, c, d] + rest) ==
              |NonZero(a)| + 2 * |NonZero(b)| + 4 * |NonZero(c)| + 8 * |NonZero(d)| + 16 * Mask(rest)
  {
    hide Dense, Mask, NonZero;
    var s3 := [d] + rest;
    var s2 := [c] + s3;
    var s1 := [b] + s2;
    Unfold(d, rest);
    Unfold(c, s3);
    Unfold(b, s2);
    Unfold(a, s1);
    assert [a, b, c, d] + rest == [a] + s1;
  }

  lemma ByBytes(a: Byte, b: Byte, c: Byte, d: Byte, e: Byte, f: Byte, g: Byte, h: Byte)
    ensures Dense([a, b, c, d, e, f, g, h]) ==
              NonZero(a) + (NonZero(b) + (NonZero(c) + (NonZero(d)
                + (NonZero(e) + (NonZero(f) + (NonZero(g) + NonZero(h)))))))
    ensures Mask([a, b, c, d, e, f, g, h]) ==
              |NonZero(a)| + 2 * |NonZero(b)| + 4 * |NonZero(c)| + 8 * |NonZero(d)|
              + 16 * |NonZero(e)| + 32 * |NonZero(f)| + 64 * |NonZero(g)| + 128 * |NonZero(h)|
  {
    hide Dense, Mask, NonZero;
    var high := [e, f, g, h];
    Unfold(0, []);
    ByFour(e, f, g, h, []);
    assert high + [] == high && NonZero(h) + [] == NonZero(h);
    ByFour(a, b, c, d, high);
    assert [a, b, c, d] + high == [a, b, c, d, e, f, g, h];
  }

  lemma Unfold(x: Byte, rest: seq<Byte>)
    ensures Dense([x] + rest) == NonZero(x) + Dense(rest) && Mask([x] + rest) == |NonZero(x)| + 2 * Mask(rest)
    ensures Dense([]) == [] && Mask([]) == 0
  {
    assert ([x] + rest)[1..] == rest;
  }

  // The size bound.

  /** The buffer that the caller provides: two bytes more than the source, and two for every
      2048 bytes of it that are begun. */
  function MaxSize(sz: nat): nat {
    (sz + 2047) / 2048 * 2 + sz + 2
  }

  lemma {:induction false} WireConcat(a: seq<Segment>, b: seq<Segment>)
    requires AllFit(a) && AllFit(b)
    ensures AllFit(a + b) && WireAll(a + b) == WireAll(a) + WireAll(b)
    decreases |a|
  {
    hide Fits, Wire;
    if a == [] {
      assert a + b == b;
    } else {
      assert (a + b)[1..] == a[1..] + b;
      WireConcat(a[1..], b);
    }
  }

  lemma WireSingle(x: Segment)
    requires Fits(x)
    ensures WireAll([x]) == Wire(x)
  {
    assert [x][1..] == [];
  }

  lemma RunSize(mem: seq<Byte>, sz: nat, i: nat, k: nat)
    requires sz <= |mem| && k <= i <= Groups(sz) && k < 256
    ensures |WireAll(Run(mem, sz, i, k))| == if k == 0 then 0 else 2 + 8 * k
  {
    var run := Run(mem, sz, i, k);
    if k > 0 { WireSingle(run[0]); }
  }

  /** The packed bytes for one more group, in terms of what follows. */
  lemma WireUnfold(mem: seq<Byte>, sz: nat, i: nat, k: nat)
    requires 8 * Groups(sz) <= |mem| && k <= i < Groups(sz) && k < 256
    ensures var g, rest := Group(mem, sz, i), WireAll(Segments(mem, sz, i + 1, 0));
            WireAll(Segments(mem, sz, i, k)) ==
              if !Keeps(g, k) then WireAll(Run(mem, sz, i, k)) + (Wire(Sparse(g)) + rest)
              else if k == 255 then Wire(Raw(mem[8 * (i - 255)..8 * i + 8])) + rest
              else WireAll(Segments(mem, sz, i + 1, k + 1))
  {
    hide Dense, Wire;
    var g, rest := Group(mem, sz, i), Segments(mem, sz, i + 1, 0);
    if !Keeps(g, k) {
      WireSingle(Sparse(g));
      WireConcat([Sparse(g)], rest);
      WireConcat(Run(mem, sz, i, k), [Sparse(g)] + rest);
    } else if k == 255 {
      var full := Raw(mem[8 * (i - 255)..8 * i + 8]);
      WireSingle(full);
      WireConcat([full], rest);
    }
  }

  lemma SizeUnfold(mem: seq<Byte>, sz: nat, i: nat, k: nat)
    requires 8 * Groups(sz) <= |mem| && k <= i < Groups(sz) && k < 256
    ensures var g := Group(mem, sz, i);
            |WireAll(Segments(mem, sz, i, k))| ==
              if !Keeps(g, k) then
                (if k == 0 then 0 else 2 + 8 * k) + 1 + |Dense(g)| + |WireAll(Segments(mem, sz, i + 1, 0))|
              else if k == 255 then 2050 + |WireAll(Segments(mem, sz, i + 1, 0))|
              else |WireAll(Segments(mem, sz, i + 1, k + 1))|
  {
    hide Dense, Mask, Segments, WireAll, Run;
    WireUnfold(mem, sz, i, k);
    RunSize(mem, sz, i, k);
  }

  lemma {:induction false} DenseBound(g: seq<Byte>, n: nat)
    requires n <= |g| && forall j :: n <= j < |g| ==> g[j] == 0
    ensures |Dense(g)| <= n
    decreases |g|
  {
    if g != [] { DenseBound(g[1..], if n == 0 then 0 else n - 1); }
  }

  lemma ShortGroup(mem: seq<Byte>, sz: nat, i: nat)
    requires sz <= |mem| && i < Groups(sz)
    ensures 8 * i + 8 > sz ==> |Dense(Group(mem, sz, i))| <= sz - 8 * i
  {
    if 8 * i + 8 > sz { DenseBound(Group(mem, sz, i), sz - 8 * i); }
  }

  /** With f full runs and an open run of k groups behind it, the rest of the packing stays
      within the bound: a segment that ends a run is short enough to pay for its two bytes. */
  lemma {:induction false} SizeBound(mem: seq<Byte>, sz: nat, i: nat, k: nat, f: nat)
    requires 8 * Groups(sz) <= |mem| && k <= i <= Groups(sz) && k < 256
    requires i < Groups(sz) || 8 * i == sz
    requires 256 * f + k <= i
    ensures 8 * (i - k) + 2 * f + |WireAll(Segments(mem, sz, i, k))| <= MaxSize(sz)
    decreases Groups(sz) - i
  {
    hide Dense, Segments, WireAll, Group;
    if i == Groups(sz) {
      LastSize(mem, sz, i, k);
      assert 2048 * f <= sz;
    } else {
      SizeUnfold(mem, sz, i, k);
      ShortGroup(mem, sz, i);
      var g := Group(mem, sz, i);
      var open := Keeps(g, k) && k < 255;
      assert 2048 * f <= sz;
      if 8 * i + 8 <= sz {
        SizeBound(mem, sz, i + 1, if open then k + 1 else 0, if Keeps(g, k) && k == 255 then f + 1 else f);
      } else {
        LastSize(mem, sz, i + 1, if open then k + 1 else 0);
      }
    }
  }

  lemma LastSize(mem: seq<Byte>, sz: nat, i: nat, k: nat)
    requires 8 * Groups(sz) <= |mem| && k <= i == Groups(sz) && k < 256
    ensures |WireAll(Segments(mem, sz, i, k))| == if k == 0 then 0 else 2 + 8 * k
  {
    RunSize(mem, sz, i, k);
  }

  /** The packed bytes always fit into the buffer that the caller provides. */
  lemma PackedFits(mem: seq<Byte>, sz: nat)
    requires 8 * Groups(sz) <= |mem|
    ensures |Packed(mem, sz)| <= MaxSize(sz)
  {
    hide Segments, WireAll;
    SizeBound(mem, sz, 0, 0, 0);
  }
}
