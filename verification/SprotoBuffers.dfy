/** The packing and unpacking loops of lib/sproto/sproto.c on byte buffers. */
module SprotoBuffers {
  import opened Wrappers
  import opened LittleEndian
  import opened SprotoPack

  lemma {:induction false} MaskSnoc(a: seq<Byte>, x: Byte)
    ensures Mask(a + [x]) == Mask(a) + if x != 0 then Pow2(|a|) else 0
    decreases |a|
  {
    if a == [] {
      assert a + [x] == [x];
    } else {
      assert (a + [x])[1..] == a[1..] + [x];
      MaskSnoc(a[1..], x);
    }
  }

  lemma {:induction false} DenseSnoc(a: seq<Byte>, x: Byte)
    ensures Dense(a + [x]) == Dense(a) + if x != 0 then [x] else []
    decreases |a|
  {
    if a == [] {
      assert a + [x] == [x];
    } else {
      assert (a + [x])[1..] == a[1..] + [x];
      DenseSnoc(a[1..], x);
    }
  }

  lemma NothingDense()
    ensures Mask([]) == 0 && Dense([]) == []
  {
  }

  /** The non-zero bytes d of a group are behind `at`, as far as there is room for them. */
  ghost predicate Put(buf: seq<Byte>, at: nat, b: int, sz: int, room: int, d: seq<Byte>) {
    && at < b && sz <= |buf| - b
    && if |d| < room then b == at + 1 + |d| && sz == room - 1 - |d| && buf[at + 1..b] == d else sz <= 0
  }

  lemma PutMore(buf: seq<Byte>, at: nat, b: int, sz: int, room: int, d: seq<Byte>, x: Byte)
    requires Put(buf, at, b, sz, room, d) && room <= |buf| - at
    ensures sz > 0 ==> b < |buf| && Put(buf[b := x], at, b + 1, sz - 1, room, d + [x])
    ensures sz <= 0 ==> Put(buf, at, b, sz, room, d + [x])
  {
    if sz > 0 {
      var now := buf[b := x];
      assert now[at + 1..b] == buf[at + 1..b];
      assert now[at + 1..b + 1] == now[at + 1..b] + [x];
    }
  }

  /** The header in front of the bytes makes the wire form. */
  lemma PutDone(buf: seq<Byte>, at: nat, b: int, sz: int, room: int, g: seq<Byte>)
    requires Put(buf, at, b, sz, room, Dense(g)) && Fits(Sparse(g)) && 1 + |Dense(g)| <= room && room <= |buf| - at
    ensures Mask(g) < 256 && buf[at := Mask(g)][at..at + 1 + |Dense(g)|] == Wire(Sparse(g))
  {
    hide Mask, Dense;
    MaskBelow(g);
    var now := buf[at := Mask(g)];
    assert now[at + 1..b] == buf[at + 1..b];
    assert now[at..b] == [now[at]] + now[at + 1..b];
  }

  /** pack_seg: the size of the group at `off` when n groups of a run are open. A group that
      gets a segment of its own is written if it fits into `room`; in any case nothing before
      `at` changes. */
  method PackSeg(src: array<Byte>, off: nat, buffer: array<Byte>, at: nat, room: int, n: nat) returns (r: int)
    requires off + 8 <= src.Length && src != buffer && room <= buffer.Length - at
    modifies buffer
    ensures var g := src[off..off + 8];
            && r == (if Keeps(g, n) then if n > 0 then 8 else 10 else 1 + |Dense(g)|)
            && (!Keeps(g, n) ==> r == |Wire(Sparse(g))| <= if n > 0 then 6 else 8)
            && (!Keeps(g, n) && r <= room ==> buffer[at..at + r] == Wire(Sparse(g)))
    ensures at <= buffer.Length ==> buffer[..at] == old(buffer[..at])
  {
    hide Mask, Dense, Put;
    ghost var g := src[off..off + 8];
    var header, notzero, i := 0, 0, 0;
    var b, sz := at + 1, room - 1;
    NothingDense();
    PutNothing(buffer[..], at, room);
    assert g[..0] == [];
    while i < 8
      invariant 0 <= i <= 8
      invariant header == Mask(g[..i]) && notzero == |Dense(g[..i])|
      invariant Put(buffer[..], at, b, sz, room, Dense(g[..i])) && b > at
      invariant at <= buffer.Length ==> buffer[..at] == old(buffer[..at])
    {
      assert g[..i + 1] == g[..i] + [g[i]];
      MaskSnoc(g[..i], g[i]);
      DenseSnoc(g[..i], g[i]);
      ghost var d, buf := Dense(g[..i]), buffer[..];
      assert d + [] == d;
      if src[off + i] != 0 {
        notzero := notzero + 1;
        header := header + Pow2(i);
        PutMore(buf, at, b, sz, room, d, g[i]);
        if sz > 0 {
          buffer[b] := src[off + i];
          assert buffer[..] == buf[b := g[i]];
          b := b + 1;
          sz := sz - 1;
        }
      }
      i := i + 1;
    }
    assert g[..8] == g;
    if (notzero == 7 || notzero == 6) && n > 0 { notzero := 8; }
    if notzero == 8 {
      return if n > 0 then 8 else 10;
    }
    MaskBelow(g);
    if notzero + 1 <= room { PutDone(buffer[..], at, b, sz, room, g); }
    if room - 1 >= 0 { buffer[at] := header; }
    r := notzero + 1;
  }

  lemma PutNothing(buf: seq<Byte>, at: nat, room: int)
    requires room <= |buf| - at
    ensures Put(buf, at, at + 1, room - 1, room, [])
  {
  }

  /** write_ff: n bytes from `from`, filled up with zeros to whole groups. */
  method WriteFF(src: array<Byte>, from: nat, buffer: array<Byte>, at: nat, n: nat)
    requires src != buffer && 1 <= n <= 2048 && from + n <= src.Length && at + 2 + 8 * Groups(n) <= buffer.Length
    modifies buffer
    ensures buffer[at..at + 2 + 8 * Groups(n)] == Wire(Raw(Padded(src[from..from + n], n)))
    ensures buffer[..at] == old(buffer[..at])
    ensures buffer[at + 2 + 8 * Groups(n)..] == old(buffer[at + 2 + 8 * Groups(n)..])
  {
    hide Wire, Padded;
    RawWire(src[from..from + n], n);
    var aligned := (n + 7) / 8 * 8;
    var bytes: seq<Byte> := [0xff, aligned / 8 - 1] + (src[from..from + n] + seq(aligned - n, _ => 0));
    assert |bytes| == 2 + 8 * Groups(n);
    Store(buffer, at, bytes);
  }

  lemma RawWire(s: seq<Byte>, n: nat)
    requires 1 <= n == |s| <= 2048
    ensures Wire(Raw(Padded(s, n))) == [255, Groups(n) - 1] + (s + seq(8 * Groups(n) - n, _ => 0))
  {
    assert s[..n] == s;
  }

  function Pending(k: nat): nat {
    if k == 0 then 0 else 2 + 8 * k
  }

  /** A short last group, copied and filled up with zeros. */
  method CopyShort(src: array<Byte>, i: nat, srcsz: nat) returns (tmp: array<Byte>)
    requires i < srcsz < i + 8 && srcsz <= src.Length && i % 8 == 0
    ensures fresh(tmp) && tmp.Length == 8 && tmp[..] == Group(src[..], srcsz, i / 8)
  {
    tmp := new Byte[8];
    forall j | 0 <= j < srcsz - i { tmp[j] := src[i + j]; }
    forall j | srcsz - i <= j < 8 { tmp[j] := 0; }
  }

  lemma WholeGroup(mem: seq<Byte>, sz: nat, i: nat)
    requires sz <= |mem| && 8 * i + 8 <= sz
    ensures mem[8 * i..8 * i + 8] == Group(mem, sz, i)
  {
  }

  /** One round of the packing loop up to the call of pack_seg. */
  method PackGroup(src: array<Byte>, srcsz: nat, i: nat, buffer: array<Byte>, at: nat, room: int, n: nat)
    returns (r: int)
    requires i < srcsz <= src.Length && i % 8 == 0 && src != buffer && room <= buffer.Length - at
    modifies buffer
    ensures var g := Group(src[..], srcsz, i / 8);
            && (Keeps(g, n) ==> r == if n > 0 then 8 else 10)
            && (!Keeps(g, n) ==> Fits(Sparse(g)) && r == |Wire(Sparse(g))| <= if n > 0 then 6 else 8)
            && (!Keeps(g, n) && r <= room ==> buffer[at..at + r] == Wire(Sparse(g)))
    ensures at <= buffer.Length ==> buffer[..at] == old(buffer[..at])
  {
    hide Dense, Wire, Group;
    var seg, off := src, i;
    if i + 8 > srcsz {
      seg := CopyShort(src, i, srcsz);
      off := 0;
    } else {
      WholeGroup(src[..], srcsz, i / 8);
    }
    assert seg[off..off + 8] == Group(src[..], srcsz, i / 8);
    r := PackSeg(seg, off, buffer, at, room, n);
  }

  /** The first group of a run is not a short one. */
  lemma FirstIsWhole(mem: seq<Byte>, sz: nat, i: nat)
    requires sz <= |mem| && i < Groups(sz) && Keeps(Group(mem, sz, i), 0)
    ensures 8 * i + 8 <= sz
  {
    hide Group, Dense;
    ShortGroup(mem, sz, i);
  }

  /** What write_ff writes for an open run is the wire form of the run. */
  lemma RunWire(mem: seq<Byte>, sz: nat, i: nat, k: nat, n: nat)
    requires sz <= |mem| && 1 <= k <= i <= Groups(sz) && k < 256
    requires 8 * (i - k) + n == if 8 * i <= sz then 8 * i else sz
    ensures 0 < n && Groups(n) == k && 8 * (i - k) + n <= |mem|
    ensures WireAll(Run(mem, sz, i, k)) == Wire(Raw(Padded(mem[8 * (i - k)..8 * (i - k) + n], n)))
    ensures |WireAll(Run(mem, sz, i, k))| == Pending(k)
  {
    var from := 8 * (i - k);
    assert 8 * Groups(n) == 8 * i - from;
    assert Padded(mem, sz)[from..8 * i] == Padded(mem[from..from + n], n);
    WireSingle(Run(mem, sz, i, k)[0]);
  }

  lemma NoRunWire(mem: seq<Byte>, sz: nat, i: nat)
    requires sz <= |mem| && i <= Groups(sz)
    ensures WireAll(Run(mem, sz, i, 0)) == []
  {
  }

  lemma FullRunWire(mem: seq<Byte>, i: nat)
    requires 255 <= i && 8 * i + 8 <= |mem|
    ensures var raw := mem[8 * (i - 255)..8 * i + 8];
            Fits(Raw(raw)) && Padded(raw, 2048) == raw && |Wire(Raw(raw))| == 2050 && Groups(2048) == 256
  {
  }

  lemma Assoc(a: seq<Byte>, b: seq<Byte>, c: seq<Byte>, d: seq<Byte>)
    ensures a + (b + (c + d)) == ((a + b) + c) + d && a + (b + c) == (a + b) + c
  {
  }

  /** Two adjacent parts of the buffer. */
  lemma Adjacent(s: seq<Byte>, a: seq<Byte>, b: seq<Byte>)
    requires |a| + |b| <= |s| && s[..|a|] == a && s[|a|..|a| + |b|] == b
    ensures s[..|a + b|] == a + b
  {
  }

  /** Before group g, with a run of k groups open: `done` is the part of the packed bytes that
      is final, and it is in the buffer if the size so far fits. */
  ghost predicate Progress(mem: seq<Byte>, sz: nat, g: nat, k: nat, done: seq<Byte>, size: nat, buf: seq<Byte>) {
    && 8 * Groups(sz) <= |mem| && k <= g <= Groups(sz) && k < 256
    && Packed(mem, sz) == done + WireAll(Segments(mem, sz, g, k))
    && size == |done| + Pending(k)
    && (size <= |buf| ==> buf[..|done|] == done)
  }

  lemma SizeSoFar(mem: seq<Byte>, sz: nat, g: nat, k: nat, done: seq<Byte>, size: nat, buf: seq<Byte>)
    requires Progress(mem, sz, g, k, done, size, buf)
    ensures size == |done| + Pending(k)
  {
  }

  lemma StayOpen(mem: seq<Byte>, sz: nat, g: nat, k: nat, done: seq<Byte>, size: nat, buf: seq<Byte>, buf': seq<Byte>,
                 n: nat)
    requires Progress(mem, sz, g, k, done, size, buf) && g < Groups(sz) && k < 255 && Keeps(Group(mem, sz, g), k)
    requires n == (if k > 0 then 8 else 10) && |buf'| == |buf| && (size <= |buf| ==> buf'[..size] == buf[..size])
    ensures size == |done| + Pending(k) && Progress(mem, sz, g + 1, k + 1, done, size + n, buf')
  {
    hide Segments, WireAll, Keeps, Dense, Group, Packed;
    WireUnfold(mem, sz, g, k);
    if size <= |buf| { assert buf'[..|done|] == buf'[..size][..|done|]; }
  }

  lemma CloseFull(mem: seq<Byte>, sz: nat, g: nat, done: seq<Byte>, size: nat, buf: seq<Byte>, buf': seq<Byte>,
                  wire: seq<Byte>)
    requires Progress(mem, sz, g, 255, done, size, buf) && g < Groups(sz) && Keeps(Group(mem, sz, g), 255)
    requires wire == Wire(Raw(mem[8 * (g - 255)..8 * g + 8])) && |buf'| == |buf|
    requires size + 8 <= |buf| ==> buf'[..|done|] == buf[..|done|] && buf'[|done|..size + 8] == wire
    ensures Progress(mem, sz, g + 1, 0, done + wire, size + 8, buf')
  {
    hide Segments, WireAll, Keeps, Dense, Group, Packed;
    WireUnfold(mem, sz, g, 255);
    FullRunWire(mem, g);
    Assoc(done, wire, WireAll(Segments(mem, sz, g + 1, 0)), []);
    if size + 8 <= |buf| { Adjacent(buf', done, wire); }
  }

  lemma CloseSparse(mem: seq<Byte>, sz: nat, g: nat, k: nat, done: seq<Byte>, size: nat,
                    buf: seq<Byte>, buf': seq<Byte>, run: seq<Byte>, wire: seq<Byte>)
    requires Progress(mem, sz, g, k, done, size, buf) && g < Groups(sz) && !Keeps(Group(mem, sz, g), k)
    requires run == WireAll(Run(mem, sz, g, k)) && |run| == Pending(k) && wire == Wire(Sparse(Group(mem, sz, g)))
    requires |buf'| == |buf|
    requires size + |wire| <= |buf| ==>
               buf'[..|done|] == buf[..|done|] && buf'[|done|..size] == run && buf'[size..size + |wire|] == wire
    ensures Progress(mem, sz, g + 1, 0, (done + run) + wire, size + |wire|, buf')
  {
    hide Segments, WireAll, Keeps, Dense, Group, Packed, Run, Wire;
    WireUnfold(mem, sz, g, k);
    Assoc(done, run, wire, WireAll(Segments(mem, sz, g + 1, 0)));
    if size + |wire| <= |buf| {
      Adjacent(buf', done, run);
      Adjacent(buf', done + run, wire);
    }
  }

  lemma Finish(mem: seq<Byte>, sz: nat, k: nat, done: seq<Byte>, size: nat, buf: seq<Byte>, buf': seq<Byte>,
               run: seq<Byte>)
    requires Progress(mem, sz, Groups(sz), k, done, size, buf)
    requires run == WireAll(Run(mem, sz, Groups(sz), k)) && |run| == Pending(k) && |buf'| == |buf|
    requires size <= |buf| ==> buf'[..|done|] == buf[..|done|] && buf'[|done|..size] == run
    ensures size == |Packed(mem, sz)| && (size <= |buf| ==> buf'[..size] == Packed(mem, sz))
  {
    hide WireAll, Packed, Run;
    SegmentsEnd(mem, sz, Groups(sz), k);
    if size <= |buf| { Adjacent(buf', done, run); }
  }

  /** A run is written into its place before `at`, after the segment at `at`. */
  lemma Patched(buf: seq<Byte>, mid: seq<Byte>, now: seq<Byte>, d: nat, at: nat, n: nat)
    requires d <= at && at + n <= |buf| == |mid| == |now|
    requires mid[..at] == buf[..at] && now[..d] == mid[..d] && now[at..] == mid[at..]
    ensures now[..d] == buf[..d] && now[at..at + n] == mid[at..at + n]
  {
    assert mid[..d] == mid[..at][..d];
    assert buf[..d] == buf[..at][..d];
    assert now[at..at + n] == now[at..][..n];
    assert mid[at..at + n] == mid[at..][..n];
  }

  /** The segment after an open run, if there is one, has been written: now the run is. */
  method EndRun(src: array<Byte>, srcsz: nat, buffer: array<Byte>, bufsz: int, ffSrc: nat, ffDes: nat, ffN: nat,
                ghost mem: seq<Byte>, ghost g: nat, ghost done: seq<Byte>, ghost size: nat, ghost n: nat,
                ghost buf: seq<Byte>)
    returns (ghost done': seq<Byte>)
    requires src != buffer && src[..] <= mem && srcsz <= src.Length && |buf| == buffer.Length
    requires Progress(mem, srcsz, g, ffN, done, size, buf) && g < Groups(srcsz)
    requires !Keeps(Group(mem, srcsz, g), ffN) && n == |Wire(Sparse(Group(mem, srcsz, g)))|
    requires bufsz == buffer.Length - size - n && (ffN > 0 ==> ffSrc == 8 * (g - ffN) && ffDes == |done|)
    requires bufsz >= 0 ==> buffer[..size] == buf[..size]
    requires bufsz >= 0 ==> buffer[size..size + n] == Wire(Sparse(Group(mem, srcsz, g)))
    modifies buffer
    ensures Progress(mem, srcsz, g + 1, 0, done', size + n, buffer[..])
  {
    hide Segments, WireAll, Wire, Padded, Run, Dense, Group, Packed;
    ghost var mid := buffer[..];
    ghost var run, wire := WireAll(Run(mem, srcsz, g, ffN)), Wire(Sparse(Group(mem, srcsz, g)));
    NoRunWire(mem, srcsz, g);
    if ffN > 0 {
      RunWire(mem, srcsz, g, ffN, 8 * ffN);
      SameSlice(src[..], mem, ffSrc, ffSrc + 8 * ffN);
      if bufsz >= 0 { WriteFF(src, ffSrc, buffer, ffDes, ffN * 8); }
    }
    if bufsz >= 0 { Patched(buf, mid, buffer[..], |done|, size, n); }
    CloseSparse(mem, srcsz, g, ffN, done, size, buf, buffer[..], run, wire);
    done' := (done + run) + wire;
  }

  lemma SameSlice(s: seq<Byte>, mem: seq<Byte>, a: nat, b: nat)
    requires s <= mem && a <= b <= |s|
    ensures s[a..b] == mem[a..b]
  {
  }

  /** What is read of the memory at the source: zeros stand for bytes behind it that are never
      looked at. */
  function Readable(mem: seq<Byte>, sz: nat): (r: seq<Byte>)
    requires sz <= |mem|
    ensures 8 * Groups(sz) <= |r| && mem <= r
    ensures 8 * Groups(sz) <= |mem| ==> r == mem
  {
    if 8 * Groups(sz) <= |mem| then mem else mem + seq(8 * Groups(sz) - |mem|, _ => 0)
  }

  /** The groups depend on the source alone, and so does whether the packer reads behind it. */
  lemma SameGroups(s: seq<Byte>, mem: seq<Byte>, sz: nat)
    requires s <= mem && sz <= |s|
    ensures Padded(s, sz) == Padded(mem, sz)
    ensures forall i: nat :: i < Groups(sz) ==> Group(s, sz, i) == Group(mem, sz, i)
  {
    assert s[..sz] == mem[..sz];
  }

  lemma {:induction false} SameRun(s: seq<Byte>, mem: seq<Byte>, sz: nat, i: nat)
    requires s <= mem && sz <= |s| && i <= Groups(sz)
    ensures OpenRun(s, sz, i) == OpenRun(mem, sz, i)
  {
    hide Keeps;
    SameGroups(s, mem, sz);
    if i > 0 { SameRun(s, mem, sz, i - 1); }
  }

  /** The 256th group of a run is in the source, or else the packer needs the bytes behind it. */
  lemma LastOfFullRun(s: seq<Byte>, mem: seq<Byte>, sz: nat, g: nat)
    requires s <= mem && sz <= |s| && g < Groups(sz) && (Overreads(s, sz) ==> 8 * Groups(sz) <= |s|)
    requires OpenRun(mem, sz, g) == 255 && Keeps(Group(mem, sz, g), 255)
    ensures 8 * g + 8 <= |s|
  {
    hide Keeps, OpenRun, Group;
    SameRun(s, mem, sz, g);
    SameGroups(s, mem, sz);
    if 8 * g + 8 > sz { assert g == sz / 8 && sz % 8 != 0; }
  }

  /** sproto_pack, for every source and every buffer: the size that is needed and, if there is
      room for it, the packed bytes. The header of a run is written when the run ends. There has
      to be memory behind the source only where the packer reads it. */
  method Pack(src: array<Byte>, srcsz: nat, buffer: array<Byte>) returns (size: nat)
    requires srcsz <= src.Length && src != buffer && (Overreads(src[..], srcsz) ==> 8 * Groups(srcsz) <= src.Length)
    modifies buffer
    ensures size == |Packed(Readable(src[..], srcsz), srcsz)|
    ensures size <= buffer.Length ==> buffer[..size] == Packed(Readable(src[..], srcsz), srcsz)
  {
    hide Segments, WireAll, Wire, Keeps, Padded, Run, Dense, Mask, Group, Packed, Progress, Fits, OpenRun, Overreads;
    ghost var whole := src[..];
    ghost var mem := Readable(whole, srcsz);
    SameGroups(whole, mem, srcsz);
    var i, at, bufsz := 0, 0, buffer.Length;
    var ffSrc: nat, ffDes: nat, ffN: nat := 0, 0, 0;
    ghost var g: nat, done: seq<Byte> := 0, [];
    size := 0;
    Begin(mem, srcsz, buffer[..]);
    while i < srcsz
      invariant i == 8 * g && g <= Groups(srcsz) && ffN <= g && ffN < 256 && ffN == OpenRun(mem, srcsz, g)
      invariant src[..] == whole && bufsz == buffer.Length - size && at == size
      invariant ffN > 0 ==> ffSrc == 8 * (g - ffN) && ffSrc + 8 <= srcsz && ffDes == |done|
      invariant Progress(mem, srcsz, g, ffN, done, size, buffer[..])
      decreases srcsz - i
    {
      ghost var buf := buffer[..];
      ghost var group := Group(mem, srcsz, g);
      RunStep(mem, srcsz, g);
      var n := PackGroup(src, srcsz, i, buffer, at, bufsz, ffN);
      bufsz := bufsz - n;
      ghost var mid := buffer[..];
      if n == 10 {
        FirstIsWhole(mem, srcsz, g);
        StayOpen(mem, srcsz, g, ffN, done, size, buf, buffer[..], n);
        assert size == |done|;
        ffSrc, ffDes, ffN := i, at, 1;
      } else if n == 8 && ffN > 0 {
        ffN := ffN + 1;
        if ffN == 256 {
          FullRunWire(mem, g);
          SizeSoFar(mem, srcsz, g, 255, done, size, buf);
          LastOfFullRun(whole, mem, srcsz, g);
          SameSlice(whole, mem, ffSrc, 8 * g + 8);
          ghost var wire := Wire(Raw(mem[8 * (g - 255)..8 * g + 8]));
          if bufsz >= 0 {
            Patched(buf, mid, mid, |done|, at, 0);
            WriteFF(src, ffSrc, buffer, ffDes, 256 * 8);
          }
          CloseFull(mem, srcsz, g, done, size, buf, buffer[..], wire);
          done, ffN := done + wire, 0;
        } else {
          StayOpen(mem, srcsz, g, ffN - 1, done, size, buf, buffer[..], n);
        }
      } else {
        done := EndRun(src, srcsz, buffer, bufsz, ffSrc, ffDes, ffN, mem, g, done, size, n, buf);
        ffN := 0;
      }
      i, at, size, g := i + 8, at + n, size + n, g + 1;
    }
    WriteLast(src, srcsz, buffer, bufsz, ffSrc, ffDes, ffN, mem, done, size);
  }

  lemma RunStep(mem: seq<Byte>, sz: nat, i: nat)
    requires sz <= |mem| && i < Groups(sz)
    ensures var k := OpenRun(mem, sz, i);
            OpenRun(mem, sz, i + 1) == if Keeps(Group(mem, sz, i), k) && k < 255 then k + 1 else 0
  {
    hide Keeps, Group;
  }

  /** The end of sproto_pack: a run may still be open. */
  method WriteLast(src: array<Byte>, srcsz: nat, buffer: array<Byte>, bufsz: int, ffSrc: nat, ffDes: nat, ffN: nat,
                   ghost mem: seq<Byte>, ghost done: seq<Byte>, ghost size: nat)
    requires srcsz <= src.Length && src != buffer && src[..] <= mem
    requires Progress(mem, srcsz, Groups(srcsz), ffN, done, size, buffer[..]) && bufsz == buffer.Length - size
    requires ffN > 0 ==> ffSrc == 8 * (Groups(srcsz) - ffN) && ffSrc + 8 <= srcsz && ffDes == |done|
    modifies buffer
    ensures size == |Packed(mem, srcsz)|
    ensures size <= buffer.Length ==> buffer[..size] == Packed(mem, srcsz)
  {
    hide Segments, WireAll, Wire, Padded, Run, Packed;
    ghost var buf, g := buffer[..], Groups(srcsz);
    if ffN > 0 {
      RunWire(mem, srcsz, g, ffN, srcsz - ffSrc);
      SameSlice(src[..], mem, ffSrc, srcsz);
    } else {
      NoRunWire(mem, srcsz, g);
    }
    if bufsz >= 0 {
      if ffN == 1 {
        WriteFF(src, ffSrc, buffer, ffDes, 8);
      } else if ffN > 1 {
        WriteFF(src, ffSrc, buffer, ffDes, srcsz - ffSrc);
      }
    }
    Finish(mem, srcsz, ffN, done, size, buf, buffer[..], WireAll(Run(mem, srcsz, g, ffN)));
  }

  lemma Begin(mem: seq<Byte>, sz: nat, buf: seq<Byte>)
    requires 8 * Groups(sz) <= |mem|
    ensures Progress(mem, sz, 0, 0, [], 0, buf)
  {
  }

  // Unpacking.

  /** The mask shifted right by i. */
  function Shifted(mask: nat, i: nat): nat {
    if i == 0 then mask else Shifted(mask, i - 1) / 2
  }

  /** What may be seen of memory: the stream and one byte behind it, or a zero where there is
      none, which is never looked at. */
  ghost function Seen(mem: seq<Byte>, end: nat): (r: seq<Byte>)
    requires end <= |mem|
    ensures |r| == end + 1 && r[..end] == mem[..end] && (end < |mem| ==> r == mem[..end + 1])
  {
    mem[..end] + [if end < |mem| then mem[end] else 0]
  }

  /** After i bits of the mask, of which m is left: out was unpacked, q is the position in the
      stream, and the rest of the group is like that of the whole one. */
  ghost predicate Spreading(mem: seq<Byte>, p: nat, q: nat, end: nat, mask: nat, m: nat, i: nat, out: seq<Byte>) {
    && |mem| == end + 1 && |out| == i <= 8 && p <= q <= end + 1 && p <= end
    && var to := p + Ones(mask, 8);
    && to - q == Ones(m, 8 - i)
    && (to <= end + 1 ==> Spread(mask, mem[p..to], 8) == out + Spread(m, mem[q..to], 8 - i))
    && (to > end && q <= end ==> Place(mask, end - p, 8) == i + Place(m, end - q, 8 - i))
  }

  lemma SpreadingStart(mem: seq<Byte>, p: nat, end: nat, mask: nat)
    requires |mem| == end + 1 && p <= end
    ensures Spreading(mem, p, p, end, mask, mask, 0, [])
  {
    var to := p + Ones(mask, 8);
    if to <= end + 1 { assert [] + Spread(mask, mem[p..to], 8) == Spread(mask, mem[p..to], 8); }
  }

  lemma SpreadStep(mem: seq<Byte>, q: nat, to: nat, m: nat, n: nat, out: seq<Byte>)
    requires n > 0 && q <= to <= |mem| && to - q == Ones(m, n)
    ensures m % 2 == 1 ==> q < to && to - q - 1 == Ones(m / 2, n - 1)
    ensures m % 2 == 1 ==>
              out + Spread(m, mem[q..to], n) == (out + [mem[q]]) + Spread(m / 2, mem[q + 1..to], n - 1)
    ensures m % 2 == 0 ==> to - q == Ones(m / 2, n - 1)
    ensures m % 2 == 0 ==> out + Spread(m, mem[q..to], n) == (out + [0]) + Spread(m / 2, mem[q..to], n - 1)
  {
    var d := mem[q..to];
    if m % 2 == 1 {
      assert d[1..] == mem[q + 1..to];
      assert out + ([d[0]] + Spread(m / 2, d[1..], n - 1)) == (out + [d[0]]) + Spread(m / 2, d[1..], n - 1);
    } else {
      assert out + ([0] + Spread(m / 2, d, n - 1)) == (out + [0]) + Spread(m / 2, d, n - 1);
    }
  }

  lemma PlaceStep(m: nat, k: nat, n: nat)
    requires k < Ones(m, n)
    ensures n > 0
    ensures m % 2 == 1 && k == 0 ==> Place(m, k, n) == 0
    ensures m % 2 == 1 && k > 0 ==> k - 1 < Ones(m / 2, n - 1)
    ensures m % 2 == 1 && k > 0 ==> Place(m, k, n) == 1 + Place(m / 2, k - 1, n - 1)
    ensures m % 2 == 0 ==> k < Ones(m / 2, n - 1) && Place(m, k, n) == 1 + Place(m / 2, k, n - 1)
  {
  }

  lemma OnesStep(m: nat, n: nat)
    requires n > 0
    ensures Ones(m, n) == m % 2 + Ones(m / 2, n - 1)
  {
  }

  lemma SpreadingStep(mem: seq<Byte>, p: nat, q: nat, end: nat, mask: nat, m: nat, i: nat, out: seq<Byte>)
    requires Spreading(mem, p, q, end, mask, m, i, out) && i < 8
    ensures m % 2 == 1 && q > end ==> p + Ones(mask, 8) > end + 1
    ensures m % 2 == 1 && q == end ==> end - p < Ones(mask, 8) && Place(mask, end - p, 8) == i
    ensures m % 2 == 1 && q <= end ==> Spreading(mem, p, q + 1, end, mask, m / 2, i + 1, out + [mem[q]])
    ensures m % 2 == 0 ==> Spreading(mem, p, q, end, mask, m / 2, i + 1, out + [0])
  {
    hide Ones, Spread, Place;
    var to, n := p + Ones(mask, 8), 8 - i;
    OnesStep(m, n);
    if to <= end + 1 {
      SpreadStep(mem, q, to, m, n, out);
    }
    if to > end && q <= end { PlaceStep(m, end - q, n); }
  }

  lemma SpreadingEnd(mem: seq<Byte>, p: nat, q: nat, end: nat, mask: nat, m: nat, out: seq<Byte>)
    requires Spreading(mem, p, q, end, mask, m, 8, out)
    ensures q == p + Ones(mask, 8) <= end + 1 && Spread(mask, mem[p..q], 8) == out
  {
    NoBits(m);
    hide Ones, Spread, Place;
    assert mem[q..q] == [] && out + [] == out;
  }

  lemma NoBits(m: nat)
    ensures Ones(m, 0) == 0 && Spread(m, [], 0) == []
  {
  }

  /** The bytes out are behind `size`, as far as there is room. */
  ghost predicate Written(buf: seq<Byte>, size: nat, b: nat, left: int, out: seq<Byte>) {
    if size + |out| <= |buf| then left == |buf| - size - |out| && b == size + |out| && buf[size..b] == out
    else left <= 0
  }

  lemma WrittenMore(buf: seq<Byte>, size: nat, b: nat, left: int, out: seq<Byte>, x: Byte)
    requires Written(buf, size, b, left, out)
    ensures left > 0 ==> size <= b < |buf| && b == size + |out| && buf[b := x][..size] == buf[..size]
    ensures left > 0 ==> Written(buf[b := x], size, b + 1, left - 1, out + [x])
    ensures left <= 0 ==> Written(buf, size, b, left, out + [x])
  {
    if left > 0 { assert buf[b := x][size..b + 1] == buf[size..b] + [x]; }
  }

  /** sproto_unpack of one segment with a mask. It fails if two bytes or more are missing; if one
      is missing, the byte behind the stream stands for it. That byte has to be there only if it
      is read, that is, if there is room for it. */
  method UnpackSparse(src: array<Byte>, p: nat, srcsz: nat, mask: Byte, buffer: array<Byte>, size: nat, bufsz: int)
    returns (ok: bool, q: nat, left: int)
    requires p <= srcsz <= src.Length && src != buffer
    requires Written(buffer[..], size, size, bufsz, [])
    requires srcsz - p < Ones(mask, 8) && size + Place(mask, srcsz - p, 8) < buffer.Length ==> srcsz < src.Length
    modifies buffer
    ensures ok <==> p + Ones(mask, 8) <= srcsz + 1
    ensures ok ==> q == p + Ones(mask, 8)
    ensures ok ==>
              Written(buffer[..], size, size + 8, left, Spread(mask, Seen(src[..], srcsz)[p..p + Ones(mask, 8)], 8))
    ensures size <= buffer.Length ==> buffer[..size] == old(buffer[..size])
  {
    hide Ones, Spread, Place, Written, Spreading;
    ghost var mem, out: seq<Byte> := Seen(src[..], srcsz), [];
    var i: nat, b: nat := 0, size;
    q, left := p, bufsz;
    SpreadingStart(mem, p, srcsz, mask);
    while i < 8
      invariant 0 <= i <= 8 && |out| == i && q <= srcsz + 1 && Seen(src[..], srcsz) == mem
      invariant Written(buffer[..], size, b, left, out)
      invariant size <= buffer.Length ==> buffer[..size] == old(buffer[..size])
      invariant Spreading(mem, p, q, srcsz, mask, Shifted(mask, i), i, out)
    {
      ghost var buf := buffer[..];
      SpreadingStep(mem, p, q, srcsz, mask, Shifted(mask, i), i, out);
      if Shifted(mask, i) % 2 == 1 {
        if q > srcsz { return false, q, left; }
        WrittenMore(buf, size, b, left, out, mem[q]);
        if left > 0 {
          PutByte(buffer, b, src[q]);
          left, b := left - 1, b + 1;
        }
        out := out + [mem[q]];
        q := q + 1;
      } else {
        WrittenMore(buf, size, b, left, out, 0);
        if left > 0 {
          PutByte(buffer, b, 0);
          left, b := left - 1, b + 1;
        }
        out := out + [0];
      }
      i := i + 1;
    }
    SpreadingEnd(mem, p, q, srcsz, mask, Shifted(mask, i), out);
    ok := true;
    WrittenAll(buffer[..], size, b, left, out);
  }

  method PutByte(buffer: array<Byte>, b: nat, x: Byte)
    requires b < buffer.Length
    modifies buffer
    ensures buffer[..] == old(buffer[..])[b := x]
  {
    buffer[b] := x;
  }

  lemma WrittenAll(buf: seq<Byte>, size: nat, b: nat, left: int, out: seq<Byte>)
    requires Written(buf, size, b, left, out)
    ensures Written(buf, size, size + |out|, left, out)
  {
  }

  /** Is the byte behind the stream read, with that much room for what is unpacked? */
  predicate ReadsBehind(s: seq<Byte>, room: nat) {
    var t := Parse(s);
    t.rest == [255] || (t.rest != [] && t.rest[0] != 255 && |t.bytes| + Place(t.rest[0], |t.rest| - 1, 8) < room)
  }

  /** What is unpacked, after out. */
  ghost predicate Ahead(s: seq<Byte>, out: seq<Byte>, rest: seq<Byte>) {
    Parse(s) == Parsed(out + Parse(rest).bytes, Parse(rest).rest)
  }

  lemma AheadMore(s: seq<Byte>, out: seq<Byte>, rest: seq<Byte>)
    requires Ahead(s, out, rest)
    ensures Front(rest) ==> Ahead(s, out + FrontBytes(rest), rest[Extent(rest)..])
    ensures !Front(rest) ==> Parse(s) == Parsed(out, rest)
  {
    hide FrontBytes, Extent;
    if Front(rest) {
      var more := Parse(rest[Extent(rest)..]).bytes;
      assert out + (FrontBytes(rest) + more) == (out + FrontBytes(rest)) + more;
    } else {
      assert out + [] == out;
    }
  }

  /** At position p: out was unpacked, and the stream goes on as the rest does, or it lacked one
      byte and was read beyond its end. */
  ghost predicate Unpacking(s: seq<Byte>, mem: seq<Byte>, p: nat, out: seq<Byte>) {
    && |mem| == |s| + 1 && s == mem[..|s|] && p <= |s| + 1
    && if p <= |s| then Ahead(s, out, s[p..])
       else OneShort(Parse(s).rest) && Unpacked(s, mem[|s|]) == Some(out) && |out| == |Parse(s).bytes| + 8
  }

  lemma UnpackingStart(s: seq<Byte>, mem: seq<Byte>)
    requires |mem| == |s| + 1 && s == mem[..|s|]
    ensures Unpacking(s, mem, 0, [])
  {
    assert [] + Parse(s).bytes == Parse(s).bytes && s[0..] == s;
  }

  lemma UnpackingEnd(s: seq<Byte>, mem: seq<Byte>, p: nat, out: seq<Byte>)
    requires Unpacking(s, mem, p, out) && p >= |s|
    ensures p == |s| ==> Parse(s) == Parsed(out, []) && !OneShort([])
    ensures p > |s| ==> Parse(s).rest != [] && OneShort(Parse(s).rest) && |out| == |Parse(s).bytes| + 8
    ensures p > |s| ==> Unpacked(s, mem[|s|]) == Some(out)
  {
    hide Unpacked;
    assert out + [] == out;
    if p == |s| { assert s[p..] == []; }
  }

  /** A raw run comes next. */
  lemma TakeRaw(s: seq<Byte>, mem: seq<Byte>, out: seq<Byte>, p: nat)
    requires p < |s| && s[p] == 255 && Unpacking(s, mem, p, out)
    ensures p + 1 == |s| ==> Parse(s).rest == [255] && !OneShort(Parse(s).rest)
    ensures p + 1 < |s| ==>
              var count: int := s[p + 1];
              var n := 8 * (count + 1);
              if p + 2 + n <= |s| then Unpacking(s, mem, p + 2 + n, out + s[p + 2..p + 2 + n])
              else Parse(s).rest != [] && !OneShort(Parse(s).rest)
  {
    hide Parse, Ahead, Unpacked;
    var rest := s[p..];
    AheadMore(s, out, rest);
    if Front(rest) {
      var e := Extent(rest);
      assert rest[e..] == s[p + e..] && rest[2..e] == s[p + 2..p + e];
    } else if p + 1 == |s| {
      assert rest == [255];
    }
  }

  lemma Slice(s: seq<Byte>, p: nat, end: nat, a: nat, b: nat)
    requires p + a <= p + b <= end <= |s|
    ensures s[p..end][a..b] == s[p + a..p + b]
  {
    var t := s[p..end];
    assert forall k :: a <= k < b ==> t[k] == s[p + k];
    assert t[a..b] == s[p + a..p + b];
  }

  lemma MaskedIs(rest: seq<Byte>, x: Byte)
    requires rest != [] && rest[0] != 255
    ensures var n := Ones(rest[0], 8);
            && Extent(rest) == 1 + n
            && (Front(rest) <==> 1 + n <= |rest|)
            && (OneShort(rest) <==> n == |rest|)
            && (Front(rest) ==> FrontBytes(rest) == Spread(rest[0], rest[1..1 + n], 8))
            && (n == |rest| ==> Front(rest + [x]) && FrontBytes(rest + [x]) == Spread(rest[0], (rest + [x])[1..], 8))
  {
    hide Ones, Spread;
    var n := Ones(rest[0], 8);
    if n == |rest| { assert (rest + [x])[1..1 + n] == (rest + [x])[1..]; }
  }

  lemma WholeMasked(s: seq<Byte>, mem: seq<Byte>, out: seq<Byte>, p: nat, q: nat)
    requires p < |s| && s[p] != 255 && Unpacking(s, mem, p, out) && q == p + 1 + Ones(s[p], 8) <= |s|
    ensures Unpacking(s, mem, q, out + Spread(s[p], mem[p + 1..q], 8))
  {
    hide Parse, Ahead, Ones, Spread, Unpacked, Front, FrontBytes, Extent, OneShort;
    var rest := s[p..];
    AheadMore(s, out, rest);
    MaskedIs(rest, 0);
    Slice(mem, p, |s|, 1, q - p);
    assert rest == mem[p..|s|] && rest[q - p..] == s[q..];
  }

  lemma ShortUnpacked(s: seq<Byte>, out: seq<Byte>, rest: seq<Byte>, x: Byte)
    requires Parse(s) == Parsed(out, rest) && rest != [] && rest[0] != 255 && Ones(rest[0], 8) == |rest|
    ensures OneShort(rest) && Unpacked(s, x) == Some(out + Spread(rest[0], (rest + [x])[1..], 8))
  {
    hide Parse, Ones, Spread, Front, FrontBytes, Extent, OneShort;
    MaskedIs(rest, x);
  }

  lemma ShortMasked(s: seq<Byte>, mem: seq<Byte>, out: seq<Byte>, p: nat, q: nat)
    requires p < |s| && s[p] != 255 && Unpacking(s, mem, p, out) && q == p + 1 + Ones(s[p], 8) > |s|
    ensures Parse(s) == Parsed(out, s[p..])
    ensures q == |s| + 1 ==> Unpacking(s, mem, q, out + Spread(s[p], mem[p + 1..q], 8))
    ensures q > |s| + 1 ==> !OneShort(Parse(s).rest)
  {
    hide Parse, Ahead, Ones, Spread, Front, FrontBytes, Extent, OneShort, Unpacked;
    var rest := s[p..];
    AheadMore(s, out, rest);
    MaskedIs(rest, mem[|s|]);
    if q == |s| + 1 {
      ShortUnpacked(s, out, rest, mem[|s|]);
      assert rest + [mem[|s|]] == mem[p..q];
      Slice(mem, p, q, 1, q - p);
    }
  }

  /** A masked group comes next: it is whole, or lacks one byte, or more. */
  lemma TakeMasked(s: seq<Byte>, mem: seq<Byte>, out: seq<Byte>, p: nat)
    requires p < |s| && s[p] != 255 && Unpacking(s, mem, p, out)
    ensures var t, q := Parse(s), p + 1 + Ones(s[p], 8);
            && |mem| == |s| + 1
            && (q <= |s| + 1 ==> Unpacking(s, mem, q, out + Spread(s[p], mem[p + 1..q], 8)))
            && (q > |s| ==> t == Parsed(out, s[p..]))
            && (q > |s| + 1 ==> !OneShort(t.rest))
  {
    hide Parse, Ones, Spread, OneShort, Ahead, Unpacked;
    var q := p + 1 + Ones(s[p], 8);
    if q <= |s| { WholeMasked(s, mem, out, p, q); } else { ShortMasked(s, mem, out, p, q); }
  }

  /** The bytes of a raw run, if there is room for them. */
  method CopyRun(src: array<Byte>, p: nat, n: nat, buffer: array<Byte>, size: nat, bufsz: int, ghost out: seq<Byte>)
    requires p + n <= src.Length && n > 0 && src != buffer && size == |out| && Written(buffer[..], 0, size, bufsz, out)
    modifies buffer
    ensures Written(buffer[..], 0, size + n, bufsz - n, out + src[p..p + n])
  {
    if bufsz >= n {
      forall j | 0 <= j < n { buffer[size + j] := src[p + j]; }
      assert buffer[..size + n] == out + src[p..p + n];
    }
  }

  lemma WrittenNothing(buf: seq<Byte>, left: int)
    requires left == |buf|
    ensures Written(buf, 0, 0, left, [])
  {
  }

  lemma WrittenBefore(buf: seq<Byte>, size: nat, left: int, out: seq<Byte>)
    requires Written(buf, 0, size, left, out) && size == |out|
    ensures Written(buf, size, size, left, []) && (size <= |buf| ==> buf[..size] == out)
  {
  }

  lemma WrittenDone(buf: seq<Byte>, size: nat, left: int, out: seq<Byte>)
    requires Written(buf, 0, size, left, out) && size == |out|
    ensures size <= |buf| ==> buf[..size] == out
  {
  }

  /** Two parts of the buffer, one after the other. */
  lemma WrittenTwice(buf: seq<Byte>, size: nat, left: int, out: seq<Byte>, g: seq<Byte>)
    requires size == |out| && (size <= |buf| ==> buf[..size] == out) && Written(buf, size, size + |g|, left, g)
    ensures Written(buf, 0, size + |g|, left, out + g)
  {
    if size + |g| <= |buf| { Adjacent(buf, out, g); }
  }

  /** sproto_unpack of one raw run. */
  method UnpackRaw(src: array<Byte>, p: nat, srcsz: nat, buffer: array<Byte>, size: nat, bufsz: int,
                   ghost s: seq<Byte>, ghost mem: seq<Byte>, ghost out: seq<Byte>)
    returns (ok: bool, q: nat, left: int)
    requires 0 < p <= srcsz <= src.Length && p < src.Length && s == src[..srcsz] && s[p - 1] == 255
    requires src != buffer && Unpacking(s, mem, p - 1, out) && Written(buffer[..], 0, size, bufsz, out) && size == |out|
    modifies buffer
    ensures !ok ==> Parse(s).rest != [] && !OneShort(Parse(s).rest)
    ensures ok ==> p < q <= srcsz && Unpacking(s, mem, q, out + s[p + 1..q])
    ensures ok ==> Written(buffer[..], 0, size + (q - p - 1), left, out + s[p + 1..q])
  {
    hide Parse, OneShort, Written, Unpacking;
    TakeRaw(s, mem, out, p - 1);
    var count: int := src[p];
    var n := (count + 1) * 8;
    if srcsz - p < n + 1 { return false, p, bufsz; }
    CopyRun(src, p + 1, n, buffer, size, bufsz, out);
    SameSlice(s, src[..], p + 1, p + 1 + n);
    return true, p + 1 + n, bufsz - n;
  }

  /** sproto_unpack, for every stream and every buffer. A whole stream gives its bytes. One that is
      cut short is refused, unless it lacks just the last byte of a masked group. */
  method Unpack(src: array<Byte>, srcsz: nat, buffer: array<Byte>) returns (size: int)
    requires srcsz <= src.Length && src != buffer
    requires ReadsBehind(src[..srcsz], buffer.Length) ==> srcsz < src.Length
    modifies buffer
    ensures var t := Parse(src[..srcsz]);
            && (size == -1 <==> t.rest != [] && !OneShort(t.rest))
            && (t.rest == [] ==> size == |t.bytes| && (size <= buffer.Length ==> buffer[..size] == t.bytes))
            && (OneShort(t.rest) ==> size == |t.bytes| + 8)
    ensures OneShort(Parse(src[..srcsz]).rest) && size <= buffer.Length ==>
              srcsz < src.Length && Unpacked(src[..srcsz], src[srcsz]) == Some(buffer[..size])
  {
    hide Parse, Ones, Spread, Place, Unpacked, OneShort, Written, Unpacking;
    ghost var s, mem, out: seq<Byte> := src[..srcsz], Seen(src[..], srcsz), [];
    var p: nat, bufsz := 0, buffer.Length;
    size := 0;
    UnpackingStart(s, mem);
    WrittenNothing(buffer[..], bufsz);
    while p < srcsz
      invariant p <= srcsz + 1 && src[..srcsz] == s && Seen(src[..], srcsz) == mem && size == |out|
      invariant Unpacking(s, mem, p, out) && Written(buffer[..], 0, size, bufsz, out)
      invariant p > srcsz && size <= buffer.Length ==> srcsz < src.Length
      decreases srcsz - p
    {
      var header := src[p];
      assert s[p] == header;
      if header == 0xff {
        TakeRaw(s, mem, out, p);
        var ok, q, left := UnpackRaw(src, p + 1, srcsz, buffer, size, bufsz, s, mem, out);
        if !ok { return -1; }
        out := out + s[p + 2..q];
        bufsz, size, p := left, size + (q - p - 2), q;
      } else {
        TakeMasked(s, mem, out, p);
        p := p + 1;
        WrittenBefore(buffer[..], size, bufsz, out);
        var ok, q, left := UnpackSparse(src, p, srcsz, header, buffer, size, bufsz);
        if !ok { return -1; }
        ghost var g := Spread(header, mem[p..q], 8);
        WrittenTwice(buffer[..], size, left, out, g);
        out := out + g;
        bufsz, p, size := left, q, size + 8;
      }
    }
    UnpackingEnd(s, mem, p, out);
    WrittenDone(buffer[..], size, bufsz, out);
  }

  /** Packing into one buffer and unpacking from it into another gives back a source of whole
      groups, if the buffers have the sizes that the callers compute. */
  method PackUnpack(src: array<Byte>, wire: array<Byte>, out: array<Byte>) returns (n: nat, size: int)
    requires src.Length % 8 == 0 && wire.Length >= MaxSize(src.Length) && out.Length >= src.Length
    requires src != wire && wire != out && src != out
    modifies wire, out
    ensures n <= MaxSize(src.Length) && size == src.Length && out[..size] == src[..]
  {
    hide Packed, Parse, Delivered, Overreads;
    ghost var mem := src[..];
    n := Pack(src, src.Length, wire);
    PackedFits(mem, src.Length);
    RoundTrip(mem, src.Length);
    assert mem[..src.Length] == mem;
    size := Unpack(wire, n, out);
  }
}
