/** The wire protocol of sproto (lib/sproto/README.md) as a property of bytes, and that a record has
    exactly the bytes that sproto_encode gives it. */
module SprotoWire {
  import opened Wrappers
  import opened LittleEndian
  import opened SprotoCodec
  import opened SprotoRoundTrip

  // The format.

  function Number16(b: seq<Byte>, p: nat): nat
    requires p + 2 <= |b|
  {
    b[p] as int + 0x100 * b[p + 1] as int
  }

  function Number32(b: seq<Byte>, p: nat): nat
    requires p + 4 <= |b|
  {
    b[p] as int + 0x100 * b[p + 1] as int + 0x1_0000 * b[p + 2] as int + 0x100_0000 * b[p + 3] as int
  }

  /** Little-endian, and two's complement for a negative number. */
  predicate IsNumber(x: int, s: seq<Byte>) {
    Val(s) == if x >= 0 then x else x + Pow256(|s|)
  }

  predicate Short(x: int) {
    -0x8000_0000 <= x <= 0x7fff_ffff
  }

  /** Small numbers and booleans are kept in the field part. */
  predicate InHeader(f: Field, v: Value) {
    !f.many && (v.Bool? || (v.Int? && 0 <= v.i <= 0x7ffe))
  }

  function HeaderNumber(v: Value): int {
    match v
    case Int(i) => i
    case Bool(true) => 1
    case _ => 0
  }

  /** The contents of an integer array: a byte for the width, and the numbers. */
  predicate IsInts(items: seq<Value>, b: seq<Byte>) {
    if items == [] then b == []
    else
      var w := if forall j :: 0 <= j < |items| && items[j].Int? ==> Short(items[j].i) then 4 else 8;
      && |b| == 1 + w * |items| && b[0] == w
      && forall j :: 0 <= j < |items| ==> items[j].Int? && IsNumber(items[j].i, Element(b, w, j))
  }

  function Element(b: seq<Byte>, w: nat, j: nat): seq<Byte> {
    if 1 + w * j + w <= |b| then b[1 + w * j..1 + w * j + w] else []
  }

  predicate IsBools(items: seq<Value>, b: seq<Byte>) {
    |b| == |items| && forall j :: 0 <= j < |b| ==> b[j] == if items[j] == Bool(true) then 1 else 0
  }

  predicate IsContent(sch: Schema, k: Kind, v: Value, b: seq<Byte>)
    requires ValidSchema(sch) && Typed(sch, k, v) && (k.KString? || k.KStruct?)
    decreases v, 3
  {
    if k.KString? then b == v.s else IsStruct(sch, k.ty, v, b)
  }

  /** The elements from the j-th on, each with its size in front of it. */
  predicate IsItems(sch: Schema, f: Field, v: Value, j: nat, b: seq<Byte>)
    requires ValidSchema(sch) && FieldTyped(sch, f, v) && f.many && (f.kind.KString? || f.kind.KStruct?)
             && j <= |v.items|
    decreases v, 4, |v.items| - j
  {
    if j == |v.items| then b == []
    else
      && |b| >= 4 && var n := 4 + Number32(b, 0);
      && n <= |b|
      && IsContent(sch, f.kind, v.items[j], b[4..n])
      && IsItems(sch, f, v, j + 1, b[n..])
  }

  /** The data of a field that is not kept in the field part. */
  predicate IsData(sch: Schema, f: Field, v: Value, b: seq<Byte>)
    requires ValidSchema(sch) && FieldTyped(sch, f, v) && !InHeader(f, v)
    decreases v, 5
  {
    if f.many then
      match f.kind
      case KInteger => IsInts(v.items, b)
      case KBoolean => IsBools(v.items, b)
      case _ => IsItems(sch, f, v, 0, b)
    else if v.Int? then |b| == (if Short(v.i) then 4 else 8) && IsNumber(v.i, b)
    else IsContent(sch, f.kind, v, b)
  }

  /** The fields from the i-th on, after the tag `last`: their words from the e-th of n on, and their
      data from pos on. */
  predicate HasFields(sch: Schema, ty: nat, v: Value, i: nat, last: int, b: seq<Byte>, n: nat, e: nat, pos: nat)
    requires ValidSchema(sch) && v.Struct? && Typed(sch, KStruct(ty), v) && i <= |v.vals|
    requires 2 + 2 * n <= pos <= |b|
    decreases v, 1, |v.vals| - i
  {
    if i == |v.vals| then e == n && pos == |b|
    else if v.vals[i].Nil? then HasFields(sch, ty, v, i + 1, last, b, n, e, pos)
    else
      var f, x := sch[ty][i], v.vals[i];
      var gap := f.tag - last - 1;
      var at := if gap > 0 then e + 1 else e;
      && at < n
      // an odd word for tags that are left out
      && (gap > 0 ==> Number16(b, 2 + 2 * e) % 2 == 1 && (Number16(b, 2 + 2 * e) + 1) / 2 == gap)
      && var word := Number16(b, 2 + 2 * at);
      if InHeader(f, x) then
        word == 2 * (HeaderNumber(x) + 1) && HasFields(sch, ty, v, i + 1, f.tag, b, n, at + 1, pos)
      else
        && word == 0 && pos + 4 <= |b| && var next := pos + 4 + Number32(b, pos);
        && next <= |b|
        && IsData(sch, f, x, b[pos + 4..next])
        && HasFields(sch, ty, v, i + 1, f.tag, b, n, at + 1, next)
  }

  /** The number of words, the words, and the data. */
  predicate IsStruct(sch: Schema, ty: nat, v: Value, b: seq<Byte>)
    requires ValidSchema(sch) && Typed(sch, KStruct(ty), v)
    decreases v, 2
  {
    && |b| >= 2 && var n := Number16(b, 0);
    && 2 + 2 * n <= |b|
    && HasFields(sch, ty, v, 0, -1, b, n, 0, 2 + 2 * n)
  }

  // Numbers.

  lemma {:induction false} LeVal(s: seq<Byte>)
    ensures Le(|s|, Val(s)) == s
  {
    if s != [] {
      var low: int := s[0];
      QuotientIs(Val(s), 256, Val(s[1..]), low);
      LeVal(s[1..]);
    }
  }

  lemma WordIs(b: seq<Byte>, p: nat)
    requires p + 2 <= |b|
    ensures Word(b, p) == Number16(b, p) <= 0xffff
  {
    var s := b[p..p + 2];
    assert s[1..][1..] == [] && Val(s[1..]) == s[1];
  }

  lemma DwordIs(b: seq<Byte>, p: nat)
    requires p + 4 <= |b|
    ensures Dword(b, p) == Number32(b, p) < TwoTo32
  {
    var s := b[p..p + 4];
    assert s == [b[p], b[p + 1], b[p + 2], b[p + 3]];
    var t := s[1..];
    var u := t[1..];
    assert t[0] == b[p + 1] && u[0] == b[p + 2] && u[1..][0] == b[p + 3] && u[1..][1..] == [];
    assert Val(u[1..]) == b[p + 3];
    assert Val(u) == b[p + 2] as int + 256 * b[p + 3] as int;
    assert Val(t) == b[p + 1] as int + 256 * Val(u);
  }

  lemma NumberIs(n: nat, x: int, s: seq<Byte>)
    requires |s| == n && ((n == 4 && Fits32(x)) || (n == 8 && Fits64(x)))
    ensures IsNumber(x, s) <==> s == IntLe(n, x)
  {
    hide Val, Le, Pow256;
    Powers();
    var m := if n == 4 then TwoTo32 else TwoTo64;
    var u := if x >= 0 then x else x + m;
    assert x % m == u by { QuotientIs(u, m, 0, u); if x < 0 { ModPlus(x, m); } }
    ValLe(n, u);
    LeVal(s);
  }

  lemma ModPlus(x: int, m: nat)
    requires m >= 1
    ensures (x + m) % m == x % m
  {
    var d := (x + m) / m - x / m - 1;
    assert x + m == ((x + m) / m) * m + (x + m) % m && x == (x / m) * m + x % m;
    assert d * m == x % m - (x + m) % m;
    assert d >= 1 ==> d * m >= m;
    assert d <= -1 ==> d * m + m <= 0;
  }

  // Encoding has the format.

  lemma InlineIs(sch: Schema, f: Field, v: Value)
    requires FieldTyped(sch, f, v)
    ensures Inline(f, v) == if InHeader(f, v) then 2 * (HeaderNumber(v) + 1) else 0
    ensures Inline(f, v) == 0 <==> !InHeader(f, v)
  {
  }

  lemma {:induction false} IntsAre(n: nat, xs: seq<int>, s: seq<Byte>)
    ensures s == Ints(n, xs) <==>
              |s| == n * |xs| && forall j :: 0 <= j < |xs| ==> Chunk(s, n, j) == IntLe(n, xs[j])
    decreases |xs|
  {
    hide IntLe;
    if xs == [] {
      assert n * 0 == 0;
    } else if |s| >= n {
      var head, rest := s[..n], s[n..];
      IntsAre(n, xs[1..], rest);
      assert n * |xs| == n + n * |xs[1..]|;
      assert Chunk(s, n, 0) == head by { assert n * 0 == 0; }
      assert s == head + rest;
      forall j | 0 <= j < |xs| - 1 ensures Chunk(rest, n, j) == Chunk(s, n, j + 1) { ChunkTail(s, n, j); }
      if |s| == n * |xs| && forall j :: 0 <= j < |xs| ==> Chunk(s, n, j) == IntLe(n, xs[j]) {
        forall j | 0 <= j < |xs[1..]| ensures Chunk(rest, n, j) == IntLe(n, xs[1..][j]) {
          assert Chunk(s, n, j + 1) == IntLe(n, xs[j + 1]);
        }
      }
      if s == Ints(n, xs) {
        assert head == IntLe(n, xs[0]) && rest == Ints(n, xs[1..]);
        forall j | 0 <= j < |xs| ensures Chunk(s, n, j) == IntLe(n, xs[j]) {
          if j > 0 { assert Chunk(rest, n, j - 1) == IntLe(n, xs[1..][j - 1]); }
        }
      }
    } else {
      assert n * |xs| == n + n * (|xs| - 1);
      assert n * (|xs| - 1) >= 0;
    }
  }

  function Chunk(s: seq<Byte>, n: nat, j: nat): seq<Byte> {
    if n * j + n <= |s| then s[n * j..n * j + n] else []
  }

  lemma ChunkTail(s: seq<Byte>, n: nat, j: nat)
    requires |s| >= n
    ensures Chunk(s[n..], n, j) == Chunk(s, n, j + 1)
  {
    assert n * (j + 1) == n * j + n;
    var p := n * j;
    if p + n <= |s| - n { assert s[n..][p..p + n] == s[p + n..p + n + n]; }
  }

  lemma IntsFormat(items: seq<Value>, b: seq<Byte>)
    requires forall j :: 0 <= j < |items| ==> items[j].Int? && Fits64(items[j].i)
    ensures IsInts(items, b) <==> b == IntArray(IntsOf(items))
  {
    hide Ints, IntLe, IsNumber, Element, Chunk;
    var xs := IntsOf(items);
    var w := if AllFit32(xs) then 4 else 8;
    assert AllFit32(xs) <==> forall j :: 0 <= j < |items| && items[j].Int? ==> Short(items[j].i) by {
      forall j | 0 <= j < |items| ensures Short(items[j].i) == Fits32(xs[j]) {}
    }
    if items != [] && b != [] {
      var s := b[1..];
      assert b == [b[0]] + s;
      IntsAre(w, xs, s);
      if |s| == w * |xs| {
        forall j | 0 <= j < |items|
          ensures IsNumber(items[j].i, Element(b, w, j)) <==> Chunk(s, w, j) == IntLe(w, xs[j])
        {
          ElementIs(b, w, j, |xs|);
          NumberIs(w, xs[j], Element(b, w, j));
        }
      }
      if b == IntArray(xs) { assert s == Ints(w, xs); }
    }
  }

  lemma Times(w: nat, j: nat, n: nat)
    requires j < n
    ensures w * j + w <= w * n
  {
    var k := n - j - 1;
    assert w * n == w * (j + 1 + k) == w * j + w + w * k;
  }

  lemma ElementIs(b: seq<Byte>, w: nat, j: nat, n: nat)
    requires b != [] && |b| == 1 + w * n && j < n
    ensures Element(b, w, j) == Chunk(b[1..], w, j) && |Element(b, w, j)| == w
  {
    Times(w, j, n);
    var p := w * j;
    assert b[1..][p..p + w] == b[1 + p..1 + p + w];
  }

  lemma BoolsFormat(items: seq<Value>, b: seq<Byte>)
    ensures IsBools(items, b) <==> b == BoolBytes(items)
  {
  }

  lemma {:induction false} ContentFormat(sch: Schema, k: Kind, v: Value, b: seq<Byte>)
    requires ValidSchema(sch) && Typed(sch, k, v) && (k.KString? || k.KStruct?) && |b| < Limit
    ensures IsContent(sch, k, v, b) <==> Content(sch, k, v) == Some(b)
    decreases v, 3
  {
    hide EncodeStruct, IsStruct;
    if k.KStruct? { WireFormat(sch, k.ty, v, b); }
  }

  /** A size and that many bytes. */
  lemma SizedIs(b: seq<Byte>, pos: nat, x: seq<Byte>)
    requires pos + 4 + |x| <= |b| < Limit
    ensures Number32(b, pos) == |x| && b[pos + 4..pos + 4 + |x|] == x <==> b[pos..] == Len(x) + b[pos + 4 + |x|..]
  {
    hide Le, Val, Pow256, Number32, Dword;
    var rest := b[pos + 4 + |x|..];
    DwordIs(b, pos);
    if b[pos..] == Len(x) + rest { LenAt(b, pos, x, rest); }
    if Number32(b, pos) == |x| && b[pos + 4..pos + 4 + |x|] == x { SizedJoin(b, pos, x); }
  }

  lemma SizedJoin(b: seq<Byte>, pos: nat, x: seq<Byte>)
    requires pos + 4 + |x| <= |b| && Dword(b, pos) == |x| && b[pos + 4..pos + 4 + |x|] == x
    ensures b[pos..] == Len(x) + b[pos + 4 + |x|..]
  {
    hide Le, Val;
    LeVal(b[pos..pos + 4]);
    assert b[pos..] == b[pos..pos + 4] + b[pos + 4..pos + 4 + |x|] + b[pos + 4 + |x|..];
  }

  lemma {:induction false} ItemsFormat(sch: Schema, f: Field, v: Value, j: nat, b: seq<Byte>)
    requires ValidSchema(sch) && FieldTyped(sch, f, v) && f.many && (f.kind.KString? || f.kind.KStruct?)
             && j <= |v.items| && |b| < Limit
    ensures IsItems(sch, f, v, j, b) <==> Items(sch, f, v, j) == Some(b)
    decreases v, 4, |v.items| - j
  {
    hide Content, IsContent, Le, Number32, Len;
    if j < |v.items| {
      var x := v.items[j];
      if IsItems(sch, f, v, j, b) {
        var n := 4 + Number32(b, 0);
        ContentFormat(sch, f.kind, x, b[4..n]);
        ItemsFormat(sch, f, v, j + 1, b[n..]);
        SizedIs(b, 0, b[4..n]);
        assert b[0..] == b;
      }
      if Items(sch, f, v, j) == Some(b) {
        var c, rest := Content(sch, f.kind, x).value, Items(sch, f, v, j + 1).value;
        ItemsSizes(c, rest, b);
        ContentFormat(sch, f.kind, x, c);
        ItemsFormat(sch, f, v, j + 1, rest);
      }
    }
  }

  lemma ItemsSizes(c: seq<Byte>, rest: seq<Byte>, b: seq<Byte>)
    requires b == Len(c) + rest && |b| < Limit
    ensures 4 + |c| <= |b| && Number32(b, 0) == |c| && b[4..4 + |c|] == c && b[4 + |c|..] == rest
  {
    hide Number32, Dword;
    assert b[0..] == b;
    LenAt(b, 0, c, rest);
    DwordIs(b, 0);
  }

  lemma {:induction false} DataFormat(sch: Schema, f: Field, v: Value, b: seq<Byte>)
    requires ValidSchema(sch) && FieldTyped(sch, f, v) && !InHeader(f, v) && Inline(f, v) == 0 && |b| < Limit
    ensures IsData(sch, f, v, b) <==> Body(sch, f, v) == Some(b)
    decreases v, 5
  {
    hide IsInts, IntArray, IsBools, BoolBytes, IsItems, Items, IsContent, Content, IsNumber, IntLe;
    if f.many {
      match f.kind
      case KInteger => IntsFormat(v.items, b);
      case KBoolean => BoolsFormat(v.items, b);
      case _ => ItemsFormat(sch, f, v, 0, b);
    } else if v.Int? {
      var n := if Short(v.i) then 4 else 8;
      if |b| == n { NumberIs(n, v.i, b); }
    } else {
      ContentFormat(sch, f.kind, v, b);
    }
  }

  /** The words and the data of the fields are in their places in b. */
  ghost predicate InPlace(r: Option<(seq<nat>, seq<Byte>)>, b: seq<Byte>, n: nat, e: nat, pos: nat) {
    r.Some? && pos <= |b| && Reads(b, n, e, r.value.0) && b[pos..] == r.value.1
  }

  lemma {:induction false} FieldsFormat(sch: Schema, ty: nat, v: Value, i: nat, last: int, b: seq<Byte>, n: nat, e: nat,
                                        pos: nat)
    requires ValidSchema(sch) && v.Struct? && Typed(sch, KStruct(ty), v) && i <= |v.vals|
    requires 2 + 2 * n <= pos <= |b| < Limit
    ensures HasFields(sch, ty, v, i, last, b, n, e, pos) <==> InPlace(Records(sch, ty, v, i, last), b, n, e, pos)
    decreases v, 1, |v.vals| - i, 1
  {
    if i < |v.vals| {
      if v.vals[i].Nil? {
        FieldsFormat(sch, ty, v, i + 1, last, b, n, e, pos);
      } else {
        FieldHas(sch, ty, v, i, last, b, n, e, pos);
        FieldIs(sch, ty, v, i, last, b, n, e, pos);
      }
    }
  }

  lemma {:induction false} FieldHas(sch: Schema, ty: nat, v: Value, i: nat, last: int, b: seq<Byte>, n: nat, e: nat,
                                    pos: nat)
    requires ValidSchema(sch) && v.Struct? && Typed(sch, KStruct(ty), v) && i < |v.vals| && !v.vals[i].Nil?
    requires 2 + 2 * n <= pos <= |b| < Limit
    ensures HasFields(sch, ty, v, i, last, b, n, e, pos) ==> InPlace(Records(sch, ty, v, i, last), b, n, e, pos)
    decreases v, 1, |v.vals| - i, 0
  {
    hide IsData, Body, Inline, InHeader, Number16, Number32, Reads, Len;
    if HasFields(sch, ty, v, i, last, b, n, e, pos) {
      var f, x := sch[ty][i], v.vals[i];
      var gap := f.tag - last - 1;
      var at := if gap > 0 then e + 1 else e;
      InlineIs(sch, f, x);
      WordIs(b, 2 + 2 * e);
      WordIs(b, 2 + 2 * at);
      var word := Word(b, 2 + 2 * at);
      var next := if InHeader(f, x) then pos else pos + 4 + Number32(b, pos);
      FieldsFormat(sch, ty, v, i + 1, f.tag, b, n, at + 1, next);
      var ws, data := Records(sch, ty, v, i + 1, f.tag).value.0, Records(sch, ty, v, i + 1, f.tag).value.1;
      ReadsJoin(b, n, e, gap, word, ws);
      if !InHeader(f, x) {
        var d := b[pos + 4..next];
        DataFormat(sch, f, x, d);
        SizedIs(b, pos, d);
      } else {
        assert [] + data == data;
      }
    }
  }

  lemma {:induction false} FieldIs(sch: Schema, ty: nat, v: Value, i: nat, last: int, b: seq<Byte>, n: nat, e: nat,
                                   pos: nat)
    requires ValidSchema(sch) && v.Struct? && Typed(sch, KStruct(ty), v) && i < |v.vals| && !v.vals[i].Nil?
    requires 2 + 2 * n <= pos <= |b| < Limit
    ensures InPlace(Records(sch, ty, v, i, last), b, n, e, pos) ==> HasFields(sch, ty, v, i, last, b, n, e, pos)
    decreases v, 1, |v.vals| - i, 0
  {
    hide IsData, Body, Inline, InHeader, Number16, Number32, Reads, Len, Word;
    if InPlace(Records(sch, ty, v, i, last), b, n, e, pos) {
      var f, x := sch[ty][i], v.vals[i];
      var gap := f.tag - last - 1;
      var word, body, ws, data := RecordsSome(sch, ty, v, i, last);
      var at := if gap > 0 then e + 1 else e;
      ReadsParts(b, n, e, gap, word, ws);
      InlineIs(sch, f, x);
      WordIs(b, 2 + 2 * e);
      WordIs(b, 2 + 2 * at);
      if word == 0 {
        LenAt(b, pos, body, data);
        DwordIs(b, pos);
        DataFormat(sch, f, x, body);
        FieldsFormat(sch, ty, v, i + 1, f.tag, b, n, at + 1, pos + 4 + |body|);
      } else {
        assert [] + data == data;
        FieldsFormat(sch, ty, v, i + 1, f.tag, b, n, at + 1, pos);
      }
    }
  }

  lemma ReadsJoin(b: seq<Byte>, n: nat, e: nat, gap: int, word: nat, ws: seq<nat>)
    requires 2 + 2 * n <= |b| && var at := if gap > 0 then e + 1 else e;
             && at < n && Word(b, 2 + 2 * at) == word && Reads(b, n, at + 1, ws)
             && (gap > 0 ==> Word(b, 2 + 2 * e) == (gap - 1) * 2 + 1)
    ensures Reads(b, n, e, GapWords(gap) + [word] + ws)
  {
    hide Word;
    var m, all := |GapWords(gap)|, GapWords(gap) + [word] + ws;
    forall k | 0 <= k < |all| ensures Word(b, 2 + 2 * (e + k)) == all[k] {
      if k > m { assert Word(b, 2 + 2 * (e + m + 1 + (k - m - 1))) == ws[k - m - 1]; }
    }
  }

  /** The bytes of a record are those that sproto_encode gives, and no others. */
  lemma {:induction false} WireFormat(sch: Schema, ty: nat, v: Value, b: seq<Byte>)
    requires ValidSchema(sch) && Typed(sch, KStruct(ty), v) && |b| < Limit
    ensures EncodeStruct(sch, ty, v) == Some(b) <==> IsStruct(sch, ty, v, b)
    decreases v, 2
  {
    hide Records, HasFields, Words, Le, Word, Number16, Reads;
    if IsStruct(sch, ty, v, b) {
      var n := Number16(b, 0);
      WordIs(b, 0);
      FieldsFormat(sch, ty, v, 0, -1, b, n, 0, 2 + 2 * n);
      StructBytes(Records(sch, ty, v, 0, -1).value.0, b, n);
    }
    if EncodeStruct(sch, ty, v) == Some(b) {
      var (ws, data) := Records(sch, ty, v, 0, -1).value;
      EntriesFit(sch, ty, v, 0, -1);
      assert sch[ty][0..] == sch[ty];
      HeaderWords(ws, data, b);
      WordIs(b, 0);
      FieldsFormat(sch, ty, v, 0, -1, b, |ws|, 0, 2 + 2 * |ws|);
    }
  }

  lemma StructBytes(ws: seq<nat>, b: seq<Byte>, n: nat)
    requires Reads(b, n, 0, ws) && Word(b, 0) == n
    ensures b == Le(2, n) + (Words(ws) + b[2 + 2 * n..])
  {
    hide Le, Val, Words;
    LeVal(b[0..2]);
    WordsAre(ws, b[2..2 + 2 * n], b);
    assert b == b[0..2] + (b[2..2 + 2 * n] + b[2 + 2 * n..]);
  }

  lemma {:induction false} WordsBytes(ws: seq<nat>, s: seq<Byte>)
    requires |s| == 2 * |ws| && forall k :: 0 <= k < |ws| ==> Word(s, 2 * k) == ws[k]
    ensures Words(ws) == s
    decreases |ws|
  {
    hide Val, Le;
    if ws != [] {
      var rest := s[2..];
      assert Word(s, 2 * 0) == ws[0];
      LeVal(s[0..2]);
      forall k | 0 <= k < |ws| - 1 ensures Word(rest, 2 * k) == ws[1..][k] {
        assert rest[2 * k..2 * k + 2] == s[2 * (k + 1)..2 * (k + 1) + 2];
        assert Word(s, 2 * (k + 1)) == ws[k + 1];
      }
      WordsBytes(ws[1..], rest);
      assert s == s[0..2] + rest;
    }
  }

  lemma WordsAre(ws: seq<nat>, s: seq<Byte>, b: seq<Byte>)
    requires 2 + 2 * |ws| <= |b| && Reads(b, |ws|, 0, ws) && s == b[2..2 + 2 * |ws|]
    ensures Words(ws) == s
  {
    hide Words, Word, Reads;
    forall k | 0 <= k < |ws| ensures Word(s, 2 * k) == ws[k] { ReadsAt(b, ws, k); }
    WordsBytes(ws, s);
  }

  lemma ReadsAt(b: seq<Byte>, ws: seq<nat>, k: nat)
    requires Reads(b, |ws|, 0, ws) && k < |ws|
    ensures 2 + 2 * |ws| <= |b| && Word(b[2..2 + 2 * |ws|], 2 * k) == ws[k]
  {
    hide Word;
    SameWord(b, |ws|, k);
    assert Word(b, 2 + 2 * (0 + k)) == ws[k];
  }

  lemma SameWord(b: seq<Byte>, n: nat, k: nat)
    requires k < n && 2 + 2 * n <= |b|
    ensures Word(b[2..2 + 2 * n], 2 * k) == Word(b, 2 + 2 * k)
  {
    hide Val;
    var s, p := b[2..2 + 2 * n], 2 * k;
    assert s[p..p + 2] == [s[p], s[p + 1]] == [b[2 + p], b[2 + p + 1]] == b[2 + p..2 + p + 2];
  }

  // The examples of the documentation.

  /** .Person and .Data */
  const Example: Schema := [
    [Field(0, KString, false), Field(1, KInteger, false), Field(2, KBoolean, false), Field(3, KStruct(0), true)],
    [Field(0, KInteger, true), Field(1, KBoolean, true), Field(2, KInteger, false), Field(3, KInteger, false)]
  ]

  lemma ExampleIsValid()
    ensures ValidSchema(Example)
  {
    hide MaxN;
    forall ty | 0 <= ty < 2 ensures MaxN(Example[ty], -1) == 4 { NoGaps(Example[ty]); }
  }

  lemma NoGaps(fields: seq<Field>)
    requires |fields| == 4 && forall i :: 0 <= i < 4 ==> fields[i].tag == i
    ensures MaxN(fields, -1) == 4
  {
    var a, b, c, d := fields[1..], fields[2..], fields[3..], fields[4..];
    assert a[1..] == b && b[1..] == c && c[1..] == d;
    assert MaxN(d, 3) == 0;
    assert MaxN(c, 2) == 1;
    assert MaxN(b, 1) == 2;
    assert MaxN(a, 0) == 3;
  }

  lemma HasNil(sch: Schema, ty: nat, v: Value, i: nat, last: int, b: seq<Byte>, n: nat, e: nat, pos: nat)
    requires ValidSchema(sch) && v.Struct? && Typed(sch, KStruct(ty), v) && i < |v.vals| && v.vals[i].Nil?
    requires 2 + 2 * n <= pos <= |b| && HasFields(sch, ty, v, i + 1, last, b, n, e, pos)
    ensures HasFields(sch, ty, v, i, last, b, n, e, pos)
  {
  }

  lemma HasField(sch: Schema, ty: nat, v: Value, i: nat, last: int, b: seq<Byte>, n: nat, e: nat, pos: nat, next: nat)
    requires ValidSchema(sch) && v.Struct? && Typed(sch, KStruct(ty), v) && i < |v.vals| && !v.vals[i].Nil?
    requires 2 + 2 * n <= pos <= next <= |b|
    requires var gap := sch[ty][i].tag - last - 1;
             var at := if gap > 0 then e + 1 else e;
             && at < n && HasFields(sch, ty, v, i + 1, sch[ty][i].tag, b, n, at + 1, next)
             && (gap > 0 ==> Number16(b, 2 + 2 * e) % 2 == 1 && (Number16(b, 2 + 2 * e) + 1) / 2 == gap)
             && Number16(b, 2 + 2 * at) ==
                  if InHeader(sch[ty][i], v.vals[i]) then 2 * (HeaderNumber(v.vals[i]) + 1) else 0
    requires InHeader(sch[ty][i], v.vals[i]) ==> next == pos
    requires !InHeader(sch[ty][i], v.vals[i]) ==>
               && pos + 4 <= |b| && next == pos + 4 + Number32(b, pos)
               && IsData(sch, sch[ty][i], v.vals[i], b[pos + 4..next])
    ensures HasFields(sch, ty, v, i, last, b, n, e, pos)
  {
    hide IsData, Number16, Number32, InHeader, HeaderNumber;
  }

  lemma HasAll(sch: Schema, ty: nat, v: Value, last: int, b: seq<Byte>, n: nat)
    requires ValidSchema(sch) && v.Struct? && Typed(sch, KStruct(ty), v) && 2 + 2 * n <= |b|
    ensures HasFields(sch, ty, v, |v.vals|, last, b, n, n, |b|)
  {
  }

  lemma AliceWords(b: seq<Byte>)
    requires b == [3, 0, 0, 0, 0x1c, 0, 2, 0, 5, 0, 0, 0, 0x41, 0x6c, 0x69, 0x63, 0x65]
    ensures |b| == 17 && Number16(b, 0) == 3 && Number16(b, 2) == 0 && Number16(b, 4) == 28 && Number16(b, 6) == 2
    ensures Number32(b, 8) == 5 && b[12..17] == [0x41, 0x6c, 0x69, 0x63, 0x65]
  {
  }

  lemma AliceHas(v: Value, b: seq<Byte>)
    requires ValidSchema(Example) && Typed(Example, KStruct(0), v)
    requires v == Struct([Str([0x41, 0x6c, 0x69, 0x63, 0x65]), Int(13), Bool(false), Nil])
    requires |b| == 17 && Number16(b, 0) == 3 && Number16(b, 2) == 0 && Number16(b, 4) == 28 && Number16(b, 6) == 2
    requires Number32(b, 8) == 5 && b[12..17] == [0x41, 0x6c, 0x69, 0x63, 0x65]
    ensures IsStruct(Example, 0, v, b)
  {
    hide HasFields, Typed, ValidSchema, Number16, Number32;
    HasAll(Example, 0, v, 2, b, 3);
    HasNil(Example, 0, v, 3, 2, b, 3, 3, 17);
    HasField(Example, 0, v, 2, 1, b, 3, 2, 17, 17);
    HasField(Example, 0, v, 1, 0, b, 3, 1, 17, 17);
    HasField(Example, 0, v, 0, -1, b, 3, 0, 8, 17);
  }

  lemma AliceTyped()
    ensures Typed(Example, KStruct(0), Struct([Str([0x41, 0x6c, 0x69, 0x63, 0x65]), Int(13), Bool(false), Nil]))
  {
  }

  /** Example 1: a string, a small number and a boolean. */
  lemma Alice()
    ensures ValidSchema(Example)
    ensures var v := Struct([Str([0x41, 0x6c, 0x69, 0x63, 0x65]), Int(13), Bool(false), Nil]);
            && Typed(Example, KStruct(0), v)
            && EncodeStruct(Example, 0, v) ==
                 Some([3, 0, 0, 0, 0x1c, 0, 2, 0, 5, 0, 0, 0, 0x41, 0x6c, 0x69, 0x63, 0x65])
  {
    hide IsStruct, EncodeStruct, Number16, Number32, Typed;
    ExampleIsValid();
    AliceTyped();
    var v := Struct([Str([0x41, 0x6c, 0x69, 0x63, 0x65]), Int(13), Bool(false), Nil]);
    var b: seq<Byte> := [3, 0, 0, 0, 0x1c, 0, 2, 0, 5, 0, 0, 0, 0x41, 0x6c, 0x69, 0x63, 0x65];
    AliceWords(b);
    AliceHas(v, b);
    WireFormat(Example, 0, v, b);
  }

  lemma BoolsWords(b: seq<Byte>)
    requires b == [2, 0, 1, 0, 0, 0, 3, 0, 0, 0, 0, 1, 0]
    ensures |b| == 13 && Number16(b, 0) == 2 && Number16(b, 2) == 1 && Number16(b, 4) == 0
    ensures Number32(b, 6) == 3 && b[10..13] == [0, 1, 0]
  {
  }

  lemma BoolsHas(v: Value, b: seq<Byte>)
    requires ValidSchema(Example) && Typed(Example, KStruct(1), v)
    requires v == Struct([Nil, Array([Bool(false), Bool(true), Bool(false)]), Nil, Nil])
    requires |b| == 13 && Number16(b, 0) == 2 && Number16(b, 2) == 1 && Number16(b, 4) == 0
    requires Number32(b, 6) == 3 && b[10..13] == [0, 1, 0]
    ensures IsStruct(Example, 1, v, b)
  {
    hide HasFields, Typed, ValidSchema, Number16, Number32;
    HasAll(Example, 1, v, 1, b, 2);
    HasNil(Example, 1, v, 3, 1, b, 2, 2, 13);
    HasNil(Example, 1, v, 2, 1, b, 2, 2, 13);
    HasField(Example, 1, v, 1, -1, b, 2, 0, 6, 13);
    HasNil(Example, 1, v, 0, -1, b, 2, 0, 6);
  }

  /** Example 5: an array of booleans behind a tag that is left out. */
  lemma Bools()
    ensures ValidSchema(Example)
    ensures var v := Struct([Nil, Array([Bool(false), Bool(true), Bool(false)]), Nil, Nil]);
            && Typed(Example, KStruct(1), v)
            && EncodeStruct(Example, 1, v) == Some([2, 0, 1, 0, 0, 0, 3, 0, 0, 0, 0, 1, 0])
  {
    hide IsStruct, EncodeStruct, Number16, Number32;
    ExampleIsValid();
    var v := Struct([Nil, Array([Bool(false), Bool(true), Bool(false)]), Nil, Nil]);
    var b: seq<Byte> := [2, 0, 1, 0, 0, 0, 3, 0, 0, 0, 0, 1, 0];
    BoolsWords(b);
    BoolsHas(v, b);
    WireFormat(Example, 1, v, b);
  }

  lemma NumbersWords(b: seq<Byte>)
    requires b == [3, 0, 3, 0, 0, 0, 0, 0] + ([4, 0, 0, 0] + [0xa0, 0x86, 1, 0]
                  + ([8, 0, 0, 0] + ([0, 0x1c, 0xf4, 0xab] + [0xfd, 0xff, 0xff, 0xff])))
    ensures |b| == 28 && Number16(b, 0) == 3 && Number16(b, 2) == 3 && Number16(b, 4) == 0 && Number16(b, 6) == 0
    ensures Number32(b, 8) == 4 && b[12..16] == [0xa0, 0x86, 1, 0]
    ensures Number32(b, 16) == 8 && b[20..28] == [0, 0x1c, 0xf4, 0xab] + [0xfd, 0xff, 0xff, 0xff]
  {
    var y: seq<Byte> := [0, 0x1c, 0xf4, 0xab] + [0xfd, 0xff, 0xff, 0xff];
    var x: seq<Byte> := [0xa0, 0x86, 1, 0];
    assert b[20..28] == y && b[12..16] == x;
  }

  lemma NumbersHas(v: Value, b: seq<Byte>)
    requires ValidSchema(Example) && Typed(Example, KStruct(1), v)
    requires v == Struct([Nil, Nil, Int(100000), Int(-10000000000)])
    requires |b| == 28 && Number16(b, 0) == 3 && Number16(b, 2) == 3 && Number16(b, 4) == 0 && Number16(b, 6) == 0
    requires Number32(b, 8) == 4 && IsNumber(100000, b[12..16])
    requires Number32(b, 16) == 8 && IsNumber(-10000000000, b[20..28])
    ensures IsStruct(Example, 1, v, b)
  {
    hide HasFields, Typed, ValidSchema, Number16, Number32, IsNumber;
    HasAll(Example, 1, v, 3, b, 3);
    HasField(Example, 1, v, 3, 2, b, 3, 2, 16, 28);
    HasField(Example, 1, v, 2, -1, b, 3, 0, 8, 16);
    HasNil(Example, 1, v, 1, -1, b, 3, 0, 8);
    HasNil(Example, 1, v, 0, -1, b, 3, 0, 8);
  }

  /** Example 6: numbers of 32 and of 64 bits, the second one negative. */
  lemma Numbers()
    ensures ValidSchema(Example)
    ensures var v := Struct([Nil, Nil, Int(100000), Int(-10000000000)]);
            && Typed(Example, KStruct(1), v)
            && EncodeStruct(Example, 1, v) ==
                 Some([3, 0, 3, 0, 0, 0, 0, 0] + ([4, 0, 0, 0] + [0xa0, 0x86, 1, 0]
                      + ([8, 0, 0, 0] + ([0, 0x1c, 0xf4, 0xab] + [0xfd, 0xff, 0xff, 0xff]))))
  {
    hide IsStruct, EncodeStruct, Number16, Number32, IsNumber;
    ExampleIsValid();
    var v := Struct([Nil, Nil, Int(100000), Int(-10000000000)]);
    var b: seq<Byte> := [3, 0, 3, 0, 0, 0, 0, 0] + ([4, 0, 0, 0] + [0xa0, 0x86, 1, 0]
                        + ([8, 0, 0, 0] + ([0, 0x1c, 0xf4, 0xab] + [0xfd, 0xff, 0xff, 0xff])));
    NumbersWords(b);
    NumberBytes();
    NumbersHas(v, b);
    WireFormat(Example, 1, v, b);
  }

  lemma NumberBytes()
    ensures IsNumber(100000, [0xa0, 0x86, 1, 0])
    ensures IsNumber(-10000000000, [0, 0x1c, 0xf4, 0xab] + [0xfd, 0xff, 0xff, 0xff])
  {
    Powers();
    var low: seq<Byte>, high: seq<Byte> := [0, 0x1c, 0xf4, 0xab], [0xfd, 0xff, 0xff, 0xff];
    FourBytes([0xa0, 0x86, 1, 0]);
    FourBytes(low);
    FourBytes(high);
    ValConcat(low, high);
  }

  lemma FourBytes(s: seq<Byte>)
    requires |s| == 4
    ensures Val(s) == Number32(s, 0)
  {
    hide Val, Number32;
    DwordIs(s, 0);
    assert s[0..4] == s;
  }

  lemma {:induction false} ValConcat(a: seq<Byte>, b: seq<Byte>)
    ensures Val(a + b) == Val(a) + Pow256(|a|) * Val(b)
    decreases |a|
  {
    hide Pow256, Val;
    if a == [] {
      assert a + b == b;
      ValEmpty();
    } else {
      assert (a + b)[1..] == a[1..] + b;
      ValFirst(a + b);
      ValFirst(a);
      ValConcat(a[1..], b);
      PowUnfold(|a|);
      Regroup(Pow256(|a| - 1), Val(b));
    }
  }

  lemma ValEmpty()
    ensures Val([]) == 0 && Pow256(0) == 1
  {
  }

  lemma ValFirst(s: seq<Byte>)
    requires s != []
    ensures Val(s) == s[0] as int + 256 * Val(s[1..])
  {
  }

  lemma Regroup(p: nat, v: nat)
    ensures 256 * (p * v) == (256 * p) * v
  {
  }
}
