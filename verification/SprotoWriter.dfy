/** sproto_encode (lib/sproto/sproto.c) writes a record into a buffer, with the callback of
    lib/sproto/lsproto.c built in. Every successful call leaves exactly the bytes of the
    record, and the call succeeds if there is room. */
module SprotoWriter {
  import opened Wrappers
  import opened LittleEndian
  import opened SprotoCodec
  import opened SprotoRoundTrip
  import opened SprotoEncoder

  // Room that is enough; the header takes its largest size before it is moved together.

  function RoomContent(sch: Schema, k: Kind, v: Value): nat
    requires ValidSchema(sch) && Typed(sch, k, v) && (k.KString? || k.KStruct?)
    decreases v, 3
  {
    if k.KString? then |v.s| else 2 + 2 * MaxN(sch[k.ty], -1) + RoomFields(sch, k.ty, v, 0)
  }

  function RoomItems(sch: Schema, f: Field, v: Value, j: nat): nat
    requires ValidSchema(sch) && FieldTyped(sch, f, v) && f.many && (f.kind.KString? || f.kind.KStruct?)
             && j <= |v.items|
    decreases v, 4, |v.items| - j
  {
    4 + if j == |v.items| then 0 else RoomContent(sch, f.kind, v.items[j]) + RoomItems(sch, f, v, j + 1)
  }

  function RoomField(sch: Schema, f: Field, v: Value): nat
    requires ValidSchema(sch) && FieldTyped(sch, f, v)
    decreases v, 5
  {
    if Inline(f, v) != 0 then 0
    else if f.many then
      match f.kind
      case KInteger => 5 + 8 * |v.items|
      case KBoolean => 4 + |v.items|
      case _ => 4 + RoomItems(sch, f, v, 0)
    else if v.Int? then 12
    else 4 + RoomContent(sch, f.kind, v)
  }

  function RoomFields(sch: Schema, ty: nat, v: Value, i: nat): nat
    requires ValidSchema(sch) && v.Struct? && Typed(sch, KStruct(ty), v) && i <= |v.vals|
    decreases v, 1, |v.vals| - i
  {
    if i == |v.vals| then 0
    else (if v.vals[i].Nil? then 0 else RoomField(sch, sch[ty][i], v.vals[i])) + RoomFields(sch, ty, v, i + 1)
  }

  // Steps of the specification.

  function Prepend(s: seq<Byte>, r: Option<seq<Byte>>): Option<seq<Byte>> {
    if r.None? then None else Some(s + r.value)
  }

  lemma ItemsUnfold(sch: Schema, f: Field, v: Value, j: nat, s: seq<Byte>)
    requires ValidSchema(sch) && FieldTyped(sch, f, v) && f.many && (f.kind.KString? || f.kind.KStruct?)
             && j < |v.items|
    ensures var x := Content(sch, f.kind, v.items[j]);
            Prepend(s, Items(sch, f, v, j)) ==
              if x.None? then None else Prepend(s + Len(x.value), Items(sch, f, v, j + 1))
    ensures RoomItems(sch, f, v, j) == 4 + RoomContent(sch, f.kind, v.items[j]) + RoomItems(sch, f, v, j + 1)
  {
    hide Content, RoomContent, Len;
    var x, rest := Content(sch, f.kind, v.items[j]), Items(sch, f, v, j + 1);
    if x.Some? && rest.Some? { assert s + (Len(x.value) + rest.value) == (s + Len(x.value)) + rest.value; }
  }

  lemma ItemsEnd(sch: Schema, f: Field, v: Value, s: seq<Byte>)
    requires ValidSchema(sch) && FieldTyped(sch, f, v) && f.many && (f.kind.KString? || f.kind.KStruct?)
    ensures Prepend(s, Items(sch, f, v, |v.items|)) == Some(s) && RoomItems(sch, f, v, |v.items|) == 4
  {
    assert s + [] == s;
  }

  lemma ItemsStart(sch: Schema, f: Field, v: Value)
    requires ValidSchema(sch) && FieldTyped(sch, f, v) && f.many && (f.kind.KString? || f.kind.KStruct?)
    ensures Prepend([], Items(sch, f, v, 0)) == Items(sch, f, v, 0)
  {
    var r := Items(sch, f, v, 0);
    if r.Some? { assert [] + r.value == r.value; }
  }

  // Writing.

  /** fill_size after the content was written behind it. */
  method FillSize(buffer: array<Byte>, at: nat, size: int, n: nat)
    requires at + size <= buffer.Length && 4 + n <= size
    modifies buffer
    ensures buffer[..at] == old(buffer[..at]) && buffer[at + size..] == old(buffer[at + size..])
    ensures buffer[at..at + 4 + n] == Len(old(buffer[at + 4..at + 4 + n]))
  {
    hide Le;
    ghost var buf := buffer[..];
    Store(buffer, at, Le(4, n));
    SameAfter(buffer[..], buf, at + 4, at + 4, at + 4 + n);
    SameAfter(buffer[..], buf, at + 4, at + size, at + size);
    Joined(buffer[..], at, at + 4, at + 4 + n);
  }

  /** The callback for a string or a struct: its size, or -1. */
  method WriteContent(buffer: array<Byte>, at: nat, size: nat, sch: Schema, k: Kind, v: Value) returns (r: int)
    requires ValidSchema(sch) && Typed(sch, k, v) && (k.KString? || k.KStruct?) && at + size <= buffer.Length
    modifies buffer
    ensures buffer[..at] == old(buffer[..at]) && buffer[at + size..] == old(buffer[at + size..])
    ensures r >= 0 ==> r <= size && r <= RoomContent(sch, k, v) && Content(sch, k, v) == Some(buffer[at..at + r])
    ensures size >= RoomContent(sch, k, v) && Content(sch, k, v).Some? ==> r >= 0
    decreases v, 3
  {
    if k.KString? {
      if |v.s| > size { return -1; }
      ghost var buf := buffer[..];
      Store(buffer, at, v.s);
      SameAfter(buffer[..], buf, at + |v.s|, at + size, at + size);
      return |v.s|;
    }
    r := WriteStruct(buffer, at, size, sch, k.ty, v);
  }

  /** encode_object */
  method WriteObject(buffer: array<Byte>, at: nat, size: nat, sch: Schema, k: Kind, v: Value) returns (r: int)
    requires ValidSchema(sch) && Typed(sch, k, v) && (k.KString? || k.KStruct?) && at + size <= buffer.Length
    modifies buffer
    ensures buffer[..at] == old(buffer[..at]) && buffer[at + size..] == old(buffer[at + size..])
    ensures r >= 0 ==> 4 <= r <= size && r <= 4 + RoomContent(sch, k, v)
                       && Content(sch, k, v).Some? && buffer[at..at + r] == Len(Content(sch, k, v).value)
    ensures size >= 4 + RoomContent(sch, k, v) && Content(sch, k, v).Some? ==> r >= 0
    decreases v, 4
  {
    hide Content, RoomContent, Len, Typed;
    if size < 4 { return -1; }
    ghost var buf := buffer[..];
    var sz := WriteContent(buffer, at + 4, size - 4, sch, k, v);
    SameBefore(buffer[..], buf, at + 4, 0, at);
    if sz < 0 { return -1; }
    ghost var content := buffer[at + 4..at + 4 + sz];
    FillSize(buffer, at, size, sz);
    return 4 + sz;
  }

  /** The loop of encode_array over strings or structs: the end of the data, or -1. */
  method WriteItems(buffer: array<Byte>, at: nat, size: nat, sch: Schema, f: Field, v: Value) returns (end: int)
    requires ValidSchema(sch) && FieldTyped(sch, f, v) && f.many && (f.kind.KString? || f.kind.KStruct?)
             && at + size <= buffer.Length
    modifies buffer
    ensures buffer[..at] == old(buffer[..at]) && buffer[at + size..] == old(buffer[at + size..])
    ensures end >= 0 ==> at <= end <= at + size && end - at <= RoomItems(sch, f, v, 0)
    ensures end >= 0 ==> Items(sch, f, v, 0) == Some(buffer[at..end])
    ensures size >= RoomItems(sch, f, v, 0) && Items(sch, f, v, 0).Some? ==> end >= 0
    decreases v, 4
  {
    hide Content, Items, RoomItems, RoomContent, Len;
    var b, left, j := at, size, 0;
    ghost var room := RoomItems(sch, f, v, 0);
    ItemsStart(sch, f, v);
    assert buffer[at..b] == [];
    while true
      invariant 0 <= j <= |v.items| && at <= b && left == at + size - b >= 0
      invariant Items(sch, f, v, 0) == Prepend(buffer[at..b], Items(sch, f, v, j))
      invariant b - at + RoomItems(sch, f, v, j) <= room
      invariant buffer[..at] == old(buffer[..at]) && buffer[at + size..] == old(buffer[at + size..])
      decreases |v.items| - j
    {
      ghost var buf, written := buffer[..], buffer[at..b];
      if j == |v.items| { ItemsEnd(sch, f, v, written); } else { ItemsUnfold(sch, f, v, j, written); }
      if left < 4 { return -1; }
      if j == |v.items| { break; }
      var sz := WriteContent(buffer, b + 4, left - 4, sch, f.kind, v.items[j]);
      SameBefore(buffer[..], buf, b + 4, 0, b);
      SameBefore(buffer[..], buf, b, 0, at);
      if sz < 0 { return -1; }
      ghost var mid := buffer[..];
      FillSize(buffer, b, left, sz);
      ghost var now := buffer[..];
      SameBefore(now, mid, b, 0, at);
      SameBefore(now, buf, b, at, b);
      Joined(now, at, b, b + 4 + sz);
      b, left, j := b + 4 + sz, left - 4 - sz, j + 1;
    }
    return b;
  }

  /** The loop of encode_array over booleans. */
  method WriteBools(buffer: array<Byte>, at: nat, size: nat, items: seq<Value>) returns (end: int)
    requires at + size <= buffer.Length
    modifies buffer
    ensures buffer[..at] == old(buffer[..at]) && buffer[at + size..] == old(buffer[at + size..])
    ensures end >= 0 <==> |items| <= size
    ensures end >= 0 ==> end == at + |items| && buffer[at..end] == BoolBytes(items)
  {
    var j := 0;
    while j < |items|
      invariant 0 <= j <= |items| && j <= size
      invariant buffer[..at] == old(buffer[..at]) && buffer[at + size..] == old(buffer[at + size..])
      invariant forall k :: 0 <= k < j ==> buffer[at + k] == BoolByte(items[k])
    {
      if size - j < 1 { return -1; }
      buffer[at + j] := BoolByte(items[j]);
      j := j + 1;
    }
    assert buffer[at..at + j] == BoolBytes(items);
    return at + j;
  }

  /** encode_array */
  method WriteArray(buffer: array<Byte>, at: nat, size: nat, sch: Schema, f: Field, v: Value) returns (sz: int)
    requires ValidSchema(sch) && FieldTyped(sch, f, v) && f.many && at + size <= buffer.Length
    modifies buffer
    ensures buffer[..at] == old(buffer[..at]) && buffer[at + size..] == old(buffer[at + size..])
    ensures sz >= 0 ==> 4 <= sz <= size && sz <= RoomField(sch, f, v)
                        && Body(sch, f, v).Some? && buffer[at..at + sz] == Len(Body(sch, f, v).value)
    ensures size >= RoomField(sch, f, v) && Body(sch, f, v).Some? ==> sz >= 0
    decreases v, 5
  {
    hide Items, RoomItems, Len, IntArray, BoolBytes, Typed;
    if size < 4 { return -1; }
    ghost var buf := buffer[..];
    var end;
    if f.kind.KInteger? {
      end := EncodeIntegerArray(buffer, at + 4, size - 4, IntsOf(v.items));
    } else if f.kind.KBoolean? {
      end := WriteBools(buffer, at + 4, size - 4, v.items);
    } else {
      end := WriteItems(buffer, at + 4, size - 4, sch, f, v);
    }
    SameBefore(buffer[..], buf, at + 4, 0, at);
    if end < 0 { return -1; }
    FillSize(buffer, at, size, end - at - 4);
    return end - at;
  }

  /** One field: the size of its data, or -1; and its header word if it has no data. */
  method WriteField(buffer: array<Byte>, at: nat, size: nat, sch: Schema, f: Field, v: Value)
    returns (sz: int, value: nat)
    requires ValidSchema(sch) && FieldTyped(sch, f, v) && at + size <= buffer.Length
    modifies buffer
    ensures buffer[..at] == old(buffer[..at]) && buffer[at + size..] == old(buffer[at + size..])
    ensures sz >= 0 ==> value == Inline(f, v)
    ensures sz >= 0 && value == 0 ==> 4 <= sz <= size && sz <= RoomField(sch, f, v)
                                      && Body(sch, f, v).Some? && buffer[at..at + sz] == Len(Body(sch, f, v).value)
    ensures size >= RoomField(sch, f, v) && (Inline(f, v) == 0 ==> Body(sch, f, v).Some?) ==> sz >= 0
    decreases v, 6
  {
    value := 0;
    if f.many {
      sz := WriteArray(buffer, at, size, sch, f, v);
    } else if v.Int? {
      if Fits32(v.i) && v.i % TwoTo32 < 0x7fff {
        sz, value := 2, (v.i % TwoTo32 + 1) * 2;
      } else {
        sz := WriteInteger(buffer, at, size, v.i);
      }
    } else if v.Bool? {
      sz, value := 2, (BoolByte(v) + 1) * 2;
    } else {
      sz := WriteObject(buffer, at, size, sch, f.kind, v);
    }
  }

  /** encode_integer and encode_uint64 */
  method WriteInteger(buffer: array<Byte>, at: nat, size: nat, i: int) returns (sz: int)
    requires at + size <= buffer.Length
    modifies buffer
    ensures buffer[..at] == old(buffer[..at]) && buffer[at + size..] == old(buffer[at + size..])
    ensures sz >= 0 ==> 4 <= sz <= size && sz <= 12 && buffer[at..at + sz] == Len(IntBytes(i))
    ensures size >= 12 ==> sz >= 0
  {
    hide Le;
    var bytes := IntBytes(i);
    if size < 4 + |bytes| { return -1; }
    ghost var buf := buffer[..];
    Store(buffer, at, Len(bytes));
    SameAfter(buffer[..], buf, at + 4 + |bytes|, at + size, at + size);
    return 4 + |bytes|;
  }

  // A struct.

  type Parted = Option<(seq<nat>, seq<Byte>)>

  function Joining(ws: seq<nat>, data: seq<Byte>, r: Parted): Parted {
    if r.None? then None else Some((ws + r.value.0, data + r.value.1))
  }

  lemma JoiningTwice(ws: seq<nat>, data: seq<Byte>, ws': seq<nat>, data': seq<Byte>, r: Parted)
    ensures Joining(ws, data, Joining(ws', data', r)) == Joining(ws + ws', data + data', r)
  {
    if r.Some? {
      assert ws + (ws' + r.value.0) == (ws + ws') + r.value.0;
      assert data + (data' + r.value.1) == (data + data') + r.value.1;
    }
  }

  function Chunk(word: nat, body: seq<Byte>): seq<Byte> {
    if word != 0 then [] else Len(body)
  }

  /** The records from a field on, in terms of those after it. */
  lemma RecordsUnfold(sch: Schema, ty: nat, v: Value, i: nat, last: int, ws: seq<nat>, data: seq<Byte>)
    requires ValidSchema(sch) && v.Struct? && Typed(sch, KStruct(ty), v) && i < |v.vals| && !v.vals[i].Nil?
    ensures var f, x := sch[ty][i], v.vals[i];
            var gap, word := f.tag - last - 1, Inline(f, x);
            var body := if word != 0 then Some([]) else Body(sch, f, x);
            Joining(ws, data, Records(sch, ty, v, i, last)) ==
              if body.None? || (gap - 1) * 2 + 1 > 0xffff then None
              else Joining(ws + (GapWords(gap) + [word]), data + Chunk(word, body.value),
                           Records(sch, ty, v, i + 1, f.tag))
    ensures RoomFields(sch, ty, v, i) == RoomField(sch, sch[ty][i], v.vals[i]) + RoomFields(sch, ty, v, i + 1)
  {
    hide Inline, Body, Len, RoomField, Joining;
    var f, x := sch[ty][i], v.vals[i];
    var gap, word := f.tag - last - 1, Inline(f, x);
    var body := if word != 0 then Some([]) else Body(sch, f, x);
    if body.Some? && (gap - 1) * 2 + 1 <= 0xffff {
      JoinsRest(sch, ty, v, i, last, word, body.value);
      JoiningTwice(ws, data, GapWords(gap) + [word], Chunk(word, body.value), Records(sch, ty, v, i + 1, f.tag));
    } else {
      JoiningNone(ws, data);
    }
  }

  lemma JoiningNone(ws: seq<nat>, data: seq<Byte>)
    ensures Joining(ws, data, None) == None
  {
  }

  lemma JoinsRest(sch: Schema, ty: nat, v: Value, i: nat, last: int, word: nat, body: seq<Byte>)
    requires ValidSchema(sch) && v.Struct? && Typed(sch, KStruct(ty), v) && i < |v.vals| && !v.vals[i].Nil?
    requires word == Inline(sch[ty][i], v.vals[i]) && (word == 0 ==> Body(sch, sch[ty][i], v.vals[i]) == Some(body))
    requires word != 0 ==> body == []
    requires (sch[ty][i].tag - last - 2) * 2 + 1 <= 0xffff
    ensures Records(sch, ty, v, i, last)
         == Joining(GapWords(sch[ty][i].tag - last - 1) + [word], Chunk(word, body),
                    Records(sch, ty, v, i + 1, sch[ty][i].tag))
  {
    hide Inline, Body, Len;
  }

  lemma RecordsSkip(sch: Schema, ty: nat, v: Value, i: nat, last: int)
    requires ValidSchema(sch) && v.Struct? && Typed(sch, KStruct(ty), v) && i < |v.vals| && v.vals[i].Nil?
    ensures Records(sch, ty, v, i, last) == Records(sch, ty, v, i + 1, last)
    ensures RoomFields(sch, ty, v, i) == RoomFields(sch, ty, v, i + 1)
  {
  }

  /** In the buffer: the header words behind their number, and the data behind the space for
      the longest header. */
  ghost predicate Laid(s: seq<Byte>, at: nat, hsz: nat, d: nat, ws: seq<nat>, data: seq<Byte>) {
    && 2 + 2 * |ws| <= hsz && at + hsz <= d <= |s|
    && s[at + 2..at + 2 + 2 * |ws|] == Words(ws)
    && s[at + hsz..d] == data
  }

  lemma LaidData(buf: seq<Byte>, now: seq<Byte>, at: nat, hsz: nat, d: nat, n: nat, ws: seq<nat>, data: seq<Byte>,
                 chunk: seq<Byte>)
    requires Laid(buf, at, hsz, d, ws, data) && |now| == |buf| && d + n <= |now| && now[..d] == buf[..d]
             && now[d..d + n] == chunk
    ensures Laid(now, at, hsz, d + n, ws, data + chunk)
  {
    hide Words;
    SameBefore(now, buf, d, at + 2, at + 2 + 2 * |ws|);
    SameBefore(now, buf, d, at + hsz, d);
    Joined(now, at + hsz, d, d + n);
  }

  lemma {:induction false} WordsMore(ws: seq<nat>, w: nat)
    ensures Words(ws + [w]) == Words(ws) + Le(2, w)
    decreases |ws|
  {
    hide Le;
    if ws == [] {
      assert ws + [w] == [w];
    } else {
      assert (ws + [w])[1..] == ws[1..] + [w];
      WordsMore(ws[1..], w);
    }
  }

  /** One more header word. */
  method WriteWord(buffer: array<Byte>, at: nat, size: nat, hsz: nat, d: nat, index: nat, w: nat, ghost ws: seq<nat>,
                   ghost data: seq<Byte>)
    requires at + size <= buffer.Length && d <= at + size && index == |ws|
    requires Laid(buffer[..], at, hsz, d, ws, data) && 2 + 2 * |ws| + 2 <= hsz
    modifies buffer
    ensures Laid(buffer[..], at, hsz, d, ws + [w], data)
    ensures buffer[..at] == old(buffer[..at]) && buffer[at + size..] == old(buffer[at + size..])
  {
    hide Words, Le;
    ghost var buf, p := buffer[..], at + 2 + 2 * index;
    Store(buffer, at + 2 + 2 * index, Le(2, w));
    ghost var now := buffer[..];
    SameBefore(now, buf, p, at + 2, p);
    SameBefore(now, buf, p, 0, at);
    SameAfter(now, buf, p + 2, at + hsz, d);
    SameAfter(now, buf, p + 2, at + size, at + size);
    Joined(now, at + 2, p, p + 2);
    WordsMore(ws, w);
  }

  /** The header words of one field. */
  method WriteEntry(buffer: array<Byte>, at: nat, size: nat, hsz: nat, d: nat, index: nat, gap: int, value: nat,
                    ghost ws: seq<nat>, ghost data: seq<Byte>)
    returns (ok: bool, n: nat)
    requires at + size <= buffer.Length && d <= at + size && index == |ws|
    requires Laid(buffer[..], at, hsz, d, ws, data) && 2 + 2 * |ws| + (if gap > 0 then 4 else 2) <= hsz
    modifies buffer
    ensures ok <==> (gap - 1) * 2 + 1 <= 0xffff
    ensures n == index + (if gap > 0 then 2 else 1) || !ok
    ensures ok ==> n == |ws + (GapWords(gap) + [value])|
    ensures ok ==> Laid(buffer[..], at, hsz, d, ws + (GapWords(gap) + [value]), data)
    ensures buffer[..at] == old(buffer[..at]) && buffer[at + size..] == old(buffer[at + size..])
  {
    hide Laid;
    n := index;
    ghost var ws' := ws;
    if gap > 0 {
      var tag := (gap - 1) * 2 + 1;
      if tag > 0xffff { return false, n; }
      WriteWord(buffer, at, size, hsz, d, n, tag, ws, data);
      n, ws' := n + 1, ws + [tag];
    }
    WriteWord(buffer, at, size, hsz, d, n, value, ws', data);
    assert ws' + [value] == ws + (GapWords(gap) + [value]);
    return true, n + 1;
  }

  /** One field of sproto_encode that is not nil: its data and its header words. */
  method WriteOne(buffer: array<Byte>, at: nat, size: nat, hsz: nat, d: nat, index: nat, sch: Schema, f: Field,
                  x: Value, gap: int, ghost ws: seq<nat>, ghost data: seq<Byte>)
    returns (ok: bool, n: nat, value: nat, count: nat, ghost chunk: seq<Byte>)
    requires ValidSchema(sch) && FieldTyped(sch, f, x) && at + size <= buffer.Length && d <= at + size && index == |ws|
    requires Laid(buffer[..], at, hsz, d, ws, data) && 2 + 2 * |ws| + (if gap > 0 then 4 else 2) <= hsz && at <= d
    modifies buffer
    ensures ok ==> (gap - 1) * 2 + 1 <= 0xffff && value == Inline(f, x) && n == |chunk| && d + n <= at + size
    ensures ok && value == 0 ==> Body(sch, f, x).Some? && chunk == Len(Body(sch, f, x).value)
    ensures ok && value != 0 ==> chunk == []
    ensures ok ==> n <= RoomField(sch, f, x)
    ensures ok ==> count == index + (if gap > 0 then 2 else 1) == |ws + (GapWords(gap) + [value])|
    ensures ok ==> Laid(buffer[..], at, hsz, d + n, ws + (GapWords(gap) + [value]), data + chunk)
    ensures !ok ==> || (gap - 1) * 2 + 1 > 0xffff
                    || (Inline(f, x) == 0 && Body(sch, f, x).None?)
                    || at + size - d < RoomField(sch, f, x)
    ensures buffer[..at] == old(buffer[..at]) && buffer[at + size..] == old(buffer[at + size..])
    decreases x, 7
  {
    hide RoomField, Body, Inline, Laid, Len, GapWords;
    ghost var buf := buffer[..];
    var sz;
    sz, value := WriteField(buffer, d, at + size - d, sch, f, x);
    SameBefore(buffer[..], buf, d, 0, at);
    if sz < 0 { return false, 0, 0, 0, []; }
    n := if value == 0 then sz else 0;
    chunk := buffer[d..d + n];
    LaidData(buf, buffer[..], at, hsz, d, n, ws, data, chunk);
    ok, count := WriteEntry(buffer, at, size, hsz, d + n, index, gap, value, ws, data + chunk);
  }

  /** The end of sproto_encode: the data moves up behind the header words. */
  method WriteHeader(buffer: array<Byte>, at: nat, size: nat, hsz: nat, d: nat, index: nat, ghost ws: seq<nat>,
                     ghost data: seq<Byte>)
    requires at + size <= buffer.Length && d <= at + size && index == |ws| && Laid(buffer[..], at, hsz, d, ws, data)
    modifies buffer
    ensures buffer[..at] == old(buffer[..at]) && buffer[at + size..] == old(buffer[at + size..])
    ensures 2 + 2 * index + |data| <= size
    ensures buffer[at..at + 2 + 2 * index + |data|] == Le(2, |ws|) + (Words(ws) + data)
  {
    hide Words, Le, Laid;
    ghost var buf := buffer[..];
    LaidParts(buf, at, hsz, d, ws, data);
    Store(buffer, at, Le(2, index));
    ghost var mid := buffer[..];
    var p := at + 2 + 2 * index;
    Store(buffer, p, buffer[at + hsz..d]);
    MovedUp(buf, mid, buffer[..], at, at + size, p, p + |data|, at + hsz, d, Le(2, index), Words(ws), data);
  }

  lemma LaidParts(s: seq<Byte>, at: nat, hsz: nat, d: nat, ws: seq<nat>, data: seq<Byte>)
    requires Laid(s, at, hsz, d, ws, data)
    ensures 2 + 2 * |ws| <= hsz && at + hsz <= d <= |s| && |data| == d - at - hsz
    ensures s[at + 2..at + 2 + 2 * |ws|] == Words(ws) && s[at + hsz..d] == data
  {
  }

  lemma MovedUp(buf: seq<Byte>, mid: seq<Byte>, now: seq<Byte>, at: nat, end: nat, p: nat, q: nat, from: nat, d: nat,
                head: seq<Byte>, words: seq<Byte>, data: seq<Byte>)
    requires at + 2 <= p <= from <= d <= end <= |buf| == |mid| == |now| && q == p + (d - from)
    requires buf[at + 2..p] == words && buf[from..d] == data && mid[at..at + 2] == head
    requires mid[..at] == buf[..at] && mid[at + 2..] == buf[at + 2..]
    requires now[p..q] == mid[from..d] && now[..p] == mid[..p] && now[q..] == mid[q..]
    ensures now[..at] == buf[..at] && now[end..] == buf[end..] && now[at..q] == head + (words + data)
  {
    MovedFrame(buf, mid, now, at, end, p, q);
    MovedParts(buf, mid, now, at, p, from, d);
    Three(now, at, at + 2, p, q);
  }

  lemma MovedFrame(buf: seq<Byte>, mid: seq<Byte>, now: seq<Byte>, at: nat, end: nat, p: nat, q: nat)
    requires at + 2 <= p <= q <= end <= |buf| == |mid| == |now|
    requires mid[..at] == buf[..at] && mid[at + 2..] == buf[at + 2..] && now[..p] == mid[..p] && now[q..] == mid[q..]
    ensures now[..at] == buf[..at] && now[end..] == buf[end..]
  {
    SameBefore(now, mid, p, 0, at);
    SameAfter(mid, buf, at + 2, end, end);
    SameAfter(now, mid, q, end, end);
  }

  lemma MovedParts(buf: seq<Byte>, mid: seq<Byte>, now: seq<Byte>, at: nat, p: nat, from: nat, d: nat)
    requires at + 2 <= p <= from <= d <= |buf| == |mid| == |now|
    requires mid[at + 2..] == buf[at + 2..] && now[..p] == mid[..p]
    ensures now[at..at + 2] == mid[at..at + 2] && now[at + 2..p] == buf[at + 2..p] && mid[from..d] == buf[from..d]
  {
    SameAfter(mid, buf, at + 2, at + 2, p);
    SameAfter(mid, buf, at + 2, from, d);
    SameBefore(now, mid, p, at, at + 2);
    SameBefore(now, mid, p, at + 2, p);
  }

  lemma Three(s: seq<Byte>, a: nat, b: nat, c: nat, d: nat)
    requires a <= b <= c <= d <= |s|
    ensures s[a..d] == s[a..b] + (s[b..c] + s[c..d])
  {
  }

  function Slack(fields: seq<Field>, i: nat, last: int): nat
    requires i <= |fields|
  {
    if last < Before(fields, i) then 1 else 0
  }

  lemma MaxNStep(fields: seq<Field>, i: nat)
    requires i < |fields|
    ensures MaxN(fields[i..], Before(fields, i)) ==
            1 + (if fields[i].tag > Before(fields, i) + 1 then 1 else 0) + MaxN(fields[i + 1..], Before(fields, i + 1))
  {
    assert fields[i..][1..] == fields[i + 1..];
  }

  /** sproto_encode */
  method WriteStruct(buffer: array<Byte>, at: nat, size: nat, sch: Schema, ty: nat, v: Value) returns (r: int)
    requires ValidSchema(sch) && Typed(sch, KStruct(ty), v) && at + size <= buffer.Length
    modifies buffer
    ensures buffer[..at] == old(buffer[..at]) && buffer[at + size..] == old(buffer[at + size..])
    ensures r >= 0 ==> r <= size && r <= RoomContent(sch, KStruct(ty), v)
    ensures r >= 0 ==> EncodeStruct(sch, ty, v) == Some(buffer[at..at + r])
    ensures size >= RoomContent(sch, KStruct(ty), v) && EncodeStruct(sch, ty, v).Some? ==> r >= 0
    decreases v, 2
  {
    hide Records, RoomFields, RoomField, Body, Inline, Laid, MaxN, Len, Words, Le, Joining, GapWords;
    var fields := sch[ty];
    var maxn := MaxN(fields, -1);
    var hsz := 2 + 2 * maxn;
    if size < hsz { return -1; }
    ghost var all, room := Records(sch, ty, v, 0, -1), RoomFields(sch, ty, v, 0);
    ghost var ws: seq<nat>, data: seq<Byte> := [], [];
    var d, left, index, last, i := at + hsz, size - hsz, 0, -1, 0;
    LaidNone(buffer[..], at, hsz);
    JoiningStart(all);
    assert fields[0..] == fields;
    while i < |fields|
      invariant 0 <= i <= |fields| && last <= Before(fields, i) && index == |ws| && left == at + size - d >= 0
      invariant d == at + hsz + |data| && Laid(buffer[..], at, hsz, d, ws, data)
      invariant all == Joining(ws, data, Records(sch, ty, v, i, last))
      invariant |data| + RoomFields(sch, ty, v, i) <= room
      invariant index + MaxN(fields[i..], Before(fields, i)) + Slack(fields, i, last) <= maxn
      invariant buffer[..at] == old(buffer[..at]) && buffer[at + size..] == old(buffer[at + size..])
    {
      var f, x := fields[i], v.vals[i];
      MaxNStep(fields, i);
      if x.Nil? {
        RecordsSkip(sch, ty, v, i, last);
      } else {
        RecordsUnfold(sch, ty, v, i, last, ws, data);
        var ok, n, value, count, chunk := WriteOne(buffer, at, size, hsz, d, index, sch, f, x, f.tag - last - 1, ws,
                                                   data);
        if !ok { return -1; }
        ws := ws + (GapWords(f.tag - last - 1) + [value]);
        d, left, index, last := d + n, left - n, count, f.tag;
        data := data + chunk;
      }
      i := i + 1;
    }
    RecordsDone(sch, ty, v, last, ws, data);
    JoiningNone(ws, data);
    WriteHeader(buffer, at, size, hsz, d, index, ws, data);
    return 2 + 2 * index + (d - at - hsz);
  }

  lemma LaidNone(s: seq<Byte>, at: nat, hsz: nat)
    requires 2 <= hsz && at + hsz <= |s|
    ensures Laid(s, at, hsz, at + hsz, [], [])
  {
  }

  lemma JoiningStart(r: Parted)
    ensures Joining([], [], r) == r
  {
    if r.Some? { assert [] + r.value.0 == r.value.0 && [] + r.value.1 == r.value.1; }
  }

  lemma RecordsDone(sch: Schema, ty: nat, v: Value, last: int, ws: seq<nat>, data: seq<Byte>)
    requires ValidSchema(sch) && v.Struct? && Typed(sch, KStruct(ty), v)
    ensures Joining(ws, data, Records(sch, ty, v, |v.vals|, last)) == Some((ws, data))
    ensures RoomFields(sch, ty, v, |v.vals|) == 0
  {
    assert ws + [] == ws && data + [] == data;
  }
}
