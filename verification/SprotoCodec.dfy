/** The sproto codec (lib/sproto/sproto.c) together with the callbacks that give it the values
    of a record and take them back (lib/sproto/lsproto.c). */
module SprotoCodec {
  import opened Wrappers
  import opened LittleEndian

  // Schemas and values.

  datatype Kind = KInteger | KBoolean | KString | KStruct(ty: nat)

  datatype Field = Field(tag: nat, kind: Kind, many: bool)

  type Schema = seq<seq<Field>>

  /** The number of header entries that are enough for any record of the type: one for every
      field and one for every gap between the tags. */
  function MaxN(fields: seq<Field>, last: int): nat {
    if fields == [] then 0
    else 1 + (if fields[0].tag > last + 1 then 1 else 0) + MaxN(fields[1..], fields[0].tag)
  }

  predicate Ascending(fields: seq<Field>) {
    forall i, j :: 0 <= i < j < |fields| ==> fields[i].tag < fields[j].tag
  }

  /** What the import of a schema makes sure of. */
  predicate ValidSchema(sch: Schema) {
    forall ty :: 0 <= ty < |sch| ==>
      && Ascending(sch[ty])
      && MaxN(sch[ty], -1) <= 0xffff
      && forall i :: 0 <= i < |sch[ty]| && sch[ty][i].kind.KStruct? ==> sch[ty][i].kind.ty < |sch|
  }

  /** A record has a value or nil for every field of its type. */
  datatype Value =
    | Nil
    | Int(i: int)
    | Bool(b: bool)
    | Str(s: seq<Byte>)
    | Struct(vals: seq<Value>)
    | Array(items: seq<Value>)

  const TwoTo32: int := 0x1_0000_0000
  const TwoTo64: int := 0x1_0000_0000_0000_0000

  predicate Fits32(i: int) {
    -0x8000_0000 <= i < 0x8000_0000
  }

  predicate Fits64(i: int) {
    -0x8000_0000_0000_0000 <= i < 0x8000_0000_0000_0000
  }

  predicate Typed(sch: Schema, k: Kind, v: Value)
    decreases v, 0
  {
    match v
    case Int(i) => k.KInteger? && Fits64(i)
    case Bool(_) => k.KBoolean?
    case Str(_) => k.KString?
    case Struct(vals) =>
      && k.KStruct? && k.ty < |sch| && |vals| == |sch[k.ty]|
      && forall i :: 0 <= i < |vals| && !vals[i].Nil? ==> FieldTyped(sch, sch[k.ty][i], vals[i])
    case _ => false
  }

  predicate FieldTyped(sch: Schema, f: Field, v: Value)
    decreases v, 1
  {
    if f.many then v.Array? && forall j :: 0 <= j < |v.items| ==> Typed(sch, f.kind, v.items[j])
    else Typed(sch, f.kind, v)
  }

  // Encoding.

  function Len(x: seq<Byte>): seq<Byte> {
    Le(4, |x|) + x
  }

  function IntBytes(i: int): seq<Byte> {
    if Fits32(i) then IntLe(4, i) else IntLe(8, i)
  }

  predicate AllFit32(xs: seq<int>) {
    forall j :: 0 <= j < |xs| ==> Fits32(xs[j])
  }

  /** An integer in n bytes, four or eight. */
  function IntLe(n: nat, x: int): (s: seq<Byte>)
    ensures |s| == n
  {
    Le(n, x % if n == 4 then TwoTo32 else TwoTo64)
  }

  function Ints(n: nat, xs: seq<int>): seq<Byte> {
    if xs == [] then [] else IntLe(n, xs[0]) + Ints(n, xs[1..])
  }

  /** An integer array: the width of the elements, four bytes if all of them fit, and then the
      elements; nothing for the empty array. */
  function IntArray(xs: seq<int>): seq<Byte> {
    if xs == [] then [] else if AllFit32(xs) then [4] + Ints(4, xs) else [8] + Ints(8, xs)
  }

  function IntsOf(items: seq<Value>): (xs: seq<int>)
    ensures |xs| == |items|
  {
    seq(|items|, j requires 0 <= j < |items| => if items[j].Int? then items[j].i else 0)
  }

  function BoolByte(v: Value): Byte {
    if v == Bool(true) then 1 else 0
  }

  function BoolBytes(items: seq<Value>): (s: seq<Byte>)
    ensures |s| == |items|
  {
    seq(|items|, j requires 0 <= j < |items| => BoolByte(items[j]))
  }

  /** The header word of a value that is kept in the header, or zero. */
  function Inline(f: Field, v: Value): (w: nat)
    ensures w % 2 == 0 && w <= 0xfffe
  {
    if f.many then 0
    else if v.Int? && Fits32(v.i) && v.i % TwoTo32 < 0x7fff then (v.i % TwoTo32 + 1) * 2
    else if v.Bool? then (BoolByte(v) + 1) * 2
    else 0
  }

  /** A string or a struct. */
  function Content(sch: Schema, k: Kind, v: Value): Option<seq<Byte>>
    requires ValidSchema(sch) && Typed(sch, k, v) && (k.KString? || k.KStruct?)
    decreases v, 3
  {
    if k.KString? then Some(v.s) else EncodeStruct(sch, k.ty, v)
  }

  /** The strings or structs of an array from the j-th on. */
  function Items(sch: Schema, f: Field, v: Value, j: nat): Option<seq<Byte>>
    requires ValidSchema(sch) && FieldTyped(sch, f, v) && f.many && (f.kind.KString? || f.kind.KStruct?)
             && j <= |v.items|
    decreases v, 4, |v.items| - j
  {
    if j == |v.items| then Some([])
    else
      var x := Content(sch, f.kind, v.items[j]);
      var rest := Items(sch, f, v, j + 1);
      if x.None? || rest.None? then None else Some(Len(x.value) + rest.value)
  }

  /** The data of a field that is not kept in the header. */
  function Body(sch: Schema, f: Field, v: Value): Option<seq<Byte>>
    requires ValidSchema(sch) && FieldTyped(sch, f, v) && Inline(f, v) == 0
    decreases v, 5
  {
    if f.many then
      match f.kind
      case KInteger => Some(IntArray(IntsOf(v.items)))
      case KBoolean => Some(BoolBytes(v.items))
      case _ => Items(sch, f, v, 0)
    else if v.Int? then Some(IntBytes(v.i))
    else Content(sch, f.kind, v)
  }

  /** The header words for skipped tags. */
  function GapWords(gap: int): seq<nat> {
    if gap > 0 then [(gap - 1) * 2 + 1] else []
  }

  /** The header words and the data of the fields from the i-th on, after the tag `last`. */
  function Records(sch: Schema, ty: nat, v: Value, i: nat, last: int): Option<(seq<nat>, seq<Byte>)>
    requires ValidSchema(sch) && v.Struct? && Typed(sch, KStruct(ty), v) && i <= |v.vals|
    decreases v, 1, |v.vals| - i
  {
    if i == |v.vals| then Some(([], []))
    else if v.vals[i].Nil? then Records(sch, ty, v, i + 1, last)
    else
      var f, x := sch[ty][i], v.vals[i];
      var gap := f.tag - last - 1;
      var word := Inline(f, x);
      var body := if word != 0 then Some([]) else Body(sch, f, x);
      var rest := Records(sch, ty, v, i + 1, f.tag);
      if body.None? || rest.None? || (gap - 1) * 2 + 1 > 0xffff then None
      else Some((GapWords(gap) + [word] + rest.value.0, (if word != 0 then [] else Len(body.value)) + rest.value.1))
  }

  function Words(ws: seq<nat>): (s: seq<Byte>)
    ensures |s| == 2 * |ws|
  {
    if ws == [] then [] else Le(2, ws[0]) + Words(ws[1..])
  }

  /** sproto_encode; none if a gap between tags is too large for a header word. */
  function EncodeStruct(sch: Schema, ty: nat, v: Value): Option<seq<Byte>>
    requires ValidSchema(sch) && Typed(sch, KStruct(ty), v)
    decreases v, 2
  {
    var r := Records(sch, ty, v, 0, -1);
    if r.None? then None else Some(Le(2, |r.value.0|) + (Words(r.value.0) + r.value.1))
  }

  // Decoding.

  function Word(b: seq<Byte>, p: nat): nat
    requires p + 2 <= |b|
  {
    Val(b[p..p + 2])
  }

  function Dword(b: seq<Byte>, p: nat): nat
    requires p + 4 <= |b|
  {
    Val(b[p..p + 4])
  }

  /** A 64-bit word read as a signed number, and a 32-bit one extended to it. */
  function Signed64(u: nat): int {
    if u >= 0x8000_0000_0000_0000 then u - TwoTo64 else u
  }

  function Expand64(u: nat): nat {
    if u >= 0x8000_0000 then u + (TwoTo64 - TwoTo32) else u
  }

  function IntOf(b: seq<Byte>): Option<Value> {
    if |b| == 4 then Some(Int(Signed64(Expand64(Val(b)))))
    else if |b| == 8 then Some(Int(Signed64(Val(b))))
    else None
  }

  function IntItems(n: nat, b: seq<Byte>): Option<seq<Value>>
    requires n == 4 || n == 8
  {
    if b == [] then Some([])
    else if |b| < n then None
    else
      var x, rest := IntOf(b[..n]), IntItems(n, b[n..]);
      if x.None? || rest.None? then None else Some([x.value] + rest.value)
  }

  /** findtag */
  function FindTag(fields: seq<Field>, tag: int): (r: Option<nat>)
    ensures r.Some? ==> r.value < |fields| && fields[r.value].tag == tag
    ensures r.None? ==> forall i :: 0 <= i < |fields| ==> fields[i].tag != tag
  {
    if fields == [] then None
    else if fields[0].tag == tag then Some(0)
    else
      var r := FindTag(fields[1..], tag);
      if r.None? then None else Some(r.value + 1)
  }

  /** A string or a struct; a struct has to use all its bytes. */
  function DecodeContent(sch: Schema, k: Kind, b: seq<Byte>): Option<Value>
    requires ValidSchema(sch) && (k.KStruct? ==> k.ty < |sch|)
    decreases |b|, 3
  {
    match k
    case KString => Some(Str(b))
    case KStruct(ty) =>
      var r := DecodeStruct(sch, ty, b);
      if r.None? || r.value.1 != |b| then None else Some(Struct(r.value.0))
    case _ => None
  }

  /** decode_array_object */
  function DecodeItems(sch: Schema, k: Kind, b: seq<Byte>): Option<seq<Value>>
    requires ValidSchema(sch) && (k.KStruct? ==> k.ty < |sch|)
    decreases |b|, 4
  {
    if b == [] then Some([])
    else if |b| < 4 || |b| - 4 < Dword(b, 0) then None
    else
      var n := 4 + Dword(b, 0);
      var x, rest := DecodeContent(sch, k, b[4..n]), DecodeItems(sch, k, b[n..]);
      if x.None? || rest.None? then None else Some([x.value] + rest.value)
  }

  /** The value of a field from its data. */
  function DecodeBody(sch: Schema, f: Field, b: seq<Byte>): Option<Value>
    requires ValidSchema(sch) && (f.kind.KStruct? ==> f.kind.ty < |sch|)
    decreases |b|, 5
  {
    if !f.many then if f.kind.KInteger? then IntOf(b) else DecodeContent(sch, f.kind, b)
    else if b == [] then Some(Array([]))
    else
      match f.kind
      case KInteger =>
        var xs := if b[0] == 4 || b[0] == 8 then IntItems(b[0], b[1..]) else None;
        // without an element there is no call back
        if xs.None? then None else Some(if xs.value == [] then Nil else Array(xs.value))
      case KBoolean => Some(Array(seq(|b|, j requires 0 <= j < |b| => Bool(b[j] != 0))))
      case _ =>
        var xs := DecodeItems(sch, f.kind, b);
        if xs.None? then None else Some(Array(xs.value))
  }

  /** The value of a field that is in its header word. */
  function HeaderValue(f: Field, w: nat): Option<Value> {
    if f.many || f.kind.KString? || f.kind.KStruct? then None
    else if f.kind.KBoolean? then Some(Bool(w / 2 - 1 != 0))
    else Some(Int(w / 2 - 1))
  }

  /** The fields from the i-th header word on: the tag of the word before, the position of the
      data not used yet, and the values so far. */
  function DecodeFields(sch: Schema, ty: nat, b: seq<Byte>, n: nat, i: nat, tag: int, pos: nat,
                        vals: seq<Value>): Option<(seq<Value>, nat)>
    requires ValidSchema(sch) && ty < |sch| && |vals| == |sch[ty]| && i <= n && 2 + 2 * n <= pos <= |b|
    decreases |b|, 1, n - i
  {
    if i == n then Some((vals, pos))
    else
      var w := Word(b, 2 + 2 * i);
      if w % 2 == 1 then DecodeFields(sch, ty, b, n, i + 1, tag + 1 + w / 2, pos, vals)
      else if w == 0 && (|b| - pos < 4 || |b| - pos - 4 < Dword(b, pos)) then None
      else
        var next := if w == 0 then pos + 4 + Dword(b, pos) else pos;
        var at := FindTag(sch[ty], tag + 1);
        if at.None? then DecodeFields(sch, ty, b, n, i + 1, tag + 1, next, vals)
        else
          var f := sch[ty][at.value];
          var x := if w == 0 then DecodeBody(sch, f, b[pos + 4..next]) else HeaderValue(f, w);
          if x.None? then None else DecodeFields(sch, ty, b, n, i + 1, tag + 1, next, vals[at.value := x.value])
  }

  /** sproto_decode: the values and the number of bytes used. */
  function DecodeStruct(sch: Schema, ty: nat, b: seq<Byte>): Option<(seq<Value>, nat)>
    requires ValidSchema(sch) && ty < |sch|
    decreases |b|, 2
  {
    if |b| < 2 || |b| - 2 < 2 * Word(b, 0) then None
    else DecodeFields(sch, ty, b, Word(b, 0), 0, -1, 2 + 2 * Word(b, 0), seq(|sch[ty]|, _ => Nil))
  }
}
