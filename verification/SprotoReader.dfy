/** sproto_decode and its helpers as the loops of lib/sproto/sproto.c, with the callback of
    lib/sproto/lsproto.c built in; and the whole way from a record through a buffer and back. */
module SprotoReader {
  import opened Wrappers
  import opened LittleEndian
  import opened SprotoCodec
  import opened SprotoRoundTrip
  import opened SprotoWriter
  import opened SprotoWire

  /** Fields whose tags fill a range without gaps. */
  lemma {:induction false} Contiguous(fields: seq<Field>, i: nat)
    requires Ascending(fields) && i < |fields| && fields[|fields| - 1].tag - fields[0].tag + 1 == |fields|
    ensures fields[i].tag == fields[0].tag + i
  {
    AtLeast(fields, 0, i);
    AtLeast(fields, i, |fields| - 1);
  }

  lemma {:induction false} AtLeast(fields: seq<Field>, i: nat, j: nat)
    requires Ascending(fields) && i <= j < |fields|
    ensures fields[j].tag >= fields[i].tag + (j - i)
    decreases j
  {
    if i < j {
      AtLeast(fields, i, j - 1);
      assert fields[j - 1].tag < fields[j].tag;
    }
  }

  lemma FoundAt(fields: seq<Field>, tag: int, i: nat)
    requires Ascending(fields) && i < |fields| && fields[i].tag == tag
    ensures FindTag(fields, tag) == Some(i)
  {
    FindsField(fields, i);
  }

  /** findtag: by index if the tags have no gaps, by bisection otherwise. */
  method SearchTag(fields: seq<Field>, tag: int) returns (r: Option<nat>)
    requires Ascending(fields)
    ensures r == FindTag(fields, tag)
  {
    hide FindTag;
    if fields == [] || fields[|fields| - 1].tag - fields[0].tag + 1 == |fields| {
      var base := if fields == [] then 0 else fields[0].tag;
      var i := tag - base;
      forall k | 0 <= k < |fields| ensures fields[k].tag == base + k { Contiguous(fields, k); }
      if i < 0 || i >= |fields| { return None; }
      FoundAt(fields, tag, i);
      return Some(i);
    }
    var begin, end := 0, |fields|;
    while begin < end
      invariant 0 <= begin <= end <= |fields|
      invariant forall k :: 0 <= k < begin ==> fields[k].tag < tag
      invariant forall k :: end <= k < |fields| ==> fields[k].tag > tag
      decreases end - begin
    {
      var mid := (begin + end) / 2;
      if fields[mid].tag == tag {
        FoundAt(fields, tag, mid);
        return Some(mid);
      }
      if tag > fields[mid].tag { begin := mid + 1; } else { end := mid; }
    }
    return None;
  }

  // What sproto_decode does. It adds four to a length word in 32 bits, so that the largest length
  // words pass its check, and it is less than four bytes further in the stream after such a field.

  /** The callback can leave by a Lua error, and the source can read behind the bytes it was given. */
  datatype Outcome<T> = Got(value: T) | Rejected | Raised | Outside {
    predicate IsFailure() { !Got? }

    function PropagateFailure<U>(): Outcome<U>
      requires IsFailure()
    {
      match this
      case Rejected => Rejected
      case Raised => Raised
      case Outside => Outside
    }

    function Extract(): T
      requires !IsFailure()
    {
      value
    }
  }

  function From<T>(r: Option<T>): Outcome<T> {
    if r.None? then Rejected else Got(r.value)
  }

  predicate TooLong(size: nat) {
    size + 4 >= TwoTo32
  }

  /** A length word that is too long, in the middle of the stream b. */
  predicate LongAt(b: seq<Byte>, pos: nat) {
    |b| - pos >= 4 && TooLong(Dword(b, pos))
  }

  function Skip(size: nat): (n: nat)
    ensures !TooLong(size) ==> n == 4 + size
    ensures TooLong(size) && size < TwoTo32 ==> n < 4
  {
    (size + 4) % TwoTo32
  }

  /** What comes of a known field whose length word is too long. As a signed number the length is
      negative: an array of strings or structs has no element then, no record is that short and
      no string that long. Numbers have another length, and an array of them is a whole one only
      in one case. The booleans of an array are all read. */
  function LongField(f: Field, b: seq<Byte>, pos: nat, was: Value): Outcome<Value>
    requires |b| - pos >= 4
  {
    if !f.many then if f.kind.KString? then Raised else Rejected
    else
      match f.kind
      case KInteger =>
        // the first byte behind the length is the size of the numbers
        if |b| - pos == 4 || (b[pos + 4] == 4 && Dword(b, pos) == TwoTo32 - 3) then Outside else Rejected
      case KBoolean => Outside
      case _ => Got(was)
  }

  function ReadsContent(sch: Schema, k: Kind, b: seq<Byte>): Outcome<Value>
    requires ValidSchema(sch) && (k.KStruct? ==> k.ty < |sch|)
    decreases |b|, 3
  {
    if k.KString? then Got(Str(b))
    else if !k.KStruct? then Rejected
    else
      var s :- ReadsStruct(sch, k.ty, b);
      if s.1 != |b| then Rejected else Got(Struct(s.0))
  }

  function ReadsItems(sch: Schema, k: Kind, b: seq<Byte>): Outcome<seq<Value>>
    requires ValidSchema(sch) && (k.KStruct? ==> k.ty < |sch|)
    decreases |b|, 4
  {
    if b == [] then Got([])
    else if |b| < 4 || |b| - 4 < Dword(b, 0) then Rejected
    else
      var n := 4 + Dword(b, 0);
      var x :- ReadsContent(sch, k, b[4..n]);
      var rest :- ReadsItems(sch, k, b[n..]);
      Got([x] + rest)
  }

  function ReadsBody(sch: Schema, f: Field, b: seq<Byte>): Outcome<Value>
    requires ValidSchema(sch) && (f.kind.KStruct? ==> f.kind.ty < |sch|)
    decreases |b|, 5
  {
    if f.kind.KInteger? || f.kind.KBoolean? then From(DecodeBody(sch, f, b))
    else if !f.many then ReadsContent(sch, f.kind, b)
    else
      var xs :- ReadsItems(sch, f.kind, b);
      Got(Array(xs))
  }

  /** The value of a known field from its header word, after its length word if it has one. */
  function ReadsField(sch: Schema, f: Field, w: nat, b: seq<Byte>, pos: nat, was: Value): Outcome<Value>
    requires ValidSchema(sch) && (f.kind.KStruct? ==> f.kind.ty < |sch|)
    requires w == 0 ==> |b| - pos >= 4 && |b| - pos >= Skip(Dword(b, pos))
    decreases |b|, 0
  {
    if w != 0 then From(HeaderValue(f, w))
    else if TooLong(Dword(b, pos)) then LongField(f, b, pos, was)
    else ReadsBody(sch, f, b[pos + 4..pos + 4 + Dword(b, pos)])
  }

  function ReadsFields(sch: Schema, ty: nat, b: seq<Byte>, n: nat, i: nat, tag: int, pos: nat,
                       vals: seq<Value>): Outcome<(seq<Value>, nat)>
    requires ValidSchema(sch) && ty < |sch| && |vals| == |sch[ty]| && i <= n && 2 + 2 * n <= pos <= |b|
    decreases |b|, 1, n - i
  {
    if i == n then Got((vals, pos))
    else
      var w := Word(b, 2 + 2 * i);
      if w % 2 == 1 then ReadsFields(sch, ty, b, n, i + 1, tag + 1 + w / 2, pos, vals)
      else if w == 0 && (|b| - pos < 4 || |b| - pos < Skip(Dword(b, pos))) then Rejected
      else
        var next := if w == 0 then pos + Skip(Dword(b, pos)) else pos;
        var at := FindTag(sch[ty], tag + 1);
        if at.None? then ReadsFields(sch, ty, b, n, i + 1, tag + 1, next, vals)
        else
          var x :- ReadsField(sch, sch[ty][at.value], w, b, pos, vals[at.value]);
          ReadsFields(sch, ty, b, n, i + 1, tag + 1, next, vals[at.value := x])
  }

  function ReadsStruct(sch: Schema, ty: nat, b: seq<Byte>): Outcome<(seq<Value>, nat)>
    requires ValidSchema(sch) && ty < |sch|
    decreases |b|, 2
  {
    if |b| < 2 || |b| - 2 < 2 * Word(b, 0) then Rejected
    else ReadsFields(sch, ty, b, Word(b, 0), 0, -1, 2 + 2 * Word(b, 0), seq(|sch[ty]|, _ => Nil))
  }

  function Then<T>(xs: seq<T>, r: Option<seq<T>>): Option<seq<T>> {
    if r.None? then None else Some(xs + r.value)
  }

  function After<T>(xs: seq<T>, r: Outcome<seq<T>>): Outcome<seq<T>> {
    if r.Got? then Got(xs + r.value) else r
  }

  /** The integers of decode_array. */
  method ReadInts(n: nat, b: seq<Byte>) returns (r: Option<seq<Value>>)
    requires n == 4 || n == 8
    ensures r == IntItems(n, b)
  {
    hide Val;
    if |b| % n != 0 {
      Ragged(n, b);
      return None;
    }
    var i, xs: seq<Value> := 0, [];
    ThenNone(IntItems(n, b));
    assert b[0..] == b;
    while i < |b| / n
      invariant 0 <= i <= |b| / n && n * i <= |b|
      invariant IntItems(n, b) == Then(xs, IntItems(n, b[n * i..]))
    {
      IntStep(n, b[n * i..], xs);
      assert b[n * i..][n..] == b[n * (i + 1)..];
      assert b[n * i..][..n] == b[n * i..n * i + n];
      xs := xs + [IntOf(b[n * i..n * i + n]).value];
      i := i + 1;
    }
    assert b[n * i..] == [];
    assert xs + [] == xs;
    return Some(xs);
  }

  lemma ThenNone<T>(r: Option<seq<T>>)
    ensures Then([], r) == r
  {
    if r.Some? { assert [] + r.value == r.value; }
  }

  lemma IntStep(n: nat, b: seq<Byte>, xs: seq<Value>)
    requires (n == 4 || n == 8) && |b| >= n
    ensures IntOf(b[..n]).Some? && Then(xs, IntItems(n, b)) == Then(xs + [IntOf(b[..n]).value], IntItems(n, b[n..]))
  {
    hide Val;
    var x, rest := IntOf(b[..n]).value, IntItems(n, b[n..]);
    if rest.Some? { assert xs + ([x] + rest.value) == (xs + [x]) + rest.value; }
  }

  lemma {:induction false} Ragged(n: nat, b: seq<Byte>)
    requires (n == 4 || n == 8) && |b| % n != 0
    ensures IntItems(n, b).None?
    decreases |b|
  {
    if |b| >= n { Ragged(n, b[n..]); }
  }

  /** decode_array_object */
  method ReadItems(sch: Schema, k: Kind, b: seq<Byte>) returns (r: Outcome<seq<Value>>)
    requires ValidSchema(sch) && (k.KStruct? ==> k.ty < |sch|)
    ensures r == ReadsItems(sch, k, b)
    decreases |b|, 4
  {
    hide ReadsItems, ReadsContent, Dword, ValidSchema;
    var p, xs: seq<Value> := 0, [];
    AfterNothing(ReadsItems(sch, k, b));
    assert b[0..] == b;
    while p < |b|
      invariant 0 <= p <= |b| && ReadsItems(sch, k, b) == After(xs, ReadsItems(sch, k, b[p..]))
      decreases |b| - p
    {
      var rest := b[p..];
      ItemStep(sch, k, rest, xs);
      if |rest| < 4 || |rest| - 4 < Dword(rest, 0) { return Rejected; }
      var n := 4 + Dword(rest, 0);
      var x :- ReadContent(sch, k, rest[4..n]);
      assert rest[n..] == b[p + n..];
      p, xs := p + n, xs + [x];
    }
    assert b[p..] == [];
    ItemsDone(sch, k, xs);
    return Got(xs);
  }

  lemma AfterNothing<T>(r: Outcome<seq<T>>)
    ensures After([], r) == r
  {
    if r.Got? { assert [] + r.value == r.value; }
  }

  lemma ItemsDone(sch: Schema, k: Kind, xs: seq<Value>)
    requires ValidSchema(sch) && (k.KStruct? ==> k.ty < |sch|)
    ensures After(xs, ReadsItems(sch, k, [])) == Got(xs)
  {
    assert xs + [] == xs;
  }

  lemma ItemStep(sch: Schema, k: Kind, b: seq<Byte>, xs: seq<Value>)
    requires ValidSchema(sch) && (k.KStruct? ==> k.ty < |sch|) && b != []
    ensures |b| < 4 || |b| - 4 < Dword(b, 0) ==> After(xs, ReadsItems(sch, k, b)) == Rejected
    ensures |b| >= 4 && |b| - 4 >= Dword(b, 0) ==>
              var n := 4 + Dword(b, 0);
              var x := ReadsContent(sch, k, b[4..n]);
              After(xs, ReadsItems(sch, k, b)) ==
                if x.Got? then After(xs + [x.value], ReadsItems(sch, k, b[n..])) else x.PropagateFailure()
  {
    hide ReadsContent, Dword;
    if |b| >= 4 && |b| - 4 >= Dword(b, 0) {
      var n := 4 + Dword(b, 0);
      var x, rest := ReadsContent(sch, k, b[4..n]), ReadsItems(sch, k, b[n..]);
      if x.Got? && rest.Got? { assert xs + ([x.value] + rest.value) == (xs + [x.value]) + rest.value; }
    }
  }

  /** The callback for a string or a struct. */
  method ReadContent(sch: Schema, k: Kind, b: seq<Byte>) returns (r: Outcome<Value>)
    requires ValidSchema(sch) && (k.KStruct? ==> k.ty < |sch|)
    ensures r == ReadsContent(sch, k, b)
    decreases |b|, 3
  {
    hide ReadsStruct;
    if k.KString? { return Got(Str(b)); }
    if !k.KStruct? { return Rejected; }
    var s :- ReadStruct(sch, k.ty, b);
    if s.1 != |b| { return Rejected; }
    return Got(Struct(s.0));
  }

  /** The data of one field. */
  method ReadBody(sch: Schema, f: Field, b: seq<Byte>) returns (r: Outcome<Value>)
    requires ValidSchema(sch) && (f.kind.KStruct? ==> f.kind.ty < |sch|)
    ensures r == ReadsBody(sch, f, b)
    decreases |b|, 5
  {
    hide IntItems, IntOf, ReadsItems, ReadsContent, Val;
    if !f.many {
      if f.kind.KInteger? { return From(IntOf(b)); }
      r := ReadContent(sch, f.kind, b);
      if f.kind.KBoolean? { NoContent(sch, f.kind, b); }
      return;
    }
    if b == [] {
      ItemsDone(sch, f.kind, []);
      return Got(Array([]));
    }
    if f.kind.KInteger? {
      if b[0] != 4 && b[0] != 8 { return Rejected; }
      var xs := ReadInts(b[0], b[1..]);
      if xs.None? { return Rejected; }
      return Got(if xs.value == [] then Nil else Array(xs.value));
    }
    if f.kind.KBoolean? {
      return Got(Array(seq(|b|, j requires 0 <= j < |b| => Bool(b[j] != 0))));
    }
    var xs :- ReadItems(sch, f.kind, b);
    return Got(Array(xs));
  }

  lemma NoContent(sch: Schema, k: Kind, b: seq<Byte>)
    requires ValidSchema(sch) && k.KBoolean?
    ensures ReadsContent(sch, k, b) == Rejected && DecodeContent(sch, k, b) == None
  {
  }

  /** One header word of sproto_decode whose field is known. */
  method ReadField(sch: Schema, f: Field, w: nat, b: seq<Byte>, pos: nat, was: Value) returns (x: Outcome<Value>)
    requires ValidSchema(sch) && (f.kind.KStruct? ==> f.kind.ty < |sch|)
    requires w == 0 ==> |b| - pos >= 4 && |b| - pos >= Skip(Dword(b, pos))
    ensures x == ReadsField(sch, f, w, b, pos, was)
    decreases |b|, 0
  {
    hide ReadsBody;
    if w == 0 {
      var size := Dword(b, pos);
      if TooLong(size) { return LongField(f, b, pos, was); }
      x := ReadBody(sch, f, b[pos + 4..pos + 4 + size]);
      return;
    }
    if f.many || f.kind.KString? || f.kind.KStruct? { return Rejected; }
    return Got(if f.kind.KBoolean? then Bool(w / 2 - 1 != 0) else Int(w / 2 - 1));
  }

  /** sproto_decode */
  method ReadStruct(sch: Schema, ty: nat, b: seq<Byte>) returns (r: Outcome<(seq<Value>, nat)>)
    requires ValidSchema(sch) && ty < |sch|
    ensures r == ReadsStruct(sch, ty, b)
    decreases |b|, 2
  {
    hide ReadsField, FindTag, Val, Skip;
    if |b| < 2 || |b| - 2 < 2 * Word(b, 0) { return Rejected; }
    var n := Word(b, 0);
    var i: nat, tag: int, pos: nat, vals := 0, -1, 2 + 2 * n, seq(|sch[ty]|, _ => Nil);
    while i < n
      invariant 0 <= i <= n && 2 + 2 * n <= pos <= |b| && |vals| == |sch[ty]|
      invariant ReadsStruct(sch, ty, b) == ReadsFields(sch, ty, b, n, i, tag, pos, vals)
    {
      var w := Word(b, 2 + 2 * i);
      tag := tag + 1;
      if w % 2 == 1 {
        tag := tag + w / 2;
      } else {
        var current := pos;
        if w == 0 {
          if |b| - pos < 4 { return Rejected; }
          if |b| - pos < Skip(Dword(b, pos)) { return Rejected; }
          pos := pos + Skip(Dword(b, pos));
        }
        var at := SearchTag(sch[ty], tag);
        if at.Some? {
          var x :- ReadField(sch, sch[ty][at.value], w, b, current, vals[at.value]);
          vals := vals[at.value := x];
        }
      }
      i := i + 1;
    }
    return Got((vals, pos));
  }

  // Reading against decoding.

  /** What the first length word that is too long leads to, if the stream has one where decoding
      has not failed yet: the source refuses the stream as well, leaves by an error, reads behind
      the stream, or goes on behind the word. */
  datatype Fate = Clear | Refused | Raises | Strays | Skipped

  function FateOf(x: Outcome<Value>): Fate {
    match x
    case Got(_) => Skipped
    case Rejected => Refused
    case Raised => Raises
    case Outside => Strays
  }

  function FateContent(sch: Schema, k: Kind, b: seq<Byte>): Fate
    requires ValidSchema(sch) && (k.KStruct? ==> k.ty < |sch|)
    decreases |b|, 3
  {
    if k.KStruct? then FateStruct(sch, k.ty, b) else Clear
  }

  function FateItems(sch: Schema, k: Kind, b: seq<Byte>): Fate
    requires ValidSchema(sch) && (k.KStruct? ==> k.ty < |sch|)
    decreases |b|, 4
  {
    if |b| < 4 || |b| - 4 < Dword(b, 0) then Clear
    else
      var n := 4 + Dword(b, 0);
      var here := FateContent(sch, k, b[4..n]);
      if here.Clear? && DecodeContent(sch, k, b[4..n]).Some? then FateItems(sch, k, b[n..]) else here
  }

  function FateBody(sch: Schema, f: Field, b: seq<Byte>): Fate
    requires ValidSchema(sch) && (f.kind.KStruct? ==> f.kind.ty < |sch|)
    decreases |b|, 5
  {
    if f.kind.KInteger? || f.kind.KBoolean? then Clear
    else if f.many then FateItems(sch, f.kind, b)
    else FateContent(sch, f.kind, b)
  }

  function FateFields(sch: Schema, ty: nat, b: seq<Byte>, n: nat, i: nat, tag: int, pos: nat, vals: seq<Value>): Fate
    requires ValidSchema(sch) && ty < |sch| && |vals| == |sch[ty]| && i <= n && 2 + 2 * n <= pos <= |b|
    decreases |b|, 1, n - i
  {
    if i == n then Clear
    else
      var w := Word(b, 2 + 2 * i);
      var at := FindTag(sch[ty], tag + 1);
      if w % 2 == 1 then FateFields(sch, ty, b, n, i + 1, tag + 1 + w / 2, pos, vals)
      else if w == 0 && LongAt(b, pos) then
        if at.None? then Skipped else FateOf(LongField(sch[ty][at.value], b, pos, Nil))
      else if w == 0 && (|b| - pos < 4 || |b| - pos - 4 < Dword(b, pos)) then Clear
      else
        var next := if w == 0 then pos + 4 + Dword(b, pos) else pos;
        if at.None? then FateFields(sch, ty, b, n, i + 1, tag + 1, next, vals)
        else
          var f := sch[ty][at.value];
          var here := if w == 0 then FateBody(sch, f, b[pos + 4..next]) else Clear;
          var x := if w == 0 then DecodeBody(sch, f, b[pos + 4..next]) else HeaderValue(f, w);
          if here.Clear? && x.Some? then FateFields(sch, ty, b, n, i + 1, tag + 1, next, vals[at.value := x.value])
          else here
  }

  function FateStruct(sch: Schema, ty: nat, b: seq<Byte>): Fate
    requires ValidSchema(sch) && ty < |sch|
    decreases |b|, 2
  {
    if |b| < 2 || |b| - 2 < 2 * Word(b, 0) then Clear
    else FateFields(sch, ty, b, Word(b, 0), 0, -1, 2 + 2 * Word(b, 0), seq(|sch[ty]|, _ => Nil))
  }

  ghost predicate Explains<T>(fate: Fate, d: Option<T>, r: Outcome<T>) {
    match fate
    case Clear => r == From(d)
    case Refused => d.None? && r.Rejected?
    case Raises => d.None? && r.Raised?
    case Strays => d.None? && r.Outside?
    case Skipped => d.None?
  }

  lemma {:induction false} ContentFate(sch: Schema, k: Kind, b: seq<Byte>)
    requires ValidSchema(sch) && (k.KStruct? ==> k.ty < |sch|) && |b| < Limit
    ensures Explains(FateContent(sch, k, b), DecodeContent(sch, k, b), ReadsContent(sch, k, b))
    decreases |b|, 3
  {
    hide DecodeStruct, ReadsStruct, FateStruct;
    if k.KStruct? { StructFate(sch, k.ty, b); }
  }

  lemma {:induction false} ItemsFate(sch: Schema, k: Kind, b: seq<Byte>)
    requires ValidSchema(sch) && (k.KStruct? ==> k.ty < |sch|) && |b| < Limit
    ensures Explains(FateItems(sch, k, b), DecodeItems(sch, k, b), ReadsItems(sch, k, b))
    decreases |b|, 4
  {
    hide DecodeContent, ReadsContent, FateContent, Dword;
    if |b| >= 4 && |b| - 4 >= Dword(b, 0) {
      var n := 4 + Dword(b, 0);
      ContentFate(sch, k, b[4..n]);
      ItemsFate(sch, k, b[n..]);
    }
  }

  lemma {:induction false} BodyFate(sch: Schema, f: Field, b: seq<Byte>)
    requires ValidSchema(sch) && (f.kind.KStruct? ==> f.kind.ty < |sch|) && |b| < Limit
    ensures Explains(FateBody(sch, f, b), DecodeBody(sch, f, b), ReadsBody(sch, f, b))
    decreases |b|, 5
  {
    hide DecodeContent, ReadsContent, FateContent, IntItems, IntOf, Dword;
    if f.kind.KString? || f.kind.KStruct? {
      if f.many { ItemsFate(sch, f.kind, b); } else { ContentFate(sch, f.kind, b); }
    }
  }

  lemma DwordBelow(b: seq<Byte>, p: nat)
    requires p + 4 <= |b|
    ensures Dword(b, p) < TwoTo32
  {
    Powers();
    ValBelow(b[p..p + 4]);
  }

  lemma SameFate(f: Field, b: seq<Byte>, pos: nat, was: Value)
    requires |b| - pos >= 4
    ensures FateOf(LongField(f, b, pos, was)) == FateOf(LongField(f, b, pos, Nil))
  {
  }

  lemma {:induction false} FieldsFate(sch: Schema, ty: nat, b: seq<Byte>, n: nat, i: nat, tag: int, pos: nat,
                                      vals: seq<Value>)
    requires ValidSchema(sch) && ty < |sch| && |vals| == |sch[ty]| && i <= n && 2 + 2 * n <= pos <= |b| < Limit
    ensures Explains(FateFields(sch, ty, b, n, i, tag, pos, vals), DecodeFields(sch, ty, b, n, i, tag, pos, vals),
                     ReadsFields(sch, ty, b, n, i, tag, pos, vals))
    decreases |b|, 1, n - i
  {
    hide DecodeBody, ReadsBody, FateBody, FindTag, Word, Dword, HeaderValue, LongField;
    if i < n {
      var w, at := Word(b, 2 + 2 * i), FindTag(sch[ty], tag + 1);
      if |b| - pos >= 4 { DwordBelow(b, pos); }
      if w % 2 == 1 {
        FieldsFate(sch, ty, b, n, i + 1, tag + 1 + w / 2, pos, vals);
      } else if w == 0 && LongAt(b, pos) {
        if at.Some? { SameFate(sch[ty][at.value], b, pos, vals[at.value]); }
      } else if w != 0 || (|b| - pos >= 4 && |b| - pos - 4 >= Dword(b, pos)) {
        var next := if w == 0 then pos + 4 + Dword(b, pos) else pos;
        if at.None? {
          FieldsFate(sch, ty, b, n, i + 1, tag + 1, next, vals);
        } else {
          var f := sch[ty][at.value];
          var x := if w == 0 then DecodeBody(sch, f, b[pos + 4..next]) else HeaderValue(f, w);
          if w == 0 { BodyFate(sch, f, b[pos + 4..next]); }
          if x.Some? { FieldsFate(sch, ty, b, n, i + 1, tag + 1, next, vals[at.value := x.value]); }
        }
      }
    }
  }

  lemma {:induction false} StructFate(sch: Schema, ty: nat, b: seq<Byte>)
    requires ValidSchema(sch) && ty < |sch| && |b| < Limit
    ensures Explains(FateStruct(sch, ty, b), DecodeStruct(sch, ty, b), ReadsStruct(sch, ty, b))
    decreases |b|, 2
  {
    hide FateFields, DecodeFields, ReadsFields, Word;
    if |b| >= 2 && |b| - 2 >= 2 * Word(b, 0) {
      var n := Word(b, 0);
      FieldsFate(sch, ty, b, n, 0, -1, 2 + 2 * n, seq(|sch[ty]|, _ => Nil));
    }
  }

  /** For every stream whose size is an int: where the source reads just what decoding gives. A
      length word that is too long never belongs to a stream that can be decoded. */
  lemma ReadsWhen(sch: Schema, ty: nat, b: seq<Byte>)
    requires ValidSchema(sch) && ty < |sch| && |b| < Limit
    ensures var fate, r := FateStruct(sch, ty, b), ReadsStruct(sch, ty, b);
            && (r == From(DecodeStruct(sch, ty, b)) <==>
                  fate.Clear? || fate.Refused? || (fate.Skipped? && r.Rejected?))
            && (DecodeStruct(sch, ty, b).Some? ==> fate.Clear?)
            && (fate.Raises? ==> r.Raised?)
            && (fate.Strays? ==> r.Outside?)
  {
    hide FateStruct, ReadsStruct, DecodeStruct;
    StructFate(sch, ty, b);
  }

  /** One field with data, whose length word is all ones. */
  const AllOnes: seq<Byte> := [1, 0] + [0, 0] + [255, 255, 255, 255]

  lemma AllOnesWords()
    ensures Word(AllOnes, 0) == 1 && Word(AllOnes, 2) == 0 && Dword(AllOnes, 4) == TwoTo32 - 1
  {
    ValTwo(1, 0);
    ValTwo(0, 0);
    ValTwo(255, 255);
    assert [255, 255, 255, 255][1..] == [255, 255, 255] && [255, 255, 255][1..] == [255, 255];
    assert AllOnes[0..2] == [1, 0] && AllOnes[2..4] == [0, 0] && AllOnes[4..8] == [255, 255, 255, 255];
  }

  lemma ValTwo(x: Byte, y: Byte)
    ensures var low: int, high: int := x, y; Val([x, y]) == low + 256 * high
  {
    assert [x, y][1..] == [y] && [y][1..] == [];
    assert Val([y]) == y;
  }

  /** That stream for a struct without fields, where the source goes on inside the stream. */
  lemma LongUnknown()
    ensures ValidSchema([[]]) && FateStruct([[]], 0, AllOnes) == Skipped
    ensures DecodeStruct([[]], 0, AllOnes) == None && ReadsStruct([[]], 0, AllOnes) == Got(([], 7))
  {
    hide Word, Dword;
    AllOnesWords();
    assert seq(0, _ => Nil) == [];
    assert ReadsFields([[]], 0, AllOnes, 1, 1, 0, 7, []) == Got(([], 7));
  }

  /** And for a struct with that field. */
  lemma LongKnown(f: Field)
    requires f.tag == 0 && !f.kind.KStruct?
    ensures ValidSchema([[f]]) && DecodeStruct([[f]], 0, AllOnes) == None
    ensures var r := ReadsStruct([[f]], 0, AllOnes);
            if !f.many then r == if f.kind.KString? then Raised else Rejected
            else r == if f.kind.KString? then Got(([Nil], 7)) else Outside
  {
    hide Word, Dword;
    AllOnesWords();
    var sch := [[f]];
    assert MaxN(sch[0], -1) == 1 + MaxN(sch[0][1..], 0) == 1;
    assert FindTag(sch[0], 0) == Some(0);
    var vals := seq(|sch[0]|, _ => Nil);
    assert vals == [Nil] && vals[0 := Nil] == vals;
    var x := ReadsField(sch, f, 0, AllOnes, 4, vals[0]);
    assert x == LongField(f, AllOnes, 4, Nil);
    assert Skip(Dword(AllOnes, 4)) == 3;
    assert ReadsFields(sch, 0, AllOnes, 1, 1, 0, 7, vals) == Got((vals, 7));
    assert ReadsFields(sch, 0, AllOnes, 1, 0, -1, 4, vals) == if x.Got? then Got((vals, 7)) else x.PropagateFailure();
    assert ReadsStruct(sch, 0, AllOnes) == ReadsFields(sch, 0, AllOnes, 1, 0, -1, 4, vals);
  }

  /** A record written into a buffer with enough room has the bytes that the wire protocol asks for,
      and it is read back as it was, if its bytes are fewer than 2^31 and no gap between its tags
      is too large. */
  method WriteRead(buffer: array<Byte>, sch: Schema, ty: nat, v: Value) returns (n: int, back: seq<Value>)
    requires ValidSchema(sch) && Typed(sch, KStruct(ty), v) && EncodeStruct(sch, ty, v).Some?
    requires RoomContent(sch, KStruct(ty), v) <= buffer.Length < Limit
    modifies buffer
    ensures back == v.vals && 0 <= n <= buffer.Length && IsStruct(sch, ty, v, buffer[..n])
    ensures EncodeStruct(sch, ty, v) == Some(buffer[..n])
  {
    hide EncodeStruct, RoomContent, DecodeStruct, ReadsStruct, FateStruct, IsStruct;
    n := WriteStruct(buffer, 0, buffer.Length, sch, ty, v);
    assert buffer[0..n] == buffer[..n];
    StructRoundTrip(sch, ty, v, buffer[..n]);
    WireFormat(sch, ty, v, buffer[..n]);
    ReadsWhen(sch, ty, buffer[..n]);
    var r := ReadStruct(sch, ty, buffer[..n]);
    back := r.value.0;
  }
}
