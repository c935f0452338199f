/** Decoding an encoded record gives back the record. */
module SprotoRoundTrip {
  import opened Wrappers
  import opened LittleEndian
  import opened SprotoCodec

  // Integers.

  lemma IntAs(n: nat, i: int)
    requires (n == 4 && Fits32(i)) || (n == 8 && Fits64(i))
    ensures IntOf(IntLe(n, i)) == Some(Int(i))
  {
    hide Val, Le, Pow256;
    Powers();
    ValLe(n, i % if n == 4 then TwoTo32 else TwoTo64);
  }

  function IntValues(xs: seq<int>): seq<Value> {
    seq(|xs|, j requires 0 <= j < |xs| => Int(xs[j]))
  }

  lemma {:induction false} IntsRoundTrip(n: nat, xs: seq<int>)
    requires n == 4 || n == 8
    requires forall j :: 0 <= j < |xs| ==> if n == 4 then Fits32(xs[j]) else Fits64(xs[j])
    ensures IntItems(n, Ints(n, xs)) == Some(IntValues(xs))
    decreases |xs|
  {
    hide IntLe, IntOf;
    if xs == [] {
      assert IntValues(xs) == [];
    } else {
      var b, head := Ints(n, xs), IntLe(n, xs[0]);
      assert b[..n] == head && b[n..] == Ints(n, xs[1..]);
      IntAs(n, xs[0]);
      IntsRoundTrip(n, xs[1..]);
      assert IntValues(xs) == [Int(xs[0])] + IntValues(xs[1..]);
    }
  }

  // The header.

  lemma {:induction false} FindsField(fields: seq<Field>, i: nat)
    requires Ascending(fields) && i < |fields|
    ensures FindTag(fields, fields[i].tag) == Some(i)
  {
    var r := FindTag(fields, fields[i].tag);
    assert r.Some?;
  }

  lemma {:induction false} WordsAt(ws: seq<nat>, k: nat)
    requires k < |ws| && ws[k] <= 0xffff
    ensures Word(Words(ws), 2 * k) == ws[k]
    decreases |ws|
  {
    var b := Words(ws);
    if k == 0 {
      assert b[0..2] == Le(2, ws[0]);
      Powers();
      ValLe(2, ws[0]);
    } else {
      WordsAt(ws[1..], k - 1);
      assert b[2 * k..2 * k + 2] == Words(ws[1..])[2 * (k - 1)..2 * (k - 1) + 2];
    }
  }

  /** The tag before the i-th field of the type, encoded or not. */
  function Before(fields: seq<Field>, i: nat): int
    requires i <= |fields|
  {
    if i == 0 then -1 else fields[i - 1].tag
  }

  lemma RecordsNil(sch: Schema, ty: nat, v: Value, i: nat, last: int)
    requires ValidSchema(sch) && v.Struct? && Typed(sch, KStruct(ty), v) && i < |v.vals| && v.vals[i].Nil?
    ensures Records(sch, ty, v, i, last) == Records(sch, ty, v, i + 1, last)
  {
  }

  /** The parts of the records from a field on. */
  ghost predicate Parts(sch: Schema, ty: nat, v: Value, i: nat, last: int, word: nat, body: seq<Byte>, ws: seq<nat>,
                        data: seq<Byte>)
    requires ValidSchema(sch) && v.Struct? && Typed(sch, KStruct(ty), v) && i < |v.vals|
  {
    var f, x := sch[ty][i], v.vals[i];
    && !x.Nil? && word == Inline(f, x) && (f.tag - last - 2) * 2 + 1 <= 0xffff
    && (word == 0 ==> Body(sch, f, x) == Some(body))
    && Records(sch, ty, v, i + 1, f.tag) == Some((ws, data))
  }

  lemma RecordsSome(sch: Schema, ty: nat, v: Value, i: nat, last: int)
    returns (word: nat, body: seq<Byte>, ws: seq<nat>, data: seq<Byte>)
    requires ValidSchema(sch) && v.Struct? && Typed(sch, KStruct(ty), v) && i < |v.vals| && !v.vals[i].Nil?
    requires Records(sch, ty, v, i, last).Some?
    ensures Parts(sch, ty, v, i, last, word, body, ws, data)
    ensures Records(sch, ty, v, i, last).value
         == (GapWords(sch[ty][i].tag - last - 1) + [word] + ws, (if word != 0 then [] else Len(body)) + data)
  {
    hide Inline, Body;
    var f, x := sch[ty][i], v.vals[i];
    word := Inline(f, x);
    body := if word != 0 then [] else Body(sch, f, x).value;
    ws, data := Records(sch, ty, v, i + 1, f.tag).value.0, Records(sch, ty, v, i + 1, f.tag).value.1;
  }

  /** The header entries fit into the space that sproto_encode leaves for them, and into 16 bits. */
  lemma {:induction false} EntriesFit(sch: Schema, ty: nat, v: Value, i: nat, last: int)
    requires ValidSchema(sch) && v.Struct? && Typed(sch, KStruct(ty), v) && i <= |v.vals|
    requires Records(sch, ty, v, i, last).Some? && last <= Before(sch[ty], i)
    ensures var ws := Records(sch, ty, v, i, last).value.0;
            && |ws| <= MaxN(sch[ty][i..], Before(sch[ty], i)) + (if last < Before(sch[ty], i) then 1 else 0)
            && forall k :: 0 <= k < |ws| ==> ws[k] <= 0xffff
    decreases |v.vals| - i
  {
    if i < |v.vals| {
      var fields := sch[ty];
      assert fields[i..][1..] == fields[i + 1..];
      if v.vals[i].Nil? {
        RecordsNil(sch, ty, v, i, last);
        EntriesFit(sch, ty, v, i + 1, last);
      } else {
        var word, body, ws, data := RecordsSome(sch, ty, v, i, last);
        EntriesFit(sch, ty, v, i + 1, fields[i].tag);
      }
    }
  }

  // Records.

  const Limit: int := 0x8000_0000

  lemma LenAt(b: seq<Byte>, pos: nat, x: seq<Byte>, rest: seq<Byte>)
    requires pos <= |b| < Limit && b[pos..] == Len(x) + rest
    ensures pos + 4 + |x| <= |b| && Dword(b, pos) == |x|
    ensures b[pos + 4..pos + 4 + |x|] == x && b[pos + 4 + |x|..] == rest
  {
    hide Le, Val, Pow256;
    var tail := b[pos..];
    assert |tail| == 4 + |x| + |rest|;
    assert b[pos..pos + 4] == tail[..4] == Le(4, |x|);
    Powers();
    ValLe(4, |x|);
    assert b[pos + 4..pos + 4 + |x|] == tail[4..4 + |x|];
    assert b[pos + 4 + |x|..] == tail[4 + |x|..];
  }

  lemma ArrayIntRoundTrip(items: seq<Value>)
    requires forall j :: 0 <= j < |items| ==> items[j].Int? && Fits64(items[j].i)
    requires items != []
    ensures var b := IntArray(IntsOf(items));
            b != [] && (b[0] == 4 || b[0] == 8) && IntItems(b[0], b[1..]) == Some(items)
  {
    hide Ints, IntItems, Le;
    var xs := IntsOf(items);
    var n := if AllFit32(xs) then 4 else 8;
    IntsRoundTrip(n, xs);
    assert IntArray(xs)[1..] == Ints(n, xs);
    assert IntValues(xs) == items;
  }

  lemma BodyRoundTrip(sch: Schema, f: Field, v: Value, b: seq<Byte>)
    requires ValidSchema(sch) && FieldTyped(sch, f, v) && Inline(f, v) == 0 && Body(sch, f, v) == Some(b) && |b| < Limit
    requires f.kind.KStruct? ==> f.kind.ty < |sch|
    ensures DecodeBody(sch, f, b) == Some(v)
    decreases v, 5
  {
    if !f.many {
      if v.Int? { IntAs(if Fits32(v.i) then 4 else 8, v.i); } else { ContentRoundTrip(sch, f.kind, v, b); }
    } else if f.kind.KInteger? {
      if v.items != [] { ArrayIntRoundTrip(v.items); }
    } else if f.kind.KBoolean? {
      var back := seq(|b|, j requires 0 <= j < |b| => Bool(b[j] != 0));
      assert back == v.items;
    } else {
      ItemsRoundTrip(sch, f, v, 0, b);
      assert v.items[0..] == v.items;
    }
  }

  lemma ContentRoundTrip(sch: Schema, k: Kind, v: Value, b: seq<Byte>)
    requires ValidSchema(sch) && Typed(sch, k, v) && (k.KString? || k.KStruct?) && Content(sch, k, v) == Some(b)
             && |b| < Limit
    ensures DecodeContent(sch, k, b) == Some(v)
    decreases v, 3
  {
    if k.KStruct? { StructRoundTrip(sch, k.ty, v, b); }
  }

  lemma ItemsRoundTrip(sch: Schema, f: Field, v: Value, j: nat, b: seq<Byte>)
    requires ValidSchema(sch) && FieldTyped(sch, f, v) && f.many && (f.kind.KString? || f.kind.KStruct?)
             && j <= |v.items|
    requires f.kind.KStruct? ==> f.kind.ty < |sch|
    requires Items(sch, f, v, j) == Some(b) && |b| < Limit
    ensures DecodeItems(sch, f.kind, b) == Some(v.items[j..])
    ensures b == [] <==> j == |v.items|
    decreases v, 4, |v.items| - j
  {
    hide Content, DecodeContent, Le;
    if j < |v.items| {
      var x, rest := Content(sch, f.kind, v.items[j]).value, Items(sch, f, v, j + 1).value;
      assert b[0..] == Len(x) + rest;
      LenAt(b, 0, x, rest);
      ContentRoundTrip(sch, f.kind, v.items[j], x);
      ItemsRoundTrip(sch, f, v, j + 1, rest);
      assert v.items[j..] == [v.items[j]] + v.items[j + 1..];
    }
  }

  /** The record so far: the first i values, and nil. */
  function SoFar(vals: seq<Value>, i: nat): seq<Value>
    requires i <= |vals|
  {
    vals[..i] + seq(|vals| - i, _ => Nil)
  }

  lemma StepGap(sch: Schema, ty: nat, b: seq<Byte>, n: nat, e: nat, last: int, tag: nat, pos: nat, vals: seq<Value>)
    requires ValidSchema(sch) && ty < |sch| && |vals| == |sch[ty]| && e < n && 2 + 2 * n <= pos <= |b|
    requires tag - last - 1 > 0 && Word(b, 2 + 2 * e) == (tag - last - 2) * 2 + 1
    ensures DecodeFields(sch, ty, b, n, e, last, pos, vals) == DecodeFields(sch, ty, b, n, e + 1, tag - 1, pos, vals)
  {
    hide Word, Typed, DecodeBody;
  }

  lemma StepInline(sch: Schema, ty: nat, b: seq<Byte>, n: nat, e: nat, pos: nat, vals: seq<Value>, i: nat, x: Value)
    requires ValidSchema(sch) && ty < |sch| && |vals| == |sch[ty]| && e < n && 2 + 2 * n <= pos <= |b| && i < |vals|
    requires FieldTyped(sch, sch[ty][i], x) && Inline(sch[ty][i], x) != 0 && Word(b, 2 + 2 * e) == Inline(sch[ty][i], x)
    ensures DecodeFields(sch, ty, b, n, e, sch[ty][i].tag - 1, pos, vals)
         == DecodeFields(sch, ty, b, n, e + 1, sch[ty][i].tag, pos, vals[i := x])
  {
    hide Word, DecodeBody, FindTag;
    FindsField(sch[ty], i);
  }

  lemma StepData(sch: Schema, ty: nat, b: seq<Byte>, n: nat, e: nat, pos: nat, vals: seq<Value>, i: nat, x: Value)
    requires ValidSchema(sch) && ty < |sch| && |vals| == |sch[ty]| && e < n && 2 + 2 * n <= pos <= |b| && i < |vals|
    requires Word(b, 2 + 2 * e) == 0 && pos + 4 <= |b| && pos + 4 + Dword(b, pos) <= |b|
    requires DecodeBody(sch, sch[ty][i], b[pos + 4..pos + 4 + Dword(b, pos)]) == Some(x)
    ensures DecodeFields(sch, ty, b, n, e, sch[ty][i].tag - 1, pos, vals)
         == DecodeFields(sch, ty, b, n, e + 1, sch[ty][i].tag, pos + 4 + Dword(b, pos), vals[i := x])
  {
    hide Word, Dword, DecodeBody, FindTag;
    FindsField(sch[ty], i);
  }

  /** The header words of b from the e-th on. */
  ghost predicate Reads(b: seq<Byte>, n: nat, e: nat, ws: seq<nat>) {
    2 + 2 * n <= |b| && e + |ws| == n && forall k :: 0 <= k < |ws| ==> Word(b, 2 + 2 * (e + k)) == ws[k]
  }

  lemma ReadsTail(b: seq<Byte>, n: nat, e: nat, ws: seq<nat>, m: nat)
    requires Reads(b, n, e, ws) && m <= |ws|
    ensures Reads(b, n, e + m, ws[m..])
    ensures m < |ws| ==> Word(b, 2 + 2 * (e + m)) == ws[m]
  {
    forall k | 0 <= k < |ws[m..]| ensures Word(b, 2 + 2 * (e + m + k)) == ws[m..][k] {
      assert Word(b, 2 + 2 * (e + (m + k))) == ws[m + k];
    }
  }

  lemma FieldsRoundTrip(sch: Schema, ty: nat, v: Value, i: nat, last: int, b: seq<Byte>, n: nat, e: nat, pos: nat)
    requires ValidSchema(sch) && v.Struct? && Typed(sch, KStruct(ty), v) && i <= |v.vals| && last <= Before(sch[ty], i)
    requires Records(sch, ty, v, i, last).Some? && |b| < Limit && 2 + 2 * n <= pos <= |b|
    requires Reads(b, n, e, Records(sch, ty, v, i, last).value.0) && b[pos..] == Records(sch, ty, v, i, last).value.1
    ensures DecodeFields(sch, ty, b, n, e, last, pos, SoFar(v.vals, i)) == Some((v.vals, |b|))
    decreases v, 1, |v.vals| - i
  {
    hide Word, Dword, DecodeBody, Reads, Body, Inline, DecodeFields, Records, SoFar, FieldTyped, Len;
    if i == |v.vals| {
      FieldsEnd(sch, ty, v, last, b, n, e, pos);
    } else if v.vals[i].Nil? {
      RecordsNil(sch, ty, v, i, last);
      SoFarNil(v.vals, i);
      FieldsRoundTrip(sch, ty, v, i + 1, last, b, n, e, pos);
    } else {
      var f, x, so := sch[ty][i], v.vals[i], SoFar(v.vals, i);
      var word, body, ws, data := RecordsSome(sch, ty, v, i, last);
      var all := Records(sch, ty, v, i, last).value.0;
      var m := |GapWords(f.tag - last - 1)|;
      ReadsParts(b, n, e, f.tag - last - 1, word, ws);
      SoFarSet(v.vals, i);
      if m > 0 { StepGap(sch, ty, b, n, e, last, f.tag, pos, so); }
      if word == 0 {
        LenAt(b, pos, body, data);
        BodyRoundTrip(sch, f, x, body);
        StepData(sch, ty, b, n, e + m, pos, so, i, x);
        FieldsRoundTrip(sch, ty, v, i + 1, f.tag, b, n, e + m + 1, pos + 4 + |body|);
      } else {
        assert [] + data == data;
        StepInline(sch, ty, b, n, e + m, pos, so, i, x);
        FieldsRoundTrip(sch, ty, v, i + 1, f.tag, b, n, e + m + 1, pos);
      }
    }
  }

  lemma FieldsEnd(sch: Schema, ty: nat, v: Value, last: int, b: seq<Byte>, n: nat, e: nat, pos: nat)
    requires ValidSchema(sch) && v.Struct? && Typed(sch, KStruct(ty), v)
    requires 2 + 2 * n <= pos <= |b| && Reads(b, n, e, Records(sch, ty, v, |v.vals|, last).value.0)
    requires b[pos..] == Records(sch, ty, v, |v.vals|, last).value.1
    ensures DecodeFields(sch, ty, b, n, e, last, pos, SoFar(v.vals, |v.vals|)) == Some((v.vals, |b|))
  {
    hide Word;
    assert SoFar(v.vals, |v.vals|) == v.vals;
  }

  lemma SoFarNone(vals: seq<Value>)
    ensures SoFar(vals, 0) == seq(|vals|, _ => Nil)
  {
  }

  lemma SoFarNil(vals: seq<Value>, i: nat)
    requires i < |vals| && vals[i].Nil?
    ensures SoFar(vals, i) == SoFar(vals, i + 1)
  {
  }

  lemma SoFarSet(vals: seq<Value>, i: nat)
    requires i < |vals|
    ensures |SoFar(vals, i)| == |vals| && SoFar(vals, i)[i := vals[i]] == SoFar(vals, i + 1)
  {
  }

  /** The words of one field, one by one. */
  lemma ReadsParts(b: seq<Byte>, n: nat, e: nat, gap: int, word: nat, ws: seq<nat>)
    requires Reads(b, n, e, GapWords(gap) + [word] + ws)
    ensures var m := |GapWords(gap)|;
            && e + m < n && 2 + 2 * n <= |b|
            && (gap > 0 ==> Word(b, 2 + 2 * e) == (gap - 1) * 2 + 1)
            && Word(b, 2 + 2 * (e + m)) == word
            && Reads(b, n, e + m + 1, ws)
  {
    hide Word;
    var all, m := GapWords(gap) + [word] + ws, |GapWords(gap)|;
    assert all[m] == word && all[m + 1..] == ws;
    ReadsTail(b, n, e, all, 0);
    ReadsTail(b, n, e, all, m);
    ReadsTail(b, n, e, all, m + 1);
  }

  /** Decoding the bytes of any record gives back the record and uses all the bytes. */
  lemma StructRoundTrip(sch: Schema, ty: nat, v: Value, b: seq<Byte>)
    requires ValidSchema(sch) && Typed(sch, KStruct(ty), v) && EncodeStruct(sch, ty, v) == Some(b) && |b| < Limit
    ensures DecodeStruct(sch, ty, b) == Some((v.vals, |b|))
    decreases v, 2
  {
    hide Records, DecodeFields, Words, Le, Word, Reads, SoFar;
    var (ws, data) := Records(sch, ty, v, 0, -1).value;
    EntriesFit(sch, ty, v, 0, -1);
    assert sch[ty][0..] == sch[ty];
    HeaderWords(ws, data, b);
    SoFarNone(v.vals);
    FieldsRoundTrip(sch, ty, v, 0, -1, b, |ws|, 0, 2 + 2 * |ws|);
  }

  lemma HeaderWords(ws: seq<nat>, data: seq<Byte>, b: seq<Byte>)
    requires |ws| <= 0xffff && (forall k :: 0 <= k < |ws| ==> ws[k] <= 0xffff) && b == Le(2, |ws|) + (Words(ws) + data)
    ensures |b| >= 2 + 2 * |ws| && Word(b, 0) == |ws| && b[2 + 2 * |ws|..] == data
    ensures Reads(b, |ws|, 0, ws)
  {
    hide Le, Words, Val, Pow256;
    var head, w := Le(2, |ws|), Words(ws);
    Count(head, w + data, |ws|);
    forall k | 0 <= k < |ws| ensures Word(b, 2 + 2 * k) == ws[k] {
      WordsAt(ws, k);
      Inside(head, w, data, 2 * k);
    }
    After(head, w, data);
  }

  lemma Count(head: seq<Byte>, rest: seq<Byte>, n: nat)
    requires n <= 0xffff && head == Le(2, n)
    ensures Word(head + rest, 0) == n
  {
    hide Le, Val, Pow256;
    assert (head + rest)[0..2] == head;
    Powers();
    ValLe(2, n);
  }

  lemma After(head: seq<Byte>, w: seq<Byte>, data: seq<Byte>)
    ensures (head + (w + data))[|head| + |w|..] == data
  {
  }

  lemma Inside(head: seq<Byte>, w: seq<Byte>, data: seq<Byte>, p: nat)
    requires |head| == 2 && p + 2 <= |w|
    ensures (head + (w + data))[2 + p..2 + p + 2] == w[p..p + 2]
  {
  }
}
