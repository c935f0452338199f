/** Pattern construction and the flat tree array of lib/lpeg/lptree.c: the
    simplifications made by the constructors, and the in-place rewrite that makes
    sequences and choices right associative. */
module LpegFlatTree {
  import opened Wrappers
  import opened LpegTree
  import opened LpegAnalysis

  /** Two patterns with the same match results; the second may be used where the first
      may. */
  ghost predicate Equivalent(p: Tree, q: Tree) {
    && (WellFormed(p) ==> WellFormed(q))
    && forall s: seq<Byte>, i: nat :: i <= |s| ==> Match(p, s, i) == Match(q, s, i)
  }

  /** lp_seq */
  function MakeSeq(a: Tree, b: Tree): Tree {
    if a.False? || b.True? then a
    else if a.True? then b
    else Seq(a, b)
  }

  lemma MakeSeqCorrect(a: Tree, b: Tree)
    ensures Equivalent(Seq(a, b), MakeSeq(a, b))
  {
    forall s: seq<Byte>, i: nat | i <= |s|
      ensures Match(Seq(a, b), s, i) == Match(MakeSeq(a, b), s, i)
    {
      var m := Match(a, s, i);
      if m.Some? && b.True? { assert Match(b, s, m.value) == m; }
    }
  }

  /** lp_choice */
  function MakeChoice(a: Tree, b: Tree): Tree {
    if IsCharset(a) && IsCharset(b) then Set(ToCharset(a) + ToCharset(b))
    else if NoFail(a) || b.False? then a
    else if a.False? then b
    else Choice(a, b)
  }

  lemma MakeChoiceCorrect(a: Tree, b: Tree)
    ensures Equivalent(Choice(a, b), MakeChoice(a, b))
  {
    forall s: seq<Byte>, i: nat | i <= |s|
      ensures Match(Choice(a, b), s, i) == Match(MakeChoice(a, b), s, i)
    {
      if NoFail(a) { NoFailSound(a, s, i); }
    }
  }

  /** lp_sub */
  function MakeSub(a: Tree, b: Tree): Tree {
    if IsCharset(a) && IsCharset(b) then Set(ToCharset(a) - ToCharset(b))
    else Seq(Not(b), a)
  }

  /** The difference matches what `a` matches, wherever `b` does not match. */
  lemma MakeSubCorrect(a: Tree, b: Tree, s: seq<Byte>, i: nat)
    requires i <= |s|
    ensures Match(MakeSub(a, b), s, i) == if Match(b, s, i).Some? then None else Match(a, s, i)
    ensures WellFormed(a) && WellFormed(b) ==> WellFormed(MakeSub(a, b))
  {
    if !(IsCharset(a) && IsCharset(b)) {
      assert Match(Not(b), s, i) == if Match(b, s, i).Some? then None else Some(i);
    }
  }

  /** One element of the array that holds a tree in preorder. `ps` is the distance from a
      node to its second child; a charset takes BYTES_TO_SLOTS further elements. */
  datatype Node =
    | NChar(c: Byte) | NSet(cs: Charset) | NPayload | NAny | NTrue | NFalse
    | NRep | NSeq(ps: int) | NChoice(ps: int) | NNot | NAnd | NBehind(n: nat)

  const BYTES_TO_SLOTS: nat := 4

  function Flat(t: Tree): (nodes: seq<Node>)
    ensures |nodes| >= 1
  {
    match t
    case Char(c) => [NChar(c)]
    case Set(cs) => [NSet(cs)] + seq(BYTES_TO_SLOTS, _ => NPayload)
    case Any => [NAny]
    case True => [NTrue]
    case False => [NFalse]
    case Rep(q) => [NRep] + Flat(q)
    case Seq(a, b) => [NSeq(|Flat(a)| + 1)] + Flat(a) + Flat(b)
    case Choice(a, b) => [NChoice(|Flat(a)| + 1)] + Flat(a) + Flat(b)
    case Not(q) => [NNot] + Flat(q)
    case And(q) => [NAnd] + Flat(q)
    case Behind(q, n) => [NBehind(n)] + Flat(q)
  }

  predicate Binary(t: Tree) {
    t.Seq? || t.Choice?
  }

  /** Same operator at the root. */
  predicate SameOp(t: Tree, u: Tree) {
    (t.Seq? && u.Seq?) || (t.Choice? && u.Choice?)
  }

  function Op(like: Tree, a: Tree, b: Tree): Tree
    requires Binary(like)
  {
    if like.Seq? then Seq(a, b) else Choice(a, b)
  }

  function OpNode(like: Tree, ps: int): Node
    requires Binary(like)
  {
    if like.Seq? then NSeq(ps) else NChoice(ps)
  }

  /** Op (Op a b) c  =>  Op a (Op b c), until the first child has another operator. */
  function RotateRight(t: Tree): (u: Tree)
    requires Binary(t)
    ensures SameOp(t, u) && !SameOp(u, u.first)
    decreases t.first
  {
    if SameOp(t, t.first) then RotateRight(Op(t, t.first.first, Op(t, t.first.second, t.second))) else t
  }

  /** finalfix: every operator made right associative, from the root down. */
  function Fix(t: Tree): (u: Tree)
    decreases |Flat(t)|
  {
    match t
    case Char(_) | Set(_) | Any | True | False => t
    case Rep(q) => Rep(Fix(q))
    case Not(q) => Not(Fix(q))
    case And(q) => And(Fix(q))
    case Behind(q, n) => Behind(Fix(q), n)
    case Seq(_, _) => (RotateSize(t); var u := RotateRight(t); Seq(Fix(u.first), Fix(u.second)))
    case Choice(_, _) => (RotateSize(t); var u := RotateRight(t); Choice(Fix(u.first), Fix(u.second)))
  }

  lemma {:induction false} RotateSize(t: Tree)
    requires Binary(t)
    ensures |Flat(RotateRight(t))| == |Flat(t)|
    decreases t.first
  {
    if SameOp(t, t.first) { RotateSize(Op(t, t.first.first, Op(t, t.first.second, t.second))); }
  }

  /** No operator has itself as its first child. */
  predicate RightAssociative(t: Tree) {
    match t
    case Char(_) | Set(_) | Any | True | False => true
    case Rep(q) => RightAssociative(q)
    case Not(q) => RightAssociative(q)
    case And(q) => RightAssociative(q)
    case Behind(q, n) => RightAssociative(q)
    case Seq(a, b) => !a.Seq? && RightAssociative(a) && RightAssociative(b)
    case Choice(a, b) => !a.Choice? && RightAssociative(a) && RightAssociative(b)
  }

  /** Rotation changes neither the matches nor any of the analyses that well-formedness
      depends on. */
  lemma {:induction false} RotateMatch(t: Tree, s: seq<Byte>, i: nat)
    requires Binary(t) && i <= |s|
    ensures Match(RotateRight(t), s, i) == Match(t, s, i)
    decreases t.first
  {
    if SameOp(t, t.first) {
      var u := Op(t, t.first.first, Op(t, t.first.second, t.second));
      RotateMatch(u, s, i);
      var m := Match(t.first.first, s, i);
      if m.Some? { assert Match(u.second, s, m.value) == Match(Op(t, t.first.second, t.second), s, m.value); }
    }
  }

  lemma {:induction false} RotateAnalysis(t: Tree)
    requires Binary(t)
    ensures WellFormed(t) ==> WellFormed(RotateRight(t))
    ensures Nullable(t) == Nullable(RotateRight(t)) && FixedLen(t) == FixedLen(RotateRight(t))
    decreases t.first
  {
    if SameOp(t, t.first) {
      var inner := Op(t, t.first.second, t.second);
      var u := Op(t, t.first.first, inner);
      if WellFormed(t) { assert WellFormed(t.first); }
      assert WellFormed(t) ==> WellFormed(inner);
      assert Nullable(t) == Nullable(u) && FixedLen(t) == FixedLen(u);
      RotateAnalysis(u);
    }
  }

  lemma {:induction false} FixMatch(t: Tree, s: seq<Byte>, i: nat)
    requires i <= |s|
    ensures Match(Fix(t), s, i) == Match(t, s, i)
    decreases |Flat(t)|, |s| - i
  {
    match t
    case Char(_) | Set(_) | Any | True | False =>
    case Rep(q) =>
      FixMatch(q, s, i);
      var m := Match(q, s, i);
      if m.Some? && m.value > i { FixMatch(t, s, m.value); }
    case Not(q) => FixMatch(q, s, i);
    case And(q) => FixMatch(q, s, i);
    case Behind(q, n) => if n <= i { FixMatch(q, s, i - n); }
    case Seq(_, _) =>
      RotateSize(t);
      RotateMatch(t, s, i);
      var u := RotateRight(t);
      FixMatch(u.first, s, i);
      var m := Match(u.first, s, i);
      if m.Some? { FixMatch(u.second, s, m.value); }
    case Choice(_, _) =>
      RotateSize(t);
      RotateMatch(t, s, i);
      var u := RotateRight(t);
      FixMatch(u.first, s, i);
      FixMatch(u.second, s, i);
  }

  lemma {:induction false} FixAnalysis(t: Tree)
    ensures Nullable(t) == Nullable(Fix(t)) && FixedLen(t) == FixedLen(Fix(t))
    decreases |Flat(t)|
  {
    hide Flat, RotateRight;
    if Binary(t) {
      RotateSize(t);
      RotateAnalysis(t);
      var u := RotateRight(t);
      SmallerParts(u);
      FixAnalysis(u.first);
      FixAnalysis(u.second);
      if t.Seq? { SameSeq(u.first, u.second); } else { SameChoice(u.first, u.second); }
    }
  }

  lemma SmallerParts(u: Tree)
    requires Binary(u)
    ensures |Flat(u.first)| < |Flat(u)| && |Flat(u.second)| < |Flat(u)|
  {
  }

  lemma SameSeq(a: Tree, b: Tree)
    requires Nullable(a) == Nullable(Fix(a)) && FixedLen(a) == FixedLen(Fix(a))
    requires Nullable(b) == Nullable(Fix(b)) && FixedLen(b) == FixedLen(Fix(b))
    ensures var s, t := Seq(a, b), Seq(Fix(a), Fix(b)); Nullable(s) == Nullable(t) && FixedLen(s) == FixedLen(t)
  {
    hide Fix;
  }

  lemma SameChoice(a: Tree, b: Tree)
    requires Nullable(a) == Nullable(Fix(a)) && FixedLen(a) == FixedLen(Fix(a))
    requires Nullable(b) == Nullable(Fix(b)) && FixedLen(b) == FixedLen(Fix(b))
    ensures var s, t := Choice(a, b), Choice(Fix(a), Fix(b)); Nullable(s) == Nullable(t) && FixedLen(s) == FixedLen(t)
  {
    hide Fix;
  }

  lemma {:induction false} FixWellFormed(t: Tree)
    requires WellFormed(t)
    ensures WellFormed(Fix(t))
    decreases |Flat(t)|
  {
    match t
    case Char(_) | Set(_) | Any | True | False =>
    case Rep(q) =>
      FixAnalysis(q);
      FixWellFormed(q);
    case Not(q) => FixWellFormed(q);
    case And(q) => FixWellFormed(q);
    case Behind(q, n) =>
      FixAnalysis(q);
      FixWellFormed(q);
    case Seq(_, _) | Choice(_, _) =>
      RotateSize(t);
      RotateAnalysis(t);
      FixWellFormed(RotateRight(t).first);
      FixWellFormed(RotateRight(t).second);
  }

  lemma {:induction false} FixTop(t: Tree)
    ensures t.Seq? == Fix(t).Seq? && t.Choice? == Fix(t).Choice?
  {
  }

  lemma {:induction false} FixRightAssociative(t: Tree)
    ensures RightAssociative(Fix(t))
    decreases |Flat(t)|
  {
    match t
    case Char(_) | Set(_) | Any | True | False =>
    case Rep(q) => FixRightAssociative(q);
    case Not(q) => FixRightAssociative(q);
    case And(q) => FixRightAssociative(q);
    case Behind(q, n) => FixRightAssociative(q);
    case Seq(_, _) | Choice(_, _) =>
      RotateSize(t);
      var u := RotateRight(t);
      FixTop(u.first);
      FixRightAssociative(u.first);
      FixRightAssociative(u.second);
  }

  /** The array holds tree `t` at index `at`. */
  ghost predicate Holds(nodes: seq<Node>, at: int, t: Tree) {
    0 <= at && at + |Flat(t)| <= |nodes| && nodes[at..at + |Flat(t)|] == Flat(t)
  }

  /** The tree at a node, as the code generator walks through it. */
  function Read(nodes: seq<Node>, at: nat): Option<Tree>
    decreases |nodes| - at
  {
    if at >= |nodes| then None
    else
      match nodes[at]
      case NChar(c) => Some(Char(c))
      case NSet(cs) => Some(Set(cs))
      case NAny => Some(Any)
      case NTrue => Some(True)
      case NFalse => Some(False)
      case NRep => (var q := Read(nodes, at + 1); if q.None? then None else Some(Rep(q.value)))
      case NNot => (var q := Read(nodes, at + 1); if q.None? then None else Some(Not(q.value)))
      case NAnd => (var q := Read(nodes, at + 1); if q.None? then None else Some(And(q.value)))
      case NBehind(n) => (var q := Read(nodes, at + 1); if q.None? then None else Some(Behind(q.value, n)))
      case NSeq(ps) =>
        if ps < 1 then None
        else
          var a, b := Read(nodes, at + 1), Read(nodes, at + ps);
          if a.None? || b.None? then None else Some(Seq(a.value, b.value))
      case NChoice(ps) =>
        if ps < 1 then None
        else
          var a, b := Read(nodes, at + 1), Read(nodes, at + ps);
          if a.None? || b.None? then None else Some(Choice(a.value, b.value))
      case NPayload => None
  }

  /** The array that holds a tree is read as that tree. */
  lemma {:induction false} ReadHolds(nodes: seq<Node>, at: nat, t: Tree)
    requires Holds(nodes, at, t)
    ensures Read(nodes, at) == Some(t)
    decreases t, 1
  {
    hide Holds, Flat;
    HoldsRange(nodes, at, t);
    FlatHead(nodes, at, t);
    match t
    case Rep(q) => ReadUnary(nodes, at, t, q);
    case Not(q) => ReadUnary(nodes, at, t, q);
    case And(q) => ReadUnary(nodes, at, t, q);
    case Behind(q, _) => ReadUnary(nodes, at, t, q);
    case Seq(a, b) => ReadBinary(nodes, at, t, a, b);
    case Choice(a, b) => ReadBinary(nodes, at, t, a, b);
    case _ =>
  }

  lemma {:induction false} ReadUnary(nodes: seq<Node>, at: nat, t: Tree, q: Tree)
    requires Holds(nodes, at, t) && (t.Rep? || t.Not? || t.And? || t.Behind?) && t.body == q
    ensures Read(nodes, at + 1) == Some(q)
    decreases t, 0
  {
    hide Holds, Flat, Read;
    HoldsUnary(nodes, at, t);
    ReadHolds(nodes, at + 1, q);
  }

  lemma {:induction false} ReadBinary(nodes: seq<Node>, at: nat, t: Tree, a: Tree, b: Tree)
    requires Holds(nodes, at, t) && Binary(t) && t.first == a && t.second == b
    ensures at < |nodes| && nodes[at] == OpNode(t, |Flat(a)| + 1)
    ensures Read(nodes, at + 1) == Some(a) && Read(nodes, at + 1 + |Flat(a)|) == Some(b)
    decreases t, 0
  {
    hide Holds, Flat, Read;
    HoldsOp(nodes, at, t);
    ReadHolds(nodes, at + 1, a);
    ReadHolds(nodes, at + 1 + |Flat(a)|, b);
  }

  lemma FlatHead(nodes: seq<Node>, at: int, t: Tree)
    requires Holds(nodes, at, t)
    ensures 0 <= at < |nodes| && nodes[at] == Flat(t)[0]
    ensures t.Char? ==> nodes[at] == NChar(t.c)
    ensures t.Set? ==> nodes[at] == NSet(t.cs)
    ensures (t.Any? ==> nodes[at].NAny?) && (t.True? ==> nodes[at].NTrue?) && (t.False? ==> nodes[at].NFalse?)
    ensures (t.Rep? ==> nodes[at].NRep?) && (t.Not? ==> nodes[at].NNot?) && (t.And? ==> nodes[at].NAnd?)
    ensures t.Behind? ==> nodes[at] == NBehind(t.n)
  {
    assert nodes[at] == nodes[at..at + |Flat(t)|][0];
  }

  /** Everything outside [lo, hi) is as before. */
  ghost predicate SameOutside(before: seq<Node>, after: seq<Node>, lo: int, hi: int) {
    |before| == |after| && forall k :: 0 <= k < |before| && !(lo <= k < hi) ==> after[k] == before[k]
  }

  /** correctassociativity */
  method CorrectAssociativity(nodes: array<Node>, at: int, ghost t: Tree)
    requires Binary(t) && Holds(nodes[..], at, t)
    modifies nodes
    ensures Holds(nodes[..], at, RotateRight(t))
    ensures SameOutside(old(nodes[..]), nodes[..], at, at + |Flat(t)|)
  {
    hide Flat;
    ghost var u := t;
    RotateSize(t);
    HoldsOp(nodes[..], at, u);
    while SameNode(nodes[at], nodes[at + 1])
      invariant Binary(u) && Holds(nodes[..], at, u) && |Flat(u)| == |Flat(t)|
      invariant at + 1 < nodes.Length
      invariant RotateRight(u) == RotateRight(t)
      invariant SameNode(nodes[at], nodes[at + 1]) == SameOp(u, u.first)
      invariant SameOutside(old(nodes[..]), nodes[..], at, at + |Flat(t)|)
      decreases u.first
    {
      ghost var a, b, c := u.first.first, u.first.second, u.second;
      ghost var v := Op(u, a, Op(u, b, c));
      RotateOnce(nodes, at, u);
      RotateSize(v);
      u := v;
      HoldsOp(nodes[..], at, u);
    }
  }

  predicate SameNode(x: Node, y: Node) {
    (x.NSeq? && y.NSeq?) || (x.NChoice? && y.NChoice?)
  }

  lemma FlatOp(u: Tree)
    requires Binary(u)
    ensures Flat(u) == [OpNode(u, |Flat(u.first)| + 1)] + Flat(u.first) + Flat(u.second)
    ensures SameOp(u, u.first) ==> Flat(u.first)[0] == OpNode(u, |Flat(u.first.first)| + 1)
    ensures SameNode(Flat(u)[0], Flat(u.first)[0]) == SameOp(u, u.first)
  {
  }

  /** A slice that is a concatenation splits into slices. */
  lemma Slices<T>(s: seq<T>, at: int, x: T, y: seq<T>, z: seq<T>)
    requires 0 <= at && at + 1 + |y| + |z| <= |s| && s[at..at + 1 + |y| + |z|] == [x] + y + z
    ensures s[at] == x && s[at + 1..at + 1 + |y|] == y && s[at + 1 + |y|..at + 1 + |y| + |z|] == z
  {
    var n := 1 + |y| + |z|;
    var f := s[at..at + n];
    assert f == [x] + y + z;
    assert s[at] == f[0];
    assert s[at + 1..at + 1 + |y|] == y by {
      SubSlice(s, at, n, 1, 1 + |y|);
      assert f[1..1 + |y|] == y;
    }
    assert s[at + 1 + |y|..at + 1 + |y| + |z|] == z by {
      SubSlice(s, at, n, 1 + |y|, n);
      assert f[1 + |y|..n] == z;
    }
  }

  lemma SubSlice<T>(s: seq<T>, at: int, n: int, i: int, j: int)
    requires 0 <= at && 0 <= i <= j <= n && at + n <= |s|
    ensures s[at..at + n][i..j] == s[at + i..at + j]
  {
    var f, g := s[at..at + n][i..j], s[at + i..at + j];
    assert |f| == |g| && forall k :: 0 <= k < |f| ==> f[k] == g[k];
  }

  lemma HoldsShifted(after: seq<Node>, before: seq<Node>, at: int, d: int, t: Tree)
    requires Holds(before, at + d, t) && 0 <= at && at + |Flat(t)| <= |after|
    requires forall j :: at <= j < at + |Flat(t)| ==> after[j] == before[j + d]
    ensures Holds(after, at, t)
  {
    hide Flat;
    var n := |Flat(t)|;
    assert after[at..at + n] == before[at + d..at + d + n];
  }

  lemma HoldsJoinOp(nodes: seq<Node>, at: int, t: Tree)
    requires Binary(t) && 0 <= at < |nodes| && nodes[at] == OpNode(t, |Flat(t.first)| + 1)
    requires Holds(nodes, at + 1, t.first) && Holds(nodes, at + 1 + |Flat(t.first)|, t.second)
    ensures Holds(nodes, at, t)
  {
    FlatOp(t);
    hide Flat;
    var i := at + 1 + |Flat(t.first)|;
    var e := i + |Flat(t.second)|;
    assert nodes[at..e] == [nodes[at]] + nodes[at + 1..i] + nodes[i..e];
  }

  lemma HoldsOp(nodes: seq<Node>, at: int, u: Tree)
    requires Binary(u) && Holds(nodes, at, u)
    ensures at + 1 < |nodes| && |Flat(u)| == 1 + |Flat(u.first)| + |Flat(u.second)|
    ensures nodes[at] == OpNode(u, |Flat(u.first)| + 1)
    ensures SameNode(nodes[at], nodes[at + 1]) == SameOp(u, u.first)
    ensures SameOp(u, u.first) ==> nodes[at + 1] == OpNode(u, |Flat(u.first.first)| + 1)
    ensures Holds(nodes, at + 1, u.first) && Holds(nodes, at + 1 + |Flat(u.first)|, u.second)
  {
    FlatOp(u);
    var y := Flat(u.first);
    hide Flat;
    Slices(nodes, at, OpNode(u, |y| + 1), y, Flat(u.second));
    assert nodes[at + 1] == nodes[at + 1..at + 1 + |y|][0];
  }

  /** The array contents after the loop body of correctassociativity. */
  lemma Rotated(before: seq<Node>, after: seq<Node>, at: int, u: Tree, n: int)
    requires Binary(u) && SameOp(u, u.first) && Holds(before, at, u) && |after| == |before|
    requires n == |Flat(u.first.first)| && at + n + 2 <= |after|
    requires after[at] == OpNode(u, n + 1) && after[at + n + 1] == OpNode(u, |Flat(u.first.second)| + 1)
    requires forall j :: at + 1 <= j < at + 1 + n ==> after[j] == before[j + 1]
    requires forall j :: at + n + 2 <= j < |after| ==> after[j] == before[j]
    ensures Holds(after, at, Op(u, u.first.first, Op(u, u.first.second, u.second)))
  {
    hide Flat, Holds;
    var a, b, c := u.first.first, u.first.second, u.second;
    HoldsOp(before, at, u);
    HoldsOp(before, at + 1, u.first);
    HoldsRange(before, at, u);
    HoldsShifted(after, before, at + 1, 1, a);
    HoldsShifted(after, before, at + n + 2, 0, b);
    HoldsShifted(after, before, at + n + 2 + |Flat(b)|, 0, c);
    HoldsJoinOp(after, at + n + 1, Op(u, b, c));
    HoldsJoinOp(after, at, Op(u, a, Op(u, b, c)));
  }

  lemma HoldsRange(nodes: seq<Node>, at: int, t: Tree)
    requires Holds(nodes, at, t)
    ensures 0 <= at && at + |Flat(t)| <= |nodes|
  {
  }

  /** The loop body of correctassociativity: move the first grandchild down by one node and
      write the new inner operator behind it. */
  method RotateOnce(nodes: array<Node>, at: int, ghost u: Tree)
    requires Binary(u) && SameOp(u, u.first) && Holds(nodes[..], at, u)
    modifies nodes
    ensures Holds(nodes[..], at, Op(u, u.first.first, Op(u, u.first.second, u.second)))
    ensures SameOutside(old(nodes[..]), nodes[..], at, at + |Flat(u)|)
  {
    hide Flat, Holds;
    ghost var before := nodes[..];
    HoldsRange(before, at, u);
    HoldsOp(before, at, u);
    HoldsOp(before, at + 1, u.first);
    var n1size := nodes[at].ps - 1;
    var n11size := nodes[at + 1].ps - 1;
    var n12size := n1size - n11size - 1;
    var k := 0;
    while k < n11size
      invariant 0 <= k <= n11size
      invariant forall j :: 0 <= j < nodes.Length && !(at + 1 <= j < at + 1 + k) ==> nodes[j] == before[j]
      invariant forall j :: at + 1 <= j < at + 1 + k ==> nodes[j] == before[j + 1]
    {
      nodes[at + 1 + k] := nodes[at + 2 + k];
      k := k + 1;
    }
    nodes[at] := if nodes[at].NSeq? then NSeq(n11size + 1) else NChoice(n11size + 1);
    nodes[at + n11size + 1] := if nodes[at].NSeq? then NSeq(n12size + 1) else NChoice(n12size + 1);
    Rotated(before, nodes[..], at, u, n11size);
  }

  lemma HoldsElsewhere(before: seq<Node>, after: seq<Node>, lo: int, hi: int, at: int, t: Tree)
    requires Holds(before, at, t) && SameOutside(before, after, lo, hi)
    requires at + |Flat(t)| <= lo || hi <= at
    ensures Holds(after, at, t)
  {
    assert after[at..at + |Flat(t)|] == before[at..at + |Flat(t)|];
  }

  lemma HoldsUnary(nodes: seq<Node>, at: int, t: Tree)
    requires t.Rep? || t.Not? || t.And? || t.Behind?
    requires Holds(nodes, at, t)
    ensures nodes[at] == Flat(t)[0] && Holds(nodes, at + 1, t.body)
  {
    var f := nodes[at..at + |Flat(t)|];
    assert nodes[at] == f[0];
    assert nodes[at + 1..at + 1 + |Flat(t.body)|] == f[1..];
  }

  lemma HoldsJoinUnary(nodes: seq<Node>, at: int, t: Tree)
    requires t.Rep? || t.Not? || t.And? || t.Behind?
    requires 0 <= at < |nodes| && nodes[at] == Flat(t)[0] && Holds(nodes, at + 1, t.body)
    ensures Holds(nodes, at, t)
  {
    assert nodes[at..at + |Flat(t)|] == [nodes[at]] + nodes[at + 1..at + |Flat(t)|];
  }

  lemma {:induction false} FixSize(t: Tree)
    ensures |Flat(Fix(t))| == |Flat(t)|
    decreases |Flat(t)|
  {
    match t
    case Char(_) | Set(_) | Any | True | False =>
    case Rep(q) => FixSize(q);
    case Not(q) => FixSize(q);
    case And(q) => FixSize(q);
    case Behind(q, n) => FixSize(q);
    case Seq(_, _) | Choice(_, _) =>
      RotateSize(t);
      FixSize(RotateRight(t).first);
      FixSize(RotateRight(t).second);
  }

  /** finalfix: the array that held `t` holds its right associative form, and nothing
      outside the tree was written. */
  method FinalFix(nodes: array<Node>, at: int, ghost t: Tree)
    requires Holds(nodes[..], at, t)
    modifies nodes
    ensures Holds(nodes[..], at, Fix(t))
    ensures SameOutside(old(nodes[..]), nodes[..], at, at + |Flat(t)|)
    decreases |Flat(t)|
  {
    FixSize(t);
    assert nodes[at] == nodes[..][at..at + |Flat(t)|][0] == Flat(t)[0];
    if nodes[at].NSeq? || nodes[at].NChoice? {
      FixBinary(nodes, at, t);
    } else if nodes[at].NRep? || nodes[at].NNot? || nodes[at].NAnd? || nodes[at].NBehind? {
      HoldsUnary(nodes[..], at, t);
      FinalFix(nodes, at + 1, t.body);
      HoldsJoinUnary(nodes[..], at, Fix(t));
    }
  }

  method FixBinary(nodes: array<Node>, at: int, ghost t: Tree)
    requires Binary(t) && Holds(nodes[..], at, t)
    modifies nodes
    ensures Holds(nodes[..], at, Fix(t))
    ensures SameOutside(old(nodes[..]), nodes[..], at, at + |Flat(t)|)
    decreases |Flat(t)|, 1
  {
    hide Flat, Holds, FixedLen;
    RotateSize(t);
    CorrectAssociativity(nodes, at, t);
    FixSiblings(nodes, at, t, RotateRight(t));
  }

  lemma FixParts(t: Tree)
    requires Binary(t)
    ensures var u := RotateRight(t);
            && Binary(Fix(t)) && SameOp(Fix(t), u) && SameOp(u, u)
            && Fix(t).first == Fix(u.first) && Fix(t).second == Fix(u.second)
  {
    hide Flat;
  }

  /** finalfix on both siblings of the rotated tree u of t. */
  method FixSiblings(nodes: array<Node>, at: int, ghost t: Tree, ghost u: Tree)
    requires Binary(t) && u == RotateRight(t) && Holds(nodes[..], at, u) && |Flat(u)| == |Flat(t)|
    modifies nodes
    ensures Holds(nodes[..], at, Fix(t))
    ensures SameOutside(old(nodes[..]), nodes[..], at, at + |Flat(u)|)
    decreases |Flat(t)|, 0
  {
    hide Flat, Holds, FixedLen, RotateRight, Fix;
    FixParts(t);
    HoldsRange(nodes[..], at, u);
    HoldsOp(nodes[..], at, u);
    FixSize(u.first);
    FixSize(u.second);
    ghost var n1, n2 := |Flat(u.first)|, |Flat(u.second)|;
    var ps := nodes[at].ps;
    ghost var s0 := nodes[..];
    FinalFix(nodes, at + 1, u.first);
    HoldsElsewhere(s0, nodes[..], at + 1, at + 1 + n1, at + ps, u.second);
    ghost var s1 := nodes[..];
    FinalFix(nodes, at + ps, u.second);
    HoldsElsewhere(s1, nodes[..], at + ps, at + ps + n2, at + 1, Fix(u.first));
    HoldsJoinOp(nodes[..], at, Fix(t));
  }
}
