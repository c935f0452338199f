/** Compiler correctness: the generated code, run on the virtual machine,
    computes exactly what the PEG semantics prescribes. */
module LpegCorrect {
  import opened Wrappers
  import opened LpegTree
  import opened LpegAnalysis
  import opened LpegVm
  import opened LpegCode

  /** The fragment `frag` is placed at address `base` of `code`. */
  ghost predicate At(code: seq<Instr>, base: int, frag: seq<Instr>) {
    0 <= base && base + |frag| <= |code| && code[base..base + |frag|] == frag
  }

  lemma AtSplit(code: seq<Instr>, base: int, x: seq<Instr>, y: seq<Instr>)
    requires At(code, base, x + y)
    ensures At(code, base, x) && At(code, base + |x|, y) && 0 <= base
  {
    var both := code[base..base + |x + y|];
    assert code[base..base + |x|] == both[..|x|] == x;
    assert code[base + |x|..base + |x| + |y|] == both[|x|..] == y;
  }

  lemma AtFour(code: seq<Instr>, base: int, w: seq<Instr>, x: seq<Instr>, y: seq<Instr>, z: seq<Instr>)
    requires At(code, base, w + x + y + z)
    ensures At(code, base, w) && At(code, base + |w|, x) && 0 <= base
    ensures At(code, base + |w| + |x|, y) && At(code, base + |w| + |x| + |y|, z)
  {
    hide At;
    AtSplit(code, base, w + x + y, z);
    AtSplit(code, base, w + x, y);
    AtSplit(code, base, w, x);
  }

  /** The parts of the general code of a choice. */
  lemma ChoiceLayout(code: seq<Instr>, base: int, cs: Charset, e: bool, ca: seq<Instr>, cb: seq<Instr>)
    requires At(code, base, ChoiceCode(cs, e, ca, cb))
    ensures var ts, off := TestSize(cs, e), TestSize(cs, e) + 2 + |ca| + 2;
            && 0 <= base && |ChoiceCode(cs, e, ca, cb)| == off + |cb|
            && At(code, base, GenTest(cs, e, off)) && At(code, base + ts, Emit(IChoice(2 + |ca| + 2)))
            && At(code, base + ts + 2, ca) && At(code, base + ts + 2 + |ca|, Emit(ICommit(2 + |cb|)))
            && At(code, base + off, cb)
  {
    hide At, Emit, GenTest, TestSize;
    var off := TestSize(cs, e) + 2 + |ca| + 2;
    var test, choice, commit := GenTest(cs, e, off), Emit(IChoice(2 + |ca| + 2)), Emit(ICommit(2 + |cb|));
    AtSplit(code, base, test + choice + ca + commit, cb);
    AtFour(code, base, test, choice, ca, commit);
  }

  /** The parts of the general code of a repetition. */
  lemma RepLayout(code: seq<Instr>, base: int, cs: Charset, e: bool, opt: bool, c: seq<Instr>)
    requires At(code, base, RepCode(cs, e, opt, c))
    ensures var ts, off := TestSize(cs, e), TestSize(cs, e) + 2 + |c| + 2;
            && 0 <= base && |RepCode(cs, e, opt, c)| == off
            && At(code, base, GenTest(cs, e, off)) && At(code, base + ts, Emit(LoopEntry(opt, c)))
            && At(code, base + ts + 2, c) && At(code, base + ts + 2 + |c|, Emit(IPartialCommit(-|c|)))
  {
    hide At, Emit, GenTest, TestSize;
    var off := TestSize(cs, e) + 2 + |c| + 2;
    AtFour(code, base, GenTest(cs, e, off), Emit(LoopEntry(opt, c)), c, Emit(IPartialCommit(-|c|)));
  }

  lemma AtInstr(code: seq<Instr>, base: int, i: Instr)
    requires At(code, base, Emit(i))
    ensures 0 <= base < |code| && code[base] == i
  {
    assert code[base] == code[base..base + |Emit(i)|][0];
  }

  /** What surrounds the code of a pattern with match result `m`: `end` is the
      address behind the code and `stack` the backtrack stack before it. Every state
      in which the code is allowed to leave yields the machine result `r`.
      - When the pattern fails, the code must fail.
      - When it succeeds at `j`, the code may arrive at `end` in position `j` with the
        same stack, and it may fail if the next character is outside the follow set
        (whatever comes next would then fail anyway).
      - Code generated as the last thing of an optional pattern (`opt`) may also
        overwrite the position in the top entry, or backtrack through that entry after
        having stored `j` in it. */
  ghost predicate Continues(code: seq<Instr>, s: seq<Byte>, end: int, stack: Stack,
                            opt: bool, fl: Charset, m: Option<nat>, r: Option<nat>)
  {
    match m
    case None => Yields(code, s, Fail(stack), r)
    case Some(j) =>
      && Yields(code, s, Run(end, j, stack), r)
      && (j < |s| && s[j] !in fl ==> Yields(code, s, Fail(stack), r))
      && (opt && stack.Push? ==>
            && Yields(code, s, Run(stack.pc, j, stack.rest), r)
            && forall k: nat :: Yields(code, s, Run(end, j, Push(stack.pc, k, stack.rest)), r))
  }

  // One lemma per instruction: the state before it yields what the state after it yields.

  lemma FailStep(code: seq<Instr>, base: int, s: seq<Byte>, i: nat, stack: Stack, r: Option<nat>)
    requires At(code, base, Emit(IFail)) && i <= |s|
    requires Yields(code, s, Fail(stack), r)
    ensures Yields(code, s, Run(base, i, stack), r)
  {
    AtInstr(code, base, IFail);
    BackStep(code, s, Run(base, i, stack), r);
  }

  lemma FailTwiceStep(code: seq<Instr>, base: int, s: seq<Byte>, i: nat, stack: Stack, r: Option<nat>)
    requires At(code, base, Emit(IFailTwice)) && i <= |s| && stack.Push?
    requires Yields(code, s, Fail(stack.rest), r)
    ensures Yields(code, s, Run(base, i, stack), r)
  {
    AtInstr(code, base, IFailTwice);
    BackStep(code, s, Run(base, i, stack), r);
  }

  lemma BehindStep(code: seq<Instr>, base: int, n: nat, s: seq<Byte>, i: nat, stack: Stack, r: Option<nat>)
    requires At(code, base, Emit(IBehind(n))) && i <= |s|
    requires Yields(code, s, if n > i then Fail(stack) else Run(base + 1, i - n, stack), r)
    ensures Yields(code, s, Run(base, i, stack), r)
  {
    AtInstr(code, base, IBehind(n));
    BackStep(code, s, Run(base, i, stack), r);
  }

  lemma JmpStep(code: seq<Instr>, base: int, off: int, s: seq<Byte>, i: nat, stack: Stack, r: Option<nat>)
    requires At(code, base, Emit(IJmp(off))) && i <= |s|
    requires Yields(code, s, Run(base + off, i, stack), r)
    ensures Yields(code, s, Run(base, i, stack), r)
  {
    AtInstr(code, base, IJmp(off));
    BackStep(code, s, Run(base, i, stack), r);
  }

  lemma SpanStep(code: seq<Instr>, base: int, cs: Charset, s: seq<Byte>, i: nat, stack: Stack, r: Option<nat>)
    requires At(code, base, Emit(ISpan(cs))) && i <= |s|
    requires Yields(code, s, Run(base + CHARSET_INST_SIZE, SpanEnd(cs, s, i), stack), r)
    ensures Yields(code, s, Run(base, i, stack), r)
  {
    AtInstr(code, base, ISpan(cs));
    BackStep(code, s, Run(base, i, stack), r);
  }

  lemma ChoiceStep(code: seq<Instr>, base: int, off: int, s: seq<Byte>, i: nat, stack: Stack, r: Option<nat>)
    requires At(code, base, Emit(IChoice(off))) && i <= |s|
    requires Yields(code, s, Run(base + 2, i, Push(base + off, i, stack)), r)
    ensures Yields(code, s, Run(base, i, stack), r)
  {
    AtInstr(code, base, IChoice(off));
    BackStep(code, s, Run(base, i, stack), r);
  }

  lemma CommitStep(code: seq<Instr>, base: int, off: int, s: seq<Byte>, i: nat, stack: Stack, r: Option<nat>)
    requires At(code, base, Emit(ICommit(off))) && i <= |s|
    requires Yields(code, s, Run(base + off, i, stack), r)
    ensures forall pc, k: nat :: Yields(code, s, Run(base, i, Push(pc, k, stack)), r)
  {
    AtInstr(code, base, ICommit(off));
    forall pc, k: nat ensures Yields(code, s, Run(base, i, Push(pc, k, stack)), r) {
      BackStep(code, s, Run(base, i, Push(pc, k, stack)), r);
    }
  }

  lemma PartialCommitStep(code: seq<Instr>, base: int, off: int, s: seq<Byte>, i: nat, stack: Stack, r: Option<nat>)
    requires At(code, base, Emit(IPartialCommit(off))) && i <= |s| && stack.Push?
    requires Yields(code, s, Run(base + off, i, Push(stack.pc, i, stack.rest)), r)
    ensures Yields(code, s, Run(base, i, stack), r)
  {
    AtInstr(code, base, IPartialCommit(off));
    BackStep(code, s, Run(base, i, stack), r);
  }

  lemma BackCommitStep(code: seq<Instr>, base: int, off: int, s: seq<Byte>, i: nat, stack: Stack, r: Option<nat>)
    requires At(code, base, Emit(IBackCommit(off))) && i <= |s| && stack.Push?
    requires Yields(code, s, Run(base + off, stack.pos, stack.rest), r)
    ensures Yields(code, s, Run(base, i, stack), r)
  {
    AtInstr(code, base, IBackCommit(off));
    BackStep(code, s, Run(base, i, stack), r);
  }

  /** A test lets exactly the characters of its set through. */
  lemma TestStep(code: seq<Instr>, base: int, cs: Charset, e: bool, off: int,
                 s: seq<Byte>, i: nat, stack: Stack, r: Option<nat>)
    requires i <= |s| && At(code, base, GenTest(cs, e, off))
    requires e || (i < |s| && s[i] in cs) ==> Yields(code, s, Run(base + TestSize(cs, e), i, stack), r)
    requires !e && !(i < |s| && s[i] in cs) ==> Yields(code, s, Run(base + off, i, stack), r)
    ensures Yields(code, s, Run(base, i, stack), r)
  {
    if !e {
      AtInstr(code, base, TestInstr(cs, off));
      BackStep(code, s, Run(base, i, stack), r);
    }
  }

  lemma TestHolds(cs: Charset, e: bool, s: seq<Byte>, i: nat)
    requires e || (i < |s| && s[i] in cs)
    ensures Holds(TestGuard(cs, e), s, i)
  {
  }

  // Well-formedness and matching, one constructor at a time.

  lemma UnfoldSeq(p: Tree, s: seq<Byte>, i: nat)
    requires p.Seq? && WellFormed(p) && i <= |s|
    ensures WellFormed(p.first) && WellFormed(p.second)
    ensures var m := Match(p.first, s, i); Match(p, s, i) == if m.Some? then Match(p.second, s, m.value) else None
  {
  }

  lemma UnfoldChoice(p: Tree, s: seq<Byte>, i: nat)
    requires p.Choice? && WellFormed(p) && i <= |s|
    ensures WellFormed(p.first) && WellFormed(p.second)
    ensures var m := Match(p.first, s, i); Match(p, s, i) == if m.Some? then m else Match(p.second, s, i)
    ensures p.second.True? ==> Match(p.second, s, i) == Some(i)
  {
  }

  lemma UnfoldRep(p: Tree, s: seq<Byte>, i: nat)
    requires p.Rep? && WellFormed(p) && i <= |s|
    ensures WellFormed(p.body) && !Nullable(p.body)
    ensures var m := Match(p.body, s, i);
            Match(p, s, i) == if m.Some? && m.value > i then Match(p, s, m.value) else Some(i)
  {
  }

  /** Not, And and Behind */
  lemma UnfoldPredicate(p: Tree, s: seq<Byte>, i: nat)
    requires (p.Not? || p.And? || p.Behind?) && WellFormed(p) && i <= |s|
    ensures WellFormed(p.body) && (p.Behind? ==> FixedLen(p.body) == Some(p.n))
    ensures Match(p, s, i) ==
              if p.Not? then if Match(p.body, s, i).Some? then None else Some(i)
              else if p.And? then if Match(p.body, s, i).Some? then Some(i) else None
              else if p.n <= i && Match(p.body, s, i - p.n) == Some(i) then Some(i) else None
  {
  }

  /** The situation in which the code of `p` is entered. */
  ghost predicate Setup(p: Tree, opt: bool, g: Guard, fl: Charset,
                        code: seq<Instr>, base: int, s: seq<Byte>, i: nat, stack: Stack, r: Option<nat>)
  {
    && WellFormed(p) && i <= |s|
    && At(code, base, Gen(p, opt, g, fl))
    && Holds(g, s, i)
    && (opt ==> fl == FULL && stack.Push?)
    && Continues(code, s, base + |Gen(p, opt, g, fl)|, stack, opt, fl, Match(p, s, i), r)
  }

  /** The relative statement, by induction on the pattern: code of a pattern whose
      continuation yields `r` yields `r` itself. */
  lemma {:induction false} GenCorrect(p: Tree, opt: bool, g: Guard, fl: Charset,
                                      code: seq<Instr>, base: int, s: seq<Byte>, i: nat, stack: Stack, r: Option<nat>)
    requires Setup(p, opt, g, fl, code, base, s, i, stack, r)
    ensures Yields(code, s, Run(base, i, stack), r)
    decreases p, 1, 0
  {
    hide Setup, Yields, Step, At;
    match p
    case Char(_) | Set(_) | Any | False | True => LeafCorrect(p, opt, g, fl, code, base, s, i, stack, r);
    case Choice(_, _) => ChoiceCorrect(p, opt, g, fl, code, base, s, i, stack, r);
    case Rep(_) => RepCorrect(p, opt, g, fl, code, base, s, i, stack, r);
    case Behind(_, _) => BehindCorrect(p, opt, g, fl, code, base, s, i, stack, r);
    case Not(_) => NotCorrect(p, opt, g, fl, code, base, s, i, stack, r);
    case And(_) => AndCorrect(p, opt, g, fl, code, base, s, i, stack, r);
    case Seq(_, _) => SeqCorrect(p, opt, g, fl, code, base, s, i, stack, r);
  }

  lemma LeafCorrect(p: Tree, opt: bool, g: Guard, fl: Charset,
                    code: seq<Instr>, base: int, s: seq<Byte>, i: nat, stack: Stack, r: Option<nat>)
    requires IsCharset(p) || p.False? || p.True?
    requires Setup(p, opt, g, fl, code, base, s, i, stack, r)
    ensures Yields(code, s, Run(base, i, stack), r)
  {
    hide Yields;
    if !p.True? {
      AtInstr(code, base, Gen(p, opt, g, fl)[0]);
      BackStep(code, s, Run(base, i, stack), r);
    }
  }

  lemma {:induction false} SeqCorrect(p: Tree, opt: bool, g: Guard, fl: Charset,
                                      code: seq<Instr>, base: int, s: seq<Byte>, i: nat, stack: Stack, r: Option<nat>)
    requires p.Seq?
    requires Setup(p, opt, g, fl, code, base, s, i, stack, r)
    ensures Yields(code, s, Run(base, i, stack), r)
    decreases p, 0, 0
  {
    hide Yields, Step, At, Gen, Match, WellFormed, First, FirstEmpty, HeadFail, FixedLen, ToCharset, TestSuffices,
         GenTest, TestSize, TestGuard, Emit;
    UnfoldSeq(p, s, i);
    GenSeq(p, opt, g, fl);
    var Seq(a, b) := p;
    var fa, gb := SeqFollow(a, b, fl), SeqGuard(a, g);
    var ca, cb := Gen(a, false, g, fa), Gen(b, opt, gb, fl);
    AtSplit(code, base, ca, cb);
    var m := Match(a, s, i);
    if m.Some? {
      var k := m.value;
      if FixedLen(a) == Some(0) { FixedLenSound(a, s, i); }
      GenCorrect(b, opt, gb, fl, code, base + |ca|, s, k, stack, r);
      // the code of `a` may give up on a character outside first(b, fl)
      if k < |s| && s[k] !in First(b, fl) && Match(b, s, k).Some? { FirstSound(b, fl, s, k); }
    }
    GenCorrect(a, false, g, fa, code, base, s, i, stack, r);
  }

  lemma {:induction false} BehindCorrect(p: Tree, opt: bool, g: Guard, fl: Charset,
                                         code: seq<Instr>, base: int, s: seq<Byte>, i: nat, stack: Stack,
                                         r: Option<nat>)
    requires p.Behind?
    requires Setup(p, opt, g, fl, code, base, s, i, stack, r)
    ensures Yields(code, s, Run(base, i, stack), r)
    decreases p, 0, 0
  {
    hide Yields, Step, At, Gen, Match, WellFormed, First, FirstEmpty, HeadFail, FixedLen, ToCharset, TestSuffices,
         GenTest, TestSize, TestGuard, Emit;
    UnfoldPredicate(p, s, i);
    GenBehind(p, opt, g, fl);
    var Behind(q, n) := p;
    var back := BehindCode(n);
    var c := Gen(q, false, NoGuard, FULL);
    AtSplit(code, base, back, c);
    if n <= i {
      if Match(q, s, i - n).Some? { FixedLenSound(q, s, i - n); }
      GenCorrect(q, false, NoGuard, FULL, code, base + |back|, s, i - n, stack, r);
    }
    if n > 0 { BehindStep(code, base, n, s, i, stack, r); }
  }

  lemma {:induction false} NotCorrect(p: Tree, opt: bool, g: Guard, fl: Charset,
                                      code: seq<Instr>, base: int, s: seq<Byte>, i: nat, stack: Stack, r: Option<nat>)
    requires p.Not?
    requires Setup(p, opt, g, fl, code, base, s, i, stack, r)
    ensures Yields(code, s, Run(base, i, stack), r)
    decreases p, 0, 1
  {
    hide Yields, Step, At, Gen, Match, WellFormed, First, FirstEmpty, HeadFail, FixedLen, ToCharset, TestSuffices,
         GenTest, TestSize, TestGuard, Emit;
    if HeadFail(p.body) {
      NotByTest(p, opt, g, fl, code, base, s, i, stack, r);
    } else {
      NotDefault(p, opt, g, fl, code, base, s, i, stack, r);
    }
  }

  lemma {:induction false} NotByTest(p: Tree, opt: bool, g: Guard, fl: Charset,
                                     code: seq<Instr>, base: int, s: seq<Byte>, i: nat, stack: Stack, r: Option<nat>)
    requires p.Not? && HeadFail(p.body)
    requires Setup(p, opt, g, fl, code, base, s, i, stack, r)
    ensures Yields(code, s, Run(base, i, stack), r)
    decreases p, 0, 0
  {
    hide Yields, Step, At, Gen, Match, WellFormed, First, FirstEmpty, HeadFail, FixedLen, ToCharset, TestSuffices,
         GenTest, TestSize, TestGuard, Emit;
    UnfoldPredicate(p, s, i);
    GenNot(p, opt, g, fl);
    var q := p.body;
    var cs, e := First(q, FULL), FirstEmpty(q);
    var ts := TestSize(cs, e);
    HeadFailSound(q, s, i);
    AtSplit(code, base, GenTest(cs, e, ts + 1), Emit(IFail));
    if Match(q, s, i).Some? { FailStep(code, base + ts, s, i, stack, r); }
    TestStep(code, base, cs, e, ts + 1, s, i, stack, r);
  }

  lemma {:induction false} NotDefault(p: Tree, opt: bool, g: Guard, fl: Charset,
                                      code: seq<Instr>, base: int, s: seq<Byte>, i: nat, stack: Stack, r: Option<nat>)
    requires p.Not? && !HeadFail(p.body)
    requires Setup(p, opt, g, fl, code, base, s, i, stack, r)
    ensures Yields(code, s, Run(base, i, stack), r)
    decreases p, 0, 0
  {
    hide Yields, Step, At, Gen, Match, WellFormed, First, FirstEmpty, HeadFail, FixedLen, ToCharset, TestSuffices,
         GenTest, TestSize, TestGuard, Emit;
    UnfoldPredicate(p, s, i);
    GenNot(p, opt, g, fl);
    var q := p.body;
    var cs, e, c := First(q, FULL), FirstEmpty(q), Gen(q, false, NoGuard, FULL);
    var ts := TestSize(cs, e);
    var off := ts + 2 + |c| + 1;
    AtFour(code, base, GenTest(cs, e, off), Emit(IChoice(2 + |c| + 1)), c, Emit(IFailTwice));
    var inner := Push(base + off, i, stack);
    var m := Match(q, s, i);
    if m.Some? { FailTwiceStep(code, base + ts + 2 + |c|, s, m.value, inner, r); }
    GenCorrect(q, false, NoGuard, FULL, code, base + ts + 2, s, i, inner, r);
    ChoiceStep(code, base + ts, 2 + |c| + 1, s, i, stack, r);
    if !e && !(i < |s| && s[i] in cs) { TestSound(q, s, i); }
    TestStep(code, base, cs, e, off, s, i, stack, r);
  }

  lemma {:induction false} AndCorrect(p: Tree, opt: bool, g: Guard, fl: Charset,
                                      code: seq<Instr>, base: int, s: seq<Byte>, i: nat, stack: Stack, r: Option<nat>)
    requires p.And?
    requires Setup(p, opt, g, fl, code, base, s, i, stack, r)
    ensures Yields(code, s, Run(base, i, stack), r)
    decreases p, 0, 1
  {
    hide Yields, Step, At, Gen, Match, WellFormed, First, FirstEmpty, HeadFail, FixedLen, ToCharset, TestSuffices,
         GenTest, TestSize, TestGuard, Emit;
    if AndByBehind(p.body) {
      AndFixed(p, opt, g, fl, code, base, s, i, stack, r);
    } else {
      AndDefault(p, opt, g, fl, code, base, s, i, stack, r);
    }
  }

  lemma {:induction false} AndFixed(p: Tree, opt: bool, g: Guard, fl: Charset,
                                    code: seq<Instr>, base: int, s: seq<Byte>, i: nat, stack: Stack, r: Option<nat>)
    requires p.And? && AndByBehind(p.body)
    requires Setup(p, opt, g, fl, code, base, s, i, stack, r)
    ensures Yields(code, s, Run(base, i, stack), r)
    decreases p, 0, 0
  {
    hide Yields, Step, At, Gen, Match, WellFormed, First, FirstEmpty, HeadFail, FixedLen, ToCharset, TestSuffices,
         GenTest, TestSize, TestGuard, Emit;
    UnfoldPredicate(p, s, i);
    GenAnd(p, opt, g, fl);
    var q := p.body;
    var n, c, m := FixedLen(q).value, Gen(q, false, g, FULL), Match(q, s, i);
    AtSplit(code, base, c, BehindCode(n));
    if m.Some? {
      FixedLenSound(q, s, i);
      if n > 0 { BehindStep(code, base + |c|, n, s, m.value, stack, r); }
    }
    GenCorrect(q, false, g, FULL, code, base, s, i, stack, r);
  }

  lemma {:induction false} AndDefault(p: Tree, opt: bool, g: Guard, fl: Charset,
                                      code: seq<Instr>, base: int, s: seq<Byte>, i: nat, stack: Stack, r: Option<nat>)
    requires p.And? && !AndByBehind(p.body)
    requires Setup(p, opt, g, fl, code, base, s, i, stack, r)
    ensures Yields(code, s, Run(base, i, stack), r)
    decreases p, 0, 0
  {
    hide Yields, Step, At, Gen, Match, WellFormed, First, FirstEmpty, HeadFail, FixedLen, ToCharset, TestSuffices,
         GenTest, TestSize, TestGuard, Emit;
    UnfoldPredicate(p, s, i);
    GenAnd(p, opt, g, fl);
    var q := p.body;
    var c, m := Gen(q, false, g, FULL), Match(q, s, i);
    AtFour(code, base, Emit(IChoice(2 + |c| + 2)), c, Emit(IBackCommit(3)), Emit(IFail));
    var inner := Push(base + 2 + |c| + 2, i, stack);
    if m.Some? {
      BackCommitStep(code, base + 2 + |c|, 3, s, m.value, inner, r);
    } else {
      FailStep(code, base + 2 + |c| + 2, s, i, stack, r);
    }
    GenCorrect(q, false, g, FULL, code, base + 2, s, i, inner, r);
    ChoiceStep(code, base, 2 + |c| + 2, s, i, stack, r);
  }

  lemma {:induction false} ChoiceCorrect(p: Tree, opt: bool, g: Guard, fl: Charset,
                                         code: seq<Instr>, base: int, s: seq<Byte>, i: nat, stack: Stack,
                                         r: Option<nat>)
    requires p.Choice?
    requires Setup(p, opt, g, fl, code, base, s, i, stack, r)
    ensures Yields(code, s, Run(base, i, stack), r)
    decreases p, 0, 1
  {
    hide Yields, Step, At, Gen, Match, WellFormed, First, FirstEmpty, HeadFail, FixedLen, ToCharset, TestSuffices,
         GenTest, TestSize, TestGuard, Emit;
    var Choice(a, b) := p;
    if TestSuffices(a, First(b, fl)) {
      ChoiceByTest(p, opt, g, fl, code, base, s, i, stack, r);
    } else if opt && b.True? {
      ChoiceReusingEntry(p, opt, g, fl, code, base, s, i, stack, r);
    } else {
      ChoiceDefault(p, opt, g, fl, code, base, s, i, stack, r);
    }
  }

  /** test (fail(a)) -> L1; a; jmp L2; L1: b; L2: */
  lemma {:induction false} ChoiceByTest(p: Tree, opt: bool, g: Guard, fl: Charset,
                                        code: seq<Instr>, base: int, s: seq<Byte>, i: nat, stack: Stack, r: Option<nat>)
    requires p.Choice? && TestSuffices(p.first, First(p.second, fl))
    requires Setup(p, opt, g, fl, code, base, s, i, stack, r)
    ensures Yields(code, s, Run(base, i, stack), r)
    decreases p, 0, 0
  {
    hide Yields, Step, At, Gen, Match, WellFormed, First, FirstEmpty, HeadFail, FixedLen, ToCharset, GenTest, TestSize,
         TestGuard, Emit;
    UnfoldChoice(p, s, i);
    GenChoice(p, opt, g, fl);
    var Choice(a, b) := p;
    var cs, ts := First(a, FULL), TestSize(First(a, FULL), false);
    var ca, cb := Gen(a, false, TestGuard(cs, false), fl), Gen(b, opt, NoGuard, fl);
    var jmp := if b.True? then [] else Emit(IJmp(2 + |cb|));
    var off := ts + |ca| + |jmp|;
    var test := GenTest(cs, false, off);
    AtFour(code, base, test, ca, jmp, cb);
    if HeadFail(a) { HeadFailSound(a, s, i); }
    var m := Match(a, s, i);
    if i < |s| && s[i] in cs {
      TestHolds(cs, false, s, i);
      if m.Some? {
        if !b.True? { JmpStep(code, base + ts + |ca|, 2 + |cb|, s, m.value, stack, r); }
      } else if Match(b, s, i).Some? {
        FirstSound(b, fl, s, i);
      }
      GenCorrect(a, false, TestGuard(cs, false), fl, code, base + ts, s, i, stack, r);
    } else {
      TestSound(a, s, i);
      GenCorrect(b, opt, NoGuard, fl, code, base + off, s, i, stack, r);
    }
    TestStep(code, base, cs, false, off, s, i, stack, r);
  }

  /** partialcommit L1; L1: a   (inside an optional pattern, b == True) */
  lemma {:induction false} ChoiceReusingEntry(p: Tree, opt: bool, g: Guard, fl: Charset,
                                              code: seq<Instr>, base: int, s: seq<Byte>, i: nat, stack: Stack,
                                              r: Option<nat>)
    requires p.Choice? && !TestSuffices(p.first, First(p.second, fl)) && opt && p.second.True?
    requires Setup(p, opt, g, fl, code, base, s, i, stack, r)
    ensures Yields(code, s, Run(base, i, stack), r)
    decreases p, 0, 0
  {
    hide Yields, Step, At, Gen, Match, WellFormed, First, FirstEmpty, HeadFail, FixedLen, ToCharset, TestSuffices,
         GenTest, TestSize, TestGuard, Emit;
    UnfoldChoice(p, s, i);
    GenChoice(p, opt, g, fl);
    var a := p.first;
    var ca := Gen(a, true, NoGuard, FULL);
    AtSplit(code, base, Emit(IPartialCommit(2)), ca);
    GenCorrect(a, true, NoGuard, FULL, code, base + 2, s, i, stack.(pos := i), r);
    PartialCommitStep(code, base, 2, s, i, stack, r);
  }

  /** test(first(a)) -> L1; choice L1; a; commit L2; L1: b; L2: */
  lemma {:induction false} ChoiceDefault(p: Tree, opt: bool, g: Guard, fl: Charset,
                                         code: seq<Instr>, base: int, s: seq<Byte>, i: nat, stack: Stack,
                                         r: Option<nat>)
    requires p.Choice? && !TestSuffices(p.first, First(p.second, fl)) && !(opt && p.second.True?)
    requires Setup(p, opt, g, fl, code, base, s, i, stack, r)
    ensures Yields(code, s, Run(base, i, stack), r)
    decreases p, 0, 0
  {
    hide Yields, Step, At, Gen, Match, WellFormed, First, FirstEmpty, HeadFail, FixedLen, ToCharset, TestSuffices,
         GenTest, TestSize, TestGuard, Emit, ChoiceCode;
    UnfoldChoice(p, s, i);
    GenChoice(p, opt, g, fl);
    var Choice(a, b) := p;
    var cs, e := First(a, FULL), FirstEmpty(a);
    var ts := TestSize(cs, e);
    var ca, cb := Gen(a, b.True?, TestGuard(cs, e), FULL), Gen(b, opt, NoGuard, fl);
    var off := ts + 2 + |ca| + 2;
    ChoiceLayout(code, base, cs, e, ca, cb);
    if Match(a, s, i).None? { GenCorrect(b, opt, NoGuard, fl, code, base + off, s, i, stack, r); }
    if !e && !(i < |s| && s[i] in cs) {
      TestSound(a, s, i);
    } else {
      TestHolds(cs, e, s, i);
      Attempt(a, b.True?, TestGuard(cs, e), 2 + |cb|, code, base + ts, s, i, stack, r);
    }
    TestStep(code, base, cs, e, off, s, i, stack, r);
  }

  /** choice L1; a; commit; L1:   With `last`, the commit leads to L1 as well, and `a` may
      use the backtrack entry. */
  lemma {:induction false} Attempt(a: Tree, last: bool, g: Guard, off: int,
                                   code: seq<Instr>, base: int, s: seq<Byte>, i: nat, stack: Stack, r: Option<nat>)
    requires WellFormed(a) && i <= |s| && Holds(g, s, i) && (last ==> off == 2)
    requires At(code, base, Emit(IChoice(2 + |Gen(a, last, g, FULL)| + 2)))
    requires At(code, base + 2, Gen(a, last, g, FULL))
    requires At(code, base + 2 + |Gen(a, last, g, FULL)|, Emit(ICommit(off)))
    requires var n := |Gen(a, last, g, FULL)|;
             match Match(a, s, i)
             case None => Yields(code, s, Run(base + 2 + n + 2, i, stack), r)
             case Some(j) => Yields(code, s, Run(base + 2 + n + off, j, stack), r)
    ensures Yields(code, s, Run(base, i, stack), r)
    decreases a, 2, 0
  {
    hide Yields, Step, At, Gen, Match, WellFormed, First, FirstEmpty, HeadFail, FixedLen, ToCharset, TestSuffices,
         GenTest, TestSize, TestGuard, Emit;
    var n, m := |Gen(a, last, g, FULL)|, Match(a, s, i);
    if m.Some? { CommitStep(code, base + 2 + n, off, s, m.value, stack, r); }
    GenCorrect(a, last, g, FULL, code, base + 2, s, i, Push(base + 2 + n + 2, i, stack), r);
    ChoiceStep(code, base, 2 + n + 2, s, i, stack, r);
  }

  lemma {:induction false} RepCorrect(p: Tree, opt: bool, g: Guard, fl: Charset,
                                      code: seq<Instr>, base: int, s: seq<Byte>, i: nat, stack: Stack, r: Option<nat>)
    requires p.Rep?
    requires Setup(p, opt, g, fl, code, base, s, i, stack, r)
    ensures Yields(code, s, Run(base, i, stack), r)
    decreases p, 0, |s| + 2
  {
    hide Yields, Step, At, Gen, Match, WellFormed, First, FirstEmpty, HeadFail, FixedLen, ToCharset, TestSuffices,
         GenTest, TestSize, TestGuard, Emit;
    UnfoldRep(p, s, i);
    GenRep(p, opt, g, fl);
    if IsCharset(p.body) {
      SpanIsRep(p.body, s, i);
      SpanStep(code, base, ToCharset(p.body), s, i, stack, r);
    } else if TestSuffices(p.body, fl) {
      RepByTest(p, opt, g, fl, code, base, s, i, stack, r);
    } else {
      RepDefault(p, opt, g, fl, code, base, s, i, stack, r);
    }
  }

  lemma {:induction false} SpanIsRep(q: Tree, s: seq<Byte>, i: nat)
    requires IsCharset(q) && i <= |s|
    ensures Match(Rep(q), s, i) == Some(SpanEnd(ToCharset(q), s, i))
    decreases |s| - i
  {
    if i < |s| && s[i] in ToCharset(q) { SpanIsRep(q, s, i + 1); }
  }

  /** L1: test (fail(q)) -> L2; q; jmp L1; L2: */
  lemma {:induction false} RepByTest(p: Tree, opt: bool, g: Guard, fl: Charset,
                                     code: seq<Instr>, base: int, s: seq<Byte>, i: nat, stack: Stack, r: Option<nat>)
    requires p.Rep? && !IsCharset(p.body) && TestSuffices(p.body, fl)
    requires Setup(p, opt, g, fl, code, base, s, i, stack, r)
    ensures Yields(code, s, Run(base, i, stack), r)
    decreases p, 0, |s| - i
  {
    hide Yields, Step, At, Gen, Match, WellFormed, First, FirstEmpty, HeadFail, FixedLen, ToCharset, GenTest, TestSize,
         TestGuard, Emit;
    UnfoldRep(p, s, i);
    GenRep(p, opt, g, fl);
    var q := p.body;
    var cs, ts := First(q, FULL), TestSize(First(q, FULL), false);
    var c := Gen(q, false, TestGuard(cs, false), FULL);
    var n := ts + |c|;
    var test := GenTest(cs, false, n + 2);
    AtSplit(code, base, test + c, Emit(IJmp(-n)));
    AtSplit(code, base, test, c);
    if HeadFail(q) { HeadFailSound(q, s, i); }
    var m := Match(q, s, i);
    NullableSound(q, s, i);
    if i < |s| && s[i] in cs {
      TestHolds(cs, false, s, i);
      if m.Some? {
        GenRep(p, opt, NoGuard, fl);
        RepByTest(p, opt, NoGuard, fl, code, base, s, m.value, stack, r);
        JmpStep(code, base + n, -n, s, m.value, stack, r);
      }
      GenCorrect(q, false, TestGuard(cs, false), FULL, code, base + ts, s, i, stack, r);
    } else {
      TestSound(q, s, i);
    }
    TestStep(code, base, cs, false, n + 2, s, i, stack, r);
  }

  /** test(fail(q)) -> L2; choice L2; L1: q; partialcommit L1; L2:
      with a partialcommit instead of the choice inside an optional pattern */
  lemma {:induction false} RepDefault(p: Tree, opt: bool, g: Guard, fl: Charset,
                                      code: seq<Instr>, base: int, s: seq<Byte>, i: nat, stack: Stack, r: Option<nat>)
    requires p.Rep? && !IsCharset(p.body) && !TestSuffices(p.body, fl)
    requires Setup(p, opt, g, fl, code, base, s, i, stack, r)
    ensures Yields(code, s, Run(base, i, stack), r)
    decreases p, 0, |s| + 1
  {
    hide Yields, Step, At, Gen, Match, WellFormed, First, FirstEmpty, HeadFail, FixedLen, ToCharset, TestSuffices,
         GenTest, TestSize, TestGuard, Emit, RepCode;
    UnfoldRep(p, s, i);
    GenRep(p, opt, g, fl);
    var q := p.body;
    var cs, e := First(q, FULL), FirstEmpty(q);
    var ts := TestSize(cs, e);
    var c := Gen(q, false, NoGuard, FULL);
    var off := ts + 2 + |c| + 2;
    var enter := if opt then IPartialCommit(2) else IChoice(2 + |c| + 2);
    RepLayout(code, base, cs, e, opt, c);
    if !e && !(i < |s| && s[i] in cs) {
      TestSound(q, s, i);
    } else {
      RepLoop(p, code, base + ts + 2, s, i, if opt then stack.(pos := i) else Push(base + off, i, stack), r);
      if opt {
        PartialCommitStep(code, base + ts, 2, s, i, stack, r);
      } else {
        ChoiceStep(code, base + ts, 2 + |c| + 2, s, i, stack, r);
      }
    }
    TestStep(code, base, cs, e, off, s, i, stack, r);
  }

  /** L1: q; partialcommit L1   ends by backtracking through the top entry, which
      then holds the position where the repetition stopped. */
  lemma {:induction false} RepLoop(p: Tree, code: seq<Instr>, base: int, s: seq<Byte>, i: nat, stack: Stack,
                                   r: Option<nat>)
    requires p.Rep? && WellFormed(p) && i <= |s| && stack.Push? && stack.pos == i
    requires At(code, base, Gen(p.body, false, NoGuard, FULL))
    requires var e := base + |Gen(p.body, false, NoGuard, FULL)|; At(code, e, Emit(IPartialCommit(base - e)))
    requires Match(p, s, i).Some? ==> Yields(code, s, Run(stack.pc, Match(p, s, i).value, stack.rest), r)
    ensures Yields(code, s, Run(base, i, stack), r)
    decreases p, 0, |s| - i
  {
    hide Yields, Step, At, Gen, Match, WellFormed, First, FirstEmpty, HeadFail, FixedLen, ToCharset, TestSuffices,
         GenTest, TestSize, TestGuard, Emit;
    UnfoldRep(p, s, i);
    var q := p.body;
    var e := base + |Gen(q, false, NoGuard, FULL)|;
    NullableSound(q, s, i);
    NoFailSound(p, s, i);
    var m := Match(q, s, i);
    if m.Some? {
      RepLoop(p, code, base, s, m.value, stack.(pos := m.value), r);
      PartialCommitStep(code, e, base - e, s, m.value, stack, r);
    }
    GenCorrect(q, false, NoGuard, FULL, code, base, s, i, stack, r);
  }

  /** Main theorem of code generation: for every well-formed pattern, subject and
      start position the machine halts, with exactly the result of the PEG
      semantics. */
  lemma {:induction false} CompileCorrect(p: Tree, s: seq<Byte>, i: nat)
    requires WellFormed(p) && i <= |s|
    ensures Yields(Compile(p), s, Start(i), Match(p, s, i))
  {
    hide Yields;
    var g, code := Gen(p, false, NoGuard, FULL), Compile(p);
    var stack := Push(GIVEUP, i, Bottom);
    var r := Match(p, s, i);
    assert code[0..|g|] == g;
    HaltYields(code, s, r);
    if r.Some? { BackStep(code, s, Run(|g|, r.value, stack), r); } else { BackStep(code, s, Fail(stack), r); }
    GenCorrect(p, false, NoGuard, FULL, code, 0, s, i, stack, r);
  }
}
