/** Generated code has the shape the jump optimizer relies on: labels stay inside the
    code of their pattern and no chain of jumps is circular. */
module LpegShape {
  import opened LpegTree
  import opened LpegAnalysis
  import opened LpegVm
  import opened LpegCode
  import opened LpegCorrect
  import opened LpegPeephole

  /** What the optimizer needs to know about address `pc`. */
  ghost predicate Good(code: seq<Instr>, pc: int) {
    && 0 <= pc < |code| && Grounded(code, pc)
    && (HasOffset(code[pc]) ==>
          && Head(code, pc + code[pc].offset)
          && pc + 1 < |code| && code[pc + 1] == Operand)
  }

  ghost predicate GoodIn(code: seq<Instr>, lo: int, hi: int) {
    forall pc :: lo <= pc < hi ==> Good(code, pc)
  }

  /** An address to which labels may lead. */
  ghost predicate Entry(code: seq<Instr>, pc: int) {
    Head(code, pc) && Good(code, pc)
  }

  /** A label must lead to an instruction; a jump is grounded when its target is, every other
      instruction always is. */
  lemma EmitGood(code: seq<Instr>, base: int, i: Instr)
    requires At(code, base, Emit(i)) && i != Operand
    requires HasOffset(i) ==> Head(code, base + i.offset)
    requires i.IJmp? ==> Good(code, base + i.offset)
    ensures GoodIn(code, base, base + SizeI(i)) && Entry(code, base)
  {
    AtInstr(code, base, i);
    if i.IJmp? {
      var n: nat :| Settles(code, base + i.offset, n);
      assert Settles(code, base, n + 1);
    } else {
      assert Settles(code, base, 0);
    }
    forall pc | base < pc < base + SizeI(i)
      ensures Good(code, pc) && code[pc] == Operand
    {
      assert code[pc] == code[base..base + |Emit(i)|][pc - base] == Operand;
      assert Settles(code, pc, 0);
    }
  }

  lemma TestGood(code: seq<Instr>, base: int, cs: Charset, e: bool, off: int)
    requires At(code, base, GenTest(cs, e, off)) && Entry(code, base + off)
    ensures GoodIn(code, base, base + TestSize(cs, e)) && (!e ==> Entry(code, base))
  {
    if !e { EmitGood(code, base, TestInstr(cs, off)); }
  }

  /** When the address behind the code of a pattern is good, so is every address in it:
      the only backward jump leads to a test, or to a jump out of the loop. */
  lemma {:induction false} GenGood(p: Tree, opt: bool, g: Guard, fl: Charset, code: seq<Instr>, base: int)
    requires At(code, base, Gen(p, opt, g, fl)) && Entry(code, base + |Gen(p, opt, g, fl)|)
    ensures GoodIn(code, base, base + |Gen(p, opt, g, fl)|) && Entry(code, base)
    decreases p, 1, 0
  {
    hide At, Good, Gen;
    GenHead(p, opt, g, fl, code, base);
    match p
    case Char(_) | Set(_) | Any | False | True => LeafGood(p, opt, g, fl, code, base);
    case Choice(_, _) => ChoiceGood(p, opt, g, fl, code, base);
    case Rep(_) => RepGood(p, opt, g, fl, code, base);
    case Not(_) => NotGood(p, opt, g, fl, code, base);
    case And(_) => AndGood(p, opt, g, fl, code, base);
    case Behind(_, _) => BehindGood(p, opt, g, fl, code, base);
    case Seq(_, _) => SeqGood(p, opt, g, fl, code, base);
  }

  /** The code of a pattern starts with an instruction, or is empty. */
  lemma GenHead(p: Tree, opt: bool, g: Guard, fl: Charset, code: seq<Instr>, base: int)
    requires At(code, base, Gen(p, opt, g, fl)) && Head(code, base + |Gen(p, opt, g, fl)|)
    ensures Head(code, base)
  {
    hide Gen;
    GenTiled(p, opt, g, fl);
    var c := Gen(p, opt, g, fl);
    if c != [] { assert code[base] == code[base..base + |c|][0]; }
  }

  lemma LeafGood(p: Tree, opt: bool, g: Guard, fl: Charset, code: seq<Instr>, base: int)
    requires IsCharset(p) || p.False? || p.True?
    requires At(code, base, Gen(p, opt, g, fl))
    ensures GoodIn(code, base, base + |Gen(p, opt, g, fl)|)
  {
    hide At, Good;
    if !p.True? { EmitGood(code, base, Gen(p, opt, g, fl)[0]); }
  }

  lemma {:induction false} SeqGood(p: Tree, opt: bool, g: Guard, fl: Charset, code: seq<Instr>, base: int)
    requires p.Seq?
    requires At(code, base, Gen(p, opt, g, fl)) && Entry(code, base + |Gen(p, opt, g, fl)|)
    ensures GoodIn(code, base, base + |Gen(p, opt, g, fl)|)
    decreases p, 0, 0
  {
    hide At, Good, Gen, First, FirstEmpty, HeadFail, FixedLen, ToCharset, TestSuffices, Emit, GenTest, TestSize,
         TestGuard;
    GenSeq(p, opt, g, fl);
    var fa, gb := SeqFollow(p.first, p.second, fl), SeqGuard(p.first, g);
    var ca, cb := Gen(p.first, false, g, fa), Gen(p.second, opt, gb, fl);
    AtSplit(code, base, ca, cb);
    GenGood(p.second, opt, gb, fl, code, base + |ca|);
    GenGood(p.first, false, g, fa, code, base);
  }

  lemma {:induction false} BehindGood(p: Tree, opt: bool, g: Guard, fl: Charset, code: seq<Instr>, base: int)
    requires p.Behind?
    requires At(code, base, Gen(p, opt, g, fl)) && Entry(code, base + |Gen(p, opt, g, fl)|)
    ensures GoodIn(code, base, base + |Gen(p, opt, g, fl)|)
    decreases p, 0, 0
  {
    hide At, Good, Gen, First, FirstEmpty, HeadFail, FixedLen, ToCharset, TestSuffices, Emit, GenTest, TestSize,
         TestGuard;
    GenBehind(p, opt, g, fl);
    AtSplit(code, base, BehindCode(p.n), Gen(p.body, false, NoGuard, FULL));
    GenGood(p.body, false, NoGuard, FULL, code, base + |BehindCode(p.n)|);
    if p.n > 0 { EmitGood(code, base, IBehind(p.n)); }
  }

  lemma {:induction false} ChoiceGood(p: Tree, opt: bool, g: Guard, fl: Charset, code: seq<Instr>, base: int)
    requires p.Choice?
    requires At(code, base, Gen(p, opt, g, fl)) && Entry(code, base + |Gen(p, opt, g, fl)|)
    ensures GoodIn(code, base, base + |Gen(p, opt, g, fl)|)
    decreases p, 0, 1
  {
    hide At, Good, Gen, First, FirstEmpty, HeadFail, FixedLen, ToCharset, TestSuffices, Emit, GenTest, TestSize,
         TestGuard;
    GenChoice(p, opt, g, fl);
    var Choice(a, b) := p;
    if TestSuffices(a, First(b, fl)) {
      ChoiceByTestGood(p, opt, g, fl, code, base);
    } else if opt && b.True? {
      AtSplit(code, base, Emit(IPartialCommit(2)), Gen(a, true, NoGuard, FULL));
      GenGood(a, true, NoGuard, FULL, code, base + 2);
      EmitGood(code, base, IPartialCommit(2));
    } else {
      ChoiceDefaultGood(p, opt, g, fl, code, base);
    }
  }

  lemma {:induction false} ChoiceByTestGood(p: Tree, opt: bool, g: Guard, fl: Charset, code: seq<Instr>, base: int)
    requires p.Choice? && TestSuffices(p.first, First(p.second, fl))
    requires At(code, base, Gen(p, opt, g, fl)) && Entry(code, base + |Gen(p, opt, g, fl)|)
    ensures GoodIn(code, base, base + |Gen(p, opt, g, fl)|)
    decreases p, 0, 0
  {
    hide At, Good, Gen, First, FirstEmpty, HeadFail, FixedLen, ToCharset, TestSuffices, Emit, GenTest, TestSize,
         TestGuard;
    GenChoice(p, opt, g, fl);
    var Choice(a, b) := p;
    var cs, cb := First(a, FULL), Gen(b, opt, NoGuard, fl);
    var ts, ca := TestSize(cs, false), Gen(a, false, TestGuard(cs, false), fl);
    var jmp := if b.True? then [] else Emit(IJmp(2 + |cb|));
    var off := ts + |ca| + |jmp|;
    AtFour(code, base, GenTest(cs, false, off), ca, jmp, cb);
    GenGood(b, opt, NoGuard, fl, code, base + off);
    if !b.True? { EmitGood(code, base + ts + |ca|, IJmp(2 + |cb|)); }
    GenGood(a, false, TestGuard(cs, false), fl, code, base + ts);
    TestGood(code, base, cs, false, off);
  }

  lemma {:induction false} ChoiceDefaultGood(p: Tree, opt: bool, g: Guard, fl: Charset, code: seq<Instr>, base: int)
    requires p.Choice? && !TestSuffices(p.first, First(p.second, fl)) && !(opt && p.second.True?)
    requires At(code, base, Gen(p, opt, g, fl)) && Entry(code, base + |Gen(p, opt, g, fl)|)
    ensures GoodIn(code, base, base + |Gen(p, opt, g, fl)|)
    decreases p, 0, 0
  {
    hide At, Good, Gen, First, FirstEmpty, HeadFail, FixedLen, ToCharset, TestSuffices, Emit, GenTest, TestSize,
         TestGuard, ChoiceCode;
    GenChoice(p, opt, g, fl);
    var Choice(a, b) := p;
    var cs, e, cb := First(a, FULL), FirstEmpty(a), Gen(b, opt, NoGuard, fl);
    var ts, ca := TestSize(cs, e), Gen(a, b.True?, TestGuard(cs, e), FULL);
    var off := ts + 2 + |ca| + 2;
    ChoiceLayout(code, base, cs, e, ca, cb);
    GenGood(b, opt, NoGuard, fl, code, base + off);
    EmitGood(code, base + ts + 2 + |ca|, ICommit(2 + |cb|));
    GenGood(a, b.True?, TestGuard(cs, e), FULL, code, base + ts + 2);
    EmitGood(code, base + ts, IChoice(2 + |ca| + 2));
    TestGood(code, base, cs, e, off);
  }

  lemma {:induction false} RepGood(p: Tree, opt: bool, g: Guard, fl: Charset, code: seq<Instr>, base: int)
    requires p.Rep?
    requires At(code, base, Gen(p, opt, g, fl)) && Entry(code, base + |Gen(p, opt, g, fl)|)
    ensures GoodIn(code, base, base + |Gen(p, opt, g, fl)|)
    decreases p, 0, 1
  {
    hide At, Good, Gen, First, FirstEmpty, HeadFail, FixedLen, ToCharset, TestSuffices, Emit, GenTest, TestSize,
         TestGuard;
    GenRep(p, opt, g, fl);
    if IsCharset(p.body) {
      EmitGood(code, base, ISpan(ToCharset(p.body)));
    } else if TestSuffices(p.body, fl) {
      RepByTestGood(p, opt, g, fl, code, base);
    } else {
      RepDefaultGood(p, opt, g, fl, code, base);
    }
  }

  /** The backward jump leads to the test, which either is no jump or leaves the loop. */
  lemma {:induction false} RepByTestGood(p: Tree, opt: bool, g: Guard, fl: Charset, code: seq<Instr>, base: int)
    requires p.Rep? && !IsCharset(p.body) && TestSuffices(p.body, fl)
    requires At(code, base, Gen(p, opt, g, fl)) && Entry(code, base + |Gen(p, opt, g, fl)|)
    ensures GoodIn(code, base, base + |Gen(p, opt, g, fl)|)
    decreases p, 0, 0
  {
    hide At, Good, Gen, First, FirstEmpty, HeadFail, FixedLen, ToCharset, TestSuffices, Emit, GenTest, TestSize,
         TestGuard;
    GenRep(p, opt, g, fl);
    var q := p.body;
    var cs := First(q, FULL);
    var ts, c := TestSize(cs, false), Gen(q, false, TestGuard(cs, false), FULL);
    var n := ts + |c|;
    AtSplit(code, base, GenTest(cs, false, n + 2) + c, Emit(IJmp(-n)));
    AtSplit(code, base, GenTest(cs, false, n + 2), c);
    TestGood(code, base, cs, false, n + 2);
    EmitGood(code, base + n, IJmp(-n));
    GenGood(q, false, TestGuard(cs, false), FULL, code, base + ts);
  }

  lemma {:induction false} RepDefaultGood(p: Tree, opt: bool, g: Guard, fl: Charset, code: seq<Instr>, base: int)
    requires p.Rep? && !IsCharset(p.body) && !TestSuffices(p.body, fl)
    requires At(code, base, Gen(p, opt, g, fl)) && Entry(code, base + |Gen(p, opt, g, fl)|)
    ensures GoodIn(code, base, base + |Gen(p, opt, g, fl)|)
    decreases p, 0, 0
  {
    hide At, Good, Gen, First, FirstEmpty, HeadFail, FixedLen, ToCharset, TestSuffices, Emit, GenTest, TestSize,
         TestGuard, RepCode;
    GenRep(p, opt, g, fl);
    var q := p.body;
    var cs, e, c := First(q, FULL), FirstEmpty(q), Gen(q, false, NoGuard, FULL);
    var ts, enter := TestSize(cs, e), LoopEntry(opt, c);
    RepLayout(code, base, cs, e, opt, c);
    AtInstr(code, base + ts + 2 + |c|, IPartialCommit(-|c|));
    GenHead(q, false, NoGuard, FULL, code, base + ts + 2);
    EmitGood(code, base + ts + 2 + |c|, IPartialCommit(-|c|));
    GenGood(q, false, NoGuard, FULL, code, base + ts + 2);
    EmitGood(code, base + ts, enter);
    TestGood(code, base, cs, e, ts + 2 + |c| + 2);
  }

  lemma {:induction false} NotGood(p: Tree, opt: bool, g: Guard, fl: Charset, code: seq<Instr>, base: int)
    requires p.Not?
    requires At(code, base, Gen(p, opt, g, fl)) && Entry(code, base + |Gen(p, opt, g, fl)|)
    ensures GoodIn(code, base, base + |Gen(p, opt, g, fl)|)
    decreases p, 0, 1
  {
    hide At, Good, Gen, First, FirstEmpty, HeadFail, FixedLen, ToCharset, TestSuffices, Emit, GenTest, TestSize,
         TestGuard;
    GenNot(p, opt, g, fl);
    var q := p.body;
    var cs, e := First(q, FULL), FirstEmpty(q);
    var ts := TestSize(cs, e);
    if HeadFail(q) {
      AtSplit(code, base, GenTest(cs, e, ts + 1), Emit(IFail));
      EmitGood(code, base + ts, IFail);
      TestGood(code, base, cs, e, ts + 1);
    } else {
      NotDefaultGood(p, opt, g, fl, code, base);
    }
  }

  lemma {:induction false} NotDefaultGood(p: Tree, opt: bool, g: Guard, fl: Charset, code: seq<Instr>, base: int)
    requires p.Not? && !HeadFail(p.body)
    requires At(code, base, Gen(p, opt, g, fl)) && Entry(code, base + |Gen(p, opt, g, fl)|)
    ensures GoodIn(code, base, base + |Gen(p, opt, g, fl)|)
    decreases p, 0, 0
  {
    hide At, Good, Gen, First, FirstEmpty, HeadFail, FixedLen, ToCharset, TestSuffices, Emit, GenTest, TestSize,
         TestGuard;
    GenNot(p, opt, g, fl);
    var q := p.body;
    var cs, e, c := First(q, FULL), FirstEmpty(q), Gen(q, false, NoGuard, FULL);
    var ts := TestSize(cs, e);
    AtFour(code, base, GenTest(cs, e, ts + 2 + |c| + 1), Emit(IChoice(2 + |c| + 1)), c, Emit(IFailTwice));
    EmitGood(code, base + ts + 2 + |c|, IFailTwice);
    GenGood(q, false, NoGuard, FULL, code, base + ts + 2);
    EmitGood(code, base + ts, IChoice(2 + |c| + 1));
    TestGood(code, base, cs, e, ts + 2 + |c| + 1);
  }

  lemma {:induction false} AndGood(p: Tree, opt: bool, g: Guard, fl: Charset, code: seq<Instr>, base: int)
    requires p.And?
    requires At(code, base, Gen(p, opt, g, fl)) && Entry(code, base + |Gen(p, opt, g, fl)|)
    ensures GoodIn(code, base, base + |Gen(p, opt, g, fl)|)
    decreases p, 0, 0
  {
    hide At, Good, Gen, First, FirstEmpty, HeadFail, FixedLen, ToCharset, TestSuffices, Emit, GenTest, TestSize,
         TestGuard;
    GenAnd(p, opt, g, fl);
    var q := p.body;
    var c := Gen(q, false, g, FULL);
    if AndByBehind(q) {
      var n := FixedLen(q).value;
      AtSplit(code, base, c, BehindCode(n));
      if n > 0 { EmitGood(code, base + |c|, IBehind(n)); }
      GenGood(q, false, g, FULL, code, base);
    } else {
      AtFour(code, base, Emit(IChoice(2 + |c| + 2)), c, Emit(IBackCommit(3)), Emit(IFail));
      EmitGood(code, base + 2 + |c| + 2, IFail);
      EmitGood(code, base + 2 + |c|, IBackCommit(3));
      GenGood(q, false, g, FULL, code, base + 2);
      EmitGood(code, base, IChoice(2 + |c| + 2));
    }
  }

  // Generated code is a row of instructions with their operands.

  lemma {:induction false} TiledShift(a: seq<Instr>, b: seq<Instr>, i: nat)
    requires Tiled(b, i)
    ensures Tiled(a + b, |a| + i)
    decreases |b| - i
  {
    if i < |b| { TiledShift(a, b, i + SizeI(b[i])); }
  }

  lemma {:induction false} TiledConcat(a: seq<Instr>, b: seq<Instr>, i: nat)
    requires Tiled(a, i) && Tiled(b, 0)
    ensures Tiled(a + b, i)
    decreases |a| - i
  {
    if i == |a| { TiledShift(a, b, 0); } else { TiledConcat(a, b, i + SizeI(a[i])); }
  }

  lemma TiledThree(a: seq<Instr>, b: seq<Instr>, c: seq<Instr>)
    requires Tiled(a, 0) && Tiled(b, 0) && Tiled(c, 0)
    ensures Tiled(a + b + c, 0)
  {
    TiledConcat(a, b, 0);
    TiledConcat(a + b, c, 0);
  }

  lemma TiledFour(a: seq<Instr>, b: seq<Instr>, c: seq<Instr>, d: seq<Instr>)
    requires Tiled(a, 0) && Tiled(b, 0) && Tiled(c, 0) && Tiled(d, 0)
    ensures Tiled(a + b + c + d, 0)
  {
    hide Tiled;
    TiledThree(a, b, c);
    TiledConcat(a + b + c, d, 0);
  }

  lemma EmitTiled(i: Instr)
    requires i != Operand
    ensures Tiled(Emit(i), 0)
  {
    assert Tiled(Emit(i), SizeI(i));
  }

  lemma TestTiled(cs: Charset, e: bool, off: int)
    ensures Tiled(GenTest(cs, e, off), 0)
  {
    hide CharsetType;
    if !e { EmitTiled(TestInstr(cs, off)); }
  }

  lemma {:induction false} GenTiled(p: Tree, opt: bool, g: Guard, fl: Charset)
    ensures Tiled(Gen(p, opt, g, fl), 0)
    decreases p, 1
  {
    hide Tiled, Gen;
    match p
    case Char(_) | Set(_) | Any | False | True => LeafTiled(p, opt, g, fl);
    case Choice(_, _) => ChoiceTiled(p, opt, g, fl);
    case Rep(_) => RepTiled(p, opt, g, fl);
    case Not(_) => NotTiled(p, opt, g, fl);
    case And(_) => AndTiled(p, opt, g, fl);
    case Behind(q, n) =>
      GenBehind(p, opt, g, fl);
      BehindTiled(n);
      GenTiled(q, false, NoGuard, FULL);
      TiledConcat(BehindCode(n), Gen(q, false, NoGuard, FULL), 0);
    case Seq(a, b) =>
      GenSeq(p, opt, g, fl);
      GenTiled(a, false, g, SeqFollow(a, b, fl));
      GenTiled(b, opt, SeqGuard(a, g), fl);
      TiledConcat(Gen(a, false, g, SeqFollow(a, b, fl)), Gen(b, opt, SeqGuard(a, g), fl), 0);
  }

  lemma LeafTiled(p: Tree, opt: bool, g: Guard, fl: Charset)
    requires IsCharset(p) || p.False? || p.True?
    ensures Tiled(Gen(p, opt, g, fl), 0)
  {
    hide CharsetType;
    if !p.True? { EmitTiled(Gen(p, opt, g, fl)[0]); }
  }

  lemma BehindTiled(n: nat)
    ensures Tiled(BehindCode(n), 0)
  {
    if n > 0 { EmitTiled(IBehind(n)); }
  }

  lemma ChoiceTestTiled(cs: Charset, ca: seq<Instr>, cb: seq<Instr>, empty: bool)
    requires Tiled(ca, 0) && Tiled(cb, 0)
    ensures Tiled(ChoiceTestCode(cs, ca, cb, empty), 0)
  {
    hide Tiled, Emit, GenTest, TestSize;
    var jmp := if empty then [] else Emit(IJmp(2 + |cb|));
    if empty { BehindTiled(0); } else { EmitTiled(IJmp(2 + |cb|)); }
    var off := TestSize(cs, false) + |ca| + |jmp|;
    TestTiled(cs, false, off);
    TiledFour(GenTest(cs, false, off), ca, jmp, cb);
  }

  lemma ChoiceCodeTiled(cs: Charset, e: bool, ca: seq<Instr>, cb: seq<Instr>)
    requires Tiled(ca, 0) && Tiled(cb, 0)
    ensures Tiled(ChoiceCode(cs, e, ca, cb), 0)
  {
    hide Tiled, Emit, GenTest, TestSize;
    var off := TestSize(cs, e) + 2 + |ca| + 2;
    TestTiled(cs, e, off);
    EmitTiled(IChoice(2 + |ca| + 2));
    EmitTiled(ICommit(2 + |cb|));
    TiledThree(GenTest(cs, e, off), Emit(IChoice(2 + |ca| + 2)), ca);
    TiledThree(ChoiceHead(cs, e, ca), Emit(ICommit(2 + |cb|)), cb);
  }

  lemma {:induction false} ChoiceTiled(p: Tree, opt: bool, g: Guard, fl: Charset)
    requires p.Choice?
    ensures Tiled(Gen(p, opt, g, fl), 0)
    decreases p, 0
  {
    hide Tiled, Gen, First, FirstEmpty, TestSuffices, Emit, GenTest, TestSize, TestGuard, ChoiceTestCode, ChoiceCode;
    GenChoice(p, opt, g, fl);
    var Choice(a, b) := p;
    var cs, e, cb := First(a, FULL), FirstEmpty(a), Gen(b, opt, NoGuard, fl);
    GenTiled(b, opt, NoGuard, fl);
    if TestSuffices(a, First(b, fl)) {
      GenTiled(a, false, TestGuard(cs, false), fl);
      ChoiceTestTiled(cs, Gen(a, false, TestGuard(cs, false), fl), cb, b.True?);
    } else if opt && b.True? {
      GenTiled(a, true, NoGuard, FULL);
      EmitTiled(IPartialCommit(2));
      TiledConcat(Emit(IPartialCommit(2)), Gen(a, true, NoGuard, FULL), 0);
    } else {
      GenTiled(a, b.True?, TestGuard(cs, e), FULL);
      ChoiceCodeTiled(cs, e, Gen(a, b.True?, TestGuard(cs, e), FULL), cb);
    }
  }

  lemma {:induction false} RepTiled(p: Tree, opt: bool, g: Guard, fl: Charset)
    requires p.Rep?
    ensures Tiled(Gen(p, opt, g, fl), 0)
    decreases p, 0
  {
    hide Tiled, Gen, First, FirstEmpty, TestSuffices, Emit, GenTest, TestSize, TestGuard, ToCharset;
    GenRep(p, opt, g, fl);
    var q := p.body;
    var cs, e := First(q, FULL), FirstEmpty(q);
    if IsCharset(q) {
      EmitTiled(ISpan(ToCharset(q)));
    } else if TestSuffices(q, fl) {
      var c := Gen(q, false, TestGuard(cs, false), FULL);
      var n := TestSize(cs, false) + |c|;
      GenTiled(q, false, TestGuard(cs, false), FULL);
      TestTiled(cs, false, n + 2);
      EmitTiled(IJmp(-n));
      TiledThree(GenTest(cs, false, n + 2), c, Emit(IJmp(-n)));
    } else {
      var c := Gen(q, false, NoGuard, FULL);
      GenTiled(q, false, NoGuard, FULL);
      TestTiled(cs, e, TestSize(cs, e) + 2 + |c| + 2);
      EmitTiled(LoopEntry(opt, c));
      EmitTiled(IPartialCommit(-|c|));
      TiledFour(GenTest(cs, e, TestSize(cs, e) + 2 + |c| + 2), Emit(LoopEntry(opt, c)), c, Emit(IPartialCommit(-|c|)));
    }
  }

  lemma {:induction false} NotTiled(p: Tree, opt: bool, g: Guard, fl: Charset)
    requires p.Not?
    ensures Tiled(Gen(p, opt, g, fl), 0)
    decreases p, 0
  {
    hide Tiled, Gen, First, FirstEmpty, HeadFail, Emit, GenTest, TestSize;
    GenNot(p, opt, g, fl);
    var q := p.body;
    var cs, e, c := First(q, FULL), FirstEmpty(q), Gen(q, false, NoGuard, FULL);
    var ts := TestSize(cs, e);
    if HeadFail(q) {
      TestTiled(cs, e, ts + 1);
      EmitTiled(IFail);
      TiledConcat(GenTest(cs, e, ts + 1), Emit(IFail), 0);
    } else {
      GenTiled(q, false, NoGuard, FULL);
      TestTiled(cs, e, ts + 2 + |c| + 1);
      EmitTiled(IChoice(2 + |c| + 1));
      EmitTiled(IFailTwice);
      TiledFour(GenTest(cs, e, ts + 2 + |c| + 1), Emit(IChoice(2 + |c| + 1)), c, Emit(IFailTwice));
    }
  }

  lemma {:induction false} AndTiled(p: Tree, opt: bool, g: Guard, fl: Charset)
    requires p.And?
    ensures Tiled(Gen(p, opt, g, fl), 0)
    decreases p, 0
  {
    hide Tiled, Gen, FixedLen, Emit;
    GenAnd(p, opt, g, fl);
    var q := p.body;
    var c := Gen(q, false, g, FULL);
    GenTiled(q, false, g, FULL);
    if AndByBehind(q) {
      BehindTiled(FixedLen(q).value);
      TiledConcat(c, BehindCode(FixedLen(q).value), 0);
    } else {
      EmitTiled(IChoice(2 + |c| + 2));
      EmitTiled(IBackCommit(3));
      EmitTiled(IFail);
      TiledFour(Emit(IChoice(2 + |c| + 2)), c, Emit(IBackCommit(3)), Emit(IFail));
    }
  }

  /** The jump optimizer may be run on the code of every pattern. */
  lemma CompileShape(p: Tree)
    ensures Layout(Compile(p)) && Acyclic(Compile(p)) && LabelsLead(Compile(p))
    ensures Tiled(Compile(p), 0) && EndsInEnd(Compile(p))
  {
    hide Tiled;
    GenTiled(p, false, NoGuard, FULL);
    EmitTiled(IEnd);
    TiledConcat(Gen(p, false, NoGuard, FULL), Emit(IEnd), 0);
    CompileGood(p);
  }

  lemma CompileGood(p: Tree)
    ensures Layout(Compile(p)) && Acyclic(Compile(p)) && LabelsLead(Compile(p))
  {
    hide Gen, Grounded, Settles, FULL, Layout, Acyclic, LabelsLead;
    var g, code := Gen(p, false, NoGuard, FULL), Compile(p);
    assert code[0..|g|] == g;
    PlainGood(code, |g|);
    GenGood(p, false, NoGuard, FULL, code, 0);
    assert GoodIn(code, 0, |code|);
    GoodShape(code);
  }

  lemma GoodShape(code: seq<Instr>)
    requires GoodIn(code, 0, |code|)
    ensures Layout(code) && Acyclic(code) && LabelsLead(code)
  {
    hide Grounded, Settles;
    forall pc ensures Grounded(code, pc) {
      if 0 <= pc < |code| { assert Good(code, pc); } else { PlainGood(code, pc); }
    }
    forall pc | 0 <= pc < |code| && HasOffset(code[pc])
      ensures Head(code, pc + code[pc].offset) && pc + 1 < |code| && code[pc + 1] == Operand
    {
      assert Good(code, pc);
    }
    assert forall pc :: Labelled(code, pc) ==> Good(code, pc);
  }

  lemma PlainGood(code: seq<Instr>, pc: int)
    requires 0 <= pc < |code| ==> !HasOffset(code[pc])
    ensures Grounded(code, pc)
  {
    assert Settles(code, pc, 0);
  }
}
