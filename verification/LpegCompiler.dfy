/** The imperative code generator of lib/lpeg/lpcode.c, which appends instructions and
    patches labels afterwards, refined to the code function; and the whole pipeline from
    pattern to match result. */
module LpegCompiler {
  import opened Wrappers
  import opened LpegTree
  import opened LpegAnalysis
  import opened LpegVm
  import opened LpegCode
  import opened LpegCorrect
  import opened LpegPeephole
  import opened LpegShape
  import opened LpegCharset
  import LpegFlatTree

  /** "no instruction" */
  const NOINST: int := -1

  /** What `codechar` and `codecharset` read at the address `tt` of a dominating test. */
  function GuardAt(code: seq<Instr>, tt: int): (g: Guard)
    requires tt < |code|
    ensures tt < 0 ==> g == NoGuard
  {
    if tt < 0 then NoGuard
    else
      match code[tt]
      case ITestChar(c, _) => GuardChar(c)
      case ITestSet(cs, _) => GuardSet(cs)
      case _ => NoGuard
  }

  lemma GuardStays(code: seq<Instr>, more: seq<Instr>, tt: int)
    requires tt < |code|
    ensures GuardAt(code + more, tt) == GuardAt(code, tt)
  {
  }

  /** Patching the label of an instruction that is already in place. */
  lemma Patched(code: seq<Instr>, pre: seq<Instr>, i: Instr, post: seq<Instr>, off: int)
    requires code == pre + Emit(i) + post && HasOffset(i)
    ensures |pre| < |code| && code[|pre|] == i
    ensures code[|pre| := SetOffset(i, off)] == pre + Emit(SetOffset(i, off)) + post
  {
    var j := SetOffset(i, off);
    assert Emit(i)[1..] == Emit(j)[1..];
    assert Emit(i) == [i] + Emit(i)[1..];
    assert Emit(j) == [j] + Emit(j)[1..];
    assert code == pre + ([i] + Emit(i)[1..]) + post;
  }

  lemma Assoc<T>(a: seq<T>, b: seq<T>, c: seq<T>)
    ensures a + (b + c) == (a + b) + c
  {
  }

  lemma Regroup4<T>(a: seq<T>, b: seq<T>, c: seq<T>, d: seq<T>)
    ensures a + b + c + d == a + (b + c + d)
  {
  }

  lemma Regroup5<T>(a: seq<T>, b: seq<T>, c: seq<T>, d: seq<T>, e: seq<T>)
    ensures a + b + c + d + e == a + (b + c + d + e)
  {
  }

  lemma RegroupHead<T>(a: seq<T>, b: seq<T>, c: seq<T>, d: seq<T>, e: seq<T>)
    ensures a + b + (c + d + e) == a + (b + c + d) + e
  {
  }

  lemma AppendEmpty<T>(a: seq<T>)
    ensures a + [] == a
  {
  }

  lemma RegroupTail<T>(a: seq<T>, b: seq<T>, c: seq<T>, d: seq<T>, e: seq<T>)
    ensures a + b + (c + d + e) == a + (b + c + d + e)
  {
  }

  class CompileState {
    var code: seq<Instr>

    constructor ()
      ensures code == []
    {
      code := [];
    }

    /** addinstruction, addoffsetinst and addcharset: append an instruction with room for
        its operands; labels are patched later. */
    method AddInstruction(i: Instr) returns (at: int)
      modifies this
      ensures at == |old(code)|
      ensures code == old(code) + Emit(i)
    {
      at := |code|;
      code := code + [i];
      var k := 1;
      while k < SizeI(i)
        invariant 1 <= k <= SizeI(i)
        invariant code == old(code) + [i] + Operands(k - 1)
      {
        code := code + [Operand];
        assert Operands(k) == Operands(k - 1) + [Operand];
        k := k + 1;
      }
    }

    /** jumptothere; the ghost arguments say how the code is split at the instruction. */
    method JumpToThere(instruction: int, target: int, ghost pre: seq<Instr>, ghost i: Instr, ghost post: seq<Instr>)
      requires instruction >= 0 ==> instruction == |pre| && HasOffset(i) && code == pre + Emit(i) + post
      modifies this
      ensures code == if instruction < 0 then old(code)
                      else pre + Emit(SetOffset(i, target - instruction)) + post
    {
      if instruction >= 0 {
        Patched(code, pre, i, post, target - instruction);
        code := code[instruction := SetOffset(code[instruction], target - instruction)];
      }
    }

    /** jumptohere */
    method JumpToHere(instruction: int, ghost pre: seq<Instr>, ghost i: Instr, ghost post: seq<Instr>)
      requires instruction >= 0 ==> instruction == |pre| && HasOffset(i) && code == pre + Emit(i) + post
      modifies this
      ensures code == if instruction < 0 then old(code)
                      else pre + Emit(SetOffset(i, |old(code)| - instruction)) + post
    {
      JumpToThere(instruction, |code|, pre, i, post);
    }

    /** jumptothere for the instruction that was emitted last */
    method LastJumpsTo(instruction: int, target: int, ghost pre: seq<Instr>, ghost i: Instr)
      requires instruction == |pre| && HasOffset(i) && code == pre + Emit(i)
      modifies this
      ensures code == pre + Emit(SetOffset(i, target - instruction))
    {
      assert code == pre + Emit(i) + [];
      JumpToThere(instruction, target, pre, i, []);
    }

    /** codechar */
    method CodeChar(c: Byte, tt: int)
      requires tt < |code|
      modifies this
      ensures code == old(code) + GenChar(c, GuardAt(old(code), tt))
    {
      if tt >= 0 && code[tt].ITestChar? && code[tt].c == c {
        var _ := AddInstruction(IAny);
      } else {
        var _ := AddInstruction(IChar(c));
      }
    }

    /** codecharset */
    method CodeCharset(cs: Charset, tt: int)
      requires tt < |code|
      modifies this
      ensures code == old(code) + GenCharset(cs, GuardAt(old(code), tt))
    {
      var kind := CharsetTypeOf(ToBits(cs));
      ToSetToBits(cs);
      match kind
      case KindChar(c) => CodeChar(c, tt);
      case KindSet =>
        if tt >= 0 && code[tt].ITestSet? && code[tt].cs == cs {
          var _ := AddInstruction(IAny);
        } else {
          var _ := AddInstruction(ISet(cs));
        }
      case KindFull => var _ := AddInstruction(IAny);
      case KindEmpty => var _ := AddInstruction(IFail);
    }

    /** codetestset; the label is still to be set */
    method CodeTestSet(cs: Charset, e: bool) returns (test: int)
      modifies this
      ensures test == if e then NOINST else |old(code)|
      ensures code == old(code) + GenTest(cs, e, 0)
      ensures !e ==> HasOffset(TestInstr(cs, 0)) && forall off :: SetOffset(TestInstr(cs, 0), off) == TestInstr(cs, off)
      ensures test < |code| && GuardAt(code, test) == TestGuard(cs, e)
    {
      if e { return NOINST; }
      var kind := CharsetTypeOf(ToBits(cs));
      ToSetToBits(cs);
      match kind {
        case KindEmpty => test := AddInstruction(IJmp(0));
        case KindFull => test := AddInstruction(ITestAny(0));
        case KindChar(c) => test := AddInstruction(ITestChar(c, 0));
        case KindSet => test := AddInstruction(ITestSet(cs, 0));
      }
    }

    /** codegen */
    method Codegen(p: Tree, opt: bool, tt: int, fl: Charset)
      requires tt < |code|
      modifies this
      ensures code == old(code) + Gen(p, opt, GuardAt(old(code), tt), fl)
      decreases p, 1, 0
    {
      hide TestSuffices, First, FirstEmpty, HeadFail, FixedLen, GuardAt;
      match p
      case Char(c) => CodeChar(c, tt);
      case Any => var _ := AddInstruction(IAny);
      case Set(cs) => CodeCharset(cs, tt);
      case True =>
      case False => var _ := AddInstruction(IFail);
      case Choice(_, _) => CodeChoice(p, opt, GuardAt(code, tt), fl);
      case Rep(_) => CodeRep(p, opt, GuardAt(code, tt), fl);
      case Behind(_, _) => CodeBehind(p, opt, GuardAt(code, tt), fl);
      case Not(_) => CodeNot(p, opt, GuardAt(code, tt), fl);
      case And(_) => CodeAnd(p, opt, tt, fl);
      case Seq(_, _) => CodeSeq(p, opt, tt, fl);
    }

    /** codebehind */
    method CodeBehind(p: Tree, opt: bool, ghost g: Guard, ghost fl: Charset)
      requires p.Behind?
      modifies this
      ensures code == old(code) + Gen(p, opt, g, fl)
      decreases p, 0, 0
    {
      hide Gen, Emit;
      GenBehind(p, opt, g, fl);
      if p.n > 0 { var _ := AddInstruction(IBehind(p.n)); }
      Codegen(p.body, false, NOINST, FULL);
      Assoc(old(code), BehindCode(p.n), Gen(p.body, false, NoGuard, FULL));
    }

    /** The TSeq case of codegen, with codeseq1. */
    method CodeSeq(p: Tree, opt: bool, tt: int, fl: Charset)
      requires p.Seq? && tt < |code|
      modifies this
      ensures code == old(code) + Gen(p, opt, GuardAt(old(code), tt), fl)
      decreases p, 0, 0
    {
      hide Gen, First, FixedLen, NeedFollow, GuardAt;
      var Seq(a, b) := p;
      ghost var g := GuardAt(code, tt);
      GenSeq(p, opt, g, fl);
      GuardStays(code, Gen(a, false, g, SeqFollow(a, b, fl)), tt);
      if NeedFollow(a) {
        Codegen(a, false, tt, First(b, fl));
      } else {
        Codegen(a, false, tt, FULL);
      }
      var tt2 := if FixedLen(a) != Some(0) then NOINST else tt;
      Codegen(b, opt, tt2, fl);
      Assoc(old(code), Gen(a, false, g, SeqFollow(a, b, fl)), Gen(b, opt, SeqGuard(a, g), fl));
    }

    /** codechoice */
    method CodeChoice(p: Tree, opt: bool, ghost g: Guard, fl: Charset)
      requires p.Choice?
      modifies this
      ensures code == old(code) + Gen(p, opt, g, fl)
      decreases p, 0, 2
    {
      hide Gen, First, FirstEmpty, HeadFail, FixedLen, ToCharset, TestSuffices, Emit, GenTest, TestSize, TestInstr,
           TestGuard, GuardAt;
      GenChoice(p, opt, g, fl);
      var Choice(a, b) := p;
      if TestSuffices(a, First(b, fl)) {
        CodeChoiceByTest(a, b, opt, fl);
      } else if opt && b.True? {
        var pc := AddInstruction(IPartialCommit(0));
        LastJumpsTo(pc, |code|, old(code), IPartialCommit(0));
        Codegen(a, true, NOINST, FULL);
        Assoc(old(code), Emit(IPartialCommit(2)), Gen(a, true, NoGuard, FULL));
      } else {
        CodeChoiceDefault(a, b, opt, fl);
      }
    }

    /** test (fail(a)) -> L1; a; jmp L2; L1: b; L2: */
    method CodeChoiceByTest(a: Tree, b: Tree, opt: bool, fl: Charset)
      modifies this
      ensures var cs := First(a, FULL);
              code == old(code) +
                ChoiceTestCode(cs, Gen(a, false, TestGuard(cs, false), fl), Gen(b, opt, NoGuard, fl), b.True?)
      decreases Choice(a, b), 0, 1
    {
      hide Gen, First, FirstEmpty, HeadFail, FixedLen, ToCharset, TestSuffices, Emit, GenTest, TestSize, TestInstr,
           TestGuard, GuardAt;
      ghost var c0, cs := code, First(a, FULL);
      ghost var ca, cb := Gen(a, false, TestGuard(cs, false), fl), Gen(b, opt, NoGuard, fl);
      ghost var t := GenTest(cs, false, TestSize(cs, false) + |ca| + if b.True? then 0 else 2);
      var jmp := CodeTested(a, b.True?, fl);
      Codegen(b, opt, NOINST, fl);
      if b.True? {
        AppendEmpty(t + ca);
        Assoc(c0, t + ca, cb);
      } else {
        JumpToHere(jmp, c0 + (t + ca), IJmp(0), cb);
        Regroup4(c0, t + ca, Emit(IJmp(2 + |cb|)), cb);
      }
    }

    /** test (fail(a)) -> L1; a; jmp ?; L1: */
    method CodeTested(a: Tree, emptyp2: bool, fl: Charset) returns (jmp: int)
      modifies this
      ensures var cs := First(a, FULL);
              var ca := Gen(a, false, TestGuard(cs, false), fl);
              var t := GenTest(cs, false, TestSize(cs, false) + |ca| + if emptyp2 then 0 else 2);
              jmp == (if emptyp2 then NOINST else |old(code) + (t + ca)|) &&
              code == if emptyp2 then old(code) + (t + ca) else old(code) + (t + ca) + Emit(IJmp(0))
      decreases a, 2, 0
    {
      hide Gen, First, FirstEmpty, HeadFail, FixedLen, ToCharset, TestSuffices, Emit, GenTest, TestSize, TestInstr,
           TestGuard, GuardAt;
      ghost var c0 := code;
      var cs := First(a, FULL);
      var test := CodeTestSet(cs, false);
      Codegen(a, false, test, fl);
      ghost var ca := Gen(a, false, TestGuard(cs, false), fl);
      jmp := NOINST;
      if emptyp2 {
        JumpToHere(test, c0, TestInstr(cs, 0), ca);
        Assoc(c0, GenTest(cs, false, TestSize(cs, false) + |ca|), ca);
      } else {
        jmp := AddInstruction(IJmp(0));
        Assoc(c0 + Emit(TestInstr(cs, 0)), ca, Emit(IJmp(0)));
        JumpToHere(test, c0, TestInstr(cs, 0), ca + Emit(IJmp(0)));
        ghost var t := GenTest(cs, false, TestSize(cs, false) + |ca| + 2);
        Assoc(c0 + t, ca, Emit(IJmp(0)));
        Assoc(c0, t, ca);
      }
    }

    /** test(first(a)) -> L1; choice L1; a; commit L2; L1: b; L2: */
    method CodeChoiceDefault(a: Tree, b: Tree, opt: bool, fl: Charset)
      modifies this
      ensures var cs, e := First(a, FULL), FirstEmpty(a);
              code == old(code) + ChoiceCode(cs, e, Gen(a, b.True?, TestGuard(cs, e), FULL), Gen(b, opt, NoGuard, fl))
      decreases Choice(a, b), 0, 1
    {
      hide Gen, First, FirstEmpty, HeadFail, FixedLen, ToCharset, TestSuffices, Emit, GenTest, TestSize, TestInstr,
           TestGuard, GuardAt, ChoiceHead;
      ghost var c0, cs, e := code, First(a, FULL), FirstEmpty(a);
      ghost var ca, cb := Gen(a, b.True?, TestGuard(cs, e), FULL), Gen(b, opt, NoGuard, fl);
      ghost var head := ChoiceHead(cs, e, ca);
      var pcommit := CodeAlternative(a, b.True?);
      Codegen(b, opt, NOINST, fl);
      JumpToHere(pcommit, c0 + head, ICommit(0), cb);
      Regroup4(c0, head, Emit(ICommit(2 + |cb|)), cb);
    }

    /** test(first(a)) -> L1; choice L1; a; commit ?; L1: */
    method CodeAlternative(a: Tree, emptyp2: bool) returns (pcommit: int)
      modifies this
      ensures var cs, e := First(a, FULL), FirstEmpty(a);
              var ca := Gen(a, emptyp2, TestGuard(cs, e), FULL);
              var head := ChoiceHead(cs, e, ca);
              pcommit == |old(code) + head| && code == old(code) + head + Emit(ICommit(0))
      decreases a, 3, 0
    {
      hide Gen, First, FirstEmpty, HeadFail, FixedLen, ToCharset, TestSuffices, Emit, GenTest, TestSize, TestInstr,
           TestGuard, GuardAt;
      ghost var c0 := code;
      var cs, e := First(a, FULL), FirstEmpty(a);
      var test := CodeTestSet(cs, e);
      pcommit := CodeAttempt(a, emptyp2, test);
      ghost var ca := Gen(a, emptyp2, TestGuard(cs, e), FULL);
      ghost var choice, commit := Emit(IChoice(2 + |ca| + 2)), Emit(ICommit(0));
      JumpToHere(test, c0, TestInstr(cs, 0), choice + ca + commit);
      RegroupHead(c0, GenTest(cs, e, TestSize(cs, e) + 2 + |ca| + 2), choice, ca, commit);
    }

    /** choice L1; a; commit ?; L1: */
    method CodeAttempt(a: Tree, emptyp2: bool, test: int) returns (pcommit: int)
      requires test < |code|
      modifies this
      ensures var ca := Gen(a, emptyp2, GuardAt(old(code), test), FULL);
              pcommit == |old(code)| + 2 + |ca| &&
              code == old(code) + (Emit(IChoice(2 + |ca| + 2)) + ca + Emit(ICommit(0)))
      decreases a, 2, 0
    {
      hide Gen, First, FirstEmpty, HeadFail, FixedLen, ToCharset, TestSuffices, Emit, GenTest, TestSize, TestInstr,
           TestGuard, GuardAt;
      ghost var c0, ca := code, Gen(a, emptyp2, GuardAt(code, test), FULL);
      GuardStays(code, Emit(IChoice(0)), test);
      var pchoice := AddInstruction(IChoice(0));
      Codegen(a, emptyp2, test, FULL);
      pcommit := AddInstruction(ICommit(0));
      Assoc(c0 + Emit(IChoice(0)), ca, Emit(ICommit(0)));
      JumpToHere(pchoice, c0, IChoice(0), ca + Emit(ICommit(0)));
      ghost var choice := Emit(IChoice(2 + |ca| + 2));
      Assoc(c0 + choice, ca, Emit(ICommit(0)));
      Regroup4(c0, choice, ca, Emit(ICommit(0)));
    }

    /** coderep */
    method CodeRep(p: Tree, opt: bool, ghost g: Guard, fl: Charset)
      requires p.Rep?
      modifies this
      ensures code == old(code) + Gen(p, opt, g, fl)
      decreases p, 0, 2
    {
      hide Gen, First, FirstEmpty, HeadFail, FixedLen, ToCharset, TestSuffices, Emit, GenTest, TestSize, TestInstr,
           TestGuard, GuardAt;
      GenRep(p, opt, g, fl);
      if IsCharset(p.body) {
        var _ := AddInstruction(ISpan(ToCharset(p.body)));
      } else if TestSuffices(p.body, fl) {
        CodeRepByTest(p.body);
      } else {
        CodeRepDefault(p.body, opt);
      }
    }

    /** L1: test (fail(q)) -> L2; q; jmp L1; L2: */
    method CodeRepByTest(q: Tree)
      modifies this
      ensures var cs := First(q, FULL);
              code == old(code) + RepTestCode(cs, Gen(q, false, TestGuard(cs, false), FULL))
      decreases q, 2, 0
    {
      hide Gen, First, FirstEmpty, HeadFail, FixedLen, ToCharset, TestSuffices, Emit, GenTest, TestSize, TestInstr,
           TestGuard, GuardAt;
      ghost var c0 := code;
      var cs := First(q, FULL);
      var test := CodeTestSet(cs, false);
      Codegen(q, false, test, FULL);
      var jmp := AddInstruction(IJmp(0));
      ghost var c := Gen(q, false, TestGuard(cs, false), FULL);
      ghost var n := TestSize(cs, false) + |c|;
      Assoc(c0 + Emit(TestInstr(cs, 0)), c, Emit(IJmp(0)));
      JumpToHere(test, c0, TestInstr(cs, 0), c + Emit(IJmp(0)));
      ghost var t := GenTest(cs, false, n + 2);
      Assoc(c0 + t, c, Emit(IJmp(0)));
      LastJumpsTo(jmp, test, c0 + t + c, IJmp(0));
      Regroup4(c0, t, c, Emit(IJmp(-n)));
    }

    /** test(fail(q)) -> L2; choice L2; L1: q; partialcommit L1; L2: */
    method CodeRepDefault(q: Tree, opt: bool)
      modifies this
      ensures code == old(code) + RepCode(First(q, FULL), FirstEmpty(q), opt, Gen(q, false, NoGuard, FULL))
      decreases q, 3, 0
    {
      hide Gen, First, FirstEmpty, HeadFail, FixedLen, ToCharset, TestSuffices, Emit, GenTest, TestSize, TestInstr,
           TestGuard, GuardAt;
      ghost var c0 := code;
      var cs, e := First(q, FULL), FirstEmpty(q);
      var test := CodeTestSet(cs, e);
      CodeLoop(q, opt);
      ghost var c := Gen(q, false, NoGuard, FULL);
      ghost var enter, last := Emit(LoopEntry(opt, c)), Emit(IPartialCommit(-|c|));
      JumpToHere(test, c0, TestInstr(cs, 0), enter + c + last);
      RegroupTail(c0, GenTest(cs, e, TestSize(cs, e) + 2 + |c| + 2), enter, c, last);
    }

    /** choice L2; L1: q; partialcommit L1; L2: */
    method CodeLoop(q: Tree, opt: bool)
      modifies this
      ensures var c := Gen(q, false, NoGuard, FULL);
              code == old(code) + (Emit(LoopEntry(opt, c)) + c + Emit(IPartialCommit(-|c|)))
      decreases q, 2, 0
    {
      hide Gen, First, FirstEmpty, HeadFail, FixedLen, ToCharset, TestSuffices, Emit, GenTest, TestSize, TestInstr,
           TestGuard, GuardAt;
      ghost var c0 := code;
      var pchoice := CodeLoopEntry(opt);
      var l2 := |code|;
      Codegen(q, false, NOINST, FULL);
      var commit := AddInstruction(IPartialCommit(0));
      ghost var c, enter0 := Gen(q, false, NoGuard, FULL), Emit(if opt then IPartialCommit(2) else IChoice(0));
      ghost var last := Emit(IPartialCommit(-|c|));
      LastJumpsTo(commit, l2, c0 + enter0 + c, IPartialCommit(0));
      Assoc(c0 + enter0, c, last);
      JumpToHere(pchoice, c0, IChoice(0), c + last);
      ghost var enter := Emit(LoopEntry(opt, c));
      Assoc(c0 + enter, c, last);
      Regroup4(c0, enter, c, last);
    }

    /** The start of the default loop: a backtrack entry, or the reuse of the active one. */
    method CodeLoopEntry(opt: bool) returns (pchoice: int)
      modifies this
      ensures pchoice == if opt then NOINST else |old(code)|
      ensures code == old(code) + Emit(if opt then IPartialCommit(2) else IChoice(0))
    {
      hide Emit;
      if opt {
        var pc := AddInstruction(IPartialCommit(0));
        LastJumpsTo(pc, |code|, old(code), IPartialCommit(0));
        return NOINST;
      }
      pchoice := AddInstruction(IChoice(0));
    }

    /** codenot */
    method CodeNot(p: Tree, ghost opt: bool, ghost g: Guard, ghost fl: Charset)
      requires p.Not?
      modifies this
      ensures code == old(code) + Gen(p, opt, g, fl)
      decreases p, 0, 0
    {
      hide Gen, First, FirstEmpty, HeadFail, FixedLen, ToCharset, TestSuffices, Emit, GenTest, TestSize, TestInstr,
           TestGuard, GuardAt;
      GenNot(p, opt, g, fl);
      var q := p.body;
      if HeadFail(q) {
        ghost var c0 := code;
        var cs, e := First(q, FULL), FirstEmpty(q);
        var test := CodeTestSet(cs, e);
        var _ := AddInstruction(IFail);
        JumpToHere(test, c0, TestInstr(cs, 0), Emit(IFail));
        Assoc(c0, GenTest(cs, e, TestSize(cs, e) + 1), Emit(IFail));
      } else {
        CodeNotDefault(q);
      }
    }

    /** test(fail(q)) -> L1; choice L1; q; failtwice; L1: */
    method CodeNotDefault(q: Tree)
      modifies this
      ensures code == old(code) + NotCode(First(q, FULL), FirstEmpty(q), Gen(q, false, NoGuard, FULL))
      decreases q, 3, 0
    {
      hide Gen, First, FirstEmpty, HeadFail, FixedLen, ToCharset, TestSuffices, Emit, GenTest, TestSize, TestInstr,
           TestGuard, GuardAt;
      ghost var c0 := code;
      var cs, e := First(q, FULL), FirstEmpty(q);
      var test := CodeTestSet(cs, e);
      CodeNotBody(q);
      ghost var c := Gen(q, false, NoGuard, FULL);
      ghost var choice := Emit(IChoice(2 + |c| + 1));
      JumpToHere(test, c0, TestInstr(cs, 0), choice + c + Emit(IFailTwice));
      RegroupTail(c0, GenTest(cs, e, TestSize(cs, e) + 2 + |c| + 1), choice, c, Emit(IFailTwice));
    }

    /** choice L1; q; failtwice; L1: */
    method CodeNotBody(q: Tree)
      modifies this
      ensures var c := Gen(q, false, NoGuard, FULL);
              code == old(code) + (Emit(IChoice(2 + |c| + 1)) + c + Emit(IFailTwice))
      decreases q, 2, 0
    {
      hide Gen, First, FirstEmpty, HeadFail, FixedLen, ToCharset, TestSuffices, Emit, GenTest, TestSize, TestInstr,
           TestGuard, GuardAt;
      ghost var c0 := code;
      var pchoice := AddInstruction(IChoice(0));
      Codegen(q, false, NOINST, FULL);
      ghost var c, twice := Gen(q, false, NoGuard, FULL), Emit(IFailTwice);
      var _ := AddInstruction(IFailTwice);
      Assoc(c0 + Emit(IChoice(0)), c, twice);
      JumpToHere(pchoice, c0, IChoice(0), c + twice);
      ghost var choice := Emit(IChoice(2 + |c| + 1));
      Assoc(c0 + choice, c, twice);
      Regroup4(c0, choice, c, twice);
    }

    /** codeand */
    method CodeAnd(p: Tree, ghost opt: bool, tt: int, ghost fl: Charset)
      requires p.And? && tt < |code|
      modifies this
      ensures code == old(code) + Gen(p, opt, GuardAt(old(code), tt), fl)
      decreases p, 0, 0
    {
      hide Gen, First, FirstEmpty, HeadFail, FixedLen, ToCharset, TestSuffices, Emit, GenTest, TestSize, TestInstr,
           TestGuard, GuardAt;
      ghost var g := GuardAt(code, tt);
      GenAnd(p, opt, g, fl);
      var n := FixedLen(p.body);
      if n.Some? && n.value <= MAX_BEHIND {
        Codegen(p.body, false, tt, FULL);
        if n.value > 0 { var _ := AddInstruction(IBehind(n.value)); }
        Assoc(old(code), Gen(p.body, false, g, FULL), BehindCode(n.value));
      } else {
        CodeAndDefault(p.body, tt);
      }
    }

    /** choice L1; q; backcommit L2; L1: fail; L2: */
    method CodeAndDefault(q: Tree, tt: int)
      requires tt < |code|
      modifies this
      ensures code == old(code) + AndCode(Gen(q, false, GuardAt(old(code), tt), FULL))
      decreases q, 2, 0
    {
      hide Gen, First, FirstEmpty, HeadFail, FixedLen, ToCharset, TestSuffices, Emit, GenTest, TestSize, TestInstr,
           TestGuard, GuardAt;
      ghost var c0, c := code, Gen(q, false, GuardAt(code, tt), FULL);
      GuardStays(code, Emit(IChoice(0)), tt);
      var pchoice := AddInstruction(IChoice(0));
      Codegen(q, false, tt, FULL);
      var pcommit := AddInstruction(IBackCommit(0));
      Assoc(c0 + Emit(IChoice(0)), c, Emit(IBackCommit(0)));
      JumpToHere(pchoice, c0, IChoice(0), c + Emit(IBackCommit(0)));
      ghost var choice := Emit(IChoice(2 + |c| + 2));
      Assoc(c0 + choice, c, Emit(IBackCommit(0)));
      var _ := AddInstruction(IFail);
      JumpToHere(pcommit, c0 + choice + c, IBackCommit(0), Emit(IFail));
      Regroup5(c0, choice, c, Emit(IBackCommit(3)), Emit(IFail));
    }
  }

  /** compile: code generation followed by the jump optimizer. */
  method CompilePattern(p: Tree) returns (code: array<Instr>)
    ensures fresh(code)
    ensures Preserves(Compile(p), code[..])
  {
    var state := new CompileState();
    state.Codegen(p, false, NOINST, FULL);
    var _ := state.AddInstruction(IEnd);
    assert state.code == Compile(p);
    CompileShape(p);
    var generated := state.code;
    code := new Instr[|generated|](k requires 0 <= k < |generated| => generated[k]);
    assert code[..] == generated;
    Peephole(code);
  }

  /** prepcompile: making the tree right associative before compiling it changes nothing. */
  lemma PreparedCorrect(p: Tree, s: seq<Byte>, i: nat)
    requires WellFormed(p) && i <= |s|
    ensures Yields(Compile(LpegFlatTree.Fix(p)), s, Start(i), Match(p, s, i))
  {
    LpegFlatTree.FixWellFormed(p);
    LpegFlatTree.FixMatch(p, s, i);
    CompileCorrect(LpegFlatTree.Fix(p), s, i);
  }

  /** lp_match on the array that holds a pattern: the array is made right associative in place,
      then compiled, then the jumps are optimized, then the code runs. The result is exactly
      that of the PEG semantics. */
  method MatchNodes(nodes: array<LpegFlatTree.Node>, ghost p: Tree, s: seq<Byte>, i: nat) returns (r: Option<nat>)
    requires LpegFlatTree.Holds(nodes[..], 0, p) && WellFormed(p) && i <= |s|
    modifies nodes
    ensures r == Match(p, s, i)
    ensures LpegFlatTree.Holds(nodes[..], 0, LpegFlatTree.Fix(p))
  {
    LpegFlatTree.FinalFix(nodes, 0, p);
    LpegFlatTree.ReadHolds(nodes[..], 0, LpegFlatTree.Fix(p));
    var t := LpegFlatTree.Read(nodes[..], 0);
    var code := CompilePattern(t.value);
    PreparedCorrect(p, s, i);
    assert Yields(code[..], s, Start(i), Match(p, s, i));
    ghost var n: nat :| Steps(code[..], s, Start(i), n) == Halt(Match(p, s, i));
    var final := Interpret(code[..], s, i, n);
    r := final.result;
  }

  /** The same from a tree. */
  method MatchPattern(p: Tree, s: seq<Byte>, i: nat) returns (r: Option<nat>)
    requires WellFormed(p) && i <= |s|
    ensures r == Match(p, s, i)
  {
    var flat := LpegFlatTree.Flat(p);
    var nodes := new LpegFlatTree.Node[|flat|](k requires 0 <= k < |flat| => flat[k]);
    assert nodes[..] == flat == nodes[..][0..|flat|];
    r := MatchNodes(nodes, p, s, i);
  }
}
