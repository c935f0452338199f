/** Code generation of lib/lpeg/lpcode.c as a function: offsets are relative, so
    the code of a pattern does not depend on the address it is placed at. */
module LpegCode {
  import opened LpegTree
  import opened LpegAnalysis
  import opened LpegVm
  import opened Wrappers

  /** Result of `charsettype`: IFail, IChar, IAny or ISet. */
  datatype Kind = KindEmpty | KindChar(c: Byte) | KindFull | KindSet

  function CharsetType(cs: Charset): (k: Kind)
    ensures k.KindEmpty? <==> cs == {}
    ensures k.KindFull? <==> cs == FULL
    ensures k.KindChar? ==> cs == {k.c}
    ensures k.KindSet? ==> forall c :: cs != {c}
  {
    assert 0 in FULL && 1 in FULL;
    if cs == {} then KindEmpty
    else if cs == FULL then KindFull
    else if exists c | c in cs :: cs == {c} then
      var c :| c in cs && cs == {c};
      KindChar(c)
    else
      assert forall c :: cs == {c} ==> c in cs;
      KindSet
  }

  /** What a dominating test instruction `tt` says about the current character:
      only ITestChar and ITestSet are ever looked at. */
  datatype Guard = NoGuard | GuardChar(c: Byte) | GuardSet(cs: Charset)

  ghost predicate Holds(g: Guard, s: seq<Byte>, i: nat) {
    match g
    case NoGuard => true
    case GuardChar(c) => i < |s| && s[i] == c
    case GuardSet(cs) => i < |s| && s[i] in cs
  }

  function Operands(n: nat): (ops: seq<Instr>)
    ensures |ops| == n
  {
    seq(n, _ => Operand)
  }

  /** An instruction together with the slots of its operands. */
  function Emit(i: Instr): (code: seq<Instr>)
    ensures |code| == SizeI(i) && code[0] == i
  {
    [i] + Operands(SizeI(i) - 1)
  }

  /** codechar */
  function GenChar(c: Byte, g: Guard): seq<Instr> {
    Emit(if g == GuardChar(c) then IAny else IChar(c))
  }

  /** codecharset */
  function GenCharset(cs: Charset, g: Guard): seq<Instr> {
    match CharsetType(cs)
    case KindChar(c) => GenChar(c, g)
    case KindSet => Emit(if g == GuardSet(cs) then IAny else ISet(cs))
    case KindFull => Emit(IAny)
    case KindEmpty => Emit(IFail)
  }

  /** The instruction `codetestset` emits for a test that may not accept the
      empty string. */
  function TestInstr(cs: Charset, offset: int): Instr {
    match CharsetType(cs)
    case KindEmpty => IJmp(offset)
    case KindFull => ITestAny(offset)
    case KindChar(c) => ITestChar(c, offset)
    case KindSet => ITestSet(cs, offset)
  }

  function TestSize(cs: Charset, e: bool): (n: nat)
    ensures !e ==> n >= 2
  {
    if e then 0 else SizeI(TestInstr(cs, 0))
  }

  /** codetestset */
  function GenTest(cs: Charset, e: bool, offset: int): (code: seq<Instr>)
    ensures |code| == TestSize(cs, e)
    ensures code == if e then [] else Emit(TestInstr(cs, offset))
  {
    if e then [] else Emit(TestInstr(cs, offset))
  }

  /** What a test on `cs` guarantees to the code behind it. */
  function TestGuard(cs: Charset, e: bool): Guard {
    if e then NoGuard
    else
      match CharsetType(cs)
      case KindChar(c) => GuardChar(c)
      case KindSet => GuardSet(cs)
      case _ => NoGuard
  }

  predicate NeedFollow(p: Tree) {
    match p
    case Choice(_, _) | Rep(_) => true
    case Seq(_, b) => NeedFollow(b)
    case _ => false
  }

  /** The test of `codechoice` and `coderep` that makes a backtrack entry
      superfluous. */
  predicate TestSuffices(p: Tree, follow: Charset) {
    HeadFail(p) || (!FirstEmpty(p) && First(p, FULL) !! follow)
  }

  // The shapes of the generated code. Labels are relative to the instruction they belong to.

  /** test (fail(a)) -> L1; a; jmp L2; L1: b; L2:   (no jump when b is empty) */
  function ChoiceTestCode(cs: Charset, ca: seq<Instr>, cb: seq<Instr>, empty: bool): seq<Instr> {
    var jmp := if empty then [] else Emit(IJmp(2 + |cb|));
    GenTest(cs, false, TestSize(cs, false) + |ca| + |jmp|) + ca + jmp + cb
  }

  /** test(first(a)) -> L1; choice L1; a */
  function ChoiceHead(cs: Charset, e: bool, ca: seq<Instr>): seq<Instr> {
    GenTest(cs, e, TestSize(cs, e) + 2 + |ca| + 2) + Emit(IChoice(2 + |ca| + 2)) + ca
  }

  /** test(first(a)) -> L1; choice L1; a; commit L2; L1: b; L2: */
  function ChoiceCode(cs: Charset, e: bool, ca: seq<Instr>, cb: seq<Instr>): seq<Instr> {
    ChoiceHead(cs, e, ca) + Emit(ICommit(2 + |cb|)) + cb
  }

  /** L1: test (fail(q)) -> L2; q; jmp L1; L2: */
  function RepTestCode(cs: Charset, c: seq<Instr>): seq<Instr> {
    var n := TestSize(cs, false) + |c|;
    GenTest(cs, false, n + 2) + c + Emit(IJmp(-n))
  }

  /** choice L2; or, inside an optional pattern, partialcommit L1; L1: */
  function LoopEntry(opt: bool, c: seq<Instr>): Instr {
    if opt then IPartialCommit(2) else IChoice(2 + |c| + 2)
  }

  /** test(fail(q)) -> L2; choice L2; L1: q; partialcommit L1; L2: */
  function RepCode(cs: Charset, e: bool, opt: bool, c: seq<Instr>): seq<Instr> {
    GenTest(cs, e, TestSize(cs, e) + 2 + |c| + 2) + Emit(LoopEntry(opt, c)) + c + Emit(IPartialCommit(-|c|))
  }

  /** test (fail(q)) -> L1; fail; L1: */
  function NotTestCode(cs: Charset, e: bool): seq<Instr> {
    GenTest(cs, e, TestSize(cs, e) + 1) + Emit(IFail)
  }

  /** test(fail(q)) -> L1; choice L1; q; failtwice; L1: */
  function NotCode(cs: Charset, e: bool, c: seq<Instr>): seq<Instr> {
    GenTest(cs, e, TestSize(cs, e) + 2 + |c| + 1) + Emit(IChoice(2 + |c| + 1)) + c + Emit(IFailTwice)
  }

  /** behind n, when there is something to walk back over */
  function BehindCode(n: nat): seq<Instr> {
    if n > 0 then Emit(IBehind(n)) else []
  }

  /** choice L1; q; backcommit L2; L1: fail; L2: */
  function AndCode(c: seq<Instr>): seq<Instr> {
    Emit(IChoice(2 + |c| + 2)) + c + Emit(IBackCommit(3)) + Emit(IFail)
  }

  /** codegen; `opt`, `g` (for `tt`) and `fl` as in the source. */
  function Gen(p: Tree, opt: bool, g: Guard, fl: Charset): seq<Instr> {
    match p
    case Char(c) => GenChar(c, g)
    case Any => Emit(IAny)
    case Set(cs) => GenCharset(cs, g)
    case True => []
    case False => Emit(IFail)
    case Choice(a, b) =>
      var cs, e := First(a, FULL), FirstEmpty(a);
      if TestSuffices(a, First(b, fl)) then
        ChoiceTestCode(cs, Gen(a, false, TestGuard(cs, false), fl), Gen(b, opt, NoGuard, fl), b.True?)
      else if opt && b.True? then
        Emit(IPartialCommit(2)) + Gen(a, true, NoGuard, FULL)
      else
        ChoiceCode(cs, e, Gen(a, b.True?, TestGuard(cs, e), FULL), Gen(b, opt, NoGuard, fl))
    case Rep(q) =>
      var cs, e := First(q, FULL), FirstEmpty(q);
      if IsCharset(q) then Emit(ISpan(ToCharset(q)))
      else if TestSuffices(q, fl) then RepTestCode(cs, Gen(q, false, TestGuard(cs, false), FULL))
      else RepCode(cs, e, opt, Gen(q, false, NoGuard, FULL))
    case Behind(q, n) => BehindCode(n) + Gen(q, false, NoGuard, FULL)
    case Not(q) =>
      var cs, e := First(q, FULL), FirstEmpty(q);
      if HeadFail(q) then NotTestCode(cs, e) else NotCode(cs, e, Gen(q, false, NoGuard, FULL))
    case And(q) =>
      var c := Gen(q, false, g, FULL);
      if AndByBehind(q) then c + BehindCode(FixedLen(q).value) else AndCode(c)
    case Seq(a, b) =>
      Gen(a, false, g, SeqFollow(a, b, fl)) + Gen(b, opt, SeqGuard(a, g), fl)
  }

  /** The follow set that `codeseq1` gives to the first part of a sequence. */
  function SeqFollow(a: Tree, b: Tree, fl: Charset): Charset {
    if NeedFollow(a) then First(b, fl) else FULL
  }

  /** The test that still protects the second part of a sequence. */
  function SeqGuard(a: Tree, g: Guard): Guard {
    if FixedLen(a) == Some(0) then g else NoGuard
  }

  /** Can the `and` predicate be coded by walking back? */
  predicate AndByBehind(q: Tree) {
    FixedLen(q).Some? && FixedLen(q).value <= MAX_BEHIND
  }

  // The cases of `Gen`, to be used without unfolding it.

  lemma GenSeq(p: Tree, opt: bool, g: Guard, fl: Charset)
    requires p.Seq?
    ensures Gen(p, opt, g, fl) ==
              Gen(p.first, false, g, SeqFollow(p.first, p.second, fl)) + Gen(p.second, opt, SeqGuard(p.first, g), fl)
  {
  }

  lemma GenBehind(p: Tree, opt: bool, g: Guard, fl: Charset)
    requires p.Behind?
    ensures Gen(p, opt, g, fl) == BehindCode(p.n) + Gen(p.body, false, NoGuard, FULL)
  {
  }

  lemma GenNot(p: Tree, opt: bool, g: Guard, fl: Charset)
    requires p.Not?
    ensures HeadFail(p.body) ==> Gen(p, opt, g, fl) == NotTestCode(First(p.body, FULL), FirstEmpty(p.body))
    ensures !HeadFail(p.body) ==>
              Gen(p, opt, g, fl) == NotCode(First(p.body, FULL), FirstEmpty(p.body), Gen(p.body, false, NoGuard, FULL))
  {
    hide NotTestCode, NotCode, First, FirstEmpty, HeadFail;
  }

  lemma GenAnd(p: Tree, opt: bool, g: Guard, fl: Charset)
    requires p.And?
    ensures AndByBehind(p.body) ==>
              Gen(p, opt, g, fl) == Gen(p.body, false, g, FULL) + BehindCode(FixedLen(p.body).value)
    ensures !AndByBehind(p.body) ==> Gen(p, opt, g, fl) == AndCode(Gen(p.body, false, g, FULL))
  {
    hide AndCode, BehindCode;
  }

  lemma GenChoice(p: Tree, opt: bool, g: Guard, fl: Charset)
    requires p.Choice?
    ensures var a, b, cs, e := p.first, p.second, First(p.first, FULL), FirstEmpty(p.first);
            if TestSuffices(a, First(b, fl)) then
              Gen(p, opt, g, fl) ==
              ChoiceTestCode(cs, Gen(a, false, TestGuard(cs, false), fl), Gen(b, opt, NoGuard, fl), b.True?)
            else if opt && b.True? then
              Gen(p, opt, g, fl) == Emit(IPartialCommit(2)) + Gen(a, true, NoGuard, FULL)
            else
              Gen(p, opt, g, fl) ==
              ChoiceCode(cs, e, Gen(a, b.True?, TestGuard(cs, e), FULL), Gen(b, opt, NoGuard, fl))
    ensures p.second.True? ==> Gen(p.second, opt, NoGuard, fl) == []
  {
    hide ChoiceTestCode, ChoiceCode, First, FirstEmpty, TestGuard, TestSuffices, Emit;
  }

  lemma GenRep(p: Tree, opt: bool, g: Guard, fl: Charset)
    requires p.Rep?
    ensures var q, cs, e := p.body, First(p.body, FULL), FirstEmpty(p.body);
            if IsCharset(q) then Gen(p, opt, g, fl) == Emit(ISpan(ToCharset(q)))
            else if TestSuffices(q, fl) then
              Gen(p, opt, g, fl) == RepTestCode(cs, Gen(q, false, TestGuard(cs, false), FULL))
            else Gen(p, opt, g, fl) == RepCode(cs, e, opt, Gen(q, false, NoGuard, FULL))
  {
    hide RepTestCode, RepCode, First, FirstEmpty, TestGuard, TestSuffices, Emit, ToCharset;
  }

  /** compile, before `peephole` */
  function Compile(p: Tree): seq<Instr> {
    Gen(p, false, NoGuard, FULL) + Emit(IEnd)
  }
}
