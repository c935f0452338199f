/** The in-place jump optimizer of lib/lpeg/lpcode.c: what it may rewrite, why
    following jumps terminates, and why every rewrite preserves match results. */
module LpegPeephole {
  import opened Wrappers
  import opened LpegTree
  import opened LpegVm

  predicate IsJmp(code: seq<Instr>, pc: int) {
    0 <= pc < |code| && code[pc].IJmp?
  }

  /** Following jumps from `pc` arrives at another instruction after at most `n` jumps. */
  ghost predicate Settles(code: seq<Instr>, pc: int, n: nat)
    decreases n
  {
    IsJmp(code, pc) ==> n > 0 && Settles(code, pc + code[pc].offset, n - 1)
  }

  ghost predicate Grounded(code: seq<Instr>, pc: int) {
    exists n: nat :: Settles(code, pc, n)
  }

  /** No chain of jumps is circular. */
  ghost predicate Acyclic(code: seq<Instr>) {
    forall pc :: Grounded(code, pc)
  }

  /** Every label points into the code, and behind an instruction with a label there is
      the slot that holds its offset. */
  ghost predicate Layout(code: seq<Instr>) {
    forall pc :: 0 <= pc < |code| && HasOffset(code[pc]) ==>
      && 0 <= pc + code[pc].offset < |code|
      && pc + 1 < |code| && code[pc + 1] == Operand
  }

  /** An instruction, and not an operand, is at that address. */
  predicate Head(code: seq<Instr>, pc: int) {
    0 <= pc < |code| && code[pc] != Operand
  }

  predicate Labelled(code: seq<Instr>, pc: int) {
    0 <= pc < |code| && HasOffset(code[pc])
  }

  function Target(code: seq<Instr>, pc: int): int
    requires Labelled(code, pc)
  {
    pc + code[pc].offset
  }

  /** Every label leads to an instruction. */
  ghost predicate LabelsLead(code: seq<Instr>) {
    forall pc :: Labelled(code, pc) ==> Head(code, Target(code, pc))
  }

  ghost function FinalIn(code: seq<Instr>, pc: int, n: nat): int
    requires Settles(code, pc, n)
    decreases n
  {
    if IsJmp(code, pc) then FinalIn(code, pc + code[pc].offset, n - 1) else pc
  }

  /** The destination of the sequence of jumps that starts at `pc` (`finaltarget`). */
  ghost function Final(code: seq<Instr>, pc: int): int
    requires Grounded(code, pc)
  {
    var n: nat :| Settles(code, pc, n);
    FinalIn(code, pc, n)
  }

  lemma {:induction false} FinalUnique(code: seq<Instr>, pc: int, m: nat, n: nat)
    requires Settles(code, pc, m) && Settles(code, pc, n)
    ensures FinalIn(code, pc, m) == FinalIn(code, pc, n)
    decreases m
  {
    if IsJmp(code, pc) { FinalUnique(code, pc + code[pc].offset, m - 1, n - 1); }
  }

  lemma FinalStep(code: seq<Instr>, pc: int)
    requires Acyclic(code)
    ensures IsJmp(code, pc) ==> Final(code, pc) == Final(code, pc + code[pc].offset)
    ensures !IsJmp(code, pc) ==> Final(code, pc) == pc
  {
    assert Grounded(code, pc);
    var n: nat :| Settles(code, pc, n) && Final(code, pc) == FinalIn(code, pc, n);
    if IsJmp(code, pc) {
      var t := pc + code[pc].offset;
      assert Grounded(code, t);
      var m: nat :| Settles(code, t, m) && Final(code, t) == FinalIn(code, t, m);
      assert FinalIn(code, pc, n) == FinalIn(code, t, n - 1);
      FinalUnique(code, t, n - 1, m);
    }
  }

  lemma {:induction false} FinalInRange(code: seq<Instr>, pc: int, n: nat)
    requires Layout(code) && Acyclic(code) && Settles(code, pc, n) && 0 <= pc < |code|
    ensures 0 <= Final(code, pc) < |code| && !IsJmp(code, Final(code, pc))
    decreases n
  {
    FinalStep(code, pc);
    if IsJmp(code, pc) { FinalInRange(code, pc + code[pc].offset, n - 1); }
  }

  /** finaltarget: it looks at instructions only. */
  method FinalTarget(code: seq<Instr>, start: int) returns (i: int)
    requires Layout(code) && Acyclic(code) && LabelsLead(code) && Head(code, start)
    ensures i == Final(code, start)
    ensures Head(code, i) && !code[i].IJmp?
  {
    i := start;
    assert Grounded(code, start);
    ghost var n: nat :| Settles(code, i, n);
    while code[i].IJmp?
      invariant Head(code, i) && Settles(code, i, n)
      invariant Final(code, i) == Final(code, start)
      decreases n
    {
      FinalStep(code, i);
      assert Labelled(code, i) && Target(code, i) == i + code[i].offset;
      i := i + code[i].offset;
      n := n - 1;
    }
    FinalStep(code, i);
  }

  function SetOffset(i: Instr, offset: int): Instr
    requires HasOffset(i)
  {
    match i
    case ITestAny(_) => ITestAny(offset)
    case ITestChar(c, _) => ITestChar(c, offset)
    case ITestSet(cs, _) => ITestSet(cs, offset)
    case IChoice(_) => IChoice(offset)
    case IJmp(_) => IJmp(offset)
    case ICommit(_) => ICommit(offset)
    case IPartialCommit(_) => IPartialCommit(offset)
    case IBackCommit(_) => IBackCommit(offset)
  }

  /** Instructions that always transfer control to their label. */
  predicate Commits(i: Instr) {
    i.ICommit? || i.IPartialCommit? || i.IBackCommit?
  }

  /** Instructions with an unconditional implicit jump. */
  predicate Leaves(i: Instr) {
    i.IFail? || i.IFailTwice? || i.IEnd?
  }

  /** One rewrite of the instruction at address `at`. */
  ghost predicate Rewrite(c: seq<Instr>, d: seq<Instr>, at: int)
    requires Acyclic(c)
  {
    && 0 <= at < |c| && HasOffset(c[at])
    && if !c[at].IJmp? then
         d == c[at := SetOffset(c[at], Final(c, at + c[at].offset) - at)]
       else
         var ft := Final(c, at);
         && 0 <= ft < |c| && !c[ft].IJmp?
         && if Leaves(c[ft]) then
              at + 1 < |c| && d == c[at := c[ft]][at + 1 := IAny]
            else if Commits(c[ft]) then
              d == c[at := SetOffset(c[ft], Final(c, ft + c[ft].offset) - at)]
            else
              d == c[at := IJmp(ft - at)]
  }

  /** Two addresses at which `code` continues in the same way. */
  ghost predicate SameTarget(code: seq<Instr>, a: int, b: int)
    requires Acyclic(code)
  {
    a == b || (0 <= a < |code| && 0 <= b < |code| && Final(code, a) == Final(code, b))
  }

  ghost predicate StackSim(code: seq<Instr>, k: Stack, l: Stack)
    requires Acyclic(code)
  {
    match (k, l)
    case (Bottom, Bottom) => true
    case (Push(a, i, k'), Push(b, j, l')) => i == j && SameTarget(code, a, b) && StackSim(code, k', l')
    case _ => false
  }

  ghost predicate Sim(code: seq<Instr>, a: State, b: State)
    requires Acyclic(code)
  {
    if a.Run? then
      b.Run? && a.pos == b.pos && SameTarget(code, a.pc, b.pc) && StackSim(code, a.stack, b.stack)
    else a == b
  }

  /** The same instruction, executed at two addresses, preserves the simulation. */
  lemma ExecSim(code: seq<Instr>, i: Instr, j: Instr, next: int, dest: int, next': int, dest': int,
                s: seq<Byte>, pos: nat, k: Stack, l: Stack)
    requires Acyclic(code) && pos <= |s| && StackSim(code, k, l)
    requires i == j || (HasOffset(i) && HasOffset(j) && j == SetOffset(i, Offset(j)))
    requires HasOffset(i) ==> SameTarget(code, dest, dest')
    requires !Leaves(i) && !Commits(i) && !i.IJmp? ==> SameTarget(code, next, next')
    ensures Sim(code, Exec(i, next, dest, s, pos, k), Exec(j, next', dest', s, pos, l))
  {
    hide SameTarget;
  }

  /** Both machines execute an instruction other than a jump, the second one a
      rewritten one ... */
  lemma StepSimAt(c: seq<Instr>, d: seq<Instr>, at: int, s: seq<Byte>, a: State, b: State)
    requires Acyclic(c) && Layout(c) && Rewrite(c, d, at)
    requires a.Run? && Sim(c, a, b) && !IsJmp(c, a.pc) && !IsJmp(d, at) && b.pc == at && a.pos <= |s|
    ensures Sim(c, Step(c, s, a), Step(d, s, b))
  {
    hide Exec, StackSim, Settles, FinalIn, Final;
    FinalStep(c, a.pc);
    FinalStep(c, at);
    var i, j := c[a.pc], d[at];
    if c[at].IJmp? {
      assert a.pc == Final(c, at);
      if Commits(i) { FinalFinal(c, a.pc + i.offset); }
    } else {
      FinalFinal(c, at + c[at].offset);
    }
    ExecSim(c, i, j, a.pc + SizeI(i), a.pc + Offset(i), at + SizeI(j), at + Offset(j), s, a.pos, a.stack, b.stack);
  }

  /** ... or one that was left alone. */
  lemma StepSimElsewhere(c: seq<Instr>, d: seq<Instr>, at: int, s: seq<Byte>, a: State, b: State)
    requires Acyclic(c) && Layout(c) && Rewrite(c, d, at)
    requires a.Run? && Sim(c, a, b) && !IsJmp(c, a.pc) && !IsJmp(d, b.pc) && b.pc != at && a.pos <= |s|
    requires 0 <= a.pc < |c| && c[a.pc] != Operand
    ensures Sim(c, Step(c, s, a), Step(d, s, b))
  {
    hide Exec, StackSim, Settles, FinalIn, Final;
    FinalStep(c, a.pc);
    FinalStep(c, b.pc);
    var i := c[a.pc];
    ExecSim(c, i, i, a.pc + SizeI(i), a.pc + Offset(i), b.pc + SizeI(i), b.pc + Offset(i), s, a.pos, a.stack, b.stack);
  }

  lemma StepSim(c: seq<Instr>, d: seq<Instr>, at: int, s: seq<Byte>, a: State, b: State)
    requires Acyclic(c) && Layout(c) && Rewrite(c, d, at)
    requires a.Run? && Sim(c, a, b) && !IsJmp(c, a.pc) && !IsJmp(d, b.pc)
    requires Step(c, s, a) != Stuck
    ensures Sim(c, Step(c, s, a), Step(d, s, b))
  {
    hide Settles, FinalIn, Final, Layout;
    if b.pc == at {
      FinalStep(c, a.pc);
      StepSimAt(c, d, at, s, a, b);
    } else if 0 <= a.pc < |c| {
      StepSimElsewhere(c, d, at, s, a, b);
    }
  }

  lemma JumpStays(c: seq<Instr>, s: seq<Byte>, a: State, b: State)
    requires Acyclic(c) && Layout(c) && a.Run? && IsJmp(c, a.pc) && Sim(c, a, b)
    requires Step(c, s, a) != Stuck
    ensures Sim(c, Step(c, s, a), b)
  {
    FinalStep(c, a.pc);
  }

  lemma FinalFinal(c: seq<Instr>, pc: int)
    requires Acyclic(c) && Layout(c) && 0 <= pc < |c|
    ensures SameTarget(c, pc, Final(c, pc)) && 0 <= Final(c, pc) < |c| && !IsJmp(c, Final(c, pc))
  {
    assert Grounded(c, pc);
    var n: nat :| Settles(c, pc, n);
    FinalInRange(c, pc, n);
    FinalStep(c, Final(c, pc));
  }

  /** Every result the original code yields is yielded by the rewritten code. */
  lemma {:induction false} RewriteSound(c: seq<Instr>, d: seq<Instr>, at: int, s: seq<Byte>,
                                        a: State, b: State, n: nat, m: nat, r: Option<nat>)
    requires Acyclic(c) && Layout(c) && Rewrite(c, d, at) && Acyclic(d)
    requires Sim(c, a, b) && Steps(c, s, a, n) == Halt(r)
    requires b.Run? ==> Settles(d, b.pc, m)
    ensures Yields(d, s, b, r)
    decreases n, m
  {
    hide Exec, Yields, Rewrite, Layout, StackSim, SameTarget;
    if !a.Run? {
      FinalStays(c, s, a, n);
      HaltYields(d, s, r);
    } else if IsJmp(c, a.pc) {
      StuckNever(c, s, Step(c, s, a), n - 1, r);
      JumpStays(c, s, a, b);
      RewriteSound(c, d, at, s, Step(c, s, a), b, n - 1, m, r);
    } else if IsJmp(d, b.pc) {
      StuckNever(c, s, Step(c, s, a), n - 1, r);
      JumpSim(c, d, at, s, a, b);
      RewriteSound(c, d, at, s, a, Step(d, s, b), n, m - 1, r);
      BackStep(d, s, b, r);
    } else {
      StuckNever(c, s, Step(c, s, a), n - 1, r);
      StepSim(c, d, at, s, a, b);
      var b' := Step(d, s, b);
      assert b'.Run? ==> Grounded(d, b'.pc);
      var m': nat :| b'.Run? ==> Settles(d, b'.pc, m');
      RewriteSound(c, d, at, s, Step(c, s, a), b', n - 1, m', r);
      BackStep(d, s, b, r);
    }
  }

  lemma StuckNever(c: seq<Instr>, s: seq<Byte>, st: State, n: nat, r: Option<nat>)
    requires Steps(c, s, st, n) == Halt(r)
    ensures st != Stuck
  {
    if st == Stuck { FinalStays(c, s, st, n); }
  }

  lemma JumpSim(c: seq<Instr>, d: seq<Instr>, at: int, s: seq<Byte>, a: State, b: State)
    requires Acyclic(c) && Layout(c) && Rewrite(c, d, at)
    requires a.Run? && Sim(c, a, b) && !IsJmp(c, a.pc) && IsJmp(d, b.pc)
    requires Step(c, s, a) != Stuck
    ensures Step(d, s, b).Run? && Step(d, s, b).pc == b.pc + d[b.pc].offset
    ensures Sim(c, a, Step(d, s, b))
  {
    FinalStep(c, a.pc);
    FinalStep(c, b.pc);
    if b.pc == at {
      FinalFinal(c, at);
      FinalStep(c, at);
    }
  }

  lemma RewriteKeepsLayout(c: seq<Instr>, d: seq<Instr>, at: int)
    requires Acyclic(c) && Layout(c) && Rewrite(c, d, at)
    ensures Layout(d)
  {
    hide Settles, FinalIn, Final;
    FinalFinal(c, at);
    FinalFinal(c, at + c[at].offset);
    if c[at].IJmp? {
      var ft := Final(c, at);
      if Commits(c[ft]) { FinalFinal(c, ft + c[ft].offset); }
    }
  }

  lemma {:induction false} RewriteSettles(c: seq<Instr>, d: seq<Instr>, at: int, pc: int, n: nat)
    requires Acyclic(c) && Layout(c) && Rewrite(c, d, at) && Settles(c, pc, n)
    ensures Settles(d, pc, n)
    decreases n
  {
    if IsJmp(d, pc) {
      FinalFinal(c, at);
      if pc != at {
        RewriteSettles(c, d, at, pc + c[pc].offset, n - 1);
      } else {
        assert !IsJmp(d, Final(c, at));
      }
    }
  }

  lemma RewriteKeepsAcyclic(c: seq<Instr>, d: seq<Instr>, at: int)
    requires Acyclic(c) && Layout(c) && Rewrite(c, d, at)
    ensures Acyclic(d)
  {
    forall pc ensures Grounded(d, pc) {
      assert Grounded(c, pc);
      var n: nat :| Settles(c, pc, n);
      RewriteSettles(c, d, at, pc, n);
    }
  }

  /** Code `d` yields every result that code `c` yields. */
  ghost predicate Preserves(c: seq<Instr>, d: seq<Instr>) {
    forall s: seq<Byte>, i: nat, r: Option<nat> :: Yields(c, s, Start(i), r) ==> Yields(d, s, Start(i), r)
  }

  lemma RewritePreserves(c: seq<Instr>, d: seq<Instr>, at: int)
    requires Acyclic(c) && Layout(c) && Rewrite(c, d, at)
    ensures Acyclic(d) && Layout(d) && Preserves(c, d)
  {
    RewriteKeepsLayout(c, d, at);
    RewriteKeepsAcyclic(c, d, at);
    forall s: seq<Byte>, i: nat, r: Option<nat> | Yields(c, s, Start(i), r)
      ensures Yields(d, s, Start(i), r)
    {
      var n: nat :| Steps(c, s, Start(i), n) == Halt(r);
      assert Grounded(d, 0);
      var m: nat :| Settles(d, 0, m);
      assert StackSim(c, Bottom, Bottom);
      RewriteSound(c, d, at, s, Start(i), Start(i), n, m, r);
    }
  }

  /** From i on the code is a row of instructions, each followed by its operands. */
  ghost predicate Tiled(code: seq<Instr>, i: nat)
    decreases |code| - i
  {
    i == |code|
    || (i < |code| && code[i] != Operand && i + SizeI(code[i]) <= |code|
        && (forall k :: i < k < i + SizeI(code[i]) ==> code[k] == Operand)
        && Tiled(code, i + SizeI(code[i])))
  }

  ghost predicate EndsInEnd(code: seq<Instr>) {
    code != [] && code[|code| - 1] == IEnd
  }

  /** Wherever an instruction of c starts, one of d does. */
  ghost predicate KeepsHeads(c: seq<Instr>, d: seq<Instr>) {
    && |c| == |d| && (EndsInEnd(c) ==> EndsInEnd(d)) && (LabelsLead(c) ==> LabelsLead(d))
    && forall i: nat :: Tiled(c, i) ==> Tiled(d, i)
  }

  lemma {:induction false} RewriteTiled(c: seq<Instr>, d: seq<Instr>, at: int, i: nat)
    requires Acyclic(c) && Layout(c) && Rewrite(c, d, at) && Tiled(c, i)
    ensures Tiled(d, i)
    decreases |c| - i
  {
    hide Settles, FinalIn, Final, Acyclic, Layout;
    RewrittenSizes(c, d, at);
    if i < |c| {
      RewriteTiled(c, d, at, i + SizeI(c[i]));
      assert at == i && SizeI(d[i]) == 1 ==> Tiled(d, i + 1);
    }
  }

  lemma RewrittenSizes(c: seq<Instr>, d: seq<Instr>, at: int)
    requires Acyclic(c) && Layout(c) && Rewrite(c, d, at)
    ensures 0 <= at && at + 1 < |c| == |d| && HasOffset(c[at]) && c[at + 1] == Operand && d[at] != Operand
    ensures forall k :: 0 <= k < |c| && k != at && k != at + 1 ==> d[k] == c[k]
    ensures if SizeI(d[at]) == 1 then c[at].IJmp? && d[at + 1] == IAny
            else SizeI(d[at]) == SizeI(c[at]) && d[at + 1] == Operand
  {
    hide Settles, FinalIn, Final, Acyclic;
  }

  lemma {:induction false} FinalHead(c: seq<Instr>, pc: int, n: nat)
    requires Acyclic(c) && LabelsLead(c) && Head(c, pc) && Settles(c, pc, n)
    ensures Head(c, Final(c, pc))
    decreases n
  {
    hide Acyclic, Final;
    FinalStep(c, pc);
    if IsJmp(c, pc) {
      assert Labelled(c, pc) && Target(c, pc) == pc + c[pc].offset;
      FinalHead(c, pc + c[pc].offset, n - 1);
    }
  }

  lemma FinalIsHead(c: seq<Instr>, pc: int)
    requires Acyclic(c) && LabelsLead(c) && Head(c, pc)
    ensures Head(c, Final(c, pc))
  {
    hide Final, LabelsLead;
    assert Grounded(c, pc);
    var n: nat :| Settles(c, pc, n);
    FinalHead(c, pc, n);
  }

  /** The new label leads to an instruction. */
  lemma NewLabel(c: seq<Instr>, d: seq<Instr>, at: int)
    requires Acyclic(c) && Layout(c) && LabelsLead(c) && Rewrite(c, d, at) && |d| == |c| && Labelled(d, at)
    ensures Head(c, Target(d, at))
  {
    hide Settles, FinalIn, Final, LabelsLead;
    LabelLeads(c, at);
    if !c[at].IJmp? {
      FinalIsHead(c, at + c[at].offset);
    } else {
      FinalIsHead(c, at);
      var ft := Final(c, at);
      if Commits(c[ft]) {
        LabelLeads(c, ft);
        FinalIsHead(c, ft + c[ft].offset);
      }
    }
  }

  lemma LabelLeads(c: seq<Instr>, pc: int)
    requires LabelsLead(c) && Labelled(c, pc)
    ensures Head(c, pc + c[pc].offset)
  {
    assert Target(c, pc) == pc + c[pc].offset;
  }

  lemma RewriteLeads(c: seq<Instr>, d: seq<Instr>, at: int)
    requires Acyclic(c) && Layout(c) && LabelsLead(c) && Rewrite(c, d, at)
    ensures LabelsLead(d)
  {
    hide Acyclic, Layout, Rewrite;
    RewrittenSizes(c, d, at);
    forall pc | Labelled(d, pc) ensures Head(d, Target(d, pc)) {
      if pc == at {
        NewLabel(c, d, at);
      } else {
        LabelLeads(c, pc);
      }
    }
  }

  lemma RewriteKeepsHeads(c: seq<Instr>, d: seq<Instr>, at: int)
    requires Acyclic(c) && Layout(c) && Rewrite(c, d, at)
    ensures KeepsHeads(c, d)
  {
    hide Acyclic, Layout, Rewrite, LabelsLead;
    RewrittenSizes(c, d, at);
    if LabelsLead(c) { RewriteLeads(c, d, at); }
    forall i: nat | Tiled(c, i) ensures Tiled(d, i) { RewriteTiled(c, d, at, i); }
  }

  /** The case of `peephole` for instructions with labels. */
  method OptimizeLabel(code: array<Instr>, i: int)
    requires Acyclic(code[..]) && Layout(code[..]) && LabelsLead(code[..])
    requires 0 <= i < code.Length && HasOffset(code[i]) && !code[i].IJmp?
    modifies code
    ensures Acyclic(code[..]) && Layout(code[..]) && LabelsLead(code[..])
    ensures Preserves(old(code[..]), code[..]) && KeepsHeads(old(code[..]), code[..])
  {
    hide Tiled, EndsInEnd, LabelsLead;
    ghost var before := code[..];
    LabelLeads(before, i);
    var ft := FinalTarget(code[..], i + code[i].offset);
    code[i] := SetOffset(code[i], ft - i);
    RewritePreserves(before, code[..], i);
    RewriteKeepsHeads(before, code[..], i);
  }

  /** The case of `peephole` for jumps. */
  method OptimizeJump(code: array<Instr>, i: int)
    requires Acyclic(code[..]) && Layout(code[..]) && LabelsLead(code[..])
    requires 0 <= i < code.Length && code[i].IJmp?
    modifies code
    ensures Acyclic(code[..]) && Layout(code[..]) && LabelsLead(code[..])
    ensures Preserves(old(code[..]), code[..]) && KeepsHeads(old(code[..]), code[..])
  {
    hide Tiled, EndsInEnd, LabelsLead;
    ghost var before := code[..];
    var ft := FinalTarget(code[..], i);
    if Leaves(code[ft]) {
      code[i] := code[ft];
      code[i + 1] := IAny;
      RewritePreserves(before, code[..], i);
      RewriteKeepsHeads(before, code[..], i);
    } else if Commits(code[ft]) {
      LabelLeads(before, ft);
      var fft := FinalTarget(code[..], ft + code[ft].offset);
      code[i] := SetOffset(code[ft], fft - i);
      RewritePreserves(before, code[..], i);
      RewriteKeepsHeads(before, code[..], i);
      OptimizeLabel(code, i);
    } else {
      code[i] := IJmp(ft - i);
      RewritePreserves(before, code[..], i);
      RewriteKeepsHeads(before, code[..], i);
    }
  }

  /** peephole: rewrites the code array in place, from the first instruction to the last. It looks
      at instructions only, never at their operands, and it ends right behind the final IEnd. */
  method Peephole(code: array<Instr>)
    requires Acyclic(code[..]) && Layout(code[..]) && LabelsLead(code[..]) && Tiled(code[..], 0) && EndsInEnd(code[..])
    modifies code
    ensures Acyclic(code[..]) && Layout(code[..]) && LabelsLead(code[..]) && Tiled(code[..], 0) && EndsInEnd(code[..])
    ensures Preserves(old(code[..]), code[..])
  {
    hide Acyclic, Layout, Preserves, LabelsLead;
    PreservesItself(code[..]);
    var i := 0;
    while i < code.Length
      invariant 0 <= i <= code.Length && Tiled(code[..], i)
      invariant Acyclic(code[..]) && Layout(code[..]) && LabelsLead(code[..])
      invariant Tiled(code[..], 0) && EndsInEnd(code[..])
      invariant Preserves(old(code[..]), code[..])
    {
      assert code[i] != Operand;
      ghost var before := code[..];
      if HasOffset(code[i]) {
        if code[i].IJmp? { OptimizeJump(code, i); } else { OptimizeLabel(code, i); }
        PreservesAll(old(code[..]), before, code[..]);
      }
      i := i + SizeI(code[i]);
    }
    assert i == code.Length && code[i - 1] == IEnd;
  }

  lemma PreservesItself(c: seq<Instr>)
    ensures Preserves(c, c)
  {
  }

  lemma PreservesAll(c: seq<Instr>, d: seq<Instr>, e: seq<Instr>)
    requires Preserves(c, d) && Preserves(d, e)
    ensures Preserves(c, e)
  {
  }
}
