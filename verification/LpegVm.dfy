/** The LPeg virtual machine (lib/lpeg/lpvm.c): its instructions, one step of
    the opcode interpreter, and the interpreter loop itself. */
module LpegVm {
  import opened Wrappers
  import opened LpegTree

  /** One element per instruction slot of `p->code`. An instruction sits in its
      first slot together with its decoded operands; the further slots that its
      offset and charset occupy in memory are `Operand`. Offsets are relative to
      the instruction, as in the source. */
  datatype Instr =
    | IAny
    | IChar(c: Byte)
    | ISet(cs: Charset)
    | ITestAny(offset: int)
    | ITestChar(c: Byte, offset: int)
    | ITestSet(cs: Charset, offset: int)
    | ISpan(cs: Charset)
    | IBehind(n: nat)
    | IEnd
    | IChoice(offset: int)
    | IJmp(offset: int)
    | ICommit(offset: int)
    | IPartialCommit(offset: int)
    | IBackCommit(offset: int)
    | IFailTwice
    | IFail
    | Operand

  /** Slots taken by an instruction that carries a charset (CHARSETINSTSIZE). */
  const CHARSET_INST_SIZE: nat := 9

  function SizeI(i: Instr): (n: nat)
    ensures n >= 1
  {
    match i
    case ISet(_) | ISpan(_) => CHARSET_INST_SIZE
    case ITestSet(_, _) => CHARSET_INST_SIZE + 1
    case ITestChar(_, _) | ITestAny(_) | IChoice(_) | IJmp(_)
       | ICommit(_) | IPartialCommit(_) | IBackCommit(_) => 2
    case _ => 1
  }

  /** The backtrack stack, top first. */
  datatype Stack = Bottom | Push(pc: int, pos: nat, rest: Stack)

  /** Address of the `giveup` instruction, which lies outside the code array. */
  const GIVEUP: int := -1

  /** `Stuck` stands for every violated assertion or invalid instruction. */
  datatype State =
    | Run(pc: int, pos: nat, stack: Stack)
    | Halt(result: Option<nat>)
    | Stuck

  /** The `fail` label: return to the most recent backtrack entry. */
  function Fail(stack: Stack): State {
    if stack.Push? then Run(stack.pc, stack.pos, stack.rest) else Stuck
  }

  /** End of the span of characters of `cs` that starts at `i`. */
  function SpanEnd(cs: Charset, s: seq<Byte>, i: nat): (j: nat)
    requires i <= |s|
    ensures i <= j <= |s|
    ensures forall k :: i <= k < j ==> s[k] in cs
    ensures j < |s| ==> s[j] !in cs
    decreases |s| - i
  {
    if i < |s| && s[i] in cs then SpanEnd(cs, s, i + 1) else i
  }

  /** Label of an instruction, relative to its address (0 when it has none). */
  function Offset(i: Instr): int {
    if HasOffset(i) then i.offset else 0
  }

  predicate HasOffset(i: Instr) {
    i.ITestAny? || i.ITestChar? || i.ITestSet? || i.IChoice? || i.IJmp? ||
    i.ICommit? || i.IPartialCommit? || i.IBackCommit?
  }

  /** Execute instruction `i`, whose successor is `next` and whose label leads to `dest`. */
  function Exec(i: Instr, next: int, dest: int, s: seq<Byte>, pos: nat, stack: Stack): State
    requires pos <= |s|
  {
    match i
    case IEnd => if stack.Push? && stack.rest.Bottom? then Halt(Some(pos)) else Stuck
    case IAny => if pos < |s| then Run(next, pos + 1, stack) else Fail(stack)
    case ITestAny(_) => Run(if pos < |s| then next else dest, pos, stack)
    case IChar(c) => if pos < |s| && s[pos] == c then Run(next, pos + 1, stack) else Fail(stack)
    case ITestChar(c, _) => Run(if pos < |s| && s[pos] == c then next else dest, pos, stack)
    case ISet(cs) => if pos < |s| && s[pos] in cs then Run(next, pos + 1, stack) else Fail(stack)
    case ITestSet(cs, _) => Run(if pos < |s| && s[pos] in cs then next else dest, pos, stack)
    case IBehind(n) => if n > pos then Fail(stack) else Run(next, pos - n, stack)
    case ISpan(cs) => Run(next, SpanEnd(cs, s, pos), stack)
    case IJmp(_) => Run(dest, pos, stack)
    case IChoice(_) => Run(next, pos, Push(dest, pos, stack))
    case ICommit(_) => if stack.Push? then Run(dest, pos, stack.rest) else Stuck
    case IPartialCommit(_) => if stack.Push? then Run(dest, pos, stack.(pos := pos)) else Stuck
    case IBackCommit(_) => if stack.Push? then Run(dest, stack.pos, stack.rest) else Stuck
    case IFailTwice => if stack.Push? then Fail(stack.rest) else Stuck
    case IFail => Fail(stack)
    case Operand => Stuck
  }

  /** One iteration of the interpreter loop. */
  function Step(code: seq<Instr>, s: seq<Byte>, st: State): State {
    if !st.Run? then st
    else if st.pc == GIVEUP then
      if st.stack.Bottom? then Halt(None) else Stuck
    else if !(0 <= st.pc < |code| && st.pos <= |s|) then Stuck
    else
      var i := code[st.pc];
      Exec(i, st.pc + SizeI(i), st.pc + Offset(i), s, st.pos, st.stack)
  }

  function Steps(code: seq<Instr>, s: seq<Byte>, st: State, n: nat): State
    decreases n
  {
    if n == 0 then st else Steps(code, s, Step(code, s, st), n - 1)
  }

  /** Run from `st`, the machine halts with result `r`. */
  ghost predicate Yields(code: seq<Instr>, s: seq<Byte>, st: State, r: Option<nat>) {
    exists n: nat :: Steps(code, s, st, n) == Halt(r)
  }

  /** The state in which `match` enters its loop. */
  function Start(i: nat): State {
    Run(0, i, Push(GIVEUP, i, Bottom))
  }

  lemma HaltYields(code: seq<Instr>, s: seq<Byte>, r: Option<nat>)
    ensures Yields(code, s, Halt(r), r)
  {
    assert Steps(code, s, Halt(r), 0) == Halt(r);
  }

  lemma BackStep(code: seq<Instr>, s: seq<Byte>, st: State, r: Option<nat>)
    requires Yields(code, s, Step(code, s, st), r)
    ensures Yields(code, s, st, r)
  {
    var n: nat :| Steps(code, s, Step(code, s, st), n) == Halt(r);
    assert Steps(code, s, st, n + 1) == Halt(r);
  }

  lemma {:induction false} StepsAdd(code: seq<Instr>, s: seq<Byte>, a: State, m: nat, n: nat)
    ensures Steps(code, s, Steps(code, s, a, m), n) == Steps(code, s, a, m + n)
    decreases m
  {
    if m > 0 { StepsAdd(code, s, Step(code, s, a), m - 1, n); }
  }

  lemma {:induction false} FinalStays(code: seq<Instr>, s: seq<Byte>, st: State, n: nat)
    requires !st.Run?
    ensures Steps(code, s, st, n) == st
  {
    if n > 0 { FinalStays(code, s, st, n - 1); }
  }

  /** A run cannot halt with two different results. */
  lemma YieldsUnique(code: seq<Instr>, s: seq<Byte>, st: State, r: Option<nat>, q: Option<nat>)
    requires Yields(code, s, st, r) && Yields(code, s, st, q)
    ensures r == q
  {
    var m: nat :| Steps(code, s, st, m) == Halt(r);
    var n: nat :| Steps(code, s, st, n) == Halt(q);
    StepsAdd(code, s, st, m, n);
    StepsAdd(code, s, st, n, m);
    FinalStays(code, s, Halt(r), n);
    FinalStays(code, s, Halt(q), m);
  }

  /** The opcode interpreter loop. Arbitrary code may loop for ever, so the caller
      passes the (ghost) number of steps after which the machine has stopped. */
  method Interpret(code: seq<Instr>, s: seq<Byte>, i: nat, ghost bound: nat) returns (result: State)
    requires i <= |s|
    requires !Steps(code, s, Start(i), bound).Run?
    ensures result == Steps(code, s, Start(i), bound)
  {
    var pc, stack := 0, Push(GIVEUP, i, Bottom);
    var pos: nat := i;
    ghost var n := bound;
    while true
      invariant Steps(code, s, Run(pc, pos, stack), n) == Steps(code, s, Start(i), bound)
      decreases n
    {
      ghost var before := Run(pc, pos, stack);
      var failed := false;
      if pc == GIVEUP {
        FinalStays(code, s, Step(code, s, before), n - 1);
        return if stack.Bottom? then Halt(None) else Stuck;
      }
      if !(0 <= pc < |code| && pos <= |s|) {
        FinalStays(code, s, Stuck, n - 1);
        return Stuck;
      }
      match code[pc] {
        case IEnd =>
          FinalStays(code, s, Step(code, s, before), n - 1);
          return if stack.Push? && stack.rest.Bottom? then Halt(Some(pos)) else Stuck;
        case IAny =>
          if pos < |s| { pc, pos := pc + 1, pos + 1; } else { failed := true; }
        case ITestAny(off) =>
          pc := if pos < |s| then pc + 2 else pc + off;
        case IChar(c) =>
          if pos < |s| && s[pos] == c { pc, pos := pc + 1, pos + 1; } else { failed := true; }
        case ITestChar(c, off) =>
          pc := if pos < |s| && s[pos] == c then pc + 2 else pc + off;
        case ISet(cs) =>
          if pos < |s| && s[pos] in cs {
            pc, pos := pc + CHARSET_INST_SIZE, pos + 1;
          } else {
            failed := true;
          }
        case ITestSet(cs, off) =>
          pc := if pos < |s| && s[pos] in cs then pc + 1 + CHARSET_INST_SIZE else pc + off;
        case IBehind(k) =>
          if k > pos { failed := true; } else { pc, pos := pc + 1, pos - k; }
        case ISpan(cs) =>
          while pos < |s| && s[pos] in cs
            invariant pos <= |s| && SpanEnd(cs, s, pos) == SpanEnd(cs, s, before.pos)
          {
            pos := pos + 1;
          }
          pc := pc + CHARSET_INST_SIZE;
        case IJmp(off) =>
          pc := pc + off;
        case IChoice(off) =>
          pc, stack := pc + 2, Push(pc + off, pos, stack);
        case ICommit(off) =>
          if stack.Bottom? { FinalStays(code, s, Stuck, n - 1); return Stuck; }
          pc, stack := pc + off, stack.rest;
        case IPartialCommit(off) =>
          if stack.Bottom? { FinalStays(code, s, Stuck, n - 1); return Stuck; }
          pc, stack := pc + off, stack.(pos := pos);
        case IBackCommit(off) =>
          if stack.Bottom? { FinalStays(code, s, Stuck, n - 1); return Stuck; }
          pc, pos, stack := pc + off, stack.pos, stack.rest;
        case IFailTwice =>
          if stack.Bottom? { FinalStays(code, s, Stuck, n - 1); return Stuck; }
          stack, failed := stack.rest, true;
        case IFail =>
          failed := true;
        case Operand =>
          FinalStays(code, s, Stuck, n - 1);
          return Stuck;
      }
      if failed {
        if stack.Bottom? { FinalStays(code, s, Stuck, n - 1); return Stuck; }
        pc, pos, stack := stack.pc, stack.pos, stack.rest;
      }
      assert Step(code, s, before) == Run(pc, pos, stack);
      n := n - 1;
    }
  }
}
