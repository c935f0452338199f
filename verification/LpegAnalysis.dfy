/** The static analyses of lib/lpeg/lpcode.c and their soundness with respect
    to the matching relation. */
module LpegAnalysis {
  import opened Wrappers
  import opened LpegTree

  /** checkaux(tree, PEnullable) */
  predicate Nullable(p: Tree) {
    match p
    case Char(_) | Set(_) | Any | False => false
    case Rep(_) | True | Not(_) | Behind(_, _) | And(_) => true
    case Seq(a, b) => Nullable(a) && Nullable(b)
    case Choice(a, b) => Nullable(b) || Nullable(a)
  }

  /** checkaux(tree, PEnofail) */
  predicate NoFail(p: Tree) {
    match p
    case Char(_) | Set(_) | Any | False => false
    case Rep(_) | True => true
    case Not(_) | Behind(_, _) => false
    case And(q) => NoFail(q)
    case Seq(a, b) => NoFail(a) && NoFail(b)
    case Choice(a, b) => NoFail(b) || NoFail(a)
  }

  /** fixedlen(tree): None stands for the C result -1. */
  function FixedLen(p: Tree): Option<nat> {
    match p
    case Char(_) | Set(_) | Any => Some(1)
    case False | True | Not(_) | And(_) | Behind(_, _) => Some(0)
    case Rep(_) => None
    case Seq(a, b) =>
      (match (FixedLen(a), FixedLen(b))
       case (Some(m), Some(n)) => Some(m + n)
       case _ => None)
    case Choice(a, b) => if FixedLen(a) == FixedLen(b) then FixedLen(a) else None
  }

  /** The trees the pattern constructors build: `lp_star` refuses a loop body
      that may match the empty string and `lp_behind` one whose length is not
      fixed or exceeds MAXBEHIND. */
  predicate WellFormed(p: Tree) {
    match p
    case Char(_) | Set(_) | Any | True | False => true
    case Rep(q) => WellFormed(q) && !Nullable(q)
    case Seq(a, b) => WellFormed(a) && WellFormed(b)
    case Choice(a, b) => WellFormed(a) && WellFormed(b)
    case Not(q) => WellFormed(q)
    case And(q) => WellFormed(q)
    case Behind(q, n) => WellFormed(q) && FixedLen(q) == Some(n) && n <= MAX_BEHIND
  }

  /** Return value of `getfirst`: may the pattern accept the empty input? */
  predicate FirstEmpty(p: Tree) {
    match p
    case Char(_) | Set(_) | Any | False => false
    case True | Rep(_) | Not(_) | Behind(_, _) => true
    case Choice(a, b) => FirstEmpty(a) || FirstEmpty(b)
    case Seq(a, b) =>
      if !Nullable(a) then FirstEmpty(a) else FirstEmpty(a) && FirstEmpty(b)
    case And(q) => FirstEmpty(q)
  }

  /** `*firstset` after `getfirst(tree, follow, firstset)`. */
  function First(p: Tree, follow: Charset): Charset {
    match p
    case Char(_) | Set(_) | Any => ToCharset(p)
    case True => follow
    case False => {}
    case Choice(a, b) => First(a, follow) + First(b, follow)
    case Seq(a, b) =>
      if !Nullable(a) then First(a, FULL) else First(a, First(b, follow))
    case Rep(q) => First(q, follow) + follow
    case And(q) => First(q, follow) * follow
    case Not(q) => if IsCharset(q) then FULL - ToCharset(q) else follow
    case Behind(_, _) => follow
  }

  /** `headfail`: the pattern can fail only because of the next character. */
  predicate HeadFail(p: Tree) {
    match p
    case Char(_) | Set(_) | Any | False => true
    case True | Rep(_) | Not(_) | Behind(_, _) => false
    case And(q) => HeadFail(q)
    case Seq(a, b) => NoFail(b) && HeadFail(a)
    case Choice(a, b) => HeadFail(a) && HeadFail(b)
  }

  /** A pattern that is not nullable consumes at least one character. */
  lemma {:induction false} NullableSound(p: Tree, s: seq<Byte>, i: nat)
    requires i <= |s| && !Nullable(p)
    ensures Match(p, s, i) != Some(i)
  {
    match p
    case Char(_) | Set(_) | Any | False =>
    case Seq(a, b) =>
      if !Nullable(a) { NullableSound(a, s, i); }
      var r := Match(a, s, i);
      if r.Some? && !Nullable(b) { NullableSound(b, s, r.value); }
    case Choice(a, b) =>
      NullableSound(a, s, i);
      NullableSound(b, s, i);
  }

  /** A `nofail` pattern succeeds on every input. */
  lemma {:induction false} NoFailSound(p: Tree, s: seq<Byte>, i: nat)
    requires i <= |s| && NoFail(p)
    ensures Match(p, s, i).Some?
    decreases p, |s| - i
  {
    match p
    case True =>
    case Rep(q) =>
      var r := Match(q, s, i);
      if r.Some? && r.value > i { NoFailSound(p, s, r.value); }
    case And(q) => NoFailSound(q, s, i);
    case Seq(a, b) =>
      NoFailSound(a, s, i);
      NoFailSound(b, s, Match(a, s, i).value);
    case Choice(a, b) =>
      if NoFail(a) { NoFailSound(a, s, i); } else { NoFailSound(b, s, i); }
  }

  /** A pattern of fixed length consumes exactly that many characters. */
  lemma {:induction false} FixedLenSound(p: Tree, s: seq<Byte>, i: nat)
    requires i <= |s| && FixedLen(p).Some? && Match(p, s, i).Some?
    ensures Match(p, s, i).value == i + FixedLen(p).value
  {
    match p
    case Char(_) | Set(_) | Any | True | Not(_) | And(_) | Behind(_, _) =>
    case Seq(a, b) =>
      FixedLenSound(a, s, i);
      FixedLenSound(b, s, Match(a, s, i).value);
    case Choice(a, b) =>
      if Match(a, s, i).Some? { FixedLenSound(a, s, i); } else { FixedLenSound(b, s, i); }
  }

  /** A match starts with a character of the first set, unless it consumed
      nothing and that character is outside the follow set. */
  lemma {:induction false} FirstSound(p: Tree, follow: Charset, s: seq<Byte>, i: nat)
    requires i < |s| && WellFormed(p) && Match(p, s, i).Some?
    ensures s[i] in First(p, follow) || (Match(p, s, i) == Some(i) && s[i] !in follow)
  {
    match p
    case Char(_) | Set(_) | Any | True | Not(_) | Behind(_, _) =>
    case Choice(a, b) =>
      if Match(a, s, i).Some? { FirstSound(a, follow, s, i); } else { FirstSound(b, follow, s, i); }
    case Seq(a, b) =>
      var k := Match(a, s, i).value;
      if !Nullable(a) {
        NullableSound(a, s, i);
        FirstSound(a, FULL, s, i);
      } else {
        FirstSound(a, First(b, follow), s, i);
        if k == i { FirstSound(b, follow, s, i); }
      }
    case Rep(q) =>
      if Match(q, s, i).Some? {
        NullableSound(q, s, i);
        FirstSound(q, follow, s, i);
      }
    case And(q) => FirstSound(q, follow, s, i);
  }

  /** `getfirst` returning 0 means that the pattern fails at the end of input. */
  lemma {:induction false} FirstEmptySound(p: Tree, s: seq<Byte>)
    requires !FirstEmpty(p)
    ensures Match(p, s, |s|).None?
  {
    match p
    case Char(_) | Set(_) | Any | False =>
    case Choice(a, b) =>
      FirstEmptySound(a, s);
      FirstEmptySound(b, s);
    case Seq(a, b) =>
      if !FirstEmpty(a) { FirstEmptySound(a, s); } else { FirstEmptySound(b, s); }
    case And(q) => FirstEmptySound(q, s);
  }

  lemma {:induction false} NoFailFirst(p: Tree)
    requires NoFail(p)
    ensures Nullable(p) && First(p, FULL) == FULL
  {
    match p
    case True =>
    case Rep(q) => FirstInFull(q, FULL);
    case And(q) => NoFailFirst(q);
    case Seq(a, b) =>
      NoFailFirst(a);
      NoFailFirst(b);
    case Choice(a, b) =>
      FirstInFull(a, FULL);
      FirstInFull(b, FULL);
      if NoFail(a) { NoFailFirst(a); } else { NoFailFirst(b); }
  }

  lemma FirstInFull(p: Tree, follow: Charset)
    ensures First(p, follow) <= FULL
  {
  }

  /** `headfail`: success is decided by the next character alone, and the first
      set (under the full follow set) is exactly the set of accepted ones. */
  lemma {:induction false} HeadFailSound(p: Tree, s: seq<Byte>, i: nat)
    requires i <= |s| && HeadFail(p)
    ensures !FirstEmpty(p)
    ensures Match(p, s, i).Some? <==> i < |s| && s[i] in First(p, FULL)
  {
    match p
    case Char(_) | Set(_) | Any | False =>
    case And(q) => HeadFailSound(q, s, i);
    case Seq(a, b) =>
      HeadFailSound(a, s, i);
      NoFailFirst(b);
      if Match(a, s, i).Some? { NoFailSound(b, s, Match(a, s, i).value); }
    case Choice(a, b) =>
      HeadFailSound(a, s, i);
      HeadFailSound(b, s, i);
  }

  /** The way the code generator uses a test on the first set: when it does not
      pass, the pattern fails. */
  lemma {:induction false} TestSound(p: Tree, s: seq<Byte>, i: nat)
    requires i <= |s| && WellFormed(p) && !FirstEmpty(p)
    requires !(i < |s| && s[i] in First(p, FULL))
    ensures Match(p, s, i).None?
  {
    if i == |s| {
      FirstEmptySound(p, s);
    } else if Match(p, s, i).Some? {
      FirstSound(p, FULL, s, i);
    }
  }
}
