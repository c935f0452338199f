/** LPeg pattern trees (lib/lpeg/lptree.h) without captures and grammars, and
    their meaning: the matching relation of parsing expression grammars. */
module LpegTree {
  import opened Wrappers
  import LittleEndian

  type Byte = LittleEndian.Byte
  type Charset = set<Byte>

  /** `fullset`: every character. */
  const FULL: Charset := set b: Byte | 0 <= b < 256 :: b

  /** Longest look-behind an instruction can encode (MAXBEHIND). */
  const MAX_BEHIND: nat := 255

  datatype Tree =
    | Char(c: Byte)
    | Set(cs: Charset)
    | Any
    | True
    | False
    | Rep(body: Tree)
    | Seq(first: Tree, second: Tree)
    | Choice(first: Tree, second: Tree)
    | Not(body: Tree)
    | And(body: Tree)
    | Behind(body: Tree, n: nat)

  /** Big-step PEG semantics: the position after matching `p` at `i`, or None
      when `p` fails there. */
  function Match(p: Tree, s: seq<Byte>, i: nat): (r: Option<nat>)
    requires i <= |s|
    ensures r.Some? ==> i <= r.value <= |s|
    decreases p, |s| - i
  {
    match p
    case Char(c) => if i < |s| && s[i] == c then Some(i + 1) else None
    case Set(cs) => if i < |s| && s[i] in cs then Some(i + 1) else None
    case Any => if i < |s| then Some(i + 1) else None
    case True => Some(i)
    case False => None
    case Rep(q) =>
      var r := Match(q, s, i);
      if r.Some? && r.value > i then Match(p, s, r.value) else Some(i)
    case Seq(a, b) =>
      var r := Match(a, s, i);
      if r.Some? then Match(b, s, r.value) else None
    case Choice(a, b) =>
      var r := Match(a, s, i);
      if r.Some? then r else Match(b, s, i)
    case Not(q) => if Match(q, s, i).Some? then None else Some(i)
    case And(q) => if Match(q, s, i).Some? then Some(i) else None
    case Behind(q, n) => if n <= i && Match(q, s, i - n) == Some(i) then Some(i) else None
  }

  /** `tocharset`: the set of a one-character pattern. */
  predicate IsCharset(p: Tree) {
    p.Char? || p.Set? || p.Any?
  }

  function ToCharset(p: Tree): (cs: Charset)
    requires IsCharset(p)
    ensures forall s: seq<Byte>, i: nat :: i <= |s| ==>
              Match(p, s, i) == if i < |s| && s[i] in cs then Some(i + 1) else None
  {
    match p
    case Char(c) => {c}
    case Set(cs) => cs
    case Any => FULL
  }
}
