/** The names of handles: an array sorted by name, searched by bisection
    (core/uboss_handle.c). */
module HandleNames {

  type Name = seq<char>

  datatype HandleName = HandleName(name: Name, handle: nat)

  type Names = seq<HandleName>

  // The order of strcmp.

  predicate Less(a: Name, b: Name) {
    if b == [] then false
    else if a == [] then true
    else a[0] < b[0] || (a[0] == b[0] && Less(a[1..], b[1..]))
  }

  lemma {:induction false} LessTotal(a: Name, b: Name)
    ensures Less(a, b) || a == b || Less(b, a)
    ensures !(Less(a, b) && Less(b, a)) && !Less(a, a)
    decreases |a|
  {
    if a != [] {
      LessTotal(a[1..], a[1..]);
      if b != [] {
        LessTotal(a[1..], b[1..]);
        if a[0] == b[0] && a[1..] == b[1..] { assert a == [a[0]] + a[1..] == b; }
      }
    }
  }

  lemma {:induction false} LessTransitive(a: Name, b: Name, c: Name)
    requires Less(a, b) && Less(b, c)
    ensures Less(a, c)
    decreases |a|
  {
    if a != [] && a[0] == b[0] == c[0] { LessTransitive(a[1..], b[1..], c[1..]); }
  }

  predicate Sorted(ns: Names) {
    forall i, j :: 0 <= i < j < |ns| ==> Less(ns[i].name, ns[j].name)
  }

  /** The handle of a name, or zero. */
  function Handle(ns: Names, name: Name): nat {
    if ns == [] then 0 else if ns[0].name == name then ns[0].handle else Handle(ns[1..], name)
  }

  lemma {:induction false} HandleAt(ns: Names, name: Name, i: nat)
    requires Sorted(ns) && i < |ns| && ns[i].name == name
    ensures Handle(ns, name) == ns[i].handle
    decreases |ns|
  {
    hide Less;
    if i > 0 {
      LessTotal(ns[0].name, ns[i].name);
      assert Less(ns[0].name, ns[i].name);
      HandleAt(ns[1..], name, i - 1);
    }
  }

  lemma {:induction false} HandleNone(ns: Names, name: Name)
    requires forall i :: 0 <= i < |ns| ==> ns[i].name != name
    ensures Handle(ns, name) == 0
    decreases |ns|
  {
    if ns != [] { HandleNone(ns[1..], name); }
  }

  /** Without the names of a handle. */
  function Without(ns: Names, h: nat): (r: Names)
    ensures |r| <= |ns|
  {
    if ns == [] then []
    else
      var n, rest := |ns| - 1, Without(ns[..|ns| - 1], h);
      if ns[n].handle == h then rest else rest + [ns[n]]
  }

  lemma {:induction false} WithoutIs(ns: Names, h: nat)
    requires Sorted(ns)
    ensures Sorted(Without(ns, h))
    ensures forall x :: x in Without(ns, h) <==> x in ns && x.handle != h
    decreases |ns|
  {
    hide Less;
    if ns != [] {
      var n := |ns| - 1;
      var front := ns[..n];
      WithoutIs(front, h);
      assert ns == front + [ns[n]];
      var r := Without(front, h);
      forall i | 0 <= i < |r| ensures Less(r[i].name, ns[n].name) {
        assert r[i] in front;
        var k :| 0 <= k < n && ns[k] == r[i];
      }
    }
  }

  lemma WithoutMore(ns: Names, i: nat, h: nat)
    requires i < |ns|
    ensures Without(ns[..i + 1], h) == Without(ns[..i], h) + if ns[i].handle == h then [] else [ns[i]]
  {
    assert ns[..i + 1][..i] == ns[..i];
  }

  lemma WithoutNone(ns: Names, h: nat)
    ensures Without(ns[..0], h) == []
  {
  }

  /** What the bisection has established. */
  ghost predicate Between(ns: Names, name: Name, begin: int, end: int) {
    && 0 <= begin <= end + 1 <= |ns|
    && (forall i :: 0 <= i < begin ==> Less(ns[i].name, name))
    && (forall i :: end < i < |ns| ==> Less(name, ns[i].name))
  }

  class NameTable {
    var cap: nat
    var count: nat
    var name: array<HandleName>

    ghost predicate Valid()
      reads this, name
    {
      && name.Length == cap && count <= cap && cap >= 1
      && Sorted(name[..count])
    }

    constructor ()
      ensures Valid() && fresh(name) && count == 0
    {
      cap, count := 2, 0;
      name := new HandleName[2](_ => HandleName([], 0));
    }

    /** The bisection of uboss_handle_findname and _insert_name: the name, or its place. */
    method Search(key: Name) returns (found: bool, at: nat)
      requires Valid()
      ensures found ==> at < count && name[at].name == key
      ensures !found ==> at <= count && Between(name[..count], key, at, at - 1)
    {
      hide Less;
      var begin, end := 0, count - 1;
      while begin <= end
        invariant Between(name[..count], key, begin, end)
        decreases end - begin + 1
      {
        var mid := (begin + end) / 2;
        LessTotal(name[mid].name, key);
        if name[mid].name == key { return true, mid; }
        Halve(name[..count], key, begin, end, mid);
        if Less(name[mid].name, key) { begin := mid + 1; } else { end := mid - 1; }
      }
      return false, begin;
    }

    /** uboss_handle_findname: bisection finds what a search through all names finds. */
    method FindName(key: Name) returns (h: nat)
      requires Valid()
      ensures h == Handle(name[..count], key)
    {
      hide Less;
      var found, at := Search(key);
      if found {
        HandleAt(name[..count], key, at);
        return name[at].handle;
      }
      NotBetween(name[..count], key, at);
      HandleNone(name[..count], key);
      return 0;
    }

    /** _insert_name: the name is added unless there is one already. */
    method InsertName(key: Name, h: nat) returns (added: bool)
      requires Valid()
      modifies this, name
      ensures Valid() && (name == old(name) || fresh(name))
      ensures added <==> forall i :: 0 <= i < old(count) ==> old(name[i].name) != key
      ensures !added ==> name[..count] == old(name[..count])
      ensures added ==>
                && count == old(count) + 1 && Handle(name[..count], key) == h
                && exists at :: 0 <= at <= old(count) &&
                     name[..count] == old(name[..count])[..at] + [HandleName(key, h)] + old(name[..count])[at..]
    {
      hide Less;
      var found, at := Search(key);
      if found { return false; }
      ghost var ns := name[..count];
      NotBetween(ns, key, at);
      InsertBefore(key, h, at);
      Inserted(ns, HandleName(key, h), at);
      assert name[..count] == ns[..at] + [HandleName(key, h)] + ns[at..];
      HandleAt(name[..count], key, at);
      return true;
    }

    /** _insert_name_before: into a bigger array, or by moving the tail from the end. */
    method InsertBefore(key: Name, h: nat, before: nat)
      requires name.Length == cap && count <= cap && cap >= 1 && before <= count
      modifies this, name
      ensures name.Length == cap && count == old(count) + 1 <= cap && (name == old(name) || fresh(name))
      ensures name[..count] == old(name[..count])[..before] + [HandleName(key, h)] + old(name[..count])[before..]
    {
      ghost var ns := name[..count];
      if count >= cap { Grow(before); } else { Shift(before); }
      name[before] := HandleName(key, h);
      count := count + 1;
      assert name[..count] == ns[..before] + [HandleName(key, h)] + ns[before..];
    }

    /** A bigger array with a gap. */
    method Grow(before: nat)
      requires name.Length == cap == count && cap >= 1 && before <= count
      modifies this`cap, this`name
      ensures name.Length == cap && count < cap && fresh(name)
      ensures forall j :: 0 <= j < before ==> name[j] == old(name[j])
      ensures forall j :: before < j <= count ==> name[j] == old(name[j - 1])
    {
      var n := new HandleName[cap * 2](_ => HandleName([], 0));
      var i := 0;
      while i < before
        invariant 0 <= i <= before && unchanged(this)
        invariant forall j :: 0 <= j < i ==> n[j] == name[j]
      {
        n[i] := name[i];
        i := i + 1;
      }
      while i < count
        invariant before <= i <= count && unchanged(this)
        invariant forall j :: 0 <= j < before ==> n[j] == name[j]
        invariant forall j :: before < j <= i ==> n[j] == name[j - 1]
      {
        n[i + 1] := name[i];
        i := i + 1;
      }
      cap := cap * 2;
      name := n;
    }

    /** A gap in the array. */
    method Shift(before: nat)
      requires name.Length == cap && count < cap && before <= count
      modifies name
      ensures forall j :: 0 <= j < before ==> name[j] == old(name[j])
      ensures forall j :: before < j <= count ==> name[j] == old(name[j - 1])
    {
      var i := count;
      while i > before
        invariant before <= i <= count
        invariant forall j :: 0 <= j < i ==> name[j] == old(name[j])
        invariant forall j :: i < j <= count ==> name[j] == old(name[j - 1])
      {
        name[i] := name[i - 1];
        i := i - 1;
      }
    }

    /** The compaction of uboss_handle_retire: no name of the handle is left. */
    method RetireNames(h: nat)
      requires Valid()
      modifies this`count, name
      ensures Valid() && name[..count] == Without(old(name[..count]), h)
      ensures forall i :: 0 <= i < count ==> name[i].handle != h
      ensures forall x :: x in old(name[..count]) && x.handle != h ==> x in name[..count]
    {
      hide Less, Without;
      ghost var ns := name[..count];
      WithoutNone(ns, h);
      var i, j, n := 0, 0, count;
      while i < n
        invariant 0 <= j <= i <= n == count && name.Length == cap && n <= cap
        invariant name[..j] == Without(ns[..i], h) && forall k :: i <= k < n ==> name[k] == ns[k]
      {
        WithoutMore(ns, i, h);
        if name[i].handle != h {
          ghost var kept := name[..j];
          if i != j { name[j] := name[i]; }
          assert name[..j + 1] == kept + [ns[i]];
          j := j + 1;
        }
        i := i + 1;
      }
      assert ns[..n] == ns;
      count := j;
      WithoutIs(ns, h);
      forall k | 0 <= k < count ensures name[k].handle != h { assert name[..count][k] in Without(ns, h); }
    }
  }

  lemma Halve(ns: Names, name: Name, begin: int, end: int, mid: int)
    requires Sorted(ns) && Between(ns, name, begin, end) && begin <= mid <= end
    ensures Less(ns[mid].name, name) ==> Between(ns, name, mid + 1, end)
    ensures Less(name, ns[mid].name) ==> Between(ns, name, begin, mid - 1)
  {
    hide Less;
    if Less(ns[mid].name, name) {
      forall i | 0 <= i < mid ensures Less(ns[i].name, name) { LessTransitive(ns[i].name, ns[mid].name, name); }
    }
    if Less(name, ns[mid].name) {
      forall i | mid < i < |ns| ensures Less(name, ns[i].name) { LessTransitive(name, ns[mid].name, ns[i].name); }
    }
  }

  lemma NotBetween(ns: Names, name: Name, at: nat)
    requires at <= |ns| && Between(ns, name, at, at - 1)
    ensures forall i :: 0 <= i < |ns| ==> ns[i].name != name
  {
    hide Less;
    LessTotal(name, name);
  }

  lemma Inserted(ns: Names, x: HandleName, at: nat)
    requires Sorted(ns) && at <= |ns| && Between(ns, x.name, at, at - 1)
    ensures Sorted(ns[..at] + [x] + ns[at..])
  {
    hide Less;
    var r := ns[..at] + [x] + ns[at..];
    forall i, j | 0 <= i < j < |r| ensures Less(r[i].name, r[j].name) {
      assert r[i] == if i < at then ns[i] else if i == at then x else ns[i - 1];
      assert r[j] == if j < at then ns[j] else if j == at then x else ns[j - 1];
    }
  }
}
