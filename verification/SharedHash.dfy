/** The hash part of a shared table: as many slots as keys, chains that run through the slots,
    filled in two passes (lib/sharedata/lua-sharedata.c). The hash function is arbitrary. */
module SharedHash {
  import opened Wrappers

  /** A string key stands for its interned index as well as for its bytes. */
  datatype Key = IntKey(i: int) | StrKey(s: seq<int>)

  type Value = int

  type Hash = Key -> nat

  datatype Entry = Entry(key: Key, value: Value)

  /** `used`: the value type is not nil. */
  datatype Node = Node(used: bool, key: Key, keyhash: nat, next: int, nocolliding: bool, value: Value)

  type Nodes = seq<Node>

  /** The slots of the keys with a given main position, in the order of the links. */
  type Chains = seq<seq<int>>

  function Main(h: Hash, n: nat, k: Key): (m: nat)
    requires n > 0
    ensures m < n
  {
    h(k) % n
  }

  predicate Distinct(es: seq<Entry>) {
    forall i, j :: 0 <= i < j < |es| ==> es[i].key != es[j].key
  }

  /** The links of every chain, and every used slot in the chain of its main position. */
  ghost predicate Linked(h: Hash, ns: Nodes, cs: Chains) {
    |ns| == |cs| && |ns| > 0 && Heads(ns, cs) && Links(h, ns, cs) && Simple(cs) && Covered(h, ns, cs) && Alone(h, ns)
  }

  ghost predicate Heads(ns: Nodes, cs: Chains)
    requires |ns| == |cs|
  {
    forall m :: 0 <= m < |cs| && cs[m] != [] ==> cs[m][0] == m && (ns[m].nocolliding ==> |cs[m]| == 1)
  }

  ghost predicate Links(h: Hash, ns: Nodes, cs: Chains)
    requires |ns| == |cs| && |ns| > 0
  {
    forall m, i :: 0 <= m < |cs| && 0 <= i < |cs[m]| ==> OnChain(h, ns, cs, m, i)
  }

  ghost predicate Simple(cs: Chains) {
    forall m, i, j :: 0 <= m < |cs| && 0 <= i < j < |cs[m]| ==> cs[m][i] != cs[m][j]
  }

  ghost predicate Covered(h: Hash, ns: Nodes, cs: Chains)
    requires |ns| == |cs| && |ns| > 0
  {
    forall s :: 0 <= s < |ns| && ns[s].used ==> s in cs[Main(h, |ns|, ns[s].key)]
  }

  ghost predicate Alone(h: Hash, ns: Nodes)
    requires |ns| > 0
  {
    forall s :: 0 <= s < |ns| && ns[s].used && ns[s].nocolliding ==> Main(h, |ns|, ns[s].key) == s
  }

  ghost predicate OnChain(h: Hash, ns: Nodes, cs: Chains, m: nat, i: nat)
    requires |ns| == |cs| && |ns| > 0 && m < |cs| && i < |cs[m]|
  {
    var s := cs[m][i];
    && 0 <= s < |ns| && ns[s].used && ns[s].keyhash == h(ns[s].key) && Main(h, |ns|, ns[s].key) == m
    && ns[s].next == if i + 1 < |cs[m]| then cs[m][i + 1] else -1
  }

  /** Where the entries are: at[j] is the slot of entry j, or -1. */
  ghost predicate Stored(es: seq<Entry>, ns: Nodes, at: seq<int>) {
    && |at| == |es|
    && (forall j :: 0 <= j < |at| && at[j] >= 0 ==>
          at[j] < |ns| && ns[at[j]].used && ns[at[j]].key == es[j].key && ns[at[j]].value == es[j].value)
    && (forall s :: 0 <= s < |ns| && ns[s].used ==> s in at)
  }

  // The first pass.

  /** After the first pass an entry is stored in its main position or another one is there. */
  ghost predicate FirstInv(h: Hash, es: seq<Entry>, ns: Nodes, at: seq<int>, done: nat) {
    && |ns| == |es| > 0 && done <= |es| && Stored(es, ns, at)
    && (forall j :: 0 <= j < done ==> ns[Main(h, |ns|, es[j].key)].used)
    && (forall j :: done <= j < |es| ==> at[j] == -1)
    && (forall j :: 0 <= j < done ==> at[j] == -1 || at[j] == Main(h, |ns|, es[j].key))
    && (forall s :: 0 <= s < |ns| && ns[s].used ==>
          Main(h, |ns|, ns[s].key) == s && ns[s].keyhash == h(ns[s].key) && ns[s].next == -1 && ns[s].nocolliding)
  }

  /** fillnocolliding */
  method FillNoColliding(hash: array<Node>, es: seq<Entry>, h: Hash) returns (ghost at: seq<int>)
    requires hash.Length == |es| > 0 && forall s :: 0 <= s < hash.Length ==> !hash[s].used
    modifies hash
    ensures FirstInv(h, es, hash[..], at, |es|)
  {
    at := seq(|es|, _ => -1);
    var i := 0;
    while i < |es|
      invariant 0 <= i <= |es| && FirstInv(h, es, hash[..], at, i)
    {
      var e := es[i];
      var m := Main(h, hash.Length, e.key);
      ghost var ns := hash[..];
      if !hash[m].used {
        hash[m] := Node(true, e.key, h(e.key), -1, true, e.value);
        FirstStep(h, es, ns, at, i);
        at := at[i := m];
      }
      i := i + 1;
    }
  }

  lemma FirstStep(h: Hash, es: seq<Entry>, ns: Nodes, at: seq<int>, i: nat)
    requires FirstInv(h, es, ns, at, i) && i < |es| && !ns[Main(h, |ns|, es[i].key)].used
    ensures var m := Main(h, |ns|, es[i].key);
            FirstInv(h, es, ns[m := Node(true, es[i].key, h(es[i].key), -1, true, es[i].value)], at[i := m], i + 1)
  {
    hide Main;
    var m := Main(h, |ns|, es[i].key);
    var ns', at' := ns[m := Node(true, es[i].key, h(es[i].key), -1, true, es[i].value)], at[i := m];
    forall s | 0 <= s < |ns'| && ns'[s].used ensures s in at' {
      if s == m {
        assert at'[i] == s;
      } else {
        var j :| 0 <= j < |at| && at[j] == s;
        assert at'[j] == s;
      }
    }
  }

  /** Every used slot is a chain of its own. */
  function FirstChains(ns: Nodes): (cs: Chains)
    ensures |cs| == |ns|
  {
    seq(|ns|, s requires 0 <= s < |ns| => if ns[s].used then [s] else [])
  }

  lemma FirstLinked(h: Hash, es: seq<Entry>, ns: Nodes, at: seq<int>)
    requires FirstInv(h, es, ns, at, |es|)
    ensures Linked(h, ns, FirstChains(ns))
  {
    hide Main, Stored;
  }

  // The second pass.

  /** The main position of every entry has an entry of that position; the entries before `done`
      are stored, and the others are in their main position or nowhere. */
  ghost predicate SecondInv(h: Hash, es: seq<Entry>, ns: Nodes, at: seq<int>, done: nat) {
    && |ns| == |es| > 0 && done <= |es| && Distinct(es) && Stored(es, ns, at)
    && (forall j :: 0 <= j < |es| ==>
          var m := Main(h, |ns|, es[j].key); ns[m].used && Main(h, |ns|, ns[m].key) == m)
    && (forall j :: 0 <= j < done ==> at[j] >= 0)
    && (forall j :: done <= j < |es| ==> at[j] == -1 || at[j] == Main(h, |ns|, es[j].key))
  }

  lemma FirstToSecond(h: Hash, es: seq<Entry>, ns: Nodes, at: seq<int>)
    requires FirstInv(h, es, ns, at, |es|) && Distinct(es)
    ensures SecondInv(h, es, ns, at, 0)
  {
    hide Main, Stored;
  }

  ghost function Range(n: nat): (r: set<int>)
    ensures forall s :: s in r <==> 0 <= s < n
    ensures |r| == n
  {
    if n == 0 then {} else
      var r := Range(n - 1);
      assert |r + {n - 1}| == n;
      r + {n - 1}
  }

  /** The values of `at` at the indices below n other than i. */
  ghost function Values(at: seq<int>, n: nat, i: nat): (r: set<int>)
    requires n <= |at|
    ensures |r| <= if i < n then n - 1 else n
    ensures forall j :: 0 <= j < n && j != i ==> at[j] in r
  {
    if n == 0 then {} else
      var r := Values(at, n - 1, i);
      if n - 1 == i then r else r + {at[n - 1]}
  }

  /** There is a free slot as long as some entry is not stored. */
  lemma FreeSlot(es: seq<Entry>, ns: Nodes, at: seq<int>, i: nat)
    requires |ns| == |es| && Stored(es, ns, at) && i < |es| && at[i] == -1
    ensures exists s :: 0 <= s < |ns| && !ns[s].used
  {
    if forall s :: 0 <= s < |ns| ==> ns[s].used {
      var v := Values(at, |at|, i);
      forall s | s in Range(|ns|) ensures s in v {
        assert ns[s].used;
        var j :| 0 <= j < |at| && at[j] == s;
      }
      SubsetSize(Range(|ns|), v);
    }
  }

  lemma SubsetSize(a: set<int>, b: set<int>)
    requires a <= b
    ensures |a| <= |b|
  {
    assert b == a + (b - a);
  }

  function Fresh(h: Hash, e: Entry, next: int): Node {
    Node(true, e.key, h(e.key), next, false, e.value)
  }

  /** The table with e in the free slot s, linked behind its main position m. */
  function Inserted(h: Hash, ns: Nodes, e: Entry, m: nat, s: nat): Nodes
    requires m < |ns| && s < |ns|
  {
    ns[s := Fresh(h, e, ns[m].next)][m := ns[m].(next := s, nocolliding := false)]
  }

  function Longer(cs: Chains, m: nat, s: int): Chains
    requires m < |cs| && cs[m] != []
  {
    cs[m := [cs[m][0], s] + cs[m][1..]]
  }

  lemma InsertLinked(h: Hash, ns: Nodes, cs: Chains, e: Entry, s: nat)
    requires Linked(h, ns, cs) && s < |ns| && !ns[s].used
    requires var m := Main(h, |ns|, e.key); ns[m].used && Main(h, |ns|, ns[m].key) == m
    ensures var m := Main(h, |ns|, e.key);
            |cs| == |ns| && cs[m] != [] && Linked(h, Inserted(h, ns, e, m, s), Longer(cs, m, s))
  {
    hide Main, Links, Simple, Covered;
    var m := Main(h, |ns|, e.key);
    HeadIsMain(h, ns, cs, m);
    InsertLinks(h, ns, cs, e, s);
    InsertSimple(h, ns, cs, m, s);
    InsertCovered(h, ns, cs, e, s);
  }

  lemma HeadIsMain(h: Hash, ns: Nodes, cs: Chains, m: nat)
    requires Linked(h, ns, cs) && m < |ns| && ns[m].used && Main(h, |ns|, ns[m].key) == m
    ensures cs[m] != [] && cs[m][0] == m
  {
    assert m in cs[m];
  }

  lemma InsertLinks(h: Hash, ns: Nodes, cs: Chains, e: Entry, s: nat)
    requires Linked(h, ns, cs) && s < |ns| && !ns[s].used
    requires var m := Main(h, |ns|, e.key); cs[m] != [] && cs[m][0] == m
    ensures var m := Main(h, |ns|, e.key); Links(h, Inserted(h, ns, e, m, s), Longer(cs, m, s))
  {
    hide Main, Covered;
    var m := Main(h, |ns|, e.key);
    forall c, i | 0 <= c < |cs| && 0 <= i < |cs[c]|
      ensures OnChain(h, ns, cs, c, i) && cs[c][i] != s && (cs[c][i] == m ==> c == m && i == 0)
    {
      assert OnChain(h, ns, cs, c, i) && OnChain(h, ns, cs, m, 0);
    }
    forall c, i | 0 <= c < |cs| && 0 <= i < |Longer(cs, m, s)[c]|
      ensures OnChain(h, Inserted(h, ns, e, m, s), Longer(cs, m, s), c, i)
    {
      InsertOnChain(h, ns, cs, e, s, c, i);
    }
  }

  lemma InsertSimple(h: Hash, ns: Nodes, cs: Chains, m: nat, s: nat)
    requires Linked(h, ns, cs) && s < |ns| && !ns[s].used && m < |cs| && cs[m] != []
    ensures Simple(Longer(cs, m, s))
  {
    hide Main, Covered;
    forall i | 0 <= i < |cs[m]| ensures cs[m][i] != s { assert OnChain(h, ns, cs, m, i); }
    var c := [cs[m][0], s] + cs[m][1..];
    forall i, j | 0 <= i < j < |c| ensures c[i] != c[j] {
      assert c[j] == if j == 1 then s else cs[m][j - 1];
      assert i >= 2 ==> c[i] == cs[m][i - 1];
    }
  }

  lemma InsertCovered(h: Hash, ns: Nodes, cs: Chains, e: Entry, s: nat)
    requires Linked(h, ns, cs) && s < |ns| && !ns[s].used
    requires var m := Main(h, |ns|, e.key); cs[m] != []
    ensures var m := Main(h, |ns|, e.key); Covered(h, Inserted(h, ns, e, m, s), Longer(cs, m, s))
  {
    hide Main, Links, Simple, Heads;
    var m := Main(h, |ns|, e.key);
    var ns', cs' := Inserted(h, ns, e, m, s), Longer(cs, m, s);
    forall t | 0 <= t < |ns'| && ns'[t].used ensures t in cs'[Main(h, |ns'|, ns'[t].key)] {
      if t == s && s != m {
        assert cs'[m][1] == s;
      } else if ns[t].used {
        var c := Main(h, |ns|, ns[t].key);
        assert t in cs[c];
        var i :| 0 <= i < |cs[c]| && cs[c][i] == t;
        assert c == m ==> cs'[c][if i == 0 then 0 else i + 1] == t;
      }
    }
  }

  lemma InsertOnChain(h: Hash, ns: Nodes, cs: Chains, e: Entry, s: nat, c: nat, i: nat)
    requires |ns| == |cs| && |ns| > 0 && s < |ns| && !ns[s].used
    requires var m := Main(h, |ns|, e.key); cs[m] != [] && cs[m][0] == m
    requires forall c, i :: 0 <= c < |cs| && 0 <= i < |cs[c]| ==>
               var m := Main(h, |ns|, e.key);
               OnChain(h, ns, cs, c, i) && cs[c][i] != s && (cs[c][i] == m ==> c == m && i == 0)
    requires var m := Main(h, |ns|, e.key); c < |cs| && i < |Longer(cs, m, s)[c]|
    ensures var m := Main(h, |ns|, e.key); OnChain(h, Inserted(h, ns, e, m, s), Longer(cs, m, s), c, i)
  {
    hide Main;
    var m := Main(h, |ns|, e.key);
    var ns', cs' := Inserted(h, ns, e, m, s), Longer(cs, m, s);
    assert OnChain(h, ns, cs, m, 0);
    if c != m {
      assert OnChain(h, ns, cs, c, i);
    } else if i >= 2 {
      assert cs'[m][i] == cs[m][i - 1];
      assert OnChain(h, ns, cs, m, i - 1);
    }
  }

  lemma InsertStored(h: Hash, es: seq<Entry>, ns: Nodes, at: seq<int>, i: nat, s: nat)
    requires SecondInv(h, es, ns, at, i) && i < |es| && at[i] == -1 && s < |ns| && !ns[s].used
    ensures var m := Main(h, |ns|, es[i].key); SecondInv(h, es, Inserted(h, ns, es[i], m, s), at[i := s], i + 1)
  {
    hide Main;
    var m := Main(h, |ns|, es[i].key);
    var ns', at' := Inserted(h, ns, es[i], m, s), at[i := s];
    forall t | 0 <= t < |ns'| && ns'[t].used ensures t in at' {
      if t == s {
        assert at'[i] == t;
      } else {
        assert ns[t].used;
        var j :| 0 <= j < |at| && at[j] == t;
        assert at'[j] == t;
      }
    }
  }

  /** fillcolliding; the assertion of the source that a slot is left holds. */
  method FillColliding(hash: array<Node>, es: seq<Entry>, h: Hash, ghost at0: seq<int>)
    returns (ghost at: seq<int>, ghost cs: Chains)
    requires FirstInv(h, es, hash[..], at0, |es|) && Distinct(es)
    modifies hash
    ensures SecondInv(h, es, hash[..], at, |es|) && Linked(h, hash[..], cs)
  {
    hide FirstInv, SecondInv, Linked, Main, Stored, Distinct;
    at, cs := at0, FirstChains(hash[..]);
    FirstToSecond(h, es, hash[..], at);
    FirstLinked(h, es, hash[..], at);
    FirstSize(h, es, hash[..], at);
    var i := 0;
    while i < |es|
      invariant 0 <= i <= |es| == hash.Length && SecondInv(h, es, hash[..], at, i) && Linked(h, hash[..], cs)
    {
      var e := es[i];
      var m := Main(h, hash.Length, e.key);
      ghost var ns := hash[..];
      EntryAt(h, es, ns, at, i);
      if hash[m].key != e.key {
        var s := FindFree(hash);
        var first := hash[m];
        hash[s] := Node(true, e.key, h(e.key), first.next, false, e.value);
        hash[m] := first.(next := s, nocolliding := false);
        assert hash[..] == Inserted(h, ns, e, m, s);
        InsertLinked(h, ns, cs, e, s);
        InsertStored(h, es, ns, at, i, s);
        cs, at := Longer(cs, m, s), at[i := s];
      }
      i := i + 1;
    }
  }

  lemma FirstSize(h: Hash, es: seq<Entry>, ns: Nodes, at: seq<int>)
    requires FirstInv(h, es, ns, at, |es|)
    ensures |ns| == |es| > 0
  {
  }

  /** Either the entry is in its main position, and the second pass has nothing to do, or it is
      not stored, and there is a free slot. */
  lemma EntryAt(h: Hash, es: seq<Entry>, ns: Nodes, at: seq<int>, i: nat)
    requires SecondInv(h, es, ns, at, i) && i < |es|
    ensures |at| == |es|
    ensures var m := Main(h, |ns|, es[i].key);
            && ns[m].used && Main(h, |ns|, ns[m].key) == m
            && (ns[m].key == es[i].key ==> SecondInv(h, es, ns, at, i + 1))
            && (ns[m].key != es[i].key ==> at[i] == -1 && exists s :: 0 <= s < |ns| && !ns[s].used)
  {
    hide Main;
    var m := Main(h, |ns|, es[i].key);
    if ns[m].key == es[i].key {
      assert ns[m].used;
      var j :| 0 <= j < |at| && at[j] == m;
      assert es[j].key == es[i].key;
      assert j == i;
    } else {
      FreeSlot(es, ns, at, i);
    }
  }

  method FindFree(hash: array<Node>) returns (s: nat)
    requires exists t :: 0 <= t < hash.Length && !hash[t].used
    ensures s < hash.Length && !hash[s].used
  {
    s := 0;
    while hash[s].used
      invariant 0 <= s < hash.Length && forall t :: 0 <= t < s ==> hash[t].used
      decreases hash.Length - s
    {
      s := s + 1;
    }
  }

  // The finished table.

  /** Every entry has a slot, and the chains are in order. */
  ghost predicate Complete(h: Hash, es: seq<Entry>, ns: Nodes, at: seq<int>, cs: Chains) {
    |es| == |ns| && (ns != [] ==> SecondInv(h, es, ns, at, |es|) && Linked(h, ns, cs))
  }

  method Build(es: seq<Entry>, h: Hash) returns (hash: array<Node>, ghost at: seq<int>, ghost cs: Chains)
    requires Distinct(es)
    ensures fresh(hash) && Complete(h, es, hash[..], at, cs)
  {
    hide FirstInv, SecondInv, Linked;
    hash := new Node[|es|](_ => Node(false, IntKey(0), 0, 0, false, 0));
    at, cs := [], [];
    if |es| > 0 {
      at := FillNoColliding(hash, es, h);
      at, cs := FillColliding(hash, es, h, at);
    }
  }

  /** The values of `at` below n, all different. */
  ghost function Slots(at: seq<int>, n: nat): (r: set<int>)
    requires n <= |at| && forall i, j :: 0 <= i < j < n ==> at[i] != at[j]
    ensures |r| == n
    ensures forall s :: s in r <==> exists j :: 0 <= j < n && at[j] == s
  {
    if n == 0 then {} else
      var r := Slots(at, n - 1);
      assert at[n - 1] !in r;
      r + {at[n - 1]}
  }

  /** Different slots for n entries leave none of n slots over. */
  lemma Onto(at: seq<int>)
    requires (forall j :: 0 <= j < |at| ==> 0 <= at[j] < |at|) && forall i, j :: 0 <= i < j < |at| ==> at[i] != at[j]
    ensures forall s :: 0 <= s < |at| ==> s in at
  {
    var v := Slots(at, |at|);
    forall s | 0 <= s < |at| ensures s in at {
      if s !in v { SubsetSize(v + {s}, Range(|at|)); }
    }
  }

  lemma Placed(h: Hash, es: seq<Entry>, ns: Nodes, at: seq<int>)
    requires SecondInv(h, es, ns, at, |es|)
    ensures |at| == |es|
    ensures forall j :: 0 <= j < |es| ==>
              0 <= at[j] < |ns| && ns[at[j]].used && ns[at[j]].key == es[j].key && ns[at[j]].value == es[j].value
    ensures forall i, j :: 0 <= i < j < |es| ==> at[i] != at[j]
  {
    hide Main;
  }

  /** The entries and the slots correspond to each other one to one. */
  lemma Bijection(h: Hash, es: seq<Entry>, ns: Nodes, at: seq<int>, cs: Chains)
    requires Complete(h, es, ns, at, cs) && ns != []
    ensures |at| == |es|
    ensures forall j :: 0 <= j < |es| ==>
              0 <= at[j] < |ns| && ns[at[j]].key == es[j].key && ns[at[j]].value == es[j].value
    ensures forall s :: 0 <= s < |ns| ==> ns[s].used && EntryOf(es, at, s, ns[s].key)
    ensures forall s, t :: 0 <= s < t < |ns| ==> ns[s].key != ns[t].key
  {
    hide Linked, SecondInv;
    Placed(h, es, ns, at);
    Onto(at);
    forall s | 0 <= s < |ns| ensures ns[s].used && EntryOf(es, at, s, ns[s].key) {
      assert s in at;
      var j :| 0 <= j < |at| && at[j] == s;
    }
    forall s, t | 0 <= s < t < |ns| ensures ns[s].key != ns[t].key {
      assert s in at && t in at;
      var i :| 0 <= i < |at| && at[i] == s;
      var j :| 0 <= j < |at| && at[j] == t;
      KeysApart(h, es, ns, at, i, j);
    }
  }

  lemma KeysApart(h: Hash, es: seq<Entry>, ns: Nodes, at: seq<int>, i: nat, j: nat)
    requires SecondInv(h, es, ns, at, |es|) && i < |es| && j < |es| && i != j
    ensures es[i].key != es[j].key
  {
  }

  ghost predicate EntryOf(es: seq<Entry>, at: seq<int>, s: int, k: Key) {
    exists j :: 0 <= j < |at| && j < |es| && at[j] == s && es[j].key == k
  }

  /** Where the search for k starts: at the head of its chain if it is stored. */
  lemma SearchStart(h: Hash, ns: Nodes, cs: Chains, s: nat) returns (c: nat, p: nat)
    requires Linked(h, ns, cs) && s < |ns| && ns[s].used
    ensures c < |cs| && p < |cs[c]| && cs[c][p] == s
    ensures cs[s] != [] ==> c == s && p == 0
  {
    hide Main;
    if cs[s] != [] {
      c, p := s, 0;
    } else {
      c := Main(h, |ns|, ns[s].key);
      assert s in cs[c];
      p :| 0 <= p < |cs[c]| && cs[c][p] == s;
    }
  }

  /** k can only be in the chain c, at p or later. */
  ghost predicate Ahead(ns: Nodes, k: Key, chain: seq<int>, p: nat) {
    forall t :: 0 <= t < |ns| && ns[t].used && ns[t].key == k ==> exists i :: p <= i < |chain| && chain[i] == t
  }

  lemma AheadAtStart(h: Hash, ns: Nodes, cs: Chains, k: Key, c: nat, p: nat)
    requires Linked(h, ns, cs) && c < |cs|
    requires var m := Main(h, |ns|, k); cs[m] != [] ==> c == m && p == 0
    ensures Ahead(ns, k, cs[c], p)
  {
    hide Main, Links;
    forall t | 0 <= t < |ns| && ns[t].used && ns[t].key == k ensures exists i :: p <= i < |cs[c]| && cs[c][i] == t {
      assert t in cs[Main(h, |ns|, k)];
    }
  }

  lemma AheadStep(ns: Nodes, k: Key, chain: seq<int>, p: nat)
    requires Ahead(ns, k, chain, p) && p < |chain| && 0 <= chain[p] < |ns| && ns[chain[p]].key != k
    ensures Ahead(ns, k, chain, p + 1)
  {
    forall t | 0 <= t < |ns| && ns[t].used && ns[t].key == k ensures exists i :: p + 1 <= i < |chain| && chain[i] == t {
      var i :| p <= i < |chain| && chain[i] == t;
    }
  }

  /** lookup_key: the slot with the key, if and only if there is one. */
  method Lookup(hash: array<Node>, h: Hash, k: Key, ghost es: seq<Entry>, ghost at: seq<int>,
                ghost cs: Chains)
    returns (r: Option<nat>)
    requires Complete(h, es, hash[..], at, cs)
    ensures r.Some? ==> r.value < hash.Length && hash[r.value].key == k
    ensures r.Some? <==> exists j :: 0 <= j < |es| && es[j].key == k
    ensures forall j :: 0 <= j < |es| && es[j].key == k ==> r.Some? && hash[r.value].value == es[j].value
  {
    hide SecondInv, Linked, Main;
    if hash.Length == 0 { return None; }
    ghost var ns := hash[..];
    Bijection(h, es, ns, at, cs);
    var s := Main(h, hash.Length, k);
    ghost var c: nat, p: nat := SearchStart(h, ns, cs, s);
    AheadAtStart(h, ns, cs, k, c, p);
    ChainAt(h, ns, cs, c, p);
    if h(k) != hash[s].keyhash && hash[s].nocolliding {
      AloneThere(h, ns, cs, k);
      return None;
    }
    while true
      invariant c < |cs| && p < |cs[c]| && cs[c][p] == s && s < |ns| && hash[..] == ns && Ahead(ns, k, cs[c], p)
      decreases |cs[c]| - p
    {
      ChainAt(h, ns, cs, c, p);
      if h(k) == hash[s].keyhash && hash[s].key == k {
        assert EntryOf(es, at, s, ns[s].key);
        return Some(s);
      }
      AheadStep(ns, k, cs[c], p);
      if hash[s].next < 0 { return None; }
      s, p := hash[s].next, p + 1;
    }
  }

  lemma ChainAt(h: Hash, ns: Nodes, cs: Chains, c: nat, p: nat)
    requires Linked(h, ns, cs) && c < |cs| && p < |cs[c]|
    ensures OnChain(h, ns, cs, c, p) && (p + 1 < |cs[c]| ==> 0 <= cs[c][p + 1] < |ns|)
  {
    assert OnChain(h, ns, cs, c, p);
    if p + 1 < |cs[c]| { assert OnChain(h, ns, cs, c, p + 1); }
  }

  /** A main position without collision that has another hash. */
  lemma AloneThere(h: Hash, ns: Nodes, cs: Chains, k: Key)
    requires Linked(h, ns, cs)
    requires var s := Main(h, |ns|, k); ns[s].used && ns[s].nocolliding && ns[s].keyhash != h(k)
    ensures forall t :: 0 <= t < |ns| && ns[t].used ==> ns[t].key != k
  {
    hide Main;
    var s := Main(h, |ns|, k);
    assert s in cs[s];
    forall t | 0 <= t < |ns| && ns[t].used && ns[t].key == k ensures t == s { assert t in cs[s]; }
    assert OnChain(h, ns, cs, s, 0);
  }

  function KeyAt(ns: Nodes, s: nat): Option<Key> {
    if s < |ns| then Some(ns[s].key) else None
  }

  /** lnextkey on the hash part: from no key to the key of the first slot, and from the key of
      a slot to that of the next one. */
  method NextKey(hash: array<Node>, h: Hash, k: Option<Key>, ghost es: seq<Entry>, ghost at: seq<int>, ghost cs: Chains)
    returns (r: Option<Key>)
    requires Complete(h, es, hash[..], at, cs)
    ensures k.None? ==> r == KeyAt(hash[..], 0)
    ensures forall s :: 0 <= s < hash.Length && k == Some(hash[s].key) ==> r == KeyAt(hash[..], s + 1)
  {
    hide SecondInv, Linked;
    if k.None? {
      return if hash.Length == 0 then None else Some(hash[0].key);
    }
    var s := Lookup(hash, h, k.value, es, at, cs);
    if hash.Length > 0 {
      Bijection(h, es, hash[..], at, cs);
      forall t | 0 <= t < hash.Length && hash[t].key == k.value ensures s == Some(t) {
        assert EntryOf(es, at, t, hash[..][t].key);
      }
    }
    if s.None? || s.value + 1 == hash.Length { return None; }
    return Some(hash[s.value + 1].key);
  }

  /** Going through the table from no key on visits the key of every entry exactly once. */
  method Traverse(hash: array<Node>, h: Hash, ghost es: seq<Entry>, ghost at: seq<int>, ghost cs: Chains)
    returns (ks: seq<Key>)
    requires Complete(h, es, hash[..], at, cs)
    ensures |ks| == |es| && forall i, j :: 0 <= i < j < |ks| ==> ks[i] != ks[j]
    ensures forall k :: k in ks <==> exists j :: 0 <= j < |es| && es[j].key == k
  {
    hide SecondInv, Linked;
    ks := [];
    var k := NextKey(hash, h, None, es, at, cs);
    while k.Some?
      invariant |ks| <= hash.Length && forall i :: 0 <= i < |ks| ==> ks[i] == hash[i].key
      invariant k == KeyAt(hash[..], |ks|)
      decreases hash.Length - |ks|
    {
      ghost var s := |ks|;
      ks := ks + [k.value];
      k := NextKey(hash, h, k, es, at, cs);
      assert hash[s].key == ks[s];
    }
    if hash.Length > 0 {
      Bijection(h, es, hash[..], at, cs);
      forall k | exists j :: 0 <= j < |es| && es[j].key == k ensures k in ks {
        var j :| 0 <= j < |es| && es[j].key == k;
        assert ks[at[j]] == k;
      }
      forall k | k in ks ensures exists j :: 0 <= j < |es| && es[j].key == k {
        var s :| 0 <= s < |ks| && ks[s] == k;
        assert EntryOf(es, at, s, hash[..][s].key);
      }
    }
  }
}
