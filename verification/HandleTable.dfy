/** The handle table and the names of handles (core/uboss_handle.c). Registering a context and
    storing its handle in it is one step; `& (size - 1)` for a power of two is `% size`. */
module HandleTable {
  import opened Wrappers
  import opened LittleEndian

  type ContextId = nat

  /** A context with the handle stored in it. */
  datatype Context = Context(id: ContextId, handle: nat)

  type Slots = seq<Option<Context>>

  const HANDLES: nat := 0x100_0000
  const DEFAULT_SLOT_SIZE: nat := 4

  function Rest(x: int, n: nat): (r: nat)
    requires n >= 1
    ensures r < n
  {
    x % n
  }

  /** The context of a handle. */
  function Find(ss: Slots, h: nat): Option<ContextId>
    requires |ss| > 0
  {
    var s := ss[Rest(h, |ss|)];
    if s.Some? && s.value.handle == h then Some(s.value.id) else None
  }

  /** Every context is in the slot of its handle. */
  ghost predicate InPlace(ss: Slots) {
    |ss| > 0 && forall s :: 0 <= s < |ss| && ss[s].Some? ==> Rest(ss[s].value.handle, |ss|) == s
  }

  /** What a lookup finds: the context with that handle, wherever it is. */
  lemma FindIs(ss: Slots, h: nat)
    requires InPlace(ss)
    ensures forall c: ContextId ::
              Find(ss, h) == Some(c) <==> exists s :: 0 <= s < |ss| && ss[s] == Some(Context(c, h))
  {
    hide Rest;
    var s := Rest(h, |ss|);
    forall c: ContextId | Find(ss, h) == Some(c) ensures exists s :: 0 <= s < |ss| && ss[s] == Some(Context(c, h)) {
      assert ss[s] == Some(Context(c, h));
    }
  }

  /** No two live contexts have the same handle. */
  ghost predicate Distinct(ss: Slots) {
    forall s, t :: 0 <= s < t < |ss| && ss[s].Some? && ss[t].Some? ==> ss[s].value.handle != ss[t].value.handle
  }

  lemma InPlaceDistinct(ss: Slots)
    requires InPlace(ss)
    ensures Distinct(ss)
  {
    hide Rest;
  }

  lemma PowStep(n: nat)
    ensures Pow2(n + 1) == 2 * Pow2(n)
  {
  }

  lemma AllHandles()
    ensures Pow2(24) == HANDLES && Pow2(0) == 1
  {
    hide Pow2;
    PowTimes16(20);
    PowTimes16(16);
    PowTimes16(12);
    PowTimes16(8);
    PowTimes16(4);
    PowTimes16(0);
    PowZero();
  }

  lemma PowZero()
    ensures Pow2(0) == 1
  {
  }

  lemma PowTimes16(n: nat)
    ensures Pow2(n + 4) == 16 * Pow2(n)
  {
    hide Pow2;
    PowStep(n);
    PowStep(n + 1);
    PowStep(n + 2);
    PowStep(n + 3);
  }

  lemma {:induction false} DividesHandles(bits: nat)
    requires bits <= 24
    ensures HANDLES == Pow2(24 - bits) * Pow2(bits)
    decreases 24 - bits
  {
    hide Pow2;
    if bits == 24 {
      AllHandles();
    } else {
      DividesHandles(bits + 1);
      PowStep(bits);
      PowStep(24 - (bits + 1));
      var p, q := Pow2(24 - (bits + 1)), Pow2(bits);
      assert p * (2 * q) == (2 * p) * q;
    }
  }

  lemma ModMod(x: nat, q: nat, n: nat)
    requires q >= 1 && n >= 1
    ensures q * n >= 1 && Rest(Rest(x, q * n), n) == Rest(x, n)
  {
    assert q * n >= n by { assert (q - 1) * n >= 0; }
    var r, d := x % (q * n), x / (q * n);
    assert x == d * (q * n) + r;
    assert d * (q * n) == (d * q) * n;
    SameRest(x, r, d * q, n);
  }

  lemma SameRest(x: int, y: int, k: int, n: nat)
    requires n >= 1 && x == y + k * n
    ensures Rest(x, n) == Rest(y, n)
  {
    var d := x / n - y / n - k;
    assert x == (x / n) * n + x % n && y == (y / n) * n + y % n;
    assert d * n == y % n - x % n;
    assert d >= 1 ==> d * n >= n;
    assert d <= -1 ==> d * n + n <= 0;
  }

  /** Doubling a full table moves every context to its slot or to the one half the table
      further, so that no two meet. */
  lemma NewSlot(h: nat, n: nat)
    requires n >= 1
    ensures Rest(h, 2 * n) == Rest(h, n) || Rest(h, 2 * n) == Rest(h, n) + n
    ensures Rest(Rest(h, 2 * n), n) == Rest(h, n)
  {
    hide Rest;
    var r := Rest(h, 2 * n);
    ModMod(h, 2, n);
    if r < n { RestIs(r, 0, r, n); } else { RestIs(r, 1, r - n, n); }
  }

  lemma RestIs(x: int, k: int, r: nat, n: nat)
    requires r < n && x == k * n + r
    ensures Rest(x, n) == r
  {
    var d := x / n - k;
    assert x == (x / n) * n + x % n;
    assert d * n == r - x % n;
    assert d >= 1 ==> d * n >= n;
    assert d <= -1 ==> d * n + n <= 0;
  }

  /** The d-th number from the counter on. */
  function Number(index: nat, d: nat): (n: nat)
    ensures n < HANDLES
  {
    Rest(index + d, HANDLES)
  }

  /** The first number from the counter on whose slot is free is the d-th. */
  ghost predicate FirstFree(ss: Slots, index: nat, d: nat) {
    && 0 < |ss| && d < |ss| && ss[Rest(Number(index, d), |ss|)].None?
    && forall e :: 0 <= e < d ==> ss[Rest(Number(index, e), |ss|)].Some?
  }

  /** The handle is that number with the harbor, and the counter is behind it. */
  ghost predicate Issued(h: nat, harbor: nat, index: nat, d: nat, index': nat) {
    h == Number(index, d) + harbor && index' == Number(index, d) + 1
  }

  /** The table of twice the size: every context is in the slot of its handle. */
  ghost function Doubled(ss: Slots): (bs: Slots)
    requires |ss| > 0
    ensures |bs| == 2 * |ss|
  {
    seq(2 * |ss|, t requires 0 <= t < 2 * |ss| =>
      var x := ss[Rest(t, |ss|)];
      if x.Some? && Rest(x.value.handle, 2 * |ss|) == t then x else None)
  }

  /** The table in which a free slot is found: a full one is doubled first. */
  ghost function Searched(ss: Slots): Slots
    requires |ss| > 0
  {
    if forall s :: 0 <= s < |ss| ==> ss[s].Some? then Doubled(ss) else ss
  }

  class HandleStorage {
    const harbor: nat
    var handleIndex: nat
    var slot: array<Option<Context>>
    ghost var bits: nat

    ghost predicate Valid()
      reads this, slot
    {
      && bits <= 24 && slot.Length == Pow2(bits)
      && harbor % HANDLES == 0
      && InPlace(slot[..])
    }

    /** uboss_handle_init */
    constructor (h: nat)
      ensures Valid() && fresh(slot) && slot.Length == DEFAULT_SLOT_SIZE && forall k :: Find(slot[..], k) == None
      ensures harbor == (h % 256) * HANDLES && handleIndex == 1
    {
      harbor, handleIndex := (h % 256) * HANDLES, 1;
      slot := new Option<Context>[4](_ => None);
      bits := 2;
    }

    /** uboss_handle_grab, without the count. */
    method Grab(h: nat) returns (c: Option<ContextId>)
      requires Valid()
      ensures forall k: ContextId ::
                c == Some(k) <==> exists s :: 0 <= s < slot.Length && slot[..][s] == Some(Context(k, h))
      ensures c == Find(slot[..], h)
    {
      FindIs(slot[..], h);
      var ctx := slot[Rest(h, slot.Length)];
      if ctx.Some? && ctx.value.handle == h { return Some(ctx.value.id); }
      return None;
    }

    /** uboss_handle_retire on the slots: the handle is gone, every other one stays. */
    method Retire(h: nat) returns (c: Option<ContextId>)
      requires Valid()
      modifies slot
      ensures Valid() && c == old(Find(slot[..], h))
      ensures Find(slot[..], h) == None
      ensures forall k :: k != h ==> Find(slot[..], k) == old(Find(slot[..], k))
    {
      var s := Rest(h, slot.Length);
      var ctx := slot[s];
      if ctx.Some? && ctx.value.handle == h {
        slot[s] := None;
        return Some(ctx.value.id);
      }
      return None;
    }

    /** The inner loop of uboss_handle_register: a free slot is found if there is one, for the first
        number from the counter on whose slot is free, and the counter is then behind it. */
    method TryRegister(c: ContextId) returns (h: Option<nat>, ghost d: nat)
      requires Valid()
      modifies this`handleIndex, slot
      ensures Valid()
      ensures h.None? ==> unchanged(this) && unchanged(slot) && forall s :: 0 <= s < slot.Length ==> slot[s].Some?
      ensures (exists s :: 0 <= s < slot.Length && old(slot[s]).None?) ==> h.Some?
      ensures h.Some? ==> FirstFree(old(slot[..]), old(handleIndex), d)
      ensures h.Some? ==> Issued(h.value, harbor, old(handleIndex), d, handleIndex)
      ensures h.Some? ==>
                && old(Find(slot[..], h.value)) == None && Find(slot[..], h.value) == Some(c)
                && forall k :: k != h.value ==> Find(slot[..], k) == old(Find(slot[..], k))
    {
      hide Rest, Pow2;
      var i := 0;
      while i < slot.Length
        invariant 0 <= i <= slot.Length && unchanged(this) && unchanged(slot)
        invariant forall j :: 0 <= j < i ==> slot[Probe(j, handleIndex, slot.Length)].Some?
        invariant forall j :: 0 <= j < i ==> slot[Rest(Number(handleIndex, j), slot.Length)].Some?
      {
        var handle := Rest(i + handleIndex, HANDLES);
        var s := Rest(handle, slot.Length);
        ProbeIs(i, handleIndex, bits);
        if slot[s].None? {
          HarborFree(handle, harbor, bits);
          ghost var ss := slot[..];
          slot[s] := Some(Context(c, handle + harbor));
          handleIndex := handle + 1;
          Placed(ss, s, Context(c, handle + harbor));
          return Some(handle + harbor), i;
        }
        i := i + 1;
      }
      forall s | 0 <= s < slot.Length ensures slot[s].Some? && old(slot[s]).Some? {
        AllReached(s, handleIndex, slot.Length);
        assert slot[s] == old(slot[s]);
      }
      return None, 0;
    }

    /** The doubling of uboss_handle_register. */
    method Double()
      requires Valid() && bits < 24 && forall s :: 0 <= s < slot.Length ==> slot[s].Some?
      modifies this`slot, this`bits
      ensures Valid() && fresh(slot) && slot[..] == old(Doubled(slot[..]))
      ensures forall k :: Find(slot[..], k) == old(Find(slot[..], k))
      ensures exists s :: 0 <= s < slot.Length && slot[s].None?
    {
      hide Rest;
      var n := slot.Length;
      ghost var ss := slot[..];
      var bigger := new Option<Context>[2 * n](_ => None);
      var i := 0;
      while i < n
        invariant 0 <= i <= n && slot[..] == ss && unchanged(this) && bigger.Length == 2 * n
        invariant Rehashed(ss, bigger[..], i)
      {
        var s := Rest(slot[i].value.handle, 2 * n);
        RehashStep(ss, bigger[..], i);
        assert bigger[s].None?;
        bigger[s] := slot[i];
        i := i + 1;
      }
      RehashedSame(ss, bigger[..]);
      slot := bigger;
      bits := bits + 1;
    }

    /** uboss_handle_register: a handle that no live context has, after one doubling at most;
        none only if all 2^24 slots are taken. It is the first number from the counter on that
        has a free slot, and the counter is then behind it. */
    method Register(c: ContextId) returns (h: Option<nat>, ghost d: nat)
      requires Valid()
      modifies this, slot
      ensures Valid() && (slot == old(slot) || fresh(slot))
      ensures slot.Length == old(slot.Length) || slot.Length == 2 * old(slot.Length)
      ensures h.None? ==> slot == old(slot) && unchanged(slot) && bits == 24 && handleIndex == old(handleIndex)
      ensures h.None? ==> forall s :: 0 <= s < slot.Length ==> slot[s].Some?
      ensures h.Some? ==>
                && old(Find(slot[..], h.value)) == None && Find(slot[..], h.value) == Some(c)
                && forall k :: k != h.value ==> Find(slot[..], k) == old(Find(slot[..], k))
      ensures h.Some? ==> FirstFree(old(Searched(slot[..])), old(handleIndex), d) && d < slot.Length
      ensures h.Some? ==> Issued(h.value, harbor, old(handleIndex), d, handleIndex)
      ensures Distinct(slot[..])
      ensures h.Some? ==>
                var ss := old(slot[..]);
                forall s :: 0 <= s < |ss| && ss[s].Some? ==> ss[s].value.handle != h.value
    {
      ghost var before := slot[..];
      h, d := TryRegister(c);
      if h.None? && slot.Length * 2 <= HANDLES {
        FewerBits(bits);
        h, d := RegisterDoubled(c);
      } else if h.None? {
        FullSize(bits);
      }
      InPlaceDistinct(slot[..]);
      if h.Some? { NotLive(before, h.value); }
    }

    /** The second round of uboss_handle_register finds a slot in the doubled table. */
    method RegisterDoubled(c: ContextId) returns (h: Option<nat>, ghost d: nat)
      requires Valid() && bits < 24 && forall s :: 0 <= s < slot.Length ==> slot[s].Some?
      modifies this
      ensures Valid() && fresh(slot) && slot.Length == 2 * old(slot.Length) && h.Some?
      ensures FirstFree(old(Doubled(slot[..])), old(handleIndex), d)
      ensures Issued(h.value, harbor, old(handleIndex), d, handleIndex)
      ensures old(Find(slot[..], h.value)) == None && Find(slot[..], h.value) == Some(c)
      ensures forall k :: k != h.value ==> Find(slot[..], k) == old(Find(slot[..], k))
    {
      hide Find, Rest, FirstFree, Issued;
      Double();
      h, d := TryRegister(c);
    }
  }

  lemma FewerBits(bits: nat)
    requires bits <= 24 && Pow2(bits) * 2 <= HANDLES
    ensures bits < 24
  {
    hide Pow2;
    AllHandles();
  }

  lemma NotLive(ss: Slots, h: nat)
    requires InPlace(ss) && Find(ss, h) == None
    ensures forall s :: 0 <= s < |ss| && ss[s].Some? ==> ss[s].value.handle != h
  {
    hide Rest;
  }

  lemma FullSize(bits: nat)
    requires bits <= 24 && Pow2(bits) * 2 > HANDLES
    ensures bits == 24
  {
    if bits < 24 { HalfFits(bits); }
  }

  lemma HalfFits(bits: nat)
    requires bits < 24
    ensures Pow2(bits) * 2 <= HANDLES
  {
    DividesHandles(bits + 1);
    AtLeastOnce(Pow2(24 - (bits + 1)), Pow2(bits + 1));
  }

  lemma AtLeastOnce(p: nat, q: nat)
    requires p >= 1
    ensures p * q >= q
  {
    assert p * q == q + (p - 1) * q;
  }

  lemma HarborFree(handle: nat, harbor: nat, bits: nat)
    requires bits <= 24 && harbor % HANDLES == 0
    ensures Rest(handle + harbor, Pow2(bits)) == Rest(handle, Pow2(bits))
  {
    hide Pow2, Rest;
    DividesHandles(bits);
    var k, n, q := harbor / HANDLES, Pow2(bits), Pow2(24 - bits);
    assert harbor == k * HANDLES;
    assert k * (q * n) == (k * q) * n;
    SameRest(handle + harbor, handle, k * q, n);
  }

  /** The j-th slot that is tried. */
  function Probe(j: nat, start: nat, n: nat): (s: nat)
    requires n >= 1
    ensures s < n
  {
    Rest(j + start, n)
  }

  lemma ProbeIs(j: nat, start: nat, bits: nat)
    requires bits <= 24
    ensures Rest(Rest(j + start, HANDLES), Pow2(bits)) == Probe(j, start, Pow2(bits))
  {
    hide Rest, Pow2;
    DividesHandles(bits);
    ModMod(j + start, Pow2(24 - bits), Pow2(bits));
  }

  /** Every slot is tried. */
  lemma AllReached(s: nat, start: nat, n: nat)
    requires s < n
    ensures var j := Rest(s - start, n); Probe(j, start, n) == s
  {
    var j, d := Rest(s - start, n), (s - start) / n;
    assert s - start == d * n + j;
    RestIs(j + start, -d, s, n);
  }

  /** A new context in a free slot changes nothing for the other handles. */
  lemma Placed(ss: Slots, s: nat, c: Context)
    requires InPlace(ss) && s < |ss| && ss[s].None? && Rest(c.handle, |ss|) == s
    ensures var now := ss[s := Some(c)];
            && InPlace(now) && Find(ss, c.handle) == None && Find(now, c.handle) == Some(c.id)
            && forall k :: k != c.handle ==> Find(now, k) == Find(ss, k)
  {
    hide Rest;
  }

  /** The contexts of the first i slots are in their new slots, and nothing else is there. */
  ghost predicate Rehashed(ss: Slots, bs: Slots, i: nat) {
    && |bs| == 2 * |ss| && i <= |ss| && InPlace(ss)
    && (forall s :: 0 <= s < i && ss[s].Some? ==> bs[Rest(ss[s].value.handle, |bs|)] == ss[s])
    && (forall t :: 0 <= t < |bs| && bs[t].Some? ==>
          Rest(bs[t].value.handle, |bs|) == t && Rest(t, |ss|) < i && bs[t] == ss[Rest(t, |ss|)])
  }

  /** No two contexts meet. */
  lemma RehashStep(ss: Slots, bs: Slots, i: nat)
    requires Rehashed(ss, bs, i) && i < |ss| && ss[i].Some?
    ensures var t := Rest(ss[i].value.handle, |bs|); bs[t].None? && Rehashed(ss, bs[t := ss[i]], i + 1)
  {
    hide Rest;
    NewSlot(ss[i].value.handle, |ss|);
    var t := Rest(ss[i].value.handle, |bs|);
    var now := bs[t := ss[i]];
    forall s | 0 <= s < i + 1 && ss[s].Some? ensures now[Rest(ss[s].value.handle, |now|)] == ss[s] {
      NewSlot(ss[s].value.handle, |ss|);
    }
  }

  lemma RehashedSame(ss: Slots, bs: Slots)
    requires Rehashed(ss, bs, |ss|) && forall s :: 0 <= s < |ss| ==> ss[s].Some?
    ensures InPlace(bs) && forall k :: Find(bs, k) == Find(ss, k)
    ensures exists s :: 0 <= s < |bs| && bs[s].None?
    ensures bs == Doubled(ss)
  {
    hide Rest;
    forall t | 0 <= t < |bs| ensures bs[t] == Doubled(ss)[t] { NewSlot(ss[Rest(t, |ss|)].value.handle, |ss|); }
    forall k: nat ensures Find(bs, k) == Find(ss, k) { NewSlot(k, |ss|); }
    var t := Rest(ss[0].value.handle, |bs|);
    var u := if t < |ss| then t + |ss| else t - |ss|;
    NewSlot(ss[0].value.handle, |ss|);
    NewSlot(u, |ss|);
    SameRest(u, t, if t < |ss| then 1 else -1, |ss|);
    assert bs[u].None?;
  }

  // Sequences of registrations and retirements.

  datatype Request = Enter(c: ContextId) | Leave(h: nat)

  /** Numbers that are less than a whole round apart are different. */
  lemma RoundApart(x: nat, y: nat)
    requires x < y < x + HANDLES
    ensures Rest(x, HANDLES) != Rest(y, HANDLES)
  {
    var d := y / HANDLES - x / HANDLES;
    assert x == (x / HANDLES) * HANDLES + x % HANDLES && y == (y / HANDLES) * HANDLES + y % HANDLES;
    assert y - x == d * HANDLES + (y % HANDLES - x % HANDLES);
  }

  /** The counter without wrap-around gives the same numbers. */
  lemma Unwrapped(u: nat, index: nat, d: nat)
    requires Rest(u, HANDLES) == Rest(index, HANDLES)
    ensures Number(index, d) == Rest(u + d, HANDLES)
    ensures Rest(u + d + 1, HANDLES) == Rest(Number(index, d) + 1, HANDLES)
  {
    var k := index / HANDLES - u / HANDLES;
    assert index == u + k * HANDLES;
    SameRest(index + d, u + d, k, HANDLES);
    var n := Rest(u + d, HANDLES);
    SameRest(u + d + 1, n + 1, (u + d) / HANDLES, HANDLES);
  }

  /** The handles given out so far. at[k] is the number behind the k-th, as if the counter did not
      wrap around; it is now at u. */
  ghost predicate History(given: seq<Option<nat>>, at: seq<nat>, u: nat, size: nat, harbor: nat) {
    && |at| == |given|
    && (forall k :: 0 <= k < |given| && given[k].Some? ==> given[k].value == Rest(at[k], HANDLES) + harbor)
    && (forall k :: 0 <= k < |given| && given[k].Some? ==> at[k] < u)
    && (forall k :: 0 <= k < |given| && given[k].Some? ==> u - at[k] <= (|given| - k) * size)
    && (forall j, k :: 0 <= j < k < |given| && given[j].Some? && given[k].Some? ==> at[j] < at[k])
    && (forall j, k :: 0 <= j < k < |given| && given[j].Some? && given[k].Some? ==>
          at[k] - at[j] < (k - j + 1) * size)
  }

  lemma MoreRounds(n: nat, size: nat, size': nat)
    requires size <= size'
    ensures n * size <= n * size' && (n + 1) * size' == n * size' + size' && n * size <= (n + 1) * size'
  {
    assert n * size' - n * size == n * (size' - size) >= 0;
  }

  lemma HistoryOn(given: seq<Option<nat>>, at: seq<nat>, u: nat, size: nat, size': nat, harbor: nat)
    requires History(given, at, u, size, harbor) && size <= size'
    ensures History(given + [None], at + [u], u, size', harbor)
    ensures forall k :: 0 <= k < |given| && given[k].Some? ==> u - at[k] <= (|given| - k) * size'
  {
    forall n: nat ensures n * size <= n * size' && n * size <= (n + 1) * size' { MoreRounds(n, size, size'); }
    forall k | 0 <= k < |given| && given[k].Some? ensures u - at[k] <= (|given| + 1 - k) * size' {
      MoreRounds(|given| - k, size, size');
    }
    forall j, k | 0 <= j < k < |given| && given[j].Some? && given[k].Some?
      ensures at[k] - at[j] < (k - j + 1) * size'
    {
      MoreRounds(k - j + 1, size, size');
    }
  }

  lemma HistoryMore(given: seq<Option<nat>>, at: seq<nat>, u: nat, size: nat, size': nat, harbor: nat, d: nat, h: nat)
    requires History(given, at, u, size, harbor) && size <= size' && d < size' && h == Rest(u + d, HANDLES) + harbor
    ensures History(given + [Some(h)], at + [u + d], u + d + 1, size', harbor)
  {
    hide Rest;
    HistoryOn(given, at, u, size, size', harbor);
    forall k | 0 <= k < |given| && given[k].Some?
      ensures u + d + 1 - at[k] <= (|given| + 1 - k) * size' && u + d - at[k] < (|given| - k + 1) * size'
    {
      MoreRounds(|given| - k, size', size');
    }
    forall j, k | 0 <= j < k < |given| && given[j].Some? && given[k].Some?
      ensures at[k] - at[j] < (k - j + 1) * size'
    {
      MoreRounds(k - j + 1, size, size');
    }
  }

  /** The counter is where it would be without wrap-around, modulo the numbers. */
  ghost predicate CounterAt(index: nat, u: nat) {
    Rest(u, HANDLES) == Rest(index, HANDLES)
  }

  method ServeOne(s: HandleStorage, request: Request, ghost given: seq<Option<nat>>, ghost at: seq<nat>, ghost u: nat)
    returns (r: Option<nat>, ghost a: nat, ghost u': nat)
    requires s.Valid() && CounterAt(s.handleIndex, u) && History(given, at, u, s.slot.Length, s.harbor)
    modifies s, s.slot
    ensures s.Valid() && (s.slot == old(s.slot) || fresh(s.slot)) && CounterAt(s.handleIndex, u')
    ensures History(given + [r], at + [a], u', s.slot.Length, s.harbor)
    ensures u' >= u && a >= u && (r.Some? ==> request.Enter?)
  {
    hide HandleStorage.Valid, History, Find, FirstFree, Rest, Distinct;
    ghost var size, index := s.slot.Length, s.handleIndex;
    match request
    case Enter(c) =>
      ghost var d;
      r, d := s.Register(c);
      a, u' := u, u;
      HistoryOn(given, at, u, size, s.slot.Length, s.harbor);
      if r.Some? {
        Unwrapped(u, index, d);
        assert d < s.slot.Length;
        HistoryMore(given, at, u, size, s.slot.Length, s.harbor, d, r.value);
        a, u' := u + d, u + d + 1;
      }
    case Leave(h) =>
      var _ := s.Retire(h);
      HistoryOn(given, at, u, size, size, s.harbor);
      r, a, u' := None, u, u;
  }

  /** Any sequence of registrations and retirements on a new table: a handle is not given out again
      before the counter has gone through all numbers, and it moves by less than the size of the
      table with each registration. The reserved number 0 is given out exactly when the counter
      comes to it again. */
  method Serve(h: nat, requests: seq<Request>) returns (s: HandleStorage, given: seq<Option<nat>>, ghost at: seq<nat>)
    ensures fresh(s) && s.Valid() && |given| == |at| == |requests|
    ensures forall k :: 0 <= k < |given| && given[k].Some? ==>
              requests[k].Enter? && given[k].value == at[k] % HANDLES + (h % 256) * HANDLES
    ensures forall j, k :: 0 <= j < k < |given| && given[j].Some? && given[k].Some? ==>
              at[j] < at[k] && at[k] - at[j] < (k - j + 1) * s.slot.Length
    ensures forall j, k :: 0 <= j < k < |given| && given[j].Some? && given[k].Some? && at[k] - at[j] < HANDLES ==>
              given[j] != given[k]
    ensures forall k :: 0 <= k < |given| && given[k].Some? ==>
              at[k] >= 1 && (given[k].value % HANDLES == 0 <==> at[k] % HANDLES == 0)
  {
    hide HandleStorage.Valid, History, CounterAt;
    s := new HandleStorage(h);
    given, at := [], [];
    ghost var u := 1;
    HistoryStart(s.slot.Length, s.harbor);
    var i := 0;
    while i < |requests|
      invariant 0 <= i == |given| == |at| <= |requests|
      invariant fresh(s) && fresh(s.slot) && s.Valid() && CounterAt(s.handleIndex, u) && u >= 1
      invariant forall k :: 0 <= k < i && given[k].Some? ==> requests[k].Enter? && at[k] >= 1
      invariant s.harbor == (h % 256) * HANDLES && History(given, at, u, s.slot.Length, s.harbor)
    {
      var r;
      ghost var a;
      r, a, u := ServeOne(s, requests[i], given, at, u);
      given, at, i := given + [r], at + [a], i + 1;
    }
    GivenApart(given, at, u, s.slot.Length, h);
  }

  lemma HistoryStart(size: nat, harbor: nat)
    ensures History([], [], 1, size, harbor) && CounterAt(1, 1)
  {
  }

  lemma GivenApart(given: seq<Option<nat>>, at: seq<nat>, u: nat, size: nat, h: nat)
    requires History(given, at, u, size, (h % 256) * HANDLES)
    requires forall k :: 0 <= k < |given| && given[k].Some? ==> at[k] >= 1
    ensures forall k :: 0 <= k < |given| && given[k].Some? ==> given[k].value == at[k] % HANDLES + (h % 256) * HANDLES
    ensures forall j, k :: 0 <= j < k < |given| && given[j].Some? && given[k].Some? ==>
              at[j] < at[k] && at[k] - at[j] < (k - j + 1) * size
    ensures forall j, k :: 0 <= j < k < |given| && given[j].Some? && given[k].Some? && at[k] - at[j] < HANDLES ==>
              given[j] != given[k]
    ensures forall k :: 0 <= k < |given| && given[k].Some? ==>
              at[k] >= 1 && (given[k].value % HANDLES == 0 <==> at[k] % HANDLES == 0)
  {
    forall j, k | 0 <= j < k < |given| && given[j].Some? && given[k].Some? && at[k] - at[j] < HANDLES
      ensures given[j] != given[k]
    {
      RoundApart(at[j], at[k]);
    }
  }
}
