/** The hierarchical timing wheel of core/uboss_timer.c. */
module TimerWheel {
  /** The clock wraps at 32 bits. */
  const WRAP: nat := 0x1_0000_0000
  const TIME_NEAR: nat := 256
  const TIME_LEVEL: nat := 64

  /** Longest delay the wheel is used with: `time` is a positive C int. */
  const MAX_DELAY: nat := 0x8000_0000

  datatype Event = Event(handle: nat, session: int)

  /** A node of a list; `expire` is a moment of the wrapped clock. */
  datatype Node = Node(expire: nat, event: Event)

  /** A timer as its client sees it: `due` is a moment of a clock that does not wrap. */
  datatype Entry = Entry(due: nat, event: Event)

  function NodeOf(e: Entry): Node {
    Node(e.due % WRAP, e.event)
  }

  /** A list of the wheel: near[i] or t[level][i]. */
  datatype Slot = Near(i: nat) | Level(level: nat, i: nat)

  predicate IsSlot(s: Slot) {
    match s
    case Near(i) => i < TIME_NEAR
    case Level(l, i) => l < 4 && i < TIME_LEVEL
  }

  /** Granularity of level `l`: 2^8, 2^14, 2^20, 2^26, 2^32. */
  function Unit(l: nat): (u: nat)
    requires l <= 4
    ensures u > 0
  {
    if l == 0 then 0x100 else if l == 1 then 0x4000 else if l == 2 then 0x10_0000
    else if l == 3 then 0x400_0000 else WRAP
  }

  /** The list in which `add_node` puts a node with this expiry at this time. */
  function Placement(expire: nat, time: nat): (s: Slot)
    ensures IsSlot(s)
  {
    if expire / Unit(0) == time / Unit(0) then Near(expire % TIME_NEAR)
    else if expire / Unit(1) == time / Unit(1) then Level(0, expire / Unit(0) % TIME_LEVEL)
    else if expire / Unit(2) == time / Unit(2) then Level(1, expire / Unit(1) % TIME_LEVEL)
    else if expire / Unit(3) == time / Unit(3) then Level(2, expire / Unit(2) % TIME_LEVEL)
    else Level(3, expire / Unit(3) % TIME_LEVEL)
  }

  /** Does `due` lie ahead of `now`, and not too far for the wrapped clock? */
  predicate Ahead(due: nat, now: nat) {
    now <= due < now + MAX_DELAY
  }

  // Arithmetic of the wrapped clock.

  lemma AtLeast(d: int, u: nat)
    requires d >= 1
    ensures d * u >= u
  {
    assert d * u == (d - 1) * u + u;
  }

  /** Quotient and remainder are unique. */
  lemma DivUnique(x: nat, u: nat, q: int, r: nat)
    requires u > 0 && r < u && x == q * u + r
    ensures x / u == q && x % u == r
  {
    var q', r' := x / u, x % u;
    assert (q - q') * u == q * u - q' * u == r' - r;
    assert (q' - q) * u == -((q - q') * u);
    if q > q' { AtLeast(q - q', u); }
    if q < q' { AtLeast(q' - q, u); }
  }

  lemma WrapDiv(x: nat, u: nat, n: nat)
    requires u > 0 && n > 0
    ensures (x % (n * u)) / u == (x / u) % n
  {
    var w := n * u;
    assert w > 0;
    var a, b := x / w, x % w;
    var c, r := b / u, b % u;
    assert x == a * w + b && b == c * u + r;
    assert a * w == (a * n) * u;
    assert x == (a * n + c) * u + r by { assert (a * n + c) * u == (a * n) * u + c * u; }
    DivUnique(x, u, a * n + c, r);
    assert (c - n + 1) * u == c * u - w + u;
    if c >= n { AtLeast(c - n + 1, u); }
    DivUnique(a * n + c, n, a, c);
  }

  lemma ModMod(a: nat, k: nat, m: nat)
    requires k > 0 && m > 0
    ensures a % (k * m) % m == a % m
  {
    var n := k * m;
    assert n > 0;
    var q, b := a / n, a % n;
    var c, r := b / m, b % m;
    assert a == q * n + b && b == c * m + r;
    assert a == (q * k + c) * m + r by { assert q * n == (q * k) * m; }
    DivUnique(a, m, q * k + c, r);
  }

  /** Within the allowed delay the wrapped clock sees the same quotients. */
  lemma WrapSame(due: nat, now: nat, l: nat)
    requires l <= 3 && Ahead(due, now)
    ensures (due % WRAP) / Unit(l) == (now % WRAP) / Unit(l) <==> due / Unit(l) == now / Unit(l)
    ensures (due % WRAP) / Unit(l) % TIME_LEVEL == due / Unit(l) % TIME_LEVEL
  {
    var u := Unit(l);
    var k: nat := if l == 0 then 0x4_0000 else if l == 1 then 0x1000 else if l == 2 then 0x40 else 1;
    var n := k * TIME_LEVEL;
    assert n * u == WRAP;
    WrapDiv(due, u, n);
    WrapDiv(now, u, n);
    ModMod(due / u, k, TIME_LEVEL);
    CloseQuotients(due, now, u, n);
    if due / u % n == now / u % n { Congruent(due / u, now / u, n); }
  }

  lemma CloseQuotients(due: nat, now: nat, u: nat, n: nat)
    requires u > 0 && n >= 2 && now <= due && 2 * (due - now) <= n * u
    ensures now / u <= due / u < now / u + n
  {
    var x := now + (n - 1) * u;
    AtLeast(n - 1, u);
    assert n * u == (n - 1) * u + u;
    assert x == (now / u + (n - 1)) * u + now % u;
    DivUnique(x, u, now / u + (n - 1), now % u);
    Monotone(now, due, u);
    Monotone(due, x, u);
  }

  lemma Congruent(a: nat, b: nat, n: nat)
    requires n > 0 && b <= a < b + n && a % n == b % n
    ensures a == b
  {
    var q := a / n - b / n;
    assert a - b == q * n;
    if q >= 1 { AtLeast(q, n); }
    if q <= -1 { AtLeast(-q, n); }
  }

  /** Placement is the same on the wrapped and on the unwrapped clock. */
  lemma PlacementUnwrapped(due: nat, now: nat)
    requires Ahead(due, now)
    ensures Placement(due % WRAP, now % WRAP) == Placement(due, now)
  {
    WrapSame(due, now, 0);
    WrapSame(due, now, 1);
    WrapSame(due, now, 2);
    WrapSame(due, now, 3);
    assert WRAP == 0x100_0000 * TIME_NEAR;
    ModMod(due, 0x100_0000, TIME_NEAR);
  }

  // Quotients of a moment that lies ahead, and of two consecutive moments.

  lemma Monotone(a: nat, b: nat, u: nat)
    requires a <= b && u > 0
    ensures a / u <= b / u
  {
    var d := a / u - b / u;
    assert d * u == a - a % u - (b - b % u);
    if d >= 1 { AtLeast(d, u); }
  }

  lemma Successor(now: nat, u: nat)
    requires u > 0
    ensures (now + 1) / u == if (now + 1) % u == 0 then now / u + 1 else now / u
  {
    var q, r := now / u, now % u;
    assert (q + 1) * u == q * u + u;
    if r + 1 == u { DivUnique(now + 1, u, q + 1, 0); } else { DivUnique(now + 1, u, q, r + 1); }
  }

  /** The quotient by the next unit. */
  lemma NextUnit(x: nat, u: nat)
    requires u > 0
    ensures x / (TIME_LEVEL * u) == x / u / TIME_LEVEL
    ensures x % (TIME_LEVEL * u) == 0 <==> x % u == 0 && x / u % TIME_LEVEL == 0
  {
    var q, r := x / u, x % u;
    var c, d := q / TIME_LEVEL, q % TIME_LEVEL;
    assert x == c * (TIME_LEVEL * u) + (d * u + r);
    assert (TIME_LEVEL - d) * u == TIME_LEVEL * u - d * u;
    AtLeast(TIME_LEVEL - d, u);
    DivUnique(x, TIME_LEVEL * u, c, d * u + r);
    if d >= 1 { AtLeast(d, u); }
  }

  /** The list that `timer_shift` redistributes when the clock reaches `time`. */
  function Moved(time: nat): (s: Slot)
    ensures IsSlot(s) && s.Level?
  {
    if time / Unit(0) % TIME_LEVEL != 0 then Level(0, time / Unit(0) % TIME_LEVEL)
    else if time / Unit(1) % TIME_LEVEL != 0 then Level(1, time / Unit(1) % TIME_LEVEL)
    else if time / Unit(2) % TIME_LEVEL != 0 then Level(2, time / Unit(2) % TIME_LEVEL)
    else Level(3, time / Unit(3) % TIME_LEVEL)
  }

  /** Is the list finer than those of level `level`? */
  predicate Finer(s: Slot, level: nat) {
    s.Near? || s.level < level
  }

  /** When the clock advances to `now + 1`, a timer that has not expired keeps its place
      unless it is in the redistributed list, and then it moves to a finer list. No timer
      is in a finer list at that time, and none ends up in the redistributed one. */
  lemma ShiftPlacement(due: nat, now: nat)
    requires now < due < now + MAX_DELAY
    ensures var a, b := Placement(due, now), Placement(due, now + 1);
            if (now + 1) % TIME_NEAR != 0 then a == b
            else var m := Moved(now + 1);
                 && b != m
                 && (a == m ==> Finer(b, m.level))
                 && (a != m ==> b == a && !Finer(a, m.level))
  {
    if (now + 1) % TIME_NEAR != 0 { ShiftWithinBlock(due, now); } else { ShiftIntoBlock(due, now); }
  }

  lemma ShiftWithinBlock(due: nat, now: nat)
    requires now < due && (now + 1) % TIME_NEAR != 0
    ensures Placement(due, now) == Placement(due, now + 1)
  {
    QuotientFacts(due, now, 0);
    QuotientFacts(due, now, 1);
    QuotientFacts(due, now, 2);
  }

  lemma ShiftIntoBlock(due: nat, now: nat)
    requires now < due < now + MAX_DELAY && (now + 1) % TIME_NEAR == 0
    ensures var a, b, m := Placement(due, now), Placement(due, now + 1), Moved(now + 1);
            && b != m
            && (a == m ==> Finer(b, m.level))
            && (a != m ==> b == a && !Finer(a, m.level))
  {
    QuotientFacts(due, now, 0);
    QuotientFacts(due, now, 1);
    QuotientFacts(due, now, 2);
    Monotone(now + 1, due, Unit(3));
    Successor(now, Unit(3));
    CloseQuotients(due, now + 1, Unit(3), TIME_LEVEL);
    if (now + 1) % Unit(1) != 0 {
    } else if (now + 1) % Unit(2) != 0 {
    } else if (now + 1) % Unit(3) != 0 {
    } else {
    }
  }

  lemma QuotientFacts(due: nat, now: nat, l: nat)
    requires l <= 3 && now < due
    ensures (now + 1) / Unit(l) <= due / Unit(l)
    ensures (now + 1) / Unit(l) == if (now + 1) % Unit(l) == 0 then now / Unit(l) + 1 else now / Unit(l)
    ensures due / Unit(l + 1) == due / Unit(l) / TIME_LEVEL
    ensures now / Unit(l + 1) == now / Unit(l) / TIME_LEVEL
    ensures (now + 1) / Unit(l + 1) == (now + 1) / Unit(l) / TIME_LEVEL
    ensures (now + 1) % Unit(l + 1) == 0 <==> (now + 1) % Unit(l) == 0 && (now + 1) / Unit(l) % TIME_LEVEL == 0
  {
    Monotone(now + 1, due, Unit(l));
    Successor(now, Unit(l));
    assert Unit(l + 1) == TIME_LEVEL * Unit(l);
    NextUnit(due, Unit(l));
    NextUnit(now, Unit(l));
    NextUnit(now + 1, Unit(l));
  }

  lemma SumWraps(d: nat, now: nat)
    ensures (d + now % WRAP) % WRAP == (now + d) % WRAP
  {
    var x := d + now % WRAP;
    DivUnique(now + d, WRAP, now / WRAP + x / WRAP, x % WRAP);
  }

  /** The wrapped clock tells when and what to redistribute. */
  lemma MovedUnwrapped(now: nat)
    ensures now % WRAP % TIME_NEAR == now % TIME_NEAR
    ensures Moved(now % WRAP) == Moved(now)
  {
    assert WRAP == 0x100_0000 * TIME_NEAR;
    ModMod(now, 0x100_0000, TIME_NEAR);
    WrapSame(now, now, 0);
    WrapSame(now, now, 1);
    WrapSame(now, now, 2);
    WrapSame(now, now, 3);
  }

  /** The timers of `s`, in order, that `add_node` would put into list `slot` at `time`. */
  function Pick(s: seq<Node>, time: nat, slot: Slot): seq<Node> {
    if s == [] then []
    else
      var last := s[|s| - 1];
      Pick(s[..|s| - 1], time, slot) + if Placement(last.expire, time) == slot then [last] else []
  }

  /** The nodes of the timers of `s`, in order, that are due at tick `from` or later and
      belong into list `slot` when the unwrapped clock shows `now`. */
  ghost function Waiting(s: seq<Entry>, from: nat, now: nat, slot: Slot): seq<Node> {
    if s == [] then []
    else
      var last := s[|s| - 1];
      Waiting(s[..|s| - 1], from, now, slot)
      + if from <= last.due && Placement(last.due, now) == slot then [NodeOf(last)] else []
  }

  /** The events of the timers of `s`, in order, that are due exactly at tick `now`. */
  ghost function DueAt(s: seq<Entry>, now: nat): seq<Event> {
    if s == [] then []
    else DueAt(s[..|s| - 1], now) + if s[|s| - 1].due == now then [s[|s| - 1].event] else []
  }

  /** No timer is due too far ahead for the wrapped clock. */
  ghost predicate WellTimed(s: seq<Entry>, now: nat) {
    forall k :: 0 <= k < |s| ==> s[k].due < now + MAX_DELAY
  }

  /** An addition that another thread makes while the timer is not locked. */
  datatype Added = Added(event: Event, delay: nat)

  predicate Timely(adds: seq<Added>) {
    forall k :: 0 <= k < |adds| ==> 1 <= adds[k].delay < MAX_DELAY
  }

  /** The timers that are added when the unwrapped clock shows `now`. */
  function Entries(adds: seq<Added>, now: nat): (es: seq<Entry>)
    ensures |es| == |adds|
  {
    seq(|adds|, k requires 0 <= k < |adds| => Entry(now + adds[k].delay, adds[k].event))
  }

  function Events(s: seq<Node>): seq<Event> {
    if s == [] then [] else Events(s[..|s| - 1]) + [s[|s| - 1].event]
  }

  lemma EventsAppend(s: seq<Node>, n: Node)
    ensures Events(s + [n]) == Events(s) + [n.event]
  {
    assert (s + [n])[..|s|] == s;
  }

  /** Before the redistribution the finer lists are empty; afterwards they hold what was
      in the redistributed list, in the same order. */
  lemma {:induction false} ShiftFiner(s: seq<Entry>, now: nat, slot: Slot)
    requires WellTimed(s, now) && (now + 1) % TIME_NEAR == 0 && Finer(slot, Moved(now + 1).level)
    ensures Waiting(s, now + 1, now, slot) == []
    ensures Waiting(s, now + 1, now + 1, slot) == Pick(Waiting(s, now + 1, now, Moved(now + 1)), (now + 1) % WRAP, slot)
  {
    hide Placement, Moved;
    if s != [] {
      var last := s[|s| - 1];
      ShiftFiner(s[..|s| - 1], now, slot);
      var w := Waiting(s[..|s| - 1], now + 1, now, Moved(now + 1));
      assert w + [] == w;
      if now + 1 <= last.due {
        ShiftPlacement(last.due, now);
        PlacementUnwrapped(last.due, now + 1);
        PickAppend(w, NodeOf(last), (now + 1) % WRAP, slot);
      }
    }
  }

  /** The redistributed list gives everything away, and the other lists do not change. */
  lemma {:induction false} ShiftCoarse(s: seq<Entry>, now: nat, slot: Slot)
    requires WellTimed(s, now) && (now + 1) % TIME_NEAR == 0 && !Finer(slot, Moved(now + 1).level)
    ensures Pick(Waiting(s, now + 1, now, Moved(now + 1)), (now + 1) % WRAP, slot) == []
    ensures Waiting(s, now + 1, now + 1, slot) == if slot == Moved(now + 1) then [] else Waiting(s, now + 1, now, slot)
  {
    hide Placement, Moved;
    if s != [] {
      var last := s[|s| - 1];
      ShiftCoarse(s[..|s| - 1], now, slot);
      var w := Waiting(s[..|s| - 1], now + 1, now, Moved(now + 1));
      assert w + [] == w;
      if now + 1 <= last.due {
        ShiftPlacement(last.due, now);
        PlacementUnwrapped(last.due, now + 1);
        PickAppend(w, NodeOf(last), (now + 1) % WRAP, slot);
      }
    }
  }

  /** Redistributing one list, by appending its nodes to other lists, keeps every list in
      insertion order. */
  lemma ShiftLists(s: seq<Entry>, now: nat, slot: Slot)
    requires WellTimed(s, now) && (now + 1) % TIME_NEAR == 0
    ensures var m := Moved(now + 1);
            Waiting(s, now + 1, now + 1, slot)
            == (if slot == m then [] else Waiting(s, now + 1, now, slot))
               + Pick(Waiting(s, now + 1, now, m), (now + 1) % WRAP, slot)
  {
    hide Placement, Moved;
    if Finer(slot, Moved(now + 1).level) { ShiftFiner(s, now, slot); } else { ShiftCoarse(s, now, slot); }
  }

  lemma PickAppend(s: seq<Node>, n: Node, time: nat, slot: Slot)
    ensures Pick(s + [n], time, slot) == Pick(s, time, slot) + if Placement(n.expire, time) == slot then [n] else []
  {
    assert (s + [n])[..|s|] == s;
  }

  lemma PickEmpty(time: nat)
    ensures forall slot :: Pick([], time, slot) == []
  {
  }

  lemma WaitingAppend(s: seq<Entry>, e: Entry, from: nat, now: nat, slot: Slot)
    ensures Waiting(s + [e], from, now, slot)
            == Waiting(s, from, now, slot) + if from <= e.due && Placement(e.due, now) == slot then [NodeOf(e)] else []
  {
    assert (s + [e])[..|s|] == s;
  }

  /** Advancing the clock inside a block of 256 ticks changes no list. */
  lemma {:induction false} SameLists(s: seq<Entry>, now: nat, slot: Slot)
    requires WellTimed(s, now) && (now + 1) % TIME_NEAR != 0
    ensures Waiting(s, now + 1, now + 1, slot) == Waiting(s, now + 1, now, slot)
  {
    if s != [] {
      SameLists(s[..|s| - 1], now, slot);
      if now + 1 <= s[|s| - 1].due { ShiftPlacement(s[|s| - 1].due, now); }
    }
  }

  /** What `timer_execute` takes out of the wheel is exactly what is due now ... */
  lemma {:induction false} DueIsNear(s: seq<Entry>, now: nat)
    requires WellTimed(s, now)
    ensures Events(Waiting(s, now, now, Near(now % TIME_NEAR))) == DueAt(s, now)
    ensures Waiting(s, now + 1, now, Near(now % TIME_NEAR)) == []
  {
    if s != [] {
      DueIsNear(s[..|s| - 1], now);
      var d, w := s[|s| - 1].due, Waiting(s[..|s| - 1], now, now, Near(now % TIME_NEAR));
      assert w + [] == w;
      EventsAppend(w, NodeOf(s[|s| - 1]));
      NearIsNow(d, now);
    }
  }

  lemma NearIsNow(due: nat, now: nat)
    ensures Placement(due, now) == Near(now % TIME_NEAR) <==> due == now
  {
    if Placement(due, now) == Near(now % TIME_NEAR) {
      assert due / TIME_NEAR == now / TIME_NEAR && due % TIME_NEAR == now % TIME_NEAR;
    }
  }

  /** ... and the other lists hold nothing that is due now. */
  lemma {:induction false} OthersNotDue(s: seq<Entry>, now: nat, slot: Slot)
    requires slot != Near(now % TIME_NEAR)
    ensures Waiting(s, now, now, slot) == Waiting(s, now + 1, now, slot)
  {
    if s != [] { OthersNotDue(s[..|s| - 1], now, slot); }
  }

  class Timer {
    const near: array<seq<Node>>
    const t: array2<seq<Node>>
    var time: nat

    /** Everything ever added, in order, and the clock without wrap-around. */
    ghost var history: seq<Entry>
    ghost var now: nat

    /** The nodes in list `slot`. */
    ghost function List(slot: Slot): seq<Node>
      requires near.Length == TIME_NEAR && t.Length0 == 4 && t.Length1 == TIME_LEVEL && IsSlot(slot)
      reads near, t
    {
      match slot
      case Near(i) => near[i]
      case Level(l, i) => t[l, i]
    }

    ghost predicate Shape() {
      near.Length == TIME_NEAR && t.Length0 == 4 && t.Length1 == TIME_LEVEL
    }

    /** Canonical placement: every list holds, in insertion order, exactly the timers due
        at `from` or later that `add_node` would put there now. */
    ghost predicate Placed(from: nat)
      reads this, near, t
    {
      && Shape() && time == now % WRAP && WellTimed(history, now)
      && forall slot :: IsSlot(slot) ==> List(slot) == Waiting(history, from, now, slot)
    }

    /** Between two operations nothing that is due now is left in the wheel. */
    ghost predicate Valid()
      reads this, near, t
    {
      Placed(now + 1)
    }

    /** timer_create_timer */
    constructor ()
      ensures Valid() && fresh(near) && fresh(t)
      ensures history == [] && now == 0
    {
      near := new seq<Node>[TIME_NEAR](_ => []);
      t := new seq<Node>[4, TIME_LEVEL]((_, _) => []);
      time, history, now := 0, [], 0;
    }

    /** add_node */
    method AddNode(node: Node)
      requires Shape()
      modifies near, t
      ensures forall slot :: IsSlot(slot) ==>
                List(slot) == old(List(slot)) + if slot == Placement(node.expire, time) then [node] else []
    {
      if node.expire / TIME_NEAR == time / TIME_NEAR {
        var i := node.expire % TIME_NEAR;
        near[i] := near[i] + [node];
      } else {
        var i, mask := 0, TIME_NEAR * TIME_LEVEL;
        while i < 3 && node.expire / mask != time / mask
          invariant 0 <= i <= 3 && mask == Unit(i + 1)
          invariant forall l :: 0 <= l <= i ==> node.expire / Unit(l) != time / Unit(l)
        {
          mask := mask * TIME_LEVEL;
          i := i + 1;
        }
        var j := node.expire / Unit(i) % TIME_LEVEL;
        t[i, j] := t[i, j] + [node];
      }
    }

    /** timer_add, for the delays `uboss_timeout` passes on */
    method TimerAdd(event: Event, delay: nat)
      requires Valid() && 1 <= delay < MAX_DELAY
      modifies this, near, t
      ensures Valid() && now == old(now)
      ensures history == old(history) + [Entry(now + delay, event)]
    {
      hide Placement, Waiting;
      var node := Node((delay + time) % WRAP, event);
      ghost var e := Entry(now + delay, event);
      SumWraps(delay, now);
      PlacementUnwrapped(e.due, now);
      AddNode(node);
      forall slot | IsSlot(slot) ensures List(slot) == Waiting(history + [e], now + 1, now, slot) {
        assert old(List(slot)) == Waiting(history, now + 1, now, slot);
        WaitingAppend(history, e, now + 1, now, slot);
      }
      history := history + [e];
    }

    /** move_list */
    method MoveList(level: nat, idx: nat)
      requires Shape() && level < 4 && idx < TIME_LEVEL
      modifies near, t
      ensures forall slot :: IsSlot(slot) ==>
                List(slot) == (if slot == Level(level, idx) then [] else old(List(slot)))
                              + Pick(old(List(Level(level, idx))), time, slot)
    {
      hide Placement, Pick;
      PickEmpty(time);
      var current := t[level, idx];
      t[level, idx] := [];
      var k := 0;
      while k < |current|
        invariant 0 <= k <= |current|
        invariant forall slot :: IsSlot(slot) ==>
                    List(slot) == (if slot == Level(level, idx) then [] else old(List(slot))) + Pick(current[..k], time,
                            slot)
      {
        label before:
        AddNode(current[k]);
        forall slot | IsSlot(slot)
          ensures List(slot) == (if slot == Level(level, idx) then [] else old(List(slot))) + Pick(current[..k + 1],
                  time, slot)
        {
          assert List(slot) == old@before(List(slot)) + if slot == Placement(current[k].expire, time) then [current[k]]
                 else [];
          assert current[..k + 1] == current[..k] + [current[k]];
          PickAppend(current[..k], current[k], time, slot);
        }
        k := k + 1;
      }
      assert current[..k] == current;
    }

    /** The loop of timer_shift: the list to redistribute, if there is one. */
    method FindMoved() returns (level: nat, idx: nat, found: bool)
      requires time < WRAP
      ensures found == (time % TIME_NEAR == 0)
      ensures found ==> Moved(time) == Level(level, idx)
    {
      level, idx, found := 3, 0, true;
      if time != 0 {
        var mask, high, i := TIME_NEAR, time / TIME_NEAR, 0;
        while time % mask == 0
          invariant 0 <= i <= 3 && mask == Unit(i) && high == time / Unit(i)
          invariant i > 0 ==> time % Unit(i) == 0 && time % TIME_NEAR == 0
          invariant forall l :: 0 <= l < i ==> time / Unit(l) % TIME_LEVEL == 0
          decreases 3 - i
        {
          idx := high % TIME_LEVEL;
          NextUnit(time, mask);
          if idx != 0 { return i, idx, true; }
          mask, high, i := mask * TIME_LEVEL, high / TIME_LEVEL, i + 1;
        }
        found := false;
      }
    }

    /** timer_shift */
    method TimerShift()
      requires Valid()
      modifies this, near, t
      ensures Placed(now) && now == old(now) + 1 && history == old(history)
    {
      ghost var before := now;
      SumWraps(1, now);
      MovedUnwrapped(now + 1);
      time := (time + 1) % WRAP;
      now := now + 1;
      var level, idx, found := FindMoved();
      if found {
        MoveList(level, idx);
        forall slot | IsSlot(slot) ensures List(slot) == Waiting(history, now, now, slot) {
          ShiftLists(history, before, slot);
        }
      } else {
        forall slot | IsSlot(slot) ensures List(slot) == Waiting(history, now, now, slot) {
          SameLists(history, before, slot);
        }
      }
    }

    /** Additions by other threads, one after the other. */
    method AddAll(adds: seq<Added>)
      requires Valid() && Timely(adds)
      modifies this, near, t
      ensures Valid() && now == old(now) && history == old(history) + Entries(adds, now)
    {
      hide Placement, Waiting;
      ghost var before := history;
      var k := 0;
      while k < |adds|
        invariant 0 <= k <= |adds| && Valid() && now == old(now) && history == before + Entries(adds[..k], now)
      {
        TimerAdd(adds[k].event, adds[k].delay);
        assert Entries(adds[..k + 1], now) == Entries(adds[..k], now) + [Entry(now + adds[k].delay, adds[k].event)];
        k := k + 1;
      }
      assert adds[..k] == adds;
    }

    /** timer_execute with dispatch_list: take out what is due, and deliver it in order. While it
        is delivered the timer is not locked, and other threads may add timers (`during`).
        `from` tells whether what is due now is still in the wheel. */
    method TimerExecute(ghost from: nat, during: seq<Added>) returns (delivered: seq<Event>)
      requires Placed(from) && now <= from <= now + 1 && Timely(during)
      modifies this, near, t
      ensures Valid() && now == old(now)
      ensures delivered == if from == now then DueAt(old(history), now) else []
      ensures history == old(history) + if delivered == [] then [] else Entries(during, now)
    {
      hide Placement, Waiting;
      delivered := [];
      var idx := time % TIME_NEAR;
      MovedUnwrapped(now);
      DueIsNear(history, now);
      ghost var before, first := history, near[idx];
      assert List(Near(idx)) == Waiting(history, from, now, Near(idx));
      TakenOut(from);
      while near[idx] != []
        invariant now == old(now) && time == old(time) && idx == time % TIME_NEAR
        invariant (delivered == [] && near[idx] == first && history == before && Placed(from)
                   && forall slot :: IsSlot(slot) && slot != Near(idx) ==>
                   List(slot) == Waiting(history, now + 1, now, slot))
               || (first != [] && near[idx] == [] && delivered == Events(first) && Valid()
                   && history == before + Entries(during, now))
        decreases |near[idx]|
      {
        var current := near[idx];
        near[idx] := [];
        DueIsNear(history, now);
        assert Valid();
        AddAll(during);
        DueIsNear(history, now);
        assert List(Near(idx)) == [];
        delivered := delivered + Events(current);
      }
      EventsEmpty(first);
      if first == [] { assert forall slot :: IsSlot(slot) ==> List(slot) == Waiting(history, now + 1, now, slot); }
    }

    /** timer_update: one tick. It delivers the timers that are due at the new time: all of
        them, nothing else, and in the order in which they were added. Timers that other threads
        add while it delivers (`during`) stay; before the tick there is nothing to deliver, and
        so no room for additions (`early`). */
    method TimerUpdate(early: seq<Added>, during: seq<Added>) returns (delivered: seq<Event>)
      requires Valid() && Timely(early) && Timely(during)
      modifies this, near, t
      ensures Valid() && now == old(now) + 1
      ensures delivered == DueAt(old(history), now)
      ensures history == old(history) + if delivered == [] then [] else Entries(during, now)
    {
      // what is due at the current time was delivered when the clock reached it
      ghost var before := history;
      var first := TimerExecute(now + 1, early);
      assert before + [] == before;
      TimerShift();
      delivered := TimerExecute(now, during);
      delivered := first + delivered;
    }

    /** Apart from the list of the current tick, every list holds what is due later. */
    lemma TakenOut(from: nat)
      requires Placed(from) && now <= from <= now + 1
      ensures forall slot :: IsSlot(slot) && slot != Near(now % TIME_NEAR) ==>
                List(slot) == Waiting(history, now + 1, now, slot)
    {
      hide Placement, Waiting;
      forall slot | IsSlot(slot) && slot != Near(now % TIME_NEAR)
        ensures List(slot) == Waiting(history, now + 1, now, slot)
      {
        assert List(slot) == Waiting(history, from, now, slot);
        OthersNotDue(history, now, slot);
      }
    }
  }

  lemma EventsEmpty(s: seq<Node>)
    ensures Events(s) == [] <==> s == []
  {
  }
}
