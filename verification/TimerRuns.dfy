/** Whole runs of the timer: what the contracts of its operations say about every
    sequence of additions and clock ticks. */
module TimerRuns {
  import opened TimerWheel

  /** A tick with the additions that other threads make while it delivers. */
  datatype Op = Add(event: Event, delay: nat) | Tick(during: seq<Added>)

  datatype Delivery = Delivery(tick: nat, event: Event)

  /** The state that the contracts of `TimerAdd` and `TimerUpdate` describe, with a log of
      everything delivered so far. */
  datatype Run = Run(now: nat, history: seq<Entry>, log: seq<Delivery>)

  ghost function Stamp(tick: nat, events: seq<Event>): seq<Delivery> {
    seq(|events|, k requires 0 <= k < |events| => Delivery(tick, events[k]))
  }

  ghost function Apply(r: Run, op: Op): Run {
    match op
    case Add(event, delay) => r.(history := r.history + [Entry(r.now + delay, event)])
    case Tick(during) =>
      var due := DueAt(r.history, r.now + 1);
      Run(r.now + 1, r.history + (if due == [] then [] else Entries(during, r.now + 1)), r.log + Stamp(r.now + 1, due))
  }

  ghost function RunOf(ops: seq<Op>): Run {
    if ops == [] then Run(0, [], []) else Apply(RunOf(ops[..|ops| - 1]), ops[|ops| - 1])
  }

  /** The delays that `uboss_timeout` hands to the wheel. */
  ghost predicate ValidOps(ops: seq<Op>) {
    forall k :: 0 <= k < |ops| ==> if ops[k].Add? then 1 <= ops[k].delay < MAX_DELAY else Timely(ops[k].during)
  }

  /** The specification of the log: tick after tick, and within a tick in the order of the
      additions. */
  ghost function InOrder(history: seq<Entry>, now: nat): seq<Delivery> {
    if now == 0 then [] else InOrder(history, now - 1) + Stamp(now, DueAt(history, now))
  }

  /** One delivery for every timer whose time has come. */
  ghost function Expired(history: seq<Entry>, now: nat): multiset<Delivery> {
    if history == [] then multiset{}
    else
      var e := history[|history| - 1];
      Expired(history[..|history| - 1], now)
      + if 1 <= e.due <= now then multiset{Delivery(e.due, e.event)} else multiset{}
  }

  lemma DueAppend(s: seq<Entry>, e: Entry, now: nat)
    ensures DueAt(s + [e], now) == DueAt(s, now) + if e.due == now then [e.event] else []
  {
    assert (s + [e])[..|s|] == s;
  }

  /** A timer added now changes nothing that was delivered up to now. */
  lemma {:induction false} InOrderAppend(s: seq<Entry>, e: Entry, now: nat)
    requires now < e.due
    ensures InOrder(s + [e], now) == InOrder(s, now)
  {
    if now > 0 {
      InOrderAppend(s, e, now - 1);
      DueAppend(s, e, now);
      assert DueAt(s + [e], now) == DueAt(s, now);
    }
  }

  /** Neither do several. */
  lemma {:induction false} InOrderAppendAll(s: seq<Entry>, es: seq<Entry>, now: nat)
    requires forall k :: 0 <= k < |es| ==> now < es[k].due
    ensures InOrder(s + es, now) == InOrder(s, now)
    decreases |es|
  {
    hide InOrder;
    if es == [] {
      assert s + es == s;
    } else {
      var n := |es| - 1;
      InOrderAppendAll(s, es[..n], now);
      InOrderAppend(s + es[..n], es[n], now);
      assert s + es == (s + es[..n]) + [es[n]];
    }
  }

  /** In every run, the log is the specified one. */
  lemma {:induction false} LogIsInOrder(ops: seq<Op>)
    requires ValidOps(ops)
    ensures var r := RunOf(ops); r.log == InOrder(r.history, r.now)
  {
    hide DueAt, Stamp;
    if ops != [] {
      var init, op := ops[..|ops| - 1], ops[|ops| - 1];
      assert ValidOps(init);
      LogIsInOrder(init);
      var r := RunOf(init);
      if op.Add? {
        InOrderAppend(r.history, Entry(r.now + op.delay, op.event), r.now);
      } else {
        var es := if DueAt(r.history, r.now + 1) == [] then [] else Entries(op.during, r.now + 1);
        InOrderAppendAll(r.history, es, r.now + 1);
      }
    }
  }

  /** In every run, each timer has been delivered exactly once if its time has come, with
      the tick at which it was due, and not at all otherwise. */
  lemma {:induction false} ExactlyOnce(ops: seq<Op>)
    requires ValidOps(ops)
    ensures var r := RunOf(ops); multiset(r.log) == Expired(r.history, r.now)
  {
    var r := RunOf(ops);
    LogIsInOrder(ops);
    InOrderIsExpired(r.history, r.now);
  }

  /** The wheel itself, driven through a run from its creation: what it delivers is the log. */
  method Drive(ops: seq<Op>) returns (log: seq<Delivery>)
    requires ValidOps(ops)
    ensures var r := RunOf(ops); log == InOrder(r.history, r.now) && multiset(log) == Expired(r.history, r.now)
  {
    hide DueAt, InOrder, Expired, Timer.Valid;
    var timer := new Timer();
    var tick := 0;
    log := [];
    assert ops[..0] == [];
    var i := 0;
    while i < |ops|
      invariant 0 <= i <= |ops| && timer.Valid() && fresh(timer) && fresh(timer.near) && fresh(timer.t)
      invariant tick == timer.now && RunOf(ops[..i]) == Run(timer.now, timer.history, log)
    {
      assert ops[..i + 1][..i] == ops[..i];
      match ops[i] {
        case Add(event, delay) => timer.TimerAdd(event, delay);
        case Tick(during) =>
          var delivered := timer.TimerUpdate([], during);
          tick := tick + 1;
          log := log + seq(|delivered|, k requires 0 <= k < |delivered| => Delivery(tick, delivered[k]));
      }
      i := i + 1;
    }
    assert ops[..i] == ops;
    LogIsInOrder(ops);
    ExactlyOnce(ops);
  }

  lemma {:induction false} InOrderIsExpired(s: seq<Entry>, now: nat)
    ensures multiset(InOrder(s, now)) == Expired(s, now)
  {
    if now == 0 {
      NothingExpired(s);
    } else {
      InOrderIsExpired(s, now - 1);
      DueExpires(s, now);
      MultisetAdd(InOrder(s, now - 1), Stamp(now, DueAt(s, now)));
    }
  }

  lemma {:induction false} NothingExpired(s: seq<Entry>)
    ensures Expired(s, 0) == multiset{}
  {
    if s != [] { NothingExpired(s[..|s| - 1]); }
  }

  lemma MultisetAdd<T>(a: seq<T>, b: seq<T>)
    ensures multiset(a + b) == multiset(a) + multiset(b)
  {
  }

  /** One tick adds to the expired timers exactly those that are due. */
  lemma {:induction false} DueExpires(s: seq<Entry>, now: nat)
    requires now > 0
    ensures Expired(s, now) == Expired(s, now - 1) + multiset(Stamp(now, DueAt(s, now)))
  {
    if s != [] {
      var init, e := s[..|s| - 1], s[|s| - 1];
      DueExpires(init, now);
      if e.due == now {
        assert Stamp(now, DueAt(s, now)) == Stamp(now, DueAt(init, now)) + [Delivery(now, e.event)];
        MultisetAdd(Stamp(now, DueAt(init, now)), [Delivery(now, e.event)]);
      } else {
        assert DueAt(s, now) == DueAt(init, now) + [] == DueAt(init, now);
      }
    }
  }
}
