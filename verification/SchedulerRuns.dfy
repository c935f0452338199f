/** What holds in every run of the scheduler, for any number of threads and any interleaving. */
module SchedulerRuns {
  import opened Wrappers
  import opened Scheduler
  import opened SchedulerProof

  /** `states` arises from the start by `steps`. After a step that touches freed memory, other
      than the two uses of a context after the release by its creator, anything may follow. */
  ghost predicate IsRun(states: seq<State>, steps: seq<Step>) {
    && |states| == |steps| + 1
    && states[0] == Initial()
    && forall i :: 0 <= i < |steps| ==>
         Ready(states[i], steps[i]) && (Tolerable(states[i], steps[i]) ==> states[i + 1] == Do(states[i], steps[i]))
  }

  /** Every state of every run satisfies the invariant, and no step touches freed memory, except
      that the creator of a context may do so after it has given up its reference. */
  lemma {:induction false} RunKeepsInv(states: seq<State>, steps: seq<Step>, n: nat)
    requires IsRun(states, steps) && n <= |steps|
    ensures forall i :: 0 <= i <= n ==> Inv(states[i])
    ensures forall i :: 0 <= i < n ==> Tolerable(states[i], steps[i]) && states[i + 1] == Do(states[i], steps[i])
    ensures forall i :: 0 <= i < n && !AfterRelease(steps[i]) ==> Safe(states[i], steps[i])
  {
    hide Inv, Ready, Safe, Do;
    if n == 0 {
      StartInv();
    } else {
      RunKeepsInv(states, steps, n - 1);
      StepKeepsInv(states[n - 1], steps[n - 1]);
    }
  }

  /** Does anything keep the context from being freed: its slot in the handle table, a thread
      that holds it, or a thread that is deleting it and has not freed it yet? */
  ghost predicate InUse(s: State, c: ContextId) {
    c in s.slots.Values || Holders(s.acts, c) != {} || SomeDeletes(s.acts, c)
  }

  lemma AliveIffInUse(s: State, c: ContextId)
    requires Inv(s)
    ensures c in s.ctxs <==> InUse(s, c)
  {
    hide OwnInv, LinkInv, FlagInv, DispatchInv, InitInv, Holders;
    NoHolders(s.acts, c);
    if c in s.ctxs && Registered(s.ctxs, s.slots, c) { assert c in s.slots.Values; }
  }

  /** The context that the creator uses after it has given up its reference. */
  function UsedAfterRelease(s: State, step: Step): ContextId
    requires Ready(s, step) && AfterRelease(step)
  {
    s.acts[step.t].next.c
  }

  /** When exactly a step touches freed memory: when the creator of a context marks it as
      initialized or logs its launch, and the context is out of its slot, nobody holds it and
      nobody is about to free it. */
  lemma UnsafeExactlyWhen(states: seq<State>, steps: seq<Step>, i: nat)
    requires IsRun(states, steps) && i < |steps|
    ensures !Safe(states[i], steps[i]) <==>
              AfterRelease(steps[i]) && !InUse(states[i], UsedAfterRelease(states[i], steps[i]))
  {
    hide Inv, Do;
    RunKeepsInv(states, steps, i + 1);
    if AfterRelease(steps[i]) { AliveIffInUse(states[i], UsedAfterRelease(states[i], steps[i])); }
  }

  lemma StartInv()
    ensures Inv(Initial())
  {
  }

  /** One more step of a run. */
  lemma Extend(states: seq<State>, steps: seq<Step>, step: Step)
    requires IsRun(states, steps) && Ready(states[|steps|], step) && Tolerable(states[|steps|], step)
    ensures IsRun(states + [Do(states[|steps|], step)], steps + [step])
  {
    hide Do, Ready, Safe;
  }

  /** The start of a run: a context is created. */
  lemma Created() returns (states: seq<State>, steps: seq<Step>)
    ensures IsRun(states, steps) && |steps| == 2 && |states| == 3
    ensures states[2] == State(map[0 := Queue(7, 0, [], true, false)], {}, map[0 := Context(7, 0, 2, false, false)], {},
                               map[7 := 0], [], map[0 := Creating(0, 0)])
  {
    states, steps := [Initial()], [];
    states, steps := Next(states, steps, Spawn(0));
    states, steps := Next(states, steps, New(0, 0, 0, 7));
  }

  /** The context is initialized, and its creator has given up its reference. */
  lemma CreatedAndReleased() returns (states: seq<State>, steps: seq<Step>)
    ensures IsRun(states, steps) && |steps| == 4 && |states| == 5
    ensures states[4] == State(map[0 := Queue(7, 0, [], true, false)], {}, map[0 := Context(7, 0, 1, false, false)], {},
                               map[7 := 0], [], map[0 := At(Start(0, 0))])
  {
    states, steps := Created();
    hide IsRun;
    states, steps := Next(states, steps, InitDone(0, true));
    states, steps := Next(states, steps, Release(0));
  }

  /** Another thread retires the handle and has the last reference. */
  lemma RetiredByOther() returns (states: seq<State>, steps: seq<Step>)
    ensures IsRun(states, steps) && |steps| == 6 && |states| == 7
    ensures states[6] == State(map[0 := Queue(7, 0, [], true, false)], {}, map[0 := Context(7, 0, 1, false, false)], {},
                               map[], [], map[0 := At(Start(0, 0)), 1 := Releasing(0, Idle)])
  {
    states, steps := CreatedAndReleased();
    hide IsRun;
    states, steps := Next(states, steps, Spawn(1));
    states, steps := Next(states, steps, Retire(1, 7));
    assert map[7 := 0] - {7} == map[];
  }

  lemma FreedByOther() returns (states: seq<State>, steps: seq<Step>)
    ensures IsRun(states, steps) && |steps| == 9 && |states| == 10
    ensures states[9] == State(map[0 := Queue(7, 0, [], true, true)], {}, map[], {0},
                               map[], [], map[0 := At(Start(0, 0)), 1 := At(Idle)])
  {
    states, steps := RetiredByOther();
    hide IsRun;
    states, steps := Next(states, steps, Release(1));
    assert states[7].ctxs == map[0 := Context(7, 0, 0, false, false)];
    states, steps := Next(states, steps, MarkRelease(1));
    assert states[8].ctxs == map[0 := Context(7, 0, 0, true, false)];
    states, steps := Next(states, steps, FreeContext(1));
    assert states[9].ctxs == map[];
  }

  /** A run in which the creator of a context marks it as initialized after it has been freed:
      another thread retires the handle and drops the last reference in between. The launch is
      then logged with the freed context, too. */
  lemma FreedBeforeLaunch() returns (states: seq<State>, steps: seq<Step>)
    ensures IsRun(states, steps) && |steps| == 12 && |states| == 13
    ensures steps[9] == SetInit(0) && !Safe(states[9], steps[9])
    ensures steps[11] == LogLaunch(0) && !Safe(states[11], steps[11])
  {
    states, steps := FreedByOther();
    hide IsRun;
    states, steps := Next(states, steps, SetInit(0));
    states, steps := Next(states, steps, LaunchQueue(0));
    states, steps := Next(states, steps, LogLaunch(0));
  }

  lemma Next(states: seq<State>, steps: seq<Step>, step: Step) returns (states': seq<State>, steps': seq<Step>)
    requires IsRun(states, steps) && Ready(states[|steps|], step) && Tolerable(states[|steps|], step)
    ensures IsRun(states', steps') && |steps'| == |steps| + 1 && steps' == steps + [step]
    ensures states' == states + [Do(states[|steps|], step)]
  {
    hide Do, Ready, Safe, IsRun;
    RunLength(states, steps);
    Extend(states, steps, step);
    states', steps' := states + [Do(states[|steps|], step)], steps + [step];
  }

  lemma RunLength(states: seq<State>, steps: seq<Step>)
    requires IsRun(states, steps)
    ensures |states| == |steps| + 1
  {
  }

  // Where a queue is.

  ghost function Owners(s: State, q: QueueId): set<Thread> {
    set t | t in s.acts && q in Owned(s.acts[t])
  }

  /** The number of places where a queue is: with an owner, or on the run list. */
  ghost function Places(s: State, q: QueueId): nat {
    |Owners(s, q)| + multiset(s.global)[q]
  }

  lemma {:induction false} OccursOnce(xs: seq<QueueId>, q: QueueId)
    requires forall i, j :: 0 <= i < j < |xs| ==> xs[i] != xs[j]
    ensures multiset(xs)[q] == if q in xs then 1 else 0
  {
    if xs != [] {
      assert xs == [xs[0]] + xs[1..];
      OccursOnce(xs[1..], q);
    }
  }

  lemma OneOwner(s: State, q: QueueId)
    requires Inv(s)
    ensures |Owners(s, q)| == if OwnedBySome(s.acts, q) then 1 else 0
  {
    hide RefInv, LinkInv, FlagInv, DispatchInv, Owned;
    if OwnedBySome(s.acts, q) {
      var t :| t in s.acts && q in Owned(s.acts[t]);
      assert Owners(s, q) == {t};
    } else {
      assert Owners(s, q) == {};
    }
  }

  /** A queue is in one place or in none. It is idle, that is in none, exactly when it is not
      released and not flagged, and then it is empty; freed queues are nowhere. */
  lemma QueueIsInOnePlace(states: seq<State>, steps: seq<Step>, i: nat, q: QueueId)
    requires IsRun(states, steps) && i <= |steps|
    ensures Places(states[i], q) <= 1
    ensures Places(states[i], q) == 1 ==> q in states[i].queues
    ensures q in states[i].queues ==>
              var x := states[i].queues[q]; (Places(states[i], q) == 1 <==> x.inGlobal || x.release)
    ensures q in states[i].queues && states[i].queues[q].msgs != [] ==> Places(states[i], q) == 1
    ensures q in states[i].freed ==> q !in states[i].queues && Places(states[i], q) == 0
  {
    RunKeepsInv(states, steps, i);
    PlacesBounded(states[i], q);
  }

  lemma PlacesBounded(s: State, q: QueueId)
    requires Inv(s)
    ensures Places(s, q) <= 1
    ensures Places(s, q) == 1 ==> q in s.queues
    ensures q in s.queues ==> (Places(s, q) == 1 <==> s.queues[q].inGlobal || s.queues[q].release)
    ensures q in s.queues && s.queues[q].msgs != [] ==> Places(s, q) == 1
    ensures q in s.freed ==> q !in s.queues
  {
    hide RefInv, DispatchInv, Owned, Owners;
    OneOwner(s, q);
    OccursOnce(s.global, q);
  }

  /** The service that a worker is dispatching messages of. */
  function Runs(a: Activity): Option<ContextId> {
    match a
    case Looping(_, c, _, _, _) => Some(c)
    case Popped(_, c, _, _, _, _) => Some(c)
    case Swapping(_, _, c) => Some(c)
    case _ => None
  }

  /** No two workers run the same service at once. */
  lemma OneWorkerPerService(states: seq<State>, steps: seq<Step>, i: nat, t: Thread, u: Thread)
    requires IsRun(states, steps) && i <= |steps| && t in states[i].acts && u in states[i].acts
    requires Runs(states[i].acts[t]).Some? && Runs(states[i].acts[t]) == Runs(states[i].acts[u])
    ensures t == u
  {
    RunKeepsInv(states, steps, i);
    WorkersApart(states[i], t, u);
  }

  lemma WorkersApart(s: State, t: Thread, u: Thread)
    requires Inv(s) && t in s.acts && u in s.acts
    requires Runs(s.acts[t]).Some? && Runs(s.acts[t]) == Runs(s.acts[u])
    ensures t == u
  {
    hide RefInv, LinkInv, FlagInv;
    var c := Runs(s.acts[t]).value;
    assert DispatchOk(s.queues, s.ctxs, s.acts[t]) && DispatchOk(s.queues, s.ctxs, s.acts[u]);
    assert s.ctxs[c].queue in Owned(s.acts[t]) && s.ctxs[c].queue in Owned(s.acts[u]);
  }

  /** Inside one dispatch only the first pop can find the queue empty. */
  lemma OnlyFirstPopFindsEmpty(states: seq<State>, steps: seq<Step>, i: nat)
    requires IsRun(states, steps) && i < |steps| && steps[i].Pop?
    requires var s := states[i]; s.acts[steps[i].t].q in s.queues ==> s.queues[s.acts[steps[i].t].q].msgs == []
    ensures states[i].acts[steps[i].t].i == 0
  {
    hide Do, Safe, OwnInv, RefInv, LinkInv, FlagInv;
    RunKeepsInv(states, steps, i);
    assert DispatchOk(states[i].queues, states[i].ctxs, states[i].acts[steps[i].t]);
  }

  /** The queue of the context has not been marked for release. */
  predicate OpenQueue(s: State, c: ContextId) {
    c in s.ctxs && s.ctxs[c].queue in s.queues && !s.queues[s.ctxs[c].queue].release
  }

  /** The assertions of the source: a context that gets a message is initialized, at the end of a
      dispatch the queue is that of the context, a queue is marked for release once, and a queue
      that is put on the run list is not on it. */
  lemma SourceAssertionsHold(states: seq<State>, steps: seq<Step>, i: nat)
    requires IsRun(states, steps) && i < |steps|
    ensures var s, step := states[i], steps[i];
            && (!AfterRelease(step) ==> Safe(s, step))
            && (step.TakeNext? ==> s.acts[step.t].c in s.ctxs && s.ctxs[s.acts[step.t].c].queue == s.acts[step.t].q)
            && (step.MarkRelease? ==> OpenQueue(s, s.acts[step.t].c))
            && (step.Dispatch? ==> s.acts[step.t].c in s.ctxs && s.ctxs[s.acts[step.t].c].init)
            && (|states[i + 1].global| > |s.global| ==>
                  exists q :: q !in s.global && states[i + 1].global == s.global + [q])
  {
    hide Inv;
    RunKeepsInv(states, steps, i + 1);
    if !steps[i].Spawn? { AssertionsAt(states[i], steps[i].t); }
    if |states[i + 1].global| > |states[i].global| { ListGrowsByNew(states[i], steps[i]); }
  }

  lemma ListGrowsByNew(s: State, step: Step)
    requires Inv(s) && Ready(s, step) && Tolerable(s, step) && Inv(Do(s, step)) && |Do(s, step).global| > |s.global|
    ensures exists q :: q !in s.global && Do(s, step).global == s.global + [q]
  {
    hide Do, RefInv, LinkInv, FlagInv, DispatchInv, InitInv, Owned;
    var s' := Do(s, step);
    GrowsAtEnd(s, step);
    var q := s'.global[|s.global|];
    assert s'.global == s'.global[..|s.global|] + [q];
    assert forall i :: 0 <= i < |s.global| ==> s'.global[i] == s.global[i];
  }

  lemma GrowsAtEnd(s: State, step: Step)
    requires Ready(s, step) && Tolerable(s, step) && |Do(s, step).global| > |s.global|
    ensures |Do(s, step).global| == |s.global| + 1 && Do(s, step).global[..|s.global|] == s.global
  {
    hide DoContext, DoQueue;
    if OnContexts(step) { SameList(s, step); } else if !AfterRelease(step) { LongerList(s, step); }
  }

  lemma SameList(s: State, step: Step)
    requires Ready(s, step) && Safe(s, step) && OnContexts(step)
    ensures DoContext(s, step).global == s.global
  {
  }

  lemma LongerList(s: State, step: Step)
    requires Ready(s, step) && Safe(s, step) && !OnContexts(step) && !AfterRelease(step)
    requires |DoQueue(s, step).global| > |s.global|
    ensures |DoQueue(s, step).global| == |s.global| + 1 && DoQueue(s, step).global[..|s.global|] == s.global
  {
  }

  lemma AssertionsAt(s: State, t: Thread)
    requires Inv(s) && t in s.acts
    ensures var a := s.acts[t];
            && (a.Looping? ==> a.c in s.ctxs && s.ctxs[a.c].queue == a.q)
            && (a.Popped? ==> a.c in s.ctxs && s.ctxs[a.c].init)
            && (a.Marking? ==> OpenQueue(s, a.c))
  {
    hide OwnInv, FlagInv, DispatchInv, InitInv, Holders, SomeDeletes;
    OkAt(s, t);
  }

  // Messages.

  ghost function Waiting(s: State, q: QueueId): seq<Message> {
    if q in s.queues then s.queues[q].msgs else []
  }

  /** The messages that the step puts into q. */
  ghost function PutBy(s: State, step: Step, q: QueueId): seq<Message>
    requires Ready(s, step) && Tolerable(s, step)
  {
    match step
    case Push(t) => if s.ctxs[s.acts[t].c].queue == q then [s.acts[t].m] else []
    case PushKept(t, m) => if s.ctxs[s.acts[t].c].queue == q then [m] else []
    case _ => []
  }

  /** The messages that the step takes out of q. */
  ghost function TakenBy(s: State, step: Step, q: QueueId): seq<Message>
    requires Ready(s, step) && Tolerable(s, step)
  {
    if (step.Pop? || step.Drop?) && s.acts[step.t].q == q && s.queues[q].msgs != [] then [s.queues[q].msgs[0]] else []
  }

  lemma StepConserves(s: State, step: Step, q: QueueId)
    requires Inv(s) && Ready(s, step) && Tolerable(s, step)
    ensures Waiting(s, q) + PutBy(s, step, q) == TakenBy(s, step, q) + Waiting(Do(s, step), q)
  {
    if step.Push? || step.PushKept? {
      PushConserves(s, step, q);
    } else if step.Pop? || step.Drop? {
      PopConserves(s, step, q);
    } else {
      OtherConserves(s, step, q);
    }
  }

  lemma PushConserves(s: State, step: Step, q: QueueId)
    requires Ready(s, step) && Tolerable(s, step) && (step.Push? || step.PushKept?)
    ensures Waiting(s, q) + PutBy(s, step, q) == TakenBy(s, step, q) + Waiting(Do(s, step), q)
  {
  }

  lemma PopConserves(s: State, step: Step, q: QueueId)
    requires Ready(s, step) && Tolerable(s, step) && (step.Pop? || step.Drop?)
    ensures Waiting(s, q) + PutBy(s, step, q) == TakenBy(s, step, q) + Waiting(Do(s, step), q)
  {
  }

  lemma OtherConserves(s: State, step: Step, q: QueueId)
    requires Inv(s) && Ready(s, step) && Tolerable(s, step)
    requires !step.Push? && !step.PushKept? && !step.Pop? && !step.Drop?
    ensures PutBy(s, step, q) == TakenBy(s, step, q) == [] && Waiting(s, q) == Waiting(Do(s, step), q)
  {
    hide OwnInv, RefInv, LinkInv, FlagInv, DispatchInv, InitInv, DoContext, DoQueue;
    if OnContexts(step) {
      ContextsConserve(s, step, q);
    } else if !AfterRelease(step) {
      if step.FreeQueue? { OkAt(s, step.t); }
      QueuesConserve(s, step, q);
    }
  }

  lemma ContextsConserve(s: State, step: Step, q: QueueId)
    requires Ready(s, step) && Safe(s, step) && OnContexts(step)
    ensures Waiting(s, q) == Waiting(DoContext(s, step), q)
  {
  }

  lemma QueuesConserve(s: State, step: Step, q: QueueId)
    requires Ready(s, step) && Safe(s, step) && !OnContexts(step) && !AfterRelease(step)
    requires !step.Push? && !step.PushKept? && !step.Pop? && !step.Drop?
    requires step.FreeQueue? ==> Waiting(s, s.acts[step.t].q) == []
    ensures Waiting(s, q) == Waiting(DoQueue(s, step), q)
  {
  }

  ghost function PutIn(states: seq<State>, steps: seq<Step>, q: QueueId, n: nat): seq<Message>
    requires n <= |steps| && n <= |states|
    requires forall i :: 0 <= i < n ==> Ready(states[i], steps[i]) && Tolerable(states[i], steps[i])
  {
    if n == 0 then [] else PutIn(states, steps, q, n - 1) + PutBy(states[n - 1], steps[n - 1], q)
  }

  ghost function TakenOut(states: seq<State>, steps: seq<Step>, q: QueueId, n: nat): seq<Message>
    requires n <= |steps| && n <= |states|
    requires forall i :: 0 <= i < n ==> Ready(states[i], steps[i]) && Tolerable(states[i], steps[i])
  {
    if n == 0 then [] else TakenOut(states, steps, q, n - 1) + TakenBy(states[n - 1], steps[n - 1], q)
  }

  /** In every run the messages taken out of a queue are those put in, in order, up to the
      ones still waiting; of a freed queue every message has been taken out. */
  lemma {:induction false} TakenInOrder(states: seq<State>, steps: seq<Step>, q: QueueId, n: nat)
    requires IsRun(states, steps) && n <= |steps|
    ensures forall i :: 0 <= i < n ==> Ready(states[i], steps[i]) && Tolerable(states[i], steps[i])
    ensures PutIn(states, steps, q, n) == TakenOut(states, steps, q, n) + Waiting(states[n], q)
    ensures q in states[n].freed ==> PutIn(states, steps, q, n) == TakenOut(states, steps, q, n)
  {
    hide Inv, Safe, Ready, Do, PutBy, TakenBy, Waiting;
    RunKeepsInv(states, steps, n);
    if n == 0 {
      NothingWaits(q);
    } else {
      TakenInOrder(states, steps, q, n - 1);
      var s, step := states[n - 1], steps[n - 1];
      StepConserves(s, step, q);
      Regroup(TakenOut(states, steps, q, n - 1), Waiting(s, q), PutBy(s, step, q), TakenBy(s, step, q),
              Waiting(states[n], q));
    }
    FreedHasNone(states[n], q);
  }

  lemma NothingWaits(q: QueueId)
    ensures Waiting(Initial(), q) == []
  {
  }

  lemma FreedHasNone(s: State, q: QueueId)
    requires Inv(s)
    ensures q in s.freed ==> Waiting(s, q) == []
  {
    hide OwnInv, RefInv, FlagInv, DispatchInv;
  }

  lemma Regroup<T>(taken: seq<T>, waits: seq<T>, put: seq<T>, out: seq<T>, left: seq<T>)
    requires waits + put == out + left
    ensures (taken + waits) + put == (taken + out) + left
  {
    assert (taken + waits) + put == taken + (waits + put);
    assert (taken + out) + left == taken + (out + left);
  }

  // Life and death.

  /** The count of a context: one for the handle table and one for every thread that holds it,
      the creator included. */
  lemma CountIsExact(states: seq<State>, steps: seq<Step>, i: nat, c: ContextId)
    requires IsRun(states, steps) && i <= |steps| && c in states[i].ctxs
    ensures var s := states[i];
            s.ctxs[c].ref == |Holders(s.acts, c)| + if Registered(s.ctxs, s.slots, c) then 1 else 0
  {
    RunKeepsInv(states, steps, i);
  }

  /** A context is deleted by one thread, when nothing refers to it any more. */
  lemma DeletedAtZero(states: seq<State>, steps: seq<Step>, i: nat)
    requires IsRun(states, steps) && i < |steps| && (steps[i].MarkRelease? || steps[i].FreeContext?)
    ensures var s, c := states[i], states[i].acts[steps[i].t].c;
            && c in s.ctxs && s.ctxs[c].ref == 0 && c !in s.slots.Values
            && Holders(s.acts, c) == {}
            && forall u :: u in s.acts && Deletes(s.acts[u]) == Some(c) ==> u == steps[i].t
  {
    hide Inv, Do, Safe;
    RunKeepsInv(states, steps, i);
    NobodyRefers(states[i], steps[i].t);
  }

  lemma NobodyRefers(s: State, t: Thread)
    requires Inv(s) && t in s.acts && Deletes(s.acts[t]).Some?
    ensures var c := Deletes(s.acts[t]).value;
            && c in s.ctxs && s.ctxs[c].ref == 0 && c !in s.slots.Values && Holders(s.acts, c) == {}
            && forall u :: u in s.acts && Deletes(s.acts[u]) == Some(c) ==> u == t
  {
    hide OwnInv, LinkInv, FlagInv, DispatchInv, Holders;
    var c := Deletes(s.acts[t]).value;
    NoHolders(s.acts, c);
    assert |Holders(s.acts, c)| == 0;
  }

  /** A queue is freed by its only owner, after its release was marked, while it is on no run
      list, empty, and while no context uses it: one that has it as its queue has marked it, has no
      reference left and is about to be freed. */
  lemma FreedByItsOwner(states: seq<State>, steps: seq<Step>, i: nat)
    requires IsRun(states, steps) && i < |steps| && steps[i].FreeQueue?
    ensures var s, q := states[i], states[i].acts[steps[i].t].q;
            && q in s.queues && s.queues[q].release && s.queues[q].msgs == [] && q !in s.global
            && Owners(s, q) == {steps[i].t}
            && forall c :: c in s.ctxs && s.ctxs[c].queue == q ==> s.ctxs[c].marked && s.ctxs[c].ref == 0
  {
    hide Inv, Do, Safe;
    RunKeepsInv(states, steps, i);
    OwnerFrees(states[i], steps[i].t);
  }

  lemma MarkedAtZero(s: State)
    requires Inv(s)
    ensures forall c :: c in s.ctxs && s.ctxs[c].marked ==> s.ctxs[c].ref == 0
  {
    hide OwnInv, LinkInv, FlagInv, DispatchInv, InitInv;
  }

  lemma OwnerFrees(s: State, t: Thread)
    requires Inv(s) && t in s.acts && s.acts[t].Dropped?
    ensures var q := s.acts[t].q;
            && q in s.queues && s.queues[q].release && s.queues[q].msgs == [] && q !in s.global
            && Owners(s, q) == {t}
            && forall c :: c in s.ctxs && s.ctxs[c].queue == q ==> s.ctxs[c].marked && s.ctxs[c].ref == 0
  {
    MarkedAtZero(s);
    hide RefInv;
    var q := s.acts[t].q;
    assert q in Owned(s.acts[t]);
    DroppingIsReleased(s, t);
    assert DispatchOk(s.queues, s.ctxs, s.acts[t]);
    assert forall u :: u in Owners(s, q) ==> u == t;
    assert Owners(s, q) == {t};
  }

  /** What is freed stays freed. */
  lemma {:induction false} FreedStays(states: seq<State>, steps: seq<Step>, i: nat, j: nat)
    requires IsRun(states, steps) && i <= j <= |steps|
    ensures states[i].freed <= states[j].freed && states[i].deleted <= states[j].deleted
  {
    hide Inv, Ready, Safe, Do;
    RunKeepsInv(states, steps, j);
    if i < j {
      FreedStays(states, steps, i, j - 1);
      FreedGrows(states[j - 1], steps[j - 1]);
    }
  }

  lemma FreedGrows(s: State, step: Step)
    requires Ready(s, step) && Tolerable(s, step)
    ensures s.freed <= Do(s, step).freed && s.deleted <= Do(s, step).deleted
    ensures step.FreeQueue? ==> s.acts[step.t].q in Do(s, step).freed
    ensures step.FreeContext? ==> s.acts[step.t].c in Do(s, step).deleted
  {
    hide DoContext, DoQueue;
    if OnContexts(step) { ContextsFree(s, step); } else if !AfterRelease(step) { QueuesFree(s, step); }
  }

  lemma ContextsFree(s: State, step: Step)
    requires Ready(s, step) && Safe(s, step) && OnContexts(step)
    ensures var s' := DoContext(s, step);
            && s'.freed == s.freed && s.deleted <= s'.deleted
            && (step.FreeContext? ==> s.acts[step.t].c in s'.deleted)
  {
  }

  lemma QueuesFree(s: State, step: Step)
    requires Ready(s, step) && Safe(s, step) && !OnContexts(step) && !AfterRelease(step)
    ensures var s' := DoQueue(s, step);
            && s'.deleted == s.deleted && s.freed <= s'.freed
            && (step.FreeQueue? ==> s.acts[step.t].q in s'.freed)
  {
  }

  /** No queue is freed twice and no context is deleted twice. */
  lemma FreedOnce(states: seq<State>, steps: seq<Step>, i: nat, j: nat)
    requires IsRun(states, steps) && i < j < |steps|
    ensures steps[i].FreeQueue? && steps[j].FreeQueue? ==> states[i].acts[steps[i].t].q != states[j].acts[steps[j].t].q
    ensures steps[i].FreeContext? && steps[j].FreeContext? ==>
            states[i].acts[steps[i].t].c != states[j].acts[steps[j].t].c
  {
    hide Inv;
    RunKeepsInv(states, steps, j);
    FreedGrows(states[i], steps[i]);
    FreedStays(states, steps, i + 1, j);
    FreesLiveOnly(states[j], steps[j]);
  }

  lemma FreesLiveOnly(s: State, step: Step)
    requires Inv(s) && Ready(s, step)
    ensures step.FreeQueue? ==> s.acts[step.t].q !in s.freed
    ensures step.FreeContext? ==> s.acts[step.t].c !in s.deleted
  {
    hide OwnInv, FlagInv;
    assert !step.Spawn? ==> DispatchOk(s.queues, s.ctxs, s.acts[step.t]);
  }
}
