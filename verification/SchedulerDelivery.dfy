/** What a run of the scheduler delivers, in terms of its steps. */
module SchedulerDelivery {
  import opened Wrappers
  import opened LittleEndian
  import opened Scheduler
  import opened SchedulerProof
  import opened SchedulerRuns
  import opened SchedulerHistory

  // Init functions.

  /** What happens to a context is decided by the result of its init function. Only one that
      succeeded is marked as initialized, put on the run list by its creator and given messages;
      one that failed is retired by its creator and never initialized. */
  lemma InitDecides(states: seq<State>, steps: seq<Step>, n: nat)
    requires IsRun(states, steps) && n < |steps|
    ensures var s, h, t := states[n], HistoryOf(states, steps, n), steps[n].t;
            && (steps[n].SetInit? ==> Initialized(h, s.acts[t].next.c))
            && (steps[n].LaunchQueue? ==>
                  && t in h.creating && Initialized(h, h.creating[t].c)
                  && states[n + 1].global == s.global + [h.creating[t].q])
            && (steps[n].Dispatch? ==> Initialized(h, s.acts[t].c))
            && (steps[n].RetireOwn? ==>
                  && t in h.creating && h.creating[t].c in h.inits && !h.inits[h.creating[t].c]
                  && states[n + 1].slots == s.slots - {h.creating[t].h})
            && (forall c :: c in s.ctxs && s.ctxs[c].init ==> Initialized(h, c))
  {
    hide Inv, DispatchOk;
    RunHist(states, steps, n);
    RunKeepsInv(states, steps, n + 1);
    var s, h, step := states[n], HistoryOf(states, steps, n), steps[n];
    hide HistoryOf;
    CreatorDecides(s, h, step);
    if step.Dispatch? { WorkerRunsInitialized(s, h, step.t); }
  }

  lemma CreatorDecides(s: State, h: History, step: Step)
    requires HistInv(h, s) && Ready(s, step) && Tolerable(s, step)
    ensures step.SetInit? ==> Initialized(h, s.acts[step.t].next.c)
    ensures step.LaunchQueue? ==>
              && step.t in h.creating && Initialized(h, h.creating[step.t].c)
              && Do(s, step).global == s.global + [h.creating[step.t].q]
    ensures step.RetireOwn? ==>
              && step.t in h.creating && h.creating[step.t].c in h.inits && !h.inits[h.creating[step.t].c]
              && Do(s, step).slots == s.slots - {h.creating[step.t].h}
    ensures forall c :: c in s.ctxs && s.ctxs[c].init ==> Initialized(h, c)
  {
    assert step.t in s.acts ==> ActOk(h, step.t, s.acts[step.t]);
    if step.RetireOwn? && s.acts[step.t].next.h !in s.slots { assert s.slots - {s.acts[step.t].next.h} == s.slots; }
  }

  lemma WorkerRunsInitialized(s: State, h: History, t: Thread)
    requires Inv(s) && HistInv(h, s) && t in s.acts && s.acts[t].Popped?
    ensures Initialized(h, s.acts[t].c)
  {
    hide Inv, ActOk, QueuesMade;
    AssertionsAt(s, t);
  }

  /** Where the result of an init function comes from: the call returned once, to the thread that was
      creating the context. */
  lemma {:induction false} InitReturned(states: seq<State>, steps: seq<Step>, n: nat, c: ContextId) returns (i: nat)
    requires IsRun(states, steps) && n <= |steps| && c in HistoryOf(states, steps, n).inits
    ensures i < n && steps[i].InitDone? && steps[i].ok == HistoryOf(states, steps, n).inits[c]
    ensures steps[i].t in states[i].acts && states[i].acts[steps[i].t].Creating? && states[i].acts[steps[i].t].c == c
    ensures forall j :: 0 <= j < n && j != i && steps[j].InitDone? && states[j].acts[steps[j].t].Creating? ==>
              states[j].acts[steps[j].t].c != c
  {
    hide Inv, Do, Safe, HistInv, Later, Ready;
    var h, s, step := HistoryOf(states, steps, n - 1), states[n - 1], steps[n - 1];
    RunHist(states, steps, n - 1);
    ResultFrom(h, s, step, c);
    forall j | 0 <= j < n && steps[j].InitDone? ensures steps[j].t in states[j].acts { ReadyAt(states[j], steps[j]); }
    if c in h.inits {
      i := InitReturned(states, steps, n - 1, c);
    } else {
      i := n - 1;
      forall j | 0 <= j < i && steps[j].InitDone? && states[j].acts[steps[j].t].Creating?
        ensures states[j].acts[steps[j].t].c != c
      {
        InitRecorded(states, steps, j, n - 1);
      }
    }
  }

  lemma ResultFrom(h: History, s: State, step: Step, c: ContextId)
    requires HistInv(h, s) && Ready(s, step) && c in Later(h, s, step).inits
    ensures c in h.inits ==> Later(h, s, step).inits[c] == h.inits[c]
    ensures c in h.inits && step.InitDone? ==> step.t in s.acts && s.acts[step.t].Creating? && s.acts[step.t].c != c
    ensures c !in h.inits ==>
              && step.InitDone? && step.ok == Later(h, s, step).inits[c]
              && step.t in s.acts && s.acts[step.t].Creating? && s.acts[step.t].c == c
  {
    hide MadeOk;
    assert step.t in s.acts ==> ActOk(h, step.t, s.acts[step.t]);
  }

  /** A result stays. */
  lemma {:induction false} InitRecorded(states: seq<State>, steps: seq<Step>, j: nat, n: nat)
    requires IsRun(states, steps) && j < n <= |steps| && steps[j].InitDone? && states[j].acts[steps[j].t].Creating?
    ensures states[j].acts[steps[j].t].c in HistoryOf(states, steps, n).inits
  {
    hide Inv, Do, Safe, Ready, Later, HistInv;
    var h := HistoryOf(states, steps, n - 1);
    if j < n - 1 {
      InitRecorded(states, steps, j, n - 1);
      ResultsGrow(h, states[n - 1], steps[n - 1]);
    } else {
      RunHist(states, steps, j);
      ReadyAt(states[j], steps[j]);
      ResultRecorded(h, states[j], steps[j]);
    }
  }

  lemma ResultsGrow(h: History, s: State, step: Step)
    ensures h.inits.Keys <= Later(h, s, step).inits.Keys && h.made.Keys <= Later(h, s, step).made.Keys
  {
  }

  lemma ResultRecorded(h: History, s: State, step: Step)
    requires HistInv(h, s) && step.InitDone? && step.t in s.acts && s.acts[step.t].Creating?
    ensures s.acts[step.t].c in Later(h, s, step).inits
  {
    assert ActOk(h, step.t, s.acts[step.t]);
  }

  lemma ReadyAt(s: State, step: Step)
    requires Ready(s, step) && !step.Spawn?
    ensures step.t in s.acts
  {
  }

  // Messages.

  /** The messages that the step sends to the context: those of the latest look-up of a handle by the
      thread, and those sent to the context that it reserved. */
  function SentBy(h: History, step: Step, c: ContextId): seq<Message> {
    match step
    case Push(t) => if t in h.sending && h.sending[t].c == c then [h.sending[t].m] else []
    case PushKept(t, m) => if t in h.kept && h.kept[t] == c then [m] else []
    case _ => []
  }

  function SentTo(states: seq<State>, steps: seq<Step>, c: ContextId, n: nat): seq<Message>
    requires n <= |steps| && n <= |states|
  {
    if n == 0 then []
    else SentTo(states, steps, c, n - 1) + SentBy(HistoryOf(states, steps, n - 1), steps[n - 1], c)
  }

  /** The thread that puts a message into a queue holds a context of the history. */
  lemma PutterHolds(h: History, s: State, t: Thread)
    requires Inv(s) && HistInv(h, s) && t in s.acts && (s.acts[t].Sending? || s.acts[t].Keeping?)
    ensures s.acts[t].c in s.ctxs && s.acts[t].c in h.made && h.made[s.acts[t].c].q == s.ctxs[s.acts[t].c].queue
  {
    hide OwnInv, LinkInv, FlagInv, DispatchInv, InitInv, ActOk, QueuesMade;
    HeldIsAlive(s, t);
  }

  lemma PutIsSent(h: History, s: State, step: Step, c: ContextId)
    requires Inv(s) && HistInv(h, s) && Ready(s, step) && Tolerable(s, step) && c in h.made
    ensures PutBy(s, step, h.made[c].q) == SentBy(h, step, c)
  {
    hide Inv, Touched;
    if step.Push? || step.PushKept? {
      assert ActOk(h, step.t, s.acts[step.t]);
      PutterHolds(h, s, step.t);
    }
  }

  /** Nothing is sent to a context, or put into a queue, that is not made yet. */
  lemma NothingYet(h: History, s: State, step: Step, c: ContextId, q: QueueId)
    requires Inv(s) && HistInv(h, s) && Ready(s, step) && Tolerable(s, step)
    ensures c !in h.made ==> SentBy(h, step, c) == []
    ensures (forall d :: d in h.made ==> h.made[d].q != q) ==> PutBy(s, step, q) == []
  {
    hide Inv, Touched;
    if step.Push? || step.PushKept? {
      assert ActOk(h, step.t, s.acts[step.t]);
      PutterHolds(h, s, step.t);
    }
  }

  lemma {:induction false} NothingBefore(states: seq<State>, steps: seq<Step>, c: ContextId, q: QueueId, n: nat)
    requires IsRun(states, steps) && n <= |steps|
    requires forall i :: 0 <= i < n ==> Ready(states[i], steps[i]) && Tolerable(states[i], steps[i])
    requires var made := HistoryOf(states, steps, n).made; c !in made && forall d :: d in made ==> made[d].q != q
    ensures SentTo(states, steps, c, n) == [] && PutIn(states, steps, q, n) == []
  {
    hide Inv, Do, Safe, Ready, Tolerable, Later, HistInv, PutBy, SentBy;
    if n > 0 {
      var h := HistoryOf(states, steps, n - 1);
      RunHist(states, steps, n - 1);
      RunKeepsInv(states, steps, n - 1);
      MadeBefore(h, states[n - 1], steps[n - 1]);
      if steps[n - 1].New? { NewIsNew(h, states[n - 1], steps[n - 1]); }
      assert forall d :: d in h.made ==> h.made[d] == HistoryOf(states, steps, n).made[d];
      NothingBefore(states, steps, c, q, n - 1);
      NothingYet(h, states[n - 1], steps[n - 1], c, q);
    }
  }

  lemma MadeBefore(h: History, s: State, step: Step)
    ensures !step.New? ==> Later(h, s, step).made == h.made
    ensures step.New? ==> Later(h, s, step).made == h.made[step.c := Creation(step.c, step.q, step.h)]
    ensures step.New? && step.c !in h.made ==> forall d :: d in h.made ==> Later(h, s, step).made[d] == h.made[d]
  {
  }

  /** What is put into the queue of a context is what the steps send to the context. */
  lemma {:induction false} PutInIsSent(states: seq<State>, steps: seq<Step>, c: ContextId, n: nat)
    requires IsRun(states, steps) && n <= |steps| && c in HistoryOf(states, steps, n).made
    requires forall i :: 0 <= i < n ==> Ready(states[i], steps[i]) && Tolerable(states[i], steps[i])
    ensures PutIn(states, steps, HistoryOf(states, steps, n).made[c].q, n) == SentTo(states, steps, c, n)
  {
    hide Inv, Do, Safe, Ready, Tolerable, Later, HistInv, PutBy, SentBy;
    var h, s, step := HistoryOf(states, steps, n - 1), states[n - 1], steps[n - 1];
    MadeBefore(h, s, step);
    RunHist(states, steps, n - 1);
    RunKeepsInv(states, steps, n - 1);
    if step.New? { NewIsNew(h, s, step); }
    if c in h.made {
      PutInIsSent(states, steps, c, n - 1);
      PutIsSent(h, s, step, c);
    } else {
      NothingBefore(states, steps, c, step.q, n - 1);
      NothingYet(h, s, step, c, step.q);
    }
  }

  lemma NewIsNew(h: History, s: State, step: Step)
    requires HistInv(h, s) && Ready(s, step) && step.New?
    ensures step.c !in h.made && forall d :: d in h.made ==> h.made[d].q != step.q
  {
    NotYetMade(h, s, step);
  }

  // Dispatch.

  function DispatchedBy(s: State, step: Step, c: ContextId): seq<Message>
    requires Ready(s, step)
  {
    if step.Dispatch? && s.acts[step.t].c == c then [s.acts[step.t].m] else []
  }

  function DroppedBy(s: State, step: Step, q: QueueId): seq<Message>
    requires Ready(s, step)
  {
    if step.Drop? && s.acts[step.t].q == q && q in s.queues && s.queues[q].msgs != [] then [s.queues[q].msgs[0]] else []
  }

  function DispatchedTo(states: seq<State>, steps: seq<Step>, c: ContextId, n: nat): seq<Message>
    requires n <= |steps| && n <= |states| && forall i :: 0 <= i < n ==> Ready(states[i], steps[i])
  {
    if n == 0 then [] else DispatchedTo(states, steps, c, n - 1) + DispatchedBy(states[n - 1], steps[n - 1], c)
  }

  function DroppedFrom(states: seq<State>, steps: seq<Step>, q: QueueId, n: nat): seq<Message>
    requires n <= |steps| && n <= |states| && forall i :: 0 <= i < n ==> Ready(states[i], steps[i])
  {
    if n == 0 then [] else DroppedFrom(states, steps, q, n - 1) + DroppedBy(states[n - 1], steps[n - 1], q)
  }

  /** The thread has taken the message m for the context and not dispatched it yet. */
  predicate Handles(acts: Threads, c: ContextId, t: Thread, m: Message) {
    t in acts && acts[t].Popped? && acts[t].c == c && acts[t].m == m
  }

  /** The messages that workers have in hand for the context, which are one or none. */
  ghost predicate InHand(acts: Threads, c: ContextId, hand: seq<Message>) {
    if hand == [] then forall t, m :: !Handles(acts, c, t, m)
    else |hand| == 1 && exists t :: Handles(acts, c, t, hand[0])
  }

  lemma InHandIs(s: State, c: ContextId, t: Thread, m: Message, hand: seq<Message>)
    requires Inv(s) && Handles(s.acts, c, t, m) && InHand(s.acts, c, hand)
    ensures hand == [m]
  {
    hide Inv;
    assert hand != [];
    var u :| Handles(s.acts, c, u, hand[0]);
    WorkersApart(s, t, u);
  }

  lemma InHandSame(acts: Threads, acts': Threads, c: ContextId, hand: seq<Message>)
    requires InHand(acts, c, hand) && forall t, m :: Handles(acts, c, t, m) <==> Handles(acts', c, t, m)
    ensures InHand(acts', c, hand)
  {
  }

  /** The queue takes no more messages: its service is gone. */
  predicate Closed(s: State, q: QueueId) {
    q in s.freed || (q in s.queues && s.queues[q].release)
  }

  /** A service that a worker runs has an open queue, the one made for it. */
  lemma RunningIsOpen(h: History, s: State, t: Thread, c: ContextId)
    requires Inv(s) && HistInv(h, s) && t in s.acts && c in h.made && Runs(s.acts[t]) == Some(c)
    ensures c in s.ctxs && s.ctxs[c].queue == h.made[c].q && !Closed(s, h.made[c].q)
  {
    hide OwnInv, FlagInv, DispatchInv, InitInv, ActOk;
    HeldIsAlive(s, t);
  }

  /** Every queue that a worker takes from was made for the service that it runs. */
  lemma LoopsOwn(h: History, s: State, t: Thread)
    requires Inv(s) && HistInv(h, s) && t in s.acts && (s.acts[t].Looping? || s.acts[t].Popped?)
    ensures s.acts[t].c in h.made && h.made[s.acts[t].c].q == s.acts[t].q
  {
    hide OwnInv, RefInv, LinkInv, FlagInv, DispatchInv, InitInv, ActOk, QueuesMade;
    OkAt(s, t);
  }

  /** What was taken from a queue: dispatched, in hand, or dropped after the service was gone. */
  ghost predicate Accounted(s: State, c: ContextId, q: QueueId, taken: seq<Message>, given: seq<Message>,
                            hand: seq<Message>, dropped: seq<Message>) {
    taken == (given + hand) + dropped && InHand(s.acts, c, hand) && (dropped != [] ==> Closed(s, q))
  }

  lemma MadeApart(h: History, s: State, c: ContextId, d: ContextId)
    requires HistInv(h, s) && c in h.made && d in h.made
    ensures h.made[c].q == h.made[d].q ==> c == d
  {
    hide CtxsMade, ActsOk;
  }

  lemma PopAccounted(h: History, s: State, t: Thread, c: ContextId, taken: seq<Message>, given: seq<Message>,
                     hand: seq<Message>, dropped: seq<Message>) returns (hand': seq<Message>)
    requires Inv(s) && HistInv(h, s) && c in h.made && Ready(s, Pop(t)) && Tolerable(s, Pop(t))
    requires Accounted(s, c, h.made[c].q, taken, given, hand, dropped)
    ensures Accounted(Do(s, Pop(t)), c, h.made[c].q, taken + TakenBy(s, Pop(t), h.made[c].q), given, hand', dropped)
  {
    hide Inv, HistInv, InHand;
    var s', q := Do(s, Pop(t)), h.made[c].q;
    var msgs := s.queues[s.acts[t].q].msgs;
    LoopsOwn(h, s, t);
    MadeApart(h, s, c, s.acts[t].c);
    if s.acts[t].q == q && msgs != [] {
      RunningIsOpen(h, s, t, c);
      NoOtherWorker(s, t, c, hand);
      hand' := msgs[..1];
      assert Handles(s'.acts, c, t, hand'[0]);
      NowInHand(s'.acts, c, t, hand');
      assert (given + []) + [] == given && (given + hand') + [] == given + [msgs[0]];
    } else {
      hand' := hand;
      InHandSame(s.acts, s'.acts, c, hand);
      assert taken + [] == taken;
    }
  }

  lemma NowInHand(acts: Threads, c: ContextId, t: Thread, hand: seq<Message>)
    requires |hand| == 1 && Handles(acts, c, t, hand[0])
    ensures InHand(acts, c, hand)
  {
  }

  /** A worker that is about to take a message of its service is the only one. */
  lemma NoOtherWorker(s: State, t: Thread, c: ContextId, hand: seq<Message>)
    requires Inv(s) && t in s.acts && s.acts[t].Looping? && s.acts[t].c == c && InHand(s.acts, c, hand)
    ensures hand == []
  {
    hide Inv;
    if hand != [] {
      var u :| Handles(s.acts, c, u, hand[0]);
      WorkersApart(s, t, u);
    }
  }

  lemma DispatchAccounted(h: History, s: State, t: Thread, c: ContextId, taken: seq<Message>, given: seq<Message>,
                          hand: seq<Message>, dropped: seq<Message>) returns (hand': seq<Message>)
    requires Inv(s) && HistInv(h, s) && c in h.made && Ready(s, Dispatch(t)) && Tolerable(s, Dispatch(t))
    requires Accounted(s, c, h.made[c].q, taken, given, hand, dropped)
    ensures Accounted(Do(s, Dispatch(t)), c, h.made[c].q, taken, given + DispatchedBy(s, Dispatch(t), c), hand',
                      dropped)
  {
    hide Inv, HistInv, InHand;
    var s', q, m := Do(s, Dispatch(t)), h.made[c].q, s.acts[t].m;
    if s.acts[t].c == c {
      RunningIsOpen(h, s, t, c);
      InHandIs(s, c, t, m, hand);
      hand' := [];
      HandEmptied(s, s', t, c);
      assert ((given + [m]) + []) + [] == (given + [m]) + [];
    } else {
      hand' := hand;
      InHandSame(s.acts, s'.acts, c, hand);
      assert given + [] == given;
    }
  }

  lemma HandEmptied(s: State, s': State, t: Thread, c: ContextId)
    requires Inv(s) && t in s.acts && s.acts[t].Popped? && s.acts[t].c == c
    requires t in s'.acts && s'.acts == s.acts[t := s'.acts[t]] && !s'.acts[t].Popped?
    ensures InHand(s'.acts, c, [])
  {
    hide Inv;
    forall u, k | Handles(s'.acts, c, u, k) ensures false { WorkersApart(s, t, u); }
  }

  lemma DropAccounted(h: History, s: State, t: Thread, c: ContextId, taken: seq<Message>, given: seq<Message>,
                      hand: seq<Message>, dropped: seq<Message>)
    requires Inv(s) && HistInv(h, s) && c in h.made && Ready(s, Drop(t)) && Tolerable(s, Drop(t))
    requires Accounted(s, c, h.made[c].q, taken, given, hand, dropped)
    ensures var q := h.made[c].q;
            Accounted(Do(s, Drop(t)), c, q, taken + TakenBy(s, Drop(t), q), given, hand,
                      dropped + DroppedBy(s, Drop(t), q))
  {
    hide Inv, HistInv, InHand;
    var s', q := Do(s, Drop(t)), h.made[c].q;
    InHandSame(s.acts, s'.acts, c, hand);
    DroppingIsReleased(s, t);
    var out := DroppedBy(s, Drop(t), q);
    assert ((given + hand) + dropped) + out == (given + hand) + (dropped + out);
  }

  /** The other steps: what is taken, given and dropped does not change. */
  lemma OthersAccounted(h: History, s: State, step: Step, c: ContextId, taken: seq<Message>, given: seq<Message>,
                        hand: seq<Message>, dropped: seq<Message>)
    requires Inv(s) && HistInv(h, s) && c in h.made && Ready(s, step) && Tolerable(s, step)
    requires !step.Pop? && !step.Dispatch? && !step.Drop?
    requires Accounted(s, c, h.made[c].q, taken, given, hand, dropped)
    ensures Accounted(Do(s, step), c, h.made[c].q, taken, given, hand, dropped)
    ensures TakenBy(s, step, h.made[c].q) == DispatchedBy(s, step, c) == DroppedBy(s, step, h.made[c].q) == []
  {
    hide Inv, HistInv, InHand, Do, Handles, Touched;
    var s', q := Do(s, step), h.made[c].q;
    if Closed(s, q) { StillClosed(s, step, q); }
    SameHands(s, step, c);
    InHandSame(s.acts, s'.acts, c, hand);
  }

  lemma SameHands(s: State, step: Step, c: ContextId)
    requires Ready(s, step) && Tolerable(s, step) && !step.Pop? && !step.Dispatch? && !step.Drop?
    ensures forall t, m :: Handles(s.acts, c, t, m) <==> Handles(Do(s, step).acts, c, t, m)
  {
    hide Do;
    ActsFrame(s, step);
    NoPopped(s, step);
  }

  lemma NoPopped(s: State, step: Step)
    requires Ready(s, step) && Tolerable(s, step) && !step.Pop? && !step.Dispatch? && !step.Drop?
    requires step.t in Do(s, step).acts
    ensures step.t in s.acts ==> !s.acts[step.t].Popped?
    ensures !Do(s, step).acts[step.t].Popped?
  {
    hide DoContext, DoQueue;
    if OnContexts(step) { NoPoppedContexts(s, step); } else if !AfterRelease(step) { NoPoppedQueues(s, step); }
  }

  lemma NoPoppedContexts(s: State, step: Step)
    requires Ready(s, step) && Safe(s, step) && OnContexts(step) && !step.Dispatch?
    ensures var s' := DoContext(s, step); step.t in s'.acts && !s'.acts[step.t].Popped?
  {
  }

  lemma NoPoppedQueues(s: State, step: Step)
    requires Ready(s, step) && Safe(s, step) && !OnContexts(step) && !AfterRelease(step) && !step.Pop? && !step.Drop?
    ensures var s' := DoQueue(s, step); step.t in s'.acts && !s'.acts[step.t].Popped?
  {
  }

  lemma StillClosed(s: State, step: Step, q: QueueId)
    requires Ready(s, step) && Tolerable(s, step) && Closed(s, q)
    ensures Closed(Do(s, step), q)
  {
    hide DoContext, DoQueue;
    if OnContexts(step) { ClosedContexts(s, step, q); } else if !AfterRelease(step) { ClosedQueues(s, step, q); }
  }

  lemma ClosedContexts(s: State, step: Step, q: QueueId)
    requires Ready(s, step) && Safe(s, step) && OnContexts(step) && Closed(s, q)
    ensures Closed(DoContext(s, step), q)
  {
  }

  lemma ClosedQueues(s: State, step: Step, q: QueueId)
    requires Ready(s, step) && Safe(s, step) && !OnContexts(step) && !AfterRelease(step) && Closed(s, q)
    ensures Closed(DoQueue(s, step), q)
  {
  }

  lemma StepAccounted(h: History, s: State, step: Step, c: ContextId, taken: seq<Message>, given: seq<Message>,
                      hand: seq<Message>, dropped: seq<Message>) returns (hand': seq<Message>)
    requires Inv(s) && HistInv(h, s) && c in h.made && Ready(s, step) && Tolerable(s, step)
    requires Accounted(s, c, h.made[c].q, taken, given, hand, dropped)
    ensures var q := h.made[c].q;
            Accounted(Do(s, step), c, q, taken + TakenBy(s, step, q), given + DispatchedBy(s, step, c), hand',
                      dropped + DroppedBy(s, step, q))
  {
    hide Inv, HistInv, Do, Accounted, Touched;
    assert taken + [] == taken && given + [] == given && dropped + [] == dropped;
    hand' := hand;
    match step
    case Pop(t) => hand' := PopAccounted(h, s, t, c, taken, given, hand, dropped);
    case Dispatch(t) => hand' := DispatchAccounted(h, s, t, c, taken, given, hand, dropped);
    case Drop(t) => DropAccounted(h, s, t, c, taken, given, hand, dropped);
    case _ => OthersAccounted(h, s, step, c, taken, given, hand, dropped);
  }

  /** A context that is not made yet has no message dispatched or in hand. */
  lemma {:induction false} NothingGiven(states: seq<State>, steps: seq<Step>, c: ContextId, n: nat)
    requires IsRun(states, steps) && n <= |steps| && c !in HistoryOf(states, steps, n).made
    requires forall i :: 0 <= i < n ==> Ready(states[i], steps[i])
    ensures DispatchedTo(states, steps, c, n) == [] && forall t, m :: !Handles(states[n].acts, c, t, m)
  {
    hide Inv, Do, Safe, Ready, Later, HistInv, DispatchedBy;
    RunHist(states, steps, n);
    RunKeepsInv(states, steps, n);
    forall t, m | Handles(states[n].acts, c, t, m) ensures false {
      LoopsOwn(HistoryOf(states, steps, n), states[n], t);
    }
    if n > 0 {
      MadeBefore(HistoryOf(states, steps, n - 1), states[n - 1], steps[n - 1]);
      NothingGiven(states, steps, c, n - 1);
      NotHandled(states[n - 1], steps[n - 1], c);
    }
  }

  lemma NotHandled(s: State, step: Step, c: ContextId)
    requires Ready(s, step) && forall t, m :: !Handles(s.acts, c, t, m)
    ensures DispatchedBy(s, step, c) == []
  {
    if step.Dispatch? { assert !Handles(s.acts, c, step.t, s.acts[step.t].m); }
  }

  lemma {:induction false} NothingDropped(states: seq<State>, steps: seq<Step>, q: QueueId, n: nat)
    requires n <= |steps| && n <= |states|
    requires forall i :: 0 <= i < n ==> Ready(states[i], steps[i]) && Tolerable(states[i], steps[i])
    requires TakenOut(states, steps, q, n) == []
    ensures DroppedFrom(states, steps, q, n) == []
  {
    hide Ready, Tolerable, TakenBy, DroppedBy;
    if n > 0 {
      NothingDropped(states, steps, q, n - 1);
      DropsTake(states[n - 1], steps[n - 1], q);
    }
  }

  lemma DropsTake(s: State, step: Step, q: QueueId)
    requires Ready(s, step) && Tolerable(s, step)
    ensures DroppedBy(s, step, q) == [] || DroppedBy(s, step, q) == TakenBy(s, step, q)
  {
  }

  lemma {:induction false} TakenIsAccounted(states: seq<State>, steps: seq<Step>, c: ContextId, n: nat)
    returns (hand: seq<Message>)
    requires IsRun(states, steps) && n <= |steps| && c in HistoryOf(states, steps, n).made
    requires forall i :: 0 <= i < n ==> Ready(states[i], steps[i]) && Tolerable(states[i], steps[i])
    ensures var q := HistoryOf(states, steps, n).made[c].q;
            Accounted(states[n], c, q, TakenOut(states, steps, q, n), DispatchedTo(states, steps, c, n), hand,
                      DroppedFrom(states, steps, q, n))
  {
    hide Inv, Do, Safe, Ready, Tolerable, Later, HistInv, TakenBy, DispatchedBy, DroppedBy, Accounted;
    var h, s, step := HistoryOf(states, steps, n - 1), states[n - 1], steps[n - 1];
    MadeBefore(h, s, step);
    RunHist(states, steps, n - 1);
    RunKeepsInv(states, steps, n);
    if step.New? { NewIsNew(h, s, step); }
    if c in h.made {
      hand := TakenIsAccounted(states, steps, c, n - 1);
      var q := h.made[c].q;
      hand := StepAccounted(h, s, step, c, TakenOut(states, steps, q, n - 1), DispatchedTo(states, steps, c, n - 1),
                            hand, DroppedFrom(states, steps, q, n - 1));
    } else {
      var q := step.q;
      NothingBefore(states, steps, c, q, n - 1);
      TakenInOrder(states, steps, q, n - 1);
      NothingGiven(states, steps, c, n - 1);
      NothingDropped(states, steps, q, n - 1);
      hand := [];
      NewAccounted(s, step, c, q);
    }
  }

  lemma NewAccounted(s: State, step: Step, c: ContextId, q: QueueId)
    requires Ready(s, step) && Tolerable(s, step) && step.New? && forall t, m :: !Handles(s.acts, c, t, m)
    ensures Accounted(Do(s, step), c, q, [], [], [], [])
    ensures TakenBy(s, step, q) == DispatchedBy(s, step, c) == DroppedBy(s, step, q) == []
  {
    SameHands(s, step, c);
  }

  /** In every run, of every service: the messages that the steps sent to it are, in the order in which
      they were sent, those dispatched to it, the one that a worker has in hand, those dropped
      after it was gone, and those still waiting. */
  lemma SentIsDelivered(states: seq<State>, steps: seq<Step>, c: ContextId, n: nat) returns (hand: seq<Message>)
    requires IsRun(states, steps) && n <= |steps| && c in HistoryOf(states, steps, n).made
    ensures forall i :: 0 <= i < n ==> Ready(states[i], steps[i])
    ensures var q := HistoryOf(states, steps, n).made[c].q;
            SentTo(states, steps, c, n) ==
              ((DispatchedTo(states, steps, c, n) + hand) + DroppedFrom(states, steps, q, n)) + Waiting(states[n], q)
    ensures InHand(states[n].acts, c, hand)
    ensures var q := HistoryOf(states, steps, n).made[c].q;
            DroppedFrom(states, steps, q, n) != [] ==> Closed(states[n], q)
  {
    hide Inv, Do, Safe, Tolerable, HistInv, Waiting;
    RunKeepsInv(states, steps, n);
    hand := TakenIsAccounted(states, steps, c, n);
    PutInIsSent(states, steps, c, n);
    TakenInOrder(states, steps, HistoryOf(states, steps, n).made[c].q, n);
  }

  // The run list.

  /** The queue that the step puts on the run list: a new one, one that was idle and gets a message or
      is given up, or one that goes back behind the others. */
  function EnteredBy(h: History, s: State, step: Step): seq<QueueId>
    requires Ready(s, step) && Tolerable(s, step)
  {
    match step
    case LaunchQueue(t) => if t in h.creating then [h.creating[t].q] else []
    case Push(t) => IfIdle(s, s.ctxs[s.acts[t].c].queue)
    case PushKept(t, _) => IfIdle(s, s.ctxs[s.acts[t].c].queue)
    case MarkRelease(t) => IfIdle(s, s.ctxs[s.acts[t].c].queue)
    case PushBack(t) => [s.acts[t].q]
    case ReleaseQueue(t) => if s.queues[s.acts[t].next.q].release then [] else [s.acts[t].next.q]
    case _ => []
  }

  function IfIdle(s: State, q: QueueId): seq<QueueId>
    requires q in s.queues
  {
    if s.queues[q].inGlobal then [] else [q]
  }

  /** The queue that the step gives to its thread, which is in the state after it. */
  function GotBy(s': State, step: Step): seq<QueueId> {
    if step.t !in s'.acts then []
    else
      var a := s'.acts[step.t];
      if step.PopGlobal? && a.At? && a.next.Hold? then [a.next.q]
      else if step.TakeNext? && a.Swapping? then [a.nq]
      else []
  }

  function Entered(states: seq<State>, steps: seq<Step>, n: nat): seq<QueueId>
    requires n <= |steps| && n <= |states|
    requires forall i :: 0 <= i < n ==> Ready(states[i], steps[i]) && Tolerable(states[i], steps[i])
  {
    if n == 0 then []
    else Entered(states, steps, n - 1) + EnteredBy(HistoryOf(states, steps, n - 1), states[n - 1], steps[n - 1])
  }

  function GotIn(states: seq<State>, steps: seq<Step>, n: nat): seq<QueueId>
    requires n <= |steps| && n < |states|
  {
    if n == 0 then [] else GotIn(states, steps, n - 1) + GotBy(states[n], steps[n - 1])
  }

  lemma ListStep(h: History, s: State, step: Step)
    requires HistInv(h, s) && Ready(s, step) && Tolerable(s, step)
    ensures s.global + EnteredBy(h, s, step) == GotBy(Do(s, step), step) + Do(s, step).global
    ensures step.TakeNext? && s.global != [] ==> Do(s, step).acts[step.t].Swapping?
  {
    hide DoContext, DoQueue, MadeOk, ActOk, GotBy, EnteredBy;
    if OnContexts(step) || AfterRelease(step) {
      if OnContexts(step) { SameList(s, step); }
      NoMoves(h, s, step);
      assert [] + s.global == s.global + [];
    } else {
      assert ActOk(h, step.t, s.acts[step.t]);
      QueueMoves(h, s, step);
    }
  }

  lemma NoMoves(h: History, s: State, step: Step)
    requires Ready(s, step) && Tolerable(s, step) && (OnContexts(step) || AfterRelease(step))
    ensures EnteredBy(h, s, step) == [] && GotBy(Do(s, step), step) == []
  {
    hide Do;
  }

  lemma QueueMoves(h: History, s: State, step: Step)
    requires Ready(s, step) && Safe(s, step) && !OnContexts(step) && !AfterRelease(step)
    requires ActOk(h, step.t, s.acts[step.t])
    ensures s.global + EnteredBy(h, s, step) == GotBy(DoQueue(s, step), step) + DoQueue(s, step).global
    ensures step.TakeNext? && s.global != [] ==> DoQueue(s, step).acts[step.t].Swapping?
  {
  }

  /** In every run workers get the queues in the order in which they came on the run list, and a
      worker that ends a dispatch takes the next one if there is any. */
  lemma {:induction false} FirstInFirstOut(states: seq<State>, steps: seq<Step>, n: nat)
    requires IsRun(states, steps) && n <= |steps|
    ensures forall i :: 0 <= i < n ==> Ready(states[i], steps[i]) && Tolerable(states[i], steps[i])
    ensures Entered(states, steps, n) == GotIn(states, steps, n) + states[n].global
    ensures n > 0 && steps[n - 1].TakeNext? && states[n - 1].global != [] ==>
              steps[n - 1].t in states[n].acts && states[n].acts[steps[n - 1].t].Swapping?
  {
    hide Inv, Do, Safe, Ready, Tolerable, Later, HistInv, EnteredBy, GotBy;
    RunKeepsInv(states, steps, n);
    if n > 0 {
      FirstInFirstOut(states, steps, n - 1);
      var h, s, step := HistoryOf(states, steps, n - 1), states[n - 1], steps[n - 1];
      RunHist(states, steps, n - 1);
      ActsFrame(s, step);
      ListStep(h, s, step);
      Regroup(GotIn(states, steps, n - 1), s.global, EnteredBy(h, s, step), GotBy(states[n], step), states[n].global);
    }
  }

  // The size of a dispatch.

  lemma {:induction false} ShiftIs(n: nat, w: nat)
    ensures ShiftRight(n, w) == n / Pow2(w)
  {
    if w > 0 {
      ShiftIs(n / 2, w - 1);
      HalfThen(n, Pow2(w - 1));
    }
  }

  lemma HalfThen(n: nat, p: nat)
    requires p >= 1
    ensures (n / 2) / p == n / (2 * p)
  {
    var q := (n / 2) / p;
    assert n / 2 == q * p + (n / 2) % p;
    QuotientIs(n, 2 * p, q, n - q * (2 * p));
  }

  /** A dispatch that comes to its end has handled one message with a negative weight, and otherwise
      the messages that were left after the first one, divided by two to the power of the weight,
      but at least one. One that found the queue empty has handled none. */
  lemma BatchSize(states: seq<State>, steps: seq<Step>, n: nat)
    requires IsRun(states, steps) && n < |steps|
    ensures steps[n].TakeNext? ==>
              var h, t := HistoryOf(states, steps, n), steps[n].t;
              t in h.batch && var b := h.batch[t];
              var k := if b.weight < 0 then 1 else b.length / Pow2(b.weight);
              b.count == if k > 1 then k else 1
    ensures steps[n].Pop? && Waiting(states[n], states[n].acts[steps[n].t].q) == [] ==>
              steps[n].t in HistoryOf(states, steps, n).batch
              && HistoryOf(states, steps, n).batch[steps[n].t].count == 0
  {
    hide Inv, Do, MadeOk;
    RunHist(states, steps, n);
    RunKeepsInv(states, steps, n + 1);
    var h, t := HistoryOf(states, steps, n), steps[n].t;
    assert t in states[n].acts ==> ActOk(h, t, states[n].acts[t]);
    if steps[n].TakeNext? && h.batch[t].weight >= 0 { ShiftIs(h.batch[t].length, h.batch[t].weight); }
    if steps[n].Pop? && Waiting(states[n], states[n].acts[t].q) == [] { OnlyFirstPopFindsEmpty(states, steps, n); }
  }
}
