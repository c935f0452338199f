/** What a run delivers: the messages that the steps send, the services that they initialize, and the
    order and the size of what is dispatched. */
module SchedulerHistory {
  import opened Wrappers
  import opened LittleEndian
  import opened Scheduler
  import opened SchedulerProof
  import opened SchedulerRuns

  datatype Creation = Creation(c: ContextId, q: QueueId, h: Handle)

  /** A message on its way to the context that had the handle when it was looked up. */
  datatype Letter = Letter(c: ContextId, m: Message)

  /** A dispatch: its weight, the messages handled so far, and the length of the queue after the
      first one was taken. */
  datatype Batch = Batch(weight: int, count: nat, length: nat)

  /** What the steps of a run say: the handles in use, the latest creation and the latest send of every
      thread, the context it reserved, its latest dispatch, how every context was made, and the
      results of the init functions. */
  datatype History = History(
    slots: Slots, made: map<ContextId, Creation>, inits: map<ContextId, bool>,
    creating: map<Thread, Creation>, sending: map<Thread, Letter>, kept: map<Thread, ContextId>,
    batch: map<Thread, Batch>)

  function Nothing(): History {
    History(map[], map[], map[], map[], map[], map[], map[])
  }

  /** The state before the step is used for a reserved context, which the thread gets from one that
      holds it, and for the length of a queue. */
  function Later(h: History, s: State, step: Step): History {
    match step
    case New(t, c, q, n) =>
      var made := Creation(c, q, n);
      h.(slots := h.slots[n := c], made := h.made[c := made], creating := h.creating[t := made])
    case InitDone(t, ok) => if t in h.creating then h.(inits := h.inits[h.creating[t].c := ok]) else h
    case RetireOwn(t) => if t in h.creating then h.(slots := h.slots - {h.creating[t].h}) else h
    case Retire(_, n) => h.(slots := h.slots - {n})
    case GrabToSend(t, n, m) => if n in h.slots then h.(sending := h.sending[t := Letter(h.slots[n], m)]) else h
    case Reserve(t, u) =>
      if u in s.acts && Held(s.acts[u]).Some? then h.(kept := h.kept[t := Held(s.acts[u]).value]) else h
    case GrabToDispatch(t, w) => h.(batch := h.batch[t := Batch(w, 0, 0)])
    case Dispatch(t) => if t in h.batch then h.(batch := h.batch[t := Counted(h.batch[t], LengthAt(s, t))]) else h
    case _ => h
  }

  function Counted(b: Batch, length: nat): Batch {
    Batch(b.weight, b.count + 1, if b.count == 0 then length else b.length)
  }

  /** The length of the queue that the thread is dispatching. */
  function LengthAt(s: State, t: Thread): nat {
    if t in s.acts && s.acts[t].Popped? && s.acts[t].q in s.queues then |s.queues[s.acts[t].q].msgs| else 0
  }

  function HistoryOf(states: seq<State>, steps: seq<Step>, n: nat): History
    requires n <= |steps| && n <= |states|
  {
    if n == 0 then Nothing() else Later(HistoryOf(states, steps, n - 1), states[n - 1], steps[n - 1])
  }

  // What the state has to do with it.

  predicate Initialized(h: History, c: ContextId) {
    c in h.inits && h.inits[c]
  }

  predicate NextOk(h: History, t: Thread, k: Next) {
    match k
    case Start(c, q) => t in h.creating && h.creating[t].c == c && h.creating[t].q == q && Initialized(h, c)
    case Launch(q, ret) =>
      t in h.creating && h.creating[t].q == q && Initialized(h, h.creating[t].c)
      && (ret.Some? ==> ret.value == h.creating[t].c)
    case Report(c) => t in h.creating && h.creating[t].c == c && Initialized(h, c)
    case Abandon(n, q) =>
      t in h.creating && h.creating[t].q == q && h.creating[t].h == n
      && h.creating[t].c in h.inits && !h.inits[h.creating[t].c]
    case _ => true
  }

  /** The number of rounds of a dispatch after the first message. */
  function Rounds(b: Batch): int {
    if b.weight < 0 then 1 else ShiftRight(b.length, b.weight)
  }

  predicate BatchOk(h: History, t: Thread, w: int, i: nat, n: int) {
    && t in h.batch && h.batch[t].weight == w && h.batch[t].count == i
    && n == if i == 0 then 1 else Rounds(h.batch[t])
  }

  predicate ActOk(h: History, t: Thread, a: Activity) {
    match a
    case At(k) => NextOk(h, t, k)
    case Creating(c, q) =>
      t in h.creating && c in h.made && h.made[c] == h.creating[t] && h.creating[t].c == c && h.creating[t].q == q
      && c !in h.inits
    case Looping(_, _, w, i, n) => BatchOk(h, t, w, i, n) && (i > 1 ==> i <= n)
    case Popped(_, _, w, i, n, _) => BatchOk(h, t, w, i, n) && i < n
    case Sending(c, m) => t in h.sending && h.sending[t] == Letter(c, m)
    case Keeping(c) => t in h.kept && h.kept[t] == c
    case Releasing(_, k) => NextOk(h, t, k)
    case Marking(_, k) => NextOk(h, t, k)
    case Freeing(_, k) => NextOk(h, t, k)
    case _ => true
  }

  ghost predicate ActsOk(h: History, acts: Threads) {
    forall t :: t in acts ==> ActOk(h, t, acts[t])
  }

  ghost predicate CtxsMade(h: History, ctxs: Contexts, deleted: set<ContextId>) {
    && h.made.Keys == ctxs.Keys + deleted && h.inits.Keys <= h.made.Keys
    && (forall c :: c in ctxs ==> h.made[c].q == ctxs[c].queue && h.made[c].h == ctxs[c].handle)
    && (forall c :: c in ctxs && ctxs[c].init ==> Initialized(h, c))
  }

  ghost predicate QueuesMade(h: History, queues: Queues, freed: set<QueueId>) {
    && (forall c :: c in h.made ==> h.made[c].q in queues || h.made[c].q in freed)
    && (forall c :: c in h.made && h.made[c].q in queues ==> queues[h.made[c].q].ctx == c)
    && (forall c, d :: c in h.made && d in h.made && h.made[c].q == h.made[d].q ==> c == d)
  }

  ghost predicate MadeOk(h: History, s: State) {
    CtxsMade(h, s.ctxs, s.deleted) && QueuesMade(h, s.queues, s.freed)
  }

  ghost predicate HistInv(h: History, s: State) {
    s.slots == h.slots && ActsOk(h, s.acts) && MadeOk(h, s)
  }

  // Every step keeps it: the activities.

  /** A step changes the activity of its own thread only. */
  lemma ActsFrame(s: State, step: Step)
    requires Ready(s, step) && Tolerable(s, step)
    ensures var s' := Do(s, step); step.t in s'.acts && s'.acts == s.acts[step.t := s'.acts[step.t]]
  {
    hide DoContext, DoQueue;
    if OnContexts(step) { ContextsFrame(s, step); } else if !AfterRelease(step) { QueuesFrame(s, step); }
    if step.PushKept? { assert s.acts[step.t := s.acts[step.t]] == s.acts; }
  }

  lemma ContextsFrame(s: State, step: Step)
    requires Ready(s, step) && Safe(s, step) && OnContexts(step)
    ensures var s' := DoContext(s, step); step.t in s'.acts && s'.acts == s.acts[step.t := s'.acts[step.t]]
  {
  }

  lemma QueuesFrame(s: State, step: Step)
    requires Ready(s, step) && Safe(s, step) && !OnContexts(step) && !AfterRelease(step)
    ensures var s' := DoQueue(s, step); step.t in s'.acts && s'.acts == s.acts[step.t := s'.acts[step.t]]
  {
    if s.acts[step.t] == DoQueue(s, step).acts[step.t] { assert s.acts[step.t := s.acts[step.t]] == s.acts; }
  }

  lemma OthersKeep(h: History, s: State, step: Step, u: Thread, a: Activity)
    requires ActOk(h, u, a) && u != step.t && (step.New? ==> step.c !in h.made)
    requires step.InitDone? && step.t in h.creating ==>
               h.creating[step.t].c !in h.inits && (a.Creating? ==> a.c != h.creating[step.t].c)
    ensures ActOk(Later(h, s, step), u, a)
  {
    hide Rounds;
  }

  /** The steps of a creation, of a send and of a dispatch. */
  predicate Tracked(step: Step) {
    step.New? || step.InitDone? || step.GrabToSend? || step.Reserve? || step.GrabToDispatch? || step.Dispatch?
  }

  lemma MineTracked(h: History, s: State, step: Step)
    requires Ready(s, step) && Safe(s, step) && OnContexts(step) && s.slots == h.slots
    requires step.t in s.acts ==> ActOk(h, step.t, s.acts[step.t])
    requires step.New? ==> step.c !in h.inits
    requires step.InitDone? ==> HandleIs(h, s, step.t)
    requires Tracked(step)
    ensures var s' := DoContext(s, step); step.t in s'.acts && ActOk(Later(h, s, step), step.t, s'.acts[step.t])
  {
    hide ShiftRight;
  }

  lemma MineContexts(h: History, s: State, step: Step)
    requires Ready(s, step) && Safe(s, step) && OnContexts(step) && s.slots == h.slots
    requires step.t in s.acts ==> ActOk(h, step.t, s.acts[step.t])
    requires step.New? ==> step.c !in h.inits
    requires step.InitDone? ==> HandleIs(h, s, step.t)
    ensures var s' := DoContext(s, step); step.t in s'.acts && ActOk(Later(h, s, step), step.t, s'.acts[step.t])
  {
    hide ShiftRight;
    if Tracked(step) { MineTracked(h, s, step); }
  }

  lemma MineQueues(h: History, s: State, step: Step)
    requires Ready(s, step) && Safe(s, step) && !OnContexts(step) && !AfterRelease(step)
    requires ActOk(h, step.t, s.acts[step.t])
    ensures ActOk(h, step.t, DoQueue(s, step).acts[step.t]) && Later(h, s, step) == h
  {
    hide Rounds;
  }

  lemma Mine(h: History, s: State, step: Step)
    requires Inv(s) && HistInv(h, s) && Ready(s, step) && Tolerable(s, step) && step.t in Do(s, step).acts
    ensures ActOk(Later(h, s, step), step.t, Do(s, step).acts[step.t])
  {
    hide Inv, DoContext, DoQueue, MadeOk, Rounds;
    assert step.t in s.acts ==> ActOk(h, step.t, s.acts[step.t]);
    if OnContexts(step) {
      if step.New? { NotYetMade(h, s, step); }
      if step.InitDone? { MadeHandle(h, s, step.t); }
      MineContexts(h, s, step);
    } else if !AfterRelease(step) {
      MineQueues(h, s, step);
    }
  }

  lemma NotYetMade(h: History, s: State, step: Step)
    requires MadeOk(h, s) && Ready(s, step) && step.New?
    ensures step.c !in h.inits && step.c !in h.made
    ensures forall d :: d in h.made ==> h.made[d].q != step.q
  {
  }

  /** The context that the thread creates has the handle of its creation. */
  predicate HandleIs(h: History, s: State, t: Thread) {
    t in s.acts && s.acts[t].Creating? && s.acts[t].c in s.ctxs && t in h.creating
    && h.creating[t].h == s.ctxs[s.acts[t].c].handle
  }

  lemma MadeHandle(h: History, s: State, t: Thread)
    requires MadeOk(h, s) && t in s.acts && s.acts[t].Creating? && s.acts[t].c in s.ctxs && ActOk(h, t, s.acts[t])
    ensures HandleIs(h, s, t)
  {
  }

  /** No two threads create the same context. */
  lemma CreatorsApart(s: State, t: Thread, u: Thread)
    requires Inv(s) && t in s.acts && u in s.acts && t != u && s.acts[t].Creating? && s.acts[u].Creating?
    ensures s.acts[t].c != s.acts[u].c
  {
    hide OwnInv, RefInv, LinkInv, FlagInv, DispatchInv, InitInv;
    OkAt(s, t);
    OkAt(s, u);
    if s.acts[t].q == s.acts[u].q { OneOwnerOnly(s, t, u, s.acts[t].q); }
  }

  lemma OneOwnerOnly(s: State, t: Thread, u: Thread, q: QueueId)
    requires Inv(s) && t in s.acts && u in s.acts && q in Owned(s.acts[t]) && q in Owned(s.acts[u])
    ensures t == u
  {
    hide RefInv, LinkInv, FlagInv, DispatchInv, InitInv, Owned;
  }

  lemma ActsKept(h: History, s: State, step: Step)
    requires Inv(s) && HistInv(h, s) && Ready(s, step) && Tolerable(s, step)
    ensures ActsOk(Later(h, s, step), Do(s, step).acts)
  {
    hide Inv, Do, Later, ActOk;
    ActsFrame(s, step);
    Mine(h, s, step);
    forall u | u in s.acts && u != step.t ensures ActOk(Later(h, s, step), u, s.acts[u]) {
      if step.InitDone? { InitApart(h, s, step, u); }
      if step.New? { NotYetMade(h, s, step); }
      OthersKeep(h, s, step, u, s.acts[u]);
    }
  }

  lemma InitApart(h: History, s: State, step: Step, u: Thread)
    requires Inv(s) && HistInv(h, s) && Ready(s, step) && step.InitDone? && u in s.acts && u != step.t
    ensures step.t in h.creating && h.creating[step.t].c !in h.inits
    ensures s.acts[u].Creating? ==> s.acts[u].c != h.creating[step.t].c
  {
    hide Inv;
    assert ActOk(h, step.t, s.acts[step.t]);
    if s.acts[u].Creating? { CreatorsApart(s, step.t, u); }
  }

  // The handles, the contexts and the queues.

  lemma SlotsKept(h: History, s: State, step: Step)
    requires HistInv(h, s) && Ready(s, step) && Tolerable(s, step)
    ensures Do(s, step).slots == Later(h, s, step).slots
  {
    hide DoContext, DoQueue, MadeOk;
    assert step.t in s.acts ==> ActOk(h, step.t, s.acts[step.t]);
    if OnContexts(step) { SlotsContexts(h, s, step); } else if !AfterRelease(step) { SlotsQueues(h, s, step); }
  }

  lemma SlotsContexts(h: History, s: State, step: Step)
    requires Ready(s, step) && Safe(s, step) && OnContexts(step) && s.slots == h.slots
    requires step.t in s.acts ==> ActOk(h, step.t, s.acts[step.t])
    ensures DoContext(s, step).slots == Later(h, s, step).slots
  {
    if step.RetireOwn? && s.acts[step.t].next.h !in s.slots {
      assert s.slots - {s.acts[step.t].next.h} == s.slots;
    }
  }

  lemma SlotsQueues(h: History, s: State, step: Step)
    requires Ready(s, step) && Safe(s, step) && !OnContexts(step) && !AfterRelease(step)
    ensures DoQueue(s, step).slots == s.slots && Later(h, s, step) == h
  {
  }

  /** The contexts, their queues and their init flags are the same, and so are the owners of queues. */
  ghost predicate SameLinks(s: State, s': State) {
    && s'.ctxs.Keys == s.ctxs.Keys && s'.deleted == s.deleted && s'.queues.Keys == s.queues.Keys && s'.freed == s.freed
    && (forall c :: c in s.ctxs ==> s'.ctxs[c].queue == s.ctxs[c].queue && s'.ctxs[c].init == s.ctxs[c].init)
    && (forall c :: c in s.ctxs ==> s'.ctxs[c].handle == s.ctxs[c].handle)
    && (forall q :: q in s.queues ==> s'.queues[q].ctx == s.queues[q].ctx)
  }

  /** Steps that make or free something, or finish an init function. */
  predicate Links(step: Step) {
    step.New? || step.InitDone? || step.SetInit? || step.FreeContext? || step.FreeQueue?
  }

  lemma LinksContexts(s: State, step: Step)
    requires Ready(s, step) && Safe(s, step) && OnContexts(step) && !Links(step)
    ensures SameLinks(s, DoContext(s, step))
  {
  }

  lemma LinksQueues(s: State, step: Step)
    requires Ready(s, step) && Safe(s, step) && !OnContexts(step) && !AfterRelease(step) && !Links(step)
    ensures SameLinks(s, DoQueue(s, step))
  {
  }

  lemma LaterLinks(h: History, s: State, step: Step)
    requires !Links(step)
    ensures Later(h, s, step).made == h.made && Later(h, s, step).inits == h.inits
  {
  }

  lemma MadeSame(h: History, h': History, s: State, s': State)
    requires MadeOk(h, s) && SameLinks(s, s') && h'.made == h.made && h'.inits == h.inits
    ensures MadeOk(h', s')
  {
  }

  lemma MadeKept(h: History, s: State, step: Step)
    requires Inv(s) && HistInv(h, s) && Ready(s, step) && Tolerable(s, step)
    ensures MadeOk(Later(h, s, step), Do(s, step))
  {
    hide Inv, DoContext, DoQueue, MadeOk, SameLinks, ActOk, Later;
    if Links(step) {
      MadeLinks(h, s, step);
    } else {
      LaterLinks(h, s, step);
      if OnContexts(step) {
        LinksContexts(s, step);
      } else if step.LogLaunch? {
        SameAll(s, Do(s, step));
      } else {
        LinksQueues(s, step);
      }
      MadeSame(h, Later(h, s, step), s, Do(s, step));
    }
  }

  lemma SameAll(s: State, s': State)
    requires s'.ctxs == s.ctxs && s'.deleted == s.deleted && s'.queues == s.queues && s'.freed == s.freed
    ensures SameLinks(s, s')
  {
  }

  lemma MadeLinks(h: History, s: State, step: Step)
    requires Inv(s) && HistInv(h, s) && Ready(s, step) && Tolerable(s, step) && Links(step)
    ensures MadeOk(Later(h, s, step), Do(s, step))
  {
    hide Inv, MadeOk, Do, Later;
    match step
    case New(_, _, _, _) => MadeNew(h, s, step);
    case InitDone(t, ok) => MadeInit(h, s, t, ok);
    case SetInit(t) => MadeSetInit(h, s, t);
    case FreeContext(t) => MadeFreeContext(h, s, t);
    case FreeQueue(t) => MadeFreeQueue(h, s, t);
  }

  lemma MadeNew(h: History, s: State, step: Step)
    requires MadeOk(h, s) && Ready(s, step) && Tolerable(s, step) && step.New?
    ensures MadeOk(Later(h, s, step), Do(s, step))
  {
    NotYetMade(h, s, step);
    hide CtxsMade, QueuesMade;
    var New(t, c, q, n) := step;
    var h' := Later(h, s, step);
    NewCtxMade(h, h', s.ctxs, s.deleted, c, Creation(c, q, n));
    NewQueueMade(h, h', s.queues, s.freed, c, Creation(c, q, n));
  }

  lemma NewCtxMade(h: History, h': History, ctxs: Contexts, deleted: set<ContextId>, c: ContextId, m: Creation)
    requires CtxsMade(h, ctxs, deleted) && h'.made == h.made[c := m] && h'.inits == h.inits
    ensures CtxsMade(h', ctxs[c := Context(m.h, m.q, 2, false, false)], deleted)
  {
    assert h'.made.Keys == h.made.Keys + {c};
  }

  lemma NewQueueMade(h: History, h': History, queues: Queues, freed: set<QueueId>, c: ContextId, m: Creation)
    requires QueuesMade(h, queues, freed) && h'.made == h.made[c := m] && c !in h.made
    requires m.q !in queues && m.q !in freed
    ensures QueuesMade(h', queues[m.q := Queue(m.h, c, [], true, false)], freed)
  {
  }

  lemma MadeInit(h: History, s: State, t: Thread, ok: bool)
    requires MadeOk(h, s) && ActsOk(h, s.acts) && Ready(s, InitDone(t, ok)) && Tolerable(s, InitDone(t, ok))
    ensures MadeOk(Later(h, s, InitDone(t, ok)), Do(s, InitDone(t, ok)))
  {
    hide CtxsMade, QueuesMade;
    assert ActOk(h, t, s.acts[t]);
    InitMade(h, s.ctxs, s.deleted, s.queues, s.freed, s.acts[t].c, ok);
  }

  lemma InitMade(h: History, ctxs: Contexts, deleted: set<ContextId>, queues: Queues, freed: set<QueueId>,
                 c: ContextId, ok: bool)
    requires CtxsMade(h, ctxs, deleted) && QueuesMade(h, queues, freed) && c in h.made && c !in h.inits
    ensures CtxsMade(h.(inits := h.inits[c := ok]), ctxs, deleted)
    ensures QueuesMade(h.(inits := h.inits[c := ok]), queues, freed)
  {
  }

  lemma MadeSetInit(h: History, s: State, t: Thread)
    requires MadeOk(h, s) && ActsOk(h, s.acts) && Ready(s, SetInit(t))
    ensures MadeOk(Later(h, s, SetInit(t)), Do(s, SetInit(t)))
  {
    hide QueuesMade, CtxsMade;
    assert ActOk(h, t, s.acts[t]);
    SetInitMade(h, s.ctxs, s.deleted, s.acts[t].next.c);
  }

  lemma SetInitMade(h: History, ctxs: Contexts, deleted: set<ContextId>, c: ContextId)
    requires CtxsMade(h, ctxs, deleted) && Initialized(h, c)
    ensures CtxsMade(h, WithInit(ctxs, c), deleted)
  {
    assert WithInit(ctxs, c).Keys == ctxs.Keys;
  }

  lemma MadeFreeContext(h: History, s: State, t: Thread)
    requires MadeOk(h, s) && Ready(s, FreeContext(t)) && Tolerable(s, FreeContext(t))
    ensures MadeOk(Later(h, s, FreeContext(t)), Do(s, FreeContext(t)))
  {
    hide QueuesMade;
    var s', c := Do(s, FreeContext(t)), s.acts[t].c;
    assert s'.ctxs.Keys == s.ctxs.Keys - {c} && s'.ctxs.Keys + s'.deleted == s.ctxs.Keys + s.deleted;
  }

  lemma MadeFreeQueue(h: History, s: State, t: Thread)
    requires MadeOk(h, s) && Ready(s, FreeQueue(t)) && Tolerable(s, FreeQueue(t))
    ensures MadeOk(Later(h, s, FreeQueue(t)), Do(s, FreeQueue(t)))
  {
    hide CtxsMade;
  }

  lemma StepHist(h: History, s: State, step: Step)
    requires Inv(s) && HistInv(h, s) && Ready(s, step) && Tolerable(s, step)
    ensures HistInv(Later(h, s, step), Do(s, step))
  {
    hide Inv, Do, Later, ActsOk, MadeOk;
    ActsKept(h, s, step);
    SlotsKept(h, s, step);
    MadeKept(h, s, step);
  }

  lemma {:induction false} RunHist(states: seq<State>, steps: seq<Step>, n: nat)
    requires IsRun(states, steps) && n <= |steps|
    ensures HistInv(HistoryOf(states, steps, n), states[n])
  {
    hide Inv, HistInv, Ready, Safe, Do, Later;
    if n == 0 {
      StartHist();
    } else {
      RunHist(states, steps, n - 1);
      RunKeepsInv(states, steps, n);
      StepHist(HistoryOf(states, steps, n - 1), states[n - 1], steps[n - 1]);
    }
  }

  lemma StartHist()
    ensures HistInv(Nothing(), Initial())
  {
  }
}
