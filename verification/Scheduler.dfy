/** The actor scheduler as a transition system: message queues, the global run list,
    contexts with reference counts and the handle table (core/uboss_mq.c,
    core/uboss_server.c, core/uboss_handle.c). One step per locked or atomic operation;
    any number of threads interleave arbitrarily. */
module Scheduler {
  import opened Wrappers

  type QueueId = nat
  type ContextId = nat
  type Handle = nat
  type Thread = nat
  type Message = nat

  /** The ring buffer is a sequence here. `ctx` is the context that the queue was made for. */
  datatype Queue = Queue(handle: Handle, ctx: ContextId, msgs: seq<Message>, inGlobal: bool, release: bool)

  /** `marked`: delete_context has passed uboss_mq_mark_release. `init`: the init function has
      succeeded. */
  datatype Context = Context(handle: Handle, queue: QueueId, ref: int, marked: bool, init: bool)

  /** What a thread does next when it is not inside a context operation. */
  datatype Next =
    | Idle                                // free to start anything
    | Hold(q: QueueId)                    // a worker that owns q, at the start of a dispatch
    | Start(c: ContextId, q: QueueId)     // context_new: init succeeded, about to set ctx->init
    | Launch(q: QueueId, ret: Option<ContextId>)  // context_new: about to put q on the run list
    | Report(c: ContextId)                // context_new: about to log the launch of c
    | Abandon(h: Handle, q: QueueId)      // context_new: init failed, about to retire h
    | Discard(q: QueueId)                 // about to call uboss_mq_release(q)

  datatype Activity =
    | At(next: Next)
    | Creating(c: ContextId, q: QueueId)                                          // running the init function
    | Looping(q: QueueId, c: ContextId, weight: int, i: nat, n: int)              // head of the dispatch loop
    | Popped(q: QueueId, c: ContextId, weight: int, i: nat, n: int, m: Message)   // has the message m
    | Swapping(q: QueueId, nq: QueueId, c: ContextId)                             // got nq, about to push q back
    | Sending(c: ContextId, m: Message)                                           // context_push after the grab
    | Keeping(c: ContextId)                                                       // a grabbed or reserved reference
    | Releasing(c: ContextId, next: Next)                                         // about to decrement the count
    | Marking(c: ContextId, next: Next)                                           // delete_context
    | Freeing(c: ContextId, next: Next)
    | Dropping(q: QueueId)                                                        // _drop_queue
    | Dropped(q: QueueId)                                                         // about to free q

  type Queues = map<QueueId, Queue>
  type Contexts = map<ContextId, Context>
  type Slots = map<Handle, ContextId>
  type Threads = map<Thread, Activity>

  datatype State = State(
    queues: Queues, freed: set<QueueId>,
    ctxs: Contexts, deleted: set<ContextId>,
    slots: Slots,
    global: seq<QueueId>,
    acts: Threads)

  /** The context whose reference count includes this thread. */
  function Held(a: Activity): Option<ContextId> {
    match a
    case Creating(c, _) => Some(c)
    case Looping(_, c, _, _, _) => Some(c)
    case Popped(_, c, _, _, _, _) => Some(c)
    case Swapping(_, _, c) => Some(c)
    case Sending(c, _) => Some(c)
    case Keeping(c) => Some(c)
    case Releasing(c, _) => Some(c)
    case _ => None
  }

  function OwnedNext(k: Next): set<QueueId> {
    match k
    case Idle => {}
    case Hold(q) => {q}
    case Start(_, q) => {q}
    case Launch(q, _) => {q}
    case Report(_) => {}
    case Abandon(_, q) => {q}
    case Discard(q) => {q}
  }

  /** The queues that only this thread may take messages from or put on the run list. */
  function Owned(a: Activity): set<QueueId> {
    match a
    case At(k) => OwnedNext(k)
    case Creating(_, q) => {q}
    case Looping(q, _, _, _, _) => {q}
    case Popped(q, _, _, _, _, _) => {q}
    case Swapping(q, nq, _) => {q, nq}
    case Sending(_, _) => {}
    case Keeping(_) => {}
    case Releasing(_, k) => OwnedNext(k)
    case Marking(_, k) => OwnedNext(k)
    case Freeing(_, k) => OwnedNext(k)
    case Dropping(q) => {q}
    case Dropped(q) => {q}
  }

  /** The context this thread is deleting. */
  function Deletes(a: Activity): Option<ContextId> {
    match a
    case Marking(c, _) => Some(c)
    case Freeing(c, _) => Some(c)
    case _ => None
  }

  datatype Step =
    | Spawn(t: Thread)                                            // a thread appears
    | New(t: Thread, c: ContextId, q: QueueId, h: Handle)         // context_new up to the call of init
    | InitDone(t: Thread, ok: bool)
    | SetInit(t: Thread)
    | LaunchQueue(t: Thread)
    | LogLaunch(t: Thread)
    | RetireOwn(t: Thread)
    | Retire(t: Thread, h: Handle)
    | GrabToSend(t: Thread, h: Handle, m: Message)                // context_push
    | Push(t: Thread)
    | Reserve(t: Thread, holder: Thread)                          // context_grab, context_reserve
    | PushKept(t: Thread, m: Message)                             // context_send
    | Done(t: Thread)
    | Release(t: Thread)                                          // context_release
    | MarkRelease(t: Thread)
    | FreeContext(t: Thread)
    | PopGlobal(t: Thread)
    | GrabToDispatch(t: Thread, weight: int)                      // context_message_dispatch
    | Pop(t: Thread)
    | Dispatch(t: Thread)
    | TakeNext(t: Thread)
    | PushBack(t: Thread)
    | ReleaseQueue(t: Thread)                                     // mq_release
    | Drop(t: Thread)
    | FreeQueue(t: Thread)

  /** The right shift of the source, on lengths. */
  function ShiftRight(n: nat, w: nat): (r: nat)
    ensures r <= n
  {
    if w == 0 then n else ShiftRight(n / 2, w - 1)
  }

  /** A queue after the arrival of a message. */
  function Arrived(x: Queue, m: Message): Queue {
    x.(msgs := x.msgs + [m], inGlobal := true)
  }

  /** A queue after a pop; one that was found empty is no longer known to the scheduler. */
  function Popping(x: Queue): Queue {
    if x.msgs == [] then x.(inGlobal := false) else x.(msgs := x.msgs[1..])
  }

  /** The run list when a queue that may be unknown to the scheduler needs attention. */
  function Listed(global: seq<QueueId>, q: QueueId, x: Queue): seq<QueueId> {
    if x.inGlobal then global else global + [q]
  }

  /** uboss_mq_push: a queue that is not known to the scheduler is put on the run list. */
  function PushMessage(s: State, q: QueueId, m: Message): State
    requires q in s.queues
  {
    s.(queues := s.queues[q := Arrived(s.queues[q], m)], global := Listed(s.global, q, s.queues[q]))
  }

  /** uboss_mq_pop. */
  function PopMessage(s: State, q: QueueId): State
    requires q in s.queues
  {
    s.(queues := s.queues[q := Popping(s.queues[q])])
  }

  function Become(s: State, t: Thread, a: Activity): State {
    s.(acts := s.acts[t := a])
  }

  function AddRef(s: State, c: ContextId, d: int): State
    requires c in s.ctxs
  {
    s.(ctxs := s.ctxs[c := s.ctxs[c].(ref := s.ctxs[c].ref + d)])
  }

  /** Is the thread at the point of the program where the step begins? */
  predicate Ready(s: State, step: Step) {
    if step.Spawn? then step.t !in s.acts
    else
      && step.t in s.acts
      && var a := s.acts[step.t];
         match step
         case New(_, c, q, h) =>
           // identifiers stand for fresh memory; a handle is not issued again while a queue
           // carries it
           && a == At(Idle)
           && c !in s.ctxs && c !in s.deleted && q !in s.queues && q !in s.freed
           && h !in s.slots && forall k :: k in s.queues ==> s.queues[k].handle != h
         case InitDone(_, _) => a.Creating?
         case SetInit(_) => a.At? && a.next.Start?
         case LaunchQueue(_) => a.At? && a.next.Launch?
         case LogLaunch(_) => a.At? && a.next.Report?
         case RetireOwn(_) => a.At? && a.next.Abandon?
         case Retire(_, h) => a == At(Idle) && h in s.slots
         case GrabToSend(_, h, _) => a == At(Idle) && h in s.slots
         case Push(_) => a.Sending?
         case Reserve(t, holder) => a == At(Idle) && holder in s.acts && Held(s.acts[holder]).Some?
         case PushKept(_, _) => a.Keeping?
         case Done(_) => a.Keeping?
         case Release(_) => a.Releasing?
         case MarkRelease(_) => a.Marking?
         case FreeContext(_) => a.Freeing?
         case PopGlobal(_) => a == At(Idle) && s.global != []
         case GrabToDispatch(_, _) => a.At? && a.next.Hold?
         case Pop(_) => a.Looping? && a.i < a.n
         case Dispatch(_) => a.Popped?
         case TakeNext(_) => a.Looping? && a.i >= a.n
         case PushBack(_) => a.Swapping?
         case ReleaseQueue(_) => a.At? && a.next.Discard?
         case Drop(_) => a.Dropping?
         case FreeQueue(_) => a.Dropped?
  }

  /** The contexts and queues that the step reads or writes. */
  function Touched(s: State, step: Step): (set<ContextId>, set<QueueId>)
    requires Ready(s, step)
  {
    match step
    case InitDone(t, _) => ({s.acts[t].c}, {})
    case SetInit(t) => ({s.acts[t].next.c}, {})
    case LaunchQueue(t) => ({}, {s.acts[t].next.q})
    case LogLaunch(t) => ({s.acts[t].next.c}, {})
    case RetireOwn(t) => (if s.acts[t].next.h in s.slots then {s.slots[s.acts[t].next.h]} else {}, {})
    case Retire(_, h) => ({s.slots[h]}, {})
    case GrabToSend(_, h, _) => ({s.slots[h]}, {})
    case Push(t) => TouchedByPush(s, s.acts[t].c)
    case Reserve(_, holder) => ({Held(s.acts[holder]).value}, {})
    case PushKept(t, _) => TouchedByPush(s, s.acts[t].c)
    case Release(t) => ({s.acts[t].c}, {})
    case MarkRelease(t) => TouchedByPush(s, s.acts[t].c)
    case FreeContext(t) => ({s.acts[t].c}, {})
    case PopGlobal(_) => ({}, {s.global[0]})
    case GrabToDispatch(t, _) =>
      var q := s.acts[t].next.q;
      (if q in s.queues && s.queues[q].handle in s.slots then {s.slots[s.queues[q].handle]} else {}, {q})
    case Pop(t) => ({}, {s.acts[t].q})
    case Dispatch(t) => ({s.acts[t].c}, {s.acts[t].q})
    case TakeNext(_) => ({}, if s.global == [] then {} else {s.global[0]})
    case PushBack(t) => ({}, {s.acts[t].q})
    case ReleaseQueue(t) => ({}, {s.acts[t].next.q})
    case Drop(t) => ({}, {s.acts[t].q})
    case FreeQueue(t) => ({}, {s.acts[t].q})
    case _ => ({}, {})
  }

  function TouchedByPush(s: State, c: ContextId): (set<ContextId>, set<QueueId>) {
    ({c}, if c in s.ctxs then {s.ctxs[c].queue} else {})
  }

  /** The step only touches memory that has not been freed. */
  predicate Safe(s: State, step: Step)
    requires Ready(s, step)
  {
    Touched(s, step).0 <= s.ctxs.Keys && Touched(s, step).1 <= s.queues.Keys
  }

  /** context_new uses the context once more after it has given up its reference: it sets
      `init`, and it logs the launch. */
  predicate AfterRelease(step: Step) {
    step.SetInit? || step.LogLaunch?
  }

  /** A step that only touches live memory, or one of those two uses of a context, which may
      have been freed. What it does to a freed context has no effect on anything else. */
  predicate Tolerable(s: State, step: Step)
    requires Ready(s, step)
  {
    Safe(s, step) || AfterRelease(step)
  }

  /** What the creator of a context does when the release of its reference has deleted it. */
  function WhenGone(k: Next): Next {
    if k.Start? then Launch(k.q, None) else k
  }

  /** The state after the step. */
  function Do(s: State, step: Step): State
    requires Ready(s, step) && Tolerable(s, step)
  {
    if step.SetInit? then
      var Start(c, q) := s.acts[step.t].next;
      Become(s, step.t, At(Launch(q, Some(c)))).(ctxs := WithInit(s.ctxs, c))
    else if step.LogLaunch? then Become(s, step.t, At(Idle))
    else if OnContexts(step) then DoContext(s, step)
    else DoQueue(s, step)
  }

  function WithInit(ctxs: Contexts, c: ContextId): Contexts {
    if c in ctxs then ctxs[c := ctxs[c].(init := true)] else ctxs
  }

  /** Steps that leave the run list and the messages alone. */
  predicate OnContexts(step: Step) {
    || step.Spawn? || step.New? || step.InitDone? || step.RetireOwn? || step.Retire? || step.GrabToSend?
    || step.Reserve? || step.Done? || step.Release? || step.FreeContext? || step.GrabToDispatch? || step.Dispatch?
  }

  function DoContext(s: State, step: Step): State
    requires Ready(s, step) && Safe(s, step) && OnContexts(step)
  {
    match step
    case Spawn(t) => Become(s, t, At(Idle))
    case New(t, c, q, h) =>
      Become(s, t, Creating(c, q)).(
        ctxs := s.ctxs[c := Context(h, q, 2, false, false)],
        queues := s.queues[q := Queue(h, c, [], true, false)],
        slots := s.slots[h := c])
    case InitDone(t, ok) =>
      var Creating(c, q) := s.acts[t];
      Become(s, t, Releasing(c, if ok then Start(c, q) else Abandon(s.ctxs[c].handle, q)))
    case RetireOwn(t) =>
      var Abandon(h, q) := s.acts[t].next;
      if h in s.slots then Become(s, t, Releasing(s.slots[h], Discard(q))).(slots := s.slots - {h})
      else Become(s, t, At(Discard(q)))
    case Retire(t, h) => Become(s, t, Releasing(s.slots[h], Idle)).(slots := s.slots - {h})
    case GrabToSend(t, h, m) => AddRef(Become(s, t, Sending(s.slots[h], m)), s.slots[h], 1)
    case Reserve(t, holder) =>
      var c := Held(s.acts[holder]).value;
      AddRef(Become(s, t, Keeping(c)), c, 1)
    case Done(t) => Become(s, t, Releasing(s.acts[t].c, Idle))
    case Release(t) =>
      var Releasing(c, k) := s.acts[t];
      AddRef(Become(s, t, if s.ctxs[c].ref == 1 then Marking(c, WhenGone(k)) else At(k)), c, -1)
    case FreeContext(t) =>
      var Freeing(c, k) := s.acts[t];
      Become(s, t, At(k)).(ctxs := s.ctxs - {c}, deleted := s.deleted + {c})
    case GrabToDispatch(t, weight) =>
      var q := s.acts[t].next.q;
      var h := s.queues[q].handle;
      if h in s.slots then AddRef(Become(s, t, Looping(q, s.slots[h], weight, 0, 1)), s.slots[h], 1)
      else Become(s, t, At(Discard(q)))
    case Dispatch(t) =>
      var Popped(q, c, w, i, n, _) := s.acts[t];
      var length := |s.queues[q].msgs|;
      Become(s, t, Looping(q, c, w, i + 1, if i == 0 && w >= 0 then ShiftRight(length, w) else n))
  }

  function DoQueue(s: State, step: Step): State
    requires Ready(s, step) && Safe(s, step) && !OnContexts(step) && !AfterRelease(step)
  {
    match step
    case LaunchQueue(t) =>
      var Launch(q, ret) := s.acts[t].next;
      Become(s, t, At(if ret.Some? then Report(ret.value) else Idle)).(global := s.global + [q])
    case Push(t) =>
      var Sending(c, m) := s.acts[t];
      PushMessage(Become(s, t, Releasing(c, Idle)), s.ctxs[c].queue, m)
    case PushKept(t, m) => PushMessage(s, s.ctxs[s.acts[t].c].queue, m)
    case MarkRelease(t) =>
      var Marking(c, k) := s.acts[t];
      var q := s.ctxs[c].queue;
      Become(s, t, Freeing(c, k)).(
        ctxs := s.ctxs[c := s.ctxs[c].(marked := true)],
        queues := s.queues[q := s.queues[q].(release := true)],
        global := Listed(s.global, q, s.queues[q]))
    case PopGlobal(t) => Become(s, t, At(Hold(s.global[0]))).(global := s.global[1..])
    case Pop(t) =>
      var Looping(q, c, w, i, n) := s.acts[t];
      var msgs := s.queues[q].msgs;
      PopMessage(Become(s, t, if msgs == [] then Releasing(c, Idle) else Popped(q, c, w, i, n, msgs[0])), q)
    case TakeNext(t) =>
      var Looping(q, c, w, i, n) := s.acts[t];
      if s.global == [] then Become(s, t, Releasing(c, Hold(q)))
      else Become(s, t, Swapping(q, s.global[0], c)).(global := s.global[1..])
    case PushBack(t) =>
      var Swapping(q, nq, c) := s.acts[t];
      Become(s, t, Releasing(c, Hold(nq))).(global := s.global + [q])
    case ReleaseQueue(t) =>
      var q := s.acts[t].next.q;
      if s.queues[q].release then Become(s, t, Dropping(q))
      else Become(s, t, At(Idle)).(global := s.global + [q])
    case Drop(t) =>
      var q := s.acts[t].q;
      PopMessage(if s.queues[q].msgs == [] then Become(s, t, Dropped(q)) else s, q)
    case FreeQueue(t) =>
      var q := s.acts[t].q;
      Become(s, t, At(Idle)).(queues := s.queues - {q}, freed := s.freed + {q})
  }

  // The invariant, in layers.

  /** Ownership: a queue belongs to at most one thread, and not to any while it is on the
      run list, where it occurs at most once. */
  ghost predicate OwnInv(acts: Threads, global: seq<QueueId>, live: set<QueueId>) {
    && (forall t, u, q :: t in acts && u in acts && q in Owned(acts[t]) && q in Owned(acts[u]) ==> t == u)
    && (forall t, q :: t in acts && q in Owned(acts[t]) ==> q in live && q !in global)
    && (forall i, j :: 0 <= i < j < |global| ==> global[i] != global[j])
    && (forall q :: q in global ==> q in live)
  }

  ghost predicate OwnedBySome(acts: Threads, q: QueueId) {
    exists t :: t in acts && q in Owned(acts[t])
  }

  ghost function Holders(acts: Threads, c: ContextId): set<Thread> {
    set t | t in acts && Held(acts[t]) == Some(c)
  }

  ghost predicate Registered(ctxs: Contexts, slots: Slots, c: ContextId)
    requires c in ctxs
  {
    ctxs[c].handle in slots && slots[ctxs[c].handle] == c
  }

  ghost predicate SomeDeletes(acts: Threads, c: ContextId) {
    exists t :: t in acts && Deletes(acts[t]) == Some(c)
  }

  /** Reference counts: one for the handle table and one for every thread that holds the
      context. A count of zero means that exactly one thread is deleting the context. */
  ghost predicate RefInv(acts: Threads, ctxs: Contexts, slots: Slots, deleted: set<ContextId>) {
    && (forall c :: c in ctxs ==> ctxs[c].ref == |Holders(acts, c)| + if Registered(ctxs, slots, c) then 1 else 0)
    && (forall h :: h in slots ==> slots[h] in ctxs && ctxs[slots[h]].handle == h)
    && (forall t :: t in acts && Held(acts[t]).Some? ==> Held(acts[t]).value in ctxs)
    && (forall t :: t in acts && Deletes(acts[t]).Some? ==>
          var c := Deletes(acts[t]).value; c in ctxs && ctxs[c].ref == 0 && ctxs[c].marked == acts[t].Freeing?)
    && (forall t, u :: t in acts && u in acts && Deletes(acts[t]).Some? && Deletes(acts[t]) == Deletes(acts[u]) ==>
        t == u)
    && (forall c :: c in ctxs && ctxs[c].ref == 0 ==> SomeDeletes(acts, c))
    && (forall c :: c in ctxs && ctxs[c].marked ==> ctxs[c].ref == 0)
    && (forall c :: c in ctxs ==> c !in deleted)
  }

  /** A queue and its context refer to each other until the context is deleted. */
  ghost predicate LinkInv(queues: Queues, ctxs: Contexts, freed: set<QueueId>) {
    && (forall c :: c in ctxs && !ctxs[c].marked ==>
          var q := ctxs[c].queue;
          q in queues && queues[q].ctx == c && !queues[q].release && queues[q].handle == ctxs[c].handle)
    && (forall q :: q in queues && !queues[q].release ==>
          var c := queues[q].ctx; c in ctxs && !ctxs[c].marked && ctxs[c].queue == q)
    && (forall q, p :: q in queues && p in queues && queues[q].handle == queues[p].handle ==> q == p)
    && (forall q :: q in queues ==> q !in freed)
  }

  predicate Drops(a: Activity) {
    a.Dropping? || a.Dropped?
  }

  /** Does the queue need attention? */
  predicate Wanted(x: Queue) {
    x.inGlobal || x.release || x.msgs != []
  }

  /** The flags tell where a queue is. One that is on the run list or owned is either marked
      as known to the scheduler or as released, and one that nobody knows about is empty. */
  ghost predicate FlagInv(queues: Queues, acts: Threads, global: seq<QueueId>) {
    && (forall q :: q in queues && q in global ==> queues[q].inGlobal || queues[q].release)
    && (forall t, q :: t in acts && q in Owned(acts[t]) && q in queues ==>
          queues[q].release || (queues[q].inGlobal && !Drops(acts[t])))
    && (forall q :: q in queues && Wanted(queues[q]) ==> q in global || OwnedBySome(acts, q))
  }

  /** The queue that a context is being launched with is that of the context. */
  ghost predicate PlanOk(queues: Queues, k: Next) {
    match k
    case Start(c, q) => q in queues && queues[q].ctx == c
    case Abandon(h, q) => q in queues && queues[q].handle == h
    case _ => true
  }

  /** Inside a dispatch the worker runs the context of the queue it owns, that context has been
      initialized, and there is a message for every iteration after the first. */
  ghost predicate DispatchOk(queues: Queues, ctxs: Contexts, a: Activity) {
    match a
    case Looping(q, c, _, i, n) =>
      && c in ctxs && ctxs[c].queue == q && q in queues && ctxs[c].init
      && if i == 0 then n == 1 else |queues[q].msgs| >= n - i
    case Popped(q, c, _, i, n, _) =>
      && c in ctxs && ctxs[c].queue == q && q in queues && ctxs[c].init
      && if i == 0 then n == 1 else |queues[q].msgs| >= n - i - 1
    case Swapping(q, nq, c) => c in ctxs && ctxs[c].queue == q && q != nq
    case Dropped(q) => q in queues && queues[q].msgs == []
    case At(k) => PlanOk(queues, k)
    case Creating(c, q) => q in queues && queues[q].ctx == c && c in ctxs && ctxs[c].queue == q
    case Releasing(c, k) => PlanOk(queues, k) && (k.Start? ==> k.c == c)
    case Marking(_, k) => PlanOk(queues, k) && !k.Start?
    case Freeing(_, k) => PlanOk(queues, k) && !k.Start?
    case _ => true
  }

  ghost predicate DispatchInv(queues: Queues, ctxs: Contexts, acts: Threads) {
    forall t :: t in acts ==> DispatchOk(queues, ctxs, acts[t])
  }

  predicate PreparesNext(k: Next, q: QueueId) {
    (k.Start? || k.Abandon?) && k.q == q
  }

  /** Is the thread between the creation of q and its launch? */
  predicate Prepares(a: Activity, q: QueueId) {
    match a
    case At(k) => PreparesNext(k, q)
    case Creating(_, p) => p == q
    case Releasing(_, k) => PreparesNext(k, q)
    case Marking(_, k) => PreparesNext(k, q)
    case Freeing(_, k) => PreparesNext(k, q)
    case _ => false
  }

  ghost predicate SomePrepares(acts: Threads, q: QueueId) {
    exists t :: t in acts && Prepares(acts[t], q)
  }

  /** The queue of a registered context that is not initialized is still with its creator. */
  ghost predicate InitInv(acts: Threads, ctxs: Contexts, slots: Slots) {
    forall c :: c in ctxs && Registered(ctxs, slots, c) && !ctxs[c].init ==> SomePrepares(acts, ctxs[c].queue)
  }

  ghost predicate Inv(s: State) {
    && OwnInv(s.acts, s.global, s.queues.Keys)
    && RefInv(s.acts, s.ctxs, s.slots, s.deleted)
    && LinkInv(s.queues, s.ctxs, s.freed)
    && FlagInv(s.queues, s.acts, s.global)
    && DispatchInv(s.queues, s.ctxs, s.acts)
    && InitInv(s.acts, s.ctxs, s.slots)
  }

  function Initial(): State {
    State(map[], {}, map[], {}, map[], [], map[])
  }
}
