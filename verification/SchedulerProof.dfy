/** Every step of the scheduler keeps its invariant: one lemma per kind of step, each put
    together from lemmas about one layer of the invariant. */
module SchedulerProof {
  import opened Wrappers
  import opened Scheduler

  /** No step from a state that satisfies the invariant touches freed memory, except that the
      creator of a context may do so after it has given up its reference. */
  lemma StepIsSafe(s: State, step: Step)
    requires Inv(s) && Ready(s, step) && !AfterRelease(step)
    ensures Safe(s, step)
  {
    hide OwnInv, RefInv, LinkInv, FlagInv, DispatchInv, InitInv, Holders;
    HeldInContexts(s);
    RunListIsAlive(s);
    if step.MarkRelease? || step.FreeContext? {
      DeletedIsAlive(s, step.t);
    } else if !step.Spawn? && Held(s.acts[step.t]).Some? {
      HeldIsAlive(s, step.t);
      if step.Push? || step.PushKept? { QueueIsAlive(s, s.acts[step.t].c); }
    } else if step.Reserve? {
      HeldIsAlive(s, step.holder);
    } else {
      forall h | h in s.slots ensures s.slots[h] in s.ctxs { InTableIsAlive(s, h); }
    }
  }

  lemma DeletedIsAlive(s: State, t: Thread)
    requires Inv(s) && t in s.acts && Deletes(s.acts[t]).Some?
    ensures var c := Deletes(s.acts[t]).value;
            c in s.ctxs && (s.acts[t].Marking? ==> s.ctxs[c].queue in s.queues)
  {
    hide OwnInv, FlagInv, DispatchInv, Holders;
  }

  lemma QueueIsAlive(s: State, c: ContextId)
    requires Inv(s) && c in s.ctxs && !s.ctxs[c].marked
    ensures s.ctxs[c].queue in s.queues
  {
    hide OwnInv, RefInv, FlagInv, DispatchInv;
  }

  lemma HeldIsAlive(s: State, t: Thread)
    requires RefInv(s.acts, s.ctxs, s.slots, s.deleted) && t in s.acts && Held(s.acts[t]).Some?
    ensures var c := Held(s.acts[t]).value; c in s.ctxs && s.ctxs[c].ref >= 1 && !s.ctxs[c].marked
  {
    var c := Held(s.acts[t]).value;
    assert t in Holders(s.acts, c);
  }

  // Ownership layer.

  lemma OwnSame(acts: Threads, t: Thread, a: Activity, global: seq<QueueId>, live: set<QueueId>)
    requires OwnInv(acts, global, live) && t in acts && Owned(a) == Owned(acts[t])
    ensures OwnInv(acts[t := a], global, live)
  {
    hide Owned;
  }

  /** A thread puts a queue of its own on the run list. */
  lemma OwnGive(acts: Threads, t: Thread, a: Activity, q: QueueId, global: seq<QueueId>, live: set<QueueId>)
    requires OwnInv(acts, global, live) && t in acts && q in Owned(acts[t]) && Owned(a) == Owned(acts[t]) - {q}
    ensures OwnInv(acts[t := a], global + [q], live)
  {
    hide Owned;
    assert q in live && q !in global;
    assert forall p :: p in global + [q] <==> p in global || p == q;
  }

  /** A queue that nobody owns is put on the run list. */
  lemma OwnPublish(acts: Threads, t: Thread, a: Activity, q: QueueId, global: seq<QueueId>, live: set<QueueId>)
    requires OwnInv(acts, global, live) && t in acts && Owned(a) == Owned(acts[t])
    requires q in live && q !in global && !OwnedBySome(acts, q)
    ensures OwnInv(acts[t := a], global + [q], live)
  {
    hide Owned;
    assert forall p :: p in global + [q] <==> p in global || p == q;
  }

  /** A thread takes the head of the run list. */
  lemma OwnTake(acts: Threads, t: Thread, a: Activity, global: seq<QueueId>, live: set<QueueId>)
    requires OwnInv(acts, global, live) && t in acts && global != [] && Owned(a) == Owned(acts[t]) + {global[0]}
    ensures OwnInv(acts[t := a], global[1..], live)
  {
    hide Owned;
    assert global[0] in live && global[0] !in global[1..];
    assert forall p :: p in global <==> p in global[1..] || p == global[0];
  }

  /** A thread gives up a queue. */
  lemma OwnForget(acts: Threads, t: Thread, a: Activity, q: QueueId, global: seq<QueueId>, live: set<QueueId>)
    requires OwnInv(acts, global, live) && t in acts && q in Owned(acts[t]) && Owned(a) == Owned(acts[t]) - {q}
    ensures OwnInv(acts[t := a], global, live) && OwnInv(acts[t := a], global, live - {q})
    ensures !OwnedBySome(acts[t := a], q)
  {
    hide Owned;
  }

  lemma OwnCreate(acts: Threads, t: Thread, a: Activity, q: QueueId, global: seq<QueueId>, live: set<QueueId>)
    requires OwnInv(acts, global, live) && t in acts && q !in live && Owned(a) == Owned(acts[t]) + {q}
    ensures OwnInv(acts[t := a], global, live + {q})
  {
    hide Owned;
  }

  // Reference layer.

  lemma HoldersChange(acts: Threads, t: Thread, a: Activity, c: ContextId)
    requires t in acts
    ensures |Holders(acts[t := a], c)| == |Holders(acts, c)|
              - (if Held(acts[t]) == Some(c) then 1 else 0) + (if Held(a) == Some(c) then 1 else 0)
  {
    hide Held;
    var rest := Holders(acts, c) - {t};
    assert Holders(acts, c) == if Held(acts[t]) == Some(c) then rest + {t} else rest;
    assert Holders(acts[t := a], c) == if Held(a) == Some(c) then rest + {t} else rest;
  }

  lemma DeleterStays(acts: Threads, t: Thread, a: Activity, c: ContextId)
    requires t in acts
    ensures Deletes(a) == Some(c) ==> SomeDeletes(acts[t := a], c)
    ensures SomeDeletes(acts, c) && Deletes(acts[t]) != Some(c) ==> SomeDeletes(acts[t := a], c)
  {
    hide Deletes;
    var now := acts[t := a];
    assert Deletes(a) == Some(c) ==> t in now && Deletes(now[t]) == Some(c);
    if SomeDeletes(acts, c) {
      var u :| u in acts && Deletes(acts[u]) == Some(c);
      assert u != t ==> u in now && Deletes(now[u]) == Some(c);
    }
  }

  lemma RefSame(acts: Threads, t: Thread, a: Activity, ctxs: Contexts, slots: Slots, deleted: set<ContextId>)
    requires RefInv(acts, ctxs, slots, deleted) && t in acts
    requires Held(a) == Held(acts[t]) && Deletes(a).None? && Deletes(acts[t]).None?
    ensures RefInv(acts[t := a], ctxs, slots, deleted)
  {
    hide Held, Deletes, Holders, SomeDeletes;
    forall d { DeleterStays(acts, t, a, d); }
    forall c { HoldersChange(acts, t, a, c); }
  }

  /** A thread that holds nothing gets a reference, and the count goes up. */
  lemma RefGrab(acts: Threads, t: Thread, a: Activity, c: ContextId, ctxs: Contexts, slots: Slots,
                deleted: set<ContextId>)
    requires RefInv(acts, ctxs, slots, deleted) && t in acts && c in ctxs && ctxs[c].ref >= 1
    requires Held(acts[t]).None? && Held(a) == Some(c) && Deletes(a).None? && Deletes(acts[t]).None?
    ensures RefInv(acts[t := a], ctxs[c := ctxs[c].(ref := ctxs[c].ref + 1)], slots, deleted)
  {
    hide Held, Deletes, Holders, SomeDeletes;
    forall d { DeleterStays(acts, t, a, d); }
    forall d { HoldersChange(acts, t, a, d); }
  }

  /** The reference of the handle table passes to the thread that clears the slot. */
  lemma RefRetire(acts: Threads, t: Thread, a: Activity, h: Handle, ctxs: Contexts, slots: Slots,
                  deleted: set<ContextId>)
    requires RefInv(acts, ctxs, slots, deleted) && t in acts && h in slots
    requires Held(acts[t]).None? && Held(a) == Some(slots[h]) && Deletes(a).None? && Deletes(acts[t]).None?
    ensures RefInv(acts[t := a], ctxs, slots - {h}, deleted)
  {
    hide Held, Deletes, Holders, SomeDeletes;
    forall d { DeleterStays(acts, t, a, d); }
    forall d { HoldersChange(acts, t, a, d); }
  }

  /** A thread drops its reference; whoever drops the last one deletes the context. */
  lemma RefRelease(acts: Threads, t: Thread, a: Activity, c: ContextId, ctxs: Contexts, slots: Slots,
                   deleted: set<ContextId>)
    requires RefInv(acts, ctxs, slots, deleted) && t in acts && c in ctxs && !ctxs[c].marked
    requires Held(acts[t]) == Some(c) && Held(a).None? && Deletes(acts[t]).None? && ctxs[c].ref >= 1
    requires Deletes(a) == (if ctxs[c].ref == 1 then Some(c) else None) && !a.Freeing?
    ensures RefInv(acts[t := a], ctxs[c := ctxs[c].(ref := ctxs[c].ref - 1)], slots, deleted)
  {
    hide Held, Deletes, Holders, SomeDeletes;
    forall d { DeleterStays(acts, t, a, d); }
    forall d { HoldersChange(acts, t, a, d); }
  }

  lemma RefMark(acts: Threads, t: Thread, a: Activity, c: ContextId, ctxs: Contexts, slots: Slots,
                deleted: set<ContextId>)
    requires RefInv(acts, ctxs, slots, deleted) && t in acts && c in ctxs
    requires Held(acts[t]).None? && Held(a).None? && Deletes(acts[t]) == Some(c) == Deletes(a) && a.Freeing?
    ensures RefInv(acts[t := a], ctxs[c := ctxs[c].(marked := true)], slots, deleted)
  {
    hide Held, Deletes, Holders, SomeDeletes;
    forall d { DeleterStays(acts, t, a, d); }
    forall d { HoldersChange(acts, t, a, d); }
  }

  lemma RefFree(acts: Threads, t: Thread, a: Activity, c: ContextId, ctxs: Contexts, slots: Slots,
                deleted: set<ContextId>)
    requires RefInv(acts, ctxs, slots, deleted) && t in acts && c in ctxs
    requires Held(acts[t]).None? && Held(a).None? && Deletes(acts[t]) == Some(c) && Deletes(a).None?
    ensures RefInv(acts[t := a], ctxs - {c}, slots, deleted + {c})
  {
    hide Held, Deletes, Holders, SomeDeletes;
    forall d { DeleterStays(acts, t, a, d); }
    forall d { HoldersChange(acts, t, a, d); }
    NoHolders(acts, c);
    assert !Registered(ctxs, slots, c);
  }

  lemma NoHolders(acts: Threads, c: ContextId)
    ensures |Holders(acts, c)| == 0 <==> forall u :: u in acts ==> Held(acts[u]) != Some(c)
  {
    hide Held;
    assert forall u :: u in acts && Held(acts[u]) == Some(c) ==> u in Holders(acts, c);
    if |Holders(acts, c)| != 0 { var u :| u in Holders(acts, c); }
  }

  lemma RefNew(acts: Threads, t: Thread, a: Activity, c: ContextId, x: Context, ctxs: Contexts, slots: Slots,
               deleted: set<ContextId>)
    requires RefInv(acts, ctxs, slots, deleted) && t in acts && c !in ctxs && c !in deleted && x.handle !in slots
    requires x.ref == 2 && !x.marked
    requires Held(acts[t]).None? && Held(a) == Some(c) && Deletes(acts[t]).None? && Deletes(a).None?
    ensures RefInv(acts[t := a], ctxs[c := x], slots[x.handle := c], deleted)
  {
    hide Held, Deletes, Holders, SomeDeletes;
    forall d { DeleterStays(acts, t, a, d); }
    forall d { HoldersChange(acts, t, a, d); }
    NoHolders(acts, c);
  }

  // Flags layer.

  lemma SomeStays(acts: Threads, t: Thread, a: Activity, q: QueueId)
    requires t in acts && OwnedBySome(acts, q) && (q in Owned(acts[t]) ==> q in Owned(a))
    ensures OwnedBySome(acts[t := a], q)
  {
    hide Owned;
    var u :| u in acts && q in Owned(acts[u]);
    assert u in acts[t := a] && q in Owned(acts[t := a][u]);
  }

  lemma SomeOwns(acts: Threads, t: Thread, q: QueueId)
    requires t in acts && q in Owned(acts[t])
    ensures OwnedBySome(acts, q)
  {
  }

  lemma FlagSame(queues: Queues, acts: Threads, t: Thread, a: Activity, global: seq<QueueId>)
    requires FlagInv(queues, acts, global) && t in acts && Owned(a) == Owned(acts[t])
    requires Drops(a) ==> forall q :: q in Owned(a) && q in queues ==> queues[q].release
    ensures FlagInv(queues, acts[t := a], global)
  {
    hide Owned, OwnedBySome, Drops, Wanted;
    forall q | OwnedBySome(acts, q) ensures OwnedBySome(acts[t := a], q) { SomeStays(acts, t, a, q); }
  }

  lemma FlagGive(queues: Queues, acts: Threads, t: Thread, a: Activity, q: QueueId, global: seq<QueueId>)
    requires FlagInv(queues, acts, global) && t in acts && q in queues
    requires q in Owned(acts[t]) && Owned(a) == Owned(acts[t]) - {q} && !Drops(a)
    ensures FlagInv(queues, acts[t := a], global + [q])
  {
    hide Owned, OwnedBySome, Wanted;
    assert forall p :: p in global + [q] <==> p in global || p == q;
    forall p | OwnedBySome(acts, p) && p != q ensures OwnedBySome(acts[t := a], p) { SomeStays(acts, t, a, p); }
  }

  lemma FlagTake(queues: Queues, acts: Threads, t: Thread, a: Activity, global: seq<QueueId>)
    requires FlagInv(queues, acts, global) && t in acts && global != [] && global[0] in queues
    requires Owned(a) == Owned(acts[t]) + {global[0]} && !Drops(a)
    ensures FlagInv(queues, acts[t := a], global[1..])
  {
    hide Owned, OwnedBySome, Wanted;
    assert forall p :: p in global <==> p in global[1..] || p == global[0];
    forall p | OwnedBySome(acts, p) ensures OwnedBySome(acts[t := a], p) { SomeStays(acts, t, a, p); }
    SomeOwns(acts[t := a], t, global[0]);
  }

  /** A worker finds its queue empty and forgets it. */
  lemma FlagForget(queues: Queues, acts: Threads, t: Thread, a: Activity, q: QueueId, global: seq<QueueId>)
    requires FlagInv(queues, acts, global) && OwnInv(acts, global, queues.Keys) && t in acts && q in queues
    requires q in Owned(acts[t]) && Owned(a) == Owned(acts[t]) - {q} && !Drops(a)
    requires queues[q].msgs == [] && !queues[q].release
    ensures FlagInv(queues[q := queues[q].(inGlobal := false)], acts[t := a], global)
  {
    hide Owned, OwnedBySome;
    forall p | OwnedBySome(acts, p) && p != q ensures OwnedBySome(acts[t := a], p) { SomeStays(acts, t, a, p); }
  }

  /** A message arrives; a queue that nobody knew about is put on the run list. */
  lemma FlagPush(queues: Queues, acts: Threads, q: QueueId, x: Queue, global: seq<QueueId>)
    requires FlagInv(queues, acts, global) && q in queues && !queues[q].release
    requires x.inGlobal && x.release == queues[q].release
    ensures FlagInv(queues[q := x], acts, if queues[q].inGlobal then global else global + [q])
    ensures !queues[q].inGlobal ==> q !in global && !OwnedBySome(acts, q)
  {
    hide Owned;
    assert forall p :: p in global + [q] <==> p in global || p == q;
  }

  lemma FlagMark(queues: Queues, acts: Threads, q: QueueId, global: seq<QueueId>)
    requires FlagInv(queues, acts, global) && q in queues && !queues[q].release
    ensures FlagInv(queues[q := queues[q].(release := true)], acts, if queues[q].inGlobal then global else global + [q])
    ensures !queues[q].inGlobal ==> q !in global && !OwnedBySome(acts, q)
  {
    hide Owned;
    assert forall p :: p in global + [q] <==> p in global || p == q;
  }

  /** The owner takes a message out. */
  lemma FlagPop(queues: Queues, acts: Threads, t: Thread, q: QueueId, global: seq<QueueId>)
    requires FlagInv(queues, acts, global) && t in acts && q in queues && q in Owned(acts[t]) && queues[q].msgs != []
    ensures var x := queues[q];
            FlagInv(queues[q := x.(msgs := x.msgs[1..])], acts, global)
  {
    hide Owned;
    SomeOwns(acts, t, q);
  }

  // Dispatch layer.

  /** A context that stays what it is, apart from its count and from being initialized. */
  predicate SameContext(ctxs: Contexts, ctxs': Contexts, c: ContextId) {
    c in ctxs && c in ctxs' && ctxs'[c].queue == ctxs[c].queue && (ctxs[c].init ==> ctxs'[c].init)
  }

  /** A queue that loses no messages. */
  predicate SameQueue(queues: Queues, queues': Queues, q: QueueId, exactly: bool) {
    && q in queues && q in queues' && queues'[q].ctx == queues[q].ctx && queues'[q].handle == queues[q].handle
    && |queues'[q].msgs| >= |queues[q].msgs| && (exactly ==> queues'[q].msgs == queues[q].msgs)
  }

  /** What other threads do leaves a thread in its dispatch undisturbed. */
  lemma DispatchFrame(queues: Queues, ctxs: Contexts, queues': Queues, ctxs': Contexts, a: Activity)
    requires DispatchOk(queues, ctxs, a)
    requires Held(a).Some? ==> SameContext(ctxs, ctxs', Held(a).value)
    requires forall q :: q in Owned(a) && q in queues ==> SameQueue(queues, queues', q, a.Dropped?)
    ensures DispatchOk(queues', ctxs', a)
  {
  }

  lemma DispatchOthers(queues: Queues, ctxs: Contexts, queues': Queues, ctxs': Contexts, acts: Threads, t: Thread,
                       a: Activity)
    requires DispatchInv(queues, ctxs, acts) && t in acts && DispatchOk(queues', ctxs', a)
    requires forall u :: u in acts && u != t && Held(acts[u]).Some? ==> SameContext(ctxs, ctxs', Held(acts[u]).value)
    requires forall u, q :: u in acts && u != t && q in Owned(acts[u]) && q in queues ==>
               SameQueue(queues, queues', q, acts[u].Dropped?)
    ensures DispatchInv(queues', ctxs', acts[t := a])
  {
    hide Owned, Held, DispatchOk;
    forall u | u in acts && u != t ensures DispatchOk(queues', ctxs', acts[u]) {
      DispatchFrame(queues, ctxs, queues', ctxs', acts[u]);
    }
  }

  // Initialization layer.

  lemma PreparerStays(acts: Threads, t: Thread, a: Activity, q: QueueId)
    requires t in acts && SomePrepares(acts, q) && (Prepares(acts[t], q) ==> Prepares(a, q))
    ensures SomePrepares(acts[t := a], q)
  {
    hide Prepares;
    var u :| u in acts && Prepares(acts[u], q);
    assert u in acts[t := a] && Prepares(acts[t := a][u], q);
  }

  /** A step that launches nothing and registers nothing. */
  lemma InitSame(acts: Threads, t: Thread, a: Activity, ctxs: Contexts, slots: Slots, ctxs': Contexts, slots': Slots)
    requires InitInv(acts, ctxs, slots) && t in acts && forall q :: Prepares(acts[t], q) ==> Prepares(a, q)
    requires forall c :: c in ctxs' ==>
               SameContext(ctxs, ctxs', c) && (Registered(ctxs', slots', c) ==> Registered(ctxs, slots, c))
    ensures InitInv(acts[t := a], ctxs', slots')
  {
    hide Prepares, SomePrepares, Registered;
    forall q | SomePrepares(acts, q) ensures SomePrepares(acts[t := a], q) { PreparerStays(acts, t, a, q); }
  }

  /** A step after which the contexts of q are initialized or not registered. */
  lemma InitDoneWith(acts: Threads, t: Thread, a: Activity, q: QueueId, ctxs: Contexts, slots: Slots,
                     ctxs': Contexts, slots': Slots)
    requires InitInv(acts, ctxs, slots) && t in acts && forall p :: p != q && Prepares(acts[t], p) ==> Prepares(a, p)
    requires forall c :: c in ctxs' ==>
               SameContext(ctxs, ctxs', c) && (Registered(ctxs', slots', c) ==> Registered(ctxs, slots, c))
    requires forall c :: c in ctxs' && ctxs'[c].queue == q && Registered(ctxs', slots', c) ==> ctxs'[c].init
    ensures InitInv(acts[t := a], ctxs', slots')
  {
    hide Prepares, SomePrepares, Registered;
    forall p | SomePrepares(acts, p) && p != q ensures SomePrepares(acts[t := a], p) { PreparerStays(acts, t, a, p); }
  }

  // Every step keeps the invariant.

  lemma OkAt(s: State, t: Thread)
    requires Inv(s) && t in s.acts
    ensures DispatchOk(s.queues, s.ctxs, s.acts[t])
  {
    hide OwnInv, RefInv, LinkInv, FlagInv, InitInv;
  }

  /** A registered context and its queue. */
  lemma RegisteredQueue(s: State, c: ContextId)
    requires Inv(s) && c in s.ctxs && Registered(s.ctxs, s.slots, c)
    ensures var q := s.ctxs[c].queue;
            q in s.queues && s.queues[q].ctx == c && s.queues[q].handle == s.ctxs[c].handle
  {
    hide OwnInv, FlagInv, InitInv, DispatchInv, Holders;
    InTableIsAlive(s, s.ctxs[c].handle);
  }

  /** Steps that only move a thread on. */
  lemma KeepControl(s: State, step: Step)
    requires Inv(s) && Ready(s, step) && Safe(s, step)
    requires step.InitDone? || step.Done? || step.Dispatch?
    ensures Inv(Do(s, step))
  {
    hide OwnInv, RefInv, LinkInv, FlagInv, DispatchInv, InitInv;
    var t, s' := step.t, Do(s, step);
    var a := s'.acts[t];
    OwnSame(s.acts, t, a, s.global, s.queues.Keys);
    RefSame(s.acts, t, a, s.ctxs, s.slots, s.deleted);
    FlagSame(s.queues, s.acts, t, a, s.global);
    HeldInContexts(s);
    OkAt(s, t);
    if step.InitDone? { HeldQueue(s, t); }
    InitSame(s.acts, t, a, s.ctxs, s.slots, s.ctxs, s.slots);
    DispatchOthers(s.queues, s.ctxs, s.queues, s.ctxs, s.acts, t, a);
  }

  lemma HeldQueue(s: State, t: Thread)
    requires Inv(s) && t in s.acts && Held(s.acts[t]).Some?
    ensures var c := Held(s.acts[t]).value;
            && c in s.ctxs && s.ctxs[c].queue in s.queues
            && s.queues[s.ctxs[c].queue].handle == s.ctxs[c].handle && s.queues[s.ctxs[c].queue].ctx == c
  {
    hide OwnInv, FlagInv, InitInv, DispatchInv, Holders;
    HeldIsAlive(s, t);
  }

  /** The creator marks the context as initialized, if it still exists. */
  lemma KeepSetInit(s: State, t: Thread)
    requires Inv(s) && Ready(s, SetInit(t))
    ensures Inv(Do(s, SetInit(t)))
  {
    hide OwnInv, RefInv, LinkInv, FlagInv, DispatchInv, InitInv;
    var s' := Do(s, SetInit(t));
    var a, c, q := s'.acts[t], s.acts[t].next.c, s.acts[t].next.q;
    OkAt(s, t);
    OwnSame(s.acts, t, a, s.global, s.queues.Keys);
    RefInit(s.acts, t, a, c, s.ctxs, s.slots, s.deleted);
    FlagSame(s.queues, s.acts, t, a, s.global);
    LinkInit(s.queues, s.ctxs, s.freed, c);
    HeldInContexts(s);
    forall d | d in s'.ctxs && s'.ctxs[d].queue == q && Registered(s'.ctxs, s.slots, d) ensures s'.ctxs[d].init {
      assert Registered(s.ctxs, s.slots, d);
      RegisteredQueue(s, d);
    }
    InitDoneWith(s.acts, t, a, q, s.ctxs, s.slots, s'.ctxs, s.slots);
    DispatchOthers(s.queues, s.ctxs, s.queues, s'.ctxs, s.acts, t, a);
  }

  lemma RefInit(acts: Threads, t: Thread, a: Activity, c: ContextId, ctxs: Contexts, slots: Slots,
                deleted: set<ContextId>)
    requires RefInv(acts, ctxs, slots, deleted) && t in acts
    requires Held(a) == Held(acts[t]) && Deletes(a).None? && Deletes(acts[t]).None?
    ensures RefInv(acts[t := a], WithInit(ctxs, c), slots, deleted)
  {
    hide Held, Deletes, Holders, SomeDeletes;
    RefSame(acts, t, a, ctxs, slots, deleted);
  }

  lemma LinkInit(queues: Queues, ctxs: Contexts, freed: set<QueueId>, c: ContextId)
    requires LinkInv(queues, ctxs, freed)
    ensures LinkInv(queues, WithInit(ctxs, c), freed)
  {
  }

  /** The creator logs the launch. */
  lemma KeepLogLaunch(s: State, t: Thread)
    requires Inv(s) && Ready(s, LogLaunch(t))
    ensures Inv(Do(s, LogLaunch(t)))
  {
    hide OwnInv, RefInv, LinkInv, FlagInv, DispatchInv, InitInv;
    var a := Do(s, LogLaunch(t)).acts[t];
    OwnSame(s.acts, t, a, s.global, s.queues.Keys);
    RefSame(s.acts, t, a, s.ctxs, s.slots, s.deleted);
    FlagSame(s.queues, s.acts, t, a, s.global);
    HeldInContexts(s);
    InitSame(s.acts, t, a, s.ctxs, s.slots, s.ctxs, s.slots);
    DispatchOthers(s.queues, s.ctxs, s.queues, s.ctxs, s.acts, t, a);
  }

  /** Every thread sees live contexts and queues. */
  lemma HeldInContexts(s: State)
    requires Inv(s)
    ensures forall u :: u in s.acts && Held(s.acts[u]).Some? ==> Held(s.acts[u]).value in s.ctxs
    ensures forall u, q :: u in s.acts && q in Owned(s.acts[u]) ==> q in s.queues
  {
    hide LinkInv, FlagInv, DispatchInv, Holders, InitInv;
  }

  /** Getting a reference, from the handle table or from another holder. */
  lemma KeepGrab(s: State, step: Step)
    requires Inv(s) && Ready(s, step) && Safe(s, step) && (step.GrabToSend? || step.Reserve?)
    ensures Inv(Do(s, step))
  {
    hide OwnInv, RefInv, LinkInv, FlagInv, DispatchInv, Holders, InitInv;
    var t, s' := step.t, Do(s, step);
    var a := s'.acts[t];
    var c := Held(a).value;
    if step.Reserve? { HeldIsAlive(s, step.holder); } else { InTableIsAlive(s, step.h); }
    OwnSame(s.acts, t, a, s.global, s.queues.Keys);
    RefGrab(s.acts, t, a, c, s.ctxs, s.slots, s.deleted);
    FlagSame(s.queues, s.acts, t, a, s.global);
    LinkCount(s.queues, s.ctxs, s.freed, c, s'.ctxs[c].ref);
    HeldInContexts(s);
    InitSame(s.acts, t, a, s.ctxs, s.slots, s'.ctxs, s'.slots);
    DispatchOthers(s.queues, s.ctxs, s.queues, s'.ctxs, s.acts, t, a);
  }

  /** A dispatch begins: the worker gets the context that belongs to its queue. */
  lemma KeepGrabToDispatch(s: State, step: Step, q: QueueId)
    requires Inv(s) && Ready(s, step) && Safe(s, step)
    requires step.GrabToDispatch? && s.acts[step.t].next.q == q && q in s.queues && s.queues[q].handle in s.slots
    ensures Inv(Do(s, step))
  {
    hide OwnInv, RefInv, LinkInv, FlagInv, DispatchInv, Holders, InitInv;
    var t, s' := step.t, Do(s, step);
    var a := s'.acts[t];
    var c := Held(a).value;
    InTableIsAlive(s, s.queues[a.q].handle);
    SameHandle(s, c, a.q);
    LaunchedIsInit(s, t, c);
    OwnSame(s.acts, t, a, s.global, s.queues.Keys);
    RefGrab(s.acts, t, a, c, s.ctxs, s.slots, s.deleted);
    FlagSame(s.queues, s.acts, t, a, s.global);
    LinkCount(s.queues, s.ctxs, s.freed, c, s'.ctxs[c].ref);
    HeldInContexts(s);
    InitSame(s.acts, t, a, s.ctxs, s.slots, s'.ctxs, s'.slots);
    DispatchOthers(s.queues, s.ctxs, s.queues, s'.ctxs, s.acts, t, a);
  }

  /** A worker that owns the queue of a registered context finds it initialized. */
  lemma LaunchedIsInit(s: State, t: Thread, c: ContextId)
    requires Inv(s) && t in s.acts && c in s.ctxs && Registered(s.ctxs, s.slots, c)
    requires s.acts[t] == At(Hold(s.ctxs[c].queue))
    ensures s.ctxs[c].init
  {
    hide RefInv, LinkInv, FlagInv, DispatchInv;
    if !s.ctxs[c].init {
      var u :| u in s.acts && Prepares(s.acts[u], s.ctxs[c].queue);
      PreparesOwns(s.acts[u], s.ctxs[c].queue);
    }
  }

  lemma PreparesOwns(a: Activity, q: QueueId)
    requires Prepares(a, q)
    ensures q in Owned(a)
  {
  }

  lemma InTableIsAlive(s: State, h: Handle)
    requires RefInv(s.acts, s.ctxs, s.slots, s.deleted) && h in s.slots
    ensures var c := s.slots[h]; c in s.ctxs && s.ctxs[c].ref >= 1 && !s.ctxs[c].marked && s.ctxs[c].handle == h
  {
    assert Registered(s.ctxs, s.slots, s.slots[h]);
  }

  lemma LinkCount(queues: Queues, ctxs: Contexts, freed: set<QueueId>, c: ContextId, ref: int)
    requires LinkInv(queues, ctxs, freed) && c in ctxs
    ensures LinkInv(queues, ctxs[c := ctxs[c].(ref := ref)], freed)
  {
  }

  /** A context and a queue with the same handle belong together. */
  lemma SameHandle(s: State, c: ContextId, q: QueueId)
    requires LinkInv(s.queues, s.ctxs, s.freed) && c in s.ctxs && q in s.queues
    requires !s.ctxs[c].marked && s.ctxs[c].handle == s.queues[q].handle
    ensures s.ctxs[c].queue == q
  {
  }

  /** A dispatch that finds no context for the handle of its queue, or a creator whose handle
      has been retired already. */
  lemma KeepNoContext(s: State, step: Step, q: QueueId)
    requires Inv(s) && Ready(s, step) && Safe(s, step) && (step.GrabToDispatch? || step.RetireOwn?)
    requires s.acts[step.t].next.q == q && q in s.queues && s.queues[q].handle !in s.slots
    ensures Inv(Do(s, step))
  {
    hide OwnInv, RefInv, LinkInv, FlagInv, DispatchInv, InitInv;
    var t, s' := step.t, Do(s, step);
    var a := s'.acts[t];
    OkAt(s, t);
    OwnSame(s.acts, t, a, s.global, s.queues.Keys);
    RefSame(s.acts, t, a, s.ctxs, s.slots, s.deleted);
    FlagSame(s.queues, s.acts, t, a, s.global);
    HeldInContexts(s);
    NoneRegistered(s, q);
    InitDoneWith(s.acts, t, a, q, s.ctxs, s.slots, s.ctxs, s.slots);
    DispatchOthers(s.queues, s.ctxs, s.queues, s.ctxs, s.acts, t, a);
  }

  /** Without a slot for its handle no context of a queue is registered. */
  lemma NoneRegistered(s: State, q: QueueId)
    requires Inv(s) && q in s.queues && s.queues[q].handle !in s.slots
    ensures forall c :: c in s.ctxs && s.ctxs[c].queue == q ==> !Registered(s.ctxs, s.slots, c)
  {
    hide Inv;
    forall c | c in s.ctxs && s.ctxs[c].queue == q && Registered(s.ctxs, s.slots, c) ensures false {
      RegisteredQueue(s, c);
    }
  }

  lemma KeepRetire(s: State, step: Step)
    requires Inv(s) && Ready(s, step) && Safe(s, step)
    requires step.Retire? || (step.RetireOwn? && s.acts[step.t].next.h in s.slots)
    ensures Inv(Do(s, step))
  {
    hide OwnInv, RefInv, LinkInv, FlagInv, DispatchInv, InitInv;
    var t, s' := step.t, Do(s, step);
    var a, h := s'.acts[t], if step.Retire? then step.h else s.acts[t].next.h;
    OkAt(s, t);
    OwnSame(s.acts, t, a, s.global, s.queues.Keys);
    RefRetire(s.acts, t, a, h, s.ctxs, s.slots, s.deleted);
    FlagSame(s.queues, s.acts, t, a, s.global);
    HeldInContexts(s);
    if step.Retire? {
      InitSame(s.acts, t, a, s.ctxs, s.slots, s.ctxs, s'.slots);
    } else {
      var q := s.acts[t].next.q;
      forall c | c in s.ctxs && s.ctxs[c].queue == q ensures !Registered(s.ctxs, s'.slots, c) {
        if Registered(s.ctxs, s.slots, c) { RegisteredQueue(s, c); }
      }
      InitDoneWith(s.acts, t, a, q, s.ctxs, s.slots, s.ctxs, s'.slots);
    }
    DispatchOthers(s.queues, s.ctxs, s.queues, s.ctxs, s.acts, t, a);
  }

  lemma KeepRelease(s: State, t: Thread)
    requires Inv(s) && Ready(s, Release(t)) && Safe(s, Release(t))
    ensures Inv(Do(s, Release(t)))
  {
    hide OwnInv, RefInv, LinkInv, FlagInv, DispatchInv, InitInv;
    var s' := Do(s, Release(t));
    var a, c := s'.acts[t], s.acts[t].c;
    HeldIsAlive(s, t);
    OkAt(s, t);
    OwnSame(s.acts, t, a, s.global, s.queues.Keys);
    RefRelease(s.acts, t, a, c, s.ctxs, s.slots, s.deleted);
    FlagSame(s.queues, s.acts, t, a, s.global);
    LinkCount(s.queues, s.ctxs, s.freed, c, s'.ctxs[c].ref);
    HeldInContexts(s);
    ReleaseKeepsInit(s, t);
    DispatchOthers(s.queues, s.ctxs, s.queues, s'.ctxs, s.acts, t, a);
  }

  /** If the creator drops the last reference, the context was not registered any more. */
  lemma ReleaseKeepsInit(s: State, t: Thread)
    requires Inv(s) && Ready(s, Release(t)) && Safe(s, Release(t))
    ensures var s' := Do(s, Release(t)); InitInv(s'.acts, s'.ctxs, s'.slots)
  {
    hide Inv, InitInv;
    LessInit(s, t, s.acts[t].c, s.acts[t].next, s.ctxs[s.acts[t].c].ref - 1);
  }

  lemma LessInit(s: State, t: Thread, c: ContextId, k: Next, n: int)
    requires Inv(s) && t in s.acts && s.acts[t] == Releasing(c, k) && c in s.ctxs && n == s.ctxs[c].ref - 1
    ensures InitInv(s.acts[t := if n == 0 then Marking(c, WhenGone(k)) else At(k)], s.ctxs[c := s.ctxs[c].(ref := n)],
                    s.slots)
  {
    hide OwnInv, LinkInv, FlagInv, DispatchInv, InitInv, Holders;
    var a, ctxs := if n == 0 then Marking(c, WhenGone(k)) else At(k), s.ctxs[c := s.ctxs[c].(ref := n)];
    OkAt(s, t);
    if n == 0 && k.Start? {
      SoleHolder(s.acts, t, c);
      forall d | d in ctxs && ctxs[d].queue == k.q ensures !Registered(ctxs, s.slots, d) {
        if Registered(s.ctxs, s.slots, d) { RegisteredQueue(s, d); }
      }
      InitDoneWith(s.acts, t, a, k.q, s.ctxs, s.slots, ctxs, s.slots);
    } else {
      InitSame(s.acts, t, a, s.ctxs, s.slots, ctxs, s.slots);
    }
  }

  lemma SoleHolder(acts: Threads, t: Thread, c: ContextId)
    requires t in acts && Held(acts[t]) == Some(c)
    ensures |Holders(acts, c)| >= 1
  {
    assert t in Holders(acts, c);
  }

  lemma KeepFreeContext(s: State, t: Thread)
    requires Inv(s) && Ready(s, FreeContext(t)) && Safe(s, FreeContext(t))
    ensures Inv(Do(s, FreeContext(t)))
  {
    hide OwnInv, LinkInv, FlagInv, DispatchInv, Holders, InitInv;
    var s' := Do(s, FreeContext(t));
    var a, c := s'.acts[t], s.acts[t].c;
    OkAt(s, t);
    OwnSame(s.acts, t, a, s.global, s.queues.Keys);
    RefFree(s.acts, t, a, c, s.ctxs, s.slots, s.deleted);
    FlagSame(s.queues, s.acts, t, a, s.global);
    LinkFree(s.queues, s.ctxs, s.freed, c);
    HeldInContexts(s);
    NoHolders(s.acts, c);
    InitSame(s.acts, t, a, s.ctxs, s.slots, s'.ctxs, s'.slots);
    DispatchOthers(s.queues, s.ctxs, s.queues, s'.ctxs, s.acts, t, a);
  }

  lemma LinkFree(queues: Queues, ctxs: Contexts, freed: set<QueueId>, c: ContextId)
    requires LinkInv(queues, ctxs, freed) && c in ctxs && ctxs[c].marked
    ensures LinkInv(queues, ctxs - {c}, freed)
  {
  }

  lemma KeepMarkRelease(s: State, t: Thread)
    requires Inv(s) && Ready(s, MarkRelease(t)) && Safe(s, MarkRelease(t))
    ensures Inv(Do(s, MarkRelease(t)))
  {
    hide Inv;
    var c := s.acts[t].c;
    MarkedInv(s, t, c, s.acts[t].next, s.ctxs[c].queue);
  }

  lemma MarkedInv(s: State, t: Thread, c: ContextId, k: Next, q: QueueId)
    requires Inv(s) && t in s.acts && s.acts[t] == Marking(c, k) && c in s.ctxs && q == s.ctxs[c].queue && q in s.queues
    ensures Inv(s.(acts := s.acts[t := Freeing(c, k)], ctxs := s.ctxs[c := s.ctxs[c].(marked := true)],
                   queues := s.queues[q := s.queues[q].(release := true)], global := Listed(s.global, q, s.queues[q])))
  {
    hide OwnInv, RefInv, LinkInv, FlagInv, DispatchInv, Holders, InitInv;
    var a, queues := Freeing(c, k), s.queues[q := s.queues[q].(release := true)];
    var ctxs := s.ctxs[c := s.ctxs[c].(marked := true)];
    OkAt(s, t);
    NotMarked(s, t, c);
    LinkMark(s.queues, s.ctxs, s.freed, c);
    FlagMark(s.queues, s.acts, q, s.global);
    if s.queues[q].inGlobal {
      OwnSame(s.acts, t, a, s.global, s.queues.Keys);
    } else {
      OwnPublish(s.acts, t, a, q, s.global, s.queues.Keys);
    }
    FlagSame(queues, s.acts, t, a, Listed(s.global, q, s.queues[q]));
    RefMark(s.acts, t, a, c, s.ctxs, s.slots, s.deleted);
    HeldInContexts(s);
    assert queues.Keys == s.queues.Keys;
    InitSame(s.acts, t, a, s.ctxs, s.slots, ctxs, s.slots);
    DispatchOthers(s.queues, s.ctxs, queues, ctxs, s.acts, t, a);
  }

  lemma NotMarked(s: State, t: Thread, c: ContextId)
    requires RefInv(s.acts, s.ctxs, s.slots, s.deleted) && t in s.acts && s.acts[t].Marking? && s.acts[t].c == c
    ensures c in s.ctxs && !s.ctxs[c].marked
  {
    hide Holders, SomeDeletes;
    assert Deletes(s.acts[t]) == Some(c);
  }

  lemma LinkMark(queues: Queues, ctxs: Contexts, freed: set<QueueId>, c: ContextId)
    requires LinkInv(queues, ctxs, freed) && c in ctxs && !ctxs[c].marked
    ensures var q := ctxs[c].queue;
            q in queues && !queues[q].release &&
            LinkInv(queues[q := queues[q].(release := true)], ctxs[c := ctxs[c].(marked := true)], freed)
  {
  }

  /** uboss_mq_push by a thread that holds the context. */
  lemma KeepPush(s: State, step: Step)
    requires Inv(s) && Ready(s, step) && Safe(s, step) && (step.Push? || step.PushKept?)
    ensures Inv(Do(s, step))
  {
    hide Inv;
    var t, c := step.t, s.acts[step.t].c;
    var a, m := if step.Push? then Releasing(c, Idle) else s.acts[t], if step.Push? then s.acts[t].m else step.m;
    assert s.acts[t := s.acts[t]] == s.acts;
    PushedInv(s, t, a, c, s.ctxs[c].queue, m);
  }

  lemma PushedInv(s: State, t: Thread, a: Activity, c: ContextId, q: QueueId, m: Message)
    requires Inv(s) && t in s.acts && c in s.ctxs && q == s.ctxs[c].queue && q in s.queues
    requires s.acts[t] == Keeping(c) == a || (s.acts[t].Sending? && s.acts[t].c == c && a == Releasing(c, Idle))
    ensures Inv(PushMessage(Become(s, t, a), q, m))
  {
    hide OwnInv, RefInv, FlagInv, DispatchInv, Holders, InitInv;
    var x, global := Arrived(s.queues[q], m), Listed(s.global, q, s.queues[q]);
    var queues := s.queues[q := x];
    HeldIsAlive(s, t);
    FlagPush(s.queues, s.acts, q, x, s.global);
    if s.queues[q].inGlobal {
      OwnSame(s.acts, t, a, s.global, s.queues.Keys);
    } else {
      OwnPublish(s.acts, t, a, q, s.global, s.queues.Keys);
    }
    FlagSame(queues, s.acts, t, a, global);
    RefSame(s.acts, t, a, s.ctxs, s.slots, s.deleted);
    HeldInContexts(s);
    assert queues.Keys == s.queues.Keys;
    ReleasedIsNotHeld(s, q);
    InitSame(s.acts, t, a, s.ctxs, s.slots, s.ctxs, s.slots);
    DispatchOthers(s.queues, s.ctxs, queues, s.ctxs, s.acts, t, a);
  }

  lemma ReleasedIsNotHeld(s: State, q: QueueId)
    requires Inv(s) && q in s.queues && !s.queues[q].release
    ensures forall u :: u in s.acts && Drops(s.acts[u]) ==> q !in Owned(s.acts[u])
  {
  }

  /** Putting an owned queue on the run list. */
  lemma KeepGive(s: State, step: Step)
    requires Ready(s, step) && Safe(s, step)
    requires step.LaunchQueue? || step.PushBack?
          || (step.ReleaseQueue? && s.acts[step.t].next.q in s.queues && !s.queues[s.acts[step.t].next.q].release)
    requires Inv(s)
    ensures Inv(Do(s, step))
  {
    hide OwnInv, RefInv, LinkInv, FlagInv, Holders, InitInv;
    var t, s' := step.t, Do(s, step);
    var a := s'.acts[t];
    var q := if step.PushBack? then s.acts[t].q else s.acts[t].next.q;
    assert DispatchOk(s.queues, s.ctxs, s.acts[t]);
    OwnGive(s.acts, t, a, q, s.global, s.queues.Keys);
    FlagGive(s.queues, s.acts, t, a, q, s.global);
    RefSame(s.acts, t, a, s.ctxs, s.slots, s.deleted);
    HeldInContexts(s);
    InitSame(s.acts, t, a, s.ctxs, s.slots, s'.ctxs, s'.slots);
    DispatchOthers(s.queues, s.ctxs, s.queues, s.ctxs, s.acts, t, a);
  }

  /** Taking the head of the run list. */
  lemma KeepTake(s: State, step: Step)
    requires Inv(s) && Ready(s, step) && Safe(s, step)
    requires step.PopGlobal? || (step.TakeNext? && s.global != [])
    ensures Inv(Do(s, step))
  {
    hide RefInv, LinkInv, FlagInv, Holders, InitInv;
    var t, s' := step.t, Do(s, step);
    var a := s'.acts[t];
    assert DispatchOk(s.queues, s.ctxs, s.acts[t]);
    OwnTake(s.acts, t, a, s.global, s.queues.Keys);
    FlagTake(s.queues, s.acts, t, a, s.global);
    RefSame(s.acts, t, a, s.ctxs, s.slots, s.deleted);
    HeldInContexts(s);
    InitSame(s.acts, t, a, s.ctxs, s.slots, s'.ctxs, s'.slots);
    DispatchOthers(s.queues, s.ctxs, s.queues, s.ctxs, s.acts, t, a);
  }

  lemma KeepTakeNothing(s: State, t: Thread)
    requires Inv(s) && Ready(s, TakeNext(t)) && Safe(s, TakeNext(t)) && s.global == []
    ensures Inv(Do(s, TakeNext(t)))
  {
    hide OwnInv, RefInv, LinkInv, FlagInv, DispatchInv, Holders, InitInv;
    var a := Do(s, TakeNext(t)).acts[t];
    OwnSame(s.acts, t, a, s.global, s.queues.Keys);
    FlagSame(s.queues, s.acts, t, a, s.global);
    RefSame(s.acts, t, a, s.ctxs, s.slots, s.deleted);
    HeldInContexts(s);
    InitSame(s.acts, t, a, s.ctxs, s.slots, s.ctxs, s.slots);
    DispatchOthers(s.queues, s.ctxs, s.queues, s.ctxs, s.acts, t, a);
  }

  /** The worker finds its queue empty: from now on nobody knows about the queue. */
  lemma KeepPopEmpty(s: State, t: Thread, q: QueueId)
    requires Inv(s) && Ready(s, Pop(t)) && Safe(s, Pop(t)) && s.acts[t].q == q && q in s.queues
             && s.queues[q].msgs == []
    ensures Inv(Do(s, Pop(t)))
    ensures var s' := Do(s, Pop(t)); q !in s'.global && !OwnedBySome(s'.acts, q)
  {
    hide Inv, OwnedBySome;
    ForgottenInv(s, t, s.acts[t].c, q);
  }

  lemma ForgottenInv(s: State, t: Thread, c: ContextId, q: QueueId)
    requires Inv(s) && t in s.acts && s.acts[t].Looping? && s.acts[t].q == q && s.acts[t].c == c
    requires q in s.queues && s.queues[q].msgs == []
    ensures var s' := PopMessage(Become(s, t, Releasing(c, Idle)), q);
            Inv(s') && q !in s'.global && !OwnedBySome(s'.acts, q)
  {
    hide OwnInv, RefInv, FlagInv, LinkInv, DispatchInv, Holders, InitInv, OwnedBySome;
    var a, queues := Releasing(c, Idle), s.queues[q := s.queues[q].(inGlobal := false)];
    OkAt(s, t);
    HeldQueue(s, t);
    HeldIsAlive(s, t);
    LinkListed(s.queues, s.ctxs, s.freed, q);
    OwnForget(s.acts, t, a, q, s.global, s.queues.Keys);
    OwnedNotListed(s.acts, t, q, s.global, s.queues.Keys);
    FlagForget(s.queues, s.acts, t, a, q, s.global);
    RefSame(s.acts, t, a, s.ctxs, s.slots, s.deleted);
    HeldInContexts(s);
    assert queues.Keys == s.queues.Keys;
    InitSame(s.acts, t, a, s.ctxs, s.slots, s.ctxs, s.slots);
    DispatchOthers(s.queues, s.ctxs, queues, s.ctxs, s.acts, t, a);
  }

  lemma LinkListed(queues: Queues, ctxs: Contexts, freed: set<QueueId>, q: QueueId)
    requires LinkInv(queues, ctxs, freed) && q in queues
    ensures LinkInv(queues[q := queues[q].(inGlobal := false)], ctxs, freed)
    ensures queues[q].ctx in ctxs && !ctxs[queues[q].ctx].marked && ctxs[queues[q].ctx].queue == q ==>
            !queues[q].release
  {
  }

  lemma OwnedNotListed(acts: Threads, t: Thread, q: QueueId, global: seq<QueueId>, live: set<QueueId>)
    requires OwnInv(acts, global, live) && t in acts && q in Owned(acts[t])
    ensures q !in global
  {
    hide Owned;
  }

  /** The owner of a queue takes a message. */
  lemma KeepPopMessage(s: State, step: Step, q: QueueId)
    requires Inv(s) && Ready(s, step) && Safe(s, step) && (step.Pop? || step.Drop?)
    requires s.acts[step.t].q == q && q in s.queues && s.queues[q].msgs != []
    ensures Inv(Do(s, step))
  {
    hide Inv;
    var t := step.t;
    assert s.acts[t := s.acts[t]] == s.acts;
    TakenInv(s, t, if step.Drop? then s.acts[t]
                   else var Looping(q, c, w, i, n) := s.acts[t]; Popped(q, c, w, i, n, s.queues[q].msgs[0]), q);
  }

  lemma TakenInv(s: State, t: Thread, a: Activity, q: QueueId)
    requires Inv(s) && t in s.acts && q in s.queues && s.queues[q].msgs != []
    requires s.acts[t] == Dropping(q) == a
          || (s.acts[t].Looping? && a.Popped? && s.acts[t].q == a.q == q && s.acts[t].c == a.c && s.acts[t].i == a.i
              && s.acts[t].n == a.n && s.acts[t].weight == a.weight)
    ensures Inv(PopMessage(Become(s, t, a), q))
  {
    hide OwnInv, RefInv, FlagInv, LinkInv, DispatchInv, Holders, InitInv;
    var queues := s.queues[q := Popping(s.queues[q])];
    OkAt(s, t);
    FlagPop(s.queues, s.acts, t, q, s.global);
    OwnSame(s.acts, t, a, s.global, s.queues.Keys);
    if a.Dropping? { DroppingIsReleased(s, t); }
    FlagSame(queues, s.acts, t, a, s.global);
    RefSame(s.acts, t, a, s.ctxs, s.slots, s.deleted);
    HeldInContexts(s);
    assert queues.Keys == s.queues.Keys;
    LinkTake(s.queues, s.ctxs, s.freed, q);
    SoleOwner(s.acts, t, q, s.global, s.queues.Keys);
    InitSame(s.acts, t, a, s.ctxs, s.slots, s.ctxs, s.slots);
    DispatchOthers(s.queues, s.ctxs, queues, s.ctxs, s.acts, t, a);
  }

  lemma LinkTake(queues: Queues, ctxs: Contexts, freed: set<QueueId>, q: QueueId)
    requires LinkInv(queues, ctxs, freed) && q in queues && queues[q].msgs != []
    ensures LinkInv(queues[q := queues[q].(msgs := queues[q].msgs[1..])], ctxs, freed)
  {
  }

  lemma SoleOwner(acts: Threads, t: Thread, q: QueueId, global: seq<QueueId>, live: set<QueueId>)
    requires OwnInv(acts, global, live) && t in acts && q in Owned(acts[t])
    ensures forall u :: u in acts && u != t ==> q !in Owned(acts[u])
  {
    hide Owned;
  }

  lemma DroppingIsReleased(s: State, t: Thread)
    requires Inv(s) && t in s.acts && Drops(s.acts[t])
    ensures s.queues[s.acts[t].q].release
  {
  }

  /** The dropping worker finds the released queue empty. */
  lemma KeepDropEmpty(s: State, t: Thread, q: QueueId)
    requires Inv(s) && Ready(s, Drop(t)) && Safe(s, Drop(t)) && s.acts[t].q == q && q in s.queues
             && s.queues[q].msgs == []
    ensures Inv(Do(s, Drop(t)))
  {
    hide Inv;
    EmptiedInv(s, t, q);
  }

  lemma EmptiedInv(s: State, t: Thread, q: QueueId)
    requires Inv(s) && t in s.acts && s.acts[t] == Dropping(q) && q in s.queues && s.queues[q].msgs == []
    ensures Inv(PopMessage(Become(s, t, Dropped(q)), q))
  {
    hide OwnInv, RefInv, FlagInv, LinkInv, DispatchInv, Holders, InitInv;
    var a, queues := Dropped(q), s.queues[q := s.queues[q].(inGlobal := false)];
    DroppingIsReleased(s, t);
    FlagUnlist(s.queues, s.acts, q, s.global);
    LinkListed(s.queues, s.ctxs, s.freed, q);
    OwnSame(s.acts, t, a, s.global, s.queues.Keys);
    FlagSame(queues, s.acts, t, a, s.global);
    RefSame(s.acts, t, a, s.ctxs, s.slots, s.deleted);
    HeldInContexts(s);
    assert queues.Keys == s.queues.Keys;
    InitSame(s.acts, t, a, s.ctxs, s.slots, s.ctxs, s.slots);
    DispatchOthers(s.queues, s.ctxs, queues, s.ctxs, s.acts, t, a);
  }

  lemma FlagUnlist(queues: Queues, acts: Threads, q: QueueId, global: seq<QueueId>)
    requires FlagInv(queues, acts, global) && q in queues && queues[q].release
    ensures FlagInv(queues[q := queues[q].(inGlobal := false)], acts, global)
  {
    hide Owned, OwnedBySome;
  }

  /** uboss_mq_release of a released queue: the worker starts to drop it. */
  lemma KeepReleaseQueue(s: State, t: Thread, q: QueueId)
    requires t in s.acts && s.acts[t] == At(Discard(q)) && q in s.queues && s.queues[q].release
    requires Ready(s, ReleaseQueue(t)) && Safe(s, ReleaseQueue(t)) && Inv(s)
    ensures Inv(Do(s, ReleaseQueue(t)))
  {
    hide OwnInv, RefInv, LinkInv, FlagInv, DispatchInv, Holders, InitInv;
    var a := Do(s, ReleaseQueue(t)).acts[t];
    OwnSame(s.acts, t, a, s.global, s.queues.Keys);
    FlagSame(s.queues, s.acts, t, a, s.global);
    RefSame(s.acts, t, a, s.ctxs, s.slots, s.deleted);
    HeldInContexts(s);
    InitSame(s.acts, t, a, s.ctxs, s.slots, s.ctxs, s.slots);
    DispatchOthers(s.queues, s.ctxs, s.queues, s.ctxs, s.acts, t, a);
  }

  lemma KeepFreeQueue(s: State, t: Thread)
    requires Inv(s) && Ready(s, FreeQueue(t)) && Safe(s, FreeQueue(t))
    ensures Inv(Do(s, FreeQueue(t)))
  {
    hide RefInv, FlagInv, LinkInv, Holders, InitInv;
    var s' := Do(s, FreeQueue(t));
    var a, q := s'.acts[t], s.acts[t].q;
    DroppingIsReleased(s, t);
    OwnForget(s.acts, t, a, q, s.global, s.queues.Keys);
    assert s'.queues.Keys == s.queues.Keys - {q};
    FlagFree(s.queues, s.acts, t, a, q, s.global);
    LinkFreeQueue(s.queues, s.ctxs, s.freed, q);
    RefSame(s.acts, t, a, s.ctxs, s.slots, s.deleted);
    HeldInContexts(s);
    assert forall u :: u in s.acts && u != t ==> q !in Owned(s.acts[u]);
    InitSame(s.acts, t, a, s.ctxs, s.slots, s'.ctxs, s'.slots);
    DispatchOthers(s.queues, s.ctxs, s'.queues, s.ctxs, s.acts, t, a);
  }

  lemma FlagFree(queues: Queues, acts: Threads, t: Thread, a: Activity, q: QueueId, global: seq<QueueId>)
    requires FlagInv(queues, acts, global) && OwnInv(acts, global, queues.Keys) && t in acts && q in queues
    requires q in Owned(acts[t]) && Owned(a) == Owned(acts[t]) - {q} && !Drops(a)
    ensures FlagInv(queues - {q}, acts[t := a], global)
  {
    hide Owned, OwnedBySome;
    forall p | OwnedBySome(acts, p) && p != q ensures OwnedBySome(acts[t := a], p) { SomeStays(acts, t, a, p); }
  }

  lemma LinkFreeQueue(queues: Queues, ctxs: Contexts, freed: set<QueueId>, q: QueueId)
    requires LinkInv(queues, ctxs, freed) && q in queues && queues[q].release
    ensures LinkInv(queues - {q}, ctxs, freed + {q})
  {
  }

  /** A new context with its queue, known to its creator and to the handle table. */
  lemma KeepNew(s: State, step: Step)
    requires Inv(s) && Ready(s, step) && Safe(s, step) && step.New?
    ensures Inv(Do(s, step))
  {
    hide RefInv, FlagInv, LinkInv, OwnInv, DispatchInv, Holders, InitInv;
    var New(t, c, q, h) := step;
    var s' := Do(s, step);
    var a := s'.acts[t];
    OwnCreate(s.acts, t, a, q, s.global, s.queues.Keys);
    assert s'.queues.Keys == s.queues.Keys + {q};
    RefNew(s.acts, t, a, c, s'.ctxs[c], s.ctxs, s.slots, s.deleted);
    LinkNew(s.queues, s.ctxs, s.freed, q, c, h);
    HeldInContexts(s);
    RunListIsAlive(s);
    FlagNew(s.queues, s.acts, t, a, q, s'.queues[q], s.global);
    InitNew(s.acts, t, a, c, s'.ctxs[c], s.ctxs, s.slots);
    DispatchOthers(s.queues, s.ctxs, s'.queues, s'.ctxs, s.acts, t, a);
  }

  lemma InitNew(acts: Threads, t: Thread, a: Activity, c: ContextId, x: Context, ctxs: Contexts, slots: Slots)
    requires InitInv(acts, ctxs, slots) && t in acts && c !in ctxs && x.handle !in slots && Prepares(a, x.queue)
    requires forall q :: Prepares(acts[t], q) ==> Prepares(a, q)
    ensures InitInv(acts[t := a], ctxs[c := x], slots[x.handle := c])
  {
    hide Prepares;
    assert t in acts[t := a] && Prepares(acts[t := a][t], x.queue);
    forall q | SomePrepares(acts, q) ensures SomePrepares(acts[t := a], q) { PreparerStays(acts, t, a, q); }
  }

  lemma RunListIsAlive(s: State)
    requires Inv(s)
    ensures forall q :: q in s.global ==> q in s.queues
  {
    hide RefInv, FlagInv, LinkInv, DispatchInv;
  }

  lemma LinkNew(queues: Queues, ctxs: Contexts, freed: set<QueueId>, q: QueueId, c: ContextId, h: Handle)
    requires LinkInv(queues, ctxs, freed) && q !in queues && q !in freed && c !in ctxs
    requires forall k :: k in queues ==> queues[k].handle != h
    ensures LinkInv(queues[q := Queue(h, c, [], true, false)], ctxs[c := Context(h, q, 2, false, false)], freed)
  {
  }

  lemma FlagNew(queues: Queues, acts: Threads, t: Thread, a: Activity, q: QueueId, x: Queue, global: seq<QueueId>)
    requires FlagInv(queues, acts, global) && t in acts && q !in queues && q !in global && q in Owned(a)
    requires Owned(a) == Owned(acts[t]) + {q} && !Drops(a) && forall u :: u in acts ==> q !in Owned(acts[u])
    requires x.inGlobal
    ensures FlagInv(queues[q := x], acts[t := a], global)
  {
    hide Owned, OwnedBySome;
    forall p | OwnedBySome(acts, p) ensures OwnedBySome(acts[t := a], p) { SomeStays(acts, t, a, p); }
    SomeOwns(acts[t := a], t, q);
  }

  lemma KeepSpawn(s: State, t: Thread)
    requires Inv(s) && Ready(s, Spawn(t))
    ensures Inv(Do(s, Spawn(t)))
  {
    hide OwnInv, RefInv, FlagInv, LinkInv, DispatchInv, InitInv;
    SpawnOwn(s.acts, t, s.global, s.queues.Keys);
    SpawnRef(s.acts, t, s.ctxs, s.slots, s.deleted);
    SpawnFlag(s.queues, s.acts, t, s.global);
    SpawnDispatch(s.queues, s.ctxs, s.acts, t);
    SpawnInit(s.acts, t, s.ctxs, s.slots);
  }

  lemma SpawnOwn(acts: Threads, t: Thread, global: seq<QueueId>, live: set<QueueId>)
    requires OwnInv(acts, global, live) && t !in acts
    ensures OwnInv(acts[t := At(Idle)], global, live)
  {
    assert Owned(At(Idle)) == {};
    hide Owned;
  }

  lemma SpawnRef(acts: Threads, t: Thread, ctxs: Contexts, slots: Slots, deleted: set<ContextId>)
    requires RefInv(acts, ctxs, slots, deleted) && t !in acts
    ensures RefInv(acts[t := At(Idle)], ctxs, slots, deleted)
  {
    assert Held(At(Idle)).None? && Deletes(At(Idle)).None?;
    hide Held, Deletes, Holders;
    var now := acts[t := At(Idle)];
    forall c: ContextId | SomeDeletes(acts, c) ensures SomeDeletes(now, c) {
      var u :| u in acts && Deletes(acts[u]) == Some(c);
      assert u in now && Deletes(now[u]) == Some(c);
    }
    forall c { SpawnHolders(acts, t, c); }
  }

  lemma SpawnHolders(acts: Threads, t: Thread, c: ContextId)
    requires t !in acts
    ensures Holders(acts[t := At(Idle)], c) == Holders(acts, c)
  {
  }

  lemma SpawnFlag(queues: Queues, acts: Threads, t: Thread, global: seq<QueueId>)
    requires FlagInv(queues, acts, global) && t !in acts
    ensures FlagInv(queues, acts[t := At(Idle)], global)
  {
    assert Owned(At(Idle)) == {};
    hide Owned, Wanted;
    var acts' := acts[t := At(Idle)];
    forall q | OwnedBySome(acts, q) ensures OwnedBySome(acts', q) {
      var u :| u in acts && q in Owned(acts[u]);
      assert u in acts' && q in Owned(acts'[u]);
    }
  }

  lemma SpawnInit(acts: Threads, t: Thread, ctxs: Contexts, slots: Slots)
    requires InitInv(acts, ctxs, slots) && t !in acts
    ensures InitInv(acts[t := At(Idle)], ctxs, slots)
  {
    hide Prepares;
    var now := acts[t := At(Idle)];
    forall q | SomePrepares(acts, q) ensures SomePrepares(now, q) {
      var u :| u in acts && Prepares(acts[u], q);
      assert u in now && Prepares(now[u], q);
    }
  }

  lemma SpawnDispatch(queues: Queues, ctxs: Contexts, acts: Threads, t: Thread)
    requires DispatchInv(queues, ctxs, acts) && t !in acts
    ensures DispatchInv(queues, ctxs, acts[t := At(Idle)])
  {
  }

  /** The steps that branch. */
  lemma KeepBranch(s: State, step: Step)
    requires Inv(s) && Ready(s, step) && Safe(s, step)
    requires step.RetireOwn? || step.GrabToDispatch? || step.TakeNext? || step.ReleaseQueue?
    ensures Inv(Do(s, step))
  {
    hide Inv, Do;
    match step
    case RetireOwn(t) =>
      OkAt(s, t);
      if s.acts[t].next.h in s.slots { KeepRetire(s, step); } else { KeepNoContext(s, step, s.acts[t].next.q); }
    case GrabToDispatch(t, _) =>
      var q := s.acts[t].next.q;
      if s.queues[q].handle in s.slots { KeepGrabToDispatch(s, step, q); } else { KeepNoContext(s, step, q); }
    case TakeNext(t) => if s.global == [] { KeepTakeNothing(s, t); } else { KeepTake(s, step); }
    case ReleaseQueue(t) =>
      var q := s.acts[t].next.q;
      if s.queues[q].release { KeepReleaseQueue(s, t, q); } else { KeepGive(s, step); }
  }

  lemma KeepPop(s: State, step: Step)
    requires Inv(s) && Ready(s, step) && Safe(s, step) && (step.Pop? || step.Drop?)
    ensures Inv(Do(s, step))
  {
    hide Inv, Do;
    var q := s.acts[step.t].q;
    if s.queues[q].msgs != [] {
      KeepPopMessage(s, step, q);
    } else if step.Pop? {
      KeepPopEmpty(s, step.t, q);
    } else {
      KeepDropEmpty(s, step.t, q);
    }
  }

  /** Every step from a state that satisfies the invariant leads to such a state, and touches
      live memory only, apart from the two uses of a context after the release by its creator. */
  lemma StepKeepsInv(s: State, step: Step)
    requires Inv(s) && Ready(s, step)
    ensures Tolerable(s, step) && Inv(Do(s, step))
  {
    hide Inv, Do, Safe, Ready;
    if !AfterRelease(step) { StepIsSafe(s, step); }
    match step
    case Spawn(t) => KeepSpawn(s, t);
    case New(_, _, _, _) => KeepNew(s, step);
    case InitDone(_, _) | Done(_) | Dispatch(_) => KeepControl(s, step);
    case SetInit(t) => KeepSetInit(s, t);
    case LogLaunch(t) => KeepLogLaunch(s, t);
    case LaunchQueue(_) | PushBack(_) => KeepGive(s, step);
    case Retire(_, _) => KeepRetire(s, step);
    case GrabToSend(_, _, _) | Reserve(_, _) => KeepGrab(s, step);
    case Push(_) | PushKept(_, _) => KeepPush(s, step);
    case Release(t) => KeepRelease(s, t);
    case MarkRelease(t) => KeepMarkRelease(s, t);
    case FreeContext(t) => KeepFreeContext(s, t);
    case PopGlobal(_) => KeepTake(s, step);
    case Pop(_) | Drop(_) => KeepPop(s, step);
    case RetireOwn(_) | GrabToDispatch(_, _) | TakeNext(_) | ReleaseQueue(_) => KeepBranch(s, step);
    case FreeQueue(t) => KeepFreeQueue(s, t);
  }
}
