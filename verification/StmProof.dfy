/** Every step of the snapshot protocol keeps its invariant; what follows for every run. */
module StmProof {
  import opened Wrappers
  import opened RwLock
  import opened Stm

  // Counts.

  lemma LastsChange(acts: Acts, t: Thread, a: Act, c: CopyId)
    requires t in acts
    ensures |Lasts(acts[t := a], c)| == |Lasts(acts, c)| - (if acts[t].last == Some(c) then 1
                                                            else 0) + if a.last == Some(c) then 1 else 0
  {
    var rest := Lasts(acts, c) - {t};
    assert Lasts(acts, c) == if acts[t].last == Some(c) then rest + {t} else rest;
    assert Lasts(acts[t := a], c) == if a.last == Some(c) then rest + {t} else rest;
  }

  lemma GotsChange(acts: Acts, t: Thread, a: Act, c: CopyId)
    requires t in acts
    ensures |Gots(acts[t := a], c)|
         == |Gots(acts, c)| - (if Got(acts[t].job) == Some(c) then 1 else 0) + if Got(a.job) == Some(c) then 1 else 0
  {
    hide Got;
    var rest := Gots(acts, c) - {t};
    assert Gots(acts, c) == if Got(acts[t].job) == Some(c) then rest + {t} else rest;
    assert Gots(acts[t := a], c) == if Got(a.job) == Some(c) then rest + {t} else rest;
  }

  lemma TotalChange(acts: Acts, t: Thread, a: Act, c: CopyId)
    requires t in acts
    ensures Total(acts[t := a], c) == Total(acts, c) - Weight(acts[t], c) + Weight(a, c)
    ensures Total(acts, c) >= Weight(acts[t], c)
  {
    hide Got, Lasts, Gots;
    LastsChange(acts, t, a, c);
    GotsChange(acts, t, a, c);
    var none := Act(a.writer, None, Rest);
    assert Weight(none, c) == 0 by { WeightNone(none, c); }
    LastsChange(acts, t, none, c);
    GotsChange(acts, t, none, c);
  }

  lemma WeightNone(a: Act, c: CopyId)
    requires a.last.None? && a.job.Rest?
    ensures Weight(a, c) == 0
  {
  }

  /** The thread exchanges its references but keeps their number. */
  lemma CountSame(acts: Acts, t: Thread, a: Act, copy: Ptr, owned: bool, copies: Copies, freed: set<CopyId>)
    requires CountInv(acts, copy, owned, copies, freed) && t in acts
    requires Frees(a.job).None? && forall c :: Weight(a, c) == Weight(acts[t], c)
    ensures CountInv(acts[t := a], copy, owned, copies, freed)
  {
    hide Total, Weight, Frees;
    forall c { TotalChange(acts, t, a, c); }
  }

  /** A reference is taken from or passed to the pointer of the object. */
  lemma CountUp(acts: Acts, t: Thread, a: Act, c: CopyId, copy: Ptr, owned: bool, copies: Copies, freed: set<CopyId>)
    requires CountInv(acts, copy, owned, copies, freed) && t in acts && owned && copy == Some(c)
    requires Frees(a.job).None? && forall d :: Weight(a, d) == Weight(acts[t], d) + if d == c then 1 else 0
    ensures c in copies && CountInv(acts[t := a], copy, owned, copies[c := copies[c] + 1], freed)
  {
    hide Total, Weight, Frees;
    forall d { TotalChange(acts, t, a, d); }
  }

  lemma CountDown(acts: Acts, t: Thread, a: Act, c: CopyId, copy: Ptr, owned: bool, copies: Copies, freed: set<CopyId>)
    requires CountInv(acts, copy, owned, copies, freed) && t in acts && c in copies
    requires Frees(acts[t].job).None? && Frees(a.job) == (if copies[c] == 1 then Some(c) else None)
    requires forall d :: Weight(acts[t], d) == Weight(a, d) + if d == c then 1 else 0
    ensures CountInv(acts[t := a], copy, owned, copies[c := copies[c] - 1], freed)
  {
    hide Total, Weight, Frees;
    forall d { TotalChange(acts, t, a, d); }
  }

  lemma CountFree(acts: Acts, t: Thread, a: Act, c: CopyId, copy: Ptr, owned: bool, copies: Copies, freed: set<CopyId>)
    requires CountInv(acts, copy, owned, copies, freed) && t in acts
    requires Frees(acts[t].job) == Some(c) && Frees(a.job).None? && forall d :: Weight(a, d) == Weight(acts[t], d)
    ensures c in copies && CountInv(acts[t := a], copy, owned, copies - {c}, freed + {c})
  {
    hide Total, Weight, Frees;
    forall d { TotalChange(acts, t, a, d); }
  }

  lemma CountNew(acts: Acts, t: Thread, a: Act, c: CopyId, copy: Ptr, owned: bool, copies: Copies, freed: set<CopyId>)
    requires CountInv(acts, copy, owned, copies, freed) && t in acts && c !in copies && c !in freed
    requires Frees(acts[t].job).None? && Frees(a.job).None?
    requires forall d :: Weight(a, d) == Weight(acts[t], d) + if d == c then 1 else 0
    ensures CountInv(acts[t := a], copy, owned, copies[c := 1], freed)
  {
    hide Total, Weight, Frees;
    forall d { TotalChange(acts, t, a, d); }
  }

  /** The writer exchanges its new snapshot with the one that the object points to. */
  lemma CountSwap(acts: Acts, t: Thread, a: Act, c: CopyId, copy: Ptr, copies: Copies, freed: set<CopyId>)
    requires CountInv(acts, copy, true, copies, freed) && t in acts && Total(acts, c) > 0
    requires Frees(acts[t].job).None? && Frees(a.job).None?
    requires forall d :: Weight(a, d) + (if d == c then 1 else 0) == Weight(acts[t], d) + if copy == Some(d) then 1
             else 0
    ensures CountInv(acts[t := a], Some(c), true, copies, freed)
  {
    hide Total, Weight, Frees;
    forall d { TotalChange(acts, t, a, d); }
  }

  /** The object gives up its reference. */
  lemma CountQuit(acts: Acts, t: Thread, a: Act, c: CopyId, copies: Copies, freed: set<CopyId>)
    requires CountInv(acts, Some(c), true, copies, freed) && t in acts
    requires Frees(acts[t].job).None? && Frees(a.job) == (if copies[c] == 1 then Some(c) else None)
    requires forall d :: Weight(a, d) == Weight(acts[t], d)
    ensures CountInv(acts[t := a], Some(c), false, copies[c := copies[c] - 1], freed)
  {
    hide Total, Weight, Frees;
    forall d { TotalChange(acts, t, a, d); }
  }

  // The object.

  lemma RefsChange(acts: Acts, t: Thread, a: Act)
    requires t in acts
    ensures |Refs(acts[t := a])| == |Refs(acts)| - (if HasRef(acts[t]) then 1 else 0) + if HasRef(a) then 1 else 0
  {
    hide HasRef;
    var rest := Refs(acts) - {t};
    assert Refs(acts) == if HasRef(acts[t]) then rest + {t} else rest;
    assert Refs(acts[t := a]) == if HasRef(a) then rest + {t} else rest;
  }

  lemma ProvidesChange(acts: Acts, t: Thread, a: Act)
    requires t in acts && (forall u :: u in acts && acts[u].writer && acts[t].writer ==> u == t)
             && a.writer == acts[t].writer
    ensures SomeProvides(acts[t := a]) == if acts[t].writer then Provides(a) else SomeProvides(acts)
  {
    hide HasRef;
    var now := acts[t := a];
    if Provides(a) { assert Provides(now[t]); }
    if SomeProvides(acts) {
      var u :| u in acts && Provides(acts[u]);
      if !acts[t].writer { assert Provides(now[u]); }
    }
  }

  ghost predicate KindOk(a: Act) {
    (ForWriter(a.job) ==> a.writer) && (ForReader(a.job) ==> !a.writer)
  }

  lemma ObjectStep(acts: Acts, t: Thread, a: Act, reference: int, tokens: nat, objFreed: bool, copy: Ptr,
                   reference': int, tokens': nat, objFreed': bool, copy': Ptr)
    requires ObjectInv(acts, reference, tokens, objFreed, copy) && t in acts && a.writer == acts[t].writer && KindOk(a)
    requires HasRef(acts[t])|| !HasRef(a)
    requires reference' - tokens' == reference - tokens - if HasRef(acts[t]) && !HasRef(a) then 1 else 0
    requires objFreed' <==> reference' == 0
    requires copy'.Some? == if acts[t].writer then Provides(a) else copy.Some?
    ensures ObjectInv(acts[t := a], reference', tokens', objFreed', copy')
  {
    hide Refs, HasRef, Provides, SomeProvides, ForWriter, ForReader;
    RefsChange(acts, t, a);
    ProvidesChange(acts, t, a);
  }

  // Pointers and phases.

  lemma QuitsChange(acts: Acts, t: Thread, a: Act)
    requires t in acts
    ensures Quits(a.job) ==> SomeQuits(acts[t := a])
    ensures Quits(a.job) == Quits(acts[t].job) ==> SomeQuits(acts[t := a]) == SomeQuits(acts)
    ensures (forall u :: u in acts && u != t ==> !Quits(acts[u].job)) ==> SomeQuits(acts[t := a]) == Quits(a.job)
  {
    var now := acts[t := a];
    if Quits(a.job) { assert Quits(now[t].job); }
    if SomeQuits(acts) {
      var u :| u in acts && Quits(acts[u].job);
      assert u != t ==> Quits(now[u].job);
    }
  }

  lemma PeekSame(acts: Acts, t: Thread, a: Act, copy: Ptr, owned: bool)
    requires PeekInv(acts, copy, owned) && t in acts && Quits(a.job) == Quits(acts[t].job)
    requires a.job.CopyPeek? || a.job.UpdateSwap? ==> a.job.peek == copy && owned
    ensures PeekInv(acts[t := a], copy, owned)
  {
    hide Quits, SomeQuits;
    QuitsChange(acts, t, a);
  }

  /** A thread that has the lock for writing changes the pointer. */
  lemma PeekWrite(acts: Acts, t: Thread, a: Act, copy: Ptr, owned: bool)
    requires t in acts && !a.job.CopyPeek? && !a.job.UpdateSwap? && owned == !Quits(a.job)
    requires forall u :: u in acts && u != t ==>
               !Quits(acts[u].job) && !acts[u].job.CopyPeek? && !acts[u].job.UpdateSwap?
    ensures PeekInv(acts[t := a], copy, owned)
  {
    hide Quits, SomeQuits;
    QuitsChange(acts, t, a);
  }

  lemma PhaseSame(lock: Lock, acts: Acts, t: Thread, a: Act)
    requires PhaseInv(lock, acts) && t in acts && PhaseOk(a.job, lock.at[t])
    ensures PhaseInv(lock, acts[t := a])
  {
    hide PhaseOk, LockInv;
  }

  lemma PhaseMove(lock: Lock, acts: Acts, t: Thread, a: Act, m: Move)
    requires PhaseInv(lock, acts) && t in acts && CanMove(lock, t, m) && PhaseOk(a.job, Moved(lock, t, m).at[t])
    ensures PhaseInv(Moved(lock, t, m), acts[t := a])
  {
    hide PhaseOk, LockInv;
    MoveKeepsInv(lock, t, m);
  }

  /** While a thread writes, no other thread has read the pointer under the lock or is
      clearing it; while it reads, nobody is clearing it. */
  lemma Exclusive(lock: Lock, acts: Acts, t: Thread)
    requires PhaseInv(lock, acts) && t in acts
    ensures lock.at[t].Writing? ==>
              forall u :: u in acts && u != t ==>
                !Quits(acts[u].job) && !acts[u].job.CopyPeek? && !acts[u].job.UpdateSwap? && !acts[u].job.QuitUnlock?
    ensures lock.at[t].Reading? ==> forall u :: u in acts ==> !Quits(acts[u].job) && !acts[u].job.QuitUnlock?
  {
    forall u | u in acts && u != t && lock.at[t].Writing?
      ensures !Quits(acts[u].job) && !acts[u].job.CopyPeek? && !acts[u].job.UpdateSwap? && !acts[u].job.QuitUnlock?
    {
      assert PhaseOk(acts[u].job, lock.at[u]);
    }
    forall u | u in acts && lock.at[t].Reading? ensures !Quits(acts[u].job)
        && !acts[u].job.QuitUnlock? { assert PhaseOk(acts[u].job, lock.at[u]); }
  }

  /** The object's pointer is cleared. */
  lemma CountNull(acts: Acts, t: Thread, a: Act, copy: Ptr, copies: Copies, freed: set<CopyId>)
    requires CountInv(acts, copy, false, copies, freed) && t in acts
    requires Frees(acts[t].job).None? && Frees(a.job).None? && forall d :: Weight(a, d) == Weight(acts[t], d)
    ensures CountInv(acts[t := a], None, true, copies, freed)
  {
    hide Total, Weight, Frees;
    forall d { TotalChange(acts, t, a, d); }
  }

  // Steps.

  /** What the invariant says about one thread. */
  lemma Facts(s: State, t: Thread)
    requires Inv(s) && t in s.acts
    ensures t in s.lock.at && PhaseOk(s.acts[t].job, s.lock.at[t]) && KindOk(s.acts[t])
    ensures var j := s.acts[t].job; j.CopyPeek? || j.UpdateSwap? ==> j.peek == s.copy && s.owned
    ensures var j := s.acts[t].job; Quits(j) ==> !s.owned
    ensures s.acts[t].writer ==> (s.copy.Some? <==> Provides(s.acts[t]))
    ensures s.objFreed <==> s.reference == 0
    ensures HasRef(s.acts[t]) ==> s.reference > 0
  {
    hide CountInv, LockInv, PhaseOk, Quits, HasRef, ForWriter, ForReader;
    var a := s.acts[t];
    assert HasRef(a) ==> t in Refs(s.acts);
    if s.copy.Some? {
      var u :| u in s.acts && Provides(s.acts[u]);
    }
    assert Provides(a) ==> SomeProvides(s.acts);
    assert Quits(a.job) ==> SomeQuits(s.acts);
  }

  /** What it says to a thread that has the lock. */
  lemma FactsInside(s: State, t: Thread)
    requires Inv(s) && t in s.acts
    ensures t in s.lock.at
    ensures s.lock.at[t].Writing? ==>
              forall u :: u in s.acts && u != t ==>
                !Quits(s.acts[u].job) && !s.acts[u].job.CopyPeek? && !s.acts[u].job.UpdateSwap?
    ensures s.lock.at[t].Reading? || (s.lock.at[t].Writing? && !Quits(s.acts[t].job)) ==> s.owned
    ensures s.lock.at[t].Reading? || s.lock.at[t].Writing? ==> forall u :: u in s.acts && u != t ==>
            !s.acts[u].job.QuitUnlock?
  {
    hide CountInv, ObjectInv, LockInv, Quits;
    Exclusive(s.lock, s.acts, t);
  }

  lemma KeepBegin(s: State, step: Step)
    requires Inv(s) && Ready(s, step) && Safe(s, step) && step.Begin? && !step.job.UpdateWant?
    ensures Inv(Do(s, step))
  {
    hide CountInv, ObjectInv, PeekInv, PhaseInv, LockInv;
    var t, s' := step.t, Do(s, step);
    var a := s'.acts[t];
    Facts(s, t);
    CountSame(s.acts, t, a, s.copy, s.owned, s.copies, s.freed);
    PeekSame(s.acts, t, a, s.copy, s.owned);
    ObjectStep(s.acts, t, a, s.reference, s.tokens, s.objFreed, s.copy, s'.reference, s'.tokens, s'.objFreed, s'.copy);
    PhaseSame(s.lock, s.acts, t, a);
  }

  lemma KeepLockMove(s: State, t: Thread, m: Move)
    requires Inv(s) && Ready(s, LockMove(t, m)) && Safe(s, LockMove(t, m))
    ensures Inv(Do(s, LockMove(t, m)))
  {
    hide CountInv, ObjectInv, PeekInv, PhaseInv, LockInv;
    var s' := Do(s, LockMove(t, m));
    var a := s'.acts[t];
    Facts(s, t);
    assert s.acts[t := a] == s'.acts;
    CountSame(s.acts, t, a, s.copy, s.owned, s.copies, s.freed);
    PeekSame(s.acts, t, a, s.copy, s.owned);
    ObjectStep(s.acts, t, a, s.reference, s.tokens, s.objFreed, s.copy, s'.reference, s'.tokens, s'.objFreed, s'.copy);
    PhaseMove(s.lock, s.acts, t, a, m);
  }

  /** Work inside the lock that keeps the number of references to every snapshot. */
  lemma KeepInside(s: State, t: Thread)
    requires Inv(s) && Ready(s, Work(t)) && Safe(s, Work(t))
    requires var j := s.acts[t].job;
             j.CopyWant? || j.GrabWant? || j.LeaveWant? || j.UpdateWant? || j.QuitCount?
                 || (j.CopyPeek? && j.peek.None?)
    ensures Inv(Worked(s, t))
  {
    hide Inv, Worked;
    var j := s.acts[t].job;
    if j.GrabWant? || j.LeaveWant? || j.QuitCount? { KeepObjectCount(s, t); } else { KeepPeeking(s, t); }
  }

  /** The pointer of the object is read. */
  lemma KeepPeeking(s: State, t: Thread)
    requires Inv(s) && Ready(s, Work(t)) && Safe(s, Work(t))
    requires var j := s.acts[t].job; j.CopyWant? || j.UpdateWant? || (j.CopyPeek? && j.peek.None?)
    ensures Inv(Worked(s, t))
  {
    hide CountInv, ObjectInv, PeekInv, PhaseInv, LockInv;
    var s' := Worked(s, t);
    var a := s'.acts[t];
    Facts(s, t);
    FactsInside(s, t);
    CountSame(s.acts, t, a, s.copy, s.owned, s.copies, s.freed);
    PeekSame(s.acts, t, a, s.copy, s.owned);
    ObjectStep(s.acts, t, a, s.reference, s.tokens, s.objFreed, s.copy, s'.reference, s'.tokens, s'.objFreed, s'.copy);
    PhaseSame(s.lock, s.acts, t, a);
  }

  /** The count of the object is changed. */
  lemma KeepObjectCount(s: State, t: Thread)
    requires Inv(s) && Ready(s, Work(t)) && Safe(s, Work(t))
    requires var j := s.acts[t].job; j.GrabWant? || j.LeaveWant? || j.QuitCount?
    ensures Inv(Worked(s, t))
  {
    hide CountInv, ObjectInv, PeekInv, PhaseInv, LockInv;
    var s' := Worked(s, t);
    var a := s'.acts[t];
    Facts(s, t);
    FactsInside(s, t);
    CountSame(s.acts, t, a, s.copy, s.owned, s.copies, s.freed);
    PeekSame(s.acts, t, a, s.copy, s.owned);
    ObjectStep(s.acts, t, a, s.reference, s.tokens, s.objFreed, s.copy, s'.reference, s'.tokens, s'.objFreed, s'.copy);
    PhaseSame(s.lock, s.acts, t, a);
  }

  /** And outside: references move between the places where a reader keeps them. */
  lemma KeepOutside(s: State, t: Thread)
    requires Inv(s) && Ready(s, Work(t)) && Safe(s, Work(t))
    requires var j := s.acts[t].job; j.CopyCompare? || j.LeaveDrop? || (j.Drop? && j.got.None?)
    ensures Inv(Worked(s, t))
  {
    hide CountInv, ObjectInv, PeekInv, PhaseInv, LockInv;
    var s' := Worked(s, t);
    var a := s'.acts[t];
    Facts(s, t);
    CountSame(s.acts, t, a, s.copy, s.owned, s.copies, s.freed);
    PeekSame(s.acts, t, a, s.copy, s.owned);
    ObjectStep(s.acts, t, a, s.reference, s.tokens, s.objFreed, s.copy, s'.reference, s'.tokens, s'.objFreed, s'.copy);
    PhaseSame(s.lock, s.acts, t, a);
  }

  /** A snapshot is made, counted once more, counted once less, or freed. */
  lemma KeepCounting(s: State, step: Step)
    requires Inv(s) && Ready(s, step) && Safe(s, step)
    requires (step.Begin? && step.job.UpdateWant?)
          || (step.Work? && var j := s.acts[step.t].job;
              (j.CopyPeek? && j.peek.Some?) || (j.Drop? && j.got.Some?) || Frees(j).Some?)
    ensures Inv(Do(s, step))
  {
    hide Inv, Do, Worked;
    if step.Begin? {
      KeepMaking(s, step.t, step.job.copy);
    } else if s.acts[step.t].job.CopyPeek? {
      KeepUp(s, step.t);
    } else if s.acts[step.t].job.Drop? {
      KeepDown(s, step.t);
    } else {
      KeepFreeing(s, step.t);
    }
  }

  lemma KeepMaking(s: State, t: Thread, c: CopyId)
    requires Inv(s) && Ready(s, Begin(t, UpdateWant(c))) && Safe(s, Begin(t, UpdateWant(c)))
    ensures Inv(Do(s, Begin(t, UpdateWant(c))))
  {
    hide CountInv, ObjectInv, PeekInv, PhaseInv, LockInv;
    var s' := Do(s, Begin(t, UpdateWant(c)));
    var a := s'.acts[t];
    Facts(s, t);
    CountNew(s.acts, t, a, c, s.copy, s.owned, s.copies, s.freed);
    CountedStep(s, t, a);
  }

  /** The other layers, for a thread that counts or frees a snapshot. */
  lemma CountedStep(s: State, t: Thread, a: Act)
    requires Inv(s) && t in s.acts && a.writer == s.acts[t].writer && KindOk(a) && PhaseOk(a.job, s.lock.at[t])
    requires HasRef(a) == HasRef(s.acts[t]) && Provides(a) == Provides(s.acts[t]) && !a.job.QuitUnlock?
    requires Quits(a.job) == Quits(s.acts[t].job) && !a.job.CopyPeek? && !a.job.UpdateSwap?
    ensures PeekInv(s.acts[t := a], s.copy, s.owned) && PhaseInv(s.lock, s.acts[t := a])
    ensures ObjectInv(s.acts[t := a], s.reference, s.tokens, s.objFreed, s.copy)
            && UnlockInv(s.acts[t := a], s.objFreed)
  {
    hide CountInv, ObjectInv, PeekInv, PhaseInv, LockInv, PhaseOk, HasRef, Provides, Quits, KindOk;
    Facts(s, t);
    PeekSame(s.acts, t, a, s.copy, s.owned);
    ObjectStep(s.acts, t, a, s.reference, s.tokens, s.objFreed, s.copy, s.reference, s.tokens, s.objFreed, s.copy);
    PhaseSame(s.lock, s.acts, t, a);
  }

  lemma KeepUp(s: State, t: Thread)
    requires Inv(s) && Ready(s, Work(t)) && Safe(s, Work(t)) && s.acts[t].job.CopyPeek? && s.acts[t].job.peek.Some?
    ensures Inv(Do(s, Work(t)))
  {
    hide CountInv, ObjectInv, PeekInv, PhaseInv, LockInv;
    var a := Do(s, Work(t)).acts[t];
    Facts(s, t);
    CountUp(s.acts, t, a, s.acts[t].job.peek.value, s.copy, s.owned, s.copies, s.freed);
    CountedStep(s, t, a);
  }

  lemma KeepDown(s: State, t: Thread)
    requires Inv(s) && Ready(s, Work(t)) && Safe(s, Work(t)) && s.acts[t].job.Drop? && s.acts[t].job.got.Some?
    ensures Inv(Do(s, Work(t)))
  {
    hide CountInv, ObjectInv, PeekInv, PhaseInv, LockInv;
    var a := Do(s, Work(t)).acts[t];
    Facts(s, t);
    CountDown(s.acts, t, a, s.acts[t].job.got.value, s.copy, s.owned, s.copies, s.freed);
    CountedStep(s, t, a);
  }

  lemma KeepFreeing(s: State, t: Thread)
    requires Inv(s) && Ready(s, Work(t)) && Safe(s, Work(t)) && Frees(s.acts[t].job).Some?
    ensures Inv(Do(s, Work(t)))
  {
    hide CountInv, ObjectInv, PeekInv, PhaseInv, LockInv;
    var a := Do(s, Work(t)).acts[t];
    Facts(s, t);
    CountFree(s.acts, t, a, s.acts[t].job.c, s.copy, s.owned, s.copies, s.freed);
    CountedStep(s, t, a);
  }

  /** The writer changes the pointer of the object. */
  lemma KeepPointing(s: State, t: Thread)
    requires Inv(s) && Ready(s, Work(t)) && Safe(s, Work(t))
    requires var j := s.acts[t].job; j.UpdateSwap? || j.QuitWant? || j.QuitNull?
    ensures Inv(Worked(s, t))
  {
    hide Inv, Worked;
    var j := s.acts[t].job;
    if j.UpdateSwap? { KeepSwap(s, t); } else if j.QuitWant? { KeepQuit(s, t); } else { KeepNull(s, t); }
  }

  /** The object points to the new snapshot, and the writer has the old one. */
  lemma KeepSwap(s: State, t: Thread)
    requires Inv(s) && Ready(s, Work(t)) && Safe(s, Work(t)) && s.acts[t].job.UpdateSwap?
    ensures Inv(Worked(s, t))
  {
    hide CountInv, ObjectInv, PeekInv, PhaseInv, LockInv;
    var s' := Worked(s, t);
    var a, j := s'.acts[t], s.acts[t].job;
    Facts(s, t);
    FactsInside(s, t);
    HeldIsCounted(s.acts, t, j.copy);
    CountSwap(s.acts, t, a, j.copy, s.copy, s.copies, s.freed);
    PeekWrite(s.acts, t, a, s'.copy, s'.owned);
    ObjectStep(s.acts, t, a, s.reference, s.tokens, s.objFreed, s.copy, s'.reference, s'.tokens, s'.objFreed, s'.copy);
    PhaseSame(s.lock, s.acts, t, a);
  }

  /** The object gives up its snapshot. */
  lemma KeepQuit(s: State, t: Thread)
    requires Inv(s) && Ready(s, Work(t)) && Safe(s, Work(t)) && s.acts[t].job.QuitWant?
    ensures Inv(Worked(s, t))
  {
    hide CountInv, ObjectInv, PeekInv, PhaseInv, LockInv;
    var s' := Worked(s, t);
    var a, j := s'.acts[t], s.acts[t].job;
    Facts(s, t);
    FactsInside(s, t);
    CountQuit(s.acts, t, a, s.copy.value, s.copies, s.freed);
    PeekWrite(s.acts, t, a, s'.copy, s'.owned);
    ObjectStep(s.acts, t, a, s.reference, s.tokens, s.objFreed, s.copy, s'.reference, s'.tokens, s'.objFreed, s'.copy);
    PhaseSame(s.lock, s.acts, t, a);
  }

  /** The pointer is cleared. */
  lemma KeepNull(s: State, t: Thread)
    requires Inv(s) && Ready(s, Work(t)) && Safe(s, Work(t)) && s.acts[t].job.QuitNull?
    ensures Inv(Worked(s, t))
  {
    hide CountInv, ObjectInv, PeekInv, PhaseInv, LockInv;
    var s' := Worked(s, t);
    var a, j := s'.acts[t], s.acts[t].job;
    Facts(s, t);
    FactsInside(s, t);
    CountNull(s.acts, t, a, s.copy, s.copies, s.freed);
    PeekWrite(s.acts, t, a, s'.copy, s'.owned);
    ObjectStep(s.acts, t, a, s.reference, s.tokens, s.objFreed, s.copy, s'.reference, s'.tokens, s'.objFreed, s'.copy);
    PhaseSame(s.lock, s.acts, t, a);
  }

  lemma HeldIsCounted(acts: Acts, t: Thread, c: CopyId)
    requires t in acts && Weight(acts[t], c) > 0
    ensures Total(acts, c) > 0
  {
    TotalChange(acts, t, acts[t], c);
  }

  lemma KeepNewReader(s: State, t: Thread)
    requires Inv(s) && Ready(s, NewReader(t))
    ensures Inv(Do(s, NewReader(t)))
  {
    hide CountInv, ObjectInv, PeekInv, PhaseInv, LockInv;
    NewCount(s.acts, t, s.copy, s.owned, s.copies, s.freed);
    NewPhase(s.lock, s.acts, t);
    NewPeek(s.acts, t, s.copy, s.owned);
    NewObject(s.acts, t, s.reference, s.tokens, s.objFreed, s.copy);
  }

  function Fresh(): Act {
    Act(false, None, Rest)
  }

  lemma NewCount(acts: Acts, t: Thread, copy: Ptr, owned: bool, copies: Copies, freed: set<CopyId>)
    requires CountInv(acts, copy, owned, copies, freed) && t !in acts
    ensures CountInv(acts[t := Fresh()], copy, owned, copies, freed)
  {
    hide Total;
    forall c { NewTotal(acts, t, c); }
  }

  lemma NewPhase(lock: Lock, acts: Acts, t: Thread)
    requires PhaseInv(lock, acts) && t !in acts
    ensures PhaseInv(To(lock, t, Out), acts[t := Fresh()])
  {
    hide LockInv;
    SpawnKeepsInv(lock, t);
  }

  lemma NewPeek(acts: Acts, t: Thread, copy: Ptr, owned: bool)
    requires PeekInv(acts, copy, owned) && t !in acts
    ensures PeekInv(acts[t := Fresh()], copy, owned)
  {
    if SomeQuits(acts) {
      var u :| u in acts && Quits(acts[u].job);
      assert Quits(acts[t := Fresh()][u].job);
    }
  }

  lemma NewObject(acts: Acts, t: Thread, reference: int, tokens: nat, objFreed: bool, copy: Ptr)
    requires ObjectInv(acts, reference, tokens, objFreed, copy) && t !in acts && tokens > 0
    ensures ObjectInv(acts[t := Fresh()], reference, tokens - 1, objFreed, copy)
  {
    hide Refs, SomeProvides;
    NewRefs(acts, t);
    NewProvides(acts, t);
  }

  lemma NewRefs(acts: Acts, t: Thread)
    requires t !in acts
    ensures |Refs(acts[t := Fresh()])| == |Refs(acts)| + 1
  {
    assert HasRef(Fresh());
    hide HasRef;
    assert Refs(acts[t := Fresh()]) == Refs(acts) + {t};
  }

  lemma NewProvides(acts: Acts, t: Thread)
    requires t !in acts
    ensures SomeProvides(acts[t := Fresh()]) <==> SomeProvides(acts)
  {
    assert !Provides(Fresh());
    hide Provides;
    if SomeProvides(acts) {
      var u :| u in acts && Provides(acts[u]);
      assert Provides(acts[t := Fresh()][u]);
    }
  }

  lemma NewTotal(acts: Acts, t: Thread, c: CopyId)
    requires t !in acts
    ensures Total(acts[t := Fresh()], c) == Total(acts, c)
  {
    var now := acts[t := Fresh()];
    assert Lasts(now, c) == Lasts(acts, c);
    assert Gots(now, c) == Gots(acts, c);
  }

  /** No step touches a freed snapshot. */
  lemma StepIsSafe(s: State, step: Step)
    requires Inv(s) && Ready(s, step)
    ensures Safe(s, step)
  {
    hide Inv;
    if step.Work? { WorkIsSafe(s, step.t); }
  }

  lemma WorkIsSafe(s: State, t: Thread)
    requires Inv(s) && Ready(s, Work(t))
    ensures Safe(s, Work(t))
  {
    hide ObjectInv, PhaseInv, PeekInv, UnlockInv, LockInv, Total, Weight;
    Facts(s, t);
    FactsInside(s, t);
    var j := s.acts[t].job;
    if j.Drop? && j.got.Some? { WeightGot(s.acts[t]); HeldIsCounted(s.acts, t, j.got.value); }
  }

  lemma WeightGot(a: Act)
    requires Got(a.job).Some?
    ensures Weight(a, Got(a.job).value) > 0
  {
  }

  lemma StepKeepsInv(s: State, step: Step)
    requires Inv(s) && Ready(s, step)
    ensures Safe(s, step) && Inv(Do(s, step))
  {
    StepIsSafe(s, step);
    hide Inv, Worked, Safe;
    match step
    case NewReader(t) => KeepNewReader(s, t);
    case Begin(t, j) => if j.UpdateWant? { KeepCounting(s, step); } else { KeepBegin(s, step); }
    case LockMove(t, m) => KeepLockMove(s, t, m);
    case Work(t) =>
      var j := s.acts[t].job;
      if j.UpdateSwap? || j.QuitWant? || j.QuitNull? {
        KeepPointing(s, t);
      } else if (j.CopyPeek? && j.peek.Some?) || (j.Drop? && j.got.Some?) || Frees(j).Some? {
        KeepCounting(s, step);
      } else if j.CopyCompare? || j.LeaveDrop? || j.Drop? {
        KeepOutside(s, t);
      } else {
        KeepInside(s, t);
      }
  }

  // Runs.

  ghost predicate IsRun(states: seq<State>, steps: seq<Step>, w: Thread, c: CopyId) {
    && |states| == |steps| + 1
    && states[0] == Start(w, c)
    && forall i :: 0 <= i < |steps| ==>
         Ready(states[i], steps[i]) && (Safe(states[i], steps[i]) ==> states[i + 1] == Do(states[i], steps[i]))
  }

  lemma StartInv(w: Thread, c: CopyId)
    ensures Inv(Start(w, c))
  {
    hide CountInv, ObjectInv;
    var s := Start(w, c);
    assert s.acts[w] == Act(true, None, Rest);
    assert Count(s.lock.at) == {};
    StartCount(w, c);
    StartObject(w, c);
  }

  lemma StartCount(w: Thread, c: CopyId)
    ensures var s := Start(w, c); CountInv(s.acts, s.copy, s.owned, s.copies, s.freed)
  {
    hide Total;
    var s := Start(w, c);
    forall d ensures Total(s.acts, d) == 0 { StartTotal(w, d); }
  }

  lemma StartTotal(w: Thread, d: CopyId)
    ensures Total(map[w := Act(true, None, Rest)], d) == 0
  {
    var acts := map[w := Act(true, None, Rest)];
    assert Lasts(acts, d) == {} && Gots(acts, d) == {};
  }

  lemma StartObject(w: Thread, c: CopyId)
    ensures var s := Start(w, c); ObjectInv(s.acts, s.reference, s.tokens, s.objFreed, s.copy)
  {
    var s := Start(w, c);
    assert s.acts[w] == Act(true, None, Rest);
    assert Refs(s.acts) == {w};
    assert Provides(s.acts[w]);
  }

  /** Every state of every run satisfies the invariant, and no step touches a freed snapshot. */
  lemma {:induction false} RunKeepsInv(states: seq<State>, steps: seq<Step>, w: Thread, c: CopyId, n: nat)
    requires IsRun(states, steps, w, c) && n <= |steps|
    ensures forall i :: 0 <= i <= n ==> Inv(states[i])
    ensures forall i :: 0 <= i < n ==> Safe(states[i], steps[i]) && states[i + 1] == Do(states[i], steps[i])
  {
    hide Inv, Ready, Safe, Do;
    if n == 0 {
      StartInv(w, c);
    } else {
      RunKeepsInv(states, steps, w, c, n - 1);
      StepKeepsInv(states[n - 1], steps[n - 1]);
    }
  }

  /** What the object points to and what a reader keeps or has just got is never freed, and
      its count is the number of those that refer to it. */
  lemma ReferredIsAlive(states: seq<State>, steps: seq<Step>, w: Thread, c0: CopyId, i: nat, c: CopyId)
    requires IsRun(states, steps, w, c0) && i <= |steps|
    ensures var s := states[i];
            && (Total(s.acts, c) > 0 || (s.owned && s.copy == Some(c)) ==> c in s.copies)
            && (c in s.copies ==> c !in s.freed && s.copies[c] == Total(s.acts, c) + if s.owned && s.copy == Some(c)
                then 1 else 0)
            && forall t :: t in s.acts && (s.acts[t].last == Some(c) || Got(s.acts[t].job) == Some(c)) ==> c in s.copies
  {
    hide Total, Got;
    RunKeepsInv(states, steps, w, c0, i);
    var s := states[i];
    forall t | t in s.acts && (s.acts[t].last == Some(c) || Got(s.acts[t].job) == Some(c)) ensures Total(s.acts,
            c) > 0 {
      HeldIsCounted(s.acts, t, c);
    }
  }

  /** A snapshot is freed by one thread, when neither the object nor any thread refers to it
      and no thread has its address from the object. */
  lemma FreedUnreferenced(states: seq<State>, steps: seq<Step>, w: Thread, c0: CopyId, i: nat)
    requires IsRun(states, steps, w, c0) && i < |steps|
    requires steps[i].Work? && Frees(states[i].acts[steps[i].t].job).Some?
    ensures var s, c := states[i], Frees(states[i].acts[steps[i].t].job).value;
            && c in s.copies && s.copies[c] == 0 && Total(s.acts, c) == 0 && !(s.owned && s.copy == Some(c))
            && (forall u :: u in s.acts && s.acts[u].job.CopyPeek? ==> s.acts[u].job.peek != Some(c))
            && (forall u :: u in s.acts && Frees(s.acts[u].job) == Some(c) ==> u == steps[i].t)
  {
    hide Total, PhaseInv, ObjectInv, Ready, Safe, Do;
    RunKeepsInv(states, steps, w, c0, i + 1);
    assert Ready(states[i], steps[i]);
    FreesInActs(states[i], steps[i]);
  }

  lemma FreesInActs(s: State, step: Step)
    requires Ready(s, step) && step.Work?
    ensures step.t in s.acts
  {
  }

  lemma FreedGrows(s: State, step: Step)
    requires Ready(s, step) && Safe(s, step)
    ensures s.freed <= Do(s, step).freed
    ensures step.Work? && Frees(s.acts[step.t].job).Some? ==> Frees(s.acts[step.t].job).value in Do(s, step).freed
  {
  }

  lemma {:induction false} FreedStays(states: seq<State>, steps: seq<Step>, w: Thread, c: CopyId, i: nat, j: nat)
    requires IsRun(states, steps, w, c) && i <= j <= |steps|
    ensures states[i].freed <= states[j].freed
  {
    hide Inv, Ready, Safe, Do;
    RunKeepsInv(states, steps, w, c, j);
    if i < j {
      FreedStays(states, steps, w, c, i, j - 1);
      FreedGrows(states[j - 1], steps[j - 1]);
    }
  }

  /** No snapshot is freed twice. */
  lemma FreedOnce(states: seq<State>, steps: seq<Step>, w: Thread, c: CopyId, i: nat, j: nat)
    requires IsRun(states, steps, w, c) && i < j < |steps| && steps[i].Work? && steps[j].Work?
    requires Frees(states[i].acts[steps[i].t].job).Some?
    ensures Frees(states[j].acts[steps[j].t].job) != Frees(states[i].acts[steps[i].t].job)
  {
    hide Total, PhaseInv, ObjectInv, Safe, Do, Frees;
    RunKeepsInv(states, steps, w, c, j);
    FreedGrows(states[i], steps[i]);
    FreedStays(states, steps, w, c, i + 1, j);
  }

  /** The assertions of the source, in every state between the start of an operation and the access
      that they speak about, before the lock is taken as well as inside: a snapshot or an object
      that gets one more reference has one, the writer finds a snapshot when it lets the object
      go, and there is none when the last reader does. */
  lemma SourceAssertionsHold(states: seq<State>, steps: seq<Step>, w: Thread, c: CopyId, i: nat, t: Thread)
    requires IsRun(states, steps, w, c) && i <= |steps| && t in states[i].acts
    ensures var s, a := states[i], states[i].acts[t];
            && (a.job.CopyPeek? && a.job.peek.Some? ==> a.job.peek.value in s.copies && s.copies[a.job.peek.value] > 0)
            && (a.job.GrabWant? ==> s.reference > 0)
            && (a.job.QuitWant? ==> s.copy.Some?)
            && (a.job.LeaveWant? && s.reference == 1 ==> s.copy.None?)
  {
    hide Do;
    RunKeepsInv(states, steps, w, c, i);
    AssertionsAt(states[i], t);
  }

  lemma AssertionsAt(s: State, t: Thread)
    requires Inv(s) && t in s.acts
    ensures var a := s.acts[t];
            && (a.job.CopyPeek? && a.job.peek.Some? ==> a.job.peek.value in s.copies && s.copies[a.job.peek.value] > 0)
            && (a.job.GrabWant? ==> s.reference > 0)
            && (a.job.QuitWant? ==> s.copy.Some?)
            && (a.job.LeaveWant? && s.reference == 1 ==> s.copy.None?)
  {
    hide PhaseInv, LockInv, Total;
    Facts(s, t);
    if s.acts[t].job.LeaveWant? && s.copy.Some? {
      var u :| u in s.acts && Provides(s.acts[u]);
      TwoRefs(s.acts, t, u);
    }
  }

  lemma TwoRefs(acts: Acts, t: Thread, u: Thread)
    requires t in acts && u in acts && t != u && HasRef(acts[t]) && HasRef(acts[u])
    ensures |Refs(acts)| >= 2
  {
    hide HasRef;
    var r := Refs(acts);
    assert t in r && u in r;
    assert |r - {t}| == |r| - 1 && u in r - {t};
  }

  /** The fields and the lock of the object.  */
  predicate UsesObject(s: State, step: Step)
    requires Ready(s, step)
  {
    step.LockMove? || (step.Work? && var j := s.acts[step.t].job;
      WantsRead(j) || WantsWrite(j) || j.CopyPeek? || j.UpdateSwap? || j.QuitNull? || j.QuitCount?)
  }

  /** The object is freed once, and every step uses it before that, with one exception: a reader
      that gave up its reference unlocks a lock that the last reader has freed, if and only if
      no reference is left by then. */
  lemma ObjectUsedAlive(states: seq<State>, steps: seq<Step>, w: Thread, c: CopyId, i: nat)
    requires IsRun(states, steps, w, c) && i < |steps|
    ensures UsesObject(states[i], steps[i]) && states[i].objFreed <==>
              steps[i].LockMove? && states[i].acts[steps[i].t].job.LeaveUnlock? && states[i].reference == 0
    ensures states[i].objFreed ==> states[i + 1].objFreed
    ensures states[i + 1].objFreed && !states[i].objFreed ==>
              steps[i].Work? && states[i].reference == 1 && HasRef(states[i].acts[steps[i].t])
  {
    hide Inv;
    RunKeepsInv(states, steps, w, c, i + 1);
    ObjectAt(states[i], steps[i]);
  }

  lemma ObjectAt(s: State, step: Step)
    requires Inv(s) && Ready(s, step) && Safe(s, step)
    ensures UsesObject(s, step) && s.objFreed <==>
              step.LockMove? && s.acts[step.t].job.LeaveUnlock? && s.reference == 0
    ensures s.objFreed ==> Do(s, step).objFreed
    ensures Do(s, step).objFreed && !s.objFreed ==> step.Work? && s.reference == 1 && HasRef(s.acts[step.t])
  {
    hide CountInv, PhaseInv, ObjectInv, PeekInv;
    if !step.NewReader? { Facts(s, step.t); }
  }
}
