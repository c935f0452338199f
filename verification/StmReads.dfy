/** Which snapshot a reader gets (lib/stm/lua-stm.c): the one that was published while it held its
    lock, as the steps of the run say. */
module StmReads {
  import opened Wrappers
  import opened RwLock
  import opened Stm
  import opened StmProof

  /** What can be said from the steps alone: the published snapshot, the latest call of every thread,
      and the snapshot that was published at the end of the latest read of every reader. */
  datatype History = History(published: Ptr, begun: map<Thread, Job>, read: map<Thread, Ptr>)

  /** An update publishes its snapshot when it releases the lock, and the writer that quits takes it
      back. */
  function Later(h: History, step: Step): History {
    match step
    case NewReader(t) => h.(begun := h.begun - {t}, read := h.read[t := None])
    case Begin(t, j) => h.(begun := h.begun[t := j])
    case LockMove(t, m) =>
      if !m.Unlock? || t !in h.begun then h
      else
        (match h.begun[t]
         case UpdateWant(c) => h.(published := Some(c))
         case QuitWant => h.(published := None)
         case CopyWant => h.(read := h.read[t := h.published])
         case _ => h)
    case Work(_) => h
  }

  function HistoryOf(steps: seq<Step>, c: CopyId, n: nat): History
    requires n <= |steps|
  {
    if n == 0 then History(Some(c), map[], map[]) else Later(HistoryOf(steps, c, n - 1), steps[n - 1])
  }

  /** The thread is inside the call j. */
  predicate Called(h: History, t: Thread, j: Job) {
    t in h.begun && h.begun[t] == j
  }

  /** What the thread does is the call it made, and what it has read is what is published. */
  predicate ActOk(h: History, t: Thread, j: Job, copy: Ptr) {
    match j
    case UpdateWant(c) => Called(h, t, UpdateWant(c))
    case UpdateSwap(c, _) => Called(h, t, UpdateWant(c))
    case UpdateUnlock(_) => t in h.begun && h.begun[t].UpdateWant? && copy == Some(h.begun[t].copy)
    case QuitWant => Called(h, t, QuitWant)
    case QuitFree(_) => Called(h, t, QuitWant)
    case QuitNull => Called(h, t, QuitWant)
    case QuitCount => Called(h, t, QuitWant) && copy == None
    case QuitUnlock => Called(h, t, QuitWant) && copy == None
    case CopyWant => Called(h, t, CopyWant)
    case CopyPeek(p) => Called(h, t, CopyWant) && p == h.published
    case CopyHave(p) => Called(h, t, CopyWant) && p == h.published
    case GrabWant => Called(h, t, GrabWant)
    case GrabUnlock => Called(h, t, GrabWant)
    case LeaveWant => Called(h, t, LeaveWant)
    case LeaveUnlock => Called(h, t, LeaveWant)
    case _ => true
  }

  predicate Leaving(j: Job) {
    j.Gone? || (j.Drop? && j.last) || (j.FreeCopy? && j.last)
  }

  /** A reader keeps the snapshot of its latest read. */
  predicate KeptOk(h: History, t: Thread, a: Act) {
    a.writer || Leaving(a.job)
    || (t in h.read && h.read[t] == if a.job.CopyCompare? then a.job.got else a.last)
  }

  /** Between the change of the pointer and the release of the lock. */
  predicate Dirty(j: Job, p: Phase) {
    j.UpdateUnlock? || j.QuitCount? || j.QuitUnlock? || (j.Gone? && p.Writing?)
  }

  ghost predicate Clean(s: State) {
    forall t :: t in s.acts && t in s.lock.at ==> !Dirty(s.acts[t].job, s.lock.at[t])
  }

  /** Only the writer asks for the lock to write. */
  predicate AsksOk(a: Act, p: Phase) {
    a.writer || (!p.WriteSpin? && !Claims(p))
  }

  ghost predicate HistInv(s: State, h: History) {
    && (forall t :: t in s.acts && t in s.lock.at ==> AsksOk(s.acts[t], s.lock.at[t]))
    && (forall t :: t in s.acts ==> ActOk(h, t, s.acts[t].job, s.copy))
    && (forall t :: t in s.acts ==> KeptOk(h, t, s.acts[t]))
    && (Clean(s) ==> s.copy == h.published)
  }

  /** What the lock says about the others. */
  lemma Alone(s: State, t: Thread)
    requires Inv(s) && t in s.acts
    ensures t in s.lock.at
    ensures s.lock.at[t].Writing? ==> forall u :: u in s.acts && u != t ==>
              !Dirty(s.acts[u].job, s.lock.at[u]) && !s.acts[u].job.CopyPeek? && !s.acts[u].job.CopyHave?
    ensures s.lock.at[t].Reading? ==> Clean(s)
  {
    hide CountInv, PeekInv, ObjectInv, UnlockInv;
    forall u | u in s.acts ensures PhaseOk(s.acts[u].job, s.lock.at[u]) {}
  }

  /** A thread goes on, the pointer stays. */
  lemma Same(s: State, h: History, t: Thread, a: Act, s': State, h': History)
    requires Inv(s) && HistInv(s, h) && t in s.acts && t in s.lock.at && t in s'.lock.at
    requires s'.acts == s.acts[t := a] && s'.copy == s.copy && h'.published == h.published
    requires forall u :: u in s.acts && u != t ==> u in s.lock.at && u in s'.lock.at && s'.lock.at[u] == s.lock.at[u]
    requires forall u :: u != t ==> (u in h'.begun <==> u in h.begun) && (u in h'.read <==> u in h.read)
    requires forall u :: u != t && u in h.begun ==> h'.begun[u] == h.begun[u]
    requires forall u :: u != t && u in h.read ==> h'.read[u] == h.read[u]
    requires ActOk(h', t, a.job, s.copy) && KeptOk(h', t, a) && AsksOk(a, s'.lock.at[t])
    requires Dirty(a.job, s'.lock.at[t]) == Dirty(s.acts[t].job, s.lock.at[t])
    ensures HistInv(s', h')
  {
    hide Inv, Dirty, Leaving, AsksOk;
    forall u | u in s'.acts && u != t ensures ActOk(h', u, s'.acts[u].job, s.copy) && KeptOk(h', u, s'.acts[u]) {
      assert ActOk(h, u, s.acts[u].job, s.copy) && KeptOk(h, u, s.acts[u]);
    }
    if Clean(s') {
      forall u | u in s.acts && u in s.lock.at ensures !Dirty(s.acts[u].job, s.lock.at[u]) {
        assert u in s'.acts && !Dirty(s'.acts[u].job, s'.lock.at[u]);
      }
    }
  }

  /** The writer changes the pointer. */
  lemma Pointed(s: State, h: History, t: Thread, a: Act, s': State)
    requires Inv(s) && HistInv(s, h) && t in s.acts && t in s.lock.at && s.lock.at[t].Writing?
    requires s'.acts == s.acts[t := a] && s'.lock == s.lock && a.writer
    requires ActOk(h, t, a.job, s'.copy) && Dirty(a.job, s.lock.at[t])
    ensures HistInv(s', h)
  {
    hide Inv, Leaving;
    Alone(s, t);
    forall u | u in s'.acts && u != t ensures ActOk(h, u, s'.acts[u].job, s'.copy) && KeptOk(h, u, s'.acts[u]) {
      assert ActOk(h, u, s.acts[u].job, s.copy) && KeptOk(h, u, s.acts[u]);
    }
    assert t in s'.acts && Dirty(s'.acts[t].job, s'.lock.at[t]);
  }

  /** The writer releases the lock. */
  lemma Released(s: State, h: History, t: Thread, a: Act, s': State, h': History)
    requires Inv(s) && HistInv(s, h) && t in s.acts && t in s.lock.at && s.lock.at[t].Writing?
    requires s'.acts == s.acts[t := a] && s'.copy == s.copy == h'.published && a.writer
    requires s'.lock.at == s.lock.at[t := Out] && h' == h.(published := s.copy)
    requires ActOk(h', t, a.job, s.copy)
    ensures HistInv(s', h')
  {
    hide Inv, Leaving, Dirty;
    Alone(s, t);
    forall u | u in s'.acts && u != t ensures ActOk(h', u, s'.acts[u].job, s'.copy) && KeptOk(h', u, s'.acts[u]) {
      assert ActOk(h, u, s.acts[u].job, s.copy) && KeptOk(h, u, s.acts[u]);
    }
  }

  lemma NewReaderHist(s: State, h: History, t: Thread)
    requires Inv(s) && HistInv(s, h) && Ready(s, NewReader(t)) && Safe(s, NewReader(t))
    ensures HistInv(Do(s, NewReader(t)), Later(h, NewReader(t)))
  {
    hide Inv, Dirty, ActOk, KeptOk, AsksOk;
    var s', h' := Do(s, NewReader(t)), Later(h, NewReader(t));
    NewReaderOk(h, t, s.copy);
    forall u | u in s.acts ensures ActOk(h', u, s'.acts[u].job, s.copy) && KeptOk(h', u, s'.acts[u]) {
      OthersOk(h, t, u, s.acts[u], s.copy);
    }
    if Clean(s') {
      forall u | u in s.acts && u in s.lock.at ensures !Dirty(s.acts[u].job, s.lock.at[u]) {
        assert !Dirty(s'.acts[u].job, s'.lock.at[u]);
      }
    }
  }

  lemma NewReaderOk(h: History, t: Thread, copy: Ptr)
    ensures ActOk(Later(h, NewReader(t)), t, Rest, copy) && KeptOk(Later(h, NewReader(t)), t, Act(false, None, Rest))
    ensures AsksOk(Act(false, None, Rest), Out)
  {
  }

  lemma OthersOk(h: History, t: Thread, u: Thread, a: Act, copy: Ptr)
    requires u != t && ActOk(h, u, a.job, copy) && KeptOk(h, u, a)
    ensures ActOk(Later(h, NewReader(t)), u, a.job, copy) && KeptOk(Later(h, NewReader(t)), u, a)
  {
  }

  /** What is known of the thread that takes the step. */
  lemma Mine(s: State, h: History, t: Thread)
    requires Inv(s) && HistInv(s, h) && t in s.acts
    ensures t in s.lock.at && PhaseOk(s.acts[t].job, s.lock.at[t]) && KindOk(s.acts[t])
    ensures ActOk(h, t, s.acts[t].job, s.copy) && KeptOk(h, t, s.acts[t]) && AsksOk(s.acts[t], s.lock.at[t])
    ensures var j := s.acts[t].job;
            j.UpdateWant? || j.QuitWant? || j.UpdateSwap? || j.QuitNull? || j.UpdateUnlock? || j.QuitUnlock? ==>
              s.acts[t].writer
    ensures Leaving(s.acts[t].job) && !s.acts[t].job.Gone? ==> !s.acts[t].writer
    ensures forall u :: u in s.acts ==> u in s.lock.at
    ensures s.lock.at[t].Reading? ==> s.copy == h.published
  {
    hide CountInv, PeekInv, UnlockInv, PhaseOk, Dirty, AsksOk;
    Alone(s, t);
    Facts(s, t);
  }

  lemma BeginHist(s: State, h: History, t: Thread, j: Job)
    requires Inv(s) && HistInv(s, h) && Ready(s, Begin(t, j)) && Safe(s, Begin(t, j))
    ensures HistInv(Do(s, Begin(t, j)), Later(h, Begin(t, j)))
  {
    hide Inv, PhaseOk, ForWriter, ForReader;
    Mine(s, h, t);
    var s', h' := Do(s, Begin(t, j)), Later(h, Begin(t, j));
    Same(s, h, t, s.acts[t].(job := j), s', h');
  }

  lemma WorkHist(s: State, h: History, t: Thread)
    requires Inv(s) && HistInv(s, h) && Ready(s, Work(t)) && Safe(s, Work(t))
    ensures HistInv(Worked(s, t), h)
  {
    hide Inv, HistInv, ForWriter, ForReader, Worked, ActOk, KeptOk, AsksOk, PhaseOk, Leaving, Dirty;
    Mine(s, h, t);
    var j := s.acts[t].job;
    if j.UpdateSwap? || j.QuitNull? {
      PointedHist(s, h, t);
    } else {
      WorkOk(s, h, t);
      Same(s, h, t, Worked(s, t).acts[t], Worked(s, t), h);
    }
  }

  lemma PointedHist(s: State, h: History, t: Thread)
    requires Inv(s) && HistInv(s, h) && Ready(s, Work(t)) && Safe(s, Work(t))
    requires s.acts[t].job.UpdateSwap? || s.acts[t].job.QuitNull?
    ensures HistInv(Worked(s, t), h)
  {
    hide Inv, HistInv, ForWriter, ForReader;
    Mine(s, h, t);
    Pointed(s, h, t, Worked(s, t).acts[t], Worked(s, t));
  }

  /** The thread did its work, and the pointer stays. */
  ghost predicate Progress(s: State, h: History, t: Thread, s': State)
    requires t in s.acts && t in s.lock.at
  {
    && t in s'.acts && s'.acts == s.acts[t := s'.acts[t]] && s'.lock == s.lock && s'.copy == s.copy
    && s'.acts[t].writer == s.acts[t].writer
    && ActOk(h, t, s'.acts[t].job, s.copy) && KeptOk(h, t, s'.acts[t]) && AsksOk(s'.acts[t], s.lock.at[t])
    && Dirty(s'.acts[t].job, s.lock.at[t]) == Dirty(s.acts[t].job, s.lock.at[t])
  }

  lemma WorkReads(s: State, h: History, t: Thread)
    requires Ready(s, Work(t)) && Safe(s, Work(t)) && PhaseOk(s.acts[t].job, s.lock.at[t])
    requires ActOk(h, t, s.acts[t].job, s.copy) && KeptOk(h, t, s.acts[t]) && AsksOk(s.acts[t], s.lock.at[t])
    requires s.lock.at[t].Reading? ==> s.copy == h.published
    requires Leaving(s.acts[t].job) && !s.acts[t].job.Gone? ==> !s.acts[t].writer
    requires !s.acts[t].job.UpdateSwap? && !s.acts[t].job.QuitNull?
    requires s.acts[t].job.CopyWant? || s.acts[t].job.CopyPeek? || s.acts[t].job.CopyCompare?
    ensures Progress(s, h, t, Worked(s, t))
  {
    hide Claims;
  }

  lemma WorkDrops(s: State, h: History, t: Thread)
    requires Ready(s, Work(t)) && Safe(s, Work(t)) && PhaseOk(s.acts[t].job, s.lock.at[t])
    requires ActOk(h, t, s.acts[t].job, s.copy) && KeptOk(h, t, s.acts[t]) && AsksOk(s.acts[t], s.lock.at[t])
    requires s.lock.at[t].Reading? ==> s.copy == h.published
    requires Leaving(s.acts[t].job) && !s.acts[t].job.Gone? ==> !s.acts[t].writer
    requires !s.acts[t].job.UpdateSwap? && !s.acts[t].job.QuitNull?
    requires s.acts[t].job.Drop? || s.acts[t].job.FreeCopy?
    ensures Progress(s, h, t, Worked(s, t))
  {
  }

  lemma WorkLeaves(s: State, h: History, t: Thread)
    requires Ready(s, Work(t)) && Safe(s, Work(t)) && PhaseOk(s.acts[t].job, s.lock.at[t])
    requires ActOk(h, t, s.acts[t].job, s.copy) && KeptOk(h, t, s.acts[t]) && AsksOk(s.acts[t], s.lock.at[t])
    requires s.lock.at[t].Reading? ==> s.copy == h.published
    requires Leaving(s.acts[t].job) && !s.acts[t].job.Gone? ==> !s.acts[t].writer
    requires !s.acts[t].job.UpdateSwap? && !s.acts[t].job.QuitNull?
    requires s.acts[t].job.GrabWant? || s.acts[t].job.LeaveWant? || s.acts[t].job.LeaveDrop?
    ensures Progress(s, h, t, Worked(s, t))
  {
    hide Claims;
  }

  lemma WorkWrites(s: State, h: History, t: Thread)
    requires Ready(s, Work(t)) && Safe(s, Work(t)) && PhaseOk(s.acts[t].job, s.lock.at[t])
    requires ActOk(h, t, s.acts[t].job, s.copy) && KeptOk(h, t, s.acts[t]) && AsksOk(s.acts[t], s.lock.at[t])
    requires s.lock.at[t].Reading? ==> s.copy == h.published
    requires Leaving(s.acts[t].job) && !s.acts[t].job.Gone? ==> !s.acts[t].writer
    requires !s.acts[t].job.UpdateSwap? && !s.acts[t].job.QuitNull?
    requires var j := s.acts[t].job; j.UpdateWant? || j.QuitWant? || j.QuitFree? || j.QuitCount?
    ensures Progress(s, h, t, Worked(s, t))
  {
    hide Claims;
  }

  lemma WorkOk(s: State, h: History, t: Thread)
    requires Ready(s, Work(t)) && Safe(s, Work(t)) && PhaseOk(s.acts[t].job, s.lock.at[t])
    requires ActOk(h, t, s.acts[t].job, s.copy) && KeptOk(h, t, s.acts[t]) && AsksOk(s.acts[t], s.lock.at[t])
    requires s.lock.at[t].Reading? ==> s.copy == h.published
    requires Leaving(s.acts[t].job) && !s.acts[t].job.Gone? ==> !s.acts[t].writer
    requires !s.acts[t].job.UpdateSwap? && !s.acts[t].job.QuitNull?
    ensures Progress(s, h, t, Worked(s, t))
  {
    hide Worked, ActOk, KeptOk, AsksOk, PhaseOk, Leaving, Progress;
    var j := s.acts[t].job;
    if j.CopyWant? || j.CopyPeek? || j.CopyCompare? {
      WorkReads(s, h, t);
    } else if j.Drop? || j.FreeCopy? {
      WorkDrops(s, h, t);
    } else if j.GrabWant? || j.LeaveWant? || j.LeaveDrop? {
      WorkLeaves(s, h, t);
    } else {
      WorkWrites(s, h, t);
    }
  }

  /** The release of the lock by a reader. */
  lemma UnlockHist(s: State, h: History, t: Thread)
    requires Inv(s) && HistInv(s, h) && Ready(s, LockMove(t, Unlock)) && Safe(s, LockMove(t, Unlock))
    requires !s.acts[t].job.UpdateUnlock? && !s.acts[t].job.QuitUnlock?
    ensures HistInv(Do(s, LockMove(t, Unlock)), Later(h, LockMove(t, Unlock)))
  {
    hide Inv, HistInv, ForWriter, ForReader, ActOk, KeptOk, PhaseOk, Dirty, Worked;
    Mine(s, h, t);
    var s', h' := Do(s, LockMove(t, Unlock)), Later(h, LockMove(t, Unlock));
    UnlockOk(s, h, t);
    Same(s, h, t, s'.acts[t], s', h');
  }

  lemma UnlockOk(s: State, h: History, t: Thread)
    requires t in s.acts && t in s.lock.at && ActOk(h, t, s.acts[t].job, s.copy) && KeptOk(h, t, s.acts[t])
    requires PhaseOk(s.acts[t].job, s.lock.at[t]) && Unlocks(s.acts[t].job)
    requires !s.acts[t].job.UpdateUnlock? && !s.acts[t].job.QuitUnlock?
    ensures var h', a := Later(h, LockMove(t, Unlock)), s.acts[t].(job := Unlocked(s.acts[t].job));
            && ActOk(h', t, a.job, s.copy) && KeptOk(h', t, a) && h'.published == h.published && h'.begun == h.begun
            && !Dirty(a.job, Out) && !Dirty(s.acts[t].job, s.lock.at[t])
  {
  }

  lemma WriterUnlockHist(s: State, h: History, t: Thread)
    requires Inv(s) && HistInv(s, h) && Ready(s, LockMove(t, Unlock)) && Safe(s, LockMove(t, Unlock))
    requires s.acts[t].job.UpdateUnlock? || s.acts[t].job.QuitUnlock?
    ensures HistInv(Do(s, LockMove(t, Unlock)), Later(h, LockMove(t, Unlock)))
  {
    hide Inv, HistInv, ForWriter, ForReader;
    Mine(s, h, t);
    var s', h' := Do(s, LockMove(t, Unlock)), Later(h, LockMove(t, Unlock));
    Released(s, h, t, s'.acts[t], s', h');
  }

  lemma LockHist(s: State, h: History, t: Thread, m: Move)
    requires Inv(s) && HistInv(s, h) && Ready(s, LockMove(t, m)) && Safe(s, LockMove(t, m))
    ensures HistInv(Do(s, LockMove(t, m)), Later(h, LockMove(t, m)))
  {
    hide Inv, HistInv, ForWriter, ForReader, ActOk, KeptOk, PhaseOk;
    if !m.Unlock? {
      Mine(s, h, t);
      var s', h' := Do(s, LockMove(t, m)), Later(h, LockMove(t, m));
      Same(s, h, t, s.acts[t], s', h');
    } else if s.acts[t].job.UpdateUnlock? || s.acts[t].job.QuitUnlock? {
      WriterUnlockHist(s, h, t);
    } else {
      UnlockHist(s, h, t);
    }
  }

  lemma StepHist(s: State, h: History, step: Step)
    requires Inv(s) && HistInv(s, h) && Ready(s, step) && Safe(s, step)
    ensures HistInv(Do(s, step), Later(h, step))
  {
    hide Inv, HistInv, Safe, Do, Later;
    match step
    case NewReader(t) => NewReaderHist(s, h, t);
    case Begin(t, j) => BeginHist(s, h, t, j);
    case LockMove(t, m) => LockHist(s, h, t, m);
    case Work(t) =>
      WorkHist(s, h, t);
      DoWork(s, h, t);
  }

  lemma DoWork(s: State, h: History, t: Thread)
    requires Ready(s, Work(t)) && Safe(s, Work(t))
    ensures Later(h, Work(t)) == h && Do(s, Work(t)) == Worked(s, t)
  {
  }

  lemma {:induction false} RunHist(states: seq<State>, steps: seq<Step>, w: Thread, c: CopyId, n: nat)
    requires IsRun(states, steps, w, c) && n <= |steps|
    ensures HistInv(states[n], HistoryOf(steps, c, n))
  {
    hide Inv, HistInv, Ready, Safe, Do, Later;
    if n == 0 {
      StartHist(w, c);
    } else {
      RunHist(states, steps, w, c, n - 1);
      RunKeepsInv(states, steps, w, c, n);
      StepHist(states[n - 1], HistoryOf(steps, c, n - 1), steps[n - 1]);
    }
  }

  lemma StartHist(w: Thread, c: CopyId)
    ensures HistInv(Start(w, c), History(Some(c), map[], map[]))
  {
  }

  /** In every run: while nobody has the lock for writing, the object points to the snapshot of the
      latest update that has released the lock, to the first one if there is none, and to nothing
      after the writer has quit. */
  lemma PublishedIsCurrent(states: seq<State>, steps: seq<Step>, w: Thread, c: CopyId, n: nat)
    requires IsRun(states, steps, w, c) && n <= |steps|
    requires forall t :: t in states[n].lock.at ==> !states[n].lock.at[t].Writing?
    ensures states[n].copy == HistoryOf(steps, c, n).published
  {
    hide HistoryOf, Do, ActOk, KeptOk, CountInv, PeekInv, ObjectInv, UnlockInv, LockInv;
    RunHist(states, steps, w, c, n);
    RunKeepsInv(states, steps, w, c, n);
    var s := states[n];
    forall t | t in s.acts && t in s.lock.at ensures !Dirty(s.acts[t].job, s.lock.at[t]) {
      assert PhaseOk(s.acts[t].job, s.lock.at[t]);
    }
  }

  /** The published snapshot does not change while a reader has the lock. */
  lemma PublishedStays(states: seq<State>, steps: seq<Step>, w: Thread, c: CopyId, n: nat, t: Thread)
    requires IsRun(states, steps, w, c) && n < |steps| && t in states[n].acts && t in states[n].lock.at
    requires states[n].lock.at[t].Reading?
    ensures HistoryOf(steps, c, n + 1).published == HistoryOf(steps, c, n).published
  {
    hide Inv, Do, Safe, HistInv, Dirty, KeptOk, AsksOk;
    RunHist(states, steps, w, c, n);
    RunKeepsInv(states, steps, w, c, n);
    var s, step := states[n], steps[n];
    if step.LockMove? && step.m.Unlock? {
      Mine(s, HistoryOf(steps, c, n), step.t);
      OneInside(s, t, step.t);
    }
  }

  lemma OneInside(s: State, t: Thread, u: Thread)
    requires Inv(s) && t in s.lock.at && u in s.lock.at && s.lock.at[t].Reading?
    ensures !s.lock.at[u].Writing?
  {
    hide CountInv, PeekInv, ObjectInv, UnlockInv, PhaseOk;
  }

  /** What a read gives: the snapshot that is published from its look at the pointer until it
      releases the lock, also when the reader comes to compare it with the one it has, and from
      then on the reader keeps it until its next read ends. */
  lemma ReadsPublished(states: seq<State>, steps: seq<Step>, w: Thread, c: CopyId, n: nat, t: Thread)
    requires IsRun(states, steps, w, c) && n <= |steps| && t in states[n].acts
    ensures var a, h := states[n].acts[t], HistoryOf(steps, c, n);
            && (a.job.CopyPeek? ==> a.job.peek == h.published)
            && (a.job.CopyHave? ==> a.job.got == h.published)
            && (!a.writer && !Leaving(a.job) ==>
                  t in h.read && h.read[t] == if a.job.CopyCompare? then a.job.got else a.last)
    ensures n < |steps| && steps[n] == LockMove(t, Unlock) && states[n].acts[t].job.CopyHave? ==>
              && t in HistoryOf(steps, c, n + 1).read
              && HistoryOf(steps, c, n + 1).read[t] == HistoryOf(steps, c, n).published
  {
    hide Inv, Do, Safe, Dirty;
    RunHist(states, steps, w, c, n);
    assert ActOk(HistoryOf(steps, c, n), t, states[n].acts[t].job, states[n].copy);
  }
}
