/** Reference-counted snapshots behind a read-write lock (lib/stm/lua-stm.c): one object, one
    writer, any number of readers, one step per access to shared memory. */
module Stm {
  import opened Wrappers
  import opened RwLock

  type CopyId = nat
  type Ptr = Option<CopyId>

  /** Where a thread is. The names before the wants of a lock are those of the operations. */
  datatype Job =
    | Rest
    | Gone
    | CopyWant                              // stm_copy, up to the read of the pointer
    | CopyPeek(peek: Ptr)                   // has the pointer but has not counted it
    | CopyHave(got: Ptr)                    // about to unlock
    | CopyCompare(got: Ptr)                 // lread, after stm_copy
    | Drop(got: Ptr, last: bool)            // stm_releasecopy
    | FreeCopy(c: CopyId, last: bool)
    | GrabWant                              // stm_grab
    | GrabUnlock
    | LeaveWant                             // stm_releasereader
    | LeaveUnlock
    | LeaveDrop                             // ldeletereader, after stm_releasereader
    | UpdateWant(copy: CopyId)              // stm_update
    | UpdateSwap(copy: CopyId, peek: Ptr)   // has read the old pointer
    | UpdateUnlock(got: Ptr)
    | QuitWant                              // stm_release
    | QuitFree(c: CopyId)
    | QuitNull                              // about to clear the pointer
    | QuitCount                             // about to decrement the count of the object
    | QuitUnlock

  /** `last` is the snapshot that a reader keeps between its calls. */
  datatype Act = Act(writer: bool, last: Ptr, job: Job)

  type Acts = map<Thread, Act>
  type Copies = map<CopyId, int>

  /** `owned`: the pointer of the object carries a reference; it does not between the two
      steps of stm_release that drop the reference and clear the pointer. `tokens`: references
      to the object that were grabbed for readers not created yet. */
  datatype State = State(lock: Lock, reference: int, copy: Ptr, owned: bool, objFreed: bool, tokens: nat,
                         copies: Copies, freed: set<CopyId>, acts: Acts)

  /** stm_new by thread w */
  function Start(w: Thread, c: CopyId): State {
    State(Lock(false, 0, map[w := Out]), 1, Some(c), true, false, 0, map[c := 1], {}, map[w := Act(true, None, Rest)])
  }

  datatype Step =
    | NewReader(t: Thread)             // lnewreader
    | Begin(t: Thread, job: Job)
    | LockMove(t: Thread, m: Move)
    | Work(t: Thread)

  predicate WantsRead(j: Job) {
    j.CopyWant? || j.GrabWant? || j.LeaveWant?
  }

  predicate WantsWrite(j: Job) {
    j.UpdateWant? || j.QuitWant?
  }

  predicate Unlocks(j: Job) {
    j.CopyHave? || j.GrabUnlock? || j.LeaveUnlock? || j.UpdateUnlock? || j.QuitUnlock?
  }

  /** The calls that a thread at rest may make. */
  predicate MayBegin(s: State, t: Thread, j: Job)
    requires t in s.acts
  {
    && s.acts[t].job.Rest?
    && match j
       case CopyWant => !s.acts[t].writer
       case LeaveWant => !s.acts[t].writer
       case GrabWant => true
       case UpdateWant(c) => s.acts[t].writer && c !in s.copies && c !in s.freed
       case QuitWant => s.acts[t].writer
       case _ => false
  }

  predicate Ready(s: State, step: Step) {
    match step
    case NewReader(t) => t !in s.acts && t !in s.lock.at && s.tokens > 0
    case Begin(t, j) => t in s.acts && MayBegin(s, t, j)
    case LockMove(t, m) =>
      && t in s.acts && CanMove(s.lock, t, m)
      && var j := s.acts[t].job;
         (match m
          case Read => WantsRead(j)
          case Write => WantsWrite(j)
          case Go => WantsRead(j) || WantsWrite(j)
          case Unlock => Unlocks(j))
    case Work(t) =>
      && t in s.acts && t in s.lock.at
      && var j := s.acts[t].job;
         !j.Rest? && !j.Gone? && !Unlocks(j)
         && (WantsRead(j) ==> s.lock.at[t].Reading?) && (WantsWrite(j) ==> s.lock.at[t].Writing?)
  }

  /** The snapshots whose memory the step reads or writes. */
  function Touched(s: State, step: Step): set<CopyId>
    requires Ready(s, step)
  {
    if !step.Work? then {}
    else
      match s.acts[step.t].job
      case CopyPeek(p) => Both(p)
      case Drop(p, _) => Both(p)
      case FreeCopy(c, _) => {c}
      case QuitFree(c) => {c}
      case QuitWant => Both(s.copy)
      case _ => {}
  }

  function Both(p: Ptr): set<CopyId> {
    if p.Some? then {p.value} else {}
  }

  predicate Safe(s: State, step: Step)
    requires Ready(s, step)
  {
    Touched(s, step) <= s.copies.Keys
  }

  function Go(s: State, t: Thread, j: Job): State
    requires t in s.acts
  {
    s.(acts := s.acts[t := s.acts[t].(job := j)])
  }

  function EndOf(last: bool): Job {
    if last then Gone else Rest
  }

  /** The job after the lock was released. */
  function Unlocked(j: Job): Job
    requires Unlocks(j)
  {
    match j
    case CopyHave(p) => CopyCompare(p)
    case GrabUnlock => Rest
    case LeaveUnlock => LeaveDrop
    case UpdateUnlock(p) => Drop(p, false)
    case QuitUnlock => Gone
  }

  function Worked(s: State, t: Thread): State
    requires Ready(s, Work(t)) && Safe(s, Work(t))
  {
    var a := s.acts[t];
    match a.job
    case CopyWant => Go(s, t, CopyPeek(s.copy))
    case CopyPeek(p) =>
      var s1 := Go(s, t, CopyHave(p));
      if p.None? then s1 else s1.(copies := s.copies[p.value := s.copies[p.value] + 1])
    case CopyCompare(p) =>
      if p == a.last then Go(s, t, Drop(p, false))
      else s.(acts := s.acts[t := a.(last := p, job := Drop(a.last, false))])
    case Drop(p, last) =>
      if p.None? then Go(s, t, EndOf(last))
      else
        var n := s.copies[p.value] - 1;
        Go(s, t, if n == 0 then FreeCopy(p.value, last) else EndOf(last)).(copies := s.copies[p.value := n])
    case FreeCopy(c, last) => Go(s, t, EndOf(last)).(copies := s.copies - {c}, freed := s.freed + {c})
    case GrabWant => Go(s, t, GrabUnlock).(reference := s.reference + 1, tokens := s.tokens + 1)
    case LeaveWant =>
      // the last reader does not unlock
      var n := s.reference - 1;
      Go(s, t, if n == 0 then LeaveDrop else LeaveUnlock).(reference := n, objFreed := n == 0 || s.objFreed)
    case LeaveDrop => s.(acts := s.acts[t := a.(last := None, job := Drop(a.last, true))])
    case UpdateWant(c) => Go(s, t, UpdateSwap(c, s.copy))
    case UpdateSwap(c, p) => Go(s, t, UpdateUnlock(p)).(copy := Some(c))
    case QuitWant =>
      if s.copy.None? then Go(s, t, QuitNull).(owned := false)
      else
        var n := s.copies[s.copy.value] - 1;
        Go(s, t, if n == 0 then QuitFree(s.copy.value) else QuitNull).(
          copies := s.copies[s.copy.value := n], owned := false)
    case QuitFree(c) => Go(s, t, QuitNull).(copies := s.copies - {c}, freed := s.freed + {c})
    case QuitNull => Go(s, t, QuitCount).(copy := None, owned := true)
    case QuitCount =>
      // nobody else has the object: it is freed and the lock with it
      var n := s.reference - 1;
      Go(s, t, if n > 0 then QuitUnlock else Gone).(reference := n, objFreed := n <= 0 || s.objFreed)
  }

  function Do(s: State, step: Step): State
    requires Ready(s, step) && Safe(s, step)
  {
    match step
    case NewReader(t) => s.(tokens := s.tokens - 1, acts := s.acts[t := Act(false, None, Rest)],
                            lock := To(s.lock, t, Out))
    case Begin(t, j) => if j.UpdateWant? then Go(s, t, j).(copies := s.copies[j.copy := 1]) else Go(s, t, j)
    case LockMove(t, m) =>
      (if m.Unlock? then Go(s, t, Unlocked(s.acts[t].job)) else s).(lock := Moved(s.lock, t, m))
    case Work(t) => Worked(s, t)
  }

  // The invariant.

  /** The reference that the current operation holds. */
  function Got(j: Job): Ptr {
    match j
    case CopyHave(p) => p
    case CopyCompare(p) => p
    case Drop(p, _) => p
    case UpdateWant(c) => Some(c)
    case UpdateSwap(c, _) => Some(c)
    case UpdateUnlock(p) => p
    case _ => None
  }

  function Frees(j: Job): Ptr {
    match j
    case FreeCopy(c, _) => Some(c)
    case QuitFree(c) => Some(c)
    case _ => None
  }

  ghost function Lasts(acts: Acts, c: CopyId): set<Thread> {
    set t | t in acts && acts[t].last == Some(c)
  }

  ghost function Gots(acts: Acts, c: CopyId): set<Thread> {
    set t | t in acts && Got(acts[t].job) == Some(c)
  }

  /** The references to a snapshot that threads hold. */
  ghost function Total(acts: Acts, c: CopyId): nat {
    |Lasts(acts, c)| + |Gots(acts, c)|
  }

  function Weight(a: Act, c: CopyId): nat {
    (if a.last == Some(c) then 1 else 0) + if Got(a.job) == Some(c) then 1 else 0
  }

  /** The count of a snapshot is exact, and one with count zero is about to be freed by one
      thread. */
  ghost predicate CountInv(acts: Acts, copy: Ptr, owned: bool, copies: Copies, freed: set<CopyId>) {
    && (forall c :: c in copies ==> copies[c] == Total(acts, c) + if owned && copy == Some(c) then 1 else 0)
    && (forall c :: Total(acts, c) > 0 ==> c in copies)
    && (owned && copy.Some? ==> copy.value in copies)
    && (forall t :: t in acts && Frees(acts[t].job).Some? ==>
          var c := Frees(acts[t].job).value; c in copies && copies[c] == 0)
    && (forall t, u ::
          t in acts && u in acts && Frees(acts[t].job).Some? && Frees(acts[t].job) == Frees(acts[u].job) ==> t == u)
    && (forall c :: c in copies ==> c !in freed)
  }

  predicate PhaseOk(j: Job, p: Phase) {
    match j
    case Rest => p.Out?
    case CopyCompare(_) => p.Out?
    case Drop(_, last) => last || p.Out?
    case FreeCopy(_, last) => last || p.Out?
    case CopyWant => !p.WriteSpin? && !Claims(p)
    case GrabWant => !p.WriteSpin? && !Claims(p)
    case LeaveWant => !p.WriteSpin? && !Claims(p)
    case UpdateWant(_) => p.Out? || p.WriteSpin? || Claims(p)
    case QuitWant => p.Out? || p.WriteSpin? || Claims(p)
    case CopyPeek(_) => p.Reading?
    case CopyHave(_) => p.Reading?
    case GrabUnlock => p.Reading?
    case LeaveUnlock => p.Reading?
    case UpdateSwap(_, _) => p.Writing?
    case UpdateUnlock(_) => p.Writing?
    case QuitFree(_) => p.Writing?
    case QuitNull => p.Writing?
    case QuitCount => p.Writing?
    case QuitUnlock => p.Writing?
    case _ => true
  }

  /** The phase of the lock fits the operation. */
  ghost predicate PhaseInv(lock: Lock, acts: Acts) {
    && LockInv(lock)
    && lock.at.Keys == acts.Keys
    && forall t :: t in acts ==> PhaseOk(acts[t].job, lock.at[t])
  }

  predicate Quits(j: Job) {
    j.QuitFree? || j.QuitNull?
  }

  ghost predicate SomeQuits(acts: Acts) {
    exists t :: t in acts && Quits(acts[t].job)
  }

  /** A pointer that was read under the lock is still that of the object. */
  ghost predicate PeekInv(acts: Acts, copy: Ptr, owned: bool) {
    && (forall t :: t in acts && acts[t].job.CopyPeek? ==> acts[t].job.peek == copy && owned)
    && (forall t :: t in acts && acts[t].job.UpdateSwap? ==> acts[t].job.peek == copy && owned)
    && (owned <==> !SomeQuits(acts))
  }

  predicate ForWriter(j: Job) {
    j.UpdateWant? || j.UpdateSwap? || j.UpdateUnlock? || j.QuitWant? || Quits(j) || j.QuitCount? || j.QuitUnlock?
  }

  predicate ForReader(j: Job) {
    j.CopyWant? || j.CopyPeek? || j.CopyHave? || j.CopyCompare? || j.LeaveWant? || j.LeaveUnlock? || j.LeaveDrop?
    || (j.Drop? && j.last) || (j.FreeCopy? && j.last)
  }

  predicate HasRef(a: Act) {
    if a.writer then !a.job.QuitUnlock? && !a.job.Gone?
    else
      && !a.job.LeaveUnlock? && !a.job.LeaveDrop? && !a.job.Gone?
      && !(a.job.Drop? && a.job.last) && !(a.job.FreeCopy? && a.job.last)
  }

  ghost function Refs(acts: Acts): set<Thread> {
    set t | t in acts && HasRef(acts[t])
  }

  /** Has a writer that still provides a snapshot. */
  predicate Provides(a: Act) {
    a.writer && HasRef(a) && !a.job.QuitCount?
  }

  ghost predicate SomeProvides(acts: Acts) {
    exists t :: t in acts && Provides(acts[t])
  }

  /** The count of the object is exact, and the object has a snapshot as long as it has its writer. */
  ghost predicate ObjectInv(acts: Acts, reference: int, tokens: nat, objFreed: bool, copy: Ptr) {
    && reference == |Refs(acts)| + tokens
    && (objFreed <==> reference == 0)
    && (forall t, u :: t in acts && u in acts && acts[t].writer && acts[u].writer ==> t == u)
    && (forall t :: t in acts && ForWriter(acts[t].job) ==> acts[t].writer)
    && (forall t :: t in acts && ForReader(acts[t].job) ==> !acts[t].writer)
    && (copy.Some? <==> SomeProvides(acts))
  }

  /** The object is not freed while its writer is about to unlock it. */
  ghost predicate UnlockInv(acts: Acts, objFreed: bool) {
    forall t :: t in acts && acts[t].job.QuitUnlock? ==> !objFreed
  }

  ghost predicate Inv(s: State) {
    && CountInv(s.acts, s.copy, s.owned, s.copies, s.freed)
    && PhaseInv(s.lock, s.acts)
    && PeekInv(s.acts, s.copy, s.owned)
    && ObjectInv(s.acts, s.reference, s.tokens, s.objFreed, s.copy)
    && UnlockInv(s.acts, s.objFreed)
  }
}
