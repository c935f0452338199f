/** A run in which a reader unlocks an object that another reader has freed
    (lib/stm/lua-stm.c): both hold the lock for reading when they give up their references. */
module StmLateUnlock {
  import opened Wrappers
  import opened RwLock
  import opened Stm
  import opened StmProof

  /** A state that some run leads to. */
  ghost predicate Reachable(s: State) {
    exists states, steps, w, c :: IsRun(states, steps, w, c) && states[|steps|] == s
  }

  lemma StartReachable(w: Thread, c: CopyId)
    ensures Reachable(Start(w, c))
  {
    var states, steps := [Start(w, c)], [];
    assert IsRun(states, steps, w, c) && states[|steps|] == Start(w, c);
  }

  lemma StepReachable(s: State, step: Step)
    requires Reachable(s) && Ready(s, step) && Safe(s, step)
    ensures Reachable(Do(s, step))
  {
    hide Ready, Safe, Do;
    var states, steps, w, c :| IsRun(states, steps, w, c) && states[|steps|] == s;
    var states', steps' := states + [Do(s, step)], steps + [step];
    assert IsRun(states', steps', w, c) && states'[|steps'|] == Do(s, step);
  }

  function Writer(j: Job): Act {
    Act(true, None, j)
  }

  function Reader(j: Job): Act {
    Act(false, None, j)
  }

  /** Thread t gets the lock for reading: four moves. */
  lemma GetsReadLock(s: State, t: Thread)
    requires Reachable(s) && t in s.acts && WantsRead(s.acts[t].job) && t in s.lock.at && s.lock.at[t].Out?
             && !s.lock.write
    ensures Reachable(s.(lock := Lock(false, s.lock.read + 1, s.lock.at[t := Reading])))
  {
    hide Reachable;
    var l0, at := s.lock, s.lock.at;
    StepReachable(s, LockMove(t, Read));
    var s1 := s.(lock := Lock(false, l0.read, at[t := ReadSpin]));
    assert s1 == Do(s, LockMove(t, Read));
    StepReachable(s1, LockMove(t, RwLock.Go));
    var s2 := s.(lock := Lock(false, l0.read, at[t := ReadAdd]));
    assert s2 == Do(s1, LockMove(t, RwLock.Go)) by { assert s1.lock.at[t := ReadAdd] == at[t := ReadAdd]; }
    StepReachable(s2, LockMove(t, RwLock.Go));
    var s3 := s.(lock := Lock(false, l0.read + 1, at[t := ReadCheck]));
    assert s3 == Do(s2, LockMove(t, RwLock.Go)) by { assert s2.lock.at[t := ReadCheck] == at[t := ReadCheck]; }
    StepReachable(s3, LockMove(t, RwLock.Go));
    var s4 := s.(lock := Lock(false, l0.read + 1, at[t := Reading]));
    assert s4 == Do(s3, LockMove(t, RwLock.Go)) by { assert s3.lock.at[t := Reading] == at[t := Reading]; }
  }

  /** The writer alone with an object of n references, the others grabbed for readers. */
  function Grabbed(n: nat): State
    requires n >= 1
  {
    State(Lock(false, 0, map[0 := Out]), n, Some(5), true, false, n - 1, map[5 := 1], {}, map[0 := Writer(Rest)])
  }

  lemma GrabOnce(n: nat)
    requires n >= 1 && Reachable(Grabbed(n))
    ensures Reachable(Grabbed(n + 1))
  {
    hide Reachable;
    var s := Grabbed(n);
    StepReachable(s, Begin(0, GrabWant));
    var s1 := s.(acts := map[0 := Writer(GrabWant)]);
    assert s1 == Do(s, Begin(0, GrabWant));
    GetsReadLock(s1, 0);
    var s2 := s1.(lock := Lock(false, 1, map[0 := Reading]));
    assert s2 == s1.(lock := Lock(false, s1.lock.read + 1, s1.lock.at[0 := Reading]));
    StepReachable(s2, Work(0));
    var s3 := s2.(reference := n + 1, tokens := n, acts := map[0 := Writer(GrabUnlock)]);
    assert s3 == Do(s2, Work(0));
    StepReachable(s3, LockMove(0, Unlock));
    assert Grabbed(n + 1) == Do(s3, LockMove(0, Unlock));
  }

  /** Two readers beside the writer, which is busy with j under the lock state l. */
  function Two(l: Lock, reference: int, copy: Ptr, owned: bool, copies: Copies, freed: set<CopyId>, j: Job): State {
    State(l, reference, copy, owned, false, 0, copies, freed, map[0 := Writer(j), 1 := Reader(Rest), 2 := Reader(Rest)])
  }

  function Locked(write: bool, p: Phase): Lock {
    Lock(write, 0, map[0 := p, 1 := Out, 2 := Out])
  }

  lemma TwoReaders()
    ensures Reachable(Two(Locked(false, Out), 3, Some(5), true, map[5 := 1], {}, Rest))
  {
    hide Reachable;
    StartReachable(0, 5);
    assert Start(0, 5) == Grabbed(1);
    GrabOnce(1);
    GrabOnce(2);
    var s := Grabbed(3);
    StepReachable(s, NewReader(1));
    var s1 := s.(tokens := 1, lock := Lock(false, 0, map[0 := Out, 1 := Out]),
                 acts := map[0 := Writer(Rest), 1 := Reader(Rest)]);
    assert s1 == Do(s, NewReader(1));
    StepReachable(s1, NewReader(2));
    assert Two(Locked(false, Out), 3, Some(5), true, map[5 := 1], {}, Rest) == Do(s1, NewReader(2));
  }

  /** The writer gets the lock in order to quit. */
  lemma QuitStarts()
    ensures Reachable(Two(Locked(true, Writing), 3, Some(5), true, map[5 := 1], {}, QuitWant))
  {
    hide Reachable;
    TwoReaders();
    var s := Two(Locked(false, Out), 3, Some(5), true, map[5 := 1], {}, Rest);
    StepReachable(s, Begin(0, QuitWant));
    var s1 := Two(Locked(false, Out), 3, Some(5), true, map[5 := 1], {}, QuitWant);
    assert s1 == Do(s, Begin(0, QuitWant));
    StepReachable(s1, LockMove(0, Write));
    var s2 := Two(Locked(false, WriteSpin), 3, Some(5), true, map[5 := 1], {}, QuitWant);
    assert s2 == Do(s1, LockMove(0, Write));
    StepReachable(s2, LockMove(0, RwLock.Go));
    var s3 := Two(Locked(true, WriteWait), 3, Some(5), true, map[5 := 1], {}, QuitWant);
    assert s3 == Do(s2, LockMove(0, RwLock.Go));
    StepReachable(s3, LockMove(0, RwLock.Go));
    assert Two(Locked(true, Writing), 3, Some(5), true, map[5 := 1], {}, QuitWant) == Do(s3, LockMove(0, RwLock.Go));
  }

  /** The writer gives up the snapshot, which is freed. */
  lemma SnapshotFreed()
    ensures Reachable(Two(Locked(true, Writing), 3, Some(5), false, map[], {5}, QuitNull))
  {
    hide Reachable;
    QuitStarts();
    var l := Locked(true, Writing);
    var s := Two(l, 3, Some(5), true, map[5 := 1], {}, QuitWant);
    StepReachable(s, Work(0));
    var s1 := Two(l, 3, Some(5), false, map[5 := 0], {}, QuitFree(5));
    assert s1 == Do(s, Work(0));
    StepReachable(s1, Work(0));
    assert map[5 := 0] - {5} == map[];
    assert Two(l, 3, Some(5), false, map[], {5}, QuitNull) == Do(s1, Work(0));
  }

  /** The writer has quit, and the object has two references. */
  lemma QuitDone()
    ensures Reachable(Two(Locked(false, Out), 2, None, true, map[], {5}, Gone))
  {
    hide Reachable;
    SnapshotFreed();
    var l := Locked(true, Writing);
    var s2 := Two(l, 3, Some(5), false, map[], {5}, QuitNull);
    StepReachable(s2, Work(0));
    var s3 := Two(l, 3, None, true, map[], {5}, QuitCount);
    assert s3 == Do(s2, Work(0));
    StepReachable(s3, Work(0));
    var s4 := Two(l, 2, None, true, map[], {5}, QuitUnlock);
    assert s4 == Do(s3, Work(0));
    StepReachable(s4, LockMove(0, Unlock));
    assert Two(Locked(false, Out), 2, None, true, map[], {5}, Gone) == Do(s4, LockMove(0, Unlock));
  }

  /** The readers are about to leave, in these jobs and phases. */
  function Leaving(read: int, p1: Phase, p2: Phase, reference: int, freed: bool, j1: Job, j2: Job): State {
    State(Lock(false, read, map[0 := Out, 1 := p1, 2 := p2]), reference, None, true, freed, 0, map[], {5},
          map[0 := Writer(Gone), 1 := Reader(j1), 2 := Reader(j2)])
  }

  lemma BothInside()
    ensures Reachable(Leaving(2, Reading, Reading, 2, false, LeaveWant, LeaveWant))
  {
    hide Reachable;
    QuitDone();
    var s := Leaving(0, Out, Out, 2, false, Rest, Rest);
    assert s == Two(Locked(false, Out), 2, None, true, map[], {5}, Gone);
    StepReachable(s, Begin(1, LeaveWant));
    var s1 := Leaving(0, Out, Out, 2, false, LeaveWant, Rest);
    assert s1 == Do(s, Begin(1, LeaveWant));
    StepReachable(s1, Begin(2, LeaveWant));
    var s2 := Leaving(0, Out, Out, 2, false, LeaveWant, LeaveWant);
    assert s2 == Do(s1, Begin(2, LeaveWant));
    GetsReadLock(s2, 1);
    var s3 := Leaving(1, Reading, Out, 2, false, LeaveWant, LeaveWant);
    assert s3 == s2.(lock := Lock(false, s2.lock.read + 1, s2.lock.at[1 := Reading]));
    GetsReadLock(s3, 2);
    assert Leaving(2, Reading, Reading, 2, false, LeaveWant, LeaveWant)
        == s3.(lock := Lock(false, s3.lock.read + 1, s3.lock.at[2 := Reading]));
  }

  /** The object has been freed, and a reader is about to unlock it. */
  lemma UnlocksFreedObject() returns (s: State)
    ensures Reachable(s) && s.objFreed && Ready(s, LockMove(1, Unlock)) && s.acts[1].job.LeaveUnlock?
    ensures UsesObject(s, LockMove(1, Unlock))
  {
    hide Reachable;
    BothInside();
    var s0 := Leaving(2, Reading, Reading, 2, false, LeaveWant, LeaveWant);
    StepReachable(s0, Work(1));
    var s1 := Leaving(2, Reading, Reading, 1, false, LeaveUnlock, LeaveWant);
    assert s1 == Do(s0, Work(1));
    StepReachable(s1, Work(2));
    s := Leaving(2, Reading, Reading, 0, true, LeaveUnlock, LeaveDrop);
    assert s == Do(s1, Work(2));
  }
}
