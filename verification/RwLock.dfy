/** The spinning read-write lock of core/uboss_lock.h, one step per atomic access to its two
    words, for any number of threads under sequentially consistent memory. */
module RwLock {
  type Thread = nat

  /** Where a thread is in its use of the lock. */
  datatype Phase =
    | Out
    | ReadSpin      // waiting for `write` to be clear
    | ReadAdd       // saw it clear, about to count itself
    | ReadCheck     // counted itself, about to look at `write` again
    | ReadBack      // saw it set, about to take the count back
    | Reading
    | WriteSpin     // about to test and set `write`
    | WriteWait     // has set it, waiting for `read` to be zero
    | Writing

  type Phases = map<Thread, Phase>

  datatype Lock = Lock(write: bool, read: int, at: Phases)

  datatype Move = Read | Write | Go | Unlock

  predicate CanMove(l: Lock, t: Thread, m: Move) {
    t in l.at && match m
    case Read => l.at[t].Out?
    case Write => l.at[t].Out?
    case Go => !l.at[t].Out? && !l.at[t].Reading? && !l.at[t].Writing?
    case Unlock => l.at[t].Reading? || l.at[t].Writing?
  }

  function To(l: Lock, t: Thread, p: Phase): Lock {
    l.(at := l.at[t := p])
  }

  /** One atomic access by thread t. */
  function Moved(l: Lock, t: Thread, m: Move): Lock
    requires CanMove(l, t, m)
  {
    match m
    case Read => To(l, t, ReadSpin)
    case Write => To(l, t, WriteSpin)
    case Unlock => if l.at[t].Reading? then To(l, t, Out).(read := l.read - 1) else To(l, t, Out).(write := false)
    case Go =>
      match l.at[t]
      case ReadSpin => if l.write then l else To(l, t, ReadAdd)
      case ReadAdd => To(l, t, ReadCheck).(read := l.read + 1)
      case ReadCheck => To(l, t, if l.write then ReadBack else Reading)
      case ReadBack => To(l, t, ReadSpin).(read := l.read - 1)
      case WriteSpin => if l.write then l else To(l, t, WriteWait).(write := true)
      case WriteWait => if l.read != 0 then l else To(l, t, Writing)
  }

  predicate Counted(p: Phase) {
    p.ReadCheck? || p.ReadBack? || p.Reading?
  }

  predicate Claims(p: Phase) {
    p.WriteWait? || p.Writing?
  }

  ghost function Count(at: Phases): set<Thread> {
    set t | t in at && Counted(at[t])
  }

  ghost predicate Claimed(at: Phases) {
    exists t :: t in at && Claims(at[t])
  }

  /** `read` counts the readers that have added themselves, `write` is set while one thread
      claims the lock for writing, and a writer excludes readers. */
  ghost predicate LockInv(l: Lock) {
    && l.read == |Count(l.at)|
    && (l.write <==> Claimed(l.at))
    && (forall t, u :: t in l.at && u in l.at && Claims(l.at[t]) && Claims(l.at[u]) ==> t == u)
    && (forall t, u :: t in l.at && u in l.at && l.at[t].Writing? ==> !l.at[u].Reading?)
  }

  lemma CountChange(at: Phases, t: Thread, p: Phase)
    requires t in at
    ensures |Count(at[t := p])| == |Count(at)| - (if Counted(at[t]) then 1 else 0) + if Counted(p) then 1 else 0
  {
    var rest := Count(at) - {t};
    assert Count(at) == if Counted(at[t]) then rest + {t} else rest;
    assert Count(at[t := p]) == if Counted(p) then rest + {t} else rest;
  }

  lemma ClaimedChange(at: Phases, t: Thread, p: Phase)
    requires t in at
    ensures Claims(p) ==> Claimed(at[t := p])
    ensures Claims(p) == Claims(at[t]) ==> Claimed(at[t := p]) == Claimed(at)
    ensures Claims(at[t]) && !Claims(p) && (forall u :: u in at && Claims(at[u]) ==> u == t) ==> !Claimed(at[t := p])
  {
    assert Claims(p) ==> t in at[t := p] && Claims(at[t := p][t]);
    if Claimed(at) {
      var u :| u in at && Claims(at[u]);
      assert u != t ==> u in at[t := p] && Claims(at[t := p][u]);
    }
  }

  lemma CountSome(at: Phases, t: Thread)
    requires t in at && Counted(at[t])
    ensures |Count(at)| > 0
  {
    assert t in Count(at);
  }

  lemma MoveKeepsInv(l: Lock, t: Thread, m: Move)
    requires LockInv(l) && CanMove(l, t, m)
    ensures LockInv(Moved(l, t, m))
  {
    hide Count;
    var p := Moved(l, t, m).at[t];
    CountChange(l.at, t, p);
    ClaimedChange(l.at, t, p);
    if l.at[t].WriteWait? {
      forall u | u in l.at && Counted(l.at[u]) ensures l.read > 0 { CountSome(l.at, u); }
    }
  }

  lemma SpawnKeepsInv(l: Lock, t: Thread)
    requires LockInv(l) && t !in l.at
    ensures LockInv(To(l, t, Out))
  {
    assert Count(l.at[t := Out]) == Count(l.at);
    if Claimed(l.at) {
      var u :| u in l.at && Claims(l.at[u]);
      assert Claims(l.at[t := Out][u]);
    }
  }

  /** A run of the lock: threads appear, and threads move. */
  datatype Event = Appear(t: Thread) | Takes(t: Thread, m: Move)

  predicate Enabled(l: Lock, e: Event) {
    match e
    case Appear(t) => t !in l.at
    case Takes(t, m) => CanMove(l, t, m)
  }

  function After(l: Lock, e: Event): Lock
    requires Enabled(l, e)
  {
    match e
    case Appear(t) => To(l, t, Out)
    case Takes(t, m) => Moved(l, t, m)
  }

  ghost predicate IsLockRun(ls: seq<Lock>, es: seq<Event>) {
    && |ls| == |es| + 1 && ls[0] == Lock(false, 0, map[])
    && forall i :: 0 <= i < |es| ==> Enabled(ls[i], es[i]) && ls[i + 1] == After(ls[i], es[i])
  }

  /** In no run is a writer admitted alongside a reader or another writer. */
  lemma {:induction false} MutualExclusion(ls: seq<Lock>, es: seq<Event>, n: nat)
    requires IsLockRun(ls, es) && n <= |es|
    ensures LockInv(ls[n])
    ensures forall t, u :: t in ls[n].at && u in ls[n].at && t != u && ls[n].at[t].Writing? ==>
              !ls[n].at[u].Reading? && !ls[n].at[u].Writing?
  {
    if n == 0 {
      assert Count(ls[0].at) == {};
    } else {
      MutualExclusion(ls, es, n - 1);
      match es[n - 1]
      case Appear(t) => SpawnKeepsInv(ls[n - 1], t);
      case Takes(t, m) => MoveKeepsInv(ls[n - 1], t, m);
    }
  }

  /** When every thread is outside or only spins, both words are clear: the lock is never left
      taken. */
  lemma FreeWhenAllOut(ls: seq<Lock>, es: seq<Event>, n: nat)
    requires IsLockRun(ls, es) && n <= |es|
    requires forall t :: t in ls[n].at ==> !Counted(ls[n].at[t]) && !Claims(ls[n].at[t])
    ensures ls[n].read == 0 && !ls[n].write
  {
    MutualExclusion(ls, es, n);
    assert Count(ls[n].at) == {};
  }
}
