/** The message queue of a service as a ring buffer, and the run list as a linked list
    (core/uboss_mq.c). The methods carry out the queue steps of `Scheduler`. */
module MessageQueue {
  import opened Wrappers
  import opened LittleEndian
  import Sched = Scheduler

  const DEFAULT_QUEUE_SIZE := 64
  const MQ_OVERLOAD := 1024

  /** The first of t, 2t, 4t, ... that is not below n. */
  function Doubled(t: int, n: int): (r: int)
    requires t >= 1
    ensures r >= t && r >= n
    ensures r == t || r < 2 * n
    decreases n - t
  {
    if n > t then Doubled(2 * t, n) else t
  }

  /** The threshold doubled k times, and the doubling before is still below n. */
  lemma {:induction false} DoubledIs(t: int, n: int) returns (k: nat)
    requires t >= 1
    ensures Doubled(t, n) == t * Pow2(k) && n <= t * Pow2(k)
    ensures k > 0 ==> t * Pow2(k - 1) < n
    decreases n - t
  {
    hide Pow2;
    TwicePow2(t, 0);
    if n <= t { return 0; }
    var m := DoubledIs(2 * t, n);
    k := m + 1;
    TwicePow2(t, m);
    if m > 0 { TwicePow2(t, m - 1); }
  }

  lemma TwicePow2(t: int, m: nat)
    ensures t * Pow2(m + 1) == 2 * t * Pow2(m) && t * Pow2(0) == t
  {
    var x := Pow2(m);
    assert Pow2(m + 1) == 2 * x;
    assert t * (2 * x) == 2 * t * x;
  }

  class Ring {
    var handle: nat
    var cap: int
    var head: int
    var tail: int
    var release: bool
    var inGlobal: bool
    var overload: int
    var threshold: int
    var queue: array<Sched.Message>
    var next: Ring?

    ghost predicate Valid()
      reads this
    {
      queue.Length == cap && 0 <= head < cap && 0 <= tail < cap && threshold >= 1
    }

    ghost function Contents(): (s: seq<Sched.Message>)
      requires Valid()
      reads this, queue
    {
      if head <= tail then queue[head..tail] else queue[head..] + queue[..tail]
    }

    /** The queue as the scheduler's model sees it. */
    ghost function View(ctx: Sched.ContextId): Sched.Queue
      requires Valid()
      reads this, queue
    {
      Sched.Queue(handle, ctx, Contents(), inGlobal, release)
    }

    /** uboss_mq_create */
    constructor (h: nat)
      ensures Valid() && fresh(queue) && next == null && cap == DEFAULT_QUEUE_SIZE
      ensures overload == 0 && threshold == MQ_OVERLOAD
      ensures forall c :: View(c) == Sched.Queue(h, c, [], true, false)
    {
      handle, cap, head, tail := h, DEFAULT_QUEUE_SIZE, 0, 0;
      release, inGlobal, overload, threshold := false, true, 0, MQ_OVERLOAD;
      queue := new Sched.Message[DEFAULT_QUEUE_SIZE];
      next := null;
    }

    lemma ContentsSize()
      requires Valid()
      ensures |Contents()| == if head <= tail then tail - head else tail + cap - head
      ensures head == tail ==> Contents() == []
    {
    }

    /** uboss_mq_length */
    method Length() returns (n: int)
      requires Valid()
      ensures n == |Contents()|
    {
      if head <= tail { return tail - head; }
      return tail + cap - head;
    }

    /** uboss_mq_pop */
    method Pop() returns (m: Option<Sched.Message>)
      requires Valid()
      modifies this`head, this`inGlobal, this`overload, this`threshold
      ensures Valid()
      ensures forall c :: View(c) == Sched.Popping(old(View(c)))
      ensures m.None? ==> old(Contents()) == [] == Contents() && !inGlobal
      ensures m.Some? ==> old(Contents()) == [m.value] + Contents() && inGlobal == old(inGlobal)
      ensures m.None? ==> threshold == MQ_OVERLOAD && overload == old(overload)
      ensures m.Some? ==>
                var n := |old(Contents())| - 1;
                && threshold == Doubled(old(threshold), n)
                && overload == if n > old(threshold) then n else old(overload)
    {
      hide Ring.Contents;
      ContentsSize();
      if head != tail {
        m := Some(queue[head]);
        AdvanceHead();
        ContentsSize();
        var length := tail - head;
        if length < 0 { length := length + cap; }
        NoteLength(length);
        assert Contents() == old(Contents())[1..];
      } else {
        m := None;
        threshold := MQ_OVERLOAD;
        inGlobal := false;
        ContentsSize();
      }
    }

    method AdvanceHead()
      requires Valid() && head != tail
      modifies this`head
      ensures Valid() && old(Contents()) == [old(queue[head])] + Contents()
    {
      head := head + 1;
      if head >= cap { head := 0; }
    }

    /** The overload bookkeeping of uboss_mq_pop. */
    method NoteLength(length: int)
      requires Valid()
      modifies this`overload, this`threshold
      ensures threshold == Doubled(old(threshold), length)
      ensures overload == if length > old(threshold) then length else old(overload)
      ensures Valid() && Contents() == old(Contents())
    {
      while length > threshold
        invariant 1 <= threshold
        invariant Doubled(threshold, length) == Doubled(old(threshold), length)
        invariant overload == if threshold == old(threshold) then old(overload) else length
        invariant threshold == old(threshold) || (length > old(threshold) && threshold > old(threshold))
        decreases length - threshold
      {
        overload := length;
        threshold := threshold * 2;
      }
    }

    /** expand_queue: called when the last free cell was filled, so that head == tail stands for
        a full buffer. */
    method Expand()
      requires Valid() && head == tail
      modifies this`head, this`tail, this`cap, this`queue
      ensures Valid() && fresh(queue) && cap == 2 * old(cap)
      ensures Contents() == old(queue[head..]) + old(queue[..tail])
    {
      var bigger := new Sched.Message[cap * 2];
      var i := 0;
      while i < cap
        invariant 0 <= i <= cap && unchanged(this) && unchanged(queue)
        invariant forall k :: 0 <= k < i ==> bigger[k] == (queue[head..] + queue[..tail])[k]
      {
        RingIndex(head, i, cap);
        bigger[i] := queue[(head + i) % cap];
        i := i + 1;
      }
      ghost var all := queue[head..] + queue[..tail];
      assert bigger[..cap] == all;
      head := 0;
      tail := cap;
      cap := cap * 2;
      queue := bigger;
      assert Contents() == bigger[0..old(cap)];
    }

    /** The first half of uboss_mq_push: storing the message. */
    method Store(m: Sched.Message)
      requires Valid()
      modifies this`head, this`tail, this`cap, this`queue, queue
      ensures Valid() && (queue == old(queue) || fresh(queue))
      ensures Contents() == old(Contents()) + [m]
      ensures cap == if |old(Contents())| + 1 == old(cap) then 2 * old(cap) else old(cap)
    {
      ghost var before := Contents();
      queue[tail] := m;
      ghost var at := tail;
      tail := tail + 1;
      if tail >= cap { tail := 0; }
      if head == tail {
        assert queue[head..] + queue[..tail] == before + [m];
        Expand();
      } else {
        assert Contents() == before + [m];
      }
    }
  }

  lemma RingIndex(head: int, i: int, cap: int)
    requires 0 <= head < cap && 0 <= i < cap
    ensures (head + i) % cap == if head + i < cap then head + i else head + i - cap
  {
    if head + i < cap { SmallMod(head + i, cap, 0); } else { SmallMod(head + i - cap, cap, 1); }
  }

  lemma SmallMod(r: int, m: int, k: int)
    requires 0 <= r < m && 0 <= k <= 1
    ensures (k * m + r) % m == r
  {
  }

  /** The global run list. */
  class RunList {
    var head: Ring?
    var tail: Ring?
    ghost var items: seq<Ring>

    ghost predicate Valid()
      reads this, items
    {
      && (head == null <==> items == []) && (tail == null <==> items == [])
      && (items != [] ==> head == items[0] && tail == items[|items| - 1] && tail.next == null)
      && (forall i, j :: 0 <= i && j == i + 1 < |items| ==> items[i].next == items[j])
      && (forall i, j :: 0 <= i < j < |items| ==> items[i] != items[j])
    }

    /** uboss_mq_init */
    constructor ()
      ensures Valid() && items == []
    {
      head, tail, items := null, null, [];
    }

    /** uboss_globalmq_push */
    method Push(q: Ring)
      requires Valid() && q !in items && q.next == null
      modifies this, (set r | r in items)`next
      ensures Valid() && items == old(items) + [q]
    {
      if tail != null {
        tail.next := q;
        tail := q;
      } else {
        head, tail := q, q;
      }
      items := items + [q];
    }

    /** uboss_globalmq_pop */
    method Pop() returns (q: Ring?)
      requires Valid()
      modifies this, (set r | r in items)`next
      ensures Valid()
      ensures old(items) == [] ==> q == null && items == []
      ensures old(items) != [] ==> q == old(items)[0] && items == old(items)[1..] && q.next == null && q !in items
    {
      q := head;
      if q != null {
        assert |items| > 1 ==> q.next == items[1];
        head := q.next;
        if head == null {
          assert q == tail;
          tail := null;
        }
        q.next := null;
        items := items[1..];
      }
    }
  }

  /** uboss_mq_push */
  method PushMessage(q: Ring, m: Sched.Message, g: RunList)
    requires q.Valid() && g.Valid() && (!q.inGlobal ==> q !in g.items && q.next == null)
    modifies q, q.queue, g, (set r | r in g.items)`next
    ensures q.Valid() && g.Valid() && (q.queue == old(q.queue) || fresh(q.queue))
    ensures forall c :: q.View(c) == Sched.Arrived(old(q.View(c)), m)
    ensures g.items == if old(q.inGlobal) then old(g.items) else old(g.items) + [q]
  {
    q.Store(m);
    if !q.inGlobal {
      q.inGlobal := true;
      g.Push(q);
    }
  }

  /** uboss_mq_mark_release: the flag that tells where the queue is stays as it is. */
  method MarkRelease(q: Ring, g: RunList)
    requires q.Valid() && g.Valid() && !q.release && (!q.inGlobal ==> q !in g.items && q.next == null)
    modifies q, g, (set r | r in g.items)`next
    ensures q.Valid() && g.Valid() && q.queue == old(q.queue)
    ensures forall c :: q.View(c) == old(q.View(c)).(release := true)
    ensures g.items == if old(q.inGlobal) then old(g.items) else old(g.items) + [q]
  {
    q.release := true;
    if !q.inGlobal { g.Push(q); }
  }

  /** _drop_queue up to the release of the memory: what is dropped is what waits, in order. */
  method DropQueue(q: Ring) returns (dropped: seq<Sched.Message>)
    requires q.Valid()
    modifies q
    ensures q.Valid() && dropped == old(q.Contents()) && q.Contents() == [] && !q.inGlobal
    ensures q.next == old(q.next) && q.release == old(q.release)
  {
    hide Ring.Contents, Ring.View;
    ghost var all := q.Contents();
    dropped := [];
    var m := q.Pop();
    while m.Some?
      invariant q.Valid() && q.next == old(q.next) && q.release == old(q.release)
      invariant m.Some? ==> all == dropped + ([m.value] + q.Contents())
      invariant m.None? ==> all == dropped && q.Contents() == [] && !q.inGlobal
      decreases |all| - |dropped|
    {
      ghost var rest := q.Contents();
      assert all == (dropped + [m.value]) + rest;
      dropped := dropped + [m.value];
      m := q.Pop();
      assert m.None? ==> dropped + rest == dropped;
    }
  }

  /** uboss_mq_release: a released queue is emptied (`gone`), any other goes back on the list. */
  method ReleaseQueue(q: Ring, g: RunList) returns (gone: bool, dropped: seq<Sched.Message>)
    requires q.Valid() && g.Valid() && q !in g.items && q.next == null
    modifies q, g, (set r | r in g.items)`next
    ensures q.Valid() && g.Valid() && gone == old(q.release)
    ensures gone ==> dropped == old(q.Contents()) && g.items == old(g.items) && q !in g.items
    ensures !gone ==> dropped == [] && g.items == old(g.items) + [q] && forall c :: q.View(c) == old(q.View(c))
  {
    gone := q.release;
    if gone {
      dropped := DropQueue(q);
    } else {
      dropped := [];
      g.Push(q);
    }
  }
}
