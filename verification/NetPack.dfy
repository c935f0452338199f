/** Cutting byte streams into packets with a two-byte length (lib/netpack/lua-netpack.c). */
module NetPack {
  import opened Wrappers
  import opened LittleEndian

  type Fd = nat
  type Bytes = seq<Byte>

  const QUEUESIZE: nat := 1024
  const HASHSIZE: nat := 4096

  // What a stream means.

  function Size(s: Bytes): nat
    requires |s| >= 2
  {
    var high: int, low: int := s[0], s[1];
    high * 256 + low
  }

  /** Is there a whole packet at the front? */
  predicate Whole(s: Bytes) {
    |s| >= 2 && |s| - 2 >= Size(s)
  }

  /** The packets of a stream, and the bytes after the last whole one. */
  function Packets(s: Bytes): seq<Bytes>
    decreases |s|
  {
    if !Whole(s) then [] else [s[2..2 + Size(s)]] + Packets(s[2 + Size(s)..])
  }

  function Unfinished(s: Bytes): Bytes
    decreases |s|
  {
    if !Whole(s) then s else Unfinished(s[2 + Size(s)..])
  }

  /** Cutting a stream in two makes no difference: the second part continues what the first
      left unfinished. */
  lemma {:induction false} CutStream(a: Bytes, b: Bytes)
    ensures Packets(a + b) == Packets(a) + Packets(Unfinished(a) + b)
    ensures Unfinished(a + b) == Unfinished(Unfinished(a) + b)
    decreases |a|
  {
    hide Packets, Unfinished;
    FrontPacket(a);
    if Whole(a) {
      var n := 2 + Size(a);
      assert (a + b)[2..n] == a[2..n] && (a + b)[n..] == a[n..] + b;
      FrontPacket(a + b);
      CutStream(a[n..], b);
      Regroup(a[2..n], Packets(a[n..]), Packets(Unfinished(a[n..]) + b));
    } else {
      assert [] + Packets(a + b) == Packets(a + b);
    }
  }

  lemma FrontPacket(s: Bytes)
    ensures Whole(s) ==> Packets(s) == [s[2..2 + Size(s)]] + Packets(s[2 + Size(s)..])
    ensures Whole(s) ==> Unfinished(s) == Unfinished(s[2 + Size(s)..])
    ensures !Whole(s) ==> Packets(s) == [] && Unfinished(s) == s
  {
  }

  lemma Regroup(p: Bytes, ps: seq<Bytes>, qs: seq<Bytes>)
    ensures [p] + (ps + qs) == ([p] + ps) + qs
  {
  }

  // Queue of packets.

  datatype Packet = Packet(fd: Fd, data: Bytes)

  class PacketQueue {
    var cap: int
    var head: int
    var tail: int
    var queue: array<Packet>

    ghost predicate Valid()
      reads this
    {
      queue.Length == cap && 0 <= head < cap && 0 <= tail < cap
    }

    ghost function Contents(): seq<Packet>
      requires Valid()
      reads this, queue
    {
      if head <= tail then queue[head..tail] else queue[head..] + queue[..tail]
    }

    constructor ()
      ensures Valid() && fresh(queue) && Contents() == []
    {
      cap, head, tail := QUEUESIZE, 0, 0;
      queue := new Packet[QUEUESIZE](_ => Packet(0, []));
    }

    /** expand_queue, when the queue is full and head == tail stands for that. */
    method Expand()
      requires Valid() && head == tail
      modifies this
      ensures Valid() && fresh(queue) && Contents() == old(queue[head..] + queue[..tail])
    {
      var bigger := new Packet[cap + QUEUESIZE](_ => Packet(0, []));
      var i := 0;
      while i < cap
        invariant 0 <= i <= cap && unchanged(this) && unchanged(queue)
        invariant forall k :: 0 <= k < i ==> bigger[k] == (queue[head..] + queue[..tail])[k]
      {
        var at := head + i;
        if at >= cap { at := at - cap; }
        bigger[i] := queue[at];
        i := i + 1;
      }
      assert bigger[..cap] == queue[head..] + queue[..tail];
      head, tail, cap := 0, cap, cap + QUEUESIZE;
      queue := bigger;
      assert Contents() == bigger[0..old(cap)];
    }

    /** push_data */
    method Push(p: Packet)
      requires Valid()
      modifies this, queue
      ensures Valid() && (queue == old(queue) || fresh(queue)) && Contents() == old(Contents()) + [p]
    {
      ghost var before := Contents();
      queue[tail] := p;
      tail := tail + 1;
      if tail >= cap { tail := tail - cap; }
      if head == tail {
        assert queue[head..] + queue[..tail] == before + [p];
        Expand();
      } else {
        assert Contents() == before + [p];
      }
    }

    /** lpop */
    method Pop() returns (p: Option<Packet>)
      requires Valid()
      modifies this`head
      ensures Valid()
      ensures p.None? ==> old(Contents()) == [] == Contents()
      ensures p.Some? ==> old(Contents()) == [p.value] + Contents()
    {
      if head == tail { return None; }
      ghost var first, all := queue[head], Contents();
      p := Some(queue[head]);
      head := head + 1;
      if head >= cap {
        head := 0;
        assert all == [first] + queue[..tail] && Contents() == queue[..tail];
      } else if head <= tail {
        assert all == [first] + queue[head..tail];
      } else {
        assert queue[head - 1..] == [first] + queue[head..];
        assert all == [first] + (queue[head..] + queue[..tail]);
      }
    }
  }

  // Unfinished packets.

  /** `read` is -1 when only the first byte of the length is known. */
  datatype Uncomplete = Uncomplete(fd: Fd, read: int, header: Byte, size: nat, data: Bytes)

  predicate Proper(u: Uncomplete) {
    u.read == -1 || (u.read == |u.data| < u.size < 0x1_0000)
  }

  /** The bytes of the stream that it stands for. */
  function Held(u: Uncomplete): Bytes
    requires Proper(u)
  {
    if u.read == -1 then [u.header] else [u.size / 256, u.size % 256] + u.data
  }

  type Buckets = seq<seq<Uncomplete>>

  /** hash_fd */
  function Bucket(fd: Fd): (b: nat)
    ensures b < HASHSIZE
  {
    (fd / 0x100_0000 + fd / 0x1000 + fd) % HASHSIZE
  }

  ghost predicate WellKept(bs: Buckets) {
    && |bs| == HASHSIZE
    && (forall b, i :: 0 <= b < |bs| && 0 <= i < |bs[b]| ==> Bucket(bs[b][i].fd) == b && Proper(bs[b][i]))
    && (forall b, i, j :: 0 <= b < |bs| && 0 <= i < j < |bs[b]| ==> bs[b][i].fd != bs[b][j].fd)
  }

  /** The unfinished bytes of a connection, in a list or in the table. */
  ghost function Waiting(us: seq<Uncomplete>, fd: Fd): Bytes
    requires forall i :: 0 <= i < |us| ==> Proper(us[i])
  {
    if us == [] then [] else if us[0].fd == fd then Held(us[0]) else Waiting(us[1..], fd)
  }

  ghost function Saved(bs: Buckets, fd: Fd): Bytes
    requires WellKept(bs)
  {
    Waiting(bs[Bucket(fd)], fd)
  }

  lemma {:induction false} WaitingAt(us: seq<Uncomplete>, i: nat)
    requires forall i :: 0 <= i < |us| ==> Proper(us[i])
    requires forall i, j :: 0 <= i < j < |us| ==> us[i].fd != us[j].fd
    requires i < |us|
    ensures Waiting(us, us[i].fd) == Held(us[i])
    ensures var without := us[..i] + us[i + 1..];
            Waiting(without, us[i].fd) == [] && forall fd :: fd != us[i].fd ==> Waiting(without, fd) == Waiting(us, fd)
    decreases |us|
  {
    var without := us[..i] + us[i + 1..];
    if i == 0 {
      assert without == us[1..];
      WaitingNone(us[1..], us[0].fd);
    } else {
      WaitingAt(us[1..], i - 1);
      assert without[1..] == us[1..][..i - 1] + us[1..][i..];
    }
  }

  lemma {:induction false} WaitingNone(us: seq<Uncomplete>, fd: Fd)
    requires forall i :: 0 <= i < |us| ==> Proper(us[i]) && us[i].fd != fd
    ensures Waiting(us, fd) == []
    decreases |us|
  {
    if us != [] { WaitingNone(us[1..], fd); }
  }

  lemma {:induction false} WaitingEmpty(us: seq<Uncomplete>, fd: Fd)
    requires forall i :: 0 <= i < |us| ==> Proper(us[i])
    requires Waiting(us, fd) == []
    ensures forall i :: 0 <= i < |us| ==> us[i].fd != fd
    decreases |us|
  {
    if us != [] {
      WaitingEmpty(us[1..], fd);
      forall i | 0 <= i < |us| ensures us[i].fd != fd { if i > 0 { assert us[i] == us[1..][i - 1]; } }
    }
  }

  ghost function WithoutEntry(bs: Buckets, b: nat, i: nat): Buckets
    requires b < |bs| && i < |bs[b]|
  {
    bs[b := bs[b][..i] + bs[b][i + 1..]]
  }

  /** The table now is the one of bs without u. */
  ghost predicate Without(bs: Buckets, now: Buckets, u: Uncomplete) {
    && WellKept(bs) && WellKept(now) && Proper(u) && Saved(bs, u.fd) == Held(u) && Saved(now, u.fd) == []
    && forall k :: k != u.fd ==> Saved(now, k) == Saved(bs, k)
  }

  /** Taking an entry out of its list. */
  lemma TakenOut(bs: Buckets, b: nat, i: nat)
    requires WellKept(bs) && b < |bs| && i < |bs[b]|
    ensures Without(bs, WithoutEntry(bs, b, i), bs[b][i])
  {
    hide Bucket, Held, Proper, Waiting;
    var us := bs[b];
    var without := us[..i] + us[i + 1..];
    assert forall j :: 0 <= j < |without| ==> without[j] == us[if j < i then j else j + 1];
    WaitingAt(us, i);
  }

  /** Putting an entry for a connection that has none at the front of its list. */
  lemma PutIn(bs: Buckets, u: Uncomplete)
    requires WellKept(bs) && Proper(u) && Saved(bs, u.fd) == []
    ensures var b := Bucket(u.fd);
            var now := bs[b := [u] + bs[b]];
            && WellKept(now) && Saved(now, u.fd) == Held(u)
            && forall k :: k != u.fd ==> Saved(now, k) == Saved(bs, k)
  {
    hide Bucket, Held, Proper;
    var b := Bucket(u.fd);
    WaitingEmpty(bs[b], u.fd);
    var now := [u] + bs[b];
    assert now[1..] == bs[b];
  }

  // The hash chains.

  class Link {
    const u: Uncomplete
    var next: Link?

    constructor (u: Uncomplete, next: Link?)
      ensures this.u == u && this.next == next
    {
      this.u, this.next := u, next;
    }
  }

  /** The links c, from the head on, hold the entries us. */
  ghost predicate Chained(head: Link?, c: seq<Link>, us: seq<Uncomplete>)
    reads set l | l in c
  {
    && |c| == |us| && (c == [] <==> head == null)
    && (c != [] ==> head == c[0] && c[|c| - 1].next == null)
    && (forall i :: 0 <= i < |c| ==> c[i].u == us[i])
    && (forall i, j :: 0 <= i && j == i + 1 < |c| ==> c[i].next == c[j])
  }

  class ChainTable {
    const hash: array<Link?>
    ghost var chains: seq<seq<Link>>
    ghost var lists: Buckets
    ghost var repr: set<Link>

    ghost predicate Valid()
      reads this, hash, repr
    {
      && hash.Length == HASHSIZE && |chains| == |lists| == HASHSIZE && WellKept(lists)
      && (forall b, i :: 0 <= b < HASHSIZE && 0 <= i < |chains[b]| ==> chains[b][i] in repr)
      && (forall b :: 0 <= b < HASHSIZE ==> Chained(hash[b], chains[b], lists[b]))
    }

    constructor ()
      ensures Valid() && fresh(hash) && fresh(repr) && forall fd :: Saved(lists, fd) == []
    {
      hash := new Link?[HASHSIZE](_ => null);
      chains, lists, repr := seq(HASHSIZE, _ => []), seq(HASHSIZE, _ => []), {};
    }

    /** find_uncomplete unlinks the entry of a connection. */
    method Find(fd: Fd) returns (u: Option<Uncomplete>)
      requires Valid()
      modifies this, hash, repr
      ensures Valid() && repr == old(repr) && Saved(lists, fd) == []
      ensures u.None? ==> old(Saved(lists, fd)) == [] && lists == old(lists)
      ensures u.Some? ==> u.value.fd == fd && Proper(u.value) && Held(u.value) == old(Saved(lists, fd))
      ensures forall k :: k != fd ==> Saved(lists, k) == old(Saved(lists, k))
    {
      hide Bucket, Held, Proper, Waiting;
      var b := Bucket(fd);
      var uc := hash[b];
      ghost var c := chains[b];
      if uc == null {
        NothingSaved(lists, fd);
        return None;
      }
      if uc.u.fd == fd {
        UnlinkFirst(b);
        return Some(uc.u);
      }
      var last := uc;
      ghost var i := 0;
      while last.next != null
        invariant 0 <= i < |c| && last == c[i] && unchanged(this) && unchanged(hash) && unchanged(repr)
        invariant last.next == (if i + 1 < |c| then c[i + 1] else null)
        invariant forall j :: 0 <= j <= i ==> c[j].u.fd != fd
        decreases |c| - i
      {
        uc := last.next;
        if uc.u.fd == fd {
          UnlinkAfter(last, b, i);
          return Some(uc.u);
        }
        last := uc;
        i := i + 1;
      }
      NothingSaved(lists, fd);
      return None;
    }

    method UnlinkFirst(b: nat)
      requires Valid() && b < HASHSIZE && hash[b] != null
      modifies this, hash
      ensures Valid() && repr == old(repr) && Without(old(lists), lists, old(hash[b].u))
    {
      hide Bucket, Held, Proper, Saved, WellKept;
      ghost var c := chains[b];
      assert hash[b].next == if |c| > 1 then c[1] else null;
      TakenOut(lists, b, 0);
      hash[b] := hash[b].next;
      chains, lists := chains[b := c[1..]], WithoutEntry(lists, b, 0);
    }

    method UnlinkAfter(last: Link, ghost b: nat, ghost i: nat)
      requires Valid() && b < HASHSIZE && i + 1 < |chains[b]| && last == chains[b][i]
      modifies this, repr
      ensures Valid() && repr == old(repr) && Without(old(lists), lists, old(lists[b][i + 1]))
    {
      hide Bucket, Held, Proper, Saved, WellKept;
      ghost var c := chains[b];
      TakenOut(lists, b, i + 1);
      assert last.next == c[i + 1];
      OnlyPlace(b, i);
      last.next := last.next.next;
      chains, lists := chains[b := c[..i + 1] + c[i + 2..]], WithoutEntry(lists, b, i + 1);
    }

    /** Entries are distinct, so no link is in two places. */
    lemma OnlyPlace(b: nat, i: nat)
      requires Valid() && b < HASHSIZE && i < |chains[b]|
      ensures forall d, j :: 0 <= d < HASHSIZE && 0 <= j < |chains[d]| ==>
        (chains[d][j] == chains[b][i] <==> d == b && j == i)
    {
      hide Bucket, Held, Proper;
    }

    /** save_uncomplete and what its callers fill in: a new link at the head of its chain. */
    method Save(u: Uncomplete)
      requires Valid() && Proper(u) && Saved(lists, u.fd) == []
      modifies this, hash
      ensures Valid() && fresh(repr - old(repr)) && Saved(lists, u.fd) == Held(u)
      ensures forall k :: k != u.fd ==> Saved(lists, k) == old(Saved(lists, k))
    {
      hide Bucket, Held, Proper, Waiting;
      var b := Bucket(u.fd);
      PutIn(lists, u);
      var l := new Link(u, hash[b]);
      hash[b] := l;
      chains := chains[b := [l] + chains[b]];
      lists := lists[b := [u] + lists[b]];
      repr := repr + {l};
    }
  }

  lemma NothingSaved(bs: Buckets, fd: Fd)
    requires WellKept(bs) && forall i :: 0 <= i < |bs[Bucket(fd)]| ==> bs[Bucket(fd)][i].fd != fd
    ensures Saved(bs, fd) == []
  {
    hide Bucket, Waiting;
    WaitingNone(bs[Bucket(fd)], fd);
  }

  // Filtering.

  datatype Outcome = Nothing | Data(packet: Packet) | More

  class Filter {
    const table: ChainTable
    const queue: PacketQueue

    ghost predicate Valid()
      reads this, table, table.hash, table.repr, queue
    {
      table.Valid() && queue.Valid()
    }

    constructor ()
      ensures Valid() && fresh(table) && fresh(table.hash) && fresh(table.repr)
      ensures fresh(queue) && fresh(queue.queue) && queue.Contents() == []
      ensures forall fd :: Saved(table.lists, fd) == []
    {
      table := new ChainTable();
      queue := new PacketQueue();
    }

    /** The start of a packet that is not whole. */
    method SaveStart(fd: Fd, chunk: Bytes)
      requires Valid() && chunk != [] && !Whole(chunk) && Saved(table.lists, fd) == []
      modifies table, table.hash
      ensures Valid() && fresh(table.repr - old(table.repr)) && Saved(table.lists, fd) == chunk
      ensures forall k :: k != fd ==> Saved(table.lists, k) == old(Saved(table.lists, k))
    {
      if |chunk| == 1 {
        table.Save(Uncomplete(fd, -1, chunk[0], 0, []));
        assert chunk == [chunk[0]];
      } else {
        table.Save(Uncomplete(fd, |chunk| - 2, 0, Size(chunk), chunk[2..]));
        assert chunk == [chunk[0], chunk[1]] + chunk[2..];
      }
    }

    /** push_more */
    method PushMore(fd: Fd, chunk: Bytes)
      requires Valid() && chunk != [] && Saved(table.lists, fd) == []
      modifies table, table.hash, table.repr, queue, queue.queue
      ensures Valid() && fresh(table.repr - old(table.repr)) && (queue.queue == old(queue.queue) || fresh(queue.queue))
      ensures queue.Contents() == old(queue.Contents()) + Sent(fd, Packets(chunk))
      ensures Saved(table.lists, fd) == Unfinished(chunk)
      ensures forall k :: k != fd ==> Saved(table.lists, k) == old(Saved(table.lists, k))
      decreases |chunk|
    {
      hide WellKept, Saved, Proper, Held;
      ghost var before := queue.Contents();
      if !Whole(chunk) {
        SaveStart(fd, chunk);
        SentNone(fd);
        return;
      }
      var n := 2 + Size(chunk);
      ghost var p := chunk[2..n];
      queue.Push(Packet(fd, chunk[2..n]));
      SentMore(fd, p, Packets(chunk[n..]), before);
      if |chunk| > n {
        PushMore(fd, chunk[n..]);
      } else {
        assert chunk[n..] == [];
        SentNone(fd);
      }
    }

    /** filter_data_: the packets of the saved bytes followed by the chunk come out, alone or
        through the queue, and what is unfinished is saved. */
    method FilterData(fd: Fd, chunk: Bytes) returns (out: Outcome)
      requires Valid() && chunk != []
      modifies table, table.hash, table.repr, queue, queue.queue
      ensures Valid() && fresh(table.repr - old(table.repr)) && (queue.queue == old(queue.queue) || fresh(queue.queue))
      ensures var s := old(Saved(table.lists, fd)) + chunk;
              && Saved(table.lists, fd) == Unfinished(s)
              && (out.Nothing? ==> Packets(s) == [])
              && (out.Data? ==> Packets(s) == [out.packet.data] && out.packet.fd == fd)
              && queue.Contents() == old(queue.Contents()) + if out.More? then Sent(fd, Packets(s)) else []
      ensures forall k :: k != fd ==> Saved(table.lists, k) == old(Saved(table.lists, k))
    {
      hide WellKept, Saved, Proper, Held, Packets, Unfinished, Sent;
      ghost var held := Saved(table.lists, fd);
      var u := table.Find(fd);
      if u.None? {
        assert held + chunk == chunk;
        out := FilterStart(fd, chunk);
      } else {
        out := FilterMore(fd, u.value, chunk);
      }
    }

    /** The branch of filter_data_ that continues a packet. */
    method FilterMore(fd: Fd, u: Uncomplete, chunk: Bytes) returns (out: Outcome)
      requires Valid() && chunk != [] && Saved(table.lists, fd) == [] && Proper(u) && u.fd == fd
      modifies table, table.hash, table.repr, queue, queue.queue
      ensures Valid() && fresh(table.repr - old(table.repr)) && (queue.queue == old(queue.queue) || fresh(queue.queue))
      ensures var s := Held(u) + chunk;
              && Saved(table.lists, fd) == Unfinished(s)
              && (out.Nothing? ==> Packets(s) == [])
              && (out.Data? ==> Packets(s) == [out.packet.data] && out.packet.fd == fd)
              && queue.Contents() == old(queue.Contents()) + if out.More? then Sent(fd, Packets(s)) else []
      ensures forall k :: k != fd ==> Saved(table.lists, k) == old(Saved(table.lists, k))
    {
      hide WellKept, Saved, Proper, Held, Packets, Unfinished, Sent;
      var size, data, rest := u.size, u.data, chunk;
      if u.read < 0 {
        var high: int, low: int := u.header, chunk[0];
        size, data, rest := high * 256 + low, [], chunk[1..];
      }
      ghost var s, before := Held(u) + chunk, queue.Contents();
      Refilled(u, chunk, size, data, rest);
      if |rest| < size - |data| {
        HeldAgain(fd, size, data + rest, s);
        table.Save(Uncomplete(fd, |data| + |rest|, 0, size, data + rest));
        return Nothing;
      }
      var need := size - |data|;
      var packet := data + rest[..need];
      FirstPacket(s, size, data, rest);
      if |rest| == need {
        return Data(Packet(fd, packet));
      }
      queue.Push(Packet(fd, packet));
      SentMore(fd, packet, Packets(rest[need..]), before);
      PushMore(fd, rest[need..]);
      return More;
    }

    /** The branch of filter_data_ without saved bytes. */
    method FilterStart(fd: Fd, chunk: Bytes) returns (out: Outcome)
      requires Valid() && chunk != [] && Saved(table.lists, fd) == []
      modifies table, table.hash, table.repr, queue, queue.queue
      ensures Valid() && fresh(table.repr - old(table.repr)) && (queue.queue == old(queue.queue) || fresh(queue.queue))
      ensures Saved(table.lists, fd) == Unfinished(chunk)
      ensures out.Nothing? ==> Packets(chunk) == []
      ensures out.Data? ==> Packets(chunk) == [out.packet.data] && out.packet.fd == fd
      ensures queue.Contents() == old(queue.Contents()) + if out.More? then Sent(fd, Packets(chunk)) else []
      ensures forall k :: k != fd ==> Saved(table.lists, k) == old(Saved(table.lists, k))
    {
      hide WellKept, Saved, Proper, Held;
      if !Whole(chunk) {
        SaveStart(fd, chunk);
        return Nothing;
      }
      var n := 2 + Size(chunk);
      var packet := chunk[2..n];
      if |chunk| == n {
        assert chunk[n..] == [];
        return Data(Packet(fd, packet));
      }
      PushMore(fd, chunk);
      return More;
    }
  }

  function Sent(fd: Fd, ps: seq<Bytes>): seq<Packet> {
    seq(|ps|, i requires 0 <= i < |ps| => Packet(fd, ps[i]))
  }

  lemma SentNone(fd: Fd)
    ensures Sent(fd, []) == []
  {
  }

  lemma SentMore(fd: Fd, p: Bytes, ps: seq<Bytes>, before: seq<Packet>)
    ensures (before + [Packet(fd, p)]) + Sent(fd, ps) == before + Sent(fd, [p] + ps)
  {
  }

  /** The saved bytes and the chunk, with the length read. */
  lemma Refilled(u: Uncomplete, chunk: Bytes, size: int, data: Bytes, rest: Bytes)
    requires Proper(u) && chunk != []
    requires u.read >= 0 ==> size == u.size && data == u.data && rest == chunk
    requires u.read < 0 ==> data == [] && rest == chunk[1..]
    requires u.read < 0 ==> var high: int, low: int := u.header, chunk[0]; size == high * 256 + low
    ensures 0 <= size < 0x1_0000 && |data| <= size
    ensures Held(u) + chunk == [size / 256, size % 256] + (data + rest)
  {
    if u.read < 0 {
      assert size / 256 == u.header && size % 256 == chunk[0];
      assert chunk == [chunk[0]] + chunk[1..];
    } else {
      assert ([size / 256, size % 256] + data) + rest == [size / 256, size % 256] + (data + rest);
    }
  }

  lemma HeldAgain(fd: Fd, size: int, data: Bytes, s: Bytes)
    requires 0 <= |data| < size < 0x1_0000 && s == [size / 256, size % 256] + data
    ensures var u := Uncomplete(fd, |data|, 0, size, data);
            Proper(u) && Held(u) == s && Unfinished(s) == s && Packets(s) == []
  {
    assert Size(s) == size;
  }

  lemma FirstPacket(s: Bytes, size: int, data: Bytes, rest: Bytes)
    requires 0 <= size < 0x1_0000 && |data| <= size && |rest| >= size - |data|
             && s == [size / 256, size % 256] + (data + rest)
    ensures var need := size - |data|;
            && Packets(s) == [data + rest[..need]] + Packets(rest[need..])
            && Unfinished(s) == Unfinished(rest[need..])
            && (|rest| == need ==> Packets(rest[need..]) == [] && Unfinished(rest[need..]) == [])
  {
    var need := size - |data|;
    assert Size(s) == size;
    assert s[2..2 + size] == data + rest[..need];
    assert s[2 + size..] == rest[need..];
  }

  // Runs.

  /** Chunks as they arrive, with the connections they belong to. */
  datatype Chunk = Chunk(fd: Fd, data: Bytes)

  /** Everything that arrived on a connection. */
  function Stream(cs: seq<Chunk>, fd: Fd): Bytes {
    if cs == [] then []
    else Stream(cs[..|cs| - 1], fd) + if cs[|cs| - 1].fd == fd then cs[|cs| - 1].data else []
  }

  /** Everything that came out for a connection, chunk by chunk. */
  function Emitted(cs: seq<Chunk>, fd: Fd): seq<Bytes> {
    if cs == [] then []
    else
      var before, c := cs[..|cs| - 1], cs[|cs| - 1];
      Emitted(before, fd) + if c.fd == fd then Packets(Left(before, fd) + c.data) else []
  }

  /** What is saved for a connection after the chunks. */
  function Left(cs: seq<Chunk>, fd: Fd): Bytes {
    if cs == [] then []
    else
      var before, c := cs[..|cs| - 1], cs[|cs| - 1];
      if c.fd == fd then Unfinished(Left(before, fd) + c.data) else Left(before, fd)
  }

  /** However the streams are cut and interleaved, the packets that come out for a connection
      are those of its stream, and what is saved is the unfinished rest. */
  lemma {:induction false} FramingIsExact(cs: seq<Chunk>, fd: Fd)
    ensures Emitted(cs, fd) == Packets(Stream(cs, fd)) && Left(cs, fd) == Unfinished(Stream(cs, fd))
    decreases |cs|
  {
    hide Packets, Unfinished;
    if cs == [] {
      NoBytes();
    } else {
      var before, c := cs[..|cs| - 1], cs[|cs| - 1];
      FramingIsExact(before, fd);
      if c.fd == fd {
        CutStream(Stream(before, fd), c.data);
      } else {
        assert Stream(before, fd) + [] == Stream(before, fd);
      }
    }
  }

  lemma NoBytes()
    ensures Packets([]) == [] && Unfinished([]) == []
  {
  }

  /** The packets of one connection. */
  function Of(ps: seq<Packet>, fd: Fd): seq<Bytes> {
    if ps == [] then [] else Of(ps[..|ps| - 1], fd) + if ps[|ps| - 1].fd == fd then [ps[|ps| - 1].data] else []
  }

  lemma {:induction false} OfMore(ps: seq<Packet>, c: Fd, xs: seq<Bytes>, fd: Fd)
    ensures Of(ps + Sent(c, xs), fd) == Of(ps, fd) + if fd == c then xs else []
    decreases |xs|
  {
    if xs == [] {
      assert ps + Sent(c, xs) == ps;
    } else {
      var front, x := xs[..|xs| - 1], xs[|xs| - 1];
      var all := ps + Sent(c, xs);
      assert all[..|all| - 1] == ps + Sent(c, front) && all[|all| - 1] == Packet(c, x);
      assert xs == front + [x];
      OfMore(ps, c, front, fd);
    }
  }

  /** The consumer empties the queue. */
  method Drain(q: PacketQueue) returns (ps: seq<Packet>)
    requires q.Valid()
    modifies q`head
    ensures q.Valid() && q.Contents() == [] && ps == old(q.Contents())
  {
    hide PacketQueue.Contents;
    ghost var all := q.Contents();
    ps := [];
    var p := q.Pop();
    while p.Some?
      invariant q.Valid() && all == ps + (if p.Some? then [p.value] + q.Contents() else [])
                && (p.None? ==> q.Contents() == [])
      decreases |all| - |ps|
    {
      ghost var rest := q.Contents();
      assert all == (ps + [p.value]) + rest;
      ps := ps + [p.value];
      p := q.Pop();
      assert p.None? ==> ps + rest == ps;
    }
    assert all == ps;
  }

  /** A whole run of the filter and its consumer: for every connection the packets come out in
      the order of its stream, and the unfinished rest is saved. */
  method FilterAll(f: Filter, cs: seq<Chunk>) returns (ps: seq<Packet>)
    requires f.Valid() && f.queue.Contents() == [] && (forall fd :: Saved(f.table.lists, fd) == [])
    requires forall i :: 0 <= i < |cs| ==> cs[i].data != []
    modifies f.table, f.table.hash, f.table.repr, f.queue, f.queue.queue
    ensures f.Valid()
    ensures forall fd :: Of(ps, fd) == Packets(Stream(cs, fd)) && Saved(f.table.lists, fd) == Unfinished(Stream(cs, fd))
  {
    hide WellKept, Saved, Packets, Unfinished, PacketQueue.Contents;
    ps := [];
    var i := 0;
    assert cs[..0] == [];
    while i < |cs|
      invariant 0 <= i <= |cs| && f.Valid() && f.queue.Contents() == []
      invariant fresh(f.table.repr - old(f.table.repr))
      invariant f.queue.queue == old(f.queue.queue) || fresh(f.queue.queue)
      invariant forall fd :: Of(ps, fd) == Emitted(cs[..i], fd)
      invariant forall fd :: Saved(f.table.lists, fd) == Left(cs[..i], fd)
    {
      var c := cs[i];
      ghost var s := Saved(f.table.lists, c.fd) + c.data;
      var out := f.FilterData(c.fd, c.data);
      var more := Drain(f.queue);
      if out.Data? { more := [out.packet]; }
      assert more == Sent(c.fd, Packets(s));
      assert cs[..i + 1][..i] == cs[..i];
      forall fd ensures Of(ps + more, fd) == Emitted(cs[..i + 1], fd) { OfMore(ps, c.fd, Packets(s), fd); }
      ps := ps + more;
      i := i + 1;
    }
    assert cs[..i] == cs;
    forall fd
      ensures Of(ps, fd) == Packets(Stream(cs, fd)) && Saved(f.table.lists, fd) == Unfinished(Stream(cs, fd))
    {
      FramingIsExact(cs, fd);
    }
  }
}
