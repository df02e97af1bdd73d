/**
 The demo-fifo driver: a ring buffer with free-running 32-bit head and tail, and the
 readable/writable signals a client waits on.
 */
module Fifo {
  import opened Basics

  const FIFOSIZE: int := 32768
  const FIFOMASK: int := FIFOSIZE - 1

  // ---------- the abstract queue ----------

  // What a client can observe: the buffered bytes and the two signals.
  datatype Queue = Queue(bytes: seq<byte>, readable: bool, writable: bool)

  datatype Request = ReadReq(len: nat) | WriteReq(buf: seq<byte>)

  const BOUND := Queue([], false, true)

  predicate WellSized(q: Queue) {
    |q.bytes| <= FIFOMASK
  }

  // How many bytes a request moves.
  function Moved(q: Queue, req: Request): nat
    requires WellSized(q)
  {
    match req
    case ReadReq(len) => Min(len, |q.bytes|)
    case WriteReq(buf) => Min(|buf|, FIFOMASK - |q.bytes|)
  }

  function Serve(q: Queue, req: Request): Queue
    requires WellSized(q)
  {
    var n := Moved(q, req);
    match req
    case ReadReq(_) =>
      Queue(q.bytes[n..], if n == 0 then false else q.readable, if n == 0 then q.writable else true)
    case WriteReq(buf) =>
      Queue(q.bytes + buf[..n], if n == 0 then q.readable else true, if n == 0 then false else q.writable)
  }

  // ---------- every interleaving of requests ----------

  // A run so far: the queue, all bytes accepted from writers and all bytes handed to readers.
  datatype History = History(queue: Queue, accepted: seq<byte>, delivered: seq<byte>)

  function Record(h: History, req: Request): History
    requires WellSized(h.queue)
  {
    var n := Moved(h.queue, req);
    match req
    case ReadReq(_) => History(Serve(h.queue, req), h.accepted, h.delivered + h.queue.bytes[..n])
    case WriteReq(buf) => History(Serve(h.queue, req), h.accepted + buf[..n], h.delivered)
  }

  function Replay(reqs: seq<Request>): (h: History)
    ensures WellSized(h.queue)
  {
    if reqs == [] then History(BOUND, [], []) else Record(Replay(reqs[..|reqs| - 1]), reqs[|reqs| - 1])
  }

  // Nothing is lost, duplicated or reordered.
  lemma {:induction false} BytesAreConserved(reqs: seq<Request>)
    ensures var h := Replay(reqs); h.delivered + h.queue.bytes == h.accepted
  {
    if reqs != [] {
      var h := Replay(reqs[..|reqs| - 1]);
      BytesAreConserved(reqs[..|reqs| - 1]);
      var n := Moved(h.queue, reqs[|reqs| - 1]);
      match reqs[|reqs| - 1]
      case ReadReq(_) => assert h.delivered + h.queue.bytes == h.delivered + h.queue.bytes[..n] + h.queue.bytes[n..];
      case WriteReq(buf) => assert h.delivered + (h.queue.bytes + buf[..n]) == h.delivered + h.queue.bytes + buf[..n];
    }
  }

  // ---------- no lost wake-up ----------

  // A client waiting for a signal is not kept waiting while it could proceed.
  predicate Signalled(q: Queue) {
    && (q.bytes != [] ==> q.readable)
    && (|q.bytes| < FIFOMASK ==> q.writable)
  }

  // A zero-length request is answered like an empty (or full) FIFO, and drops the signal.
  predicate DropsSignal(q: Queue, req: Request) {
    match req
    case ReadReq(len) => len == 0 && q.bytes != []
    case WriteReq(buf) => buf == [] && |q.bytes| < FIFOMASK
  }

  // The signals are right after every prefix of the run.
  ghost predicate AlwaysSignalled(reqs: seq<Request>) {
    && Signalled(Replay(reqs).queue)
    && (reqs != [] ==> AlwaysSignalled(reqs[..|reqs| - 1]))
  }

  ghost predicate NeverDrops(reqs: seq<Request>) {
    reqs != [] ==>
      var init := reqs[..|reqs| - 1];
      NeverDrops(init) && !DropsSignal(Replay(init).queue, reqs[|reqs| - 1])
  }

  lemma SignalStep(q: Queue, req: Request)
    requires WellSized(q) && Signalled(q)
    ensures Signalled(Serve(q, req)) <==> !DropsSignal(q, req)
  {
  }

  // In every run, the signals are right throughout exactly when no zero-length read hits a
  // non-empty FIFO and no zero-length write a non-full one.
  lemma {:induction false} SignalledIff(reqs: seq<Request>)
    ensures AlwaysSignalled(reqs) <==> NeverDrops(reqs)
  {
    if reqs != [] {
      var init := reqs[..|reqs| - 1];
      SignalledIff(init);
      if Signalled(Replay(init).queue) {
        SignalStep(Replay(init).queue, reqs[|reqs| - 1]);
      }
    }
  }

  // So no wake-up is lost in a run of requests for at least one byte.
  lemma {:induction false} NonEmptyRequestsKeepSignals(reqs: seq<Request>)
    requires forall k | 0 <= k < |reqs| :: reqs[k] != ReadReq(0) && reqs[k] != WriteReq([])
    ensures AlwaysSignalled(reqs)
  {
    if reqs != [] {
      NonEmptyRequestsKeepSignals(reqs[..|reqs| - 1]);
      SignalStep(Replay(reqs[..|reqs| - 1]).queue, reqs[|reqs| - 1]);
    }
  }

  // ---------- what the signals mean ----------

  // What a request did: which way it went, and how many bytes it moved.
  datatype Effect = Effect(write: bool, moved: int)

  predicate InVain(e: Effect, write: bool) {
    e.write == write && e.moved == 0
  }

  // How many more bytes were accepted or delivered in `h'`.
  function Growth(h: History, h': History): int {
    |h'.accepted| - |h.accepted| + |h'.delivered| - |h.delivered|
  }

  // What each request of a run did, by the bytes accepted and delivered before and after it.
  function Effects(reqs: seq<Request>): seq<Effect> {
    if reqs == [] then []
    else
      var init := reqs[..|reqs| - 1];
      Effects(init) + [Effect(reqs[|reqs| - 1].WriteReq?, Growth(Replay(init), Replay(reqs)))]
  }

  // Some request one way moved bytes after the last one the other way that moved none.
  ghost predicate News(es: seq<Effect>, write: bool) {
    exists k :: 0 <= k < |es| && es[k].write == write && es[k].moved != 0
      && forall j | k < j < |es| :: !InVain(es[j], !write)
  }

  ghost predicate NoneInVain(es: seq<Effect>, write: bool) {
    forall j | 0 <= j < |es| :: !InVain(es[j], write)
  }

  lemma NewsSnoc(es: seq<Effect>, e: Effect, write: bool)
    ensures News(es + [e], write) <==> (e.write == write && e.moved != 0) || (News(es, write) && !InVain(e, !write))
    ensures NoneInVain(es + [e], !write) <==> NoneInVain(es, !write) && !InVain(e, !write)
  {
    var all := es + [e];
    if News(es, write) && !InVain(e, !write) {
      var k :| 0 <= k < |es| && es[k].write == write && es[k].moved != 0
        && forall j | k < j < |es| :: !InVain(es[j], !write);
      assert all[k] == es[k];
    }
    if e.write == write && e.moved != 0 {
      assert all[|es|] == e;
    }
    assert forall j | 0 <= j < |es| :: all[j] == es[j];
  }

  lemma RecordGains(h: History, req: Request)
    requires WellSized(h.queue)
    ensures Growth(h, Record(h, req)) ==
      if req.ReadReq? then Min(req.len, |h.queue.bytes|) else Min(|req.buf|, FIFOMASK - |h.queue.bytes|)
  {
  }

  lemma {:induction false} LastEffect(reqs: seq<Request>)
    requires reqs != []
    ensures var q, last := Replay(reqs[..|reqs| - 1]).queue, reqs[|reqs| - 1];
      Effects(reqs) == Effects(reqs[..|reqs| - 1]) + [Effect(last.WriteReq?,
        if last.ReadReq? then Min(last.len, |q.bytes|) else Min(|last.buf|, FIFOMASK - |q.bytes|))]
  {
    var init, last := reqs[..|reqs| - 1], reqs[|reqs| - 1];
    assert Replay(reqs) == Record(Replay(init), last);
    RecordGains(Replay(init), last);
  }

  // In every run READABLE is set exactly when some write brought bytes after the last read that got
  // none, and WRITABLE exactly when no write was turned away since some read made room, or ever.
  lemma {:induction false} SignalsMean(reqs: seq<Request>)
    ensures Replay(reqs).queue.readable <==> News(Effects(reqs), true)
    ensures Replay(reqs).queue.writable <==> News(Effects(reqs), false) || NoneInVain(Effects(reqs), true)
  {
    if reqs != [] {
      var es := Effects(reqs[..|reqs| - 1]);
      SignalsMean(reqs[..|reqs| - 1]);
      LastEffect(reqs);
      NewsSnoc(es, Effects(reqs)[|es|], true);
      NewsSnoc(es, Effects(reqs)[|es|], false);
    }
  }

  // So a read of an empty FIFO leaves nothing to wake up for, and neither does a write to a full one.
  lemma {:induction false} SignalsComeDown(reqs: seq<Request>, req: Request)
    ensures var q := Replay(reqs).queue;
      && (req.ReadReq? && q.bytes == [] ==> !Replay(reqs + [req]).queue.readable)
      && (req.WriteReq? && |q.bytes| == FIFOMASK ==> !Replay(reqs + [req]).queue.writable)
  {
    var es, whole := Effects(reqs), reqs + [req];
    assert whole[..|reqs|] == reqs;
    SignalsMean(whole);
    LastEffect(whole);
    NewsSnoc(es, Effects(whole)[|es|], true);
    NewsSnoc(es, Effects(whole)[|es|], false);
  }

  // ---------- the driver ----------

  // fifo_readable, across the wrap-around of both counters.
  function Distance(head: uint32, tail: uint32): (n: nat)
    ensures n <= FIFOMASK
  {
    (head - tail) % TWO_TO_THE_32 % FIFOSIZE
  }

  // Where a running counter points in the ring.
  function Slot(counter: int): (k: nat)
    ensures k < FIFOSIZE
  {
    counter % FIFOSIZE
  }

  // The counter after `n` more bytes; it wraps at 2^32.
  function Bump(counter: uint32, n: nat): uint32 {
    (counter + n) % TWO_TO_THE_32
  }

  lemma SlotIsPeriodic(a: int, k: int)
    ensures Slot(a + k * FIFOSIZE) == Slot(a)
  {
  }

  // The ring size divides 2^32, so wrapping a counter does not move it in the ring.
  lemma BumpSlot(counter: uint32, n: nat, base: int)
    ensures Slot(Bump(counter, n) + base) == Slot(counter + n + base)
  {
    SlotIsPeriodic(Bump(counter, n) + base, (counter + n) / TWO_TO_THE_32 * (TWO_TO_THE_32 / FIFOSIZE));
  }

  lemma DistanceSlot(head: uint32, tail: uint32)
    ensures Distance(head, tail) == Slot(head - tail)
    ensures Slot(tail + Distance(head, tail)) == Slot(head)
  {
    SlotIsPeriodic((head - tail) % TWO_TO_THE_32, (head - tail) / TWO_TO_THE_32 * (TWO_TO_THE_32 / FIFOSIZE));
    SlotIsPeriodic(tail + Distance(head, tail), (head - tail) / FIFOSIZE);
  }

  lemma SlotOfSmall(n: int, k: int)
    requires 0 <= n < FIFOSIZE
    ensures Slot(n + k * FIFOSIZE) == n
  {
  }

  // Short of the end of the ring, consecutive counters have consecutive slots.
  lemma SlotAfter(a: int, n: nat)
    requires Slot(a) + n < FIFOSIZE
    ensures Slot(a + n) == Slot(a) + n
  {
  }

  lemma PutMovesDistance(head: uint32, tail: uint32, n: nat)
    requires Distance(head, tail) + n <= FIFOMASK
    ensures Distance(Bump(head, n), tail) == Distance(head, tail) + n
  {
    var q := (head - tail) / FIFOSIZE;
    DistanceSlot(head, tail);
    DistanceSlot(Bump(head, n), tail);
    BumpSlot(head, n, 0 - tail);
    assert head + n - tail == Distance(head, tail) + n + q * FIFOSIZE;
    SlotOfSmall(Distance(head, tail) + n, q);
  }

  lemma GetMovesDistance(head: uint32, tail: uint32, n: nat)
    requires n <= Distance(head, tail)
    ensures Distance(head, Bump(tail, n)) == Distance(head, tail) - n
  {
    var q := (head - tail) / FIFOSIZE;
    var wraps := (tail + n) / TWO_TO_THE_32 * (TWO_TO_THE_32 / FIFOSIZE);
    DistanceSlot(head, tail);
    DistanceSlot(head, Bump(tail, n));
    assert head - Bump(tail, n) == Distance(head, tail) - n + (q + wraps) * FIFOSIZE;
    SlotOfSmall(Distance(head, tail) - n, q + wraps);
  }

  // The `n` bytes from `tail` on.
  ghost function Window(data: seq<byte>, tail: uint32, n: nat): (s: seq<byte>)
    requires |data| == FIFOSIZE
    ensures |s| == n
    ensures forall i | 0 <= i < n :: s[i] == data[Slot(tail + i)]
  {
    seq(n, i requires 0 <= i < n => data[Slot(tail + i)])
  }

  // Overwriting the slots just after a window appends to it.
  lemma WindowAppend(before: seq<byte>, data: seq<byte>, tail: uint32, n: nat, pos: nat, bytes: seq<byte>)
    requires |before| == |data| == FIFOSIZE && n + |bytes| < FIFOSIZE
    requires pos == Slot(tail + n) && pos + |bytes| <= FIFOSIZE
    requires data == before[..pos] + bytes + before[pos + |bytes|..]
    ensures Window(data, tail, n + |bytes|) == Window(before, tail, n) + bytes
  {
  }

  // Taking bytes off the front of a window.
  lemma WindowDrop(data: seq<byte>, tail: uint32, n: nat, count: nat)
    requires |data| == FIFOSIZE && count <= n <= FIFOMASK && Slot(tail) + count <= FIFOSIZE
    ensures Window(data, tail, n)[..count] == data[Slot(tail)..Slot(tail) + count]
    ensures Window(data, Bump(tail, count), n - count) == Window(data, tail, n)[count..]
  {
    forall i | 0 <= i < count
      ensures Window(data, tail, n)[i] == data[Slot(tail) + i]
    {
      SlotAfter(tail, i);
    }
    forall i | 0 <= i < n - count
      ensures Window(data, Bump(tail, count), n - count)[i] == Window(data, tail, n)[count..][i]
    {
      BumpSlot(tail, count, i);
    }
  }

  lemma SliceTwice(s: seq<byte>, a: nat, b: nat)
    requires a + b <= |s|
    ensures s[a..][..b] == s[a..a + b] && s[a..][b..] == s[a + b..] && s[..a] + s[a..a + b] == s[..a + b]
  {
  }

  class Device {
    var head: uint32
    var tail: uint32
    const data: array<byte>
    var readable: bool
    var writable: bool

    ghost predicate Valid()
      reads this
    {
      data.Length == FIFOSIZE
    }

    function Readable(): (n: nat)
      reads this
      ensures n <= FIFOMASK
    {
      Distance(head, tail)
    }

    function Writable(): (n: nat)
      reads this
      ensures n + Readable() == FIFOMASK
    {
      FIFOMASK - Distance(head, tail)
    }

    ghost function Bytes(): (s: seq<byte>)
      requires Valid()
      reads this, data
      ensures |s| == Readable()
    {
      Window(data[..], tail, Readable())
    }

    ghost function View(): Queue
      requires Valid()
      reads this, data
    {
      Queue(Bytes(), readable, writable)
    }

    // fifo_bind: a zeroed device that is writable.
    constructor ()
      ensures Valid() && fresh(data) && View() == BOUND
    {
      head, tail := 0, 0;
      data := new byte[FIFOSIZE](i => 0);
      readable, writable := false, true;
    }

    // memcpy(fifo->data + pos, bytes, ...)
    method CopyIn(pos: nat, bytes: seq<byte>)
      requires pos + |bytes| <= data.Length
      modifies data
      ensures data[..] == old(data[..])[..pos] + bytes + old(data[..])[pos + |bytes|..]
    {
      for i := 0 to |bytes|
        invariant forall k | 0 <= k < data.Length ::
          data[k] == if pos <= k < pos + i then bytes[k - pos] else old(data[k])
      {
        data[pos + i] := bytes[i];
      }
    }

    // fifo_put: one copy that does not wrap around.
    method Put(buf: seq<byte>) returns (count: nat)
      requires Valid()
      modifies this`head, data
      ensures count <= |buf| && (count == 0 <==> buf == [] || old(Writable()) == 0)
      ensures Bytes() == old(Bytes()) + buf[..count]
    {
      count := Writable();
      var pos := head % FIFOSIZE;
      var space := FIFOSIZE - pos;
      if count > space {
        count := space;
      }
      if count > |buf| {
        count := |buf|;
      }
      DistanceSlot(head, tail);
      ghost var before := data[..];
      CopyIn(pos, buf[..count]);
      WindowAppend(before, data[..], tail, Distance(head, tail), pos, buf[..count]);
      PutMovesDistance(head, tail, count);
      head := Bump(head, count);
    }

    // fifo_get: likewise.
    method Get(len: nat) returns (bytes: seq<byte>)
      requires Valid()
      modifies this`tail
      ensures |bytes| <= Min(len, old(Readable())) && (|bytes| == 0 <==> len == 0 || old(Readable()) == 0)
      ensures bytes == old(Bytes())[..|bytes|] && Bytes() == old(Bytes())[|bytes|..]
    {
      var count := Readable();
      var pos := tail % FIFOSIZE;
      var space := FIFOSIZE - pos;
      if count > space {
        count := space;
      }
      if count > len {
        count := len;
      }
      bytes := data[pos..pos + count];
      WindowDrop(data[..], tail, Distance(head, tail), count);
      GetMovesDistance(head, tail, count);
      tail := Bump(tail, count);
    }

    // The loop of fifo_read: keep getting until nothing comes.
    method Drain(len: nat) returns (bytes: seq<byte>)
      requires Valid()
      modifies this`tail
      ensures |bytes| == Min(len, old(Readable()))
      ensures bytes == old(Bytes())[..|bytes|] && Bytes() == old(Bytes())[|bytes|..]
    {
      ghost var all := Bytes();
      bytes := Get(len);
      var count: nat := |bytes|;
      while count > 0
        invariant |bytes| <= Min(len, |all|) && count <= |bytes|
        invariant bytes == all[..|bytes|] && Bytes() == all[|bytes|..]
        invariant count == 0 ==> |bytes| == len || |bytes| == |all|
        decreases len - |bytes|, count
      {
        var more := Get(len - |bytes|);
        SliceTwice(all, |bytes|, |more|);
        count := |more|;
        bytes := bytes + more;
      }
    }

    // fifo_read; the result is empty for ZX_ERR_SHOULD_WAIT.
    method Read(len: nat) returns (bytes: seq<byte>)
      requires Valid()
      modifies this`tail, this`readable, this`writable
      ensures View() == Serve(old(View()), ReadReq(len))
      ensures bytes == old(Bytes())[..Moved(old(View()), ReadReq(len))]
    {
      bytes := Drain(len);
      if |bytes| == 0 {
        readable := false;
      } else {
        writable := true;
      }
    }

    // The loop of fifo_write: keep putting until nothing fits.
    method Fill(buf: seq<byte>) returns (n: nat)
      requires Valid()
      modifies this`head, data
      ensures n == Min(|buf|, old(Writable()))
      ensures Bytes() == old(Bytes()) + buf[..n]
    {
      n := 0;
      while true
        invariant n <= |buf| && Bytes() == old(Bytes()) + buf[..n]
        decreases |buf| - n
      {
        var count := Put(buf[n..]);
        assert buf[..n] + buf[n..][..count] == buf[..n + count];
        if count == 0 {
          break;
        }
        n := n + count;
      }
    }

    // fifo_write
    method Write(buf: seq<byte>) returns (n: nat)
      requires Valid()
      modifies this`head, this`readable, this`writable, data
      ensures View() == Serve(old(View()), WriteReq(buf))
      ensures n == Moved(old(View()), WriteReq(buf))
    {
      n := Fill(buf);
      if n == 0 {
        writable := false;
      } else {
        readable := true;
      }
    }
  }
}
