/** Messages of the netboot protocol. */
module NetbootWire {
  import opened Basics

  const NB_MAGIC: uint32 := 0xAA774217

  const NB_ACK: uint32 := 0
  const NB_COMMAND: uint32 := 1
  const NB_SEND_FILE: uint32 := 2
  const NB_DATA: uint32 := 3
  const NB_BOOT: uint32 := 4
  const NB_QUERY: uint32 := 5
  const NB_LAST_DATA: uint32 := 11
  const NB_REBOOT: uint32 := 12
  const NB_FILE_RECEIVED: uint32 := 0x70000001
  const NB_ERROR_BAD_CMD: uint32 := 0x80000001
  const NB_ERROR_TOO_LARGE: uint32 := 0x80000003
  const NB_ERROR_BAD_FILE: uint32 := 0x80000004

  const NB_VERSION_CURRENT: uint32 := 0x0001030

  // A message from host to target; its magic is always NB_MAGIC.
  datatype Packet = Packet(cookie: uint32, cmd: uint32, arg: uint32, data: seq<byte>)

  // A message from target to host, as read off the socket: any magic is possible.
  datatype Reply = Reply(magic: uint32, cookie: uint32, cmd: uint32, arg: uint32)
}

/**
 The host side of a netboot transfer: stream a file in chunks, rewind on every ACK
 ("ACKs really are NACKs"), stop on NB_FILE_RECEIVED.

 What the operating system answers in one round is an Event; a transfer is a run against
 an arbitrary sequence of events.
 */
module NetbootSender {
  import opened Basics
  import opened NetbootWire

  const PAYLOAD_SIZE: nat := 1280

  // The bytes to send; the "(cmdline)" transfer reads them from memory, all others from a file.
  datatype Source = Source(content: seq<byte>, inMemory: bool)

  // Outcome of reading one datagram off the socket.
  datatype Incoming = ReadFailed | Received(msg: Reply)

  // Everything the environment decides during one round.
  datatype Event =
    | FileReadError
    | SelectError
    | Ready(incoming: Option<Incoming>, writable: bool, sendFails: bool)

  datatype Status = Idle | Opening | Streaming | Succeeded | Failed

  // `position` is where the next read happens; `current` and `arg` are the loop's own
  // idea of it; `cookie` is the number the next message will carry.
  datatype Sender = Sender(status: Status, cookie: uint32, current: nat, arg: uint32, position: nat)

  // What one round does: the new state and the packets put on the wire.
  datatype Outcome = Outcome(sender: Sender, sent: seq<Packet>)

  const NO_REPLY := Reply(0, 0, 0, 0)

  function NextCookie(cookie: uint32): uint32 {
    (cookie + 1) % TWO_TO_THE_32
  }

  // Whether io_rcv returns 0. A wrong magic or a cookie from the future is reported but
  // otherwise treated like a good reply.
  predicate Accepted(msgCookie: Option<uint32>, incoming: Incoming) {
    && incoming.Received?
    && var m := incoming.msg;
       || m.magic != NB_MAGIC
       || (msgCookie.Some? && m.cookie > msgCookie.value)
       || m.cmd == NB_ACK
       || m.cmd == NB_FILE_RECEIVED
  }

  predicate IsNack(ack: Reply) {
    ack.cookie > 0 && ack.cmd == NB_ACK
  }

  function Chunk(content: seq<byte>, at: nat): seq<byte> {
    if at <= |content| then content[at..Min(at + PAYLOAD_SIZE, |content|)] else []
  }

  // The reply a round acts on; NO_REPLY when nothing was read.
  function AckOf(ev: Event): Reply {
    if ev.Ready? && ev.incoming.Some? && ev.incoming.value.Received? then ev.incoming.value.msg else NO_REPLY
  }

  // How the loop digests the reply once `r` bytes have been read.
  function Digest(src: Source, s: Sender, r: nat, ack: Reply): Sender {
    if IsNack(ack) then
      if src.inMemory && ack.arg > |src.content| then
        s.(status := Failed, current := ack.arg)
      else
        s.(current := ack.arg, position := ack.arg, arg := ack.arg)
    else
      var next := s.current + r;
      s.(current := next, arg := next % TWO_TO_THE_32,
         status := if ack.cmd == NB_FILE_RECEIVED then Succeeded else s.status)
  }

  // One round of a transfer of `src` under the name `name`.
  function Step(src: Source, name: seq<byte>, s: Sender, ev: Event): Outcome {
    match s.status
    case Idle =>
      if ev.Ready? && ev.writable && !ev.sendFails then
        var p := Packet(s.cookie, NB_SEND_FILE, |src.content| % TWO_TO_THE_32, name);
        Outcome(s.(status := Opening, cookie := NextCookie(s.cookie), arg := p.arg), [p])
      else
        Outcome(s.(status := Failed, cookie := NextCookie(s.cookie), arg := |src.content| % TWO_TO_THE_32), [])
    case Opening =>
      // the message just sent carried the cookie before s.cookie
      if ev.Ready? && ev.incoming.Some? && Accepted(Some((s.cookie - 1) % TWO_TO_THE_32), ev.incoming.value) then
        Outcome(s.(status := Streaming, arg := 0), [])
      else
        Outcome(s.(status := Failed), [])
    case Streaming =>
      if ev.FileReadError? then
        Outcome(s.(status := Failed), [])
      else
        var data := Chunk(src.content, s.position);
        if data == [] then
          if ev.Ready? && ev.incoming.Some? && Accepted(None, ev.incoming.value) then
            Outcome(Digest(src, s, 0, AckOf(ev)), [])
          else
            Outcome(s.(status := Failed), [])
        else
          var p := Packet(s.cookie, if s.current + |data| >= |src.content| then NB_LAST_DATA else NB_DATA, s.arg, data);
          var s' := s.(cookie := NextCookie(s.cookie), position := s.position + |data|);
          var failed := Outcome(s'.(status := Failed), []);
          if !ev.Ready? || (ev.incoming.Some? && !Accepted(Some(s.cookie), ev.incoming.value)) then
            failed
          else if ev.writable && !IsNack(AckOf(ev)) then
            if ev.sendFails then failed else Outcome(Digest(src, s', |data|, AckOf(ev)), [p])
          else
            Outcome(Digest(src, s', |data|, AckOf(ev)), [])
    case _ => Outcome(s, [])
  }

  // ---------- what a transfer puts on the wire ----------

  // `p` carries exactly the bytes of the file at offset `at`, and is marked as the last
  // packet exactly when it reaches the end.
  ghost predicate IsChunkAt(content: seq<byte>, p: Packet, at: nat) {
    && at < |content|
    && p.arg == at % TWO_TO_THE_32
    && 0 < |p.data| == Min(PAYLOAD_SIZE, |content| - at)
    && p.data == content[at..at + |p.data|]
    && (p.cmd == NB_LAST_DATA || p.cmd == NB_DATA)
    && (p.cmd == NB_LAST_DATA <==> at + |p.data| == |content|)
  }

  ghost predicate IsDataOf(content: seq<byte>, p: Packet) {
    exists at: nat :: IsChunkAt(content, p, at)
  }

  ghost predicate IsOpenOf(src: Source, name: seq<byte>, p: Packet) {
    p.cmd == NB_SEND_FILE && p.arg == |src.content| % TWO_TO_THE_32 && p.data == name
  }

  // At the head of an iteration the read position, the counter and the header agree.
  ghost predicate HeadAgrees(s: Sender) {
    && (s.status in {Idle, Opening} ==> s.current == s.position == 0)
    && (s.status in {Streaming, Succeeded} ==> s.current == s.position && s.arg == s.current % TWO_TO_THE_32)
  }

  function Start(cookie: uint32): Sender {
    Sender(Idle, cookie, 0, 0, 0)
  }

  lemma StepKeepsHead(src: Source, name: seq<byte>, s: Sender, ev: Event)
    requires HeadAgrees(s)
    ensures HeadAgrees(Step(src, name, s, ev).sender)
    ensures forall p | p in Step(src, name, s, ev).sent ::
      if s.status == Idle then IsOpenOf(src, name, p) else IsChunkAt(src.content, p, s.current)
  {
  }

  // ---------- giving up ----------

  // The number of the message a reply is compared with: the opening message, or the chunk about to go
  // out. At the end of the file there is none.
  function MessageNumber(src: Source, s: Sender): Option<uint32> {
    if s.status == Opening then Some((s.cookie - 1) % TWO_TO_THE_32)
    else if s.position < |src.content| then Some(s.cookie)
    else None
  }

  // A proper reply that is neither ACK nor receipt: the target has refused.
  predicate Refuses(src: Source, s: Sender, m: Reply) {
    var number := MessageNumber(src, s);
    && m.magic == NB_MAGIC && m.cmd != NB_ACK && m.cmd != NB_FILE_RECEIVED
    && (number.Some? ==> m.cookie <= number.value)
  }

  // The host has nothing to send and so needs a reply.
  predicate Waits(src: Source, s: Sender) {
    s.status == Opening || s.position >= |src.content|
  }

  // Reading or polling failed, no reply came when one was needed, or the chunk could not be written.
  predicate SocketFails(src: Source, s: Sender, ev: Event) {
    || !ev.Ready?
    || (ev.incoming.Some? && ev.incoming.value.ReadFailed?)
    || (ev.incoming.None? && Waits(src, s))
    || (!Waits(src, s) && ev.writable && ev.sendFails && !Rewinds(ev))
  }

  // The reply sends the host elsewhere.
  predicate Rewinds(ev: Event) {
    && ev.Ready? && ev.incoming.Some? && ev.incoming.value.Received?
    && ev.incoming.value.msg.cmd == NB_ACK && ev.incoming.value.msg.cookie > 0
  }

  // A round of a transfer under way fails exactly when the socket or the file does, the target
  // refuses, or it asks for what lies beyond a source in memory. Then nothing is sent.
  lemma FailsIff(src: Source, name: seq<byte>, s: Sender, ev: Event)
    requires s.status in {Opening, Streaming}
    ensures var o := Step(src, name, s, ev);
      && (o.sender.status == Failed <==>
            || SocketFails(src, s, ev)
            || (ev.incoming.Some? && Refuses(src, s, ev.incoming.value.msg))
            || (s.status == Streaming && Rewinds(ev) && src.inMemory && ev.incoming.value.msg.arg > |src.content|))
      && (o.sender.status == Failed ==> o.sent == [])
  {
    assert s.status == Streaming ==> (Chunk(src.content, s.position) == [] <==> s.position >= |src.content|);
  }

  // A refusal ends the transfer, on whatever socket.
  lemma RefusalEnds(src: Source, name: seq<byte>, s: Sender, ev: Event)
    requires s.status in {Opening, Streaming} && ev.Ready? && ev.incoming.Some? && ev.incoming.value.Received?
    requires Refuses(src, s, ev.incoming.value.msg)
    ensures var o := Step(src, name, s, ev); o.sender.status == Failed && o.sent == []
  {
    FailsIff(src, name, s, ev);
  }

  // Anything else that is received on a working socket does not.
  lemma OtherRepliesDoNotEnd(src: Source, name: seq<byte>, s: Sender, ev: Event)
    requires s.status in {Opening, Streaming} && ev.Ready? && ev.incoming.Some? && ev.incoming.value.Received?
    requires !ev.sendFails && !Refuses(src, s, ev.incoming.value.msg)
    requires ev.incoming.value.msg.arg <= |src.content| || !src.inMemory || ev.incoming.value.msg.cmd != NB_ACK
    ensures Step(src, name, s, ev).sender.status != Failed
  {
    FailsIff(src, name, s, ev);
  }

  // What a reply does to a round that does not fail: an ACK with a number sends the host to its offset, a
  // receipt ends the transfer, and nothing else does either.
  lemma ReplyActs(src: Source, name: seq<byte>, s: Sender, ev: Event)
    requires s.status == Streaming && HeadAgrees(s) && Step(src, name, s, ev).sender.status != Failed
    ensures var o := Step(src, name, s, ev);
      && (o.sender.status == Succeeded <==> AckOf(ev).cmd == NB_FILE_RECEIVED)
      && (Rewinds(ev) ==> o.sent == [] && o.sender.current == o.sender.position == o.sender.arg == AckOf(ev).arg)
      && (!Rewinds(ev) ==> o.sender.current == s.current + |Chunk(src.content, s.current)|)
  {
  }

  // The host moves on past a chunk even when the socket does not take it, as when a stray reply was read
  // instead.
  lemma SkipsWhatIsNotTaken(src: Source, name: seq<byte>, s: Sender, ev: Event)
    requires s.status == Streaming && HeadAgrees(s) && s.current < |src.content|
    requires ev.Ready? && !ev.writable && !Rewinds(ev) && Step(src, name, s, ev).sender.status != Failed
    ensures var o := Step(src, name, s, ev);
      o.sent == [] && o.sender.current == Min(s.current + PAYLOAD_SIZE, |src.content|) > s.current
  {
  }

  // ---------- whole runs ----------

  // A run so far: everything sent, and, since the loop was last (re)positioned to `base`,
  // the packets sent and whether the socket took what there was to send in every round.
  datatype Trace = Trace(sender: Sender, sent: seq<Packet>, base: nat, tail: seq<Packet>, clean: bool)

  predicate Repositions(s: Sender, s': Sender, ev: Event) {
    s'.status == Streaming && (s.status == Opening || IsNack(AckOf(ev)))
  }

  // The socket takes what the round has to send; at the end of the file that is nothing.
  predicate Served(src: Source, s: Sender, ev: Event) {
    ev.Ready? && (ev.writable || Chunk(src.content, s.position) == [])
  }

  function Extend(t: Trace, o: Outcome, ev: Event, served: bool): Trace {
    if Repositions(t.sender, o.sender, ev) then
      Trace(o.sender, t.sent + o.sent, o.sender.current, [], true)
    else
      Trace(o.sender, t.sent + o.sent, t.base, t.tail + o.sent, t.clean && served)
  }

  function Advance(src: Source, name: seq<byte>, t: Trace, ev: Event): Trace {
    Extend(t, Step(src, name, t.sender, ev), ev, Served(src, t.sender, ev))
  }

  function Run(src: Source, name: seq<byte>, cookie: uint32, events: seq<Event>): Trace {
    if events == [] then
      Trace(Start(cookie), [], 0, [], true)
    else
      Advance(src, name, Run(src, name, cookie, events[..|events| - 1]), events[|events| - 1])
  }

  // The packets tile [from, to) of the content in order, without gap or overlap.
  ghost predicate Tiles(content: seq<byte>, packets: seq<Packet>, from: nat, to: nat) {
    if packets == [] then
      from == to
    else
      var p := packets[|packets| - 1];
      && from + |p.data| <= to
      && IsChunkAt(content, p, to - |p.data|)
      && Tiles(content, packets[..|packets| - 1], from, to - |p.data|)
  }

  function Payloads(packets: seq<Packet>): seq<byte> {
    if packets == [] then [] else Payloads(packets[..|packets| - 1]) + packets[|packets| - 1].data
  }

  // Tiles is about bytes: the payloads, put together, are that stretch of the content.
  lemma {:induction false} TilesIsSlice(content: seq<byte>, packets: seq<Packet>, from: nat, to: nat)
    requires Tiles(content, packets, from, to)
    requires from <= |content|
    ensures from <= to <= |content| && Payloads(packets) == content[from..to]
  {
    if packets != [] {
      var p := packets[|packets| - 1];
      TilesIsSlice(content, packets[..|packets| - 1], from, to - |p.data|);
      assert content[from..to] == content[from..to - |p.data|] + content[to - |p.data|..to];
    }
  }

  ghost predicate SenderInvariant(src: Source, name: seq<byte>, t: Trace) {
    && HeadAgrees(t.sender)
    && (forall p | p in t.sent :: IsOpenOf(src, name, p) || IsDataOf(src.content, p))
    && (t.sender.status in {Streaming, Succeeded} && t.clean ==>
          Tiles(src.content, t.tail, t.base, t.sender.current))
  }

  lemma TilesSnoc(content: seq<byte>, packets: seq<Packet>, from: nat, at: nat, p: Packet)
    requires Tiles(content, packets, from, at)
    requires from <= at && IsChunkAt(content, p, at)
    ensures Tiles(content, packets + [p], from, at + |p.data|)
  {
  }

  lemma {:induction false} TilesOrdered(content: seq<byte>, packets: seq<Packet>, from: nat, to: nat)
    requires Tiles(content, packets, from, to)
    ensures from <= to
  {
  }

  // A round that is served and does not reposition the loop either sends the chunk at
  // `current` and moves past it, or leaves `current` alone.
  ghost predicate MovesByWhatItSent(content: seq<byte>, s: Sender, o: Outcome) {
    || (o.sent == [] && o.sender.current == s.current)
    || (|o.sent| == 1 && IsChunkAt(content, o.sent[0], s.current) && o.sender.current == s.current + |o.sent[0].data|)
  }

  lemma ServedRoundMoves(src: Source, name: seq<byte>, s: Sender, ev: Event)
    requires HeadAgrees(s) && Served(src, s, ev)
    requires var s' := Step(src, name, s, ev).sender;
      s'.status in {Streaming, Succeeded} && !Repositions(s, s', ev)
    ensures s.status in {Streaming, Succeeded}
    ensures MovesByWhatItSent(src.content, s, Step(src, name, s, ev))
  {
  }

  lemma ExtendKeepsTiling(content: seq<byte>, t: Trace, o: Outcome, ev: Event)
    requires t.clean && Tiles(content, t.tail, t.base, t.sender.current)
    requires !Repositions(t.sender, o.sender, ev) && MovesByWhatItSent(content, t.sender, o)
    ensures Tiles(content, Extend(t, o, ev, true).tail, t.base, o.sender.current)
  {
    if o.sent == [] {
      assert t.tail + o.sent == t.tail;
    } else {
      TilesOrdered(content, t.tail, t.base, t.sender.current);
      TilesSnoc(content, t.tail, t.base, t.sender.current, o.sent[0]);
      assert o.sent == [o.sent[0]];
    }
  }

  lemma AdvanceKeepsInvariant(src: Source, name: seq<byte>, t: Trace, ev: Event)
    requires SenderInvariant(src, name, t)
    ensures SenderInvariant(src, name, Advance(src, name, t, ev))
  {
    var o := Step(src, name, t.sender, ev);
    StepKeepsHead(src, name, t.sender, ev);
    assert forall p | p in o.sent :: IsOpenOf(src, name, p) || IsDataOf(src.content, p);
    if t.clean && Served(src, t.sender, ev) && o.sender.status in {Streaming, Succeeded}
      && !Repositions(t.sender, o.sender, ev) {
      ServedRoundMoves(src, name, t.sender, ev);
      ExtendKeepsTiling(src.content, t, o, ev);
    }
  }

  // The invariant holds for every stream of received messages, however malformed.
  lemma {:induction false} EveryRunKeepsInvariant(src: Source, name: seq<byte>, cookie: uint32, events: seq<Event>)
    ensures SenderInvariant(src, name, Run(src, name, cookie, events))
  {
    if events != [] {
      EveryRunKeepsInvariant(src, name, cookie, events[..|events| - 1]);
      AdvanceKeepsInvariant(src, name, Run(src, name, cookie, events[..|events| - 1]), events[|events| - 1]);
    }
  }

  // ---------- the program itself ----------

  lemma {:induction false} FinishedStays(src: Source, name: seq<byte>, cookie: uint32, events: seq<Event>, k: nat)
    requires k <= |events|
    requires Run(src, name, cookie, events[..k]).sender.status in {Succeeded, Failed}
    ensures Run(src, name, cookie, events).sender == Run(src, name, cookie, events[..k]).sender
    ensures Run(src, name, cookie, events).sent == Run(src, name, cookie, events[..k]).sent
  {
    if k == |events| {
      assert events[..k] == events;
    } else {
      var init := events[..|events| - 1];
      assert init[..k] == events[..k];
      FinishedStays(src, name, cookie, init, k);
    }
  }

  /** The variables of netboot_xfer and the helpers that work on them. */
  class Transfer {
    const src: Source
    const name: seq<byte>
    var position: nat        // xd.ptr, or the offset of xd.fp
    var cookie: uint32
    var currentPos: nat
    var msg: Packet
    var ack: Reply
    var status: Status
    var wire: seq<Packet>    // everything written to the socket

    constructor (src: Source, name: seq<byte>, cookie: uint32)
      ensures this.src == src && this.name == name && this.cookie == cookie
      ensures View() == Start(cookie) && wire == []
    {
      this.src, this.name, this.cookie := src, name, cookie;
      position, currentPos, status, wire := 0, 0, Idle, [];
      msg, ack := Packet(0, 0, 0, []), NO_REPLY;
    }

    ghost function View(): Sender
      reads this
    {
      Sender(status, cookie, currentPos, msg.arg, position)
    }

    // xread, without the error case.
    method XRead(len: nat) returns (data: seq<byte>)
      modifies this`position
      ensures data == if old(position) <= |src.content|
                      then src.content[old(position)..Min(old(position) + len, |src.content|)] else []
      ensures position == old(position) + |data|
    {
      var avail := if position <= |src.content| then |src.content| - position else 0;
      var n := if len > avail then avail else len;
      data := if position <= |src.content| then src.content[position..position + n] else [];
      position := position + n;
    }

    method XSeek(off: nat) returns (ok: bool)
      modifies this`position
      ensures ok == (!src.inMemory || off <= |src.content|)
      ensures position == if ok then off else old(position)
    {
      ok := !(src.inMemory && off > |src.content|);
      if ok {
        position := off;
      }
    }

    // io_rcv: `true` when it returns 0.
    method IoRcv(msgCookie: Option<uint32>, incoming: Incoming) returns (ok: bool)
      modifies this`ack
      ensures ok == Accepted(msgCookie, incoming)
      ensures ack == if incoming.Received? then incoming.msg else old(ack)
    {
      if incoming.ReadFailed? {
        return false;
      }
      ack := incoming.msg;
      if ack.magic != NB_MAGIC {
        return true;
      }
      if msgCookie.Some? && ack.cookie > msgCookie.value {
        return true;
      }
      ok := ack.cmd == NB_ACK || ack.cmd == NB_FILE_RECEIVED;
    }

    // io with a message and without waiting for a reply: `true` when it returns 0.
    method IoSend(ev: Event) returns (ok: bool)
      modifies this`ack, this`msg, this`cookie, this`wire
      ensures cookie == NextCookie(old(cookie)) && msg == old(msg).(cookie := old(cookie))
      ensures ok ==> ack == AckOf(ev)
      ensures ok == (&& ev.Ready?
                     && (ev.incoming.Some? ==> Accepted(Some(old(cookie)), ev.incoming.value))
                     && (ev.writable && !IsNack(AckOf(ev)) ==> !ev.sendFails))
      ensures wire == old(wire) + if ok && ev.writable && !IsNack(AckOf(ev)) then [msg] else []
    {
      ack := NO_REPLY;
      msg := msg.(cookie := cookie);
      cookie := NextCookie(cookie);
      if !ev.Ready? {
        return false;
      }
      ok := true;
      if ev.incoming.Some? {
        ok := IoRcv(Some(msg.cookie), ev.incoming.value);
      }
      if ok && ev.writable && (ack.cookie == 0 || ack.cmd != NB_ACK) {
        if ev.sendFails {
          ok := false;
        } else {
          wire := wire + [msg];
        }
      }
    }

    // One pass through the transfer loop, or one half of the opening exchange.
    method Iterate(ev: Event)
      modifies this
      ensures View() == Step(src, name, old(View()), ev).sender
      ensures wire == old(wire) + Step(src, name, old(View()), ev).sent
    {
      if status == Idle {
        msg := Packet(cookie, NB_SEND_FILE, |src.content| % TWO_TO_THE_32, name);
        cookie := NextCookie(cookie);
        if ev.Ready? && ev.writable && !ev.sendFails {
          wire, status := wire + [msg], Opening;
        } else {
          status := Failed;
        }
        return;
      }
      if status == Opening {
        status := Failed;
        if ev.Ready? && ev.incoming.Some? {
          var ok := IoRcv(Some((cookie - 1) % TWO_TO_THE_32), ev.incoming.value);
          if ok {
            status, msg := Streaming, msg.(arg := 0);
          }
        }
        return;
      }
      if status == Streaming {
        Stream(ev);
      }
    }

    // The body of the do-while loop.
    method Stream(ev: Event)
      requires status == Streaming
      modifies this
      ensures View() == Step(src, name, old(View()), ev).sender
      ensures wire == old(wire) + Step(src, name, old(View()), ev).sent
    {
      if ev.FileReadError? {
        status := Failed;
        return;
      }
      var data := XRead(PAYLOAD_SIZE);
      var ok;
      if |data| == 0 {
        ok := ev.Ready? && ev.incoming.Some?;
        if ok {
          ack := NO_REPLY;
          ok := IoRcv(None, ev.incoming.value);
        }
      } else {
        msg := msg.(cmd := if currentPos + |data| >= |src.content| then NB_LAST_DATA else NB_DATA, data := data);
        ok := IoSend(ev);
      }
      if !ok {
        status := Failed;
        return;
      }
      DigestAck(|data|);
    }

    // The end of the loop body, after `r` bytes were read and the socket was served.
    method DigestAck(r: nat)
      modifies this`currentPos, this`position, this`status, this`msg
      ensures View() == Digest(src, old(View()), r, ack)
    {
      if ack.cookie > 0 && ack.cmd == NB_ACK {
        if ack.arg != currentPos {
          currentPos := ack.arg;
        }
        var ok := XSeek(currentPos);
        if !ok {
          status := Failed;
          return;
        }
      } else if ack.cmd == NB_FILE_RECEIVED {
        currentPos := currentPos + r;
        status := Succeeded;
      } else {
        currentPos := currentPos + r;
      }
      msg := msg.(arg := currentPos % TWO_TO_THE_32);
    }

    // netboot_xfer against an environment: it stops when the transfer is decided, and is
    // left running when the environment has nothing more to say.
    method Xfer(events: seq<Event>) returns (result: Status)
      requires status == Idle && currentPos == 0 && position == 0 && msg.arg == 0 && wire == []
      modifies this
      ensures result == Run(src, name, old(cookie), events).sender.status
      ensures View() == Run(src, name, old(cookie), events).sender
      ensures wire == Run(src, name, old(cookie), events).sent
    {
      var i := 0;
      while i < |events| && status != Succeeded && status != Failed
        invariant i <= |events|
        invariant View() == Run(src, name, old(cookie), events[..i]).sender
        invariant wire == Run(src, name, old(cookie), events[..i]).sent
      {
        assert events[..i + 1][..i] == events[..i];
        Iterate(events[i]);
        i := i + 1;
      }
      FinishedOrAll(events, i, old(cookie));
      result := status;
    }

    lemma FinishedOrAll(events: seq<Event>, i: nat, c: uint32)
      requires i <= |events|
      requires i < |events| ==> Run(src, name, c, events[..i]).sender.status in {Succeeded, Failed}
      ensures Run(src, name, c, events).sender == Run(src, name, c, events[..i]).sender
      ensures Run(src, name, c, events).sent == Run(src, name, c, events[..i]).sent
    {
      if i < |events| {
        FinishedStays(src, name, c, events, i);
      } else {
        assert events[..i] == events;
      }
    }
  }
}
