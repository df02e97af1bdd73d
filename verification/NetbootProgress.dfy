/**
 When a netboot transfer can succeed: exact conditions, over the same network, for a transfer
 that is about to start and for one that is under way.
 */
module NetbootProgress {
  import opened Basics
  import opened NetbootWire
  import opened NetbootBuffers
  import opened NetbootSender
  import opened NetbootReceiver
  import opened NetbootProtocol

  // ---------- what else every run keeps ----------

  ghost predicate HasChunk(n: Net) {
    exists p :: p in n.packets && p.cmd != NB_SEND_FILE
  }

  ghost predicate HasReceipt(n: Net) {
    exists m :: m in n.replies && m.cmd == NB_FILE_RECEIVED
  }

  // An answer to NB_SEND_FILE: it says to go on at the end of the file, or that the file is unknown.
  ghost predicate OpenAnswer(c: Setup, cmd: uint32, arg: uint32) {
    (cmd == NB_ACK && arg == |c.src.content|) || cmd == NB_ERROR_BAD_FILE
  }

  ghost predicate SenderTrace(c: Setup, n: Net)
    requires Legitimate(c)
  {
    && (n.sender.status in {Opening, Streaming, Succeeded} ==> OpenPacket(c) in n.packets)
    && (n.sender.status == Streaming ==> n.sender.current <= |c.src.content|)
  }

  ghost predicate RepliesTrace(c: Setup, n: Net) {
    && (forall m | m in n.replies :: m.magic == NB_MAGIC && (m.cmd == NB_ACK ==> m.arg <= |c.src.content|))
    && (n.completed ==> HasReceipt(n))
    && (HasChunk(n) || forall m | m in n.replies :: OpenAnswer(c, m.cmd, m.arg))
  }

  ghost predicate LastTrace(c: Setup, n: Net)
    requires Legitimate(c)
  {
    var r := n.receiver;
    && r.lastCmd in {NB_SEND_FILE, NB_DATA, NB_LAST_DATA}
    && (r.lastAckCmd == NB_ACK ==> r.lastAckArg <= |c.src.content|)
    && (exists p :: p in n.packets && Repeats(r, p))
    && (HasChunk(n) || (r.lastCmd == NB_SEND_FILE && OpenAnswer(c, r.lastAckCmd, r.lastAckArg)))
  }

  // A refused opening is remembered for good; a target that has everything has said so; and its
  // last answer to a chunk was a receipt, an ACK of the offset or of 0, or that it has no room.
  ghost predicate FileTrace(c: Setup, n: Net)
    requires Legitimate(c)
  {
    var r := n.receiver;
    if r.active.None? then
      Repeats(r, OpenPacket(c)) && r.lastAckCmd == NB_ERROR_BAD_FILE
    else
      var f := r.active.value;
      && (f.offset == |c.src.content| > 0 ==> n.completed)
      && (r.lastCmd != NB_SEND_FILE ==>
            || r.lastAckCmd == NB_FILE_RECEIVED
            || (r.lastAckCmd == NB_ACK && (r.lastAckArg == 0 || r.lastAckArg == f.offset))
            || (r.lastAckCmd == NB_ERROR_TOO_LARGE && |f.data| < |c.src.content|))
  }

  ghost predicate Traced(c: Setup, n: Net)
    requires Legitimate(c)
  {
    && SenderTrace(c, n) && RepliesTrace(c, n)
    && (n.openings > 0 ==> LastTrace(c, n) && FileTrace(c, n))
  }

  lemma RoundStaysInside(c: Setup, s: Sender, ev: Event)
    requires Legitimate(c) && HeadAgrees(s) && (s.status == Streaming ==> s.current <= |c.src.content|)
    requires AckOf(ev).cmd == NB_ACK ==> AckOf(ev).arg <= |c.src.content|
    ensures var o := Step(c.src, c.name, s, ev);
      && (o.sender.status == Streaming ==> o.sender.current <= |c.src.content|)
      && (s.status == Idle && o.sender.status != Failed ==>
            o.sent == [Packet(s.cookie, NB_SEND_FILE, |c.src.content|, c.name)])
      && (s.status == Failed ==> o.sender.status == Failed)
  {
  }

  lemma HostKeepsTrace(c: Setup, n: Net, ev: Event)
    requires Legitimate(c) && Inv(c, n) && Traced(c, n) && Enabled(c, n, Host(ev))
    ensures Traced(c, Next(c, n, Host(ev)))
  {
    var n' := Next(c, n, Host(ev));
    RoundStaysInside(c, n.sender, ev);
    assert n.packets <= n'.packets;
    MorePackets(c, n, n');
  }

  lemma MorePackets(c: Setup, n: Net, n': Net)
    requires Legitimate(c) && RepliesTrace(c, n) && (n.openings > 0 ==> LastTrace(c, n) && FileTrace(c, n))
    requires n.packets <= n'.packets && n' == n.(sender := n'.sender, packets := n'.packets)
    ensures RepliesTrace(c, n') && (n'.openings > 0 ==> LastTrace(c, n') && FileTrace(c, n'))
  {
  }

  lemma ChunkKeepsTrace(c: Setup, n: Net, p: Packet, memory: Option<seq<byte>>)
    requires Legitimate(c) && Inv(c, n) && Traced(c, n) && p in n.packets && p.cmd != NB_SEND_FILE
    ensures Traced(c, Next(c, n, Deliver(p, memory)))
  {
    PacketFacts(c, n, p);
    ChunkIsTaken(c.program, c.src.content, n.receiver, p, memory);
    var n', o := Next(c, n, Deliver(p, memory)), React(c.program, n.receiver, p, memory);
    assert HasChunk(n') by {
      assert p in n'.packets;
    }
    TakenKeepsTrace(c, n, n', p, o);
    RepliesStayTraced(c, n, n', o);
  }

  lemma RepliesStayTraced(c: Setup, n: Net, n': Net, o: Reaction)
    requires RepliesTrace(c, n) && HasChunk(n')
    requires n'.replies == n.replies + (if o.reply.Some? then {o.reply.value} else {})
    requires n'.completed == (n.completed || (o.reply.Some? && o.reply.value.cmd == NB_FILE_RECEIVED))
    requires o.reply.Some? ==>
      o.reply.value.magic == NB_MAGIC && (o.reply.value.cmd == NB_ACK ==> o.reply.value.arg <= |c.src.content|)
    ensures RepliesTrace(c, n')
  {
  }

  lemma ReceiptStays(n: Net, n': Net)
    requires n.replies <= n'.replies && (n.completed ==> HasReceipt(n))
    ensures n.completed ==> HasReceipt(n')
  {
  }

  lemma TakenKeepsTrace(c: Setup, n: Net, n': Net, p: Packet, o: Reaction)
    requires Legitimate(c) && Traced(c, n) && n.openings > 0 && p in n.packets && IsChunkAt(c.src.content, p, p.arg)
    requires Held(n.receiver) <= c.src.content && ChunkTaken(c.src.content, n.receiver, p, o)
    requires n'.receiver == o.receiver && n'.packets == n.packets && HasChunk(n') && n'.openings > 0
    requires n'.completed == (n.completed || (o.reply.Some? && o.reply.value.cmd == NB_FILE_RECEIVED))
    ensures LastTrace(c, n') && FileTrace(c, n')
    ensures o.reply.Some? ==>
      o.reply.value.magic == NB_MAGIC && (o.reply.value.cmd == NB_ACK ==> o.reply.value.arg <= |c.src.content|)
  {
  }

  lemma OpenKeepsTrace(c: Setup, n: Net, memory: Option<seq<byte>>)
    requires Legitimate(c) && Inv(c, n) && Traced(c, n) && OpenPacket(c) in n.packets
    ensures Traced(c, Next(c, n, Deliver(OpenPacket(c), memory)))
  {
    var n' := Next(c, n, Deliver(OpenPacket(c), memory));
    OpenIsTaken(c, n.receiver, memory);
    ReceiptStays(n, n');
    OpenTakenKeepsTrace(c, n, n', memory, React(c.program, n.receiver, OpenPacket(c), memory));
  }

  lemma OpenTakenKeepsTrace(c: Setup, n: Net, n': Net, memory: Option<seq<byte>>, o: Reaction)
    requires Legitimate(c) && Traced(c, n) && OpenPacket(c) in n.packets && Valid(n.receiver)
    requires OpenTaken(c, n.receiver, memory, o) && n'.receiver == o.receiver && n'.packets == n.packets
    requires n'.openings > 0
    requires n.completed ==> n'.completed
    ensures HasChunk(n) == HasChunk(n')
    ensures LastTrace(c, n') && FileTrace(c, n')
    ensures o.reply.Some? && o.reply.value.magic == NB_MAGIC && OpenAnswer(c, o.reply.value.cmd, o.reply.value.arg)
  {
  }

  lemma {:induction false} EveryRunIsTraced(c: Setup, run: seq<Action>)
    requires Legitimate(c) && Legal(c, run)
    ensures Inv(c, After(c, run)) && Traced(c, After(c, run))
  {
    EveryRunIsSafe(c, run);
    if run != [] {
      var n := After(c, run[..|run| - 1]);
      EveryRunIsTraced(c, run[..|run| - 1]);
      match run[|run| - 1]
      case Host(ev) => HostKeepsTrace(c, n, ev);
      case Deliver(p, memory) =>
        PacketFacts(c, n, p);
        if p.cmd == NB_SEND_FILE {
          OpenKeepsTrace(c, n, memory);
        } else {
          ChunkKeepsTrace(c, n, p, memory);
        }
    }
  }

  // ---------- steps of a transfer that succeeds ----------

  const SEND := Host(Ready(None, true, false))

  function Hear(m: Reply): Action {
    Host(Ready(Some(Received(m)), false, false))
  }

  lemma LegalSnoc(c: Setup, run: seq<Action>, a: Action)
    requires Legal(c, run) && Enabled(c, After(c, run), a)
    ensures Legal(c, run + [a]) && After(c, run + [a]) == Next(c, After(c, run), a)
  {
  }

  function ChunkPacket(c: Setup, s: Sender): Packet {
    var data := Chunk(c.src.content, s.position);
    Packet(s.cookie, if s.current + |data| >= |c.src.content| then NB_LAST_DATA else NB_DATA, s.arg, data)
  }

  // The host is streaming and stands at `k`.
  ghost predicate StandsAt(n: Net, k: nat) {
    n.sender.status == Streaming && n.sender.current == n.sender.position == n.sender.arg == k
  }

  lemma StreamingStands(c: Setup, n: Net)
    requires Legitimate(c) && Inv(c, n) && Traced(c, n) && n.sender.status == Streaming
    ensures StandsAt(n, n.sender.current) && n.openings > 0
  {
  }

  lemma SendChunk(c: Setup, n: Net, k: nat)
    requires Legitimate(c) && StandsAt(n, k) && k < |c.src.content|
    ensures var p, n' := ChunkPacket(c, n.sender), Next(c, n, SEND);
      && p in n'.packets && IsChunkAt(c.src.content, p, k) && p.arg == k && p.cookie == n.sender.cookie
      && StandsAt(n', k + |p.data|) && n' == n.(sender := n'.sender, packets := n.packets + {p})
  {
  }

  // A NACK moves the host wherever it is.
  lemma HearNack(c: Setup, n: Net, k: nat, m: Reply)
    requires Legitimate(c) && StandsAt(n, k) && k <= |c.src.content|
    requires m.magic == NB_MAGIC && m.cmd == NB_ACK && m.cookie > 0 && m.arg <= |c.src.content|
    ensures var n' := Next(c, n, Hear(m));
      && StandsAt(n', m.arg) && n' == n.(sender := n'.sender)
      && (k == |c.src.content| ==> n'.sender.cookie == n.sender.cookie)
  {
  }

  lemma HearReceipt(c: Setup, n: Net, k: nat, m: Reply)
    requires Legitimate(c) && StandsAt(n, k) && k <= |c.src.content| && m.magic == NB_MAGIC && m.cmd == NB_FILE_RECEIVED
    ensures var n' := Next(c, n, Hear(m)); n'.sender.status == Succeeded && n' == n.(sender := n'.sender)
  {
  }

  lemma {:induction false} PacketsStay(c: Setup, run: seq<Action>, whole: seq<Action>, p: Packet)
    requires run <= whole && p in After(c, run).packets
    ensures p in After(c, whole).packets
  {
    if run != whole {
      PacketsStay(c, run, whole[..|whole| - 1], p);
    }
  }

  // The active file has memory for all of the content.
  ghost predicate Roomy(c: Setup, n: Net) {
    n.receiver.active.Some? && |c.src.content| <= |n.receiver.active.value.data|
  }

  // Host and target both stand at offset `k`, and the next chunk does not look like a repeat.
  ghost predicate InSync(c: Setup, n: Net, k: nat) {
    && k < |c.src.content| && StandsAt(n, k) && n.openings > 0
    && Roomy(c, n) && n.receiver.active.value.offset == k
    && !Repeats(n.receiver, ChunkPacket(c, n.sender))
  }

  lemma DeliverInSync(c: Setup, n: Net, k: nat, p: Packet)
    requires Legitimate(c) && Inv(c, n) && n.openings > 0 && p in n.packets && IsChunkAt(c.src.content, p, k)
    requires p.arg == k
    requires Roomy(c, n) && n.receiver.active.value.offset == k && !Repeats(n.receiver, p)
    ensures var n' := Next(c, n, Deliver(p, None));
      && n'.sender == n.sender && n'.packets == n.packets && n'.openings == n.openings
      && Roomy(c, n') && n'.receiver.active.value.offset == k + |p.data|
      && n'.receiver.active.value.name == n.receiver.active.value.name
      && n'.receiver.lastCookie == p.cookie && n'.receiver.lastCmd == p.cmd && n'.receiver.lastArg == k
      && n'.receiver.lastAckCmd == (if p.cmd == NB_LAST_DATA then NB_FILE_RECEIVED else NB_ACK)
      && n'.receiver.lastAckArg == 0
      && (p.cmd == NB_LAST_DATA ==> Reply(NB_MAGIC, p.cookie, NB_FILE_RECEIVED, 0) in n'.replies && n'.completed)
  {
  }

  // From step to step without loss, the transfer runs to success.
  lemma {:induction false} FinishFrom(c: Setup, run: seq<Action>, k: nat) returns (whole: seq<Action>)
    requires Legitimate(c) && Legal(c, run) && InSync(c, After(c, run), k)
    ensures run <= whole && Legal(c, whole)
    ensures var n, n' := After(c, run), After(c, whole);
      && n'.sender.status == Succeeded && n'.completed && n'.receiver.lastCmd == NB_LAST_DATA
      && n'.openings == n.openings && n'.receiver.active.Some?
      && n'.receiver.active.value.name == n.receiver.active.value.name
    decreases |c.src.content| - k
  {
    var n := After(c, run);
    var p := ChunkPacket(c, n.sender);
    SendChunk(c, n, k);
    LegalSnoc(c, run, SEND);
    EveryRunIsSafe(c, run + [SEND]);
    DeliverInSync(c, After(c, run + [SEND]), k, p);
    LegalSnoc(c, run + [SEND], Deliver(p, None));
    var run2 := run + [SEND] + [Deliver(p, None)];
    if p.cmd == NB_DATA {
      whole := FinishFrom(c, run2, k + |p.data|);
    } else {
      var m := Reply(NB_MAGIC, p.cookie, NB_FILE_RECEIVED, 0);
      HearReceipt(c, After(c, run2), k + |p.data|, m);
      LegalSnoc(c, run2, Hear(m));
      whole := run2 + [Hear(m)];
    }
  }

  // ---------- a transfer under way ----------

  // The numbers of the messages have not wrapped around, so the next one is new.
  ghost predicate Unwrapped(n: Net) {
    forall p | p in n.packets :: 0 < p.cookie < n.sender.cookie
  }

  // The file can be given memory of its own when NB_SEND_FILE comes again.
  predicate CanReopen(c: Setup)
    requires c.name != []
  {
    c.openTwice && HasRoom(c.program, OwnKind(c), |c.src.content|)
  }

  // Something the host has sent or can still send will bring it together with a target that has,
  // or can get, memory for the file.
  ghost predicate Alive(c: Setup, n: Net)
    requires c.name != []
  {
    || n.completed
    || (n.receiver.active.Some? && (Roomy(c, n) || CanReopen(c)) && (n.sender.current < |c.src.content| || HasChunk(n)))
  }

  // The host still has something to send, so it can be told where to go on.
  lemma FinishFromMiddle(c: Setup, run: seq<Action>) returns (whole: seq<Action>)
    requires Legitimate(c) && Legal(c, run) && Unwrapped(After(c, run))
    requires var n := After(c, run);
      n.sender.status == Streaming && !n.completed && Roomy(c, n) && n.sender.current < |c.src.content|
    ensures run <= whole && Legal(c, whole) && After(c, whole).sender.status == Succeeded
  {
    var n := After(c, run);
    var k := n.sender.current;
    EveryRunIsTraced(c, run);
    NextChunkIsNew(c, n);
    if n.receiver.active.value.offset == k {
      whole := FinishFrom(c, run, k);
    } else {
      var p := ChunkPacket(c, n.sender);
      SendChunk(c, n, k);
      LegalSnoc(c, run, SEND);
      whole := FinishByNack(c, run + [SEND], p);
    }
  }

  // A chunk from elsewhere makes the target say where it stands, and the host goes there.
  lemma FinishByNack(c: Setup, run: seq<Action>, p: Packet) returns (whole: seq<Action>)
    requires Legitimate(c) && Legal(c, run)
    requires var n := After(c, run);
      && n.sender.status == Streaming && Roomy(c, n) && n.receiver.active.value.offset < |c.src.content|
      && p in n.packets && p.cmd != NB_SEND_FILE && p.cookie > 0
      && p.arg != n.receiver.active.value.offset && !Repeats(n.receiver, p)
    ensures run <= whole && Legal(c, whole) && After(c, whole).sender.status == Succeeded
    ensures After(c, whole).receiver.lastCmd == NB_LAST_DATA && After(c, whole).completed
  {
    var n := After(c, run);
    EveryRunIsTraced(c, run);
    StreamingStands(c, n);
    NackedChunk(c, n, p);
    LegalSnoc(c, run, Deliver(p, None));
    var run2 := run + [Deliver(p, None)];
    var m := Reply(NB_MAGIC, p.cookie, NB_ACK, n.receiver.active.value.offset);
    HearNack(c, After(c, run2), n.sender.current, m);
    LegalSnoc(c, run2, Hear(m));
    whole := FinishFrom(c, run2 + [Hear(m)], m.arg);
  }

  lemma NextChunkIsNew(c: Setup, n: Net)
    requires Legitimate(c) && Inv(c, n) && Traced(c, n) && Unwrapped(n) && n.sender.status == Streaming
    ensures !Repeats(n.receiver, ChunkPacket(c, n.sender)) && n.sender.cookie > 0 && n.openings > 0
    ensures StandsAt(n, n.sender.current)
    ensures n.receiver.active.Some? ==> n.receiver.active.value.offset <= |c.src.content|
    ensures n.receiver.active.Some? && !n.completed && c.src.content != [] ==>
      n.receiver.active.value.offset < |c.src.content|
  {
  }

  // A chunk from elsewhere is answered with the offset wanted.
  lemma NackedChunk(c: Setup, n: Net, p: Packet)
    requires Legitimate(c) && Inv(c, n) && p in n.packets && p.cmd != NB_SEND_FILE
    requires n.receiver.active.Some? && n.receiver.active.value.offset != p.arg && !Repeats(n.receiver, p)
    ensures n.receiver.active.value.offset <= |c.src.content|
    ensures var f, n' := n.receiver.active.value, Next(c, n, Deliver(p, None));
      && n'.sender == n.sender && n'.packets == n.packets && n'.openings == n.openings && n'.completed == n.completed
      && n'.receiver.active == n.receiver.active
      && n'.receiver.lastCmd == p.cmd && n'.receiver.lastArg == p.arg
      && Reply(NB_MAGIC, p.cookie, NB_ACK, f.offset) in n'.replies
  {
    PacketFacts(c, n, p);
    assert |Held(n.receiver)| == n.receiver.active.value.offset;
    ChunkIsTaken(c.program, c.src.content, n.receiver, p, None);
  }

  lemma RepeatedChunk(c: Setup, n: Net, q: Packet)
    requires Legitimate(c) && Inv(c, n) && Traced(c, n) && !n.completed
    requires q in n.packets && q.cmd != NB_SEND_FILE && Repeats(n.receiver, q) && Roomy(c, n)
    ensures n.receiver.lastAckCmd == NB_ACK && n.receiver.lastAckArg < |c.src.content|
    ensures var n' := Next(c, n, Deliver(q, None));
      n' == n.(replies := n'.replies) && Reply(NB_MAGIC, q.cookie, NB_ACK, n.receiver.lastAckArg) in n'.replies
  {
  }

  // A chunk that was sent before, delivered once or twice, makes the target speak: it reports the
  // file received, or says where to go on.
  lemma DrawAnswer(c: Setup, run: seq<Action>, q: Packet) returns (whole: seq<Action>, m: Reply)
    requires Legitimate(c) && Legal(c, run) && Unwrapped(After(c, run))
    requires var n := After(c, run);
      n.sender.status == Streaming && !n.completed && Roomy(c, n) && q in n.packets && q.cmd != NB_SEND_FILE
    ensures run <= whole && Legal(c, whole)
    ensures var n, n' := After(c, run), After(c, whole);
      && n'.sender == n.sender && n'.packets == n.packets && Roomy(c, n')
      && (n'.completed ||
          (m in n'.replies && m.magic == NB_MAGIC && m.cmd == NB_ACK && m.cookie > 0 && m.arg < |c.src.content|))
  {
    var n := After(c, run);
    EveryRunIsTraced(c, run);
    PacketFacts(c, n, q);
    LegalSnoc(c, run, Deliver(q, None));
    whole := run + [Deliver(q, None)];
    if Repeats(n.receiver, q) {
      RepeatedChunk(c, n, q);
      m := Reply(NB_MAGIC, q.cookie, n.receiver.lastAckCmd, n.receiver.lastAckArg);
    } else if q.arg != n.receiver.active.value.offset {
      NextChunkIsNew(c, n);
      NackedChunk(c, n, q);
      m := Reply(NB_MAGIC, q.cookie, NB_ACK, n.receiver.active.value.offset);
    } else {
      DeliverInSync(c, n, q.arg, q);
      m := Reply(NB_MAGIC, q.cookie, NB_ACK, 0);
      if q.cmd == NB_DATA {
        whole := DrawAgain(c, whole, q);
      }
    }
  }

  // A chunk just accepted, delivered again, is answered with an ACK of 0.
  lemma DrawAgain(c: Setup, run: seq<Action>, q: Packet) returns (whole: seq<Action>)
    requires Legitimate(c) && Legal(c, run)
    requires var n := After(c, run);
      q in n.packets && q.cmd != NB_SEND_FILE && Roomy(c, n) && Repeats(n.receiver, q) && n.receiver.lastAckArg == 0
    ensures run <= whole && Legal(c, whole)
    ensures var n, n' := After(c, run), After(c, whole);
      && n'.sender == n.sender && n'.packets == n.packets && Roomy(c, n')
      && (n'.completed || Reply(NB_MAGIC, q.cookie, NB_ACK, 0) in n'.replies)
  {
    var n := After(c, run);
    whole := run;
    if !n.completed {
      EveryRunIsTraced(c, run);
      RepeatedChunk(c, n, q);
      LegalSnoc(c, run, Deliver(q, None));
      whole := run + [Deliver(q, None)];
    }
  }

  lemma FinishCompleted(c: Setup, run: seq<Action>) returns (whole: seq<Action>)
    requires Legitimate(c) && Legal(c, run) && After(c, run).sender.status == Streaming && After(c, run).completed
    ensures run <= whole && Legal(c, whole) && After(c, whole).sender.status == Succeeded
    ensures After(c, whole) == After(c, run).(sender := After(c, whole).sender)
  {
    var n := After(c, run);
    EveryRunIsTraced(c, run);
    StreamingStands(c, n);
    var m :| m in n.replies && m.cmd == NB_FILE_RECEIVED;
    HearReceipt(c, n, n.sender.current, m);
    LegalSnoc(c, run, Hear(m));
    whole := run + [Hear(m)];
  }

  // With memory for the file, anything sent or still to be sent is enough.
  lemma FinishRoomy(c: Setup, run: seq<Action>) returns (whole: seq<Action>)
    requires Legitimate(c) && Legal(c, run) && Unwrapped(After(c, run))
    requires var n := After(c, run);
      n.sender.status == Streaming && Roomy(c, n) && (n.sender.current < |c.src.content| || HasChunk(n))
    ensures run <= whole && Legal(c, whole) && After(c, whole).sender.status == Succeeded
  {
    var n := After(c, run);
    if n.completed {
      whole := FinishCompleted(c, run);
    } else if n.sender.current < |c.src.content| {
      whole := FinishFromMiddle(c, run);
    } else {
      var q :| q in n.packets && q.cmd != NB_SEND_FILE;
      EveryRunIsTraced(c, run);
      StreamingStands(c, n);
      var more, m := DrawAnswer(c, run, q);
      if After(c, more).completed {
        whole := FinishCompleted(c, more);
      } else {
        HearNack(c, After(c, more), n.sender.current, m);
        LegalSnoc(c, more, Hear(m));
        whole := FinishFromMiddle(c, more + [Hear(m)]);
      }
    }
  }

  // A chunk makes the target forget the opening message, which then gets the file memory of its own.
  lemma MakeRoom(c: Setup, run: seq<Action>, q: Packet) returns (whole: seq<Action>)
    requires Legitimate(c) && Legal(c, run) && CanReopen(c)
    requires var n := After(c, run);
      n.sender.status == Streaming && n.receiver.active.Some? && q in n.packets && q.cmd != NB_SEND_FILE
    ensures run <= whole && Legal(c, whole)
    ensures var n, n' := After(c, run), After(c, whole);
      && n'.sender == n.sender && n'.packets == n.packets && n'.openings > 0
      && Roomy(c, n') && n'.receiver.active.value.offset == 0 && n'.receiver.lastCmd == NB_SEND_FILE
  {
    var n := After(c, run);
    EveryRunIsTraced(c, run);
    RecordChunk(c, n, q);
    LegalSnoc(c, run, Deliver(q, None));
    whole := run + [Deliver(q, None)];
    var n1 := After(c, whole);
    var memory := SomeOffer(c.program, OwnKind(c), |c.src.content|);
    OpenIsTaken(c, n1.receiver, memory);
    LegalSnoc(c, whole, Deliver(OpenPacket(c), memory));
    whole := whole + [Deliver(OpenPacket(c), memory)];
  }

  lemma RecordChunk(c: Setup, n: Net, q: Packet)
    requires Legitimate(c) && Inv(c, n) && Traced(c, n) && q in n.packets && q.cmd != NB_SEND_FILE
    requires n.sender.status == Streaming && n.receiver.active.Some?
    ensures OpenPacket(c) in n.packets
    ensures var n' := Next(c, n, Deliver(q, None));
      && n'.sender == n.sender && n'.packets == n.packets && n'.openings == n.openings > 0
      && n'.receiver.lastCmd == q.cmd
  {
  }

  // The same for a host that has sent no chunk yet.
  lemma FinishReopened(c: Setup, run: seq<Action>) returns (whole: seq<Action>)
    requires Legitimate(c) && Legal(c, run) && CanReopen(c)
    requires var n := After(c, run);
      && n.sender.status == Streaming && n.receiver.active.Some? && n.sender.current < |c.src.content|
      && (n.sender.current == 0 || n.sender.cookie > 0)
    ensures run <= whole && Legal(c, whole) && After(c, whole).sender.status == Succeeded
    ensures After(c, whole).receiver.lastCmd == NB_LAST_DATA && After(c, whole).completed
  {
    var n := After(c, run);
    var k := n.sender.current;
    EveryRunIsTraced(c, run);
    StreamingStands(c, n);
    var p := ChunkPacket(c, n.sender);
    SendChunk(c, n, k);
    LegalSnoc(c, run, SEND);
    var more := MakeRoom(c, run + [SEND], p);
    if k == 0 {
      whole := FinishFirst(c, more, p);
    } else {
      whole := FinishByNack(c, more, p);
    }
  }

  // The first chunk, when the host has just sent it and the target has just been opened.
  lemma FinishFirst(c: Setup, run: seq<Action>, p: Packet) returns (whole: seq<Action>)
    requires Legitimate(c) && Legal(c, run)
    requires var n := After(c, run);
      && n.openings > 0 && Roomy(c, n) && n.receiver.active.value.offset == 0 && n.receiver.lastCmd == NB_SEND_FILE
      && p in n.packets && IsChunkAt(c.src.content, p, 0) && StandsAt(n, |p.data|)
    ensures run <= whole && Legal(c, whole) && After(c, whole).sender.status == Succeeded
    ensures After(c, whole).receiver.lastCmd == NB_LAST_DATA && After(c, whole).completed
  {
    EveryRunIsSafe(c, run);
    DeliverInSync(c, After(c, run), 0, p);
    LegalSnoc(c, run, Deliver(p, None));
    var run2 := run + [Deliver(p, None)];
    if p.cmd == NB_LAST_DATA {
      whole := FinishCompleted(c, run2);
    } else {
      whole := FinishFrom(c, run2, |p.data|);
    }
  }

  // Every transfer that is alive can be brought to success.
  lemma FinishAlive(c: Setup, run: seq<Action>) returns (whole: seq<Action>)
    requires Legitimate(c) && Legal(c, run) && Unwrapped(After(c, run))
    requires After(c, run).sender.status == Streaming && Alive(c, After(c, run))
    ensures run <= whole && Legal(c, whole) && After(c, whole).sender.status == Succeeded
  {
    var n := After(c, run);
    if n.completed {
      whole := FinishCompleted(c, run);
    } else if Roomy(c, n) {
      whole := FinishRoomy(c, run);
    } else if HasChunk(n) {
      var q :| q in n.packets && q.cmd != NB_SEND_FILE;
      var more := MakeRoom(c, run, q);
      whole := FinishRoomy(c, more);
    } else {
      EveryRunIsTraced(c, run);
      NextChunkIsNew(c, n);
      whole := FinishReopened(c, run);
    }
  }

  // ---------- transfers that cannot succeed ----------

  // The target has refused the file, and answers everything from memory, or has too little memory.
  ghost predicate Cramped(c: Setup, r: Receiver)
    requires Legitimate(c)
  {
    if r.active.Some? then |r.active.value.data| < |c.src.content|
    else Repeats(r, OpenPacket(c)) && r.lastAckCmd == NB_ERROR_BAD_FILE
  }

  // There is memory for the file, or there can be: its own, or a stale session's that the opening
  // message was taken for a repeat of.
  predicate CanFit(c: Setup)
    requires c.name != []
  {
    if Fresh(c) then HasRoom(c.program, OwnKind(c), |c.src.content|)
    else c.target.active.Some? && (|c.src.content| <= |c.target.active.value.data| || CanReopen(c))
  }

  // There is not, and will not be.
  ghost predicate Hopeless(c: Setup, n: Net)
    requires Legitimate(c)
  {
    && !n.completed
    && (n.openings == 0 ==> !CanFit(c))
    && (n.openings > 0 ==> Cramped(c, n.receiver) && (n.receiver.active.Some? ==> !CanReopen(c)))
  }

  // The host waits at the end of the file, having sent none of it.
  ghost predicate Stranded(c: Setup, n: Net)
    requires Legitimate(c)
  {
    && (n.sender.status == Failed ||
        (n.sender.status == Streaming && n.sender.current == n.sender.position == |c.src.content|))
    && n.packets == {OpenPacket(c)}
    && (forall m | m in n.replies :: OpenAnswer(c, m.cmd, m.arg))
    && n.receiver.lastCmd == NB_SEND_FILE && OpenAnswer(c, n.receiver.lastAckCmd, n.receiver.lastAckArg)
  }

  lemma StrandedStays(c: Setup, n: Net, a: Action)
    requires Legitimate(c) && Stranded(c, n) && Enabled(c, n, a)
    ensures Stranded(c, Next(c, n, a))
  {
  }

  lemma HopelessStays(c: Setup, n: Net, a: Action)
    requires Legitimate(c) && Inv(c, n) && Hopeless(c, n) && Enabled(c, n, a)
    ensures Hopeless(c, Next(c, n, a))
  {
    if a.Deliver? {
      PacketFacts(c, n, a.p);
      if a.p.cmd == NB_SEND_FILE {
        OpenIsTaken(c, n.receiver, a.memory);
        RoomIff(c.program, OwnKind(c), |c.src.content|);
      } else {
        ChunkIsTaken(c.program, c.src.content, n.receiver, a.p, a.memory);
      }
    }
  }

  // Neither can be left.
  lemma {:induction false} StuckForever(c: Setup, run: seq<Action>, whole: seq<Action>)
    requires Legitimate(c) && run <= whole && Legal(c, whole)
    requires Stranded(c, After(c, run)) || Hopeless(c, After(c, run))
    ensures Stranded(c, After(c, whole)) || Hopeless(c, After(c, whole))
    ensures After(c, whole).sender.status != Succeeded
  {
    EveryRunIsSafe(c, whole);
    if run != whole {
      var init, a := whole[..|whole| - 1], whole[|whole| - 1];
      StuckForever(c, run, init);
      EveryRunIsSafe(c, init);
      if Stranded(c, After(c, init)) {
        StrandedStays(c, After(c, init), a);
      } else {
        HopelessStays(c, After(c, init), a);
      }
    }
  }

  lemma DeadIsStuck(c: Setup, n: Net)
    requires Legitimate(c) && Inv(c, n) && Traced(c, n) && n.sender.status == Streaming && !Alive(c, n)
    ensures Stranded(c, n) || Hopeless(c, n)
  {
  }

  // A transfer under way can still succeed exactly when it is alive.
  lemma CanStillSucceedIff(c: Setup, run: seq<Action>)
    requires Legitimate(c) && Legal(c, run) && After(c, run).sender.status == Streaming && Unwrapped(After(c, run))
    ensures (exists whole | run <= whole && Legal(c, whole) :: After(c, whole).sender.status == Succeeded)
            <==> Alive(c, After(c, run))
  {
    if Alive(c, After(c, run)) {
      var whole := FinishAlive(c, run);
    } else {
      EveryRunIsTraced(c, run);
      DeadIsStuck(c, After(c, run));
      forall whole | run <= whole && Legal(c, whole)
        ensures After(c, whole).sender.status != Succeeded
      {
        StuckForever(c, run, whole);
      }
    }
  }

  // Numbers start at one and grow by at most one in a round.
  lemma {:induction false} ShortRunsAreUnwrapped(c: Setup, run: seq<Action>)
    requires 0 < c.cookie && c.cookie + |run| < TWO_TO_THE_32
    ensures Unwrapped(After(c, run)) && c.cookie <= After(c, run).sender.cookie <= c.cookie + |run|
  {
    if run != [] {
      var n := After(c, run[..|run| - 1]);
      ShortRunsAreUnwrapped(c, run[..|run| - 1]);
      if run[|run| - 1].Host? {
        RoundNumbers(c, n.sender, run[|run| - 1].ev);
      }
    }
  }

  lemma RoundNumbers(c: Setup, s: Sender, ev: Event)
    requires s.cookie + 1 < TWO_TO_THE_32
    ensures var o := Step(c.src, c.name, s, ev);
      s.cookie <= o.sender.cookie <= s.cookie + 1 && forall p | p in o.sent :: p.cookie == s.cookie < o.sender.cookie
  {
  }

  // ---------- a transfer about to start ----------

  // The target says yes to the opening message, or has said so already.
  predicate Openable(c: Setup)
    requires c.name != []
  {
    if Fresh(c) then OwnKind(c).Some? else c.target.active.Some?
  }

  lemma SendOpen(c: Setup)
    requires Legitimate(c)
    ensures Next(c, Init(c), SEND) ==
      Net(Sender(Opening, NextCookie(c.cookie), 0, |c.src.content|, 0), c.target, {OpenPacket(c)}, {}, 0, false, false)
  {
  }

  function OpenReply(c: Setup): Reply
    requires Legitimate(c)
  {
    Reply(NB_MAGIC, c.cookie, NB_ACK, |c.src.content|)
  }

  lemma DeliverOpen(c: Setup, n: Net) returns (memory: Option<seq<byte>>)
    requires Legitimate(c) && Openable(c) && OpenPacket(c) in n.packets
    requires n.receiver == c.target && n.replies == {} && n.openings == 0 && !n.completed
    ensures Enabled(c, n, Deliver(OpenPacket(c), memory))
    ensures var n' := Next(c, n, Deliver(OpenPacket(c), memory));
      && n'.sender == n.sender && n'.packets == n.packets && n'.replies == {OpenReply(c)}
      && n'.openings == 1 && !n'.completed
      && n'.receiver.lastCmd == NB_SEND_FILE && n'.receiver.active.Some? && n'.receiver.active.value.offset == 0
      && (Fresh(c) ==> (HasRoom(c.program, OwnKind(c), |c.src.content|) <==> Roomy(c, n')))
      && (!Fresh(c) ==> n'.receiver == c.target)
  {
    memory := SomeOffer(c.program, OwnKind(c), |c.src.content|);
    OpenIsTaken(c, n.receiver, memory);
    RoomIff(c.program, OwnKind(c), |c.src.content|);
    assert {} + {OpenReply(c)} == {OpenReply(c)};
  }

  lemma HearOpen(c: Setup, n: Net)
    requires Legitimate(c) && n.sender == Sender(Opening, NextCookie(c.cookie), 0, |c.src.content|, 0)
    ensures var n' := Next(c, n, Hear(OpenReply(c)));
      StandsAt(n', 0) && n' == n.(sender := n'.sender)
  {
  }

  // The opening exchange: the host is streaming, the target has an empty file.
  lemma OpenExchange(c: Setup) returns (run: seq<Action>)
    requires Legitimate(c) && Openable(c)
    ensures Legal(c, run)
    ensures var n := After(c, run);
      && StandsAt(n, 0) && n.openings == 1 && !n.completed
      && n.packets == {OpenPacket(c)} && n.replies == {OpenReply(c)}
      && n.receiver.lastCmd == NB_SEND_FILE && n.receiver.active.Some? && n.receiver.active.value.offset == 0
      && (Fresh(c) ==> (HasRoom(c.program, OwnKind(c), |c.src.content|) <==> Roomy(c, n)))
      && (!Fresh(c) ==> n.receiver == c.target)
  {
    assert After(c, []) == Init(c) && [] + [SEND] == [SEND];
    SendOpen(c);
    LegalSnoc(c, [], SEND);
    var memory := DeliverOpen(c, After(c, [SEND]));
    LegalSnoc(c, [SEND], Deliver(OpenPacket(c), memory));
    run := [SEND] + [Deliver(OpenPacket(c), memory)];
    HearOpen(c, After(c, run));
    LegalSnoc(c, run, Hear(OpenReply(c)));
    run := run + [Hear(OpenReply(c))];
  }

  // Every non-empty file there can be memory for can be transferred.
  lemma SomeRunSucceeds(c: Setup) returns (run: seq<Action>)
    requires Legitimate(c) && CanFit(c) && c.src.content != []
    ensures Legal(c, run)
    ensures var n := After(c, run);
      && n.sender.status == Succeeded && n.receiver.lastCmd == NB_LAST_DATA && n.completed && n.openings > 0
      && OpenPacket(c) in n.packets
      && (!Fresh(c) && |c.src.content| <= |c.target.active.value.data| ==>
            n.receiver.active.Some? && n.receiver.active.value.name == c.target.active.value.name)
  {
    var start := OpenExchange(c);
    if Roomy(c, After(c, start)) {
      run := FinishFrom(c, start, 0);
    } else {
      run := FinishReopened(c, start);
    }
    PacketsStay(c, start, run, OpenPacket(c));
    EveryRunIsSafe(c, run);
  }

  // An empty file has no last chunk to be acknowledged, and without memory there is nowhere to put
  // the last one.
  lemma NoRunSucceeds(c: Setup, run: seq<Action>)
    requires Legitimate(c) && Legal(c, run) && (c.src.content == [] || !CanFit(c))
    ensures After(c, run).sender.status != Succeeded
  {
    if c.src.content == [] {
      EveryRunIsTraced(c, run);
      assert !HasChunk(After(c, run));
    } else {
      assert Hopeless(c, After(c, []));
      StuckForever(c, [], run);
    }
  }

  // A transfer can succeed exactly when the file is not empty and there is, or can be, memory for it.
  lemma CanSucceedIff(c: Setup)
    requires Legitimate(c)
    ensures (exists run | Legal(c, run) :: After(c, run).sender.status == Succeeded)
            <==> c.src.content != [] && CanFit(c)
  {
    if c.src.content != [] && CanFit(c) {
      var run := SomeRunSucceeds(c);
    } else {
      forall run | Legal(c, run)
        ensures After(c, run).sender.status != Succeeded
      {
        NoRunSucceeds(c, run);
      }
    }
  }

  // "Success means the target has the file" is a theorem exactly for the networks that never
  // deliver NB_SEND_FILE twice, and where nothing succeeds: a late duplicate makes the target
  // start over.
  lemma SuccessMeansReceivedIff(c: Setup)
    requires Legitimate(c)
    ensures (forall run | Legal(c, run) && After(c, run).sender.status == Succeeded ::
               Held(After(c, run).receiver) == c.src.content)
            <==> !c.openTwice || c.src.content == [] || !CanFit(c)
  {
    if c.openTwice && c.src.content != [] && CanFit(c) {
      var run := SomeRunSucceeds(c);
      var memory := SomeOffer(c.program, OwnKind(c), |c.src.content|);
      var again := Deliver(OpenPacket(c), memory);
      LegalSnoc(c, run, again);
      OpenIsTaken(c, After(c, run).receiver, memory);
      assert Held(After(c, run + [again]).receiver) == [];
    } else {
      forall run | Legal(c, run) && After(c, run).sender.status == Succeeded
        ensures Held(After(c, run).receiver) == c.src.content
      {
        if c.openTwice {
          NoRunSucceeds(c, run);
        } else {
          SuccessMeansReceived(c, run);
        }
      }
    }
  }

  // The target still has an abandoned session's file, under another name and large enough, and takes
  // the opening message for a repeat of that session's.
  predicate Misfiled(c: Setup)
    requires c.name != []
  {
    && !Fresh(c) && c.target.active.Some? && c.target.active.value.name != Sanitize(c.name)
    && |c.src.content| <= |c.target.active.value.data|
  }

  // The target remembers only the cookie, command and argument of the last message, and every
  // host process counts cookies from one. So the file is certain to be held under its own name
  // exactly when no earlier session of another name was abandoned right after the same opening.
  lemma FiledUnderOwnNameIff(c: Setup)
    requires Legitimate(c)
    ensures (forall run |
               Legal(c, run) && After(c, run).sender.status == Succeeded && After(c, run).receiver.active.Some? ::
               After(c, run).receiver.active.value.name == Sanitize(c.name))
            <==> c.src.content == [] || !Misfiled(c)
  {
    if c.src.content != [] && Misfiled(c) {
      var run := SomeRunSucceeds(c);
    } else {
      forall run | Legal(c, run) && After(c, run).sender.status == Succeeded && After(c, run).receiver.active.Some?
        ensures After(c, run).receiver.active.value.name == Sanitize(c.name)
      {
        if c.src.content == [] {
          NoRunSucceeds(c, run);
        } else {
          EveryRunIsSafe(c, run);
        }
      }
    }
  }

  // ---------- ways to fail ----------

  // A duplicate of the answer to NB_SEND_FILE carries the file size, which the host takes for
  // a request to continue there: no continuation of that run succeeds.
  lemma DuplicateOpenReplyStrands(c: Setup) returns (run: seq<Action>)
    requires Legitimate(c) && Openable(c) && c.cookie != 0
    ensures Legal(c, run) && After(c, run).sender.status == Streaming
    ensures forall whole | run <= whole && Legal(c, whole) :: After(c, whole).sender.status != Succeeded
  {
    var start := OpenExchange(c);
    var again := Hear(OpenReply(c));
    HearNack(c, After(c, start), 0, OpenReply(c));
    LegalSnoc(c, start, again);
    run := start + [again];
    EveryRunIsTraced(c, run);
    DeadIsStuck(c, After(c, run));
    forall whole | run <= whole && Legal(c, whole)
      ensures After(c, whole).sender.status != Succeeded
    {
      StuckForever(c, run, whole);
    }
  }

  // Every reply is proper, and carries the number of a packet that was sent.
  lemma {:induction false} RepliesEcho(c: Setup, run: seq<Action>, m: Reply)
    requires Legal(c, run) && m in After(c, run).replies
    ensures m.magic == NB_MAGIC && exists p :: p in After(c, run).packets && p.cookie == m.cookie
  {
    var init, a := run[..|run| - 1], run[|run| - 1];
    if m in After(c, init).replies {
      RepliesEcho(c, init, m);
      var p :| p in After(c, init).packets && p.cookie == m.cookie;
      PacketsStay(c, init, run, p);
    } else {
      NewReplyEchoes(c, After(c, init), a, m);
      PacketsStay(c, init, run, a.p);
    }
  }

  lemma NewReplyEchoes(c: Setup, n: Net, a: Action, m: Reply)
    requires m in Next(c, n, a).replies && m !in n.replies
    ensures a.Deliver? && m.magic == NB_MAGIC && m.cookie == a.p.cookie
  {
    if a.Deliver? {
      AnswersEcho(c.program, n.receiver, a.p, a.memory);
    }
  }

  // A host that hears the target refuse, in the opening exchange or later, has failed for good and
  // sends nothing more.
  lemma HeardRefusalEnds(c: Setup, run: seq<Action>, ev: Event, whole: seq<Action>)
    requires Legitimate(c) && Unwrapped(After(c, run)) && After(c, run).sender.status in {Opening, Streaming}
    requires HearsRefusal(ev) && run + [Host(ev)] <= whole && Legal(c, whole)
    ensures After(c, whole).sender.status == Failed && After(c, whole).packets == After(c, run).packets
    decreases |whole|
  {
    if whole == run + [Host(ev)] {
      assert whole[..|run|] == run;
      RefusalIsHeard(c, run, ev);
    } else {
      HeardRefusalEnds(c, run, ev, whole[..|whole| - 1]);
      FailedIsFinal(c, After(c, whole[..|whole| - 1]), whole[|whole| - 1]);
    }
  }

  predicate HearsRefusal(ev: Event) {
    && ev.Ready? && ev.incoming.Some? && ev.incoming.value.Received?
    && ev.incoming.value.msg.cmd in {NB_ERROR_BAD_FILE, NB_ERROR_TOO_LARGE}
  }

  lemma RefusalIsHeard(c: Setup, run: seq<Action>, ev: Event)
    requires Legitimate(c) && Unwrapped(After(c, run)) && After(c, run).sender.status in {Opening, Streaming}
    requires HearsRefusal(ev) && Legal(c, run) && Enabled(c, After(c, run), Host(ev))
    ensures var n, n' := After(c, run), Next(c, After(c, run), Host(ev));
      n'.sender.status == Failed && n'.packets == n.packets
  {
    var n, m := After(c, run), ev.incoming.value.msg;
    RepliesEcho(c, run, m);
    var p :| p in n.packets && p.cookie == m.cookie;
    RefusalStops(c, n, ev);
  }

  lemma RefusalStops(c: Setup, n: Net, ev: Event)
    requires n.sender.status in {Opening, Streaming} && HearsRefusal(ev)
    requires ev.incoming.value.msg.magic == NB_MAGIC && ev.incoming.value.msg.cookie < n.sender.cookie
    ensures var n' := Next(c, n, Host(ev)); n'.sender.status == Failed && n'.packets == n.packets
  {
    RefusalEnds(c.src, c.name, n.sender, ev);
  }

  lemma FailedIsFinal(c: Setup, n: Net, a: Action)
    requires n.sender.status == Failed
    ensures Next(c, n, a).sender == n.sender && Next(c, n, a).packets == n.packets
  {
  }

  // The bootloader says yes to a kernel or a command line of any size. One that is larger than the
  // buffer never arrives, and the host learns of it only when the buffer is full.
  lemma TooLargeIsAcknowledged(c: Setup) returns (run: seq<Action>)
    requires Legitimate(c) && Fresh(c) && OwnKind(c).Some? && !HasRoom(c.program, OwnKind(c), |c.src.content|)
    ensures c.program == ZirconBootloader && c.src.content != []
    ensures Legal(c, run) && After(c, run).sender.status == Streaming
    ensures forall whole | run <= whole && Legal(c, whole) ::
      After(c, whole).sender.status != Succeeded && |Held(After(c, whole).receiver)| < |c.src.content|
  {
    run := OpenExchange(c);
    forall whole | run <= whole && Legal(c, whole)
      ensures After(c, whole).sender.status != Succeeded && |Held(After(c, whole).receiver)| < |c.src.content|
    {
      NoRunSucceeds(c, whole);
      StaysTooSmall(c, run, whole);
    }
  }

  lemma {:induction false} StaysTooSmall(c: Setup, run: seq<Action>, whole: seq<Action>)
    requires Legitimate(c) && Fresh(c) && OwnKind(c).Some? && !HasRoom(c.program, OwnKind(c), |c.src.content|)
    requires run <= whole && Legal(c, whole) && After(c, run).openings > 0
    ensures After(c, whole).openings > 0 && |Held(After(c, whole).receiver)| < |c.src.content|
  {
    if run != whole {
      StaysTooSmall(c, run, whole[..|whole| - 1]);
    }
    EveryRunIsSafe(c, whole);
    RoomIff(c.program, OwnKind(c), |c.src.content|);
  }
}
