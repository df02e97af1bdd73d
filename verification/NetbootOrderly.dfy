/**
 The host composed with any orderly receiver, over a network that may lose, duplicate and reorder
 messages in both directions. A receiver is orderly if it appends a chunk only where its bytes
 end, and reports the file received only after it has accepted a last chunk; an opening message
 may make it start over. Otherwise it may do and answer what it likes.
 */
module NetbootOrderly {
  import opened Basics
  import opened NetbootWire
  import opened NetbootSender

  // What the host transfers, under the number its first message carries.
  datatype Job = Job(src: Source, name: seq<byte>, cookie: uint32)

  // Offsets travel in 32 bits.
  predicate Short(j: Job) {
    |j.src.content| < TWO_TO_THE_32
  }

  function OpenPacket(j: Job): Packet
    requires Short(j)
  {
    Packet(j.cookie, NB_SEND_FILE, |j.src.content|, j.name)
  }

  // `held` are the receiver's bytes. `packets` and `replies` hold everything ever sent, `openings`
  // counts deliveries of NB_SEND_FILE, `accepted` records that a last chunk was accepted, and
  // `reopened` that an NB_SEND_FILE came after that.
  datatype World = World(sender: Sender, held: seq<byte>, packets: set<Packet>, replies: set<Reply>,
                         openings: nat, accepted: bool, reopened: bool)

  datatype Move = Round(ev: Event) | Reaction(p: Packet, held: seq<byte>, reply: Option<Reply>)

  // Whatever the receiver held before.
  function Init(j: Job, held: seq<byte>): World {
    World(Start(j.cookie), held, {}, {}, 0, false, false)
  }

  predicate Accepts(w: World, p: Packet, held: seq<byte>) {
    && (p.cmd == NB_DATA || p.cmd == NB_LAST_DATA) && p.data != []
    && p.arg == |w.held| && held == w.held + p.data
  }

  predicate Orderly(w: World, p: Packet, held: seq<byte>, reply: Option<Reply>) {
    && (held == w.held || Accepts(w, p, held) || (p.cmd == NB_SEND_FILE && held == []))
    && (p.cmd == NB_SEND_FILE && w.openings == 0 ==> held == [])
    && (reply.Some? && reply.value.cmd == NB_FILE_RECEIVED ==>
          w.accepted || (Accepts(w, p, held) && p.cmd == NB_LAST_DATA))
  }

  // The network invents nothing.
  predicate Enabled(w: World, m: Move) {
    match m
    case Round(ev) =>
      ev.Ready? && ev.incoming.Some? && ev.incoming.value.Received? ==> ev.incoming.value.msg in w.replies
    case Reaction(p, held, reply) => p in w.packets && Orderly(w, p, held, reply)
  }

  function Next(j: Job, w: World, m: Move): World {
    match m
    case Round(ev) =>
      var o := Step(j.src, j.name, w.sender, ev);
      w.(sender := o.sender, packets := w.packets + (set p | p in o.sent))
    case Reaction(p, held, reply) =>
      World(w.sender, held, w.packets,
            w.replies + (if reply.Some? then {reply.value} else {}),
            w.openings + (if p.cmd == NB_SEND_FILE then 1 else 0),
            w.accepted || (Accepts(w, p, held) && p.cmd == NB_LAST_DATA),
            w.reopened || (w.accepted && p.cmd == NB_SEND_FILE))
  }

  function After(j: Job, before: seq<byte>, run: seq<Move>): World {
    if run == [] then Init(j, before) else Next(j, After(j, before, run[..|run| - 1]), run[|run| - 1])
  }

  ghost predicate Legal(j: Job, before: seq<byte>, run: seq<Move>) {
    run != [] ==>
      Legal(j, before, run[..|run| - 1]) && Enabled(After(j, before, run[..|run| - 1]), run[|run| - 1])
  }

  // ---------- safety ----------

  ghost predicate OfTransfer(j: Job, p: Packet)
    requires Short(j)
  {
    p == OpenPacket(j) || IsChunkAt(j.src.content, p, p.arg)
  }

  ghost predicate SenderPart(j: Job, w: World)
    requires Short(j)
  {
    && HeadAgrees(w.sender)
    && (w.sender.status == Idle ==> w.sender.cookie == j.cookie && w.packets == {})
    && (forall p | p in w.packets :: OfTransfer(j, p))
    && (w.sender.status == Succeeded ==> w.accepted)
  }

  // Before the first opening nothing has happened; from then on the receiver holds a prefix of the
  // file, and all of it once it has accepted a last chunk and was not opened again.
  ghost predicate ReceiverPart(j: Job, w: World)
    requires Short(j)
  {
    && (w.openings == 0 ==>
          && w.replies == {} && !w.accepted && w.sender.status in {Idle, Opening, Failed}
          && (forall p | p in w.packets :: p.cmd == NB_SEND_FILE))
    && (w.openings > 0 ==> w.held <= j.src.content)
    && (w.accepted && !w.reopened ==> w.held == j.src.content)
    && (w.reopened ==> w.openings > 1)
    && (forall m | m in w.replies && m.cmd == NB_FILE_RECEIVED :: w.accepted)
  }

  ghost predicate Inv(j: Job, w: World)
    requires Short(j)
  {
    SenderPart(j, w) && ReceiverPart(j, w)
  }

  // All the composition needs to know about one round of the host.
  ghost predicate PlausibleRound(j: Job, s: Sender, o: Outcome, ack: Reply)
    requires Short(j)
  {
    && HeadAgrees(o.sender)
    && o.sender.status != Idle
    && (o.sender.status == Succeeded ==>
          s.status == Succeeded || (s.status == Streaming && ack.cmd == NB_FILE_RECEIVED))
    && (forall p | p in o.sent ::
          if s.status == Idle then p == Packet(s.cookie, NB_SEND_FILE, |j.src.content|, j.name)
          else s.status == Streaming && IsChunkAt(j.src.content, p, p.arg))
  }

  lemma StepIsPlausible(j: Job, s: Sender, ev: Event)
    requires Short(j) && HeadAgrees(s)
    ensures PlausibleRound(j, s, Step(j.src, j.name, s, ev), AckOf(ev))
  {
    StepKeepsHead(j.src, j.name, s, ev);
    forall p | p in Step(j.src, j.name, s, ev).sent && s.status == Streaming
      ensures IsChunkAt(j.src.content, p, p.arg)
    {
      ChunkArgIsOffset(j.src.content, p, s.current);
    }
  }

  lemma ChunkArgIsOffset(content: seq<byte>, p: Packet, at: nat)
    requires |content| < TWO_TO_THE_32 && IsChunkAt(content, p, at)
    ensures p.arg == at
  {
  }

  lemma OpeningNeedsReply(j: Job, s: Sender, ev: Event)
    requires s.status in {Idle, Opening, Failed}
    ensures Step(j.src, j.name, s, ev).sender.status in {Opening, Failed} ||
            (ev.Ready? && ev.incoming.Some? && ev.incoming.value.Received?)
  {
  }

  lemma PlausibleRoundKeepsInv(j: Job, w: World, o: Outcome, ack: Reply)
    requires Short(j) && Inv(j, w)
    requires PlausibleRound(j, w.sender, o, ack)
    requires ack == NO_REPLY || ack in w.replies
    requires w.openings == 0 ==> o.sender.status in {Idle, Opening, Failed}
    ensures Inv(j, w.(sender := o.sender, packets := w.packets + (set p | p in o.sent)))
  {
  }

  lemma RoundKeepsInv(j: Job, w: World, ev: Event)
    requires Short(j) && Inv(j, w) && Enabled(w, Round(ev))
    ensures Inv(j, Next(j, w, Round(ev)))
  {
    StepIsPlausible(j, w.sender, ev);
    if w.openings == 0 {
      OpeningNeedsReply(j, w.sender, ev);
    }
    PlausibleRoundKeepsInv(j, w, Step(j.src, j.name, w.sender, ev), AckOf(ev));
  }

  lemma AcceptedChunk(content: seq<byte>, held: seq<byte>, p: Packet)
    requires IsChunkAt(content, p, |held|) && held <= content
    ensures held + p.data <= content && (p.cmd == NB_LAST_DATA ==> held + p.data == content)
  {
    assert content[..|held| + |p.data|] == held + p.data;
  }

  lemma ReactionKeepsInv(j: Job, w: World, p: Packet, held: seq<byte>, reply: Option<Reply>)
    requires Short(j) && Inv(j, w) && Enabled(w, Reaction(p, held, reply))
    ensures Inv(j, Next(j, w, Reaction(p, held, reply)))
  {
    if Accepts(w, p, held) {
      AcceptedChunk(j.src.content, w.held, p);
    }
  }

  // The invariant holds after every run, whatever the receiver, as long as it is orderly.
  lemma {:induction false} EveryRunIsSafe(j: Job, before: seq<byte>, run: seq<Move>)
    requires Short(j) && Legal(j, before, run)
    ensures Inv(j, After(j, before, run))
  {
    if run != [] {
      var w := After(j, before, run[..|run| - 1]);
      EveryRunIsSafe(j, before, run[..|run| - 1]);
      match run[|run| - 1]
      case Round(ev) => RoundKeepsInv(j, w, ev);
      case Reaction(p, held, reply) => ReactionKeepsInv(j, w, p, held, reply);
    }
  }

  // At any time of any run an orderly receiver that was opened holds a prefix of the file. When the
  // host reports success it has accepted all of it, and holds it unless it was opened again.
  lemma SuccessMeansAccepted(j: Job, before: seq<byte>, run: seq<Move>)
    requires Short(j) && Legal(j, before, run)
    ensures var w := After(j, before, run);
      && (w.openings > 0 ==> w.held <= j.src.content)
      && (w.sender.status == Succeeded ==> w.accepted)
      && (w.sender.status == Succeeded && !w.reopened ==> w.held == j.src.content)
  {
    EveryRunIsSafe(j, before, run);
  }
}
