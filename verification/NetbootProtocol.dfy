/**
 Host and target composed over a network that may lose, duplicate and reorder messages in
 both directions: a message once sent may be delivered at any later time, any number of
 times, or never.
 */
module NetbootProtocol {
  import opened Basics
  import opened NetbootWire
  import opened NetbootBuffers
  import opened NetbootSender
  import opened NetbootReceiver
  import Orderly = NetbootOrderly

  // `target` is whatever earlier sessions left behind. `openTwice` says whether the network
  // may hand the NB_SEND_FILE message to the target more than once, and `program` what the target
  // runs.
  datatype Setup = Setup(src: Source, name: seq<byte>, cookie: uint32, program: Program, target: Target,
                         openTwice: bool)

  // Offsets travel in 32 bits, the name is sent with its terminating NUL, and the memory earlier
  // sessions were given is memory the target has.
  ghost predicate Legitimate(c: Setup) {
    |c.src.content| < TWO_TO_THE_32 && c.name != [] && Housed(c.program, c.target)
  }

  function JobOf(c: Setup): Orderly.Job {
    Orderly.Job(c.src, c.name, c.cookie)
  }

  function OpenPacket(c: Setup): Packet
    requires |c.src.content| < TWO_TO_THE_32
  {
    Orderly.OpenPacket(JobOf(c))
  }

  // `packets` and `replies` hold everything ever sent. `openings` counts deliveries of
  // NB_SEND_FILE, `completed` records that the target has reported the file received, and
  // `reopened` that an NB_SEND_FILE reached it after that.
  datatype Net = Net(sender: Sender, receiver: Target, packets: set<Packet>, replies: set<Reply>,
                     openings: nat, completed: bool, reopened: bool)

  datatype Action = Host(ev: Event) | Deliver(p: Packet, memory: Option<seq<byte>>)

  function Init(c: Setup): Net {
    Net(Start(c.cookie), c.target, {}, {}, 0, false, false)
  }

  // The network invents nothing, and the target hands out memory as it does.
  predicate Enabled(c: Setup, n: Net, a: Action) {
    match a
    case Host(ev) =>
      ev.Ready? && ev.incoming.Some? && ev.incoming.value.Received? ==> ev.incoming.value.msg in n.replies
    case Deliver(p, memory) =>
      && p in n.packets && (p.cmd == NB_SEND_FILE && n.openings > 0 ==> c.openTwice)
      && Offered(c.program, n.receiver, p, memory)
  }

  function Next(c: Setup, n: Net, a: Action): Net {
    match a
    case Host(ev) =>
      var o := Step(c.src, c.name, n.sender, ev);
      n.(sender := o.sender, packets := n.packets + (set p | p in o.sent))
    case Deliver(p, memory) =>
      var o := React(c.program, n.receiver, p, memory);
      Net(n.sender, o.receiver, n.packets,
          n.replies + (if o.reply.Some? then {o.reply.value} else {}),
          n.openings + (if p.cmd == NB_SEND_FILE then 1 else 0),
          n.completed || (o.reply.Some? && o.reply.value.cmd == NB_FILE_RECEIVED),
          n.reopened || (n.completed && p.cmd == NB_SEND_FILE))
  }

  function After(c: Setup, run: seq<Action>): Net {
    if run == [] then Init(c) else Next(c, After(c, run[..|run| - 1]), run[|run| - 1])
  }

  ghost predicate Legal(c: Setup, run: seq<Action>) {
    run != [] ==>
      Legal(c, run[..|run| - 1]) && Enabled(c, After(c, run[..|run| - 1]), run[|run| - 1])
  }

  // ---------- what a chunk does ----------

  // What a chunk does to a target that holds a prefix of the file, in terms of the bytes held.
  ghost predicate ChunkTaken(content: seq<byte>, r: Receiver, p: Packet, o: Reaction) {
    if Repeats(r, p) then
      o == Reaction(r, Answer(p, r.lastAckCmd, r.lastAckArg))
    else if r.active.None? then
      o == Reaction(r, None)
    else
      var f := r.active.value;
      if p.arg != f.offset then
        && f.offset < TWO_TO_THE_32
        && o == Reaction(Remember(r, p, NB_ACK, f.offset, r.active), Answer(p, NB_ACK, f.offset))
      else if f.offset + |p.data| > |f.data| then
        o == Reaction(Remember(r, p, NB_ERROR_TOO_LARGE, p.arg, r.active), Answer(p, NB_ERROR_TOO_LARGE, p.arg))
      else
        var last := p.cmd == NB_LAST_DATA;
        && o.receiver.active.Some? && Grown(f, p.data, o.receiver.active.value)
        && o.receiver == Remember(r, p, if last then NB_FILE_RECEIVED else NB_ACK, 0, o.receiver.active)
        && o.reply == (if last then Answer(p, NB_FILE_RECEIVED, 0) else None)
        && (last <==> o.receiver.active.value.offset == |content|)
  }

  ghost predicate Grown(f: File, data: seq<byte>, g: File) {
    && g.name == f.name && |g.data| == |f.data|
    && f.offset <= g.offset == f.offset + |data| <= |g.data|
    && g.data[..g.offset] == f.data[..f.offset] + data
  }

  lemma WriteGrows(f: File, data: seq<byte>)
    requires f.offset + |data| <= |f.data|
    ensures Grown(f, data, Write(f, data))
  {
    var g := Write(f, data);
    assert g.data[..g.offset] == f.data[..f.offset] + data;
  }

  lemma ChunkIsTaken(program: Program, content: seq<byte>, r: Target, p: Packet, memory: Option<seq<byte>>)
    requires |content| < TWO_TO_THE_32 && IsChunkAt(content, p, p.arg) && Held(r) <= content
    ensures ChunkTaken(content, r, p, React(program, r, p, memory))
  {
    if r.active.Some? {
      var f := r.active.value;
      assert |Held(r)| == f.offset;
      if p.arg == f.offset && f.offset + |p.data| <= |f.data| {
        WriteGrows(f, p.data);
      }
    }
  }

  // ---------- both programs are orderly ----------

  // What makes either program an orderly receiver, on any message: it appends a chunk only where
  // its bytes end and if it fits, and it newly reports the file received only for an appended
  // last chunk; a new opening message makes it start over.
  lemma ReceiversAreOrderly(program: Program, r: Target, p: Packet, memory: Option<seq<byte>>)
    ensures var o := React(program, r, p, memory);
      var appends :=
        && !Repeats(r, p) && (p.cmd == NB_DATA || p.cmd == NB_LAST_DATA) && r.active.Some?
        && p.arg == r.active.value.offset && r.active.value.offset + |p.data| <= |r.active.value.data|;
      && Held(o.receiver) ==
           (if p.cmd == NB_SEND_FILE && p.data != [] then [] else if appends then Held(r) + p.data else Held(r))
      && (o.reply.Some? && o.reply.value.cmd == NB_FILE_RECEIVED <==>
            if Repeats(r, p) then r.lastAckCmd == NB_FILE_RECEIVED else appends && p.cmd == NB_LAST_DATA)
  {
    if r.active.Some? {
      var f := r.active.value;
      if f.offset + |p.data| <= |f.data| {
        WriteGrows(f, p.data);
      }
    }
  }

  ghost function Abstract(n: Net): Orderly.World {
    Orderly.World(n.sender, Held(n.receiver), n.packets, n.replies, n.openings, n.completed, n.reopened)
  }

  function MoveOf(c: Setup, n: Net, a: Action): Orderly.Move {
    match a
    case Host(ev) => Orderly.Round(ev)
    case Deliver(p, memory) =>
      var o := React(c.program, n.receiver, p, memory);
      Orderly.Reaction(p, Held(o.receiver), o.reply)
  }

  // ---------- safety ----------

  // No earlier session ended on exactly the message this one opens with.
  predicate Fresh(c: Setup) {
    !(c.target.lastCookie == c.cookie && c.target.lastCmd == NB_SEND_FILE && c.target.lastArg == |c.src.content|)
  }

  function OwnKind(c: Setup): Option<Kind>
    requires c.name != []
  {
    KindOf(Sanitize(c.name))
  }

  // The file has its own name and memory for it, or a stale session's, if this one looked like a
  // repeat of it.
  ghost predicate Owned(c: Setup, f: File)
    requires Legitimate(c)
  {
    f.name == Sanitize(c.name) && CanOffer(c.program, OwnKind(c), |c.src.content|, |f.data|)
  }

  ghost predicate Borrowed(c: Setup, f: File) {
    && !Fresh(c) && c.target.active.Some?
    && f.name == c.target.active.value.name && |f.data| == |c.target.active.value.data|
  }

  ghost predicate OrdinaryAnswer(cmd: uint32) {
    cmd in {NB_ACK, NB_ERROR_BAD_FILE, NB_ERROR_TOO_LARGE, NB_FILE_RECEIVED}
  }

  ghost predicate AnswersPart(c: Setup, n: Net) {
    && (forall m | m in n.replies :: OrdinaryAnswer(m.cmd))
    && (n.openings == 0 ==> n.receiver == c.target)
    && (n.openings > 0 ==>
          OrdinaryAnswer(n.receiver.lastAckCmd) && (n.receiver.lastAckCmd == NB_FILE_RECEIVED ==> n.completed))
    && (n.openings > 1 ==> c.openTwice)
  }

  ghost predicate FilePart(c: Setup, n: Net)
    requires Legitimate(c)
  {
    n.openings > 0 && n.receiver.active.Some? ==>
      var f := n.receiver.active.value;
      && (Owned(c, f) || Borrowed(c, f))
      && (n.openings == 1 ==> if Fresh(c) then Owned(c, f) else Borrowed(c, f))
      && (n.completed ==> Owned(c, f) || |c.src.content| <= |f.data|)
  }

  ghost predicate Inv(c: Setup, n: Net)
    requires Legitimate(c)
  {
    Orderly.Inv(JobOf(c), Abstract(n)) && AnswersPart(c, n) && FilePart(c, n)
  }

  // What the opening message does to any target.
  ghost predicate OpenTaken(c: Setup, r: Receiver, memory: Option<seq<byte>>, o: Reaction)
    requires Legitimate(c)
  {
    var p := OpenPacket(c);
    if Repeats(r, p) then
      o == Reaction(r, Answer(p, r.lastAckCmd, r.lastAckArg))
    else if memory.Some? then
      var file := File(Sanitize(c.name), 0, memory.value);
      o == Reaction(Remember(r, p, NB_ACK, p.arg, Some(file)), Answer(p, NB_ACK, p.arg))
    else
      o == Reaction(Remember(r, p, NB_ERROR_BAD_FILE, 0, None), Answer(p, NB_ERROR_BAD_FILE, 0))
  }

  lemma OpenIsTaken(c: Setup, r: Target, memory: Option<seq<byte>>)
    requires Legitimate(c)
    ensures OpenTaken(c, r, memory, React(c.program, r, OpenPacket(c), memory))
  {
  }

  lemma PacketFacts(c: Setup, n: Net, p: Packet)
    requires Legitimate(c) && Inv(c, n) && p in n.packets
    ensures p.cmd == NB_SEND_FILE ==> p == OpenPacket(c)
    ensures p.cmd != NB_SEND_FILE ==>
      n.openings > 0 && IsChunkAt(c.src.content, p, p.arg) && Held(n.receiver) <= c.src.content
  {
  }

  // Every step of host and target is a step of the host and an orderly receiver.
  lemma ActionIsOrderly(c: Setup, n: Net, a: Action)
    requires Legitimate(c) && Inv(c, n) && Enabled(c, n, a)
    ensures Orderly.Enabled(Abstract(n), MoveOf(c, n, a))
    ensures Abstract(Next(c, n, a)) == Orderly.Next(JobOf(c), Abstract(n), MoveOf(c, n, a))
  {
    if a.Deliver? {
      PacketFacts(c, n, a.p);
      ReceiversAreOrderly(c.program, n.receiver, a.p, a.memory);
    }
  }

  lemma ChunkKeepsRest(c: Setup, n: Net, p: Packet, memory: Option<seq<byte>>)
    requires Legitimate(c) && Inv(c, n) && p in n.packets && p.cmd != NB_SEND_FILE
    ensures var n' := Next(c, n, Deliver(p, memory)); AnswersPart(c, n') && FilePart(c, n')
  {
    PacketFacts(c, n, p);
    ChunkIsTaken(c.program, c.src.content, n.receiver, p, memory);
    TakenKeepsRest(c, n, p, React(c.program, n.receiver, p, memory), Next(c, n, Deliver(p, memory)));
  }

  lemma TakenKeepsRest(c: Setup, n: Net, p: Packet, o: Reaction, n': Net)
    requires Legitimate(c) && AnswersPart(c, n) && FilePart(c, n) && n.openings > 0
    requires ChunkTaken(c.src.content, n.receiver, p, o) && n'.receiver == o.receiver && n'.openings == n.openings
    requires n'.replies == n.replies + (if o.reply.Some? then {o.reply.value} else {})
    requires n'.completed == (n.completed || (o.reply.Some? && o.reply.value.cmd == NB_FILE_RECEIVED))
    ensures AnswersPart(c, n') && FilePart(c, n')
  {
  }

  lemma OpenKeepsRest(c: Setup, n: Net, memory: Option<seq<byte>>)
    requires Legitimate(c) && Inv(c, n) && Enabled(c, n, Deliver(OpenPacket(c), memory))
    ensures var n' := Next(c, n, Deliver(OpenPacket(c), memory)); AnswersPart(c, n') && FilePart(c, n')
  {
    OpenIsTaken(c, n.receiver, memory);
    OpenTakenKeepsRest(c, n, memory, React(c.program, n.receiver, OpenPacket(c), memory),
      Next(c, n, Deliver(OpenPacket(c), memory)));
  }

  lemma OpenTakenKeepsRest(c: Setup, n: Net, memory: Option<seq<byte>>, o: Reaction, n': Net)
    requires Legitimate(c) && AnswersPart(c, n) && FilePart(c, n) && (n.openings == 0 ==> !n.completed)
    requires OpenTaken(c, n.receiver, memory, o) && Offered(c.program, n.receiver, OpenPacket(c), memory)
    requires n.openings > 0 ==> c.openTwice
    requires n'.receiver == o.receiver && n'.openings == n.openings + 1 && n'.completed == n.completed
    requires n'.replies == n.replies + {o.reply.value}
    ensures AnswersPart(c, n') && FilePart(c, n')
  {
  }

  lemma ActionKeepsInv(c: Setup, n: Net, a: Action)
    requires Legitimate(c) && Inv(c, n) && Enabled(c, n, a)
    ensures Inv(c, Next(c, n, a))
  {
    ActionIsOrderly(c, n, a);
    match a
    case Host(ev) => Orderly.RoundKeepsInv(JobOf(c), Abstract(n), ev);
    case Deliver(p, memory) =>
      var o := React(c.program, n.receiver, p, memory);
      Orderly.ReactionKeepsInv(JobOf(c), Abstract(n), p, Held(o.receiver), o.reply);
      PacketFacts(c, n, p);
      if p.cmd == NB_SEND_FILE {
        OpenKeepsRest(c, n, memory);
      } else {
        ChunkKeepsRest(c, n, p, memory);
      }
  }

  // The invariant holds after every run the network can produce.
  lemma {:induction false} EveryRunIsSafe(c: Setup, run: seq<Action>)
    requires Legitimate(c) && Legal(c, run)
    ensures Inv(c, After(c, run))
  {
    if run != [] {
      EveryRunIsSafe(c, run[..|run| - 1]);
      ActionKeepsInv(c, After(c, run[..|run| - 1]), run[|run| - 1]);
    }
  }

  // Every run with either program is a run with an orderly receiver.
  lemma {:induction false} EveryRunIsOrderly(c: Setup, run: seq<Action>) returns (moves: seq<Orderly.Move>)
    requires Legitimate(c) && Legal(c, run)
    ensures Orderly.Legal(JobOf(c), Held(c.target), moves)
    ensures Orderly.After(JobOf(c), Held(c.target), moves) == Abstract(After(c, run))
  {
    if run == [] {
      moves := [];
    } else {
      var n := After(c, run[..|run| - 1]);
      var init := EveryRunIsOrderly(c, run[..|run| - 1]);
      EveryRunIsSafe(c, run[..|run| - 1]);
      ActionIsOrderly(c, n, run[|run| - 1]);
      moves := init + [MoveOf(c, n, run[|run| - 1])];
      assert moves[..|init|] == init;
    }
  }

  // At any time of any run the target holds a prefix of the file, and when the host reports
  // success the target has received all of it. It still holds it unless an NB_SEND_FILE
  // reached it afterwards.
  lemma SuccessMeansReceived(c: Setup, run: seq<Action>)
    requires Legitimate(c) && Legal(c, run)
    ensures var n := After(c, run);
      && (n.openings > 0 ==> Held(n.receiver) <= c.src.content)
      && (n.sender.status == Succeeded ==> n.completed)
      && (n.sender.status == Succeeded && (!n.reopened || !c.openTwice) ==> Held(n.receiver) == c.src.content)
  {
    var moves := EveryRunIsOrderly(c, run);
    Orderly.SuccessMeansAccepted(JobOf(c), Held(c.target), moves);
    EveryRunIsSafe(c, run);
  }
}
