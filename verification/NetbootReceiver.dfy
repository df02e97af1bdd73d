/**
 The target side of a netboot transfer, bootloader_recv in netsvc and netboot_recv in the zircon
 bootloader: it copies in-order chunks into a buffer, answers an out-of-order chunk with the
 offset it wants, and answers a repeat of the last message with the last answer.
 */
module NetbootReceiver {
  import opened Basics
  import opened NetbootWire
  import opened NetbootBuffers

  // The file being received: `data` is the memory handed out for it, of which the first `offset`
  // bytes have been filled in.
  datatype File = File(name: seq<byte>, offset: nat, data: seq<byte>)

  datatype Receiver = Receiver(
    lastCookie: uint32, lastCmd: uint32, lastArg: uint32, lastAckCmd: uint32, lastAckArg: uint32,
    active: Option<File>)

  datatype Reaction = Reaction(receiver: Receiver, reply: Option<Reply>)

  const BOOT := Receiver(0, 0, 0, 0, 0, None)

  // The file name as the target reads it: NUL-terminated in place, unprintable bytes dotted.
  function Sanitize(raw: seq<byte>): (s: seq<byte>)
    requires raw != []
  {
    seq(|raw|, i requires 0 <= i < |raw| =>
      if i == |raw| - 1 then 0 else if raw[i] < 32 || raw[i] > 127 then 46 else raw[i])
  }

  predicate IsPrintable(s: string) {
    forall i | 0 <= i < |s| :: 32 <= s[i] as int < 128
  }

  // A name that can be printed is left alone; and whatever comes in, what is left can be printed.
  lemma SanitizeIs(raw: seq<byte>)
    requires raw != []
    ensures var n := Sanitize(raw);
      && |n| == |raw| && n[|n| - 1] == 0 && (forall i | 0 <= i < |n| - 1 :: 32 <= n[i] < 128)
      && (n == raw <==> raw[|raw| - 1] == 0 && forall i | 0 <= i < |raw| - 1 :: 32 <= raw[i] < 128)
  {
    if raw[|raw| - 1] == 0 && forall i | 0 <= i < |raw| - 1 :: 32 <= raw[i] < 128 {
      assert Sanitize(raw) == raw;
    } else if Sanitize(raw) == raw {
      assert raw[|raw| - 1] == Sanitize(raw)[|raw| - 1];
      assert forall i | 0 <= i < |raw| - 1 :: raw[i] == Sanitize(raw)[i];
    }
  }

  lemma NamesAreAscii()
    ensures IsAscii(NB_KERNEL_FILENAME) && IsAscii(NB_RAMDISK_FILENAME) && IsAscii(NB_CMDLINE_FILENAME)
  {
  }

  lemma PrintableStays(s: string)
    requires IsPrintable(s)
    ensures Sanitize(Terminated(s)) == Terminated(s)
  {
    SanitizeIs(Terminated(s));
  }

  // The three names a target knows.
  lemma KnownNames(s: string)
    requires IsPrintable(s)
    ensures KindOf(Sanitize(Terminated(s))) ==
      if s == NB_KERNEL_FILENAME then Some(Kernel)
      else if s == NB_RAMDISK_FILENAME then Some(Ramdisk)
      else if s == NB_CMDLINE_FILENAME then Some(Cmdline)
      else None
  {
    PrintableStays(s);
    NamesAreAscii();
    MatchIs(s, NB_KERNEL_FILENAME, NB_RAMDISK_FILENAME, NB_CMDLINE_FILENAME);
  }

  predicate Repeats(r: Receiver, p: Packet) {
    r.lastCookie == p.cookie && r.lastCmd == p.cmd && r.lastArg == p.arg
  }

  function Remember(r: Receiver, p: Packet, ackCmd: uint32, ackArg: uint32, active: Option<File>): Receiver {
    Receiver(p.cookie, p.cmd, p.arg, ackCmd, ackArg, active)
  }

  function Answer(p: Packet, ackCmd: uint32, ackArg: uint32): Option<Reply> {
    Some(Reply(NB_MAGIC, p.cookie, ackCmd, ackArg))
  }

  function Write(f: File, data: seq<byte>): File
    requires f.offset + |data| <= |f.data|
  {
    f.(data := f.data[..f.offset] + data + f.data[f.offset + |data|..], offset := f.offset + |data|)
  }

  // An offset as it is sent back.
  function Wire(offset: nat): uint32 {
    offset % TWO_TO_THE_32
  }

  // The arm for NB_DATA and NB_LAST_DATA.
  function ReceiveChunk(r: Receiver, p: Packet, f: File): Reaction
    requires r.active == Some(f) && f.offset <= |f.data|
  {
    if p.arg != f.offset then
      Reaction(Remember(r, p, NB_ACK, Wire(f.offset), r.active), Answer(p, NB_ACK, Wire(f.offset)))
    else if f.offset + |p.data| > |f.data| then
      Reaction(Remember(r, p, NB_ERROR_TOO_LARGE, p.arg, r.active), Answer(p, NB_ERROR_TOO_LARGE, p.arg))
    else if p.cmd == NB_LAST_DATA then
      Reaction(Remember(r, p, NB_FILE_RECEIVED, 0, Some(Write(f, p.data))), Answer(p, NB_FILE_RECEIVED, 0))
    else
      Reaction(Remember(r, p, NB_ACK, 0, Some(Write(f, p.data))), None)
  }

  // One datagram in netsvc. `memory` is what there is for the file it names; it matters for
  // NB_SEND_FILE only.
  function Receive(r: Receiver, p: Packet, memory: Option<seq<byte>>): (o: Reaction)
    requires Valid(r)
    ensures Valid(o.receiver)
  {
    if Repeats(r, p) then
      Reaction(r, Answer(p, r.lastAckCmd, r.lastAckArg))
    else if p.cmd == NB_COMMAND then
      if p.data == [] then Reaction(r, None) else Reaction(Remember(r, p, NB_ACK, 0, r.active), Answer(p, NB_ACK, 0))
    else if p.cmd == NB_SEND_FILE then
      if p.data == [] then Reaction(r, None)
      else if memory.Some? then
        var f := File(Sanitize(p.data), 0, memory.value);
        Reaction(Remember(r, p, NB_ACK, p.arg, Some(f)), Answer(p, NB_ACK, p.arg))
      else
        Reaction(Remember(r, p, NB_ERROR_BAD_FILE, 0, None), Answer(p, NB_ERROR_BAD_FILE, 0))
    else if p.cmd == NB_DATA || p.cmd == NB_LAST_DATA then
      if r.active.None? then Reaction(r, None) else ReceiveChunk(r, p, r.active.value)
    else if p.cmd == NB_BOOT || p.cmd == NB_REBOOT then
      Reaction(Remember(r, p, NB_ACK, 0, r.active), Answer(p, NB_ACK, 0))
    else
      Reaction(Remember(r, p, NB_ACK, 0, r.active), None)
  }

  predicate IsTransfer(p: Packet) {
    p.cmd == NB_SEND_FILE || p.cmd == NB_DATA || p.cmd == NB_LAST_DATA
  }

  // The same for the zircon bootloader: it answers queries on the side and rejects what it does
  // not know. The messages of a transfer make no difference, but the memory does.
  function ReceiveInLoader(r: Receiver, p: Packet, memory: Option<seq<byte>>): (o: Reaction)
    requires Valid(r)
    ensures Valid(o.receiver)
    ensures IsTransfer(p) ==> o == Receive(r, p, memory)
  {
    if Repeats(r, p) then
      Reaction(r, Answer(p, r.lastAckCmd, r.lastAckArg))
    else if p.cmd == NB_COMMAND then
      if p.data == [] then Reaction(r, None) else Reaction(Remember(r, p, NB_ACK, 0, r.active), Answer(p, NB_ACK, 0))
    else if IsTransfer(p) then
      Receive(r, p, memory)
    else if p.cmd == NB_BOOT then
      Reaction(Remember(r, p, NB_ACK, 0, r.active), Answer(p, NB_ACK, 0))
    else if p.cmd == NB_QUERY then
      Reaction(r, Answer(p, NB_ACK, NB_VERSION_CURRENT))
    else
      Reaction(Remember(r, p, NB_ERROR_BAD_CMD, 0, r.active), Answer(p, NB_ERROR_BAD_CMD, 0))
  }

  function React(program: Program, r: Receiver, p: Packet, memory: Option<seq<byte>>): (o: Reaction)
    requires Valid(r)
    ensures Valid(o.receiver)
  {
    if program.Netsvc? then Receive(r, p, memory) else ReceiveInLoader(r, p, memory)
  }

  // Every answer is proper and carries the number of the message it answers.
  lemma AnswersEcho(program: Program, r: Receiver, p: Packet, memory: Option<seq<byte>>)
    requires Valid(r)
    ensures var o := React(program, r, p, memory);
      o.reply.Some? ==> o.reply.value.magic == NB_MAGIC && o.reply.value.cookie == p.cookie
  {
  }

  // Sending an answered message again gets the same answer and changes nothing.
  lemma RepeatIsHarmless(program: Program, r: Receiver, p: Packet, memory: Option<seq<byte>>,
                         again: Option<seq<byte>>)
    requires Valid(r) && React(program, r, p, memory).reply.Some?
    ensures var o := React(program, r, p, memory); React(program, o.receiver, p, again) == o
  {
    if program == Netsvc {
      RepeatInNetsvc(r, p, memory, again);
    } else if !IsTransfer(p) {
      RepeatInLoader(r, p, memory, again);
    } else {
      RepeatInNetsvc(r, p, memory, again);
    }
  }

  lemma RepeatInNetsvc(r: Receiver, p: Packet, memory: Option<seq<byte>>, again: Option<seq<byte>>)
    requires Valid(r) && Receive(r, p, memory).reply.Some?
    ensures var o := Receive(r, p, memory); Receive(o.receiver, p, again) == o
  {
  }

  lemma RepeatInLoader(r: Receiver, p: Packet, memory: Option<seq<byte>>, again: Option<seq<byte>>)
    requires Valid(r) && !IsTransfer(p) && ReceiveInLoader(r, p, memory).reply.Some?
    ensures var o := ReceiveInLoader(r, p, memory); ReceiveInLoader(o.receiver, p, again) == o
  {
  }

  // A message that is not part of a transfer does not touch the file. netsvc acknowledges a command with
  // text, NB_BOOT and NB_REBOOT and keeps silent on all else; the bootloader rejects what it does not know.
  lemma OtherMessages(program: Program, r: Receiver, p: Packet, memory: Option<seq<byte>>)
    requires Valid(r) && !IsTransfer(p) && !Repeats(r, p)
    ensures var o := React(program, r, p, memory);
      && o.receiver.active == r.active
      && (o.reply.None? <==>
            (p.cmd == NB_COMMAND && p.data == []) ||
            (program == Netsvc && p.cmd !in {NB_COMMAND, NB_BOOT, NB_REBOOT}))
      && (o.reply.Some? ==>
            && o.reply.value.magic == NB_MAGIC && o.reply.value.cookie == p.cookie
            && o.reply.value.cmd ==
                 if program == Netsvc || p.cmd in {NB_COMMAND, NB_BOOT, NB_QUERY} then NB_ACK else NB_ERROR_BAD_CMD)
  {
  }

  // The memory of a file just opened is what the program hands out for its name and size.
  ghost predicate Housed(program: Program, r: Receiver) {
    r.lastCmd == NB_SEND_FILE && r.active.Some? ==>
      CanOffer(program, KindOf(r.active.value.name), r.lastArg, |r.active.value.data|)
  }

  // When the message asks for memory, `memory` is what netboot_get_buffer may answer.
  predicate Offered(program: Program, r: Receiver, p: Packet, memory: Option<seq<byte>>) {
    p.cmd == NB_SEND_FILE && p.data != [] && !Repeats(r, p) ==>
      Offers(program, KindOf(Sanitize(p.data)), p.arg, memory)
  }

  lemma StaysHoused(program: Program, r: Receiver, p: Packet, memory: Option<seq<byte>>)
    requires Valid(r) && Housed(program, r) && Offered(program, r, p, memory)
    ensures Housed(program, React(program, r, p, memory).receiver)
  {
  }

  datatype Datagram = Datagram(p: Packet, memory: Option<seq<byte>>)

  // What a freshly started program is left with after these datagrams.
  function Leftover(program: Program, ds: seq<Datagram>): (r: Receiver)
    ensures Valid(r)
  {
    if ds == [] then BOOT
    else React(program, Leftover(program, ds[..|ds| - 1]), ds[|ds| - 1].p, ds[|ds| - 1].memory).receiver
  }

  ghost predicate AllOffered(program: Program, ds: seq<Datagram>) {
    ds != [] ==>
      var init, d := ds[..|ds| - 1], ds[|ds| - 1];
      AllOffered(program, init) && Offered(program, Leftover(program, init), d.p, d.memory)
  }

  lemma {:induction false} LeftoverIsHoused(program: Program, ds: seq<Datagram>)
    requires AllOffered(program, ds)
    ensures Housed(program, Leftover(program, ds))
  {
    if ds != [] {
      var init, d := ds[..|ds| - 1], ds[|ds| - 1];
      LeftoverIsHoused(program, init);
      StaysHoused(program, Leftover(program, init), d.p, d.memory);
    }
  }

  // The bytes received so far.
  function Held(r: Receiver): seq<byte>
    requires Valid(r)
  {
    if r.active.Some? then r.active.value.data[..r.active.value.offset] else []
  }

  // What every datagram, however malformed, leaves true of the target.
  predicate Valid(r: Receiver) {
    && (r.active.Some? ==> r.active.value.offset <= |r.active.value.data|)
    && (r.lastCmd == NB_SEND_FILE ==>
          if r.active.Some?
          then r.lastAckCmd == NB_ACK && r.active.value.offset == 0 && r.lastArg == r.lastAckArg
          else r.lastAckCmd == NB_ERROR_BAD_FILE)
    && (r.lastAckCmd == NB_FILE_RECEIVED ==> r.lastCmd == NB_LAST_DATA)
  }

  type Target = r: Receiver | Valid(r) witness BOOT

  /** The static variables of either program, with the memory of the active file as an array. */
  class Bootloader {
    var lastCookie: uint32
    var lastCmd: uint32
    var lastArg: uint32
    var lastAckCmd: uint32
    var lastAckArg: uint32
    var isActive: bool
    var name: seq<byte>
    var offset: nat
    var data: array<byte>

    constructor ()
      ensures View() == BOOT && fresh(data)
    {
      lastCookie, lastCmd, lastArg, lastAckCmd, lastAckArg := 0, 0, 0, 0, 0;
      isActive, name, offset := false, [], 0;
      data := new byte[0];
    }

    ghost function View(): Receiver
      reads this, data
    {
      Receiver(lastCookie, lastCmd, lastArg, lastAckCmd, lastAckArg,
               if isActive then Some(File(name, offset, data[..])) else None)
    }

    // memcpy(active->data + active->offset, msg->data, len)
    method CopyIn(bytes: seq<byte>)
      requires offset + |bytes| <= data.Length
      modifies data
      ensures data[..] == old(data[..offset]) + bytes + old(data[offset + |bytes|..])
    {
      for i := 0 to |bytes|
        invariant forall k :: 0 <= k < i ==> data[offset + k] == bytes[k]
        invariant forall k :: 0 <= k < data.Length && !(offset <= k < offset + i) ==> data[k] == old(data[k])
      {
        data[offset + i] := bytes[i];
      }
    }

    // The tail of bootloader_recv: record the message and its answer.
    method Conclude(p: Packet, ackCmd: uint32, ackArg: uint32, transmit: bool) returns (reply: Option<Reply>)
      modifies this`lastCookie, this`lastCmd, this`lastArg, this`lastAckCmd, this`lastAckArg
      ensures View() == Remember(old(View()), p, ackCmd, ackArg, old(View()).active)
      ensures reply == if transmit then Answer(p, ackCmd, ackArg) else None
    {
      lastCookie, lastCmd, lastArg, lastAckCmd, lastAckArg := p.cookie, p.cmd, p.arg, ackCmd, ackArg;
      reply := if transmit then Some(Reply(NB_MAGIC, p.cookie, ackCmd, ackArg)) else None;
    }

    method RecvChunk(p: Packet) returns (reply: Option<Reply>)
      requires Valid(View()) && isActive && (p.cmd == NB_DATA || p.cmd == NB_LAST_DATA)
      modifies this, data
      ensures data == old(data)
      ensures View() == ReceiveChunk(old(View()), p, old(View()).active.value).receiver
      ensures reply == ReceiveChunk(old(View()), p, old(View()).active.value).reply
    {
      if p.arg != offset {
        reply := Conclude(p, NB_ACK, offset % TWO_TO_THE_32, true);
      } else if offset + |p.data| > data.Length {
        reply := Conclude(p, NB_ERROR_TOO_LARGE, p.arg, true);
      } else {
        CopyIn(p.data);
        assert data[..] == old(data[..])[..offset] + p.data + old(data[..])[offset + |p.data|..];
        offset := offset + |p.data|;
        var last := p.cmd == NB_LAST_DATA;
        reply := Conclude(p, if last then NB_FILE_RECEIVED else NB_ACK, 0, last);
      }
    }

    // The arm for NB_SEND_FILE, once netboot_get_buffer has answered.
    method RecvOpen(p: Packet, buffer: array?<byte>) returns (reply: Option<Reply>)
      requires Valid(View()) && p.cmd == NB_SEND_FILE && p.data != [] && !Repeats(View(), p)
      modifies this
      ensures data == if buffer == null then old(data) else buffer
      ensures View() == Receive(old(View()), p, old(Contents(buffer))).receiver
      ensures reply == Receive(old(View()), p, old(Contents(buffer))).reply
    {
      if buffer != null {
        data := buffer;
        isActive, name, offset := true, Sanitize(p.data), 0;
        reply := Conclude(p, NB_ACK, p.arg, true);
      } else {
        isActive := false;
        reply := Conclude(p, NB_ERROR_BAD_FILE, 0, true);
      }
    }

    // bootloader_recv in netsvc.
    method BootloaderRecv(p: Packet, maps: bool) returns (reply: Option<Reply>, ghost memory: Option<seq<byte>>)
      requires Valid(View())
      modifies this, data
      ensures Valid(View()) && fresh({data} - {old(data)}) && Offered(Netsvc, old(View()), p, memory)
      ensures View() == Receive(old(View()), p, memory).receiver
      ensures reply == Receive(old(View()), p, memory).reply
    {
      reply, memory := None, None;
      if lastCookie == p.cookie && lastCmd == p.cmd && lastArg == p.arg {
        reply := Some(Reply(NB_MAGIC, lastCookie, lastAckCmd, lastAckArg));
      } else if p.cmd == NB_COMMAND {
        if p.data != [] {
          reply := Conclude(p, NB_ACK, 0, true);
        }
      } else if p.cmd == NB_SEND_FILE {
        if p.data != [] {
          var buffer := NetsvcBuffer(Sanitize(p.data), p.arg, maps);
          memory := Contents(buffer);
          reply := RecvOpen(p, buffer);
        }
      } else if p.cmd == NB_DATA || p.cmd == NB_LAST_DATA {
        if isActive {
          reply := RecvChunk(p);
        }
      } else {
        reply := Conclude(p, NB_ACK, 0, p.cmd == NB_BOOT || p.cmd == NB_REBOOT);
      }
    }

    // netboot_recv in the zircon bootloader.
    method NetbootRecv(p: Packet, buffers: LoaderBuffers, frees: bool, allocates: bool)
        returns (reply: Option<Reply>, ghost memory: Option<seq<byte>>)
      requires Valid(View()) && buffers.Valid()
      modifies this, data, buffers`ramdisk
      ensures Valid(View()) && buffers.Valid() && Offered(ZirconBootloader, old(View()), p, memory)
      ensures View() == ReceiveInLoader(old(View()), p, memory).receiver
      ensures reply == ReceiveInLoader(old(View()), p, memory).reply
    {
      reply, memory := None, None;
      if lastCookie == p.cookie && lastCmd == p.cmd && lastArg == p.arg {
        reply := Some(Reply(NB_MAGIC, lastCookie, lastAckCmd, lastAckArg));
      } else if p.cmd == NB_COMMAND {
        if p.data != [] {
          reply := Conclude(p, NB_ACK, 0, true);
        }
      } else if p.cmd == NB_SEND_FILE {
        if p.data != [] {
          var buffer := buffers.GetBuffer(Sanitize(p.data), p.arg, frees, allocates);
          memory := Contents(buffer);
          reply := RecvOpen(p, buffer);
        }
      } else if p.cmd == NB_DATA || p.cmd == NB_LAST_DATA {
        if isActive {
          reply := RecvChunk(p);
        }
      } else if p.cmd == NB_QUERY {
        reply := Some(Reply(NB_MAGIC, p.cookie, NB_ACK, NB_VERSION_CURRENT));
      } else {
        reply := Conclude(p, if p.cmd == NB_BOOT then NB_ACK else NB_ERROR_BAD_CMD, 0, true);
      }
    }
  }
}
