# Verified models of the host tools and examples of Fuchsia

Each Dafny module models one program of the repository and proves what that program is for. The
programs share no code, so neither do the models, apart from `Basics`.

- `NetbootWire`, `NetbootBuffers`, `NetbootSender`, `NetbootReceiver`, `NetbootOrderly`,
  `NetbootProtocol`, `NetbootProgress`: the netboot file transfer. The host streams 1280-byte chunks and
  is rewound by every ACK; the target (netsvc, or the zircon bootloader) takes chunks in order into the
  buffer it has for the file name, and answers a repeated message from memory. Host and target are
  composed over a network that may lose, duplicate and reorder messages in both directions. Safety is
  proved for any receiver that appends in order, of which both programs are instances.
- `Fifo`: the demo FIFO driver, a ring buffer with free-running 32-bit counters, refines a bounded
  queue with readable and writable signals.
- `StemHistory`: the incremental history cache of `sync-from-stem.py` against a rebuild.
- `GcsReader`: random access over a stream that can only be read forward or reopened.
- `GnTree`, `BuildGraph` and `MoveOut`: reading the dependency tree GN prints, merging nodes,
  transposing, walking the referrers level by level, and the three put together.
- `RustProject`: numbering crates by a mutually recursive walk over a graph with cycles.
- `CpuperfImporter`: tallying a stream of performance records with a packed-key tracker.
- `Tennis`: the game server.
- `Trie`: the directory index of `fd.py`. `Completions`: label completion for GN.
- `Treemap`, `TreemapParts`, `TreemapRecords`, `SizeFormat`: memory accounting from memgraph records,
  and how a size is printed.

Where the source updates objects in place, the model is a class whose methods are proved equal to a
specification function on values; the promises are then lemmas about every run of that function.

`dafny verify dfyconfig.toml` checks the whole project.

## Where the code does less than it promises

In each case the code is modelled as it is, and the exact condition is proved.

- A transfer cannot succeed if the file is empty, if the target does not know its name, or if the target
  remembers having refused an opening message with the same number and size; every host process starts
  at number one (`CanSucceedIff`).
- The bootloader acknowledges a kernel of more than 32 MiB and a command line of more than 4096 bytes,
  whatever size is announced, and refuses them only when the buffer is full (`TooLargeIsAcknowledged`).
- A late duplicate of NB_SEND_FILE makes the target start over, so the host's success does not mean
  that the target still has the file (`SuccessMeansReceivedIff`). An abandoned session with an identical
  opening message lends its name and its buffer to the next one (`FiledUnderOwnNameIff`).
- A duplicate of the reply to NB_SEND_FILE sends the host to the end of the file
  (`DuplicateOpenReplyStrands`); a transfer under way can be saved exactly as long as it is alive
  (`CanStillSucceedIff`).
- A zero-length FIFO request clears a signal that should stay set (`SignalledIff`).
- The stem cache is not refreshed when the integration head moves back over stem commits
  (`RefreshIsRebuildIff`, `EndsInRebuildIff`).
- An empty read past the end of a cloud object may report EOF although nothing is missing
  (`EofMeansShortIff`).
- The header of `gen_rust_analyzer.py` promises transitive dependencies; line 207 recurses on the
  wrong target and drops the result, so nested groups hide crates (`TransitivelyCompleteIff`).
- A tennis ball that has been hit often enough can leave the board (`BallCanLeave`). A step keeps it
  there exactly when it does not overshoot (`StaysOnBoardIff`), and a whole run does for as long as the
  ball is slow enough (`OnBoardWhileSlow`). Departures go unnoticed before the first serve, and for the
  second player when both leave (`DepartureIsNoticedIff`, `EarlyDepartureIsForgotten`).
- When a tennis ball turns at the top or bottom in the step in which it reaches a side, the paddle is
  compared with the height of the turned line through the old position (`FlightIs`).
- A library is reported unknown whenever the root of the build has no dependencies at all, because
  nothing is printed then (`AnswerIsAboutTheBuild`).

## Model

| member | source | states |
|---|---|---|
| NetbootSender.StepKeepsHead | tools/bootserver_old/netboot.c:118-219 | at the head of every iteration the read position, the byte counter and the header offset agree, and what a round sends is the opening message or exactly the file bytes at the current offset, marked last exactly when they reach the end |
| NetbootSender.TilesIsSlice | tools/bootserver_old/netboot.c:294-364 | the payloads of packets that tile a range, put together, are that range of the file |
| NetbootSender.ServedRoundMoves | tools/bootserver_old/netboot.c:118-180 | a round whose packet, if any, the socket takes, and that does not reposition the loop, moves the offset by exactly what it sent |
| NetbootSender.ExtendKeepsTiling | tools/bootserver_old/netboot.c:294-364 | such a round extends the tiling since the last reset without gap or overlap |
| NetbootSender.AdvanceKeepsInvariant | tools/bootserver_old/netboot.c:294-364 | one round keeps head agreement, faithful packets and the tiling |
| NetbootSender.EveryRunKeepsInvariant | tools/bootserver_old/netboot.c:294-364 | for every stream of received messages and readiness events: head agreement, only faithful packets ever sent, and the packets since the last reset to x tile [x, current) while the socket took what there was to send |
| NetbootSender.FinishedStays | tools/bootserver_old/netboot.c:364-376 | a decided transfer neither sends nor changes any more |
| NetbootSender.Transfer.constructor | tools/bootserver_old/netboot.c:229-291 | a new transfer stands at offset 0 and has sent nothing |
| NetbootSender.Transfer.XRead | tools/bootserver_old/netboot.c:190-206 | returns the bytes at the read position, clipped to the content, and moves past exactly them |
| NetbootSender.Transfer.XSeek | tools/bootserver_old/netboot.c:208-219 | refuses an offset past the end of an in-memory source and otherwise moves there |
| NetbootSender.FailsIff | tools/bootserver_old/netboot.c:30-364 | a round of a transfer under way fails if and only if the socket or the file fails, no reply comes when one is needed, the target refuses (a proper reply, not numbered above the message at hand, that is neither ACK nor receipt), or it asks for what lies beyond a source in memory; then nothing is sent |
| NetbootSender.RefusalEnds | tools/bootserver_old/netboot.c:62-85 | any refusal ends the transfer and nothing more is sent, whatever else the socket offers |
| NetbootSender.OtherRepliesDoNotEnd | tools/bootserver_old/netboot.c:30-89 | no other reply read on a working socket does, an ACK inside the file included |
| NetbootSender.ReplyActs | tools/bootserver_old/netboot.c:340-364 | in a round that does not fail an ACK with a number moves the host to its offset and nothing is sent, a receipt and nothing else ends the transfer, and otherwise the host moves past the chunk |
| NetbootSender.SkipsWhatIsNotTaken | tools/bootserver_old/netboot.c:118-180 | a chunk the socket does not take is moved past all the same |
| NetbootSender.Transfer.IoRcv | tools/bootserver_old/netboot.c:30-89 | accepts ACK, FILE_RECEIVED, and any message with a bad magic or a cookie from the future, whose contents are kept all the same |
| NetbootSender.Transfer.IoSend | tools/bootserver_old/netboot.c:118-180 | stamps the next cookie; sends only on a writable socket and only if no NACK was just read |
| NetbootSender.Transfer.Iterate | tools/bootserver_old/netboot.c:270-364 | one pass of the program is one step of the sender specification, in state and in packets |
| NetbootSender.Transfer.Stream | tools/bootserver_old/netboot.c:294-364 | the loop body is the streaming case of the specification |
| NetbootSender.Transfer.DigestAck | tools/bootserver_old/netboot.c:340-361 | a NACK rewinds counter, read position and header to its offset; anything else moves on; FILE_RECEIVED ends the transfer |
| NetbootSender.Transfer.Xfer | tools/bootserver_old/netboot.c:229-376 | the whole transfer against any event sequence ends in the state, and has sent the packets, of the specified run |
| NetbootBuffers.RoomIff | zircon/bootloader/src/osboot.c:30-76 | either program can hand out enough memory for a file if and only if it knows the name and, in the bootloader, a kernel is at most 32 MiB and a command line at most 4096 bytes; and then whatever it hands out is enough |
| NetbootBuffers.LoaderBuffers.constructor | zircon/bootloader/src/osboot.c:225-241 | a kernel buffer of 32 MiB, a command line of 4096 bytes and no ramdisk |
| NetbootBuffers.LoaderBuffers.GetBuffer | zircon/bootloader/src/osboot.c:37-76 | the kernel and the command line get their fixed buffers whatever size is announced, the ramdisk one of at least the announced size in whole pages, kept while it is large enough; any other name is refused |
| NetbootBuffers.NetsvcBuffer | src/bringup/bin/netsvc/netboot.cc:57-135 | one of the three known names gets newly mapped memory of exactly the announced size, if it can be mapped; any other name is refused |
| NetbootReceiver.Receive | src/bringup/bin/netsvc/netboot.cc:303-452 | every datagram, however malformed, keeps the offset within the memory handed out and the remembered answer consistent with the state |
| NetbootReceiver.SanitizeIs | src/bringup/bin/netsvc/netboot.cc:340-346 | what is left of any name is printable and terminated, and a printable terminated name is left alone |
| NetbootReceiver.KnownNames | src/bringup/bin/netsvc/netboot.cc:107-124 | among printable names exactly "<<netboot>>kernel.bin", "<<netboot>>ramdisk.bin" and "<<netboot>>cmdline" are known, each as its own kind |
| NetbootReceiver.RepeatIsHarmless | src/bringup/bin/netsvc/netboot.cc:319-326 | either program: an answered message sent again gets the same answer and changes nothing |
| NetbootReceiver.OtherMessages | src/bringup/bin/netsvc/netboot.cc:330-433 | messages outside a transfer leave the file alone; which of them are answered, and how, in either program |
| NetbootReceiver.LeftoverIsHoused | src/bringup/bin/netsvc/netboot.cc:303-452 | after any datagrams to a fresh target of either kind, the memory of a file just opened is what that target hands out for its name and size |
| NetbootReceiver.Bootloader.constructor | src/bringup/bin/netsvc/netboot.cc:34-55 | nothing remembered and no active file |
| NetbootReceiver.Bootloader.CopyIn | src/bringup/bin/netsvc/netboot.cc:365-390 | the bytes land at the offset and nothing else in the buffer changes |
| NetbootReceiver.Bootloader.Conclude | src/bringup/bin/netsvc/netboot.cc:422-433 | the message and its answer are remembered; the answer goes out unless suppressed |
| NetbootReceiver.Bootloader.RecvChunk | src/bringup/bin/netsvc/netboot.cc:365-390 | an in-order chunk that fits the buffer is written, one that does not is answered with an error, and any other with the wanted offset, as specified |
| NetbootReceiver.Bootloader.RecvOpen | src/bringup/bin/netsvc/netboot.cc:337-363 | the file starts over in the buffer handed out; without one it is refused and no file is active |
| NetbootReceiver.Bootloader.BootloaderRecv | src/bringup/bin/netsvc/netboot.cc:303-452 | one call is one reaction of the receiver specification, with memory as netsvc hands it out; a repeat of the last message is answered from memory |
| NetbootReceiver.ReceiveInLoader | zircon/bootloader/src/netboot.c:70-179 | with the memory it is given, the zircon bootloader keeps the same invariant and reacts to the messages of a transfer exactly as netsvc does |
| NetbootReceiver.Bootloader.NetbootRecv | zircon/bootloader/src/netboot.c:70-179 | one call is one reaction of its specification, with memory from its own kernel, command line and ramdisk buffers |
| NetbootOrderly.StepIsPlausible | tools/bootserver_old/netboot.c:118-364 | all that the composition needs of one round: what is sent is the opening message or file bytes at their offset, and success only follows a receipt |
| NetbootOrderly.RoundKeepsInv | tools/bootserver_old/netboot.c:118-364 | a round of the host keeps the joint invariant |
| NetbootOrderly.ReactionKeepsInv | tools/bootserver_old/netboot.c:294-364 | whatever an orderly receiver does with a message keeps the joint invariant |
| NetbootOrderly.EveryRunIsSafe | tools/bootserver_old/netboot.c:229-376 | for any receiver that appends a chunk only where its bytes end and reports the file received only after it accepted a last chunk: the joint invariant holds after every run over a network that loses, duplicates and reorders in both directions |
| NetbootOrderly.SuccessMeansAccepted | tools/bootserver_old/netboot.c:294-367 | with any such receiver: once opened it holds a prefix of the file; when the host reports success it has accepted all of it, and it holds it unless it was opened again |
| NetbootProtocol.ReceiversAreOrderly | zircon/bootloader/src/netboot.c:113-150 | either program, on any message: a chunk is appended only at the offset and if it fits, nothing else but an opening changes the bytes held, and the file is newly reported received exactly for an appended last chunk |
| NetbootProtocol.ChunkIsTaken | src/bringup/bin/netsvc/netboot.cc:365-390 | what a chunk does to the bytes held: answered from memory, refused with the offset wanted or for lack of room, or appended, the last one exactly when it completes the file |
| NetbootProtocol.OpenIsTaken | src/bringup/bin/netsvc/netboot.cc:319-363 | what the opening message does to any target: answered from memory, refused, or an empty file in the memory handed out |
| NetbootProtocol.ActionIsOrderly | tools/bootserver_old/netboot.c:118-364 | every step of the host and either program is a step of the host and an orderly receiver |
| NetbootProtocol.ActionKeepsInv | tools/bootserver_old/netboot.c:118-364 | every step also keeps what is known about names, memory and answers |
| NetbootProtocol.EveryRunIsSafe | tools/bootserver_old/netboot.c:229-376 | the joint invariant of host and target, either program with its own buffers, holds after every run over a network that loses, duplicates and reorders in both directions, from any leftover target state |
| NetbootProtocol.EveryRunIsOrderly | tools/bootserver_old/netboot.c:229-376 | every run with either program is, seen through the bytes held, a run with an orderly receiver |
| NetbootProtocol.SuccessMeansReceived | tools/bootserver_old/netboot.c:294-367 | the target always holds a prefix of the file; when the host reports success the target has received all of it, and still holds it unless reopened |
| NetbootProgress.EveryRunIsTraced | tools/bootserver_old/netboot.c:229-376 | in every run: the host stays inside the file, ACKs name offsets inside it, a complete target has said so, a refused opening is remembered for good, and a chunk that found room was not answered with an error |
| NetbootProgress.SendChunk | tools/bootserver_old/netboot.c:294-364 | a streaming host on a writable socket sends the chunk where it stands and moves past it |
| NetbootProgress.HearNack | tools/bootserver_old/netboot.c:340-361 | an ACK takes the host to its offset from wherever it is |
| NetbootProgress.FinishFrom | tools/bootserver_old/netboot.c:294-364 | from any point where both sides agree and the target has room for the file there is a continuation to success |
| NetbootProgress.FinishByNack | tools/bootserver_old/netboot.c:340-361 | a chunk from elsewhere makes the target say where it stands, and from there the transfer can be finished |
| NetbootProgress.FinishRoomy | tools/bootserver_old/netboot.c:294-364 | with room for the file, any chunk sent or still to be sent is enough to finish |
| NetbootProgress.FinishAlive | tools/bootserver_old/netboot.c:294-364 | every transfer that is alive has a continuation to success |
| NetbootProgress.StuckForever | tools/bootserver_old/netboot.c:340-361 | a host at the end of a file of which it sent nothing, and a file that was refused or has too little memory and cannot get more, never succeed |
| NetbootProgress.CanStillSucceedIff | tools/bootserver_old/netboot.c:294-364 | for every run after which the host is streaming: some continuation succeeds if and only if the target has reported the file received, or it has a file open whose memory is large enough, or can be replaced by memory that is, and the host has sent some chunk or has some left to send |
| NetbootProgress.ShortRunsAreUnwrapped | tools/bootserver_old/netboot.c:118-180 | message numbers have not wrapped in any run shorter than 2^32 less the first number |
| NetbootProgress.OpenExchange | tools/bootserver_old/netboot.c:270-291 | the opening exchange with a target that knows the name brings both sides to offset 0; a target that does not take it for a repeat then has room for the file exactly when there is room to be had |
| NetbootProgress.SomeRunSucceeds | tools/bootserver_old/netboot.c:229-376 | every non-empty file there is, or can be, memory for can be transferred |
| NetbootProgress.NoRunSucceeds | tools/bootserver_old/netboot.c:229-376 | no run transfers an empty file, or one there can be no memory for |
| NetbootProgress.CanSucceedIff | tools/bootserver_old/netboot.c:229-376 | for every setup: some run succeeds if and only if the file is not empty and fits: the target knows its name and its buffer is large enough or, if the opening looks like a repeat of an abandoned one, that session was given memory that is large enough or can be replaced |
| NetbootProgress.SuccessMeansReceivedIff | tools/bootserver_old/netboot.c:294-367 | for every setup: "success means the target holds the file" is true of all runs if and only if the network never delivers NB_SEND_FILE twice, or no run succeeds |
| NetbootProgress.HeardRefusalEnds | tools/bootserver_old/netboot.c:62-85 | in every run a host that hears the target refuse, at the opening or later, has failed for good and sends no further packet |
| NetbootProgress.DuplicateOpenReplyStrands | tools/bootserver_old/netboot.c:340-361 | a duplicate of the reply to NB_SEND_FILE leads to a transfer that is not alive |
| NetbootProgress.RepliesEcho | zircon/bootloader/src/netboot.c:152-179 | in every run each reply is proper and carries the number of a packet that was sent |
| NetbootProgress.TooLargeIsAcknowledged | zircon/bootloader/src/osboot.c:38-40 | a kernel or command line larger than its buffer in the bootloader is acknowledged, and yet no run transfers it: the target never holds all of it |
| NetbootProgress.MakeRoom | src/bringup/bin/netsvc/netboot.cc:319-363 | when the file can be opened again, a chunk makes the target forget the opening message, whose duplicate then gets the file memory of its own |
| NetbootProgress.FiledUnderOwnNameIff | src/bringup/bin/netsvc/netboot.cc:319-326 | for every setup: after success a file held has its own name if and only if the file is empty, or no session of another name, with memory enough for this file, was abandoned right after an identical opening message |
| Fifo.Replay | examples/drivers/fifo/demo-fifo.c:64-107 | the occupancy is at most 32767 after every run |
| Fifo.BytesAreConserved | examples/drivers/fifo/demo-fifo.c:64-107 | after every interleaving of reads and writes, bytes delivered followed by bytes buffered are the bytes accepted, in order |
| Fifo.SignalStep | examples/drivers/fifo/demo-fifo.c:70-104 | a request keeps the signals right if and only if it is not a zero-length one that drops a signal |
| Fifo.SignalledIff | examples/drivers/fifo/demo-fifo.c:70-104 | over a whole run the signals are right throughout if and only if no zero-length read hits a non-empty FIFO and no zero-length write a non-full one |
| Fifo.SignalsMean | examples/drivers/fifo/demo-fifo.c:64-107 | after every run READABLE is set if and only if some write moved bytes after the last read that moved none, and WRITABLE if and only if no write ever moved none or some read moved bytes after the last that did |
| Fifo.SignalsComeDown | examples/drivers/fifo/demo-fifo.c:75-99 | a read of an empty FIFO leaves READABLE clear, and a write to a full one WRITABLE |
| Fifo.NonEmptyRequestsKeepSignals | examples/drivers/fifo/demo-fifo.c:70-104 | in every run of non-empty requests from the bound state no wake-up is lost |
| Fifo.BumpSlot | examples/drivers/fifo/demo-fifo.c:34-62 | wrapping a counter at 2^32 does not move it in the ring |
| Fifo.DistanceSlot | examples/drivers/fifo/demo-fifo.c:28-28 | the readable count locates the head from the tail across the wrap |
| Fifo.PutMovesDistance | examples/drivers/fifo/demo-fifo.c:34-47 | advancing the head past n free slots adds n to the occupancy, across the wrap |
| Fifo.GetMovesDistance | examples/drivers/fifo/demo-fifo.c:49-62 | advancing the tail over n readable bytes takes n off the occupancy, across the wrap |
| Fifo.WindowAppend | examples/drivers/fifo/demo-fifo.c:34-47 | overwriting the slots after the window appends to the buffered bytes and disturbs none of them |
| Fifo.WindowDrop | examples/drivers/fifo/demo-fifo.c:49-62 | the bytes at the tail are the front of the buffered bytes, and moving the tail drops exactly them |
| Fifo.Device.Readable | examples/drivers/fifo/demo-fifo.c:28-28 | never more than 32767 |
| Fifo.Device.Writable | examples/drivers/fifo/demo-fifo.c:30-32 | free and used space add up to 32767 |
| Fifo.Device.constructor | examples/drivers/fifo/demo-fifo.c:121-144 | a bound device is empty and writable |
| Fifo.Device.Put | examples/drivers/fifo/demo-fifo.c:34-47 | appends a prefix of the request, empty only if the request is or there is no room |
| Fifo.Device.Get | examples/drivers/fifo/demo-fifo.c:49-62 | takes a prefix of the buffered bytes, empty only if nothing is asked for or nothing is there |
| Fifo.Device.Drain | examples/drivers/fifo/demo-fifo.c:68-74 | the loop takes exactly min(len, available) bytes off the front |
| Fifo.Device.Read | examples/drivers/fifo/demo-fifo.c:64-84 | is the specified read of a bounded queue, signals included, on the ring with wrapping counters |
| Fifo.Device.Fill | examples/drivers/fifo/demo-fifo.c:91-97 | the loop accepts exactly min(len, free) bytes, after those buffered |
| Fifo.Device.Write | examples/drivers/fifo/demo-fifo.c:86-107 | is the specified write of a bounded queue, signals included, and accepts exactly min(len, free) bytes |
| StemHistory.StemLog | scripts/sync-from-stem.py:94-119 | only commits in the asked-for range that touch the stem |
| StemHistory.StemLogSplits | scripts/sync-from-stem.py:94-119 | the log of a range is the log of its newer part followed by that of its older part |
| StemHistory.StemLogNewestFirst | scripts/sync-from-stem.py:112-149 | the pairs are strictly newest first |
| StemHistory.RangesAt | scripts/sync-from-stem.py:166-178 | each commit but the oldest has the revisions between its own and the next older one |
| StemHistory.SpliceIsRanges | scripts/sync-from-stem.py:161-178 | writing the ranges of the new pairs, the one across the old/new boundary included, over the cached ones gives the ranges of all pairs |
| StemHistory.RefreshForward | scripts/sync-from-stem.py:63-182 | one incremental update to a newer head equals a rebuild |
| StemHistory.RefreshIsRebuildIff | scripts/sync-from-stem.py:63-182 | one incremental update to any head equals a rebuild if and only if the head did not move back over a commit that touches the stem |
| StemHistory.SplitsDoNotMatter | scripts/sync-from-stem.py:63-182 | however a history is cut into updates, pairs, commits and ranges equal those of one update with an empty cache |
| StemHistory.SurplusStays | scripts/sync-from-stem.py:63-182 | over any sequence of updates the cache never has too few commits, and has too many exactly from the first step back over a stem commit on |
| StemHistory.EndsInRebuildIff | scripts/sync-from-stem.py:63-182 | at the end of any sequence of updates to any heads the cache equals a rebuild if and only if no step moved back over a stem commit; later updates never repair it |
| StemHistory.RangesAreDisjoint | scripts/sync-from-stem.py:36-45 | when stem revisions never go backwards, distinct commits have disjoint ranges |
| StemHistory.ReverseFindsOldest | scripts/sync-from-stem.py:36-45 | the reversed map sends each revision after the oldest cached stem, up to the newest, to the oldest integration commit that contains it, and maps nothing else |
| StemHistory.ReverseCommits | scripts/sync-from-stem.py:36-45 | maps a revision if and only if some range lists it, to a commit whose range does, in any dictionary order |
| StemHistory.StemCache.constructor | scripts/sync-from-stem.py:48-62 | an empty cache |
| StemHistory.StemCache.ReadRevisions | scripts/sync-from-stem.py:142-149 | pairs every new commit with the revision its manifest names |
| StemHistory.StemCache.LogRanges | scripts/sync-from-stem.py:166-178 | writes the ranges of the new pairs over the cached ones |
| StemHistory.StemCache.Update | scripts/sync-from-stem.py:48-182 | the script updates the cache as specified and returns a reverse of the ranges |
| GcsReader.Recovers | tools/bootserver/image.go:131-140 | after any failures a read that has to open the object anew, and can, is answered with its slice |
| GcsReader.ForwardIsServed | tools/bootserver/image.go:145-160 | a read at or after the position of the stream is answered without opening anything |
| GcsReader.BrokenSince | tools/bootserver/image.go:131-140 | a reader is broken only since some reopening, to go back, failed, and through every read from then on |
| GcsReader.HealthyRunsDoNotFail | tools/bootserver/image.go:131-160 | if opening never fails, no read reports anything but success or EOF |
| GcsReader.EofMeansShortIff | tools/bootserver/image.go:144-160 | EOF is reported exactly for short answers, unless an empty request goes past a stream that already stands at the end |
| GcsReader.Stream.constructor | tools/bootserver/image.go:104-129 | a new stream stands at 0 |
| GcsReader.Stream.Close | tools/bootserver/image.go:162-167 | reads fail afterwards |
| GcsReader.Stream.Read | tools/bootserver/image.go:144-160 | a sequential stream may return less than asked for, and EOF only at the end |
| GcsReader.Stream.ReadFull | tools/bootserver/image.go:144-160 | reads all that is asked for or all there is, telling the two and nothing-at-all apart |
| GcsReader.Reader.constructor | tools/bootserver/image.go:98-102 | no stream yet |
| GcsReader.Reader.Position | tools/bootserver/image.go:131-140 | reopens when there is no stream or the offset was passed |
| GcsReader.Reader.Skip | tools/bootserver/image.go:145-152 | brings the stream to the offset or to the end |
| GcsReader.Reader.ReadFrom | tools/bootserver/image.go:145-160 | reads the clipped slice at the offset from wherever the stream stands before it |
| GcsReader.Reader.ReadAt | tools/bootserver/image.go:131-160 | whatever came before, an answer that is not an error is the slice at the asked-for offset, clipped to the object; the index always is the position of the stream |
| GnTree.ReadLine | scripts/unification/can_i_move_out.py:91-103 | one line changes stack and graph as specified; a failed assertion or a stack access out of range ends the script |
| GnTree.LoadBuildGraph | scripts/unification/can_i_move_out.py:75-105 | the loop is the fold of the line parser |
| GnTree.LineIs | scripts/unification/can_i_move_out.py:91-103 | for every line: it ends the script if and only if its indentation is odd or more than one level too deep; else it is filed under the ancestor at its depth, or, one level too deep, under itself |
| GnTree.ParsePrintedLine | scripts/unification/can_i_move_out.py:91-103 | a printed line is put under the ancestor at its depth, elided or not |
| GnTree.ParsePrinted | scripts/unification/can_i_move_out.py:84-105 | parsing the indented preorder of any forest adds its edges in order, never reaches outside the stack and leaves the ancestors on it |
| GnTree.Unfold | scripts/unification/can_i_move_out.py:84-105 | the walk that elides what it has shown ends on every graph, cycles included |
| GnTree.UnfoldShows | scripts/unification/can_i_move_out.py:84-105 | wherever children are shown, all are shown, in order |
| GnTree.UnfoldExpandsOnce | scripts/unification/can_i_move_out.py:84-105 | each label met is shown with its children exactly once |
| GnTree.ParsePrintRoundTrip | scripts/unification/can_i_move_out.py:84-105 | for every graph, cyclic or not, printing below a root and parsing gives back exactly the child list of every label printed, and what is printed is closed under dependencies |
| GnTree.PrintsReachable | scripts/unification/can_i_move_out.py:84-105 | what is printed below a root is exactly what the root depends on, directly or not |
| GnTree.ChildrenRecovered | scripts/unification/can_i_move_out.py:84-105 | the edges of the print-out with a given source are its child list |
| BuildGraph.WithinIsChains | scripts/unification/can_i_move_out.py:226-237 | the labels within n references are those with a chain of at most n |
| BuildGraph.LevelIsNearest | scripts/unification/can_i_move_out.py:226-239 | level n holds exactly the labels whose shortest chain has n + 1 references |
| BuildGraph.WalkStep | scripts/unification/can_i_move_out.py:231-237 | the next level is what this one refers to and was not met before, and the two never overlap |
| BuildGraph.LevelsWalkReferrers | scripts/unification/can_i_move_out.py:226-239 | levels that stop at an empty one contain every transitive referrer at its distance and nothing else |
| BuildGraph.LevelsAreDisjoint | scripts/unification/can_i_move_out.py:226-239 | each transitive referrer is met once |
| BuildGraph.QuotientIsComplete | scripts/unification/can_i_move_out.py:45-66 | merging leaves no dangling name |
| BuildGraph.MergedIsQuotient | scripts/unification/can_i_move_out.py:45-66 | what the loop builds is the quotient graph |
| BuildGraph.TransposeIsClosed | scripts/unification/can_i_move_out.py:24-43 | the references are closed |
| BuildGraph.Build.constructor | scripts/unification/can_i_move_out.py:20-22 | completes the graph and transposes it |
| BuildGraph.Build.ComputeRefs | scripts/unification/can_i_move_out.py:24-43 | every node gets an entry, and the references are the exact transpose, with multiplicity |
| BuildGraph.Build.AddMissing | scripts/unification/can_i_move_out.py:25-33 | adds an empty entry for exactly the nodes that had none |
| BuildGraph.Build.Transpose | scripts/unification/can_i_move_out.py:35-43 | every edge appears as often, reversed |
| BuildGraph.Build.AddReferences | scripts/unification/can_i_move_out.py:38-41 | adds one source to the rows of its targets and touches no other |
| BuildGraph.Build.Merge | scripts/unification/can_i_move_out.py:52-65 | an edge between two different names exactly when some kept member of one depended on some kept member of the other |
| BuildGraph.Build.MergedTargets | scripts/unification/can_i_move_out.py:58-64 | the names of the kept targets other than the source |
| BuildGraph.Build.CollapseNodes | scripts/unification/can_i_move_out.py:45-66 | the graph becomes the quotient under any renaming that may drop nodes, with exact references again |
| BuildGraph.Build.Referrers | scripts/unification/can_i_move_out.py:219-239 | nothing for an unknown label, else each transitive referrer exactly once, in shortest-distance levels |
| BuildGraph.Build.Walk | scripts/unification/can_i_move_out.py:226-239 | ends on cyclic graphs and returns the levels |
| BuildGraph.Build.NewBatch | scripts/unification/can_i_move_out.py:232-237 | the references of the batch that were not shown |
| MoveOut.ReadBack | scripts/unification/can_i_move_out.py:24-43 | the graph built from the print-out is the part of the build below the root, every label with its own dependencies |
| MoveOut.AnswerIsAboutTheBuild | scripts/unification/can_i_move_out.py:75-105 | for every build, cyclic or not: printing it below a root, reading it back and completing it gives exactly the part the root depends on (nothing at all if the root has no dependencies) |
| MoveOut.Ask | scripts/unification/can_i_move_out.py:200-239 | completing, collapsing and walking a graph in a row gives the referrers of a library, by shortest distance, in the transpose of the quotient |
| MoveOut.Inspect | scripts/unification/can_i_move_out.py:75-239 | from the lines of text: a failure exactly when the parser fails, else the answer about the graph read |
| MoveOut.InspectBuild | scripts/unification/can_i_move_out.py:75-239 | given the print-out of a build, the answer lists the shortest-distance referrers in the quotient of the part of the build below the root |
| MoveOut.OneAnswer | scripts/unification/can_i_move_out.py:191-239 | there is only one such answer |
| MoveOut.FreeToGoIff | scripts/unification/can_i_move_out.py:219-242 | a library is reported free to go if and only if it is part of the build below the root and nothing there that is kept under another name depends on it; it is reported unknown if and only if it is not part of it |
| RustProject.Cut | scripts/gen_rust_analyzer.py:52-57 | the longest prefix without a parenthesis: all of the label, or up to the first one |
| RustProject.SameEntryIff | scripts/gen_rust_analyzer.py:214-228 | two targets are filed under the same crate if and only if their labels agree up to the first parenthesis of each |
| RustProject.CrateEdgesIff | scripts/gen_rust_analyzer.py:190-251 | a crate has an edge exactly to the rust targets among its dependencies or directly below a group among them |
| RustProject.CrateEdgesStay | scripts/gen_rust_analyzer.py:210-251 | later growth of the lookup does not disturb edges already made |
| RustProject.FinishedStays | scripts/gen_rust_analyzer.py:210-251 | a finished crate stays finished |
| RustProject.Generator.Register | scripts/gen_rust_analyzer.py:217-228 | the lookup stays a bijection onto the crate numbers, and the new crate carries its own |
| RustProject.Generator.AddTransitiveCrates | scripts/gen_rust_analyzer.py:190-208 | returns one edge for each rust target directly below the group, all of them indexed; ends on cyclic graphs |
| RustProject.Generator.EdgeBelow | scripts/gen_rust_analyzer.py:194-207 | one dependency of a group adds its edge if it is a rust target |
| RustProject.Generator.VisitBelow | scripts/gen_rust_analyzer.py:194-207 | the recursion on the same target contributes no edge |
| RustProject.Generator.AddCrate | scripts/gen_rust_analyzer.py:210-251 | the target is indexed afterwards, everything new is finished, and the recursion ends by a lexicographic measure on labels without a crate and groups not yet entered |
| RustProject.Generator.OpenCrate | scripts/gen_rust_analyzer.py:217-228 | the crate is registered with the edge to std and nothing else |
| RustProject.Generator.AddDependency | scripts/gen_rust_analyzer.py:230-251 | one dependency adds exactly its edges |
| RustProject.Generator.EdgesFor | scripts/gen_rust_analyzer.py:231-251 | the edge of a rust dependency, or those of a group |
| RustProject.Generator.AddSysrootCrate | scripts/gen_rust_analyzer.py:153-188 | the sysroot crate and those it needs are indexed with their edges |
| RustProject.Generator.constructor | scripts/gen_rust_analyzer.py:144-151 | an empty project |
| RustProject.Generator.Generate | scripts/gen_rust_analyzer.py:253-257 | afterwards every crate has exactly its edges, all edge indices are in range, the lookup is a bijection, every sysroot crate and rust target is indexed, and two rust targets share an entry if and only if their labels agree up to the first parenthesis |
| RustProject.Generator.AddAllSysrootCrates | scripts/gen_rust_analyzer.py:253-254 | every listed sysroot crate is indexed and finished |
| RustProject.Generator.AddAllRustTargets | scripts/gen_rust_analyzer.py:256-257 | in any order of the targets |
| RustProject.NestedGroupsAreLost | scripts/gen_rust_analyzer.py:205-208 | whatever lies behind two levels of groups and nothing nearer gets no edge |
| RustProject.SomethingIsLost | scripts/gen_rust_analyzer.py:205-208 | a concrete project in which a rust target behind two groups is lost, against the promise of transitive dependencies |
| RustProject.TransitivelyCompleteIff | scripts/gen_rust_analyzer.py:190-251 | every rust target behind groups of any nesting becomes a dependency if and only if each one behind two or more groups names a crate also found behind at most one |
| CpuperfImporter.AmountSnoc | garnet/bin/cpuperf_provider/importer.cc:138-170 | a record in the trace that is a value replaces the sum, a count adds to it, and any other leaves it |
| CpuperfImporter.TallyIs | garnet/bin/cpuperf_provider/importer.cc:113-178 | for every stream of records of an event: the tally is the last value with previous time < time <= stop plus the counts after it, modulo 2^64, reported as a value exactly when the last record in the trace other than a program counter or last branch is one |
| CpuperfImporter.ClockIs | garnet/bin/cpuperf_provider/importer.cc:103-110 | the current time is that of the last time record, or the initial one |
| CpuperfImporter.SampleOf | garnet/bin/cpuperf_provider/importer.cc:92-112 | every record but a mere clock update is one sample of its cpu and event, in order, at the current time |
| CpuperfImporter.TallyIsSum | garnet/bin/cpuperf_provider/importer.cc:138-152 | an event that never reports values is tallied as the 64-bit sum of its counts over records with previous time < time <= stop |
| CpuperfImporter.TallyIsLastValue | garnet/bin/cpuperf_provider/importer.cc:153-160 | an event that only reports values is tallied as the last one in the trace |
| CpuperfImporter.TallyOfRejected | garnet/bin/cpuperf_provider/importer.cc:113-178 | an event all of whose records fall outside the trace is a count of zero |
| CpuperfImporter.TallyForSnoc | garnet/bin/cpuperf_provider/importer.cc:92-184 | a record changes only the tally of its own cpu and event |
| CpuperfImporter.ImportRecord | garnet/bin/cpuperf_provider/importer.cc:112-179 | one record changes only the entry of its cpu and event, as specified |
| CpuperfImporter.ImportNext | garnet/bin/cpuperf_provider/importer.cc:92-184 | after each record the tracker knows the tally of every cpu and event |
| CpuperfImporter.ImportRecords | garnet/bin/cpuperf_provider/importer.cc:75-200 | counts all records; the output has for each configured cpu and event nothing if it has no samples, one value at the stop if the last that says anything was one, and else a count of 0 at the start and the count at the stop, by the closed form of its own samples; nothing for any other pair; in cpu-major configured order |
| CpuperfImporter.ReportIsDue | garnet/bin/cpuperf_provider/importer.cc:338-350 | the report of one pair in terms of its samples alone |
| CpuperfImporter.ReportAccounts | garnet/bin/cpuperf_provider/importer.cc:332-351 | the records of any pair in the whole report, in order, once for each time the pair is configured |
| CpuperfImporter.AllInOrder | garnet/bin/cpuperf_provider/importer.cc:332-351 | every record of the report belongs to a configured pair, and the pairs come in cpu-major configured order |
| CpuperfImporter.EmitTallyCounts | garnet/bin/cpuperf_provider/importer.cc:332-351 | one report per configured cpu and event that was seen, in order |
| CpuperfImporter.EmitEvents | garnet/bin/cpuperf_provider/importer.cc:338-350 | a value at the end; a count from zero at the start |
| CpuperfImporter.GenKeyIsInjective | garnet/bin/cpuperf_provider/importer.h:99-103 | packing a cpu below the limit and a 16-bit event into 32 bits loses nothing |
| CpuperfImporter.EventTracker.constructor | garnet/bin/cpuperf_provider/importer.h:37-37 | nothing is known |
| CpuperfImporter.EventTracker.HaveValue | garnet/bin/cpuperf_provider/importer.h:39-43 | whether the pair has an entry |
| CpuperfImporter.EventTracker.GetTime | garnet/bin/cpuperf_provider/importer.h:50-56 | the last time of the pair, or the start |
| CpuperfImporter.EventTracker.Get | garnet/bin/cpuperf_provider/importer.h:70-84 | what is known about the pair |
| CpuperfImporter.EventTracker.UpdateTime | garnet/bin/cpuperf_provider/importer.h:45-48 | changes the time of that pair only |
| CpuperfImporter.EventTracker.UpdateValue | garnet/bin/cpuperf_provider/importer.h:58-62 | sets the value of that pair only |
| CpuperfImporter.EventTracker.AccumulateCount | garnet/bin/cpuperf_provider/importer.h:64-68 | adds to the count of that pair only, in 64 bits |
| Tennis.BounceLaw | examples/tennis/src/game.rs:60-71 | a paddle hit reverses the ball, never panics, multiplies the square of the speed by 1.1025, and sends it up or down as it met the upper or lower half |
| Tennis.FlightLaw | examples/tennis/src/game.rs:174-264 | no step panics about direction at any speed, at most two hits happen, and only hits change the speed |
| Tennis.StaysOnBoardIff | examples/tennis/src/game.rs:174-264 | a ball in play stays on the board if and only if it does not overshoot a side by more than the width, nor, unless it reaches a side, the top or bottom by more than the height |
| Tennis.BallCanLeave | examples/tennis/src/game.rs:141-265 | there is a run, of two players who never move, in which the ball leaves the board |
| Tennis.SpeedLimit | examples/tennis/src/game.rs:60-71 | for 127 hits after a serve the ball covers at most 10 units a step, so the overshoot cannot happen |
| Tennis.SlowBall | examples/tennis/src/game.rs:60-71 | such a ball has both components at most 10 |
| Tennis.NewGameIsOn | examples/tennis/src/game.rs:267-291 | a serve starts a game in order |
| Tennis.PlayKeepsInv | examples/tennis/src/game.rs:141-265 | a step of a game keeps the invariant and does not panic |
| Tennis.StepKeepsInv | examples/tennis/src/game.rs:141-265 | a whole step does, the first serve included |
| Tennis.HandleKeepsInv | examples/tennis/src/game.rs:118-265 | so does every event |
| Tennis.EveryRunKeepsInv | examples/tennis/src/game.rs:118-291 | in every run of joins, signals, disconnects and steps: no direction panic; game number 0 means no score, else the scores add up to the game number less one; paddles in [0.5, 9.5]; dx not 0; the speed is that of the serve boosted once per hit; and on the board while the hits are at most 127 |
| Tennis.OnBoardWhileSlow | examples/tennis/src/game.rs:141-265 | in every run the ball is on the board as long as no earlier state had a ball covering more than the width or the height of the board in a step |
| Tennis.PaddleAfterIs | examples/tennis/src/game.rs:46-58 | up is 0.008 towards 0, down 0.008 away from it, and the rail ends at 0.5 and 9.5 |
| Tennis.FlightIs | examples/tennis/src/game.rs:174-264 | on positions alone: player 1 misses if and only if the ball gets to x <= 0 more than half a paddle away, and player 2 if and only if it gets to x > 20 so, directly or returned across the whole board in the same step |
| Tennis.ScoreIs | examples/tennis/src/game.rs:141-291 | in a step of a game that is on, a miss at the left is a point for player 2, a miss at the right one for player 1, and nothing else scores; after a point the ball is served from the middle with everything at rest |
| Tennis.SlowBallsAreNotReturnedPast | examples/tennis/src/game.rs:190-261 | a ball on the board that covers at most its width in a step is never returned past the other side |
| Tennis.ScoresCountMisses | examples/tennis/src/game.rs:118-291 | in every run the two scores count the misses at the right and at the left since the last abandoned game |
| Tennis.FreeFlight | examples/tennis/src/game.rs:174-187 | between the sides the ball moves by its velocity, mirrored at top and bottom, and nothing but time and paddles changes besides |
| Tennis.HitReturns | examples/tennis/src/game.rs:189-261 | a ball that meets a paddle comes back from the height at which it met it, mirrored at the side, 1.05 times as fast, up or down by the half that was hit |
| Tennis.DepartureIsNoticedIff | examples/tennis/src/game.rs:141-172 | a step vacates a seat if and only if its player is gone, the game was on before the step and, for the second seat, the first player is not gone too |
| Tennis.EarlyDepartureIsForgotten | examples/tennis/src/game.rs:142-147 | a concrete run in which a player leaves before the first serve and keeps the seat |
| Tennis.Table.constructor | examples/tennis/src/game.rs:89-108 | a new game |
| Tennis.Table.RegisterNewPaddle | examples/tennis/src/game.rs:118-139 | the first free seat is taken; a third player is the panic |
| Tennis.Table.CalcPaddleMovement | examples/tennis/src/game.rs:46-58 | the paddle stays on its rail and moves at most its speed; a missing player is reported |
| Tennis.Table.StartNewGame | examples/tennis/src/game.rs:267-291 | next game number, ball in the middle, paddles at rest |
| Tennis.Table.CalcPaddleBounce | examples/tennis/src/game.rs:60-71 | a ball the paddle reaches never panics, comes back the other way and has 1.1025 times the square of its speed |
| Tennis.Table.TakeStep | examples/tennis/src/game.rs:141-265 | the whole step is the specified one, panics included |
| Tennis.Table.PlayOn | examples/tennis/src/game.rs:151-265 | paddles, ball, score and disconnects as specified |
| Tennis.Table.MoveBall | examples/tennis/src/game.rs:174-264 | reflections and both edges as specified |
| Tennis.Table.AtLeftEdge | examples/tennis/src/game.rs:190-224 | the left edge as specified |
| Tennis.Table.AtRightEdge | examples/tennis/src/game.rs:225-261 | the right edge as specified |
| Trie.InsertStores | scripts/fd.py:58-63 | inserting adds one value under exactly one name |
| Trie.InsertKeepsNamed | scripts/fd.py:58-63 | every node that holds values knows its own name |
| Trie.GetFinds | scripts/fd.py:51-56 | lookup gives what is stored |
| Trie.BuildStores | scripts/fd.py:58-63 | after any insertions each name has its values in order |
| Trie.LookupIsExact | scripts/fd.py:51-63 | after any sequence of insertions, lookup of a non-empty name gives exactly its values in insertion order, or nothing |
| Trie.PrefixedBelow | scripts/fd.py:76-82 | names with a prefix are found by following it |
| Trie.GatherIsScan | scripts/fd.py:168-178 | collecting the values of all names with a prefix is scanning the directory list for it |
| Trie.TrieNode.constructor | scripts/fd.py:45-49 | an empty node |
| Trie.TrieNode.SetItem | scripts/fd.py:58-63 | the linked nodes stand for the tree with the value inserted |
| Trie.TrieNode.GetItem | scripts/fd.py:51-56 | the lookup of the tree |
| Trie.TrieNode.Walk | scripts/fd.py:68-74 | lists every name stored below, once |
| Trie.TrieNode.Prefixed | scripts/fd.py:76-82 | lists exactly the stored names with the prefix, each once |
| Trie.TrieNode.Collect | scripts/fd.py:174-176 | gathers the values of all names listed |
| Trie.TrieNode.Options | scripts/fd.py:168-178 | for an exact name its values in order, else the values a linear scan of the directory list finds |
| Completions.CutIsUnique | scripts/gn_complete/complete.py:221-230 | there is only one way to cut a path before its slashes |
| Completions.SplitPathCuts | scripts/gn_complete/complete.py:221-230 | the loop cuts it that way |
| Completions.ToolchainStart | scripts/gn_complete/complete.py:205-210 | the last opening parenthesis, if the label ends in a closing one |
| Completions.SplitReads | scripts/gn_complete/complete.py:184-238 | the segments of a label are the root "//", the directories cut at slashes, and the target from the first colon on, with the toolchain, from the last parenthesis on, left at the end of the last of them |
| Completions.ReadsIsUnique | scripts/gn_complete/complete.py:184-238 | a label has only one such reading |
| Completions.SplitJoins | scripts/gn_complete/complete.py:184-238 | joining the segments of any label gives it back; the only labels without segments close a toolchain they never opened |
| Completions.SplitPathLoop | scripts/gn_complete/complete.py:221-230 | the loop computes the cut |
| Completions.SplitBody | scripts/gn_complete/complete.py:212-232 | root, directories and target |
| Completions.SplitLabel | scripts/gn_complete/complete.py:184-238 | the specified split, or the exception |
| Completions.PlantAdds | scripts/gn_complete/complete.py:57-59 | inserting adds exactly the path and what leads to it |
| Completions.CompletionsAreSound | scripts/gn_complete/complete.py:61-98 | every completion is the beginning of some inserted label |
| Completions.CompletionsAreComplete | scripts/gn_complete/complete.py:61-98 | every inserted label has a completion as its beginning, or is the beginning of them all |
| Completions.KidsContinue | scripts/gn_complete/complete.py:87-98 | the children of a node are the ways inserted labels go on from there |
| Completions.Completer.constructor | scripts/gn_complete/complete.py:36-40 | nothing inserted |
| Completions.Completer.InsertLabel | scripts/gn_complete/complete.py:45-59 | accepts exactly the labels with the prefix that can be split, and adds exactly that one |
| Completions.Completer.Descend | scripts/gn_complete/complete.py:84-91 | goes down to the first choice, leaving no label aside |
| Completions.Completer.Suggest | scripts/gn_complete/complete.py:93-98 | one suggestion for each way to go on, or the label itself |
| Completions.Completer.ListCompletions | scripts/gn_complete/complete.py:61-98 | the completions at the first choice, one for each way to go on |
| SizeFormat.DivideOnce | scripts/memory/treemap.py:113-118 | one pass of the loop keeps size = n units + remainder, and loses no trace of a remainder |
| SizeFormat.UnitIsKnown | scripts/memory/treemap.py:108-129 | a 64-bit size never needs a unit beyond E |
| SizeFormat.TenthsAreClose | scripts/memory/treemap.py:123-127 | rounding by hundreds instead of 102.4 |
| SizeFormat.RoundedIsClose | scripts/memory/treemap.py:123-129 | the shown value is within 0.075 of the displayed unit |
| SizeFormat.UnitsIsFirst | scripts/memory/treemap.py:113-118 | the unit is the first in which the whole number is below 10000 and no multiple of 1024, so no unit is skipped |
| SizeFormat.WholeIs | scripts/memory/treemap.py:113-118 | dividing by 1024 again and again counts the whole units |
| SizeFormat.FormatSize | scripts/memory/treemap.py:91-129 | for every size below 2^64: ends with that unit, a valid one; no decimal if and only if the size is a multiple of the unit, and then it is exact; else within 0.075 of the unit |
| Treemap.UnderIsUnique | scripts/memory/treemap.py:74-88 | on one level there is only one node above a given one |
| Treemap.AboveIff | scripts/memory/treemap.py:74-88 | a node below x is below exactly one child of x |
| Treemap.ScanSplits | scripts/memory/treemap.py:74-88 | scanning below each child is scanning below their parent |
| Treemap.TotalIsScan | scripts/memory/treemap.py:74-88 | the total of a node outside the processes is the sum over the processes below it |
| Treemap.Registry.SumArea | scripts/memory/treemap.py:74-88 | sets every node of the subtree, and no other, to its total; raises if and only if some node there has both an area and children |
| Treemap.Registry.SumKids | scripts/memory/treemap.py:87-87 | sums the children in turn |
| Treemap.Registry.SumKid | scripts/memory/treemap.py:87-87 | summing one more child touches nothing of the others |
| TreemapParts.SharersHaveAll | scripts/memory/treemap.py:199-210 | the processes that map an object get all its committed bytes between them, but for less than a byte each |
| TreemapParts.HandleIsOneMore | scripts/memory/treemap.py:211-220 | a handle alone counts as one more mapping |
| TreemapParts.DistinctKoids | scripts/memory/treemap.py:183-197 | each object is counted once |
| TreemapParts.DistinctIsFirst | scripts/memory/treemap.py:183-191 | what is kept of each object is its first record |
| TreemapParts.SumOfNames | scripts/memory/treemap.py:222-242 | grouping by name loses nothing |
| TreemapParts.GroupByName | scripts/memory/treemap.py:180-220 | the first record of each object becomes a node with its share, filed under its name |
| TreemapParts.AddNamed | scripts/memory/treemap.py:224-243 | objects that share a name become one child, with their sizes added up or with the objects below it; a single or unnamed object is a child itself |
| TreemapParts.Aggregate | scripts/memory/treemap.py:222-245 | all names are arranged so, in any order, and come to the sum of the shares, folded or kept |
| TreemapParts.SizeParts | scripts/memory/treemap.py:147-165 | the private part has the private bytes and the shared part what pss has beyond them, each only if there are any, and together they come to max(private, pss) |
| TreemapParts.PopulateProcess | scripts/memory/treemap.py:137-245 | the parts of a process are its own, each listed once, and come to max(private, pss) or to its distinct object shares, the same whether same-named objects are folded or kept |
| TreemapRecords.AppendLinks | scripts/memory/treemap.py:411-412 | adding children keeps the registry a forest |
| TreemapRecords.ReadRecord | scripts/memory/treemap.py:388-412 | one record keeps the registry a faithful picture of the records read, in whatever order they come |
| TreemapRecords.ForestIsReady | scripts/memory/treemap.py:388-412 | records that form a tree make a forest |
| TreemapRecords.UnderIsBelow | scripts/memory/treemap.py:411-412 | what is below what in the registry is what the parent fields say |
| TreemapRecords.BelowJobs | scripts/memory/treemap.py:388-412 | below a job there are only jobs, processes and their parts |
| TreemapRecords.ProcessTotal | scripts/memory/treemap.py:137-245 | the total of a process is its footprint |
| TreemapRecords.JobTotal | scripts/memory/treemap.py:420-422 | the total of any job or process in the tree is the sum of the footprints of the processes below it |
| TreemapRecords.OrderDoesNotMatter | scripts/memory/treemap.py:388-412 | any order of the same records gives the same records by identifier and the same sums |
| TreemapRecords.PlaceRecord | scripts/memory/treemap.py:406-412 | the record is put below the parent it names, and nowhere else |
| TreemapRecords.ReadAll | scripts/memory/treemap.py:384-412 | stops with an assertion if and only if there are several roots or several root jobs; otherwise it has found the only ones, if any |
| TreemapRecords.AddUnknown | scripts/memory/treemap.py:428-437 | the unknown part and the root job come to the kernel object area |
| TreemapRecords.SumUp | scripts/memory/treemap.py:420-437 | accounts for every job and process and for the unknown part |
| TreemapRecords.BuildTree | scripts/memory/treemap.py:372-439 | refuses exactly the record sets without a single root and a single root job; otherwise every job and process below the root job has the area of the processes below it, and unknown plus root job is the kernel object area |

## Left out

- Sockets, `select`, timers, retries and progress display of the boot server: readiness and received
  messages are arbitrary inputs. The size of the file is taken as known.
- The composed protocol assumes a file below 2^32 bytes, because offsets travel in a 32-bit field. The
  sender alone is modelled for any size, with the wrap-around of that field.
- The network of the composed protocol starts empty: packets of earlier host processes, which use the
  same numbers, are not still under way.
- NetbootProgress.CanStillSucceedIff: assumes that the 32-bit message numbers have not wrapped around.
- The port and length checks before the target looks at a message are left out. Whether memory can be
  mapped, allocated or freed is an input, and in the composed protocol so is which of the buffers it may
  have the ramdisk gets. NB_BOOT and NB_REBOOT are acknowledged without their effect, and the other
  commands netsvc serves are not modelled.
- Fifo.Device.Read: the lock is not modelled; calls are atomic, in any order. The mask with 32767 is
  written as a remainder.
- StemHistory.StemCache.Update: git, the manifests and the cache file are an oracle over linear
  histories, in which commits and revisions are named by their position.
- GcsReader.Reader.ReadAt: attributes, gzip and the network are left out; opening may fail at any call,
  reading an open stream does not.
- GnTree.LoadBuildGraph: the gn process is left out; its output is given as lines of text.
- BuildGraph.Build.CollapseNodes: lists of dependencies are multisets, because their order is never
  used. The report printed about libraries that can move is left out.
- RustProject.Generator.Generate: editions, flags and source paths of a crate are left out, and a rust
  target is one that has both a crate root and a crate name. The list of sysroot crates is a parameter.
- CpuperfImporter.ImportRecords: tally mode only. Sample mode, rates, last-branch records and the trace
  engine are left out; clock ticks are unbounded integers.
- Tennis.EveryRunKeepsInv: reals instead of floating point; sine, cosine and the norm are given by their
  laws, and the random serve is any accepted direction. Player names and the asynchronous service are
  left out.
- Trie.TrieNode.Options: sorting, the terminal and the pickled cache are left out.
- Completions.Completer.InsertLabel: the nested dictionaries are one tree value that is replaced, so
  sharing between them is not modelled. Reading the project file and relative labels are left out.
- TreemapParts.PopulateProcess: shares are rounded down from exact quotients, not from floating point;
  an object without any reference, on which the script stops, is not an input. Identifiers made up for
  parts are structured, so they cannot collide with one another or with those of records.
- TreemapRecords.BuildTree: only records of the three kinds the script reads are inputs. They have
  distinct identifiers and form a tree in which nothing is below a process and no kernel record below a
  job, and only kernel records have identifiers that begin with "kernel/". Names, HTML and JSON are left
  out.
- Everything else in the repository: other tools, services, drivers, the disk layout code and the
  scripts around them. The rounding and summing in the image builders would add only easy members.
