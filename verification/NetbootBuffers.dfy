/**
 The memory a target hands out for a file: netboot_get_buffer in netsvc and in the zircon
 bootloader. Both know three file names. netsvc maps as many bytes as were announced; in the
 bootloader the kernel and the command line have fixed buffers, and the ramdisk a buffer of whole
 pages that is kept while it is large enough.
 */
module NetbootBuffers {
  import opened Basics

  datatype Program = Netsvc | ZirconBootloader

  datatype Kind = Kernel | Ramdisk | Cmdline

  const NB_KERNEL_FILENAME := "<<netboot>>kernel.bin"
  const NB_RAMDISK_FILENAME := "<<netboot>>ramdisk.bin"
  const NB_CMDLINE_FILENAME := "<<netboot>>cmdline"

  const PAGE_SIZE: nat := 4096
  const KBUFSIZE: nat := 32 * 1024 * 1024
  const RBUFSIZE: nat := 512 * 1024 * 1024
  const CMDLINE_MAX: nat := PAGE_SIZE

  // A C string with its terminating NUL.
  function Terminated(s: string): seq<byte> {
    seq(|s| + 1, i requires 0 <= i <= |s| => if i < |s| then s[i] as int % 256 else 0)
  }

  predicate IsAscii(s: string) {
    forall i | 0 <= i < |s| :: s[i] as int < 128
  }

  lemma TerminatedIsInjective(s: string, t: string)
    requires IsAscii(s) && IsAscii(t)
    ensures Terminated(s) == Terminated(t) <==> s == t
  {
    if Terminated(s) == Terminated(t) {
      assert |Terminated(s)| == |s| + 1 && |Terminated(t)| == |t| + 1;
      forall i | 0 <= i < |s|
        ensures s[i] == t[i]
      {
        assert Terminated(s)[i] == s[i] as int && Terminated(t)[i] == t[i] as int;
      }
    }
  }

  // Which of three names it is.
  function Match(name: seq<byte>, kernel: seq<byte>, ramdisk: seq<byte>, cmdline: seq<byte>): Option<Kind> {
    if name == kernel then Some(Kernel)
    else if name == ramdisk then Some(Ramdisk)
    else if name == cmdline then Some(Cmdline)
    else None
  }

  function KindOf(name: seq<byte>): Option<Kind> {
    Match(name, Terminated(NB_KERNEL_FILENAME), Terminated(NB_RAMDISK_FILENAME), Terminated(NB_CMDLINE_FILENAME))
  }

  lemma MatchIs(s: string, kernel: string, ramdisk: string, cmdline: string)
    requires IsAscii(s) && IsAscii(kernel) && IsAscii(ramdisk) && IsAscii(cmdline)
    ensures Match(Terminated(s), Terminated(kernel), Terminated(ramdisk), Terminated(cmdline)) ==
      if s == kernel then Some(Kernel) else if s == ramdisk then Some(Ramdisk)
      else if s == cmdline then Some(Cmdline) else None
  {
    TerminatedIsInjective(s, kernel);
    TerminatedIsInjective(s, ramdisk);
    TerminatedIsInjective(s, cmdline);
  }

  function PageRounded(size: nat): (r: nat)
    ensures size <= r < size + PAGE_SIZE && r % PAGE_SIZE == 0
  {
    (size + PAGE_SIZE - 1) / PAGE_SIZE * PAGE_SIZE
  }

  // How much memory may be handed out for an announced size.
  predicate CanOffer(program: Program, kind: Option<Kind>, size: nat, capacity: nat) {
    match program
    case Netsvc => kind.Some? && capacity == size
    case ZirconBootloader =>
      match kind
      case None => false
      case Some(Kernel) => capacity == KBUFSIZE
      case Some(Cmdline) => capacity == CMDLINE_MAX
      case Some(Ramdisk) => capacity >= if size > 0 then PageRounded(size) else RBUFSIZE
  }

  // Mapping or allocating memory can fail; the fixed buffers are always there.
  predicate CanRefuse(program: Program, kind: Option<Kind>) {
    kind.None? || program.Netsvc? || kind == Some(Ramdisk)
  }

  // The outcomes of netboot_get_buffer, with what the memory holds: zeros when it is newly mapped.
  predicate Offers(program: Program, kind: Option<Kind>, size: nat, memory: Option<seq<byte>>) {
    match memory
    case None => CanRefuse(program, kind)
    case Some(m) =>
      CanOffer(program, kind, size, |m|) && (program.Netsvc? ==> forall i | 0 <= i < |m| :: m[i] == 0)
  }

  // Memory for the announced size is to be had.
  predicate HasRoom(program: Program, kind: Option<Kind>, size: nat) {
    match program
    case Netsvc => kind.Some?
    case ZirconBootloader =>
      match kind
      case None => false
      case Some(Kernel) => size <= KBUFSIZE
      case Some(Cmdline) => size <= CMDLINE_MAX
      case Some(Ramdisk) => true
  }

  // There is room exactly when something handed out is large enough, and then all of it is.
  lemma RoomIff(program: Program, kind: Option<Kind>, size: nat)
    ensures HasRoom(program, kind, size) <==>
      exists capacity: nat :: CanOffer(program, kind, size, capacity) && size <= capacity
    ensures forall capacity: nat | CanOffer(program, kind, size, capacity) ::
      HasRoom(program, kind, size) <==> size <= capacity
  {
    if HasRoom(program, kind, size) {
      var memory := SomeOffer(program, kind, size);
      assert CanOffer(program, kind, size, |memory.value|);
    }
  }

  // An outcome there can be, with memory for a known name.
  lemma SomeOffer(program: Program, kind: Option<Kind>, size: nat) returns (memory: Option<seq<byte>>)
    ensures Offers(program, kind, size, memory) && (memory.Some? <==> kind.Some?)
    ensures HasRoom(program, kind, size) ==> memory.Some? && size <= |memory.value|
  {
    if kind.None? {
      memory := None;
    } else {
      var capacity :=
        if program.Netsvc? then size
        else if kind.value.Kernel? then KBUFSIZE
        else if kind.value.Cmdline? then CMDLINE_MAX
        else if size > 0 then PageRounded(size) else RBUFSIZE;
      memory := Some(seq(capacity, i => 0));
    }
  }

  ghost function Contents(buffer: array?<byte>): Option<seq<byte>>
    reads buffer
  {
    if buffer == null then None else Some(buffer[..])
  }

  // netboot_get_buffer in netsvc; `maps` says whether the memory could be mapped.
  method NetsvcBuffer(name: seq<byte>, size: nat, maps: bool) returns (buffer: array?<byte>)
    ensures buffer != null ==> fresh(buffer)
    ensures Offers(Netsvc, KindOf(name), size, Contents(buffer))
    ensures buffer != null <==> maps && KindOf(name).Some?
  {
    buffer := null;
    if KindOf(name).Some? && maps {
      buffer := new byte[size](i => 0);
    }
  }

  /** The buffers of the zircon bootloader; an empty ramdisk is one that is not allocated. */
  class LoaderBuffers {
    const kernel: array<byte>
    const cmdline: array<byte>
    var ramdisk: array<byte>

    ghost predicate Valid()
      reads this
    {
      kernel.Length == KBUFSIZE && cmdline.Length == CMDLINE_MAX
    }

    constructor ()
      ensures Valid() && fresh(kernel) && fresh(cmdline) && fresh(ramdisk) && ramdisk.Length == 0
    {
      kernel := new byte[KBUFSIZE];
      cmdline := new byte[CMDLINE_MAX];
      ramdisk := new byte[0];
    }

    // netboot_get_buffer; `frees` and `allocates` say whether memory could be freed and allocated.
    method GetBuffer(name: seq<byte>, size: nat, frees: bool, allocates: bool) returns (buffer: array?<byte>)
      requires Valid()
      modifies this`ramdisk
      ensures Valid() && Offers(ZirconBootloader, KindOf(name), size, Contents(buffer))
      ensures KindOf(name) == Some(Kernel) ==> buffer == kernel
      ensures KindOf(name) == Some(Cmdline) ==> buffer == cmdline
      ensures KindOf(name) == None ==> buffer == null
      ensures KindOf(name) == Some(Ramdisk) ==>
        var need, had := if size > 0 then PageRounded(size) else RBUFSIZE, old(ramdisk).Length;
        if had > 0 && had >= need then buffer == ramdisk == old(ramdisk)
        else if allocates && (had == 0 || frees) then buffer == ramdisk && fresh(ramdisk) && ramdisk.Length == need
        else buffer == null && ramdisk.Length == 0
      ensures ramdisk == old(ramdisk) || fresh(ramdisk)
    {
      buffer := null;
      match KindOf(name) {
        case None =>
        case Some(Kernel) => buffer := kernel;
        case Some(Cmdline) => buffer := cmdline;
        case Some(Ramdisk) =>
          var bufSize := if size > 0 then PageRounded(size) else RBUFSIZE;
          if ramdisk.Length > 0 {
            if ramdisk.Length >= bufSize {
              return ramdisk;
            }
            ramdisk := new byte[0];
            if !frees {
              return;
            }
          }
          if allocates {
            ramdisk := new byte[bufSize];
            buffer := ramdisk;
          }
      }
    }
  }
}
