/** Tracing on one core: its running status, its live buffer, its table and its trace registers. */
module CoreTrace {
  import opened PacketTable
  import opened Topa

  /** Initialised and disabled are one value. */
  datatype Status = Disabled | Paused | Enabled

  datatype Core = Core(
    status: Status, mdl: Mdl, table: seq<TopaEntry>, tablePa: nat, mask: nat, base: nat, tracing: bool)

  /** Table 0, index 0, offset 0. */
  const FRONT_MASK: nat := 0x7F

  /** The table holds the page frames of the live buffer, and leads back to itself. */
  ghost predicate Backed(c: Core) {
    && |c.table| == |c.mdl.frames| + 1
    && c.table == Table(c.mdl.frames, c.table[|c.mdl.frames|], c.tablePa)
  }

  function PauseTrace(c: Core): Core {
    c.(tracing := false, status := Paused)
  }

  /** Sets TraceEn; works says whether the hardware then reports tracing without an error. */
  function SetTraceEn(c: Core, works: bool): Core {
    c.(tracing := works)
  }

  function EnableTrace(c: Core, works: bool): Core {
    if works then SetTraceEn(c, works).(status := Enabled) else SetTraceEn(c, works)
  }

  function ResumeTrace(c: Core, works: bool): Core {
    if c.tracing then c else EnableTrace(c, works)
  }

  /** The live buffer is handed over but stays recorded as the core's. */
  function DisableTrace(c: Core): Core {
    c.(tracing := false, status := Disabled)
  }

  datatype Unlinking = Refused | OutOfPages(core: Core) | Unlinked(core: Core, full: Mdl, size: nat)

  function Rewind(c: Core): Core {
    c.(mask := FRONT_MASK, base := c.tablePa)
  }

  /** Swaps the live buffer for freshly allocated pages and starts output at the front of the table. Running out of
      pages still rewinds the output position, with the old buffer in place. */
  function UnlinkFullTopaBuffers(c: Core, pages: Option<Mdl>): Unlinking
    requires |c.table| == |c.mdl.frames| + 1
  {
    if c.status == Enabled then Refused
    else if pages.None? then OutOfPages(Rewind(c))
    else
      var table' := Table(pages.value.frames, c.table[|c.mdl.frames|], c.tablePa);
      Unlinked(Rewind(c.(mdl := pages.value, table := table')), c.mdl, PublishedSize(c.mask))
  }

  datatype IptStatus =
    Success | InvalidParameter1 | CannotMake | InsufficientResources | NotSupported | TooManyLinks | Unsuccessful

  /** INTEL_PT_OUTPUT_OPTIONS of one core, with the registers of that core. */
  class OutputOptions {
    var runningStatus: Status
    var topaMdl: Mdl
    const topaEntries: nat
    const topaTableVa: array<TopaEntry>
    const topaTablePa: nat
    var outputMaskPtrs: nat
    var outputBase: nat
    var traceEn: bool

    ghost predicate Valid()
      reads this, topaTableVa
    {
      topaTableVa.Length == topaEntries + 1 && |topaMdl.frames| == topaEntries && Backed(State())
    }

    ghost function State(): Core
      reads this, topaTableVa
    {
      Core(runningStatus, topaMdl, topaTableVa[..], topaTablePa, outputMaskPtrs, outputBase, traceEn)
    }

    /** The record of a core whose table has been built. */
    constructor (entries: nat, table: array<TopaEntry>, tablePa: nat, pages: Mdl)
      requires table.Length == entries + 1 && |pages.frames| == entries
      requires table[..] == Table(pages.frames, table[entries], tablePa)
      ensures Valid() && topaTableVa == table && topaEntries == entries
      ensures State() == Core(Disabled, pages, table[..], tablePa, FRONT_MASK, tablePa, false)
    {
      topaEntries, topaTableVa, topaTablePa := entries, table, tablePa;
      runningStatus, outputMaskPtrs, outputBase, traceEn := Disabled, FRONT_MASK, tablePa, false;
      topaMdl := pages;
    }

    method Pause()
      requires Valid()
      modifies this`traceEn, this`runningStatus
      ensures Valid() && State() == PauseTrace(old(State()))
      ensures !traceEn && runningStatus == Paused
    {
      if traceEn {
        traceEn := false;
      }
      runningStatus := Paused;
    }

    method Enable(works: bool) returns (status: IptStatus)
      requires Valid()
      modifies this`traceEn, this`runningStatus
      ensures Valid() && State() == EnableTrace(old(State()), works)
      ensures traceEn == works && runningStatus == if works then Enabled else old(runningStatus)
      ensures status == if works then Success else Unsuccessful
    {
      traceEn := works;
      if !traceEn {
        return Unsuccessful;
      }
      runningStatus := Enabled;
      return Success;
    }

    method Resume(works: bool) returns (status: IptStatus)
      requires Valid()
      modifies this`traceEn, this`runningStatus
      ensures Valid() && State() == ResumeTrace(old(State()), works)
      ensures traceEn == (old(traceEn) || works)
      ensures runningStatus == if !old(traceEn) && works then Enabled else old(runningStatus)
      ensures status == if old(traceEn) || works then Success else Unsuccessful
    {
      status := Success;
      if !traceEn {
        status := Enable(works);
      }
    }

    method Disable() returns (mdl: Mdl, size: nat)
      requires Valid()
      modifies this`traceEn, this`runningStatus
      ensures Valid() && State() == DisableTrace(old(State()))
      ensures !traceEn && runningStatus == Disabled && outputMaskPtrs == old(outputMaskPtrs)
      ensures mdl == old(topaMdl) && size == PublishedSize(old(outputMaskPtrs))
    {
      traceEn := false;
      mdl := topaMdl;
      size := PublishedSize(outputMaskPtrs);
      runningStatus := Disabled;
    }

    /** wanted: the caller gives a place for the buffer. pages is what the page allocator will hand out. */
    method Unlink(wanted: bool, allocateNewTopa: bool, pages: Option<Mdl>, memory: PhysicalMemory)
      returns (status: IptStatus, mdl: Option<Mdl>, size: nat)
      requires Valid() && (pages.Some? ==> |pages.value.frames| == topaEntries)
      modifies this, topaTableVa, memory
      ensures Valid()
      ensures mdl == if old(runningStatus) != Enabled && wanted then Some(old(topaMdl)) else None
      ensures old(runningStatus) == Enabled ==> status == CannotMake
      ensures old(runningStatus) != Enabled && !wanted ==> status == InvalidParameter1
      ensures mdl.Some? && !allocateNewTopa ==> status == Success
      ensures mdl.None? || !allocateNewTopa ==> State() == old(State()) && memory.pages == old(memory.pages)
      ensures mdl.Some? && allocateNewTopa ==>
                match UnlinkFullTopaBuffers(old(State()), pages)
                case Refused => false
                case OutOfPages(c) =>
                  && outputMaskPtrs == 0x7F && outputBase == topaTablePa && topaMdl == old(topaMdl)
                  && status == InsufficientResources && State() == c && memory.pages == old(memory.pages)
                case Unlinked(c, was, counted) =>
                  && was == old(topaMdl) && counted == PublishedSize(old(outputMaskPtrs)) && c.mdl == pages.value
                  && outputMaskPtrs == 0x7F && outputBase == topaTablePa && runningStatus == old(runningStatus)
                  && status == Success && State() == c && mdl == Some(was) && size == counted
                  && memory.pages == Prefilled(old(memory.pages), c.mdl.frames)
    {
      size := 0;
      if runningStatus == Enabled {
        return CannotMake, None, size;
      }
      if !wanted {
        return InvalidParameter1, None, size;
      }
      status, mdl := Success, Some(topaMdl);
      if allocateNewTopa {
        var renewed := AllocateNewTopaBuffer(topaEntries, topaTableVa, topaTablePa, pages, memory);
        if renewed.Some? {
          topaMdl := renewed.value;
        } else {
          status := InsufficientResources;
        }
        size := PublishedSize(outputMaskPtrs);
        outputMaskPtrs := FRONT_MASK;
        outputBase := topaTablePa;
      }
    }
  }

  datatype Capabilities = Capabilities(topaOutput: bool, multipleEntries: bool, outputEntries: nat)

  const DEFAULT_ENTRIES: nat := 10

  function EntriesFor(caps: Capabilities): nat {
    if caps.multipleEntries then DEFAULT_ENTRIES else 1
  }

  /** tablePa: where the zeroed table was allocated, if at all. pages: what the page allocator will hand out. */
  method IptInitTopaOutput(caps: Capabilities, tablePa: Option<nat>, pages: Option<Mdl>, memory: PhysicalMemory)
    returns (status: IptStatus, options: OutputOptions?)
    requires pages.Some? ==> |pages.value.frames| == EntriesFor(caps)
    modifies memory
    ensures status == if !caps.topaOutput then NotSupported
                      else if (if caps.multipleEntries then 10 else 1) > caps.outputEntries then TooManyLinks
                      else if tablePa.None? || pages.None? then InsufficientResources
                      else Success
    ensures options != null <==> status == Success
    ensures options == null ==> memory.pages == old(memory.pages)
    ensures options != null ==>
              && fresh(options) && fresh(options.topaTableVa) && options.Valid()
              && options.topaEntries == (if caps.multipleEntries then 10 else 1)
              && memory.pages == Prefilled(old(memory.pages), pages.value.frames)
              && var s := options.State();
              && s.status == Disabled && !s.tracing && s.mdl == pages.value
              && s.mask == FRONT_MASK && s.tablePa == s.base == tablePa.value
  {
    if !caps.topaOutput {
      return NotSupported, null;
    }
    var entries := if caps.multipleEntries then DEFAULT_ENTRIES else 1;
    if entries > caps.outputEntries {
      return TooManyLinks, null;
    }
    if tablePa.None? {
      return InsufficientResources, null;
    }
    var table := new TopaEntry[entries + 1](_ => TopaEntry(false, false, false, 0, 0));
    var mdl := AllocateNewTopaBuffer(entries, table, tablePa.value, pages, memory);
    if mdl.None? {
      return InsufficientResources, null;
    }
    options := new OutputOptions(entries, table, tablePa.value, mdl.value);
    return Success, options;
  }
}
