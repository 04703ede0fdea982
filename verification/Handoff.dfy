/** Handing trace buffers from the cores to the consumers: interrupts, deferred calls, packet ids, the queue and its
    event, as interleaved atomic steps of any number of cores and consumers. */
module Handoff {
  import opened Bytes
  import opened PacketTable
  import opened Topa
  import opened CoreTrace

  const WORD: nat := 0x1_0000_0000

  /** A queued buffer description. ticket counts the ids taken in the session; id is the 32-bit counter's value. */
  datatype Item = Item(ticket: nat, id: nat, mdl: Option<Mdl>, cpu: nat, last: bool, size: nat)

  datatype Dpc = SwapDpc | DisableDpc

  /** How far the deferred call running on a core has come. */
  datatype Stage =
    | Quiet
    | Holding(mdl: Mdl, size: nat, last: bool)
    | Carrying(item: Item)
    | Signalling(last: bool)
    | Resuming
    | Checking
    | Enabling

  /** pmi: the status bit that says a region filled. irq: an interrupt waits to be taken. ready: tracing was set up.
      retired: the disable call has run. */
  datatype Proc = Proc(core: Core, dpcs: seq<Dpc>, stage: Stage, pmi: bool, irq: bool, ready: bool, retired: bool)

  /** Where a consumer stands: about to look at the queue, having found it empty, or waiting for the event. */
  datatype Wait = Asking | Empty | Waiting

  /** Who has a buffer, and what became of an id. */
  datatype Place = Live(c: nat) | Held(c: nat) | Logged(n: nat) | Lost
  datatype Fate = InHand(c: nat) | Enqueued(n: nat) | Failed

  /** ram is physical memory. The rest from log on is history: every item ever enqueued; every buffer of the session,
      the core it was for, what that core wrote into it, and whether output was rewound over it for want of pages; who
      has it; and what became of every id. */
  datatype State = State(
    procs: seq<Proc>, queue: seq<Item>, delivered: seq<Item>, event: bool, waits: seq<Wait>, started: bool, ram: Ram,
    log: seq<Item>, mdls: seq<Mdl>, homes: seq<nat>, outputs: seq<seq<byte>>, rewound: set<nat>, owner: seq<Place>,
    tickets: seq<Fate>)

  /** The last argument of a step says whether an allocation, or the hardware, obliges. A wait ends when the event is
      set, or by an alert, after which the consumer asks again. */
  datatype Action =
    | First(stored: bool)
    | Setup(c: nat, works: bool)
    | Output(c: nat, b: byte)
    | Spurious(c: nat)
    | PmiHandler(c: nat, dpc: bool)
    | AskDisable(c: nat)
    | BeginDpc(c: nat, pages: Option<Mdl>)
    | NoDto(c: nat)
    | TakeId(c: nat)
    | Enqueue(c: nat, stored: bool)
    | Signal(c: nat)
    | Resume(c: nat, works: bool)
    | CheckEnabled(c: nat)
    | MarkEnabled(c: nat)
    | Dequeue(k: nat)
    | Reset(k: nat)
    | Wake(k: nat)
    | Alert(k: nat)

  predicate OnCore(a: Action) {
    !a.First? && !OfConsumer(a)
  }

  predicate OfConsumer(a: Action) {
    a.Dequeue? || a.Reset? || a.Wake? || a.Alert?
  }

  // ------------------------------------------------------------------ what an allocator may hand out

  predicate Apart(a: seq<nat>, b: seq<nat>) {
    forall x | x in a :: x !in b
  }

  /** Pages nobody has, of the size the core's table takes. */
  predicate FreshPages(s: State, pages: Mdl, n: nat) {
    && pages.id == |s.mdls| && |pages.frames| == n && Distinct(pages.frames) && Fits(pages.frames)
    && forall i | 0 <= i < |s.mdls| :: Apart(s.mdls[i].frames, pages.frames)
  }

  // ------------------------------------------------------------------ the trace hardware

  /** The registers point into the core's own table. */
  predicate InTable(c: Core) {
    var p := PositionOf(c.mask);
    c.base == c.tablePa && p.entry + 1 < |c.table| && p.offset < RegionSize(c.table[p.entry])
  }

  /** Where one byte of output moves the registers, and whether it fills the region that interrupts. */
  function Moves(c: Core): Moved
    requires InTable(c)
  {
    Advance(c.table, c.tablePa, PositionOf(c.mask))
  }

  /** One byte, written where the core's table says. */
  function Emitted(ram: Ram, c: Core, b: byte): Ram
    requires InTable(c)
  {
    var p := PositionOf(c.mask);
    Written(ram, c.table[p.entry].base + p.offset / PAGE_SIZE, p.offset % PAGE_SIZE, b)
  }

  // ------------------------------------------------------------------ steps

  predicate Can(s: State, a: Action) {
    if a.First? then !s.started
    else if OfConsumer(a) then
      && a.k < |s.waits|
      && (a.Dequeue? ==> s.waits[a.k] == Asking)
      && (a.Reset? ==> s.waits[a.k] == Empty)
      && (a.Wake? ==> s.waits[a.k] == Waiting && s.event)
      && (a.Alert? ==> s.waits[a.k] == Waiting)
    else
      a.c < |s.procs| &&
      var p := s.procs[a.c];
      match a
      case Setup(_, _) => s.started && !p.ready && !p.retired && p.stage.Quiet? && DisableDpc !in p.dpcs
      case Output(_, _) => p.core.tracing && InTable(p.core) && Moves(p.core).to.Some?
      case Spurious(_) => true
      case PmiHandler(_, _) => p.irq
      case AskDisable(_) => s.started && !p.retired && DisableDpc !in p.dpcs
      case BeginDpc(_, pages) =>
        && p.stage.Quiet? && p.dpcs != [] && |p.core.table| == |p.core.mdl.frames| + 1
        && (pages.Some? ==> FreshPages(s, pages.value, |p.core.mdl.frames|))
      case NoDto(_) => p.stage.Holding?
      case TakeId(_) => p.stage.Holding?
      case Enqueue(_, _) => p.stage.Carrying?
      case Signal(_) => p.stage.Signalling?
      case Resume(_, _) => p.stage.Resuming?
      case CheckEnabled(_) => p.stage.Checking?
      case MarkEnabled(_) => p.stage.Enabling?
      case _ => false
  }

  /** What becomes of the core a step runs on. */
  function ProcAfter(s: State, a: Action): Proc
    requires OnCore(a) && Can(s, a)
  {
    var p := s.procs[a.c];
    match a
    case Setup(_, works) =>
      p.(core := SetTraceEn(Rewind(p.core), works), stage := Checking, ready := true)
    case Output(_, _) =>
      var m := Moves(p.core);
      p.(core := p.core.(mask := Register(m.to.value)), pmi := p.pmi || m.interrupt, irq := p.irq || m.interrupt)
    case Spurious(_) => p.(irq := true)
    case PmiHandler(_, dpc) =>
      if !p.pmi then p.(irq := false)
      else p.(irq := false, core := PauseTrace(p.core), dpcs := if dpc then p.dpcs + [SwapDpc] else p.dpcs)
    case AskDisable(_) => p.(dpcs := p.dpcs + [DisableDpc])
    case BeginDpc(_, pages) =>
      var q := p.(dpcs := p.dpcs[1..]);
      if p.dpcs[0] == DisableDpc then
        q.(core := DisableTrace(p.core), retired := true,
           stage := Holding(p.core.mdl, PublishedSize(p.core.mask), true))
      else
        (match UnlinkFullTopaBuffers(p.core, pages)
         case Refused => q
         case OutOfPages(core) => q.(core := core)
         case Unlinked(core, full, size) => q.(core := core, stage := Holding(full, size, false)))
    case NoDto(_) => p.(stage := Quiet)
    case TakeId(_) => p.(stage := Carrying(Stamp(s, a.c)))
    case Enqueue(_, stored) =>
      p.(stage := if stored then Signalling(p.stage.item.last) else if p.stage.item.last then Quiet else Resuming)
    case Signal(_) => p.(stage := if p.stage.last then Quiet else Resuming)
    case Resume(_, works) =>
      var q := p.(pmi := false);
      if p.core.tracing then q.(stage := Quiet)
      else q.(core := SetTraceEn(p.core, works), stage := Checking)
    case CheckEnabled(_) => p.(stage := if p.core.tracing then Enabling else Quiet)
    case MarkEnabled(_) => p.(core := p.core.(status := Enabled), stage := Quiet)
  }

  /** The item a core's deferred call makes once it has taken an id. */
  function Stamp(s: State, c: nat): Item
    requires c < |s.procs| && s.procs[c].stage.Holding?
  {
    var h := s.procs[c].stage;
    Item(|s.tickets|, |s.tickets| % WORD, Some(h.mdl), c, h.last, h.size)
  }

  function Put<T>(s: seq<T>, i: nat, x: T): (r: seq<T>)
    ensures |r| == |s|
  {
    if i < |s| then s[i := x] else s
  }

  /** Whether a step takes a full buffer off its core, and whether it puts a fresh one there. */
  predicate Takes(s: State, a: Action) {
    a.BeginDpc? && Can(s, a) && ProcAfter(s, a).stage.Holding?
  }

  predicate Swaps(s: State, a: Action) {
    Takes(s, a) && s.procs[a.c].dpcs[0] == SwapDpc
  }

  /** A swap that finds no pages. */
  predicate RunsOut(s: State, a: Action) {
    && a.BeginDpc? && Can(s, a) && s.procs[a.c].dpcs[0] == SwapDpc
    && s.procs[a.c].core.status != Enabled && a.pages.None?
  }

  function Append(s: State, item: Item): State {
    s.(queue := s.queue + [item], log := s.log + [item])
  }

  function DoOnCore(s: State, a: Action): State
    requires OnCore(a) && Can(s, a)
  {
    var p, q := s.procs[a.c], ProcAfter(s, a);
    var t := s.(procs := s.procs[a.c := q]);
    if a.Output? then
      var id := p.core.mdl.id;
      t.(ram := Emitted(s.ram, p.core, a.b),
         outputs := if id < |s.outputs| then Put(s.outputs, id, s.outputs[id] + [a.b]) else s.outputs)
    else if a.BeginDpc? then
      if RunsOut(s, a) then t.(rewound := s.rewound + {p.core.mdl.id})
      else if !Takes(s, a) then t
      else
        var owner := Put(s.owner, p.core.mdl.id, Held(a.c));
        if Swaps(s, a) then
          t.(mdls := s.mdls + [q.core.mdl], homes := s.homes + [a.c], outputs := s.outputs + [[]],
             owner := owner + [Live(a.c)], ram := Prefilled(s.ram, q.core.mdl.frames))
        else t.(owner := owner)
    else if a.NoDto? then t.(owner := Put(s.owner, p.stage.mdl.id, Lost))
    else if a.TakeId? then t.(tickets := s.tickets + [InHand(a.c)])
    else if a.Enqueue? then
      var item := p.stage.item;
      var place := if a.stored then Logged(|s.log|) else Lost;
      var fate := if a.stored then Enqueued(|s.log|) else Failed;
      var u := t.(owner := if item.mdl.Some? then Put(s.owner, item.mdl.value.id, place) else s.owner,
                  tickets := Put(s.tickets, item.ticket, fate));
      if a.stored then Append(u, item) else u
    else if a.Signal? then t.(event := true)
    else t
  }

  function DoFirst(s: State, stored: bool): State {
    var item := Item(|s.tickets|, |s.tickets| % WORD, None, 0, false, 0);
    var t := s.(started := true, tickets := s.tickets + [if stored then Enqueued(|s.log|) else Failed]);
    if stored then Append(t, item) else t
  }

  function DoConsumer(s: State, a: Action): State
    requires OfConsumer(a) && Can(s, a)
  {
    if a.Dequeue? then
      if s.queue == [] then s.(waits := s.waits[a.k := Empty])
      else s.(queue := s.queue[1..], delivered := s.delivered + [s.queue[0]])
    else if a.Reset? then s.(event := false, waits := s.waits[a.k := Waiting])
    else s.(waits := s.waits[a.k := Asking])
  }

  function Do(s: State, a: Action): State
    requires Can(s, a)
  {
    if a.First? then DoFirst(s, a.stored)
    else if OfConsumer(a) then DoConsumer(s, a)
    else DoOnCore(s, a)
  }

  /** Any finite run. */
  predicate CanAll(s: State, run: seq<Action>)
    decreases |run|
  {
    run == [] || (Can(s, run[0]) && CanAll(Do(s, run[0]), run[1..]))
  }

  function DoAll(s: State, run: seq<Action>): State
    requires CanAll(s, run)
    decreases |run|
  {
    if run == [] then s else DoAll(Do(s, run[0]), run[1..])
  }

  // ------------------------------------------------------------------ the start of a session

  predicate AtRest(p: Proc) {
    && p.core.status == Disabled && !p.core.tracing && p.dpcs == [] && p.stage.Quiet?
    && !p.pmi && !p.irq && !p.ready && !p.retired
  }

  /** A buffer the allocators can give out: not empty, its byte count in 32 bits, its frames in their field. */
  predicate Sized(m: Mdl) {
    0 < |m.frames| <= MAX_ENTRIES && Distinct(m.frames) && Fits(m.frames)
  }

  /** The table lies on a page boundary, as the base register demands. */
  predicate TableAligned(c: Core) {
    c.tablePa % PAGE_SIZE == 0 && c.tablePa < 0x1_0000_0000_0000_0000
  }

  ghost predicate Init(s: State) {
    && !s.started && s.queue == s.delivered == s.log == [] && s.tickets == []
    && |s.mdls| == |s.procs| && |s.owner| == |s.procs| && |s.outputs| == |s.procs|
    && |s.homes| == |s.procs| && s.rewound == {}
    && (forall c | 0 <= c < |s.procs| :: AtRest(s.procs[c]) && Backed(s.procs[c].core) && TableAligned(s.procs[c].core))
    && (forall c | 0 <= c < |s.procs| :: s.procs[c].core.mdl == s.mdls[c] && s.mdls[c].id == c && s.owner[c] == Live(c))
    && (forall c | 0 <= c < |s.procs| :: Sized(s.mdls[c]) && s.outputs[c] == [] && s.homes[c] == c)
    && (forall c | 0 <= c < |s.procs| :: Contents(s.ram, s.mdls[c].frames) == Filled(|s.mdls[c].frames| * PAGE_SIZE))
    && (forall i, j | 0 <= i < j < |s.mdls| :: Apart(s.mdls[i].frames, s.mdls[j].frames))
  }

  /** The disable call may start on a core only when no swap of that core is still to come: none queued behind it,
      and no region reported full. */
  predicate Calm(s: State, a: Action) {
    a.BeginDpc? && Can(s, a) && s.procs[a.c].dpcs[0] == DisableDpc
    ==> SwapDpc !in s.procs[a.c].dpcs[1..] && !s.procs[a.c].pmi
  }

  predicate CalmAll(s: State, run: seq<Action>)
    requires CanAll(s, run)
    decreases |run|
  {
    run == [] || (Calm(s, run[0]) && CalmAll(Do(s, run[0]), run[1..]))
  }

  // ------------------------------------------------------------------ invariants of one core

  /** The deferred call in progress works on the last buffer of the session. */
  predicate IsLast(g: Stage) {
    match g
    case Holding(_, _, last) => last
    case Carrying(item) => item.last
    case Signalling(last) => last
    case _ => false
  }

  /** A swap has taken the buffer and has not yet resumed tracing. */
  predicate Swapping(g: Stage) {
    (g.Holding? || g.Carrying? || g.Signalling? || g.Resuming?) && !IsLast(g)
  }

  /** TraceEn has been written and the running status has not. */
  predicate Starting(g: Stage) {
    g.Checking? || g.Enabling?
  }

  /** Disabling is asked for at most once. */
  predicate OneDisable(dpcs: seq<Dpc>) {
    forall i, j | 0 <= i < j < |dpcs| :: dpcs[i] == SwapDpc || dpcs[j] == SwapDpc
  }

  ghost predicate Sound(p: Proc) {
    && Backed(p.core) && OneDisable(p.dpcs)
    && (p.core.tracing ==> (p.core.status == Enabled || Starting(p.stage)) && p.ready && !p.retired)
    && (Swapping(p.stage) ==> !p.core.tracing && p.ready && !p.retired)
    && (Swapping(p.stage) ==> p.core.mask == FRONT_MASK && p.core.base == p.core.tablePa)
    && (IsLast(p.stage) ==> p.retired)
    && (Starting(p.stage) ==> p.ready && !p.retired)
    && (p.retired ==> !p.core.tracing && p.dpcs == [] && !p.pmi && (p.stage.Quiet? || IsLast(p.stage)))
    && (!p.ready ==> SwapDpc !in p.dpcs && !p.pmi)
  }

  lemma SecondIsSwap(dpcs: seq<Dpc>)
    requires OneDisable(dpcs) && |dpcs| > 1 && dpcs[0] == DisableDpc
    ensures SwapDpc in dpcs[1..]
  {
    assert dpcs[1..][0] == dpcs[1] && dpcs[1] in dpcs[1..];
  }

  lemma CalmDisableEmpties(dpcs: seq<Dpc>)
    requires OneDisable(dpcs) && dpcs != [] && dpcs[0] == DisableDpc && SwapDpc !in dpcs[1..]
    ensures dpcs[1..] == []
  {
    if |dpcs| > 1 {
      SecondIsSwap(dpcs);
    }
  }

  lemma SoundBegin(s: State, a: Action)
    requires a.BeginDpc? && Can(s, a) && Calm(s, a) && Sound(s.procs[a.c])
    ensures Sound(ProcAfter(s, a))
  {
    var p := s.procs[a.c];
    assert OneDisable(p.dpcs[1..]);
    if p.dpcs[0] == DisableDpc {
      CalmDisableEmpties(p.dpcs);
    } else {
      assert SwapDpc in p.dpcs;
    }
  }

  /** Every step on a core keeps its invariant, where disabling is calm. */
  lemma SoundStep(s: State, a: Action)
    requires OnCore(a) && Can(s, a) && Calm(s, a) && Sound(s.procs[a.c])
    ensures Sound(ProcAfter(s, a))
  {
    if a.BeginDpc? {
      SoundBegin(s, a);
    }
  }

  /** A buffer leaves its core only while tracing is off there, and a swap puts the fresh one in at the front. */
  lemma SwapOnlyWhilePaused(s: State, a: Action)
    requires Can(s, a) && Swaps(s, a) && Sound(s.procs[a.c])
    ensures var p, q := s.procs[a.c], Do(s, a).procs[a.c];
            && !p.core.tracing && !q.core.tracing
            && a.pages == Some(q.core.mdl) && Backed(q.core)
            && q.core.mask == FRONT_MASK && q.core.base == q.core.tablePa
  {
  }

  /** When tracing is set up, or comes back after a swap, it is on the core's buffer, at entry 0, offset 0. */
  lemma ResumeAtFront(s: State, a: Action)
    requires Can(s, a) && (a.Setup? || a.Resume?) && a.works && Sound(s.procs[a.c])
    ensures var p, q := s.procs[a.c], Do(s, a).procs[a.c];
            && q.core.tracing && q.core.mdl == p.core.mdl
            && q.core.mask == FRONT_MASK && q.core.base == q.core.tablePa && Backed(q.core)
  {
  }

  // ------------------------------------------------------------------ interrupts without a full region

  function SwapCount(dpcs: seq<Dpc>): nat {
    if dpcs == [] then 0 else (if dpcs[0] == SwapDpc then 1 else 0) + SwapCount(dpcs[1..])
  }

  lemma {:induction false} SwapCountAppend(dpcs: seq<Dpc>, d: Dpc)
    ensures SwapCount(dpcs + [d]) == SwapCount(dpcs) + (if d == SwapDpc then 1 else 0)
  {
    if dpcs == [] {
      assert [d][1..] == [];
    } else {
      assert (dpcs + [d])[1..] == dpcs[1..] + [d];
      SwapCountAppend(dpcs[1..], d);
    }
  }

  lemma {:induction false} SwapCountZero(dpcs: seq<Dpc>)
    ensures SwapCount(dpcs) == 0 <==> SwapDpc !in dpcs
  {
    if dpcs != [] {
      SwapCountZero(dpcs[1..]);
      assert dpcs == [dpcs[0]] + dpcs[1..];
    }
  }

  /** Swap calls of a core: queued or running. */
  function SwapCalls(p: Proc): nat {
    SwapCount(p.dpcs) + if Swapping(p.stage) then 1 else 0
  }

  /** The handler queues a swap while another is queued or running. */
  predicate Doubles(s: State, a: Action)
    requires Can(s, a)
  {
    a.PmiHandler? && a.dpc && s.procs[a.c].pmi && SwapCalls(s.procs[a.c]) == 1
  }

  /** From at most one swap call a step comes to more exactly when the handler runs and queues one on top of it. */
  lemma OneSwapIff(s: State, a: Action)
    requires OnCore(a) && Can(s, a) && SwapCalls(s.procs[a.c]) <= 1
    ensures SwapCalls(ProcAfter(s, a)) <= 1 <==> !Doubles(s, a)
  {
    var p := s.procs[a.c];
    SwapCountAppend(p.dpcs, SwapDpc);
    SwapCountAppend(p.dpcs, DisableDpc);
  }

  /** Swap calls, and one that a waiting interrupt is about to queue because a region is reported full. */
  function Outstanding(p: Proc): nat {
    SwapCalls(p) + if p.irq && p.pmi then 1 else 0
  }

  /** At most one swap, and none queued or running while the core traces. */
  ghost predicate OneSwap(p: Proc) {
    Outstanding(p) <= 1 && (p.core.tracing ==> SwapDpc !in p.dpcs && !Swapping(p.stage))
  }

  /** An interrupt from elsewhere comes while the swap for a region reported full is on its way. */
  predicate Intrudes(s: State, a: Action)
    requires Can(s, a)
  {
    a.Spurious? && var p := s.procs[a.c]; p.pmi && !p.irq && Outstanding(p) == 1
  }

  /** Only such an interrupt can ever lead the handler to queue a swap on top of another. */
  lemma OneSwapStep(s: State, a: Action)
    requires OnCore(a) && Can(s, a) && Calm(s, a) && Sound(s.procs[a.c]) && OneSwap(s.procs[a.c])
    ensures OneSwap(ProcAfter(s, a)) <==> !Intrudes(s, a)
  {
    var p := s.procs[a.c];
    SwapCountAppend(p.dpcs, SwapDpc);
    SwapCountAppend(p.dpcs, DisableDpc);
    SwapCountZero(p.dpcs);
    SwapCountZero(ProcAfter(s, a).dpcs);
  }

  // ------------------------------------------------------------------ tracing that does not come back

  /** Set up, not tracing, and nothing on its way that would start it again. */
  predicate Stalled(p: Proc) {
    p.ready && !p.core.tracing && !(p.irq && p.pmi) && SwapDpc !in p.dpcs && !Swapping(p.stage)
  }

  /** A disable call starts. */
  predicate Retires(s: State, a: Action)
    requires Can(s, a)
  {
    a.BeginDpc? && s.procs[a.c].dpcs[0] == DisableDpc
  }

  /** The ways a core comes to stall other than by being disabled, with nothing else on its way to start it. */
  predicate Stalls(s: State, a: Action)
    requires OnCore(a) && Can(s, a)
  {
    var p := s.procs[a.c];
    match a
    case Setup(_, works) => !works
    case PmiHandler(_, dpc) => p.pmi && !dpc && SwapDpc !in p.dpcs && !Swapping(p.stage)
    case BeginDpc(_, pages) =>
      && p.dpcs[0] == SwapDpc && SwapDpc !in p.dpcs[1..] && !(p.irq && p.pmi)
      && (if p.core.status == Enabled then !p.core.tracing else pages.None?)
    case NoDto(_) => !p.stage.last && SwapDpc !in p.dpcs && !(p.irq && p.pmi)
    case Resume(_, works) => !works && SwapDpc !in p.dpcs
    case _ => false
  }

  /** A core stalls exactly when: the hardware does not start; the interrupt handler finds no memory for its deferred
      call; a swap is refused because the status is ahead of the hardware, or finds no pages, or no memory for its
      description, always with no other swap on its way; or tracing is disabled. */
  lemma StallsIff(s: State, a: Action)
    requires OnCore(a) && Can(s, a) && Calm(s, a) && Sound(s.procs[a.c]) && !Stalled(s.procs[a.c])
    ensures Stalled(ProcAfter(s, a)) <==> Stalls(s, a) || (Retires(s, a) && s.procs[a.c].ready)
  {
  }

  /** A stalled core stays so under every step but an interrupt from elsewhere while a region is still reported full. */
  lemma StalledStaysIff(s: State, a: Action)
    requires OnCore(a) && Can(s, a) && Sound(s.procs[a.c]) && Stalled(s.procs[a.c])
    ensures Stalled(ProcAfter(s, a)) <==> !(a.Spurious? && s.procs[a.c].pmi)
  {
    var p := s.procs[a.c];
    if a.BeginDpc? {
      assert p.dpcs[0] in p.dpcs;
      assert forall d | d in p.dpcs[1..] :: d in p.dpcs;
    }
  }

  /** A disabled core takes none of the steps that stall one. */
  lemma RetiredIsPast(s: State, a: Action)
    requires OnCore(a) && Can(s, a) && Sound(s.procs[a.c]) && s.procs[a.c].retired
    ensures !Stalls(s, a) && ProcAfter(s, a).retired
  {
  }

  /** A region reported full is handled after the check that tracing is on and before the running status says so. */
  predicate Late(s: State, a: Action)
    requires OnCore(a) && Can(s, a)
  {
    a.PmiHandler? && s.procs[a.c].pmi && s.procs[a.c].stage.Enabling?
  }

  /** No allocation that a swap needs fails, and the hardware starts when asked. */
  predicate Obliging(s: State, a: Action)
    requires OnCore(a) && Can(s, a)
  {
    match a
    case Setup(_, works) => works
    case PmiHandler(_, dpc) => dpc
    case BeginDpc(_, pages) => !Retires(s, a) ==> pages.Some?
    case NoDto(_) => s.procs[a.c].stage.last
    case Resume(_, works) => works
    case _ => true
  }

  /** Set up and not disabled, a core traces or has a swap on its way; and the status is never ahead. */
  ghost predicate Alive(p: Proc) {
    && (p.ready && !p.retired ==> !Stalled(p))
    && (p.core.status == Enabled ==> p.core.tracing) && (p.stage.Enabling? ==> p.core.tracing)
  }

  lemma AliveStep(s: State, a: Action)
    requires OnCore(a) && Can(s, a) && Obliging(s, a) && !Late(s, a) && Sound(s.procs[a.c]) && Alive(s.procs[a.c])
    ensures Alive(ProcAfter(s, a))
  {
    var p := s.procs[a.c];
    if a.BeginDpc? {
      assert p.dpcs == [p.dpcs[0]] + p.dpcs[1..];
    }
  }

  lemma OnlyThisCore(s: State, a: Action)
    requires OnCore(a) && Can(s, a)
    ensures Do(s, a).procs == s.procs[a.c := ProcAfter(s, a)]
  {
  }

  // ------------------------------------------------------------------ runs, put together

  lemma {:induction false} Then(s: State, a: seq<Action>, b: seq<Action>)
    requires CanAll(s, a) && CanAll(DoAll(s, a), b)
    ensures CanAll(s, a + b) && DoAll(s, a + b) == DoAll(DoAll(s, a), b)
    decreases |a|
  {
    if a == [] {
      assert a + b == b;
    } else {
      assert (a + b)[1..] == a[1..] + b;
      Then(Do(s, a[0]), a[1..], b);
    }
  }

  lemma One(s: State, a: Action)
    requires Can(s, a)
    ensures CanAll(s, [a]) && DoAll(s, [a]) == Do(s, a)
  {
    assert [a][1..] == [];
    assert CanAll(Do(s, a), []) && DoAll(Do(s, a), []) == Do(s, a);
  }
}
