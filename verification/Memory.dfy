/** What the buffers hold: exactly what their cores wrote while they were live, laid over the prefill. */
module Memory {
  import opened Bytes
  import opened PacketTable
  import opened Topa
  import opened CoreTrace
  import opened Handoff
  import opened Ownership

  function SizeOf(m: Mdl): nat {
    |m.frames| * PAGE_SIZE
  }

  lemma SizePositive(m: Mdl)
    requires Sized(m)
    ensures 0 < SizeOf(m)
  {
  }

  /** Buffer i holds its output laid round its prefill. */
  ghost predicate Holds(s: State, i: nat)
    requires i < |s.mdls| == |s.outputs|
  {
    && Sized(s.mdls[i]) && 0 < SizeOf(s.mdls[i])
    && Contents(s.ram, s.mdls[i].frames) == Laid(SizeOf(s.mdls[i]), s.outputs[i])
  }

  ghost predicate AllHold(s: State) {
    && |s.mdls| == |s.outputs| && (forall i | 0 <= i < |s.mdls| :: Holds(s, i))
    && forall i | i in s.rewound :: i < |s.mdls|
  }

  /** A core that has written k bytes to its live buffer: its registers stand right behind them, or at the front again
      once a swap has run out of pages; while it traces, the region before the last is reported full exactly when it has
      been filled; before set-up and during a swap nothing has been written. */
  predicate Stands(p: Proc, k: nat, rewound: bool) {
    var n := |p.core.mdl.frames|;
    && 0 < n && TableAligned(p.core)
    && (!p.ready || Swapping(p.stage) ==> k == 0 && !rewound)
    && (p.ready ==> p.core.base == p.core.tablePa)
    && (p.ready ==> p.core.mask == if rewound then FRONT_MASK else Register(Around(n, k)))
    && (p.core.tracing ==> !rewound && (p.pmi <==> 2 <= n && (n - 1) * PAGE_SIZE <= k))
  }

  /** Until core c is disabled it stands right behind its output. */
  ghost predicate Aimed(s: State, c: nat)
    requires c < |s.procs|
  {
    var p := s.procs[c];
    var i := p.core.mdl.id;
    !p.retired ==> i < |s.outputs| && Stands(p, |s.outputs[i]|, i in s.rewound)
  }

  ghost predicate AllAimed(s: State) {
    forall c | 0 <= c < |s.procs| :: Aimed(s, c)
  }

  ghost predicate Faithful(s: State) {
    AllHold(s) && AllAimed(s)
  }

  lemma InitFaithful(s: State)
    requires Init(s)
    ensures Faithful(s)
  {
    forall i | 0 <= i < |s.mdls| ensures Holds(s, i) {
      SizePositive(s.mdls[i]);
    }
  }

  // ------------------------------------------------------------------ one byte of output

  /** Where a tracing core stands in its own ring. */
  lemma Standing(s: State, c: nat)
    requires Good(s) && Faithful(s) && c < |s.procs| && s.procs[c].core.tracing
    ensures var core := s.procs[c].core;
            var i, n := core.mdl.id, |core.mdl.frames|;
            && i < |s.mdls| == |s.outputs| && s.mdls[i] == core.mdl && s.owner[i] == Live(c) && 0 < n <= MAX_ENTRIES
            && IsRing(core.table, core.mdl.frames, core.tablePa)
            && PositionOf(core.mask) == Around(n, |s.outputs[i]|) && InTable(core) && TableAligned(core)
            && Around(n, |s.outputs[i]|).entry < n
            && i !in s.rewound && Stands(s.procs[c], |s.outputs[i]|, false)
  {
    var core := s.procs[c].core;
    var i := core.mdl.id;
    assert Belongs(s, core.mdl, Live(c));
    assert Holds(s, i) && Aimed(s, c);
    TableIsRing(core.mdl.frames, core.table[|core.mdl.frames|], core.tablePa);
    PlaceInBuffer(|core.mdl.frames|, |s.outputs[i]|);
    PositionOfRegister(Around(|core.mdl.frames|, |s.outputs[i]|));
  }

  /** The registers move on round the ring, and the interrupt comes exactly when the last region but one is full. */
  lemma MovesOn(c: Core, k: nat)
    requires InTable(c) && IsRing(c.table, c.mdl.frames, c.tablePa) && TableAligned(c) && |c.mdl.frames| <= MAX_ENTRIES
    requires PositionOf(c.mask) == Around(|c.mdl.frames|, k)
    ensures var n := |c.mdl.frames|;
            && Moves(c).to == Some(Around(n, k + 1))
            && (Moves(c).interrupt <==> 2 <= n && (k + 1) % PAGE_SIZE == 0 && (k + 1) / PAGE_SIZE % n == n - 1)
  {
    WalkIsAround(c.table, c.mdl.frames, c.tablePa, k);
    WalkIsAround(c.table, c.mdl.frames, c.tablePa, k + 1);
    OneInterruptPerLap(c.table, c.mdl.frames, c.tablePa, k + 1);
  }

  /** So the hardware can always write the next byte: output never leaves the core's own table. */
  lemma OutputNeverBlocked(s: State, c: nat, b: byte)
    requires Good(s) && Faithful(s) && c < |s.procs| && s.procs[c].core.tracing
    ensures Can(s, Output(c, b))
  {
    Standing(s, c);
    MovesOn(s.procs[c].core, |s.outputs[s.procs[c].core.mdl.id]|);
  }

  /** One more byte, laid at its place in the buffer. */
  lemma LaidMore(ram: Ram, frames: seq<nat>, output: seq<byte>, b: byte)
    requires 0 < |frames| && 0 < |frames| * PAGE_SIZE && Distinct(frames)
    requires Contents(ram, frames) == Laid(|frames| * PAGE_SIZE, output)
    ensures var p := Around(|frames|, |output|);
            && p.entry < |frames| && p.offset < PAGE_SIZE
            && Contents(Written(ram, frames[p.entry], p.offset, b), frames) == Laid(|frames| * PAGE_SIZE, output + [b])
  {
    var p := Around(|frames|, |output|);
    PlaceInBuffer(|frames|, |output|);
    WrittenContents(ram, frames, p.entry, p.offset, b);
    assert (output + [b])[..|output|] == output;
  }

  /** A core's output lands in its live buffer and in no other. */
  lemma OutputLands(s: State, c: nat, b: byte)
    requires Good(s) && Faithful(s) && Can(s, Output(c, b))
    ensures var t := Do(s, Output(c, b));
            var i := s.procs[c].core.mdl.id;
            && t.mdls == s.mdls && i < |s.outputs| && t.outputs == s.outputs[i := s.outputs[i] + [b]] && AllHold(t)
  {
    var t := Do(s, Output(c, b));
    var core := s.procs[c].core;
    var i := core.mdl.id;
    Standing(s, c);
    var p := Around(|core.mdl.frames|, |s.outputs[i]|);
    assert p.offset / PAGE_SIZE == 0 && p.offset % PAGE_SIZE == p.offset;
    assert t.ram == Written(s.ram, core.mdl.frames[p.entry], p.offset, b);
    forall j | 0 <= j < |t.mdls| ensures Holds(t, j) {
      assert Holds(s, j);
      if j == i {
        LaidMore(s.ram, core.mdl.frames, s.outputs[i], b);
      } else {
        ApartBothWays(s, core.mdl, s.mdls[j]);
        WrittenElsewhere(s.ram, s.mdls[j].frames, core.mdl.frames[p.entry], p.offset, b);
      }
    }
  }

  /** Cores that did not step stand as before, as far as their own live buffers are concerned nothing has changed. */
  lemma OthersAim(s: State, t: State, c: nat)
    requires Good(s) && Faithful(s) && c < |s.procs| == |t.procs|
    requires forall d | 0 <= d < |s.procs| && d != c :: t.procs[d] == s.procs[d]
    requires |s.outputs| <= |t.outputs|
    requires forall i | 0 <= i < |s.outputs| && s.owner[i] != Live(c) ::
               t.outputs[i] == s.outputs[i] && (i in t.rewound <==> i in s.rewound)
    ensures forall d | 0 <= d < |t.procs| && d != c :: Aimed(t, d)
  {
    forall d | 0 <= d < |t.procs| && d != c ensures Aimed(t, d) {
      assert Aimed(s, d);
      if !s.procs[d].retired {
        assert Belongs(s, s.procs[d].core.mdl, Live(d));
      }
    }
  }

  /** One byte more, and the core stands behind it. */
  lemma StandsOn(p: Proc, q: Proc, k: nat)
    requires Stands(p, k, false) && p.core.tracing && !Swapping(p.stage) && p.ready
    requires IsRing(p.core.table, p.core.mdl.frames, p.core.tablePa) && |p.core.mdl.frames| <= MAX_ENTRIES
    requires InTable(p.core) && PositionOf(p.core.mask) == Around(|p.core.mdl.frames|, k) && Moves(p.core).to.Some?
    requires var m := Moves(p.core);
             q == p.(core := p.core.(mask := Register(m.to.value)),
                     pmi := p.pmi || m.interrupt, irq := p.irq || m.interrupt)
    ensures Stands(q, k + 1, false)
  {
    var n := |p.core.mdl.frames|;
    MovesOn(p.core, k);
    if 2 <= n && k < (n - 1) * PAGE_SIZE {
      FirstInterrupt(n, k);
    }
  }

  lemma OutputAims(s: State, c: nat, b: byte)
    requires Good(s) && Faithful(s) && Can(s, Output(c, b))
    ensures AllAimed(Do(s, Output(c, b)))
  {
    var t := Do(s, Output(c, b));
    Standing(s, c);
    OutputLands(s, c, b);
    OnlyThisCore(s, Output(c, b));
    OutputAimsOwn(s, c, b);
    RewoundOnly(s, Output(c, b));
    OthersAim(s, t, c);
  }

  lemma OutputAimsOwn(s: State, c: nat, b: byte)
    requires Good(s) && Faithful(s) && Can(s, Output(c, b))
    ensures c < |Do(s, Output(c, b)).procs| && Aimed(Do(s, Output(c, b)), c)
  {
    var k := |s.outputs[s.procs[c].core.mdl.id]|;
    Standing(s, c);
    OutputLands(s, c, b);
    OnlyThisCore(s, Output(c, b));
    RewoundOnly(s, Output(c, b));
    StandsOn(s.procs[c], ProcAfter(s, Output(c, b)), k);
  }

  // ------------------------------------------------------------------ the other steps

  /** Fresh pages come prefilled, and disturb no buffer there is. */
  lemma SwapHolds(s: State, a: Action)
    requires Good(s) && Faithful(s) && Can(s, a) && Swaps(s, a)
    ensures AllHold(Do(s, a)) && Do(s, a).outputs == s.outputs + [[]] && Do(s, a).rewound == s.rewound
  {
    var t, fresh' := Do(s, a), ProcAfter(s, a).core.mdl;
    SwapOnlyWhilePaused(s, a);
    assert t.mdls == s.mdls + [fresh'] && t.outputs == s.outputs + [[]] && t.ram == Prefilled(s.ram, fresh'.frames);
    assert Belongs(s, s.procs[a.c].core.mdl, Live(a.c));
    assert Holds(s, s.procs[a.c].core.mdl.id);
    forall j | 0 <= j < |t.mdls| ensures Holds(t, j) {
      if j < |s.mdls| {
        assert Holds(s, j) && Apart(s.mdls[j].frames, fresh'.frames);
        PrefilledElsewhere(s.ram, s.mdls[j].frames, fresh'.frames);
      } else {
        PrefilledContents(s.ram, fresh'.frames);
        SizePositive(fresh');
      }
    }
  }

  lemma SwapAims(s: State, a: Action)
    requires Good(s) && Faithful(s) && Can(s, a) && Swaps(s, a)
    ensures AllAimed(Do(s, a))
  {
    var t := Do(s, a);
    SwapHolds(s, a);
    SwapOnlyWhilePaused(s, a);
    OnlyThisCore(s, a);
    assert Aimed(s, a.c);
    FrontIsFirst(|t.procs[a.c].core.mdl.frames|);
    assert Aimed(t, a.c);
    OthersAim(s, t, a.c);
  }

  lemma MemoryUntouched(s: State, a: Action)
    requires Can(s, a) && !a.Output? && !(OnCore(a) && Swaps(s, a))
    ensures var t := Do(s, a);
            t.ram == s.ram && t.mdls == s.mdls && t.outputs == s.outputs
  {
    if OnCore(a) && a.BeginDpc? {
      BeginUntouched(s, a);
    }
  }

  lemma BeginUntouched(s: State, a: Action)
    requires a.BeginDpc? && Can(s, a) && !Swaps(s, a)
    ensures var t := Do(s, a);
            t.ram == s.ram && t.mdls == s.mdls && t.outputs == s.outputs
  {
  }

  lemma RewoundOnly(s: State, a: Action)
    requires Can(s, a)
    ensures Do(s, a).rewound == if RunsOut(s, a) then s.rewound + {s.procs[a.c].core.mdl.id} else s.rewound
  {
  }

  /** Every step on a core but output and swaps leaves it standing where it wrote, until it is disabled. */
  lemma StepStands(s: State, a: Action, k: nat, rewound: bool)
    requires Can(s, a) && OnCore(a) && !a.Output? && !Swaps(s, a) && Sound(s.procs[a.c])
    requires !s.procs[a.c].retired && Stands(s.procs[a.c], k, rewound)
    ensures var p, q := s.procs[a.c], ProcAfter(s, a);
            q.core.mdl == p.core.mdl && (q.retired || Stands(q, k, rewound || RunsOut(s, a)))
  {
    FrontIsFirst(|s.procs[a.c].core.mdl.frames|);
  }

  lemma FrontIsFirst(n: nat)
    requires 0 < n
    ensures Register(Around(n, 0)) == FRONT_MASK
  {
    NextModulo(0, n);
  }

  lemma StillAims(s: State, a: Action)
    requires Good(s) && Faithful(s) && Can(s, a) && OnCore(a) && !a.Output? && !Swaps(s, a)
    ensures Aimed(Do(s, a), a.c)
  {
    MemoryUntouched(s, a);
    RewoundOnly(s, a);
    OnlyThisCore(s, a);
    assert Aimed(s, a.c);
    var i := s.procs[a.c].core.mdl.id;
    if !s.procs[a.c].retired {
      StepStands(s, a, |s.outputs[i]|, i in s.rewound);
    } else {
      StaysRetired(s, a);
    }
  }

  lemma StaysRetired(s: State, a: Action)
    requires Can(s, a) && OnCore(a) && s.procs[a.c].retired
    ensures ProcAfter(s, a).retired
  {
  }

  /** Only the live buffer of a core is ever rewound over. */
  lemma RunningOutIsLive(s: State, a: Action)
    requires Good(s) && Can(s, a)
    ensures RunsOut(s, a) ==> s.procs[a.c].core.mdl.id < |s.mdls| && s.owner[s.procs[a.c].core.mdl.id] == Live(a.c)
  {
    if RunsOut(s, a) {
      assert s.procs[a.c].dpcs != [] && !s.procs[a.c].retired;
      assert Belongs(s, s.procs[a.c].core.mdl, Live(a.c));
    }
  }

  lemma FaithfulOtherwise(s: State, a: Action)
    requires Good(s) && Faithful(s) && Can(s, a) && !a.Output? && !(OnCore(a) && Swaps(s, a))
    ensures Faithful(Do(s, a))
  {
    var t := Do(s, a);
    MemoryUntouched(s, a);
    RewoundOnly(s, a);
    forall i | 0 <= i < |t.mdls| ensures Holds(t, i) {
      assert Holds(s, i);
    }
    if OnCore(a) {
      StillAims(s, a);
      OnlyThisCore(s, a);
      RunningOutIsLive(s, a);
      OthersAim(s, t, a.c);
    } else {
      assert t.procs == s.procs;
      forall d | 0 <= d < |t.procs| ensures Aimed(t, d) {
        assert Aimed(s, d);
      }
    }
  }

  lemma FaithfulStep(s: State, a: Action)
    requires Good(s) && Faithful(s) && Can(s, a)
    ensures Faithful(Do(s, a))
  {
    if a.Output? {
      OutputLands(s, a.c, a.b);
      OutputAims(s, a.c, a.b);
    } else if OnCore(a) && Swaps(s, a) {
      SwapHolds(s, a);
      SwapAims(s, a);
    } else {
      FaithfulOtherwise(s, a);
    }
  }

  /** In every run in which disabling is calm, every buffer holds what its core wrote while it was live. */
  lemma {:induction false} FaithfulAlways(s: State, run: seq<Action>)
    requires Good(s) && Faithful(s) && CanAll(s, run) && CalmAll(s, run)
    ensures Faithful(DoAll(s, run))
    decreases |run|
  {
    if run != [] {
      GoodStep(s, run[0]);
      FaithfulStep(s, run[0]);
      FaithfulAlways(Do(s, run[0]), run[1..]);
    }
  }

  /** What the n-th delivered item's buffer holds: the output of its core while it was live, over the prefill. */
  lemma DeliveredHolds(start: State, run: seq<Action>, n: nat)
    requires Init(start) && CanAll(start, run) && CalmAll(start, run)
    requires n < |DoAll(start, run).delivered| && DoAll(start, run).delivered[n].mdl.Some?
    ensures var s := DoAll(start, run);
            var m := s.delivered[n].mdl.value;
            && m.id < |s.outputs| && 0 < SizeOf(m)
            && Contents(s.ram, m.frames) == Laid(SizeOf(m), s.outputs[m.id])
            && (|s.outputs[m.id]| <= SizeOf(m) ==> Contents(s.ram, m.frames) == Over(SizeOf(m), s.outputs[m.id]))
  {
    InitGood(start);
    InitFaithful(start);
    GoodAlways(start, run);
    FaithfulAlways(start, run);
    var s := DoAll(start, run);
    var m := s.delivered[n].mdl.value;
    assert s.log[n] == s.delivered[n];
    assert Belongs(s, m, Logged(n));
    assert Holds(s, m.id);
    if |s.outputs[m.id]| <= SizeOf(m) {
      LaidIsOver(SizeOf(m), s.outputs[m.id]);
    }
  }

  /** In every such run, while a core traces, a region is reported full exactly when its live buffer has been filled up
      to the last page; so a swap that is over has cleared the report, and an interrupt that finds one is due. */
  lemma ReportedFullIff(start: State, run: seq<Action>, c: nat)
    requires Init(start) && CanAll(start, run) && CalmAll(start, run)
    requires c < |DoAll(start, run).procs| && DoAll(start, run).procs[c].core.tracing
    ensures var s := DoAll(start, run);
            var m := s.procs[c].core.mdl;
            && m.id < |s.outputs|
            && (s.procs[c].pmi <==> 2 <= |m.frames| && (|m.frames| - 1) * PAGE_SIZE <= |s.outputs[m.id]|)
  {
    InitGood(start);
    InitFaithful(start);
    GoodAlways(start, run);
    FaithfulAlways(start, run);
    Standing(DoAll(start, run), c);
  }

  // ------------------------------------------------------------------ a buffer handed over is final

  /** A buffer no core has live keeps its bytes, its output and that it is not live. */
  lemma FinalStep(s: State, a: Action, i: nat)
    requires Good(s) && Faithful(s) && Can(s, a) && i < |s.mdls| && !s.owner[i].Live?
    ensures var t := Do(s, a);
            && i < |t.mdls| == |t.outputs| && i < |t.owner| && t.mdls[i] == s.mdls[i] && t.outputs[i] == s.outputs[i]
            && !t.owner[i].Live? && (i in t.rewound <==> i in s.rewound)
            && Contents(t.ram, s.mdls[i].frames) == Contents(s.ram, s.mdls[i].frames)
  {
    var t := Do(s, a);
    RewoundOnly(s, a);
    RunningOutIsLive(s, a);
    assert Holds(s, i);
    OwnerMoves(s, a, i);
    FinalOutput(s, a, i);
    FaithfulStep(s, a);
    assert Holds(t, i);
  }

  lemma FinalOutput(s: State, a: Action, i: nat)
    requires Good(s) && Faithful(s) && Can(s, a) && i < |s.mdls| && !s.owner[i].Live?
    ensures var t := Do(s, a);
            i < |t.mdls| == |t.outputs| && t.mdls[i] == s.mdls[i] && t.outputs[i] == s.outputs[i]
  {
    if a.Output? {
      OutputLands(s, a.c, a.b);
      Standing(s, a.c);
    } else if OnCore(a) && Swaps(s, a) {
      SwapHolds(s, a);
      assert Do(s, a).mdls == s.mdls + [ProcAfter(s, a).core.mdl];
    } else {
      MemoryUntouched(s, a);
    }
  }

  lemma OwnerMoves(s: State, a: Action, i: nat)
    requires Good(s) && Can(s, a) && i < |s.owner| && !s.owner[i].Live?
    ensures i < |Do(s, a).owner| && !Do(s, a).owner[i].Live?
  {
    if OnCore(a) {
      StepEffect(s, a);
      OwnerEffect(s, Do(s, a), a.c, if a.Enqueue? && a.stored then Logged(|s.log|) else Lost, i);
    }
  }

  lemma OwnerEffect(s: State, t: State, c: nat, at: Place, i: nat)
    requires Renews(s, t, c) || TakesOff(s, t, c) || Releases(s, t, c, at) || Keeps(s, t, c)
    requires i < |s.owner| && !s.owner[i].Live? && !at.Live?
    ensures i < |t.owner| && !t.owner[i].Live?
  {
  }

  /** Whenever in the rest of the run a consumer reads a buffer it was given, it reads the same bytes. */
  lemma {:induction false} HandedOverIsFinal(s: State, run: seq<Action>, i: nat)
    requires Good(s) && Faithful(s) && CanAll(s, run) && CalmAll(s, run) && i < |s.mdls| && !s.owner[i].Live?
    ensures Contents(DoAll(s, run).ram, s.mdls[i].frames) == Contents(s.ram, s.mdls[i].frames)
    decreases |run|
  {
    if run != [] {
      FinalStep(s, run[0], i);
      FaithfulStep(s, run[0]);
      GoodStep(s, run[0]);
      HandedOverIsFinal(Do(s, run[0]), run[1..], i);
    }
  }

  /** So it does not matter when a consumer copies what it was given. */
  lemma ReadAnyTime(start: State, run: seq<Action>, more: seq<Action>, n: nat)
    requires Init(start) && CanAll(start, run) && CalmAll(start, run)
    requires CanAll(DoAll(start, run), more) && CalmAll(DoAll(start, run), more)
    requires n < |DoAll(start, run).delivered| && DoAll(start, run).delivered[n].mdl.Some?
    ensures var s := DoAll(start, run);
            var frames := s.delivered[n].mdl.value.frames;
            Contents(DoAll(s, more).ram, frames) == Contents(s.ram, frames)
  {
    InitGood(start);
    InitFaithful(start);
    GoodAlways(start, run);
    FaithfulAlways(start, run);
    var s := DoAll(start, run);
    assert s.log[n] == s.delivered[n];
    assert Belongs(s, s.log[n].mdl.value, Logged(n));
    HandedOverIsFinal(s, more, s.log[n].mdl.value.id);
  }
}
