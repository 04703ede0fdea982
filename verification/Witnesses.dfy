/** Runs from the start of a session to each thing that can go wrong. */
module Witnesses {
  import opened Bytes
  import opened PacketTable
  import opened Topa
  import opened CoreTrace
  import opened Handoff
  import opened Ownership
  import opened Memory
  import opened Disabling
  import opened Running
  import opened Tickets

  /** Steps that are harmless in every state. */
  predicate Plain(run: seq<Action>) {
    forall i | 0 <= i < |run| ::
      run[i].First? || run[i].Output? || run[i].CheckEnabled? || run[i].MarkEnabled? || (run[i].Setup? && run[i].works)
  }

  lemma {:induction false} PlainIsHarmless(s: State, run: seq<Action>)
    requires CanAll(s, run) && Plain(run)
    ensures CalmAll(s, run) && ObligingAll(s, run) && NoneLate(s, run)
    decreases |run|
  {
    if run != [] {
      PlainIsHarmless(Do(s, run[0]), run[1..]);
    }
  }

  lemma {:induction false} ThenHarmless(s: State, a: seq<Action>, b: seq<Action>)
    requires CanAll(s, a) && CalmAll(s, a) && ObligingAll(s, a)
    requires CanAll(DoAll(s, a), b) && CalmAll(DoAll(s, a), b) && ObligingAll(DoAll(s, a), b)
    ensures CanAll(s, a + b) && CalmAll(s, a + b) && ObligingAll(s, a + b)
    decreases |a|
  {
    Then(s, a, b);
    if a == [] {
      assert a + b == b;
    } else {
      assert (a + b)[1..] == a[1..] + b;
      ThenHarmless(Do(s, a[0]), a[1..], b);
    }
  }

  lemma Extended(s: State, run: seq<Action>, a: Action)
    requires CanAll(s, run) && Can(DoAll(s, run), a)
    ensures CanAll(s, run + [a]) && DoAll(s, run + [a]) == Do(DoAll(s, run), a)
  {
    One(DoAll(s, run), a);
    Then(s, run, [a]);
  }

  /** A core as set up, once it has written k bytes; from the end of the last region but one an interrupt waits. */
  function AfterBytes(p: Proc, k: nat): Proc
    requires 0 < |p.core.mdl.frames|
  {
    var full := 0 < k == (|p.core.mdl.frames| - 1) * PAGE_SIZE;
    p.(core := p.core.(mask := Register(Around(|p.core.mdl.frames|, k))), pmi := full, irq := full)
  }

  /** Core c has just been set up and has written nothing. */
  ghost predicate JustSetUp(s: State, c: nat) {
    && Good(s) && Faithful(s) && c < |s.procs| && !s.procs[c].retired
    && s.procs[c].core.tracing && !s.procs[c].pmi && !s.procs[c].irq && 2 <= |s.procs[c].core.mdl.frames|
    && s.procs[c].core.mdl.id < |s.outputs| && s.outputs[s.procs[c].core.mdl.id] == []
    && s.procs[c].core.mask == FRONT_MASK
  }

  ghost predicate Wrote(s: State, t: State, c: nat, k: nat)
    requires c < |s.procs| && 0 < |s.procs[c].core.mdl.frames|
  {
    && Good(t) && Faithful(t) && t.procs == s.procs[c := AfterBytes(s.procs[c], k)]
    && t.mdls == s.mdls && t.log == s.log && t.started == s.started
    && s.procs[c].core.mdl.id < |t.outputs| && |t.outputs[s.procs[c].core.mdl.id]| == k
  }

  /** The core after one more byte. */
  lemma CoreWrites(p: Proc, q: Proc, k: nat)
    requires 2 <= |p.core.mdl.frames| <= MAX_ENTRIES && k < (|p.core.mdl.frames| - 1) * PAGE_SIZE
    requires q == AfterBytes(p, k) && !p.pmi && !p.irq && InTable(q.core) && TableAligned(q.core)
    requires IsRing(q.core.table, q.core.mdl.frames, q.core.tablePa)
    requires PositionOf(q.core.mask) == Around(|p.core.mdl.frames|, k)
    ensures var m := Moves(q.core);
            && m.to.Some?
            && AfterBytes(p, k + 1)
               == q.(core := q.core.(mask := Register(m.to.value)),
                     pmi := q.pmi || m.interrupt, irq := q.irq || m.interrupt)
  {
    MovesOn(q.core, k);
    FirstInterrupt(|p.core.mdl.frames|, k);
  }

  lemma OneMore(s: State, t: State, c: nat, k: nat)
    requires JustSetUp(s, c) && Wrote(s, t, c, k) && k < (|s.procs[c].core.mdl.frames| - 1) * PAGE_SIZE
    ensures Can(t, Output(c, 0)) && Wrote(s, Do(t, Output(c, 0)), c, k + 1)
  {
    Standing(t, c);
    assert Aimed(t, c);
    CoreWrites(s.procs[c], t.procs[c], k);
    OutputLands(t, c, 0);
    OnlyThisCore(t, Output(c, 0));
    OutputElse(t, c, 0);
    GoodStep(t, Output(c, 0));
    FaithfulStep(t, Output(c, 0));
  }

  lemma OutputElse(s: State, c: nat, b: byte)
    requires Can(s, Output(c, b))
    ensures Do(s, Output(c, b)).log == s.log && Do(s, Output(c, b)).started == s.started
  {
  }

  lemma OneMoreRun(s: State, run: seq<Action>, c: nat, k: nat)
    requires CanAll(s, run) && Plain(run) && JustSetUp(s, c) && Wrote(s, DoAll(s, run), c, k)
    requires k < (|s.procs[c].core.mdl.frames| - 1) * PAGE_SIZE
    ensures CanAll(s, run + [Output(c, 0)]) && Plain(run + [Output(c, 0)])
    ensures Wrote(s, DoAll(s, run + [Output(c, 0)]), c, k + 1)
  {
    OneMore(s, DoAll(s, run), c, k);
    Extended(s, run, Output(c, 0));
  }

  lemma NothingWritten(s: State, c: nat)
    requires JustSetUp(s, c)
    ensures CanAll(s, []) && Plain([]) && Wrote(s, DoAll(s, []), c, 0)
  {
    FrontIsFirst(|s.procs[c].core.mdl.frames|);
  }

  lemma {:induction false} FillRegions(s: State, c: nat, k: nat) returns (run: seq<Action>)
    requires JustSetUp(s, c) && k <= (|s.procs[c].core.mdl.frames| - 1) * PAGE_SIZE
    ensures CanAll(s, run) && Plain(run) && Wrote(s, DoAll(s, run), c, k)
  {
    if k == 0 {
      NothingWritten(s, c);
      run := [];
    } else {
      run := FillRegions(s, c, k - 1);
      OneMoreRun(s, run, c, k - 1);
      run := run + [Output(c, 0)];
    }
  }

  /** The core once set up; marked says whether its running status has been written yet. */
  function SetUpCore(p: Proc, marked: bool): Proc {
    var core := SetTraceEn(Rewind(p.core), true);
    if marked then p.(core := core.(status := Enabled), ready := true)
    else p.(core := core, stage := Enabling, ready := true)
  }

  lemma FirstThenSetup(start: State, c: nat) returns (run: seq<Action>)
    requires Init(start) && c < |start.procs| && 2 <= |start.mdls[c].frames|
    ensures CanAll(start, run) && Plain(run)
    ensures var t := DoAll(start, run);
            && JustSetUp(t, c) && t.mdls == start.mdls && |t.log| == 1 && t.started
            && t.procs == start.procs[c := SetUpCore(start.procs[c], false).(stage := Checking)]
  {
    InitGood(start);
    InitFaithful(start);
    GoodStep(start, First(true));
    FaithfulStep(start, First(true));
    One(start, First(true));
    var s, setup := Do(start, First(true)), Setup(c, true);
    OnlyThisCore(s, setup);
    MemoryUntouched(s, setup);
    GoodStep(s, setup);
    FaithfulStep(s, setup);
    Extended(start, [First(true)], setup);
    run := [First(true)] + [setup];
  }

  lemma ThenStarted(s: State, c: nat, a: Action)
    requires JustSetUp(s, c) && OnCore(a) && a.c == c
    requires (a.CheckEnabled? && s.procs[c].stage.Checking?) || (a.MarkEnabled? && s.procs[c].stage.Enabling?)
    ensures Can(s, a)
    ensures var p, t := s.procs[c], Do(s, a);
            && JustSetUp(t, c) && t.mdls == s.mdls && t.log == s.log && t.started == s.started
            && t.procs == s.procs[c := if a.CheckEnabled? then p.(stage := Enabling)
                                       else p.(core := p.core.(status := Enabled), stage := Quiet)]
  {
    OnlyThisCore(s, a);
    MemoryUntouched(s, a);
    GoodStep(s, a);
    FaithfulStep(s, a);
  }

  lemma OneOnward(start: State, run: seq<Action>, c: nat, a: Action)
    requires CanAll(start, run) && Plain(run) && JustSetUp(DoAll(start, run), c) && OnCore(a) && a.c == c
    requires var g := DoAll(start, run).procs[c].stage;
             (a.CheckEnabled? && g.Checking?) || (a.MarkEnabled? && g.Enabling?)
    ensures CanAll(start, run + [a]) && Plain(run + [a])
    ensures var s, t := DoAll(start, run), DoAll(start, run + [a]);
            var p := s.procs[c];
            && JustSetUp(t, c) && t.mdls == s.mdls && t.log == s.log && t.started == s.started
            && t.procs == s.procs[c := if a.CheckEnabled? then p.(stage := Enabling)
                                       else p.(core := p.core.(status := Enabled), stage := Quiet)]
  {
    ThenStarted(DoAll(start, run), c, a);
    Extended(start, run, a);
  }

  lemma SetUp(start: State, c: nat, marked: bool) returns (run: seq<Action>)
    requires Init(start) && c < |start.procs| && 2 <= |start.mdls[c].frames|
    ensures CanAll(start, run) && Plain(run)
    ensures var t := DoAll(start, run);
            && JustSetUp(t, c) && t.procs == start.procs[c := SetUpCore(start.procs[c], marked)]
            && t.mdls == start.mdls && |t.log| == 1 && t.started
  {
    run := FirstThenSetup(start, c);
    OneOnward(start, run, c, CheckEnabled(c));
    run := run + [CheckEnabled(c)];
    if marked {
      OneOnward(start, run, c, MarkEnabled(c));
      run := run + [MarkEnabled(c)];
    }
  }

  /** From the start of any session a core can come to a full region whose interrupt is waiting. */
  lemma RegionFull(start: State, c: nat, marked: bool) returns (run: seq<Action>)
    requires Init(start) && c < |start.procs| && 2 <= |start.mdls[c].frames|
    ensures CanAll(start, run) && Plain(run) && Good(DoAll(start, run))
    ensures var t := DoAll(start, run);
            var p := SetUpCore(start.procs[c], marked);
            var n := |start.mdls[c].frames|;
            && t.procs == start.procs[c := AfterBytes(p, (n - 1) * PAGE_SIZE)] && AfterBytes(p, (n - 1) * PAGE_SIZE).pmi
            && t.mdls == start.mdls && |t.log| == 1 && t.started
  {
    var first := SetUp(start, c, marked);
    var s := DoAll(start, first);
    assert s.procs[c].core.mdl == start.mdls[c];
    var second := FillRegions(s, c, (|start.mdls[c].frames| - 1) * PAGE_SIZE);
    Then(start, first, second);
    run := first + second;
  }

  lemma Asked(s: State, c: nat)
    requires Good(s) && s.started && c < |s.procs| && s.procs[c].pmi && s.procs[c].dpcs == [] && s.procs[c].stage.Quiet?
    requires !s.procs[c].retired
    ensures Can(s, AskDisable(c))
    ensures var t := Do(s, AskDisable(c));
            && t.log == s.log && t.mdls == s.mdls && c < |t.procs| && t.procs[c].core == s.procs[c].core
            && Sound(t.procs[c]) && Can(t, BeginDpc(c, None)) && !Calm(t, BeginDpc(c, None))
  {
    OnlyThisCore(s, AskDisable(c));
    SoundStep(s, AskDisable(c));
  }

  lemma AskThenDuplicate(s: State, c: nat, pages: Mdl) returns (run: seq<Action>)
    requires Good(s) && s.started && c < |s.procs| && s.procs[c].pmi && s.procs[c].dpcs == [] && s.procs[c].stage.Quiet?
    requires !s.procs[c].retired && FreshPages(s, pages, |s.procs[c].core.mdl.frames|)
    ensures CanAll(s, run)
    ensures var log := DoAll(s, run).log;
            |log| == |s.log| + 2 && log[|s.log|].mdl == log[|s.log| + 1].mdl == Some(s.procs[c].core.mdl)
  {
    Asked(s, c);
    One(s, AskDisable(c));
    var t := Do(s, AskDisable(c));
    var more := UncalmDuplicates(t, c, pages);
    Then(s, [AskDisable(c)], more);
    run := [AskDisable(c)] + more;
  }

  /** A session in which the disable call runs while a full region's interrupt waits, and the same buffer is enqueued
      twice. */
  lemma DuplicateHappens(start: State, c: nat, pages: Mdl) returns (run: seq<Action>)
    requires Init(start) && c < |start.procs| && 2 <= |start.mdls[c].frames|
    requires FreshPages(start, pages, |start.mdls[c].frames|)
    ensures CanAll(start, run)
    ensures var log := DoAll(start, run).log;
            |log| == 3 && log[1].mdl == log[2].mdl == Some(start.mdls[c])
  {
    run := RegionFull(start, c, true);
    var more := AskThenDuplicate(DoAll(start, run), c, pages);
    Then(start, run, more);
    run := run + more;
  }

  /** A session in which an interrupt from elsewhere makes a second swap of a core outstanding. */
  lemma DoubleSwapHappens(start: State, c: nat) returns (run: seq<Action>)
    requires Init(start) && c < |start.procs| && 2 <= |start.mdls[c].frames|
    ensures CanAll(start, run)
    ensures c < |DoAll(start, run).procs| && DoAll(start, run).procs[c].dpcs == [SwapDpc, SwapDpc]
  {
    run := RegionFull(start, c, true);
    var s := DoAll(start, run);
    OnlyThisCore(s, PmiHandler(c, true));
    Extended(start, run, PmiHandler(c, true));
    run := run + [PmiHandler(c, true)];
    var t := DoAll(start, run);
    assert t.procs[c].dpcs == [SwapDpc] && t.procs[c].pmi;
    var more := InterruptQueues(t, c);
    Then(start, run, more);
    run := run + more;
  }

  /** A swap that finds the status ahead of the hardware refuses, whatever pages there are, and nothing else restarts
      the core. */
  lemma RefusedSwapStalls(s: State, c: nat, pages: Mdl)
    requires c < |s.procs| && s.procs[c].ready && !s.procs[c].retired && s.procs[c].dpcs == [SwapDpc]
    requires s.procs[c].stage.Quiet? && s.procs[c].core.status == Enabled && !s.procs[c].core.tracing && !s.procs[c].irq
    requires |s.procs[c].core.table| == |s.procs[c].core.mdl.frames| + 1
    requires FreshPages(s, pages, |s.procs[c].core.mdl.frames|)
    ensures Can(s, BeginDpc(c, Some(pages)))
    ensures var t := Do(s, BeginDpc(c, Some(pages)));
            c < |t.procs| && Stalled(t.procs[c]) && !t.procs[c].retired
  {
    OnlyThisCore(s, BeginDpc(c, Some(pages)));
  }

  lemma LatePause(s: State, c: nat)
    requires c < |s.procs| && Sound(s.procs[c]) && s.procs[c].stage.Enabling? && s.procs[c].dpcs == []
    requires s.procs[c].pmi && s.procs[c].irq
    ensures Can(s, PmiHandler(c, true)) && Late(s, PmiHandler(c, true))
    ensures Can(Do(s, PmiHandler(c, true)), MarkEnabled(c))
    ensures var t := Do(Do(s, PmiHandler(c, true)), MarkEnabled(c));
            && t.mdls == s.mdls && t.procs == s.procs[c := t.procs[c]]
            && t.procs[c] == s.procs[c].(irq := false, dpcs := [SwapDpc], stage := Quiet,
                                         core := s.procs[c].core.(tracing := false, status := Enabled))
  {
    OnlyThisCore(s, PmiHandler(c, true));
    OnlyThisCore(Do(s, PmiHandler(c, true)), MarkEnabled(c));
  }

  /** A region reported full is handled after the check that tracing is on and before the running status says so: the
      core is paused and its swap queued, then the late status write makes the swap refuse. */
  lemma LateInterruptStalls(s: State, c: nat, pages: Mdl) returns (after: seq<Action>)
    requires c < |s.procs| && Sound(s.procs[c]) && s.procs[c].stage.Enabling? && s.procs[c].dpcs == []
    requires s.procs[c].pmi && s.procs[c].irq && FreshPages(s, pages, |s.procs[c].core.mdl.frames|)
    ensures Can(s, PmiHandler(c, true)) && Late(s, PmiHandler(c, true))
    ensures after == [MarkEnabled(c), BeginDpc(c, Some(pages))]
    ensures var t := Do(s, PmiHandler(c, true));
            && CanAll(t, after) && CalmAll(t, after) && ObligingAll(t, after) && NoneLate(t, after)
            && c < |DoAll(t, after).procs| && Stalled(DoAll(t, after).procs[c]) && !DoAll(t, after).procs[c].retired
  {
    var t, mark, begin := Do(s, PmiHandler(c, true)), MarkEnabled(c), BeginDpc(c, Some(pages));
    LatePause(s, c);
    var u := Do(t, mark);
    RefusedSwapStalls(u, c, pages);
    after := [mark, begin];
    assert after[1..] == [begin];
    One(u, begin);
    assert [begin][1..] == [];
    SmoothEnd(u, begin);
    SmoothStart(t, mark, [begin]);
  }

  lemma SmoothEnd(s: State, a: Action)
    requires Can(s, a) && Calm(s, a) && OnCore(a) && Obliging(s, a) && !Late(s, a)
    ensures CanAll(s, [a]) && CalmAll(s, [a]) && ObligingAll(s, [a]) && NoneLate(s, [a])
  {
    assert [a][1..] == [];
    assert CanAll(Do(s, a), []);
  }

  lemma SmoothStart(s: State, a: Action, rest: seq<Action>)
    requires Can(s, a) && Calm(s, a) && OnCore(a) && Obliging(s, a) && !Late(s, a)
    requires var t := Do(s, a);
             CanAll(t, rest) && CalmAll(t, rest) && ObligingAll(t, rest) && NoneLate(t, rest)
    ensures CanAll(s, [a] + rest) && DoAll(s, [a] + rest) == DoAll(Do(s, a), rest)
    ensures CalmAll(s, [a] + rest) && ObligingAll(s, [a] + rest) && NoneLate(s, [a] + rest)
  {
    assert ([a] + rest)[1..] == rest;
  }

  /** From the start of any session that happens in a run in which every allocation succeeds, the hardware starts
      whenever asked, disabling is calm, and no other full region is handled too soon. */
  lemma StallHappens(start: State, c: nat, pages: Mdl) returns (before: seq<Action>, after: seq<Action>)
    requires Init(start) && c < |start.procs| && 2 <= |start.mdls[c].frames|
    requires FreshPages(start, pages, |start.mdls[c].frames|)
    ensures var run := before + [PmiHandler(c, true)] + after;
            && CanAll(start, run) && CalmAll(start, run) && ObligingAll(start, run) && c < |DoAll(start, run).procs|
            && Stalled(DoAll(start, run).procs[c]) && !DoAll(start, run).procs[c].retired
    ensures CanAll(start, before) && NoneLate(start, before) && Can(DoAll(start, before), PmiHandler(c, true))
    ensures Late(DoAll(start, before), PmiHandler(c, true))
    ensures var t := Do(DoAll(start, before), PmiHandler(c, true));
            after == [MarkEnabled(c), BeginDpc(c, Some(pages))] && CanAll(t, after) && NoneLate(t, after)
  {
    before := RegionFull(start, c, false);
    PlainIsHarmless(start, before);
    var s, late := DoAll(start, before), PmiHandler(c, true);
    after := LateInterruptStalls(s, c, pages);
    JoinLate(start, before, late, after);
  }

  lemma JoinLate(start: State, before: seq<Action>, late: Action, after: seq<Action>)
    requires CanAll(start, before) && CalmAll(start, before) && ObligingAll(start, before)
    requires Can(DoAll(start, before), late) && late.PmiHandler? && late.dpc
    requires var t := Do(DoAll(start, before), late);
             CanAll(t, after) && CalmAll(t, after) && ObligingAll(t, after)
    ensures var run := before + [late] + after;
            && CanAll(start, run) && CalmAll(start, run) && ObligingAll(start, run)
            && DoAll(start, run) == DoAll(Do(DoAll(start, before), late), after)
  {
    var s := DoAll(start, before);
    One(s, late);
    assert [late][1..] == [];
    assert CalmAll(Do(s, late), []) && ObligingAll(Do(s, late), []);
    ThenHarmless(start, before, [late]);
    Then(start, before, [late]);
    ThenHarmless(start, before + [late], after);
    Then(start, before + [late], after);
  }

  // ------------------------------------------------------------------ a consumer left waiting

  /** Consumer k took the FIRST packet, then found the queue empty; nothing else has happened. */
  lemma FoundEmpty(start: State, k: nat) returns (run: seq<Action>)
    requires Init(start) && k < |start.waits| && start.waits[k] == Asking
    ensures CanAll(start, run)
    ensures var t := DoAll(start, run);
            t.procs == start.procs && t.queue == [] && t.started && t.waits == start.waits[k := Empty]
  {
    One(start, First(true));
    var s := Do(start, First(true));
    Extended(start, [First(true)], Dequeue(k));
    var t := Do(s, Dequeue(k));
    Extended(start, [First(true)] + [Dequeue(k)], Dequeue(k));
    run := [First(true)] + [Dequeue(k)] + [Dequeue(k)];
  }

  /** The disable call of a core puts its buffer into the queue and sets the event. */
  lemma LastArrives(s: State, c: nat) returns (run: seq<Action>)
    requires s.started && c < |s.procs| && AtRest(s.procs[c]) && Backed(s.procs[c].core)
    ensures CanAll(s, run)
    ensures var t := DoAll(s, run);
            && |t.procs| == |s.procs| && t.procs == s.procs[c := t.procs[c]] && t.procs[c].stage.Quiet?
            && |t.queue| == |s.queue| + 1 && t.waits == s.waits
  {
    OnlyThisCore(s, AskDisable(c));
    One(s, AskDisable(c));
    var s1 := Do(s, AskDisable(c));
    OnlyThisCore(s1, BeginDpc(c, None));
    Extended(s, [AskDisable(c)], BeginDpc(c, None));
    run := [AskDisable(c)] + [BeginDpc(c, None)];
    var s2 := DoAll(s, run);
    assert s2.queue == s.queue && s2.waits == s.waits;
    var more := HeldArrives(s2, c);
    Then(s, run, more);
    run := run + more;
  }

  lemma HeldArrives(s: State, c: nat) returns (run: seq<Action>)
    requires c < |s.procs| && s.procs[c].stage.Holding? && s.procs[c].stage.last
    ensures CanAll(s, run)
    ensures var t := DoAll(s, run);
            && |t.procs| == |s.procs| && t.procs == s.procs[c := t.procs[c]] && t.procs[c].stage.Quiet?
            && |t.queue| == |s.queue| + 1 && t.waits == s.waits
  {
    OnlyThisCore(s, TakeId(c));
    One(s, TakeId(c));
    var s1 := Do(s, TakeId(c));
    OnlyThisCore(s1, Enqueue(c, true));
    Extended(s, [TakeId(c)], Enqueue(c, true));
    run := [TakeId(c)] + [Enqueue(c, true)];
    var s2 := DoAll(s, run);
    OnlyThisCore(s2, Signal(c));
    Extended(s, run, Signal(c));
    run := run + [Signal(c)];
  }

  /** A session in which a consumer that found the queue empty resets the event after an item has come in: the item
      waits, the consumer waits, and nobody is about to set the event. */
  lemma StrandedHappens(start: State, c: nat, k: nat) returns (run: seq<Action>)
    requires Init(start) && c < |start.procs| && k < |start.waits| && start.waits[k] == Asking
    ensures CanAll(start, run)
    ensures var t := DoAll(start, run);
            Stranded(t) && |t.waits| == |start.waits| && t.waits[k] == Waiting
    ensures run != [] && run[|run| - 1] == Reset(k)
  {
    run := FoundEmpty(start, k);
    var s := DoAll(start, run);
    var more := LastArrives(s, c);
    Then(start, run, more);
    run := run + more;
    assert Can(DoAll(start, run), Reset(k));
    Extended(start, run, Reset(k));
    run := run + [Reset(k)];
  }
}
