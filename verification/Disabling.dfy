/** What goes wrong when tracing is disabled while a swap of the same core is still to come. */
module Disabling {
  import opened PacketTable
  import opened Topa
  import opened CoreTrace
  import opened Handoff

  /** t differs from s in core c, in items added to the log, and in bookkeeping. */
  ghost predicate Grown(s: State, t: State, c: nat, p: Proc, items: seq<Item>) {
    c < |s.procs| == |t.procs| && t.procs[c] == p && t.mdls == s.mdls && t.log == s.log + items
  }

  /** A deferred call that meets no failure puts the buffer it holds into the log. */
  lemma DeliverHeld(s: State, c: nat) returns (run: seq<Action>, item: Item)
    requires c < |s.procs| && s.procs[c].stage.Holding?
    ensures CanAll(s, run) && item.mdl == Some(s.procs[c].stage.mdl)
    ensures Grown(s, DoAll(s, run), c, s.procs[c].(stage := if s.procs[c].stage.last then Quiet else Resuming), [item])
  {
    item := Stamp(s, c);
    OnlyThisCore(s, TakeId(c));
    var t1 := Do(s, TakeId(c));
    OnlyThisCore(t1, Enqueue(c, true));
    var t2 := Do(t1, Enqueue(c, true));
    OnlyThisCore(t2, Signal(c));
    One(s, TakeId(c));
    One(t1, Enqueue(c, true));
    One(t2, Signal(c));
    Then(s, [TakeId(c)], [Enqueue(c, true)]);
    Then(s, [TakeId(c)] + [Enqueue(c, true)], [Signal(c)]);
    run := [TakeId(c)] + [Enqueue(c, true)] + [Signal(c)];
  }

  /** The disable call delivers the live buffer and leaves it recorded as the core's. */
  lemma DeliverLast(s: State, c: nat) returns (run: seq<Action>, item: Item)
    requires c < |s.procs| && s.procs[c].stage.Quiet? && s.procs[c].dpcs != [] && s.procs[c].dpcs[0] == DisableDpc
    requires |s.procs[c].core.table| == |s.procs[c].core.mdl.frames| + 1
    ensures CanAll(s, run) && item.mdl == Some(s.procs[c].core.mdl) && run != [] && run[0] == BeginDpc(c, None)
    ensures var p := s.procs[c];
            Grown(s, DoAll(s, run), c, p.(core := DisableTrace(p.core), dpcs := p.dpcs[1..], retired := true), [item])
  {
    var begin := BeginDpc(c, None);
    OnlyThisCore(s, begin);
    One(s, begin);
    var rest;
    rest, item := DeliverHeld(Do(s, begin), c);
    Then(s, [begin], rest);
    run := [begin] + rest;
  }

  /** A swap that runs on a core that is not enabled delivers the buffer recorded as the core's. */
  lemma DeliverSwapped(s: State, c: nat, pages: Mdl) returns (run: seq<Action>, item: Item)
    requires c < |s.procs| && s.procs[c].stage.Quiet? && s.procs[c].dpcs != [] && s.procs[c].dpcs[0] == SwapDpc
    requires |s.procs[c].core.table| == |s.procs[c].core.mdl.frames| + 1 && s.procs[c].core.status != Enabled
    requires FreshPages(s, pages, |s.procs[c].core.mdl.frames|)
    ensures CanAll(s, run) && item.mdl == Some(s.procs[c].core.mdl) && DoAll(s, run).log == s.log + [item]
  {
    var begin := BeginDpc(c, Some(pages));
    OnlyThisCore(s, begin);
    One(s, begin);
    var rest;
    rest, item := DeliverHeld(Do(s, begin), c);
    Then(s, [begin], rest);
    run := [begin] + rest;
  }

  /** A region still reported full lets any interrupt queue one more swap. */
  lemma InterruptQueues(s: State, c: nat) returns (run: seq<Action>)
    requires c < |s.procs| && s.procs[c].pmi
    ensures CanAll(s, run)
    ensures var p := s.procs[c];
            Grown(s, DoAll(s, run), c, p.(irq := false, core := PauseTrace(p.core), dpcs := p.dpcs + [SwapDpc]), [])
  {
    OnlyThisCore(s, Spurious(c));
    var t := Do(s, Spurious(c));
    OnlyThisCore(t, PmiHandler(c, true));
    One(s, Spurious(c));
    One(t, PmiHandler(c, true));
    Then(s, [Spurious(c)], [PmiHandler(c, true)]);
    run := [Spurious(c)] + [PmiHandler(c, true)];
    assert s.log + [] == s.log;
  }

  /** The calm condition cannot be dropped: whenever the disable call starts with a swap of its core still to come, a
      run from there enqueues one and the same buffer twice. */
  lemma UncalmDuplicates(s: State, c: nat, pages: Mdl) returns (run: seq<Action>)
    requires c < |s.procs| && Can(s, BeginDpc(c, None)) && !Calm(s, BeginDpc(c, None)) && Sound(s.procs[c])
    requires FreshPages(s, pages, |s.procs[c].core.mdl.frames|)
    ensures CanAll(s, run) && run != [] && run[0] == BeginDpc(c, None)
    ensures var log := DoAll(s, run).log;
            |log| == |s.log| + 2 && log[|s.log|].mdl == log[|s.log| + 1].mdl == Some(s.procs[c].core.mdl)
  {
    var first, last := DeliverLast(s, c);
    var t := DoAll(s, first);
    var middle: seq<Action> := [];
    assert CanAll(t, middle) && DoAll(t, middle) == t;
    if SwapDpc !in s.procs[c].dpcs[1..] {
      CalmDisableEmpties(s.procs[c].dpcs);
      middle := InterruptQueues(t, c);
    } else {
      SwapIsNext(s.procs[c].dpcs);
    }
    var u := DoAll(t, middle);
    assert u.log == s.log + [last];
    var second, again := DeliverSwapped(u, c, pages);
    Then(s, first, middle);
    Then(s, first + middle, second);
    run := first + middle + second;
  }

  lemma SwapIsNext(dpcs: seq<Dpc>)
    requires OneDisable(dpcs) && dpcs != [] && dpcs[0] == DisableDpc && SwapDpc in dpcs[1..]
    ensures |dpcs| > 1 && dpcs[1..][0] == SwapDpc
  {
    assert dpcs[0] == SwapDpc || dpcs[1] == SwapDpc;
  }
}
