/** Whole runs of the cores: how many swaps are on their way, and whether tracing comes back. */
module Running {
  import opened Handoff
  import opened Ownership

  // ------------------------------------------------------------------ interrupts and calls

  /** An interrupt that comes while no region is reported full is taken and forgotten. */
  lemma HarmlessInterrupt(s: State, c: nat, dpc: bool)
    requires c < |s.procs| && !s.procs[c].pmi && !s.procs[c].irq
    ensures var run := [Spurious(c), PmiHandler(c, dpc)];
            CanAll(s, run) && DoAll(s, run) == s
  {
    OnlyThisCore(s, Spurious(c));
    One(s, Spurious(c));
    var t := Do(s, Spurious(c));
    OnlyThisCore(t, PmiHandler(c, dpc));
    One(t, PmiHandler(c, dpc));
    Then(s, [Spurious(c)], [PmiHandler(c, dpc)]);
    assert [Spurious(c)] + [PmiHandler(c, dpc)] == [Spurious(c), PmiHandler(c, dpc)];
    assert Do(t, PmiHandler(c, dpc)).procs == s.procs;
  }

  /** The calls a step queues on core c: the handler a swap for a region reported full, a request the disabling. */
  function QueuedBy(s: State, a: Action, c: nat): seq<Dpc>
    requires Can(s, a)
  {
    if !OnCore(a) || a.c != c then []
    else if a.AskDisable? then [DisableDpc]
    else if a.PmiHandler? && a.dpc && s.procs[c].pmi then [SwapDpc]
    else []
  }

  function StartedBy(s: State, a: Action, c: nat): seq<Dpc>
    requires Can(s, a)
  {
    if a.BeginDpc? && a.c == c then [s.procs[c].dpcs[0]] else []
  }

  function Queued(s: State, run: seq<Action>, c: nat): seq<Dpc>
    requires CanAll(s, run)
    decreases |run|
  {
    if run == [] then [] else QueuedBy(s, run[0], c) + Queued(Do(s, run[0]), run[1..], c)
  }

  function Started(s: State, run: seq<Action>, c: nat): seq<Dpc>
    requires CanAll(s, run)
    decreases |run|
  {
    if run == [] then [] else StartedBy(s, run[0], c) + Started(Do(s, run[0]), run[1..], c)
  }

  lemma CallsOfCore(s: State, a: Action)
    requires OnCore(a) && Can(s, a)
    ensures s.procs[a.c].dpcs + QueuedBy(s, a, a.c) == StartedBy(s, a, a.c) + ProcAfter(s, a).dpcs
  {
    if a.BeginDpc? {
      assert s.procs[a.c].dpcs == [s.procs[a.c].dpcs[0]] + s.procs[a.c].dpcs[1..];
    }
  }

  lemma CallsStep(s: State, a: Action, c: nat)
    requires Can(s, a) && c < |s.procs|
    ensures |Do(s, a).procs| == |s.procs|
    ensures s.procs[c].dpcs + QueuedBy(s, a, c) == StartedBy(s, a, c) + Do(s, a).procs[c].dpcs
  {
    if OnCore(a) {
      OnlyThisCore(s, a);
      if a.c == c {
        CallsOfCore(s, a);
      }
    } else {
      assert Do(s, a).procs == s.procs;
    }
  }

  lemma JoinCalls<T>(d: seq<T>, q: seq<T>, b: seq<T>, d': seq<T>, q': seq<T>, b': seq<T>, d'': seq<T>)
    requires d + q == b + d' && d' + q' == b' + d''
    ensures d + (q + q') == (b + b') + d''
  {
    assert d + (q + q') == (d + q) + q';
    assert (b + d') + q' == b + (d' + q');
    assert b + (b' + d'') == (b + b') + d'';
  }

  /** In every run the deferred calls of a core run in the order they were queued, none left out and none twice. */
  lemma {:induction false} CallsInOrder(s: State, run: seq<Action>, c: nat)
    requires CanAll(s, run) && c < |s.procs|
    ensures c < |DoAll(s, run).procs|
    ensures s.procs[c].dpcs + Queued(s, run, c) == Started(s, run, c) + DoAll(s, run).procs[c].dpcs
    decreases |run|
  {
    if run != [] {
      var t := Do(s, run[0]);
      CallsStep(s, run[0], c);
      CallsInOrder(t, run[1..], c);
      JoinCalls(s.procs[c].dpcs, QueuedBy(s, run[0], c), StartedBy(s, run[0], c), t.procs[c].dpcs,
                Queued(t, run[1..], c), Started(t, run[1..], c), DoAll(s, run).procs[c].dpcs);
    }
  }

  // ------------------------------------------------------------------ one swap at a time

  ghost predicate AtMostOne(s: State) {
    forall c | 0 <= c < |s.procs| :: SwapCalls(s.procs[c]) <= 1
  }

  /** At every moment of the run no core has two swap calls queued or running. */
  ghost predicate AtMostOneThroughout(s: State, run: seq<Action>)
    requires CanAll(s, run)
    decreases |run|
  {
    AtMostOne(s) && (run == [] || AtMostOneThroughout(Do(s, run[0]), run[1..]))
  }

  /** The handler never queues a swap while one is queued or running. */
  ghost predicate NoneDoubles(s: State, run: seq<Action>)
    requires CanAll(s, run)
    decreases |run|
  {
    run == [] || (!Doubles(s, run[0]) && NoneDoubles(Do(s, run[0]), run[1..]))
  }

  lemma AtMostOneCores(s: State, t: State, c: nat, q: Proc)
    requires AtMostOne(s) && c < |s.procs| && t.procs == s.procs[c := q]
    ensures AtMostOne(t) <==> SwapCalls(q) <= 1
  {
    assert t.procs[c] == q;
  }

  lemma AtMostOneOnward(s: State, a: Action)
    requires AtMostOne(s) && Can(s, a)
    ensures AtMostOne(Do(s, a)) <==> !Doubles(s, a)
  {
    if OnCore(a) {
      OneSwapIff(s, a);
      OnlyThisCore(s, a);
      AtMostOneCores(s, Do(s, a), a.c, ProcAfter(s, a));
    }
  }

  /** In any run, no core ever has two swap calls queued or running if and only if the handler never queues one while
      one is queued or running. */
  lemma {:induction false} OneSwapAlwaysIff(s: State, run: seq<Action>)
    requires AtMostOne(s) && CanAll(s, run)
    ensures AtMostOneThroughout(s, run) <==> NoneDoubles(s, run)
    decreases |run|
  {
    if run != [] {
      AtMostOneOnward(s, run[0]);
      if !Doubles(s, run[0]) {
        OneSwapAlwaysIff(Do(s, run[0]), run[1..]);
      }
    }
  }

  lemma InitAtMostOne(s: State)
    requires Init(s)
    ensures AtMostOne(s)
  {
  }

  ghost predicate AllOneSwap(s: State) {
    forall c | 0 <= c < |s.procs| :: OneSwap(s.procs[c])
  }

  /** No interrupt comes from elsewhere while the swap for a region reported full is on its way. */
  ghost predicate NoneIntrudes(s: State, run: seq<Action>)
    requires CanAll(s, run)
    decreases |run|
  {
    run == [] || (!Intrudes(s, run[0]) && NoneIntrudes(Do(s, run[0]), run[1..]))
  }

  lemma OneSwapCores(s: State, t: State, c: nat, q: Proc)
    requires AllOneSwap(s) && c < |s.procs| && t.procs == s.procs[c := q] && OneSwap(q)
    ensures AllOneSwap(t)
  {
  }

  lemma OneSwapOnward(s: State, a: Action)
    requires Good(s) && AllOneSwap(s) && Can(s, a) && Calm(s, a) && !Intrudes(s, a)
    ensures AllOneSwap(Do(s, a)) && !Doubles(s, a)
  {
    if OnCore(a) {
      OneSwapStep(s, a);
      OnlyThisCore(s, a);
      OneSwapCores(s, Do(s, a), a.c, ProcAfter(s, a));
    }
  }

  lemma {:induction false} NoneIntrudesRun(s: State, run: seq<Action>)
    requires Good(s) && AllOneSwap(s) && CanAll(s, run) && CalmAll(s, run) && NoneIntrudes(s, run)
    ensures NoneDoubles(s, run)
    decreases |run|
  {
    if run != [] {
      OneSwapOnward(s, run[0]);
      GoodStep(s, run[0]);
      NoneIntrudesRun(Do(s, run[0]), run[1..]);
    }
  }

  /** So it takes an interrupt from elsewhere: where none comes while the swap for a region reported full is on its way,
      and disabling is calm, no core ever has two swap calls. */
  lemma OneSwapUnlessIntruded(start: State, run: seq<Action>)
    requires Init(start) && CanAll(start, run) && CalmAll(start, run) && NoneIntrudes(start, run)
    ensures AtMostOneThroughout(start, run)
  {
    InitGood(start);
    NoneIntrudesRun(start, run);
    InitAtMostOne(start);
    OneSwapAlwaysIff(start, run);
  }

  // ------------------------------------------------------------------ tracing comes back

  /** No core that is set up and not disabled is stalled. */
  ghost predicate AllUp(s: State) {
    forall c | 0 <= c < |s.procs| :: s.procs[c].ready && !s.procs[c].retired ==> !Stalled(s.procs[c])
  }

  ghost predicate UpThroughout(s: State, run: seq<Action>)
    requires CanAll(s, run)
    decreases |run|
  {
    AllUp(s) && (run == [] || UpThroughout(Do(s, run[0]), run[1..]))
  }

  ghost predicate NoneStalls(s: State, run: seq<Action>)
    requires CanAll(s, run)
    decreases |run|
  {
    run == [] || (!(OnCore(run[0]) && Stalls(s, run[0])) && NoneStalls(Do(s, run[0]), run[1..]))
  }

  lemma UpCores(s: State, t: State, c: nat, q: Proc)
    requires AllUp(s) && c < |s.procs| && t.procs == s.procs[c := q]
    ensures AllUp(t) <==> (q.ready && !q.retired ==> !Stalled(q))
  {
    assert t.procs[c] == q;
  }

  lemma UpProc(s: State, a: Action)
    requires OnCore(a) && Can(s, a) && Calm(s, a) && Sound(s.procs[a.c])
    requires s.procs[a.c].ready && !s.procs[a.c].retired ==> !Stalled(s.procs[a.c])
    ensures var q := ProcAfter(s, a);
            (q.ready && !q.retired ==> !Stalled(q)) <==> !Stalls(s, a)
  {
    if s.procs[a.c].retired {
      RetiredIsPast(s, a);
    } else {
      StallsIff(s, a);
    }
  }

  lemma UpOnward(s: State, a: Action)
    requires Good(s) && AllUp(s) && Can(s, a) && Calm(s, a)
    ensures AllUp(Do(s, a)) <==> !(OnCore(a) && Stalls(s, a))
  {
    if OnCore(a) {
      UpProc(s, a);
      OnlyThisCore(s, a);
      UpCores(s, Do(s, a), a.c, ProcAfter(s, a));
    }
  }

  lemma {:induction false} UpRun(s: State, run: seq<Action>)
    requires Good(s) && AllUp(s) && CanAll(s, run) && CalmAll(s, run)
    ensures UpThroughout(s, run) <==> NoneStalls(s, run)
    decreases |run|
  {
    if run != [] {
      UpOnward(s, run[0]);
      GoodStep(s, run[0]);
      if AllUp(Do(s, run[0])) {
        UpRun(Do(s, run[0]), run[1..]);
      }
    }
  }

  /** In every run in which disabling is calm, no core that is set up and not disabled ever stalls if and only if no
      step is one of those that stall a core. */
  lemma NeverStallsIff(start: State, run: seq<Action>)
    requires Init(start) && CanAll(start, run) && CalmAll(start, run)
    ensures UpThroughout(start, run) <==> NoneStalls(start, run)
  {
    InitGood(start);
    UpRun(start, run);
  }

  /** Every step on a core obliges. */
  ghost predicate ObligingAll(s: State, run: seq<Action>)
    requires CanAll(s, run)
    decreases |run|
  {
    run == [] || ((OnCore(run[0]) ==> Obliging(s, run[0])) && ObligingAll(Do(s, run[0]), run[1..]))
  }

  ghost predicate NoneLate(s: State, run: seq<Action>)
    requires CanAll(s, run)
    decreases |run|
  {
    run == [] || ((OnCore(run[0]) ==> !Late(s, run[0])) && NoneLate(Do(s, run[0]), run[1..]))
  }

  ghost predicate AllAlive(s: State) {
    forall c | 0 <= c < |s.procs| :: Alive(s.procs[c])
  }

  lemma AliveCores(s: State, t: State, c: nat, q: Proc)
    requires AllAlive(s) && c < |s.procs| && t.procs == s.procs[c := q] && Alive(q)
    ensures AllAlive(t)
  {
  }

  lemma AliveOnward(s: State, a: Action)
    requires Good(s) && AllAlive(s) && Can(s, a) && (OnCore(a) ==> Obliging(s, a) && !Late(s, a))
    ensures AllAlive(Do(s, a))
  {
    if OnCore(a) {
      AliveStep(s, a);
      OnlyThisCore(s, a);
      AliveCores(s, Do(s, a), a.c, ProcAfter(s, a));
    }
  }

  lemma {:induction false} AliveRun(s: State, run: seq<Action>)
    requires Good(s) && AllAlive(s) && CanAll(s, run) && CalmAll(s, run) && ObligingAll(s, run) && NoneLate(s, run)
    ensures UpThroughout(s, run)
    decreases |run|
  {
    if run != [] {
      AliveOnward(s, run[0]);
      GoodStep(s, run[0]);
      AliveRun(Do(s, run[0]), run[1..]);
    }
  }

  /** If no allocation fails, the hardware starts when asked and no full region is handled between the check that it has
      and the write of the running status, then no core that is set up and not disabled ever stalls. Interrupts from
      elsewhere may come at any time. */
  lemma NeverStalls(start: State, run: seq<Action>)
    requires Init(start) && CanAll(start, run) && CalmAll(start, run) && ObligingAll(start, run) && NoneLate(start, run)
    ensures UpThroughout(start, run)
  {
    InitGood(start);
    AliveRun(start, run);
  }
}
