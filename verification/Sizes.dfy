/** The byte counts and the core numbers that buffers are handed over with. */
module Sizes {
  import opened PacketTable
  import opened Topa
  import opened CoreTrace
  import opened Handoff
  import opened Ownership
  import opened Memory

  /** The count the published formula gives for the output of buffer m, or nothing once a swap that ran out of pages has
      rewound the register. */
  ghost predicate SizeRight(s: State, m: Mdl, size: nat) {
    && m.id < |s.outputs| && 0 < |m.frames|
    && size == PublishedSize(if m.id in s.rewound then FRONT_MASK
                             else Register(Around(|m.frames|, |s.outputs[m.id]|)))
  }

  /** Buffer m was core c's, and its size is right if the core had been set up. */
  ghost predicate Right(s: State, c: nat, m: Mdl, size: nat) {
    && c < |s.procs| && m.id < |s.homes| && s.homes[m.id] == c && (s.procs[c].ready || s.procs[c].retired)
    && (s.procs[c].ready ==> SizeRight(s, m, size))
  }

  ghost predicate StageRight(s: State, c: nat)
    requires c < |s.procs|
  {
    match s.procs[c].stage
    case Holding(m, size, _) => Right(s, c, m, size)
    case Carrying(item) => item.mdl.Some? ==> item.cpu == c && Right(s, c, item.mdl.value, item.size)
    case _ => true
  }

  /** A last buffer comes from a disabled core, any other from one that had been set up. */
  ghost predicate ItemRight(s: State, item: Item) {
    item.mdl.Some? ==>
      && Right(s, item.cpu, item.mdl.value, item.size)
      && (if item.last then s.procs[item.cpu].retired else s.procs[item.cpu].ready)
  }

  ghost predicate HomeRight(s: State, c: nat)
    requires c < |s.procs|
  {
    var i := s.procs[c].core.mdl.id;
    !s.procs[c].retired ==> i < |s.homes| && s.homes[i] == c
  }

  ghost predicate Labelled(s: State) {
    && |s.homes| == |s.mdls|
    && (forall c | 0 <= c < |s.procs| :: StageRight(s, c) && HomeRight(s, c))
    && (forall n | 0 <= n < |s.log| :: ItemRight(s, s.log[n]))
  }

  lemma InitLabelled(s: State)
    requires Init(s)
    ensures Labelled(s)
  {
  }

  /** Set-up comes before disabling, and neither is undone. */
  lemma ReadyOnward(s: State, a: Action, c: nat)
    requires Can(s, a) && c < |s.procs| && (s.procs[c].ready || s.procs[c].retired)
    ensures var t := Do(s, a);
            && |t.procs| == |s.procs| && (t.procs[c].ready || t.procs[c].retired)
            && t.procs[c].ready == s.procs[c].ready && (s.procs[c].retired ==> t.procs[c].retired)
  {
    if OnCore(a) {
      OnlyThisCore(s, a);
    }
  }

  lemma HomesOnly(s: State, a: Action)
    requires Can(s, a)
    ensures Do(s, a).homes == if OnCore(a) && Swaps(s, a) then s.homes + [a.c] else s.homes
  {
  }

  /** What is right of a buffer off the cores stays right. */
  lemma RightOnward(s: State, a: Action, c: nat, m: Mdl, size: nat)
    requires Good(s) && Faithful(s) && Can(s, a) && Right(s, c, m, size)
    requires m.id < |s.mdls| && !s.owner[m.id].Live?
    ensures Right(Do(s, a), c, m, size)
  {
    FinalStep(s, a, m.id);
    ReadyOnward(s, a, c);
    HomesOnly(s, a);
  }

  lemma ItemOnward(s: State, a: Action, n: nat)
    requires Good(s) && Faithful(s) && Labelled(s) && Can(s, a) && n < |s.log|
    ensures ItemRight(Do(s, a), s.log[n])
  {
    assert ItemRight(s, s.log[n]);
    if s.log[n].mdl.Some? {
      assert Belongs(s, s.log[n].mdl.value, Logged(n));
      RightOnward(s, a, s.log[n].cpu, s.log[n].mdl.value, s.log[n].size);
      ReadyOnward(s, a, s.log[n].cpu);
    }
  }

  /** A core that takes no step keeps what is right of the buffer in its hands and of its live one. */
  lemma CoreOnward(s: State, a: Action, c: nat)
    requires Good(s) && Faithful(s) && Labelled(s) && Can(s, a) && c < |s.procs|
    requires c < |Do(s, a).procs| && Do(s, a).procs[c] == s.procs[c]
    ensures StageRight(Do(s, a), c) && HomeRight(Do(s, a), c)
  {
    assert StageRight(s, c) && HomeRight(s, c);
    HomesOnly(s, a);
    var held := HeldBy(s.procs[c].stage);
    if held.Some? {
      assert Belongs(s, held.value, Held(c));
      var size := if s.procs[c].stage.Holding? then s.procs[c].stage.size else s.procs[c].stage.item.size;
      RightOnward(s, a, c, held.value, size);
    }
  }

  /** A core whose step takes its live buffer reports where its register stood. */
  lemma TakingOnward(s: State, a: Action)
    requires Good(s) && Faithful(s) && Labelled(s) && Takes(s, a)
    ensures StageRight(Do(s, a), a.c) && HomeRight(Do(s, a), a.c)
  {
    var p, t := s.procs[a.c], Do(s, a);
    assert HomeRight(s, a.c) && Aimed(s, a.c);
    assert p.dpcs != [] && !p.retired;
    assert Belongs(s, p.core.mdl, Live(a.c));
    OnlyThisCore(s, a);
    HomesOnly(s, a);
    RewoundOnly(s, a);
    TakingReports(s, a);
    if Swaps(s, a) {
      SwapHolds(s, a);
      assert t.mdls == s.mdls + [t.procs[a.c].core.mdl];
    } else {
      MemoryUntouched(s, a);
    }
  }

  lemma TakingReports(s: State, a: Action)
    requires Takes(s, a) && Sound(s.procs[a.c])
    ensures var p, q := s.procs[a.c], ProcAfter(s, a);
            && q.stage.Holding? && q.stage.mdl == p.core.mdl && q.stage.size == PublishedSize(p.core.mask)
            && (q.ready == p.ready) && (Swaps(s, a) ==> q.core.mdl.id == |s.mdls| && !q.retired && q.ready)
            && (!Swaps(s, a) ==> q.retired) && !RunsOut(s, a)
  {
  }

  /** Every other step on a core passes on what it has. */
  lemma PassingOnward(s: State, a: Action)
    requires Good(s) && Faithful(s) && Labelled(s) && Can(s, a) && OnCore(a) && !Takes(s, a)
    ensures StageRight(Do(s, a), a.c) && HomeRight(Do(s, a), a.c)
  {
    assert StageRight(s, a.c) && HomeRight(s, a.c);
    OnlyThisCore(s, a);
    HomesOnly(s, a);
    PassesOn(s, a);
    var held := HeldBy(s.procs[a.c].stage);
    if held.Some? {
      assert Belongs(s, held.value, Held(a.c));
      var size := if s.procs[a.c].stage.Holding? then s.procs[a.c].stage.size else s.procs[a.c].stage.item.size;
      RightOnward(s, a, a.c, held.value, size);
    }
  }

  lemma PassesOn(s: State, a: Action)
    requires Can(s, a) && OnCore(a) && !Takes(s, a) && Sound(s.procs[a.c])
    ensures var p, q := s.procs[a.c], ProcAfter(s, a);
            && q.core.mdl == p.core.mdl && q.retired == p.retired
            && (q.stage.Holding? ==> q.stage == p.stage)
            && (q.stage.Carrying? ==>
                  q.stage == p.stage
                  || (p.stage.Holding? && q.stage.item.mdl == Some(p.stage.mdl) && q.stage.item.size == p.stage.size
                      && q.stage.item.cpu == a.c))
  {
  }

  /** A step enqueues at most what its core carried. */
  lemma Enqueues(s: State, a: Action, n: nat)
    requires Can(s, a) && n < |Do(s, a).log| && |s.log| <= n
    ensures var item := Do(s, a).log[n];
            item.mdl.Some? ==> OnCore(a) && s.procs[a.c].stage == Carrying(item)
  {
  }

  lemma LogGrows(s: State, a: Action)
    requires Can(s, a)
    ensures |s.log| <= |Do(s, a).log| && Do(s, a).log[..|s.log|] == s.log
  {
    if OnCore(a) && a.BeginDpc? {
      BeginLogsNothing(s, a);
    }
  }

  lemma BeginLogsNothing(s: State, a: Action)
    requires a.BeginDpc? && Can(s, a)
    ensures Do(s, a).log == s.log
  {
  }

  lemma LogOnward(s: State, a: Action, n: nat)
    requires Good(s) && Faithful(s) && Labelled(s) && Can(s, a) && n < |Do(s, a).log|
    ensures ItemRight(Do(s, a), Do(s, a).log[n])
  {
    var item := Do(s, a).log[n];
    LogGrows(s, a);
    if n < |s.log| {
      assert Do(s, a).log[..|s.log|][n] == s.log[n];
      ItemOnward(s, a, n);
    } else if item.mdl.Some? {
      Enqueues(s, a, n);
      assert StageRight(s, a.c);
      assert Belongs(s, item.mdl.value, Held(a.c));
      RightOnward(s, a, a.c, item.mdl.value, item.size);
      ReadyOnward(s, a, a.c);
    }
  }

  lemma LabelledStep(s: State, a: Action)
    requires Good(s) && Faithful(s) && Labelled(s) && Can(s, a)
    ensures Labelled(Do(s, a))
  {
    var t := Do(s, a);
    HomesOnly(s, a);
    forall n | 0 <= n < |t.log| ensures ItemRight(t, t.log[n]) {
      LogOnward(s, a, n);
    }
    forall c | 0 <= c < |t.procs| ensures StageRight(t, c) && HomeRight(t, c) {
      CoresOnward(s, a, c);
    }
    MdlsWithHomes(s, a);
  }

  lemma MdlsWithHomes(s: State, a: Action)
    requires Can(s, a)
    ensures |Do(s, a).mdls| - |s.mdls| == |Do(s, a).homes| - |s.homes|
  {
    if OnCore(a) && Swaps(s, a) {
      SwapAdds(s, a);
    } else if !a.Output? {
      HomesOnly(s, a);
      MemoryUntouched(s, a);
    }
  }

  lemma SwapAdds(s: State, a: Action)
    requires Can(s, a) && Swaps(s, a)
    ensures |Do(s, a).mdls| == |s.mdls| + 1 && |Do(s, a).homes| == |s.homes| + 1
  {
  }

  lemma CoresOnward(s: State, a: Action, c: nat)
    requires Good(s) && Faithful(s) && Labelled(s) && Can(s, a) && c < |Do(s, a).procs|
    ensures StageRight(Do(s, a), c) && HomeRight(Do(s, a), c)
  {
    if !OnCore(a) {
      assert Do(s, a).procs == s.procs;
      CoreOnward(s, a, c);
    } else {
      OnlyThisCore(s, a);
      if a.c != c {
        CoreOnward(s, a, c);
      } else if Takes(s, a) {
        TakingOnward(s, a);
      } else {
        PassingOnward(s, a);
      }
    }
  }

  lemma {:induction false} LabelledAlways(s: State, run: seq<Action>)
    requires Good(s) && Faithful(s) && Labelled(s) && CanAll(s, run) && CalmAll(s, run)
    ensures Labelled(DoAll(s, run))
    decreases |run|
  {
    if run != [] {
      GoodStep(s, run[0]);
      FaithfulStep(s, run[0]);
      LabelledStep(s, run[0]);
      LabelledAlways(Do(s, run[0]), run[1..]);
    }
  }

  /** In every run in which disabling is calm, every item enqueued names the core its buffer was for, and is the last
      one only if that core has been disabled. Its size, a core disabled without having been set up apart, is what the
      published formula makes of the place behind the last byte of output, or 0 if a swap of the buffer had run out of
      pages. Within the first lap that is the number of bytes put out exactly when they fit one page. */
  lemma SizesReported(start: State, run: seq<Action>, n: nat)
    requires Init(start) && CanAll(start, run) && CalmAll(start, run)
    requires n < |DoAll(start, run).log| && DoAll(start, run).log[n].mdl.Some?
    ensures var s := DoAll(start, run);
            var item := s.log[n];
            var m := item.mdl.value;
            && m.id < |s.homes| && item.cpu == s.homes[m.id] && item.cpu < |s.procs|
            && (item.last ==> s.procs[item.cpu].retired)
            && (!item.last || s.procs[item.cpu].ready ==>
                  && m.id < |s.outputs| && 0 < |m.frames|
                  && var k := |s.outputs[m.id]|;
                  && (m.id in s.rewound ==> item.size == 0)
                  && (m.id !in s.rewound ==> item.size == PublishedSize(Register(Around(|m.frames|, k))))
                  && (m.id !in s.rewound && k < SizeOf(m) ==> (item.size == k <==> k < PAGE_SIZE)))
  {
    InitGood(start);
    InitFaithful(start);
    InitLabelled(start);
    GoodAlways(start, run);
    FaithfulAlways(start, run);
    LabelledAlways(start, run);
    var s := DoAll(start, run);
    var item := s.log[n];
    assert ItemRight(s, item);
    assert Belongs(s, item.mdl.value, Logged(n));
    assert Holds(s, item.mdl.value.id);
    if s.procs[item.cpu].ready {
      FirstLapSize(item.mdl.value, |s.outputs[item.mdl.value.id]|);
    }
  }

  lemma FirstLapSize(m: Mdl, k: nat)
    requires Sized(m)
    ensures PublishedSize(FRONT_MASK) == 0
    ensures k < SizeOf(m) ==> (PublishedSize(Register(Around(|m.frames|, k))) == k <==> k < PAGE_SIZE)
  {
    if k < SizeOf(m) {
      var q := k / PAGE_SIZE;
      assert q < |m.frames|;
      QuotientUnique(q, |m.frames|, 0, q);
      RegisterSizes(Position(q, k % PAGE_SIZE));
    }
  }
}
