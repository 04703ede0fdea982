/** Running one routine on every core and waiting for it, as interleaved atomic steps. */
module Barrier {

  datatype Level = IpiLevel | DpcLevel
  datatype Error = InsufficientResources | AccessDenied

  /** How far the call that one core owes to the structure has come. */
  datatype Phase = Unsent | Sent | Ran | Counted

  datatype Caller = Queueing(i: nat) | Calling | Spinning | Succeeded | Failed(error: Error, i: nat)

  /** A failed caller had got to core i. dpcCounter and ipiCounter are signed 16-bit. dpcRuns and ipiRuns are history:
      how often the routine ran on each core at each level. */
  datatype Sync = Sync(
    level: Level, cores: nat, caller: Caller, dpcs: seq<Phase>, ipis: seq<Phase>, dpcCounter: int, ipiCounter: int,
    dpcRuns: seq<nat>, ipiRuns: seq<nat>)

  datatype Queued = Inserted | NoMemory | Refused

  datatype Action =
    | QueueDpc(outcome: Queued)
    | Call
    | RunDpc(c: nat)
    | CountDpc(c: nat)
    | RunIpi(c: nat)
    | CountIpi(c: nat)
    | CallReturns
    | SeeCount

  const SHORT_MAX := 32767

  function Increment16(x: int): int {
    if x == SHORT_MAX then -SHORT_MAX - 1 else x + 1
  }

  ghost predicate All(ps: seq<Phase>, p: Phase) {
    forall c | 0 <= c < |ps| :: ps[c] == p
  }

  ghost predicate Init(s: Sync) {
    && |s.dpcs| == |s.ipis| == |s.dpcRuns| == |s.ipiRuns| == s.cores
    && s.caller == (if s.level == DpcLevel then Queueing(0) else Calling)
    && All(s.dpcs, Unsent) && All(s.ipis, if s.level == DpcLevel then Unsent else Sent)
    && s.dpcCounter == s.ipiCounter == 0
    && forall c | 0 <= c < s.cores :: s.dpcRuns[c] == 0 && s.ipiRuns[c] == 0
  }

  ghost predicate Can(s: Sync, a: Action) {
    match a
    case QueueDpc(_) => s.caller.Queueing? && s.caller.i < s.cores && s.caller.i < |s.dpcs|
    case Call => s.caller.Queueing? && s.caller.i == s.cores
    case RunDpc(c) => c < |s.dpcs| && c < |s.dpcRuns| && s.dpcs[c] == Sent
    case CountDpc(c) => c < |s.dpcs| && s.dpcs[c] == Ran
    case RunIpi(c) => c < |s.ipis| && c < |s.ipiRuns| && s.ipis[c] == Sent
    case CountIpi(c) => c < |s.ipis| && s.ipis[c] == Ran
    case CallReturns => s.caller == Calling && All(s.ipis, Counted)
    case SeeCount => s.caller == Spinning && (if s.level == DpcLevel then s.dpcCounter else s.ipiCounter) == s.cores
  }

  /** The routine itself runs only at the requested level; the counter of either level counts regardless. */
  function Do(s: Sync, a: Action): Sync
    requires Can(s, a)
  {
    match a
    case QueueDpc(NoMemory) => s.(caller := Failed(InsufficientResources, s.caller.i))
    case QueueDpc(Refused) => s.(caller := Failed(AccessDenied, s.caller.i))
    case QueueDpc(Inserted) => s.(caller := Queueing(s.caller.i + 1), dpcs := s.dpcs[s.caller.i := Sent])
    case Call => s.(caller := Calling, ipis := seq(|s.ipis|, _ => Sent))
    case RunDpc(c) =>
      s.(dpcs := s.dpcs[c := Ran], dpcRuns := s.dpcRuns[c := s.dpcRuns[c] + if s.level == DpcLevel then 1 else 0])
    case CountDpc(c) => s.(dpcs := s.dpcs[c := Counted], dpcCounter := Increment16(s.dpcCounter))
    case RunIpi(c) =>
      s.(ipis := s.ipis[c := Ran], ipiRuns := s.ipiRuns[c := s.ipiRuns[c] + if s.level == IpiLevel then 1 else 0])
    case CountIpi(c) => s.(ipis := s.ipis[c := Counted], ipiCounter := Increment16(s.ipiCounter))
    case CallReturns => s.(caller := Spinning)
    case SeeCount => s.(caller := Succeeded)
  }

  ghost predicate CanAll(s: Sync, run: seq<Action>)
    decreases |run|
  {
    run == [] || (Can(s, run[0]) && CanAll(Do(s, run[0]), run[1..]))
  }

  ghost function DoAll(s: Sync, run: seq<Action>): Sync
    requires CanAll(s, run)
    decreases |run|
  {
    if run == [] then s else DoAll(Do(s, run[0]), run[1..])
  }

  // ------------------------------------------------------------------ sums over the cores

  function Owes(p: Phase): nat {
    match p case Unsent => 3 case Sent => 2 case Ran => 1 case Counted => 0
  }

  function Done(p: Phase): nat {
    if p == Counted then 1 else 0
  }

  function Debt(ps: seq<Phase>): nat {
    if ps == [] then 0 else Owes(ps[0]) + Debt(ps[1..])
  }

  function Finished(ps: seq<Phase>): nat {
    if ps == [] then 0 else Done(ps[0]) + Finished(ps[1..])
  }

  lemma {:induction false} UpdateSums(ps: seq<Phase>, c: nat, p: Phase)
    requires c < |ps|
    ensures Debt(ps[c := p]) == Debt(ps) - Owes(ps[c]) + Owes(p)
    ensures Finished(ps[c := p]) == Finished(ps) - Done(ps[c]) + Done(p)
  {
    if c == 0 {
      assert ps[0 := p][1..] == ps[1..];
    } else {
      assert ps[c := p][1..] == ps[1..][c - 1 := p];
      UpdateSums(ps[1..], c - 1, p);
    }
  }

  lemma {:induction false} FinishedAll(ps: seq<Phase>)
    ensures Finished(ps) <= |ps|
    ensures Finished(ps) == |ps| <==> All(ps, Counted)
  {
    if ps != [] {
      FinishedAll(ps[1..]);
      assert All(ps, Counted) <==> ps[0] == Counted && All(ps[1..], Counted) by {
        assert forall c | 0 <= c < |ps[1..]| :: ps[1..][c] == ps[c + 1];
        assert forall c | 1 <= c < |ps| :: ps[c] == ps[1..][c - 1];
      }
    }
  }

  lemma {:induction false} FinishedNone(ps: seq<Phase>)
    requires forall c | 0 <= c < |ps| :: ps[c] != Counted
    ensures Finished(ps) == 0
  {
    if ps != [] {
      FinishedNone(ps[1..]);
    }
  }

  lemma {:induction false} DebtUniform(ps: seq<Phase>, p: Phase)
    requires All(ps, p)
    ensures Debt(ps) == Owes(p) * |ps|
  {
    if ps != [] {
      DebtUniform(ps[1..], p);
    }
  }

  // ------------------------------------------------------------------ what every step keeps

  /** The signed 16-bit number that counting to k ends on. */
  function Short(k: nat): int {
    if k == 0 then 0 else Increment16(Short(k - 1))
  }

  lemma {:induction false} ShortIsItself(k: nat)
    ensures -32768 <= Short(k) <= 32767 && (k - Short(k)) % 65536 == 0
    ensures k <= 32767 ==> Short(k) == k
  {
    if k > 0 {
      ShortIsItself(k - 1);
    }
  }

  /** The routine runs once per core at the requested level and never at the other. */
  ghost predicate RunsMatch(runs: seq<nat>, ps: seq<Phase>, asked: bool) {
    && |runs| == |ps|
    && forall c | 0 <= c < |ps| :: runs[c] == if asked && (ps[c] == Ran || ps[c] == Counted) then 1 else 0
  }

  ghost predicate SentExactly(ps: seq<Phase>, i: nat) {
    i <= |ps| && forall c | 0 <= c < |ps| :: ps[c] == Unsent <==> i <= c
  }

  ghost predicate Where(s: Sync) {
    var asked := if s.level == DpcLevel then s.cores else 0;
    match s.caller
    case Queueing(i) => s.level == DpcLevel && SentExactly(s.dpcs, i) && All(s.ipis, Unsent)
    case Calling => SentExactly(s.dpcs, asked) && SentExactly(s.ipis, s.cores)
    case Spinning => SentExactly(s.dpcs, asked) && All(s.ipis, Counted)
    case Succeeded =>
      && SentExactly(s.dpcs, asked) && All(s.ipis, Counted) && (s.level == DpcLevel ==> All(s.dpcs, Counted))
      && s.cores <= SHORT_MAX
    case Failed(_, i) => s.level == DpcLevel && i < s.cores && SentExactly(s.dpcs, i) && All(s.ipis, Unsent)
  }

  ghost predicate Inv(s: Sync) {
    && |s.dpcs| == |s.ipis| == s.cores
    && RunsMatch(s.dpcRuns, s.dpcs, s.level == DpcLevel) && RunsMatch(s.ipiRuns, s.ipis, s.level == IpiLevel)
    && s.dpcCounter == Short(Finished(s.dpcs)) && s.ipiCounter == Short(Finished(s.ipis))
    && Where(s)
  }

  lemma InitInv(s: Sync)
    requires Init(s)
    ensures Inv(s)
  {
    FinishedNone(s.dpcs);
    FinishedNone(s.ipis);
  }

  lemma CountReaches(ps: seq<Phase>)
    ensures Short(Finished(ps)) == |ps| <==> All(ps, Counted) && |ps| <= SHORT_MAX
  {
    FinishedAll(ps);
    ShortIsItself(Finished(ps));
  }

  lemma QueueStep(s: Sync, a: Action)
    requires Inv(s) && Can(s, a) && a.QueueDpc?
    ensures Inv(Do(s, a))
  {
    assert SentExactly(s.dpcs, s.caller.i);
    if a.outcome == Inserted {
      UpdateSums(s.dpcs, s.caller.i, Sent);
      SentOneMore(s.dpcs, s.caller.i);
    }
  }

  lemma SentOneMore(ps: seq<Phase>, i: nat)
    requires SentExactly(ps, i) && i < |ps|
    ensures SentExactly(ps[i := Sent], i + 1)
  {
  }

  lemma CallStep(s: Sync, a: Action)
    requires Inv(s) && Can(s, a) && (a.Call? || a.CallReturns?)
    ensures Inv(Do(s, a))
  {
    if a.Call? {
      FinishedNone(s.ipis);
      FinishedNone(Do(s, a).ipis);
    }
  }

  lemma SeeStep(s: Sync)
    requires Inv(s) && Can(s, SeeCount)
    ensures Inv(Do(s, SeeCount))
  {
    CountReaches(s.dpcs);
    CountReaches(s.ipis);
  }

  lemma DpcStep(s: Sync, a: Action)
    requires Inv(s) && Can(s, a) && (a.RunDpc? || a.CountDpc?)
    ensures Inv(Do(s, a))
  {
    var p := if a.RunDpc? then Ran else Counted;
    UpdateSums(s.dpcs, a.c, p);
    assert Do(s, a).dpcs == s.dpcs[a.c := p];
  }

  lemma IpiStep(s: Sync, a: Action)
    requires Inv(s) && Can(s, a) && (a.RunIpi? || a.CountIpi?)
    ensures Inv(Do(s, a))
  {
    var p := if a.RunIpi? then Ran else Counted;
    UpdateSums(s.ipis, a.c, p);
    assert Do(s, a).ipis == s.ipis[a.c := p];
  }

  lemma InvStep(s: Sync, a: Action)
    requires Inv(s) && Can(s, a)
    ensures Inv(Do(s, a))
  {
    if a.RunDpc? || a.CountDpc? {
      DpcStep(s, a);
    } else if a.RunIpi? || a.CountIpi? {
      IpiStep(s, a);
    } else if a.QueueDpc? {
      QueueStep(s, a);
    } else if a.SeeCount? {
      SeeStep(s);
    } else {
      CallStep(s, a);
    }
  }

  lemma {:induction false} InvAlways(s: Sync, run: seq<Action>)
    requires Inv(s) && CanAll(s, run)
    ensures Inv(DoAll(s, run))
    decreases |run|
  {
    if run != [] {
      InvStep(s, run[0]);
      InvAlways(Do(s, run[0]), run[1..]);
    }
  }

  // ------------------------------------------------------------------ what the caller may rely on

  /** No core will touch the structure any more. */
  ghost predicate Quiescent(s: Sync) {
    forall c | 0 <= c < s.cores && c < |s.dpcs| && c < |s.ipis| ::
      (s.dpcs[c] == Unsent || s.dpcs[c] == Counted) && (s.ipis[c] == Unsent || s.ipis[c] == Counted)
  }

  /** At every moment of every run the counters are the numbers of cores that have finished, and the routine has run
      once on each core past its call at the requested level, and nowhere else. */
  lemma CountersCount(start: Sync, run: seq<Action>)
    requires Init(start) && CanAll(start, run) && start.cores <= SHORT_MAX
    ensures var s := DoAll(start, run);
            && s.dpcCounter == Finished(s.dpcs) && s.ipiCounter == Finished(s.ipis)
            && RunsMatch(s.dpcRuns, s.dpcs, s.level == DpcLevel) && RunsMatch(s.ipiRuns, s.ipis, s.level == IpiLevel)
  {
    InitInv(start);
    InvAlways(start, run);
    SameCores(start, run);
    var s := DoAll(start, run);
    FinishedAll(s.dpcs);
    FinishedAll(s.ipis);
    ShortIsItself(Finished(s.dpcs));
    ShortIsItself(Finished(s.ipis));
  }

  lemma {:induction false} SameCores(s: Sync, run: seq<Action>)
    requires CanAll(s, run)
    ensures DoAll(s, run).cores == s.cores && DoAll(s, run).level == s.level
    decreases |run|
  {
    if run != [] {
      SameCores(Do(s, run[0]), run[1..]);
    }
  }

  /** Success means the routine ran exactly once on every core at the requested level and nowhere at the other, and
      that the structure, which lives on the caller's stack, is no longer in use. */
  lemma SuccessMeansOnceEverywhere(start: Sync, run: seq<Action>)
    requires Init(start) && CanAll(start, run) && DoAll(start, run).caller == Succeeded
    ensures var s := DoAll(start, run);
            && |s.dpcRuns| == |s.ipiRuns| == s.cores && s.cores <= SHORT_MAX
            && (forall c | 0 <= c < s.cores ::
                  && s.dpcRuns[c] == (if s.level == DpcLevel then 1 else 0)
                  && s.ipiRuns[c] == (if s.level == IpiLevel then 1 else 0))
            && Quiescent(s)
  {
    InitInv(start);
    InvAlways(start, run);
  }

  /** The wait ends exactly when every core has counted, provided the count fits the 16-bit counter. */
  lemma WaitEndsIff(s: Sync)
    requires Inv(s) && s.caller == Spinning
    ensures Can(s, SeeCount) <==>
            s.cores <= SHORT_MAX && All(if s.level == DpcLevel then s.dpcs else s.ipis, Counted)
  {
    CountReaches(s.dpcs);
    CountReaches(s.ipis);
  }

  /** Failure while queueing for core i: cores below i run the routine at most once, the others never, none by
      interrupt. */
  lemma FailureRunsAPrefix(start: Sync, run: seq<Action>)
    requires Init(start) && CanAll(start, run) && DoAll(start, run).caller.Failed?
    ensures var s := DoAll(start, run);
            && |s.dpcRuns| == |s.ipiRuns| == s.cores && s.level == DpcLevel
            && s.caller.i < s.cores
            && forall c | 0 <= c < s.cores :: s.ipiRuns[c] == 0 && s.dpcRuns[c] <= (if c < s.caller.i then 1 else 0)
  {
    InitInv(start);
    InvAlways(start, run);
  }

  ghost predicate Fails(a: Action) {
    a.QueueDpc? && a.outcome != Inserted
  }

  /** A run fails only by its last queueing step, which tells the error: no memory for the call, or the kernel refused
      it. */
  lemma {:induction false} ErrorIff(s: Sync, run: seq<Action>)
    requires CanAll(s, run) && !s.caller.Failed?
    ensures var t := DoAll(s, run);
            && (t.caller.Failed? <==> exists j :: 0 <= j < |run| && Fails(run[j]))
            && (t.caller.Failed? ==> forall j | 0 <= j < |run| && Fails(run[j]) ::
                  t.caller.error == InsufficientResources <==> run[j].outcome == NoMemory)
    decreases |run|
  {
    if run != [] {
      var t := Do(s, run[0]);
      if Fails(run[0]) {
        FailedStays(t, run[1..]);
      } else {
        ErrorIff(t, run[1..]);
      }
      assert forall j | 1 <= j < |run| :: run[j] == run[1..][j - 1];
      assert forall j | 0 <= j < |run[1..]| :: run[1..][j] == run[j + 1];
    }
  }

  lemma {:induction false} FailedStays(s: Sync, run: seq<Action>)
    requires CanAll(s, run) && s.caller.Failed?
    ensures DoAll(s, run).caller == s.caller && forall j | 0 <= j < |run| :: !Fails(run[j])
    decreases |run|
  {
    if run != [] {
      FailedStays(Do(s, run[0]), run[1..]);
      assert forall j | 1 <= j < |run| :: run[j] == run[1..][j - 1];
    }
  }

  /** Such a return can leave calls outstanding that still use the structure: every early failure past core 0 does so
      unless the cores before it have all counted by then. */
  lemma FailureQuiescentIff(s: Sync, outcome: Queued)
    requires Inv(s) && Can(s, QueueDpc(outcome)) && outcome != Inserted
    ensures var t := Do(s, QueueDpc(outcome));
            t.caller.Failed? && (Quiescent(t) <==> forall c | 0 <= c < s.caller.i :: s.dpcs[c] == Counted)
  {
    var t := Do(s, QueueDpc(outcome));
    assert SentExactly(s.dpcs, s.caller.i);
    forall c | 0 <= c < s.caller.i ensures Quiescent(t) ==> s.dpcs[c] == Counted {
      assert s.dpcs[c] != Unsent;
    }
  }

  /** From the start on two cores or more some run fails with a call outstanding: the first is queued, and there is no
      memory for the second. */
  lemma FailureHappens(start: Sync)
    requires Init(start) && start.level == DpcLevel && 2 <= start.cores
    ensures var run := [QueueDpc(Inserted), QueueDpc(NoMemory)];
            CanAll(start, run) && DoAll(start, run).caller.Failed? && !Quiescent(DoAll(start, run))
  {
    var run := [QueueDpc(Inserted), QueueDpc(NoMemory)];
    var s := Do(start, run[0]);
    var t := Do(s, run[1]);
    assert run[1..] == [run[1]] && run[1..][1..] == [];
    assert CanAll(t, []) && DoAll(t, []) == t;
    assert CanAll(s, run[1..]) && DoAll(s, run[1..]) == t;
    assert t.dpcs[0] == Sent && t.ipis[0] == Unsent;
  }

  // ------------------------------------------------------------------ it comes to an end

  function CallerOwes(caller: Caller): nat {
    match caller case Queueing(_) => 3 case Calling => 2 case Spinning => 1 case Succeeded => 0 case Failed(_, _) => 0
  }

  function Work(s: Sync): nat {
    Debt(s.dpcs) + Debt(s.ipis) + CallerOwes(s.caller)
  }

  /** Every step does some of a bounded amount of work. */
  lemma StepsShrinkWork(s: Sync, a: Action)
    requires Inv(s) && Can(s, a)
    ensures Work(Do(s, a)) < Work(s)
  {
    if a.RunDpc? || a.CountDpc? {
      UpdateSums(s.dpcs, a.c, if a.RunDpc? then Ran else Counted);
    } else if a.RunIpi? || a.CountIpi? {
      UpdateSums(s.ipis, a.c, if a.RunIpi? then Ran else Counted);
    } else {
      CallerShrinksWork(s, a);
    }
  }

  lemma CallerShrinksWork(s: Sync, a: Action)
    requires Inv(s) && Can(s, a) && (a.QueueDpc? || a.Call? || a.CallReturns? || a.SeeCount?)
    ensures Work(Do(s, a)) < Work(s)
  {
    if a.QueueDpc? {
      UpdateSums(s.dpcs, s.caller.i, Sent);
    } else if a.Call? {
      DebtUniform(s.ipis, Unsent);
      DebtUniform(Do(s, a).ipis, Sent);
    }
  }

  lemma {:induction false} RunsAreBounded(s: Sync, run: seq<Action>)
    requires Inv(s) && CanAll(s, run)
    ensures |run| + Work(DoAll(s, run)) <= Work(s)
    decreases |run|
  {
    if run != [] {
      StepsShrinkWork(s, run[0]);
      InvStep(s, run[0]);
      RunsAreBounded(Do(s, run[0]), run[1..]);
    }
  }

  predicate HasReturned(s: Sync) {
    s.caller.Succeeded? || s.caller.Failed?
  }

  ghost predicate Stuck(s: Sync) {
    forall a :: !Can(s, a)
  }

  lemma NothingOwed(s: Sync, c: nat)
    requires Inv(s) && Stuck(s) && c < s.cores
    ensures s.dpcs[c] == Unsent || s.dpcs[c] == Counted
    ensures s.ipis[c] == Unsent || s.ipis[c] == Counted
  {
    assert !Can(s, RunDpc(c)) && !Can(s, CountDpc(c)) && !Can(s, RunIpi(c)) && !Can(s, CountIpi(c));
  }

  /** When nothing more can happen, the caller has returned, or it waits for ever because there are more cores than the
      16-bit counter can count. So with no more cores than that, every run can be completed and every completed run has
      returned. */
  lemma StuckIff(s: Sync)
    requires Inv(s)
    ensures Stuck(s) <==> Quiescent(s) && (HasReturned(s) || (s.caller == Spinning && SHORT_MAX < s.cores))
  {
    if Stuck(s) {
      forall c | 0 <= c < s.cores
        ensures (s.dpcs[c] == Unsent || s.dpcs[c] == Counted) && (s.ipis[c] == Unsent || s.ipis[c] == Counted)
      {
        NothingOwed(s, c);
      }
      CallerDone(s);
    } else {
      var a :| Can(s, a);
      if Quiescent(s) && s.caller == Spinning {
        WaitEndsIff(s);
      }
    }
  }

  lemma CallerDone(s: Sync)
    requires Inv(s) && Stuck(s) && Quiescent(s)
    ensures HasReturned(s) || (s.caller == Spinning && SHORT_MAX < s.cores)
  {
    assert !Can(s, QueueDpc(Inserted)) && !Can(s, Call) && !Can(s, CallReturns) && !Can(s, SeeCount);
    if s.caller == Spinning {
      WaitEndsIff(s);
    }
  }
}
