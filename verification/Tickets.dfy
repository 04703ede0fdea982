/** Packet ids: who has each one, and that none is given twice. Also when a consumer can be left waiting. */
module Tickets {
  import opened Handoff

  ghost predicate Issued(s: State, item: Item, fate: Fate) {
    item.ticket < |s.tickets| && s.tickets[item.ticket] == fate && item.id == item.ticket % WORD
    && (item.mdl.None? <==> item.ticket == 0)
  }

  ghost predicate CarriedOnes(s: State) {
    forall c | 0 <= c < |s.procs| :: s.procs[c].stage.Carrying? ==> Issued(s, s.procs[c].stage.item, InHand(c))
  }

  ghost predicate EnqueuedOnes(s: State) {
    forall n | 0 <= n < |s.log| :: Issued(s, s.log[n], Enqueued(n))
  }

  /** What became of ticket t, in terms of the cores and the log. */
  ghost predicate Accounted(s: State, t: nat)
    requires t < |s.tickets|
  {
    match s.tickets[t]
    case InHand(c) => c < |s.procs| && s.procs[c].stage.Carrying? && s.procs[c].stage.item.ticket == t
    case Enqueued(n) => n < |s.log| && s.log[n].ticket == t
    case Failed => true
  }

  /** Nothing has been asked of a core yet. */
  predicate Untouched(p: Proc) {
    !p.ready && p.dpcs == [] && p.stage.Quiet? && !p.pmi && !p.core.tracing
  }

  /** The session's first id is 0 and goes to the FIRST packet, which is enqueued before anything else. */
  ghost predicate FirstIsZero(s: State) {
    if s.started then s.tickets != [] && (s.tickets[0] == Enqueued(0) || s.tickets[0] == Failed)
    else s.tickets == [] && s.log == [] && forall c | 0 <= c < |s.procs| :: Untouched(s.procs[c])
  }

  ghost predicate Ticketed(s: State) {
    && CarriedOnes(s) && EnqueuedOnes(s) && FirstIsZero(s)
    && (forall t | 0 <= t < |s.tickets| :: Accounted(s, t))
  }

  // The ways a step on core c can touch ids, by their effect alone.

  ghost predicate Confined(s: State, t: State, c: nat) {
    && c < |s.procs| == |t.procs| && (forall d | 0 <= d < |s.procs| && d != c :: t.procs[d] == s.procs[d])
    && t.started == s.started && (!s.started ==> Untouched(t.procs[c]))
  }

  ghost predicate Leaves(s: State, t: State, c: nat) {
    && Confined(s, t, c) && t.tickets == s.tickets && t.log == s.log
    && (t.procs[c].stage == s.procs[c].stage || (!s.procs[c].stage.Carrying? && !t.procs[c].stage.Carrying?))
  }

  ghost predicate Stamps(s: State, t: State, c: nat) {
    && Confined(s, t, c) && t.log == s.log && s.procs[c].stage.Holding?
    && t.tickets == s.tickets + [InHand(c)] && t.procs[c].stage == Carrying(Stamp(s, c))
  }

  ghost predicate Settles(s: State, t: State, c: nat, stored: bool) {
    && Confined(s, t, c) && s.procs[c].stage.Carrying? && !t.procs[c].stage.Carrying?
    && var item := s.procs[c].stage.item;
    && t.tickets == Put(s.tickets, item.ticket, if stored then Enqueued(|s.log|) else Failed)
    && t.log == if stored then s.log + [item] else s.log
  }

  lemma LeavesTicketed(s: State, t: State, c: nat)
    requires Ticketed(s) && Leaves(s, t, c)
    ensures Ticketed(t)
  {
    forall i | 0 <= i < |t.tickets| ensures Accounted(t, i) {
      assert Accounted(s, i);
    }
  }

  lemma StampsTicketed(s: State, t: State, c: nat)
    requires Ticketed(s) && Stamps(s, t, c)
    ensures Ticketed(t)
  {
    assert s.started && |s.tickets| > 0;
    forall i | 0 <= i < |t.tickets| ensures Accounted(t, i) {
      if i < |s.tickets| { assert Accounted(s, i); }
    }
    assert forall n | 0 <= n < |s.log| :: Issued(s, s.log[n], Enqueued(n));
  }

  lemma SettlesTicketed(s: State, t: State, c: nat, stored: bool)
    requires Ticketed(s) && Settles(s, t, c, stored) && s.started
    ensures Ticketed(t)
  {
    var item := s.procs[c].stage.item;
    assert Issued(s, item, InHand(c));
    assert t.tickets == s.tickets[item.ticket := if stored then Enqueued(|s.log|) else Failed];
    forall i | 0 <= i < |t.tickets| ensures Accounted(t, i) {
      assert Accounted(s, i);
    }
    assert forall n | 0 <= n < |s.log| :: Issued(s, s.log[n], Enqueued(n)) && t.log[n] == s.log[n];
  }

  lemma StepEffect(s: State, a: Action)
    requires OnCore(a) && Can(s, a) && Ticketed(s)
    ensures if a.TakeId? then Stamps(s, Do(s, a), a.c)
            else if a.Enqueue? then Settles(s, Do(s, a), a.c, a.stored) && s.started
            else Leaves(s, Do(s, a), a.c)
  {
    OnlyThisCore(s, a);
  }

  lemma ElsewhereTicketed(s: State, a: Action)
    requires Ticketed(s) && Can(s, a) && !OnCore(a)
    ensures Ticketed(Do(s, a))
  {
    var t := Do(s, a);
    assert t.procs == s.procs;
    if a.First? {
      assert s.tickets == [] && s.log == [];
    } else {
      assert t.tickets == s.tickets && t.log == s.log;
      forall i | 0 <= i < |t.tickets| ensures Accounted(t, i) {
        assert Accounted(s, i);
      }
    }
  }

  lemma TicketedStep(s: State, a: Action)
    requires Ticketed(s) && Can(s, a)
    ensures Ticketed(Do(s, a))
  {
    if !OnCore(a) {
      ElsewhereTicketed(s, a);
    } else {
      StepEffect(s, a);
      EffectTicketed(s, Do(s, a), a.c, a.Enqueue? && a.stored);
    }
  }

  lemma EffectTicketed(s: State, t: State, c: nat, stored: bool)
    requires Ticketed(s) && (Stamps(s, t, c) || (Settles(s, t, c, stored) && s.started) || Leaves(s, t, c))
    ensures Ticketed(t)
  {
    if Stamps(s, t, c) {
      StampsTicketed(s, t, c);
    } else if Settles(s, t, c, stored) && s.started {
      SettlesTicketed(s, t, c, stored);
    } else {
      LeavesTicketed(s, t, c);
    }
  }

  lemma InitTicketed(s: State)
    requires Init(s)
    ensures Ticketed(s)
  {
  }

  /** So the accounts hold after every finite run. */
  lemma {:induction false} TicketedAlways(s: State, run: seq<Action>)
    requires Ticketed(s) && CanAll(s, run)
    ensures Ticketed(DoAll(s, run))
    decreases |run|
  {
    if run != [] {
      TicketedStep(s, run[0]);
      TicketedAlways(Do(s, run[0]), run[1..]);
    }
  }

  /** An id fails to reach the queue only because its own enqueue failed. */
  lemma FailsOnlyByEnqueue(s: State, a: Action, t: nat)
    requires Can(s, a) && t < |Do(s, a).tickets| && Do(s, a).tickets[t] == Failed
    ensures (t < |s.tickets| && s.tickets[t] == Failed) || (a.Enqueue? && !a.stored) || (a.First? && !a.stored)
  {
  }

  /** In every run the ids of a session are 0 .. count-1, the FIRST packet's being 0; each is in the log once, in the
      hands of one deferred call, or was lost with a failed enqueue; and no two items in the log share one. */
  lemma PacketIds(start: State, run: seq<Action>)
    requires Init(start) && CanAll(start, run)
    ensures var s := DoAll(start, run);
            && (forall n | 0 <= n < |s.log| ::
                  && s.log[n].ticket < |s.tickets| && s.log[n].id == s.log[n].ticket % WORD
                  && (s.log[n].mdl.None? <==> s.log[n].ticket == 0))
            && (forall m, n | 0 <= m < n < |s.log| :: s.log[m].ticket != s.log[n].ticket)
            && (forall t | 0 <= t < |s.tickets| :: Accounted(s, t))
  {
    InitTicketed(start);
    TicketedAlways(start, run);
    var s := DoAll(start, run);
    assert forall n | 0 <= n < |s.log| :: Issued(s, s.log[n], Enqueued(n));
  }

  /** The 32-bit counter gives distinct ids to a session of n packets exactly when n is at most 2^32. */
  lemma IdsDistinctIff(n: nat)
    ensures (forall t, u | 0 <= t < u < n :: t % WORD != u % WORD) <==> n <= WORD
  {
    if n <= WORD {
      forall t, u | 0 <= t < u < n ensures t % WORD != u % WORD {
      }
    } else {
      assert 0 % WORD == WORD % WORD;
    }
  }

  /** The driver's 32-bit counter, if it stands at the number of ids taken, gives each packet its id and stands there
      again afterwards. */
  lemma CounterFollows(s: State, a: Action, counter: nat)
    requires Can(s, a) && Ticketed(s) && counter == |s.tickets| % WORD
    ensures a.TakeId? ==> Stamp(s, a.c).id == counter && (counter + 1) % WORD == |Do(s, a).tickets| % WORD
    ensures a.First? ==> counter == 0 && 1 == |Do(s, a).tickets| % WORD
    ensures !a.TakeId? && !a.First? ==> counter == |Do(s, a).tickets| % WORD
  {
    if OnCore(a) {
      StepEffect(s, a);
    }
  }

  // ------------------------------------------------------------------ the order of the queue

  lemma QueueStep(s: State, a: Action)
    requires Can(s, a)
    ensures var t := Do(s, a);
            && |s.log| <= |t.log| && t.log[..|s.log|] == s.log
            && |s.delivered| <= |t.delivered| && t.delivered[..|s.delivered|] == s.delivered
            && t.delivered[|s.delivered|..] + t.queue == s.queue + t.log[|s.log|..]
  {
    if OfConsumer(a) {
      ConsumerQueues(s, a);
    } else {
      CoreQueues(s, a);
    }
  }

  lemma ConsumerQueues(s: State, a: Action)
    requires Can(s, a) && OfConsumer(a)
    ensures var t := Do(s, a);
            && t.log == s.log && |s.delivered| <= |t.delivered| && t.delivered[..|s.delivered|] == s.delivered
            && t.delivered[|s.delivered|..] + t.queue == s.queue
  {
    if a.Dequeue? && s.queue != [] {
      assert s.queue == [s.queue[0]] + s.queue[1..];
      assert (s.delivered + [s.queue[0]])[|s.delivered|..] == [s.queue[0]];
    } else {
      assert s.delivered[|s.delivered|..] == [];
    }
  }

  lemma CoreQueues(s: State, a: Action)
    requires Can(s, a) && !OfConsumer(a)
    ensures var t := Do(s, a);
            && t.delivered == s.delivered && |s.log| <= |t.log| && t.log[..|s.log|] == s.log
            && t.queue == s.queue + t.log[|s.log|..]
  {
    if a.BeginDpc? {
      BeginQueuesNothing(s, a);
    }
  }

  lemma BeginQueuesNothing(s: State, a: Action)
    requires a.BeginDpc? && Can(s, a)
    ensures var t := Do(s, a);
            t.delivered == s.delivered && t.log == s.log && t.queue == s.queue
  {
  }

  lemma Joined<T>(u: seq<T>, a: nat, b: nat)
    requires a <= b <= |u|
    ensures u[a..] == u[a..b] + u[b..]
  {
  }

  /** In every run from every state, what consumers take are the items that were waiting and then those that came in,
      in that order, with none left out. */
  lemma {:induction false} TakenInOrder(s: State, run: seq<Action>)
    requires CanAll(s, run)
    ensures var t := DoAll(s, run);
            && |s.log| <= |t.log| && t.log[..|s.log|] == s.log
            && |s.delivered| <= |t.delivered| && t.delivered[..|s.delivered|] == s.delivered
            && t.delivered[|s.delivered|..] + t.queue == s.queue + t.log[|s.log|..]
    decreases |run|
  {
    if run != [] {
      var m, t := Do(s, run[0]), DoAll(s, run);
      QueueStep(s, run[0]);
      TakenInOrder(m, run[1..]);
      JoinSteps(s.delivered, m.delivered, t.delivered, s.log, m.log, t.log, s.queue, m.queue, t.queue);
    }
  }

  lemma JoinSteps<T>(d: seq<T>, d': seq<T>, d'': seq<T>, l: seq<T>, l': seq<T>, l'': seq<T>,
                     q: seq<T>, q': seq<T>, q'': seq<T>)
    requires |d| <= |d'| <= |d''| && d'[..|d|] == d && d''[..|d'|] == d'
    requires |l| <= |l'| <= |l''| && l'[..|l|] == l && l''[..|l'|] == l'
    requires d'[|d|..] + q' == q + l'[|l|..] && d''[|d'|..] + q'' == q' + l''[|l'|..]
    ensures d''[..|d|] == d && l''[..|l|] == l && d''[|d|..] + q'' == q + l''[|l|..]
  {
    Joined(d'', |d|, |d'|);
    Joined(l'', |l|, |l'|);
    assert d''[|d|..|d'|] == d'[|d|..] && l''[|l|..|l'|] == l'[|l|..];
    assert d''[|d|..] + q'' == d'[|d|..] + (d''[|d'|..] + q'');
    assert d'[|d|..] + (q' + l''[|l'|..]) == (d'[|d|..] + q') + l''[|l'|..];
    assert (q + l'[|l|..]) + l''[|l'|..] == q + (l'[|l|..] + l''[|l'|..]);
  }

  /** In every run of a session what was taken and then what still waits is what was enqueued, in order and each id
      once. */
  lemma EachTakenOnce(start: State, run: seq<Action>)
    requires Init(start) && CanAll(start, run)
    ensures var s := DoAll(start, run);
            && s.delivered + s.queue == s.log
            && forall m, n | 0 <= m < n < |s.delivered| :: s.delivered[m].ticket != s.delivered[n].ticket
  {
    TakenInOrder(start, run);
    PacketIds(start, run);
    var s := DoAll(start, run);
    assert s.delivered[0..] == s.delivered && s.log[0..] == s.log && [] + s.log == s.log;
    assert s.delivered + s.queue == s.log;
    assert forall n | 0 <= n < |s.delivered| :: s.delivered[n] == s.log[n];
  }

  // ------------------------------------------------------------------ waiting consumers

  /** Items wait, the event is clear, and no deferred call is about to set it. */
  ghost predicate Stranded(s: State) {
    s.queue != [] && !s.event && forall c | 0 <= c < |s.procs| :: !s.procs[c].stage.Signalling?
  }

  ghost predicate NobodySignals(s: State) {
    forall c | 0 <= c < |s.procs| :: !s.procs[c].stage.Signalling?
  }

  /** A step on a core strands nothing: an item comes in only with a signal to follow. */
  lemma CoresStrandNothing(s: State, a: Action)
    requires OnCore(a) && Can(s, a) && !Stranded(s)
    ensures !Stranded(Do(s, a))
  {
    var t := Do(s, a);
    OnlyThisCore(s, a);
    if a.Enqueue? && a.stored {
      assert t.procs[a.c].stage.Signalling?;
    } else if !a.Signal? {
      assert t.queue == s.queue && t.event == s.event;
      assert t.procs[a.c].stage.Signalling? == s.procs[a.c].stage.Signalling?;
      assert forall c | 0 <= c < |s.procs| :: t.procs[c].stage.Signalling? == s.procs[c].stage.Signalling?;
    }
  }

  /** Items become stranded in exactly two ways: a consumer that saw the queue empty resets the event after an item
      has come in, or the FIRST packet comes in, whose enqueue sets no event. */
  lemma StrandedIff(s: State, a: Action)
    requires Can(s, a) && !Stranded(s)
    ensures Stranded(Do(s, a)) <==>
            && NobodySignals(s)
            && ((a.Reset? && s.queue != []) || (a.First? && a.stored && !s.event))
  {
    if OnCore(a) {
      CoresStrandNothing(s, a);
    } else {
      assert Do(s, a).procs == s.procs;
    }
  }

  /** Whatever has happened since s, a consumer that waits while items wait can, once the event is set or it is alerted,
      take one, and that is the oldest not yet taken: those waiting in s first, those enqueued since after them. */
  lemma OldestFirst(s: State, run: seq<Action>, k: nat, a: Action)
    requires CanAll(s, run)
    requires var t := DoAll(s, run);
             k < |t.waits| && t.waits[k] == Waiting && t.queue != [] && (a == Alert(k) || (a == Wake(k) && t.event))
    ensures var t := DoAll(s, run);
            && |s.delivered| <= |t.delivered| && |s.log| <= |t.log|
            && var taken, waiting := |t.delivered| - |s.delivered|, s.queue + t.log[|s.log|..];
            && taken < |waiting| && t.delivered[|s.delivered|..] == waiting[..taken]
            && Can(t, a) && Can(Do(t, a), Dequeue(k))
            && Do(Do(t, a), Dequeue(k)).delivered == t.delivered + [waiting[taken]]
  {
    TakenInOrder(s, run);
    var t := DoAll(s, run);
    var d := t.delivered[|s.delivered|..];
    assert (d + t.queue)[|d|] == t.queue[0] && (d + t.queue)[..|d|] == d;
  }
}
