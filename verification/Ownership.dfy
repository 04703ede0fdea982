/** Every trace buffer is in one place at a time, and no core writes to a buffer it has handed over. */
module Ownership {
  import opened PacketTable
  import opened Topa
  import opened CoreTrace
  import opened Handoff

  /** The buffer a deferred call in progress has taken off its core. */
  function HeldBy(g: Stage): Option<Mdl> {
    match g
    case Holding(mdl, _, _) => Some(mdl)
    case Carrying(item) => item.mdl
    case _ => None
  }

  /** Buffer i is at a place: live on a core, in the hands of a deferred call, or enqueued. */
  ghost predicate Has(s: State, at: Place, i: nat) {
    match at
    case Live(c) => c < |s.procs| && !s.procs[c].retired && s.procs[c].core.mdl.id == i
    case Held(c) => c < |s.procs| && HeldBy(s.procs[c].stage).Some? && HeldBy(s.procs[c].stage).value.id == i
    case Logged(n) => n < |s.log| && s.log[n].mdl.Some? && s.log[n].mdl.value.id == i
    case Lost => false
  }

  ghost predicate Belongs(s: State, m: Mdl, at: Place) {
    m.id < |s.mdls| == |s.owner| && s.mdls[m.id] == m && s.owner[m.id] == at
  }

  ghost predicate LiveOnes(s: State) {
    forall c | 0 <= c < |s.procs| :: !s.procs[c].retired ==> Belongs(s, s.procs[c].core.mdl, Live(c))
  }

  ghost predicate HeldOnes(s: State) {
    forall c | 0 <= c < |s.procs| ::
      HeldBy(s.procs[c].stage).Some? ==> Belongs(s, HeldBy(s.procs[c].stage).value, Held(c))
  }

  ghost predicate LoggedOnes(s: State) {
    forall n | 0 <= n < |s.log| :: s.log[n].mdl.Some? ==> Belongs(s, s.log[n].mdl.value, Logged(n))
  }

  ghost predicate OwnersHave(s: State) {
    && |s.owner| == |s.mdls|
    && forall i | 0 <= i < |s.mdls| :: s.mdls[i].id == i && (s.owner[i] == Lost || Has(s, s.owner[i], i))
  }

  ghost predicate Owned(s: State) {
    LiveOnes(s) && HeldOnes(s) && LoggedOnes(s) && OwnersHave(s)
  }

  ghost predicate FramesApart(s: State) {
    && (forall i | 0 <= i < |s.mdls| :: Distinct(s.mdls[i].frames))
    && (forall i, j | 0 <= i < j < |s.mdls| :: Apart(s.mdls[i].frames, s.mdls[j].frames))
  }

  ghost predicate AllSound(s: State) {
    forall c | 0 <= c < |s.procs| :: Sound(s.procs[c])
  }

  /** The queue loses nothing, repeats nothing and keeps its order. */
  ghost predicate InOrder(s: State) {
    s.log == s.delivered + s.queue
  }

  ghost predicate Good(s: State) {
    AllSound(s) && Owned(s) && FramesApart(s) && InOrder(s)
  }

  // ------------------------------------------------------------------ what it means

  /** A buffer is never in two places; and it is in one, unless a failed allocation lost it. */
  lemma OnePlace(s: State, i: nat, p: Place, q: Place)
    requires Owned(s) && i < |s.mdls|
    ensures Has(s, p, i) && Has(s, q, i) ==> p == q
    ensures s.owner[i] != Lost ==> Has(s, s.owner[i], i)
    ensures s.owner[i] == Lost ==> !Has(s, p, i)
  {
  }

  /** Buffers are lost only when a deferred call finds no memory for its description or its queue cell. */
  lemma LostOnlyByFailure(s: State, a: Action, i: nat)
    requires Can(s, a) && i < |s.owner| && s.owner[i] != Lost
    ensures var t := Do(s, a);
            i < |t.owner| && (t.owner[i] == Lost ==> a.NoDto? || (a.Enqueue? && !a.stored))
  {
  }

  /** The pages a core's table points to belong to its live buffer and to no buffer ever queued, delivered, held or
      live elsewhere. */
  lemma TablesNeverShare(s: State, c: nat, i: nat)
    requires Good(s) && c < |s.procs| && !s.procs[c].retired && i < |s.mdls| && i != s.procs[c].core.mdl.id
    ensures var core := s.procs[c].core;
            && Backed(core) && s.mdls[core.mdl.id] == core.mdl
            && Apart(s.mdls[i].frames, core.mdl.frames) && Apart(core.mdl.frames, s.mdls[i].frames)
  {
    assert Belongs(s, s.procs[c].core.mdl, Live(c));
    ApartBothWays(s, s.mdls[i], s.procs[c].core.mdl);
    ApartBothWays(s, s.procs[c].core.mdl, s.mdls[i]);
  }

  // ------------------------------------------------------------------ every step keeps it

  lemma InitGood(s: State)
    requires Init(s)
    ensures Good(s)
  {
  }

  lemma SoundKept(s: State, a: Action)
    requires Good(s) && Can(s, a) && Calm(s, a)
    ensures AllSound(Do(s, a))
  {
    if OnCore(a) {
      SoundStep(s, a);
      OnlyThisCore(s, a);
    }
  }

  lemma OrderKept(s: State, a: Action)
    requires InOrder(s) && Can(s, a)
    ensures InOrder(Do(s, a))
  {
  }

  lemma FramesKept(s: State, a: Action)
    requires FramesApart(s) && Can(s, a)
    ensures FramesApart(Do(s, a))
  {
    if Swaps(s, a) {
      assert ProcAfter(s, a).core.mdl == a.pages.value;
      assert Do(s, a).mdls == s.mdls + [a.pages.value];
    } else {
      assert Do(s, a).mdls == s.mdls;
    }
  }

  // The ways a step on core c can touch buffers, by their effect alone.

  ghost predicate OnlyCore(s: State, t: State, c: nat) {
    c < |s.procs| == |t.procs| && forall d | 0 <= d < |s.procs| && d != c :: t.procs[d] == s.procs[d]
  }

  ghost predicate Keeps(s: State, t: State, c: nat) {
    && OnlyCore(s, t, c) && t.mdls == s.mdls && t.owner == s.owner && t.log == s.log
    && t.procs[c].core.mdl == s.procs[c].core.mdl && t.procs[c].retired == s.procs[c].retired
    && HeldBy(t.procs[c].stage) == HeldBy(s.procs[c].stage)
  }

  ghost predicate TakesOff(s: State, t: State, c: nat) {
    && OnlyCore(s, t, c) && t.mdls == s.mdls && t.log == s.log
    && !s.procs[c].retired && t.procs[c].retired && HeldBy(s.procs[c].stage).None?
    && HeldBy(t.procs[c].stage) == Some(s.procs[c].core.mdl)
    && t.owner == Put(s.owner, s.procs[c].core.mdl.id, Held(c))
  }

  ghost predicate Renews(s: State, t: State, c: nat) {
    && OnlyCore(s, t, c) && t.log == s.log
    && !s.procs[c].retired && !t.procs[c].retired && HeldBy(s.procs[c].stage).None?
    && HeldBy(t.procs[c].stage) == Some(s.procs[c].core.mdl)
    && t.procs[c].core.mdl.id == |s.mdls| && t.mdls == s.mdls + [t.procs[c].core.mdl]
    && t.owner == Put(s.owner, s.procs[c].core.mdl.id, Held(c)) + [Live(c)]
  }

  /** The buffer held by core c's deferred call goes to a place off the cores. */
  ghost predicate Releases(s: State, t: State, c: nat, at: Place) {
    && OnlyCore(s, t, c) && t.mdls == s.mdls
    && t.procs[c].core.mdl == s.procs[c].core.mdl && t.procs[c].retired == s.procs[c].retired
    && HeldBy(t.procs[c].stage).None?
    && (match HeldBy(s.procs[c].stage)
        case None => t.owner == s.owner
        case Some(m) => t.owner == Put(s.owner, m.id, at))
    && (at == Lost ==> t.log == s.log)
    && (at != Lost ==> at == Logged(|s.log|) && |t.log| == |s.log| + 1 && t.log[..|s.log|] == s.log
                       && t.log[|s.log|].mdl == HeldBy(s.procs[c].stage))
  }

  lemma KeepsOwned(s: State, t: State, c: nat)
    requires Owned(s) && Keeps(s, t, c)
    ensures Owned(t)
  {
    assert forall at, i | Has(s, at, i) :: Has(t, at, i);
  }

  lemma TakesOffOwned(s: State, t: State, c: nat)
    requires Owned(s) && TakesOff(s, t, c)
    ensures Owned(t)
  {
    var i := s.procs[c].core.mdl.id;
    assert Belongs(s, s.procs[c].core.mdl, Live(c));
    assert t.owner == s.owner[i := Held(c)];
    assert forall at, j | j != i && Has(s, at, j) :: Has(t, at, j);
  }

  lemma RenewsOwned(s: State, t: State, c: nat)
    requires Owned(s) && Renews(s, t, c)
    ensures Owned(t)
  {
    var i := s.procs[c].core.mdl.id;
    assert Belongs(s, s.procs[c].core.mdl, Live(c));
    assert t.owner == s.owner[i := Held(c)] + [Live(c)];
    assert forall at, j | j != i && Has(s, at, j) :: Has(t, at, j);
  }

  lemma ReleasesOwned(s: State, t: State, c: nat, at: Place)
    requires Owned(s) && Releases(s, t, c, at)
    ensures Owned(t)
  {
    assert forall n | 0 <= n < |s.log| :: t.log[n] == s.log[n];
    if HeldBy(s.procs[c].stage).Some? {
      ReleasesHeld(s, t, c, at, HeldBy(s.procs[c].stage).value);
    } else {
      assert forall p, j | Has(s, p, j) :: Has(t, p, j);
    }
  }

  lemma ReleasesHeld(s: State, t: State, c: nat, at: Place, m: Mdl)
    requires Owned(s) && Releases(s, t, c, at) && HeldBy(s.procs[c].stage) == Some(m)
    requires forall n | 0 <= n < |s.log| :: t.log[n] == s.log[n]
    ensures Owned(t)
  {
    assert Belongs(s, m, Held(c));
    assert t.owner == s.owner[m.id := at];
    assert forall p, j | j != m.id && Has(s, p, j) :: Has(t, p, j);
  }

  lemma StepEffect(s: State, a: Action)
    requires OnCore(a) && Can(s, a) && Sound(s.procs[a.c])
    ensures if Swaps(s, a) then Renews(s, Do(s, a), a.c)
            else if Takes(s, a) then TakesOff(s, Do(s, a), a.c)
            else if a.Enqueue? then Releases(s, Do(s, a), a.c, if a.stored then Logged(|s.log|) else Lost)
            else if a.NoDto? then Releases(s, Do(s, a), a.c, Lost)
            else Keeps(s, Do(s, a), a.c)
  {
    if a.BeginDpc? {
      BeginEffect(s, a);
    } else if a.Enqueue? || a.NoDto? {
      ReleaseEffect(s, a);
    } else {
      OnlyThisCore(s, a);
    }
  }

  lemma BeginEffect(s: State, a: Action)
    requires a.BeginDpc? && Can(s, a) && Sound(s.procs[a.c])
    ensures if Swaps(s, a) then Renews(s, Do(s, a), a.c)
            else if Takes(s, a) then TakesOff(s, Do(s, a), a.c)
            else Keeps(s, Do(s, a), a.c)
  {
    OnlyThisCore(s, a);
  }

  lemma ReleaseEffect(s: State, a: Action)
    requires (a.Enqueue? || a.NoDto?) && Can(s, a)
    ensures Releases(s, Do(s, a), a.c, if a.Enqueue? && a.stored then Logged(|s.log|) else Lost)
  {
    OnlyThisCore(s, a);
  }

  lemma OwnedElsewhere(s: State, a: Action)
    requires Owned(s) && Can(s, a) && !OnCore(a)
    ensures Owned(Do(s, a))
  {
    var t := Do(s, a);
    assert t.procs == s.procs && t.mdls == s.mdls && t.owner == s.owner;
    assert forall n | 0 <= n < |s.log| :: t.log[n] == s.log[n];
    assert forall at, i | Has(s, at, i) :: Has(t, at, i);
  }

  lemma OwnedKept(s: State, a: Action)
    requires Good(s) && Can(s, a)
    ensures Owned(Do(s, a))
  {
    if !OnCore(a) {
      OwnedElsewhere(s, a);
    } else {
      StepEffect(s, a);
      EffectOwned(s, Do(s, a), a.c, if a.Enqueue? && a.stored then Logged(|s.log|) else Lost);
    }
  }

  lemma EffectOwned(s: State, t: State, c: nat, at: Place)
    requires Owned(s) && (Renews(s, t, c) || TakesOff(s, t, c) || Releases(s, t, c, at) || Keeps(s, t, c))
    ensures Owned(t)
  {
    if Renews(s, t, c) {
      RenewsOwned(s, t, c);
    } else if TakesOff(s, t, c) {
      TakesOffOwned(s, t, c);
    } else if Releases(s, t, c, at) {
      ReleasesOwned(s, t, c, at);
    } else {
      KeepsOwned(s, t, c);
    }
  }

  /** Every step of every core and consumer keeps it. */
  lemma GoodStep(s: State, a: Action)
    requires Good(s) && Can(s, a) && Calm(s, a)
    ensures Good(Do(s, a))
  {
    SoundKept(s, a);
    OwnedKept(s, a);
    FramesKept(s, a);
    OrderKept(s, a);
  }

  /** So it holds after every finite run of a session in which disabling is calm. */
  lemma {:induction false} GoodAlways(s: State, run: seq<Action>)
    requires Good(s) && CanAll(s, run) && CalmAll(s, run)
    ensures Good(DoAll(s, run))
    decreases |run|
  {
    if run != [] {
      GoodStep(s, run[0]);
      GoodAlways(Do(s, run[0]), run[1..]);
    }
  }

  /** In every such run no buffer is delivered twice, nor shares a page with another delivered one. */
  lemma DeliveredOnce(start: State, run: seq<Action>, m: nat, n: nat)
    requires Init(start) && CanAll(start, run) && CalmAll(start, run)
    requires m < n < |DoAll(start, run).delivered|
    ensures var d := DoAll(start, run).delivered;
            d[m].mdl.Some? && d[n].mdl.Some? ==>
              d[m].mdl.value.id != d[n].mdl.value.id && Apart(d[m].mdl.value.frames, d[n].mdl.value.frames)
  {
    InitGood(start);
    GoodAlways(start, run);
    var s := DoAll(start, run);
    assert s.log[m] == s.delivered[m] && s.log[n] == s.delivered[n];
    if s.log[m].mdl.Some? && s.log[n].mdl.Some? {
      ApartBothWays(s, s.log[m].mdl.value, s.log[n].mdl.value);
    }
  }

  lemma ApartBothWays(s: State, a: Mdl, b: Mdl)
    requires FramesApart(s) && a.id < |s.mdls| && b.id < |s.mdls| && a.id != b.id
    requires s.mdls[a.id] == a && s.mdls[b.id] == b
    ensures Apart(a.frames, b.frames)
  {
    if a.id < b.id {
      assert Apart(s.mdls[a.id].frames, s.mdls[b.id].frames);
    } else {
      assert Apart(s.mdls[b.id].frames, s.mdls[a.id].frames);
    }
  }
}
