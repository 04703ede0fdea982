/** From the cores to the decoded trace: the hand-off, the transport, the reordering and the decoder together. */
module Delivery {
  import opened Bytes
  import opened PacketTable
  import opened Topa
  import opened Framing
  import opened Reorder
  import opened Pipeline
  import opened Handoff
  import opened Ownership
  import opened Tickets
  import Memory
  import Sizes

  /** The session has started and is over: everything enqueued was taken and nobody still carries an id. The 32-bit ids
      have not wrapped. */
  ghost predicate Settled(s: State) {
    && s.started && s.queue == [] && |s.tickets| <= WORD
    && forall c | 0 <= c < |s.procs| :: !s.procs[c].stage.Carrying?
  }

  /** What a consumer reads from the memory of the buffer it was given, with its id and its core. */
  function MessageOf(s: State, item: Item): Message {
    Message(if item.mdl.Some? then Contents(s.ram, item.mdl.value.frames) else [], item.id, item.cpu)
  }

  /** What a consumer sends on for an item. */
  function ArrivalOf(s: State, item: Item): Arrival {
    if item.mdl.None? then Begin else Data(MessageOf(s, item))
  }

  /** Everything sent on, in the order it was taken. */
  function Sent(s: State): seq<Arrival> {
    seq(|s.delivered|, n requires 0 <= n < |s.delivered| => ArrivalOf(s, s.delivered[n]))
  }

  /** The message that id t + 1 stands for; a blank one where the id never reached the queue. */
  function ById(s: State): seq<Message> {
    seq(|s.tickets| - (if s.tickets == [] then 0 else 1), t requires 0 <= t < |s.tickets| - 1 => Of(s, t + 1))
  }

  function Of(s: State, t: nat): Message
    requires t < |s.tickets|
  {
    if s.tickets[t].Enqueued? && s.tickets[t].n < |s.log| then MessageOf(s, s.log[s.tickets[t].n])
    else Message([], t, 0)
  }

  /** A session that is over, as any run leaves it. */
  ghost predicate Ended(s: State) {
    Ticketed(s) && Settled(s) && InOrder(s)
  }

  lemma Taken(s: State, n: nat)
    requires Ended(s) && n < |s.delivered|
    ensures s.log == s.delivered
    ensures var t := s.delivered[n].ticket;
            && t < |s.tickets| && s.tickets[t] == Enqueued(n) && s.delivered[n].id == t
            && (t == 0 <==> s.delivered[n].mdl.None?) && (0 < t ==> ById(s)[t - 1] == MessageOf(s, s.delivered[n]))
  {
    assert s.log == s.delivered;
    assert Issued(s, s.log[n], Enqueued(n));
  }

  lemma TakenOnce(s: State, m: nat, n: nat)
    requires Ended(s) && m < n < |s.delivered|
    ensures Sent(s)[m] != Sent(s)[n]
  {
    Taken(s, m);
    Taken(s, n);
  }

  lemma LostIsNotSent(s: State, t: nat)
    requires Ended(s) && t < |ById(s)| && s.tickets[t + 1] == Failed
    ensures Data(ById(s)[t]) !in Sent(s) && ById(s)[t].id == t + 1
  {
    forall n | 0 <= n < |s.delivered| ensures s.delivered[n].id != t + 1 {
      Taken(s, n);
    }
    assert forall a | a in Sent(s) && a.Data? :: a.message.id != t + 1;
  }

  lemma ReachedIsSent(s: State, t: nat)
    requires Ended(s) && t < |ById(s)| && s.tickets[t + 1] != Failed
    ensures Data(ById(s)[t]) in Sent(s) && ById(s)[t].id == t + 1
  {
    assert Accounted(s, t + 1);
    var n := s.tickets[t + 1].n;
    Taken(s, n);
    assert Sent(s)[n] == Data(ById(s)[t]);
  }

  lemma ByIdIsSent(s: State, t: nat)
    requires Ended(s) && t < |ById(s)|
    ensures ById(s)[t].id == t + 1
    ensures Data(ById(s)[t]) in Sent(s) <==> s.tickets[t + 1] != Failed
  {
    if s.tickets[t + 1] == Failed {
      LostIsNotSent(s, t);
    } else {
      ReachedIsSent(s, t);
    }
  }

  /** What is sent on is, each once, the packets of the ids that reached the queue, and the FIRST packet if it did. */
  lemma SentOnce(s: State)
    requires Ended(s)
    ensures Numbered(ById(s))
    ensures forall a | a in Sent(s) :: a == Begin || a.message in ById(s)
    ensures forall t | 0 <= t < |ById(s)| :: Data(ById(s)[t]) in Sent(s) <==> s.tickets[t + 1] != Failed
    ensures forall i, j | 0 <= i < j < |Sent(s)| :: Sent(s)[i] != Sent(s)[j]
  {
    forall t | 0 <= t < |ById(s)|
      ensures ById(s)[t].id == t + 1 && (Data(ById(s)[t]) in Sent(s) <==> s.tickets[t + 1] != Failed)
    {
      ByIdIsSent(s, t);
    }
    forall a | a in Sent(s) && a.Data? ensures a.message in ById(s) {
      var n :| 0 <= n < |Sent(s)| && Sent(s)[n] == a;
      Taken(s, n);
    }
    forall i, j | 0 <= i < j < |Sent(s)| ensures Sent(s)[i] != Sent(s)[j] {
      TakenOnce(s, i, j);
    }
  }

  // ------------------------------------------------------------------ what the transport does

  /** Ids 1 .. n reached the queue, and id n + 1, if there is one, did not. */
  ghost predicate ReachedUpTo(s: State, n: nat) {
    && n < |s.tickets| && (forall t | 0 < t <= n :: s.tickets[t] != Failed)
    && (n + 1 < |s.tickets| ==> s.tickets[n + 1] == Failed)
  }

  /** No buffer of an id up to n. */
  ghost predicate NoneUpTo(arrivals: seq<Arrival>, n: nat) {
    forall a | a in arrivals && a.Data? :: n < a.message.id
  }

  /** The FIRST packet does not arrive between buffers of ids up to n: all of them come before it, or all after. */
  ghost predicate Unsplit(arrivals: seq<Arrival>, n: nat) {
    forall k | 0 <= k < |arrivals| && arrivals[k] == Begin ::
      NoneUpTo(arrivals[..k], n) || NoneUpTo(arrivals[k + 1..], n)
  }

  predicate AllData(arrivals: seq<Arrival>) {
    forall i | 0 <= i < |arrivals| :: arrivals[i].Data?
  }

  function MessagesIn(arrivals: seq<Arrival>): (ms: seq<Message>)
    requires AllData(arrivals)
    ensures AsData(ms) == arrivals
  {
    seq(|arrivals|, i requires 0 <= i < |arrivals| => arrivals[i].message)
  }

  /** Each id up to n arrives, id n + 1 does not, and nothing arrives twice or from nowhere. */
  ghost predicate Received(byId: seq<Message>, arrivals: seq<Arrival>, n: nat) {
    && Numbered(byId) && n <= |byId|
    && (forall a | a in arrivals :: a == Begin || a.message in byId)
    && (forall i, j | 0 <= i < j < |arrivals| :: arrivals[i] != arrivals[j])
    && (forall t | 0 <= t < n :: Data(byId[t]) in arrivals) && (n < |byId| ==> Data(byId[n]) !in arrivals)
  }

  lemma {:induction false} FedWithoutFirst(byId: seq<Message>, arrivals: seq<Arrival>, n: nat)
    requires Received(byId, arrivals, n) && Begin !in arrivals
    ensures ArriveAll(AsIntended, EMPTY, arrivals).fed == byId[..n] && Unsplit(arrivals, n)
    ensures n == |byId| ==> ArriveAll(AsIntended, EMPTY, arrivals).cache == []
  {
    assert forall i | 0 <= i < |arrivals| :: arrivals[i] in arrivals;
    var ms := MessagesIn(arrivals);
    assert forall i | 0 <= i < |ms| :: arrivals[i] == Data(ms[i]);
    assert forall m :: m in ms <==> Data(m) in arrivals;
    ArriveData(AsIntended, EMPTY, ms);
    StopsAtGap(byId, ms, n);
    if n == |byId| {
      AllDelivered(byId, ms);
    }
  }

  lemma {:induction false} FedWithFirst(byId: seq<Message>, arrivals: seq<Arrival>, n: nat, k: nat)
    requires Received(byId, arrivals, n) && k < |arrivals| && arrivals[k] == Begin
    ensures ArriveAll(AsIntended, EMPTY, arrivals).fed == byId[..n] <==> Unsplit(arrivals, n)
    ensures n == |byId| && Unsplit(arrivals, n) ==> ArriveAll(AsIntended, EMPTY, arrivals).cache == []
  {
    OneBegin(arrivals, n, k);
    var before, after := MessagesIn(arrivals[..k]), MessagesIn(arrivals[k + 1..]);
    FedAround(byId, arrivals, n, before, after);
  }

  lemma OneBegin(arrivals: seq<Arrival>, n: nat, k: nat)
    requires (forall i, j | 0 <= i < j < |arrivals| :: arrivals[i] != arrivals[j])
    requires k < |arrivals| && arrivals[k] == Begin
    ensures AllData(arrivals[..k]) && AllData(arrivals[k + 1..])
    ensures arrivals == AsData(MessagesIn(arrivals[..k])) + [Begin] + AsData(MessagesIn(arrivals[k + 1..]))
    ensures Unsplit(arrivals, n) <==> NoneUpTo(arrivals[..k], n) || NoneUpTo(arrivals[k + 1..], n)
  {
    forall i | 0 <= i < |arrivals| && i != k ensures arrivals[i].Data? {
    }
  }

  lemma {:induction false} FedAround(byId: seq<Message>, arrivals: seq<Arrival>, n: nat, before: seq<Message>,
                                    after: seq<Message>)
    requires Received(byId, arrivals, n) && arrivals == AsData(before) + [Begin] + AsData(after)
    ensures ArriveAll(AsIntended, EMPTY, arrivals).fed == byId[..n]
            <==> NoneUpTo(AsData(before), n) || NoneUpTo(AsData(after), n)
    ensures n == |byId| && (NoneUpTo(AsData(before), n) || NoneUpTo(AsData(after), n))
            ==> ArriveAll(AsIntended, EMPTY, arrivals).cache == []
  {
    Halves(byId, arrivals, |before|, before, after);
    FirstSplitsIff(byId, before, after, n);
    HalvesFed(before, after);
    NoneUpToIff(byId, n, before, after);
    NoneUpToIff(byId, n, after, before);
    if n == |byId| && (NoneUpTo(AsData(before), n) || NoneUpTo(AsData(after), n)) {
      AllOnOneSide(byId, before, after);
    }
  }

  lemma Halves(byId: seq<Message>, arrivals: seq<Arrival>, k: nat, before: seq<Message>, after: seq<Message>)
    requires arrivals == AsData(before) + [Begin] + AsData(after) && |before| == k
    requires forall a | a in arrivals :: a == Begin || a.message in byId
    requires forall i, j | 0 <= i < j < |arrivals| :: arrivals[i] != arrivals[j]
    ensures Among(byId, before) && Among(byId, after) && forall m | m in before :: m !in after
    ensures forall m :: Data(m) in arrivals <==> m in before || m in after
  {
    assert forall i | 0 <= i < k :: arrivals[i] == Data(before[i]) && arrivals[i] in arrivals;
    assert forall i | 0 <= i < |after| :: arrivals[k + 1 + i] == Data(after[i]) && arrivals[k + 1 + i] in arrivals;
    forall m | m in before || m in after ensures Data(m) in arrivals {
      if m in before {
        var i :| 0 <= i < k && before[i] == m;
      } else {
        var i :| 0 <= i < |after| && after[i] == m;
      }
    }
  }

  lemma NoneUpToMessages(ms: seq<Message>, n: nat)
    ensures NoneUpTo(AsData(ms), n) <==> forall m | m in ms :: n < m.id
  {
    forall m | m in ms ensures Data(m) in AsData(ms) {
      var i :| 0 <= i < |ms| && ms[i] == m;
      assert AsData(ms)[i] == Data(m);
    }
  }

  /** One side has none of the ids up to n exactly when the other has them all. */
  lemma NoneUpToIff(byId: seq<Message>, n: nat, one: seq<Message>, other: seq<Message>)
    requires Numbered(byId) && n <= |byId| && Among(byId, one) && Among(byId, other)
    requires (forall m | m in one :: m !in other) && forall t | 0 <= t < n :: byId[t] in one || byId[t] in other
    ensures NoneUpTo(AsData(one), n) <==> forall t | 0 <= t < n :: byId[t] in other
  {
    NoneUpToMessages(one, n);
    forall m | m in one ensures 0 < m.id <= |byId| && byId[m.id - 1] == m {
    }
  }

  lemma {:induction false} AllOnOneSide(byId: seq<Message>, before: seq<Message>, after: seq<Message>)
    requires Numbered(byId) && Among(byId, before) && Among(byId, after) && forall m | m in before :: m !in after
    requires (forall t | 0 <= t < |byId| :: byId[t] in before) || (forall t | 0 <= t < |byId| :: byId[t] in after)
    ensures ReceiveAll(AsIntended, EMPTY, after).cache == []
  {
    if forall t | 0 <= t < |byId| :: byId[t] in after {
      AllDelivered(byId, after);
    } else {
      assert forall m | m in byId :: m in before;
      assert forall m | m in after :: m in byId;
      HeadIsMember(after);
    }
  }

  /** The transport may reorder what was taken in any way. The buffers of ids 1 .. n, n + 1 being the first that was
      lost, are then fed in id order, whole and once, if and only if the FIRST packet does not arrive between them. */
  lemma {:induction false} FedInIdOrderIff(s: State, arrivals: seq<Arrival>, n: nat)
    requires Ended(s) && ReachedUpTo(s, n) && Permutes(Sent(s), arrivals)
    ensures ArriveAll(AsIntended, EMPTY, arrivals).fed == ById(s)[..n] <==> Unsplit(arrivals, n)
    ensures n + 1 == |s.tickets| && Unsplit(arrivals, n) ==> ArriveAll(AsIntended, EMPTY, arrivals).cache == []
  {
    SentOnce(s);
    assert Received(ById(s), arrivals, n);
    if Begin in arrivals {
      var k :| 0 <= k < |arrivals| && arrivals[k] == Begin;
      FedWithFirst(ById(s), arrivals, n, k);
    } else {
      FedWithoutFirst(ById(s), arrivals, n);
    }
  }

  /** Every message sent on names the core its buffer was for. */
  lemma MessagesNameCores(start: State, run: seq<Action>, n: nat)
    requires Handoff.Init(start) && CanAll(start, run) && CalmAll(start, run)
    requires n < |DoAll(start, run).delivered| && DoAll(start, run).delivered[n].mdl.Some?
    ensures var s := DoAll(start, run);
            var m := s.delivered[n].mdl.value;
            m.id < |s.homes| && Sent(s)[n].Data? && Sent(s)[n].message.cpu == s.homes[m.id]
  {
    var s := DoAll(start, run);
    EachTakenOnce(start, run);
    assert s.log[n] == s.delivered[n];
    Sizes.SizesReported(start, run, n);
  }

  // ------------------------------------------------------------------ from the cores to the decoder

  /** What the core that had the buffer of id t wrote into it. */
  ghost function OutputOf(s: State, t: nat): seq<byte>
    requires t < |s.tickets| && s.tickets[t].Enqueued? && s.tickets[t].n < |s.log|
  {
    match s.log[s.tickets[t].n].mdl
    case None => []
    case Some(m) => if m.id < |s.outputs| then s.outputs[m.id] else []
  }

  ghost function RoomOf(s: State, t: nat): nat
    requires t < |s.tickets| && s.tickets[t].Enqueued? && s.tickets[t].n < |s.log|
  {
    match s.log[s.tickets[t].n].mdl
    case None => 0
    case Some(m) => Memory.SizeOf(m)
  }

  /** What the cores put out: for each id up to n whole packets, no more than the buffer has room for. */
  ghost predicate PutOut(s: State, n: nat, buffers: seq<seq<Piece>>) {
    && |buffers| == n < |s.tickets|
    && forall t | 0 < t <= n ::
         && s.tickets[t].Enqueued? && s.tickets[t].n < |s.log|
         && OutputOf(s, t) == Flatten(buffers[t - 1]) && |OutputOf(s, t)| <= RoomOf(s, t)
  }

  /** The buffer of a delivered item holds what its core put out over the prefill. */
  ghost predicate HoldsOutput(s: State, item: Item)
    requires item.mdl.Some?
  {
    var m := item.mdl.value;
    && m.id < |s.outputs| && |s.outputs[m.id]| <= Memory.SizeOf(m)
    && Contents(s.ram, m.frames) == Topa.Over(Memory.SizeOf(m), s.outputs[m.id])
  }

  lemma MessageHolds(s: State, t: nat)
    requires Ended(s) && 0 < t < |s.tickets| && s.tickets[t].Enqueued? && s.tickets[t].n < |s.delivered|
    requires var item := s.delivered[s.tickets[t].n];
             item.mdl.Some? ==> HoldsOutput(s, item)
    ensures s.tickets[t].n < |s.log|
    ensures var m := ById(s)[t - 1];
            && m.id == t && |OutputOf(s, t)| <= |m.bytes| && m.bytes == Topa.Over(|m.bytes|, OutputOf(s, t))
  {
    assert Accounted(s, t);
    Taken(s, s.tickets[t].n);
  }

  lemma DeliveredOutput(start: State, run: seq<Action>, t: nat)
    requires Handoff.Init(start) && CanAll(start, run) && CalmAll(start, run)
    requires var s := DoAll(start, run);
             && t < |s.tickets| && s.tickets[t].Enqueued? && s.tickets[t].n < |s.log| && s.log == s.delivered
             && |OutputOf(s, t)| <= RoomOf(s, t)
    ensures var s := DoAll(start, run);
            var item := s.delivered[s.tickets[t].n];
            item.mdl.Some? ==> HoldsOutput(s, item)
  {
    var s := DoAll(start, run);
    if s.delivered[s.tickets[t].n].mdl.Some? {
      Memory.DeliveredHolds(start, run, s.tickets[t].n);
    }
  }

  lemma BuffersHold(start: State, run: seq<Action>, n: nat, buffers: seq<seq<Piece>>)
    requires Handoff.Init(start) && CanAll(start, run) && CalmAll(start, run)
    requires var s := DoAll(start, run);
             Ended(s) && PutOut(s, n, buffers)
    ensures Pipeline.Holds(ById(DoAll(start, run))[..n], buffers)
  {
    var s := DoAll(start, run);
    assert s.log == s.delivered;
    forall i | 0 <= i < n
      ensures var m := ById(s)[i];
              && m.id == i + 1 && |Flatten(buffers[i])| <= |m.bytes|
              && m.bytes == Topa.Over(|m.bytes|, Flatten(buffers[i]))
    {
      assert OutputOf(s, i + 1) == Flatten(buffers[(i + 1) - 1]);
      DeliveredOutput(start, run, i + 1);
      MessageHolds(s, i + 1);
    }
  }

  /** Driver to decoder. Take any run of any number of cores and consumers in which disabling is calm, after which the
      session is over. If what the cores put out while each buffer was theirs is whole packets that spell a trace in
      id order, and fits the buffers, then for every order of arrival in which the FIRST packet does not come between
      them the decoder recovers the trace's meaning from what consumers read out of memory. */
  lemma DriverToDecoder(defs: seq<Kind>, start: State, run: seq<Action>, n: nat, buffers: seq<seq<Piece>>,
                        arrivals: seq<Arrival>, es: seq<Trace.Event>)
    requires IsTable(defs) && Handoff.Init(start) && CanAll(start, run) && CalmAll(start, run)
    requires var s := DoAll(start, run);
             Settled(s) && ReachedUpTo(s, n) && PutOut(s, n, buffers) && Permutes(Sent(s), arrivals)
    requires Unsplit(arrivals, n) && Trace.LaysOut(Join(buffers), es)
    ensures Recovers(defs, Payloads(ArriveAll(AsIntended, EMPTY, arrivals).fed), es)
  {
    var s := DoAll(start, run);
    InitTicketed(start);
    TicketedAlways(start, run);
    EachTakenOnce(start, run);
    FedInIdOrderIff(s, arrivals, n);
    BuffersHold(start, run, n, buffers);
    HeldDecodes(defs, ById(s)[..n], buffers, es);
  }

  /** The same with no premise that joins the cores: it is enough that what each core put into each buffer is a trace
      that is legal by itself. */
  lemma DriverToDecoderEach(defs: seq<Kind>, start: State, run: seq<Action>, n: nat, buffers: seq<seq<Piece>>,
                            arrivals: seq<Arrival>, traces: seq<seq<Trace.Event>>)
    requires IsTable(defs) && Handoff.Init(start) && CanAll(start, run) && CalmAll(start, run)
    requires var s := DoAll(start, run);
             Settled(s) && ReachedUpTo(s, n) && PutOut(s, n, buffers) && Permutes(Sent(s), arrivals)
    requires Unsplit(arrivals, n) && LaidOutEach(buffers, traces)
    ensures Trace.Legal(JoinTraces(traces))
    ensures Recovers(defs, Payloads(ArriveAll(AsIntended, EMPTY, arrivals).fed), JoinTraces(traces))
  {
    EachLaysOut(buffers, traces);
    DriverToDecoder(defs, start, run, n, buffers, arrivals, JoinTraces(traces));
  }
}
