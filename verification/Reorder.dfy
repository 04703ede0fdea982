/** Putting the trace buffers of one sequence back into packet-id order before decoding them. */
module Reorder {
  import opened Bytes
  import opened PacketTable
  import opened Decoder
  import opened PacketInterpreter

  datatype Message = Message(bytes: seq<byte>, id: nat, cpu: nat)

  /** AsPublished falls through after caching and never drains; AsIntended stops after caching and drains what became
      due. */
  datatype Behaviour = AsPublished | AsIntended

  /** last_packet_id, out_of_order_packets, and the messages fed to the interpreter so far. */
  datatype Order = Order(last: nat, cache: seq<Message>, fed: seq<Message>)

  const EMPTY: Order := Order(0, [], [])

  /** `append` then stable `sort` by id, on a cache that is already sorted. */
  function Insert(cache: seq<Message>, m: Message): seq<Message> {
    if cache == [] then [m]
    else if cache[|cache| - 1].id <= m.id then cache + [m]
    else Insert(cache[..|cache| - 1], m) + [cache[|cache| - 1]]
  }

  /** The drain loop: while the oldest cached message is the next one due, feed it. */
  function DrainDue(o: Order): Order
    decreases |o.cache|
  {
    if o.cache != [] && o.cache[0].id == o.last + 1
    then DrainDue(Order(o.cache[0].id, o.cache[1..], o.fed + [o.cache[0]]))
    else o
  }

  function Receive(how: Behaviour, o: Order, m: Message): Order {
    var early := m.id != o.last + 1;
    var cached := if early then o.(cache := Insert(o.cache, m)) else o;
    match how
    case AsPublished => Order(m.id, cached.cache, o.fed + [m])
    case AsIntended => if early then cached else DrainDue(Order(m.id, o.cache, o.fed + [m]))
  }

  function ReceiveAll(how: Behaviour, o: Order, arrivals: seq<Message>): Order {
    if arrivals == [] then o
    else Receive(how, ReceiveAll(how, o, arrivals[..|arrivals| - 1]), arrivals[|arrivals| - 1])
  }

  function Payloads(ms: seq<Message>): seq<byte> {
    if ms == [] then [] else Payloads(ms[..|ms| - 1]) + ms[|ms| - 1].bytes
  }

  // ------------------------------------------------------------------ the cache

  ghost predicate Ascending(ms: seq<Message>) {
    forall i, j | 0 <= i < j < |ms| :: ms[i].id < ms[j].id
  }

  /** The message with each id: byId[i] carries id i + 1. */
  ghost predicate Numbered(byId: seq<Message>) {
    forall i | 0 <= i < |byId| :: byId[i].id == i + 1
  }

  lemma {:induction false} InsertMembers(cache: seq<Message>, m: Message)
    ensures forall c :: c in Insert(cache, m) <==> c == m || c in cache
  {
    if cache != [] && cache[|cache| - 1].id > m.id {
      var init, top := cache[..|cache| - 1], cache[|cache| - 1];
      InsertMembers(init, m);
      assert cache == init + [top];
    }
  }

  lemma {:induction false} AscendingSnoc(ms: seq<Message>, top: Message)
    requires Ascending(ms) && forall c | c in ms :: c.id < top.id
    ensures Ascending(ms + [top])
  {
  }

  lemma {:induction false} InsertAscends(cache: seq<Message>, m: Message)
    requires Ascending(cache) && forall c | c in cache :: c.id != m.id
    ensures Ascending(Insert(cache, m))
    ensures forall c :: c in Insert(cache, m) <==> c == m || c in cache
  {
    InsertMembers(cache, m);
    if cache == [] {
    } else {
      var init, top := cache[..|cache| - 1], cache[|cache| - 1];
      assert cache == init + [top];
      assert forall c | c in init :: c in cache && c.id < top.id;
      if top.id > m.id {
        InsertAscends(init, m);
        AscendingSnoc(Insert(init, m), top);
      } else {
        assert top in cache;
        AscendingSnoc(cache, m);
      }
    }
  }

  /** Fed are exactly the messages 1 .. last in id order; the cache holds, in ascending order, messages past the next
      one due; and nothing that has arrived is anywhere else. */
  ghost predicate Tidy(byId: seq<Message>, o: Order, arrived: set<Message>) {
    && o.last <= |byId| && o.fed == byId[..o.last]
    && Ascending(o.cache)
    && (forall c | c in o.cache :: o.last + 1 < c.id <= |byId| && c == byId[c.id - 1])
    && (forall c :: c in arrived <==> c in o.cache || c in o.fed)
  }

  /** Tidy, except that the next message due may be at the head of the cache. */
  ghost predicate NearlyTidy(byId: seq<Message>, o: Order, arrived: set<Message>) {
    && o.last <= |byId| && o.fed == byId[..o.last]
    && Ascending(o.cache)
    && (forall c | c in o.cache :: o.last < c.id <= |byId| && c == byId[c.id - 1])
    && (forall c :: c in arrived <==> c in o.cache || c in o.fed)
  }

  lemma {:induction false} DrainTidies(byId: seq<Message>, o: Order, arrived: set<Message>)
    requires Numbered(byId) && NearlyTidy(byId, o, arrived)
    ensures Tidy(byId, DrainDue(o), arrived)
    decreases |o.cache|
  {
    if o.cache != [] {
      var c := o.cache[0];
      assert c in o.cache;
      if c.id == o.last + 1 {
        var o' := Order(c.id, o.cache[1..], o.fed + [c]);
        assert o.cache == [c] + o'.cache;
        assert o'.fed == byId[..o'.last];
        DrainTidies(byId, o', arrived);
      } else {
        forall d | d in o.cache ensures o.last + 1 < d.id {
          var i :| 0 <= i < |o.cache| && o.cache[i] == d;
        }
      }
    }
  }

  lemma {:induction false} ReceiveTidies(byId: seq<Message>, o: Order, arrived: set<Message>, m: Message)
    requires Numbered(byId) && Tidy(byId, o, arrived)
    requires m in byId && m !in arrived
    ensures Tidy(byId, Receive(AsIntended, o, m), arrived + {m})
  {
    var i :| 0 <= i < |byId| && byId[i] == m;
    if m.id == o.last + 1 {
      var o' := Order(m.id, o.cache, o.fed + [m]);
      assert o'.fed == byId[..o'.last];
      DrainTidies(byId, o', arrived + {m});
    } else {
      CacheTidies(byId, o, arrived, m);
    }
  }

  lemma {:induction false} CacheTidies(byId: seq<Message>, o: Order, arrived: set<Message>, m: Message)
    requires Numbered(byId) && Tidy(byId, o, arrived)
    requires m in byId && m !in arrived && m.id != o.last + 1
    ensures Tidy(byId, o.(cache := Insert(o.cache, m)), arrived + {m})
  {
    NotYetCached(byId, o, arrived, m);
    InsertAscends(o.cache, m);
  }

  lemma {:induction false} NotYetCached(byId: seq<Message>, o: Order, arrived: set<Message>, m: Message)
    requires Numbered(byId) && Tidy(byId, o, arrived)
    requires m in byId && m !in arrived && m.id != o.last + 1
    ensures o.last + 1 < m.id <= |byId| && m == byId[m.id - 1]
    ensures forall c | c in o.cache :: c.id != m.id
  {
    var i :| 0 <= i < |byId| && byId[i] == m;
    assert forall j | 0 <= j < o.last :: o.fed[j] == byId[j] && o.fed[j] in arrived;
  }

  /** arrivals holds every message of byId once, in any order. */
  ghost predicate Permutes<T(!new)>(byId: seq<T>, arrivals: seq<T>) {
    && (forall m :: m in arrivals <==> m in byId)
    && (forall i, j | 0 <= i < j < |arrivals| :: arrivals[i] != arrivals[j])
  }

  function Members(ms: seq<Message>): set<Message> {
    set m | m in ms
  }

  /** At every moment of every arrival order: the messages fed are 1 .. last in id order, the cache is sorted and
      holds only later ones, and nothing is lost or repeated. */
  lemma {:induction false} AlwaysTidy(byId: seq<Message>, arrivals: seq<Message>)
    requires Numbered(byId)
    requires forall i | 0 <= i < |arrivals| :: arrivals[i] in byId
    requires forall i, j | 0 <= i < j < |arrivals| :: arrivals[i] != arrivals[j]
    ensures Tidy(byId, ReceiveAll(AsIntended, EMPTY, arrivals), Members(arrivals))
  {
    if arrivals != [] {
      var init, m := arrivals[..|arrivals| - 1], arrivals[|arrivals| - 1];
      AlwaysTidy(byId, init);
      assert Members(arrivals) == Members(init) + {m} by {
        assert arrivals == init + [m];
      }
      ReceiveTidies(byId, ReceiveAll(AsIntended, EMPTY, init), Members(init), m);
    }
  }

  lemma {:induction false} NextIsMember(byId: seq<Message>, n: nat)
    requires Numbered(byId)
    ensures n < |byId| ==> exists m :: m in byId && m.id == n + 1
  {
    if n < |byId| {
      assert byId[n] in byId;
    }
  }

  lemma {:induction false} HeadIsMember(ms: seq<Message>)
    ensures ms != [] ==> ms[0] in ms
  {
  }

  /** Once all of 1 .. n have arrived, in whatever order, all have been fed in id order and the cache is empty. */
  lemma {:induction false} AllDelivered(byId: seq<Message>, arrivals: seq<Message>)
    requires Numbered(byId) && Permutes(byId, arrivals)
    ensures ReceiveAll(AsIntended, EMPTY, arrivals) == Order(|byId|, [], byId)
  {
    AlwaysTidy(byId, arrivals);
    var o := ReceiveAll(AsIntended, EMPTY, arrivals);
    forall m | m in byId ensures m.id != o.last + 1 {
      assert m in Members(arrivals);
      if m in o.fed {
        var j :| 0 <= j < |o.fed| && o.fed[j] == m;
      }
    }
    NextIsMember(byId, o.last);
    HeadIsMember(o.cache);
    assert byId[..|byId|] == byId;
  }

  /** When only some arrive, what is fed stops right before the first id that has not, and the rest stays cached. */
  lemma {:induction false} StopsAtGap(byId: seq<Message>, arrivals: seq<Message>, n: nat)
    requires Numbered(byId) && n <= |byId|
    requires forall i | 0 <= i < |arrivals| :: arrivals[i] in byId
    requires forall i, j | 0 <= i < j < |arrivals| :: arrivals[i] != arrivals[j]
    requires (forall i | 0 <= i < n :: byId[i] in arrivals) && (n < |byId| ==> byId[n] !in arrivals)
    ensures var o := ReceiveAll(AsIntended, EMPTY, arrivals);
            o.last == n && o.fed == byId[..n] && forall m | m in arrivals :: n < m.id ==> m in o.cache
  {
    AlwaysTidy(byId, arrivals);
    var o := ReceiveAll(AsIntended, EMPTY, arrivals);
    TidyGap(byId, o, Members(arrivals));
    assert forall m | m in arrivals :: m in Members(arrivals);
    assert forall m | m in o.fed :: m.id <= o.last;
  }

  lemma {:induction false} TidyGap(byId: seq<Message>, o: Order, arrived: set<Message>)
    requires Numbered(byId) && Tidy(byId, o, arrived)
    ensures forall i | 0 <= i < o.last :: byId[i] in arrived
    ensures o.last < |byId| ==> byId[o.last] !in arrived
  {
    forall i | 0 <= i < o.last ensures byId[i] in arrived {
      assert byId[i] == o.fed[i];
    }
    assert forall m | m in o.fed :: m.id <= o.last;
  }

  // ------------------------------------------------------------------ as published

  /** The published loop feeds every message the moment it arrives, and everything it ever caches stays cached. */
  lemma {:induction false} PublishedFeedsArrivals(arrivals: seq<Message>)
    ensures var o := ReceiveAll(AsPublished, EMPTY, arrivals);
            && o.fed == arrivals
            && o.last == (if arrivals == [] then 0 else arrivals[|arrivals| - 1].id)
            && (o.cache == [] <==> Numbered(arrivals))
  {
    if arrivals != [] {
      var init, m := arrivals[..|arrivals| - 1], arrivals[|arrivals| - 1];
      assert arrivals == init + [m];
      NumberedSnoc(init, m);
      PublishedFeedsArrivals(init);
      var o := ReceiveAll(AsPublished, EMPTY, init);
      InsertNonempty(o.cache, m);
      ReceivePublished(o, m);
    }
  }

  /** The messages whose id is not the one after the message before. */
  function Unexpected(arrivals: seq<Message>): seq<Message> {
    if arrivals == [] then []
    else
      var n := |arrivals| - 1;
      var before := if n == 0 then 0 else arrivals[n - 1].id;
      Unexpected(arrivals[..n]) + (if arrivals[n].id == before + 1 then [] else [arrivals[n]])
  }

  lemma {:induction false} InsertKeeps(cache: seq<Message>, m: Message)
    ensures multiset(Insert(cache, m)) == multiset(cache) + multiset{m}
  {
    if cache != [] && cache[|cache| - 1].id > m.id {
      var init, top := cache[..|cache| - 1], cache[|cache| - 1];
      assert cache == init + [top];
      InsertKeeps(init, m);
    }
  }

  /** What the published loop caches, and never takes out again, is every message that did not follow the one before. */
  lemma {:induction false} PublishedCaches(arrivals: seq<Message>)
    ensures multiset(ReceiveAll(AsPublished, EMPTY, arrivals).cache) == multiset(Unexpected(arrivals))
  {
    if arrivals != [] {
      var n := |arrivals| - 1;
      var init, m := arrivals[..n], arrivals[n];
      PublishedCaches(init);
      PublishedFeedsArrivals(init);
      var o := ReceiveAll(AsPublished, EMPTY, init);
      InsertKeeps(o.cache, m);
      ReceivePublished(o, m);
    }
  }

  lemma {:induction false} ReceivePublished(o: Order, m: Message)
    ensures Receive(AsPublished, o, m)
            == Order(m.id, if m.id != o.last + 1 then Insert(o.cache, m) else o.cache, o.fed + [m])
  {
  }

  lemma {:induction false} NumberedSnoc(init: seq<Message>, m: Message)
    ensures Numbered(init + [m]) <==> Numbered(init) && m.id == |init| + 1
    ensures Numbered(init) && init != [] ==> init[|init| - 1].id == |init|
  {
    if Numbered(init + [m]) {
      assert forall i | 0 <= i < |init| :: (init + [m])[i] == init[i];
      assert (init + [m])[|init|] == m;
    }
  }

  lemma {:induction false} InsertNonempty(cache: seq<Message>, m: Message)
    ensures Insert(cache, m) != []
  {
  }

  /** So it meets the promise, all messages fed in id order and none left behind, exactly when they arrive in id
      order. */
  lemma {:induction false} PublishedOrdersIff(byId: seq<Message>, arrivals: seq<Message>)
    requires Numbered(byId) && Permutes(byId, arrivals)
    ensures ReceiveAll(AsPublished, EMPTY, arrivals) == Order(|byId|, [], byId) <==> arrivals == byId
  {
    PublishedFeedsArrivals(arrivals);
  }

  // ------------------------------------------------------------------ the FIRST packet

  /** What the consumer of the transport receives: the FIRST packet of the sequence, or a buffer. */
  datatype Arrival = Begin | Data(message: Message)

  /** The FIRST packet makes the order list anew: nothing received, nothing cached. What was fed stays fed. */
  function Arrive(how: Behaviour, o: Order, a: Arrival): Order {
    match a
    case Begin => Order(0, [], o.fed)
    case Data(m) => Receive(how, o, m)
  }

  function ArriveAll(how: Behaviour, o: Order, arrivals: seq<Arrival>): Order {
    if arrivals == [] then o
    else Arrive(how, ArriveAll(how, o, arrivals[..|arrivals| - 1]), arrivals[|arrivals| - 1])
  }

  function AsData(ms: seq<Message>): (r: seq<Arrival>)
    ensures |r| == |ms|
  {
    seq(|ms|, i requires 0 <= i < |ms| => Data(ms[i]))
  }

  lemma {:induction false} ArriveData(how: Behaviour, o: Order, ms: seq<Message>)
    ensures ArriveAll(how, o, AsData(ms)) == ReceiveAll(how, o, ms)
    decreases |ms|
  {
    if ms != [] {
      assert AsData(ms)[..|ms| - 1] == AsData(ms[..|ms| - 1]);
      ArriveData(how, o, ms[..|ms| - 1]);
    }
  }

  lemma {:induction false} ArriveConcat(how: Behaviour, o: Order, a: seq<Arrival>, b: seq<Arrival>)
    ensures ArriveAll(how, o, a + b) == ArriveAll(how, ArriveAll(how, o, a), b)
    decreases |b|
  {
    if b == [] {
      assert a + b == a;
    } else {
      assert (a + b)[..|a + b| - 1] == a + b[..|b| - 1];
      ArriveConcat(how, o, a, b[..|b| - 1]);
    }
  }

  /** What was fed earlier has no influence on what is fed later. */
  lemma {:induction false} DrainForgets(o: Order, before: seq<Message>)
    ensures DrainDue(o.(fed := before + o.fed)) == DrainDue(o).(fed := before + DrainDue(o).fed)
    decreases |o.cache|
  {
    if o.cache != [] && o.cache[0].id == o.last + 1 {
      var o' := Order(o.cache[0].id, o.cache[1..], o.fed + [o.cache[0]]);
      assert before + o.fed + [o.cache[0]] == before + o'.fed;
      DrainForgets(o', before);
    }
  }

  lemma {:induction false} ReceiveForgets(o: Order, before: seq<Message>, ms: seq<Message>)
    ensures ReceiveAll(AsIntended, o.(fed := before + o.fed), ms)
            == ReceiveAll(AsIntended, o, ms).(fed := before + ReceiveAll(AsIntended, o, ms).fed)
    decreases |ms|
  {
    if ms != [] {
      var m, r := ms[|ms| - 1], ReceiveAll(AsIntended, o, ms[..|ms| - 1]);
      ReceiveForgets(o, before, ms[..|ms| - 1]);
      assert before + r.fed + [m] == before + (r.fed + [m]);
      DrainForgets(Order(m.id, r.cache, r.fed + [m]), before);
    }
  }

  /** Some of the messages before the FIRST packet, the others after it: each half is ordered on its own. */
  lemma {:induction false} HalvesFed(before: seq<Message>, after: seq<Message>)
    ensures ArriveAll(AsIntended, EMPTY, AsData(before) + [Begin] + AsData(after))
            == ReceiveAll(AsIntended, Order(0, [], ReceiveAll(AsIntended, EMPTY, before).fed), after)
    ensures ArriveAll(AsIntended, EMPTY, AsData(before) + [Begin] + AsData(after)).fed
            == ReceiveAll(AsIntended, EMPTY, before).fed + ReceiveAll(AsIntended, EMPTY, after).fed
    ensures ArriveAll(AsIntended, EMPTY, AsData(before) + [Begin] + AsData(after)).cache
            == ReceiveAll(AsIntended, EMPTY, after).cache
  {
    var o := ReceiveAll(AsIntended, EMPTY, before);
    ArriveData(AsIntended, EMPTY, before);
    ArriveConcat(AsIntended, EMPTY, AsData(before) + [Begin], AsData(after));
    assert (AsData(before) + [Begin])[..|before|] == AsData(before);
    ArriveData(AsIntended, Order(0, [], o.fed), after);
    assert o.fed + [] == o.fed;
    ReceiveForgets(EMPTY, o.fed, after);
  }

  ghost predicate Among(byId: seq<Message>, ms: seq<Message>) {
    && (forall i | 0 <= i < |ms| :: ms[i] in byId)
    && (forall i, j | 0 <= i < j < |ms| :: ms[i] != ms[j])
  }

  /** Whatever arrives, a beginning of the ids is fed. */
  lemma {:induction false} FedIsPrefix(byId: seq<Message>, ms: seq<Message>)
    requires Numbered(byId) && Among(byId, ms)
    ensures var o := ReceiveAll(AsIntended, EMPTY, ms);
            && o.last <= |byId| && o.fed == byId[..o.last] && (forall i | 0 <= i < o.last :: byId[i] in ms)
            && (o.last < |byId| ==> byId[o.last] !in ms)
  {
    AlwaysTidy(byId, ms);
    TidyGap(byId, ReceiveAll(AsIntended, EMPTY, ms), Members(ms));
  }

  /** The ids 1 .. n arrive and id n + 1, if there is one, does not. With the FIRST packet among them, the ids 1 .. n
      are fed in order if and only if they all come before it or all after it. */
  lemma {:induction false} FirstSplitsIff(byId: seq<Message>, before: seq<Message>, after: seq<Message>, n: nat)
    requires Numbered(byId) && n <= |byId| && Among(byId, before) && Among(byId, after)
    requires forall m | m in before :: m !in after
    requires (forall i | 0 <= i < n :: byId[i] in before || byId[i] in after)
    requires n < |byId| ==> byId[n] !in before && byId[n] !in after
    ensures ArriveAll(AsIntended, EMPTY, AsData(before) + [Begin] + AsData(after)).fed == byId[..n]
            <==> (forall i | 0 <= i < n :: byId[i] in before) || (forall i | 0 <= i < n :: byId[i] in after)
  {
    HalvesFed(before, after);
    FedIsPrefix(byId, before);
    FedIsPrefix(byId, after);
    var p, q := ReceiveAll(AsIntended, EMPTY, before).last, ReceiveAll(AsIntended, EMPTY, after).last;
    assert |byId[..p] + byId[..q]| == p + q;
    assert p <= n && q <= n;
    if 0 < p { assert byId[0] in before; }
    if 0 < q { assert byId[0] in after; }
    if p == n && q == 0 { assert byId[..p] + byId[..q] == byId[..n]; }
    if p == 0 && q == n { assert byId[..p] + byId[..q] == byId[..n]; }
  }

  lemma {:induction false} PublishedFeedsOn(o: Order, ms: seq<Message>)
    ensures ReceiveAll(AsPublished, o, ms).fed == o.fed + ms
  {
    if ms == [] {
      assert o.fed + ms == o.fed;
    } else {
      var init, m := ms[..|ms| - 1], ms[|ms| - 1];
      assert o.fed + init + [m] == o.fed + ms;
      PublishedFeedsOn(o, init);
    }
  }

  /** The published parser feeds in arrival order whether or not the FIRST packet comes in between. */
  lemma {:induction false} PublishedIgnoresFirst(before: seq<Message>, after: seq<Message>)
    ensures ArriveAll(AsPublished, EMPTY, AsData(before) + [Begin] + AsData(after)).fed == before + after
  {
    var o := ReceiveAll(AsPublished, EMPTY, before);
    PublishedFeedsOn(EMPTY, before);
    assert [] + before == before;
    ArriveData(AsPublished, EMPTY, before);
    ArriveConcat(AsPublished, EMPTY, AsData(before) + [Begin], AsData(after));
    assert (AsData(before) + [Begin])[..|before|] == AsData(before);
    ArriveData(AsPublished, Order(0, [], o.fed), after);
    PublishedFeedsOn(Order(0, [], o.fed), after);
  }

  /** Two buffers either side of the FIRST packet, the later one first: only one of them is ever fed, though without
      the FIRST packet both would be. */
  lemma {:induction false} FirstInBetweenLoses(a: Message, b: Message)
    requires a.id == 1 && b.id == 2
    ensures ArriveAll(AsIntended, EMPTY, [Data(b), Begin, Data(a)]) == Order(1, [], [a])
    ensures ReceiveAll(AsIntended, EMPTY, [b, a]) == Order(2, [], [a, b])
  {
    assert AsData([b]) + [Begin] + AsData([a]) == [Data(b), Begin, Data(a)];
    HalvesFed([b], [a]);
    AllDelivered([a, b], [b, a]);
    assert [b][..0] == [] && [a][..0] == [];
    var o := ReceiveAll(AsIntended, EMPTY, []);
    assert ReceiveAll(AsIntended, EMPTY, [b]) == Receive(AsIntended, o, b);
    assert ReceiveAll(AsIntended, o, [a]) == Receive(AsIntended, o, a);
  }

  // ------------------------------------------------------------------ feeding the interpreter

  lemma {:induction false} PayloadsConcat(a: seq<Message>, b: seq<Message>)
    ensures Payloads(a + b) == Payloads(a) + Payloads(b)
    decreases |b|
  {
    if b == [] {
      assert a + b == a;
    } else {
      assert (a + b)[..|a + b| - 1] == a + b[..|b| - 1];
      PayloadsConcat(a, b[..|b| - 1]);
    }
  }

  /** PACKET_ORDER_LISTS[sequence_id] together with the interpreter it feeds. */
  class PacketOrder {
    var last: nat
    var cache: seq<Message>
    const interpreter: Interpreter
    ghost var fed: seq<Message>

    ghost predicate Valid()
      reads this, interpreter, interpreter.context
    {
      interpreter.State() == Run(TABLE, interpreter.rule, Decoder.Init(TABLE), Payloads(fed))
    }

    ghost function State(): Order
      reads this
    {
      Order(last, cache, fed)
    }

    constructor (rule: Rule)
      ensures Valid() && State() == EMPTY && interpreter.rule == rule
      ensures fresh(interpreter) && fresh(interpreter.context)
    {
      last, cache, fed := 0, [], [];
      interpreter := new Interpreter(rule);
    }

    /** `sort(key = id)` after an append. */
    method SortIn(m: Message)
      modifies this`cache
      ensures cache == Insert(old(cache), m)
    {
      var above: seq<Message> := [];
      var below := cache;
      while below != [] && below[|below| - 1].id > m.id
        invariant Insert(old(cache), m) == Insert(below, m) + above
        decreases |below|
      {
        above := [below[|below| - 1]] + above;
        below := below[..|below| - 1];
      }
      cache := below + [m] + above;
    }

    method FeedOne(m: Message)
      requires Valid()
      modifies this`fed, interpreter, interpreter.context
      ensures Valid() && fed == old(fed) + [m]
    {
      PayloadsConcat(fed, [m]);
      assert Payloads([m]) == m.bytes by { assert [m][..0] == []; assert Payloads([]) + m.bytes == m.bytes; }
      RunConcat(TABLE, interpreter.rule, Decoder.Init(TABLE), Payloads(fed), m.bytes);
      interpreter.ProcessBytes(m.bytes);
      fed := fed + [m];
    }

    /** A FIRST packet of this sequence has arrived. */
    method BeginSequence()
      requires Valid()
      modifies this`last, this`cache
      ensures Valid() && State() == Arrive(AsIntended, old(State()), Begin)
    {
      last, cache := 0, [];
    }

    /** parser as published: a message out of order is cached and fed as well, and the drain loop compares a whole
        cache entry with a number, so its test is never true. */
    method ParserAsPublished(m: Message)
      requires Valid()
      modifies this, interpreter, interpreter.context
      ensures Valid() && State() == Receive(AsPublished, old(State()), m)
    {
      if m.id != last + 1 {
        SortIn(m);
      }
      FeedOne(m);
      last := m.id;
    }

    /** parser as intended: a message out of order only waits; one in order is fed, then everything that became due. */
    method ParserAsIntended(m: Message)
      requires Valid()
      modifies this, interpreter, interpreter.context
      ensures Valid() && State() == Receive(AsIntended, old(State()), m)
    {
      if m.id != last + 1 {
        SortIn(m);
        return;
      }
      FeedOne(m);
      last := m.id;
      while cache != [] && cache[0].id == last + 1
        invariant Valid()
        invariant Receive(AsIntended, old(State()), m) == DrainDue(State())
        decreases |cache|
      {
        FeedOne(cache[0]);
        last := cache[0].id;
        cache := cache[1..];
      }
    }
  }
}
