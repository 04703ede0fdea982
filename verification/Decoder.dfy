/** The byte-at-a-time packet decoder: every field the loop updates, and an order-free core it refines. */
module Decoder {
  import opened Bytes
  import opened PacketTable
  import opened Packets

  /** When a packet counts as complete: AsWritten asks only that some packet was ever matched;
      Guarded also asks that the decoder is inside a packet. */
  datatype Rule = AsWritten | Guarded

  datatype Interp = Interp(
    acc: seq<byte>,
    candidates: seq<Kind>,
    headerIndex: nat,
    inPacket: bool,
    current: Option<Kind>,
    length: nat,
    succession: seq<Packet>,
    ctx: Context,
    fault: Option<Fault>)

  function Init(defs: seq<Kind>): Interp {
    Interp([], defs, 0, false, None, 0, [], INITIAL_CONTEXT, None)
  }

  datatype Scanned = Found(kind: Kind) | Narrowed(kept: seq<Kind>) | OutOfRange

  /** The loop over the candidates: the first one whose header this byte completes, else those it leaves open. */
  function Scan(candidates: seq<Kind>, index: nat, b: byte, kept: seq<Kind>): Scanned {
    if candidates == [] then Narrowed(kept)
    else
      var k, rest := candidates[0], candidates[1..];
      if index >= |Header(k)| then OutOfRange
      else if !Accepts(Header(k)[index], b) then Scan(rest, index, b, kept)
      else if index == |Header(k)| - 1 then Found(k)
      else Scan(rest, index, b, kept + [k])
  }

  /** Header search on an accumulator that already ends in b. */
  function Search(s: Interp, b: byte): Interp
    requires s.acc != []
  {
    match Scan(s.candidates, s.headerIndex, b, [])
    case OutOfRange => s.(fault := Some(HeaderIndex))
    case Found(k) =>
      var t := s.(headerIndex := 0, inPacket := true, current := Some(k));
      (match Length(k, s.acc)
       case None => t.(fault := Some(ReservedLength))
       case Some(n) => t.(length := n))
    case Narrowed(kept) =>
      if s.inPacket then s else s.(headerIndex := s.headerIndex + 1, candidates := kept)
  }

  predicate Ready(rule: Rule, current: Option<Kind>, inPacket: bool, acc: seq<byte>, length: nat) {
    current.Some? && (rule == AsWritten || inPacket) && |acc| >= length
  }

  function Emit(succession: seq<Packet>, packets: seq<Packet>, ctx: Context): seq<Packet> {
    if ctx.disabled then succession else succession + packets
  }

  /** Hands a fully buffered packet to its handler and starts over. */
  function Complete(defs: seq<Kind>, rule: Rule, s: Interp): Interp {
    if !Ready(rule, s.current, s.inPacket, s.acc, s.length) then s
    else
      match Handle(s.current.value, s.acc, s.ctx)
      case Raised(f) => s.(fault := Some(f))
      case Done(packets, ctx) =>
        s.(acc := [], candidates := defs, headerIndex := 0, inPacket := false,
           succession := Emit(s.succession, packets, ctx), ctx := ctx)
  }

  /** One byte. An exception has ended the run: later bytes change nothing. */
  function Step(defs: seq<Kind>, rule: Rule, s: Interp, b: byte): Interp {
    if s.fault.Some? then s
    else if s.inPacket then Complete(defs, rule, s.(acc := s.acc + [b]))
    else if Unused(b) then
      if |s.candidates| != |defs| && |s.candidates| != 0
      then s.(candidates := defs, acc := [], headerIndex := 0)
      else s
    else
      var t := Search(s.(acc := s.acc + [b]), b);
      if t.fault.Some? then t else Complete(defs, rule, t)
  }

  function Run(defs: seq<Kind>, rule: Rule, s: Interp, bytes: seq<byte>): Interp
    decreases |bytes|
  {
    if bytes == [] then s else Run(defs, rule, Step(defs, rule, s, bytes[0]), bytes[1..])
  }

  lemma {:induction false} RunConcat(defs: seq<Kind>, rule: Rule, s: Interp, a: seq<byte>, b: seq<byte>)
    ensures Run(defs, rule, s, a + b) == Run(defs, rule, Run(defs, rule, s, a), b)
    decreases |a|
  {
    if a == [] {
      assert a + b == b;
    } else {
      assert (a + b)[1..] == a[1..] + b;
      RunConcat(defs, rule, Step(defs, rule, s, a[0]), a[1..], b);
    }
  }

  // ------------------------------------------------------------------ the order-free core

  /** The decoder without its candidate list and header index. */
  datatype Core = Core(
    acc: seq<byte>, inPacket: bool, current: Option<Kind>, length: nat,
    succession: seq<Packet>, ctx: Context, fault: Option<Fault>)

  function View(s: Interp): Core {
    Core(s.acc, s.inPacket, s.current, s.length, s.succession, s.ctx, s.fault)
  }

  /** The definition whose whole header is acc; there is at most one. */
  ghost function FullMatch(acc: seq<byte>): Option<Kind> {
    if exists k :: Matches(k, acc) then var k :| Matches(k, acc); Some(k) else None
  }

  /** Some definition has a longer header that starts with acc. */
  ghost predicate Viable(acc: seq<byte>) {
    exists k :: |acc| < |Header(k)| && Prefix(k, acc)
  }

  ghost function CoreComplete(rule: Rule, c: Core): Core {
    if !Ready(rule, c.current, c.inPacket, c.acc, c.length) then c
    else
      match Handle(c.current.value, c.acc, c.ctx)
      case Raised(f) => c.(fault := Some(f))
      case Done(packets, ctx) =>
        c.(acc := [], inPacket := false, succession := Emit(c.succession, packets, ctx), ctx := ctx)
  }

  ghost function CoreSearch(c: Core): Core
    requires c.acc != []
  {
    match FullMatch(c.acc)
    case None => c
    case Some(k) =>
      var t := c.(inPacket := true, current := Some(k));
      match Length(k, c.acc)
      case None => t.(fault := Some(ReservedLength))
      case Some(n) => t.(length := n)
  }

  ghost function CoreStep(rule: Rule, c: Core, b: byte): Core {
    if c.fault.Some? then c
    else if c.inPacket then CoreComplete(rule, c.(acc := c.acc + [b]))
    else if Unused(b) then (if Viable(c.acc) then c.(acc := []) else c)
    else
      var t := CoreSearch(c.(acc := c.acc + [b]));
      if t.fault.Some? then t else CoreComplete(rule, t)
  }

  ghost function CoreRun(rule: Rule, c: Core, bytes: seq<byte>): Core
    decreases |bytes|
  {
    if bytes == [] then c else CoreRun(rule, CoreStep(rule, c, bytes[0]), bytes[1..])
  }

  lemma {:induction false} CoreRunConcat(rule: Rule, c: Core, a: seq<byte>, b: seq<byte>)
    ensures CoreRun(rule, c, a + b) == CoreRun(rule, CoreRun(rule, c, a), b)
    decreases |a|
  {
    if a == [] {
      assert a + b == b;
    } else {
      assert (a + b)[1..] == a[1..] + b;
      CoreRunConcat(rule, CoreStep(rule, c, a[0]), a[1..], b);
    }
  }

  lemma {:induction false} FullMatchIs(k: Kind, acc: seq<byte>)
    requires Matches(k, acc)
    ensures FullMatch(acc) == Some(k)
  {
    PrefixFree(k, FullMatch(acc).value, acc);
  }

  /** The definitions of defs, in order, whose header is longer than acc and starts with it. */
  function Open(defs: seq<Kind>, acc: seq<byte>): seq<Kind> {
    if defs == [] then []
    else (if |acc| < |Header(defs[0])| && Prefix(defs[0], acc) then [defs[0]] else []) + Open(defs[1..], acc)
  }

  lemma {:induction false} OpenMembers(defs: seq<Kind>, acc: seq<byte>, k: Kind)
    ensures k in Open(defs, acc) <==> k in defs && |acc| < |Header(k)| && Prefix(k, acc)
    ensures |Open(defs, acc)| <= |defs|
    ensures acc != [] && Tnt in defs ==> |Open(defs, acc)| < |defs|
    ensures acc == [] ==> Open(defs, acc) == defs
  {
    if defs != [] {
      OpenMembers(defs[1..], acc, k);
      OpenHead(defs, acc);
      if acc != [] && Tnt in defs && defs[0] != Tnt {
        assert Tnt in defs[1..];
      }
    }
  }

  lemma {:induction false} OpenHead(defs: seq<Kind>, acc: seq<byte>)
    requires defs != []
    ensures var o, rest := Open(defs, acc), Open(defs[1..], acc);
            if |acc| < |Header(defs[0])| && Prefix(defs[0], acc) then o != [] && o[0] == defs[0] && o[1..] == rest
            else o == rest
  {
  }

  lemma {:induction false} FullMatchMatches(acc: seq<byte>)
    ensures FullMatch(acc).Some? ==> Matches(FullMatch(acc).value, acc)
    ensures FullMatch(acc).None? ==> forall k :: !Matches(k, acc)
  {
  }

  /** The outcome the loop should have: the definition the byte completes, or the ones it leaves open. */
  ghost function ScanResult(defs: seq<Kind>, acc': seq<byte>, kept: seq<Kind>): Scanned {
    if FullMatch(acc').Some? && FullMatch(acc').value in defs then Found(FullMatch(acc').value)
    else Narrowed(kept + Open(defs, acc'))
  }

  lemma {:induction false} ScanHead(candidates: seq<Kind>, index: nat, b: byte, kept: seq<Kind>)
    requires candidates != [] && index < |Header(candidates[0])|
    ensures var k, rest := candidates[0], candidates[1..];
            Scan(candidates, index, b, kept)
            == if !Accepts(Header(k)[index], b) then Scan(rest, index, b, kept)
               else if index == |Header(k)| - 1 then Found(k)
               else Scan(rest, index, b, kept + [k])
  {
  }

  lemma {:induction false} KeptHead(defs: seq<Kind>, acc: seq<byte>, kept: seq<Kind>)
    requires defs != []
    ensures kept + Open(defs, acc)
            == (if |acc| < |Header(defs[0])| && Prefix(defs[0], acc) then kept + [defs[0]] else kept)
               + Open(defs[1..], acc)
  {
    OpenHead(defs, acc);
    var o, k, rest := Open(defs, acc), defs[0], Open(defs[1..], acc);
    if |acc| < |Header(k)| && Prefix(k, acc) {
      assert o == [k] + rest;
      assert kept + ([k] + rest) == kept + [k] + rest;
    }
  }

  /** A complete header rules out every definition with a longer header, so the loop's stopping early loses nothing. */
  lemma {:induction false} ScanOpen(defs: seq<Kind>, acc: seq<byte>, b: byte, kept: seq<Kind>)
    ensures Scan(Open(defs, acc), |acc|, b, kept) == ScanResult(defs, acc + [b], kept)
    decreases |defs|
  {
    var acc' := acc + [b];
    if defs == [] {
      assert kept + [] == kept;
    } else {
      var k, rest := defs[0], defs[1..];
      var open := |acc| < |Header(k)| && Prefix(k, acc);
      var more := open && Accepts(Header(k)[|acc|], b) && |acc'| < |Header(k)|;
      PrefixSnoc(k, acc, b);
      OpenHead(defs, acc);
      OpenHead(defs, acc');
      FullMatchMatches(acc');
      if Matches(k, acc') {
        FullMatchIs(k, acc');
      } else {
        var kept' := if more then kept + [k] else kept;
        ScanOpen(rest, acc, b, kept');
        assert Scan(Open(defs, acc), |acc|, b, kept) == Scan(Open(rest, acc), |acc|, b, kept') by {
          if open { ScanHead(Open(defs, acc), |acc|, b, kept); }
        }
        KeptHead(defs, acc', kept);
        assert FullMatch(acc').Some? && FullMatch(acc').value in defs ==> FullMatch(acc').value in rest;
      }
    }
  }

  /** Fewest bytes the handler of k reads. */
  function LeastLength(k: Kind): nat {
    if k == Cbr then 4 else if k == Mode then 2 else 1
  }

  /** What every reachable state satisfies. While searching, the accumulator is as long as the header
      index and the candidates are exactly the definitions with a longer header that starts with it;
      inside a packet, the accumulator starts with the packet's header and is strictly shorter than it. */
  ghost predicate Inv(defs: seq<Kind>, s: Interp) {
    && s.fault != Some(HeaderIndex) && s.fault != Some(DataIndex)
    && (s.fault.None? && s.current.Some? ==> LeastLength(s.current.value) <= s.length)
    && (s.fault.None? ==>
          if s.inPacket then
            && s.current.Some? && |Header(s.current.value)| <= |s.acc| < s.length
            && Matches(s.current.value, s.acc[..|Header(s.current.value)|])
            && Length(s.current.value, s.acc[..|Header(s.current.value)|]) == Some(s.length)
          else
            && s.headerIndex == |s.acc|
            && s.candidates == Open(defs, s.acc)
            && FullMatch(s.acc).None?)
  }

  lemma {:induction false} InitInv(defs: seq<Kind>)
    ensures Inv(defs, Init(defs))
  {
    OpenMembers(defs, [], Tnt);
  }

  lemma {:induction false} HandleReadsInRange(k: Kind, data: seq<byte>, ctx: Context)
    requires LeastLength(k) <= |data|
    ensures Handle(k, data, ctx).Raised? ==>
              Handle(k, data, ctx).fault != DataIndex && Handle(k, data, ctx).fault != HeaderIndex
  {
  }

  lemma {:induction false} CompleteRefines(defs: seq<Kind>, rule: Rule, s: Interp)
    requires s.fault.None? && (s.current.Some? ==> LeastLength(s.current.value) <= s.length)
    requires s.inPacket ==>
               && s.current.Some? && |Header(s.current.value)| <= |s.acc| <= s.length
               && Matches(s.current.value, s.acc[..|Header(s.current.value)|])
               && Length(s.current.value, s.acc[..|Header(s.current.value)|]) == Some(s.length)
    requires !s.inPacket ==> s.headerIndex == |s.acc| && s.candidates == Open(defs, s.acc) && FullMatch(s.acc).None?
    ensures Inv(defs, Complete(defs, rule, s))
    ensures View(Complete(defs, rule, s)) == CoreComplete(rule, View(s))
  {
    OpenMembers(defs, [], Tnt);
    if Ready(rule, s.current, s.inPacket, s.acc, s.length) {
      HandleReadsInRange(s.current.value, s.acc, s.ctx);
    }
  }

  /** The decoder invariant is inductive, and one step of the decoder is one step of the order-free core. */
  lemma {:induction false} StepRefines(defs: seq<Kind>, rule: Rule, s: Interp, b: byte)
    requires IsTable(defs) && Inv(defs, s)
    ensures Inv(defs, Step(defs, rule, s, b))
    ensures View(Step(defs, rule, s, b)) == CoreStep(rule, View(s), b)
  {
    if s.fault.Some? {
    } else if s.inPacket {
      var t := s.(acc := s.acc + [b]);
      var h := |Header(s.current.value)|;
      assert t.acc[..h] == s.acc[..h];
      CompleteRefines(defs, rule, t);
    } else if Unused(b) {
      UnusedRefines(defs, rule, s, b);
    } else {
      SearchRefines(defs, s, b);
      var t := Search(s.(acc := s.acc + [b]), b);
      if t.fault.None? {
        CompleteRefines(defs, rule, t);
      }
    }
  }

  lemma {:induction false} UnusedRefines(defs: seq<Kind>, rule: Rule, s: Interp, b: byte)
    requires IsTable(defs) && Inv(defs, s) && s.fault.None? && !s.inPacket && Unused(b)
    ensures Inv(defs, Step(defs, rule, s, b))
    ensures View(Step(defs, rule, s, b)) == CoreStep(rule, View(s), b)
  {
    OpenMembers(defs, s.acc, Tnt);
    OpenMembers(defs, [], Tnt);
    if s.candidates != [] {
      OpenMembers(defs, s.acc, s.candidates[0]);
    } else if Viable(s.acc) {
      var k :| |s.acc| < |Header(k)| && Prefix(k, s.acc);
      OpenMembers(defs, s.acc, k);
    }
  }

  lemma {:induction false} SearchRefines(defs: seq<Kind>, s: Interp, b: byte)
    requires IsTable(defs) && Inv(defs, s) && s.fault.None? && !s.inPacket
    ensures var s' := s.(acc := s.acc + [b]);
            var t := Search(s', b);
            && View(t) == CoreSearch(View(s'))
            && t.fault != Some(HeaderIndex) && t.fault != Some(DataIndex)
            && (t.current.Some? ==> LeastLength(t.current.value) <= t.length || t.fault.Some?)
            && (t.fault.None? && t.inPacket ==>
                  && t.current.Some? && |Header(t.current.value)| == |t.acc| <= t.length
                  && Matches(t.current.value, t.acc) && Length(t.current.value, t.acc) == Some(t.length))
            && (t.fault.None? && !t.inPacket ==>
                  t.headerIndex == |t.acc| && t.candidates == Open(defs, t.acc) && FullMatch(t.acc).None?)
  {
    var acc' := s.acc + [b];
    ScanOpen(defs, s.acc, b, []);
    assert [] + Open(defs, acc') == Open(defs, acc');
    if FullMatch(acc').Some? {
      var k := FullMatch(acc').value;
      assert k in defs && Matches(k, acc');
      if Length(k, acc').Some? {
        LengthBounds(k, acc');
      }
    }
  }

  /** Any run of the decoder is the run of the core, and every state it reaches satisfies the invariant. */
  lemma {:induction false} RunRefines(defs: seq<Kind>, rule: Rule, s: Interp, bytes: seq<byte>)
    requires IsTable(defs) && Inv(defs, s)
    ensures Inv(defs, Run(defs, rule, s, bytes))
    ensures View(Run(defs, rule, s, bytes)) == CoreRun(rule, View(s), bytes)
    decreases |bytes|
  {
    if bytes != [] {
      StepRefines(defs, rule, s, bytes[0]);
      RunRefines(defs, rule, Step(defs, rule, s, bytes[0]), bytes[1..]);
    }
  }

  /** Header and data indexing never leave their range, on any byte stream. */
  lemma {:induction false} IndexingInRange(defs: seq<Kind>, rule: Rule, bytes: seq<byte>)
    requires IsTable(defs)
    ensures var s := Run(defs, rule, Init(defs), bytes);
            && s.fault != Some(HeaderIndex) && s.fault != Some(DataIndex)
            && (s.fault.None? && !s.inPacket ==> forall k | k in s.candidates :: s.headerIndex < |Header(k)|)
  {
    var s := Run(defs, rule, Init(defs), bytes);
    InitInv(defs);
    RunRefines(defs, rule, Init(defs), bytes);
    if s.fault.None? && !s.inPacket {
      forall k | k in s.candidates ensures s.headerIndex < |Header(k)| {
        OpenMembers(defs, s.acc, k);
      }
    }
  }

  /** The order of the definitions never matters: same packets, same context, same position in the stream. */
  lemma {:induction false} TableOrderIrrelevant(defs: seq<Kind>, defs': seq<Kind>, rule: Rule, bytes: seq<byte>)
    requires IsTable(defs) && IsTable(defs')
    ensures View(Run(defs, rule, Init(defs), bytes)) == View(Run(defs', rule, Init(defs'), bytes))
  {
    InitInv(defs);
    InitInv(defs');
    RunRefines(defs, rule, Init(defs), bytes);
    RunRefines(defs', rule, Init(defs'), bytes);
  }
}
