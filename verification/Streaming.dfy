/** Decoding a whole byte sequence at once, and the byte-at-a-time decoder as a refinement of it. */
module Streaming {
  import opened Bytes
  import opened PacketTable
  import opened Packets
  import opened Decoder
  import opened Framing

  /** What the bytes up to the first decision are: cut short, n bytes to drop, n bytes no definition starts with,
      or the n header bytes of a packet. */
  datatype Ident = Incomplete | Discard(n: nat) | Dead(n: nat) | Opened(kind: Kind, n: nat)

  ghost function Identify(bytes: seq<byte>, n: nat): (r: Ident)
    requires n <= |bytes|
    ensures r.Discard? ==> 0 < r.n <= |bytes|
    ensures r.Dead? ==> 0 < r.n <= |bytes|
    ensures r.Opened? ==> 0 < r.n <= |bytes| && Matches(r.kind, bytes[..r.n])
    decreases |bytes| - n
  {
    if n == |bytes| then Incomplete
    else if Unused(bytes[n]) then Discard(n + 1)
    else
      FullMatchMatches(bytes[..n + 1]);
      match FullMatch(bytes[..n + 1])
      case Some(k) => Opened(k, n + 1)
      case None => if StartsHeader(bytes, n + 1) then Identify(bytes, n + 1) else Dead(n + 1)
  }

  /** What each decision says about the bytes before it. */
  ghost predicate Identified(bytes: seq<byte>, r: Ident) {
    match r
    case Incomplete => StartsHeader(bytes, |bytes|)
    case Discard(n) => 0 < n <= |bytes| && StartsHeader(bytes, n - 1) && Unused(bytes[n - 1])
    case Dead(n) => 0 < n <= |bytes| && StartsHeader(bytes, n - 1) && !Unused(bytes[n - 1])
                    && FullMatch(bytes[..n]).None? && !Viable(bytes[..n])
    case Opened(k, n) => 0 < n <= |bytes| && Matches(k, bytes[..n])
  }

  lemma {:induction false} IdentifyIsRight(bytes: seq<byte>, n: nat)
    requires StartsHeader(bytes, n)
    ensures Identified(bytes, Identify(bytes, n))
    decreases |bytes| - n
  {
    if n < |bytes| && !Unused(bytes[n]) && FullMatch(bytes[..n + 1]).None? && StartsHeader(bytes, n + 1) {
      IdentifyIsRight(bytes, n + 1);
    }
  }

  /** The first n bytes start some longer header. */
  ghost predicate StartsHeader(bytes: seq<byte>, n: nat) {
    n <= |bytes| && Viable(bytes[..n])
  }

  lemma {:induction false} NothingReadIsOpen(bytes: seq<byte>)
    ensures StartsHeader(bytes, 0)
  {
    assert bytes[..0] == [];
    var none: seq<byte> := [];
    assert |none| < |Header(Tnt)| && Prefix(Tnt, none);
  }

  datatype Batch = Batch(packets: seq<Packet>, ctx: Context, fault: Option<Fault>)

  /** Decodes the whole sequence, packet by packet, from a given context. */
  ghost function Decode(bytes: seq<byte>, ctx: Context): Batch
    decreases |bytes|
  {
    match Identify(bytes, 0)
    case Incomplete => Batch([], ctx, None)
    case Dead(_) => Batch([], ctx, None)
    case Discard(n) => Decode(bytes[n..], ctx)
    case Opened(k, n) =>
      match Length(k, bytes[..n])
      case None => Batch([], ctx, Some(ReservedLength))
      case Some(len) =>
        LengthBounds(k, bytes[..n]);
        if |bytes| < len then Batch([], ctx, None)
        else
          match Handle(k, bytes[..len], ctx)
          case Raised(x) => Batch([], ctx, Some(x))
          case Done(packets, ctx') =>
            var rest := Decode(bytes[len..], ctx');
            Batch(Emit([], packets, ctx') + rest.packets, rest.ctx, rest.fault)
  }

  /** The decoder's outputs so far, read as a batch result. */
  ghost predicate Shows(c: Core, before: Core, b: Batch) {
    c.succession == before.succession + b.packets && c.ctx == b.ctx && c.fault == b.fault
  }

  lemma {:induction false} OpenRun(c: Core, bytes: seq<byte>, n: nat)
    requires Idle(c) && StartsHeader(bytes, n)
    ensures CoreRun(Guarded, c, bytes[..n]) == c.(acc := bytes[..n])
  {
    var k :| n < |Header(k)| && Prefix(k, bytes[..n]);
    HeaderRun(Guarded, c, k, bytes[..n]);
  }

  /** Bytes dropped in the middle of a header leave the decoder as it was. */
  lemma {:induction false} DiscardStep(c: Core, acc: seq<byte>, b: byte)
    requires Idle(c) && Viable(acc) && Unused(b)
    ensures CoreStep(Guarded, c.(acc := acc), b) == c
  {
  }

  lemma {:induction false} DiscardRun(c: Core, bytes: seq<byte>, n: nat)
    requires Idle(c) && 0 < n <= |bytes| && StartsHeader(bytes, n - 1) && Unused(bytes[n - 1])
    ensures CoreRun(Guarded, c, bytes) == CoreRun(Guarded, c, bytes[n..])
  {
    assert bytes[..n - 1] + ([bytes[n - 1]] + bytes[n..]) == bytes;
    OpenRun(c, bytes, n - 1);
    DiscardThen(c, bytes[..n - 1], bytes[n - 1], bytes[n..]);
  }

  lemma {:induction false} DiscardThen(c: Core, acc: seq<byte>, b: byte, tail: seq<byte>)
    requires Idle(c) && Viable(acc) && Unused(b) && CoreRun(Guarded, c, acc) == c.(acc := acc)
    ensures CoreRun(Guarded, c, acc + ([b] + tail)) == CoreRun(Guarded, c, tail)
  {
    CoreRunConcat(Guarded, c, acc, [b] + tail);
    DiscardStep(c, acc, b);
    assert ([b] + tail)[1..] == tail;
  }

  /** Once no definition starts with the accumulated bytes, the guarded decoder is silent for good. */
  lemma {:induction false} DeadRun(c: Core, bytes: seq<byte>)
    requires c.fault.None? && !c.inPacket && FullMatch(c.acc).None? && !Viable(c.acc)
    ensures var r := CoreRun(Guarded, c, bytes);
            r.succession == c.succession && r.ctx == c.ctx && r.fault.None? && !r.inPacket
    decreases |bytes|
  {
    if bytes != [] {
      var b := bytes[0];
      StaysDead(c.acc, b);
      DeadRun(CoreStep(Guarded, c, b), bytes[1..]);
    }
  }

  lemma {:induction false} StaysDead(acc: seq<byte>, b: byte)
    requires !Viable(acc)
    ensures FullMatch(acc + [b]).None? && !Viable(acc + [b])
  {
    FullMatchMatches(acc + [b]);
    forall k ensures !Prefix(k, acc + [b]) {
      PrefixSnoc(k, acc, b);
    }
  }

  lemma {:induction false} DeadStep(c: Core, acc: seq<byte>, b: byte)
    requires Idle(c) && !Unused(b) && FullMatch(acc + [b]).None?
    ensures CoreStep(Guarded, c.(acc := acc), b) == c.(acc := acc + [b])
  {
  }

  lemma {:induction false} DeadFrom(c: Core, bytes: seq<byte>, n: nat)
    requires Idle(c) && Identified(bytes, Dead(n))
    ensures var r := CoreRun(Guarded, c, bytes);
            r.succession == c.succession && r.ctx == c.ctx && r.fault.None?
  {
    var init, b := bytes[..n - 1], bytes[n - 1];
    assert bytes[..n] == init + [b];
    assert bytes == bytes[..n] + bytes[n..];
    CoreRunConcat(Guarded, c, bytes[..n], bytes[n..]);
    CoreRunConcat(Guarded, c, init, [b]);
    OpenRun(c, bytes, n - 1);
    RunOne(Guarded, c.(acc := init), b);
    DeadStep(c, init, b);
    DeadRun(c.(acc := bytes[..n]), bytes[n..]);
  }

  /** A header whose length lookup raises ends the run at its last byte. */
  lemma {:induction false} ReservedRun(c: Core, k: Kind, bytes: seq<byte>, n: nat)
    requires Idle(c) && 0 < n <= |bytes| && Matches(k, bytes[..n]) && Length(k, bytes[..n]).None?
    ensures var r := CoreRun(Guarded, c, bytes);
            r.succession == c.succession && r.ctx == c.ctx && r.fault == Some(ReservedLength)
  {
    var init, b := bytes[..n - 1], bytes[n - 1];
    assert bytes[..n] == init + [b] && bytes == bytes[..n] + bytes[n..];
    PrefixSnoc(k, init, b);
    HeaderRun(Guarded, c, k, init);
    ReservedStep(c, k, init, b);
    RunSnoc(Guarded, c, init, b);
    CoreRunConcat(Guarded, c, bytes[..n], bytes[n..]);
    FaultedRun(Guarded, CoreStep(Guarded, c.(acc := init), b), bytes[n..]);
  }

  lemma {:induction false} ReservedStep(c: Core, k: Kind, init: seq<byte>, b: byte)
    requires Idle(c) && Matches(k, init + [b]) && Length(k, init + [b]).None?
    ensures var r := CoreStep(Guarded, c.(acc := init), b);
            r.succession == c.succession && r.ctx == c.ctx && r.fault == Some(ReservedLength)
  {
    PrefixSnoc(k, init, b);
    HeadersAvoidUnused(k, |init|, b);
    FullMatchIs(k, init + [b]);
  }

  /** A packet cut off by the end of the sequence shows nothing. */
  lemma {:induction false} CutShort(c: Core, k: Kind, bytes: seq<byte>, n: nat, len: nat)
    requires Idle(c) && 0 < n <= |bytes| < len && Matches(k, bytes[..n]) && Length(k, bytes[..n]) == Some(len)
    ensures var r := CoreRun(Guarded, c, bytes);
            r.succession == c.succession && r.ctx == c.ctx && r.fault.None?
  {
    var f := Frame(k, bytes + seq(len - |bytes|, i => 0));
    assert f.bytes[..n] == bytes[..n];
    FramePrefixRun(Guarded, c, f, |bytes|);
    assert f.bytes[..|bytes|] == bytes;
  }

  lemma {:induction false} FrameIsWhole(f: Frame, n: nat)
    requires n <= |f.bytes| && Matches(f.kind, f.bytes[..n]) && Length(f.kind, f.bytes[..n]) == Some(|f.bytes|)
    ensures WellFormed(f)
  {
  }

  lemma {:induction false} FrameThen(c: Core, k: Kind, bytes: seq<byte>, n: nat, len: nat)
    requires Idle(c) && 0 < n <= |bytes| && len <= |bytes|
    requires Matches(k, bytes[..n]) && Length(k, bytes[..n]) == Some(len)
    ensures CoreRun(Guarded, c, bytes) == CoreRun(Guarded, After(c, Frame(k, bytes[..len])), bytes[len..])
  {
    LengthBounds(k, bytes[..n]);
    var f := Frame(k, bytes[..len]);
    assert f.bytes[..n] == bytes[..n];
    assert f.bytes + bytes[len..] == bytes;
    FrameIsWhole(f, n);
    WholeThen(c, f, After(c, f), bytes[len..]);
  }

  lemma {:induction false} WholeThen(c: Core, f: Frame, c': Core, tail: seq<byte>)
    requires Idle(c) && WellFormed(f) && c' == After(c, f)
    ensures CoreRun(Guarded, c, f.bytes + tail) == CoreRun(Guarded, c', tail)
  {
    FrameRun(Guarded, c, f);
    CoreRunConcat(Guarded, c, f.bytes, tail);
  }

  /** Byte-at-a-time decoding refines whole-sequence decoding, on every byte sequence: malformed and cut-off
      packets included. */
  lemma {:induction false} RunIsDecode(c: Core, bytes: seq<byte>)
    requires Idle(c)
    ensures Shows(CoreRun(Guarded, c, bytes), c, Decode(bytes, c.ctx))
    decreases |bytes|
  {
    NothingReadIsOpen(bytes);
    IdentifyIsRight(bytes, 0);
    match Identify(bytes, 0) {
      case Incomplete =>
        OpenRun(c, bytes, |bytes|);
        assert bytes[..|bytes|] == bytes;
      case Dead(n) =>
        DeadFrom(c, bytes, n);
      case Discard(n) =>
        DiscardRun(c, bytes, n);
        RunIsDecode(c, bytes[n..]);
      case Opened(k, n) =>
        var length := Length(k, bytes[..n]);
        if length.None? {
          ReservedRun(c, k, bytes, n);
        } else if |bytes| < length.value {
          CutShort(c, k, bytes, n, length.value);
        } else {
          OpenedIsDecode(c, k, bytes, n, length.value);
        }
    }
  }

  lemma {:induction false} OpenedIsDecode(c: Core, k: Kind, bytes: seq<byte>, n: nat, len: nat)
    requires Idle(c) && Identify(bytes, 0) == Opened(k, n) && Length(k, bytes[..n]) == Some(len) && len <= |bytes|
    ensures Shows(CoreRun(Guarded, c, bytes), c, Decode(bytes, c.ctx))
    decreases |bytes|, 0
  {
    LengthBounds(k, bytes[..n]);
    var h, c' := Handle(k, bytes[..len], c.ctx), After(c, Frame(k, bytes[..len]));
    if h.Raised? {
      FrameThen(c, k, bytes, n, len);
      FaultedRun(Guarded, c', bytes[len..]);
    } else {
      RunIsDecode(c', bytes[len..]);
      FrameThen(c, k, bytes, n, len);
      ShowsMore(c, c', CoreRun(Guarded, c, bytes), h.packets, h.ctx, Decode(bytes[len..], h.ctx));
    }
  }

  lemma {:induction false} ShowsMore(c: Core, c': Core, r: Core, packets: seq<Packet>, ctx: Context, rest: Batch)
    requires c'.succession == Emit(c.succession, packets, ctx) && Shows(r, c', rest)
    ensures Shows(r, c, Batch(Emit([], packets, ctx) + rest.packets, rest.ctx, rest.fault))
  {
    assert c.succession + packets + rest.packets == c.succession + (packets + rest.packets);
    assert [] + packets == packets;
  }

  // ------------------------------------------------------------------ suppression

  datatype Report = Report(kind: Kind, packets: seq<Packet>)

  datatype Unfiltered = Unfiltered(reports: seq<Report>, ctx: Context, fault: Option<Fault>)

  /** Decodes the whole sequence as if there were no suppression: every packet reports, and PSB and PSBEND change
      nothing. */
  ghost function DecodeUnfiltered(bytes: seq<byte>, ctx: Context): Unfiltered
    decreases |bytes|
  {
    match Identify(bytes, 0)
    case Incomplete => Unfiltered([], ctx, None)
    case Dead(_) => Unfiltered([], ctx, None)
    case Discard(n) => DecodeUnfiltered(bytes[n..], ctx)
    case Opened(k, n) =>
      match Length(k, bytes[..n])
      case None => Unfiltered([], ctx, Some(ReservedLength))
      case Some(len) =>
        LengthBounds(k, bytes[..n]);
        if |bytes| < len then Unfiltered([], ctx, None)
        else
          match Handle(k, bytes[..len], ctx)
          case Raised(x) => Unfiltered([], ctx, Some(x))
          case Done(packets, after) =>
            var rest := DecodeUnfiltered(bytes[len..], after.(disabled := ctx.disabled));
            rest.(reports := [Report(k, packets)] + rest.reports)
  }

  /** Whether packets are hidden after these reports. */
  predicate HiddenAfter(reports: seq<Report>, hidden: bool) {
    if reports == [] then hidden else HiddenAfter(reports[1..], HiddenBy(reports[0].kind, hidden))
  }

  /** The packets of the reports that are not hidden. */
  function Visible(reports: seq<Report>, hidden: bool): seq<Packet> {
    if reports == [] then []
    else
      var h := HiddenBy(reports[0].kind, hidden);
      (if h then [] else reports[0].packets) + Visible(reports[1..], h)
  }

  /** On every byte sequence, malformed ones included, decoding gives the unsuppressed reports with the hidden ones left
      out, and time, address and mode evolve as if nothing were left out. */
  lemma {:induction false} SuppressionFilters(bytes: seq<byte>, ctx: Context, hidden: bool)
    ensures var d, u := Decode(bytes, ctx.(disabled := hidden)), DecodeUnfiltered(bytes, ctx);
            && d.packets == Visible(u.reports, hidden) && d.fault == u.fault
            && d.ctx == u.ctx.(disabled := HiddenAfter(u.reports, hidden))
    decreases |bytes|
  {
    match Identify(bytes, 0) {
      case Incomplete =>
      case Dead(_) =>
      case Discard(n) =>
        SuppressionFilters(bytes[n..], ctx, hidden);
      case Opened(k, n) =>
        var length := Length(k, bytes[..n]);
        if length.Some? && length.value <= |bytes| {
          LengthBounds(k, bytes[..n]);
          OpenedFilters(bytes, ctx, hidden, k, n, length.value);
        }
    }
  }

  lemma {:induction false} OpenedFilters(bytes: seq<byte>, ctx: Context, hidden: bool, k: Kind, n: nat, len: nat)
    requires Identify(bytes, 0) == Opened(k, n) && Length(k, bytes[..n]) == Some(len) && 0 < len <= |bytes|
    ensures var d, u := Decode(bytes, ctx.(disabled := hidden)), DecodeUnfiltered(bytes, ctx);
            && d.packets == Visible(u.reports, hidden) && d.fault == u.fault
            && d.ctx == u.ctx.(disabled := HiddenAfter(u.reports, hidden))
    decreases |bytes|, 0
  {
    SuppressionIsApart(k, bytes[..len], ctx, hidden);
    var h := Handle(k, bytes[..len], ctx);
    if h.Done? {
      var after := h.ctx.(disabled := ctx.disabled);
      SuppressionFilters(bytes[len..], after, HiddenBy(k, hidden));
      var rest := DecodeUnfiltered(bytes[len..], after);
      var report := Report(k, h.packets);
      assert ([report] + rest.reports)[1..] == rest.reports;
      assert [] + h.packets == h.packets;
    }
  }

  /** One report more. */
  lemma {:induction false} VisibleMore(reports: seq<Report>, r: Report, hidden: bool)
    ensures Visible(reports + [r], hidden)
            == Visible(reports, hidden) + (if HiddenAfter(reports + [r], hidden) then [] else r.packets)
    decreases |reports|
  {
    if reports == [] {
      assert reports + [r] == [r] && [r][1..] == [];
    } else {
      var h := HiddenBy(reports[0].kind, hidden);
      assert (reports + [r])[1..] == reports[1..] + [r];
      VisibleMore(reports[1..], r, h);
    }
  }

  predicate NoPsbEnd(reports: seq<Report>, from: nat) {
    forall m | from <= m < |reports| :: reports[m].kind != PsbEnd
  }

  /** Report j is a PSB, and no PSBEND comes after it. */
  predicate Hides(reports: seq<Report>, j: nat) {
    j < |reports| && reports[j].kind == Psb && NoPsbEnd(reports, j + 1)
  }

  lemma {:induction false} HidesTail(reports: seq<Report>, j: nat)
    requires reports != []
    ensures Hides(reports, j + 1) <==> Hides(reports[1..], j)
    ensures NoPsbEnd(reports, 1) <==> NoPsbEnd(reports[1..], 0)
  {
    assert forall m | 0 <= m < |reports[1..]| :: reports[1..][m] == reports[m + 1];
    assert forall m | 1 <= m < |reports| :: reports[m] == reports[1..][m - 1];
  }

  lemma {:induction false} HidesSomewhere(reports: seq<Report>)
    requires reports != []
    ensures (exists j: nat :: Hides(reports, j)) <==> Hides(reports, 0) || exists j: nat :: Hides(reports[1..], j)
    ensures NoPsbEnd(reports, 0) <==> reports[0].kind != PsbEnd && NoPsbEnd(reports[1..], 0)
  {
    HidesTail(reports, 0);
    forall j: nat ensures Hides(reports, j + 1) <==> Hides(reports[1..], j) {
      HidesTail(reports, j);
    }
    if j: nat :| Hides(reports, j) {
      if j > 0 { assert Hides(reports[1..], j - 1); }
    }
    if j: nat :| Hides(reports[1..], j) {
      assert Hides(reports, j + 1);
    }
  }

  /** Hidden by position: a PSB at or before the end with no PSBEND after it, or hidden from the start with no PSBEND at
      all. */
  lemma {:induction false} HiddenAfterIff(reports: seq<Report>, hidden: bool)
    ensures HiddenAfter(reports, hidden)
            <==> (exists j: nat :: Hides(reports, j)) || (hidden && NoPsbEnd(reports, 0))
    decreases |reports|
  {
    if reports != [] {
      HiddenAfterIff(reports[1..], HiddenBy(reports[0].kind, hidden));
      HidesSomewhere(reports);
      HidesTail(reports, 0);
    }
  }

  /** A stream whose first byte is 0x03 decodes to nothing, whatever comes after it. */
  lemma {:induction false} DeadHappens(rest: seq<byte>)
    ensures Decode([0x03] + rest, INITIAL_CONTEXT) == Batch([], INITIAL_CONTEXT, None)
    ensures Shows(CoreRun(Guarded, START, [0x03] + rest), START, Batch([], INITIAL_CONTEXT, None))
  {
    var bytes := [0x03] + rest;
    assert bytes[..1] == [0x03];
    forall k ensures !Prefix(k, [0x03]) {
      HeaderByCode(k, 0, 0x03);
      if ByCode(k, 0, 0x03) {
        FirstDecodes(k, 0x03);
        NotThree(k);
      }
    }
    FullMatchMatches([0x03]);
    assert Identify(bytes, 0) == Dead(1);
    RunIsDecode(START, bytes);
  }

  lemma NotThree(k: Kind)
    ensures !ByCode(k, 0, 0x03)
  {
  }

  // ------------------------------------------------------------------ draining

  /** What a client does with an interpreter: feed some bytes, or take the packets decoded so far. */
  datatype Call = Feed(bytes: seq<byte>) | Drain

  datatype Served = Served(state: Interp, drained: seq<Packet>)

  function Serve(defs: seq<Kind>, rule: Rule, v: Served, call: Call): Served {
    match call
    case Feed(bytes) => v.(state := Run(defs, rule, v.state, bytes))
    case Drain => Served(v.state.(succession := []), v.drained + v.state.succession)
  }

  function ServeAll(defs: seq<Kind>, rule: Rule, v: Served, calls: seq<Call>): Served
    decreases |calls|
  {
    if calls == [] then v else ServeAll(defs, rule, Serve(defs, rule, v, calls[0]), calls[1..])
  }

  function Fed(calls: seq<Call>): seq<byte> {
    if calls == [] then [] else (match calls[0] case Feed(bytes) => bytes case Drain => []) + Fed(calls[1..])
  }

  /** The decoded packets are only ever appended to. */
  lemma {:induction false} StepAppends(defs: seq<Kind>, rule: Rule, s: Interp, out: seq<Packet>, b: byte)
    ensures var r := Step(defs, rule, s.(succession := []), b);
            Step(defs, rule, s.(succession := out), b) == r.(succession := out + r.succession)
  {
    assert out + [] == out;
    var t := s.(acc := s.acc + [b]);
    if s.fault.None? && s.inPacket {
      CompleteAppends(defs, rule, t, out);
    } else if s.fault.None? && !Unused(b) {
      SearchAppends(t, out, b);
      CompleteAppends(defs, rule, Search(t, b), out);
    }
  }

  lemma {:induction false} SearchAppends(s: Interp, out: seq<Packet>, b: byte)
    requires s.acc != []
    ensures Search(s.(succession := out), b) == Search(s, b).(succession := out)
  {
  }

  lemma {:induction false} CompleteAppends(defs: seq<Kind>, rule: Rule, s: Interp, out: seq<Packet>)
    ensures var r := Complete(defs, rule, s.(succession := []));
            Complete(defs, rule, s.(succession := out)) == r.(succession := out + r.succession)
  {
    assert out + [] == out;
    if Ready(rule, s.current, s.inPacket, s.acc, s.length) {
      var h := Handle(s.current.value, s.acc, s.ctx);
      if h.Done? {
        assert [] + h.packets == h.packets;
      }
    }
  }

  lemma {:induction false} RunAppends(defs: seq<Kind>, rule: Rule, s: Interp, out: seq<Packet>, bytes: seq<byte>)
    ensures var r := Run(defs, rule, s.(succession := []), bytes);
            Run(defs, rule, s.(succession := out), bytes) == r.(succession := out + r.succession)
    decreases |bytes|
  {
    if bytes == [] {
      assert out + [] == out;
    } else {
      var t := Step(defs, rule, s.(succession := []), bytes[0]);
      StepAppends(defs, rule, s, out, bytes[0]);
      RunAppends(defs, rule, t, out + t.succession, bytes[1..]);
      RunAppends(defs, rule, t, t.succession, bytes[1..]);
      AppendTwice(t, Run(defs, rule, t.(succession := []), bytes[1..]), out);
    }
  }

  lemma {:induction false} AppendTwice(t: Interp, r: Interp, out: seq<Packet>)
    ensures t.(succession := t.succession) == t
    ensures out + t.succession + r.succession == out + (t.succession + r.succession)
  {
  }

  /** Draining moves packets out without losing, repeating or reordering any. */
  lemma {:induction false} DrainingIsTransparent(defs: seq<Kind>, rule: Rule, v: Served, calls: seq<Call>)
    ensures var r := ServeAll(defs, rule, v, calls);
            var whole := Run(defs, rule, v.state.(succession := v.drained + v.state.succession), Fed(calls));
            whole == r.state.(succession := r.drained + r.state.succession)
    decreases |calls|
  {
    if calls != [] {
      var v', rest := Serve(defs, rule, v, calls[0]), calls[1..];
      DrainingIsTransparent(defs, rule, v', rest);
      var s := v.state.(succession := v.drained + v.state.succession);
      match calls[0] {
        case Feed(bytes) =>
          RunConcat(defs, rule, s, bytes, Fed(rest));
          FeedAppends(defs, rule, v, bytes);
        case Drain =>
          assert Fed(calls) == Fed(rest);
          assert v'.drained + v'.state.succession == v.drained + v.state.succession;
      }
    }
  }

  lemma {:induction false} FeedAppends(defs: seq<Kind>, rule: Rule, v: Served, bytes: seq<byte>)
    ensures var s := v.state;
            var r := Run(defs, rule, s, bytes);
            Run(defs, rule, s.(succession := v.drained + s.succession), bytes)
            == r.(succession := v.drained + r.succession)
  {
    var s := v.state;
    RunAppends(defs, rule, s, s.succession, bytes);
    RunAppends(defs, rule, s, v.drained + s.succession, bytes);
    var r := Run(defs, rule, s.(succession := []), bytes);
    assert s.(succession := s.succession) == s;
    assert v.drained + s.succession + r.succession == v.drained + (s.succession + r.succession);
  }

  /** For any split of a stream into chunks and any placement of drains, what the client has taken plus what is
      still waiting is the whole-sequence decode of all bytes fed. */
  lemma {:induction false} StreamingRefinesBatch(defs: seq<Kind>, calls: seq<Call>)
    requires IsTable(defs)
    ensures var r := ServeAll(defs, Guarded, Served(Init(defs), []), calls);
            r.drained + r.state.succession == Decode(Fed(calls), INITIAL_CONTEXT).packets
            && r.state.ctx == Decode(Fed(calls), INITIAL_CONTEXT).ctx
            && r.state.fault == Decode(Fed(calls), INITIAL_CONTEXT).fault
  {
    var s := Init(defs);
    DrainingIsTransparent(defs, Guarded, Served(s, []), calls);
    assert s.(succession := [] + []) == s;
    InitInv(defs);
    RunRefines(defs, Guarded, s, Fed(calls));
    RunIsDecode(START, Fed(calls));
  }
}
