/** From trace buffers in arrival order to decoded packets: reordering and decoding together. */
module Pipeline {
  import opened Bytes
  import opened PacketTable
  import opened Packets
  import opened Decoder
  import opened Framing
  import Trace
  import opened Reorder
  import opened Topa

  /** The contents of the buffers, one after another. */
  function Join(buffers: seq<seq<Piece>>): seq<Piece> {
    if buffers == [] then [] else Join(buffers[..|buffers| - 1]) + buffers[|buffers| - 1]
  }

  lemma {:induction false} FlattenConcat(a: seq<Piece>, b: seq<Piece>)
    ensures Flatten(a + b) == Flatten(a) + Flatten(b)
    decreases |a|
  {
    if a == [] {
      assert a + b == b;
    } else {
      assert (a + b)[1..] == a[1..] + b;
      FlattenConcat(a[1..], b);
    }
  }

  /** Message i carries id i + 1 and the bytes of buffer i: whole packets, and fill bytes wherever there are any. */
  ghost predicate Carries(byId: seq<Message>, buffers: seq<seq<Piece>>) {
    |byId| == |buffers| && forall i | 0 <= i < |byId| :: byId[i].id == i + 1 && byId[i].bytes == Flatten(buffers[i])
  }

  lemma {:induction false} CarriedPayloads(byId: seq<Message>, buffers: seq<seq<Piece>>)
    requires Carries(byId, buffers)
    ensures Payloads(byId) == Flatten(Join(buffers))
    decreases |buffers|
  {
    if buffers != [] {
      CarriedPayloads(byId[..|byId| - 1], buffers[..|buffers| - 1]);
      FlattenConcat(Join(buffers[..|buffers| - 1]), buffers[|buffers| - 1]);
    }
  }

  /** The bytes fed decode to exactly the meaning of the trace their packets spell. */
  lemma {:induction false} FedDecodes(defs: seq<Kind>, fed: seq<Message>, buffers: seq<seq<Piece>>,
                                     es: seq<Trace.Event>)
    requires IsTable(defs) && Carries(fed, buffers) && Trace.LaysOut(Join(buffers), es)
    ensures Recovers(defs, Payloads(fed), es)
  {
    CarriedPayloads(fed, buffers);
    Trace.RoundTrip(defs, Join(buffers), es);
  }

  /** The decoder reads the trace es off the bytes and is left between packets. */
  ghost predicate Recovers(defs: seq<Kind>, bytes: seq<byte>, es: seq<Trace.Event>)
    requires Trace.Legal(es)
  {
    var s := Run(defs, Guarded, Decoder.Init(defs), bytes);
    && s.succession == Trace.Meaning(es) && s.ctx == Trace.ContextOf(es)
    && s.fault.None? && !s.inPacket && s.acc == []
  }

  /** End to end: buffers of whole packets and fill, arriving in any order, decode to exactly the meaning of the trace
      their packets spell in id order; nothing is left waiting, in the cache or in the decoder. */
  lemma {:induction false} EndToEnd(defs: seq<Kind>, byId: seq<Message>, buffers: seq<seq<Piece>>,
                                   arrivals: seq<Message>, es: seq<Trace.Event>)
    requires IsTable(defs) && Carries(byId, buffers) && Permutes(byId, arrivals)
    requires Trace.LaysOut(Join(buffers), es)
    ensures var o := ReceiveAll(AsIntended, EMPTY, arrivals);
            o.cache == [] && o.fed == byId && Recovers(defs, Payloads(o.fed), es)
  {
    AllDelivered(byId, arrivals);
    FedDecodes(defs, byId, buffers, es);
  }

  /** The code as it stands, parser as published and decoder as written, gets there when the buffers arrive in id order
      and no packet is shorter than the header after it. */
  lemma {:induction false} AsItStands(defs: seq<Kind>, byId: seq<Message>, buffers: seq<seq<Piece>>,
                                     es: seq<Trace.Event>)
    requires IsTable(defs) && Carries(byId, buffers)
    requires Trace.LaysOut(Join(buffers), es) && Chained(Trace.EncodeAll(es))
    ensures var o := ReceiveAll(AsPublished, EMPTY, byId);
            var s := Run(defs, AsWritten, Decoder.Init(defs), Payloads(o.fed));
            o.cache == [] && s.succession == Trace.Meaning(es) && s.ctx == Trace.ContextOf(es) && s.fault.None?
  {
    PublishedFeedsArrivals(byId);
    CarriedPayloads(byId, buffers);
    Trace.AsWrittenRoundTrip(defs, Join(buffers), es);
  }

  // ------------------------------------------------------------------ several cores

  function JoinTraces(traces: seq<seq<Trace.Event>>): seq<Trace.Event> {
    if traces == [] then [] else JoinTraces(traces[..|traces| - 1]) + traces[|traces| - 1]
  }

  /** Each buffer lays out a trace that is legal by itself. */
  ghost predicate LaidOutEach(buffers: seq<seq<Piece>>, traces: seq<seq<Trace.Event>>) {
    |buffers| == |traces| && forall i | 0 <= i < |buffers| :: Trace.LaysOut(buffers[i], traces[i])
  }

  /** Then the buffers, in whatever order the ids put those of different cores, lay out the traces end to end. */
  lemma {:induction false} EachLaysOut(buffers: seq<seq<Piece>>, traces: seq<seq<Trace.Event>>)
    requires LaidOutEach(buffers, traces)
    ensures Trace.LaysOut(Join(buffers), JoinTraces(traces))
    decreases |buffers|
  {
    if buffers != [] {
      var n := |buffers| - 1;
      EachLaysOut(buffers[..n], traces[..n]);
      Trace.LegalConcat(JoinTraces(traces[..n]), traces[n]);
      FramesConcat(Join(buffers[..n]), buffers[n]);
    }
  }

  /** One packet after another. */
  function AsPieces(fs: seq<Frame>): seq<Piece> {
    seq(|fs|, i requires 0 <= i < |fs| => Pkt(fs[i]))
  }

  lemma {:induction false} AsPiecesFrames(fs: seq<Frame>, f: Frame)
    ensures Frames(AsPieces(fs + [f])) == Frames(AsPieces(fs)) + [f]
  {
    assert AsPieces(fs + [f]) == AsPieces(fs) + [Pkt(f)];
    assert [Pkt(f)][1..] == [];
    FramesConcat(AsPieces(fs), [Pkt(f)]);
  }

  lemma {:induction false} EncodedRecovers(defs: seq<Kind>, es: seq<Trace.Event>)
    requires IsTable(defs) && Trace.Legal(es)
    ensures Frames(AsPieces(Trace.EncodeAll(es))) == Trace.EncodeAll(es)
    ensures Recovers(defs, Flatten(AsPieces(Trace.EncodeAll(es))), es)
  {
    FramesOfPieces(Trace.EncodeAll(es));
    Trace.RoundTrip(defs, AsPieces(Trace.EncodeAll(es)), es);
  }

  lemma {:induction false} FramesOfPieces(fs: seq<Frame>)
    ensures Frames(AsPieces(fs)) == fs
    decreases |fs|
  {
    if fs != [] {
      var n := |fs| - 1;
      assert fs == fs[..n] + [fs[n]];
      FramesOfPieces(fs[..n]);
      AsPiecesFrames(fs[..n], fs[n]);
    }
  }

  /** Two cores. One writes the address x in full and later x', compressed against x; in between by id the other core
      writes y in full. Alone the first core's packets give x and x' back. Together x' comes out as y with the low bits
      of x', which is another address whenever y differs from x in the bits left out: the decoder keeps one LastIP for
      all cores. */
  lemma {:induction false} AddressesCross(defs: seq<Kind>, x: nat, y: nat, x': nat)
    requires IsTable(defs) && x < Pow2(64) && y < Pow2(64) && x' < Pow2(64)
    requires Shr(x, 16) == Shr(x', 16) != Shr(y, 16)
    ensures var full, other, short := Trace.Ip(Tip, 6, x), Trace.Ip(Tip, 6, y), Trace.Ip(Tip, 1, x');
            var z := Trace.Rebuilt(y, 1, x');
            var wrong := Trace.Ip(Tip, 1, z);
            && z != x' && Trace.Legal([full, short]) && Trace.Legal([full, other, wrong])
            && Recovers(defs, Flatten(AsPieces([Trace.Encode(full), Trace.Encode(short)])), [full, short])
            && Recovers(defs, Flatten(AsPieces([Trace.Encode(full), Trace.Encode(other), Trace.Encode(short)])),
                        [full, other, wrong])
  {
    var full, other, short := Trace.Ip(Tip, 6, x), Trace.Ip(Tip, 6, y), Trace.Ip(Tip, 1, x');
    AloneEncodes(full, short);
    CrossEncodes(full, other, short);
    EncodedRecovers(defs, [full, short]);
    EncodedRecovers(defs, [full, other, Trace.Ip(Tip, 1, Trace.Rebuilt(y, 1, x'))]);
  }

  lemma {:induction false} AloneEncodes(full: Trace.Event, short: Trace.Event)
    requires full.Ip? && full.form == 6 && short.Ip? && short.form == 1
    requires Trace.Encodable(full) && Trace.Encodable(short) && Shr(full.ip, 16) == Shr(short.ip, 16)
    ensures Trace.Legal([full, short])
    ensures Trace.EncodeAll([full, short]) == [Trace.Encode(full), Trace.Encode(short)]
  {
    LegalPair(full, short);
  }

  lemma {:induction false} CrossEncodes(full: Trace.Event, other: Trace.Event, short: Trace.Event)
    requires full.Ip? && full.form == 6 && other.Ip? && other.form == 6 && short.Ip? && short.form == 1
    requires Trace.Encodable(full) && Trace.Encodable(other) && Trace.Encodable(short)
    ensures var z := Trace.Rebuilt(other.ip, 1, short.ip);
            var wrong := Trace.Ip(short.kind, 1, z);
            && Trace.Legal([full, other, wrong]) && (z == short.ip <==> Shr(other.ip, 16) == Shr(short.ip, 16))
            && Trace.EncodeAll([full, other, wrong]) == [Trace.Encode(full), Trace.Encode(other), Trace.Encode(short)]
  {
    var wrong := Trace.Ip(short.kind, 1, Trace.Rebuilt(other.ip, 1, short.ip));
    LegalPair(full, other);
    Trace.OtherLastIp([full, other], short.kind, 1, short.ip);
    assert [full, other] + [wrong] == [full, other, wrong];
    LegalThree(full, other, wrong);
  }

  lemma {:induction false} LegalPair(a: Trace.Event, b: Trace.Event)
    requires a.Ip? && a.form != 0 && !Trace.Compressed(a.form) && Trace.Encodable(a) && Trace.Encodable(b)
    requires Trace.Follows(Some(a.ip), b)
    ensures Trace.Legal([a, b]) && Trace.EncodeAll([a, b]) == [Trace.Encode(a), Trace.Encode(b)]
    ensures b.Ip? && b.form != 0 ==> Trace.LatestIp([a, b]) == Some(b.ip)
  {
    assert Trace.Earlier([a]) == [] && Trace.Earlier([a, b]) == [a];
    assert Trace.Legal([]) && Trace.EncodeAll([]) == [];
    assert Trace.Legal([a]) && Trace.LatestIp([a]) == Some(a.ip) && Trace.EncodeAll([a]) == [Trace.Encode(a)];
  }

  lemma {:induction false} LegalThree(a: Trace.Event, b: Trace.Event, c: Trace.Event)
    requires Trace.Encodable(a) && Trace.Encodable(b) && Trace.Encodable(c)
    requires Trace.Legal([a, b]) && Trace.EncodeAll([a, b]) == [Trace.Encode(a), Trace.Encode(b)]
    requires Trace.Legal([a, b, c])
    ensures Trace.EncodeAll([a, b, c]) == [Trace.Encode(a), Trace.Encode(b), Trace.Encode(c)]
  {
    assert Trace.Earlier([a, b, c]) == [a, b];
  }

  // ------------------------------------------------------------------ buffers that were not filled to the end

  function Fill(n: nat): seq<Piece> {
    seq(n, i => Pad(0xFF))
  }

  /** What the hardware left of the prefill reads as fill bytes after its packets. */
  lemma {:induction false} PrefillIsFill(size: nat, packets: seq<Piece>)
    requires |Flatten(packets)| <= size
    ensures Over(size, Flatten(packets)) == Flatten(packets + Fill(size - |Flatten(packets)|))
  {
    var n := size - |Flatten(packets)|;
    FlattenConcat(packets, Fill(n));
    FlattenFill(n);
    assert Filled(size)[|Flatten(packets)|..] == Filled(n);
  }

  lemma {:induction false} FlattenFill(n: nat)
    ensures Flatten(Fill(n)) == Filled(n) && Frames(Fill(n)) == []
  {
    if n > 0 {
      FlattenFill(n - 1);
      assert Fill(n) == [Pad(0xFF)] + Fill(n - 1);
      assert Fill(n)[1..] == Fill(n - 1);
      assert Filled(n) == [0xFF] + Filled(n - 1);
    }
  }

  lemma {:induction false} FramesPrepend(p: Piece, rest: seq<Piece>)
    ensures Frames([p] + rest) == (if p.Pkt? then [p.frame] else []) + Frames(rest)
  {
    assert ([p] + rest)[1..] == rest;
  }

  lemma {:induction false} FramesConcat(a: seq<Piece>, b: seq<Piece>)
    ensures Frames(a + b) == Frames(a) + Frames(b)
    decreases |a|
  {
    if a == [] {
      assert a + b == b;
    } else {
      FramesConcat(a[1..], b);
      FramesPrepend(a[0], a[1..]);
      FramesPrepend(a[0], a[1..] + b);
      assert [a[0]] + a[1..] == a && [a[0]] + (a[1..] + b) == a + b;
    }
  }

  /** Message i carries id i + 1 and a buffer prefilled with 0xFF whose front holds packets and fill. */
  ghost predicate Holds(byId: seq<Message>, buffers: seq<seq<Piece>>) {
    |byId| == |buffers| &&
    forall i | 0 <= i < |byId| ::
      && byId[i].id == i + 1 && |Flatten(buffers[i])| <= |byId[i].bytes|
      && byId[i].bytes == Over(|byId[i].bytes|, Flatten(buffers[i]))
  }

  /** The pieces of each buffer, its unwritten tail included. */
  ghost function Whole(byId: seq<Message>, buffers: seq<seq<Piece>>): (r: seq<seq<Piece>>)
    requires Holds(byId, buffers)
    ensures |r| == |buffers|
  {
    seq(|buffers|, i requires 0 <= i < |buffers| => buffers[i] + Fill(|byId[i].bytes| - |Flatten(buffers[i])|))
  }

  predicate OnlyFill(pieces: seq<Piece>) {
    forall p | p in pieces && p.Pad? :: IsFill(p.fill)
  }

  lemma {:induction false} FillAdded(a: seq<Piece>, b: seq<Piece>, n: nat)
    ensures Frames(a + (b + Fill(n))) == Frames(a) + Frames(b)
    ensures OnlyFill(a) && OnlyFill(b) ==> OnlyFill(a + (b + Fill(n)))
  {
    FramesConcat(a, b + Fill(n));
    FramesConcat(b, Fill(n));
    FlattenFill(n);
    assert forall p | p in Fill(n) :: p == Pad(0xFF);
  }

  /** Fill behind each buffer changes nothing of the packets. */
  lemma {:induction false} FilledFrames(buffers: seq<seq<Piece>>, filled: seq<seq<Piece>>, tails: seq<nat>)
    requires |buffers| == |filled| == |tails|
    requires forall i | 0 <= i < |buffers| :: filled[i] == buffers[i] + Fill(tails[i])
    ensures Frames(Join(filled)) == Frames(Join(buffers))
    ensures OnlyFill(Join(buffers)) ==> OnlyFill(Join(filled))
    decreases |buffers|
  {
    if buffers != [] {
      var n := |buffers| - 1;
      FilledFrames(buffers[..n], filled[..n], tails[..n]);
      FramesConcat(Join(buffers[..n]), buffers[n]);
      FillAdded(Join(filled[..n]), buffers[n], tails[n]);
      OnlyFillParts(Join(buffers[..n]), buffers[n]);
    }
  }

  lemma {:induction false} OnlyFillParts(a: seq<Piece>, b: seq<Piece>)
    ensures OnlyFill(a + b) ==> OnlyFill(a) && OnlyFill(b)
  {
    if OnlyFill(a + b) {
      assert forall p | p in a :: p in a + b;
      assert forall p | p in b :: p in a + b;
    }
  }

  lemma {:induction false} WholeFrames(byId: seq<Message>, buffers: seq<seq<Piece>>)
    requires Holds(byId, buffers)
    ensures Frames(Join(Whole(byId, buffers))) == Frames(Join(buffers))
    ensures OnlyFill(Join(buffers)) ==> OnlyFill(Join(Whole(byId, buffers)))
  {
    var tails := seq(|buffers|, i requires 0 <= i < |buffers| => |byId[i].bytes| - |Flatten(buffers[i])|);
    FilledFrames(buffers, Whole(byId, buffers), tails);
  }

  /** Messages that hold the packets of a trace over the prefill decode to the meaning of the trace. */
  lemma {:induction false} HeldDecodes(defs: seq<Kind>, fed: seq<Message>, buffers: seq<seq<Piece>>,
                                      es: seq<Trace.Event>)
    requires IsTable(defs) && Holds(fed, buffers) && Trace.LaysOut(Join(buffers), es)
    ensures Recovers(defs, Payloads(fed), es)
  {
    var whole := Whole(fed, buffers);
    forall i | 0 <= i < |fed| ensures fed[i].bytes == Flatten(whole[i]) {
      PrefillIsFill(|fed[i].bytes|, buffers[i]);
    }
    WholeFrames(fed, buffers);
    FedDecodes(defs, fed, whole, es);
  }

  /** Fill is transparent: streams of the same packets, with whatever fill between them, leave the decoder in the same
      state, packets that handlers reject included. */
  lemma {:induction false} FillIsTransparent(defs: seq<Kind>, a: seq<Piece>, b: seq<Piece>)
    requires IsTable(defs) && AllProper(a) && AllProper(b) && Frames(a) == Frames(b)
    ensures View(Run(defs, Guarded, Decoder.Init(defs), Flatten(a)))
            == View(Run(defs, Guarded, Decoder.Init(defs), Flatten(b)))
  {
    InitInv(defs);
    RunRefines(defs, Guarded, Decoder.Init(defs), Flatten(a));
    RunRefines(defs, Guarded, Decoder.Init(defs), Flatten(b));
    PiecesRun(START, a);
    PiecesRun(START, b);
  }
}
