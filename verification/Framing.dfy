/** Whole packets in a byte stream: how the decoder runs over them, and where the completion test as written goes
    wrong. */
module Framing {
  import opened Bytes
  import opened PacketTable
  import opened Packets
  import opened Decoder

  /** The bytes of one packet. */
  datatype Frame = Frame(kind: Kind, bytes: seq<byte>)

  function HeaderLength(k: Kind): (n: nat)
    ensures 0 < n
  {
    |Header(k)|
  }

  predicate WellFormed(f: Frame) {
    var h := HeaderLength(f.kind);
    h <= |f.bytes| && Matches(f.kind, f.bytes[..h]) && Length(f.kind, f.bytes[..h]) == Some(|f.bytes|)
  }

  /** Between packets. */
  predicate Idle(c: Core) {
    c.fault.None? && !c.inPacket && c.acc == []
  }

  const START: Core := Core([], false, None, 0, [], INITIAL_CONTEXT, None)

  /** The state after the last byte of f. */
  function After(c: Core, f: Frame): Core {
    var t := c.(current := Some(f.kind), length := |f.bytes|);
    match Handle(f.kind, f.bytes, c.ctx)
    case Raised(x) => t.(acc := f.bytes, inPacket := true, fault := Some(x))
    case Done(packets, ctx) => t.(succession := Emit(c.succession, packets, ctx), ctx := ctx)
  }

  /** The state after the first n bytes of f. */
  function Inside(c: Core, f: Frame, n: nat): Core
    requires n <= |f.bytes|
  {
    if n < HeaderLength(f.kind) then c.(acc := f.bytes[..n])
    else c.(acc := f.bytes[..n], inPacket := true, current := Some(f.kind), length := |f.bytes|)
  }

  /** The packet decoded last cannot complete again before n more bytes have been accumulated. */
  predicate Patient(rule: Rule, c: Core, n: nat) {
    rule == Guarded || c.current.None? || n <= c.length
  }

  /** One more header byte, short of a whole header. */
  lemma {:induction false} HeaderStep(rule: Rule, c: Core, k: Kind, acc: seq<byte>, b: byte)
    requires Idle(c) && Prefix(k, acc + [b]) && |acc| + 1 < HeaderLength(k)
    requires Patient(rule, c, |acc| + 2)
    ensures CoreStep(rule, c.(acc := acc), b) == c.(acc := acc + [b])
  {
    PrefixSnoc(k, acc, b);
    HeadersAvoidUnused(k, |acc|, b);
    NoEarlyMatch(k, acc + [b]);
  }

  lemma {:induction false} NoEarlyMatch(k: Kind, acc: seq<byte>)
    requires Prefix(k, acc) && |acc| < HeaderLength(k)
    ensures FullMatch(acc).None?
  {
    FullMatchMatches(acc);
    if FullMatch(acc).Some? {
      PrefixFree(FullMatch(acc).value, k, acc);
    }
  }

  lemma {:induction false} HeaderRun(rule: Rule, c: Core, k: Kind, acc: seq<byte>)
    requires Idle(c) && Prefix(k, acc) && |acc| < HeaderLength(k) && Patient(rule, c, |acc| + 1)
    ensures CoreRun(rule, c, acc) == c.(acc := acc)
    decreases |acc|
  {
    if acc != [] {
      var init, b := acc[..|acc| - 1], acc[|acc| - 1];
      assert acc == init + [b];
      HeaderRun(rule, c, k, init);
      HeaderStep(rule, c, k, init, b);
      RunTo(rule, c, c.(acc := init), c.(acc := acc), acc, |acc| - 1);
    }
  }

  /** One more byte after a run. */
  lemma {:induction false} RunSnoc(rule: Rule, c: Core, bytes: seq<byte>, b: byte)
    ensures CoreRun(rule, c, bytes + [b]) == CoreStep(rule, CoreRun(rule, c, bytes), b)
  {
    CoreRunConcat(rule, c, bytes, [b]);
    RunOne(rule, CoreRun(rule, c, bytes), b);
  }

  lemma {:induction false} RunOne(rule: Rule, c: Core, b: byte)
    ensures CoreRun(rule, c, [b]) == CoreStep(rule, c, b)
  {
    assert [b][1..] == [];
  }

  lemma {:induction false} FramePrefixes(f: Frame, n: nat)
    requires WellFormed(f) && n <= HeaderLength(f.kind)
    ensures Prefix(f.kind, f.bytes[..n])
  {
    var h := f.bytes[..HeaderLength(f.kind)];
    assert forall i | 0 <= i < n :: f.bytes[..n][i] == h[i];
  }

  lemma {:induction false} FrameStep(rule: Rule, c: Core, f: Frame, n: nat)
    requires Idle(c) && WellFormed(f) && n < |f.bytes| && Patient(rule, c, HeaderLength(f.kind))
    ensures CoreStep(rule, Inside(c, f, n), f.bytes[n])
            == if n + 1 == |f.bytes| then After(c, f) else Inside(c, f, n + 1)
  {
    var h, b := HeaderLength(f.kind), f.bytes[n];
    var acc := f.bytes[..n];
    assert acc + [b] == f.bytes[..n + 1];
    assert f.bytes[..|f.bytes|] == f.bytes;
    if n + 1 < h {
      FramePrefixes(f, n + 1);
      HeaderStep(rule, c, f.kind, acc, b);
    } else if n + 1 == h {
      FramePrefixes(f, h);
      PrefixSnoc(f.kind, acc, b);
      HeadersAvoidUnused(f.kind, n, b);
      FullMatchIs(f.kind, acc + [b]);
    }
  }

  /** Any proper prefix of a packet leaves the decoder inside it. */
  lemma {:induction false} FramePrefixRun(rule: Rule, c: Core, f: Frame, n: nat)
    requires Idle(c) && WellFormed(f) && n < |f.bytes| && Patient(rule, c, HeaderLength(f.kind))
    ensures CoreRun(rule, c, f.bytes[..n]) == Inside(c, f, n)
    decreases n
  {
    if n != 0 {
      FramePrefixRun(rule, c, f, n - 1);
      FrameStep(rule, c, f, n - 1);
      assert f.bytes[..n][..n - 1] == f.bytes[..n - 1];
      RunTo(rule, c, Inside(c, f, n - 1), Inside(c, f, n), f.bytes[..n], n - 1);
    }
  }

  /** A whole packet is handed to its handler once, with exactly its bytes. */
  lemma {:induction false} FrameRun(rule: Rule, c: Core, f: Frame)
    requires Idle(c) && WellFormed(f) && Patient(rule, c, HeaderLength(f.kind))
    ensures CoreRun(rule, c, f.bytes) == After(c, f)
  {
    var n := |f.bytes| - 1;
    FramePrefixRun(rule, c, f, n);
    FrameStep(rule, c, f, n);
    RunTo(rule, c, Inside(c, f, n), After(c, f), f.bytes, n);
  }

  lemma {:induction false} RunTo(rule: Rule, c: Core, mid: Core, end: Core, bytes: seq<byte>, n: nat)
    requires n + 1 == |bytes| && CoreRun(rule, c, bytes[..n]) == mid && CoreStep(rule, mid, bytes[n]) == end
    ensures CoreRun(rule, c, bytes) == end
  {
    assert bytes == bytes[..n] + [bytes[n]];
    RunSnoc(rule, c, bytes[..n], bytes[n]);
  }

  // ------------------------------------------------------------------ packets with padding between them

  datatype Piece = Pad(fill: byte) | Pkt(frame: Frame)

  /** The bytes that may stand between packets. */
  predicate IsFill(b: byte) {
    b == 0x00 || b == 0xFF
  }

  predicate Proper(p: Piece) {
    match p
    case Pad(fill) => IsFill(fill)
    case Pkt(f) => WellFormed(f)
  }

  predicate AllProper(pieces: seq<Piece>) {
    forall i | 0 <= i < |pieces| :: Proper(pieces[i])
  }

  function PieceBytes(p: Piece): (r: seq<byte>) {
    match p
    case Pad(fill) => [fill]
    case Pkt(f) => f.bytes
  }

  function Flatten(pieces: seq<Piece>): seq<byte> {
    if pieces == [] then [] else PieceBytes(pieces[0]) + Flatten(pieces[1..])
  }

  function Frames(pieces: seq<Piece>): seq<Frame> {
    if pieces == [] then []
    else (if pieces[0].Pkt? then [pieces[0].frame] else []) + Frames(pieces[1..])
  }

  /** Handling the packets one by one, until a handler raises. */
  function HandleAll(c: Core, fs: seq<Frame>): Core
    decreases |fs|
  {
    if fs == [] || c.fault.Some? then c else HandleAll(After(c, fs[0]), fs[1..])
  }

  lemma {:induction false} PadStep(rule: Rule, c: Core, fill: byte)
    requires Idle(c) && Unused(fill)
    ensures CoreRun(rule, c, [fill]) == c
  {
    RunOne(rule, c, fill);
  }

  /** At the start of a stream the decoder passes over a byte exactly when it is a fill byte. */
  lemma {:induction false} PassedOverIff(b: byte)
    ensures CoreStep(Guarded, START, b) == START <==> b == 0x00 || b == 0xFF
  {
    FullMatchMatches([b]);
    assert [] + [b] == [b];
  }

  lemma {:induction false} FaultedRun(rule: Rule, c: Core, bytes: seq<byte>)
    requires c.fault.Some?
    ensures CoreRun(rule, c, bytes) == c
    decreases |bytes|
  {
    if bytes != [] {
      FaultedRun(rule, c, bytes[1..]);
    }
  }

  lemma {:induction false} FramesHead(pieces: seq<Piece>)
    requires pieces != []
    ensures pieces[0].Pkt? ==>
              Frames(pieces) != [] && Frames(pieces)[0] == pieces[0].frame && Frames(pieces)[1..] == Frames(pieces[1..])
    ensures pieces[0].Pad? ==> Frames(pieces) == Frames(pieces[1..])
  {
  }

  /** The guarded decoder sees through padding: running over the stream is handling its packets one by one. */
  lemma {:induction false} PiecesRun(c: Core, pieces: seq<Piece>)
    requires Idle(c) && AllProper(pieces)
    ensures CoreRun(Guarded, c, Flatten(pieces)) == HandleAll(c, Frames(pieces))
    decreases |pieces|
  {
    if pieces != [] {
      var p, rest := pieces[0], pieces[1..];
      CoreRunConcat(Guarded, c, PieceBytes(p), Flatten(rest));
      FramesHead(pieces);
      match p {
        case Pad(fill) =>
          PadStep(Guarded, c, fill);
          PiecesRun(c, rest);
        case Pkt(f) =>
          FrameRun(Guarded, c, f);
          if After(c, f).fault.None? {
            PiecesRun(After(c, f), rest);
          } else {
            FaultedRun(Guarded, After(c, f), Flatten(rest));
          }
      }
    }
  }

  // ------------------------------------------------------------------ the completion test as written

  /** Every packet is at least as long as the header of the packet after it. */
  predicate Chained(fs: seq<Frame>) {
    forall i | 0 < i < |fs| :: LongEnough(fs, i)
  }

  predicate LongEnough(fs: seq<Frame>, i: nat)
    requires 0 < i < |fs|
  {
    HeaderLength(fs[i].kind) <= |fs[i - 1].bytes|
  }

  predicate ChainedFrom(c: Core, fs: seq<Frame>) {
    Chained(fs) && (fs != [] ==> Patient(AsWritten, c, HeaderLength(fs[0].kind)))
  }

  lemma {:induction false} ChainedTail(c: Core, fs: seq<Frame>)
    requires fs != []
    ensures ChainedFrom(c, fs) <==>
              Patient(AsWritten, c, HeaderLength(fs[0].kind)) && ChainedFrom(After(c, fs[0]), fs[1..])
  {
    ChainedFirst(fs);
  }

  lemma {:induction false} ChainedFirst(fs: seq<Frame>)
    requires fs != []
    ensures Chained(fs) <==> Chained(fs[1..]) && (1 < |fs| ==> LongEnough(fs, 1))
  {
    forall i | 0 < i < |fs[1..]| ensures LongEnough(fs[1..], i) <==> LongEnough(fs, i + 1) {
    }
    if Chained(fs[1..]) {
      forall i | 1 < i < |fs| ensures LongEnough(fs, i) {
        assert LongEnough(fs[1..], i - 1);
      }
    }
  }

  ghost predicate SameStates(c: Core, bytes: seq<byte>) {
    forall n | 0 <= n <= |bytes| :: CoreRun(AsWritten, c, bytes[..n]) == CoreRun(Guarded, c, bytes[..n])
  }

  /** Agreement over p and then over the rest is agreement over all of it. */
  lemma {:induction false} SameStatesConcat(c: Core, c': Core, p: seq<byte>, rest: seq<byte>)
    requires SameStates(c, p) && CoreRun(Guarded, c, p) == c' && SameStates(c', rest)
    ensures SameStates(c, p + rest)
  {
    assert p[..|p|] == p;
    assert CoreRun(AsWritten, c, p) == c';
    forall n | 0 <= n <= |p + rest|
      ensures CoreRun(AsWritten, c, (p + rest)[..n]) == CoreRun(Guarded, c, (p + rest)[..n])
    {
      if n <= |p| {
        assert (p + rest)[..n] == p[..n];
      } else {
        assert (p + rest)[..n] == p + rest[..n - |p|];
        CoreRunConcat(AsWritten, c, p, rest[..n - |p|]);
        CoreRunConcat(Guarded, c, p, rest[..n - |p|]);
      }
    }
  }

  lemma {:induction false} FrameSameStates(c: Core, f: Frame)
    requires Idle(c) && WellFormed(f) && Patient(AsWritten, c, HeaderLength(f.kind))
    ensures SameStates(c, f.bytes)
  {
    forall n | 0 <= n <= |f.bytes|
      ensures CoreRun(AsWritten, c, f.bytes[..n]) == CoreRun(Guarded, c, f.bytes[..n])
    {
      if n == |f.bytes| {
        assert f.bytes[..n] == f.bytes;
        FrameRun(AsWritten, c, f);
        FrameRun(Guarded, c, f);
      } else {
        FramePrefixRun(AsWritten, c, f, n);
        FramePrefixRun(Guarded, c, f, n);
      }
    }
  }

  /** Somewhere a packet is shorter than the header after it, and no handler raises before that. */
  predicate Breaks(c: Core, pieces: seq<Piece>)
    decreases |pieces|
  {
    pieces != [] &&
    match pieces[0]
    case Pad(_) => Breaks(c, pieces[1..])
    case Pkt(f) =>
      !Patient(AsWritten, c, HeaderLength(f.kind)) || (After(c, f).fault.None? && Breaks(After(c, f), pieces[1..]))
  }

  /** Where nothing breaks the two decoders agree at every byte, past a packet whose handler raises as well. */
  lemma {:induction false} UnbrokenAgrees(c: Core, pieces: seq<Piece>)
    requires Idle(c) && AllProper(pieces) && !Breaks(c, pieces)
    ensures SameStates(c, Flatten(pieces))
    decreases |pieces|
  {
    if pieces == [] {
      assert Flatten(pieces)[..0] == [];
    } else {
      var p, rest := pieces[0], pieces[1..];
      assert Proper(p) && AllProper(rest) && Flatten(pieces) == PieceBytes(p) + Flatten(rest);
      match p {
        case Pad(fill) =>
          PadSameStates(c, fill);
          UnbrokenAgrees(c, rest);
          SameStatesConcat(c, c, [fill], Flatten(rest));
        case Pkt(f) =>
          FrameSameStates(c, f);
          FrameRun(Guarded, c, f);
          if After(c, f).fault.None? {
            AfterIsIdle(c, f);
            UnbrokenAgrees(After(c, f), rest);
          } else {
            FaultedSameStates(After(c, f), Flatten(rest));
          }
          SameStatesConcat(c, After(c, f), f.bytes, Flatten(rest));
      }
    }
  }

  lemma {:induction false} PadSameStates(c: Core, fill: byte)
    requires Idle(c) && Unused(fill)
    ensures SameStates(c, [fill]) && CoreRun(Guarded, c, [fill]) == c
  {
    PadStep(AsWritten, c, fill);
    PadStep(Guarded, c, fill);
    assert [fill][..1] == [fill];
    assert [fill][..0] == [];
  }

  lemma {:induction false} FaultedSameStates(c: Core, bytes: seq<byte>)
    requires c.fault.Some?
    ensures SameStates(c, bytes)
  {
    forall n | 0 <= n <= |bytes| ensures CoreRun(AsWritten, c, bytes[..n]) == CoreRun(Guarded, c, bytes[..n]) {
      FaultedRun(AsWritten, c, bytes[..n]);
      FaultedRun(Guarded, c, bytes[..n]);
    }
  }

  ghost predicate DifferAt(c: Core, bytes: seq<byte>, n: nat) {
    n <= |bytes| && CoreRun(AsWritten, c, bytes[..n]) != CoreRun(Guarded, c, bytes[..n])
  }

  /** What a second completion of the packet decoded last does, n bytes into the next header. */
  ghost predicate Stale(c: Core, acc: seq<byte>, w: Core) {
    c.current.Some? &&
    match Handle(c.current.value, acc, c.ctx)
    case Raised(x) => w.fault == Some(x)
    case Done(packets, ctx) => w.acc == [] && w.ctx == ctx && w.succession == Emit(c.succession, packets, ctx)
  }

  /** Up to that byte the two decoders agree; there the code as written hands the first c.length bytes of the packet to
      the handler of the one before it, while the guarded decoder still holds them. */
  lemma {:induction false} StaleCompletes(c: Core, f: Frame, rest: seq<byte>)
    requires Idle(c) && WellFormed(f) && !Patient(AsWritten, c, HeaderLength(f.kind)) && 0 < c.length
    ensures c.length < |f.bytes + rest| && SameStates(c, f.bytes[..c.length - 1])
    ensures Stale(c, f.bytes[..c.length], CoreRun(AsWritten, c, (f.bytes + rest)[..c.length]))
    ensures CoreRun(Guarded, c, (f.bytes + rest)[..c.length]) == c.(acc := f.bytes[..c.length])
  {
    var n := c.length;
    var init, b := f.bytes[..n - 1], f.bytes[n - 1];
    assert f.bytes[..n] == init + [b];
    assert (f.bytes + rest)[..n] == f.bytes[..n];
    FramePrefixes(f, n);
    StaleAgrees(c, f, init);
    StaleStep(c, f.kind, init, b);
    HeaderRun(Guarded, c, f.kind, init + [b]);
    HeaderRun(AsWritten, c, f.kind, init);
    RunSnoc(AsWritten, c, init, b);
  }

  lemma {:induction false} StaleAgrees(c: Core, f: Frame, init: seq<byte>)
    requires Idle(c) && WellFormed(f) && |init| + 1 == c.length < HeaderLength(f.kind) && init == f.bytes[..|init|]
    ensures Prefix(f.kind, init) && SameStates(c, init)
  {
    FramePrefixes(f, |init|);
    forall k | 0 <= k <= |init| ensures CoreRun(AsWritten, c, init[..k]) == CoreRun(Guarded, c, init[..k]) {
      assert init[..k] == f.bytes[..k];
      FramePrefixes(f, k);
      HeaderRun(AsWritten, c, f.kind, init[..k]);
      HeaderRun(Guarded, c, f.kind, init[..k]);
    }
  }

  lemma {:induction false} StaleStep(c: Core, k: Kind, init: seq<byte>, b: byte)
    requires Idle(c) && Prefix(k, init + [b]) && |init| + 1 == c.length < HeaderLength(k) && c.current.Some?
    ensures Stale(c, init + [b], CoreStep(AsWritten, c.(acc := init), b))
  {
    PrefixSnoc(k, init, b);
    HeadersAvoidUnused(k, |init|, b);
    NoEarlyMatch(k, init + [b]);
  }

  lemma {:induction false} StaleFires(c: Core, f: Frame, rest: seq<byte>)
    requires Idle(c) && WellFormed(f) && !Patient(AsWritten, c, HeaderLength(f.kind)) && 0 < c.length
    ensures DifferAt(c, f.bytes + rest, c.length)
  {
    StaleCompletes(c, f, rest);
    StaleIsSeen(c, f.bytes[..c.length], CoreRun(AsWritten, c, (f.bytes + rest)[..c.length]));
  }

  lemma {:induction false} StaleIsSeen(c: Core, acc: seq<byte>, w: Core)
    requires Idle(c) && acc != [] && Stale(c, acc, w)
    ensures w != c.(acc := acc)
  {
  }

  lemma {:induction false} DifferLater(c: Core, c': Core, p: seq<byte>, rest: seq<byte>, n: nat)
    requires CoreRun(AsWritten, c, p) == c' && CoreRun(Guarded, c, p) == c' && DifferAt(c', rest, n)
    ensures DifferAt(c, p + rest, |p| + n)
  {
    assert (p + rest)[..|p| + n] == p + rest[..n];
    CoreRunConcat(AsWritten, c, p, rest[..n]);
    CoreRunConcat(Guarded, c, p, rest[..n]);
  }

  lemma {:induction false} PadLater(c: Core, fill: byte, rest: seq<byte>, n: nat)
    requires Idle(c) && Unused(fill) && DifferAt(c, rest, n)
    ensures DifferAt(c, [fill] + rest, n + 1)
  {
    PadStep(AsWritten, c, fill);
    PadStep(Guarded, c, fill);
    DifferLater(c, c, [fill], rest, n);
  }

  lemma {:induction false} UnchainedBreaks(c: Core, pieces: seq<Piece>)
    requires Idle(c) && !ChainedFrom(c, Frames(pieces)) && HandleAll(c, Frames(pieces)).fault.None?
    ensures Breaks(c, pieces)
    decreases |pieces|
  {
    assert pieces != [];
    FramesHead(pieces);
    var p, rest := pieces[0], pieces[1..];
    if p.Pad? {
      UnchainedBreaks(c, rest);
    } else if Patient(AsWritten, c, HeaderLength(p.frame.kind)) {
      var c' := After(c, p.frame);
      ChainedTail(c, Frames(pieces));
      FaultStays(c', Frames(rest));
      UnchainedBreaks(c', rest);
    }
  }

  lemma {:induction false} AfterIsIdle(c: Core, f: Frame)
    requires Idle(c) && WellFormed(f) && After(c, f).fault.None?
    ensures Idle(After(c, f)) && 0 < After(c, f).length
  {
  }

  lemma {:induction false} BothReach(c: Core, f: Frame, c': Core)
    requires Idle(c) && WellFormed(f) && Patient(AsWritten, c, HeaderLength(f.kind)) && c' == After(c, f)
    ensures CoreRun(AsWritten, c, f.bytes) == c' && CoreRun(Guarded, c, f.bytes) == c'
  {
    FrameRun(AsWritten, c, f);
    FrameRun(Guarded, c, f);
  }

  ghost predicate Differs(c: Core, bytes: seq<byte>) {
    exists n: nat :: DifferAt(c, bytes, n)
  }

  lemma {:induction false} PadBack(c: Core, fill: byte, rest: seq<byte>)
    requires Idle(c) && Unused(fill) && Differs(c, rest)
    ensures Differs(c, [fill] + rest)
  {
    var n: nat :| DifferAt(c, rest, n);
    PadLater(c, fill, rest, n);
  }

  lemma {:induction false} DiffersOver(c: Core, c': Core, p: seq<byte>, rest: seq<byte>)
    requires CoreRun(AsWritten, c, p) == c' && CoreRun(Guarded, c, p) == c' && Differs(c', rest)
    ensures Differs(c, p + rest)
  {
    var n: nat :| DifferAt(c', rest, n);
    DifferLater(c, c', p, rest, n);
  }

  lemma {:induction false} PacketBack(c: Core, f: Frame, c': Core, rest: seq<byte>)
    requires Idle(c) && WellFormed(f) && Patient(AsWritten, c, HeaderLength(f.kind)) && c' == After(c, f)
    requires Differs(c', rest)
    ensures Differs(c, f.bytes + rest)
  {
    BothReach(c, f, c');
    DiffersOver(c, c', f.bytes, rest);
  }

  lemma {:induction false} DifferentStates(c: Core, bytes: seq<byte>)
    requires Differs(c, bytes)
    ensures !SameStates(c, bytes)
  {
  }

  lemma {:induction false} StaleDiffers(c: Core, f: Frame, rest: seq<byte>)
    requires Idle(c) && WellFormed(f) && !Patient(AsWritten, c, HeaderLength(f.kind)) && 0 < c.length
    ensures Differs(c, f.bytes + rest)
  {
    StaleFires(c, f, rest);
    assert DifferAt(c, f.bytes + rest, c.length);
  }

  lemma {:induction false} BrokenDiffers(c: Core, pieces: seq<Piece>)
    requires Idle(c) && AllProper(pieces) && Breaks(c, pieces) && (c.current.Some? ==> 0 < c.length)
    ensures Differs(c, Flatten(pieces))
    decreases |pieces|
  {
    var p, rest := pieces[0], pieces[1..];
    assert Proper(p) && AllProper(rest) && Flatten(pieces) == PieceBytes(p) + Flatten(rest);
    if p.Pad? {
      BrokenDiffers(c, rest);
      PadBack(c, p.fill, Flatten(rest));
    } else if Patient(AsWritten, c, HeaderLength(p.frame.kind)) {
      AfterIsIdle(c, p.frame);
      BrokenDiffers(After(c, p.frame), rest);
      PacketBack(c, p.frame, After(c, p.frame), Flatten(rest));
    } else {
      StaleDiffers(c, p.frame, Flatten(rest));
    }
  }

  lemma {:induction false} FaultStays(c: Core, fs: seq<Frame>)
    ensures HandleAll(c, fs).fault.None? ==> c.fault.None?
  {
  }

  /** The decoder as written agrees with the guarded one, byte for byte, on a stream of packets and padding exactly when
      no packet is shorter than the header of the packet after it, as far as no handler has raised before. */
  lemma {:induction false} AsWrittenAgreesIff(pieces: seq<Piece>)
    requires AllProper(pieces)
    ensures SameStates(START, Flatten(pieces)) <==> !Breaks(START, pieces)
  {
    if Breaks(START, pieces) {
      BrokenDiffers(START, pieces);
      DifferentStates(START, Flatten(pieces));
    } else {
      UnbrokenAgrees(START, pieces);
    }
  }

  lemma {:induction false} ChainedHolds(c: Core, pieces: seq<Piece>)
    requires ChainedFrom(c, Frames(pieces))
    ensures !Breaks(c, pieces)
    decreases |pieces|
  {
    if pieces != [] {
      FramesHead(pieces);
      if pieces[0].Pad? {
        ChainedHolds(c, pieces[1..]);
      } else {
        ChainedTail(c, Frames(pieces));
        ChainedHolds(After(c, pieces[0].frame), pieces[1..]);
      }
    }
  }

  /** Where no handler raises that is: every packet is at least as long as the header of the packet after it. */
  lemma {:induction false} BreaksIff(pieces: seq<Piece>)
    requires HandleAll(START, Frames(pieces)).fault.None?
    ensures Breaks(START, pieces) <==> !Chained(Frames(pieces))
  {
    if Chained(Frames(pieces)) {
      ChainedHolds(START, pieces);
    } else {
      UnchainedBreaks(START, pieces);
    }
  }

  /** So the code as written reads a PSB right only at the start of the stream or straight after another PSB. */
  lemma {:induction false} PsbOnlyAfterPsb(fs: seq<Frame>, i: nat)
    requires (forall j | 0 <= j < |fs| :: WellFormed(fs[j])) && Chained(fs)
    requires 0 < i < |fs| && fs[i].kind == Psb
    ensures fs[i - 1].kind == Psb
  {
    assert LongEnough(fs, i);
    var f := fs[i - 1];
    LengthBounds(f.kind, f.bytes[..HeaderLength(f.kind)]);
  }
}
