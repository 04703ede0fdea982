/** A trace as a list of events, its encoding into packets, and what the decoder must say about it. */
module Trace {
  import opened Bytes
  import opened PacketTable
  import opened Packets
  import opened Decoder
  import opened Framing

  datatype Event =
    | Taken(outcomes: seq<bool>)
    | Ip(kind: Kind, form: nat, ip: nat)
    | Time(tsc: nat)
    | Exec(interrupts: bool, mode: OpMode)
    | Tsx(abort: bool, inTx: bool)
    | Ratio(ratio: byte, reserved: byte)
    | Sync
    | SyncEnd
    | Other(kind: Kind, flag: bool, wide: bool, payload: seq<byte>)

  // ------------------------------------------------------------------ encoding

  /** A stop bit followed by the outcomes. */
  function Stopped(outcomes: seq<bool>): (v: nat)
    ensures Pow2(|outcomes|) <= v < Pow2(|outcomes| + 1)
  {
    if outcomes == [] then 1
    else 2 * Stopped(outcomes[..|outcomes| - 1]) + (if outcomes[|outcomes| - 1] then 1 else 0)
  }

  predicate IsIpKind(k: Kind) {
    k == Tip || k == TipPge || k == TipPgd || k == Fup
  }

  function IpOpcode(k: Kind): byte {
    if k == Tip then 0x0D else if k == TipPge then 0x11 else if k == TipPgd then 0x01 else 0x1D
  }

  function Weigh(flag: bool, w: nat): nat {
    if flag then w else 0
  }

  /** The address bytes of each compression form. */
  function Width(form: nat): nat {
    if form == 1 then 2 else if form == 2 then 4 else if form == 3 || form == 4 then 6 else if form == 6 then 8 else 0
  }

  /** The forms that leave out the upper bits of the address, to be had from the one before. */
  predicate Compressed(form: nat) {
    form == 1 || form == 2 || form == 4
  }

  function SentBits(form: nat): nat {
    8 * Width(form)
  }

  /** The header of a packet no handler reads; flag and wide are bits of its second byte. */
  function Opcode(k: Kind, flag: bool, wide: bool): seq<byte> {
    match k
    case TntExtended => [0x02, 0xA3]
    case Pip => [0x02, 0x43]
    case TraceStop => [0x02, 0x83]
    case Mtc => [0x59]
    case Tma => [0x02, 0x73]
    case Vmcs => [0x02, 0xC8]
    case Ovf => [0x02, 0xF3]
    case Mnt => [0x02, 0xC3, 0x88]
    case Ptw => [0x02, 0x12 + Weigh(wide, 0x20) + Weigh(flag, 0x80)]
    case ExStop => [0x02, 0x62 + Weigh(flag, 0x80)]
    case Mwait => [0x02, 0xC2]
    case Pwre => [0x02, 0x22]
    case Pwrx => [0x02, 0xA2]
    case Bbp => [0x02, 0x63]
    case Bep => [0x02, 0x33 + Weigh(flag, 0x80)]
    case _ => []
  }

  /** The bytes such a packet has behind its header. */
  function PayloadOf(k: Kind, wide: bool): nat {
    match k
    case TntExtended => 6
    case Pip => 6
    case Mtc => 1
    case Tma => 5
    case Vmcs => 5
    case Mnt => 8
    case Ptw => if wide then 8 else 4
    case Mwait => 8
    case Pwre => 2
    case Pwrx => 5
    case Bbp => 1
    case _ => 0
  }

  function Encode(e: Event): Frame
    requires Encodable(e)
  {
    match e
    case Taken(outcomes) => TakenFits(outcomes); Frame(Tnt, [2 * Stopped(outcomes)])
    case Ip(k, form, ip) => Frame(k, [32 * form + IpOpcode(k)] + ToLE(ip, Width(form)))
    case Time(tsc) => Frame(PacketTable.Tsc, [0x19] + ToLE(tsc, 7))
    case Exec(interrupts, mode) =>
      Frame(Mode, [0x99, Weigh(interrupts, 4) + Weigh(mode == Mode32, 2) + Weigh(mode == Mode64, 1)])
    case Tsx(abort, inTx) => Frame(Mode, [0x99, 32 + Weigh(abort, 2) + Weigh(inTx, 1)])
    case Ratio(ratio, reserved) => Frame(Cbr, [0x02, 0x03, ratio, reserved])
    case Sync => Frame(Psb, seq(16, i => if i % 2 == 0 then 0x02 else 0x82))
    case SyncEnd => Frame(PsbEnd, [0x02, 0x23])
    case Other(k, flag, wide, payload) => Frame(k, Opcode(k, flag, wide) + payload)
  }

  lemma {:induction false} TakenFits(outcomes: seq<bool>)
    requires |outcomes| <= 6
    ensures 2 * Stopped(outcomes) < 256
  {
    CutIsPow2(|outcomes| + 1);
  }

  /** Bits 48 .. 63 all equal bit 47. */
  predicate Canonical(ip: nat) {
    Shr(ip, 48) == if Bit(ip, 47) then Pow2(16) - 1 else 0
  }

  /** The kinds whose handler reads nothing: the placeholder, and TNT in its long form. */
  predicate IsOpaque(k: Kind) {
    !IsIpKind(k) && k !in {Tnt, PacketTable.Tsc, Mode, Cbr, Psb, PsbEnd}
  }

  predicate Encodable(e: Event) {
    match e
    case Taken(outcomes) => 1 <= |outcomes| <= 6
    case Ip(k, form, ip) => IsIpKind(k) && form in {0, 1, 2, 3, 4, 6} && ip < Pow2(64) && (form == 3 ==> Canonical(ip))
    case Time(tsc) => tsc < Pow2(56)
    case Other(k, _, wide, payload) => IsOpaque(k) && |payload| == PayloadOf(k, wide)
    case _ => true
  }

  // ------------------------------------------------------------------ meaning

  function Last(es: seq<Event>): Event
    requires es != []
  {
    es[|es| - 1]
  }

  function Earlier(es: seq<Event>): seq<Event>
    requires es != []
  {
    es[..|es| - 1]
  }

  function LatestTime(es: seq<Event>): Option<nat> {
    if es == [] then None else if Last(es).Time? then Some(Last(es).tsc) else LatestTime(Earlier(es))
  }

  function LatestIp(es: seq<Event>): Option<nat> {
    if es == [] then None else if Last(es).Ip? && Last(es).form != 0 then Some(Last(es).ip) else LatestIp(Earlier(es))
  }

  function LatestMode(es: seq<Event>): Option<OpMode> {
    if es == [] then None
    else if Last(es).Exec? then Some(Last(es).mode)
    else LatestMode(Earlier(es))
  }

  /** A PSB has been seen with no PSBEND after it. */
  predicate Suppressed(es: seq<Event>) {
    if es == [] then false
    else if Last(es).Sync? then true
    else if Last(es).SyncEnd? then false
    else Suppressed(Earlier(es))
  }

  /** Every compressed address can be told from the one before it, and every event can be written down. */
  predicate Legal(es: seq<Event>) {
    es == [] || (Legal(Earlier(es)) && Encodable(Last(es)) && Follows(LatestIp(Earlier(es)), Last(es)))
  }

  predicate Follows(last: Option<nat>, e: Event) {
    e.Ip? && Compressed(e.form) ==> last.Some? && Shr(last.value, SentBits(e.form)) == Shr(e.ip, SentBits(e.form))
  }

  /** A packet for each outcome. */
  function Told(outcomes: seq<bool>, tsc: Option<nat>): seq<Packet> {
    seq(|outcomes|, i requires 0 <= i < |outcomes| => Branch(outcomes[i], tsc))
  }

  /** The packets an event stands for, stamped with a time. */
  function Says(e: Event, tsc: Option<nat>): seq<Packet> {
    match e
    case Taken(outcomes) => Told(outcomes, tsc)
    case Ip(k, form, ip) => [Address(k, form, if form == 0 then None else Some(ip), tsc)]
    case Time(t) => [TimeStamp(t)]
    case Exec(interrupts, mode) => [ExecMode(interrupts, mode == Mode32, mode == Mode64, tsc)]
    case Tsx(abort, inTx) => [TsxMode(abort, inTx, tsc)]
    case Ratio(ratio, _) => [BusRatio(ratio, tsc)]
    case Sync => [Marker(Psb, tsc)]
    case SyncEnd => [Marker(PsbEnd, tsc)]
    case Other(k, _, _, _) => if k == TntExtended then [] else [Undefined]
  }

  /** Everything the decoder reports about a trace: each event not hidden by a PSB, in order, carrying the latest time
      before it. */
  function Meaning(es: seq<Event>): seq<Packet> {
    if es == [] then []
    else Meaning(Earlier(es)) + (if Suppressed(es) then [] else Says(Last(es), LatestTime(Earlier(es))))
  }

  function ContextOf(es: seq<Event>): Context {
    Context(Suppressed(es), LatestTime(es), LatestIp(es), LatestMode(es))
  }

  // ------------------------------------------------------------------ one event

  lemma {:induction false} StoppedBits(outcomes: seq<bool>)
    ensures BitsBelowStop(Stopped(outcomes)) == outcomes
  {
    if outcomes != [] {
      var init := outcomes[..|outcomes| - 1];
      StoppedBits(init);
      assert outcomes == init + [outcomes[|outcomes| - 1]];
    }
  }

  /** One to six outcomes packed into a TNT byte are the outcomes the handler reads back, in order. */
  lemma {:induction false} TntRoundTrip(outcomes: seq<bool>)
    requires 1 <= |outcomes| <= 6
    ensures 2 * Stopped(outcomes) < 256 && Outcomes(2 * Stopped(outcomes)) == outcomes
  {
    TakenFits(outcomes);
    var v := Stopped(outcomes);
    assert 2 * v / 2 == v;
    StoppedBits(outcomes);
  }

  lemma {:induction false} Pow2Mono(a: nat, b: nat)
    requires a <= b
    ensures Pow2(a) <= Pow2(b)
  {
    if a < b { Pow2Mono(a, b - 1); }
  }

  lemma {:induction false} ShlZero(n: nat)
    ensures Shl(0, n) == 0
  {
    if n != 0 { ShlZero(n - 1); }
  }

  /** A number below 2^m has no bits from 64 up. */
  lemma {:induction false} NoHighBits(x: nat, m: nat)
    requires x < Pow2(m) && m <= 64
    ensures Shl(Shr(x, 64), 64) == 0
  {
    Pow2Mono(m, 64);
    Small(x, 64);
    ShlZero(64);
  }

  /** The low m bits of an address merged with a LastIP that shares the rest give the address back. */
  lemma {:induction false} MergeRoundTrip(last: nat, ip: nat, m: nat)
    requires m <= 64 && last < Pow2(64) && Shr(last, m) == Shr(ip, m)
    ensures MergeIp(last, Low(ip, m), m) == ip
  {
    NoHighBits(Low(ip, m), m);
    Small(last, 64);
    Small(Low(ip, m), m);
    SplitAt(ip, m);
  }

  /** The low 48 bits of a canonical address, sign-extended, give the address back. */
  lemma {:induction false} SignExtendRoundTrip(ip: nat)
    requires Canonical(ip)
    ensures SignExtend(Low(ip, 48)) == ip
  {
    BitOfLow(ip, 48, 47);
    NoHighBits(Low(ip, 48), 48);
    Small(Low(ip, 48), 48);
    SplitAt(ip, 48);
    ShlZero(48);
    UpperWord();
  }

  /** The decoder's tables agree with the widths of the forms. */
  lemma FormFacts(form: nat)
    requires form in {0, 1, 2, 3, 4, 6}
    ensures IpSize(form) == Some(Width(form)) && (IsMerged(form) <==> Compressed(form))
    ensures Compressed(form) ==> MergedBits(form) == SentBits(form) <= 64
  {
  }

  /** The address a handler rebuilds from the payload of an encoded IP packet. */
  lemma {:induction false} PayloadRoundTrip(form: nat, ip: nat, last: Option<nat>)
    requires form in {1, 2, 3, 4, 6} && ip < Pow2(64) && (form == 3 ==> Canonical(ip))
    requires Compressed(form) ==>
               last.Some? && last.value < Pow2(64) && Shr(last.value, SentBits(form)) == Shr(ip, SentBits(form))
    ensures var addr := FromLE(ToLE(ip, Width(form)));
            ip == if IsMerged(form) then MergeIp(last.value, addr, MergedBits(form))
                  else if form == 3 then SignExtend(addr) else addr
  {
    FormFacts(form);
    FromToLE(ip, Width(form));
    if IsMerged(form) {
      MergeRoundTrip(last.value, ip, MergedBits(form));
    } else if form == 3 {
      SignExtendRoundTrip(ip);
    } else {
      Small(ip, 64);
    }
  }

  lemma {:induction false} LatestIpFits(es: seq<Event>)
    requires Legal(es)
    ensures LatestIp(es).Some? ==> LatestIp(es).value < Pow2(64)
  {
    if es != [] { LatestIpFits(Earlier(es)); }
  }

  lemma {:induction false} OneByteHeader(k: Kind, b: byte, rest: seq<byte>)
    requires HeaderLength(k) == 1 && ByCode(k, 0, b) && Length(k, [b]) == Some(1 + |rest|)
    ensures WellFormed(Frame(k, [b] + rest))
  {
    HeaderByCode(k, 0, b);
    assert ([b] + rest)[..1] == [b];
  }

  lemma {:induction false} TwoByteHeader(k: Kind, a: byte, b: byte, rest: seq<byte>)
    requires HeaderLength(k) == 2 && ByCode(k, 0, a) && ByCode(k, 1, b) && Length(k, [a, b]) == Some(2 + |rest|)
    ensures WellFormed(Frame(k, [a, b] + rest))
  {
    assert ([a, b] + rest)[..2] == [a, b];
    HeaderByCode(k, 0, a);
    HeaderByCode(k, 1, b);
  }

  lemma {:induction false} PsbFrame()
    ensures WellFormed(Encode(Sync))
  {
    var bytes := Encode(Sync).bytes;
    forall i | 0 <= i < 14 ensures Accepts(Header(Psb)[i], bytes[..14][i]) {
      HeaderByCode(Psb, i, bytes[i]);
    }
  }

  lemma {:induction false} IpFrame(k: Kind, form: nat, payload: seq<byte>)
    requires IsIpKind(k) && form in {0, 1, 2, 3, 4, 6} && IpSize(form) == Some(|payload|)
    ensures WellFormed(Frame(k, [32 * form + IpOpcode(k)] + payload))
  {
    var b := 32 * form + IpOpcode(k);
    assert b / 32 % 8 == form && b % 32 == IpOpcode(k);
    OneByteHeader(k, b, payload);
  }

  lemma {:induction false} TakenFrame(outcomes: seq<bool>)
    requires 1 <= |outcomes| <= 6
    ensures WellFormed(Encode(Taken(outcomes)))
  {
    TakenFits(outcomes);
    StoppedPositive(outcomes);
    var b := 2 * Stopped(outcomes);
    OneByteHeader(Tnt, b, []);
    assert [b] + [] == [b];
  }

  /** Every encoded event is one well-formed packet. */
  lemma {:induction false} EncodedIsFrame(e: Event)
    requires Encodable(e)
    ensures WellFormed(Encode(e))
  {
    match e {
      case Taken(outcomes) => TakenFrame(outcomes);
      case Ip(_, _, _) => EncodedIpIsFrame(e);
      case Time(tsc) => TimeFrame(tsc);
      case Exec(_, _) => ModeFrame(e);
      case Tsx(_, _) => ModeFrame(e);
      case Ratio(_, _) => RatioFrame(e);
      case Sync => PsbFrame();
      case SyncEnd => SyncEndFrame();
      case Other(k, flag, wide, payload) => OpaqueFrame(k, flag, wide, payload);
    }
  }

  /** A packet no handler reads: one header byte, two, or the three of MNT. */
  lemma {:induction false} OpaqueFrame(k: Kind, flag: bool, wide: bool, payload: seq<byte>)
    requires IsOpaque(k) && |payload| == PayloadOf(k, wide)
    ensures WellFormed(Frame(k, Opcode(k, flag, wide) + payload))
  {
    var head := Opcode(k, flag, wide);
    OpcodeFits(k, flag, wide);
    if |head| == 1 {
      assert head == [head[0]];
      OneByteHeader(k, head[0], payload);
    } else if |head| == 2 {
      assert head == [head[0], head[1]];
      TwoByteHeader(k, head[0], head[1], payload);
    } else {
      ThreeByteHeader(payload);
    }
  }

  lemma {:induction false} OpcodeFits(k: Kind, flag: bool, wide: bool)
    requires IsOpaque(k)
    ensures var head := Opcode(k, flag, wide);
            && |head| == HeaderLength(k) <= 3 && (|head| == 3 <==> k == Mnt) && head != []
            && (k != Mnt ==> (forall i | 0 <= i < |head| :: ByCode(k, i, head[i]))
                             && Length(k, head) == Some(|head| + PayloadOf(k, wide)))
  {
    OpcodeLength(k, flag, wide);
    if k in {Ptw, ExStop, Bep} {
      VariableOpcode(k, flag, wide);
    } else if k != Mnt {
      FixedOpcode(k, flag, wide);
    }
  }

  lemma {:induction false} FixedOpcode(k: Kind, flag: bool, wide: bool)
    requires IsOpaque(k) && k !in {Mnt, Ptw, ExStop, Bep}
    ensures forall i | 0 <= i < |Opcode(k, flag, wide)| :: ByCode(k, i, Opcode(k, flag, wide)[i])
  {
    OpcodeIsCode(k, flag, wide);
    forall i | 0 <= i < |Opcode(k, flag, wide)| ensures ByCode(k, i, Opcode(k, flag, wide)[i]) {
      CodeIsItself(k, i);
    }
  }

  lemma {:induction false} OpcodeIsCode(k: Kind, flag: bool, wide: bool)
    requires IsOpaque(k) && k !in {Mnt, Ptw, ExStop, Bep}
    ensures forall i | 0 <= i < |Opcode(k, flag, wide)| ::
              Opcode(k, flag, wide)[i] == Code(k, i) && FixedBits(k, i) == 8
  {
  }

  lemma {:induction false} CodeIsItself(k: Kind, i: nat)
    requires k != Tnt && FixedBits(k, i) == 8 && Code(k, i) < 256
    ensures ByCode(k, i, Code(k, i))
  {
  }

  lemma {:induction false} VariableOpcode(k: Kind, flag: bool, wide: bool)
    requires k in {Ptw, ExStop, Bep}
    ensures forall i | 0 <= i < |Opcode(k, flag, wide)| :: ByCode(k, i, Opcode(k, flag, wide)[i])
  {
    var head := Opcode(k, flag, wide);
    assert head[0] == 0x02 && |head| == 2;
    CodeIsItself(k, 0);
  }

  lemma {:induction false} OpcodeLength(k: Kind, flag: bool, wide: bool)
    requires IsOpaque(k)
    ensures var head := Opcode(k, flag, wide);
            && |head| == HeaderLength(k) <= 3 && (|head| == 3 <==> k == Mnt) && head != []
            && Length(k, head) == Some(|head| + PayloadOf(k, wide))
  {
    if k == Ptw {
      assert (0x12 + Weigh(wide, 0x20) + Weigh(flag, 0x80)) / 32 % 4 == if wide then 1 else 0;
    }
  }

  lemma {:induction false} ThreeByteHeader(payload: seq<byte>)
    requires |payload| == 8
    ensures WellFormed(Frame(Mnt, [0x02, 0xC3, 0x88] + payload))
  {
    var head: seq<byte> := [0x02, 0xC3, 0x88];
    assert (head + payload)[..3] == head;
    MntHeader(head);
  }

  lemma {:induction false} MntHeader(head: seq<byte>)
    requires head == [0x02, 0xC3, 0x88]
    ensures HeaderLength(Mnt) == 3 && Matches(Mnt, head) && Length(Mnt, head) == Some(11)
  {
    assert |Header(Mnt)| == 3;
    CodeIsItself(Mnt, 0);
    CodeIsItself(Mnt, 1);
    CodeIsItself(Mnt, 2);
    forall i | 0 <= i < 3 ensures Accepts(Header(Mnt)[i], head[i]) {
      HeaderByCode(Mnt, i, head[i]);
    }
  }

  /** Conversely every well-formed packet of such a kind is one of these, so its length is exactly as encoded. */
  lemma {:induction false} OpaqueIsEncoded(f: Frame) returns (e: Event)
    requires WellFormed(f) && IsOpaque(f.kind)
    ensures Encodable(e) && Encode(e) == f
  {
    var k, h := f.kind, f.bytes[..HeaderLength(f.kind)];
    var flag, wide := HeaderIsOpcode(k, h);
    OpcodeLength(k, flag, wide);
    var payload := f.bytes[|h|..];
    assert f.bytes == h + payload;
    e := Other(k, flag, wide, payload);
  }

  lemma {:induction false} HeaderIsOpcode(k: Kind, h: seq<byte>) returns (flag: bool, wide: bool)
    requires IsOpaque(k) && Matches(k, h) && Length(k, h).Some?
    ensures h == Opcode(k, flag, wide)
  {
    flag, wide := false, false;
    forall i | 0 <= i < |h| ensures ByCode(k, i, h[i]) {
      HeaderByCode(k, i, h[i]);
    }
    OpcodeLength(k, false, false);
    if k in {Ptw, ExStop, Bep} {
      flag, wide := h[1] >= 0x80, h[1] / 32 % 4 == 1;
      FirstIsTwo(k, h);
      VariableIsOpcode(k, h[1], flag, wide, h);
    } else {
      OpcodeAllCodes(k);
      FixedIsOpcode(k, h, Opcode(k, false, false));
    }
  }

  lemma {:induction false} FirstIsTwo(k: Kind, h: seq<byte>)
    requires k in {Ptw, ExStop, Bep} && |h| == HeaderLength(k) && ByCode(k, 0, h[0])
    ensures |h| == 2 && h == [0x02, h[1]]
  {
  }

  lemma {:induction false} OpcodeAllCodes(k: Kind)
    requires IsOpaque(k) && k !in {Ptw, ExStop, Bep}
    ensures forall i | 0 <= i < |Opcode(k, false, false)| ::
              Opcode(k, false, false)[i] == Code(k, i) && FixedBits(k, i) == 8
  {
    if k != Mnt {
      OpcodeIsCode(k, false, false);
    }
  }

  lemma {:induction false} FixedIsOpcode(k: Kind, h: seq<byte>, head: seq<byte>)
    requires k != Tnt && |h| == |head| && forall i | 0 <= i < |h| :: ByCode(k, i, h[i])
    requires forall i | 0 <= i < |head| :: head[i] == Code(k, i) && FixedBits(k, i) == 8
    ensures h == head
  {
    forall i | 0 <= i < |h| ensures h[i] == head[i] {
      assert h[i] % 256 == h[i];
    }
  }

  lemma {:induction false} VariableIsOpcode(k: Kind, b: byte, flag: bool, wide: bool, h: seq<byte>)
    requires k in {Ptw, ExStop, Bep} && ByCode(k, 1, b) && h == [0x02, b] && Length(k, h).Some?
    requires flag == (b >= 0x80) && wide == (b / 32 % 4 == 1)
    ensures h == Opcode(k, flag, wide)
  {
    if k == Ptw {
      assert b / 32 % 4 == 0 || b / 32 % 4 == 1;
      assert b == b / 32 * 32 + 0x12;
    } else {
      assert b == b / 128 * 128 + b % 128;
    }
  }

  lemma {:induction false} TimeFrame(tsc: nat)
    requires Encodable(Time(tsc))
    ensures WellFormed(Encode(Time(tsc)))
  {
    var payload := ToLE(tsc, 7);
    assert Encode(Time(tsc)) == Frame(PacketTable.Tsc, [0x19] + payload);
    OneByteHeader(PacketTable.Tsc, 0x19, payload);
  }

  lemma {:induction false} ModeFrame(e: Event)
    requires Encodable(e) && (e.Exec? || e.Tsx?)
    ensures WellFormed(Encode(e))
  {
    var b := Encode(e).bytes[1];
    OneByteHeader(Mode, 0x99, [b]);
    assert Encode(e).bytes == [0x99] + [b];
  }

  lemma {:induction false} EncodedIpIsFrame(e: Event)
    requires Encodable(e) && e.Ip?
    ensures WellFormed(Encode(e))
  {
    FormFacts(e.form);
    IpFrameOf(e.kind, e.form, ToLE(e.ip, Width(e.form)), Encode(e));
  }

  lemma {:induction false} IpFrameOf(k: Kind, form: nat, payload: seq<byte>, f: Frame)
    requires IsIpKind(k) && form in {0, 1, 2, 3, 4, 6} && IpSize(form) == Some(|payload|)
    requires f.kind == k && f.bytes == [32 * form + IpOpcode(k)] + payload
    ensures WellFormed(f)
  {
    assert f == Frame(k, [32 * form + IpOpcode(k)] + payload);
    IpFrame(k, form, payload);
  }

  lemma {:induction false} RatioFrame(e: Event)
    requires e.Ratio?
    ensures WellFormed(Encode(e))
  {
    TwoByteHeader(Cbr, 0x02, 0x03, [e.ratio, e.reserved]);
    assert [0x02, 0x03] + [e.ratio, e.reserved] == Encode(e).bytes;
  }

  lemma {:induction false} SyncEndFrame()
    ensures WellFormed(Encode(SyncEnd))
  {
    TwoByteHeader(PsbEnd, 0x02, 0x23, []);
    assert [0x02, 0x23] + [] == Encode(SyncEnd).bytes;
  }

  lemma {:induction false} StoppedPositive(outcomes: seq<bool>)
    requires 1 <= |outcomes|
    ensures 2 <= Stopped(outcomes)
  {
  }

  lemma {:induction false} FlagBits(a: bool, b: bool, c: bool)
    ensures var v := Weigh(a, 4) + Weigh(b, 2) + Weigh(c, 1);
            Bit(v, 2) == a && Bit(v, 1) == b && Bit(v, 0) == c && v / 32 % 8 == 0
  {
    var v := Weigh(a, 4) + Weigh(b, 2) + Weigh(c, 1);
    assert v / 2 == Weigh(a, 2) + Weigh(b, 1);
    assert v / 2 / 2 == Weigh(a, 1);
    assert Bit(v, 2) == Bit(v / 2 / 2, 0);
  }

  lemma {:induction false} TsxBits(b: bool, c: bool)
    ensures var v := 32 + Weigh(b, 2) + Weigh(c, 1);
            Bit(v, 1) == b && Bit(v, 0) == c && v / 32 % 8 == 1
  {
    var v := 32 + Weigh(b, 2) + Weigh(c, 1);
    assert v / 2 == 16 + Weigh(b, 1);
    assert Bit(v, 1) == Bit(v / 2, 0);
  }

  lemma {:induction false} IpHandled(k: Kind, form: nat, payload: seq<byte>, ctx: Context, ip: nat)
    requires IsIpKind(k) && form in {0, 1, 2, 3, 4, 6}
    requires form != 0 ==>
               && (IsMerged(form) ==> ctx.lastIp.Some?)
               && ip == if IsMerged(form) then MergeIp(ctx.lastIp.value, FromLE(payload), MergedBits(form))
                        else if form == 3 then SignExtend(FromLE(payload)) else FromLE(payload)
    ensures HandleIp(k, [32 * form + IpOpcode(k)] + payload, ctx)
            == Done(Says(Ip(k, form, ip), ctx.tsc), if form == 0 then ctx else ctx.(lastIp := Some(ip)))
  {
    var data := [32 * form + IpOpcode(k)] + payload;
    assert data[1..] == payload;
    FormOf(form, IpOpcode(k));
    IpForm(k, data, ctx, form, ip);
  }

  lemma {:induction false} FormOf(form: nat, low: nat)
    requires form < 8 && low < 32
    ensures (32 * form + low) / 32 % 8 == form
  {
  }

  lemma {:induction false} IpForm(k: Kind, data: seq<byte>, ctx: Context, form: nat, ip: nat)
    requires data != [] && data[0] / 32 % 8 == form
    requires form != 0 ==>
               && (IsMerged(form) ==> ctx.lastIp.Some?)
               && ip == if IsMerged(form) then MergeIp(ctx.lastIp.value, FromLE(data[1..]), MergedBits(form))
                        else if form == 3 then SignExtend(FromLE(data[1..])) else FromLE(data[1..])
    ensures HandleIp(k, data, ctx)
            == Done(Says(Ip(k, form, ip), ctx.tsc), if form == 0 then ctx else ctx.(lastIp := Some(ip)))
  {
  }

  lemma {:induction false} IpEvent(e: Event, ctx: Context)
    requires e.Ip? && Encodable(e) && Follows(ctx.lastIp, e) && (ctx.lastIp.Some? ==> ctx.lastIp.value < Pow2(64))
    ensures HandleIp(e.kind, Encode(e).bytes, ctx)
            == Done(Says(e, ctx.tsc), if e.form == 0 then ctx else ctx.(lastIp := Some(e.ip)))
  {
    if e.form != 0 {
      PayloadRoundTrip(e.form, e.ip, ctx.lastIp);
    }
    FormFacts(e.form);
    IpHandled(e.kind, e.form, ToLE(e.ip, Width(e.form)), ctx, e.ip);
  }

  lemma {:induction false} OpaqueEvent(e: Event, ctx: Context)
    requires Encodable(e) && e.Other?
    ensures Handle(e.kind, Encode(e).bytes, ctx) == Done(Says(e, ctx.tsc), ctx)
  {
    if e.kind == TntExtended {
      assert Encode(e).bytes[0] == 0x02 && Outcomes(0x02) == [] && Branches([], ctx.tsc) == [];
    }
  }

  lemma {:induction false} ModeEvent(e: Event, ctx: Context)
    requires Encodable(e) && (e.Exec? || e.Tsx?)
    ensures HandleMode(Encode(e).bytes, ctx)
            == Done(Says(e, ctx.tsc), if e.Exec? then ctx.(mode := Some(e.mode)) else ctx)
  {
    if e.Exec? {
      FlagBits(e.interrupts, e.mode == Mode32, e.mode == Mode64);
    } else {
      TsxBits(e.abort, e.inTx);
    }
  }

  lemma {:induction false} TimeEvent(tsc: nat)
    requires tsc < Pow2(56)
    ensures FromLE(Encode(Time(tsc)).bytes[1..]) == tsc
  {
    FromToLE(tsc, 7);
    Small(tsc, 56);
    assert Encode(Time(tsc)).bytes[1..] == ToLE(tsc, 7);
  }

  /** The context after one event. */
  function MovedBy(e: Event, ctx: Context): Context {
    match e
    case Ip(_, form, ip) => if form == 0 then ctx else ctx.(lastIp := Some(ip))
    case Time(tsc) => ctx.(tsc := Some(tsc))
    case Exec(_, mode) => ctx.(mode := Some(mode))
    case Sync => ctx.(disabled := true)
    case SyncEnd => ctx.(disabled := false)
    case _ => ctx
  }

  lemma {:induction false} TakenEvent(e: Event, ctx: Context)
    requires Encodable(e) && e.Taken?
    ensures Handle(Encode(e).kind, Encode(e).bytes, ctx) == Done(Says(e, ctx.tsc), ctx)
  {
    TntRoundTrip(e.outcomes);
    assert Told(e.outcomes, ctx.tsc) == Branches(e.outcomes, ctx.tsc);
  }

  lemma {:induction false} MarkerEvent(e: Event, ctx: Context)
    requires e.Ratio? || e.Sync? || e.SyncEnd?
    ensures Handle(Encode(e).kind, Encode(e).bytes, ctx) == Done(Says(e, ctx.tsc), MovedBy(e, ctx))
  {
  }

  /** The handler of an encoded event says what the event says and moves the context as it does. */
  ghost predicate HandledRight(e: Event, ctx: Context)
    requires Encodable(e)
  {
    Handle(Encode(e).kind, Encode(e).bytes, ctx) == Done(Says(e, ctx.tsc), MovedBy(e, ctx))
  }

  lemma {:induction false} IpRight(e: Event, ctx: Context)
    requires e.Ip? && Encodable(e) && Follows(ctx.lastIp, e) && (ctx.lastIp.Some? ==> ctx.lastIp.value < Pow2(64))
    ensures HandledRight(e, ctx)
  {
    IpEvent(e, ctx);
  }

  lemma {:induction false} ModeRight(e: Event, ctx: Context)
    requires Encodable(e) && (e.Exec? || e.Tsx?)
    ensures HandledRight(e, ctx)
  {
    ModeEvent(e, ctx);
  }

  lemma {:induction false} TimeRight(tsc: nat, ctx: Context)
    requires Encodable(Time(tsc))
    ensures HandledRight(Time(tsc), ctx)
  {
    TimeEvent(tsc);
  }

  lemma {:induction false} OtherRight(e: Event, ctx: Context)
    requires Encodable(e) && !e.Ip? && !e.Exec? && !e.Tsx? && !e.Time?
    ensures HandledRight(e, ctx)
  {
    if e.Other? {
      OpaqueEvent(e, ctx);
    } else if e.Taken? {
      TakenEvent(e, ctx);
    } else {
      MarkerEvent(e, ctx);
    }
  }

  lemma {:induction false} EventHandled(e: Event, ctx: Context)
    requires Encodable(e) && Follows(ctx.lastIp, e) && (ctx.lastIp.Some? ==> ctx.lastIp.value < Pow2(64))
    ensures HandledRight(e, ctx)
  {
    if e.Ip? {
      IpRight(e, ctx);
    } else if e.Exec? || e.Tsx? {
      ModeRight(e, ctx);
    } else if e.Time? {
      TimeRight(e.tsc, ctx);
    } else {
      OtherRight(e, ctx);
    }
  }

  /** The handler of an encoded event says exactly what the event says, and moves the context as the event does. */
  lemma {:induction false} EventRoundTrip(es: seq<Event>)
    requires es != [] && Legal(es)
    ensures var e := Last(es);
            Handle(Encode(e).kind, Encode(e).bytes, ContextOf(Earlier(es)))
            == Done(Says(e, LatestTime(Earlier(es))), ContextOf(es))
  {
    LatestIpFits(Earlier(es));
    EventHandled(Last(es), ContextOf(Earlier(es)));
  }

  /** When a handler raises on a whole packet: a compressed address with none before it, a MODE with a reserved leaf, or
      one that says both 32-bit and 64-bit. */
  lemma {:induction false} RaisesIff(f: Frame, ctx: Context)
    requires WellFormed(f)
    ensures var form := f.bytes[0] / 32 % 8;
            var bits := if f.kind == Mode then f.bytes[1] else 0;
            var homeless := IsIpKind(f.kind) && form in {1, 2, 4} && ctx.lastIp.None?;
            var reserved := f.kind == Mode && 64 <= bits;
            var both := f.kind == Mode && bits < 32 && bits % 4 == 3;
            && (Handle(f.kind, f.bytes, ctx).Raised? <==> homeless || reserved || both)
            && (homeless ==> Handle(f.kind, f.bytes, ctx) == Raised(LastIpMissing))
            && (reserved ==> Handle(f.kind, f.bytes, ctx) == Raised(ReservedMode))
            && (both ==> Handle(f.kind, f.bytes, ctx) == Raised(InconsistentMode))
  {
    if f.kind == Mode {
      ModeBits(f.bytes[1]);
    }
  }

  lemma {:induction false} ModeBits(b: byte)
    ensures b / 32 % 8 == b / 32 && (Bit(b, 1) && Bit(b, 0) <==> b % 4 == 3)
  {
    assert Bit(b, 1) == Bit(b / 2, 0);
    assert b % 4 == 2 * (b / 2 % 2) + b % 2;
  }

  // ------------------------------------------------------------------ addresses of another core

  /** What the decoder makes of an address compressed against some other LastIP: its low bits under those of the latest
      address of the stream. */
  function Rebuilt(last: nat, form: nat, ip: nat): nat {
    Shl(Shr(last, SentBits(form)), SentBits(form)) + Low(ip, SentBits(form))
  }

  lemma {:induction false} RebuiltBits(last: nat, form: nat, ip: nat)
    requires Compressed(form) && last < Pow2(64) && ip < Pow2(64)
    ensures var z, m := Rebuilt(last, form, ip), SentBits(form);
            z < Pow2(64) && Shr(z, m) == Shr(last, m) && Low(z, m) == Low(ip, m)
  {
    var m := SentBits(form);
    SplitUnique(Shr(last, m), Low(ip, m), m);
    ShrBound(last, 64 - m, m);
    JoinBound(Shr(last, m), 64 - m, Low(ip, m), m);
  }

  /** The bytes of a packet that compresses ip read, after a stream whose latest address is another, as that other
      address with the low bits of ip. This is ip exactly when the two agree in the bits left out. */
  lemma {:induction false} OtherLastIp(es: seq<Event>, k: Kind, form: nat, ip: nat)
    requires Legal(es) && LatestIp(es).Some? && IsIpKind(k) && Compressed(form) && ip < Pow2(64)
    ensures var last := LatestIp(es).value;
            var z := Rebuilt(last, form, ip);
            && Encodable(Ip(k, form, z)) && Encode(Ip(k, form, z)) == Encode(Ip(k, form, ip))
            && Legal(es + [Ip(k, form, z)])
            && (z == ip <==> Shr(last, SentBits(form)) == Shr(ip, SentBits(form)))
  {
    var last := LatestIp(es).value;
    var z := Rebuilt(last, form, ip);
    LatestIpFits(es);
    RebuiltBits(last, form, ip);
    SameLowBits(k, form, z, ip);
    SameIff(z, ip, SentBits(form));
    LegalMore(es, Ip(k, form, z));
  }

  lemma {:induction false} SameIff(a: nat, b: nat, m: nat)
    requires Low(a, m) == Low(b, m)
    ensures a == b <==> Shr(a, m) == Shr(b, m)
  {
    SplitAt(a, m);
    SplitAt(b, m);
  }

  lemma {:induction false} SameLowPayload(n: nat, a: nat, b: nat)
    requires Low(a, 8 * n) == Low(b, 8 * n)
    ensures ToLE(a, n) == ToLE(b, n)
  {
    FromToLE(a, n);
    FromToLE(b, n);
    FromLEInjective(ToLE(a, n), ToLE(b, n));
  }

  /** A merged packet shows only the low bits of its address. */
  lemma {:induction false} SameLowBits(k: Kind, form: nat, a: nat, b: nat)
    requires Compressed(form) && Encodable(Ip(k, form, a)) && Encodable(Ip(k, form, b))
    requires Low(a, SentBits(form)) == Low(b, SentBits(form))
    ensures Encode(Ip(k, form, a)) == Encode(Ip(k, form, b))
  {
    SameLowPayload(Width(form), a, b);
  }

  // ------------------------------------------------------------------ whole traces

  function EncodeAll(es: seq<Event>): (fs: seq<Frame>)
    requires Legal(es)
    ensures |fs| == |es|
  {
    if es == [] then [] else EncodeAll(Earlier(es)) + [Encode(Last(es))]
  }

  lemma {:induction false} LatestIpConcat(a: seq<Event>, b: seq<Event>)
    ensures LatestIp(a + b) == if LatestIp(b).Some? then LatestIp(b) else LatestIp(a)
    decreases |b|
  {
    if b == [] {
      assert a + b == a;
    } else {
      assert Earlier(a + b) == a + Earlier(b);
      LatestIpConcat(a, Earlier(b));
    }
  }

  /** Traces that are legal by themselves are legal one after the other. */
  lemma {:induction false} LegalConcat(a: seq<Event>, b: seq<Event>)
    requires Legal(a) && Legal(b)
    ensures Legal(a + b) && EncodeAll(a + b) == EncodeAll(a) + EncodeAll(b)
    decreases |b|
  {
    if b == [] {
      assert a + b == a;
    } else {
      var init, e := Earlier(b), Last(b);
      assert a + b == (a + init) + [e];
      LegalConcat(a, init);
      LatestIpConcat(a, init);
      StillFollows(LatestIp(init), LatestIp(a + init), e);
      LegalMore(a + init, e);
      assert (EncodeAll(a) + EncodeAll(init)) + [Encode(e)] == EncodeAll(a) + (EncodeAll(init) + [Encode(e)]);
    }
  }

  lemma {:induction false} StillFollows(last: Option<nat>, later: Option<nat>, e: Event)
    requires Follows(last, e) && (last.Some? ==> later == last)
    ensures Follows(later, e)
  {
  }

  lemma {:induction false} LegalMore(es: seq<Event>, e: Event)
    requires Legal(es) && Encodable(e) && Follows(LatestIp(es), e)
    ensures Legal(es + [e]) && EncodeAll(es + [e]) == EncodeAll(es) + [Encode(e)]
  {
    assert Earlier(es + [e]) == es;
  }

  lemma {:induction false} EncodedAreFrames(es: seq<Event>, i: nat)
    requires Legal(es) && i < |es|
    ensures WellFormed(EncodeAll(es)[i])
  {
    if i == |es| - 1 {
      EncodedIsFrame(Last(es));
    } else {
      EncodedAreFrames(Earlier(es), i);
    }
  }

  lemma {:induction false} HandleAllSnoc(c: Core, fs: seq<Frame>, f: Frame)
    requires HandleAll(c, fs).fault.None?
    ensures HandleAll(c, fs + [f]) == After(HandleAll(c, fs), f)
    decreases |fs|
  {
    if fs == [] {
      assert [f][1..] == [];
    } else {
      FaultStays(c, fs);
      assert (fs + [f])[1..] == fs[1..] + [f];
      HandleAllSnoc(After(c, fs[0]), fs[1..], f);
    }
  }

  /** Handling the encoded packets of a legal trace one by one says what the trace means; no handler raises. */
  lemma {:induction false} TraceHandled(es: seq<Event>)
    requires Legal(es)
    ensures var c := HandleAll(START, EncodeAll(es));
            Idle(c) && c.succession == Meaning(es) && c.ctx == ContextOf(es)
  {
    if es != [] {
      TraceHandled(Earlier(es));
      HandleAllSnoc(START, EncodeAll(Earlier(es)), Encode(Last(es)));
      EventRoundTrip(es);
      assert Suppressed(es) ==> Meaning(es) == Meaning(Earlier(es)) + [];
    }
  }

  /** The encoded packets of a trace, in order, with any 0x00 and 0xFF bytes between them. */
  predicate LaysOut(pieces: seq<Piece>, es: seq<Event>) {
    && Legal(es)
    && Frames(pieces) == EncodeAll(es)
    && forall i | 0 <= i < |pieces| && pieces[i].Pad? :: IsFill(pieces[i].fill)
  }

  lemma {:induction false} FramesCover(pieces: seq<Piece>, i: nat)
    requires i < |pieces| && pieces[i].Pkt?
    ensures pieces[i].frame in Frames(pieces)
    decreases |pieces|
  {
    FramesHead(pieces);
    if i > 0 {
      FramesCover(pieces[1..], i - 1);
    }
  }

  lemma {:induction false} LaidOutIsProper(pieces: seq<Piece>, es: seq<Event>)
    requires LaysOut(pieces, es)
    ensures AllProper(pieces)
  {
    forall i | 0 <= i < |pieces| ensures Proper(pieces[i]) {
      if pieces[i].Pkt? {
        FramesCover(pieces, i);
        var j :| 0 <= j < |es| && EncodeAll(es)[j] == pieces[i].frame;
        EncodedAreFrames(es, j);
      }
    }
  }

  /** Round trip: whatever padding separates the packets of a trace and whatever the order of the table, the guarded
      decoder reports exactly what the trace means, and ends between packets with the trace's context. */
  lemma {:induction false} RoundTrip(defs: seq<Kind>, pieces: seq<Piece>, es: seq<Event>)
    requires IsTable(defs) && LaysOut(pieces, es)
    ensures var s := Run(defs, Guarded, Decoder.Init(defs), Flatten(pieces));
            && s.succession == Meaning(es) && s.ctx == ContextOf(es)
            && s.fault.None? && !s.inPacket && s.acc == []
  {
    LaidOutIsProper(pieces, es);
    InitInv(defs);
    RunRefines(defs, Guarded, Decoder.Init(defs), Flatten(pieces));
    PiecesRun(START, pieces);
    TraceHandled(es);
  }

  /** The decoder as written reports the same when no packet is shorter than the next one's header. */
  lemma {:induction false} AsWrittenRoundTrip(defs: seq<Kind>, pieces: seq<Piece>, es: seq<Event>)
    requires IsTable(defs) && LaysOut(pieces, es) && Chained(EncodeAll(es))
    ensures var s := Run(defs, AsWritten, Decoder.Init(defs), Flatten(pieces));
            s.succession == Meaning(es) && s.ctx == ContextOf(es) && s.fault.None?
  {
    var bytes := Flatten(pieces);
    LaidOutIsProper(pieces, es);
    TraceHandled(es);
    AsWrittenAgreesIff(pieces);
    BreaksIff(pieces);
    assert bytes[..|bytes|] == bytes;
    InitInv(defs);
    RunRefines(defs, AsWritten, Decoder.Init(defs), bytes);
    PiecesRun(START, pieces);
  }

  /** Suppression by position: hidden means a PSB at or before the end with no PSBEND after it. */
  lemma {:induction false} SuppressedIff(es: seq<Event>)
    ensures Suppressed(es) <==>
            exists j :: 0 <= j < |es| && es[j].Sync? && forall m | j < m < |es| :: !es[m].SyncEnd?
  {
    if es != [] {
      var init := Earlier(es);
      SuppressedIff(init);
      if Last(es).Sync? {
        assert es[|es| - 1].Sync?;
      } else if !Last(es).SyncEnd? {
        if Suppressed(init) {
          var j :| 0 <= j < |init| && init[j].Sync? && forall m | j < m < |init| :: !init[m].SyncEnd?;
          assert es[j].Sync?;
          forall m | j < m < |es| ensures !es[m].SyncEnd? {
            if m < |init| { assert init[m] == es[m]; }
          }
        }
        if j :| 0 <= j < |es| && es[j].Sync? && forall m | j < m < |es| :: !es[m].SyncEnd? {
          assert init[j].Sync?;
          assert forall m | j < m < |init| :: init[m] == es[m];
        }
      }
    }
  }

  // ------------------------------------------------------------------ what a client reads off the packets

  function TakenIn(packets: seq<Packet>): seq<bool> {
    if packets == [] then []
    else (if packets[0].Branch? then [packets[0].taken] else []) + TakenIn(packets[1..])
  }

  function AddressesIn(packets: seq<Packet>): seq<nat> {
    if packets == [] then []
    else
      (if packets[0].Address? && packets[0].address.Some? then [packets[0].address.value] else [])
      + AddressesIn(packets[1..])
  }

  lemma {:induction false} TakenPrepend(p: Packet, rest: seq<Packet>)
    ensures TakenIn([p] + rest) == TakenIn([p]) + TakenIn(rest)
  {
    assert ([p] + rest)[1..] == rest && [p][1..] == [];
    assert TakenIn([]) == [];
  }

  lemma {:induction false} TakenConcat(a: seq<Packet>, b: seq<Packet>)
    ensures TakenIn(a + b) == TakenIn(a) + TakenIn(b)
    decreases |a|
  {
    if a == [] {
      assert a + b == b;
    } else {
      TakenPrepend(a[0], a[1..]);
      TakenPrepend(a[0], a[1..] + b);
      TakenConcat(a[1..], b);
      assert [a[0]] + a[1..] == a && [a[0]] + (a[1..] + b) == a + b;
    }
  }

  lemma {:induction false} AddressesPrepend(p: Packet, rest: seq<Packet>)
    ensures AddressesIn([p] + rest) == AddressesIn([p]) + AddressesIn(rest)
  {
    assert ([p] + rest)[1..] == rest && [p][1..] == [];
    assert AddressesIn([]) == [];
  }

  lemma {:induction false} AddressesConcat(a: seq<Packet>, b: seq<Packet>)
    ensures AddressesIn(a + b) == AddressesIn(a) + AddressesIn(b)
    decreases |a|
  {
    if a == [] {
      assert a + b == b;
    } else {
      AddressesPrepend(a[0], a[1..]);
      AddressesPrepend(a[0], a[1..] + b);
      AddressesConcat(a[1..], b);
      assert [a[0]] + a[1..] == a && [a[0]] + (a[1..] + b) == a + b;
    }
  }

  lemma {:induction false} ReadingBranches(taken: seq<bool>, tsc: Option<nat>)
    ensures TakenIn(Branches(taken, tsc)) == taken && AddressesIn(Branches(taken, tsc)) == []
    decreases |taken|
  {
    if taken != [] {
      assert Branches(taken, tsc)[1..] == Branches(taken[1..], tsc);
      ReadingBranches(taken[1..], tsc);
    }
  }

  /** The outcomes, and the addresses, of the events a PSB does not hide. */
  function VisibleOutcomes(es: seq<Event>): seq<bool> {
    if es == [] then []
    else VisibleOutcomes(Earlier(es)) + (if !Suppressed(es) && Last(es).Taken? then Last(es).outcomes else [])
  }

  function VisibleAddresses(es: seq<Event>): seq<nat> {
    if es == [] then []
    else
      VisibleAddresses(Earlier(es))
      + (if !Suppressed(es) && Last(es).Ip? && Last(es).form != 0 then [Last(es).ip] else [])
  }

  lemma {:induction false} ReadingEvent(e: Event, tsc: Option<nat>)
    ensures TakenIn(Says(e, tsc)) == if e.Taken? then e.outcomes else []
    ensures AddressesIn(Says(e, tsc)) == if e.Ip? && e.form != 0 then [e.ip] else []
  {
    if e.Taken? {
      assert Told(e.outcomes, tsc) == Branches(e.outcomes, tsc);
      ReadingBranches(e.outcomes, tsc);
    }
  }

  /** Every branch outcome and every unsuppressed address of the trace comes back, in order and exactly once. */
  lemma {:induction false} OutcomesAndAddressesRecovered(es: seq<Event>)
    ensures TakenIn(Meaning(es)) == VisibleOutcomes(es)
    ensures AddressesIn(Meaning(es)) == VisibleAddresses(es)
  {
    if es != [] {
      var said := if Suppressed(es) then [] else Says(Last(es), LatestTime(Earlier(es)));
      OutcomesAndAddressesRecovered(Earlier(es));
      TakenConcat(Meaning(Earlier(es)), said);
      AddressesConcat(Meaning(Earlier(es)), said);
      ReadingEvent(Last(es), LatestTime(Earlier(es)));
    }
  }

  // ------------------------------------------------------------------ a PSB as the code as written reads it

  const BOGUS: seq<bool> := [false, false, false, false, false, true]

  lemma {:induction false} BogusOutcomes()
    ensures Outcomes(0x02) == [] && Outcomes(0x82) == BOGUS
  {
    assert BitsBelowStop(1) == [];
    assert BitsBelowStop(2) == [false];
    assert BitsBelowStop(4) == [false, false];
    assert BitsBelowStop(8) == [false, false, false];
    assert BitsBelowStop(16) == [false, false, false, false];
    assert BitsBelowStop(32) == [false, false, false, false, false];
    assert BitsBelowStop(65) == BOGUS;
  }

  /** Idle, straight after a TNT packet, not suppressed. */
  predicate AfterTnt(c: Core) {
    Idle(c) && c.current == Some(Tnt) && c.length == 1 && !c.ctx.disabled
  }

  function Reporting(c: Core, taken: seq<bool>): Core {
    c.(succession := c.succession + Branches(taken, c.ctx.tsc))
  }

  /** After a TNT packet the byte pair 02 82 is read as two TNT packets. */
  lemma {:induction false} PairMisread(c: Core)
    requires AfterTnt(c)
    ensures CoreRun(AsWritten, c, PAIR) == Reporting(c, BOGUS)
  {
    BogusOutcomes();
    PsbFrame();
    FramePrefixes(Encode(Sync), 1);
    assert Encode(Sync).bytes[..1] == [0x02];
    NoEarlyMatch(Psb, [0x02]);
    assert Matches(Tnt, [0x82]);
    FullMatchIs(Tnt, [0x82]);
    assert [0x02, 0x82][1..] == [0x82];
    assert c.succession + Branches([], c.ctx.tsc) == c.succession;
    FirstMisread(c);
    SecondMisread(c);
    RunOne(AsWritten, c, 0x82);
  }

  lemma {:induction false} FirstMisread(c: Core)
    requires AfterTnt(c)
    requires FullMatch([0x02]).None? && Outcomes(0x02) == []
    ensures CoreStep(AsWritten, c, 0x02) == c
  {
    assert [] + [0x02] == [0x02];
    assert c.succession + Branches([], c.ctx.tsc) == c.succession;
  }

  lemma {:induction false} SecondMisread(c: Core)
    requires AfterTnt(c)
    requires FullMatch([0x82]) == Some(Tnt) && Outcomes(0x82) == BOGUS
    ensures CoreStep(AsWritten, c, 0x82) == c.(succession := c.succession + Branches(BOGUS, c.ctx.tsc))
  {
    assert [] + [0x82] == [0x82];
  }

  function Times<T>(s: seq<T>, n: nat): (r: seq<T>)
    ensures |r| == n * |s|
  {
    if n == 0 then [] else s + Times(s, n - 1)
  }

  const PAIR: seq<byte> := [0x02, 0x82]

  lemma {:induction false} BranchesConcat(a: seq<bool>, b: seq<bool>, tsc: Option<nat>)
    ensures Branches(a + b, tsc) == Branches(a, tsc) + Branches(b, tsc)
  {
  }

  lemma {:induction false} ReportingTwice(c: Core, a: seq<bool>, b: seq<bool>)
    ensures Reporting(Reporting(c, a), b) == Reporting(c, a + b) && Reporting(c, []) == c
  {
    BranchesConcat(a, b, c.ctx.tsc);
    assert c.succession + Branches(a, c.ctx.tsc) + Branches(b, c.ctx.tsc)
        == c.succession + (Branches(a, c.ctx.tsc) + Branches(b, c.ctx.tsc));
    assert Branches([], c.ctx.tsc) == [];
  }

  lemma {:induction false} ThenMore(rule: Rule, c: Core, a: seq<byte>, b: seq<byte>, c': Core, c'': Core)
    requires CoreRun(rule, c, a) == c' && CoreRun(rule, c', b) == c''
    ensures CoreRun(rule, c, a + b) == c''
  {
    CoreRunConcat(rule, c, a, b);
  }

  /** Bytes that are read as the same outcomes every time are, n times over, read as those outcomes n times over. */
  lemma {:induction false} TimesMisread(c: Core, bytes: seq<byte>, taken: seq<bool>, n: nat)
    requires AfterTnt(c)
    requires forall d | AfterTnt(d) :: CoreRun(AsWritten, d, bytes) == Reporting(d, taken)
    ensures CoreRun(AsWritten, c, Times(bytes, n)) == Reporting(c, Times(taken, n))
    decreases n
  {
    ReportingTwice(c, taken, if n == 0 then [] else Times(taken, n - 1));
    if n != 0 {
      var c' := Reporting(c, taken);
      TimesMisread(c', bytes, taken, n - 1);
      ThenMore(AsWritten, c, bytes, Times(bytes, n - 1), c', Reporting(c', Times(taken, n - 1)));
    }
  }

  lemma {:induction false} PsbGuarded(c: Core, f: Frame)
    requires Idle(c) && WellFormed(f) && f.kind == Psb
    ensures var g := CoreRun(Guarded, c, f.bytes);
            g.succession == c.succession && g.ctx.disabled
  {
    FrameRun(Guarded, c, f);
  }

  lemma {:induction false} PsbMisread(c: Core, n: nat, bytes: seq<byte>)
    requires AfterTnt(c) && bytes == Times(PAIR, n)
    ensures var w := CoreRun(AsWritten, c, bytes);
            w.succession == c.succession + Branches(Times(BOGUS, n), c.ctx.tsc) && !w.ctx.disabled
  {
    forall d | AfterTnt(d) ensures CoreRun(AsWritten, d, PAIR) == Reporting(d, BOGUS) {
      PairMisread(d);
    }
    TimesMisread(c, PAIR, BOGUS, n);
  }

  /** Divergence in full: straight after a TNT packet, the code as written turns the sixteen bytes of a PSB into
      forty-eight branch outcomes and does not suppress what follows; the guarded decoder reports nothing and does. */
  lemma {:induction false} PsbAfterTntMisread(c: Core)
    requires AfterTnt(c)
    ensures exists bogus: seq<bool> :: |bogus| == 48 &&
              var w, g := CoreRun(AsWritten, c, Encode(Sync).bytes), CoreRun(Guarded, c, Encode(Sync).bytes);
              && w.succession == c.succession + Branches(bogus, c.ctx.tsc) && !w.ctx.disabled
              && g.succession == c.succession && g.ctx.disabled
  {
    PairsOfPsb();
    PsbMisread(c, 8, Encode(Sync).bytes);
    PsbFrame();
    PsbGuarded(c, Encode(Sync));
    assert |Times(BOGUS, 8)| == 48;
  }

  lemma {:induction false} PairAt(n: nat, i: nat)
    requires i < 2 * n
    ensures Times(PAIR, n)[i] == if i % 2 == 0 then 0x02 else 0x82
  {
    if n > 1 {
      PairAt(n - 1, if i < 2 then 0 else i - 2);
    }
  }

  lemma {:induction false} PairsOfPsb()
    ensures Times(PAIR, 8) == Encode(Sync).bytes
  {
    forall i | 0 <= i < 16 ensures Times(PAIR, 8)[i] == Encode(Sync).bytes[i] {
      PairAt(8, i);
    }
  }
}
