/** What the packet handlers compute: the packets one accumulated byte string decodes to, and the context after it. */
module Packets {
  import opened Bytes
  import opened PacketTable

  datatype OpMode = Mode16 | Mode32 | Mode64

  datatype Packet =
    | Marker(kind: Kind, tsc: Option<nat>)
    | Branch(taken: bool, tsc: Option<nat>)
    | Address(kind: Kind, form: nat, address: Option<nat>, tsc: Option<nat>)
    | TimeStamp(time: nat)
    | ExecMode(interrupts: bool, csd: bool, lma: bool, tsc: Option<nat>)
    | TsxMode(abort: bool, inTx: bool, tsc: Option<nat>)
    | BusRatio(ratio: byte, tsc: Option<nat>)
    | Undefined

  /** The exceptions the decoder can raise; none is caught, so the first one ends the run. */
  datatype Fault = HeaderIndex | ReservedLength | DataIndex | LastIpMissing | ReservedMode | InconsistentMode

  /** The dictionary the handlers share: "disable_interpreting", "tsc", "LastIP", "addressing_mode". */
  datatype Context = Context(disabled: bool, tsc: Option<nat>, lastIp: Option<nat>, mode: Option<OpMode>)

  const INITIAL_CONTEXT := Context(false, None, None, None)

  datatype Handled = Done(packets: seq<Packet>, ctx: Context) | Raised(fault: Fault)

  /** The bits of v below its highest set bit, high to low. */
  function BitsBelowStop(v: nat): seq<bool> {
    if v <= 1 then [] else BitsBelowStop(v / 2) + [v % 2 == 1]
  }

  /** A TNT byte holds its outcomes between the stop bit and bit 0. */
  function Outcomes(b: byte): seq<bool> {
    BitsBelowStop(b / 2)
  }

  function Branches(taken: seq<bool>, tsc: Option<nat>): (r: seq<Packet>)
    ensures |r| == |taken|
  {
    seq(|taken|, i requires 0 <= i < |taken| => Branch(taken[i], tsc))
  }

  /** `last & MASK | addr & ~MASK` where MASK has exactly bits low .. 63. */
  function MergeIp(last: nat, addr: nat, low: nat): nat
    requires low <= 64
  {
    Shl(Shr(addr, 64), 64) + Shl(Shr(Low(last, 64), low), low) + Low(addr, low)
  }

  /** Copies bit 47 into bits 48 .. 63; a clear bit 47 drops everything above. */
  function SignExtend(addr: nat): nat {
    if Bit(addr, 47)
    then Shl(Shr(addr, 64), 64) + 0xFFFF_0000_0000_0000 + Low(addr, 48)
    else Low(addr, 48)
  }

  /** Low bits the payload of a compressed form supplies; the rest comes from LastIP. */
  function MergedBits(form: nat): nat {
    if form == 1 then 16 else if form == 2 then 32 else 48
  }

  predicate IsMerged(form: nat) {
    form == 1 || form == 2 || form == 4
  }

  function HandleIp(k: Kind, data: seq<byte>, ctx: Context): Handled {
    if data == [] then Raised(DataIndex)
    else
      var form := data[0] / 32 % 8;
      var addr := FromLE(data[1..]);
      if form == 0 then Done([Address(k, form, None, ctx.tsc)], ctx)
      else if IsMerged(form) && ctx.lastIp.None? then Raised(LastIpMissing)
      else
        var ip := if IsMerged(form) then MergeIp(ctx.lastIp.value, addr, MergedBits(form))
                  else if form == 3 then SignExtend(addr)
                  else addr;
        Done([Address(k, form, Some(ip), ctx.tsc)], ctx.(lastIp := Some(ip)))
  }

  function OpModeOf(csd: bool, lma: bool): OpMode {
    if lma then Mode64 else if csd then Mode32 else Mode16
  }

  function HandleMode(data: seq<byte>, ctx: Context): Handled {
    if |data| < 2 then Raised(DataIndex)
    else
      var leaf := data[1] / 32 % 8;
      if leaf == 0 then
        var csd, lma := Bit(data[1], 1), Bit(data[1], 0);
        if csd && lma then Raised(InconsistentMode)
        else Done([ExecMode(Bit(data[1], 2), csd, lma, ctx.tsc)], ctx.(mode := Some(OpModeOf(csd, lma))))
      else if leaf == 1 then Done([TsxMode(Bit(data[1], 1), Bit(data[1], 0), ctx.tsc)], ctx)
      else Raised(ReservedMode)
  }

  /** The handler of each definition applied to the accumulated bytes. */
  function Handle(k: Kind, data: seq<byte>, ctx: Context): Handled {
    if k == Tnt || k == TntExtended then
      if data == [] then Raised(DataIndex) else Done(Branches(Outcomes(data[0]), ctx.tsc), ctx)
    else if k in {Tip, TipPge, TipPgd, Fup} then HandleIp(k, data, ctx)
    else if k == Mode then HandleMode(data, ctx)
    else if k == Cbr then
      if |data| < 3 then Raised(DataIndex) else Done([BusRatio(data[2], ctx.tsc)], ctx)
    else if k == Tsc then
      var time := FromLE(if data == [] then [] else data[1..]);
      Done([TimeStamp(time)], ctx.(tsc := Some(time)))
    else if k == Psb then Done([Marker(k, ctx.tsc)], ctx.(disabled := true))
    else if k == PsbEnd then Done([Marker(k, ctx.tsc)], ctx.(disabled := false))
    else Done([Undefined], ctx)
  }

  /** Whether packets are hidden once one of kind k has been handled. */
  predicate HiddenBy(k: Kind, hidden: bool) {
    k == Psb || (hidden && k != PsbEnd)
  }

  /** Suppression has no influence on what a handler makes of a packet, nor on the rest of the context. */
  lemma SuppressionIsApart(k: Kind, data: seq<byte>, ctx: Context, hidden: bool)
    ensures Handle(k, data, ctx.(disabled := hidden))
            == match Handle(k, data, ctx)
               case Raised(x) => Raised(x)
               case Done(packets, after) => Done(packets, after.(disabled := HiddenBy(k, hidden)))
  {
  }

  // ------------------------------------------------------------------ bits of the two address rules

  /** MergeIp takes bits low .. 63 from LastIP and every other bit from the payload. */
  lemma MergeIpBits(last: nat, addr: nat, low: nat, i: nat)
    requires low <= 64
    ensures Bit(MergeIp(last, addr, low), i) == if low <= i < 64 then Bit(last, i) else Bit(addr, i)
  {
    var mid, tail := Shr(Low(last, 64), low), Low(addr, low);
    ShrBound(Low(last, 64), 64 - low, low);
    JoinBound(mid, 64 - low, tail, low);
    BitOfJoin(Shr(addr, 64), 64, Shl(mid, low) + tail, i);
    if i >= 64 {
      BitOfShr(addr, 64, i - 64);
    } else {
      BitOfJoin(mid, low, tail, i);
      if i < low {
        BitOfLow(addr, low, i);
      } else {
        BitOfShr(Low(last, 64), low, i - low);
        BitOfLow(last, 64, i);
      }
    }
  }

  /** m one bits between n low bits and the bits from m + n up. */
  lemma FilledBits(top: nat, m: nat, tail: nat, n: nat, i: nat)
    requires tail < Pow2(n) && i < m + n
    ensures Bit(Shl(top, m + n) + Shl(Pow2(m) - 1, n) + tail, i) == (i >= n || Bit(tail, i))
  {
    JoinBound(Pow2(m) - 1, m, tail, n);
    BitOfJoin(top, m + n, Shl(Pow2(m) - 1, n) + tail, i);
    BitOfJoin(Pow2(m) - 1, n, tail, i);
    if i >= n { AllOnes(m, i - n); }
  }

  lemma HighBitClear(x: nat, n: nat, i: nat)
    requires x < Pow2(n) && n <= i
    ensures !Bit(x, i)
  {
    Small(x, n);
    BitOfShr(x, n, i - n);
    ZeroBits(i - n);
  }

  lemma ExtendedBits(addr: nat, n: nat, m: nat, i: nat)
    requires 0 < n && i < n + m
    ensures var filled := Shl(Shr(addr, n + m), m + n) + Shl(Pow2(m) - 1, n) + Low(addr, n);
            Bit(if Bit(addr, n - 1) then filled else Low(addr, n), i) == Bit(addr, if i < n then i else n - 1)
  {
    if i < n { BitOfLow(addr, n, i); }
    if Bit(addr, n - 1) {
      FilledBits(Shr(addr, n + m), m, Low(addr, n), n, i);
    } else if i >= n {
      HighBitClear(Low(addr, n), n, i);
    }
  }

  lemma UpperWord()
    ensures Shl(Pow2(16) - 1, 48) == 0xFFFF_0000_0000_0000
  {
    CutIsPow2(8);
    Pow2Product(8, 8, 256, 256);
    Pow2Product(16, 16, 0x1_0000, 0x1_0000);
    Pow2Product(32, 16, 0x1_0000_0000, 0x1_0000);
    ShlTimes(Pow2(16) - 1, 48, 0x1_0000_0000_0000);
  }

  /** SignExtend keeps bits 0 .. 47 and repeats bit 47 up to bit 63. */
  lemma SignExtendBits(addr: nat, i: nat)
    requires i < 64
    ensures Bit(SignExtend(addr), i) == Bit(addr, if i < 48 then i else 47)
  {
    UpperWord();
    ExtendedBits(addr, 48, 16, i);
  }
}
