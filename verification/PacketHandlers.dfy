/** The packet handlers as the decoder runs them: shift loops, and a context changed in place. */
module PacketHandlers {
  import opened Bytes
  import opened PacketTable
  import opened Packets

  class DecodingContext {
    var disabled: bool
    var tsc: Option<nat>
    var lastIp: Option<nat>
    var mode: Option<OpMode>

    constructor ()
      ensures Value() == INITIAL_CONTEXT
    {
      disabled, tsc, lastIp, mode := false, None, None, None;
    }

    function Value(): Context
      reads this
    {
      Context(disabled, tsc, lastIp, mode)
    }
  }

  /** A handler call that went from one context to another did what h says. */
  ghost predicate Did(h: Handled, packets: seq<Packet>, fault: Option<Fault>, before: Context, after: Context) {
    match h
    case Raised(f) => fault == Some(f) && after == before
    case Done(ps, ctx) => fault.None? && packets == ps && after == ctx
  }

  lemma {:induction false} ShrStep(x: nat, n: nat)
    ensures Shr(x, n) == 2 * Shr(x, n + 1) + (if Bit(x, n) then 1 else 0)
  {
    if n != 0 {
      ShrStep(x / 2, n - 1);
    }
  }

  lemma BitEight(x: nat, idx: nat)
    requires idx <= 8
    ensures Bit(Shl(x, idx), 8) == Bit(x, 8 - idx)
  {
    BitOfJoin(x, idx, 0, 8);
  }

  /** Shifts left until the stop bit stands at bit 8. */
  method FindStopBit(x: byte) returns (aux: nat, idx: nat)
    ensures idx <= 8 && aux == Shl(x, idx) && Shr(x, 9 - idx) == 0
    ensures idx < 8 ==> Bit(x, 8 - idx)
  {
    aux, idx := x, 0;
    ShrQuotient(x, 8);
    ShrStep(x, 8);
    BitEight(x, idx);
    while !Bit(aux, 8) && idx < 8
      invariant 0 <= idx <= 8 && aux == Shl(x, idx) && Shr(x, 9 - idx) == 0
      invariant Bit(aux, 8) == Bit(x, 8 - idx)
    {
      ShrStep(x, 8 - idx);
      idx := idx + 1;
      aux := 2 * aux;
      BitEight(x, idx);
    }
  }

  /** The outcomes the bits above position p spell, one shift at a time. */
  lemma OutcomesStep(x: nat, p: nat)
    requires Shr(x, p + 1) >= 1
    ensures Shr(x, p) >= 1
    ensures BitsBelowStop(Shr(x, p)) == BitsBelowStop(Shr(x, p + 1)) + [Bit(x, p)]
  {
    ShrStep(x, p);
  }

  lemma BranchesSnoc(taken: seq<bool>, t: bool, tsc: Option<nat>)
    ensures Branches(taken + [t], tsc) == Branches(taken, tsc) + [Branch(t, tsc)]
  {
  }

  /** Reads one outcome per shift, from the bit below the stop bit down to bit 1. */
  method TntPacketHandler(data: seq<byte>, ctx: DecodingContext) returns (packets: seq<Packet>, fault: Option<Fault>)
    ensures Did(if data == [] then Raised(DataIndex) else Done(Branches(Outcomes(data[0]), ctx.tsc), ctx.Value()),
                packets, fault, ctx.Value(), ctx.Value())
  {
    packets, fault := [], None;
    if data == [] {
      return [], Some(DataIndex);
    }
    var x := data[0];
    var aux, idx := FindStopBit(x);
    ShrStep(x, 8 - idx);
    idx := idx + 1;
    aux := 2 * aux;
    ghost var outcomes: seq<bool> := [];
    while idx < 8
      invariant 1 <= idx <= 9 && aux == Shl(x, idx)
      invariant packets == Branches(outcomes, ctx.tsc)
      invariant idx <= 8 ==> Shr(x, 9 - idx) >= 1 && outcomes == BitsBelowStop(Shr(x, 9 - idx))
      invariant idx == 9 ==> x <= 1 && outcomes == []
    {
      BitEight(x, idx);
      OutcomesStep(x, 8 - idx);
      BranchesSnoc(outcomes, Bit(aux, 8), ctx.tsc);
      outcomes := outcomes + [Bit(aux, 8)];
      if Bit(aux, 8) {
        packets := packets + [Branch(true, ctx.tsc)];
      } else {
        packets := packets + [Branch(false, ctx.tsc)];
      }
      idx := idx + 1;
      aux := 2 * aux;
    }
    assert Shr(x, 1) == x / 2;
    assert outcomes == Outcomes(x);
  }

  /** Everything after the first byte as a number, read most significant byte first. */
  method PayloadNumber(data: seq<byte>) returns (n: nat)
    ensures n == FromLE(if data == [] then [] else data[1..])
  {
    n := 0;
    var i := |data|;
    while i > 1
      invariant data != [] ==> 1 <= i <= |data| && n == 256 * FromLE(data[i..])
      invariant data == [] ==> i == 0 && n == 0
    {
      i := i - 1;
      assert data[i..][1..] == data[i + 1..];
      n := n + data[i];
      n := 256 * n;
    }
    n := n / 256;
  }

  /** Reads the payload, then rebuilds the address the compression code asks for. */
  method FupTipPacketHandler(k: Kind, data: seq<byte>, ctx: DecodingContext)
    returns (packets: seq<Packet>, fault: Option<Fault>)
    modifies ctx
    ensures Did(HandleIp(k, data, old(ctx.Value())), packets, fault, old(ctx.Value()), ctx.Value())
  {
    packets, fault := [], None;
    if data == [] {
      return [], Some(DataIndex);
    }
    var form := data[0] / 32 % 8;
    if form == 0 {
      return [Address(k, form, None, ctx.tsc)], None;
    }
    var addr := PayloadNumber(data);
    if IsMerged(form) {
      if ctx.lastIp.None? {
        return [], Some(LastIpMissing);
      }
      addr := MergeIp(ctx.lastIp.value, addr, MergedBits(form));
    } else if form == 3 {
      addr := SignExtend(addr);
    }
    ctx.lastIp := Some(addr);
    packets := [Address(k, form, Some(addr), ctx.tsc)];
  }

  method TscPacketHandler(data: seq<byte>, ctx: DecodingContext) returns (packets: seq<Packet>)
    modifies ctx
    ensures Did(Handle(Tsc, data, old(ctx.Value())), packets, None, old(ctx.Value()), ctx.Value())
  {
    var time := PayloadNumber(data);
    ctx.tsc := Some(time);
    packets := [TimeStamp(time)];
  }

  method ModePacketHandler(data: seq<byte>, ctx: DecodingContext) returns (packets: seq<Packet>, fault: Option<Fault>)
    modifies ctx
    ensures Did(HandleMode(data, old(ctx.Value())), packets, fault, old(ctx.Value()), ctx.Value())
  {
    packets, fault := [], None;
    if |data| < 2 {
      return [], Some(DataIndex);
    }
    var leaf := data[1] / 32 % 8;
    if leaf > 1 {
      return [], Some(ReservedMode);
    }
    if leaf == 0 {
      var csd, lma := Bit(data[1], 1), Bit(data[1], 0);
      if csd && lma {
        return [], Some(InconsistentMode);
      }
      packets := [ExecMode(Bit(data[1], 2), csd, lma, ctx.tsc)];
      ctx.mode := Some(OpModeOf(csd, lma));
    } else {
      packets := [TsxMode(Bit(data[1], 1), Bit(data[1], 0), ctx.tsc)];
    }
  }

  /** The handler stored in the matched definition. */
  method Dispatch(k: Kind, data: seq<byte>, ctx: DecodingContext) returns (packets: seq<Packet>, fault: Option<Fault>)
    modifies ctx
    ensures Did(Handle(k, data, old(ctx.Value())), packets, fault, old(ctx.Value()), ctx.Value())
  {
    packets, fault := [Undefined], None;
    match k {
      case Tnt => packets, fault := TntPacketHandler(data, ctx);
      case TntExtended => packets, fault := TntPacketHandler(data, ctx);
      case Tip => packets, fault := FupTipPacketHandler(k, data, ctx);
      case TipPge => packets, fault := FupTipPacketHandler(k, data, ctx);
      case TipPgd => packets, fault := FupTipPacketHandler(k, data, ctx);
      case Fup => packets, fault := FupTipPacketHandler(k, data, ctx);
      case Mode => packets, fault := ModePacketHandler(data, ctx);
      case Tsc => packets := TscPacketHandler(data, ctx);
      case Cbr =>
        if |data| < 3 {
          packets, fault := [], Some(DataIndex);
        } else {
          packets := [BusRatio(data[2], ctx.tsc)];
        }
      case Psb =>
        ctx.disabled := true;
        packets := [Marker(k, ctx.tsc)];
      case PsbEnd =>
        ctx.disabled := false;
        packets := [Marker(k, ctx.tsc)];
      case _ =>
    }
  }
}
