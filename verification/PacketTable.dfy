/** The table of packet definitions: which header bytes open which packet, and how long it is. */
module PacketTable {
  import opened Bytes

  datatype Option<+T> = None | Some(value: T)

  datatype Kind =
    | Tnt | TntExtended | Tip | TipPge | TipPgd | Fup | Pip | Mode | TraceStop | Cbr | Tsc | Mtc | Tma
    | Vmcs | Ovf | Psb | PsbEnd | Mnt | Ptw | ExStop | Mwait | Pwre | Pwrx | Bbp | Bep

  /** One header byte of a definition: the TNT lambda, or a bit pattern over '0', '1' and '.'. */
  datatype HeaderByte = TntByte | Bits(pattern: string)

  predicate BitAgrees(c: char, bit: bool) {
    c == '.' || (c == '1') == bit
  }

  /** The pattern character for bit i: the last character speaks of bit 0. */
  function CharFor(p: string, i: nat): char
    requires i < |p|
  {
    p[|p| - 1 - i]
  }

  predicate MatchesPattern(p: string, b: byte) {
    forall i | 0 <= i < |p| :: BitAgrees(CharFor(p, i), Bit(b, i))
  }

  predicate Accepts(h: HeaderByte, b: byte) {
    match h
    case TntByte => b % 2 == 0 && b > 2
    case Bits(p) => MatchesPattern(p, b)
  }

  /** The header patterns, in the order they must appear. */
  function Header(k: Kind): (h: seq<HeaderByte>)
    ensures h != []
  {
    match k
    case Tnt => [TntByte]
    case TntExtended => [Bits("00000010"), Bits("10100011")]
    case Tip => [Bits("...01101")]
    case TipPge => [Bits("...10001")]
    case TipPgd => [Bits("...00001")]
    case Fup => [Bits("...11101")]
    case Pip => [Bits("00000010"), Bits("01000011")]
    case Mode => [Bits("10011001")]
    case TraceStop => [Bits("00000010"), Bits("10000011")]
    case Cbr => [Bits("00000010"), Bits("00000011")]
    case Tsc => [Bits("00011001")]
    case Mtc => [Bits("01011001")]
    case Tma => [Bits("00000010"), Bits("01110011")]
    case Vmcs => [Bits("00000010"), Bits("11001000")]
    case Ovf => [Bits("00000010"), Bits("11110011")]
    case Psb => seq(14, i => if i % 2 == 0 then Bits("00000010") else Bits("10000010"))
    case PsbEnd => [Bits("00000010"), Bits("00100011")]
    case Mnt => [Bits("00000010"), Bits("11000011"), Bits("10001000")]
    case Ptw => [Bits("00000010"), Bits("...10010")]
    case ExStop => [Bits("00000010"), Bits(".1100010")]
    case Mwait => [Bits("00000010"), Bits("11000010")]
    case Pwre => [Bits("00000010"), Bits("00100010")]
    case Pwrx => [Bits("00000010"), Bits("10100010")]
    case Bbp => [Bits("00000010"), Bits("01100011")]
    case Bep => [Bits("00000010"), Bits(".0110011")]
  }

  /** The number spelled by the last m characters of a bit string. */
  function Value(p: string, m: nat): (v: nat)
    requires m <= |p|
    ensures v < Pow2(m)
  {
    if m == 0 then 0 else (if CharFor(p, m - 1) == '1' then Pow2(m - 1) else 0) + Value(p, m - 1)
  }

  ghost predicate LowBitsAgree(p: string, b: byte, m: nat)
    requires m <= |p|
  {
    forall i | 0 <= i < m :: BitAgrees(CharFor(p, i), Bit(b, i))
  }

  /** Fixed bits in the last m places agree with a byte exactly when its low m bits spell their value. */
  lemma {:induction false} LowBitsByValue(p: string, b: byte, m: nat)
    requires m <= |p| && forall i | 0 <= i < m :: CharFor(p, i) != '.'
    ensures LowBitsAgree(p, b, m) <==> Low(b, m) == Value(p, m)
  {
    if m != 0 {
      LowBitsByValue(p, b, m - 1);
      LowBitsSnoc(p, b, m - 1);
      LowSnoc(b, m - 1);
    }
  }

  lemma LowBitsSnoc(p: string, b: byte, m: nat)
    requires m < |p|
    ensures LowBitsAgree(p, b, m + 1) <==> LowBitsAgree(p, b, m) && BitAgrees(CharFor(p, m), Bit(b, m))
  {
  }

  /** Header byte i of a definition fixes this many low bits ... */
  function FixedBits(k: Kind, i: nat): nat {
    if i == 0 && k in {Tip, TipPge, TipPgd, Fup} then 5
    else if i == 1 && k == Ptw then 5
    else if i == 1 && k in {ExStop, Bep} then 7
    else 8
  }

  /** ... to this value. */
  function Code(k: Kind, i: nat): nat {
    if i == 0 then
      match k
      case Tip => 13
      case TipPge => 17
      case TipPgd => 1
      case Fup => 29
      case Mode => 0x99
      case Tsc => 0x19
      case Mtc => 0x59
      case _ => 0x02
    else if i == 1 then
      match k
      case TntExtended => 0xA3
      case Pip => 0x43
      case TraceStop => 0x83
      case Cbr => 0x03
      case Tma => 0x73
      case Vmcs => 0xC8
      case Ovf => 0xF3
      case Psb => 0x82
      case PsbEnd => 0x23
      case Mnt => 0xC3
      case Ptw => 0x12
      case ExStop => 0x62
      case Mwait => 0xC2
      case Pwre => 0x22
      case Pwrx => 0xA2
      case Bbp => 0x63
      case _ => 0x33
    else if k == Mnt then 0x88
    else if i % 2 == 0 then 0x02
    else 0x82
  }

  function Weight(c: char, w: nat): nat {
    if c == '1' then w else 0
  }

  /** The value of five, seven or eight characters written out. */
  lemma ValueSums(p: string)
    requires |p| == 8
    ensures Value(p, 5) == Weight(p[7], 1) + Weight(p[6], 2) + Weight(p[5], 4) + Weight(p[4], 8) + Weight(p[3], 16)
    ensures Value(p, 7) == Value(p, 5) + Weight(p[2], 32) + Weight(p[1], 64)
    ensures Value(p, 8) == Value(p, 7) + Weight(p[0], 128)
  {
    assert Value(p, 1) == Weight(p[7], 1);
    assert Value(p, 2) == Value(p, 1) + Weight(p[6], 2);
    assert Value(p, 3) == Value(p, 2) + Weight(p[5], 4);
    assert Value(p, 4) == Value(p, 3) + Weight(p[4], 8);
    assert Value(p, 5) == Value(p, 4) + Weight(p[3], 16);
    assert Value(p, 6) == Value(p, 5) + Weight(p[2], 32);
    assert Value(p, 7) == Value(p, 6) + Weight(p[1], 64);
    assert Value(p, 8) == Value(p, 7) + Weight(p[0], 128);
  }

  /** Dots, then exactly m bits of value v. */
  ghost predicate Spells(h: HeaderByte, m: nat, v: nat) {
    && h.Bits? && |h.pattern| == 8 && m <= 8
    && (forall j | 0 <= j < m :: CharFor(h.pattern, j) != '.')
    && (forall j | m <= j < 8 :: CharFor(h.pattern, j) == '.')
    && Value(h.pattern, m) == v
  }

  lemma SpellsByCharacters(h: HeaderByte, m: nat)
    requires h.Bits? && |h.pattern| == 8 && m in {5, 7, 8}
    requires var p := h.pattern;
             && (p[0] == '.' <==> m < 8) && (p[1] == '.' <==> m < 7) && (p[2] == '.' <==> m < 7)
             && p[3] != '.' && p[4] != '.' && p[5] != '.' && p[6] != '.' && p[7] != '.'
    ensures var p := h.pattern;
            Spells(h, m, Weight(p[7], 1) + Weight(p[6], 2) + Weight(p[5], 4) + Weight(p[4], 8) + Weight(p[3], 16)
                         + (if m < 7 then 0 else Weight(p[2], 32) + Weight(p[1], 64))
                         + (if m < 8 then 0 else Weight(p[0], 128)))
  {
    ValueSums(h.pattern);
  }

  lemma EscapePattern(k: Kind)
    requires 1 < |Header(k)|
    ensures Header(k)[0] == Bits("00000010") && FixedBits(k, 0) == 8 && Code(k, 0) == 2
  {
  }

  lemma FirstPattern(k: Kind)
    requires k != Tnt
    ensures Spells(Header(k)[0], FixedBits(k, 0), Code(k, 0))
  {
    if 1 < |Header(k)| {
      EscapePattern(k);
      SpellsByCharacters(Bits("00000010"), 8);
    } else {
      OnlyPattern(k);
    }
  }

  lemma OnlyPattern(k: Kind)
    requires k in {Tip, TipPge, TipPgd, Fup, Mode, Tsc, Mtc}
    ensures Spells(Header(k)[0], FixedBits(k, 0), Code(k, 0))
  {
    SpellsByCharacters(Header(k)[0], FixedBits(k, 0));
  }

  lemma SecondPattern(k: Kind)
    requires 1 < |Header(k)|
    ensures Spells(Header(k)[1], FixedBits(k, 1), Code(k, 1))
  {
    if k in {TntExtended, Pip, TraceStop, Cbr, Tma, Vmcs} {
      SecondPatternA(k);
    } else if k in {Ovf, Psb, PsbEnd, Mnt, Ptw, ExStop} {
      SecondPatternB(k);
    } else {
      SecondPatternC(k);
    }
  }

  lemma SecondPatternA(k: Kind)
    requires k in {TntExtended, Pip, TraceStop, Cbr, Tma, Vmcs}
    ensures Spells(Header(k)[1], FixedBits(k, 1), Code(k, 1))
  {
    SpellsByCharacters(Header(k)[1], FixedBits(k, 1));
  }

  lemma SecondPatternB(k: Kind)
    requires k in {Ovf, Psb, PsbEnd, Mnt, Ptw, ExStop}
    ensures Spells(Header(k)[1], FixedBits(k, 1), Code(k, 1))
  {
    SpellsByCharacters(Header(k)[1], FixedBits(k, 1));
  }

  lemma SecondPatternC(k: Kind)
    requires k in {Mwait, Pwre, Pwrx, Bbp, Bep}
    ensures Spells(Header(k)[1], FixedBits(k, 1), Code(k, 1))
  {
    SpellsByCharacters(Header(k)[1], FixedBits(k, 1));
  }

  lemma LaterPattern(k: Kind, i: nat)
    requires 2 <= i < |Header(k)|
    ensures Spells(Header(k)[i], FixedBits(k, i), Code(k, i))
  {
    assert k == Psb || k == Mnt;
    SpellsByCharacters(Header(k)[i], FixedBits(k, i));
  }

  lemma AcceptsByValue(h: HeaderByte, m: nat, v: nat, b: byte)
    requires Spells(h, m, v)
    ensures Accepts(h, b) <==> Low(b, m) == v
  {
    LowBitsByValue(h.pattern, b, m);
    assert MatchesPattern(h.pattern, b) <==> LowBitsAgree(h.pattern, b, m);
  }

  /** The low FixedBits of b are the code, by remainder. */
  predicate ByCode(k: Kind, i: nat, b: byte) {
    if k == Tnt then b % 2 == 0 && b > 2
    else b % Cut(FixedBits(k, i)) == Code(k, i)
  }

  /** A header byte read as a number: its low bits are the code. */
  lemma HeaderByCode(k: Kind, i: nat, b: byte)
    requires i < |Header(k)|
    ensures Accepts(Header(k)[i], b) <==> ByCode(k, i, b)
  {
    if k == Tnt { return; }
    if i == 0 { FirstPattern(k); } else if i == 1 { SecondPattern(k); } else { LaterPattern(k, i); }
    AcceptsByValue(Header(k)[i], FixedBits(k, i), Code(k, i), b);
    LowRemainder(b, FixedBits(k, i));
  }

  /** acc agrees with the first |acc| header bytes of k. */
  predicate Prefix(k: Kind, acc: seq<byte>) {
    |acc| <= |Header(k)| && forall i | 0 <= i < |acc| :: Accepts(Header(k)[i], acc[i])
  }

  /** acc is a complete header of k. */
  predicate Matches(k: Kind, acc: seq<byte>) {
    |acc| == |Header(k)| && Prefix(k, acc)
  }

  predicate Unused(b: byte) {
    b == 0x00 || b == 0xFF
  }

  lemma PrefixSnoc(k: Kind, acc: seq<byte>, b: byte)
    ensures Prefix(k, acc + [b]) <==> Prefix(k, acc) && |acc| < |Header(k)| && Accepts(Header(k)[|acc|], b)
  {
    if Prefix(k, acc + [b]) {
      assert forall i | 0 <= i < |acc| :: (acc + [b])[i] == acc[i];
      assert (acc + [b])[|acc|] == b;
    }
  }

  /** The table is prefix-free: a complete header of one definition starts no other. */
  lemma PrefixFree(k: Kind, k': Kind, acc: seq<byte>)
    requires Matches(k, acc) && Prefix(k', acc)
    ensures k == k'
  {
    HeaderByCode(k, 0, acc[0]);
    HeaderByCode(k', 0, acc[0]);
    if |acc| == 1 {
      SameFirst(k, k', acc[0]);
    } else {
      HeaderByCode(k, 1, acc[1]);
      HeaderByCode(k', 1, acc[1]);
      SameSecond(k, k', acc[1]);
    }
  }

  /** The one-byte definition, if any, that a byte can only be the header of. */
  function FirstOf(b: byte): Kind {
    if b % 32 == 13 then Tip else if b % 32 == 17 then TipPge else if b % 32 == 1 then TipPgd
    else if b % 32 == 29 then Fup
    else if b == 0x99 then Mode else if b == 0x19 then Tsc else if b == 0x59 then Mtc
    else if b == 2 then Psb else Tnt
  }

  lemma FirstDecodes(k: Kind, b: byte)
    requires ByCode(k, 0, b)
    ensures if 1 < |Header(k)| then FirstOf(b) == Psb else FirstOf(b) == k
  {
    if k != Tnt && FixedBits(k, 0) == 8 {
      assert b == Code(k, 0);
      FirstOfCode(k);
    }
  }

  lemma FirstOfCode(k: Kind)
    requires k != Tnt && FixedBits(k, 0) == 8
    ensures if 1 < |Header(k)| then FirstOf(Code(k, 0)) == Psb else FirstOf(Code(k, 0)) == k
  {
  }

  lemma SameFirst(k: Kind, k': Kind, b: byte)
    requires |Header(k)| == 1 && ByCode(k, 0, b) && ByCode(k', 0, b)
    ensures k == k'
  {
    FirstDecodes(k, b);
    FirstDecodes(k', b);
    assert k != Psb;
  }

  /** The longer definition whose second byte is b. */
  function SecondOf(b: byte): Kind {
    match b
    case 0xA3 => TntExtended
    case 0x43 => Pip
    case 0x83 => TraceStop
    case 0x03 => Cbr
    case 0x73 => Tma
    case 0xC8 => Vmcs
    case 0xF3 => Ovf
    case 0x82 => Psb
    case 0x23 => PsbEnd
    case 0xC3 => Mnt
    case 0xC2 => Mwait
    case 0x22 => Pwre
    case 0xA2 => Pwrx
    case 0x63 => Bbp
    case _ => if b % 128 == 0x62 then ExStop else if b % 128 == 0x33 then Bep else Ptw
  }

  lemma SecondDecodes(k: Kind, b: byte)
    requires 1 < |Header(k)| && ByCode(k, 1, b)
    ensures SecondOf(b) == k
  {
    if FixedBits(k, 1) == 8 {
      assert b == Code(k, 1);
      SecondOfCode(k);
    } else {
      SecondOfVariable(k, b);
    }
  }

  lemma SecondOfCode(k: Kind)
    requires 1 < |Header(k)| && FixedBits(k, 1) == 8
    ensures SecondOf(Code(k, 1)) == k
  {
  }

  lemma SecondOfVariable(k: Kind, b: byte)
    requires k in {Ptw, ExStop, Bep} && ByCode(k, 1, b)
    ensures SecondOf(b) == k
  {
  }

  lemma SameSecond(k: Kind, k': Kind, b: byte)
    requires |Header(k)| > 1 && |Header(k')| > 1 && ByCode(k, 1, b) && ByCode(k', 1, b)
    ensures k == k'
  {
    SecondDecodes(k, b);
    SecondDecodes(k', b);
  }

  lemma CodesAvoidUnused(k: Kind, i: nat, b: byte)
    requires ByCode(k, i, b)
    ensures !Unused(b)
  {
    CodeIsMixed(k, i);
    if k != Tnt {
      MixedIsUsed(b, FixedBits(k, i), Code(k, i));
    }
  }

  lemma MixedIsUsed(b: byte, m: nat, v: nat)
    requires b % Cut(m) == v && 0 < v < Cut(m) - 1
    ensures !Unused(b)
  {
  }

  lemma CodeIsMixed(k: Kind, i: nat)
    ensures 0 < Code(k, i) < Cut(FixedBits(k, i)) - 1
  {
  }

  /** No header byte of any definition is 0x00 or 0xFF. */
  lemma HeadersAvoidUnused(k: Kind, i: nat, b: byte)
    requires i < |Header(k)| && Accepts(Header(k)[i], b)
    ensures !Unused(b)
  {
    HeaderByCode(k, i, b);
    CodesAvoidUnused(k, i, b);
  }

  /** Payload bytes of an IP packet by compression code; None marks the reserved codes. */
  function IpSize(code: nat): Option<nat> {
    match code
    case 0 => Some(0)
    case 1 => Some(2)
    case 2 => Some(4)
    case 3 => Some(6)
    case 4 => Some(6)
    case 6 => Some(8)
    case _ => None
  }

  function PtwSize(code: nat): Option<nat> {
    match code
    case 0 => Some(4)
    case 1 => Some(8)
    case _ => None
  }

  function PlusHeader(header: nat, size: Option<nat>): Option<nat> {
    match size
    case None => None
    case Some(n) => Some(header + n)
  }

  /** The packet length, from the header bytes accumulated so far; None where the lookup raises. */
  function Length(k: Kind, acc: seq<byte>): (n: Option<nat>)
    requires acc != []
  {
    match k
    case Tnt => Some(1)
    case TntExtended => Some(8)
    case Tip => PlusHeader(|acc|, IpSize(acc[0] / 32 % 8))
    case TipPge => PlusHeader(|acc|, IpSize(acc[0] / 32 % 8))
    case TipPgd => PlusHeader(|acc|, IpSize(acc[0] / 32 % 8))
    case Fup => PlusHeader(|acc|, IpSize(acc[0] / 32 % 8))
    case Pip => Some(8)
    case Mode => Some(2)
    case TraceStop => Some(2)
    case Cbr => Some(4)
    case Tsc => Some(8)
    case Mtc => Some(2)
    case Tma => Some(7)
    case Vmcs => Some(7)
    case Ovf => Some(2)
    case Psb => Some(16)
    case PsbEnd => Some(2)
    case Mnt => Some(11)
    case Ptw => if |acc| < 2 then None else PlusHeader(|acc|, PtwSize(acc[1] / 32 % 4))
    case ExStop => Some(2)
    case Mwait => Some(10)
    case Pwre => Some(4)
    case Pwrx => Some(7)
    case Bbp => Some(3)
    case Bep => Some(2)
  }

  /** The definitions in the order the decoder tries them. */
  /** The length lookup raises exactly on the reserved codes: 5 and 7 of an IP packet, 2 and 3 of PTW. */
  lemma NoLengthIff(k: Kind, acc: seq<byte>)
    requires |acc| == |Header(k)|
    ensures Length(k, acc).None?
            <==> (k in {Tip, TipPge, TipPgd, Fup} && acc[0] / 32 in {5, 7}) || (k == Ptw && 2 <= acc[1] / 32 % 4)
  {
  }

  const TABLE: seq<Kind> := [
    Tnt, TntExtended, Tip, TipPge, TipPgd, Fup, Pip, Mode, TraceStop, Cbr, Tsc, Mtc, Tma,
    Vmcs, Ovf, Psb, PsbEnd, Mnt, Ptw, ExStop, Mwait, Pwre, Pwrx, Bbp, Bep]

  /** Any list that holds every definition, in any order. */
  ghost predicate IsTable(defs: seq<Kind>) {
    forall k: Kind :: k in defs
  }

  lemma TableIsComplete()
    ensures IsTable(TABLE)
  {
    forall k: Kind ensures k in TABLE {
      match k
      case Tnt => assert TABLE[0] == k;
      case TntExtended => assert TABLE[1] == k;
      case Tip => assert TABLE[2] == k;
      case TipPge => assert TABLE[3] == k;
      case TipPgd => assert TABLE[4] == k;
      case Fup => assert TABLE[5] == k;
      case Pip => assert TABLE[6] == k;
      case Mode => assert TABLE[7] == k;
      case TraceStop => assert TABLE[8] == k;
      case Cbr => assert TABLE[9] == k;
      case Tsc => assert TABLE[10] == k;
      case Mtc => assert TABLE[11] == k;
      case Tma => assert TABLE[12] == k;
      case Vmcs => assert TABLE[13] == k;
      case Ovf => assert TABLE[14] == k;
      case Psb => assert TABLE[15] == k;
      case PsbEnd => assert TABLE[16] == k;
      case Mnt => assert TABLE[17] == k;
      case Ptw => assert TABLE[18] == k;
      case ExStop => assert TABLE[19] == k;
      case Mwait => assert TABLE[20] == k;
      case Pwre => assert TABLE[21] == k;
      case Pwrx => assert TABLE[22] == k;
      case Bbp => assert TABLE[23] == k;
      case Bep => assert TABLE[24] == k;
    }
  }

  /** A packet is never shorter than its header, and only PSB is longer than eleven bytes. */
  lemma LengthBounds(k: Kind, acc: seq<byte>)
    requires |acc| == |Header(k)| && Length(k, acc).Some?
    ensures |Header(k)| <= Length(k, acc).value
    ensures if k == Psb then Length(k, acc).value == 16 else Length(k, acc).value <= 11
  {
  }
}
