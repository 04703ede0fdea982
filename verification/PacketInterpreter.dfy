/** The interpreter object: one byte in at a time, decoded packets out on request. */
module PacketInterpreter {
  import opened Bytes
  import opened PacketTable
  import opened Packets
  import opened Decoder
  import opened PacketHandlers

  class Interpreter {
    const rule: Rule
    var acc: seq<byte>
    var candidates: seq<Kind>
    var headerIndex: nat
    var succession: seq<Packet>
    var inPacket: bool
    var current: Option<Kind>
    var length: nat
    const context: DecodingContext
    /** The exception that ended the run, if one did. */
    var fault: Option<Fault>

    constructor (rule: Rule)
      ensures fresh(this) && fresh(context)
      ensures this.rule == rule && State() == Decoder.Init(TABLE)
    {
      this.rule := rule;
      acc, candidates, headerIndex := [], TABLE, 0;
      succession, inPacket, current, length, fault := [], false, None, 0, None;
      context := new DecodingContext();
    }

    function State(): Interp
      reads this, context
    {
      Interp(acc, candidates, headerIndex, inPacket, current, length, succession, context.Value(), fault)
    }

    /** The bit-regex: walks the reversed pattern, or calls the predicate. */
    method ValidateHeaderByte(b: byte, header: HeaderByte) returns (valid: bool)
      ensures valid == Accepts(header, b)
    {
      if header.TntByte? {
        return b % 2 == 0 && b > 0x02;
      }
      var reversed :=
        seq(|header.pattern|, i requires 0 <= i < |header.pattern| => header.pattern[|header.pattern| - 1 - i]);
      for bit := 0 to |reversed|
        invariant forall i | 0 <= i < bit :: BitAgrees(CharFor(header.pattern, i), Bit(b, i))
      {
        assert reversed[bit] == CharFor(header.pattern, bit);
        if reversed[bit] == '.' {
          continue;
        }
        if reversed[bit] == '1' {
          if !Bit(b, bit) { return false; }
        } else {
          if Bit(b, bit) { return false; }
        }
      }
      return true;
    }

    method SearchHeader(b: byte)
      requires acc != [] && !inPacket && fault.None?
      modifies this
      ensures State() == Search(old(State()), b)
    {
      var newCandidates: seq<Kind> := [];
      var packetCandidates := candidates;
      var i := 0;
      while i < |packetCandidates|
        invariant 0 <= i <= |packetCandidates| && State() == old(State())
        invariant Scan(packetCandidates, headerIndex, b, [])
                  == Scan(packetCandidates[i..], headerIndex, b, newCandidates)
      {
        var k := packetCandidates[i];
        assert packetCandidates[i..][1..] == packetCandidates[i + 1..];
        if headerIndex >= |Header(k)| {
          fault := Some(HeaderIndex);
          return;
        }
        var valid := ValidateHeaderByte(b, Header(k)[headerIndex]);
        if valid {
          if headerIndex == |Header(k)| - 1 {
            newCandidates := [];
            headerIndex, inPacket, current := 0, true, Some(k);
            var n := Length(k, acc);
            if n.None? {
              fault := Some(ReservedLength);
            } else {
              length := n.value;
            }
            return;
          } else {
            newCandidates := newCandidates + [k];
          }
        }
        i := i + 1;
      }
      headerIndex := headerIndex + 1;
      candidates := newCandidates;
    }

    method ProcessByte(b: byte)
      modifies this, context
      ensures State() == Step(TABLE, rule, old(State()), b)
    {
      if fault.Some? { return; }
      if !inPacket {
        if Unused(b) {
          if |candidates| != |TABLE| && |candidates| != 0 {
            candidates, acc, headerIndex := TABLE, [], 0;
          }
          return;
        }
        acc := acc + [b];
        SearchHeader(b);
        if fault.Some? { return; }
      } else {
        acc := acc + [b];
      }
      if current.Some? && (rule == AsWritten || inPacket) && |acc| >= length {
        var packets, raised := Dispatch(current.value, acc, context);
        if raised.Some? {
          fault := raised;
          return;
        }
        if !context.disabled {
          succession := succession + packets;
        }
        inPacket, acc, candidates, headerIndex := false, [], TABLE, 0;
      }
    }

    /** `for byte in bytes: process_byte(byte)`. */
    method ProcessBytes(bytes: seq<byte>)
      modifies this, context
      ensures State() == Run(TABLE, rule, old(State()), bytes)
    {
      for i := 0 to |bytes|
        invariant Run(TABLE, rule, old(State()), bytes) == Run(TABLE, rule, State(), bytes[i..])
      {
        assert bytes[i..][1..] == bytes[i + 1..];
        ProcessByte(bytes[i]);
      }
    }

    /** Hands over the packets decoded since the last call. */
    method GetSuccession() returns (packets: seq<Packet>)
      modifies this`succession
      ensures packets == old(succession) && State() == old(State()).(succession := [])
    {
      packets := succession;
      succession := [];
    }
  }
}
