/** The table of physical addresses: how it is built, how output walks it, and what the position register says. */
module Topa {
  import opened Bytes
  import opened PacketTable

  const PAGE_SIZE: nat := 4096

  /** What a 52-bit field keeps. */
  const FIELD52: nat := 0x10_0000_0000_0000

  datatype TopaEntry = TopaEntry(end: bool, pmi: bool, stop: bool, size: nat, base: nat)

  const SIZE4K: nat := 0

  /** A buffer: its number in the session, and its page frames. What it holds is in physical memory. */
  datatype Mdl = Mdl(id: nat, frames: seq<nat>)

  /** With this many entries the byte count of a buffer still fits 32 bits. */
  const MAX_ENTRIES: nat := 0xFFFFF

  // ------------------------------------------------------------------ physical memory

  /** The contents of page frames. */
  type Ram = map<nat, seq<byte>>

  class PhysicalMemory {
    var pages: Ram

    constructor ()
      ensures pages == map[]
    {
      pages := map[];
    }
  }

  function Filled(n: nat): seq<byte> {
    seq(n, i => 0xFF)
  }

  function PageOf(ram: Ram, frame: nat): (page: seq<byte>)
    ensures |page| == PAGE_SIZE
  {
    if frame in ram && |ram[frame]| == PAGE_SIZE then ram[frame] else seq(PAGE_SIZE, i => 0)
  }

  /** Every page of a buffer set to 0xFF. */
  function Prefilled(ram: Ram, frames: seq<nat>): Ram {
    ram + map f | f in frames :: Filled(PAGE_SIZE)
  }

  function Written(ram: Ram, frame: nat, offset: nat, b: byte): Ram
    requires offset < PAGE_SIZE
  {
    ram[frame := PageOf(ram, frame)[offset := b]]
  }

  /** The bytes of a buffer, page after page. */
  function Contents(ram: Ram, frames: seq<nat>): (bytes: seq<byte>)
    ensures |bytes| == |frames| * PAGE_SIZE
  {
    seq(|frames| * PAGE_SIZE, k requires 0 <= k < |frames| * PAGE_SIZE =>
      PageOf(ram, frames[k / PAGE_SIZE])[k % PAGE_SIZE])
  }

  /** A prefilled buffer of the given size after output has run round it; later bytes overwrite earlier ones. */
  function Laid(size: nat, output: seq<byte>): (bytes: seq<byte>)
    requires 0 < size
    ensures |bytes| == size
  {
    if output == [] then Filled(size)
    else
      var n := |output| - 1;
      Laid(size, output[..n])[n % size := output[n]]
  }

  /** A buffer prefilled to its size, then written from the front. */
  function Over(size: nat, written: seq<byte>): seq<byte>
    requires |written| <= size
  {
    written + Filled(size)[|written|..]
  }

  lemma OneOver(fill: seq<byte>, front: seq<byte>, b: byte)
    requires |front| < |fill|
    ensures (front + fill[|front|..])[|front| := b] == front + [b] + fill[|front| + 1..]
  {
  }

  /** Output that fits is laid over the front of the prefill. */
  lemma {:induction false} LaidIsOver(size: nat, output: seq<byte>)
    requires 0 < size && |output| <= size
    ensures Laid(size, output) == Over(size, output)
    decreases |output|
  {
    if output == [] {
      assert Over(size, output) == Filled(size);
    } else {
      var n := |output| - 1;
      assert n % size == n;
      assert output[..n] + [output[n]] == output;
      OneOver(Filled(size), output[..n], output[n]);
      LaidIsOver(size, output[..n]);
    }
  }

  /** `i == EntriesCount - 2` on 32-bit unsigned numbers: with one entry no index qualifies. */
  predicate InterruptsAt(n: nat, i: nat) {
    i == (n - 2) % 0x1_0000_0000
  }

  function RegionEntry(n: nat, i: nat, frame: nat): TopaEntry {
    TopaEntry(false, InterruptsAt(n, i), false, SIZE4K, frame % FIELD52)
  }

  function EndEntry(was: TopaEntry, nextPa: nat): TopaEntry {
    was.(end := true, pmi := false, stop := false, base := nextPa / PAGE_SIZE % FIELD52)
  }

  /** One region per page frame, then the entry that leads back. */
  function Table(frames: seq<nat>, was: TopaEntry, nextPa: nat): (t: seq<TopaEntry>)
    ensures |t| == |frames| + 1
  {
    seq(|frames|, i requires 0 <= i < |frames| => RegionEntry(|frames|, i, frames[i])) + [EndEntry(was, nextPa)]
  }

  /** Prefills freshly allocated pages and points the table at them. pages is what the page allocator handed out, if
      anything. */
  method AllocateNewTopaBuffer(entriesCount: nat, table: array<TopaEntry>, nextPa: nat, pages: Option<Mdl>,
                               memory: PhysicalMemory)
    returns (mdl: Option<Mdl>)
    requires table.Length == entriesCount + 1
    requires pages.Some? ==> |pages.value.frames| == entriesCount
    modifies table, memory
    ensures mdl == pages
    ensures mdl.None? ==> table[..] == old(table[..]) && memory.pages == old(memory.pages)
    ensures mdl.Some? ==>
              && table[..] == Table(mdl.value.frames, old(table[entriesCount]), nextPa)
              && memory.pages == Prefilled(old(memory.pages), mdl.value.frames)
  {
    if pages.None? {
      return None;
    }
    var frames := pages.value.frames;
    memory.pages := Prefilled(memory.pages, frames);
    for i := 0 to entriesCount
      invariant forall j | 0 <= j < i :: table[j] == RegionEntry(entriesCount, j, frames[j])
      invariant table[entriesCount] == old(table[entriesCount])
      invariant memory.pages == Prefilled(old(memory.pages), frames)
    {
      table[i] := TopaEntry(false, InterruptsAt(entriesCount, i), false, SIZE4K, frames[i] % FIELD52);
    }
    var end := table[entriesCount].(base := nextPa / PAGE_SIZE % FIELD52);
    table[entriesCount] := end.(stop := false, pmi := false, end := true);
    assert table[..] == Table(frames, old(table[entriesCount]), nextPa);
    return pages;
  }

  // ------------------------------------------------------------------ walking the ring

  /** Where the next byte goes. */
  datatype Position = Position(entry: nat, offset: nat)

  const FRONT: Position := Position(0, 0)

  /** The next position, and whether a region that asks for an interrupt has just been filled. None: output has
      stopped, or has left for some other table. */
  datatype Moved = Moved(to: Option<Position>, interrupt: bool)

  /** The bytes of an entry's region, by its size code. */
  function RegionSize(e: TopaEntry): nat {
    PAGE_SIZE * Pow2(e.size)
  }

  /** One byte on. A full region leads to the next entry unless it asks to stop. An end entry leads to the table it
      names; one that asks for an interrupt or a stop is an error. */
  function Advance(t: seq<TopaEntry>, tablePa: nat, p: Position): Moved
    requires p.entry + 1 < |t|
  {
    if p.offset + 1 < RegionSize(t[p.entry]) then Moved(Some(p.(offset := p.offset + 1)), false)
    else
      var next := t[p.entry + 1];
      var to := if t[p.entry].stop then None
                else if !next.end then Some(Position(p.entry + 1, 0))
                else if next.base * PAGE_SIZE == tablePa && !next.pmi && !next.stop then Some(FRONT)
                else None;
      Moved(to, t[p.entry].pmi)
  }

  predicate Fits(frames: seq<nat>) {
    forall i | 0 <= i < |frames| :: frames[i] < FIELD52
  }

  /** A table whose regions are the given frames in order, one page each and none of them stopping, and whose end entry
      leads to the page the table is in. */
  ghost predicate IsRing(t: seq<TopaEntry>, frames: seq<nat>, tablePa: nat) {
    var n := |frames|;
    && 0 < n && |t| == n + 1
    && (forall i | 0 <= i < n :: !t[i].end && (t[i].pmi <==> InterruptsAt(n, i)) && t[i].base == frames[i])
    && (forall i | 0 <= i < n :: !t[i].stop && t[i].size == 0)
    && t[n].end && !t[n].pmi && !t[n].stop && t[n].base == tablePa / PAGE_SIZE
  }

  /** The table built for n frames is a ring of exactly those frames, provided the frame numbers fit their field. */
  lemma TableIsRing(frames: seq<nat>, was: TopaEntry, tablePa: nat)
    requires 0 < |frames| && tablePa < 0x1_0000_0000_0000_0000
    ensures IsRing(Table(frames, was, tablePa), frames, tablePa) <==> Fits(frames)
  {
    var t := Table(frames, was, tablePa);
    assert forall i | 0 <= i < |frames| :: t[i].base == frames[i] % FIELD52;
    if Fits(frames) {
      assert forall i | 0 <= i < |frames| :: frames[i] % FIELD52 == frames[i];
    } else {
      var i :| 0 <= i < |frames| && frames[i] >= FIELD52;
      assert t[i].base != frames[i];
    }
  }

  /** Output after b bytes from the front; None once it has left the table. */
  function Walk(t: seq<TopaEntry>, tablePa: nat, b: nat): Option<Position> {
    if b == 0 then Some(FRONT)
    else
      var p := Walk(t, tablePa, b - 1);
      if p.None? || p.value.entry + 1 >= |t| then None else Advance(t, tablePa, p.value).to
  }

  /** Whether writing byte b (counted from one) fills the region that interrupts. */
  predicate InterruptAfter(t: seq<TopaEntry>, tablePa: nat, b: nat)
    requires 0 < b
  {
    var p := Walk(t, tablePa, b - 1);
    p.Some? && p.value.entry + 1 < |t| && Advance(t, tablePa, p.value).interrupt
  }

  /** b bytes on: region b / 4096 around the ring of n, at offset b % 4096. */
  function Around(n: nat, b: nat): Position
    requires 0 < n
  {
    Position(b / PAGE_SIZE % n, b % PAGE_SIZE)
  }

  lemma AroundStep(n: nat, b: nat)
    requires 0 < n
    ensures var p := Around(n, b);
            p.entry < n &&
            Around(n, b + 1) == if p.offset + 1 < PAGE_SIZE then p.(offset := p.offset + 1)
                                else if p.entry + 1 < n then Position(p.entry + 1, 0) else FRONT
  {
    var q := b / PAGE_SIZE;
    if b % PAGE_SIZE + 1 == PAGE_SIZE {
      assert (b + 1) / PAGE_SIZE == q + 1;
      NextModulo(q, n);
    } else {
      assert (b + 1) / PAGE_SIZE == q;
    }
  }

  lemma NextModulo(q: nat, n: nat)
    requires 0 < n
    ensures q % n < n && (q + 1) % n == if q % n + 1 < n then q % n + 1 else 0
  {
    var k, r := q / n, q % n;
    assert q == n * k + r;
    if r + 1 < n {
      QuotientUnique(q + 1, n, k, r + 1);
    } else {
      assert q + 1 == n * (k + 1) + 0 by { assert n * (k + 1) == n * k + n; }
      QuotientUnique(q + 1, n, k + 1, 0);
    }
  }

  lemma QuotientUnique(x: nat, d: nat, q: nat, r: nat)
    requires 0 < d && r < d && x == d * q + r
    ensures x / d == q && x % d == r
  {
    var q', r' := x / d, x % d;
    assert x == d * q' + r' && 0 <= r' < d;
    assert d * (q' - q) == d * q' - d * q == r - r';
    if q < q' {
      Monotone(d, 1, q' - q);
    } else if q' < q {
      Monotone(d, q' - q, -1);
    }
  }

  lemma Monotone(d: nat, a: int, b: int)
    requires a <= b
    ensures d * a <= d * b
  {
  }

  /** On a page-aligned table output circles the n page frames for ever. */
  lemma {:induction false} WalkIsAround(t: seq<TopaEntry>, frames: seq<nat>, tablePa: nat, b: nat)
    requires IsRing(t, frames, tablePa) && tablePa % PAGE_SIZE == 0
    ensures Walk(t, tablePa, b) == Some(Around(|frames|, b))
    decreases b
  {
    if b != 0 {
      WalkIsAround(t, frames, tablePa, b - 1);
      AroundStep(|frames|, b - 1);
    } else {
      NextModulo(0, |frames|);
    }
  }

  /** The first lap is the same whatever the table's address. */
  lemma {:induction false} FirstLap(t: seq<TopaEntry>, frames: seq<nat>, tablePa: nat, b: nat)
    requires IsRing(t, frames, tablePa) && b < |frames| * PAGE_SIZE
    ensures Walk(t, tablePa, b) == Some(Position(b / PAGE_SIZE, b % PAGE_SIZE))
    decreases b
  {
    if b != 0 {
      FirstLap(t, frames, tablePa, b - 1);
      assert (b - 1) / PAGE_SIZE + 1 <= |frames|;
    }
  }

  /** The walk closes on the front entry exactly when the table starts on a page boundary. */
  lemma RingClosesIff(t: seq<TopaEntry>, frames: seq<nat>, tablePa: nat)
    requires IsRing(t, frames, tablePa)
    ensures Walk(t, tablePa, |frames| * PAGE_SIZE) == Some(FRONT) <==> tablePa % PAGE_SIZE == 0
  {
    var n := |frames|;
    FirstLap(t, frames, tablePa, n * PAGE_SIZE - 1);
    assert (n * PAGE_SIZE - 1) / PAGE_SIZE == n - 1;
  }

  /** One interrupt per lap, one page before the ring comes round; a ring of one page never interrupts. */
  lemma OneInterruptPerLap(t: seq<TopaEntry>, frames: seq<nat>, tablePa: nat, b: nat)
    requires IsRing(t, frames, tablePa) && tablePa % PAGE_SIZE == 0 && 0 < b && |frames| < 0x1_0000_0000
    ensures var n := |frames|;
            InterruptAfter(t, tablePa, b) <==> 2 <= n && b % PAGE_SIZE == 0 && b / PAGE_SIZE % n == n - 1
  {
    var n := |frames|;
    WalkIsAround(t, frames, tablePa, b - 1);
    AroundStep(n, b - 1);
    var p := Around(n, b - 1);
    if p.offset + 1 == PAGE_SIZE {
      assert b % PAGE_SIZE == 0;
      assert 2 <= n ==> (p.entry == n - 2 <==> Around(n, b).entry == n - 1);
    }
  }

  // ------------------------------------------------------------------ where bytes go

  function Address(frame: nat, offset: nat): nat {
    frame * PAGE_SIZE + offset
  }

  /** The physical address the byte after b others is written to. */
  function AddressAfter(t: seq<TopaEntry>, tablePa: nat, b: nat): Option<nat> {
    var p := Walk(t, tablePa, b);
    if p.None? || p.value.entry >= |t| then None else Some(Address(t[p.value.entry].base, p.value.offset))
  }

  /** The byte after b others goes to offset b % 4096 of frame b / 4096, counted round the frames. */
  lemma ByteGoesTo(t: seq<TopaEntry>, frames: seq<nat>, tablePa: nat, b: nat)
    requires IsRing(t, frames, tablePa) && tablePa % PAGE_SIZE == 0
    ensures b / PAGE_SIZE % |frames| < |frames|
    ensures AddressAfter(t, tablePa, b) == Some(frames[b / PAGE_SIZE % |frames|] * PAGE_SIZE + b % PAGE_SIZE)
  {
    WalkIsAround(t, frames, tablePa, b);
    AroundStep(|frames|, b);
  }

  predicate Distinct(frames: seq<nat>) {
    forall i, j | 0 <= i < j < |frames| :: frames[i] != frames[j]
  }

  /** The place in the buffer of the byte after b others. */
  lemma PlaceInBuffer(n: nat, b: nat)
    requires 0 < n
    ensures var p := Around(n, b);
            p.entry < n && p.offset < PAGE_SIZE && p.entry * PAGE_SIZE + p.offset == b % (n * PAGE_SIZE)
  {
    var q, r := b / PAGE_SIZE, b % PAGE_SIZE;
    NextModulo(q, n);
    var k, e := q / n, q % n;
    assert q == n * k + e;
    assert b == PAGE_SIZE * (n * k + e) + r;
    assert PAGE_SIZE * (n * k) == n * PAGE_SIZE * k;
    assert (e + 1) * PAGE_SIZE <= n * PAGE_SIZE;
    QuotientUnique(b, n * PAGE_SIZE, k, e * PAGE_SIZE + r);
  }

  /** Two bytes of the output share an address exactly when they are whole laps apart, so no lap overwrites itself. */
  lemma SameAddressIff(t: seq<TopaEntry>, frames: seq<nat>, tablePa: nat, b: nat, b': nat)
    requires IsRing(t, frames, tablePa) && tablePa % PAGE_SIZE == 0 && Distinct(frames)
    ensures var size := |frames| * PAGE_SIZE;
            AddressAfter(t, tablePa, b) == AddressAfter(t, tablePa, b') <==> b % size == b' % size
  {
    var n := |frames|;
    ByteGoesTo(t, frames, tablePa, b);
    ByteGoesTo(t, frames, tablePa, b');
    PlaceInBuffer(n, b);
    PlaceInBuffer(n, b');
    SplitAddress(frames[Around(n, b).entry], b % PAGE_SIZE, frames[Around(n, b').entry], b' % PAGE_SIZE);
    SplitAddress(Around(n, b).entry, b % PAGE_SIZE, Around(n, b').entry, b' % PAGE_SIZE);
  }

  lemma SplitAddress(f: nat, o: nat, f': nat, o': nat)
    requires o < PAGE_SIZE && o' < PAGE_SIZE
    ensures Address(f, o) == Address(f', o') <==> f == f' && o == o'
  {
  }

  /** Writing one byte of a buffer changes that byte of it and no other. */
  lemma WrittenContents(ram: Ram, frames: seq<nat>, i: nat, offset: nat, b: byte)
    requires Distinct(frames) && i < |frames| && offset < PAGE_SIZE
    ensures i * PAGE_SIZE + offset < |frames| * PAGE_SIZE
    ensures Contents(Written(ram, frames[i], offset, b), frames) == Contents(ram, frames)[i * PAGE_SIZE + offset := b]
  {
    var ram' := Written(ram, frames[i], offset, b);
    assert (i + 1) * PAGE_SIZE <= |frames| * PAGE_SIZE;
    forall k | 0 <= k < |frames| * PAGE_SIZE
      ensures Contents(ram', frames)[k] == Contents(ram, frames)[i * PAGE_SIZE + offset := b][k]
    {
      SplitAddress(k / PAGE_SIZE, k % PAGE_SIZE, i, offset);
    }
  }

  /** Writing to a frame a buffer does not have leaves the buffer alone. */
  lemma WrittenElsewhere(ram: Ram, frames: seq<nat>, frame: nat, offset: nat, b: byte)
    requires frame !in frames && offset < PAGE_SIZE
    ensures Contents(Written(ram, frame, offset, b), frames) == Contents(ram, frames)
  {
    var ram' := Written(ram, frame, offset, b);
    assert forall f | f in frames :: PageOf(ram', f) == PageOf(ram, f);
  }

  lemma PrefilledContents(ram: Ram, frames: seq<nat>)
    ensures Contents(Prefilled(ram, frames), frames) == Filled(|frames| * PAGE_SIZE)
  {
    assert forall f | f in frames :: PageOf(Prefilled(ram, frames), f) == Filled(PAGE_SIZE);
  }

  lemma PrefilledElsewhere(ram: Ram, frames: seq<nat>, others: seq<nat>)
    requires forall f | f in frames :: f !in others
    ensures Contents(Prefilled(ram, others), frames) == Contents(ram, frames)
  {
    assert forall f | f in frames :: PageOf(Prefilled(ram, others), f) == PageOf(ram, f);
  }

  // ------------------------------------------------------------------ the position register

  /** IA32_RTIT_OUTPUT_MASK_PTRS: seven one bits, the entry index above them, the offset in the upper half. */
  function Register(p: Position): nat {
    p.offset * 0x1_0000_0000 + p.entry * 128 + 0x7F
  }

  function MaskOrTableOffset(raw: nat): nat {
    raw % 0x1_0000_0000
  }

  function OutputOffset(raw: nat): nat {
    raw / 0x1_0000_0000
  }

  /** Up to the end of the last region but one, the interrupt comes at that end and not before. */
  lemma FirstInterrupt(n: nat, k: nat)
    requires 2 <= n && k < (n - 1) * PAGE_SIZE
    ensures (k + 1) % PAGE_SIZE == 0 && (k + 1) / PAGE_SIZE % n == n - 1 <==> k + 1 == (n - 1) * PAGE_SIZE
  {
    var q := (k + 1) / PAGE_SIZE;
    assert q <= n - 1;
    QuotientUnique(q, n, 0, q);
  }

  /** Where the register says the next byte goes. */
  function PositionOf(raw: nat): Position {
    Position(MaskOrTableOffset(raw) / 128, OutputOffset(raw))
  }

  lemma PositionOfRegister(p: Position)
    requires p.entry <= MAX_ENTRIES && p.offset < PAGE_SIZE
    ensures PositionOf(Register(p)) == p
  {
    RegisterFields(p);
  }

  /** The byte count as published shifts the table offset by eight. */
  function PublishedSize(raw: nat): nat {
    (OutputOffset(raw) + MaskOrTableOffset(raw) / 256 * PAGE_SIZE) % 0x1_0000_0000
  }

  /** The shift that drops just the seven one bits. */
  function IntendedSize(raw: nat): nat {
    (OutputOffset(raw) + MaskOrTableOffset(raw) / 128 * PAGE_SIZE) % 0x1_0000_0000
  }

  /** The published count, whatever the register says, is a 32-bit number: it wraps where the sum does not fit. */
  lemma PublishedFits(raw: nat)
    ensures PublishedSize(raw) <= 0xFFFF_FFFF
    ensures (raw / 0x1_0000_0000 + raw % 0x1_0000_0000 / 256 * 4096 - PublishedSize(raw)) % 0x1_0000_0000 == 0
  {
  }

  lemma RegisterFields(p: Position)
    requires p.entry < 0x100000 && p.offset < PAGE_SIZE
    ensures OutputOffset(Register(p)) == p.offset
    ensures MaskOrTableOffset(Register(p)) == p.entry * 128 + 0x7F
  {
  }

  lemma RegisterSizes(p: Position)
    requires p.entry < 0xFFFFF && p.offset < PAGE_SIZE
    ensures IntendedSize(Register(p)) == p.entry * PAGE_SIZE + p.offset
    ensures PublishedSize(Register(p)) == p.entry / 2 * PAGE_SIZE + p.offset
  {
    RegisterFields(p);
    assert (p.entry * 128 + 0x7F) / 128 == p.entry;
    assert (p.entry * 128 + 0x7F) / 256 == p.entry / 2;
  }

  /** After b bytes, fewer than the buffer holds, the intended formula counts b. The published one counts b exactly
      when the output has not left the first page; beyond it, every second page is missing. */
  lemma SizeIff(t: seq<TopaEntry>, frames: seq<nat>, tablePa: nat, b: nat)
    requires IsRing(t, frames, tablePa) && |frames| <= MAX_ENTRIES && b < |frames| * PAGE_SIZE
    ensures var p := Walk(t, tablePa, b);
            && p.Some? && IntendedSize(Register(p.value)) == b
            && PublishedSize(Register(p.value)) == b / PAGE_SIZE / 2 * PAGE_SIZE + b % PAGE_SIZE
            && (PublishedSize(Register(p.value)) == b <==> b < PAGE_SIZE)
  {
    FirstLap(t, frames, tablePa, b);
    RegisterSizes(Position(b / PAGE_SIZE, b % PAGE_SIZE));
  }
}
