/** The queue of buffer descriptions, and the counters packets and sequences are numbered with. */
module DriverUtils {
  import opened PacketTable
  import opened Handoff
  import opened Tickets

  datatype NtStatus = Success | InvalidParameter1 | InsufficientResources | NoMoreEntries | WaitFailed

  /** QUEUE_HEAD_STRUCTURE. The lock makes every operation below one atomic step. */
  class QueueHead<T> {
    var elements: seq<T>

    constructor ()
      ensures elements == []
    {
      elements := [];
    }
  }

  /** What the queue holds after one try to enqueue. */
  function AfterEnqueue<T>(was: seq<T>, data: T, memory: bool): seq<T> {
    if memory then was + [data] else was
  }

  /** What it holds after a batch: elements go in one by one until one finds no memory. */
  function AfterBatch<T>(was: seq<T>, data: seq<T>, memory: seq<bool>): seq<T>
    requires |memory| == |data|
    decreases |data|
  {
    if data == [] || !memory[0] then was else AfterBatch(was + [data[0]], data[1..], memory[1..])
  }

  /** memory says whether the allocator provides the list cell. */
  method DuEnqueueElement<T>(queue: QueueHead?<T>, data: T, memory: bool) returns (status: NtStatus)
    modifies queue
    ensures status == if queue == null then InvalidParameter1 else if memory then Success else InsufficientResources
    ensures queue != null ==> queue.elements == AfterEnqueue(old(queue.elements), data, memory)
  {
    if queue == null {
      return InvalidParameter1;
    }
    if !memory {
      return InsufficientResources;
    }
    queue.elements := queue.elements + [data];
    return Success;
  }

  method DuDequeueElement<T>(queue: QueueHead?<T>) returns (status: NtStatus, data: Option<T>)
    modifies queue
    ensures queue == null ==> status == InvalidParameter1 && data == None
    ensures queue != null && old(queue.elements) == [] ==>
              status == NoMoreEntries && data == None && queue.elements == []
    ensures queue != null && old(queue.elements) != [] ==>
              status == Success && data.Some? && old(queue.elements) == [data.value] + queue.elements
  {
    if queue == null {
      return InvalidParameter1, None;
    }
    if queue.elements == [] {
      return NoMoreEntries, None;
    }
    status, data := Success, Some(queue.elements[0]);
    queue.elements := queue.elements[1..];
  }

  /** Stops at the first failure; what went in before it stays in. */
  method DuEnqueueElements<T>(queue: QueueHead?<T>, data: seq<T>, memory: seq<bool>) returns (status: NtStatus)
    requires |memory| == |data|
    modifies queue
    ensures queue == null ==> status == if data == [] then Success else InvalidParameter1
    ensures queue != null ==> queue.elements == AfterBatch(old(queue.elements), data, memory)
    ensures queue != null ==> status == if false in memory then InsufficientResources else Success
  {
    status := Success;
    for i := 0 to |data|
      invariant queue == null ==> i == 0
      invariant forall j | 0 <= j < i :: memory[j]
      invariant queue != null ==>
                  AfterBatch(queue.elements, data[i..], memory[i..]) == AfterBatch(old(queue.elements), data, memory)
      invariant status == Success
    {
      status := DuEnqueueElement(queue, data[i], memory[i]);
      if status != Success {
        return status;
      }
      assert data[i..][1..] == data[i + 1..] && memory[i..][1..] == memory[i + 1..];
    }
  }

  /** A batch puts in exactly the elements before its first failure, in order. */
  lemma {:induction false} BatchIsPrefix<T>(was: seq<T>, data: seq<T>, memory: seq<bool>, n: nat)
    requires |memory| == |data| && n <= |data|
    requires (forall i | 0 <= i < n :: memory[i]) && (n < |data| ==> !memory[n])
    ensures AfterBatch(was, data, memory) == was + data[..n]
    decreases |data|
  {
    if n > 0 {
      BatchIsPrefix(was + [data[0]], data[1..], memory[1..], n - 1);
      assert was + data[..n] == was + [data[0]] + data[1..][..n - 1];
    }
  }

  /** The driver's counters: 32-bit, wrapping. */
  class Counters {
    var packetId: nat
    var sequenceId: nat

    ghost predicate Valid()
      reads this
    {
      packetId < WORD && sequenceId < WORD
    }

    constructor ()
      ensures Valid() && packetId == 0 && sequenceId == 0
    {
      packetId, sequenceId := 0, 0;
    }

    method DuGetPacketId() returns (id: nat)
      requires Valid()
      modifies this`packetId
      ensures Valid() && id == old(packetId) && packetId == (old(packetId) + 1) % WORD
    {
      id := packetId;
      packetId := if packetId + 1 == WORD then 0 else packetId + 1;
    }

    /** waited says whether the mutex was obtained. */
    method DuGetSequenceId(waited: bool) returns (status: NtStatus, id: nat)
      requires Valid()
      ensures if waited then status == Success && id == sequenceId else status == WaitFailed && id == 0
    {
      if waited {
        return Success, sequenceId;
      }
      return WaitFailed, 0;
    }

    method DuIncreaseSequenceId(waited: bool) returns (ok: bool)
      requires Valid()
      modifies this`sequenceId
      ensures Valid() && ok == waited && sequenceId == if waited then (old(sequenceId) + 1) % WORD else old(sequenceId)
    {
      if !waited {
        return false;
      }
      sequenceId := if sequenceId + 1 == WORD then 0 else sequenceId + 1;
      return true;
    }

    /** The numbering half of a session's start: a new sequence whose FIRST packet has id 0. */
    method StartSession(waited: bool) returns (first: nat)
      requires Valid()
      modifies this
      ensures Valid() && first == 0 && packetId == 1
      ensures sequenceId == if waited then (old(sequenceId) + 1) % WORD else old(sequenceId)
    {
      var _ := DuIncreaseSequenceId(waited);
      packetId := 0;
      first := DuGetPacketId();
    }
  }

  /** The id a deferred call on core c writes into its packet, the session standing at s, is the one the hand-off gives
      it, and the counter keeps step with the ids taken. */
  method PacketIdFor(counters: Counters, ghost s: State, ghost c: nat) returns (id: nat)
    requires counters.Valid() && Ticketed(s) && Can(s, TakeId(c)) && counters.packetId == |s.tickets| % WORD
    modifies counters`packetId
    ensures counters.Valid() && id == Stamp(s, c).id && counters.packetId == |Do(s, TakeId(c)).tickets| % WORD
  {
    CounterFollows(s, TakeId(c), counters.packetId);
    id := counters.DuGetPacketId();
  }
}
