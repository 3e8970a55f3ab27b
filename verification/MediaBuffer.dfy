/** The media buffer: parallel arrays indexed by the position of a chunk.  A stored message is the
    sequence of its bytes. */
module MediaBuffer {
  import opened Keys
  import opened Messages
  import opened Wire
  import opened Words

  /** What the parallel arrays hold for one position. */
  datatype Slot = Slot(message: Option<seq<Byte>>, chunkSize: Uint16, headerSize: Uint16, hop: Byte, tries: Byte,
                       duration: Uint32, id: Uint32, available: bool)

  function BodySize(m: seq<Byte>): int {
    Value(m, 2, 16)
  }

  /** The position field of a data message. */
  function Position(m: seq<Byte>): Uint16 {
    ToUint16(Value(m, 12, 16))
  }

  /** The slot of a message that was just inserted; the duration is taken from the fifth field. */
  function Stored(m: seq<Byte>, available: bool): Slot {
    Slot(Some(m), ToUint16(HeaderSize(m) + BodySize(m)), ToUint16(HeaderSize(m)), ToUint8(Value(m, 6, 8)),
         ToUint8(Value(m, 7, 8)), ToUint32(Value(m, 14, 32)), ToUint32(Value(m, 8, 32)), available)
  }

  /** The number of slots that hold a message. */
  function Occupied(slots: seq<Slot>): nat {
    if slots == [] then 0
    else Occupied(slots[..|slots| - 1]) + if slots[|slots| - 1].message.Some? then 1 else 0
  }

  lemma {:induction false} OccupiedBound(slots: seq<Slot>)
    ensures Occupied(slots) <= |slots|
  {
    if slots != [] { OccupiedBound(slots[..|slots| - 1]); }
  }

  lemma {:induction false} NoneOccupied(slots: seq<Slot>)
    requires forall i :: 0 <= i < |slots| ==> slots[i].message.None?
    ensures Occupied(slots) == 0
  {
    if slots != [] { NoneOccupied(slots[..|slots| - 1]); }
  }

  lemma {:induction false} OccupiedUpdate(slots: seq<Slot>, pos: nat, slot: Slot)
    requires pos < |slots|
    ensures Occupied(slots[pos := slot]) + (if slots[pos].message.Some? then 1 else 0)
            == Occupied(slots) + if slot.message.Some? then 1 else 0
  {
    var n := |slots| - 1;
    if pos == n {
      assert slots[pos := slot][..n] == slots[..n];
    } else {
      OccupiedUpdate(slots[..n], pos, slot);
      assert slots[pos := slot][..n] == slots[..n][pos := slot];
    }
  }

  class MediaBuffer {
    const maxBufferSize: Uint16
    const buffer: array<Option<seq<Byte>>>
    const chunkSize: array<Uint16>
    const headerSize: array<Uint16>
    const hop: array<Byte>
    const tries: array<Byte>
    const duration: array<Uint32>
    const id: array<Uint32>
    const bitmap: array<bool>
    var bufferSize: Uint16

    ghost const Repr: set<object>

    ghost predicate Shaped()
      reads this
    {
      && Repr == {buffer, chunkSize, headerSize, hop, tries, duration, id, bitmap} && this !in Repr
      && chunkSize != headerSize && hop != tries && duration != id
      && buffer.Length == chunkSize.Length == headerSize.Length == hop.Length == tries.Length == maxBufferSize as int
      && duration.Length == id.Length == bitmap.Length == maxBufferSize as int
    }

    function At(i: nat): Slot
      requires Shaped() && i < maxBufferSize
      reads this, Repr
    {
      Slot(buffer[i], chunkSize[i], headerSize[i], hop[i], tries[i], duration[i], id[i], bitmap[i])
    }

    ghost function Contents(): (slots: seq<Slot>)
      requires Shaped()
      reads this, Repr
      ensures |slots| == maxBufferSize && forall i :: 0 <= i < maxBufferSize ==> slots[i] == At(i)
    {
      seq(maxBufferSize, i requires 0 <= i < maxBufferSize && Shaped() reads this, Repr => At(i))
    }

    /** The count of occupied slots is exact. */
    ghost predicate Valid()
      reads this, Repr
    {
      Shaped() && bufferSize == Occupied(Contents())
    }

    /** An empty buffer; the side arrays start with whatever the memory holds. */
    constructor (bsize: Uint16)
      ensures Valid() && fresh(Repr) && maxBufferSize == bsize && bufferSize == 0
      ensures forall i :: 0 <= i < bsize ==> At(i).message == None && !At(i).available
    {
      maxBufferSize, bufferSize := bsize, 0;
      var slots := new Option<seq<Byte>>[bsize](_ => None);
      var sizes, headers := new Uint16[bsize], new Uint16[bsize];
      var hops, attempts := new Byte[bsize], new Byte[bsize];
      var durations, ids := new Uint32[bsize], new Uint32[bsize];
      var bits := new bool[bsize](_ => false);
      buffer, chunkSize, headerSize, hop, tries := slots, sizes, headers, hops, attempts;
      duration, id, bitmap := durations, ids, bits;
      Repr := {slots, sizes, headers, hops, attempts, durations, ids, bits};
      new;
      StartsEmpty();
    }

    lemma StartsEmpty()
      requires Shaped() && forall i :: 0 <= i < maxBufferSize ==> buffer[i] == None
      ensures Occupied(Contents()) == 0
    {
      NoneOccupied(Contents());
    }

    method WriteSlot(pos: Uint16, slot: Slot)
      requires Shaped() && pos < maxBufferSize
      modifies Repr
      ensures Shaped() && Contents() == old(Contents())[pos := slot]
    {
      buffer[pos] := slot.message;
      chunkSize[pos] := slot.chunkSize;
      headerSize[pos] := slot.headerSize;
      id[pos] := slot.id;
      hop[pos] := slot.hop;
      tries[pos] := slot.tries;
      duration[pos] := slot.duration;
      bitmap[pos] := slot.available;
    }

    method Insert(m: seq<Byte>, available: bool)
      requires Valid() && Position(m) < maxBufferSize
      modifies this, Repr
      ensures Valid() && Contents() == old(Contents())[Position(m) := Stored(m, available)]
    {
      var pos := Position(m);
      ghost var before := Contents();
      assert before[pos] == At(pos);
      OccupiedUpdate(before, pos, Stored(m, available));
      OccupiedBound(before[pos := Stored(m, available)]);
      if buffer[pos] == None {
        bufferSize := bufferSize + 1;
      }
      assert Contents() == before;
      WriteSlot(pos, Stored(m, available));
    }

    method SetAvailable(pos: Uint16)
      requires Valid() && pos < maxBufferSize
      modifies bitmap
      ensures Valid() && Contents() == old(Contents())[pos := old(At(pos)).(available := true)]
    {
      ghost var before, slot := Contents(), At(pos).(available := true);
      bitmap[pos] := true;
      assert Contents() == before[pos := slot];
      OccupiedUpdate(before, pos, slot);
    }

    method Available(pos: Uint16) returns (r: bool)
      requires Valid() && pos < maxBufferSize
      ensures r <==> At(pos).message.Some? && At(pos).available
    {
      r := buffer[pos].Some? && bitmap[pos];
    }

    /** The side array and the message itself. */
    method SetDuration(pos: Uint16, d: Uint32)
      requires Valid() && pos < maxBufferSize && buffer[pos].Some? && |buffer[pos].value| >= DATA_HEADER_SIZE
      modifies Repr
      ensures Valid()
      ensures Contents() == old(Contents())[pos := old(At(pos)).(duration := d,
                message := Some(Applied(old(buffer[pos]).value, Setter.SetDuration(d))))]
    {
      ghost var before := Contents();
      ghost var slot := At(pos).(duration := d, message := Some(Applied(buffer[pos].value, Setter.SetDuration(d))));
      duration[pos] := d;
      buffer[pos] := Some(Applied(buffer[pos].value, Setter.SetDuration(d)));
      assert Contents() == before[pos := slot];
      OccupiedUpdate(before, pos, slot);
    }

    /** The checksum of a stored message, through the pointer the buffer hands out. */
    method SetIntegrity(pos: Uint16)
      requires Valid() && pos < maxBufferSize && buffer[pos].Some? && |buffer[pos].value| >= HEADER_SIZE
      modifies buffer
      ensures Valid()
      ensures Contents() == old(Contents())[pos := old(At(pos)).(message := Some(WithChecksum(old(buffer[pos]).value)))]
    {
      ghost var before := Contents();
      ghost var slot := At(pos).(message := Some(WithChecksum(buffer[pos].value)));
      buffer[pos] := Some(WithChecksum(buffer[pos].value));
      assert Contents() == before[pos := slot];
      OccupiedUpdate(before, pos, slot);
    }
  }
}
