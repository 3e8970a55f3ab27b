/**
 The source of the stream: every datagram becomes a chunk in a ring of `B` slots, and a chunk is
 offered once the next one has arrived.  The ring agrees with the unbounded stream, and a request
 strictly before the tip is answered with exactly the chunk it names.
 */
module SourceRing {
  import opened Arithmetic
  import opened Keys
  import opened Words
  import opened Wire
  import opened Messages
  import opened ChunkId
  import MediaBuffer

  const MTU: nat := 1500

  /** A datagram, the time stamp its chunk gets, and the milliseconds since the one before. */
  datatype Arrival = Arrival(media: seq<Byte>, time: Uint32, gap: Uint32)

  ghost predicate Fits(a: Arrival) {
    |a.media| <= MTU
  }

  /** The header fields of chunk `k`, but for the checksum and the duration. */
  ghost predicate NamesChunk(m: seq<Byte>, cycle: int, position: int, a: Arrival) {
    && HeaderSize(m) == DATA_HEADER_SIZE && MediaBuffer.BodySize(m) == |a.media|
    && Value(m, 6, 8) == 0 && Value(m, 7, 8) == 0
    && ToUint32(Value(m, 8, 32)) == cycle && Value(m, 12, 16) == position
    && ToUint32(Value(m, 14, 32)) == a.time
  }

  /** `m` is the data message of chunk `k`. */
  ghost predicate IsChunk(m: seq<Byte>, B: Uint16, k: nat, a: Arrival)
    requires B > 0
  {
    |m| == DATA_HEADER_SIZE + |a.media| && m[DATA_HEADER_SIZE..] == a.media && NamesChunk(m, k / B, k % B, a)
  }

  /** The slot of chunk `k` when `n` chunks have arrived: the chunk before the last and older ones are
      available, intact, and carry the measured duration. */
  ghost predicate Holds(slot: MediaBuffer.Slot, B: Uint16, arrivals: seq<Arrival>, k: nat)
    requires B > 0 && k < |arrivals|
  {
    && slot.message.Some? && IsChunk(slot.message.value, B, k, arrivals[k])
    && slot.available == (k + 2 <= |arrivals|)
    && (slot.available ==> Intact(slot.message.value))
    && slot.id == k / B && slot.hop == 0 && slot.tries == 0 && slot.chunkSize == DATA_HEADER_SIZE + |arrivals[k].media|
    && var measured := slot.available && arrivals[k + 1].gap != 0;
       && slot.duration == (if measured then arrivals[k + 1].gap else arrivals[k].time)
       && ToUint32(Value(slot.message.value, 18, 32)) == if measured then arrivals[k + 1].gap else 0
  }

  /** The last `B` chunks of the stream, each in the slot of its position; the other slots are empty. */
  ghost predicate Ring(slots: seq<MediaBuffer.Slot>, B: Uint16, arrivals: seq<Arrival>)
    requires B > 0
  {
    && |slots| == B
    && (forall k :: Recent(k, B, |arrivals|) ==> Holds(slots[k % B], B, arrivals, k))
    && (forall i :: |arrivals| <= i < B ==> slots[i].message.None?)
  }

  ghost predicate Recent(k: int, B: Uint16, n: nat) {
    0 <= k < n && n - B <= k
  }

  // ---- positions -----------------------------------------------------------------------

  lemma DistinctPositions(a: nat, b: nat, B: nat)
    requires B > 0 && a < b < a + B
    ensures a % B != b % B
  {
    var p := a % B + (b - a);
    if p < B {
      DivModUnique(b, a / B, p, B);
    } else {
      OneMore(a / B, B);
      DivModUnique(b, a / B + 1, p - B, B);
    }
  }

  lemma PreviousPosition(n: nat, B: nat)
    requires B > 0
    ensures n > 0 ==> (n - 1) % B == if n % B == 0 then B - 1 else n % B - 1
    ensures n == 0 ==> n % B == 0
  {
    if n > 0 {
      if n % B == 0 {
        DivModUnique(n - 1, n / B - 1, B - 1, B);
      } else {
        DivModUnique(n - 1, n / B, n % B - 1, B);
      }
    } else {
      DivModUnique(0, 0, 0, B);
    }
  }

  lemma SmallPosition(n: nat, B: nat)
    requires n < B
    ensures n % B == n && n / B == 0
  {
    DivModUnique(n, 0, n, B);
  }

  // ---- messages ------------------------------------------------------------------------

  /** The values of the header depend on its bytes alone. */
  lemma SameHeader(b: seq<Byte>, c: seq<Byte>)
    requires |b| >= DATA_HEADER_SIZE && |c| >= DATA_HEADER_SIZE && b[..DATA_HEADER_SIZE] == c[..DATA_HEADER_SIZE]
    ensures HeaderSize(c) == HeaderSize(b) && Value(c, 2, 16) == Value(b, 2, 16)
    ensures Value(c, 6, 8) == Value(b, 6, 8) && Value(c, 7, 8) == Value(b, 7, 8) && Value(c, 8, 32) == Value(b, 8, 32)
    ensures Value(c, 12, 16) == Value(b, 12, 16) && Value(c, 14, 32) == Value(b, 14, 32)
    ensures Value(c, 18, 32) == Value(b, 18, 32)
  {
    forall p | 0 <= p < DATA_HEADER_SIZE ensures At(c, p) == At(b, p) {
      assert b[..DATA_HEADER_SIZE][p] == c[..DATA_HEADER_SIZE][p];
    }
  }

  lemma HeaderDecoded(b: seq<Byte>, values: seq<Int32>)
    requires Decode(b, 0, HEADER) == values
    ensures |values| == 4 && Value(b, 2, 16) == values[2]
  {
    StartsOfHeader(HEADER);
  }

  lemma FieldsDecoded(b: seq<Byte>, values: seq<Int32>)
    requires DataFields(b) == values
    ensures |values| == 6 && Value(b, 6, 8) == values[0] && Value(b, 7, 8) == values[1] && Value(b, 8, 32) == values[2]
    ensures Value(b, 12, 16) == values[3] && Value(b, 14, 32) == values[4] && Value(b, 18, 32) == values[5]
  {
    DataFieldsAre(b);
  }

  lemma IntRoundTrip(v: Uint32)
    ensures ToUint32(ToInt32(v)) == v
  {
  }

  lemma DecodedNames(h: seq<Byte>, cycle: Uint32, position: Uint16, a: Arrival, header: seq<Int32>, fields: seq<Int32>)
    requires Decode(h, 0, HEADER) == header && |header| == 4 && header[2] == |a.media|
    requires HeaderSize(h) == DATA_HEADER_SIZE
    requires DataFields(h) == fields && |fields| == 6
    requires fields[0] == fields[1] == fields[5] == 0 && fields[2] == ToInt32(cycle)
    requires fields[3] == position && fields[4] == ToInt32(a.time)
    ensures NamesChunk(h, cycle, position, a) && Value(h, 18, 32) == 0
  {
    HeaderDecoded(h, header);
    FieldsDecoded(h, fields);
    IntRoundTrip(cycle);
    IntRoundTrip(a.time);
  }

  /** A message with the same fields but the duration, and the same header and media, is the same chunk. */
  lemma SameChunk(m: seq<Byte>, r: seq<Byte>, B: Uint16, k: nat, a: Arrival)
    requires B > 0 && IsChunk(m, B, k, a) && |r| == |m| && r[DATA_HEADER_SIZE..] == m[DATA_HEADER_SIZE..]
    requires forall p :: 0 <= p < 18 && p != 4 && p != 5 ==> r[p] == m[p]
    ensures IsChunk(r, B, k, a)
  {
    assert forall p :: 0 <= p < 18 && p != 4 && p != 5 ==> At(r, p) == At(m, p);
  }

  /** Only the duration field changes. */
  lemma ChunkWithDuration(m: seq<Byte>, B: Uint16, k: nat, a: Arrival, d: Uint32)
    requires B > 0 && IsChunk(m, B, k, a)
    ensures var r := Applied(m, Setter.SetDuration(d)); IsChunk(r, B, k, a) && ToUint32(Value(r, 18, 32)) == d
  {
    var r := Applied(m, Setter.SetDuration(d));
    assert r[DATA_HEADER_SIZE..] == m[DATA_HEADER_SIZE..];
    SameChunk(m, r, B, k, a);
    DurationValue(m, d);
    IntRoundTrip(d);
  }

  /** The checksum word is not part of the chunk. */
  lemma ChunkWithChecksum(m: seq<Byte>, B: Uint16, k: nat, a: Arrival)
    requires B > 0 && IsChunk(m, B, k, a)
    ensures var r := WithChecksum(m);
            IsChunk(r, B, k, a) && Intact(r) && Value(r, 18, 32) == Value(m, 18, 32)
  {
    var r := WithChecksum(m);
    assert r[DATA_HEADER_SIZE..] == m[DATA_HEADER_SIZE..];
    SameChunk(m, r, B, k, a);
    SetThenCheck(m);
  }

  // ---- one datagram ----------------------------------------------------------------------

  /** The slot of the newest chunk. */
  lemma StoredFields(m: seq<Byte>, B: Uint16, k: nat, a: Arrival)
    requires B > 0 && Fits(a) && IsChunk(m, B, k, a)
    ensures MediaBuffer.Stored(m, false)
            == MediaBuffer.Slot(Some(m), DATA_HEADER_SIZE + |a.media|, DATA_HEADER_SIZE, 0, 0, a.time, k / B, false)
  {
  }

  lemma NewestHeld(m: seq<Byte>, B: Uint16, past: seq<Arrival>, a: Arrival)
    requires B > 0 && Fits(a) && IsChunk(m, B, |past|, a) && Value(m, 18, 32) == 0
    ensures MediaBuffer.Position(m) == |past| % B
    ensures Holds(MediaBuffer.Stored(m, false), B, past + [a], |past|)
  {
    assert (past + [a])[|past|] == a;
    StoredFields(m, B, |past|, a);
  }

  /** What is offered stays as it is when more chunks arrive. */
  lemma OfferedStays(slot: MediaBuffer.Slot, B: Uint16, past: seq<Arrival>, a: Arrival, k: nat)
    requires B > 0 && k + 2 <= |past| && Holds(slot, B, past, k)
    ensures Holds(slot, B, past + [a], k)
  {
    assert (past + [a])[k] == past[k] && (past + [a])[k + 1] == past[k + 1];
  }

  /** The slot of the chunk before the newest once it has been offered. */
  function Offered(slot: MediaBuffer.Slot, gap: Uint32): MediaBuffer.Slot
    requires slot.message.Some? && |slot.message.value| >= DATA_HEADER_SIZE
  {
    var measured := if gap == 0 then slot
                    else slot.(duration := gap, message := Some(Applied(slot.message.value, Setter.SetDuration(gap))));
    measured.(message := Some(WithChecksum(measured.message.value)), available := true)
  }

  lemma OfferedHeld(slot: MediaBuffer.Slot, B: Uint16, past: seq<Arrival>, a: Arrival, k: nat)
    requires B > 0 && k + 1 == |past| && Holds(slot, B, past, k)
    ensures Holds(Offered(slot, a.gap), B, past + [a], k)
  {
    var all := past + [a];
    assert all[k] == past[k] && all[k + 1] == a;
    var m := slot.message.value;
    if a.gap == 0 {
      ChunkWithChecksum(m, B, k, past[k]);
    } else {
      ChunkWithDuration(m, B, k, past[k], a.gap);
      ChunkWithChecksum(Applied(m, Setter.SetDuration(a.gap)), B, k, past[k]);
    }
  }

  /** The slots after one more datagram. */
  ghost predicate Advanced(slots: seq<MediaBuffer.Slot>, after: seq<MediaBuffer.Slot>, B: Uint16, n: nat,
                           newest: MediaBuffer.Slot, gap: Uint32)
    requires B >= 2
  {
    && |slots| == B && n % B < |slots|
    && if n == 0 then after == slots[n % B := newest]
       else
         && var last := slots[(n - 1) % B];
            last.message.Some? && |last.message.value| >= DATA_HEADER_SIZE
            && after == slots[n % B := newest][(n - 1) % B := Offered(last, gap)]
  }

  /** One chunk of the last `B` after the datagram: offered long ago, just offered, or the newest. */
  lemma ChunkAfter(slots: seq<MediaBuffer.Slot>, after: seq<MediaBuffer.Slot>, B: Uint16, past: seq<Arrival>,
                   a: Arrival, newest: MediaBuffer.Slot, k: nat)
    requires B >= 2 && Ring(slots, B, past) && Holds(newest, B, past + [a], |past|)
    requires Advanced(slots, after, B, |past|, newest, a.gap) && Recent(k, B, |past| + 1)
    ensures Holds(after[k % B], B, past + [a], k)
  {
    var n := |past|;
    if n > 0 { DistinctPositions(n - 1, n, B); }
    if k + 2 <= n {
      DistinctPositions(k, n, B);
      DistinctPositions(k, n - 1, B);
      assert Recent(k, B, n);
      OfferedStays(slots[k % B], B, past, a, k);
    } else if k + 1 == n {
      assert Recent(n - 1, B, n);
      OfferedHeld(slots[(n - 1) % B], B, past, a, n - 1);
    }
  }

  lemma EmptyAfter(slots: seq<MediaBuffer.Slot>, after: seq<MediaBuffer.Slot>, B: Uint16, past: seq<Arrival>,
                   gap: Uint32, newest: MediaBuffer.Slot, i: nat)
    requires B >= 2 && Ring(slots, B, past)
    requires Advanced(slots, after, B, |past|, newest, gap) && |past| + 1 <= i < B
    ensures after[i].message.None?
  {
    var n := |past|;
    SmallPosition(n, B);
    if n > 0 { SmallPosition(n - 1, B); }
  }

  lemma RingAdvances(slots: seq<MediaBuffer.Slot>, after: seq<MediaBuffer.Slot>, B: Uint16, past: seq<Arrival>,
                     a: Arrival, newest: MediaBuffer.Slot)
    requires B >= 2 && Ring(slots, B, past) && Holds(newest, B, past + [a], |past|)
    requires Advanced(slots, after, B, |past|, newest, a.gap)
    ensures Ring(after, B, past + [a])
  {
    forall k | Recent(k, B, |past| + 1) ensures Holds(after[k % B], B, past + [a], k) {
      ChunkAfter(slots, after, B, past, a, newest, k);
    }
    forall i | |past| + 1 <= i < B ensures after[i].message.None? {
      EmptyAfter(slots, after, B, past, a.gap, newest, i);
    }
  }

  // ---- the source ------------------------------------------------------------------------

  lemma NextChunk(n: nat, B: Uint16)
    requires B > 0 && (n + 1) / B < 0x1_0000_0000
    ensures n / B < 0x1_0000_0000 && IncID(Nth(n, B)) == Nth(n + 1, B)
  {
    if n % B == B - 1 {
      OneMore(n / B, B);
      DivModUnique(n + 1, n / B + 1, 0, B);
    } else {
      DivModUnique(n + 1, n / B, n % B + 1, B);
    }
  }

  lemma NamedChunk(m: seq<Byte>, B: Uint16, n: nat, a: Arrival)
    requires B > 0 && n / B < 0x1_0000_0000 && |m| == DATA_HEADER_SIZE + |a.media| && m[DATA_HEADER_SIZE..] == a.media
    requires NamesChunk(m, Nth(n, B).cycle, Nth(n, B).position, a)
    ensures IsChunk(m, B, n, a)
  {
  }

  datatype Reply = Data(message: seq<Byte>) | ChunkUnavailable | NoPartnership

  class Source {
    const B: Uint16
    const mediaBuffer: MediaBuffer.MediaBuffer
    var latestReceivedPosition: ChunkUniqueID

    /** The state after the datagrams `past`. */
    ghost predicate Agrees(past: seq<Arrival>)
      reads this, mediaBuffer, mediaBuffer.Repr
    {
      && 2 <= B && this !in mediaBuffer.Repr && mediaBuffer.Valid() && mediaBuffer.maxBufferSize == B
      && |past| / B < 0x1_0000_0000 && latestReceivedPosition == Nth(|past|, B)
      && Ring(mediaBuffer.Contents(), B, past)
    }

    constructor (bufferSize: Uint16)
      requires 2 <= bufferSize
      ensures B == bufferSize && Agrees([]) && fresh(mediaBuffer) && fresh(mediaBuffer.Repr)
    {
      B := bufferSize;
      mediaBuffer := new MediaBuffer.MediaBuffer(bufferSize);
      latestReceivedPosition := ChunkUniqueID(0, 0, bufferSize);
      new;
      SmallPosition(0, bufferSize);
    }

    /** The data message of the newest chunk. */
    method MakeChunk(a: Arrival) returns (m: seq<Byte>)
      requires Fits(a) && latestReceivedPosition.bufferSize == B > 0 && WellFormed(latestReceivedPosition)
      ensures |m| == DATA_HEADER_SIZE + |a.media| && m[DATA_HEADER_SIZE..] == a.media
      ensures NamesChunk(m, latestReceivedPosition.cycle, latestReceivedPosition.position, a) && Value(m, 18, 32) == 0
    {
      var chunk := new MessageData(|a.media|, 0, 0, latestReceivedPosition, a.time, 0);
      ghost var h := chunk.firstByte[..];
      ghost var header: seq<Int32> := [OPCODE_DATA, DATA_HEADER_SIZE, |a.media|, 0];
      ghost var fields: seq<Int32> :=
        [0, 0, ToInt32(latestReceivedPosition.cycle), latestReceivedPosition.position, ToInt32(a.time), 0];
      DecodedNames(h, latestReceivedPosition.cycle, latestReceivedPosition.position, a, header, fields);
      chunk.SetMedia(a.media);
      m := chunk.firstByte[..];
      assert m[..DATA_HEADER_SIZE] == h[..DATA_HEADER_SIZE];
      SameHeader(h, m);
    }

    /** The chunk before the newest is offered: its measured duration, its checksum, its availability. */
    method Offer(pos: Uint16, gap: Uint32)
      requires mediaBuffer.Valid() && pos < mediaBuffer.maxBufferSize
      requires mediaBuffer.At(pos).message.Some? ==> |mediaBuffer.At(pos).message.value| >= DATA_HEADER_SIZE
      modifies mediaBuffer.Repr
      ensures mediaBuffer.Valid()
      ensures var slot := old(mediaBuffer.At(pos));
              mediaBuffer.Contents() == if slot.message.None? then old(mediaBuffer.Contents())
                                        else old(mediaBuffer.Contents())[pos := Offered(slot, gap)]
    {
      if mediaBuffer.buffer[pos].Some? {
        if gap != 0 {
          mediaBuffer.SetDuration(pos, gap);
          assert mediaBuffer.At(pos) == mediaBuffer.Contents()[pos];
        }
        mediaBuffer.SetIntegrity(pos);
        mediaBuffer.SetAvailable(pos);
      }
    }

    /** The newest chunk goes into its slot, and the one before it is offered. */
    method Receive(m: seq<Byte>, a: Arrival, ghost past: seq<Arrival>)
      requires Agrees(past) && Fits(a) && IsChunk(m, B, |past|, a) && Value(m, 18, 32) == 0
      modifies mediaBuffer, mediaBuffer.Repr
      ensures mediaBuffer.Valid() && Ring(mediaBuffer.Contents(), B, past + [a])
    {
      ghost var slots, newest := mediaBuffer.Contents(), MediaBuffer.Stored(m, false);
      NewestHeld(m, B, past, a);
      mediaBuffer.Insert(m, false);
      OfferPrevious(a.gap, past, slots, newest);
      RingAdvances(slots, mediaBuffer.Contents(), B, past, a, newest);
    }

    /** The slot before the newest, at the other end of the ring if the newest is in slot zero. */
    method OfferPrevious(gap: Uint32, ghost past: seq<Arrival>, ghost slots: seq<MediaBuffer.Slot>,
                         ghost newest: MediaBuffer.Slot)
      requires 2 <= B && mediaBuffer.Valid() && mediaBuffer.maxBufferSize == B && Ring(slots, B, past)
      requires |past| / B < 0x1_0000_0000 && latestReceivedPosition == Nth(|past|, B)
      requires mediaBuffer.Contents() == slots[|past| % B := newest]
      modifies mediaBuffer.Repr
      ensures mediaBuffer.Valid() && Advanced(slots, mediaBuffer.Contents(), B, |past|, newest, gap)
    {
      PreviousSlot(slots, B, past, newest);
      var last: int := latestReceivedPosition.position as int - 1;
      if last < 0 {
        last := last + latestReceivedPosition.bufferSize as int;
      }
      assert mediaBuffer.At(last) == mediaBuffer.Contents()[last] == slots[last];
      Offer(last, gap);
    }

    /** One round of the loop: the datagram becomes chunk number `|past|`. */
    method Generate(a: Arrival, ghost past: seq<Arrival>)
      requires Agrees(past) && Fits(a) && (|past| + 1) / B < 0x1_0000_0000
      modifies this, mediaBuffer, mediaBuffer.Repr
      ensures Agrees(past + [a])
    {
      var m := MakeChunk(a);
      NamedChunk(m, B, |past|, a);
      Receive(m, a, past);
      Advance(past, a);
    }

    /** The tip moves on to the chunk that was received. */
    method Advance(ghost past: seq<Arrival>, ghost a: Arrival)
      requires 2 <= B && this !in mediaBuffer.Repr && mediaBuffer.Valid() && mediaBuffer.maxBufferSize == B
      requires (|past| + 1) / B < 0x1_0000_0000 && latestReceivedPosition == Nth(|past|, B)
      requires Ring(mediaBuffer.Contents(), B, past + [a])
      modifies this`latestReceivedPosition
      ensures Agrees(past + [a])
    {
      NextChunk(|past|, B);
      latestReceivedPosition := IncID(latestReceivedPosition);
      assert |past + [a]| == |past| + 1;
    }

    /** The loop over all datagrams. */
    method GerarDados(arrivals: seq<Arrival>, ghost past: seq<Arrival>)
      requires Agrees(past) && (forall i :: 0 <= i < |arrivals| ==> Fits(arrivals[i]))
      requires (|past| + |arrivals|) / B < 0x1_0000_0000
      modifies this, mediaBuffer, mediaBuffer.Repr
      ensures Agrees(past + arrivals)
    {
      assert past + arrivals[..0] == past;
      for i := 0 to |arrivals|
        invariant Agrees(past + arrivals[..i])
      {
        assert past + arrivals[..i + 1] == past + arrivals[..i] + [arrivals[i]];
        QuotientGrows(|past| + i + 1, |past| + |arrivals|, B);
        Generate(arrivals[i], past + arrivals[..i]);
      }
      assert arrivals[..|arrivals|] == arrivals;
    }

    /** A request for the chunk `r`; its position is used as an index as it comes. */
    method HandleRequestMessage(r: ChunkUniqueID, partner: bool, ghost past: seq<Arrival>) returns (reply: Reply)
      requires Agrees(past) && r.position < B
      ensures reply.NoPartnership? <==> !partner
      ensures reply.Data? <==> partner && Serves(mediaBuffer.Contents(), B, |past|, r)
      ensures reply.Data? ==> mediaBuffer.Contents()[r.position].message == Some(reply.message)
    {
      if !partner {
        return NoPartnership;
      }
      var available := mediaBuffer.Available(r.position);
      if available && AtLeast(latestReceivedPosition, r) && Difference(latestReceivedPosition, r).cycle == 0 {
        reply := Data(mediaBuffer.buffer[r.position].value);
      } else {
        reply := ChunkUnavailable;
      }
    }
  }

  lemma QuotientGrows(a: nat, b: nat, B: nat)
    requires a <= b && B > 0
    ensures a / B <= b / B
  {
    QuotientBound(a / B, B, b);
  }

  /** The slot before the newest holds the chunk before it, or nothing at the very start. */
  lemma PreviousSlot(slots: seq<MediaBuffer.Slot>, B: Uint16, past: seq<Arrival>, newest: MediaBuffer.Slot)
    requires B >= 2 && Ring(slots, B, past)
    ensures var n := |past|;
            var last := if n % B == 0 then B - 1 else n % B - 1;
            && last != n % B
            && (n == 0 ==> slots[last].message.None?)
            && (n > 0 ==> && last == (n - 1) % B && slots[last].message.Some?
                          && |slots[last].message.value| >= DATA_HEADER_SIZE)
            && slots[n % B := newest][last] == slots[last]
  {
    PreviousPosition(|past|, B);
    if |past| > 0 {
      assert Recent(|past| - 1, B, |past|);
    }
  }

  // ---- serving requests --------------------------------------------------------------------

  /** The test of the request handler, when `n` chunks have been generated. */
  ghost predicate Serves(slots: seq<MediaBuffer.Slot>, B: Uint16, n: nat, r: ChunkUniqueID)
    requires B > 0 && n / B < 0x1_0000_0000 && |slots| == B && r.position < B
  {
    && slots[r.position].message.Some? && slots[r.position].available
    && AtLeast(Nth(n, B), r) && Difference(Nth(n, B), r).cycle == 0
  }

  /** The number of the requested chunk in a stream of buffer size `B`. */
  function Requested(r: ChunkUniqueID, B: Uint16): nat {
    r.cycle * B + r.position
  }

  lemma WindowOfRequest(n: nat, B: Uint16, r: ChunkUniqueID)
    requires B > 0 && n / B < 0x1_0000_0000 && r.position < B
    ensures AtLeast(Nth(n, B), r) && Difference(Nth(n, B), r).cycle == 0 <==> 0 <= n - Requested(r, B) < B
  {
    var q := r.(bufferSize := B);
    WindowTest(Nth(n, B), q);
    assert AtLeast(Nth(n, B), r) == AtLeast(Nth(n, B), q);
    assert Difference(Nth(n, B), r) == Difference(Nth(n, B), q);
  }

  /** Data is sent exactly for the chunks that are at least two before the tip and less than a buffer
      behind it, and for the tip itself once the ring has gone round. */
  lemma ServesExactly(slots: seq<MediaBuffer.Slot>, B: Uint16, past: seq<Arrival>, r: ChunkUniqueID)
    requires B >= 2 && Ring(slots, B, past) && |past| / B < 0x1_0000_0000 && r.position < B
    ensures var n, k := |past|, Requested(r, B);
            Serves(slots, B, n, r) <==> (n - B < k <= n - 2) || (k == n && n >= B)
  {
    var n, k := |past|, Requested(r, B);
    WindowOfRequest(n, B, r);
    DivModUnique(k, r.cycle, r.position, B);
    if n - B < k < n {
      assert Recent(k, B, n);
    } else if k == n && n >= B {
      OneCycleBack(n, B);
      assert Recent(n - B, B, n);
    } else if k == n {
      SmallPosition(n, B);
    }
  }

  lemma OneCycleBack(n: nat, B: nat)
    requires 0 < B <= n
    ensures (n - B) % B == n % B && (n - B) / B == n / B - 1
  {
    DivModUnique(n - B, n / B - 1, n % B, B);
  }

  /** The reply to a request strictly before the tip is the requested chunk, intact; the reply to a
      request for the tip, which does not exist yet, is the chunk one buffer older. */
  lemma ServedChunk(slots: seq<MediaBuffer.Slot>, B: Uint16, past: seq<Arrival>, r: ChunkUniqueID)
    requires B >= 2 && Ring(slots, B, past) && |past| / B < 0x1_0000_0000 && r.position < B
    requires Serves(slots, B, |past|, r)
    ensures var n, k, m := |past|, Requested(r, B), slots[r.position].message.value;
            && Intact(m)
            && (k < n ==> IsChunk(m, B, k, past[k]))
            && (k >= n ==> k == n && n >= B && IsChunk(m, B, n - B, past[n - B]))
  {
    var n, k := |past|, Requested(r, B);
    ServesExactly(slots, B, past, r);
    DivModUnique(k, r.cycle, r.position, B);
    if k < n {
      assert Recent(k, B, n);
    } else {
      OneCycleBack(n, B);
      assert Recent(n - B, B, n);
    }
  }

  /** So the identity in the reply is the requested one if and only if the request is not for the tip. */
  lemma ReplyNamesRequest(slots: seq<MediaBuffer.Slot>, B: Uint16, past: seq<Arrival>, r: ChunkUniqueID)
    requires B >= 2 && Ring(slots, B, past) && |past| / B < 0x1_0000_0000 && r.position < B
    requires Serves(slots, B, |past|, r)
    ensures var m := slots[r.position].message.value;
            Value(m, 12, 16) == r.position
            && (ToUint32(Value(m, 8, 32)) == r.cycle <==> Requested(r, B) != |past|)
  {
    var n, k := |past|, Requested(r, B);
    ServedChunk(slots, B, past, r);
    DivModUnique(k, r.cycle, r.position, B);
    if k >= n { OneCycleBack(n, B); }
  }

  /** The smallest case: after two datagrams in a ring of two, a request for chunk 2 is answered with chunk 0. */
  lemma TipRequestServesOldChunk(slots: seq<MediaBuffer.Slot>, first: Arrival, second: Arrival)
    requires Ring(slots, 2, [first, second])
    ensures var r := ChunkUniqueID(1, 0, STD_BUFFERSIZE);
            && Serves(slots, 2, 2, r) && Requested(r, 2) == 2
            && IsChunk(slots[0].message.value, 2, 0, first)
  {
    var r := ChunkUniqueID(1, 0, STD_BUFFERSIZE);
    ServesExactly(slots, 2, [first, second], r);
    ServedChunk(slots, 2, [first, second], r);
  }
}
