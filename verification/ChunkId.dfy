/**
 The identity of a chunk of the stream: a 32-bit cycle and a 16-bit position within a buffer of
 `bufferSize` slots.  The operations work in the machine words of the source; the theorems say
 which integer operation on the chunk's number in the stream they stand for.
 */
module ChunkId {
  import opened Arithmetic
  import opened Words

  datatype ChunkUniqueID = ChunkUniqueID(cycle: Uint32, position: Uint16, bufferSize: Uint16)

  const STD_BUFFERSIZE: Uint16 := 1600

  // ---- the meaning of an identity ----------------------------------------------------

  ghost predicate WellFormed(c: ChunkUniqueID) {
    c.position < c.bufferSize
  }

  /** The number of the chunk in the unbounded stream. */
  function Number(c: ChunkUniqueID): int {
    c.cycle * c.bufferSize + c.position
  }

  /** The identity with a given number. */
  function Nth(n: nat, bufferSize: Uint16): (c: ChunkUniqueID)
    requires bufferSize > 0 && n / bufferSize < 0x1_0000_0000
    ensures WellFormed(c) && Number(c) == n
  {
    ChunkUniqueID(n / bufferSize, n % bufferSize, bufferSize)
  }

  // ---- the operations of the source --------------------------------------------------

  function IncID(c: ChunkUniqueID): ChunkUniqueID {
    var position := ToUint16(c.position + 1);
    if position >= c.bufferSize
    then c.(position := 0, cycle := ToUint32(c.cycle + 1))
    else c.(position := position)
  }

  predicate Equal(a: ChunkUniqueID, b: ChunkUniqueID) {
    a.cycle == b.cycle && a.position == b.position
  }

  predicate Before(a: ChunkUniqueID, b: ChunkUniqueID) {
    a.cycle < b.cycle || (a.cycle == b.cycle && a.position < b.position)
  }

  predicate AtMost(a: ChunkUniqueID, b: ChunkUniqueID) {
    a.cycle < b.cycle || (a.cycle == b.cycle && a.position < b.position) || Equal(a, b)
  }

  predicate After(a: ChunkUniqueID, b: ChunkUniqueID) {
    a.cycle > b.cycle || (a.cycle == b.cycle && a.position > b.position)
  }

  predicate AtLeast(a: ChunkUniqueID, b: ChunkUniqueID) {
    a.cycle > b.cycle || (a.cycle == b.cycle && a.position > b.position) || Equal(a, b)
  }

  /** The `int` division and remainder of the source, which truncate toward zero. */
  function Quotient(n: int, d: nat): int
    requires d > 0
  {
    if n >= 0 then n / d else -(-n / d)
  }

  function Remainder(n: int, d: nat): int
    requires d > 0
  {
    if n >= 0 then n % d else -(-n % d)
  }

  /** `a - n` for any `int`; a negative one passes through the same unsigned words. */
  method MinusInt(a: ChunkUniqueID, n: Int32) returns (r: ChunkUniqueID)
    requires a.bufferSize > 0
    ensures r == Minus(a, n)
  {
    r := BorrowAndSubtract(a, Quotient(n, a.bufferSize), Remainder(n, a.bufferSize));
  }

  /** The body of MinusInt once the quotient and the remainder are known. */
  method BorrowAndSubtract(a: ChunkUniqueID, quotient: int, remainder: int) returns (r: ChunkUniqueID)
    ensures r == MinusDigits(a, quotient, remainder)
  {
    var cycleToSub: int := ToUint16(quotient);
    var posToSub: int := ToUint16(remainder);
    var newPos: int := a.position;
    if newPos < posToSub {
      cycleToSub := ToUint16(cycleToSub + 1);
      newPos := ToUint16(newPos + a.bufferSize);
    }
    newPos := ToUint16(newPos - posToSub);
    r := a;
    if r.cycle > cycleToSub {
      r := r.(cycle := r.cycle - cycleToSub);
    } else {
      r := r.(cycle := 0);
    }
    r := r.(position := newPos);
  }

  function Minus(a: ChunkUniqueID, n: int): ChunkUniqueID
    requires a.bufferSize > 0
  {
    MinusDigits(a, Quotient(n, a.bufferSize), Remainder(n, a.bufferSize))
  }

  function MinusDigits(a: ChunkUniqueID, quotient: int, remainder: int): ChunkUniqueID {
    var posToSub := ToUint16(remainder);
    var borrow := a.position < posToSub;
    var cycleToSub := if borrow then ToUint16(ToUint16(quotient) as int + 1) else ToUint16(quotient);
    var newPos := if borrow then ToUint16(a.position as int + a.bufferSize) else a.position;
    a.(cycle := if a.cycle > cycleToSub then a.cycle - cycleToSub else 0,
       position := ToUint16(newPos as int - posToSub))
  }

  /**
   `a - b` for two identities.  The cycles are unsigned 32-bit words, so their difference is taken
   modulo 2^32 before it is widened, and the clamp that follows it in the source never acts.
   */
  method MinusChunk(a: ChunkUniqueID, b: ChunkUniqueID) returns (r: ChunkUniqueID)
    requires a.bufferSize > 0
    ensures r == Difference(a, b)
  {
    var newCycle: int := ToUint32(a.cycle - b.cycle);
    if newCycle < 0 {
      newCycle := 0;
    }
    var d := ChunkUniqueID(ToUint32(newCycle), a.position, a.bufferSize);
    assert d == a.(cycle := ToUint32(a.cycle - b.cycle));
    r := MinusInt(d, b.position);
  }

  function Difference(a: ChunkUniqueID, b: ChunkUniqueID): ChunkUniqueID
    requires a.bufferSize > 0
  {
    Minus(a.(cycle := ToUint32(a.cycle - b.cycle)), b.position)
  }

  // ---- refinement of the integers ----------------------------------------------------

  lemma IncAddsOne(c: ChunkUniqueID)
    requires WellFormed(c) && c.cycle < 0xFFFF_FFFF
    ensures WellFormed(IncID(c)) && Number(IncID(c)) == Number(c) + 1
  {
  }

  /** Every comparison of the source agrees with the comparison of chunk numbers. */
  lemma ComparisonsAgree(a: ChunkUniqueID, b: ChunkUniqueID)
    requires WellFormed(a) && WellFormed(b) && a.bufferSize == b.bufferSize
    ensures Equal(a, b) <==> Number(a) == Number(b)
    ensures Before(a, b) <==> Number(a) < Number(b)
    ensures AtMost(a, b) <==> Number(a) <= Number(b)
    ensures After(a, b) <==> Number(a) > Number(b)
    ensures AtLeast(a, b) <==> Number(a) >= Number(b)
  {
    DigitsOrder(a.cycle, a.position, b.cycle, b.position, a.bufferSize);
    DigitsOrder(b.cycle, b.position, a.cycle, a.position, a.bufferSize);
  }

  /** The borrow of the digit-wise subtraction. */
  function Borrow(a: ChunkUniqueID, n: int): nat
    requires a.bufferSize > 0
  {
    if a.position < n % a.bufferSize then 1 else 0
  }

  /**
   The step back is exact, although the quotient and the position pass through 16 bits, exactly
   as long as the number of cycles to subtract fits in 16 bits.
   */
  lemma MinusRefines(a: ChunkUniqueID, n: int)
    requires WellFormed(a) && 0 <= n <= Number(a)
    ensures WellFormed(Minus(a, n)) && Minus(a, n).bufferSize == a.bufferSize
    ensures Number(Minus(a, n)) == Number(a) - n <==> n / a.bufferSize + Borrow(a, n) <= 0xFFFF
  {
    var q, r := n / a.bufferSize, n % a.bufferSize;
    assert n == q * a.bufferSize + r;
    DigitsRefine(a, q, r);
  }

  lemma DigitsRefine(a: ChunkUniqueID, q: nat, r: nat)
    requires WellFormed(a) && r < a.bufferSize && q * a.bufferSize + r <= Number(a)
    ensures WellFormed(MinusDigits(a, q, r)) && MinusDigits(a, q, r).bufferSize == a.bufferSize
    ensures Number(MinusDigits(a, q, r)) == Number(a) - (q * a.bufferSize + r)
            <==> q + (if a.position < r then 1 else 0) <= 0xFFFF
  {
    var borrow := if a.position < r then 1 else 0;
    var c, p := a.cycle - q - borrow, a.position + borrow * a.bufferSize - r;
    Regroup(a.cycle, q, borrow, a.bufferSize);
    if c < 0 { DigitsOrder(c, p, 0, 0, a.bufferSize); }
    DigitsSubtract(a, q, r);
    var c' := MinusDigits(a, q, r).cycle;
    DigitsOrder(c, p, c', p, a.bufferSize);
  }

  lemma Regroup(c: int, q: int, k: int, B: int)
    ensures (c - q - k) * B == c * B - q * B - k * B
  {
  }

  lemma DigitsSubtract(a: ChunkUniqueID, q: nat, r: nat)
    requires WellFormed(a) && r < a.bufferSize
    requires q + (if a.position < r then 1 else 0) <= a.cycle
    ensures var t := q + if a.position < r then 1 else 0;
            && (t <= 0xFFFF ==> MinusDigits(a, q, r).cycle == a.cycle - t)
            && (t > 0xFFFF ==> MinusDigits(a, q, r).cycle > a.cycle - t)
            && MinusDigits(a, q, r).position == a.position - r + (if a.position < r then a.bufferSize else 0)
            && MinusDigits(a, q, r).bufferSize == a.bufferSize
  {
  }

  /** Subtracting whole cycles. */
  lemma FewerCycles(a: ChunkUniqueID, b: ChunkUniqueID, d: ChunkUniqueID)
    requires a.bufferSize == b.bufferSize && b.cycle <= a.cycle && d == a.(cycle := a.cycle - b.cycle)
    ensures Number(d) == Number(a) - Number(b) + b.position
  {
    Regroup(a.cycle, b.cycle, 0, a.bufferSize);
  }

  /** A step back by less than a buffer is always exact. */
  lemma ShortStepBack(d: ChunkUniqueID, p: Uint16)
    requires WellFormed(d) && p < d.bufferSize && p <= Number(d)
    ensures WellFormed(Minus(d, p)) && Minus(d, p).bufferSize == d.bufferSize
    ensures Number(Minus(d, p)) == Number(d) - p
  {
    DivModUnique(p, 0, p, d.bufferSize);
    MinusRefines(d, p);
    assert Borrow(d, p) <= 1;
  }

  lemma DifferenceIs(a: ChunkUniqueID, b: ChunkUniqueID, d: ChunkUniqueID)
    requires a.bufferSize > 0 && b.cycle <= a.cycle && d == a.(cycle := a.cycle - b.cycle)
    ensures Difference(a, b) == Minus(d, b.position)
  {
    assert ToUint32(a.cycle - b.cycle) == a.cycle - b.cycle;
  }

  lemma DistanceIsExact(a: ChunkUniqueID, b: ChunkUniqueID, d: ChunkUniqueID)
    requires WellFormed(a) && WellFormed(b) && a.bufferSize == b.bufferSize && Number(a) >= Number(b)
    requires b.cycle <= a.cycle && d == a.(cycle := a.cycle - b.cycle)
    ensures WellFormed(Minus(d, b.position)) && Minus(d, b.position).bufferSize == a.bufferSize
    ensures Number(Minus(d, b.position)) == Number(a) - Number(b)
  {
    FewerCycles(a, b, d);
    ShortStepBack(d, b.position);
  }

  /** Subtracting an earlier chunk gives the distance, as an identity. */
  lemma DifferenceRefines(a: ChunkUniqueID, b: ChunkUniqueID)
    requires WellFormed(a) && WellFormed(b) && a.bufferSize == b.bufferSize && AtLeast(a, b)
    ensures WellFormed(Difference(a, b)) && Difference(a, b).bufferSize == a.bufferSize
    ensures Number(Difference(a, b)) == Number(a) - Number(b)
    ensures Difference(a, b).cycle == 0 <==> Number(a) - Number(b) < a.bufferSize
  {
    var d := a.(cycle := a.cycle - b.cycle);
    var r := Difference(a, b);
    ComparisonsAgree(a, b);
    assert r == Minus(d, b.position) by { DifferenceIs(a, b, d); }
    assert WellFormed(r) && r.bufferSize == a.bufferSize && Number(r) == Number(a) - Number(b) by {
      DistanceIsExact(a, b, d);
    }
    WithinOneCycle(r);
  }

  lemma WithinOneCycle(c: ChunkUniqueID)
    requires WellFormed(c)
    ensures c.cycle == 0 <==> Number(c) < c.bufferSize
  {
    if c.cycle >= 1 { DigitsOrder(0, c.bufferSize - 1, c.cycle, c.position, c.bufferSize); }
  }

  /** What the unsigned words add to a negative distance: a buffer within a cycle, else all 2^32 cycles. */
  function Wrap(a: ChunkUniqueID, b: ChunkUniqueID): int {
    if AtLeast(a, b) then 0 else if a.cycle == b.cycle then a.bufferSize else 0x1_0000_0000 * a.bufferSize
  }

  /** The difference of any two chunks. */
  lemma DifferenceWraps(a: ChunkUniqueID, b: ChunkUniqueID)
    requires WellFormed(a) && WellFormed(b) && a.bufferSize == b.bufferSize
    ensures WellFormed(Difference(a, b)) && Difference(a, b).bufferSize == a.bufferSize
    ensures Number(Difference(a, b)) == Number(a) - Number(b) + Wrap(a, b)
  {
    if AtLeast(a, b) {
      DifferenceRefines(a, b);
    } else if a.cycle == b.cycle {
      BehindInCycle(a, b);
    } else {
      BehindACycle(a, b, a.(cycle := a.cycle - b.cycle + 0x1_0000_0000));
    }
  }

  lemma BehindACycle(a: ChunkUniqueID, b: ChunkUniqueID, d: ChunkUniqueID)
    requires WellFormed(a) && WellFormed(b) && a.bufferSize == b.bufferSize
    requires a.cycle < b.cycle && d == a.(cycle := a.cycle - b.cycle + 0x1_0000_0000)
    ensures WellFormed(Difference(a, b)) && Difference(a, b).bufferSize == a.bufferSize
    ensures Number(Difference(a, b)) == Number(a) - Number(b) + 0x1_0000_0000 * a.bufferSize
  {
    assert Number(d) == Number(a) - Number(b) + b.position + 0x1_0000_0000 * a.bufferSize by {
      Regroup(a.cycle, b.cycle, -0x1_0000_0000, a.bufferSize);
    }
    assert b.position <= Number(d) by { MulMonotone(1, d.cycle, a.bufferSize); }
    ShortStepBack(d, b.position);
    WrappedCycles(a.cycle, b.cycle);
  }

  lemma WrappedCycles(c: Uint32, d: Uint32)
    requires c < d
    ensures ToUint32(c - d) == c - d + 0x1_0000_0000
  {
  }

  lemma BehindInCycle(a: ChunkUniqueID, b: ChunkUniqueID)
    requires WellFormed(a) && WellFormed(b) && a.bufferSize == b.bufferSize
    requires a.cycle == b.cycle && a.position < b.position
    ensures Difference(a, b) == ChunkUniqueID(0, a.position - b.position + a.bufferSize, a.bufferSize)
  {
    DivModUnique(b.position, 0, b.position, a.bufferSize);
    var d := a.(cycle := 0);
    assert Difference(a, b) == Minus(d, b.position) by { DifferenceIs(a, b, d); }
    assert Minus(d, b.position) == MinusDigits(d, 0, b.position);
  }

  /**
   The window test `(a - b).cycle == 0` alone, for any two chunks: besides the chunks less than
   one buffer behind `a` it accepts every later chunk of the same cycle, which is why both users
   of the test compare first.
   */
  lemma WindowTestAlone(a: ChunkUniqueID, b: ChunkUniqueID)
    requires WellFormed(a) && WellFormed(b) && a.bufferSize == b.bufferSize
    ensures Difference(a, b).cycle == 0 <==>
              a.cycle == b.cycle || (a.cycle == ToUint32(b.cycle + 1) && a.position < b.position)
  {
    assert b.position / a.bufferSize == 0 && b.position % a.bufferSize == b.position by {
      DivModUnique(b.position, 0, b.position, a.bufferSize);
    }
  }

  /** The test as written where chunks are searched and served: `a >= b` and within one cycle. */
  lemma WindowTest(a: ChunkUniqueID, b: ChunkUniqueID)
    requires WellFormed(a) && WellFormed(b) && a.bufferSize == b.bufferSize
    ensures AtLeast(a, b) && Difference(a, b).cycle == 0
            <==> 0 <= Number(a) - Number(b) < a.bufferSize
  {
    ComparisonsAgree(a, b);
    if AtLeast(a, b) { DifferenceRefines(a, b); }
  }
}
