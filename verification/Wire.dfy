/**
 The message layer: typed header fields laid out in bytes, the header checksum and the setters
 that overwrite header fields in place.  Multi-byte values are stored as a little-endian host
 stores them.
 */
module Wire {
  import opened Words

  // ---- one field ---------------------------------------------------------------------

  predicate Width(w: nat) {
    w == 8 || w == 16 || w == 32
  }

  /** Byte `k` of the two's-complement representation of `v`. */
  function FieldByte(v: int, k: nat): Byte {
    if k == 0 then v % 0x100
    else if k == 1 then (v / 0x100) % 0x100
    else if k == 2 then (v / 0x1_0000) % 0x100
    else (v / 0x100_0000) % 0x100
  }

  /** The byte at `p`; positions past the end read as 0 and are excluded by every layout below. */
  function At(b: seq<Byte>, p: nat): int {
    if p < |b| then b[p] else 0
  }

  function Value(b: seq<Byte>, p: nat, w: nat): Int32 {
    if w == 8 then At(b, p)
    else if w == 16 then At(b, p) + 0x100 * At(b, p + 1)
    else ToInt32(At(b, p) + 0x100 * At(b, p + 1) + 0x1_0000 * At(b, p + 2) + 0x100_0000 * At(b, p + 3))
  }

  /** What a field of width `w` can hold of `v`. */
  function Truncate(v: Int32, w: nat): Int32 {
    if w == 8 then v % 0x100 else if w == 16 then v % 0x1_0000 else v
  }

  lemma FourBytes(v: Int32)
    ensures ToInt32(FieldByte(v, 0) + 0x100 * FieldByte(v, 1)
                    + 0x1_0000 * FieldByte(v, 2) + 0x100_0000 * FieldByte(v, 3)) == v
  {
    var v1, v2, v3 := v / 0x100, v / 0x1_0000, v / 0x100_0000;
    Nested(v);
    assert v == v % 0x100 + 0x100 * v1 && v1 == v1 % 0x100 + 0x100 * v2 && v2 == v2 % 0x100 + 0x100 * v3;
    assert -0x80 <= v3 < 0x80 && v3 % 0x100 == if v3 >= 0 then v3 else v3 + 0x100;
    SignedSum(v, FieldByte(v, 0) + 0x100 * FieldByte(v, 1) + 0x1_0000 * FieldByte(v, 2) + 0x100_0000 * FieldByte(v, 3));
  }

  lemma Nested(v: int)
    ensures v / 0x1_0000 == v / 0x100 / 0x100 && v / 0x100_0000 == v / 0x1_0000 / 0x100
  {
  }

  lemma SignedSum(v: Int32, sum: int)
    requires sum == if v >= 0 then v as int else v + 0x1_0000_0000
    ensures ToInt32(sum) == v
  {
  }

  lemma TwoBytes(v: Int32)
    ensures FieldByte(v, 0) + 0x100 * FieldByte(v, 1) == v % 0x1_0000
  {
  }

  ghost predicate Holds(b: seq<Byte>, p: nat, w: nat, v: int) {
    Width(w) && p + w / 8 <= |b| && forall k :: 0 <= k < w / 8 ==> b[p + k] == FieldByte(v, k)
  }

  lemma FieldRoundTrip(b: seq<Byte>, p: nat, w: nat, v: Int32)
    requires Holds(b, p, w, v)
    ensures Value(b, p, w) == Truncate(v, w)
  {
    assert b[p] == b[p + 0] == FieldByte(v, 0);
    if w == 16 {
      TwoBytes(v);
    } else if w == 32 {
      assert b[p + 1] == FieldByte(v, 1) && b[p + 2] == FieldByte(v, 2) && b[p + 3] == FieldByte(v, 3);
      FourBytes(v);
    }
  }

  // ---- layouts -----------------------------------------------------------------------

  ghost predicate Layout(sizes: seq<nat>) {
    forall i :: 0 <= i < |sizes| ==> Width(sizes[i])
  }

  /** Multi-byte fields start at an even offset. */
  function Align(w: nat, j: nat): nat {
    if w != 8 && j % 2 != 0 then 2 * (j / 2 + 1) else j
  }

  /** The offset after a layout that starts at offset `j`. */
  function End(sizes: seq<nat>, j: nat): nat {
    if sizes == [] then j else End(sizes[1..], Align(sizes[0], j) + sizes[0] / 8)
  }

  /** The start of field `i` of a layout. */
  function Start(sizes: seq<nat>, i: nat): nat
    requires i < |sizes|
  {
    Align(sizes[i], End(sizes[..i], 0))
  }

  lemma {:induction false} EndGrows(sizes: seq<nat>, j: nat)
    ensures End(sizes, j) >= j
  {
    if sizes != [] { EndGrows(sizes[1..], Align(sizes[0], j) + sizes[0] / 8); }
  }

  lemma {:induction false} EndConcat(x: seq<nat>, y: seq<nat>, j: nat)
    ensures End(x + y, j) == End(y, End(x, j))
  {
    if x == [] {
      assert x + y == y;
    } else {
      assert (x + y)[0] == x[0] && (x + y)[1..] == x[1..] + y;
      EndConcat(x[1..], y, Align(x[0], j) + x[0] / 8);
    }
  }

  lemma EndStep(sizes: seq<nat>, i: nat)
    requires i < |sizes|
    ensures End(sizes[..i + 1], 0) == Start(sizes, i) + sizes[i] / 8
  {
    assert sizes[..i + 1] == sizes[..i] + [sizes[i]];
    EndConcat(sizes[..i], [sizes[i]], 0);
  }

  /** Fields do not overlap: field `i` ends before a later field starts. */
  lemma {:induction false} FieldsInOrder(sizes: seq<nat>, i: nat, k: nat)
    requires i < k <= |sizes|
    ensures Start(sizes, i) + sizes[i] / 8 <= End(sizes[..k], 0)
  {
    EndStep(sizes, i);
    if i + 1 < k {
      assert sizes[..k] == sizes[..i + 1] + sizes[i + 1..k];
      EndConcat(sizes[..i + 1], sizes[i + 1..k], 0);
      EndGrows(sizes[i + 1..k], End(sizes[..i + 1], 0));
    }
  }

  /** The byte range [base, base + End) of `b` carries `data`. */
  ghost predicate Carries(b: seq<Byte>, base: nat, sizes: seq<nat>, data: seq<Int32>, n: nat) {
    && n <= |sizes| <= |data|
    && base + End(sizes, 0) <= |b|
    && forall i :: 0 <= i < n ==> Holds(b, base + Start(sizes, i), sizes[i], data[i])
  }

  /** The offset lies in one of the first `n` fields; between fields there may be padding. */
  ghost predicate InField(sizes: seq<nat>, n: nat, offset: int) {
    exists i :: 0 <= i < n && i < |sizes| && Within(sizes, i, offset)
  }

  ghost predicate Within(sizes: seq<nat>, i: nat, offset: int)
    requires i < |sizes|
  {
    Start(sizes, i) <= offset < Start(sizes, i) + sizes[i] / 8
  }

  /** The bytes behind `base` that are in none of the first `n` fields are the same. */
  ghost predicate PaddingKept(before: seq<Byte>, after: seq<Byte>, base: nat, sizes: seq<nat>, n: nat) {
    && |before| == |after|
    && forall o: nat {:trigger InField(sizes, n, o)} ::
         base + o < |after| && !InField(sizes, n, o) ==> after[base + o] == before[base + o]
  }

  /** Writes the fields from `base` on; all bytes outside the fields, padding included, are kept. */
  method AssembleHeaderValues(buf: array<Byte>, base: nat, sizes: seq<nat>, data: seq<Int32>) returns (size: Byte)
    requires Layout(sizes) && |sizes| <= |data|
    requires base + End(sizes, 0) <= buf.Length && End(sizes, 0) <= 0xFFFF
    modifies buf
    ensures Carries(buf[..], base, sizes, data, |sizes|)
    ensures forall p :: 0 <= p < buf.Length && (p < base || p >= base + End(sizes, 0)) ==> buf[p] == old(buf[p])
    ensures PaddingKept(old(buf[..]), buf[..], base, sizes, |sizes|)
    ensures size == ToUint8(End(sizes, 0))
  {
    var j: nat := 0;
    for i := 0 to |sizes|
      invariant j == End(sizes[..i], 0)
      invariant Carries(buf[..], base, sizes, data, i)
      invariant forall p :: 0 <= p < buf.Length && (p < base || p >= base + j) ==> buf[p] == old(buf[p])
      invariant PaddingKept(old(buf[..]), buf[..], base, sizes, i)
    {
      ghost var before := buf[..];
      if sizes[i] != 8 && j % 2 != 0 {
        j := 2 * (j / 2 + 1);
      }
      WriteField(buf, base + j, sizes[i], data[i], base, sizes, data, i);
      PaddingStaysKept(old(buf[..]), before, buf[..], base, sizes, i);
      EndStep(sizes, i);
      j := j + sizes[i] / 8;
    }
    assert sizes[..|sizes|] == sizes;
    size := ToUint8(j);
  }

  lemma PaddingStaysKept(start: seq<Byte>, before: seq<Byte>, after: seq<Byte>, base: nat, sizes: seq<nat>, i: nat)
    requires i < |sizes| && |start| == |before| == |after| && PaddingKept(start, before, base, sizes, i)
    requires forall p :: 0 <= p < |after| && !(base + Start(sizes, i) <= p < base + Start(sizes, i) + sizes[i] / 8) ==>
               after[p] == before[p]
    ensures PaddingKept(start, after, base, sizes, i + 1)
  {
    var n := i + 1;
    forall o: nat {:trigger InField(sizes, n, o)} | base + o < |after| && !InField(sizes, n, o)
      ensures after[base + o] == start[base + o]
    {
      FieldsGrow(sizes, i, o);
    }
  }

  lemma FieldsGrow(sizes: seq<nat>, i: nat, o: nat)
    requires i < |sizes|
    ensures InField(sizes, i + 1, o) <==> InField(sizes, i, o) || Within(sizes, i, o)
  {
  }

  /** The byte loop for one field; earlier fields and all other bytes stay. */
  method WriteField(buf: array<Byte>, at: nat, w: nat, v: Int32,
                    ghost base: nat, ghost sizes: seq<nat>, ghost data: seq<Int32>, ghost i: nat)
    requires i < |sizes| && w == sizes[i] && v == (if i < |data| then data[i] else 0) && Layout(sizes)
    requires Carries(buf[..], base, sizes, data, i) && at == base + Start(sizes, i)
    modifies buf
    ensures at + w / 8 <= buf.Length && Carries(buf[..], base, sizes, data, i + 1)
    ensures forall p :: 0 <= p < buf.Length && (p < at || p >= at + w / 8) ==> buf[p] == old(buf[p])
  {
    FieldsInOrder(sizes, i, |sizes|);
    assert sizes[..|sizes|] == sizes;
    for k := 0 to w / 8
      invariant forall p :: 0 <= p < buf.Length && (p < at || p >= at + k) ==> buf[p] == old(buf[p])
      invariant forall p :: 0 <= p < k ==> buf[at + p] == FieldByte(v, p)
    {
      buf[at + k] := FieldByte(v, k);
    }
    forall e | 0 <= e < i + 1 ensures Holds(buf[..], base + Start(sizes, e), sizes[e], data[e]) {
      if e < i {
        FieldsInOrder(sizes, e, i);
        assert Holds(old(buf[..]), base + Start(sizes, e), sizes[e], data[e]);
      }
    }
  }

  /** What a reader with the given layout sees. */
  function Decode(b: seq<Byte>, base: nat, sizes: seq<nat>): seq<Int32> {
    seq(|sizes|, i requires 0 <= i < |sizes| => Value(b, base + Start(sizes, i), sizes[i]))
  }

  method SplitHeaderValues(buf: array<Byte>, base: nat, sizes: seq<nat>) returns (out: seq<Int32>)
    requires Layout(sizes) && base + End(sizes, 0) <= buf.Length && End(sizes, 0) <= 0xFFFF
    ensures out == Decode(buf[..], base, sizes)
  {
    out := [];
    var j: nat := 0;
    for i := 0 to |sizes|
      invariant j == End(sizes[..i], 0) && ReadSoFar(buf[..], base, sizes, out, i)
    {
      EndStep(sizes, i);
      if sizes[i] != 8 && j % 2 != 0 {
        j := 2 * (j / 2 + 1);
      }
      assert j == Start(sizes, i);
      out := out + [Value(buf[..], base + j, sizes[i])];
      j := j + sizes[i] / 8;
    }
  }

  ghost predicate ReadSoFar(b: seq<Byte>, base: nat, sizes: seq<nat>, out: seq<Int32>, i: nat)
    requires i <= |sizes|
  {
    |out| == i && forall k :: 0 <= k < i ==> out[k] == Value(b, base + Start(sizes, k), sizes[k])
  }

  /** Decoding what was assembled returns every value modulo its width; 32-bit values exactly. */
  lemma LayoutRoundTrip(b: seq<Byte>, base: nat, sizes: seq<nat>, data: seq<Int32>, i: nat)
    requires Layout(sizes) && Carries(b, base, sizes, data, |sizes|) && i < |sizes|
    ensures Decode(b, base, sizes)[i] == Truncate(data[i], sizes[i])
  {
    FieldRoundTrip(b, base + Start(sizes, i), sizes[i], data[i]);
  }

  /** Values that fit their fields come back unchanged. */
  lemma FittingValuesRoundTrip(b: seq<Byte>, base: nat, sizes: seq<nat>, data: seq<Int32>)
    requires Layout(sizes) && Carries(b, base, sizes, data, |sizes|) && |data| == |sizes|
    requires forall i :: 0 <= i < |sizes| ==> Truncate(data[i], sizes[i]) == data[i]
    ensures Decode(b, base, sizes) == data
  {
    forall i | 0 <= i < |sizes| ensures Decode(b, base, sizes)[i] == data[i] {
      LayoutRoundTrip(b, base, sizes, data, i);
    }
  }

  /** A reader that knows only a prefix of the layout sees the same leading values. */
  lemma PrefixView(b: seq<Byte>, base: nat, sizes: seq<nat>, n: nat)
    requires n <= |sizes|
    ensures Decode(b, base, sizes[..n]) == Decode(b, base, sizes)[..n]
  {
    forall i | 0 <= i < n ensures Start(sizes[..n], i) == Start(sizes, i) {
      assert sizes[..n][..i] == sizes[..i];
    }
  }
}
