/**
 Whole messages on top of the layout codec: the fixed message header, the checksum over it, the
 data message with its in-place setters, and the concrete layouts with their declared sizes.
 */
module Messages {
  import opened Words
  import opened Wire
  import opened ChunkId

  // ---- layouts and declared header sizes ---------------------------------------------

  const HEADER: seq<nat> := [8, 8, 16, 16]
  const HEADER_SIZE: nat := 6

  const PING: seq<nat> := [8, 8, 32, 16, 16, 16]
  const PING_BOOT: seq<nat> := PING + [32, 32]
  const PING_BOOT_PERF: seq<nat> :=
    PING_BOOT + [32, 32, 32, 32, 32, 32, 32, 32, 32, 32, 32, 32, 32, 16, 32, 32, 32, 32, 16, 16, 16]
  const PEERLIST: seq<nat> := [8, 16]
  const PEERLIST_SHARE: seq<nat> := PEERLIST + [8, 8, 8, 8, 16, 32, 16, 32, 32, 32, 32, 32]
  const PEERLIST_LOG: seq<nat> := PEERLIST + [32, 32]
  const CHANNEL: seq<nat> := [8, 8, 16, 16, 32, 32, 8, 8, 16, 16]
  const REQUEST: seq<nat> := [32, 16, 32, 16]
  const DATA: seq<nat> := [8, 8, 32, 16, 32, 32]
  const SERVERAUX: seq<nat> := [8, 8, 8, 8]
  const STATE_CHANNEL: seq<nat> := [8]
  const ERROR: seq<nat> := [8]

  const DATA_HEADER_SIZE: nat := 22
  const PEERLIST_HEADER_SIZE: nat := 10

  // Every concrete layout, after the six bytes of the message header, fits its declared size.

  /** `n` fields of one width from an aligned offset. */
  lemma {:induction false} Repeat(n: nat, w: nat, j: nat)
    requires Width(w) && (w == 8 || j % 2 == 0)
    ensures End(seq(n, _ => w), j) == j + n * (w / 8)
    ensures n == 2 ==> End([w, w], j) == j + 2 * (w / 8)
    ensures n == 4 ==> End([w, w, w, w], j) == j + 4 * (w / 8)
  {
    var s := seq(n, _ => w);
    if n > 0 {
      assert s[1..] == seq((n - 1) as nat, _ => w);
      Repeat(n - 1, w, j + w / 8);
    }
    assert n == 2 ==> s == [w, w];
    assert n == 4 ==> s == [w, w, w, w];
  }

  lemma HeaderLayout()
    ensures End(HEADER, 0) == HEADER_SIZE && Start(HEADER, 1) == 1
  {
    assert HEADER == [8, 8] + [16, 16];
    Repeat(2, 8, 0);
    Repeat(2, 16, 2);
    EndConcat([8, 8], [16, 16], 0);
    assert HEADER[..1] == [8];
  }

  lemma PingLayoutsFit()
    ensures HEADER_SIZE + End(PING, 0) == 18
    ensures HEADER_SIZE + End(PING_BOOT, 0) == 26
    ensures HEADER_SIZE + End(PING_BOOT_PERF, 0) == 102
  {
    PingFits();
    Repeat(2, 32, 12);
    EndConcat(PING, [32, 32], 0);
    var words, halves := seq(4, _ => 32), seq(3, _ => 16);
    assert PING_BOOT_PERF == PING_BOOT + (seq(13, _ => 32) + ([16] + (words + halves)));
    EndConcat(PING_BOOT, seq(13, _ => 32) + ([16] + (words + halves)), 0);
    PerformanceFits(words, halves);
  }

  lemma PingFits()
    ensures End(PING, 0) == 12
  {
    var halves := seq(3, _ => 16);
    assert PING == [8, 8] + ([32] + halves);
    Repeat(2, 8, 0);
    Repeat(3, 16, 6);
    EndConcat([8, 8], [32] + halves, 0);
    EndConcat([32], halves, 2);
    assert End([32], 2) == 6;
  }

  lemma PerformanceFits(words: seq<nat>, halves: seq<nat>)
    requires words == seq(4, _ => 32) && halves == seq(3, _ => 16)
    ensures End(seq(13, _ => 32) + ([16] + (words + halves)), 20) == 96
  {
    Repeat(13, 32, 20);
    EndConcat(seq(13, _ => 32), [16] + (words + halves), 20);
    assert End([16], 72) == 74;
    EndConcat([16], words + halves, 72);
    Repeat(4, 32, 74);
    EndConcat(words, halves, 74);
    Repeat(3, 16, 90);
  }

  lemma PeerlistLayoutsFit()
    ensures HEADER_SIZE + End(PEERLIST, 0) == PEERLIST_HEADER_SIZE
    ensures HEADER_SIZE + End(PEERLIST_LOG, 0) == 18
  {
    assert PEERLIST == [8] + [16];
    EndConcat([8], [16], 0);
    assert End([8], 0) == 1 && End([16], 1) == 4;
    Repeat(2, 32, 4);
    EndConcat(PEERLIST, [32, 32], 0);
  }

  lemma PeerlistShareLayoutFits()
    ensures HEADER_SIZE + End(PEERLIST_SHARE, 0) == 42
  {
    PeerlistLayoutsFit();
    var bytes, longs := seq(4, _ => 8), seq(5, _ => 32);
    assert PEERLIST_SHARE == PEERLIST + (bytes + ([16] + ([32] + ([16] + longs))));
    EndConcat(PEERLIST, bytes + ([16] + ([32] + ([16] + longs))), 0);
    ShareTailFits(bytes, longs);
  }

  lemma ShareTailFits(bytes: seq<nat>, longs: seq<nat>)
    requires bytes == seq(4, _ => 8) && longs == seq(5, _ => 32)
    ensures End(bytes + ([16] + ([32] + ([16] + longs))), 4) == 36
  {
    Repeat(4, 8, 4);
    EndConcat(bytes, [16] + ([32] + ([16] + longs)), 4);
    assert End([16], 8) == 10 && End([32], 10) == 14 && End([16], 14) == 16;
    EndConcat([16], [32] + ([16] + longs), 8);
    EndConcat([32], [16] + longs, 10);
    EndConcat([16], longs, 14);
    Repeat(5, 32, 16);
  }

  lemma ChannelLayoutFits()
    ensures HEADER_SIZE + End(CHANNEL, 0) == 26
  {
    var bytes, shorts, longs := seq(2, _ => 8), seq(2, _ => 16), seq(2, _ => 32);
    assert CHANNEL == HEADER + (longs + (bytes + shorts));
    HeaderLayout();
    EndConcat(HEADER, longs + (bytes + shorts), 0);
    ChannelTailFits(longs, bytes, shorts);
  }

  lemma ChannelTailFits(longs: seq<nat>, bytes: seq<nat>, shorts: seq<nat>)
    requires bytes == seq(2, _ => 8) && shorts == seq(2, _ => 16) && longs == seq(2, _ => 32)
    ensures End(longs + (bytes + shorts), HEADER_SIZE) == 20
  {
    Repeat(2, 32, 6);
    EndConcat(longs, bytes + shorts, 6);
    Repeat(2, 8, 14);
    EndConcat(bytes, shorts, 14);
    Repeat(2, 16, 16);
  }

  lemma ChunkLayoutsFit()
    ensures HEADER_SIZE + End(REQUEST, 0) == 18
    ensures HEADER_SIZE + End(DATA, 0) == DATA_HEADER_SIZE
  {
    var chunk := [32, 16];
    assert chunk[1..] == [16] && End([16], 4) == 6 && End([16], 10) == 12 && End([16], 6) == 8;
    assert End(chunk, 0) == 6 && End(chunk, 6) == 12 && End(chunk, 2) == 8;
    assert REQUEST == chunk + chunk;
    EndConcat(chunk, chunk, 0);
    assert DATA == [8, 8] + (chunk + [32, 32]);
    Repeat(2, 8, 0);
    EndConcat([8, 8], chunk + [32, 32], 0);
    EndConcat(chunk, [32, 32], 2);
    Repeat(2, 32, 8);
  }

  lemma SmallLayoutsFit()
    ensures HEADER_SIZE + End(SERVERAUX, 0) <= 32
    ensures HEADER_SIZE + End(STATE_CHANNEL, 0) <= 8
    ensures HEADER_SIZE + End(ERROR, 0) <= 8
  {
    Repeat(4, 8, 0);
  }

  /** So a reader of the base ping (or peer list) message reads every derived message correctly. */
  lemma BaseReadersAgree(b: seq<Byte>)
    ensures Decode(b, HEADER_SIZE, PING) == Decode(b, HEADER_SIZE, PING_BOOT_PERF)[..6]
    ensures Decode(b, HEADER_SIZE, PING_BOOT) == Decode(b, HEADER_SIZE, PING_BOOT_PERF)[..8]
    ensures Decode(b, HEADER_SIZE, PEERLIST) == Decode(b, HEADER_SIZE, PEERLIST_SHARE)[..2]
    ensures Decode(b, HEADER_SIZE, PEERLIST) == Decode(b, HEADER_SIZE, PEERLIST_LOG)[..2]
  {
    PrefixView(b, HEADER_SIZE, PING_BOOT_PERF, 6);
    PrefixView(b, HEADER_SIZE, PING_BOOT_PERF, 8);
    PrefixView(b, HEADER_SIZE, PEERLIST_SHARE, 2);
    PrefixView(b, HEADER_SIZE, PEERLIST_LOG, 2);
    assert PING_BOOT_PERF[..6] == PING && PING_BOOT_PERF[..8] == PING_BOOT;
    assert PEERLIST_SHARE[..2] == PEERLIST && PEERLIST_LOG[..2] == PEERLIST;
  }

  // ---- the checksum ------------------------------------------------------------------

  /** The size byte of the message header. */
  function HeaderSize(b: seq<Byte>): nat {
    At(b, 1)
  }

  function Word(b: seq<Byte>, i: nat): nat {
    At(b, 2 * i) + 0x100 * At(b, 2 * i + 1)
  }

  function Sum(b: seq<Byte>, n: nat): nat {
    if n == 0 then 0 else Sum(b, n - 1) + Word(b, n - 1)
  }

  function Checksum(b: seq<Byte>): Uint16 {
    ToUint16(Sum(b, HeaderSize(b) / 2))
  }

  predicate Intact(b: seq<Byte>) {
    ToUint16(Checksum(b) as int + 1) == 0
  }

  function Cleared(b: seq<Byte>): seq<Byte>
    requires |b| >= HEADER_SIZE
  {
    b[4 := 0][5 := 0]
  }

  function WithChecksum(b: seq<Byte>): seq<Byte>
    requires |b| >= HEADER_SIZE
  {
    var c := 0xFFFF - Checksum(Cleared(b)) as int;
    b[4 := c % 0x100][5 := c / 0x100]
  }

  lemma {:induction false} SumChange(b: seq<Byte>, c: seq<Byte>, i: nat, n: nat)
    requires forall k :: 0 <= k < n && k != i ==> Word(b, k) == Word(c, k)
    ensures Sum(c, n) - Sum(b, n) == if i < n then Word(c, i) - Word(b, i) else 0
  {
    if n > 0 { SumChange(b, c, i, n - 1); }
  }

  /**
   SetIntegrity makes CheckIntegrity true for every header that covers the checksum word.  On
   a header of fewer than six bytes the check passes only if the covered words already add up
   to 0xFFFF.
   */
  lemma SetThenCheck(b: seq<Byte>)
    requires |b| >= HEADER_SIZE
    ensures Intact(WithChecksum(b)) <==> HeaderSize(b) >= HEADER_SIZE || Checksum(b) == 0xFFFF
  {
    var z, c, n := Cleared(b), WithChecksum(b), HeaderSize(b) / 2;
    OnlyChecksumWord(b, n);
    SumChange(z, c, 2, n);
    SumChange(z, b, 2, n);
    ChecksumWords(b);
    Complemented(Sum(z, n));
  }

  lemma OnlyChecksumWord(b: seq<Byte>, n: nat)
    requires |b| >= HEADER_SIZE
    ensures forall k :: 0 <= k < n && k != 2 ==> Word(Cleared(b), k) == Word(WithChecksum(b), k) == Word(b, k)
  {
    forall k | 0 <= k < n && k != 2 ensures Word(Cleared(b), k) == Word(WithChecksum(b), k) == Word(b, k) {
      assert 2 * k != 4 && 2 * k + 1 != 4 && 2 * k != 5 && 2 * k + 1 != 5;
    }
  }

  lemma ChecksumWords(b: seq<Byte>)
    requires |b| >= HEADER_SIZE
    ensures Word(Cleared(b), 2) == 0 && Word(WithChecksum(b), 2) == 0xFFFF - Checksum(Cleared(b))
    ensures HeaderSize(Cleared(b)) == HeaderSize(WithChecksum(b)) == HeaderSize(b)
  {
  }

  lemma Complemented(sum: nat)
    ensures ToUint16(ToUint16(sum + (0xFFFF - ToUint16(sum))) as int + 1) == 0
  {
  }

  /** Any change of one covered word that leaves the size byte alone is detected. */
  lemma OneWordChangeDetected(b: seq<Byte>, c: seq<Byte>, i: nat)
    requires Intact(b) && HeaderSize(b) == HeaderSize(c) && i < HeaderSize(b) / 2
    requires forall k :: 0 <= k < HeaderSize(b) / 2 && k != i ==> Word(b, k) == Word(c, k)
    requires Word(b, i) != Word(c, i)
    ensures !Intact(c)
  {
    SumChange(b, c, i, HeaderSize(b) / 2);
    DifferentResidues(Sum(b, HeaderSize(b) / 2), Word(c, i) - Word(b, i));
  }

  lemma DifferentResidues(x: int, d: int)
    requires -0x1_0000 < d < 0x1_0000 && d != 0
    ensures ToUint16(x) != ToUint16(x + d)
  {
  }

  method GetHeaderSize(buf: array<Byte>) returns (size: Byte)
    requires buf.Length >= HEADER_SIZE
    ensures size == HeaderSize(buf[..])
  {
    HeaderLayout();
    var values := SplitHeaderValues(buf, 0, HEADER);
    size := ToUint8(values[1]);
  }

  lemma WordAdded(b: seq<Byte>, i: nat)
    ensures ToUint16(ToUint16(Sum(b, i)) as int + At(b, 2 * i) as int + 0x100 * At(b, 2 * i + 1) as int)
            == ToUint16(Sum(b, i + 1))
  {
  }

  method CalcChecksum(buf: array<Byte>) returns (checksum: Uint16)
    requires buf.Length >= HEADER_SIZE && buf.Length >= HeaderSize(buf[..])
    ensures checksum == Checksum(buf[..])
  {
    var size := GetHeaderSize(buf);
    ghost var b := buf[..];
    checksum := 0;
    for i := 0 to size / 2
      invariant checksum == ToUint16(Sum(b, i))
    {
      WordAdded(b, i);
      checksum := ToUint16(checksum as int + buf[2 * i] as int + 0x100 * buf[2 * i + 1] as int);
    }
  }

  method SetIntegrity(buf: array<Byte>)
    requires buf.Length >= HEADER_SIZE && buf.Length >= HeaderSize(buf[..])
    modifies buf
    ensures buf[..] == WithChecksum(old(buf[..]))
  {
    for i := 0 to 2
      invariant forall p :: 0 <= p < buf.Length ==> buf[p] == if 4 <= p < 4 + i then 0 else old(buf[p])
    {
      buf[4 + i] := 0;
    }
    assert buf[..] == Cleared(old(buf[..]));
    var sum := CalcChecksum(buf);
    var checksum := 0xFFFF - sum as int;
    for i := 0 to 2
      invariant forall p :: 0 <= p < buf.Length && !(4 <= p < 6) ==> buf[p] == old(buf[p])
      invariant i > 0 ==> buf[4] == checksum % 0x100
      invariant i > 1 ==> buf[5] == checksum / 0x100
    {
      buf[4 + i] := if i == 0 then checksum % 0x100 else checksum / 0x100;
    }
  }

  method CheckIntegrity(buf: array<Byte>) returns (ok: bool)
    requires buf.Length >= HEADER_SIZE && buf.Length >= HeaderSize(buf[..])
    ensures ok == Intact(buf[..])
  {
    var sum := CalcChecksum(buf);
    ok := ToUint16(sum as int + 1) == 0;
  }

  // ---- setting one byte through the word it belongs to --------------------------------

  /** `ntohs` and `htons` on a little-endian host. */
  function SwapBytes(x: Uint16): Uint16 {
    (x % 0x100) * 0x100 + x / 0x100
  }

  function ShortSetHigh(target: Uint16, value: Byte): Uint16 {
    target % 0x100 + value as int * 0x100
  }

  function ShortSetLow(target: Uint16, value: Byte): Uint16 {
    (target / 0x100) * 0x100 + value as int
  }

  function ShortGetHigh(target: Uint16): Byte { target / 0x100 }

  function ShortGetLow(target: Uint16): Byte { target % 0x100 }

  lemma SwapTwoBytes(lo: Byte, hi: Byte)
    ensures SwapBytes(lo as int + 0x100 * hi as int) == hi as int + 0x100 * lo as int
  {
  }

  lemma OneByteOfWord(lo: Byte, hi: Byte, v: Byte)
    ensures SwapBytes(ShortSetHigh(SwapBytes(lo as int + 0x100 * hi as int), v)) == v as int + 0x100 * hi as int
    ensures SwapBytes(ShortSetLow(SwapBytes(lo as int + 0x100 * hi as int), v)) == lo as int + 0x100 * v as int
  {
    SwapTwoBytes(lo, hi);
    SwapTwoBytes(hi, v);
    SwapTwoBytes(v, lo);
    assert ShortSetHigh(hi as int + 0x100 * lo as int, v) == hi as int + 0x100 * v as int;
    assert ShortSetLow(hi as int + 0x100 * lo as int, v) == v as int + 0x100 * lo as int;
  }

  lemma BytesOfWord(lo: Byte, hi: Byte)
    ensures ShortGetLow(lo as int + 0x100 * hi as int) == lo && ShortGetHigh(lo as int + 0x100 * hi as int) == hi
  {
  }

  method CodedWord(first: Byte, second: Byte, high: bool, value: Byte) returns (word: Uint16)
    ensures ShortGetLow(word) == if high then value else first
    ensures ShortGetHigh(word) == if high then second else value
  {
    var loaded := SwapBytes(first as int + 0x100 * second as int);
    if high {
      word := SwapBytes(ShortSetHigh(loaded, value));
      assert word == value as int + 0x100 * second as int by { OneByteOfWord(first, second, value); }
      BytesOfWord(value, second);
    } else {
      word := SwapBytes(ShortSetLow(loaded, value));
      assert word == first as int + 0x100 * value as int by { OneByteOfWord(first, second, value); }
      BytesOfWord(first, value);
    }
  }

  /** The word is loaded, swapped, changed, swapped back and stored: only the addressed byte changes. */
  method SetCodedByteValue(buf: array<Byte>, address: nat, value: Byte)
    requires address / 2 * 2 + 1 < buf.Length
    modifies buf
    ensures buf[..] == old(buf[..])[address := value]
  {
    var at := address / 2 * 2;
    var newValue := CodedWord(buf[at], buf[at + 1], address % 2 == 0, value);
    for i := 0 to 2
      invariant forall p :: 0 <= p < buf.Length && p != at && p != at + 1 ==> buf[p] == old(buf[p])
      invariant i > 0 ==> buf[at] == ShortGetLow(newValue)
      invariant i > 1 ==> buf[at + 1] == ShortGetHigh(newValue)
    {
      buf[at + i] := if i == 0 then ShortGetLow(newValue) else ShortGetHigh(newValue);
    }
  }

  // ---- the data message --------------------------------------------------------------

  lemma StartsOfDataLayout(sizes: seq<nat>)
    requires |sizes| == 6 && sizes[0] == sizes[1] == 8 && sizes[3] == 16
    requires sizes[2] == sizes[4] == sizes[5] == 32
    ensures Start(sizes, 0) == 0 && Start(sizes, 1) == 1 && Start(sizes, 2) == 2
    ensures Start(sizes, 3) == 6 && Start(sizes, 4) == 8 && Start(sizes, 5) == 12
  {
    EndStep(sizes, 0);
    EndStep(sizes, 1);
    EndStep(sizes, 2);
    EndStep(sizes, 3);
    EndStep(sizes, 4);
  }

  /** Hop, tries, cycle, position, generation time, duration. */
  function DataFields(b: seq<Byte>): seq<Int32> {
    Decode(b, HEADER_SIZE, DATA)
  }

  lemma DataFieldsAre(b: seq<Byte>)
    ensures DataFields(b) == [Value(b, 6, 8), Value(b, 7, 8), Value(b, 8, 32),
                              Value(b, 12, 16), Value(b, 14, 32), Value(b, 18, 32)]
  {
    StartsOfDataLayout(DATA);
  }

  datatype Setter = SetHop(hop: Byte) | SetTries(tries: Byte) | SetDuration(duration: Uint32)

  function Applied(b: seq<Byte>, op: Setter): seq<Byte>
    requires |b| >= DATA_HEADER_SIZE
  {
    match op
    case SetHop(v) => b[6 := v]
    case SetTries(v) => b[7 := v]
    case SetDuration(v) =>
      b[18 := FieldByte(v, 0)][19 := FieldByte(v, 1)][20 := FieldByte(v, 2)][21 := FieldByte(v, 3)]
  }

  function SetField(fields: seq<Int32>, op: Setter): seq<Int32>
    requires |fields| == 6
  {
    match op
    case SetHop(v) => fields[0 := v]
    case SetTries(v) => fields[1 := v]
    case SetDuration(v) => fields[5 := ToInt32(v)]
  }

  lemma DivideShifted(i: int)
    ensures (i + 0x1_0000_0000) / 0x100 == i / 0x100 + 0x100_0000
    ensures (i + 0x1_0000_0000) / 0x1_0000 == i / 0x1_0000 + 0x1_0000
    ensures (i + 0x1_0000_0000) / 0x100_0000 == i / 0x100_0000 + 0x100
  {
  }

  /** An unsigned word and its conversion to `int` have the same bytes. */
  lemma FieldBytesOfInt32(v: Uint32, k: nat)
    requires k < 4
    ensures FieldByte(v, k) == FieldByte(ToInt32(v), k)
  {
    if v >= 0x8000_0000 {
      var i := v as int - 0x1_0000_0000;
      assert ToInt32(v) == i;
      DivideShifted(i);
      if k == 0 {
        AddMultiple(i, 0x100_0000);
      } else if k == 1 {
        AddMultiple(i / 0x100, 0x1_0000);
      } else if k == 2 {
        AddMultiple(i / 0x1_0000, 0x100);
      } else {
        AddMultiple(i / 0x100_0000, 1);
      }
    }
  }

  lemma AddMultiple(x: int, m: nat)
    ensures (x + 0x100 * m) % 0x100 == x % 0x100
  {
  }

  lemma DurationValue(b: seq<Byte>, v: Uint32)
    requires |b| >= DATA_HEADER_SIZE
    ensures Value(Applied(b, SetDuration(v)), 18, 32) == ToInt32(v)
  {
    var c := Applied(b, SetDuration(v));
    forall k | 0 <= k < 4 ensures c[18 + k] == FieldByte(ToInt32(v), k) {
      FieldBytesOfInt32(v, k);
    }
    FieldRoundTrip(c, 18, 32, ToInt32(v));
  }

  /** A setter changes its own decoded field and no other byte. */
  lemma SetterChangesOneField(b: seq<Byte>, op: Setter)
    requires |b| >= DATA_HEADER_SIZE
    ensures |Applied(b, op)| == |b| && DataFields(Applied(b, op)) == SetField(DataFields(b), op)
    ensures Applied(b, op)[..HEADER_SIZE] == b[..HEADER_SIZE]
    ensures Applied(b, op)[DATA_HEADER_SIZE..] == b[DATA_HEADER_SIZE..]
  {
    DataFieldsAre(b);
    DataFieldsAre(Applied(b, op));
    if op.SetDuration? { DurationValue(b, op.duration); }
  }

  ghost function AllApplied(b: seq<Byte>, ops: seq<Setter>): (r: seq<Byte>)
    requires |b| >= DATA_HEADER_SIZE
    ensures |r| == |b|
    decreases |ops|
  {
    if ops == [] then b else AllApplied(Applied(b, ops[0]), ops[1..])
  }

  ghost function AllFieldsSet(fields: seq<Int32>, ops: seq<Setter>): (r: seq<Int32>)
    requires |fields| == 6
    ensures |r| == 6
    decreases |ops|
  {
    if ops == [] then fields else AllFieldsSet(SetField(fields, ops[0]), ops[1..])
  }

  /**
   Any sequence of setters changes only the decoded fields it names, leaves the message header
   and the media bytes alone, and the message passes its check again after SetIntegrity.
   */
  lemma {:induction false} SettersThenIntegrity(b: seq<Byte>, ops: seq<Setter>)
    requires |b| >= DATA_HEADER_SIZE
    ensures var r := AllApplied(b, ops);
            && DataFields(r) == AllFieldsSet(DataFields(b), ops)
            && r[..HEADER_SIZE] == b[..HEADER_SIZE] && r[DATA_HEADER_SIZE..] == b[DATA_HEADER_SIZE..]
            && DataFields(WithChecksum(r)) == DataFields(r)
            && (HeaderSize(b) >= HEADER_SIZE ==> Intact(WithChecksum(r)))
    decreases |ops|
  {
    if ops == [] {
      ChecksumKeepsFields(b);
      SetThenCheck(b);
    } else {
      var c := Applied(b, ops[0]);
      SetterChangesOneField(b, ops[0]);
      assert HeaderSize(c) == HeaderSize(b) by { assert c[..HEADER_SIZE][1] == b[..HEADER_SIZE][1]; }
      SettersThenIntegrity(c, ops[1..]);
    }
  }

  lemma ChecksumKeepsFields(b: seq<Byte>)
    requires |b| >= HEADER_SIZE
    ensures DataFields(WithChecksum(b)) == DataFields(b)
  {
    DataFieldsAre(b);
    DataFieldsAre(WithChecksum(b));
  }

  /** Opcode, header size and body size, with a cleared checksum. */
  method AssembleMessageHeader(buf: array<Byte>, opcode: Byte, headerSize: Byte, bodySize: Uint16)
    returns (size: Byte)
    requires HEADER_SIZE <= buf.Length
    modifies buf
    ensures Decode(buf[..], 0, HEADER) == [opcode, headerSize, bodySize, 0]
    ensures forall p :: HEADER_SIZE <= p < buf.Length ==> buf[p] == old(buf[p])
    ensures size == HEADER_SIZE
  {
    HeaderLayout();
    var values: seq<Int32> := [opcode, headerSize, bodySize, 0];
    size := AssembleHeaderValues(buf, 0, HEADER, values);
    HeaderIsDecoded(buf[..], values);
  }

  /** The message header, then the fields of the message. */
  method AssembleHeader(buf: array<Byte>, opcode: Byte, headerSize: Byte, bodySize: Uint16,
                        sizes: seq<nat>, data: seq<Int32>) returns (size: Byte)
    requires Layout(sizes) && |sizes| <= |data|
    requires HEADER_SIZE + End(sizes, 0) <= buf.Length && HEADER_SIZE + End(sizes, 0) <= 0xFF
    modifies buf
    ensures Decode(buf[..], 0, HEADER) == [opcode, headerSize, bodySize, 0]
    ensures HeaderSize(buf[..]) == headerSize
    ensures Carries(buf[..], HEADER_SIZE, sizes, data, |sizes|)
    ensures size as int == HEADER_SIZE + End(sizes, 0)
  {
    var first := AssembleMessageHeader(buf, opcode, headerSize, bodySize);
    ghost var header := buf[..HEADER_SIZE];
    assert header == buf[..][..HEADER_SIZE];
    HeaderFrame(buf[..], header);
    var second := AssembleHeaderValues(buf, HEADER_SIZE, sizes, data);
    assert header == buf[..HEADER_SIZE] == buf[..][..HEADER_SIZE];
    HeaderFrame(buf[..], header);
    size := ToUint8(first as int + second as int);
  }

  lemma HeaderIsDecoded(b: seq<Byte>, values: seq<Int32>)
    requires Carries(b, 0, HEADER, values, 4) && |values| == 4 && values[3] == 0
    requires 0 <= values[0] < 0x100 && 0 <= values[1] < 0x100 && 0 <= values[2] < 0x1_0000
    ensures Decode(b, 0, HEADER) == values
  {
    FittingValuesRoundTrip(b, 0, HEADER, values);
  }

  lemma DataIsDecoded(b: seq<Byte>, sizes: seq<nat>, data: seq<Int32>)
    requires |sizes| == 6 && sizes[0] == sizes[1] == 8 && sizes[3] == 16
    requires sizes[2] == sizes[4] == sizes[5] == 32
    requires Layout(sizes) && Carries(b, HEADER_SIZE, sizes, data, 6) && |data| == 6
    requires 0 <= data[0] < 0x100 && 0 <= data[1] < 0x100 && 0 <= data[3] < 0x1_0000
    ensures Decode(b, HEADER_SIZE, sizes) == data
  {
    FittingValuesRoundTrip(b, HEADER_SIZE, sizes, data);
  }

  /** The message header is decoded from its six bytes alone, and its size field is byte 1. */
  lemma HeaderFrame(b: seq<Byte>, header: seq<Byte>)
    requires |b| >= HEADER_SIZE && b[..HEADER_SIZE] == header
    ensures Decode(b, 0, HEADER) == Decode(header, 0, HEADER)
    ensures Decode(b, 0, HEADER)[1] == HeaderSize(b)
  {
    HeaderLayout();
    StartsOfHeader(HEADER);
    assert forall p :: 0 <= p < HEADER_SIZE ==> At(b, p) == At(header, p);
  }

  lemma StartsOfHeader(sizes: seq<nat>)
    requires |sizes| == 4 && sizes[0] == sizes[1] == 8 && sizes[2] == sizes[3] == 16
    ensures Start(sizes, 0) == 0 && Start(sizes, 1) == 1 && Start(sizes, 2) == 2 && Start(sizes, 3) == 4
  {
    EndStep(sizes, 0);
    EndStep(sizes, 1);
    EndStep(sizes, 2);
  }

  const OPCODE_DATA: Byte := 4

  class MessageData {
    const firstByte: array<Byte>

    constructor (bodySize: Uint16, hop: Byte, tries: Byte, chunkuid: ChunkUniqueID,
                 generationTime: Uint32, estimatedDuration: Uint32)
      ensures fresh(firstByte) && firstByte.Length == DATA_HEADER_SIZE + bodySize
      ensures Decode(firstByte[..], 0, HEADER) == [OPCODE_DATA, DATA_HEADER_SIZE, bodySize, 0]
      ensures HeaderSize(firstByte[..]) == DATA_HEADER_SIZE
      ensures DataFields(firstByte[..]) == [hop, tries, ToInt32(chunkuid.cycle), chunkuid.position,
                                            ToInt32(generationTime), ToInt32(estimatedDuration)]
    {
      firstByte := new Byte[DATA_HEADER_SIZE + bodySize];
      new;
      ChunkLayoutsFit();
      var data: seq<Int32> := [hop, tries, ToInt32(chunkuid.cycle), chunkuid.position,
                               ToInt32(generationTime), ToInt32(estimatedDuration)];
      var _ := AssembleHeader(firstByte, OPCODE_DATA, DATA_HEADER_SIZE, bodySize, DATA, data);
      DataIsDecoded(firstByte[..], DATA, data);
    }

    method SetHop(hop: Byte)
      requires firstByte.Length >= DATA_HEADER_SIZE
      modifies firstByte
      ensures firstByte[..] == Applied(old(firstByte[..]), Setter.SetHop(hop))
    {
      SetCodedByteValue(firstByte, HEADER_SIZE + 0, hop);
    }

    method SetTries(tries: Byte)
      requires firstByte.Length >= DATA_HEADER_SIZE
      modifies firstByte
      ensures firstByte[..] == Applied(old(firstByte[..]), Setter.SetTries(tries))
    {
      SetCodedByteValue(firstByte, HEADER_SIZE + 1, tries);
    }

    method SetDuration(duration: Uint32)
      requires firstByte.Length >= DATA_HEADER_SIZE
      modifies firstByte
      ensures firstByte[..] == Applied(old(firstByte[..]), Setter.SetDuration(duration))
    {
      Repeat(1, 32, 0);
      assert [32] == seq(1, _ => 32);
      var _ := AssembleHeaderValues(firstByte, HEADER_SIZE + 12, [32], [ToInt32(duration)]);
      assert Holds(firstByte[..], 18 + Start([32], 0), 32, ToInt32(duration));
      forall k | 0 <= k < 4 ensures firstByte[18 + k] == FieldByte(duration, k) {
        FieldBytesOfInt32(duration, k);
        assert firstByte[..][18 + k] == FieldByte(ToInt32(duration), k);
      }
    }

    /** Copies the datagram behind the header. */
    method SetMedia(media: seq<Byte>)
      requires firstByte.Length == DATA_HEADER_SIZE + |media| && |media| <= 0xFFFF
      requires HeaderSize(firstByte[..]) == DATA_HEADER_SIZE
      modifies firstByte
      ensures firstByte[..] == old(firstByte[..])[..DATA_HEADER_SIZE] + media
    {
      for i := 0 to |media|
        invariant firstByte[..DATA_HEADER_SIZE] == old(firstByte[..])[..DATA_HEADER_SIZE]
        invariant firstByte[DATA_HEADER_SIZE..DATA_HEADER_SIZE + i] == media[..i]
      {
        firstByte[DATA_HEADER_SIZE + i] := media[i];
      }
      assert firstByte[..] == firstByte[..DATA_HEADER_SIZE] + firstByte[DATA_HEADER_SIZE..DATA_HEADER_SIZE + |media|];
    }
  }
}
