/**
 The peer-list message: six bytes per peer behind the header, four address octets and a
 big-endian port, converted from and to dotted-quad and decimal text.
 */
module Peerlist {
  import opened Keys
  import opened Words
  import opened Messages

  datatype Peer = Peer(ip: string, port: string)

  function ID(p: Peer): string {
    p.ip + ":" + p.port
  }

  // ---- decimal text ------------------------------------------------------------------

  function Digit(d: nat): char
    requires d < 10
  {
    '0' + d as char
  }

  function Decimal(n: nat): (s: string)
    ensures s != ""
  {
    if n < 10 then [Digit(n)] else Decimal(n / 10) + [Digit(n % 10)]
  }

  lemma {:induction false} DecimalHasNoDot(n: nat)
    ensures '.' !in Decimal(n)
  {
    if n >= 10 { DecimalHasNoDot(n / 10); }
  }

  /** The value of a non-empty text of decimal digits. */
  function Parse(s: string): Option<nat> {
    if s == "" then None
    else
      var c := s[|s| - 1];
      if !('0' <= c <= '9') then None
      else
        var d := c as int - '0' as int;
        if |s| == 1 then Some(d)
        else match Parse(s[..|s| - 1])
             case None => None
             case Some(v) => Some(10 * v + d)
  }

  lemma {:induction false} DecimalRoundTrip(n: nat)
    ensures Parse(Decimal(n)) == Some(n)
  {
    if n >= 10 {
      DecimalRoundTrip(n / 10);
      assert Decimal(n)[..|Decimal(n)| - 1] == Decimal(n / 10);
    }
  }

  /** `lexical_cast<uint16_t>`: fails on text that is not a number or does not fit. */
  function LexicalUint16(s: string): Option<Uint16> {
    match Parse(s)
    case Some(v) => if v < 0x1_0000 then Some(v) else None
    case None => None
  }

  // ---- dotted quads ------------------------------------------------------------------

  /** `find('.')`, with the length standing for `npos`. */
  function FindDot(s: string): (i: nat)
    ensures i <= |s|
  {
    if s == "" || s[0] == '.' then 0 else 1 + FindDot(s[1..])
  }

  /** The text behind the first dot; the whole text again when there is none. */
  function Rest(s: string): string {
    if FindDot(s) < |s| then s[FindDot(s) + 1..] else s
  }

  function Octets(ip: string, n: nat): (r: Option<seq<Byte>>)
    ensures r.Some? ==> |r.value| == n
  {
    if n == 0 then Some([])
    else match LexicalUint16(ip[..FindDot(ip)])
         case None => None
         case Some(v) =>
           match Octets(Rest(ip), n - 1)
           case None => None
           case Some(os) => Some([ToUint8(v)] + os)
  }

  function Dotted(a: Byte, b: Byte, c: Byte, d: Byte): string {
    Decimal(a) + "." + (Decimal(b) + "." + (Decimal(c) + "." + Decimal(d)))
  }

  lemma {:induction false} FirstPart(head: string, tail: string)
    requires '.' !in head
    ensures FindDot(head + "." + tail) == |head| && Rest(head + "." + tail) == tail
    ensures FindDot(head) == |head|
  {
    var s := head + "." + tail;
    if head == "" {
      assert s == "." + tail && s[1..] == tail;
    } else {
      FirstPart(head[1..], tail);
      assert s[1..] == head[1..] + "." + tail;
      assert s[|head| + 1..] == tail;
    }
  }

  lemma OctetsSplit(ip: string, n: nat)
    ensures Octets(ip, n + 1).Some? <==> LexicalUint16(ip[..FindDot(ip)]).Some? && Octets(Rest(ip), n).Some?
    ensures Octets(ip, n + 1).Some? ==>
              Octets(ip, n + 1).value == [ToUint8(LexicalUint16(ip[..FindDot(ip)]).value)] + Octets(Rest(ip), n).value
  {
  }

  /** The octets of `ip` are those in `done` and then the `left` octets of `text`. */
  ghost predicate ParsedSoFar(ip: string, text: string, done: seq<Byte>, n: nat, left: nat) {
    if Octets(ip, n).Some? then Octets(text, left).Some? && Octets(ip, n).value == done + Octets(text, left).value
    else Octets(text, left).None?
  }

  lemma NothingParsed(ip: string, n: nat)
    ensures ParsedSoFar(ip, ip, [], n, n)
  {
    if Octets(ip, n).Some? { assert [] + Octets(ip, n).value == Octets(ip, n).value; }
  }

  lemma AllParsed(ip: string, text: string, done: seq<Byte>, n: nat)
    requires ParsedSoFar(ip, text, done, n, 0)
    ensures Octets(ip, n) == Some(done)
  {
    assert done + [] == done;
  }

  lemma ParsedOneMore(ip: string, text: string, done: seq<Byte>, n: nat, left: nat)
    requires ParsedSoFar(ip, text, done, n, left + 1)
    ensures var octet := LexicalUint16(text[..FindDot(text)]);
            && (octet.None? ==> Octets(ip, n).None?)
            && (octet.Some? ==> ParsedSoFar(ip, Rest(text), done + [ToUint8(octet.value)], n, left))
  {
    OctetsSplit(text, left);
  }

  lemma LexicalDecimal(v: Uint16)
    ensures LexicalUint16(Decimal(v)) == Some(v)
  {
    DecimalRoundTrip(v);
  }

  lemma OctetsStep(v: Byte, tail: string, n: nat)
    requires Octets(tail, n).Some?
    ensures Octets(Decimal(v) + "." + tail, n + 1) == Some([v] + Octets(tail, n).value)
  {
    var head := Decimal(v);
    DecimalHasNoDot(v);
    FirstPart(head, tail);
    LexicalDecimal(v);
    assert (head + "." + tail)[..|head|] == head;
    OctetsPrepend(head + "." + tail, v, n);
  }

  lemma OctetsPrepend(ip: string, v: Byte, n: nat)
    requires LexicalUint16(ip[..FindDot(ip)]) == Some(v) && Octets(Rest(ip), n).Some?
    ensures Octets(ip, n + 1) == Some([v] + Octets(Rest(ip), n).value)
  {
    OctetsSplit(ip, n);
    SmallStays(v);
  }

  lemma SmallStays(v: Byte)
    ensures ToUint8(v) == v
  {
  }

  /** The octets as text, with dots between them. */
  function Joined(os: seq<Byte>): string
    requires os != []
  {
    if |os| == 1 then Decimal(os[0]) else Decimal(os[0]) + "." + Joined(os[1..])
  }

  /** The parser reads back what a printer of any number of octets writes. */
  lemma {:induction false} JoinedRoundTrip(os: seq<Byte>)
    requires os != []
    ensures Octets(Joined(os), |os|) == Some(os)
  {
    if |os| == 1 {
      LastOctet(os[0], |os| - 1);
      assert os == [os[0]] + [];
    } else {
      JoinedRoundTrip(os[1..]);
      JoinedStep(os[0], os[1..]);
      assert os == [os[0]] + os[1..];
    }
  }

  lemma JoinedStep(v: Byte, rest: seq<Byte>)
    requires rest != [] && Octets(Joined(rest), |rest|) == Some(rest)
    ensures Octets(Joined([v] + rest), |[v] + rest|) == Some([v] + rest)
  {
    JoinedFirst(v, rest);
    OctetsStep(v, Joined(rest), |rest|);
  }

  lemma JoinedFirst(v: Byte, rest: seq<Byte>)
    requires rest != []
    ensures Joined([v] + rest) == Decimal(v) + "." + Joined(rest)
  {
    assert ([v] + rest)[1..] == rest;
  }

  /** A number that ends the text is an octet whether or not more are asked for. */
  lemma LastOctet(v: Byte, n: nat)
    requires Octets(Decimal(v), n).Some?
    ensures Octets(Decimal(v), n + 1) == Some([v] + Octets(Decimal(v), n).value)
  {
    var head := Decimal(v);
    DecimalHasNoDot(v);
    FirstPart(head, "");
    LexicalDecimal(v);
    assert head[..|head|] == head;
    OctetsPrepend(head, v, n);
  }

  /** The parser reads back what the printer writes. */
  lemma DottedRoundTrip(a: Byte, b: Byte, c: Byte, d: Byte)
    ensures Octets(Dotted(a, b, c, d), 4) == Some([a, b, c, d])
  {
    DottedIsJoined(a, b, c, d);
    JoinedRoundTrip([a, b, c, d]);
  }

  lemma DottedIsJoined(a: Byte, b: Byte, c: Byte, d: Byte)
    ensures Joined([a, b, c, d]) == Dotted(a, b, c, d)
  {
    JoinedFirst(a, [b, c, d]);
    JoinedFirst(b, [c, d]);
    JoinedFirst(c, [d]);
  }

  // ---- entries -----------------------------------------------------------------------

  /** The six bytes of one peer, or None where the source's text conversion throws. */
  function Entry(p: Peer): (e: Option<seq<Byte>>)
    ensures e.Some? ==> |e.value| == 6
  {
    match Octets(p.ip, 4)
    case None => None
    case Some(os) =>
      match LexicalUint16(p.port)
      case None => None
      case Some(port) => Some(os + [ShortGetHigh(port), ShortGetLow(port)])
  }

  function Stored(b: seq<Byte>, at: nat, e: seq<Byte>): seq<Byte>
    requires at + |e| <= |b|
  {
    b[..at] + e + b[at + |e|..]
  }

  /** The text printed for six bytes. */
  function Print(e: seq<Byte>): Peer
    requires |e| == 6
  {
    Peer(Dotted(e[0], e[1], e[2], e[3]), Decimal(ShortSetLow(ShortSetHigh(0, e[4]), e[5])))
  }

  /** Canonical text: decimal octets without leading zeros, port in 0..65535. */
  ghost predicate Canonical(p: Peer) {
    exists a: Byte, b: Byte, c: Byte, d: Byte, port: Uint16 ::
      p == Peer(Dotted(a, b, c, d), Decimal(port))
  }

  /** Printing the bytes of a canonical peer gives back its address, its port and so its ID. */
  lemma EntryRoundTrip(p: Peer)
    requires Canonical(p)
    ensures Entry(p).Some? && Print(Entry(p).value) == p
  {
    var o0: Byte, o1: Byte, o2: Byte, o3: Byte, port: Uint16 :|
      p == Peer(Dotted(o0, o1, o2, o3), Decimal(port));
    EntryOf(o0, o1, o2, o3, port);
  }

  lemma EntryOf(o0: Byte, o1: Byte, o2: Byte, o3: Byte, port: Uint16)
    ensures var p := Peer(Dotted(o0, o1, o2, o3), Decimal(port));
            Entry(p).Some? && Print(Entry(p).value) == p
  {
    var p := Peer(Dotted(o0, o1, o2, o3), Decimal(port));
    DottedRoundTrip(o0, o1, o2, o3);
    LexicalDecimal(port);
    EntryIs(p, [o0, o1, o2, o3], port);
    PrintIs([o0, o1, o2, o3], port);
  }

  lemma EntryIs(p: Peer, os: seq<Byte>, port: Uint16)
    requires Octets(p.ip, 4) == Some(os) && LexicalUint16(p.port) == Some(port)
    ensures Entry(p) == Some(os + [ShortGetHigh(port), ShortGetLow(port)])
  {
  }

  lemma PrintIs(os: seq<Byte>, port: Uint16)
    requires |os| == 4
    ensures Print(os + [ShortGetHigh(port), ShortGetLow(port)])
            == Peer(Dotted(os[0], os[1], os[2], os[3]), Decimal(port))
  {
    PortRoundTrip(port);
    var e := os + [ShortGetHigh(port), ShortGetLow(port)];
    assert e[4] == ShortGetHigh(port) && e[5] == ShortGetLow(port);
  }

  lemma PortRoundTrip(port: Uint16)
    ensures ShortSetLow(ShortSetHigh(0, ShortGetHigh(port)), ShortGetLow(port)) == port
  {
  }

  // ---- a message being filled ---------------------------------------------------------

  datatype State = State(bytes: seq<Byte>, added: nat, quantity: nat)

  ghost predicate Valid(s: State) {
    && HeaderSize(s.bytes) >= HEADER_SIZE
    && |s.bytes| == HeaderSize(s.bytes) + 6 * s.quantity
    && s.added <= s.quantity
  }

  /** The six bytes of entry `i`. */
  function EntryAt(s: State, i: nat): seq<Byte>
    requires HeaderSize(s.bytes) + 6 * i + 6 <= |s.bytes|
  {
    s.bytes[HeaderSize(s.bytes) + 6 * i..HeaderSize(s.bytes) + 6 * i + 6]
  }

  function Added(s: State, p: Peer): State
    requires Valid(s) && (s.added < s.quantity ==> Entry(p).Some?)
  {
    if s.added >= s.quantity then s
    else s.(bytes := Stored(s.bytes, HeaderSize(s.bytes) + 6 * s.added, Entry(p).value), added := s.added + 1)
  }

  /** `t` has the header of `s` and its first `n` entries. */
  ghost predicate Keeps(s: State, t: State, n: nat) {
    && Valid(s) && Valid(t) && n <= s.quantity
    && HeaderSize(t.bytes) == HeaderSize(s.bytes) && t.quantity == s.quantity
    && t.bytes[..HeaderSize(s.bytes)] == s.bytes[..HeaderSize(s.bytes)]
    && forall i :: 0 <= i < n ==> EntryAt(t, i) == EntryAt(s, i)
  }

  lemma StoredKeeps(b: seq<Byte>, at: nat, e: seq<Byte>)
    requires at + |e| <= |b|
    ensures var r := Stored(b, at, e); |r| == |b| && r[..at] == b[..at] && r[at..at + |e|] == e
  {
  }

  lemma AddedKeepsTheRest(s: State, p: Peer)
    requires Valid(s) && Entry(p).Some?
    ensures Keeps(s, Added(s, p), s.added)
    ensures Added(s, p).added == if s.added < s.quantity then s.added + 1 else s.added
    ensures s.added < s.quantity ==> EntryAt(Added(s, p), s.added) == Entry(p).value
  {
    if s.added < s.quantity {
      var h, t := HeaderSize(s.bytes), Added(s, p);
      var at := h + 6 * s.added;
      StoredKeeps(s.bytes, at, Entry(p).value);
      assert t.bytes[..at][..h] == s.bytes[..at][..h];
      assert t.bytes[..at][1] == s.bytes[..at][1];
      forall i | 0 <= i < s.added ensures EntryAt(t, i) == EntryAt(s, i) {
        assert t.bytes[..at][h + 6 * i..h + 6 * i + 6] == s.bytes[..at][h + 6 * i..h + 6 * i + 6];
      }
    }
  }

  lemma KeepsIsTransitive(s: State, t: State, r: State, n: nat, m: nat)
    requires Keeps(s, t, n) && Keeps(t, r, m) && n <= m
    ensures Keeps(s, r, n)
  {
    forall i | 0 <= i < n ensures EntryAt(r, i) == EntryAt(s, i) {
      assert EntryAt(t, i) == EntryAt(s, i);
    }
  }

  ghost predicate AllCanonical(ps: seq<Peer>) {
    forall i :: 0 <= i < |ps| ==> Canonical(ps[i])
  }

  ghost function AllAdded(s: State, ps: seq<Peer>): (r: State)
    requires Valid(s) && AllCanonical(ps)
    ensures Valid(r)
    decreases |ps|
  {
    if ps == [] then s
    else
      EntryRoundTrip(ps[0]);
      AddedKeepsTheRest(s, ps[0]);
      AllAdded(Added(s, ps[0]), ps[1..])
  }

  /** From entry `from` on, the message prints the peers `ps`, as many as fit. */
  ghost predicate PrintsFrom(r: State, from: nat, ps: seq<Peer>) {
    && Valid(r) && r.added <= from + |ps|
    && forall i :: from <= i < r.added ==> Print(EntryAt(r, i)) == ps[i - from]
  }

  lemma PrintsOneMore(t: State, r: State, from: nat, p: Peer, ps: seq<Peer>)
    requires Keeps(t, r, from + 1) && PrintsFrom(r, from + 1, ps) && Print(EntryAt(t, from)) == p
    ensures PrintsFrom(r, from, [p] + ps)
  {
    forall i | from <= i < r.added ensures Print(EntryAt(r, i)) == ([p] + ps)[i - from] {
      if i == from { assert EntryAt(r, i) == EntryAt(t, i); }
    }
  }

  /** What adding the peers `ps` to `s` must give. */
  ghost predicate Filled(s: State, r: State, ps: seq<Peer>) {
    && Keeps(s, r, s.added) && PrintsFrom(r, s.added, ps)
    && r.added == if s.added + |ps| <= s.quantity then s.added + |ps| else s.quantity
  }

  lemma FilledOneMore(s: State, t: State, r: State, p: Peer, ps: seq<Peer>)
    requires Keeps(s, t, s.added) && t.added == (if s.added < s.quantity then s.added + 1 else s.added)
    requires s.added < s.quantity ==> Print(EntryAt(t, s.added)) == p
    requires Filled(t, r, ps)
    ensures Filled(s, r, [p] + ps)
  {
    KeepsIsTransitive(s, t, r, s.added, t.added);
    if s.added < s.quantity {
      PrintsOneMore(t, r, s.added, p, ps);
    }
  }

  /** The first peer of a sequence and the message it leaves for the others. */
  lemma FirstAdded(s: State, ps: seq<Peer>) returns (t: State)
    requires Valid(s) && AllCanonical(ps) && ps != []
    ensures Valid(t) && AllCanonical(ps[1..]) && AllAdded(s, ps) == AllAdded(t, ps[1..])
    ensures Keeps(s, t, s.added) && t.added == if s.added < s.quantity then s.added + 1 else s.added
    ensures s.added < s.quantity ==> Print(EntryAt(t, s.added)) == ps[0]
  {
    EntryRoundTrip(ps[0]);
    AddedKeepsTheRest(s, ps[0]);
    t := Added(s, ps[0]);
  }

  /**
   Adding any sequence of peers keeps the header and the entries already present and stores the
   first peers that fit, in order; GetPeer prints each of them back.
   */
  lemma {:induction false} PeerlistRoundTrip(s: State, ps: seq<Peer>)
    requires Valid(s) && AllCanonical(ps)
    ensures Filled(s, AllAdded(s, ps), ps)
    decreases |ps|
  {
    if ps != [] {
      var t := FirstAdded(s, ps);
      PeerlistRoundTrip(t, ps[1..]);
      FilledOneMore(s, t, AllAdded(t, ps[1..]), ps[0], ps[1..]);
      assert [ps[0]] + ps[1..] == ps;
    }
  }

  // ---- the message object -------------------------------------------------------------

  class MessagePeerlist {
    const firstByte: array<Byte>
    const qtdPeers: Uint16
    var peersAdded: nat

    ghost function View(): State
      reads this, firstByte
    {
      State(firstByte[..], peersAdded, qtdPeers)
    }

    constructor (peerlistType: Byte, qtdPeers: Uint16)
      requires 6 * qtdPeers as int < 0x1_0000
      ensures fresh(firstByte) && this.qtdPeers == qtdPeers && peersAdded == 0
      ensures Valid(View()) && HeaderSize(firstByte[..]) == PEERLIST_HEADER_SIZE
    {
      firstByte := new Byte[PEERLIST_HEADER_SIZE + 6 * qtdPeers as int];
      this.qtdPeers := qtdPeers;
      peersAdded := 0;
      new;
      PeerlistLayoutsFit();
      var bodySize := 6 * qtdPeers as int;
      var _ := AssembleHeader(firstByte, OPCODE_PEERLIST, PEERLIST_HEADER_SIZE, bodySize,
                              PEERLIST, [peerlistType, qtdPeers]);
    }

    /** Writes the four octets; false where the source throws. */
    method WriteIpStringToArray(ip: string, at: nat) returns (ok: bool)
      requires at + 4 <= firstByte.Length
      modifies firstByte
      ensures ok <==> Octets(ip, 4).Some?
      ensures ok ==> firstByte[at..at + 4] == Octets(ip, 4).value
      ensures forall p :: 0 <= p < firstByte.Length && !(at <= p < at + 4) ==> firstByte[p] == old(firstByte[p])
    {
      ghost var before := firstByte[..];
      ok := WriteOctets(ip, at, 4);
      assert forall p :: 0 <= p < firstByte.Length && !(at <= p < at + 4) ==> firstByte[..][p] == before[p];
    }

    /** The loop over the octets. */
    method WriteOctets(ip: string, at: nat, n: nat) returns (ok: bool)
      requires at + n <= firstByte.Length
      modifies firstByte
      ensures WrittenAs(old(firstByte[..]), firstByte[..], at, n, Octets(ip, n))
      ensures ok <==> Octets(ip, n).Some?
    {
      var text := ip;
      ghost var done: seq<Byte> := [];
      ghost var before := firstByte[..];
      NothingWritten(ip, before, at, n);
      for i := 0 to n
        invariant Writing(ip, text, before, firstByte[..], at, done, n, i)
      {
        OctetWritten(ip, text, before, firstByte[..], at, done, n, i);
        var octet, rest := WriteOctet(text, at + i);
        if octet.None? {
          return false;
        }
        done := done + [ToUint8(octet.value)];
        text := rest;
      }
      AllWritten(ip, text, before, firstByte[..], at, done, n);
      ok := true;
    }

    /** One octet of the text, written if it is a number. */
    method WriteOctet(text: string, at: nat) returns (octet: Option<Uint16>, rest: string)
      requires at < firstByte.Length
      modifies firstByte
      ensures octet == LexicalUint16(text[..FindDot(text)]) && rest == Rest(text)
      ensures firstByte[..]
              == if octet.Some? then old(firstByte[..])[at := ToUint8(octet.value)] else old(firstByte[..])
    {
      octet, rest := NextOctet(text);
      if octet.Some? {
        firstByte[at] := ToUint8(octet.value);
      }
    }

    method NextOctet(text: string) returns (octet: Option<Uint16>, rest: string)
      ensures octet == LexicalUint16(text[..FindDot(text)]) && rest == Rest(text)
    {
      var dot := FindDot(text);
      octet := LexicalUint16(text[..dot]);
      rest := text;
      if dot != |text| {
        rest := text[dot + 1..];
      }
    }

    method AddPeer(p: Peer) returns (ok: bool)
      requires Valid(View())
      modifies this, firstByte
      ensures ok <==> old(peersAdded) >= qtdPeers || Entry(p).Some?
      ensures ok ==> View() == Added(old(View()), p)
      ensures !ok ==> peersAdded == old(peersAdded)
      ensures !ok ==> var at := HeaderSize(old(firstByte[..])) + 6 * peersAdded;
                      forall k :: 0 <= k < firstByte.Length && !(at <= k < at + 6) ==> firstByte[k] == old(firstByte[k])
    {
      ok := true;
      if peersAdded < qtdPeers {
        var size := GetHeaderSize(firstByte);
        ok := WriteEntry(p, size as int + 6 * peersAdded);
        if ok {
          peersAdded := peersAdded + 1;
        }
      }
    }

    method WriteEntry(p: Peer, at: nat) returns (ok: bool)
      requires at + 6 <= firstByte.Length
      modifies firstByte
      ensures ok <==> Entry(p).Some?
      ensures ok ==> firstByte[..] == Stored(old(firstByte[..]), at, Entry(p).value)
      ensures forall k :: 0 <= k < firstByte.Length && !(at <= k < at + 6) ==> firstByte[k] == old(firstByte[k])
    {
      ok := WriteIpStringToArray(p.ip, at);
      if ok {
        var port := LexicalUint16(p.port);
        if port.None? {
          return false;
        }
        WritePort(port.value, at + 4);
        StoredInPlace(old(firstByte[..]), firstByte[..], at, Entry(p).value);
      }
    }

    method WritePort(port: Uint16, at: nat)
      requires at + 2 <= firstByte.Length
      modifies firstByte
      ensures firstByte[at..at + 2] == [ShortGetHigh(port), ShortGetLow(port)]
      ensures forall p :: 0 <= p < firstByte.Length && !(at <= p < at + 2) ==> firstByte[p] == old(firstByte[p])
    {
      firstByte[at] := ShortGetHigh(port);
      firstByte[at + 1] := ShortGetLow(port);
    }

    method GetPeer(index: nat) returns (p: Peer)
      requires Valid(View()) && index < qtdPeers
      ensures p == Print(EntryAt(View(), index))
    {
      var size := GetHeaderSize(firstByte);
      var at := size as int + 6 * index;
      var ip := Dotted(firstByte[at], firstByte[at + 1], firstByte[at + 2], firstByte[at + 3]);
      var port := Decimal(ShortSetLow(ShortSetHigh(0, firstByte[at + 4]), firstByte[at + 5]));
      p := Peer(ip, port);
    }
  }

  lemma StoredMore(b: seq<Byte>, at: nat, done: seq<Byte>, v: Byte)
    requires at + |done| < |b|
    ensures Stored(b, at, done)[at + |done| := v] == Stored(b, at, done + [v])
  {
  }

  /** Nothing changes but the `n` bytes from `at`; they are `octets` if there are any. */
  ghost predicate WrittenAs(before: seq<Byte>, after: seq<Byte>, at: nat, n: nat, octets: Option<seq<Byte>>) {
    && at + n <= |before| == |after|
    && (octets.Some? ==> after[at..at + n] == octets.value)
    && forall p :: 0 <= p < |before| && !(at <= p < at + n) ==> after[p] == before[p]
  }

  lemma StoredAre(before: seq<Byte>, at: nat, n: nat, done: seq<Byte>, octets: Option<seq<Byte>>)
    requires at + n <= |before| && |done| <= n
    requires octets.Some? ==> octets == Some(done) && |done| == n
    ensures WrittenAs(before, Stored(before, at, done), at, n, octets)
  {
    StoredBytes(before, at, done);
  }

  /** After `i` octets: `done` is written and `text` is left to parse. */
  ghost predicate Writing(ip: string, text: string, before: seq<Byte>, after: seq<Byte>, at: nat, done: seq<Byte>,
                          n: nat, i: nat) {
    && at + n <= |before| && |done| == i <= n && after == Stored(before, at, done)
    && ParsedSoFar(ip, text, done, n, n - i)
  }

  lemma NothingWritten(ip: string, before: seq<Byte>, at: nat, n: nat)
    requires at + n <= |before|
    ensures Writing(ip, ip, before, before, at, [], n, 0)
  {
    NothingParsed(ip, n);
    assert Stored(before, at, []) == before;
  }

  lemma OctetWritten(ip: string, text: string, before: seq<Byte>, after: seq<Byte>, at: nat, done: seq<Byte>,
                     n: nat, i: nat)
    requires i < n && Writing(ip, text, before, after, at, done, n, i)
    ensures var octet := LexicalUint16(text[..FindDot(text)]);
            && (octet.None? ==> Octets(ip, n).None? && WrittenAs(before, after, at, n, None))
            && (octet.Some? ==>
                  Writing(ip, Rest(text), before, after[at + i := ToUint8(octet.value)], at,
                          done + [ToUint8(octet.value)], n, i + 1))
  {
    ParsedOneMore(ip, text, done, n, n - i - 1);
    var octet := LexicalUint16(text[..FindDot(text)]);
    match octet
    case None => StoredAre(before, at, n, done, None);
    case Some(v) => StoredMore(before, at, done, ToUint8(v));
  }

  lemma AllWritten(ip: string, text: string, before: seq<Byte>, after: seq<Byte>, at: nat, done: seq<Byte>, n: nat)
    requires Writing(ip, text, before, after, at, done, n, n)
    ensures WrittenAs(before, after, at, n, Octets(ip, n)) && Octets(ip, n).Some?
  {
    AllParsed(ip, text, done, n);
    StoredAre(before, at, n, done, Some(done));
  }

  lemma StoredBytes(b: seq<Byte>, at: nat, e: seq<Byte>)
    requires at + |e| <= |b|
    ensures |Stored(b, at, e)| == |b| && Stored(b, at, e)[at..at + |e|] == e
    ensures forall p :: 0 <= p < |b| && !(at <= p < at + |e|) ==> Stored(b, at, e)[p] == b[p]
  {
  }

  lemma StoredInPlace(before: seq<Byte>, now: seq<Byte>, at: nat, e: seq<Byte>)
    requires |now| == |before| && |e| == 6 && at + 6 <= |now|
    requires now[at..at + 4] == e[..4] && now[at + 4..at + 6] == e[4..]
    requires forall p :: 0 <= p < |now| && !(at <= p < at + 6) ==> now[p] == before[p]
    ensures now == Stored(before, at, e)
  {
    assert now[at..at + 6] == now[at..at + 4] + now[at + 4..at + 6];
    assert e == e[..4] + e[4..];
    assert now == now[..at] + now[at..at + 6] + now[at + 6..];
    assert now[..at] == before[..at] && now[at + 6..] == before[at + 6..];
  }

  const OPCODE_PEERLIST: Byte := 1
}
