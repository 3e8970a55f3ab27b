/**
 The closest-deadline-first scheduler: requests wait ordered by how far the requested chunk is ahead
 of the requester's playback, everything else waits in a queue that goes first.
 */
module Deadline {
  import opened Filters
  import opened Keys
  import opened ChunkId

  datatype Message =
    | Request(address: string, requested: ChunkUniqueID, playbackTip: ChunkUniqueID, body: nat)
    | Other(address: string, body: nat)

  /** The deadline a request is ordered by. */
  function DeadlineOf(m: Message): ChunkUniqueID
    requires m.Request? && m.requested.bufferSize > 0
  {
    Difference(m.requested, m.playbackTip)
  }

  /** Identities decoded from a request get the standard buffer size and may name any position. */
  ghost predicate Decoded(m: Message) {
    m.Request? ==> m.requested.bufferSize == m.playbackTip.bufferSize == STD_BUFFERSIZE
  }

  datatype State = State(fifo: seq<Message>, requests: seq<Message>)

  ghost predicate Queue(requests: seq<Message>) {
    forall i :: 0 <= i < |requests| ==> requests[i].Request? && requests[i].requested.bufferSize > 0
  }

  ghost predicate Ordered(requests: seq<Message>) {
    Queue(requests)
    && forall i, j :: 0 <= i < j < |requests| ==> !Before(DeadlineOf(requests[j]), DeadlineOf(requests[i]))
  }

  ghost predicate Inv(s: State) {
    Ordered(s.requests) && forall i :: 0 <= i < |s.fifo| ==> s.fifo[i].Other?
  }

  /** How many waiting requests go before one with deadline `d`: a new one goes behind its equals. */
  function Place(requests: seq<Message>, d: ChunkUniqueID): (k: nat)
    requires forall i :: 0 <= i < |requests| ==> requests[i].Request? && requests[i].requested.bufferSize > 0
    ensures k <= |requests|
  {
    if requests == [] then 0
    else if Before(d, DeadlineOf(requests[|requests| - 1])) then Place(requests[..|requests| - 1], d)
    else |requests|
  }

  function AfterPush(s: State, m: Message): State
    requires forall i :: 0 <= i < |s.requests| ==> s.requests[i].Request? && s.requests[i].requested.bufferSize > 0
    requires m.Request? ==> m.requested.bufferSize > 0
  {
    if m.Request? then
      var k := Place(s.requests, DeadlineOf(m));
      s.(requests := s.requests[..k] + [m] + s.requests[k..])
    else s.(fifo := s.fifo + [m])
  }

  function AfterPop(s: State): (State, Option<Message>) {
    if s.fifo != [] then (s.(fifo := s.fifo[1..]), Some(s.fifo[0]))
    else if s.requests != [] then (s.(requests := s.requests[1..]), Some(s.requests[0]))
    else (s, None)
  }

  // ---- the order of deadlines ---------------------------------------------------------

  lemma BeforeIsTransitive(a: ChunkUniqueID, b: ChunkUniqueID, c: ChunkUniqueID)
    requires !Before(b, a) && !Before(c, b)
    ensures !Before(c, a)
  {
  }

  lemma {:induction false} PlaceSplits(requests: seq<Message>, d: ChunkUniqueID)
    requires Ordered(requests)
    ensures forall i :: 0 <= i < Place(requests, d) ==> !Before(d, DeadlineOf(requests[i]))
    ensures forall i :: Place(requests, d) <= i < |requests| ==> Before(d, DeadlineOf(requests[i]))
  {
    if requests != [] {
      var n := |requests| - 1;
      if Before(d, DeadlineOf(requests[n])) {
        PlaceSplits(requests[..n], d);
        forall i | Place(requests, d) <= i < |requests| ensures Before(d, DeadlineOf(requests[i])) {
          if i < n { assert requests[..n][i] == requests[i]; }
        }
      } else {
        forall i | 0 <= i < |requests| ensures !Before(d, DeadlineOf(requests[i])) {
          if i < n { BeforeIsTransitive(DeadlineOf(requests[i]), DeadlineOf(requests[n]), d); }
        }
      }
    }
  }

  lemma PushKeepsInv(s: State, m: Message)
    requires Inv(s) && Decoded(m)
    ensures Inv(AfterPush(s, m))
  {
    if m.Request? {
      PlaceSplits(s.requests, DeadlineOf(m));
    }
  }

  lemma PopKeepsInv(s: State)
    requires Inv(s)
    ensures Inv(AfterPop(s).0)
  {
  }

  // ---- runs -----------------------------------------------------------------------------

  datatype Op = Pushing(m: Message) | Popping

  /** The scheduler with everything pushed and everything handed out so far, in order. */
  datatype History = History(s: State, pushed: seq<Message>, popped: seq<Message>)

  const START := History(State([], []), [], [])

  ghost predicate LegalOp(op: Op) {
    op.Pushing? ==> Decoded(op.m)
  }

  function Step(h: History, op: Op): History
    requires op.Pushing? && op.m.Request? ==> op.m.requested.bufferSize > 0
    requires forall i :: 0 <= i < |h.s.requests| ==>
                           h.s.requests[i].Request? && h.s.requests[i].requested.bufferSize > 0
  {
    match op
    case Pushing(m) => h.(s := AfterPush(h.s, m), pushed := h.pushed + [m])
    case Popping =>
      var r := AfterPop(h.s);
      h.(s := r.0, popped := if r.1.Some? then h.popped + [r.1.value] else h.popped)
  }

  ghost function Run(h: History, ops: seq<Op>): (r: History)
    requires Inv(h.s) && forall i :: 0 <= i < |ops| ==> LegalOp(ops[i])
    ensures Inv(r.s)
    decreases |ops|
  {
    if ops == [] then h
    else
      assert LegalOp(ops[0]);
      StepKeepsInv(h, ops[0]);
      Run(Step(h, ops[0]), ops[1..])
  }

  lemma StepKeepsInv(h: History, op: Op)
    requires Inv(h.s) && LegalOp(op)
    ensures Inv(Step(h, op).s)
  {
    match op
    case Pushing(m) => PushKeepsInv(h.s, m);
    case Popping => PopKeepsInv(h.s);
  }

  // ---- nothing is lost, and equals keep their order -------------------------------------

  /** The requests with deadline `d`; without a deadline, the other messages. */
  function InClass(d: Option<ChunkUniqueID>): Message -> bool {
    (m: Message) => match d
                    case None => m.Other?
                    case Some(k) => m.Request? && m.requested.bufferSize > 0 && Equal(DeadlineOf(m), k)
  }

  function Class(ms: seq<Message>, d: Option<ChunkUniqueID>): seq<Message> {
    Filter(ms, InClass(d))
  }

  /** The waiting messages, in the order they will leave. */
  function Waiting(s: State): seq<Message> {
    s.fifo + s.requests
  }

  /** Of every class, what was pushed is what was handed out followed by what still waits. */
  ghost predicate Conserved(h: History, d: Option<ChunkUniqueID>) {
    Class(h.pushed, d) == Class(h.popped, d) + Class(Waiting(h.s), d)
  }

  /** Everything behind the place of a request has another, later deadline. */
  lemma LaterIsOtherClass(requests: seq<Message>, m: Message, d: Option<ChunkUniqueID>)
    requires Ordered(requests) && m.Request? && m.requested.bufferSize > 0 && InClass(d)(m)
    ensures forall i :: Place(requests, DeadlineOf(m)) <= i < |requests| ==> !InClass(d)(requests[i])
  {
    PlaceSplits(requests, DeadlineOf(m));
    forall i | Place(requests, DeadlineOf(m)) <= i < |requests| ensures !InClass(d)(requests[i]) {
      BeforeIsUnequal(DeadlineOf(m), DeadlineOf(requests[i]), d.value);
    }
  }

  lemma BeforeIsUnequal(a: ChunkUniqueID, b: ChunkUniqueID, k: ChunkUniqueID)
    requires Before(a, b) && Equal(a, k)
    ensures !Equal(b, k)
  {
  }

  lemma InsertedWaits(fifo: seq<Message>, lo: seq<Message>, m: Message, hi: seq<Message>, P: Message -> bool)
    requires P(m) ==> forall i :: 0 <= i < |hi| ==> !P(hi[i])
    ensures Filter(fifo + (lo + [m] + hi), P) == Filter(fifo + (lo + hi), P) + Only(m, P)
  {
    FilterInsert(lo, m, hi, P);
    FilterConcat(fifo, lo + [m] + hi, P);
    FilterConcat(fifo, lo + hi, P);
    Assoc(Filter(fifo, P), Filter(lo + hi, P), Only(m, P));
  }

  lemma PushRequestWaits(s: State, m: Message, d: Option<ChunkUniqueID>)
    requires Inv(s) && Decoded(m) && m.Request?
    ensures Class(Waiting(AfterPush(s, m)), d) == Class(Waiting(s), d) + Only(m, InClass(d))
  {
    var P, k := InClass(d), Place(s.requests, DeadlineOf(m));
    var lo, hi := s.requests[..k], s.requests[k..];
    assert lo + hi == s.requests;
    if P(m) { LaterIsOtherClass(s.requests, m, d); }
    InsertedWaits(s.fifo, lo, m, hi, P);
  }

  lemma PushOtherWaits(s: State, m: Message, d: Option<ChunkUniqueID>)
    requires Inv(s) && m.Other?
    ensures Class(Waiting(AfterPush(s, m)), d) == Class(Waiting(s), d) + Only(m, InClass(d))
  {
    var P := InClass(d);
    FilterConcat(s.fifo, s.requests, P);
    FilterConcat(s.fifo + [m], s.requests, P);
    FilterOne(s.fifo, m, P);
    if P(m) { FilterNone(s.requests, P); }
    Swap(Filter(s.fifo, P), Only(m, P), Filter(s.requests, P));
  }

  lemma PushConserves(h: History, m: Message, d: Option<ChunkUniqueID>)
    requires Inv(h.s) && Decoded(m) && Conserved(h, d)
    ensures Conserved(Step(h, Pushing(m)), d)
  {
    FilterOne(h.pushed, m, InClass(d));
    if m.Request? { PushRequestWaits(h.s, m, d); } else { PushOtherWaits(h.s, m, d); }
    Assoc(Class(h.popped, d), Class(Waiting(h.s), d), Only(m, InClass(d)));
  }

  lemma PopWaits(s: State, d: Option<ChunkUniqueID>)
    requires AfterPop(s).1.Some?
    ensures Class(Waiting(s), d) == Only(AfterPop(s).1.value, InClass(d)) + Class(Waiting(AfterPop(s).0), d)
  {
    var r := AfterPop(s);
    assert Waiting(s) == [r.1.value] + Waiting(r.0);
    FilterHead(r.1.value, Waiting(r.0), InClass(d));
  }

  lemma PopConserves(h: History, d: Option<ChunkUniqueID>)
    requires Inv(h.s) && Conserved(h, d)
    ensures Conserved(Step(h, Popping), d)
  {
    var r := AfterPop(h.s);
    if r.1.Some? {
      var x := Only(r.1.value, InClass(d));
      PopWaits(h.s, d);
      FilterOne(h.popped, r.1.value, InClass(d));
      Assoc(Class(h.popped, d), x, Class(Waiting(r.0), d));
    }
  }

  lemma {:induction false} RunConserves(h: History, ops: seq<Op>, d: Option<ChunkUniqueID>)
    requires Inv(h.s) && (forall i :: 0 <= i < |ops| ==> LegalOp(ops[i])) && Conserved(h, d)
    ensures Conserved(Run(h, ops), d)
    decreases |ops|
  {
    if ops != [] {
      assert LegalOp(ops[0]);
      StepKeepsInv(h, ops[0]);
      match ops[0] {
        case Pushing(m) => PushConserves(h, m, d);
        case Popping => PopConserves(h, d);
      }
      RunConserves(Step(h, ops[0]), ops[1..], d);
    }
  }

  /** On every run, for every deadline, the requests with that deadline are handed out in the order in
      which they were pushed, each exactly once; so are the other messages. */
  lemma EverythingComesOut(ops: seq<Op>, d: Option<ChunkUniqueID>)
    requires Inv(START.s) && forall i :: 0 <= i < |ops| ==> LegalOp(ops[i])
    ensures var h := Run(START, ops); Class(h.pushed, d) == Class(h.popped, d) + Class(Waiting(h.s), d)
  {
    RunConserves(START, ops, d);
  }

  /** The number that waits is the number of pushes less that of successful pops. */
  lemma {:induction false} SizeIsPushesMinusPops(h: History, ops: seq<Op>)
    requires Inv(h.s) && (forall i :: 0 <= i < |ops| ==> LegalOp(ops[i]))
    requires |h.pushed| == |h.popped| + |Waiting(h.s)|
    ensures |Run(h, ops).pushed| == |Run(h, ops).popped| + |Waiting(Run(h, ops).s)|
    decreases |ops|
  {
    if ops != [] {
      assert LegalOp(ops[0]);
      StepKeepsInv(h, ops[0]);
      SizeIsPushesMinusPops(Step(h, ops[0]), ops[1..]);
    }
  }

  // ---- what a pop hands out ---------------------------------------------------------------

  /** Other messages first; then a request no waiting one has an earlier deadline than. */
  lemma PopTakesEarliest(s: State)
    requires Inv(s)
    ensures AfterPop(s).1.None? <==> Waiting(s) == []
    ensures AfterPop(s).1.Some? && AfterPop(s).1.value.Request? ==>
              s.fifo == []
              && forall i :: 0 <= i < |s.requests| ==>
                   !Before(DeadlineOf(s.requests[i]), DeadlineOf(AfterPop(s).1.value))
  {
  }

  /** The identities of the request are numbers of chunks. */
  ghost predicate Numbered(m: Message) {
    m.Request? && Decoded(m) && WellFormed(m.requested) && WellFormed(m.playbackTip)
  }

  ghost predicate AllNumbered(requests: seq<Message>) {
    forall i :: 0 <= i < |requests| ==> Numbered(requests[i])
  }

  /** How many chunks the request is ahead of its requester's playback; a late one is behind. */
  function Ahead(m: Message): int
    requires m.Request?
  {
    Number(m.requested) - Number(m.playbackTip)
  }

  predicate InTime(m: Message)
    requires m.Request?
  {
    AtLeast(m.requested, m.playbackTip)
  }

  /** What the deadline of a late request has too much. */
  function Excess(m: Message): int
    requires m.Request?
  {
    Wrap(m.requested, m.playbackTip)
  }

  /** The deadline is the distance from the playback tip to the requested chunk if and only if the request is
      not before the tip; else it is too large by a buffer or by all cycles. */
  lemma DeadlineIsDistance(m: Message)
    requires Numbered(m)
    ensures WellFormed(DeadlineOf(m)) && DeadlineOf(m).bufferSize == STD_BUFFERSIZE
    ensures Number(DeadlineOf(m)) == Ahead(m) + Excess(m)
    ensures Number(DeadlineOf(m)) == Ahead(m) <==> InTime(m)
  {
    DifferenceWraps(m.requested, m.playbackTip);
  }

  /** The order of any two waiting requests, late ones included. */
  lemma DeadlinesOrder(a: Message, b: Message)
    requires Numbered(a) && Numbered(b)
    ensures Before(DeadlineOf(a), DeadlineOf(b)) <==> Ahead(a) + Excess(a) < Ahead(b) + Excess(b)
  {
    DeadlineIsDistance(a);
    DeadlineIsDistance(b);
    ComparisonsAgree(DeadlineOf(a), DeadlineOf(b));
  }

  /** No waiting request is closer to its requester's playback, or further behind it, than the first. */
  ghost predicate FirstIsClosest(requests: seq<Message>)
    requires AllNumbered(requests) && requests != []
  {
    forall i :: 0 <= i < |requests| ==> Ahead(requests[0]) <= Ahead(requests[i])
  }

  /** Where a request exceeds its distance by more than the first does, it is not more urgent than the first. */
  ghost predicate ExcessIsHarmless(requests: seq<Message>)
    requires AllNumbered(requests) && requests != []
  {
    forall i :: 0 <= i < |requests| && Excess(requests[0]) < Excess(requests[i]) ==>
                  Ahead(requests[0]) <= Ahead(requests[i])
  }

  ghost predicate AllInTime(requests: seq<Message>)
    requires AllNumbered(requests)
  {
    forall i :: 0 <= i < |requests| ==> InTime(requests[i])
  }

  /** The request handed out is the most urgent if and only if none with a larger excess is more urgent; a
      request that is not late is the most urgent if and only if no waiting request is late. */
  lemma PopTakesClosest(s: State)
    requires Inv(s) && s.fifo == [] && s.requests != [] && AllNumbered(s.requests)
    ensures AfterPop(s).1 == Some(s.requests[0])
    ensures FirstIsClosest(s.requests) <==> ExcessIsHarmless(s.requests)
    ensures InTime(s.requests[0]) ==> (FirstIsClosest(s.requests) <==> AllInTime(s.requests))
  {
    forall i | 0 <= i < |s.requests|
      ensures Excess(s.requests[i]) <= Excess(s.requests[0]) ==> Ahead(s.requests[0]) <= Ahead(s.requests[i])
      ensures InTime(s.requests[i]) <==> Ahead(s.requests[i]) >= 0
    {
      LeastFirst(s, i);
      ComparisonsAgree(s.requests[i].requested, s.requests[i].playbackTip);
    }
    if InTime(s.requests[0]) && AllInTime(s.requests) {
      forall i | 0 <= i < |s.requests| ensures Excess(s.requests[i]) == 0 {
        assert InTime(s.requests[i]);
      }
    }
    if InTime(s.requests[0]) && FirstIsClosest(s.requests) {
      forall i | 0 <= i < |s.requests| ensures InTime(s.requests[i]) {
        assert Ahead(s.requests[0]) <= Ahead(s.requests[i]);
      }
    }
  }

  /** The first request has the least sum of distance and excess. */
  lemma LeastFirst(s: State, i: nat)
    requires Inv(s) && i < |s.requests| && AllNumbered(s.requests)
    ensures Ahead(s.requests[0]) + Excess(s.requests[0]) <= Ahead(s.requests[i]) + Excess(s.requests[i])
  {
    DeadlinesOrder(s.requests[i], s.requests[0]);
  }

  lemma DeadlineOfLate(address: string, late: Message, ahead: Message)
    requires late == Request(address, ChunkUniqueID(0, 0, 1600), ChunkUniqueID(0, 1, 1600), 0)
    requires ahead == Request(address, ChunkUniqueID(0, 1000, 1600), ChunkUniqueID(0, 0, 1600), 1)
    ensures DeadlineOf(late) == ChunkUniqueID(0, 1599, 1600) && DeadlineOf(ahead) == ChunkUniqueID(0, 1000, 1600)
  {
    assert 1 / 1600 == 0 && 1 % 1600 == 1;
  }

  /** A late request, pushed first, is handed out after one that is a thousand chunks ahead. */
  lemma LateRequestWaits(address: string)
    ensures var late := Request(address, ChunkUniqueID(0, 0, 1600), ChunkUniqueID(0, 1, 1600), 0);
            var ahead := Request(address, ChunkUniqueID(0, 1000, 1600), ChunkUniqueID(0, 0, 1600), 1);
            var first := AfterPush(State([], []), late);
            && Ahead(late) == -1 && Ahead(ahead) == 1000
            && first.requests == [late]
            && var s := AfterPush(first, ahead);
               AfterPop(s).1 == Some(ahead) && AfterPop(AfterPop(s).0).1 == Some(late)
  {
    var late := Request(address, ChunkUniqueID(0, 0, 1600), ChunkUniqueID(0, 1, 1600), 0);
    var ahead := Request(address, ChunkUniqueID(0, 1000, 1600), ChunkUniqueID(0, 0, 1600), 1);
    DeadlineOfLate(address, late, ahead);
    assert AfterPush(State([], []), late).requests == [late];
    EarlierGoesFirst([late], late, ahead);
  }

  lemma EarlierGoesFirst(requests: seq<Message>, late: Message, ahead: Message)
    requires requests == [late] && late.Request? && late.requested.bufferSize > 0
    requires ahead.Request? && ahead.requested.bufferSize > 0 && Before(DeadlineOf(ahead), DeadlineOf(late))
    ensures AfterPush(State([], requests), ahead).requests == [ahead, late]
  {
    assert requests[..0] == [] && Place(requests, DeadlineOf(ahead)) == Place(requests[..0], DeadlineOf(ahead)) == 0;
    assert requests[..0] + [ahead] + requests[0..] == [ahead, late];
  }

  /** Walks back over the requests with a later deadline. */
  method FindPlace(requests: seq<Message>, d: ChunkUniqueID) returns (k: nat)
    requires Queue(requests)
    ensures k == Place(requests, d)
  {
    k := |requests|;
    assert requests[..k] == requests;
    while k > 0 && Before(d, DeadlineOf(requests[k - 1]))
      invariant k <= |requests|
      invariant Place(requests, d) == Place(requests[..k], d)
    {
      assert requests[..k][..k - 1] == requests[..k - 1];
      k := k - 1;
    }
  }

  // ---- the object ---------------------------------------------------------------------------

  class CDFMessageScheduler {
    var requestQueue: seq<Message>
    var fifoQueue: seq<Message>

    ghost function View(): State
      reads this
    {
      State(fifoQueue, requestQueue)
    }

    constructor ()
      ensures View() == State([], []) && Inv(View())
    {
      requestQueue, fifoQueue := [], [];
    }

    /** A request is inserted behind the last one whose deadline is not later. */
    method Push(m: Message)
      requires Inv(View()) && Decoded(m)
      modifies this
      ensures View() == AfterPush(old(View()), m) && Inv(View())
    {
      PushKeepsInv(View(), m);
      if m.Request? {
        var k := FindPlace(requestQueue, DeadlineOf(m));
        requestQueue := requestQueue[..k] + [m] + requestQueue[k..];
      } else {
        fifoQueue := fifoQueue + [m];
      }
    }

    method Pop() returns (m: Option<Message>)
      requires Inv(View())
      modifies this
      ensures (View(), m) == AfterPop(old(View())) && Inv(View())
    {
      PopKeepsInv(View());
      if fifoQueue != [] {
        m := Some(fifoQueue[0]);
        fifoQueue := fifoQueue[1..];
      } else if requestQueue != [] {
        m := Some(requestQueue[0]);
        requestQueue := requestQueue[1..];
      } else {
        m := None;
      }
    }

    method GetSize() returns (size: nat)
      ensures size == |Waiting(View())|
    {
      size := |fifoQueue|;
      size := size + |requestQueue|;
    }
  }
}
