/**
 The round-robin message scheduler: one FIFO queue per destination address and a key pointer
 that walks the addresses cyclically in key order.
 */
module RoundRobin {
  import opened Arithmetic
  import opened Filters
  import opened Keys
  import opened Words

  datatype AddressedMessage = AddressedMessage(address: string, message: seq<Byte>)

  /** The sentinel the source stores in the pointer when there is no current address. */
  const INVALID: string := "invalid"

  datatype State = State(pointer: string, keys: set<string>, queues: map<string, seq<AddressedMessage>>)

  const EMPTY: State := State(INVALID, {}, map[])

  // ---- what the two operations do ----------------------------------------------------

  function Queue(s: State, a: string): seq<AddressedMessage> {
    if a in s.queues then s.queues[a] else []
  }

  function AfterPush(s: State, m: AddressedMessage): State {
    State(s.pointer, s.keys + {m.address}, s.queues[m.address := Queue(s, m.address) + [m]])
  }

  /** The address that the next Pop serves. */
  function Effective(s: State): string
    requires s.keys != {}
  {
    if s.pointer == INVALID then Least(s.keys) else s.pointer
  }

  function CyclicNext(keys: set<string>, p: string): string
    requires keys != {}
  {
    match Next(keys, p)
    case Some(k) => k
    case None => Least(keys)
  }

  function AfterPop(s: State): (State, Option<AddressedMessage>)
    requires Consistent(s)
  {
    if s.keys == {} then (s, None)
    else
      var p := Effective(s);
      var rest := s.queues[p][1..];
      var next := if |s.keys| == 1 then INVALID else CyclicNext(s.keys, p);
      var s' := if rest == [] then State(next, s.keys - {p}, s.queues - {p})
                else State(next, s.keys, s.queues[p := rest]);
      (s', Some(s.queues[p][0]))
  }

  // ---- consistency -------------------------------------------------------------------

  ghost predicate Consistent(s: State) {
    && s.keys == s.queues.Keys
    && INVALID !in s.keys
    && (s.pointer == INVALID || s.pointer in s.keys)
    && forall a :: a in s.queues ==>
         s.queues[a] != [] && forall m :: m in s.queues[a] ==> m.address == a
  }

  lemma PushKeepsConsistent(s: State, m: AddressedMessage)
    requires Consistent(s) && m.address != INVALID
    ensures Consistent(AfterPush(s, m))
  {
    var s' := AfterPush(s, m);
    forall a | a in s'.queues
      ensures s'.queues[a] != [] && forall x :: x in s'.queues[a] ==> x.address == a
    {
      if a == m.address { assert forall x :: x in s'.queues[a] ==> x in Queue(s, a) || x == m; }
    }
  }

  /** The successor of the pointer is another key as soon as there are two. */
  lemma CyclicNextMoves(keys: set<string>, p: string)
    requires p in keys && |keys| > 1
    ensures CyclicNext(keys, p) in keys && CyclicNext(keys, p) != p
  {
    StrictTotalOrder();
    assert |keys - {p}| == |keys| - 1;
    var other :| other in keys - {p};
    assert Less(p, other) || Less(other, p);
  }

  lemma PopKeepsConsistent(s: State)
    requires Consistent(s)
    ensures Consistent(AfterPop(s).0)
  {
    if s.keys != {} {
      var p := Effective(s);
      if |s.keys| > 1 { CyclicNextMoves(s.keys, p); }
    }
  }

  // ---- runs --------------------------------------------------------------------------

  datatype Op = PushOp(m: AddressedMessage) | PopOp

  /** Addresses are "IP:port" texts, so none of them is the sentinel. */
  ghost predicate Addressed(ops: seq<Op>) {
    forall op :: op in ops && op.PushOp? ==> op.m.address != INVALID
  }

  lemma AddressedSplit(ops: seq<Op>)
    requires Addressed(ops) && ops != []
    ensures Addressed(ops[1..]) && (ops[0].PushOp? ==> ops[0].m.address != INVALID)
  {
    assert ops[0] in ops;
    assert forall op :: op in ops[1..] ==> op in ops;
  }

  ghost function Step(s: State, op: Op): State
    requires Consistent(s)
  {
    match op
    case PushOp(m) => AfterPush(s, m)
    case PopOp => AfterPop(s).0
  }

  lemma StepKeepsConsistent(s: State, op: Op)
    requires Consistent(s) && (op.PushOp? ==> op.m.address != INVALID)
    ensures Consistent(Step(s, op))
  {
    match op
    case PushOp(m) => PushKeepsConsistent(s, m);
    case PopOp => PopKeepsConsistent(s);
  }

  /** The final state, and the messages popped on the way in the order they left. */
  ghost function Run(s: State, ops: seq<Op>): (r: (State, seq<AddressedMessage>))
    requires Consistent(s) && Addressed(ops)
    ensures Consistent(r.0)
    decreases |ops|
  {
    if ops == [] then (s, [])
    else
      AddressedSplit(ops);
      StepKeepsConsistent(s, ops[0]);
      var tail := Run(Step(s, ops[0]), ops[1..]);
      if ops[0].PopOp? && AfterPop(s).1.Some? then (tail.0, [AfterPop(s).1.value] + tail.1) else tail
  }

  ghost function Pushed(ops: seq<Op>): seq<AddressedMessage> {
    if ops == [] then []
    else (if ops[0].PushOp? then [ops[0].m] else []) + Pushed(ops[1..])
  }

  ghost function Pops(ops: seq<Op>): nat {
    if ops == [] then 0 else (if ops[0].PopOp? then 1 else 0) + Pops(ops[1..])
  }

  function To(a: string): AddressedMessage -> bool {
    (m: AddressedMessage) => m.address == a
  }

  /** The messages for one address, in order. */
  ghost function For(a: string, ms: seq<AddressedMessage>): seq<AddressedMessage> {
    Filter(ms, To(a))
  }

  ghost function Left(s: State, op: Op): seq<AddressedMessage>
    requires Consistent(s)
  {
    if op.PopOp? && s.keys != {} then [s.queues[Effective(s)][0]] else []
  }

  lemma PushMovesMessage(s: State, m: AddressedMessage, a: string)
    requires Consistent(s)
    ensures Queue(s, a) + Only(m, To(a)) == Queue(AfterPush(s, m), a)
  {
  }

  lemma PopMovesMessage(s: State, a: string)
    requires Consistent(s) && s.keys != {}
    ensures Queue(s, a) == Only(s.queues[Effective(s)][0], To(a)) + Queue(AfterPop(s).0, a)
  {
    var p := Effective(s);
    var m := s.queues[p][0];
    assert m in s.queues[p];
    if a == p {
      assert [m] + s.queues[p][1..] == s.queues[p];
    } else {
      assert Queue(AfterPop(s).0, a) == Queue(s, a);
    }
  }

  lemma StepMovesMessages(s: State, op: Op, a: string)
    requires Consistent(s)
    ensures Queue(s, a) + For(a, if op.PushOp? then [op.m] else [])
         == For(a, Left(s, op)) + Queue(Step(s, op), a)
  {
    if op.PushOp? {
      FilterSingle(op.m, To(a));
      PushMovesMessage(s, op.m, a);
    } else if s.keys != {} {
      FilterSingle(s.queues[Effective(s)][0], To(a));
      PopMovesMessage(s, a);
    }
  }

  /**
   Per address, what was waiting plus what was pushed is what was popped plus what still waits,
   in that order: every message leaves exactly once and never overtakes another of its address.
   */
  lemma {:induction false} FirstInFirstOut(s: State, ops: seq<Op>, a: string)
    requires Consistent(s) && Addressed(ops)
    ensures Queue(s, a) + For(a, Pushed(ops)) == For(a, Run(s, ops).1) + Queue(Run(s, ops).0, a)
    decreases |ops|
  {
    if ops != [] {
      AddressedSplit(ops);
      StepKeepsConsistent(s, ops[0]);
      var s' := Step(s, ops[0]);
      var first := if ops[0].PushOp? then [ops[0].m] else [];
      StepMovesMessages(s, ops[0], a);
      FirstInFirstOut(s', ops[1..], a);
      FilterConcat(first, Pushed(ops[1..]), To(a));
      FilterConcat(Left(s, ops[0]), Run(s', ops[1..]).1, To(a));
      RunUnfolds(s, ops);
      Relay(Queue(s, a), For(a, first), For(a, Left(s, ops[0])), Queue(s', a),
            For(a, Pushed(ops[1..])), For(a, Run(s', ops[1..]).1), Queue(Run(s, ops).0, a));
    }
  }

  lemma RunUnfolds(s: State, ops: seq<Op>)
    requires Consistent(s) && Addressed(ops) && ops != []
    ensures Addressed(ops[1..]) && Consistent(Step(s, ops[0]))
    ensures Run(s, ops).0 == Run(Step(s, ops[0]), ops[1..]).0
    ensures Run(s, ops).1 == Left(s, ops[0]) + Run(Step(s, ops[0]), ops[1..]).1
  {
    AddressedSplit(ops);
    StepKeepsConsistent(s, ops[0]);
  }

  /** Two equations "before + in == out + after" compose. */
  lemma Relay<T>(q: seq<T>, in1: seq<T>, out1: seq<T>, q1: seq<T>, in2: seq<T>, out2: seq<T>, q2: seq<T>)
    requires q + in1 == out1 + q1 && q1 + in2 == out2 + q2
    ensures q + (in1 + in2) == (out1 + out2) + q2
  {
    assert q + (in1 + in2) == (q + in1) + in2;
    assert out1 + (q1 + in2) == (out1 + q1) + in2;
    assert out1 + (out2 + q2) == (out1 + out2) + q2;
  }

  // ---- size --------------------------------------------------------------------------

  /** The count of the source's loop: queue lengths added up over the addresses in key order. */
  function SizeOver(ks: seq<string>, q: map<string, seq<AddressedMessage>>): nat {
    if ks == [] then 0
    else SizeOver(ks[..|ks| - 1], q) + (if ks[|ks| - 1] in q then |q[ks[|ks| - 1]]| else 0)
  }

  lemma SizeOfOneMore(ks: seq<string>, q: map<string, seq<AddressedMessage>>, i: nat)
    requires i < |ks| && ks[i] in q
    ensures SizeOver(ks[..i + 1], q) == SizeOver(ks[..i], q) + |q[ks[i]]|
  {
    assert ks[..i + 1][..i] == ks[..i];
  }

  /** The number of waiting messages. */
  ghost function Waiting(q: map<string, seq<AddressedMessage>>): nat
    decreases |q|
  {
    if q == map[] then 0
    else
      var a :| a in q;
      |q[a]| + Waiting(q - {a})
  }

  lemma {:induction false} WaitingSplit(q: map<string, seq<AddressedMessage>>, a: string)
    requires a in q
    ensures Waiting(q) == |q[a]| + Waiting(q - {a})
    decreases |q|
  {
    var b :| b in q && Waiting(q) == |q[b]| + Waiting(q - {b});
    if a != b {
      WaitingSplit(q - {b}, a);
      WaitingSplit(q - {a}, b);
      assert q - {a} - {b} == q - {b} - {a};
    }
  }

  lemma {:induction false} SizeIsWaiting(ks: seq<string>, q: map<string, seq<AddressedMessage>>)
    requires forall i, j :: 0 <= i < |ks| && 0 <= j < |ks| && i != j ==> ks[i] != ks[j]
    requires ToSet(ks) == q.Keys
    ensures SizeOver(ks, q) == Waiting(q)
  {
    if ks == [] {
      assert q == map[];
    } else {
      var a := ks[|ks| - 1];
      var front := ks[..|ks| - 1];
      assert a in ToSet(ks);
      assert ks == front + [a];
      assert ToSet(front) == (q - {a}).Keys;
      SizeIsWaiting(front, q - {a});
      SizeFrame(front, q, a);
      WaitingSplit(q, a);
    }
  }

  lemma {:induction false} SizeFrame(ks: seq<string>, q: map<string, seq<AddressedMessage>>, a: string)
    requires a !in ks
    ensures SizeOver(ks, q) == SizeOver(ks, q - {a})
  {
    if ks != [] {
      var front := ks[..|ks| - 1];
      assert forall k :: k in front ==> k in ks;
      assert ks[|ks| - 1] in ks;
      SizeFrame(front, q, a);
    }
  }

  lemma PushSize(s: State, m: AddressedMessage)
    requires Consistent(s)
    ensures Waiting(AfterPush(s, m).queues) == Waiting(s.queues) + 1
  {
    var a, s' := m.address, AfterPush(s, m);
    WaitingSplit(s'.queues, a);
    assert s'.queues - {a} == s.queues - {a};
    if a in s.queues {
      WaitingSplit(s.queues, a);
    } else {
      assert s.queues - {a} == s.queues;
    }
  }

  lemma PopSize(s: State)
    requires Consistent(s) && s.keys != {}
    ensures Waiting(AfterPop(s).0.queues) == Waiting(s.queues) - 1
  {
    var p, s' := Effective(s), AfterPop(s).0;
    WaitingSplit(s.queues, p);
    if p in s'.queues {
      WaitingSplit(s'.queues, p);
      assert s'.queues - {p} == s.queues - {p};
    }
  }

  /** GetSize is the number of pushes minus the number of successful pops. */
  lemma {:induction false} SizeIsPushesMinusPops(s: State, ops: seq<Op>)
    requires Consistent(s) && Addressed(ops)
    ensures Waiting(Run(s, ops).0.queues) == Waiting(s.queues) + |Pushed(ops)| - |Run(s, ops).1|
    decreases |ops|
  {
    if ops != [] {
      AddressedSplit(ops);
      StepKeepsConsistent(s, ops[0]);
      match ops[0] {
        case PushOp(m) => PushSize(s, m);
        case PopOp => if s.keys != {} { PopSize(s); }
      }
      SizeIsPushesMinusPops(Step(s, ops[0]), ops[1..]);
    }
  }

  // ---- bounded waiting ---------------------------------------------------------------

  /** The keys met when walking cyclically from `p` to just before `a`. */
  ghost function Between(keys: set<string>, p: string, a: string): set<string> {
    set k | k in keys && (if Less(a, p) then !Less(k, p) || Less(k, a) else !Less(k, p) && Less(k, a))
  }

  /** How many other addresses are served before `a`. */
  ghost function Distance(s: State, a: string): nat
    requires a in s.keys
  {
    |Between(s.keys, Effective(s), a)|
  }

  lemma ServedAtDistanceZero(s: State, a: string)
    requires Consistent(s) && a in s.keys
    ensures Distance(s, a) == 0 <==> Effective(s) == a
    ensures Effective(s) == a ==> AfterPop(s).1 == Some(s.queues[a][0])
  {
    StrictTotalOrder();
    var p := Effective(s);
    if p != a { assert p in Between(s.keys, p, a); }
    if p == a { assert Between(s.keys, p, a) == {}; }
  }

  /** A Pop that serves somebody else brings `a` exactly one place nearer. */
  lemma PopBringsNearer(s: State, a: string)
    requires Consistent(s) && a in s.keys && Effective(s) != a
    ensures a in AfterPop(s).0.keys && Queue(AfterPop(s).0, a) == Queue(s, a)
    ensures Distance(AfterPop(s).0, a) == Distance(s, a) - 1
  {
    var p, s' := Effective(s), AfterPop(s).0;
    assert |s.keys| > 1 by { assert {p, a} <= s.keys; SubsetCard({p, a}, s.keys); }
    StrictTotalOrder();
    CyclicNextMoves(s.keys, p);
    assert Effective(s') == CyclicNext(s.keys, p);
    assert Between(s'.keys, Effective(s'), a) == Between(s.keys, p, a) - {p};
    assert p in Between(s.keys, p, a);
  }

  ghost function New(s: State, op: Op): nat {
    if op.PushOp? && op.m.address !in s.keys then 1 else 0
  }

  /** A Push delays a waiting address by at most one place, and only when its address is new. */
  lemma PushDelaysByAtMostOne(s: State, m: AddressedMessage, a: string)
    requires Consistent(s) && a in s.keys && m.address != INVALID
    ensures a in AfterPush(s, m).keys && Queue(s, a) <= Queue(AfterPush(s, m), a)
    ensures Distance(AfterPush(s, m), a) <= Distance(s, a) + New(s, PushOp(m))
  {
    var b, s' := m.address, AfterPush(s, m);
    if b in s.keys {
      assert s'.keys == s.keys;
    } else {
      StrictTotalOrder();
      assert Between(s'.keys, Effective(s'), a) <= Between(s.keys, Effective(s), a) + {b};
      SubsetCard(Between(s'.keys, Effective(s'), a), Between(s.keys, Effective(s), a) + {b});
    }
  }

  /** How many pushes of the run bring an address that is not waiting at that time. */
  ghost function NewAddresses(s: State, ops: seq<Op>): nat
    requires Consistent(s) && Addressed(ops)
    decreases |ops|
  {
    if ops == [] then 0
    else
      AddressedSplit(ops);
      StepKeepsConsistent(s, ops[0]);
      New(s, ops[0]) + NewAddresses(Step(s, ops[0]), ops[1..])
  }

  /** No distance exceeds the number of other addresses, so neither does that of an address just served. */
  lemma DistanceIsBounded(s: State, a: string)
    requires Consistent(s) && a in s.keys
    ensures Distance(s, a) <= |s.keys| - 1
  {
    StrictTotalOrder();
    assert Between(s.keys, Effective(s), a) <= s.keys - {a};
    SubsetCard(Between(s.keys, Effective(s), a), s.keys - {a});
  }

  /** With distance `d`, `k` waiting addresses and `m` new ones, message `j` leaves within so many pops: the
      distance and one more, a full round for every message before it, and in each of these rounds, and in the
      first, one for every new address. */
  function PopsNeeded(d: nat, k: nat, m: nat, j: nat): nat {
    d + 1 + m + j * (k + m)
  }

  lemma FewerAreNeeded(d: nat, k: nat, m: nat, j: nat, d': nat, k': nat)
    requires d' + 1 <= d && k' <= k
    ensures PopsNeeded(d', k', m, j) + 1 <= PopsNeeded(d, k, m, j)
  {
    assert j * (k' + m) <= j * (k + m);
  }

  lemma SameRounds(d: nat, k: nat, m: nat, j: nat, d': nat, k': nat, m': nat)
    requires d' + m' <= d + m && k' + m' == k + m
    ensures PopsNeeded(d', k', m', j) <= PopsNeeded(d, k, m, j)
  {
  }

  ghost function Bound(s: State, ops: seq<Op>, a: string, j: nat): nat
    requires Consistent(s) && Addressed(ops) && a in s.keys
  {
    PopsNeeded(Distance(s, a), |s.keys|, NewAddresses(s, ops), j)
  }

  lemma PushKeepsBound(s: State, ops: seq<Op>, a: string, j: nat)
    requires Consistent(s) && Addressed(ops) && a in s.keys && ops != [] && ops[0].PushOp?
    ensures Addressed(ops[1..]) && ops[0].m.address != INVALID
    ensures var s' := AfterPush(s, ops[0].m);
            Consistent(s') && a in s'.keys && Bound(s', ops[1..], a, j) <= Bound(s, ops, a, j)
  {
    var m, s' := ops[0].m, AfterPush(s, ops[0].m);
    AddressedSplit(ops);
    PushKeepsConsistent(s, m);
    PushDelaysByAtMostOne(s, m, a);
    if m.address in s.keys { assert s'.keys == s.keys; }
    SameRounds(Distance(s, a), |s.keys|, NewAddresses(s, ops), j,
               Distance(s', a), |s'.keys|, NewAddresses(s', ops[1..]));
  }

  lemma PopBringsNothing(s: State, ops: seq<Op>)
    requires Consistent(s) && Addressed(ops) && s.keys != {} && ops != [] && ops[0].PopOp?
    ensures Addressed(ops[1..]) && Consistent(AfterPop(s).0)
    ensures NewAddresses(AfterPop(s).0, ops[1..]) == NewAddresses(s, ops)
    ensures |AfterPop(s).0.keys| <= |s.keys|
  {
    AddressedSplit(ops);
    PopKeepsConsistent(s);
    SubsetCard(AfterPop(s).0.keys, s.keys);
  }

  /** Serving another address takes one pop off the bound. */
  lemma PopLowersBound(s: State, ops: seq<Op>, a: string, j: nat)
    requires Consistent(s) && Addressed(ops) && a in s.keys && ops != [] && ops[0].PopOp? && Effective(s) != a
    ensures Addressed(ops[1..])
    ensures var s' := AfterPop(s).0;
            Consistent(s') && a in s'.keys && Bound(s', ops[1..], a, j) + 1 <= Bound(s, ops, a, j)
  {
    var s' := AfterPop(s).0;
    PopBringsNothing(s, ops);
    PopBringsNearer(s, a);
    FewerAreNeeded(Distance(s, a), |s.keys|, NewAddresses(s, ops), j, Distance(s', a), |s'.keys|);
  }

  lemma RoundLess(d: nat, k: nat, m: nat, j: nat, k': nat)
    requires d < k' <= k && j > 0
    ensures PopsNeeded(d, k', m, j - 1) + 1 <= PopsNeeded(0, k, m, j)
  {
    OneMore(j - 1, k + m);
    assert (j - 1) * (k' + m) <= (j - 1) * (k + m);
  }

  /** Serving `a` takes a full round off the bound of its later messages. */
  lemma ServiceLowersBound(s: State, ops: seq<Op>, a: string, j: nat)
    requires Consistent(s) && Addressed(ops) && a in s.keys && ops != [] && ops[0].PopOp? && Effective(s) == a
    requires 0 < j < |s.queues[a]|
    ensures Addressed(ops[1..])
    ensures var s' := AfterPop(s).0;
            Consistent(s') && a in s'.keys && Bound(s', ops[1..], a, j - 1) + 1 <= Bound(s, ops, a, j)
  {
    var s' := AfterPop(s).0;
    PopBringsNothing(s, ops);
    QueueServed(s, a);
    ServedAtDistanceZero(s, a);
    DistanceIsBounded(s', a);
    RoundLess(Distance(s', a), |s.keys|, NewAddresses(s, ops), j, |s'.keys|);
  }

  /** Message `j` of the queue of `a` is message `j` of those of `a` that left. */
  ghost predicate HasLeft(s: State, ops: seq<Op>, a: string, j: nat)
    requires Consistent(s) && Addressed(ops)
  {
    var served := For(a, Run(s, ops).1);
    j < |served| && j < |Queue(s, a)| && served[j] == Queue(s, a)[j]
  }

  lemma LeftAfterPush(s: State, ops: seq<Op>, a: string, j: nat)
    requires Consistent(s) && Addressed(ops) && a in s.keys && ops != [] && ops[0].PushOp? && j < |Queue(s, a)|
    requires Addressed(ops[1..]) && Consistent(AfterPush(s, ops[0].m))
    requires HasLeft(AfterPush(s, ops[0].m), ops[1..], a, j)
    ensures HasLeft(s, ops, a, j)
  {
    RunUnfolds(s, ops);
    assert Left(s, ops[0]) == [];
    assert [] + Run(AfterPush(s, ops[0].m), ops[1..]).1 == Run(AfterPush(s, ops[0].m), ops[1..]).1;
  }

  lemma LeftAfterOther(s: State, ops: seq<Op>, a: string, j: nat)
    requires Consistent(s) && Addressed(ops) && a in s.keys && ops != [] && ops[0].PopOp? && Effective(s) != a
    requires Addressed(ops[1..]) && Consistent(AfterPop(s).0) && HasLeft(AfterPop(s).0, ops[1..], a, j)
    ensures HasLeft(s, ops, a, j)
  {
    var m, rest := s.queues[Effective(s)][0], Run(AfterPop(s).0, ops[1..]).1;
    assert m.address != a by { assert m in s.queues[Effective(s)]; }
    RunUnfolds(s, ops);
    FilterHead(m, rest, To(a));
    assert For(a, Run(s, ops).1) == For(a, rest);
    PopMovesMessage(s, a);
  }

  lemma LeftNow(s: State, ops: seq<Op>, a: string, j: nat)
    requires Consistent(s) && Addressed(ops) && a in s.keys && ops != [] && ops[0].PopOp? && Effective(s) == a
    requires j < |s.queues[a]| && Addressed(ops[1..]) && Consistent(AfterPop(s).0)
    requires j > 0 ==> HasLeft(AfterPop(s).0, ops[1..], a, j - 1)
    ensures HasLeft(s, ops, a, j)
  {
    var m, rest := s.queues[a][0], Run(AfterPop(s).0, ops[1..]).1;
    assert m in s.queues[a];
    RunUnfolds(s, ops);
    FilterHead(m, rest, To(a));
    assert For(a, Run(s, ops).1) == [m] + For(a, rest);
    QueueServed(s, a);
  }

  lemma QueueServed(s: State, a: string)
    requires Consistent(s) && a in s.keys && Effective(s) == a
    ensures Queue(s, a) == [s.queues[a][0]] + Queue(AfterPop(s).0, a)
  {
    PopMovesMessage(s, a);
    assert s.queues[a][0] in s.queues[a];
  }

  /**
   No starvation: message `j` of a waiting queue has left after at most d + 1 + m + j * (k + m) pops, where d is
   the cyclic distance of its address from the pointer, k the number of waiting addresses, and m the number of
   new addresses pushed meanwhile.
   */
  lemma BoundedWait(s: State, ops: seq<Op>, a: string, j: nat)
    requires Consistent(s) && Addressed(ops) && a in s.keys && j < |Queue(s, a)|
    requires Pops(ops) >= PopsNeeded(Distance(s, a), |s.keys|, NewAddresses(s, ops), j)
    ensures var served := For(a, Run(s, ops).1); j < |served| && served[j] == Queue(s, a)[j]
  {
    assert HasLeft(s, ops, a, j) by { LeavesInTime(s, ops, a, j); }
  }

  lemma {:induction false} LeavesInTime(s: State, ops: seq<Op>, a: string, j: nat)
    requires Consistent(s) && Addressed(ops) && a in s.keys && j < |Queue(s, a)|
    requires Pops(ops) >= Bound(s, ops, a, j)
    ensures HasLeft(s, ops, a, j)
    decreases |ops|
  {
    match ops[0] {
      case PushOp(m) =>
        PushKeepsBound(s, ops, a, j);
        PushDelaysByAtMostOne(s, m, a);
        LeavesInTime(AfterPush(s, m), ops[1..], a, j);
        LeftAfterPush(s, ops, a, j);
      case PopOp =>
        if Effective(s) != a {
          PopLowersBound(s, ops, a, j);
          PopBringsNearer(s, a);
          LeavesInTime(AfterPop(s).0, ops[1..], a, j);
          LeftAfterOther(s, ops, a, j);
        } else {
          if j > 0 {
            ServiceLowersBound(s, ops, a, j);
            LeavesInTime(AfterPop(s).0, ops[1..], a, j - 1);
          } else {
            AddressedSplit(ops);
            PopKeepsConsistent(s);
          }
          LeftNow(s, ops, a, j);
        }
    }
  }

  // ---- the scheduler object ----------------------------------------------------------

  class RRMessageScheduler {
    var keyPointer: string
    var keySet: set<string>
    var rrQueue: map<string, seq<AddressedMessage>>

    ghost function View(): State
      reads this
    {
      State(keyPointer, keySet, rrQueue)
    }

    constructor ()
      ensures View() == EMPTY && Consistent(View())
    {
      keyPointer, keySet, rrQueue := INVALID, {}, map[];
    }

    method Push(m: AddressedMessage)
      requires Consistent(View()) && m.address != INVALID
      modifies this
      ensures View() == AfterPush(old(View()), m) && Consistent(View())
    {
      PushKeepsConsistent(View(), m);
      keySet := keySet + {m.address};
      if m.address !in rrQueue {
        rrQueue := rrQueue[m.address := []];
      }
      rrQueue := rrQueue[m.address := rrQueue[m.address] + [m]];
    }

    /** Lines 51-63: step to the next key until a non-empty queue is met or all were tried. */
    method NextAddress()
      requires keySet == rrQueue.Keys && keyPointer in keySet && INVALID !in keySet
      requires forall a :: a in rrQueue && rrQueue[a] == [] ==> a == keyPointer
      modifies this`keyPointer
      ensures keyPointer == if |keySet| == 1 then INVALID else CyclicNext(keySet, old(keyPointer))
    {
      ghost var p := keyPointer;
      var count, advance := 0, true;
      while advance
        invariant advance ==> count == 0 && keyPointer == p
        invariant !advance ==> count == 1 && keyPointer == CyclicNext(keySet, p)
        decreases advance
      {
        match Next(keySet, keyPointer) {
          case Some(k) => keyPointer := k;
          case None => keyPointer := Least(keySet);
        }
        count := count + 1;
        if |keySet| > 1 { CyclicNextMoves(keySet, p); }
        assert |rrQueue| == |keySet|;
        advance := count < |rrQueue| && rrQueue[keyPointer] == [];
      }
      assert |rrQueue| == |keySet| && |keySet| > 0;
      if count >= |rrQueue| {
        keyPointer := INVALID;
      }
    }

    method Pop() returns (r: Option<AddressedMessage>)
      requires Consistent(View())
      modifies this
      ensures View() == AfterPop(old(View())).0 && Consistent(View())
      ensures r == AfterPop(old(View())).1
    {
      PopKeepsConsistent(View());
      if keySet == {} {
        return None;
      }
      if keyPointer == INVALID {
        keyPointer := Least(keySet);
      }
      var served := keyPointer;
      r := Some(rrQueue[served][0]);
      rrQueue := rrQueue[served := rrQueue[served][1..]];
      var deletedKey := if rrQueue[served] == [] then served else INVALID;
      NextAddress();
      if deletedKey != INVALID {
        keySet := keySet - {deletedKey};
        rrQueue := rrQueue - {deletedKey};
        assert rrQueue == old(rrQueue) - {served};
      }
    }

    method GetSize() returns (size: nat)
      requires Consistent(View())
      ensures size == Waiting(View().queues)
    {
      size := 0;
      var ks := SortedKeys(rrQueue.Keys);
      for i := 0 to |ks|
        invariant size == SizeOver(ks[..i], rrQueue)
      {
        assert ks[i] in ToSet(ks);
        SizeOfOneMore(ks, rrQueue, i);
        size := size + |rrQueue[ks[i]]|;
      }
      assert ks[..|ks|] == ks;
      SortedHasNoDuplicates(ks);
      SizeIsWaiting(ks, rrQueue);
    }
  }
}
