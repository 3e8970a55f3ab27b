/**
 An auxiliary server that merges its parallel network lets its partners go a few at a time.  This
 module proves that a merge of a live type always ends, however it is interleaved with the other
 operations, and how many firings and clock ticks that takes.
 */
module Merge {
  import opened AuxStates
  import opened Keys
  import opened Arithmetic
  import opened Partners
  import opened PartnerRuns
  import opened PartnerTheorems

  /** The merge is under way. */
  ghost predicate Live(s: State) {
    s.stage == ServerAuxMesclar && s.merge in {LiveAvoid, LivePermit} && !s.exited
  }

  /** The known peers that may still be output partners to let go. */
  ghost function Pending(s: State): set<string> {
    set p | p in s.peers && s.peers[p].subId < 0 && p !in s.rejected
  }

  lemma LeftIsPending(c: Config, s: State)
    requires Inv(c, s)
    ensures MergeLeft(s) <= Pending(s) && |MergeLeft(s)| <= |Pending(s)|
  {
    SubsetCard(MergeLeft(s), Pending(s));
  }

  /** A merge begins with every output partner of the parallel network to let go. */
  lemma MergeBeginsWithAll(c: Config, s: State)
    requires Inv(c, s) && s.stage == ServerAuxActive
    ensures var t := SetStage(s, ServerAuxMesclar);
            && MergeLeft(t) == t.outs.members == s.outs.members && t.rejected == {} && t.stage == ServerAuxMesclar
  {
  }

  // ---- one firing ----------------------------------------------------------------------

  function Min(a: nat, b: nat): nat {
    if a < b then a else b
  }

  lemma DrawnSize(s: State, drawn: set<string>)
    requires DrawnToMerge(s, drawn)
    ensures |drawn| == Min(s.qt, |MergeLeft(s)|)
    ensures |MergeLeft(s) - drawn| == |MergeLeft(s)| - |drawn|
  {
    assert MergeLeft(s) == drawn + (MergeLeft(s) - drawn);
    SubsetCard(drawn, MergeLeft(s));
  }

  lemma LetGoEffect(s: State, drawn: set<string>)
    requires drawn <= MergeLeft(s)
    ensures MergeLeft(LetGo(s, drawn)) == MergeLeft(s) - drawn
    ensures Pending(LetGo(s, drawn)) == Pending(s) - drawn
  {
  }

  lemma SendBackEffect(s: State, drawn: set<string>)
    requires drawn <= MergeLeft(s)
    ensures MergeLeft(SendBack(s, drawn)) == MergeLeft(s) - drawn
    ensures Pending(SendBack(s, drawn)) == Pending(s) - drawn
  {
  }

  lemma FiringLetsGo(s: State, drawn: set<string>)
    requires Live(s) && drawn <= MergeLeft(s) && drawn != {}
    ensures var t := Fire(s, drawn);
            && t.outs.members == s.outs.members - drawn
            && MergeLeft(t) == MergeLeft(s) - drawn && Pending(t) == Pending(s) - drawn
            && t.qt == s.qt && Live(t)
  {
    if s.merge == LiveAvoid { LetGoEffect(s, drawn); } else { SendBackEffect(s, drawn); }
  }

  lemma Removing(a: set<string>, b: set<string>)
    requires b <= a
    ensures |a - b| == |a| - |b|
  {
    assert a == b + (a - b);
  }

  /** With a quota of at least one, a firing lets go exactly the quota, or all that are left if they are
      fewer; it ends the merge if and only if none is left. */
  lemma FiringProgress(c: Config, s: State, drawn: set<string>)
    requires Inv(c, s) && Live(s) && DrawnToMerge(s, drawn) && s.qt >= 1
    ensures Live(Fire(s, drawn)) <==> MergeLeft(s) != {}
    ensures MergeLeft(s) == {} ==> Fire(s, drawn) == s.(merge := if s.killEnd then AutoKill else NoneMerge)
    ensures MergeLeft(s) != {} ==>
              var t := Fire(s, drawn);
              && t.outs.members == s.outs.members - drawn && drawn <= s.outs.members
              && |drawn| == Min(s.qt, |MergeLeft(s)|) > 0
              && |MergeLeft(t)| == |MergeLeft(s)| - |drawn|
              && |Pending(t)| == |Pending(s)| - |drawn|
  {
    DrawnSize(s, drawn);
    if MergeLeft(s) == {} {
      assert drawn == {};
    } else {
      assert drawn != {};
      FiringLetsGo(s, drawn);
      LeftIsPending(c, s);
      Removing(Pending(s), drawn);
    }
  }

  /** Whoever is let go is no partner any more and cooling down; where connections are avoided it is rejected as
      well, and where they are permitted it counts as a peer of the main network. */
  lemma LetGoStaysOut(c: Config, s: State, drawn: set<string>, p: string)
    requires Inv(c, s) && Live(s) && DrawnToMerge(s, drawn) && p in drawn
    ensures var t := Fire(s, drawn);
            && p in t.peers && p !in t.outs.members && Refused(c, t, p, Out)
            && (s.merge == LiveAvoid ==> p in t.rejected)
            && (s.merge == LivePermit ==> t.peers[p].subId == 0)
  {
  }

  /** A quota of zero ends the merge at the first firing, with every partner still there. */
  lemma ZeroQuotaEndsAtOnce(c: Config, s: State, drawn: set<string>)
    requires Inv(c, s) && Live(s) && DrawnToMerge(s, drawn) && s.qt == 0
    ensures !Live(Fire(s, drawn)) && Fire(s, drawn).outs == s.outs && MergeLeft(Fire(s, drawn)) == MergeLeft(s)
  {
    assert drawn == {};
  }

  /** The firing after the last one: a server that is to be killed at the end exits, another goes on. */
  lemma AfterTheEnd(s: State, drawn: set<string>, next: set<string>)
    requires Live(s) && drawn == {}
    ensures Fire(Fire(s, drawn), next)
            == if s.killEnd then s.(merge := AutoKill, exited := true) else s.(merge := NoneMerge)
  {
  }

  // ---- what the other operations can do to it ----------------------------------------------

  /** Neither an order of the bootstrap nor a firing. */
  predicate Ordinary(op: Op) {
    !op.Order? && !op.Firing?
  }

  lemma AddPeerNeverGrows(s: State, p: string, out: int, outFree: int)
    requires s.stage == ServerAuxMesclar
    ensures Pending(AddPeer(s, p, out, outFree)) == Pending(s)
  {
  }

  lemma ConnectNeverGrows(c: Config, s: State, p: string, l: List)
    requires p in s.peers && SlotOf(s, l).members <= s.peers.Keys
    ensures Pending(Connect(c, s, p, l)) == Pending(s)
    ensures Connect(c, s, p, l).stage == s.stage
  {
    if Accepted(c, s, p, l) {
      var gone := ConnectInserts(c, s, p, l);
    }
  }

  lemma CountersDoNotMatter(s: State, p: string, ttlIn: int, ttlOut: int)
    requires p in s.peers
    ensures Pending(s.(peers := s.peers[p := s.peers[p].(ttlIn := ttlIn, ttlOut := ttlOut)])) == Pending(s)
  {
  }

  lemma PingInNeverGrows(c: Config, s: State, p: string, out: int, outFree: int)
    requires s.ins.members <= s.peers.Keys && s.stage == ServerAuxMesclar
    ensures Pending(PingIn(c, s, p, out, outFree)) == Pending(s)
  {
    var known := AddPeer(s, p, out, outFree);
    AddPeerNeverGrows(s, p, out, outFree);
    ConnectNeverGrows(c, known, p, In);
    var t := if p in known.ins.members then known else Connect(c, known, p, In);
    CountersDoNotMatter(t, p, c.ttlIn, t.peers[p].ttlOut);
    assert t.peers[p].(ttlIn := c.ttlIn, ttlOut := t.peers[p].ttlOut) == t.peers[p].(ttlIn := c.ttlIn);
  }

  lemma PingOutNeverGrows(c: Config, s: State, p: string, out: int, outFree: int, l: List)
    requires SlotOf(s, l).members <= s.peers.Keys && s.stage == ServerAuxMesclar
    ensures Pending(PingOut(c, s, p, out, outFree, l)) == Pending(s)
  {
    var known := AddPeer(s, p, out, outFree);
    AddPeerNeverGrows(s, p, out, outFree);
    assert SlotOf(known, l) == SlotOf(s, l);
    ConnectNeverGrows(c, known, p, l);
    var t := if p in SlotOf(known, l).members then known else Connect(c, known, p, l);
    CountersDoNotMatter(t, p, t.peers[p].ttlIn, c.ttlOut);
    assert t.peers[p].(ttlIn := t.peers[p].ttlIn, ttlOut := c.ttlOut) == t.peers[p].(ttlOut := c.ttlOut);
  }

  lemma PassNeverGrows(s: State)
    requires Active(s) <= s.peers.Keys
    ensures Pending(CheckList(s)) <= Pending(s)
  {
  }

  lemma OrdinaryNeverGrows(c: Config, s: State, op: Op)
    requires Inv(c, s) && Legal(s, op) && s.stage == ServerAuxMesclar && Ordinary(op)
    ensures Pending(Step(c, s, op)) <= Pending(s)
  {
    match op
    case Know(p, out, outFree) => AddPeerNeverGrows(s, p, out, outFree);
    case Try(p, l) => InvOfList(c, s, l); ConnectNeverGrows(c, s, p, l);
    case PingFromIn(p, out, outFree) => InvOfList(c, s, In); PingInNeverGrows(c, s, p, out, outFree);
    case PingFromOut(p, out, outFree, l) => InvOfList(c, s, l); PingOutNeverGrows(c, s, p, out, outFree, l);
    case Pass => CheckListKeepsInv(c, s); PassNeverGrows(s);
    case _ =>
  }

  /** The fields that drive the merge. */
  ghost predicate SameMerge(s: State, t: State) {
    t.stage == s.stage && t.merge == s.merge && t.qt == s.qt && t.period == s.period && t.exited == s.exited
    && t.killEnd == s.killEnd
  }

  lemma ConnectSameMerge(c: Config, s: State, p: string, l: List)
    requires p in s.peers && SlotOf(s, l).members <= s.peers.Keys
    ensures SameMerge(s, Connect(c, s, p, l))
  {
    if Accepted(c, s, p, l) {
      if |SlotOf(s, l).members| < Max(c, l) {
        assert Connect(c, s, p, l) == Joins(s, p, l);
      } else {
        assert Connect(c, s, p, l) == Replaces(s, p, l, Worst(s.peers, SlotOf(s, l).members));
      }
    }
  }

  lemma PingSameMerge(c: Config, s: State, op: Op)
    requires Inv(c, s) && Legal(s, op) && (op.PingFromIn? || op.PingFromOut?)
    ensures SameMerge(s, Step(c, s, op))
  {
    var l := if op.PingFromIn? then In else op.l;
    AddPeerKeepsInv(c, s, op.p, op.out, op.outFree);
    InvOfList(c, s, l);
    ConnectSameMerge(c, AddPeer(s, op.p, op.out, op.outFree), op.p, l);
  }

  lemma OrdinarySameMerge(c: Config, s: State, op: Op)
    requires Inv(c, s) && Legal(s, op) && Ordinary(op)
    ensures SameMerge(s, Step(c, s, op))
  {
    match op
    case Try(p, l) => InvOfList(c, s, l); ConnectSameMerge(c, s, p, l);
    case PingFromIn(p, out, outFree) => PingSameMerge(c, s, op);
    case PingFromOut(p, out, outFree, l) => PingSameMerge(c, s, op);
    case _ =>
  }

  // ---- a merge ends, however it is interleaved ---------------------------------------------

  function Firings(ops: seq<Op>): nat {
    if ops == [] then 0 else (if ops[0].Firing? then 1 else 0) + Firings(ops[1..])
  }

  ghost predicate NoOrder(ops: seq<Op>) {
    forall i :: 0 <= i < |ops| ==> !ops[i].Order?
  }

  lemma FiringUnderWay(c: Config, s: State, op: Op)
    requires Inv(c, s) && Legal(s, op) && op.Firing? && s.qt >= 1
    ensures After(c, s, op).stage == ServerAuxMesclar && After(c, s, op).qt == s.qt
    ensures Live(After(c, s, op)) ==> Live(s) && |Pending(After(c, s, op))| + 1 <= |Pending(s)|
  {
    if Live(s) { FiringProgress(c, s, op.drawn); }
  }

  lemma OrdinaryUnderWay(c: Config, s: State, op: Op)
    requires Inv(c, s) && Legal(s, op) && Ordinary(op) && s.stage == ServerAuxMesclar
    ensures SameMerge(s, After(c, s, op)) && |Pending(After(c, s, op))| <= |Pending(s)|
  {
    OrdinarySameMerge(c, s, op);
    OrdinaryNeverGrows(c, s, op);
    SubsetCard(Pending(Step(c, s, op)), Pending(s));
  }

  lemma StepUnderWay(c: Config, s: State, op: Op)
    requires Inv(c, s) && Legal(s, op) && !op.Order? && s.qt >= 1 && s.stage == ServerAuxMesclar
    ensures After(c, s, op).stage == ServerAuxMesclar && After(c, s, op).qt == s.qt
    ensures Live(After(c, s, op)) ==> Live(s)
    ensures Live(After(c, s, op)) ==> |Pending(After(c, s, op))| + (if op.Firing? then 1 else 0) <= |Pending(s)|
  {
    if op.Firing? { FiringUnderWay(c, s, op); } else { OrdinaryUnderWay(c, s, op); }
  }

  /** As long as the merge is under way every firing has used up one pending peer for good, and no other
      operation has added one; so after more firings than pending peers the merge is over. */
  lemma {:induction false} FiringsAreBounded(c: Config, s: State, ops: seq<Op>)
    requires Inv(c, s) && LegalRun(c, s, ops) && NoOrder(ops) && s.stage == ServerAuxMesclar && s.qt >= 1
    ensures Live(Run(c, s, ops)) ==> Live(s) && |Pending(Run(c, s, ops))| + Firings(ops) <= |Pending(s)|
    ensures Firings(ops) > |Pending(s)| ==> !Live(Run(c, s, ops))
    decreases |ops|
  {
    if ops != [] {
      StepUnderWay(c, s, ops[0]);
      FiringsAreBounded(c, After(c, s, ops[0]), ops[1..]);
    }
  }

  // ---- without interleaving: the exact number of firings --------------------------------------

  /** `m` partners are let go in this many firings. */
  function Rounds(m: nat, q: nat): nat
    requires q > 0
  {
    if m == 0 then 0 else if m <= q then 1 else 1 + Rounds(m - q, q)
  }

  lemma {:induction false} RoundsIsCeiling(m: nat, q: nat)
    requires q > 0
    ensures Rounds(m, q) == (m + q - 1) / q
  {
    if m > q {
      RoundsIsCeiling(m - q, q);
      OneLess(m + q - 1, q);
    } else if m > 0 {
      assert m + q - 1 == q + (m - 1);
      OneLess(m + q - 1, q);
      assert (m - 1) / q == 0;
    }
  }

  lemma OneLess(a: nat, q: nat)
    requires q > 0 && a >= q
    ensures a / q == (a - q) / q + 1
  {
    DivModUnique(a - q, a / q - 1, a % q, q);
  }

  ghost predicate OnlyFirings(ops: seq<Op>) {
    forall i :: 0 <= i < |ops| ==> ops[i].Firing?
  }

  lemma OneRoundLess(m: nat, q: nat)
    requires m > 0 && q > 0
    ensures Rounds(m - Min(q, m), q) == Rounds(m, q) - 1
  {
  }

  lemma FiringTakesARound(c: Config, s: State, op: Op)
    requires Inv(c, s) && Live(s) && s.qt >= 1 && Legal(s, op) && op.Firing? && MergeLeft(s) != {}
    ensures var t := After(c, s, op);
            Live(t) && t.qt == s.qt && Rounds(|MergeLeft(t)|, t.qt) == Rounds(|MergeLeft(s)|, s.qt) - 1
  {
    FiringProgress(c, s, op.drawn);
    OneRoundLess(|MergeLeft(s)|, s.qt);
    QuotaStays(s, op.drawn);
  }

  lemma QuotaStays(s: State, drawn: set<string>)
    ensures Fire(s, drawn).qt == s.qt
  {
  }

  lemma LastFiring(c: Config, s: State, op: Op)
    requires Inv(c, s) && Live(s) && s.qt >= 1 && Legal(s, op) && op.Firing? && MergeLeft(s) == {}
    ensures !Live(After(c, s, op))
  {
    FiringProgress(c, s, op.drawn);
  }

  /** If nothing else happens, the merge is under way after exactly the firings up to the number of full
      rounds, and the next firing ends it. */
  lemma {:induction false} ExactFirings(c: Config, s: State, ops: seq<Op>)
    requires Inv(c, s) && Live(s) && s.qt >= 1 && LegalRun(c, s, ops) && OnlyFirings(ops)
    requires |ops| <= Rounds(|MergeLeft(s)|, s.qt) + 1
    ensures Live(Run(c, s, ops)) <==> |ops| <= Rounds(|MergeLeft(s)|, s.qt)
    ensures |ops| == Rounds(|MergeLeft(s)|, s.qt) ==> MergeLeft(Run(c, s, ops)) == {}
    decreases |ops|
  {
    if ops != [] {
      var t := After(c, s, ops[0]);
      assert ops[0].Firing?;
      if MergeLeft(s) != {} {
        FiringTakesARound(c, s, ops[0]);
        ExactFirings(c, t, ops[1..]);
      } else {
        LastFiring(c, s, ops[0]);
        assert ops[1..] == [];
      }
    }
  }

  // ---- whoever was let go stays out ---------------------------------------------------------

  lemma PingKeepsRejected(c: Config, s: State, op: Op)
    requires Inv(c, s) && Legal(s, op) && (op.PingFromIn? || op.PingFromOut?)
    ensures Step(c, s, op).rejected == s.rejected
  {
    var l := if op.PingFromIn? then In else op.l;
    var known := AddPeer(s, op.p, op.out, op.outFree);
    AddPeerKeepsInv(c, s, op.p, op.out, op.outFree);
    InvOfList(c, s, l);
    assert SlotOf(known, l) == SlotOf(s, l);
    if Accepted(c, known, op.p, l) { var gone := ConnectInserts(c, known, op.p, l); }
  }

  lemma StepKeepsRejected(c: Config, s: State, op: Op)
    requires Inv(c, s) && Legal(s, op) && !op.Order?
    ensures s.rejected <= Step(c, s, op).rejected
  {
    match op
    case Try(p, l) =>
      InvOfList(c, s, l);
      if Accepted(c, s, p, l) { var gone := ConnectInserts(c, s, p, l); }
    case PingFromIn(p, out, outFree) => PingKeepsRejected(c, s, op);
    case PingFromOut(p, out, outFree, l) => PingKeepsRejected(c, s, op);
    case _ =>
  }

  lemma {:induction false} RunKeepsRejected(c: Config, s: State, ops: seq<Op>)
    requires Inv(c, s) && LegalRun(c, s, ops) && NoOrder(ops)
    ensures s.rejected <= Run(c, s, ops).rejected
    decreases |ops|
  {
    if ops != [] {
      StepKeepsRejected(c, s, ops[0]);
      RunKeepsRejected(c, After(c, s, ops[0]), ops[1..]);
    }
  }

  /** Where connections are avoided, whoever a firing lets go is no output partner, and is refused as one, after
      every run without an order of the bootstrap. */
  lemma LetGoForTheStage(c: Config, s: State, drawn: set<string>, ops: seq<Op>, p: string)
    requires Inv(c, s) && Live(s) && s.merge == LiveAvoid && Legal(s, Firing(drawn)) && p in drawn
    requires LegalRun(c, After(c, s, Firing(drawn)), ops) && NoOrder(ops)
    ensures var t := Run(c, After(c, s, Firing(drawn)), ops);
            p !in t.outs.members && (p in t.peers ==> Refused(c, t, p, Out) && Refused(c, t, p, OutFree))
  {
    LetGoStaysOut(c, s, drawn, p);
    assert After(c, s, Firing(drawn)) == Fire(s, drawn);
    RunKeepsRejected(c, After(c, s, Firing(drawn)), ops);
    RejectedIsRefused(c, Run(c, After(c, s, Firing(drawn)), ops), p);
  }

  lemma RejectedIsRefused(c: Config, t: State, p: string)
    requires Inv(c, t) && p in t.rejected
    ensures p !in t.outs.members && (p in t.peers ==> Refused(c, t, p, Out) && Refused(c, t, p, OutFree))
  {
  }

  // ---- the clock -----------------------------------------------------------------------------

  /** Once a second: the pass over the partners, then the merge timer. */
  ghost function Tick(c: Config, s: State, timer: nat, drawn: set<string>): (State, nat)
    requires Inv(c, s) && LegalTick(c, s, timer, drawn)
  {
    var t := After(c, s, Pass);
    if t.stage != ServerAuxMesclar then (t, timer)
    else
      var next := NextTimer(t.period, timer);
      (if next == 0 then After(c, t, Firing(drawn)) else t, next)
  }

  ghost predicate LegalTick(c: Config, s: State, timer: nat, drawn: set<string>)
    requires Inv(c, s)
  {
    Legal(s, Pass) && (s.stage == ServerAuxMesclar && NextTimer(s.period, timer) == 0 ==>
                         DrawnForFiring(After(c, s, Pass), drawn))
  }

  datatype Event = Clock(drawn: set<string>) | Other(op: Op)

  /** Clock ticks interleaved with anything but orders; the clock alone fires. */
  ghost predicate LegalEvent(c: Config, s: State, timer: nat, e: Event)
    requires Inv(c, s)
  {
    match e
    case Clock(drawn) => LegalTick(c, s, timer, drawn)
    case Other(op) => Legal(s, op) && Ordinary(op)
  }

  ghost function Happens(c: Config, s: State, timer: nat, e: Event): (r: (State, nat))
    requires Inv(c, s) && LegalEvent(c, s, timer, e)
    ensures Inv(c, r.0)
  {
    match e
    case Clock(drawn) => Tick(c, s, timer, drawn)
    case Other(op) => (After(c, s, op), timer)
  }

  ghost predicate LegalEvents(c: Config, s: State, timer: nat, es: seq<Event>)
    requires Inv(c, s)
    decreases |es|
  {
    es == [] || (LegalEvent(c, s, timer, es[0])
                 && var r := Happens(c, s, timer, es[0]); LegalEvents(c, r.0, r.1, es[1..]))
  }

  ghost function History(c: Config, s: State, timer: nat, es: seq<Event>): (r: (State, nat))
    requires Inv(c, s) && LegalEvents(c, s, timer, es)
    ensures Inv(c, r.0)
    decreases |es|
  {
    if es == [] then (s, timer)
    else
      var r := Happens(c, s, timer, es[0]);
      History(c, r.0, r.1, es[1..])
  }

  function Ticks(es: seq<Event>): nat {
    if es == [] then 0 else (if es[0].Clock? then 1 else 0) + Ticks(es[1..])
  }

  /** The seconds between two firings: the 8-bit timer takes 256 when the period is zero. */
  function Interval(period: nat): nat {
    if period == 0 then 256 else period
  }

  /** The seconds until the next firing. */
  function UntilFiring(period: nat, timer: nat): nat {
    if timer == 0 then Interval(period) else timer
  }

  /** The timer counts down to a firing and starts again. */
  lemma TimerCountsDown(period: nat, timer: nat)
    requires period < 256 && timer < 256
    ensures NextTimer(period, timer) < 256
    ensures NextTimer(period, timer) == UntilFiring(period, timer) - 1
  {
  }

  /** An upper bound for the seconds a merge still takes. */
  ghost function Bound(s: State, timer: nat): nat {
    |Pending(s)| * Interval(s.period) + UntilFiring(s.period, timer)
  }

  lemma BoundDrops(n: nat, n': nat, interval: nat)
    requires n' < n
    ensures n' * interval + interval <= n * interval
  {
    assert n * interval == (n - 1) * interval + interval;
    MulMonotone(n', n - 1, interval);
  }

  lemma TickUsesBound(c: Config, s: State, timer: nat, drawn: set<string>)
    requires Inv(c, s) && LegalTick(c, s, timer, drawn) && s.stage == ServerAuxMesclar && s.qt >= 1
    requires s.period < 256 && timer < 256
    ensures var r := Tick(c, s, timer, drawn);
            && r.0.stage == ServerAuxMesclar && r.0.qt == s.qt && r.0.period == s.period && r.1 < 256
            && (Live(r.0) ==> Live(s) && Bound(r.0, r.1) + 1 <= Bound(s, timer))
  {
    var t := After(c, s, Pass);
    var r := Tick(c, s, timer, drawn);
    OrdinarySameMerge(c, s, Pass);
    StepUnderWay(c, s, Pass);
    TimerCountsDown(s.period, timer);
    if r.1 == 0 {
      StepUnderWay(c, t, Firing(drawn));
      FiringKeepsPeriod(t, drawn);
      if Live(r.0) {
        BoundDrops(|Pending(s)|, |Pending(r.0)|, Interval(s.period));
      }
    } else if Live(r.0) {
      MulMonotone(|Pending(t)|, |Pending(s)|, Interval(s.period));
    }
  }

  lemma FiringKeepsPeriod(s: State, drawn: set<string>)
    ensures Fire(s, drawn).period == s.period
  {
  }

  lemma OtherKeepsBound(c: Config, s: State, timer: nat, op: Op)
    requires Inv(c, s) && Legal(s, op) && Ordinary(op) && s.stage == ServerAuxMesclar && s.qt >= 1
    ensures SameMerge(s, After(c, s, op))
    ensures Bound(After(c, s, op), timer) <= Bound(s, timer)
  {
    OrdinarySameMerge(c, s, op);
    OrdinaryNeverGrows(c, s, op);
    SubsetCard(Pending(Step(c, s, op)), Pending(s));
    MulMonotone(|Pending(Step(c, s, op))|, |Pending(s)|, Interval(s.period));
  }

  lemma EventUsesBound(c: Config, s: State, timer: nat, e: Event)
    requires Inv(c, s) && LegalEvent(c, s, timer, e) && s.stage == ServerAuxMesclar && s.qt >= 1
    requires s.period < 256 && timer < 256
    ensures var r := Happens(c, s, timer, e);
            && r.0.stage == ServerAuxMesclar && r.0.qt == s.qt && r.0.period == s.period && r.1 < 256
            && (Live(r.0) ==> Bound(r.0, r.1) + (if e.Clock? then 1 else 0) <= Bound(s, timer))
  {
    match e
    case Clock(drawn) => TickUsesBound(c, s, timer, drawn);
    case Other(op) => OtherKeepsBound(c, s, timer, op);
  }

  /** Every tick of an unfinished merge uses up a second of the bound. */
  lemma {:induction false} TicksAreBounded(c: Config, s: State, timer: nat, es: seq<Event>)
    requires Inv(c, s) && LegalEvents(c, s, timer, es) && s.stage == ServerAuxMesclar && s.qt >= 1
    requires s.period < 256 && timer < 256
    ensures var r := History(c, s, timer, es); r.0.stage == ServerAuxMesclar && (Live(r.0) ==> Live(s))
    ensures Live(History(c, s, timer, es).0) ==> Ticks(es) < Bound(s, timer)
    decreases |es|
  {
    if es != [] {
      var r := Happens(c, s, timer, es[0]);
      EventUsesBound(c, s, timer, es[0]);
      TicksAreBounded(c, r.0, r.1, es[1..]);
      UnderWayBefore(c, s, timer, es[0]);
    }
  }

  lemma UnderWayBefore(c: Config, s: State, timer: nat, e: Event)
    requires Inv(c, s) && LegalEvent(c, s, timer, e) && s.stage == ServerAuxMesclar && s.qt >= 1
    requires s.period < 256 && timer < 256
    ensures Live(Happens(c, s, timer, e).0) ==> Live(s)
  {
    match e
    case Clock(drawn) => TickUsesBound(c, s, timer, drawn);
    case Other(op) => OtherKeepsBound(c, s, timer, op);
  }

  /** A merge is over after one interval of the clock for every pending peer and the seconds the timer has left,
      a full interval if it is zero, whatever pings, connections and passes happen meanwhile. */
  lemma MergeEndsInTime(c: Config, s: State, timer: nat, es: seq<Event>)
    requires Inv(c, s) && LegalEvents(c, s, timer, es) && s.stage == ServerAuxMesclar && s.qt >= 1
    requires s.period < 256 && timer < 256
    requires Ticks(es) >= |Pending(s)| * Interval(s.period) + if timer == 0 then Interval(s.period) else timer
    ensures !Live(History(c, s, timer, es).0)
  {
    TicksAreBounded(c, s, timer, es);
  }
}
