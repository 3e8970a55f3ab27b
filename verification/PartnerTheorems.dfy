/**
 What the partner lists guarantee: replacements only improve a list, the pass meets its decision
 table, a silent partner lives exactly as long as its counter says, and a parallel network admits
 nobody who was known before it.
 */
module PartnerTheorems {
  import opened AuxStates
  import opened Keys
  import opened Partners
  import opened PartnerRuns

  // ---- the effect of one connection --------------------------------------------------------

  /** `t` is `s` with `p` in the list `l` instead of the partners `gone`; only counters of `p` changed. */
  ghost predicate Inserted(s: State, t: State, p: string, l: List, gone: set<string>) {
    && t.ins == (if l == In then s.ins.(members := s.ins.members + {p}) else s.ins)
    && t.outs == (if l == Out then s.outs.(members := s.outs.members - gone + {p}) else s.outs)
    && t.frees == (if l == OutFree then s.frees.(members := s.frees.members - gone + {p}) else s.frees)
    && t.rejected == s.rejected && t.stage == s.stage
    && t.peers.Keys == s.peers.Keys && p in s.peers
    && (forall q :: q in s.peers && q != p ==> t.peers[q] == s.peers[q])
    && t.peers[p] == s.peers[p].(ttlIn := t.peers[p].ttlIn, ttlOut := t.peers[p].ttlOut)
  }

  lemma JoinsInserts(s: State, p: string, l: List)
    requires p in s.peers
    ensures Inserted(s, Joins(s, p, l), p, l, {})
  {
    match l
    case In =>
    case Out => assert s.outs.members - {} == s.outs.members;
    case OutFree => assert s.frees.members - {} == s.frees.members;
  }

  lemma ReplacesInserts(s: State, p: string, l: List, w: string)
    requires p in s.peers && l != In
    ensures Inserted(s, Replaces(s, p, l, w), p, l, {w})
  {
    match l
    case Out =>
    case OutFree =>
  }

  lemma ConnectInserts(c: Config, s: State, p: string, l: List) returns (gone: set<string>)
    requires p in s.peers && SlotOf(s, l).members <= s.peers.Keys && Accepted(c, s, p, l)
    ensures Inserted(s, Connect(c, s, p, l), p, l, gone)
  {
    var members := SlotOf(s, l).members;
    if |members| < Max(c, l) {
      gone := {};
      JoinsInserts(s, p, l);
    } else {
      gone := {Worst(s.peers, members)};
      ReplacesInserts(s, p, l, Worst(s.peers, members));
    }
  }

  // ---- replacing the worst partner -------------------------------------------------------

  /** The informed output of a list as a whole. */
  function TotalOut(peers: map<string, Partner>, members: set<string>): int
    requires members <= peers.Keys
    decreases |members|
  {
    if members == {} then 0
    else
      var k := Least(members);
      peers[k].out + TotalOut(peers, members - {k})
  }

  lemma {:induction false} TotalWithout(peers: map<string, Partner>, members: set<string>, w: string)
    requires members <= peers.Keys && w in members
    ensures TotalOut(peers, members) == peers[w].out + TotalOut(peers, members - {w})
    decreases |members|
  {
    var k := Least(members);
    if k != w {
      TotalWithout(peers, members - {k}, w);
      assert members - {w} - {k} == members - {k} - {w};
      assert Least(members - {w}) == k by {
        LeastIsUnique(members - {w}, Least(members - {w}), k);
      }
    }
  }

  lemma {:induction false} TotalFrame(peers: map<string, Partner>, peers': map<string, Partner>, members: set<string>)
    requires members <= peers.Keys && members <= peers'.Keys
    requires forall k :: k in members ==> peers'[k].out == peers[k].out
    ensures TotalOut(peers', members) == TotalOut(peers, members)
    decreases |members|
  {
    if members != {} {
      TotalFrame(peers, peers', members - {Least(members)});
    }
  }

  lemma TotalAfterSwap(peers: map<string, Partner>, before: set<string>, w: string, p: string)
    requires before <= peers.Keys && w in before && p in peers && p !in before
    ensures |before - {w} + {p}| == |before|
    ensures TotalOut(peers, before - {w} + {p}) == TotalOut(peers, before) + peers[p].out - peers[w].out
  {
    var after := before - {w} + {p};
    assert |after| == |before - {w}| + 1;
    TotalWithout(peers, before, w);
    TotalWithout(peers, after, p);
    assert after - {p} == before - {w};
  }

  lemma SwapIs(c: Config, s: State, p: string, l: List) returns (w: string)
    requires p in s.peers && |SlotOf(s, l).members| >= Max(c, l)
    requires SlotOf(s, l).members <= s.peers.Keys && Accepted(c, s, p, l)
    ensures w in SlotOf(s, l).members && s.peers[w].out < s.peers[p].out
    ensures forall k :: k in SlotOf(s, l).members ==> s.peers[w].out <= s.peers[k].out
    ensures SlotOf(Connect(c, s, p, l), l).members == SlotOf(s, l).members - {w} + {p}
    ensures forall k :: k in s.peers ==>
                          k in Connect(c, s, p, l).peers && Connect(c, s, p, l).peers[k].out == s.peers[k].out
  {
    w := Worst(s.peers, SlotOf(s, l).members);
    assert Connect(c, s, p, l) == Replaces(s, p, l, w);
  }

  /** A full list accepts a newcomer only by letting go a partner `w` with the least output of all; the
      size stays, and the informed output of the list strictly grows, by the difference. */
  lemma SwapRaisesOutput(c: Config, s: State, p: string, l: List) returns (w: string)
    requires Inv(c, s) && p in s.peers && p !in SlotOf(s, l).members && |SlotOf(s, l).members| >= Max(c, l)
    requires SlotOf(s, l).members <= s.peers.Keys && Accepted(c, s, p, l)
    ensures var t, before := Connect(c, s, p, l), SlotOf(s, l).members;
            var after := SlotOf(t, l).members;
            && w in before && after == before - {w} + {p}
            && (forall k :: k in before ==> s.peers[w].out <= s.peers[k].out)
            && |after| == |before| && after <= t.peers.Keys
            && TotalOut(t.peers, after) == TotalOut(s.peers, before) + s.peers[p].out - s.peers[w].out
            && TotalOut(t.peers, after) > TotalOut(s.peers, before)
  {
    w := SwapIs(c, s, p, l);
    var before := SlotOf(s, l).members;
    TotalAfterSwap(s.peers, before, w, p);
    TotalFrame(s.peers, Connect(c, s, p, l).peers, before - {w} + {p});
  }

  /** A full output list that refuses nobody on other grounds accepts exactly the newcomers that beat
      one of its partners; a full In list accepts nobody. */
  lemma FullListAcceptsBetter(c: Config, s: State, p: string, l: List)
    requires Inv(c, s) && p in s.peers && |SlotOf(s, l).members| >= Max(c, l) && !Refused(c, s, p, l)
    ensures SlotOf(s, l).members <= s.peers.Keys
    ensures Accepted(c, s, p, l) <==>
              l != In && exists k :: k in SlotOf(s, l).members && s.peers[k].out < s.peers[p].out
  {
    InvOfList(c, s, l);
    if SlotOf(s, l).members != {} {
      var w := Worst(s.peers, SlotOf(s, l).members);
    }
  }

  // ---- which counter a new partner gets ----------------------------------------------------

  /** The members of the list once `p` is accepted. */
  function WithNewcomer(c: Config, s: State, p: string, l: List): set<string>
    requires SlotOf(s, l).members <= s.peers.Keys
  {
    var members := SlotOf(s, l).members;
    (if |members| < Max(c, l) || members == {} then members else members - {Worst(s.peers, members)}) + {p}
  }

  /** An accepted output partner gets a full output counter, unless the list with it has the members of the In
      list: the two are told apart by their contents, and then its In counter is filled instead. */
  lemma OutputCounter(c: Config, s: State, p: string, l: List)
    requires p in s.peers && l != In && SlotOf(s, l).members <= s.peers.Keys && Accepted(c, s, p, l)
    ensures Connect(c, s, p, l).peers[p] ==
              if WithNewcomer(c, s, p, l) != s.ins.members then s.peers[p].(ttlOut := TTL_OUT)
              else s.peers[p].(ttlIn := TTL_IN)
    ensures Connect(c, s, p, l).peers[p].ttlOut == TTL_OUT <==>
              WithNewcomer(c, s, p, l) != s.ins.members || s.peers[p].ttlOut == TTL_OUT
  {
    var slot := SlotOf(s, l);
    if |slot.members| < Max(c, l) {
      RefreshedBy(WithSlot(s, l, slot.(members := slot.members + {p})), p, l);
    } else {
      var w := Worst(s.peers, slot.members);
      RefreshedBy(WithSlot(s, l, slot.(members := slot.members - {w} + {p})).(removeWorse := false), p, l);
    }
  }

  lemma RefreshedBy(s: State, p: string, l: List)
    requires p in s.peers
    ensures Refreshed(s, p, l).peers[p] == if SlotOf(s, l).members != s.ins.members then s.peers[p].(ttlOut := TTL_OUT)
                                           else s.peers[p].(ttlIn := TTL_IN)
  {
  }

  // ---- a run on which the output counter is missed ------------------------------------------

  /** A manager without merge settings that knows one peer and has removed nobody. */
  function Knowing(p: string, d: Partner, isIn: bool, isOut: bool, stage: AuxState, rejected: set<string>): State {
    State(map[p := d], Slot(if isIn then {p} else {}, map[]), Slot(if isOut then {p} else {}, map[]), Slot({}, map[]),
          rejected, stage, false, NoneMerge, false, 1, 1, false)
  }

  lemma FirstPingIn(c: Config, p: string, out: int, s: State)
    requires c.maxIn > 0 && s == Initial(NoneMerge, 1, 1, false)
    ensures s.ins.members <= s.peers.Keys
    ensures PingIn(c, s, p, out, out)
            == Knowing(p, Partner(c.ttlIn, TTL_OUT, 0, out, out), true, false, NoServerAux, {})
  {
    var known := AddPeer(s, p, out, out);
    assert known.peers == map[p := Partner(TTL_IN, TTL_OUT, 0, out, out)];
    assert Connect(c, known, p, In) == Joins(known, p, In);
  }

  lemma FirstPingOut(c: Config, p: string, out: int, s: State)
    requires c.maxOut > 0
    requires s == Knowing(p, Partner(c.ttlIn, TTL_OUT, 0, out, out), true, false, NoServerAux, {})
    ensures s.outs.members <= s.peers.Keys
    ensures PingOut(c, s, p, out, out, Out)
            == Knowing(p, Partner(TTL_IN, c.ttlOut, 0, out, out), true, true, NoServerAux, {})
  {
    var known := AddPeer(s, p, out, out);
    assert known == s by { assert known.peers == s.peers; }
    assert Connect(c, known, p, Out) == Joins(known, p, Out);
  }

  lemma FirstPass(c: Config, p: string, out: int, s: State)
    requires c.ttlOut > 1
    requires s == Knowing(p, Partner(TTL_IN, c.ttlOut, 0, out, out), true, true, NoServerAux, {})
    ensures Active(s) <= s.peers.Keys
    ensures CheckList(s)
            == Knowing(p, Partner(TTL_IN - 1, c.ttlOut - 1, 0, out, out), true, true, NoServerAux, {})
  {
    var t := CheckList(s);
    WhoLeaves(s, p);
    assert t.peers.Keys == {p};
    assert FromIn(s) == {} && FromOut(s) == {} && FromFree(s) == {};
    NobodyLeaves(s.ins);
    NobodyLeaves(s.outs);
    NobodyLeaves(s.frees);
  }

  lemma NobodyLeaves(slot: Slot)
    requires slot.cooldown == map[]
    ensures PassedSlot(slot, {}) == slot
  {
    assert DisconnectAll(slot, {}).cooldown == map[];
  }

  lemma ServedAndBack(p: string, d: Partner, s: State)
    requires s == Knowing(p, d, true, true, NoServerAux, {})
    ensures var t := SetStage(s, ServerAuxActive);
            && t == Knowing(p, d, true, false, ServerAuxActive, {p})
            && SetStage(t, NoServerAux) == Knowing(p, d, true, false, NoServerAux, {})
  {
    var t := SetStage(s, ServerAuxActive);
    assert t.rejected == {p};
    assert Relabelled(t, _ => 0) == t.peers;
  }

  /** `ops` make `s` of an empty manager. */
  ghost predicate Reaches(c: Config, ops: seq<Op>, s: State) {
    InitialInv(c, NoneMerge, 1, 1, false);
    LegalRun(c, Initial(NoneMerge, 1, 1, false), ops) && Run(c, Initial(NoneMerge, 1, 1, false), ops) == s
  }

  lemma ReachesMore(c: Config, ops: seq<Op>, s: State, op: Op, t: State)
    requires Reaches(c, ops, s) && Legal(s, op)
    requires Inv(c, s) ==> t == After(c, s, op)
    ensures Reaches(c, ops + [op], t)
  {
    InitialInv(c, NoneMerge, 1, 1, false);
    RunAppend(c, Initial(NoneMerge, 1, 1, false), ops, op);
  }

  lemma ReachesInv(c: Config, ops: seq<Op>, s: State)
    requires Reaches(c, ops, s)
    ensures Inv(c, s)
  {
    InitialInv(c, NoneMerge, 1, 1, false);
  }

  lemma BothWays(c: Config, p: string, out: int) returns (ops: seq<Op>, s: State)
    requires c.maxIn > 0 && c.maxOut > 0
    ensures Reaches(c, ops, s)
    ensures s == Knowing(p, Partner(TTL_IN, c.ttlOut, 0, out, out), true, true, NoServerAux, {})
  {
    var s0 := Initial(NoneMerge, 1, 1, false);
    InitialInv(c, NoneMerge, 1, 1, false);
    assert Reaches(c, [], s0);
    FirstPingIn(c, p, out, s0);
    var s1 := PingIn(c, s0, p, out, out);
    ReachesMore(c, [], s0, PingFromIn(p, out, out), s1);
    ops := [] + [PingFromIn(p, out, out)];
    ReachesInv(c, ops, s1);
    FirstPingOut(c, p, out, s1);
    s := PingOut(c, s1, p, out, out, Out);
    ReachesMore(c, ops, s1, PingFromOut(p, out, out, Out), s);
    ops := ops + [PingFromOut(p, out, out, Out)];
  }

  lemma BackFromServing(c: Config, p: string, d: Partner, before: seq<Op>, s: State) returns (ops: seq<Op>, t: State)
    requires Reaches(c, before, s) && s == Knowing(p, d, true, true, NoServerAux, {})
    ensures Reaches(c, ops, t) && t == Knowing(p, d, true, false, NoServerAux, {})
  {
    var order, back := Order(ServerAuxActive, NoneMerge, 1, 1), Order(NoServerAux, NoneMerge, 1, 1);
    ServedAndBack(p, d, s);
    var u := SetStage(s, ServerAuxActive);
    ReachesInv(c, before, s);
    assert SetMergeType(s, NoneMerge).(qt := 1, period := 1) == s;
    ReachesMore(c, before, s, order, u);
    ReachesInv(c, before + [order], u);
    assert SetMergeType(u, NoneMerge).(qt := 1, period := 1) == u;
    t := SetStage(u, NoServerAux);
    ReachesMore(c, before + [order], u, back, t);
    ops := before + [order] + [back];
  }

  /** Such a case is reached from an empty manager: a peer pings as In and as output partner, one second passes,
      the client serves a flash crowd and is done.  When the peer is tried as output partner again, its output
      counter stays as low as it was, and its In counter is filled. */
  lemma OutputCounterMissed(c: Config, p: string, out: int) returns (ops: seq<Op>, s: State)
    requires c.maxIn > 0 && c.maxOut > 0 && c.ttlOut > 1 && c.ttlOut - 1 != TTL_OUT
    ensures Reaches(c, ops, s) && p in s.peers && s.outs.members <= s.peers.Keys && Accepted(c, s, p, Out)
    ensures s.peers[p].ttlIn == TTL_IN - 1 && s.peers[p].ttlOut == c.ttlOut - 1
    ensures Connect(c, s, p, Out).peers[p].ttlIn == TTL_IN && Connect(c, s, p, Out).peers[p].ttlOut != TTL_OUT
  {
    ops, s := BothWays(c, p, out);
    ReachesInv(c, ops, s);
    FirstPass(c, p, out, s);
    ReachesMore(c, ops, s, Pass, CheckList(s));
    ops, s := BackFromServing(c, p, Partner(TTL_IN - 1, c.ttlOut - 1, 0, out, out), ops + [Pass], CheckList(s));
    OutputCounter(c, s, p, Out);
  }

  /** The ping that connects a peer sets the right counter afterwards, whichever was set before. */
  lemma PingFillsCounter(c: Config, s: State, p: string, out: int, outFree: int, l: List)
    requires Inv(c, s) && SlotOf(s, l).members <= s.peers.Keys
    ensures var t := PingOut(c, s, p, out, outFree, l);
            p in t.peers && (p in SlotOf(t, l).members ==> t.peers[p].ttlOut == c.ttlOut)
  {
    var known := AddPeer(s, p, out, outFree);
    if p !in SlotOf(known, l).members && !Accepted(c, known, p, l) {
    } else {
      var t := if p in SlotOf(known, l).members then known else Connect(c, known, p, l);
      assert p in t.peers;
    }
  }

  // ---- the decision table of the pass --------------------------------------------------------

  lemma WhoLeaves(s: State, p: string)
    requires Active(s) <= s.peers.Keys && p in s.peers
    ensures p in CheckList(s).ins.members <==> p in s.ins.members && !LeavesIn(s, p)
    ensures p in CheckList(s).outs.members <==> p in s.outs.members && !LeavesOut(s, p)
    ensures p in CheckList(s).frees.members <==> p in s.frees.members && !LeavesFree(s, p)
    ensures p in CheckList(s).peers <==> !Forgotten(s, p)
    ensures p in CheckList(s).peers ==> CheckList(s).peers[p] == Passed(s, p)
  {
  }

  lemma LeaverWaits(slot: Slot, leaving: set<string>, p: string)
    requires p in leaving
    ensures p in PassedSlot(slot, leaving).cooldown && PassedSlot(slot, leaving).cooldown[p] == 4
  {
    assert DisconnectAll(slot, leaving).cooldown[p] == 5;
  }

  lemma LeaversWait(s: State, p: string)
    requires Active(s) <= s.peers.Keys && p in s.peers
    ensures LeavesIn(s, p) ==> p in CheckList(s).ins.cooldown && CheckList(s).ins.cooldown[p] == 4
    ensures LeavesOut(s, p) ==> p in CheckList(s).outs.cooldown && CheckList(s).outs.cooldown[p] == 4
    ensures LeavesFree(s, p) ==> p in CheckList(s).frees.cooldown && CheckList(s).frees.cooldown[p] == 4
  {
    if LeavesIn(s, p) { LeaverWaits(s.ins, FromIn(s), p); }
    if LeavesOut(s, p) { LeaverWaits(s.outs, FromOut(s), p); }
    if LeavesFree(s, p) { LeaverWaits(s.frees, FromFree(s), p); }
  }

  /** For every membership and every pair of counters: which lists a peer keeps, with which counters,
      and that it is forgotten exactly when it was active and is in no list any more. */
  lemma DecisionTable(s: State, p: string)
    requires Active(s) <= s.peers.Keys && p in s.peers
    ensures var t, d := CheckList(s), s.peers[p];
            var i, o, f := p in s.ins.members, p in s.outs.members, p in s.frees.members;
            && (p in t.ins.members <==> i && d.ttlIn > 1)
            && (p in t.outs.members <==> o && d.ttlOut > 1)
            && (p in t.frees.members <==> f && d.ttlOut > if o then 2 else 1)
            && (p !in t.peers <==> p in Active(s) && p !in Active(t))
            && (p in t.peers ==> t.peers[p] == d.(ttlIn := if i then d.ttlIn - 1 else d.ttlIn,
                                                  ttlOut := d.ttlOut - (if o then 1 else 0) - (if f then 1 else 0)))
            && (i && p !in t.ins.members ==> p in t.ins.cooldown && t.ins.cooldown[p] == 4)
            && (o && p !in t.outs.members ==> p in t.outs.cooldown && t.outs.cooldown[p] == 4)
            && (f && p !in t.frees.members ==> p in t.frees.cooldown && t.frees.cooldown[p] == 4)
  {
    WhoLeaves(s, p);
    LeaversWait(s, p);
  }

  /** Nobody joins a list, and nobody is learnt, during a pass. */
  lemma PassOnlyRemoves(c: Config, s: State)
    requires Inv(c, s) && Active(s) <= s.peers.Keys
    ensures var t := CheckList(s);
            && t.ins.members <= s.ins.members && t.outs.members <= s.outs.members && t.frees.members <= s.frees.members
            && t.peers.Keys <= s.peers.Keys && s.peers.Keys - t.peers.Keys <= Active(s)
  {
  }

  // ---- how long a silent partner stays ---------------------------------------------------------

  function Passes(ops: seq<Op>): nat {
    if ops == [] then 0 else (if ops[0].Pass? then 1 else 0) + Passes(ops[1..])
  }

  /** Nothing is heard from `p`, and nobody tries to connect it or removes it from the In list. */
  ghost predicate SilentOp(op: Op, p: string) {
    match op
    case Try(q, _) => q != p
    case Drop(q, l) => q != p || l != In
    case PingFromIn(q, _, _) => q != p
    case PingFromOut(q, _, _, _) => q != p
    case _ => true
  }

  ghost predicate Silent(ops: seq<Op>, p: string) {
    forall i :: 0 <= i < |ops| ==> SilentOp(ops[i], p)
  }

  ghost predicate InFor(s: State, p: string, ttl: int) {
    p in s.ins.members && p in s.peers && s.peers[p].ttlIn == ttl
  }

  lemma ConnectSparesIn(c: Config, s: State, q: string, l: List, p: string, ttl: int)
    requires q in s.peers && q != p && InFor(s, p, ttl) && SlotOf(s, l).members <= s.peers.Keys
    ensures InFor(Connect(c, s, q, l), p, ttl)
  {
    if Accepted(c, s, q, l) {
      var gone := ConnectInserts(c, s, q, l);
    }
  }

  lemma PingSparesIn(c: Config, s: State, op: Op, p: string, ttl: int)
    requires Inv(c, s) && Legal(s, op) && (op.PingFromIn? || op.PingFromOut?) && op.p != p && InFor(s, p, ttl)
    ensures InFor(Step(c, s, op), p, ttl)
  {
    var l := if op.PingFromIn? then In else op.l;
    var known := AddPeer(s, op.p, op.out, op.outFree);
    AddPeerKeepsInv(c, s, op.p, op.out, op.outFree);
    InvOfList(c, s, l);
    ConnectSparesIn(c, known, op.p, l, p, ttl);
  }

  lemma SetStageSparesIn(s: State, stage: AuxState, p: string, ttl: int)
    requires InFor(s, p, ttl)
    ensures InFor(SetStage(s, stage), p, ttl)
  {
  }

  lemma FireSparesIn(s: State, drawn: set<string>, p: string, ttl: int)
    requires InFor(s, p, ttl)
    ensures InFor(Fire(s, drawn), p, ttl)
  {
  }

  lemma SilentStep(c: Config, s: State, op: Op, p: string, ttl: int)
    requires Inv(c, s) && Legal(s, op) && SilentOp(op, p) && InFor(s, p, ttl) && (op.Pass? ==> ttl > 1)
    ensures InFor(Step(c, s, op), p, if op.Pass? then ttl - 1 else ttl)
  {
    match op
    case Know(q, out, outFree) =>
    case Try(q, l) => InvOfList(c, s, l); ConnectSparesIn(c, s, q, l, p, ttl);
    case Drop(q, l) =>
    case PingFromIn(q, out, outFree) => PingSparesIn(c, s, op, p, ttl);
    case PingFromOut(q, out, outFree, l) => PingSparesIn(c, s, op, p, ttl);
    case AllowReplacing =>
    case Pass => DecisionTable(s, p);
    case Order(stage, merge, qt, period) =>
      SetStageSparesIn(SetMergeType(s, merge).(qt := qt, period := period), stage, p, ttl);
    case Firing(drawn) => FireSparesIn(s, drawn, p, ttl);
  }

  /** A partner last heard with a counter of `ttl` survives fewer passes than that, whatever the others do. */
  lemma {:induction false} SilentPartnerStays(c: Config, s: State, ops: seq<Op>, p: string, ttl: int)
    requires Inv(c, s) && LegalRun(c, s, ops) && Silent(ops, p) && InFor(s, p, ttl) && Passes(ops) < ttl
    ensures InFor(Run(c, s, ops), p, ttl - Passes(ops))
    decreases |ops|
  {
    if ops != [] {
      SilentStep(c, s, ops[0], p, ttl);
      SilentPartnerStays(c, After(c, s, ops[0]), ops[1..], p, if ops[0].Pass? then ttl - 1 else ttl);
    }
  }

  // ---- how long a removed partner waits --------------------------------------------------------

  ghost predicate CoolsFor(s: State, p: string, l: List, n: nat) {
    p in SlotOf(s, l).cooldown && SlotOf(s, l).cooldown[p] == n
  }

  /** A ping of a peer that cools down on the list the ping is for is only remembered. */
  lemma PingRefused(c: Config, s: State, p: string, out: int, outFree: int, l: List, n: nat)
    requires Inv(c, s) && CoolsFor(s, p, l, n)
    ensures SlotOf(s, l).members <= s.peers.Keys
    ensures l == In ==> PingIn(c, s, p, out, outFree) == AddPeer(s, p, out, outFree)
    ensures l != In ==> PingOut(c, s, p, out, outFree, l) == AddPeer(s, p, out, outFree)
  {
    InvOfList(c, s, l);
    assert p !in SlotOf(s, l).members;
    assert Refused(c, AddPeer(s, p, out, outFree), p, l);
  }

  ghost predicate SameCooldowns(s: State, t: State) {
    t.ins.cooldown == s.ins.cooldown && t.outs.cooldown == s.outs.cooldown && t.frees.cooldown == s.frees.cooldown
  }

  lemma ConnectLeavesCooldowns(c: Config, s: State, q: string, l: List)
    requires q in s.peers && SlotOf(s, l).members <= s.peers.Keys
    ensures SameCooldowns(s, Connect(c, s, q, l))
  {
    if Accepted(c, s, q, l) {
      var gone := ConnectInserts(c, s, q, l);
    }
  }

  lemma PingLeavesCooldowns(c: Config, s: State, op: Op)
    requires Inv(c, s) && Legal(s, op) && (op.PingFromIn? || op.PingFromOut?)
    ensures SameCooldowns(s, Step(c, s, op))
  {
    var l := if op.PingFromIn? then In else op.l;
    AddPeerKeepsInv(c, s, op.p, op.out, op.outFree);
    InvOfList(c, s, l);
    ConnectLeavesCooldowns(c, AddPeer(s, op.p, op.out, op.outFree), op.p, l);
  }

  lemma OrderLeavesCooldowns(s: State, op: Op)
    requires op.Order?
    ensures SameCooldowns(s, SetStage(SetMergeType(s, op.merge).(qt := op.qt, period := op.period), op.stage))
  {
    SettingsOnly(s, op);
    SetStageLeavesCooldowns(SetMergeType(s, op.merge).(qt := op.qt, period := op.period), op.stage);
  }

  lemma SettingsOnly(s: State, op: Op)
    requires op.Order?
    ensures var t := SetMergeType(s, op.merge).(qt := op.qt, period := op.period);
            t.ins == s.ins && t.outs == s.outs && t.frees == s.frees && t.peers == s.peers
  {
  }

  lemma SetStageLeavesCooldowns(s: State, stage: AuxState)
    ensures SameCooldowns(s, SetStage(s, stage))
  {
  }

  /** A firing lets go only partners, and a cooling peer is none. */
  lemma CoolingFire(c: Config, s: State, drawn: set<string>, p: string, l: List, n: nat)
    requires Inv(c, s) && DrawnForFiring(s, drawn) && CoolsFor(s, p, l, n)
    ensures CoolsFor(Fire(s, drawn), p, l, n)
  {
    InvOfList(c, s, l);
    if s.merge in {LiveAvoid, LivePermit} && drawn != {} {
      assert drawn <= s.outs.members;
      if l == Out { StillCools(s.outs, drawn, p, n); }
    }
  }

  lemma StillCools(slot: Slot, gone: set<string>, p: string, n: nat)
    requires p in slot.cooldown && slot.cooldown[p] == n && p !in gone
    ensures p in DisconnectAll(slot, gone).cooldown && DisconnectAll(slot, gone).cooldown[p] == n
  {
  }

  lemma CoolingPass(c: Config, s: State, p: string, l: List, n: nat)
    requires Inv(c, s) && CoolsFor(s, p, l, n) && n > 1
    ensures Active(s) <= s.peers.Keys && CoolsFor(CheckList(s), p, l, n - 1)
  {
    InvOfList(c, s, l);
    match l
    case In => StillCools(s.ins, FromIn(s), p, n);
    case Out => StillCools(s.outs, FromOut(s), p, n);
    case OutFree => StillCools(s.frees, FromFree(s), p, n);
  }

  lemma CoolingDrop(s: State, q: string, m: List, p: string, l: List, n: nat)
    requires CoolsFor(s, p, l, n) && (q != p || m != l)
    ensures CoolsFor(Disconnect(s, q, m), p, l, n)
  {
  }

  lemma CoolingStep(c: Config, s: State, op: Op, p: string, l: List, n: nat)
    requires Inv(c, s) && Legal(s, op) && op != Drop(p, l) && CoolsFor(s, p, l, n) && (op.Pass? ==> n > 1)
    ensures CoolsFor(Step(c, s, op), p, l, if op.Pass? then n - 1 else n)
  {
    match op
    case PingFromIn(q, out, outFree) => PingLeavesCooldowns(c, s, op);
    case PingFromOut(q, out, outFree, m) => PingLeavesCooldowns(c, s, op);
    case Try(q, m) =>
      InvOfList(c, s, m);
      ConnectLeavesCooldowns(c, s, q, m);
    case Drop(q, m) => CoolingDrop(s, q, m, p, l, n);
    case Pass => CoolingPass(c, s, p, l, n);
    case Order(stage, merge, qt, period) => OrderLeavesCooldowns(s, op);
    case Firing(drawn) => CoolingFire(c, s, drawn, p, l, n);
    case _ =>
  }

  /** With a cooldown of `n`, a list refuses the peer until `n` more passes, even if it keeps pinging. */
  lemma {:induction false} RemovedPartnerWaits(c: Config, s: State, ops: seq<Op>, p: string, l: List, n: nat)
    requires Inv(c, s) && LegalRun(c, s, ops) && Drop(p, l) !in ops && CoolsFor(s, p, l, n) && Passes(ops) < n
    ensures CoolsFor(Run(c, s, ops), p, l, n - Passes(ops))
    ensures p !in SlotOf(Run(c, s, ops), l).members
    ensures p in Run(c, s, ops).peers ==> Refused(c, Run(c, s, ops), p, l)
    decreases |ops|
  {
    if ops == [] {
      InvOfList(c, s, l);
    } else {
      CoolingStep(c, s, ops[0], p, l, n);
      RemovedPartnerWaits(c, After(c, s, ops[0]), ops[1..], p, l, if ops[0].Pass? then n - 1 else n);
    }
  }

  /** The pass that ends the wait. */
  lemma WaitEnds(c: Config, s: State, p: string, l: List)
    requires Inv(c, s) && CoolsFor(s, p, l, 1)
    ensures Active(s) <= s.peers.Keys && p !in SlotOf(CheckList(s), l).cooldown
  {
    InvOfList(c, s, l);
    match l
    case In => StillCools(s.ins, FromIn(s), p, 1);
    case Out => StillCools(s.outs, FromOut(s), p, 1);
    case OutFree => StillCools(s.frees, FromFree(s), p, 1);
  }

  /** A wait of `n` passes as a whole. */
  lemma WaitsOut(c: Config, s: State, later: seq<Op>, p: string, l: List, n: nat)
    requires Inv(c, s) && LegalRun(c, s, later) && Drop(p, l) !in later && CoolsFor(s, p, l, n) && Passes(later) < n
    ensures var t := Run(c, s, later);
            && CoolsFor(t, p, l, n - Passes(later)) && p !in SlotOf(t, l).members
            && (p in t.peers ==> Refused(c, t, p, l))
            && (Passes(later) + 1 == n && Legal(t, Pass) ==> p !in SlotOf(After(c, t, Pass), l).cooldown)
  {
    RemovedPartnerWaits(c, s, later, p, l, n);
    if Passes(later) + 1 == n { WaitEnds(c, Run(c, s, later), p, l); }
  }

  /** The whole life of a partner of the In list that falls silent with a counter of `ttl`: it is a partner after
      `ttl - 1` passes, no partner after the next, refused through three more, and free to return after the fourth. */
  lemma SoftState(c: Config, s: State, ops: seq<Op>, p: string, ttl: nat, later: seq<Op>)
    requires Inv(c, s) && LegalRun(c, s, ops) && Silent(ops, p) && InFor(s, p, ttl) && Passes(ops) + 1 == ttl
    requires Legal(Run(c, s, ops), Pass) && LegalRun(c, After(c, Run(c, s, ops), Pass), later) && Drop(p, In) !in later
    ensures p in Run(c, s, ops).ins.members
    ensures var gone := After(c, Run(c, s, ops), Pass); p !in gone.ins.members && CoolsFor(gone, p, In, 4)
    ensures Passes(later) < 4 ==>
            var t := Run(c, After(c, Run(c, s, ops), Pass), later);
            && CoolsFor(t, p, In, 4 - Passes(later)) && p !in t.ins.members
            && (p in t.peers ==> Refused(c, t, p, In))
            && (Passes(later) == 3 && Legal(t, Pass) ==> p !in After(c, t, Pass).ins.cooldown)
  {
    SilentPartnerStays(c, s, ops, p, ttl);
    DecisionTable(Run(c, s, ops), p);
    if Passes(later) < 4 {
      WaitsOut(c, After(c, Run(c, s, ops), Pass), later, p, In, 4);
    }
  }

  /** A partner the disconnector removes from a list waits for five passes; the fifth ends the wait. */
  lemma DisconnectedWaits(c: Config, s: State, p: string, l: List, later: seq<Op>)
    requires Inv(c, s) && Legal(s, Drop(p, l)) && LegalRun(c, After(c, s, Drop(p, l)), later)
    requires Drop(p, l) !in later && Passes(later) < 5
    ensures var t := Run(c, After(c, s, Drop(p, l)), later);
            && CoolsFor(t, p, l, 5 - Passes(later)) && p !in SlotOf(t, l).members
            && (p in t.peers ==> Refused(c, t, p, l))
            && (Passes(later) == 4 && Legal(t, Pass) ==> p !in SlotOf(After(c, t, Pass), l).cooldown)
  {
    JustDisconnected(s, p, l);
    WaitsOut(c, After(c, s, Drop(p, l)), later, p, l, 5);
  }

  lemma JustDisconnected(s: State, p: string, l: List)
    ensures CoolsFor(Disconnect(s, p, l), p, l, 5)
  {
  }

  // ---- how long a silent partner can stay in any list ------------------------------------------

  /** The counter a list goes by. */
  function Counter(d: Partner, l: List): int {
    if l == In then d.ttlIn else d.ttlOut
  }

  /** Nothing is heard from `p` and nobody tries to connect it. */
  ghost predicate UnheardOp(op: Op, p: string) {
    (op.Try? || op.PingFromIn? || op.PingFromOut?) ==> op.p != p
  }

  ghost predicate Unheard(ops: seq<Op>, p: string) {
    forall i :: 0 <= i < |ops| ==> UnheardOp(ops[i], p)
  }

  /** `p` is in no list where it was not, and its counters are the same. */
  ghost predicate NoGain(s: State, t: State, p: string) {
    && (p in t.ins.members ==> p in s.ins.members)
    && (p in t.outs.members ==> p in s.outs.members)
    && (p in t.frees.members ==> p in s.frees.members)
    && (p in s.peers ==> && p in t.peers && t.peers[p].ttlIn == s.peers[p].ttlIn
                         && t.peers[p].ttlOut == s.peers[p].ttlOut)
  }

  lemma ConnectNoGain(c: Config, s: State, q: string, l: List, p: string)
    requires q in s.peers && q != p && SlotOf(s, l).members <= s.peers.Keys
    ensures NoGain(s, Connect(c, s, q, l), p)
  {
    if Accepted(c, s, q, l) {
      var gone := ConnectInserts(c, s, q, l);
    }
  }

  lemma PingInNoGain(c: Config, s: State, q: string, out: int, outFree: int, p: string)
    requires q != p && s.ins.members <= s.peers.Keys
    ensures NoGain(s, PingIn(c, s, q, out, outFree), p)
  {
    ConnectNoGain(c, AddPeer(s, q, out, outFree), q, In, p);
  }

  lemma PingOutNoGain(c: Config, s: State, q: string, out: int, outFree: int, l: List, p: string)
    requires q != p && SlotOf(s, l).members <= s.peers.Keys
    ensures NoGain(s, PingOut(c, s, q, out, outFree, l), p)
  {
    var known := AddPeer(s, q, out, outFree);
    assert SlotOf(known, l) == SlotOf(s, l);
    ConnectNoGain(c, known, q, l, p);
  }

  lemma SetStageNoGain(s: State, stage: AuxState, p: string)
    ensures NoGain(s, SetStage(s, stage), p)
  {
  }

  lemma StepNoGain(c: Config, s: State, op: Op, p: string)
    requires Inv(c, s) && Legal(s, op) && UnheardOp(op, p) && !op.Pass?
    ensures NoGain(s, Step(c, s, op), p)
  {
    match op
    case Try(q, l) => InvOfList(c, s, l); ConnectNoGain(c, s, q, l, p);
    case PingFromIn(q, out, outFree) => InvOfList(c, s, In); PingInNoGain(c, s, q, out, outFree, p);
    case PingFromOut(q, out, outFree, l) => InvOfList(c, s, l); PingOutNoGain(c, s, q, out, outFree, l, p);
    case Order(stage, merge, qt, period) =>
      SettingsOnly(s, op);
      SetStageNoGain(SetMergeType(s, merge).(qt := qt, period := period), stage, p);
    case Firing(drawn) => FireNoGain(s, drawn, p);
    case _ =>
  }

  lemma FireNoGain(s: State, drawn: set<string>, p: string)
    ensures NoGain(s, Fire(s, drawn), p)
  {
  }

  /** Once `left` is used up `p` is not in the list; before, its counter is at most `left`. */
  ghost predicate Fades(s: State, p: string, l: List, left: int) {
    p in SlotOf(s, l).members ==> p in s.peers && Counter(s.peers[p], l) <= left && 0 < left
  }

  lemma NoGainFades(s: State, t: State, p: string, l: List, left: int)
    requires NoGain(s, t, p) && Fades(s, p, l, left)
    ensures Fades(t, p, l, left)
  {
    match l
    case In =>
    case Out =>
    case OutFree =>
  }

  lemma PassFades(c: Config, s: State, p: string, l: List, left: int)
    requires Inv(c, s) && Fades(s, p, l, left)
    ensures Active(s) <= s.peers.Keys && Fades(CheckList(s), p, l, left - 1)
  {
    InvOfList(c, s, l);
    if p in s.peers { DecisionTable(s, p); }
  }

  lemma StepFades(c: Config, s: State, op: Op, p: string, l: List, left: int)
    requires Inv(c, s) && Legal(s, op) && UnheardOp(op, p) && Fades(s, p, l, left)
    ensures Fades(Step(c, s, op), p, l, if op.Pass? then left - 1 else left)
  {
    if op.Pass? {
      PassFades(c, s, p, l, left);
    } else {
      StepNoGain(c, s, op, p);
      NoGainFades(s, Step(c, s, op), p, l, left);
    }
  }

  lemma {:induction false} RunFades(c: Config, s: State, ops: seq<Op>, p: string, l: List, left: int)
    requires Inv(c, s) && LegalRun(c, s, ops) && Unheard(ops, p) && Fades(s, p, l, left)
    ensures Fades(Run(c, s, ops), p, l, left - Passes(ops))
    decreases |ops|
  {
    if ops != [] {
      StepFades(c, s, ops[0], p, l, left);
      RunFades(c, After(c, s, ops[0]), ops[1..], p, l, if ops[0].Pass? then left - 1 else left);
    }
  }

  /** In whichever list a partner is, once it is not heard from for as many passes as its counter says it has
      left the list, whatever the others do and whatever orders and firings there are. */
  lemma SilentPartnerLeaves(c: Config, s: State, ops: seq<Op>, p: string, l: List)
    requires Inv(c, s) && LegalRun(c, s, ops) && Unheard(ops, p) && p in SlotOf(s, l).members && p in s.peers
    requires 1 <= Passes(ops) && Counter(s.peers[p], l) <= Passes(ops)
    ensures p !in SlotOf(Run(c, s, ops), l).members
  {
    RunFades(c, s, ops, p, l, Passes(ops));
  }

  // ---- the parallel network admits only newcomers --------------------------------------------

  /** During the active stage every peer known at its start is rejected, and none of them is new in a list. */
  ghost predicate Parallel(s: State, entry: set<string>, frees: set<string>) {
    && s.stage == ServerAuxActive
    && entry <= s.rejected
    && s.frees.members * entry <= frees
  }

  ghost predicate StaysActive(op: Op) {
    op.Order? ==> op.stage == ServerAuxActive
  }

  lemma ConnectKeepsParallel(c: Config, s: State, p: string, l: List, entry: set<string>, frees: set<string>)
    requires Parallel(s, entry, frees) && p in s.peers && SlotOf(s, l).members <= s.peers.Keys
    ensures Parallel(Connect(c, s, p, l), entry, frees)
  {
    if Accepted(c, s, p, l) {
      var gone := ConnectInserts(c, s, p, l);
    }
  }

  lemma PingKeepsParallel(c: Config, s: State, op: Op, entry: set<string>, frees: set<string>)
    requires Inv(c, s) && Legal(s, op) && Parallel(s, entry, frees) && (op.PingFromIn? || op.PingFromOut?)
    ensures Parallel(Step(c, s, op), entry, frees)
  {
    var l := if op.PingFromIn? then In else op.l;
    AddPeerKeepsInv(c, s, op.p, op.out, op.outFree);
    InvOfList(c, s, l);
    ConnectKeepsParallel(c, AddPeer(s, op.p, op.out, op.outFree), op.p, l, entry, frees);
  }

  lemma StepKeepsParallel(c: Config, s: State, op: Op, entry: set<string>, frees: set<string>)
    requires Inv(c, s) && Legal(s, op) && Parallel(s, entry, frees) && StaysActive(op)
    ensures Parallel(Step(c, s, op), entry, frees)
  {
    match op
    case Try(p, l) =>
      InvOfList(c, s, l);
      ConnectKeepsParallel(c, s, p, l, entry, frees);
    case PingFromIn(p, out, outFree) => PingKeepsParallel(c, s, op, entry, frees);
    case PingFromOut(p, out, outFree, l) => PingKeepsParallel(c, s, op, entry, frees);
    case Pass => PassOnlyRemoves(c, s);
    case Order(stage, merge, qt, period) => OrderKeepsParallel(s, op, entry, frees);
    case _ =>
  }

  lemma OrderKeepsParallel(s: State, op: Op, entry: set<string>, frees: set<string>)
    requires Parallel(s, entry, frees) && op.Order? && op.stage == ServerAuxActive
    ensures Parallel(SetStage(SetMergeType(s, op.merge).(qt := op.qt, period := op.period), op.stage), entry, frees)
  {
    var t := SetMergeType(s, op.merge).(qt := op.qt, period := op.period);
    assert t.stage == s.stage && t.rejected == s.rejected && t.frees == s.frees;
  }

  lemma {:induction false} RunKeepsParallel(c: Config, s: State, ops: seq<Op>, entry: set<string>, frees: set<string>)
    requires Inv(c, s) && LegalRun(c, s, ops) && Parallel(s, entry, frees)
    requires forall i :: 0 <= i < |ops| ==> StaysActive(ops[i])
    ensures Parallel(Run(c, s, ops), entry, frees)
    decreases |ops|
  {
    if ops != [] {
      StepKeepsParallel(c, s, ops[0], entry, frees);
      RunKeepsParallel(c, After(c, s, ops[0]), ops[1..], entry, frees);
    }
  }

  lemma BecomesParallel(c: Config, s: State, order: Op)
    requires Inv(c, s) && s.stage == NoServerAux && order.Order? && order.stage == ServerAuxActive && Legal(s, order)
    ensures Parallel(After(c, s, order), s.peers.Keys, s.frees.members)
  {
    var t := SetMergeType(s, order.merge).(qt := order.qt, period := order.period);
    assert t.peers == s.peers && t.frees == s.frees && t.stage == s.stage;
  }

  lemma ParallelAdmits(c: Config, t: State, entry: set<string>, frees: set<string>, p: string)
    requires Inv(c, t) && Parallel(t, entry, frees)
    ensures p in t.outs.members ==> p in t.peers && t.peers[p].subId == SERVER_AUX_SUB_CHANNEL_ID && p !in entry
    ensures p in t.frees.members && p in entry ==> p in frees
  {
  }

  /** From the order to become an active server until an order to leave that stage: every output partner
      belongs to the parallel network and was unknown at the start, and no peer known at the start
      enters the list of free riders. */
  lemma ParallelNetworkIsolated(c: Config, s: State, order: Op, ops: seq<Op>, p: string)
    requires Inv(c, s) && s.stage == NoServerAux && order.Order? && order.stage == ServerAuxActive && Legal(s, order)
    requires LegalRun(c, After(c, s, order), ops)
    requires forall i :: 0 <= i < |ops| ==> StaysActive(ops[i])
    ensures var t := Run(c, After(c, s, order), ops);
            && (p in t.outs.members ==> p in t.peers && t.peers[p].subId == SERVER_AUX_SUB_CHANNEL_ID && p !in s.peers)
            && (p in t.frees.members && p in s.peers ==> p in s.frees.members)
  {
    BecomesParallel(c, s, order);
    RunKeepsParallel(c, After(c, s, order), ops, s.peers.Keys, s.frees.members);
    ParallelAdmits(c, Run(c, After(c, s, order), ops), s.peers.Keys, s.frees.members, p);
  }

  /** The parallel network is open to newcomers: an unknown peer that was not there at the start and finds
      room becomes an output partner with its first ping. */
  lemma NewcomerAdmitted(c: Config, s: State, p: string, out: int, outFree: int)
    requires Inv(c, s) && s.stage == ServerAuxActive && p !in s.peers && p !in s.rejected && p !in s.outs.cooldown
    requires |s.outs.members| < c.maxOut
    ensures var t := PingOut(c, s, p, out, outFree, Out);
            && t.outs.members == s.outs.members + {p} && p !in s.outs.members
            && p in t.peers && t.peers[p].subId == SERVER_AUX_SUB_CHANNEL_ID && t.peers[p].ttlOut == c.ttlOut
  {
    var known := AddPeer(s, p, out, outFree);
    assert Accepted(c, known, p, Out);
    assert Connect(c, known, p, Out) == Joins(known, p, Out);
  }
}
