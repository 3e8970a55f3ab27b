/**
 The inform handshake of the bootstrap.  A candidate learns its auxiliary-server state only from a
 reply to one of its own connect messages; the flag `waitInform` says whether it still has to be
 told.  This module follows what every peer was told over whole runs.
 */
module Handshake {
  import opened AuxStates
  import opened Keys
  import opened ChannelModel
  import opened ChannelInvariant

  /** The channel, the last state each peer was ever told, and the peers that were dropped from the
      candidates, by a draw or by expiry, while the last thing they were told was a server state. */
  datatype History = History(s: State, told: map<string, AuxState>, dropped: set<string>)

  ghost function Start(c: Config, server: Peer): History {
    History(Initial(c, server), map[], {})
  }

  /** The last state `p` was told; whoever was told nothing is no server. */
  function LastTold(h: History, p: string): AuxState {
    if p in h.told then h.told[p] else NoServerAux
  }

  /** Nothing is ever erased from what was told; a peer that is told again is no longer dropped. */
  ghost function StepTold(c: Config, h: History, op: Op): History
    requires Inv(c, h.s) && Legal(c, h.s, op)
  {
    var s := Step(c, h.s, op);
    if op.Connect? && WaitsInform(Joined(c, h.s, op.p, op.peer, op.candidate), op.p) then
      History(s, h.told[op.p := Joined(c, h.s, op.p, op.peer, op.candidate).cands[op.p].state], h.dropped - {op.p})
    else
      History(s, h.told, h.dropped + set p | p in h.s.cands && p !in s.cands && LastTold(h, p) != NoServerAux)
  }

  /** What is known of `k`: a candidate that waits for nothing has the state it was last told, unless it was
      dropped; then it is back without a role, although the last it was told is one. */
  ghost predicate Tracks(h: History, k: string) {
    && (k in h.dropped ==> LastTold(h, k) != NoServerAux)
    && (k in h.s.cands && !h.s.cands[k].waitInform ==>
          h.s.cands[k].state == if k in h.dropped then NoServerAux else LastTold(h, k))
    && (k !in h.s.cands && k !in h.dropped ==> LastTold(h, k) == NoServerAux)
  }

  // ---- every operation keeps it --------------------------------------------------------

  /** Candidates of `t` are candidates of `s`, unchanged or told to wait. */
  ghost predicate OnlyAlerts(s: State, t: State) {
    forall k :: k in t.cands ==> k in s.cands && (t.cands[k] == s.cands[k] || t.cands[k].waitInform)
  }

  lemma SetModeOnlyAlerts(c: Config, s: State, mode: Mode, oneByOne: bool, selected: set<string>)
    requires selected <= s.cands.Keys
    ensures OnlyAlerts(s, SetMode(c, s, mode, oneByOne, selected))
  {
  }

  lemma {:induction false} RemoveAllOnlyAlerts(c: Config, s: State, ps: seq<string>)
    ensures OnlyAlerts(s, RemoveAll(c, s, ps))
  {
    if ps != [] {
      RemoveAllOnlyAlerts(c, s, ps[..|ps| - 1]);
    }
  }

  lemma StepOnlyAlerts(c: Config, s: State, op: Op)
    requires Inv(c, s) && Legal(c, s, op) && !op.Connect?
    ensures OnlyAlerts(s, Step(c, s, op))
  {
    match op
    case ChangeMode(mode, oneByOne, selected) => SetModeOnlyAlerts(c, s, mode, oneByOne, selected);
    case Check => RemoveAllOnlyAlerts(c, DecrementAll(s), SortedKeys(Expired(s)));
    case Ping(p) =>
  }

  /** Joining makes at most `p` a candidate, one without a role that waits for nothing. */
  lemma JoinedCandidates(c: Config, s: State, p: string, peer: Peer, candidate: bool)
    requires Inv(c, s)
    ensures var t := Joined(c, s, p, peer, candidate);
            t.cands == s.cands || (p !in s.cands && t.cands == s.cands[p := Candidate(NoServerAux, false)])
  {
    var t := if p in s.peers then s else AddPeer(c, s, p, peer);
    assert t.cands == s.cands;
  }

  lemma ConnectKeepsTracks(c: Config, h: History, op: Op, k: string)
    requires Inv(c, h.s) && op.Connect? && Tracks(h, k)
    ensures Tracks(StepTold(c, h, op), k)
  {
    var t := Joined(c, h.s, op.p, op.peer, op.candidate);
    JoinedCandidates(c, h.s, op.p, op.peer, op.candidate);
    assert Tracks(h.(s := t), k);
    var u := Answered(t, op.p);
    assert u.cands == if WaitsInform(t, op.p) then t.cands[op.p := t.cands[op.p].(waitInform := false)] else t.cands;
    assert StepTold(c, h, op).s == u;
  }

  lemma StepKeepsTracks(c: Config, h: History, op: Op, k: string)
    requires Inv(c, h.s) && Legal(c, h.s, op) && Tracks(h, k)
    ensures Tracks(StepTold(c, h, op), k)
  {
    if op.Connect? {
      ConnectKeepsTracks(c, h, op, k);
    } else {
      StepOnlyAlerts(c, h.s, op);
    }
  }

  // ---- whole runs ------------------------------------------------------------------------

  ghost function RunTold(c: Config, h: History, ops: seq<Op>): (r: History)
    requires Inv(c, h.s) && LegalRun(c, h.s, ops)
    ensures Inv(c, r.s)
    decreases |ops|
  {
    if ops == [] then h
    else
      StepKeepsInv(c, h.s, ops[0]);
      RunTold(c, StepTold(c, h, ops[0]), ops[1..])
  }

  /** The history only watches: the channel takes the same run. */
  lemma {:induction false} RunToldRuns(c: Config, h: History, ops: seq<Op>)
    requires Inv(c, h.s) && LegalRun(c, h.s, ops)
    ensures RunTold(c, h, ops).s == Run(c, h.s, ops)
    decreases |ops|
  {
    if ops != [] {
      StepKeepsInv(c, h.s, ops[0]);
      RunToldRuns(c, StepTold(c, h, ops[0]), ops[1..]);
    }
  }

  lemma {:induction false} RunKeepsTracks(c: Config, h: History, ops: seq<Op>, k: string)
    requires Inv(c, h.s) && LegalRun(c, h.s, ops) && Tracks(h, k)
    ensures Tracks(RunTold(c, h, ops), k)
    decreases |ops|
  {
    if ops != [] {
      StepKeepsInv(c, h.s, ops[0]);
      StepKeepsTracks(c, h, ops[0], k);
      RunKeepsTracks(c, StepTold(c, h, ops[0]), ops[1..], k);
    }
  }

  /** `h` is what `ops` make of a new channel. */
  ghost predicate Reaches(c: Config, server: Peer, ops: seq<Op>, h: History) {
    InitialInv(c, server);
    LegalRun(c, Initial(c, server), ops) && RunTold(c, Start(c, server), ops) == h
  }

  /** On every run from the creation of the channel, a candidate that waits for nothing has the state it was
      last told if and only if it was not dropped from the candidates after it was told a server state. */
  lemma CandidatesKnowTheirState(c: Config, server: Peer, ops: seq<Op>, h: History, k: string)
    requires Reaches(c, server, ops, h) && k in h.s.cands && !h.s.cands[k].waitInform
    ensures h.s.cands[k].state == if k in h.dropped then NoServerAux else LastTold(h, k)
    ensures h.s.cands[k].state == LastTold(h, k) <==> k !in h.dropped
  {
    InitialInv(c, server);
    RunKeepsTracks(c, Start(c, server), ops, k);
  }

  // ---- the run on which a former server is not told -------------------------------------------

  lemma RunToldFirst(c: Config, h: History, op: Op, rest: seq<Op>, t: History)
    requires Inv(c, h.s) && Legal(c, h.s, op) && t == StepTold(c, h, op) && Inv(c, t.s)
    ensures LegalRun(c, h.s, [op] + rest) <==> LegalRun(c, t.s, rest)
    ensures LegalRun(c, t.s, rest) ==> RunTold(c, h, [op] + rest) == RunTold(c, t, rest)
  {
    var ops := [op] + rest;
    assert ops[0] == op && ops[1..] == rest;
    assert t.s == After(c, h.s, op);
  }

  lemma {:induction false} RunToldAppend(c: Config, h: History, ops: seq<Op>, op: Op)
    requires Inv(c, h.s) && LegalRun(c, h.s, ops) && Legal(c, RunTold(c, h, ops).s, op)
    ensures LegalRun(c, h.s, ops + [op]) && RunTold(c, h, ops + [op]) == StepTold(c, RunTold(c, h, ops), op)
    decreases |ops|
  {
    if ops == [] {
      assert ops + [op] == [op];
      RunToldOne(c, h, [op]);
    } else {
      var first, rest := ops[0], ops[1..];
      var t := StepTold(c, h, first);
      StepKeepsInv(c, h.s, first);
      assert ops == [first] + rest && ops + [op] == [first] + (rest + [op]);
      RunToldFirst(c, h, first, rest, t);
      RunToldAppend(c, t, rest, op);
      RunToldFirst(c, h, first, rest + [op], t);
    }
  }

  lemma RunToldOne(c: Config, h: History, ops: seq<Op>)
    requires Inv(c, h.s) && |ops| == 1 && Legal(c, h.s, ops[0])
    ensures LegalRun(c, h.s, ops) && RunTold(c, h, ops) == StepTold(c, h, ops[0])
  {
    StepKeepsInv(c, h.s, ops[0]);
    assert ops[1..] == [];
  }

  lemma ReachesMore(c: Config, server: Peer, ops: seq<Op>, h: History, op: Op)
    requires Reaches(c, server, ops, h)
    ensures Inv(c, h.s)
    ensures Legal(c, h.s, op) ==> Reaches(c, server, ops + [op], StepTold(c, h, op)) && Inv(c, StepTold(c, h, op).s)
  {
    InitialInv(c, server);
    if Legal(c, h.s, op) {
      RunToldAppend(c, Start(c, server), ops, op);
      StepKeepsInv(c, h.s, op);
    }
  }

  /** A new candidate in normal mode. */
  lemma BecomesCandidate(c: Config, h: History, p: string, peer: Peer)
    requires Inv(c, h.s) && h.s.mode == Normal && p !in h.s.cands && p != c.server
    requires |h.s.cands| < c.maxServerAuxCandidate
    ensures var r := StepTold(c, h, Connect(p, peer, true));
            && r.s.mode == Normal && r.s.cands == h.s.cands[p := Candidate(NoServerAux, false)]
            && r.told == h.told && r.dropped == h.dropped
  {
    var t := if p in h.s.peers then h.s else AddPeer(c, h.s, p, peer);
    assert t.cands == h.s.cands && t.mode == Normal && p in t.peers;
    var joined := Joined(c, h.s, p, peer, true);
    assert joined.cands == h.s.cands[p := Candidate(NoServerAux, false)] && !WaitsInform(joined, p);
  }

  /** The reply to a candidate that waits. */
  lemma IsTold(c: Config, h: History, p: string, peer: Peer)
    requires Inv(c, h.s) && WaitsInform(h.s, p)
    ensures var r := StepTold(c, h, Connect(p, peer, false));
            && r.s.mode == h.s.mode && r.s.cands == h.s.cands[p := h.s.cands[p].(waitInform := false)]
            && r.told == h.told[p := h.s.cands[p].state] && r.dropped == h.dropped - {p}
  {
    assert Joined(c, h.s, p, peer, false) == h.s;
  }

  lemma OneIsADraw(c: Config, s: State, q: string)
    requires q in s.cands && c.maxSubChannel * c.sizeCluster == 1
    ensures Drawn(c, s, {q})
  {
    if |s.cands| <= 1 { OnlyMember(s.cands.Keys, q); }
  }

  /** A flash crowd with one server drops all other candidates. */
  lemma OneServerDrawn(c: Config, h: History, q: string)
    requires Inv(c, h.s) && h.s.mode == Normal && q in h.s.cands && c.maxSubChannel * c.sizeCluster == 1
    ensures Legal(c, h.s, ChangeMode(FlashCrowd, false, {q}))
    ensures var r := StepTold(c, h, ChangeMode(FlashCrowd, false, {q}));
            && r.s.mode == FlashCrowd && r.s.cands == map[q := Candidate(ServerAuxActive, true)]
            && r.told == h.told
            && forall k :: k in h.s.cands && k != q && LastTold(h, k) != NoServerAux ==> k in r.dropped
  {
    OneIsADraw(c, h.s, q);
    var r := StepTold(c, h, ChangeMode(FlashCrowd, false, {q}));
    assert r.s == SetFlashCrowd(c, h.s, {q});
    assert r.s.cands.Keys == {q};
  }

  lemma OnlyMember(s: set<string>, q: string)
    requires q in s && |s| <= 1
    ensures s == {q}
  {
    SubsetCard(s - {q}, s);
    assert |s - {q}| == 0;
  }

  lemma CrowdIsOver(c: Config, h: History, q: string, waiting: bool)
    requires Inv(c, h.s) && h.s.mode == FlashCrowd && h.s.cands == map[q := Candidate(ServerAuxActive, waiting)]
    ensures Legal(c, h.s, ChangeMode(Normal, false, {}))
    ensures var r := StepTold(c, h, ChangeMode(Normal, false, {}));
            && r.s.mode == Normal && r.s.cands == map[q := Candidate(NoServerAux, true)]
            && r.told == h.told && r.dropped == h.dropped
  {
    var r := StepTold(c, h, ChangeMode(Normal, false, {}));
    assert r.s.cands.Keys == {q};
  }

  /** Why the exception is needed: `p` serves a flash crowd; when it is over, `p` waits to be told, but the next
      flash crowd draws only `q` and drops `p` from the candidates.  When `p` becomes a candidate again it waits
      for nothing, and the last it was told is that it is an active server. */
  lemma FormerServerIsNotTold(c: Config, server: Peer, p: string, q: string, peer: Peer)
    returns (ops: seq<Op>, h: History)
    requires c.maxSubChannel * c.sizeCluster == 1 && c.maxServerAuxCandidate >= 2
    requires p != q && p != c.server && q != c.server
    ensures Reaches(c, server, ops, h) && p in h.dropped
    ensures p in h.s.cands && h.s.cands[p] == Candidate(NoServerAux, false) && LastTold(h, p) == ServerAuxActive
  {
    ops, h := ServedOnce(c, server, p, peer);
    ops, h := SecondCrowd(c, server, ops, h, p, q, peer);
    var again := Connect(p, peer, true);
    ReachesMore(c, server, ops, h, again);
    BecomesCandidate(c, h, p, peer);
    ops, h := ops + [again], StepTold(c, h, again);
  }

  /** One flash crowd in which `p` is the only server, and is told so. */
  lemma ServedOnce(c: Config, server: Peer, p: string, peer: Peer) returns (ops: seq<Op>, h: History)
    requires c.maxSubChannel * c.sizeCluster == 1 && c.maxServerAuxCandidate >= 2 && p != c.server
    ensures Reaches(c, server, ops, h) && h.s.mode == Normal && h.told == map[p := ServerAuxActive]
    ensures h.s.cands == map[p := Candidate(NoServerAux, true)]
  {
    ops, h := FirstCrowd(c, server, p, peer);
    var told, over := Connect(p, peer, false), ChangeMode(Normal, false, {});
    IsTold(c, h, p, peer);
    ReachesMore(c, server, ops, h, told);
    ops, h := ops + [told], StepTold(c, h, told);
    CrowdIsOver(c, h, p, false);
    ReachesMore(c, server, ops, h, over);
    ops, h := ops + [over], StepTold(c, h, over);
  }

  lemma FirstCrowd(c: Config, server: Peer, p: string, peer: Peer) returns (ops: seq<Op>, h: History)
    requires c.maxSubChannel * c.sizeCluster == 1 && c.maxServerAuxCandidate >= 2 && p != c.server
    ensures Reaches(c, server, ops, h) && h.s.mode == FlashCrowd && h.told == map[]
    ensures h.s.cands == map[p := Candidate(ServerAuxActive, true)]
  {
    var join, crowd := Connect(p, peer, true), ChangeMode(FlashCrowd, false, {p});
    ops, h := [], Start(c, server);
    InitialInv(c, server);
    BecomesCandidate(c, h, p, peer);
    ReachesMore(c, server, ops, h, join);
    ops, h := ops + [join], StepTold(c, h, join);
    OneServerDrawn(c, h, p);
    ReachesMore(c, server, ops, h, crowd);
    ops, h := ops + [crowd], StepTold(c, h, crowd);
  }

  lemma SecondCrowd(c: Config, server: Peer, ops: seq<Op>, h: History, p: string, q: string, peer: Peer)
    returns (ops': seq<Op>, h': History)
    requires c.maxSubChannel * c.sizeCluster == 1 && c.maxServerAuxCandidate >= 2 && p != q && q != c.server
    requires Reaches(c, server, ops, h) && h.s.mode == Normal && h.told == map[p := ServerAuxActive]
    requires h.s.cands == map[p := Candidate(NoServerAux, true)]
    ensures Reaches(c, server, ops', h') && h'.s.mode == Normal && h'.told == h.told && p in h'.dropped
    ensures h'.s.cands == map[q := Candidate(NoServerAux, true)]
  {
    ops', h' := ops, h;
    ReachesMore(c, server, ops', h', Connect(q, peer, true));
    BecomesCandidate(c, h', q, peer);
    ops', h' := ops' + [Connect(q, peer, true)], StepTold(c, h', Connect(q, peer, true));
    OneServerDrawn(c, h', q);
    ReachesMore(c, server, ops', h', ChangeMode(FlashCrowd, false, {q}));
    ops', h' := ops' + [ChangeMode(FlashCrowd, false, {q})], StepTold(c, h', ChangeMode(FlashCrowd, false, {q}));
    CrowdIsOver(c, h', q, true);
    ReachesMore(c, server, ops', h', ChangeMode(Normal, false, {}));
    ops', h' := ops' + [ChangeMode(Normal, false, {})], StepTold(c, h', ChangeMode(Normal, false, {}));
  }

  // ---- mode changes collapse into one delivery -------------------------------------------

  ghost predicate Silent(ops: seq<Op>, p: string) {
    forall i :: 0 <= i < |ops| && ops[i].Connect? ==> ops[i].p != p
  }

  /** A reply to somebody else tells `p` nothing and does not make it a candidate. */
  lemma OtherReply(c: Config, h: History, op: Op, p: string)
    requires Inv(c, h.s) && op.Connect? && op.p != p
    ensures var r := StepTold(c, h, op);
            && (p in r.s.cands <==> p in h.s.cands) && LastTold(r, p) == LastTold(h, p)
            && (p in r.dropped <==> p in h.dropped)
  {
    var joined := Joined(c, h.s, op.p, op.peer, op.candidate);
    JoinedCandidates(c, h.s, op.p, op.peer, op.candidate);
    assert Answered(joined, op.p).cands.Keys == joined.cands.Keys;
    assert StepTold(c, h, op).s == Answered(joined, op.p);
  }

  lemma SilentStep(c: Config, h: History, op: Op, p: string)
    requires Inv(c, h.s) && Legal(c, h.s, op) && (op.Connect? ==> op.p != p)
    ensures var r := StepTold(c, h, op);
            && LastTold(r, p) == LastTold(h, p)
            && (p in r.s.cands ==> p in h.s.cands && (p in r.dropped <==> p in h.dropped))
  {
    if op.Connect? {
      OtherReply(c, h, op, p);
    } else {
      StepOnlyAlerts(c, h.s, op);
    }
  }

  /** While `p` sends no connect message it is told nothing and cannot become a candidate. */
  lemma {:induction false} SilentRun(c: Config, h: History, ops: seq<Op>, p: string)
    requires Inv(c, h.s) && LegalRun(c, h.s, ops) && Silent(ops, p)
    ensures LastTold(RunTold(c, h, ops), p) == LastTold(h, p)
    ensures p in RunTold(c, h, ops).s.cands ==>
              p in h.s.cands && (p in RunTold(c, h, ops).dropped <==> p in h.dropped)
    decreases |ops|
  {
    if ops != [] {
      StepKeepsInv(c, h.s, ops[0]);
      SilentStep(c, h, ops[0], p);
      SilentRun(c, StepTold(c, h, ops[0]), ops[1..], p);
    }
  }

  lemma ConnectTells(c: Config, h: History, p: string, peer: Peer, candidate: bool)
    requires Inv(c, h.s) && Tracks(h, p) && p in h.s.cands
    ensures var after := StepTold(c, h, Connect(p, peer, candidate));
            && p in after.s.cands && !WaitsInform(after.s, p) && after.s.cands[p].state == h.s.cands[p].state
            && (LastTold(after, p) == after.s.cands[p].state <==> WaitsInform(h.s, p) || p !in h.dropped)
  {
    assert Joined(c, h.s, p, peer, candidate) == h.s;
  }

  /** However the mode changed since `p` was last told something, its next connect message delivers the latest
      state, in one reply that leaves nothing to deliver; only a peer that was dropped, and has been given no
      role since, keeps what it was told before. */
  lemma ChangesCollapse(c: Config, h: History, ops: seq<Op>, p: string, peer: Peer, candidate: bool)
    requires Inv(c, h.s) && Tracks(h, p) && LegalRun(c, h.s, ops) && Silent(ops, p)
    requires p in RunTold(c, h, ops).s.cands
    ensures var before := RunTold(c, h, ops);
            var after := StepTold(c, before, Connect(p, peer, candidate));
            && (before.s.cands[p].state != LastTold(h, p) && p !in h.dropped ==> WaitsInform(before.s, p))
            && p in after.s.cands && !WaitsInform(after.s, p) && after.s.cands[p].state == before.s.cands[p].state
            && (LastTold(after, p) == after.s.cands[p].state <==> WaitsInform(before.s, p) || p !in h.dropped)
  {
    var before := RunTold(c, h, ops);
    RunKeepsTracks(c, h, ops, p);
    SilentRun(c, h, ops, p);
    ConnectTells(c, before, p, peer, candidate);
  }

  // ---- the list of servers reaches everybody who was there ----------------------------------

  lemma ListWaitsThroughRemovals(c: Config, s: State, ps: seq<string>, p: string)
    requires WaitsList(s, p) && p in RemoveAll(c, s, ps).peers
    ensures WaitsList(RemoveAll(c, s, ps), p)
  {
    if ps != [] {
      ListWaitsThroughRemovals(c, s, ps[..|ps| - 1], p);
    }
  }

  lemma OtherConnects(c: Config, s: State, op: Op, p: string)
    requires Inv(c, s) && op.Connect? && op.p != p && WaitsList(s, p)
    ensures WaitsList(Step(c, s, op), p)
  {
    var added := if op.p in s.peers then s else AddPeer(c, s, op.p, op.peer);
    assert added.peers[p] == s.peers[p];
  }

  lemma ListWaitsStep(c: Config, s: State, op: Op, p: string)
    requires Inv(c, s) && Legal(c, s, op) && (op.Connect? ==> op.p != p)
    requires WaitsList(s, p) && p in Step(c, s, op).peers
    ensures WaitsList(Step(c, s, op), p)
  {
    match op
    case Connect(q, peer, candidate) => OtherConnects(c, s, op, p);
    case ChangeMode(mode, oneByOne, selected) =>
    case Check => ListWaitsThroughRemovals(c, DecrementAll(s), SortedKeys(Expired(s)), p);
    case Ping(q) =>
  }

  /** A peer never comes back without connecting. */
  lemma {:induction false} KnownThroughout(c: Config, s: State, ops: seq<Op>, p: string)
    requires Inv(c, s) && LegalRun(c, s, ops) && Silent(ops, p) && p in Run(c, s, ops).peers
    ensures p in s.peers
    decreases |ops|
  {
    if ops != [] {
      StepKeepsInv(c, s, ops[0]);
      KnownThroughout(c, Step(c, s, ops[0]), ops[1..], p);
      KnownBefore(c, s, ops[0], p);
    }
  }

  lemma AddPeerKnown(c: Config, s: State, q: string, peer: Peer, p: string)
    requires Inv(c, s) && p in AddPeer(c, s, q, peer).peers
    ensures p in s.peers || p == q
  {
  }

  lemma AnsweredKnown(s: State, q: string, p: string)
    requires p in Answered(s, q).peers
    ensures p in s.peers
  {
  }

  lemma ConnectKnown(c: Config, s: State, op: Op, p: string)
    requires Inv(c, s) && op.Connect? && p in Step(c, s, op).peers
    ensures p in s.peers || p == op.p
  {
    var added := if op.p in s.peers then s else AddPeer(c, s, op.p, op.peer);
    var joined := Joined(c, s, op.p, op.peer, op.candidate);
    assert joined.peers == added.peers;
    AnsweredKnown(joined, op.p, p);
    if op.p !in s.peers { AddPeerKnown(c, s, op.p, op.peer, p); }
  }

  lemma SetModeKeys(c: Config, s: State, mode: Mode, oneByOne: bool, selected: set<string>)
    requires selected <= s.cands.Keys
    ensures SetMode(c, s, mode, oneByOne, selected).peers.Keys == s.peers.Keys
  {
  }

  lemma KnownBefore(c: Config, s: State, op: Op, p: string)
    requires Inv(c, s) && Legal(c, s, op) && (op.Connect? ==> op.p != p) && p in Step(c, s, op).peers
    ensures p in s.peers
  {
    match op
    case Connect(q, peer, candidate) => ConnectKnown(c, s, op, p);
    case ChangeMode(mode, oneByOne, selected) => SetModeKeys(c, s, mode, oneByOne, selected);
    case Check => RemovedKeys(c, DecrementAll(s), SortedKeys(Expired(s)));
    case Ping(q) =>
  }

  lemma {:induction false} RemovedKeys(c: Config, s: State, ps: seq<string>)
    ensures RemoveAll(c, s, ps).peers.Keys <= s.peers.Keys
  {
    if ps != [] {
      RemovedKeys(c, s, ps[..|ps| - 1]);
      var t := RemoveAll(c, s, ps[..|ps| - 1]);
      assert Remove(c, t, ps[|ps| - 1]).peers.Keys <= t.peers.Keys;
    }
  }

  lemma {:induction false} ListWaitsRun(c: Config, s: State, ops: seq<Op>, p: string)
    requires Inv(c, s) && LegalRun(c, s, ops) && Silent(ops, p) && WaitsList(s, p) && p in Run(c, s, ops).peers
    ensures WaitsList(Run(c, s, ops), p)
    decreases |ops|
  {
    if ops != [] {
      var t := Step(c, s, ops[0]);
      StepKeepsInv(c, s, ops[0]);
      KnownThroughout(c, t, ops[1..], p);
      ListWaitsStep(c, s, ops[0], p);
      ListWaitsRun(c, t, ops[1..], p);
    }
  }

  /** A peer of the main network that was there when a flash crowd began, and was not chosen as a server, waits for
      the list of servers, and for nothing else, until its next connect message, however long that takes. */
  lemma ServerListWaits(c: Config, s: State, crowd: Op, ops: seq<Op>, p: string)
    requires Inv(c, s) && s.mode == Normal && crowd.ChangeMode? && crowd.mode == FlashCrowd && Legal(c, s, crowd)
    requires p in s.peers && p !in crowd.selected
    requires LegalRun(c, After(c, s, crowd), ops) && Silent(ops, p) && p in Run(c, After(c, s, crowd), ops).peers
    ensures var t := Run(c, After(c, s, crowd), ops); WaitsList(t, p) && p !in t.cands
  {
    var after := After(c, s, crowd);
    ListWaitsRun(c, after, ops, p);
    SetFlashCrowdPlaces(c, s, crowd.selected);
    var h := History(after, map[], {});
    SilentRun(c, h, ops, p);
    RunToldRuns(c, h, ops);
  }
}
