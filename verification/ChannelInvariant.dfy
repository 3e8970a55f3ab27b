/**
 What every run of the channel keeps, and what follows for the neighbour query: the main network,
 the sub-channels and the merging peers stay isolated from each other as intended.
 */
module ChannelInvariant {
  import opened AuxStates
  import opened Keys
  import opened ChannelModel

  // ---- the invariant -----------------------------------------------------------------

  /** Servers are candidates, candidates are peers, and every peer is in exactly one network. */
  ghost predicate Placed(c: Config, s: State) {
    && s.subs.Keys <= s.cands.Keys <= s.peers.Keys
    && (forall k :: k in s.subs ==> s.subs[k] > c.channelId && s.peers[k].subId == c.channelId)
    && (forall p :: p in s.peers ==> s.peers[p].subId == c.channelId || Live(s, s.peers[p].subId)
                                     || (s.peers[p].subId == -1 && s.mode == Merging))
  }

  ghost predicate NormalState(c: Config, s: State) {
    && s.subs == map[]
    && (forall k :: k in s.cands ==> s.cands[k].state == NoServerAux)
  }

  ghost predicate Bounded(c: Config, s: State) {
    && |s.cands| <= c.maxServerAuxCandidate
    && |s.subs| <= c.maxSubChannel * c.sizeCluster
    && (s.mode == FlashCrowd ==> forall k :: k in s.subs ==> Load(s.peers, s.subs[k]) <= c.maxPeerInSubChannel)
  }

  ghost predicate Inv(c: Config, s: State) {
    && Placed(c, s)
    && Bounded(c, s)
    && s.mode != Unknown
    && c.server !in s.cands
    && (s.mode == Normal ==> NormalState(c, s))
    && (s.mode == FlashCrowd ==> CursorValid(s))
  }

  /** In normal mode everybody is in the main network. */
  lemma NormalIsMain(c: Config, s: State)
    requires Inv(c, s) && s.mode == Normal
    ensures forall p :: p in s.peers ==> s.peers[p].subId == c.channelId
  {
  }

  lemma InitialInv(c: Config, server: Peer)
    ensures Inv(c, Initial(c, server))
  {
  }

  // ---- loads -------------------------------------------------------------------------

  lemma LoadShrinks(peers: map<string, PeerData>, peers': map<string, PeerData>, id: int)
    requires Members(peers', id) <= Members(peers, id)
    ensures Load(peers', id) <= Load(peers, id)
  {
    SubsetCard(Members(peers', id), Members(peers, id));
  }

  /** A peer that was not there adds one to the load of its own sub-channel and to no other. */
  lemma LoadAfterArrival(peers: map<string, PeerData>, p: string, d: PeerData, id: int)
    requires p !in peers
    ensures Load(peers[p := d], id) == Load(peers, id) + if d.subId == id then 1 else 0
  {
    assert Members(peers[p := d], id) == Members(peers, id) + if d.subId == id then {p} else {};
  }

  // ---- each operation keeps it -------------------------------------------------------

  lemma AddMasterKeepsInv(c: Config, s: State, p: string, peer: Peer)
    requires Inv(c, s) && p !in s.peers
    ensures Inv(c, AddMaster(c, s, p, peer))
  {
    forall k | k in s.subs ensures Load(AddMaster(c, s, p, peer).peers, s.subs[k]) == Load(s.peers, s.subs[k]) {
      LoadAfterArrival(s.peers, p, InMain(c, peer), s.subs[k]);
    }
    LiveFrame(c, s, AddMaster(c, s, p, peer));
  }

  lemma LiveFrame(c: Config, s: State, t: State)
    requires s.subs == t.subs
    ensures forall id :: Live(s, id) ==> Live(t, id)
  {
  }

  lemma NextClusterIsServer(subs: map<string, nat>, k: string)
    requires k in subs
    ensures NextCluster(subs, k) in subs
  {
  }

  lemma InsertKeepsInv(c: Config, s: State, p: string, peer: Peer, k: string)
    requires Inv(c, s) && s.mode == FlashCrowd && p !in s.peers && k in WithRoom(c, s)
    ensures Inv(c, Insert(s, p, peer, k))
  {
    var t := Insert(s, p, peer, k);
    NextClusterIsServer(s.subs, k);
    forall q | q in s.subs ensures Load(t.peers, s.subs[q]) <= c.maxPeerInSubChannel {
      LoadAfterArrival(s.peers, p, t.peers[p], s.subs[q]);
    }
    LiveFrame(c, s, t);
    assert Live(t, s.subs[k]);
  }

  lemma AddPeerKeepsInv(c: Config, s: State, p: string, peer: Peer)
    requires Inv(c, s) && p !in s.peers
    ensures Inv(c, AddPeer(c, s, p, peer))
  {
    if s.mode != FlashCrowd || s.subs == map[] {
      AddMasterKeepsInv(c, s, p, peer);
    } else {
      var k := Current(s);
      if k in WithRoom(c, s) {
        InsertKeepsInv(c, s, p, peer, k);
      } else if WithRoom(c, s) == {} {
        AddMasterKeepsInv(c, s.(cursor := Some(k)), p, peer);
      } else {
        InsertKeepsInv(c, s, p, peer, Least(WithRoom(c, s)));
      }
    }
  }

  lemma AnalyzeKeepsInv(c: Config, s: State, p: string)
    requires Inv(c, s)
    ensures Inv(c, Analyze(c, s, p))
  {
    LiveFrame(c, s, Analyze(c, s, p));
  }

  lemma SetNormalKeepsInv(c: Config, s: State)
    requires Inv(c, s)
    ensures Inv(c, SetNormal(c, s))
  {
    assert SetNormal(c, s).cands.Keys == s.cands.Keys;
    assert |SetNormal(c, s).cands| == |s.cands|;
  }

  lemma SetMergingKeepsInv(c: Config, s: State, oneByOne: bool)
    requires Inv(c, s) && s.mode != Normal
    ensures Inv(c, SetMerging(s, oneByOne))
  {
    var t := SetMerging(s, oneByOne);
    assert t.cands.Keys == s.cands.Keys && t.peers.Keys == s.peers.Keys;
    assert |t.cands| == |s.cands|;
    LiveFrame(c, s, t);
    forall k | k in t.subs ensures t.peers[k].subId == c.channelId { assert s.peers[k].subId == c.channelId; }
    forall p | p in t.peers
      ensures t.peers[p].subId == c.channelId || Live(t, t.peers[p].subId) || t.peers[p].subId == -1
    {
      assert p in s.peers;
    }
  }

  lemma {:induction false} ServedAbove(base: nat, clusters: seq<seq<string>>)
    ensures forall k :: k in Served(base, clusters) ==> base < Served(base, clusters)[k] <= base + |clusters|
    ensures forall k :: k in Served(base, clusters) ==> exists q :: 0 <= q < |clusters| && k in clusters[q]
  {
    if clusters != [] {
      var n := |clusters| - 1;
      ServedAbove(base, clusters[..n]);
      forall k | k in Served(base, clusters) ensures exists q :: 0 <= q < |clusters| && k in clusters[q] {
        if k in clusters[n] {
        } else {
          assert k in Served(base, clusters[..n]);
          var q :| 0 <= q < |clusters[..n]| && k in clusters[..n][q];
          assert k in clusters[q];
        }
      }
    }
  }

  lemma {:induction false} ClustersAreKeys(ks: seq<string>, size: nat)
    ensures forall q, k :: 0 <= q < |Clusters(ks, size)| && k in Clusters(ks, size)[q] ==> k in ks
    decreases |ks|
  {
    if size > 0 && |ks| >= size {
      ClustersAreKeys(ks[size..], size);
      assert forall k :: k in ks[..size] || k in ks[size..] ==> k in ks;
    }
  }

  lemma ServersAreCandidates(c: Config, s: State)
    ensures CreateAll(c, s).subs.Keys <= s.cands.Keys
    ensures forall k :: k in CreateAll(c, s).subs ==> CreateAll(c, s).subs[k] > c.channelId
  {
    var ks := SortedKeys(s.cands.Keys);
    ServedAbove(c.channelId, Clusters(ks, c.sizeCluster));
    ClustersAreKeys(ks, c.sizeCluster);
    forall k | k in CreateAll(c, s).subs ensures k in s.cands {
      assert k in ks;
      assert k in ToSet(ks);
    }
  }

  lemma SetFlashCrowdPlaces(c: Config, s: State, selected: set<string>)
    requires Inv(c, s) && s.mode == Normal && Drawn(c, s, selected)
    ensures var t := SetFlashCrowd(c, s, selected);
            && t.cands.Keys == selected && t.peers.Keys == s.peers.Keys
            && t.subs.Keys <= selected
            && (forall k :: k in t.subs ==> t.subs[k] > c.channelId)
            && (forall p :: p in t.peers ==> t.peers[p].subId == c.channelId)
            && CursorValid(t)
  {
    var t := SetFlashCrowd(c, s, selected);
    assert t.cands.Keys == selected;
    ServersAreCandidates(c, s.(cands := t.cands));
    assert t.subs == CreateAll(c, s.(cands := t.cands)).subs;
  }

  lemma SetFlashCrowdKeepsInv(c: Config, s: State, selected: set<string>)
    requires Inv(c, s) && s.mode == Normal && Drawn(c, s, selected)
    ensures Inv(c, SetFlashCrowd(c, s, selected))
  {
    var t := SetFlashCrowd(c, s, selected);
    SetFlashCrowdPlaces(c, s, selected);
    SubsetCard(selected, s.cands.Keys);
    SubsetCard(t.subs.Keys, selected);
    forall k | k in t.subs ensures Load(t.peers, t.subs[k]) == 0 {
      assert Members(t.peers, t.subs[k]) == {};
    }
  }

  /** A draw happens only when a flash crowd begins. */
  ghost predicate DrawnFor(c: Config, s: State, mode: Mode, selected: set<string>) {
    selected <= s.cands.Keys && (mode == FlashCrowd && s.mode == Normal ==> Drawn(c, s, selected))
  }

  lemma SetModeKeepsInv(c: Config, s: State, mode: Mode, oneByOne: bool, selected: set<string>)
    requires Inv(c, s) && DrawnFor(c, s, mode, selected)
    ensures Inv(c, SetMode(c, s, mode, oneByOne, selected))
  {
    match mode
    case Normal => if s.mode != Normal { SetNormalKeepsInv(c, s); }
    case Merging => if s.mode != Normal { SetMergingKeepsInv(c, s, oneByOne); }
    case FlashCrowd => if s.mode == Normal { SetFlashCrowdKeepsInv(c, s, selected); }
    case Unknown =>
  }

  lemma DecrementKeepsInv(c: Config, s: State)
    requires Inv(c, s)
    ensures Inv(c, DecrementAll(s))
  {
    var t := DecrementAll(s);
    forall id ensures Load(t.peers, id) == Load(s.peers, id) {
      assert Members(t.peers, id) == Members(s.peers, id);
    }
    LiveFrame(c, s, t);
  }

  lemma RemoveKeepsPlaced(c: Config, s: State, p: string)
    requires Inv(c, s)
    ensures Placed(c, Remove(c, s, p))
  {
    var t := Remove(c, s, p);
    forall q | q in t.peers
      ensures t.peers[q].subId == c.channelId || Live(t, t.peers[q].subId)
              || (t.peers[q].subId == -1 && t.mode == Merging)
    {
      var id := s.peers[q].subId;
      if t.peers[q].subId != c.channelId && Live(s, id) {
        var k :| k in s.subs && s.subs[k] == id;
        if k == p {
          var k' :| k' in s.subs && k' != p && s.subs[k'] == s.subs[p];
          assert k' in t.subs && t.subs[k'] == id;
        } else {
          assert k in t.subs && t.subs[k] == id;
        }
      }
    }
  }

  lemma RemoveShrinksLoads(c: Config, s: State, p: string, id: int)
    requires id != c.channelId
    ensures Load(Remove(c, s, p).peers, id) <= Load(s.peers, id)
  {
    LoadShrinks(s.peers, Remove(c, s, p).peers, id);
  }

  lemma RemoveKeepsBounded(c: Config, s: State, p: string)
    requires Inv(c, s)
    ensures Bounded(c, Remove(c, s, p))
  {
    var t := Remove(c, s, p);
    SubsetCard(t.cands.Keys, s.cands.Keys);
    SubsetCard(t.subs.Keys, s.subs.Keys);
    forall k | k in t.subs ensures Load(t.peers, t.subs[k]) <= Load(s.peers, s.subs[k]) {
      RemoveShrinksLoads(c, s, p, s.subs[k]);
    }
  }

  lemma RemoveKeepsInv(c: Config, s: State, p: string)
    requires Inv(c, s)
    ensures Inv(c, Remove(c, s, p))
  {
    RemoveKeepsPlaced(c, s, p);
    RemoveKeepsBounded(c, s, p);
    if p in s.subs && Next(s.subs.Keys, p).Some? {
      LessIsAsymmetric(p, Next(s.subs.Keys, p).value);
    }
  }

  lemma {:induction false} RemoveAllKeepsInv(c: Config, s: State, ps: seq<string>)
    requires Inv(c, s)
    ensures Inv(c, RemoveAll(c, s, ps))
  {
    if ps != [] {
      RemoveAllKeepsInv(c, s, ps[..|ps| - 1]);
      RemoveKeepsInv(c, RemoveAll(c, s, ps[..|ps| - 1]), ps[|ps| - 1]);
    }
  }

  lemma CheckActiveKeepsInv(c: Config, s: State)
    requires Inv(c, s)
    ensures Inv(c, CheckActive(c, s))
  {
    DecrementKeepsInv(c, s);
    RemoveAllKeepsInv(c, DecrementAll(s), SortedKeys(Expired(s)));
  }

  lemma RefreshKeepsInv(c: Config, s: State, p: string)
    requires Inv(c, s)
    ensures Inv(c, Refresh(s, p))
  {
    OnlyDataChanged(c, s, Refresh(s, p));
  }

  /** The invariant does not look at counters and flags. */
  lemma OnlyDataChanged(c: Config, s: State, t: State)
    requires Inv(c, s) && t == s.(peers := t.peers, cands := t.cands)
    requires t.peers.Keys == s.peers.Keys && forall p :: p in s.peers ==> t.peers[p].subId == s.peers[p].subId
    requires t.cands.Keys == s.cands.Keys && forall k :: k in s.cands ==> t.cands[k].state == s.cands[k].state
    ensures Inv(c, t)
  {
    assert |t.cands| == |s.cands| by { assert |t.cands.Keys| == |s.cands.Keys|; }
    forall id ensures Load(t.peers, id) == Load(s.peers, id) {
      assert Members(t.peers, id) == Members(s.peers, id);
    }
    LiveFrame(c, s, t);
  }

  lemma JoinedKeepsInv(c: Config, s: State, p: string, peer: Peer, candidate: bool)
    requires Inv(c, s)
    ensures Inv(c, Joined(c, s, p, peer, candidate))
    ensures p in Joined(c, s, p, peer, candidate).peers
  {
    if p !in s.peers { AddPeerKeepsInv(c, s, p, peer); }
    AnalyzeKeepsInv(c, if p in s.peers then s else AddPeer(c, s, p, peer), p);
  }

  lemma AnsweredKeepsInv(c: Config, s: State, p: string)
    requires Inv(c, s)
    ensures Inv(c, Answered(s, p))
  {
    OnlyDataChanged(c, s, Answered(s, p));
  }

  // ---- runs --------------------------------------------------------------------------

  datatype Op =
    | Connect(p: string, peer: Peer, candidate: bool)
    | ChangeMode(mode: Mode, oneByOne: bool, selected: set<string>)
    | Check
    | Ping(pinging: string)

  ghost predicate Legal(c: Config, s: State, op: Op) {
    op.ChangeMode? ==> DrawnFor(c, s, op.mode, op.selected)
  }

  ghost function Step(c: Config, s: State, op: Op): State
    requires Inv(c, s) && Legal(c, s, op)
  {
    match op
    case Connect(p, peer, candidate) => Answered(Joined(c, s, p, peer, candidate), p)
    case ChangeMode(mode, oneByOne, selected) => SetMode(c, s, mode, oneByOne, selected)
    case Check => CheckActive(c, s)
    case Ping(p) => Refresh(s, p)
  }

  lemma StepKeepsInv(c: Config, s: State, op: Op)
    requires Inv(c, s) && Legal(c, s, op)
    ensures Inv(c, Step(c, s, op))
  {
    match op
    case Connect(p, peer, candidate) =>
      JoinedKeepsInv(c, s, p, peer, candidate);
      AnsweredKeepsInv(c, Joined(c, s, p, peer, candidate), p);
    case ChangeMode(mode, oneByOne, selected) => SetModeKeepsInv(c, s, mode, oneByOne, selected);
    case Check => CheckActiveKeepsInv(c, s);
    case Ping(p) => RefreshKeepsInv(c, s, p);
  }

  /** A step and the invariant it keeps. */
  ghost function After(c: Config, s: State, op: Op): (t: State)
    requires Inv(c, s) && Legal(c, s, op)
    ensures Inv(c, t)
  {
    StepKeepsInv(c, s, op);
    Step(c, s, op)
  }

  ghost predicate LegalRun(c: Config, s: State, ops: seq<Op>)
    requires Inv(c, s)
    decreases |ops|
  {
    ops == [] || (Legal(c, s, ops[0]) && LegalRun(c, After(c, s, ops[0]), ops[1..]))
  }

  /** The invariant holds after every run; the only legality is that of the random draws. */
  ghost function Run(c: Config, s: State, ops: seq<Op>): (t: State)
    requires Inv(c, s) && LegalRun(c, s, ops)
    ensures Inv(c, t)
    decreases |ops|
  {
    if ops == [] then s else Run(c, After(c, s, ops[0]), ops[1..])
  }

  /** `s` is reached by some run from the creation of the channel. */
  ghost predicate Reached(c: Config, s: State) {
    exists server: Peer, ops: seq<Op> :: ReachedBy(c, server, ops, s)
  }

  ghost predicate ReachedBy(c: Config, server: Peer, ops: seq<Op>, s: State) {
    InitialInv(c, server);
    LegalRun(c, Initial(c, server), ops) && Run(c, Initial(c, server), ops) == s
  }

  /** Every reachable channel satisfies the invariant. */
  lemma ReachedInv(c: Config, s: State)
    requires Reached(c, s)
    ensures Inv(c, s)
  {
    var server: Peer, ops: seq<Op> :| ReachedBy(c, server, ops, s);
    InitialInv(c, server);
  }

  lemma RunFirst(c: Config, s: State, op: Op, rest: seq<Op>)
    requires Inv(c, s) && Legal(c, s, op)
    ensures LegalRun(c, s, [op] + rest) <==> LegalRun(c, After(c, s, op), rest)
    ensures LegalRun(c, After(c, s, op), rest) ==> Run(c, s, [op] + rest) == Run(c, After(c, s, op), rest)
  {
    var ops := [op] + rest;
    assert ops[0] == op && ops[1..] == rest;
  }

  lemma {:induction false} RunAppend(c: Config, s: State, ops: seq<Op>, op: Op)
    requires Inv(c, s) && LegalRun(c, s, ops) && Legal(c, Run(c, s, ops), op)
    ensures LegalRun(c, s, ops + [op]) && Run(c, s, ops + [op]) == After(c, Run(c, s, ops), op)
    decreases |ops|
  {
    if ops == [] {
      assert ops + [op] == [op] + [];
      RunFirst(c, s, op, []);
    } else {
      var first, rest := ops[0], ops[1..];
      assert ops == [first] + rest && ops + [op] == [first] + (rest + [op]);
      RunFirst(c, s, first, rest);
      RunAppend(c, After(c, s, first), rest, op);
      RunFirst(c, s, first, rest + [op]);
    }
  }

  /** The new channel is reachable, and so is whatever any operation makes of a reachable one. */
  lemma ReachedClosed(c: Config, server: Peer, s: State, op: Op)
    ensures Reached(c, Initial(c, server))
    ensures Reached(c, s) && Legal(c, s, op) ==> Inv(c, s) && Reached(c, Step(c, s, op))
  {
    InitialInv(c, server);
    assert ReachedBy(c, server, [], Initial(c, server));
    if Reached(c, s) && Legal(c, s, op) {
      var start: Peer, ops: seq<Op> :| ReachedBy(c, start, ops, s);
      InitialInv(c, start);
      RunAppend(c, Initial(c, start), ops, op);
      assert ReachedBy(c, start, ops + [op], Step(c, s, op));
    }
  }

  // ---- isolation of the neighbour query -------------------------------------------------

  /** The setting that keeps peers of one address apart. */
  predicate Apart(s: State, asker: Peer, virtualPeer: bool, p: string)
    requires p in s.peers
  {
    virtualPeer ==> asker.ip != s.peers[p].peer.ip
  }

  /** A peer of a live sub-channel is offered exactly the other peers of that sub-channel and its servers. */
  lemma SubChannelIsolated(c: Config, s: State, src: string, asker: Peer, virtualPeer: bool, p: string)
    requires Inv(c, s) && s.mode in {FlashCrowd, Merging}
    requires src in s.peers && Live(s, s.peers[src].subId)
    ensures p in Eligible(c, s, src, asker, virtualPeer) <==>
              || (p in s.peers && p != src && s.peers[p].subId == s.peers[src].subId && Apart(s, asker, virtualPeer, p))
              || (p in s.subs && s.subs[p] == s.peers[src].subId)
  {
  }

  /** A peer of the main network is offered exactly the others that are in the main network or merging,
      but no auxiliary server; none of them is in a live sub-channel. */
  lemma MainNetworkIsolated(c: Config, s: State, src: string, asker: Peer, virtualPeer: bool, p: string)
    requires Inv(c, s) && s.mode in {FlashCrowd, Merging}
    requires src in s.peers && s.peers[src].subId == c.channelId
    ensures p in Eligible(c, s, src, asker, virtualPeer) <==>
              && p in s.peers && p != src && p !in s.subs && s.peers[p].subId in {c.channelId as int, -1}
              && Apart(s, asker, virtualPeer, p)
    ensures p in Eligible(c, s, src, asker, virtualPeer) ==> !Live(s, s.peers[p].subId)
  {
    NoSubChannelIds(c, s);
  }

  lemma NoSubChannelIds(c: Config, s: State)
    requires Inv(c, s)
    ensures !Live(s, c.channelId) && !Live(s, -1)
  {
  }

  /** A merging peer is offered exactly the others that merge, and the main network only if it contributes;
      every peer is of one of the three kinds. */
  lemma MergingIsolated(c: Config, s: State, src: string, asker: Peer, virtualPeer: bool, p: string)
    requires Inv(c, s) && s.mode in {FlashCrowd, Merging}
    requires src in s.peers && s.peers[src].subId != c.channelId && !Live(s, s.peers[src].subId)
    ensures s.mode == Merging && s.peers[src].subId == -1
    ensures p in Eligible(c, s, src, asker, virtualPeer) <==>
              && p in s.peers && p != src && p !in s.subs && Apart(s, asker, virtualPeer, p)
              && (s.peers[p].subId == -1 || (asker.out > 0 && s.peers[p].subId == c.channelId))
  {
  }

  /** In normal mode everybody may meet everybody else. */
  lemma NormalMeetsAll(c: Config, s: State, src: string, asker: Peer, virtualPeer: bool, p: string)
    requires Inv(c, s) && s.mode == Normal && src in s.peers
    ensures p in Eligible(c, s, src, asker, virtualPeer) <==>
              p in s.peers && p != src && Apart(s, asker, virtualPeer, p)
  {
  }

  /** Nobody is offered itself, in any mode. */
  lemma NeverItself(c: Config, s: State, src: string, asker: Peer, virtualPeer: bool)
    requires Inv(c, s) && src in s.peers
    ensures src !in Eligible(c, s, src, asker, virtualPeer)
  {
  }

  /** What isolation allows `src` to learn about: outside normal mode a peer of a live sub-channel learns of that
      sub-channel and its servers, and nobody else learns of a server or of a peer of a live sub-channel; merging
      peers learn of the main network only if they contribute. */
  ghost predicate MayLearnOf(c: Config, s: State, src: string, asker: Peer, p: string)
    requires src in s.peers
  {
    var mine := s.peers[src].subId;
    && p in s.peers && p != src
    && (s.mode in {FlashCrowd, Merging} ==>
          if Live(s, mine) then s.peers[p].subId == mine || (p in s.subs && s.subs[p] == mine)
          else
            && p !in s.subs && !Live(s, s.peers[p].subId) && s.peers[p].subId in {c.channelId as int, -1}
            && (mine != c.channelId && s.peers[p].subId == c.channelId ==> asker.out > 0))
  }

  lemma EligibleIsIsolated(c: Config, s: State, src: string, asker: Peer, virtualPeer: bool, p: string)
    requires Inv(c, s) && src in s.peers && p in Eligible(c, s, src, asker, virtualPeer)
    ensures MayLearnOf(c, s, src, asker, p)
  {
    NeverItself(c, s, src, asker, virtualPeer);
    if s.mode in {FlashCrowd, Merging} {
      NoSubChannelIds(c, s);
      if Live(s, s.peers[src].subId) {
        SubChannelIsolated(c, s, src, asker, virtualPeer, p);
      } else if s.peers[src].subId == c.channelId {
        MainNetworkIsolated(c, s, src, asker, virtualPeer, p);
      } else {
        MergingIsolated(c, s, src, asker, virtualPeer, p);
      }
    }
  }

  /** Whatever is chosen among the neighbours keeps the networks apart. */
  lemma SelectionIsIsolated(c: Config, s: State, src: string, asker: Peer, virtualPeer: bool, minimum: nat,
                            minimumFree: nat, separated: bool, selected: seq<string>)
    requires Inv(c, s) && src in s.peers
    requires ToSet(selected) <= Neighbours(c, s, src, asker, virtualPeer, minimum, minimumFree, separated)
    ensures forall p :: p in selected ==> MayLearnOf(c, s, src, asker, p)
  {
    forall p | p in selected ensures MayLearnOf(c, s, src, asker, p) {
      assert p in ToSet(selected);
      EligibleIsIsolated(c, s, src, asker, virtualPeer, p);
    }
  }
}
