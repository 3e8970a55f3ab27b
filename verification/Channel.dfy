/** The channel object: its maps are walked and updated in place by the loops of the source. */
module Channel {
  import opened AuxStates
  import opened Keys
  import opened Walks
  import opened ChannelModel
  import opened ChannelInvariant

  class Channel {
    const config: Config
    var channelMode: Mode
    var peerList: map<string, PeerData>
    var channelSubList: map<string, nat>
    var serverSubCandidates: map<string, Candidate>
    var posInsertSubChannel: Option<string>

    ghost function View(): State
      reads this
    {
      State(channelMode, peerList, channelSubList, serverSubCandidates, posInsertSubChannel)
    }

    constructor (config: Config, server: Peer)
      ensures this.config == config && View() == Initial(config, server) && Inv(config, View())
    {
      this.config := config;
      channelMode := Normal;
      peerList := map[config.server := PeerData(server, config.channelId, TTL_CHANNEL, false)];
      channelSubList, serverSubCandidates, posInsertSubChannel := map[], map[], None;
      new;
      InitialInv(config, server);
    }

    // ---- placement ---------------------------------------------------------------------

    method GetPeerListSizeChannelSub(id: int) returns (count: nat)
      ensures count == Load(peerList, id)
    {
      count := CountMembers(peerList, id);
    }

    /** Looks for a sub-channel with room, testing each run of servers of one sub-channel once. */
    method AllSubChannelFull() returns (full: bool)
      requires forall k :: k in channelSubList ==> channelSubList[k] > 0
      modifies this`posInsertSubChannel
      ensures full <==> WithRoom(config, View()) == {}
      ensures full ==> View() == old(View())
      ensures !full ==> View() == old(View()).(cursor := Some(Least(WithRoom(config, old(View())))))
    {
      var room := FirstWithRoom(config, peerList, channelSubList);
      assert WithRoom(config, View()) == Roomy(config, peerList, channelSubList);
      if room.Some? {
        posInsertSubChannel := room;
      }
      full := room.None?;
    }

    method AddPeerMasterChannel(p: string, peer: Peer)
      modifies this`peerList
      ensures View() == AddMaster(config, old(View()), p, peer)
    {
      peerList := peerList[p := PeerData(peer, 0, TTL_CHANNEL, false)];
      peerList := peerList[p := peerList[p].(subId := config.channelId)];
    }

    /** Moves the cursor to the next server of another sub-channel, or back to the first server. */
    method AdvanceCursor(at: string)
      requires at in channelSubList && posInsertSubChannel == Some(at)
      modifies this`posInsertSubChannel
      ensures View() == old(View()).(cursor := Some(NextCluster(channelSubList, at)))
    {
      var i := Some(at);
      while i.Some?
        invariant posInsertSubChannel == Some(at) && (i.Some? ==> i.value in channelSubList)
        invariant forall k :: k in OtherClusters(channelSubList, at) ==> i.Some? && (k == i.value || Less(i.value, k))
        invariant i.Some? ==> i.value == at || Less(at, i.value)
        decreases if i.Some? then |Above(channelSubList.Keys, i.value)| + 1 else 0
      {
        StrictTotalOrder();
        if channelSubList[i.value] != channelSubList[at] {
          posInsertSubChannel := i;
          assert i.value in OtherClusters(channelSubList, at);
          LeastIsUnique(OtherClusters(channelSubList, at), Least(OtherClusters(channelSubList, at)), i.value);
          return;
        }
        AboveShrinks(channelSubList.Keys, i.value);
        i := Next(channelSubList.Keys, i.value);
      }
      posInsertSubChannel := Some(Least(channelSubList.Keys));
      assert OtherClusters(channelSubList, at) == {};
    }

    /** True if the peer was placed. */
    method AddPeerChannel(p: string, peer: Peer) returns (added: bool)
      requires channelMode == FlashCrowd ==> CursorValid(View())
      modifies this
      ensures channelMode == old(channelMode) && channelSubList == old(channelSubList)
      ensures serverSubCandidates == old(serverSubCandidates)
      ensures old(channelMode) != FlashCrowd ==> added && View() == AddMaster(config, old(View()), p, peer)
      ensures channelMode == FlashCrowd && channelSubList == map[] ==> !added && View() == old(View())
      ensures channelMode == FlashCrowd && channelSubList != map[] ==>
                var k := Current(old(View()));
                && added == (k in WithRoom(config, old(View())))
                && View() == if added then Insert(old(View()), p, peer, k) else old(View()).(cursor := Some(k))
    {
      if channelMode != FlashCrowd {
        AddPeerMasterChannel(p, peer);
        return true;
      }
      if channelSubList == map[] {
        return false;
      }
      if posInsertSubChannel == None {
        posInsertSubChannel := Some(Least(channelSubList.Keys));
      }
      var at := posInsertSubChannel.value;
      var count := GetPeerListSizeChannelSub(channelSubList[at]);
      added := count < config.maxPeerInSubChannel;
      if added {
        peerList := peerList[p := PeerData(peer, 0, TTL_CHANNEL, false)];
        peerList := peerList[p := peerList[p].(subId := channelSubList[at])];
        AdvanceCursor(at);
      }
    }

    method AddPeer(p: string, peer: Peer)
      requires Inv(config, View())
      modifies this
      ensures View() == ChannelModel.AddPeer(config, old(View()), p, peer)
    {
      var added := AddPeerChannel(p, peer);
      if !added {
        ghost var s := View();
        var full := AllSubChannelFull();
        if full {
          AddPeerMasterChannel(p, peer);
        } else {
          assert WithRoom(config, s) == WithRoom(config, old(View()));
          var again := AddPeerChannel(p, peer);
          assert again;  // the retry always finds the room that was just found
        }
      }
    }

    // ---- candidates and modes -------------------------------------------------------------

    method AnalizePeerToBeServerAux(p: string)
      modifies this`serverSubCandidates
      ensures View() == Analyze(config, old(View()), p)
    {
      if channelMode == Normal {
        if p in peerList && |serverSubCandidates| < config.maxServerAuxCandidate && p != config.server {
          if p !in serverSubCandidates {
            serverSubCandidates := serverSubCandidates[p := Candidate(NoServerAux, false)];
          }
        }
      }
    }

    method CreateAllChannelSub()
      requires channelSubList == map[]
      requires |serverSubCandidates| <= config.maxSubChannel * config.sizeCluster
      modifies this`channelSubList, this`posInsertSubChannel
      ensures View() == CreateAll(config, old(View()))
    {
      var ks := SortedKeys(serverSubCandidates.Keys);
      var limit := config.maxSubChannel * config.sizeCluster;
      channelSubList := BuildClusters(config.channelId, config.sizeCluster, limit, ks);
      posInsertSubChannel := if channelSubList == map[] then None else Some(Least(channelSubList.Keys));
    }

    method SetFlashCrowdMode() returns (ghost selected: set<string>)
      requires Inv(config, View()) && channelMode == Normal
      modifies this
      ensures Drawn(config, old(View()), selected)
      ensures View() == SetFlashCrowd(config, old(View()), selected)
    {
      var cands;
      cands, selected := DrawCandidates(serverSubCandidates, config.maxSubChannel * config.sizeCluster);
      FlashCrowdFrom(config, View(), selected, cands);
      serverSubCandidates := cands;
      ghost var drawn := View();
      CreateAllChannelSub();
      ghost var created := View();
      assert created == CreateAll(config, drawn);
      peerList := WaitForServers(cands, peerList);
      channelMode := FlashCrowd;
      assert View() == created.(peers := peerList, mode := FlashCrowd);
    }

    method SetMergingMode(oneByOne: bool)
      requires Inv(config, View()) && channelMode in {FlashCrowd, Merging}
      modifies this
      ensures View() == SetMerging(old(View()), oneByOne)
    {
      peerList, serverSubCandidates := MergeServers(View(), channelSubList, peerList, serverSubCandidates, oneByOne);
      channelMode := Merging;
    }

    method SetNormalMode()
      requires Inv(config, View())
      modifies this
      ensures View() == SetNormal(config, old(View()))
    {
      serverSubCandidates := UpdateEach(serverSubCandidates,
        (_, d: Candidate) => if d.state != NoServerAux then Candidate(NoServerAux, true) else d);
      RemoveAllChannelSub();
      channelMode := Normal;
    }

    method RemoveAllChannelSub()
      modifies this`peerList, this`channelSubList
      ensures channelSubList == map[]
      ensures peerList == map p | p in old(peerList) :: old(peerList)[p].(subId := config.channelId)
    {
      peerList := UpdateEach(peerList, (_, d: PeerData) => d.(subId := config.channelId));
      channelSubList := map[];
    }

    /** The mode change an operator asks for; the draw of a flash crowd is any legal one. */
    method SetChannelMode(mode: Mode, timeMerge: bool) returns (ghost selected: set<string>)
      requires Inv(config, View())
      modifies this
      ensures DrawnFor(config, old(View()), mode, selected)
      ensures View() == SetMode(config, old(View()), mode, timeMerge, selected)
    {
      selected := {};
      match mode
      case Normal =>
        if channelMode == FlashCrowd || channelMode == Merging { SetNormalMode(); }
      case Merging =>
        if channelMode == FlashCrowd || channelMode == Merging { SetMergingMode(timeMerge); }
      case FlashCrowd =>
        if channelMode == Normal { selected := SetFlashCrowdMode(); }
      case Unknown =>
    }

    // ---- expiry ------------------------------------------------------------------------

    method RemoveExpired(p: string)
      modifies this
      ensures View() == Remove(config, old(View()), p)
    {
      if p in channelSubList && posInsertSubChannel == Some(p) {
        posInsertSubChannel := Next(channelSubList.Keys, p);
      }
      ghost var before := peerList;
      if p in channelSubList {
        var finishing := FinishingServer(channelSubList, p);
        if finishing {
          peerList := SendHome(config.channelId, channelSubList[p], peerList);
        }
        assert peerList == Returned(config, before, channelSubList, p);
        channelSubList := channelSubList - {p};
      } else {
        NothingReturned(config, before, channelSubList, p);
      }
      if p in serverSubCandidates {
        serverSubCandidates := serverSubCandidates - {p};
      }
      assert serverSubCandidates == old(serverSubCandidates) - {p};
      peerList := peerList - {p};
    }

    /** A ping of the peer. */
    method Refresh(p: string)
      modifies this`peerList
      ensures View() == ChannelModel.Refresh(old(View()), p)
    {
      if p in peerList {
        peerList := peerList[p := peerList[p].(ttl := TTL_CHANNEL)];
      }
    }

    method CheckActivePeers()
      modifies this
      ensures View() == CheckActive(config, old(View()))
    {
      ghost var before := View();
      var deletedPeer;
      peerList, deletedPeer := DecrementTtls(peerList);
      ghost var start := View();
      assert start == DecrementAll(before);
      SortedIsUnique(deletedPeer, SortedKeys(Expired(before)));
      for i := 0 to |deletedPeer|
        invariant View() == RemoveAll(config, start, deletedPeer[..i])
      {
        RemoveAllStep(config, start, deletedPeer, i);
        RemoveExpired(deletedPeer[i]);
      }
      assert deletedPeer[..|deletedPeer|] == deletedPeer;
    }

    // ---- flags of the reply --------------------------------------------------------------

    method GetServerSubWaitInform(p: string) returns (waiting: bool)
      ensures waiting <==> WaitsInform(View(), p)
    {
      waiting := p in serverSubCandidates && serverSubCandidates[p].waitInform;
    }

    method GetWaitServerList(p: string) returns (waiting: bool)
      ensures waiting <==> WaitsList(View(), p)
    {
      waiting := p in peerList && peerList[p].waitList;
    }

    method SetServerSubWaitInform(p: string, waiting: bool)
      modifies this`serverSubCandidates
      ensures serverSubCandidates.Keys == old(serverSubCandidates).Keys
      ensures forall k :: k in serverSubCandidates ==>
                serverSubCandidates[k] == if k == p then old(serverSubCandidates)[k].(waitInform := waiting)
                                          else old(serverSubCandidates)[k]
    {
      if p in serverSubCandidates {
        serverSubCandidates := serverSubCandidates[p := serverSubCandidates[p].(waitInform := waiting)];
      }
    }

    method SetWaitServerList(p: string, waiting: bool)
      modifies this`peerList
      ensures peerList.Keys == old(peerList).Keys
      ensures forall k :: k in peerList ==>
                peerList[k] == if k == p then old(peerList)[k].(waitList := waiting) else old(peerList)[k]
    {
      if p in peerList {
        peerList := peerList[p := peerList[p].(waitList := waiting)];
      }
    }

    /** The auxiliary servers announced to the main network: all candidates, in key order. */
    method MakeServerAuxList() returns (ids: seq<string>)
      ensures Sorted(ids) && ToSet(ids) == View().cands.Keys
    {
      ids := CollectKeys(serverSubCandidates.Keys, _ => true);
    }

    // ---- the neighbour query -----------------------------------------------------------

    method SelectPeerList(src: string, asker: Peer, peerQuantity: nat, virtualPeer: bool, minimumBandwidth: nat,
                          minimumBandwidthFree: nat, separated: bool) returns (selected: seq<string>)
      requires Inv(config, View()) && src in peerList
      ensures var N := Neighbours(config, View(), src, asker, virtualPeer,
                                  minimumBandwidth, minimumBandwidthFree, separated);
              && NoDuplicates(selected) && ToSet(selected) <= N
              && |selected| == if peerQuantity < |N| then peerQuantity else |N|
      ensures src !in selected && forall p :: p in selected ==> MayLearnOf(config, View(), src, asker, p)
    {
      var s := State(channelMode, peerList, channelSubList, serverSubCandidates, posInsertSubChannel);
      var allPeers := EligiblePeers(config, s, src, asker, virtualPeer);
      var afford := AffordablePeers(s, asker, allPeers, minimumBandwidth, minimumBandwidthFree, separated);
      assert ToSet(afford) == Neighbours(config, s, src, asker, virtualPeer,
                                         minimumBandwidth, minimumBandwidthFree, separated);
      DistinctCard(afford);
      var quantity := if peerQuantity > |afford| then |afford| else peerQuantity;
      var shuffled := Shuffle(afford);
      selected := shuffled[..quantity];
      SelectionIsIsolated(config, s, src, asker, virtualPeer,
                          minimumBandwidth, minimumBandwidthFree, separated, selected);
    }
  }

  // ---- loops of the operations above -----------------------------------------------------

  ghost function Roomy(c: Config, peers: map<string, PeerData>, subs: map<string, nat>): set<string> {
    set k | k in subs && Load(peers, subs[k]) < c.maxPeerInSubChannel
  }

  method CountMembers(peers: map<string, PeerData>, id: int) returns (count: nat)
    ensures count == Load(peers, id)
  {
    var P := p => p in peers && peers[p].subId == id;
    count := CountWhere(peers.Keys, P);
    assert Matching(peers.Keys, P) == Members(peers, id);
  }

  /** Walks the servers in key order and tests each run of servers of one sub-channel once. */
  method FirstWithRoom(c: Config, peers: map<string, PeerData>, subs: map<string, nat>) returns (room: Option<string>)
    requires forall k :: k in subs ==> subs[k] > 0
    ensures room == if Roomy(c, peers, subs) == {} then None else Some(Least(Roomy(c, peers, subs)))
  {
    ghost var wanted := Roomy(c, peers, subs);
    var lastId := 0;
    var ks := SortedKeys(subs.Keys);
    assert forall k :: k in subs <==> k in ToSet(ks);
    for i := 0 to |ks|
      invariant forall j :: 0 <= j < i ==> ks[j] !in wanted
      invariant lastId == if i == 0 then 0 else subs[ks[i - 1]]
    {
      assert ks[i] in ToSet(ks);
      if subs[ks[i]] != lastId {
        var count := CountMembers(peers, subs[ks[i]]);
        if count < c.maxPeerInSubChannel {
          FirstMatch(ks, i, wanted);
          return Some(ks[i]);
        }
      } else {
        assert ks[i - 1] !in wanted;
      }
      lastId := subs[ks[i]];
    }
    room := None;
    NoMatch(ks, wanted);
  }

  lemma NoMatch(ks: seq<string>, wanted: set<string>)
    requires wanted <= ToSet(ks) && forall j :: 0 <= j < |ks| ==> ks[j] !in wanted
    ensures wanted == {}
  {
    forall k | k in ToSet(ks) ensures k !in wanted {
      var j :| 0 <= j < |ks| && ks[j] == k;
    }
  }

  /** The vector the query starts from: the peers of the right network, then the asker's own servers. */
  method EligiblePeers(c: Config, s: State, src: string, asker: Peer, virtualPeer: bool) returns (r: seq<string>)
    requires Inv(c, s) && src in s.peers
    ensures NoDuplicates(r) && forall p :: p in r <==> p in Eligible(c, s, src, asker, virtualPeer)
  {
    var apart := CollectKeys(s.peers.Keys, p => p in s.peers && (virtualPeer ==> asker.ip != s.peers[p].peer.ip));
    if s.mode != FlashCrowd && s.mode != Merging {
      r := Collect(apart, p => p != src);
    } else {
      r := MeetingPeers(c, s, src, asker, apart);
    }
  }

  /** Those `apart` that the asker may meet, and the servers of its sub-channel. */
  method MeetingPeers(c: Config, s: State, src: string, asker: Peer, apart: seq<string>) returns (r: seq<string>)
    requires src in s.peers && NoDuplicates(apart)
    ensures NoDuplicates(r)
    ensures forall p :: p in r <==> || (p in apart && p in s.peers && MayMeet(c, s, src, asker.out, p))
                                    || (p in s.subs && s.subs[p] == s.peers[src].subId > 0
                                        && s.peers[src].subId != c.channelId)
  {
    r := Collect(apart, p => p in s.peers && MayMeet(c, s, src, asker.out, p));
    var mine := s.peers[src].subId;
    if mine != c.channelId && mine > 0 {
      var servers := CollectKeys(s.subs.Keys, k => k in s.subs && s.subs[k] == mine);
      AppendDistinct(r, servers);
      ghost var met := r;
      r := r + servers;
      assert forall p :: p in r <==> p in met || p in servers;
    }
  }

  lemma AppendDistinct(a: seq<string>, b: seq<string>)
    requires NoDuplicates(a) && NoDuplicates(b) && forall k :: k in b ==> k !in a
    ensures NoDuplicates(a + b)
  {
    forall i, j | 0 <= i < j < |a + b| ensures (a + b)[i] != (a + b)[j] {
      if i < |a| <= j { assert b[j - |a|] in b && a[i] in a; }
    }
  }

  /** The bandwidth filter. */
  method AffordablePeers(s: State, asker: Peer, all: seq<string>, minimum: nat, minimumFree: nat, separated: bool)
    returns (r: seq<string>)
    requires NoDuplicates(all)
    ensures NoDuplicates(r)
    ensures forall p :: p in r <==> p in all && p in s.peers && Affords(s, asker, p, minimum, minimumFree, separated)
  {
    if !separated || asker.out > 0 {
      r := Collect(all, p => p in s.peers && s.peers[p].peer.out >= minimum);
    } else {
      r := Collect(all, p => p in s.peers && s.peers[p].peer.outFree >= minimumFree);
    }
  }

  /** The draw of a flash crowd: a larger list is cut to `n` random candidates, and all become active. */
  method DrawCandidates(cands: map<string, Candidate>, n: nat)
    returns (r: map<string, Candidate>, ghost selected: set<string>)
    ensures selected <= cands.Keys && if |cands| > n then |selected| == n else selected == cands.Keys
    ensures r == map k | k in selected :: Candidate(ServerAuxActive, true)
    ensures |r| <= n
  {
    r := cands;
    if |cands| > n {
      r := Draw(cands, n);
    }
    selected := r.Keys;
    r := UpdateEach(r, (_, _) => Candidate(ServerAuxActive, true));
    assert r.Keys == selected;
  }

  method WaitForServers(cands: map<string, Candidate>, peers: map<string, PeerData>) returns (r: map<string, PeerData>)
    ensures r == map p | p in peers :: if p in cands then peers[p] else peers[p].(waitList := true)
  {
    r := UpdateEach(peers, (p, d: PeerData) => if p in cands then d else d.(waitList := true));
  }

  lemma FlashCrowdFrom(c: Config, s: State, selected: set<string>, cands: map<string, Candidate>)
    requires selected <= s.cands.Keys && cands == map k | k in selected :: Candidate(ServerAuxActive, true)
    ensures SetFlashCrowd(c, s, selected)
            == CreateAll(c, s.(cands := cands)).(
                 peers := map p | p in s.peers :: if p in cands then s.peers[p] else s.peers[p].(waitList := true),
                 mode := FlashCrowd)
  {
  }

  method SendHome(channelId: nat, id: nat, peers: map<string, PeerData>) returns (r: map<string, PeerData>)
    ensures r == map q | q in peers :: if peers[q].subId == id then peers[q].(subId := channelId) else peers[q]
  {
    r := UpdateEach(peers, (_, d: PeerData) => if d.subId == id then d.(subId := channelId) else d);
  }

  /** True if no other server serves the sub-channel of `server`. */
  method FinishingServer(subs: map<string, nat>, server: string) returns (r: bool)
    requires server in subs
    ensures r <==> Finishing(subs, server)
  {
    var ks := SortedKeys(subs.Keys);
    assert forall k :: k in subs <==> k in ToSet(ks);
    for i := 0 to |ks|
      invariant forall j :: 0 <= j < i ==> ks[j] == server || subs[ks[j]] != subs[server]
    {
      assert ks[i] in ToSet(ks);
      if subs[server] == subs[ks[i]] && server != ks[i] {
        return false;
      }
    }
    forall k | k in subs && k != server ensures subs[k] != subs[server] {
      assert k in ToSet(ks);
      var j :| 0 <= j < |ks| && ks[j] == k;
    }
    return true;
  }

  /** One pass over the peers: every time-to-live drops, and the expired keys are collected in order. */
  method DecrementTtls(peers: map<string, PeerData>) returns (r: map<string, PeerData>, deleted: seq<string>)
    ensures r == map p | p in peers :: peers[p].(ttl := peers[p].ttl - 1)
    ensures Sorted(deleted) && ToSet(deleted) == set p | p in peers && peers[p].ttl - 1 <= 0
  {
    r := UpdateEach(peers, (_, d: PeerData) => d.(ttl := d.ttl - 1));
    deleted := CollectKeys(peers.Keys, p => p in r && r[p].ttl <= 0);
  }

  lemma RemoveAllStep(c: Config, s: State, ps: seq<string>, i: nat)
    requires i < |ps|
    ensures RemoveAll(c, s, ps[..i + 1]) == Remove(c, RemoveAll(c, s, ps[..i]), ps[i])
  {
    assert ps[..i + 1][..i] == ps[..i];
  }

  /** The servers left to merge among the first `i` keys. */
  ghost function LeftAmong(s: State, ks: seq<string>, i: nat): set<string>
    requires i <= |ks|
  {
    set k | k in ks[..i] && k in s.cands && s.cands[k].state != ServerAuxMesclar
  }

  lemma MergeStep(s: State, t: State, chosen: set<string>, k: string)
    requires t == MergedBy(s, chosen) && k in s.subs && k in s.cands
    ensures MergedBy(s, chosen + {k}).cands == t.cands[k := Candidate(ServerAuxMesclar, true)]
    ensures MergedBy(s, chosen + {k}).peers
            == map p | p in t.peers :: if t.peers[p].subId == s.subs[k] then t.peers[p].(subId := -1) else t.peers[p]
  {
    var r := MergedBy(s, chosen + {k});
    assert r.cands.Keys == t.cands[k := Candidate(ServerAuxMesclar, true)].Keys;
  }

  /** One server told to merge. */
  method MergeServer(ghost s: State, ghost chosen: set<string>, k: string, id: int, peers: map<string, PeerData>,
                     cands: map<string, Candidate>)
    returns (peers': map<string, PeerData>, cands': map<string, Candidate>)
    requires k in s.subs && id == s.subs[k] && k in s.cands
    requires peers == MergedBy(s, chosen).peers && cands == MergedBy(s, chosen).cands
    ensures peers' == MergedBy(s, chosen + {k}).peers && cands' == MergedBy(s, chosen + {k}).cands
  {
    MergeStep(s, MergedBy(s, chosen), chosen, k);
    cands' := cands[k := Candidate(ServerAuxMesclar, true)];
    peers' := UpdateEach(peers, (_, d: PeerData) => if d.subId == id then d.(subId := -1) else d);
  }

  /** Walks the servers in key order, turns those left to merging, and stops after one if asked to. */
  method MergeServers(ghost s: State, subs: map<string, nat>, peers: map<string, PeerData>,
                      cands: map<string, Candidate>, oneByOne: bool)
    returns (peers': map<string, PeerData>, cands': map<string, Candidate>)
    requires s.subs == subs && s.peers == peers && s.cands == cands && subs.Keys <= cands.Keys
    ensures peers' == MergedBy(s, ToMerge(s, oneByOne)).peers && cands' == MergedBy(s, ToMerge(s, oneByOne)).cands
  {
    peers', cands' := peers, cands;
    var ks := SortedKeys(subs.Keys);
    ghost var chosen: set<string> := {};
    NobodyMerged(s);
    for i := 0 to |ks|
      invariant chosen == LeftAmong(s, ks, i) && (oneByOne ==> chosen == {})
      invariant peers' == MergedBy(s, chosen).peers && cands' == MergedBy(s, chosen).cands
    {
      OneMore(s, ks, i);
      if cands'[ks[i]].state != ServerAuxMesclar {
        peers', cands' := MergeServer(s, chosen, ks[i], subs[ks[i]], peers', cands');
        chosen := chosen + {ks[i]};
        if oneByOne {
          FirstLeft(s, ks, i);
          return;
        }
      }
    }
    AllLeft(s, ks);
  }

  lemma NobodyMerged(s: State)
    ensures MergedBy(s, {}).peers == s.peers && MergedBy(s, {}).cands == s.cands
  {
  }

  lemma OneMore(s: State, ks: seq<string>, i: nat)
    requires Sorted(ks) && i < |ks| && ToSet(ks) == s.subs.Keys <= s.cands.Keys
    ensures ks[i] in s.subs && ks[i] in s.cands && ks[i] !in LeftAmong(s, ks, i)
    ensures LeftAmong(s, ks, i + 1)
            == LeftAmong(s, ks, i) + if s.cands[ks[i]].state != ServerAuxMesclar then {ks[i]} else {}
    ensures ks[i] in MergedBy(s, LeftAmong(s, ks, i)).cands
    ensures MergedBy(s, LeftAmong(s, ks, i)).cands[ks[i]] == s.cands[ks[i]]
  {
    SortedHasNoDuplicates(ks);
    assert ks[i] in ToSet(ks);
    assert ks[..i + 1] == ks[..i] + [ks[i]];
  }

  lemma AllLeft(s: State, ks: seq<string>)
    requires ToSet(ks) == s.subs.Keys
    ensures LeftAmong(s, ks, |ks|) == ToMerge(s, false)
    ensures LeftAmong(s, ks, |ks|) == {} ==> ToMerge(s, true) == {}
  {
    assert ks[..|ks|] == ks;
    assert forall k :: k in s.subs <==> k in ToSet(ks);
  }

  lemma FirstLeft(s: State, ks: seq<string>, i: nat)
    requires Sorted(ks) && ToSet(ks) == s.subs.Keys && i < |ks| && LeftAmong(s, ks, i) == {}
    requires ks[i] in s.cands && s.cands[ks[i]].state != ServerAuxMesclar
    ensures ToMerge(s, true) == {ks[i]}
  {
    AllLeft(s, ks);
    var wanted := ToMerge(s, false);
    assert ks[i] in ToSet(ks);
    forall j | 0 <= j < i ensures ks[j] !in wanted {
      assert ks[j] in ks[..i];
      assert ks[j] !in LeftAmong(s, ks, i);
    }
    FirstMatch(ks, i, wanted);
  }

  /** The clusters `groups` and the servers `part` are what the first `i` keys give. */
  ghost predicate CutSoFar(ks: seq<string>, size: nat, i: nat, part: seq<string>, groups: seq<seq<string>>) {
    && |part| <= i <= |ks| && part == ks[i - |part|..i]
    && Clusters(ks, size) == groups + Clusters(ks[i - |part|..], size)
  }

  lemma NothingCut(ks: seq<string>, size: nat)
    ensures CutSoFar(ks, size, 0, [], [])
  {
    assert ks[0..] == ks && ks[0..0] == [];
    assert [] + Clusters(ks, size) == Clusters(ks, size);
  }

  lemma OneCollected(ks: seq<string>, size: nat, i: nat, part: seq<string>, groups: seq<seq<string>>)
    requires i < |ks| && CutSoFar(ks, size, i, part, groups)
    ensures CutSoFar(ks, size, i + 1, part + [ks[i]], groups)
  {
    assert i + 1 - |part + [ks[i]]| == i - |part|;
    assert part + [ks[i]] == ks[i - |part|..i + 1];
  }

  lemma ClusterComplete(ks: seq<string>, size: nat, i: nat, part: seq<string>, groups: seq<seq<string>>)
    requires CutSoFar(ks, size, i, part, groups) && |part| == size > 0
    ensures CutSoFar(ks, size, i, [], groups + [part])
  {
    NextClusterCut(ks, i, size, part, groups);
    assert ks[i..i] == [];
  }

  lemma NoMoreClusters(ks: seq<string>, size: nat, part: seq<string>, groups: seq<seq<string>>)
    requires CutSoFar(ks, size, |ks|, part, groups) && (|part| < size || size == 0)
    ensures groups == Clusters(ks, size)
  {
    var rest := ks[|ks| - |part|..];
    assert Clusters(rest, size) == [];
    assert groups + [] == groups;
  }

  datatype Build = Build(subs: map<string, nat>, part: seq<string>, size: int, id: nat)

  /** What holds of the variables of the loop before key `i`. */
  ghost predicate Built(base: nat, sizeCluster: nat, ks: seq<string>, i: nat, b: Build, groups: seq<seq<string>>) {
    && CutSoFar(ks, sizeCluster, i, b.part, groups)
    && b.subs == Served(base, groups) && |b.subs| + |b.part| <= i
    && b.id == base + |groups|
    && b.size == sizeCluster - |b.part| && (sizeCluster > 0 ==> b.size > 0)
  }

  /** The clusters after one more key. */
  ghost function GroupsAfter(sizeCluster: nat, part: seq<string>, k: string, groups: seq<seq<string>>)
    : seq<seq<string>>
  {
    if |part| + 1 == sizeCluster then groups + [part + [k]] else groups
  }

  /** One candidate: a full cluster becomes a sub-channel. */
  method CollectCandidate(base: nat, sizeCluster: nat, limit: nat, ks: seq<string>, i: nat, b: Build,
                          ghost groups: seq<seq<string>>)
    returns (r: Build)
    requires i < |ks| <= limit && Built(base, sizeCluster, ks, i, b, groups)
    ensures Built(base, sizeCluster, ks, i + 1, r, GroupsAfter(sizeCluster, b.part, ks[i], groups))
  {
    var more := b.(size := b.size - 1, part := b.part + [ks[i]]);
    StillCollecting(base, sizeCluster, ks, i, b, groups, more);
    if more.size == 0 {
      r := CompleteCluster(base, limit, ks, i + 1, more.(id := more.id + 1, size := sizeCluster), groups);
    } else {
      r := more;
    }
  }

  /** The collected servers become a sub-channel while the limit allows. */
  method CompleteCluster(base: nat, limit: nat, ks: seq<string>, i: nat, b: Build, ghost groups: seq<seq<string>>)
    returns (r: Build)
    requires |b.part| == b.size > 0 && CutSoFar(ks, b.size, i, b.part, groups) && i <= limit
    requires b.id == base + |groups| + 1 && |b.subs| + |b.part| <= i && b.subs == Served(base, groups)
    ensures Built(base, b.size, ks, i, r, groups + [b.part])
  {
    r := b;
    if |b.part| == b.size && |b.subs| < limit {
      var subs := AssignCluster(b.subs, b.part, b.id, base, groups);
      ClusterBuilt(base, ks, i, b, subs, groups);
      r := b.(subs := subs, part := []);
    }
  }

  lemma StillCollecting(base: nat, sizeCluster: nat, ks: seq<string>, i: nat, b: Build, groups: seq<seq<string>>,
                        more: Build)
    requires i < |ks| && Built(base, sizeCluster, ks, i, b, groups)
    requires more == b.(size := b.size - 1, part := b.part + [ks[i]])
    ensures more.subs == Served(base, groups) && |more.subs| + |more.part| <= i + 1 && more.id == base + |groups|
    ensures CutSoFar(ks, sizeCluster, i + 1, more.part, groups)
    ensures more.size == 0 <==> |b.part| + 1 == sizeCluster
    ensures more.size == 0 ==> |more.part| == sizeCluster > 0
    ensures more.size != 0 ==> Built(base, sizeCluster, ks, i + 1, more, groups)
  {
    OneCollected(ks, sizeCluster, i, b.part, groups);
  }

  lemma ClusterBuilt(base: nat, ks: seq<string>, i: nat, b: Build, subs: map<string, nat>, groups: seq<seq<string>>)
    requires |b.part| == b.size > 0 && CutSoFar(ks, b.size, i, b.part, groups)
    requires b.id == base + |groups| + 1 && |b.subs| + |b.part| <= i
    requires subs == Served(base, groups + [b.part]) && |subs| <= |b.subs| + |b.part|
    ensures Built(base, b.size, ks, i, b.(subs := subs, part := []), groups + [b.part])
  {
    ClusterComplete(ks, b.size, i, b.part, groups);
  }

  /** Collects candidates in key order and makes a sub-channel of every full cluster. */
  method BuildClusters(channelId: nat, sizeCluster: nat, limit: nat, ks: seq<string>) returns (subs: map<string, nat>)
    requires |ks| <= limit
    ensures subs == Served(channelId, Clusters(ks, sizeCluster))
  {
    var b := Build(map[], [], sizeCluster, channelId);
    ghost var groups: seq<seq<string>> := [];
    NothingCut(ks, sizeCluster);
    for i := 0 to |ks|
      invariant Built(channelId, sizeCluster, ks, i, b, groups)
    {
      ghost var next := GroupsAfter(sizeCluster, b.part, ks[i], groups);
      b := CollectCandidate(channelId, sizeCluster, limit, ks, i, b, groups);
      groups := next;
    }
    NoMoreClusters(ks, sizeCluster, b.part, groups);
    subs := b.subs;
  }

  /** The inner loop: every server of the cluster serves the new sub-channel. */
  method AssignCluster(subs: map<string, nat>, servers: seq<string>, id: nat, ghost base: nat,
                       ghost groups: seq<seq<string>>)
    returns (r: map<string, nat>)
    requires subs == Served(base, groups) && id == base + 1 + |groups|
    ensures r == Served(base, groups + [servers]) && |r| <= |subs| + |servers|
  {
    r := subs;
    for pos := 0 to |servers|
      invariant r == subs + AllServe(servers[..pos], id)
    {
      assert servers[..pos + 1] == servers[..pos] + [servers[pos]];
      r := r[servers[pos] := id];
    }
    assert servers[..|servers|] == servers;
    ServedGrows(base, groups, servers, id);
    FewServers(subs, servers, id);
  }

  lemma ServedGrows(base: nat, groups: seq<seq<string>>, last: seq<string>, id: nat)
    requires id == base + 1 + |groups|
    ensures Served(base, groups) + AllServe(last, id) == Served(base, groups + [last])
  {
    assert (groups + [last])[..|groups|] == groups;
  }

  lemma FewServers(subs: map<string, nat>, servers: seq<string>, id: nat)
    ensures |subs + AllServe(servers, id)| <= |subs| + |servers|
  {
    var m := subs + AllServe(servers, id);
    assert m.Keys <= subs.Keys + ToSet(servers);
    SubsetCard(m.Keys, subs.Keys + ToSet(servers));
    FewElements(servers);
  }

  lemma {:induction false} FewElements(s: seq<string>)
    ensures |ToSet(s)| <= |s|
  {
    if s != [] {
      var n := |s| - 1;
      FewElements(s[..n]);
      assert s == s[..n] + [s[n]];
      assert ToSet(s) == ToSet(s[..n]) + {s[n]};
    }
  }

  lemma FirstMatch(ks: seq<string>, i: nat, wanted: set<string>)
    requires Sorted(ks) && i < |ks| && wanted <= ToSet(ks) && ks[i] in wanted
    requires forall j :: 0 <= j < i ==> ks[j] !in wanted
    ensures Least(wanted) == ks[i]
  {
    forall k | k in wanted && k != ks[i] ensures Less(ks[i], k) {
      assert k in ToSet(ks);
      var j :| 0 <= j < |ks| && ks[j] == k;
    }
    LeastIsUnique(wanted, Least(wanted), ks[i]);
  }

  lemma AboveShrinks(s: set<string>, p: string)
    ensures Next(s, p).Some? ==> |Above(s, Next(s, p).value)| < |Above(s, p)|
  {
    if Next(s, p).Some? {
      var q := Next(s, p).value;
      StrictTotalOrder();
      assert Above(s, q) <= Above(s, p) - {q};
      SubsetCard(Above(s, q), Above(s, p) - {q});
    }
  }

  lemma NextClusterCut(ks: seq<string>, i: nat, size: nat, last: seq<string>, groups: seq<seq<string>>)
    requires size > 0 && size <= i <= |ks| && last == ks[i - size..i]
    ensures groups + Clusters(ks[i - size..], size) == groups + [last] + Clusters(ks[i..], size)
  {
    assert ks[i - size..][..size] == last && ks[i - size..][size..] == ks[i..];
  }
}
