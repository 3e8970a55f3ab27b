/**
 Where newcomers go during a flash crowd: the clusters that the mode change builds, the even
 filling of the sub-channels, and the exact condition under which a newcomer is turned away to
 the main network.
 */
module ChannelBalance {
  import opened Arithmetic
  import opened Keys
  import opened ChannelModel
  import opened ChannelInvariant

  // ---- turned away only when everything is full --------------------------------------

  /** In every reachable flash-crowd state, departures or not: a newcomer goes to the main network
      iff every sub-channel is full, and otherwise to one with room; nobody else moves. */
  lemma MainNetworkOnlyWhenFull(c: Config, s: State, p: string, peer: Peer)
    requires Reached(c, s) && s.mode == FlashCrowd && p !in s.peers
    ensures var t := AddPeer(c, s, p, peer);
            && t.peers == s.peers[p := t.peers[p]]
            && (t.peers[p].subId == c.channelId
                <==> forall k :: k in s.subs ==> Load(s.peers, s.subs[k]) >= c.maxPeerInSubChannel)
            && (t.peers[p].subId != c.channelId ==>
                  exists k :: k in s.subs && t.peers[p].subId == s.subs[k]
                              && Load(s.peers, s.subs[k]) < c.maxPeerInSubChannel)
  {
    ReachedInv(c, s);
    if s.subs != map[] {
      var k := Current(s);
      assert k in s.subs;
      if WithRoom(c, s) != {} {
        var l := if k in WithRoom(c, s) then k else Least(WithRoom(c, s));
        assert l in WithRoom(c, s) && s.subs[l] != c.channelId;
      }
      assert forall q :: q in s.subs && Load(s.peers, s.subs[q]) < c.maxPeerInSubChannel ==> q in WithRoom(c, s);
    }
  }

  /** No sub-channel of a reachable flash-crowd state exceeds its limit. */
  lemma LoadsBounded(c: Config, s: State, k: string)
    requires Reached(c, s) && s.mode == FlashCrowd && k in s.subs
    ensures Load(s.peers, s.subs[k]) <= c.maxPeerInSubChannel
  {
    ReachedInv(c, s);
  }

  // ---- the clusters built by the mode change ------------------------------------------

  function Flatten(groups: seq<seq<string>>): seq<string> {
    if groups == [] then [] else groups[0] + Flatten(groups[1..])
  }

  /** Clusters of exactly `size` keys that follow each other from the start of the key order, and
      leave over less than one cluster. */
  ghost predicate CutInto(ks: seq<string>, size: nat, groups: seq<seq<string>>) {
    && (forall q :: 0 <= q < |groups| ==> |groups[q]| == size)
    && Flatten(groups) <= ks
    && |ks| - |Flatten(groups)| < size
  }

  lemma {:induction false} ClustersCutKeys(ks: seq<string>, size: nat)
    requires size > 0
    ensures CutInto(ks, size, Clusters(ks, size))
    decreases |ks|
  {
    if |ks| >= size {
      ClustersCutKeys(ks[size..], size);
      assert Clusters(ks, size)[1..] == Clusters(ks[size..], size);
      assert ks == ks[..size] + ks[size..];
    }
  }

  lemma {:induction false} FlattenLength(groups: seq<seq<string>>, size: nat)
    requires forall q :: 0 <= q < |groups| ==> |groups[q]| == size
    ensures |Flatten(groups)| == |groups| * size
  {
    if groups != [] {
      FlattenLength(groups[1..], size);
      OneMore(|groups| - 1, size);
    }
  }

  ghost predicate AllBefore(a: seq<string>, b: seq<string>) {
    forall k, l :: k in a && l in b ==> Less(k, l)
  }

  /** Every group is in order, and lies before every later group. */
  ghost predicate Ordered(groups: seq<seq<string>>) {
    && (forall q :: 0 <= q < |groups| ==> Sorted(groups[q]))
    && (forall q, r :: 0 <= q < r < |groups| ==> AllBefore(groups[q], groups[r]))
  }

  lemma SortedConcat(a: seq<string>, b: seq<string>)
    requires Sorted(a + b)
    ensures Sorted(a) && Sorted(b) && AllBefore(a, b)
  {
    forall i, j | 0 <= i < j < |a| ensures Less(a[i], a[j]) { assert (a + b)[i] == a[i] && (a + b)[j] == a[j]; }
    forall i, j | 0 <= i < j < |b| ensures Less(b[i], b[j]) {
      assert (a + b)[|a| + i] == b[i] && (a + b)[|a| + j] == b[j];
    }
    forall k, l | k in a && l in b ensures Less(k, l) {
      var i :| 0 <= i < |a| && a[i] == k;
      var j :| 0 <= j < |b| && b[j] == l;
      assert (a + b)[i] == k && (a + b)[|a| + j] == l;
    }
  }

  lemma {:induction false} InFlatten(groups: seq<seq<string>>, q: nat, k: string)
    requires q < |groups| && k in groups[q]
    ensures k in Flatten(groups)
  {
    if q > 0 { InFlatten(groups[1..], q - 1, k); }
  }

  lemma {:induction false} GroupsOrdered(groups: seq<seq<string>>)
    requires Sorted(Flatten(groups))
    ensures Ordered(groups)
  {
    if groups != [] {
      var rest := groups[1..];
      SortedConcat(groups[0], Flatten(rest));
      GroupsOrdered(rest);
      forall q | 0 <= q < |groups| ensures Sorted(groups[q]) { if q > 0 { assert Sorted(rest[q - 1]); } }
      forall q, r | 0 <= q < r < |groups| ensures AllBefore(groups[q], groups[r]) {
        if q > 0 {
          assert AllBefore(rest[q - 1], rest[r - 1]);
        } else {
          forall l | l in groups[r] ensures l in Flatten(rest) { InFlatten(rest, r - 1, l); }
        }
      }
    }
  }

  ghost predicate InGroup(groups: seq<seq<string>>, q: int, k: string) {
    0 <= q < |groups| && k in groups[q]
  }

  ghost predicate Serving(base: nat, subs: map<string, nat>, groups: seq<seq<string>>) {
    forall q, k :: InGroup(groups, q, k) ==> k in subs && subs[k] == base + 1 + q
  }

  ghost predicate Covered(base: nat, subs: map<string, nat>, groups: seq<seq<string>>) {
    forall k :: k in subs ==> InGroup(groups, subs[k] - base - 1, k)
  }

  /** The groups of servers behind a map of sub-channels, contiguous in key order: group `q` is
      exactly the set of servers of sub-channel `base + 1 + q`. */
  ghost predicate Grouped(base: nat, subs: map<string, nat>, groups: seq<seq<string>>) {
    && Ordered(groups)
    && (forall q :: 0 <= q < |groups| ==> groups[q] != [])
    && Serving(base, subs, groups)
    && Covered(base, subs, groups)
  }

  lemma {:induction false} ServedBy(base: nat, groups: seq<seq<string>>, q: nat, k: string)
    requires Ordered(groups) && q < |groups| && k in groups[q]
    ensures k in Served(base, groups) && Served(base, groups)[k] == base + 1 + q
  {
    var n := |groups| - 1;
    var front := groups[..n];
    if q < n {
      assert forall r :: 0 <= r < n ==> front[r] == groups[r];
      ServedBy(base, front, q, k);
      assert AllBefore(groups[q], groups[n]);
      if k in groups[n] { LessIsAsymmetric(k, k); }
    }
  }

  lemma {:induction false} ServesSome(base: nat, groups: seq<seq<string>>, k: string)
    requires k in Served(base, groups)
    ensures var id := Served(base, groups)[k]; base < id <= base + |groups| && k in groups[id - base - 1]
  {
    var n := |groups| - 1;
    if k !in groups[n] {
      ServesSome(base, groups[..n], k);
    }
  }

  lemma ServedServing(base: nat, groups: seq<seq<string>>)
    requires Ordered(groups)
    ensures Serving(base, Served(base, groups), groups)
  {
    forall q, k | InGroup(groups, q, k)
      ensures k in Served(base, groups) && Served(base, groups)[k] == base + 1 + q
    {
      ServedBy(base, groups, q, k);
    }
  }

  lemma ServedCovered(base: nat, groups: seq<seq<string>>)
    ensures Covered(base, Served(base, groups), groups)
  {
    forall k | k in Served(base, groups) ensures InGroup(groups, Served(base, groups)[k] - base - 1, k) {
      ServesSome(base, groups, k);
    }
  }

  lemma ClusterCount(ks: seq<string>, size: nat, groups: seq<seq<string>>)
    requires size > 0 && CutInto(ks, size, groups)
    ensures |groups| == |ks| / size
  {
    FlattenLength(groups, size);
    DivModUnique(|ks|, |groups|, |ks| - |groups| * size, size);
  }

  lemma PrefixSorted(a: seq<string>, ks: seq<string>)
    requires a <= ks && Sorted(ks)
    ensures Sorted(a)
  {
  }

  /**
   The mode change builds |candidates| / sizeCluster sub-channels with consecutive ids, each
   served by exactly sizeCluster candidates that follow each other in key order.
   */
  lemma CreatedClusters(c: Config, s: State, groups: seq<seq<string>>)
    requires c.sizeCluster > 0 && groups == Clusters(SortedKeys(s.cands.Keys), c.sizeCluster)
    ensures CutInto(SortedKeys(s.cands.Keys), c.sizeCluster, groups)
    ensures |groups| == |s.cands| / c.sizeCluster
    ensures Grouped(c.channelId, CreateAll(c, s).subs, groups)
  {
    var ks := SortedKeys(s.cands.Keys);
    ClustersCutKeys(ks, c.sizeCluster);
    ClusterCount(ks, c.sizeCluster, groups);
    PrefixSorted(Flatten(groups), ks);
    GroupsOrdered(groups);
    assert forall q :: 0 <= q < |groups| ==> |groups[q]| > 0;
    ServedServing(c.channelId, groups);
    ServedCovered(c.channelId, groups);
  }

  // ---- the cursor over the clusters ----------------------------------------------------

  lemma LeastIs(s: set<string>, m: string)
    requires IsLeast(m, s)
    ensures Least(s) == m
  {
    LeastIsUnique(s, Least(s), m);
  }

  lemma FirstServer(base: nat, subs: map<string, nat>, groups: seq<seq<string>>)
    requires Grouped(base, subs, groups) && groups != []
    ensures subs != map[] && Least(subs.Keys) == groups[0][0]
  {
    var f := groups[0][0];
    assert InGroup(groups, 0, f);
    forall k | k in subs && k != f ensures Less(f, k) { AfterFirst(groups, 0, subs[k] - base - 1, k); }
    LeastIs(subs.Keys, f);
  }

  /** The first key of a group is before every other key of its own and of later groups. */
  lemma AfterFirst(groups: seq<seq<string>>, q: nat, r: int, k: string)
    requires Ordered(groups) && q < |groups| && groups[q] != [] && q <= r && InGroup(groups, r, k)
    requires k != groups[q][0]
    ensures Less(groups[q][0], k)
  {
    if r == q {
      var i :| 0 <= i < |groups[q]| && groups[q][i] == k;
      assert Sorted(groups[q]);
    } else {
      assert AllBefore(groups[q], groups[r]);
      assert groups[q][0] in groups[q];
    }
  }

  lemma LaterGroup(base: nat, subs: map<string, nat>, groups: seq<seq<string>>, q: nat, k: string)
    requires Grouped(base, subs, groups) && q < |groups| && groups[q][0] in subs
    requires k in OtherClusters(subs, groups[q][0])
    ensures q < subs[k] - base - 1 && InGroup(groups, subs[k] - base - 1, k)
  {
    var f, r := groups[q][0], subs[k] - base - 1;
    assert InGroup(groups, q, f);
    assert InGroup(groups, r, k);
    if r < q {
      assert AllBefore(groups[r], groups[q]);
      LessIsAsymmetric(k, f);
    }
  }

  /** The cursor walks over the first servers of the clusters, cyclically. */
  lemma CursorStep(base: nat, subs: map<string, nat>, groups: seq<seq<string>>, q: nat)
    requires Grouped(base, subs, groups) && q < |groups|
    ensures groups[q][0] in subs && subs[groups[q][0]] == base + 1 + q
    ensures NextCluster(subs, groups[q][0]) == groups[if q + 1 < |groups| then q + 1 else 0][0]
    ensures NextCluster(subs, groups[q][0]) in subs
  {
    var f := groups[q][0];
    assert InGroup(groups, q, f);
    var others := OtherClusters(subs, f);
    if q + 1 < |groups| {
      var g := groups[q + 1][0];
      assert InGroup(groups, q + 1, g);
      assert AllBefore(groups[q], groups[q + 1]);
      assert g in others;
      forall k | k in others && k != g ensures Less(g, k) {
        LaterGroup(base, subs, groups, q, k);
        AfterFirst(groups, q + 1, subs[k] - base - 1, k);
      }
      LeastIs(others, g);
    } else {
      forall k | k in others ensures false { LaterGroup(base, subs, groups, q, k); }
      assert others == {};
      FirstServer(base, subs, groups);
    }
  }

  // ---- even filling --------------------------------------------------------------------

  /** The load of sub-channel number `i`. */
  ghost function LoadOf(c: Config, s: State, i: nat): nat {
    Load(s.peers, c.channelId + 1 + i)
  }

  ghost predicate Levels(c: Config, s: State, K: nat, rounds: nat, r: nat) {
    forall i :: 0 <= i < K ==> LoadOf(c, s, i) == rounds + if i < r then 1 else 0
  }

  /** `rounds` full rounds are done and the first `r` clusters already have their next peer. */
  ghost predicate Round(c: Config, s: State, groups: seq<seq<string>>, rounds: nat, r: nat) {
    && s.mode == FlashCrowd && CursorValid(s) && s.subs != map[]
    && r < |groups| && Grouped(c.channelId, s.subs, groups)
    && Levels(c, s, |groups|, rounds, r)
    && (rounds < c.maxPeerInSubChannel ==> Current(s) == groups[r][0])
    && (rounds < c.maxPeerInSubChannel || (rounds == c.maxPeerInSubChannel && r == 0))
  }

  lemma FlashCrowdClusters(c: Config, s: State, selected: set<string>, groups: seq<seq<string>>)
    requires Inv(c, s) && s.mode == Normal && Drawn(c, s, selected) && c.sizeCluster > 0
    requires groups == Clusters(SortedKeys(selected), c.sizeCluster)
    ensures |groups| == |selected| / c.sizeCluster
    ensures Grouped(c.channelId, SetFlashCrowd(c, s, selected).subs, groups)
  {
    var t := SetFlashCrowd(c, s, selected);
    var drawn := s.(cands := t.cands);
    assert t.cands.Keys == selected && |drawn.cands| == |selected|;
    assert t.subs == CreateAll(c, drawn).subs;
    CreatedClusters(c, drawn, groups);
  }

  lemma StartOfRounds(c: Config, t: State, groups: seq<seq<string>>)
    requires t.mode == FlashCrowd && Grouped(c.channelId, t.subs, groups) && groups != []
    requires t.subs != map[] ==> t.cursor == Some(Least(t.subs.Keys))
    requires forall p :: p in t.peers ==> t.peers[p].subId == c.channelId
    ensures Round(c, t, groups, 0, 0)
  {
    FirstServer(c.channelId, t.subs, groups);
    forall i | 0 <= i < |groups| ensures LoadOf(c, t, i) == 0 {
      assert Members(t.peers, c.channelId + 1 + i) == {};
    }
  }

  /** The mode change starts an empty first round. */
  lemma FlashCrowdStartsRound(c: Config, s: State, selected: set<string>, groups: seq<seq<string>>)
    requires Inv(c, s) && s.mode == Normal && Drawn(c, s, selected) && c.sizeCluster > 0
    requires groups == Clusters(SortedKeys(selected), c.sizeCluster) && groups != []
    ensures Round(c, SetFlashCrowd(c, s, selected), groups, 0, 0)
  {
    SetFlashCrowdPlaces(c, s, selected);
    FlashCrowdClusters(c, s, selected, groups);
    StartOfRounds(c, SetFlashCrowd(c, s, selected), groups);
  }

  /** The insertion at the cursor raises one level. */
  lemma InsertRaisesLevel(c: Config, s: State, K: nat, rounds: nat, r: nat, p: string, peer: Peer, k: string)
    requires Levels(c, s, K, rounds, r) && r < K && p !in s.peers
    requires k in s.subs && s.subs[k] == c.channelId + 1 + r
    ensures Levels(c, Insert(s, p, peer, k), K, rounds, r + 1)
  {
    var t := Insert(s, p, peer, k);
    forall i | 0 <= i < K ensures LoadOf(c, t, i) == rounds + if i < r + 1 then 1 else 0 {
      assert LoadOf(c, s, i) == rounds + if i < r then 1 else 0;
      LoadAfterArrival(s.peers, p, t.peers[p], c.channelId + 1 + i);
    }
  }

  /** In a round the next peer goes to the first server of the cluster whose turn it is. */
  lemma RoundInsertion(c: Config, s: State, groups: seq<seq<string>>, rounds: nat, r: nat, p: string, peer: Peer)
    requires Round(c, s, groups, rounds, r) && p !in s.peers && rounds < c.maxPeerInSubChannel
    ensures groups[r] != [] && groups[r][0] in s.subs && s.subs[groups[r][0]] == c.channelId + 1 + r
    ensures AddPeer(c, s, p, peer) == Insert(s, p, peer, groups[r][0])
  {
    CursorStep(c.channelId, s.subs, groups, r);
    assert LoadOf(c, s, r) == rounds;
    assert groups[r][0] in WithRoom(c, s);
  }

  lemma RoundStep(c: Config, s: State, groups: seq<seq<string>>, rounds: nat, r: nat, p: string, peer: Peer)
    requires Round(c, s, groups, rounds, r) && p !in s.peers && rounds < c.maxPeerInSubChannel
    ensures if r + 1 < |groups| then Round(c, AddPeer(c, s, p, peer), groups, rounds, r + 1)
            else Round(c, AddPeer(c, s, p, peer), groups, rounds + 1, 0)
  {
    RoundInsertion(c, s, groups, rounds, r, p, peer);
    var t := Insert(s, p, peer, groups[r][0]);
    InsertRaisesLevel(c, s, |groups|, rounds, r, p, peer, groups[r][0]);
    CursorStep(c.channelId, s.subs, groups, r);
    if r + 1 == |groups| { LevelsFull(c, t, |groups|, rounds); }
  }

  lemma LevelsFull(c: Config, t: State, K: nat, rounds: nat)
    requires Levels(c, t, K, rounds, K)
    ensures Levels(c, t, K, rounds + 1, 0)
  {
    forall i | 0 <= i < K ensures LoadOf(c, t, i) == rounds + 1 {
      assert LoadOf(c, t, i) == rounds + if i < K then 1 else 0;
    }
  }

  lemma FullEverywhere(c: Config, s: State, groups: seq<seq<string>>)
    requires Covered(c.channelId, s.subs, groups) && Levels(c, s, |groups|, c.maxPeerInSubChannel, 0)
    ensures WithRoom(c, s) == {}
  {
    forall k | k in s.subs ensures k !in WithRoom(c, s) {
      assert InGroup(groups, s.subs[k] - c.channelId - 1, k);
      assert LoadOf(c, s, s.subs[k] - c.channelId - 1) == c.maxPeerInSubChannel;
    }
  }

  lemma FullStep(c: Config, s: State, groups: seq<seq<string>>, rounds: nat, p: string, peer: Peer)
    requires Round(c, s, groups, rounds, 0) && p !in s.peers && rounds == c.maxPeerInSubChannel
    ensures Round(c, AddPeer(c, s, p, peer), groups, rounds, 0)
    ensures AddPeer(c, s, p, peer).peers[p].subId == c.channelId
  {
    FullEverywhere(c, s, groups);
    var t := AddPeer(c, s, p, peer);
    forall i | 0 <= i < |groups| ensures LoadOf(c, t, i) == rounds {
      assert LoadOf(c, s, i) == rounds;
      LoadAfterArrival(s.peers, p, t.peers[p], c.channelId + 1 + i);
    }
  }

  // ---- any run of arrivals ---------------------------------------------------------------

  datatype Arrival = Arrival(p: string, peer: Peer)

  ghost function Names(arrivals: seq<Arrival>): set<string> {
    if arrivals == [] then {} else Names(arrivals[..|arrivals| - 1]) + {arrivals[|arrivals| - 1].p}
  }

  /** The arriving peers are new and distinct. */
  ghost predicate Fresh(s: State, arrivals: seq<Arrival>) {
    arrivals == []
    || (var n := |arrivals| - 1;
        Fresh(s, arrivals[..n]) && arrivals[n].p !in s.peers.Keys + Names(arrivals[..n]))
  }

  lemma AddPeerKeepsCursor(c: Config, s: State, p: string, peer: Peer)
    requires CursorValid(s)
    ensures CursorValid(AddPeer(c, s, p, peer))
    ensures AddPeer(c, s, p, peer).peers.Keys == s.peers.Keys + {p}
  {
  }

  ghost function AllArrive(c: Config, s: State, arrivals: seq<Arrival>): (t: State)
    requires CursorValid(s)
    ensures CursorValid(t) && t.peers.Keys == s.peers.Keys + Names(arrivals)
  {
    if arrivals == [] then s
    else
      var n := |arrivals| - 1;
      var t := AllArrive(c, s, arrivals[..n]);
      AddPeerKeepsCursor(c, t, arrivals[n].p, arrivals[n].peer);
      AddPeer(c, t, arrivals[n].p, arrivals[n].peer)
  }

  /** How many of `n` arrivals the sub-channels take. */
  function Taken(c: Config, clusters: nat, n: nat): nat {
    if n <= clusters * c.maxPeerInSubChannel then n else clusters * c.maxPeerInSubChannel
  }

  /** Full rounds and clusters served in the current one after `n` arrivals. */
  ghost function Progress(c: Config, K: nat, n: nat): (nat, nat) {
    if n == 0 then (0, 0)
    else
      var (rounds, r) := Progress(c, K, n - 1);
      if rounds == c.maxPeerInSubChannel then (rounds, r)
      else if r + 1 < K then (rounds, r + 1) else (rounds + 1, 0)
  }

  lemma {:induction false} ProgressCounts(c: Config, K: nat, n: nat)
    requires K > 0
    ensures var (rounds, r) := Progress(c, K, n);
            && r < K && (rounds < c.maxPeerInSubChannel || (rounds == c.maxPeerInSubChannel && r == 0))
            && Taken(c, K, n) == rounds * K + r
  {
    if n > 0 {
      ProgressCounts(c, K, n - 1);
      var (rounds, r) := Progress(c, K, n - 1);
      if rounds < c.maxPeerInSubChannel {
        MulMonotone(rounds + 1, c.maxPeerInSubChannel, K);
        OneMore(rounds, K);
      }
    }
  }

  /** Induction over arrivals, for any property of the channel and the number of arrivals. */
  lemma {:induction false} ArrivalInduction(c: Config, s: State, arrivals: seq<Arrival>, P: (State, nat) -> bool)
    requires CursorValid(s) && Fresh(s, arrivals) && P(s, 0)
    requires forall t: State, n: nat, p: string, peer: Peer :: P(t, n) && CursorValid(t) && p !in t.peers
               ==> P(AddPeer(c, t, p, peer), n + 1)
    ensures P(AllArrive(c, s, arrivals), |arrivals|)
  {
    if arrivals != [] {
      ArrivalInduction(c, s, arrivals[..|arrivals| - 1], P);
    }
  }

  lemma ArrivalsFillRounds(c: Config, s: State, groups: seq<seq<string>>, arrivals: seq<Arrival>)
    requires CursorValid(s) && Fresh(s, arrivals) && Round(c, s, groups, 0, 0)
    ensures Follows(c, AllArrive(c, s, arrivals), groups, |arrivals|)
  {
    var P := (t: State, n: nat) => Follows(c, t, groups, n);
    forall t: State, n: nat, p: string, peer: Peer | P(t, n) && CursorValid(t) && p !in t.peers
      ensures P(AddPeer(c, t, p, peer), n + 1)
    {
      FollowsStep(c, t, groups, n, p, peer);
    }
    ArrivalInduction(c, s, arrivals, P);
  }

  lemma FollowsStep(c: Config, t: State, groups: seq<seq<string>>, n: nat, p: string, peer: Peer)
    requires Follows(c, t, groups, n) && CursorValid(t) && p !in t.peers
    ensures Follows(c, AddPeer(c, t, p, peer), groups, n + 1)
  {
    var (rounds, r) := Progress(c, |groups|, n);
    var (rounds', r') := Progress(c, |groups|, n + 1);
    RoundAdvances(c, t, groups, rounds, r, rounds', r', p, peer);
  }

  lemma RoundAdvances(c: Config, s: State, groups: seq<seq<string>>, rounds: nat, r: nat,
                      rounds': nat, r': nat, p: string, peer: Peer)
    requires Round(c, s, groups, rounds, r) && p !in s.peers
    requires (rounds', r') == if rounds == c.maxPeerInSubChannel then (rounds, r)
                              else if r + 1 < |groups| then (rounds, r + 1) else (rounds + 1, 0)
    ensures Round(c, AddPeer(c, s, p, peer), groups, rounds', r')
  {
    if rounds == c.maxPeerInSubChannel {
      FullStep(c, s, groups, rounds, p, peer);
    } else if r + 1 < |groups| {
      RoundStep(c, s, groups, rounds, r, p, peer);
      assert rounds' == rounds && r' == r + 1;
    } else {
      RoundStep(c, s, groups, rounds, r, p, peer);
      assert rounds' == rounds + 1 && r' == 0;
    }
  }

  lemma FollowsLevel(c: Config, s: State, groups: seq<seq<string>>, n: nat, i: nat)
    requires Follows(c, s, groups, n) && i < |groups|
    ensures var (rounds, r) := Progress(c, |groups|, n);
            LoadOf(c, s, i) == rounds + if i < r then 1 else 0
  {
  }

  ghost predicate Follows(c: Config, s: State, groups: seq<seq<string>>, n: nat) {
    var (rounds, r) := Progress(c, |groups|, n);
    Round(c, s, groups, rounds, r)
  }

  /**
   From the clusters just created, any run of arrivals of new peers keeps the loads of the
   sub-channels within one of each other: sub-channel i has n / K peers, and one more for the
   first n % K of the K sub-channels, where n is the number of arrivals cut at K times the limit.
   */
  lemma BalancedPlacement(c: Config, s: State, selected: set<string>, arrivals: seq<Arrival>, i: nat)
    requires Reached(c, s) && s.mode == Normal && Drawn(c, s, selected)
    requires c.sizeCluster > 0 && i < |selected| / c.sizeCluster
    requires Fresh(s, arrivals)
    ensures var K := |selected| / c.sizeCluster;
            var n := Taken(c, K, |arrivals|);
            var crowd := SetFlashCrowd(c, s, selected);
            && CursorValid(crowd)
            && LoadOf(c, AllArrive(c, crowd, arrivals), i) == n / K + if i < n % K then 1 else 0
  {
    var crowd := SetFlashCrowd(c, s, selected);
    var groups := Clusters(SortedKeys(selected), c.sizeCluster);
    ReachedInv(c, s);
    SetFlashCrowdPlaces(c, s, selected);
    FlashCrowdClusters(c, s, selected, groups);
    FlashCrowdStartsRound(c, s, selected, groups);
    FreshFrame(s, crowd, arrivals);
    LevelsAfterArrivals(c, crowd, groups, arrivals, i);
  }

  lemma LevelsAfterArrivals(c: Config, s: State, groups: seq<seq<string>>, arrivals: seq<Arrival>, i: nat)
    requires CursorValid(s) && Fresh(s, arrivals) && Round(c, s, groups, 0, 0) && i < |groups|
    ensures var n := Taken(c, |groups|, |arrivals|);
            LoadOf(c, AllArrive(c, s, arrivals), i) == n / |groups| + if i < n % |groups| then 1 else 0
  {
    ArrivalsFillRounds(c, s, groups, arrivals);
    FollowsLevel(c, AllArrive(c, s, arrivals), groups, |arrivals|, i);
    ProgressQuotient(c, |groups|, |arrivals|);
  }

  lemma ProgressQuotient(c: Config, K: nat, n: nat)
    requires K > 0
    ensures Progress(c, K, n) == (Taken(c, K, n) / K, Taken(c, K, n) % K)
  {
    ProgressCounts(c, K, n);
    var (rounds, r) := Progress(c, K, n);
    DivModUnique(rounds * K + r, rounds, r, K);
  }

  lemma {:induction false} FreshFrame(s: State, t: State, arrivals: seq<Arrival>)
    requires Fresh(s, arrivals) && t.peers.Keys == s.peers.Keys
    ensures Fresh(t, arrivals)
  {
    if arrivals != [] { FreshFrame(s, t, arrivals[..|arrivals| - 1]); }
  }
}
