/**
 Merging the sub-channels: one call for all servers does what one call per server does, and once every
 server has been told, no peer is left in a sub-channel of its own.
 */
module ChannelMerging {
  import opened AuxStates
  import opened Keys
  import opened ChannelModel
  import opened ChannelInvariant

  // ---- one by one ------------------------------------------------------------------------

  /** `n` calls that merge one server each. */
  function MergedOneByOne(s: State, n: nat): State
    decreases n
  {
    if n == 0 then s else MergedOneByOne(SetMerging(s, true), n - 1)
  }

  lemma MergingTwice(s: State, first: set<string>, second: set<string>)
    requires first + second <= s.subs.Keys
    ensures MergedBy(MergedBy(s, first), second) == MergedBy(s, first + second)
  {
    var t, u, v := MergedBy(s, first), MergedBy(MergedBy(s, first), second), MergedBy(s, first + second);
    assert t.peers.Keys == s.peers.Keys && t.cands.Keys == s.cands.Keys && t.subs == s.subs;
    forall p | p in s.peers ensures u.peers[p] == v.peers[p] {
      PeerMergedTwice(s, first, second, p);
    }
    assert u.peers == v.peers;
    assert u.cands == v.cands;
  }

  lemma PeerMergedTwice(s: State, first: set<string>, second: set<string>, p: string)
    requires first + second <= s.subs.Keys && p in s.peers
    ensures MergedBy(MergedBy(s, first), second).peers[p] == MergedBy(s, first + second).peers[p]
  {
    var id := s.peers[p].subId;
    assert (exists k :: k in first + second && s.subs[k] == id)
           <==> (exists k :: k in first && s.subs[k] == id) || (exists k :: k in second && s.subs[k] == id);
  }

  lemma OneServerLess(s: State)
    requires ToMerge(s, false) != {}
    ensures var k := Least(ToMerge(s, false));
            && SetMerging(s, true) == MergedBy(s, {k}).(mode := Merging)
            && ToMerge(SetMerging(s, true), false) == ToMerge(s, false) - {k}
  {
  }

  /** `n` calls that merge one server each do what one call that merges all does if and only if there are at
      least as many calls as servers left, and there is a call or a merge is already under way. */
  lemma {:induction false} OneByOneMergesAll(s: State, n: nat)
    ensures MergedOneByOne(s, n) == SetMerging(s, false)
            <==> |ToMerge(s, false)| <= n && (n > 0 || s.mode == Merging)
    decreases n
  {
    var left := ToMerge(s, false);
    if n == 0 {
      if left == {} { NothingMerged(s); } else { SomethingMerged(s); }
    } else {
      var t := SetMerging(s, true);
      OneByOneMergesAll(t, n - 1);
      if left == {} {
        NothingMerged(s);
        NothingMerged(t);
      } else {
        OneServerLess(s);
        RestMerged(s);
      }
    }
  }

  lemma NothingMerged(s: State)
    ensures MergedBy(s, {}) == s
  {
    assert MergedBy(s, {}).peers == s.peers && MergedBy(s, {}).cands == s.cands;
  }

  lemma SomethingMerged(s: State)
    requires ToMerge(s, false) != {}
    ensures SetMerging(s, false) != s
  {
    var k :| k in ToMerge(s, false);
    assert SetMerging(s, false).cands[k].state != s.cands[k].state;
  }

  /** Merging one server and then the others is merging all. */
  lemma RestMerged(s: State)
    requires ToMerge(s, false) != {}
    ensures SetMerging(SetMerging(s, true), false) == SetMerging(s, false)
  {
    var left := ToMerge(s, false);
    var k := Least(left);
    var t := SetMerging(s, true);
    OneServerLess(s);
    MergingTwice(s, {k}, left - {k});
    assert {k} + (left - {k}) == left;
    assert MergedBy(t, left - {k}) == MergedBy(MergedBy(s, {k}), left - {k}).(mode := Merging);
  }

  // ---- what every run keeps -----------------------------------------------------------------

  ghost predicate Empty(s: State, id: int) {
    forall p :: p in s.peers ==> s.peers[p].subId != id
  }

  /** During a flash crowd every candidate is active; while merging, a server that was told has nobody left. */
  ghost predicate Told(s: State) {
    && (s.mode == FlashCrowd ==> forall k :: k in s.cands ==> s.cands[k].state == ServerAuxActive)
    && (s.mode == Merging ==>
          forall k :: k in s.subs && k in s.cands && s.cands[k].state == ServerAuxMesclar ==> Empty(s, s.subs[k]))
  }

  lemma JoinKeepsTold(c: Config, s: State, p: string, peer: Peer, candidate: bool)
    requires Inv(c, s) && Told(s)
    ensures Told(Joined(c, s, p, peer, candidate))
  {
    var t := if p in s.peers then s else AddPeer(c, s, p, peer);
    assert t.mode == s.mode && t.cands == s.cands;
  }

  lemma AnswerKeepsTold(s: State, p: string)
    requires Told(s)
    ensures Told(Answered(s, p))
  {
  }

  lemma MergingKeepsTold(c: Config, s: State, oneByOne: bool)
    requires Inv(c, s) && Told(s) && s.mode in {FlashCrowd, Merging}
    ensures Told(SetMerging(s, oneByOne))
  {
    var t, chosen := SetMerging(s, oneByOne), ToMerge(s, oneByOne);
    forall k | k in t.subs && k in t.cands && t.cands[k].state == ServerAuxMesclar ensures Empty(t, t.subs[k]) {
      forall p | p in t.peers ensures t.peers[p].subId != t.subs[k] {
        if k !in chosen { assert Empty(s, s.subs[k]); }
      }
    }
  }

  /** A removal sends peers only to the main network. */
  lemma RemoveMovesHome(c: Config, s: State, p: string, q: string)
    requires q in Remove(c, s, p).peers
    ensures q in s.peers && Remove(c, s, p).peers[q].subId in {s.peers[q].subId, c.channelId}
  {
  }

  lemma RemoveKeepsEmpty(c: Config, s: State, p: string, id: int)
    requires Empty(s, id) && id != c.channelId
    ensures Empty(Remove(c, s, p), id)
  {
    forall q | q in Remove(c, s, p).peers ensures Remove(c, s, p).peers[q].subId != id {
      RemoveMovesHome(c, s, p, q);
    }
  }

  lemma RemoveKeepsTold(c: Config, s: State, p: string)
    requires Inv(c, s) && Told(s)
    ensures Told(Remove(c, s, p))
  {
    var t := Remove(c, s, p);
    assert t.subs == s.subs - {p} && t.cands == s.cands - {p} && t.mode == s.mode;
    forall k | t.mode == Merging && k in t.subs && k in t.cands && t.cands[k].state == ServerAuxMesclar
      ensures Empty(t, t.subs[k])
    {
      RemoveKeepsEmpty(c, s, p, s.subs[k]);
    }
  }

  lemma {:induction false} RemoveAllKeepsTold(c: Config, s: State, ps: seq<string>)
    requires Inv(c, s) && Told(s)
    ensures Told(RemoveAll(c, s, ps))
  {
    if ps != [] {
      var front := ps[..|ps| - 1];
      RemoveAllKeepsTold(c, s, front);
      RemoveAllKeepsInv(c, s, front);
      RemoveKeepsTold(c, RemoveAll(c, s, front), ps[|ps| - 1]);
    }
  }

  lemma StepKeepsTold(c: Config, s: State, op: Op)
    requires Inv(c, s) && Legal(c, s, op) && Told(s)
    ensures Told(Step(c, s, op))
  {
    match op
    case Connect(p, peer, candidate) =>
      JoinKeepsTold(c, s, p, peer, candidate);
      AnswerKeepsTold(Joined(c, s, p, peer, candidate), p);
    case ChangeMode(mode, oneByOne, selected) =>
      if mode == Merging && s.mode != Normal { MergingKeepsTold(c, s, oneByOne); }
    case Check =>
      DecrementKeepsInv(c, s);
      RemoveAllKeepsTold(c, DecrementAll(s), SortedKeys(Expired(s)));
    case Ping(p) =>
  }

  lemma {:induction false} RunKeepsTold(c: Config, s: State, ops: seq<Op>)
    requires Inv(c, s) && LegalRun(c, s, ops) && Told(s)
    ensures Told(Run(c, s, ops))
    decreases |ops|
  {
    if ops != [] {
      StepKeepsInv(c, s, ops[0]);
      StepKeepsTold(c, s, ops[0]);
      RunKeepsTold(c, Step(c, s, ops[0]), ops[1..]);
    }
  }

  lemma ReachedTold(c: Config, s: State)
    requires Reached(c, s)
    ensures Inv(c, s) && Told(s)
  {
    var server: Peer, ops: seq<Op> :| ReachedBy(c, server, ops, s);
    InitialInv(c, server);
    RunKeepsTold(c, Initial(c, server), ops);
  }

  /** In every reachable state in which all servers have been told to merge, nobody is isolated any
      more: every peer is in the main network or merging. */
  lemma NobodyLeftBehind(c: Config, s: State, p: string)
    requires Reached(c, s) && s.mode == Merging && ToMerge(s, false) == {} && p in s.peers
    ensures s.peers[p].subId == c.channelId || s.peers[p].subId == -1
  {
    ReachedTold(c, s);
    forall k | k in s.subs ensures s.subs[k] != s.peers[p].subId {
      assert k !in ToMerge(s, false) && k in s.cands;
      assert Empty(s, s.subs[k]);
    }
  }
}
