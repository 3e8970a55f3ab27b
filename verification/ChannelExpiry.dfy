/**
 The soft state of the channel: what one expiry check does as a whole, and how long a peer that sends
 no ping stays.
 */
module ChannelExpiry {
  import opened Keys
  import opened ChannelModel
  import opened ChannelInvariant

  // ---- one check as a whole ------------------------------------------------------------

  /** Exactly the peers `gone` left, with their places as servers and candidates. */
  ghost predicate Fewer(s: State, t: State, gone: set<string>) {
    && t.mode == s.mode && t.peers.Keys == s.peers.Keys - gone && t.subs == s.subs - gone && t.cands == s.cands - gone
  }

  /** `t` is `s` without the peers `gone`: nobody else leaves, and a peer changes its network exactly if
      the last server of its sub-channel left. */
  ghost predicate Without(c: Config, s: State, t: State, gone: set<string>) {
    && Fewer(s, t, gone)
    && forall q :: q in t.peers ==> t.peers[q] == Rehomed(c, s, t, q)
  }

  ghost function Rehomed(c: Config, s: State, t: State, q: string): PeerData
    requires q in s.peers
  {
    var id := s.peers[q].subId;
    s.peers[q].(subId := if Live(s, id) && !Live(t, id) then c.channelId else id)
  }

  /** Which sub-channels a removal ends. */
  lemma LiveAfter(s: State, t: State, p: string, id: int)
    requires t.subs == s.subs - {p}
    ensures Live(t, id) ==> Live(s, id)
    ensures Live(s, id) && !Live(t, id) <==> p in s.subs && s.subs[p] == id && Finishing(s.subs, p)
  {
    if Live(s, id) {
      var k :| k in s.subs && s.subs[k] == id;
      if k != p { assert k in t.subs; }
      if p in s.subs && s.subs[p] == id && !Finishing(s.subs, p) {
        var k' :| k' in s.subs && k' != p && s.subs[k'] == id;
        assert k' in t.subs;
      }
    }
  }

  lemma RehomedByOne(c: Config, s: State, t: State, p: string, q: string)
    requires t.subs == s.subs - {p} && q in s.peers
    ensures Returned(c, s.peers, s.subs, p)[q] == Rehomed(c, s, t, q)
  {
    LiveAfter(s, t, p, s.peers[q].subId);
  }

  lemma OneRemoval(c: Config, s: State, p: string)
    ensures Without(c, s, Remove(c, s, p), {p})
  {
    var t := Remove(c, s, p);
    assert t.peers.Keys == s.peers.Keys - {p};
    forall q | q in t.peers ensures t.peers[q] == Rehomed(c, s, t, q) {
      RehomedByOne(c, s, t, p, q);
    }
  }

  lemma FewerLive(s: State, t: State, gone: set<string>, id: int)
    requires t.subs == s.subs - gone
    ensures Live(t, id) ==> Live(s, id)
  {
  }

  lemma RehomedTwice(c: Config, s: State, t: State, u: State, q: string)
    requires q in s.peers && q in t.peers && t.peers[q] == Rehomed(c, s, t, q) && !Live(t, c.channelId)
    requires forall id :: (Live(u, id) ==> Live(t, id)) && (Live(t, id) ==> Live(s, id))
    ensures Rehomed(c, t, u, q) == Rehomed(c, s, u, q)
  {
  }

  lemma MinusTwice<V>(m: map<string, V>, a: set<string>, b: set<string>)
    ensures m - a - b == m - (a + b)
  {
  }

  lemma FewerTwice(s: State, t: State, u: State, first: set<string>, second: set<string>)
    requires Fewer(s, t, first) && Fewer(t, u, second)
    ensures Fewer(s, u, first + second)
  {
    MinusTwice(s.subs, first, second);
    MinusTwice(s.cands, first, second);
    assert s.peers.Keys - first - second == s.peers.Keys - (first + second);
  }

  lemma TwoRemovals(c: Config, s: State, t: State, u: State, first: set<string>, second: set<string>)
    requires Inv(c, t) && Without(c, s, t, first) && Without(c, t, u, second)
    ensures Without(c, s, u, first + second)
  {
    FewerTwice(s, t, u, first, second);
    NoSubChannelIds(c, t);
    forall id ensures (Live(u, id) ==> Live(t, id)) && (Live(t, id) ==> Live(s, id)) {
      FewerLive(s, t, first, id);
      FewerLive(t, u, second, id);
    }
    forall q | q in u.peers ensures u.peers[q] == Rehomed(c, s, u, q) {
      RehomedTwice(c, s, t, u, q);
    }
  }

  lemma {:induction false} AllRemovals(c: Config, s: State, ps: seq<string>)
    requires Inv(c, s)
    ensures Without(c, s, RemoveAll(c, s, ps), ToSet(ps))
  {
    if ps == [] {
      NoRemoval(c, s);
    } else {
      var front, p := ps[..|ps| - 1], ps[|ps| - 1];
      var t := RemoveAll(c, s, front);
      AllRemovals(c, s, front);
      RemoveAllKeepsInv(c, s, front);
      OneRemoval(c, t, p);
      TwoRemovals(c, s, t, Remove(c, t, p), ToSet(front), {p});
      LastOne(ps);
    }
  }

  lemma LastOne(ps: seq<string>)
    requires ps != []
    ensures ToSet(ps) == ToSet(ps[..|ps| - 1]) + {ps[|ps| - 1]}
  {
    assert ps == ps[..|ps| - 1] + [ps[|ps| - 1]];
  }

  lemma NoRemoval(c: Config, s: State)
    ensures Without(c, s, s, {})
  {
  }

  /** One check: every counter drops by one, exactly the peers whose counter runs out leave, with their
      places as servers and candidates, and exactly the peers of a sub-channel that lost its last server
      return to the main network. */
  lemma CheckRemovesExpired(c: Config, s: State)
    requires Inv(c, s)
    ensures Without(c, DecrementAll(s), CheckActive(c, s), set p | p in s.peers && s.peers[p].ttl <= 1)
  {
    DecrementKeepsInv(c, s);
    AllRemovals(c, DecrementAll(s), SortedKeys(Expired(s)));
    assert Expired(s) == set p | p in s.peers && s.peers[p].ttl <= 1;
  }

  // ---- how long a silent peer stays ---------------------------------------------------------

  function Checks(ops: seq<Op>): nat {
    if ops == [] then 0 else (if ops[0].Check? then 1 else 0) + Checks(ops[1..])
  }

  ghost predicate NoPing(ops: seq<Op>, p: string) {
    forall i :: 0 <= i < |ops| ==> ops[i] != Ping(p)
  }

  ghost predicate HasTtl(s: State, p: string, ttl: int) {
    p in s.peers && s.peers[p].ttl == ttl
  }

  /** A connect message of a peer that is known does not refresh its counter. */
  lemma ConnectLeavesTtl(c: Config, s: State, op: Op, p: string, ttl: int)
    requires Inv(c, s) && op.Connect? && HasTtl(s, p, ttl)
    ensures HasTtl(Step(c, s, op), p, ttl)
  {
    var added := if op.p in s.peers then s else AddPeer(c, s, op.p, op.peer);
    assert HasTtl(added, p, ttl);
    var joined := Joined(c, s, op.p, op.peer, op.candidate);
    assert joined.peers == added.peers;
  }

  lemma CheckTakesOne(c: Config, s: State, p: string, ttl: int)
    requires Inv(c, s) && HasTtl(s, p, ttl)
    ensures ttl > 1 ==> HasTtl(CheckActive(c, s), p, ttl - 1)
    ensures ttl <= 1 ==> p !in CheckActive(c, s).peers
  {
    CheckRemovesExpired(c, s);
  }

  lemma StepTtl(c: Config, s: State, op: Op, p: string, ttl: int)
    requires Inv(c, s) && Legal(c, s, op) && HasTtl(s, p, ttl) && op != Ping(p) && (op.Check? ==> ttl > 1)
    ensures HasTtl(Step(c, s, op), p, if op.Check? then ttl - 1 else ttl)
  {
    match op
    case Connect(q, peer, candidate) => ConnectLeavesTtl(c, s, op, p, ttl);
    case ChangeMode(mode, oneByOne, selected) =>
    case Check => CheckTakesOne(c, s, p, ttl);
    case Ping(q) =>
  }

  /** Without a ping a peer stays for exactly the checks its counter allows, whatever else happens. */
  lemma {:induction false} SilentPeerStays(c: Config, s: State, ops: seq<Op>, p: string, ttl: int)
    requires Inv(c, s) && LegalRun(c, s, ops) && NoPing(ops, p) && HasTtl(s, p, ttl) && Checks(ops) < ttl
    ensures HasTtl(Run(c, s, ops), p, ttl - Checks(ops))
    decreases |ops|
  {
    if ops != [] {
      StepTtl(c, s, ops[0], p, ttl);
      SilentPeerStays(c, After(c, s, ops[0]), ops[1..], p, if ops[0].Check? then ttl - 1 else ttl);
    }
  }

  /** The check after those removes it, with its places as server and candidate. */
  lemma SilentPeerLeaves(c: Config, s: State, ops: seq<Op>, p: string, ttl: nat)
    requires Inv(c, s) && LegalRun(c, s, ops) && NoPing(ops, p) && HasTtl(s, p, ttl) && Checks(ops) + 1 == ttl
    ensures p in Run(c, s, ops).peers
    ensures var t := After(c, Run(c, s, ops), Check); p !in t.peers && p !in t.subs && p !in t.cands
  {
    SilentPeerStays(c, s, ops, p, ttl);
    ExpiresNow(c, Run(c, s, ops), p);
  }

  lemma ExpiresNow(c: Config, s: State, p: string)
    requires Inv(c, s) && HasTtl(s, p, 1)
    ensures var t := CheckActive(c, s); p !in t.peers && p !in t.subs && p !in t.cands
  {
    CheckRemovesExpired(c, s);
  }
}
