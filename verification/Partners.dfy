/**
 The partner manager of a client: the peers it knows, the three bounded sets of active partners with
 their cooldowns, and the stages of an auxiliary server.  This module says what each operation does.
 */
module Partners {
  import opened AuxStates
  import opened Keys

  /** `subId` is 1 for a peer of the server's own parallel network, -1 once that network merges. */
  datatype Partner = Partner(ttlIn: int, ttlOut: int, subId: int, out: int, outFree: int)

  datatype List = In | Out | OutFree

  /** A set of active partners, and how many passes each removed one still has to wait. */
  datatype Slot = Slot(members: set<string>, cooldown: map<string, nat>)

  datatype MergeType =
    AutoKill | LiveAvoid | LivePermit | LiveAvoidKillEnd | LivePermitKillEnd | NoneMerge | InvalidMerge

  /** The limits of the three lists, and the times-to-live a ping restores. */
  datatype Config = Config(maxIn: nat, maxOut: nat, maxOutFree: nat, ttlIn: int, ttlOut: int)

  /** `exited` is the terminal state after `exit(1)`. */
  datatype State = State(peers: map<string, Partner>, ins: Slot, outs: Slot, frees: Slot, rejected: set<string>,
                         stage: AuxState, removeWorse: bool, merge: MergeType, killEnd: bool, qt: nat, period: nat,
                         exited: bool)

  const TTL_IN: int := 10
  const TTL_OUT: int := 10
  const PEER_ACTIVE_COOLDOWN: nat := 5
  const SERVER_AUX_SUB_CHANNEL_ID: int := 1

  function SlotOf(s: State, l: List): Slot {
    match l
    case In => s.ins
    case Out => s.outs
    case OutFree => s.frees
  }

  function WithSlot(s: State, l: List, slot: Slot): State {
    match l
    case In => s.(ins := slot)
    case Out => s.(outs := slot)
    case OutFree => s.(frees := slot)
  }

  function Max(c: Config, l: List): nat {
    match l
    case In => c.maxIn
    case Out => c.maxOut
    case OutFree => c.maxOutFree
  }

  /** The merge settings are meaningless until a message brings them. */
  function Initial(merge: MergeType, qt: nat, period: nat, removeWorse: bool): State {
    State(map[], Slot({}, map[]), Slot({}, map[]), Slot({}, map[]), {}, NoServerAux, removeWorse, merge, false, qt,
          period, false)
  }

  // ---- knowing a peer ----------------------------------------------------------------

  function AddPeer(s: State, p: string, out: int, outFree: int): (t: State)
    ensures t.peers.Keys == s.peers.Keys + {p} && t == s.(peers := t.peers)
  {
    if p !in s.peers then
      var subId := if s.stage == ServerAuxActive then SERVER_AUX_SUB_CHANNEL_ID else 0;
      s.(peers := s.peers[p := Partner(TTL_IN, TTL_OUT, subId, out, outFree)])
    else
      s.(peers := s.peers[p := s.peers[p].(out := if out >= 0 then out else s.peers[p].out, outFree := outFree)])
  }

  // ---- becoming a partner --------------------------------------------------------------

  /** The partners with the least informed output. */
  function Cheapest(peers: map<string, Partner>, members: set<string>): set<string>
    requires members <= peers.Keys
  {
    set k | k in members && forall q :: q in members ==> peers[k].out <= peers[q].out
  }

  lemma {:induction false} CheapestExists(peers: map<string, Partner>, members: set<string>)
    requires members <= peers.Keys && members != {}
    ensures Cheapest(peers, members) != {}
    decreases |members|
  {
    var x :| x in members;
    if members - {x} == {} {
      assert members == {x};
      assert x in Cheapest(peers, members);
    } else {
      CheapestExists(peers, members - {x});
      var y :| y in Cheapest(peers, members - {x});
      assert (if peers[x].out < peers[y].out then x else y) in Cheapest(peers, members);
    }
  }

  /** The partner a better newcomer replaces: of those with the least output, the first in key order. */
  function Worst(peers: map<string, Partner>, members: set<string>): (w: string)
    requires members <= peers.Keys && members != {}
    ensures w in members && forall k :: k in members ==> peers[w].out <= peers[k].out
  {
    CheapestExists(peers, members);
    Least(Cheapest(peers, members))
  }

  /** The list takes no partner: the cooldown, the size, a rejection, or the parallel network. */
  predicate Refused(c: Config, s: State, p: string, l: List)
    requires p in s.peers
  {
    || p in SlotOf(s, l).cooldown
    || (|SlotOf(s, l).members| >= Max(c, l) && !s.removeWorse)
    || (l != In && p in s.rejected)
    || (l != In && s.stage == ServerAuxActive && s.peers[p].subId != SERVER_AUX_SUB_CHANNEL_ID)
  }

  /** The time-to-live a new partner gets is chosen by comparing contents: a list with the same
      members as the In list counts as the In list. */
  function Refreshed(s: State, p: string, l: List): (t: State)
    requires p in s.peers
    ensures t.peers.Keys == s.peers.Keys
  {
    if SlotOf(s, l).members == s.ins.members then s.(peers := s.peers[p := s.peers[p].(ttlIn := TTL_IN)])
    else s.(peers := s.peers[p := s.peers[p].(ttlOut := TTL_OUT)])
  }

  function Joins(s: State, p: string, l: List): (t: State)
    requires p in s.peers
    ensures t.peers.Keys == s.peers.Keys
  {
    Refreshed(WithSlot(s, l, SlotOf(s, l).(members := SlotOf(s, l).members + {p})), p, l)
  }

  /** The worst partner leaves without a cooldown, and the permission to remove it is used up. */
  function Replaces(s: State, p: string, l: List, w: string): (t: State)
    requires p in s.peers
    ensures t.peers.Keys == s.peers.Keys
  {
    Refreshed(WithSlot(s, l, SlotOf(s, l).(members := SlotOf(s, l).members - {w} + {p})).(removeWorse := false), p, l)
  }

  predicate Replaceable(s: State, p: string, l: List)
    requires p in s.peers && SlotOf(s, l).members <= s.peers.Keys
  {
    var members := SlotOf(s, l).members;
    l != In && members != {} && s.peers[Worst(s.peers, members)].out < s.peers[p].out
  }

  /** True if `p` was inserted. */
  predicate Accepted(c: Config, s: State, p: string, l: List)
    requires p in s.peers && SlotOf(s, l).members <= s.peers.Keys
  {
    && !Refused(c, s, p, l)
    && if |SlotOf(s, l).members| < Max(c, l) then p !in SlotOf(s, l).members else Replaceable(s, p, l)
  }

  function Connect(c: Config, s: State, p: string, l: List): (t: State)
    requires p in s.peers && SlotOf(s, l).members <= s.peers.Keys
    ensures t.peers.Keys == s.peers.Keys
  {
    if !Accepted(c, s, p, l) then s
    else if |SlotOf(s, l).members| < Max(c, l) then Joins(s, p, l)
    else Replaces(s, p, l, Worst(s.peers, SlotOf(s, l).members))
  }

  /** A ping from somebody who serves me: it becomes a partner if it is none, and its counter is full again. */
  function PingIn(c: Config, s: State, p: string, out: int, outFree: int): State
    requires s.ins.members <= s.peers.Keys
  {
    var known := AddPeer(s, p, out, outFree);
    if p in known.ins.members || Accepted(c, known, p, In) then
      var t := if p in known.ins.members then known else Connect(c, known, p, In);
      t.(peers := t.peers[p := t.peers[p].(ttlIn := c.ttlIn)])
    else known
  }

  /** A ping from somebody I serve, on the output list it belongs to. */
  function PingOut(c: Config, s: State, p: string, out: int, outFree: int, l: List): State
    requires SlotOf(s, l).members <= s.peers.Keys
  {
    var known := AddPeer(s, p, out, outFree);
    if p in SlotOf(known, l).members || Accepted(c, known, p, l) then
      var t := if p in SlotOf(known, l).members then known else Connect(c, known, p, l);
      t.(peers := t.peers[p := t.peers[p].(ttlOut := c.ttlOut)])
    else known
  }

  // ---- ceasing to be one -----------------------------------------------------------------

  function Disconnect(s: State, p: string, l: List): State {
    var slot := SlotOf(s, l);
    WithSlot(s, l, Slot(slot.members - {p}, slot.cooldown[p := PEER_ACTIVE_COOLDOWN]))
  }

  function DisconnectAll(slot: Slot, ps: set<string>): Slot {
    Slot(slot.members - ps, slot.cooldown + map p | p in ps :: PEER_ACTIVE_COOLDOWN)
  }

  /** An unsigned counter wraps below zero. */
  function Decremented(n: nat): nat {
    if n == 0 then 0xFFFF_FFFF else n - 1
  }

  function Aged(cooldown: map<string, nat>): map<string, nat> {
    map p | p in cooldown && Decremented(cooldown[p]) != 0 :: Decremented(cooldown[p])
  }

  // ---- the pass over all partners ----------------------------------------------------------

  function Active(s: State): set<string> {
    s.ins.members + s.outs.members + s.frees.members
  }

  /** A member of both output lists loses two from the same counter. */
  function Passed(s: State, p: string): Partner
    requires p in s.peers
  {
    var d := s.peers[p];
    d.(ttlIn := if p in s.ins.members then d.ttlIn - 1 else d.ttlIn,
       ttlOut := d.ttlOut - (if p in s.outs.members then 1 else 0) - (if p in s.frees.members then 1 else 0))
  }

  predicate LeavesIn(s: State, p: string)
    requires p in s.peers
  {
    p in s.ins.members && s.peers[p].ttlIn - 1 <= 0
  }

  predicate LeavesOut(s: State, p: string)
    requires p in s.peers
  {
    p in s.outs.members && s.peers[p].ttlOut - 1 <= 0
  }

  predicate LeavesFree(s: State, p: string)
    requires p in s.peers
  {
    p in s.frees.members && Passed(s, p).ttlOut <= 0
  }

  /** It was active and remains in no list. */
  predicate Forgotten(s: State, p: string)
    requires p in s.peers
  {
    && p in Active(s)
    && (p in s.ins.members ==> LeavesIn(s, p))
    && (p in s.outs.members ==> LeavesOut(s, p))
    && (p in s.frees.members ==> LeavesFree(s, p))
  }

  /** The partners that leave start their cooldown, and every cooldown of the list ages. */
  function PassedSlot(slot: Slot, leaving: set<string>): Slot {
    Slot(slot.members - leaving, Aged(DisconnectAll(slot, leaving).cooldown))
  }

  function FromIn(s: State): set<string>
    requires Active(s) <= s.peers.Keys
  {
    set p | p in s.ins.members && LeavesIn(s, p)
  }

  function FromOut(s: State): set<string>
    requires Active(s) <= s.peers.Keys
  {
    set p | p in s.outs.members && LeavesOut(s, p)
  }

  function FromFree(s: State): set<string>
    requires Active(s) <= s.peers.Keys
  {
    set p | p in s.frees.members && LeavesFree(s, p)
  }

  function CheckList(s: State): State
    requires Active(s) <= s.peers.Keys
  {
    s.(peers := map p | p in s.peers && !Forgotten(s, p) :: Passed(s, p),
       ins := PassedSlot(s.ins, FromIn(s)), outs := PassedSlot(s.outs, FromOut(s)),
       frees := PassedSlot(s.frees, FromFree(s)))
  }

  // ---- the stages of an auxiliary server -----------------------------------------------------

  /** The output partners change sub-id; `f` says how. */
  function Relabelled(s: State, f: int -> int): (peers: map<string, Partner>)
    ensures peers.Keys == s.peers.Keys
  {
    map p | p in s.peers :: if p in s.outs.members then s.peers[p].(subId := f(s.peers[p].subId)) else s.peers[p]
  }

  function SetStage(s: State, stage: AuxState): State {
    match stage
    case ServerAuxActive =>
      if s.stage == NoServerAux then
        s.(outs := s.outs.(members := {}), rejected := s.rejected + s.peers.Keys, stage := ServerAuxActive)
      else s
    case ServerAuxMesclar =>
      if s.stage == ServerAuxActive then
        s.(peers := Relabelled(s, i => i * -1), rejected := {}, stage := ServerAuxMesclar)
      else s
    case NoServerAux =>
      s.(peers := Relabelled(s, _ => 0), rejected := {}, stage := NoServerAux)
  }

  /** The kill-at-end types are kept as their base type and a flag that nothing resets. */
  function SetMergeType(s: State, m: MergeType): State {
    match m
    case LiveAvoidKillEnd => s.(merge := LiveAvoid, killEnd := true)
    case LivePermitKillEnd => s.(merge := LivePermit, killEnd := true)
    case _ => s.(merge := m)
  }

  /** The output partners the merge still has to let go. */
  function MergeLeft(s: State): set<string> {
    set p | p in s.outs.members && p in s.peers && s.peers[p].subId < 0
  }

  /** The random draw of one firing: everybody if fewer than `qt` are left, else `qt` of them. */
  predicate DrawnToMerge(s: State, drawn: set<string>) {
    && drawn <= MergeLeft(s)
    && if |MergeLeft(s)| < s.qt then drawn == MergeLeft(s) else |drawn| == s.qt
  }

  /** Only a live merge draws. */
  predicate DrawnForFiring(s: State, drawn: set<string>) {
    s.merge in {LiveAvoid, LivePermit} ==> DrawnToMerge(s, drawn)
  }

  /** The drawn partners are let go and may not come back before the stage ends. */
  function LetGo(s: State, drawn: set<string>): State {
    s.(rejected := s.rejected + drawn, outs := DisconnectAll(s.outs, drawn))
  }

  /** The drawn partners are let go as peers of the main network. */
  function SendBack(s: State, drawn: set<string>): State {
    s.(peers := map p | p in s.peers :: if p in drawn then s.peers[p].(subId := 0) else s.peers[p],
       outs := DisconnectAll(s.outs, drawn))
  }

  /** What happens when the merge timer runs out. */
  function Fire(s: State, drawn: set<string>): State {
    match s.merge
    case AutoKill => s.(exited := true)
    case LiveAvoid => if drawn == {} then EndMerge(s) else LetGo(s, drawn)
    case LivePermit => if drawn == {} then EndMerge(s) else SendBack(s, drawn)
    case _ => s
  }

  function EndMerge(s: State): State {
    SetMergeType(s, if s.killEnd then AutoKill else NoneMerge)
  }

  /** An 8-bit timer that starts again from the period when it is zero. */
  function NextTimer(period: nat, timer: nat): nat {
    ((if timer == 0 then period else timer) + 255) % 256
  }
}
