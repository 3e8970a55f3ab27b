/**
 What every run of the partner manager keeps: bounded lists of known peers, cooldowns that never
 wrap, and no overlap between an output list and the rejected peers.
 */
module PartnerRuns {
  import opened AuxStates
  import opened Keys
  import opened Partners

  ghost predicate SlotInv(peers: map<string, Partner>, slot: Slot, max: nat) {
    && slot.members <= peers.Keys
    && |slot.members| <= max
    && slot.members !! slot.cooldown.Keys
    && forall p :: p in slot.cooldown ==> 1 <= slot.cooldown[p] <= PEER_ACTIVE_COOLDOWN
  }

  ghost predicate ListsInv(c: Config, s: State) {
    SlotInv(s.peers, s.ins, c.maxIn) && SlotInv(s.peers, s.outs, c.maxOut) && SlotInv(s.peers, s.frees, c.maxOutFree)
  }

  ghost predicate StageInv(s: State) {
    && s.outs.members !! s.rejected
    && (s.stage == NoServerAux ==> s.rejected == {})
    && (s.stage == ServerAuxActive ==>
          forall p :: p in s.outs.members && p in s.peers ==> s.peers[p].subId == SERVER_AUX_SUB_CHANNEL_ID)
  }

  ghost predicate Inv(c: Config, s: State) {
    ListsInv(c, s) && StageInv(s)
  }

  lemma InvOfList(c: Config, s: State, l: List)
    requires Inv(c, s)
    ensures SlotInv(s.peers, SlotOf(s, l), Max(c, l)) && Active(s) <= s.peers.Keys
  {
  }

  // ---- each operation keeps it -----------------------------------------------------------

  /** Only the data of peers changed, and no sub-id. */
  ghost predicate SameNetworks(peers: map<string, Partner>, peers': map<string, Partner>) {
    && peers.Keys <= peers'.Keys
    && forall p :: p in peers ==> peers'[p].subId == peers[p].subId
  }

  lemma PeersKeepInv(c: Config, s: State, peers': map<string, Partner>)
    requires Inv(c, s) && SameNetworks(s.peers, peers')
    ensures Inv(c, s.(peers := peers'))
  {
  }

  /** A list may get a member that the stage allows there. */
  lemma SlotKeepsInv(c: Config, s: State, l: List, slot: Slot)
    requires Inv(c, s) && SlotInv(s.peers, slot, Max(c, l))
    requires forall p :: p in slot.members && p !in SlotOf(s, l).members && l == Out ==>
               p !in s.rejected && (s.stage == ServerAuxActive ==> s.peers[p].subId == SERVER_AUX_SUB_CHANNEL_ID)
    ensures Inv(c, WithSlot(s, l, slot))
  {
    match l
    case In =>
    case Out =>
    case OutFree =>
  }

  lemma InsertionKeepsSlot(peers: map<string, Partner>, slot: Slot, max: nat, p: string, gone: set<string>)
    requires SlotInv(peers, slot, max) && p in peers && p !in slot.cooldown
    requires |slot.members| < max || gone * slot.members != {}
    ensures SlotInv(peers, slot.(members := slot.members - gone + {p}), max)
  {
    SubsetCard(slot.members - gone, slot.members);
    if gone * slot.members != {} {
      var w :| w in gone * slot.members;
      SubsetCard(slot.members - gone, slot.members - {w});
    }
  }

  lemma JoinsKeepsInv(c: Config, s: State, p: string, l: List)
    requires Inv(c, s) && p in s.peers && !Refused(c, s, p, l) && |SlotOf(s, l).members| < Max(c, l)
    ensures Inv(c, Joins(s, p, l))
  {
    InvOfList(c, s, l);
    var slot := SlotOf(s, l).(members := SlotOf(s, l).members + {p});
    InsertionKeepsSlot(s.peers, SlotOf(s, l), Max(c, l), p, {});
    assert SlotOf(s, l).members - {} == SlotOf(s, l).members;
    SlotKeepsInv(c, s, l, slot);
    RefreshedKeepsInv(c, WithSlot(s, l, slot), p, l);
  }

  lemma RefreshedKeepsInv(c: Config, s: State, p: string, l: List)
    requires Inv(c, s) && p in s.peers
    ensures Inv(c, Refreshed(s, p, l))
  {
    PeersKeepInv(c, s, Refreshed(s, p, l).peers);
  }

  lemma ReplacesKeepsInv(c: Config, s: State, p: string, l: List, w: string)
    requires Inv(c, s) && p in s.peers && !Refused(c, s, p, l) && w in SlotOf(s, l).members
    ensures Inv(c, Replaces(s, p, l, w))
  {
    InvOfList(c, s, l);
    var slot := SlotOf(s, l).(members := SlotOf(s, l).members - {w} + {p});
    InsertionKeepsSlot(s.peers, SlotOf(s, l), Max(c, l), p, {w});
    SlotKeepsInv(c, s, l, slot);
    RefreshedKeepsInv(c, WithSlot(s, l, slot).(removeWorse := false), p, l);
  }

  lemma ConnectKeepsInv(c: Config, s: State, p: string, l: List)
    requires Inv(c, s) && p in s.peers
    ensures SlotOf(s, l).members <= s.peers.Keys && Inv(c, Connect(c, s, p, l))
  {
    InvOfList(c, s, l);
    if Accepted(c, s, p, l) {
      if |SlotOf(s, l).members| < Max(c, l) {
        JoinsKeepsInv(c, s, p, l);
      } else {
        ReplacesKeepsInv(c, s, p, l, Worst(s.peers, SlotOf(s, l).members));
      }
    }
  }

  lemma AddPeerKeepsInv(c: Config, s: State, p: string, out: int, outFree: int)
    requires Inv(c, s)
    ensures Inv(c, AddPeer(s, p, out, outFree))
  {
    PeersKeepInv(c, s, AddPeer(s, p, out, outFree).peers);
  }

  lemma PingInKeepsInv(c: Config, s: State, p: string, out: int, outFree: int)
    requires Inv(c, s)
    ensures Inv(c, PingIn(c, s, p, out, outFree))
  {
    var known := AddPeer(s, p, out, outFree);
    AddPeerKeepsInv(c, s, p, out, outFree);
    ConnectKeepsInv(c, known, p, In);
    var t := if p in known.ins.members then known else Connect(c, known, p, In);
    PeersKeepInv(c, t, t.peers[p := t.peers[p].(ttlIn := c.ttlIn)]);
  }

  lemma PingOutKeepsInv(c: Config, s: State, p: string, out: int, outFree: int, l: List)
    requires Inv(c, s)
    ensures SlotOf(s, l).members <= s.peers.Keys && Inv(c, PingOut(c, s, p, out, outFree, l))
  {
    InvOfList(c, s, l);
    var known := AddPeer(s, p, out, outFree);
    AddPeerKeepsInv(c, s, p, out, outFree);
    ConnectKeepsInv(c, known, p, l);
    var t := if p in SlotOf(known, l).members then known else Connect(c, known, p, l);
    PeersKeepInv(c, t, t.peers[p := t.peers[p].(ttlOut := c.ttlOut)]);
  }

  lemma DisconnectKeepsInv(c: Config, s: State, p: string, l: List)
    requires Inv(c, s)
    ensures Inv(c, Disconnect(s, p, l))
  {
    InvOfList(c, s, l);
    var slot := SlotOf(s, l);
    SubsetCard(slot.members - {p}, slot.members);
    SlotKeepsInv(c, s, l, Slot(slot.members - {p}, slot.cooldown[p := PEER_ACTIVE_COOLDOWN]));
  }

  lemma DisconnectAllKeepsInv(peers: map<string, Partner>, slot: Slot, max: nat, ps: set<string>)
    requires SlotInv(peers, slot, max)
    ensures SlotInv(peers, DisconnectAll(slot, ps), max)
  {
    SubsetCard(slot.members - ps, slot.members);
  }

  /** A pass ages the counters that are between 1 and 5, so none wraps, and drops those that reach 0. */
  lemma AgedKeepsInv(peers: map<string, Partner>, peers': map<string, Partner>, slot: Slot, max: nat)
    requires SlotInv(peers, slot, max) && slot.members <= peers'.Keys
    ensures SlotInv(peers', slot.(cooldown := Aged(slot.cooldown)), max)
  {
  }

  lemma CheckListKeepsInv(c: Config, s: State)
    requires Inv(c, s)
    ensures Active(s) <= s.peers.Keys && Inv(c, CheckList(s))
  {
    var t := CheckList(s);
    DisconnectAllKeepsInv(s.peers, s.ins, c.maxIn, FromIn(s));
    DisconnectAllKeepsInv(s.peers, s.outs, c.maxOut, FromOut(s));
    DisconnectAllKeepsInv(s.peers, s.frees, c.maxOutFree, FromFree(s));
    AgedKeepsInv(s.peers, t.peers, DisconnectAll(s.ins, FromIn(s)), c.maxIn);
    AgedKeepsInv(s.peers, t.peers, DisconnectAll(s.outs, FromOut(s)), c.maxOut);
    AgedKeepsInv(s.peers, t.peers, DisconnectAll(s.frees, FromFree(s)), c.maxOutFree);
  }

  lemma SetStageKeepsInv(c: Config, s: State, stage: AuxState)
    requires Inv(c, s)
    ensures Inv(c, SetStage(s, stage))
  {
    match stage
    case ServerAuxActive =>
      assert SlotInv(s.peers, s.outs.(members := {}), c.maxOut);
    case ServerAuxMesclar =>
      RelabelledKeepsLists(c, s, i => i * -1);
    case NoServerAux =>
      RelabelledKeepsLists(c, s, _ => 0);
  }

  lemma RelabelledKeepsLists(c: Config, s: State, f: int -> int)
    requires Inv(c, s)
    ensures ListsInv(c, s.(peers := Relabelled(s, f)))
  {
  }

  lemma LetGoKeepsInv(c: Config, s: State, drawn: set<string>)
    requires Inv(c, s) && s.stage == ServerAuxMesclar
    ensures Inv(c, LetGo(s, drawn))
  {
    DisconnectAllKeepsInv(s.peers, s.outs, c.maxOut, drawn);
  }

  lemma SendBackKeepsInv(c: Config, s: State, drawn: set<string>)
    requires Inv(c, s) && s.stage == ServerAuxMesclar
    ensures Inv(c, SendBack(s, drawn))
  {
    DisconnectAllKeepsInv(s.peers, s.outs, c.maxOut, drawn);
    assert SendBack(s, drawn).peers.Keys == s.peers.Keys;
  }

  lemma FireKeepsInv(c: Config, s: State, drawn: set<string>)
    requires Inv(c, s) && s.stage == ServerAuxMesclar
    ensures Inv(c, Fire(s, drawn))
  {
    match s.merge
    case LiveAvoid =>
      if drawn != {} { LetGoKeepsInv(c, s, drawn); }
    case LivePermit =>
      if drawn != {} { SendBackKeepsInv(c, s, drawn); }
    case _ =>
  }

  // ---- runs --------------------------------------------------------------------------------

  datatype Op =
    | Know(p: string, out: int, outFree: int)
    | Try(p: string, l: List)
    | Drop(p: string, l: List)
    | PingFromIn(p: string, out: int, outFree: int)
    | PingFromOut(p: string, out: int, outFree: int, l: List)
    | AllowReplacing
    | Order(stage: AuxState, merge: MergeType, qt: nat, period: nat)
    | Pass
    | Firing(drawn: set<string>)

  /** Only known peers are tried, the merge timer fires only while merging, and nothing follows an exit. */
  ghost predicate Legal(s: State, op: Op) {
    && !s.exited
    && (op.Try? ==> op.p in s.peers)
    && (op.Firing? ==> s.stage == ServerAuxMesclar && DrawnForFiring(s, op.drawn))
  }

  ghost function Step(c: Config, s: State, op: Op): State
    requires Inv(c, s) && Legal(s, op)
  {
    forall l ensures SlotOf(s, l).members <= s.peers.Keys { InvOfList(c, s, l); }
    match op
    case Know(p, out, outFree) => AddPeer(s, p, out, outFree)
    case Try(p, l) => Connect(c, s, p, l)
    case Drop(p, l) => Disconnect(s, p, l)
    case PingFromIn(p, out, outFree) => PingIn(c, s, p, out, outFree)
    case PingFromOut(p, out, outFree, l) => PingOut(c, s, p, out, outFree, l)
    case AllowReplacing => s.(removeWorse := true)
    case Order(stage, merge, qt, period) => SetStage(SetMergeType(s, merge).(qt := qt, period := period), stage)
    case Pass => CheckList(s)
    case Firing(drawn) => Fire(s, drawn)
  }

  lemma SettingsKeepInv(c: Config, s: State, merge: MergeType, killEnd: bool, qt: nat, period: nat)
    requires Inv(c, s)
    ensures Inv(c, s.(merge := merge, killEnd := killEnd, qt := qt, period := period))
  {
  }

  lemma OrderKeepsInv(c: Config, s: State, op: Op)
    requires Inv(c, s) && Legal(s, op) && op.Order?
    ensures Inv(c, Step(c, s, op))
  {
    var t := SetMergeType(s, op.merge).(qt := op.qt, period := op.period);
    assert t == s.(merge := t.merge, killEnd := t.killEnd, qt := op.qt, period := op.period);
    SettingsKeepInv(c, s, t.merge, t.killEnd, op.qt, op.period);
    SetStageKeepsInv(c, t, op.stage);
  }

  lemma PingKeepsInv(c: Config, s: State, op: Op)
    requires Inv(c, s) && Legal(s, op) && (op.PingFromIn? || op.PingFromOut?)
    ensures Inv(c, Step(c, s, op))
  {
    match op
    case PingFromIn(p, out, outFree) => PingInKeepsInv(c, s, p, out, outFree);
    case PingFromOut(p, out, outFree, l) => PingOutKeepsInv(c, s, p, out, outFree, l);
  }

  lemma StepKeepsInv(c: Config, s: State, op: Op)
    requires Inv(c, s) && Legal(s, op)
    ensures Inv(c, Step(c, s, op))
  {
    match op
    case Know(p, out, outFree) => AddPeerKeepsInv(c, s, p, out, outFree);
    case Try(p, l) => ConnectKeepsInv(c, s, p, l);
    case Drop(p, l) => DisconnectKeepsInv(c, s, p, l);
    case PingFromIn(p, out, outFree) => PingKeepsInv(c, s, op);
    case PingFromOut(p, out, outFree, l) => PingKeepsInv(c, s, op);
    case AllowReplacing =>
    case Order(stage, merge, qt, period) => OrderKeepsInv(c, s, op);
    case Pass => CheckListKeepsInv(c, s);
    case Firing(drawn) => FireKeepsInv(c, s, drawn);
  }

  /** A step and the invariant it keeps. */
  ghost function After(c: Config, s: State, op: Op): (t: State)
    requires Inv(c, s) && Legal(s, op)
    ensures Inv(c, t)
  {
    StepKeepsInv(c, s, op);
    Step(c, s, op)
  }

  ghost predicate LegalRun(c: Config, s: State, ops: seq<Op>)
    requires Inv(c, s)
    decreases |ops|
  {
    ops == [] || (Legal(s, ops[0]) && LegalRun(c, After(c, s, ops[0]), ops[1..]))
  }

  /** The invariant holds after every legal run. */
  ghost function Run(c: Config, s: State, ops: seq<Op>): (t: State)
    requires Inv(c, s) && LegalRun(c, s, ops)
    ensures Inv(c, t)
    decreases |ops|
  {
    if ops == [] then s else Run(c, After(c, s, ops[0]), ops[1..])
  }

  lemma RunFirst(c: Config, s: State, op: Op, rest: seq<Op>)
    requires Inv(c, s) && Legal(s, op)
    ensures LegalRun(c, s, [op] + rest) <==> LegalRun(c, After(c, s, op), rest)
    ensures LegalRun(c, After(c, s, op), rest) ==> Run(c, s, [op] + rest) == Run(c, After(c, s, op), rest)
  {
    var ops := [op] + rest;
    assert ops[0] == op && ops[1..] == rest;
  }

  lemma {:induction false} RunAppend(c: Config, s: State, ops: seq<Op>, op: Op)
    requires Inv(c, s) && LegalRun(c, s, ops) && Legal(Run(c, s, ops), op)
    ensures LegalRun(c, s, ops + [op]) && Run(c, s, ops + [op]) == After(c, Run(c, s, ops), op)
    decreases |ops|
  {
    if ops == [] {
      assert ops + [op] == [op] + [];
      RunFirst(c, s, op, []);
    } else {
      var first, rest := ops[0], ops[1..];
      assert ops == [first] + rest && ops + [op] == [first] + (rest + [op]);
      RunFirst(c, s, first, rest);
      RunAppend(c, After(c, s, first), rest, op);
      RunFirst(c, s, first, rest + [op]);
    }
  }

  /** From an empty manager, every run keeps each list within its maximum, inside the known peers and
      apart from its own cooldowns, and keeps every cooldown between 1 and 5. */
  lemma PartnerSets(c: Config, merge: MergeType, qt: nat, period: nat, removeWorse: bool, ops: seq<Op>, l: List)
    requires Inv(c, Initial(merge, qt, period, removeWorse))
    requires LegalRun(c, Initial(merge, qt, period, removeWorse), ops)
    ensures var s := Run(c, Initial(merge, qt, period, removeWorse), ops);
            && |SlotOf(s, l).members| <= Max(c, l)
            && SlotOf(s, l).members <= s.peers.Keys
            && SlotOf(s, l).members !! SlotOf(s, l).cooldown.Keys
            && forall p :: p in SlotOf(s, l).cooldown ==> 1 <= SlotOf(s, l).cooldown[p] <= 5
  {
    InvOfList(c, Run(c, Initial(merge, qt, period, removeWorse), ops), l);
  }

  lemma InitialInv(c: Config, merge: MergeType, qt: nat, period: nat, removeWorse: bool)
    ensures Inv(c, Initial(merge, qt, period, removeWorse))
  {
  }
}
