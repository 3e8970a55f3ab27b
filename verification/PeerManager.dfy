/** The partner manager object: its sets and maps are updated in place by the loops of the source. */
module PeerManager {
  import opened AuxStates
  import opened Keys
  import opened Walks
  import opened Merge
  import opened PartnerRuns
  import opened Partners

  class PeerManager {
    const config: Config
    var peerList: map<string, Partner>
    var peerActiveIn: set<string>
    var peerActiveOut: set<string>
    var peerActiveOutFREE: set<string>
    var peerActiveCooldownIn: map<string, nat>
    var peerActiveCooldownOut: map<string, nat>
    var peerActiveCooldownOutFREE: map<string, nat>
    var peerListRejected: set<string>
    var peerManagerState: AuxState
    var removeWorsePartner: bool
    var mergeType: MergeType
    var mergeAuxKillEnd: bool
    var qtPeerMergeType: nat
    var timeDescPeerMerge: nat
    var exited: bool

    ghost function View(): State
      reads this
    {
      State(peerList, Slot(peerActiveIn, peerActiveCooldownIn), Slot(peerActiveOut, peerActiveCooldownOut),
            Slot(peerActiveOutFREE, peerActiveCooldownOutFREE), peerListRejected, peerManagerState, removeWorsePartner,
            mergeType, mergeAuxKillEnd, qtPeerMergeType, timeDescPeerMerge, exited)
    }

    /** The source leaves the merge settings open until a message sets them. */
    constructor (config: Config, removeWorse: bool, merge: MergeType, qt: nat, period: nat)
      ensures this.config == config && View() == Initial(merge, qt, period, removeWorse)
    {
      this.config := config;
      peerList := map[];
      peerActiveIn, peerActiveOut, peerActiveOutFREE := {}, {}, {};
      peerActiveCooldownIn, peerActiveCooldownOut, peerActiveCooldownOutFREE := map[], map[], map[];
      peerListRejected, peerManagerState, removeWorsePartner := {}, NoServerAux, removeWorse;
      mergeType, mergeAuxKillEnd, qtPeerMergeType, timeDescPeerMerge := merge, false, qt, period;
      exited := false;
    }

    // ---- the list a pointer stands for ---------------------------------------------------

    method GetSlot(l: List) returns (slot: Slot)
      ensures slot == SlotOf(View(), l)
    {
      match l
      case In => slot := Slot(peerActiveIn, peerActiveCooldownIn);
      case Out => slot := Slot(peerActiveOut, peerActiveCooldownOut);
      case OutFree => slot := Slot(peerActiveOutFREE, peerActiveCooldownOutFREE);
    }

    method SetSlot(l: List, slot: Slot)
      modifies this
      ensures View() == WithSlot(old(View()), l, slot)
    {
      match l
      case In => peerActiveIn, peerActiveCooldownIn := slot.members, slot.cooldown;
      case Out => peerActiveOut, peerActiveCooldownOut := slot.members, slot.cooldown;
      case OutFree => peerActiveOutFREE, peerActiveCooldownOutFREE := slot.members, slot.cooldown;
    }

    // ---- knowing and connecting ------------------------------------------------------------

    /** True if the peer was unknown. */
    method AddPeer(p: string, out: int, outFree: int) returns (added: bool)
      modifies this
      ensures View() == Partners.AddPeer(old(View()), p, out, outFree)
      ensures added <==> p !in old(peerList)
    {
      if p !in peerList {
        peerList := peerList[p := Partner(TTL_IN, TTL_OUT, 0, out, outFree)];
        if peerManagerState == ServerAuxActive {
          peerList := peerList[p := peerList[p].(subId := SERVER_AUX_SUB_CHANNEL_ID)];
        }
        return true;
      }
      if out >= 0 {
        peerList := peerList[p := peerList[p].(out := out)];
      }
      peerList := peerList[p := peerList[p].(outFree := outFree)];
      return false;
    }

    method ConnectPeer(p: string, l: List) returns (ok: bool)
      requires p in peerList && SlotOf(View(), l).members <= peerList.Keys
      modifies this
      ensures View() == Connect(config, old(View()), p, l)
      ensures ok <==> Accepted(config, old(View()), p, l)
    {
      var refused := IsRefused(p, l);
      if refused {
        return false;
      }
      var slot := GetSlot(l);
      ok := false;
      if |slot.members| < Max(config, l) {
        if p !in slot.members {
          SetSlot(l, slot.(members := slot.members + {p}));
          ok := true;
        }
      } else if l != In {
        ok := ConnectSpecial(p, l);
      }
      if ok {
        FillCounter(p, l);
      }
    }

    /** The refusals, in the order of the source. */
    method IsRefused(p: string, l: List) returns (refused: bool)
      requires p in peerList
      ensures refused <==> Refused(config, View(), p, l)
    {
      var slot := GetSlot(l);
      if p in slot.cooldown {
        return true;
      }
      if |slot.members| >= Max(config, l) && !removeWorsePartner {
        return true;
      }
      if p in peerListRejected && l != In {
        return true;
      }
      refused := peerManagerState == ServerAuxActive && l != In && peerList[p].subId != SERVER_AUX_SUB_CHANNEL_ID;
    }

    /** The counter of a new partner, chosen by comparing the contents of the list with those of the In list. */
    method FillCounter(p: string, l: List)
      requires p in peerList
      modifies this`peerList
      ensures View() == Refreshed(old(View()), p, l)
    {
      var slot := GetSlot(l);
      if slot.members == peerActiveIn {
        peerList := peerList[p := peerList[p].(ttlIn := TTL_IN)];
      } else {
        peerList := peerList[p := peerList[p].(ttlOut := TTL_OUT)];
      }
    }

    /** Replaces the worst partner if the newcomer beats it. */
    method ConnectSpecial(p: string, l: List) returns (ok: bool)
      requires p in peerList && SlotOf(View(), l).members <= peerList.Keys && l != In
      modifies this
      ensures ok <==> Replaceable(old(View()), p, l)
      ensures View() == if !ok then old(View())
                        else var w := Worst(old(peerList), SlotOf(old(View()), l).members);
                             var slot := SlotOf(old(View()), l);
                             WithSlot(old(View()), l, slot.(members := slot.members - {w} + {p})).(removeWorse := false)
    {
      var slot := GetSlot(l);
      if slot.members == {} {
        return false;
      }
      var smaller := FindWorst(peerList, slot.members);
      ok := peerList[smaller].out < peerList[p].out;
      if ok {
        SetSlot(l, slot.(members := slot.members - {smaller} + {p}));
        removeWorsePartner := false;
      }
    }

    method DisconnectPeer(p: string, l: List)
      modifies this
      ensures View() == Disconnect(old(View()), p, l)
    {
      var slot := GetSlot(l);
      SetSlot(l, Slot(slot.members - {p}, slot.cooldown[p := PEER_ACTIVE_COOLDOWN]));
    }

    // ---- pings -------------------------------------------------------------------------------

    /** A ping from a partner that serves me, or wants to. */
    method HandlePingMessageIn(p: string, out: int, outFree: int)
      requires peerActiveIn <= peerList.Keys
      modifies this
      ensures View() == PingIn(config, old(View()), p, out, outFree)
    {
      var added := AddPeer(p, out, outFree);
      if p !in peerActiveIn {
        var ok := ConnectPeer(p, In);
        if !ok {
          return;
        }
      }
      peerList := peerList[p := peerList[p].(ttlIn := config.ttlIn)];
    }

    /** A ping from a partner I serve, or that wants me to. */
    method HandlePingMessageOut(p: string, out: int, outFree: int, l: List)
      requires SlotOf(View(), l).members <= peerList.Keys
      modifies this
      ensures View() == PingOut(config, old(View()), p, out, outFree, l)
    {
      var added := AddPeer(p, out, outFree);
      var slot := GetSlot(l);
      if p !in slot.members {
        var ok := ConnectPeer(p, l);
        if !ok {
          return;
        }
      }
      peerList := peerList[p := peerList[p].(ttlOut := config.ttlOut)];
    }

    // ---- the pass over all partners ------------------------------------------------------------

    method CheckPeerList()
      requires Active(View()) <= peerList.Keys
      modifies this
      ensures View() == CheckList(old(View()))
    {
      var ins, outs := Slot(peerActiveIn, peerActiveCooldownIn), Slot(peerActiveOut, peerActiveCooldownOut);
      var frees := Slot(peerActiveOutFREE, peerActiveCooldownOutFREE);
      ghost var before, after := View(), CheckList(View());
      peerList, ins, outs, frees := PassOver(before, peerList, ins, outs, frees);
      peerActiveIn, peerActiveCooldownIn := ins.members, ins.cooldown;
      peerActiveOut, peerActiveCooldownOut := outs.members, outs.cooldown;
      peerActiveOutFREE, peerActiveCooldownOutFREE := frees.members, frees.cooldown;
      assert View() == after;
    }

    // ---- the stages of an auxiliary server -------------------------------------------------------

    method SetPeerManagerState(stage: AuxState)
      modifies this
      ensures View() == SetStage(old(View()), stage)
    {
      match stage
      case ServerAuxActive =>
        if peerManagerState == NoServerAux {
          peerActiveOut := {};
          peerListRejected := peerListRejected + peerList.Keys;
          peerManagerState := ServerAuxActive;
        }
      case ServerAuxMesclar =>
        if peerManagerState == ServerAuxActive {
          peerListRejected := {};
          peerList := RelabelOut(peerList, peerActiveOut, i => i * -1);
          peerManagerState := ServerAuxMesclar;
        }
      case NoServerAux =>
        peerList := RelabelOut(peerList, peerActiveOut, _ => 0);
        peerListRejected := {};
        peerManagerState := NoServerAux;
    }

    method SetMergeType(m: MergeType)
      modifies this
      ensures View() == Partners.SetMergeType(old(View()), m)
    {
      match m
      case LiveAvoidKillEnd => mergeType, mergeAuxKillEnd := LiveAvoid, true;
      case LivePermitKillEnd => mergeType, mergeAuxKillEnd := LivePermit, true;
      case _ => mergeType := m;
    }

    /** A message of the bootstrap: the merge settings, then the stage. */
    method HandleMessageServerSub(stage: AuxState, merge: MergeType, qt: nat, period: nat)
      modifies this
      ensures View() == SetStage(Partners.SetMergeType(old(View()), merge).(qt := qt, period := period), stage)
    {
      SetMergeType(merge);
      qtPeerMergeType := qt;
      timeDescPeerMerge := period;
      SetPeerManagerState(stage);
    }

    /** The partners one firing lets go. */
    method GetRandomMergePeers() returns (selected: set<string>)
      requires peerActiveOut <= peerList.Keys
      ensures DrawnToMerge(View(), selected)
    {
      selected := PickSome(peerList, peerActiveOut, qtPeerMergeType);
    }

    /** The end of a live merge. */
    method FinishMerge()
      modifies this
      ensures View() == EndMerge(old(View()))
    {
      if mergeAuxKillEnd {
        SetMergeType(AutoKill);
      } else {
        SetMergeType(NoneMerge);
      }
    }

    method DisconnectOut(ps: set<string>)
      modifies this`peerActiveOut, this`peerActiveCooldownOut
      ensures View() == old(View()).(outs := DisconnectAll(old(View()).outs, ps))
    {
      var outs := DisconnectEach(Slot(peerActiveOut, peerActiveCooldownOut), ps);
      peerActiveOut, peerActiveCooldownOut := outs.members, outs.cooldown;
    }

    method LetGoPeers(ps: set<string>)
      modifies this
      ensures View() == LetGo(old(View()), ps)
    {
      peerListRejected := peerListRejected + ps;
      DisconnectOut(ps);
    }

    method SendBackPeers(ps: set<string>)
      modifies this
      ensures View() == SendBack(old(View()), ps)
    {
      peerList := UpdateEach(peerList, (p, d: Partner) => if p in ps then d.(subId := 0) else d);
      DisconnectOut(ps);
    }

    /** One step of the merge timer; a firing follows when it reaches zero. */
    method ExecMesc(timeMerge: nat) returns (left: nat, ghost drawn: set<string>)
      requires timeMerge < 256 && peerActiveOut <= peerList.Keys && !exited
      modifies this
      ensures left == (timeMerge + 255) % 256
      ensures left != 0 ==> View() == old(View())
      ensures left == 0 ==> DrawnForFiring(old(View()), drawn) && View() == Fire(old(View()), drawn)
    {
      left := (timeMerge + 255) % 256;
      drawn := {};
      if left == 0 {
        drawn := FireMerge();
      }
    }

    method FireMerge() returns (ghost drawn: set<string>)
      requires peerActiveOut <= peerList.Keys
      modifies this
      ensures DrawnForFiring(old(View()), drawn) && View() == Fire(old(View()), drawn)
    {
      drawn := {};
      match mergeType
      case AutoKill => exited := true;
      case LiveAvoid =>
        var selected := GetRandomMergePeers();
        drawn := selected;
        if selected == {} {
          FinishMerge();
        } else {
          LetGoPeers(selected);
        }
      case LivePermit =>
        var selected := GetRandomMergePeers();
        drawn := selected;
        if selected == {} {
          FinishMerge();
        } else {
          SendBackPeers(selected);
        }
      case _ =>
    }

    /** The part of the cyclic timer that runs once a second: one tick of the merge clock. */
    method Second(mergeTimer: nat) returns (timer: nat, ghost drawn: set<string>)
      requires Inv(config, View()) && mergeTimer < 256 && timeDescPeerMerge < 256 && !exited
      modifies this
      ensures LegalTick(config, old(View()), mergeTimer, drawn)
      ensures (View(), timer) == Tick(config, old(View()), mergeTimer, drawn)
    {
      timer, drawn := mergeTimer, {};
      CheckListKeepsInv(config, View());
      CheckPeerList();
      assert View() == After(config, old(View()), Pass);
      if peerManagerState == ServerAuxMesclar {
        if timer == 0 {
          timer := timeDescPeerMerge;
        }
        timer, drawn := ExecMesc(timer);
      }
    }
  }

  // ---- loops of the operations above --------------------------------------------------------

  /** Walks the partners in key order and keeps the first of those with the least output. */
  method FindWorst(peers: map<string, Partner>, members: set<string>) returns (smaller: string)
    requires members <= peers.Keys && members != {}
    ensures smaller == Worst(peers, members)
  {
    var ks := SortedKeys(members);
    KnownKeys(ks, members, peers);
    smaller := ks[0];
    ghost var at := 0;
    for i := 0 to |ks|
      invariant 0 <= at < |ks| && at <= i && smaller == ks[at] && WorstAt(peers, ks, i, at)
    {
      if peers[ks[i]].out < peers[smaller].out {
        smaller, at := ks[i], i;
      }
    }
    WorstIsFound(peers, members, ks, at);
  }

  lemma KnownKeys(ks: seq<string>, members: set<string>, peers: map<string, Partner>)
    requires ToSet(ks) == members <= peers.Keys
    ensures forall j :: 0 <= j < |ks| ==> ks[j] in peers
  {
    forall j | 0 <= j < |ks| ensures ks[j] in peers { assert ks[j] in ToSet(ks); }
  }

  /** Of the first `i` keys, the one at `at` is the first with the least output. */
  ghost predicate WorstAt(peers: map<string, Partner>, ks: seq<string>, i: nat, at: nat)
    requires at < |ks| && i <= |ks| && forall j :: 0 <= j < |ks| ==> ks[j] in peers
  {
    && (forall j :: 0 <= j < i ==> peers[ks[at]].out <= peers[ks[j]].out)
    && (forall j :: 0 <= j < at ==> peers[ks[at]].out < peers[ks[j]].out)
  }

  lemma WorstIsFound(peers: map<string, Partner>, members: set<string>, ks: seq<string>, at: nat)
    requires Sorted(ks) && ToSet(ks) == members <= peers.Keys && at < |ks|
    requires forall j :: 0 <= j < |ks| ==> ks[j] in peers
    requires WorstAt(peers, ks, |ks|, at)
    ensures members != {} && ks[at] == Worst(peers, members)
  {
    var w := ks[at];
    assert w in ToSet(ks);
    forall k | k in members
      ensures peers[w].out <= peers[k].out && (k in Cheapest(peers, members) && k != w ==> Less(w, k))
    {
      assert k in ToSet(ks);
      var j :| 0 <= j < |ks| && ks[j] == k;
    }
    LeastIsUnique(Cheapest(peers, members), Worst(peers, members), w);
  }

  /** Every counter loses one, and those that reach zero are erased. */
  method CheckPeerActiveCooldown(cooldown: map<string, nat>) returns (r: map<string, nat>)
    ensures r == Aged(cooldown)
  {
    r := UpdateEach(cooldown, (_, n: nat) => Decremented(n));
    var deleted := CollectKeys(r.Keys, p => p in r && r[p] == 0);
    r := r - SetOf(deleted);
  }

  function SetOf(s: seq<string>): set<string> {
    set k | k in s
  }

  lemma DisconnectOneMore(slot: Slot, done: set<string>, p: string)
    ensures var r := DisconnectAll(slot, done);
            DisconnectAll(slot, done + {p}) == Slot(r.members - {p}, r.cooldown[p := PEER_ACTIVE_COOLDOWN])
  {
  }

  /** Disconnects the peers one after the other. */
  method DisconnectEach(slot: Slot, ps: set<string>) returns (r: Slot)
    ensures r == DisconnectAll(slot, ps)
  {
    r := slot;
    var ks := SortedKeys(ps);
    assert DisconnectAll(slot, {}) == slot;
    for i := 0 to |ks|
      invariant r == DisconnectAll(slot, ToSet(ks[..i]))
    {
      assert ToSet(ks[..i + 1]) == ToSet(ks[..i]) + {ks[i]};
      DisconnectOneMore(slot, ToSet(ks[..i]), ks[i]);
      r := Slot(r.members - {ks[i]}, r.cooldown[ks[i] := PEER_ACTIVE_COOLDOWN]);
    }
    assert ks[..|ks|] == ks;
  }

  /** The partners of one list whose time ran out, and then its cooldowns. */
  method Leave(slot: Slot, ps: set<string>) returns (r: Slot)
    ensures r == PassedSlot(slot, ps)
  {
    r := DisconnectEach(slot, ps);
    var cooldown := CheckPeerActiveCooldown(r.cooldown);
    r := r.(cooldown := cooldown);
  }

  /** The sweep over all partners, the removals it notes, and the ageing of the cooldowns. */
  method PassOver(ghost s: State, peers: map<string, Partner>, ins: Slot, outs: Slot, frees: Slot)
    returns (peers': map<string, Partner>, ins': Slot, outs': Slot, frees': Slot)
    requires s.peers == peers && s.ins == ins && s.outs == outs && s.frees == frees && Active(s) <= peers.Keys
    ensures CheckList(s) == s.(peers := peers', ins := ins', outs := outs', frees := frees')
  {
    var sweep := SweepPartners(s, peers, ins.members, outs.members, frees.members);
    SweepIsPass(s, sweep);
    ins' := Leave(ins, sweep.fromIn);
    outs' := Leave(outs, sweep.fromOut);
    frees' := Leave(frees, sweep.fromFree);
    peers' := sweep.peers - sweep.gone;
  }

  method RelabelOut(peers: map<string, Partner>, members: set<string>, f: int -> int) returns (r: map<string, Partner>)
    ensures r == map p | p in peers :: if p in members then peers[p].(subId := f(peers[p].subId)) else peers[p]
  {
    r := UpdateEach(peers, (p, d: Partner) => if p in members then d.(subId := f(d.subId)) else d);
  }

  /** Draws `n` of the peers, one at a time. */
  method Sample(all: set<string>, n: nat) returns (selected: set<string>)
    requires n <= |all|
    ensures selected <= all && |selected| == n
  {
    var rest := all;
    selected := {};
    for i := 0 to n
      invariant selected !! rest && selected <= all && rest <= all && |selected| == i && |rest| == |all| - i
    {
      var drawn :| drawn in rest;
      selected := selected + {drawn};
      rest := rest - {drawn};
    }
  }

  /** Collects the merging partners and draws among them. */
  method PickSome(peers: map<string, Partner>, members: set<string>, qt: nat) returns (selected: set<string>)
    requires members <= peers.Keys
    ensures var all := set p | p in members && p in peers && peers[p].subId < 0;
            selected <= all && if |all| < qt then selected == all else |selected| == qt
  {
    var found := CollectKeys(members, p => p in peers && peers[p].subId < 0);
    var all := SetOf(found);
    assert all == set p | p in members && p in peers && peers[p].subId < 0;
    selected := all;
    if |all| >= qt {
      selected := Sample(all, qt);
    }
  }

  // ---- the sweep of the pass -------------------------------------------------------------------

  /** The variables of the loop over all active partners. */
  datatype Sweep = Sweep(peers: map<string, Partner>, fromIn: set<string>, fromOut: set<string>, fromFree: set<string>,
                         gone: set<string>)

  /** Their values when the peers in `done` have been visited. */
  ghost function SweptTo(s: State, done: set<string>): Sweep
    requires done <= Active(s) <= s.peers.Keys
  {
    Sweep(map p | p in s.peers :: if p in done then Passed(s, p) else s.peers[p],
          set p | p in done && LeavesIn(s, p),
          set p | p in done && LeavesOut(s, p),
          set p | p in done && LeavesFree(s, p),
          set p | p in done && Forgotten(s, p))
  }

  /** One partner: its counters drop, and the lists it leaves are noted. */
  method SweepOne(ghost s: State, ghost done: set<string>, p: string, sweep: Sweep,
                  isIn: bool, isOut: bool, isFree: bool)
    returns (r: Sweep)
    requires done <= Active(s) <= s.peers.Keys && p in Active(s) && p !in done && sweep == SweptTo(s, done)
    requires isIn == (p in s.ins.members) && isOut == (p in s.outs.members) && isFree == (p in s.frees.members)
    ensures r == SweptTo(s, done + {p})
  {
    var d := sweep.peers[p];
    var activeIn, activeOut, activeFree := isIn, isOut, isFree;
    r := sweep;
    if isIn {
      d := d.(ttlIn := d.ttlIn - 1);
      if d.ttlIn <= 0 {
        r, activeIn := r.(fromIn := r.fromIn + {p}), false;
      }
    }
    if isOut {
      d := d.(ttlOut := d.ttlOut - 1);
      if d.ttlOut <= 0 {
        r, activeOut := r.(fromOut := r.fromOut + {p}), false;
      }
    }
    if isFree {
      d := d.(ttlOut := d.ttlOut - 1);
      if d.ttlOut <= 0 {
        r, activeFree := r.(fromFree := r.fromFree + {p}), false;
      }
    }
    assert d == Passed(s, p);
    if !activeIn && !activeOut && !activeFree {
      r := r.(gone := r.gone + {p});
    }
    r := r.(peers := sweep.peers[p := d]);
    SweepStep(s, done, p);
  }

  lemma SweepStep(s: State, done: set<string>, p: string)
    requires done <= Active(s) <= s.peers.Keys && p in Active(s) && p !in done
    ensures var a, b := SweptTo(s, done), SweptTo(s, done + {p});
            && b.peers == a.peers[p := Passed(s, p)]
            && b.fromIn == a.fromIn + (if LeavesIn(s, p) then {p} else {})
            && b.fromOut == a.fromOut + (if LeavesOut(s, p) then {p} else {})
            && b.fromFree == a.fromFree + (if LeavesFree(s, p) then {p} else {})
            && b.gone == a.gone + (if Forgotten(s, p) then {p} else {})
  {
  }

  method SweepPartners(ghost s: State, peers: map<string, Partner>,
                       ins: set<string>, outs: set<string>, frees: set<string>)
    returns (sweep: Sweep)
    requires s.peers == peers && s.ins.members == ins && s.outs.members == outs && s.frees.members == frees
    requires Active(s) <= peers.Keys
    ensures sweep == SweptTo(s, Active(s))
  {
    var ks := SortedKeys(ins + outs + frees);
    sweep := Sweep(peers, {}, {}, {}, {});
    ghost var done: set<string> := {};
    NothingSwept(s);
    for i := 0 to |ks|
      invariant done == ToSet(ks[..i]) && done <= Active(s)
      invariant sweep == SweptTo(s, done)
    {
      NextVisit(ks, i);
      sweep := SweepOne(s, done, ks[i], sweep, ks[i] in ins, ks[i] in outs, ks[i] in frees);
      done := done + {ks[i]};
    }
    assert ks[..|ks|] == ks;
  }

  lemma NothingSwept(s: State)
    requires Active(s) <= s.peers.Keys
    ensures SweptTo(s, {}) == Sweep(s.peers, {}, {}, {}, {})
  {
  }

  lemma NextVisit(ks: seq<string>, i: nat)
    requires Sorted(ks) && i < |ks|
    ensures ks[i] in ToSet(ks) && ks[i] !in ToSet(ks[..i]) && ToSet(ks[..i + 1]) == ToSet(ks[..i]) + {ks[i]}
  {
    SortedHasNoDuplicates(ks);
    assert ks[..i + 1] == ks[..i] + [ks[i]];
  }

  lemma SweptPeers(s: State, sweep: Sweep)
    requires Active(s) <= s.peers.Keys && sweep == SweptTo(s, Active(s))
    ensures sweep.peers - sweep.gone == map p | p in s.peers && !Forgotten(s, p) :: Passed(s, p)
  {
    forall p | p in s.peers && p !in Active(s) ensures Passed(s, p) == s.peers[p] {
    }
  }

  lemma SweptLists(s: State, sweep: Sweep)
    requires Active(s) <= s.peers.Keys && sweep == SweptTo(s, Active(s))
    ensures sweep.fromIn == FromIn(s)
    ensures sweep.fromOut == FromOut(s)
    ensures sweep.fromFree == FromFree(s)
  {
  }

  /** The sweep and the removals after it are the pass. */
  lemma SweepIsPass(s: State, sweep: Sweep)
    requires Active(s) <= s.peers.Keys && sweep == SweptTo(s, Active(s))
    ensures CheckList(s) == s.(peers := sweep.peers - sweep.gone, ins := PassedSlot(s.ins, sweep.fromIn),
                               outs := PassedSlot(s.outs, sweep.fromOut), frees := PassedSlot(s.frees, sweep.fromFree))
  {
    SweptPeers(s, sweep);
    SweptLists(s, sweep);
  }
}
