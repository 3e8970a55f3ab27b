/** The bootstrap: the channel messages it answers and the channels it owns. */
module Bootstrap {
  import opened AuxStates
  import opened Keys
  import opened Walks
  import opened ChannelExpiry
  import opened ChannelModel
  import opened ChannelInvariant
  import opened Handshake
  import Channel

  datatype Flag = Create | Connecting | ChangeState | UnknownFlag

  /** `mode` is None for the null mode; Unknown stands for any other code that is no mode. */
  datatype Message = Message(flag: Flag, version: nat, channelId: nat, candidate: bool, mode: Option<Mode>)

  datatype Failure = NoError | InvalidClientVersion | CannotBeCreated | Unavailable | StateNull

  datatype Reply =
    | Error(failure: Failure)
    | StateChannel(mode: Mode)
    | ServerSub(state: AuxState)
    | ServerAuxList(ids: seq<string>)
    | Neighbourhood(ids: seq<string>)

  /** The settings of the neighbour query. */
  datatype Sharing = Sharing(size: nat, virtualPeer: bool, minimum: nat, minimumFree: nat, separated: bool)

  const VERSION: nat := 0x010C

  /** The reply the state calls for: an inform first, then the list of servers, else neighbours. */
  ghost predicate Replies(c: Config, s: State, p: string, peer: Peer, g: Sharing, reply: Reply)
    requires p in s.peers
  {
    if WaitsInform(s, p) then reply == ServerSub(s.cands[p].state)
    else if WaitsList(s, p) then reply == ServerAuxList(SortedKeys(s.cands.Keys))
    else
      var N := Neighbours(c, s, p, peer, g.virtualPeer, g.minimum, g.minimumFree, g.separated);
      && reply.Neighbourhood? && NoDuplicates(reply.ids) && ToSet(reply.ids) <= N
      && |reply.ids| == if g.size < |N| then g.size else |N|
  }

  /** The reply to a connect message: the one the joined state calls for. */
  ghost predicate ConnectReply(c: Config, s: State, p: string, peer: Peer, candidate: bool, g: Sharing, reply: Reply)
    requires s.mode == FlashCrowd ==> CursorValid(s)
  {
    var joined := Joined(c, s, p, peer, candidate);
    p in joined.peers && Replies(c, joined, p, peer, g, reply)
  }

  /** A reply to a connect message never shows a peer a network it is isolated from. */
  lemma ReplyIsIsolated(c: Config, s: State, p: string, peer: Peer, candidate: bool, g: Sharing, reply: Reply)
    requires Inv(c, s) && ConnectReply(c, s, p, peer, candidate, g, reply) && reply.Neighbourhood?
    ensures var joined := Joined(c, s, p, peer, candidate);
            p in joined.peers && forall q :: q in reply.ids ==> MayLearnOf(c, joined, p, peer, q)
  {
    var joined := Joined(c, s, p, peer, candidate);
    JoinedKeepsInv(c, s, p, peer, candidate);
    SelectionIsIsolated(c, joined, p, peer, g.virtualPeer, g.minimum, g.minimumFree, g.separated, reply.ids);
  }

  class Bootstrap {
    const limits: Config     // the limits every new channel gets
    const sharing: Sharing
    const timeMerge: bool
    var channelList: map<nat, Channel.Channel>

    ghost predicate Valid()
      reads this, channelList.Values
    {
      && (forall id :: id in channelList ==> Inv(channelList[id].config, channelList[id].View())
                                             && channelList[id].config.channelId == id)
      && (forall i, j :: i in channelList && j in channelList && i != j ==> channelList[i] != channelList[j])
    }

    constructor (limits: Config, sharing: Sharing, timeMerge: bool)
      ensures Valid() && channelList == map[]
      ensures this.limits == limits && this.sharing == sharing && this.timeMerge == timeMerge
    {
      this.limits, this.sharing, this.timeMerge := limits, sharing, timeMerge;
      channelList := map[];
    }

    /** The reply to a peer that is in the channel; delivering an inform or a list clears its flag. */
    method Answer(channel: Channel.Channel, p: string, peer: Peer) returns (reply: Reply)
      requires Inv(channel.config, channel.View()) && p in channel.peerList
      modifies channel
      ensures Replies(channel.config, old(channel.View()), p, peer, sharing, reply)
      ensures channel.View() == Answered(old(channel.View()), p)
    {
      var inform := channel.GetServerSubWaitInform(p);
      if inform {
        reply := ServerSub(channel.serverSubCandidates[p].state);
        channel.SetServerSubWaitInform(p, false);
        assert channel.View().cands == Answered(old(channel.View()), p).cands;
        return;
      }
      var list := channel.GetWaitServerList(p);
      if list {
        var ids := channel.MakeServerAuxList();
        SortedIsUnique(ids, SortedKeys(channel.serverSubCandidates.Keys));
        reply := ServerAuxList(ids);
        channel.SetWaitServerList(p, false);
        assert channel.View().peers == Answered(old(channel.View()), p).peers;
      } else {
        var ids := channel.SelectPeerList(p, peer, sharing.size, sharing.virtualPeer, sharing.minimum,
                                          sharing.minimumFree, sharing.separated);
        reply := Neighbourhood(ids);
      }
    }

    /** The connect branch. */
    method Connect(channel: Channel.Channel, p: string, peer: Peer, candidate: bool) returns (reply: Reply)
      requires Inv(channel.config, channel.View())
      modifies channel
      ensures channel.View() == Step(channel.config, old(channel.View()), Op.Connect(p, peer, candidate))
      ensures ConnectReply(channel.config, old(channel.View()), p, peer, candidate, sharing, reply)
    {
      JoinedKeepsInv(channel.config, channel.View(), p, peer, candidate);
      if p !in channel.peerList {
        channel.AddPeer(p, peer);
      }
      if candidate {
        channel.AnalizePeerToBeServerAux(p);
      }
      reply := Answer(channel, p, peer);
    }

    /** A message from the peer `p`; every branch, with the error each refusal gets. */
    method HandleChannelMessage(m: Message, p: string, peer: Peer) returns (reply: Reply, ghost selected: set<string>)
      requires Valid()
      modifies this`channelList, if m.channelId in channelList then {channelList[m.channelId]} else {}
      ensures Valid()
      ensures m.version != VERSION ==> reply == Error(InvalidClientVersion)
      ensures m.version == VERSION && m.flag == Create && m.channelId in old(channelList) ==>
                reply == Error(CannotBeCreated)
      ensures m.version == VERSION && m.flag == Connecting && m.channelId !in old(channelList) ==>
                reply == Error(Unavailable)
      ensures m.version == VERSION && m.flag == ChangeState ==>
                reply == if m.mode == None then Error(StateNull) else StateChannel(m.mode.value)
      ensures m.version == VERSION && m.flag == UnknownFlag ==> reply == Error(NoError)
      // an error leaves every channel as it was
      ensures reply.Error? ==>
                channelList == old(channelList)
                && (m.channelId in channelList ==>
                      channelList[m.channelId].View() == old(channelList[m.channelId].View()))
      // a new channel holds its server alone
      ensures m.version == VERSION && m.flag == Create && m.channelId !in old(channelList) ==>
                && reply == Neighbourhood([])
                && channelList.Keys == old(channelList).Keys + {m.channelId}
                && (forall id :: id in old(channelList) ==> channelList[id] == old(channelList)[id])
                && channelList[m.channelId].config == limits.(channelId := m.channelId, server := p)
                && channelList[m.channelId].View() == Initial(channelList[m.channelId].config, peer)
      // the other branches are steps of one channel
      ensures m.version == VERSION && m.flag == Connecting && m.channelId in old(channelList) ==>
                var ch := old(channelList)[m.channelId];
                && channelList == old(channelList)
                && ch.View() == Step(ch.config, old(ch.View()), Op.Connect(p, peer, m.candidate))
                && ConnectReply(ch.config, old(ch.View()), p, peer, m.candidate, sharing, reply)
      ensures m.version == VERSION && m.flag == ChangeState && m.mode.Some? && m.channelId in old(channelList) ==>
                var ch := old(channelList)[m.channelId];
                && channelList == old(channelList)
                && DrawnFor(ch.config, old(ch.View()), m.mode.value, selected)
                && ch.View() == Step(ch.config, old(ch.View()), Op.ChangeMode(m.mode.value, timeMerge, selected))
    {
      selected := {};
      if m.version != VERSION {
        return Error(InvalidClientVersion), {};
      }
      match m.flag
      case Create =>
        if m.channelId in channelList {
          return Error(CannotBeCreated), {};
        }
        reply := CreateChannel(m.channelId, p, peer);
      case Connecting =>
        if m.channelId !in channelList {
          return Error(Unavailable), {};
        }
        var channel := channelList[m.channelId];
        StepKeepsInv(channel.config, channel.View(), Op.Connect(p, peer, m.candidate));
        reply := Connect(channel, p, peer, m.candidate);
      case ChangeState =>
        if m.mode == None {
          return Error(StateNull), {};
        }
        selected := SetChannelState(m.channelId, m.mode.value);
        reply := StateChannel(m.mode.value);
      case UnknownFlag =>
        reply := Error(NoError);
    }

    method CreateChannel(id: nat, p: string, peer: Peer) returns (reply: Reply)
      requires Valid() && id !in channelList
      modifies this`channelList
      ensures Valid() && channelList.Keys == old(channelList).Keys + {id} && fresh(channelList[id])
      ensures forall i :: i in old(channelList) ==> channelList[i] == old(channelList)[i]
      ensures channelList[id].config == limits.(channelId := id, server := p)
      ensures channelList[id].View() == Initial(channelList[id].config, peer) && reply == Neighbourhood([])
    {
      var channel;
      channel, reply := NewChannel(id, p, peer);
      Register(id, channel);
    }

    method Register(id: nat, channel: Channel.Channel)
      requires Valid() && id !in channelList && channel !in channelList.Values
      requires channel.config.channelId == id && Inv(channel.config, channel.View())
      modifies this`channelList
      ensures Valid() && channelList == old(channelList)[id := channel]
    {
      assert forall i :: i in channelList ==> channelList[i] in channelList.Values;
      channelList := channelList[id := channel];
    }

    /** The new channel already answers its server's create message. */
    method NewChannel(id: nat, p: string, peer: Peer) returns (channel: Channel.Channel, reply: Reply)
      ensures fresh(channel) && channel.config == limits.(channelId := id, server := p)
      ensures channel.View() == Initial(channel.config, peer) && Inv(channel.config, channel.View())
      ensures reply == Neighbourhood([])
    {
      channel := new Channel.Channel(limits.(channelId := id, server := p), peer);
      reply := Answer(channel, p, peer);
      AloneWithoutNeighbours(channel.config, peer, sharing, reply);
    }

    /** Every channel with the id is told; there is at most one. */
    method SetChannelState(id: nat, mode: Mode) returns (ghost selected: set<string>)
      requires Valid()
      modifies if id in channelList then {channelList[id]} else {}
      ensures Valid()
      ensures id in channelList ==>
                var ch := channelList[id];
                && DrawnFor(ch.config, old(ch.View()), mode, selected)
                && ch.View() == Step(ch.config, old(ch.View()), Op.ChangeMode(mode, timeMerge, selected))
    {
      selected := {};
      if id in channelList {
        var channel := channelList[id];
        ghost var before := channel.View();
        selected := channel.SetChannelMode(mode, timeMerge);
        StepKeepsInv(channel.config, before, Op.ChangeMode(mode, timeMerge, selected));
      }
    }

    /** A ping of a peer the channel knows. */
    method HandlePingMessage(id: nat, p: string)
      requires Valid()
      modifies if id in channelList then {channelList[id]} else {}
      ensures Valid()
      ensures id in channelList ==>
                channelList[id].View() == Step(channelList[id].config, old(channelList[id].View()), Op.Ping(p))
    {
      if id in channelList {
        var channel := channelList[id];
        StepKeepsInv(channel.config, channel.View(), Op.Ping(p));
        channel.Refresh(p);
      }
    }

    /** Every channel with its limits and its state. */
    ghost function View(): map<nat, Entry>
      reads this, channelList.Values
    {
      map id | id in channelList :: Entry(channelList[id].config, channelList[id].View())
    }

    ghost predicate Distinct()
      reads this
    {
      forall i, j :: i in channelList && j in channelList && i != j ==> channelList[i] != channelList[j]
    }

    ghost predicate Matches(t: map<nat, Entry>)
      reads this, channelList.Values
    {
      && t.Keys == channelList.Keys
      && forall id :: id in channelList ==>
                        channelList[id].config == t[id].config && channelList[id].View() == t[id].state
    }

    /** Once a second: every channel is checked, and those whose server has expired are removed. */
    method CheckPeerList()
      requires Valid()
      modifies this`channelList, channelList.Values
      ensures Valid() && View() == CheckedAll(old(View()))
      ensures forall id :: id in channelList ==> id in old(channelList) && channelList[id] == old(channelList)[id]
    {
      ghost var before := View();
      ghost var after := map id | id in before :: CheckedEntry(before[id]);
      ValidTable();
      KeptAreChecked(before, after);
      RemoveLost(before, after);
      MatchesIsView(after - Serverless(after, {}));
    }

    lemma ValidTable()
      requires Valid()
      ensures Distinct() && Matches(View()) && AllInv(View())
    {
    }

    method RemoveLost(ghost before: map<nat, Entry>, ghost after: map<nat, Entry>)
      requires Distinct() && Matches(before) && AllChecked(before, after) && AllInv(after)
      modifies this`channelList, channelList.Values
      ensures Valid() && Matches(after - Serverless(after, {}))
      ensures channelList == old(channelList) - Serverless(after, {})
    {
      var deletedChannel := CheckChannels(before, after);
      RemoveChannels(after, deletedChannel);
    }

    method RemoveChannels(ghost t: map<nat, Entry>, deletedChannel: set<nat>)
      requires Distinct() && Matches(t) && AllInv(t)
      modifies this`channelList
      ensures Valid() && Matches(t - deletedChannel) && channelList == old(channelList) - deletedChannel
    {
      channelList := channelList - deletedChannel;
    }

    lemma MatchesIsView(t: map<nat, Entry>)
      requires Matches(t)
      ensures View() == t
    {
    }

    /** Checks one channel after the other; `after` is what the check makes of each. */
    method CheckChannels(ghost before: map<nat, Entry>, ghost after: map<nat, Entry>) returns (deletedChannel: set<nat>)
      requires Distinct() && Matches(before) && AllChecked(before, after)
      modifies channelList.Values
      ensures Matches(after) && deletedChannel == Serverless(after, {})
    {
      var rest := channelList.Keys;
      deletedChannel := {};
      NoneChecked(before, after);
      while rest != {}
        invariant rest <= before.Keys && Matches(Mixed(before, after, rest))
        invariant deletedChannel == Serverless(after, rest)
        decreases rest
      {
        rest, deletedChannel := CheckNext(before, after, rest, deletedChannel);
      }
    }

    /** Checks any channel of `rest`. */
    method CheckNext(ghost before: map<nat, Entry>, ghost after: map<nat, Entry>, rest: set<nat>, deleted: set<nat>)
      returns (rest': set<nat>, deleted': set<nat>)
      requires Distinct() && AllChecked(before, after) && {} != rest <= before.Keys
      requires Matches(Mixed(before, after, rest)) && deleted == Serverless(after, rest)
      modifies channelList.Values
      ensures rest' < rest && Matches(Mixed(before, after, rest')) && deleted' == Serverless(after, rest')
    {
      var id :| id in rest;
      OneMoreChecked(before, after, rest, id);
      var gone := CheckChannel(id, Mixed(before, after, rest), after[id]);
      rest' := rest - {id};
      if gone {
        deleted' := deleted + {id};
      } else {
        deleted' := deleted;
      }
    }

    method CheckChannel(id: nat, ghost t: map<nat, Entry>, ghost u: Entry) returns (gone: bool)
      requires Distinct() && Matches(t) && id in t && u == CheckedEntry(t[id])
      modifies if id in channelList then {channelList[id]} else {}
      ensures Matches(t[id := u]) && (gone <==> Lost(u))
    {
      var channel := channelList[id];
      gone := CheckOne(channel, u.state);
      forall i | i in channelList && i != id ensures channelList[i].View() == t[i].state {
        assert channelList[i] != channel;
      }
    }

    /** The check of one channel, and whether its server is still there. */
    method CheckOne(channel: Channel.Channel, ghost after: State) returns (gone: bool)
      requires after == CheckActive(channel.config, channel.View())
      modifies channel
      ensures channel.View() == after && (gone <==> channel.config.server !in after.peers)
    {
      channel.CheckActivePeers();
      gone := channel.config.server !in channel.peerList;
    }
  }

  datatype Entry = Entry(config: Config, state: State)

  ghost function CheckedEntry(e: Entry): Entry {
    e.(state := CheckActive(e.config, e.state))
  }

  /** The server is no peer any more. */
  ghost predicate Lost(e: Entry) {
    e.config.server !in e.state.peers
  }

  ghost predicate AllChecked(before: map<nat, Entry>, after: map<nat, Entry>) {
    before.Keys == after.Keys && forall id :: id in before ==> after[id] == CheckedEntry(before[id])
  }

  /** The entries in `rest` are not checked yet. */
  ghost function Mixed(before: map<nat, Entry>, after: map<nat, Entry>, rest: set<nat>): map<nat, Entry>
    requires before.Keys == after.Keys
  {
    map id | id in before :: if id in rest then before[id] else after[id]
  }

  ghost function Serverless(after: map<nat, Entry>, rest: set<nat>): set<nat> {
    set id | id in after && id !in rest && Lost(after[id])
  }

  /** The channels after a check: those whose server stays, each after its own check. */
  ghost function CheckedAll(t: map<nat, Entry>): map<nat, Entry> {
    map id | id in t && ServerStays(t[id].config, t[id].state) :: CheckedEntry(t[id])
  }

  ghost predicate AllInv(t: map<nat, Entry>) {
    forall id :: id in t ==> Inv(t[id].config, t[id].state) && t[id].config.channelId == id
  }

  lemma NoneChecked(before: map<nat, Entry>, after: map<nat, Entry>)
    requires before.Keys == after.Keys
    ensures Mixed(before, after, before.Keys) == before && Serverless(after, before.Keys) == {}
    ensures Mixed(before, after, {}) == after
  {
  }

  lemma OneMoreChecked(before: map<nat, Entry>, after: map<nat, Entry>, rest: set<nat>, id: nat)
    requires before.Keys == after.Keys && id in rest && id in before
    ensures Mixed(before, after, rest)[id] == before[id]
    ensures Mixed(before, after, rest - {id}) == Mixed(before, after, rest)[id := after[id]]
    ensures Serverless(after, rest - {id})
            == if Lost(after[id]) then Serverless(after, rest) + {id} else Serverless(after, rest)
  {
  }

  lemma EntryChecked(e: Entry)
    requires Inv(e.config, e.state)
    ensures Inv(e.config, CheckedEntry(e).state) && (Lost(CheckedEntry(e)) <==> !ServerStays(e.config, e.state))
  {
    ServerIsChecked(e.config, e.state);
    StepKeepsInv(e.config, e.state, Op.Check);
  }

  /** What is left when the lost channels are removed. */
  lemma KeptAreChecked(before: map<nat, Entry>, after: map<nat, Entry>)
    requires AllInv(before) && AllChecked(before, after)
    ensures after - Serverless(after, {}) == CheckedAll(before) && AllInv(after)
  {
    forall id | id in before
      ensures Inv(after[id].config, after[id].state)
      ensures Lost(after[id]) <==> !ServerStays(before[id].config, before[id].state)
    {
      EntryChecked(before[id]);
    }
    LostAreLeftOut(before, after);
  }

  lemma LostAreLeftOut(before: map<nat, Entry>, after: map<nat, Entry>)
    requires AllChecked(before, after)
    requires forall id :: id in before ==> (Lost(after[id]) <==> !ServerStays(before[id].config, before[id].state))
    ensures after - Serverless(after, {}) == CheckedAll(before)
  {
  }

  /** The counter of the channel's server does not run out at the next check. */
  ghost predicate ServerStays(c: Config, s: State) {
    c.server in s.peers && s.peers[c.server].ttl > 1
  }

  lemma ServerIsChecked(c: Config, s: State)
    requires Inv(c, s)
    ensures ServerStays(c, s) <==> c.server in CheckActive(c, s).peers
  {
    CheckRemovesExpired(c, s);
  }

  lemma AloneWithoutNeighbours(c: Config, peer: Peer, g: Sharing, reply: Reply)
    requires Replies(c, Initial(c, peer), c.server, peer, g, reply)
    ensures reply == Neighbourhood([])
  {
    var N := Neighbours(c, Initial(c, peer), c.server, peer, g.virtualPeer, g.minimum, g.minimumFree, g.separated);
    assert N == {};
  }

  /** The next connect message of a peer that was in the main network when a flash crowd began, and was not chosen
      as a server, is answered with the list of the candidates of that moment, and the list is owed no longer. */
  lemma ServerListIsDelivered(c: Config, s: State, crowd: Op, ops: seq<Op>, p: string, peer: Peer, candidate: bool,
                              g: Sharing, reply: Reply)
    requires Inv(c, s) && s.mode == Normal && crowd.ChangeMode? && crowd.mode == FlashCrowd && Legal(c, s, crowd)
    requires p in s.peers && p !in crowd.selected
    requires LegalRun(c, After(c, s, crowd), ops) && Silent(ops, p) && p in Run(c, After(c, s, crowd), ops).peers
    requires ConnectReply(c, Run(c, After(c, s, crowd), ops), p, peer, candidate, g, reply)
    ensures var t := Run(c, After(c, s, crowd), ops);
            && reply == ServerAuxList(SortedKeys(Joined(c, t, p, peer, candidate).cands.Keys))
            && !WaitsList(Step(c, t, Op.Connect(p, peer, candidate)), p)
  {
    ServerListWaits(c, s, crowd, ops, p);
    ListReply(c, Run(c, After(c, s, crowd), ops), p, peer, candidate, g, reply);
  }

  lemma ListReply(c: Config, s: State, p: string, peer: Peer, candidate: bool, g: Sharing, reply: Reply)
    requires Inv(c, s) && WaitsList(s, p) && p !in s.cands && ConnectReply(c, s, p, peer, candidate, g, reply)
    ensures reply == ServerAuxList(SortedKeys(Joined(c, s, p, peer, candidate).cands.Keys))
    ensures !WaitsList(Step(c, s, Op.Connect(p, peer, candidate)), p)
  {
    JoinedCandidates(c, s, p, peer, candidate);
    assert Joined(c, s, p, peer, candidate).peers == s.peers;
  }

  /** The reply to a candidate that waits is its latest state, and it waits no longer. */
  lemma StateIsDelivered(c: Config, s: State, p: string, peer: Peer, candidate: bool, g: Sharing, reply: Reply)
    requires Inv(c, s) && WaitsInform(s, p) && ConnectReply(c, s, p, peer, candidate, g, reply)
    ensures reply == ServerSub(s.cands[p].state) && !WaitsInform(Step(c, s, Op.Connect(p, peer, candidate)), p)
  {
    assert Joined(c, s, p, peer, candidate) == s;
  }
}
