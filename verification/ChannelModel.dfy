/**
 The bootstrap channel: the peers of one stream, the candidates for auxiliary server, and the
 sub-channels that isolate newcomers during a flash crowd.  This module says what each operation
 does to the channel's maps; ChannelInvariant proves what every run keeps and Channel holds the
 object with its loops.
 */
module ChannelModel {
  import opened AuxStates
  import opened Keys

  datatype Mode = Normal | FlashCrowd | Merging | Unknown

  /** What a peer tells about itself when it connects. */
  datatype Peer = Peer(ip: string, out: int, outFree: int)

  /** `subId` is the channel's own id in the main network, a sub-channel id, or -1 while merging. */
  datatype PeerData = PeerData(peer: Peer, subId: int, ttl: int, waitList: bool)

  datatype Candidate = Candidate(state: AuxState, waitInform: bool)

  datatype Config = Config(channelId: nat, server: string, maxSubChannel: nat, maxServerAuxCandidate: nat,
                           maxPeerInSubChannel: nat, sizeCluster: nat)

  /** `subs` gives the sub-channel each active auxiliary server serves; `cursor` is the insertion
      iterator, None standing for `end()`. */
  datatype State = State(mode: Mode, peers: map<string, PeerData>, subs: map<string, nat>,
                         cands: map<string, Candidate>, cursor: Option<string>)

  const TTL_CHANNEL: int := 10

  function Initial(c: Config, server: Peer): State {
    State(Normal, map[c.server := InMain(c, server)], map[], map[], None)
  }

  // ---- placement of a new peer -------------------------------------------------------

  function Members(peers: map<string, PeerData>, id: int): set<string> {
    set p | p in peers && peers[p].subId == id
  }

  function Load(peers: map<string, PeerData>, id: int): nat {
    |Members(peers, id)|
  }

  function InMain(c: Config, peer: Peer): PeerData {
    PeerData(peer, c.channelId, TTL_CHANNEL, false)
  }

  /** The servers after `k` in key order that serve another sub-channel. */
  function OtherClusters(subs: map<string, nat>, k: string): set<string>
    requires k in subs
  {
    set q | q in subs && Less(k, q) && subs[q] != subs[k]
  }

  /** Where the cursor goes after an insertion at `k`. */
  function NextCluster(subs: map<string, nat>, k: string): string
    requires k in subs
  {
    if OtherClusters(subs, k) == {} then Least(subs.Keys) else Least(OtherClusters(subs, k))
  }

  /** The servers whose sub-channel still has room. */
  function WithRoom(c: Config, s: State): set<string> {
    set k | k in s.subs && Load(s.peers, s.subs[k]) < c.maxPeerInSubChannel
  }

  function Insert(s: State, p: string, peer: Peer, k: string): State
    requires k in s.subs
  {
    s.(peers := s.peers[p := PeerData(peer, s.subs[k], TTL_CHANNEL, false)],
       cursor := Some(NextCluster(s.subs, k)))
  }

  function AddMaster(c: Config, s: State, p: string, peer: Peer): State {
    s.(peers := s.peers[p := InMain(c, peer)])
  }

  ghost predicate CursorValid(s: State) {
    s.cursor.Some? ==> s.cursor.value in s.subs
  }

  /** The server the next insertion tries first. */
  function Current(s: State): string
    requires s.subs != map[]
  {
    match s.cursor
    case Some(k) => k
    case None => Least(s.subs.Keys)
  }

  function AddPeer(c: Config, s: State, p: string, peer: Peer): State
    requires s.mode == FlashCrowd ==> CursorValid(s)
  {
    if s.mode != FlashCrowd || s.subs == map[] then AddMaster(c, s, p, peer)
    else
      var k := Current(s);
      if k in WithRoom(c, s) then Insert(s, p, peer, k)
      else if WithRoom(c, s) == {} then AddMaster(c, s.(cursor := Some(k)), p, peer)
      else Insert(s, p, peer, Least(WithRoom(c, s)))
  }

  // ---- candidates and the three modes ------------------------------------------------

  function Analyze(c: Config, s: State, p: string): State {
    if s.mode == Normal && p in s.peers && |s.cands| < c.maxServerAuxCandidate && p != c.server && p !in s.cands
    then s.(cands := s.cands[p := Candidate(NoServerAux, false)])
    else s
  }

  /** The keys in order, cut into full clusters; an incomplete last cluster is dropped. */
  function Clusters(ks: seq<string>, size: nat): seq<seq<string>> {
    if size == 0 || |ks| < size then [] else [ks[..size]] + Clusters(ks[size..], size)
  }

  /** Cluster `q` serves the sub-channel `base + 1 + q`. */
  function Served(base: nat, clusters: seq<seq<string>>): map<string, nat> {
    if clusters == [] then map[]
    else
      var n := |clusters| - 1;
      Served(base, clusters[..n]) + AllServe(clusters[n], base + 1 + n)
  }

  function AllServe(servers: seq<string>, id: nat): map<string, nat> {
    map k | k in servers :: id
  }

  function CreateAll(c: Config, s: State): State {
    var subs := Served(c.channelId, Clusters(SortedKeys(s.cands.Keys), c.sizeCluster));
    s.(subs := subs, cursor := if subs == map[] then None else Some(Least(subs.Keys)))
  }

  /** The random draw: everybody if there are few candidates, else the number that is needed. */
  ghost predicate Drawn(c: Config, s: State, selected: set<string>) {
    var n := c.maxSubChannel * c.sizeCluster;
    && selected <= s.cands.Keys
    && if |s.cands| > n then |selected| == n else selected == s.cands.Keys
  }

  function SetFlashCrowd(c: Config, s: State, selected: set<string>): State
    requires selected <= s.cands.Keys
  {
    var drawn := s.(cands := map k | k in selected :: Candidate(ServerAuxActive, true));
    var created := CreateAll(c, drawn);
    created.(peers := map p | p in s.peers ::
                        if p in selected then s.peers[p] else s.peers[p].(waitList := true),
             mode := FlashCrowd)
  }

  /** The servers turned to merging by one call: all that are left, or only the first. */
  function ToMerge(s: State, oneByOne: bool): set<string> {
    var left := set k | k in s.subs && k in s.cands && s.cands[k].state != ServerAuxMesclar;
    if oneByOne && left != {} then {Least(left)} else left
  }

  /** The chosen servers are told to merge and their peers leave the sub-channel. */
  function MergedBy(s: State, chosen: set<string>): State {
    var ids := set k | k in chosen && k in s.subs :: s.subs[k] as int;
    s.(cands := map k | k in s.cands ::
                  if k in chosen then Candidate(ServerAuxMesclar, true) else s.cands[k],
       peers := map p | p in s.peers ::
                  if s.peers[p].subId in ids then s.peers[p].(subId := -1) else s.peers[p])
  }

  function SetMerging(s: State, oneByOne: bool): State {
    MergedBy(s, ToMerge(s, oneByOne)).(mode := Merging)
  }

  function SetNormal(c: Config, s: State): State {
    s.(cands := map k | k in s.cands ::
                  if s.cands[k].state != NoServerAux then Candidate(NoServerAux, true) else s.cands[k],
       peers := map p | p in s.peers :: s.peers[p].(subId := c.channelId),
       subs := map[],
       mode := Normal)
  }

  function SetMode(c: Config, s: State, mode: Mode, oneByOne: bool, selected: set<string>): State
    requires selected <= s.cands.Keys
  {
    match mode
    case Normal => if s.mode == Normal then s else SetNormal(c, s)
    case Merging => if s.mode == FlashCrowd || s.mode == Merging then SetMerging(s, oneByOne) else s
    case FlashCrowd => if s.mode == Normal then SetFlashCrowd(c, s, selected) else s
    case Unknown => s
  }

  // ---- expiry ------------------------------------------------------------------------

  function Expired(s: State): set<string> {
    set p | p in s.peers && s.peers[p].ttl - 1 <= 0
  }

  function DecrementAll(s: State): State {
    s.(peers := map p | p in s.peers :: s.peers[p].(ttl := s.peers[p].ttl - 1))
  }

  /** No other server of the same sub-channel is left. */
  predicate Finishing(subs: map<string, nat>, p: string)
    requires p in subs
  {
    forall k :: k in subs && k != p ==> subs[k] != subs[p]
  }

  /** The peers of a sub-channel go back to the main network when its last server leaves. */
  function Returned(c: Config, peers: map<string, PeerData>, subs: map<string, nat>, p: string): map<string, PeerData> {
    var home := if p in subs && Finishing(subs, p) then subs[p] as int else c.channelId;
    map q | q in peers :: if peers[q].subId == home then peers[q].(subId := c.channelId) else peers[q]
  }

  function Remove(c: Config, s: State, p: string): State {
    s.(peers := Returned(c, s.peers, s.subs, p) - {p},
       subs := s.subs - {p},
       cands := s.cands - {p},
       cursor := if s.cursor == Some(p) && p in s.subs then Next(s.subs.Keys, p) else s.cursor)
  }

  lemma NothingReturned(c: Config, peers: map<string, PeerData>, subs: map<string, nat>, p: string)
    requires p !in subs
    ensures Returned(c, peers, subs, p) == peers
  {
  }

  function RemoveAll(c: Config, s: State, ps: seq<string>): State {
    if ps == [] then s else Remove(c, RemoveAll(c, s, ps[..|ps| - 1]), ps[|ps| - 1])
  }

  function CheckActive(c: Config, s: State): State {
    RemoveAll(c, DecrementAll(s), SortedKeys(Expired(s)))
  }

  /** A ping from a known peer. */
  function Refresh(s: State, p: string): State {
    if p in s.peers then s.(peers := s.peers[p := s.peers[p].(ttl := TTL_CHANNEL)]) else s
  }

  // ---- connecting --------------------------------------------------------------------

  /** The connect branch adds only peers the channel does not know. */
  function Joined(c: Config, s: State, p: string, peer: Peer, candidate: bool): State
    requires s.mode == FlashCrowd ==> CursorValid(s)
  {
    var t := if p in s.peers then s else AddPeer(c, s, p, peer);
    if candidate then Analyze(c, t, p) else t
  }

  predicate WaitsInform(s: State, p: string) {
    p in s.cands && s.cands[p].waitInform
  }

  predicate WaitsList(s: State, p: string) {
    p in s.peers && s.peers[p].waitList
  }

  /** What a reply leaves: an inform, or the list of servers, is delivered once. */
  function Answered(s: State, p: string): State {
    if WaitsInform(s, p) then s.(cands := s.cands[p := s.cands[p].(waitInform := false)])
    else if WaitsList(s, p) then s.(peers := s.peers[p := s.peers[p].(waitList := false)])
    else s
  }

  // ---- the neighbour query -----------------------------------------------------------

  ghost predicate Live(s: State, id: int) {
    exists k :: k in s.subs && s.subs[k] == id
  }

  /** The filter of the query outside normal mode, for the asker `src` with `out` partners to serve. */
  predicate MayMeet(c: Config, s: State, src: string, out: int, p: string)
    requires src in s.peers && p in s.peers
  {
    var mine, theirs := s.peers[src].subId, s.peers[p].subId;
    && src != p
    && (mine == theirs || (mine < 0 && out > 0 && theirs == c.channelId) || (mine == c.channelId && theirs < 0))
    && p !in s.subs
  }

  /** Everybody the query may return, before the bandwidth filter. */
  function Eligible(c: Config, s: State, src: string, asker: Peer, virtualPeer: bool): set<string>
    requires src in s.peers
  {
    var apart := set p | p in s.peers && (virtualPeer ==> asker.ip != s.peers[p].peer.ip);
    if s.mode != FlashCrowd && s.mode != Merging then
      set p | p in apart && p in s.peers && p != src
    else
      var mine := s.peers[src].subId;
      (set p | p in apart && p in s.peers && MayMeet(c, s, src, asker.out, p))
      + (if mine != c.channelId && mine > 0 then set k | k in s.subs && s.subs[k] == mine else {})
  }

  /** Contributors get partners with enough bandwidth; the others, when lists are separate, partners
      with enough free-rider bandwidth. */
  predicate Affords(s: State, asker: Peer, p: string, minimum: nat, minimumFree: nat, separated: bool)
    requires p in s.peers
  {
    if !separated || asker.out > 0 then s.peers[p].peer.out >= minimum else s.peers[p].peer.outFree >= minimumFree
  }

  function Neighbours(c: Config, s: State, src: string, asker: Peer, virtualPeer: bool,
                      minimum: nat, minimumFree: nat, separated: bool): set<string>
    requires src in s.peers
  {
    set p | p in Eligible(c, s, src, asker, virtualPeer) && p in s.peers
            && Affords(s, asker, p, minimum, minimumFree, separated)
  }
}
