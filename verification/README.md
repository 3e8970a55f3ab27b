# TVPP in Dafny

TVPP is a peer-to-peer live-streaming system: a bootstrap keeps the channels and tells peers about each other,
clients exchange chunks of the stream, and some clients become auxiliary servers of isolated sub-channels while a
flash crowd lasts. This project models its stateful cores and proves what they keep over whole runs.

| module | what it is about |
|---|---|
| ChannelModel, ChannelInvariant, ChannelBalance, ChannelMerging, ChannelExpiry | the channel of the bootstrap: placement, candidates, the three modes, expiry, the neighbour query; its invariant, the isolation of the networks, the balance of the sub-channels, merging, and soft state |
| Channel, Bootstrap, Handshake | the channel object with its loops, the channel messages of the bootstrap, and what each candidate is told over a run |
| Partners, PartnerRuns, PartnerTheorems, Merge, PeerManager | the partner manager of a client: bounded lists, times-to-live, cooldowns, the stages of an auxiliary server, and why a merge ends; PeerManager is the object with its loops |
| RoundRobin, Deadline | the two message schedulers with a structure of their own |
| ChunkId, MediaBuffer, SourceRing | chunk identities in machine words, the parallel arrays of the media buffer, the ring of the source and the replies it gives |
| Wire, Messages, Peerlist | header fields in bytes, the checksum, the field setters, the concrete layouts, the peer list |
| RateLimiter | the token bucket and its timer |
| Keys, Walks, Filters, Words, Arithmetic, AuxStates | key order of `std::set` and `std::map`, loops over them, filtering, machine words, products and quotients, the stages of an auxiliary server |

The pattern is the same everywhere. A pure step function per operation says what the operation does to the state. An
object has the fields of the C++ class, its methods loop where the source loops, and each method is proved equal to
its step function. The theorems are about the step functions: invariants of every run, and what follows from them.
Each public operation is one atomic step, and each random draw is any draw the code could make.

## Readings of the code

- `src/common/Channel.cpp:215` compares where it means to assign: an end cursor is taken as a cursor at the first server.
- `src/common/Channel.cpp:268` and `:275` erase at the end iterator: taken as clearing the vector.
- A flash crowd that finds no full cluster of candidates leaves no sub-channel: newcomers then go to the main channel,
  and the cursor is the end iterator. The increment of an end iterator at `src/common/Channel.cpp:685` leaves it there.
- Sub-channel ids are mathematical integers. They agree with the 32-bit words of the code while the channel id plus the
  number of clusters stays below 2^31.
- `ConnectPeer` chooses the counter to refresh by comparing the contents of two sets, not their identity
  (`src/client/PeerManager.cpp:122`). The model does the same; `OutputCounter` says exactly when it matters,
  `OutputCounterMissed` that it can.
- The decision table in the comment at `src/client/PeerManager.cpp:281-294` leaves open what happens to a peer in both
  output lists. The code takes two from its one counter; `DecisionTable` states what the code does.
- A server that is dropped from the candidates, by the draw of the next flash crowd (`src/common/Channel.cpp:398-414`) or
  by expiry, is not told that it is none any more. `CandidatesKnowTheirState` says exactly who knows its state,
  `FormerServerIsNotTold` gives a run.
- The flag that makes a merge end in `exit(1)` is set by one message and reset by none. A period of zero gives the 8-bit
  merge timer 256 ticks. A quota of zero ends a merge at its first firing.
- The checksum is a sum modulo 2^16 without end-around carry, so it is not the Internet checksum of section 1 of RFC 1071.
- The declared header of the server-aux message, 32 bytes, is longer than its layout.
- The cycle difference at `src/common/ChunkUniqueID.cpp:109` is taken in unsigned words, so the clamp after it never acts.
- A channel is removed at the check at which its server expires (`src/bootstrap/bootstrap.cpp:466-480`). The runs of one
  channel are stated without that end, so they include all that stop there.
- The deadline of a request before its requester's playback wraps, so late requests wait behind some that are in time.
  `PopTakesClosest` says exactly when the head of the queue is the most urgent request.

## Model

| member | source | states |
|---|---|---|
| `ChannelInvariant.ReachedInv` | src/common/Channel.cpp:188-294 | after every run of connects, mode changes, expiry checks and pings: servers are candidates, candidates are peers, servers stay in the main network, every sub-id is the channel's, a live sub-channel's, or -1 while merging; normal mode has no sub-channels |
| `ChannelInvariant.ReachedClosed` | src/common/Channel.cpp:3-29 | a new channel is reachable, and so is the result of every legal operation on a reachable one |
| `ChannelInvariant.StepKeepsInv` | src/common/Channel.cpp:340-450 | every operation of the channel keeps that invariant, whatever the random draw |
| `ChannelInvariant.NormalIsMain` | src/common/Channel.cpp:351-367 | in normal mode every peer is in the main network |
| `ChannelInvariant.RemoveKeepsPlaced` | src/common/Channel.cpp:677-697 | the removal of an expired peer leaves nobody in a sub-channel without a server |
| `ChannelInvariant.SubChannelIsolated` | src/common/Channel.cpp:531-572 | in every flash-crowd or merging state that satisfies the invariant, so in every reachable one, a peer of a live sub-channel is offered exactly the other peers of that sub-channel and its servers |
| `ChannelInvariant.MainNetworkIsolated` | src/common/Channel.cpp:542-559 | a peer of the main network is offered exactly the others that are in the main network or merging, and never an auxiliary server or a peer of a live sub-channel |
| `ChannelInvariant.MergingIsolated` | src/common/Channel.cpp:542-559 | a merging peer is offered exactly the other merging peers, and main-network peers if and only if it contributes output |
| `ChannelInvariant.NeverItself` | src/common/Channel.cpp:521-559 | in every state that satisfies the invariant no peer is ever its own neighbour, in any mode |
| `ChannelInvariant.NormalMeetsAll` | src/common/Channel.cpp:521-530 | in normal mode everybody is offered everybody else |
| `ChannelInvariant.SelectionIsIsolated` | src/common/Channel.cpp:514-608 | whatever is chosen among the neighbours, nobody in it is the asker or belongs to a network the asker is isolated from |
| `ChannelExpiry.CheckRemovesExpired` | src/common/Channel.cpp:664-701 | one check removes exactly the peers whose counter runs out, with their places as servers and candidates, and sends exactly the peers of a sub-channel that lost its last server back to the main network |
| `ChannelExpiry.SilentPeerStays` | src/common/Channel.cpp:664-672 | without a ping a peer with counter T stays through fewer than T checks, whatever connects, mode changes and removals happen |
| `ChannelExpiry.SilentPeerLeaves` | src/common/Channel.cpp:664-701 | the T-th check removes it as a peer, as a server and as a candidate |
| `ChannelBalance.MainNetworkOnlyWhenFull` | src/common/Channel.cpp:158-203 | in every reachable flash-crowd state a newcomer goes to the main network if and only if every sub-channel is full, and otherwise to one with room, without moving anybody |
| `ChannelBalance.LoadsBounded` | src/common/Channel.cpp:205-240 | no sub-channel of a reachable flash-crowd state exceeds its limit |
| `ChannelBalance.CreatedClusters` | src/common/Channel.cpp:246-278 | the mode change builds one sub-channel per full cluster, with consecutive ids, each served by exactly the cluster size of candidates that are contiguous in key order |
| `ChannelBalance.CursorStep` | src/common/Channel.cpp:222-235 | the insertion cursor visits the first servers of the clusters cyclically |
| `ChannelBalance.BalancedPlacement` | src/common/Channel.cpp:158-278 | after n arrivals sub-channel i of K holds n / K peers, plus one for the first n % K, so loads differ by at most one |
| `ChannelMerging.OneByOneMergesAll` | src/common/Channel.cpp:368-384 | from any state, n calls that merge one server each do what one call that merges all does if and only if n is at least the number of servers left, and there is a call or a merge is already under way |
| `ChannelMerging.ReachedTold` | src/common/Channel.cpp:368-421 | on every run, candidates are all active during a flash crowd, and while merging a server that was told to merge has no peer left in its sub-channel |
| `ChannelMerging.NobodyLeftBehind` | src/common/Channel.cpp:368-384 | once all servers have been told to merge, every peer is in the main network or merging |
| `Channel.Channel.constructor` | src/common/Channel.cpp:3-29 | a new channel holds its server alone and satisfies the invariant |
| `Channel.FirstWithRoom` | src/common/Channel.cpp:158-179 | the search that tests each run of servers once finds the first server in key order whose sub-channel has room, and nothing only if there is none |
| `Channel.Channel.AllSubChannelFull` | src/common/Channel.cpp:158-179 | true if and only if every sub-channel is full; otherwise the cursor is on the first server with room |
| `Channel.Channel.AdvanceCursor` | src/common/Channel.cpp:222-235 | the walk from the cursor finds the next server of another sub-channel, or wraps to the first |
| `Channel.Channel.AddPeerChannel` | src/common/Channel.cpp:205-240 | one insertion attempt: placed at the cursor if there is room, refused otherwise |
| `Channel.Channel.AddPeer` | src/common/Channel.cpp:188-203 | the two attempts and the fallback are the placement function of the theorems; the retry always succeeds |
| `Channel.Channel.AnalizePeerToBeServerAux` | src/common/Channel.cpp:282-294 | a known peer other than the server becomes a candidate in normal mode while there is room |
| `Channel.BuildClusters` | src/common/Channel.cpp:246-278 | the loop with its size counter computes all clusters cut from the key order, so its own limit never acts |
| `Channel.Channel.SetChannelMode` | src/common/Channel.cpp:340-450 | every mode change, with any legal random draw, is the mode function of the theorems |
| `Channel.DrawCandidates` | src/common/Channel.cpp:398-421 | a larger candidate list is cut to any subset of the needed size, and all that are kept become active and wait to be told |
| `Channel.MergeServers` | src/common/Channel.cpp:373-382 | the loop merges all servers that are left, or only the first in key order, and detaches their peers |
| `Channel.FinishingServer` | src/common/Channel.cpp:454-460 | true if and only if no other server serves the same sub-channel |
| `Channel.Channel.RemoveExpired` | src/common/Channel.cpp:677-697 | one removal: cursor, sub-channel, candidate and peer, in the order of the code |
| `Channel.Channel.CheckActivePeers` | src/common/Channel.cpp:664-701 | every counter drops by one and exactly the expired peers are removed, in key order |
| `Channel.EligiblePeers` | src/common/Channel.cpp:518-573 | the candidates of the query, without duplicates |
| `Channel.Channel.SelectPeerList` | src/common/Channel.cpp:514-608 | the reply has no duplicates, never the asker, only eligible peers that pass the bandwidth filter and whom the asker may learn of, and as many as asked for or as there are |
| `Walks.Shuffle` | src/common/Strategy/RandomStrategy.hpp:21-30 | the shuffle is a permutation, whatever is drawn |
| `Bootstrap.Bootstrap.HandleChannelMessage` | src/bootstrap/bootstrap.cpp:68-209 | every branch: the error each refusal gets, errors change nothing, creation, connection and mode change are steps of one channel and leave the others alone |
| `Bootstrap.Bootstrap.Connect` | src/bootstrap/bootstrap.cpp:107-201 | the connect branch is one step of the channel, and the reply is the one the state calls for |
| `Bootstrap.ReplyIsIsolated` | src/bootstrap/bootstrap.cpp:107-201 | a reply to a connect message names neither the asker nor a peer of a network it is isolated from |
| `Bootstrap.Bootstrap.Answer` | src/bootstrap/bootstrap.cpp:144-201 | an inform goes before the list of servers, the list before neighbours; delivery clears the flag |
| `Bootstrap.Bootstrap.SetChannelState` | src/bootstrap/bootstrap.cpp:211-223 | the mode change reaches the channel with the id and no other |
| `Bootstrap.Bootstrap.HandlePingMessage` | src/bootstrap/bootstrap.cpp:300-341 | a ping is the ping step of the channel with the id |
| `Bootstrap.Bootstrap.CheckPeerList` | src/bootstrap/bootstrap.cpp:455-485 | once a second every channel makes its check step, and exactly the channels whose server runs out of its counter at that check are removed; the others are the same objects |
| `Handshake.CandidatesKnowTheirState` | src/bootstrap/bootstrap.cpp:117-150 | on every run, a candidate that does not wait to be told has exactly the state it was last told, nothing told counting as no server, if and only if it was not dropped from the candidates, by a draw or by expiry, since it was told a server state; a dropped one is back without a role |
| `Handshake.FormerServerIsNotTold` | src/common/Channel.cpp:398-414 | a run on which the code fails that: a server told to be active is dropped by the draw of the next flash crowd and comes back as a candidate without a role that waits for nothing |
| `Handshake.ChangesCollapse` | src/common/Channel.cpp:351-435 | however the mode changed since, a candidate whose state is not the one it was last told, and that was not dropped, waits; its next connect message delivers the latest state in one reply and nothing is left to deliver; it then knows its state if and only if it waited or was not dropped |
| `Bootstrap.StateIsDelivered` | src/bootstrap/bootstrap.cpp:144-150 | the reply to a candidate that waits is its latest state, and the connect step clears the flag |
| `Handshake.SilentRun` | src/bootstrap/bootstrap.cpp:117-150 | a peer that sends no connect message is told nothing and cannot become a candidate |
| `Handshake.ServerListWaits` | src/common/Channel.cpp:428-430 | whoever was in the channel when a flash crowd began, and was not chosen, is owed the list of servers until its next connect message, however long that takes |
| `Bootstrap.ServerListIsDelivered` | src/bootstrap/bootstrap.cpp:151-170 | that connect message is answered with the list of the candidates of that moment, and after the step the list is owed no longer |
| `PartnerRuns.PartnerSets` | src/client/PeerManager.cpp:72-192 | on every run each list stays within its maximum, inside the known peers and apart from its own cooldowns, and cooldowns stay between 1 and 5 |
| `PartnerRuns.StepKeepsInv` | src/client/PeerManager.cpp:26-192 | every operation, pings, orders and firings included, keeps the partner invariant |
| `PartnerRuns.AgedKeepsInv` | src/client/PeerManager.cpp:266-277 | the unsigned counters never wrap |
| `PartnerTheorems.SwapRaisesOutput` | src/client/PeerManager.cpp:143-164 | a replacement lets go a partner with the least output, keeps the size, and raises the total informed output by the difference |
| `PartnerTheorems.FullListAcceptsBetter` | src/client/PeerManager.cpp:84-117 | a full output list accepts exactly the newcomers that beat one of its partners; a full In list accepts nobody |
| `PartnerTheorems.OutputCounter` | src/client/PeerManager.cpp:119-130 | connecting to an output list fills the output counter, and else the In counter, if and only if the list as it will be, with the newcomer and without the partner it replaces, differs in contents from the In list; the output counter is full afterwards exactly then or if it was full before |
| `PartnerTheorems.OutputCounterMissed` | src/client/PeerManager.cpp:119-130 | a run from the initial state, of pings on both lists, a pass, and the orders to become an active server and to leave that stage, after which connecting to the output list fills the In counter and leaves the output counter |
| `PartnerTheorems.PingFillsCounter` | src/client/client.cpp:548-575 | after a ping, an output partner has a full output counter, whichever was filled before |
| `PartnerTheorems.DecisionTable` | src/client/PeerManager.cpp:279-391 | for every membership and every counters: which lists a peer keeps, both its counters and all other data if it stays known, that it is forgotten exactly if it was active and remains in no list, and the cooldown of each list it leaves |
| `PartnerTheorems.PassOnlyRemoves` | src/client/PeerManager.cpp:279-391 | a pass adds nobody anywhere and forgets only active peers |
| `PartnerTheorems.SilentPartnerStays` | src/client/PeerManager.cpp:318-339 | a partner of the In list last heard with counter T stays with counter T - n through n < T passes, whatever the others do |
| `PartnerTheorems.SilentPartnerLeaves` | src/client/PeerManager.cpp:310-391 | for each of the three lists: a partner with counter T that is not heard from has left the list after T passes, and after one if T is not positive, whatever the others do and whatever orders and firings there are |
| `PartnerTheorems.RemovedPartnerWaits` | src/client/PeerManager.cpp:72-80 | for each of the three lists: a removed partner is no member and is refused until its cooldown is over, even if it keeps pinging, whatever orders and firings there are |
| `PartnerTheorems.PingRefused` | src/client/client.cpp:498-575 | a ping of a peer that cools down on the list the ping is for changes nothing but what is known of its output |
| `PartnerTheorems.SoftState` | src/client/PeerManager.cpp:266-391 | a silent partner of the In list is dropped at exactly the T-th pass and refused through fewer than four more passes; the fourth ends the wait |
| `PartnerTheorems.DisconnectedWaits` | src/client/PeerManager.cpp:167-183 | for each of the three lists: after a removal by the disconnector the wait is five passes, and the fifth ends it |
| `PartnerTheorems.ParallelNetworkIsolated` | src/client/PeerManagerServerAux.cpp:156-180 | from the order to become an active server until an order to leave that stage, every output partner has sub-id 1 and was unknown at the start, and no peer known at the start enters the free-rider list |
| `PartnerTheorems.NewcomerAdmitted` | src/client/client.cpp:548-575 | a peer unknown before is admitted to the parallel network with its first ping, if there is room |
| `Merge.MergeBeginsWithAll` | src/client/PeerManagerServerAux.cpp:182-193 | a merge begins with every output partner of the parallel network to let go |
| `Merge.FiringProgress` | src/client/PeerManagerServerAux.cpp:72-134 | a firing lets go exactly the smaller of the quota and the partners left, and ends the merge if and only if none is left |
| `Merge.LetGoStaysOut` | src/client/PeerManagerServerAux.cpp:100-131 | right after a firing whoever was let go is no output partner and is refused; where connections are avoided it is rejected, where they are permitted it counts as a peer of the main network |
| `Merge.LetGoForTheStage` | src/client/PeerManagerServerAux.cpp:100-131 | where connections are avoided, whoever was let go is refused by both output lists until an order arrives, whatever pings, connections, passes and firings happen |
| `Merge.ZeroQuotaEndsAtOnce` | src/client/PeerManagerServerAux.cpp:36-70 | with a quota of zero the first firing ends the merge and keeps every partner |
| `Merge.AfterTheEnd` | src/client/PeerManagerServerAux.cpp:89-98 | after its end a merge does nothing, or exits at the next firing if it was to kill the server |
| `Merge.OrdinaryNeverGrows` | src/client/PeerManager.cpp:26-192 | no ping, connection, removal or pass adds a peer the merge has to let go |
| `Merge.FiringsAreBounded` | src/client/PeerManagerServerAux.cpp:72-147 | over any interleaving, firings plus pending peers never exceed the pending peers at the start, so more firings than those end the merge |
| `Merge.RoundsIsCeiling` | src/client/PeerManagerServerAux.cpp:51-65 | the number of full rounds is m / quota rounded up |
| `Merge.ExactFirings` | src/client/PeerManagerServerAux.cpp:72-147 | without interleaving the merge ends at exactly the firing after the rounds |
| `Merge.TimerCountsDown` | src/client/client.cpp:267-273 | the 8-bit timer counts down from the period, or from 256 if that is zero |
| `Merge.MergeEndsInTime` | src/client/client.cpp:251-274 | a merge that finds the timer at any 8-bit value is over after what the timer still needs plus one interval for every pending peer, whatever else happens meanwhile |
| `PeerManager.PeerManager.AddPeer` | src/client/PeerManager.cpp:26-46 | a new peer gets the sub-id of the stage; a known one only new output sizes |
| `PeerManager.PeerManager.ConnectPeer` | src/client/PeerManager.cpp:72-141 | the chain of refusals, the insertion and the choice of the counter are the connection function of the theorems |
| `PeerManager.PeerManager.ConnectSpecial` | src/client/PeerManager.cpp:143-164 | the worst partner is replaced if and only if the newcomer has more output, and the permission is used up |
| `PeerManager.FindWorst` | src/client/PeerManager.cpp:147-151 | the search finds the first in key order of the partners with the least output |
| `PeerManager.PeerManager.DisconnectPeer` | src/client/PeerManager.cpp:167-183 | the partner leaves the list and starts its cooldown |
| `PeerManager.PeerManager.CheckPeerList` | src/client/PeerManager.cpp:279-391 | the sweep with its flags, the disconnections, the removals and the ageing are the pass of the theorems |
| `PeerManager.SweepPartners` | src/client/PeerManager.cpp:310-366 | the loop over all active partners notes exactly who leaves which list and who is forgotten |
| `PeerManager.CheckPeerActiveCooldown` | src/client/PeerManager.cpp:266-277 | every cooldown drops by one and those at zero are erased |
| `PeerManager.PeerManager.SetPeerManagerState` | src/client/PeerManagerServerAux.cpp:151-209 | the three stage changes, with the cleared lists, the rejections and the sub-ids of the output partners |
| `PeerManager.PeerManager.SetMergeType` | src/client/PeerManagerServerAux.cpp:21-30 | the kill-at-end types become their base type and a flag |
| `PeerManager.PeerManager.HandleMessageServerSub` | src/client/client.cpp:629-665 | the settings are taken before the stage changes |
| `PeerManager.PickSome` | src/client/PeerManagerServerAux.cpp:36-70 | the random draw: all merging partners if fewer than the quota, else any subset of that size |
| `PeerManager.PeerManager.ExecMesc` | src/client/PeerManagerServerAux.cpp:72-147 | the timer step, and the firing when it reaches zero |
| `PeerManager.PeerManager.HandlePingMessageIn` | src/client/client.cpp:498-520 | a ping of a serving peer connects it if possible and fills its counter |
| `PeerManager.PeerManager.HandlePingMessageOut` | src/client/client.cpp:548-575 | the same for a served peer, on the list its output size selects |
| `PeerManager.PeerManager.Second` | src/client/client.cpp:251-274 | once a second: the pass, then one step of the merge timer |
| `RoundRobin.StepKeepsConsistent` | src/common/Scheduler/RRMessageScheduler.cpp:8-82 | the key set is the keys of the queue map, no queue is empty, the pointer is a stored key or invalid |
| `RoundRobin.FirstInFirstOut` | src/common/Scheduler/RRMessageScheduler.cpp:8-82 | per address, every message leaves exactly once, in push order |
| `RoundRobin.SizeIsPushesMinusPops` | src/common/Scheduler/RRMessageScheduler.cpp:84-92 | the size is pushes minus successful pops |
| `RoundRobin.ServedAtDistanceZero` | src/common/Scheduler/RRMessageScheduler.cpp:21-82 | a pop serves the address at cyclic distance zero from the pointer |
| `RoundRobin.PopBringsNearer` | src/common/Scheduler/RRMessageScheduler.cpp:50-63 | any other waiting address comes nearer by one |
| `RoundRobin.PushDelaysByAtMostOne` | src/common/Scheduler/RRMessageScheduler.cpp:8-19 | a push moves a waiting address away by at most one, and only if its own address is new |
| `RoundRobin.BoundedWait` | src/common/Scheduler/RRMessageScheduler.cpp:8-82 | message j of a queue leaves, as the j-th of its address, within d + 1 + m + j * (k + m) pops, d being the distance of the address, k the number of waiting addresses and m that of new addresses pushed meanwhile |
| `RoundRobin.RRMessageScheduler.Push` | src/common/Scheduler/RRMessageScheduler.cpp:8-19 | the push on key set and queue map |
| `RoundRobin.RRMessageScheduler.Pop` | src/common/Scheduler/RRMessageScheduler.cpp:21-82 | the pop with its do-while search for the next address |
| `RoundRobin.RRMessageScheduler.GetSize` | src/common/Scheduler/RRMessageScheduler.cpp:84-92 | the sum over all queues |
| `Deadline.EverythingComesOut` | src/common/Scheduler/CDFMessageScheduler.cpp:7-66 | per deadline, and for all other messages, what was pushed is what was handed out and then what waits, in the same order |
| `Deadline.SizeIsPushesMinusPops` | src/common/Scheduler/CDFMessageScheduler.cpp:68-78 | what waits is pushes minus successful pops |
| `Deadline.PopTakesEarliest` | src/common/Scheduler/CDFMessageScheduler.cpp:38-66 | other messages first, then a request no waiting one has an earlier deadline than; nothing only if nothing waits |
| `Deadline.DeadlineIsDistance` | src/common/Scheduler/CDFMessageScheduler.cpp:14-19 | the deadline is the distance to the playback tip plus an excess, of nothing for a request that is not before the tip, of a buffer or of all cycles for one that is |
| `Deadline.DeadlinesOrder` | src/common/Scheduler/CDFMessageScheduler.cpp:14-36 | any two requests, late ones included, are ordered by distance plus excess |
| `Deadline.PopTakesClosest` | src/common/Scheduler/CDFMessageScheduler.cpp:51-62 | the request handed out is the closest to, or furthest behind, its requester's playback if and only if no waiting one with a larger excess is more urgent; if it is not late itself, if and only if no waiting request is late |
| `Deadline.LateRequestWaits` | src/common/Scheduler/CDFMessageScheduler.cpp:14-19 | a concrete late request that is pushed first and still popped after one a thousand chunks ahead |
| `Deadline.CDFMessageScheduler.Push` | src/common/Scheduler/CDFMessageScheduler.cpp:7-36 | a request goes behind the waiting ones of its deadline, anything else into the queue |
| `Deadline.CDFMessageScheduler.Pop` | src/common/Scheduler/CDFMessageScheduler.cpp:38-66 | the pop on both structures |
| `ChunkId.IncAddsOne` | src/common/ChunkUniqueID.cpp:46-54 | the successor of chunk n is chunk n + 1 |
| `ChunkId.ComparisonsAgree` | src/common/ChunkUniqueID.cpp:56-100 | every comparison agrees with the comparison of chunk numbers |
| `ChunkId.MinusInt` | src/common/ChunkUniqueID.cpp:116-134 | the digit-wise subtraction of any `int` with its unsigned 16-bit intermediates |
| `ChunkId.MinusRefines` | src/common/ChunkUniqueID.cpp:116-134 | it subtracts n from the chunk number if and only if the cycles to subtract fit in 16 bits |
| `ChunkId.MinusChunk` | src/common/ChunkUniqueID.cpp:107-114 | the difference with its unsigned cycle words is the difference function of the theorems |
| `ChunkId.DifferenceRefines` | src/common/ChunkUniqueID.cpp:107-114 | the difference of a later and an earlier chunk is their distance, with cycle zero if and only if that is less than a buffer |
| `ChunkId.DifferenceWraps` | src/common/ChunkUniqueID.cpp:107-114 | for any two chunks the difference is their distance, plus a buffer if it is negative within a cycle, plus 2^32 buffers if it is negative across cycles |
| `ChunkId.WindowTestAlone` | src/common/ChunkUniqueID.cpp:107-114 | exactly which pairs pass the cycle test without the comparison before it |
| `ChunkId.WindowTest` | src/client/Request.cpp:65-65 | the comparison and the cycle test together accept exactly the chunks less than a buffer behind |
| `MediaBuffer.MediaBuffer.Insert` | src/client/MediaBuffer.cpp:24-48 | one slot of all parallel arrays is replaced, and the count of occupied slots stays exact |
| `MediaBuffer.MediaBuffer.Available` | src/client/MediaBuffer.cpp:95-101 | available if and only if the slot holds a message and its bit is set |
| `MediaBuffer.MediaBuffer.SetDuration` | src/client/MediaBuffer.cpp:103-107 | the side array and the message get the duration, nothing else changes |
| `SourceRing.RingAdvances` | src/client/client.cpp:1436-1453 | one more datagram keeps the ring in agreement with the stream: chunk k in slot k mod B for the last B chunks, available exactly up to the one before the newest, available ones intact with their measured duration |
| `SourceRing.Source.GerarDados` | src/client/client.cpp:1409-1453 | the loop over any sequence of datagrams keeps that agreement |
| `SourceRing.Source.MakeChunk` | src/client/client.cpp:1436-1437 | the message of the newest chunk carries its identity, its time and the datagram |
| `SourceRing.Source.HandleRequestMessage` | src/client/client.cpp:671-704 | data for partners exactly when the test passes, the message in the slot, and the two error replies |
| `SourceRing.ServesExactly` | src/client/client.cpp:681-683 | data is sent exactly for chunks at least two before the tip and less than a buffer behind it, and for the tip once the ring has gone round |
| `SourceRing.ServedChunk` | src/client/client.cpp:681-688 | before the tip the reply is the requested chunk itself, intact; for the tip it is the chunk one buffer older |
| `SourceRing.ReplyNamesRequest` | src/client/client.cpp:681-688 | the reply names the requested chunk if and only if the request is not for the tip |
| `SourceRing.TipRequestServesOldChunk` | src/client/client.cpp:681-688 | the smallest case of a reply with the wrong chunk |
| `Wire.AssembleHeaderValues` | src/common/Messages/Message.cpp:186-204 | every value is stored in the bytes of its aligned field, and no other byte changes, padding between fields included |
| `Wire.SplitHeaderValues` | src/common/Messages/Message.cpp:110-138 | the values read from the aligned fields |
| `Wire.LayoutRoundTrip` | src/common/Messages/Message.cpp:110-230 | for any layout, a value is read back modulo the width of its field |
| `Wire.FittingValuesRoundTrip` | src/common/Messages/Message.cpp:110-230 | values that fit are all read back exactly |
| `Wire.PrefixView` | src/common/Messages/Message.cpp:110-138 | a reader with a prefix of the layout reads the same leading values |
| `Messages.PingLayoutsFit` | src/common/Messages/MessagePingBootPerf.cpp:125-156 | the three ping layouts fit their declared header sizes exactly |
| `Messages.PeerlistShareLayoutFits` | src/common/Messages/MessagePeerlistShare.cpp:36-55 | the shared peer-list layout fits its declared header size exactly |
| `Messages.ChannelLayoutFits` | src/common/Messages/MessageChannel.cpp:34-48 | the channel layout fits its declared header size exactly |
| `Messages.ChunkLayoutsFit` | src/common/Messages/MessageData.cpp:23-33 | the request and data layouts fit their declared header sizes exactly |
| `Messages.SmallLayoutsFit` | src/common/Messages/MessageServerSub.cpp:29-38 | the server-aux, channel-state and error layouts fit into their declared header sizes |
| `Messages.BaseReadersAgree` | src/common/Messages/MessagePingBootPerf.cpp:125-156 | a reader of the base message reads every derived message correctly |
| `Messages.SetIntegrity` | src/common/Messages/Message.cpp:67-75 | the checksum word is cleared, computed and stored, no other byte changes |
| `Messages.CheckIntegrity` | src/common/Messages/Message.cpp:77-88 | true if and only if the sum of the header words is 0xFFFF |
| `Messages.SetThenCheck` | src/common/Messages/Message.cpp:55-88 | setting then checking succeeds, for every header that covers the checksum word; exactly when it does for shorter ones |
| `Messages.OneWordChangeDetected` | src/common/Messages/Message.cpp:55-88 | a change of any one header word that leaves the size byte alone is detected |
| `Messages.SetCodedByteValue` | src/common/Messages/Message.cpp:98-108 | through the swapped word only the addressed byte changes |
| `Messages.SetterChangesOneField` | src/common/Messages/MessageData.cpp:43-60 | each setter changes its own decoded field and nothing else |
| `Messages.SettersThenIntegrity` | src/common/Messages/MessageData.cpp:43-60 | any sequence of setters changes only the fields it names, and the message passes its check again after SetIntegrity |
| `Messages.MessageData.constructor` | src/common/Messages/MessageData.cpp:3-21 | the fields of a new data message decode to the values given |
| `Messages.MessageData.SetMedia` | src/common/Messages/MessageData.cpp:62-66 | the media bytes follow the header |
| `Peerlist.DottedRoundTrip` | src/common/Messages/MessagePeerlist.cpp:45-68 | parsing a printed address gives back its four octets |
| `Peerlist.EntryRoundTrip` | src/common/Messages/MessagePeerlist.cpp:29-54 | a canonical peer is printed back with the same address and port |
| `Peerlist.PeerlistRoundTrip` | src/common/Messages/MessagePeerlist.cpp:29-68 | any sequence of peers: the first that fit are stored in order and printed back, header and earlier entries are untouched |
| `Peerlist.MessagePeerlist.WriteIpStringToArray` | src/common/Messages/MessagePeerlist.cpp:56-68 | the parsing loop writes the four octets, or fails where a text conversion throws |
| `Peerlist.MessagePeerlist.AddPeer` | src/common/Messages/MessagePeerlist.cpp:29-43 | one entry is written if there is room and the texts parse |
| `Peerlist.MessagePeerlist.GetPeer` | src/common/Messages/MessagePeerlist.cpp:45-54 | an entry is printed |
| `RateLimiter.BucketInvariant` | src/client/Temporizable/LeakyBucket.cpp:19-52 | on every run the tokens stay within the bucket, an alarm takes a full period, and what was granted is covered by the first fill and the refills |
| `RateLimiter.RateBound` | src/common/Temporizable.hpp:29-42 | tokens granted are at most the bucket plus elapsed / period refills |
| `RateLimiter.IncTokenExact` | src/client/Temporizable/LeakyBucket.cpp:19-27 | adding then cutting is exact if and only if the sum fits in 32 bits |
| `RateLimiter.WaitingSenderIsServed` | src/client/client.cpp:1680-1686 | the sender's wait ends if and only if the message fits into the bucket |
| `RateLimiter.LeakyBucket.UpdateTimer` | src/common/Temporizable.hpp:29-42 | the timer loop raises the alarm and starts again, or counts down |
| `RateLimiter.LeakyBucket.DecToken` | src/client/Temporizable/LeakyBucket.cpp:29-42 | tokens are taken if and only if there are enough |

## Left out

- Sockets, sessions, NAT punching, the player, argument parsing, log files and printing: input and output without a property of their own.
- Mutexes and condition variables: every public operation is one atomic step. Waiting in DecToken appears only as the repeated attempts of the sender.
- The mode without isolated sub-channels (`subChannelMixed`): it gives up the isolation that is proved here.
- Tournament and nearest-IP strategies: the selection strategy is any permutation, which is what the random strategy makes.
- Random and FIFO message schedulers: they would only add easy members.
- Floating-point statistics: the refill of the bucket is a fixed number of tokens, and the interval between datagrams is given in milliseconds.
- The receive path of a client (HandleDataMessage, MontarListaPedidos, FeedPlayer): it depends on timing and on slot ids that the constructor of the buffer leaves unset.
- Creation time, newest chunk and stream rate of a channel, mode and upload score of a peer, and the fields of its replies other than their kind and their peers.
- The 16-bit counters of the loops over peer vectors: the vectors are taken to be shorter than 2^16.
- Signs and white space that a C++ text conversion accepts in front of a number: an address with them counts as not a number.
- HeadedBitset, chunk maps and the packing of their bytes.
- SourceRing.Source.HandleRequestMessage: the position in a request is required to be below the buffer size, because the code uses it as an index without a check.
- SourceRing.Source.GerarDados: the messages in the ring are byte sequences, so the sharing of a message between the ring and a send queue, and the update of a message in place while it is queued, are not captured.
- MediaBuffer.MediaBuffer.Insert: the deletion of the old message is not modelled, and the position is required to be below the buffer size, because the code uses it as an index without a check.
- ChunkId.MinusInt: for negative arguments it only follows the words of the code; the theorem about chunk numbers is for arguments from zero to the number of the chunk.
- ChunkId.IncAddsOne: it is stated below the last 32-bit cycle, where the number of the chunk would start again from zero.
- RoundRobin.StepKeepsConsistent: it requires addresses other than the text the scheduler uses as its null pointer; real ones have the form IP:port.
- Deadline.PopTakesClosest: a request may name a position that is not below the buffer size, which is the number of no chunk; about such requests only the order of deadlines is stated.
- Deadline.CDFMessageScheduler.Push: equal deadlines are inserted behind each other, as the standard library has done since C++11.
- RateLimiter.WaitingSenderIsServed: it assumes a refill above zero and that bucket and refill together fit in 32 bits.
- RateLimiter.LeakyBucket.UpdateTimer: a bucket has one timer; the vector of the base class is modelled with one entry.
