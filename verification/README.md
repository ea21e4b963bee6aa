# Verified models of the gateway, the etcd client, the proxy scheduler and the id allocator

This project models the stateful core of the game-server framework in Dafny and proves what it is relied on for, over
every run. Each component has up to three parts: a state as a value with one function per source operation, the results
proved about all runs of those functions, and classes in the form of the source (fields updated in place, loops) whose
methods are each proved to perform the function of the same name.

| part | modules | source |
|---|---|---|
| watch client | `Framing`, `Watcher`, `WatchProtocol`, `WatchProgress`, `FrameCodec` | `etcd_watcher.cpp` |
| key ranges | `KeyRange` | `etcd_packer.cpp` |
| proxy table and dialling | `AddressRotation`, `ProxyManager`, `ProxyDelays`, `ProxyService`, `ProxyNotices`, `NodeEvents`, `NodeAgreement` | `atproxy_manager.cpp`, `etcd_module.cpp` |
| lease and keepalives | `Keepalives`, `Cluster`, `CheckTraces`, `Pursuit`, `ClusterEffects`, `Publisher` | `etcd_keepalive.cpp`, `etcd_cluster.cpp` |
| pending deletes | `Deletors`, `DeletorOwner` | `etcd_cluster.cpp` |
| publishing and deleting together | `Republication`, `AcknowledgedPuts`, `LateDelete` | `etcd_cluster.cpp`, `etcd_packer.cpp` |
| sessions | `Sessions`, `SessionProtocol`, `SessionDuties`, `SessionReconnects`, `SessionEffects`, `SessionManager` | `session.cpp`, `session_manager.cpp`, `atgateway.cpp` |
| ids | `IdAllocator` | `timestamp_id_allocator.h` |

`Common` holds the few types that several modules share.

The main results:

- **Watch delivery is exactly once.** Over any mixture of snapshots, watches, chunks, cuts in mid-frame, failed launches
  and retry probes, the handler sees a snapshot at some revision and then every later event of the range once and in order
  (`WatchProtocol.ExactlyOnceDelivery`), and from every state of every run it can be brought all of them
  (`WatchProgress.CanCatchUp`). Handing over one frame keeps this if and only if the frame carries exactly the events up to
  its header revision.
- **Framing** is independent of chunking and undoes concatenation.
- **The proxy table agrees with etcd** after every delivery, in its ids (`NodeEvents.TableAgreesWithEtcd`) and in the nodes
  it was told of (`NodeAgreement.NodesAgreeWithEtcd`).
- **Publications are never stale**, with the exact conditions of the two ways the code can lose one
  (`Cluster.PublicationIsNeverStale`, `Cluster.JoinIsNeverStaleIff`, `Cluster.SweepIsNeverStaleIff`). **No put precedes its
  check**: it follows an answer that the installed checker accepts (`CheckTraces.PutFollowsAcceptedAnswer`), and a member not
  checked yet is being checked or waits for a retry (`Pursuit.UncheckedIsPursued`).
- **Deletors are linear and bounded** (`Deletors.DeletorsAreLinear`).
- **A published key survives, and keeps its value,** over all runs that do not themselves set out to remove or change it, if
  and only if nothing set going before can: no live deletor or late delete covers it, its lease is not being revoked and, for
  the value, no other put of it may still land (`Republication.SurvivesIff`, `Republication.HoldsIff`). Under that condition
  what a member holds for published is what the store has (`AcknowledgedPuts.PublishedIsStored`).
- **A session's registration is a linear token**, the session maps stay well formed and no session outlives its deadline
  (`SessionProtocol`); a registration passes to another session only by a reconnect that the protocol accepts
  (`SessionReconnects.RegistrationMovesByReconnect`); a registration is attended to until it is taken back, with the exact condition
  (`SessionDuties.RegistrationIsKeptIff`).
- **Ids strictly increase** under every interleaving, with no ABA (`IdAllocator`).
- **The proxy scheduler** terminates, loses no wake-up, is late by at most the retry interval and two seconds
  (`ProxyDelays.NoWakeUpIsLate`) so that a lost proxy is dialled again (`ProxyService.LostProxyIsDialled`), dials exactly the proxies it holds for eligible and reaches, and uses the reachable
  addresses in turn. When it holds the right thing of a proxy is stated exactly (`ProxyNotices.VerdictIsRightIff`,
  `ProxyNotices.NodeIsLatestIff`).

What is assumed: a watch frame with header revision r carries every event of the range after the previous frame up to r,
with no compaction; complete frames parse to what the server meant (`FrameCodec.SoundCodecExists`: this can be met); clocks do not go back; new session ids are fresh and
nonzero (the module `IdAllocator` shows this of the allocator); the end of a session's handshake is reported once and after
the session was initialised; the outcome of every request, send and connect, and the answers of `check_reconnect`, are
arbitrary, except that the server answers a put or delete with success only after carrying it out, and takes no put under a
lease that has ended. A request answered as failed, or given up, may still be carried out. These appear as the conditions under which a step of a run is possible, or as parameters.

Where the code and its comments differ, the model follows the code: a delete is tried eight times (the comment in
`etcd_cluster.cpp` at line 630 says five), and the address list is rotated after every connect (the comment in
`atproxy_manager.cpp` at line 119 says after a failure).

Seven findings are stated as exact conditions:

- the range end "+1" does not select the keys with a prefix when the key is empty or has only 0xff bytes, because the
  string literal assigned at line 216 of `etcd_packer.cpp` is the empty string (`KeyRange.PrefixRangeIsExactIff`);
- a keepalive whose request cannot be made during the retry sweep stays in the list that the sweep then clears, and is not
  retried (`Cluster.SweepIsNeverStaleIff`, `Cluster.StaleAfterFailedSweep`);
- a keepalive that published while it was not a member and then joins is not published again under the lease of now
  (`Cluster.JoinIsNeverStaleIff`, `Cluster.StaleAfterUncleanJoin`). A caller that cannot know what was put before is safe
  exactly when the dirty flag is set, a retry is due or a check is under way (`Cluster.JoinIsSafeWhateverWasPutIff`), and
  `add_keepalive_actor` always joins clean (`Cluster.ActorJoinsClean`);
- `add_keepalive` takes back a delete of its path that waits, but not one in flight, one that was answered as failed and may
  still be carried out, or one of a shorter path, which covers the key too; when such a delete lands after the new put, or
  the lease revoke of an earlier `close` does, the key is gone while the cluster holds it for published
  (`Republication.SurvivesIff`, `Republication.JoinLeavesInFlight`, `LateDelete.RepublishedIsLost`);
- `atproxy_manager::set` does not judge a known proxy's versions again, so one that upgrades stays refused, and a skipped
  `set` drops the new node (`ProxyNotices.VerdictIsRightIff`, `ProxyNotices.NodeIsLatestIff`,
  `ProxyNotices.FirstVerdictDecides`);
- `session_manager::reset` does not tell the backend of the sessions that wait for a reconnect
  (`SessionDuties.ResetForgetsIff`, `SessionDuties.ResetForgetsWaiting`);
- a session that reconnects and whose handshake is then reported as failed, because the answer could not be written
  (`libatgw_proto_inner.cpp`, lines 815-816), keeps its registration for good: being registered it is passed over by its
  first-idle timer, and being in no map it is not found when its connection fails
  (`SessionDuties.RegistrationIsKeptIff`, `SessionDuties.HalfwayReconnectIsKept`).

## Model

| member | source | states |
|---|---|---|
| Framing.ChunkingIsIrrelevant | atframework/service/component/etcdcli/etcd_watcher.cpp:301-345 | for every byte string and every way of splitting it into chunks the frames emitted, the pending buffer and the bracket depth are the same |
| Framing.FeedValid | atframework/service/component/etcdcli/etcd_watcher.cpp:304-338 | the depth is never negative, is zero exactly when the buffer is empty, and all that is emitted is a complete frame or a lone NUL byte |
| Framing.FeedSeparatedFrame | atframework/service/component/etcdcli/etcd_watcher.cpp:304-338 | separator bytes are dropped and a frame is cut out where its depth first returns to zero |
| Framing.FramerUndoesConcatenation | atframework/service/component/etcdcli/etcd_watcher.cpp:304-338 | any list of frames joined by separators free of opening brackets and NUL bytes, fed in any chunks, comes back as exactly that list |
| Watcher.ReceiveIsFeedThenHandle | atframework/service/component/etcdcli/etcd_watcher.cpp:284-447 | handling each frame as soon as it closes is the same as cutting the chunk up first and handling the frames in order |
| Watcher.ReceiveConcat | atframework/service/component/etcdcli/etcd_watcher.cpp:284-456 | receiving two chunks is receiving their concatenation: same revision, deliveries and pending frame |
| Watcher.SkipToFrame | atframework/service/component/etcdcli/etcd_watcher.cpp:305-314 | the first inner loop drops exactly the bytes in front of an opening bracket or NUL, and the byte-wise framer emits nothing on them |
| Watcher.ScanFrame | atframework/service/component/etcdcli/etcd_watcher.cpp:316-338 | the bracket-counting loop stops with the same frame, or the same pending buffer and depth, as the byte-wise framer |
| Watcher.EtcdWatcher.constructor | atframework/service/component/etcdcli/etcd_watcher.cpp:15-25 | a new watcher has no request, no revision and nothing pending |
| Watcher.EtcdWatcher.Close | atframework/service/component/etcdcli/etcd_watcher.cpp:34-46 | `close` drops the request and forgets the revision and the retry mode, and leaves the half-received frame to the next launch |
| Watcher.EtcdWatcher.Active | atframework/service/component/etcdcli/etcd_watcher.cpp:50-123 | `active` launches a range request without a revision or in retry mode, otherwise a watch from the next revision, respecting the retry interval, the request under way and failed launches |
| Watcher.EtcdWatcher.OnRangeCompleted | atframework/service/component/etcdcli/etcd_watcher.cpp:125-242 | a range answer delivers its snapshot and saves the revision only when there is none yet; a probe only ends retry mode; failures wait for the retry interval |
| Watcher.EtcdWatcher.OnWatchCompleted | atframework/service/component/etcdcli/etcd_watcher.cpp:244-282 | the end of a watch sets retry mode and the next request time according to how it ended, and goes on at once |
| Watcher.EtcdWatcher.OnWatchWrite | atframework/service/component/etcdcli/etcd_watcher.cpp:284-456 | the write callback with its nested loops over the chunk does what the byte-wise receiver does |
| WatchProtocol.FrameKeepsDeliveryExactIff | atframework/service/component/etcdcli/etcd_watcher.cpp:359-447 | handing over a frame keeps delivery exact up to its header revision if and only if it carries exactly the events since the last revision |
| WatchProtocol.HandleChain | atframework/service/component/etcdcli/etcd_watcher.cpp:340-447 | handling the frames completed so far of a chain keeps delivery exact up to the last of them |
| WatchProtocol.StepKeepsInv | atframework/service/component/etcdcli/etcd_watcher.cpp:55-456 | commits, requests, answers, failures, arrival of any number of bytes, the end of a watch and `close` keep the protocol invariant |
| WatchProtocol.ExactlyOnceDelivery | atframework/service/component/etcdcli/etcd_watcher.cpp:55-456 | over every run since the last `close` the handler has received nothing, or the snapshot at some revision R and then exactly the events in (R, last revision], in order |
| WatchProgress.DueClientAsks | atframework/service/component/etcdcli/etcd_watcher.cpp:55-123 | an idle client that is due has, after a started activation, a watch from exactly its next revision with a clean framer, or the range request or probe it needs first |
| WatchProgress.FailedWatchBacksOff | atframework/service/component/etcdcli/etcd_watcher.cpp:244-282 | after a failed watch revision and deliveries stay, nothing is asked before the retry interval is over, and then a probe |
| WatchProgress.FailedRangeBacksOff | atframework/service/component/etcdcli/etcd_watcher.cpp:125-145 | after a failed range request nothing is asked before the retry interval is over |
| WatchProgress.UnreadableRangeBacksOff | atframework/service/component/etcdcli/etcd_watcher.cpp:158-242 | after a range answer that cannot be read nothing is asked before the retry interval is over |
| WatchProgress.UnmadeRequestBacksOff | atframework/service/component/etcdcli/etcd_watcher.cpp:66-104 | a request that cannot be made is made again after the retry interval, and not before |
| WatchProgress.ClientGoesOnAtOnce | atframework/service/component/etcdcli/etcd_watcher.cpp:125-282 | a snapshot and a probe are followed by the watch at once, a watch that ended or ran out of time by a probe |
| WatchProgress.CanCatchUp | atframework/service/component/etcdcli/etcd_watcher.cpp:55-456 | from every state of every run there are steps of client, server and connection, without a write or a `close`, after which the handler has received the snapshot and every event of the whole log |
| FrameCodec.SoundCodecExists | atframework/service/component/etcdcli/etcd_watcher.cpp:340-357 | there is a way to write frames that the framer cuts out whole and a parser undoes: a code between one pair of brackets, with no text the beginning of another |
| KeyRange.PackKeyRange | atframework/service/component/etcdcli/etcd_packer.cpp:201-227 | the method with the carry loop writes the key and range end of the prefix range, and any other range end unchanged |
| KeyRange.SuccessorBoundsPrefix | atframework/service/component/etcdcli/etcd_packer.cpp:202-213 | for a key with a byte below 0xff, key <= k < end in byte order holds exactly when key is a prefix of k |
| KeyRange.PrefixRangeIsExactIff | atframework/service/component/etcdcli/etcd_packer.cpp:201-227 | a "+1" request selects exactly the keys with the prefix if and only if the key has a byte below 0xff |
| AddressRotation.NextListenAddress | atframework/service/atproxy/atproxy_manager.cpp:6-18 | the address in front goes to the back, in each of the size cases |
| AddressRotation.SelectAddress | atframework/service/atproxy/atproxy_manager.cpp:92-99 | the bounded rotation loop ends with the list rotated to its first reachable address, or with the list unchanged when none is reachable |
| AddressRotation.DialTurnsReachables | atframework/service/atproxy/atproxy_manager.cpp:92-120 | one dial uses the first reachable address and turns the sequence of reachable addresses by one |
| AddressRotation.DialsCycle | atframework/service/atproxy/atproxy_manager.cpp:92-120 | with unchanged list and reachability the i-th dial uses the i-th reachable address, round and round |
| AddressRotation.DialsCycleUnreachable | atframework/service/atproxy/atproxy_manager.cpp:92-120 | with nothing reachable the dials go through the whole list in order |
| ProxyManager.AtproxyManager.constructor | atframework/service/atproxy/atproxy_manager.cpp:22 | a new manager knows no proxy and has no check |
| ProxyManager.AtproxyManager.HandleDueCheck | atframework/service/atproxy/atproxy_manager.cpp:54-125 | the loop body: stale checks are dropped, a missing bus node defers, a connected or unavailable proxy stops, otherwise the selected address is dialled and a later check is queued |
| ProxyManager.AtproxyManager.Tick | atframework/service/atproxy/atproxy_manager.cpp:43-131 | the loop terminates although it pushes into the list it drains (measure: entries with a timeout below now), leaves the swept table and returns the number of connects that did not fail at once |
| ProxyManager.AtproxyManager.Set | atframework/service/atproxy/atproxy_manager.cpp:135-160 | a pending proxy is left alone with its old node, otherwise the node is stored and a check for now is queued |
| ProxyManager.AtproxyManager.Remove | atframework/service/atproxy/atproxy_manager.cpp:162-169 | the proxy goes and its checks stay behind |
| ProxyManager.AtproxyManager.Reset | atframework/service/atproxy/atproxy_manager.cpp:171-196 | the table becomes the given nodes that have addresses, each with a check in front |
| ProxyManager.AtproxyManager.OnDisconnected | atframework/service/atproxy/atproxy_manager.cpp:200-224 | a known proxy with nothing pending is looked at again after the bus's retry interval |
| ProxyManager.AtproxyManager.OnWatcherNotify | atframework/service/atproxy/atproxy_manager.cpp:245-253 | a delete removes the node's id, any other event sets the node |
| ProxyManager.RunKeepsWakeUps | atframework/service/atproxy/atproxy_manager.cpp:43-224 | over any sequence of set, remove, reset, disconnect and tick with a positive nondecreasing clock, a proxy whose next action is not before now has a check with exactly that id and time |
| ProxyManager.SkippedSetIsJustified | atframework/service/atproxy/atproxy_manager.cpp:135-160 | in every run a `set` that is skipped as already pending finds that very check in the list |
| ProxyManager.TickDialsOnce | atframework/service/atproxy/atproxy_manager.cpp:43-131 | one tick issues at most one connect per proxy id |
| ProxyManager.TickDialsExactly | atframework/service/atproxy/atproxy_manager.cpp:43-131 | a tick dials a proxy if and only if it may be dialled and a check no older than its next action is reached; it dials the first reachable address, leaves the next one in front and waits |
| ProxyManager.ReachedCheckWakes | atframework/service/atproxy/atproxy_manager.cpp:45-52 | a check is reached when nothing in front of it is not yet due |
| ProxyDelays.NoWakeUpIsLate | atframework/service/atproxy/atproxy_manager.cpp:43-224 | in every run with a retry interval of at most r, the first tick of a second leaves no check in the unsorted list, and no next action of a proxy that may act, older than r + 2 |
| ProxyDelays.ApplyKeepsAttended | atframework/service/atproxy/atproxy_manager.cpp:43-224 | every operation keeps a check with exactly the next action of each proxy that may act, however overdue |
| ProxyService.DisconnectSchedules | atframework/service/atproxy/atproxy_manager.cpp:200-224 | a known proxy that is lost, while the process is not stopping, has a next action no earlier than the bus's retry interval from now, or a second, and a check with exactly that id and time |
| ProxyService.SetSchedules | atframework/service/atproxy/atproxy_manager.cpp:135-160 | a `set` that is not skipped stores the node and puts its check for now in front |
| ProxyService.NoBusDefers | atframework/service/atproxy/atproxy_manager.cpp:121-126 | without a bus node a due proxy is looked at again a second later, and nobody is dialled |
| ProxyService.DialledWaits | atframework/service/atproxy/atproxy_manager.cpp:110-117 | a proxy dialled in a tick is looked at again after exactly the bus's retry interval, at least a second |
| ProxyService.SuccessesAreCounted | atframework/service/atproxy/atproxy_manager.cpp:101-108 | what a tick returns is the number of connects that did not fail at once |
| ProxyService.AvailableIffVersionsMeet | atframework/service/atproxy/atproxy_manager.cpp:255-268 | a node is available exactly when some protocol version suits both sides |
| ProxyService.DueProxyIsDialled | atframework/service/atproxy/atproxy_manager.cpp:43-224 | in every run a proxy that has a next action, may be dialled and is left alone is dialled by the first tick of a second that comes more than the retry interval and two seconds after it |
| ProxyService.LostProxyIsDialled | atframework/service/atproxy/atproxy_manager.cpp:43-224 | in every run a proxy that is lost, stays eligible and is left alone is dialled again within that bound |
| ProxyNotices.VerdictIsRightIff | atframework/service/atproxy/atproxy_manager.cpp:135-160 | over every run the verdict kept for a proxy is right for the node kept if and only if the node it was first known by and the node last accepted get the same verdict |
| ProxyNotices.NodeIsLatestIff | atframework/service/atproxy/atproxy_manager.cpp:140-147 | over every run the node kept is the last one notified, up to rotation, if and only if the last one accepted is: a skipped `set` drops its node |
| ProxyNotices.FirstVerdictDecides | atframework/service/atproxy/atproxy_manager.cpp:88-90 | a tick dials only proxies whose first node was acceptable; one that upgrades while known stays refused |
| NodeEvents.Unpack | atframework/service/component/modules/etcd_module.cpp:737-781 | the id comes from the value when there is one and otherwise from the last component of the key |
| NodeEvents.OnDelivery | atframework/service/component/modules/etcd_module.cpp:940-968 | each event of a delivery reaches the proxy manager in order, with the previous value where the current one is empty |
| NodeEvents.OneEventKeepsAgreement | atframework/service/component/modules/etcd_module.cpp:940-968 | a PUT that takes its id from the value and a DELETE that takes it from the key change the table's ids as the event changes the live keys |
| NodeEvents.SnapshotAgrees | atframework/service/component/modules/etcd_module.cpp:940-968 | after a snapshot the table's ids are exactly those of the keys live at its revision |
| NodeEvents.TableAgreesWithEtcd | atframework/service/component/modules/etcd_module.cpp:940-968 | in every run of the watch protocol, with any ticks and disconnects in between, the proxies known are exactly the ids of the keys live in etcd at the client's revision |
| NodeAgreement.EventIsHandedOver | atframework/service/component/modules/etcd_module.cpp:947-967 | each event reaches the manager as the node packed in its value, or in the one before when it is empty, unchanged, or not at all without an id |
| NodeAgreement.NodesAgreeWithEtcd | atframework/service/component/modules/etcd_module.cpp:940-968 | in every run of the watch protocol each key live in etcd has its proxy, the node last notified for it is the one packed in its value, and the node kept is that one up to rotation if and only if the node last accepted is |
| IdAllocator.TimestampIdAllocator.constructor | atframework/service/component/core/timestamp_id_allocator.h:38 | the shared word starts at 255 with nothing committed |
| IdAllocator.TimestampIdAllocator.LoadWord | atframework/service/component/core/timestamp_id_allocator.h:45-50 | the atomic load of an iteration |
| IdAllocator.TimestampIdAllocator.Wait | atframework/service/component/core/timestamp_id_allocator.h:51-55 | the clock read, needed when the time half is zero or the sequence half is used up, goes on only with a time different from the loaded one |
| IdAllocator.TimestampIdAllocator.ExchangeTime | atframework/service/component/core/timestamp_id_allocator.h:57-60 | the strong compare-exchange publishes the new time with sequence zero, or fails because the word changed |
| IdAllocator.TimestampIdAllocator.ExchangeSequence | atframework/service/component/core/timestamp_id_allocator.h:61-65 | the weak compare-exchange publishes the next word, or fails because the word changed or spuriously |
| IdAllocator.NextKeepsInv | atframework/service/component/core/timestamp_id_allocator.h:37-69 | every atomic action of every thread keeps the invariant |
| IdAllocator.IdsIncrease | atframework/service/component/core/timestamp_id_allocator.h:37-69 | under every interleaving the ids are nonzero 64-bit words, strictly increasing in commit order, so pairwise distinct, also over sequence overflow |
| IdAllocator.CommitMeansUndisturbed | atframework/service/component/core/timestamp_id_allocator.h:45-65 | a successful compare-exchange implies that no id was committed since that thread's load |
| IdAllocator.FailureMeansOthersProgress | atframework/service/component/core/timestamp_id_allocator.h:45-65 | a failed strong compare-exchange implies that another thread committed an id since the load; a failed weak one implies that or is spurious |
| IdAllocator.AloneGetsAnId | atframework/service/component/core/timestamp_id_allocator.h:37-69 | a thread left alone gets an id in one iteration once the clock has moved past the loaded time |
| IdAllocator.RoomNeedsNoClock | atframework/service/component/core/timestamp_id_allocator.h:46-65 | with a time and room in the sequence half the next id is the word plus one and no clock is read |
| IdAllocator.FullNeedsTheClock | atframework/service/component/core/timestamp_id_allocator.h:46-60 | without a time, or with a full sequence half, there is no id before the clock has moved, and then it is the new time with sequence zero |
| Keepalives.ProcessKeepsCheckInv | atframework/service/component/etcdcli/etcd_keepalive.cpp:72-140 | `active` starts a put only after an accepting answer, whatever fails |
| Keepalives.CheckedKeepsCheckInv | atframework/service/component/etcdcli/etcd_keepalive.cpp:142-207 | the answer to the check sets the flags that say what was answered |
| Keepalives.UnguardedPutIsUnchecked | atframework/service/component/etcdcli/etcd_keepalive.cpp:84-88 | without a checker the first activation puts on nobody's answer |
| Cluster.InvIsNeverStale | atframework/service/component/etcdcli/etcd_keepalive.cpp:57-140 | the invariant implies that no member is stale |
| Cluster.JoinIsNeverStaleIff | atframework/service/component/etcdcli/etcd_cluster.cpp:446-478 | adding a keepalive under a lease leaves no member stale, now and once a put it has in flight is acknowledged, if and only if it joins clean: dirty, waiting for a retry, being checked, or its last put has the value and lease of now |
| Cluster.JoinIsSafeWhateverWasPutIff | atframework/service/component/etcdcli/etcd_cluster.cpp:446-478 | the join is safe for every history of puts if and only if the dirty flag is set, a retry is due or a check is under way |
| Cluster.JoinKeepsInvIff | atframework/service/component/etcdcli/etcd_cluster.cpp:446-478 | the invariant behind never-stale is kept by a join under exactly the same condition |
| Cluster.JoiningUncleanIsStale | atframework/service/component/etcdcli/etcd_cluster.cpp:446-478 | a checked idle keepalive that joins unclean is stale at once |
| Cluster.StaleAfterUncleanJoin | atframework/service/component/etcdcli/etcd_cluster.cpp:446-478 | a run from the initial state: a keepalive leaves, its value is put, the lease is lost and granted anew, then `add_keepalive` leaves it stale |
| Cluster.ActorJoinsClean | atframework/service/component/modules/etcd_module.cpp:971-1008 | the order of calls in `add_keepalive_actor` makes every new keepalive join clean with its checker installed first |
| Cluster.SwapAndPopIsRemoval | atframework/service/component/etcdcli/etcd_cluster.cpp:502-531 | the swap with the last and pop removes exactly one occurrence |
| Cluster.RemoveKeepaliveKeepsInv | atframework/service/component/etcdcli/etcd_cluster.cpp:502-554 | removal from both lists and the close keep the others fresh |
| Cluster.GetDoneKeepsInv | atframework/service/component/etcdcli/etcd_keepalive.cpp:142-207 | the answer to a check keeps every member fresh |
| Cluster.PutDoneKeepsInv | atframework/service/component/etcdcli/etcd_keepalive.cpp:209-235 | the answer to a put keeps every member fresh, also when the value or the lease changed while it was in flight |
| Cluster.SetLeaseKeepsInv | atframework/service/component/etcdcli/etcd_cluster.cpp:749-771 | a new lease republishes every member |
| Cluster.SweepIsNeverStaleIff | atframework/service/component/etcdcli/etcd_cluster.cpp:718-728 | a retry sweep leaves no member stale if and only if the requests of the listed members that would be stale without them start |
| Cluster.StaleAfterFailedSweep | atframework/service/component/etcdcli/etcd_cluster.cpp:480-500 | a run from the initial state: a put fails, and its retry cannot start during the sweep; the member is stale and in no list |
| Cluster.StepKeepsInv | atframework/service/component/etcdcli/etcd_cluster.cpp:446-771 | every step keeps the invariant, given that joins are clean and sweeps lose no request that matters, which are the exact conditions above |
| Cluster.PublicationIsNeverStale | atframework/service/component/etcdcli/etcd_keepalive.cpp:57-140 | in every reachable state with a nonzero lease and not closing, a checked member with no request in flight and not to be retried has its current value under the current lease as its last acknowledged put |
| Cluster.CheckComesBeforePut | atframework/service/component/etcdcli/etcd_keepalive.cpp:72-207 | in any run at all, every put of a keepalive whose checker was installed first follows an accepted answer, and none follows a rejected one until `close` |
| CheckTraces.StepOnCheck | atframework/service/component/etcdcli/etcd_keepalive.cpp:77-207 | over every step of the cluster only the answer to its check changes the verdict on a keepalive with a checker, to what that checker says of the content |
| CheckTraces.PutFollowsAcceptedAnswer | atframework/service/component/etcdcli/etcd_keepalive.cpp:72-207 | in every run a put of a keepalive whose checker was installed before any check comes, since its last `close`, after an answer whose content that checker accepts, and after none that it rejects |
| CheckTraces.ActorPutsOverItsOwn | atframework/service/component/modules/etcd_module.cpp:1000-1003 | a keepalive set up by `add_keepalive_actor` puts only where its key was empty or held its own value |
| Pursuit.SweepIsPursuedIff | atframework/service/component/etcdcli/etcd_cluster.cpp:718-728 | a retry sweep leaves every unchecked member in flight or to be retried if and only if it starts the check of each that waits for one |
| Pursuit.UncheckedIsPursued | atframework/service/component/etcdcli/etcd_keepalive.cpp:142-162 | in every run in which members are closed only by removal and no sweep loses a check, a member whose check has not run has it in flight or waits in the retry list |
| Pursuit.TickTakesUp | atframework/service/component/etcdcli/etcd_cluster.cpp:718-728 | after a tick whose requests start, everything of the retry list has a request in flight or was refused |
| ClusterEffects.WhoWaitsAsksForLease | atframework/service/component/etcdcli/etcd_cluster.cpp:446-500 | whoever joins or has to be retried makes the cluster ask for a lease |
| ClusterEffects.ClosingRefuses | atframework/service/component/etcdcli/etcd_cluster.cpp:446-500 | a closing cluster takes nobody in, retries nothing and makes no request |
| ClusterEffects.ClosedClusterIsIdle | atframework/service/component/etcdcli/etcd_cluster.cpp:226-284 | after `close` nobody is a member or waits, no lease is left and the members' requests are given up |
| ClusterEffects.ClosedIsLikeNew | atframework/service/component/etcdcli/etcd_keepalive.cpp:32-51 | a closed keepalive is as new but for its value and, unless it is to be forgotten, its having data |
| ClusterEffects.SetValuePuts | atframework/service/component/etcdcli/etcd_keepalive.cpp:57-66 | the same value does nothing, a new one is put at once where that is possible and otherwise after the request in flight |
| ClusterEffects.UnstartedPutWaits | atframework/service/component/etcdcli/etcd_keepalive.cpp:103-140 | a put that could not be started is in the retry list, and its dirty flag is clear |
| ClusterEffects.ActorAnswerDecides | atframework/service/component/etcdcli/etcd_keepalive.cpp:12-14 | the answer to an actor's check starts its put where the key was empty or its own, and nothing where it was another's |
| ClusterEffects.KeptLeaseTakesUp | atframework/service/component/etcdcli/etcd_cluster.cpp:749-757 | a lease kept alive takes up what waits for a retry |
| ClusterEffects.NewLeaseTakesUp | atframework/service/component/etcdcli/etcd_cluster.cpp:758-770 | a new lease takes up every member |
| ClusterEffects.LostLeaseIsForgotten | atframework/service/component/etcdcli/etcd_cluster.cpp:749-771 | a lost lease is forgotten and nothing else |
| ClusterEffects.TickStartsOrWaits | atframework/service/component/etcdcli/etcd_cluster.cpp:323-376 | a tick starts a cluster that needs no lease, and does nothing while waiting for one or without a server |
| Publisher.EtcdKeepalive.constructor | atframework/service/component/etcdcli/etcd_keepalive.cpp:16-23 | a new keepalive is dirty, unchecked and idle |
| Publisher.EtcdKeepalive.Close | atframework/service/component/etcdcli/etcd_keepalive.cpp:32-51 | `close` drops the request and the checker and makes the keepalive dirty and unchecked |
| Publisher.EtcdKeepalive.SetChecker | atframework/service/component/etcdcli/etcd_keepalive.cpp:53-55 | installs or removes the checker |
| Publisher.EtcdKeepalive.SetValue | atframework/service/component/etcdcli/etcd_keepalive.cpp:57-66 | a changed value makes the keepalive dirty and activates it in a running cluster with a lease |
| Publisher.EtcdKeepalive.MakeRequest | atframework/service/component/etcdcli/etcd_keepalive.cpp:77-140 | at most one request in flight; the check first, then a put of the value under the lease if dirty; says whether a retry is due |
| Publisher.EtcdKeepalive.Active | atframework/service/component/etcdcli/etcd_keepalive.cpp:72-140 | activation, and the entry into the cluster's retry list when its request fails at once |
| Publisher.EtcdKeepalive.OnGetData | atframework/service/component/etcdcli/etcd_keepalive.cpp:142-207 | a failed check is retried, an answered one is judged and activates again |
| Publisher.EtcdKeepalive.OnSetData | atframework/service/component/etcdcli/etcd_keepalive.cpp:209-235 | a failed put makes the keepalive dirty and is retried, a successful one is acknowledged and activates again |
| Publisher.EtcdCluster.CreateKeepalive | atframework/service/component/etcdcli/etcd_keepalive.cpp:27-30 | a keepalive is created for the cluster, dirty and idle, in neither of its lists |
| Publisher.EtcdCluster.AddRetryKeepalive | atframework/service/component/etcdcli/etcd_cluster.cpp:480-500 | a keepalive enters the retry list once, and not while closing |
| Publisher.EtcdCluster.AddKeepalive | atframework/service/component/etcdcli/etcd_cluster.cpp:446-478 | a new member is appended once and activated in a running cluster with a lease; says whether it was added |
| Publisher.EtcdCluster.SwapAndPop | atframework/service/component/etcdcli/etcd_cluster.cpp:502-531 | the search loop finds the first occurrence and replaces it by the last element |
| Publisher.EtcdCluster.RemoveKeepalive | atframework/service/component/etcdcli/etcd_cluster.cpp:502-554 | the keepalive leaves both lists and is closed; says whether it was found and whether its path has to be deleted |
| Publisher.EtcdCluster.RetryPendingActions | atframework/service/component/etcdcli/etcd_cluster.cpp:718-728 | the retry loop republishes the listed keepalives in order and clears the list |
| Publisher.EtcdCluster.SetLease | atframework/service/component/etcdcli/etcd_cluster.cpp:749-771 | an unchanged lease only retries, a new one republishes every member and then retries |
| Publisher.EtcdCluster.Tick | atframework/service/component/etcdcli/etcd_cluster.cpp:323-376 | a tick starts the cluster if no lease is needed, waits for a lease otherwise, and retries; it does nothing while closing, without a curl handle or a member, or while authorization is outstanding |
| Publisher.EtcdCluster.Close | atframework/service/component/etcdcli/etcd_cluster.cpp:226-284 | every member is closed, both lists are emptied and the lease is dropped |
| Deletors.StepKeepsInv | atframework/service/component/etcdcli/etcd_cluster.cpp:603-746 | removal, re-adding, answers, retries and clean-up keep every deletor in one place under its own path |
| Deletors.DeletorsAreLinear | atframework/service/component/etcdcli/etcd_cluster.cpp:603-746 | in every run every deletor is in exactly one of the pending map, an in-flight request or freed, is freed at most once, is stored under its own path and starts at most eight requests |
| Deletors.NinthAttemptFrees | atframework/service/component/etcdcli/etcd_cluster.cpp:629-636 | the ninth attempt frees the deletor without a request |
| Deletors.SuccessFrees | atframework/service/component/etcdcli/etcd_cluster.cpp:708-716 | a delete that succeeded frees its deletor and touches nothing else |
| Deletors.FailureWaits | atframework/service/component/etcdcli/etcd_cluster.cpp:682-705 | a delete that failed waits under its path, with its attempts counted |
| Deletors.FreedStays | atframework/service/component/etcdcli/etcd_cluster.cpp:1609-1629 | over every run a freed deletor stays as it is |
| Deletors.CloseFreesWaiting | atframework/service/component/etcdcli/etcd_cluster.cpp:1630-1639 | closing frees everything that waits and touches nothing else |
| Deletors.ClosingStartsNothing | atframework/service/component/etcdcli/etcd_cluster.cpp:1512-1515 | a closing cluster starts no delete |
| DeletorOwner.EtcdKeepaliveDeletor.Attempt | atframework/service/component/etcdcli/etcd_cluster.cpp:627-667 | one attempt counts, frees after eight, starts the request, or leaves the deletor to wait |
| DeletorOwner.EtcdCluster.DeleteKeepaliveDeletor | atframework/service/component/etcdcli/etcd_cluster.cpp:1609-1629 | the deletor is freed and nothing else changes |
| DeletorOwner.EtcdCluster.DropPending | atframework/service/component/etcdcli/etcd_cluster.cpp:466-471 | the deletor waiting for a path that is published again is erased and freed |
| DeletorOwner.EtcdCluster.RemoveKeepalivePath | atframework/service/component/etcdcli/etcd_cluster.cpp:603-662 | a waiting deletor of the same path is freed, then the attempt is made and the deletor waits, flies or is freed |
| DeletorOwner.EtcdCluster.Begin | atframework/service/component/etcdcli/etcd_cluster.cpp:532-546 | removing a keepalive that has data starts the deletion of its path |
| DeletorOwner.EtcdCluster.OnRemoveKeepalivePath | atframework/service/component/etcdcli/etcd_cluster.cpp:669-716 | a failed delete with an owner waits again, any other answer frees the deletor |
| DeletorOwner.EtcdCluster.RetryPendingActions | atframework/service/component/etcdcli/etcd_cluster.cpp:737-746 | the loop over the swapped-out map tries each waiting deletor once, in any order |
| DeletorOwner.EtcdCluster.CleanupKeepaliveDeletors | atframework/service/component/etcdcli/etcd_cluster.cpp:1630-1639 | every waiting deletor is freed and the map is empty |
| Republication.HitsIff | atframework/service/component/etcdcli/etcd_cluster.cpp:638 | a delete of a path covers exactly the keys it is a prefix of, or the path alone when all its bytes are 0xff, or nothing when it is empty |
| Republication.ThreatsComeFromRemovals | atframework/service/component/etcdcli/etcd_cluster.cpp:446-746 | a delete of a path that no live deletor and no late request can carry out any more comes back only with the removal of a keepalive of that path |
| Republication.SurvivesIff | atframework/service/component/etcdcli/etcd_cluster.cpp:226-746 | a stored key survives every run that sets nothing going against it, if and only if no deletor whose path covers it has a delete in flight or an attempt left, no late delete covers it and no revoke of its lease is on its way |
| Republication.HoldsIff | atframework/service/component/etcdcli/etcd_cluster.cpp:226-746 | it keeps its value over every run that starts no other put of it, if and only if also every put of it in flight or late has that value |
| Republication.JoinLeavesInFlight | atframework/service/component/etcdcli/etcd_cluster.cpp:466-471 | after `add_keepalive` the deletors left of exactly its path are in flight; those in flight, those of other paths and the late deletes are as they were |
| AcknowledgedPuts.StepCarries | atframework/service/component/etcdcli/etcd_keepalive.cpp:32-235 | over every step of the cluster only the successful answer to its put changes what is acknowledged of a keepalive, and a put in flight is replaced only after its answer or when it is given up |
| AcknowledgedPuts.PublishedIsStored | atframework/service/component/etcdcli/etcd_keepalive.cpp:209-235 | once what was acknowledged is in the store with nothing against it, over every run that starts no other put a member that is not stale has its value in the store under the lease of now |
| LateDelete.RepublishedIsLost | atframework/service/component/etcdcli/etcd_cluster.cpp:446-546 | a run from the initial state: published, removed, added and published again, then the delete of the removal lands; the cluster holds the value for published and the store lacks the key |
| LateDelete.FirstIsSafeSecondIsNot | atframework/service/component/etcdcli/etcd_cluster.cpp:446-546 | in that run the first publication meets the condition of `HoldsIff` and the second does not |
| SessionManager.Session.constructor | atframework/service/atgateway/session.cpp:33-57 | a new session has the manager as owner and no flag but its connection |
| SessionManager.Session.InitNewSession | atframework/service/atgateway/session.cpp:149-158 | the session takes its id and router and is initialised |
| SessionManager.Session.InitReconnect | atframework/service/atgateway/session.cpp:160-175 | id, router and registration pass to the new session; the old one is marked reconnected and no longer waits |
| SessionManager.Session.SendNewSession | atframework/service/atgateway/session.cpp:177-203 | one "added" notice goes out exactly when the session becomes registered |
| SessionManager.Session.SendRemoveSession | atframework/service/atgateway/session.cpp:205-232 | one "removed" notice goes out exactly when the session stops being registered |
| SessionManager.Session.SendToServer | atframework/service/atgateway/session.cpp:353-393 | no router and no manager are errors, otherwise the bus answers |
| SessionManager.Session.CloseWithManager | atframework/service/atgateway/session.cpp:273-288 | a registered session neither reconnected nor waiting takes its registration back, also when it is closing already; then it closes once |
| SessionManager.Session.CloseFd | atframework/service/atgateway/session.cpp:290-317 | the connection and the owner are given up once |
| SessionManager.Manager.Accept | atframework/service/atgateway/session_manager.cpp:487-563 | an accepted connection gets a first-idle timer, a refused one is closed |
| SessionManager.Manager.Tick | atframework/service/atgateway/session_manager.cpp:234-296 | both loops: expired reconnect timers erase the cache entry of their id and close, expired first-idle timers close what is not registered; nothing in the same second |
| SessionManager.Manager.Close | atframework/service/atgateway/session_manager.cpp:298-342 | by id: an active session is closed or parked in the cache with a timer, a cached one is closed when reconnecting is not allowed |
| SessionManager.Manager.SetSessionRouter | atframework/service/atgateway/session_manager.cpp:396-404 | the active session with the id gets the router |
| SessionManager.Manager.Reconnect | atframework/service/atgateway/session_manager.cpp:406-466 | the old session is found in the cache or detached, checked, handed over, closed and erased; every refusal has its code |
| SessionManager.Manager.ActiveSession | atframework/service/atgateway/session_manager.cpp:468-485 | the backend is told and the session becomes the active one, unless the notice fails |
| SessionManager.Manager.Reset | atframework/service/atgateway/session_manager.cpp:192-221 | the four loops close the sessions of both maps and both lists, in whatever order the maps are traversed, and empty them |
| SessionManager.OnClose | atframework/service/atgateway/atgateway.cpp:450-488 | the protocol's close goes through the manager when there is one and falls back on the session |
| SessionManager.OnReadError | atframework/service/atgateway/atgateway.cpp:262-293 | a failed read parks the session by its id |
| SessionManager.OnReconnect | atframework/service/atgateway/atgateway.cpp:415-448 | a session that is initialised may not reconnect |
| SessionManager.OnHandshakeDone | atframework/service/atgateway/atgateway.cpp:490-516 | a successful handshake activates the session |
| SessionProtocol.CloseIsFaithful | atframework/service/atgateway/session.cpp:275-317 | closing keeps who the session is and sends at most the one notice its registration stands for |
| SessionProtocol.HandOverKeepsCore | atframework/service/atgateway/session.cpp:160-175 | the duty passes from the old session to the new one without a notice |
| SessionProtocol.NoneActive | atframework/service/atgateway/session_manager.cpp:473-476 | no session is ever kicked off by one that shakes hands with its id |
| SessionProtocol.StepKeepsInv | atframework/service/atgateway/session_manager.cpp:192-485 | every callback, call, tick and reset keeps the session invariant |
| SessionProtocol.RegistrationIsALinearToken | atframework/service/atgateway/session.cpp:160-232 | in every run, for each id, the notices sent alternate strictly starting with "added"; the backend believes in the session exactly while a session object is registered and not reconnected, and there is at most one |
| SessionProtocol.MapsStayWellFormed | atframework/service/atgateway/session_manager.cpp:234-485 | in every run active and cached ids are disjoint, each entry is under its own id and the only session with it not reconnected, and a cached session has no connection, waits and has a timer |
| SessionProtocol.NoSessionOutlivesItsDeadline | atframework/service/atgateway/session_manager.cpp:234-296 | after every tick both lists are sorted and all their timers are later than now, every cached session still has one, and every session that is neither registered nor closing still has a first-idle timer |
| SessionDuties.RegistrationIsKeptIff | atframework/service/atgateway/session_manager.cpp:234-342 | in every run without `reset`, a session that is registered, not reconnected and had no notice of its end fail is active, or has a timer that closes it within the reconnect timeout, if and only if it was ever active |
| SessionDuties.HalfwayReconnectIsKept | atframework/service/atgateway/session_manager.cpp:278-293 | a run: a client reconnects and its handshake is reported as failed; after all timers it is registered, in no map or list and not closing, and a failed read changes nothing |
| SessionDuties.ResetForgetsIff | atframework/service/atgateway/session_manager.cpp:192-221 | a `reset` leaves a registration without even a failed notice if and only if its session waits for a reconnect or is in no map and no list |
| SessionDuties.ResetForgetsWaiting | atframework/service/atgateway/session_manager.cpp:208-220 | a run: a session registers, loses its connection and waits; after `reset` it is closed and the backend still believes in it |
| SessionReconnects.RefusedChangesNothing | atframework/service/atgateway/session_manager.cpp:406-456 | when `check_reconnect` answers no, the reconnect is an error and no session, map, list or notice changes |
| SessionReconnects.ReconnectSucceedsIff | atframework/service/atgateway/session_manager.cpp:406-466 | a reconnect succeeds if and only if the protocol accepts it and the old session waits, or is active where reconnecting is allowed |
| SessionReconnects.ReconnectHandsOver | atframework/service/atgateway/session_manager.cpp:458-465 | after a success id, router and registration are the new session's, the old one is replaced and closing, nothing waits under the id and no notice was sent |
| SessionReconnects.RegistrationMovesByReconnect | atframework/service/atgateway/session_manager.cpp:406-466 | in every run the registration of an id passes from one session object to another only in a reconnect of the id by the new one that the protocol accepts |
| SessionEffects.LostConnectionIsParked | atframework/service/atgateway/session_manager.cpp:319-333 | a lost connection sends no notice and leaves the session in the cache, without its connection, for exactly the reconnect timeout |
| SessionEffects.ClosedIsTold | atframework/service/atgateway/session_manager.cpp:334-341 | an active session closed for good is taken back at the backend exactly when it was registered, has a router and the bus takes the notice |
| SessionEffects.UnknownIsNotFound | atframework/service/atgateway/session_manager.cpp:298-316 | closing an unknown id is an error and changes nothing |
| SessionEffects.RouterIsSet | atframework/service/atgateway/session_manager.cpp:396-404 | the router set is that of the active session with the id |
| SessionEffects.WaitingIsKicked | atframework/service/atgateway/session_manager.cpp:301-312 | a waiting session that may not reconnect leaves the cache and closes, and its timer stays to tell the backend |
| SessionEffects.ClosedLosesConnection | atframework/service/atgateway/session.cpp:275-317 | a session that closes gives up its connection and manager |
| SessionEffects.EndOfConnectionEnds | atframework/service/atgateway/atgateway.cpp:450-488 | after the protocol's close the session is closing, or waits without its connection |
| SessionEffects.NewSessionIsRouted | atframework/service/atgateway/session.cpp:149-158 | a new session has its id and router and nothing else changes |
| SessionEffects.InitedIsNotReconnected | atframework/service/atgateway/atgateway.cpp:429-433 | an initialised session is refused a reconnect and nothing changes |
| SessionEffects.ActivatedIsTold | atframework/service/atgateway/session_manager.cpp:468-485 | a session that shakes hands is told to the backend exactly when it has a router and the bus takes the notice, and is active unless that failed |
| SessionEffects.ReconnectedIsActive | atframework/service/atgateway/session_manager.cpp:468-485 | a session registered by a reconnect becomes active without a notice |
| SessionEffects.ExpiredIsTold | atframework/service/atgateway/session_manager.cpp:257-275 | a session whose reconnect timer runs out is taken back at the backend through the manager, closes and leaves the cache |
| SessionEffects.SecondTickIsNothing | atframework/service/atgateway/session_manager.cpp:236-239 | a second tick in the same second does nothing |
| SessionEffects.TickTouchesOnlyDue | atframework/service/atgateway/session_manager.cpp:234-296 | a tick takes only timers that are due, changes only sessions that have one and takes from the cache only ids of such a session |

## Left out

- HTTP, curl, libuv, sockets, DNS, timers as objects of the operating system and logging: completions, failures and clocks are steps and parameters.
- JSON parsing, `str2int` and base64: a complete frame decodes to a response by a function that undoes the server's encoding; the members of a packed node are parameters of `NodeEvents`.
- Compaction and frames whose header runs ahead of their events: excluded by the server contract; `WatchProtocol.FrameKeepsDeliveryExactIff` says what they would break.
- The watcher's write-only flag `is_actived` and the fields `watch_id`, `created` and `compact_revision`.
- The counter of check attempts, statistics, authorization and member-list polling of the etcd client.
- Destroying the etcd cluster while deletes are in flight.
- Publisher.EtcdCluster.Close: the watchers are left out; the clean-up of the deletors is `DeletorOwner.EtcdCluster.CleanupKeepaliveDeletors`, the revoke of the lease is in `Republication`, and `Republication.Apply` does it all.
- Publisher.EtcdCluster.AddKeepalive: the drop of a waiting deletor of the same path is `DeletorOwner.EtcdCluster.DropPending`; `Republication.Apply` does both.
- Watcher.EtcdWatcher.OnWatchWrite: stopping the request after a canceled frame is left out; the end of a watch is a step that may come at any time.
- SessionManager.Session.InitReconnect: the traffic limits and the private data it copies are left out.
- SessionManager.Session.SendToServer: the traffic counters and the checks of the limits after the post are left out.
- `NodeEvents.TableAgreesWithEtcd` is about runs without a `close` of the watcher: the snapshot after a `close` adds to the table without clearing it.
- Traffic limits of a session and `max_client_number`: they count and bound nothing over runs that the other results need.
- The protocol's close callback as re-entry into `session_manager::close`: it is a later step, so a re-entrant erase is not part of this model.
- The inner protocol, its cryptography and `check_reconnect`: the protocol layer is a source of steps and an oracle; every session has a protocol object, as `session::create` makes sure, so the checks for a missing one are left out.
- The swapped-out protocol object that `on_evt_accept_pipe` uses at line 608; the model has the order of `on_evt_accept_tcp`.
- Listening sockets and writing to clients.
- The flags of a session are booleans, not bits of an integer, and WRITING_FD is left out.
- How long a cached session stays reconnectable: an old timer with the same id may erase its entry early, so only the upper bound is proved.
- That an active session is not closing: direct calls of `session::close` may leave a closing session in the active map.
- C wrappers, generated code, sample clients, tools, configuration reload and the configuration generator.
