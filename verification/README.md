# Edge Matrix core: a verified model

A Dafny model of the parts of Edge Matrix core that keep state under concurrency or have to read back
what they wrote, with proofs about every input and every run.

- **Filter manager.** `ContainerHeap` gives the algorithms of Go's container/heap on values;
  `IndexedHeap` is the heap updated in place, whose elements know their place. `FilterSpec` has the
  critical sections of the manager as functions, `FilterManager` the objects that compute them, and
  `FilterRuns`, `FilterGap`, `FilterDelivery`, `FilterSteps`, `FilterTimeout` and `FilterTimeoutGaps`
  reason about runs of them: clients, events and the expiring worker in any order.
- **Dial queue.** `DialSpec` and `DialQueue`, over the same heap.
- **Connections.** `ConnectionSpec` derives the counters from sets, `ConnectionServer` has the objects,
  `Admission` is the admission protocol as interleaved steps with the bound on connections,
  `AdmissionWhole` the case in which the callback runs as one step, `AdmissionLimits` the runs that
  attain the bound, and `Handshake` the exchange of statuses between any number of nodes.
- **Codecs and signer.** `Bytes`, `FixedBytes` and `Rlp` (Appendix B of the Ethereum Yellow Paper, which
  `RlpShortest` holds it to) under `TelegramCodec`, `TelegramRefs`, `EdgeResponses`, `WireForms`, `Signer`
  (EIP-155) and `AddressText` (EIP-55).
- **Relay set.** `RelaySpec` has setup and addition as functions, `RelayUpdates` what they bring in,
  `RelayClient` the object, `RelayRuns` the runs of overlapping additions over Go's slices, `RelayOverlap`
  when array and map agree in them, and `RelayLost` what happens to a node when they do not.
- **Event stream.** `EventStream`.

Code that changes state step by step is a class whose methods are proved to compute the functions of a
specification module; the theorems are about those functions. A run is any sequence of operations, and
an operation that is not enabled leaves the state alone. The clock, random numbers, fresh identifiers,
the outcome of network calls and of socket writes are parameters. Hash functions and the elliptic curve
are parameters too; of the curve, `Signer.SignsWell` says all that is assumed.

`dafny verify dfyconfig.toml` checks everything.

## What does not hold

The properties below are the ones that the code meets only under a condition. Each has a lemma with
the exact condition and, where one is needed, a run in which it fails.

- A poll takes a filter's messages in one critical section and refreshes its timeout in another. A
  filter uninstalled in between is queued although it no longer exists (`FilterGap.StaleArisesIff`), can
  never be taken out, and once it is at the root and the worker holds no other filter, no filter ever
  expires again (`FilterGap.GapBlocks`, `FilterTimeoutGaps.NothingExpiresAgain`).
- The worker peeks the next expiry, then waits; a timer fires, then the filter is removed. The filter
  removed has not expired exactly when it was refreshed less than a timeout before, in one of these two
  gaps (`FilterTimeoutGaps.PeekGapExpiresEarlyIff`, `FilterTimeoutGaps.FireGapExpiresEarlyIff`), which
  one poll brings about (`FilterTimeoutGaps.PeekGapExpiresEarly`, `FilterTimeoutGaps.FireGapExpiresEarly`).
- The connection limit holds when the connected callback runs as one step. Otherwise it is passed by up
  to k + m - 1, where k is how many handshakes past the slot check the pending counter misses and m how
  far the active counter grows between the two loads of a slot check (`Admission.SlotsAnyInterleaving`);
  for every limit of at least one, every k and every m a run attains that
  (`AdmissionLimits.BoundAttained`). One handshake that ends between the two loads is enough
  (`AdmissionLimits.ReleaseBetweenReads`). Active and pending connections together can pass the limit in
  any case (`AdmissionWhole.CountedTwice`), and the pending counter is below zero while more entries have
  been given back uncounted than are counted (`AdmissionLimits.BelowZeroIff`), which two threads of one
  peer bring about (`AdmissionLimits.PendingBelowZero`).
- A peer that is added to the dial queue again while it is queued outlives its deletion
  (`DialSpec.DeleteClearsIff`, `DialSpec.ReAddOutlivesDelete`).
- A telegram whose integers are nil or negative does not come back as it was
  (`TelegramCodec.RoundTripExactIff`), nor does such a response (`EdgeResponses.ResponseRoundTrip`).
- The network ID is converted to a signed integer before V is made: from 2^63 on, except for the last 17
  or 18 IDs, a signer refuses its own signatures (`Signer.UnwindsIff`, `Signer.ProviderIsSigner`). There V
  can also be in range on one other network (`Signer.InRangeIff`, `Signer.OtherNetworkInRange`).
- Adding relay nodes leaves array and map in disagreement exactly when a node that is not known yet
  comes before the first address that does not parse (`RelaySpec.AddAgreesIff`).
- Additions of relay nodes take no lock, and two goroutines make them. The array has everything after a
  publication exactly when it had everything at the adder's snapshot and no other adder has appended since
  (`RelayOverlap.PublishCompleteIff`, `RelayOverlap.PublishAgreesIff`). Two that overlap lose a node
  (`RelayLost.OverlapLoses`): it is in the map, so it is never added again, and it is out of the array for
  good exactly when no adder holds it any more (`RelayLost.LostForGoodIff`).
- Slices of one array share memory, so an append can overwrite a node that is published already. A node is
  listed twice exactly when it is appended next to itself, after another adder wrote it since the test
  (`RelayOverlap.NodeTwiceIff`, `RelayLost.ListedTwice`), and the array can show a node that is not in the
  map yet (`RelayLost.ShownBeforeEntered`).
- Text that goes on behind an address with something that is not hexadecimal is accepted: as the address
  when the rest has an even length (`AddressText.TrailingTextAccepted`), as the address shifted by one
  digit when it is odd (`AddressText.OddTailShifts`).

## Model

| member | source | states |
|---|---|---|
| ContainerHeap.PushOrders | core/jsonrpc/web3/node_filter_manager.go:33-35 | pushing keeps every entry at or above its parent's key |
| ContainerHeap.PushKeeps | core/jsonrpc/web3/node_filter_manager.go:33-35 | a push adds one entry and keeps all others, and a new item makes no duplicate |
| ContainerHeap.RemoveAtOrders | core/jsonrpc/web3/node_filter_manager.go:37-45 | removing any place, with its down and only otherwise up, keeps the heap ordered |
| ContainerHeap.RemoveAtKeeps | core/jsonrpc/web3/node_filter_manager.go:37-45 | removal takes out the entry at that place and no other |
| ContainerHeap.RemoveItemSpec | core/jsonrpc/web3/node_filter_manager.go:37-45 | removal by back-pointer leaves an ordered heap with exactly the other items, and nothing changes for an item that is not queued |
| ContainerHeap.RequeueItemSpec | core/jsonrpc/web3/node_filter_manager.go:386-389 | removing and pushing again leaves exactly one entry for the item, under the new key |
| ContainerHeap.RootLeast | core/jsonrpc/web3/node_filter_manager.go:433-436 | the root of an ordered heap has the least key of all |
| ContainerHeap.RemoveAtKeepsRoot | core/jsonrpc/web3/node_filter_manager.go:37-45 | removing any other place leaves the root where it is |
| ContainerHeap.NothingMoves | core/jsonrpc/web3/node_filter_manager.go:49-57 | in an ordered heap neither sift moves anything, so equal keys keep their places |
| ContainerHeap.PopSpec | core/network/dial/dial_queue.go:64-74 | a pop takes out the root, which is least, keeps the order and loses nothing |
| ContainerHeap.DrainSorts | core/network/dial/dial_queue.go:64-74 | repeated pops hand out a sorted permutation of the heap |
| IndexedHeap.MinHeap.Swap | core/jsonrpc/web3/node_filter_manager.go:53-57 | two elements change places in the slice and both back-pointers follow |
| IndexedHeap.MinHeap.Up | core/jsonrpc/web3/node_filter_manager.go:49-57 | the loop in place computes the sift-up on values, back-pointers staying exact |
| IndexedHeap.MinHeap.Down | core/jsonrpc/web3/node_filter_manager.go:49-57 | the loop in place computes the sift-down on values and reports whether it moved anything |
| IndexedHeap.MinHeap.TakeLast | core/network/dial/heap.go:31-40 | the last element leaves the slice with index -1 |
| IndexedHeap.MinHeap.Push | core/network/dial/heap.go:23-28 | append and sift up: the members grow by one, every index is a place |
| IndexedHeap.MinHeap.Pop | core/network/dial/dial_queue.go:64-66 | hands out the former root with index -1 and leaves what popping on values leaves |
| IndexedHeap.MinHeap.Remove | core/network/dial/dial_queue.go:87-89 | takes out the element at a place, with index -1, every other index staying exact |
| NodeQueries.Match | core/jsonrpc/web3/node_query.go:31-76 | an application matches exactly when each non-empty field of the query equals its own |
| NodeQueries.SelectExact | core/jsonrpc/web3/node_query.go:31-76 | what a query selects from a log are the matching applications, each as often as it is there and in the same order |
| FilterRuns.HeapAfter | core/jsonrpc/web3/node_filter_manager.go:361-413 | what each step does to the heap: one new entry for the filter it queues, none left for the one it uninstalls, no change otherwise |
| FilterRuns.EveryRunKeepsHeap | core/jsonrpc/web3/node_filter_manager.go:315-413 | in every interleaving the heap is ordered without duplicates, every installed filter without a websocket is queued under its expiry, and no websocket filter is queued |
| FilterRuns.AtomicRunKeepsExact | core/jsonrpc/web3/node_filter_manager.go:315-413 | with polling as one step the heap holds exactly the installed filters without a websocket |
| FilterRuns.AtomicRunsAgree | core/jsonrpc/web3/node_filter_manager.go:31-75 | from the start, with polling as one step: each such filter is at its own place and nowhere else under its expiry, and the root expires first |
| FilterGap.StaleArisesIff | core/jsonrpc/web3/node_filter_manager.go:315-326 | the first queued filter that is not installed arises exactly by refreshing one that was uninstalled meanwhile |
| FilterGap.StaleStays | core/jsonrpc/web3/node_filter_manager.go:361-375 | no step takes such an entry out of the heap |
| FilterGap.BlockedForever | core/jsonrpc/web3/node_filter_manager.go:361-413 | once it is at the root it stays the root whatever the clients do, and uninstalling it changes nothing |
| FilterGap.GapBlocks | core/jsonrpc/web3/node_filter_manager.go:315-326 | one poll and one uninstall of a filter, interleaved, reach that state |
| FilterDelivery.EveryRunDelivers | core/jsonrpc/web3/node_filter_manager.go:181-222 | in every run, for every filter ever installed, what was handed out and what is stored is an ordered part of the matching applications since its installation, and all of it while no write fails |
| FilterDelivery.PolledExactlyOnce | core/jsonrpc/web3/node_filter_manager.go:329-350 | polls of an installed filter together with its stored messages are exactly the matching applications since its installation, once and in order |
| FilterDelivery.WrittenInOrder | core/jsonrpc/web3/node_filter_manager.go:503-541 | what reaches a websocket is an ordered part of the matching applications, and nothing is missing while the filter is not marked as failed |
| FilterDelivery.FlushDelivers | core/jsonrpc/web3/node_filter_manager.go:207-222 | a flush that stops at a failing write loses the rest but keeps order, and is recorded as failed |
| FilterSteps.LifeOfAFilter | core/jsonrpc/web3/node_filter_manager.go:181-222 | from its installation on: what a filter has handed out and still stores are the matching applications dispatched since, in order; all of them while it is installed and, with a websocket, no flush meets a failing write to it |
| FilterSteps.HandedOut | core/jsonrpc/web3/node_filter_manager.go:207-222 | a flush writes every stored message unless a write fails before the last, and then exactly those before the failing one; a poll hands over all |
| FilterSteps.FailedIff | core/jsonrpc/web3/node_filter_manager.go:504-527 | in any run a websocket filter is marked as failed exactly when some flush had a failing write among its messages |
| FilterSteps.FilterAfter | core/jsonrpc/web3/node_filter_manager.go:315-413 | what each step does to one installed filter: its messages, its expiry, or nothing |
| FilterSteps.InstalledAfter | core/jsonrpc/web3/node_filter_manager.go:361-413 | a filter is installed from its installation to its removal, with or without a websocket |
| FilterSteps.ChangesIff | core/jsonrpc/web3/node_filter_manager.go:329-350 | which error a poll returns, or the stored messages |
| FilterSteps.ReadersAfter | core/jsonrpc/web3/node_filter_manager.go:315-326 | any number of polls may be between their two critical sections, also of one filter |
| FilterSteps.HalvesOfAPoll | core/jsonrpc/web3/node_filter_manager.go:315-326 | the two critical sections of a poll with nothing between them are the poll as one step |
| FilterTimeout.ChangesSignal | core/jsonrpc/web3/node_filter_manager.go:361-413 | every step that changes the heap notifies the worker |
| FilterTimeout.EveryRunKeepsWorker | core/jsonrpc/web3/node_filter_manager.go:257-287 | with peeking and parking as one step, a parked worker's filter and timer are those of the present root |
| FilterTimeout.TimeoutExpiresTheLeast | core/jsonrpc/web3/node_filter_manager.go:273-278 | then a timeout uninstalls one filter, whose expiry has passed and is least, and the heap shrinks by one |
| FilterTimeout.EmptyPeekRemovesNothing | core/jsonrpc/web3/node_filter_manager.go:261-278 | a timer left over from before an empty peek removes nothing |
| FilterSteps.SignalsIff | core/jsonrpc/web3/node_filter_manager.go:361-413 | the worker is notified exactly of what queues a filter or takes one out of the heap |
| FilterSteps.WakesIff | core/jsonrpc/web3/node_filter_manager.go:257-287 | a parked worker goes on exactly when it is notified or its timer has fired |
| FilterSteps.TimerAfter | core/jsonrpc/web3/node_filter_manager.go:257-287 | the timer is set by a peek that finds a filter, spent when it fires, and left alone by an empty peek |
| FilterSteps.RootExpiresIff | core/jsonrpc/web3/node_filter_manager.go:257-287 | a notified worker parks again on the present root, and its timeout uninstalls that filter exactly when it has expired |
| FilterTimeoutGaps.UnexpiredIff | core/jsonrpc/web3/node_filter_manager.go:386-396 | in any interleaving a filter still installed has not expired exactly when its first expiry lies beyond the run or a refresh in it was followed by less than the timeout |
| FilterTimeoutGaps.PeekGapExpiresEarlyIff | core/jsonrpc/web3/node_filter_manager.go:259-278 | after any steps between peek, select and timer, the filter that the timeout removes has not expired exactly when one of them refreshed it less than a timeout before |
| FilterTimeoutGaps.FireGapExpiresEarlyIff | core/jsonrpc/web3/node_filter_manager.go:273-276 | the same for any steps between the timer and the removal |
| FilterTimeoutGaps.PeekGapExpiresEarly | core/jsonrpc/web3/node_filter_manager.go:259-273 | it happens: a poll between peek and select loses its notification and its filter is removed 30 seconds early |
| FilterTimeoutGaps.FireGapExpiresEarly | core/jsonrpc/web3/node_filter_manager.go:273-276 | it happens: a poll between the timer and the removal refreshes a filter that is removed all the same |
| FilterTimeoutGaps.EveryRunKeepsClock | core/jsonrpc/web3/node_filter_manager.go:392-396 | in every interleaving no expiry lies further ahead than the timeout |
| FilterTimeoutGaps.NothingExpiresAgain | core/jsonrpc/web3/node_filter_manager.go:257-287 | with a stale entry at the root and no other filter in the worker's hands, no step of the worker removes anything, after any steps of clients and worker |
| FilterManager.NodeFilterManager.IndexIsPlace | core/jsonrpc/web3/node_filter_manager.go:83-95 | a filter's heap index is the place where its entry is, -1 exactly when it is not queued |
| FilterManager.NodeFilterManager.RemoveTimeout | core/jsonrpc/web3/node_filter_manager.go:37-45 | takes the filter out of the heap and tells whether it was there |
| FilterManager.NodeFilterManager.AddTimeout | core/jsonrpc/web3/node_filter_manager.go:392-396 | the filter's expiry is renewed and it is queued under it, other filters staying as they were |
| FilterManager.NodeFilterManager.RefreshFilterTimeout | core/jsonrpc/web3/node_filter_manager.go:386-389 | the filter ends up queued once under the new expiry, also when it is no longer installed |
| FilterManager.NodeFilterManager.NewNodeFilter | core/jsonrpc/web3/node_filter_manager.go:399-413 | the new filter is installed, queued and announced just when it has no websocket |
| FilterManager.NodeFilterManager.RemoveFilterByID | core/jsonrpc/web3/node_filter_manager.go:361-375 | removes the filter from map and heap, and tells whether it existed and whether the worker is notified |
| FilterManager.NodeFilterManager.GetFilterAndChanges | core/jsonrpc/web3/node_filter_manager.go:329-350 | the stored messages are handed over and cleared; the two errors change nothing |
| FilterManager.NodeFilterManager.GetFilterChanges | core/jsonrpc/web3/node_filter_manager.go:315-326 | a successful poll hands over the messages and then refreshes the timeout, a failed one changes nothing |
| FilterManager.NodeFilterManager.NextTimeoutFilter | core/jsonrpc/web3/node_filter_manager.go:425-437 | the id and expiry at the root, or the empty id |
| FilterManager.NodeFilterManager.AppendNodeLogToFilters | core/jsonrpc/web3/node_filter_manager.go:480-500 | in any order of iteration, just the filters whose query matches store the application |
| FilterManager.NodeFilterManager.ProcessEvent | core/jsonrpc/web3/node_filter_manager.go:453-463 | the applications of an event are stored one after another |
| FilterManager.NodeFilterManager.SendUpdates | core/jsonrpc/web3/node_filter_manager.go:504-527 | every websocket filter is emptied; each socket gets all of its messages, or those before the first failing write, and the closed sockets are collected |
| FilterManager.NodeFilterManager.FlushWsFilters | core/jsonrpc/web3/node_filter_manager.go:504-541 | the same, after which the filters of closed sockets are removed |
| FilterManager.EventIsRun | core/jsonrpc/web3/node_filter_manager.go:440-463 | dispatching an event and removing closed sockets is a run of single steps, so what holds in every run holds of it |
| DialSpec.EveryRunKeeps | core/network/dial/dial_queue.go:60-114 | in every run, re-adds included: heap order, no duplicates, every mapped task queued or popped, and what was added is queued, popped or deleted |
| DialSpec.RunsAgree | core/network/dial/dial_queue.go:60-114 | from the start: a mapped task has no place in the heap exactly when it was popped, and a pop hands out a least entry |
| DialSpec.MappedAfter | core/network/dial/dial_queue.go:60-114 | a peer is mapped to the task of its latest addition until it is deleted, popped or not |
| DialSpec.QueuedAfter | core/network/dial/dial_queue.go:60-114 | an addition queues one entry under its own priority, a pop hands out a least one, a deletion takes out the mapped one |
| DialSpec.DrainingSorts | core/network/dial/dial_queue.go:60-77 | popping until the queue is empty hands out a sorted permutation of it |
| DialSpec.AddRefinedIff | core/network/dial/dial_queue.go:96-108 | the heap keeps to mapped tasks exactly when the added peer has no task queued |
| DialSpec.RunKeepsRefined | core/network/dial/dial_queue.go:80-108 | without re-adds of queued peers it does so in every run |
| DialSpec.DeleteIsExact | core/network/dial/dial_queue.go:80-93 | then deleting a peer removes exactly its task and leaves every other one queued |
| DialSpec.DeleteClearsIff | core/network/dial/dial_queue.go:80-93 | with re-adds, deleting leaves none of the peer's tasks queued exactly when the mapped one is its only queued one |
| DialSpec.ReAddOutlivesDelete | core/network/dial/dial_queue.go:103-108 | a peer added again while queued is still queued after its deletion |
| DialQueue.DialQueue.IndexIsPlace | core/network/dial/dial_queue.go:84-89 | a task's index is its place, -1 exactly when it is not queued |
| DialQueue.DialQueue.AddTask | core/network/dial/dial_queue.go:96-108 | a new task is mapped and queued, an older one of the peer staying queued |
| DialQueue.DialQueue.PopTaskImpl | core/network/dial/dial_queue.go:60-77 | hands out the root with index -1, which stays mapped, or nothing from an empty heap |
| DialQueue.DialQueue.DeleteTask | core/network/dial/dial_queue.go:80-93 | unmaps the peer and takes its task out of the heap unless it was popped |
| ConnectionSpec.EveryRunTallies | core/network/server.go:571-614 | over any sequence of adding and removing peers and pending entries each counter is the size of the set it stands for, bootnodes counted once per direction, so none is negative |
| ConnectionSpec.CountersConserved | core/network/connections.go:112-138 | from the start: inbound and outbound count the active peers, the pending counters the pending entries, the bootnode counter the directions of active bootnodes, zero without discovery; so none is negative |
| ConnectionSpec.FreeSlotIff | core/network/connections.go:89-98 | a slot is free exactly while the active peers and pending entries of the direction together are fewer than that direction's own limit |
| ConnectionSpec.ActiveAfter | core/network/server_identity.go:56-91 | a peer is active in a direction from being added in it until it is removed, and the table has no other peers |
| ConnectionSpec.PendingAfter | core/network/identity/identity.go:138-155 | a handshake is pending under the direction it was first stored with until it is released |
| ConnectionSpec.AddPeerKeeps | core/network/server_identity.go:56-91 | adding a peer keeps the counters equal to those sizes, whether or not it was there |
| ConnectionSpec.RemovePeerKeeps | core/network/server.go:571-601 | removing a peer gives back every direction it was active in, and no more |
| ConnectionSpec.AddPendingKeeps | core/network/identity/identity.go:151-155 | a pending entry is counted once, in the direction it was first stored with |
| ConnectionSpec.RemovePendingKeeps | core/network/identity/identity.go:138-147 | releasing gives back the stored direction, once |
| Admission.NextKeepsInv | core/network/identity/identity.go:86-155 | with every atomic operation as a step of its own, the active counters count the peers, and the pending counters the reservations counted and not given back less those given back before they were counted |
| Admission.CountedWhenQuiet | core/network/identity/identity.go:138-155 | whenever no thread is between an entry and its counter, the pending counter is the number of entries |
| Admission.IncomingBound | core/network/connections.go:86-98 | the handshakes before AddPeer are at most the pending counter plus those it misses |
| Admission.PassBound | core/network/connections.go:96-98 | when a slot check passes, active plus incoming are at most the limit plus k + m - 1, the active counter having been loaded before the pending one |
| Admission.RunBound | core/network/identity/identity.go:86-192 | every step keeps that, in runs where at most k handshakes are missed and the active counter grows by at most m unseen |
| Admission.SlotsAnyInterleaving | core/network/identity/identity.go:86-155 | so from the start, in any interleaving of the atomic operations, inbound connections exceed the inbound limit, and outbound ones the outbound limit, by at most k + m - 1 |
| AdmissionWhole.WholeAdmissionsExposed | core/network/identity/identity.go:92-104 | with the callback as one step at most one handshake is missed and no growth unseen, however the handshakes and releases interleave |
| AdmissionWhole.SlotsWithWholeAdmission | core/network/identity/identity.go:86-155 | then no run exceeds the inbound limit inbound or the outbound limit outbound, incoming handshakes included |
| AdmissionWhole.AdmitIsConnected | core/network/identity/identity.go:88-106 | the five steps together ignore a pending peer, turn away one without a slot and reserve any other |
| AdmissionWhole.HandshakeIsStep | core/network/identity/identity.go:106-117 | the three steps of the handshake goroutine together add the peer just when it is to be saved and release its pending entry |
| AdmissionWhole.LostIsStep | core/network/server.go:571-601 | a lost connection removes the peer from the table |
| AdmissionWhole.CountedTwice | core/network/identity/identity.go:109-117 | between AddPeer and the release, active plus pending pass the limit although admission is one step |
| AdmissionLimits.BoundAttained | core/network/identity/identity.go:86-192 | for every limit of at least one, every k of at least one and every m there is a run from the start, exposed to no more, with exactly the limit plus k + m - 1 active connections |
| AdmissionLimits.ReleaseBetweenReads | core/network/connections.go:96-98 | a handshake that ends between the two loads of another's slot check is seen in neither, and the limit is passed |
| AdmissionLimits.PendingBelowZero | core/network/identity/identity.go:138-155 | for every limit of at least one, a run of two threads of one peer, in which an entry is deleted before its +1, takes the pending counter from the start to -1 |
| AdmissionLimits.BelowZeroIff | core/network/identity/identity.go:138-155 | in any run from the start the pending counter is below zero exactly when more entries were given back before their +1 than are counted and not given back |
| ConnectionServer.ConnectionInfo.UpdateConnCountByDirection | core/network/connections.go:114-124 | only the counter of the direction changes; an unknown direction changes none |
| ConnectionServer.ConnectionInfo.UpdatePendingConnCountByDirection | core/network/connections.go:128-138 | the same for the pending counters |
| ConnectionServer.ConnectionInfo.HasFreeConnectionSlot | core/network/connections.go:142-151 | run on its own: a slot is free when active plus pending inbound connections are below the inbound limit, outbound ones below the outbound limit, never for an unknown direction |
| ConnectionServer.Server.UpdateBootnodeConnCount | core/network/server.go:605-614 | only bootnodes count, and none without discovery |
| ConnectionServer.Server.AddPeerInfo | core/network/server_identity.go:56-91 | the direction is recorded and counted unless it was there, which is reported |
| ConnectionServer.Server.RemovePeerInfo | core/network/server.go:571-601 | the peer leaves the table, its record is handed out and its active directions are given back |
| ConnectionServer.Server.CloseDirections | core/network/server.go:589-596 | the loop gives back the same counts in any order of the directions |
| ConnectionServer.IdentityService.AddPendingStatus | core/network/identity/identity.go:151-155 | stores and counts the peer unless it is stored already |
| ConnectionServer.IdentityService.RemovePendingStatus | core/network/identity/identity.go:138-147 | takes the peer out and gives back the direction it was stored with |
| ConnectionServer.IdentityService.Connected | core/network/identity/identity.go:88-106 | a pending peer is ignored, one without a slot under its own direction's limit turned away, any other reserved for its handshake |
| ConnectionServer.IdentityService.Handshake | core/network/identity/identity.go:106-117 | the pending entry is released whatever came of the handshake, and the peer added just when it succeeded for good |
| Handshake.EveryRunSameNetwork | core/network/identity/identity.go:163-192 | peer tables of any number of nodes hold only peers of the same network in every run |
| Handshake.RecordedShareNetwork | core/network/identity/identity.go:163-192 | so from empty tables, in every run, whoever is recorded is a node of the same network |
| Handshake.RecordedIff | core/network/identity/identity.go:181-189 | a call records the peer exactly when the networks agree and neither side marks the other as temporary, and is an error exactly when the networks differ |
| Handshake.InTableIff | core/network/identity/identity.go:163-192 | a peer is in the table from the end of such a call until it is lost |
| Handshake.MarkedIff | core/network/server_discovery.go:178-189 | a peer is marked as temporary from being marked until the mark is taken back |
| Handshake.InFlight | core/network/identity/identity.go:163-192 | a call is in flight once from its beginning to its end or failure; an answer keeps it there |
| Handshake.CallRecords | core/network/identity/identity.go:163-192 | the three steps of a call put the peer into the table exactly when its outcome says so |
| Handshake.Agreement | core/network/identity/identity.go:163-216 | two calls in opposite directions, made while the marks do not change, have the same outcome |
| Handshake.EveryRunAgrees | core/network/identity/identity.go:163-216 | in every run, whatever other nodes and marks do, two nodes that keep their marks of each other and have had their answered calls of each other agree: one records the other exactly when it is recorded by it |
| Bytes.FromTo | core/types/rlp_marshal.go:29-45 | an integer is read back from its shortest big-endian form |
| Bytes.PadRestores | core/application/proof/app_signer.go:145-147 | left-padding restores a byte string from its value, however many leading zeros it had |
| FixedBytes.FixedValue | core/types/types.go:34-43 | filling an n-byte array from the right keeps the big-endian value modulo 256^n: modulo 2^256 for hashes, 2^160 for addresses |
| FixedBytes.LastBytes | core/types/types.go:17-43 | so an address has the value modulo 2^160 of what it is made of, and a hash the value modulo 2^256, whatever the length |
| Rlp.RoundTrip | core/types/rlp_marshal.go:17-23 | any value is parsed back from its encoding, and what follows is left over |
| Rlp.DecodeEncode | core/types/rlp_unmarshal.go:13-32 | a whole encoding is decoded to its value |
| Rlp.EncodeInjective | core/types/rlp_marshal.go:17-23 | different values have different encodings |
| Rlp.ListFirstByte | core/types/telegram.go:158-165 | an encoded list never starts with a byte that is read as a type |
| RlpShortest.EncodingIsShortest | core/types/rlp_marshal.go:17-23 | of all inputs that decode to a value its encoding is the shortest, and the only one of its length, for strings and nested lists alike |
| RlpShortest.StringForm | core/types/rlp_marshal.go:25-63 | a string on the wire: itself when it is one byte below 0x80, else behind its length, which takes one byte up to 55 and has no leading zero above |
| RlpShortest.ListForm | core/types/rlp_marshal.go:25-63 | a list on the wire: the encodings of its elements in order behind their total length |
| RlpShortest.NothingMayFollow | core/types/rlp_unmarshal.go:13-32 | an encoding is decoded only when nothing follows it |
| TelegramCodec.TelegramRoundTrip | core/types/telegram.go:146-291 | every legacy and state telegram is decoded into any receiver with all encoded fields, integers without sign, nil as zero, the sender with state telegrams only; and hashing the result again gives the hash taken while decoding |
| TelegramCodec.RoundTripExactIff | core/types/telegram.go:146-291 | it is the very same telegram exactly when its integers are neither nil nor negative, its hash is current and a legacy sender is the receiver's |
| TelegramCodec.OtherTypesRejected | core/types/telegram.go:21-30 | a telegram of any type strictly between the two is written but never read |
| TelegramCodec.ExplicitLegacyAccepted | core/types/telegram.go:158-165 | a legacy telegram may also carry its type byte |
| WireForms.TelegramWritten | core/types/rlp_marshal.go:25-63 | the bytes of a telegram: its type unless zero, then one list of its 14 or 15 fields in order, numbers big-endian without leading zeros, a missing receiver as an empty string; its hash is that of the list |
| WireForms.TelegramAcceptedIff | core/types/telegram.go:154-291 | exactly which RLP values are read as telegrams, the errors of those that are not, and what each field is read from |
| WireForms.ResponseWritten | core/application/proof/edge_response.go:51-70 | the bytes of a response: one list of its six fields in order |
| WireForms.ResponseAcceptedIff | core/application/proof/edge_response.go:72-126 | exactly which RLP values are read as responses, the errors of those that are not, and what each field is read from |
| TelegramRefs.TelegramRef.UnmarshalRLP | core/types/telegram.go:154-168 | decoding in place ends in the telegram, or the error, that decoding on values gives; after an error the type byte is set and the rest as far as the list was read |
| TelegramRefs.TelegramRef.FromElems | core/types/telegram.go:171-291 | the fields assigned in order of the list are those of the decoded telegram; after an error those before the unread element are new and those after it old |
| EdgeResponses.ResponseRoundTrip | core/application/proof/edge_response.go:51-126 | a response of any length is decoded again, exactly as it was when its integers are neither nil nor negative |
| EdgeResponses.PreimageInjective | core/application/proof/app_signer.go:37-60 | equal signing preimages come from equal texts on equal chains, chain 0 and the empty text included |
| Signer.HashIs | core/application/proof/app_signer.go:37-60 | what is hashed: the list of the text alone on chain 0, else of text, chain ID and two zeros |
| Signer.HashTells | core/application/proof/app_signer.go:37-74 | responses with different texts, or networks with different IDs, have different hashes under some hash function, so all of the text and the ID are signed |
| Signer.SignsIff | core/application/proof/app_signer.go:107-125 | signing succeeds exactly when the curve gives a signature of at least 65 bytes |
| Signer.SignedIs | core/application/proof/app_signer.go:105-125 | signing sets V to 35 plus twice the network ID plus the parity, R and S to the two halves of the signature, and keeps everything else |
| Signer.ProviderIs | core/application/proof/app_signer.go:78-102 | an address is the provider exactly when R and S are in range, low under homestead, V unwinds to a parity, and the key recovered from them and the hash of the response's own text has that address |
| Signer.LowS | core/crypto/crypto.go:58-81 | of s and its negative exactly the lower is valid under homestead and both are before, N being that of secp256k1 |
| Signer.AddressIs | core/crypto/crypto.go:229-233 | the address of a key is the last 20 bytes of the hash of its coordinates without the prefix byte |
| Signer.UnwindsIff | core/application/proof/app_signer.go:85-89 | V unwinds to its parity exactly on the networks where it is not negative, elsewhere out of range |
| Signer.VInjective | core/application/proof/app_signer.go:128-137 | below 2^63, V tells network and parity |
| Signer.InRangeIff | core/application/proof/app_signer.go:85-94 | a V is in range on a network exactly when it was made for that network, or, where it has lost its sign, when the signed IDs of the two add up to -35 less the parity |
| Signer.OtherNetworkRejects | core/application/proof/app_signer.go:85-94 | so a response signed where V keeps its sign, in particular below 2^63, is refused on every other network, whatever its ID |
| Signer.OtherNetworkInRange | core/application/proof/app_signer.go:85-94 | a V that has lost its sign and is in range on network 65 |
| Signer.LayoutRestored | core/application/proof/app_signer.go:140-151 | the 65 bytes of a valid signature come back from its two numbers and parity |
| Signer.FillSignature | core/application/proof/app_signer.go:140-151 | the buffer filled in place holds R and S right-aligned and the parity; invalid values are refused |
| Signer.RecoverUndoesSign | core/crypto/crypto.go:149-186 | moving the header byte to the end as parity and back recovers the signing key |
| Signer.ProviderIsSigner | core/application/proof/app_signer.go:78-125 | the provider of a signed response is the address of the signing key exactly on the networks where V keeps its sign, in particular below 2^63; elsewhere it is refused |
| AddressText.ChecksumKeepsDigits | core/types/types.go:64-73 | the checksum changes the case of letters only |
| AddressText.CaseIgnored | core/types/types.go:135-144 | reading does not look at the case |
| AddressText.AddressRoundTrip | core/types/types.go:53-163 | for any hash function an address is read back from its text, by UnmarshalText and by StringToAddress |
| AddressText.HashRoundTrip | core/types/types.go:49-51 | a hash is read back from its text |
| AddressText.AcceptedIff | core/types/types.go:135-163 | text is read as an address exactly when, without its 0x and brought to even length, it starts with 40 hexadecimal digits and not with 42; the address is made of those digits, two to a byte |
| AddressText.PaddedIs | core/types/types.go:36-43 | one 0x in front is dropped, an odd number of characters gets a zero in front, and addresses and hashes are the value of what was decoded modulo their size |
| AddressText.HexDigits | core/types/types.go:135-144 | which characters are digits and what they stand for |
| AddressText.ChecksumWritten | core/types/types.go:55-76 | EIP-55: 0x and 40 digits, each in upper case exactly where the digit at its place in the hash of the lower-case text is at least 8 |
| AddressText.HashWritten | core/types/types.go:45-51 | a hash is written as 0x and its 64 lower-case digits |
| AddressText.TrailingTextAccepted | core/types/types.go:135-163 | an address in any letter case followed by text of even length is read as that address exactly when the rest does not start with two hexadecimal digits |
| AddressText.OddTailShifts | core/types/types.go:135-163 | followed by text of odd length it is accepted exactly when that does not start with a hexadecimal digit, and then a sixteenth of its value is read |
| AddressText.WrittenWithTail | core/types/types.go:55-163 | what both say of the checksummed text that the program writes itself |
| AddressText.ChecksumEncodeLoop | core/types/types.go:55-76 | the loop computes the checksummed text |
| EventStream.EveryRunFaithful | core/application/subscription.go:131-167 | in every run what a subscriber received, then its channel of at most one event, is an ordered part of the pushes since its subscription, and all of them exactly when no push found the channel full |
| EventStream.SubscribersInOrder | core/application/subscription.go:131-167 | the same from the start, saying for each event which push it was |
| EventStream.PushToEmptyIsNext | core/application/subscription.go:156-167 | a push that finds the channel empty is the next event received |
| EventStream.PushToFullIsLost | core/application/subscription.go:156-167 | a push that finds the channel full is lost to it, the older event staying |
| EventStream.OwedSince | core/application/subscription.go:140-167 | in any run a subscriber is owed exactly the pushes behind its own subscription |
| EventStream.PushIsPushed | core/application/subscription.go:156-167 | the push of a run does to the channels what the push in place does |
| EventStream.Stream.Subscribe | core/application/subscription.go:140-153 | a new empty channel joins the list |
| EventStream.Stream.Push | core/application/subscription.go:156-167 | every empty channel gets the event, every full one stays as it is |
| RelaySpec.SetupStarts | core/relay/relay_client.go:99-136 | after setup the copies agree and the host is not among the nodes |
| RelayUpdates.SetupKnows | core/relay/relay_client.go:99-136 | the array holds exactly the configured nodes but the host, each as often as configured, and the map the last one of each id; without an address, or with one that does not parse, nothing is set |
| RelayUpdates.AddKnows | core/relay/relay_client.go:139-184 | an addition brings in exactly the nodes that are neither the host nor connected nor known, each once in the array and under its first address in the map, and keeps the others |
| RelayUpdates.AddUpToError | core/relay/relay_client.go:153-161 | with an address that does not parse the array stays and the map gets what came before it |
| RelayUpdates.RelayAdded | core/relay/relay_client.go:299-328 | a new direction joins the relay's and brings its reservation, one that is there changes nothing, other relays stay |
| RelayUpdates.RelayRemoved | core/relay/relay_client.go:332-348 | exactly that relay leaves |
| RelaySpec.AddLoopExtends | core/relay/relay_client.go:153-175 | what an addition enters is new, without repeats, never the host, and the same in array and map |
| RelaySpec.AddAgreesIff | core/relay/relay_client.go:139-184 | an addition keeps array and map in agreement exactly when every address parses or each one before the first that does not is the host, connected or known |
| RelaySpec.AddOneAgrees | core/relay/relay_client.go:714-716 | adding the single address that the program adds, on its own, always does, and brings in no duplicate |
| RelayUpdates.ChoiceIsExact | core/relay/relay_client.go:273-289 | the random choice is among the unconnected nodes, each as often as the array lists it |
| RelayRuns.EveryRunKeeps | core/relay/relay_client.go:139-348 | in every run, however additions and connections interleave: the configured nodes stay in the array, no node leaves the map, the array shows and connections reach only nodes in the map or about to be entered in it, never the host, and never more than one relay is connected |
| RelayRuns.RunsFromSetup | core/relay/relay_client.go:99-348 | from setup on: the host is never known or connected and at most one relay is; whenever no adder is between append and entry, the array shows and connections reach only nodes of the map |
| RelayRuns.ChecksIff | core/relay/relay_client.go:218-270 | the keep-alive loop looks for a relay exactly while none is connected |
| RelayRuns.RemoveIs | core/relay/relay_client.go:332-348 | at any time a removed relay is no longer connected and nothing else changes |
| RelayRuns.OneRound | core/relay/relay_client.go:218-289 | a round of the loop without a relay connects one of the known nodes under the reservation it was given, or changes nothing when that fails or none is known |
| RelayRuns.AppendIs | core/relay/relay_client.go:169-174 | an append writes behind its slice in place while the block has room, seen by every slice that reaches there, else into a block of its own |
| RelayOverlap.NodeTwiceIff | core/relay/relay_client.go:169-174 | the first duplicate arises exactly by appending a node into a slice, or behind one that others reach past, where it is already |
| RelayOverlap.FreshRunsKeepDistinct | core/relay/relay_client.go:169-174 | while every appended node is still new when it is appended, additions bring in no duplicate |
| RelayOverlap.PublishCompleteIff | core/relay/relay_client.go:150-181 | then a publication leaves every appended node in the array exactly when all were there at the adder's snapshot and no other adder has appended since |
| RelayOverlap.PublishAgreesIff | core/relay/relay_client.go:150-181 | the same for the agreement of array and map, when no adder is between append and entry |
| RelayLost.AloneIsAdd | core/relay/relay_client.go:139-184 | the steps of an addition, taken one after the other, do what the addition on values does |
| RelayLost.AloneRunsAgree | core/relay/relay_client.go:139-184 | with at most one addition under way at a time, array and map agree whenever none is, and no node is listed twice |
| RelayLost.LostForGoodIff | core/relay/relay_client.go:169-181 | a node of the map never comes back into the array exactly when neither the array shows it nor an adder holds it or is about to append it |
| RelayLost.LostIsNeverPicked | core/relay/relay_client.go:273-289 | such a node is never chosen as a relay again |
| RelayLost.OverlapLoses | core/relay/relay_client.go:150-181 | two overlapping additions of new nodes, whatever room the array has, lose the one published first in this way |
| RelayLost.ListedTwice | core/relay/relay_client.go:169-181 | a run with room for two that lists one node twice and loses another |
| RelayLost.ShownBeforeEntered | core/relay/relay_client.go:173-174 | a run in which the array shows a node before the map has it, in the place of another |
| RelayClient.RelayClient.SetupRelaynodes | core/relay/relay_client.go:99-136 | the array gets exactly the configured nodes but the host and the map the last one of each id; nothing changes when there is no address or one does not parse |
| RelayClient.RelayClient.AddRelaynodes | core/relay/relay_client.go:139-184 | on success both copies grow alike; on an error the map keeps what was entered and the array does not |
| RelayClient.RelayClient.GetRandomRelaynode | core/relay/relay_client.go:273-289 | finds a node exactly when one is not connected, and it is such a node |
| RelayClient.RelayClient.AddRelayPeerInfo | core/relay/relay_client.go:299-328 | a new relay or a new direction is entered with its reservation, a direction that is there changes nothing, and which it was is told |
| RelayClient.RelayClient.RemoveRelayPeerInfo | core/relay/relay_client.go:332-348 | the relay leaves the map; whether it was there is told |
| RelayClient.RelayClient.RemoveExpired | core/relay/relay_client.go:226-239 | exactly the relays whose reservation has not expired remain, in any order of the pass |

## Left out

- TelegramRefs.TelegramRef.UnmarshalRLP: of an unsigned integer or the input that could not be read, the value the RLP library leaves is not stated.
- TelegramRefs.TelegramRef.FromElems: the same, and a telegram list of 10 to 13 elements counts as malformed, because what the program does with it depends on the RLP library.
- EdgeResponses.ResponseRoundTrip: a response list of exactly 5 elements counts as malformed for the same reason; no encoder writes one.
- Rlp.DecodeEncode: fastrlp is not part of this model; what the decoder makes of input that the standard's encoder does not produce is not claimed.
- ConnectionServer.IdentityService.Handshake: the call over the network is its outcome; a panic or a call that never returns is not modelled.
- AddressText.AddressRoundTrip: text is counted in characters, which for the ASCII text of an address are the bytes the program counts.
- Objects shared after a copy: `Copy` of telegrams and responses shares V, applications are copied when stored; values here have no aliases.
- The steps of filter runs: storing one application, a flush, one removal of a closed socket, a lock-protected section each are one step; `RemoveFilterByWs` is removal by id.
- The integer width of the connection counters: they count peers and do not reach 2^63.
- Admission.NextKeepsInv: a peer joins or leaves the table when its counter changes; the table is only read under the lock that covers both.
- RelayRuns.EveryRunKeeps: `GetRandomRelaynode` reads the array in one step, and what the Go runtime makes of two writes to one map at the same moment is not modelled.
- Liveness: that a blocked pop or a parked worker is woken again; `PopTask`, channels of closing and the notifications of the dial queue.
- The inner workings of libp2p, gRPC, gossip, DHT, HTTP and websocket servers: their calls are outcomes.
- Keccak and secp256k1: functions about which only `SignsWell` is assumed.
- Metrics, logs, emitted events, the slot gauge, and reading relay peers without their lock.
- `Telegram.Cost`, `Size` and `IsContractCreation`, `Event.AddNewApp` and `LatestApp`, `MockSubscription`: easy members.
- JSON forms of queries and applications, host information, secrets managers and file helpers.
