# Verified model of the sensing and Bratislava socket library

This project models, in Dafny, the parts of the library whose correctness depends on more than one
function, and proves what they keep. It can be checked with `dafny verify dfyconfig.toml`.

- **Socket lifetime** (`SocketMachine`, `SocketScripts`, `SocketRuns`, `SocketDiscipline`, `SocketInvariant`,
  `SocketTheorems`, `SocketResults`, `SocketEffects`, `SocketCompletion`, `SocketWalks`, `SocketWitness`). The calls
  of the socket interface, `Cleanup` included, are scripts of lock operations, registry accesses and uses of the
  socket; any number of threads run them, one instruction per step, in any order. Sockets, adapters and config records
  are objects that can be deleted, and the registry's two indexes lead to the records. A discipline that each script
  is shown to follow gives an invariant of every run, from which follow safety of deletion, freedom from deadlock,
  completion, one socket per device, and what the calls have returned and done when they are over. Safety, freedom
  from deadlock and one socket per device are proved as equivalences: they hold of every run exactly under a condition
  on what the callers do.
- **Socket registry** (`RegistryModel`, `RegistryHistory`, `RegistryThreads`, `RegistryAgreement`, `SocketRegistry`,
  `LinkTable`). Two indexes over shared, mutable records, a socket list, a pool of ports and two link maps, proved
  against one map from device to configuration, with the exact condition under which each operation, and each
  interleaving of the steps between its mutexes, keeps it consistent, and against the history of calls.
- **Comms runtime** (`CommsModel`, `CommsHistory`, `CommsRuntime`, `RuntimeLinks`). A transition system of scanning
  threads and callers for descriptors, keys and callbacks, what it lists, closes and announces over every run, and the
  methods that run under the mutex, proved against its steps.
- **gpsd client** (`JsonScan`, `GpsReader`), **Bluetooth scan output** (`AnsiStrip`, `ScanTable`), **Wi-Fi scan
  results** (`InfoElements`, `MacText`), **connection loops** (`RetryLoop`) and **role election** (`RoleElection`).

`Common` and `CText` hold the optional value, integer narrowing and the C text functions.

## What the proofs found

- Two destroyers of one socket at once, two calls of `bratislavaDestroy` or one beside `Cleanup`, can lock a mutex in
  freed memory (`SocketWitness.DestroyTwice`, `SocketWitness.DestroyBesideCleanup`). A destroy that begins after
  another one has returned is refused safely.
- A link whose `linkID` is not the address of its device gets a second socket instead of its first one
  (`SocketWitness.TwoSockets`). Both sockets share one config record: destroying one frees it, and the next use of the
  other reads it (`SocketWitness.SharedRecordIsFreed`). Every link of the comms runtime is such a link
  (`RuntimeLinks.RuntimeLinksAreDuplicated`, `RuntimeLinks.RuntimeLinksAreUnsafe`).
- `Cleanup` can deadlock with any other call that takes a mutex (`SocketWitness.CleanupCanDeadlock`): the call holds the
  deletion mutex and waits for the recursive one, which `Cleanup` holds while it waits for the deletion mutex. Alone it
  completes and leaves no socket registered (`SocketCompletion.CleanupCompletes`).
- `ReleaseLocalPort` leaves the port recorded, so that two devices can hold one port
  (`RegistryModel.ReleasedPortIsSharedExample`). `Remove` is not affected: it erases the record.
- The registry calls that change a config write back a copy of it. An `Add` for the device in between, or the end of a
  `Remove` and a new config, leaves a config that forgets its socket or names a deleted one; a release of the port or a
  refill of the pool leaves a recorded port that is free, and an update of another config one that is recorded twice
  (`RegistryThreads.InterleavingIff`). After the `Add` the device can be given a second socket
  (`RegistryAgreement.OneSocketEachIff`).
- An interrupt, which `bratislavaDestroy` sends without the socket's mutex, clears the connected flag: a Bluetooth `conn`
  that has made its connection can still report failure, because it waits for the request thread before it reads the
  flag (`RetryLoop.MadeAndNotReported`).
- The Wi-Fi `conn` of a client can outlast its timeout, because each transfer of addresses may take the whole time that
  was left before the connect (`RetryLoop.WifiOverrunsIff`); it then fails without trying the data socket
  (`RetryLoop.WifiInTime`).
- A stop of the comms runtime is final only if every scan has returned when it clears the links: the scan of a
  `discover_links` caller reads no flag between two devices, finds the set of keys empty and connects again
  (`CommsModel.StopIsFinalIff`).
- A connection timeout above 2147483647 ms wraps to a negative poll timeout, and the deadline is lost
  (`RetryLoop.DeadlineBoundIff`).
- One hash value in 128 gives the PSM 0x1101, which is outside the declared range and not a valid PSM
  (`RoleElection.PortRange`).
- The top-level README of the repository says that callback registration is not implemented; the code implements it,
  and the model follows the code.
- The comments at bratislava-socket/src/BratislavaSocket.cc:314-318 and 360-364 say that `interrupt` and `disconn` leave
  the descriptor open; both adapters inherit an `interrupt` that calls `disconn`, which closes and replaces it
  (bratislava-socket/src/adapters/BaseAdapter.h:20,
  bratislava-socket/src/adapters/bluetooth/BluetoothAdapter.cc:49-57).

## Model

| member | source | states |
|---|---|---|
| `SocketTheorems.ObjectSafety` | bratislava-socket/src/BratislavaSocket.cc:307-351 | In every interleaving of any number of threads, sockets and calls, with stale and null pointers and repeated destroys included, in which no socket is destroyed by two calls in progress at once: no thread uses a deleted socket, adapter or socket mutex, and at `delete bsock` no thread holds or waits for that socket's mutex |
| `SocketTheorems.LifetimeSafety` | bratislava-socket/src/BratislavaSocketRegistry.cc:52-149 | If moreover links carry the address of their device, or nothing is ever destroyed, no thread reads, writes or deletes a deleted config record either |
| `SocketWitness.LifetimeSafetyIff` | bratislava-socket/src/BratislavaSocket.cc:307-351 | With some supported link to open, all of that holds of every run if and only if nothing is destroyed, or no socket is destroyed by two calls at once, Cleanup among them, and every linkID is the address that GetDeviceID returns |
| `SocketWitness.DestroyTwice` | bratislava-socket/src/BratislavaSocket.cc:331-335 | A run in which the second of two overlapping destroys of a socket locks a mutex inside the deleted socket: line 332 comes before the check of line 334 |
| `SocketWitness.DestroyBesideCleanup` | bratislava-socket/src/BratislavaSocketRegistry.cc:421-427 | The same with Cleanup as the other destroyer, for a socket of any identity |
| `SocketWitness.SharedRecordIsFreed` | bratislava-socket/src/BratislavaSocketRegistry.cc:88-113 | For any link whose linkID differs from its address, a run that opens it twice, destroys the first socket and then reads the deleted record through the second, although no destroys overlap |
| `SocketTheorems.DeadlockFreedom` | bratislava-socket/src/BratislavaSocket.cc:39-55 | If no socket is destroyed by two calls at once and Cleanup runs beside no other call: in every reachable state with an unfinished call some thread can step, whether or not the shared mutexes prefer waiting writers |
| `SocketWitness.CleanupCanDeadlock` | bratislava-socket/src/BratislavaSocketRegistry.cc:421-427 | For every other call that takes a mutex and may run beside Cleanup: a run in which nothing but one Cleanup and that call is in progress, and neither can step |
| `SocketWitness.CleanupAloneIff` | bratislava-socket/src/BratislavaSocketRegistry.cc:421-427 | With some supported link to open and overlapping destroys excluded, no run deadlocks if and only if nothing is destroyed or no other call that callers make and that takes a mutex may run beside Cleanup |
| `SocketCompletion.CleanupCompletes` | bratislava-socket/src/BratislavaSocketRegistry.cc:421-427 | A Cleanup begun when no call is in progress takes at most 3 steps and 45 for each registered socket, always has a next one until it has returned, and returns with no socket registered, re-entering the recursive mutex in every destroy |
| `SocketCompletion.CallsComplete` | bratislava-socket/src/BratislavaSocket.cc:146-377 | Running the calls in progress on, in any order and with any adapter answers, takes at most as many steps as they have left, and no step is left exactly when every call has returned |
| `SocketCompletion.CanComplete` | bratislava-socket/src/BratislavaSocket.cc:146-377 | From every reachable state some run of steps lets all calls return |
| `SocketDiscipline.EveryCallFollows` | bratislava-socket/src/BratislavaSocket.cc:39-377 | Every public call, with all its branches, takes its mutexes in increasing rank, touches a socket only while pinned or owned, changes the registry only under the mutexes meant for it, and releases everything; Cleanup does so above the recursive mutex, which it holds throughout |
| `SocketTheorems.StepKeeps` | bratislava-socket/src/BratislavaSocket.cc:39-377 | The invariant behind these theorems (exclusion, live objects, agreement of list, indexes and records, ownership of a removed socket) is kept by every machine step of every thread |
| `SocketTheorems.RunKeeps` | bratislava-socket/src/BratislavaSocket.cc:39-377 | and so by every run of starts and steps |
| `SocketTheorems.OneSocketEach` | bratislava-socket/src/BratislavaSocket.cc:67-124 | When links name devices by the address their config is kept under, no device ever has two registered sockets, in any interleaving of opens, destroys and Cleanup |
| `SocketWitness.OneSocketPerDeviceIff` | bratislava-socket/src/BratislavaSocket.cc:67-103 | One socket per device holds of every run if and only if the linkID of every link whose instrument is supported is the address that GetDeviceID returns |
| `SocketWitness.TwoSockets` | bratislava-socket/src/BratislavaSocket.cc:68-75 | A run that registers two sockets of one device, for any link whose linkID differs from its address |
| `SocketTheorems.SameSocketUntilDestroyed` | bratislava-socket/src/BratislavaSocket.cc:67-124 | Two returns of bratislavaSocket for one link, anywhere in a run, hand out the same socket unless destroy was called on it, or Cleanup, before the second |
| `SocketResults.OpenReturnsListed` | bratislava-socket/src/BratislavaSocket.cc:67-124 | In every interleaving a call of bratislavaSocket for a supported link, when it is over, has returned a socket that is registered at that moment and belongs to the device of the link, never null |
| `SocketResults.OpenReturnsRegistered` | bratislava-socket/src/BratislavaSocket.cc:68-75 | If a socket of the device is registered when the call begins, and neither destroy is called on it nor Cleanup before the call is over, the call has returned that socket |
| `SocketEffects.CallUsesAdapter` | bratislava-socket/src/BratislavaSocket.cc:146-377 | A conn, send, recv, timeout or disconnect call on a registered socket that nobody destroys meanwhile has run a method of the adapter of that socket when it is over: conn unless the socket was connected, send and recv if it was, disconnect if its config was found, the timeouts in any case |
| `SocketEffects.LinkCallUsesAdapter` | bratislava-socket/src/BratislavaSocket.cc:192-219 | A bratislavaLinkSend or bratislavaLinkRecv for a supported link has been handed a socket by bratislavaSocket and, when it is over, has run a method of the adapter of exactly that socket, if the socket was connected and nobody destroys it meanwhile |
| `SocketEffects.DestroyDeletes` | bratislava-socket/src/BratislavaSocket.cc:307-351 | When a bratislavaDestroy that was called on a registered socket is over, the socket is unregistered, and it and its adapter are deleted, whatever the other threads have done |
| `SocketTheorems.ListedUntilDestroyed` | bratislava-socket/src/BratislavaSocket.cc:331-345 | A registered socket stays registered along every run that calls neither destroy on it nor Cleanup, whatever the links are |
| `SocketTheorems.DevicesKeep` | bratislava-socket/src/BratislavaSocketRegistry.cc:336-351 | The device of a socket never changes along a run, whatever the links are |
| `RuntimeLinks.RuntimeLinksAreDuplicated` | src/comms_runtime.cpp:170-184 | Every link that the comms runtime names lets a run register two sockets for its device, because its linkID is never an address |
| `RuntimeLinks.RuntimeLinksAreUnsafe` | src/comms_runtime.cpp:170-184 | and, where sockets are destroyed at all, lets a run use a deleted config record |
| `RegistryModel.ApplyKeepsIff` | bratislava-socket/src/BratislavaSocketRegistry.cc:18-334 | For each of the eighteen public operations that change sockets, configs or ports, and whatever its arguments: a consistent registry (list, indexes and port accounts) stays consistent if and only if the operation is allowed, which forbids only an Add of a listed socket or for a device that has one, making the config of a socket that the index does not know or removing that of one that it knows, an update that changes the identity of the record or takes a port that is not lost, a release of a recorded port, and refilling the pool while a port is recorded |
| `RegistryModel.RunKeeps` | bratislava-socket/src/BratislavaSocketRegistry.cc:18-334 | Every sequence of allowed operations keeps the registry consistent |
| `RegistryModel.LookupsAgree` | bratislava-socket/src/BratislavaSocketRegistry.cc:107-125 | Over any run: a socket is listed exactly if the socket index knows it, lookup by socket and by device give the same config, which names the socket, and no two listed sockets share a device |
| `RegistryModel.PortsConserved` | bratislava-socket/src/BratislavaSocketRegistry.cc:278-334 | Over any run, with acquired and released ports included, free, recorded and lost ports add up to 257 |
| `RegistryModel.OrphansChange` | bratislava-socket/src/BratislavaSocketRegistry.cc:249-334 | A port is lost exactly by acquiring it without recording it, by adding one for a device without a config or with a port already, by removing an unused config with a port, or by an update that replaces it; it is found again only by releasing it by number, refilling the pool or recording it again |
| `RegistryHistory.HistoryDecides` | bratislava-socket/src/BratislavaSocketRegistry.cc:18-334 | Over every run of allowed calls, read off the calls alone: a config exists exactly if it was made and not removed since; its socket, address, descriptor, both ports and flag are what the last call since then that sets them has left, or no socket, the empty address, -1, -1, -1 and not connected if none has; and the pool is 40000 to 40256 less the least port for each acquisition, with the ports that came back |
| `RegistryModel.ReleaseKeepsAccountsIff` | bratislava-socket/src/BratislavaSocketRegistry.cc:299-308 | ReleaseLocalPort of a number keeps the accounts if and only if no config records that port |
| `RegistryModel.ReleaseOfKeepsAccountsIff` | bratislava-socket/src/BratislavaSocketRegistry.cc:310-334 | ReleaseLocalPort of a device or a socket keeps them if and only if no port is recorded, because the record is not cleared |
| `RegistryModel.ReleasedPortIsSharedExample` | bratislava-socket/src/BratislavaSocketRegistry.cc:310-321 | After such a release the next device is given a port that is still recorded for the first |
| `RegistryModel.AddKeepsAgreementIff` | bratislava-socket/src/BratislavaSocketRegistry.cc:52-75 | Add keeps list and indexes in agreement if and only if the socket is new and its device's config names no socket |
| `RegistryModel.AddShares` | bratislava-socket/src/BratislavaSocketRegistry.cc:57-66 | After an Add for a device that has a socket, both sockets are listed and looked up as one config, which names the second |
| `RegistryThreads.InterleavingIff` | bratislava-socket/src/BratislavaSocketRegistry.cc:18-334 | For any number of threads, with copy and write-back, the taking of a port and the parts of Add and Remove as steps of their own, under the mutexes they hold: the registry is consistent in every interleaving, whenever no Add or Remove is half done, if and only if callers keep certain steps from coming between a copied config, or a taken port, and its write-back: an Add for the device, an update of its config or with its port, a release of its port, a refill of the pool, and the end of a Remove together with a new config for the device |
| `RegistryThreads.InterleavingsKeep` | bratislava-socket/src/BratislavaSocketRegistry.cc:127-334 | Without those steps it is, also while a config is copied and not yet written back |
| `RegistryThreads.WriteBackKeepsIff` | bratislava-socket/src/BratislavaSocketRegistry.cc:132-149 | Whatever came in between: a write-back keeps the registry consistent if and only if it finds no record, or one with the device and the socket of the copy whose port is the copied one, unless that is lost or none or the record is being removed |
| `RegistryThreads.RunSettles` | bratislava-socket/src/BratislavaSocketRegistry.cc:18-334 | The invariant behind this (consistency but for a half added or unlisted socket and the port of a socket being removed, copied configs that fit, taken ports that are lost) is kept by every run |
| `RegistryThreads.AddSpoils` | bratislava-socket/src/BratislavaSocketRegistry.cc:57-64 | A run in which a device gets a socket between copy and write-back, and its config forgets it |
| `RegistryThreads.RemoveAndCreateSpoil` | bratislava-socket/src/BratislavaSocketRegistry.cc:24-35 | A run in which the copy names a socket that has been removed meanwhile, after a new config was made |
| `RegistryThreads.ReturnSpoils` | bratislava-socket/src/BratislavaSocketRegistry.cc:249-263 | A run in which the port that AddLocalPort has taken goes back to the pool before it is recorded |
| `RegistryThreads.UpdateSpoils` | bratislava-socket/src/BratislavaSocketRegistry.cc:249-263 | A run in which that port is recorded for another device first |
| `RegistryThreads.CopyThenWrite` | bratislava-socket/src/BratislavaSocketRegistry.cc:151-263 | With nothing in between, copy and write-back do what the operation does in one step |
| `RegistryThreads.RemoveStepByStep` | bratislava-socket/src/BratislavaSocketRegistry.cc:24-35 | So do the six steps of Remove |
| `RegistryThreads.AddStepByStep` | bratislava-socket/src/BratislavaSocketRegistry.cc:18-22 | and the two of Add |
| `RegistryAgreement.SocketsAgreeIff` | bratislava-socket/src/BratislavaSocketRegistry.cc:18-149 | The socket half alone, whatever is done to the ports meanwhile: list and indexes agree in every interleaving, whenever no Add or Remove is half done, if and only if no Add for the device, and not both the end of a Remove and a new config, may come between a copied config and its write-back |
| `RegistryAgreement.OneSocketEachIff` | bratislava-socket/src/BratislavaSocketRegistry.cc:18-149 | No two listed sockets share a device in any interleaving, whenever no Add or Remove is half done, if and only if no such Add may come in between, or no two sockets are ever made for one device |
| `RegistryAgreement.RunAgrees` | bratislava-socket/src/BratislavaSocketRegistry.cc:18-149 | The invariant behind these is kept by every run in which no such Add comes in between |
| `RegistryModel.Least` | bratislava-socket/src/BratislavaSocketRegistry.cc:286-297 | The port handed out is the least of a non-empty pool |
| `SocketRegistry.Registry.constructor` | bratislava-socket/src/BratislavaSocketRegistry.cc:7-9 | A new registry refines the empty map with the full pool of ports |
| `SocketRegistry.Registry.InitializeLocalPorts` | bratislava-socket/src/BratislavaSocketRegistry.cc:278-284 | The loop adds exactly the ports 40000 to 40256 |
| `SocketRegistry.Registry.GetConfigBySocket` | bratislava-socket/src/BratislavaSocketRegistry.cc:107-115 | The record of a socket in the index is that of its device, also when it names another socket |
| `SocketRegistry.Registry.GetConfigByDevice` | bratislava-socket/src/BratislavaSocketRegistry.cc:117-125 | The device index is the one map from device to config |
| `SocketRegistry.Registry.ExistsSocket` | bratislava-socket/src/BratislavaSocketRegistry.cc:37-44 | Membership in the list is the same as having a config |
| `SocketRegistry.Registry.ExistsDevice` | bratislava-socket/src/BratislavaSocketRegistry.cc:46-50 | True exactly if some listed socket belongs to the device |
| `SocketRegistry.Registry.IsConnectedSocket` | bratislava-socket/src/BratislavaSocketRegistry.cc:192-199 | The flag of the socket's config, false without one |
| `SocketRegistry.Registry.IsConnectedDevice` | bratislava-socket/src/BratislavaSocketRegistry.cc:183-190 | The flag of the device's config, false without one |
| `SocketRegistry.Registry.GetLocalPort` | bratislava-socket/src/BratislavaSocketRegistry.cc:265-276 | The recorded port or -1; a recorded port is in range and not free |
| `SocketRegistry.Registry.UpdateConfigLocked` | bratislava-socket/src/BratislavaSocketRegistry.cc:132-149 | Replaces the one record found by socket, else by device id, whatever the config says, and nothing else |
| `SocketRegistry.Registry.UpdateConfig` | bratislava-socket/src/BratislavaSocketRegistry.cc:127-130 | Refines the map update; a consistent registry stays consistent if and only if the config fits the record it replaces |
| `SocketRegistry.Registry.CreateConfigForSocket` | bratislava-socket/src/BratislavaSocketRegistry.cc:52-75 | A record of the device, with or without a socket, now names the socket and is shared by both indexes; without one a new record is, which has an empty address, -1 for the descriptor and both ports, and is not connected |
| `SocketRegistry.Registry.CreateConfigForDevice` | bratislava-socket/src/BratislavaSocketRegistry.cc:77-86 | Keeps an existing config; a new one has no socket, an empty address, -1 for the descriptor and both ports, and is not connected |
| `SocketRegistry.Registry.RemoveConfig` | bratislava-socket/src/BratislavaSocketRegistry.cc:88-96 | The socket leaves its index and the record's device id the other; an index still leads to the deleted record if and only if another socket shares it or it had another device's id, and otherwise the map update is refined |
| `SocketRegistry.Registry.RemoveUnusedConfig` | bratislava-socket/src/BratislavaSocketRegistry.cc:98-105 | Drops a config only if it names no socket; an index still leads to the deleted record if and only if some socket of the device is indexed, which in a consistent registry none is |
| `SocketRegistry.Registry.Connect` | bratislava-socket/src/BratislavaSocketRegistry.cc:151-159 | Sets the flag of exactly the socket's config |
| `SocketRegistry.Registry.DisconnectSocket` | bratislava-socket/src/BratislavaSocketRegistry.cc:172-181 | Clears it |
| `SocketRegistry.Registry.DisconnectDevice` | bratislava-socket/src/BratislavaSocketRegistry.cc:161-170 | Clears the flag of the device's config |
| `SocketRegistry.Registry.AddIP` | bratislava-socket/src/BratislavaSocketRegistry.cc:201-209 | Sets the address of the device's config only |
| `SocketRegistry.Registry.AddRemotePort` | bratislava-socket/src/BratislavaSocketRegistry.cc:221-234 | Refuses negative ports and unknown devices |
| `SocketRegistry.Registry.AcquireLocalPort` | bratislava-socket/src/BratislavaSocketRegistry.cc:286-297 | Takes the least free port, or -1 from an empty pool |
| `SocketRegistry.Registry.AddLocalPort` | bratislava-socket/src/BratislavaSocketRegistry.cc:249-263 | Takes a port before it looks for the config, so that the port is lost without one |
| `SocketRegistry.Registry.ReleaseLocalPort` | bratislava-socket/src/BratislavaSocketRegistry.cc:299-308 | Accepts exactly the ports of the pool's range; the registry stays consistent if and only if no config records the port |
| `SocketRegistry.Registry.ReleaseLocalPortOfSocket` | bratislava-socket/src/BratislavaSocketRegistry.cc:323-334 | Frees the recorded port and leaves it recorded; the registry stays consistent if and only if nothing was released |
| `SocketRegistry.Registry.ReleaseLocalPortOfDevice` | bratislava-socket/src/BratislavaSocketRegistry.cc:310-321 | The same for the port of a device |
| `SocketRegistry.Registry.Add` | bratislava-socket/src/BratislavaSocketRegistry.cc:18-22 | Refines the map for any socket: the device's config names it and it is listed last; a consistent registry stays so if and only if the socket is new and its device has none |
| `SocketRegistry.Registry.Remove` | bratislava-socket/src/BratislavaSocketRegistry.cc:24-35 | False and no change for an unlisted socket; otherwise port freed, flag cleared, config erased and socket unlisted, whatever the registry: a consistent one refines the removal in one step, and a shared record is deleted while an index still leads to it |
| `SocketRegistry.Registry.Cleanup` | bratislava-socket/src/BratislavaSocketRegistry.cc:421-427 | The loop on the registry alone: it ends with no socket listed or indexed, keeps exactly the configs without a socket and loses no port |
| `LinkTable.CanonicalIsForever` | bratislava-socket/src/BratislavaSocketRegistry.cc:353-384 | The pointer first registered for an id stays its canonical pointer whatever calls follow |
| `LinkTable.ActiveWasAdded` | bratislava-socket/src/BratislavaSocketRegistry.cc:353-398 | An id can be active only if it was added at some time |
| `LinkTable.Table.AddLink` | bratislava-socket/src/BratislavaSocketRegistry.cc:353-384 | Returns the canonical pointer of the id, deletes the argument exactly if it is another one, and never a registered pointer |
| `LinkTable.Table.RemoveLink` | bratislava-socket/src/BratislavaSocketRegistry.cc:386-398 | Makes the id inactive and deletes nothing |
| `LinkTable.Table.GetLink` | bratislava-socket/src/BratislavaSocketRegistry.cc:408-419 | The canonical pointer of an id ever added, active or not, and it has not been deleted |
| `LinkTable.Table.GetLinks` | bratislava-socket/src/BratislavaSocketRegistry.cc:400-406 | Appends, each once, the canonical pointers of exactly the ids whose last operation was an add |
| `CommsModel.DescriptorOwnership` | src/comms_runtime.cpp:447-634 | In every interleaving of the discovery thread and any number of discover_links callers: the key set is the set of keys of the listed links, without repeats, and every descriptor ever opened is owned by exactly one link, held by one handshake about to publish, or closed exactly once |
| `CommsModel.StopClosesEverything` | src/comms_runtime.cpp:292-307 | After stop every descriptor ever opened is closed, once, and list and keys are empty |
| `CommsModel.StopIsFinalIff` | src/comms_runtime.cpp:292-511 | A stop at any time of any run leaves no link listed and every descriptor closed in all continuations, in which a scan begins no more but one that has begun goes on to any further devices, if and only if every scan has returned |
| `CommsModel.StopLosesNothing` | src/comms_runtime.cpp:292-307 | After a stop at any time every descriptor is still, in all continuations, with exactly one link, one handshake or the closed ones, where it occurs once |
| `CommsModel.DiscoveriesOnce` | src/comms_runtime.cpp:456-511 | LINK_DISCOVERED fires at most once per key, DEVICE_DISCOVERED at most once per device key |
| `CommsHistory.ListedOrClosed` | src/comms_runtime.cpp:613-634 | Over every run, a link that a handshake has made is closed exactly if a link with its key is listed, and is listed last otherwise; either way its key is listed then |
| `CommsHistory.AnnouncedIffRegistered` | src/comms_runtime.cpp:613-634 | A listed link is announced once its thread has made the call, whatever the others do meanwhile, if and only if LINK_DISCOVERED was registered when it was listed |
| `CommsHistory.DeviceAnnouncedIff` | src/comms_runtime.cpp:456-475 | A device is announced once the thread that was the first in the run to check it has made its call, if and only if the callback of its kind was registered at that check |
| `CommsHistory.SeenIffChecked` | src/comms_runtime.cpp:462-464 | A device counts as seen exactly if some scan of the run has checked it under its kind |
| `CommsHistory.AttemptedIffUnlisted` | src/comms_runtime.cpp:466-475 | A check leads to a handshake if and only if no link of the device is listed |
| `CommsHistory.ScanListsDevice` | src/comms_runtime.cpp:456-481 | A scan that comes to a device without a listed link, and whose handshake succeeds, lists a link with its key, its address, its kind and the new descriptor last |
| `CommsHistory.KindIsInKey` | src/comms_runtime.cpp:448-511 | A listed link is a Bluetooth link exactly if its key begins with "bt|", a Wi-Fi link exactly if it begins with "wifi|", and the rest is the address of the device |
| `CommsModel.DropsEveryLinkOnce` | src/comms_runtime.cpp:292-318 | A registered LINK_DROPPED is told of every published link once, in the order of publication; otherwise of none |
| `CommsModel.SecondStopDropsNothing` | src/comms_runtime.cpp:292-318 | A second stop adds no drop |
| `CommsModel.RunKeeps` | src/comms_runtime.cpp:447-634 | The invariant of links, descriptors and callbacks is kept by every run |
| `CommsRuntime.Runtime.CheckDevice` | src/comms_runtime.cpp:457-468 | The check under the mutex, for both kinds of device, on the runtime's own fields |
| `CommsRuntime.Runtime.PublishLink` | src/comms_runtime.cpp:613-634 | A link whose key is taken is closed and changes nothing else; any other is listed last, and announced if the callback is registered |
| `CommsRuntime.Runtime.DropLinks` | src/comms_runtime.cpp:292-307 | Describes and closes every link in list order and empties list and keys |
| `CommsRuntime.Runtime.DiscoverLinks` | src/comms_runtime.cpp:390-421 | The first 20 links of the type in list order; an unsupported type is refused exactly if some link is listed |
| `CommsRuntime.Runtime.RegisterCallback` | src/comms_runtime.cpp:321-355 | Supported pairs replace one callback, all others change nothing, a null input is an error |
| `CommsRuntime.MatchingKeepsOrder` | src/comms_runtime.cpp:402-416 | The selection holds exactly the links of the type, in list order, without repeats |
| `CommsRuntime.MatchingGrows` | src/comms_runtime.cpp:402-418 | Stopping at the limit loses no earlier link |
| `CommsRuntime.MatchingByKey` | src/comms_runtime.cpp:402-416 | Of the links listed in any run, discover_links for Bluetooth selects those whose keys begin with "bt|", for Wi-Fi those with "wifi|", for comms all |
| `CommsRuntime.LastRegistrationCounts` | src/comms_runtime.cpp:321-388 | Each of the four callbacks is what the last registration or unregistration for its instrument and event has left |
| `GpsReader.GetPosition` | src/instrument_api.c:582-628 | For every stream and every split of it into receive chunks: the first TPV report among its readable lines gives mode, coordinates, altitude and time; without one the last POLL report gives the mode and, if it has one, the time, and the coordinates are 0; without either the call fails and nothing is known. Chunking does not matter, also with NUL bytes and overlong lines; the buffer always holds what is left of the bytes received |
| `GpsReader.Drain` | src/instrument_api.c:600-618 | Taking lines from the buffer gives the position of the function on the text received, and leaves exactly the text after the last line taken, terminated |
| `GpsReader.ConsumeExtends` | src/instrument_api.c:591-619 | What is taken from the buffer does not depend on what arrives later |
| `GpsReader.FullBufferStops` | src/instrument_api.c:591-595 | A full buffer without a line stays so, whatever follows |
| `GpsReader.WholeLines` | src/instrument_api.c:602-613 | On lines of at most 4095 bytes with their newline, followed by text that shows no line, the reader processes the lines in order up to the first TPV and looks at nothing else |
| `GpsReader.StreamSplits` | src/instrument_api.c:602-613 | Every stream has that form |
| `GpsReader.LeftoverFollowsLastNewline` | src/instrument_api.c:615-618 | What is left of a stream of any length is its text behind one of its newlines, or all of it; it is the text behind the last newline if and only if every line that has ended is shorter than the buffer and free of NUL |
| `GpsReader.LeftoverExtends` | src/instrument_api.c:615-618 | What is left does not depend on how the stream was cut |
| `GpsReader.FirstTpvDecides` | src/instrument_api.c:604-608 | The first TPV report alone determines the position |
| `GpsReader.WithoutTpv` | src/instrument_api.c:609-628 | Without one, coordinates stay as they were and success means that a POLL was seen |
| `GpsReader.PositionInfo.ParseTpv` | src/instrument_api.c:490-523 | A TPV report replaces the whole position: lat, lon, alt, mode and time are what the parsers give for the text behind the first "lat":, "lon":, "altHAE": or else "alt":, "mode": and "time":, or 0 and the present time; any other line changes nothing |
| `GpsReader.PositionInfo.ParsePoll` | src/instrument_api.c:525-544 | A POLL report sets the mode to 1 or 0 by the number behind the first "active": and the time by the string behind the first "time":, and nothing else; any other line changes nothing |
| `GpsReader.ReportIsAnswer` | src/instrument_api.c:602-628 | The function of the stream to which GetPosition is proved equal gives that answer |
| `GpsReader.EveryStreamHasAnAnswer` | src/instrument_api.c:602-628 | Every stream has a first TPV report among its readable lines, or a last POLL report and no TPV report, or neither |
| `GpsReader.ValueIsFound` | src/instrument_api.c:396-417 | In every line the value of a key starts at one place, behind its first occurrence and the white space that follows, or the key is missing; the search finds it exactly there |
| `JsonScan.JsonFindValue` | src/instrument_api.c:396-417 | The loop reaches the value of the first occurrence of the key, behind its white space |
| `JsonScan.JsonParseString` | src/instrument_api.c:451-471 | The buffer holds the string read so far, terminated; true exactly if the closing quote was reached |
| `JsonScan.ReadsEscaped` | src/instrument_api.c:462-470 | Reading an escaped string stops at its closing quote if and only if it fits, and gives as much of it as fits |
| `JsonScan.StringRoundTrip` | src/instrument_api.c:451-471 | Printing any string as the value of a key and reading it back gives true and the string if it fits in size - 1, and false otherwise |
| `JsonScan.FirstKeyIsFound` | src/instrument_api.c:407-410 | A document that starts with the key satisfies the hypothesis of the round trip |
| `AnsiStrip.StripAnsi` | src/bluez_scanner.c:47-68 | In place, for every NUL-terminated array: the text becomes the recursive specification of it, and nothing behind its new terminator is written |
| `AnsiStrip.SkipSequence` | src/bluez_scanner.c:56-61 | The inner loop goes to behind the final byte, or to the end |
| `AnsiStrip.StripKeepsTheRest` | src/bluez_scanner.c:55-65 | Of any text written as kept characters and control sequences, an unfinished one at the end included, exactly the kept characters remain |
| `AnsiStrip.EveryTextHasPieces` | src/bluez_scanner.c:55-65 | Every text can be written so |
| `AnsiStrip.StripChangesIff` | src/bluez_scanner.c:55-65 | A text is unchanged if and only if it has no introducer |
| `AnsiStrip.SequenceGoes` | src/bluez_scanner.c:56-61 | A control sequence goes up to and with its first character from 0x40 to 0x7E, and to the end of the text if it has none |
| `ScanTable.Table.ParseScanOutput` | src/bluez_scanner.c:197-224 | Refines a fold over the non-empty lines of the output, their control sequences stripped; from an empty table it holds what TableIsFirstDistinct says |
| `ScanTable.TableIsFirstDistinct` | src/bluez_scanner.c:197-224 | The table holds the first at most 150 distinct addresses, in the order of first appearance, each with the first non-empty name given to it |
| `ScanTable.DistinctIs` | src/bluez_scanner.c:176-195 | The distinct addresses are exactly those that appear, ordered by where they appear first |
| `ScanTable.FirstNameIs` | src/bluez_scanner.c:218-220 | The first name of an address is that of an entry before which none names it, or empty if none does |
| `ScanTable.AddKeepsHolding` | src/bluez_scanner.c:176-220 | One more entry keeps this, also when the table is full |
| `ScanTable.TwoOutputs` | src/bluez_scanner.c:197-224 | Parsing two outputs in turn equals parsing their newline-joined text |
| `ScanTable.LinesAppend` | src/bluez_scanner.c:203-204 | The lines of two joined outputs are those of the first and then those of the second |
| `ScanTable.Table.FindOrAdd` | src/bluez_scanner.c:176-195 | The slot of the address, a new last slot, or none when the table is full |
| `ScanTable.Table.Add` | src/bluez_scanner.c:213-220 | One parsed entry: at most one slot changes, and a name is never replaced |
| `ScanTable.ParseScanLine` | src/bluez_scanner.c:139-174 | The loops compute the address and the trimmed name of the line's first announcement |
| `ScanTable.ReadsAnnouncement` | src/bluez_scanner.c:139-174 | An announcement printed with an address and a name is read back, and what begins with RSSI:, TxPower:, ManufacturerData or ServiceData counts as no name |
| `ScanTable.AnnouncesIff` | src/bluez_scanner.c:139-156 | A line is an announcement if and only if the 17 characters behind the first "Device " in it are an address, which is then the one of the device |
| `MacText.CheckMac` | src/bluez_scanner.c:120-137 | The loop accepts exactly the 17-character shape |
| `InfoElements.FindSsid` | src/wifi_scanner_bridge.cpp:79-94 | For every buffer the walk ends with an in-bounds slice: the payload of the first element with identifier 0 among the parsed elements, or nothing if there is none |
| `InfoElements.ParseInvertsSerialize` | src/wifi_scanner_bridge.cpp:79-94 | Parsing inverts serialising, whatever unreadable bytes follow |
| `InfoElements.SerializeInvertsParse` | src/wifi_scanner_bridge.cpp:79-94 | The parsed elements are a prefix of the buffer behind which no whole element starts |
| `InfoElements.LongestPrefix` | src/wifi_scanner_bridge.cpp:79-94 | and every serialised prefix of the buffer is one of them |
| `InfoElements.FirstSsidIs` | src/wifi_scanner_bridge.cpp:87-90 | The first element with identifier 0 is the one found |
| `InfoElements.NoSsidIff` | src/wifi_scanner_bridge.cpp:79-94 | Nothing is found if and only if no element has identifier 0 |
| `MacText.NormalizeMacAddress` | src/wifi_scanner_bridge.cpp:37-63 | The two loops compute the first twelve digits in upper case, in pairs, or the empty string |
| `MacText.NormalizeIdempotent` | src/wifi_scanner_bridge.cpp:37-63 | A normal form is empty or an upper-case address, and is its own normal form |
| `MacText.NormalFormOfMac` | src/wifi_scanner_bridge.cpp:37-63 | The normal form of an address, with or without its colons, is the address in upper case |
| `MacText.NormalizeKeepsPrinted` | src/wifi_scanner_bridge.cpp:65-70 | Every output of mac_to_string is its own normal form |
| `MacText.PrintsOctets` | src/wifi_scanner_bridge.cpp:65-70 | The printed address has the six octets in order, two hexadecimal digits each, with colons between them |
| `MacText.MacShape` | src/bluez_scanner.c:120-137 | An address is exactly twelve digits separated by colons |
| `MacText.MakeLinkId` | src/comms_runtime.cpp:170-184 | The loop drops the colons, adds the prefix and cuts at 19 characters |
| `MacText.LinkIdInjective` | src/comms_runtime.cpp:170-184 | With the two prefixes no identifier is cut, two are equal if and only if prefix and address are, and none is an address |
| `MacText.LinkIdDetermines` | src/comms_runtime.cpp:170-184 | The address can be read back from the identifier, up to case |
| `RetryLoop.Adapter.BluetoothConn` | bratislava-socket/src/adapters/bluetooth/BluetoothAdapter.cc:59-101 | conn returns 0 if and only if the listener is called in time, or one of the caller's five turns is ready and accepted with time left and each one before it is refused with time left, and no interrupt comes from that moment until both threads are joined |
| `RetryLoop.Adapter.WifiConn` | bratislava-socket/src/adapters/wifi/WifiAdapter.cc:49-99 | conn returns 0 if and only if no interrupt comes at its end and the router is called in time, or the client's request is accepted in one of five turns, all four transfers succeed, and one of the five turns of its connect behind them is accepted; the time of every turn is computed from the world |
| `RetryLoop.AttemptSucceedsIff` | bratislava-socket/src/adapters/bluetooth/BluetoothAdapter.cc:290-364 | An attempt with the flag clear succeeds if and only if one of five turns makes the connection with time left and each one before it is of the kind that the loop retries; it ends when that connect does |
| `RetryLoop.ExchangeSucceeds` | bratislava-socket/src/adapters/wifi/WifiAdapter.cc:424-451 | The exchange succeeds if and only if all four transfers do, and takes the time of all four |
| `RetryLoop.BluetoothConnects` | bratislava-socket/src/adapters/bluetooth/BluetoothAdapter.cc:59-101 | The flag is set at the end if and only if the accept or the last connect made the connection, which is what the world determines, and no interrupt came between that and the end, whatever the request thread does |
| `RetryLoop.MadeAndNotReported` | bratislava-socket/src/adapters/bluetooth/BluetoothAdapter.cc:49-101 | A conn whose accept makes the connection and that reports failure, because an interrupt comes before the request thread has ended |
| `RetryLoop.BluetoothInTime` | bratislava-socket/src/adapters/bluetooth/BluetoothAdapter.cc:59-82 | Both threads are over by the one deadline, with at most five connects each and every call given exactly the positive time left |
| `RetryLoop.NoTurnOnceConnected` | bratislava-socket/src/adapters/bluetooth/BluetoothAdapter.cc:204-204 | After the connection is made the request thread begins no further turn, unless an interrupt came |
| `RetryLoop.WifiConnects` | bratislava-socket/src/adapters/wifi/WifiAdapter.cc:49-99 | The flag is set at the end if and only if the accept or the last connect made the connection, which is what the world determines, and no interrupt came at that moment; a client has then been accepted on the request socket and has exchanged addresses |
| `RetryLoop.WifiInTime` | bratislava-socket/src/adapters/wifi/WifiAdapter.cc:66-76 | One deadline bounds every call of the request loop and of the client's loop; conn is late if and only if the exchange between them is, by at most four times the time there was, and then makes no call on the data socket |
| `RetryLoop.WifiOverrunsIff` | bratislava-socket/src/adapters/wifi/WifiAdapter.cc:424-451 | Every conn of a device, begun at a given time, is over by its deadline if and only if the device is no client or no time is left when it begins |
| `RetryLoop.Adapter.ListenForPeer` | bratislava-socket/src/adapters/bluetooth/BluetoothAdapter.cc:371-413 | One accept with the time left, if bind and listen succeed |
| `RetryLoop.Adapter.ConnectToPeer` | bratislava-socket/src/adapters/bluetooth/BluetoothAdapter.cc:290-369 | The loop makes exactly the calls, at the times and with the result, of the recursive form of the attempt |
| `RetryLoop.Adapter.SendBluetoothRequest` | bratislava-socket/src/adapters/bluetooth/BluetoothAdapter.cc:193-288 | So does the Bluetooth request loop, which reads the flag as the other thread leaves it, retries poll failures and takes EISCONN for success |
| `RetryLoop.Adapter.SendWifiRequest` | bratislava-socket/src/adapters/wifi/WifiAdapter.cc:346-422 | So does the Wi-Fi request loop, during which the flag stays clear |
| `RetryLoop.Adapter.ExchangeAddresses` | bratislava-socket/src/adapters/wifi/WifiAdapter.cc:424-449 | Three sends and a receive, up to the first that fails |
| `RetryLoop.DeadlineBound` | bratislava-socket/src/adapters/bluetooth/BluetoothAdapter.cc:290-364 | Whatever poll and connect do within the timeouts they are given: the attempt ends by start plus timeout, makes at most five connect calls, gives every call exactly the positive time left, backs off by at most half of it, and reports success only if its last connect call was accepted or the flag is set at the end of the request loop, failure only if none was accepted |
| `RetryLoop.CallsInOrder` | bratislava-socket/src/adapters/bluetooth/BluetoothAdapter.cc:310-364 | Connect comes only after a poll, a pause only after a refusal and a poll as soon as it is over; an attempt fails only because the time is over, five polls were made, the client's socket did not become ready, or connect reported an error that is not retried |
| `RetryLoop.DeadlineBoundIff` | bratislava-socket/src/adapters/bluetooth/BluetoothAdapter.cc:521-540 | Every run is in time, and every run is over by the deadline, if and only if the time left at the start fits an int, to which poll's timeout is narrowed |
| `RetryLoop.TimeoutWraps` | bratislava-socket/src/adapters/wifi/WifiAdapter.cc:299-316 | A connection timeout of 2147483648 ms makes the first poll wait without limit |
| `RoleElection.Meet` | bratislava-socket/src/adapters/bluetooth/BluetoothAdapter.cc:19-30 | Two nodes that know each other by the texts they print: a node listens exactly if the text of the other one comes behind its own in the order of a dictionary, so that exactly one does, and the other calls the PSM on which it listens, for any hash |
| `RoleElection.ExactlyOneListens` | bratislava-socket/src/adapters/bluetooth/BluetoothAdapter.cc:30-30 | Exactly one side of a comparison listens if and only if the addresses differ |
| `RoleElection.CompareIsAnOrder` | bratislava-socket/src/adapters/bluetooth/BluetoothAdapter.cc:30-30 | strcmp changes its sign with its arguments and is zero only for equal texts |
| `RoleElection.CompareIsLexicographic` | bratislava-socket/src/adapters/bluetooth/BluetoothAdapter.cc:30-30 | strcmp is positive exactly if the first text has the greater character where they differ first, or goes on where the other one ends |
| `RoleElection.MeetAsSeen` | bratislava-socket/src/adapters/bluetooth/BluetoothAdapter.cc:554-615 | Nodes that have seen each other under any texts: for the one digest in use, the caller calls where the listener listens if and only if the text it prints and the text it was seen under have second hash bytes that agree modulo 128 |
| `RoleElection.PortRange` | bratislava-socket/src/adapters/bluetooth/BluetoothAdapter.cc:601-615 | The PSM is 0x1003 and twice the second hash byte modulo 128, so odd, in 0x1003..0x1101 and never 0x1001; it is in the declared range, and valid, if and only if that byte is not 127 modulo 128 |
| `RoleElection.PortCollision` | bratislava-socket/src/adapters/bluetooth/BluetoothAdapter.cc:601-615 | Two addresses share a PSM if and only if the second bytes of their hashes agree modulo 128 |

## Left out

Hypotheses of the theorems:

- No socket is destroyed by two calls in progress at once, and `linkID` is the address of the device (for safety of config
  records and for one socket per device); `Cleanup` runs beside no other call (for freedom from deadlock and
  completion). Each is shown to be necessary.
- SocketWitness.OneSocketPerDeviceIff and SocketWitness.CleanupAloneIff say nothing of runs in which destroys of one
  socket overlap: what such a run does after using a deleted socket is not defined.
- SocketCompletion.CanComplete, SocketTheorems.StepKeeps, SocketTheorems.RunKeeps, SocketTheorems.ListedUntilDestroyed and
  SocketTheorems.DevicesKeep start from any state of the invariant, which every reachable state is.
- The port of a config that the public `UpdateConfig` writes, and the ports that callers acquire and release by
  number, are restricted as `RegistryModel.Allowed` says, which is shown to be exact.
- CommsModel.StopClosesEverything: `discover_links` callers have returned and the scanning threads are joined when `stop`
  clears the links; CommsModel.StopIsFinalIff shows that this is needed. How many devices a scan finds is left to the
  world. What a caller does with the runtime after it has been freed, and a start after a stop, are not modelled.
- Poll, connect and sleep take at most the time they are given, on a millisecond clock, and the computation between
  them takes none.

Socket machine:

- Socket identities, config records and descriptors are fresh numbers; that the allocator and the kernel reuse them is
  not modelled. A deleted record keeps its last contents for the steps after its first use.
- Adapter I/O is a use of the adapter that returns; what it transfers, and what `interrupt` does to descriptors, is not
  modelled.
- Of a config record the machine has the socket and the device id; its address, ports and flag are part of the registry
  modules, and tests on them branch freely.
- The registry calls that clients make themselves (`CreateConfig`, `RemoveUnusedConfig`, `AddIP`, `AddRemotePort`,
  `Disconnect` of a device, `UpdateConfig` and the port calls) are not calls of the machine. RegistryThreads has their
  interleavings among themselves and with `Add` and `Remove`: RegistryAgreement.OneSocketEachIff says when one socket per
  device survives them.
- `Cleanup` picks the newest socket of the list because sockets are made and listed in the creation mutex; the order of
  the list is otherwise not part of the machine.
- A socket whose instrument type is unsupported is allocated and never registered; the machine keeps it alive. What
  bratislavaSocket returns for such a link is part of SocketTheorems.SameSocketUntilDestroyed only.
- The simulation build, the IP adapter and the interface calls that only copy a field.

Registry and comms runtime:

- `GetIP`, `GetRemotePort` and `unregister_callback`: they read or clear one field.
- SocketRegistry.Registry: no method is called once an index leads to a deleted record; the use of such a record is the
  socket machine's subject.
- SocketRegistry.Registry.Cleanup: each destroy is one removal from the registry; its locks, interrupts and deletions are
  part of the socket machine.
- LinkTable.Table.GetLinks: the order of the links within a map is not fixed, because the source iterates an unordered map.
- The class runs its operations one at a time; their interleavings are the subject of RegistryThreads,
  RegistryAgreement and the socket machine.
- The handshakes' wire format, the server threads and the enumeration of interfaces; a handshake is one step that opens no
  descriptor, opens and closes one, or succeeds with one.
- `link.socketFd` is a field of the model's link; interfaces/c/sensing_typedef.h:43-56 does not declare it.
- Telemetry and logging everywhere.

Parsers, loops and roles:

- GpsReader.GetPosition: the connection to gpsd and the output length are not modelled; `strtold`, `strtol`, `strptime` with
  `timegm` and the clock readings are parameters, coordinates are reals.
- CText: characters above 127 and locales; `isspace`, `isxdigit` and `toupper` are those of the C locale.
- `popen`, the limits on the size of a command's output, `enrich_device_info` and the class-of-device tables.
- InfoElements.FindSsid: returns the slice and no length of its own when nothing is found.
- The netlink attributes around the information elements and the conversion of signal strengths.
- RetryLoop.Adapter.SendBluetoothRequest: the two reads of the connected flag that end the loop are one read; closing the
  request socket when the time is over is not modelled.
- RetryLoop.Adapter.ConnectToPeer: preparing the address again after EINVAL takes no time and is not modelled. The Wi-Fi
  adapter's loop (bratislava-socket/src/adapters/wifi/WifiAdapter.cc:468-547) takes the same turns, and its
  `ListenForPeer` the same steps.
- RetryLoop.Adapter.WifiConn: what the exchange carries is not modelled; the look-up of the gateway is one outcome.
- An interrupt at the very moment at which the connection is made counts as coming after it.
- RoleElection.Meet: the address of a node whose Bluetooth device cannot be opened is all zeros, which is one of the
  texts it covers; SHA-256 is any function of the text to two bytes.
