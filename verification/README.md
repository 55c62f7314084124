# SKIPI Core: a verified model

SKIPI Core wraps Xray-core and AmneziaWG for mobile and desktop hosts. The wrapped cores are opaque to it, but
the wrapper itself keeps process-wide state, runs concurrent protocols and reads and writes several formats. This
project models those parts and proves what they keep.

| module | what it models |
|---|---|
| `SessionLease`, `DesktopBridge`, `DesktopHost` | the lease on the one process-wide core, for any number of runtimes and controllers: as values with all runs, as objects updated in place, and the objects together as one world |
| `LockOrder` | the lock programs of all host calls, for any number of threads |
| `UdpRelay` | the goroutines of a SOCKS UDP association as a state machine |
| `SocksDatagram` | SOCKS addresses and UDP datagrams (sections 5 and 7 of RFC 1928) |
| `TagScanner`, `ObfuscationChain` | the recogniser of obfuscation chains |
| `IpcConfig`, `IpcText`, `RangeValidators`, `RunnerSettings` | the AmneziaWG configuration text, and the validation that settings pass before it is built |
| `TrafficNames`, `TrafficStats`, `TrafficReport` | counter names, draining, snapshots and the legacy text of traffic |
| `ConnectionLog`, `Destination` | the bounded connection log and its pollers |
| `LogOwnership` | who owns the process-global log handler, session or probe |
| `Binder`, `TunHost`, `TunDials` | binding the core's sockets to the physical interface, the TUN session that needs it, and dials that come between the steps of its calls |
| `GcPause`, `OutboundRace`, `RouteTable` | nested pauses, the race between outbounds, the choice of the Windows adapter |
| `Text`, `TextMeaning`, `Wrappers` | string operations and what they mean, options and results |

Calls into opaque code (creating, starting and closing a core, sockets, lookups, registration) are choices of the
environment: every theorem holds for each way they can end. A concurrent part is a state machine whose steps are its
critical sections and atomic operations; a run is any sequence of steps that can happen. What the code does in place is
a method on objects, proved equal to a step of that machine.

Verify with `dafny verify dfyconfig.toml`.

## Where the code and its promises differ

- The UDP datagram decoder (amneziawg.go:1387) starts one octet early, at ATYP instead of after it. `SocksDatagram`
  models both positions: the intended one round-trips, the written one never does.
- The chain validator admits line breaks inside a tag (amneziawg.go:371), and the configuration text writes the chain
  unquoted, so an accepted chain can break the text.
- Restoring the log handler is a load followed by a registration (connection_log.go:190-194); a session that restarts
  in between is left with the handler of the last one. A probe whose core cannot be created returns before restoring
  (skipicore.go:620-624), even if that core had already replaced the handler.
- Tags that contain `>>>` or end with `>` drop out of the traffic accounts (skipicore.go:450-459).
- Closing a TUN session releases the binding before it ends the session (desktop/tunhost/tunhost_linux.go:55-59), and
  dials load the binding without the mutex (desktop/tunhost/binding.go:50-53): a dial made meanwhile goes unbound while
  the tunnel is still up, and so does a dial that loaded its binder before a Close and uses it after the next Open.
- A log counts from zero in every session (skipicore.go:216-218), but a client keeps its cursor: after a restart it
  misses as many of the first connections as it had read before, unless it polls in between.
- A tunnel opened after preparing another name keeps the earlier binder (desktop/tunhost/binding.go:43-46).
- A controller handle can be issued twice, and the lease be lost, once 2^64 handles have been issued
  (desktop/bridge/bridge.go:107-111); a byte counter beyond 2^63 and a metric sum beyond 2^32 wrap.
- The last check for a known fastest tag (skipicore.go:1145-1147) is never taken with one: the loop has then returned.

## Model
| member | source | states |
|---|---|---|
| `SessionLease.LeaseRecordsAgree` | desktop/bridge/bridge.go:41-228 | After every run of calls of any number of runtimes and controllers, failed starts and failed closes included: at most one core runs; it runs exactly when the process state names its runtime and handle, and exactly when its runtime's `active` names it; every other runtime has no active handle; the holder owns the assets; the descriptor variables are set only under a lease; the active log is that of the running core |
| `SessionLease.ConsistentExactlyWhenNeverReissued` | desktop/bridge/bridge.go:102-114 | The records stay consistent all through a run, of any length, exactly when no call creates a controller under the handle that holds the lease at that moment |
| `SessionLease.ShortRunsNeverReissue` | desktop/bridge/bridge.go:107-111 | A run of fewer than 2^64 calls never reissues a leased handle and ends consistent |
| `SessionLease.CreateKeepsConsistencyExactlyWhen` | desktop/bridge/bridge.go:103-114 | Creating a controller in a consistent state keeps it consistent if and only if the next handle is not the leased one |
| `SessionLease.WrappedCounterBreaksTheLease` | desktop/bridge/bridge.go:107-112 | The bound is needed: there is a run of 2^64 + 3 plain calls that ends inconsistent, since the handle counter wraps and the map entry is overwritten |
| `SessionLease.ReissueOrphansTheSession` | desktop/bridge/bridge.go:107-113 | After a reissue, stopping the handle frees the lease while the first core still runs |
| `SessionLease.StepKeepsConsistencyExactlyWhen` | desktop/bridge/bridge.go:70-228 | Each call keeps the state consistent if and only if it does not reissue the leased handle |
| `SessionLease.StartSucceedsExactlyWhen` | desktop/bridge/bridge.go:147-184 | Start succeeds if and only if the configuration is not blank, the descriptor not negative, the runtime owns the assets, the handle is known, nobody holds the lease, and the core starts |
| `SessionLease.StartAnswers` | desktop/bridge/bridge.go:147-179 | Which error a start answers, for every obstacle: blank configuration, negative descriptor, assets of another runtime, unknown handle; another controller active, which is named, when another handle holds the lease; already running when this one does; and how the core failed to start |
| `SessionLease.StartIsRefusedToOthers` | desktop/bridge/bridge.go:166-172 | In whatever state, a start is refused while the process or the runtime names another handle, which the error names, and nothing changes |
| `SessionLease.StopAnswers` | desktop/bridge/bridge.go:117-207 | Stopping and destroying answer not found for an unknown handle, a close error exactly when the holder fails to close, and success otherwise |
| `SessionLease.InitializeAnswers` | desktop/bridge/bridge.go:70-92 | Registering assets answers a bad directory first, then a held lease with the holder, and otherwise sets owner and directory |
| `SessionLease.StartLoopSucceedsExactlyWhen` | skipicore.go:177-243 | A controller starts exactly when it is not running and the core starts; a running one is left alone; a started one has the new log and the descriptor if it is positive |
| `SessionLease.StopLoopGivesUp` | skipicore.go:257-283 | A stopped controller is idle, its log is no longer active, a log of another one stays, and the descriptor is cleared |
| `SessionLease.StartTakesTheLease` | desktop/bridge/bridge.go:177-183 | A successful start takes the lease consistently and publishes the descriptor exactly when it is positive |
| `SessionLease.FailedStartChangesNothing` | skipicore.go:177-236 | A start that fails anywhere, even after the descriptor and the log were published, leaves everything as it was except the number of the next log |
| `SessionLease.StopReleasesTheLease` | desktop/bridge/bridge.go:188-207 | Stopping the holder releases the lease whether or not closing the core fails; the reply tells which |
| `SessionLease.StopOfAnIdleHandleChangesNothing` | desktop/bridge/bridge.go:188-207 | Stopping any other handle changes nothing; it succeeds exactly when the handle is known |
| `SessionLease.StopUndoesStart` | desktop/bridge/bridge.go:147-207 | A stop after a start gives back the state before the start, but for the number of the next log |
| `SessionLease.DestroyIsStopThenForget` | desktop/bridge/bridge.go:117-143 | The branches of destroying - idle, cleanly stopped, failing to close - have together the effect and the reply of stopping followed by forgetting the handle |
| `SessionLease.DestroyKeepsConsistency` | desktop/bridge/bridge.go:117-143 | Destroying keeps the state consistent; the handle is then unknown and does not hold the lease |
| `SessionLease.IsRunningObserves` | desktop/bridge/bridge.go:210-228 | In a consistent state asking changes nothing, and the answer is whether the handle holds the lease |
| `SessionLease.InitializeKeepsConsistency` | desktop/bridge/bridge.go:70-92 | Registering assets keeps the state consistent; it succeeds exactly with a directory while nobody holds the lease, and otherwise changes nothing |
| `DesktopBridge.Runtime.Start` | desktop/bridge/bridge.go:147-184 | In place, with the error of each guard in order: the process, the runtime and the one controller end as the lease model says and nothing else is touched |
| `DesktopBridge.Runtime.Stop` | desktop/bridge/bridge.go:188-207 | In place: releases both records of the lease even when the close fails |
| `DesktopBridge.Runtime.DestroyController` | desktop/bridge/bridge.go:117-143 | In place: stops a running controller, releases the lease and removes the handle, also when the close fails |
| `DesktopBridge.Runtime.CreateController` | desktop/bridge/bridge.go:103-114 | In place: the next non-zero handle, with wrap-around, gets a fresh idle controller; other handles keep theirs |
| `DesktopBridge.Runtime.InitializeAssets` | desktop/bridge/bridge.go:70-92 | In place: takes asset ownership unless the directory is bad or a lease is held, and says which |
| `DesktopBridge.Runtime.IsRunning` | desktop/bridge/bridge.go:210-228 | In place: reports the controller and clears the records of one that does not run |
| `DesktopBridge.Runtime.Controller` | desktop/bridge/bridge.go:374-380 | A handle is found exactly when it is not zero and registered |
| `DesktopBridge.Runtime.Release` | desktop/bridge/bridge.go:199-202 | In place: clears the runtime's and the process's record, each only if it names this handle |
| `DesktopBridge.CoreController.StartLoop` | skipicore.go:176-243 | In place: the descriptor variables, the active log and the running flag for each way a start can end |
| `DesktopBridge.CoreController.StopLoop` | skipicore.go:257-283 | In place: closing gives the instance up whatever the close reports |
| `DesktopHost.Drive` | desktop/bridge/bridge.go:60-228 | Objects driven through any sequence of host calls, for any number of runtimes and controllers, give the answers of the lease model and mirror it after those calls: every runtime and controller is an object of its own and all fields agree |
| `DesktopHost.Perform` | desktop/bridge/bridge.go:60-228 | Each host call on mirrored objects is the step of the lease model and has its answer |
| `DesktopHost.ObjectsAgreeAfterEveryRun` | desktop/bridge/bridge.go:41-228 | So on the objects themselves: at most one controller runs; a handle runs exactly when the process, and when its runtime, names it; every other runtime has no active handle; assets and descriptor variables follow the lease, and the active log is the running controller's own |
| `DesktopHost.Start` | desktop/bridge/bridge.go:147-184 | On mirrored objects: reply and effect of Start, all of its refusals included, are those of the lease model |
| `DesktopHost.Stop` | desktop/bridge/bridge.go:188-207 | On mirrored objects: reply and effect of Stop are those of the lease model |
| `DesktopHost.DestroyController` | desktop/bridge/bridge.go:117-143 | On mirrored objects: reply and effect of destroying are those of the lease model |
| `DesktopHost.IsRunning` | desktop/bridge/bridge.go:210-228 | On mirrored objects: reply and effect of asking are those of the lease model |
| `DesktopHost.InitializeAssets` | desktop/bridge/bridge.go:70-92 | On mirrored objects: reply and effect of registering assets are those of the lease model |
| `DesktopHost.CreateController` | desktop/bridge/bridge.go:103-114 | On mirrored objects: the new handle and its controller are those of the lease model, and the controller is shared with no other handle |
| `DesktopHost.NewRuntime` | desktop/bridge/bridge.go:61-65 | On mirrored objects: a new runtime is the one of the lease model |
| `LockOrder.EveryCallIsDisciplined` | desktop/bridge/bridge.go:76-228 | Every host call takes its locks in the order process, runtime, controller, leaf, gives all of them back, and runs probes under none |
| `LockOrder.SessionCallsAreGuarded` | desktop/bridge/bridge.go:70-228 | Whatever a call that registers assets, starts, stops, destroys or asks works on, it holds the process lock and its runtime's lock; so two such calls never work at the same time |
| `LockOrder.SessionCallsTake` | desktop/bridge/bridge.go:147-228 | The locks that starting, stopping, destroying and asking take, in order, those of the GC pause and of the logs included |
| `LockOrder.OtherCallsTake` | desktop/bridge/bridge.go:94-114 | The locks that all other calls take, none of them the process lock |
| `LockOrder.ReachableIsSound` | desktop/bridge/bridge.go:38-40 | In every interleaving of any number of threads, no lock has two holders and every thread keeps to the order |
| `LockOrder.WaitingThreadsHaveAMover` | desktop/bridge/bridge.go:38-40 | Deadlock freedom: behind every waiting thread stands another one that holds a lock, can move, and is not inside a probe |
| `LockOrder.ProbesHoldNothing` | desktop/bridge/bridge.go:258-276 | A thread inside a delay probe holds no lock |
| `LockOrder.EveryCallCanReturn` | skipicore.go:177-192 | From every reachable state the threads can be run until all calls have returned and all locks are free |
| `LockOrder.NobodyWaitsForAProbe` | desktop/bridge/bridge.go:258-276 | From every reachable state a thread can be driven through its next actions, if they contain no probe, without any thread making a probe |
| `LockOrder.StopAndIsRunningHaveNoProbe` | desktop/bridge/bridge.go:188-228 | The calls Stop and IsRunning contain no probe, so that holds of them |
| `UdpRelay.EveryInterleavingKeepsInv` | amneziawg.go:1217-1351 | The invariant of the association holds after every interleaving of its goroutines, whatever the sockets return |
| `UdpRelay.OnlyThePinnedClientIsServed` | amneziawg.go:1314-1348 | Everything sent into the tunnel is the decoding of a datagram of the one pinned client, from the control connection's host, with the outcome of the name lookup made for it; in order and at most once each |
| `UdpRelay.AnswersGoToThePinnedClient` | amneziawg.go:1265-1288 | Everything sent back goes to the pinned address, encodes a response of a tunnel socket, and is sent at most once |
| `UdpRelay.OneSocketPerFamily` | amneziawg.go:1290-1312 | At most one tunnel socket per family is ever opened, bound to the first usable local address of that family, and each datagram leaves through the socket of its destination's family |
| `UdpRelay.TeardownLeavesNothingOpen` | amneziawg.go:1237-1246 | `finished` is closed at most once; sockets are open exactly until the handler tears down; a handler that returned has closed the client socket |
| `UdpRelay.LaterStatesExtend` | amneziawg.go:1334-1339 | The client address is set at most once, and after teardown no socket is opened or reopened |
| `UdpRelay.EndedGoroutineFinishes` | amneziawg.go:1256-1288 | Whichever goroutine ends, `finished` has been closed |
| `UdpRelay.FinishedHandlerReturns` | amneziawg.go:1350 | Once `finished` is closed the handler can tear down and return whatever the goroutines do |
| `UdpRelay.ClientDatagramIsCarried` | amneziawg.go:1290-1348 | In every reachable state with the client loop reading and the handler waiting, a datagram of the pinned client, or of the first, whose family has a usable local address can be carried: exactly its decoding is sent, on an open socket of its family, also when that socket exists and no new one can be opened |
| `UdpRelay.AnswerIsCarried` | amneziawg.go:1265-1288 | With a client pinned and the handler waiting, what a listening tunnel socket receives can be carried back: exactly its encoding goes to the client |
| `UdpRelay.EveryEndIsNoticed` | amneziawg.go:1256-1320 | From where it reads every loop can end, and so can both watchers, and `finished` is closed then |
| `UdpRelay.BindAddressFits` | amneziawg.go:1358-1380 | The bind address has 4 octets exactly for an IPv4 destination, plain or mapped, is not all zero, leaves the port open, and is one of the local addresses, unmapped |
| `UdpRelay.UsableExactlyWhen` | amneziawg.go:1372-1376 | Which local addresses are usable for which family, by their octets |
| `UdpRelay.AmneziaWgUDPBindAddress` | amneziawg.go:1358-1380 | The loop returns the specified bind address and family, or none |
| `UdpRelay.FirstUsableIsFirst` | amneziawg.go:1372-1379 | The bind address is the first local address that is valid, not unspecified and of the family, unmapped; there is none only if no local address is usable |
| `SocksDatagram.IntendedRoundTripExactlyWhen` | amneziawg.go:1382-1433 | A decoder reading after ATYP gives back the address up to IPv4-mapping, the port in 16 bits and the payload of an encoded datagram, exactly when the source is an IPv4 or IPv6 address |
| `SocksDatagram.WrittenReadsIpv4Shifted` | amneziawg.go:1387-1400 | As written, reading from the ATYP octet: exactly which octets of an encoded IPv4 datagram become address, port and payload |
| `SocksDatagram.WrittenReadsIpv6Shifted` | amneziawg.go:1387-1400 | As written: the same for an encoded IPv6 datagram |
| `SocksDatagram.WrittenNeverRoundTrips` | amneziawg.go:1387-1400 | As written, no datagram of any source is decoded to what was encoded |
| `SocksDatagram.WrittenReadsEveryNameAsThreeOctets` | amneziawg.go:1387-1388 | As written, the ATYP octet 3 is taken for the length of every domain name |
| `SocksDatagram.IntendedReadsNames` | amneziawg.go:1160-1172 | A decoder reading after ATYP reads a domain name of any length from 1 to 255 |
| `SocksDatagram.BuildSocksUDPDatagram` | amneziawg.go:1421-1433 | The appended octets are the specified datagram |
| `SocksDatagram.ParseSocksUDPDatagram` | amneziawg.go:1382-1401 | The stream-consuming decoder computes the specified decoding from the position the code passes |
| `SocksDatagram.ReadSocksAddress` | amneziawg.go:1151-1188 | Reads address and port, consumes exactly their octets, and fails as specified |
| `SocksDatagram.ReadSocksHost` | amneziawg.go:1151-1181 | Reads the host by its type, or fails on a short stream, an empty name or an unknown type |
| `SocksDatagram.DatagramLayout` | amneziawg.go:1421-1433 | The fixed offsets of an encoded datagram, for each address family |
| `SocksDatagram.AddressTakes` | amneziawg.go:1151-1188 | Which octets an address of each type takes, what it is, and how reading it fails |
| `SocksDatagram.DatagramWrittenOut` | amneziawg.go:1421-1433 | The octets of a datagram for each form of address, with the port high octet first |
| `SocksDatagram.FragmentsAreRefused` | amneziawg.go:1384-1386 | A datagram is refused as fragmented exactly when RSV or FRAG is not zero or it is shorter than four octets |
| `SocksDatagram.IpEqualExactlyWhen` | amneziawg.go:1322-1338 | Addresses are equal when they are the same octets or one is the IPv4-mapped form of the other |
| `ObfuscationChain.ValidateExactlyTheLanguage` | amneziawg.go:353-409 | The validator accepts a text if and only if, trimmed, it is empty or has at most 4096 bytes and is a concatenation of tags: "b" with hexadecimal bytes; "r", "rc", "rd" or "dz" with a length up to 4096; "t", "d" or "ds" alone; with a sum of at most 4096 |
| `ObfuscationChain.ValidateChain` | amneziawg.go:353-409 | The loop ends and returns the first error of the specified scan; the values its accumulator takes are those of the scan, and each of them is at most 8192 |
| `ObfuscationChain.TagsAreReadAsMeant` | amneziawg.go:371-402 | The cases on the words of a tag accept exactly the tags that denote a number of bytes, with that number |
| `TextMeaning.FieldsExactlyTheRuns` | amneziawg.go:371 | The words of a tag are the maximal runs of non-space characters of its text, all of them and in order, and no other list is |
| `TextMeaning.TrimSpaceExactlyWhen` | amneziawg.go:354 | Trimming takes away the spaces at both ends, all of them and nothing else |
| `TextMeaning.SpacesWrittenOut` | amneziawg.go:371 | The ASCII spaces, by their codes |
| `ObfuscationChain.TagBytesBounded` | amneziawg.go:380-402 | One tag adds at most 4096 bytes, which keeps the accumulator within 8192 |
| `ObfuscationChain.FirstFaultIsNamed` | amneziawg.go:363-407 | After a chain within the budget, what follows decides the answer: the end, no tag, a refused tag, or one that goes beyond the budget |
| `ObfuscationChain.RefusedWords` | amneziawg.go:371-402 | Why the words of a tag are refused, for every kind |
| `TagScanner.NoTagIsNamed` | amneziawg.go:364-370 | Text outside a tag and an unterminated tag are told apart by the opening and the missing closing bracket |
| `TagScanner.ScanSkipsGoodTags` | amneziawg.go:363-407 | Good tags at the front matter only by their sizes |
| `ObfuscationChain.LineBreakInsideATagIsAccepted` | amneziawg.go:371 | There is an accepted chain that contains a line break |
| `TagScanner.ScanSound` | amneziawg.go:363-407 | A scan that succeeds has cut the text into tags within the budget |
| `TagScanner.ScanComplete` | amneziawg.go:363-407 | A text that is a list of tags within the budget is scanned to its end |
| `IpcConfig.BuildIpcConfig` | amneziawg.go:588-695 | The string builder writes the specified text, or returns the first error in the order of the code |
| `IpcConfig.ReadsBackExactlyWhenOnOneLine` | amneziawg.go:588-695 | For every settings value that can be built: a line reader grouping at `public_key` recovers the effective settings and the ordered peers with default allowed IPs, if and only if no trimmed chain, header, range, decoded key, endpoint, allowed IP or keepalive of the settings holds a line break |
| `IpcText.ReaderFinds` | amneziawg.go:588-695 | For settings on one line a reader finds, key by key with the keys written out, each setting exactly once in its meant form or not at all, no other key in the interface section, and every peer in order with its decoded keys, endpoint, allowed IPs or both defaults, and keepalive |
| `IpcText.InterfaceWrittenOut` | amneziawg.go:595-658 | The same of the interface section, without reading: sizes if positive, headers unless empty or "0", trimmed chains, keys, ranges unless "0" or off, flags as "true" or "false" |
| `IpcText.PeersWrittenOut` | amneziawg.go:660-692 | The same of the peers |
| `IpcText.PeerKeysWrittenOut` | amneziawg.go:668-690 | The keys of a peer, written out |
| `IpcText.StringValMeans` | amneziawg.go:200-216 | The text of a value: a string trimmed, a number cut to a whole one in decimal, true or false, or nothing |
| `IpcText.FlagIsBadExactlyWhen` | amneziawg.go:97-113 | A flag cannot be read exactly when it is neither true, on, 1, false, off, 0 in any letter case, nor empty or absent |
| `IpcText.BuildAnswers` | amneziawg.go:588-668 | A text is built exactly when both keys, both flags and all peers are good; of what is wrong the first is named |
| `IpcText.FirstBadPeerIsNamed` | amneziawg.go:660-667 | Of several bad peers the first decides the error: it is missing or its public key cannot be decoded |
| `IpcConfig.LinesUnbrokenExactlyWhenSettingsAre` | amneziawg.go:619-692 | That condition on the settings is exactly that every written line stays one line |
| `IpcConfig.Build` | amneziawg.go:588-668 | The text is built if and only if the private key, a header protection key that is set, both flags and the public key of every peer can be read |
| `IpcConfig.LineBreakInAChainBreaksTheText` | amneziawg.go:632-636 | A chain with a line break in it, any of the five, breaks the text of every settings value that can be built |
| `RunnerSettings.ValidateNativeRunnerCompatibility` | amneziawg.go:231-323 | The validation accepts exactly the settings whose sizes, headers, chains, header protection, ranges, flags and peers are all valid, each by its declarative meaning with the limits written out; otherwise the first check that fails decides the refusal |
| `RunnerSettings.AcceptedSettingsBuildExactlyWhenKeysDecode` | amneziawg.go:588-668 | The text is built from accepted settings if and only if the private key and every public key can be decoded |
| `RunnerSettings.AcceptedSettingsReadBackExactlyWhen` | amneziawg.go:840-842 | On the path of a runner, which validates before it builds, with keys decoded to hexadecimal: the text reads back if and only if no trimmed chain, endpoint or allowed IP holds a line break; the validators keep all else on one line |
| `RunnerSettings.AcceptedChainCanBreakTheText` | amneziawg.go:371 | There is a chain the validator accepts with which no settings value reads back, and there are settings with it that the whole validation accepts and that can be built |
| `IpcConfig.HasAmneziaParamsExactlyWhenWritten` | amneziawg.go:163-198 | For every settings value that can be built with a private key on one line, parameters are reported exactly when the interface section has a line besides `private_key` |
| `IpcConfig.SettingsConfigured` | amneziawg.go:597-658 | Some setting is written exactly when one of the conditions of `HasAmneziaParams` holds |
| `RangeValidators.ValidateU16Range` | amneziawg.go:140-160 | Accepts exactly "N" and "N-M" in decimal with N <= M <= 65535; a refusal says descending only of two numbers, and otherwise follows the first bad part |
| `RangeValidators.ValidateHeaderRange` | amneziawg.go:325-351 | Accepts exactly the empty text, "0", and decimal numbers or ascending ranges below 2^32; a refusal says whether the form, a bound or the order is wrong |
| `TrafficStats.Conservation` | skipicore.go:336-411 | Under any interleaving of additions with the drains of both queries, total plus undrained counter equals all bytes added while the counter was live in the session, as long as those fit into an int64 |
| `TrafficStats.ConservedExactlyWithinTheRange` | skipicore.go:400-409 | An amount is conserved by every run that adds it if and only if it is below 2^63 |
| `TrafficStats.ConservedExactlyWhenNothingOverflows` | skipicore.go:400-409 | For every single run: the bytes of a counter are conserved if and only if no addition takes the counter, and no visit the total, to 2^63; a loss is never made up for later |
| `TrafficStats.TotalsNeverFall` | skipicore.go:404-407 | Within a session in which a name does not overflow, no drain of either query lowers its total |
| `TrafficStats.QueryCountsEarlierBytes` | skipicore.go:383-409 | A counter visited by a query has handed over every byte added before the query began, and no byte twice, if it does not overflow in the session |
| `TrafficStats.SnapshotsGrow` | skipicore.go:336-386 | In successive structured snapshots of a session no field falls whose own name does not overflow, legacy reads in between notwithstanding |
| `TrafficStats.SnapshotFromTotals` | skipicore.go:413-436 | For every order of the map walk, each field equals exactly one positive total or zero, and a tag is listed exactly when one of its fields is positive |
| `TrafficStats.SnapshotIsDetermined` | skipicore.go:415-435 | Totals have only one such snapshot |
| `TrafficStats.CreditKeepsRepresentation` | skipicore.go:415-434 | Adding one more name to a snapshot keeps it exact: nothing merges |
| `TrafficStats.TrafficAccount.Drain` | skipicore.go:391-411 | In place, in any order of visits: every traffic counter is zeroed, its positive value moved to its total, other counters kept; the deltas are what was moved |
| `TrafficStats.TrafficAccount.VisitOne` | skipicore.go:400-410 | In place: the atomic step of the drain on one counter |
| `TrafficStats.TrafficAccount.QueryTrafficStats` | skipicore.go:336-346 | In place: drains and returns the snapshot of the totals |
| `TrafficStats.TrafficAccount.QueryAllOutboundTrafficStats` | skipicore.go:353-381 | In place: drains and returns, for the tags with traffic in ascending byte order, tag + ",uplink," + number + ";" and tag + ",downlink," + number + ";", where each number is what the counter "outbound>>>tag>>>traffic>>>uplink" (or downlink) held, and a part is left out exactly when it is not positive |
| `TrafficStats.ReportIsDetermined` | skipicore.go:357-380 | Totals have one such text, whatever the order in which maps are walked |
| `TrafficStats.ReportWrittenOut` | skipicore.go:357-380 | The text of a snapshot is that of the totals by their names, written out |
| `TrafficStats.FieldsWrittenOut` | skipicore.go:415-434 | Which named total each of the four fields of a tag is, and when a tag is listed |
| `TrafficNames.NamesWrittenOut` | skipicore.go:450-459 | The four counter names of a tag, written out |
| `TrafficReport.BeforeExactlyWhen` | skipicore.go:461-468 | The order of tags is that of bytes from the left, a shorter text first |
| `TrafficReport.ListingIsDetermined` | skipicore.go:461-468 | A set of tags has one sorted listing |
| `TrafficReport.SortTags` | skipicore.go:461-468 | The tags come out in ascending order, each once |
| `TrafficReport.InsertKeepsOrder` | skipicore.go:461-468 | Inserting a tag keeps the order and adds just that tag |
| `TrafficStats.TrafficAccount.BeginSession` | skipicore.go:183-226 | In place: a session starts with no totals |
| `TrafficStats.TrafficAccount.EndSession` | skipicore.go:269-270 | In place: a stopped session keeps neither counters nor totals |
| `TrafficNames.ParsedNameIsRecomposed` | skipicore.go:450-459 | Rejoining the parts of an accepted name gives the name back, and its tag is clean |
| `TrafficNames.ParseIsInjective` | skipicore.go:450-459 | Two accepted names with the same reading are the same name |
| `TrafficNames.NameIsReadExactlyWhenItsTagIsClean` | skipicore.go:451-458 | The name of a counter is read back exactly when its tag is not empty, holds no separator and does not end with ">"; other traffic is silently not accounted |
| `TrafficNames.SeparablePartsSplit` | skipicore.go:451 | Splitting at leftmost separators inverts joining for parts that hold no separator and, but for the last, do not end with ">" |
| `TrafficNames.SplitIsSeparable` | skipicore.go:451 | All results of splitting are of that kind |
| `ConnectionLog.LogAbbreviatesHistory` | connection_log.go:65-110 | After any lines and switches: the entries are the last min(seq, 1000) of the unbounded joined history, numbered consecutively up to `seq`; the pending map holds exactly the unanswered names and never more than 4096 |
| `ConnectionLog.NameIsTheUnansweredSniff` | connection_log.go:70-95 | The name joined to an id is the one sniffed last, since the last overflow reset and with no routing line of the id after it |
| `ConnectionLog.FewSniffsNeverReset` | connection_log.go:72-74 | Up to 4096 sniffed names nothing is ever reset |
| `ConnectionLog.PollerCollects` | connection_log.go:128-135 | A client feeding back each cursor collects, poll by poll and in order, exactly what was not yet evicted |
| `ConnectionLog.PollerMissesNothingExactlyWhen` | connection_log.go:107-135 | It collects the complete history if and only if at most 1000 connections came between any two polls |
| `ConnectionLog.ClientMissesNothingExactlyWhen` | skipicore.go:216-218 | Over any number of sessions, each with a log that counts from zero: a client that goes on with its cursor gets the complete history of a session if and only if at most 1000 connections came between polls and the cursor was zero, or nothing was recorded, at its first poll there; polling between sessions resets the cursor |
| `ConnectionLog.ClientReads` | skipicore.go:297-305 | What the client reads of each session, from the cursor it carried in |
| `ConnectionLog.PollerCollectsFrom` | connection_log.go:128-135 | With a cursor from elsewhere a client misses exactly the first min(cursor, count) entries of its first poll, and evicted ones |
| `ConnectionLog.HistoryExtends` | connection_log.go:99-106 | Later lines never change what earlier ones recorded |
| `ConnectionLog.NewerIsATail` | connection_log.go:131-135 | The entries newer than a cursor are the tail of the consecutive list that the cursor leaves unread |
| `ConnectionLog.Log.Record` | connection_log.go:65-85 | In place: one log line, with the overflow reset and the disabled log |
| `ConnectionLog.Log.Add` | connection_log.go:87-110 | In place: the join, the dropped empty host, the numbering and the trimming |
| `ConnectionLog.Log.Snapshot` | connection_log.go:128-135 | The loop returns exactly the entries newer than the cursor, and the current number |
| `ConnectionLog.Log.SetEnabled` | skipicore.go:286-293 | In place: switches the log and nothing else |
| `Destination.SplitInvertsPrintExactlyWhen` | connection_log.go:113-125 | A printed destination reads back exactly when its network is a name without a colon and its host neither starts nor ends with a bracket, IPv6 hosts included |
| `Destination.NetworkReads` | connection_log.go:115-117 | What stands before the first colon is the network, unless it is empty |
| `Destination.NoColonReads` | connection_log.go:114-124 | A text without a colon is a TCP host with port zero |
| `Destination.HostPortReads` | connection_log.go:118-123 | What stands after the last colon is the port if it is a number, and belongs to the host otherwise |
| `Destination.TrimmedIsUnbracketed` | connection_log.go:124 | Only brackets at the ends of the host are taken away, and all of them |
| `Destination.AtoiReads` | connection_log.go:119 | A port is an optional sign and decimal digits within int64 |
| `LogOwnership.ActiveBelongsToTheSession` | connection_log.go:175-201 | With sessions serialized by the lease, the stored handler is that of the session being served, and of none otherwise, whatever the probes do |
| `LogOwnership.HandlerIsTheSessionsExactlyUnlessSpoiled` | connection_log.go:178-194 | In every interleaving of single steps, with a session installed and no probe between its core and its restore, the global handler is the session's exactly when the latest registration was of the handler active then and no failed probe replaced it since |
| `LogOwnership.InstalledSessionOwnsTheHandler` | skipicore.go:620-624 | With restore taken as one step and no failed probe, the installed session owns the handler whenever no probe is under way |
| `LogOwnership.RestoreCanOutliveASession` | connection_log.go:190-194 | As written, a restore is a load and a registration: from every state with an installed session, a restart between the two leaves the next session with the handler of the last |
| `LogOwnership.GlobalLog.Install` | connection_log.go:178-187 | Takes the variables from those of any state with a created session to those after its store and its registration, where it is installed |
| `LogOwnership.GlobalLog.Restore` | connection_log.go:190-194 | Takes the variables from those of any state with a probe that has replaced the handler to those after its load and its registration, where the probe is done |
| `LogOwnership.RestoreGivesTheHandlerBack` | connection_log.go:190-194 | A restore in one piece by the only probe under way gives the handler back to the installed session |
| `LogOwnership.GlobalLog.ClearSession` | connection_log.go:197-201 | Takes the variables from those of any state with that session installed to those after it has ended |
| `Binder.AnswersAreFresh` | desktop/netbind/binder.go:51-67 | With a clock that never goes back and a positive limit, an answer while enabled is the result of a lookup younger than the limit and no older than the last Enable; and a lookup is made exactly when there is none such |
| `Binder.CacheIsTheLastLookup` | desktop/netbind/binder.go:51-67 | The cache is the latest lookup, and its age counts only if no Enable came after it |
| `Binder.OffAnswersNothing` | desktop/netbind/binder.go:54-56 | A binder answers with an interface only while the latest switch was on |
| `Binder.AnnouncementsAreTheDistinctLookups` | desktop/netbind/binder.go:57-64 | Over a whole run, across Disable and Enable, the announcements are the lookup results with consecutive repeats removed |
| `Binder.FirstFailuresAreHeardExactlyWhen` | desktop/netbind/binder.go:69-84 | Over any run exactly the first failure of each interface and error text is reported, if and only if no two different failures of the run share a key |
| `Binder.ComplaintsAreTheFirstFailures` | desktop/netbind/binder.go:69-84 | It is so whenever the interface names hold no NUL |
| `Binder.NothingIsHeardTwice` | desktop/netbind/binder.go:73-83 | No two reported failures share a key, so no pair is reported twice, whatever the names |
| `Binder.NamesShareAKeyExactlyWhen` | desktop/netbind/binder.go:73 | Two names can share a key for some error texts if and only if one continues the other after a NUL |
| `Binder.KeyIsInjectiveWithoutNul` | desktop/netbind/binder.go:73 | Without NUL in the names a key determines interface and error text |
| `Binder.Binder.Current` | desktop/netbind/binder.go:51-67 | In place: the cached or new choice, and the change that is announced |
| `Binder.Binder.ReportBindError` | desktop/netbind/binder.go:69-84 | In place: whether this failure is the first under its key |
| `Binder.Binder.Control` | desktop/netbind/binder.go:88-101 | In place: loopback sockets are left alone, others bound to the current interface; a failed bind is reported once and never fails the dial |
| `Binder.Binder.SetEnabled` | desktop/netbind/binder.go:39-43 | In place: enabling drops the age of the cached choice but keeps the choice |
| `Binder.Binder.SetDisabled` | desktop/netbind/binder.go:45-49 | In place: disabling keeps the cache |
| `TunHost.NoSessionWithoutTheBinding` | desktop/tunhost/tunhost_linux.go:20-62 | Between calls, and whenever opening a tunnel is attempted, a session has an enabled binder stored and the controller registered; inside a Close it has not, see TunDials |
| `TunHost.AttemptsExactlyWhen` | desktop/tunhost/tunhost_linux.go:30-38 | Opening the tunnel is attempted exactly when the call would open a session if the tunnel opened |
| `TunHost.EveryRunKeepsInv` | desktop/tunhost/binding.go:43-70 | Between calls a stored binder is enabled and its registration succeeded; inside a release it is disabled before it is dropped, see TunDials |
| `TunHost.RegistrationIsAttemptedAtMostOnce` | desktop/tunhost/binding.go:49-56 | The registration is attempted at most once, and its outcome is known exactly when it was attempted |
| `TunHost.RefusalIsFinal` | desktop/tunhost/binding.go:57-60 | After a refused registration no session is ever open again |
| `TunHost.OpenSucceedsExactlyWhen` | desktop/tunhost/tunhost_linux.go:20-49 | A session opens exactly when none is open, the plan is valid, the tunnel opens, and the controller is or gets registered |
| `TunHost.FailedOpenRestores` | desktop/tunhost/tunhost_linux.go:34-45 | A failed Open leaves session and binding as they were; only a first registration may have been decided |
| `TunHost.CloseClears` | desktop/tunhost/tunhost_linux.go:52-62 | Close always clears session and binding, keeps the registration, and is idempotent |
| `TunHost.BindingIsForTheSessionExactlyWhen` | desktop/tunhost/binding.go:43-46 | The binding of a new session was made for its own tunnel exactly when no binding for another was there before |
| `TunHost.EarlierBindingIsKept` | desktop/tunhost/binding.go:43-46 | Preparing one tunnel and opening another leaves the session with the earlier binding |
| `TunHost.Host.PrepareLocked` | desktop/tunhost/binding.go:43-63 | In place: stores an enabled binder unless one is there or the registration is refused |
| `TunHost.Host.ReleaseLocked` | desktop/tunhost/binding.go:65-70 | In place: the stored binder is disabled and dropped |
| `TunHost.Host.PrepareBinding` | desktop/tunhost/binding.go:29-37 | In place: succeeds exactly when the name is valid and a binding is there afterwards |
| `TunHost.Host.OpenSession` | desktop/tunhost/tunhost_linux.go:20-49 | In place: the branches of Open, releasing only what this call prepared |
| `TunHost.Host.CloseSession` | desktop/tunhost/tunhost_linux.go:52-62 | In place: disables the binder and forgets binder and session |
| `TunDials.DialWithinATunnelIsBoundExactlyWhen` | desktop/tunhost/binding.go:50-53 | In every interleaving of lock-free dials with the steps of Prepare, Open and Close: a dial that loads and uses its binder while one tunnel is up is bound if and only if no Close has begun to release the binding by the time it uses it |
| `TunDials.DialIsBoundExactlyWhen` | desktop/tunhost/binding.go:50-53 | A dial that has loaded a binder, at any time, is bound if and only if that binder is the one stored and is not just being released |
| `TunDials.DialFindsABinderExactlyWhen` | desktop/tunhost/binding.go:51-54 | While a tunnel is up a dial finds no binder exactly after a Close has dropped it and before the tunnel is gone |
| `TunDials.TunnelIsBoundExactlyWhen` | desktop/tunhost/tunhost_linux.go:52-60 | While a tunnel is up its binder is stored and enabled, exactly until a Close begins to release it; failed Opens never open that gap |
| `TunDials.DialDuringCloseIsNotBound` | desktop/tunhost/tunhost_linux.go:55-59 | From every state with a tunnel up and no call running, a Close can leave the tunnel up while a dial uses a disabled binder or finds none |
| `TunDials.DialCanOutliveItsBinder` | desktop/tunhost/binding.go:51-52 | From every such state a dial can keep a binder across a Close and the next Open, and is not bound although that tunnel has its binding in place |
| `TunDials.EveryInterleavingKeepsInv` | desktop/tunhost/binding.go:43-70 | What is stored, enabled and loaded, and when a tunnel can be up, after every interleaving |
| `TunDials.NothingGetsStuck` | desktop/tunhost/binding.go:43-70 | In every reachable state the running call can go on whatever opaque calls return, calls can begin when none runs, and dials can be made and used |
| `TunDials.CallsAreWhole` | desktop/tunhost/binding.go:16-70 | Whenever no call is running, the state is the one TunHost gives for the completed calls, each taken as a whole |
| `TunDials.StepRefines` | desktop/tunhost/tunhost_linux.go:20-62 | Each step keeps the state between that of TunHost before and after the running call |
| `GcPause.HoldersAreTheUnusedTokens` | runtime_tuning.go:50-69 | After any pauses and restores the holder count is the number of unused tokens; the collector is off while it is positive and at its own percentage otherwise; what is kept for restoring is never the disabled percentage of an outer pause |
| `GcPause.OffExactlyWhilePaused` | runtime_tuning.go:50-69 | A collector that was on is off exactly while some token is unused |
| `GcPause.RestoreIsIdempotent` | runtime_tuning.go:58-68 | Using a token again changes nothing, whatever happened in between |
| `GcPause.Collector.PauseForStartup` | runtime_tuning.go:50-56 | In place: the first holder records the percentage and disables the collector |
| `GcPause.Token.Restore` | runtime_tuning.go:58-68 | In place: the first use gives up the hold, the last holder restores the percentage |
| `OutboundRace.Race` | skipicore.go:1114-1148 | For every arrival order and deadline: the loop stops at the first point at which the race is over, with the earliest lowest-latency success received by then, or the first candidate |
| `OutboundRace.RaceIsDetermined` | skipicore.go:1114-1148 | Arrival order and deadline determine the winner and the number of results received |
| `OutboundRace.WinnerWrittenOut` | skipicore.go:1119-1134 | The winner, written out: of the results received without error and with a latency not negative, the first of the lowest; the first candidate if there is none |
| `OutboundRace.RaceEndsExactlyWhen` | skipicore.go:1116-1142 | What ends the race, written out: all results, the deadline, three or half of the results with one that counts, or a first one that counts under 350 ms; and nothing before |
| `OutboundRace.WinnerIsACandidate` | skipicore.go:1114-1148 | The winner is a candidate |
| `OutboundRace.LongRacesWaitForAFirstSuccess` | skipicore.go:1140-1142 | A race that receives more than min(3, ceil(n/2)) results had no success before the last one |
| `OutboundRace.QuickFirstSuccessWins` | skipicore.go:1122-1127 | A first success under 350 ms wins as soon as it arrives |
| `OutboundRace.FastSelectBestOutbound` | skipicore.go:1013-1149 | Empty exactly when the configuration is empty or the list has no candidate; otherwise the only or, without a test core, the first candidate, or the winner of the race |
| `OutboundRace.Candidates` | skipicore.go:1018-1025 | The loop returns the trimmed tags that are not empty |
| `RouteTable.DefaultRouteMetrics` | desktop/netbind/route_table.go:23-45 | For every byte buffer, the map holds for each interface the minimum metric over the complete in-bounds IPv4 default routes, and nothing else |
| `RouteTable.MetricsAreDetermined` | desktop/netbind/route_table.go:23-45 | A table has only one such map |
| `RouteTable.TableLayout` | desktop/netbind/route_table.go:11-18 | Where count, interface, family, prefix length and metric of each row are, byte by byte |
| `RouteTable.RowsAreComplete` | desktop/netbind/route_table.go:27-33 | A row counts exactly when it is announced and lies in the table completely |
| `RouteTable.OneRow` | desktop/netbind/route_table.go:34-42 | Reading one more row keeps the map exact |
| `RouteTable.DefaultAdapter` | desktop/netbind/adapter.go:27-46 | The adapter chosen is eligible and none eligible has a lower metric, or the same metric and a lower index; none is chosen only if none is eligible |
| `RouteTable.DefaultWrittenOut` | desktop/netbind/adapter.go:27-46 | The choice, written out: up, with a gateway, no loopback, not the excluded tunnel; the lowest metric, then the lowest index |
| `RouteTable.EqualFoldExactlyWhen` | desktop/netbind/adapter.go:34 | Names are equal up to letter case exactly when they are so character by character |
| `RouteTable.ChoiceIgnoresOrder` | desktop/netbind/adapter.go:27-46 | The choice does not depend on the order of the adapters |
| `RouteTable.RankedRightlyExactlyWithinTheRange` | desktop/netbind/system_windows.go:139-148 | An adapter is ranked rightly against all adapters whose sum fits into 32 bits if and only if its own sum does |
| `RouteTable.UnroutedRanksLast` | desktop/netbind/system_windows.go:143-146 | An adapter without a default route ranks last; a routed one ties with it exactly at the maximum |
| `RouteTable.RankWrittenOut` | desktop/netbind/system_windows.go:139-148 | How an adapter is ranked: its fields are copied, its metric is the sum in 32 bits, the maximum without a route, and the interface metric without a table |
| `RouteTable.NoDefaultRouteIsCheaper` | desktop/netbind/system_windows.go:89-102 | From table bytes to choice: when no sum leaves 32 bits, the adapter chosen has a default route that costs no more than any default route of any eligible adapter - except that against a route costing 2^32 - 1 an adapter without a default route may tie and be chosen |
| `RouteTable.ChosenLink` | desktop/netbind/system_windows.go:89-102 | The choice among the described adapters is eligible and beaten by none |

## Left out

- Xray-core, amneziawg-go, netstack and D-Bus internals: only whether a call succeeds and what it visibly changes.
- The C interface in `cmd/skipicore-desktop`, JSON encoding and decoding.
- Probes over HTTP, TLS, QUIC and TCP, DNS, certificates and memory statistics.
- Regular expressions: log lines are events that say what was matched. IP text, keys in base64 or hexadecimal, and domain lookups are parameters.
- Real time: clocks and deadlines are parameters or choices.
- Unicode: whitespace and letter case are those of ASCII.
- Callbacks: desktop controllers have none (desktop/bridge/bridge.go:112), so `StartLoop` and `StopLoop` call none.
- Numbers of JSON settings beyond the range of int64: truncation is modelled, overflow is not.
- The sequence number of the connection log is unbounded; its int64 would wrap after 2^63 connections.
- Counters that the core unregisters while they still hold bytes: the code would lose those, the model has no such step.
- A reader of the configuration text is not part of the repository; `IpcConfig.ReadConfig` is one that splits lines, cuts at the first "=" and starts a peer at each `public_key`.
- Absent settings (a nil pointer), which the validation refuses; settings are values here.
- Endpoint resolution: a runner replaces endpoints by address literals between validation and building; the results on the text hold for any endpoint.
- The two closures of a SOCKS TCP connection, the runner's own start and stop.
- `resolveMaxProcs`, `UnicastIfValueV4`, the route readers of macOS and Linux, and the system calls that list adapters.
- A tunnel that stays up because its deactivation fails, which the code ignores: closing a session ends its tunnel.
- TunHost.Host.OpenSession: whether a plan is valid is a parameter, since its parsing belongs to the network manager client.
- DesktopBridge.Runtime.InitializeAssets: the normalized directory, or that it is bad, is a parameter.
- LogOwnership.ActiveBelongsToTheSession: sessions are serialized as the desktop lease does it; controllers that a mobile host starts at once are not modelled.
- ObfuscationChain.ValidateChain: errors are distinguished by their kind, not by their text.
