# HaloDaemon: verified models of its stateful core

HaloDaemon controls lighting, cooling and LCD devices. Most of it is input and output; what is
modelled here are the parts whose correctness spans many steps:

- **Retry queue** (`Backoff`, `RetryProtocol`, `RetryKeys`): the mutex-guarded map of retry states as a
  class, and its interleavings with spawned retry loops as a state machine in which every lock section,
  every read of a cancel flag and every start and end of an action is a step of its own: first as one
  key sees it, then for the whole queue, of which every key's view is such a run.
- **State bus and its mirrors** (`Bus`, `Coordinator`, `TopicStore`, `StateRelay`, `LongRun`, `RunLoop`): a
  publisher that commits differences, the revisioned transaction stream, its way to a client over a
  lagging broadcast and a bounded queue, the GUI's replica, runs in which the revision counter goes
  round, and an engine's lossy config subscription with its tick loop.
- **Notifications** (`EventCursor`, `EventRelay`): the GUI's cursor and sessions, and the way of an event
  from the daemon's ring over a lagging broadcast and a bounded queue of frames to that cursor.
- **Hardware broker connection** (`Broker`, `BrokerRate`): capability, scope, handles and operation rate.
- **Plugin package encodings** (`Bytes`, `RelativePath`, `PackageHash`, `Bundle`): the bytes a
  package digest is taken of, and the bundle format with its extraction.
- **Index maps** (`Grid`, `ZoneTransform`, `Image`): ring, mirror and quarter-turn permutations.
- **Supervision** (`Supervisor`): restarting managers and a shutdown that joins them.
- **Log rotation** (`LogFile`), the **service ACL rewrite** (`ServiceAcl`) and **fan curves** (`Curve`).

`Order` and `Wrappers` hold the sorting, mapping and result types shared by the rest. Where the source
updates an object in place there is a class whose methods are proved against functions of its state,
and the theorems are about those functions and about runs of them. Clocks, randomness, enumerated
hardware and opaque codecs are parameters.

Results where the code falls short of the obvious claim, each with its exact condition or a witness:

- Once the 64-bit revision has wrapped, a client without a new snapshot is deaf to every commit up to
  where it stood a lap before, not only to the one that wrapped; over such a lap it follows the daemon
  exactly until the wrap and stays there (`HeardUntilTheCounterWraps`, `ListenerStopsAtTheWrap`).
- The scoped rate of broker operations does not bound a second of a run: a renewal costs nothing and starts
  budget and window anew, so every bound is exceeded (`RenewalsExceedAnyBound`). The worst second with `m`
  authenticates and renews in it holds exactly the lesser of total and twice the rate, and `m` times the
  lesser of total and rate (`WorstSecond`); the rate bounds such seconds exactly when `m + 1` totals fit
  into it (`RateHoldsIff`).
- A client has every event up to its cursor, once and in order, exactly when no frame passes an event over:
  a replay the ring is too short for, or a later event broadcast first, which two publishers can do
  (`WholeIff`, `RacingPublishersLoseAnEvent`). Even then it lacks the newest events for as long as its
  connection outlives a forwarder that gave up waiting (`GivenUpIsDeaf`, `GivenUpMissesAnEvent`); while the
  forwarder runs it catches up with all of them (`EveryEventOnce`).
- A retry budget bounds a loop's runs exactly when it is below the top of 32 bits (`RunsAreBoundedIff`,
  `TopBudgetRepeats`).
- A panicking action keeps its key busy exactly until the key is cleared (`PanickedKeyIsBusyUntilCleared`,
  `PanicCanWedge`, `ClearFreesTheKey`).
- Normalising line endings is idempotent exactly on binaries and on text without CR CR LF
  (`NormalizingSettlesIff`).
- A supervisor's `Stopped` is overwritten exactly when shutdown's join of that manager times out
  (`StoppedIsLeftIff`, `StoppedIsNotAbsorbing`).
- Rewriting an ACL again changes it exactly when the DACL ends the descriptor and what was kept of it ends
  in white space, as a dropped last entry can leave it (`RewritingSettlesIff`, `SpaceIsLeftBehind`).

Two dangers that other parts of the daemon rule out, with the exact condition they avert: dropping
unchanged records from a commit is lossless for every production exactly when the registry holds one
device per id, which it reserves (`ProductionsFilterLosslesslyIff`); a live event ahead of the replay
that opens its session could be queued twice (`OvertakingQueuesOnceIff`), but the daemon queues that
replay first.

## Model

| member | source | states |
|---|---|---|
| Backoff.RetryQueue.Clear | src/daemon/src/util/backoff.rs:79-84 | forgets the key's streak and raises exactly the cancel flag of its queued loop; every other key and flag is untouched |
| Backoff.RetryQueue.ClearAll | src/daemon/src/util/backoff.rs:86-96 | the same for every key at once: the map is empty and the flags raised are exactly those of the running loops |
| Backoff.RetryQueue.Schedule | src/daemon/src/util/backoff.rs:99-125 | queues an attempt if and only if no loop runs for the key and the counted failure is within the budget, and then under a fresh unraised flag |
| Backoff.RetryQueue.Retry | src/daemon/src/util/backoff.rs:165-180 | counts a failure only for the loop whose flag the key still holds, and hands out an attempt only within the budget; a stale loop changes nothing |
| Backoff.RetryQueue.Finish | src/daemon/src/util/backoff.rs:155-163 | a finished loop clears `running` only when it is still its own |
| RetryProtocol.StepKeeps | src/daemon/src/util/backoff.rs:78-204 | no interleaving of atomic steps breaks the invariant: shape, ownership of `running`, counted and consecutive attempts |
| RetryProtocol.LoopFollowsItsProgram | src/daemon/src/util/backoff.rs:127-163 | whatever runs in between, a loop can take exactly the step its text has next: it reads its flag, runs the action, ends if that says stop, else reads the flag again and notes the retry, and begins again exactly while the key is its own and has an attempt left |
| RetryProtocol.StopEndsTheLoop | src/daemon/src/util/backoff.rs:144-163 | once its action has said stop a loop runs it no more and notes no retry, and once finished it never holds the key |
| RetryProtocol.StreakCountsFailures | src/daemon/src/util/backoff.rs:189-204 | over any run the streak is the number of failures noted since the last clear, by schedules of an idle key and retries of its own loop, up to the top of u32 |
| RetryProtocol.OneLiveLoop | src/daemon/src/util/backoff.rs:99-180 | in every reachable state at most one loop of a key is unfinished and uncancelled, and `running` names exactly it while no clear is under way |
| RetryProtocol.StaleLoopIsInert | src/daemon/src/util/backoff.rs:165-180 | a loop that outlived its episode never changes a later episode's streak, `running` or attempts |
| RetryProtocol.ClearedLoopRunsAtMostOnceMore | src/daemon/src/util/backoff.rs:79-96 | once its key is cleared a loop starts its action at most once more, and only if it had passed its check |
| RetryProtocol.AttemptsAreConsecutive | src/daemon/src/util/backoff.rs:99-204 | between two clears with one budget b below the top of u32 the attempts handed out are 1..k in order, k <= b, over any number of schedules |
| RetryProtocol.WaitsWiden | src/daemon/src/util/backoff.rs:43-51 | within an episode waits never shrink and never exceed 120 seconds |
| RetryProtocol.LoopRunsAreBounded | src/daemon/src/util/backoff.rs:127-163 | a loop runs its action at most as often as its budget, whatever the action answers |
| RetryProtocol.RunsAreBoundedIff | src/daemon/src/util/backoff.rs:29-32 | over all reachable states, no loop with a given budget ever runs past it if and only if the budget is below the top of u32, where the count saturates |
| RetryProtocol.TopBudgetRepeats | src/daemon/src/util/backoff.rs:127-153 | with the top budget a reachable loop has run past it and has been handed one attempt number twice |
| RetryProtocol.PanickedKeyIsBusyUntilCleared | src/daemon/src/util/backoff.rs:127-163 | after a panicking action its loop holds the key exactly as long as no clear comes; until then nothing is queued or counted, and afterwards it never holds the key again |
| RetryProtocol.PanicCanWedge | src/daemon/src/util/backoff.rs:127-163 | the first action of a key, panicking, reaches such a state |
| RetryProtocol.ClearFreesTheKey | src/daemon/src/util/backoff.rs:79-125 | cleared, the key takes the next schedule: with any budget but zero it queues the first attempt of a new loop |
| RetryKeys.MoveIsStep | src/daemon/src/util/backoff.rs:78-204 | every move of the whole queue is, for every key, one step of the key's protocol or nothing: lock sections, loop steps of other keys, and each stage of a clear or clear_all |
| RetryKeys.MoveKeeps | src/daemon/src/util/backoff.rs:78-204 | one move keeps the invariant of every key at once, under one supply of tokens |
| RetryKeys.RunProjects | src/daemon/src/util/backoff.rs:78-204 | any run over any keys is, seen from each key, a run of that key's protocol, so each result above holds per key |
| RetryKeys.StopEndsTheLoop | src/daemon/src/util/backoff.rs:144-163 | the same of the whole queue: after a stop no run and no retry of that loop follows, and once finished no key names it |
| RetryKeys.LiveLoopsAreTheRunningOnes | src/daemon/src/util/backoff.rs:99-180 | between clears the unfinished uncancelled loops are exactly those the map names, one per busy key and never one for two keys |
| RetryKeys.ClearIsExact | src/daemon/src/util/backoff.rs:79-96 | whatever loops do while a clear or clear_all holds the lock, it removes exactly its keys and raises exactly the flags of the loops their entries named |
| RetryKeys.ClearGoesOn | src/daemon/src/util/backoff.rs:79-96 | a clear that holds the lock can always go on, cancelling the loop it removed, else removing any key it has left, else unlocking, with less to do each time |
| RetryKeys.ClearAllStopsEverything | src/daemon/src/util/backoff.rs:88-96 | when clear_all is done the map is empty and every loop of every key has ended or is cancelled |
| RetryKeys.ScheduleIsMove | src/daemon/src/util/backoff.rs:99-125 | the contract of the class's schedule is the queue's move, map, flags and spawned loop |
| RetryKeys.RetryIsMove | src/daemon/src/util/backoff.rs:165-180 | the contract of the class's retry is the move of the loop's key: map, attempt and where the loop goes next |
| RetryKeys.FinishIsMove | src/daemon/src/util/backoff.rs:155-163 | the contract of the class's finish is the move that ends the loop |
| RetryKeys.ClearIsMove | src/daemon/src/util/backoff.rs:79-84 | the contract of the class's clear is that of any completed clear of one key, whatever loops do meanwhile |
| RetryKeys.ClearAllIsMove | src/daemon/src/util/backoff.rs:86-96 | the contract of the class's clear_all is that of any completed clear of every key |
| Bus.KeysSeparateValues | src/shared/src/bus.rs:14-48 | two values share a key exactly when they are of one kind and, for devices, of one id |
| Bus.DataBus.CommitState | src/daemon/src/application/bus/data_bus.rs:336-390 | a refused commit changes nothing; an accepted one applies upserts then tombstones at the next revision and appends one transaction saying so |
| Bus.DataBus.StateSnapshot | src/daemon/src/application/bus/data_bus.rs:392-410 | lists every record under the prefix exactly once, in dictionary order of the keys, with its value and revision, and the counter |
| Bus.CommitIsItsTransaction | src/daemon/src/application/bus/data_bus.rs:336-390 | replaying the published transaction on the old map gives the committed map |
| Bus.CommitRespectsOwners | src/daemon/src/application/bus/data_bus.rs:336-390 | no producer changes or removes the record of another or writes under the empty topic, a commit touches only the keys it names, and only such an attempt is refused |
| TopicStore.TopicStore.ReplaceSnapshot | src/ui/src/domain/topic_store.rs:32-39 | the store after a snapshot is the defaults with its records applied in order, devices sorted by id, which SortByIdKeeps and SnapshotMirrors spell out |
| TopicStore.TopicStore.ApplyTransaction | src/ui/src/domain/topic_store.rs:41-55 | ignores old revisions; otherwise tombstones, then upserts, then the sort by id, and the new revision; TransactionMirrors spells that out |
| TopicStore.TopicStore.ApplyRecord | src/ui/src/domain/topic_store.rs:57-81 | updates the one field its kind names, replacing or appending a device by id |
| TopicStore.SortByIdKeeps | src/ui/src/domain/topic_store.rs:83-85 | sorting distinct ids lists the same devices so that of any two ids the earlier is a proper prefix of the later or has the smaller character where they first differ |
| Order.LessIff | src/ui/src/domain/topic_store.rs:84 | the comparison of ids and paths is dictionary order: after some characters in common the smaller is at its end, or has the smaller next character |
| TopicStore.MirrorIsUnique | src/ui/src/domain/topic_store.rs:32-85 | the bus map and a revision determine the whole store |
| TopicStore.SnapshotMirrors | src/ui/src/domain/topic_store.rs:32-39 | a snapshot, in any record order, makes the store mirror exactly that map |
| TopicStore.TransactionMirrors | src/ui/src/domain/topic_store.rs:41-55 | a newer transaction carries the mirror along with the authoritative map |
| TopicStore.OrderIsImmaterial | src/ui/src/domain/topic_store.rs:41-55 | dropping before upserting, as the client does, agrees with the daemon's opposite order on transactions that do not name a key twice over |
| TopicStore.ClientMirrors | src/ui/src/domain/topic_store.rs:32-85 | after any snapshot every delivery, with repeats of older ones, leaves the client equal to the daemon at the version caught up with |
| TopicStore.CaughtUpClientEqualsDaemon | src/ui/src/domain/topic_store.rs:32-85 | with nothing left to deliver the client mirrors the daemon's current map |
| TopicStore.HeardUntilTheCounterWraps | src/ui/src/domain/topic_store.rs:41-55 | over any run of commits within a lap, one is taken in if and only if its revision exceeds the client's, if and only if it comes before the wrap; from the wrap on the store never changes |
| TopicStore.MirrorsUntilTheCounterWraps | src/ui/src/domain/topic_store.rs:41-55 | until the wrap the client mirrors the map the commits leave |
| LongRun.RevisionOfRun | src/daemon/src/application/bus/data_bus.rs:360-361 | over a daemon run of any length the revision after n publications is the n-th of a counter that goes round from 2^64-1 to 1 |
| LongRun.RunIsListenedTo | src/ui/src/domain/topic_store.rs:41-55 | the transactions of such a run, sent to a client that holds one of its revisions, are a stream as the two results above take it |
| LongRun.ListenerStopsAtTheWrap | src/ui/src/domain/topic_store.rs:32-55 | a client that takes a snapshot of a run and then every transaction of up to a lap mirrors the newest version if and only if the counter has not wrapped since, and else the last version before it did |
| StateRelay.RelayRunIsClientRun | src/daemon/src/application/ipc/mod.rs:653-712 | over subscribing, greeting, forwarding, lagging, full queues, a forwarder giving up and reconnecting, what a client handles begins with a snapshot and never skips a transaction, as ClientMirrors takes it |
| StateRelay.RelayedClientMirrors | src/daemon/src/application/ipc/mod.rs:481-512 | so over any such run the client always mirrors some version, and the newest once its forwarder runs and nothing is left to broadcast, receive or handle |
| StateRelay.SubscribesFromNow | src/daemon/src/application/ipc/mod.rs:493-512 | over any run a connection is sent on only transactions broadcast after it subscribed |
| StateRelay.RelayGoesOn | src/daemon/src/application/ipc/mod.rs:653-712 | over any run every step can be taken exactly when there is something for it to take, so a client with a running forwarder is drained exactly when nothing is left to do |
| StateRelay.RelayedClientListsTheRegistry | src/daemon/src/application/ipc/mod.rs:481-512 | end to end from registry to client: such a client lists exactly the registered devices, in dictionary order of their ids, after a change that projects them all |
| Coordinator.ProducedIsConsistent | src/daemon/src/application/bus/projections.rs:39-141 | one production never gives one key two values, given one registry entry per device id |
| Coordinator.FilterIsLossless | src/daemon/src/application/bus/coordinator.rs:78-116 | committing only the changed records leaves the unfiltered map if and only if no key that ends up unchanged also differs on the way |
| Coordinator.ConsistentFilter | src/daemon/src/application/bus/coordinator.rs:78-116 | consistent productions meet that condition and each produced value ends up on the bus |
| Coordinator.ProductionsFilterLosslesslyIff | src/daemon/src/application/bus/coordinator.rs:78-116 | for one registry state, the filter loses nothing of any production on any bus if and only if entries of one id are equal |
| Coordinator.TwoEntriesAreLossy | src/daemon/src/application/bus/projections.rs:39-141 | two different entries of one id and a bus on which their projection is filtered wrongly; the registry reserves each id once and so excludes it |
| Coordinator.EffectiveStatePublisher.Commit | src/daemon/src/application/bus/coordinator.rs:78-116 | publishes if and only if a record changed or a device went stale, with exactly those upserts and tombstones |
| Coordinator.EffectiveStatePublisher.Tombstones | src/daemon/src/application/bus/coordinator.rs:78-116 | exactly the device keys on the bus that a full device projection no longer produces |
| Coordinator.CommitIsExact | src/daemon/src/application/bus/coordinator.rs:78-116 | a commit leaves the unfiltered production minus stale devices, publishes only when that changes the map, and what it publishes is well formed |
| Coordinator.CommitShowsWorld | src/daemon/src/application/bus/projections.rs:39-141 | after a commit every produced value is on the bus and a full device projection leaves exactly the registry's devices |
| Coordinator.ChangeRefreshesExactly | src/daemon/src/application/bus/coordinator.rs:11-66 | for each of the 23 kinds of change: exactly the records it concerns then show the daemon, record by record and device by device, and every other record is as before |
| Coordinator.DaemonRunIsHistory | src/daemon/src/application/bus/coordinator.rs:73-116 | until the counter wraps the daemon publishes a well-formed stream of strictly increasing revisions |
| Coordinator.ClientListsTheRegistry | src/ui/src/domain/topic_store.rs:32-85 | end to end: a client caught up with a full device projection lists exactly the registered devices, in dictionary order of their ids |
| RunLoop.EngineConfigReceiver.Changed | src/daemon/src/application/run_loop.rs:82-104 | skips unrelated transactions and recovers from a lag by the snapshot; keeps the protocol's invariant, and when it would park what it holds is the config of the record on the bus, or the default while there is none |
| RunLoop.WaitKeeps | src/daemon/src/application/run_loop.rs:82-104 | waiting keeps the protocol's invariant from any state, a commit not yet broadcast included; with none, a wait that ends with nothing to receive leaves the config on the bus |
| RunLoop.DrainedReceiverIsCurrent | src/daemon/src/application/run_loop.rs:62-134 | in every interleaving with commits and losses, a receiver with nothing pending holds the config of the record on the bus |
| RunLoop.TurnIsExact | src/daemon/src/application/run_loop.rs:82-104 | up to 256 transactions behind, the receiver takes the next and reports it if and only if it carries a record of the topic, the first of which it then holds; further behind it goes on 256 from the end and reports what is on the bus |
| RunLoop.RecordMeansConfig | src/daemon/src/application/run_loop.rs:16-134 | what each engine reads out of its record: the fan tick and failsafe as configured, the frame interval the longest of which the rate, taken as 1 to 240, fits into a second; and the defaults |
| RunLoop.EngineRunLoopIdle | src/daemon/src/application/run_loop.rs:143-192 | the nested loops make exactly the ticks of the await-by-await specification, for every script of answers; the three rows below say which those are |
| RunLoop.EngineFollowsItsProgram | src/daemon/src/application/run_loop.rs:157-191 | at every moment of any dialogue the engine asks exactly the question the source asks, and makes one tick for each interval that ends, with the config last announced, its interval built from that config |
| RunLoop.OnlyHeededCount | src/daemon/src/application/run_loop.rs:157-191 | answers to questions that were not asked make no difference to the ticks |
| RunLoop.EngineTicksWhileThereIsWork | src/daemon/src/application/run_loop.rs:157-191 | with an enabled config, n ticks for n intervals with work; none once there is no more, until woken or reconfigured, and then again with the config in force; a disabled engine ticks once it is enabled |
| RunLoop.EveryTickIsCurrent | src/daemon/src/application/run_loop.rs:143-192 | every tick gets an enabled config, the very one its interval was built from |
| RunLoop.NoWorkNoTicks | src/daemon/src/application/run_loop.rs:143-192 | without work the engine never ticks, however often it is woken or reconfigured |
| EventCursor.UiTx.HandleBusEvent | src/ui/src/runtime/ipc.rs:454-475 | the compare-exchange loop queues an event if and only if its id is above the cursor, through any number of spurious failures |
| EventCursor.UiTx.HandleMessage | src/ui/src/runtime/ipc.rs:522-550 | a replay under a new session resets the cursor before its events, a live event does not |
| EventCursor.OffersAreFresh | src/ui/src/runtime/ipc.rs:454-475 | the ids queued from any list of events are strictly increasing and above the cursor, which ends at the highest seen |
| EventCursor.SessionQueuesOnce | src/ui/src/runtime/ipc.rs:522-550 | over any overlap of replays and live events of a session each id is queued at most once, in order |
| EventCursor.GaplessStreamIsDelivered | src/ui/src/runtime/ipc.rs:454-475 | over a gapless stream every id above the cursor is queued |
| EventCursor.NewSessionIsDelivered | src/ui/src/runtime/ipc.rs:533-550 | after a session change increasing ids from one up are all queued afresh |
| EventCursor.EachSessionQueuesOnce | src/daemon/src/application/ipc/mod.rs:492-512 | over any connections that each open with their replay, with any replays and live events after: what the connections to one daemon add to the queue is in strictly increasing order of ids, from one connection to the next too, so no id is queued twice |
| EventCursor.OvertakingQueuesOnceIff | src/ui/src/runtime/ipc.rs:533-550 | were increasing live events to come ahead of the replay of their new session, no id would be queued twice if and only if none above the cursor is in the replay |
| EventCursor.RaceAcceptsOnce | src/ui/src/runtime/ipc.rs:454-475 | concurrent callers never both accept one id, accept in increasing order, and leave the cursor above all |
| EventRelay.FrameKeepsWholeIff | src/ui/src/runtime/ipc.rs:522-550 | a replay or live event leaves a client that has everything up to its cursor with everything up to the new one if and only if it brings nothing or starts no later than the cursor |
| EventRelay.StepKeepsIff | src/daemon/src/application/ipc/mod.rs:639-699 | of publishing, broadcasting, subscribing, greeting, forwarding, lagging, a full queue, receiving and disconnecting, a step keeps that if and only if a replay's ring reaches back to the client or a live event is at most the next |
| EventRelay.WholeIff | src/daemon/src/application/bus/data_bus.rs:436-466 | over any run the client has every event up to its cursor, once and in order, at every moment and after every frame queued, if and only if no step passes an event over |
| EventRelay.EveryEventOnce | src/daemon/src/application/ipc/mod.rs:492-512 | with broadcasts in order and a ring that reaches back at every replay, a connected client whose forwarder runs and which has nothing left to receive or handle has every event exactly once and in order |
| EventRelay.GreetingIsExact | src/daemon/src/application/ipc/mod.rs:639-651 | the greeting replays exactly the events of the last 256 above the client's cursor, if that is of this session, in order |
| EventRelay.ForwardIsExact | src/daemon/src/application/ipc/mod.rs:680-699 | past 256 broadcasts behind, or with a full queue, the last 256 events are replayed; else the next broadcast is sent on; and where the forwarder then stands |
| EventRelay.SubscribesFromNow | src/daemon/src/application/ipc/mod.rs:493-512 | over any run a connection is sent on only what is broadcast after it subscribed |
| EventRelay.GivenUpIsDeaf | src/daemon/src/application/ipc/mod.rs:680-699 | from when its forwarder gives up until it disconnects, over any run, a client gets nothing but the frames queued by then |
| EventRelay.GivenUpMissesAnEvent | src/daemon/src/application/ipc/mod.rs:680-699 | a reachable state of a connected client that so lacks an event, with nothing queued for it |
| EventRelay.RacingPublishersLoseAnEvent | src/daemon/src/application/bus/data_bus.rs:436-450 | a reachable state in which a connected client with nothing left to receive lacks an event whose successor was broadcast first |
| Broker.Conn.Authenticate | src/broker/src/server.rs:261-285 | only the bootstrap token and a valid scope replace the capability; that closes every handle and keeps the id counters |
| Broker.Conn.Renew | src/broker/src/server.rs:287-307 | renews only an unexpired capability named by its id, under its own scope, and touches no handle |
| Broker.Conn.Authorize | src/broker/src/server.rs:309-332 | charges one operation exactly when it is in time, in scope, in budget and in rate |
| Broker.Conn.Serve | src/broker/src/server.rs:356-419 | one frame: authenticate, renew, or authorize and only then dispatch; GrantedOperationDoesWhatItAsks says what a dispatched operation does |
| Broker.ScopeIsGrantedIff | src/broker/src/server.rs:606-650 | an SMBus scope is granted if and only if its bus is enumerated and it names an address; its 256-address limit can never refuse it; limits are clamped and kept when in range |
| Broker.ServeKeeps | src/broker/src/server.rs:260-344 | one request keeps the invariant on handles, budget, rate window and issued ids |
| Broker.CapabilityIsGrantedIff | src/broker/src/server.rs:261-307 | a capability is granted exactly for the bootstrap secret with a grantable scope, or to renew an unexpired capability under its own scope; authenticating closes every handle, renewing none, and nothing else changes identity or expiry |
| Broker.UngrantedTellsWhy | src/broker/src/server.rs:261-307 | an authenticate or renew that is not granted changes nothing and names the first thing wrong with it |
| Broker.ExpiredConnectionIsDead | src/broker/src/server.rs:287-332 | from the moment its capability expires until it authenticates again a connection grants, opens, performs and changes nothing, over any run of requests |
| Broker.OpenedHandleIsNew | src/broker/src/server.rs:335-349 | a handle just opened is none still open and none ever issued on the connection |
| Broker.EffectsStayInScope | src/broker/src/server.rs:423-604 | on every run what reaches hardware is the scoped bus at a scoped address with a block of 1 to 32 bytes, or the scoped kind of register module with a slot in range, and the dispatcher's own scope checks never refuse anything |
| Broker.GrantedOperationDoesWhatItAsks | src/broker/src/server.rs:423-604 | on every run a chargeable operation does exactly what it asks: that transfer, register read or LPC call with its very operands, on the scoped bus or module, if and only if its handle is open; or opens the next handle if there is room and the device layer can; any other operation does nothing |
| Broker.HandleIdsAreNeverReissued | src/broker/src/server.rs:335-349 | handle ids strictly increase for the life of a connection, across re-authentication, and at most 64 of a kind are open |
| Broker.OperationsAreAccounted | src/broker/src/server.rs:309-332 | since the last authenticate or renew: granted plus remaining is the clamped total, every grant is within the time to live, and no second holds more than twice the rate |
| BrokerRate.SecondIsBounded | src/broker/src/server.rs:261-332 | over any run with any scopes, a second sees at most what the capability from before it allows across two windows plus, for each authenticate or renew in it, what that one allows in its first |
| BrokerRate.WorstSecond | src/broker/src/server.rs:287-332 | for every scope that can be granted and every m, the most operations a second with m authenticates and renews can see is exactly min(total, 2 rate) + m min(total, rate): no run exceeds it and a run reaches it |
| BrokerRate.RateHoldsIff | src/broker/src/server.rs:287-332 | the rate bounds every second with at most m authenticates and renews, over all runs, if and only if (m + 1) totals are within it |
| BrokerRate.RenewalsExceedAnyBound | src/broker/src/server.rs:287-307 | for every scope that can be granted and every number, some second of some run sees more operations |
| RelativePath.NormalizedRelativePath | src/plugin-signing/src/lib.rs:773-788 | the component loop returns the joined components or the fault of the first bad one |
| RelativePath.NormalizedIsNormal | src/plugin-signing/src/lib.rs:773-788 | an accepted path comes out below its root with no empty, dot or dot-dot piece, and exactly the normal paths come out unchanged |
| RelativePath.NormalizingSettles | src/plugin-signing/src/lib.rs:773-788 | normalising a path twice is normalising it once |
| RelativePath.NormalizesExactly | src/plugin-signing/src/lib.rs:773-788 | accepted are exactly the relative paths that do not begin with a dot piece and have no dot-dot or non-UTF-8 piece; empty and dot pieces go, the others stay in order |
| RelativePath.FaultIsOfTheFirst | src/plugin-signing/src/lib.rs:773-788 | a path turned down is so for its first piece that may not stand there |
| PackageHash.NormalizeForHash | src/plugin-signing/src/lib.rs:630-646 | the index loop turns CR LF pairs into LF and leaves anything with a NUL alone |
| PackageHash.LineEndingsAreIgnoredIff | src/plugin-signing/src/lib.rs:627-646 | a CR LF checkout hashes like the LF one exactly for text free of CR LF and for binaries free of LF |
| PackageHash.NormalizingSettlesIff | src/plugin-signing/src/lib.rs:630-646 | normalising twice is normalising once exactly for binaries and for text without CR CR LF |
| PackageHash.FeedPackageHash | src/plugin-signing/src/lib.rs:603-625 | the sort and the feeding loop produce the specified stream, or the first bad path's fault; the two rows below say what it holds |
| PackageHash.ListingOf | src/plugin-signing/src/lib.rs:603-613 | what is streamed are exactly the walked files, normalised, in dictionary order of their paths |
| PackageHash.StreamIsLaidOut | src/plugin-signing/src/lib.rs:613-624 | byte by byte: each path, a NUL, the length in eight bytes from the lowest, the content, entry straight after entry and nothing else |
| PackageHash.StreamIsInjective | src/plugin-signing/src/lib.rs:613-624 | the stream can be cut back into paths and contents in only one way, for NUL-free paths and 64-bit lengths |
| PackageHash.SameBytesIffSamePackage | src/plugin-signing/src/lib.rs:603-646 | two directories feed the digest the same bytes if and only if they map the same paths to the same normalised contents, in any walk order |
| Bundle.WriteBundle | src/plugin-signing/src/lib.rs:148-178 | appends magic, metadata entry, sorted files and end mark, or the first refused path; the two rows below say which bytes and which order |
| Bundle.BundleIsLaidOut | src/plugin-signing/src/lib.rs:159-247 | byte by byte: HALODPLUG1 and a line feed, then for each file the path's length in four bytes from the highest, the path, the content's length in eight and the content, then four zeros |
| Bundle.ListingIsInOrder | src/plugin-signing/src/lib.rs:159-174 | the metadata comes first under its name, then exactly the walked files, compared component by component in dictionary order |
| Bundle.ExtractBundle | src/plugin-signing/src/lib.rs:183-235 | terminates on any bytes with the specified files and metadata or the first fault |
| Bundle.EntryIsTakenIff | src/plugin-signing/src/lib.rs:198-229 | which of end, fault and file an entry gives, for each, exactly when |
| Bundle.TruncationIsNoticed | src/plugin-signing/src/lib.rs:183-235 | a bundle of files that fit, cut short anywhere, is turned down as truncated |
| Bundle.LastMetadataCounts | src/plugin-signing/src/lib.rs:222-234 | metadata that does not parse ends the extraction; of several entries that do, the last counts |
| Bundle.BundleIsDeterministic | src/plugin-signing/src/lib.rs:159-160 | the bundle does not depend on the order of the directory walk |
| Bundle.RoundTripIff | src/plugin-signing/src/lib.rs:148-247 | extracting what was written returns exactly the files and metadata if and only if every path is normal, UTF-8, at most 4096 bytes and not the metadata path, and no entry exceeds 64 MiB |
| Bundle.ExtractionStaysBelow | src/plugin-signing/src/lib.rs:198-229 | whatever the bytes, and even on failure, every file written has a normal path that is not the metadata entry |
| ZoneTransform.IsBijection | src/shared/src/zone_transform.rs:154-163 | true if and only if its argument is a permutation |
| ZoneTransform.FlipPermutation | src/shared/src/zone_transform.rs:116-152 | the nearest-neighbour loops compute the reflection, with the identity when that is no permutation; FlipShowsTheOtherSide and FlipTakesTheNearest say which that is |
| ZoneTransform.BuildPermutation | src/shared/src/zone_transform.rs:86-114 | the method computes the specified permutation for every topology, ring by ring; the rows on rings and flips say which that is |
| ZoneTransform.PermutationIsOne | src/shared/src/zone_transform.rs:86-152 | for every topology, transform and LED count the result is a permutation of 0..n |
| ZoneTransform.ColorsAreConserved | src/shared/src/zone_transform.rs:165-182 | transforming colours keeps their multiset when the lengths match |
| ZoneTransform.TransformColors | src/shared/src/zone_transform.rs:165-182 | output i is the colour at the permuted index, black where there is none; which index that is the rows on permutations say |
| ZoneTransform.RingFollowsOffset | src/shared/src/zone_transform.rs:32-44 | with offset k the first LED shows LED k, reversed the one before it, and the colours then go up, reversed down, round the ring |
| ZoneTransform.RingSourceIs | src/shared/src/zone_transform.rs:32-44 | for any offset an LED's source is its own place in the ring, or counted backwards, moved on by the offset and whole turns |
| ZoneTransform.RingsTurnEach | src/shared/src/zone_transform.rs:86-107 | of equal rings each is turned on its own, from the ring of its number, or when swapped of its number from the end |
| ZoneTransform.TwiceIsIdentityIff | src/shared/src/zone_transform.rs:32-44 | turning rings twice is the identity if and only if they are reversed, uneven, or twice the offset is whole turns |
| ZoneTransform.ColorsComeBackIff | src/shared/src/zone_transform.rs:165-182 | applying a transform twice gives back all colours of every zone's length if and only if its permutation is its own inverse |
| ZoneTransform.FlipIsMirrorIff | src/shared/src/zone_transform.rs:116-152 | on distinct positions the flip is the mirror map if and only if the layout is symmetric, and then it is an involution |
| ZoneTransform.FlipShowsTheOtherSide | src/shared/src/zone_transform.rs:116-152 | on distinct positions, every LED of a zone that is no ring is sent to the LED as far from the right as it is from the left when flipped horizontally, and from the bottom as it is from the top when vertically, at the same place otherwise, if and only if each has such an LED |
| ZoneTransform.FlipTakesTheNearest | src/shared/src/zone_transform.rs:116-152 | on any positions a flip sends each LED to the first that is nearest to the place opposite, by distance squared, if that is a permutation, and else leaves all in place |
| ZoneTransform.BoundsAreTight | src/shared/src/zone_transform.rs:120-129 | the computed box holds every LED and each side touches one |
| Image.RotateRgbaSquare | src/daemon/src/util/image.rs:239-260 | the pixel loop draws every pixel from where the opposite turn puts it; non-squares and zero turns are copied |
| Image.RotationsAddUp | src/daemon/src/util/image.rs:239-260 | turning by a and then by b is turning by a + b for all multiples of 90, so 270 undoes 90 and four quarter turns are the identity |
| Image.TurnsClockwise | src/daemon/src/util/image.rs:248-253 | a quarter turn takes the top row to the right column and the right column to the bottom row |
| Image.TurnsCells | src/daemon/src/util/image.rs:246-257 | where each of the three turns takes every row and column |
| Image.PixelsMoveWhole | src/daemon/src/util/image.rs:246-258 | each 4-byte pixel arrives intact at its destination and no other pixel goes there |
| Supervisor.StepKeeps | src/daemon/src/application/task_supervisor.rs:80-178 | every step of managers, children, clocks and shutdown keeps the invariant |
| Supervisor.AtMostThreeChildrenOneAtATime | src/daemon/src/application/task_supervisor.rs:80-152 | a manager starts at most three children, never has two alive, and waits one second, then two, before a restart |
| Supervisor.ManagerFollowsItsProgram | src/daemon/src/application/task_supervisor.rs:80-152 | over any run a manager can make exactly the move its text has next: start a child unless asked to stop, report its end, pause and begin again until the third failure, and once signalled stop the child, wait for it and leave |
| Supervisor.FailureIsTheChilds | src/daemon/src/application/task_supervisor.rs:118-125 | the failure published is how that child ended |
| Supervisor.ShutdownSettles | src/daemon/src/application/task_supervisor.rs:161-178 | when shutdown returns every manager has ended, Stopped or Failed, timed out exactly when its join did, gave up only after three failures, and no child runs unaborted |
| Supervisor.ShutdownAdvances | src/daemon/src/application/task_supervisor.rs:161-178 | each step of a shutdown brings it closer to its end, by a count that nothing else moves |
| Supervisor.AskedIsSignalled | src/daemon/src/application/task_supervisor.rs:161-164 | once shutdown has asked a task, its manager is signalled until it takes that in, whatever it does meanwhile |
| Supervisor.ShutdownGoesOn | src/daemon/src/application/task_supervisor.rs:161-178 | until it has ended, it can take a step, or the manager it waits for after aborting it can |
| Supervisor.StoppedIsLeftIff | src/daemon/src/application/task_supervisor.rs:161-178 | Stopped is left exactly when shutdown writes its timeout over it |
| Supervisor.StoppedIsNotAbsorbing | src/daemon/src/application/task_supervisor.rs:161-178 | a reachable state in which that happens |
| LogFile.ShiftRotations | src/broker/src/log_file.rs:49-55 | an exact shift by one for every keep of at least one, with gaps |
| LogFile.FileLogger.Log | src/broker/src/log_file.rs:81-100 | appends the line of an enabled record and rotates at the cap; a trace record changes nothing |
| LogFile.RotatesExactlyAtTheCap | src/broker/src/log_file.rs:86-95 | on any run a line is only appended while the live file stays below five mebibytes; else every file becomes one older and the live one starts empty |
| LogFile.DiskIsASuffix | src/broker/src/log_file.rs:46-100 | the files oldest to newest are always a suffix of everything logged, losing only whole oldest files, and `written` is the live length |
| LogFile.DiskStaysBounded | src/broker/src/log_file.rs:8-23 | from a log below the cap every rotated file stays under the cap and one line, and the whole under four caps and three lines |
| ServiceAcl.ReplaceCoordinatorAce | src/broker/src/service.rs:142-175 | the scanning loop computes the specified rewrite |
| ServiceAcl.RewriteIsExact | src/broker/src/service.rs:140-175 | fails exactly without a DACL; else the new entry comes first, then the entries that stay in order, and all text around them and outside the DACL is unchanged |
| ServiceAcl.OnlyTheGrantIsLeft | src/broker/src/service.rs:107-175 | afterwards the coordinator's first entry is the start and query grant, no other entry is for it or for interactive users, and every entry for anyone else is still there |
| ServiceAcl.DaclIsBetween | src/broker/src/service.rs:143-148 | the DACL lies between the first D: and the next S: or the end; without a D: there is none |
| ServiceAcl.RewritingSettles | src/broker/src/service.rs:142-175 | rewriting the result gives its trimmed self, for every descriptor |
| ServiceAcl.RewritingSettlesIff | src/broker/src/service.rs:142-175 | rewriting the result gives the result if and only if something follows the DACL, or nothing of it was kept, or what was kept does not end in white space |
| ServiceAcl.SpaceIsLeftBehind | src/broker/src/service.rs:142-175 | descriptors for which it does not: a space before an only entry that goes |
| ServiceAcl.TwiceIsOnce | src/broker/src/service.rs:123-126 | without white space, as the caller passes it, rewriting twice is rewriting once |
| Curve.DutyStaysInRange | src/shared/src/curve.rs:12-36 | the duty stays between the least and the greatest duty, sorted or not; an empty curve gives zero |
| Curve.DutyRises | src/shared/src/curve.rs:12-36 | on sorted temperatures with rising duties a hotter sensor never gets less |
| Curve.DutyIsOnTheLine | src/shared/src/curve.rs:24-33 | between two points of a sorted curve the duty is on the straight line through them |
| Curve.PassesThroughPoints | src/shared/src/curve.rs:12-36 | at a temperature several points share, which of them decides |
| Curve.PassesThroughEveryPoint | src/shared/src/curve.rs:12-36 | with strictly increasing temperatures the curve passes through every point |

## Left out

- Retry timing: the time of the last failure, `respawn_due` and `elapsed` are not modelled, and waits are numbers handed out with attempts rather than time passing.
- Wall-clock liveness and fairness: nothing is claimed about when a step happens, only about what every order of steps does.
- JSON equality of bus values is equality of values, and serialised payloads are opaque text.
- Bus subscriptions by prefix, of which the GUI asks none, frames too large to encode, sensors and plugin data records: plugin records share the revision counter, which the model counts as other publications.
- One registry entry per device id is assumed where device listings are claimed; the registry itself is not part of this model.
- Revisions: the stream results hold until the 64-bit counter wraps; what happens at the wrap is stated on its own. Event ids are not taken round their counter.
- Sessions of event streams: a client is taken never to meet the session number of an earlier daemon again, which is drawn from clock and process id.
- Floating point: LED coordinates, temperatures and duties are reals, so rounding, infinities and not-a-number values are not modelled.
- Broker: hardware transfers themselves, the idle watchdog, the client gate and frame encoding; one clock reading serves a whole request, and register offsets and ports carry no range check in the source either.
- Tokens and capability ids are compared as strings; constant-time comparison and the random generator are not modelled.
- SHA-256, signatures, YAML and UTF-8 validation are opaque: digests are replaced by the bytes fed to them, the codec and the UTF-8 check are parameters.
- Paths follow the Unix rules for components; Windows prefixes and separators are not modelled.
- Directory walk, symlink rejection, manifest validation, temporary files and write failures of bundles; a file and a directory of one name cannot come from a walk, and their clash on extraction is not modelled.
- Bundle.RoundTripIff: assumes each path occurs once, lengths below 2^64 and a serialiser that reads back its own metadata, as a directory walk and YAML give.
- Image sizes for which n * n * 4 overflows the machine word.
- Ring indices: machine-word saturation in `ring_slice` cannot be reached below the LED counts memory allows and is not modelled.
- Supervisor: a manager that itself panics, notification contents and the two- and three-second clocks, whose timeouts may fire at any moment here.
- Log rotation under failing file operations, and the copy of each line to standard error.
- Log writes and descriptor text count characters as bytes.
- The daemon's own logger, which rotates the same way, and everything in user interface, device drivers, effects and configuration files.
