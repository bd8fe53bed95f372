# Verification of wire-connect's protocols

A Dafny model of the stateful protocols of wire-connect and of the smaller
algorithms they rest on, with machine-checked proofs of what they promise.
`dafny verify dfyconfig.toml` checks everything.

What the source changes step by step is a class with methods here: the update
helper's directory, the control session, the rendezvous server, the transport's
slots and counters, the two ends of a pairing, the packet bridge, the setup plan.
Where several goroutines share state, the class methods are the sections under the
lock and a second module lets the steps between those sections interleave freely.
Failures of the operating system, the network and the random source are
nondeterministic; a theorem that needs their absence says so.

| files | what they model |
|---|---|
| `Volume.dfy`, `WindowsReplace.dfy` | crash-safe replacement of several files, its validation and its rollback |
| `ReplayWindow.dfy`, `Session.dfy`, `SessionNetwork.dfy` | the authenticated session, its replay window, and any number of sessions on a hostile network |
| `ControlState.dfy`, `ControlRules.dfy`, `ControlServer.dfy` | the rendezvous server: state file, rooms, commits, leases, revocation, restart |
| `ControlSockets.dfy` | room and pair sockets attaching, forwarding and detaching between the server's critical sections |
| `BindPaths.dfy`, `BindRuns.dfy` | the path slots of the transport, and everything that changes them running at once |
| `BindTraffic.dfy`, `BindTrafficRuns.dfy` | the transport's byte counters and receive queue, and sends, arrivals, callbacks, `Open`, `Close` and `Shutdown` running at once |
| `PairWire.dfy`, `Pairing.dfy` | encodings of the pairing protocol, and host and guest running it |
| `AddressPlan.dfy`, `Negotiation.dfy` | drawing a pair of addresses, and agreeing on one |
| `Semver.dfy` | version precedence |
| `SystemdUnit.dfy` | printing the `ExecStart` line, and what systemd reads from it |
| `HelperFrames.dfy`, `HelperTails.dfy`, `HelperBridge.dfy` | frames of the network helper, what a partial frame does to a stream with several writers, and the packet bridge |
| `SetupPlan.dfy` | setup steps with reverse rollback |
| `Common.dfy`, `Words.dfy` | shared types; machine words and big-endian bytes as numbers |

## Results that differ from what one might expect

* Rollback of an update does not always restore what was there: a target that held its
  new bytes before the update is recorded as installed, deleted, and has no backup.
  `WindowsReplace.RollbackRestoresIff` gives the exact condition for every target,
  `WindowsReplace.UnchangedRuntimeIsLost` an instance, and
  `WindowsReplace.RetryAfterRollbackIff` says when the same transaction can be run again.
* The helper's bridge has two loops that write on one connection, and each ends only on its own
  failure, so one may send behind a frame the other one left half written. The reader then sees
  only whole frames of what was sent exactly if the fragment is harmless: empty, three zero
  bytes, or at most three zero bytes followed by events (`HelperTails.SurvivesIff`,
  `HelperBridge.WireSurvivesIff`). `HelperBridge.SpoiledPacket` is an instance in which an event
  completes a packet the device never produced. `proxy.Write` has the same condition, because it
  does not close the connection after an error.
* The `--network` check looks at the address as it was typed. `100.64.0.0/9` passes it and
  lets the host propose `100.0.0.1` (`AddressPlan.GuardedButPublic`); all proposals are private
  exactly if the prefix's first address is (`AddressPlan.ProposalsPrivateIff`).
* The comment in `internal/control/control.go:920-922` promises a newly connected client a
  first-message barrier. The order it gives holds in the queue of the partner
  (`ControlSockets.ArrivalComesFirst`). In the new socket's own queue it holds in every further run
  exactly if, when the socket attached, no partner was there, or one that still had to queue its own
  arrival with its queue full (`ControlSockets.OwnBarrierIff`);
  `ControlSockets.OwnArrivalMayComeSecond` is a run in which it fails.
* The comment in `internal/transport/bind.go:649-651` says that every receive callback of a closed
  generation returns `net.ErrClosed`. One that has passed its last test just before still returns a
  packet: a closed generation hands out nothing more exactly if none has
  (`BindTrafficRuns.ClosedIsSilentIff`), and while a generation is open this can always come about
  (`BindTrafficRuns.CloseMayComeLate`). What this means for the order of packets is in
  `BindTrafficRuns.InOrderIff`.
* The version pattern accepts numeric prerelease identifiers with leading zeros, which
  Semantic Versioning 2.0.0, section 9, forbids. Of the texts it accepts, exactly those without
  such an identifier are versions of the standard (`Semver.StandardIff`);
  `1.2.0-01` is one of the others (`Semver.LeadingZeroExample`).

## Model

| member | source | states |
|---|---|---|
| `WindowsReplace.ValidateSources` | internal/update/replace_windows.go:722-805 | changes nothing, and succeeds exactly on an acceptable directory when no check fails and nobody kills the process; each other ending says which it was |
| `WindowsReplace.ReachedIsAccepted` | internal/update/replace_windows.go:722-805 | every state a crash can leave between two file operations passes the validation of the next run |
| `WindowsReplace.HandOver` | internal/update/replace_windows.go:930-950 | the two renames of one file never overwrite anything, and wherever they stop the old bytes or the new ones are in place; a failed rename asks for a rollback, a kill never does, and without either the file is installed |
| `WindowsReplace.ReplaceOne` | internal/update/replace_windows.go:863-953 | one turn of the loop, from any stage of that file: which failure asks for a rollback and which only stops the run, what it leaves, what it records for rollback, and that no state in between loses the old file |
| `WindowsReplace.Sweep` | internal/update/replace_windows.go:863-953 | deleting backups moves the transaction forward only, and without faults removes all of them |
| `WindowsReplace.Apply` | internal/update/replace_windows.go:863-953 | from every crash state, the result is exactly what the operations that failed make of it: a failed rename or a failed look at the source is rolled back, any other failure stops the run, a kill interrupts it, and with none of these it completes; a rollback leaves exactly the rolled-back state, any other end a crash state again; no rename overwrites, other files are untouched, the old executable is never lost |
| `WindowsReplace.UndoOne` | internal/update/replace_windows.go:1011-1038 | undoing one record puts back its file, or notes an error exactly when one of its operations failed in a way that counts, and keeps the file safe meanwhile |
| `WindowsReplace.Rollback` | internal/update/replace_windows.go:1011-1038 | newest record first and on past errors; clean exactly when no error was noted, interrupted exactly by a kill; clean, every record is undone, and every state on the way is safe |
| `WindowsReplace.RunHelper` | internal/update/replace_windows.go:722-953 | validation followed by a run: what failed before the validation ended refuses the run, what failed later decides the result as in `Apply`; validation never refuses a crash state for what it holds |
| `WindowsReplace.Recovers` | internal/update/replace_windows.go:722-805 | after any rollback, clean, failed or interrupted, the next validation refuses the directory, or it is a crash state of a staging that lacks at most targets which were new from the start |
| `WindowsReplace.RunOnce` | internal/update/replace_windows.go:722-953 | one run from wherever a transaction stands: its result is exactly what failed in it, it completes without faults if validation accepts, changes nothing if it refuses, leaves the transaction standing, and keeps it acceptable unless it rolls back |
| `WindowsReplace.RunRepeatedly` | internal/update/replace_windows.go:722-1038 | any number of runs, each after a kill, an error or any outcome of a rollback: every result is what failed in its run, no old file of the original staging is ever lost, other files are untouched, and a run without faults on an accepted directory completes; until some run rolls back validation accepts every time, so a last run without faults completes |
| `WindowsReplace.CompletedInstallsAll` | internal/update/replace_windows.go:863-953 | a completed transaction has the new bytes at every target, no backup, and everything else as it was |
| `WindowsReplace.RollbackRestoresIff` | internal/update/replace_windows.go:915-925 | for each target, a rollback without errors restores it exactly if it is not an already new one before the failing file, nor one behind it that an earlier run replaced; after crashes alone all are restored exactly if none before the failing file was already new |
| `WindowsReplace.RetryAfterRollbackIff` | internal/update/replace_windows.go:722-805 | the same transaction is accepted again after a rollback if and only if the first file was the one that failed |
| `WindowsReplace.UnchangedRuntimeIsLost` | internal/update/replace_windows.go:1011-1038 | an update whose second file was already new and whose third fails loses the second |
| `ReplayWindow.AvailableIsFresh` | internal/secure/session.go:383-392 | the test on the 64-bit word accepts a number exactly if it was never accepted and is less than 64 below every accepted one |
| `ReplayWindow.SlideFits` | internal/secure/session.go:394-409 | shifting the word keeps it a faithful image of the set of accepted numbers, also for shifts of 64 and more |
| `ReplayWindow.MarkFits` | internal/secure/session.go:410-415 | setting one bit adds exactly one number to that image |
| `SecureSession.Session.constructor` | internal/secure/session.go:80-111 | a new session has the keys of its role's root and context and has accepted nothing |
| `SecureSession.Session.Hello` | internal/secure/session.go:116-165 | one challenge per session, repeated as is; succeeds exactly while open, with a challenge that is not all zero, and goes out authentic for the other side |
| `SecureSession.Session.AcceptHello` | internal/secure/session.go:170-212 | accepts once, exactly an authentic hello of the other role for this context with another challenge, and then has both traffic keys |
| `SecureSession.Session.DeriveTraffic` | internal/secure/session.go:328-370 | both traffic keys depend on root, both challenges in host-guest order, and the sender |
| `SecureSession.Session.Seal` | internal/secure/session.go:217-258 | succeeds exactly while open, ready, below the last number and within the size limit; numbers frames consecutively and seals under the next nonce |
| `SecureSession.Session.SequenceAvailable` | internal/secure/session.go:383-392 | agrees with the unbounded set of accepted numbers |
| `SecureSession.Session.MarkSequence` | internal/secure/session.go:394-415 | records exactly one more accepted number |
| `SecureSession.Session.Open` | internal/secure/session.go:262-298 | succeeds exactly for a well-formed frame of the other role whose number was never accepted and is less than 64 below every accepted one, with a body sealed under the receiving key for just this header, number and context; records the number only then |
| `SecureSession.Session.Close` | internal/secure/session.go:301-326 | wipes every key and is idempotent |
| `SessionNetwork.StepKeeps` | internal/secure/session.go:116-326 | every action of sessions and network keeps the invariant of the whole world |
| `SessionNetwork.OpenedWasSealed` | internal/secure/session.go:217-298 | on every run, what a session opens was sealed by the one opposite session with the same two challenges, never by itself, and is opened at most once |
| `SessionNetwork.FreshFrameOpens` | internal/secure/session.go:262-298 | in any reachable world, a frame sealed under the key a session receives with, not opened yet and less than 64 below every number opened, is opened to what was sealed, in whatever order the network delivers |
| `SessionNetwork.SealedGoesOut` | internal/secure/session.go:217-258 | in any reachable world, what a ready session seals is on the network under its next number and on record as its own |
| `SessionNetwork.NonceNeverReused` | internal/secure/session.go:443-448 | no key and nonce are ever used for two frames |
| `SessionNetwork.HandshakeAgrees` | internal/secure/session.go:170-212 | in every reachable world, a host and a guest of one root and context that hear each other's hellos hold the same two different traffic keys, start at number 0 with nothing accepted, and from then on each refuses every hello |
| `SessionNetwork.GreetingGoesOut` | internal/secure/session.go:116-165 | a session that greets with a fresh challenge puts a hello on the network that every session of the other role, root and context accepts but for its own challenge |
| `SessionNetwork.HandshakeInNetwork` | internal/secure/session.go:116-212 | such a handshake can take place in the network itself, and leaves both sessions ready for each other |
| `SessionNetwork.HandshakeDelivers` | internal/secure/session.go:170-298 | after such a handshake everything sealed in either direction is opened to what was sealed, in any order within the window |
| `SessionNetwork.WindowDelivery` | internal/secure/session.go:217-298 | frames that arrive in any order, none twice and none after one 64 or more above it, some perhaps never, are all opened to what was sealed |
| `SessionNetwork.LosslessDelivery` | internal/secure/session.go:217-298 | in order and without loss, what is opened is what was sealed |
| `ControlState.ListOf` | internal/control/state.go:171-187 | the sorted list holds exactly the entries of the map |
| `ControlState.Snapshot` | internal/control/state.go:159-190 | the saved document lists exactly the devices and pairs in memory |
| `ControlState.FileIsProjection` | internal/control/state.go:171-190 | memory determines the state file completely |
| `ControlState.LoadDevices` | internal/control/state.go:116-131 | accepts exactly the device lists that pass every check, and builds their token index |
| `ControlState.LoadPairs` | internal/control/state.go:132-155 | accepts exactly the pair lists that pass every check, counts per device included |
| `ControlState.Load` | internal/control/state.go:61-157 | succeeds exactly on loadable files |
| `ControlState.SnapshotIsLoadable` | internal/control/state.go:61-247 | whatever a valid memory saves passes every check on loading |
| `ControlState.LoadRestores` | internal/control/state.go:61-247 | loading brings back the devices, the token index and the pairs that were saved |
| `ControlRules.RemovedRoomCounts` | internal/control/control.go:1293-1299 | decrementing keeps every device's count equal to the rooms it hosts |
| `ControlRules.AddedRoomCounts` | internal/control/control.go:655-662 | so does counting a new room |
| `ControlRules.SettledRoomFits` | internal/control/control.go:1199-1204 | a room both sides of which submitted one identifier yields an agreed pair that fits the durable state |
| `ControlRules.NothingNamesRevoked` | internal/control/control.go:326-356 | once its rooms and leases are gone a device can be revoked without breaking an invariant |
| `ControlServer.Server.constructor` | internal/control/control.go:205-274 | a fresh state directory starts with a valid server without rooms, leases, devices and pairs, with the limits asked for or their defaults |
| `ControlServer.Server.SaveState` | internal/control/state.go:159-247 | the state file is replaced as a whole or not at all |
| `ControlServer.Server.Login` | internal/control/control.go:496-586 | enrolls exactly under the enrollment credential, below the limit, with the first unused device and token drawn and a save that works; each error exactly under its condition, leaving memory and file as they were |
| `ControlServer.Server.RemoveExpiredRooms` | internal/control/control.go:1258-1273 | removes exactly the expired rooms, counts included |
| `ControlServer.Server.CreateRoom` | internal/control/control.go:588-668 | once expired rooms are gone, the new room, under the identifier asked for or the first unused one drawn, or each limit's error exactly under its condition; every other open room stays as it was |
| `ControlServer.Server.JoinRoom` | internal/control/control.go:861-914 | each answer exactly under its condition: success for an open room, a free slot and the right device; the first guest is bound for good and is never the host |
| `ControlServer.Server.Commit` | internal/control/control.go:753-859 | every refusal, limit, failure and both positive answers exactly under their conditions; a positive answer to commit means the pair is in the state file and names the caller; an error leaves everything as it was; a retry after the room is gone is answered from the stored pair |
| `ControlServer.Server.Refusal` | internal/control/control.go:789-826 | each of the four refusals exactly under its condition, and without one the submission fits room and pairs |
| `ControlServer.Server.Submit` | internal/control/control.go:807-859 | a submission that does not settle the room is kept; one that does is kept with its pair, or undone exactly when a limit is reached or the save fails |
| `ControlServer.Server.StorePair` | internal/control/control.go:827-855 | stores the pair in memory and file, or neither; each limit and the failed save exactly under its condition |
| `ControlServer.Server.RegisterRelay` | internal/control/control.go:708-751 | once expired leases are gone, each answer exactly under its condition: a key has one owner, a device at most four leases, other leases stay |
| `ControlServer.Server.AllowedRelayKey` | internal/control/control.go:367-388 | allows exactly unexpired leases, whose device is then not revoked; a lease found expired is dropped, every other stays |
| `ControlServer.Server.Disable` | internal/control/control.go:326-350 | marks the device and drops its leases, or restores both when the save fails |
| `ControlServer.Server.Revoke` | internal/control/control.go:314-362 | each answer exactly under its condition; on success exactly the rooms and leases naming the device are gone and its pairs stay; on failure nothing changed |
| `ControlServer.Server.CleanUp` | internal/control/control.go:404-434 | removes exactly the expired rooms and leases |
| `ControlServer.Server.CloseServer` | internal/control/control.go:283-309 | forgets rooms and leases, keeps devices and pairs |
| `ControlServer.Server.Restart` | internal/control/control.go:205-274 | comes back with the same devices, index and pairs, or not at all for another enrollment token |
| `ControlServer.StoredPairWasAgreed` | internal/control/control.go:753-859 | every pair in the state file joins two distinct devices that shared a room and both submitted its identifier there |
| `ControlServer.Serve` | internal/control/control.go:283-859 | over every run with failed saves, expiry, revocation, closing and restarts: counts, limits, ownership and durability hold, no pair is removed or rebound, no revocation undone |
| `ControlServer.CommittedIsDurable` | internal/control/control.go:753-859 | after a positive answer to commit and any run of requests, closings and restarts, both devices are still bound by the same pair in memory and file, and either, unless revoked, is told so again without an open room |
| `ControlSockets.WsPeer.Select` | internal/control/websocket.go:88-98 | the queue takes the message, drops it on a stopped socket, or stops the socket when full |
| `ControlSockets.Slots.Attach` | internal/control/control.go:898-916 | takes the slot exactly for the right device and a free slot, binds the first guest, finds exactly the partner that is there and not stopped, and goes on to tell both |
| `ControlSockets.Slots.Forward` | internal/control/control.go:1048-1065 | the partner exactly while source and partner both hold their seats and are not stopped |
| `ControlSockets.Slots.Detach` | internal/control/control.go:1086-1116 | clears the seat only if the socket still has it, and then goes on to tell the partner, stopped or not |
| `ControlSockets.StepKeeps` | internal/control/control.go:893-1148 | every step of every goroutine keeps the invariant of records, seats and queues |
| `ControlSockets.OnlyToThePartner` | internal/control/control.go:1048-1084 | on every run a message is queued only on a socket that sat opposite its source, at that record's other device, once, and in read order |
| `ControlSockets.ForwardedAcross` | internal/control/control.go:1048-1084 | in every reachable world, a message read while both occupants sit opposite each other, not stopped, is on its way to the other one |
| `ControlSockets.QueuedIfRoom` | internal/control/websocket.go:78-99 | a message on its way to a socket that is not stopped and has fewer than 32 waiting is queued there, behind what waits |
| `ControlSockets.NothingIsLost` | internal/control/control.go:1048-1084 | over every run in which two sockets keep their seats and neither stops, every message one reads reaches the other's queue, without a gap |
| `ControlSockets.ForwardsBetweenOccupants` | internal/control/control.go:1048-1084 | a forward is decided only between the two current occupants of one record |
| `ControlSockets.ArrivalComesFirst` | internal/control/control.go:919-932 | no message of a new socket precedes its connected=true in the queue of the partner it found |
| `ControlSockets.ArrivalIsTold` | internal/control/control.go:919-932 | on every run, a new socket that found a partner and is done telling has told itself and the partner, each unless stopped |
| `ControlSockets.LeavingIsTold` | internal/control/control.go:1086-1148 | a socket that gives up its own seat goes on to tell whoever sits opposite |
| `ControlSockets.LiveSocketKeepsSeat` | internal/control/control.go:1086-1148 | no late detach clears the seat of a socket that is not stopped |
| `ControlSockets.QueueIsSuffix` | internal/control/websocket.go:78-145 | what was admitted for a client is what its write loop has taken, in that order, and then what waits, at most 32 messages |
| `ControlSockets.OwnBarrierIff` | internal/control/control.go:919-932 | a new socket is told of its partner before the partner's messages in every run that follows, if and only if, when it attached, no partner was there or one that still had to queue its own arrival with its queue full |
| `ControlSockets.OwnArrivalMayComeSecond` | internal/control/control.go:919-932 | a run in which the new socket's own queue has the partner's message first |
| `BindPaths.Paths.SelectDirect` | internal/transport/bind.go:442-477 | the new direct path replaces and returns the old one, unless the bind is stopped |
| `BindPaths.Paths.DropDirectPath` | internal/transport/bind.go:701-712 | unselects the path only while it is still the selected one |
| `BindPaths.Paths.DropDirect` | internal/transport/bind.go:481-495 | unselects whatever direct path there is |
| `BindPaths.Paths.ReplaceRelay` | internal/transport/bind.go:839-853 | installs the session and returns the one it replaces |
| `BindPaths.Paths.ClearRelay` | internal/transport/bind.go:855-863 | empties the relay slot only of that very session |
| `BindPaths.Paths.Take` | internal/transport/bind.go:291-328 | empties both slots and closes the mode |
| `BindRuns.StepKeeps` | internal/transport/bind.go:291-863 | every step of senders, readers, the relay worker, callers and shutdown keeps the invariant |
| `BindRuns.ModeIsEffective` | internal/transport/bind.go:563-571 | under every interleaving the recorded mode is the effective one while the bind is not stopped |
| `BindRuns.ShutdownEmptiesSlots` | internal/transport/bind.go:291-328 | when Shutdown has returned both slots are empty and no worker is left, even if a relay was installed past the unlocked test |
| `BindRuns.NothingLeaks` | internal/transport/bind.go:291-328 | with no call in flight every connection ever installed is closed or still selected, also while the relay worker receives |
| `BindRuns.LateFailuresSpareSuccessor` | internal/transport/bind.go:682-712 | failures of retired direct paths, however late, leave their successor selected |
| `BindRuns.LateFailuresSpareRelay` | internal/transport/bind.go:855-863 | the same for relay sessions |
| `BindRuns.SetDirectSelects` | internal/transport/bind.go:442-477 | from any world, SetDirect can go through alone: the new path is selected, the one it replaces closed, nothing else, and a reader stays behind |
| `BindRuns.SetDirectRefused` | internal/transport/bind.go:442-477 | if the bind is stopped before SetDirect has the lock, the connection is closed and nothing else happens |
| `BindRuns.DropDirectCloses` | internal/transport/bind.go:481-495 | DropDirect unselects and closes the direct path, and nothing else |
| `BindRuns.FailedReaderDrops` | internal/transport/bind.go:682-712 | a reader that fails takes out and closes its own path and ends |
| `BindRuns.SendsDirect` | internal/transport/bind.go:391-438 | a send whose direct write succeeds changes nothing |
| `BindRuns.FallsBackToRelay` | internal/transport/bind.go:391-438 | a send whose direct write fails retires that path and goes on over the relay |
| `BindRuns.FailedRelayIsRetired` | internal/transport/bind.go:391-438 | a send whose relay write fails retires that session |
| `BindRuns.RelayConnects` | internal/transport/bind.go:718-853 | the relay worker installs the session it dialled, closes the one it replaces, and receives on it |
| `BindRuns.RelayReconnects` | internal/transport/bind.go:718-863 | a session that fails to receive is taken out and closed, and the worker dials again |
| `BindRuns.ShutdownCloses` | internal/transport/bind.go:291-328 | Shutdown empties both slots, closes what was in them and stops the workers |
| `BindRuns.WorkersEnd` | internal/transport/bind.go:682-754 | once the bind is shut down, a reader and a dialling relay worker can each come to an end alone |
| `BindRuns.ShutdownReturns` | internal/transport/bind.go:291-328 | once they have, Shutdown returns |
| `BindTraffic.PathsPartitionBytes` | internal/transport/bind.go:573-597 | the two path counters add up to the total |
| `BindTraffic.Traffic.SendOne` | internal/transport/bind.go:391-438 | a successful send counts the packet's length once, on exactly the path it took; any other send counts nothing |
| `BindTraffic.Traffic.Enqueue` | internal/transport/bind.go:666-680 | counts exactly the packets admitted to the bounded queue |
| `BindTraffic.Traffic.Receive` | internal/transport/bind.go:633-664 | each answer exactly under its condition: blocked on an empty queue with nothing closed, closed exactly by one of the four ways of noticing it, else the oldest packet, or as much of it as the buffer holds; one is lost only to a closed generation or a short buffer |
| `BindTrafficRuns.StepKeeps` | internal/transport/bind.go:253-343 | every step of senders, readers, receive callbacks, Open, Close and Shutdown keeps the invariant of counters, queue and generations |
| `BindTrafficRuns.CountersCatchUp` | internal/transport/bind.go:573-597 | under every interleaving no counter exceeds what was sent or admitted, the paths never exceed the total, and all are exact while nobody is counting |
| `BindTrafficRuns.PacketsConserved` | internal/transport/bind.go:633-680 | under every interleaving each admitted packet is in the queue, in one callback's hands, handed out once, or thrown away |
| `BindTrafficRuns.AdmitsPacket` | internal/transport/bind.go:666-680 | in any valid world a packet of a permitted size that finds room is admitted |
| `BindTrafficRuns.SendsPacket` | internal/transport/bind.go:391-438 | a packet whose write succeeds on a path is sent there and goes on to be counted |
| `BindTrafficRuns.CountsPacket` | internal/transport/bind.go:573-597 | what was sent or admitted is then counted once in all and once on its path |
| `BindTrafficRuns.HandsOutOldest` | internal/transport/bind.go:633-664 | a callback of an open generation hands out the oldest packet of the queue if it fits the buffer |
| `BindTrafficRuns.CloseEnds` | internal/transport/bind.go:275-289 | Close ends the open generation and touches nothing else |
| `BindTrafficRuns.ShutdownEnds` | internal/transport/bind.go:291-316 | Shutdown ends the open generation, stops the bind and wakes every callback |
| `BindTrafficRuns.WaitingReturns` | internal/transport/bind.go:639-646 | a callback that waits returns at once when its generation is closed or the bind shut down |
| `BindTrafficRuns.OpenStarts` | internal/transport/bind.go:256-273 | Open starts a new generation when none is open |
| `BindTrafficRuns.SerialRunsInOrder` | internal/transport/bind.go:253-289 | if Open waits for Close and for callbacks past their last test, packets are handed out in the order they were admitted |
| `BindTrafficRuns.InOrderIff` | internal/transport/bind.go:253-289 | from any reachable world, packets are handed out in order in every such continuation if and only if they were so far, no callback holds one older than the last, and at most one generation can hand out any |
| `BindTrafficRuns.OverlappingOpen` | internal/transport/bind.go:275-289 | an Open between the two halves of a Close is a run after which order can be lost |
| `BindTrafficRuns.ClosedIsSilentIff` | internal/transport/bind.go:639-661 | a closed generation hands out nothing more if and only if no callback of it is past its last test |
| `BindTrafficRuns.CloseMayComeLate` | internal/transport/bind.go:639-661 | from every reachable world with an open generation, a callback of it can be past its last test when it is closed |
| `PairWire.FieldsInjective` | internal/secure/pair.go:91-96 | no two lists of length-prefixed fields, of whatever numbers of fields, are written alike |
| `PairWire.ContextInjective` | internal/secure/pair.go:66-89 | the pairing context determines server and room |
| `PairWire.AcceptedIsFrame` | internal/secure/pair.go:425-438 | a frame is accepted exactly if it is the encoding of the payload read from it |
| `PairWire.FrameRoundTrip` | internal/secure/pair.go:403-438 | an encoded frame is accepted under its own kind only, with its payload |
| `PairWire.TranscriptInjective` | internal/secure/pair.go:440-455 | equal transcripts mean equal contexts and frames |
| `PairWire.ConfirmationInjective` | internal/secure/pair.go:465-471 | equal confirmations mean equal root, side and transcript |
| `PairWire.PairIdIdentifies` | internal/secure/pair.go:506-513 | pair identifiers are equal exactly if the roots are |
| `Pairing.ReceiveFrame` | internal/secure/pair.go:425-438 | what is accepted is the encoding of what is returned |
| `Pairing.HashTranscript` | internal/secure/pair.go:440-448 | hashing field after field is the transcript of all of them |
| `Pairing.PairHost` | internal/secure/pair.go:197-322 | succeeds exactly if the arriving frames complete a view and no send fails; what it has sent is what those frames call for, its answer waiting for the first frame only and its confirmation for the guest's to be verified; on success exactly that view's five frames passed |
| `Pairing.PairGuest` | internal/secure/pair.go:324-401 | the same for the guest, whose request waits for nothing and whose confirmation waits for the host's answer only |
| `Pairing.HonestRunSucceeds` | internal/secure/pair.go:197-401 | with one context and a working exchange, two sides that start with nothing and get whatever the other has sent both complete the same view after four rounds of delivery |
| `Pairing.ConfirmedMeansAgreed` | internal/secure/pair.go:296-322 | with unforgeable confirmations, a side that accepts one has the same context, secret and messages as the other; its own reflected confirmation is not accepted |
| `Pairing.PairBoth` | internal/secure/pair.go:197-401 | whatever the network delivers, each side succeeds exactly if that completes a view and its sends work, and one that succeeds agrees with the other on root, context and all three messages |
| `AddressPlan.LastIsLast` | internal/client/pair.go:209-214 | the bit operations give the last address of the prefix |
| `AddressPlan.PairInsidePrefix` | internal/client/pair.go:215-227 | for every random word the two addresses are consecutive, do not wrap, and lie strictly inside one /30 of the prefix |
| `AddressPlan.EveryBlockIsDrawn` | internal/client/pair.go:215-227 | every /30 of the prefix is drawn for some random word |
| `AddressPlan.ProposalsPrivateIff` | internal/client/pair.go:162-164 | for a prefix that passes the check, all proposals are private if and only if its first address is |
| `AddressPlan.MaskedPrefixIsPrivate` | internal/client/pair.go:162-164 | a masked prefix that passes the check is private as a whole |
| `AddressPlan.GuardedButPublic` | internal/client/pair.go:162-164 | 100.64.0.0/9 passes the check and 100.0.0.1 can be proposed |
| `AddressPlan.DefaultNetworkIsFine` | internal/client/pair.go:158-161 | the default network is masked and passes |
| `Negotiation.NegotiateAsHost` | internal/client/pair.go:165-185 | refuses exactly an invalid network; draws at most 32 words, turns each into its pair, offers exactly those found free, and agrees exactly on the one that was accepted |
| `Negotiation.NegotiateAsGuest` | internal/client/pair.go:165-201 | checks each acceptable proposal the other way round, answers exactly what the check said, and returns the one it accepted |
| `Negotiation.HostAgreed` | internal/client/pair.go:153-204 | a host that returned (a, b) has a guest that accepted it as (b, a); both are private, distinct and in the host's network |
| `Negotiation.GuestGivesUpLast` | internal/client/pair.go:165-204 | the guest runs out of attempts only after the host has used all of its own without agreement |
| `Negotiation.ProposalsAcceptableIff` | internal/client/pair.go:186-193 | no guest finds a proposal invalid if and only if the network's first address is private |
| `Negotiation.NegotiateBoth` | internal/client/pair.go:153-204 | the outcomes, proposals and answers of both sides fit together on every channel that delivers in order |
| `Semver.NumericIsInteger` | internal/update/update.go:640-656 | digit strings of any length are compared as the numbers they spell |
| `Semver.PrecedenceIsTotalPreorder` | internal/update/update.go:603-638 | precedence is a total preorder on versions |
| `Semver.ComparesByStandard` | internal/update/update.go:603-638 | less, equal and greater are exactly those of section 11 of Semantic Versioning 2.0.0 |
| `Semver.ParseFindsParts` | internal/update/update.go:582-598 | parsing recovers the core and prerelease identifiers of every text the pattern matches |
| `Semver.ParseIsExact` | internal/update/update.go:582-598 | a well-formed text parses to its own three numbers in order and its own prerelease identifiers |
| `Semver.ComparesTexts` | internal/update/update.go:582-638 | compareSemver on two texts is -1, 0 or 1 exactly as the standard orders the versions they spell (and none exactly if one of them does not match) |
| `Semver.BuildIsIgnored` | internal/update/update.go:582-638 | build metadata never affects precedence |
| `Semver.MinimumUpwardClosed` | internal/update/update.go:685-694 | a version not below an accepted one is accepted, and a stricter minimum implies a laxer one |
| `Semver.MinimumMetIff` | internal/update/update.go:685-694 | a release meets a minimum exactly if it does not precede it |
| `Semver.StandardIff` | internal/update/update.go:215 | a text is a version of Semantic Versioning 2.0.0 if and only if the pattern matches it and its parsed prerelease has no number with a leading zero |
| `Semver.LeadingZeroAccepted` | internal/update/update.go:215 | every version with such a number is accepted although it is not one of the standard |
| `Semver.LeadingZeroExample` | internal/update/update.go:215 | `1.2.0-01` is accepted and not a version of the standard |
| `SystemdUnit.SystemdQuote` | internal/service/service_linux.go:295-333 | the loop prints the quoted form |
| `SystemdUnit.ExecStart` | internal/service/service_linux.go:269-278 | the loop prints the whole argument line |
| `SystemdUnit.ArgumentsSurvive` | internal/service/service_linux.go:262-333 | systemd decodes the line to the original arguments if none contains NUL, and rejects it otherwise |
| `SystemdUnit.LineIsOneLine` | internal/service/service_linux.go:295-333 | the printed line holds no control character |
| `HelperFrames.WriteFrame` | internal/nethelper/helper.go:380-391 | writes the whole frame, or only a part of one exactly when the connection fails; refuses an empty or too large one without writing |
| `HelperFrames.ReadFrame` | internal/nethelper/helper.go:392-404 | takes exactly the first frame off the stream |
| `HelperFrames.StreamReadsBack` | internal/nethelper/helper.go:380-404 | any list of frames, even with one more cut short behind it, is read back unchanged |
| `HelperFrames.PrefixReadsPrefix` | internal/nethelper/helper.go:392-404 | whatever part of the stream arrived reads as the first few of the frames written |
| `HelperTails.SurvivesIff` | internal/nethelper/helper.go:274-347 | only whole frames of the other writer are read behind a partial frame, however it goes on and however much arrives, if and only if the partial frame is harmless |
| `HelperBridge.IntactReadsSent` | internal/nethelper/helper.go:392-404 | when nothing follows a partial frame, or it is harmless, whatever part of the wire arrived reads as the first of the frames sent |
| `HelperBridge.WireSurvivesIff` | internal/nethelper/helper.go:274-347 | the same condition for a wire with frames before the partial one |
| `HelperBridge.SpoiledPacket` | internal/nethelper/helper.go:424-442 | for every packet frame of 30 bytes and more, cut nine bytes short and followed by an event, the proxy receives a packet made of both |
| `HelperBridge.BridgeOut` | internal/nethelper/helper.go:287-347 | in every interleaving of the two loops, each ending on its own failure only, the frames sent are the valid device packets and the events, in order, up to where each loop ended; a loop that had no failure of its own sent all of them |
| `HelperBridge.Receive` | internal/nethelper/helper.go:424-457 | sorts the frames into packets and events up to the first bad one |
| `HelperBridge.DeviceToProxy` | internal/nethelper/helper.go:269-457 | valid device packets and events come out at the proxy identical and in order if the wire is intact, and all of them without faults |
| `HelperBridge.ReadThrough` | internal/nethelper/helper.go:468-481 | reading with a large enough buffer returns every packet in order |
| `HelperBridge.ToDevice` | internal/nethelper/helper.go:314-329 | every packet written to the device has the peer as source, the local address as destination and a Total Length equal to its size; the first bad frame ends the session |
| `HelperBridge.ChunksReadInOrder` | internal/nethelper/helper.go:482-498 | over any number of Write calls, failed ones included, the frames read are the first of the packets reported as written, unless something follows a harmful partial frame |
| `HelperBridge.ProxyWrites` | internal/nethelper/helper.go:482-498 | each call reports exactly the packets that are on the wire whole, and stops short exactly at one that is too large or whose write failed; without a failed write no part of a frame is left |
| `HelperBridge.ProxyToDevice` | internal/nethelper/helper.go:314-498 | packets reported as written reach the device identical and in order over any number of Write calls, and only valid ones ever do |
| `SetupPlan.TeardownOnce` | internal/platform/platform.go:256-396 | the teardown after k steps holds each of their undos, the device close and each plan cleanup exactly once, and nothing else |
| `SetupPlan.CleanupState.Run` | internal/platform/platform.go:377-396 | runs every action last to first whatever errors occur, reports whether any did, and does nothing on later calls |
| `SetupPlan.OpenWithPlan` | internal/platform/platform.go:256-333 | failure or cancellation at step k runs exactly the teardown for k steps, in order, on what the steps and the failed one have left; each result exactly for its reason, success only when no step failed and no cancellation was noticed |
| `SetupPlan.UndosRestore` | internal/platform/platform.go:303-333 | if each undo inverts its step the undos restore the system state |
| `SetupPlan.OpenAndClean` | internal/platform/platform.go:256-396 | any number of cleanup calls tears down once; if the undos are inverse and report no error, what is left is the device close and the plan's own cleanups, after success, cancellation, and a failed step that changed nothing itself |

## Left out

- Cryptography: hashes, HKDF, HMAC, XChaCha20-Poly1305 and OPAQUE are ideal terms (injective, unforgeable, equal to nothing else); OPAQUE's messages are arbitrary functions that contain no confirmations.
- Bytes of session hellos and frames: a session message is a header and a sealed body, so a text that would parse as the other kind of message counts as a failed authentication.
- Wiping of secrets in byte slices: aliasing of Go slices is not modelled; `Session.Close` and `pairHost`/`pairGuest` wipe keys as values.
- Uint64 wrap of the transport's byte counters: they are unbounded numbers here.
- `BindTrafficRuns.Step`: WireGuard's one goroutine per receive function is assumed, and a write takes either path or fails freely; which paths there are is the matter of `BindRuns`.
- `Stats` as a snapshot: the counters are loaded one by one, so one reading may mix moments; `BindTrafficRuns.CountersCatchUp` speaks of one moment.
- Mode reasons and times of the transport (`modeReason`, `modeSince`), `Open` and `WaitRelay`: bookkeeping for display and waiting.
- `SetDirect` given the very connection that is already selected: connections are fresh identities.
- Operating-system checks (permissions, ownership, links, free backups): predicates that may fail, in the update helper and in saving and loading state.
- The branch of the update helper for files without a reserved backup name: staging always reserves one.
- `WindowsReplace.Rollback`: after a removal or rename that fails, each file is only promised to be as before, half undone or put back, because the source notes the error and goes on.
- Deleting the transaction's own files after completion (`cleanupWindowsReplacement`).
- JSON, HTTP, TLS, WebSocket and DERP framing; UTF-8 validity of names and the size limit of the state file; rate limiters and the token bucket.
- Identifiers as texts: hexadecimal identifiers are the numbers they spell, which makes upper and lower case equal as `normalizeHex` does.
- Sockets in the server class: `ControlServer.Server` says who may take a slot, `ControlSockets` says what happens in the slots; the two are not one transition system.
- `ControlSockets.Step`: closing the server removes its records; a pair record that is added again later is a harmless excess of the model.
- Clocks, timeouts, the 90-second and ten-minute deadlines: times are inputs, and a timeout is a failing send or receive.
- URL canonicalisation of the server address: the context is built from the canonical text.
- `HelperBridge.BridgeOut`: the moment at which the bridge closes the connection is not fixed; each loop goes on until a send of its own fails or, for events, the session is cancelled.
- `proxy.Write` with its offset: buffers are given without their headroom, and an invalid offset is not modelled; nor is the batch size of the device.
- The handshake of the network helper (request, response, teardown lock, number of sessions).
- Creating the device and the checks before it in `openWithPlan`: nothing has to be undone there.
- Trimming of white space and a leading `v` in versions, release selection, archives and checksums.
- Special prefixes of `ExecStart` and variables in the executable's own path; Unicode escapes, which the printer never writes.
