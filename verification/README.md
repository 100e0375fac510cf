# Verification of fubble's stateful core

fubble is a conferencing client with its signaling and Matrix sides. This project models the parts of it whose
correctness rests on an invariant that no single function states, and proves what they promise over whole runs:

* **Signals** (`SlotLists`, `CopyOnWrite`, `Emission`, `Signals`): the list of slots as a value and what each operation
  does to it; the copy-on-write list as a step system for any number of threads; emission with callbacks that change
  the signal while it is walked; and the signal over a real heap of shared slot objects with back-indices.
* **Signaling rendezvous** (`PairKeys`, `Rendezvous`): the key of a pair of users, and the handler that lets two devices
  meet under it while connections are replaced and close late.
* **Matrix** (`MatrixSync`, `RoomStates`, `Membership`, `OneLog`, `Leaving`): following the server's log with retries and stops
  (section 9.4 "Syncing" of the Matrix Client-Server API r0.6.1), custom room state, members and the participants
  derived from them, what two clients of one room have in common, and leaving a room.
* **Outgoing media** (`TracksAdder`, `OutgoingVideo`): tracks over all connections, and the camera and the shared screen,
  which call each other.
* **Websocket** (`SendQueue`, `ReadLoop`): the send queue and the read loop, with continuations that run inside
  completions.
* **Video layout** (`Layouts`, `Looks`, `VideoItems`): the widening search for a bin, the scaling, and the three layouts.

`Prelude` and `Lists` hold the small types and list functions the others share.

Most modules have the same shape. A `State` holds the fields of the objects involved; functions say what each call or
completion makes of it; `Step` and `Run` string them together, for any sequence of events; lemmas prove invariants and
the main results over all runs. A class has the source's fields and changes them step by step as the source does, and
each of its methods is proved to produce exactly the state the functions give. Assertions of the source set `failed`, so
that the lemmas can say exactly when one fails.

`dafny verify dfyconfig.toml` checks everything.

## Where the code does less than it promises

The model follows the code. These are the places where a property one would expect does not hold; each has a lemma with
the exact condition or an example.

* `stop_sync` is ignored while the synchronizer waits for its retry timer; the sync then goes on
  (`MatrixSync.StopWorksWhileActive`). As a room is left after this call, members may still come and go while it is
  being left. The close of a member that is away by then fails an assertion (`Leaving.LeavingMeanwhileFails`), and that
  of one that came back takes its new participant off the list (`Leaving.CloseTakesOff`).
* A stop from inside a sync handler is undone by a later exception in the same batch, and a stopped client cannot be
  synced again (`MatrixSync.StopByAHandler`, `MatrixSync.StoppedClientCannotRestart`).
* A handler that throws before the last event of a response loses the rest of it for good (`MatrixSync.LogIsFollowed`,
  `MatrixSync.LostForGood`, `MatrixSync.LosingExample`).
* A joined member that is invited anew stays listed, and someone invited who declines fails an assertion
  (`Membership.StepAgrees`). A membership that is neither join, leave nor invite fails one too and counts as a join.
* Membership is not last-writer-wins: an event that repeats the state does not pass on its timestamp
  (`Membership.RecordIsTheLatest`).
* A pause asked for while a screen is shared is lost, and a camera without a device can be unpaused or chosen under a
  shared screen (`OutgoingVideo.LostPauseShows`, `OutgoingVideo.SharingPausesTheCamera`).
* After a failed write the send queue fills up for good (`SendQueue.NothingAfterAnError`).
* A signaling connection can be destroyed without harm only while it does not run. Otherwise its promise is kept twice,
  its posted task touches what is gone, or, where handling a message threw and the reconnecting client drops the
  connection at the end of the run, the websocket's destructor touches a promise that was moved out
  (`ReadLoop.DestroyedWithoutHarm`, `ReadLoop.ReconnectingClientCrashes`).
* Items are centred from left to right, but from top to bottom only if the height of the bin happens to be whole
  (`Layouts.EqualMarginsIff`, `Layouts.UnequalMarginsExample`).
* Nothing is laid out if the first item is very narrow, and a very flat item keeps the search going for ever
  (`Layouts.GivesUpExactly`, `Layouts.FlatExactly`, `Layouts.FlatItemsSearchForEver`).
* Removing slots from the signal's side does not keep a running emission from calling them
  (`Emission.RemovalByTheSignalDoesNotStopAnEmission`).

## Model

| member | source | states |
|---|---|---|
| `CopyOnWrite.EveryScheduleIsSafe` | fubble/utils/signal.hpp:362-408 | Under every schedule of any threads that emit, edit and destroy, with the pointer copy, count, uniqueness check, clone, swap, decrement and delete as separate steps: no list is touched after it was freed or read half changed; an emission walks the list its copy was taken from; every count equals the handles that point there; every address is freed exactly once |
| `CopyOnWrite.WalkedListIsFrozen` | fubble/utils/signal.hpp:1070-1084 | While an emission reads, whatever the other threads do in between, its list stays alive and unchanged |
| `CopyOnWrite.NothingLeaksOrIsLost` | fubble/utils/signal.hpp:400-408 | Once all threads are idle only the signal's own list is left, and no edit was lost: it is what the edits that the threads asked for make, in the order in which they took the lock |
| `CopyOnWrite.EditsAreThoseRequested` | fubble/utils/signal.hpp:362-393 | Under every schedule the edits made are exactly those for which a thread took the lock and gave it back, in that order, told from the moves and the lock alone |
| `CopyOnWrite.Finishes` | fubble/utils/signal.hpp:362-408 | From any reachable state a thread that is let go on comes to its end, and makes exactly the edit it was about, if any |
| `CopyOnWrite.WriteTakesEffect` | fubble/utils/signal.hpp:376-393 | A thread that finds the lock free leaves the signal with its edit applied to the list there was |
| `CopyOnWrite.ReadTakesACopy` | fubble/utils/signal.hpp:400-408 | An emission that finds the lock free walks the list there is, and gives the lock back |
| `CopyOnWrite.DestroyFreesAll` | fubble/utils/signal.hpp:395-408 | When nobody uses a signal any more, destroying it frees every list |
| `CopyOnWrite.EmissionsWalkInOrder` | fubble/utils/signal.hpp:1070-1084 | Under every schedule in which the edits fit in lock order (slots numbered as they are connected, each cleaned in its own group), an emission goes through ascending groups and meets no slot twice, whatever the others do meanwhile |
| `CopyOnWrite.StepKeepsInv` | fubble/utils/signal.hpp:376-408 | Each single step of any thread keeps the counts, the free-once bookkeeping, the exclusive right to edit and what every other thread relies on |
| `CopyOnWrite.ActSettles` | fubble/utils/signal.hpp:376-408 | Each step changes a payload's count exactly by the handles it makes or drops, and makes exactly one deleter of the last one |
| `SlotLists.EditRefines` | fubble/utils/signal.hpp:1400-1483 | Connecting, cleaning, `disconnect_if`, `disconnect(gid)` and `disconnect_all` keep groups ascending and each slot listed once in its own group, and change the bag of every group by exactly the requested slots; cleaning a slot that is gone changes nothing |
| `SlotLists.SweptCount` | fubble/utils/signal.hpp:1458-1480 | `disconnect_if` counts exactly the listed slots that satisfy the condition, despite swap-removal during the sweep |
| `SlotLists.EditListsNoOther` | fubble/utils/signal.hpp:1400-1455 | Only connecting lists a slot, and a cleaned one is in no group |
| `SlotLists.EditListed` | fubble/utils/signal.hpp:1400-1483 | Which slots a walk meets after each edit: the one connected too, the ones removed no more, and otherwise the same |
| `SlotLists.FlattenOrdered` | fubble/utils/signal.hpp:1079-1083 | A walk over the list goes through the groups in ascending order and meets no slot twice |
| `Emission.EmissionCallsTheSnapshot` | fubble/utils/signal.hpp:1070-1084 | With callbacks that connect, disconnect, block, expire or emit again, an emission calls exactly those slots of its starting snapshot that are connected, unblocked and unexpired at their turn, each once, in ascending group order, and none connected meanwhile |
| `Emission.DisconnectedIsNeverHeardAgain` | fubble/utils/signal.hpp:470-476 | A slot disconnected through its connection is not called again, by this emission, a nested one or any later one |
| `Emission.RemovalByTheSignalDoesNotStopAnEmission` | fubble/utils/signal.hpp:1458-1483 | Whatever slots callbacks remove from the signal's side, at whichever turn, an emission calls exactly the slots of its snapshot that were due at its start |
| `Emission.EmptyingDoesNotStopAnEmission` | fubble/utils/signal.hpp:1483 | So even when the first callback empties the list |
| `Emission.SignalsStaySound` | fubble/utils/signal.hpp:1070-1084 | Whatever is done with a new signal, nested emissions included, its list stays well formed and lists connected slots only, and only slots connected to it are heard |
| `Emission.TurnFollows` | fubble/utils/signal.hpp:710-714 | One slot's turn, with all its callback does, adds slots only at the end, revives no disconnected one and is heard only if connected |
| `Emission.ActsDoAsTheySay` | fubble/utils/signal.hpp:1345-1483 | After connecting, the next emission calls the new slot as well; after disconnecting, blocking or expiring, by connection, set or group, exactly the named slots less; muting silences all and unmuting none but the blocked, expired and disconnected |
| `Emission.ConnectLists` | fubble/utils/signal.hpp:1435-1455 | Connecting puts exactly the new slot into the bag of its group, changes no other bag, and connects it |
| `Emission.DisconnectUnlists` | fubble/utils/signal.hpp:470-476 | Disconnecting takes exactly that slot out, and a second time does nothing |
| `Emission.ExpiredAreTakenOut` | fubble/utils/signal.hpp:710-714 | A slot whose object expired is not called; an emission that comes to it disconnects it and takes exactly it out of the list |
| `Emission.NestedEmissionsAreHeard` | fubble/utils/signal.hpp:1070-1084 | When a callback emits again, every slot that would be called is heard inside its turn |
| `Signals.Signal.Connect` | fubble/utils/signal.hpp:1435-1455 | Over the heap: the new slot is appended to its group, the group is created in order if missing, and the slot's index is its position |
| `Signals.Signal.AddSlot` | fubble/utils/signal.hpp:1435-1455 | The list afterwards is the ordered insertion, and every listed slot stands where its index says |
| `Signals.Signal.Clean` | fubble/utils/signal.hpp:1400-1420 | A slot is swap-removed if it still stands at its index; with a stale index nothing changes |
| `Signals.Signal.Erase` | fubble/utils/signal.hpp:1412-1414 | Swap with the last, renumber, pop: all other slots keep a right index |
| `Signals.Signal.RemoveIf` | fubble/utils/signal.hpp:1458-1480 | The in-place sweep over all groups yields the swept list and counts what it removed |
| `Signals.Signal.RemoveGroup` | fubble/utils/signal.hpp:1345-1355 | The group's slots go, and their number is returned |
| `Signals.Signal.RemoveAll` | fubble/utils/signal.hpp:1483 | The list is empty afterwards |
| `Signals.Signal.SlotCount` | fubble/utils/signal.hpp:1387-1394 | The number of slots a walk over the list would meet |
| `Signals.Signal.Disconnect` | fubble/utils/signal.hpp:470-476 | Only the first call takes the slot out of the list; it tells whether it was connected |
| `Signals.Signal.Emit` | fubble/utils/signal.hpp:1070-1084 | The emission over shared slot objects, with callbacks that change the signal, calls, hears and leaves behind exactly what the specification says |
| `Signals.Signal.CallSlot` | fubble/utils/signal.hpp:710-714 | A blocked or disconnected slot is passed over, one whose object expired is disconnected, any other is called |
| `Signals.Signal.PerformOne` | fubble/utils/signal.hpp:1070-1084 | Each thing a callback may do to the signal, re-entrantly, has the specified effect |
| `PairKeys.BothEndsAgree` | fubble/client/participant_creator.cpp:41-45 | Both clients of a pair compute the same key |
| `PairKeys.UsersMeet` | fubble/client/participant_creator.cpp:24-47 | Two different users, neither named like the bot, register for each other under their own ids and one key; nobody registers for themselves or for the bot |
| `PairKeys.PairsNeverShareAKey` | fubble/client/participant_creator.cpp:41-45 | Ids that start with '@' and have no other '@': different unordered pairs never share a key |
| `PairKeys.JoinsCoincide` | fubble/client/participant_creator.cpp:41-45 | Exactly when two joins coincide, for any ids |
| `PairKeys.SharedKeyExample` | fubble/client/participant_creator.cpp:41-45 | Without that rule two pairs can share a key |
| `Rendezvous.StepKeepsInv` | fubble/signaling/registration_handler.cpp:36-104 | Every registration and every close keeps: keys unique, no empty entry, different tokens in the two places, symmetric partner links, a place filled exactly when its handle is live for its token; the only assertion that can fail is the one against a third token, and it fails exactly then |
| `Rendezvous.NoAssertionFailsInAMesh` | fubble/signaling/registration_handler.cpp:51-54 | In a mesh of clients no assertion of the handler fails in any run of connects, reconnects and closes |
| `Rendezvous.PairsMeet` | fubble/signaling/registration_handler.cpp:71-75 | Two users of the mesh registered for each other are each other's partners |
| `Rendezvous.RegisteredDevices` | fubble/signaling/registration_handler.cpp:36-75 | A registration puts its device under its key and token and replaces no other, but for a second one that a third token pushes out |
| `Rendezvous.RegisteredConnections` | fubble/signaling/registration_handler.cpp:63-70 | A registration tells exactly the connection it replaces to close: that of its token, or that in the second place when both are taken by others |
| `Rendezvous.ClosedDevices` | fubble/signaling/registration_handler.cpp:78-104 | A close takes away exactly the device whose handle it reached |
| `Rendezvous.ClosedIsWithout` | fubble/signaling/registration_handler.cpp:82-95 | When a live handle's connection closes, both lookups succeed |
| `Rendezvous.LateCloseIsHarmless` | fubble/utils/signal.hpp:622-626 | Once a connection was replaced, its close changes nothing, however late and whatever happened in between |
| `Rendezvous.PartnersAreMutual` | fubble/signaling/registration_handler.cpp:71-75 | A device's link leads to the other device under its key, and back; it is empty exactly when the device is alone |
| `Rendezvous.ThirdTokenExample` | fubble/signaling/registration_handler.cpp:51-54 | A third token under a key fails the assertion and takes over the second place |
| `Rendezvous.RegistrationHandler.Register` | fubble/signaling/registration_handler.cpp:36-76 | The registration over the entry vector, with its slots, handles and links |
| `Rendezvous.RegistrationHandler.OnDeviceClosed` | fubble/signaling/registration_handler.cpp:78-104 | The close over the entry vector |
| `Rendezvous.RegistrationHandler.Erase` | fubble/signaling/registration_handler.cpp:103 | Erasing from the vector moves the later entries handle by handle and disconnects only the erased entry's handles |
| `Rendezvous.RegistrationHandler.FindOrCreate` | fubble/signaling/registration_handler.cpp:113-120 | The entry of a key is found, or one is appended |
| `MatrixSync.LogIsFollowed` | fubble/matrix/client.cpp:80-142 | A response holds what follows its own request's token. Across failed requests and retries, every position of the log before the client's token is handed on once and in order, or lost to a throwing handler; what was handed on is a prefix of the log if and only if no handler threw before the last event of its response; two requests are never out together, and the one that is out asked from where the client is |
| `MatrixSync.MissedOnlyGrows` | fubble/matrix/client.cpp:80-87 | What was missed stays missed, and something is missed in a run exactly if a handler throws before the last event of its response |
| `MatrixSync.LostForGood` | fubble/matrix/client.cpp:80-87 | A position that was missed is never handed on later |
| `MatrixSync.LosingExample` | fubble/matrix/client.cpp:80-87 | A handler that throws at the first of two events loses both; the retry asks from after them |
| `MatrixSync.OnlyTheCursorFollows` | fubble/matrix/client.cpp:89-94 | A response keeps the log without gap or repetition if and only if its request asked from where the client is |
| `MatrixSync.StepKeepsControl` | fubble/matrix/client.cpp:96-142 | One event: a promise is held exactly while one request is out, asked from where the client is; the timer runs only between two syncs; and exactly which events fail an assertion |
| `MatrixSync.AssertionsThatFail` | fubble/matrix/client.cpp:96-113 | Exactly which events fail an assertion; a restart by the retry timer never does |
| `MatrixSync.StoppedForGood` | fubble/matrix/client.cpp:144-155 | Nothing is handed on any more, whatever happens, if and only if the client counts as stopped |
| `MatrixSync.StopWorksWhileActive` | fubble/matrix/client.cpp:144-155 | `stop_sync` stops for good exactly a client that is syncing or was stopped before; while it waits for the retry timer the call is ignored |
| `MatrixSync.StopByAHandler` | fubble/matrix/client.cpp:115-142 | A stop from inside a handler lasts unless a handler throws in the same batch: then the retry timer starts the sync anew |
| `MatrixSync.StoppedClientCannotRestart` | fubble/matrix/client.cpp:97 | After a completed stop the cancelled action is still set, so syncing the same client again fails the assertion |
| `MatrixSync.CatchesUp` | fubble/matrix/client_synchronizer.cpp:22-55 | A client that was not stopped gets to the end of the log, whatever failed before |
| `MatrixSync.RunsUntilAsked` | fubble/matrix/client_synchronizer.cpp:15-55 | In every run from the start the client is stopped if and only if some event asked for it: `stop_sync` while it syncs, a handler that stops it and does not throw, or a failed assertion. Until then it stays with its synchronizer and catches up with the log, whatever requests and handlers failed |
| `MatrixSync.StopsExactlyWhenAsked` | fubble/matrix/client.cpp:115-155 | One event: exactly which stop the client, and no failed request or throwing handler takes it from its synchronizer |
| `MatrixSync.FailuresAreRetried` | fubble/matrix/client_synchronizer.cpp:22-55 | After a failed request or a throwing handler the retry timer runs, and when it fires one request is out again from the current token |
| `MatrixSync.SynchronizedClient.HandleSynced` | fubble/matrix/client.cpp:80-87 | The token moves to the end of the response before the handlers see the events that follow the request's own token, one by one, until one throws |
| `MatrixSync.SynchronizedClient.HandleSyncTillStop` | fubble/matrix/client.cpp:115-142 | The completion of a request from a token: stopped, response or error, with the continuation that runs inline |
| `MatrixSync.SynchronizedClient.Complete` | fubble/matrix/client.cpp:115-142 | Keeps the invariant; afterwards one request from the current token is out, or the retry timer runs, or the client is stopped for good, and that exactly if the event asked for it; after a failure the retry timer runs |
| `MatrixSync.SynchronizedClient.FireTimer` | fubble/matrix/client_synchronizer.cpp:49-55 | The retry keeps the invariant, fails no assertion and leaves one request out, from the current token, with nothing handed on or lost |
| `MatrixSync.SynchronizedClient.StopSync` | fubble/matrix/client.cpp:144-155 | Keeps the invariant; the client is stopped for good exactly if it was syncing or was stopped before |
| `MatrixSync.SynchronizedClient.Set` | fubble/matrix/client_synchronizer.cpp:15-20 | Keeps the invariant; fails an assertion exactly for a synchronizer that has a client or a client that was stopped, and otherwise leaves one request out, from the current token |
| `RoomStates.Converges` | fubble/matrix/room_states.cpp:36-63 | Two clients that see the same events, in any order and with any repetition, hold the same state for all such orders if and only if the latest events of every key agree |
| `RoomStates.HoldsTheLatest` | fubble/matrix/room_states.cpp:36-63 | Under every key the store holds exactly the first of the latest events, and nothing if there is none |
| `RoomStates.EventIsStored` | fubble/matrix/room_states.cpp:36-63 | An event without a state key or of a kind that begins with 'm.' is ignored; any other is stored and announced with its own kind, key, data and time unless what is held is as new; nothing else changes |
| `RoomStates.BatchesConverge` | fubble/matrix/room.cpp:68-104 | The same for responses, however the events are split over timelines and state lists |
| `RoomStates.NoEventIsLeftOut` | fubble/matrix/room.cpp:68-104 | The events that are handled are those of every timeline and every state list, and no others |
| `RoomStates.AnnouncementsRebuildTheState` | fubble/matrix/room_states.cpp:50-60 | Announced timestamps rise strictly under each key, and the last announcement of a key is what is held |
| `RoomStates.RoomStateStore.Take` | fubble/matrix/room_states.cpp:36-63 | One event over the vector of states: appended, overwritten or ignored |
| `RoomStates.RoomStateStore.TakeBatch` | fubble/matrix/room.cpp:68-104 | The timeline is handled before the state list |
| `Membership.ParticipantsAreTheJoined` | fubble/client/participants.cpp:106-135 | In any run, the participants are at every point exactly the joined members, each once, if and only if no accepted event takes a member from join to invite |
| `Membership.RoomsAgree` | fubble/client/participants.cpp:54-67 | The same for every run of a room from its start |
| `Membership.StepAgrees` | fubble/client/participants.cpp:123-127 | One event: what keeps the agreement, and exactly which events fail an assertion (an unknown membership, and the leave of someone only invited) |
| `Membership.AnnouncementsRebuildTheList` | fubble/client/participants.cpp:123-135 | At every point of every run, replaying `on_added` and `on_removed` rebuilds the list |
| `Membership.ParticipantsSaidJoin` | fubble/matrix/room.cpp:106-146 | In every run that demotes nobody, the participants are those whose last accepted membership is 'join' (or none of the three known ones), each once |
| `Membership.WordsChangeTheList` | fubble/client/participants.cpp:123-135 | One event: an accepted 'join' adds and announces its member, an accepted 'leave' of a participant removes and announces it, and nothing else changes the list or is announced |
| `Membership.RecordsTellTheLastWord` | fubble/matrix/room_participant.cpp:31-50 | The record of a member says join, leave or invite exactly as the last accepted membership about it does, with its timestamp |
| `Membership.DemotingWords` | fubble/client/participants.cpp:123-127 | The exception: an accepted 'invite' for a member whose last accepted membership is 'join' |
| `OneLog.ClientsHoldTheSame` | fubble/matrix/client.cpp:80-142 | Two clients that have caught up with one log and lost nothing of it, however their requests failed, were cut and retried, hold the same custom state |
| `OneLog.ClientsListTheSame` | fubble/client/participants.cpp:54-67 | And they list the same participants, each once, whenever either set them up, if no change from join to invite was accepted after that |
| `OneLog.HandsOnTheLog` | fubble/matrix/client.cpp:80-142 | What such a client has handed on is the log |
| `OneLog.EntriesInOrder` | fubble/matrix/room.cpp:68-146 | Every entry of the log goes to the one part of the client it is about, in order |
| `OneLog.OpenedRun` | fubble/client/participants.cpp:54-67 | When the participants are set up makes no difference to the members |
| `Membership.RecordIsTheLatest` | fubble/matrix/room_participant.cpp:31-50 | A member's record is that of the latest event at every point if and only if no newer event ever repeats the state |
| `Membership.LatestOfAllIs` | fubble/matrix/room_participant.cpp:31-50 | The last-writer-wins record used there is the last of the latest events |
| `Membership.RecordInARun` | fubble/matrix/room.cpp:137-145 | A member's record in a run is what `set_join_state` makes of the events about that member |
| `Membership.SortedDeliveries` | fubble/matrix/room_participant.cpp:31-50 | Delivered in the order of their timestamps, the last event decides the state |
| `Membership.OrderMattersExample` | fubble/matrix/room_participant.cpp:33-34 | The same events in another order can leave another state |
| `Membership.ReinvitedExample` | fubble/client/participants.cpp:179-182 | An invitation of a joined member leaves it listed; the next join fails the assertion and lists it twice |
| `Membership.RoomParticipants.HandleMemberEvent` | fubble/matrix/room.cpp:106-146 | A member event over the members and the participants |
| `Membership.RoomParticipants.ChangeJoinState` | fubble/matrix/room_participant.cpp:31-50 | Which changes of a join state are taken |
| `Membership.RoomParticipants.AddParticipant` | fubble/client/participants.cpp:179-188 | Listing and announcing a participant |
| `Membership.RoomParticipants.RemoveParticipant` | fubble/client/participants.cpp:123-135 | Removing and announcing the first of that id, or failing the assertion |
| `Membership.RoomParticipants.Open` | fubble/client/participants.cpp:54-67 | Participants set up late list the members that have joined by then |
| `Leaving.ResolvesOnceWhenAllAreClosed` | fubble/client/participants.cpp:18-51 | In whatever order, at once or later, with whatever outcome, and whoever comes and goes: the future of `close()` is fulfilled at most once, and exactly when the waiter was started and every close has completed |
| `Leaving.CloseStartsAll` | fubble/client/participants.cpp:90-104 | `close()` starts the close of every participant and then the waiter; exactly those that complete at once are closed when it returns, and its future is fulfilled by then if and only if all did |
| `Leaving.CloseResolves` | fubble/client/participants.cpp:90-104 | Whatever happens afterwards, that future is fulfilled exactly when every close has completed |
| `Leaving.AnnouncementsGiveTheList` | fubble/client/participants.cpp:123-177 | Members coming and going or not, replaying what was announced onto the copy gives the list |
| `Leaving.EveryoneIsGoneWhenItResolves` | fubble/client/participants.cpp:90-104 | With no membership change the list is then empty and each participant was announced removed exactly once, and nothing else |
| `Leaving.StepKeepsList` | fubble/client/participants.cpp:148-177 | The list holds those not closed yet, in order; the announcements are the completions, in order; only an exception of an unknown kind fails an assertion |
| `Leaving.OnlyUnknownExceptionsFail` | fubble/client/participants.cpp:148-177 | In a whole run without membership change, no assertion fails if no close throws an exception of an unknown kind |
| `Leaving.LeavingMeanwhileFails` | fubble/client/participants.cpp:166-171 | In any run in which no assertion has failed, with members coming and going, the completion of a close fails one if and only if it brings an exception of an unknown kind or its member is away, that is, left meanwhile and did not come back |
| `Leaving.CloseTakesOff` | fubble/client/participants.cpp:166-173 | And it takes off the list its own participant if and only if the member never left, and the participant made when the member came back if and only if it left and is not away |
| `Leaving.BackAgainExample` | fubble/client/participants.cpp:166-173 | A member that came back is taken off the list by the close of the participant it had before |
| `Leaving.Leaver.Close` | fubble/client/participants.cpp:90-104 | The loop over the copy, with closes that complete inside it, and the start of the waiter: every close was started, and the future is fulfilled already if and only if all completed at once |
| `Leaving.Leaver.DoNext` | fubble/client/participants.cpp:27-50 | The waiter's walk through the ready futures, which runs inside `then` |
| `Leaving.Leaver.HandleClosed` | fubble/client/participants.cpp:148-177 | The completion of one close |
| `Leaving.Leaver.Complete` | fubble/client/participants.cpp:148-177 | The completion of one close, with the waiter's continuation |
| `TracksAdder.Adders.Add` | fubble/client/tracks_adder.cpp:5-11 | Keeps: every connection sends the adders' tracks in the adders' order, all of them unless its native part refused a request, and exactly then has an assertion failed in it; each native part was asked once for each track |
| `TracksAdder.Adders.Remove` | fubble/client/tracks_adder.cpp:13-20 | Keeps the same when an adder goes, wherever it stands in the list |
| `TracksAdder.Adders.AddConnection` | fubble/client/tracks_adder.cpp:22-30 | A new connection sends all tracks there are, in the same order; its native part was asked once for each |
| `TracksAdder.Adders.RemoveConnection` | fubble/client/tracks_adder.cpp:32-39 | A connection that is removed sends nothing any more, and no other changes; its native part was asked once for each track it sent |
| `TracksAdder.TracksWithout` | fubble/client/tracks_adder.cpp:13-20 | Removing an adder's track from the sequence leaves the other adders' tracks |
| `TracksAdder.RtcConnection.AddTrack` | fubble/rtc/google/connection.cpp:194-215 | A track is appended, or refused by the native part, whose answers are arbitrary, with a failed assertion |
| `TracksAdder.RtcConnection.RemoveTrack` | fubble/rtc/google/connection.cpp:217-246 | A track is erased, with a failed assertion if the native part refuses; removing one that is not sent fails the assertion |
| `OutgoingVideo.CameraIsEverywhereOrNowhere` | fubble/client/video_settings.cpp:53-137 | In every run, failing devices included, at each announcement of a changed source and after each call: capture device, adder, its registration and the own-video list are all there or none is; at most one; a device that captures is the recorded one and not paused; the source announced last is the one there is |
| `OutgoingVideo.StepKeepsInv` | fubble/client/desktop_sharing.cpp:228-298 | Each call keeps that, and only a `reset` without a shared screen fails an assertion |
| `OutgoingVideo.SharingPausesTheCamera` | fubble/client/desktop_sharing.cpp:206-217 | In any run the camera is paused whenever a screen is shared, if and only if none of the listed calls is made (unpausing for want of a device, sharing with no device to pause) |
| `OutgoingVideo.SharingPausesFromTheStart` | fubble/client/desktop_sharing.cpp:206-217 | The same for every run from the start, whatever devices there are |
| `OutgoingVideo.EveryPauseIsAccountedFor` | fubble/client/desktop_sharing.cpp:193-226 | While a device stays set and starts, the camera is paused exactly when others or the shared screen paused it, and each pause has one owner, if and only if no one pauses what the shared screen has paused |
| `OutgoingVideo.PausesAreAccountedForFromTheStart` | fubble/client/desktop_sharing.cpp:193-226 | The same for every run from a set-up with some device that starts |
| `OutgoingVideo.LostPauseShows` | fubble/client/video_settings.cpp:53-55 | A pause asked for while a screen is shared is lost: the camera captures once the sharing ends |
| `OutgoingVideo.ResetRestoresTheCamera` | fubble/client/desktop_sharing.cpp:294-298 | However screens are shared, replaced and lost, a final `reset` leaves the camera as the others left it |
| `OutgoingVideo.UnpausedIs` | fubble/client/video_settings.cpp:60-69 | What unpausing does in all cases, re-entrant `on_paused` included |
| `OutgoingVideo.ChangeIs` | fubble/client/video_settings.cpp:73-106 | What changing the device does in all cases |
| `OutgoingVideo.FirstThatStarts` | fubble/client/video_settings.cpp:28-51 | At the set-up the first device that starts is the one that captures; none does if none starts |
| `OutgoingVideo.ChoosingACamera` | fubble/client/video_settings.cpp:73-106 | Choosing the camera that captures changes nothing; another that starts takes its place as a new source, and one that does not leaves none |
| `OutgoingVideo.ShareIs` | fubble/client/desktop_sharing.cpp:228-250 | Sharing fails exactly if the screen cannot be captured or the camera paused for the one before does not start again; otherwise a new screen is shared, and a camera that is set is paused for it |
| `OutgoingVideo.ScreenEnds` | fubble/client/desktop_sharing.cpp:258-292 | When the capturer finishes by itself or the room is left, no screen is shared and the camera is left as it is |
| `OutgoingVideo.OutgoingMedia.SetPaused` | fubble/client/video_settings.cpp:53-69 | Pausing and unpausing, with the calls back |
| `OutgoingVideo.OutgoingMedia.ChangeToDevice` | fubble/client/video_settings.cpp:73-106 | Changing the device, with the exception path |
| `OutgoingVideo.OutgoingMedia.ResetCurrentCapture` | fubble/client/video_settings.cpp:108-117 | Adder, own video and capture device are released together |
| `OutgoingVideo.OutgoingMedia.SetUpInitialDevice` | fubble/client/video_settings.cpp:28-51 | The first device that starts |
| `OutgoingVideo.OutgoingMedia.OnVideosChanged` | fubble/client/video_settings.cpp:125-137 | Keeps the invariant; afterwards only a device that is listed is recorded or captures; with the recorded device listed nothing changes |
| `OutgoingVideo.OutgoingMedia.Erase` | fubble/client/own_video.cpp:17-26 | Removing from a list, with the assertion that it was there |
| `OutgoingVideo.OutgoingMedia.SetSharing` | fubble/client/desktop_sharing.cpp:228-250 | Sharing a screen, replacing one that is shared |
| `OutgoingVideo.OutgoingMedia.ResetSharing` | fubble/client/desktop_sharing.cpp:294-298 | Ending the sharing |
| `OutgoingVideo.OutgoingMedia.ResetScreen` | fubble/client/desktop_sharing.cpp:270-292 | Capturer and adder are dropped |
| `OutgoingVideo.OutgoingMedia.OnVideoPaused` | fubble/client/desktop_sharing.cpp:193-204 | What the screen does when the camera is unpaused |
| `SendQueue.SentInOrder` | fubble/websocket/connection_impl.cpp:46-97 | In every run, callbacks that send included: at most one write in flight; writes start and complete in the order of sending; what was given to `send` is what was completed followed by what is queued |
| `SendQueue.AllWrittenUnlessOneFailed` | fubble/websocket/connection_impl.cpp:82-97 | With no write in flight, everything given to `send` has been written if and only if no write has failed |
| `SendQueue.NothingAfterAnError` | fubble/websocket/connection_impl.cpp:82-88 | After a failed write nothing is written or completed any more |
| `SendQueue.Drains` | fubble/websocket/connection_impl.cpp:89-97 | As many successful completions as messages empty the queue, in order |
| `SendQueue.WrittenIs` | fubble/websocket/connection_impl.cpp:82-97 | What one completion does to queue, completions and writes, with the messages its callbacks send |
| `SendQueue.Sender.SendMessage` | fubble/websocket/connection_impl.cpp:46-58 | Keeps the invariant; the message goes to the end of the queue, and a write of it starts exactly if nothing was queued |
| `SendQueue.Sender.HandleSent` | fubble/websocket/connection_impl.cpp:82-97 | The completion of a write over the queue |
| `ReadLoop.OneReadAtATime` | fubble/signaling/client/connection.cpp:53-75 | With an executor that defers, two reads are never out together and no assertion fails, whoever destroys the connection |
| `ReadLoop.RunPromiseIsKeptOnce` | fubble/signaling/client/connection.cpp:76-103 | In every run, however the connection is destroyed, what the promise of `run` is fulfilled with is decided by the first event that ends the loop, not before and not changed later |
| `ReadLoop.EachMessageIsHandledOnce` | fubble/signaling/client/connection.cpp:76-85 | In every run each good message that is read is handled once, and nothing else is |
| `ReadLoop.ReadsOn` | fubble/signaling/client/connection.cpp:53-75 | With an executor that defers, as many messages as come are handled, one read being out again after each |
| `ReadLoop.DestroyedWithoutHarm` | fubble/websocket/connection_impl.cpp:26-34 | In every run: the promise is fulfilled once at most and nothing destroyed is touched, then or by a task still posted, if and only if the connection is never destroyed from outside while it runs nor by what a message calls |
| `ReadLoop.ReconnectingClientCrashes` | fubble/signaling/client/client.cpp:112-134 | For a client that destroys the connection where its run ends, something destroyed is touched exactly in the runs that end because handling a message threw, unless the assertion in `run_done` against anything but a system error stops it; a failed read or a graceful close does no harm |
| `ReadLoop.PostedTaskCrashes` | fubble/signaling/client/connection.cpp:72-74 | A posted task that outlives its connection touches it |
| `ReadLoop.HarmExamples` | fubble/signaling/client/connection.cpp:72-74 | A message throws and the run's end destroys the connection; it is destroyed while its task is posted; it is destroyed while a read is out |
| `ReadLoop.SecondAttempt` | fubble/websocket/connection_impl.cpp:26-34 | The promise is fulfilled a second time exactly when the connection is destroyed while a read is out |
| `ReadLoop.ImmediateExecutorFails` | fubble/websocket/connection_impl.cpp:141-157 | With an executor that runs tasks at once the first message fails the assertion, since the flag is cleared after the continuation |
| `ReadLoop.StepKeepsInv` | fubble/signaling/client/connection.cpp:53-103 | While the connection is there its loop is in exactly one place until its promise is kept; exactly which events fail an assertion |
| `ReadLoop.ReadingConnection.BeginRun` | fubble/signaling/client/connection.cpp:53-71 | Keeps the invariant; one read is out afterwards and no assertion fails |
| `ReadLoop.ReadingConnection.CompleteRead` | fubble/websocket/connection_impl.cpp:141-157 | Keeps the invariant; exactly when an assertion fails, the promise is kept, and the connection comes to harm |
| `ReadLoop.ReadingConnection.RunTask` | fubble/signaling/client/connection.cpp:72-74 | The posted task reads on, or touches a connection that is gone |
| `ReadLoop.ReadingConnection.Dispose` | fubble/signaling/client/connection.cpp:15-23 | Both destructors, in their order: destroying from outside does harm exactly while the connection runs |
| `Layouts.ArrangedWell` | fubble/video_layout/video_layout.cpp:71-125 | With a packer that keeps its contract, an arrangement puts every item inside its region and apart from the others, with equal margins left and right; the bottom margin exceeds the top one by what the scaled bin that was found is too low, less than one of its units |
| `Layouts.ArrangedToSize` | fubble/video_layout/video_layout.cpp:71-98 | Each item gets a box of its own size, turned or not, in one unit common to all: that of the scaled bin |
| `Layouts.PacksWhatThePackerAnswers` | fubble/video_layout/video_layout.cpp:26-70 | A packing is what the packer answers when asked for one item after the other, each by its aspect but 0.5 at least; there is none exactly if some answer is empty |
| `Layouts.FoundIsTheFirst` | fubble/video_layout/video_layout.cpp:108-124 | The bin is the first that holds everything among those each a twentieth wider than the one before, truncated, starting from the first item's width |
| `Layouts.SizeHasTheAspect` | fubble/video_layout/video_layout.cpp:16-21 | An item's rectangle has the area 10000 and the item's aspect, but for truncation |
| `Layouts.EqualMarginsIff` | fubble/video_layout/video_layout.cpp:71-92 | The top and bottom margins of an arrangement are equal if and only if the height of the bin it was made with is whole before it is truncated |
| `Layouts.UnequalMarginsExample` | fubble/video_layout/video_layout.cpp:29 | An item three to two in a container of 150 by 100 gets unequal top and bottom margins |
| `Layouts.SearchEnds` | fubble/video_layout/video_layout.cpp:108-124 | The widening loop reaches a width that fits from width 20 up, and gives up at the first failure below |
| `Layouts.GivesUpExactly` | fubble/video_layout/video_layout.cpp:99-124 | Items stay where they are exactly when the first one's aspect is below 0.04 |
| `Layouts.FlatExactly` | fubble/video_layout/video_layout.cpp:16-21 | Exactly which aspects give a rectangle no height: those that exceed the truncated width |
| `Layouts.FlatAspects` | fubble/video_layout/video_layout.cpp:16-21 | By aspect, those are the aspects above 10000 and two gaps below, where truncation bites already |
| `Layouts.FlatItemsNeverFit` | fubble/video_layout/video_layout.cpp:26-70 | An item without height fits into no bin |
| `Layouts.FlatItemsSearchForEver` | fubble/video_layout/video_layout.cpp:108-124 | With such an item no width fits, and every width from 20 up is widened |
| `Layouts.TryPackIsPacked` | fubble/video_layout/video_layout.cpp:26-70 | A packing holds all items, in the bin, apart, the first at the origin |
| `Looks.LooksInside` | fubble/video_layout/video_layout.cpp:169-216 | In grid, full and enlarged layouts an item that is put somewhere lies inside the container |
| `Looks.LooksApart` | fubble/video_layout/video_layout.cpp:169-216 | In all three layouts no two items that are put somewhere overlap |
| `Looks.LooksSuit` | fubble/video_layout/video_layout.cpp:169-216 | In every layout an item that is put somewhere gets a box of its own size, in one unit with those it is arranged with: in the whole container, or in an enlarged layout in the top fifth for the others and in the lower four fifths for the one in focus |
| `Looks.LookIs` | fubble/video_layout/video_layout.cpp:169-216 | An item is hidden exactly beside one that is shown alone; otherwise it gets its own place in the arrangement of its company |
| `Looks.ShownItemsArePlaced` | fubble/video_layout/video_layout.cpp:169-216 | In every layout an item that is shown is put somewhere if and only if the first of the items it is arranged with is not narrower than 0.04 |
| `VideoItems.PackItems` | fubble/video_layout/video_layout.cpp:26-70 | The packing loop, which stops at the first item that does not fit |
| `VideoItems.FindBin` | fubble/video_layout/video_layout.cpp:108-124 | The widening loop |
| `VideoItems.Calculate` | fubble/video_layout/video_layout.cpp:99-125 | Items get the boxes of the arrangement, or stay where they are |
| `VideoItems.VideoLayout.Recalculate` | fubble/video_layout/video_layout.cpp:169-216 | Every child is shown, hidden and placed as the layout says; with a packer that keeps its contract each lies in its region of the layout with its own size |
| `VideoItems.VideoLayout.ShownIsSuited` | fubble/video_layout/video_layout.cpp:169-216 | A child that looks as the layout wants is hidden only beside one that is shown alone, and lies in its region with its own size unless its company is too narrow to be arranged |
| `VideoItems.VideoLayout.Enlarge` | fubble/video_layout/video_layout.cpp:218-242 | From the grid the item is enlarged; in focus already it goes from enlarged to full and from full to the grid; else it takes over the focus. Only a child is ever in focus, and only a grid can do without one |
| `VideoItems.VideoLayout.Shrink` | fubble/video_layout/video_layout.cpp:244-259 | An enlarged layout goes back to the grid; a full one stays |
| `VideoItems.VideoLayout.RemoveChild` | fubble/video_layout/video_layout.cpp:136-153 | The grid is back when the child in focus goes |
| `VideoItems.VideoLayout.AddChild` | fubble/video_layout/video_layout.cpp:155-160 | A new child is arranged with the others |

## Left out

- Rendezvous.NoAssertionFailsInAMesh: the clients' ids are assumed to start with '@' and to hold no other '@', as section 4.2.1 "User Identifiers" of the Matrix appendices demands.
- Layouts.ArrangedWell: speaks of a width and a height above zero and of a packer that keeps its contract; the guillotine packer itself is not part of this model, and sizes are reals, so that rounding is not modelled.
- Layouts.SearchEnds: integers are unbounded; the overflow that ends the source's loop at very large widths is not modelled.
- VideoItems.VideoLayout.Recalculate: children without an aspect are left out of the list of children, choosing a layout other than the grid from outside requires an item in focus, and the two recalculations when the child in focus goes are one.
- TracksAdder.Adders.AddConnection: a connection is handed over before anything else sends on it.
- MatrixSync.LogIsFollowed: the server returns what follows the token of the request; the gap of a limited timeline and malformed responses are not modelled.
- OneLog.ClientsHoldTheSame: the order of the log is taken to be the order in which entries are handed on; that a response lists a room's timeline before its state is the subject of `RoomStates` alone.
- ReadLoop.RunPromiseIsKeptOnce: the connection is the only owner of its websocket, and `run` is called once.
- OutgoingVideo.CameraIsEverywhereOrNowhere: a capturer is not finished when `start()` returns and finishes inside `stop()`; listeners other than the two state machines do not call back in.
- Rendezvous.StepKeepsInv: `close()` on a connection does not report the close before it returns.
- CopyOnWrite.EveryScheduleIsSafe: steps are sequentially consistent; weaker memory orders, and moving or copying whole signals, are not modelled.
- CopyOnWrite.EmissionsWalkInOrder: that the edits fit in lock order is a premise; the slots' own flags are not part of the step system.
- Emission.EmissionCallsTheSnapshot: callbacks are scripts, one behaviour for each call, and run on the emitting thread; the match of callables in `disconnect(callable)` is given as the set of slots that match.
- HTTP, TLS, sockets, timers, capture devices and WebRTC are events that may happen at any time, with any outcome.
- JSON parsing and serialisation, and the tag dispatch of signaling messages.
- Qt models, options, factories and logging.
- Audio: volumes, muting, level calculation and the microphone test.
- Previews of screens and windows.
