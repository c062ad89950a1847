# Verified model of ekza-rust-server

A Dafny model of the realtime server for shared 3D spaces: who is present in which room and what every
client is told about it, how room layouts are stored, how clients are rate limited, how avatars are moved
by the server, how chain accounts are decoded, and how the agent bridge folds and logs what it receives.
The model follows the code; the places where code and documentation differ are named at the end of this
section.

**Presence.** `Presence` holds the client table as a class whose methods update it the way the server's
methods do, with the functions that specify them. `Network` is Socket.IO as the server uses it: open
sockets, adapter rooms, the events each socket received, and the log of everything asked for. `Protocol`
makes steps of it: every write section of `presence_transition` is one step, every read section is one
step that takes the guard and queues its broadcasts and one more step for each broadcast, and a write
section is possible only while no guard is held. A join is two steps with anything in between. Iteration
order of the hash map is an argument of a step, so the theorems hold for every order. A step that is not
possible changes nothing, hence every sequence of steps is a run and a statement about `Run(steps)` is
about every reachable state. `Handlers` has the handlers themselves, each proved to be one step. `Views`
is the observer's fold of events (the agent bridge), decoding included, and the elementary changes that
keep it true; `Convergence`, `Decoding`, `Movement`, `Navigation` and `Reduction` hold the theorems over all
runs.

`Payloads`, `Transitions` and `Messages` say, event by event, what a client gets for what it sent: which name,
avatar, token, speed, place or message is kept, what happens to its record and to all others, and what every
socket hears. They are stated of every reachable world, in terms of the texts and numbers that were sent and
not of the functions the other modules share, and cover acceptance and refusal both.

Views do not always converge. `goto` is the one event whose rotation is not checked, so a number beyond the
range of `f32` puts an infinite rotation into the table; JSON writes it as `null`, and the bridge, whose
rotation is an `f32`, then drops a whole snapshot and enters a blank profile for a `new user`.
`Decoding.InfiniteRotationBlindsJoiner` is such a run. `Decoding.ViewsConverge` holds for every run whose
`goto` events carry a finite rotation or none, `Decoding.JoinConvergesExactly` and
`Decoding.ProfileConvergesExactly` say of the two affected steps exactly when they converge, and
`Convergence.ViewsConvergeExactly` says what a view is worth after any run at all.

Three pieces of code touch the client table without the presence lock. `allow` only decides whether a
handler goes on, which the model leaves to the choice of steps. `insert_default` and `authenticate` can land
inside a write section; in a committing join a login between `set_room` and the snapshot even sends a
snapshot with the wallet and an announcement without it. `Reduction` splits each section at that point and
proves over whole runs that whatever lands there might as well come after the section, up to the wallets in
what was sent, which the observer's fold erases. `Handlers.Server.OnJoinSpaceCommit` is proved with such
landings.

**Rooms.** `Rooms` is the lazily filled map over atomic files, with a step between any two awaits (cache
check, disk read, insert, taking the write lock and comparing, temp file, rename, memory, answer) and a
process crash possible at any time. `RoomHistory` proves one gap-free history per room and the refinement
of a plain compare-and-set map, and `Provenance` that what is accepted is what some call of the run asked
for. `Validate` is the room state validation; `Schema` is the schema written out, over the encoded texts, and
proved to be what the validation accepts.

**Limits, Motion, Chain, EventLog** are the token bucket, the motion integrator, the account decoder (with
`Layout`, its byte offsets, and `Utf8`, what counts as text) and the bridge's bounded event log with its
polling readers. A push takes its id and appends under two
different locks, so a later id can be appended first; `EventLog` takes the two halves as separate steps and
proves exactly when a polling reader has every event once and in order.

Assumptions: events reach each open socket reliably and in the order sent; a closed socket hears nothing
and is in no adapter room, and its disconnect handler runs some time later; socket ids are not reused;
rename is atomic and a failed write or rename leaves the final file as it was; crashes are process
crashes (nothing is fsynced). `f32` and `f64` are reals, with the non-finite `f32` values kept apart, and
square roots are given by their defining property.

A failed load is not an assumption but a result: on a load error the server serves an empty room at
revision 0, and `RoomHistory.FailedLoadForksHistory` proves that the history survives the next update if
and only if the load did not fail on an existing file. The history theorems are about runs without such a
failure (`Calm`).

Where the texts differ: the rejection message for links speaks of 512 characters, the check counts bytes
(src/realtime/validate.rs:76, src/realtime/validate.rs:116), and the model counts bytes. A leave that
names another room raises the claim but keeps the room (src/realtime/mod.rs:309-311), and so does the
model.

## Model

| member | source | states |
|---|---|---|
| Limits.TokenBucket.constructor | src/limits.rs:15-22 | a new bucket is full |
| Limits.TokenBucket.TryTakeAt | src/limits.rs:29-39 | grants exactly when a whole token is available after capped refill, and spends it |
| Limits.TakesExactly | src/limits.rs:29-39 | a call is granted exactly when capacity and tokens plus refill for the time passed make a whole token; it leaves the smaller of capacity and that sum, less the token spent |
| Limits.DrainedRecovers | src/limits.rs:30-36 | an empty bucket grants again exactly once the refill has made a token |
| Limits.StaysValid | src/limits.rs:29-39 | over every run tokens stay between 0 and the capacity and the clock mark is the last call |
| Limits.WindowBound | src/limits.rs:29-39 | any consecutive calls, after any past, grant at most capacity + refill * duration |
| Limits.RejectedCallsLeaveNoTrace | src/limits.rs:29-39 | deleting all rejected calls from a run changes neither the grants nor what is available at any later time |
| Limits.GreedyIsOptimal | src/limits.rs:29-39 | no other accept/reject choice under the same capacity and refill accepts more, by a potential on tokens and lead |
| Limits.GreedyNeverBehind | src/limits.rs:29-39 | the same after every prefix of the run |
| Limits.GreedyIsBestForWindows | src/limits.rs:29-39 | from a full bucket no choice that keeps capacity + refill * duration in every window accepts more calls |
| Motion.TickShrinksByStep | src/realtime/mod.rs:498-515 | a tick that does not arrive leaves exactly distance - step to go |
| Motion.TickStaysInWorld | src/realtime/mod.rs:498-515 | a tick between two points of the world box stays in the box |
| Motion.TicksToArriveIsFirst | src/realtime/mod.rs:504-507 | max(1, ceil(distance / step)) is the first tick count whose steps cover the distance |
| Motion.OneTickLess | src/realtime/mod.rs:504-507 | a tick arrives exactly when one tick is left, and any other tick reduces that count by one |
| Presence.ClientsState.InsertDefault | src/realtime/mod.rs:155-159 | a connecting socket gets a fresh record, an existing one is kept |
| Presence.ClientsState.SetWallet | src/realtime/mod.rs:178-192 | a verified wallet is set in that record and in its presence payload, and changes nothing else |
| Presence.ClientsState.NotePresenceClaim | src/realtime/mod.rs:233-249 | a claim is noted exactly when it is not older; claimless ones only before any claim |
| Presence.ClientsState.TakeCurrentRoom | src/realtime/mod.rs:292-297 | takes the room and cancels the motion |
| Presence.ClientsState.ClearRoom | src/realtime/mod.rs:299-314 | leaves exactly when the claim is current and the named room is the current one |
| Presence.ClientsState.SupersedeDuplicatePresence | src/realtime/mod.rs:1393-1416 | returns exactly the other holders of the token in the room, once each, clears their room and motion, touches no other record |
| Presence.ClientsState.SetRoom | src/realtime/mod.rs:251-286 | commits exactly when the claim is current; counters restart on entering another room; duplicates are displaced |
| Presence.ClientsState.UpdateUserData | src/realtime/mod.rs:198-229 | replaces the profile by the trimmed and truncated texts and the clamped height scale, keeps, replaces or drops the token, displaces duplicates in the current room |
| Presence.ClientsState.UpdateMove | src/realtime/mod.rs:316-337 | accepted exactly in a room and with a newer number; cancels the motion and counts the move |
| Presence.ClientsState.SetGoto | src/realtime/mod.rs:468-483 | only inside a room; sets the motion and optionally the rotation |
| Presence.ClientsState.Remove | src/realtime/mod.rs:339-342 | drops the record and reports its room |
| Presence.ClientsState.SnapshotRoom | src/realtime/mod.rs:344-351 | exactly the members of the room with their info |
| Presence.ClientsState.TickOne | src/realtime/mod.rs:489-533 | one record's tick: idle, roomless, arriving or advancing |
| Presence.ClientsState.TickMotions | src/realtime/mod.rs:485-537 | ticks every record once and broadcasts each moving member once, in any order |
| Views.Observer.OnExistingClients | src/bin/agent_bridge.rs:182-211 | the snapshot replaces the view if all of it decodes, and is dropped otherwise |
| Views.Observer.OnNewUser | src/bin/agent_bridge.rs:212-248 | the entry is inserted or replaced, by the blank default if the payload does not decode |
| Views.Observer.OnDelete | src/bin/agent_bridge.rs:249-276 | the entry is removed |
| Views.Observer.OnMove | src/bin/agent_bridge.rs:277-345 | position and rotation are set, an undecodable rotation as 0, avatar and nickname only when not empty |
| Views.Observer.OnChat | src/bin/agent_bridge.rs:346-397 | the newest 200 messages are kept, the view is untouched |
| Views.Detaches | src/realtime/mod.rs:1121-1128 | clearing a room, leaving the adapter room and announcing the removal together keep all views and room streams true |
| Views.ArrivesKnown | src/realtime/mod.rs:1160-1184 | adapter join, snapshot, confirmation and announcement together keep them true, as far as they decode |
| Views.ArrivesUnknown | src/realtime/mod.rs:1160-1176 | so does arriving without a profile, when nobody is told |
| Handlers.Server.constructor | src/realtime/mod.rs:143-153 | the server starts without clients, joins or guards |
| Handlers.Server.OnConnect | src/realtime/mod.rs:789-793 | the connect step |
| Handlers.Server.Depart | src/realtime/mod.rs:1121-1128 | leaving the adapter room and telling the others is the effect list of a departure |
| Handlers.Server.Arrive | src/realtime/mod.rs:1160-1184 | join, snapshot, confirmation and announcement are the effect list of an arrival |
| Handlers.Server.OnAuthVerified | src/realtime/mod.rs:839-853 | the authenticate step, reporting the room whose members will be told |
| Handlers.Server.OnJoinSpaceBegin | src/realtime/mod.rs:1116-1129 | phase 1 of a join is one step: note the claim, leave the current room, tell its members |
| Handlers.Server.OnJoinSpaceCommit | src/realtime/mod.rs:1134-1186 | phase 2 is one step: commit if current, leave a re-entrant room, evict, join, snapshot, announce; or the join ends; with sockets that connect and logins that succeed inside it, it is its two halves around them |
| Handlers.Server.EvictSuperseded | src/realtime/mod.rs:1418-1443 | every displaced socket is told and detached, then each removal is announced |
| Handlers.Server.OnLeaveSpace | src/realtime/mod.rs:1216-1228 | the leave step |
| Handlers.Server.OnSetUserData | src/realtime/mod.rs:1025-1041 | the profile step with eviction and announcement |
| Handlers.Server.OnDisconnect | src/realtime/mod.rs:1374-1389 | the disconnect step |
| Handlers.Server.OnMove | src/realtime/mod.rs:1043-1087 | checks position and rotation, moves, owes one broadcast |
| Handlers.Server.OnGoto | src/realtime/mod.rs:1089-1101 | checks the target, clamps the speed, sets the motion |
| Handlers.Server.OnChatMessage | src/realtime/mod.rs:983-1012 | a member's non-empty message owes one broadcast |
| Handlers.Server.OnWalletBroadcast | src/realtime/mod.rs:859-892 | after a login the access report and the presence broadcast are owed only if the room is still the same |
| Handlers.Server.OnTick | src/realtime/mod.rs:1495-1500 | one tick owes one broadcast per moved member |
| Handlers.Server.OnEmitNext | src/realtime/mod.rs:1500-1508 | owed broadcasts go out in order, the last one releases the guard |
| Convergence.CommitKeepsOnePresence | src/realtime/mod.rs:283-285 | committing a room keeps one presence per room and token |
| Convergence.ProfileKeepsOnePresence | src/realtime/mod.rs:223-227 | so does replacing a token |
| Convergence.CommitAgrees | src/realtime/mod.rs:1141-1186 | phase 2 keeps every view, the adapter and every room stream true, re-entrant room switch and eviction included |
| Convergence.ProfileAgrees | src/realtime/mod.rs:1025-1041 | so does a profile change with eviction |
| Convergence.EmitNextKeeps | src/realtime/mod.rs:1500-1508 | so does a broadcast that other readers overtook |
| Convergence.StepKeeps | src/realtime/mod.rs:785-1228 | every step of the protocol keeps the whole invariant |
| Convergence.RunIsConsistent | src/realtime/mod.rs:785-1228 | the invariant holds in every reachable world |
| Convergence.ViewsConvergeExactly | src/bin/agent_bridge.rs:182-345 | in every reachable world a live member whose newest snapshot decoded sees itself, every member with a profile and nobody from outside, and shows another member rightly exactly when that member's newest announcement decoded, or a `move` came since, or it has no profile |
| Decoding.ViewsConverge | src/bin/agent_bridge.rs:182-345 | in every world reached with finite or absent `goto` rotations a live member's folded view holds itself, every member with a profile and nobody from outside, all others under their current name and avatar |
| Decoding.LastWordCounts | src/bin/agent_bridge.rs:182-345 | what a view shows of a client, place and turn included, is what the last event about it said |
| Decoding.JoinConvergesExactly | src/bin/agent_bridge.rs:188-207 | at every reachable join commit: if all members have finite rotations the newcomer's view is the room, otherwise it keeps the view it had; and for a socket without a view this is an equivalence |
| Decoding.ProfileConvergesExactly | src/bin/agent_bridge.rs:223-231 | after every reachable profile change another member shows the new profile exactly when the changed record's rotation is finite or the profile is empty |
| Decoding.InfiniteRotationBlindsJoiner | src/realtime/mod.rs:1089-1101 | the failing run: after a `goto` with an infinite rotation the next socket to join sees neither that client nor itself |
| Convergence.AdapterAgrees | src/realtime/mod.rs:1121-1160 | in every reachable world a live socket has joined exactly its record's room |
| Convergence.OneBrowserOnePresence | src/realtime/mod.rs:1393-1416 | in every reachable world no two clients share a room and a token |
| Convergence.NoActivityAfterRemoval | src/realtime/mod.rs:1491-1508 | between a removal announced to a room and later activity of that client there, it joined the room again |
| Movement.RunStaysInWorld | src/realtime/mod.rs:1452-1454 | in every run all positions, targets, broadcasts and received payloads are in the world box, a motion implies a room, and with finite or absent `goto` rotations every rotation is finite |
| Movement.FlightProgress | src/realtime/mod.rs:485-515 | before the last tick exactly the steps made are behind and the motion goes on |
| Movement.GotoArrives | src/realtime/mod.rs:485-515 | an undisturbed motion ends on its target at tick max(1, ceil(distance / step)) |
| Movement.StaysArrived | src/realtime/mod.rs:489-496 | later ticks leave an arrived record where it is |
| Movement.FlightIsBroadcast | src/realtime/mod.rs:518-533 | in a run, each tick of the flight queues one `move` of that client, and no later tick does |
| Movement.GotoArrivesInRun | src/realtime/mod.rs:1486-1511 | arrival, place and number of broadcasts in a run in which everything but that record goes on |
| Movement.AdmittedSpeedMakesProgress | src/realtime/mod.rs:1099 | admitted speeds lie in [0.1, 50] and make a step large enough for those theorems |
| Payloads.TokensApply | src/realtime/mod.rs:1466-1473 | the token kept is the text sent, white space aside, if it is 16 to 128 letters, digits, hyphens or underscores, and otherwise none; nothing sent keeps the one held |
| Payloads.NamesApply | src/realtime/mod.rs:212-213 | the name kept is the text sent without the white space around it, at most 32 characters |
| Payloads.ProfilesApply | src/realtime/mod.rs:204-222 | a profile payload leaves its name, avatar, height scale and token, and nothing else changes |
| Payloads.SpeedsApply | src/realtime/mod.rs:1099 | the speed is 3 or the one sent, moved into 0.1 to 50 |
| Payloads.MessagesApply | src/realtime/mod.rs:994-997 | the message sent on is the text without the white space around it, at most 500 characters, and there is none exactly for white space |
| Transitions.ConnectAnswers | src/realtime/mod.rs:155-159 | a new socket has an empty record and has heard nothing |
| Transitions.JoinBeginAnswers | src/realtime/mod.rs:1116-1129 | phase 1, admitted exactly when the claim is not old: out of the room, claim and request kept, the neighbours and nobody else told |
| Transitions.LeaveAnswers | src/realtime/mod.rs:1216-1228 | an admitted leave of the current room, or of another one, or a refused one |
| Transitions.DisconnectAnswers | src/realtime/mod.rs:1374-1389 | the record is gone and its room is told |
| Transitions.CommitIsPossible | src/realtime/mod.rs:251-286 | a join commits exactly when the room exists and its claim is the latest, displacing exactly the other members with its token |
| Transitions.JoinCommitAnswers | src/realtime/mod.rs:1141-1160 | after a commit the client is in the room with the token it sent, every duplicate is out of room and adapter room, and all others are as before |
| Transitions.JoinCommitNews | src/realtime/mod.rs:1149-1184 | what every socket receives of a commit, snapshot contents and order included |
| Transitions.JoinCommitRefused | src/realtime/mod.rs:1134-1147 | a join that does not go through changes no record and sends nothing |
| Transitions.ProfileAnswers | src/realtime/mod.rs:1025-1041 | a profile change keeps what was sent, evicts the duplicates, and tells the room exactly that |
| Transitions.ProfileIsSeen | src/realtime/mod.rs:1025-1041 | with finite `goto` rotations each other live member then sees the name and avatar that were sent |
| Messages.MoveAnswers | src/realtime/mod.rs:1043-1087 | a move is accepted exactly with a place in the box, a finite rotation, a room and a new number; it stands there and its room is owed exactly that |
| Messages.MoveIsSeen | src/realtime/mod.rs:1043-1087 | an accepted move sent on shows every live member the place and rotation sent |
| Messages.GotoAnswers | src/realtime/mod.rs:1089-1101 | an accepted goto sets the place and speed asked for and moves nothing yet |
| Messages.GotoEndsThere | src/realtime/mod.rs:1089-1101 | undisturbed, the client stands at the place asked for exactly when the ticks at its speed cover the way |
| Messages.TicksApply | src/realtime/mod.rs:489-515 | one tick goes a step along the straight line or ends at the target, and changes nothing else but the number |
| Messages.TickAnswers | src/realtime/mod.rs:485-533 | one tick for every record and one owed move for each that flies, with its place and number |
| Messages.ChatAnswers | src/realtime/mod.rs:983-1012 | the room is owed the message sent, under the client's name and wallet; white space or no room, and nothing happens |
| Messages.LoginAnswers | src/realtime/mod.rs:178-192 | a login sets the wallet in the record and in what others see, and nothing else |
| Messages.WalletAnswers | src/realtime/mod.rs:859-892 | after a login the client is owed its access and the others its payload, if it is still in the room |
| Messages.DeliveryAnswers | src/realtime/mod.rs:1500-1508 | an owed broadcast reaches exactly the live members it is for, once |
| Navigation.LatestIsMonotone | src/realtime/mod.rs:238-248 | the latest claim of a socket never goes back in a run, and removed sockets do not return |
| Navigation.CommitsOnlyLatest | src/realtime/mod.rs:262-268 | a join commits only if no larger claim was noted or attempted earlier on that socket |
| Navigation.NewerIntentCancels | src/realtime/mod.rs:262-268 | a strictly newer leave or join makes phase 2 of an in-flight join impossible |
| Navigation.CommittedClaimsNeverDecrease | src/realtime/mod.rs:262-268 | committed claims of a socket never decrease |
| Navigation.ClaimlessIsIgnored | src/realtime/mod.rs:244-247 | after a positive claim no claimless join or leave changes anything on the table or network |
| Navigation.MovesAreNumbered | src/realtime/mod.rs:272-276 | per stay, accepted client numbers strictly increase from above 0 and the server counter is the number of moves applied, saturating |
| Navigation.AcceptedExactlyWhenNewer | src/realtime/mod.rs:324-331 | a number is accepted exactly in a room and above all numbers accepted in this stay |
| Reduction.HalvesMakeTheStep | src/realtime/mod.rs:1112-1228 | a write section is its first access to the table followed by the rest |
| Reduction.LandingsCommute | src/realtime/mod.rs:155-192 | any connects and logins that land between the halves may as well come after the section, up to wallets in what was sent |
| Reduction.AuthenticateCommutes | src/realtime/mod.rs:178-192 | a login before, inside or after a write section leaves the same table, and everything sent is the same but for wallets |
| Reduction.FoldErasesWallets | src/bin/agent_bridge.rs:52-57 | for payloads that decode the fold erases exactly wallet and height scale |
| Reduction.ReadingsAlike | src/bin/agent_bridge.rs:182-345 | what was received with other wallets leaves the same view |
| Reduction.RunsReduce | src/realtime/mod.rs:155-192 | every run with landings inside sections ends like a run of whole sections, up to wallets in what was sent |
| Reduction.InterruptedRunsConverge | src/realtime/mod.rs:785-1228 | the invariant holds and views converge in those runs too |
| Validate.ValidatesExactly | src/realtime/validate.rs:87-131 | accepts exactly the schema, otherwise reports the first fault: header fields in order, then the first bad object |
| Validate.FaultIffInvalid | src/realtime/validate.rs:99-128 | the chain of checks on one object finds a fault exactly when the object breaks the schema |
| Schema.AcceptsSchema | src/realtime/validate.rs:87-131 | validation accepts exactly the written-out schema and otherwise reports the first fault in order |
| Schema.ByteLenIsEncoded | src/realtime/validate.rs:69-85 | lengths are those of the UTF-8 encoding |
| Validate.StampKeepsValid | src/realtime/validate.rs:49-56 | stamping the time keeps validity, and the empty room is valid |
| Rooms.RoomStore.Load | src/store.rs:35-41 | the file, its absence, or an error |
| Rooms.RoomStore.RenameOver | src/store.rs:48 | installs whatever the temp file holds |
| Rooms.RoomPrograms.CheckCache | src/realtime/mod.rs:383-385 | the cache check step |
| Rooms.RoomPrograms.LoadFromDisk | src/realtime/mod.rs:386-403 | the disk read step, with the empty room for a missing or unreadable file |
| Rooms.RoomPrograms.OrInsert | src/realtime/mod.rs:404-405 | the insert step keeps a record that is already there |
| Rooms.RoomPrograms.CompareAndBegin | src/realtime/mod.rs:418-430 | the compare step under the write lock |
| Rooms.RoomPrograms.FinishWrite | src/store.rs:45-47 | the temp file step |
| Rooms.RoomPrograms.FinishSave | src/store.rs:48 | the rename step |
| Rooms.RoomPrograms.PublishUpdate | src/realtime/mod.rs:435-436 | memory is set after the file |
| Rooms.RoomPrograms.RoomProgram | src/realtime/mod.rs:382-406 | a whole uninterrupted read: cached record, else file, else empty room |
| Rooms.RoomPrograms.SaveAndPublish | src/realtime/mod.rs:431-436 | a whole uninterrupted save: file and memory change together or not at all |
| Rooms.RoomPrograms.ApplyRoomUpdate | src/realtime/mod.rs:409-437 | a whole uninterrupted update is a durable compare and set |
| RoomHistory.StepKeeps | src/realtime/mod.rs:382-437 | every step, crash included, keeps history, files, memory, calls and answers sound |
| RoomHistory.OneHistory | src/realtime/mod.rs:409-437 | any two answers for a room with the same revision >= 1 carry the same record, across crashes |
| RoomHistory.Durable | src/store.rs:43-50 | at every moment, also after a crash, the file holds at least every revision ever sent |
| RoomHistory.AcceptedRevisions | src/realtime/mod.rs:425-430 | accepted revisions are consecutive, from 1 for a room without a file |
| RoomHistory.StoredStatesAreValid | src/realtime/mod.rs:1326-1340 | every state on disk, in memory or sent is valid |
| RoomHistory.OneSaveAtATime | src/store.rs:45-48 | no two saves are under way at once, and a rename installs what its own save wrote |
| RoomHistory.RoomIsLoaded | src/realtime/mod.rs:417-419 | the room of a waiting update is in memory |
| RoomHistory.RefinesCompareAndSet | src/realtime/mod.rs:382-437 | each step is nothing or one compare-and-set, to the state asked for, on a plain map, and each answer is true of that map at a step of its call |
| Provenance.AcceptedIsAsked | src/realtime/mod.rs:409-437 | in every run each accepted answer and each record written is the state, wallet and next revision of an update that began earlier, stamped when that call took the lock |
| RoomHistory.FailedLoadForksHistory | src/realtime/mod.rs:394-402 | for an unloaded room the history stays gap-free through the next update exactly when no existing file failed to load |
| Chain.Reader.Take | src/chain.rs:266-271 | the next bytes and an advanced cursor, or an error and the cursor as it was |
| Chain.Reader.U8 | src/chain.rs:272-274 | one byte |
| Chain.Reader.U32 | src/chain.rs:275-277 | four bytes, little endian |
| Chain.Reader.String | src/chain.rs:281-284 | a length-prefixed UTF-8 text |
| Chain.Reader.Editors | src/chain.rs:311-318 | at most 64 keys |
| Chain.DecodeSpace | src/chain.rs:302-327 | decodes the account layout field by field |
| Chain.DecodeConfig | src/chain.rs:289-299 | decodes the two counters |
| Layout.ConfigLayout | src/chain.rs:287-299 | the counters are the little-endian numbers at bytes 136 and 140, and only shorter accounts are rejected |
| Layout.DecodesLayout | src/chain.rs:301-327 | an access record is returned exactly when the bytes are laid out as it says, field by field |
| Utf8.ValidExactlyEncodings | src/chain.rs:281-284 | bytes are accepted as text exactly when they encode a text |
| Chain.ConfigOffsets | src/chain.rs:287-299 | the counters sit at bytes 136 and 140, and only shorter accounts are rejected |
| Chain.SpaceInverts | src/chain.rs:337-354 | decoding an encoding followed by any tail returns the space and the tail |
| Chain.SpaceIsSound | src/chain.rs:302-327 | whatever decodes is the encoding of a well-formed space with at most 64 editors |
| Chain.PrefixIsRejected | src/chain.rs:266-271 | every proper prefix of an encoding is rejected |
| Chain.DecodesExactlyEncodings | src/chain.rs:302-327 | an access record is returned exactly for the accounts that encode it |
| EventLog.EventBuffer.TakeId | src/bin/agent_bridge.rs:129-132 | the first half of a push: the next id |
| EventLog.EventBuffer.Append | src/bin/agent_bridge.rs:134-143 | the second half: append and keep the newest 2000 |
| EventLog.EventBuffer.PushEvent | src/bin/agent_bridge.rs:128-144 | a push that meets no other |
| EventLog.EventBuffer.GetEvents | src/bin/agent_bridge.rs:487-505 | the first events above the cursor, up to the clamped limit |
| EventLog.LogHoldsNewest | src/bin/agent_bridge.rs:128-144 | however the halves of pushes interleave, the log holds the newest min(n, 2000) appended, and every id given out is pending or appended, once |
| EventLog.ExactlyOnce | src/bin/agent_bot.rs:480-498 | for any interleaving of push halves and polls, a reader has every event up to its cursor once and in order exactly when no poll returned an event while a smaller id above the cursor was unappended, behind it in the log, or trimmed |
| EventLog.SequentialExactlyOnce | src/bin/agent_bot.rs:480-498 | when pushes do not overlap that is exactly when it never polled more than 2000 behind |
| EventLog.PollIsFirstAbove | src/bin/agent_bridge.rs:494-503 | a poll returns the first events above the cursor, none skipped, fewer than the limit only when there are no more |
| EventLog.LimitsAre | src/bin/agent_bridge.rs:492 | the limit is 200 or the one sent, moved into 1 to 2000 |
| EventLog.SequentialPollAdvances | src/bin/agent_bot.rs:480-498 | and a poll that is not too late brings the next events, as many as limit and log allow |
| EventLog.PassedIsLost | src/bin/agent_bot.rs:492-498 | an event the cursor has passed without receiving it never arrives |
| EventLog.PolledInBetween | src/bin/agent_bridge.rs:128-138 | crossing pushes with a poll between the appends lose the first event |
| EventLog.PolledOneByOne | src/bin/agent_bridge.rs:493-503 | crossing pushes that are both over lose it at limit 1 |
| EventLog.PolledTogether | src/bin/agent_bridge.rs:493-503 | at a larger limit both arrive, in the wrong order |

## Left out

- Solana RPC, JSON and HTTP: the total supply and the verified wallet are arguments of steps.
- Access rules, ownership and config caches, moderators: an update reaches the store model once it is authorised and valid.
- Signatures and nonces: only the wallet that a successful `auth` sets is modelled.
- Rate limiting inside handlers: a limited call is a step not taken, a limited join a `JoinAbort`; the bucket itself is in `Limits`.
- Origin guard, routes, telemetry, configuration, `main`: thin wrappers.
- The language-model bots, apart from the event cursor of `agent_bot`.
- Presence.ClientsState.SetWallet: does not model the nonce that is replaced, because signature checking is left out.
- Server times, `auth result` and `room error` events, and the access report after a join: no modelled decision or observer reads them.
- Room id parsing: steps take its result.
- Rounding of `f32` and `f64`; overflow of the `u64` revision, which takes 2^64 accepted updates.
- The order in which concurrent `move` broadcasts arrive: read guards may overtake each other, so a view's positions are not claimed to be the newest.
- Interruption of a write section by a socket that closes: closing is a step before or after it, as a closed socket's own events matter to nobody.
- `RoomStore::list`, which no handler calls.
