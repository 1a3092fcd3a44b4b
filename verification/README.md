# Verified model of DOC_GameServer

DOC_GameServer is a multi-threaded game server: Boost.Asio moves the bytes, and the logic is the
state around it. This project models that logic in Dafny and proves what the server relies on but
nowhere checks. It covers five components.

- **Outbound sends** (`Bytes.dfy`, `BufferUtils.dfy`, `SendProtocol.dfy`, `SendConnection.dfy`).
  Producers, one sender thread, a completion handler and a shutdown interleave freely over a
  locked queue, two binary semaphores and one shared send buffer. One step is one access to shared
  state. The inductive invariant ties both semaphores, the sender's program counter, the write in
  flight and the queue together. `Connection` has the fields and methods of `tcp_connection` and
  `udp_connection`; each method is shown to be a run of the step system.
- **Framing** (`Framing.dfy`). The length-prefixed stream, the loop that reads it, command bytes,
  and UDP datagrams read through a buffer that keeps older bytes.
- **Command relay** (`Subsequences.dfy`, `CommandRelay.dfy`, `CommandQueues.dfy`). From `Process`
  through one of two batch-drained server queues and the queue of a match to its execution, with
  all threads interleaved and the rest of the server changing sessions, logins, active matches
  and rosters at any time.
- **Matches** (`MatchModel.dfy`, `MatchRuns.dfy`, `MatchTold.dfy`, `MatchHistory.dfy`,
  `MatchObjects.dfy`, `MatchManager.dfy`). The life of a match as a state machine, its two
  broadcast packets and what they carry over whole runs, the classes `Match` and `Player` with
  their loops over maps, queues and the shared buffer, and the double index of live matches.
- **Sessions** (`SessionModel.dfy`, `SessionTold.dfy`, `SessionObjects.dfy`). The two session
  maps, the session list, the deferred add and remove queues with a removal loop that pushes onto
  the queue it drains, and the rule for a second login, which depends on when a weak pointer
  expires.

`MatchTold` and `SessionTold` are references: what the list of events of a run tells about a match
and about the sessions, without buffers, queues or indexes. The step systems are shown to agree
with them in every run, so that each result about a run can be read off its events.

Where the source changes state in place there is a class or an array, and its methods are proved
to do what a step of the corresponding value model does (`View() == Step(old(View()))`). The
safety and progress results are then proved about all runs of the value model.

## Results that are conditions

Several properties one would like hold only under a condition; each is stated with its exact
condition, or with the input that breaks it.

- A pipeline at rest has written everything in order if and only if no release in the run lost its
  token to a full `m_sends_semaphore_2` and every message fits the buffer
  (`RestMeansAllWritten`). Releasing a full semaphore breaks the precondition of `binary_semaphore::release` (section 32.7.3 of
  ISO/IEC 14882:2020). Both possible behaviours are modelled: if release adds one, every drain
  delivers everything (`DrainDelivers`); if it saturates at one, two sends before the sender wakes
  end with everybody at rest and a message unwritten (`SaturationStrandsAMessage`). Safety holds
  for both.
- After a shutdown at most one more write begins, and only if the sender is past its last test of
  `m_running`. When nobody can move, the sender has exited, waits for a token that nobody holds, or
  has overrun the buffer (`ShutdownStopsWrites`).
- A stream of frames is read back if and only if every message has 1 to 65535 bytes
  (`StreamRoundTrip`). The send buffer narrows the upper bound to 65533 (`MAX_MESSAGE`).
- A datagram that fits the receive buffer is delivered if and only if its announced size is at
  most 65530, and the buffer handed on is three bytes longer than the payload (`UdpRoundTrip`).
- In every run an orientation broadcast stays inside its buffer if and only if the roster is no
  larger than the start roster's size modulo 256 (`BroadcastFitsExactly`). A match that starts
  with 256 players is reachable, and its first broadcast leaves the buffer
  (`LargeMatchOverruns`).
- An orientation update depends only on its command if and only if the command is at least 29
  bytes long (`UpdateReadsOnlyTheCommand`).
- The event packets of a run tell exactly the events taken from the queues if and only if every
  batch had at most 255 events of at most 255 bytes (`EventsExactlyOnce`); for the run of a single
  jump that is so if and only if its data has at most 255 bytes (`JumpArrivesExactly`).
- When the relay is at rest a match has executed exactly what was submitted if and only if no step
  dropped a command (`NothingLostUnlessDropped`, `RelayDelivers`).
- An entry of the player map stays as it is if and only if no `Update` finds a session linked to
  its player queued for removal (`EntryStaysExactly`); for the removal of a rejected second login
  that means no other such session (`RejectedLoginLeavesFirst`).
- A fresh short id exists if and only if fewer than 65536 matches are live (`FreshShortIdExists`).

## Modelling assumptions

Where the literal code differs from the model, or leaves something open:

- `Match::RemovePlayer` returns without unlocking when it succeeds (source/Match.cpp:64-69); the
  model unlocks on both paths.
- `JoinPlayer` tests the state before it locks (source/Match.cpp:43-51) and `StartMatch` sizes its
  buffer before it locks (source/Match.cpp:90-103); each is one atomic step here.
- `Init` and `ThreadInit` of a match are one step, taken once and before any `EndMatch`.
- The add loop of `Update` pops the queue while it holds a reference to its front
  (source/Network/AsyncServer.cpp:35-38); the model takes the front by value. The two drains of
  `Update` are one step of the session model, and `HandleStartConnect_Finished` is another.
- Session tokens are unique. A new UDP id or short id is any id that is not in use.
- `m_commands[command]` in `Process` (source/Network/AsyncServer.cpp:342) inserts an entry without
  a callback for an unknown opcode. Such a command goes to the main queue; the step in which
  `DoProcess` would call it for a live session ends the run. `m_run_async_commands` is true from
  the start.
- A `uint16_t` read or written through a byte pointer is little-endian. Floats are opaque
  four-byte words.
- What memory holds behind a command that is too short (`beyond`) and the contents of newly
  allocated memory (`junk`) are inputs. An oversize copy into the send buffer, a fill past the
  orientation buffer and a read past the receive buffer are explicit outcomes after which the
  model makes no further claim.
- Timeouts, disconnect commands and empty frames are removal requests that may come at any time,
  and a read error or a failed send is a call of `Close` at any time. The decision of the
  authenticator is a boolean input.
- `Player` appears twice: its session link and user id in the session model, its instance id,
  orientation and events in the match model. The session model keeps the rosters of all matches
  and the active match of each player, since they decide who owns a player; a player can be in
  several rosters.
- The owners of a `Player` are the player map, the rosters of matches and the handler that is
  running; a weak pointer has expired when none of them holds it.

## Model

| member | source | states |
|---|---|---|
| BufferUtils.Add | source/Network/BufferUtils.h:66-79 | the allocation and two copies of the two-buffer form produce the concatenation |
| BufferUtils.AddAll | source/Network/BufferUtils.h:81-88 | the insertion loop of the many-buffer form concatenates all buffers in order |
| BufferUtils.RemoveFrontExactly | source/Network/BufferUtils.h:38-53 | removing as many bytes as were put in front gives back the rest; a buffer stays as it is if and only if nothing is to be removed or it is too short |
| Framing.ReadLoop | source/Network/TCP_Connection.cpp:136-184 | on any bytes the read loop delivers the messages, the unread rest and the closed flag of the recursive deframer |
| Framing.DeframeExactly | source/Network/TCP_Connection.cpp:136-184 | for every stream, what is delivered, what is left and whether the session is closed are the one way to split it into frames of 1 to 65535 bytes and then a zero length or an incomplete frame |
| Framing.DeframeResumes | source/Network/TCP_Connection.cpp:31-39 | bytes arriving in two pieces, split anywhere, give what the whole stream gives |
| Framing.PrefixDeliversPrefix | source/Network/TCP_Connection.cpp:136-184 | any prefix of a stream delivers a prefix of the messages of the stream |
| Framing.StreamRoundTrip | source/Network/BufferUtils.h:14-24 | framed messages are read back exactly, with nothing left over, if and only if each has 1 to 65535 bytes |
| Framing.DecodeEncode | source/Network/AsyncServer_SocketUser.cpp:220-229 | a message decodes to a command if and only if it is that command's code followed by its payload |
| Framing.CommandStreamRoundTrip | source/Network/AsyncServer_SocketUser.cpp:131-134 | commands survive prefixing, framing, the stream and decoding if and only if every payload has at most 65534 bytes |
| Framing.UdpDispatch | source/Network/AsyncServer.cpp:273-303 | for every receive buffer and id map: a session receives something if and only if the size is from 3 to 65530 and the id is registered, then only the session of that id, with byte 4 as the code and the bytes behind it |
| Framing.UdpRoundTrip | source/Network/AsyncServer.cpp:273-303 | a datagram that fits the buffer reaches the session under its id with its code and a buffer that is the payload and three stale bytes, exactly when its size is at most 65530; otherwise the copy leaves the receive buffer |
| SendProtocol.StepKeepsControl | source/Network/TCP_Connection.cpp:62-96 | every step of every thread keeps turn taking on semaphore_1, the lock, the token accounting of semaphore_2 and both counters |
| SendProtocol.StepConserves | source/Network/TCP_Connection.cpp:13-96 | every step keeps accepted frames equal to written, in flight, held by the sender, queued and held by a producer, in that order |
| SendProtocol.StepIsPossible | source/Network/TCP_Connection.cpp:62-96 | exactly where each thread has to wait; a shutdown is always possible and does nothing else; the sender exits only at its test of m_running |
| SendProtocol.SafeInEveryRun | source/Network/TCP_Connection.cpp:62-96 | in every reachable state: at most one write in flight or one token in semaphore_1, the empty-queue branch is never taken, sent messages are conserved in lock order, queue length and UDP try/do counters agree with the queue |
| SendProtocol.BufferSafeInEveryRun | source/Network/TCP_Connection.h:82-87 | no reachable step changes the buffer or starts a write while one is in flight; a completion finds semaphore_1 empty and finishes exactly the bytes in flight |
| SendProtocol.TokensMatchQueue | source/Network/TCP_Connection.cpp:13-29 | semaphore_2, unreleased pushes and the sender's token never exceed the queue length, and equal it when release adds one |
| SendProtocol.DrainBounded | source/Network/TCP_Connection.cpp:62-96 | while running and without new sends, every step of anybody decreases a measure, so their number is bounded |
| SendProtocol.DrainReachesRest | source/Network/TCP_Connection.h:82-87 | from every running state of the invariant the pipeline reaches a state where no step is possible, by its own steps |
| SendProtocol.RestMeansAllWritten | source/Network/TCP_Connection.cpp:62-96 | at rest and still running, everything sent is written in order if and only if no release of the run lost its token to a full semaphore_2 and every message has at most 65533 bytes; none does when release adds one |
| SendProtocol.RunLoses | source/Network/TCP_Connection.cpp:28-28 | a run loses no token if and only if none of its releases finds a saturating semaphore_2 full |
| SendProtocol.SaturationStrandsAMessage | source/Network/TCP_Connection.cpp:28-28 | with a saturating release two sends in a row end at rest, running, with a message unwritten |
| SendProtocol.DrainDelivers | source/Network/TCP_Connection.cpp:62-96 | with release adding one, every schedule of the remaining steps is bounded and, when none is left, has written everything sent in order |
| SendProtocol.WrittenBytesDecode | source/Network/TCP_Connection.cpp:13-96 | the bytes written by any interleaving deframe to exactly the first messages sent |
| SendProtocol.RunningExactly | source/Network/TCP_Connection.cpp:55-60 | a connection runs until the first shutdown of the run and never again |
| SendProtocol.ShutdownStopsWrites | source/Network/TCP_Connection.h:82-87 | after a shutdown, for every continuation: at most one more write begins, and only if the sender is past its last test of m_running; an exited sender stays so; at rest the sender has exited, waits for a token nobody holds, or has overrun the buffer |
| SendConnection.Connection.constructor | source/Network/TCP_Connection.h:65-73 | a new connection is in the initial state of the protocol |
| SendConnection.Connection.Send | source/Network/udp_connection.cpp:23-41 | Send is a run of the protocol's producer steps: frame queued last, counters raised, semaphore_2 released |
| SendConnection.Connection.StartSend | source/Network/udp_connection.cpp:43-71 | start_send from any state is a run of the sender's steps: after a shutdown nothing changes; else it waits for a token, overruns the buffer, or takes the first frame from the queue, copies it to the front of the buffer and has it in flight |
| SendConnection.Connection.Acquire | source/Network/TCP_Connection.cpp:67-90 | the part from the acquire on: which of the three ends it takes, and the whole state after it |
| SendConnection.Connection.HandleWrite | source/Network/TCP_Connection.cpp:93-96 | the handler completes the front write with the bytes of the buffer and releases semaphore_1 |
| SendConnection.Connection.TestRunning | source/Network/TCP_Connection.h:82-87 | the loop test ends the thread of a stopped connection and goes on to start_send otherwise |
| SendConnection.Connection.AcquireOne | source/Network/TCP_Connection.h:82-87 | the acquire of semaphore_1 takes a token or blocks |
| CommandRelay.QueuesConserve | source/Network/AsyncServer.cpp:354-366 | at every moment of every run the commands of each class submitted are those processed, batched and queued, in order, and no queue holds the other class |
| CommandRelay.RouteExtends | source/MatchManager.cpp:48-65 | routing one command extends what was routed by that command's data or not at all, so it stays a subsequence |
| CommandRelay.StepIsPossible | source/Network/AsyncServer.cpp:338-366 | any command can be submitted at any time, each thread can always go on with its batch, and only a callback that is missing stops the main thread |
| CommandRelay.RouteExactly | source/MatchManager.cpp:48-65 | a command is routed to a match, with its data and its player's user id, if and only if it is a match command of a live, authenticated session whose player is active in that match |
| CommandRelay.AsyncExactly | source/Server_Main.cpp:150-151 | of the four registered opcodes only the match command is asynchronous |
| CommandRelay.TakesWholeQueue | source/Network/AsyncServer.cpp:124-135 | a thread takes its whole queue as its batch |
| CommandRelay.ExecutedIsSubsequence | source/Match.cpp:292-325 | in every run the commands a match executes, each with the session it came from, are a subsequence of the match commands given to Process |
| CommandRelay.ExecutedForItsPlayer | source/MatchManager.cpp:48-65 | each executed command was routed at a moment when its session was authenticated, and carries the user id of the player of that session, who was in the match |
| CommandRelay.NothingLostUnlessDropped | source/Network/AsyncServer.cpp:393-412 | submitted match commands are counted exactly as executed, under way or dropped, where a drop is a session gone, not authenticated, without player or with a player not in the match, or a user not in the roster; nothing under way and nothing dropped is the same as executed equal to submitted |
| CommandRelay.MovesAreBounded | source/Network/AsyncServer.cpp:84-118 | without new submissions every step that moves a command lowers a measure, however the threads are scheduled |
| CommandRelay.RelayReachesRest | source/Match.cpp:292-304 | from every state the async thread and the match thread bring everything under way to its end |
| CommandRelay.RelayDelivers | source/Network/AsyncServer.cpp:84-118 | once submissions stop, any schedule that ends at rest has executed or dropped each match command, and executed exactly what was submitted if and only if none was dropped |
| CommandRelay.WireToMatch | source/Network/AsyncServer_SocketUser.cpp:220-234 | for each client of any run, with any other clients submitting: what the match executes of the commands its session submitted over TCP is a subsequence of the match commands it framed and sent |
| CommandQueues.Duplicate | source/Network/AsyncServer.cpp:124-135 | everything moves to the end of the other queue in order, and the count is returned |
| CommandQueues.CommandServer.Process | source/Network/AsyncServer.cpp:338-366 | any command goes to the end of the queue of its class, an unknown opcode to the main queue, and the other queue is unchanged |
| CommandQueues.CommandServer.ProcessReceiveBuffer | source/Network/AsyncServer_SocketUser.cpp:220-234 | a message is processed as the command in its first byte with the rest as payload; an empty one is dropped |
| CommandQueues.CommandServer.ReceiveDatagram | source/Network/udp_connection.cpp:108-117 | a received datagram is processed for the session of its id or for nobody, as its dispatch says |
| CommandQueues.CommandServer.ProcessAsyncOnce | source/Network/AsyncServer.cpp:84-118 | one turn empties the queue and appends to the match queue what each command routes to, in order |
| CommandQueues.CommandServer.DoProcess | source/Network/AsyncServer.cpp:393-412 | a command reaches the match queue exactly if it is a match command of a live, authenticated session whose player is in that match; reported is whether the entry under its opcode has no callback |
| CommandQueues.OnceIsARun | source/Network/AsyncServer.cpp:88-118 | an undisturbed turn has the same effect as its take step and its routing steps in the relay |
| MatchModel.OrientationBitExact | source/Match.cpp:371-386 | the seven floats read from an update serialise back to its 28 bytes, though the quaternion's constructor takes w first |
| MatchModel.KeyOrderIsSorted | source/Match.cpp:240-251 | the iteration order used for rosters is strictly ascending in the user id |
| MatchModel.EventPacketRoundTrip | source/Player.h:136-159 | the event packet parses back to its events, in order with their data, if and only if there are at most 255 with at most 255 bytes each |
| MatchModel.EventPacketLayout | source/Player.h:144-152 | the bytes of the packet: the count modulo 256, then for each event in order its instance id, command, size modulo 256 and data |
| MatchModel.PendingExactly | source/Player.h:136-159 | of a queue exactly the events that are not None are picked up, in order, each as often as queued and under its player's ids |
| MatchRuns.OrientationPacketDecodes | source/Match.cpp:236-254 | byte 0 is the player count and the packet decodes to every player in key order with instance id and orientation, whatever a larger roster left behind |
| MatchRuns.OrientationPacketLayout | source/Match.cpp:236-251 | the bytes of the packet: the count, then for the i-th player in key order its instance id at 1 + 29 i and its 28 bytes behind it |
| MatchRuns.BufferFitsExactly | source/Match.cpp:90-93 | the buffer holds a broadcast of k players if and only if k is at most the start count modulo 256; for the start roster itself, at most 255 |
| MatchRuns.StepIsPossible | source/Match.cpp:208-262 | everything can happen to a match in every state, but for a broadcast of a started match that would leave the buffer |
| MatchTold.UpdateReadsOnlyTheCommand | source/Match.cpp:371-380 | an update is the 28 bytes behind its code if there are that many, and only then independent of the memory behind the command |
| MatchTold.CommandOnPlayer | source/Match.cpp:319-352 | a command leaves its player with the orientation update or the Jump event it carried, and nothing else |
| MatchHistory.RosterFrozenAfterStart | source/Match.cpp:41-72 | over every run the state only advances, and after the start the roster only shrinks and stays within the start roster |
| MatchTold.RunAgrees | source/Match.cpp:319-358 | in every run the state of a match, its roster, and each player's instance id, flag, orientation and queue are what its events tell |
| MatchTold.SendsWhatIsTold | source/Match.cpp:264-290 | what SendPlayerEvents takes is every member's queue in key order, and a packet is sent unless the number of events is a multiple of 256 |
| MatchHistory.BroadcastFitsExactly | source/Match.cpp:236-251 | in every run the broadcast of a started match stays inside the buffer if and only if the roster is no larger than the start roster's size modulo 256 |
| MatchHistory.LargeMatchOverruns | source/Match.cpp:90-93 | a run that starts a match of 256 players, whose next broadcast leaves the buffer |
| MatchHistory.BroadcastsStayInBuffer | source/Match.cpp:208-262 | in every run with at most 255 players at the start, every later broadcast writes inside the buffer and decodes |
| MatchHistory.BroadcastCarriesLastUpdates | source/Match.cpp:236-257 | in every run with at most 255 players at the start a broadcast carries for each player in key order its instance id and the 28 bytes of the last update in its commands since it joined, or of its orientation on joining |
| MatchHistory.EventsExactlyOnce | source/Match.cpp:264-290 | in every run the Jump events in each player's commands are those taken from its queue followed by those in it, only Jump is taken, and the packets tell exactly what was taken if and only if every batch respected the limits |
| MatchHistory.JumpArrivesExactly | source/Player.h:144-152 | the run of one jump: its packets parse back to it if and only if its data has at most 255 bytes |
| MatchObjects.Player.SerializeInto | source/Player.h:109-124 | 28 bytes at the given offset become the orientation, all others are unchanged |
| MatchObjects.Player.SerializePlayerEvents | source/Player.h:136-159 | the queue ends empty, the buffer grows by the wire form of its events other than None, in order, and their number is returned |
| MatchObjects.FillEntries | source/Match.cpp:239-251 | the fill loop writes entry i at 1 + 29 i, keeps byte 0 and the bytes behind the last entry |
| MatchObjects.DrainAll | source/Match.cpp:273-278 | all listed queues end empty, the buffer is the encoding of their events in list then queue order, the byte count is their number modulo 256 |
| MatchObjects.Match.JoinPlayer | source/Match.cpp:41-60 | the player joins with the roster size as instance id exactly if the match is open, and becomes active in it; otherwise neither changes |
| MatchObjects.Match.RemovePlayer | source/Match.cpp:62-72 | the entry under the player's user id is removed, reported exactly, the player is active in no match exactly then, and the rest is unchanged |
| MatchObjects.Match.StartMatch | source/Match.cpp:84-126 | exactly an open match starts, with a new buffer sized by the roster size as a byte |
| MatchObjects.Match.ExecuteNetCommand | source/Match.cpp:319-358 | a command changes the sender's player, starts the match or does nothing, as the command semantics on values say; no player's active match changes |
| MatchObjects.Match.ProcessNetCommands | source/Match.cpp:292-304 | the queue ends empty and all its commands are executed in order, each with its own memory behind it |
| MatchObjects.Match.SendOrientationUpdates | source/Match.cpp:208-262 | a started match whose interval has passed sends its whole buffer with the front overwritten by the current roster, or leaves the buffer exactly if the roster does not fit; otherwise nothing happens |
| MatchObjects.Match.SendPlayerEvents | source/Match.cpp:264-290 | a started match empties every queue and sends the packet unless the number of events is a multiple of 256; any other does nothing; no player's active match changes |
| MatchManager.PairedIsBijection | source/MatchManager.cpp:81-106 | two maps that agree under both ids hold the same matches, each once, and have the same size |
| MatchManager.FreshShortIdExists | source/MatchManager.cpp:126-133 | an unused short id exists if and only if fewer than 65536 matches are live |
| MatchManager.Manager.CreateMatch | source/MatchManager.cpp:81-94 | an unknown id gets a new open match under a fresh short id in both maps; a known one changes nothing; the double index is kept |
| MatchManager.Manager.RemoveMatch | source/MatchManager.cpp:96-106 | a match leaves both maps at once; an unknown id changes nothing; the double index is kept |
| MatchManager.Manager.EndMatch | source/Match.cpp:131-136 | the match ends and its id leaves both maps |
| MatchManager.Manager.AddMatchPlayer | source/MatchManager.cpp:37-46 | the player joins the named match exactly if it exists and is open; every other match is unchanged |
| SessionModel.RemoveFrontDecreases | source/Network/AsyncServer.cpp:41-46 | a turn of the removal loop leaves fewer sessions, or as many and a shorter queue, although it may push the token back |
| SessionModel.DrainAddsExact | source/Network/AsyncServer.cpp:34-39 | the add loop makes every pending session live and changes nothing else |
| SessionModel.DrainRemovesExact | source/Network/AsyncServer.cpp:41-46 | the removal loop ends with an empty queue and all sessions connected; left are exactly the sessions whose token was not queued, and the players no removed session linked to |
| SessionModel.TurnsAreBounded | source/Network/AsyncServer.cpp:168-185 | the removal loop takes at most as many turns as there are sessions and queued tokens |
| SessionModel.UpdateExact | source/Network/AsyncServer.cpp:32-46 | both drains from any state of the invariant: which sessions and players remain, and that every one is live and connected |
| SessionModel.DirectoryInEveryRun | source/Network/AsyncServer.cpp:158-185 | in every reachable state tokens and UDP ids lead to the sessions that carry them, every UDP entry to a live or pending session, no two sessions share an id, players are under their own user id |
| SessionModel.StepIsPossible | source/Network/AsyncServer.cpp:32-46 | what each event of a run presupposes; an Update and a removal request can come at any time |
| SessionModel.EnteringOwns | source/Match.cpp:41-60 | joining makes the match own the player and active for it, in place of whoever had its user id, and nobody else |
| SessionTold.RunAgrees | source/Network/AsyncServer.cpp:148-185 | in every run sessions with all their flags, registered players and rosters are what its events tell, and a token is queued for removal if and only if its removal was asked for since the last Update |
| SessionTold.UpdateInEveryRun | source/Network/AsyncServer.cpp:32-46 | in every reachable state Update terminates within the bound and leaves exactly the sessions that nobody asked to remove, live and connected, and the players no removed session linked to |
| SessionModel.FirstLoginStays | source/Server_Main.cpp:55-75 | over every run an entry of the player map is neither evicted nor replaced while the sessions linked to its player stay |
| SessionModel.EntryStaysExactly | source/Server_Main.cpp:38-75 | over every run an entry stays as it is at every moment if and only if no Update finds a session linked to its player queued for removal |
| SessionModel.RejectedLoginLeavesFirst | source/Server_Main.cpp:38-75 | a second login closes its session, its player has no owner, the next Update removes the session, and the first entry survives if and only if no other session linked to it was to be removed |
| SessionObjects.ServerMain.UserConnected | source/Server_Main.cpp:21-36 | a session that already has a living player takes it out of its active match, by user id; any other changes no roster |
| SessionObjects.ServerMain.UserDisconnected | source/Server_Main.cpp:38-53 | the entry under the user id of the session's player goes exactly if the weak link has not expired |
| SessionObjects.AsyncServer.HandleStartConnectFinished | source/Network/AsyncServer_SocketUser.cpp:48-75 | a successful connect makes the session pending under an unused UDP id and keeps the directory invariant; a failed one changes nothing |
| SessionObjects.AsyncServer.CloseSession | source/Network/AsyncServer_SocketUser.cpp:193-218 | a connected session is closed, its living player gives it up and its token is queued; otherwise session and player are unchanged, and so is every other session |
| SessionObjects.AsyncServer.CloseKnown | source/Network/AsyncServer_SocketUser.cpp:193-218 | Close on any live or pending session is the directory's close step and keeps its invariant |
| SessionObjects.AsyncServer.PopulateUserList | source/Network/AsyncServer.cpp:373-382 | the list holds each live session once, for any iteration order |
| SessionObjects.AsyncServer.DoAddPlayer | source/Network/AsyncServer.cpp:158-166 | an unknown token is added, the list rebuilt and a player the session already has leaves its match; a known token changes nothing |
| SessionObjects.AsyncServer.DoRemovePlayer | source/Network/AsyncServer.cpp:168-185 | a live session leaves both maps, the list and the player map and is closed, which may queue its token again, and its player, if a match owns it, gives the session up; an unknown token changes nothing |
| SessionObjects.AsyncServer.Update | source/Network/AsyncServer.cpp:32-46 | both loops terminate and do what the two drains on values do, keeping the directory invariant; a player that a match owns gives up a connected session that goes, and a player whose session stays is as it was |
| SessionObjects.AsyncServer.PlayerAuthenticated | source/Server_Main.cpp:55-75 | the player is registered and its session authenticated exactly if it is authorized and its user id is free; otherwise the session is closed and the map unchanged |
| SessionObjects.AsyncServer.UserIdentify | source/Server_Main.cpp:252-263 | a login is the directory's identify step with a new player and keeps the invariant; a rejected player loses its session |

## Left out

- SendConnection.Connection.StartSend: returns when it would block, and `Acquire` goes on from there; the release that wakes it is another thread's step.
- MatchObjects.Match.SendOrientationUpdates: what a write behind the buffer does to memory is not modelled; the clock is the input `due`.
- Framing.UdpRoundTrip: a datagram larger than the receive buffer is not delivered whole by the socket and is not modelled.
- SessionObjects.AsyncServer.UserIdentify: the player's user id is an input, because it is parsed from JSON; the replies to the client are left out.
- MatchManager.Manager.CreateMatch: requires a free short id for a new match, because the sampling that looks for one would not end.
- MatchManager.FreshShortIdExists: the random sampling that looks for the id may run for ever; its termination is not claimed.
- The methods of classes run without interference; interleaving is covered by `SendProtocol`, `CommandRelay`, `MatchRuns` and `SessionModel`.
- Sockets, acceptors, endpoints, io_service threads and error codes of Boost.Asio, and the initial handshake bytes.
- JSON parsing and serialisation, including the packet sent at the start of a match.
- Console, logging, memory accounting and queue-length statistics.
- The joins in `close` and `Close`: a sender blocked on a semaphore is not woken by them, so only safety is claimed across a shutdown.
- Uniqueness of UDP ports, which the code does not keep track of.
- `MatchUpdate`, floating-point arithmetic, generation of tokens and the decision of the authenticator.
- The recipients of a broadcast and the delivery to them.
- Dereferences of an expired player or a cleared session link in `JoinMatch`, `SubmitPlayerEvent` and `ProcessReceiveBuffer`; the model takes such steps only when the link is alive.
- A claim that a player is in one roster only, unique instance ids after a rejoin or removal, and a live session for every entry of the player map: the code keeps none of these.
- Overflow of the `int` counters of a connection.
- The commented-out `udp_server` class and the vector form of `Receive_UDP`.
