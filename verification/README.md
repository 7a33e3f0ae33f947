# Veq: a verified model of the datagram protocol stack

Veq carries messages over UDP in three layers, and this project models all three in Dafny.

* **Fragmentation over a replay window** (`src/transform.rs`, `src/snow_types.rs`). A chunker cuts
  each message into numbered chunks; the receiver rebuilds messages in a table of at most ten open
  groups, dropping the lowest-numbered group when it overflows. Underneath, every packet carries a
  64-bit nonce, and the receiver lets packets through by a bounded set of the nonces seen so far:
  the rule for out-of-order transport messages in section 11.4 of the Noise Protocol Framework,
  revision 34. The window in use has size 1.
* **Sessions and their handshake** (`src/handler.rs`, `src/session.rs`, role choice in
  `src/veq.rs`). A handler keeps four maps of sessions by id. An incarnation of a session, named by
  a one-time id, moves from poker to responder to established on one side and from initiator to
  established on the other, by the two messages of the Noise KK pattern (section 7.5 of the
  framework) and a first keepalive.
* **The receive queue and the heartbeat** (`src/session.rs`). Several receivers wait on one queue
  through a table of wakers; a monitor declares a session dead when keepalives stop.

## How the model is built

Objects that the program changes in place are classes: `ChunkGroup`, `Chunker`,
`LossyTransportState`, the pending sessions, `Session`, `Receiving`, `Handler`, `SessionReady`.
Their methods follow the program step by step, including the in-place overwrite of the
packet buffer, and each is proved against a function on values that is also the step of the state
machines. The handler object keeps its history, and every public method proves that it is still in
the state of that run, so the theorems about runs hold of the object. The assumptions about byte
layouts are met by layouts built in `Layouts.dfy`, over which a message goes from end to end.

| file | content |
|---|---|
| `Common.dfy` | small sets-and-sequences vocabulary, codecs |
| `ReplayWindow.dfy` | the window and its reference with the whole history |
| `SnowTypes.dfy` | symbolic Noise terms, the transport object, the order on keys |
| `Transform.dfy`, `Reassembly.dfy`, `Completeness.dfy`, `Grouping.dfy` | the chunker; safety; exactly what comes out; permutations and duplicates |
| `Session.dfy`, `SessionLaws.dfy` | sessions, and what each answer and effect of theirs means to the peer and the user |
| `Receivers.dfy`, `Heartbeat.dfy`, `WireOrder.dfy` | waiting receivers, the monitor, concurrent senders and the peer |
| `Handler.dfy`, `HandlerObject.dfy`, `HandlerLaws.dfy` | the handler as a function, as an object, and what its operations mean |
| `HandlerProofs.dfy`, `WindowProofs.dfy`, `HandlerNonces.dfy`, `Futures.dfy`, `Retransmits.dfy` | the handler over whole runs: incarnations, windows, nonces, futures, tasks |
| `Ownership.dfy` | the handler's lock sections interleaved |
| `Handshake.dfy`, `Agreement.dfy`, `Veq.dfy` | one handshake, any number of handlers on a hostile network, roles |
| `EndToEnd.dfy` | both layers composed over the network |
| `Layouts.dfy` | byte layouts that meet all the assumptions |

Idealisations. A ciphertext is a term that names its key, sender role, nonce and plaintext;
decryption succeeds only for the same key, the peer's direction and the same nonce. A handshake
message names the ephemerals and static keys it was made from. A byte layout is a codec with
`decode(encode(x)) == x`; a ciphertext is at least a tag longer than its plaintext. Fresh ephemerals,
tasks and one-time ids come from a counter per handler.
A running task is an entry in a map, a timer tick is a step, and time is a number in the trace.

What turned out not to hold as one might expect, with the exact condition each time:

* Not every fully delivered message comes out. It does if and only if no clean-up drops its group on
  the way, and all do if and only if no clean-up drops a group that is ever fully delivered
  (`Completeness.ComesOutIff`, `Completeness.ReassemblyCompleteIff`). With eleven open groups one is
  lost (`Grouping.ElevenOpenLosesAMessage`).
* Wake-ups are lost by an arrival inside a failing poll and by a receiver that is dropped while it
  waits. The account of wake-ups is kept if and only if no step is of a kind that breaks it, and for
  each kind the condition is exact (`Receivers.AccountKeptIff`, `Receivers.StepBreaksIff`,
  `Receivers.ArrivalInsidePollIff`, `Receivers.DropBreaksIff`); two runs end stuck
  (`Receivers.ArrivalInsidePollGetsStuck`, `Receivers.DroppedReceiverGetsStuck`).
* A close does not always remove its incarnation. It does if and only if one of its four lock sections
  finds the incarnation in the map which that section goes through (`Ownership.CloseRemovesIffFound`).
  A call that holds the entry overtakes it (`Ownership.CloseCanBeOvertaken`), and so does a packet
  that moves the entry past the sweep (`Ownership.CloseCanBeOutrun`).
* A silent session is not always dead in less than 10000 ms: it is, the first tick being in time, if
  and only if no tick was handled at the very time of the last keepalive, just before it
  (`Heartbeat.DeathWithinDeadlineIff`, `Heartbeat.DeadlineIsExact`).
* A group that is full by count panics if and only if an index arrived twice
  (`Grouping.CollectIffNoRepeat`, `Grouping.DuplicatePanicsIff`): the chunker relies on the window
  below it. A window keeps replays out if and only if its size is at least one
  (`ReplayWindow.NoReplayIff`).
* Two sockets with the same key both wait for the other (`Veq.RolesAgree`, `Veq.EqualKeysBothPoke`).

Where the repository's own text and its code differ (the packet indices, the congestion information
and the `ClientKeyAnnounce` handshake described there are not in the code), the model follows the code.

## Model

| member | source | states |
|---|---|---|
| `EndToEnd.EndToEnd` | src/transform.rs:95-165 | for every schedule of sends and keepalives and every network that loses, repeats, reorders and inserts packets, nothing panics and what `recv` yields is exactly the subsequence, in send order, of the non-empty messages all of whose chunks the session accepted, each once and unchanged |
| `EndToEnd.OutgoingToYielded` | src/session.rs:471-486 | the same over the outgoing queue itself: whatever packets of it the network delivers, in any order and as often as it likes |
| `EndToEnd.RecvYieldsAllAccepted` | src/transform.rs:151-164 | on a live session, after any network at all, enough calls of `recv` yield exactly the messages all of whose chunks were accepted |
| `EndToEnd.FifoYieldsEveryMessage` | src/transform.rs:124-164 | when every packet of the outgoing queue is delivered in order and no write fails, every non-empty message comes out, each once, unchanged and in the order sent |
| `EndToEnd.SmoothHandsAll` | src/transform.rs:145-148 | as long as no call of `send` fails or is given up, every chunk of every message has been written or is still to be |
| `EndToEnd.AllWritten` | src/session.rs:478-484 | over every run, each packet in the outgoing queue is the envelope, under the session id, of the very frame that was encrypted |
| `EndToEnd.FifoDeliversAll` | src/session.rs:445-496 | when every packet of the outgoing queue is delivered in order, every chunk written is accepted, in order |
| `EndToEnd.InOrderYieldsExpected` | src/transform.rs:95-120 | chunks in send order, with any of them missing, come out as exactly the complete messages in send order |
| `EndToEnd.SenderRunInv` | src/transform.rs:124-149 | over every run, the frames of a sender carry growing nonces and chunks of its own messages in growing order, whatever fails or is given up on the way |
| `EndToEnd.ReceiverRunInv` | src/session.rs:445-470 | over every run, the accepted chunks are traced to distinct frames in send order, and the table, queue and outputs follow from them |
| `EndToEnd.ChunkArrival` | src/session.rs:445-470 | a frame with a chunk that opens extends the queue by that chunk and nothing else |
| `Layouts.PlainIsValid` | src/snow_types.rs:20-21 | there are byte layouts that meet every assumption about the serialised forms at once |
| `Layouts.PlainCarriesAMessage` | src/transform.rs:124-164 | with these layouts a message of one byte, any byte, goes from `send` to `recv` |
| `Agreement.HandshakeAgreement` | src/handler.rs:79-170 | with any number of handlers, reused ids and replayed packets: a responder is established only after an initiator with the same transport, and an initiator only after a responder had answered that very initiation, with a key made from the ephemeral drawn for this incarnation |
| `Agreement.AgreementIsInjective` | src/snow_types.rs:156-201 | no two established incarnations share a transport and a role, so the agreement is one to one |
| `Agreement.PeersAreAsAsked` | src/handler.rs:239-285 | each side concludes only with the public key it was asked to connect to |
| `Agreement.RunInv` | src/handler.rs:79-194 | every message, task, transport and incarnation in every run has the origin the protocol gives it |
| `Agreement.ConcludedHasAnswer` | src/session.rs:207-231 | the transport that establishes an initiator is that of a responder that answered its initiation |
| `Agreement.ConfirmedHasInitiator` | src/session.rs:284-300 | the frame that confirms a responder was written by an established initiator with the same key |
| `Handshake.HandshakeMakesOneKey` | src/session.rs:101-231 | what the two handshake tasks send is all it takes to leave both sides with one session key in opposite roles, fresh windows and counters, and the address the packets came from |
| `Handshake.KeepaliveConfirms` | src/session.rs:284-344 | the initiator's first keepalive then establishes the responder: a live session with an empty queue, the same transport, counter and peer, a window with exactly that keepalive, its task stopped and its future signalled; a receive keeps it |
| `Handshake.TalkAfterHandshake` | src/session.rs:101-486 | two sides that hand each other only what their tasks and sessions send end up with two live sessions, and the first message of each is exactly what the other's queue holds |
| `Handshake.ApplyOrigins` | src/handler.rs:79-194 | after any operation each responder and established entry is old, or answers, concludes or confirms what was just delivered |
| `Handshake.ApplyTaskOrigins` | src/session.rs:257-272 | each running task sends a poke, an initiation of this handler or the response of one of its entries |
| `Handshake.ReadyMeansOpened` | src/session.rs:284-326 | a responder becomes ready only by opening a frame of its peer |
| `Handshake.PokerAnswers` | src/session.rs:117-132 | a poker that is given an initiation made for it becomes a responder whose task repeats the matching response |
| `Handshake.InitiatorConcludes` | src/session.rs:207-216 | an initiator that is given the response to its initiation is established with a live, fresh session for the address it came from, its task stopped and its future signalled; a receive keeps it |
| `Veq.RolesAgree` | src/veq.rs:129-146 | for different keys exactly one side initiates; for equal keys neither does |
| `Veq.DecidedAt` | src/snow_types.rs:82-83 | the derived order on keys of any lengths is decided at the first difference |
| `Veq.ConnectedPairMeets` | src/veq.rs:137-165 | two sockets that connect to each other under one id end up as the initiator and the poker for each other |
| `Veq.EqualKeysBothPoke` | src/veq.rs:129-146 | sockets with the same key both respond, and no initiation is made |
| `SnowTypes.LexTrichotomy` | src/snow_types.rs:82-83 | the derived lexicographic order on keys is total and antisymmetric |
| `ReplayWindow.WindowRefinesHistory` | src/snow_types.rs:57-73 | for every size of at least one and every sequence of nonces, the stored set is exactly the `size` largest nonces ever let through, and none passes twice |
| `ReplayWindow.WindowAnswersAsHistory` | src/snow_types.rs:67-69 | the window's answer to any next nonce equals that of a reference that keeps the whole history |
| `ReplayWindow.RecordIsLargest` | src/snow_types.rs:70-73 | recording an accepted nonce and popping keeps the set equal to the largest of the history |
| `ReplayWindow.SizeOneIncreases` | src/snow_types.rs:24-26 | with the size in use the nonces let through are strictly increasing and the window is the last of them |
| `ReplayWindow.NoReplayIff` | src/snow_types.rs:57-78 | replays are kept out for every sequence if and only if the size is at least one |
| `ReplayWindow.InOrderAllPass` | src/snow_types.rs:57-78 | increasing nonces all pass, for every size of at least one |
| `SnowTypes.TransportRoundTrip` | src/snow_types.rs:36-78 | a packet is read back by exactly the matching peer that has let through no nonce as large, and opens under no other nonce |
| `SnowTypes.AnswersIff` | src/snow_types.rs:188-201 | a responder answers exactly the initiations that the initiator it waits for can make |
| `SnowTypes.ConcludesIff` | src/snow_types.rs:156-169 | an initiator accepts exactly the responses that the responder it wants makes to this very initiation, and both then have one key |
| `SnowTypes.LossyTransportState.WriteMessage` | src/snow_types.rs:36-55 | the nonce is used up in every case, and the in-place overwrite leaves exactly the encoded packet, or as much of it as fits, in the buffer |
| `SnowTypes.LossyTransportState.ReadMessage` | src/snow_types.rs:57-77 | the nonce is tested and recorded before decryption, so the window moves even when the packet does not open; the plaintext ends up in the buffer |
| `SnowTypes.LossyTransportState.constructor` | src/snow_types.rs:27-34 | counter and window start empty |
| `WindowProofs.WindowSurvivesUpgrade` | src/session.rs:284-344 | the nonces an incarnation lets through as pending responder and then as session form one strictly increasing sequence, so the confirming keepalive never passes again |
| `WindowProofs.StepKeepsWindow` | src/handler.rs:79-194 | every operation of the handler keeps each incarnation's window at the last nonce it let through |
| `WireOrder.NonceOrderIsWireOrder` | src/session.rs:381-405 | for every interleaving of the keepalive task and the senders, packets are enqueued in strictly increasing nonce order, so a lossless ordered network has none refused |
| `WireOrder.QueueReachesPeer` | src/session.rs:381-405 | and a matching session that is handed that queue, in order, queues exactly the payloads written, in the order in which the senders held the lock, and its flag is set exactly if a keepalive was among them |
| `WireOrder.NoncesDistinctIff` | src/snow_types.rs:41-45 | no nonce is used twice, failed encryptions included, if and only if there are at most 2^64 writes |
| `WireOrder.UsedCounts` | src/snow_types.rs:41-45 | the n-th write uses the n-th value of the 64-bit counter |
| `Transform.JoinSplit` | src/transform.rs:124-143 | joining the pieces of a message gives it back, for every chunk size of at least one |
| `Transform.SplitPieceSizes` | src/transform.rs:125-126 | every piece but the last has exactly the chunk size |
| `Transform.EmptySlotPanics` | src/transform.rs:66-72 | collecting panics when some slot is empty |
| `Transform.ChunkGroup.constructor` | src/transform.rs:48-54 | a group starts with the announced number of empty slots and size zero |
| `Transform.ChunkGroup.AddChunk` | src/transform.rs:56-60 | remove-then-insert is a slot update; the size counts arrivals; an index past the end panics |
| `Transform.ChunkGroup.Complete` | src/transform.rs:62-64 | completeness is that the count of arrivals is the group length |
| `Transform.ChunkGroup.Collect` | src/transform.rs:66-72 | the data of all slots in order, or a panic |
| `Transform.Chunker.constructor` | src/transform.rs:85-93 | nothing open, nothing completed, group number zero |
| `Transform.Chunker.AddChunk` | src/transform.rs:95-115 | one chunk: enter its group, finish it when complete, then evict the lowest group beyond ten |
| `Transform.Chunker.CleanUp` | src/transform.rs:110-114 | the lowest-numbered group goes when more than ten are open |
| `Transform.Chunker.Fill` | src/transform.rs:96-103 | the group is created when missing and the chunk put into its slot; other groups are untouched |
| `Transform.Chunker.Finish` | src/transform.rs:105-108 | a complete group leaves the table and its data is queued |
| `Transform.Chunker.NextReadyChunk` | src/transform.rs:117-119 | completed messages leave in order |
| `Transform.Chunker.Send` | src/transform.rs:124-149 | the packets are the encoded chunks of the message under the next group number, cut short when the delegate fails |
| `Transform.Chunker.Recv` | src/transform.rs:151-164 | pulls packets until a message is ready, as the recursive specification says, for every list of packets |
| `Reassembly.ReassemblySafe` | src/transform.rs:56-115 | for any duplicate-free, lossy, interleaved delivery of chunks of any number of groups, evicted and re-created ones included, nothing panics, the table stays within ten, and every output is a whole message that was sent |
| `Reassembly.NoMessageTwice` | src/transform.rs:95-115 | in such a delivery no message comes out twice |
| `Completeness.ComesOutIff` | src/transform.rs:95-115 | for any duplicate-free delivery, a message comes out if and only if all of its chunks arrived and no clean-up dropped its group on the way |
| `Completeness.ReassemblyCompleteIff` | src/transform.rs:95-115 | the output is exactly the fully delivered messages, in the order their last chunks arrived, if and only if no clean-up drops one of them |
| `Completeness.Fate` | src/transform.rs:95-115 | a group is in the table with all its arrived chunks until it comes out; once dropped it lacks a chunk for ever, whatever of it is still to come |
| `Completeness.ReassemblyComplete` | src/transform.rs:95-115 | so that is all of them if every group still to be completed stays among the ten highest-numbered unfinished ones |
| `Completeness.TenOpenIsUncrowded` | src/transform.rs:110-114 | that is so when at most ten groups are ever unfinished together |
| `Completeness.InOrderIsUncrowded` | src/transform.rs:110-114 | and when chunks arrive in send order, however many groups are left behind |
| `Completeness.EvictedIff` | src/transform.rs:110-114 | a group is evicted exactly when ten open groups have higher numbers |
| `Reassembly.FinishedIffWhole` | src/transform.rs:62-64 | the reference list of finished groups names exactly the groups all of whose chunks arrived |
| `Reassembly.FinishedOnce` | src/transform.rs:105-108 | and names each once |
| `Completeness.InOrderFinishes` | src/transform.rs:105-108 | in send order, groups finish in increasing order |
| `Grouping.PermutationRoundTrip` | src/transform.rs:47-72 | every permutation of the chunks of a non-empty message completes on its last chunk and not before, and gives the message |
| `Grouping.CollectIffNoRepeat` | src/transform.rs:56-72 | a group that is complete by count collects without a panic if and only if no index arrived twice |
| `Grouping.DuplicatePanicsIff` | src/transform.rs:95-108 | feeding a group exactly its number of chunks panics if and only if an index repeats |
| `Grouping.ElevenOpenLosesAMessage` | src/transform.rs:110-114 | with eleven open groups a message can be lost although all of its chunks arrive |
| `Grouping.ReceiveFollowsFeed` | src/transform.rs:151-164 | a call of `recv` yields what feeding the packets it took yields, call after call |
| `SessionLaws.IncomingIff` | src/session.rs:445-470 | each effect of a packet in both directions: the flag is set exactly by a keepalive, the queue grows exactly by a payload, the window moves exactly by a frame it accepts, and nothing else changes |
| `SessionLaws.BringsIff` | src/session.rs:450-454 | a packet brings a message if and only if its frame parses, its nonce is accepted, and it is a ciphertext of the peer under that nonce whose plaintext decodes to the message |
| `SessionLaws.IncomingFailsIff` | src/session.rs:445-454 | a packet is reported as an error if and only if it does not decode or is a frame that brings nothing |
| `SessionLaws.PayloadWakesFirst` | src/session.rs:459-465 | a payload wakes the first registered receiver and takes it out of the table, if there is one |
| `SessionLaws.PayloadArrives` | src/session.rs:471-486 | the packet that sending a payload enqueues carries the session id and puts exactly that payload at the end of the matching peer's queue |
| `SessionLaws.KeepaliveArrives` | src/session.rs:381-405 | the packet of a keepalive sets the matching peer's flag and leaves its queue alone |
| `SessionLaws.StaysReady` | src/session.rs:471-486 | after a packet got through, the two sessions are ready for the next one |
| `SessionLaws.WriteIff` | src/snow_types.rs:36-55 | each outcome of a write: it fails exactly when the ciphertext exceeds 65535 bytes, overruns exactly when only the packet does, and of the session only the 64-bit counter moves |
| `SessionLaws.PollAnswers` | src/session.rs:534-553 | each answer of a poll: a dead session is disconnected, messages or not; a live one hands out the very message it takes off the front, or registers the receiver |
| `SessionLaws.TwoPollsTwoMessages` | src/session.rs:541-546 | two polls return the first two messages, in order |
| `SessionLaws.MonitorIff` | src/session.rs:416-432 | a tick kills exactly a session with a clear flag, waking exactly its registered receivers, and always clears the flag |
| `SessionLaws.ResponderReadyIff` | src/session.rs:284-311 | a waiting responder becomes ready exactly by a keepalive; every frame that parses moves its window |
| `SessionLaws.ResponderBecomesLive` | src/session.rs:332-344 | the session made of it is alive, with an empty queue, and goes on with its transport, window, counter and peer |
| `SessionLaws.PokerTakesInitiation` | src/session.rs:101-111 | the latest initiation counts, with the address it came from, and nothing else is taken notice of |
| `SessionLaws.InitiatorTakesResponse` | src/session.rs:191-201 | the latest response counts, with the address it came from, and nothing else is taken notice of |
| `Session.Session.constructor` | src/session.rs:364-444 | a session starts alive with the transport of its handshake, window and counter included |
| `Session.Session.HandleIncoming` | src/session.rs:445-470 | one packet moves the window, the flag, the queue and the waker table as the specification says |
| `Session.Session.WriteOut` | src/session.rs:381-405 | write and enqueue of one message: the nonce is used up, and the frame is queued for the peer exactly when it was encrypted |
| `Session.Session.Send` | src/session.rs:471-486 | a dead session refuses and changes nothing; a live one writes one payload |
| `Session.Session.KeepaliveTick` | src/session.rs:381-414 | one keepalive is written, and the task goes on unless the session is dead after a successful write |
| `Session.Session.Monitor` | src/session.rs:416-432 | clears the flag, or declares death and wakes every registered receiver |
| `Session.Session.Close` | src/session.rs:500-509 | marks the session dead and wakes nobody |
| `Session.Receiving.PollOnce` | src/session.rs:534-553 | disconnected when dead, even with messages queued; else the first message, or registered and pending |
| `Session.PendingSessionPoker.HandleIncoming` | src/session.rs:101-111 | only an initiation is remembered, with its source |
| `Session.PendingSessionInitiator.HandleIncoming` | src/session.rs:191-201 | only a response is remembered, with its source |
| `Session.PendingSessionResponder.HandleIncoming` | src/session.rs:284-311 | a first keepalive sets ready although the call then fails; the window moves with every frame |
| `Receivers.NothingLostOrRepeated` | src/session.rs:534-553 | for any number of receivers and every interleaving of lock sections, the payloads enqueued are those returned followed by the queue |
| `Receivers.NoLostWakeup` | src/session.rs:459-465 | with arrivals and polls atomic and no receiver dropped while pending, whenever a receiver is registered the queued messages are at most the receivers woken but not yet polled |
| `Receivers.AccountKeptIff` | src/session.rs:534-553 | over every interleaving of lock sections, drops and arrivals, the account of wake-ups is kept throughout if and only if no step is one of a listed kind that breaks it |
| `Receivers.StepBreaksIff` | src/session.rs:459-465 | the exact condition, for each kind of step, under which it breaks the account |
| `Receivers.ArrivalInsidePollIff` | src/session.rs:541-549 | an arrival between the lock sections of a failing poll leaves the wake-ups short if and only if nobody else is registered and every queued message already has its own receiver |
| `Receivers.DropBreaksIff` | src/session.rs:459-465 | dropping a receiver breaks the account if and only if it is registered, or holds a wake-up that another waiting receiver needs |
| `Receivers.OrderlyNeverStuck` | src/session.rs:534-553 | such a run never has a waiting receiver, a queued message and nobody about to poll |
| `Receivers.ArrivalInsidePollGetsStuck` | src/session.rs:541-549 | an arrival between the two lock sections of a failing poll leaves that receiver waiting beside the message |
| `Receivers.DroppedReceiverGetsStuck` | src/session.rs:459-465 | a receiver dropped while pending stays in the table and swallows another's wake-up |
| `Receivers.DeathWakesAll` | src/session.rs:416-432 | declaring death wakes every registered receiver, and they are then disconnected; closing wakes nobody |
| `Receivers.PollIsTwoSections` | src/session.rs:534-553 | the two lock sections, run together, are the poll of the session, and return exactly the value it answers |
| `Receivers.ArrivalIsIncoming` | src/session.rs:459-465 | an arrival of the run is what a packet with a payload does to the session |
| `Receivers.DeathIsMonitorTick` | src/session.rs:416-432 | the death of the run is what a tick of the monitor does to a session with a clear flag |
| `Heartbeat.SteadyStaysAlive` | src/session.rs:416-432 | while accepted keepalives are less than 5000 ms apart, the monitor never declares death |
| `Heartbeat.SteadySessionLives` | src/session.rs:416-458 | a session in use, with packets, writes and polls in between, is never declared dead while its accepted keepalive packets are less than 5000 ms apart |
| `Heartbeat.SessionDeadIffSilent` | src/session.rs:416-458 | a session in use that is not closed is dead if and only if some two ticks had no accepted keepalive packet between them |
| `Heartbeat.FlagsFollowMarks` | src/session.rs:456-458 | the flags of a session in use are those of its ticks and accepted keepalive packets alone |
| `Heartbeat.DeadIffSilent` | src/session.rs:416-432 | a session is dead if and only if some two ticks had no keepalive between them |
| `Heartbeat.FlagIff` | src/session.rs:456-458 | the flag of a live session is clear if and only if a tick came after the last keepalive |
| `Heartbeat.DeathIsFinal` | src/session.rs:374-376 | over packets, writes, polls, ticks and closing: a session is dead if and only if it was, or was closed, or was ticked with its flag clear; and every poll of a dead session reports the disconnection |
| `Heartbeat.SilentSessionDies` | src/session.rs:416-432 | once every tick due within 10000 ms of the last keepalive has happened, the session is dead |
| `Heartbeat.DeathWithinDeadlineIff` | src/session.rs:416-432 | for every session, creation counted as a keepalive: death comes at least 5000 ms after the last keepalive, at most 10000 ms when the first tick is in time, and in less than 10000 ms if and only if moreover no tick was handled at the time of that keepalive just before it |
| `Heartbeat.DeadlineIsExact` | src/session.rs:416-432 | a run in which death comes at exactly 10000 ms |
| `HandlerLaws.StartReplaces` | src/handler.rs:239-285 | starting a session removes whatever had its id and nothing else, and leaves exactly one new entry with a future, or none on refused keys |
| `HandlerLaws.UnaskedCloseIgnored` | src/handler.rs:287-292 | a removal that nobody asked for does nothing |
| `HandlerLaws.UnknownIdIgnored` | src/handler.rs:162-169 | a packet for an id the handler does not have changes nothing |
| `HandlerLaws.OtherMessagesIgnored` | src/handler.rs:86-134 | a poker minds initiations only and an initiator responses only |
| `HandlerLaws.RefusedInitiation` | src/handler.rs:92-100 | an initiation that does not open drops the poker and its task, and nothing comes of it |
| `HandlerLaws.RefusedResponse` | src/session.rs:217-226 | a response that does not open leaves the initiator as it was, with its task stopped |
| `HandlerLaws.ResponderWaits` | src/handler.rs:135-161 | a responder that is given no keepalive waits on, and at most its window moves |
| `HandlerLaws.EstablishedReceives` | src/handler.rs:162-168 | a packet for an established session changes that session only: its payload joins the queue, a keepalive sets the flag, the window moves |
| `HandlerLaws.PayloadIsReturned` | src/session.rs:459-546 | a payload that is handed to the handler is what the next receiver gets |
| `HandlerLaws.LocalIff` | src/session.rs:381-432 | a write moves the counter by one, a tick only the flags, a poll only the queue and the wakers |
| `HandlerLaws.RecvFromIff` | src/handler.rs:211-219 | a receive drops the session exactly when it is dead, and changes nothing else |
| `HandlerLaws.SilentSessionIsDropped` | src/handler.rs:211-219 | two ticks without a keepalive and the next receive drops the session; a keepalive packet in between saves it |
| `HandlerLaws.PollReadyIff` | src/handler.rs:430-445 | a future resolves exactly with an unread signal, and otherwise leaves its waker |
| `HandlerLaws.ResolvesOnlyEstablished` | src/handler.rs:430-445 | in every run a future resolves only when its own incarnation was established |
| `Futures.ResolvesIff` | src/handler.rs:172-194 | in every run the future of an incarnation in a map resolves at the next poll if and only if that incarnation is established and the future has not resolved before |
| `Futures.ResolvesOnce` | src/handler.rs:430-445 | a future resolves at most once, whatever happens in between |
| `Futures.DroppedEarlyCloses` | src/handler.rs:447-454 | a future dropped before it resolved closes its incarnation, for good |
| `Futures.DroppedLateClosesNothing` | src/handler.rs:447-454 | one that has resolved closes nothing when it is dropped |
| `Retransmits.TasksSendTheirOwn` | src/session.rs:74-272 | in every run each running handshake task sends the packet of its own entry: a poke, the very initiation of that initiator, or the response the responder's transport was made with |
| `HandlerNonces.WritesCount` | src/snow_types.rs:41-45 | over every run of the handler the n-th write of an incarnation is under the n-th value of the 64-bit counter, from its handshake on, so no nonce repeats within 2^64 writes |
| `HandlerObject.Handler.constructor` | src/handler.rs:61-78 | all maps are empty, and the history is too |
| `HandlerObject.Handler.HandleIncoming` | src/handler.rs:79-170 | the first map that has the id gets the packet; the whole new state of the handler, and that it is still the state of a run |
| `HandlerObject.Handler.HandlePoker` | src/handler.rs:86-107 | the entry becomes a responder, goes back, or is dropped when the initiation does not open |
| `HandlerObject.Handler.HandleInitiator` | src/handler.rs:108-134 | the entry is established, or goes back; a refused response leaves it with its task aborted |
| `HandlerObject.Handler.HandleResponder` | src/handler.rs:135-161 | the entry is established once ready, although the keepalive was reported as an error |
| `HandlerObject.Handler.Initiate` | src/handler.rs:239-261 | replaces whatever has the id by a new initiator with its task and future; on refused keys only the removal remains |
| `HandlerObject.Handler.Respond` | src/handler.rs:263-285 | the same with a poker |
| `HandlerObject.Handler.RemoveSession` | src/handler.rs:294-394 | drops any incarnation of the id, or only the named one, from all four maps and aborts exactly its task |
| `HandlerObject.Handler.RunClose` | src/handler.rs:287-292 | the requested removal of one incarnation |
| `HandlerObject.Handler.DropSession` | src/veq.rs:201-205 | a session object that goes away asks for its incarnation to be closed |
| `HandlerObject.Handler.Keeps` | src/handler.rs:79-394 | after any sequence of calls the object satisfies the invariant of all runs |
| `HandlerObject.Handler.Send` | src/handler.rs:196-201 | writes one payload on an established live session and changes nothing otherwise |
| `HandlerObject.Handler.RecvFrom` | src/handler.rs:211-219 | a dead session is dropped instead of handing out a receiver |
| `HandlerObject.SessionReady.PollOnce` | src/handler.rs:427-445 | resolves exactly with a signal and otherwise leaves its waker once |
| `HandlerObject.SessionReady.Drop` | src/handler.rs:447-454 | asks for a close exactly when it has not resolved |
| `HandlerProofs.RunInv` | src/handler.rs:79-394 | what every operation keeps: exclusive maps, unique incarnations, task ownership, signals |
| `HandlerProofs.ApplyKeepsInv` | src/handler.rs:79-394 | each operation keeps the maps exclusive, the incarnations unique, the tasks owned and the signals single |
| `HandlerProofs.MapsAreExclusive` | src/handler.rs:79-170 | in every run each session id is in at most one map and each one-time id under at most one session id |
| `HandlerProofs.NoOrphanTasks` | src/session.rs:74-136 | in every run each handshake task belongs to the pending entry it was started for, no incarnation has two, and every poker and responder has one |
| `HandlerProofs.StaleCloseIsSafe` | src/handler.rs:287-305 | closing an incarnation removes it for good and changes nothing for other ids or a newer incarnation of the same id |
| `HandlerProofs.CloseIsExact` | src/handler.rs:294-394 | a close removes the named incarnation and its task and leaves every other entry and task alone |
| `HandlerProofs.GoneForGood` | src/handler.rs:79-194 | an incarnation that has left the maps never comes back |
| `HandlerProofs.RunForward` | src/handler.rs:79-194 | over any further run old incarnations keep their id and only move forward |
| `HandlerProofs.ReadyMeansEstablished` | src/handler.rs:172-194 | a future is signalled only after its own incarnation was established, and each incarnation signals at most once |
| `HandlerProofs.ClosesAreAsked` | src/handler.rs:447-454 | a close is requested only by a session object that goes away or by a future dropped before it resolved |
| `Ownership.LinearOwnership` | src/handler.rs:79-194 | for every interleaving of lock sections each incarnation is in at most one map or call, keeps its session id and only moves forward |
| `Ownership.DroppedStaysDropped` | src/handler.rs:79-194 | and never reappears once it is nowhere |
| `Ownership.StaysIff` | src/handler.rs:79-394 | for every interleaving of lock sections an incarnation stays if and only if no step removes it, discards it or replaces it |
| `Ownership.CloseRemovesIffFound` | src/handler.rs:294-394 | for a close whose four sections are interleaved with any other steps: the incarnation is gone afterwards if and only if some section found it in the map it goes through |
| `Ownership.CloseRemovesWhatStays` | src/handler.rs:294-394 | in particular when no call takes the entry out of its map before the sweep gets there |
| `Ownership.CloseRemovesIffNotInFlight` | src/handler.rs:294-394 | when nothing comes between its sections, a close removes its incarnation if and only if no running call holds it |
| `Ownership.CloseCanBeOvertaken` | src/handler.rs:86-104 | a call that holds the entry puts it back after the close has finished |
| `Ownership.CloseCanBeOutrun` | src/handler.rs:294-394 | a packet that establishes the entry between two sections carries it past the sweep, with no call holding it before or after |

## Left out

- UDP sockets, TTL, the addresses of a `ConnectionInfo` and the dual-stack wrappers (`src/dualstack`), and the two pump loops of `from_socket`: input and output. The network is a step that delivers, drops, copies, reorders or inserts packets.
- `src/ip_discovery`, `src/bin.rs`: STUN, interface queries, the command line, compression.
- `BidirectionalSession` (`src/veq.rs:174-205`): its send and receive only pass on to the handler; that it asks for a close when it goes away is a step of the handler's runs. Waiting is one pass over the packets at hand.
- The internals of `snow` and Kyber: symbolic terms instead. Errors of theirs that a well-formed state never gives (`into_stateless_transport_mode`, `Session::new`) are not modelled.
- `bincode`: an abstract codec instead of its byte layout. What fits is decided by the encoded length of a ciphertext, which is at least, and not exactly, 16 bytes more than its plaintext: as terms, infinitely many ciphertexts share a plaintext.
- The tokio scheduler, real clocks and join handles: tasks are flags, ticks are steps, public operations of the handler are atomic except in `Ownership`, where every lock section is a step.
- The two separate locks around the group number in `send`, and the lock released in the middle of `add_chunk`: both operations are atomic here.
- Random ids: one-time ids, task handles and ephemerals are drawn from a counter; receiver ids are arbitrary numbers, so nothing is claimed about which receiver is woken first.
- The broadcast channel and the waker list of a `SessionReady`: the channel is a count of unread signals, the waker a flag.
- The 64-bit counters wrap as in a release build; the end-to-end theorem is about fewer than 2^64 actions.
- Dropping a `Session` also marks it dead; the handler's maps just lose the entry.
- HandlerObject.Handler.HandleIncoming: entries are moved in and out of the maps as values, as the original moves them, so sharing of a transport with the session's own tasks is modelled in `WireOrder` and not here.
- Liveness of the handshake: a response that does not open leaves the initiator without its task, and an initiation that does not open drops the poker, so none can be claimed in general. `Handshake` shows the undisturbed case.
- Agreement.HandshakeAgreement: an established incarnation may write under any nonce at any later time, which allows more behaviour than the program has.
- EndToEnd.EndToEnd: packets that the peer did not write may be inserted as long as they do not open; forged ciphertexts that open are excluded by the idealisation.
