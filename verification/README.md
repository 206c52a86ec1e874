# A verified model of the fix-cli session

fix-cli keeps FIX 4.4 sessions: a daemon runs one session actor over a redb journal, a control service admits the
orders of agents, and a mock acceptor plays the counterparty. This project models that core in Dafny and proves what
it is for: nothing is sent that was not journaled first, no sequence number and no request is used twice across
crashes and restarts, messages that arrive out of order are journaled in order, a replay brings a peer up to date, and
bytes cut anywhere decode to the messages that were encoded.

The model has three layers.

- **Codec.** `Codec`, `Parser` and `Decoder` work on bytes: the encoder, the frame scanner with its incremental
  decoder and size bounds, and the parser.
- **Session.** `Store` is the journal: a class with the tables and counters and one atomic method per operation.
  `Session` gives every operation of the actor as a function on worlds (actor, journal, clock, and the trace of effects
  so far), and `Actors.SessionActor` is the imperative actor, each method proved to do exactly what its function says.
  An effect is a journal operation or a socket write. A crash between any two effects leaves the journal of a prefix of
  the trace; a socket write or a database transaction that fails is such a crash, because the actor then stops.
- **Peers.** `Limiter` with `LimiterAnswers` and `LimiterBursts`, `Fingerprint`, `Admission`, `WriteRate` and `Control`
  are the control service; `Mock` is the acceptor, and `TwoParty` puts both ends on two channels. `Takes` says which
  messages a session takes at their turn; `Arrival`, `ReplayDrives` and `Recovery` build on it.

Messages are field lists from `Messages` up. `Parser.RoundTrip` and `Reading.StreamIsHandled` tie that level to the
bytes: a stream of encoded messages, cut anywhere, is handled as the field lists it was encoded from, as long as no
value contains the delimiter. A replay goes through the bytes in the model as in the code: what is sent again is what
parsing the stored bytes gives.

`dafny verify dfyconfig.toml` checks everything. Proofs use `hide` to keep irrelevant definitions away from the solver.

## Where the code departs from its documents

- The repository's README (line 9) and its architecture document promise Length/DATA pairs and strict repeating
  groups. The parser has neither, and the encoder does not look for delimiters in values, so a value with a delimiter
  does not survive a round trip; `Parser.RoundTrip` says exactly when one is exact. An order with such a value is
  journaled and sent, and where its bytes no longer parse, the next ResendRequest that reaches it ends the session:
  `DelimiterInOrder.CutAccountLife` is such a life from its start, `SubmittedValues.SubmissionReplayedExactly` says
  exactly for which submitted values it happens.
- The state diagram of the architecture document leads to Established from LogonSent, also by way of Recovering. The
  code goes to Recovering and on to Established from LogoutSent as well, and from LogonSent without a Logon of the
  peer: `GapsAtLogon.GapEstablishes`, `GapsAtLogon.EstablishedByHeartbeats`. `Establishment.EstablishedForAReason`
  says what always precedes Established, a journaled Logon or a ResendRequest, and
  `Establishment.EstablishedAfterLogon` that it is a Logon unless something arrives ahead of its turn before one.

## What the proofs found in the code

- A repeated submission under a stored request id is idempotent, but not after a sequence reset, when it reaches the
  actor with the stored number coming next: `StaleRecords.StaleRecordReachable` gives two lives that lead there,
  `CrashRuns.StaleSubmissionUnsafe` shows what is then sent, `CrashRuns.SubmissionSafety` that this is the only case,
  and `Admission.ServiceRun` that the control service never lets it happen.
- A replay is refused by a peer that had buffered the administrative message at which a gap fill starts, and by a peer
  that knows the message only from an earlier replay: `ReplayDrives.ReplayDrivesPeer`,
  `ReplayReceived.SecondReplayVerified`.
- The rate limit bounds grants, not admissions. A request repeated within a second of its grant is admitted again, so
  up to twice the maximum are admitted in a second, and for every maximum as many can be: `LimiterAnswers.AdmittedBound`,
  `LimiterBursts.TwiceReached`. The maximum is safe exactly for callers that never ask again for what they hold a grant
  for: `LimiterBursts.MaximumExactly`. `WriteRate.WritesBound` carries the bound over to what is written.
- A mark for a request of an earlier epoch takes over the row of another request: `StoreTheorems.OldEpochMarkTakesRow`;
  `StoreTheorems.MarkKeepsOwner` says exactly when that does not happen.

## Model

| member | source | states |
|---|---|---|
| Codec.EncodeMessage | crates/fix-protocol/src/lib.rs:78-115 | the loop that builds body, length and checksum produces the wire of the specification function, or the first refusal in its order; the lemmas below give that function its meaning |
| Codec.WrappingSum | crates/fix-protocol/src/lib.rs:110 | the one-byte wrapping fold is the sum of all bytes modulo 256 |
| Codec.ScanStable | crates/fix-protocol/src/lib.rs:205-272 | once the scan of a buffer has found a frame or an error, appending any bytes changes nothing |
| Codec.ScanExact | crates/fix-protocol/src/lib.rs:205-272 | the scan reports a frame of n bytes exactly when the first n bytes are BeginString, BodyLength, a body of that length within the limit, and the three-digit checksum of what precedes it |
| Parser.ParseFrame | crates/fix-protocol/src/lib.rs:117-169 | the cursor loop returns the message, or the error, of the specification function |
| Parser.ParserAccepts | crates/fix-protocol/src/lib.rs:139-157 | a body parses to a field list if and only if it is tiled by digits, '=', a delimiter-free value and the delimiter, spelling exactly these fields |
| Parser.RoundTrip | crates/fix-protocol/src/lib.rs:78-169 | an encoded message parses back to its fields if and only if no value contains the delimiter, and then begin string, order, duplicates and checksum are all the original ones |
| Parser.ParsedReencodes | crates/fix-protocol/src/lib.rs:117-169 | whatever parses has delimiter-free values, and if it can be encoded again the result parses to the same message |
| Decoder.FrameDecoder.TryTakeFrame | crates/fix-protocol/src/lib.rs:205-272 | takes a complete frame off the buffer and leaves the buffer alone otherwise |
| Decoder.FrameDecoder.Ingest | crates/fix-protocol/src/lib.rs:185-202 | the loop leaves the buffer and gives the reply of draining old buffer plus chunk, with the bound on what stays buffered |
| Decoder.DrainInPieces | crates/fix-protocol/src/lib.rs:185-202 | draining in two steps is draining once |
| Decoder.DrainConserves | crates/fix-protocol/src/lib.rs:185-202 | frames and leftover together are exactly the input bytes, and no further frame is left in the leftover |
| Decoder.ChunkingIndependence | crates/fix-protocol/src/lib.rs:185-202 | a chunked run yields the frames and leftover of one ingest of everything, succeeds exactly when that does and no intermediate leftover is too long, and can otherwise only stop with BufferedDataTooLarge |
| Decoder.ShortFramesFit | crates/fix-protocol/src/lib.rs:193-199 | input whose frames, the unfinished one included, are at most the body limit plus 1025 bytes long never leaves too much over, however it is cut |
| Decoder.FragmentedStreamDecodes | crates/fix-protocol/src/lib.rs:185-272 | a stream of such frames cut into any chunks decodes to exactly those frames with nothing left over |
| Reading.HandleEncoded | crates/fix-session/src/lib.rs:567-568 | handling the bytes of a message without delimiters in its values is handling the message |
| Reading.ReadsAreTurns | crates/fix-session/src/lib.rs:404-418 | as long as the decoder finds no fault, a session reading chunk by chunk handles the frames of the whole stream one after another |
| Reading.StreamIsHandled | crates/fix-session/src/lib.rs:404-418 | a peer's messages, encoded, strung together and cut into reads anywhere, leave the session as the messages in their order do: same journal, same writes, same error if any |
| Store.RedbStore.CommitOutbound | crates/fix-store/src/lib.rs:342-431 | answers a stored request without a change, refuses another fingerprint or a wrong number without a change, else adds command and row and advances the counter, all at once |
| Store.RedbStore.MarkOutboundWritten | crates/fix-store/src/lib.rs:433-504 | marks command and row together, or changes nothing and names the reason |
| Store.RedbStore.CommitTransmission | crates/fix-store/src/lib.rs:506-557 | adds a transmission under the next id and touches nothing else |
| Store.RedbStore.MarkTransmissionWritten | crates/fix-store/src/lib.rs:559-601 | marks one transmission or refuses an unknown one |
| Store.RedbStore.CommitInbound | crates/fix-store/src/lib.rs:603-688 | journals an inbound message with its event and moves both counters, or refuses without a change a wrong number, a wrong event id or a next number that does not advance |
| Store.RedbStore.ResyncInbound | crates/fix-store/src/lib.rs:690-745 | moves the inbound counter anywhere but to 0, with an event |
| Store.RedbStore.ResetSequences | crates/fix-store/src/lib.rs:747-796 | clears the sequence tables, keeps commands and events, restarts three counters at 1 and takes one event number |
| Store.RedbStore.LoadOutboundRange | crates/fix-store/src/lib.rs:798-823 | the rows of a range that exist, in order |
| Store.RedbStore.Apply | crates/fix-store/src/lib.rs:914-922 | each operation that writes leads to the state and the reply of the specification function over which every theorem about sequences of operations is stated; the loads are methods of their own |
| StoreTheorems.ReachableInv | crates/fix-store/src/lib.rs:342-823 | under every sequence of operations, resets included, outbound keys are exactly 1..next_out-1 and transmission keys 1..next_transmission-1, each row carries its own number and agrees with the command table, every inbound row's event exists, and no two rows share one |
| StoreTheorems.RangeComplete | crates/fix-store/src/lib.rs:798-823 | a range inside 1..next_out-1 loads completely and in order |
| StoreTheorems.CommandsForever | crates/fix-store/src/lib.rs:351-369 | a stored command never disappears, never changes fingerprint, ClOrdID or number, and its phase only moves to Written, whatever operations follow |
| StoreTheorems.RetryAnswersStored | crates/fix-store/src/lib.rs:360-369 | after any operations a repeated commit changes nothing and is answered with the stored ClOrdID and number if and only if the fingerprint is the stored one |
| StoreTheorems.EventsConserved | crates/fix-store/src/lib.rs:603-790 | the event counter has advanced by exactly the successful inbound commits, resyncs and resets |
| StoreTheorems.InboundChain | crates/fix-store/src/lib.rs:603-688 | between resyncs and resets inbound commits form one chain, each starting where the last one ended, and older rows stay as they are |
| StoreTheorems.MarkKeepsOwner | crates/fix-store/src/lib.rs:433-504 | over any operations between resets a row stays with its bytes, and it belongs throughout to the request it was committed for if and only if every mark for it that succeeds names that request |
| StoreTheorems.OldEpochMarkTakesRow | crates/fix-store/src/lib.rs:433-504 | after a reset a mark for the earlier epoch takes another request's row over |
| Actors.SessionActor.constructor | crates/fix-session/src/lib.rs:312-339 | an actor starts with the counters the journal recovers, nothing buffered, no test request outstanding |
| Actors.SessionActor.SendOwn | crates/fix-session/src/lib.rs:998-1034 | one of the session's own messages is encoded, journaled, written and marked, in that order, stopping at the first failure |
| Actors.SessionActor.SendLogonMessage | crates/fix-session/src/lib.rs:491-565 | the reset, if configured, then the logon, journaled in its redacted form and written in full |
| Actors.SessionActor.SendResend | crates/fix-session/src/lib.rs:835-871 | a ResendRequest from a number to infinity under its own idempotency key |
| Actors.SessionActor.SendHeartbeatMessage | crates/fix-session/src/lib.rs:994-1034 | a heartbeat, echoing a test request if asked to |
| Actors.SessionActor.SendTest | crates/fix-session/src/lib.rs:1036-1075 | a test request whose id is then outstanding |
| Actors.SessionActor.SendLogoutMessage | crates/fix-session/src/lib.rs:1077-1120 | a logout, only from the four phases that allow one |
| Actors.SessionActor.SubmitApplication | crates/fix-session/src/lib.rs:887-992 | phase, delimiter, managed-tag, OrigClOrdID and Side checks, then journal, number check, write and mark |
| Actors.SessionActor.StampSides | crates/fix-session/src/lib.rs:934-947 | TransactTime after each Side, each with its own reading of the clock, and whether there was one |
| Actors.SessionActor.TransmitReplay | crates/fix-session/src/lib.rs:1237-1266 | a replay is journaled as a transmission, written and marked, and moves no counter of the session |
| Actors.SessionActor.WriteApplicationReplay | crates/fix-session/src/lib.rs:1184-1207 | the stored bytes are parsed first: a fatal error if they do not parse, else what they say goes out again |
| Actors.SessionActor.WriteReplayOf | crates/fix-session/src/lib.rs:1186-1206 | an application message again, with flag, new sending time and original sending time in their places, or the error for a missing number or time |
| Actors.SessionActor.WriteGapFill | crates/fix-session/src/lib.rs:1209-1235 | a gap fill from one number to the next live one |
| Actors.SessionActor.ReplayValidatedRange | crates/fix-session/src/lib.rs:1140-1182 | the loop with its open gap does what the replay function does, to the effect and to the error at which it stops |
| Actors.SessionActor.VerifyPossDup | crates/fix-session/src/lib.rs:641-685 | accepts or names the first reason of refusal, touching nothing |
| Actors.SessionActor.CommitAtTurn | crates/fix-session/src/lib.rs:715-833 | all checks before the journal, then the journal, then the counters, then the reaction |
| Actors.SessionActor.DrainBuffer | crates/fix-session/src/lib.rs:624-633 | the drain loop commits buffered messages in sequence and drops what lies below |
| Actors.SessionActor.BufferAhead | crates/fix-session/src/lib.rs:571-585 | the first copy is buffered, at most 1024 are, and only the first one triggers a ResendRequest |
| Actors.SessionActor.HandleInbound | crates/fix-session/src/lib.rs:567-639 | a frame from parsing to the last buffered message it releases |
| Actors.SessionActor.OnRead | crates/fix-session/src/lib.rs:404-418 | one read: the decoder keeps the unfinished rest, and the completed frames are handled in order up to the first error |
| Actors.SessionActor.OnTick | crates/fix-session/src/lib.rs:422-439 | heartbeat, test request deadline and idleness, in this order |
| Actors.SessionActor.Run | crates/fix-session/src/lib.rs:387-472 | a whole life: logon, then input after input until one ends it |
| SessionSafety.KeyNamesCounters | crates/fix-session/src/lib.rs:533-536 | two session keys are equal only if number and event counter are, whatever the kinds |
| SessionSafety.PresentKeyIsFresh | crates/fix-session/src/lib.rs:835-852 | the session key of the present counters is not stored, so a session send never meets a stored record |
| SessionSafety.SendAdminKeeps | crates/fix-session/src/lib.rs:835-871 | a send of the session's own fails exactly when the encoder refuses it, and keeps actor and journal together |
| SessionSafety.ApplicationIsOriginal | crates/fix-session/src/lib.rs:905-948 | what submission builds has exactly one MsgSeqNum and one SendingTime and no flag or original time |
| SessionInvariant.HandleKeeps | crates/fix-session/src/lib.rs:567-639 | after any message the actor's counters are the journal's, the buffer holds at most 1024 checked messages under their own numbers, and unless the message ends the actor they lie above next_in, LogonSent and Established mean an empty buffer and Recovering a non-empty one; the journal refuses nothing but a logon that realigns to 0 |
| SessionInvariant.CommitExpectedKeeps | crates/fix-session/src/lib.rs:715-833 | at its turn a message is journaled or rejected, never refused by the journal, and next_in grows |
| SessionInvariant.TurnKeeps | crates/fix-session/src/lib.rs:387-472 | every kind of turn keeps that invariant unless it ends the actor, and even then actor and journal agree |
| CrashRuns.TurnsKeep | crates/fix-session/src/lib.rs:387-472 | the same over any sequence of turns |
| Realign.HandleNeverRealigns | crates/fix-session/src/lib.rs:720-739 | the realignment inside the commit is dead: without it every message is handled the same |
| GapsAtLogon.GapEstablishes | crates/fix-session/src/lib.rs:571-636 | up to 1025 messages other than Logons, in any but the right order, establish the session from any phase but Recovering; exactly these rows are added, so no Logon is |
| GapsAtLogon.EstablishedByHeartbeats | crates/fix-session/src/lib.rs:387-472 | on a fresh database, a life from its start to Established in which the peer sends two heartbeats and nothing else |
| Establishment.EstablishedForAReason | crates/fix-session/src/lib.rs:387-472 | over any inputs from the start of a life, whenever the phase is Established the life has journaled a Logon of the peer, or has journaled and sent a ResendRequest under a session key |
| Establishment.EstablishedAfterLogon | crates/fix-session/src/lib.rs:571-636 | it has journaled a Logon of the peer, if no message arrived ahead of next_in before one was journaled |
| CrashRuns.CrashSafeSequencing | crates/fix-session/src/lib.rs:491-992 | over any lives, configurations, clocks, inputs and crashes between any two effects, every fresh write follows the first commit of its message at its number, no later fresh write repeats its request, and until the next reset every later one has a higher number |
| CrashRuns.EveryWriteJournaled | crates/fix-session/src/lib.rs:835-1266 | over the same histories every write, replays included, is journaled just before it: the possible duplicates, and only they, as transmissions of the same message that are in the journal, all others as first commits of what they carry |
| CrashRuns.WriteIsJournaled | crates/fix-session/src/lib.rs:835-992 | when a fresh message is written, the journal holds it at its MsgSeqNum, under its request, as it is or, if it is a Logon, with only the values of sensitive tags redacted, and next_out is past it |
| CrashRuns.FreshWritesIncrease | crates/fix-session/src/lib.rs:835-992 | within an epoch the MsgSeqNums of fresh writes strictly increase |
| CrashRuns.RequestWrittenOnce | crates/fix-store/src/lib.rs:351-369 | no request is written afresh twice, in whatever epochs |
| CrashRuns.SessionKeyUnused | crates/fix-session/src/lib.rs:533-536 | across resets, restarts and kinds, a commit under a session key finds the key unused |
| CrashRuns.SubmissionSafety | crates/fix-session/src/lib.rs:948-992 | a submission keeps every fresh write journaled if and only if it does not meet a stored record of its own, with its fingerprint, at the next number |
| CrashRuns.StaleSubmissionUnsafe | crates/fix-session/src/lib.rs:966-976 | in that case the message is written under a number that the journal does not advance past, and the caller gets an error |
| StaleRecords.StaleRecordReachable | crates/fix-session/src/lib.rs:491-565 | two lives lead to such a record: logon, submission under 2 and stop; then a life that resets and is established again, orderly, with 2 coming next, where the same submission sends what is not journaled |
| Arrival.ArrivalOrderIndependence | crates/fix-session/src/lib.rs:567-639 | with nothing buffered, from any phase but Recovering, at most 1025 messages with consecutive numbers, each plain, a TestRequest, a matching Logon or a ResendRequest that can be answered, in any order, once each: after any part of them next_in is the least missing number and the buffer exactly what arrived above it; after all of them they are journaled under their numbers, next_in is past them and the buffer empty |
| Arrival.Arrive | crates/fix-session/src/lib.rs:571-636 | one such arrival, ahead of its turn or at it, keeps this |
| Arrival.OutOfOrderEstablishes | crates/fix-session/src/lib.rs:571-636 | in any order but the right one they take the session to Established, whatever phase it was in |
| Takes.TakeableCommitted | crates/fix-session/src/lib.rs:715-833 | such a message is journaled at its turn and moves next_in by one; its answer, a heartbeat or a whole replay, has no error and sends no new application message |
| ReplayPlan.PlanTiles | crates/fix-session/src/lib.rs:1162-1181 | the items of a replay cover the range once, in order and without a hole, never two gap fills in a row, and resend exactly the application records |
| ReadBack.ApplicationReplays | crates/fix-session/src/lib.rs:1184-1207 | one stored message is replayed without an error if and only if its bytes are tiled by fields that have a number and a time and that the encoder takes |
| ReadBack.DelimiterUnreadable | crates/fix-protocol/src/lib.rs:139-157 | a value with a delimiter and no '=' after it makes the stored bytes unreadable, for that reason |
| ReplayPlan.ReplayWrites | crates/fix-session/src/lib.rs:1140-1235 | in a session that keeps its invariant a replay of a range whose application messages have no delimiter in their values does not fail and writes exactly those items, resending also records that are only journaled |
| ReplayPlan.ReplaySucceedsExactly | crates/fix-session/src/lib.rs:1140-1207 | a replay of any range of stored rows succeeds if and only if the bytes of each of its application messages are tiled by fields that can go again |
| ReplayPlan.ReplayStopsAt | crates/fix-session/src/lib.rs:1162-1185 | at the first unreadable message a replay stops with the parser's reason, after writing all that comes before it as planned |
| DelimiterInOrder.CutOrderStopsReplay | crates/fix-control/src/lib.rs:202-212 | an order whose account has a delimiter and no '=' after it is accepted, journaled and sent, and every replay up to it fails fatally there |
| DelimiterInOrder.CutAccountEndsSession | crates/fix-session/src/lib.rs:1184-1185 | so for the account "A", delimiter, "B": the peer's next ResendRequest over that order ends the session |
| DelimiterInOrder.CutAccountLife | crates/fix-session/src/lib.rs:387-472 | the same as one life on a fresh database, through bytes: logon and answer, the order, the ResendRequest |
| SubmittedValues.SubmissionReplays | crates/fix-session/src/lib.rs:905-948 | a submitted message can be replayed if and only if in its values, ClOrdID included, everything between and after delimiters is digits, '=' and anything, with a tag the encoder takes |
| SubmittedValues.SubmissionReplayedExactly | crates/fix-session/src/lib.rs:1140-1207 | so a replay up to a submitted message succeeds if and only if all before it in the range can be replayed and its submitted values are such |
| ReplayFieldFacts.OriginalReplay | crates/fix-session/src/lib.rs:1184-1204 | the replay of an original has one flag, its number, the new time and the original time once each, its payload unchanged and MsgType still first |
| ReplayReceived.ReplayVerified | crates/fix-session/src/lib.rs:641-685 | verified against the committed original, a replay fails exactly when its sending time is before the original one, and then for that reason |
| ReplayReceived.SecondReplayVerified | crates/fix-session/src/lib.rs:641-685 | against a committed replay, a later replay passes if and only if it is not early and the first one was sent at the original time |
| ReplayReceived.GapFillRefused | crates/fix-session/src/lib.rs:676-683 | a gap fill at a number under which another kind of message is committed is refused |
| ReplayReceived.ReplayFrameVerified | crates/fix-session/src/lib.rs:586-590 | the same verification from the encoded bytes on: a peer past the number answers with nothing, or refuses for the time |
| ReplayDrives.DrainTakes | crates/fix-session/src/lib.rs:624-633 | draining journals the buffered messages up to the first missing number, as they were buffered, Logons and TestRequests included, and changes no earlier row |
| ReplayDrives.ReplayDrivesPeer | crates/fix-session/src/lib.rs:1140-1182 | a peer at the beginning of the range takes the whole replay if and only if no gap fill starts at a number it had buffered; then it ends between the end of the range and the first unbuffered number past it, has every application message with its payload, and no earlier row changed |
| ReplayDrives.ReplayDrivesQuietPeer | crates/fix-session/src/lib.rs:1140-1182 | a peer with nothing buffered always takes the replay of readable messages and ends exactly after the range |
| ReplayDrives.ReplayEndsRecovery | crates/fix-session/src/lib.rs:624-636 | a recovering peer whose buffer lies inside the range is Established after it, with nothing buffered and the next number the one after the range |
| Recovery.GapIsRecovered | crates/fix-session/src/lib.rs:571-585 | the whole loop: a message ahead of its turn makes the peer ask, the session answers the request, and the peer takes the answer if and only if no gap fill starts at the buffered number; then it is Established, empty, level with the session, with every application message |
| Recovery.UnreadableStopsSession | crates/fix-session/src/lib.rs:1184-1185 | a ResendRequest that reaches a message whose bytes do not parse ends the session |
| Limiter.SlidingWindowRateLimiter.TryAcquire | crates/fix-control/src/lib.rs:839-861 | the eviction loop and the admission do what the specification function does to queue and set |
| Limiter.SlidingWindowRateLimiter.Release | crates/fix-control/src/lib.rs:863-872 | removes the request from queue and set and keeps the others in order |
| Limiter.AdmitsExactly | crates/fix-control/src/lib.rs:839-861 | a request is admitted if and only if it was granted within the last second or fewer than the maximum were |
| Limiter.SlidingWindowBound | crates/fix-control/src/lib.rs:839-872 | for any acquisitions and releases at times that never go back, every half-open second contains at most the maximum of grants not released while held, and queue and set hold the same ids, each once, in time order |
| LimiterAnswers.AdmittedBound | crates/fix-control/src/lib.rs:839-872 | from a new limiter on, the ids admitted in a half-open second are those granted in it, those that ask again in it for a grant from before that is held and never given back, and those whose grants are given back later; the first two are at most the maximum each, so without the third at most twice the maximum, and at most the maximum if and only if the repeated ids find room beside the granted ones |
| LimiterAnswers.UnrepeatedWithinMaximum | crates/fix-control/src/lib.rs:839-861 | when no id acquired before a second is acquired again in it less than a second later, only grants stand in that second, at most the maximum |
| LimiterBursts.TwiceReached | crates/fix-control/src/lib.rs:850-852 | for every maximum, a list of acquisitions with exactly twice as many ids admitted in one second |
| LimiterBursts.MaximumExactly | crates/fix-control/src/lib.rs:850-852 | along a list of requests the maximum holds in every second, however any beginning of it goes on with new ids, if and only if no request of it finds itself in the set of held ids on a grant made before its time |
| Fingerprint.FeedDigest | crates/fix-control/src/lib.rs:530-547 | the digest is fed exactly the bytes of the specification function |
| Fingerprint.CommandBytesInjective | crates/fix-control/src/lib.rs:530-549 | for one-byte message types and NUL-free profiles the hashed bytes determine profile, execution mode, message type and the whole field list |
| Fingerprint.LongTypeAmbiguous | crates/fix-control/src/lib.rs:542-547 | a longer message type could take in a field unnoticed |
| Fingerprint.FingerprintsAgree | crates/fix-control/src/lib.rs:530-559 | unless the hash collides on these two commands, fingerprints are equal if and only if the commands are |
| Fingerprint.HexText | crates/fix-control/src/lib.rs:551-559 | the loop writes the two lower-case digits of every byte, the specification function of fingerprints |
| Fingerprint.HexInjective | crates/fix-control/src/lib.rs:551-559 | the digits determine the bytes |
| Fingerprint.ClOrdIdBytesInjective | crates/fix-control/src/lib.rs:520-528 | the bytes hashed for a ClOrdID determine profile and request |
| Control.ControlService.EnterApplication | crates/fix-control/src/lib.rs:719-752 | lookup, fingerprint comparison, presence of a session and rate limit, in this order |
| Control.ControlService.FinishApplication | crates/fix-control/src/lib.rs:753-760 | the submission, giving the grant back exactly when the actor is gone or not established |
| Control.ControlService.ExecuteApplication | crates/fix-control/src/lib.rs:714-765 | an undisturbed execution is the two events of the model one after the other |
| Admission.HappenKeeps | crates/fix-control/src/lib.rs:714-765 | every interleaving of lookups, submissions and turns, with callers that give up and lookups between any two effects of a submission or turn, keeps the actor's invariant, keeps waiting requests harmless and keeps every reply given true |
| Admission.StepLeads | crates/fix-control/src/lib.rs:714-730 | what a lookup finds in the middle of a step of the actor still holds after it: records are kept and harmless requests stay harmless |
| Admission.StartLeads | crates/fixd/src/lib.rs:70-87 | and so does what it finds between any two effects of the actor's start, the reset of the sequence numbers included |
| Admission.LateTruthful | crates/fix-control/src/lib.rs:714-730 | nor does a crash falsify what a lookup found anywhere in the crashed life before it |
| Admission.ServiceRun | crates/fix-control/src/lib.rs:714-805 | over any processes and crashes, those in the start of an actor included, all the service lets through is admissible to the actor, and every reply stays true |
| Admission.SentIsStored | crates/fix-store/src/lib.rs:351-369 | the record of a written request says forever what was written |
| Admission.SingleFlight | crates/fix-control/src/lib.rs:714-765 | on a fresh database, over any callers, processes, crashes and resets, every fresh write was journaled for the first time just before, a request id is written at most once; every accepted execution of it reports the ClOrdID and number of its one record; and only one fingerprint is ever written or reported for it |
| WriteRate.WritesBound | crates/fix-control/src/lib.rs:744-760 | in one process every fresh write is a message of the session's own or of a request that the limiter admitted in it; the writes of requests admitted in one second are at most twice the maximum plus those whose grants were given back, and at most the maximum plus those when no request asks again for what is held |
| Mock.MockSession.OnMessage | crates/fix-mock/src/lib.rs:80-145 | envelope and sequence check, counters, and the answer to each message type, with what is written |
| Mock.MockSession.OnTimer | crates/fix-mock/src/lib.rs:150-159 | a heartbeat under the next number once established |
| Mock.MockSession.OnRead | crates/fix-mock/src/lib.rs:76-146 | the messages of one read, until one ends the session |
| TwoParty.MockTakes | crates/fix-mock/src/lib.rs:80-145 | the acceptor finds no fault in what the initiator sends under the expected number, and answers under its own next number |
| TwoParty.InitTakes | crates/fix-session/src/lib.rs:715-833 | the initiator takes the acceptor's message at its turn without error, answer or buffering, and moves to Established or Disconnected exactly when it should |
| TwoParty.BytesCarryThem | crates/fix-mock/src/lib.rs:78-80 | everything under way survives encoding and parsing: handling its bytes is handling it, at either end |
| TwoParty.MoveKeeps | crates/fix-mock/src/lib.rs:64-162 | every command, timer and delivery keeps the lockstep, and only a command or timer of the initiator can end it |
| TwoParty.TwoPartyLockstep | crates/fix-mock/src/lib.rs:64-162 | in every interleaving, receiver's next number plus messages under way is the sender's next number in both directions (the acceptor's last message takes none), the acceptor never finds a fault, the initiator never buffers and never enters Recovering |

## Left out

- Length/DATA pairs and repeating groups: promised by the documentation, absent from the code.
- Frames extracted before a malformed one in the same `ingest` are dropped by the code; claims about chunking are about runs without errors, and `Decoder.ChunkingIndependence` says which those are.
- Wrap-around of sequence and event counters at 2^64: the code adds 1 unchecked in the session and the store, the model counts on. Where a number must be read back from a message the lemmas ask for it to be below 2^64.
- Messages inside the session are field lists. Stored outbound messages are read back from their bytes as in the code; buffered and inbound messages were parsed on arrival and are not parsed a second time, which would give the same.
- ReplayPlan.ReplayWrites: application messages have no delimiter in their values; `ReplayPlan.ReplaySucceedsExactly` covers every message, and a message that reads back as something else is sent as that, which `ReadBack.ReadBackExactly` determines.
- ReplayPlan.ReplaySucceedsExactly: encoded messages fit into memory (`USIZE_MAX` bytes), as everywhere where bytes are parsed.
- TwoParty.TwoPartyLockstep: counters stay below 2^64 - 1, submissions are of the planner's three types with no delimiter in their values, and the initiator's logon fields are none of the tags the acceptor sends; an error of a command or timer ends the run.
- ReplayDrives.ReplayDrivesPeer: up to the first unbuffered number past the range the peer has buffered no Logout or SequenceReset, no Logon with another HeartBtInt, no TestRequest without its id and no ResendRequest that it cannot answer; the replayed messages are ones it would have taken; its own logon fields are none of the tags of a gap fill; and the clock of the sender does not read earlier than the original sending time of a buffered message.
- Recovery.GapIsRecovered: under the same conditions, with one message buffered; the answer arrives before any further message.
- Arrival.ArrivalOrderIndependence: no Logout, no SequenceReset and nothing that ends in an error at its turn.
- SubmittedValues.SubmissionReplays: the session's own values, the CompIDs and the clock, have no delimiter.
- WriteRate.WritesBound: a write is counted by the second in which its request was admitted; how long a request waits for the actor is not modelled.
- Admission.SingleFlight: at most once, not exactly once; a command that was journaled and never written is not written on a retry. Request ids of agents do not begin with `session:`.
- Admission.ServiceRun: one lock is not modelled as such; any number of requests may wait between lookup and submission, and lookups may fall anywhere inside a step of the actor, which allows more than the code does.
- CrashRuns.CrashSafeSequencing: submissions are admissible, which `Admission.ServiceRun` derives for everything that comes through the control service; at most one actor is alive on a journal.
- Fingerprint.CommandBytesInjective: SHA-256 is an arbitrary function; nothing is said about collisions.
- Tokio runtime, sockets, channels, timers and the reconnect loop: a run is any sequence of inputs; the clock is any function from readings to texts.
- redb tables, serialisation and durability flags: an operation happens as a whole or not at all.
- The planner: decimal arithmetic, policy limits and field mapping are single checks. It does not reject market orders although a policy flag for it exists.
- Dry-run and inspect modes, status, and the mapping of errors to response codes: no state is involved.
- Logging, CFG files, IPC framing, command line, fuzz drivers and `config/FIX44.xml`: plumbing around the core.
