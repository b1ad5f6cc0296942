# Verified model of the peer-to-peer chat

This project models the reliable chat protocol of a peer-to-peer chat program, the encrypted session
underneath it, and three smaller machines around it, and proves what they keep over every run.
`dafny verify dfyconfig.toml` checks the whole project.

**The chat protocol.** A sender numbers its chats from 1, tracks each one until it is acknowledged, and writes it
again every two seconds until it gives up. A receiver delivers the next number, buffers up to 64 chats that come after a
gap, and acknowledges duplicates. Three goroutines touch the sender's state: `sendChat`, the retransmitter, and the
reader that handles acknowledgements. The model is a transition system with one event per critical section or stream
write, so every interleaving of the three is a run.

| module | file | what it holds |
|---|---|---|
| `Receiving`, `Arrivals` | Receiver.dfy, Arrivals.dfy | the receiver of one peer, and whole runs of arrivals |
| `Sending`, `Retransmission` | Sender.dfy, Retransmission.dfy | the sender of one peer, and the retransmitter under interleaving |
| `TwoParty` | TwoParty.dfy | sender and receiver joined by a network that loses, duplicates and reorders |
| `Lifetimes` | Lifetime.dfy | what holds of a peer through any number of sessions |
| `ReadLoops` | ReadLoops.dfy | the receiving side step by step, with the loops of earlier streams beside the present one |
| `StaleEpoch` | StaleEpoch.dfy | what an earlier session can leave behind, and exactly when that does harm |
| `PeerMachine`, `Managing` | Manager.dfy | the maps over all peers, and their projection to one peer |
| `Passes` | RetryPass.dfy | one retransmission pass as a whole, message by message and event by event |
| `Streams` | StreamManager.dfy | the stream manager as an object, each method a run of the step model |
| `TwoNodes` | TwoNodes.dfy | two whole nodes with any number of other peers |
| `Wire` | Wire.dfy | the two-party model carried by the encrypted stream |
| `Envelopes`, `Conversations` | Envelope.dfy, Conversation.dfy | envelope rules and the conversation identifier |

**The session layer.** The replay window is one 64-bit word; `Words` defines the bit operations on binary digits and
`ReplayWindow` shows that the word stands for the plain set of accepted counters. `Base64`, `Splitting`, `Integers` and
`Sessions` give the packet format concretely; `Channel` sends lists of plaintexts through it, and `Forgeries` faces it
with arbitrary packets. `Handshakes`, `ByteOrder` and
`Nonces` cover the key exchange, its transcript and the use of nonces. Ciphers, key derivation, key
agreement, signatures and hashes are parameters, of which only what is needed is asked: opening undoes sealing, both
ends get the same shared secret, a genuine signature verifies.

**Smaller machines.** `Approvals` is the connection-approval machine with its recycled request numbers and `Answering` traces
its decisions back to the answers given in a run; `Histories` is the
history store with its writes through a temporary file and a rename, and `SafetyNumbers` the safety number.

Points at which the code decides how a theorem reads:

- The retransmitter writes first and compares `attempts` with the limit afterwards, so a message is written up to six
  times. The protocol notes (docs/protocol-v2.md, line 113) say five attempts. The model follows the code;
  `SixTransmissionsHappen` shows that six is reached.
- A buffered chat is acknowledged when it is buffered. An acknowledgement therefore means "delivered or buffered".
- Blank text is dropped before the counter moves and before any acknowledgement, and a number is used up even if building
  the envelope fails. Order and exactly-once delivery survive both; progress does not (`UndeliverableNumberStalls`).
- A new stream resets the counters and the buffer but not `pending`, and it stops nobody. On the sending side a
  retransmission pass goes on, and so does a `sendChat` that has taken its number. On the receiving side the read loop of
  the old stream goes on with a chat that it has decoded and not yet handled, a text that it has not yet shown, or its drain
  loop. Any of these can put a wrong text before the user in the new session. The end-to-end theorems are about one session
  with one read loop that begins with nothing left over. `FaithfulExactlyWhenNothingStale` gives the exact condition on
  the state in which a session begins, and `StaleMessageReplacesNewOne` a trace.
- `attempts` lives in `pending` and survives a reconnect, so the bound of six holds over the life of a message, not only in
  one session (`TransmissionsBoundedForLife`).
- 64-bit counters wrap around in the model as in the code. The end-to-end theorems are for sessions in which fewer than
  2^64 sends begin; the receiver and replay-window theorems need no such bound, and nonce uniqueness has its exact one.

## Model

| member | source | states |
|---|---|---|
| `Prelude.BlankTrimsToNothing` | chat_envelope.go:307-309 | the blank-text test on the trimmed string is true exactly of texts made of white space only |
| `Prelude.TrimExactly` | main.go:294-294 | trimming takes the white space off both ends of a line and nothing else |
| `Envelopes.ValidExactly` | protocol/envelope.go:120-163 | an envelope passes if and only if it has version 2, a known type, an id of 1 to 128, a conversation and a sender of at most 128, a positive time at most five minutes ahead, for a chat both parties and a number, and a body of at most 48 KiB that is JSON if there is one |
| `Envelopes.NewEnvelope` | protocol/envelope.go:78-107 | which failure each missing part gives, and that what is built passes validation at its own clock |
| `Envelopes.NewEnvelopeExactly` | protocol/envelope.go:78-107 | an envelope is built if and only if there is an id and a body and the result keeps the rules; it is exactly the envelope of version 2 with the given parts and the clock reading |
| `Envelopes.BuiltEnvelopeStaysValid` | protocol/envelope.go:120-163 | a built envelope passes a later validation if and only if the checking clock is at most five minutes behind the builder's, so a retransmission cannot fail validation |
| `Conversations.BothEndsAgree` | chat_envelope.go:56-63 | both peers compute the same conversation identifier |
| `Conversations.InputDeterminesPair` | chat_envelope.go:58-63 | the hashed input is the same for two pairs of ids if and only if the pairs are equal in some order, for ids without the separator |
| `Receiving.DrainOneKeepsValid` | chat_envelope.go:383-412 | a turn of the drain loop keeps the invariant, never takes a skip branch, delivers exactly the next number and holds the same numbers before and after |
| `Receiving.HandleExactly` | chat_envelope.go:301-412 | what one chat does, whatever it is: a duplicate is acknowledged again, a chat after a gap is kept and acknowledged or dropped when 64 are waiting, the next one is shown and acknowledged and after it, in order, each buffered chat up to the first that is missing; a chat without text is ignored |
| `Receiving.HandleKeepsSettled` | chat_envelope.go:307-343 | handling one chat keeps the invariant, adds exactly the accepted number to what is held, and takes nothing back |
| `Receiving.SettledGap` | chat_envelope.go:383-396 | between two chats the next number is not held and every buffered number is at least `recvSeq + 2` |
| `Receiving.ReceiverRefinesAcceptedSet` | chat_envelope.go:307-343 | after any list of arrivals the receiver stands for exactly the set of accepted numbers: the next expected one is the least missing, the buffer lies beyond the gap and within 64, one text per number was delivered, also at the top of the 64-bit range |
| `Arrivals.NothingDroppedWithinWindow` | chat_envelope.go:318-343 | if every arrival is at most 65 ahead when it arrives, no fresh chat is ever dropped |
| `Arrivals.ArrivalOrderDoesNotMatter` | chat_envelope.go:318-412 | every such arrival order of messages 1..n, with duplicates, delivers exactly 1..n in order and leaves the buffer empty |
| `Arrivals.MissingSequenceStalls` | chat_envelope.go:307-333 | if a number never arrives as a chat with text, delivery stays below it and at most 64 numbers beyond it are ever accepted, however long the run |
| `Retransmission.StepKeepsInv` | chat_envelope.go:176-285 | every event of the sender keeps the link between attempts, last-sent times, the pass under way and the transmissions made so far |
| `Retransmission.SixTransmissionsHappen` | chat_envelope.go:261-276 | a run in which a message is written six times before its failure is reported |
| `Retransmission.PassLowersDebt` | chat_envelope.go:251-284 | with no new message and the peer connected, a pass that finds a due message strictly lowers the sum of (6 - attempts), which is never negative, whatever happens meanwhile |
| `Lifetimes.TransmissionsBoundedForLife` | chat_envelope.go:176-285 | over the whole life of a message, through any number of reconnects and disconnects at any moment, it is written at most six times and its rounds are at least one timeout apart |
| `Lifetimes.LeavingIsFinalForLife` | chat_envelope.go:192-210 | a message that left `pending` never returns, in this session or a later one, so an acknowledgement that lands in the middle of a pass is never undone |
| `Lifetimes.ManagerKeepsSound` | chat_envelope.go:176-285 | the sender invariant holds for every peer after any run of a whole stream manager |
| `TwoParty.RunKeepsLink` | chat_envelope.go:107-140 | the invariant of sender, network and receiver holds in every reachable state of a session |
| `TwoParty.DeliveredInOrderExactlyOnce` | chat_envelope.go:107-412 | in every run over a network that loses, duplicates and reorders, what was delivered is exactly the texts given the numbers 1..recvSeq, in order, each once |
| `TwoParty.NoSilentLoss` | chat_envelope.go:127-284 | every number taken is under way, pending, acknowledged or reported as failed; an acknowledged one is delivered or in the receiver's buffer |
| `TwoParty.UndeliverableNumberStalls` | chat_envelope.go:122-130 | a number whose envelope was not built or whose text is blank holds back everything after it |
| `ReadLoops.OneLoopProjects` | main.go:271-311 | with one read loop, the steps of reading, taking the number, showing and draining make every run a run of the two-party model |
| `ReadLoops.ShownInOrder` | chat_envelope.go:311-412 | at each moment the texts shown are those numbered 1, 2, 3 and so on, and at most one more number has been taken than shown |
| `StaleEpoch.FaithfulExactlyWhenNothingStale` | main.go:139-146 | for a sender after any past and a receiver whose read loops stand anywhere: every run of a new session shows each of its messages under its own number if and only if the sender has no chat with text left to send (pending, unless its last retry was just written; ahead in the pass; or in the hands of a `sendChat` with a number) and no old read loop holds a chat with text and a number, is about to show a text, or is draining |
| `StaleEpoch.ReachableIsPlausible` | chat_envelope.go:176-285 | after any past a leftover is filed under its id, has a number, and agrees between the pass and `pending` |
| `StaleEpoch.StaleMessageReplacesNewOne` | chat_envelope.go:251-261 | a trace in which a leftover is delivered as message 1 and the real message 1 is acknowledged but never shown |
| `Managing.StepForProjects` | chat_envelope.go:176-210 | a step of the manager for one peer is one step of that peer's machine and invisible to all others |
| `Managing.RunProjects` | chat_envelope.go:176-412 | any interleaving of manager steps over many peers, projected to one peer, is a run of the single-peer machine |
| `Managing.RunKeepsTidy` | main.go:314-325 | streams and sessions always have the same keys, and no peer keeps an empty map of pending messages |
| `Streams.DueMessages` | chat_envelope.go:242-248 | the inner loop of the snapshot lists exactly the due messages of one peer, once each |
| `Streams.SendRefines` | chat_envelope.go:107-140 | `sendChat` as a run of the step model: the number is used up in every case, the message stays pending exactly when it was built and written |
| `Streams.RetryRefines` | chat_envelope.go:251-284 | one turn of the retransmission loop as steps of the model, for a connected and for a disconnected peer |
| `Streams.BuiltIsRecognised` | chat_envelope.go:291-298 | what one node builds for another passes the other's checks of conversation and sender |
| `Streams.StreamManager.constructor` | main.go:91-106 | a new manager is the empty state of the step model |
| `Streams.StreamManager.TrackPending` | chat_envelope.go:176-190 | files the message under its id with one attempt and the time of sending, and touches nothing else |
| `Streams.StreamManager.AckPending` | chat_envelope.go:192-204 | removes the message, and the peer's map if it became empty; an unknown peer or id changes nothing |
| `Streams.StreamManager.ClearPending` | chat_envelope.go:206-210 | forgets all pending messages of one peer and of no other |
| `Streams.StreamManager.BeginSession` | main.go:141-146 | counters and buffer are reset, the new session is stored, `pending` is untouched |
| `Streams.StreamManager.AddStream` | main.go:124-146 | the handshake decides: if it succeeds its session is stored, the counters and the buffer are reset and a session of the step model begins; if it fails, and in particular if the second line is not a signature of the transcript that the expected identity verifies, nothing changes |
| `Streams.StreamManager.ForgetPeer` | main.go:314-325 | removes the peer from all six maps, as the run of disconnecting and then clearing the pending messages |
| `Streams.StreamManager.TrackAndWrite` | chat_envelope.go:132-139 | after the build: tracked before the write, removed again if the write fails |
| `Streams.StreamManager.NumberAndSend` | chat_envelope.go:117-139 | under the send lock: the number is taken before the build, also when the build fails |
| `Streams.StreamManager.SendConnected` | chat_envelope.go:117-140 | to a connected peer: exactly the model's send events, whatever fails |
| `Streams.StreamManager.SendChat` | chat_envelope.go:107-140 | performs exactly the model's send events and succeeds exactly when connected, built and written; then the message is pending with one attempt and the clock reading, otherwise nothing is pending under its id, and no other message changes |
| `Streams.StreamManager.CollectDue` | chat_envelope.go:238-249 | the snapshot holds exactly the due messages of every peer |
| `Streams.StreamManager.SettleRetry` | chat_envelope.go:263-283 | settles one retry: nothing if the message left or was replaced, removal on a failed write or at the limit, one more attempt otherwise |
| `Streams.StreamManager.RetransmitDue` | chat_envelope.go:232-285 | for every message of every peer: if it was last sent at least two seconds ago and its peer is connected, it is gone if its write failed or it had five attempts, and otherwise has one attempt more and the time of the pass; every other message is as it was. The pass is a run of the step model: the snapshot, then for each message in it a write with the outcome that the stream gave and a settling, or a skip |
| `Streams.StreamManager.DrainTurn` | chat_envelope.go:384-411 | one turn of the drain loop is the model's drain step and shrinks the buffer |
| `Streams.StreamManager.DrainReceiveBuffer` | chat_envelope.go:383-412 | the loop ends, is a run of drain steps, and leaves the peer's receiver fully drained |
| `Streams.StreamManager.SortChat` | chat_envelope.go:311-343 | classifies a chat as duplicate, gap or next, exactly as the model's receive step does |
| `Streams.StreamManager.HandleChat` | chat_envelope.go:301-343 | handling a chat is its arrival step followed by drain steps, with the outcome that the receiver model gives |
| `Streams.StreamManager.HandleEnvelope` | chat_envelope.go:287-367 | an envelope is genuine if it names this peer as sender and the conversation that both ends compute; a genuine chat is handled as above, a genuine acknowledgement takes exactly its own message out of `pending`, every other envelope changes nothing |
| `TwoNodes.NodesProject` | chat_envelope.go:107-412 | every run of two whole nodes is, for the two of them, a run of the two-party model |
| `TwoNodes.NodesDeliverInOrder` | chat_envelope.go:107-412 | after any past of the sending node, whatever the other peers do, delivery between two nodes is in order and exactly once, no number is lost silently, and no message was ever written more than six times |
| `Words.BitOfOr` | security/e2ee.go:302-317 | a digit of a bitwise or is set exactly when it is set in one of the operands |
| `Words.BitAfterShift` | security/e2ee.go:299-302 | a 64-bit left shift moves each digit up, clears the low ones and loses the high ones |
| `Words.AndWithMask` | security/e2ee.go:311-314 | the mask test reads exactly one digit |
| `ReplayWindow.AcceptsExactlyTheNew` | security/e2ee.go:293-319 | a counter is accepted if and only if it is new and above `recvMax` or less than 64 below it |
| `ReplayWindow.WindowRefinesSet` | security/e2ee.go:293-319 | after any run of counters bit i is set exactly when `recvMax - i` was accepted |
| `ReplayWindow.NoCounterTwice` | security/e2ee.go:306-318 | no run of any length accepts the same counter twice |
| `ReplayWindow.ToleratesExactly` | security/e2ee.go:293-319 | a run is accepted in full if and only if its counters are distinct and none comes after one 64 or more above it |
| `Integers.LittleEndianRoundTrip` | security/e2ee.go:244-246 | the little-endian counter reads back as itself |
| `Integers.BigEndianRoundTrip` | verification.go:64-70 | a four-byte length or type below 2^32 reads back as itself, the highest byte first |
| `Base64.RoundTrip` | security/e2ee.go:246-249 | decoding undoes encoding for every byte string, padding included |
| `Base64.EncodeUsesAlphabet` | security/e2ee.go:246-249 | encoded text uses only the base64 alphabet, so neither the dot nor a newline can occur in it |
| `Base64.SplitKeepsBits` | security/e2ee.go:246-249 | the four digits of a group hold the bits of its three bytes in order |
| `Base64.DecodeExactly` | security/e2ee.go:265-278 | a text decodes to some bytes if and only if, without its line breaks, it is their encoding group by group, but for the unused bits of the last digit |
| `Splitting.SplitExactly` | security/e2ee.go:260-263 | the parts of a packet are the one list of texts without the separator that join to it |
| `Sessions.Session.constructor` | security/e2ee.go:160-188 | a new session has its keys and directions, counter 0 and an empty window |
| `Sessions.Session.AcceptCounter` | security/e2ee.go:293-319 | accepts and updates in place exactly as the window model says |
| `Sessions.Session.EncryptPacket` | security/e2ee.go:236-249 | advances the counter and returns the packet of the model |
| `Sessions.Session.DecryptPacket` | security/e2ee.go:255-289 | decrypts in place exactly as the function does that `DecryptExactly` characterises |
| `Sessions.DecryptExactly` | security/e2ee.go:255-289 | for every packet the condition of each of the six failures and of success: two parts, a nonce of 12 bytes, the receiving direction, base64, a text that opens under the receiving key, an acceptable counter; on any failure the session is unchanged |
| `Forgeries.AcceptsExactlyAuthentic` | security/e2ee.go:251-319 | whatever packets arrive, forged, damaged or replayed: one gives its plaintext if and only if it is authentic and no packet accepted before it had its counter or one 64 or more above it |
| `Forgeries.EncryptedIsAuthentic` | security/e2ee.go:236-249 | what the peer encrypts is authentic, with the next counter of the peer |
| `Channel.DecryptGenuine` | security/e2ee.go:255-289 | a packet that the peer made yields its plaintext exactly when the window accepts its counter, and is a replay otherwise |
| `Channel.ChannelRoundTrip` | main.go:271-303 | for every list of plaintexts: encrypt, write as lines, split, trim and decrypt gives exactly that list |
| `Channel.LinesExactly` | main.go:271-288 | the lines read from a stream are the stream up to its last newline, each ending in its only newline |
| `Channel.FailingLineIsSkipped` | main.go:294-297 | a line that fails to decrypt, whatever it is and wherever it comes, changes nothing of what the rest gives |
| `Channel.ArrivalsDecrypt` | security/e2ee.go:255-319 | whatever order and repetition the network makes, each packet yields its own plaintext or is refused as a replay |
| `Channel.ArrivalsTolerance` | security/e2ee.go:255-319 | no packet yields its plaintext twice, and all do if and only if none repeats or comes after one sent 64 or more later |
| `Wire.ReadsWhatWasWritten` | main.go:294-303 | a line that was written is read as the envelope that it was made from, or as nothing |
| `Wire.ReadsExactly` | main.go:294-303 | a written line is read if and only if the window accepts its counter, and is then what decoding the encoded envelope gives |
| `Wire.WireProjects` | chat_envelope.go:89-105 | whatever stream, cipher, replay windows and decoders do to the lines of either direction, every run is a run of the two-party model; the codec only has to read back what was written |
| `Wire.WireDeliversInOrder` | main.go:271-303 | after a handshake, with lines of chats and of acknowledgements lost, repeated and reordered: delivery in order and exactly once, and no silent loss |
| `ByteOrder.CompareIsAntisymmetric` | security/e2ee.go:160-188 | comparison the other way round has the opposite sign, and is 0 exactly for equal strings |
| `ByteOrder.CompareIsTransitive` | security/e2ee.go:193-220 | byte-lexicographic comparison is transitive |
| `ByteOrder.CompareExactly` | security/e2ee.go:170-187 | one string is below another if and only if it has the lower byte at the first difference or is a proper prefix |
| `ByteOrder.SortedExactly` | security/e2ee.go:193-220 | sorting a pair forgets its order and nothing else |
| `ByteOrder.SortedInOrder` | security/e2ee.go:193-220 | sorting gives the same two strings with the lower one first |
| `Handshakes.TranscriptDeterminesParties` | security/e2ee.go:193-220 | for 32-byte keys two transcripts are equal if and only if the unordered ephemeral pairs and identity pairs are |
| `Handshakes.HandshakeExactly` | security/e2ee.go:112-188 | for any two lines, whoever wrote them: success if and only if the first is a key of 32 bytes that gives a shared secret and differs from one's own, and the second a signature of the transcript that the expected identity verifies; and the condition of each of the five failures |
| `Handshakes.SessionOfHandshake` | security/e2ee.go:154-188 | the end with the lower key sends with the low-to-high key and marker and receives with the high-to-low ones, the other end the opposite |
| `Handshakes.HandshakeAgreement` | security/e2ee.go:81-188 | two parties that expect each other compute the same transcript; for distinct ephemeral keys both succeed with complementary sessions, for equal ones both fail |
| `Handshakes.HandshakeThenTalk` | security/e2ee.go:81-289 | after the handshake whatever one end encrypts the other reads back |
| `Nonces.NoncesDistinctExactly` | security/e2ee.go:236-249 | no nonce is used twice, on either side or across both, if and only if neither side encrypts more than 2^64 times |
| `Approvals.ApprovalDesk.Begin` | main.go:192-198 | hands out the next number and registers channel and number for the peer |
| `Approvals.ApprovalDesk.Finish` | main.go:224-230 | drops both entries and starts the numbering again when no number is left |
| `Approvals.NumbersAreSafe` | main.go:192-230 | in every interleaving outstanding numbers are distinct, within 1..nextRequestNum and exactly the registered ones, each leading to its peer; each registered channel belongs to an outstanding request of that peer; with no request outstanding the desk is empty and the numbering starts again |
| `Answering.AdmissionsNeedAnswers` | main.go:205-261 | in every run, each admission of a stream goes back to an earlier event that answered true to the peer the stream came from, by its id or by a number that led to it at that moment; different admissions go back to different events |
| `Answering.RejectionsHaveReasons` | main.go:205-222 | a stream is rejected only if it timed out or false was answered to the peer it came from |
| `Answering.ArrivalAwaits` | main.go:192-198 | a stream that arrives is registered under the next number and waits, with no answer in its channel |
| `Answering.AnswerByPeerDecides` | main.go:233-243 | an answer by peer id reaches the channel registered for the peer and decides with the value that was given: a waiting stream can then be admitted if and only if it was true, and rejected if and only if it was false |
| `Answering.AnswerByNumberDecides` | main.go:246-261 | the same for an answer by the number of a registered request |
| `Approvals.RegisteredExactly` | main.go:196-230 | a request keeps its registration over a run if and only if no other request of its peer registers and none is cleaned up |
| `Approvals.AnswerReachesItsNumber` | main.go:246-261 | an answer by number goes to the request that holds the number if and only if, up to the lookup of the channel, no other request of that peer was registered and none cleaned up |
| `Approvals.AbandonedIsNeverAdmitted` | main.go:205-230 | a request that lost its registration with no answer on the way is never admitted, whatever is answered |
| `Approvals.AnswerGoesAstray` | main.go:192-261 | a trace in which accepting number 1 admits the stream that waits as number 2 |
| `Histories.CrashLeavesOldOrNew` | storage/history.go:217-240 | a crash at any moment of a write leaves the old or the new file whole and every other history untouched |
| `Histories.HistoryIsWhatWasSaved` | storage/history.go:88-257 | over any run of saves, loads, clears, failures, crashes and damage, beside a plain specification that knows only the events and what the disk did: a valid peer's history can be read if and only if its file was not damaged since its last clear, and then it is exactly the messages saved since that clear, in order |
| `Histories.ReportsFollowTheDisk` | storage/history.go:88-257 | after any run a save, a clear and a load succeed if and only if the id is valid, the history is not damaged (a clear may remove a damaged one) and the disk does its part |
| `Histories.SaveExactly` | storage/history.go:88-106 | a save succeeds if and only if the existing history can be read and the disk completes the write; then the file holds the old messages and the new one and no temporary file is left; which failure each other case gives; a failing save leaves what every reader sees unchanged |
| `Histories.ClearExactly` | storage/history.go:244-257 | a clear succeeds if and only if the id is valid and there is nothing to remove or it is removed; then the history is empty, otherwise nothing changes, and other histories never do |
| `Histories.ValidPeerIdExactly` | storage/history.go:74-85 | exactly the ids that are one path component without two dots in a row are valid, and then the file name is one component too |
| `Histories.UnreadableIsKept` | storage/history.go:96-102 | through any run a file that cannot be read stays byte for byte what it was until it is cleared |
| `Histories.LoadAfterSave` | storage/history.go:88-114 | a save that reports success appears at the end of the next load |
| `Histories.HistoryStore.SaveMessage` | storage/history.go:88-106 | performs the save that `SaveExactly` characterises, step by step on the directory |
| `Histories.HistoryStore.LoadHistory` | storage/history.go:110-187 | a missing file is an empty history; an invalid id, a failing read, a short file, one that does not decrypt and one that is not JSON each have their own failure, in that order; otherwise the result is the decoded content |
| `Histories.HistoryStore.ClearHistory` | storage/history.go:244-257 | performs the clear that `ClearExactly` characterises |
| `Histories.HistoryStore.LoadAllHistories` | storage/history.go:118-145 | exactly the per-peer loads, restricted to histories that can be read and are not empty |
| `SafetyNumbers.SafetyNumber` | verification.go:24-87 | the first of six obstacles decides the error; without one the result is the fingerprint of the two keys |
| `SafetyNumbers.SortEntries` | verification.go:57-59 | afterwards the two entries are in the order of their ids and are the same two |
| `SafetyNumbers.FeedDigest` | verification.go:61-73 | the loop feeds the domain and both framed keys, in order |
| `SafetyNumbers.MakeGroups` | verification.go:76-85 | the loop appends group after group, each five digits of its own hash |
| `SafetyNumbers.Symmetric` | verification.go:28-30 | swapping local and remote gives the same number |
| `SafetyNumbers.DigestInputInjective` | verification.go:61-73 | the hashed input is equal for two ordered pairs of typed keys if and only if the pairs are equal, for keys shorter than 2^32 bytes |
| `SafetyNumbers.SplitsIntoGroups` | verification.go:76-86 | the number always splits on spaces into exactly 12 groups of 5 digits |
| `SafetyNumbers.GroupsReadAsHashes` | verification.go:76-86 | each group reads as the big-endian first four bytes of the hash of seed and index, modulo 100000 |

## Left out

- libp2p hosts, streams, discovery and bootstrap: network input and output over libraries that are not part of this model.
- The inside of ChaCha20-Poly1305, X25519, HKDF, SHA-256 and Ed25519: parameters with only the algebra that is needed.
- JSON text: a body is known by its size, whether it is valid JSON, and what it reads as; the coding of stored messages is a parameter that is assumed to round-trip.
- Text is a sequence of characters: the limits on ids count characters where the program counts bytes, which is the same for the ids that it makes itself.
- Entropy and clocks: nonces, message ids and clock readings are parameters. A new message id is assumed not to have been used before. No order among clock readings is needed.
- The web bridge, the saved-peer and verification stores, control messages, nicknames, commands, the active peer and the timing experiments: they would only add easy members.
- Checks for a missing node, history store or identity key: objects that exist are assumed.
- TwoParty.DeliveredInOrderExactlyOnce: is about one session with one read loop per peer and fewer than 2^64 sends; runs across sessions are covered by the theorems of `StaleEpoch`. A `forgetPeer` of an earlier stream that comes late ends the session.
- Wire.WireDeliversInOrder: lines that nobody wrote, and lines of an earlier stream, are not modelled: that they do not decrypt would ask for unforgeability of the cipher.
- TwoParty.NoSilentLoss: an acknowledgement that the receiver tried to send counts as sent even if its write failed; the network may lose it anyway.
- Streams.StreamManager.SendChat: the class methods run without interruption; interleavings of their critical sections are runs of `Managing` and `Sending`. The address of a pending record, which the retransmitter compares, is a number given out once per record.
- Streams.StreamManager.RetransmitDue: finding the stream and writing to it is one event, at the moment of finding; a write that comes later goes to the stream that was found, where the network may delay it. A `sendChat` that found the old stream but takes its number in the new session counts as writing to the new one, where the network may lose it.
- Managing.RunProjects: the receiver of each peer has one read loop at a time; loops of several streams beside each other are modelled for one peer, in `ReadLoops`.
- Streams.StreamManager.HandleEnvelope: control and error envelopes only print or answer, and change none of the modelled state.
- Answering.AdmissionsNeedAnswers: reading the request line, and a peer id that cannot be decoded in an answer, are not modelled.
- Histories.HistoryStore.LoadAllHistories: a directory that cannot be listed is not modelled; a missing one is the empty directory.
- Handshakes.HandshakeAgreement: read and write errors on the stream, and keys that are not 32 bytes long at the sending end, are not modelled; a key that arrives with another length is.
