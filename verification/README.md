# A verified model of the socket.io server

This project models a Go implementation of socket.io (protocol revision 4) over engine.io (protocol
revision 3) and proves what its wire formats and its transport upgrade guarantee. Check it with
`dafny verify dfyconfig.toml`.

## How it is laid out

| files | subject |
|---|---|
| `Common`, `Json`, `JsonRead` | bytes, numerals and Go's integer wrap-around; JSON values, the compact text `encoding/json` writes, and a reader of it |
| `Placeholder`, `Regexp` | the two regular expressions of the default codec, and what deleting their matches does to a JSON value |
| `Codec`, `CodecTheorems`, `CodecWire`, `EventTheorems`, `DecoderSafety`, `Args` | the default codec: encoder, header scanner, frame decoder, argument merging; the frames character by character |
| `Engine`, `EngineLocks`, `EngineOutbound`, `EngineEmitter`, `EngineOrder`, `EngineInbound`, `EngineIncoming`, `EngineClose`, `EngineRequests` | one engine.io session as a transition system: submitters, emitter, polls, posts, reader, close, any number of upgrade attempts |
| `Base64`, `Payload`, `PayloadTheorems`, `PayloadWire`, `PayloadIo` | payload framing, text and XHR2, on well-formed and on any other input |
| `Msgpack`, `MsgpackPacket`, `MsgpackValues` | the msgpack packet map and the re-headed argument array; MessagePack values form by form |
| `Acks` | acknowledgement ids and pending callbacks, one packet at a time and under races |

Code that updates variables or objects in the source is a `method` or a `class` here, specified by a
function; the theorems are lemmas about these functions. Text frames are strings of one `char` per
byte. Library calls the model cannot see (`url.Parse`, `json.Unmarshal`, `UnmarshalBinary`) are
parameters: `Lib` of the decoder and `Conv` of the argument merging.

## What the proofs found

Some promises hold only under a condition the code does not check. Each is stated as an
equivalence, with the condition a caller could check; runs of the session that go wrong are given
from its initial state.

- An event arrives as sent if and only if its namespace has no comma and `url.Parse` leaves it alone,
  its name is not empty and is copied by the JSON encoder as it is (so no quotation mark, backslash,
  control character, `<`, `>`, `&`, U+2028, U+2029 or invalid UTF-8), and either no argument is binary or
  no JSON argument carries a placeholder-shaped object at a place where the pattern looks for one
  (`EventTheorems.EventEndToEnd`).
- An acknowledgement arrives as sent if and only if its namespace does, and no result is binary, or the
  first result is JSON and there is no stray placeholder, or the first result is binary and the first JSON
  result happens to be the one stray placeholder and reads like the missing one
  (`EventTheorems.AckEndToEnd`). So with a binary first result and no stray placeholder it is refused,
  because a placeholder is recognised only after a comma (`EventTheorems.AckFirstBinaryRefused`).
- An acknowledgement without results is decoded and then rejected by `ParseData`; if it answers a
  binary event that gave no results, the event's own buffers are sent after it
  (`EventTheorems.AckWithoutResults`, `EventTheorems.StaleBuffersRefused`).
- `Encode` consumes its packet: encoding it again gives the same frame if and only if it had no binary
  element, and otherwise a frame that is refused (`EventTheorems.ReencodeRefused`).
- An Error packet arrives as sent if and only if its namespace does and its data is neither a number that
  starts with a digit nor a list with a binary element: the number, or the count written for the list, is
  taken for a packet id (`EventTheorems.ErrorData`).
- A payload in text form is read back if and only if no string packet has type byte 50 and all binary
  data has a length divisible by 3 and at most 768 bytes (`PayloadTheorems.TextListRoundTrip`).
- A write in flight when the connection is paused can be lost (`EngineOrder.LosesWithoutQuiet`), and a
  packet is lost that the websocket request of a failed upgrade takes when it falls through to the polling
  connection (`EngineOrder.StraySwallows`, `EngineOrder.FailedAttemptLoses`). Which steps can lead to loss or
  overtaking is stated exactly (`EngineOrder.QuietIsExact`).
- Incoming packets can be overtaken or left behind if and only if the swap happens while the reader is at
  large with packets waiting or being posted, or a packet is posted after the take-over
  (`EngineInbound.QuietInIsExact`, `EngineInbound.UnparkedReaderOvertakes`, `EngineInbound.LatePostIsLost`).
- Exactly the packets accepted before the emitter returns are handed over
  (`EngineEmitter.HandedExactly`); one accepted later never is (`EngineEmitter.LateSubmitIsLost`).
- Socket.Close closes the session's connection for good, but an upgrade under way can still swap in a new
  one, which then nothing closes (`EngineClose.CloseCloses`, `EngineClose.UpgradeAfterClose`).
- A callback can run twice if and only if an acknowledgement is looked up while another one of the same id
  is between lookup and delete (`AckRaces.SeparateIsExact`); of several callbacks given to one emit, only
  the last one's id is sent (`Acks.SocketAcks.Emit`).

`engine/protocol.md` describes the length of a base64 packet differently from the code, which counts
both the letter `b` and the type byte (`engine/payload.go:110-114`). The model follows the code.

## Model

| member | source | states |
|---|---|---|
| `Placeholder.PlaceholderMatchesHoles` | parser_default.go:316 | at the comma before a list element the pattern matches exactly when the element is a placeholder object, and then consumes exactly the comma and the element; no match starts inside a string literal or between object members |
| `Placeholder.StripIsPrune` | parser_default.go:308-314 | on the text of any JSON value, deleting all matches gives the text of the value without its non-leading placeholder elements at any depth, and the slot count is how many there were |
| `Regexp.GreedyIsRegexp` | parser_default.go:316 | for a deterministic pattern, reading greedily finds a match exactly when some prefix is in the language, and consumes the longest |
| `Regexp.RecogniserIsRegexp` | parser_default.go:316 | the hand-written recogniser is the regular expression of the source, item by item: same matches, same extent |
| `Regexp.EventIsRegexp` | parser_default.go:317 | extractEvent is its regular expression: same matches, same extent, and the name it returns is what the group captures |
| `Regexp.ClassIs` | parser_default.go:316-317 | the character classes of both patterns, character by character |
| `Codec.TypeOf` | parser_default.go:207-211 | exactly the bytes '0' to '6' name a packet type, and the type's code is that digit |
| `Codec.PullBinaries` | parser_default.go:40-50 | the in-place loop leaves the list with binary elements replaced by placeholders numbered in order, and collects exactly the binary elements in order |
| `Codec.Preprocess` | parser_default.go:35-59 | the whole packet afterwards: slash added, attachments recounted, type promoted only with attachments, buffer replaced only for list data |
| `Codec.Encode` | parser_default.go:27-92 | the text frame is type, count, namespace, id and data in this order, the binary frames are the packet's buffer, and the packet is left preprocessed |
| `Codec.ScanCount` | parser_default.go:218-233 | stops at the end of the digit run, yields its value wrapped once to 64 bits although the loop wraps at each digit, and fails exactly when another character than a dash follows |
| `Codec.ScanNsp` | parser_default.go:235-241 | stops at the first comma or the end |
| `Codec.ScanId` | parser_default.go:255-265 | consumes exactly the digit run and yields its value modulo 2^64 |
| `Codec.DecodeFrame` | parser_default.go:203-291 | the index-moving decoder computes the field-by-field specification, on every text, errors included |
| `Codec.DecodeFrom` | parser_default.go:235-291 | the same from the namespace field on |
| `Codec.DecodeFromId` | parser_default.go:255-291 | the same from the id field on |
| `Codec.HandleSound` | parser_default.go:170-201 | one Add keeps: the partial packet waits for at least one slot and exactly the earlier slots are filled; an emitted packet is complete and leaves no partial one |
| `Codec.StepSound` | parser_default.go:170-201 | the same for a frame of any bytes |
| `Codec.DefaultDecoder.Add` | parser_default.go:170-201 | state and queue after Add, error cases included; all indexing is in range |
| `Codec.DefaultDecoder.Yield` | socket.go:169-176 | takes the oldest decoded packet, or none without blocking |
| `Codec.DefaultDecoder.OnMessage` | server.go:46-67 | Add then yield: the queue is empty before and after, and the packet processed is the one this very frame completed |
| `CodecTheorems.DecodeHeader` | parser_default.go:207-285 | for every type, count below 2^63, plain namespace, uint64 id and data not starting with a digit or slash, the decoder reads back exactly these fields and stops at the data |
| `CodecTheorems.FillSlots` | parser_default.go:170-194 | binary frames fill the open slots in arrival order and the last one emits |
| `CodecTheorems.ListDelivery` | parser_default.go:170-291 | from any decoder state, the frames of a list either wait until the last one emits the packet, or the text frame is refused and changes nothing; which of the two depends on the placeholders found |
| `CodecTheorems.FreshDelivery` | parser_default.go:170-291 | a fresh decoder emits exactly the sent packet or nothing, and ends without a partial packet |
| `CodecTheorems.ControlRoundTrip` | server.go:119-129 | a Connect, Disconnect or Error packet without data arrives with its normalised namespace and no id, data or buffers if and only if the namespace survives |
| `CodecTheorems.NspArrives` | parser_default.go:235-247 | a namespace arrives as sent if and only if it has no comma and url.Parse leaves it alone; assumes of url.Parse only that a path is not longer than its text |
| `CodecWire.NumeralIs` | parser_default.go:68 | numerals are decimal digits, most significant first |
| `CodecWire.NumberIs` | parser_default.go:227 | a run of digits is worth its decimal value |
| `CodecWire.EncodeIs` | parser_default.go:61-92 | the text frame of every packet, field by field and character by character: type digit, count and dash, namespace and comma, id, data |
| `CodecWire.DecodeIs` | parser_default.go:203-291 | every frame, whichever of its fields are there, is decoded to its meaning, written out without the decoder |
| `CodecWire.EveryText` | parser_default.go:203-291 | every text is such a frame or is refused as an unknown packet |
| `CodecWire.DataRefused` | parser_default.go:272-288 | data is refused exactly when an event or acknowledgement has no list, or another packet no JSON |
| `CodecWire.BareNamespace` | parser_default.go:235-253 | a namespace that ends the frame without a comma is the namespace, or an error if url.Parse gives one |
| `CodecWire.BareNamespaceAfterCount` | parser_default.go:218-253 | the same after the count of a binary packet |
| `CodecWire.RefusedKeeps` | parser_default.go:170-185 | a refused frame of any kind leaves the partial packet alone |
| `CodecWire.RefusedExactly` | parser_default.go:170-194 | which frames are refused, with which error, and what the others do |
| `CodecWire.ParseDataIs` | parser_default.go:105-127 | what ParseData gives for every packet, errors included, and that buffers go with the binary types only |
| `CodecWire.ListChar` | protocol.go:12-20 | the first character of an event is 2, or 5 with binaries, and of an acknowledgement 3 or 6 |
| `CodecWire.EventChar` | protocol.go:12-20 | the same for the frames of an event |
| `CodecWire.DecodedType` | parser_default.go:207-211 | the type a frame is decoded with is the one its first digit stands for |
| `CodecWire.MsgpackTypes` | parser_msgp.go:246-250 | msgpack packets carry the same type numbers |
| `CodecWire.SentNamespace` | parser_default.go:36-38 | a slash goes before a namespace that does not begin with one; any other is sent as it is |
| `CodecWire.ListNamespace` | parser_default.go:235-247 | and the packet emitted at the other end has that namespace, the root for an empty one |
| `CodecWire.PlaceholderIs` | parser_default.go:323-329 | the text that stands for a binary argument |
| `CodecWire.PluggedAt` | parser_default.go:42-49 | binary arguments are numbered from zero in their order |
| `CodecWire.EventDataReads` | parser_default.go:88-90 | a JSON reader makes of the data of an event that arrives the list of its JSON arguments |
| `JsonRead.ValueRead` | parser_default.go:88-90 | reading the text of any value gives the value back, with only the bytes that are no characters replaced |
| `JsonRead.EscapesAre` | parser_default.go:88-90 | the escape that is written for each character that needs one |
| `JsonRead.Utf8IsRune` | parser_default.go:88-90 | every character beyond ASCII is taken for one |
| `JsonRead.RuneIsUtf8` | parser_default.go:88-90 | and nothing else is |
| `EventTheorems.HolesFound` | parser_default.go:308-314 | the slots made are the binary arguments plus the stray placeholders in JSON arguments |
| `EventTheorems.ExtractEventRight` | parser_default.go:299-306 | a plain name is returned with the text of the list without it |
| `EventTheorems.ExtractEventWrong` | parser_default.go:299-306 | any other name gives no match or a different name |
| `EventTheorems.EventEndToEnd` | parser_default.go:35-92 | exactly one packet with the promoted type, normalised namespace, same id, buffers in order, event name and text of exactly the JSON arguments, if and only if namespace and name survive and no stray placeholder meets a binary argument |
| `EventTheorems.EventOnLastFrame` | parser_default.go:170-201 | from any decoder state every frame but the last waits and the last one emits that packet |
| `EventTheorems.StreamDecoding` | socket.go:153-167 | any list of sendable events, acknowledgements, Connect, Disconnect and Error messages emitted one after another through one decoder yields one packet for each, in order, that conveys it, and leaves no partial packet |
| `EventTheorems.MessageDelivery` | socket.go:153-167 | a fresh decoder emits exactly one packet for any sendable message, and it conveys the message |
| `EventTheorems.AckAccepted` | parser_default.go:183-185 | the exact condition on an acknowledgement's results under which the frame is accepted |
| `EventTheorems.AckFirstBinaryRefused` | parser_default.go:316 | with a binary first result the acknowledgement is refused if and only if the other results do not carry exactly one stray placeholder |
| `EventTheorems.AckEndToEnd` | parser_default.go:120-124 | exactly one packet whose data is the text of the JSON results and whose buffers are the binary results, if and only if the namespace survives and the results meet the stated condition |
| `EventTheorems.AckWithoutResults` | parser_default.go:105-110 | decoded as a packet without data, which ParseData rejects |
| `EventTheorems.StaleBuffersRefused` | server.go:154-167 | a binary event without results is acknowledged with its own buffers following the text, and the receiver refuses each of them |
| `EventTheorems.ErrorData` | socket.go:139-146 | an Error packet with data of any kind is decoded as it was sent if and only if its namespace survives and the data is neither a number starting with a digit nor a list with a binary element |
| `EventTheorems.FramesAnnounced` | parser_default.go:39-50 | as many binary frames as announced if and only if the data is a list or the buffer was empty |
| `EventTheorems.ReencodeRefused` | parser_default.go:44 | encoding an encoded event or acknowledgement again gives the same frame if and only if nothing was binary; otherwise every decoder refuses it |
| `DecoderSafety.Provenance` | parser_default.go:170-201 | after any history of frames, a partial or emitted packet was announced by one accepted text frame and holds the binary frames that followed it, in order |
| `DecoderSafety.FeedIsHistory` | parser_default.go:170-201 | feeding frames one by one goes through exactly these histories |
| `DecoderSafety.FeedProvenance` | parser_default.go:170-291 | the same for frames of arbitrary bytes |
| `Args.Allocate` | parser_default.go:129-151 | every non-Socket position is allocated, binary ones take the buffers in order, and the JSON positions are listed in order; fails exactly when some parameter does not take its buffer |
| `Args.FillJson` | parser_default.go:152-154 | value number k reaches JSON position number k and nothing else changes; fails exactly when some parameter does not take its value |
| `Args.UnmarshalArgs` | parser_default.go:129-164 | the result is the merge of values and buffers by parameter kind; fails exactly when the text is no list or some parameter does not take what it is handed |
| `Args.MergeAt` | parser_default.go:129-164 | what position i holds, by counting the parameters of its kind before it |
| `Args.Call` | callback.go:29-44 | the Socket is at every Socket position, every other position is as merged, and nothing is called after an error |
| `Args.SplitThenMerge` | callback.go:29-44 | splitting and merging returns every argument to its own position if and only if the parameter kinds are the argument kinds in order |
| `Args.CallbackReceivesArguments` | handle.go:47-53 | from emit to callback: for the frames of a deliverable event the callback is called if and only if every parameter takes the argument in its own place, and is then given all arguments and Sockets in their places |
| `EngineLocks.StepLocks` | engine/server.go:170-230 | every step of every actor keeps the lock invariant |
| `EngineLocks.RunLocks` | engine/server.go:170-230 | so does every run |
| `EngineLocks.MutualExclusion` | engine/barrier.go:15-19 | in every run at most one attempt is between Pause and Resume, and no pause channel is closed twice |
| `EngineLocks.FreeBarrierUnpaused` | engine/polling.go:278-285 | whenever the barrier is free the session's polling connection is not paused |
| `EngineLocks.Exits` | engine/server.go:175-224 | every exit has swapped with the old connection closed, or closed the new connection and left the old one unpaused |
| `EngineLocks.OneUpgrade` | engine/server.go:159-164 | over a whole run the transport changes at most once, from polling to websocket |
| `EngineOutbound.StepConserves` | engine/polling.go:108-176 | no step of any actor loses or copies a packet |
| `EngineOutbound.ExactlyOnePlace` | engine/emitter.go:35-84 | in every run each accepted packet is in exactly one of emitter queue, hand, out queue, flush list, answered, written, refused, swallowed |
| `EngineOutbound.RunFifo` | engine/polling.go:108-147 | each out queue is left in the order it was entered, whoever receives |
| `EngineEmitter.HandedInOrder` | engine/emitter.go:49-69 | packets are handed to WritePacket in acceptance order, across any upgrade |
| `EngineEmitter.DrainedBeforeClose` | engine/socket.go:47-53 | all packets accepted before done was closed are handed over before the connection is closed |
| `EngineEmitter.DrainDecreases` | engine/emitter.go:71-84 | after done every step of submitter or emitter lowers the remaining work |
| `EngineEmitter.OthersLeaveWork` | engine/emitter.go:71-84 | no step of another actor changes it |
| `EngineEmitter.LateStaysQueued` | engine/emitter.go:35-47 | once the emitter has returned, what is in its queue is never handed over |
| `EngineEmitter.HandedExactly` | engine/emitter.go:49-84 | in every run in which the emitter returns, the packets handed over are from then on exactly those accepted when it returned |
| `EngineEmitter.LateSubmitIsLost` | engine/emitter.go:41-45 | a run in which submit accepts such a packet |
| `EngineClose.CloseCloses` | engine/socket.go:47-53 | after Socket.Close, in every continuation: the connection it closed stays closed, serves nobody while it is the session's, and the session's connection is closed exactly until an upgrade swaps another in |
| `EngineClose.ClosedRefuses` | engine/polling.go:202-206 | on a closed connection no request begins and no write or read succeeds |
| `EngineClose.UpgradeAfterClose` | engine/server.go:220-224 | a run in which an upgrade goes through after the close and leaves the session open |
| `EngineRequests.RequestsAccounted` | engine/polling.go:202-263 | in every run each request that has begun is waiting or has ended exactly once |
| `EngineRequests.StrayOnce` | engine/server.go:164-166 | the request of an attempt goes on to the session at most once |
| `EngineRequests.PollIsServed` | engine/polling.go:130-147 | a waiting poll can be answered with the first packet there is, with a noop when paused, or be cancelled |
| `EngineRequests.SubmissionsAccounted` | engine/emitter.go:35-47 | every submit is accepted, refused or waits; none is refused before done is closed |
| `EngineRequests.CanFinish` | engine/emitter.go:71-84 | however many packets are left, the draining emitter can hand over all of them and return |
| `EngineRequests.RunBounded` | engine/transport.go:147 | in every run no queue holds more than eight packets |
| `EngineRequests.QueueTakesEight` | engine/socket.go:30 | the emitter's queue takes packets until it holds eight |
| `EngineRequests.InTakesEight` | engine/transport.go:147 | so does the in queue of a connection |
| `EngineRequests.OutTakesEight` | engine/transport.go:147 | and the out queue |
| `EngineRequests.ProtocolFollowed` | engine/server.go:170-230 | in every run every attempt goes through barrier, ping, pong, pause, upgrade packet, close, flush, swap, flush, handling and barrier in this order, or gave up at the step that failed |
| `EngineRequests.PausedOnce` | engine/polling.go:278-281 | a connection is never paused while it is paused |
| `EngineRequests.CanGiveUp` | engine/server.go:175-211 | wherever an attempt waits for the new connection it can give up, which closes that one and unpauses the old one |
| `EngineRequests.CanComplete` | engine/server.go:213-229 | once the upgrade packet has come, an upgrade can go through to its end whatever is queued, with all that is queued forwarded, taken by the new connection or not, and all that was posted handled |
| `EngineRequests.AttemptsAreUpgrades` | engine/server.go:159-164 | as long as a session has its first transport, all attempts are to the other one |
| `EngineRequests.RequestsCanEnd` | engine/polling.go:144-258 | any request that waits can be cancelled |
| `EngineRequests.LoadDecides` | engine/socket.go:35-44 | what the reader does with the session's connection, by its flags, and that there is always something |
| `EngineRequests.ReadCanFail` | engine/server.go:64-73 | a read that waits can fail, and then the read loop ends |
| `EngineRequests.ReaderStopsOnce` | engine/server.go:64-77 | the read loop ends with the first error that is not a pause, and only so |
| `EngineRequests.PausedReaderParks` | engine/server.go:66-68 | a pause parks the reader |
| `EngineRequests.ParkedReaderResumes` | engine/server.go:66-68 | and a free barrier lets it go on with the session's connection |
| `EngineOrder.StepOrder` | engine/server.go:213-224 | a quiet step keeps all accepted packets in one line, in order |
| `EngineOrder.OutboundOrder` | engine/server.go:213-224 | in every quiet run, packets answered on the old transport followed by those written on the new one are a prefix of the acceptance order; none is lost, refused or swallowed |
| `EngineOrder.QuietIsExact` | engine/server.go:213-224 | some quiet continuation of a step loses a packet, delivers one out of order or leaves one on the old connection if and only if the step is not quiet |
| `EngineOrder.LeftBehindOvertaken` | engine/polling.go:166-174 | a packet left on the emptied connection is overtaken by the next one written to the new connection |
| `EngineOrder.LeftBehindStays` | engine/polling.go:130-147 | and if no request waits there any more, no continuation ever takes it |
| `EngineOrder.HandoverIsQuiet` | engine/protocol.md:253-258 | a run that takes the barrier with no write in flight, polls no more once the old connection is closed, lets no failed attempt take a packet, and meets no deadline or websocket error, is quiet; in particular no write is then refused by a closed or paused connection |
| `EngineOrder.HandoverOrder` | engine/protocol.md:253-258 | so under the protocol's handover nothing is lost, repeated or reordered |
| `EngineOrder.LosesWithoutQuiet` | engine/polling.go:166-174 | a run in which a write in flight is refused by the pause itself and its packet lost |
| `EngineOrder.StraySwallows` | engine/server.go:164-166 | from any state with a returned attempt and a waiting packet on the polling connection, the attempt's request takes that packet |
| `EngineOrder.FailedAttemptLoses` | engine/server.go:164-166 | a run from the initial state in which a failed attempt costs a packet |
| `EngineInbound.StepInbound` | engine/server.go:220-228 | a quiet step keeps the invariant: posted packets in line as handled, in hand, taken over, queued, and none for a reader at large to overtake |
| `EngineInbound.QuietInIsExact` | engine/server.go:220-228 | some quiet continuation of a step overtakes a posted packet or leaves it behind if and only if the step is not quiet |
| `EngineInbound.InboundOrder` | engine/server.go:64-77 | in every quiet run posted packets are handled once, in posting order, and all of them before any packet of the new connection |
| `EngineInbound.UnparkedReaderOvertakes` | engine/socket.go:35-44 | a run from the initial state in which a packet of the new connection is handled while a posted one waits |
| `EngineInbound.LatePostIsLost` | engine/polling.go:251-258 | a packet posted after the take-over is in no continuation, quiet or not, ever taken from the old connection |
| `EngineIncoming.StepKeeps` | engine/polling.go:76-128 | no step of any actor loses or copies a posted packet |
| `EngineIncoming.PostedOnePlace` | engine/polling.go:251-258 | in every run, quiet or not, each posted packet is in exactly one of in queue, reader's hand, take-over list, handled |
| `Base64.DecodeEncode` | engine/payload.go:109-114 | decoding undoes encoding for data of any length |
| `Base64.SymbolIs` | engine/payload.go:113 | the alphabet and the padding character |
| `Base64.DecodesExactly` | engine/payload.go:149 | decoding succeeds on exactly the texts in fours with padding only at their end |
| `PayloadTheorems.ScanNumber` | engine/payload.go:160-174 | every length below 2^63 is read back exactly, with no intermediate overflow, in either digit alphabet |
| `PayloadTheorems.Xhr2RoundTrip` | engine/payload.go:201-282 | any packet, any type byte, any data: read back exactly, up to the start of the next packet |
| `PayloadTheorems.Xhr2ListRoundTrip` | engine/payload.go:35-48 | the same for whole lists, with equal byte counts |
| `PayloadTheorems.StringMistaken` | engine/payload.go:180-187 | a string packet of type 50 is never read as a string |
| `PayloadTheorems.BinaryDecoded` | engine/payload.go:141-158 | what arrives of binary data of any size, and where reading stops |
| `PayloadTheorems.TextRoundTrip` | engine/payload.go:101-194 | one packet in text form is read back exactly if and only if it is text-safe |
| `PayloadTheorems.TextListRoundTrip` | engine/payload.go:49-62 | a list is read back, with the count of all bytes, if and only if every packet is text-safe |
| `PayloadWire.WrittenIs` | engine/payload.go:101-139 | the bytes of every packet in both forms |
| `PayloadWire.DigitsAre` | engine/payload.go:125 | lengths are decimal digits, most significant first, without zeros in front |
| `PayloadWire.Xhr2Read` | engine/payload.go:232-282 | what any head and body are read as: wrapped lengths, short data, the end of input |
| `PayloadWire.Xhr2Refused` | engine/payload.go:232-262 | every other input and its error and count |
| `PayloadWire.StringRead` | engine/payload.go:141-194 | the same for string packets in text form |
| `PayloadWire.BinaryRead` | engine/payload.go:141-194 | the same for binary packets, lengths below zero included |
| `PayloadWire.TextRefused` | engine/payload.go:160-186 | every other input and its error and count |
| `PayloadWire.ListRead` | engine/payload.go:35-63 | reading ends cleanly at the end of the input and with the error at any other |
| `PayloadIo.ReadLength` | engine/payload.go:161-174 | the digit loop computes the scan: count, length, rest, and both errors |
| `PayloadIo.ReadXhr2Head` | engine/payload.go:232-269 | the XHR2 head with its byte count, on any input |
| `PayloadIo.ReadTextHead` | engine/payload.go:160-194 | the text head with its byte count, on any input |
| `PayloadIo.ReadEncoded` | engine/payload.go:148-157 | one Read of the base64 stream decoder: at most 1024 characters, zeros in the rest of the slice |
| `PayloadIo.ReadXhr2` | engine/payload.go:271-282 | one XHR2 packet from the reader |
| `PayloadIo.ReadText` | engine/payload.go:141-158 | one text packet from the reader |
| `PayloadIo.ReadPayload` | engine/payload.go:35-63 | the packet loop, its count and its clean end of input |
| `PayloadIo.LowDigits` | engine/payload.go:206-212 | the digit loop produces the decimal digits in reverse |
| `PayloadIo.TurnRound` | engine/payload.go:213-216 | the second loop reverses them |
| `PayloadIo.WriteXhr2` | engine/payload.go:201-230 | the bytes written and their count |
| `PayloadIo.EncodeHead` | engine/payload.go:101-119 | announced length, separator and data for either kind of packet |
| `PayloadIo.WriteText` | engine/payload.go:122-139 | the bytes of one text packet and their count |
| `PayloadIo.WritePayload` | engine/payload.go:66-89 | the bytes of all packets one after another and their count, in either form |
| `PayloadIo.Exchange` | engine/payload.go:28-89 | writing a payload and reading it with these loops gives the same packets and equal counts |
| `Msgpack.SkipFrame` | packet.go:215-219 | skipping objects of any format does not depend on what follows |
| `Msgpack.SkipArray` | parser_msgp.go:278-281 | an array header of any size class makes one object of the objects after it |
| `MsgpackPacket.UnmarshalMsg` | packet.go:161-224 | the key loop sets the fields in turn, on any input, errors included |
| `MsgpackPacket.UnmarshalFields` | packet.go:169-223 | the loop alone, from any packet and any number of keys left |
| `MsgpackPacket.UnmarshalEntry` | packet.go:171-220 | one key with its value |
| `MsgpackPacket.MapRead` | packet.go:161-224 | any map of valid fields is read as setting them one after another |
| `MsgpackPacket.UnmarshalAnyOrder` | packet.go:169-221 | from any map with distinct keys that include the four, in any order and with unknown keys between, exactly the four values are recovered |
| `MsgpackPacket.MarshalRoundTrip` | packet.go:135-158 | UnmarshalMsg after MarshalMsg recovers type, namespace, raw data and id and leaves the rest |
| `MsgpackPacket.ParseEventRight` | parser_msgp.go:261-282 | the event name and a valid array of exactly the remaining elements, across the fixarray, array16 and array32 boundaries |
| `MsgpackPacket.EventRoundTrip` | parser_msgp.go:245-303 | the whole path from MarshalMsg to Add and ParseData: same type, id and raw list, an empty namespace read as the root, the event name and a valid array of the other arguments |
| `MsgpackPacket.AckRoundTrip` | parser_msgp.go:245-303 | the same for an acknowledgement, which keeps its whole list |
| `MsgpackValues.ValueIsObject` | packet.go:215-219 | the bytes of every MessagePack value, in any of its forms, are exactly one object |
| `MsgpackValues.SkipsValue` | packet.go:215-219 | so a value is skipped as a whole and nothing after it |
| `MsgpackValues.UnusedLead` | packet.go:216 | the lead byte that the format leaves unused begins no object |
| `MsgpackValues.MarshalIs` | packet.go:135-158 | MarshalMsg writes the packet as the map of its four fields, in their shortest forms |
| `MsgpackValues.UnmarshalIs` | packet.go:161-224 | UnmarshalMsg on any value at all: which are packets, and what each entry sets |
| `MsgpackValues.DecodeIs` | parser_msgp.go:289-303 | the same for Add, which starts from an empty packet and names an unnamed namespace |
| `MsgpackValues.ParseDataIs` | parser_msgp.go:245-287 | ParseData on any packet: the exact errors, the name and the list of the other elements |
| `MsgpackValues.EventOfValues` | parser_msgp.go:245-303 | from MarshalMsg to ParseData for events with arguments of any kind |
| `MsgpackValues.AckOfValues` | parser_msgp.go:245-303 | the same for acknowledgements |
| `MsgpackValues.CutShort` | packet.go:190-196 | no proper prefix of a value, of any kind, is taken for an object |
| `MsgpackValues.NumberCutShort` | packet.go:178-182 | nor is one of a number read as a number |
| `Acks.AckHandle.OnAck` | handle.go:74-80 | a fresh id, under which the callback is pending |
| `Acks.AckHandle.Register` | socket.go:126-135 | every callback argument gets the next id, the last id is returned, the other arguments are the data in order |
| `Acks.AckHandle.FireAck` | handle.go:61-72 | the callback runs exactly when the id was issued and not yet acknowledged; pending stays issued minus acknowledged |
| `Acks.SocketAcks.Attach` | socket.go:66-70 | a new empty handle, other namespaces unchanged |
| `Acks.SocketAcks.Detach` | socket.go:72-79 | exactly this namespace is gone |
| `Acks.SocketAcks.DetachAll` | socket.go:85-96 | no namespace is left and each was visited once |
| `Acks.SocketAcks.Emit` | socket.go:119-137 | refused for an unknown namespace; otherwise fresh ids of that namespace, the last of them in the packet |
| `Acks.SocketAcks.Fire` | socket.go:98-106 | runs a callback only of the packet's own namespace and id, at most once |
| `AckRaces.IdsDistinct` | handle.go:75 | under any interleaving two ids are equal only if at least 2^64 were issued between them |
| `AckRaces.CallbackAtMostOnce` | handle.go:61-80 | when no two acknowledgements of one id overlap, everything else interleaved freely, pending is issued minus acknowledged, each callback runs at most once, and it is the one its id was issued for |
| `AckRaces.SeparateIsExact` | handle.go:61-72 | a step can lead to a callback running twice if and only if it looks up an id whose acknowledgement is already between lookup and delete |
| `AckRaces.OverlapRunsTwice` | handle.go:61-72 | from any such state, the continuation that runs the callback twice |
| `AckRaces.ConcurrentAcksRunTwice` | handle.go:61-72 | a run in which two concurrent acknowledgements of one id both run its callback |

## Left out

- HTTP plumbing, MIME and query parsing, JSONP, origin checks, header copying: wrappers around libraries.
- `engine/websocket.go` beyond the facts that Pause fails and the flush methods return nothing; `client.go` and `engine/client.go`.
- `server.go` dispatch by packet type, and the event and namespace registries: map lookups around the codec.
- engine/polling.go, emitter.go, barrier.go, socket.go and the upgrade are modelled as atomic steps on values rather than as objects, because the properties are about their interleavings; aliasing of connections is by index. Closing the new connection and resuming the old one on a failed upgrade are one step, and so are loading the connection and calling its Pause.
- Deadlines and contexts: an error that may occur at any time. Deadlock freedom and other liveness are not claimed.
- Emission of multi-frame packets by several goroutines at once on one socket: frames are then not contiguous.
- `url.Parse` and `json.Unmarshal` are parameters; that the argument text is parsed back is an assumption of `Args.CallbackReceivesArguments`, and `CodecWire.EventDataReads` proves it of a reader written here.
- JSON control characters other than tab, newline and return are written as four hexadecimal digits; newer library releases write backspace and form feed with a letter. Both start with a backslash, which is all the proofs use.
- Codec.Encode: errors of JSON marshalling and of the writer are not modelled; Encode then returns no frames. An error of MarshalBinary is ignored by the source, and the frame carries whatever bytes came with it: in the model that is a binary element with these bytes.
- Codec.DefaultDecoder.Add: requires room in the queue of 8, because the source blocks in emit without it; `Codec.DefaultDecoder.OnMessage` shows that the handler always has room.
- Args.UnmarshalArgs: the pointer-or-value form of a parameter is not modelled.
- PayloadIo.ReadEncoded: line breaks inside base64 text, which the library skips, count as corrupt input here, and a corrupt block yields no partial data, because no writer of the repository produces either.
- PayloadIo.ReadText: the same line breaks, through `PayloadIo.ReadEncoded`.
- PayloadIo.ReadPayload: the same line breaks, through `PayloadIo.ReadEncoded`.
- PayloadIo.WriteXhr2: errors of the writer are not modelled; the buffer in memory takes every byte.
- PayloadIo.WriteText: errors of the writer are not modelled; the buffer in memory takes every byte.
- PayloadIo.WritePayload: errors of the writer are not modelled; the buffer in memory takes every byte.
- Payload lengths so large that allocation fails; a negative length is the error `Panic`.
- MsgpackPacket.UnmarshalMsg: signed forms of a number are errors here, because which of them the library takes for an unsigned field is not part of this model.
- MsgpackPacket.UnmarshalFields: the same signed forms.
- MsgpackPacket.UnmarshalEntry: the same signed forms.
- MsgpackPacket.MarshalRoundTrip: takes the bytes of the data as a parameter, and reads nil data as the one byte it is; some library releases store no bytes for it.
- The JSON path of the msgpack parser for Connect, Disconnect and Error packets, `msgpUnmashalArg`, `msgpReadMap`, `DecodeMsg`, `EncodeMsg`, `Msgsize`.
- Acks.AckHandle.OnAck: requires that the counter does not wrap at 2^64, as the distinctness of ids does.
- Acks.AckHandle.Register: the same bound on the counter.
- Acks.SocketAcks.Emit: the same bound on the counter.
- Session ids, the session manager and ping timers.
