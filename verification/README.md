# RTSP 2.0: the wire codec and the connection protocol

A Dafny model of an RTSP 2.0 (RFC 7826) stack. It follows the code of the `rtsp-2` crate, branch by
branch, in three parts.

**The wire codec.** An incremental decoder reads requests and responses from pieces of a byte stream,
an encoder writes them, and a codec switches between two decoders. `Decoding.dfy` has one decoding step
as a function of the decoder state and the bytes at hand, `Streaming.dfy` the run of all steps and the
feeding of pieces, `Decoder.dfy` and `Codec.dfy` the objects with mutable state that refine them,
`Encoding.dfy` the encoder. `Wire.dfy` and `WireStream.dfy` say without the decoder which bytes are a message.
The main results:

* One call on the bytes of a message completes, fails with an error, or asks for more exactly as the bytes
  say: `Wires.CompleteExact`, `Wires.ErrorExact` and `Wires.IncompleteExact` are over all limits and all bytes.
* However a stream is cut and whatever is in it, only legible texts that follow each other in it are
  returned (`WireStreams.ReturnedIsLegible`); a whole stream is read to its end exactly if it is made of them
  (`WireStreams.StreamExact`).
* The cuts between reads do not matter if and only if the run meets none of three boundaries
  (`Chunking.ChunkingExact`). At a boundary they do: a header value that ends exactly at the length limit,
  or a reason phrase one byte longer than its limit, is accepted or refused by how many bytes happen to be
  present. `RoundTrip.CutPipeline` turns this into a condition on the messages, and `RoundTrip.ReadBack`
  into what the codec object returns.
* Any pipeline of valid messages, with line breaks between them, is read back, normalized: content length
  first and only with a body, the other headers in order (`RoundTrip.PipelineIsRead`).
* A line break inside an accepted header value never ends the value (`RoundTrip.FoldingKeepsFraming`).

**The connection protocol.** Tasks that communicate over queues. Each is a class whose methods take steps
of a pure system, and the theorems are about all runs of that system.

* The reorder buffer of incoming requests (`Reordering.dfy`, `Forwarding.dfy`): deliveries are consecutive
  numbers, requests are conserved under pressure and while draining. A full buffer that lacks the
  expected request is a dead end; it can be reached for every size for which there are numbers, because the
  window test admits one number too many.
* Pending requests (`Pending.dfy`, `PendingInvariants.dfy`, `Registration.dfy`, `Matching.dfy`): the
  handle, the futures, the update queue and the response receiver under any schedule, with one-shot
  cells that are replaced on each continue. No entry is orphaned or overwritten, every owner is told
  exactly its responses in order, and a request is registered before its response can be read. From the call
  to the answer, with both time-outs, a request is followed in `Await.dfy`.
  All this needs each new request to find its number free. `PendingPace.dfy` shows that the condition is
  exact: it holds if fewer than a whole cycle of requests were sent since the oldest future that was not
  dropped, and where it fails there is a run that leaves the new request without an answer.
* The request handler (`Handler.dfy`), alone and joined to the reorder buffer, the sender (`Sender.dfy`),
  the shutdown handler (`Shutdown.dfy`), the receiver (`Receiving.dfy`) and the connection
  (`Connection.dfy`).
* A connection polled through its life (`Serving.dfy`): the handler gets exactly what one run of the reorder
  buffer on the accepted requests sends, and a graceful shutdown leaves no ready request behind
  (`Serving.Serve`). Each poll is a round of the stages under which the theorems about pending requests
  are proved (`Serving.PollOnSchedule`).

**The recogniser of comments and folding white space** in dates (`Comment.dfy`): recursive descent with
offsets, proved sound and complete for an inductive grammar.

## Where the code is not what one might expect

The model follows the code in each of these.

* Subtraction of sequence numbers across the wrap gives the distance minus one (`CSeqs.SubIsDistance`).
* The window test of the forwarding receiver is "greater than", so the window has size+1 numbers, and
  across the wrap size+2.
* The header value limit includes the blanks in front of the value, and is decided at the limit itself by
  how many bytes are present; the reason phrase limit is checked one byte late.
* A grave accent is not a token character, although the grammar quoted beside the method parser
  (`rtsp-2/src/method.rs:134`) has it.
* A response that spells the protocol's name in small letters is taken for a request by the codec, although
  the response decoder would read it (`WireStreams.StreamExact`).
* The bytes of a status code are weighed as digits without a test that they are digits.
* The documentation of quoted pairs follows RFC 5322; the code excludes `!` and `~`.
* White space that is followed by a carriage return which does not start a fold is an error, not the end
  of the white space.
* Refusals sent for requests that are not accepted carry no sequence number.
* The answer to a malformed request cannot be sent, and the code aborts, if the sender is gone while
  responses are still awaited (`Connections.Connection.PollOnce`, and a run in `Connections.LoseAnswer`).
* With a zero wait between continues, the poll of the continue timer never returns
  (`Handlers.StopsIfPositive`).
* An error of the handler's channel loses the request in hand and leaves the expected number stale; the
  forwarding receiver is dropped right after.

## Conventions

Bytes are integers below 256. Comments are strings. Instants are natural numbers read from a parameter.
What the other end of a channel, a service, a sink or a clock decides is a field that only the surroundings
set, between the calls, or a parameter; the capacity for timers runs out freely. `ghost` fields hold history:
what was submitted, dequeued, sent or seen. URI syntax, the spelling of standard header names and the standard
reason phrases are parameters of the decoder's configuration. The size of the reorder buffer is compared as a
32-bit word.

## Model

| member | source | states |
|---|---|---|
| `Syntax.TextAcceptedIffFolded` | rtsp-2/src/header/value.rs:180-217 | the line-break state machine accepts a value if and only if it is printable text in which every CR is followed by LF and SP or HT |
| `Syntax.CheckHeaderText` | rtsp-2/src/header/value.rs:180-217 | the loop computes that state machine, error for error, and never loses a pending line break at the end |
| `Syntax.TextErrorExact` | rtsp-2/src/header/value.rs:180-217 | a rejected text is reported as not ASCII if and only if, behind a part that is folded text, there is a byte that is neither printable nor the start of a line break; otherwise the line break is to blame |
| `Syntax.TokenBytesExact` | rtsp-2/src/syntax.rs:21-62 | the token characters are the printable ones but for the separators, of which the grave accent is one here |
| `Syntax.SameNameExact` | rtsp-2/src/header/name.rs:170-190 | two header names are the same if and only if they have the same length and differ in the case of letters only |
| `Syntax.DecimalRoundTrip` | rtsp-2/src/header/types/content_length.rs:91-139 | a content length printed in decimal is parsed back to itself, up to the maximum |
| `Syntax.DecimalIsText` | rtsp-2/src/protocol/codec/encoder/request.rs:19-26 | the value the encoder writes for the content length is always an admissible header value |
| `Syntax.StatusRoundTrip` | rtsp-2/src/status.rs:428-443 | every admissible status code prints as three bytes that parse back to it |
| `Decoding.DecStep` | rtsp-2/src/protocol/codec/decoder/request.rs:451-487 | a step that goes on either consumes bytes or lowers the rank of the state, keeps what the builder must hold, and produces a message exactly when it leaves the end state for the starting state |
| `Decoding.Decode` | rtsp-2/src/protocol/codec/decoder/request.rs:451-487 | one call terminates, consumes no more than is there, is never left in the end state, is in the error state exactly if it reports that error, and is back at the start after a complete message |
| `Decoding.FailedStays` | rtsp-2/src/protocol/codec/decoder/request.rs:451-487 | an error is sticky: the call reports the same error again and consumes nothing |
| `Decoding.CompleteIsFresh` | rtsp-2/src/protocol/codec/decoder/request.rs:492-552 | after a complete message any later bytes are decoded as by a fresh decoder: the content length left over from the last message is never read before it is overwritten |
| `Decoding.ScanValue` | rtsp-2/src/protocol/codec/decoder/request.rs:576-603 | a header value ends at the first line break that is followed by a byte other than SP and HT, within the limit; the scan asks for more bytes only when the last line break present could still go on |
| `Wires.CompleteExact` | rtsp-2/src/protocol/codec/decoder/request.rs:451-671 | a call on the bytes of a new message completes with a message, and uses so many bytes, if and only if they begin with a text of so many bytes that is legible as that message: method, URI, version, status and reason phrase of their form and within their limits; each header line within its limits, with a token for a name and folded text for a value; and a body as long as the only content length says, within the limit, or none |
| `Wires.ErrorExact` | rtsp-2/src/protocol/codec/decoder/request.rs:451-671 | a call reports an error if and only if, behind a legible beginning, the bytes go on with what cannot be read there, and the error is the one for that: each limit, each malformed word, each bad header, a repeated, malformed or excessive length |
| `Wires.IncompleteExact` | rtsp-2/src/protocol/codec/decoder/request.rs:451-671 | a call asks for more, in a given state, if and only if a legible beginning brings the decoder to that state and the bytes stop before what comes next can be told |
| `Wires.DeclaresExact` | rtsp-2/src/protocol/codec/decoder/request.rs:532-545 | the declared length is that of the only header named Content-Length, or zero if there is none; otherwise there is none |
| `Wires.SpellingExact` | rtsp-2/src/header/name.rs:115-137 | a header name is kept in the spelling of an equal name before it, else in the standard one, else in its own |
| `Decoders.TrimHeaderName` | rtsp-2/src/protocol/codec/decoder/mod.rs:241-255 | the loop removes exactly the trailing blanks |
| `Decoders.TrimHeaderValue` | rtsp-2/src/protocol/codec/decoder/mod.rs:258-277 | removes exactly the leading blanks, or a leading line break with the blanks behind it; a line break without blanks stays |
| `Decoders.FindCrlf` | rtsp-2/src/protocol/codec/decoder/response.rs:562-584 | the window scan finds the first CRLF among the first windows up to the limit |
| `Decoders.Decoder.DecodeMethod` | rtsp-2/src/protocol/codec/decoder/request.rs:606-625 | takes exactly the pure step of the method state |
| `Decoders.Decoder.DecodeUri` | rtsp-2/src/protocol/codec/decoder/request.rs:628-647 | takes exactly the pure step of the URI state |
| `Decoders.Decoder.DecodeVersion` | rtsp-2/src/protocol/codec/decoder/response.rs:610-631 | takes exactly the pure step of the version state, for requests and for responses |
| `Decoders.Decoder.DecodeStatusCode` | rtsp-2/src/protocol/codec/decoder/response.rs:587-607 | takes exactly the pure step of the status state |
| `Decoders.Decoder.DecodeReasonPhrase` | rtsp-2/src/protocol/codec/decoder/response.rs:562-584 | takes exactly the pure step of the reason state, whose limit is checked one byte late |
| `Decoders.Decoder.DecodeHeaderValue` | rtsp-2/src/protocol/codec/decoder/request.rs:576-603 | the loop computes the pure scan, including the answer at the limit |
| `Decoders.Decoder.DecodeHeader` | rtsp-2/src/protocol/codec/decoder/request.rs:508-573 | takes exactly the pure step of the header state: end of headers, name, value, count and length limits in the order of the code |
| `Decoders.Decoder.DecodeBody` | rtsp-2/src/protocol/codec/decoder/request.rs:492-504 | takes exactly the pure step of the body state |
| `Decoders.Decoder.Decode` | rtsp-2/src/protocol/codec/decoder/request.rs:451-487 | the mutable decoder refines the pure one: same outcome, same bytes consumed, same state |
| `Decoders.Decoder.Reset` | rtsp-2/src/protocol/codec/decoder/request.rs:711-715 | the decoder is as new |
| `Codecs.RunFollowsDecode` | rtsp-2/src/protocol/codec/mod.rs:71-123 | a run of the stream machine on bytes routed to one decoder is what one call of that decoder does, followed by the run of what it left |
| `Streaming.RouteExact` | rtsp-2/src/protocol/codec/mod.rs:180-201 | between messages two bytes tell a line break, and five bytes a response, which begins with RTSP and a slash; anything else of five bytes is a request |
| `Codecs.MessageCodec.DecodeWith` | rtsp-2/src/protocol/codec/mod.rs:71-123 | one call removes from the buffer what the decoder consumed, and what remains to be run is the run before it without the message returned |
| `Codecs.MessageCodec.Decode` | rtsp-2/src/protocol/codec/mod.rs:174-202 | the codec object refines the stream machine: after a message the rest of the run is the rest of the old run; without one the old run stops here, with an error exactly if the machine has failed with it |
| `Codecs.MessageCodec.DecodeAll` | rtsp-2/src/protocol/codec/mod.rs:174-202 | asked until it has no message, the codec object returns exactly the messages of the run on its buffer, stops in the state of the run, and reports an error exactly if the run has failed with it |
| `Codecs.MessageCodec.DecodePieces` | rtsp-2/src/protocol/codec/mod.rs:174-202 | given the stream in pieces, each put behind the bytes left over, the codec object is the fed machine: the same messages, the same state, the same bytes left |
| `Chunking.StepExtends` | rtsp-2/src/protocol/codec/decoder/request.rs:508-671 | a step taken on some bytes is taken on any longer bytes, unless the longer bytes are at one of the three boundaries |
| `Chunking.RunSplits` | rtsp-2/src/protocol/codec/mod.rs:174-202 | away from the boundaries, reading a first part and then the rest is reading both at once: same messages, same state, same bytes left |
| `Chunking.FeedJoins` | rtsp-2/src/protocol/codec/mod.rs:174-202 | the same for any number of cuts, by induction |
| `Chunking.SomeCutLeavesBytes` | rtsp-2/src/protocol/codec/decoder/request.rs:582-602 | a stream whose run meets a boundary has a cut that gives another result and leaves bytes unread |
| `Chunking.ChunkingExact` | rtsp-2/src/protocol/codec/mod.rs:174-202 | for all limits and all streams: every way of cutting the stream gives the result of reading it at once if and only if no step meets a boundary (a header value ending exactly at its limit, a reason phrase one byte past its limit, the end of the headers when no header name is allowed) |
| `WireStreams.ReturnedIsLegible` | rtsp-2/src/protocol/codec/mod.rs:174-202 | however a stream is cut and whatever is in it, the messages that the codec returns are the readings of legible texts that follow each other in the stream with nothing but line breaks between them |
| `WireStreams.StreamExact` | rtsp-2/src/protocol/codec/mod.rs:174-202 | a stream that is there as a whole is read to its end as given messages if and only if it is legible texts of them, in their order, with line breaks before each and behind the last (and RTSP in capitals in front of a response) |
| `Encoding.EncodeLength` | rtsp-2/src/protocol/codec/encoder/request.rs:19-26 | writes the content length, and only for a body that is not empty |
| `Encoding.EncodeOthers` | rtsp-2/src/protocol/codec/encoder/request.rs:27-35 | the loop writes the headers other than the content length, in order |
| `Encoding.EncodeRequest` | rtsp-2/src/protocol/codec/encoder/request.rs:8-40 | appends exactly the encoding of the request |
| `Encoding.EncodeResponse` | rtsp-2/src/protocol/codec/encoder/response.rs:8-40 | appends exactly the encoding of the response |
| `Encoding.NormalizeKeeps` | rtsp-2/src/protocol/codec/encoder/request.rs:8-40 | what is encoded is the message itself but for its content length: every other header keeps its values, and there is one content length, in decimal and in front, exactly if there is a body |
| `Encoding.OthersJoin` | rtsp-2/src/protocol/codec/encoder/request.rs:27-35 | the headers written keep their order: those of two parts are those of the first and then those of the second |
| `RoundTrip.FoldingKeepsFraming` | rtsp-2/src/header/value.rs:180-217 | for every accepted header value, the first line break that ends a value in the encoded header is the one behind the value: those inside are skipped, and the scan finds it within the limit |
| `RoundTrip.FieldIsRead` | rtsp-2/src/protocol/codec/decoder/request.rs:508-603 | an encoded header is one decoding step that adds exactly that header and consumes exactly its bytes |
| `RoundTrip.HeadersAreRead` | rtsp-2/src/protocol/codec/decoder/request.rs:508-552 | so are any number of headers in order |
| `RoundTrip.BodyIsRead` | rtsp-2/src/protocol/codec/decoder/request.rs:492-552 | after the headers, the declared number of bytes is the body and the message is complete |
| `RoundTrip.RequestLineIsRead` | rtsp-2/src/protocol/codec/decoder/request.rs:606-671 | an encoded request line is read back |
| `RoundTrip.StatusLineIsRead` | rtsp-2/src/protocol/codec/decoder/response.rs:562-631 | an encoded status line is read back; it is at a boundary just when the phrase is one byte past the limit |
| `RoundTrip.EncodedRoute` | rtsp-2/src/protocol/codec/mod.rs:180-201 | an encoded request never looks like a response, since a slash is no token character, and neither starts with a line break |
| `RoundTrip.MessageIsRead` | rtsp-2/src/protocol/codec/decoder/request.rs:451-487 | one call reads back an encoded message whatever follows it: content length first and only with a body, the other headers in order |
| `RoundTrip.BreaksAreSkipped` | rtsp-2/src/protocol/codec/mod.rs:186-188 | any number of line breaks in front of a message, or at the end, make no difference to the run of an idle codec or to its boundaries |
| `RoundTrip.PipelineIsRead` | rtsp-2/src/protocol/codec/mod.rs:174-202 | the encodings of any list of valid messages, with any number of line breaks before each and behind the last, are read back as exactly that list, normalized, with nothing left over and both decoders at the start |
| `RoundTrip.CutPipeline` | rtsp-2/src/protocol/codec/mod.rs:174-202 | the pipeline, line breaks included, is read back under every way of cutting it if and only if every message stays clear of the boundaries |
| `RoundTrip.ReadBack` | rtsp-2/src/protocol/codec/mod.rs:174-202 | a new codec object that gets the encodings of any strict messages, with line breaks between them, in any pieces returns exactly those messages, normalized |
| `RoundTrip.LongValueIsCut` | rtsp-2/src/protocol/codec/decoder/request.rs:582-602 | whatever the limits, a request whose header value fills its limit is valid, and there is a way of cutting its encoding after which it is not read back |
| `CSeqs.AddIsModular` | rtsp-2/src/header/types/cseq.rs:48-54 | no sum of two sequence numbers overflows the 32-bit word, so addition is addition modulo the cycle |
| `CSeqs.SubIsDistance` | rtsp-2/src/header/types/cseq.rs:64-74 | the coded difference is the distance if there is no wrap and the distance minus one if there is; it undoes addition if and only if the sum did not wrap |
| `CSeqs.WindowIsDistance` | rtsp-2/src/protocol/connection/receiver.rs:517-520 | the coded window admits distances up to the size, and one more across the wrap |
| `CSeqs.WrapHidesOne` | rtsp-2/src/header/types/cseq.rs:67-73 | the numbers on both sides of the wrap have different distances and the same coded difference |
| `TypedHeaders.InsertHas` | rtsp-2/src/header/map.rs:59-87 | a typed header that is inserted is read back alone, and no other header changes |
| `TypedHeaders.CSeqExact` | rtsp-2/src/header/types/cseq.rs:128-176 | a message has a sequence number if and only if it has exactly one header of that name whose value is a decimal number up to the maximum |
| `TypedHeaders.CSeqReadsBack` | rtsp-2/src/header/types/cseq.rs:128-176 | the sequence number put on any message is the one read from it, and nothing else of the message changes |
| `Reordering.RunKeeps` | rtsp-2/src/protocol/connection/receiver.rs:511-562 | every run of arrivals and forwards keeps the invariant: bounded buffer, keys inside the coded window, consecutive deliveries, conservation |
| `Reordering.DeliveredInOrder` | rtsp-2/src/protocol/connection/receiver.rs:604-628 | over all runs and arrival orders, the channel gets f, f+1, f+2, … modulo the cycle, f the first number received; the expected number is f plus the number forwarded; two deliveries share a number only whole cycles apart |
| `Reordering.RequestsConserved` | rtsp-2/src/protocol/connection/receiver.rs:511-535 | over all runs, every accepted request is forwarded once or buffered once, as multisets; the buffer never exceeds its size; every buffered number lies at most size (across the wrap size+1) ahead |
| `Reordering.ReplayRefused` | rtsp-2/src/protocol/connection/receiver.rs:517-521 | a number forwarded before is refused as too far if and only if its distance is outside the window, so always within the last MAX_CSEQ minus window forwards |
| `Reordering.ReceiveExact` | rtsp-2/src/protocol/connection/receiver.rs:511-535 | what becomes of a request: no number is bad, a number out of reach is too far, a number that waits already is bad, and any other request waits; a refused one changes nothing but a first expected number |
| `Reordering.StalledForGood` | rtsp-2/src/protocol/connection/receiver.rs:340-351 | a full buffer without the expected request never changes again, whatever is on the stream |
| `Reordering.StuckIffStalled` | rtsp-2/src/protocol/connection/receiver.rs:340-351 | for lines that satisfy the invariant, no event changes anything if and only if the buffer is full and lacks the expected request |
| `Reordering.StalledHolds` | rtsp-2/src/protocol/connection/receiver.rs:517-530 | away from the wrap a stalled buffer holds exactly n+1 to n+size, n the missing number, by counting |
| `Reordering.StallReachable` | rtsp-2/src/protocol/connection/receiver.rs:519-521 | for every size there is a run into the stall: one request served, then the next one missing |
| `Reordering.StrictWindowNeverStalls` | rtsp-2/src/protocol/connection/receiver.rs:519-521 | were the window strict, a full buffer away from the wrap would hold the expected request |
| `Reordering.DrainForwardsTheRun` | rtsp-2/src/protocol/connection/receiver.rs:604-628 | without further arrivals, exactly the gapless run of buffered numbers from the expected one is forwarded, in order, and then nothing is ready |
| `Reordering.FirstSets` | rtsp-2/src/protocol/connection/receiver.rs:554-562 | the first request with a number sets the expected number to its own |
| `Forwarding.ForwardingReceiver.HandleRequest` | rtsp-2/src/protocol/connection/receiver.rs:511-535 | one step of the line: same new buffer and expected number, same refusal |
| `Forwarding.ForwardingReceiver.IncomingOrDefault` | rtsp-2/src/protocol/connection/receiver.rs:554-562 | the expected number is kept if known and set to the given one if not |
| `Forwarding.ForwardingReceiver.Poll` | rtsp-2/src/protocol/connection/receiver.rs:604-628 | forwards as many of the ready requests as there is room for; done if and only if that is all of them; pushed back, the refused request is in the buffer again and nothing else changed; with the handler gone, the request in hand is lost and the stored number stale |
| `Pending.ChainGrows` | rtsp-2/src/protocol/connection/receiver.rs:681-695 | a value sent into the last cell of a chain of unread continues is the last thing the chain says, and a continue extends the chain |
| `PendingInvariants.BeginKeeps` | rtsp-2/src/protocol/connection/mod.rs:460-477 | registering a request keeps the invariant if its number is free |
| `PendingInvariants.CommitKeeps` | rtsp-2/src/protocol/connection/mod.rs:479-502 | handing the request over, or withdrawing it when the sender is gone, keeps the invariant |
| `PendingInvariants.ApplyKeeps` | rtsp-2/src/protocol/connection/receiver.rs:650-663 | applying an update keeps the invariant: an entry, the queue and the request's chain stay in step |
| `PendingInvariants.RespondKeeps` | rtsp-2/src/protocol/connection/receiver.rs:670-697 | matching a response keeps the invariant, for continues, final responses, strangers and closed cells |
| `PendingInvariants.PollKeeps` | rtsp-2/src/protocol/connection/pending.rs:106-207 | polling a future, with or without a timeout, keeps the invariant |
| `PendingInvariants.DropKeeps` | rtsp-2/src/protocol/connection/pending.rs:170-176 | dropping a future keeps the invariant, also when it withdraws its number a second time |
| `PendingInvariants.ShutKeeps` | rtsp-2/src/protocol/connection/pending.rs:59-66 | closing the cell of a withdrawn request keeps the invariant, whatever came into the cell since the removal was sent |
| `PendingInvariants.SilenceKeeps` | rtsp-2/src/protocol/connection/receiver.rs:711-731 | cancelling everything when the receiver goes keeps the invariant |
| `PendingInvariants.NoOrphans` | rtsp-2/src/protocol/connection/receiver.rs:650-663 | in every reachable state, applying the queued updates leaves only numbers whose request is being sent or waited for |
| `PendingInvariants.RunInRange` | rtsp-2/src/protocol/connection/receiver.rs:650-697 | in every run at any pace, what the map, the queue and the cells refer to is there, and nothing waits for a receiver that is gone; this is all that the methods of the response receiver, the receiver and the connection ask of the pending requests |
| `PendingInvariants.StreamEndsEmpty` | rtsp-2/src/protocol/connection/receiver.rs:759-765 | when all futures are gone and the updates have run out, the map is empty, as the code assumes |
| `PendingInvariants.AddNeverOverwrites` | rtsp-2/src/protocol/connection/receiver.rs:654-657 | in every reachable state the next addition finds no entry under its number, as the code assumes |
| `PendingPace.NextAdditionMeets` | rtsp-2/src/protocol/connection/receiver.rs:654-657 | in every reachable state, the addition of the next request will meet an entry under its number if and only if an unanswered request bears that number |
| `PendingPace.PaceExact` | rtsp-2/src/protocol/connection/mod.rs:460-503 | registering the next request is sound under every continuation (no addition replaces an entry, no waiting future loses its sending end) if and only if no future that may yet withdraw bears its number; otherwise a run is given that leaves the new request alone |
| `PendingPace.PaceSuffices` | rtsp-2/src/protocol/connection/mod.rs:460-503 | it is enough that fewer requests than there are numbers were sent since the oldest future that was not dropped |
| `PendingInvariants.NumbersRunOut` | rtsp-2/src/protocol/connection/receiver.rs:654-657 | without the pace (a whole cycle of requests outstanding) the next addition does replace an entry |
| `PendingInvariants.ToldInOrder` | rtsp-2/src/protocol/connection/receiver.rs:670-697 | in every reachable state, what the owner has seen followed by what its chain of cells still says is exactly the sequence of responses with its number since registration: the continues up to the first other response, that response, or a cancellation in its place |
| `PendingInvariants.ResponseIsOwn` | rtsp-2/src/protocol/connection/pending.rs:106-125 | a response returned by a future bears the number of its request and did arrive |
| `Pending.ContinuesExact` | rtsp-2/src/protocol/connection/receiver.rs:681-684 | the responses that keep a request alive are exactly those with status 100 |
| `PendingInvariants.NeverAbandoned` | rtsp-2/src/protocol/connection/pending.rs:106-112 | the chain of unread continues of a waiting future ends at a cell of its own whose sending end, while nothing came into it, is in the map or in the queue; so polling never finds the cell at hand abandoned |
| `Registration.ResponseFindsItsRequest` | rtsp-2/src/protocol/connection/receiver.rs:289-301 | under every interleaving of callers with the connection task, while messages are read each written request that waits is registered, and a response to it becomes the last thing its chain says unless it was already answered |
| `Registration.PollIsTurns` | rtsp-2/src/protocol/connection/receiver.rs:289-301 | what one poll does to the pending requests and to the wire (the queue emptied, the responses matched, then the requests written, then perhaps the receiver dropped) is a round of the stages, from its start to its start |
| `Registration.PolledResponseFinds` | rtsp-2/src/protocol/connection/receiver.rs:289-301 | in every schedule, each response that a poll reads is handed to its owner if its request was written by then: it becomes the last thing the chain of that request says unless it was already answered |
| `Matchers.Channels.Send` | rtsp-2/src/protocol/connection/pending.rs:316-330 | sending fails exactly if the receiving end was closed or dropped |
| `Matchers.ResponseReceiver.HandleUpdate` | rtsp-2/src/protocol/connection/receiver.rs:650-663 | takes the pure step of applying the first update |
| `Matchers.ResponseReceiver.PollUpdates` | rtsp-2/src/protocol/connection/receiver.rs:750-769 | the loop applies all queued updates |
| `Matchers.ResponseReceiver.HandleResponse` | rtsp-2/src/protocol/connection/receiver.rs:670-697 | takes the pure step of matching a response, at any pace of sending |
| `Matchers.ResponseReceiver.RemovePendingRequests` | rtsp-2/src/protocol/connection/receiver.rs:711-717 | in whatever order the map is drained, exactly the open cells in it are cancelled |
| `Matchers.ResponseReceiver.Close` | rtsp-2/src/protocol/connection/receiver.rs:725-732 | takes the pure step of dropping the receiver: updates first, then the cancellations |
| `Matchers.SendRequest.SendRemoval` | rtsp-2/src/protocol/connection/pending.rs:59-64 | takes the pure step of sending the removal; the cell is still open then |
| `Matchers.SendRequest.CloseCell` | rtsp-2/src/protocol/connection/pending.rs:65-66 | takes the pure step of closing the cell |
| `Matchers.SendRequest.CancelRequest` | rtsp-2/src/protocol/connection/pending.rs:59-66 | an uninterrupted cancellation is those two steps in that order |
| `Matchers.SendRequest.PollRequest` | rtsp-2/src/protocol/connection/pending.rs:106-125 | takes what the cell holds; a continue replaces the cell and restarts the short timer only |
| `Matchers.SendRequest.PollAt` | rtsp-2/src/protocol/connection/pending.rs:191-207 | one uninterrupted poll at a given time reads the cell and is the pure step whose timeout its answer says, with the closing of the cell after a timeout; the answer is that of the polls so far and of the time-outs given in the call |
| `Matchers.TimeoutsExact` | rtsp-2/src/protocol/connection/pending.rs:106-207 | for any polls: the long time-out is answered if and only if no answer was read and its time has passed since the call; the short one if and only if it is not the long one, no answer was read and its time has passed since the last continue that was read, or since the call if there was none; without either there is none |
| `Awaiting.Await` | rtsp-2/src/protocol/connection/mod.rs:447-503 | a request sent through the handle at a given time with given time-outs, with any responses coming in and any polls: until the first that is not still waiting, each answer is the one for the responses with the number of the request that were read, one a poll, and for the two time-outs of the call |
| `Awaiting.NextIsNext` | rtsp-2/src/protocol/connection/pending.rs:106-125 | what a poll finds in the cell is the first response with the number of the request that was not read yet |
| `Matchers.SendRequest.Drop` | rtsp-2/src/protocol/connection/pending.rs:170-176 | takes the pure step of dropping a future: a spent cell, or one closed while empty, withdraws nothing |
| `Matchers.ConnectionHandle.Register` | rtsp-2/src/protocol/connection/mod.rs:460-477 | takes the first half of any call; fails exactly if the receiver is gone; keeps the system sound if the next number is free |
| `Matchers.ConnectionHandle.HandOver` | rtsp-2/src/protocol/connection/mod.rs:479-502 | takes the second half: the request goes out under its number and the number advances, with the time-outs of the call on the future, or the registration is withdrawn and the number stays |
| `Matchers.ConnectionHandle.SendRequestWithOptions` | rtsp-2/src/protocol/connection/mod.rs:447-503 | any uninterrupted call is both halves; a future is returned exactly if requests are allowed and both channels are open; the request goes out under the current number, and the future has the time-outs of the call and the time of it; the system stays sound if the next number is free |
| `Handlers.RequestHandler.SendResponse` | rtsp-2/src/protocol/connection/handler.rs:205-219 | the response is logged under the number; it reaches the sender if that is there, and otherwise the sender is given up for good |
| `Handlers.RequestHandler.PollContinueTimer` | rtsp-2/src/protocol/connection/handler.rs:105-125 | the loop runs until the timer is set for later or is given up, and ends if there is a wait; ready exactly if there is no timer any more; what it does is a run of timer chores, only so many as waits fit into the time since the timer was due: continues under the number of the request in service are added and nothing else |
| `Handlers.StopsIfPositive` | rtsp-2/src/protocol/connection/handler.rs:105-125 | a timer that is due fires a bounded number of times within a call if and only if the wait is not zero; with a zero wait the code does not come to an end |
| `Handlers.RequestHandler.PollServicedRequest` | rtsp-2/src/protocol/connection/handler.rs:138-164 | ready exactly if nothing is in service any more; a request that the service has answered or failed gets its one final response, and one that it has not stays in service with its timer set for later |
| `Handlers.RequestHandler.ProcessRequest` | rtsp-2/src/protocol/connection/handler.rs:172-190 | a request goes to the service unless its URI has the scheme that is not implemented, or it has exactly one content length, valid and positive, and no content type |
| `Handlers.RequestHandler.PollOnce` | rtsp-2/src/protocol/connection/handler.rs:271-288 | what it does is a run of chores of the pure machine: requests are taken in order and one at a time; ready only when the queue has ended, everything is settled and the shutdown was announced; otherwise it stops only at a request that the service has not answered or at an empty queue; all that is said reaches a sender that is there |
| `Handlers.RequestHandler.Shutdown` | rtsp-2/src/protocol/connection/handler.rs:226-245 | announces the shutdown once, also when repeated |
| `Handlers.ChoreKeeps` | rtsp-2/src/protocol/connection/handler.rs:138-218 | every chore keeps the tally (one segment per dequeued request, in order) and takes requests from the front of the queue only |
| `Handlers.SegmentAnswers` | rtsp-2/src/protocol/connection/handler.rs:138-219 | each segment is continues with status 100 and then exactly one final response, all bearing the number of its request |
| `Handlers.TurnedAwayExact` | rtsp-2/src/protocol/connection/handler.rs:172-190 | in every run of the reorder buffer joined to the handler: the requests that never reach the service are exactly those with the scheme that is not implemented, answered once with 501, and those with a body and no content type, answered once with 400; every other last answer is that of the service, or 500 |
| `Handlers.AnsweredInOrder` | rtsp-2/src/protocol/connection/handler.rs:271-288 | in every run of the reorder buffer joined to the handler by the channel: what was taken and what is queued is what was forwarded, and the i-th answered request has its segment under the i-th number from the first one on |
| `Senders.Sender.TrySendMessage` | rtsp-2/src/protocol/connection/sender.rs:153-157 | fails exactly if the sender is gone; otherwise the message goes behind everything submitted before |
| `Senders.Sender.StartSend` | rtsp-2/src/protocol/connection/sender.rs:109-118 | entered only with nothing held back; the message is taken if the sink has room, held back if not, and a broken sink says so |
| `Senders.Sender.PollWrite` | rtsp-2/src/protocol/connection/sender.rs:70-96 | until the first sink error: messages with the sink, the one held back and the queue are all messages submitted, in order, the former two dated once each; the sink gets as many as it has room for |
| `Senders.Sender.PollOnce` | rtsp-2/src/protocol/connection/sender.rs:138-147 | the sink gets as many of the messages left as it has room for; ready if and only if that is all of them, all handles are gone and the sink has passed everything on, and then every submitted message is with the sink, dated, in order |
| `Senders.FifoKeepsNumbers` | rtsp-2/src/protocol/connection/sender.rs:77-85 | dating a message gives it exactly one date and changes nothing else of it |
| `Shutdowns.MovesOn` | rtsp-2/src/protocol/connection/shutdown.rs:57-193 | over any run the state only moves Running, ShuttingDown, Shutdown; the event is pending until the last state and has then been sent once; a shut-down handler never changes and a graceful deadline never moves |
| `Shutdowns.EndsAtOnce` | rtsp-2/src/protocol/connection/shutdown.rs:57-112 | after any run that has not asked for a shutdown: an immediate one, one without duration, or the loss of the handle is over at the next look with the event sent once; a graceful one begins with its deadline; without a signal nothing happens |
| `Shutdowns.GracefulLasts` | rtsp-2/src/protocol/connection/shutdown.rs:57-147 | a graceful shutdown lasts its whole duration, whatever is signalled meanwhile, and is over at the first look at the clock after it |
| `Shutdowns.DropAnnounces` | rtsp-2/src/protocol/connection/shutdown.rs:164-168 | after any run, dropping the handler leaves the event sent exactly once |
| `Shutdowns.ShutdownHandler.HandleShutdown` | rtsp-2/src/protocol/connection/shutdown.rs:57-75 | graceful sets the deadline, immediate ends and announces once; the graceful case never meets a shut-down handler |
| `Shutdowns.ShutdownHandler.PollOnce` | rtsp-2/src/protocol/connection/shutdown.rs:184-192 | the loop ends, and takes exactly one look at the signal and the clock; ready if and only if the state is Shutdown |
| `Receiving.IntakeIsRun` | rtsp-2/src/protocol/connection/receiver.rs:340-372 | what is taken from the stream is a prefix of it; its requests are a run of the reorder buffer while requests are allowed, and do nothing to it afterwards |
| `Receiving.StalledTakesNothing` | rtsp-2/src/protocol/connection/receiver.rs:340-351 | a stalled buffer takes nothing from the stream, responses included, and forwards nothing |
| `Receiving.ToldByBytes` | rtsp-2/src/protocol/connection/receiver.rs:131-160 | what the peer is told of a request that cannot be read, by its bytes: 413 if and only if behind a legible beginning the headers end with a declared length over the limit, 414 if and only if the URI goes on beyond its limit, 505 if and only if the version is 1.0, else 400 |
| `Receiving.RefuseExact` | rtsp-2/src/protocol/connection/receiver.rs:165-181 | a request too far ahead is refused with 403, a bad one with 400, with no headers and no body |
| `Receiving.Receiver.HandleMessage` | rtsp-2/src/protocol/connection/receiver.rs:106-124 | takes the pure step of one message, and of matching it if it is a response that is received; the forwarding receiver is there and not full, and the refusal finds its handle and a live sender, so neither expectation of the code can fail |
| `Receiving.Receiver.HandleRequestReceiverError` | rtsp-2/src/protocol/connection/receiver.rs:165-181 | refuses with 400 or 403 through a handle that is there |
| `Receiving.Receiver.HandleProtocolError` | rtsp-2/src/protocol/connection/receiver.rs:131-160 | a request that could not be decoded is answered by 505, 413, 414 or 400 according to the error, and nothing else is answered; the answer is lost if and only if the handle is kept although the sender is gone |
| `Receiving.Receiver.PollStream` | rtsp-2/src/protocol/connection/receiver.rs:340-372 | reads exactly what there is to read, to the answer of a bad end, and matches the responses in their order; the stream is closed exactly if its end is met; the answer is lost exactly if the stream ends with a bad request and there is no sender |
| `Receiving.Receiver.ShutdownRequestReceiver` | rtsp-2/src/protocol/connection/receiver.rs:402-417 | requests stop; the forwarding receiver stays exactly if it has a request ready; the handle and the stream go with the last receiving part |
| `Receiving.Receiver.ShutdownResponseReceiver` | rtsp-2/src/protocol/connection/receiver.rs:422-431 | responses stop and every pending request is told so; the handle and the stream go with the last receiving part |
| `Receiving.Receiver.ShutdownForwardingReceiver` | rtsp-2/src/protocol/connection/receiver.rs:380-383 | forwarding and requests stop together |
| `Receiving.Receiver.ShutdownReceiving` | rtsp-2/src/protocol/connection/receiver.rs:391-394 | all receiving stops, with every pending request told so, and forwarding only if nothing is ready |
| `Receiving.Receiver.PollReceiving` | rtsp-2/src/protocol/connection/receiver.rs:289-328 | empties the update queue first, then reads exactly what there is to read, also in the call in which the stream ends, and nothing of a closed stream, and matches the responses in their order; parts only go from on to off; still receiving exactly if the stream is open and decoding did not expire |
| `Receiving.Receiver.ReadIsRun` | rtsp-2/src/protocol/connection/receiver.rs:289-372 | what a poll reads is a prefix of the stream and a run of the line; once no requests are allowed nothing comes to the line, though responses are still read; the responses are heard in their order, the refusals are sent, and reading stops only at the end of what is there or at a full buffer |
| `Receiving.Receiver.PollOnce` | rtsp-2/src/protocol/connection/receiver.rs:450-474 | in every call, whether the stream is open, ends or has ended: the new state is what was read with k of the ready requests forwarded, and with the handler gone one request less; forwarding is given up only for a gone handler, or when requests are no longer allowed and everything ready was forwarded; once they are not allowed the call only forwards; the pending requests meet the emptied queue and then the responses read; done exactly if everything is off |
| `Receiving.DrainedByPolls` | rtsp-2/src/protocol/connection/receiver.rs:604-628 | when nothing comes to the line between or during polls that each forward some of what is ready, then by the time nothing is ready exactly the gapless run of buffered requests from the expected one was forwarded, in order |
| `Receiving.DrainReceiver` | rtsp-2/src/protocol/connection/receiver.rs:402-417 | such a drain on the object: after requests were shut down, with the stream and the response receiver still open or not and whatever still comes, any number of polls only forward unless the handler goes, and when forwarding is given up exactly the gapless run was forwarded |
| `Connections.Connection.PollReceiver` | rtsp-2/src/protocol/connection/mod.rs:123-132 | a receiver that stays has something left to do |
| `Connections.Connection.PollRequestHandlerShutdown` | rtsp-2/src/protocol/connection/mod.rs:139-150 | the sender goes exactly if the receiver is gone and a handler that is watched has finished |
| `Connections.Connection.PollSender` | rtsp-2/src/protocol/connection/mod.rs:156-166 | without a sender no requests are accepted |
| `Connections.Connection.ShutdownRequestReceiver` | rtsp-2/src/protocol/connection/mod.rs:177-183 | the receiver goes if this was its last part |
| `Connections.Connection.React` | rtsp-2/src/protocol/connection/mod.rs:306-343 | what each shutdown state demands, exactly: running keeps all but requests that nobody could answer or hear, shutting down stops requests both ways, and shut down leaves nothing |
| `Connections.Connection.PollOnce` | rtsp-2/src/protocol/connection/mod.rs:299-352 | requests accepted imply a forwarding receiver, a handle and a sender; each part goes off exactly for one of its causes, and requests stay allowed as long as nothing shuts down, responses are matched and there is a sender; the pending requests meet the emptied queue, then the responses read, and then requests are written; no ready request is left behind unless the handler goes or the connection is stopped at once; ready exactly if receiver and sender are gone, and then no requests are allowed and the event was sent once; the answer to a bad request is lost if and only if the stream ends with one while responses are awaited and the sender is gone |
| `Connections.LoseAnswer` | rtsp-2/src/protocol/connection/mod.rs:156-166 | a run that loses the answer: a new connection, a poll in which the sender finishes, and a poll in which the stream ends with a request that cannot be decoded |
| `Connections.RunFades` | rtsp-2/src/protocol/connection/mod.rs:299-352 | over any run of polls everything only goes from on to off |
| `Connections.ReadyIsFinal` | rtsp-2/src/protocol/connection/mod.rs:332-352 | once a poll was ready, everything is gone for good and the event was sent exactly once |
| `Serving.KeepServing` | rtsp-2/src/protocol/connection/mod.rs:299-352 | as long as the stream is open, nothing expires, the sender has more to do, nobody asks for a shutdown and the handler is there, any number of polls leave a new connection with all its parts on and requests allowed, whatever comes |
| `Serving.Serve` | rtsp-2/src/protocol/connection/mod.rs:299-352 | over any number of polls of a connection, with anything arriving and any surroundings: what was read is a prefix of the stream; the requests read while allowed drive one run of the reorder buffer; the channel of the handler got exactly what that run sends; after a graceful shutdown or the end of the sender everything that was ready is forwarded before forwarding is given up |
| `Serving.ServedInOrder` | rtsp-2/src/protocol/connection/receiver.rs:511-628 | so from a new connection on the channel gets consecutive numbers, a number again only a whole cycle later, each accepted request at most once, and none that did not arrive |
| `Serving.PollOnSchedule` | rtsp-2/src/protocol/connection/mod.rs:299-301 | a poll of the connection continues any schedule of callers and futures by exactly one round of the stages: the new state is that of the longer schedule, so what holds of all schedules holds of the connection |
| `Comments.FoldingExact` | rtsp-2/src/header/common/date.rs:185-235 | white space of length n is recognised if and only if the first n characters are white space of the grammar and neither a blank nor a carriage return follows |
| `Comments.CommentExact` | rtsp-2/src/header/common/date.rs:40-60 | a prefix is recognised as a comment if and only if it is a nested comment of the grammar |
| `Comments.CommentUnique` | rtsp-2/src/header/common/date.rs:40-60 | at most one prefix of any string is a comment |
| `Comments.SkipExact` | rtsp-2/src/header/common/date.rs:62-89 | comments and white space are skipped up to n if and only if the first n characters are a sequence of them and what follows starts with neither |
| `Comments.ParseFoldingWhitespace` | rtsp-2/src/header/common/date.rs:185-235 | the loop over the three states splits the string where the recogniser says |
| `Comments.ParseQuotedPair` | rtsp-2/src/header/common/date.rs:262-272 | splits after a backslash and a quotable character |
| `Comments.ParseComment` | rtsp-2/src/header/common/date.rs:21-60 | the loop with its offset splits the string exactly behind the comment; recursion is on shorter strings |
| `Comments.ParseCommentAndFoldingWhitespace` | rtsp-2/src/header/common/date.rs:62-89 | the loop splits the string behind all comments and white space, and fails on none only if they are not optional |

## Left out

- The codec's events, the decode timer they drive, and the end-of-input call of the codec: a decode timeout is a parameter of `Receiving.Receiver.PollReceiving`.
- The framing layer that fills the buffer and calls the codec; its part is played by `Codecs.MessageCodec.DecodePieces`.
- Request and response decoders are one class with a `kind`, since their header, body and end states are the same code.
- URI parsing and printing: the round trip assumes that a printed URI parses back to itself and contains no space.
- Builders, display and comparison functions, configuration types, the tables of standard methods, headers and status codes, and the other typed headers.
- Where a typed header is placed among the other headers when it replaces one: the multimap is not part of this model, only that the old values are gone.
- The parsing of dates, times, weekdays and zones around the comments.
- Task wake-ups, locks, executors and errors of timers for lack of capacity, except that the handler then stops sending continues.
- Dropping the response receiver is one atomic step; a response racing with it inside the channel implementation is not modelled.
- That a removed number is present when its removal is processed: it need not be, a response may come first; the removal is then without effect.
- Handlers.RequestHandler.PollContinueTimer: a call with a zero wait, which does not return in the code, is not a call of the model; `Handlers.StopsIfPositive` is about it.
- Handlers.RequestHandler.PollOnce: what the service answers and whether the sender is there do not change within a call; the poll readiness of the service is not used by the code.
- Forwarding.ForwardingReceiver.Poll: the room in the handler's channel, and whether the handler is there, do not change within a call.
- Senders.Sender.PollOnce: after an error of the sink one message may be missing; nothing more is claimed then, as the connection drops the sender.
- Matchers.ConnectionHandle.SendRequestWithOptions: describes a call that is not interrupted; the interleavings between its two halves are covered by the lemmas about all schedules.
- Receiving.Receiver.PollReceiving: whether the stream of updates has ended (all handles and futures are gone) is a parameter, not read off the queue.
- Connections.Connection.PollOnce: whether the sender is done and how many requests its sink takes are parameters; the queue in front of the sink is the subject of `Senders`. A poll of the object is not interrupted; callers between its stages are covered by the lemmas about all schedules.
- The moment between withdrawing a request that could not be handed over and dropping its cell: nobody waits for that cell.
- The receiver of the two shutdown events held by the handle, and the shutdown sender: each forwards one value.
