# Verified model of the OpenMSO Capture Protocol bindings

The OpenMSO Capture Protocol connects a frontend to a plugin process that drives a device. The frontend
asks on a request/reply control channel; the plugin pushes samples and capture events on a one-way event
stream. This project models the parts of the Rust and C++ bindings that carry samples from an acquisition
thread to the frontend's buffer, and proves what they promise.

- **The TRANSITION encoding.** Runs of equal samples, each written as a base-128 varint and one sample.
  `Varint`, `Bits` and `RunLength` give the pieces, `Transition` says what a payload means and what the encoder
  and decoder compute, `CoderLoops` connects loops to those functions, and `RustEncoding` and `CppEncoding` hold
  the loops of the two languages. `Payload` is the dispatch on encoding and codec, `Negotiation` the choice of
  both in Hello.
- **The sender.** `Chunking` cuts, labels and reassembles; `Events` is the shared flag and event socket;
  `StreamSender` is the stateful class with pushes that fail; `StreamRuns` interleaves any number of senders on
  one wire.
- **The control loop.** `ControlLoop` is a machine of atomic steps for the loop, the plugin's threads and the
  client, around one shared flag. `ControlLoopSafety`, `WireOrder` and `Lockstep` prove what holds of every run;
  `CaptureLog` says which wires are made of captures; `Races` gives runs that break the properties whose
  assumptions are dropped; `Server` is the loop in the form the plugin executes, proved equal to a schedule of
  steps of that machine, and `ServerRuns` shows that the schedules are exactly the machine's runs.
- **Both together.** `Delivery` shows that what lies inside the bracket of a capture is that capture's streams as
  they left their senders.
- **The client.** `Protocol` judges replies, `Client` holds the two client classes and the argv they launch a
  plugin with, `Args` parses that argv.

## How to read the results

Bytes are integers from 0 to 255. The shifts, masks and ors of the varint code are operations on numbers as
strings of bits (`Bits`, where `Bits.Bitwise` says that they are what their names promise); a left shift in a
64-bit register drops what does not fit. A run counter and a sample count fit in 64 bits on any real machine;
where a theorem needs it, `< Varint.TWO_TO_THE_64` says so.

The functions `Transition.Encode` and `Transition.Decode` are the meeting point of the two languages: every
loop is proved equal to one of them, so agreement of the languages is equality of their contracts, and every
theorem about the functions is a theorem about all four loops.

A packed chunk carries every byte it was given, a run-length chunk only whole samples. `Chunking.Kept` is what is
kept of a buffer, and the results on senders hold for every buffer in terms of it; the buffers of which all is
kept are exactly the packed ones and those that end on a whole sample. The sender's sample counter counts whole
samples only, so it falls behind exactly when a packed part ends inside one (`StreamRuns.CounterMeasures`).

In `ControlLoop`, what the code itself enforces is in `Enabled`. The obligations it leaves to others are rules,
and `Keeps(run, rule)` says that every step of a run obeys one. Each theorem names the rules it takes. For each rule
but `Contract` that the results on the flag and on wire order take, `Races` has a run that needs it.

- `Contract` binds the plugin: one worker for each start handler that succeeds and none elsewhere; a worker gets
  CaptureBegin through at most once and sends one terminal event, with nothing after it, all under its own capture
  id. A capture may end before it has tried to begin, and a reset may return at once, as the default one does.
- `ResetWaits`: when a reset clears the flag, no worker is live. `LossWaits`: no thread but a capture's own reports
  the device lost while a capture is live or being started. These two are exactly what it takes for the flag to
  mean that a capture runs (`ControlLoopSafety.ExclusionIffNoHaste`), and only results about that take them;
  `ByContract` is all three. The wire-order results take neither.
- `Discipline` binds the client: no new start before the terminal event of the last capture has been read, nor
  while one whose call timed out is still on its way. For a client that never gives up on a call the second
  half holds by itself (`Lockstep.PatientDiscipline`).
- `WireOrder.AnnouncedFirst`: a worker whose CaptureBegin has not got through gets nothing else through. The code
  does not see to this: a plugin may go on after a refused push. If workers try their CaptureBegin first
  (`TriesBeginFirst`), only a refused push can break it.

Any push may be refused, a call may time out, requests and replies may be lost or arrive late. A terminal send is
two steps, clearing the flag and pushing the event, because other threads can act between them. Runs are lists of
steps of any length and in any order. Events on the wire are marked with the worker that sent them and messages
with the call they belong to; only the theorems look at these marks.

A loop that a method runs is also written as a recursive function that says what the rest of the loop will
do (`CoderLoops.Write`, `CoderLoops.Unroll`, `StreamSender.Push`, `Args.ParseFrom`, `Server.DoAll`,
`Server.ServeOf`); the loop invariant is that this does not change, and lemmas relate the functions to their
meaning.

## Model

| member | source | states |
|---|---|---|
| Varint.ReadIffPrefix | rust/openmso/src/encoding.rs:128-140 | A run length is read off exactly when a prefix of at most ten bytes is one complete varint whose value is nonzero modulo 2^64, and that residue is the result |
| Varint.ReadErrors | rust/openmso/src/encoding.rs:128-140 | Reading fails as a zero run exactly if a complete varint is there whose value vanishes in 64 bits, and as truncated exactly if no prefix is a complete varint |
| Varint.ShortestIffFixed | rust/openmso/src/encoding.rs:120-140 | Writing a run length that was read gives the same bytes back exactly if they had no byte to spare and no bit beyond 64 |
| Varint.ShortestIsShortest | rust/openmso/src/encoding.rs:120-140 | Whatever bytes spell a run length, the writer needs no more of them |
| Varint.Subadditive | rust/openmso/src/encoding.rs:120-126 | The length of a merged run takes no more bytes than the two lengths it replaces |
| Bits.Bitwise | rust/openmso/src/encoding.rs:120-140 | `And` and `Or` act on each bit by itself |
| Bits.SetTopBit | rust/openmso/src/encoding.rs:121-122 | Rust cuts a number down to a byte and then sets its top bit, C++ the other way round; both give the low seven bits plus 0x80 |
| CoderLoops.SetBits | rust/openmso/src/encoding.rs:130-132 | Or-ing the masked and shifted byte into the value of the bytes before it gives the value of all of them modulo 2^64, and only the tenth byte can lose any bit |
| RustEncoding.PutVarint | rust/openmso/src/encoding.rs:120-126 | Appends the shortest varint of the value |
| RustEncoding.GetVarint | rust/openmso/src/encoding.rs:128-140 | The loop reads exactly the prefix described above, with the two error kinds told apart, and returns what follows it |
| RustEncoding.EncodeTransition | rust/openmso/src/encoding.rs:46-67 | The slice-based loop writes the maximal runs of the whole samples |
| RustEncoding.DecodeTransition | rust/openmso/src/encoding.rs:69-93 | The slice-based loop gives the specified samples or the specified error, for every payload, unit size and count |
| CppEncoding.PutVarint | cpp/src/encoding.cpp:11-18 | The same bytes as the Rust writer |
| CppEncoding.GetVarint | cpp/src/encoding.cpp:20-34 | The same run length and errors as the Rust reader, at any position of a larger string |
| CppEncoding.EncodeTransition | cpp/src/encoding.cpp:81-107 | The index-based loop writes the same bytes as the slice-based one; a zero unit size is an error |
| CppEncoding.DecodeTransition | cpp/src/encoding.cpp:109-136 | The index-based loop accepts the same payloads with the same result and rejects the others with the same error |
| CppEncoding.DecodePayload | cpp/src/encoding.cpp:138-158 | The dispatcher's answer, and that the scratch buffer changes only for a run-length chunk that decodes |
| CppEncoding.PayloadAgree | rust/openmso/src/encoding.rs:98-118 | The two dispatchers agree on a chunk exactly if its codec number is one the schema declares |
| CppEncoding.CodecsMean | rust/openmso/src/encoding.rs:99-108 | For every chunk in both languages: codec numbers 0 and 1 are the same, 2 and 3 are refused by their number; an undeclared number counts as none in Rust and is refused in C++ |
| CppEncoding.EncodingsMean | rust/openmso/src/encoding.rs:109-117 | For every chunk of codec 0 or 1 in both languages: encoding 2 is what its payload decodes to, any other number is the payload itself |
| Transition.ParseFlatten | rust/openmso/src/encoding.rs:75-85 | The payload format is unambiguous: written pairs parse to themselves |
| Transition.DecodeAccepts | rust/openmso/src/encoding.rs:69-93 | A payload decodes to some bytes exactly if it is a list of (nonzero varint, one sample) pairs whose runs add up to the declared count and expand to those bytes |
| Transition.DecodeRefuses | rust/openmso/src/encoding.rs:69-93 | Which error a payload gets, in both directions: a zero unit size before anything else; after some whole pairs an unreadable length, with its kind, or a length with less than a sample behind it; or whole pairs that do not add up to the declared count |
| Transition.DecodeConcat | rust/openmso/src/encoding.rs:69-93 | Accepted payloads can be joined, and so are their samples and counts |
| Transition.RoundTrip | rust/openmso/src/encoding.rs:46-93 | Decoding an encoded buffer gives back every whole sample of it |
| Transition.EncodeInjective | rust/openmso/src/encoding.rs:46-67 | Different aligned buffers have different encodings |
| Transition.FixedPointIffCanonical | rust/openmso/src/encoding.rs:46-93 | Re-encoding an accepted payload changes nothing exactly if its lengths are shortest and neighbouring runs differ |
| Transition.EncodeCanonical | rust/openmso/src/encoding.rs:46-67 | The encoder's output is such a payload |
| Transition.EncodeMinimal | rust/openmso/src/encoding.rs:46-93 | No accepted payload for the same samples is shorter than the encoder's, and one as short has the same runs |
| Transition.EncodeSize | rust/openmso/src/encoding.rs:42-67 | Encoding adds at most one byte per sample, and that much exactly if no two neighbouring samples agree |
| Negotiation.IntersectSet | rust/openmso/src/encoding.rs:14-26 | For every accept list, empty or not, the result holds what both sides named and the mandatory member, nothing else |
| Negotiation.IntersectOrder | rust/openmso/src/encoding.rs:14-26 | The common members come first, as often and in the order we prefer, a missing mandatory member last |
| Negotiation.IntersectCpp | cpp/src/encoding.cpp:36-50 | The C++ loop computes the same list |
| Negotiation.EncodingsAgreed | rust/openmso/src/encoding.rs:28-31 | For every offer and every plugin, the encodings agreed on are those both sides named, as often and in the order the plugin prefers, with PACKED last if it is not among them |
| Negotiation.CodecsAgreed | rust/openmso/src/encoding.rs:33-36 | The same for codecs, with NONE |
| Negotiation.RunLengthAgreed | rust/openmso/src/encoding.rs:38-40 | Run-length encoding is accepted exactly if both sides named it, packed always |
| Negotiation.BothOursAgree | rust/openmso/src/encoding.rs:9-12 | A client offering both encodings in either order and a plugin built on this crate agree on run-length first, packed second |
| Chunking.NegotiatedDecodes | rust/openmso/src/encoding.rs:28-40 | A plugin that uses run-length encoding only if negotiated sends only what the client offered or the mandatory encoding, and both clients decode every part to what its encoding keeps |
| Chunking.ChunkSizeMeans | rust/openmso/src/server/events.rs:87 | For every sample size: the largest multiple of it that MAX_PAYLOAD holds, and zero exactly if one sample is larger than that |
| Chunking.PartsMean | rust/openmso/src/server/events.rs:87-88 | A buffer is cut into full chunks with what is left over in the last, and nothing else |
| Chunking.ChunkDecodes | rust/openmso/src/server/events.rs:86-105 | Any chunk decodes in both languages to what its encoding keeps of the bytes it was cut from |
| Chunking.UnlabelledChunkDecodes | rust/openmso/src/encoding.rs:98-118 | So does a chunk whose codec, or packed encoding, was left at the default of zero |
| Chunking.KeptIsAll | rust/openmso/src/server/events.rs:89-93 | All of a part is kept exactly if it is packed or ends on a whole sample |
| Chunking.HeadKeeps | rust/openmso/src/server/events.rs:87-88 | Cutting a chunk off a buffer loses no sample: what is kept of the two pieces, and their sample counts, add up to the whole |
| Chunking.ChunkFits | rust/openmso/src/transport.rs:12-18 | A chunk is at most MAX_PAYLOAD bytes packed and twice that run-length encoded, below the protocol's ceiling and the receive limit |
| Chunking.DrainMeans | rust/openmso/tests/control_loop.rs:155-172 | A receiver that accepts a stream has seen it numbered 0, 1, 2, ... with each chunk starting at the sum of the sample counts before |
| Chunking.DrainIff | rust/openmso/tests/control_loop.rs:155-172 | A receiver accepts exactly the streams whose chunks are numbered, start where the ones before end, state their length and decode; it then has what they decode to |
| Events.Events.Send | rust/openmso/src/server/events.rs:24-31 | A terminal event lowers the flag whether or not the push goes through; the wire grows exactly if it does |
| StreamSender.StreamSender.constructor | rust/openmso/src/server/events.rs:65-76 | A new sender is packed and starts at zero |
| StreamSender.StreamSender.Transition | rust/openmso/src/server/events.rs:80-83 | Switches the encoding and nothing else |
| StreamSender.StreamSender.Label | rust/openmso/src/server/events.rs:89-105 | The chunk for a part carries the sender's key, its counters, the part's sample count and the encoded part |
| StreamSender.StreamSender.Send | rust/openmso/src/server/events.rs:86-110 | Pushes the labelled parts up to the first push that fails; counters and wire agree on how many that was. Aborts with nothing sent exactly if one sample exceeds MAX_PAYLOAD |
| StreamSender.SendDelivers | rust/openmso/src/server/events.rs:85-110 | For any buffer and any number of pushes that go through, the receiver has what is kept of the first n bytes and the sender's counters describe them; a call cut short stopped between two samples |
| StreamSender.BufferDelivered | rust/openmso/src/server/events.rs:85-92 | For any buffer the receiver accepts the chunks, and has all of it exactly if the stream is packed or the buffer ends on a whole sample; otherwise less than one sample is missing at the end |
| StreamSender.PartialSampleLost | rust/openmso/src/server/events.rs:91 | Three bytes sent run-length as samples of two: the receiver gets two |
| StreamRuns.StreamFidelity | rust/openmso/src/server/events.rs:50-111 | For any senders, buffers and interleaving of pushes, and with senders that switch to run-length on the way, each stream taken out of the wire is gap-free and holds exactly what is kept of the buffers given to its calls, less what a call has yet to push |
| StreamRuns.InputsAreRaw | rust/openmso/src/server/events.rs:85-93 | That is the buffers byte for byte exactly if each was packed or ended on a whole sample |
| StreamRuns.SwitchIsForGood | rust/openmso/src/server/events.rs:78-83 | A sender is run-length for good once switched, and keeps its encoding until then |
| StreamRuns.CounterMeasures | rust/openmso/src/server/events.rs:88-108 | The sample counter never runs ahead of what was received, and measures all of it exactly if every part pushed was run-length or ended on a whole sample |
| StreamRuns.CallsMeasureParts | rust/openmso/src/server/events.rs:87-88 | It is enough that every buffer was run-length or ended on a whole sample |
| StreamRuns.ResumeAfterFailure | rust/openmso/src/server/events.rs:88-108 | With failures at any points, a plugin that goes on from the sender's sample counter delivers a gap-free prefix of its source as long as the counter says, exactly if every part pushed was run-length or ended on a whole sample |
| StreamRuns.PackedTailSentAgain | rust/openmso/src/server/events.rs:89-107 | Three bytes sent packed as samples of two, then on from the counter: the third byte arrives twice |
| StreamRuns.RunKeepsStep | rust/openmso/src/server/events.rs:94-107 | In every reachable state the receiver of a stream stands exactly where its sender's counters say, failures included |
| StreamRuns.CallIsRun | rust/openmso/src/server/events.rs:86-110 | A call that pushes n parts is n steps of the interleaved model |
| ControlLoopSafety.HandlersAreGated | rust/openmso/src/server/mod.rs:111-160 | In every reachable state no handler but Hello's runs before Hello succeeded, a raised flag implies it did, and the flag stays down while describe or a configuration handler runs |
| ControlLoopSafety.OneHello | rust/openmso/src/server/mod.rs:118-125 | Over a whole run at most one Hello is answered with a result |
| ControlLoopSafety.StartRace | rust/openmso/src/server/mod.rs:135-147 | When a start is answered with success the flag is up exactly if no terminal send, of any thread, began since it was raised; when its handler failed the flag is down |
| ControlLoopSafety.RaisedMeansLive | rust/openmso/src/server/mod.rs:135-160 | Under the contract alone, whatever resets do and whenever the device is lost: a raised flag is that of a start between raising it and its worker, or of the newest capture before its terminal event |
| ControlLoopSafety.BusyMeansLive | rust/openmso/src/server/mod.rs:115-138 | So under the contract alone a Busy from the loop means that the request needs an idle plugin and the newest capture is live |
| ControlLoopSafety.MutualExclusion | rust/openmso/src/server/mod.rs:135-160 | If nobody lowers the flag of a running capture, it is up exactly while a start is between raising it and its worker, or a worker has not begun its terminal event; never both, and never two such workers |
| ControlLoopSafety.ExclusionIffNoHaste | rust/openmso/src/server/mod.rs:156-160 | Given the contract, that holds in every state of a run exactly if no reset cleared the flag while a worker was live and no thread but a capture's own reported the device lost while one was live or being started |
| ControlLoopSafety.BusyIffLive | rust/openmso/src/server/mod.rs:115-138 | If nobody lowers the flag of a running capture, the loop answers Busy exactly if the request needs an idle plugin and a capture has not begun its terminal event |
| ControlLoopSafety.StopRace | rust/openmso/src/server/mod.rs:148-155 | Under the contract alone, a stop that arrives after the newest capture began to end by itself succeeds without the handler; if nobody lowers the flag of a running capture, the handler is asked in every other case |
| ControlLoopSafety.RefusalsExplained | rust/openmso/src/server/mod.rs:107-162 | After Hello, Busy goes only to requests that need an idle plugin and Invalid only to a second Hello or an empty request, which always get it; stop and reset fail only if their handler does and shutdown never; a successful reset leaves the flag down |
| ControlLoopSafety.StepsInOrder | rust/openmso/src/server/mod.rs:135-161 | Over every run the loop raises the flag after its look and before the start handler, and lowers it only right after the handler of a start has failed or that of a reset has succeeded; a Shutdown is accepted and a Busy said on the look alone |
| ControlLoopSafety.TerminalMeansReady | rust/openmso/src/server/events.rs:24-31 | Under the contract alone, once the newest capture's terminal event is on the wire the flag is down unless a start is under way, and no request is refused as busy; if nobody lowers the flag of a running capture, no worker is live either |
| CaptureLog.ScanMeans | proto/omso/capture/v1/stream.proto:26-61 | The wires the scanner accepts are exactly the brackets Begin, Data*, End written one after the other in start order, the last perhaps open, and it reads off the captures they were written from |
| CaptureLog.CapturesBelong | proto/omso/capture/v1/stream.proto:26-61 | If every thread sends only events of its own capture, every bracket carries one capture's id on all its events |
| WireOrder.WireOrderIff | rust/openmso/src/server/events.rs:24-31 | Under the contract alone, with any pushes refused and any resets: captures do not overlap on the wire and come in start order exactly if none began while another's bracket was open or after a later one, and no worker whose CaptureBegin had not got through got anything else through; the brackets are then those of the workers whose CaptureBegin got through |
| WireOrder.ExclusiveBeginsInTurn | rust/openmso/src/server/mod.rs:135-160 | If nobody lowers the flag of a running capture, none begins after a later one |
| WireOrder.AcceptedBeginsAnnounce | rust/openmso/src/server/events.rs:24-31 | If workers try their CaptureBegin first, the last condition can only fail after a refused CaptureBegin |
| WireOrder.DisciplineWaits | rust/openmso/src/server/mod.rs:135-147 | A client that waits for the terminal event makes every capture begin in turn and after all earlier ones have ended, whatever resets do |
| WireOrder.WireIsBrackets | rust/openmso/src/server/events.rs:24-31 | For such a client, whatever resets do and unless a worker whose CaptureBegin had not got through got something else through, the wire is one bracket per worker, in start order, each holding its own capture's events; only the last worker can lack its bracket or the end of it |
| WireOrder.WaitingStartIsNotBusy | rust/openmso/src/server/mod.rs:135-138 | Such a client is never told Busy by the loop when it asks for the next capture, whatever resets do |
| WireOrder.WorkersAreStarts | rust/openmso/src/server/mod.rs:135-147 | The workers are the accepted starts, one each, in the order of the answers |
| Races.LateEndLowersNewFlag | rust/openmso/src/server/events.rs:27-29 | A run of a plugin that keeps the contract but whose reset does not wait: an abandoned worker's terminal event lowers the flag of a running capture |
| Races.LostDeviceLowersFlag | rust/openmso/src/server/events.rs:27-29 | A run in which another thread reports the device lost during a capture: its flag is down while it is still live |
| Races.AbandonedCaptureBeginsLate | rust/openmso/src/server/mod.rs:51-54 | A run with a reset that returns at once: the abandoned capture begins on the wire after the one started since has ended |
| Races.CapturesOverlapWithoutWaiting | rust/openmso/src/server/events.rs:27-30 | A run the plugin contract allows when the client does not wait: a capture begins on the wire before the last one's end |
| Races.CapturesOverlapAfterTimeout | rust/openmso/src/client.rs:161-166 | A run in which the client does read the terminal event first, but two starts it gave up on are both accepted: their captures overlap on the wire |
| Races.RefusedBeginStrays | rust/openmso/src/server/events.rs:30 | A run in which plugin and client do all that is asked of them, a CaptureBegin is refused and the terminal event is not: the wire holds the end of a capture that never began |
| Races.EarlyEndStrays | rust/openmso/src/server/events.rs:27-30 | A run in which no CaptureBegin is refused but a capture fails before it has tried to begin: the same wire |
| Delivery.BracketHoldsStream | rust/openmso/tests/control_loop.rs:154-178 | Taking a stream out of its capture's bracket is taking it out of the whole wire |
| Delivery.OwnIds | rust/openmso/src/client.rs:72-77 | A client that asks for each capture id once has captures whose ids all differ, with requests lost and calls timing out |
| Delivery.BracketDelivers | rust/openmso/tests/control_loop.rs:154-178 | The chunks inside a capture's bracket, taken out by stream, are gap-free, and if none of its pushes failed they hold what is kept of the buffers the plugin handed to that stream's sender |
| Delivery.BracketResumes | rust/openmso/src/server/events.rs:88-108 | With pushes failing at any points and a plugin that goes on from the sender's counter, the bracket holds the counted prefix of the source exactly if every part pushed was run-length or ended on a whole sample |
| Lockstep.TypedCallsSucceedOrAreRefused | rust/openmso/src/client.rs:79-178 | Over whole sessions, with calls timing out, messages lost and old replies on the channel: a typed call that reads its own reply ends in its own result arm or the server's error; one that reads an older reply ends in a mismatch, exactly if it is not a multiple of 2^32 calls old |
| Lockstep.PatientClient | rust/openmso/src/client.rs:160-178 | A client whose calls never time out only ever reads the reply to the call it is in, and has no start pending when it asks for the next |
| Lockstep.PatientDiscipline | rust/openmso/src/client.rs:160-178 | For such a client the whole client discipline is to read the last terminal event before starting a capture |
| Lockstep.AnsweredInOrder | rust/openmso/src/server/mod.rs:69-98 | Over every run each request taken off the channel is answered once and in order, decodable or not; only the last can be without its answer |
| Lockstep.EveryQuestionFits | rust/openmso/src/server/mod.rs:70-92 | Over every session, whatever the client sends and whatever gets lost: the reply to its current call fits what it sent; a request without an arm is invalid under its own number, an undecodable message under zero |
| Lockstep.CallsCount | rust/openmso/src/client.rs:161-166 | Over every session each call moves the number on, sent or not; requests, replies and events leave their channels one by one, in order and not before they are there |
| Lockstep.ShutdownOnce | rust/openmso/src/server/mod.rs:85-98 | The shutdown hook runs at most once, only after an accepted Shutdown was answered, and the loop is then over |
| Lockstep.StaleReplyRejected | rust/openmso/src/client.rs:162-172 | A reply meant for an earlier call is turned away exactly if it is not a multiple of 2^32 calls old |
| Server.Server.Interfere | rust/openmso/src/server/events.rs:24-47 | Exactly those of the other threads' steps that are possible take place, on the flag and the event socket; they can lower the flag and cannot raise it, move the loop or answer |
| Server.Server.Hello | rust/openmso/src/server/mod.rs:118-125 | A second Hello is invalid, otherwise the handler decides; greeted is set exactly on success; the steps are those of the machine |
| Server.Server.Configure | rust/openmso/src/server/mod.rs:126-134 | Busy exactly if the flag was up when the request was looked at, otherwise the handler decides and the flag is still down |
| Server.Server.Start | rust/openmso/src/server/mod.rs:135-147 | Busy exactly if the flag was up, otherwise the handler decides; after its error the flag is down; the steps are those of the machine |
| Server.Server.RaiseAndStart | rust/openmso/src/server/mod.rs:139-146 | Raises the flag, runs the handler and lowers it on error, each with other threads in between, exactly as the machine does |
| Server.Server.Stop | rust/openmso/src/server/mod.rs:148-155 | Fails exactly if the flag was up and the handler failed; with the flag down it succeeds without the handler |
| Server.Server.Reset | rust/openmso/src/server/mod.rs:156-160 | Succeeds exactly if its handler did, and then the flag is down |
| Server.Server.Dispatch | rust/openmso/src/server/mod.rs:101-163 | Performs exactly the steps from the look at the flag to the answer that the schedule has, under any interference; an empty or ungreeted request is invalid, and Shutdown after Hello is accepted |
| Server.Server.Respond | rust/openmso/src/server/mod.rs:88-92 | Adds exactly the decided reply to the channel, marked with its call, or ends the loop in error |
| Server.Server.Process | rust/openmso/src/server/mod.rs:82-98 | A decoded request is dispatched, answered and, if it was an accepted Shutdown, followed by the hook, exactly as scheduled |
| Server.Server.Take | rust/openmso/src/server/mod.rs:71-98 | A message that is there is taken and answered as scheduled; the loop breaks exactly if its reply cannot be delivered |
| Server.Server.Turn | rust/openmso/src/server/mod.rs:70-98 | One turn performs exactly the scheduled steps. A closed socket ends the loop in order, a failed receive in error; a message ends it in error if its reply is not delivered, and otherwise, if at all, in order |
| Server.Server.Serve | rust/openmso/src/server/mod.rs:69-98 | The whole loop performs exactly the steps scheduled for its rounds, for every list of them. It returns an error exactly if in the round that ended it the receive failed or the reply was not delivered; the shutdown hook runs once exactly for an answered Shutdown |
| Server.RequestIsDecided | rust/openmso/src/server/mod.rs:101-163 | Whatever the request and whatever the others do, the schedule leads to a reply with the request's own number |
| Server.TurnAnswersOnce | rust/openmso/src/server/mod.rs:70-98 | A round that finds a message adds exactly one reply if it can be delivered and none if not: to that message's call, with its number (zero if undecodable), and an error or the one arm asked for |
| Server.TurnEnds | rust/openmso/src/server/mod.rs:70-98 | How every round ends, from the round alone: in order on a closed socket, in error on a failed receive or an undelivered reply, in order with the hook run once when a Shutdown after Hello was answered, and otherwise the loop waits on with the hook not run |
| Server.OthersTakePlace | rust/openmso/src/server/events.rs:24-47 | Each step another thread is to take takes place in its turn exactly if it is possible by then |
| ServerRuns.ServedIffRun | rust/openmso/src/server/mod.rs:69-163 | The loop and the machine do the same: the step lists that some rounds lead through are exactly the runs of the machine in which the loop has no request in hand |
| Client.CaptureClient.NextCaptureId | rust/openmso/src/client.rs:74-77 | Over the life of a client no capture id is handed out twice |
| Client.CaptureClient.Request | rust/openmso/src/client.rs:161-178 | The n-th call has number n modulo 2^32 whatever became of the others, and a reply is judged by number, then error, then result |
| Client.CaptureClient.Call | rust/openmso/src/client.rs:79-137 | A typed call succeeds exactly if a reply came back with the call's number, no error and its one arm, and gives that arm; every failing exchange has its own error, with the error of the reply before its result and any other arm named |
| Client.CaptureClient.CallInSession | rust/openmso/src/client.rs:79-178 | In a session with the real loop a call that reads its own reply ends in its own arm or the server's error, and a call ends in a mismatch exactly if the reply is not a multiple of 2^32 calls old; with no timeouts every reply read is the call's own |
| Client.CppClient.Request | cpp/src/client.cpp:220-239 | The same judgement of every reply as the Rust client |
| Client.CppClient.Call | cpp/src/client.cpp:241-317 | The same outcome of every exchange as the Rust client |
| Client.CppClient.Shutdown | cpp/src/client.cpp:319-342 | Succeeds on a running process exactly if a proper acceptance came back; afterwards the process is gone, reaped if it accepted and killed after any other exchange; a second call does nothing |
| Client.LaunchArgv | rust/openmso/src/client.rs:38-54 | The plugin's parser finds the three strings after the frontend's argv, and also over any flags that argv sets itself; an empty argv is refused. The C++ client appends the same list (cpp/src/client.cpp:160-163) |
| Client.ArgvRoundTrip | rust/openmso/src/client.rs:52-54 | Parsing the appended arguments recovers all three strings, whatever they contain and whatever settings stand before them |
| Args.SplitOnce | rust/openmso/src/server/args.rs:26-29 | Splits at the first `=` and nowhere else, and not at all exactly if there is none |
| Args.ParseArgs | rust/openmso/src/server/args.rs:22-49 | The slot-filling loop computes the specified result and errors for every argv |
| Args.ParsePrint | rust/openmso/src/server/args.rs:21-49 | Any list of the flags in both notations parses to the last value of each, and is refused exactly if one is missing |
| Args.ParseAccepts | rust/openmso/src/server/args.rs:21-49 | An argv is accepted exactly if it is such a list with all three flags in it |
| Args.ParseRefuses | rust/openmso/src/server/args.rs:22-49 | Which error a command line gets, in both directions: after some settings an argument that names no flag, or a flag without a value at the end, each with its name; or settings only, with a flag missing |

## Left out

- nng sockets, listening, dialing and permissions: pushes, sends and receives may fail, control messages may be lost or late, and event messages arrive in order; nothing else of the transport is modelled.
- Protobuf coding: messages are datatypes, and one that cannot be decoded is a single abstract input.
- Contents of replies and of the device and configuration schema: no modelled code interprets them, so only the reply arm and the error kind are kept.
- Status, Log, AcquisitionBegin, AcquisitionEnd and CaptureTrigger events: they neither touch the flag nor carry samples, so the wire holds only CaptureBegin, Data and the two terminal events.
- The push of a DeviceLost by a thread that is not a capture's own: its effect on the flag is modelled (`LoseDevice`), the event is not, so results on the wire are about the captures' own events.
- Error texts: the kinds are kept; the counts a mismatch message prints are not.
- Process spawning, pipes, waiting and the socket directory: the C++ client's pid and stdin handle are kept as fields, the Rust client's child process is not, so its shutdown is only the typed call.
- Manifest parsing: driven by a library, with no property beyond a per-token mapping.
- Zstd and heatshrink: declared codecs that neither library decodes.
- Lengths of 2^64 bytes and more, and overflow of 64-bit sequence, sample and capture counters and of `samples * unitsize`: buffers and counters are unbounded here.
- StreamSender.StreamSender.Send: is given how many pushes go through rather than a live socket; other threads' pushes between its own are in StreamRuns, not in the method.
- Server.Server.Serve: is given the other threads' steps and the handlers' and sockets' outcomes round by round, as a list of any length.
- ControlLoop keeps the two tests of a request that touch no shared state together with the one look at the flag as a single step; no other thread can tell.
- A plugin whose start handler fails after it started a worker is outside the contract, and so is a worker that stops without sending a terminal event.
