# Verified model of the context relay, guardian and gateway

A Dafny 4.11 model of four parts of the repository, with proofs of what they keep, promise and undo.

1. **The relay server** (`RelayLib`, `RelayTables`, `RelayMachine`, `RelayInvariants`, `RelaySteps`, `RelayTheorems`,
   `RelayClient`, `RelayJourney`, `RelayRefusals`, `RelayProgress`, `RelayRegistry`, `RelayAnswers`, `BlindSlots`,
   `BlindMachine`). `AppState` and `SlotTable` are the shared tables as the handlers mutate them, one method per locked
   section. `RelayMachine` and `BlindMachine` run any number of handlers interleaved: every lock acquire and release,
   time-out, disconnect, one-shot send and failed write is a step of its own, so other handlers run between the two
   cleanup statements of `image`. The invariant is stated per handler, channel and tenant; a guarantee that each step
   gives about the shared tables carries it over to all others. `RelayClient` adds the honest client and joins the
   machine with the signed URLs; `RelayJourney` exhibits a whole run; `RelayRefusals` follows refused requests over
   whole runs and ties every step to the section of `AppState` it runs; `RelayRegistry` and `RelayAnswers` say who can
   be registered, and give every decision of a handler its exact condition.
2. **The passive-capture decoder** (`Pcap`, `Reassembly`, `Utf8`, `Http`, `HttpFields`, `HttpMonotone`, `Chunks`,
   `HttpRoundTrip`, `Schema`). Each parser loop computes a recursive specification; stability, round-trip and exactness
   theorems are proved about the specifications (section 3.4 of RFC 9293, sections 6.3 and 7.1 of RFC 9112, RFC 3629).
3. **The message normaliser** (`Json`, `MessageFormat`, `MessageTheorems`, `MessageValidity`, `MessageDiagnosis`,
   `MessageTexts`, `MessageRepairs`, `MessagePlaces`). `Diagnosis` is the object that collects issues while records are
   rewritten; its methods are proved against the functions of `MessageFormat`. Validity, fixability, conversation, texts
   and places are stated without the normaliser.
4. **The rollout cleaner and its algorithms** (`DataUri`, `Rollout`, `RolloutRecords`, `RolloutScrub`, `RolloutSteps`,
   `RolloutRetention`, `RolloutErrors`, `RolloutFixpoint`, `Chunking`, `Calendar`), and the signed image URL across
   publisher, relay, client and gateway (`SignedUrl`, `GatewayRequests`).

`Prelude`, `Text`, `TextFacts` and `Joining` hold shared datatypes and string functions, and what those mean in terms of
characters.

## Assumptions

- Request ids drawn by the relay are fresh, and the relay's comparison of secret hashes is that of the secrets (`Digest` is a
  free constructor). For published images SHA-256 and HMAC are arbitrary functions to 32 bytes (`SignedUrl.Sound`); where
  collisions matter, only the contents in play are asked to have none (`SignedUrl.NoCollision`, `CodeServesOnlyItsOwn`).
  `SignedUrl.HypothesesAreMet` and `RelayJourney.PublishedImageIsRead` show that these hypotheses can be met.
- An image handler that is not dropped by a client disconnect runs to completion. Only the statements about finished handlers
  depend on it; `RelayTheorems.DisconnectLeaks` shows what a disconnect leaves behind.
- Gzip is a given partial function `inflate(bytes, limit)`; JSON text is a pair of functions `Codec(parse, write)` without
  any law. Where a theorem needs written values to be read back, it asks it of exactly those values
  (`RolloutRetention.WritesAreRead`, `MessageValidity.ArgumentsKeep`).
- The environment's answers (persisting works, a probe or capture supports a repair, sizes of referenced files, links and
  summaries) are parameters or choices of a step.

## Where the code falls short of what one might expect

- Reassembly sorts raw 32-bit numbers: `Reassembly.StartsAtEarliestIffNoWrap` says exactly when that finds the start,
  `Reassembly.ReassemblyOfCapture` what comes out otherwise, `Reassembly.WrappingCaptureLosesItsFirstByte` shows an input.
- The chunk decoder reads one line behind the last chunk: `Chunks.WholeBodyIffNoTrailers`, `Chunks.TrailerLeavesALine`.
- An `.output` that is an array on both sides counts as a lossless root although it has not changed:
  `Schema.UnchangedRoots`, `Schema.HiddenBelowOutput`, `Schema.OutputHidesAChange`.
- Alerts are dropped before token counts are normalised, so that step never acts:
  `RolloutRetention.TokenCountsAreNeverNormalized`.
- Days up to 31 are read in every month: `Calendar.NoSuchDate`, `Calendar.ReadsOnlyDatesIff`, `Calendar.ThirtiethOfFebruary`.
- An image that is already cached under its name is not written again, whatever it holds: `SignedUrl.PublishedIsServedIff`,
  `SignedUrl.CutFileIsServed`.
- A media type can carry a second `data:image` into the placeholder: `DataUri.ScrubMarker`, `DataUri.SecondMarkerComesBack`.

## Model

| member | source | states |
|---|---|---|
| `RelayTables.AppState.TryEnqueue` | relay/src/bin/server.rs:465-483 | under both locks the request is refused exactly when 1024 requests are inflight or 16 jobs queued; otherwise the entry and the job appear together and nothing else changes |
| `RelayTables.AppState.RemoveInflight` | relay/src/bin/server.rs:488-488 | the first cleanup statement takes exactly the request's entry out |
| `RelayTables.AppState.RetainOthers` | relay/src/bin/server.rs:489-493 | the second takes the request's job out of its tenant's queue; the other jobs keep their order |
| `RelayTables.AppState.TryPop` | relay/src/bin/server.rs:398-409 | a poll gets the front job of its own tenant and removes it, or nothing when the queue is empty |
| `RelayTables.AppState.TryTake` | relay/src/bin/server.rs:423-433 | a posted result takes the entry exactly when the request is inflight for that tenant; otherwise both tables are as before |
| `RelayTables.AppState.Register` | relay/src/bin/server.rs:363-389 | which of 201, 204, 409, 503 and 500 is answered, and that every answer but 201 leaves both tables as they were |
| `RelaySteps.StepKeepsInv` | relay/src/bin/server.rs:348-516 | every single step of any handler, including time-outs, disconnects and failed writes, keeps the whole invariant, also between the two cleanup statements |
| `RelaySteps.RunKeepsInv` | relay/src/bin/server.rs:348-516 | every run from a loaded store stays within the invariant |
| `RelayTheorems.DeliveredResultWasPosted` | relay/src/bin/server.rs:412-436 | a result that reached an image handler was posted by a call authenticated as its tenant and naming its request id, and nobody else took that request |
| `RelayTheorems.AtMostOneTaker` | relay/src/bin/server.rs:423-435 | two different posts never take the same request |
| `RelayTheorems.GoneForever` | relay/src/bin/server.rs:488-493 | once a request has left the inflight table it stays out in every continuation and nobody new takes it |
| `RelayTheorems.LatePostsAreRefused` | relay/src/bin/server.rs:423-433 | a post made after the handler removed its entry, however much later, is answered 404 |
| `RelayTheorems.FinishedLeavesNothing` | relay/src/bin/server.rs:488-493 | a handler that ran to its end leaves its id in no queue and not inflight, now and in every continuation |
| `RelayTheorems.InflightHasLiveOrDroppedOwner` | relay/src/bin/server.rs:463-493 | every inflight entry belongs to a handler still on its way to cleanup or dropped by a disconnect, under its own tenant |
| `RelayTheorems.DisconnectLeaks` | relay/src/bin/server.rs:480-493 | why run-to-completion is assumed: from every reachable state with a handler dropped and its entry inflight, after any schedule the entry is still there if and only if no authenticated post for that very id took it |
| `RelayTheorems.LeakIsReachable` | relay/src/bin/server.rs:480-487 | such a state is reached by any well-formed request for a loaded tenant that disconnects while it waits |
| `RelayTheorems.JobsAreConserved` | relay/src/bin/server.rs:392-410 | a pushed job is queued once, or was handed out once, or its own handler finished; never two of these places, never another tenant |
| `RelayTheorems.HandedInOrder` | relay/src/bin/server.rs:392-410 | jobs handed out are a subsequence of the jobs pushed, each given to exactly one authenticated poll of that tenant |
| `RelayTheorems.LimitsHold` | relay/src/bin/server.rs:371-483 | in every reachable state at most 1024 requests are inflight, at most 16 jobs queued per tenant and, if so at load, at most 10000 tenants |
| `RelayClient.ReaderGetsOwnImage` | relay/src/bin/client.rs:255-328 | in every interleaving an image handler of a tenant served by an honest client gets the gateway's response to its own path, never that of another request |
| `RelayClient.ReaderGetsPublishedBytes` | relay/src/bin/server.rs:438-515 | with the signing gateway behind that client, a reader whose own job reached the gateway before the expiry gets the published bytes whenever it gets a delivery |
| `RelayClient.AnswerFits` | relay/src/bin/client.rs:305-313 | the client's size check makes every answer pass the relay's limit on encoded bodies |
| `RelayClient.HonestAnswerIsTaken` | relay/src/bin/server.rs:412-436 | the client's post passes authentication and the size check, and is taken exactly when its request is still inflight |
| `RelayClient.RunKeepsListeners` | relay/src/bin/server.rs:487-487 | in every run nobody but the receiver itself closes its channel: whoever still listens has an open one |
| `RelayClient.InflightIsEmpty` | relay/src/bin/server.rs:432-435 | while a request is inflight and its reader waits, its channel is empty: nothing was sent and lost |
| `RelayClient.FinishedPostIsReceived` | relay/src/bin/server.rs:434-487 | in every schedule, once the post that took a request is finished, a reader that still waits gets exactly its result |
| `RelayClient.HonestAnswerArrives` | relay/src/bin/client.rs:314-328 | from every reachable state with a given job, a waiting reader and free locks, the client's post reaches that reader and removes the entry |
| `RelayJourney.PublishedImageIsRead` | relay/src/bin/server.rs:391-515 | for every published image, loaded tenant whose client knows its secret, and gateway with the key, there is a run from the loaded server in which all answers are honest and the reader gets the published bytes |
| `RelayProgress.NoDeadlock` | relay/src/bin/server.rs:348-516 | in every reachable state with an unfinished handler some handler can take a step without anybody disconnecting |
| `RelayProgress.InflightReleaser` | relay/src/bin/server.rs:465-485 | the holder of the inflight lock, or of the queue lock it waits for, can move |
| `RelayProgress.PersistingIsUnseen` | relay/src/bin/server.rs:374-388 | while a registration is being written nobody has looked its tenant up and it has no request |
| `RelayRegistry.ImproperIsAnswered400` | relay/src/bin/server.rs:348-361 | in every run a registration is answered 400 if and only if its id or its secret is malformed, the secret does not derive the id, or the proof of work fails, all four written out |
| `RelayRegistry.TenantsAreDerived` | relay/src/bin/server.rs:348-390 | every tenant of every reachable state was loaded with its hash, or has the hash of a well-formed secret that derives its id, with a valid proof |
| `RelayAnswers.ImageDecides` | relay/src/bin/server.rs:438-472 | an image request is refused for its form, for an unknown tenant, at 1024 requests inflight or 16 jobs queued, and for nothing else |
| `RelayAnswers.PollDecides` | relay/src/bin/server.rs:392-410 | a poll is refused exactly without the tenant's secret, gets the front of the queue as soon as it finds one, and ends with nothing when it has slept twice |
| `RelayAnswers.ResultDecides` | relay/src/bin/server.rs:412-433 | a post is refused exactly without the tenant's secret, above 40 MiB of text, or for a request that is not inflight for its tenant |
| `RelayAnswers.RegisterDecides` | relay/src/bin/server.rs:363-389 | behind the write lock: 204 or 409 by the secret of a known tenant, 503 at 10000 tenants, otherwise only the write to the store decides between 201 and 500 |
| `RelayAnswers.OnlyImagePathsAreQueued` | relay/src/bin/server.rs:438-483 | in every run, whatever is queued or handed to a poll is an image path with at most twenty digits of expiry and 64 hexadecimal digits of signature, for a tenant id of 32 |
| `RelayAnswers.ClientAnswersIff` | relay/src/bin/client.rs:255-328 | the client answers exactly a job it was given and fetched, under its own id and with the whole response, when that is at most 20 MiB |
| `RelayAnswers.ImageReplyIff` | relay/src/bin/server.rs:494-515 | the reader gets exactly a delivered image: status 200, an image type and a decoded body of at most 20 MiB |
| `RelayRefusals.RollbackIsClean` | relay/src/bin/server.rs:374-388 | from the insertion, through any schedule of the others, to the failed write: 500, and the tenants with their secrets are those from before the insertion |
| `RelayRefusals.RefusalChangesNothing` | relay/src/bin/server.rs:348-472 | in every run that ends with an image request, poll, post or registration refused, no step of that handler along the whole run changed a table |
| `RelayRefusals.StepsRunSections` | relay/src/bin/server.rs:348-516 | in every reachable state a step makes of the tables what the locked section it runs is specified to make of them, and goes the way that section answers |
| `BlindSlots.NamedTenant` | relay/src/bin/server.rs:343-346 | a server name yields a tenant exactly when it is a valid tenant id directly below the suffix |
| `BlindSlots.SlotTable.HandOff` | relay/src/bin/server.rs:204-238 | the loop gives the connection to the first slot of the tenant that still waits, drops the ones before it, never empties its hand, and leaves no empty deque |
| `BlindMachine.StepKeepsInv` | relay/src/bin/server.rs:151-238 | every step of a tunnel or of a routed connection keeps the slot invariant |
| `BlindMachine.EachSlotFiresOnce` | relay/src/bin/server.rs:151-238 | a delivered connection went to exactly one slot, of the registered tenant its server name names, and that slot took no other |
| `BlindMachine.DeliversToOldestLive` | relay/src/bin/server.rs:215-233 | the slot that gets the connection is no younger than any waiting slot of that tenant |
| `BlindMachine.SlotTableLimits` | relay/src/bin/server.rs:151-238 | at most 8 slots per tenant, no empty deque outside the lock, and the `expect` of the loop never fails |
| `BlindMachine.LoopIsHandOff` | relay/src/bin/server.rs:208-237 | with nobody in between, the turns of the interleaved loop do what the hand-off method is specified to do |
| `BlindMachine.TunnelOpensOrRefuses` | relay/src/bin/server.rs:151-161 | a tunnel is refused exactly at eight slots; otherwise its slot goes behind the others of its tenant and no other tenant's change |
| `BlindMachine.TunnelWaits` | relay/src/bin/server.rs:162-167 | a waiting tunnel is bridged when its slot was fired, and gives up a slot that is still live when its time is up |
| `BlindMachine.TunnelCleansUp` | relay/src/bin/server.rs:179-187 | cleaning up takes exactly the slots given up out of the tenant's deque, keeps the others in order, and leaves no empty deque |
| `BlindMachine.RouteFailsIff` | relay/src/bin/server.rs:204-238 | a connection fails exactly when it names no registered tenant, there is no entry for it, or its deque runs out |
| `Pcap.ParsePcap` | src/passive_capture.rs:426-485 | the loop computes the packet list, or the first error, that the specification of a capture file gives |
| `Pcap.CaptureRoundTrip` | src/passive_capture.rs:426-485 | a capture written in any of the four formats is read back: every packet with its time in milliseconds, and the link type |
| `Pcap.InstantsAreRead` | src/passive_capture.rs:435-485 | a packet written with its seconds, milliseconds and remainder, in micro- or nanoseconds as the format says, is read as seconds times 1000 plus milliseconds |
| `Pcap.MicrosecondFile` | src/passive_capture.rs:435-485 | a concrete microsecond file whose packet is read with its milliseconds |
| `Pcap.CutFileIsRefused` | src/passive_capture.rs:457-471 | a file cut inside a packet is an error, told apart by whether the packet header or its data is short |
| `Reassembly.SortIsStable` | src/passive_capture.rs:578-578 | sorting keeps segments of equal sequence number in their order of arrival |
| `Reassembly.Reassemble` | src/passive_capture.rs:577-605 | the loop computes the specified stream |
| `Reassembly.ReassemblyIsMaximalRun` | src/passive_capture.rs:577-605 | for slices of one byte stream within one epoch of the sequence space, in any order, duplicated or overlapping, the output is the maximal gap-free run from the lowest position; marks start at 0 and strictly increase; each byte carries the time of the segment that supplied it |
| `Reassembly.ReassemblyOfCapture` | src/passive_capture.rs:577-605 | for a capture of a stream of less than 2^32 bytes: without pieces from both sides of a wrap the maximal gap-free run from the earliest piece; with them exactly what the wrapped pieces alone give, everything before the wrap being lost |
| `Reassembly.StartsAtEarliestIffNoWrap` | src/passive_capture.rs:578-588 | raw sorting starts at the earliest captured byte if and only if no piece numbered below the initial number lies beside one numbered at or above it |
| `Reassembly.WrappingCaptureLosesItsFirstByte` | src/passive_capture.rs:578-588 | a capture of two bytes across the wrap, of which the first is lost |
| `Reassembly.AppendTimes` | src/passive_capture.rs:348-356 | appending a segment changes no earlier time and gives its own to the new bytes |
| `HttpMonotone.LaterSegmentsExtend` | src/passive_capture.rs:577-605 | capturing more segments, none numbered below an earlier one, only extends the stream |
| `HttpMonotone.FindStartStable` | src/passive_capture.rs:683-693 | a start line found in a stream is found at the same place in every extension: no straddling pattern comes first |
| `HttpMonotone.DechunkStable` | src/passive_capture.rs:703-740 | a finished or failed chunked body is not affected by later bytes |
| `HttpMonotone.ExtractIsMonotone` | src/passive_capture.rs:607-681 | the messages of a stream are a prefix of those of any extension that parses, and an error stays the same error |
| `HttpFields.FirstStart` | src/passive_capture.rs:683-693 | the search finds the first place where one of the seven written-out beginnings of a start line stands |
| `HttpFields.ListsTokenIff` | src/passive_capture.rs:640-643 | a coding is found in a field value exactly when one member of the comma-separated list is that coding with blanks around it at most |
| `HttpFields.LengthIff` | src/passive_capture.rs:651-654 | a body is as long as its length field says, in digits with at most a plus sign, up to 64 bits; anything else says zero |
| `Utf8.DecodeIff` | src/passive_capture.rs:614-624 | bytes are read as a text exactly when they are its UTF-8 encoding |
| `Http.DecodeChunked` | src/passive_capture.rs:703-740 | the loop computes the specified decoding |
| `Http.ParseHttpMessages` | src/passive_capture.rs:607-681 | the loop computes the specified extraction |
| `Chunks.ChunksRoundTrip` | src/passive_capture.rs:703-740 | decoding any rendered chunks gives the concatenated data and the exact encoded length, whatever follows |
| `Chunks.AnyDataRoundTrips` | src/passive_capture.rs:703-740 | any non-empty pieces of data, each behind its size in hexadecimal digits, are read back joined |
| `Chunks.ChunkPrefixIsIncomplete` | src/passive_capture.rs:703-740 | every strict prefix of an encoding asks for more bytes |
| `Chunks.WholeBodyIffNoTrailers` | src/passive_capture.rs:718-723 | with any trailer section the data is right, but the body is consumed to its end if and only if there are no trailers |
| `Chunks.TrailerLeavesALine` | src/passive_capture.rs:718-723 | an empty body with one trailer, of whose eleven bytes nine are consumed |
| `Chunks.SizeReadIff` | src/passive_capture.rs:709-713 | a size is read from a line exactly when the line spells it: hexadecimal digits, blanks and a plus sign around them at most, any extension, up to 64 bits; a line that is no text has its own error |
| `Chunks.OverLimit` | src/passive_capture.rs:724-729 | a body whose data exceeds the limit is refused, whatever its chunks and whatever follows |
| `Chunks.BrokenBody` | src/passive_capture.rs:709-738 | a body that goes wrong behind any chunks, by a line that is no size or by data without its line end, is refused with that error, or for its size when the limit is passed before |
| `HttpRoundTrip.RoundTrip` | src/passive_capture.rs:607-681 | rendering any list of supported messages, with or without lengths and codings in any spelling, chunked or not, gzip or not, with bytes of no message between and behind them, and extracting gives back that list with the capture times |
| `HttpRoundTrip.CutCapture` | src/passive_capture.rs:607-681 | a capture that stops inside a message gives exactly the messages before it |
| `HttpRoundTrip.FirstFault` | src/passive_capture.rs:607-763 | behind any messages, the first one whose body is too large, broken, corrupt or too large when unpacked ends the extraction with that error, whatever follows |
| `HttpRoundTrip.HeaderMustBeText` | src/passive_capture.rs:614-624 | behind any messages, a header section that is not UTF-8 ends the extraction with its own error |
| `HttpRoundTrip.HeadersRead` | src/passive_capture.rs:625-637 | only the four tracked fields are kept, by lower-case name, whatever other lines surround them |
| `HttpRoundTrip.LastFieldCounts` | src/passive_capture.rs:625-637 | of the four fields kept, the last line of each name counts, in any letter case and with blanks around it, whatever the lines |
| `Schema.SchemaDifferences` | src/passive_capture.rs:1157-1213 | the loops compute the specified differences |
| `Schema.ReportedInOrder` | src/passive_capture.rs:1168-1175 | reported paths are strictly increasing, hence unique |
| `Schema.ReportedExactly` | src/passive_capture.rs:1185-1211 | a path is reported exactly when its two signatures differ and it is neither strictly below a losslessly classified path nor one-sided inside an array both sides have |
| `Schema.ReportedIsReal` | src/passive_capture.rs:1198-1211 | each reported difference shows, for the successful and for the failing side, missing exactly when the path is not there and otherwise the type and its safe value, and its lossless mark is exact |
| `Schema.ByPathIsLast` | src/passive_capture.rs:1161-1167 | of fields with one path the last counts |
| `Schema.LosslessIff` | src/passive_capture.rs:1215-1277 | which changes of type or of safe value are lossless, path by path and written out |
| `Schema.VerdictExactly` | src/passive_capture.rs:1114-1118 | the lossless verdict is given exactly when a difference shows and every differing path is lossless, below a lossless one, or one-sided in a common array; equal schemas report nothing |
| `Schema.UnchangedRoots` | src/passive_capture.rs:1244-1277 | an unchanged field is classified lossless exactly when it is an output array or a text type |
| `Schema.HiddenBelowOutput` | src/passive_capture.rs:1261-1263 | nothing below an output that is an array on both sides is ever reported |
| `Schema.OutputHidesAChange` | src/passive_capture.rs:1261-1263 | a concrete changed type that goes unreported for that reason |
| `MessageTheorems.RecordGood` | src/message_format.rs:108-127 | diagnosing a rewritten record changes nothing more and reports exactly the first pass's open issues in order |
| `MessageTheorems.ChangedIffRepaired` | src/message_format.rs:86-106 | a record is changed exactly when an issue was reported as repaired |
| `MessageTheorems.ItemGood` | src/message_format.rs:409-566 | the same for one content item of either role |
| `MessageTheorems.MessageGood` | src/message_format.rs:270-351 | the same for one message |
| `MessageTheorems.CompactedGood` | src/message_format.rs:129-204 | the same for a compacted record: the text check and the history check do not disturb each other |
| `MessageTheorems.ToolOutputGood` | src/message_format.rs:602-652 | the same for a tool output |
| `MessageTheorems.UserMessageGood` | src/message_format.rs:654-702 | the same for a user message and its three lists |
| `MessageValidity.SilentIffValid` | src/message_format.rs:108-702 | no issue is reported exactly for the records that satisfy a separately stated validity predicate |
| `MessageValidity.RepairedToValid` | src/message_format.rs:108-702 | the rewritten record is valid exactly when no issue is left open, and a valid record is never changed |
| `MessageValidity.RepairsKeepTheConversation` | src/message_format.rs:86-652 | whatever is repaired, roles, number and order of messages, every text, image and refusal in order, flattened texts, the arguments of calls, the outputs and all other fields stay; a record without a conversation stays as it is |
| `MessageValidity.HistoryKeeps` | src/message_format.rs:206-241 | a history given as text, object or array reads the same before and after |
| `MessageValidity.OutputKeeps` | src/message_format.rs:602-652 | a tool output stands for the same text, content or JSON before and after |
| `MessageValidity.ArgumentsKeep` | src/message_format.rs:568-600 | repaired arguments of a call record are text, which parses to the value they replaced if and only if the JSON codec reads that value back |
| `MessageRepairs.RepairedIffFixable` | src/message_format.rs:86-702 | everything wrong with a record is repaired if and only if the record satisfies a condition stated on its fields and their kinds alone |
| `MessageTexts.FlattenedReads` | src/message_format.rs:727-746 | a value is flattened exactly when it is a text, an object with one, or a non-empty list of those, and then to their lines: every text whole and in order with one line feed between neighbours |
| `MessageTexts.ReadsAreUnique` | src/message_format.rs:727-746 | a value stands for one list of texts only |
| `MessageTexts.RecordMessageSettled` | src/message_format.rs:129-164 | the message of a compacted record or user message stays, becomes those lines as a repair, or is left with an open issue |
| `MessageTexts.TwoLines` | src/message_format.rs:727-746 | two texts become two lines |
| `Joining.JoinedIsSeparated` | src/message_format.rs:741-741 | joined texts stand in the result at their offsets, whole, with exactly the separator between neighbours and nothing else |
| `MessagePlaces.IssuesAreLocated` | src/message_format.rs:108-746 | every issue carries its record's number and a path that leads to the value it speaks of, whose kind it names; the two exceptions are part of the statement |
| `MessagePlaces.IssuesByRecord` | src/message_format.rs:86-106 | issues come in the order of their records, and those of each record are the ones its own diagnosis reports |
| `MessagePlaces.CheckedAreCounted` | src/message_format.rs:86-127 | the number of checked records is that of the records whose types, written out, have a check |
| `MessagePlaces.ListsAreSettled` | src/message_format.rs:654-702 | of the three lists a null becomes the empty list, and nothing else changes |
| `MessagePlaces.HistoryStandsFor` | src/message_format.rs:206-241 | a history stands for the messages listed, for the one it is, or for those its text encodes, and for none otherwise |
| `MessageDiagnosis.FlattenedText` | src/message_format.rs:727-746 | the loop joins the texts of all items, or gives up at the first item without text |
| `MessageDiagnosis.Diagnosis.NormalizeContentItem` | src/message_format.rs:409-566 | the in-place rewriting of one item and the issues it appends |
| `MessageDiagnosis.Diagnosis.NormalizeContentContainer` | src/message_format.rs:353-407 | the same for a content container |
| `MessageDiagnosis.Diagnosis.DiagnoseMessageAt` | src/message_format.rs:270-351 | the same for a message |
| `MessageDiagnosis.Diagnosis.NormalizeHistoryContainer` | src/message_format.rs:206-241 | a history becomes the array of the messages it stands for, with one issue unless it was one |
| `MessageDiagnosis.Diagnosis.DiagnoseCompactedRecord` | src/message_format.rs:129-204 | the same for a compacted record |
| `MessageDiagnosis.Diagnosis.DiagnoseUserMessageRecord` | src/message_format.rs:654-702 | the same for a user message |
| `MessageDiagnosis.Diagnosis.DiagnoseRecords` | src/message_format.rs:86-106 | a whole run: all issues in order, the number of checked records, and exactly the changed records with their new values |
| `MessageDiagnosis.DiagnosisIsProjection` | src/message_format.rs:86-106 | diagnosing a rewritten file rewrites nothing and reports exactly the open issues, in order |
| `DataUri.DataImageSpans` | src/main.rs:1522-1538 | the loop computes the specified spans |
| `DataUri.SpansAreSpans` | src/main.rs:1522-1538 | spans are sorted, disjoint and in bounds, begin with the marker, run to the first end character, and hold every marker of the text |
| `DataUri.SpansAreUnique` | src/main.rs:1522-1538 | no other list of spans satisfies that description |
| `DataUri.ScrubDataImageText` | src/main.rs:1316-1339 | the loop computes the specified replacement and byte count |
| `DataUri.ScrubKeepsGaps` | src/main.rs:1316-1339 | text and result are the same gaps woven with the URIs and with their placeholders |
| `DataUri.MimeIsNamed` | src/main.rs:1364-1371 | the media type is what stands before the first semicolon, or else the first comma, when that is an image type, and any image otherwise |
| `DataUri.ByteLengthIsEncoded` | src/main.rs:1341-1350 | removed bytes are those of the UTF-8 encoding |
| `DataUri.ScrubMarker` | src/main.rs:1316-1371 | the result holds `data:image` exactly when the thread, the image path or the media type of some span brings it in |
| `DataUri.SingleMarkerMime` | src/main.rs:1364-1371 | a span that holds one marker only has a media type without one |
| `DataUri.ScrubOnce` | src/main.rs:1316-1371 | without such a further marker a second scrub leaves the text alone |
| `DataUri.SecondMarkerComesBack` | src/main.rs:1316-1371 | texts whose scrubbed form still holds the marker and is scrubbed again |
| `Rollout.AnalyzeRecords` | src/main.rs:882-913 | the loops compute the tool calls and where folding starts |
| `Rollout.CleanRollout` | src/main.rs:641-827 | the loop computes the specified statistics and text |
| `RolloutRetention.ParseWritten` | src/main.rs:859-871 | written records are read back exactly |
| `RolloutRetention.OutputReparses` | src/main.rs:699-798 | the text written back parses to exactly the images of the kept records, in order, untouched ones with their own line, if and only if the JSON codec reads back every changed value |
| `RolloutRetention.KeptExactly` | src/main.rs:699-721 | which records are kept, and that folding drops exactly what precedes a last compaction followed by an alert, session metadata excepted |
| `RolloutRetention.SessionAndCompactionSurvive` | src/main.rs:915-924 | session metadata and the last compacted record always come through |
| `RolloutRetention.NoChangeNoAlteration` | src/main.rs:477-488 | when no change is reported, no record was dropped and no value altered |
| `RolloutRetention.TokenCountsAreNeverNormalized` | src/main.rs:706-741 | the token-count normalisation never acts on a kept record |
| `RolloutRetention.AttachmentsArePreserved` | src/main.rs:1373-1464 | every attachment of a user message is replaced, in order, by one placeholder; the message is kept and points to them, nothing else of the record changes, and a second pass finds nothing |
| `RolloutRetention.NothingAttached` | src/main.rs:1386-1403 | a user message is left alone exactly when it has no attachments |
| `RolloutRecords.AlertIff` | src/main.rs:1764-1888 | an alert is exactly a token count whose reported usage reaches the trigger, or a finished task whose error speaks of the context window, stated on fields and words |
| `RolloutRecords.UnknownIff` | src/message_format.rs:73-84 | an unknown error is a finished task with any other error |
| `RolloutRecords.ToolCallIff` | src/main.rs:1176-1214 | a record is a tool call exactly when its fields say so; its name, shortened arguments and viewed path are those it names |
| `RolloutRecords.LastCallCounts` | src/main.rs:882-896 | a tool output finds the last call with its id |
| `RolloutRecords.DroppedIff` | src/main.rs:699-721 | a record goes exactly when it is obsolete and no session metadata, an alert, or, when repairs apply, an unknown error |
| `RolloutRecords.RepairsIff` | src/main.rs:655-697 | repairs apply exactly when they are switched on and supported, an unknown error is there, every record can be repaired and not every one is valid |
| `RolloutRecords.PiecesAreRead` | src/main.rs:859-881 | the lines with something in them are read one by one, or the first that is not JSON is named by its number |
| `RolloutScrub.ScrubAt` | src/main.rs:1241-1309 | at every position that scrubbing reaches: texts are scrubbed, image items become their placeholder or link, and kinds, keys, lengths and all other values stay |
| `RolloutScrub.TouchesIff` | src/main.rs:1241-1309 | an image is counted exactly when some text or image item at a reached position holds one |
| `RolloutScrub.HasInlineImageIff` | src/main.rs:1504-1520 | a large output is left to the image step exactly when some text at some position holds an inline image |
| `RolloutSteps.GoalIsReset` | src/main.rs:1826-1852 | the goal step acts exactly on goals with at least the trigger used, sets that count to the recovery value, and keeps every other key of goal, payload and record |
| `RolloutSteps.KeptGoalIsReset` | src/main.rs:699-798 | a kept goal over the trigger is written with its count reset and all else as it was, unless it holds an inline image |
| `RolloutSteps.TokenCountIsReset` | src/main.rs:1789-1824 | the token-count step acts exactly on counts over the trigger and replaces their total usage and nothing else |
| `RolloutSteps.EstimateIs` | src/main.rs:1854-1857 | the estimate is a quarter of the bytes of all lines, at least one and at most the recovery value |
| `RolloutSteps.OutputImagesArePruned` | src/main.rs:1216-1239 | the image step acts exactly on tool outputs with something to scrub, names the viewed image, and replaces nothing but the output |
| `RolloutSteps.LargeOutputsAreReplaced` | src/main.rs:1463-1502 | the size step acts exactly on tool outputs without inline images whose encoding reaches the threshold, and replaces them by a text that names call and size |
| `RolloutSteps.NoteIs` | src/main.rs:1445-1461 | the note behind a message, spelled out, and the messages that get none |
| `RolloutSteps.AttachmentsAreCounted` | src/main.rs:1373-1409 | attachments are counted in user messages only, those of both fields |
| `RolloutSteps.OthersAreScrubbed` | src/main.rs:723-798 | a record that is no user message and no tool output is only scrubbed, once its count or goal is reset |
| `RolloutSteps.UserMessagesAreRewritten` | src/main.rs:723-798 | a user message first has its attachments replaced and then its inline images |
| `RolloutSteps.OutputsAreRewritten` | src/main.rs:723-798 | a tool output has its images replaced, then any others of the record, and is then replaced as a whole if it is still large |
| `RolloutSteps.KeptIsRewritten` | src/main.rs:723-798 | a kept record is rewritten from its repaired form when repairs apply, and from its own otherwise |
| `RolloutSteps.StatsAreTotals` | src/main.rs:699-798 | the statistics count the folded and dropped records and add up what was counted for the kept ones |
| `RolloutSteps.RepairedAreCounted` | src/main.rs:690-697 | the repaired records counted are the invalid ones, when repairs apply |
| `RolloutErrors.ScrubbedMention` | src/main.rs:1859-1888 | scrubbing inline images makes none of the error texts appear |
| `RolloutFixpoint.ScrubMakesNoAlert` | src/main.rs:1241-1309 | scrubbing a record makes no alert of it |
| `RolloutFixpoint.ScrubbedIsQuiet` | src/main.rs:1241-1309 | a scrubbed value holds nothing more to scrub |
| `RolloutFixpoint.RewriteFinishes` | src/main.rs:723-798 | the rewritten value of a kept record is left alone by any later pass, whatever its tool calls |
| `RolloutFixpoint.CleaningReachesAFixedPoint` | src/main.rs:641-827 | cleaning the result of a pass again reports no change and writes nothing, when the JSON codec reads back what the first pass changed |
| `SignedUrl.ImagePublisher.New` | src/main.rs:386-409 | a publisher is made exactly for an https origin, a lifetime of 1 to 86400 seconds and a key of 32 bytes or more |
| `SignedUrl.ImagePublisher.PublishBytes` | src/main.rs:423-437 | for any cache: the file under the printed name holds the published bytes if and only if the name was free or held them already, no other file changes, and the signed URL is printed in any case |
| `SignedUrl.AddressedHolds` | src/main.rs:423-429 | with every cached file named after its digest and no collision among the contents in play, the printed name holds the published bytes |
| `SignedUrl.AddressedStays` | src/main.rs:423-429 | publishing keeps every cached file named after its own digest |
| `SignedUrl.HexRoundTrip` | src/main.rs:439-444 | hexadecimal text decodes to its bytes |
| `GatewayRequests.HexDecodeIff` | src/bin/context-image-gateway.rs:214-223 | a code is decoded to the bytes it spells, high digit first, and refused when it spells none |
| `GatewayRequests.HexEncodeIs` | src/main.rs:424-444 | digests and codes are printed in lower-case hexadecimal, high digit first |
| `GatewayRequests.TrimSlashesIs` | src/main.rs:403-408 | the origin printed is the given one without the slashes at its end |
| `SignedUrl.RelayAccepts` | relay/src/bin/server.rs:443-459 | the relay accepts the printed file name, expiry and signature for every tenant and rebuilds the same path |
| `SignedUrl.PathAccepted` | relay/src/lib.rs:94-105 | a printed path passes the image-path check whatever its query |
| `SignedUrl.ReadRequest` | src/bin/context-image-gateway.rs:132-147 | the loop stops at the first point where an empty line is in, refuses 16 KiB without one, and reads nothing beyond |
| `SignedUrl.TargetParsed` | src/bin/context-image-gateway.rs:153-180 | the gateway parses back the file name, expiry and signature that were printed |
| `SignedUrl.GatewayServes` | src/bin/context-image-gateway.rs:132-212 | under a printed URL the gateway serves exactly what the named file holds while now is not past the expiry, and refuses a file over the limit or an expired URL |
| `SignedUrl.PublishedIsServedIff` | src/bin/context-image-gateway.rs:132-212 | after publishing into any cache, the printed URL serves the published image if and only if its name was free or held it already |
| `SignedUrl.CutFileIsServed` | src/main.rs:426-428 | a file cut short by an interrupted write is never repaired by publishing again, and is what the printed URL serves |
| `SignedUrl.ServedIsSigned` | src/bin/context-image-gateway.rs:132-212 | over all requests: something is served exactly for a GET or HEAD with a code over its own name and expiry, not after it, for a cached file within the limit, and it is that file |
| `GatewayRequests.HandleAnswers` | src/bin/context-image-gateway.rs:132-212 | every request text gets the answer stated on its characters: 400, 405, 403, 404, no answer, 413 or the file, with its type |
| `GatewayRequests.FirstLineIff` | src/bin/context-image-gateway.rs:148-152 | the line up to the first line feed, without the carriage return before it |
| `GatewayRequests.NextWordIff` | src/bin/context-image-gateway.rs:153-155 | words are what blanks separate |
| `GatewayRequests.QueryIff` | src/bin/context-image-gateway.rs:207-212 | a parameter is the first piece between ampersands that begins with its name and an equals sign |
| `GatewayRequests.ImagePathIff` | relay/src/lib.rs:94-105 | a path is an image's exactly when it is `/image/`, 64 hexadecimal digits, a dot, one of four extensions, and at most a query |
| `SignedUrl.CodeServesOnlyItsOwn` | src/bin/context-image-gateway.rs:170-223 | a request that presents the code issued for one name and expiry is served with that name and expiry only |
| `SignedUrl.ContentTypeFits` | src/bin/context-image-gateway.rs:225-235 | the content type served names the image type of the extension |
| `SignedUrl.PublishedImageArrives` | relay/src/bin/server.rs:438-515 | from publisher through relay, client and gateway and back: the reader gets the published bytes |
| `SignedUrl.HypothesesAreMet` | src/main.rs:423-444 | a cache of two published images that meets every hypothesis about digests, names and contents |
| `Calendar.NextDayIsOneMore` | src/main.rs:1974-1985 | the closed-form day number grows by one from each date to the next under the Gregorian rules |
| `Calendar.CountingReaches` | src/main.rs:1974-1985 | walking day by day from one date reaches any later one in exactly the difference of their numbers |
| `Calendar.NumberIncreases` | src/main.rs:1974-1985 | later dates have larger numbers |
| `Calendar.EpochIsZero` | src/main.rs:1985-1985 | 1970-01-01 has number 0 |
| `Calendar.WrittenStampParses` | src/main.rs:1918-1991 | every timestamp written in digits, of a real date or not, is read exactly when month, day, time and zone are within the parser's bounds and its instant is not before the epoch, and then as that instant |
| `Calendar.StampParses` | src/main.rs:1918-1991 | any timestamp of a real four-digit-year date, with any fraction and zone, is read as its instant in milliseconds, or refused before the epoch |
| `Calendar.SameInstantSameMillis` | src/main.rs:1955-1990 | one instant written with any two zones gives the same milliseconds |
| `Calendar.NoSuchDate` | src/main.rs:1918-1926 | a date that does not exist is read if and only if its day runs past its month but not past 31 and its instant is not before the epoch; it then equals the stamp of the day of the next month it runs on to |
| `Calendar.ReadsOnlyDatesIff` | src/main.rs:1918-1926 | for instants from the epoch on, being read and naming a real date coincide if and only if the day does not run past its month within 31 |
| `Calendar.ThirtiethOfFebruary` | src/main.rs:1918-1991 | 2024-02-30T00:00:00Z is read, as 2024-03-01T00:00:00Z |
| `Calendar.PadMillis` | src/main.rs:1947-1950 | the padding loop computes the specified three digits |
| `Chunking.SplitLongPiece` | src/main.rs:1729-1746 | pieces of a long line are the line, none is empty or over the target, and every piece but the last is full |
| `Chunking.ChunkByEstimatedTokens` | src/main.rs:1695-1727 | chunks are the text, none is empty, and for a target of at least 2 each is within it and any three in a row hold the target less one |
| `Chunking.ChunkCount` | src/main.rs:1695-1727 | the number of chunks is bounded by the tokens of the text |
| `Chunking.TokensCount` | src/main.rs:1748-1762 | the estimate of a text is its characters plus those outside ASCII |
| `Chunking.MapReduceSummary` | src/main.rs:1561-1607 | within four rounds, whatever the summariser returns: each round cuts the joined summaries of the one before into dense chunks within the target; the result is the combination of the first parts that fit in one or their text, the joined parts of the fourth round, or nothing when the text is empty or a part fails |

## Left out

- The `Notify` of a poll, and fairness of the locks: a poll that waits may wake at any time; `NoDeadlock` is about enabled steps, not about time.
- HTTP routing, JSON bodies and header syntax of the relay: a handler starts with its parsed arguments.
- The client's outer loop, its waits, re-registration and tunnel connections: `RelayClient` covers one round of polling.
- RelayClient.HonestAnswerArrives: the schedule in which nobody runs in between; in any other, `HonestAnswerIsTaken` decides whether the post is taken and `FinishedPostIsReceived` that a reader which still waits gets it.
- RelayClient.ReaderGetsPublishedBytes: the published files and the key stay as they are; only the gateway's clock differs from request to request.
- Registration proof of work, tenant-store files, graceful shutdown and TLS: foreign calls and files.
- Reading a ClientHello and bridging WebSocket bytes: a routed connection starts with its server name. No bound on live tunnels is claimed, because the permit is released when routing ends.
- Link, IP and TCP header parsing of captured packets: field extraction at fixed offsets; `Reassembly` starts at segments.
- The correlation of reports by time and identifier, and the walk that collects a schema: filters and a traversal; `Schema` starts at collected fields.
- Sequence wrap-around, chunked trailers and close-delimited responses beyond the exact conditions stated above.
- HttpRoundTrip.RoundTrip: header lines are ASCII without carriage returns, because a sender that follows RFC 9112 writes no others, and the four fields that are read stand together, each at most once.
- Chunking.MapReduceSummary: the wording of prompts is left out; a task carries the part, its index, the count and the round.
- Chunking.ChunkByEstimatedTokens: for a target below 2 only the text and non-emptiness are stated, because one non-ASCII character alone is over that target.
- RolloutFixpoint.CleaningReachesAFixedPoint: its condition on media types is about each kept value as it stands before inline images are scrubbed, because previews of attached images are written into the record first.
- Rollout.CleanRollout: the number of removed bytes is not part of the statistics, and the file's own metadata checks, backups and reports are left out.
- Calendar.StampParses: years of more than four digits and fields with a sign are parsed by the model but not covered. The source's unchecked arithmetic can overflow 64 bits there, on the year, and on hour, minute, second and zone fields, which have no lower bound; the model's integers do not.
- SignedUrl.GatewayServes: a request is its text after lossy UTF-8 decoding; the response's other header lines are left out.
- SQLite repairs, the live probe process, argument parsing, logging, status and report writing, `mcp/server.mjs`, scripts and deployment files: plumbing or wrappers without a deep property.
