# Proofs about the Intra network stack

Intra turns a device's traffic into ordinary sockets, with two twists: a TCP connection whose first
reply does not come is silently dialed again with its first message cut in two, and DNS queries go to a
DNS-over-HTTPS server. This project models the stateful parts of that code in Dafny and proves what
they promise.

## The parts

* **The split-retry connection** (`intra/split/retrier.go`). `RetryProtocol` is a state machine: the
  thread that reads, the thread that writes or copies, the callers of CloseRead and CloseWrite, the
  mutex, the one-way flags, and two sockets. One event is what an actor does between two
  synchronization points; the network, the dialer, the clock and the random generator choose how an
  event ends, within the contracts of Go's interfaces. `RetryInvariant` is an inductive invariant in
  small pieces, and `RetryTheorems` states what follows for every run. `RetryTrail` says the same of what callers
  are told and of when there is a retry, in terms of what the network has answered. `RetryFindings` gives runs that
  show where the switch is not transparent. `RetrierObject` is the struct itself, updated in place; each
  method is proved to be one step of the machine, and `RetrierObject.Run` shows that every run of the
  machine is a run of the object.
* **The splitter** (`intra/split/direct_split.go`): `SplitterObject`, over the sockets of `Sockets` and the cut
  of `SplitHello`.
* **The DNS codec**: `DnsMessage` stands in for `golang.org/x/net/dns/dnsmessage`, which the code calls.
  It follows section 4.1 of RFC 1035, with name compression, and section 6.1.2 of RFC 6891.
  `DnsRoundTrip` proves that nothing is lost, `DnsExamples` compares a message with its bytes, `DnsOffsets` says
  what moving records does to their size, and `DnsId` what the ID means for the rest.
* **EDNS padding and SERVFAIL** (`intra/doh/padding.go`, `Servfail` in `intra/doh/doh.go`): `Padding`,
  `PaddingTheorems`, `PaddingSize`, `PaddingFindings`, `ServfailResponse`. See section 3 of RFC 7830 and section
  4.1 of RFC 8467.
* **A DoH query** (`doQuery`): `DohTransport.Ask` is what the caller is to see, `DohTransport.Transport` the
  code with the aliased buffers, `TransportTheorems` what the caller may rely on, and `TransportFindings` what
  not (the ID 0 is section 4.1 of RFC 8484). `Hangover` is the rate limiter over whole runs with concurrent queries.
* **DNS over a TCP socket** (`Accept`, `forwardQuery`): `Framing`. See section 4.2.2 of RFC 1035 and section
  8 of RFC 7766.
* **The address cache and dialing** (`intra/doh/ipmap/ipmap.go`, `dial`): `IpSets`, `IpSetProtocol`, `Dial`.
* **The UDP association table** (`intra/udp.go`): `UdpProtocol` is the machine of fetch goroutines and
  calls, `UdpTheorems` its invariant and theorems, `UdpAnswers` what doDoh closes, and `UdpFindings` its
  shortcomings. `UdpHistory` reads the table, the totals, the deadlines and the calls under way off the events of a
  run alone, without the handler's state, and proves that the handler agrees in every run. `UdpHandlerObject` is
  the handler with its trackers, updated in place.

## Where the code differs from what one would expect

The code is modelled as it is. The lemmas named show each of these, at a concrete input or run where that takes one,
and say when it happens.

* A write that fails while `hello` is replayed ends the retry at once (retrier.go:183-188). Bytes that Write reported
  as written are then missing from the new socket, and half-close state and deadlines have not been copied:
  `FailedReplayIsNotTransparent`, `FailedReplayDropsDeadline`. `ExactlyOnce`, `HalfCloseSurvives` and
  `WriteDeadlineSurvives` are equivalences.
* ReadFrom returns too small a count when it has copied more than one chunk before the switch, since retrier.go:291
  assigns instead of adding: `ReadFromUndercounts`, `ReadFromCount`.
* A read deadline set before the first reply is cleared by the switch (retrier.go:167): `ReadDeadlineIsForgotten`,
  `ReadDeadlineAfterSwitch`. The comment at retrier.go:199 suggests that it is carried over.
* The `break` at padding.go:71 leaves the `switch` and not the loop, so the padding goes into the last OPT record,
  although the comment speaks of "the" OPT record: `FindOpt`, `LastOpt`.
* A padded message of more than 16 KB with records after the OPT can miss the block size, because names slip out of
  the reach of compression pointers: `LongMessageMissesTheBlock`, `PaddedSize`.
* A query that was padded already is sent with its ID overwritten in place. That changes a name that a compression
  pointer reads from the ID, unless it is empty: `ZeroIdChangesQuestion`, `PostedIsPaddedQuery`.
* A query whose request could not be built loses its ID, if it was padded already (doh.go:270-275): `LostId`,
  `CallerSliceIsRestored`. A transport made by NewTransport, which has parsed its URL (doh.go:161), never takes that
  branch.
* A failed query's server is disconfirmed by sendRequest, and confirmed again by doQuery (doh.go:304-307):
  `Transport.DoQuery`.
* Accept drops a query that does not arrive in exactly two reads, one for its length and one for the rest:
  `ShortReadDropsQuery`, `Accept`.
* dial returns neither a connection nor an error for a set without addresses: `DialEmptySet`, `DialSet`.
* A UDP association that ReceiveTo uses just after its read has timed out is removed too soon: `EarlyRemoval`,
  `RemovalNeedsIdleness`. So is one whose connection was closed and connected again while the goroutine of the first
  socket was about to close it: `RemovedByAnother`, `RemovalNeedsPassedDeadline`.
* Connecting a UDP connection that is in the table already leaks the older socket: `LostSocket`,
  `LeakJustOnReconnect`.
* doDoh tests whether its association is unused and closes it in two steps (udp.go:143-146), so traffic that comes
  in between is lost, as the comment there admits: `MixedUseIsClosed`, `DohReportsWhatCameLater`.

## Model

| member | source | states |
|---|---|---|
| RetryTheorems.ExactlyOnce | intra/split/retrier.go:149-274 | In every interleaving, whenever no retry is running, the current socket has been sent exactly the bytes that finished Writes reported, in order, plus the logged part of the Write under way, if and only if the replay was whole; it is whole unless a replay write failed, and otherwise what is missing is one stretch of `hello` |
| RetryTheorems.NothingLost | intra/split/retrier.go:233-300 | With an idle writer and no failed replay write, the current socket has been sent exactly what was passed to Write and pulled by ReadFrom if and only if no call reported a shortfall |
| RetryTheorems.HelloIsWhatWasWritten | intra/split/retrier.go:56-58 | `hello` is exactly what was written before the first read, and empty afterwards; the byte statistic is its length |
| RetryTheorems.SingleSource | intra/split/retrier.go:149-203 | At most one retry and one closing of the flag; Read has returned exactly what the current socket delivered, except for data that came with the first read's error when the redial failed too |
| RetryTheorems.SwitchIsFinal | intra/split/retrier.go:38-48 | Once the flag is closed, no step of anybody replaces the current socket or touches the abandoned one: what the current one has been sent and read, and what is shut on it, only grows |
| RetryTheorems.HalfCloseSurvives | intra/split/retrier.go:189-212 | However a close call interleaves with the retry, once both are over the half is shut on the current socket, if and only if no replay write failed or a close call came after the redial |
| RetryTheorems.OpenHalfStaysOpen | intra/split/retrier.go:189-198 | The switch shuts no half that the caller did not close |
| RetryTheorems.WriteDeadlineSurvives | intra/split/retrier.go:199-201 | Outside the retry, the caller's write deadline is in force on the current socket if and only if no replay write failed, or it was set after the redial, or there is none |
| RetryTheorems.ReadDeadlineAfterSwitch | intra/split/retrier.go:331-342 | After the switch, the read deadline in force is the last one set since it was cleared at line 167; so the caller's is in force if and only if it was set since then, or there is none |
| RetryTheorems.ParkedWriterIsWatched | intra/split/retrier.go:241-267 | A writer waiting for the flag does not hold the mutex; meanwhile the provisional socket has a read deadline, and SetReadDeadline leaves it alone |
| RetryTheorems.NeverStuck | intra/split/retrier.go:155-170 | While a writer waits after the reader's socket read has returned, some step that leads to its release is possible: no deadlock |
| RetryTheorems.WaitingGetsShorter | intra/split/retrier.go:155-267 | Each such step decreases a measure in two parts, whatever the network does; no other step increases the first part, the steps that reader and writer still have to make (a close call that takes the mutex adds its own two steps to the second) |
| RetryTheorems.WriterIsReleased | intra/split/retrier.go:261-268 | From every such state there is a run that takes the waiting writer to its last write |
| RetryTheorems.ReadFromCount | intra/split/retrier.go:289-300 | ReadFrom's result is at most the number of bytes it moved, short by exactly what the assignment at line 291 has overwritten |
| RetryTrail.RetryJustOnError | intra/split/retrier.go:149-203 | In every run, the read that closes the flag leads to exactly one retry if it has failed, by a timeout or otherwise, and to none if it has not; the current socket is another one if and only if a redial was tried and has succeeded; a read that returns nothing leaves the flag open; the timeout statistic says whether that error was a timeout |
| RetryTrail.ReadReturnsLastAnswer | intra/split/retrier.go:149-203 | Read returns, with data and error, what the network answered last: its socket, the redial, the replay or the new socket |
| RetryTrail.DeadlinesDuringReread | intra/split/retrier.go:199-202 | While the retry reads from the new socket, the caller's two deadlines are in force there |
| RetryTrail.ReplyIsDueInTime | intra/split/retrier.go:242-254 | Until the switch, the provisional socket's read deadline is the timeout after the last provisional write, and none before the first; the chunk statistic counts those writes |
| RetryTrail.WriteErrorsAreFinal | intra/split/retrier.go:233-274 | Write reports a short count only with an error, and an error if and only if its last socket write failed, which is never one to the provisional socket |
| RetryTrail.ReadFromStopsAtLoss | intra/split/retrier.go:289-300 | While a ReadFrom is in progress it has lost no byte |
| RetryTrail.ReadFromEndsJustOnError | intra/split/retrier.go:289-300 | ReadFrom ends if and only if a final socket write or a pull has failed, or the source has ended |
| RetryTrail.NoLockAfterSwitch | intra/split/retrier.go:38-48 | Once the flag is closed, calls of Read, Write and ReadFrom do not take the mutex |
| RetryTrail.OnlyLocksHoldThreads | intra/split/retrier.go:149-349 | In every reachable state a thread waits for the mutex, or after a failed provisional write for the flag, and otherwise can go on with every outcome that Go's interfaces allow |
| RetryTheorems.StepKeepsInv | intra/split/retrier.go:149-349 | Every step of every actor keeps the invariant: mutex ownership, switch phase, byte logs, close state, deadlines |
| RetryTheorems.RunKeepsInv | intra/split/retrier.go:149-349 | So does every run, of any length |
| RetryFindings.FailedReplayIsNotTransparent | intra/split/retrier.go:183-188 | A run in which an accepted byte and a finished CloseWrite are lost |
| RetryFindings.FailedReplayDropsDeadline | intra/split/retrier.go:183-188 | A run in which the caller's write deadline is not in force after the retry |
| RetryFindings.ReadFromUndercounts | intra/split/retrier.go:291 | A run in which ReadFrom moves a byte and returns 0 |
| RetryFindings.ReadDeadlineIsForgotten | intra/split/retrier.go:166-167 | A run in which the caller's read deadline is not in force after the first reply |
| SplitHello.Split | intra/split/retrier.go:214-230 | The two parts rejoin to the input; the first has 1 to 64 bytes and no more than the second if there are at least 2 bytes, at least 32 if there are at least 64, and none below 2 |
| RetrierObject.Run | intra/split/retrier.go:120-349 | The object makes every run of the machine, and so only reaches states that the theorems are about |
| RetrierObject.Retrier.Perform | intra/split/retrier.go:149-349 | Each step of the machine, made on the object, gives exactly the machine's next state |
| RetrierObject.Retrier.RetrySplits | intra/split/retrier.go:177-188 | A retry in which nothing fails sends `hello` to the new socket in exactly two segments, within the bounds of the cut |
| SplitterObject.Splitter.Write | intra/split/direct_split.go:48-64 | The socket is sent exactly the bytes reported; only the first call makes two segments, which rejoin to the argument |
| SplitterObject.Splitter.WriteAll | intra/split/direct_split.go:48-64 | Over any run of writes with any errors, the socket's log is the concatenation of the reported prefixes, and at most one write made an extra segment |
| SplitterObject.Splitter.CopyOnce | intra/split/retrier.go:277-287 | A source error moves nothing; otherwise the chunk's reported prefix is sent |
| SplitterObject.Splitter.ReadFrom | intra/split/direct_split.go:66-80 | The count is exactly the number of bytes sent, which are a prefix of the source: all of it when nothing fails |
| DnsRoundTrip.RoundTrip | intra/doh/padding.go:107-117 | Unpacking inverts packing for every message that fits the wire, name compression included, whatever follows it |
| DnsRoundTrip.PackNameOk | intra/doh/padding.go:116-117 | A compressed name reads back, and so does every suffix that it adds to the compression dictionary |
| DnsRoundTrip.UnpackedIsPackable | intra/doh/padding.go:60-63 | Every message that was parsed can be packed again |
| DnsExamples.ExampleOnTheWire | intra/doh/padding.go:107-117 | A message with a question, a record with a compressed name and an OPT record, and its bytes, in both directions |
| DnsExamples.FlagPositions | intra/doh/padding.go:60-63 | Each flag of the header, at its bit |
| Padding.ComputePaddingSize | intra/doh/padding.go:39-46 | Less than a block, and the message with the option's header and data fills whole blocks |
| Padding.LastOpt | intra/doh/padding.go:65-73 | The OPT record that the search ends with is the last one |
| Padding.FindOpt | intra/doh/padding.go:67-73 | The loop finds the last OPT record |
| Padding.FindPadding | intra/doh/padding.go:77-81 | The loop finds a padding option if and only if there is one |
| Padding.AddEdnsPaddingStepwise | intra/doh/padding.go:59-118 | The function with its loops and its updated message computes the specification function that the theorems are about |
| PaddingTheorems.PaddingKeepsMeaning | intra/doh/padding.go:59-118 | The padded message parses to the original with exactly one padding option more, of zeros and less than a block, in the last OPT record or in a fresh one; a message that was padded already comes back byte for byte |
| PaddingTheorems.WhatPaddingAdds | intra/doh/padding.go:84-117 | Record by record: a message without OPT gets one record at the end, of the root name, class 65535 and TTL 0, whose one option is the padding; otherwise the record count stays, and only the last OPT gets one option at its end, unless it has option 12 already |
| PaddingTheorems.PaddingIsIdempotent | intra/doh/padding.go:75-81 | Padding twice is padding once, byte for byte |
| PaddingSize.PaddedSize | intra/doh/padding.go:106-117 | Said of the message before it is padded: its size after padding is a whole number of blocks plus the growth of the records after the OPT when they move by the size of the option; it is a multiple of 128 if and only if that growth is; and there is no growth if and only if no name after the OPT ends in one that a record after the OPT wrote at an offset that slips out of the reach of a compression pointer |
| PaddingSize.GrowthIsSpill | intra/doh/padding.go:106-117 | The same for a move by any number of bytes, and the records never shrink |
| DnsOffsets.ResourcesShift | intra/doh/padding.go:106-117 | The same for any records at any place, with the compression dictionary at that place |
| PaddingSize.ShortMessageKeepsTail | intra/doh/padding.go:106-117 | Nothing slips out of reach when no record follows the OPT, or the message with the option has at most 16384 bytes |
| PaddingSize.PaddingFillsBlocks | intra/doh/padding.go:111-117 | So the padded message fills whole blocks when the OPT was added, when it is the last record, or when the message with the option has at most 16384 bytes |
| PaddingTheorems.PaddingSucceeds | intra/doh/padding.go:59-118 | Padding succeeds if and only if the message parses and is padded already or has room for the option |
| PaddingTheorems.RoomForRecord | intra/doh/padding.go:98-110 | The first pack fails only for want of room for one more record |
| PaddingFindings.LongMessageMissesTheBlock | intra/doh/padding.go:111-117 | A message of 16408 bytes that is padded to 16513 |
| ServfailResponse.ServfailAnswers | intra/doh/doh.go:546-564 | A SERVFAIL is made if and only if the query parses; it is a response with RCODE 2 and recursion available, and has the ID, every other flag, the questions, answers and authorities of the query, and no additional records |
| ServfailResponse.ServfailIgnoresPadding | intra/doh/doh.go:255-302 | The padded query and the original get the same SERVFAIL, so that the hangover path and the failure path answer alike |
| ServfailResponse.PaddingKeepsId | intra/doh/doh.go:261-270 | The padded query starts with the ID of the original |
| DohTransport.PadSlice | intra/doh/doh.go:261-266 | AddEdnsPadding returns the caller's own slice just if the query was padded already |
| DohTransport.Transport.SendRequest | intra/doh/doh.go:311-427 | A failure closes the connection that was used and leaves its address unconfirmed for the host that was asked, which a redirect may have changed; no other host's set changes |
| DohTransport.Transport.Exchange | intra/doh/doh.go:268-299 | The request goes out with the ID 0, the buffer gets its ID back, and a failure other than SendFailed starts the hangover |
| DohTransport.Transport.DoQuery | intra/doh/doh.go:246-309 | The code, which works in place on a slice that may be the caller's, does what the specification `Ask` says: status, response, body posted, caller's slice, hangover; the server of a query that was sent ends up confirmed for the host that was asked, and no other host's set changes |
| TransportTheorems.WhenPosted | intra/doh/doh.go:246-276 | A query is posted if and only if it has two bytes, comes outside the hangover, can be padded and becomes a request; every other outcome with its status and response, and none of them moves the hangover |
| TransportTheorems.ReplyDecides | intra/doh/doh.go:278-299 | A posted query succeeds if and only if the reply has HTTP status 200 and a body that starts with two zero bytes, and then gets that body under its own ID; each other reply has its own failure status and the query's SERVFAIL; every failure but that to send starts a hangover of 10 seconds |
| TransportTheorems.FailureIsServfail | intra/doh/doh.go:240-245 | A failure has no response or a SERVFAIL for the query, every flag and section of it as above; it has one if the query parses and became a request |
| TransportTheorems.PostedIsPaddedQuery | intra/doh/doh.go:261-278 | What is posted always parses, to the query with the ID 0 and one padding option more; a query that was padded already is posted as it is with the ID 0, and parses to itself with the ID 0 if and only if every compression pointer to the ID leads to an empty name |
| DnsId.ZeroedId | intra/doh/doh.go:268-270 | The same for any message: zeroing its ID leaves a message that parses, and that differs in the ID only if and only if every compression pointer to the ID leads to an empty name |
| TransportFindings.ZeroIdChangesQuestion | intra/doh/doh.go:268-270 | A padded query whose question is another one once the ID is zeroed |
| TransportTheorems.CallerSliceIsRestored | intra/doh/doh.go:268-281 | A corollary of DoQuery: the caller's slice is unchanged on return, except if and only if no request could be built from an already padded query with a nonzero ID |
| TransportFindings.LostId | intra/doh/doh.go:270-275 | A query that loses its ID in that way |
| Hangover.StepKeepsInv | intra/doh/doh.go:252-299 | The end of the hangover never moves back |
| Hangover.HangoverLimitsQueries | intra/doh/doh.go:252-299 | In every interleaving, a query is admitted if and only if no query that was sent has failed, other than in sending, in the last 10 seconds; without overlapping queries, such failures are at least 10 seconds apart |
| Hangover.QueryIsRun | intra/doh/doh.go:252-299 | A query as `Ask` describes it is a run of this machine: the same hangover comes of it, and it is sent in the one just if something is posted in the other |
| Framing.DeframeInvertsFrames | intra/doh/doh.go:487-491 | A concatenation of frames reads back as exactly the messages in it |
| Framing.FrameOnTheWire | intra/doh/doh.go:487-491 | A frame is the length, high byte first, and the message |
| Framing.ReadQuery | intra/doh/doh.go:515-537 | There is a query if and only if the next two reads get a whole frame; then it is the first frame of the stream, and the socket is left just behind it |
| Framing.Accept | intra/doh/doh.go:512-543 | However the socket cuts the stream, the dispatched queries are a prefix of its ideal deframing, and all of it if and only if the reads line up with the frames; then the socket is closed |
| Framing.ShortReadDropsQuery | intra/doh/doh.go:524-527 | A stream of one whole frame of which nothing is dispatched |
| Framing.ForwardQuery | intra/doh/doh.go:477-499 | One write of one frame, or nothing; an error is returned just if the write did not succeed or the query had failed |
| Framing.ForwardQueryAndCheck | intra/doh/doh.go:503-508 | From its answer on, whatever it is, the goroutine's output and close are the steps of the worker machine; it closes the socket if and only if the query or the write failed or the response has more than 65535 bytes |
| Framing.OutputDeframes | intra/doh/doh.go:477-499 | For any number of queries finishing in any order, the output reads back as the responses of the workers whose write succeeded, one each, in the order of the writes; if a failed write left bytes behind, those written before it still come first |
| Framing.ResponseBeforeClose | intra/doh/doh.go:477-508 | In every run, a finished worker has written its response if it fits a frame and the write did not fail, an empty one for a nil response without an error, and nothing else; it closes the socket only if its query or its write failed or its response was too long |
| IpSets.EqualIsCanon | intra/doh/ipmap/ipmap.go:85-92 | Equality of addresses, across the 4-byte and the 16-byte form, is equality of one canonical form |
| IpSets.MappedAddress | intra/doh/ipmap/ipmap.go:85-92 | An IPv4 address equals exactly one address of 16 bytes, its IPv4-mapped form |
| IpSets.AddAllCanons | intra/doh/ipmap/ipmap.go:103-114 | Adding is set union up to equality; no duplicates arise, and what was there stays in place |
| IpSets.IPSet.HasIp | intra/doh/ipmap/ipmap.go:85-92 | The loop finds an equal address if and only if there is one |
| IpSets.IPSet.Add | intra/doh/ipmap/ipmap.go:103-114 | The set becomes its union with what the resolver returned |
| IpSets.IPSet.GetAll | intra/doh/ipmap/ipmap.go:125-133 | A fresh array, a permutation of the set, which is unchanged |
| IpSets.IPSet.Confirm | intra/doh/ipmap/ipmap.go:143-154 | The address ends up confirmed, and in the set if it is not nil |
| IpSets.IPSet.Disconfirm | intra/doh/ipmap/ipmap.go:158-164 | The confirmed address is forgotten if and only if it equals the argument |
| IpSetProtocol.StepKeepsInv | intra/doh/ipmap/ipmap.go:103-164 | In every interleaving a set only grows, has no duplicates, and contains its confirmed address |
| IpSetProtocol.Linearizable | intra/doh/ipmap/ipmap.go:103-164 | Concurrent Add, Confirm (with its check outside the write lock) and Disconfirm are equivalent to atomic calls in one order. At every moment of the run the order holds just the calls that have begun and are not under way, each once and with its own operation, and it is a prefix of the final order: so a call takes effect between its beginning and its end, and precedes every call that begins later. Nil is not counted as an address |
| IpSetProtocol.SharedIPSet.Perform | intra/doh/ipmap/ipmap.go:103-164 | Each step of a call, made on the object, gives exactly the machine's next state |
| IpSetProtocol.Run | intra/doh/ipmap/ipmap.go:103-164 | The object makes every run of the machine |
| IpSetProtocol.GetIsConsistent | intra/doh/ipmap/ipmap.go:49-73 | Concurrent Gets return the same set if and only if they are for the same host |
| IpSetProtocol.SharedIpMap.Perform | intra/doh/ipmap/ipmap.go:49-73 | Each step of a Get, made on the object, gives exactly the machine's next state |
| IpSetProtocol.RunGets | intra/doh/ipmap/ipmap.go:49-73 | The object makes every run of the machine |
| IpSetProtocol.IpMap.Insert | intra/doh/ipmap/ipmap.go:60-70 | A set that another call has inserted meanwhile wins |
| IpSetProtocol.IpMap.Get | intra/doh/ipmap/ipmap.go:49-73 | A known host gives its set and changes nothing; a new one gets a set of what the resolver returned |
| Dial.TryAll | intra/doh/doh.go:137-148 | The loop tries each member other than the confirmed one once, until one works |
| Dial.DialSet | intra/doh/doh.go:124-149 | No address is tried twice, the confirmed one comes first, the first success ends the search, no connection means that every address was tried, and then there is an error unless the set has no address |
| Dial.DialEmptySet | intra/doh/doh.go:148 | A call that returns neither a connection nor an error |
| UdpTheorems.SocketsAreConserved | intra/udp.go:115-189 | In every interleaving, each opened socket is in exactly one place: about to enter the table, in it, displaced from it, or closed; and it was reported once if it is closed, and otherwise not |
| UdpTheorems.NothingIsLost | intra/udp.go:115-189 | If no connection is connected twice, none is displaced |
| UdpTheorems.ReportsAreTotals | intra/udp.go:182-187 | The listener is told exactly the upload and download counted before the removal |
| UdpTheorems.DeadlineIsLastActivity | intra/udp.go:98-100 | A socket's deadline is its last activity plus the timeout |
| UdpTheorems.ExpiryNeedsIdleness | intra/udp.go:98-103 | No read times out before the socket has been idle for the timeout |
| UdpTheorems.RemovalNeedsIdleness | intra/udp.go:93-103 | If an association is removed by a goroutine whose read timed out, and the read was its own, it has been idle for the timeout if and only if no ReceiveTo came between the read and the removal, save one that was itself a timeout ago; if the read was another's, the connection has been connected twice |
| UdpTheorems.RemovalNeedsPassedDeadline | intra/udp.go:93-103 | Whoever's goroutine removes an association, it has been idle for the timeout if and only if its deadline has passed at that moment, or has never been set |
| UdpTheorems.StepKeepsInv | intra/udp.go:90-189 | Every step of every goroutine keeps the invariant behind these theorems |
| UdpAnswers.DohClosesUnused | intra/udp.go:139-146 | An association that was removed for doDoh belongs to the connection of a DNS query whose socket had no upload and no download in the log when the answer came |
| UdpAnswers.AnswerDecides | intra/udp.go:139-146 | An answer leaves a call that is to close its socket's connection if and only if the log has no upload and no download of the socket, and otherwise leaves nothing behind |
| UdpAnswers.CloseStaysDue | intra/udp.go:143-146 | In every run, such a call stays due until it runs |
| UdpAnswers.CloseRuns | intra/udp.go:176-189 | Once a closing call has run, the connection has no association; the one it had is closed and reported once with its logged totals |
| UdpAnswers.DohReportsWhatCameLater | intra/udp.go:139-147 | What doDoh's Close reports of its socket is exactly the traffic between the answer and the removal |
| UdpHistory.TableIsHistory | intra/udp.go:115-189 | In every run, a connection reaches the socket connected last for it, unless it was closed since by a call or by the end of a goroutine; a socket is open until its connection is closed while it reaches the socket |
| UdpHistory.TotalsAreHistory | intra/udp.go:105-106 | In every run, the upload counted for a socket is the sum of the packets sent through it, and the download the sum of the datagrams read from it, but for one that is being counted |
| UdpHistory.DeadlineIsHistory | intra/udp.go:98-160 | In every run, a socket's deadline is the timeout after its goroutine last began to read or a packet, DNS or not, last came for it |
| UdpHistory.CallsAreHistory | intra/udp.go:131-174 | In every run, the calls under way are those that the events tell: packets that found a socket until sent or resolved, closes until run, and the closes that doDoh owes because nothing was sent or read through its socket before the answer |
| UdpHistory.PacketsAreSorted | intra/udp.go:150-168 | A call first sets the deadline; then it can send if and only if its packet is not for the DNS server, and resolve, or close after that, if and only if it is |
| UdpHistory.FetchRunsInOrder | intra/udp.go:90-113 | In every run, a goroutine can take a step if and only if it is the next one of its loop, with an open socket to read from and a passed deadline to time out; it closes just if a read or a write to the connection has failed |
| UdpHistory.CallersAreFree | intra/udp.go:115-189 | Connect, ReceiveTo and Close can be called at any time |
| UdpFindings.LeakJustOnReconnect | intra/udp.go:122-126 | A run leaves some open socket, whose goroutine has started, outside the table if and only if some Connect found its connection in the table |
| UdpFindings.LostSocket | intra/udp.go:122-126 | A run that does so |
| UdpFindings.DisplacedForEver | intra/udp.go:176-189 | A displaced socket is never closed |
| UdpFindings.EarlyRemoval | intra/udp.go:93-103 | A run in which an association is removed at the very moment of its last activity |
| UdpFindings.RemovedByAnother | intra/udp.go:93-103 | A run in which a goroutine whose read timed out removes another socket at the very moment of that one's last activity, although no Connect found its connection in the table |
| UdpFindings.MixedUseIsClosed | intra/udp.go:139-146 | A run in which doDoh closes a socket that has sent other traffic by then |
| UdpHandlerObject.Run | intra/udp.go:80-189 | The handler makes every run of the machine, and so only reaches states that the theorems are about |
| UdpHandlerObject.UdpHandler.Perform | intra/udp.go:90-189 | Each step, made on the object and its trackers, gives exactly the machine's next state |

## Left out

- RetryTheorems.WriterIsReleased: says that a run of helpful steps exists; that a scheduler takes it, and does not let close calls take the mutex for ever, is not modelled.
- UdpTheorems.ReportsAreTotals: the increments of `upload` and `download` are single steps, although Go's `+=` on a shared field is not atomic.
- UdpTheorems.DeadlineIsLastActivity: reading the clock and setting the deadline are one step.
- DohTransport.Transport.SendRequest: the HTTP exchange, its trace and its timeouts are one choice of the network (no reply, an unreadable body, or a status and a body); the connections of a redirected request other than the last are not modelled.
- Framing.OutputDeframes: says nothing of the output from the first torn write on, where frames cannot be told apart any more.
- DnsMessage: the codec has no limit of 255 bytes a name, and follows any number of pointers but only backwards, where the library follows 10 in any direction; it keeps the RDATA of all types but OPT as it is, while the library also compresses names inside RDATA; it accepts messages of any length.
- Hangover and the concurrent forwardQuery calls are state machines on values; a single query (`Hangover.QueryIsRun`) and a single worker (`Framing.ForwardQueryAndCheck`) are tied to them.
- retrier: `Close` from a third thread and two threads closing the same half are outside the documented use; `LocalAddr` and `RemoteAddr` have no state of their own.
- retrier: the value of the retry timeout, which comes from the round-trip time, is any number; the SNI statistic belongs to a library.
- retrier: `Chunks` and `Split` (16 bits) and `Bytes` (32 bits) are unbounded numbers.
- ReadFrom of a TCP socket is the standard library's; it is a loop that pulls and writes until the source or the socket fails.
- Randomness of the split size and of the shuffle: any value that the generator may return.
- `Query` around doQuery only measures time and tells the listener; NewTransport, URL parsing and TLS set-up are wiring.
- `fakedns` comparison, SetDNS, socket duration and the failure of ListenPacket in intra/udp.go: one-branch logic without shared state.
- tunnel, outline, shadowsocks, protect, the SNI reporter and the platform front ends: wiring around libraries.
