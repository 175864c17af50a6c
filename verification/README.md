# Verified models of the xrtcserver support code

The request handlers of this repository are thin; the hard properties are in the code below them: the
event loop, shared buffers, the configuration language, the checksum, the TLS adapters and address
arithmetic. This project models that code in Dafny and proves what it keeps over whole runs.

`dafny verify dfyconfig.toml` checks everything.

Code that updates objects in place is modelled by classes with the same fields and methods. The methods
are proved against functions on a state value, and the properties of runs are lemmas about those
functions. What the operating system, the SSL engine, other threads and user handlers decide is a
parameter of the calls, so a lemma about all call sequences covers all their behaviours.

| module | models |
|---|---|
| `SocketServer`, `SocketRuns`, `SocketSignals` | sockets, the two dispatcher maps, the kernel's interest list, batches of updates, both wait loops, handlers as arbitrary sequences of public calls; whole runs; which signals readiness makes |
| `Crc32` | the table and the update loop, against polynomial division (section 8 of RFC 1952) |
| `Buffers` | `BufferT` with its growth policy and the cost of copying |
| `ScopedRefptrs` | intrusive reference counts and the handles that hold them |
| `CopyOnWrite`, `CopyOnWriteRuns` | copy-on-write buffers on top of those two, one call and whole runs |
| `BufferQueues` | the bounded packet queue that recycles buffers |
| `ByteBuffers` | the typed byte writer and reader, with varints and both byte orders |
| `IpAddresses` | truncation, mask counting and order of addresses |
| `AsyncResolvers` | the resolver's worker, posted task and self-deletion, for every interleaving |
| `SslAdapters` | sending through an engine that blocks in the middle of a write |
| `SslStreamAdapters` | the handshake states, certificate verification and the retransmission timer |
| `Stats` | `walkStats` and `filterStats` on possibly cyclic graphs |
| `GoStrings`, `ConfigStores`, `ConfigLines`, `ConfigTexts`, `ConfigRoundTrips`, `ConfigWritings`, `ConfigValues`, `ConfigCycles` | goconfig: strings, the store, one line, whole texts, the round trip, files written by hand, references in values and their cycles |

## Where the code does less than one would expect

Each of these is a theorem with the exact condition, or a concrete run.

- A socket that rejoins the interest list inside its own batch with events already enabled (a datagram
  `Create`) is watched by the kernel although it wants nothing, if nothing is enabled at the end of the
  batch: `BatchEndExact`, and `EagerRunLags` for a whole run. Stream sockets reopened by `Connect` are not
  affected, unless they were armed while closed; `IsEager` is the condition before the call, and `TameRun`
  a rule for handlers that avoids it.
- A retry of a blocked TLS write that the engine takes in part is offered whole again, so bytes go out
  twice: `ExactIffNoPartialRetry`, `PartialRetryRepeats`. A read handler that meets a fatal error in
  `OnWriteEvent` does not stop the retry behind it: `StoppedIffGuarded`, `HandlerErrorThenRetry`.
- `Destroy` between the task's check and its completion makes the completion use a deleted resolver:
  `MisusedIffOverlapped`. The completion itself is one step there, handlers included: a `Destroy` from another
  thread between its statements is not among the schedules.
- Appending nothing to a null copy-on-write buffer breaks the consistency the class states (`AppendData`).
- Growing through `EnsureCapacity` has no amortised bound: `GrowExactly`.
- A configuration value with a backtick and no double quote is printed in double quotes that the reader
  does not take off (`ValueRoundTrip`, `DoubleValue`); a default section without keys is lost
  (`EmptyDefaultVanishes`); the comments of keys outlive their section (`SectionLeavesKeyComments`).
- A reference to a name that ends in `s` looks up the name without it: `StripGivesName`.
- Cyclic default values recurse without end, and only they: `EndlessIffCyclic`, for values made of text and
  references with at most 200 names each; `CycleHasNoValue` covers first references in any texts. Between the
  two lie texts in which a percent sign does more than start a reference, and values with more than 200 names
  whose first 200 avoid the cycle.
- 200 rounds are not always enough: `DefaultIsFull` counts names; for other sections `OwnIsFull` gives the
  exact condition on the rounds and two bounds that can be counted beforehand.
- `operator==` of copy-on-write buffers tells a null buffer from an empty one (`Equals`).

## Model

| member | source | states |
|---|---|---|
| SocketServer.KernelFollows | cpp/rtcbase/src/rtc_base/physical_socket_server.cc:862-880 | In every state that keeps the invariant, the kernel entry of a registered socket carries its key, and its mask equals that of the saved events inside a batch and of the enabled events outside, if and only if the socket is not stale |
| SocketServer.RanKeeps | cpp/rtcbase/src/rtc_base/physical_socket_server.cc:1105-1154 | Every run keeps the invariant: the two dispatcher maps are inverse, the kernel watches registered descriptors only, issued keys keep their meaning, and no batch is left running |
| SocketServer.DeliveredAsGathered | cpp/rtcbase/src/rtc_base/physical_socket_server.cc:1440-1455 | However handlers close, reopen and create sockets, a gathered event reaches the dispatcher that had its key when it was gathered, on the descriptor it had then, or is dropped |
| SocketServer.WatchedAreRegistered | cpp/rtcbase/src/rtc_base/physical_socket_server.cc:1352-1390 | Everything the kernel watches stands under a live key |
| SocketServer.CalledKeeps | cpp/rtcbase/src/rtc_base/physical_socket_server.cc:901-919 | Every public call, inside a handler or outside, keeps the invariant, the keys and the batches; it counts as eager exactly when the checkable predicate IsEager held before it |
| SocketServer.AllCalledKeeps | cpp/rtcbase/src/rtc_base/physical_socket_server.cc:804-860 | Any sequence of calls a handler makes keeps the invariant, the keys and the batches |
| SocketServer.FiveSignals | cpp/rtcbase/src/rtc_base/physical_socket_server.cc:827-856 | The signals are connect, accept, read, write and close, each disabled before its handler runs |
| SocketServer.SignalledKeeps | cpp/rtcbase/src/rtc_base/physical_socket_server.cc:827-846 | Disabling an event and running its handler keeps the invariant and the batches |
| SocketServer.BatchHandledKeeps | cpp/rtcbase/src/rtc_base/physical_socket_server.cc:820-860 | All signals of one event, in order, keep the invariant and the batches |
| SocketServer.EventKeeps | cpp/rtcbase/src/rtc_base/physical_socket_server.cc:804-860 | An event, whatever its handlers do, keeps the invariant, runs only its own batch, and leaves none running |
| SocketServer.ProcessedKeeps | cpp/rtcbase/src/rtc_base/physical_socket_server.cc:1175-1224 | The same for a ready descriptor, for every combination of readiness, error and end of stream |
| SocketServer.BatchStartedKeeps | cpp/rtcbase/src/rtc_base/physical_socket_server.cc:862-865 | Freezing the reference events keeps the invariant |
| SocketServer.BatchFinishedKeeps | cpp/rtcbase/src/rtc_base/physical_socket_server.cc:867-872 | Reporting the accumulated change at the end of a batch keeps the invariant, also if the socket was closed or reopened meanwhile |
| SocketServer.WithEventsKeeps | cpp/rtcbase/src/rtc_base/physical_socket_server.cc:874-899 | A change of enabled events keeps the invariant, in a batch or not |
| SocketServer.AddedKeeps | cpp/rtcbase/src/rtc_base/physical_socket_server.cc:1105-1120 | Registering an open, unwatched socket keeps the invariant; adding it twice changes nothing |
| SocketServer.RemovedKeeps | cpp/rtcbase/src/rtc_base/physical_socket_server.cc:901-919 | Removal, with the saved events zeroed as Close does, keeps the invariant and takes the socket off both maps and the kernel |
| SocketServer.UpdatedKeeps | cpp/rtcbase/src/rtc_base/physical_socket_server.cc:1140-1154 | An update outside a batch makes up for any change of events |
| SocketServer.ClosedKeeps | cpp/rtcbase/src/rtc_base/physical_socket_server.cc:901-919 | Close keeps the invariant and the batch, unregisters the socket and gives its descriptor up; on a closed socket it does nothing |
| SocketServer.OpenedKeeps | cpp/rtcbase/src/rtc_base/physical_socket_server.cc:145-161 | Reopening gives the new descriptor, unwatched so far, with all events enabled for datagram sockets and the saved events of the close |
| SocketServer.CreatedKeeps | cpp/rtcbase/src/rtc_base/physical_socket_server.cc:636-686 | Create keeps the invariant, registers the socket if and only if the system gave a descriptor, and is eager exactly in the stated case |
| SocketServer.ConnectedKeeps | cpp/rtcbase/src/rtc_base/physical_socket_server.cc:234-274 | Connect, with a socket created on demand and each outcome, keeps the invariant and is eager exactly when that creation is |
| SocketServer.AcceptedKeeps | cpp/rtcbase/src/rtc_base/physical_socket_server.cc:463-477 | Accept re-arms the listener, registers the new socket, keeps the invariant, and is never eager |
| SocketServer.CreateSocketKeeps | cpp/rtcbase/src/rtc_base/physical_socket_server.cc:1085-1097 | A socket made by the server keeps the invariant and is never eager |
| SocketServer.PhysicalSocketServer.Add | cpp/rtcbase/src/rtc_base/physical_socket_server.cc:1105-1120 | A registered dispatcher is left alone; a new one gets the next key in both maps and an interest entry of its enabled events |
| SocketServer.PhysicalSocketServer.AddEpoll | cpp/rtcbase/src/rtc_base/physical_socket_server.cc:1352-1369 | The interest entry has the mask of the enabled events and the key given; eager additions are recorded |
| SocketServer.PhysicalSocketServer.Remove | cpp/rtcbase/src/rtc_base/physical_socket_server.cc:1122-1138 | An unknown dispatcher is ignored; a known one leaves both maps and the interest list |
| SocketServer.PhysicalSocketServer.Update | cpp/rtcbase/src/rtc_base/physical_socket_server.cc:1140-1154 | Of a known dispatcher, the interest entry gets the mask enabled now; nothing else changes |
| SocketServer.PhysicalSocketServer.MaybeUpdateDispatcher | cpp/rtcbase/src/rtc_base/physical_socket_server.cc:874-880 | The kernel is told only outside a batch and only if the mask changed |
| SocketServer.PhysicalSocketServer.SetEnabledEvents | cpp/rtcbase/src/rtc_base/physical_socket_server.cc:881-886 | Replaces the enabled events and tells the kernel as needed |
| SocketServer.PhysicalSocketServer.EnableEvents | cpp/rtcbase/src/rtc_base/physical_socket_server.cc:887-892 | Adds events and tells the kernel as needed |
| SocketServer.PhysicalSocketServer.DisableEvents | cpp/rtcbase/src/rtc_base/physical_socket_server.cc:893-899 | Takes events away and tells the kernel as needed |
| SocketServer.PhysicalSocketServer.StartBatchedEventUpdates | cpp/rtcbase/src/rtc_base/physical_socket_server.cc:862-865 | The events enabled now become the reference |
| SocketServer.PhysicalSocketServer.FinishBatchedEventUpdates | cpp/rtcbase/src/rtc_base/physical_socket_server.cc:867-872 | The reference ends, and the difference to it is reported |
| SocketServer.PhysicalSocketServer.CloseSocket | cpp/rtcbase/src/rtc_base/physical_socket_server.cc:901-919 | The saved events are zeroed before the removal, then the descriptor, the state and the events are cleared |
| SocketServer.PhysicalSocketServer.CreateOn | cpp/rtcbase/src/rtc_base/physical_socket_server.cc:658-686 | Closes, opens, enables datagram events, then registers; reports whether a descriptor was obtained |
| SocketServer.PhysicalSocketServer.ConnectOn | cpp/rtcbase/src/rtc_base/physical_socket_server.cc:234-274 | Refuses an open state, creates on demand, and enables read and write, plus connect while in progress |
| SocketServer.PhysicalSocketServer.AcceptOn | cpp/rtcbase/src/rtc_base/physical_socket_server.cc:463-477 | Enables accept first; a new descriptor becomes a connected registered socket |
| SocketServer.PhysicalSocketServer.CreateSocketOn | cpp/rtcbase/src/rtc_base/physical_socket_server.cc:1085-1097 | A new dispatcher, created and registered |
| SocketServer.PhysicalSocketServer.Call | cpp/rtcbase/src/rtc_base/physical_socket_server.cc:344-461 | Send re-enables write when blocked, Recv re-enables read on success or for datagrams, Listen enables accept, and the others as above |
| SocketServer.PhysicalSocketServer.DisableAndSignal | cpp/rtcbase/src/rtc_base/physical_socket_server.cc:827-846 | The event is disabled before its handler runs, and only if it fired; the signal is recorded |
| SocketServer.PhysicalSocketServer.HandleBatch | cpp/rtcbase/src/rtc_base/physical_socket_server.cc:827-856 | Connect, accept, read, write and close are signalled in that order |
| SocketServer.PhysicalSocketServer.OnEvent | cpp/rtcbase/src/rtc_base/physical_socket_server.cc:804-860 | States first, then the batch around all signals: the resulting state is the one EventKeeps speaks about |
| SocketServer.PhysicalSocketServer.ProcessEvents | cpp/rtcbase/src/rtc_base/physical_socket_server.cc:1175-1224 | Which events readiness stands for: accept, close on error or end of stream, read; connect, close or write |
| SocketServer.PhysicalSocketServer.Deliver | cpp/rtcbase/src/rtc_base/physical_socket_server.cc:1440-1455 | A live key's dispatcher gets the event; the signals made are recorded with the delivery |
| SocketServer.PhysicalSocketServer.WaitEpoll | cpp/rtcbase/src/rtc_base/physical_socket_server.cc:1409-1468 | Events are copied out first and looked up by key afterwards; every delivery is to the dispatcher and descriptor gathered, with the signals that SocketSignals characterises |
| SocketServer.PhysicalSocketServer.WaitSelect | cpp/rtcbase/src/rtc_base/physical_socket_server.cc:1226-1350 | Each key's descriptor is asked for again after handlers ran and then leaves the sets, yet the round acts as if all had been read beforehand, and every delivery is to the dispatcher and descriptor of the start |
| SocketServer.PhysicalSocketServer.FillSets | cpp/rtcbase/src/rtc_base/physical_socket_server.cc:1258-1285 | The sets hold, for each live key, the mask of the events enabled then |
| SocketServer.PhysicalSocketServer.HandleSelected | cpp/rtcbase/src/rtc_base/physical_socket_server.cc:1312-1331 | One key's turn: a dead key is skipped, a live one gets the readiness its descriptor had |
| SocketRuns.KernelNeverLags | cpp/rtcbase/src/rtc_base/physical_socket_server.cc:804-919 | Over every run of public calls and event rounds in which no handler's call is eager when made (the socket recreated in its own batch with events already enabled), each registered socket has the kernel mask of exactly its enabled events, under its own key |
| SocketRuns.KernelNeverLagsInside | cpp/rtcbase/src/rtc_base/physical_socket_server.cc:804-880 | In such a run, after any prefix of the calls of any handler of any event: only the handled socket is in a batch, and each kernel mask is that of the saved events in the own batch and of the enabled events otherwise |
| SocketRuns.InsideEvent | cpp/rtcbase/src/rtc_base/physical_socket_server.cc:804-860 | The same from any state between events |
| SocketRuns.RunCount | cpp/rtcbase/src/rtc_base/physical_socket_server.cc:901-919 | The count of eager additions stays put exactly if no handler's call of the run is eager when made |
| SocketRuns.CallsCount | cpp/rtcbase/src/rtc_base/physical_socket_server.cc:804-860 | The same for the calls of one handler |
| SocketRuns.TameRun | cpp/rtcbase/src/rtc_base/physical_socket_server.cc:145-161 | If no handler of a socket's event makes a datagram Create of that socket or arms it while it is closed, no call of the run is eager |
| SocketRuns.TameCalls | cpp/rtcbase/src/rtc_base/physical_socket_server.cc:145-161 | The same for the calls of one handler, and a closed socket then wants nothing |
| SocketRuns.BatchEndExact | cpp/rtcbase/src/rtc_base/physical_socket_server.cc:867-880 | The end of a batch brings the kernel up to date unless, just before it, the kernel mask differs from that of the saved events and nothing is enabled; both directions |
| SocketRuns.EagerCreate | cpp/rtcbase/src/rtc_base/physical_socket_server.cc:145-161 | A datagram Create inside the own batch joins the interest list for input and output although the saved events are none |
| SocketRuns.EagerReopenLags | cpp/rtcbase/src/rtc_base/physical_socket_server.cc:804-860 | A datagram socket that its write handler recreates during an error event ends registered with nothing enabled and the kernel still watching for input and output |
| SocketRuns.EagerRunLags | cpp/rtcbase/src/rtc_base/physical_socket_server.cc:1175-1224 | A whole run from the empty server that ends so: a datagram socket is made, and one round reports it readable, writable and in error |
| SocketSignals.EventsAreWanted | cpp/rtcbase/src/rtc_base/physical_socket_server.cc:851-860 | Over every run without eager calls, the events of a round are, in order, those of its entries for registered sockets, and none other; each is readable exactly if the descriptor is ready for input and the socket has DeRead or DeAccept enabled, writable exactly if it is ready for output and the socket has DeWrite or DeConnect enabled |
| SocketSignals.SelectReports | cpp/rtcbase/src/rtc_base/physical_socket_server.cc:1258-1285 | The fallback loop reports the same of each key whose descriptor is answered for, in every state |
| SocketSignals.RoundTells | cpp/rtcbase/src/rtc_base/physical_socket_server.cc:1409-1468 | In such a run, the signals made for each entry of a round are given by readiness and by what the socket waited for when the round began and when its turn came: connect if writable without error and connecting, accept if readable and listening, read if readable without error or end of stream, write if writable and not connecting, close otherwise; none if an earlier handler closed it |
| SocketSignals.SelectTells | cpp/rtcbase/src/rtc_base/physical_socket_server.cc:1312-1331 | The same for each answered key of a round of the fallback loop |
| SocketSignals.SocketTold | cpp/rtcbase/src/rtc_base/physical_socket_server.cc:1175-1224 | A registered socket whose descriptor alone is ready gets exactly the listed signals, in order, to the handler of each |
| SocketSignals.ListenThenAccept | cpp/rtcbase/src/rtc_base/physical_socket_server.cc:449-461 | After Listen, a descriptor ready for input runs the accept handler |
| SocketSignals.RecvThenRead | cpp/rtcbase/src/rtc_base/physical_socket_server.cc:394-421 | After Recv, data without error or end of stream runs the read handler, unless the socket listens |
| SocketSignals.SendThenWrite | cpp/rtcbase/src/rtc_base/physical_socket_server.cc:344-367 | After a blocked Send, room runs the write handler, unless the socket is connecting |
| SocketSignals.ConnectThenTold | cpp/rtcbase/src/rtc_base/physical_socket_server.cc:253-274 | After a Connect in progress, readiness for output runs the connect handler, or the close handler if there is an error |
| SocketSignals.ConnectedThenTold | cpp/rtcbase/src/rtc_base/physical_socket_server.cc:253-274 | After a Connect that succeeds at once, data, the end and room run their handlers; a refused one changes nothing |
| SocketSignals.AcceptThenTold | cpp/rtcbase/src/rtc_base/physical_socket_server.cc:463-477 | An accepted connection hears of data, the end and room at once |
| SocketSignals.CreateThenTold | cpp/rtcbase/src/rtc_base/physical_socket_server.cc:658-686 | A new datagram socket hears of data and room at once, a new stream socket of nothing |
| SocketSignals.CloseThenNothing | cpp/rtcbase/src/rtc_base/physical_socket_server.cc:901-919 | A closed socket hears nothing more of its old descriptor |
| SocketSignals.ToldOnce | cpp/rtcbase/src/rtc_base/physical_socket_server.cc:827-846 | With handlers that make no call, each event told is enabled no longer, and none is after a close; the state becomes connected or closed |
| SocketSignals.NotToldAgain | cpp/rtcbase/src/rtc_base/physical_socket_server.cc:827-846 | A socket whose handlers never call it is told of data and room once, however its descriptor is found later |
| SocketSignals.FailedThenRetried | cpp/rtcbase/src/rtc_base/physical_socket_server.cc:804-818 | A connection that failed can be attempted again, and is told of as before |
| SocketSignals.MadeThenKept | cpp/rtcbase/src/rtc_base/physical_socket_server.cc:234-239 | A connection that was made is not attempted again |
| Crc32.PolynomialIsConstant | cpp/rtcbase/src/rtc_base/crc32.cc:21 | The 32 bits of the divisor are 0xEDB88320 |
| Crc32.FeedIsRemainder | cpp/rtcbase/src/rtc_base/crc32.cc:23-48 | The register after any message is the schoolbook remainder of the message with 32 zeros appended, for every divisor and starting value |
| Crc32.CrcIsRemainder | cpp/rtcbase/src/rtc_base/crc32.cc:39-48 | The same for the checksum with its complements |
| Crc32.CrcIsInverted | cpp/rtcbase/src/rtc_base/crc32.cc:39-48 | Bit by bit: the leading 32 coefficients are inverted where the starting value has a zero, and every bit of the remainder is inverted |
| Crc32.LoadCrc32Table | cpp/rtcbase/src/rtc_base/crc32.cc:23-37 | Each of the 256 entries is the index fed through eight bit steps |
| Crc32.TableEntry | cpp/rtcbase/src/rtc_base/crc32.cc:27-34 | The inner loop computes that entry |
| Crc32.UpdateCrc32 | cpp/rtcbase/src/rtc_base/crc32.cc:39-48 | The table-driven loop equals the bit-at-a-time checksum on every input and starting value |
| Crc32.LookupStep | cpp/rtcbase/src/rtc_base/crc32.cc:42-46 | One lookup on the low bits stands for as many single steps |
| Crc32.ByteStep | cpp/rtcbase/src/rtc_base/crc32.cc:42-46 | One round of the byte loop equals feeding the byte bit by bit |
| Crc32.UpdateConcat | cpp/rtcbase/src/rtc_base/crc32.h:21-31 | Updating with a and then b is one update with their concatenation |
| Crc32.FeedLinear | cpp/rtcbase/src/rtc_base/crc32.cc:39-48 | The register is linear over exclusive or in register and message |
| Crc32.FeedInjective | cpp/rtcbase/src/rtc_base/crc32.cc:39-48 | For a fixed message, different registers stay different |
| Crc32.ErrorSurvives | cpp/rtcbase/src/rtc_base/crc32.cc:39-48 | A nonzero error of at most 32 bits leaves a nonzero register |
| Crc32.BurstDetected | cpp/rtcbase/src/rtc_base/crc32.cc:39-48 | Two messages that differ only inside 32 consecutive bits have different checksums, whatever surrounds them |
| Crc32.WindowDetected | cpp/rtcbase/src/rtc_base/crc32.cc:39-48 | Equal-length messages that differ only inside a window of at most four bytes have different checksums |
| Buffers.BufferT.constructor | cpp/rtcbase/src/rtc_base/buffer.h:90-97 | The capacity is the larger of size and capacity, and a zero capacity has no block |
| Buffers.BufferT.EnsureCapacityWithHeadroom | cpp/rtcbase/src/rtc_base/buffer.h:358-380 | Contents survive; a reallocation copies them once, to exactly the capacity asked for or, with headroom, at least 1.5 times the old one |
| Buffers.BufferT.AppendData | cpp/rtcbase/src/rtc_base/buffer.h:261-269 | The contents grow by exactly the source, and the amortised bounds survive |
| Buffers.BufferT.AppendFromSetter | cpp/rtcbase/src/rtc_base/buffer.h:306-317 | The contents grow by what the setter wrote, out of the room reserved |
| Buffers.BufferT.SetData | cpp/rtcbase/src/rtc_base/buffer.h:207-215 | The contents are the source, without copying old elements, and the bounds survive |
| Buffers.BufferT.SetSize | cpp/rtcbase/src/rtc_base/buffer.h:323-330 | The common part stays; the size, the capacity and the elements copied are exactly determined; the bounds survive |
| Buffers.BufferT.EnsureCapacity | cpp/rtcbase/src/rtc_base/buffer.h:335-341 | Contents stay; the capacity becomes exactly the one asked for if that is larger |
| Buffers.BufferT.Clear | cpp/rtcbase/src/rtc_base/buffer.h:343-346 | The contents are gone, the block stays |
| Buffers.RunFromEmpty | cpp/rtcbase/src/rtc_base/buffer.h:261-269 | Over any run of appends, overwrites and resizes from empty, elements copied are at most three times the capacity, and the capacity at most 1.5 times the largest size asked for |
| Buffers.GrowExactly | cpp/rtcbase/src/rtc_base/buffer.h:335-341 | Growing by one through EnsureCapacity copies quadratically often, and from eight elements on breaks the bound |
| Buffers.TriangleIsQuadratic | cpp/rtcbase/src/rtc_base/buffer.h:335-341 | That cost in closed form |
| ScopedRefptrs.RefCountedBuffer.AddRef | cpp/rtcbase/src/rtc_base/ref_counted_object.h:37 | The count grows by one |
| ScopedRefptrs.RefCountedBuffer.Release | cpp/rtcbase/src/rtc_base/ref_counted_object.h:39-45 | The count falls by one, and the object is deleted exactly when that was the last reference |
| ScopedRefptrs.AssignedKeeps | cpp/rtcbase/src/api/scoped_refptr.h:121-129 | Assignment, self-assignment included, keeps every count equal to the number of handles and never deletes what a handle holds |
| ScopedRefptrs.HandleSetKeeps | cpp/rtcbase/src/api/scoped_refptr.h:76-76 | A null handle may come and go without touching a count |
| ScopedRefptrs.DestroyedKeeps | cpp/rtcbase/src/api/scoped_refptr.h:100-103 | The destructor keeps all counts exact |
| ScopedRefptrs.TransferKeeps | cpp/rtcbase/src/api/scoped_refptr.h:95-119 | release into another handle moves the reference without touching a count |
| ScopedRefptrs.SwapKeeps | cpp/rtcbase/src/api/scoped_refptr.h:151-157 | A swap, with itself included, keeps all counts exact |
| ScopedRefptrs.MoveAssignSteps | cpp/rtcbase/src/api/scoped_refptr.h:140-143 | The temporary, its swap and its destruction add up to: the target lets its object go, takes the source's pointer, and the source is null; a self-move changes nothing |
| ScopedRefptrs.DeletedIffUnheld | cpp/rtcbase/src/rtc_base/ref_counted_object.h:39-45 | In every state that keeps the invariant an object once held is deleted if and only if no handle points to it |
| ScopedRefptrs.OneRefMeansAlone | cpp/rtcbase/src/rtc_base/ref_counter.h:54-66 | A count of one means, both ways, that no other handle points to the object |
| ScopedRefptrs.CopyKeeps | cpp/rtcbase/src/api/scoped_refptr.h:83-86 | A copy keeps all counts exact |
| ScopedRefptrs.TakeKeeps | cpp/rtcbase/src/api/scoped_refptr.h:95-95 | So does a move construction |
| ScopedRefptrs.MoveKeeps | cpp/rtcbase/src/api/scoped_refptr.h:140-143 | So does a move assignment, to itself included |
| ScopedRefptrs.RunFromNothing | cpp/rtcbase/src/api/scoped_refptr.h:78-157 | Over any run of creations, copies, moves, assignments, swaps and destructions: a count is the number of handles, an object is deleted if and only if it was held and no handle is left, and no handle points to a deleted object |
| ScopedRefptrs.DeletedForGood | cpp/rtcbase/src/rtc_base/ref_counted_object.h:39-45 | Over any run what is deleted stays deleted with its count untouched: no object is deleted twice |
| ScopedRefptrs.ScopedRefptr.constructor | cpp/rtcbase/src/api/scoped_refptr.h:76-76 | A new handle is null and the invariant holds |
| ScopedRefptrs.ScopedRefptr.Copy | cpp/rtcbase/src/api/scoped_refptr.h:83-86 | A copy shares the object and is counted |
| ScopedRefptrs.ScopedRefptr.AssignRaw | cpp/rtcbase/src/api/scoped_refptr.h:121-129 | The new object is referenced before the old one is released, with the result AssignedKeeps speaks about |
| ScopedRefptrs.ScopedRefptr.MoveAssign | cpp/rtcbase/src/api/scoped_refptr.h:140-143 | All counts stay exact and the pointers move as stated |
| ScopedRefptrs.ScopedRefptr.TakeFrom | cpp/rtcbase/src/api/scoped_refptr.h:95-119 | The move constructor leaves the source null |
| ScopedRefptrs.ScopedRefptr.Swap | cpp/rtcbase/src/api/scoped_refptr.h:151-157 | The two pointers change places, no count changes |
| ScopedRefptrs.ScopedRefptr.Destroy | cpp/rtcbase/src/api/scoped_refptr.h:100-103 | The handle is gone and its reference with it |
| ScopedRefptrs.ScopedRefptr.Adopt | cpp/rtcbase/src/api/scoped_refptr.h:121-129 | A handle assigned a new object is its only holder |
| CopyOnWrite.CopyOnWriteBuffer.constructor | cpp/rtcbase/src/rtc_base/copy_on_write_buffer.cc:15-35 | A buffer of the given size, null if and only if size and capacity are zero; no other handle is affected |
| CopyOnWrite.CopyOnWriteBuffer.Copy | cpp/rtcbase/src/rtc_base/copy_on_write_buffer.cc:19-20 | The copy reads the same bytes, and no other handle is affected |
| CopyOnWrite.CopyOnWriteBuffer.Destroy | cpp/rtcbase/src/rtc_base/copy_on_write_buffer.cc:37 | The other handles read what they read before |
| CopyOnWrite.CopyOnWriteBuffer.Alone | cpp/rtcbase/src/rtc_base/copy_on_write_buffer.cc:97-105 | With one reference, no other handle shares the block or its memory |
| CopyOnWrite.CopyOnWriteBuffer.CloneDataIfReferenced | cpp/rtcbase/src/rtc_base/copy_on_write_buffer.cc:97-105 | Afterwards the block is this handle's alone, with the same bytes and the capacity stated; other handles keep their bytes |
| CopyOnWrite.CopyOnWriteBuffer.SetData | cpp/rtcbase/src/rtc_base/copy_on_write_buffer.h:148-158 | This handle reads the source, all others what they did, in the null, shared and unshared case |
| CopyOnWrite.CopyOnWriteBuffer.AppendData | cpp/rtcbase/src/rtc_base/copy_on_write_buffer.h:180-192 | This handle reads its bytes and the source, all others what they did; the stated consistency is lost exactly by appending nothing to a null buffer |
| CopyOnWrite.CopyOnWriteBuffer.AppendBuffer | cpp/rtcbase/src/rtc_base/copy_on_write_buffer.h:202-204 | The same with another buffer's bytes |
| CopyOnWrite.CopyOnWriteBuffer.Assign | cpp/rtcbase/src/rtc_base/copy_on_write_buffer.h:111-118 | This handle reads the other's bytes and shares its block, self-assignment included |
| CopyOnWrite.CopyOnWriteBuffer.MoveAssign | cpp/rtcbase/src/rtc_base/copy_on_write_buffer.h:120-125 | This handle reads the other's bytes, the other is empty, a self-move changes nothing, and third handles are unaffected |
| CopyOnWrite.CopyOnWriteBuffer.SetSize | cpp/rtcbase/src/rtc_base/copy_on_write_buffer.cc:48-66 | The common part stays, other handles keep their bytes, and only the new bytes are unspecified |
| CopyOnWrite.CopyOnWriteBuffer.EnsureCapacity | cpp/rtcbase/src/rtc_base/copy_on_write_buffer.cc:68-83 | No handle's bytes change and the capacity is there |
| CopyOnWrite.CopyOnWriteBuffer.Clear | cpp/rtcbase/src/rtc_base/copy_on_write_buffer.cc:85-95 | This handle reads nothing, all others what they did |
| CopyOnWrite.CopyOnWriteBuffer.Set | cpp/rtcbase/src/rtc_base/copy_on_write_buffer.h:133-136 | One byte of this handle changes, and no other handle sees it |
| CopyOnWrite.CopyOnWriteBuffer.Swap | cpp/rtcbase/src/rtc_base/copy_on_write_buffer.h:222-224 | The two buffers exchange their bytes, and third handles are unaffected |
| CopyOnWrite.CopyOnWriteBuffer.Equals | cpp/rtcbase/src/rtc_base/copy_on_write_buffer.cc:39-46 | True exactly for equal bytes where both or neither are null |
| CopyOnWriteRuns.RunFromEmpty | cpp/rtcbase/src/rtc_base/copy_on_write_buffer.h:148-192 | Any run of constructions, copies, destructions, assignments, moves, swaps, writes, appends, resizes, reservations, clears and indexed writes leaves each buffer reading as its own plain byte string |
| CopyOnWriteRuns.Do | cpp/rtcbase/src/rtc_base/copy_on_write_buffer.h:79-86 | One such call does to all buffers at once what it does to a list of byte strings |
| CopyOnWriteRuns.Step | cpp/rtcbase/src/rtc_base/copy_on_write_buffer.cc:48-105 | A write through one buffer changes its byte string and no other |
| CopyOnWriteRuns.Repoint | cpp/rtcbase/src/rtc_base/copy_on_write_buffer.h:111-125 | Assignments, moves and swaps change the byte strings of the buffers named and no other |
| CopyOnWriteRuns.Construct | cpp/rtcbase/src/rtc_base/copy_on_write_buffer.cc:15-35 | A new or copied buffer joins with its own byte string, and the others stay |
| CopyOnWriteRuns.Destroy | cpp/rtcbase/src/rtc_base/copy_on_write_buffer.cc:37 | A destroyed buffer leaves, and the others stay |
| CopyOnWriteRuns.OneMore | cpp/rtcbase/src/rtc_base/copy_on_write_buffer.h:148-192 | A run of one call more is the run and then the call |
| BufferQueues.BufferQueue.constructor | cpp/rtcbase/src/rtc_base/buffer_queue.cc:20-21 | An empty queue that owns no buffer |
| BufferQueues.BufferQueue.Clear | cpp/rtcbase/src/rtc_base/buffer_queue.cc:36-42 | No packet is left, and every buffer is still owned exactly once |
| BufferQueues.BufferQueue.Requeue | cpp/rtcbase/src/rtc_base/buffer_queue.cc:49-58 | The oldest buffer moves to the end of the free list |
| BufferQueues.BufferQueue.ReadFront | cpp/rtcbase/src/rtc_base/buffer_queue.cc:44-60 | Fails exactly on an empty queue; else gives a prefix of the oldest packet, cut at the size asked for, and drops the rest of it; buffers are conserved |
| BufferQueues.BufferQueue.WriteBack | cpp/rtcbase/src/rtc_base/buffer_queue.cc:62-83 | Fails exactly on a full queue; else the packets grow by the data, and a buffer is allocated only if none is free; the memory used is the queue's own or new |
| BufferQueues.BufferQueue.Prepare | cpp/rtcbase/src/rtc_base/buffer_queue.cc:69-77 | The data is in a recycled buffer or a new one that the queue does not hold yet; waiting packets are untouched |
| BufferQueues.BufferQueue.TakeSpare | cpp/rtcbase/src/rtc_base/buffer_queue.cc:69-75 | A free buffer if there is one, else a new one, which is counted |
| BufferQueues.BufferQueue.PopFree | cpp/rtcbase/src/rtc_base/buffer_queue.cc:70-72 | The most recently freed buffer leaves the list, sharing memory with no other |
| BufferQueues.BufferQueue.Allocate | cpp/rtcbase/src/rtc_base/buffer_queue.cc:73-75 | A new buffer, shared with nobody, is counted |
| BufferQueues.BufferQueue.Fill | cpp/rtcbase/src/rtc_base/buffer_queue.cc:77 | Writing a recycled buffer changes no waiting packet |
| BufferQueues.BufferQueue.Enqueue | cpp/rtcbase/src/rtc_base/buffer_queue.cc:81 | The packet joins at the end; at most capacity buffers exist, each held once |
| BufferQueues.FirstInFirstOut | cpp/rtcbase/src/rtc_base/buffer_queue.cc:36-83 | Over any run of writes, reads and clears on a list of packets: those waiting first and those accepted are, in order, those that left and those waiting at the end, and the answers are explained by them alone |
| BufferQueues.RunFromEmpty | cpp/rtcbase/src/rtc_base/buffer_queue.cc:36-83 | Any run of a new queue, recycling included, answers as the list of packets does; the packets accepted are, in order, those that left and those waiting; at most capacity buffers are ever allocated |
| BufferQueues.OneMore | cpp/rtcbase/src/rtc_base/buffer_queue.cc:36-83 | A run of one call more is the run and then the call |
| BufferQueues.Do | cpp/rtcbase/src/rtc_base/buffer_queue.cc:44-83 | The queue makes the same step, with the same answer, as the list of packets |
| ByteBuffers.NumberOfDigits | cpp/rtcbase/src/rtc_base/byte_buffer.cc:52-105 | Reading the n big-endian bytes of a value gives its n low bytes |
| ByteBuffers.LowIsAll | cpp/rtcbase/src/rtc_base/byte_buffer.cc:52-105 | n bytes hold a value exactly if it is below 2^(8n) |
| ByteBuffers.DigitsOfNumber | cpp/rtcbase/src/rtc_base/byte_buffer.cc:52-105 | Bytes are recovered from the number they spell |
| ByteBuffers.StoredIsNetworkOrder | cpp/rtcbase/src/rtc_base/byte_order.h:166-188 | Swapping and then storing gives network order on little-endian and big-endian hosts |
| ByteBuffers.LoadedIsNumber | cpp/rtcbase/src/rtc_base/byte_order.h:166-188 | Loading and then swapping reads network order on both hosts |
| ByteBuffers.NetworkOrder16 | cpp/rtcbase/src/rtc_base/byte_buffer.cc:52-63 | A 16-bit number goes out with its high byte first |
| ByteBuffers.NetworkOrder24 | cpp/rtcbase/src/rtc_base/byte_buffer.cc:65-79 | So does a 24-bit number, in three bytes |
| ByteBuffers.NetworkOrder32 | cpp/rtcbase/src/rtc_base/byte_buffer.cc:81-92 | So does a 32-bit number, in four bytes |
| ByteBuffers.VarintOrder | cpp/rtcbase/src/rtc_base/byte_buffer.h:62-72 | The least significant group goes out first, with the continuation bit unless it is the last |
| ByteBuffers.OrIsSum | cpp/rtcbase/src/rtc_base/byte_buffer.cc:107-128 | Or-ing a group above all bits so far adds it |
| ByteBuffers.OrSetsBit | cpp/rtcbase/src/rtc_base/byte_buffer.h:62-72 | Or-ing a bit sets it |
| ByteBuffers.Accumulates | cpp/rtcbase/src/rtc_base/byte_buffer.cc:107-128 | One round of the reading loop takes the next group in, modulo 2^64 in the tenth |
| ByteBuffers.GroupRead | cpp/rtcbase/src/rtc_base/byte_buffer.cc:107-128 | The same on a prefix of the input, with no wrap before the tenth group |
| ByteBuffers.VarintIsTerminated | cpp/rtcbase/src/rtc_base/byte_buffer.h:62-72 | All bytes of a varint but the last carry the continuation bit, so its end is found whatever follows |
| ByteBuffers.VarintLength | cpp/rtcbase/src/rtc_base/byte_buffer.h:62-72 | A varint takes the least number of 7-bit groups that hold the value |
| ByteBuffers.VarintAtMostTen | cpp/rtcbase/src/rtc_base/byte_buffer.h:62-72 | Every 64-bit value takes at most ten bytes |
| ByteBuffers.VarintIsMinimal | cpp/rtcbase/src/rtc_base/byte_buffer.cc:107-128 | No encoding the reader accepts is shorter than the one written for the same value |
| ByteBuffers.ValueRoundTrip | cpp/rtcbase/src/rtc_base/byte_buffer.cc:45-151 | Every value of every kind is read back whatever follows; it is unchanged exactly if a 24-bit value is in range |
| ByteBuffers.StreamRoundTrip | cpp/rtcbase/src/rtc_base/byte_buffer.cc:45-151 | A sequence of typed values is read back in order, and what follows it stays unread |
| ByteBuffers.ArrivedIsSent | cpp/rtcbase/src/rtc_base/byte_buffer.h:38-76 | The sequence arrives unchanged if and only if every 24-bit value fits in 24 bits |
| ByteBuffers.CutStreamFails | cpp/rtcbase/src/rtc_base/byte_buffer.cc:45-151 | No proper prefix of a stream reads as the whole: some read fails |
| ByteBuffers.ByteBufferWriter.WriteBytes | cpp/rtcbase/src/rtc_base/byte_buffer.h:76 | The data grows by exactly the bytes |
| ByteBuffers.ByteBufferWriter.WriteUInt8 | cpp/rtcbase/src/rtc_base/byte_buffer.h:38-40 | One byte |
| ByteBuffers.ByteBufferWriter.WriteWord | cpp/rtcbase/src/rtc_base/byte_buffer.h:41-58 | 16, 32 and 64-bit values in network order on either host; the 24-bit case has its own method |
| ByteBuffers.ByteBufferWriter.WriteUInt24 | cpp/rtcbase/src/rtc_base/byte_buffer.h:45-50 | The three low bytes in network order on either host |
| ByteBuffers.ByteBufferWriter.WriteUVarint | cpp/rtcbase/src/rtc_base/byte_buffer.h:62-72 | The loop writes the base-128 groups, least significant first |
| ByteBuffers.ByteBufferWriter.WriteString | cpp/rtcbase/src/rtc_base/byte_buffer.h:73-75 | The bytes of the string |
| ByteBuffers.ByteBufferReader.ReadBytes | cpp/rtcbase/src/rtc_base/byte_buffer.cc:143-151 | Succeeds exactly if enough bytes are ahead, and consumes nothing on failure |
| ByteBuffers.ByteBufferReader.Consume | cpp/rtcbase/src/rtc_base/byte_buffer.cc:153-158 | Skips exactly the bytes asked for, or nothing |
| ByteBuffers.ByteBufferReader.ReadWord | cpp/rtcbase/src/rtc_base/byte_buffer.cc:45-105 | 8, 16, 32 and 64-bit values from network order on either host |
| ByteBuffers.ByteBufferReader.ReadUInt24 | cpp/rtcbase/src/rtc_base/byte_buffer.cc:65-79 | Three bytes behind a zero byte |
| ByteBuffers.ByteBufferReader.ReadUVarint | cpp/rtcbase/src/rtc_base/byte_buffer.cc:107-128 | Succeeds exactly if a terminator lies within ten bytes, with the groups taken modulo 2^64; a failure has consumed the bytes looked at |
| ByteBuffers.Transfer | cpp/rtcbase/src/rtc_base/byte_buffer.cc:45-151 | Values written on any host are read back on any host with nothing left over, unchanged exactly if in range |
| IpAddresses.BitsAreTheAddress | cpp/rtcbase/src/rtc_base/ip_address.cc:82-93 | Addresses of a family are equal exactly if their bits are |
| IpAddresses.TruncateIP | cpp/rtcbase/src/rtc_base/ip_address.cc:364-404 | A negative length gives no address; any other keeps exactly the first bits and clears the rest, also beyond the width |
| IpAddresses.MaskWords | cpp/rtcbase/src/rtc_base/ip_address.cc:380-401 | The IPv6 loop cuts at the right bit of the right word |
| IpAddresses.TruncatedBits | cpp/rtcbase/src/rtc_base/ip_address.cc:364-404 | Word-wise masking keeps a prefix of all 128 bits |
| IpAddresses.TruncateCompose | cpp/rtcbase/src/rtc_base/ip_address.cc:364-404 | Truncating twice is truncating to the shorter length |
| IpAddresses.TruncatedEqual | cpp/rtcbase/src/rtc_base/ip_address.cc:364-404 | Truncated addresses are equal if and only if the prefixes are |
| IpAddresses.TruncatedIsFirst | cpp/rtcbase/src/rtc_base/ip_address.cc:364-404 | The truncated address is the least one with its prefix |
| IpAddresses.TruncateMonotone | cpp/rtcbase/src/rtc_base/ip_address.cc:364-404 | Truncation never reverses operator< |
| IpAddresses.NumberOrder | cpp/rtcbase/src/rtc_base/ip_address.cc:103-126 | Comparing host-order numbers is comparing bits from the most significant on |
| IpAddresses.MemoryOrder | cpp/rtcbase/src/rtc_base/ip_address.cc:103-126 | Comparing the sixteen bytes is comparing the 128 bits |
| IpAddresses.LessIsBitLess | cpp/rtcbase/src/rtc_base/ip_address.cc:103-126 | Within a family operator< is the order of the bits |
| IpAddresses.Trichotomy | cpp/rtcbase/src/rtc_base/ip_address.cc:99-126 | Exactly one of less, equal and greater holds across all families; no address comes first, then IPv4, then IPv6 |
| IpAddresses.LessTransitive | cpp/rtcbase/src/rtc_base/ip_address.cc:103-126 | operator< is transitive |
| IpAddresses.Isolates | cpp/rtcbase/src/rtc_base/ip_address.cc:406-459 | Anding a word with its negative leaves the lowest set bit alone |
| IpAddresses.TrailingZeros | cpp/rtcbase/src/rtc_base/ip_address.cc:430-459 | The five masks find the position of the lowest set bit |
| IpAddresses.CountIPMaskBits | cpp/rtcbase/src/rtc_base/ip_address.cc:406-459 | On every mask: the position of the last set bit behind the leading all-ones words |
| IpAddresses.CountInvertsTruncate | cpp/rtcbase/src/rtc_base/ip_address.cc:406-459 | Counting the mask made by truncating all ones to n gives n, for every valid n of both families |
| IpAddresses.CountRebuildsPrefixes | cpp/rtcbase/src/rtc_base/ip_address.cc:406-459 | A mask is a prefix mask if and only if the count rebuilds it |
| AsyncResolvers.AsyncResolver.Start | cpp/rtcbase/src/rtc_base/async_resolver.cc:122-151 | A worker is under way |
| AsyncResolvers.AsyncResolver.FinishWorker | cpp/rtcbase/src/rtc_base/async_resolver.cc:132-148 | A result is posted if the status is live, dropped if not |
| AsyncResolvers.AsyncResolver.CheckTask | cpp/rtcbase/src/rtc_base/async_resolver.cc:134-142 | The task decides under the lock whether to complete |
| AsyncResolvers.AsyncResolver.ResolveDone | cpp/rtcbase/src/rtc_base/async_resolver.cc:190-196 | Stores the result, signals once, and destroys itself if the handler asked for it |
| AsyncResolvers.AsyncResolver.Destroy | cpp/rtcbase/src/rtc_base/async_resolver.cc:175-182 | Deletes at once, or marks a running completion to do it |
| AsyncResolvers.AsyncResolver.MaybeSelfDestruct | cpp/rtcbase/src/rtc_base/async_resolver.cc:198-204 | Deletes outside a completion; inside, leaves it to the completion |
| AsyncResolvers.StepKeepsSafe | cpp/rtcbase/src/rtc_base/async_resolver.cc:104-204 | A step of any thread, with Destroy outside the task or inside SignalDone, keeps: never used after deletion, deleted exactly as often as destroyed, every start accounted for |
| AsyncResolvers.LastCompletionShows | cpp/rtcbase/src/rtc_base/async_resolver.cc:190-196 | Over every legal run, the object shows the error and addresses of its last completion, and before the first the error -1 and no address |
| AsyncResolvers.CompletionsAreResults | cpp/rtcbase/src/rtc_base/async_resolver.cc:132-148 | Over every legal run from a new resolver, the completions, the one under way and the posted tasks are, in order and each at most once, results that lookups of the run brought; and the object shows the last completion |
| AsyncResolvers.SerialRunIsSafe | cpp/rtcbase/src/rtc_base/async_resolver.cc:104-204 | The same over every interleaving |
| AsyncResolvers.EachStartCompletesAtMostOnce | cpp/rtcbase/src/rtc_base/async_resolver.cc:122-151 | Completions and drops never outnumber starts, and equal them when everything has run down; deletion happens once if Destroy was called, else never |
| AsyncResolvers.DeletedStaysQuiet | cpp/rtcbase/src/rtc_base/async_resolver.cc:106-113 | After the deletion nothing completes |
| AsyncResolvers.LiveLosesNothing | cpp/rtcbase/src/rtc_base/async_resolver.cc:132-148 | Without Destroy no result is dropped |
| AsyncResolvers.DoomedRun | cpp/rtcbase/src/rtc_base/async_resolver.cc:140-146 | Deleted between check and completion, the resolver stays bound to be used after deletion |
| AsyncResolvers.MisusedIffOverlapped | cpp/rtcbase/src/rtc_base/async_resolver.cc:140-146 | A schedule in which the checked tasks finish uses a deleted resolver if and only if some Destroy falls between a task's check and its completion |
| AsyncResolvers.OverlapMisuses | cpp/rtcbase/src/rtc_base/async_resolver.cc:175-182 | The shortest such schedule |
| SslAdapters.OpenSSLAdapter.Cleanup | cpp/rtcbase/src/rtc_base/openssl_adapter.cc:448-470 | State, flags, pending data and session are gone |
| SslAdapters.OpenSSLAdapter.DoSslWrite | cpp/rtcbase/src/rtc_base/openssl_adapter.cc:472-508 | What each answer of the engine does to the flags, the state and the returned count |
| SslAdapters.OpenSSLAdapter.Retry | cpp/rtcbase/src/rtc_base/openssl_adapter.cc:521-535 | Pending data is offered whole, and forgotten only if taken whole |
| SslAdapters.OpenSSLAdapter.Send | cpp/rtcbase/src/rtc_base/openssl_adapter.cc:514-576 | Pending data goes first; a blocked write is kept and reported as sent |
| SslAdapters.OpenSSLAdapter.SendFresh | cpp/rtcbase/src/rtc_base/openssl_adapter.cc:537-576 | Empty data is not written; what is returned is what was taken or kept |
| SslAdapters.OpenSSLAdapter.Recv | cpp/rtcbase/src/rtc_base/openssl_adapter.cc:590-637 | What each answer of the engine does to the flags and the state |
| SslAdapters.OpenSSLAdapter.ContinueSSL | cpp/rtcbase/src/rtc_base/openssl_adapter.cc:387-436 | Connected only after the certificate check; cleaned up if that fails |
| SslAdapters.OpenSSLAdapter.BeginSSL | cpp/rtcbase/src/rtc_base/openssl_adapter.cc:288-385 | A failed first step cleans up |
| SslAdapters.OpenSSLAdapter.StartSSL | cpp/rtcbase/src/rtc_base/openssl_adapter.cc:268-286 | Waits for the connection, or begins |
| SslAdapters.OpenSSLAdapter.OnConnectEvent | cpp/rtcbase/src/rtc_base/openssl_adapter.cc:680-692 | Begins a waiting handshake |
| SslAdapters.OpenSSLAdapter.OnReadEvent | cpp/rtcbase/src/rtc_base/openssl_adapter.cc:694-718 | Continues a handshake; when a write waits for a read, the write handlers run, and may make any calls |
| SslAdapters.OpenSSLAdapter.Step | cpp/rtcbase/src/rtc_base/openssl_adapter.cc:697-710 | The handshake part of both events: a failure ends in the error state |
| SslAdapters.OpenSSLAdapter.OnWriteEvent | cpp/rtcbase/src/rtc_base/openssl_adapter.cc:720-755 | Read handlers run before the retry of pending data, and may make any calls |
| SslAdapters.RetryKeepsValid | cpp/rtcbase/src/rtc_base/openssl_adapter.cc:472-508 | A retry keeps the accounting, and only a partial one repeats bytes |
| SslAdapters.SendKeepsValid | cpp/rtcbase/src/rtc_base/openssl_adapter.cc:537-576 | A fresh write keeps the accounting |
| SslAdapters.NextKeepsValid | cpp/rtcbase/src/rtc_base/openssl_adapter.cc:472-755 | Every call, with nested handlers, keeps the invariant |
| SslAdapters.RunKeepsValid | cpp/rtcbase/src/rtc_base/openssl_adapter.cc:472-576 | Over every run a blocked write is retried with the same bytes until one succeeds or Cleanup runs, and bytes taken plus pending equal bytes reported plus bytes repeated |
| SslAdapters.ExactIffNoPartialRetry | cpp/rtcbase/src/rtc_base/openssl_adapter.cc:514-576 | Bytes taken followed by bytes pending are the bytes reported, in order, if and only if no retry was partial |
| SslAdapters.PartialRetryRepeats | cpp/rtcbase/src/rtc_base/openssl_adapter.cc:720-755 | A partial retry followed by a whole one puts the first byte on the wire twice |
| SslAdapters.WholeRunIsExact | cpp/rtcbase/src/rtc_base/openssl_adapter.cc:514-576 | With an engine that takes whole buffers or nothing, nothing reported is lost, repeated or reordered |
| SslAdapters.SendReportsPrefix | cpp/rtcbase/src/rtc_base/openssl_adapter.cc:514-576 | Send reports a prefix of its data or nothing, and with data pending it succeeds only if the retry took it |
| SslAdapters.StoppedIffGuarded | cpp/rtcbase/src/rtc_base/openssl_adapter.cc:720-755 | Over any run, with handlers nested to any depth, the engine is written to after a fatal error if and only if some write event, connected and with a read waiting for a write, has read handlers that end in the error state with data pending |
| SslAdapters.SilentUntilVerified | cpp/rtcbase/src/rtc_base/openssl_adapter.cc:387-436 | Over every run in which no handshake step completes with a certificate that passes the check, handlers nested to any depth, the connected state is never reached, and nothing was offered to the engine, taken by it, reported as sent or kept pending |
| SslAdapters.CertificateDecides | cpp/rtcbase/src/rtc_base/openssl_adapter.cc:387-436 | A handshake that completes connects exactly with a good certificate; with a bad one no engine is left, and StartSSL and a later step end in the error state |
| SslAdapters.WaitersWake | cpp/rtcbase/src/rtc_base/openssl_adapter.cc:697-745 | A read that waits for a write runs the read handlers at the next write event, a write that waits for a read the write handlers at the next read event, and a write that waits for a write none then |
| SslAdapters.HandlerErrorThenRetry | cpp/rtcbase/src/rtc_base/openssl_adapter.cc:720-755 | A read handler that meets a fatal error does not stop the retry behind it |
| SslStreamAdapters.OpenSSLStreamAdapter.Cleanup | cpp/rtcbase/src/rtc_base/openssl_stream_adapter.cc:971-1011 | Closed or still in error, without engine, chain and timer |
| SslStreamAdapters.OpenSSLStreamAdapter.Error | cpp/rtcbase/src/rtc_base/openssl_stream_adapter.cc:957-969 | The error state survives the cleanup |
| SslStreamAdapters.OpenSSLStreamAdapter.VerifyPeerCertificate | cpp/rtcbase/src/rtc_base/openssl_stream_adapter.cc:1111-1139 | Verified exactly if digest and chain are there and the first certificate has the digest |
| SslStreamAdapters.OpenSSLStreamAdapter.SSLVerifyCallback | cpp/rtcbase/src/rtc_base/openssl_stream_adapter.cc:1176-1201 | Without a digest the chain is kept and accepted for now; with one it is checked at once |
| SslStreamAdapters.OpenSSLStreamAdapter.Negotiate | cpp/rtcbase/src/rtc_base/openssl_stream_adapter.cc:897-915 | The timer is cleared before the step; a refused certificate fails it |
| SslStreamAdapters.OpenSSLStreamAdapter.ContinueSSL | cpp/rtcbase/src/rtc_base/openssl_stream_adapter.cc:897-955 | Opens to the user only when nothing is left to verify |
| SslStreamAdapters.OpenSSLStreamAdapter.BeginSSL | cpp/rtcbase/src/rtc_base/openssl_stream_adapter.cc:852-895 | An engine exists from here on unless its set-up fails |
| SslStreamAdapters.OpenSSLStreamAdapter.StartSSL | cpp/rtcbase/src/rtc_base/openssl_stream_adapter.cc:518-536 | Leaves the clear-text state for good |
| SslStreamAdapters.OpenSSLStreamAdapter.OnOpen | cpp/rtcbase/src/rtc_base/openssl_stream_adapter.cc:762-781 | A waiting handshake begins |
| SslStreamAdapters.OpenSSLStreamAdapter.OnReady | cpp/rtcbase/src/rtc_base/openssl_stream_adapter.cc:782-799 | A handshake continues |
| SslStreamAdapters.OpenSSLStreamAdapter.OnEvent | cpp/rtcbase/src/rtc_base/openssl_stream_adapter.cc:757-818 | The parts in order, ended by a failed handshake |
| SslStreamAdapters.OpenSSLStreamAdapter.OnTimeout | cpp/rtcbase/src/rtc_base/openssl_stream_adapter.cc:825-850 | The timer is spent and the handshake continues |
| SslStreamAdapters.OpenSSLStreamAdapter.SetPeerCertificateDigest | cpp/rtcbase/src/rtc_base/openssl_stream_adapter.cc:329-380 | Refuses a digest of the wrong length; verifies a chain already presented, and ends in error if it does not match |
| SslStreamAdapters.OpenSSLStreamAdapter.FlushInput | cpp/rtcbase/src/rtc_base/openssl_stream_adapter.cc:710-730 | Reads of at most 2048 bytes until nothing is left or an error ends it |
| SslStreamAdapters.OpenSSLStreamAdapter.Read | cpp/rtcbase/src/rtc_base/openssl_stream_adapter.cc:626-708 | Clear text only before StartSSL; the engine only when connected and verified |
| SslStreamAdapters.OpenSSLStreamAdapter.Write | cpp/rtcbase/src/rtc_base/openssl_stream_adapter.cc:557-624 | The same for writes |
| SslStreamAdapters.NegotiatedKeeps | cpp/rtcbase/src/rtc_base/openssl_stream_adapter.cc:897-955 | A handshake step keeps the invariant and only moves on |
| SslStreamAdapters.HeardKeeps | cpp/rtcbase/src/rtc_base/openssl_stream_adapter.cc:1176-1201 | So does the certificate callback |
| SslStreamAdapters.FlushedKeeps | cpp/rtcbase/src/rtc_base/openssl_stream_adapter.cc:710-730 | So does a flush of any length |
| SslStreamAdapters.ReadKeeps | cpp/rtcbase/src/rtc_base/openssl_stream_adapter.cc:557-708 | So do reads and writes |
| SslStreamAdapters.DigestKeeps | cpp/rtcbase/src/rtc_base/openssl_stream_adapter.cc:329-380 | So does setting the digest, whether it matches or not |
| SslStreamAdapters.EventKeeps | cpp/rtcbase/src/rtc_base/openssl_stream_adapter.cc:757-818 | So does an event, part by part |
| SslStreamAdapters.NextKeepsValid | cpp/rtcbase/src/rtc_base/openssl_stream_adapter.cc:757-1011 | So does every call, with scripts of handlers nested to any depth |
| SslStreamAdapters.RunKeepsValid | cpp/rtcbase/src/rtc_base/openssl_stream_adapter.cc:757-1011 | Over every run: an engine exists exactly while connecting or connected, an armed timer means connecting, and a verified chain matches the digest |
| SslStreamAdapters.ClearTextEnds | cpp/rtcbase/src/rtc_base/openssl_stream_adapter.h:140-149 | Once the clear-text state is left, no run returns to it or passes clear text |
| SslStreamAdapters.DataOnlyAfterMatch | cpp/rtcbase/src/rtc_base/openssl_stream_adapter.h:196-203 | With client authentication no application data meets the engine before a certificate the peer presented matched the digest; no use of a dead engine; an armed timer means a live, connecting one |
| SslStreamAdapters.DataHasDigest | cpp/rtcbase/src/rtc_base/openssl_stream_adapter.h:196-203 | With client authentication, once application data has met the engine, the first certificate of some chain the peer presented has exactly the digest that was set |
| SslStreamAdapters.LengthDecides | cpp/rtcbase/src/rtc_base/openssl_stream_adapter.cc:341-356 | A digest is taken exactly if its algorithm is known and its length is that of the algorithm; otherwise nothing changes |
| SslStreamAdapters.LateDigestDecides | cpp/rtcbase/src/rtc_base/openssl_stream_adapter.cc:358-370 | After a handshake without a digest only an adapter that asks for none writes; a digest set then connects the write to the engine exactly if the first certificate has it, and otherwise ends in error |
| SslStreamAdapters.EarlyDigestDecides | cpp/rtcbase/src/rtc_base/openssl_stream_adapter.cc:1111-1139 | The same with the digest set before the handshake |
| SslStreamAdapters.WrongDigestEnds | cpp/rtcbase/src/rtc_base/openssl_stream_adapter.cc:329-380 | A digest that does not match the chain already presented ends in error, and verification succeeds exactly on a match |
| Stats.WalkStats | signaling/static/js/adapter.js:2825-2839 | Terminates on every graph; adds reachable reports only, none twice; on completion everything added has been followed; throws only at a malformed report |
| Stats.WalkField | signaling/static/js/adapter.js:2830-2838 | Names ending in Id lead to one report, names ending in Ids to each of a list; a list that is none throws |
| Stats.WalkIds | signaling/static/js/adapter.js:2834-2836 | Every id of the list that the graph resolves is followed |
| Stats.FilterStats | signaling/static/js/adapter.js:2842-2862 | No track gives nothing. Otherwise it throws if and only if a malformed report is reachable from the RTP reports of the track in the direction; else it returns exactly what is reachable: every report of type "outbound-rtp" ("inbound-rtp" if not outbound) whose trackId is the id of a report of type "track" with that trackIdentifier, and nothing that is not reachable from such a one. Without a report of the type the result is empty |
| Stats.FilterTrack | signaling/static/js/adapter.js:2848-2861 | The part behind the null check |
| Stats.StreamsBelong | signaling/static/js/adapter.js:2848-2856 | The starting points, in words of the reports |
| Stats.StreamsAreIn | signaling/static/js/adapter.js:2855-2859 | All of them are in the result |
| Stats.AllReachedFromStreams | signaling/static/js/adapter.js:2855-2859 | All of the result is reachable from one of them |
| Stats.NeedsStream | signaling/static/js/adapter.js:2843-2856 | Without a report of the direction nothing is found and nothing thrown at |
| Stats.RefersInWords | signaling/static/js/adapter.js:2831-2836 | A reference is a string under a name that ends in Id or an array element under one that ends in Ids, and no name ends in both |
| Stats.WalkStreams | signaling/static/js/adapter.js:2855-2859 | Every stream of one track report is walked |
| Stats.ClosedHoldsReachable | signaling/static/js/adapter.js:2825-2839 | A collection that holds the roots and follows its references holds all that is reachable |
| Stats.GrownMore | signaling/static/js/adapter.js:2825-2839 | Walks compose |
| Stats.WalkedIsClosure | signaling/static/js/adapter.js:2842-2862 | A walk that followed everything from all roots is the closure, and met nothing malformed |
| ConfigStores.ConfigFile.constructor | signaling/src/goconfig/conf.go:70-79 | An empty configuration |
| ConfigStores.ConfigFile.SetValue | signaling/src/goconfig/conf.go:85-115 | An empty key is refused; a new section and a new key are listed at the end; reports whether the key is new |
| ConfigStores.ConfigFile.DeleteKey | signaling/src/goconfig/conf.go:120-154 | Takes the key, its comments and its place in the list; reports whether it was there |
| ConfigStores.ConfigFile.DeleteSection | signaling/src/goconfig/conf.go:388-419 | Takes the section, its comments and its places in the lists; reports whether it was there |
| ConfigStores.ConfigFile.SetSectionComments | signaling/src/goconfig/conf.go:452-474 | Empty comments delete; others get a marker if they have none |
| ConfigStores.ConfigFile.SetKeyComments | signaling/src/goconfig/conf.go:481-514 | The same for a key |
| ConfigStores.ConfigFile.GetKeyList | signaling/src/goconfig/conf.go:360-384 | The keys of the section without the keeper key |
| ConfigStores.Find | signaling/src/goconfig/conf.go:133-148 | The position of the first occurrence |
| ConfigStores.SetKeepsValid | signaling/src/goconfig/conf.go:85-115 | After a set, the lists still name each section and each key exactly once and match the map |
| ConfigStores.DeleteKeyKeepsValid | signaling/src/goconfig/conf.go:120-154 | The same after deleting a key |
| ConfigStores.DeleteSectionKeepsValid | signaling/src/goconfig/conf.go:388-419 | The same after deleting a section |
| ConfigStores.SectionCommentsKeepValid | signaling/src/goconfig/conf.go:452-474 | The same after setting section comments, and comments start with a marker |
| ConfigStores.KeyCommentsKeepValid | signaling/src/goconfig/conf.go:481-514 | The same after setting key comments |
| ConfigStores.RunKeepsValid | signaling/src/goconfig/conf.go:85-154 | The same over any run of the five operations |
| ConfigStores.SetThenGet | signaling/src/goconfig/conf.go:85-115 | The value set is the value read, no other value changes, and a new key joins the list at the end |
| ConfigStores.BlankIsDefault | signaling/src/goconfig/conf.go:86-89 | The blank name stands for the section DEFAULT |
| ConfigStores.SectionCommentThenRead | signaling/src/goconfig/conf.go:452-474 | A section comment reads as it was set, behind "; " unless it begins with a marker; a blank one is none; nothing else changes |
| ConfigStores.KeyCommentThenRead | signaling/src/goconfig/conf.go:481-514 | The same for the comment of a key |
| ConfigStores.DeleteUndoesSet | signaling/src/goconfig/conf.go:120-154 | Deleting a key just added restores sections, values, lists and section comments |
| ConfigStores.DeleteSectionRemoves | signaling/src/goconfig/conf.go:388-419 | The section, its keys and its comments are gone, and the order of the others stays |
| ConfigStores.DeleteSectionSpares | signaling/src/goconfig/conf.go:388-419 | No other section changes |
| ConfigStores.SectionLeavesKeyComments | signaling/src/goconfig/conf.go:388-419 | The comments of keys outlive their section and come back with a key of the same name, unless the key was deleted first |
| ConfigLines.ValueRoundTrip | signaling/src/goconfig/write.go:76-84 | A printed value is read back if and only if it holds both quote characters when it holds a backtick, and otherwise is trimmed and does not look triple-quoted |
| ConfigLines.TripleValue | signaling/src/goconfig/write.go:78-80 | A value with a backtick in triple quotes is read back |
| ConfigLines.DoubleValue | signaling/src/goconfig/read.go:143-147 | A value with a backtick and no double quote comes back with the quotes that were put around it |
| ConfigLines.KeyRoundTrip | signaling/src/goconfig/read.go:98-128 | A key in any of the four quoting styles is read back, before an equals sign or a colon, whatever blanks stand between, with the sign found behind it |
| ConfigLines.WrittenAssignment | signaling/src/goconfig/read.go:98-158 | A line with blanks anywhere around key, sign and value, and either sign, is read as that key and value; it is taken for no comment and no section |
| ConfigLines.WrittenValue | signaling/src/goconfig/read.go:137-158 | A value in backticks, in triple quotes, or plain is read back whatever signs, quotes and blanks it holds |
| ConfigLines.BareLine | signaling/src/goconfig/read.go:120-158 | A bare key, an equals sign or a colon, and a bare value: everything behind the first sign is the value, further signs included |
| ConfigLines.NoAssignment | signaling/src/goconfig/read.go:114-126 | A line without a sign, or with one at its start, is no assignment |
| ConfigLines.KeyTextStarts | signaling/src/goconfig/read.go:64-99 | No printed key is taken for a comment or a section |
| ConfigLines.AssignmentRoundTrip | signaling/src/goconfig/write.go:59-87 | A printed assignment, pretty or not, is parsed as the key and value it came from |
| ConfigTexts.ReadComments | signaling/src/goconfig/read.go:67-74 | Comment lines are gathered into the same comment |
| ConfigTexts.ReadEntry | signaling/src/goconfig/read.go:90-166 | A printed entry, with its comments and its automatic number, is read back whatever follows |
| ConfigTexts.ReadHeader | signaling/src/goconfig/read.go:75-87 | A section header is read back |
| ConfigTexts.ReadSection | signaling/src/goconfig/read.go:64-167 | A printed section does what its entries do, one by one |
| ConfigTexts.ReadAll | signaling/src/goconfig/read.go:47-175 | A whole printed configuration is read without an error, section by section |
| ConfigRoundTrips.SectionBuilds | signaling/src/goconfig/read.go:75-166 | Reading a section reproduces its name, comments and entries in order and spares the sections before it |
| ConfigRoundTrips.AllBuild | signaling/src/goconfig/read.go:47-175 | Reading all sections reproduces all of them in order |
| ConfigRoundTrips.RoundTrip | signaling/src/goconfig/read.go:31-175 | On the printable domain, reading the text printed gives back the same sections, keys, values and comments in the same order, for both settings of PrettyFormat |
| ConfigRoundTrips.OutlineDetermines | signaling/src/goconfig/conf.go:518-538 | Configurations that show the same give the same sections, values and comments to a caller |
| ConfigRoundTrips.EmptyDefaultVanishes | signaling/src/goconfig/write.go:43-46 | In front of any printable sections, a default section without keys prints as a blank line and is not read back; the other sections are |
| ConfigRoundTrips.SaveConfigData | signaling/src/goconfig/write.go:28-103 | The nested loops produce exactly the text of what the configuration shows |
| ConfigRoundTrips.SaveSection | signaling/src/goconfig/write.go:36-97 | One section of it |
| ConfigRoundTrips.SaveEntries | signaling/src/goconfig/write.go:50-91 | Its entries, without the keeper key |
| ConfigRoundTrips.SaveEntry | signaling/src/goconfig/write.go:51-89 | One entry with its comments |
| ConfigRoundTrips.LoadFromReader | signaling/src/goconfig/read.go:31-175 | The line loop ends, and leaves the configuration and the error of the line-by-line specification, which RoundTrip and ReadWritten characterise |
| ConfigRoundTrips.ParseLine | signaling/src/goconfig/read.go:63-167 | One line: blank, comment, header, entry, or one of the two errors |
| ConfigRoundTrips.SaveAndLoad | signaling/src/goconfig/write.go:28-103 | Saving and loading a printable configuration gives one that shows the same |
| ConfigWritings.ReadWritten | signaling/src/goconfig/read.go:31-175 | A file written by hand (either sign, any blanks, any value quoting, comments, blank lines) shows exactly the sections, keys, values and comments written, and is read on from there |
| ConfigWritings.LoadWritten | signaling/src/goconfig/read.go:31-175 | Loading such a file gives exactly them, without an error |
| ConfigWritings.BadLineStops | signaling/src/goconfig/read.go:114-126 | A line below it without a sign, or with one at its start, ends the loading with that line in the error, and what stood above is kept |
| ConfigWritings.MarkIsSkipped | signaling/src/goconfig/read.go:34-40 | A byte order mark in front makes no difference |
| ConfigWritings.UsualBlanks | signaling/src/goconfig/read.go:48-49 | Spaces, tabs and carriage returns around a line make no difference |
| ConfigWritings.SpacedHeader | signaling/src/goconfig/read.go:75-87 | Nor do blanks around the name in a header |
| ConfigWritings.BlankHeaderStops | signaling/src/goconfig/read.go:88-89 | Below a header without a name any entry is the error for a blank section |
| GoStrings.DecimalDenotes | signaling/src/goconfig/read.go:130-133 | The number of an automatic key is printed in decimal digits that denote it, without a leading zero |
| ConfigValues.StripGivesName | signaling/src/goconfig/conf.go:201-203 | Taking the marks off a reference gives its name if and only if the name does not begin with a percent sign or an opening parenthesis and does not end in s |
| ConfigValues.MatchIs | signaling/src/goconfig/conf.go:46 | A match is exactly a percent sign, a name in parentheses that is not empty and holds no closing one, and an s |
| ConfigValues.FindsLeftmost | signaling/src/goconfig/conf.go:196-199 | The reference found is the leftmost match; none is found exactly if there is none |
| ConfigValues.FindsFirst | signaling/src/goconfig/conf.go:46 | The leftmost match is the first reference |
| ConfigValues.ReplacesPieces | signaling/src/goconfig/conf.go:214-215 | Replacing the text of a reference replaces its occurrences and nothing else |
| ConfigValues.ReducedMeans | signaling/src/goconfig/conf.go:195-216 | Rounds of substitution do not change what a value stands for |
| ConfigValues.SettledIsFull | signaling/src/goconfig/conf.go:195-216 | The result is the full substitution if and only if it holds no reference; the full substitution holds no percent sign |
| ConfigValues.SubstitutedIsLoop | signaling/src/goconfig/conf.go:195-216 | The substitution is a loop that asks for the values of names |
| ConfigValues.LoopIsWalk | signaling/src/goconfig/conf.go:195-216 | The loop on text does what a walk on pieces of text and references does, whatever finds the values |
| ConfigValues.SubstitutedIs | signaling/src/goconfig/conf.go:195-216 | The loop on text does what the rounds on pieces do |
| ConfigValues.DefaultSettlesIff | signaling/src/goconfig/conf.go:195-216 | A default value is free of references after the rounds if and only if it has at most as many different names |
| ConfigValues.OwnSettles | signaling/src/goconfig/conf.go:195-216 | An own value is free of references if spelling it out takes at most as many references as there are rounds, and only if it meets at most as many different names |
| ConfigValues.DefaultValue | signaling/src/goconfig/conf.go:205-206 | A default value is found fully substituted |
| ConfigValues.DefaultIsFull | signaling/src/goconfig/conf.go:163-218 | Without cycles, a value of the default section is returned fully substituted, with no reference left, if and only if it names at most 200 different keys, given that the default values it leads to do |
| ConfigValues.OwnIsFull | signaling/src/goconfig/conf.go:163-218 | A value of another section (default section first, then the own one, else empty) is returned fully substituted if it takes at most 200 references to spell out, and only if at most 200 names are met |
| ConfigValues.DefaultEnds | signaling/src/goconfig/conf.go:204-206 | Without cycles, reading a default value ends, however many names it has |
| ConfigValues.OwnEnds | signaling/src/goconfig/conf.go:195-216 | Values of other sections always end if those of the default section do |
| ConfigValues.FallsBack | signaling/src/goconfig/conf.go:180-187 | A missing key is looked up in the nearest dotted parent that has it, while the sections on the way exist |
| ConfigValues.FallbackEnds | signaling/src/goconfig/conf.go:174-190 | A missing section, and the end of the parents, are the two errors |
| ConfigValues.ReadValue | signaling/src/goconfig/conf.go:163-218 | The bounded loop and the recursion compute that value |
| ConfigValues.ReadReference | signaling/src/goconfig/conf.go:204-212 | The default section first, then the own one as it stands, else empty |
| ConfigCycles.EndsIffBounded | signaling/src/goconfig/conf.go:204-206 | Reading a default value with at most 200 names per value ends within a depth of recursion if and only if its references do |
| ConfigCycles.EndlessIffCyclic | signaling/src/goconfig/conf.go:204-206 | It recurses without end if and only if its references lead into a cycle, and a recursion as deep as there are default keys settles which |
| ConfigCycles.UnboundedIsCyclic | signaling/src/goconfig/conf.go:204-206 | Keys without a bound are found in a set each of which refers to another |
| ConfigCycles.CyclicIsUnbounded | signaling/src/goconfig/conf.go:204-206 | Such a set has no bound |
| ConfigCycles.RankedIsBounded | signaling/src/goconfig/conf.go:204-206 | Ranked references, as in the exact results, are bounded |
| ConfigCycles.CycleHasNoValue | signaling/src/goconfig/conf.go:204-206 | For any texts: if the first reference of each of some default keys strips to one of them, none of them is ever found, at any depth |

## Left out

- SocketRuns.KernelNeverLags: requires that no handler's call was eager; with eager calls the kernel may watch for more, and `KernelFollows` and `BatchEndExact` say when.
- SocketServer.PhysicalSocketServer.WaitEpoll: one round, without timeouts and the wake-up flag; runs of rounds are the subject of `SocketRuns`.
- SocketServer.PhysicalSocketServer.WaitSelect: one round; the live keys come as a list, in any order.
- SocketServer.ConnectedKeeps: the branch for unresolved addresses, which starts a resolver, is left out, as in `ConnectOn`.
- Of the event loop: the wake-up pipe and other dispatchers than sockets, name resolution in `Connect`, failing `epoll_ctl` calls, wrap-around of the 64-bit key, `WaitPoll`, timeouts, and a handler that deletes the dispatcher whose event is being handled. Dispatchers are records addressed by number.
- A dispatcher made by `CreateSocket` or `Accept` exists from then on; its destruction is a `Close`.
- Buffers.BufferT.SetSize: the bytes of the grown part are whatever the block holds. Sizes near the `size_t` limit, the moved-from state and zeroing on free are not modelled.
- ScopedRefptrs.ScopedRefptr.Adopt: stands for assignment from a new object, as copy-on-write buffers use it. Memory ordering of the counter is not modelled: each operation is one step.
- CopyOnWriteRuns.RunFromEmpty: raw data pointers kept across calls and appending a buffer to itself are excluded; the bytes that a new or growing buffer exposes may be any.
- BufferQueues.BufferQueue.WriteBack: the signals of derived classes and the sequence checker are left out.
- ByteBuffers.ByteBufferWriter.WriteBytes: `Resize`, `ReserveWriteBuffer` and `Clear` of the writer are left out.
- IpAddresses.CountIPMaskBits: on masks that are not prefixes the result is the position of the last set bit, as in the code; no more is claimed of it. Parsing, printing and the classifiers of addresses are left out.
- AsyncResolvers.AsyncResolver.ResolveDone: one step, so no other thread acts between its statements; handlers may start resolutions and destroy the resolver, but run no event loop of their own. The system resolver is a parameter.
- AsyncResolvers.MisusedIffOverlapped: overlap means a Destroy between a task's check and its completion, for the same reason.
- SslAdapters.OpenSSLAdapter.Send: before StartSSL the socket below is used directly; that clear text is not part of the record. Error codes, the DTLS timer, identities, session caches and renegotiation are left out.
- SslAdapters.OpenSSLAdapter.Recv: the bytes received, and the pass-through before StartSSL, are left out.
- SslAdapters.OpenSSLAdapter.ContinueSSL: the DTLS timer is left out, and the handler of the connect event runs as later calls of the run, since nothing follows it in this function.
- SslAdapters.OpenSSLAdapter.OnReadEvent: the read handlers, which nothing follows in this function, run as later calls of the run.
- SslStreamAdapters.OpenSSLStreamAdapter.Negotiate: the engine is trusted to fail a step whose certificate was refused, and never to complete a handshake that failed. Renegotiation is left out.
- SslStreamAdapters.OpenSSLStreamAdapter.Handle: posted events are later calls, and calls that assertions of the code forbid are skipped in runs.
- Stats.FilterStats: every report is stored under its own id, and no report is changed while it is walked.
- ConfigStores.ConfigFile.SetValue: locking and several files are left out; maps are values, so sharing a list between two configurations cannot occur.
- ConfigRoundTrips.RoundTrip: for printable configurations only: DEFAULT first, not empty and without section comments; names trimmed, keys that no quoting style breaks, values that `ValueRoundTrip` admits, comment lines trimmed and marked; no line breaks inside texts, and a text that does not begin with a byte order mark.
- ConfigTexts.ReadAll: invalid UTF-8 and input errors are left out.
- ConfigWritings.ReadWritten: header and comment lines carry no blanks around them, carriage returns included; `SpacedHeader` and `UsualBlanks` say what such blanks do to one line. The default section stands first, and keys that need a quoting style have the one the printer would choose.
- SocketSignals.RoundTells: requires that no handler's call was eager, as `SocketRuns.KernelNeverLags` does; `SelectTells` does not.
- ConfigValues.DefaultIsFull: a percent sign only starts a reference, and names are those that stripping leaves alone; references have no cycle, and every default value the key leads to has at most 200 names. The recursion depth of the specification stands for the unbounded stack: without cycles any sufficient depth gives the same value.
- ConfigValues.OwnIsFull: the same; between its two bounds the number of rounds depends on the order of the references, and the exact condition is the loop's own.
- The typed getters of goconfig (`Bool`, `MustInt` and others), signaling handlers, the RPC client, templates, logging and the rest of adapter.js: plumbing, or easy members.
