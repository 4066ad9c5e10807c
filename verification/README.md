# A model of mitogen 0.2.9

mitogen is a library that runs a tree of Python processes, *contexts*, connected by streams of framed
messages. This project models its core in Dafny and proves what the code relies on or promises. Line
numbers refer to `mitogen-0.2.9/mitogen/`. Nothing was executed.

| files | what they model |
|---|---|
| `Latch.dfy` | `Latch`: a queue with sleeping readers that are matched to queue slots by index |
| `Frames.dfy`, `Link.dfy`, `Delimited.dfy` | the byte streams: framing and reassembly, buffered partial writes, line reading with a hand-off to framing |
| `Routes.dfy`, `RouteNetwork.dfy` | routing updates in one context and in the whole tree |
| `Forwarding.dfy` | how a message finds its way, with stale and with exact tables, and dead messages |
| `Handlers.dfy` | the handlers a context keeps, one-shot and persistent, and the index of respondents |
| `Modules.dfy`, `ModuleNetwork.dfy` | requests for Python modules in one context and in the whole tree |
| `SelectGraph.dfy`, `SelectEvents.dfy` | selects nested in selects: the membership graph, and events under concurrency |
| `FileTransfer.dfy` | the windowed file sender |
| `SerialCalls.dfy`, `DedupCalls.dfy` | the two concurrent invokers of services |
| `RelatedModules.dfy` | which modules a module imports, directly or not |
| `IdAllocation.dfy` | context ids |
| `Seqs.dfy` | helpers, most of them about sequences |

`dafny verify dfyconfig.toml` checks everything.

## How it is modelled

Where the source changes fields in place there is a class with those fields; each method is proved
equal to a function on the values of the fields. What these functions answer is then stated without them:
when exactly each answer is given, what is unchanged, and what it comes to over a run (`GetAnswers`,
`MasterSendsWhatItBuilt`, `RoutedWasPacked`, `OneCallPerMessage`, `AddTakesNoRoute` and others). What is concurrent or distributed is a state machine:
a datatype for the whole state, an `Event`, a predicate `Enabled` and a function `Apply` built from the
same functions. One region that holds a lock, or one callback on the broker thread, is one step; a run
is any sequence of enabled events. `Inv` is what every step keeps, and the theorems speak of every run.
The operating system appears as any partial write and any cut of the input.

The tree of contexts is given by functions of the ids (`Tree`): who attaches to whom is arbitrary, but a
context attaches once and ids are not reused. `IdAllocation.IdsAreUnique` discharges the second half.
A cookie is written after `put` has released the lock, so it is a step of its own, and gets may time out
or fail at any moment; the moments that break the matching are singled out by an exact condition.

## Where the code does something else than it says

- A `Latch.get` that times out, or whose poll raises, after `put` chose it leaves `_waking` raised for ever
  (`ExpiryKeepsMatchingIff`, `GapExpiryLosesWakeup`).
- `BufferedWriter.write` of an empty string is later taken for a disconnection; nothing else is
  (`DisconnectsIffEmptyWrite`, `EmptyChunkStays`).
- A dead message that is larger than a message may be is answered with another one, and without end where the
  text of that refusal is too large as well (`DeadMessagesStopIffTheyFit`).
- `get_streams` gives a stream once for every table entry that uses it, so the loss of a context is told as
  often on that stream (`PropagateDown`).
- A handler that raises when its respondent is lost ends the loop over the others and stays in the map, but not
  in the index: a one-shot handler is then called again by the exit (`OneShotRunsAtMostOnceIff`,
  `DisconnectKeepsInverseIff`, `AllWaitersReportedIff`), or loses its reply (`BrokenLosesReply`).
- Overwriting the handler of another respondent leaves the index wrong; the loop over a respondent's
  handlers then breaks off with KeyError (`RegisterKeepsInverseIff`, `ForeignOverwriteMisleads`).
- A request for the module `mitogen` itself is never answered, nor, but for a negative answer after an
  exception, is one for a module larger than a message may be; every other one of an attached context is
  (`AnsweredIffItFits`).
- `Select.add` lists a receiver before it finds that another select owns it, so `size` counts it from then
  on although it never notifies this select (`SelectGraph.Member.Add`).
- For a nested select, tokens, holders and notifications need not reach its size when threads also read it
  directly and it has a receiver of its own (`PlainCountSufficesIff`); they do when threads read only selects
  that belong to no other (`PlainCountSuffices`). The weaker `Covered` always holds, and is enough for `get_event`.
- `acknowledge` accepts negative sizes, which raise `unacked`: they may lift it over the bound
  (`ForgeryKeepsBoundIff`), and one of minus a window or less stops all transfers (`ForgeryDeadlocksIff`).
- A requester that is lost below a live stream never acknowledges what was on its way to it; a window's worth
  of that stalls the others (`DeadlocksIffExcess`, `LostRequesterStalls`).
- A reply with an error that raises ends `_run` with the flag up, and strands all later calls (`CallsAreSerial`).
- `find_related` scans its start module a second time if something it imports imports it (`FindRelated`).
- `allocate_block` is documented to return the last usable id; it returns the id after that, and
  `ChildIdAllocator` uses it so.
- A method of a `DeduplicatingInvoker` whose result cannot be pickled, for another reason than PicklingError,
  makes `_produce_response` run twice: its assertion fails, and the waiters are never answered
  (`AssertsFailIffUnsendable`, `AnsweredUnlessDropped`).
- `DeduplicatingInvoker` replies with the no-reply sentinel to the requests that waited, and does not reply
  to those that come later (`AnswersAreDue`).

## Model

| member | source | states |
|---|---|---|
| `LatchModel.Latch.CloseLatch` | mitogen-0.2.9/mitogen/core.py:2525-2537 | `close` wakes exactly the sleepers not woken before, in the order they went to sleep, and leaves all of them counted as woken |
| `LatchModel.Latch.Size` | mitogen-0.2.9/mitogen/core.py:2540-2559 | the length of the queue, or LatchError once closed |
| `LatchModel.Latch.GetEnter` | mitogen-0.2.9/mitogen/core.py:2624-2638 | first locked region of `get`: skips the slots owed to sleepers, and otherwise goes to sleep, or, if it is not to block, times out with nothing changed |
| `LatchModel.Latch.GetRise` | mitogen-0.2.9/mitogen/core.py:2655-2695 | second locked region of `get`, after the poll ended or raised: leaves the sleepers, and with a cookie takes its own slot, or raises LatchError, or raises the exception of the poll |
| `LatchModel.Latch.PutLocked` | mitogen-0.2.9/mitogen/core.py:2709-2724 | locked region of `put`: appends, and wakes the first sleeper without a slot, or else notifies |
| `LatchModel.WakeOutcome` | mitogen-0.2.9/mitogen/core.py:2663-2693 | a woken thread always owns a slot (both assertions hold) and gets the value put for it, or LatchError after `close` |
| `LatchModel.SafeStepKeeps` | mitogen-0.2.9/mitogen/core.py:2525-2727 | every step but the expiry of a get that was chosen keeps sleepers, slots, cookies and `_waking` matched |
| `LatchModel.EveryRunIsFifo` | mitogen-0.2.9/mitogen/core.py:2525-2727 | over all runs of any number of threads: the n-th get returns the n-th value put, no value is lost or duplicated, `_waking` is the smaller of the two lengths and sleeper i owns slot i; after `close` every sleeper is woken; and only gets that asked to block are asleep |
| `LatchModel.GetAnswers` | mitogen-0.2.9/mitogen/core.py:2624-2638 | in every such state a get takes a value if and only if more values were put than gets entered, and it is the one whose number is the get's own; otherwise it sleeps if it may block, and if not times out and changes nothing |
| `LatchModel.PutAnswers` | mitogen-0.2.9/mitogen/core.py:2709-2724 | a put wakes a thread if and only if the get its value is for has entered, and then that one; otherwise it notifies |
| `LatchModel.ExpiryAnswers` | mitogen-0.2.9/mitogen/core.py:2655-2674 | a poll that ends without a cookie raises TimeoutError whether it failed or not, one that failed with a cookie raises what it raised; either takes just this thread from the sleepers and leaves the rest alone |
| `LatchModel.CloseAnswers` | mitogen-0.2.9/mitogen/core.py:2525-2537 | `close` writes to a sleeper if and only if it has no cookie and is owed none |
| `LatchModel.ClosedForGood` | mitogen-0.2.9/mitogen/core.py:2525-2727 | over all runs after `close`: nothing is put, got or queued any more, every get and put fails and every woken thread gets LatchError |
| `LatchModel.SizeCountsUnreturned` | mitogen-0.2.9/mitogen/core.py:2540-2559 | on an open latch `size` is the number of values put less those returned by gets |
| `LatchModel.OwnsSlotIffChosen` | mitogen-0.2.9/mitogen/core.py:2714-2727 | a sleeper owns a slot exactly if its cookie can be read, or a `put` is between choosing it and writing to it |
| `LatchModel.ExpiryKeepsMatchingIff` | mitogen-0.2.9/mitogen/core.py:2655-2679 | a get whose poll times out or raises keeps the matching, and every sleeper counted in `_waking` with a cookie written or owed, if and only if no `put` or `close` has chosen it; otherwise `_waking` counts a sleeper that has none, or that is not there |
| `LatchModel.GapExpiryLosesWakeup` | mitogen-0.2.9/mitogen/core.py:2663-2727 | concrete run: after an expiry in that gap a later sleeper is left asleep, with no cookie written or owed, while the value put for it lies in the queue |
| `Frames.FirstFrameOfPacked` | mitogen-0.2.9/mitogen/core.py:799-819 | the header `pack` writes is read back as the same message, whatever follows it |
| `Frames.ParseAppend` | mitogen-0.2.9/mitogen/core.py:2102-2149 | reference parser: parsing resumed with more bytes is parsing of the whole |
| `Frames.ParsePacked` | mitogen-0.2.9/mitogen/core.py:813-819 | the bytes of any packed messages parse to those messages, in order, and then to whatever follows |
| `Frames.PrefixParsesToPrefix` | mitogen-0.2.9/mitogen/core.py:2102-2149 | a beginning of packed bytes parses to a beginning of the messages, without error |
| `Frames.ChunkingIndependent` | mitogen-0.2.9/mitogen/core.py:2080-2093 | for any bytes, good or corrupt, the messages and the way parsing ends do not depend on how the bytes are cut |
| `Frames.RoundTripUnderAnyChunking` | mitogen-0.2.9/mitogen/core.py:2080-2149 | packed messages cut in any way are routed in order, leaving no bytes |
| `Frames.PackedLayout` | mitogen-0.2.9/mitogen/core.py:799-819 | the bytes of a packed message: signature, five 32-bit numbers and the length, all big-endian and at these offsets, then the data |
| `Frames.RoutedWasPacked` | mitogen-0.2.9/mitogen/core.py:2102-2149 | the converse of the round trip, for any bytes: what is routed are packed messages within the limit that make up the bytes before the rest; the stream is dropped as corrupt if and only if the rest holds a header that does not start with the signature, and as oversized if and only if it does and announces more than the limit |
| `Frames.FrameReader.OnReceive` | mitogen-0.2.9/mitogen/core.py:2080-2093 | routes exactly what the reference parser finds in the buffered and new bytes, and keeps the rest |
| `Frames.FrameReader.Append` | mitogen-0.2.9/mitogen/core.py:2086-2091 | buffers the chunk; more than one chunk is kept only when the first is long enough to hold the header |
| `Frames.FrameReader.ReceiveOne` | mitogen-0.2.9/mitogen/core.py:2102-2149 | takes one frame off the deque, or waits for more, or disconnects on a wrong signature or an oversized frame |
| `Frames.FrameReader.HeaderInFirstChunk` | mitogen-0.2.9/mitogen/core.py:2103-2112 | the header is never split between chunks when it is unpacked |
| `Frames.FrameReader.PopFrame` | mitogen-0.2.9/mitogen/core.py:2133-2146 | the chunk loop with its three offsets returns exactly the frame's data and leaves exactly the bytes after it |
| `Frames.FrameReader.TakeFrame` | mitogen-0.2.9/mitogen/core.py:2133-2147 | taking the frame out leaves one chunk, so the header invariant holds again |
| `Frames.FrameReader.FrameReachesLastChunk` | mitogen-0.2.9/mitogen/core.py:2137-2147 | a complete frame always uses every buffered chunk |
| `Link.BufferedWriter.WriteBytes` | mitogen-0.2.9/mitogen/core.py:1878-1898 | writes at once if nothing is buffered, and buffers what the OS did not take |
| `Link.BufferedWriter.OnTransmit` | mitogen-0.2.9/mitogen/core.py:1900-1919 | retries the oldest buffer, keeps what was not taken, and stops transmitting when empty |
| `Link.WriteConserves` | mitogen-0.2.9/mitogen/core.py:1878-1898 | bytes taken, as many as the OS took, followed by bytes buffered are the old buffer followed by the new bytes; `_len` and registration stay exact |
| `Link.TransmitConserves` | mitogen-0.2.9/mitogen/core.py:1900-1919 | a retry moves as many bytes from the buffer to the OS as it took, losing and repeating none |
| `Link.RetryDisconnectsIff` | mitogen-0.2.9/mitogen/core.py:1905-1919 | a retry disconnects if and only if there is something to write and nothing of it is taken, and then only the chunk it offered is gone; it stays registered only while something is buffered |
| `Link.WriteKeepsConsistentIff` | mitogen-0.2.9/mitogen/core.py:1878-1898 | a write keeps the writer consistent if and only if it is not empty, whatever the OS takes |
| `Link.EmptyChunkStays` | mitogen-0.2.9/mitogen/core.py:1900-1919 | an empty chunk in the buffer is never got rid of: every call keeps it, and the retry that reaches it disconnects, whatever its outcome |
| `Link.DisconnectsIffEmptyWrite` | mitogen-0.2.9/mitogen/core.py:1878-1919 | over any sequence of writes and of retries that take something: still connected and consistent if and only if no write was empty; with an empty one the buffer is never drained |
| `Link.EmptyWriteDisconnects` | mitogen-0.2.9/mitogen/core.py:1896-1911 | the shortest case: an empty write to an idle writer registers it, and the next retry disconnects |
| `Link.StepKeeps` | mitogen-0.2.9/mitogen/core.py:1866-1919 | bytes read, in the pipe and buffered together are the bytes of the messages sent, after every step |
| `Link.RoutedIsPrefixOfSent` | mitogen-0.2.9/mitogen/core.py:1866-1919 | end to end, under every partial write and every chunking: routed messages are a beginning of those sent, and all of them once drained; the stream is registered for transmit exactly while the buffer is not empty |
| `Delimited.IterSplit` | mitogen-0.2.9/mitogen/core.py:685-705 | the loop returns what the reference splitter gives |
| `Delimited.DelimitedProtocol.OnReceive` | mitogen-0.2.9/mitogen/core.py:1824-1839 | delivers the complete lines, keeps the trailer, or hands the unread bytes to the new protocol |
| `Delimited.SplitAppend` | mitogen-0.2.9/mitogen/core.py:685-705 | splitting resumed with more bytes is splitting of the whole |
| `Delimited.LinesIndependentOfChunking` | mitogen-0.2.9/mitogen/core.py:1824-1839 | for any cut of the input the lines are those of the whole stream up to the first refusal, and every byte after that is handed over once, in order |
| `Delimited.SplitLossless` | mitogen-0.2.9/mitogen/core.py:685-705 | lines joined with the delimiter and followed by the rest are the input; no line holds a delimiter |
| `Delimited.StopsAtFirstRefusal` | mitogen-0.2.9/mitogen/core.py:699-704 | delivery stops at the first line whose handler returns False, and only there |
| `Delimited.HandOffToFrames` | mitogen-0.2.9/mitogen/core.py:1827-1839 | a stream that turns from lines to frames in mid-chunk delivers all its lines and then all its messages |
| `Routes.RouteMonitor.NoticeStream` | mitogen-0.2.9/mitogen/parent.py:2175-2188 | a new child gets its route set and table entry, and is announced upward |
| `Routes.RouteMonitor.OnAddRoute` | mitogen-0.2.9/mitogen/parent.py:2221-2245 | checks for duplicates, records the route on the sender's stream, passes it on |
| `Routes.RouteMonitor.PropagateDown` | mitogen-0.2.9/mitogen/parent.py:2155-2173 | the broadcast of a loss: only on streams other than the parent's on which something came for that context, and once for each table entry that uses the stream |
| `Routes.RouteMonitor.OnDelRoute` | mitogen-0.2.9/mitogen/parent.py:2247-2281 | refuses a withdrawal from the wrong stream, removes the route, passes it up unless it came from the parent, and broadcasts it over the tables that are left |
| `Routes.RouteMonitor.OnStreamDisconnect` | mitogen-0.2.9/mitogen/parent.py:2199-2219 | withdraws every route over the lost stream, each once, tells the parent, and broadcasts each over the tables left at that moment; before that, the contexts whose disconnect handlers run |
| `Routes.AddTakesNoRoute` | mitogen-0.2.9/mitogen/parent.py:2221-2245 | whoever sends it, in any state: ADD_ROUTE is accepted if and only if it comes over the stream of a child and no stream but the parent's is known for its target; it changes no other entry, and if refused none |
| `Routes.DelTakesOwnRoute` | mitogen-0.2.9/mitogen/parent.py:2247-2281 | whoever sends it, in any state: DEL_ROUTE removes the entry of its target, and no other, if and only if it comes over the stream of that entry; it is passed on if and only if that is not the parent's |
| `RouteNetwork.NodeAdds` | mitogen-0.2.9/mitogen/parent.py:2233-2245 | an announcement from a child about something new below it is never refused, and keeps the tables consistent |
| `RouteNetwork.NodeDels` | mitogen-0.2.9/mitogen/parent.py:2257-2281 | a withdrawal by the child that has the route is never refused, and keeps the tables consistent |
| `RouteNetwork.NodeDisconnects` | mitogen-0.2.9/mitogen/parent.py:2206-2214 | losing a child removes exactly the routes over its stream, and they are exactly those to withdraw |
| `RouteNetwork.LostAreThoseRouted` | mitogen-0.2.9/mitogen/core.py:2988-3002 | in every reachable network, losing a child runs the disconnect handlers of exactly the contexts that the table and the route set have behind that child |
| `RouteNetwork.LostParentIsForgotten` | mitogen-0.2.9/mitogen/core.py:2988-2995 | a context that notices the loss of its parent drops the entries for that stream, keeps all others, and announces nothing upward any more |
| `RouteNetwork.StepKeeps` | mitogen-0.2.9/mitogen/parent.py:2139-2281 | every connection, delivery, disconnection and broadcast, at any context, keeps all links and tables consistent |
| `RouteNetwork.QueuedUpdatesConverge` | mitogen-0.2.9/mitogen/parent.py:2175-2281 | on every live link, replaying the queued updates over the parent's route set gives exactly the child's id and the union of its own route sets |
| `RouteNetwork.QuietTablesAreExact` | mitogen-0.2.9/mitogen/parent.py:2175-2281 | with nothing in flight every table holds exactly the contexts connected below, each with the right child's stream |
| `RouteNetwork.DroppedStreamIsForgotten` | mitogen-0.2.9/mitogen/parent.py:2199-2219 | after a disconnection is noticed no entry names the dead stream |
| `RouteNetwork.RouteBeforeReply` | mitogen-0.2.9/mitogen/parent.py:1537-1550 | whichever ancestor the reply to a proxied connect reaches has processed ADD_ROUTE for the new id before, unless it lost the route since, over any number of hops |
| `RouteNetwork.ProcessUsesHops` | mitogen-0.2.9/mitogen/parent.py:2126-2153 | every delivery of an update lowers the number of hops still to come |
| `RouteNetwork.NetworkSettles` | mitogen-0.2.9/mitogen/parent.py:2199-2281 | from every reachable network deliveries and noticed disconnections alone, of which there can be only finitely many, lead to one with nothing in flight, to which the exactness of the tables then applies |
| `Forwarding.Router.AsyncRoute` | mitogen-0.2.9/mitogen/core.py:3267-3333 | the checks and the choice of stream in order, the refusal of unidirectional routing, the stamping of `auth_id`, and which destinations are recorded for the ingress stream |
| `Forwarding.NeverBackUp` | mitogen-0.2.9/mitogen/core.py:3311-3317 | a message accepted off the parent's stream is sent back up if and only if it is addressed to the parent itself |
| `Forwarding.ForwardsToNeighbour` | mitogen-0.2.9/mitogen/core.py:3310-3333 | with whatever tables a run can produce, messages go to the parent or a child only; a context's own messages are not checked for their stream |
| `Forwarding.ReachableTablesAreSane` | mitogen-0.2.9/mitogen/core.py:3267-3333 | the tables of every reachable network meet the assumption of the two theorems on stale tables |
| `Forwarding.TravelsUpThenDown` | mitogen-0.2.9/mitogen/core.py:3267-3333 | every journey goes up some way and then down, even if tables are stale and change between hops |
| `Forwarding.ForwardingTerminates` | mitogen-0.2.9/mitogen/core.py:3267-3333 | no message makes more hops than twice the height of the tree, whatever the tables do meanwhile |
| `Forwarding.AcceptedIffFromThatSide` | mitogen-0.2.9/mitogen/core.py:3274-3293 | with exact tables a message passes the auth_id and src_id checks if and only if it comes from the neighbour towards both |
| `Forwarding.SpoofedIsDropped` | mitogen-0.2.9/mitogen/core.py:3278-3293 | otherwise it is dropped, and nobody is sent a dead message |
| `Forwarding.FollowsTreePath` | mitogen-0.2.9/mitogen/core.py:3267-3333 | with exact tables a message between any two contexts takes the unique tree path, is accepted at every hop and is invoked at its destination; in unidirectional mode if one of the two is an ancestor of the other |
| `Forwarding.QuietMeansExact` | mitogen-0.2.9/mitogen/parent.py:2175-2281 | once routing is quiet the tables of the attached contexts are exact, whatever contexts were lost before |
| `Forwarding.QuietNetworkDelivers` | mitogen-0.2.9/mitogen/core.py:3267-3333 | the two together: in any reachable quiet network every message between attached contexts is delivered along the tree path |
| `Forwarding.OneWayDeliversIffRelated` | mitogen-0.2.9/mitogen/core.py:2910-2923 | the promise of unidirectional routing: in any reachable quiet network a message is delivered if and only if one of its ends is an ancestor of the other |
| `Forwarding.UnrelatedIsRefused` | mitogen-0.2.9/mitogen/core.py:3324-3331 | otherwise it is refused for that reason, by a common ancestor of the two |
| `Forwarding.UnknownIsRefused` | mitogen-0.2.9/mitogen/core.py:3310-3322 | with exact tables a message for a context that nobody knows goes straight up to the master, and ends there for want of a route, in either mode |
| `Forwarding.DeadLetterArrives` | mitogen-0.2.9/mitogen/core.py:3215-3216 | wherever a live message with a return address fails, by routing or by the checks of a handler, the dead message goes to its `src_id` under its `reply_to`, takes the tree path and is invoked there |
| `Forwarding.WaiterIsTold` | mitogen-0.2.9/mitogen/core.py:3217-3225 | of a message without a return address only being too large is told: to its destination under its own handle, where the dead message is invoked |
| `Forwarding.DeliveredOrReported` | mitogen-0.2.9/mitogen/core.py:3193-3333 | in any reachable quiet network, either mode: a message that expects a reply is invoked at its destination if and only if it fits, the destination is attached and may be reached; in every other case its sender gets a dead message on the handle for the reply |
| `Forwarding.DeadMessagesStopIffTheyFit` | mitogen-0.2.9/mitogen/core.py:3193-3225 | a dead message triggers another if and only if it is larger than a message may be, and without end if and only if the text of that refusal is too large as well |
| `Modules.Importer.RequestModule` | mitogen-0.2.9/mitogen/core.py:1449-1470 | runs the callback at once, joins a request in flight, or asks the parent, exactly one of them |
| `Modules.Importer.OnLoadModule` | mitogen-0.2.9/mitogen/core.py:1426-1447 | caches the module and releases exactly its callbacks, in order; ignores a dead message |
| `Modules.ModuleForwarder.SendOneModule` | mitogen-0.2.9/mitogen/parent.py:2761-2770 | sends a module unless it was sent on that stream before |
| `Modules.ModuleForwarder.SendModuleAndRelated` | mitogen-0.2.9/mitogen/parent.py:2749-2759 | sends what is cached of the related modules, then the module |
| `Modules.ModuleResponder.SendModuleAndRelated` | mitogen-0.2.9/mitogen/master.py:1027-1043 | the master's order, its skipping of modules whose parent was not sent, and the negative answer after any exception; what that comes to is `MasterSendsWhatItBuilt` |
| `Modules.SendCachedExtends` | mitogen-0.2.9/mitogen/parent.py:2749-2770 | sending only adds, records what it sends, and always covers a cached name |
| `Modules.MasterAnswers` | mitogen-0.2.9/mitogen/master.py:999-1043 | every request for a module not yet sent to that child is answered, positively or negatively, whatever fails; others are ignored |
| `Modules.TopLevel` | mitogen-0.2.9/mitogen/master.py:1034 | the part of a name before its first dot, and the whole of a name without one |
| `Modules.MasterSendsWhatItBuilt` | mitogen-0.2.9/mitogen/master.py:1027-1043 | exactly what is written for a request: the tuples as they were built, once each, of the related modules that are unsent and of this package or of one sent before, in their order, and last of the module itself; if building any of these raises, those before it, and then one negative answer, which is not recorded as sent |
| `Modules.SendCachedWrites` | mitogen-0.2.9/mitogen/parent.py:2749-2770 | exactly what a forwarder writes: the cached tuples of the names not sent before, unchanged, once each and in order |
| `ModuleNetwork.StepKeeps` | mitogen-0.2.9/mitogen/core.py:1426-1470 | every request, delivery, push and disconnection keeps each waiting request represented at its parent or on the link |
| `ModuleNetwork.NoRequestIsLost` | mitogen-0.2.9/mitogen/core.py:1426-1470 | in trees of any depth: a callback waits only while its module is uncached and being asked for, waited for by the parent, or on its way, or was refused as too large; the requests written to the parent are those recorded, none of them twice; callbacks run once |
| `ModuleNetwork.ImportsAreIssued` | mitogen-0.2.9/mitogen/core.py:1449-1470 | every import of a run is recorded as issued for its module until the end, so these theorems account for it |
| `ModuleNetwork.PushDelivers` | mitogen-0.2.9/mitogen/master.py:1095-1098 | a module sent unasked is cached by the child, on its way to it, or was refused as too large |
| `ModuleNetwork.AnsweredIffItFits` | mitogen-0.2.9/mitogen/parent.py:2735-2770 | in every run a request for the package `mitogen` itself still waits, and one for a module larger than a message may be is answered negatively at most, and never if neither it nor a related module fails to be built; any other request of an attached context has been answered and its callback has run as soon as nothing is in flight |
| `ModuleNetwork.CachedIsWhatWasBuilt` | mitogen-0.2.9/mitogen/parent.py:2735-2770 | over all runs, through any number of forwarders: what a context has cached is the tuple the master built under that name, or its negative answer, and that only where building the module or one related to it raises |
| `ModuleNetwork.DeliveriesUseUp` | mitogen-0.2.9/mitogen/core.py:1426-1470 | every delivery of a request or a module does some of a finite number of duties, or leaves fewer modules to be read |
| `ModuleNetwork.DeliveriesSettle` | mitogen-0.2.9/mitogen/parent.py:2735-2770 | every run can be continued by deliveries alone, of which there can be only finitely many, until nothing is in flight |
| `ModuleNetwork.PackageRequestIsLost` | mitogen-0.2.9/mitogen/core.py:2071 | the shortest run that shows it for the package: every stream starts with it in `sent_modules`, so the request is dropped |
| `ModuleNetwork.LargeModuleIsLost` | mitogen-0.2.9/mitogen/master.py:1000-1010 | the shortest run that shows it for a large module: it is marked as sent although a dead message goes in its place |
| `SelectGraph.Member.CheckNoLoop` | mitogen-0.2.9/mitogen/select.py:199-207 | refuses exactly if the other node is this one or a member of it at some depth |
| `SelectGraph.Member.Add` | mitogen-0.2.9/mitogen/select.py:211-237 | cycle check, listing before the check of the owner, and one token here and in every select above for each item held; a refused receiver stays listed |
| `SelectGraph.Member.Put` | mitogen-0.2.9/mitogen/select.py:154-157 | a token here, and in each select above one that names the member below it |
| `SelectGraph.Member.Remove` | mitogen-0.2.9/mitogen/select.py:247-253 | succeeds exactly for a receiver that notifies this select; the first listing goes |
| `SelectGraph.Member.Size` | mitogen-0.2.9/mitogen/select.py:270-282 | the recursive sum, which terminates on every graph that `add` can build |
| `SelectGraph.Member.GetEvent` | mitogen-0.2.9/mitogen/select.py:324-348 | the loop over tokens: without receivers it is an error. Otherwise tokens are taken oldest first until one leads, through selects, to an item, which is taken, or to a select without receivers, which is the error; those tokens and the way they lead are returned. All other tokens taken name members with nothing to give, and if none is left it times out. It terminates whatever the tokens name |
| `SelectGraph.AddKeepsLayered` | mitogen-0.2.9/mitogen/select.py:199-222 | `add` after a passed check keeps the membership graph free of cycles |
| `SelectGraph.AddIsSafeIffUnreached` | mitogen-0.2.9/mitogen/select.py:199-207 | the check refuses nothing else: the new graph can be ranked if and only if no chain of memberships leads back |
| `SelectGraph.ReachesByChain` | mitogen-0.2.9/mitogen/select.py:199-207 | what the recursion finds is a chain of memberships |
| `SelectGraph.ClimbReachesOwners` | mitogen-0.2.9/mitogen/select.py:154-157 | a notification leaves one token in the select it is put in, naming what was put, and one in each select above, naming the member it comes through; none elsewhere |
| `SelectGraph.SizeCountsEachItemOnce` | mitogen-0.2.9/mitogen/select.py:282 | where every listed member notifies the select that lists it, `size` is the number of items under the select, each once |
| `SelectEvents.StepKeeps` | mitogen-0.2.9/mitogen/select.py:154-348 | every interleaving of deliveries, notifications, adds and consumers keeps each member covered |
| `SelectEvents.EveryMemberIsCovered` | mitogen-0.2.9/mitogen/select.py:154-348 | in every run each member's tokens, holders and notifications cover its size, or, for a nested select drained by others, the tokens in its own latch |
| `SelectEvents.GetEventDoesNotBlock` | mitogen-0.2.9/mitogen/select.py:327-348 | `get_event` cannot block while an item is held anywhere under the select and no notification or consumer is part-way |
| `SelectEvents.NotificationsFinish` | mitogen-0.2.9/mitogen/select.py:154-157 | the notifications under way come to an end: each goes one select up or stops, and after some more none is left, with all items and threads where they were |
| `SelectEvents.RestingIsReachable` | mitogen-0.2.9/mitogen/select.py:211-237 | calls of `add` build every membership graph without cycles, so the graphs the next two theorems speak of all occur |
| `SelectEvents.PlainCountSuffices` | mitogen-0.2.9/mitogen/select.py:327-348 | as long as threads only read selects that belong to no other, tokens, holders and notifications reach the number of items under each member, and its size when no `add` is under way |
| `SelectEvents.PlainCountSufficesIff` | mitogen-0.2.9/mitogen/select.py:327-348 | whoever reads what, they reach the size of every member if and only if no receiver belongs to a select that belongs to another one |
| `SelectEvents.PlainCountFails` | mitogen-0.2.9/mitogen/select.py:327-348 | in any other graph a run with a reader of the nested select after which they do not |
| `FileTransfer.FileStreamState.SchedulePending` | mitogen-0.2.9/mitogen/service.py:958-978 | the scheduling loop, and that it ends only with an empty queue or a full window |
| `FileTransfer.FileStreamState.FetchFile` | mitogen-0.2.9/mitogen/service.py:1057-1062 | the new transfer goes behind the others, and is scheduled |
| `FileTransfer.FileStreamState.OnAcknowledge` | mitogen-0.2.9/mitogen/service.py:1078-1086 | `unacked` falls by no more than it holds, and more is scheduled |
| `FileTransfer.FileStreamState.OnShutdown` | mitogen-0.2.9/mitogen/service.py:938-945 | every pending sender is closed once, newest first |
| `FileTransfer.StepKeeps` | mitogen-0.2.9/mitogen/service.py:958-1086 | every request, delivery, acknowledgement, forged acknowledgement of any size, loss of a requester and shutdown keeps the flow-control and delivery invariants |
| `FileTransfer.WindowIsKeptFull` | mitogen-0.2.9/mitogen/service.py:967-978 | `unacked >= window` while jobs are pending; `unacked < window + IO_SIZE` unless a negative acknowledgement raised it so far itself; with honest acks `unacked` is bytes in flight plus acks in flight plus what leaked to requesters that are lost |
| `FileTransfer.ForgeryKeepsBoundIff` | mitogen-0.2.9/mitogen/service.py:1080-1084 | which acknowledgements keep that bound: those of a non-negative size, and the negative ones that do not lift the count to it |
| `FileTransfer.ForgeryShowsIffItCounts` | mitogen-0.2.9/mitogen/service.py:1080-1084 | a forged acknowledgement of any size puts that account out exactly if it changes the count |
| `FileTransfer.EachGetsItsFile` | mitogen-0.2.9/mitogen/service.py:1119-1142 | each requester is sent a beginning of its file, then a close and nothing more; the close follows the whole file unless the service was shut down, and `get`'s length check tells which |
| `FileTransfer.ChunksAreBlocks` | mitogen-0.2.9/mitogen/service.py:967-972 | what a requester gets are, one after the other, the blocks of `IO_SIZE` bytes of its file, of which only the last may be shorter, in every run, with forged acknowledgements or a shutdown or not |
| `FileTransfer.OneAtATime` | mitogen-0.2.9/mitogen/service.py:967-978 | transfers are served one at a time in the order of their requests |
| `FileTransfer.DeliveryUsesSteps` | mitogen-0.2.9/mitogen/service.py:967-978 | every delivery uses up a bounded supply of steps |
| `FileTransfer.NoDeadlock` | mitogen-0.2.9/mitogen/service.py:967-1086 | without negative acknowledgements, and with less than a window leaked to lost requesters: when nothing is left to deliver every requester has been closed, after its whole file |
| `FileTransfer.DeadlocksIffExcess` | mitogen-0.2.9/mitogen/service.py:967-1086 | with any: once everything on its way has been delivered, all requesters have been closed if and only if never on the way a job was pending while a window was counted in excess; where nobody is lost, if and only if that was not so at the beginning |
| `FileTransfer.ForgeryDeadlocksIff` | mitogen-0.2.9/mitogen/service.py:1080-1084 | from honest accounts, with a job pending and nobody lost, an acknowledgement leads to a deadlock if and only if its size is minus a window or less |
| `FileTransfer.NegativeAcknowledgements` | mitogen-0.2.9/mitogen/service.py:1077-1084 | two such inputs, made after a first `fetch`: one exceeds the bound, after the other a request is never served |
| `FileTransfer.LostRequesterStalls` | mitogen-0.2.9/mitogen/service.py:967-978 | for every window: a run with honest acknowledgements in which a requester is lost with a window on its way to it, and another one on that stream is never served |
| `SerialCalls.SerializedInvoker.EnqueueRequest` | mitogen-0.2.9/mitogen/service.py:346-352 | queues the call and tells whether the caller must run the queue |
| `SerialCalls.SerializedInvoker.PopRequest` | mitogen-0.2.9/mitogen/service.py:319-327 | takes the oldest call, or lets go of the running flag |
| `SerialCalls.StepKeeps` | mitogen-0.2.9/mitogen/service.py:312-356 | a running flag means exactly one runner, and its absence an empty queue, after every step |
| `SerialCalls.CallsAreSerial` | mitogen-0.2.9/mitogen/service.py:312-356 | over all interleavings at most one thread is in `_run`, calls begin and end one at a time in the order asked, and none is stranded, if and only if no reply with an error raises |
| `SerialCalls.RunnerDrainsQueue` | mitogen-0.2.9/mitogen/service.py:329-343 | each step of a runner leaves fewer to come |
| `DedupCalls.DeduplicatingInvoker.BeginRequest` | mitogen-0.2.9/mitogen/service.py:400-412 | answers from the cache, joins the waiters, or leads |
| `DedupCalls.DeduplicatingInvoker.ProduceResponse` | mitogen-0.2.9/mitogen/service.py:388-398 | the two assertions, then records the response and replies to every waiter in order, or breaks off at the first reply that raises |
| `DedupCalls.AssertsHoldIffFirst` | mitogen-0.2.9/mitogen/service.py:391-392 | the assertions hold for the first call for a key and fail for the second one, made by the handler of its exception |
| `DedupCalls.AssertsFailIffUnsendable` | mitogen-0.2.9/mitogen/service.py:388-425 | over all runs the assertions fail for a key if and only if its response cannot be pickled |
| `DedupCalls.StepKeeps` | mitogen-0.2.9/mitogen/service.py:388-425 | one producer per waiting key, and each request in one place, after every step |
| `DedupCalls.MethodRunsOncePerKey` | mitogen-0.2.9/mitogen/service.py:400-425 | the method runs at most once per key, and no key is both waiting and answered |
| `DedupCalls.AnswersAreDue` | mitogen-0.2.9/mitogen/service.py:305-309 | no request is answered twice; it is replied to if and only if the response can be sent and is not a sentinel it came too late for, left without a reply if and only if it came too late for a sentinel, and given an error if and only if the response cannot be sent |
| `DedupCalls.AnsweredUnlessDropped` | mitogen-0.2.9/mitogen/service.py:388-425 | once no thread is left every request has exactly one answer, but for those that had joined the waiters of a response that cannot be sent, which have none |
| `DedupCalls.EverybodyAnsweredIffSendable` | mitogen-0.2.9/mitogen/service.py:388-425 | all requests for a key get its response, or come too late for a sentinel, if and only if it can be sent |
| `DedupCalls.UnpicklableStrandsWaiter` | mitogen-0.2.9/mitogen/service.py:388-425 | concrete run: the method gives something that cannot be pickled, an assertion fails, and the waiter is never answered |
| `DedupCalls.WaitersAreServed` | mitogen-0.2.9/mitogen/service.py:400-425 | while requests wait there is a thread working on their key |
| `Handlers.Router.AddHandler` | mitogen-0.2.9/mitogen/core.py:3172-3185 | allocates or takes the handle, refuses duplicates unless overwriting, indexes the respondent |
| `Handlers.Router.DelHandler` | mitogen-0.2.9/mitogen/core.py:3111-3113 | removes the entry and its index entry, or fails with KeyError |
| `Handlers.Router.InvokeHandler` | mitogen-0.2.9/mitogen/core.py:3227-3250 | the checks in order; a one-shot handler is removed before it is called |
| `Handlers.RegisterAnswers` | mitogen-0.2.9/mitogen/core.py:3172-3185 | without `overwrite` nothing is replaced: a handle that is taken is refused; an allocated handle lies above all allocated before |
| `Handlers.MessageOutcome` | mitogen-0.2.9/mitogen/core.py:3227-3248 | each refusal, and KeyError, if and only if its condition holds; a message is accepted if and only if there is a handler, it expects the sender or the message is dead, the policy allows it, and a one-shot handler can be removed; only a one-shot handler is ever removed |
| `Handlers.OneCallPerMessage` | mitogen-0.2.9/mitogen/core.py:3227-3250 | after any run an accepted message makes one call, with its own dead flag, of the handler registered at its handle and not withdrawn since; any other message makes none; a persistent handler stays |
| `Handlers.CallsAreThoseDue` | mitogen-0.2.9/mitogen/core.py:3187-3250 | over all runs the calls are exactly those due for the messages accepted and for the handlers told of a loss or of the exit, in order; so each handler, persistent or not, is called as often as these concern it |
| `Handlers.Router.OnRespondentDisconnect` | mitogen-0.2.9/mitogen/core.py:3187-3191 | a dead message to each handler listed for the respondent and then its removal, until one is missing or raises |
| `Handlers.Router.OnBrokerExit` | mitogen-0.2.9/mitogen/core.py:3004-3012 | the removal of every handler and then a dead message to it, each once, until one raises; an empty map if none does |
| `Handlers.RegisterKeepsInverseIff` | mitogen-0.2.9/mitogen/core.py:3172-3183 | the index stays the inverse of the map if and only if what is overwritten waited for nobody or for the same respondent |
| `Handlers.UnregisterKeepsInverse` | mitogen-0.2.9/mitogen/core.py:3104-3113 | with an exact index `del_handler` fails only for unknown handles |
| `Handlers.DisconnectKeepsInverseIff` | mitogen-0.2.9/mitogen/core.py:3187-3191 | with an exact index the loop meets no missing handle, and it ends well and leaves the index exact if and only if no handler waiting for the respondent raises |
| `Handlers.BrokenLosesReply` | mitogen-0.2.9/mitogen/core.py:3104-3113 | a one-shot handler that raised there stays in the map but not in the index: a message that comes for it later is lost with KeyError, and the handler with it |
| `Handlers.ExitEmpties` | mitogen-0.2.9/mitogen/core.py:3004-3012 | the loop of the exit ends well, and then leaves nothing, if and only if no handler raises |
| `Handlers.ForeignOverwriteMisleads` | mitogen-0.2.9/mitogen/core.py:3172-3191 | otherwise a handler is told of the wrong respondent's death, and the loop for its own breaks off |
| `Handlers.StepKeeps` | mitogen-0.2.9/mitogen/core.py:3104-3250 | every registration, removal, message, disconnection and exit keeps the accounts of calls, whichever handlers raise |
| `Handlers.StepKeepsIndexed` | mitogen-0.2.9/mitogen/core.py:3104-3250 | ... and, without foreign overwriting, an index that lists nothing wrongly, and everything as long as none has raised on a loss |
| `Handlers.OneShotCalls` | mitogen-0.2.9/mitogen/core.py:3187-3250 | over all runs a one-shot handler is called once for each time it raised on the loss of a respondent, and once more unless it is there still or was taken away; nothing is there after an exit that was not broken off |
| `Handlers.OneShotRunsAtMostOnceIff` | mitogen-0.2.9/mitogen/core.py:3246-3248 | a one-shot handler is called at most once in all runs if and only if it does not raise on a dead message; in all runs without foreign overwriting if and only if it does not, or waits for nobody |
| `Handlers.AgainAfterLoss` | mitogen-0.2.9/mitogen/core.py:3187-3191 | for every one that raises and waits for somebody, a run in which it is called twice: by the loss and by the exit |
| `Handlers.LostRespondentIsReported` | mitogen-0.2.9/mitogen/core.py:3187-3191 | over all runs without foreign overwriting: a loss gives one dead message to each handler listed for the respondent up to the first that raises, to no other, and removes those before it; as long as none has raised on a loss every handler is listed for whom it waits |
| `Handlers.AllWaitersReportedIff` | mitogen-0.2.9/mitogen/core.py:3187-3191 | all handlers waiting for the lost respondent are reported to exactly once and removed, if and only if they are all listed and none of them raises |
| `RelatedModules.FindRelated` | mitogen-0.2.9/mitogen/master.py:840-862 | terminates on every finite import graph with exactly the modules reached by importing, without the start module; each is scanned once, and the start module once more |
| `RelatedModules.ScanKeepsVisits` | mitogen-0.2.9/mitogen/master.py:854-858 | nothing is pushed that was found or is on the stack, so no module is scanned again |
| `RelatedModules.ClosedHoldsNeeds` | mitogen-0.2.9/mitogen/master.py:840-862 | a set closed under importing holds every chain of imports from the start |
| `IdAllocation.IdAllocator.Allocate` | mitogen-0.2.9/mitogen/master.py:1314-1327 | the next id |
| `IdAllocation.IdAllocator.AllocateBlock` | mitogen-0.2.9/mitogen/master.py:1339-1347 | the next thousand, end excluded |
| `IdAllocation.ChildIdAllocator.Allocate` | mitogen-0.2.9/mitogen/parent.py:1732-1745 | uninterleaved, returns the next id of the block, or of one new block, and terminates |
| `IdAllocation.StepKeeps` | mitogen-0.2.9/mitogen/master.py:1314-1357 | every id counted is in one place: given out, in a child's block, in a block on its way, or lost with one; and a child waits for one answer at a time |
| `IdAllocation.IdsAreUnique` | mitogen-0.2.9/mitogen/master.py:1302-1357 | over all runs with any number of children no id is given out twice, and none is 0 |
| `IdAllocation.NoIdIsForgotten` | mitogen-0.2.9/mitogen/master.py:1302-1357 | over all runs each id counted so far is in exactly one of these places, and each child that waits has exactly one request or answer on its way |

## Left out

- Latch: the reuse of socket pairs by other threads; a sleeper is named by its socket and cookie together.
- Streams: an OSError while retrying a write is a disconnection, as the broker makes it; logging; the effect of routing a message on the stream that is being read.
- Frames: the 16-bit signature is the only check on a frame; pickling of the data is not modelled.
- Routes: `disconnect` signals and context names. In `RouteNetwork` a DEL_ROUTE from the parent may arrive at any time and for any id but the parent's own, which is more than the broadcasts send.
- `RouteNetwork.ProcessUsesHops`: counts updates and replies on their way up, not the broadcasts going down, which cause no others to go up.
- Forwarding: `on_message`, and the policies of handlers. In `OneWayDeliversIffRelated` no stream is stamped, so that only the parent's is privileged.
- Modules: FORWARD_MODULE appears as a module sent unasked; a callback for a child that is gone does nothing, where the code would address the parent's stream; pickling, compression, line caches and embedded sources are absent; a negative answer always fits into a message.
- Select: `remove`, `oneshot=True`, `close`, and timeouts are not part of the concurrent model; `size` is read in one step; items assigned to sleepers of a latch are not counted as held.
- `SelectGraph.Member.GetEvent`: starts where the thread no longer sleeps, and does not remove a one-shot receiver; its concurrent form is the steps `Enter`, `Pop`, `Fail` and `Take`.
- `SelectGraph.Member.Size`: the item counts of receivers and latches are read as they are, without their locks, and the LatchError of a closed latch is not modelled.
- FileTransfer: authorization of paths, the reply with the file's metadata, and files that change while they are sent.
- Invokers: validation of arguments and policies.
- `Handlers.Router.OnRespondentDisconnect`: callbacks do not add or remove handlers while they run.
- Handlers: policies are a parameter; registrations from other threads come between the calls on the broker thread, not within them.
- RelatedModules: how imports are found in compiled code, and the sorting of the result.
- IdAllocation: only what is sent to and from the allocators, not the routing of it.
- `ContextService`, `minify`, timers, connection methods, pollers, signals, process creation and everything of the Ansible extension: operating system calls, or members without a state of their own to keep.
