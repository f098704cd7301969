# A verified model of the Bifaci streaming protocol

A Dafny model of capdag's Bifaci protocol, as its Python runtime implements it,
with proofs of what the protocol is for. A cartridge answers requests over one
pipe: requests are admitted through concurrency pools, handlers stream their
answers under credit, one writer numbers every frame, a host routes what comes
back, and live devices feed handlers through a lossy ring. Three self-contained
algorithms of the same repository are modelled beside it: charter templates, page
selections and version resolution.

Each lock-protected block of the program is one atomic step; a thread's position
between two such blocks is part of the state where another thread can see the
difference. Whole-run theorems quantify over every sequence of steps. Where the
program keeps state in an object, the model has a class with the same fields whose
methods are proved against functions on values, and the theorems are about those
functions. Clocks, the outcome of a write, a derivation or a handler, and the order
of threads are arbitrary.

| file | what it models |
|---|---|
| `Credit.dfy`, `CreditProtocol.dfy` | the two ends of a credited stream, and the protocol they make with two channels and three threads |
| `Frames.dfy`, `Ordering.dfy`, `OrderingRuns.dfy` | numbering of flows, the reorder buffer, and the two around an arbitrary channel |
| `Writer.dfy` | the one writer of a connection: numbering and the gate after a terminal |
| `Utf8.dfy`, `Cbor.dfy`, `Fnv.dfy` | encodings and the payload checksum |
| `SequenceStream.dfy`, `ScalarStream.dfy` | cutting items and bytes into chunks, and the receiver that puts them together |
| `ResponseOrder.dfy`, `Response.dfy`, `ResponseChunks.dfy` | a request's answer on all its output streams, and the recogniser it is held to |
| `Pools.dfy`, `PoolRuntime.dfy` | admission through pool chains, and the accounts over whole runs |
| `Requests.dfy` | who ends a request: handler, failure or cancel |
| `HostRouting.dfy`, `RoutingGc.dfy` | a host's routing tables, their release and their collection |
| `LiveFeed.dfy` | the bounded ring between a device and its consumer |
| `Charter.dfy`, `Pages.dfy`, `Versions.dfy`, `Text.dfy` | the three algorithms, and the text operations they share |
| `Common.dfy` | datatypes and sequence facts |

## Findings

Properties that the code does not have, each stated as the exact condition under
which it does, with the input that shows the difference:

- The credit protocol deadlocks exactly with a window of one on a stream with an
  item of more than one fragment (or a window of zero and something to send):
  `CreditProtocol.DeadlockFreeIff`, `CreditProtocol.WindowOfOneStalls`.
- A failed write uses up its sequence number, so a flow has a gap exactly when
  something of it was written after a failed write of it:
  `Writer.EveryTraceGapFreeIff`, `Writer.FailedWriteLeavesGap`.
- Text goes out whole for every text only with room for four bytes in a chunk:
  `ScalarStream.FourBytesSuffice`, `ScalarStream.ThreeBytesDoNot`.
- A handler that closes one of its own streams cannot return normally: ending the
  outputs then raises, and the answer ends with ERR: `Response.ReturnsIff`. What it
  then sends is well-formed exactly when it tried no chunk on that stream afterwards,
  since emitting does not look whether the stream is ended:
  `Response.OpenErrWellFormedIff`, `Response.ChunkFollowsOwnEnd`.
- A chunk takes its index before it waits for credit, and a cancel closes the gates
  under a handler that is still running. If the handler catches that and ends the
  stream, or returns, STREAM_END counts chunks that were never sent, before the
  cancel's ERR. When exactly, for what a handler ends itself and for what ends after
  it: `Response.RaisedWellFormedIff`, `Response.ErrWellFormedIff`,
  `Response.ReturnedCancelledIff`, `Response.LostChunkIsCounted`,
  `Response.OwnEndCountsLostChunk`.
- Between the release of a slot and the admission loop after it a newcomer with room
  in its own chain is put in line; once no loop is pending this cannot be:
  `Pools.NewcomerBetweenLocks`, `Pools.NobodyWaitsInVain`.
- A cancel that arrives between a request's leaving the line and its registration
  finds it in neither table and is ignored: `Requests.CancelTakesEffectIff`,
  `Requests.CancelLostBetweenTables`.
- A request id released again keeps its old place in the ring of released ids, so
  it can be forgotten after one other release: `HostRouting.StillKnownIff`,
  `HostRouting.ReleasedAgainIsForgotten`.
- Collecting the incoming table leaves the done-markers of evicted entries behind,
  exactly when a marked entry has too few touched before it; and the end of an
  evicted request's response then makes its late frames stragglers, which the
  program means to count as losses: `HostRouting.CollectionKeepsMarkersIff`,
  `HostRouting.MarkerIsStranded`, `HostRouting.EvictedIsStragglerIff`.
- Template values with braces are filled again or not depending on the order:
  `Charter.FilledInAnyOrderIff`, `Charter.FirstIsFilledAgain`, `Charter.LastIsLeftAlone`.
- Two spellings of one version (`1.0`, `1.0.0`) compare as equal, and the one listed
  first is installed; if the other is called latest the host is told that it is
  outdated: `Versions.LatestIsResolvedIff`, `Versions.OtherSpellingIsOutdated`.

## Model

| member | source | states |
|---|---|---|
| Credit.GateBalances | src/capdag/bifaci/credit.py:61-143 | over any acquires, grants and closes a gate is closed for the first reason it was closed for, and until then what was taken and what is left is the window and what was granted |
| Credit.AcquireAnswers | src/capdag/bifaci/credit.py:79-108 | after any operations an acquire raises the first close's reason, and before one it is let through exactly when it wants no more than the window and what was granted, without what was taken |
| Credit.ClosedForGood | src/capdag/bifaci/credit.py:79-133 | nothing done to a closed gate changes it, and every acquire of it raises |
| Credit.GrantsAreBatched | src/capdag/bifaci/credit.py:181-195 | of the items consumed from a window every one that fills half of it brings a grant of the whole half, and no other any |
| Credit.NegotiateIff | src/capdag/bifaci/credit.py:32-38 | the smaller proposal, and none exactly when one is zero |
| Credit.CreditGate.TryAcquire | src/capdag/bifaci/credit.py:79-108 | one attempt under the lock: raises the reason of a closed gate, takes the credits if there are enough, and otherwise waits |
| Credit.CreditGate.Grant | src/capdag/bifaci/credit.py:122-127 | adds credits unless closed |
| Credit.CreditGate.CloseFor | src/capdag/bifaci/credit.py:129-133 | the first close wins |
| Credit.CreditWindow.ArriveOne | src/capdag/bifaci/credit.py:170-180 | a chunk is refused exactly when the window is used up |
| Credit.CreditWindow.Consumed | src/capdag/bifaci/credit.py:186-189 | grants are batched by half the window |
| Credit.CreditWindow.FlushPending | src/capdag/bifaci/credit.py:191-195 | everything pending is granted at once |
| Credit.CreditWindow.ContinuedOne | src/capdag/bifaci/credit.py:197-201 | a continuation fragment is granted back at once |
| Credit.CreditRouter.CloseRequest | src/capdag/bifaci/credit.py:231-239 | closes and forgets exactly the request's gates |
| Credit.CreditRouter.GrantFrame | src/capdag/bifaci/credit.py:241-262 | a CREDIT frame changes the gate it is for and no other |
| CreditProtocol.CreditConservation | src/capdag/bifaci/cartridge_runtime.py:2745-2803 | in every reachable state available credit, chunk in hand, chunks and grants in flight, delivered and pending chunks and the one held fragment add up to the sender's window |
| CreditProtocol.ViolationReachableIff | src/capdag/bifaci/cartridge_runtime.py:2745-2756 | some schedule ends in a CREDIT_VIOLATION exactly when the sender's window is larger than the receiver's and the stream fills it |
| CreditProtocol.NegotiatedIsSafe | src/capdag/bifaci/credit.py:32-38 | a sender that starts with the negotiated window never overruns the other end, on any stream and schedule |
| CreditProtocol.LargerIsNot | src/capdag/bifaci/credit.py:32-38 | any larger one overruns the smaller proposal on some stream |
| CreditProtocol.EveryScheduleDelivers | src/capdag/bifaci/cartridge_runtime.py:2333-2350 | unless the sender can overrun the receiver or the window stalls, every schedule is finite, and one that cannot go on has sent and consumed everything and returned its credit |
| CreditProtocol.DeadlockFreeIff | src/capdag/bifaci/credit.py:146-211 | no reachable deadlock, exactly for windows of two or more, or one without multi-fragment items, or nothing to send; for every stream that cannot overrun the receiver |
| CreditProtocol.WindowOfOneStalls | src/capdag/bifaci/cartridge_runtime.py:2773-2786 | with a window of one, a stream with a multi-fragment item reaches the stall |
| CreditProtocol.RunsAreBounded | src/capdag/bifaci/cartridge_runtime.py:776-833 | the number of steps of any schedule is bounded |
| Ordering.SeqAssigner.Assign | src/capdag/bifaci/frame.py:1449-1458 | flow frames get their flow's next number, other frames pass |
| Ordering.SeqAssigner.Remove | src/capdag/bifaci/frame.py:1460-1462 | forgets one flow's counter |
| Ordering.AssignNumbersEveryFlow | src/capdag/bifaci/frame.py:1438-1462 | every flow of what a writer puts out carries 0, 1, 2, ... however the flows interleave |
| Ordering.DeliverKeepsOrder | src/capdag/bifaci/frame.py:1518-1551 | the expected frame is handed on with exactly the held run after it |
| Ordering.AcceptFrameValid | src/capdag/bifaci/frame.py:1470-1551 | after every accept each flow's held frames are its held numbers, all above the expected one; a refusal changes no flow, and any answer only the frame's own |
| Ordering.ReorderBuffer.AcceptOne | src/capdag/bifaci/frame.py:1504-1551 | the object does what the decision says, and its pops never miss |
| Ordering.ReorderBuffer.CleanupFlow | src/capdag/bifaci/frame.py:1553-1555 | forgets one flow |
| OrderingRuns.EveryArrivalIsAccountedFor | src/capdag/bifaci/frame.py:1483-1551 | for every sequence of arrivals, repeats and strangers included: what is delivered of each flow is numbered 0, 1, 2, ..., so nothing is delivered twice, and what arrived is delivered, held or refused, once for each time |
| OrderingRuns.DeliveredIsPrefixOfSent | src/capdag/bifaci/frame.py:1483-1551 | whatever arrives of what was sent, in whatever order and however often, what is delivered of each flow is a prefix of what was sent in it |
| OrderingRuns.ReorderingUndone | src/capdag/bifaci/frame.py:1483-1551 | once everything has arrived, however often, and nothing was refused for want of room, writer, channel and buffer are the identity on every flow |
| OrderingRuns.RepeatedIff | src/capdag/bifaci/frame.py:1518-1551 | a frame is refused as stale or duplicate exactly when it has arrived before |
| OrderingRuns.RefusalIs | src/capdag/bifaci/frame.py:1504-1551 | after any arrivals: stale exactly below what was handed on of the flow, a duplicate exactly if a frame of its number is held, and an overflow exactly if neither is so and as many are held as allowed |
| OrderingRuns.OthersPass | src/capdag/bifaci/frame.py:1514-1515 | a frame of no flow goes through at once and changes no flow |
| OrderingRuns.NothingOverflowsIff | src/capdag/bifaci/frame.py:1518-1551 | nothing is refused for want of room exactly when no arrival leaves more frames of a flow waiting than the limit |
| OrderingRuns.NothingRefusedIff | src/capdag/bifaci/frame.py:1518-1551 | over a channel that repeats nothing that is all that is ever refused |
| Writer.TerminatedFlows.Insert | src/capdag/bifaci/stats.py:275-284 | remembers the last ended flows, first in first out |
| Writer.SyncFrameWriter.Write | src/capdag/bifaci/cartridge_runtime.py:378-397 | one frame through the gate, numbered, written, and its flow retired after a terminal |
| Writer.EveryTraceIsGated | src/capdag/bifaci/cartridge_runtime.py:298-346 | on every wire nothing of a flow follows its terminal until 1024 later terminals |
| Writer.EveryTraceIsNumbered | src/capdag/bifaci/cartridge_runtime.py:298-346 | every flow frame carries how many of its flow were written since its last terminal, plus the writes that failed |
| Writer.GapFreeIff | src/capdag/bifaci/cartridge_runtime.py:298-346 | the next frame of a flow leaves no gap exactly when no write of the flow failed since its last terminal |
| Writer.EveryTraceGapFreeIff | src/capdag/bifaci/cartridge_runtime.py:298-346 | every flow on a wire is numbered 0, 1, 2, ... up to its terminal exactly when, of the frames handed in and their outcomes, none is written while one of its flow is missing |
| Writer.NoFailureNoGap | src/capdag/bifaci/cartridge_runtime.py:298-346 | so on every trace without failed writes |
| Writer.FailedWriteLeavesGap | src/capdag/bifaci/cartridge_runtime.py:341-343 | a wire that starts with number 1 |
| Writer.SuppressedIff | src/capdag/bifaci/cartridge_runtime.py:298-346 | a frame is held back exactly when its flow is among the last 1024 ended; control frames are always written |
| Writer.AfterTerminal | src/capdag/bifaci/cartridge_runtime.py:298-346 | once END or ERR of a flow is written, its REQ, CHUNK, END, LOG, ERR, STREAM_START and STREAM_END are held back, and nothing else |
| Writer.OtherFramesEndNothing | src/capdag/bifaci/cartridge_runtime.py:298-346 | nothing but a written END or ERR ends a flow |
| Utf8.RoundTrip | src/capdag/bifaci/cartridge_runtime.py:3060-3075 | section 3 of RFC 3629: decoding undoes encoding |
| Utf8.OnlyEncodings | src/capdag/bifaci/cartridge_runtime.py:3060-3075 | section 3 of RFC 3629: decoding accepts nothing else, no longer form and no surrogate |
| Utf8.CutsAtBoundary | src/capdag/bifaci/cartridge_runtime.py:3060-3075 | a prefix of an encoded text decodes exactly when the cut is between characters |
| Utf8.Examples | src/capdag/bifaci/cartridge_runtime.py:3060-3075 | section 7 of RFC 3629: one character of each width |
| Cbor.RoundTrip | src/capdag/bifaci/cartridge_runtime.py:861-878 | section 3.1 of RFC 8949: decoding reads back one item whatever follows it |
| Cbor.Truncated | src/capdag/bifaci/cartridge_runtime.py:861-878 | a proper prefix of an item is recognised as incomplete, never as malformed or whole |
| Cbor.HeadIsShortest | src/capdag/bifaci/cartridge_runtime.py:861-878 | section 4.2.1 of RFC 8949: no head is longer than its number needs |
| Cbor.Malformed | src/capdag/bifaci/cartridge_runtime.py:861-878 | a reserved marker and a text that is not UTF-8 are malformed |
| Cbor.MalformedList | src/capdag/bifaci/cartridge_runtime.py:861-878 | so is a list with a malformed item after whole ones |
| Cbor.NumberExamples | src/capdag/bifaci/cartridge_runtime.py:861-878 | appendix A of RFC 8949: 1000 and 1000000 |
| Cbor.StringExamples | src/capdag/bifaci/cartridge_runtime.py:861-878 | section 3.1 of RFC 8949: the heads of short byte and text strings |
| Fnv.ComputeChecksum | src/capdag/bifaci/frame.py:400-412 | the loop computes FNV-1a over 64 bits |
| Fnv.OneByteChangesChecksum | src/capdag/bifaci/frame.py:400-412 | payloads of one length that differ in one byte never share a checksum |
| Fnv.TestVectors | src/capdag/bifaci/frame.py:400-412 | the published values of FNV-1a for nothing and for "a" |
| SequenceStream.EmitListItem | src/capdag/bifaci/cartridge_runtime.py:1940-1977 | an item is cut into non-empty chunks of at most `max_chunk` that join to its encoding |
| SequenceStream.PiecesFull | src/capdag/bifaci/cartridge_runtime.py:1940-1977 | every piece but the last is as long as a piece may be |
| SequenceStream.DrainAll | src/capdag/bifaci/cartridge_runtime.py:2787-2803 | the loop takes every whole item out of the buffer |
| SequenceStream.SeqReassembly.Accept | src/capdag/bifaci/cartridge_runtime.py:2756-2803 | one fragment: checked, appended, drained; and whether it continues an item |
| SequenceStream.SeqReassembly.Finish | src/capdag/bifaci/cartridge_runtime.py:2842-2853 | a stream that ends inside an item says so |
| SequenceStream.SequenceRoundTrip | src/capdag/bifaci/cartridge_runtime.py:2773-2803 | however the bytes are fragmented, the receiver delivers exactly the items |
| SequenceStream.StopsWithErrorIffMidItem | src/capdag/bifaci/cartridge_runtime.py:2842-2853 | wherever a stream stops, the whole items are delivered, and it ends without an error exactly at an item boundary |
| SequenceStream.RefusedChangeNothing | src/capdag/bifaci/cartridge_runtime.py:2756-2803 | whatever fragments arrive, one whose checksum is missing or wrong leaves the buffer as it was and brings exactly its own error; the rest deliver what they would alone |
| SequenceStream.DamagedStreamDelivers | src/capdag/bifaci/cartridge_runtime.py:2756-2803 | a stream whose good fragments carry the items delivers the items, whatever refused ones are among them |
| SequenceStream.ChangedByteIsRefused | src/capdag/bifaci/cartridge_runtime.py:2766-2770 | a payload with one byte changed on the way is never delivered |
| SequenceStream.MalformedItem | src/capdag/bifaci/cartridge_runtime.py:2787-2803 | a malformed item: the whole ones before it are delivered, then one error, and nothing is kept |
| SequenceStream.ProducedItems | src/capdag/bifaci/cartridge_runtime.py:1940-1977 | items emitted with any chunk size and received are the items |
| ScalarStream.CoalesceBuf.Append | src/capdag/bifaci/cartridge_runtime.py:267-284 | bytes wait until there are enough or the oldest is too old, for any clock |
| ScalarStream.CoalesceBuf.Take | src/capdag/bifaci/cartridge_runtime.py:286-295 | takes everything that waits |
| ScalarStream.CutText | src/capdag/bifaci/cartridge_runtime.py:3060-3075 | the back-off loop finds the longest cut between two characters, and none only for a character wider than a chunk |
| ScalarStream.OutputStream.Write | src/capdag/bifaci/cartridge_runtime.py:2999-3017 | what is written is what the receiver has and what is still coalesced |
| ScalarStream.OutputStream.EmitText | src/capdag/bifaci/cartridge_runtime.py:3045-3085 | text goes out after the coalesced bytes, up to the first character too wide for a chunk |
| ScalarStream.OutputStream.EmitValue | src/capdag/bifaci/cartridge_runtime.py:3045-3085 | any other value goes out whole after the coalesced bytes |
| ScalarStream.OutputStream.Close | src/capdag/bifaci/cartridge_runtime.py:3087-3105 | the tail and one STREAM_END with the chunk count; a second close is refused |
| ScalarStream.RunStream | src/capdag/bifaci/cartridge_runtime.py:2890-3105 | any writes, emits and flushes at any times, then close: the receiver collects exactly that, from chunks 0 to n - 1 no larger than `max_chunk`, and the count is n |
| ScalarStream.CollectedIs | src/capdag/bifaci/cartridge_runtime.py:1164-1191 | a string is collected as it is, any other value so that it reads back, and an empty chunk is nothing |
| ScalarStream.DamagedIsRefused | src/capdag/bifaci/cartridge_runtime.py:2757-2770 | a stream with a chunk whose checksum is missing or wrong is never collected |
| ScalarStream.ChangedByteSpoils | src/capdag/bifaci/cartridge_runtime.py:2757-2770 | nor is one with a byte changed on the way |
| ScalarStream.FourBytesSuffice | src/capdag/bifaci/cartridge_runtime.py:3060-3075 | with room for four bytes every text goes out whole |
| ScalarStream.ThreeBytesDoNot | src/capdag/bifaci/cartridge_runtime.py:3068-3075 | with less, some text does not |
| ResponseOrder.CheckPrefix | src/capdag/_formal/__init__.py:1717-1719 | a violation found is found whatever follows |
| ResponseOrder.AcceptedIff | src/capdag/_formal/__init__.py:1717-1719 | the recogniser accepts an ended answer exactly when every stream is absent or whole and nothing else ended it |
| Response.ResponseWellFormed | src/capdag/bifaci/cartridge_runtime.py:1641-1904 | every handler run that returns leaves a well-formed answer: each stream started once before its chunks, indexes from 0, one STREAM_END with the exact count or none promised, END last |
| Response.ErrWellFormedIff | src/capdag/bifaci/cartridge_runtime.py:4721-4835 | an answer that an ERR ends after the handler returned, a cancel's or its own, is well-formed exactly when every stream the handler ended itself it ended right and no other is ended with a wrong count; and its outputs are all ended exactly when none was and every closing flush gets through |
| Response.ReturnedCancelledIff | src/capdag/bifaci/cartridge_runtime.py:1700-1709 | when all are ended: exactly when each bounded output it touched tries no more chunks, closing flush included, than its gate lets through |
| Response.LostChunkIsCounted | src/capdag/bifaci/cartridge_runtime.py:1842-1892 | one that catches a refused chunk and returns has a STREAM_END that counts it |
| Response.RaisedWellFormedIff | src/capdag/bifaci/cartridge_runtime.py:4728-4742 | over every run, an answer that an ERR ends where the handler raises is well-formed exactly when, of each stream the handler ended itself, the chunks counted had got through and no chunk it tried later did |
| Response.OpenErrWellFormedIff | src/capdag/bifaci/cartridge_runtime.py:1867-1892 | with every gate open both come to this: on no stream it ended itself did the handler try a chunk afterwards |
| Response.ChunkFollowsOwnEnd | src/capdag/bifaci/cartridge_runtime.py:1734-1977 | emitting does not look whether the stream is ended, so a chunk can follow STREAM_END |
| Response.OwnEndCountsLostChunk | src/capdag/bifaci/cartridge_runtime.py:1842-1892 | the handler's own STREAM_END can count a refused chunk |
| Response.ReturnsIff | src/capdag/bifaci/cartridge_runtime.py:1867-1892 | ending the outputs raises exactly when the handler closed a stream itself |
| ResponseChunks.PiecesAreLeast | src/capdag/bifaci/cartridge_runtime.py:1842-1857 | bytes are cut into as few chunks as `max_chunk` allows |
| ResponseChunks.SamePieces | src/capdag/bifaci/cartridge_runtime.py:1940-1977 | list items are cut into as many as a producer of items cuts |
| ResponseChunks.EveryChunkIsOwed | src/capdag/bifaci/cartridge_runtime.py:1734-1977 | with open gates every output has on the wire exactly the chunks that what was emitted on it takes, coalesced and cut at `max_chunk` |
| ResponseChunks.NothingIsKeptBack | src/capdag/bifaci/cartridge_runtime.py:1867-1892 | the answer of a handler that returned carries exactly the chunks that all of what was emitted takes, and a stream's end says a count exactly unless it was opened unbounded |
| ResponseChunks.RaisesIff | src/capdag/bifaci/cartridge_runtime.py:1641-1977 | with open gates an operation raises exactly in the other mode than the stream was opened in, at a second end, or at a character wider than a chunk |
| Response.OutputsAnswered | src/capdag/bifaci/cartridge_runtime.py:2175-2185 | an output is answered on exactly when it is required or was written to; a required one never written to is opened and closed empty |
| Response.ThreadSafeEmitter.EnsureStarted | src/capdag/bifaci/cartridge_runtime.py:1641-1683 | opens the stream once, in one mode; mixing modes raises |
| Response.ThreadSafeEmitter.WritePieces | src/capdag/bifaci/cartridge_runtime.py:1842-1857 | one chunk a piece; stops at the first that gets no credit, its index used up |
| Response.ThreadSafeEmitter.FlushCoalesced | src/capdag/bifaci/cartridge_runtime.py:1859-1865 | sends what is coalesced and forgets it |
| Response.ThreadSafeEmitter.EmitCborBytes | src/capdag/bifaci/cartridge_runtime.py:1752-1764 | coalesces byte strings |
| Response.ThreadSafeEmitter.EmitCborValue | src/capdag/bifaci/cartridge_runtime.py:1765-1840 | any other value goes after the coalesced bytes: a text cut between characters up to one no chunk can hold, a list or a map part by part |
| Response.ThreadSafeEmitter.EmitListItem | src/capdag/bifaci/cartridge_runtime.py:1940-1977 | items go out in sequence mode |
| Response.ThreadSafeEmitter.WriteBytes | src/capdag/bifaci/cartridge_runtime.py:1906-1934 | raw bytes go after the coalesced ones |
| Response.ThreadSafeEmitter.End | src/capdag/bifaci/cartridge_runtime.py:1867-1892 | opens if need be, flushes, and writes one STREAM_END; a second one raises |
| Response.ResponseOutputs.EndAll | src/capdag/bifaci/cartridge_runtime.py:2175-2185 | the outputs are ended in order, stopping at one that raises |
| Pools.AdmitNextLaws | src/capdag/bifaci/cartridge_runtime.py:552-567 | of those whose whole chain has room the longest-waiting goes, taking one slot in each pool of it and none above its limit |
| Pools.ArriveAdmitsIff | src/capdag/bifaci/cartridge_runtime.py:522-539 | a newcomer is admitted at once exactly when its chain has room and nobody in line could go |
| Pools.ReleaseUndoesTake | src/capdag/bifaci/cartridge_runtime.py:541-550 | releasing a chain undoes taking it |
| Pools.EffectiveIff | src/capdag/bifaci/pools.py:57-65 | the limit is the only number that admits exactly what both numbers admit, with 0 and absence unlimited |
| Pools.ChainIff | src/capdag/bifaci/cartridge_runtime.py:508-512 | a cap's chain is its own pool first, every shared pool that has it, and the pool of all |
| Pools.ChainInOrder | src/capdag/bifaci/cartridge_runtime.py:508-512 | the shared pools come in declared order, between the two |
| Pools.QueuedLast | src/capdag/bifaci/cartridge_runtime.py:522-539 | whoever is put in line is last, with the next ticket, and is told how many of its own cap are in line |
| Pools.AdmitAllSettles | src/capdag/bifaci/cartridge_runtime.py:4420-4446 | admitting stops, with nobody left who could go, everyone admitted moved from line to pools, and no limited pool taken above its limit |
| Pools.NobodyWaitsInVain | src/capdag/bifaci/cartridge_runtime.py:4420-4503 | over every interleaving of the lock's sections: whenever no admission loop is pending, nobody in line has room in its whole chain, and a newcomer is admitted exactly when its own chain has room |
| Pools.NewcomerBetweenLocks | src/capdag/bifaci/cartridge_runtime.py:4473-4503 | while one is pending a newcomer with room can be put in line, reached from empty pools |
| Pools.LoopsEnd | src/capdag/bifaci/cartridge_runtime.py:4420-4446 | pending loops that are left alone end, in as many rounds as there are requests in line and loops |
| Pools.EveryCallEndsOnce | src/capdag/bifaci/cartridge_runtime.py:4420-4503 | every release, every new limit and every newcomer put in line calls an admission loop, and each call is pending until one round finds nobody to admit |
| PoolRuntime.StepAccounted | src/capdag/bifaci/cartridge_runtime.py:522-606 | every call keeps the accounts, and raises only for a pattern or pool that does not exist |
| PoolRuntime.EveryRunBalances | src/capdag/bifaci/cartridge_runtime.py:522-606 | over any run: active counts are the running requests through each pool; every request that arrived is running, held, finished or cancelled, once; what is held under a ticket is the request that arrived with it; below-zero and missing-ticket errors cannot happen |
| PoolRuntime.CancelsOwn | src/capdag/bifaci/cartridge_runtime.py:569-582 | a cancel finds a request exactly when one of that id is in line, and takes out one of that id and no other |
| PoolRuntime.AdmitsAsGiven | src/capdag/bifaci/cartridge_runtime.py:552-567 | an admission starts the request that arrived with the ticket it picks |
| PoolRuntime.StepKeepsWithin | src/capdag/bifaci/cartridge_runtime.py:522-606 | no pool is above its limit unless a self-report or an operator's batch lowers one below what runs; each keeps all within exactly when every new limit fits |
| PoolRuntime.RuntimePools.constructor | src/capdag/bifaci/cartridge_runtime.py:441-515 | a pool for each cap, each shared pool and all, at rest |
| PoolRuntime.RuntimePools.Declare | src/capdag/bifaci/cartridge_runtime.py:441-515 | a runtime is made exactly from patterns registered once, pools of served caps and capacities of known pools; otherwise the first fault is raised |
| PoolRuntime.Examine | src/capdag/bifaci/cartridge_runtime.py:442-500 | the checks find the first fault, if there is one |
| PoolRuntime.RuntimePools.Arriving | src/capdag/bifaci/cartridge_runtime.py:522-539 | admitted, or in line with its position among its own cap's |
| PoolRuntime.RuntimePools.ReleaseOne | src/capdag/bifaci/cartridge_runtime.py:541-550 | looks at the whole chain first; a running request's release never raises |
| PoolRuntime.ReleaseRaisesIff | src/capdag/bifaci/cartridge_runtime.py:541-550 | raises exactly for a chain with a pool nobody is in, and names the first |
| PoolRuntime.RuntimePools.AdmitOne | src/capdag/bifaci/cartridge_runtime.py:552-567 | the request that arrived with the ticket of the waiter the decision picked |
| PoolRuntime.RuntimePools.AdmitWaiting | src/capdag/bifaci/cartridge_runtime.py:4420-4446 | the loop ends in the settled state that admitting everyone who can go leads to, having started exactly those it took out of line |
| PoolRuntime.RuntimePools.RemoveOne | src/capdag/bifaci/cartridge_runtime.py:569-582 | finds a held request of the id if there is one, takes its ticket out of line, and answers with it |
| PoolRuntime.RuntimePools.Report | src/capdag/bifaci/cartridge_runtime.py:595-606 | one pool's self-reported number, and nothing else |
| PoolRuntime.RuntimePools.Desire | src/capdag/bifaci/cartridge_runtime.py:584-593 | the whole batch, or nothing if a pool is unknown |
| Requests.TerminalClaim.ForHandler | src/capdag/bifaci/cartridge_runtime.py:1249-1258 | won exactly by the first to claim |
| Requests.TerminalClaim.ForCancel | src/capdag/bifaci/cartridge_runtime.py:1249-1262 | won exactly by the first to claim |
| Requests.OneTerminal | src/capdag/bifaci/cartridge_runtime.py:4640-4749 | over every interleaving at most one terminal is attempted; a gone handler's request has exactly one, the cancel's ERR exactly when the cancel claimed it; one cancelled in line has exactly the cancel's ERR |
| Requests.TerminalTells | src/capdag/bifaci/cartridge_runtime.py:4640-4749 | END is never sent for a request whose derivation or op failed or was not run, and a handler's ERR only for one of which one failed; a gone handler that claimed its request sent END exactly when both succeeded |
| Requests.ArrivalGoes | src/capdag/bifaci/cartridge_runtime.py:4478-4503 | a request that arrives is registered at once when admitted and in line otherwise; one whose id was used before is nothing new |
| Requests.NeverRuns | src/capdag/bifaci/cartridge_runtime.py:4787-4806 | a request cancelled in line never gets a handler |
| Requests.EveryHandlerEndsItsRequest | src/capdag/bifaci/cartridge_runtime.py:4455-4475 | once out of line, nine steps of its thread end a request with exactly one terminal, whatever fails |
| Requests.CancelTakesEffectIff | src/capdag/bifaci/cartridge_runtime.py:4774-4829 | a cancel of an undecided request takes effect exactly when it is not between leaving the line and its registration |
| Requests.CancelLostBetweenTables | src/capdag/bifaci/cartridge_runtime.py:4430-4446 | a request cancelled there is not: its thread runs to its END |
| Requests.EveryAdmissionPassesBetween | src/capdag/bifaci/cartridge_runtime.py:4430-4446 | over every run, a request that was in line and has a handler was at some time between in neither table |
| HostRouting.StepValid | src/capdag/bifaci/host_runtime.py:1853-2043 | every event but a collection keeps the two markers apart and on live entries, the ring bounded and without repeats, stamps on live entries |
| HostRouting.RunValid | src/capdag/bifaci/host_runtime.py:1853-2043 | so does every run of them |
| HostRouting.ReleasedIff | src/capdag/bifaci/host_runtime.py:1913-2029 | over any run, collections of other entries included, an entry is released exactly when the body's and the response's terminal have both passed, in either order, and routes to its cartridge until then |
| HostRouting.LiveRequestIsRouted | src/capdag/bifaci/host_runtime.py:1913-1945 | a live request's response credit reaches its handler; its frames reach the handler until the body is over, then a peer call of its id first |
| HostRouting.GrantsGoTheirWay | src/capdag/bifaci/host_runtime.py:1913-1945 | a grant goes the way it says, also when a cartridge calls itself; one that does not say goes nowhere |
| HostRouting.RoutedIsTouchedLast | src/capdag/bifaci/host_runtime.py:1853-1876 | a frame stamps the entry it was routed by, and no other, later than any before |
| HostRouting.LateFrameIsStraggler | src/capdag/bifaci/host_runtime.py:1994-2007 | a frame of a request that just left the table is a straggler, unless a collection evicted it |
| HostRouting.LatePeerFrame | src/capdag/bifaci/host_runtime.py:1994-2007 | a frame of a peer call whose response just ended is a straggler |
| HostRouting.PeerStandsStep | src/capdag/bifaci/host_runtime.py:1853-1972 | a peer call routes to its caller until the terminal of its response comes back or a collection evicts it |
| HostRouting.SweptIsReleased | src/capdag/bifaci/host_runtime.py:2031-2043 | a sweep takes the entry and both markers, and its late frames are stragglers |
| HostRouting.StillKnownIff | src/capdag/bifaci/host_runtime.py:1974-1992 | after any releases, its own included, an id is known exactly when it is among the last 64 that entered the ring; a release of an id in the ring enters nothing |
| HostRouting.PushedOutIff | src/capdag/bifaci/host_runtime.py:1974-1992 | one that is not released again is known exactly when those that entered have not pushed it out |
| HostRouting.ReleasedAgainIsForgotten | src/capdag/bifaci/host_runtime.py:1978-1986 | one released again when it is the oldest of a full ring is forgotten after one other release |
| HostRouting.CollectionIsEvent | src/capdag/bifaci/host_runtime.py:2064-2098 | what a collection leaves is the table without what it evicted |
| HostRouting.CollectionKeepsMarkersIff | src/capdag/bifaci/host_runtime.py:2064-2098 | every collection keeps markers on live entries exactly when the table is below the watermark or each marked entry has at least as many touched before it as will be evicted |
| HostRouting.MarkerIsStranded | src/capdag/bifaci/host_runtime.py:2078-2082 | a full table whose first request's body is over loses that request and keeps its marker |
| HostRouting.CartridgeHostRuntime.RouteContinuationFrame | src/capdag/bifaci/host_runtime.py:1877-1972 | the object routes and keeps its tables as the decision says |
| HostRouting.CartridgeHostRuntime.NoteReleasedRid | src/capdag/bifaci/host_runtime.py:1978-1986 | the last 64 ids, each once |
| HostRouting.CartridgeHostRuntime.RecordResponseTerminal | src/capdag/bifaci/host_runtime.py:2009-2029 | releases, or remembers that the response came first |
| HostRouting.CartridgeHostRuntime.RemoveIncomingRxid | src/capdag/bifaci/host_runtime.py:2031-2043 | a sweep takes the entry and both markers |
| HostRouting.CartridgeHostRuntime.GcRoutingTablesIfNeeded | src/capdag/bifaci/host_runtime.py:2047-2062 | every table ends below the hard cap, one under the watermark is untouched, and the total counts exactly what was removed |
| RoutingGc.CollectTable | src/capdag/bifaci/host_runtime.py:2064-2098 | both passes end, evict exactly what they count, and evict nothing touched later than a survivor |
| RoutingGc.CollectedTwice | src/capdag/bifaci/host_runtime.py:2087-2098 | the second pass keeps the first one's order of eviction |
| RoutingGc.EvictOldest | src/capdag/bifaci/host_runtime.py:2078-2082 | the least recently touched go, a key without a stamp first |
| RoutingGc.UnstampedGoFirst | src/capdag/bifaci/host_runtime.py:2069-2080 | a key that was never stamped goes before any that was |
| RoutingGc.OldEnoughGoFirst | src/capdag/bifaci/host_runtime.py:2078-2082 | a key with enough keys touched before it survives every collection |
| RoutingGc.YoungCanGo | src/capdag/bifaci/host_runtime.py:2078-2082 | a key with fewer is evicted by some |
| LiveFeed.EveryItemIsAccountedFor | src/capdag/bifaci/live_feed.py:163-246 | at any moment the ring holds the latest numbers within its cap, each item taken tells the numbers lost before it, and captured is taken, lost, in the ring, and the one that failed the feed |
| LiveFeed.DeliveredAsCaptured | src/capdag/bifaci/live_feed.py:354-392 | what is delivered under a number is the item captured under it, and a gap's duration is the time since the delivery before it |
| LiveFeed.LostWhenFull | src/capdag/bifaci/live_feed.py:209-238 | an item is lost, or fails the feed, exactly for each that came when the ring was full |
| LiveFeed.StopsOnlyFor | src/capdag/bifaci/live_feed.py:178-246 | over any run: a producer stops only when it finished, captured as much as it may, or the tap is closed; and that only by a stop, the deadline or a failure |
| LiveFeed.FullFeedDrains | src/capdag/bifaci/live_feed.py:225-238 | a feed that captured as much as it may stops and drains |
| LiveFeed.EndsOnceAndTellsAll | src/capdag/bifaci/live_feed.py:350-392 | one end marker, last; a feed that did not fail was drained and told every loss; one that failed delivered without a gap and then one error |
| LiveFeed.DrainsAndEnds | src/capdag/bifaci/live_feed.py:350-392 | once closed or finished the feeder ends within two steps an item and two more |
| LiveFeed.RunDrains | src/capdag/bifaci/live_feed.py:350-392 | once closed, finished or failed a feed stays so, whatever follows |
| LiveFeed.FeedShared.PushItem | src/capdag/bifaci/live_feed.py:209-238 | the overrun policy at the capture edge |
| LiveFeed.FeedShared.CloseTap | src/capdag/bifaci/live_feed.py:178-181 | closes the tap |
| LiveFeed.FeedShared.FinishCapture | src/capdag/bifaci/live_feed.py:239-246 | the producer is done; the ring still drains |
| LiveFeed.FeedShared.LookOnce | src/capdag/bifaci/live_feed.py:354-376 | the feeder's section under the lock |
| Charter.TokensIff | src/capdag/bifaci/charter.py:292-313 | a template reads as exactly the text and placeholders it is written from |
| Charter.NameIs | src/capdag/bifaci/charter.py:308-309 | the letters a placeholder name may have |
| Charter.PlaceholdersIn | src/capdag/bifaci/charter.py:292-313 | the scan finds the placeholders in order of first use, or what is wrong first |
| Charter.FilledInAnyOrderIff | src/capdag/bifaci/charter.py:246-252 | replacing one placeholder after another, in any order, is filling all at once and leaves no brace, exactly when no value has a brace |
| Charter.FirstIsFilledAgain | src/capdag/bifaci/charter.py:246-252 | a value that names a later placeholder is filled again |
| Charter.LastIsLeftAlone | src/capdag/bifaci/charter.py:246-252 | in the other order it is not |
| Charter.Location | src/capdag/bifaci/charter.py:237-252 | exactly the template's placeholders must be given; otherwise which one is wrong |
| Charter.ValidateTemplate | src/capdag/bifaci/charter.py:216-226 | a template is accepted exactly when it uses the placeholders its location takes |
| Charter.ValidatedIsFilled | src/capdag/bifaci/charter.py:216-252 | a validated location given what it takes is filled |
| Pages.ParseIndexRange | src/capdag/pages.py:30-60 | the loops compute the first occurrences of the clamped segments, or the first error |
| Pages.FirstOccurrencesLaws | src/capdag/pages.py:45-60 | every element once, in the order in which they first come up |
| Pages.ParseLaws | src/capdag/pages.py:30-60 | an accepted selection has only pages of the document, each at most once |
| Pages.NoSelection | src/capdag/pages.py:30-44 | no selection or a blank one is every page; any other is refused for an empty document |
| Pages.FirstErrorIs | src/capdag/pages.py:45-60 | a selection is refused for its first segment that is |
| Pages.BlankSegment | src/capdag/pages.py:49-52 | a blank segment is refused as empty, and blanks around any other make no difference |
| Pages.NoPage | src/capdag/pages.py:66-84 | zero is refused as no page, a number below zero and a text that is no number under what was written |
| Text.ReadsIff | src/capdag/pages.py:66-74 | a text reads as a number exactly when it is digits with at most single underscores between them |
| Pages.SegmentForms | src/capdag/pages.py:63-103 | the three forms of a segment mean their ranges, for any numbers |
| Pages.RefusedIff | src/capdag/pages.py:63-103 | which refusal each form gets, with the numbers it names, for any numbers: the closed form runs backwards before it starts past the end, and the open form can only run backwards |
| Pages.RoundTrip | src/capdag/pages.py:30-103 | any list of pages without repeats, written as numbers, reads back as itself |
| Pages.PrintedRoundTrip | src/capdag/pages.py:30-103 | every such list can be written |
| Versions.CompareIff | src/capdag/bifaci/cartridge_repo.py:598-610 | the comparison is the order of the zero-padded versions |
| Versions.FirstDifferenceDecides | src/capdag/bifaci/cartridge_repo.py:598-610 | padded with zeros to one length, the first part that differs decides |
| Versions.TotalPreorder | src/capdag/bifaci/cartridge_repo.py:598-610 | antisymmetric in sign, total and transitive |
| Versions.SortedLists | src/capdag/bifaci/cartridge_repo.py:632-635 | the listing is newest first |
| Versions.SortedHolds | src/capdag/bifaci/cartridge_repo.py:632-635 | the listing has each version as often as it was given |
| Versions.PrimaryPackageIff | src/capdag/bifaci/cartridge_repo.py:175-196 | the most preferred format that is offered, any other only without one, none only without packages |
| Versions.PreferenceIs | src/capdag/bifaci/cartridge_repo.py:175-196 | the formats each system prefers |
| Versions.InstalledIsForPlatform | src/capdag/bifaci/cartridge_repo.py:311-328 | what is installed is the package of the first build for exactly the host's platform |
| Versions.ValuePrinted | src/capdag/bifaci/cartridge_repo.py:598-610 | a part in decimal is its number |
| Versions.PartsPrinted | src/capdag/bifaci/cartridge_repo.py:598-610 | a version written from numbers reads as those numbers, and a part that is not a number is passed over |
| Versions.ResolvesToNewestInstallable | src/capdag/bifaci/cartridge_repo.py:311-367 | the resolved version can be installed and no version that can is newer; outdated exactly when it is not the one called latest |
| Versions.LatestWins | src/capdag/bifaci/cartridge_repo.py:311-367 | an installable latest that is newer than every other installable version is what a host gets |
| Versions.LatestIsResolvedIff | src/capdag/bifaci/cartridge_repo.py:311-367 | an installable latest is what a host gets exactly when every other installable version is older, or compares as equal and was given later |
| Versions.OtherSpellingIsOutdated | src/capdag/bifaci/cartridge_repo.py:329-356 | a version listed before its spelling with one more `.0` is installed as outdated |

## Left out

- Process spawning, pipes, handshakes, attachment, discovery, the command line, URN matching, manifests and bundles: input and output around the protocol.
- Condition-variable waiting: a blocked acquire, push or look is an attempt repeated after the next change.
- The decision functions compiled from Lean are not shown as bodies; the model defines them from their stated laws. Where the laws leave a choice the model makes it: a number already held is a duplicate even when the buffer is full, and a waiter's position counts those of its own cap.
- CBOR beyond unsigned integers, byte strings, text strings and definite arrays of them; indefinite lengths.
- Stream and item metadata, titles, progress values, and the payload of LOG frames.
- A failed CREDIT write: grants in flight are delivered, in any order.
- Chunks that the receiver is charged for and never grants back (bad checksums, empty chunks, two items in one chunk) in the credit protocol: its plan has none.
- `ThreadSafeEmitter.write` payloads in the scalar round trip: they are raw bytes, not CBOR values; `Response.dfy` counts them as chunks.
- `collect_bytes` refuses an unbounded stream; the scalar round trip starts a bounded one.
- Emission on one stream by several threads at once: a handler's operations on its streams are one sequence.
- Charter.FilledInAnyOrderIff: the result is compared together with its having no brace left; when values with braces happen to give the same text is left out.
- Response.OutputsAnswered: the cardinality an untouched required output is opened in is an argument of `Response.FinishOne`, but frames are seen as the recogniser sees them, without it.
- PoolRuntime.RuntimePools.constructor: what the declarations may be is checked by `Declare`, which calls it; parsing cap URNs is not part of this model, so pool names are told apart by kind and a shared pool cannot be named like a cap.
- Wire snapshots of pools, `held_back`, and the canary capacity of a cartridge that is not running.
- Requests.EveryRunHolds: which waiting request is admitted next is arbitrary there, so its theorems hold for every admission order; a `demux_multi_stream` that raises before the handler's own error handling is not a step.
- The peer-call cascade of a cancel and the closing of a cancelled request's feeds.
- HostRouting.ReleasedIff: for a request a cartridge makes to itself, the first terminal under its key is taken to be the body's, as the code takes it.
- Insertion into the cancel-cascade and sequence tables; they are only collected.
- RoutingGc.ByTouch: sorting is a library call, modelled as any order by touch; entries touched equally late may go in any order.
- LiveFeed.EveryItemIsAccountedFor: a `max_items` of 0 still captures one item, so the bound is the larger of 1 and `max_items`.
- Device capture, selector validation and the runtime-wide overrun counter.
- HTTPS, slug, label and validity-time checks of a charter.
- Unicode blanks and digits in page numbers and versions; the model reads the ASCII ones.
- Error texts: errors are values with the numbers and names the texts mention.
