# go-netx: a verified model

go-netx is a set of small networking components that share ownership and budget rules: a
bounded queue, buffer pools over a byte budget, a stream reader and writer, a flow table, a
TCP server, a UDP receiver and a service lifecycle. This project models their logic in Dafny
and proves what they promise over every input, every interleaving and every reachable state.

How the source is represented:

- Objects that change under one owner at a time are classes with a representation invariant:
  the ring, the limiters, the pool, the reader, the writer and the UDP receive loops. Each
  method is proved against a value-level specification or states its whole new state.
- Protocols between goroutines are transition systems. A state holds the shared words and one
  program counter per goroutine; each load, CAS, critical section, channel operation, hook
  call or hook return is one step. A `Run` is any finite interleaving from the initial state,
  and the theorems hold in every state of every run. History fields (logs, counts of calls)
  record what has happened and never influence a step. Theorems about a call speak of one
  goroutine from the state in which it enters an operation to the step in which it returns,
  with any steps of the others in between.
- The limiters' arithmetic is shared the same way: `LimitSpec` is what the classes of `Limit`
  are proved against and what the TCP and pool protocols take as their steps.
- The queue's critical sections are functions on a plain queue value (`RingSpec`); the masked
  array of `RingBuffer` refines them and `RingProtocol` takes them as its locked steps.
- Environment behaviour is arbitrary: what a source reads or reports, which datagrams arrive
  and how they are batched, what a sink accepts, which pooled buffer is reused or lost, which
  socket a listener returns, what hooks return, when contexts end.

| file | models |
|---|---|
| `Bits.dfy` | masks, bit length and rounding to powers of two |
| `Ring.dfy`, `RingProtocol.dfy` | `queue`: the ring, and its wake-up protocol |
| `Limit.dfy` | `limit`: concurrency, budget, per-key and rate limiters |
| `Buf.dfy`, `PoolProtocol.dfy` | `buf`: size classes, the pool, and the pool under concurrency |
| `Reader.dfy`, `Writer.dfy` | `stream`: the buffered reader, its growth, and the writer |
| `FlowProtocol.dfy`, `FlowTheorems.dfy` | `flow`: flows and the sharded table |
| `FlowCalls.dfy`, `FlowSweeps.dfy` | `flow`: what one whole call of each operation has done when it returns; Sweep |
| `TcpServer.dfy`, `TcpShutdown.dfy`, `TcpCalls.dfy` | `tcp`: accept loop, admission, handlers, stopping; what a call of Close, Shutdown or Serve has done |
| `UdpDrops.dfy`, `UdpReader.dfy` | `udp`: the drop counter and the two receive loops |
| `Lifecycle.dfy` | the service lifecycle of the root package |
| `Common.dfy`, `Sums.dfy`, `Ledger.dfy` | shared types; finite sums; each thing in exactly one place |

Where the code does less than its documentation says, the code is modelled, and the exact
condition is proved beside a concrete counterexample:

- `Drain` signals nobody, so on a full open ring it can strand a parked producer
  (`EarlyDrainStrands`); on a closed ring, or one with Len below Cap, it strands nobody
  (`SafeDrainStrandsNobody`), and exactly when it is safe is `DrainExact`.
- A grow above the largest size class adds one byte at a time, so the claim of a logarithmic
  number of grows holds only up to that class (`GrowsSeldom`, `FillFull`, `GrowsByteByByte`).
- `Touch` is said to have an effect only on a flow still in its table; `Table.Close` takes
  flows out without freezing them, so a later `Touch` does move LastSeen
  (`TouchAfterTableClose`); exactly which departures freeze is `FrozenOnLeaving`.
- `GetAndTouch` says a flow evicted by Sweep is no longer Open; Sweep takes it out first and
  closes it later, so it may still be Open (`EvictedStillOpen`); it is Closed exactly unless
  some goroutine still has it to report (`EvictedIsClosed`).
- `ignoreCanceled` is meant to drop the cancellation only; it drops the whole joined error
  (`CanceledHidesFailure`, `FailureReturnsNil`); exactly when nothing else is lost is
  `IgnoreCanceledExact`.

## Model

| member | source | states |
|---|---|---|
| `Bits.MaskIsMod` | queue/queue.go:90-117 | `x & (2^k - 1)` is `x % 2^k`, with `&` defined bit by bit, for all x and k |
| `Bits.RoundUp` | queue/queue.go:66-79 | the doubling loop ends on the least power of two that is at least n |
| `RingSpec.Push` | queue/queue.go:90-117 | keeps length within capacity and Pushed = Popped + Dropped + Len |
| `RingSpec.PushMeaning` | queue/queue.go:90-117 | Push accepts exactly if open and (not full or DropOldest); an accepted item goes last; an eviction takes the oldest, only when full; Rejected grows exactly on a refusal |
| `RingSpec.PushWaitMeaning` | queue/queue.go:119-150 | whatever the policy, one pass refuses exactly if closed, parks exactly if open and full with nothing changed, and otherwise queues the item last; Rejected grows exactly on a refusal |
| `RingSpec.Pop` | queue/queue.go:162-178 | keeps the same balance, found or not |
| `RingSpec.PopMeaning` | queue/queue.go:162-178 | finds nothing exactly if empty, open or closed, and otherwise takes the oldest item |
| `RingSpec.Drain` | queue/queue.go:219-233 | keeps the same balance, everything left counted as dropped |
| `RingSpec.DrainMeaning` | queue/queue.go:219-233 | leaves nothing and counts exactly what it took as dropped |
| `RingBuffer.MaskWraps` | queue/queue.go:152-160 | a masked index is the index wrapped around once |
| `RingBuffer.WindowTail` | queue/queue.go:152-160 | clearing the head slot and stepping past it removes exactly the first item of the window |
| `RingBuffer.Ring.constructor` | queue/queue.go:66-79 | the capacity is the least power of two at least Cap, and the ring is the empty queue |
| `RingBuffer.Ring.PopLocked` | queue/queue.go:152-160 | the result followed by the new contents is the old contents, and every slot outside the window is zero |
| `RingBuffer.Ring.Push` | queue/queue.go:90-117 | on the array, computes the queue's Push; hands an evicted item to OnDrop; signals notEmpty exactly if accepted |
| `RingBuffer.Ring.PushWaitOnce` | queue/queue.go:122-150 | computes the queue's PushWait; passes the notFull signal on exactly if room is left |
| `RingBuffer.Ring.Pop` | queue/queue.go:162-178 | computes the queue's Pop; signals notFull if it took one, notEmpty if more are left |
| `RingBuffer.Ring.Close` | queue/queue.go:206-215 | closes once and touches no item |
| `RingBuffer.Ring.Drain` | queue/queue.go:219-233 | empties the ring, hands all items to OnDrop oldest first, and signals no one |
| `RingProtocol.KeepsConserved` | queue/queue.go:90-233 | every step keeps accepted = left + queued, in order, with Popped and Dropped counting the fates |
| `RingProtocol.ConsumerStep` | queue/queue.go:81-202 | a step that leaves items queued without a wake-up of its own found them so |
| `RingProtocol.KeepsConsumerLive` | queue/queue.go:81-202 | every step keeps: items queued means a token, a pending signal, or a token holder about to pop |
| `RingProtocol.ProducerStep` | queue/queue.go:122-178 | a step that leaves room without a wake-up of its own did not park and found it so |
| `RingProtocol.KeepsProducerLive` | queue/queue.go:122-178 | every step but a Drain on a full open ring keeps: room before a parked producer means its wake-up is on its way |
| `RingProtocol.KeepsClosesOnce` | queue/queue.go:206-215 | every step keeps: `done` is closed by the one Close that found the ring open |
| `RingProtocol.KeepsDropsOnce` | queue/queue.go:90-117 | every step keeps: each dropped item is owed to OnDrop by one goroutine or was handed over, once |
| `RingProtocol.Reachable` | queue/queue.go:81-233 | all of the above in every state of every interleaving of Push, PushWait, Pop, PopWait, Close and Drain |
| `RingProtocol.NoLostConsumerWakeup` | queue/queue.go:182-202 | items queued and everyone at rest: a parked consumer can take a token and pop |
| `RingProtocol.NoLostProducerWakeup` | queue/queue.go:122-150 | room left and everyone at rest: a parked producer can take a token and retry, if no Drain found the ring open and full |
| `RingProtocol.SafeDrainStrandsNobody` | queue/queue.go:217-233 | the same for a caller: if every Drain found the ring closed or Len below Cap, no parked producer is left before free room |
| `RingProtocol.CloseWakesWaiters` | queue/queue.go:206-215 | `done` is closed at most once, and once everyone is at rest after a Close it is closed and a parked waiter of either kind can go back to the ring |
| `RingProtocol.WaitersMayLeave` | queue/queue.go:143-148 | a parked producer or consumer can give up with its context at any time |
| `RingProtocol.NeverStuck` | queue/queue.go:90-233 | in every state of every run a goroutine inside an operation can go on |
| `RingProtocol.StepDecides` | queue/queue.go:90-203 | what each call answers in terms of the ring it finds: Push, PushWait, Pop, and PopWait, which gives up exactly if closed and empty |
| `RingProtocol.RejectedExact` | queue/queue.go:90-150 | over a run Rejected is the number of refused calls, and capacity and policy never change |
| `RingProtocol.FifoConservation` | queue/queue.go:90-178 | over a whole run items leave in the order accepted; each is popped, dropped or queued; counters agree |
| `RingProtocol.DropsReachOnDrop` | queue/queue.go:90-117 | at rest OnDrop has received exactly the dropped items, each once |
| `RingProtocol.DrainExact` | queue/queue.go:219-233 | from any reachable state, a Drain leaves producers safe if and only if the ring is closed or not full, or none is parked, or a wake-up was on its way |
| `RingProtocol.EarlyDrainStrands` | queue/queue.go:219-233 | a run in which Drain on a full open ring leaves a producer parked before an empty ring for good |
| `Limit.Concurrency.TryAcquire` | limit/limit.go:34-47 | admits exactly below max and counts it; refusal changes nothing |
| `Limit.Concurrency.Release` | limit/limit.go:49-55 | gives one permit back |
| `Limit.TryAcquireAll` | limit/limit.go:104-114 | admits exactly if every limiter has room for all its listings; on refusal every limiter is as it was |
| `Limit.Undo` | limit/limit.go:104-114 | the rollback loop gives back exactly the permits taken, also when a limiter is listed twice |
| `Limit.ReleaseAll` | limit/limit.go:116-120 | one permit per listing is given back |
| `Limit.Budget.Reserve` | limit/limit.go:139-153 | succeeds exactly if 0 <= n and Used + n <= Max; refusal changes nothing |
| `Limit.Budget.Release` | limit/limit.go:156-163 | refunds exactly n and stays within 0..max |
| `Limit.PerKey.TryAcquire` | limit/limit.go:186-195 | admits a key exactly below max; that key then holds one slot more and every other as many as before |
| `Limit.PerKey.Release` | limit/limit.go:198-210 | the key holds one slot less and is forgotten at its last one; every other key is untouched |
| `Limit.FreeUndoesTake` | limit/limit.go:186-210 | taking a slot and giving it back leaves the map as it was, and neither touches another key |
| `RateLimit.Rate.TryAcquire` | limit/limit.go:78-94 | the token and time fields follow the bucket function, and a call is admitted exactly with a whole token |
| `RateLimit.TokensInRange` | limit/limit.go:71-94 | tokens stay within 0..burst over every sequence of calls with a forward clock |
| `RateLimit.Paid` | limit/limit.go:78-94 | admissions never exceed the tokens there plus what has dripped since |
| `RateLimit.WindowBound` | limit/limit.go:71-94 | any stretch of calls from time s to t, whatever came before, admits at most burst + perSec * (t - s) |
| `RateLimit.TokensAreLeast` | limit/limit.go:71-94 | the tokens a call finds are the least of what any window up to it has left of a full bucket and the drip, and some window has left exactly that |
| `RateLimit.AdmitsExactly` | limit/limit.go:71-94 | a call is admitted if and only if in every window that ends with it the admitted calls, it included, are at most burst + perSec * (length of the window) |
| `RateLimit.WaitingPays` | limit/limit.go:78-94 | a call at least 1/perSec after the previous one is admitted |
| `RateLimit.BurstIsTight` | limit/limit.go:78-94 | of n calls at one instant a bucket admits the lesser of n and its tokens, so the burst term is exact |
| `SizeClasses.ClassIsLeast` | buf/buf.go:43-59 | up to Large the class is in range, is the smallest that holds n, and is less than twice n above the smallest class |
| `SizeClasses.CapacityMonotone` | buf/buf.go:43-59 | capacity covers the request, grows with it, and is its own capacity |
| `BufPool.CostAdds` | buf/buf.go:100-121 | the cost of a set of buffers does not depend on the order it is added up in |
| `BufPool.Pool.Get` | buf/buf.go:100-121 | a buffer of length n charged at its capacity and shared with nobody, or null exactly if Used + capacity exceeds Max, and then nothing changed |
| `BufPool.Pool.Take` | buf/buf.go:100-121 | a pooled buffer of the class, or a new one with memory of its own |
| `BufPool.Pool.Copy` | buf/buf.go:124-130 | an owned copy of the data, or null as for Get |
| `BufPool.Pool.Release` | buf/buf.go:136-149 | refunds the capacity, ends the buffer's life, and pools it exactly if it has a class |
| `BufPool.Pool.Collect` | buf/buf.go:72-98 | losing pooled buffers at any time keeps separation and accounting |
| `PoolProtocol.ChargeStep` | limit/limit.go:139-163 | each load, CAS, refund and hand-out moves a charge without losing one, and no CAS goes over max |
| `PoolProtocol.Reachable` | buf/buf.go:100-149 | in every interleaving: Used is live capacity, charges in flight and direct reservations; memory is live, pooled, or with one releaser |
| `PoolProtocol.BudgetCoversLive` | limit/limit.go:139-163 | at every atomic step live capacity <= Used <= Max |
| `PoolProtocol.UsedIsLive` | limit/limit.go:139-163 | at rest, with no direct reservation, Used is exactly the capacity of the live buffers |
| `PoolProtocol.GetIsExclusive` | buf/buf.go:100-121 | the buffer a Get hands out is not live, not pooled and on nobody's way back |
| `PoolProtocol.GetEnds` | buf/buf.go:100-121 | a call of Get ends with one more live buffer of that capacity, or in a state whose budget does not cover it; a lost CAS is retried |
| `PoolProtocol.ReserveEnds` | limit/limit.go:139-153 | a call of Reserve ends with n more in use, or in a state whose budget does not cover n |
| `PoolProtocol.ReleaseEnds` | buf/buf.go:136-149 | a call of Release ends with the buffer pooled exactly if it has a class |
| `PoolProtocol.NeverStuck` | buf/buf.go:100-149 | Get, Reserve and Release never wait |
| `StreamReader.Reader.constructor` | stream/reader.go:63-76 | the defaults of IdleSize and Max, and an empty reader on the idle buffer |
| `StreamReader.Reader.Pull` | stream/reader.go:237-252 | the first read that gives data or an error, with its count and error; NoProgress exactly after a hundred empty reads |
| `StreamReader.Reader.ReadOnce` | stream/reader.go:237-266 | success appends bytes, failure none; the error is the one kept, which is the last of the source or an invalid count, or NoProgress, which is not kept; what a kept error answers from then on |
| `StreamReader.Reader.Adopt` | stream/reader.go:206-222 | the switch to a new buffer keeps the buffered bytes and gives the old pooled one back |
| `StreamReader.Reader.Grow` | stream/reader.go:206-222 | grows to the size class asked for within Max and records it, keeping the bytes; exactly when it is too large, and NoBuffer exactly if the budget does not cover that size; failure changes nothing |
| `StreamReader.Reader.Compact` | stream/reader.go:182-200 | the in-place move to the front keeps the buffered bytes |
| `StreamReader.Reader.Ensure` | stream/reader.go:182-200 | on success there is a free byte and n fit from the read index; as Peek and Fill call it, it grows exactly if n exceeds the buffer, the last grow is never reached, TooLarge means n > Max and NoBuffer a refused grow, exactly |
| `StreamReader.Reader.EnsureAndRead` | stream/reader.go:99-109 | one round keeps the stream unbroken, succeeds exactly if it adds bytes, and fails with TooLarge, NoBuffer, NoProgress or the error kept, each exactly when it applies |
| `StreamReader.Reader.PeekWithin` | stream/reader.go:96-110 | the loop ends, with n bytes buffered exactly if there is no error, having grown at most once; the error is the one that stopped it |
| `StreamReader.Reader.Peek` | stream/reader.go:89-111 | on success the next n bytes of the stream, unconsumed; otherwise what is buffered, fewer than n, and why: TooLarge exactly above Max, NoBuffer exactly if a larger buffer is needed and refused, else NoProgress or the error kept; with n buffered the source is not read; a negative n changes nothing |
| `StreamReader.Reader.Fill` | stream/reader.go:116-124 | succeeds exactly if bytes were appended, and fails for the reasons Peek does, each exactly; grows exactly if the buffer was full |
| `StreamReader.Reader.Discard` | stream/reader.go:129-144 | moves min(n, buffered) bytes to the consumed side and gives the pooled buffer back exactly after a light read that emptied it |
| `StreamReader.Reader.Shrink` | stream/reader.go:225-228 | the pooled buffer goes back and the idle one takes over |
| `StreamReader.Reader.Read` | stream/reader.go:148-163 | hands out and consumes the next bytes of the stream, without reading the source while any are buffered; an error is NoProgress or the one kept |
| `StreamReader.Reader.Release` | stream/reader.go:167-177 | gives the pooled buffer back once and ends the reader |
| `ReaderGrowth.RankRises` | stream/reader.go:202-222 | a grow out of a full class reaches a higher class |
| `ReaderGrowth.GrowsAtMost` | stream/reader.go:202-222 | any sequence of grows: at most one per size class, plus one per byte of Max above the largest |
| `StreamReader.Reader.GrowsSeldom` | stream/reader.go:202-222 | every reader, whatever was done with it, has grown at most that often since its buffer was last the idle one |
| `StreamReader.FillFull` | stream/reader.go:116-124 | above the largest class every successful Fill of a full buffer grows it by one byte, which fills it again |
| `StreamReader.GrowsByteByByte` | stream/reader.go:202-222 | a reader with Max k bytes above the largest class does grow k times in a row, so the logarithmic claim needs Max <= Large |
| `StreamWriter.Writer.Add` | stream/writer.go:38-42 | takes ownership of one more buffer, last in order |
| `StreamWriter.Writer.AddShared` | stream/writer.go:51-57 | queues borrowed bytes; an empty slice is ignored |
| `StreamWriter.WriteEach` | stream/writer.go:65-86 | one Write per piece sends a prefix of all pieces in order: every piece before the one that failed, and all of them if none did |
| `StreamWriter.Writer.Flush` | stream/writer.go:65-86 | a prefix of everything queued, in order, is sent, all of it on success; it fails exactly if a write of the sink does; every owned buffer is released once on every outcome |
| `StreamWriter.Writer.Discard` | stream/writer.go:89-99 | releases every owned buffer exactly once and forgets the rest |
| `Ledgers.MovesKeep` | flow/table.go:98-141 | moves between one home, private lists and a final record keep every item in exactly one place |
| `FlowProtocol.PackingExact` | flow/flow.go:58-73 | the packed word and its low frozen bit stand for ticks and a flag, and freezing, clearing and comparing agree |
| `FlowProtocol.LockStep` | flow/table.go:98-130 | a shard lock and a drawn flow ID belong to one goroutine |
| `FlowProtocol.NextGood` | flow/flow.go:81-161 | every step keeps its own goroutine's local facts and gives the others the guarantee they rely on |
| `FlowProtocol.LocalStable` | flow/table.go:98-218 | no other goroutine's step can break a goroutine's local facts |
| `FlowProtocol.LeaveStep` | flow/table.go:98-141 | a step leaves the ledger of flows alone, adds one flow, takes flows out onto its own list, or reports one of its list |
| `FlowProtocol.KeepsLeavesOnce` | flow/table.go:117-264 | every step keeps each flow in the table, on one goroutine's list, or reported, exactly once |
| `FlowProtocol.Reachable` | flow/table.go:45-264 | all flow and table invariants hold in every state of every interleaving |
| `FlowTheorems.NeverBack` | flow/flow.go:92-161 | the clock and LastSeen never go back, lives go Open to Closing to Closed only, and a frozen word never changes |
| `FlowTheorems.SeenWithinClock` | flow/flow.go:126-148 | LastSeen never exceeds the table's clock |
| `FlowTheorems.VictimStaysIdle` | flow/table.go:192-218 | a Sweep's victim keeps a LastSeen below that Sweep's cutoff for ever |
| `FlowTheorems.TouchLands` | flow/flow.go:126-143 | a Touch that returns is in time for its clock reading unless it found the flow frozen |
| `FlowTheorems.TouchSaves` | flow/flow.go:152-161 | after a Touch in time on an unfrozen flow no Sweep with that cutoff or an earlier one ever takes it |
| `FlowCalls.TouchRecords` | flow/flow.go:126-143 | when a Touch returns LastSeen is at least the table clock at the call, or it found the flow frozen |
| `FlowCalls.CalledTouchSaves` | flow/flow.go:116-161 | a Touch called at or after a cutoff that returns on an unfrozen flow keeps it from every Sweep with that cutoff or an earlier one |
| `FlowCalls.CloseCloses` | flow/flow.go:92-114 | when Close returns the flow is Closed, when BeginClose returns it is not Open, and the call that moved it has frozen it |
| `FlowCalls.OpenFindsOrMakes` | flow/table.go:93-112 | GetOrOpen that returns without a panic leaves the key in the table: it found a flow and changed nothing, or made one where there was none, Open and last seen at a clock reading of the call |
| `FlowCalls.RemoveRemoves` | flow/table.go:114-130 | when Remove(k, id) returns the table does not map k to id, and never does again if there has been such a flow |
| `FlowCalls.TableCloseEmpties` | flow/table.go:252-264 | whatever is in the table after a call of Table.Close was opened during or after it |
| `FlowCalls.StaysGone` | flow/table.go:117-264 | a flow that has left the table never comes back |
| `FlowCalls.WaitsForLocksOnly` | flow/table.go:98-264 | a goroutine inside an operation can go on exactly unless it asks for a locked shard, and asks for none while it holds one |
| `FlowCalls.NoDeadlock` | flow/table.go:98-264 | who cannot go on waits for a shard held by a goroutine that can |
| `FlowTheorems.ExactlyOnce` | flow/table.go:98-141 | created flows are the disjoint union of those in the table, taken out and unreported, and reported, once, when Closed |
| `FlowTheorems.OneReporter` | flow/table.go:132-141 | no two goroutines have the same flow to report |
| `FlowTheorems.QuietPartition` | flow/table.go:132-141 | with no removal under way every flow has been reported or is in the table |
| `FlowSweeps.ReportStep` | flow/table.go:132-141 | a step at which a goroutine reports appends exactly that flow to the reports |
| `FlowSweeps.OnlyItsReporter` | flow/table.go:132-141 | a flow that a goroutine has yet to report is reported by that goroutine and no other |
| `FlowSweeps.ReportsAsItGoes` | flow/table.go:192-218 | from its first step on, a call of Sweep has itself reported exactly the victims it has dealt with, in order |
| `FlowSweeps.SweepCountsItsReports` | flow/table.go:192-218 | when a call of Sweep returns, its own reports are exactly its victims, each once, so the count it returns is their number |
| `FlowSweeps.KeptIsNotIdle` | flow/table.go:178-213 | a flow in the table throughout a call of Sweep(now), until it starts to report, was seen since now - IdleTimeout or touched or frozen meanwhile |
| `FlowSweeps.IdleIsGone` | flow/table.go:178-213 | so an idle flow nobody touches or freezes meanwhile is out of the table by then |
| `FlowSweeps.SweepReturns` | flow/table.go:192-218 | a call of Sweep returns after its scan and all its reports, or, exactly if idle eviction is off, after advancing the clock |
| `FlowSweeps.SweepAdvances` | flow/table.go:243-250 | once Sweep(now) is done with advance the table clock is at least now |
| `FlowSweeps.ClockIsSwept` | flow/table.go:243-250 | the table clock is always its start or the time some Sweep was called with |
| `FlowSweeps.EvictedIsClosed` | flow/table.go:82-91 | a flow Sweep has evicted is out of the table, frozen, and Closed unless some goroutine still has it to report |
| `FlowSweeps.EvictedStillOpen` | flow/table.go:192-218 | a run in which a flow that Sweep has evicted is still Open |
| `FlowTheorems.OneWinner` | flow/flow.go:92-114 | at most one BeginClose and one Close of a flow return true; a flow not Open is frozen unless its closer is about to freeze it |
| `FlowTheorems.OneShardPerKey` | flow/table.go:45-67 | a key lives only in the shard of its hash modulo the number of shards |
| `FlowTheorems.TableIsOneMap` | flow/table.go:65-80 | in every state a lookup in the key's shard is a lookup in one map, and the shards' sizes add up to its size |
| `FlowTheorems.TableSimulatesMap` | flow/table.go:98-264 | every step of every operation on that map: GetOrOpen inserts an absent key, Remove deletes the key of its flow, Sweep takes out its victims one by one, Close empties shard after shard, nothing else touches it |
| `FlowTheorems.LenCountsMap` | flow/table.go:144-153 | Len, which locks one shard after the other, is the map's size if no flow comes or goes meanwhile |
| `FlowTheorems.LaterFlowNewerId` | flow/flow.go:34-34 | a later flow of a key has the greater ID |
| `FlowTheorems.RemoveTakesOnlyItsFlow` | flow/table.go:117-130 | Remove takes out the flow with that ID and no other, so a stale ID removes nothing newer |
| `FlowTheorems.FrozenOnLeaving` | flow/table.go:117-264 | a flow leaves frozen if and only if it was not Table.Close that took it, or it was frozen before |
| `FlowTheorems.TouchAfterTableClose` | flow/table.go:253-264 | a run in which a Touch moves LastSeen of a flow Table.Close has taken out |
| `TcpServer.AcceptPhase` | tcp/server.go:192-212 | an accepted socket starts with nothing held and uncounted |
| `TcpServer.AdmitPhase` | tcp/server.go:213-227 | through admission a socket holds exactly what its place in the loop says, and a rejected one nothing |
| `TcpServer.TrackPhase` | tcp/server.go:228-239 | the same from track to the handler's start, and for the socket track refuses |
| `TcpServer.ServePhase` | tcp/server.go:162-239 | the same for every step of Serve |
| `TcpServer.HandlerPhase` | tcp/server.go:241-265 | the same through the deferred calls of a connection: close, release, untrack, count |
| `TcpServer.KeepsPhases` | tcp/server.go:192-306 | every step keeps every socket in hand, with a handler, or settled: closed, nothing held, Closed exactly if Accepted |
| `TcpServer.MovesKeep` | tcp/server.go:253-306 | counters that move with one socket keep counting all sockets |
| `TcpServer.KeepsCounts` | tcp/server.go:192-306 | every step keeps every counter, permit and slot equal to the number of sockets it stands for |
| `TcpServer.KeepsBounded` | limit/limit.go:186-210 | every step keeps a remembered address between one slot and the limit |
| `TcpShutdown.StopFlags` | tcp/server.go:314-337 | a stopping caller's step moves the flags in order: stopped, listener closed, Draining, then abort |
| `TcpShutdown.KeepsStopOk` | tcp/server.go:162-363 | every step keeps the flags, the once, the wait group and the order of Serve's end |
| `TcpShutdown.StepGrows` | tcp/server.go:290-306 | no step tracks a connection after stopped or reopens a socket |
| `TcpShutdown.KeepsCover` | tcp/server.go:325-337 | every step keeps: while abortAll runs, each tracked connection is closed or on its list |
| `TcpShutdown.KeepsFewLoose` | tcp/server.go:192-239 | every step keeps at most one socket uncounted, the one in hand or the late one |
| `TcpShutdown.Reachable` | tcp/server.go:162-363 | all of it in every state of every interleaving of Serve, handlers, Close and Shutdown calls |
| `TcpShutdown.StoppedIsFinal` | tcp/server.go:290-298 | once stopped, always stopped, and from then on tracked connections only go |
| `TcpShutdown.AbortFollowsStop` | tcp/server.go:314-363 | abortAll runs only with the listener closed and Draining signalled, which happens once |
| `TcpShutdown.AbortClosesAll` | tcp/server.go:325-337 | when a call of abortAll ends every connection tracked then or later is closed |
| `TcpCalls.CloseAborts` | tcp/server.go:358-363 | when Close returns the server is stopped, the handler context cancelled, and every connection tracked then or later is closed |
| `TcpCalls.ShutdownWaitsOrAborts` | tcp/server.go:339-356 | when Shutdown returns the server is stopped, and it was not serving, or Serve had returned, or it has aborted as by Close |
| `TcpCalls.ShutdownWaitsFirst` | tcp/server.go:339-356 | Shutdown aborts only from its wait, on a serving server |
| `TcpCalls.ShutdownCanEnd` | tcp/server.go:349-355 | a waiting Shutdown can abort when its context ends, and can return once Serve has |
| `TcpCalls.BrokenServeAborts` | tcp/server.go:180-187 | a Serve whose accept loop breaks has aborted as by Close before it waits for handlers |
| `TcpShutdown.ContextOutlivesHandlers` | tcp/server.go:162-190 | the handler context is cancelled exactly by abortAll or after the last handler |
| `TcpShutdown.HoldersExact` | tcp/server.go:192-265 | permits and slots in use are exactly the sockets holding them, within the limit; one counted Closed holds none |
| `TcpShutdown.HandledIsAdmitted` | tcp/server.go:213-250 | a connection whose handler runs is tracked and holds every limit that applies |
| `TcpShutdown.ReleasesAreHeld` | tcp/server.go:253-265 | nothing is released that is not held, so no limiter panics |
| `TcpShutdown.EverySocketCounted` | tcp/server.go:213-239 | every accepted socket is counted once as Accepted, Rejected or RejectedPerIP but for at most one |
| `TcpCalls.TurnsAwayForCause` | tcp/server.go:192-234 | for the address limit exactly if that many sockets of the address hold a slot, for Admit only if there is one, late exactly if stopped, and the listener is given up only on an error before the stop |
| `TcpCalls.AcceptErrorsExact` | tcp/server.go:195-208 | AcceptErrors is the number of errors Serve has backed off from |
| `TcpCalls.OutsideIsFree` | tcp/server.go:192-227 | Accept may return a socket of any address or fail for a while or for good, and the Admit limiter may answer either way |
| `TcpCalls.EveryoneCanStep` | tcp/server.go:162-363 | exactly who has to wait: Serve for its handlers at its end, and whoever would stop the server for the one stopping it, which can go on |
| `TcpShutdown.ServeReturnsClean` | tcp/server.go:162-190 | when Serve returns nothing is tracked or open, Active is 0, Accepted equals Closed, no permit or slot is held, done is closed once |
| `UdpDrops.DeltaExact` | udp/udp.go:146-158 | the wrapped signed difference is the true one if and only if within the 32-bit window |
| `UdpDrops.DropStep` | udp/udp.go:146-158 | a step adds exactly what it moves the accepted count forward by |
| `UdpDrops.TotalIsGreatest` | udp/udp.go:138-158 | total plus pending adds is the greatest true count decided, under stale and repeated reports and any number of wraps |
| `UdpDrops.QuietTotal` | udp/udp.go:138-158 | at rest the total is that count |
| `UdpDrops.ObserveIsDecided` | udp/udp.go:146-158 | when an observe returns its count is at most the total plus pending adds, so a lost CAS is retried |
| `UdpDrops.WindowIsSharp` | udp/udp.go:146-158 | one step outside the window on either side is misread |
| `UdpReader.SameSender` | udp/udp.go:322-322 | unmapping the sender after its zone is set, as read does, or before, as the batch reader does, names the same sender: the 4-byte address of a mapped one, any other as it came |
| `UdpReader.ResetEarly` | udp/udp.go:354-354 | one reset of the delay before a batch that holds a datagram is a reset per datagram |
| `UdpReader.Conn.DeliverSingle` | udp/udp.go:302-323 | the body of read for one datagram computes its meaning, whatever the handler writes |
| `UdpReader.Conn.DeliverMessage` | udp/udp.go:355-371 | the body of readBatch for one message, with no reset and the sender as the batch reader gives it, computes the same and touches its slot only |
| `UdpReader.Conn.Read` | udp/udp.go:289-325 | the single-buffer loop computes the meaning of the events, whatever handlers write into the buffer |
| `UdpReader.Conn.DeliverBatch` | udp/udp.go:346-372 | a batch, with one reset, has the meaning of its datagrams one by one; handlers writing all over their slots cannot change a later one |
| `UdpReader.Conn.ReadBatch` | udp/udp.go:329-373 | for any split into batches the batched loop has the same calls, counters, drop reports and delays as the single loop; a socket it cannot get is its only failure |
| `UdpReader.Conn.Carve` | udp/udp.go:329-345 | slots of one block do not overlap and cover it |
| `UdpReader.Conn.ReadFailed` | udp/udp.go:376-398 | a closed socket stops the loop whatever else the error is; otherwise each class is counted and stops, waits or goes on as the loop's meaning says |
| `UdpReader.ProcessConcat` | udp/udp.go:289-373 | processing a sequence in two parts is processing it whole |
| `UdpReader.HandlerGetsWhole` | udp/udp.go:289-325 | while nothing ends the loop the handler gets exactly the untruncated datagrams in order |
| `UdpReader.CountersCountWhole` | udp/udp.go:289-325 | and the counters count and weigh exactly those |
| `UdpReader.EveryEventCounts` | udp/udp.go:289-398 | each event is counted once as received, truncated or an error, and delays stay bounded |
| `UdpReader.ObservesAndCounts` | udp/udp.go:302-323 | every drop count is observed in order, of truncated datagrams too; Truncated and RecvErrors each count exactly their events |
| `UdpReader.LoopEnds` | udp/udp.go:376-398 | an event that ends the loop is the last one handled; a closed socket ends it quietly, the first fatal error on an open connection is kept and closes it, Close ends a wait |
| `UdpReader.HarmlessLeavesOpen` | udp/udp.go:376-398 | no other event closes the connection or is kept as its error |
| `UdpReader.BackoffDoubles` | internal/backoff/backoff.go:12-14 | transient errors in a row are waited out for 5 ms doubling up to 1 s |
| `UdpReader.FirstFatalKept` | udp/udp.go:376-398 | the first fatal error stays, and none is recorded after Close |
| `Lifecycle.LoopStep` | lifecycle.go:200-313 | every step of LoopContext keeps calls, phase and error parts in line with its place |
| `Lifecycle.Reachable` | lifecycle.go:188-340 | the lifecycle invariant in every state of every interleaving of LoopContext, Stop, Shutdown, forceAbort and Serve |
| `Lifecycle.OnlyForward` | lifecycle.go:279-313 | the state only moves forward and the run keeps its owner |
| `Lifecycle.OneRun` | lifecycle.go:279-295 | only one LoopContext call ever passes begin |
| `Lifecycle.CallsInOrder` | lifecycle.go:200-277 | Shutdown at most once; the service context cancelled, and OnStop run at most once, only after it returned; done and force closed at most once |
| `Lifecycle.ExitIsComplete` | lifecycle.go:200-313 | every LoopContext that ends ran OnStart if set, served exactly if that succeeded, called Shutdown once, cancelled, ran OnStop if set, and reported once exactly if OnError is set and the error not nil |
| `Lifecycle.ErrorHasEveryPart` | lifecycle.go:215-255 | the error joins the failed start or what Serve returned (or the timeout), Shutdown's and OnStop's errors |
| `Lifecycle.NoFailureIsLost` | lifecycle.go:215-268 | leaf by leaf: every failure of OnStart, OnStop, a started Serve and Shutdown is in the result, a Shutdown error holding a cancellation aside once the service ran, and nothing else but a panic of OnError |
| `Lifecycle.ErrorInOrder` | lifecycle.go:220-255 | the parts are joined in order: OnStart or Serve, Shutdown, OnStop |
| `Lifecycle.StepForCause` | lifecycle.go:200-340 | the drain begins only because Serve returned or a stop was asked for; Serve's error is what it returned, or the timeout once cancelled; a call is refused only in the state its error names |
| `Lifecycle.HooksReturnAnything` | lifecycle.go:213-255 | each hook, Shutdown and Serve may return any error, and that is the one kept |
| `Lifecycle.LoopNeverStuck` | lifecycle.go:200-268 | LoopContext waits only in its select, which it can leave exactly if Serve has returned or a stop was asked for |
| `Lifecycle.ServeNotLeftRunning` | lifecycle.go:246-254 | from OnStop on Serve was never started, has returned, or has had its context cancelled |
| `Lifecycle.StopIsHeard` | lifecycle.go:188-326 | Stop and Shutdown that are not refused have asked the loop to stop for good; forceAbort after begin has closed force once |
| `Lifecycle.ShutdownCanEnd` | lifecycle.go:328-340 | a waiting Shutdown can end with its own context, and with the result once there is one |
| `Lifecycle.NilExactly` | lifecycle.go:255-268 | LoopContext returns nil exactly if no part failed, a Shutdown error holding a cancellation aside |
| `Lifecycle.ShutdownSeesResult` | lifecycle.go:328-340 | a Shutdown call that waited returns what LoopContext returned |
| `Lifecycle.IgnoreCanceledExact` | lifecycle.go:351-358 | dropping the cancellation loses nothing else if and only if there is none, or nothing else |
| `Lifecycle.CanceledHidesFailure` | lifecycle.go:351-358 | a cancellation joined with a real failure is dropped with it |
| `Lifecycle.FailureReturnsNil` | lifecycle.go:246-255 | a whole run in which Service.Shutdown fails for a reason of its own and LoopContext returns nil |

## Left out

- `socket/` and `internal/sys`: options, recvmmsg and errno tables are foreign calls or short branches.
- `tcp/dialer.go`, the timer of `internal/backoff`, `internal/counter`, `internal/leak` and `examples/` would only add easy members.
- Real time, tickers, timers and signal delivery are environment steps. Who can take a step is proved; that a scheduler lets it is not.
- Integer widths: counters, sizes and IDs are unbounded, except where wrap-around is the point (`UdpDrops`); its 64-bit total does not wrap.
- Misuse that panics (double release, over-release, a capacity of zero) is a precondition; the state after such a panic is not modelled.
- Flows and the table are modelled as a transition system instead of classes with fields, since every access is atomic or under a shard lock; map iteration order is arbitrary.
- `flow`: the values flows carry, the booleans Remove and GetOrOpen return (the state they return in is modelled), Range, Run's ticker, flows made outside a table, and whether OnClose is set.
- `tcp`: connection IDs, the address key of `ipKey`, a second Serve call (refused at once), and handlers that panic.
- `udp`: sending, Serve and Close, and the errno table behind an error's class; a batch read returns at least one datagram, as the batch reader promises.
- Lifecycle: Loop's signals, groups of services, and how closing force shortens the drain; timeouts are contexts that may end at any time.
- Limit.TryAcquireAll: covers limiters whose Release undoes TryAcquire; a Rate inside All keeps the tokens it took.
- Limit.ReleaseAll: the same limiters.
- RateLimit.Rate.TryAcquire: over the reals, without floating-point rounding.
- StreamWriter.Writer.Add: the buffers of one Writer come from one pool.
- StreamWriter.WriteEach: a sink that takes fewer bytes than offered reports an error, as io.Writer demands.
