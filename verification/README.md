# EmbeddedJvm: a model and its proofs

EmbeddedJvm runs a Java virtual machine inside a Cocoa program. One thread owns the JVM; everything else reaches it by
appending blocks to a queue. On top of that, Thrift channels let host and Java code call each other. This project models
the parts where that can go wrong and proves what they promise, for every run or every input.

- **The executor** (`Executor.dfy`, `ExecutorInvariant.dfy`, `ExecutorTheorems.dfy`, `ExecutorRuns.dfy`,
  `ExecutorSteps.dfy`, `EJJvm.dfy`). `EJJvm` as a step machine: every critical section, property access, source signal,
  run-loop wakeup, semaphore post and wait is one step, and steps of any number of callers, the JVM thread, the initialiser
  and the global queue interleave freely. A block is a function from the JVM state to a state, a result or an exception,
  and a pending Java exception. Class `EJJvm` has the code: its methods test and write its properties and those of the run
  loop, one atomic piece each; between any two of these other threads take steps as a schedule says, each that is possible
  when its turn comes. A method that gives up waiting does so only when the schedule is used up. The invariant of the class
  is that what has happened is a run of the machine, so every theorem about runs holds of the object.
- **Channel ownership** (`Ownership.dfy`, `OwnershipTheorems.dfy`, `OwnershipAccounts.dfy`, `OwnershipRuns.dfy`,
  `ThriftChannel.dfy`, `EJThriftChannel.dfy`). A retained reference goes from native code through a static slot into a
  field of a Java object and back to one release, among closers, finalizers, requests and callbacks on any number of
  threads, with re-entrant monitors. The Java class and the native class are classes here, too: the Java methods read and
  write their fields and branch on them, while monitors and call stacks are moved by the protocol's step function; the
  native class uses the `EJJvm` object.
- **Waiting** (`WaitGraph.dfy`). Callers, lifecycle queue, JVM thread, Java monitors and channel event queues: whom a lock
  keeps out, who waits for whom, and why it never goes round.
- **Buffers** (`FunctionTransport.dfy`). A growable array with a read cursor, cut into transactions by `flush`.
- **Codec, dispatcher, client** (`BinaryEncoding.dfy`, `Messages.dfy`, `TestHostToJvm.dfy`). The bytes of the Thrift
  binary protocol, the generated structs that skip what they do not know, the dispatcher, the client, and what a call
  through all of it returns. `BinaryEncoding` and `Messages` say what the bytes mean, as functions; `TestHostToJvm` has the
  generated code as objects, each method proved to do that.

`Wrappers.dfy` holds the shared option type. `dafny verify dfyconfig.toml` verifies everything.

Assumed of the platform: memory is sequentially consistent. A version-0 run-loop source has one level flag, cleared just
before its perform callback; a wakeup is kept for the next sleeper. Blocks do not spin the JVM thread's run loop. What a
block throws is an `NSException`, which is what `doCommand` catches. `getChannel` is one step. The wire format is that of
the Thrift binary protocol encoding (sections "Integer encoding", "Binary encoding", "Message", "Struct", "List and Set"
and "Map") with the strict message header; a negative size or an unknown type byte is malformed. Strings stand for their
UTF-8 bytes. The JVM, Foundation, the run loop, and Thrift's own `TBinaryProtocol`, `TProtocolUtil`,
`TApplicationException`, `TMemoryBuffer`, `TMemoryInputTransport` and `TByteArrayOutputStream` are library code outside
the repository; the model gives them the behaviour that the code relies on.

## What the proofs brought to light

Each of these is a lemma; where a promise fails, another lemma says exactly when it holds.

- A caller that has passed the `isShutdown` test and appends after the JVM thread's last drain waits for ever, although the
  run loop never fails (`CallerCanBeLeftBehind`, `LeftUnrun`, `LeftBehindForever`).
- `close` can come back while the JVM thread is still taking the JVM down, if and only if the run loop has failed: the
  thread stores `isShutdown` first, and the closer then asks for no more (`CloseReturnsBeforeTheEnd`,
  `RefusedBeforeTheEnd`, `CloseRunsEverythingBefore`).
- `init` can fail without an error although the JVM was created, if and only if the run loop has failed and the JVM thread
  is faster than the initialiser (`FailsWithoutError`, `InitialiserLooks`, `StartHandshake`).
- A channel that is closed or deallocated after its JVM calls a nil completion block: `close` passes none, and
  `callJvmAsyncVoid` calls it unguarded exactly if shutdown is visible (`EJThriftChannel.Close`, `NilCompletions`,
  `NilCompletionIsCalled`).
- A block starts with a pending Java exception exactly if it is the first one and `printMethods` left one behind
  (`CleanStart`, `FirstBlockCanStartDirty`): its JNI calls are not followed by a clear.
- The comment "Create one and only one processor" is true if and only if no `makeProcessor` comes back to find the field no
  longer null, which takes a `makeProcessor` that calls `callHostToJvm` of its own channel; Java monitors are re-entrant
  (`OneProcessorForAll`, `ReentryMakesTwo`, `ReentryCanKeepOne`).
- A callback that reads the field before the release can call into the native channel after it, with a reference that is
  no longer retained; while the peer has not released it the reference is good (`CallbackTokenIsLive`,
  `CallbackCanDangle`).
- A failed `connect` can leave a retained reference in the static slot, and the next `connect` loses it
  (`EJThriftChannel.Connect`, `LeaksOnlyInConnect`).
- A second request on one `EJThriftChannelTransport` is sent behind the first reply, and the dispatcher answers the reply,
  as a request with a null argument (`Flush`, `RequestBehindReply`). `doWithClient` makes a transport for each block, so
  the first request of each block is safe.
- A block that makes a synchronous call or closes the JVM, and a host processor that makes one or closes its own channel,
  wait for themselves, and two threads that enter monitors crosswise for each other (`SyncCallInBlockHangs`,
  `CloseInBlockHangs`, `SyncCallInProcessorHangs`, `CloseInProcessorHangs`, `TwoMonitorsHang`); no continuation of a run
  ends such a wait (`CycleIsForever`).

## Model

| member | source | states |
|---|---|---|
| `ExecutorTheorems.SerialExecution` | EmbeddedJvm/EJJvm.mm:618-669 | in every run blocks execute in append order, each at most once, and the JVM state is the fold of the executed blocks; no refused call is ever appended |
| `ExecutorTheorems.SyncResult` | EmbeddedJvm/EJJvm.mm:671-739 | a sync call that has returned yields what its own block returned in the serial execution, or 0 or nil if it threw; a refused one yields 0 or nil and its block never runs |
| `ExecutorTheorems.EveryStepIsSerial` | EmbeddedJvm/EJJvm.mm:618-739 | every step either leaves the serial executor alone or runs one block whose call has begun and has not come back: refinement, and the block runs strictly between call and return |
| `ExecutorTheorems.HistoryGrows` | EmbeddedJvm/EJJvm.mm:438-458 | append order and execution order only grow, isShutdown and shutdownRequested never go back to NO, an ended JVM thread stays ended |
| `ExecutorTheorems.RealTimeOrder` | EmbeddedJvm/EJJvm.mm:671-739 | linearizability: a sync call that returned before another call began comes before it in the serial order |
| `ExecutorTheorems.NoLostWakeup` | EmbeddedJvm/EJJvm.mm:524-536 | JVM thread parked and queue not empty: an enqueuer is between its append and its signal, or the source is signalled and a wake is pending or about to be sent; the timeout plays no part |
| `ExecutorTheorems.EnqueuerWakes` | EmbeddedJvm/EJJvm.mm:654-669 | such an enqueuer can always step on, passes both nil tests, and does signal and wake |
| `ExecutorTheorems.WakeupDelivers` | EmbeddedJvm/EJJvm.mm:855-859 | a signalled source and a pending wake take the parked thread to the head of the queue in three steps of its own |
| `ExecutorTheorems.CloseRunsEverythingBefore` | EmbeddedJvm/EJJvm.mm:438-458 | when any close comes back, after its own pill or refused because another was first, and the run loop never failed: the JVM thread has ended, a pill has run, every block appended up to a pill has run in order, and every sync call whose block has run has had its semaphore posted once; without a JVM no block has run |
| `ExecutorTheorems.RefusedBeforeTheEnd` | EmbeddedJvm/EJJvm.mm:438-458 | the condition is exact: a closer is sent back while the JVM thread is still at work if and only if the run loop has failed and the thread is past its store to isShutdown |
| `ExecutorRuns.CloseReturnsBeforeTheEnd` | EmbeddedJvm/EJJvm.mm:538-545 | a run in which close comes back while the JVM thread is still taking the JVM down |
| `ExecutorTheorems.PillEndsTheThread` | EmbeddedJvm/EJJvm.mm:524-575 | once a pill has been appended, the steps the JVM thread can still take are bounded by queue length, appends and wakeups, and it always has one until it has ended: the end signal does come |
| `ExecutorTheorems.LeftUnrun` | EmbeddedJvm/EJJvm.mm:524-575 | commands unrun at the end are exactly those appended after the last drain saw the queue empty, and the sync callers still waiting are exactly the callers of those |
| `ExecutorTheorems.LeftBehindForever` | EmbeddedJvm/EJJvm.mm:671-739 | such a caller does not come back in any continuation |
| `ExecutorRuns.CallerCanBeLeftBehind` | EmbeddedJvm/EJJvm.mm:671-739 | there is a run in which a caller is left behind although the run loop never fails |
| `ExecutorTheorems.CloserHasItsSignal` | EmbeddedJvm/EJJvm.mm:438-458 | a waiting closer has appended the one pill of the run, waits alone, and its end signal is posted exactly if the JVM thread has ended; after a failed start none waits |
| `ExecutorTheorems.SemaphoresPostOnce` | EmbeddedJvm/EJJvm.mm:490-575 | on every path each lifecycle semaphore is posted once, and consumed at most once |
| `ExecutorTheorems.NoWaitAfterFailedStart` | EmbeddedJvm/EJJvm.mm:494-502 | after a failed start nothing is appended and no closer waits |
| `ExecutorTheorems.StartHandshake` | EmbeddedJvm/EJJvm.mm:389-402 | construction fails with the start error if and only if the JVM was not created; if nobody can close the object before, it fails otherwise only if the run loop has failed, so as long as the run loop starts it succeeds if and only if the JVM was created |
| `ExecutorTheorems.InitialiserLooks` | EmbeddedJvm/EJJvm.mm:395-402 | at the initialiser's test: it will fail without an error if and only if the JVM was created and isShutdown is stored, which before any call is if and only if the run loop has failed and isShutdown is stored |
| `ExecutorRuns.FailsWithoutError` | EmbeddedJvm/EJJvm.mm:396-402 | a run in which construction fails without an error although the JVM was created |
| `ExecutorTheorems.InstalledBeforeAppends` | EmbeddedJvm/EJJvm.mm:505-522 | no caller reaches its append before JVM, run loop and source are there |
| `ExecutorTheorems.Completions` | EmbeddedJvm/EJJvm.mm:741-786 | a completion is invoked at most once, with the value of its own block after it returned, never if it threw; inline with 0 or nil and the block never run if shutdown was visible |
| `ExecutorTheorems.NilCompletions` | EmbeddedJvm/EJJvm.mm:741-786 | exactly when a nil completion is called: by callJvmAsyncVoid if and only if the call was refused, by the other two also once the completion of a block that returned has run |
| `ExecutorRuns.NilCompletionIsCalled` | EmbeddedJvm/EJJvm.mm:741-744 | a run in which callJvmAsyncVoid calls a nil completion, after the JVM was closed in the ordinary way |
| `ExecutorTheorems.CleanStart` | EmbeddedJvm/EJJvm.mm:588-646 | a block begins with a pending Java exception if and only if it is the first and printMethods left one |
| `ExecutorRuns.FirstBlockCanStartDirty` | EmbeddedJvm/EJJvm.mm:519-524 | a run in which the first block does begin so |
| `ExecutorTheorems.WhatWasDecided` | EmbeddedJvm/EJJvm.mm:519-536 | the three conditions in the other theorems mean what they say: the run loop has failed if and only if in some step of the run it was not started; the JVM was created, and printMethods left an exception, if and only if the one step that asks said so |
| `ExecutorTheorems.StepInCall` | EmbeddedJvm/EJJvm.mm:618-652 | a call of doCommand is left only by a step that sees the queue empty |
| `ExecutorTheorems.DrainMeasure` | EmbeddedJvm/EJJvm.mm:618-652 | steps taken in one call plus steps left equal steps left before plus five for each append meanwhile, also if blocks append or throw |
| `ExecutorTheorems.DrainEnds` | EmbeddedJvm/EJJvm.mm:618-652 | with a bound on the appends one call of doCommand takes boundedly many steps and is never stuck |
| `ExecutorInvariant.StepKeepsInv` | EmbeddedJvm/EJJvm.mm:438-786 | every step of every thread keeps the invariant from which the theorems follow |
| `EmbeddedJvm.EJJvm.Yield` | EmbeddedJvm/EJJvm.mm:618-739 | between two atomic pieces the other threads take exactly those steps of their turn that are possible when they come, no more and no fewer, and leave alone what belongs to the thread that waits |
| `EmbeddedJvm.EJJvm.TakeCommand` | EmbeddedJvm/EJJvm.mm:622-631 | the critical section of doCommand: the head of the queue, or none if and only if it is empty |
| `EmbeddedJvm.EJJvm.RunBlock` | EmbeddedJvm/EJJvm.mm:635-640 | the block runs once and is recorded as the next of the serial execution |
| `EmbeddedJvm.EJJvm.DoCommand` | EmbeddedJvm/EJJvm.mm:618-652 | ends, whatever a finite schedule of other threads appends meanwhile, with the queue seen empty and every command appended so far run |
| `EmbeddedJvm.EJJvm.MainThreadLoop` | EmbeddedJvm/EJJvm.mm:490-576 | a failed start stores both flags and ends; after one that worked, when it ends isShutdown is stored, the end signal posted once, exactly the commands appended before the last drain have run, and unless the run loop failed a poison pill is among them; when it has not ended, the thread is about to enter its run loop or parked in it with nothing left to go on with, no pill has run and the run loop has not failed |
| `EmbeddedJvm.EJJvm.EnqueueCommand` | EmbeddedJvm/EJJvm.mm:654-669 | appends the block; both tests passed if and only if the call has signalled the source and woken the run loop when it comes back |
| `EmbeddedJvm.EJJvm.Append` | EmbeddedJvm/EJJvm.mm:656-658 | the critical section: the command goes to the end of the queue |
| `EmbeddedJvm.EJJvm.SignalSource` | EmbeddedJvm/EJJvm.mm:663 | the source is signalled if it is still there |
| `EmbeddedJvm.EJJvm.WakeRunLoop` | EmbeddedJvm/EJJvm.mm:664 | a wakeup is pending if the run loop is still there |
| `EmbeddedJvm.EJJvm.CallJvmSync` | EmbeddedJvm/EJJvm.mm:671-739 | comes back with what its block returned in the serial execution, or 0 or nil if that threw; with 0 or nil and its block never appended if it was refused, as every call is that begins after shutdown; it still waits only if its semaphore is not posted and the other threads have had every turn of the schedule |
| `EmbeddedJvm.EJJvm.CallJvmAsync` | EmbeddedJvm/EJJvm.mm:741-786 | comes back at once: returned if and only if its block is appended; refused, as every call is that begins after shutdown, with its completion called inline with 0 or nil, nil or not |
| `EmbeddedJvm.EJJvm.Close` | EmbeddedJvm/EJJvm.mm:438-458 | whichever closer it is, if it comes back and the run loop never failed, the JVM thread has ended, a pill has run, and everything appended before the pill has run, in order; it still waits only if every turn of the schedule has passed and the lifecycle queue is taken or the end signal not posted |
| `OwnershipTheorems.TokensConserved` | EmbeddedJvm/Thrift/EJThriftChannel.mm:40-51 | in every run retains minus releases of a channel are its tokens in the slot, in Java fields, in closers' hands and lost |
| `OwnershipTheorems.LeaksOnlyInConnect` | EmbeddedJvm/Thrift/EJThriftChannel.mm:156-161 | in a run a token is lost if and only if some connect overwrites a full slot |
| `OwnershipTheorems.PeerNamesLiveChannel` | EmbeddedJvm/Thrift/EJThriftChannel.mm:35-51 | a peer field that is not 0 names a channel with more retains than releases |
| `OwnershipTheorems.ConnectedOnce` | EmbeddedJvm/Thrift/EJThriftChannel.mm:156-161 | a channel retained once is in one place only |
| `OwnershipTheorems.ReleasedAtMostOnce` | Java/src/main/java/com/futurose/embeddedjvm/ThriftChannel.java:25-37 | any interleaving of closers and finalizers: releaseChannel at most once per peer, never with 0 |
| `OwnershipTheorems.LateCallbackPassesZero` | Java/src/main/java/com/futurose/embeddedjvm/ThriftChannel.java:70-75 | a callback that reads the field after the release passes 0 |
| `OwnershipAccounts.CallbackTokenIsLive` | Java/src/main/java/com/futurose/embeddedjvm/ThriftChannel.java:70-75 | the token a callback holds is retained as long as its peer has not released it, and if the channel was connected once, only so long |
| `OwnershipRuns.CallbackCanDangle` | EmbeddedJvm/Thrift/EJThriftChannel.mm:35-51 | a run in which a callback calls callJvmToHost with a channel that is no longer retained |
| `OwnershipTheorems.ReleasedExactlyOnce` | Java/src/main/java/com/futurose/embeddedjvm/ThriftChannel.java:25-33 | with the field empty and nobody in the monitor, a peer that got a token has given it back once |
| `OwnershipTheorems.ReleaseIsLive` | EmbeddedJvm/Thrift/EJThriftChannel.mm:47-51 | where a thread is about to call releaseChannel its token is one that is retained and not yet released |
| `OwnershipAccounts.OneProcessorForAll` | Java/src/main/java/com/futurose/embeddedjvm/ThriftChannel.java:82-100 | a peer keeps one processor if and only if no makeProcessor has come back, other than by an exception, to find the field no longer null; then every request is handled by that one; and it fails only after a re-entry |
| `OwnershipAccounts.ReenteredIff` | Java/src/main/java/com/futurose/embeddedjvm/ThriftChannel.java:84-91 | a re-entry is on record if and only if in the run a thread in the middle of makeProcessor of the peer has called callHostToJvm of the same peer |
| `OwnershipRuns.ReentryMakesTwo` | Java/src/main/java/com/futurose/embeddedjvm/ThriftChannel.java:84-91 | a re-entering makeProcessor is called twice and the second processor replaces one that has served |
| `OwnershipRuns.ReentryCanKeepOne` | Java/src/main/java/com/futurose/embeddedjvm/ThriftChannel.java:84-91 | a re-entry alone does no harm: if the outer makeProcessor throws, the inner processor stays |
| `ThriftChannels.ThriftChannel.constructor` | Java/src/main/java/com/futurose/embeddedjvm/ThriftChannel.java:21-23 | the peer takes what stands in the slot and empties it |
| `ThriftChannels.ThriftChannel.Close` | Java/src/main/java/com/futurose/embeddedjvm/ThriftChannel.java:25-37 | once it has come back the field is 0, and releaseChannel has been called for the peer once if its constructor got a channel and else never, whichever closer did it; it still waits only if another thread has the monitor when every turn of the schedule has passed |
| `ThriftChannels.ThriftChannel.CallHostToJvm` | Java/src/main/java/com/futurose/embeddedjvm/ThriftChannel.java:82-100 | the request is handled by the processor in the field, which is the only one there has been unless a makeProcessor came back to find the field no longer null; by none only if the field is null, makeProcessor threw, or another thread keeps the monitor |
| `NativeChannels.EJThriftChannel.Connect` | EmbeddedJvm/Thrift/EJThriftChannel.mm:130-164 | when it succeeds and what it stores; what it does to the border, step by step, whatever other threads do in between; undisturbed, the new peer gets this channel's token, or the token stays in the slot, and what stood there is lost |
| `NativeChannels.EJThriftChannel.Close` | EmbeddedJvm/Thrift/EJThriftChannel.mm:100-117 | the first call appends the one closing block there will ever be, later calls change nothing; but if the JVM sees itself shut down, as after every close of the JVM, it calls a nil completion, appends nothing and does not come back |
| `NativeChannels.EJThriftChannel.DoWithClient` | EmbeddedJvm/Thrift/EJThriftChannel.mm:188-210 | comes back with what the client call of the block is promised; with nil and the block never run after close, or if the JVM sees itself shut down; it still waits only if its semaphore is not posted and every turn of the schedule has passed |
| `NativeChannels.EJThriftChannel.ClientBlock` | EmbeddedJvm/Thrift/EJThriftChannel.mm:199-209 | the first call of every block, on a transport of its own, ends as promised end to end |
| `WaitGraph.StepKeepsInv` | EmbeddedJvm/Thrift/EJThriftChannel.mm:100-117 | under the discipline every step keeps the stacks of held locks ascending |
| `WaitGraph.WaitRises` | EmbeddedJvm/Thrift/EJThriftChannel.mm:177-180 | whoever is waited for waits for something of higher rank |
| `WaitGraph.NoCycle` | EmbeddedJvm/EJJvm.mm:438-458 | in every disciplined run there is no cycle of waits of any length, and no chain of more than four |
| `WaitGraph.EveryWaitLeadsToAStep` | EmbeddedJvm/EJJvm.mm:671-739 | from every waiting thread, the initialiser included, a chain of waits leads to a thread that can get on, or to a caller that had passed its isShutdown test and whose block the ended JVM thread left in the queue |
| `WaitGraph.MutualExclusion` | EmbeddedJvm/EJJvm.mm:456-457 | in every run, disciplined or not, a queue or monitor has one owner, and a queue is not even entered twice by one thread |
| `WaitGraph.Serialised` | EmbeddedJvm/EJJvm.mm:456-457 | so one close of the JVM at a time is on the lifecycle queue, one host processor or close on the event queue of a channel, one thread under the monitor of a peer |
| `WaitGraph.LockedOut` | EmbeddedJvm/Thrift/EJThriftChannel.mm:177-180 | a thread before a lock that another frame owns has no step at all to take, wants that lock, and waits for the owner |
| `WaitGraph.NotLockedOut` | EmbeddedJvm/Thrift/EJThriftChannel.mm:177-180 | conversely, if nobody else owns the lock it can enter, and waits for nothing |
| `WaitGraph.WaitsForTheJvm` | EmbeddedJvm/EJJvm.mm:671-691 | a caller whose block has not run, a closer with a pill before the JVM thread has ended, and the initialiser before the start signal have no step to take and wait for the JVM thread |
| `WaitGraph.WaitsIffNoStep` | EmbeddedJvm/EJJvm.mm:671-691 | a thread in the middle of something waits if and only if it has no step to take |
| `WaitGraph.OnlyTheOwnerHelps` | EmbeddedJvm/EJJvm.mm:671-691 | a wait is ended by a step of the thread that is waited for and by no other |
| `WaitGraph.CycleIsForever` | EmbeddedJvm/EJJvm.mm:671-691 | a cycle of waits outlasts every continuation of the run |
| `WaitGraph.NothingBeginsAfterShutdown` | EmbeddedJvm/EJJvm.mm:671-676 | once isShutdown is stored no block is begun and no pill appended |
| `WaitGraph.DisciplineIsRank` | EmbeddedJvm/Thrift/EJThriftChannel.mm:177-180 | the discipline forbids exactly the calls that may wait for something that ranks no higher than what the caller stands on, and Java methods to application code |
| `WaitGraph.SyncCallInBlockHangs` | EmbeddedJvm/EJJvm.mm:671-691 | without the discipline: a synchronous call in a block waits for its own thread |
| `WaitGraph.SyncCallInProcessorHangs` | EmbeddedJvm/Thrift/EJThriftChannel.mm:177-180 | a synchronous call in a host processor waits for the thread that runs it |
| `WaitGraph.CloseInProcessorHangs` | EmbeddedJvm/Thrift/EJThriftChannel.mm:100-117 | closing its own channel in a host processor waits for the queue it runs on |
| `WaitGraph.CloseInBlockHangs` | EmbeddedJvm/EJJvm.mm:438-458 | a block that closes the JVM waits for its own thread |
| `WaitGraph.TwoMonitorsHang` | Java/src/main/java/com/futurose/embeddedjvm/ThriftChannel.java:84-91 | two threads that enter a second monitor under a first, crosswise, wait for each other |
| `FunctionTransports.TByteArrayOutputStream.Write` | Java/src/main/java/com/futurose/embeddedjvm/FunctionTransport.java:56-59 | whatever the growth and the spare room of the array, the contents are the old ones with the new bytes behind them |
| `FunctionTransports.TClearableMemoryBuffer.Read` | Java/src/main/java/com/futurose/embeddedjvm/FunctionTransport.java:46-54 | reads a prefix of what is unread and keeps the rest; less than asked only if nothing is left; nothing, and possibly a negative count, with the cursor behind the end |
| `FunctionTransports.TClearableMemoryBuffer.Reset` | Java/src/main/java/com/futurose/embeddedjvm/FunctionTransport.java:26-28 | empties the buffer and leaves the read cursor where it is |
| `FunctionTransports.FunctionTransport.Write` | Java/src/main/java/com/futurose/embeddedjvm/FunctionTransport.java:56-59 | adds one write to the history that determines all payloads |
| `FunctionTransports.FunctionTransport.Apply` | Java/src/main/java/com/futurose/embeddedjvm/FunctionTransport.java:106 | is only ever entered with an empty out-buffer, also after an earlier exception |
| `FunctionTransports.FunctionTransport.Flush` | Java/src/main/java/com/futurose/embeddedjvm/FunctionTransport.java:108-128 | sends exactly what the history says is pending; the return buffer becomes the response, and stays as it is after null or an exception |
| `FunctionTransports.TransactionIsolation` | Java/src/main/java/com/futurose/embeddedjvm/FunctionTransport.java:108-128 | for every history the k-th payload is the concatenation of the writes between flush k - 1 and flush k |
| `FunctionTransports.OnePayloadPerFlush` | Java/src/main/java/com/futurose/embeddedjvm/FunctionTransport.java:108-117 | there are as many payloads as flushes |
| `TestHostToJvm.EJThriftChannelTransport.Flush` | EmbeddedJvm/Thrift/EJThriftChannelTransport.mm:22-43 | the payload is the whole buffer, which is what was written since the last flush if and only if the buffer was empty then; the response replaces the buffer, an exception leaves it |
| `Messages.RequestBehindReply` | EmbeddedJvm/Thrift/EJThriftChannelTransport.mm:26-42 | what a request behind an unread reply gets: the answer to a null argument, the request itself left unread |
| `BinaryEncoding.SkipEncoded` | EmbeddedJvmTests/Generated/EmbeddedJvmTest.m:137 | a skipper that knows only the type byte gets past exactly the bytes of any well-formed value, nested structs and containers included |
| `BinaryEncoding.SkippedIsEncoded` | EmbeddedJvmTests/Generated/EmbeddedJvmTest.m:141 | conversely it gets past nothing but the bytes of a well-formed value of that type |
| `BinaryEncoding.TextRoundTrip` | EmbeddedJvmTests/Generated/EmbeddedJvmTest.m:134-154 | a string comes back with what follows it untouched if and only if its length fits 31 bits |
| `BinaryEncoding.BigEndianRoundTrip` | EmbeddedJvmTests/Generated/EmbeddedJvmTest.m:126 | an integer comes back from its big-endian two's complement bytes, of any width, if and only if it fits them |
| `BinaryEncoding.ByteAt` | EmbeddedJvmTests/Generated/EmbeddedJvmTest.m:126 | the order of the bytes: byte i of an integer in w bytes is its digit of weight 256^(w - 1 - i) |
| `BinaryEncoding.DigitAt` | EmbeddedJvmTests/Generated/EmbeddedJvmTest.m:126 | the reader gives byte i of w the weight 256^(w - 1 - i) |
| `BinaryEncoding.TypeCodes` | EmbeddedJvmTests/Generated/EmbeddedJvmTest.m:126-141 | type codes and widths as the numbers on the wire |
| `BinaryEncoding.I32RoundTrip` | EmbeddedJvmTests/Generated/EmbeddedJvmTest.m:863-865 | a 32-bit integer comes back if and only if it fits |
| `BinaryEncoding.I16RoundTrip` | EmbeddedJvmTests/Generated/EmbeddedJvmTest.m:126-136 | a field id comes back if and only if it fits 16 bits |
| `Messages.ReadFields` | Java/src/test/generated/com/futurose/embeddedjvm/TestHostToJvm.java:752-779 | for any well-formed field list read leaves the last well-typed value of its own field and stops just behind the matching stop byte |
| `Messages.LastOwnIsLast` | Java/src/test/generated/com/futurose/embeddedjvm/TestHostToJvm.java:760-774 | that value is the one at the last position whose id and type are the field's own |
| `Messages.ReadAgreesWithSkip` | EmbeddedJvmTests/Generated/EmbeddedJvmTest.m:117-147 | the reader of a struct and the skipper accept the same bytes and stop at the same place |
| `Messages.StructRoundTrip` | Java/src/test/generated/com/futurose/embeddedjvm/TestHostToJvm.java:752-792 | read gives back what write produced and consumes exactly those bytes, if and only if the length of the value fits 31 bits |
| `Messages.MessageBeginRoundTrip` | EmbeddedJvmTests/Generated/EmbeddedJvmTest.m:720 | a strict message header comes back |
| `Messages.ExceptionRoundTrip` | EmbeddedJvmTests/Generated/EmbeddedJvmTest.m:870-874 | an application exception comes back with its message and type |
| `Messages.DispatchConsumesTheMessage` | EmbeddedJvmTests/Generated/EmbeddedJvmTest.m:857-931 | every well-formed message is consumed as a whole and nothing behind it, whichever method it names |
| `Messages.AcceptedIsWellFormed` | EmbeddedJvmTests/Generated/EmbeddedJvmTest.m:857-931 | conversely, what is not refused starts with a well-formed message |
| `Messages.UnknownNameIsReported` | EmbeddedJvmTests/Generated/EmbeddedJvmTest.m:866-878 | an unknown name yields one EXCEPTION with the request's name and sequence id, which reads as UNKNOWN_METHOD naming it |
| `Messages.ReplyMatchesRequest` | EmbeddedJvmTests/Generated/EmbeddedJvmTest.m:890-922 | a two-way method that returns yields one REPLY with the request's name and sequence id, from which the value is read back |
| `Messages.NothingIsWritten` | EmbeddedJvmTests/Generated/EmbeddedJvmTest.m:924-931 | nothing is written if and only if the method is the oneway one or its service throws |
| `Messages.OnewayAnswer` | EmbeddedJvm/Thrift/EJThriftChannel.mm:166-186 | the far side answers the oneway method with no bytes if its service returns, and not at all if it throws |
| `Messages.RefusedBytes` | EmbeddedJvm/Thrift/EJThriftChannel.mm:166-186 | the far side refuses exactly the bytes that do not start with a message, and has no answer to them |
| `Messages.ReceiveMessage` | EmbeddedJvmTests/Generated/EmbeddedJvmTest.m:733-750 | for every well-formed message that comes back: an EXCEPTION is thrown with its last type and message; from any other the last well-typed result is returned, or MISSING_RESULT thrown |
| `Messages.ReadExceptionFields` | EmbeddedJvmTests/Generated/EmbeddedJvmTest.m:736-741 | the exception is read past whatever other fields stand in it |
| `Messages.ExceptionIsThrown` | EmbeddedJvmTests/Generated/EmbeddedJvmTest.m:736-741 | a written EXCEPTION is thrown with its type and message, whatever name and sequence id it bears |
| `Messages.ReceiveRefuses` | EmbeddedJvmTests/Generated/EmbeddedJvmTest.m:733-750 | the client reports a protocol exception if and only if what came back does not start with a message |
| `Messages.RequestBytes` | EmbeddedJvmTests/Generated/EmbeddedJvmTest.m:718-731 | the bytes of a request, one by one |
| `Messages.ReplyBytes` | EmbeddedJvmTests/Generated/EmbeddedJvmTest.m:890-905 | the bytes of the REPLY, and of the one without a result |
| `Messages.UnknownReplyBytes` | EmbeddedJvmTests/Generated/EmbeddedJvmTest.m:866-878 | the bytes of the EXCEPTION for an unknown name |
| `Messages.EndToEnd` | EmbeddedJvmTests/Generated/EmbeddedJvmTest.m:718-795 | for every service and argument, null included: f(s) if it is not null, MISSING_RESULT if it is, a protocol exception if f throws |
| `Messages.EndToEndOfBoth` | EmbeddedJvmTests/Generated/EmbeddedJvmTest.m:718-795 | the same spelt out: echoString goes to the one method of the service, echoBinary to the other, and value, MISSING_RESULT and protocol exception each where they belong |
| `Messages.UnknownNameEndToEnd` | EmbeddedJvmTests/Generated/EmbeddedJvmTest.m:866-878 | a call under any other name ends with UNKNOWN_METHOD and says which name it was |
| `TestHostToJvm.EveryJavaCall` | Java/src/main/java/com/futurose/embeddedjvm/ThriftChannel.java:67-79 | a Java call is sent with what earlier calls left unflushed before it, so alone if and only if nothing is left over; then it ends as promised, however many calls came before and however they ended at their flush or later |
| `TestHostToJvm.GeneratedStruct.Read` | EmbeddedJvmTests/Generated/EmbeddedJvmTest.m:117-147 | the read loop sets field and is-set flag as ReadStruct says and fails exactly where it does |
| `TestHostToJvm.GeneratedStruct.Write` | EmbeddedJvmTests/Generated/EmbeddedJvmTest.m:149-160 | appends the field if it is set and not null, and the stop byte |
| `TestHostToJvm.TestHostToJvmProcessor.constructor` | EmbeddedJvmTests/Generated/EmbeddedJvmTest.m:817-850 | the method map holds the three methods, under different names |
| `TestHostToJvm.TestHostToJvmProcessor.ProcessOnInputProtocol` | EmbeddedJvmTests/Generated/EmbeddedJvmTest.m:857-888 | leaves input and output buffer as Dispatch says, and throws exactly where it does |
| `TestHostToJvm.TestHostToJvmProcessor.ProcessEcho` | EmbeddedJvmTests/Generated/EmbeddedJvmTest.m:890-922 | arguments read, service called, result written |
| `TestHostToJvm.TestHostToJvmProcessor.ProcessOneway` | EmbeddedJvmTests/Generated/EmbeddedJvmTest.m:924-931 | arguments read, service called, nothing written |
| `TestHostToJvm.ProcessBytes` | EmbeddedJvm/Thrift/EJThriftChannel.mm:166-186 | one request through two memory buffers yields what the dispatcher has written, or its exception |
| `TestHostToJvm.TestHostToJvmClient.WriteCall` | EmbeddedJvmTests/Generated/EmbeddedJvmTest.m:718-731 | appends the bytes of one request |
| `TestHostToJvm.TestHostToJvmClient.ReceiveResult` | EmbeddedJvmTests/Generated/EmbeddedJvmTest.m:733-750 | reads an exception, a value, or MISSING_RESULT, as Receive says |
| `TestHostToJvm.TestHostToJvmClient.EchoCall` | EmbeddedJvmTests/Generated/EmbeddedJvmTest.m:752-796 | the first call on a fresh transport ends as promised end to end, and the far side is given exactly the request |

## Left out

- Loading the JVM, bundles, environment, Info.plist, class paths: foreign calls and I/O; `createJvm` is its outcome.
- Paths of `init` that fail before the thread starts, and `dealloc` after them: no thread exists that could post.
- The `errors` log, `printErrors`, `my_vfprintf`, `EmbeddedJvmOutputStream`, the shell script: logging and plumbing.
- Freeing the run-loop source while a late enqueuer signals it, and kinds of JNI references: below the level of the model.
- The Java memory model: `processor` is read outside the monitor; the model is sequentially consistent.
- ExecutorTheorems.InstalledBeforeAppends: assumes that no caller has the object before `init` has returned; the machine also has runs in which one has, and the other theorems cover them unless they say otherwise.
- ExecutorTheorems.NoWaitAfterFailedStart: the same assumption.
- BinaryEncoding.EncodeText: a length is cut down to 32 bits as the int32_t of the protocol is; the assertion that a message fits a Java array is a precondition of the transport's flush.
- TestHostToJvm.TBinaryProtocol.SkipType: the skipper and the binary protocol are library code, so they are functions of the unread bytes with methods around them, not loops over a transport; the skipper has no depth limit.
- Messages.Dispatch: a method name that starts with `@`, which `valueForKey:` of a dictionary treats as an operator, and names that are not UTF-8, are taken as any other unknown name.
- Messages.ReadMessageBegin: message headers without a version word are refused; a lenient reader would take them.
- WaitGraph.EveryWaitLeadsToAStep: covers starts that succeed and run loops that start; after a failed start nobody waits (`ExecutorTheorems.NoWaitAfterFailedStart`).
- ThriftChannels.ThriftChannel.Move: monitor entry and exit and the moves of a call stack are taken by the protocol's step function; the fields and the branches on them are code.
- NativeChannels.EJThriftChannel.DoWithClient: what the submitted block returns is given by its call id, as for every block; `ClientBlock` is that block.
- ExecutorTheorems.PillEndsTheThread: counts steps; how long a block or a sleep takes is the platform's.
- NativeChannels.EJThriftChannel.Connect: says who owns the token afterwards for the undisturbed case; with other threads between its steps it is a run of the ownership protocol, whose theorems hold.
- A class that extends another is an object that holds it (`FunctionTransport`, `EJThriftChannelTransport`); the four generated structs, and the string and binary methods, differ in name and field id only and are one class each.
- `TMemoryBuffer`'s discarding of bytes that have been read, which has no effect on a first request.
- Tuple scheme, asynchronous clients and processors, `_Fields`, `Serializable`, `toString`, `compareTo`, and the mirrored `TestJvmToHost`: mirrors or easy members.
- `callJvmSyncVoid`, `callJvmSyncInt` and `callJvmSyncObject` are one kind of call, as are `callJvmAsyncInt` and `callJvmAsyncObject`; they differ in result type only.
