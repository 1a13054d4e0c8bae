# RabbitRPC, modelled and proved in Dafny

RabbitRPC is a .NET library for remote calls, shared state and work queues over RabbitMQ. This project
models the parts of it whose guarantees depend on several classes working together, and proves those
guarantees over every input and every interleaving.

* **Optimistic concurrency, end to end.** `StateTable` gives the two SQL dialects of the versioned
  `StateEntry` table; `EFStates` the database object, the state context and the counter service.
  `Optimistic` is the protocol: any number of requests on any number of replicas, each reading
  (value, version), computing, putting under the version it read, and being re-executed by the host;
  one SQL statement is one atomic step. `Linearizability` holds the theorems: linearizability,
  real-time order, the contention bound and termination; `Outcomes` how requests end; `Counter` what
  runs of increments and decrements add up to, and what exactly can be lost when the row is created.
  Each execution has a service scope and with it a state context of its own.
* **Filter pipeline.** `FilterPipeline` builds the chain with the reversed loops and runs it on the
  shared contexts; a trace of events is its meaning. `FilterLaws` has short-circuiting, the equality of
  the sync and the async link, and the arrangement of filters. `Retry` is the retry filter with its
  32-bit backoff arithmetic, `ReExecution` the question which pipelines can ask for a re-execution.
* **Request loop and request lifecycle.** `ServiceHost` is the host's `goto START` loop; its verdict on
  an execution is computed from the contexts that the pipeline leaves, and the optimistic protocol uses
  that same verdict. `RpcClient` is the client's correlation table, `RpcLifecycle` lets replies, returns,
  timeouts and cancellations compete, and `EndToEnd` composes the lifecycle with the optimistic protocol.
* **In-memory store.** `InMemoryStates` has the lock, store, transaction and context objects,
  `InMemorySerial` their interleavings and the serial order these amount to.
* **File store.** `RecordFormat` is the byte format, with full parse and early-exit scan;
  `FileTransactions` the transaction object with its reading, scanning and writing loops; `FileFold` the
  interleavings.
* **Work item dispatcher.** `WorkItems` has the buffer, the fill loop, the slicing and the settlement
  loop; `WorkConservation` any number of dispatchers on one broker.

Objects that the program updates in place are classes here, and each method is proved against a
function of the old state. Interleavings are runs of a step function on values: a run is any sequence
of step labels, and a step that is not enabled changes nothing, so every theorem about runs is about
all of them.

Outside the model, as parameters or unconstrained choices: the serializer and UTF-8 (functions that may
throw, with a round-trip law where they do not), random jitter, clocks (when a wait times out, when a
delay is cut short), the order in which a dictionary is enumerated, which step comes next, and what
handlers, hooks and actions do.

## Where the code and its documentation differ

* The counter starts from 0 and is documented to count every call. From an absent row it can lose the
  first applied delta: an absent row reads as version 0 and the first insert stores version 0. The
  model keeps the code; `LossHappens` shows the run, `LossIffStaleInsert` says exactly when.
* `RejectRequest` is documented to reject so that the broker can dispatch again; the code then also
  replies and acks. `SettledOnceIffNotRejected` says exactly when a delivery is settled once.
* An in-memory commit without a write clears the store before it fails (`CommitNeedsAWrite` gives the
  exact condition). Using a transaction after its dispose is harmless until another one begins
  (`Serializable`), and can then wipe out the other one's write (`UseAfterDisposeLosesAWrite`);
  `CommitIsSerialIff` and `OvertakenCommit` say exactly when a commit does no such harm.
* A file commit empties the file before it writes, so a value that cannot be serialized destroys what
  the file held (`TornCommit`); `CommitHoldsIff` says exactly when a commit leaves the map it should.
* Large retry counts make the computed backoff negative (`BackoffCanBeNegative`); `BackoffNonNegative`
  and `BackoffIsIntended` say exactly when it is negative and when it is not the documented one.
* In-memory and file contexts drop writes made outside a transaction; the model keeps that
  (`InMemoryStateContext.Write`).

## Model

| member | source | states |
|---|---|---|
| StateTable.StatementMeaning | src/RabbitRPC.States.EntityFrameworkCore/Executors/SqliteCommandExecutor.cs:13-35 | Every upsert and delete, versioned or not, in either dialect: primary keys stay unique, the statement's key ends with the row the version condition allows, every other key keeps its row, and the affected-row count is 1 exactly when the statement took effect |
| StateTable.DialectsAgree | src/RabbitRPC.States.EntityFrameworkCore/Executors/SqlServerCommandExecutor.cs:13-43 | On a table with unique keys the MERGE statements give the same rows and row counts as the SQLite upserts |
| StateTable.DialectsAgreeOnRuns | src/RabbitRPC.States.EntityFrameworkCore/Executors/SqlServerCommandExecutor.cs:13-43 | Any run of statements takes both databases through the same rows and the same counts, and keeps keys unique |
| StateTable.VersionsIncrease | src/RabbitRPC.States.EntityFrameworkCore/Executors/SqliteCommandExecutor.cs:17-24 | While a row is not removed its version never drops, an unchanged version means an untouched row, and an effective put raises it by one |
| StateTable.EvolvesOnRuns | src/RabbitRPC.States.EntityFrameworkCore/Executors/SqliteCommandExecutor.cs:13-35 | The same over any run of statements of other clients |
| StateTable.NoLostUpdate | src/RabbitRPC.States.EntityFrameworkCore/Executors/SqliteCommandExecutor.cs:13-18 | After any foreign statements but removals, a put under the version that was read takes effect if and only if the row is still exactly the one that was read |
| EFStates.StateDatabase.ExecuteSql | src/RabbitRPC.States.EntityFrameworkCore/Executors/SqliteCommandExecutor.cs:13-35 | One statement on the shared rows: new row of its key, all other rows, and the count, in terms of the old rows |
| EFStates.EFStateContext.Get | src/RabbitRPC.States.EntityFrameworkCore/EFStateContext.cs:33-34 | An absent row gives no value, the default and version 0, the version that an insert stores, too; the first read of a present row gives exactly its value and version and tracks them, and later reads through the same context give the tracked ones |
| EFStates.EFStateContext.PutVersioned | src/RabbitRPC.States.EntityFrameworkCore/EFStateContext.cs:94-106 | ConcurrencyException exactly when the row exists with another version, and then nothing has changed; otherwise the value is stored at the next version, or at version 0 when the row is new |
| EFStates.EFStateContext.Put | src/RabbitRPC.States.EntityFrameworkCore/EFStateContext.cs:85-92 | The unversioned put always stores the value and touches no other key |
| EFStates.EFStateContext.PutAll | src/RabbitRPC.States.EntityFrameworkCore/EFStateContext.cs:108-131 | Whatever order the pairs are put in, each key ends with its own value one version up, and no other key changes; a put that throws rolls everything back, unless the transaction is an ambient one, which keeps the pairs put so far |
| EFStates.EFStateContext.Remove | src/RabbitRPC.States.EntityFrameworkCore/EFStateContext.cs:159-163 | The row is gone and no other key changes |
| EFStates.EFStateContext.RemoveVersioned | src/RabbitRPC.States.EntityFrameworkCore/EFStateContext.cs:165-173 | Succeeds exactly when the row exists with that version; otherwise ConcurrencyException and no change |
| EFStates.RunOthers | src/RabbitRPC.States.EntityFrameworkCore/Executors/SqliteCommandExecutor.cs:13-35 | Statements sent one by one leave the rows that the whole run of them prescribes |
| EFStates.CounterService.Add | samples/Counter/Server/Program.cs:36-54 | With any statements of other replicas between the read and the put: ConcurrencyException exactly when the put finds a row of another version, and then nothing has changed; otherwise what was read plus delta, in 64-bit arithmetic, is stored and returned. With a fresh context, on a row that existed and was not removed, success means the put found exactly what was read |
| Optimistic.PutFinds | src/RabbitRPC.States.EntityFrameworkCore/EFStateContext.cs:94-106 | The version condition lets a put through exactly when nobody has put since its read, or when it is the second put ever on a created row and its reader saw no row |
| Optimistic.NextKeeps | src/RabbitRPC/ServiceHost/RabbitServiceHost.cs:203-296 | Every step (arrival, read, put, failure, end of a delay, abort, statement on another key) keeps the protocol invariant: the row is the last put of the log, every put read what its predecessor stored, each concurrency error is charged to a different put of somebody else, and every reply matches the log |
| Optimistic.RunKeeps | src/RabbitRPC/ServiceHost/RabbitServiceHost.cs:203-296 | The invariant holds after every interleaving of any length |
| Linearizability.Linearizable | samples/Counter/Server/Program.cs:36-62 | For any interleaving of any requests over an existing row that is not removed: the row is the fold of the committed update functions in commit order, one version per put; every reply is honest; and every put belongs to a request for that function that replied the value stored, or was canceled |
| Linearizability.HonestReplies | src/RabbitRPC/ServiceHost/RabbitServiceHost.cs:241-296 | A value reply to an update means exactly one put, by this request, that stored this value after the request arrived; to a query, a value the row had meanwhile; an error or nack means no put; no request ever puts twice |
| Linearizability.PutsAreAnswered | src/RabbitRPC/ServiceHost/RabbitServiceHost.cs:241-296 | Each put belongs to one request, which asked for this very function and replied the value it stored, or was canceled |
| Linearizability.RealTimeOrder | src/RabbitRPC/ServiceHost/RabbitServiceHost.cs:203-296 | A request that has finished before another arrives takes effect before it, and its outcome is final |
| Linearizability.ContentionBound | src/RabbitRPC/ServiceHost/Filters/RetryOnConcurrencyErrorAttribute.cs:35-44 | The concurrency errors of a request never outnumber the puts of others since it arrived; a request that ends in one has been overtaken by at least MaximumRetries + 2 puts |
| Linearizability.ConflictIsCharged | src/RabbitRPC.States.EntityFrameworkCore/Executors/SqliteCommandExecutor.cs:13-18 | A put that conflicts is charged to the put that came next after its own read, by another request, and later than every put the request was charged with before |
| Linearizability.NeverRunsOutEarly | src/RabbitRPC/ServiceHost/Filters/RetryOnConcurrencyErrorAttribute.cs:39-43 | While at most MaximumRetries + 1 puts of others have succeeded in its lifetime, a request does not run out of retries |
| Linearizability.WorkIsBounded | src/RabbitRPC/ServiceHost/RabbitServiceHost.cs:201-262 | However the steps interleave, and whenever further requests arrive, the working steps taken and still possible are at most those possible before plus three for each execution that the settings of an arriving request allow |
| Linearizability.NeverStuck | src/RabbitRPC/ServiceHost/RabbitServiceHost.cs:203-262 | An unfinished request has a step of its own enabled if and only if it is not in a delay of -1 that nobody cuts short; no conflict blocks it, and with settings that fit it never waits for ever |
| Outcomes.WaitsEnd | src/RabbitRPC/ServiceHost/RabbitServiceHost.cs:261-262 | A conflict is retried, with the next execution number, when its wait is over and nobody has aborted the request; an aborted one is canceled; a wait that is cut short or whose delay is below -1 makes the host nack |
| Outcomes.HowRequestsEnd | src/RabbitRPC/ServiceHost/Filters/RetryOnConcurrencyErrorAttribute.cs:35-44 | Over every run, a finished request that nobody aborted and whose settings fit has ended with a value, with the concurrency error after exactly MaximumRetries + 2 conflicts, or with the error that its action threw; never nacked or canceled |
| Outcomes.AbortCancels | src/RabbitRPC/ServiceHost/RabbitServiceHost.cs:243-247 | A request aborted before it has finished never replies a value or an error, whatever follows |
| Outcomes.RequestsAreArrivals | src/RabbitRPC/ServiceHost/RabbitServiceHost.cs:177-212 | The requests of a run are its arrivals in order, each with the function and settings it came with |
| Outcomes.OtherRows | src/RabbitRPC.States.EntityFrameworkCore/Executors/SqliteCommandExecutor.cs:13-35 | Statements on other keys act on their rows as in the database, and the requests leave those rows alone |
| Counter.CounterIsExact | samples/Counter/Server/Program.cs:36-54 | For every run of increments, decrements and queries over an existing counter, the row is the initial value plus each request's delta times its puts, truncated to 64 bits, at one version per put; the same holds after each put |
| Counter.AddedIsApplied | samples/Counter/Server/Program.cs:36-54 | Adding up each request's delta by its number of puts and adding up the deltas of the puts in commit order give the same |
| Counter.DeltasExist | samples/Counter/Server/Program.cs:36-62 | Every run whose requests are increments, decrements and queries has the list of deltas, by arrival, that the counter results speak of |
| Linearizability.CreationFold | src/RabbitRPC/States/State.cs:9 | From an absent row the version is always the number of puts minus one, and every put but possibly the second applies to what the previous put stored; replies and puts answer for each other |
| Counter.BoundedLossAtCreation | src/RabbitRPC.States.EntityFrameworkCore/EFStateContext.cs:33-34 | From an absent counter, for every such run, the final value is what the requests have added, or that without the delta of the very first put; nothing else is ever lost |
| Counter.LossIffStaleInsert | src/RabbitRPC.States.EntityFrameworkCore/Executors/SqliteCommandExecutor.cs:13-18 | For every such run, the final value is all that the requests have added if and only if the second put did not come from a reader of the absent row, or the first delta is nothing on 64 bits |
| Counter.LossHappens | samples/Counter/Server/Program.cs:36-44 | A concrete run: two increments of an absent counter both reply 1 and leave 1 |
| FilterPipeline.BuildChain | src/RabbitRPC/ServiceHost/RabbitServiceHost.cs:349-370 | The three loops over the reversed list build the chain in which initialization encloses binding encloses the action filters, each stage in list order |
| FilterPipeline.SharedContexts.Execute | src/RabbitRPC/ServiceHost/Filters/FilterChains.cs:23-127 | Running a chain on the shared, mutable contexts gives the contexts, the exception exit and the trace that the chain's meaning prescribes; at its end the action runs, unless the contexts are canceled, and only its result or exception is stored |
| FilterPipeline.SharedContexts.ExecuteNext | src/RabbitRPC/ServiceHost/Filters/FilterChains.cs:27-36 | The guard before the next link: the rest of the chain runs, or Canceled, Result and Exception are set from the executing context |
| FilterPipeline.SharedContexts.ExecuteHooks | src/RabbitRPC/ServiceHost/Filters/FilterChains.cs:23-71 | A sync link runs its executed hook, on what the rest left, only when neither its first hook nor the rest threw; an async link hands its body the guarded rest |
| FilterPipeline.StagesInOrder | src/RabbitRPC/ServiceHost/Filters/FilterChains.cs:89-115 | The initialization hooks of the filters that have one run first, in list order, each on what the one before left, then their binding hooks, then the action stage; an exception of a hook ends the run at that point |
| FilterPipeline.RunNested | src/RabbitRPC/ServiceHost/Filters/FilterChains.cs:23-71 | The trace of the action stage is accepted by a stack automaton that allows a filter only directly inside its predecessor and the action only inside all of them |
| FilterPipeline.WellBracketed | src/RabbitRPC/ServiceHost/RabbitServiceHost.cs:349-373 | For every filter list, any number of calls of next, exceptions included: the events of the filters' initialization and then binding hooks in list order first, and only after all of them a well-nested action stage |
| FilterLaws.SyncLinkIsAsyncLink | src/RabbitRPC/ServiceHost/Filters/ActionFilterAttribute.cs:27-32 | The sync link and the async link around the template body give the same trace, contexts and exceptions |
| FilterLaws.ShortCircuit | src/RabbitRPC/ServiceHost/Filters/FilterChains.cs:23-71 | For sync filters and for async ones that call next once, with local state across the call: if filter i is the first to set Result or Exception, exactly filters 0..i are entered, the action does not run, and what follows next runs for i..0 on canceled contexts; if none does, all filters surround the action |
| FilterLaws.DescendIsFirst | src/RabbitRPC/ServiceHost/Filters/FilterChains.cs:23-71 | The filter at which a short-circuit starts is the first that leaves a Result or an Exception on the executing context |
| FilterLaws.CanceledAtTheEnd | src/RabbitRPC/ServiceHost/Filters/FilterChains.cs:31-36 | With filters that leave Canceled alone after next, a short-circuited request ends canceled and without the action having run |
| FilterLaws.EndsWithWhatWasSet | src/RabbitRPC/ServiceHost/Filters/FilterChains.cs:31-36 | With filters that leave the executed context alone after next, a short-circuited request ends canceled, with the very Result and Exception that the filter set |
| FilterLaws.EveryCallInvokes | src/RabbitRPC/ServiceHost/Filters/FilterChains.cs:54-71 | An async body that calls next k times runs the action k times |
| FilterLaws.ArrangeIsStableSort | src/RabbitRPC/ServiceHost/RabbitServiceHost.cs:330-336 | The arrangement ascends by order and then scope and keeps the relative order of filters with equal keys |
| FilterLaws.RequestOrder | src/RabbitRPC/ServiceHost/RabbitServiceHost.cs:330-342 | The service instance comes before all filters; these ascend by order and then scope, and at equal order and scope those of the action come before those of the service, and these before the global ones |
| Retry.BackoffInRange | src/RabbitRPC/ServiceHost/Filters/RetryOnConcurrencyErrorAttribute.cs:46-50 | While the sum fits in 31 bits, the delay is the intended one and lies in 0..MaximumBackoffTime |
| Retry.BackoffMonotone | src/RabbitRPC/ServiceHost/Filters/RetryOnConcurrencyErrorAttribute.cs:46-50 | For a fixed jitter a later execution never waits less |
| Retry.BackoffDoubles | src/RabbitRPC/ServiceHost/Filters/RetryOnConcurrencyErrorAttribute.cs:46-50 | The first wait is the jitter alone, the second the scale factor and the jitter, and from then on what is waited beside the jitter doubles, up to the cap |
| Retry.RetryWaitsAtMost | src/RabbitRPC/ServiceHost/Filters/RetryOnConcurrencyErrorAttribute.cs:39-50 | The delays of all executions that may be followed by one sum to at most (MaximumRetries + 1) * MaximumBackoffTime |
| Retry.BackoffNonNegative | src/RabbitRPC/ServiceHost/Filters/RetryOnConcurrencyErrorAttribute.cs:46-50 | For settings of any sign: the delay is non-negative if and only if the cap is and the exact sum modulo 2^32 is below 2^31; from execution 32 on, if and only if the cap is and the scale factor is even |
| Retry.BackoffIsIntended | src/RabbitRPC/ServiceHost/Filters/RetryOnConcurrencyErrorAttribute.cs:47-50 | The delay is the exact one if and only if the exact sum is below 2^31 or, modulo 2^32, lies between the cap and 2^31; from execution 32 on, if and only if the scale factor is zero, or even under a jitter that reaches the cap |
| Retry.BackoffCanBeNegative | src/RabbitRPC/ServiceHost/Filters/RetryOnConcurrencyErrorAttribute.cs:47-50 | A concrete overflow: with more retries but default scale, re-execution 26 computes a negative delay |
| ServiceHost.RabbitServiceHost.ExecuteRequest | src/RabbitRPC/ServiceHost/RabbitServiceHost.cs:177-323 | One delivery, watched for any number of executions: re-executed exactly as long as an unhandled exception asks for it, then answered as its last execution requires (a reply with the correlation id to the reply queue and an ack, or a nack without requeue), and gone from the ongoing table with all other entries untouched; until then nothing is sent and its entry stays |
| ServiceHost.VerdictIsAnswer | src/RabbitRPC/ServiceHost/RabbitServiceHost.cs:239-313 | From the fields an execution leaves: which body is replied to which queue under which id, when the delivery is dropped instead, and when it is executed again |
| ServiceHost.RabbitServiceHost.ExecuteWithFilters | src/RabbitRPC/ServiceHost/RabbitServiceHost.cs:201-313 | When only retry filters ask for re-execution, whatever else the filters of each execution and its action do (handle or replace exceptions, short-circuit, throw, call next repeatedly): after at most max(1, MaximumRetries + 2) executions the delivery is settled as the last verdict says and gone from the ongoing table |
| ReExecution.InvokeAction | src/RabbitRPC/ServiceHost/RabbitServiceHost.cs:325-376 | Arranging the filters, building the chain with the loops and running it on fresh contexts leaves what the initializations leave, or the bindings after them, or the action stage after both |
| ReExecution.PipelineNeverAsks | src/RabbitRPC/ServiceHost/RabbitServiceHost.cs:325-373 | A pipeline none of whose filters asks for a re-execution does not leave with that strategy, for every list of filters, every other behaviour of theirs and every action |
| ReExecution.NobodyAsks | src/RabbitRPC/ServiceHost/Filters/RetryOnConcurrencyErrorAttribute.cs:39-43 | When only retry filters ask, the arranged and built pipeline of any execution after MaximumRetries does not |
| ServiceHost.RabbitServiceHost.ExecuteWithRetry | src/RabbitRPC/ServiceHost/RabbitServiceHost.cs:201-313 | The sharper statement for a retry filter among filters that hand contexts and exceptions through: between 1 and max(1, MaximumRetries + 2) executions, every one but the last ending in a concurrency error that is retried; then one reply and one ack, or one nack without requeue and no reply, as the last verdict says; the delays sum to at most (MaximumRetries + 1) * MaximumBackoffTime while they fit in 31 bits |
| ServiceHost.RetryVerdictIsAnswer | src/RabbitRPC/ServiceHost/Filters/RetryOnConcurrencyErrorAttribute.cs:35-44 | The same for an action with the retry filter: another execution exactly on a conflict up to MaximumRetries that is neither aborted nor cut short, and otherwise the reply or the nack that its outcome calls for |
| ServiceHost.RabbitServiceHost.OnCancelRequest | src/RabbitRPC/ServiceHost/RabbitServiceHost.cs:125-139 | Cancels the source registered under that id, if any, and no other |
| ServiceHost.SettledOnceIffNotRejected | src/RabbitRPC/ServiceHost/RabbitServiceHost.cs:263-296 | A delivery is settled exactly once if and only if it does not end in an unhandled exception with strategy RejectRequest |
| ServiceHost.RetryExitIs | src/RabbitRPC/ServiceHost/Filters/RetryOnConcurrencyErrorAttribute.cs:35-44 | Arranging, building and running the chain of an action with the retry filter, among any other filters and a service that hand contexts and exceptions through, leaves the method's own outcome, with strategy ReExecute exactly on a concurrency error of execution 0..MaximumRetries |
| ServiceHost.ServiceIsTransparent | src/RabbitRPC/ServiceHost/RabbitService.cs:20-48 | A service that overrides none of its hooks hands contexts and exceptions through in every stage |
| ServiceHost.HandlerIsNotTransparent | src/RabbitRPC/ServiceHost/Filters/FilterChains.cs:23-39 | A filter that marks every exception as handled never asks for a re-execution and does not hand the contexts through, so the two conditions differ |
| ServiceHost.RetryVerdictIsThePipelines | src/RabbitRPC/ServiceHost/RabbitServiceHost.cs:239-275 | The verdict that the protocol of replicas uses is the one the host derives from that pipeline's contexts |
| InMemoryStates.AsyncLock.Lock | src/RabbitRPC/States/InMemory/AsyncLock.cs:18-22 | A granted lock takes the semaphore to zero and is then the only unreleased one |
| InMemoryStates.ActionDisposable.Dispose | src/RabbitRPC/States/ActionDisposable.cs:16-23 | Releases once however often it is called, keeping the semaphore count plus the unreleased locks at one |
| InMemoryStates.InMemoryStateTransaction.Write | src/RabbitRPC/States/InMemory/InMemoryStateTransaction.cs:21-44 | The first write copies the store; the snapshot is what the transaction saw with the write applied, and the store is untouched |
| InMemoryStates.InMemoryStateTransaction.TryGetValue | src/RabbitRPC/States/InMemory/InMemoryStateTransaction.cs:29-32 | Reads come from the transaction's own snapshot if it has one, else from the store |
| InMemoryStates.InMemoryStateTransaction.Commit | src/RabbitRPC/States/InMemory/InMemoryStateTransaction.cs:46-55 | Clear-and-refill in any order leaves exactly the snapshot, as the commit step does; without a snapshot it leaves an empty store and fails |
| InMemoryStates.InMemoryStateContext.BeginTransaction | src/RabbitRPC/States/InMemory/InMemoryStateContext.cs:77-85 | Fails if the context has begun before; otherwise the lock is taken and the transaction starts without a snapshot |
| InMemoryStates.InMemoryStateContext.Get | src/RabbitRPC/States/InMemory/InMemoryStateContext.cs:21-35 | A read inside a transaction sees its writes, one outside sees the store; either way the lock count is as before |
| InMemoryStates.InMemoryStateContext.Write | src/RabbitRPC/States/InMemory/InMemoryStateContext.cs:95-156 | A write never touches the store; inside a transaction it goes to the snapshot, as the write step of the interleavings does, outside it is dropped and the lock released |
| InMemoryStates.InMemoryStateContext.Dispose | src/RabbitRPC/States/InMemory/InMemoryStateContext.cs:90-93 | The lock of a live transaction is released and that of a disposed one is not released again |
| InMemorySerial.NextKeeps | src/RabbitRPC/States/InMemory/InMemoryStateTransaction.cs:21-60 | Every disciplined step of any context keeps: store equals the serial log, semaphore plus live locks is one, every transaction has its own grant, and the latest one sees the serial store with its own writes |
| InMemorySerial.StepsOnCore | src/RabbitRPC/States/InMemory/InMemoryStateContext.cs:77-156 | The steps of a context act on store, semaphore and its own transaction exactly as the functions do by which the contracts of the context and transaction objects are stated |
| InMemorySerial.LocksAreConserved | src/RabbitRPC/States/InMemory/AsyncLock.cs:18-22 | Under any interleaving of any uses, repeated disposals and use after dispose included, the semaphore count plus the undisposed locks is one, and at most one transaction of a store is live |
| InMemorySerial.Serializable | src/RabbitRPC/States/InMemory/InMemoryStateTransaction.cs:21-60 | For every interleaving in which nobody writes or commits after a later transaction has begun, or commits before a write: the store is the committed transactions applied one after another in lock order, and a live transaction (or a disposed one that no other has followed) reads the store of those before it overlaid with its own writes |
| InMemorySerial.CommitIsSerialIff | src/RabbitRPC/States/InMemory/InMemoryStateTransaction.cs:21-60 | Any commit by any context after any interleaving leaves the store serial, this transaction last, if and only if every key that it does not write is the same in the store its snapshot was taken from as in the serial store of the transactions before it; without a write, if and only if that store is empty |
| InMemorySerial.OvertakenCommit | src/RabbitRPC/States/InMemory/InMemoryStateTransaction.cs:46-55 | A commit after dispose that later transactions have overtaken keeps a serial store serial if and only if those changed no key but the ones that it writes itself |
| InMemorySerial.CommitNeedsAWrite | src/RabbitRPC/States/InMemory/InMemoryStateTransaction.cs:46-55 | A commit keeps the store serial if and only if there has been a write or the store is empty |
| InMemorySerial.UseAfterDisposeLosesAWrite | src/RabbitRPC/States/InMemory/InMemoryStateContext.cs:21-22 | A concrete run in which a commit after dispose, and after a later transaction, wipes out that transaction's committed write |
| RecordFormat.LengthRoundTrip | src/RabbitRPC/States/FileSystem/FileSystemStateTransaction.cs:115-136 | Reading a 7-bit encoded length gives the length written and ends where it ends |
| RecordFormat.LengthLayout | src/RabbitRPC/States/FileSystem/FileSystemStateTransaction.cs:115-136 | A length is written in the fewest groups of seven bits, low group first, with the high bit on all bytes but the last |
| RecordFormat.LengthRefused | src/RabbitRPC/States/FileSystem/FileSystemStateTransaction.cs:134-136 | A five-byte length is read group by group, and refused if the fifth byte holds more than four bits |
| RecordFormat.Int32Layout | src/RabbitRPC/States/FileSystem/FileSystemStateTransaction.cs:118 | A size is four bytes, low byte first |
| RecordFormat.RecordLayout | src/RabbitRPC/States/FileSystem/FileSystemStateTransaction.cs:115-119 | A record is the length of the key bytes, the key bytes, the size of the value, the value bytes |
| RecordFormat.RecordReads | src/RabbitRPC/States/FileSystem/FileSystemStateTransaction.cs:111-143 | In every file that begins with records that were written, reading at the offset of record i gives its key, its size and its value, and ends at the offset of record i + 1 |
| RecordFormat.RoundTrip | src/RabbitRPC/States/FileSystem/FileSystemStateTransaction.cs:111-143 | Reading back the bytes of any listing of a map whose pairs can be encoded, in any order, gives that map |
| RecordFormat.LastRecordCounts | src/RabbitRPC/States/FileSystem/FileSystemStateTransaction.cs:133-140 | Of several records of one key the last one counts |
| RecordFormat.CutShortValue | src/RabbitRPC/States/FileSystem/FileSystemStateTransaction.cs:136-140 | A last value that the end of the file cuts short is read as far as it goes |
| RecordFormat.WrittenHolds | src/RabbitRPC/States/FileSystem/FileSystemStateTransaction.cs:111-121 | The writing loop leaves the map if and only if every pair can be encoded; otherwise the file cannot be read any more, if only the value of the first bad pair is at fault, or holds just the pairs before it |
| RecordFormat.ScanRefinesLookup | src/RabbitRPC/States/FileSystem/FileSystemStateTransaction.cs:145-200 | On every file a commit can leave, the early-exit scan finds a key and its value exactly when the parsed map has them |
| RecordFormat.FixedWidthIsFaithful | src/RabbitRPC/States/FileSystem/FileSystemStateTransaction.cs:111-143 | There is a codec that meets the laws that the file store asks for |
| FileTransactions.FileSystemStateTransaction.ReadAll | src/RabbitRPC/States/FileSystem/FileSystemStateTransaction.cs:129-143 | The reading loop computes the parse of the whole file, well-formed or not |
| FileTransactions.FileSystemStateTransaction.Scan | src/RabbitRPC/States/FileSystem/FileSystemStateTransaction.cs:147-196 | On any file the skipping loop stops at the header of the first record with the key, finds none, or fails, as the early-exit scan does |
| FileTransactions.FileSystemStateTransaction.TryFindKey | src/RabbitRPC/States/FileSystem/FileSystemStateTransaction.cs:145-161 | Fails exactly as the scan does; on a file that commits leave, true exactly when the parsed map has the key |
| FileTransactions.FileSystemStateTransaction.TryGetValue | src/RabbitRPC/States/FileSystem/FileSystemStateTransaction.cs:174-200 | On a file that commits leave, the value of the key in the parsed map, unless the key is pending removal; on any other, what the scan finds, or its failure |
| FileTransactions.FileSystemStateTransaction.Put | src/RabbitRPC/States/FileSystem/FileSystemStateTransaction.cs:202-206 | Only recorded: appended to the pending operations |
| FileTransactions.FileSystemStateTransaction.Remove | src/RabbitRPC/States/FileSystem/FileSystemStateTransaction.cs:208-218 | Recorded once; on a file that commits leave, exactly when the file holds the key and its removal is not pending yet |
| FileTransactions.FileSystemStateTransaction.Commit | src/RabbitRPC/States/FileSystem/FileSystemStateTransaction.cs:97-127 | Succeeds exactly when the file can be read and every pair of the map with the pending operations applied in order can be encoded; then the file parses to that map and holds each key once. An unreadable file is left as it was; after any other failure the file does not hold that map |
| FileTransactions.FileSystemStateTransaction.WriteAll | src/RabbitRPC/States/FileSystem/FileSystemStateTransaction.cs:111-121 | The loop writes the pairs in order and stops where one cannot be encoded, after its key if only the value is at fault; it succeeds exactly when there is none such |
| FileFold.NextKeeps | src/RabbitRPC/States/FileSystem/FileSystemStateTransaction.cs:97-127 | Every step of transactions that put what can be encoded keeps the file one that commits leave, with the map that the logs so far fold to |
| FileFold.StepsMean | src/RabbitRPC/States/FileSystem/FileSystemStateTransaction.cs:202-218 | A put is appended to its own transaction's pending operations and touches nothing else, a remove likewise once and if the file holds the key, and a successful commit logs exactly the pending operations and leaves them pending |
| FileFold.TransactionsFold | src/RabbitRPC/States/FileSystem/FileSystemStateTransaction.cs:97-218 | For every interleaving of transactions that put what can be encoded, the file always parses and holds each key once, its map is the operation logs folded in commit order over the initial map, and reads are lookups in it less the pending removals |
| FileFold.CommitHoldsIff | src/RabbitRPC/States/FileSystem/FileSystemStateTransaction.cs:97-127 | Whatever is pending, a commit on a readable file leaves the folded map if and only if every pair of that map can be encoded |
| FileFold.TornCommit | src/RabbitRPC/States/FileSystem/FileSystemStateTransaction.cs:109-121 | A concrete commit of a value that cannot be encoded, after which the file cannot be read and what it held is lost |
| FileFold.CommitsAreEnabled | src/RabbitRPC/States/FileSystem/PendingOperations.cs:12-45 | Whatever operations are pending, the map they lead to can be written, so the commit step of the theorem is never vacuous |
| WorkItems.ChunksPartition | src/RabbitRPC/WorkQueues/WorkItemDispatcher.cs:152-164 | The batches concatenate to the dequeued items in arrival order, each is non-empty and at most BatchSize long, and all but the last are full |
| WorkItems.NumberOfBatches | src/RabbitRPC/WorkQueues/WorkItemDispatcher.cs:153 | Their number is the rounded-up quotient and never exceeds the degree of parallelism |
| WorkItems.WorkItemDispatcher.OnNext | src/RabbitRPC/WorkQueues/WorkItemDispatcher.cs:73-79 | A delivery is buffered, or requeued at once exactly when the buffer is full |
| WorkItems.WorkItemDispatcher.Fill | src/RabbitRPC/WorkQueues/WorkItemDispatcher.cs:114-139 | Whenever items arrive, between reads or during waits: what finds room is neither lost, duplicated nor reordered, the rest is requeued at once and nothing is while there is room for all, the buffer never exceeds its size, the loop takes at most BatchSize * DegreeOfParallelism items, and it stops short of that only when the buffer is empty and the wait has timed out or is not wanted |
| WorkItems.WorkItemDispatcher.Slice | src/RabbitRPC/WorkQueues/WorkItemDispatcher.cs:152-164 | The index arithmetic of the loop cuts exactly the batches of the partition, at most DegreeOfParallelism of them |
| WorkItems.WorkItemDispatcher.SendAck | src/RabbitRPC/WorkQueues/WorkItemDispatcher.cs:213-238 | The tags of the done items are acked and those of the others requeued, each in item order and once, a failed send is skipped, and the result counts the acked items |
| WorkConservation.SettlesOutstanding | src/RabbitRPC/WorkQueues/WorkItemDispatcher.cs:213-238 | While the channel is open, the delivery that a batch settles next is outstanding at the broker and has not been settled before |
| WorkConservation.NextKeeps | src/RabbitRPC/WorkQueues/WorkItemDispatcher.cs:73-238 | Every step of any dispatcher, and of a broker that returns the outstanding deliveries of a closed channel, keeps the conservation invariant |
| WorkConservation.DeliverMeans | src/RabbitRPC/WorkQueues/WorkItemDispatcher.cs:73-79 | A delivery to a running dispatcher is buffered last, or back at the broker exactly when the buffer is full |
| WorkConservation.FillMeans | src/RabbitRPC/WorkQueues/WorkItemDispatcher.cs:114-164 | A turn of the fill loop takes the oldest buffered item, and the round ends with one unhandled batch for each slice of what was taken |
| WorkConservation.HandleMeans | src/RabbitRPC/WorkQueues/WorkItemDispatcher.cs:183-206 | A handler sets the done flag of each item of its batch as it likes, and nothing else |
| WorkConservation.SettleMeans | src/RabbitRPC/WorkQueues/WorkItemDispatcher.cs:213-238 | A settlement deals with the next item of its batch: acked if done, back at the broker if not, and neither when it fails |
| WorkConservation.ItemsAreConserved | src/RabbitRPC/WorkQueues/WorkItemDispatcher.cs:73-238 | Over every run each message is ready, acked or outstanding as often as it was posted; an outstanding delivery is held in exactly one place; nothing else is held on an open channel, and after a close what is still held was never settled and is held once; nothing is settled twice; no buffer exceeds its size |
| WorkConservation.AckedOnlyWhenDone | src/RabbitRPC/WorkQueues/WorkItem.cs:27-34 | Over every run a message is acked exactly as often as an item that carries it was settled with IsDone set |
| WorkConservation.NeverStuck | src/RabbitRPC/WorkQueues/WorkItemDispatcher.cs:102-180 | A running dispatcher that holds items always has a step of its own that changes it |
| RpcClient.TaskCompletionSource.TrySet | src/RabbitRPC/Client/RabbitServiceClient.cs:57-81 | A pending completion takes the outcome, any other stays, and the result says which |
| RpcClient.RabbitServiceClient.Register | src/RabbitRPC/Client/RabbitServiceClient.cs:194-197 | A fresh pending source is entered under the id, no entry is replaced, and no two ids share a source |
| RpcClient.RabbitServiceClient.OnOutcome | src/RabbitRPC/Client/RabbitServiceClient.cs:53-83 | A reply or a return gives its outcome to the source of its own correlation id if that is pending, changes nothing if it is not, and touches no other |
| RpcClient.RabbitServiceClient.OnTimeout | src/RabbitRPC/Client/RabbitServiceClient.cs:176-186 | The timeout forgets the id, faults its source if still pending, and touches no other |
| RpcClient.StatusMeans | src/RabbitRPC/Client/RabbitServiceClient.cs:207-236 | Success is reported exactly for a reply that is neither a cancellation nor an error, and each other status exactly for its own completion |
| RpcLifecycle.NextKeeps | src/RabbitRPC/ServiceHost/RabbitServiceHost.cs:199-322 | Every competing event keeps: counters of each delivery match its phase, the ongoing table matches the unfinished deliveries, published replies were produced, completions are justified |
| RpcLifecycle.RepliesCorrelate | src/RabbitRPC/Client/RabbitServiceClient.cs:53-61 | A completed call holds a reply that an execution of that very request produced, the return of a message that was never dispatched, or its own timeout, and the event of exactly that outcome has happened |
| RpcLifecycle.CompletesOnce | src/RabbitRPC/Client/RabbitServiceClient.cs:53-83 | No later reply, return or timeout changes a completion |
| RpcLifecycle.EventsComplete | src/RabbitRPC/Client/RabbitServiceClient.cs:53-83 | At any time of any run, a reply, return or timeout that comes to a pending call completes it with exactly that outcome and touches no other call |
| RpcLifecycle.ExecuteMeans | src/RabbitRPC/ServiceHost/RabbitServiceHost.cs:239-313 | From the fields an execution leaves: it replies, and the reply is on its way to its client, or is nacked, or executes again |
| RpcLifecycle.StepsMean | src/RabbitRPC/ServiceHost/RabbitServiceHost.cs:199-322 | A call is pending and, if routed, queued; a delivery taken enters the ongoing table; an ack settles it; cleaning up takes it out |
| RpcLifecycle.SuccessMeansServed | src/RabbitRPC/Client/RabbitServiceClient.cs:200-236 | A call reported as a success was served: one reply, which is a value, and no nack |
| RpcLifecycle.SettledExactlyOnce | src/RabbitRPC/ServiceHost/RabbitServiceHost.cs:292-322 | No delivery is settled or replied to twice; past its finally block it was acked after exactly one reply or nacked with none; the ongoing table's keys are exactly the requests not past it |
| RpcLifecycle.CancelsOnlyItsOwn | src/RabbitRPC/ServiceHost/RabbitServiceHost.cs:125-139 | A cancellation message aborts its own request while that is ongoing, and no other |
| EndToEnd.NextKeeps | src/RabbitRPC/ServiceHost/RabbitServiceHost.cs:177-323 | Every step of client, broker, host and store keeps both protocols' invariants and the agreement of each reply with its request's verdict |
| EndToEnd.RunProjects | src/RabbitRPC/ServiceHost/RabbitServiceHost.cs:177-323 | Forgetting clients and host, a run of the whole path is a run of the store protocol, so everything proved of those runs holds of its store |
| EndToEnd.ClientSeesTheTruth | src/RabbitRPC/Client/RabbitServiceClient.cs:174-240 | Over the whole path, a value that the client of an update receives was stored by that call's own single put; an error or a returned message means it put nothing; never does a call put twice |
| EndToEnd.ReplyReachesClient | src/RabbitRPC/Client/RabbitServiceClient.cs:53-61 | When a request has its verdict and its client still waits, publishing and delivering the reply completes the call with it |
| EndToEnd.CancelReachesRequest | src/RabbitRPC/ServiceHost/RabbitServiceHost.cs:125-139 | A cancellation message aborts the store request of the delivery that is ongoing under its id |

## Left out

- Connections, queue and exchange declarations, logging, dependency injection, reflection, `AsyncLocal`: library plumbing.
- Event bus, parameter binding, client-side filters, the samples other than the counter, migrations: they would add only easy members.
- Broker redelivery of requests after a lost host connection: the request lifecycle assumes that a queued request is dispatched once; redelivery appears only in the work item model.
- Failures of `BasicPublish`, `BasicAck` and `BasicNack` in the host, and failures before its try block (an unknown service name): assumed away, as the settlement statements need.
- Linearizability.HonestReplies: assumes that a SQL statement that throws has not taken effect; when the connection is lost after the database has applied a put, an error reply goes with that put.
- RpcLifecycle.SettledExactlyOnce: does not cover RejectRequest, for which `ServiceHost.SettledOnceIffNotRejected` shows that the statement is false.
- RpcLifecycle.RepliesCorrelate: assumes distinct correlation ids, which are GUIDs in the program; with a repeated id the ongoing table would drop the other request's entry.
- Optimistic.NextKeeps: other clients put to the protocol's key only under the protocol. What an unversioned put of theirs does to a versioned one is in `StateTable.NoLostUpdate`; removals of the key are not covered, since re-creating a row resets its version.
- Optimistic.RunKeeps: a query is given the same verdict function as an update; `GetCounterAsync` has no retry filter, which makes no difference because it never throws the concurrency error.
- Counter.CounterIsExact: row versions are unbounded integers, so a version beyond 63 bits is not modelled.
- EF transactions that a caller opens, and the isolation between them: every statement is its own atomic step.
- EFStates.EFStateContext.PutAll: the statements of others that may fall between its pairs, and what others read of a transaction that is rolled back.
- Namespace prefixing in EF (its dot separator is not injective, so keys are taken as already prefixed), the multi-key `GetAsync`, and string collations of the databases.
- InMemorySerial.Serializable: not for contexts that write or commit after a later transaction has begun, or commit before a write; `CommitIsSerialIff` covers every commit of theirs.
- `InMemoryStateStore.Dispose` and disposal of the semaphore: shutdown only.
- FileFold.TransactionsFold: commits are atomic, that is, the range lock and the file watcher work; the Serializable level, stream buffering and crashes inside a commit are not modelled.
- FileTransactions.FileSystemStateTransaction.Scan: on a corrupt file with a negative size before the match the model fails, where the program's loop moves backwards.
- RecordFormat.RoundTrip: keys are encoded and values serialized by functions that may throw and otherwise have a round-trip law; UTF-8 and the message serializers themselves are not modelled, nor a deserializer that throws.
- WorkItems.WorkItemDispatcher.Fill: what arrives when is a parameter, and overflow of the 32-bit product of batch size and parallelism is not modelled.
- Work queue shutdown beyond stopping a dispatcher and closing its channel, and the early end of `RunAsync` when a wait returns without an item.
- Async filter bodies are deterministic reactions to what they have seen, with a bound on the calls of `next` in one run; a body that calls `next` forever has no run.
- Concurrent calls of `next` by one async filter body: calls are made one after another.
