# Agreements generator: the job lifecycle, its stores and its users

A Dafny model of the service that accepts archives, has a worker generate documents from them over
gRPC or a queue, and lets clients ask for the status and the result. Every result is a statement
over all inputs, all reachable states or all interleavings.

## What is modelled

**The lifecycle protocol** (`Protocol`). A transition system over the in-memory job map, the
expiring status cache, any number of submissions, job goroutines and CheckJobStatus calls, the
cleanup, a clock and the metrics. Each storage, cache or metric call is one atomic step. Each
fallible call ends in one of three ways: it succeeds, it fails without effect, or it fails after
taking effect. Cache reads and store reads may fail too, and the cache may forget an entry early.
A run is a list of states and the list of steps between them, so theorems speak about moments of a
run rather than about bookkeeping fields.

- `ProtocolSafety`: the inductive invariant; a row's status is written once; where cached statuses
  come from; a completed answer means the archive is there.
- `ReadAnswers`: which error the reads answer with, exactly when, from the history of the run alone.
- `Observations`, `Staleness`, `Scenarios`: the order of answers a client can see, how long the
  cache can disagree with the store, exactly when it can, and a fault-free run whose answers go
  back from completed to processing because one reader wrote back late.
- `Timing`: job deadlines, rows lost to cleanup (an if and only if in the configured durations,
  for cleanup at any moment and for cleanup at its ticks only), row lifetimes.
- `MetricConservation`: counters, gauge and observations add up.
- `Handoff`: the two unbuffered channels between client goroutine and ProcessJob, with Go's rules
  for closed channels. The protocol's single receive step stands on it.
- `GrpcGenerator`: the same service as sequential code over the store and cache objects, each
  operation shown to be the protocol's steps run without interruption.

**The stores.** `StorageInMemory` is the locked map with its cleanup loop and user table,
`Postgres` the tables with keys, checks, foreign keys and cascades. `StoreSimulation` relates the
two over every admissible call sequence, failing commits included, and says exactly where they
differ. `TableRuns` shows that the store calls of every run of the lifecycle protocol are such a
sequence, and carries the protocol's results over to the tables.

**Queue mode.** `QueueMode` interleaves submissions over the relational store with cleanup and an
unconstrained worker.

**Data paths.** `GenClient`, `Dto` and `FilePipeline` follow the per-file errors from the worker's
answer to the HTTP listing. `Numbers` is what JSON makes of an integer: binary64 rounding, shortest
decimal printing and parsing. `Claims` follows a user through a token. `Auth` covers sequences of
registrations and logins.

Times are natural numbers of nanoseconds. A status is `Processing`, `Completed`, `Failed` or
`Other(text)`, the last standing for any unrecognised string.

## Behaviour of the code worth knowing

- A reader that read processing from the store can write it to the cache after ProcessJob cached
  the final status. `Scenarios.AnswersCanRegress` exhibits it without any failing call.
- If UpdateJob returns an error, ProcessJob announces failed; when the update had no effect the row
  stays processing, and when it had completed the row the row stays completed
  (`Staleness.DisagreesIffBotched`). From which states a status check can still answer something
  other than the row's status, for these reasons or the previous one, is
  `Staleness.StaleAnswerPossibleIff`.
- If submission delay, job duration and the five seconds of finalisation do not fit into the row's
  lifetime, cleanup can take a job away from its own finalisation (`Timing.NoJobLostIff`,
  `Timing.NoJobLostToATickIff`).
- A failing commit in the relational SaveResponse is answered with success; the job is then
  announced as completed and its archive is not found (`StoreSimulation.ServedIffCommitted`,
  `TableRuns.TablesAnnounceAfterSave`). No other job notices (`StoreSimulation.LostCommitIsLocal`).
- Updating a missing job fails in the map and silently succeeds in the tables
  (`StoreSimulation.WriteAnswers`). It is the only store call of the lifecycle that the two answer
  differently (`TableRuns.AnsweredAlikeIff`).
- Not every id beyond 2^53 survives a token: 2^53 + 1 comes back as 2^53 and 2^53 + 2 as itself
  (`Numbers.FirstLargeIdChanges`, `Numbers.SecondLargeIdSurvives`). 2^56 does not survive
  (`Numbers.ExactIdChanges`). Each comes back as the shortest
  decimal of the float nearest to it (`Numbers.IdComesBackAs`).
- Under ES256 and RS256 no token can be made from a byte secret: Register then fails, the user stays
  registered, and the login is taken for good (`Auth.FailureLeavesTraceIff`,
  `Auth.LeftBehindBlocksLogin`).
- Queue mode over a storage without raw archives never publishes (`QueueMode.ReturnedIffPublished`).

## Model

| member | source | states |
|---|---|---|
| `ProtocolSafety.StepKeepsInv` | internal/service/grpc_generator/generator.go:51-309 | every step of every goroutine, with any call failing in any way, keeps the joint invariant of task, row, cache entry and pending write-back |
| `ProtocolSafety.TerminalOnce` | internal/storage/storage_in_memory/storage.go:69-91 | between any two moments of any run a row's status is unchanged or went from processing to completed or failed |
| `ProtocolSafety.BornProcessing` | internal/service/grpc_generator/generator.go:78-90 | a row appears only through StoreJob, as processing, and never a second time |
| `ProtocolSafety.OnlyUpdateChangesStatus` | internal/service/grpc_generator/generator.go:250-277 | no reader, save, cleanup or other job ever changes a row's status |
| `ProtocolSafety.OneUpdatePerJob` | internal/service/grpc_generator/generator.go:243-295 | the number of UpdateJob calls issued for a job is zero before its ProcessJob's update point and one for ever after |
| `ProtocolSafety.CompletedIffSaved` | internal/service/grpc_generator/generator.go:243-277 | ProcessJob targets completed exactly when its own error-free response had been saved without error, failed otherwise |
| `ProtocolSafety.HeldIsHistory` | internal/storage/storage_in_memory/storage.go:82-91 | the statuses attributed to a job are exactly those its row showed at some earlier moment of the run |
| `ProtocolSafety.CacheProvenance` | internal/service/grpc_generator/generator.go:92-94 | every cached status was the row's at some earlier moment, or is a failed the job's own ProcessJob wrote on an error branch; completed is never cached before the row held it |
| `ProtocolSafety.WriteBackProvenance` | internal/service/grpc_generator/generator.go:133-148 | what a reader is about to write back was the row's status at some earlier moment |
| `ProtocolSafety.OutIsDelivered` | internal/service/grpc_generator/generator.go:229-230 | a job's stored response is the one its own client goroutine delivered, and at most one is delivered |
| `ProtocolSafety.AnnounceAfterSave` | internal/service/grpc_generator/generator.go:153-199 | after any completed answer, as long as the row exists, GetArchive and GetArchiveInfo answer from exactly what was delivered for that job |
| `ReadAnswers.ArchiveReads` | internal/service/grpc_generator/generator.go:153-199 | in every reachable state GetArchive and GetArchiveInfo answer "not found" without a row, from the delivered response for a completed one, and otherwise an internal error if and only if a delivered error text was saved for the job, "not finished" if not |
| `ReadAnswers.RefusedIff` | internal/service/grpc_generator/generator.go:128-143 | a status check ends in "not found" if and only if it came to a working store read without a row, in an internal error if and only if it came to a failing one, and in no other error |
| `ReadAnswers.RemovedIsNotFound` | internal/service/grpc_generator/generator.go:128-138 | a check begun after a row was removed, with no live entry, answers exactly "not found" unless its store read fails |
| `ReadAnswers.EventuallyNotFound` | internal/service/grpc_generator/generator.go:128-148 | once a row is gone, its job has cached its last status and no call holds one, every check from jobStatusTTL later on answers exactly "not found" unless its store read fails |
| `Observations.MonotoneObservation` | internal/service/grpc_generator/generator.go:121-151 | in calm runs the answers for a job go from processing to at most one terminal status and never back |
| `Scenarios.AnswersCanRegress` | internal/service/grpc_generator/generator.go:133-145 | for every configuration a run without failures exists in which a call begun after a completed answer answers processing |
| `Staleness.BoundedStaleness` | internal/service/grpc_generator/generator.go:128-150 | once UpdateJob has been issued, whatever its result, nothing but the row's status is left to announce and no call holds another, calls starting jobStatusTTL later answer exactly the row's status, or fail only because their store read fails or the row is gone |
| `Staleness.ExpiryBounded` | internal/cache/redis.go:36-42 | no entry ever outlives now plus jobStatusTTL, as hits do not prolong it |
| `Staleness.StaleAnswerPossibleIff` | internal/service/grpc_generator/generator.go:128-148 | once UpdateJob has been issued, a call started from now on can answer a status other than the row's if and only if there is now a live disagreeing entry, a late holder, or another status still to be announced by ProcessJob |
| `Staleness.DisagreesIffBotched` | internal/service/grpc_generator/generator.go:277-294 | in every run ProcessJob announces a status other than the one its row is left with if and only if its UpdateJob returned an error and either had no effect or had completed the row |
| `Timing.ProcessingDeadline` | internal/service/grpc_generator/generator.go:225-236 | every ProcessJob is finished jobMaxDuration plus 5000000000 nanoseconds after its context was made, and finalisation always starts with all of these |
| `Timing.NoJobLostIff` | internal/storage/storage_in_memory/storage.go:52-67 | for any cleanup instants, no finalising SaveResponse or UpdateJob ever finds its row missing, in any run with punctual calls, if and only if delay, jobMaxDuration and five seconds fit into jobTTL |
| `Timing.NoJobLostToATickIff` | internal/storage/storage_in_memory/storage.go:52-67 | the same bound is exact for a cleanup that runs every jobTTL and at no other moment, for every positive jobTTL |
| `Timing.RowLifetime` | internal/storage/storage_in_memory/storage.go:52-67 | a removed row had lived more than jobTTL, and with a punctual ticker none lives beyond twice jobTTL |
| `MetricConservation.MetricsConserved` | internal/service/grpc_generator/generator.go:54-67 | counted plus pending successful submissions equal queued jobs plus the gauge plus unobserved jobs plus observations |
| `MetricConservation.SuccessObservations` | internal/service/grpc_generator/generator.go:206-217 | success observations count exactly the finished jobs whose update to completed returned no error, error observations the other finished jobs |
| `MetricConservation.SubmissionsCounted` | internal/service/grpc_generator/generator.go:54-76 | the error counter equals the submissions that returned an error plus the failed id generations, and both counters with the submissions under way equal everything ever begun |
| `Handoff.StepKeepsInv` | internal/service/grpc_generator/generator.go:219-230 | every handoff step keeps the two goroutines in lockstep and decreases the ranking measure |
| `Handoff.HandoffSafe` | internal/gen_client/client.go:36-63 | no send or close panics, no receive meets a closed channel, no channel is closed twice |
| `Handoff.NeverDeadlocks` | internal/gen_client/client.go:36-63 | some step is possible until both goroutines have finished, for every outcome of the call, within nine steps |
| `Handoff.HandoffDelivers` | internal/service/grpc_generator/generator.go:229-230 | ProcessJob finalises with exactly the pair sent and a non-nil response, and each channel ends closed exactly once |
| `GrpcGenerator.Generator.BulkGenerate` | internal/service/grpc_generator/generator.go:51-119 | an id is returned exactly when it was generated, new and stored; it is the id of the processing row stamped now and of the cached status; which error every other exit has and what it leaves behind |
| `GrpcGenerator.Generator.Finalise` | internal/service/grpc_generator/generator.go:238-308 | rows, cache, metrics and result label after finalisation, for every branch |
| `GrpcGenerator.Generator.CheckJobStatus` | internal/service/grpc_generator/generator.go:121-151 | exactly when the answer is "not found" and when an internal error, otherwise the cached status on a hit and the row's on a miss, and what is written back |
| `GrpcGenerator.Generator.GetArchive` | internal/service/grpc_generator/generator.go:153-177 | the archive or the error for each state of the row |
| `GrpcGenerator.Generator.GetArchiveInfo` | internal/service/grpc_generator/generator.go:179-199 | the file errors and count or the error for each state of the row |
| `GrpcGenerator.SubmitIsUninterrupted` | internal/service/grpc_generator/generator.go:78-118 | the sequential submission is the protocol's submission run without interruption, and its answer is the id submitted |
| `GrpcGenerator.SubmittedIsProcessing` | internal/service/grpc_generator/generator.go:78-151 | in every reachable state a status check of the id just returned, however late and whatever its cache calls do, answers processing if its store read works |
| `GrpcGenerator.SubmitCounts` | internal/service/grpc_generator/generator.go:54-67 | the sequential submission counts itself once, under the label of its outcome, as the protocol's does |
| `GrpcGenerator.FinaliseIsUninterrupted` | internal/service/grpc_generator/generator.go:229-308 | the sequential finalisation is the protocol's run without interruption, with the same label and metrics |
| `GrpcGenerator.CheckIsUninterrupted` | internal/service/grpc_generator/generator.go:121-151 | the sequential status check is the protocol's run without interruption, with the same answer or the same error |
| `StatusCache.RedisCacher.SetJobStatus` | internal/cache/redis.go:36-38 | a set replaces the entry and restarts its lifetime |
| `StatusCache.RedisCacher.GetJobStatus` | internal/cache/redis.go:40-42 | a get answers exactly the live entry and changes nothing |
| `StorageInMemory.MemoryStorage.Cleanup` | internal/storage/storage_in_memory/storage.go:59-67 | the in-place deletion loop leaves exactly the rows that are not over age |
| `StorageInMemory.CleanupIsExact` | internal/storage/storage_in_memory/storage.go:62-66 | which rows survive a pass, to the nanosecond, and that they are unchanged |
| `StorageInMemory.MemoryStorage.StoreJob` | internal/storage/storage_in_memory/storage.go:69-80 | conflict on an existing id, otherwise a blank row stamped with the time |
| `StorageInMemory.MemoryStorage.UpdateJob` | internal/storage/storage_in_memory/storage.go:82-91 | not found, or only the status of that row changes |
| `StorageInMemory.MemoryStorage.SaveResponse` | internal/storage/storage_in_memory/storage.go:103-120 | not found, or that row carries the response and keeps its status |
| `StorageInMemory.MemoryStorage.Register` | internal/storage/storage_in_memory/storage.go:159-178 | conflict without any change, or the next id for the new login |
| `Postgres.StatementsKeepConsistent` | internal/storage/postgres/migrations/000001_init.up.sql:10-27 | archives and input archives refer to existing jobs and jobs to existing users after every statement, cascading delete included |
| `Postgres.StorageGenerator.StoreJob` | internal/storage/postgres/postgres.go:140-150 | the row inserted; conflict for a duplicate id, bad request for an unknown user or a bad status, each without effect |
| `Postgres.StorageGenerator.UpdateJob` | internal/storage/postgres/postgres.go:152-163 | a missing job changes nothing and is answered with success, an unrecognised status is refused, otherwise that row has the status and its old creation time and no other row, archive or input changes |
| `Postgres.StorageGenerator.SaveResponse` | internal/storage/postgres/postgres.go:95-138 | which domain error each failure of begin and statement becomes, without effect; after a success the job has an archive, with the response's columns, exactly when the commit succeeded |
| `Postgres.StorageGenerator.CleanUp` | internal/storage/postgres/postgres.go:246-272 | exactly the jobs not older than jobTTL survive, each with its row, archive and input as before, and the foreign keys hold after as before; a failing pass changes nothing |
| `StoreSimulation.RunsKeepRelated` | internal/storage/postgres/postgres.go:39-177 | map and tables stay related over every admissible call sequence, whichever commits fail |
| `StoreSimulation.StoresAgree` | internal/storage/storage_in_memory/storage.go:93-157 | CheckJobStatus always agrees; GetArchive and GetArchiveInfo agree exactly on the jobs that were given a response whose commit was not lost, and the answers for the others |
| `StoreSimulation.ServiceAnswersAgree` | internal/service/grpc_generator/generator.go:153-199 | the service's GetArchiveInfo differs between the stores exactly for unsaved jobs, its GetArchive exactly for those that are not completed or whose archive was lost |
| `StoreSimulation.WriteAnswers` | internal/storage/postgres/postgres.go:140-163 | writes are answered alike except that UpdateJob of a missing job fails in the map only |
| `StoreSimulation.ServedIffCommitted` | internal/storage/postgres/postgres.go:121-137 | whatever is called before and after it, a response that was accepted is served by the tables once its job is completed if and only if its commit succeeded, while the map serves it always |
| `StoreSimulation.LostCommitIsLocal` | internal/storage/postgres/postgres.go:133-137 | over any later calls, a lost commit changes nothing but the presence of that one job's archive |
| `TableRuns.RunsAreAdmissible` | internal/service/grpc_generator/generator.go:78-277 | the store calls of every run of the lifecycle are admissible: fresh ids, recognised statuses, one response per job |
| `TableRuns.AnsweredAlikeIff` | internal/storage/postgres/postgres.go:95-177 | in every run the tables answer each store call as the map does unless it is an UpdateJob of a missing job, and there is none when the calls are punctual and fit into jobTTL |
| `TableRuns.TablesAnnounceAfterSave` | internal/storage/postgres/postgres.go:121-137 | after any completed answer, as long as the job exists, the tables serve exactly what was delivered for it if its commit succeeded, and find nothing otherwise |
| `TableRuns.TablesArchiveReads` | internal/storage/postgres/postgres.go:39-138 | in every reachable state the tables find nothing unless a response was saved and committed; otherwise they serve it once completed, and before that an internal error if and only if a delivered error text was saved |
| `TableRuns.TablesRowLifetime` | internal/storage/postgres/postgres.go:246-272 | in every run a removed job had lived more than jobTTL, and with a punctual ticker neither a job nor what refers to it outlives twice jobTTL |
| `QueueMode.PublishedAfterStored` | internal/service/queue_generator/generator.go:75-109 | every message names a job whose row and submitted archive were both in the tables, and still are unless cleanup removed both |
| `QueueMode.ReturnedIffPublished` | internal/service/queue_generator/generator.go:94-109 | an id is returned exactly when one message for it was sent; none is ever sent when the storage keeps no raw archives |
| `QueueMode.AlwaysConsistent` | internal/storage/postgres/migrations/000002_add_raw_archive.up.sql:1-7 | archives and input archives refer to existing jobs in every reachable state |
| `QueueMode.QueueGenerator.BulkGenerate` | internal/service/queue_generator/generator.go:42-110 | an id is returned exactly when it was generated, stored with its archive and sent, and it is the id of all three; which error each other exit has; cache and submission counter for all |
| `QueueMode.SubmissionIsUninterrupted` | internal/service/queue_generator/generator.go:75-109 | the sequential submission is the transition system's run without interruption, and its answer is the id submitted |
| `GenClient.BulkGenerate` | internal/gen_client/client.go:36-63 | the pair sent: the worker's archive, count, files and messages in order, or an error text with an empty response |
| `GenClient.TranslationIsUnique` | internal/gen_client/client.go:46-58 | the worker's answer determines the delivered response completely |
| `Dto.NewGetArchiveInfoResponse` | internal/dto/dto.go:29-45 | the listing has the same files in order, each with its messages in order |
| `FilePipeline.TranslateThenRender` | internal/dto/dto.go:29-45 | translating and then rendering lists exactly the worker's files, messages and count |
| `FilePipeline.CompletedJobServesWorkerAnswer` | internal/storage/storage_in_memory/storage.go:115-119 | in every interleaving, after a completed answer the HTTP listing and the archive are exactly the worker's |
| `FilePipeline.FailedCallIsReported` | internal/gen_client/client.go:36-42 | once the outcome of a failed worker call is saved, GetArchive and GetArchiveInfo answer an internal error while the row exists |
| `Numbers.ParsePrint` | internal/token_manager/jwt.go:62-68 | reading a printed integer gives that integer back |
| `Numbers.FloatsSurvivePrinting` | internal/token_manager/jwt.go:104-109 | every integral float, as printed without an exponent, is read back unchanged from its shortest decimal text |
| `Numbers.RoundsToNearest` | internal/token_manager/jwt.go:67-70 | a number read into `any` becomes a representable value than which none is closer, the even one of two equally close |
| `Numbers.PrintedIsShortest` | internal/token_manager/jwt.go:104 | a float below 10^21 is printed with as many trailing zeros as any decimal whatever that reads back as it, and as the closest of those |
| `Numbers.ExactBound` | internal/token_manager/jwt.go:56-68 | all ids within a bound survive the two trips through floats if and only if the bound is at most 9007199254740992 |
| `Numbers.FirstLargeIdChanges` | internal/token_manager/jwt.go:56-109 | 9007199254740993 comes back as 9007199254740992 |
| `Numbers.ExactIdChanges` | internal/token_manager/jwt.go:56-109 | 2^56, although a float, comes back as the multiple of ten next to it |
| `Numbers.IdComesBackAs` | internal/token_manager/jwt.go:56-109 | every id comes back as the shortest decimal of its nearest float, or is refused where that does not fit into 64 bits, and comes back unchanged from then on |
| `Numbers.SurvivesIff` | internal/token_manager/jwt.go:56-109 | an id survives a token if and only if it is the shortest decimal of its nearest float |
| `Numbers.ConfusedIff` | internal/token_manager/jwt.go:56-109 | two ids come back as the same user if and only if one float is nearest to both |
| `Claims.ClaimsRoundTrip` | internal/token_manager/jwt.go:94-115 | a token gives back exactly the user it was issued for until its expiry and is refused from then on |
| `Claims.ReadElsewhereIff` | internal/token_manager/jwt.go:94-127 | a token made under one configuration and read under another gives back its user if and only if algorithm and secret agree and it has not expired, and is refused otherwise |
| `Claims.ReadsIff` | internal/token_manager/jwt.go:94-127 | any token whatever is read if and only if algorithm and secret are the reader's, it has not expired and its claims are of the right kind; what is read and the one error otherwise |
| `Claims.ExpiresOnTime` | internal/token_manager/jwt.go:72-73 | a token expires less than one second before its configured lifetime ends, and never after |
| `Claims.TokenMaker.Create` | internal/token_manager/jwt.go:61-83 | the four claims with their times in seconds, signed with the own algorithm and secret, or an error when the byte secret cannot sign |
| `Claims.TokenMaker.Parse` | internal/token_manager/jwt.go:94-115 | the user read back, only ever from a token of the own algorithm and secret, or the one refusal |
| `Auth.Service.Register` | internal/service/auth.go:35-69 | the new user table and the answer for every early exit |
| `Auth.Service.LogIn` | internal/service/auth.go:71-91 | the answer for an unknown login, a wrong password and a match |
| `Auth.IdsInRegistrationOrder` | internal/storage/storage_in_memory/storage.go:159-178 | after any calls the ids are exactly 0 to n - 1 in registration order, one per login |
| `Auth.UsersPersist` | internal/storage/storage_in_memory/storage.go:159-189 | no call ever changes or removes a registered user |
| `Auth.LogInMatchesRegistration` | internal/service/auth.go:35-91 | a login with the registered password issues a token for the same login and id as the registration's, whatever happens in between |
| `Auth.LogInAnswers` | internal/service/auth.go:71-91 | after any calls a login succeeds if and only if tokens can be made and the hash of the login's first sound registration accepts the password; otherwise not found, refused by the hasher, or an internal error, each exactly when |
| `Auth.RegisterAnswers` | internal/service/auth.go:35-69 | after any calls, exactly when a registration succeeds and exactly when it gets each of its errors |
| `Auth.FailureLeavesTraceIff` | internal/service/auth.go:35-91 | for every request and table, a call fails and still changes the users if and only if it is a registration that passes every check while no token can be made |
| `Auth.FailuresLeaveNoTraceIff` | internal/service/auth.go:35-91 | in every sequence of calls all failing ones leave the users unchanged if and only if tokens can be made or no request passes the checks |
| `Auth.LeftBehindBlocksLogin` | internal/service/auth.go:55-66 | after such a failure, whatever is called in between, registering the login again fails and changes nothing |

## Left out

- HTTP handlers, routing, logging, configuration, start-up and shutdown: plumbing around the modelled parts.
- SQL, Redis, RabbitMQ and gRPC transports: each is a table, an expiring map, a queue or a call that may fail.
- The Python worker is not part of this model: in queue mode it may insert results and update jobs at will.
- UUID generation is assumed to give fresh ids; a failing generation is the step `SubmitWithoutId`.
- bcrypt is a parameter assumed to accept its own hashes; JWT signatures are replaced by naming the algorithm and secret.
- JSON strings are assumed to read back unchanged and a JSON column to read back what was written; key matching without regard to case is assumed for `ID` and `Login`.
- A jobStatusTTL of zero, which Redis takes as "no expiry", and a jobTTL of zero, which stops the ticker from being made, are not modelled; results that need a positive jobStatusTTL say so.
- Queue-mode CheckJobStatus, GetArchive and GetArchiveInfo repeat the gRPC versions; in `QueueMode` the cache may change at will between a submission's steps.
- TableRuns takes a save with a negative count as a failing one: the tables' check refuses it, where the map would keep it.
- Registration in the relational store: its ids come from a database sequence.
- Aliasing of stored byte slices with those handed to callers, and the rollback bookkeeping of transactions.
- A cache call that takes effect only after it has returned an error: a failing call takes effect during the call or never.
- Observations.MonotoneObservation: orders answers by the last cache or store access of each call, so calls that overlap may return to their clients in another order.
- Claims.ClaimsRoundTrip: takes an expiry of zero seconds as long past, where the token library takes it as none; it concerns tokens that expire within the first second of 1970.
- Numbers.FloatsSurvivePrinting: prints no exponent, which Go uses from 10^21 on, and has no largest float; no 64-bit id gets that far.
- Claims.TokenMaker.Parse: looks at the expiry among the registered claims of a token only; tokens made here carry no other that is checked.
