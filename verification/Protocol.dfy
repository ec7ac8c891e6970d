/**
  The job lifecycle as a concurrent transition system: any number of submissions, job
  goroutines, status readers, cleanup passes and cache expiries, interleaved one storage,
  cache or metric call at a time. Models internal/service/grpc_generator/generator.go over the
  in-memory store and the expiring cache.
 */
module Protocol {
  import opened Domain
  import opened StatusCache
  import opened StorageInMemory

  datatype Config = Config(jobMaxDuration: Time, jobTTL: Time, jobStatusTTL: Time)

  const FINALIZE_TIMEOUT: Time := 5_000_000_000

  /** How a fallible call ends. A failing write may have lost its effect or not. */
  datatype Call = Succeeds | Fails | FailsAfterEffect {
    predicate TakesEffect() {
      !Fails?
    }
  }

  // ----- program counters -----

  /** BulkGenerate, from the moment it has an id. `Counting` is its deferred metric. */
  datatype Submit = Storing | Caching | Spawning | Counting(ok: bool) | Returned(ok: bool)

  /** The `result` label of a ProcessJob. */
  datatype Label = Success | Error

  /** What is left of ProcessJob after its UpdateJob: cache write, gauge, observation. */
  datatype Stage = Publishing | Leaving | Observing | Finished

  datatype Process =
    | NotSpawned
    | Spawned
    | Waiting
    | Saving(result: Label)
    | Updating(target: JobStatus, result: Label)
    | After(stage: Stage, final: JobStatus, result: Label)

  /**
    One submission and its job goroutine. `out` is what the client goroutine delivered and
    `held` collects the statuses the job's row has held.
   */
  datatype Task = Task(
    submit: Submit,
    process: Process,
    storedAt: Time,
    ctxDeadline: Time,
    finDeadline: Time,
    out: Option<Delivery>,
    held: set<JobStatus>)

  datatype ReaderPC =
    | Beginning
    | Missed
    | Holding(status: JobStatus)
    | Answered(status: JobStatus)
    | Refused(error: AppError)

  /** One CheckJobStatus call. */
  datatype Reader = Reader(id: JobId, startedAt: Time, pc: ReaderPC)

  datatype Metrics = Metrics(
    submittedOk: nat,
    submittedError: nat,
    inProgress: int,
    observedSuccess: nat,
    observedError: nat)

  datatype State = State(
    now: Time,
    rows: Rows,
    cache: Entries,
    tasks: map<JobId, Task>,
    readers: map<nat, Reader>,
    metrics: Metrics,
    lastTick: Time)

  const INIT := State(0, map[], map[], map[], map[], Metrics(0, 0, 0, 0, 0), 0)

  // ----- steps -----

  datatype Action =
    | Advance(duration: Time)
    | Cleanup
    | Drop(id: JobId)                       // the cache forgets an entry early, or DeleteJobStatus
    | SubmitWithoutId                       // UUID generation failed
    | Submit(id: JobId)
    | StoreJob(id: JobId, call: Call)
    | CacheProcessing(id: JobId, call: Call)
    | Spawn(id: JobId)
    | CountSubmission(id: JobId)
    | Start(id: JobId)
    | Receive(id: JobId, out: Delivery)
    | Save(id: JobId, call: Call)
    | Update(id: JobId, call: Call)
    | CacheFinal(id: JobId, call: Call)
    | Leave(id: JobId)
    | Observe(id: JobId)
    | Begin(r: nat, id: JobId)
    | CacheRead(r: nat, fails: bool)
    | StoreRead(r: nat, fails: bool)
    | WriteBack(r: nat, call: Call)

  predicate SubmitAt(s: State, id: JobId, pc: Submit) {
    id in s.tasks && s.tasks[id].submit == pc
  }

  predicate StageAt(s: State, id: JobId, stage: Stage) {
    id in s.tasks && s.tasks[id].process.After? && s.tasks[id].process.stage == stage
  }

  predicate Enabled(s: State, a: Action) {
    match a
    case Advance(_) => true
    case Cleanup => true
    case Drop(_) => true
    case SubmitWithoutId => true
    case Submit(id) => id !in s.tasks        // ids are fresh
    case StoreJob(id, _) => SubmitAt(s, id, Storing)
    case CacheProcessing(id, _) => SubmitAt(s, id, Caching)
    case Spawn(id) => SubmitAt(s, id, Spawning)
    case CountSubmission(id) => id in s.tasks && s.tasks[id].submit.Counting?
    case Start(id) => id in s.tasks && s.tasks[id].process.Spawned?
    case Receive(id, _) => id in s.tasks && s.tasks[id].process.Waiting?
    case Save(id, _) => id in s.tasks && s.tasks[id].process.Saving?
    case Update(id, _) => id in s.tasks && s.tasks[id].process.Updating?
    case CacheFinal(id, _) => StageAt(s, id, Publishing)
    case Leave(id) => StageAt(s, id, Leaving)
    case Observe(id) => StageAt(s, id, Observing)
    case Begin(r, _) => r !in s.readers
    case CacheRead(r, _) => r in s.readers && s.readers[r].pc.Beginning?
    case StoreRead(r, _) => r in s.readers && s.readers[r].pc.Missed?
    case WriteBack(r, _) => r in s.readers && s.readers[r].pc.Holding?
  }

  function WithSubmit(s: State, id: JobId, pc: Submit): State
    requires id in s.tasks
  {
    s.(tasks := s.tasks[id := s.tasks[id].(submit := pc)])
  }

  function WithProcess(s: State, id: JobId, pc: Process): State
    requires id in s.tasks
  {
    s.(tasks := s.tasks[id := s.tasks[id].(process := pc)])
  }

  function WithReader(s: State, r: nat, pc: ReaderPC): State
    requires r in s.readers
  {
    s.(readers := s.readers[r := s.readers[r].(pc := pc)])
  }

  /** A cache write that may fail. */
  function Cached(c: Config, s: State, id: JobId, status: JobStatus, call: Call): State {
    if call.TakesEffect() then s.(cache := Put(s.cache, id, status, s.now, c.jobStatusTTL)) else s
  }

  // BulkGenerate

  function NewTask(s: State): Task {
    Task(Storing, NotSpawned, s.now, 0, 0, None, {})
  }

  function ApplyStoreJob(s: State, id: JobId, call: Call): State
    requires SubmitAt(s, id, Storing)
  {
    var stores := call.TakesEffect() && id !in s.rows;
    var ok := call.Succeeds? && id !in s.rows;
    var t := s.tasks[id].(
      submit := if ok then Caching else Counting(false),
      storedAt := s.now,
      held := if stores then {Processing} else s.tasks[id].held);
    s.(rows := if stores then AfterStore(s.rows, id, Processing, s.now) else s.rows,
       tasks := s.tasks[id := t])
  }

  function ApplySpawn(c: Config, s: State, id: JobId): State
    requires SubmitAt(s, id, Spawning)
  {
    s.(tasks := s.tasks[id := s.tasks[id].(
         submit := Counting(true),
         process := Spawned,
         ctxDeadline := s.now + c.jobMaxDuration)])
  }

  function ApplyCountSubmission(s: State, id: JobId): State
    requires id in s.tasks && s.tasks[id].submit.Counting?
  {
    var ok := s.tasks[id].submit.ok;
    WithSubmit(s, id, Returned(ok)).(metrics :=
      if ok then s.metrics.(submittedOk := s.metrics.submittedOk + 1)
      else s.metrics.(submittedError := s.metrics.submittedError + 1))
  }

  // ProcessJob

  /** Both receives at once: module Handoff shows that the pair received is the pair sent. */
  function ApplyReceive(s: State, id: JobId, out: Delivery): State
    requires id in s.tasks
  {
    s.(tasks := s.tasks[id := s.tasks[id].(
         process := Saving(if out.err.Some? then Error else Success),
         finDeadline := s.now + FINALIZE_TIMEOUT,
         out := Some(out))])
  }

  function ApplySave(s: State, id: JobId, call: Call): State
    requires id in s.tasks && s.tasks[id].process.Saving?
  {
    var t := s.tasks[id];
    var ok := call.Succeeds? && id in s.rows;
    var good := ok && t.process.result.Success?;
    var next := Updating(if good then Completed else Failed, if good then Success else Error);
    WithProcess(s, id, next).(rows :=
      if call.TakesEffect() && t.out.Some? then AfterSave(s.rows, id, t.out.value) else s.rows)
  }

  function ApplyUpdate(s: State, id: JobId, call: Call): State
    requires id in s.tasks && s.tasks[id].process.Updating?
  {
    var t := s.tasks[id];
    var target := t.process.target;
    var applies := call.TakesEffect() && id in s.rows;
    var ok := call.Succeeds? && id in s.rows;
    var good := target.Completed? && ok;
    var t' := t.(
      process := After(Publishing, if good then Completed else Failed, if good then t.process.result else Error),
      held := if applies then t.held + {target} else t.held);
    s.(rows := if applies then AfterUpdate(s.rows, id, target) else s.rows,
       tasks := s.tasks[id := t'])
  }

  function ApplyStage(s: State, id: JobId, stage: Stage): State
    requires id in s.tasks && s.tasks[id].process.After?
  {
    WithProcess(s, id, s.tasks[id].process.(stage := stage))
  }

  function ApplyObserve(s: State, id: JobId): State
    requires StageAt(s, id, Observing)
  {
    ApplyStage(s, id, Finished).(metrics :=
      if s.tasks[id].process.result.Success?
      then s.metrics.(observedSuccess := s.metrics.observedSuccess + 1)
      else s.metrics.(observedError := s.metrics.observedError + 1))
  }

  // CheckJobStatus

  function ReadTo(status: JobStatus, hit: bool): ReaderPC {
    if JobStatusFromString(status).Err? then Refused(JobStatusFromString(status).error)
    else if hit then Answered(status) else Holding(status)
  }

  function ApplyCacheRead(s: State, r: nat, fails: bool): State
    requires r in s.readers
  {
    var id := s.readers[r].id;
    WithReader(s, r, if !fails && Live(s.cache, id, s.now) then ReadTo(s.cache[id].status, true) else Missed)
  }

  function ApplyStoreRead(s: State, r: nat, fails: bool): State
    requires r in s.readers
  {
    var id := s.readers[r].id;
    WithReader(s, r,
      if fails then Refused(ErrInternal)
      else if id in s.rows then ReadTo(s.rows[id].status, false)
      else Refused(ErrNotFound))
  }

  function ApplyWriteBack(c: Config, s: State, r: nat, call: Call): State
    requires r in s.readers && s.readers[r].pc.Holding?
  {
    var status := s.readers[r].pc.status;
    Cached(c, WithReader(s, r, Answered(status)), s.readers[r].id, status, call)
  }

  function Apply(c: Config, s: State, a: Action): State
    requires Enabled(s, a)
  {
    match a
    case Advance(d) => s.(now := s.now + d)
    case Cleanup => s.(rows := AfterCleanup(s.rows, s.now, c.jobTTL), lastTick := s.now)
    case Drop(id) => s.(cache := s.cache - {id})
    case SubmitWithoutId => s.(metrics := s.metrics.(submittedError := s.metrics.submittedError + 1))
    case Submit(id) => s.(tasks := s.tasks[id := NewTask(s)])
    case StoreJob(id, call) => ApplyStoreJob(s, id, call)
    case CacheProcessing(id, call) => Cached(c, WithSubmit(s, id, Spawning), id, Processing, call)
    case Spawn(id) => ApplySpawn(c, s, id)
    case CountSubmission(id) => ApplyCountSubmission(s, id)
    case Start(id) =>
      WithProcess(s, id, Waiting).(metrics := s.metrics.(inProgress := s.metrics.inProgress + 1))
    case Receive(id, out) => ApplyReceive(s, id, out)
    case Save(id, call) => ApplySave(s, id, call)
    case Update(id, call) => ApplyUpdate(s, id, call)
    case CacheFinal(id, call) =>
      Cached(c, ApplyStage(s, id, Leaving), id, s.tasks[id].process.final, call)
    case Leave(id) =>
      ApplyStage(s, id, Observing).(metrics := s.metrics.(inProgress := s.metrics.inProgress - 1))
    case Observe(id) => ApplyObserve(s, id)
    case Begin(r, id) => s.(readers := s.readers[r := Reader(id, s.now, Beginning)])
    case CacheRead(r, fails) => ApplyCacheRead(s, r, fails)
    case StoreRead(r, fails) => ApplyStoreRead(s, r, fails)
    case WriteBack(r, call) => ApplyWriteBack(c, s, r, call)
  }

  // ----- runs -----

  predicate StepAt(c: Config, ss: seq<State>, acts: seq<Action>, k: nat)
    requires |ss| == |acts| + 1 && k < |acts|
  {
    Enabled(ss[k], acts[k]) && ss[k + 1] == Apply(c, ss[k], acts[k])
  }

  /** `ss` lists the states passed through by the steps `acts`. */
  ghost predicate IsPath(c: Config, ss: seq<State>, acts: seq<Action>) {
    && |ss| == |acts| + 1
    && forall k :: 0 <= k < |acts| ==> StepAt(c, ss, acts, k)
  }

  ghost predicate IsRun(c: Config, ss: seq<State>, acts: seq<Action>) {
    IsPath(c, ss, acts) && ss[0] == INIT
  }

  /** Step `k` is a CheckJobStatus call for `id` answering `status`. */
  ghost predicate Answers(ss: seq<State>, acts: seq<Action>, k: nat, id: JobId, status: JobStatus)
    requires |ss| == |acts| + 1
  {
    && k < |acts|
    && (acts[k].CacheRead? || acts[k].WriteBack?)
    && acts[k].r in ss[k + 1].readers
    && ss[k + 1].readers[acts[k].r].id == id
    && ss[k + 1].readers[acts[k].r].pc == Answered(status)
  }
}
