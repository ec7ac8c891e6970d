/**
  The gRPC-mode service as the sequential code it is: internal/service/grpc_generator/generator.go.
  Each method that changes state is proved against an effect function, and each effect function is
  shown to be what module Protocol does when it runs the same calls without interruption, so the
  interleaving theorems are about this code. How each fallible call ends is a parameter.
 */
module GrpcGenerator {
  import opened Domain
  import opened StatusCache
  import opened StorageInMemory
  import opened Protocol
  import opened ProtocolSafety

  // ----- the protocol's steps, run without interruption -----

  function CheckAlone(c: Config, s: State, r: nat, getFails: bool, readFails: bool, write: Call): State
    requires r in s.readers && s.readers[r].pc.Beginning?
  {
    var s1 := Apply(c, s, CacheRead(r, getFails));
    if s1.readers[r].pc.Missed? then MissAlone(c, s1, r, readFails, write) else s1
  }

  function MissAlone(c: Config, s: State, r: nat, readFails: bool, write: Call): State
    requires r in s.readers && s.readers[r].pc.Missed?
  {
    var s1 := Apply(c, s, StoreRead(r, readFails));
    if s1.readers[r].pc.Holding? then Apply(c, s1, WriteBack(r, write)) else s1
  }

  /** ProcessJob up to and including its UpdateJob. */
  function DecideAlone(c: Config, s: State, id: JobId, d: Delivery, save: Call, update: Call): State
    requires Enabled(s, Receive(id, d))
  {
    var s1 := Apply(c, s, Receive(id, d));
    var s2 := Apply(c, s1, Save(id, save));
    Apply(c, s2, Update(id, update))
  }

  /** The rest of ProcessJob. */
  function CloseAlone(c: Config, s: State, id: JobId, write: Call): State
    requires StageAt(s, id, Publishing)
  {
    var s1 := Apply(c, s, CacheFinal(id, write));
    var s2 := Apply(c, s1, Leave(id));
    Apply(c, s2, Observe(id))
  }

  function StoreAlone(c: Config, s: State, id: JobId, store: Call): (s': State)
    requires id !in s.tasks
    ensures s'.cache == s.cache && s'.readers == s.readers && s'.metrics == s.metrics && s'.now == s.now
    ensures s'.rows == if store.TakesEffect() then AfterStore(s.rows, id, Processing, s.now) else s.rows
    ensures id in s'.tasks && s'.tasks[id].process.NotSpawned?
    ensures s'.tasks[id].submit == if store.Succeeds? && id !in s.rows then Caching else Counting(false)
  {
    Apply(c, Apply(c, s, Action.Submit(id)), StoreJob(id, store))
  }

  /** From the stored row to the counted submission. */
  function SpawnAlone(c: Config, s: State, id: JobId, write: Call): (s': State)
    requires SubmitAt(s, id, Caching)
    ensures s'.rows == s.rows && s'.readers == s.readers
    ensures s'.cache == if write.TakesEffect() then Put(s.cache, id, Processing, s.now, c.jobStatusTTL) else s.cache
    ensures SubmitAt(s', id, Returned(true)) && s'.tasks[id].process.Spawned?
    ensures s'.metrics == s.metrics.(submittedOk := s.metrics.submittedOk + 1)
  {
    Apply(c, Apply(c, Apply(c, s, CacheProcessing(id, write)), Spawn(id)), CountSubmission(id))
  }

  function SubmitAlone(c: Config, s: State, id: JobId, store: Call, write: Call): State
    requires id !in s.tasks
  {
    var s1 := StoreAlone(c, s, id, store);
    if s1.tasks[id].submit.Counting? then Apply(c, s1, CountSubmission(id)) else SpawnAlone(c, s1, id, write)
  }

  // ----- the effect of each operation on rows and cache -----

  function CacheEffect(cache: Entries, id: JobId, status: JobStatus, now: Time, ttl: Time, call: Call): Entries {
    if call.TakesEffect() then Put(cache, id, status, now, ttl) else cache
  }

  datatype Effect<T> = Effect(rows: Rows, cache: Entries, value: T)

  function SubmitEffect(rows: Rows, cache: Entries, id: JobId, now: Time, ttl: Time, store: Call, write: Call)
      : Effect<Result<JobId>>
  {
    var rows' := if store.TakesEffect() then AfterStore(rows, id, Processing, now) else rows;
    if !store.Succeeds? then Effect(rows', cache, Err(ErrInternal))
    else if id in rows then Effect(rows', cache, Err(ErrConflict))
    else Effect(rows', CacheEffect(cache, id, Processing, now, ttl, write), Ok(id))
  }

  /** The status that ends up announced, and the label of the observation. */
  function Verdict(present: bool, d: Delivery, save: Call, update: Call): Label {
    if d.err.None? && save.Succeeds? && update.Succeeds? && present then Success else Error
  }

  function FinaliseEffect(
      rows: Rows, cache: Entries, id: JobId, d: Delivery, now: Time, ttl: Time, save: Call, update: Call, write: Call)
      : Effect<Label>
  {
    var result := Verdict(id in rows, d, save, update);
    var rows1 := if save.TakesEffect() then AfterSave(rows, id, d) else rows;
    var target := if d.err.None? && save.Succeeds? && id in rows then Completed else Failed;
    var rows2 := if update.TakesEffect() then AfterUpdate(rows1, id, target) else rows1;
    Effect(rows2, CacheEffect(cache, id, if result.Success? then Completed else Failed, now, ttl, write), result)
  }

  function CheckEffect(
      rows: Rows, cache: Entries, id: JobId, now: Time, ttl: Time, getFails: bool, readFails: bool, write: Call)
      : Effect<Result<JobStatus>>
  {
    if !getFails && Live(cache, id, now) then
      Effect(rows, cache, if cache[id].status.Other? then Err(ErrInternal) else Ok(cache[id].status))
    else if readFails then Effect(rows, cache, Err(ErrInternal))
    else if id !in rows then Effect(rows, cache, Err(ErrNotFound))
    else if rows[id].status.Other? then Effect(rows, cache, Err(ErrInternal))
    else Effect(rows, CacheEffect(cache, id, rows[id].status, now, ttl, write), Ok(rows[id].status))
  }

  lemma SubmitIsUninterrupted(c: Config, s: State, id: JobId, store: Call, write: Call)
    requires id !in s.tasks
    ensures var e := SubmitEffect(s.rows, s.cache, id, s.now, c.jobStatusTTL, store, write);
            var s' := SubmitAlone(c, s, id, store, write);
            s'.rows == e.rows && s'.cache == e.cache && s'.tasks[id].submit == Returned(e.value.Ok?)
            && (e.value.Ok? <==> s'.tasks[id].process.Spawned?) && (e.value.Ok? ==> e.value == Ok(id))
  {
  }

  /**
    The id returned is the one to ask for: in every reachable state, a status check of it made
    next, however late and whatever its cache calls do, answers processing if its store read works.
   */
  lemma SubmittedIsProcessing(
      c: Config, s: State, id: JobId, store: Call, write: Call, d: Time, r: nat, getFails: bool, refill: Call)
    requires Inv(s) && id !in s.tasks && r !in s.readers
    ensures var answer := SubmitEffect(s.rows, s.cache, id, s.now, c.jobStatusTTL, store, write).value;
            answer.Ok? ==>
              var s1 := Apply(c, SubmitAlone(c, s, id, store, write), Advance(d));
              r !in s1.readers
              && var s2 := CheckAlone(c, Apply(c, s1, Begin(r, answer.value)), r, getFails, false, refill);
              r in s2.readers && s2.readers[r].pc == Answered(Processing)
  {
    assert JobOk(s, id);
    SubmitIsUninterrupted(c, s, id, store, write);
    SubmitKeepsReaders(c, s, id, store, write);
    var s1 := Apply(c, SubmitAlone(c, s, id, store, write), Advance(d));
    CheckIsUninterrupted(c, Apply(c, s1, Begin(r, id)), r, getFails, false, refill);
  }

  lemma SubmitKeepsReaders(c: Config, s: State, id: JobId, store: Call, write: Call)
    requires id !in s.tasks
    ensures SubmitAlone(c, s, id, store, write).readers == s.readers
  {
  }

  /** The deferred metrics of BulkGenerate. */
  function Counted(m: Metrics, ok: bool): Metrics {
    if ok then m.(submittedOk := m.submittedOk + 1) else m.(submittedError := m.submittedError + 1)
  }

  lemma SubmitCounts(c: Config, s: State, id: JobId, store: Call, write: Call)
    requires id !in s.tasks
    ensures SubmitAlone(c, s, id, store, write).metrics == Counted(s.metrics, store.Succeeds? && id !in s.rows)
    ensures Apply(c, s, SubmitWithoutId) == s.(metrics := Counted(s.metrics, false))
  {
  }

  /** The deferred metrics of ProcessJob. */
  function Closed(m: Metrics, result: Label): Metrics {
    m.(inProgress := m.inProgress - 1,
       observedSuccess := m.observedSuccess + if result.Success? then 1 else 0,
       observedError := m.observedError + if result.Error? then 1 else 0)
  }

  lemma DecideAloneEffect(c: Config, s: State, id: JobId, d: Delivery, save: Call, update: Call)
    requires Enabled(s, Receive(id, d))
    ensures var e := FinaliseEffect(s.rows, s.cache, id, d, s.now, c.jobStatusTTL, save, update, Fails);
            var s' := DecideAlone(c, s, id, d, save, update);
            && s'.rows == e.rows && s'.cache == s.cache && s'.metrics == s.metrics && s'.now == s.now && StageAt(s', id, Publishing)
            && s'.tasks[id].process == After(Publishing, if e.value.Success? then Completed else Failed, e.value)
  {
  }

  lemma CloseAloneEffect(c: Config, s: State, id: JobId, write: Call)
    requires StageAt(s, id, Publishing)
    ensures var s' := CloseAlone(c, s, id, write);
            && s'.rows == s.rows
            && s'.cache == CacheEffect(s.cache, id, s.tasks[id].process.final, s.now, c.jobStatusTTL, write)
            && s'.metrics == Closed(s.metrics, s.tasks[id].process.result)
            && id in s'.tasks && s'.tasks[id].process == s.tasks[id].process.(stage := Finished)
  {
  }

  lemma FinaliseIsUninterrupted(
      c: Config, s: State, id: JobId, d: Delivery, save: Call, update: Call, write: Call)
    requires Enabled(s, Receive(id, d))
    ensures var e := FinaliseEffect(s.rows, s.cache, id, d, s.now, c.jobStatusTTL, save, update, write);
            var s1 := DecideAlone(c, s, id, d, save, update);
            StageAt(s1, id, Publishing)
            && var s' := CloseAlone(c, s1, id, write);
            s'.rows == e.rows && s'.cache == e.cache && s'.metrics == Closed(s.metrics, e.value)
            && id in s'.tasks && s'.tasks[id].process.After? && s'.tasks[id].process.result == e.value
  {
    DecideAloneEffect(c, s, id, d, save, update);
    CloseAloneEffect(c, DecideAlone(c, s, id, d, save, update), id, write);
  }

  lemma MissIsUninterrupted(c: Config, s: State, r: nat, readFails: bool, write: Call)
    requires r in s.readers && s.readers[r].pc.Missed?
    ensures var id := s.readers[r].id;
            var e := CheckEffect(s.rows, s.cache, id, s.now, c.jobStatusTTL, true, readFails, write);
            var s' := MissAlone(c, s, r, readFails, write);
            s'.rows == e.rows && s'.cache == e.cache && r in s'.readers
            && s'.readers[r].pc == if e.value.Ok? then Answered(e.value.value) else Refused(e.value.error)
  {
  }

  lemma CheckIsUninterrupted(c: Config, s: State, r: nat, getFails: bool, readFails: bool, write: Call)
    requires r in s.readers && s.readers[r].pc.Beginning?
    ensures var id := s.readers[r].id;
            var e := CheckEffect(s.rows, s.cache, id, s.now, c.jobStatusTTL, getFails, readFails, write);
            var s' := CheckAlone(c, s, r, getFails, readFails, write);
            s'.rows == e.rows && s'.cache == e.cache && r in s'.readers
            && s'.readers[r].pc == if e.value.Ok? then Answered(e.value.value) else Refused(e.value.error)
  {
    var s1 := Apply(c, s, CacheRead(r, getFails));
    if s1.readers[r].pc.Missed? {
      MissIsUninterrupted(c, s1, r, readFails, write);
    }
  }

  // ----- the service -----

  class Generator {
    const storage: MemoryStorage
    const cacher: RedisCacher
    const jobMaxDuration: Time
    var metrics: Metrics

    constructor (s: MemoryStorage, c: RedisCacher, d: Time)
      ensures storage == s && cacher == c && jobMaxDuration == d && metrics == Metrics(0, 0, 0, 0, 0)
    {
      storage := s;
      cacher := c;
      jobMaxDuration := d;
      metrics := Metrics(0, 0, 0, 0, 0);
    }

    method SetStatus(id: JobId, status: JobStatus, now: Time, call: Call) returns (failed: bool)
      modifies cacher`entries
      ensures failed == !call.Succeeds?
      ensures cacher.entries == if call.TakesEffect()
                                then Put(old(cacher.entries), id, status, now, cacher.jobStatusTTL)
                                else old(cacher.entries)
    {
      if call.TakesEffect() {
        cacher.SetJobStatus(id, status, now);
      }
      failed := !call.Succeeds?;
    }

    method Save(job: Job, d: Delivery, call: Call) returns (r: Result<()>)
      modifies storage`data
      ensures r.Ok? <==> call.Succeeds? && job.id in old(storage.data)
      ensures storage.data == if call.TakesEffect() then AfterSave(old(storage.data), job.id, d) else old(storage.data)
    {
      r := Err(ErrInternal);
      if call.TakesEffect() {
        var saved := storage.SaveResponse(job, d.response, d.err);
        if call.Succeeds? {
          r := saved;
        }
      }
    }

    method Update(job: Job, call: Call) returns (r: Result<()>)
      modifies storage`data
      ensures r.Ok? <==> call.Succeeds? && job.id in old(storage.data)
      ensures storage.data
           == if call.TakesEffect() then AfterUpdate(old(storage.data), job.id, job.status) else old(storage.data)
    {
      r := Err(ErrInternal);
      if call.TakesEffect() {
        var updated := storage.UpdateJob(job);
        if call.Succeeds? {
          r := updated;
        }
      }
    }

    /**
      Stores, caches and dispatches a job. `uuid` is None when no id could be generated; `spawned`
      says whether ProcessJob was started.
     */
    method BulkGenerate(uuid: Option<JobId>, now: Time, store: Call, write: Call)
        returns (r: Result<JobId>, spawned: bool)
      modifies this`metrics, storage`data, cacher`entries
      ensures uuid.None? ==>
                r == Err(ErrInternal) && storage.data == old(storage.data) && cacher.entries == old(cacher.entries)
      ensures uuid.Some? ==>
                Effect(storage.data, cacher.entries, r)
                == SubmitEffect(old(storage.data), old(cacher.entries), uuid.value, now, cacher.jobStatusTTL, store, write)
      ensures spawned == r.Ok?
      ensures metrics == Counted(old(metrics), r.Ok?)
      ensures r.Ok? <==> uuid.Some? && store.Succeeds? && uuid.value !in old(storage.data)
      ensures r.Ok? ==>
                && uuid == Some(r.value) && r.value !in old(storage.data)
                && storage.data == old(storage.data)[r.value := JobData(Processing, None, [], 0, now, None)]
      ensures uuid.Some? && store.Succeeds? && uuid.value in old(storage.data) ==>
                r == Err(ErrConflict) && storage.data == old(storage.data)
      ensures !store.Succeeds? ==> r == Err(ErrInternal)
      ensures cacher.entries
           == if r.Ok? && write.TakesEffect()
              then old(cacher.entries)[r.value := Entry(Processing, now + cacher.jobStatusTTL)]
              else old(cacher.entries)
    {
      if uuid.None? {
        metrics := metrics.(submittedError := metrics.submittedError + 1);
        return Err(ErrInternal), false;
      }
      var id := uuid.value;
      var job := Job(id, Processing);
      spawned := false;
      var stored := Err(ErrInternal);
      if store.TakesEffect() {
        var answer := storage.StoreJob(job, now);
        if store.Succeeds? {
          stored := answer;
        }
      }
      if stored.Err? {
        metrics := metrics.(submittedError := metrics.submittedError + 1);
        return Err(stored.error), false;
      }
      var _ := SetStatus(id, job.status, now, write);   // a cache failure is only logged
      spawned := true;
      metrics := metrics.(submittedOk := metrics.submittedOk + 1);
      return Ok(id), spawned;
    }

    /** ProcessJob from the receipt of the pair to its deferred metrics. */
    method Finalise(id: JobId, d: Delivery, now: Time, save: Call, update: Call, write: Call) returns (result: Label)
      modifies this`metrics, storage`data, cacher`entries
      ensures Effect(storage.data, cacher.entries, result)
           == FinaliseEffect(old(storage.data), old(cacher.entries), id, d, now, cacher.jobStatusTTL, save, update, write)
      ensures metrics == Closed(old(metrics), result)
    {
      result := Success;
      var failedJob := Job(id, Failed);
      var completedJob := Job(id, Completed);
      var final := Completed;

      if d.err.Some? {
        result := Error;
        var _ := Save(failedJob, d, save);
        var _ := Update(failedJob, update);
        final := Failed;
      } else {
        var saved := Save(completedJob, d, save);
        if saved.Err? {
          result := Error;
          var _ := Update(failedJob, update);
          final := Failed;
        } else {
          var updated := Update(completedJob, update);
          if updated.Err? {
            result := Error;
            final := Failed;
          }
        }
      }
      var _ := SetStatus(id, final, now, write);

      metrics := metrics.(inProgress := metrics.inProgress - 1);
      if result.Success? {
        metrics := metrics.(observedSuccess := metrics.observedSuccess + 1);
      } else {
        metrics := metrics.(observedError := metrics.observedError + 1);
      }
    }

    method CheckJobStatus(id: JobId, now: Time, getFails: bool, readFails: bool, write: Call)
        returns (answer: Result<JobStatus>)
      modifies cacher`entries
      ensures Effect(storage.data, cacher.entries, answer)
           == CheckEffect(storage.data, old(cacher.entries), id, now, cacher.jobStatusTTL, getFails, readFails, write)
      ensures var hit := !getFails && Live(old(cacher.entries), id, now);
              && (answer == Err(ErrNotFound) <==> !hit && !readFails && id !in storage.data)
              && (answer == Err(ErrInternal) <==>
                    if hit then old(cacher.entries)[id].status.Other?
                    else readFails || (id in storage.data && storage.data[id].status.Other?))
              && (answer.Err? ==> answer.error == ErrNotFound || answer.error == ErrInternal)
              && (answer.Ok? ==>
                    answer.value == if hit then old(cacher.entries)[id].status else storage.data[id].status)
              && (hit || answer.Err? || !write.TakesEffect() ==> cacher.entries == old(cacher.entries))
              && (!hit && answer.Ok? && write.TakesEffect() ==>
                    cacher.entries == old(cacher.entries)[id := Entry(answer.value, now + cacher.jobStatusTTL)])
    {
      var hit := None;
      if !getFails {
        hit := cacher.GetJobStatus(id, now);
      }
      var status := Other("");
      if hit.Some? {
        status := hit.value;
      } else {
        if readFails {
          return Err(ErrInternal);
        }
        var row := storage.CheckJobStatus(id);
        if row.Err? {
          return Err(row.error);
        }
        status := row.value;
      }
      var jobStatus := JobStatusFromString(status);
      if jobStatus.Err? {
        return Err(jobStatus.error);
      }
      if hit.None? {
        var _ := SetStatus(id, jobStatus.value, now, write);
      }
      return Ok(jobStatus.value);
    }

    method GetArchive(id: JobId) returns (r: Result<Option<Bytes>>)
      ensures r == ArchiveAnswer(ArchiveOf(storage.data, id))
    {
      var row := storage.GetArchive(id);
      if row.Err? {
        return Err(row.error);
      }
      var status := JobStatusFromString(row.value.status);
      if status.Err? {
        return Err(status.error);
      }
      if status.value != Completed {
        if row.value.fatalGenErr != "" {
          return Err(ErrInternal);
        }
        return Err(ErrJobNotFinished);
      }
      if row.value.archive.None? {
        return Err(ErrNotFound);
      }
      return Ok(row.value.archive);
    }

    method GetArchiveInfo(id: JobId) returns (r: Result<(seq<FilesErrors>, int)>)
      ensures r == InfoAnswer(InfoOf(storage.data, id))
    {
      var info := storage.GetArchiveInfo(id);
      if info.Err? {
        return Err(info.error);
      }
      var status := JobStatusFromString(info.value.status);
      if status.Err? {
        return Err(status.error);
      }
      if status.value != Completed {
        if info.value.fatalGenErr != "" {
          return Err(ErrInternal);
        }
        return Err(ErrJobNotFinished);
      }
      return Ok((info.value.errors, info.value.count));
    }
  }
}
