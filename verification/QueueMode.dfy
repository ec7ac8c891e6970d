/**
  Queue mode: internal/service/queue_generator/generator.go over the relational store. Many
  submissions run at once, interleaved with cleanup and with whatever a worker does to its results.
 */
module QueueMode {
  import opened Domain
  import opened StatusCache
  import opened Postgres
  import Protocol

  type Call = Protocol.Call

  /** `storesInput` says whether the configured storage can keep raw archives at all. */
  datatype Config = Config(jobTTL: Time, jobStatusTTL: Time, storesInput: bool)

  datatype PC = Storing | Caching | SavingRaw | Publishing | Returned(ok: bool)
  datatype Submission = Submission(pc: PC, user: int, raw: Bytes)

  datatype State = State(
    now: Time,
    tables: Tables,
    cache: Entries,
    subs: map<JobId, Submission>,
    published: seq<JobId>)

  function Init(users: set<int>): State {
    State(0, Tables(users, map[], map[], map[]), map[], map[], [])
  }

  datatype Action =
    | Advance(duration: Time)
    | Cleanup
    | WorkerSaves(id: JobId, d: Delivery)
    | WorkerUpdates(id: JobId, status: JobStatus)
    | CacheBecomes(cache: Entries)          // status checks, and entries forgotten early
    | Submit(id: JobId, user: int, raw: Bytes)
    | StoreJob(id: JobId, call: Call)
    | CacheStatus(id: JobId, call: Call)
    | SaveRaw(id: JobId, call: Call)
    | Publish(id: JobId, sent: bool)

  predicate At(s: State, id: JobId, pc: PC) {
    id in s.subs && s.subs[id].pc == pc
  }

  predicate Enabled(s: State, a: Action) {
    match a
    case Submit(id, _, _) => id !in s.subs
    case StoreJob(id, _) => At(s, id, Storing)
    case CacheStatus(id, _) => At(s, id, Caching)
    case SaveRaw(id, _) => At(s, id, SavingRaw)
    case Publish(id, _) => At(s, id, Publishing)
    case _ => true
  }

  function Goto(s: State, id: JobId, pc: PC): State
    requires id in s.subs
  {
    s.(subs := s.subs[id := s.subs[id].(pc := pc)])
  }

  function CacheEffect(c: Config, cache: Entries, id: JobId, now: Time, write: Call): Entries {
    if write.TakesEffect() then Put(cache, id, Processing, now, c.jobStatusTTL) else cache
  }

  function ApplyStoreJob(s: State, id: JobId, call: Call): State
    requires At(s, id, Storing)
  {
    var user := s.subs[id].user;
    var ok := call.Succeeds? && InsertJobFails(s.tables, id, Processing, user).None?;
    Goto(s, id, if ok then Caching else Returned(false)).(
      tables := if call.TakesEffect() then InsertJob(s.tables, id, Processing, user, s.now) else s.tables)
  }

  function ApplySaveRaw(c: Config, s: State, id: JobId, call: Call): State
    requires At(s, id, SavingRaw)
  {
    if !c.storesInput then Goto(s, id, Returned(false)) else
    var ok := call.Succeeds? && InsertInputFails(s.tables, id).None?;
    Goto(s, id, if ok then Publishing else Returned(false)).(
      tables := if call.TakesEffect() then InsertInput(s.tables, id, s.subs[id].raw) else s.tables)
  }

  function ApplyPublish(s: State, id: JobId, sent: bool): State
    requires At(s, id, Publishing)
  {
    Goto(s, id, Returned(sent)).(published := if sent then s.published + [id] else s.published)
  }

  function Apply(c: Config, s: State, a: Action): State
    requires Enabled(s, a)
  {
    match a
    case Advance(d) => s.(now := s.now + d)
    case Cleanup => s.(tables := DeleteOld(s.tables, s.now, c.jobTTL))
    case WorkerSaves(id, d) => s.(tables := InsertArchive(s.tables, id, d))
    case WorkerUpdates(id, status) => s.(tables := UpdateJobRow(s.tables, id, status, s.now))
    case Submit(id, user, raw) => s.(subs := s.subs[id := Submission(Storing, user, raw)])
    case StoreJob(id, call) => ApplyStoreJob(s, id, call)
    case CacheBecomes(cache) => s.(cache := cache)
    case CacheStatus(id, call) =>                         // a cache failure is only logged
      Goto(s, id, SavingRaw).(cache := CacheEffect(c, s.cache, id, s.now, call))
    case SaveRaw(id, call) => ApplySaveRaw(c, s, id, call)
    case Publish(id, sent) => ApplyPublish(s, id, sent)
  }

  ghost predicate IsRun(c: Config, users: set<int>, ss: seq<State>, acts: seq<Action>) {
    && |ss| == |acts| + 1 && ss[0] == Init(users)
    && forall k :: 0 <= k < |acts| ==> StepAt(c, ss, acts, k)
  }

  predicate StepAt(c: Config, ss: seq<State>, acts: seq<Action>, k: nat)
    requires |ss| == |acts| + 1 && k < |acts|
  {
    Enabled(ss[k], acts[k]) && ss[k + 1] == Apply(c, ss[k], acts[k])
  }

  // ----- invariants -----

  function Messages(published: seq<JobId>, id: JobId): nat {
    multiset(published)[id]
  }

  predicate StoredOk(s: State, id: JobId) {
    && (id in s.tables.jobs ==> id in s.subs && !s.subs[id].pc.Storing?)
    && (id in s.tables.inputs ==> id in s.subs && (s.subs[id].pc.Publishing? || s.subs[id].pc.Returned?)
                                  && s.tables.inputs[id] == s.subs[id].raw)
    && (id in s.subs && s.subs[id].pc.Publishing? && id in s.tables.jobs ==> id in s.tables.inputs)
  }

  predicate SentOk(c: Config, s: State, id: JobId) {
    && Messages(s.published, id) == (if At(s, id, Returned(true)) then 1 else 0)
    && (id in s.subs && !c.storesInput ==> !s.subs[id].pc.Publishing? && s.subs[id].pc != Returned(true))
  }

  ghost predicate Inv(c: Config, s: State) {
    Consistent(s.tables) && forall id :: StoredOk(s, id) && SentOk(c, s, id)
  }

  lemma StepKeepsStored(c: Config, s: State, a: Action, id: JobId)
    requires StoredOk(s, id) && Consistent(s.tables) && Enabled(s, a)
    ensures StoredOk(Apply(c, s, a), id)
  {
  }

  lemma StepKeepsSent(c: Config, s: State, a: Action, id: JobId)
    requires SentOk(c, s, id) && Enabled(s, a)
    ensures SentOk(c, Apply(c, s, a), id)
  {
  }

  lemma StepKeepsConsistent(c: Config, s: State, a: Action)
    requires Consistent(s.tables) && Enabled(s, a)
    ensures Consistent(Apply(c, s, a).tables)
  {
  }

  lemma {:induction false} InvHolds(c: Config, users: set<int>, ss: seq<State>, acts: seq<Action>, k: nat)
    requires IsRun(c, users, ss, acts) && k < |ss|
    ensures Inv(c, ss[k])
  {
    if k > 0 {
      InvHolds(c, users, ss, acts, k - 1);
      assert StepAt(c, ss, acts, k - 1);
      StepKeepsConsistent(c, ss[k - 1], acts[k - 1]);
      forall id ensures StoredOk(ss[k], id) && SentOk(c, ss[k], id) {
        assert StoredOk(ss[k - 1], id) && SentOk(c, ss[k - 1], id);
        StepKeepsStored(c, ss[k - 1], acts[k - 1], id);
        StepKeepsSent(c, ss[k - 1], acts[k - 1], id);
      }
    }
  }

  // ----- published after stored -----

  /** At moment `i` the job's row and the submitted archive are both in the tables. */
  predicate BothStored(s: State, id: JobId, raw: Bytes) {
    id in s.tables.jobs && id in s.tables.inputs && s.tables.inputs[id] == raw
  }

  ghost predicate WereStored(ss: seq<State>, k: nat, id: JobId, raw: Bytes)
    requires k < |ss|
  {
    exists i :: 0 <= i <= k && BothStored(ss[i], id, raw)
  }

  predicate PastSaving(s: State, id: JobId) {
    At(s, id, Publishing) || At(s, id, Returned(true))
  }

  lemma StepToPublishing(c: Config, s: State, a: Action, id: JobId)
    requires Consistent(s.tables) && Enabled(s, a) && PastSaving(Apply(c, s, a), id) && !PastSaving(s, id)
    ensures BothStored(Apply(c, s, a), id, Apply(c, s, a).subs[id].raw)
  {
  }

  lemma StepKeepsRaw(c: Config, s: State, a: Action, id: JobId)
    requires Enabled(s, a) && id in s.subs
    ensures id in Apply(c, s, a).subs && Apply(c, s, a).subs[id].raw == s.subs[id].raw
  {
  }

  lemma {:induction false} StoredBeforePublishing(
      c: Config, users: set<int>, ss: seq<State>, acts: seq<Action>, k: nat, id: JobId)
    requires IsRun(c, users, ss, acts) && k < |ss| && PastSaving(ss[k], id)
    ensures WereStored(ss, k, id, ss[k].subs[id].raw)
  {
    if k > 0 {
      InvHolds(c, users, ss, acts, k - 1);
      assert StepAt(c, ss, acts, k - 1);
      if PastSaving(ss[k - 1], id) {
        StoredBeforePublishing(c, users, ss, acts, k - 1, id);
        StepKeepsRaw(c, ss[k - 1], acts[k - 1], id);
      } else {
        StepToPublishing(c, ss[k - 1], acts[k - 1], id);
      }
    }
  }

  /**
    A message is only ever sent for a job whose row and whole submitted archive had both been in
    the tables before; and at the moment of sending, either they still are, or cleanup has
    removed the row and its archive with it.
   */
  lemma PublishedAfterStored(c: Config, users: set<int>, ss: seq<State>, acts: seq<Action>, k: nat, id: JobId)
    requires IsRun(c, users, ss, acts) && k < |acts| && acts[k] == Publish(id, true)
    ensures id in ss[k].subs && WereStored(ss, k, id, ss[k].subs[id].raw)
    ensures if id in ss[k].tables.jobs then BothStored(ss[k], id, ss[k].subs[id].raw) else id !in ss[k].tables.inputs
  {
    InvHolds(c, users, ss, acts, k);
    assert StepAt(c, ss, acts, k) && StoredOk(ss[k], id);
    StoredBeforePublishing(c, users, ss, acts, k, id);
  }

  /** BulkGenerate returns an id exactly when one message for it has been sent; otherwise none has. */
  lemma ReturnedIffPublished(c: Config, users: set<int>, ss: seq<State>, acts: seq<Action>, k: nat, id: JobId)
    requires IsRun(c, users, ss, acts) && k < |ss|
    ensures At(ss[k], id, Returned(true)) <==> id in ss[k].published
    ensures Messages(ss[k].published, id) <= 1
    ensures !c.storesInput ==> id !in ss[k].published
  {
    InvHolds(c, users, ss, acts, k);
    assert SentOk(c, ss[k], id);
    assert id in ss[k].published <==> id in multiset(ss[k].published);
  }

  /** Archives and input archives refer to existing jobs at every moment, cascading cleanup included. */
  lemma AlwaysConsistent(c: Config, users: set<int>, ss: seq<State>, acts: seq<Action>, k: nat)
    requires IsRun(c, users, ss, acts) && k < |ss|
    ensures ss[k].tables.archives.Keys <= ss[k].tables.jobs.Keys
    ensures ss[k].tables.inputs.Keys <= ss[k].tables.jobs.Keys
  {
    InvHolds(c, users, ss, acts, k);
  }

  // ----- the service's own code -----

  datatype Outcome = Outcome(tables: Tables, cache: Entries, published: seq<JobId>, answer: Result<JobId>)

  /** A store call that did not succeed has failed on its own account or on the store's. */
  function Failure(call: Call, f: Option<PgFailure>): Option<AppError> {
    if !call.Succeeds? then Some(ErrInternal) else if f.Some? then Some(NewDomainErrFromPgx(f.value)) else None
  }

  /** What one submission does when nothing runs in between. */
  function SubmissionEffect(
      c: Config, t: Tables, cache: Entries, published: seq<JobId>, id: JobId, user: int, raw: Bytes, now: Time,
      store: Call, write: Call, save: Call, sent: bool): Outcome
  {
    var t1 := if store.TakesEffect() then InsertJob(t, id, Processing, user, now) else t;
    var unstored := Failure(store, InsertJobFails(t, id, Processing, user));
    if unstored.Some? then Outcome(t1, cache, published, Err(unstored.value))
    else PublishingEffect(c, t1, CacheEffect(c, cache, id, now, write), published, id, raw, save, sent)
  }

  /** The part after the cache write. */
  function PublishingEffect(
      c: Config, t: Tables, cache: Entries, published: seq<JobId>, id: JobId, raw: Bytes, save: Call, sent: bool): Outcome
  {
    if !c.storesInput then Outcome(t, cache, published, Err(ErrStorageBadRequest)) else
    var t' := if save.TakesEffect() then InsertInput(t, id, raw) else t;
    if Failure(save, InsertInputFails(t, id)).Some? then Outcome(t', cache, published, Err(ErrStorageBadRequest))
    else if sent then Outcome(t', cache, published + [id], Ok(id))
    else Outcome(t', cache, published, Err(ErrInternal))
  }

  /** The submission counter, by result. */
  datatype Counts = Counts(ok: nat, error: nat)

  class QueueGenerator {
    const storage: StorageGenerator
    const cacher: RedisCacher
    const storesInput: bool
    var queue: seq<JobId>
    var submitted: Counts

    constructor (s: StorageGenerator, r: RedisCacher, stores: bool)
      ensures storage == s && cacher == r && storesInput == stores && queue == [] && submitted == Counts(0, 0)
    {
      storage := s;
      cacher := r;
      storesInput := stores;
      queue := [];
      submitted := Counts(0, 0);
    }

    function Configured(): Config {
      Config(storage.jobTTL, cacher.jobStatusTTL, storesInput)
    }

    /** The submission proper; BulkGenerate adds the id and the deferred counting. */
    method StoreAndPublish(id: JobId, user: int, raw: Bytes, now: Time, store: Call, write: Call, save: Call, sent: bool)
        returns (r: Result<JobId>)
      modifies this`queue, storage`tables, cacher`entries
      ensures Outcome(storage.tables, cacher.entries, queue, r)
           == SubmissionEffect(Configured(), old(storage.tables), old(cacher.entries), old(queue), id, user, raw, now,
                               store, write, save, sent)
    {
      var stored := Err(ErrInternal);
      if store.TakesEffect() {
        var answer := storage.StoreJob(Job(id, Processing), user, now);
        if store.Succeeds? {
          stored := answer;
        }
      }
      if stored.Err? {
        return Err(stored.error);
      }
      if write.TakesEffect() {
        cacher.SetJobStatus(id, Processing, now);         // a cache failure is only logged
      }
      if !storesInput {
        return Err(ErrStorageBadRequest);
      }
      var saved := Err(ErrInternal);
      if save.TakesEffect() {
        var answer := storage.SaveRawArchive(id, raw);
        if save.Succeeds? {
          saved := answer;
        }
      }
      if saved.Err? {
        return Err(ErrStorageBadRequest);
      }
      if !sent {
        return Err(ErrInternal);
      }
      queue := queue + [id];
      return Ok(id);
    }

    /** `uuid` is None when no id could be generated. */
    method BulkGenerate(
        uuid: Option<JobId>, user: int, raw: Bytes, now: Time, store: Call, write: Call, save: Call, sent: bool)
        returns (r: Result<JobId>)
      modifies this`queue, this`submitted, storage`tables, cacher`entries
      ensures uuid.None? ==>
                && r == Err(ErrInternal) && queue == old(queue)
                && storage.tables == old(storage.tables) && cacher.entries == old(cacher.entries)
      ensures uuid.Some? ==>
                Outcome(storage.tables, cacher.entries, queue, r)
                == SubmissionEffect(Configured(), old(storage.tables), old(cacher.entries), old(queue), uuid.value, user, raw,
                                    now, store, write, save, sent)
      ensures r.Ok? <==>
                && uuid.Some? && store.Succeeds? && save.Succeeds? && sent && storesInput
                && uuid.value !in old(storage.tables).jobs && uuid.value !in old(storage.tables).inputs
                && user in old(storage.tables).users
      ensures r.Ok? ==>
                && uuid == Some(r.value) && queue == old(queue) + [r.value]
                && r.value in storage.tables.jobs && storage.tables.jobs[r.value] == JobRow(Processing, user, now, now)
                && r.value in storage.tables.inputs && storage.tables.inputs[r.value] == raw
      ensures r.Err? ==> queue == old(queue)
      ensures uuid.Some? && !store.Succeeds? ==> r == Err(ErrInternal)
      ensures uuid.Some? && store.Succeeds? ==>
                if uuid.value in old(storage.tables).jobs then r == Err(ErrConflict)
                else if user !in old(storage.tables).users then r == Err(ErrBadRequest)
                else if !storesInput || !save.Succeeds? || uuid.value in old(storage.tables).inputs
                then r == Err(ErrStorageBadRequest)
                else !sent ==> r == Err(ErrInternal)
      ensures cacher.entries
           == if uuid.Some? && store.Succeeds? && write.TakesEffect()
                 && uuid.value !in old(storage.tables).jobs && user in old(storage.tables).users
              then old(cacher.entries)[uuid.value := Entry(Processing, now + cacher.jobStatusTTL)]
              else old(cacher.entries)
      ensures submitted == if r.Ok? then old(submitted).(ok := old(submitted).ok + 1)
                                    else old(submitted).(error := old(submitted).error + 1)
    {
      r := Err(ErrInternal);
      if uuid.Some? {
        r := StoreAndPublish(uuid.value, user, raw, now, store, write, save, sent);
      }
      if r.Ok? {
        submitted := submitted.(ok := submitted.ok + 1);
      } else {
        submitted := submitted.(error := submitted.error + 1);
      }
    }
  }

  function StoreAlone(c: Config, s: State, id: JobId, user: int, raw: Bytes, store: Call): (s': State)
    requires id !in s.subs
    ensures s'.cache == s.cache && s'.published == s.published && s'.now == s.now
    ensures s'.tables == if store.TakesEffect() then InsertJob(s.tables, id, Processing, user, s.now) else s.tables
    ensures id in s'.subs && s'.subs[id].raw == raw
    ensures s'.subs[id].pc
         == if Failure(store, InsertJobFails(s.tables, id, Processing, user)).Some? then Returned(false) else Caching
  {
    Apply(c, Apply(c, s, Submit(id, user, raw)), StoreJob(id, store))
  }

  function PublishAlone(c: Config, s: State, id: JobId, save: Call, sent: bool): State
    requires At(s, id, SavingRaw)
  {
    var s' := Apply(c, s, SaveRaw(id, save));
    if s'.subs[id].pc.Returned? then s' else Apply(c, s', Publish(id, sent))
  }

  lemma PublishIsUninterrupted(c: Config, s: State, id: JobId, save: Call, sent: bool)
    requires At(s, id, SavingRaw)
    ensures var s' := PublishAlone(c, s, id, save, sent);
            var e := PublishingEffect(c, s.tables, s.cache, s.published, id, s.subs[id].raw, save, sent);
            && e.tables == s'.tables && e.cache == s'.cache && e.published == s'.published
            && At(s', id, Returned(e.answer.Ok?))
  {
  }

  function SubmitAlone(
      c: Config, s: State, id: JobId, user: int, raw: Bytes, store: Call, write: Call, save: Call, sent: bool): State
    requires id !in s.subs
  {
    var s1 := StoreAlone(c, s, id, user, raw, store);
    if s1.subs[id].pc.Returned? then s1 else
    PublishAlone(c, Apply(c, s1, CacheStatus(id, write)), id, save, sent)
  }

  /** The effect of the sequential code is that of the transition system run without interruption. */
  lemma SubmissionIsUninterrupted(
      c: Config, s: State, id: JobId, user: int, raw: Bytes, store: Call, write: Call, save: Call, sent: bool)
    requires id !in s.subs
    ensures var s' := SubmitAlone(c, s, id, user, raw, store, write, save, sent);
            var e := SubmissionEffect(c, s.tables, s.cache, s.published, id, user, raw, s.now, store, write, save, sent);
            && e.tables == s'.tables && e.cache == s'.cache && e.published == s'.published
            && At(s', id, Returned(e.answer.Ok?)) && (e.answer.Ok? ==> e.answer == Ok(id))
  {
    var s1 := StoreAlone(c, s, id, user, raw, store);
    if s1.subs[id].pc.Caching? {
      PublishIsUninterrupted(c, Apply(c, s1, CacheStatus(id, write)), id, save, sent);
    }
  }
}
