/**
  Safety of the job lifecycle over every interleaving, with every storage and cache call free to
  fail, with or without effect.
 */
module ProtocolSafety {
  import opened Domain
  import opened StorageInMemory
  import opened Protocol

  // ----- the inductive invariant -----

  predicate SpawnedSubmit(pc: Submit) {
    pc == Counting(true) || pc == Returned(true)
  }

  predicate Decided(t: Task, status: JobStatus, result: Label) {
    || (status.Completed? && result.Success? && t.out.Some? && t.out.value.err.None?)
    || (status.Failed? && result.Error?)
  }

  predicate TaskOk(t: Task, now: Time) {
    && (t.process.NotSpawned? <==> !SpawnedSubmit(t.submit))
    && (t.submit.Storing? ==> t.held == {})
    && (t.submit.Caching? || t.submit.Spawning? || SpawnedSubmit(t.submit) ==> Processing in t.held)
    && t.storedAt <= now
    && (t.out.Some? <==> t.process.Saving? || t.process.Updating? || t.process.After?)
    && (t.process.Saving? ==> (t.process.result.Success? <==> t.out.value.err.None?))
    && (t.process.Updating? ==> Decided(t, t.process.target, t.process.result))
    && (t.process.After? ==> Decided(t, t.process.final, t.process.result))
    && (t.process.After? && t.process.final.Completed? ==> Completed in t.held)
    && (!t.process.After? ==> t.held <= {Processing})
    && (t.held <= {Processing, Completed} || t.held <= {Processing, Failed})
    && (Completed in t.held ==> t.out.Some? && t.out.value.err.None?)
  }

  /** The status a job's row has while it exists. */
  function RowStatus(t: Task): JobStatus {
    if Completed in t.held then Completed else if Failed in t.held then Failed else Processing
  }

  /** The row carries what was delivered to this very job. */
  predicate Carries(row: JobData, out: Option<Delivery>) {
    out.Some? && row == Saved(row, out.value)
  }

  predicate RowOk(t: Task, row: JobData) {
    && Processing in t.held
    && row.createdAt == t.storedAt
    && row.status == RowStatus(t)
    && (Completed in t.held || (t.process.Updating? && t.process.target.Completed?) ==> Carries(row, t.out))
  }

  /** What may be announced: a status the row has held, or the job's own failure. */
  predicate Visible(t: Task, status: JobStatus) {
    || status in t.held
    || (status.Failed? && t.process.After? && !t.process.stage.Publishing? && t.process.final.Failed?)
  }

  predicate ReaderOk(s: State, rd: Reader) {
    && (rd.pc.Holding? ==> rd.id in s.tasks && rd.pc.status in s.tasks[rd.id].held)
    && (rd.pc.Answered? ==> rd.id in s.tasks && Visible(s.tasks[rd.id], rd.pc.status))
  }

  /** Everything about one job: its task, its row and its cache entry. */
  predicate JobOk(s: State, id: JobId) {
    && (id in s.tasks ==> TaskOk(s.tasks[id], s.now))
    && (id in s.rows ==> id in s.tasks && RowOk(s.tasks[id], s.rows[id]))
    && (id in s.cache ==> id in s.tasks && Visible(s.tasks[id], s.cache[id].status))
  }

  ghost predicate Inv(s: State) {
    && (forall id :: JobOk(s, id))
    && (forall r :: r in s.readers ==> ReaderOk(s, s.readers[r]))
  }

  /** Actions a reader performs. */
  predicate ByReader(a: Action) {
    a.Begin? || a.CacheRead? || a.StoreRead? || a.WriteBack?
  }

  lemma StepKeepsTask(c: Config, s: State, a: Action, id: JobId)
    requires JobOk(s, id) && Enabled(s, a) && id in Apply(c, s, a).tasks
    ensures TaskOk(Apply(c, s, a).tasks[id], Apply(c, s, a).now)
  {
  }

  lemma StepKeepsRow(c: Config, s: State, a: Action, id: JobId)
    requires JobOk(s, id) && Enabled(s, a) && id in Apply(c, s, a).rows
    ensures id in Apply(c, s, a).tasks && RowOk(Apply(c, s, a).tasks[id], Apply(c, s, a).rows[id])
  {
  }

  lemma StepKeepsEntry(c: Config, s: State, a: Action, id: JobId)
    requires Inv(s) && Enabled(s, a) && id in Apply(c, s, a).cache
    ensures id in Apply(c, s, a).tasks && Visible(Apply(c, s, a).tasks[id], Apply(c, s, a).cache[id].status)
  {
    assert JobOk(s, id);
  }

  /** Along a step tasks persist and nothing visible becomes invisible. */
  lemma StepKeepsVisible(c: Config, s: State, a: Action, id: JobId, status: JobStatus)
    requires Inv(s) && Enabled(s, a) && id in s.tasks
    ensures id in Apply(c, s, a).tasks
    ensures s.tasks[id].held <= Apply(c, s, a).tasks[id].held
    ensures Visible(s.tasks[id], status) ==> Visible(Apply(c, s, a).tasks[id], status)
  {
    assert JobOk(s, id);
  }

  lemma StepKeepsReader(c: Config, s: State, a: Action, r: nat)
    requires Inv(s) && Enabled(s, a) && r in Apply(c, s, a).readers
    ensures ReaderOk(Apply(c, s, a), Apply(c, s, a).readers[r])
  {
    var id := Apply(c, s, a).readers[r].id;
    assert JobOk(s, id);
    if r in s.readers {
      assert ReaderOk(s, s.readers[r]);
      if id in s.tasks && !ByReader(a) {
        StepKeepsVisible(c, s, a, id, if s.readers[r].pc.Answered? then s.readers[r].pc.status else Processing);
      }
    }
  }

  lemma StepKeepsInv(c: Config, s: State, a: Action)
    requires Inv(s) && Enabled(s, a)
    ensures Inv(Apply(c, s, a))
  {
    forall id ensures JobOk(Apply(c, s, a), id) {
      assert JobOk(s, id);
      if id in Apply(c, s, a).tasks {
        StepKeepsTask(c, s, a, id);
      }
      if id in Apply(c, s, a).rows {
        StepKeepsRow(c, s, a, id);
      }
      if id in Apply(c, s, a).cache {
        StepKeepsEntry(c, s, a, id);
      }
    }
    forall r | r in Apply(c, s, a).readers ensures ReaderOk(Apply(c, s, a), Apply(c, s, a).readers[r]) {
      StepKeepsReader(c, s, a, r);
    }
  }

  lemma {:induction false} InvHolds(c: Config, ss: seq<State>, acts: seq<Action>, k: nat)
    requires IsRun(c, ss, acts) && k < |ss|
    ensures Inv(ss[k])
  {
    if k > 0 {
      InvHolds(c, ss, acts, k - 1);
      assert StepAt(c, ss, acts, k - 1);
      StepKeepsInv(c, ss[k - 1], acts[k - 1]);
    }
  }

  // ----- terminal once -----

  lemma {:induction false} HeldGrows(c: Config, ss: seq<State>, acts: seq<Action>, i: nat, j: nat, id: JobId)
    requires IsRun(c, ss, acts) && i <= j < |ss| && id in ss[i].tasks
    ensures id in ss[j].tasks && ss[i].tasks[id].held <= ss[j].tasks[id].held
  {
    if i < j {
      HeldGrows(c, ss, acts, i, j - 1, id);
      InvHolds(c, ss, acts, j - 1);
      assert StepAt(c, ss, acts, j - 1);
      StepKeepsVisible(c, ss[j - 1], acts[j - 1], id, Processing);
    }
  }

  /**
    A stored status is processing, completed or failed; between any two moments at which the row
    exists it is the same or has gone from processing to a terminal value.
   */
  lemma TerminalOnce(c: Config, ss: seq<State>, acts: seq<Action>, i: nat, j: nat, id: JobId)
    requires IsRun(c, ss, acts) && i <= j < |ss|
    requires id in ss[i].rows && id in ss[j].rows
    ensures !ss[i].rows[id].status.Other?
    ensures ss[i].rows[id].status == ss[j].rows[id].status
         || (ss[i].rows[id].status.Processing? && ss[j].rows[id].status.Terminal())
  {
    InvHolds(c, ss, acts, i);
    InvHolds(c, ss, acts, j);
    assert JobOk(ss[i], id) && JobOk(ss[j], id);
    HeldGrows(c, ss, acts, i, j, id);
  }

  lemma StepStores(c: Config, s: State, a: Action, id: JobId)
    requires JobOk(s, id) && Enabled(s, a) && id !in s.rows && id in Apply(c, s, a).rows
    ensures a.StoreJob? && a.id == id && Apply(c, s, a).rows[id].status.Processing?
    ensures id in s.tasks && s.tasks[id].held == {}
  {
  }

  /** A row comes into being only through StoreJob, as processing, and at most once. */
  lemma BornProcessing(c: Config, ss: seq<State>, acts: seq<Action>, k: nat, id: JobId)
    requires IsRun(c, ss, acts) && k < |acts|
    requires id !in ss[k].rows && id in ss[k + 1].rows
    ensures acts[k].StoreJob? && acts[k].id == id && ss[k + 1].rows[id].status.Processing?
    ensures forall i :: 0 <= i <= k ==> id !in ss[i].rows
  {
    InvHolds(c, ss, acts, k);
    assert JobOk(ss[k], id) && StepAt(c, ss, acts, k);
    StepStores(c, ss[k], acts[k], id);
    forall i | 0 <= i <= k ensures id !in ss[i].rows {
      InvHolds(c, ss, acts, i);
      assert JobOk(ss[i], id);
      if id in ss[i].rows {
        HeldGrows(c, ss, acts, i, k, id);
      }
    }
  }

  function UpdatesIssued(acts: seq<Action>, id: JobId): nat {
    if acts == [] then 0
    else UpdatesIssued(acts[..|acts| - 1], id) + if acts[|acts| - 1].Update? && acts[|acts| - 1].id == id then 1 else 0
  }

  /** The status of an existing row changes only at the UpdateJob of its own ProcessJob, to the value written there. */
  lemma OnlyUpdateChangesStatus(c: Config, s: State, a: Action, id: JobId)
    requires Enabled(s, a) && id in s.rows && id in Apply(c, s, a).rows
    ensures Apply(c, s, a).rows[id].status != s.rows[id].status ==>
              a.Update? && a.id == id && id in s.tasks && s.tasks[id].process.Updating?
              && Apply(c, s, a).rows[id].status == s.tasks[id].process.target
  {
  }

  predicate Updated(s: State, id: JobId) {
    id in s.tasks && s.tasks[id].process.After?
  }

  lemma StepUpdates(c: Config, s: State, a: Action, id: JobId)
    requires JobOk(s, id) && Enabled(s, a)
    ensures Updated(Apply(c, s, a), id) <==> Updated(s, id) || (a.Update? && a.id == id)
    ensures a.Update? && a.id == id ==> !Updated(s, id)
  {
  }

  /**
    Every path of ProcessJob issues exactly one UpdateJob: none before its Updating point, one
    for ever after it, and nobody else issues any.
   */
  lemma {:induction false} OneUpdatePerJob(c: Config, ss: seq<State>, acts: seq<Action>, k: nat, id: JobId)
    requires IsRun(c, ss, acts) && k < |ss|
    ensures UpdatesIssued(acts[..k], id) == if Updated(ss[k], id) then 1 else 0
  {
    if k > 0 {
      OneUpdatePerJob(c, ss, acts, k - 1, id);
      assert acts[..k][..k - 1] == acts[..k - 1];
      InvHolds(c, ss, acts, k - 1);
      assert JobOk(ss[k - 1], id);
      assert StepAt(c, ss, acts, k - 1);
      StepUpdates(c, ss[k - 1], acts[k - 1], id);
    }
  }

  /** A SaveResponse of `id`'s own error-free response that returned no error. */
  predicate SavesWell(s: State, a: Action, id: JobId) {
    a == Save(id, Succeeds) && id in s.rows && id in s.tasks && s.tasks[id].process == Saving(Success)
  }

  ghost predicate SavedWell(ss: seq<State>, acts: seq<Action>, k: nat, id: JobId)
    requires |ss| == |acts| + 1 && k < |ss|
  {
    exists i :: 0 <= i < k && SavesWell(ss[i], acts[i], id)
  }

  predicate AboutToUpdate(s: State, id: JobId) {
    id in s.tasks && s.tasks[id].process.Updating?
  }

  lemma StepToUpdate(c: Config, s: State, a: Action, id: JobId)
    requires JobOk(s, id) && Enabled(s, a) && AboutToUpdate(Apply(c, s, a), id)
    ensures AboutToUpdate(s, id) ==> Apply(c, s, a).tasks[id].process == s.tasks[id].process && !SavesWell(s, a, id)
    ensures !AboutToUpdate(s, id) ==> (Apply(c, s, a).tasks[id].process.target.Completed? <==> SavesWell(s, a, id))
  {
  }

  predicate BeforeSave(s: State, id: JobId) {
    id !in s.tasks || !(s.tasks[id].process.Updating? || s.tasks[id].process.After?)
  }

  lemma StepBeforeSave(c: Config, s: State, a: Action, id: JobId)
    requires JobOk(s, id) && Enabled(s, a)
    ensures BeforeSave(Apply(c, s, a), id) ==> BeforeSave(s, id) && !SavesWell(s, a, id)
    ensures AboutToUpdate(Apply(c, s, a), id) ==> AboutToUpdate(s, id) || BeforeSave(s, id)
  {
  }

  lemma {:induction false} NothingSavedBefore(c: Config, ss: seq<State>, acts: seq<Action>, k: nat, id: JobId)
    requires IsRun(c, ss, acts) && k < |ss| && BeforeSave(ss[k], id)
    ensures !SavedWell(ss, acts, k, id)
  {
    if k > 0 {
      InvHolds(c, ss, acts, k - 1);
      assert JobOk(ss[k - 1], id) && StepAt(c, ss, acts, k - 1);
      StepBeforeSave(c, ss[k - 1], acts[k - 1], id);
      NothingSavedBefore(c, ss, acts, k - 1, id);
    }
  }

  /**
    ProcessJob is about to update its job to completed if its error-free response has been saved
    without error, and to failed otherwise.
   */
  lemma {:induction false} CompletedIffSaved(c: Config, ss: seq<State>, acts: seq<Action>, k: nat, id: JobId)
    requires IsRun(c, ss, acts) && k < |ss| && AboutToUpdate(ss[k], id)
    ensures ss[k].tasks[id].process.target == if SavedWell(ss, acts, k, id) then Completed else Failed
  {
    InvHolds(c, ss, acts, k);
    assert JobOk(ss[k], id);
    if k > 0 {
      InvHolds(c, ss, acts, k - 1);
      assert JobOk(ss[k - 1], id) && StepAt(c, ss, acts, k - 1);
      StepToUpdate(c, ss[k - 1], acts[k - 1], id);
      StepBeforeSave(c, ss[k - 1], acts[k - 1], id);
      if AboutToUpdate(ss[k - 1], id) {
        CompletedIffSaved(c, ss, acts, k - 1, id);
      } else {
        NothingSavedBefore(c, ss, acts, k - 1, id);
      }
    }
  }

  // ----- cache provenance -----

  ghost predicate RowHeld(ss: seq<State>, k: nat, id: JobId, status: JobStatus)
    requires k < |ss|
  {
    exists i :: 0 <= i <= k && id in ss[i].rows && ss[i].rows[id].status == status
  }

  /** Step `i` is the cache write of `id`'s own ProcessJob on one of its error branches. */
  predicate WritesOwnFailure(s: State, a: Action, id: JobId) {
    && a.CacheFinal? && a.id == id && a.call.TakesEffect()
    && id in s.tasks && s.tasks[id].process.After? && s.tasks[id].process.final.Failed?
  }

  ghost predicate FailureWritten(ss: seq<State>, acts: seq<Action>, k: nat, id: JobId)
    requires |ss| == |acts| + 1 && k < |ss|
  {
    exists i :: 0 <= i < k && WritesOwnFailure(ss[i], acts[i], id)
  }

  predicate Holds(s: State, id: JobId, status: JobStatus) {
    id in s.tasks && status in s.tasks[id].held
  }

  lemma StepHolds(c: Config, s: State, a: Action, id: JobId, status: JobStatus)
    requires JobOk(s, id) && Enabled(s, a) && Holds(Apply(c, s, a), id, status) && !Holds(s, id, status)
    ensures id in Apply(c, s, a).rows && Apply(c, s, a).rows[id].status == status
  {
  }

  /** `held` is exactly the history of the row. */
  lemma {:induction false} HeldIsHistory(
      c: Config, ss: seq<State>, acts: seq<Action>, k: nat, id: JobId, status: JobStatus)
    requires IsRun(c, ss, acts) && k < |ss|
    ensures Holds(ss[k], id, status) <==> RowHeld(ss, k, id, status)
  {
    if RowHeld(ss, k, id, status) {
      var i :| 0 <= i <= k && id in ss[i].rows && ss[i].rows[id].status == status;
      InvHolds(c, ss, acts, i);
      assert JobOk(ss[i], id);
      HeldGrows(c, ss, acts, i, k, id);
    }
    if Holds(ss[k], id, status) && k > 0 {
      HeldIsHistory(c, ss, acts, k - 1, id, status);
      if !Holds(ss[k - 1], id, status) {
        InvHolds(c, ss, acts, k - 1);
        assert JobOk(ss[k - 1], id);
        assert StepAt(c, ss, acts, k - 1);
        StepHolds(c, ss[k - 1], acts[k - 1], id, status);
      }
    }
  }

  predicate CachedAs(s: State, id: JobId, status: JobStatus) {
    id in s.cache && s.cache[id].status == status
  }

  lemma StepCaches(c: Config, s: State, a: Action, id: JobId, status: JobStatus)
    requires Inv(s) && Enabled(s, a) && CachedAs(Apply(c, s, a), id, status) && !CachedAs(s, id, status)
    ensures Holds(s, id, status) || (status.Failed? && WritesOwnFailure(s, a, id))
  {
    assert JobOk(s, id);
  }

  /**
    Every cached status was, at some earlier moment, the status of the job's row, or it is a
    failed that the job's own ProcessJob wrote on an error branch.
   */
  lemma {:induction false} CacheProvenance(c: Config, ss: seq<State>, acts: seq<Action>, k: nat, id: JobId)
    requires IsRun(c, ss, acts) && k < |ss| && id in ss[k].cache
    ensures RowHeld(ss, k, id, ss[k].cache[id].status)
         || (ss[k].cache[id].status.Failed? && FailureWritten(ss, acts, k, id))
  {
    var status := ss[k].cache[id].status;
    if k > 0 {
      if CachedAs(ss[k - 1], id, status) {
        CacheProvenance(c, ss, acts, k - 1, id);
      } else {
        InvHolds(c, ss, acts, k - 1);
        assert StepAt(c, ss, acts, k - 1);
        StepCaches(c, ss[k - 1], acts[k - 1], id, status);
        HeldIsHistory(c, ss, acts, k - 1, id, status);
      }
    }
  }

  /** The same for a reader about to write back: what it holds was the row's status. */
  lemma WriteBackProvenance(c: Config, ss: seq<State>, acts: seq<Action>, k: nat, r: nat)
    requires IsRun(c, ss, acts) && k < |ss|
    requires r in ss[k].readers && ss[k].readers[r].pc.Holding?
    ensures RowHeld(ss, k, ss[k].readers[r].id, ss[k].readers[r].pc.status)
  {
    InvHolds(c, ss, acts, k);
    assert ReaderOk(ss[k], ss[k].readers[r]);
    HeldIsHistory(c, ss, acts, k, ss[k].readers[r].id, ss[k].readers[r].pc.status);
  }

  // ----- announce after save -----

  /** `d` was delivered to `id` by its client goroutine before moment `k`. */
  ghost predicate Delivered(acts: seq<Action>, k: nat, id: JobId, d: Delivery)
    requires k <= |acts|
  {
    exists i :: 0 <= i < k && acts[i] == Receive(id, d)
  }

  lemma DeliveredStep(acts: seq<Action>, k: nat, id: JobId, d: Delivery)
    requires 0 < k <= |acts|
    ensures Delivered(acts, k, id, d) <==> Delivered(acts, k - 1, id, d) || acts[k - 1] == Receive(id, d)
  {
  }

  predicate Got(s: State, id: JobId, d: Delivery) {
    id in s.tasks && s.tasks[id].out == Some(d)
  }

  lemma StepDelivers(c: Config, s: State, a: Action, id: JobId, d: Delivery)
    requires JobOk(s, id) && Enabled(s, a)
    ensures Got(Apply(c, s, a), id, d) <==> Got(s, id, d) || a == Receive(id, d)
  {
  }

  /** A task's `out` is what was delivered to it, and nothing else ever was. */
  lemma {:induction false} OutIsDelivered(c: Config, ss: seq<State>, acts: seq<Action>, k: nat, id: JobId, d: Delivery)
    requires IsRun(c, ss, acts) && k < |ss|
    ensures Got(ss[k], id, d) <==> Delivered(acts, k, id, d)
  {
    if k > 0 {
      OutIsDelivered(c, ss, acts, k - 1, id, d);
      InvHolds(c, ss, acts, k - 1);
      assert JobOk(ss[k - 1], id);
      assert StepAt(c, ss, acts, k - 1);
      StepDelivers(c, ss[k - 1], acts[k - 1], id, d);
      DeliveredStep(acts, k, id, d);
    }
  }

  /** The store answers GetArchive and GetArchiveInfo for `id` from the response in `d`. */
  predicate AnswersFrom(rows: Rows, id: JobId, d: Delivery) {
    && d.err.None?
    && ArchiveAnswer(ArchiveOf(rows, id))
       == (if d.response.archive.Some? then Ok(d.response.archive) else Err(ErrNotFound))
    && InfoAnswer(InfoOf(rows, id)) == Ok((d.response.errors, d.response.genCount))
  }

  /**
    Once a status check has answered completed, something had been delivered for that job; and
    from then on, as long as cleanup has not removed the row, GetArchive and GetArchiveInfo
    answer from exactly what was delivered: never "not finished", never a generation error,
    never another job's bytes.
   */
  lemma AnnounceAfterSave(c: Config, ss: seq<State>, acts: seq<Action>, k: nat, m: nat, id: JobId)
    requires IsRun(c, ss, acts) && Answers(ss, acts, k, id, Completed) && k < m < |ss|
    ensures exists d :: Delivered(acts, k, id, d)
    ensures forall d :: id in ss[m].rows && Delivered(acts, m, id, d) ==> AnswersFrom(ss[m].rows, id, d)
  {
    var r := acts[k].r;
    InvHolds(c, ss, acts, k + 1);
    assert ReaderOk(ss[k + 1], ss[k + 1].readers[r]) && JobOk(ss[k + 1], id);
    var d := ss[k + 1].tasks[id].out.value;
    OutIsDelivered(c, ss, acts, k + 1, id, d);
    var i :| 0 <= i < k + 1 && acts[i] == Receive(id, d);
    assert i < k && Delivered(acts, k, id, d);
    HeldGrows(c, ss, acts, k + 1, m, id);
    InvHolds(c, ss, acts, m);
    assert JobOk(ss[m], id);
    forall d | id in ss[m].rows && Delivered(acts, m, id, d) ensures AnswersFrom(ss[m].rows, id, d) {
      OutIsDelivered(c, ss, acts, m, id, d);
    }
  }
}
