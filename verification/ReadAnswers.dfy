/**
  What the three reads answer when they do not answer with a result: which error, and exactly
  when, in terms of what happened in the run.
 */
module ReadAnswers {
  import opened Domain
  import opened StatusCache
  import opened StorageInMemory
  import opened Protocol
  import opened ProtocolSafety
  import opened Staleness

  // ----- GetArchive and GetArchiveInfo -----

  /** A SaveResponse of `id` that reaches the store and finds the row. */
  predicate Saves(s: State, a: Action, id: JobId) {
    a.Save? && a.id == id && a.call.TakesEffect() && id in s.rows
  }

  ghost predicate WasSaved(ss: seq<State>, acts: seq<Action>, k: nat, id: JobId)
    requires |ss| == |acts| + 1 && k < |ss|
  {
    exists i :: 0 <= i < k && Saves(ss[i], acts[i], id)
  }

  lemma WasSavedStep(ss: seq<State>, acts: seq<Action>, k: nat, id: JobId)
    requires |ss| == |acts| + 1 && 0 < k < |ss|
    ensures WasSaved(ss, acts, k, id) <==> WasSaved(ss, acts, k - 1, id) || Saves(ss[k - 1], acts[k - 1], id)
  {
  }

  /** What the row says about a failed generation. */
  predicate ErrorIs(s: State, id: JobId, saved: bool)
    requires id in s.rows
  {
    if saved then id in s.tasks && s.tasks[id].out.Some? && s.rows[id].fatalError == s.tasks[id].out.value.err
    else s.rows[id].fatalError.None?
  }

  lemma StepSavesError(c: Config, s: State, a: Action, id: JobId)
    requires JobOk(s, id) && Enabled(s, a) && Saves(s, a, id)
    ensures id in Apply(c, s, a).rows && ErrorIs(Apply(c, s, a), id, true)
  {
  }

  lemma StepKeepsRowError(c: Config, s: State, a: Action, id: JobId)
    requires Enabled(s, a) && id in s.rows && id in Apply(c, s, a).rows && !Saves(s, a, id)
    ensures Apply(c, s, a).rows[id].fatalError == s.rows[id].fatalError
  {
  }

  lemma StepKeepsError(c: Config, s: State, a: Action, id: JobId, saved: bool)
    requires JobOk(s, id) && Enabled(s, a) && id in s.rows && id in Apply(c, s, a).rows && ErrorIs(s, id, saved)
    ensures ErrorIs(Apply(c, s, a), id, saved || Saves(s, a, id))
  {
    if Saves(s, a, id) {
      StepSavesError(c, s, a, id);
    } else {
      StepKeepsRowError(c, s, a, id);
      if saved {
        StepDelivers(c, s, a, id, s.tasks[id].out.value);
      }
    }
  }

  lemma StepStoresBlank(c: Config, s: State, a: Action, id: JobId)
    requires JobOk(s, id) && Enabled(s, a) && id !in s.rows && id in Apply(c, s, a).rows
    ensures ErrorIs(Apply(c, s, a), id, false) && BeforeSave(s, id)
  {
  }

  lemma StepPastSave(c: Config, s: State, a: Action, id: JobId)
    requires JobOk(s, id) && Enabled(s, a) && (!BeforeSave(s, id) || Saves(s, a, id))
    ensures !BeforeSave(Apply(c, s, a), id)
  {
  }

  lemma {:induction false} SavedIsPastSave(c: Config, ss: seq<State>, acts: seq<Action>, k: nat, id: JobId)
    requires IsRun(c, ss, acts) && k < |ss|
    ensures WasSaved(ss, acts, k, id) ==> !BeforeSave(ss[k], id)
  {
    if k > 0 && WasSaved(ss, acts, k, id) {
      SavedIsPastSave(c, ss, acts, k - 1, id);
      InvHolds(c, ss, acts, k - 1);
      assert JobOk(ss[k - 1], id) && StepAt(c, ss, acts, k - 1);
      WasSavedStep(ss, acts, k, id);
      StepPastSave(c, ss[k - 1], acts[k - 1], id);
    }
  }

  lemma {:induction false} ErrorIsSaved(c: Config, ss: seq<State>, acts: seq<Action>, k: nat, id: JobId)
    requires IsRun(c, ss, acts) && k < |ss| && id in ss[k].rows
    ensures ErrorIs(ss[k], id, WasSaved(ss, acts, k, id))
  {
    if k > 0 {
      InvHolds(c, ss, acts, k - 1);
      assert JobOk(ss[k - 1], id) && StepAt(c, ss, acts, k - 1);
      WasSavedStep(ss, acts, k, id);
      SavedIsPastSave(c, ss, acts, k - 1, id);
      if id in ss[k - 1].rows {
        ErrorIsSaved(c, ss, acts, k - 1, id);
        StepKeepsError(c, ss[k - 1], acts[k - 1], id, WasSaved(ss, acts, k - 1, id));
      } else {
        StepStoresBlank(c, ss[k - 1], acts[k - 1], id);
      }
    }
  }

  /** The client goroutine of `id` delivers an error with this text. */
  predicate DeliversError(a: Action, id: JobId, text: string) {
    a.Receive? && a.id == id && a.out.err == Some(text)
  }

  /** An error with a text was delivered for `id`, and later saved to its row. */
  ghost predicate ErrorSaved(ss: seq<State>, acts: seq<Action>, k: nat, id: JobId)
    requires |ss| == |acts| + 1 && k < |ss|
  {
    && WasSaved(ss, acts, k, id)
    && exists i, text :: 0 <= i < k && text != "" && DeliversError(acts[i], id, text)
  }

  lemma ErrorSavedIff(c: Config, ss: seq<State>, acts: seq<Action>, k: nat, id: JobId)
    requires IsRun(c, ss, acts) && k < |ss| && id in ss[k].rows
    ensures ErrorSaved(ss, acts, k, id) <==> ss[k].rows[id].fatalError.Some? && ss[k].rows[id].fatalError.value != ""
  {
    ErrorIsSaved(c, ss, acts, k, id);
    if WasSaved(ss, acts, k, id) {
      var d := ss[k].tasks[id].out.value;
      OutIsDelivered(c, ss, acts, k, id, d);
      var i :| 0 <= i < k && acts[i] == Receive(id, d);
      assert d.err.Some? ==> DeliversError(acts[i], id, d.err.value);
      forall j, text | 0 <= j < k && DeliversError(acts[j], id, text) ensures d.err == Some(text) {
        assert Delivered(acts, k, id, acts[j].out);
        OutIsDelivered(c, ss, acts, k, id, acts[j].out);
      }
    }
  }

  /**
    In every reachable state, for every job: a completed one is served from what was delivered for
    it; one that is not completed has failed to the client if and only if a delivered error text
    was saved for it, and is not finished otherwise; one without a row is not found.
   */
  lemma ArchiveReads(c: Config, ss: seq<State>, acts: seq<Action>, k: nat, id: JobId)
    requires IsRun(c, ss, acts) && k < |ss|
    ensures var archive := ArchiveAnswer(ArchiveOf(ss[k].rows, id));
            var info := InfoAnswer(InfoOf(ss[k].rows, id));
            if id !in ss[k].rows then archive == Err(ErrNotFound) && info == Err(ErrNotFound)
            else if ss[k].rows[id].status == Completed then
              exists d :: Delivered(acts, k, id, d) && AnswersFrom(ss[k].rows, id, d)
            else if ErrorSaved(ss, acts, k, id) then archive == Err(ErrInternal) && info == Err(ErrInternal)
            else archive == Err(ErrJobNotFinished) && info == Err(ErrJobNotFinished)
  {
    InvHolds(c, ss, acts, k);
    assert JobOk(ss[k], id);
    if id in ss[k].rows {
      if ss[k].rows[id].status == Completed {
        OutIsDelivered(c, ss, acts, k, id, ss[k].tasks[id].out.value);
      } else {
        ErrorSavedIff(c, ss, acts, k, id);
      }
    }
  }

  // ----- CheckJobStatus -----

  lemma StepRefuses(c: Config, s: State, a: Action)
    requires Inv(s) && Enabled(s, a) && (a.CacheRead? || a.StoreRead? || a.WriteBack?)
    ensures var pc := Apply(c, s, a).readers[a.r].pc;
            && (pc == Refused(ErrNotFound) <==> a.StoreRead? && !a.fails && s.readers[a.r].id !in s.rows)
            && (pc == Refused(ErrInternal) <==> a.StoreRead? && a.fails)
            && (pc.Refused? ==> pc.error == ErrNotFound || pc.error == ErrInternal)
  {
    assert JobOk(s, s.readers[a.r].id);
  }

  /**
    A status check is refused with "not found" if and only if it ends at a store read that works
    and finds no row, and with an internal error if and only if it ends at a failing store read;
    nothing else is ever answered but a status.
   */
  lemma RefusedIff(c: Config, ss: seq<State>, acts: seq<Action>, b: nat, n: nat, r: nat, id: JobId)
    requires IsRun(c, ss, acts) && Finishes(ss, acts, n, r) && b < n && acts[b] == Begin(r, id)
    ensures var pc := ss[n + 1].readers[r].pc;
            && (pc == Refused(ErrNotFound) <==> acts[n].StoreRead? && !acts[n].fails && id !in ss[n].rows)
            && (pc == Refused(ErrInternal) <==> acts[n].StoreRead? && acts[n].fails)
            && (pc.Refused? ==> pc.error == ErrNotFound || pc.error == ErrInternal)
  {
    InvHolds(c, ss, acts, n);
    assert StepAt(c, ss, acts, n);
    ReaderKeepsJob(c, ss, acts, b, n, r, id);
    StepRefuses(c, ss[n], acts[n]);
  }

  /** A row that was removed never comes back. */
  lemma {:induction false} GoneForGood(c: Config, ss: seq<State>, acts: seq<Action>, i: nat, j: nat, m: nat, id: JobId)
    requires IsRun(c, ss, acts) && i < j <= m < |ss| && id in ss[i].rows && id !in ss[j].rows
    ensures id !in ss[m].rows
  {
    if j < m {
      GoneForGood(c, ss, acts, i, j, m - 1, id);
      if id in ss[m].rows {
        BornProcessing(c, ss, acts, m - 1, id);
      }
    }
  }

  /** Neither the cache nor the store has given call `r` a status. */
  predicate Unanswered(s: State, r: nat) {
    r in s.readers && (s.readers[r].pc.Beginning? || s.readers[r].pc.Missed? || s.readers[r].pc.Refused?)
  }

  predicate NothingToFind(s: State, id: JobId) {
    !Live(s.cache, id, s.now) && id !in s.rows
  }

  lemma StepFindsNothing(c: Config, s: State, a: Action, r: nat)
    requires Enabled(s, a) && Unanswered(s, r) && NothingToFind(s, s.readers[r].id)
    ensures Unanswered(Apply(c, s, a), r)
    ensures a.CacheRead? && a.r == r ==> Apply(c, s, a).readers[r].pc.Missed?
  {
  }

  lemma {:induction false} FindsNothing(
      c: Config, ss: seq<State>, acts: seq<Action>, b: nat, n: nat, r: nat, id: JobId)
    requires IsRun(c, ss, acts) && b < n < |ss| && acts[b] == Begin(r, id)
    requires forall m :: b < m < n ==> NothingToFind(ss[m], id)
    ensures Unanswered(ss[n], r)
  {
    assert StepAt(c, ss, acts, n - 1);
    if b + 1 < n {
      FindsNothing(c, ss, acts, b, n - 1, r, id);
      ReaderKeepsJob(c, ss, acts, b, n - 1, r, id);
      StepFindsNothing(c, ss[n - 1], acts[n - 1], r);
    }
  }

  lemma NeverFound(c: Config, ss: seq<State>, acts: seq<Action>, b: nat, n: nat, r: nat, id: JobId)
    requires IsRun(c, ss, acts) && Finishes(ss, acts, n, r) && b < n && acts[b] == Begin(r, id)
    requires forall m :: b < m <= n ==> NothingToFind(ss[m], id)
    ensures acts[n].StoreRead? && ss[n + 1].readers[r].pc == Refused(if acts[n].fails then ErrInternal else ErrNotFound)
  {
    FindsNothing(c, ss, acts, b, n, r, id);
    ReaderKeepsJob(c, ss, acts, b, n, r, id);
    assert StepAt(c, ss, acts, n) && NothingToFind(ss[n], id);
    StepFindsNothing(c, ss[n], acts[n], r);
  }

  /**
    A check begun after the job's row was removed, while no live entry is left, answers "not found"
    unless its store read fails.
   */
  lemma RemovedIsNotFound(
      c: Config, ss: seq<State>, acts: seq<Action>, i: nat, j: nat, b: nat, n: nat, r: nat, id: JobId)
    requires IsRun(c, ss, acts) && Finishes(ss, acts, n, r)
    requires i < j <= b < n && id in ss[i].rows && id !in ss[j].rows && acts[b] == Begin(r, id)
    requires forall m :: b < m <= n ==> !Live(ss[m].cache, id, ss[m].now)
    ensures acts[n].StoreRead? && ss[n + 1].readers[r].pc == Refused(if acts[n].fails then ErrInternal else ErrNotFound)
  {
    forall m | b < m <= n ensures NothingToFind(ss[m], id) {
      GoneForGood(c, ss, acts, i, j, m, id);
    }
    NeverFound(c, ss, acts, b, n, r, id);
  }

  // ----- when the cache has forgotten a removed job -----

  /** No call stands between a store read and its cache write for `id`. */
  ghost predicate NoHolder(s: State, id: JobId) {
    forall r :: r in s.readers && s.readers[r].id == id ==> !s.readers[r].pc.Holding?
  }

  /** The row is gone, nobody is left to cache a status, and what is cached is dead by `horizon`. */
  ghost predicate Fading(s: State, id: JobId, horizon: Time) {
    && id !in s.rows && Updated(s, id) && !StageAt(s, id, Publishing) && NoHolder(s, id)
    && (id in s.cache ==> s.cache[id].expiresAt <= horizon)
  }

  lemma StepKeepsNoHolder(c: Config, s: State, a: Action, id: JobId)
    requires Enabled(s, a) && id !in s.rows && NoHolder(s, id)
    ensures NoHolder(Apply(c, s, a), id)
  {
  }

  lemma StepKeepsFading(c: Config, s: State, a: Action, id: JobId, horizon: Time)
    requires JobOk(s, id) && Enabled(s, a) && Fading(s, id, horizon)
    ensures Fading(Apply(c, s, a), id, horizon)
  {
    StepKeepsNoHolder(c, s, a, id);
    if a.WriteBack? {
      assert s.readers[a.r].id != id;
    }
  }

  lemma {:induction false} StaysFading(
      c: Config, ss: seq<State>, acts: seq<Action>, k: nat, m: nat, id: JobId, horizon: Time)
    requires IsRun(c, ss, acts) && k <= m < |ss| && Fading(ss[k], id, horizon)
    ensures Fading(ss[m], id, horizon) && ss[k].now <= ss[m].now
  {
    if k < m {
      StaysFading(c, ss, acts, k, m - 1, id, horizon);
      InvHolds(c, ss, acts, m - 1);
      assert JobOk(ss[m - 1], id) && StepAt(c, ss, acts, m - 1);
      StepKeepsFading(c, ss[m - 1], acts[m - 1], id, horizon);
    }
  }

  /**
    Once a job's row is gone, its ProcessJob has cached its last status and no call holds one, every
    check that starts jobStatusTTL later, or afterwards, answers "not found" unless its store read
    fails.
   */
  lemma EventuallyNotFound(
      c: Config, ss: seq<State>, acts: seq<Action>, k: nat, b: nat, n: nat, r: nat, id: JobId)
    requires IsRun(c, ss, acts) && Finishes(ss, acts, n, r)
    requires k <= b < n && acts[b] == Begin(r, id) && ss[k].now + c.jobStatusTTL <= ss[b].now
    requires id !in ss[k].rows && Updated(ss[k], id) && !StageAt(ss[k], id, Publishing) && NoHolder(ss[k], id)
    ensures acts[n].StoreRead? && ss[n + 1].readers[r].pc == Refused(if acts[n].fails then ErrInternal else ErrNotFound)
  {
    ExpiryBounded(c, ss, acts, k);
    forall m | b < m <= n ensures NothingToFind(ss[m], id) {
      StaysFading(c, ss, acts, k, m, id, ss[k].now + c.jobStatusTTL);
      ReaderKeepsJob(c, ss, acts, b, m, r, id);
    }
    NeverFound(c, ss, acts, b, n, r, id);
  }
}
