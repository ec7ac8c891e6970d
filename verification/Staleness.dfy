/**
  How long the cache can disagree with the store once a job's UpdateJob has been issued, whether or
  not that update succeeded, and exactly when it can.
 */
module Staleness {
  import opened Domain
  import opened StatusCache
  import opened Protocol
  import opened ProtocolSafety

  /** ProcessJob has issued its UpdateJob and is still to announce a status other than `v`. */
  predicate AnnouncesOther(s: State, id: JobId, v: JobStatus) {
    StageAt(s, id, Publishing) && s.tasks[id].process.final != v
  }

  /** A call for `id` that read something other than `v` from the store and has not written it back yet. */
  predicate HoldsOther(rd: Reader, id: JobId, v: JobStatus) {
    rd.id == id && rd.pc.Holding? && rd.pc.status != v
  }

  ghost predicate StaleHolder(s: State, id: JobId, v: JobStatus) {
    exists r :: r in s.readers && HoldsOther(s.readers[r], id, v)
  }

  predicate StaleEntry(s: State, id: JobId, v: JobStatus) {
    Live(s.cache, id, s.now) && s.cache[id].status != v
  }

  predicate EntryAgrees(s: State, id: JobId, v: JobStatus, horizon: Time) {
    id in s.cache ==> s.cache[id].status == v || s.cache[id].expiresAt <= horizon
  }

  /** The row's status is `v` for good, nobody is about to cache another, and disagreeing entries are dead by `horizon`. */
  ghost predicate AgreesFrom(s: State, id: JobId, v: JobStatus, horizon: Time) {
    && Updated(s, id)
    && !AnnouncesOther(s, id, v)
    && !StaleHolder(s, id, v)
    && (id in s.rows ==> s.rows[id].status == v)
    && EntryAgrees(s, id, v, horizon)
  }

  lemma StepKeepsHolders(c: Config, s: State, a: Action, id: JobId, v: JobStatus, r: nat)
    requires Enabled(s, a) && r in Apply(c, s, a).readers
    requires id in s.rows ==> s.rows[id].status == v
    requires r in s.readers ==> !HoldsOther(s.readers[r], id, v)
    ensures !HoldsOther(Apply(c, s, a).readers[r], id, v)
  {
  }

  lemma StepKeepsAgreement(c: Config, s: State, a: Action, id: JobId, v: JobStatus, horizon: Time)
    requires Inv(s) && AgreesFrom(s, id, v, horizon) && Enabled(s, a)
    ensures AgreesFrom(Apply(c, s, a), id, v, horizon)
  {
    assert JobOk(s, id);
    var s' := Apply(c, s, a);
    forall r | r in s'.readers ensures !HoldsOther(s'.readers[r], id, v) {
      StepKeepsHolders(c, s, a, id, v, r);
    }
    if a.WriteBack? {
      assert !HoldsOther(s.readers[a.r], id, v);
    }
    StepKeepsEntryAgreeing(c, s, a, id, v, horizon);
  }

  lemma StepKeepsEntryAgreeing(c: Config, s: State, a: Action, id: JobId, v: JobStatus, horizon: Time)
    requires JobOk(s, id) && Enabled(s, a) && Updated(s, id) && !AnnouncesOther(s, id, v)
    requires EntryAgrees(s, id, v, horizon)
    requires a.WriteBack? ==> !HoldsOther(s.readers[a.r], id, v)
    ensures EntryAgrees(Apply(c, s, a), id, v, horizon)
  {
  }

  lemma {:induction false} AgreementStays(
      c: Config, ss: seq<State>, acts: seq<Action>, k: nat, id: JobId, v: JobStatus, horizon: Time)
    requires IsPath(c, ss, acts) && k < |ss|
    requires Inv(ss[0]) && AgreesFrom(ss[0], id, v, horizon)
    ensures Inv(ss[k]) && AgreesFrom(ss[k], id, v, horizon) && ss[0].now <= ss[k].now
  {
    if k > 0 {
      AgreementStays(c, ss, acts, k - 1, id, v, horizon);
      assert StepAt(c, ss, acts, k - 1);
      StepKeepsInv(c, ss[k - 1], acts[k - 1]);
      StepKeepsAgreement(c, ss[k - 1], acts[k - 1], id, v, horizon);
    }
  }

  /** From agreement on, every call that reads the cache at or after the horizon answers `v`. */
  lemma AgreeingAnswer(c: Config, s: State, a: Action, id: JobId, v: JobStatus, horizon: Time)
    requires AgreesFrom(s, id, v, horizon) && Enabled(s, a) && horizon <= s.now && !v.Other?
    requires (a.CacheRead? || a.StoreRead? || a.WriteBack?) && s.readers[a.r].id == id
    ensures Apply(c, s, a).readers[a.r].pc.Answered? ==> Apply(c, s, a).readers[a.r].pc.status == v
    ensures Apply(c, s, a).readers[a.r].pc.Refused? ==> a.StoreRead? && (a.fails || id !in s.rows)
  {
    assert !HoldsOther(s.readers[a.r], id, v);
  }

  // ----- bounded staleness -----

  ghost predicate EntriesBounded(c: Config, s: State) {
    forall id :: id in s.cache ==> s.cache[id].expiresAt <= s.now + c.jobStatusTTL
  }

  lemma StepKeepsBound(c: Config, s: State, a: Action)
    requires EntriesBounded(c, s) && Enabled(s, a)
    ensures EntriesBounded(c, Apply(c, s, a))
  {
  }

  /** Only a set gives an entry its expiry; a hit never prolongs it. */
  lemma {:induction false} ExpiryBounded(c: Config, ss: seq<State>, acts: seq<Action>, k: nat)
    requires IsRun(c, ss, acts) && k < |ss|
    ensures EntriesBounded(c, ss[k])
  {
    if k > 0 {
      ExpiryBounded(c, ss, acts, k - 1);
      assert StepAt(c, ss, acts, k - 1);
      StepKeepsBound(c, ss[k - 1], acts[k - 1]);
    }
  }

  /** Call `r` finishes at step `n`, with an answer or an error. */
  predicate Finishes(ss: seq<State>, acts: seq<Action>, n: nat, r: nat)
    requires |ss| == |acts| + 1
  {
    && n < |acts|
    && (acts[n].CacheRead? || acts[n].StoreRead? || acts[n].WriteBack?) && acts[n].r == r
    && r in ss[n + 1].readers
    && (ss[n + 1].readers[r].pc.Answered? || ss[n + 1].readers[r].pc.Refused?)
  }

  lemma StepKeepsCall(c: Config, s: State, a: Action, r: nat, id: JobId)
    requires Enabled(s, a) && ((r in s.readers && s.readers[r].id == id) || a == Begin(r, id))
    ensures r in Apply(c, s, a).readers && Apply(c, s, a).readers[r].id == id && s.now <= Apply(c, s, a).now
  {
  }

  lemma {:induction false} ReaderKeepsJob(
      c: Config, ss: seq<State>, acts: seq<Action>, b: nat, n: nat, r: nat, id: JobId)
    requires IsPath(c, ss, acts) && b < n < |ss| && acts[b] == Begin(r, id)
    ensures r in ss[n].readers && ss[n].readers[r].id == id && ss[b].now <= ss[n].now
  {
    if b + 1 < n {
      ReaderKeepsJob(c, ss, acts, b, n - 1, r, id);
    }
    assert StepAt(c, ss, acts, n - 1);
    StepKeepsCall(c, ss[n - 1], acts[n - 1], r, id);
  }

  lemma SuffixIsPath(c: Config, ss: seq<State>, acts: seq<Action>, k: nat)
    requires IsPath(c, ss, acts) && k <= |acts|
    ensures IsPath(c, ss[k..], acts[k..])
  {
    forall i | 0 <= i < |acts[k..]| ensures StepAt(c, ss[k..], acts[k..], i) {
      assert StepAt(c, ss, acts, k + i);
    }
  }

  lemma AgreementAfter(c: Config, ss: seq<State>, acts: seq<Action>, k: nat, n: nat, id: JobId, v: JobStatus)
    requires IsRun(c, ss, acts) && k <= n < |ss|
    requires id in ss[k].rows && ss[k].rows[id].status == v
    requires Updated(ss[k], id) && !AnnouncesOther(ss[k], id, v) && !StaleHolder(ss[k], id, v)
    ensures AgreesFrom(ss[n], id, v, ss[k].now + c.jobStatusTTL)
  {
    InvHolds(c, ss, acts, k);
    ExpiryBounded(c, ss, acts, k);
    SuffixIsPath(c, ss, acts, k);
    AgreementStays(c, ss[k..], acts[k..], n - k, id, v, ss[k].now + c.jobStatusTTL);
    assert ss[k..][n - k] == ss[n];
  }

  /**
    Let the row have status `v` at moment `k`, with the job's UpdateJob issued, nothing but `v`
    left for ProcessJob to announce and no call holding another status. `v` is terminal when the
    update succeeded and processing when it failed. Then every call that starts jobStatusTTL later,
    or afterwards, answers exactly `v`; it can only fail when its store read fails or cleanup has
    removed the row.
   */
  lemma BoundedStaleness(
      c: Config, ss: seq<State>, acts: seq<Action>, k: nat, b: nat, n: nat, r: nat, id: JobId, v: JobStatus)
    requires IsRun(c, ss, acts) && k <= b < n < |acts| && c.jobStatusTTL > 0
    requires id in ss[k].rows && ss[k].rows[id].status == v
    requires Updated(ss[k], id) && !AnnouncesOther(ss[k], id, v) && !StaleHolder(ss[k], id, v)
    requires acts[b] == Begin(r, id) && ss[k].now + c.jobStatusTTL <= ss[b].now
    requires Finishes(ss, acts, n, r)
    ensures ss[n + 1].readers[r].pc == Answered(v)
         || (ss[n + 1].readers[r].pc.Refused? && acts[n].StoreRead? && (acts[n].fails || id !in ss[n].rows))
  {
    InvHolds(c, ss, acts, k);
    assert JobOk(ss[k], id);
    AgreementAfter(c, ss, acts, k, n, id, v);
    ReaderKeepsJob(c, ss, acts, b, n, r, id);
    assert StepAt(c, ss, acts, n);
    AgreeingAnswer(c, ss[n], acts[n], id, v, ss[k].now + c.jobStatusTTL);
  }

  // ----- exactly when a stale answer is still possible -----

  /** A continuation from `s` in which a call started after `s` answers something other than `v`. */
  ghost predicate StalePath(c: Config, s: State, ss: seq<State>, acts: seq<Action>, id: JobId, v: JobStatus) {
    && IsPath(c, ss, acts) && ss[0] == s
    && exists b, n :: 0 <= b < n < |acts| && StaleCall(ss, acts, b, n, id, v)
  }

  predicate StaleCall(ss: seq<State>, acts: seq<Action>, b: nat, n: nat, id: JobId, v: JobStatus)
    requires |ss| == |acts| + 1 && b < n < |acts|
  {
    && acts[b].Begin? && acts[b].id == id
    && Finishes(ss, acts, n, acts[b].r)
    && ss[n + 1].readers[acts[b].r].pc.Answered? && ss[n + 1].readers[acts[b].r].pc.status != v
  }

  lemma {:induction false} UnusedNumber(used: set<nat>) returns (r: nat)
    ensures forall x :: x in used ==> x < r
    decreases |used|
  {
    if used == {} {
      r := 0;
    } else {
      var x :| x in used;
      r := UnusedNumber(used - {x});
      assert forall y :: y in used ==> y == x || y in used - {x};
      if r <= x {
        r := x + 1;
      }
    }
  }

  lemma NewCallHits(c: Config, s: State, id: JobId, v: JobStatus) returns (ss: seq<State>, acts: seq<Action>)
    requires Inv(s) && StaleEntry(s, id, v)
    ensures StalePath(c, s, ss, acts, id, v) && |acts| == 2
  {
    assert JobOk(s, id);
    var r := UnusedNumber(s.readers.Keys);
    acts := [Begin(r, id), CacheRead(r, false)];
    var s1 := Apply(c, s, acts[0]);
    var s2 := Apply(c, s1, acts[1]);
    ss := [s, s1, s2];
    assert s2.readers[r].pc == Answered(s.cache[id].status);
    assert StaleCall(ss, acts, 0, 1, id, v);
  }

  /** If step `a` leaves a live disagreeing entry behind, a stale answer is one new call away. */
  lemma StepThenHit(c: Config, s: State, a: Action, id: JobId, v: JobStatus)
    requires Inv(s) && Enabled(s, a) && StaleEntry(Apply(c, s, a), id, v)
    ensures exists ss: seq<State>, acts: seq<Action> :: StalePath(c, s, ss, acts, id, v)
  {
    StepKeepsInv(c, s, a);
    var ss, acts := NewCallHits(c, Apply(c, s, a), id, v);
    var b, n :| 0 <= b < n < |acts| && StaleCall(ss, acts, b, n, id, v);
    PrependStep(c, s, a, ss, acts);
    assert StaleCall([s] + ss, [a] + acts, b + 1, n + 1, id, v);
    assert StalePath(c, s, [s] + ss, [a] + acts, id, v);
  }

  lemma AgreementExcludesStale(c: Config, s: State, ss: seq<State>, acts: seq<Action>, id: JobId, v: JobStatus)
    requires Inv(s) && AgreesFrom(s, id, v, s.now) && !v.Other?
    ensures !StalePath(c, s, ss, acts, id, v)
  {
    if StalePath(c, s, ss, acts, id, v) {
      var b, n :| 0 <= b < n < |acts| && StaleCall(ss, acts, b, n, id, v);
      ReaderKeepsJob(c, ss, acts, b, n, acts[b].r, id);
      AgreementStays(c, ss, acts, n, id, v, s.now);
      assert StepAt(c, ss, acts, n);
      AgreeingAnswer(c, ss[n], acts[n], id, v, s.now);
    }
  }

  /**
    Once a job's UpdateJob has been issued, with whatever result, a call started from now on can
    answer something other than the row's status if and only if the cache holds a live disagreeing
    entry now, or some call already under way read another status and has not written it back, or
    ProcessJob is still to announce another status. The last is how a failed update shows: the row
    stays processing and failed is about to be cached.
   */
  lemma StaleAnswerPossibleIff(c: Config, s: State, id: JobId, v: JobStatus)
    requires Inv(s) && c.jobStatusTTL > 0
    requires id in s.rows && s.rows[id].status == v && Updated(s, id)
    ensures (exists ss: seq<State>, acts: seq<Action> :: StalePath(c, s, ss, acts, id, v))
       <==> StaleEntry(s, id, v) || StaleHolder(s, id, v) || AnnouncesOther(s, id, v)
  {
    assert JobOk(s, id);
    if StaleEntry(s, id, v) {
      var ss, acts := NewCallHits(c, s, id, v);
    } else if StaleHolder(s, id, v) {
      var r0 :| r0 in s.readers && HoldsOther(s.readers[r0], id, v);
      StepThenHit(c, s, WriteBack(r0, Succeeds), id, v);
    } else if AnnouncesOther(s, id, v) {
      StepThenHit(c, s, CacheFinal(id, Succeeds), id, v);
    } else {
      forall ss: seq<State>, acts: seq<Action> ensures !StalePath(c, s, ss, acts, id, v) {
        AgreementExcludesStale(c, s, ss, acts, id, v);
      }
    }
  }

  lemma PrependStep(c: Config, s: State, a: Action, ss: seq<State>, acts: seq<Action>)
    requires Enabled(s, a) && IsPath(c, ss, acts) && ss[0] == Apply(c, s, a)
    ensures IsPath(c, [s] + ss, [a] + acts)
  {
    var ss', acts' := [s] + ss, [a] + acts;
    forall k | 0 <= k < |acts'| ensures StepAt(c, ss', acts', k) {
      if k > 0 {
        assert StepAt(c, ss, acts, k - 1);
      }
    }
  }

  // ----- exactly when ProcessJob itself makes cache and store disagree -----

  /** `id`'s UpdateJob returns an error with an effect on the row other than setting it to failed. */
  predicate Botches(s: State, a: Action, id: JobId) {
    && a.Update? && a.id == id && id in s.tasks && s.tasks[id].process.Updating?
    && (a.call.Fails? || (a.call.FailsAfterEffect? && s.tasks[id].process.target.Completed?))
  }

  ghost predicate Botched(ss: seq<State>, acts: seq<Action>, k: nat, id: JobId)
    requires |ss| == |acts| + 1 && k < |ss|
  {
    exists i :: 0 <= i < k && Botches(ss[i], acts[i], id)
  }

  predicate Disagrees(s: State, id: JobId)
    requires Updated(s, id) && id in s.rows
  {
    s.tasks[id].process.final != s.rows[id].status
  }

  lemma StepDisagrees(c: Config, s: State, a: Action, id: JobId)
    requires JobOk(s, id) && Enabled(s, a) && Updated(s, id)
    requires Updated(Apply(c, s, a), id) && id in Apply(c, s, a).rows
    ensures id in s.rows && !Botches(s, a, id) && (Disagrees(Apply(c, s, a), id) <==> Disagrees(s, id))
  {
  }

  lemma UpdateDisagrees(c: Config, s: State, a: Action, id: JobId)
    requires JobOk(s, id) && Enabled(s, a) && !Updated(s, id)
    requires Updated(Apply(c, s, a), id) && id in Apply(c, s, a).rows
    ensures Disagrees(Apply(c, s, a), id) <==> Botches(s, a, id)
  {
    assert a.Update? && a.id == id;
  }

  lemma {:induction false} NothingBotchedBefore(c: Config, ss: seq<State>, acts: seq<Action>, k: nat, id: JobId)
    requires IsRun(c, ss, acts) && k < |ss| && !Updated(ss[k], id)
    ensures !Botched(ss, acts, k, id)
  {
    if k > 0 {
      InvHolds(c, ss, acts, k - 1);
      assert JobOk(ss[k - 1], id) && StepAt(c, ss, acts, k - 1);
      StepUpdates(c, ss[k - 1], acts[k - 1], id);
      NothingBotchedBefore(c, ss, acts, k - 1, id);
    }
  }

  /**
    What ProcessJob announces differs from the row it leaves behind if and only if its UpdateJob
    returned an error and either had no effect or had completed the row.
   */
  lemma {:induction false} DisagreesIffBotched(c: Config, ss: seq<State>, acts: seq<Action>, k: nat, id: JobId)
    requires IsRun(c, ss, acts) && k < |ss| && Updated(ss[k], id) && id in ss[k].rows
    ensures Disagrees(ss[k], id) <==> Botched(ss, acts, k, id)
  {
    if k > 0 {
      InvHolds(c, ss, acts, k - 1);
      assert JobOk(ss[k - 1], id) && StepAt(c, ss, acts, k - 1);
      if Updated(ss[k - 1], id) {
        StepDisagrees(c, ss[k - 1], acts[k - 1], id);
        DisagreesIffBotched(c, ss, acts, k - 1, id);
      } else {
        UpdateDisagrees(c, ss[k - 1], acts[k - 1], id);
        NothingBotchedBefore(c, ss, acts, k - 1, id);
      }
    }
  }
}
