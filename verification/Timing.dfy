/** Timed bounds between the components: job deadlines, the finalisation budget and the row's lifetime. */
module Timing {
  import opened Domain
  import opened StorageInMemory
  import opened Protocol
  import opened ProtocolSafety
  import Scenarios

  /**
    The timing assumptions. BulkGenerate creates the job context within `delay` of storing the
    job; the gRPC call ends by the context's deadline; the storage and cache calls of the
    finalisation end by theirs, and leaving takes no time of its own.
   */
  predicate OnTimeTask(t: Task, delay: Time, now: Time) {
    && (t.submit.Caching? || t.submit.Spawning? ==> now <= t.storedAt + delay)
    && (t.process.Spawned? || t.process.Waiting? ==> now <= t.ctxDeadline)
    && (t.process.Saving? || t.process.Updating? || (t.process.After? && !t.process.stage.Finished?)
        ==> now <= t.finDeadline)
  }

  ghost predicate OnTime(s: State, delay: Time) {
    forall id :: id in s.tasks ==> OnTimeTask(s.tasks[id], delay, s.now)
  }

  ghost predicate OnTimeRun(c: Config, delay: Time, ss: seq<State>, acts: seq<Action>) {
    IsRun(c, ss, acts) && forall k :: 0 <= k < |ss| ==> OnTime(ss[k], delay)
  }

  // ----- deadlines -----

  predicate Budgeted(c: Config, delay: Time, s: State, id: JobId) {
    id in s.tasks ==>
      var t := s.tasks[id];
      && (!t.process.NotSpawned? ==> t.ctxDeadline <= t.storedAt + delay + c.jobMaxDuration)
      && (t.out.Some? ==> t.finDeadline <= t.ctxDeadline + FINALIZE_TIMEOUT)
  }

  lemma StepKeepsBudget(c: Config, delay: Time, s: State, a: Action, id: JobId)
    requires JobOk(s, id) && OnTime(s, delay) && Budgeted(c, delay, s, id) && Enabled(s, a)
    ensures Budgeted(c, delay, Apply(c, s, a), id)
  {
  }

  lemma {:induction false} BudgetHolds(c: Config, delay: Time, ss: seq<State>, acts: seq<Action>, k: nat, id: JobId)
    requires OnTimeRun(c, delay, ss, acts) && k < |ss|
    ensures Budgeted(c, delay, ss[k], id)
  {
    if k > 0 {
      BudgetHolds(c, delay, ss, acts, k - 1, id);
      InvHolds(c, ss, acts, k - 1);
      assert JobOk(ss[k - 1], id);
      assert StepAt(c, ss, acts, k - 1);
      StepKeepsBudget(c, delay, ss[k - 1], acts[k - 1], id);
    }
  }

  predicate SpawnedWith(s: State, id: JobId, deadline: Time) {
    id in s.tasks && !s.tasks[id].process.NotSpawned? && s.tasks[id].ctxDeadline == deadline
  }

  lemma StepKeepsDeadline(c: Config, s: State, a: Action, id: JobId, deadline: Time)
    requires JobOk(s, id) && Enabled(s, a)
    requires SpawnedWith(s, id, deadline) || (a == Spawn(id) && deadline == s.now + c.jobMaxDuration)
    ensures SpawnedWith(Apply(c, s, a), id, deadline)
  {
  }

  lemma {:induction false} DeadlineFixedAtSpawn(c: Config, ss: seq<State>, acts: seq<Action>, i: nat, k: nat, id: JobId)
    requires IsRun(c, ss, acts) && i < k < |ss| && acts[i] == Spawn(id)
    ensures SpawnedWith(ss[k], id, ss[i].now + c.jobMaxDuration)
  {
    if i + 1 < k {
      DeadlineFixedAtSpawn(c, ss, acts, i, k - 1, id);
    }
    InvHolds(c, ss, acts, k - 1);
    assert JobOk(ss[k - 1], id);
    assert StepAt(c, ss, acts, k - 1);
    StepKeepsDeadline(c, ss[k - 1], acts[k - 1], id, ss[i].now + c.jobMaxDuration);
  }

  /**
    Every ProcessJob is finished jobMaxDuration + 5 seconds after its job context was created;
    and finalisation starts with the full 5 seconds, however much of the job deadline was used.
   */
  lemma ProcessingDeadline(
      c: Config, delay: Time, ss: seq<State>, acts: seq<Action>, i: nat, k: nat, id: JobId)
    requires OnTimeRun(c, delay, ss, acts) && i < k < |ss| && acts[i] == Spawn(id)
    ensures ss[k].now > ss[i].now + c.jobMaxDuration + 5_000_000_000
            ==> id in ss[k].tasks && ss[k].tasks[id].process.After? && ss[k].tasks[id].process.stage.Finished?
    ensures k < |acts| && acts[k].Receive? && acts[k].id == id
            ==> id in ss[k + 1].tasks && ss[k + 1].tasks[id].finDeadline == ss[k + 1].now + 5_000_000_000
  {
    DeadlineFixedAtSpawn(c, ss, acts, i, k, id);
    BudgetHolds(c, delay, ss, acts, k, id);
    InvHolds(c, ss, acts, k);
    assert JobOk(ss[k], id) && OnTime(ss[k], delay);
    assert OnTimeTask(ss[k].tasks[id], delay, ss[k].now);
    assert k < |acts| ==> StepAt(c, ss, acts, k);
  }

  // ----- no job lost to cleanup -----

  predicate Unfinalised(t: Task) {
    t.submit.Caching? || t.submit.Spawning? || (!t.process.NotSpawned? && !t.process.After?)
  }

  predicate Present(s: State, id: JobId) {
    id in s.tasks && Unfinalised(s.tasks[id]) ==> id in s.rows
  }

  lemma StepKeepsPresent(c: Config, delay: Time, s: State, a: Action, id: JobId)
    requires delay + c.jobMaxDuration + FINALIZE_TIMEOUT <= c.jobTTL
    requires JobOk(s, id) && OnTime(s, delay) && Budgeted(c, delay, s, id) && Enabled(s, a)
    requires Present(s, id)
    ensures Present(Apply(c, s, a), id)
  {
    if id in s.tasks {
      assert OnTimeTask(s.tasks[id], delay, s.now);
    }
  }

  lemma {:induction false} PresentHolds(c: Config, delay: Time, ss: seq<State>, acts: seq<Action>, k: nat, id: JobId)
    requires delay + c.jobMaxDuration + FINALIZE_TIMEOUT <= c.jobTTL
    requires OnTimeRun(c, delay, ss, acts) && k < |ss|
    ensures Present(ss[k], id)
  {
    if k > 0 {
      PresentHolds(c, delay, ss, acts, k - 1, id);
      InvHolds(c, ss, acts, k - 1);
      BudgetHolds(c, delay, ss, acts, k - 1, id);
      assert JobOk(ss[k - 1], id);
      assert StepAt(c, ss, acts, k - 1);
      StepKeepsPresent(c, delay, ss[k - 1], acts[k - 1], id);
    }
  }

  /** Step `k` is a finalising SaveResponse or UpdateJob that finds its job missing. */
  predicate LosesJob(ss: seq<State>, acts: seq<Action>, k: nat)
    requires |ss| == |acts| + 1
  {
    k < |acts| && (acts[k].Save? || acts[k].Update?) && acts[k].id !in ss[k].rows
  }

  ghost predicate SomeJobLost(c: Config, delay: Time, ss: seq<State>, acts: seq<Action>) {
    OnTimeRun(c, delay, ss, acts) && exists k :: LosesJob(ss, acts, k)
  }

  lemma ThenOnTime(c: Config, delay: Time, t: Scenarios.Trace, a: Action) returns (u: Scenarios.Trace)
    requires OnTimeRun(c, delay, t.states, t.acts)
    requires Enabled(t.Last(), a) && OnTime(Apply(c, t.Last(), a), delay)
    ensures u == Scenarios.Trace(t.states + [Apply(c, t.Last(), a)], t.acts + [a])
    ensures OnTimeRun(c, delay, u.states, u.acts) && u.Last() == Apply(c, t.Last(), a)
  {
    u := Scenarios.Then(c, t, a);
  }

  lemma StoredOnTime(c: Config, delay: Time) returns (t: Scenarios.Trace)
    ensures OnTimeRun(c, delay, t.states, t.acts) && t.Last() == Scenarios.StoredState(c)
  {
    t := ThenOnTime(c, delay, Scenarios.EMPTY_TRACE, Action.Submit("j"));
    Scenarios.Stored(c, t.Last());
    t := ThenOnTime(c, delay, t, StoreJob("j", Succeeds));
    t := ThenOnTime(c, delay, t, CacheProcessing("j", Succeeds));
  }

  lemma WaitingOnTime(c: Config, delay: Time) returns (t: Scenarios.Trace)
    ensures OnTimeRun(c, delay, t.states, t.acts) && t.Last() == Scenarios.WaitingState(c, delay)
  {
    t := StoredOnTime(c, delay);
    Scenarios.Spawned(c, delay);
    t := ThenOnTime(c, delay, t, Advance(delay));
    t := ThenOnTime(c, delay, t, Spawn("j"));
    t := ThenOnTime(c, delay, t, Start("j"));
  }

  function LateState(c: Config, delay: Time): State {
    Scenarios.WaitingState(c, delay).(
      now := delay + c.jobMaxDuration + FINALIZE_TIMEOUT,
      rows := map[],
      tasks := map["j" := Task(Counting(true), Saving(Success), 0,
                               delay + c.jobMaxDuration, delay + c.jobMaxDuration + FINALIZE_TIMEOUT,
                               Some(Scenarios.EMPTY_DELIVERY), {Processing})],
      lastTick := delay + c.jobMaxDuration + FINALIZE_TIMEOUT)
  }

  lemma LateOnTime(c: Config, delay: Time) returns (t: Scenarios.Trace)
    requires delay + c.jobMaxDuration + FINALIZE_TIMEOUT > c.jobTTL
    ensures OnTimeRun(c, delay, t.states, t.acts) && t.Last() == LateState(c, delay)
  {
    t := WaitingOnTime(c, delay);
    t := ThenOnTime(c, delay, t, Advance(c.jobMaxDuration));
    t := ThenOnTime(c, delay, t, Receive("j", Scenarios.EMPTY_DELIVERY));
    assert t.Last().tasks == LateState(c, delay).tasks;
    t := ThenOnTime(c, delay, t, Advance(FINALIZE_TIMEOUT));
    t := ThenOnTime(c, delay, t, Cleanup);
    assert t.Last().rows == map[];
  }

  /**
    With punctual calls, the finalisation of no job ever finds its row missing, for any number of
    jobs and any cleanup instants, if and only if submission delay, job duration and the five
    seconds of finalisation fit into the row's lifetime.
   */
  lemma NoJobLostIff(c: Config, delay: Time)
    ensures (forall ss: seq<State>, acts: seq<Action> :: !SomeJobLost(c, delay, ss, acts))
       <==> delay + c.jobMaxDuration + 5_000_000_000 <= c.jobTTL
  {
    if delay + c.jobMaxDuration + FINALIZE_TIMEOUT <= c.jobTTL {
      forall ss: seq<State>, acts: seq<Action> | SomeJobLost(c, delay, ss, acts) ensures false {
        var k: nat :| LosesJob(ss, acts, k);
        assert StepAt(c, ss, acts, k);
        PresentHolds(c, delay, ss, acts, k, acts[k].id);
      }
    } else {
      var t := LateOnTime(c, delay);
      var k := |t.acts|;
      t := ThenOnTime(c, delay, t, Save("j", Succeeds));
      assert LosesJob(t.states, t.acts, k);
      assert SomeJobLost(c, delay, t.states, t.acts);
    }
  }

  // ----- the row's lifetime -----

  /** The cleanup ticker: a pass exactly every jobTTL, the first one jobTTL after the store was made. */
  ghost predicate Punctual(c: Config, ss: seq<State>, acts: seq<Action>) {
    && IsRun(c, ss, acts)
    && (forall k :: 0 <= k < |ss| ==> ss[k].now <= ss[k].lastTick + c.jobTTL)
    && (forall k :: 0 <= k < |acts| && acts[k].Cleanup? ==> ss[k].now == ss[k].lastTick + c.jobTTL)
  }

  // ----- no job lost to a punctual cleanup -----

  ghost predicate Timely(c: Config, delay: Time, t: Scenarios.Trace) {
    OnTimeRun(c, delay, t.states, t.acts) && Punctual(c, t.states, t.acts)
  }

  lemma ThenTimely(c: Config, delay: Time, t: Scenarios.Trace, a: Action) returns (u: Scenarios.Trace)
    requires Timely(c, delay, t) && Enabled(t.Last(), a)
    requires var s := Apply(c, t.Last(), a); OnTime(s, delay) && s.now <= s.lastTick + c.jobTTL
    requires a.Cleanup? ==> t.Last().now == t.Last().lastTick + c.jobTTL
    ensures u == Scenarios.Trace(t.states + [Apply(c, t.Last(), a)], t.acts + [a])
    ensures Timely(c, delay, u) && u.Last() == Apply(c, t.Last(), a)
  {
    u := ThenOnTime(c, delay, t, a);
  }

  /** The row of a job stored just before the first tick. */
  function EveRows(c: Config): Rows
    requires c.jobTTL > 0
  {
    map["j" := Scenarios.ROW0.(createdAt := c.jobTTL - 1)]
  }

  /** Only job "j", whose task is `task`, `age` after it was stored; the first tick is past or not. */
  ghost predicate Aged(c: Config, s: State, age: nat, task: Task)
    requires c.jobTTL > 0
  {
    && s.now == c.jobTTL - 1 + age && s.rows == EveRows(c) && s.tasks == map["j" := task]
    && s.lastTick == if age == 0 then 0 else c.jobTTL
  }

  lemma Wait(c: Config, delay: Time, t: Scenarios.Trace, age: nat, d: Time, task: Task) returns (u: Scenarios.Trace)
    requires c.jobTTL > 0 && Timely(c, delay, t) && Aged(c, t.Last(), age, task)
    requires age + d <= c.jobTTL + 1 && OnTimeTask(task, delay, c.jobTTL - 1 + age + d)
    ensures Timely(c, delay, u) && Aged(c, u.Last(), age + d, task)
  {
    u := t;
    var rest := d;
    if age == 0 && d > 0 {
      u := ThenTimely(c, delay, u, Advance(1));
      u := ThenTimely(c, delay, u, Cleanup);
      assert u.Last().rows == EveRows(c);
      rest := d - 1;
    }
    u := ThenTimely(c, delay, u, Advance(rest));
  }

  lemma StoredOnTheEve(c: Config, delay: Time) returns (t: Scenarios.Trace)
    requires c.jobTTL > 0
    ensures Timely(c, delay, t)
    ensures Aged(c, t.Last(), 0, Task(Spawning, NotSpawned, c.jobTTL - 1, 0, 0, None, {Processing}))
  {
    t := ThenTimely(c, delay, Scenarios.EMPTY_TRACE, Advance(c.jobTTL - 1));
    t := ThenTimely(c, delay, t, Action.Submit("j"));
    t := ThenTimely(c, delay, t, StoreJob("j", Succeeds));
    assert t.Last().rows == EveRows(c);
    t := ThenTimely(c, delay, t, CacheProcessing("j", Succeeds));
  }

  function EveTask(c: Config, d: Time, process: Process, finDeadline: Time, out: Option<Delivery>): Task
    requires c.jobTTL > 0
  {
    Task(Counting(true), process, c.jobTTL - 1, c.jobTTL - 1 + d + c.jobMaxDuration, finDeadline, out, {Processing})
  }

  lemma WaitingOnTheEve(c: Config, delay: Time, d: Time) returns (t: Scenarios.Trace)
    requires c.jobTTL > 0 && d <= delay && d <= c.jobTTL + 1
    ensures Timely(c, delay, t) && Aged(c, t.Last(), d, EveTask(c, d, Waiting, 0, None))
  {
    t := StoredOnTheEve(c, delay);
    t := Wait(c, delay, t, 0, d, Task(Spawning, NotSpawned, c.jobTTL - 1, 0, 0, None, {Processing}));
    t := ThenTimely(c, delay, t, Spawn("j"));
    t := ThenTimely(c, delay, t, Start("j"));
  }

  lemma SavingAtTheTick(c: Config, delay: Time, d: Time, j: Time) returns (t: Scenarios.Trace)
    requires c.jobTTL > 0 && d <= delay && j <= c.jobMaxDuration
    requires d + j <= c.jobTTL + 1 <= d + j + FINALIZE_TIMEOUT
    ensures Timely(c, delay, t) && t.Last().now == t.Last().lastTick + c.jobTTL
    ensures t.Last().rows == EveRows(c) && t.Last().now == 2 * c.jobTTL
    ensures "j" in t.Last().tasks && t.Last().tasks["j"].process.Saving?
  {
    t := WaitingOnTheEve(c, delay, d);
    t := Wait(c, delay, t, d, j, EveTask(c, d, Waiting, 0, None));
    var saving := EveTask(c, d, Saving(Success), t.Last().now + FINALIZE_TIMEOUT, Some(Scenarios.EMPTY_DELIVERY));
    t := ThenTimely(c, delay, t, Receive("j", Scenarios.EMPTY_DELIVERY));
    t := Wait(c, delay, t, d + j, c.jobTTL + 1 - d - j, saving);
  }

  lemma LostToATick(c: Config, delay: Time) returns (t: Scenarios.Trace, k: nat)
    requires delay + c.jobMaxDuration + FINALIZE_TIMEOUT > c.jobTTL > 0
    ensures Timely(c, delay, t) && LosesJob(t.states, t.acts, k)
  {
    var d := if delay <= c.jobTTL + 1 then delay else c.jobTTL + 1;
    var j := if c.jobMaxDuration <= c.jobTTL + 1 - d then c.jobMaxDuration else c.jobTTL + 1 - d;
    t := SavingAtTheTick(c, delay, d, j);
    t := ThenTimely(c, delay, t, Cleanup);
    assert t.Last().rows == map[];
    k := |t.acts|;
    t := ThenTimely(c, delay, t, Save("j", Succeeds));
  }

  ghost predicate SomeJobLostToATick(c: Config, delay: Time, ss: seq<State>, acts: seq<Action>) {
    SomeJobLost(c, delay, ss, acts) && Punctual(c, ss, acts)
  }

  /**
    A cleanup that runs at its ticks and at no other moment does not help: even then the bound of
    NoJobLostIff is the exact one, for every positive jobTTL.
   */
  lemma NoJobLostToATickIff(c: Config, delay: Time)
    requires c.jobTTL > 0
    ensures (forall ss: seq<State>, acts: seq<Action> :: !SomeJobLostToATick(c, delay, ss, acts))
       <==> delay + c.jobMaxDuration + 5_000_000_000 <= c.jobTTL
  {
    if delay + c.jobMaxDuration + FINALIZE_TIMEOUT <= c.jobTTL {
      NoJobLostIff(c, delay);
      forall ss: seq<State>, acts: seq<Action> ensures !SomeJobLostToATick(c, delay, ss, acts) {
        assert !SomeJobLost(c, delay, ss, acts);
      }
    } else {
      var t, k := LostToATick(c, delay);
      assert SomeJobLostToATick(c, delay, t.states, t.acts);
    }
  }

  predicate DiesInTime(c: Config, s: State, id: JobId) {
    id in s.rows ==> s.lastTick <= s.rows[id].createdAt + c.jobTTL
  }

  lemma StepKeepsLifetime(c: Config, s: State, a: Action, id: JobId)
    requires Enabled(s, a) && DiesInTime(c, s, id) && s.lastTick <= s.now
    ensures DiesInTime(c, Apply(c, s, a), id) && Apply(c, s, a).lastTick <= Apply(c, s, a).now
    ensures id in s.rows && id !in Apply(c, s, a).rows ==> s.now > s.rows[id].createdAt + c.jobTTL
    ensures id in s.rows && id in Apply(c, s, a).rows ==> Apply(c, s, a).rows[id].createdAt == s.rows[id].createdAt
  {
  }

  lemma {:induction false} LifetimeHolds(c: Config, ss: seq<State>, acts: seq<Action>, k: nat, id: JobId)
    requires IsRun(c, ss, acts) && k < |ss|
    ensures DiesInTime(c, ss[k], id) && ss[k].lastTick <= ss[k].now
  {
    if k > 0 {
      LifetimeHolds(c, ss, acts, k - 1, id);
      assert StepAt(c, ss, acts, k - 1);
      StepKeepsLifetime(c, ss[k - 1], acts[k - 1], id);
    }
  }

  lemma NotReborn(c: Config, ss: seq<State>, acts: seq<Action>, i: nat, j: nat, id: JobId)
    requires IsRun(c, ss, acts) && i < j < |ss| && id in ss[i].rows && id in ss[j].rows
    ensures id in ss[j - 1].rows
  {
    if id !in ss[j - 1].rows {
      BornProcessing(c, ss, acts, j - 1, id);
    }
  }

  lemma {:induction false} RowSurvives(c: Config, ss: seq<State>, acts: seq<Action>, i: nat, j: nat, id: JobId)
    requires IsRun(c, ss, acts) && i <= j < |ss| && id in ss[i].rows
    ensures id !in ss[j].rows ==> ss[j].now > ss[i].rows[id].createdAt + c.jobTTL
    ensures id in ss[j].rows ==> ss[j].rows[id].createdAt == ss[i].rows[id].createdAt
  {
    if i < j {
      RowSurvives(c, ss, acts, i, j - 1, id);
      LifetimeHolds(c, ss, acts, j - 1, id);
      assert StepAt(c, ss, acts, j - 1);
      StepKeepsLifetime(c, ss[j - 1], acts[j - 1], id);
      StepKeepsClock(c, ss[j - 1], acts[j - 1]);
      if id in ss[j].rows {
        NotReborn(c, ss, acts, i, j, id);
      }
    }
  }

  /**
    A row that is there at `i` and gone at `j` had by then lived for more than jobTTL; and with a
    punctual ticker no row is left once twice jobTTL have passed since its creation.
   */
  lemma RowLifetime(c: Config, ss: seq<State>, acts: seq<Action>, i: nat, j: nat, id: JobId)
    requires IsRun(c, ss, acts) && i <= j < |ss| && id in ss[i].rows
    ensures id !in ss[j].rows ==> ss[j].now > ss[i].rows[id].createdAt + c.jobTTL
    ensures Punctual(c, ss, acts) && ss[j].now > ss[i].rows[id].createdAt + 2 * c.jobTTL ==> id !in ss[j].rows
  {
    RowSurvives(c, ss, acts, i, j, id);
    LifetimeHolds(c, ss, acts, j, id);
  }

  lemma StepKeepsClock(c: Config, s: State, a: Action)
    requires Enabled(s, a)
    ensures s.now <= Apply(c, s, a).now
  {
  }
}
