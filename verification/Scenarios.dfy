/** Concrete runs showing that the side conditions of the theorems are needed. */
module Scenarios {
  import opened Domain
  import opened StatusCache
  import opened StorageInMemory
  import opened Protocol

  datatype Trace = Trace(states: seq<State>, acts: seq<Action>) {
    ghost predicate Valid(c: Config) {
      IsRun(c, states, acts)
    }

    function Last(): State
      requires states != []
    {
      states[|states| - 1]
    }
  }

  predicate Succeeding(a: Action) {
    match a
    case StoreJob(_, call) => call.Succeeds?
    case CacheProcessing(_, call) => call.Succeeds?
    case Save(_, call) => call.Succeeds?
    case Update(_, call) => call.Succeeds?
    case CacheFinal(_, call) => call.Succeeds?
    case WriteBack(_, call) => call.Succeeds?
    case CacheRead(_, fails) => !fails
    case StoreRead(_, fails) => !fails
    case _ => true
  }

  /** No storage or cache call fails. */
  ghost predicate AllSucceed(acts: seq<Action>) {
    forall k :: 0 <= k < |acts| ==> Succeeding(acts[k])
  }

  const EMPTY_TRACE := Trace([INIT], [])

  lemma Then(c: Config, t: Trace, a: Action) returns (u: Trace)
    requires t.Valid(c) && Enabled(t.Last(), a)
    ensures u == Trace(t.states + [Apply(c, t.Last(), a)], t.acts + [a])
    ensures u.Valid(c) && u.Last() == Apply(c, t.Last(), a)
    ensures AllSucceed(t.acts) && Succeeding(a) ==> AllSucceed(u.acts)
  {
    u := Trace(t.states + [Apply(c, t.Last(), a)], t.acts + [a]);
    forall k | 0 <= k < |u.acts| ensures StepAt(c, u.states, u.acts, k) {
      if k < |t.acts| {
        assert StepAt(c, t.states, t.acts, k);
      }
    }
  }

  const ROW0 := JobData(Processing, None, [], 0, 0, None)

  function WaitingState(c: Config, delay: Time): State {
    State(delay,
          map["j" := ROW0],
          map["j" := Entry(Processing, c.jobStatusTTL)],
          map["j" := Task(Counting(true), Waiting, 0, delay + c.jobMaxDuration, 0, None, {Processing})],
          map[],
          Metrics(0, 0, 1, 0, 0),
          0)
  }

  function StoredState(c: Config): State {
    State(0,
          map["j" := ROW0],
          map["j" := Entry(Processing, c.jobStatusTTL)],
          map["j" := Task(Spawning, NotSpawned, 0, 0, 0, None, {Processing})],
          map[],
          Metrics(0, 0, 0, 0, 0),
          0)
  }

  lemma Stored(c: Config, s: State)
    requires s == Apply(c, INIT, Action.Submit("j"))
    ensures Enabled(s, StoreJob("j", Succeeds))
    ensures var s1 := Apply(c, s, StoreJob("j", Succeeds));
            Enabled(s1, CacheProcessing("j", Succeeds))
            && Apply(c, s1, CacheProcessing("j", Succeeds)) == StoredState(c)
  {
    var s1 := Apply(c, s, StoreJob("j", Succeeds));
    assert s1.rows == map["j" := ROW0];
    assert s1.tasks == map["j" := Task(Caching, NotSpawned, 0, 0, 0, None, {Processing})];
    var s2 := Apply(c, s1, CacheProcessing("j", Succeeds));
    assert s2.tasks == StoredState(c).tasks && s2.cache == StoredState(c).cache;
  }

  lemma Spawned(c: Config, delay: Time)
    ensures var s := Apply(c, StoredState(c), Advance(delay));
            Enabled(s, Spawn("j"))
            && Enabled(Apply(c, s, Spawn("j")), Start("j"))
            && Apply(c, Apply(c, s, Spawn("j")), Start("j")) == WaitingState(c, delay)
  {
    var s := Apply(c, StoredState(c), Advance(delay));
    var s1 := Apply(c, s, Spawn("j"));
    assert s1.tasks == map["j" := Task(Counting(true), Process.Spawned, 0, delay + c.jobMaxDuration, 0, None, {Processing})];
    var s2 := Apply(c, s1, Start("j"));
    assert s2.tasks == WaitingState(c, delay).tasks;
  }

  lemma ToWaiting(c: Config, delay: Time) returns (t: Trace)
    ensures t.Valid(c) && t.Last() == WaitingState(c, delay) && AllSucceed(t.acts)
  {
    t := Then(c, EMPTY_TRACE, Action.Submit("j"));
    Stored(c, t.Last());
    t := Then(c, t, StoreJob("j", Succeeds));
    t := Then(c, t, CacheProcessing("j", Succeeds));
    Spawned(c, delay);
    t := Then(c, t, Advance(delay));
    t := Then(c, t, Spawn("j"));
    t := Then(c, t, Start("j"));
  }

  // ----- a call that reads processing before the update and writes it back after -----

  const EMPTY_DELIVERY := Delivery(None, EMPTY_RESPONSE)

  function HoldingState(c: Config): State {
    WaitingState(c, c.jobStatusTTL).(readers := map[0 := Reader("j", c.jobStatusTTL, Holding(Processing))])
  }

  lemma ToHolding(c: Config) returns (t: Trace)
    ensures t.Valid(c) && t.Last() == HoldingState(c) && AllSucceed(t.acts)
  {
    t := ToWaiting(c, c.jobStatusTTL);
    t := Then(c, t, Begin(0, "j"));
    t := Then(c, t, CacheRead(0, false));
    t := Then(c, t, StoreRead(0, false));
    assert t.Last().readers == HoldingState(c).readers;
  }

  function OverState(c: Config): State {
    HoldingState(c).(
      rows := map["j" := ROW0.(status := Completed)],
      cache := map["j" := Entry(Completed, 2 * c.jobStatusTTL)],
      tasks := map["j" := Task(Counting(true), After(Leaving, Completed, Success), 0,
                               c.jobStatusTTL + c.jobMaxDuration, c.jobStatusTTL + FINALIZE_TIMEOUT,
                               Some(EMPTY_DELIVERY), {Processing, Completed})])
  }

  function UpdatingState(c: Config): State {
    HoldingState(c).(
      tasks := map["j" := Task(Counting(true), Updating(Completed, Success), 0,
                               c.jobStatusTTL + c.jobMaxDuration, c.jobStatusTTL + FINALIZE_TIMEOUT,
                               Some(EMPTY_DELIVERY), {Processing})])
  }

  lemma SavedEmpty(c: Config)
    ensures var s1 := Apply(c, HoldingState(c), Receive("j", EMPTY_DELIVERY));
            Enabled(s1, Save("j", Succeeds)) && Apply(c, s1, Save("j", Succeeds)) == UpdatingState(c)
  {
    var s1 := Apply(c, HoldingState(c), Receive("j", EMPTY_DELIVERY));
    var s2 := Apply(c, s1, Save("j", Succeeds));
    assert s2.rows == HoldingState(c).rows;
    assert s2.tasks == UpdatingState(c).tasks;
  }

  lemma Finalised(c: Config)
    ensures var s3 := Apply(c, UpdatingState(c), Update("j", Succeeds));
            Enabled(s3, CacheFinal("j", Succeeds)) && Apply(c, s3, CacheFinal("j", Succeeds)) == OverState(c)
  {
    var s3 := Apply(c, UpdatingState(c), Update("j", Succeeds));
    assert s3.rows == OverState(c).rows;
    var s4 := Apply(c, s3, CacheFinal("j", Succeeds));
    assert s4.cache == OverState(c).cache;
    assert s4.tasks["j"].held == {Processing, Completed};
    assert s4.tasks == OverState(c).tasks;
  }

  lemma ToOver(c: Config) returns (t: Trace)
    ensures t.Valid(c) && t.Last() == OverState(c) && AllSucceed(t.acts)
  {
    t := ToHolding(c);
    SavedEmpty(c);
    t := Then(c, t, Receive("j", EMPTY_DELIVERY));
    t := Then(c, t, Save("j", Succeeds));
    Finalised(c);
    t := Then(c, t, Update("j", Succeeds));
    t := Then(c, t, CacheFinal("j", Succeeds));
  }

  /** A run in which nothing fails, and a call begun after completed was answered answers processing. */
  ghost predicate Regresses(c: Config, t: Trace) {
    && t.Valid(c) && AllSucceed(t.acts)
    && exists i, b, j :: 0 <= i < b < j < |t.acts| && GoesBack(t, i, b, j)
  }

  ghost predicate GoesBack(t: Trace, i: nat, b: nat, j: nat)
    requires |t.states| == |t.acts| + 1 && i < b < j < |t.acts|
  {
    && Answers(t.states, t.acts, i, "j", Completed)
    && t.acts[b].Begin? && t.acts[j].CacheRead? && t.acts[b].r == t.acts[j].r
    && Answers(t.states, t.acts, j, "j", Processing)
  }

  lemma ToSeen(c: Config) returns (t: Trace, i: nat)
    requires c.jobStatusTTL > 0
    ensures t.Valid(c) && AllSucceed(t.acts) && Answers(t.states, t.acts, i, "j", Completed) && i + 1 == |t.acts|
    ensures t.Last() == OverState(c).(readers := t.Last().readers)
    ensures t.Last().readers == HoldingState(c).readers[1 := Reader("j", c.jobStatusTTL, Answered(Completed))]
  {
    t := ToOver(c);
    t := Then(c, t, Begin(1, "j"));
    i := |t.acts|;
    t := Then(c, t, CacheRead(1, false));
    assert t.Last().readers == HoldingState(c).readers[1 := Reader("j", c.jobStatusTTL, Answered(Completed))];
  }

  lemma Reread(c: Config, s: State)
    requires c.jobStatusTTL > 0 && s == OverState(c).(readers := s.readers)
    requires s.readers == HoldingState(c).readers[1 := Reader("j", c.jobStatusTTL, Answered(Completed))]
    ensures Enabled(s, WriteBack(0, Succeeds))
    ensures var s1 := Apply(c, s, WriteBack(0, Succeeds));
            Enabled(s1, Begin(2, "j"))
            && var s2 := Apply(c, s1, Begin(2, "j"));
            Enabled(s2, CacheRead(2, false))
            && var s3 := Apply(c, s2, CacheRead(2, false));
            2 in s3.readers && s3.readers[2] == Reader("j", c.jobStatusTTL, Answered(Processing))
  {
  }

  lemma ToReread(c: Config) returns (t: Trace, i: nat)
    requires c.jobStatusTTL > 0
    ensures t.Valid(c) && AllSucceed(t.acts) && Answers(t.states, t.acts, i, "j", Completed) && i + 3 == |t.acts|
    ensures t.acts[i + 2] == Begin(2, "j")
    ensures Enabled(t.Last(), CacheRead(2, false))
    ensures var s := Apply(c, t.Last(), CacheRead(2, false));
            2 in s.readers && s.readers[2] == Reader("j", c.jobStatusTTL, Answered(Processing))
  {
    t, i := ToSeen(c);
    Reread(c, t.Last());
    var t0 := t;
    t := Then(c, t, WriteBack(0, Succeeds));
    t := Then(c, t, Begin(2, "j"));
    assert t.states[i + 1] == t0.states[i + 1] && t.acts[i] == t0.acts[i];
  }

  /**
    Monotone observation needs its side condition on readers: whatever the durations, a fault-free
    run exists in which the answers go from completed back to processing.
   */
  lemma AnswersCanRegress(c: Config)
    requires c.jobStatusTTL > 0
    ensures exists t :: Regresses(c, t)
  {
    var t0, i := ToReread(c);
    var t := Then(c, t0, CacheRead(2, false));
    assert t.states[i + 1] == t0.states[i + 1] && t.acts[i] == t0.acts[i] && t.acts[i + 2] == t0.acts[i + 2];
    assert GoesBack(t, i, i + 2, i + 3);
    assert Regresses(c, t);
  }
}
