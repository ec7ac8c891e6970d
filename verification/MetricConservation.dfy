/** The submission counters, the in-progress gauge and the processing observations add up. */
module MetricConservation {
  import opened Domain
  import opened Protocol
  import opened ProtocolSafety

  function Where(tasks: map<JobId, Task>, p: Task -> bool): set<JobId> {
    set id | id in tasks && p(tasks[id])
  }

  lemma WhereUpdated(tasks: map<JobId, Task>, id: JobId, t: Task, p: Task -> bool)
    ensures |Where(tasks[id := t], p)|
         == |Where(tasks, p)| - (if id in tasks && p(tasks[id]) then 1 else 0) + (if p(t) then 1 else 0)
  {
    var rest := Where(tasks, p) - {id};
    assert Where(tasks[id := t], p) == if p(t) then rest + {id} else rest;
  }

  predicate Accepted(t: Task) { t.submit == Returned(true) }
  predicate Accepting(t: Task) { t.submit == Counting(true) }
  predicate Rejected(t: Task) { t.submit == Returned(false) }
  predicate Underway(t: Task) { !t.submit.Returned? }
  predicate Queued(t: Task) { t.process.Spawned? }
  predicate InStage(t: Task, stage: Stage) { t.process.After? && t.process.stage == stage }
  predicate Running(t: Task) {
    || t.process.Waiting? || t.process.Saving? || t.process.Updating?
    || InStage(t, Publishing) || InStage(t, Leaving)
  }
  predicate Unobserved(t: Task) { InStage(t, Observing) }
  predicate Succeeded(t: Task) { InStage(t, Finished) && t.process.result.Success? }
  predicate Errored(t: Task) { InStage(t, Finished) && t.process.result.Error? }

  /** Each metric counts the jobs at a set of program points. */
  ghost predicate Counts(s: State) {
    && s.metrics.submittedOk == |Where(s.tasks, Accepted)|
    && s.metrics.inProgress == |Where(s.tasks, Running)|
    && s.metrics.observedSuccess == |Where(s.tasks, Succeeded)|
    && s.metrics.observedError == |Where(s.tasks, Errored)|
  }

  predicate OnTask(a: Action) {
    !(a.Advance? || a.Cleanup? || a.Drop? || a.SubmitWithoutId? || ByReader(a))
  }

  lemma StepTouchesOneTask(c: Config, s: State, a: Action)
    requires Enabled(s, a)
    ensures !OnTask(a) ==> Apply(c, s, a).tasks == s.tasks
    ensures OnTask(a) ==> a.id in Apply(c, s, a).tasks
                          && Apply(c, s, a).tasks == s.tasks[a.id := Apply(c, s, a).tasks[a.id]]
  {
  }

  /** The change in a count when one task moves. */
  function Change(s: State, s': State, id: JobId, p: Task -> bool): int
    requires id in s'.tasks
  {
    (if p(s'.tasks[id]) then 1 else 0) - (if id in s.tasks && p(s.tasks[id]) then 1 else 0)
  }

  lemma CountChanges(s: State, s': State, id: JobId, p: Task -> bool)
    requires id in s'.tasks && s'.tasks == s.tasks[id := s'.tasks[id]]
    ensures |Where(s'.tasks, p)| == |Where(s.tasks, p)| + Change(s, s', id, p)
  {
    WhereUpdated(s.tasks, id, s'.tasks[id], p);
  }

  lemma StepCountsEntries(c: Config, s: State, a: Action)
    requires Enabled(s, a) && OnTask(a) && (a.id in s.tasks ==> JobOk(s, a.id))
    ensures a.id in Apply(c, s, a).tasks
    ensures Apply(c, s, a).metrics.submittedOk == s.metrics.submittedOk + Change(s, Apply(c, s, a), a.id, Accepted)
    ensures Apply(c, s, a).metrics.inProgress == s.metrics.inProgress + Change(s, Apply(c, s, a), a.id, Running)
  {
  }

  lemma StepCountsExits(c: Config, s: State, a: Action)
    requires Enabled(s, a) && OnTask(a) && (a.id in s.tasks ==> JobOk(s, a.id))
    ensures a.id in Apply(c, s, a).tasks
    ensures Apply(c, s, a).metrics.observedSuccess
         == s.metrics.observedSuccess + Change(s, Apply(c, s, a), a.id, Succeeded)
    ensures Apply(c, s, a).metrics.observedError == s.metrics.observedError + Change(s, Apply(c, s, a), a.id, Errored)
  {
  }

  lemma StepKeepsCounts(c: Config, s: State, a: Action)
    requires Inv(s) && Counts(s) && Enabled(s, a)
    ensures Counts(Apply(c, s, a))
  {
    StepTouchesOneTask(c, s, a);
    if OnTask(a) {
      assert JobOk(s, a.id);
      StepCountsEntries(c, s, a);
      StepCountsExits(c, s, a);
      var s' := Apply(c, s, a);
      CountChanges(s, s', a.id, Accepted);
      CountChanges(s, s', a.id, Running);
      CountChanges(s, s', a.id, Succeeded);
      CountChanges(s, s', a.id, Errored);
    }
  }

  lemma {:induction false} CountsHold(c: Config, ss: seq<State>, acts: seq<Action>, k: nat)
    requires IsRun(c, ss, acts) && k < |ss|
    ensures Counts(ss[k])
  {
    if k > 0 {
      CountsHold(c, ss, acts, k - 1);
      InvHolds(c, ss, acts, k - 1);
      assert StepAt(c, ss, acts, k - 1);
      StepKeepsCounts(c, ss[k - 1], acts[k - 1]);
    }
  }

  lemma OnePoint(t: Task, now: Time)
    requires TaskOk(t, now)
    ensures Accountable(t) <==> Launched(t)
  {
  }

  lemma Union(tasks: map<JobId, Task>, p: Task -> bool, q: Task -> bool, either: Task -> bool)
    requires forall t :: !(p(t) && q(t))
    requires forall t :: either(t) <==> p(t) || q(t)
    ensures |Where(tasks, either)| == |Where(tasks, p)| + |Where(tasks, q)|
  {
    assert Where(tasks, p) !! Where(tasks, q);
    assert Where(tasks, either) == Where(tasks, p) + Where(tasks, q);
  }

  predicate Accountable(t: Task) { Accepted(t) || Accepting(t) }
  predicate QueuedOrRunning(t: Task) { Queued(t) || Running(t) }
  predicate Unreported(t: Task) { QueuedOrRunning(t) || Unobserved(t) }
  predicate UnreportedOrSucceeded(t: Task) { Unreported(t) || Succeeded(t) }
  predicate Launched(t: Task) { UnreportedOrSucceeded(t) || Errored(t) }

  /** Jobs with a goroutine are those accepted or about to be counted, and each is at one point. */
  lemma Partition(tasks: map<JobId, Task>, now: Time)
    requires forall id :: id in tasks ==> TaskOk(tasks[id], now)
    ensures |Where(tasks, Accepted)| + |Where(tasks, Accepting)|
         == |Where(tasks, Queued)| + |Where(tasks, Running)| + |Where(tasks, Unobserved)|
            + |Where(tasks, Succeeded)| + |Where(tasks, Errored)|
  {
    Union(tasks, Accepted, Accepting, Accountable);
    Union(tasks, Queued, Running, QueuedOrRunning);
    Union(tasks, QueuedOrRunning, Unobserved, Unreported);
    Union(tasks, Unreported, Succeeded, UnreportedOrSucceeded);
    Union(tasks, UnreportedOrSucceeded, Errored, Launched);
    forall id | id in tasks ensures Accountable(tasks[id]) <==> Launched(tasks[id]) {
      OnePoint(tasks[id], now);
    }
    assert Where(tasks, Accountable) == Where(tasks, Launched);
  }

  /**
    In every reachable state the submissions counted as successful, plus those whose deferred
    count is pending, equal the jobs spawned but not started, plus the in-progress gauge, plus
    the jobs between the gauge's decrement and their observation, plus the observations.
   */
  lemma MetricsConserved(c: Config, ss: seq<State>, acts: seq<Action>, k: nat)
    requires IsRun(c, ss, acts) && k < |ss|
    ensures ss[k].metrics.submittedOk + |Where(ss[k].tasks, Accepting)|
         == |Where(ss[k].tasks, Queued)| + ss[k].metrics.inProgress + |Where(ss[k].tasks, Unobserved)|
            + ss[k].metrics.observedSuccess + ss[k].metrics.observedError
  {
    CountsHold(c, ss, acts, k);
    InvHolds(c, ss, acts, k);
    forall id | id in ss[k].tasks ensures TaskOk(ss[k].tasks[id], ss[k].now) {
      assert JobOk(ss[k], id);
    }
    Partition(ss[k].tasks, ss[k].now);
  }

  // ----- the submission counters -----

  /** How often no id could be generated. */
  function WithoutId(acts: seq<Action>): nat {
    if acts == [] then 0
    else WithoutId(acts[..|acts| - 1]) + if acts[|acts| - 1].SubmitWithoutId? then 1 else 0
  }

  lemma StepCountsRejections(c: Config, s: State, a: Action)
    requires Enabled(s, a)
    ensures OnTask(a) ==>
              && a.id in Apply(c, s, a).tasks
              && Apply(c, s, a).metrics.submittedError
                 == s.metrics.submittedError + Change(s, Apply(c, s, a), a.id, Rejected)
    ensures !OnTask(a) ==>
              Apply(c, s, a).metrics.submittedError == s.metrics.submittedError + if a.SubmitWithoutId? then 1 else 0
  {
  }

  lemma {:induction false} RejectionsCounted(c: Config, ss: seq<State>, acts: seq<Action>, k: nat)
    requires IsRun(c, ss, acts) && k < |ss|
    ensures ss[k].metrics.submittedError == |Where(ss[k].tasks, Rejected)| + WithoutId(acts[..k])
  {
    if k > 0 {
      RejectionsCounted(c, ss, acts, k - 1);
      assert acts[..k][..k - 1] == acts[..k - 1];
      assert StepAt(c, ss, acts, k - 1);
      StepTouchesOneTask(c, ss[k - 1], acts[k - 1]);
      StepCountsRejections(c, ss[k - 1], acts[k - 1]);
      if OnTask(acts[k - 1]) {
        CountChanges(ss[k - 1], ss[k], acts[k - 1].id, Rejected);
      }
    }
  }

  predicate AcceptedOrRejected(t: Task) { Accepted(t) || Rejected(t) }
  predicate AnySubmission(t: Task) { AcceptedOrRejected(t) || Underway(t) }

  /**
    In every reachable state the error counter stands for the submissions that returned an error
    and the failed id generations; and the two counters together for all submissions ever begun,
    but for those still under way.
   */
  lemma SubmissionsCounted(c: Config, ss: seq<State>, acts: seq<Action>, k: nat)
    requires IsRun(c, ss, acts) && k < |ss|
    ensures ss[k].metrics.submittedError == |Where(ss[k].tasks, Rejected)| + WithoutId(acts[..k])
    ensures ss[k].metrics.submittedOk + ss[k].metrics.submittedError + |Where(ss[k].tasks, Underway)|
         == |ss[k].tasks| + WithoutId(acts[..k])
  {
    RejectionsCounted(c, ss, acts, k);
    CountsHold(c, ss, acts, k);
    var tasks := ss[k].tasks;
    Union(tasks, Accepted, Rejected, AcceptedOrRejected);
    Union(tasks, AcceptedOrRejected, Underway, AnySubmission);
    assert Where(tasks, AnySubmission) == tasks.Keys;
  }

  // ----- what a success observation stands for -----

  /** A step of a run that is `id`'s UpdateJob to completed, returning no error. */
  predicate Completes(s: State, a: Action, id: JobId) {
    && a.Update? && a.id == id && a.call.Succeeds?
    && id in s.tasks && s.tasks[id].process.Updating? && s.tasks[id].process.target.Completed? && id in s.rows
  }

  ghost predicate WasCompleted(ss: seq<State>, acts: seq<Action>, k: nat, id: JobId)
    requires |ss| == |acts| + 1 && k < |ss|
  {
    exists i :: 0 <= i < k && Completes(ss[i], acts[i], id)
  }

  predicate SuccessAhead(s: State, id: JobId) {
    id in s.tasks && s.tasks[id].process.After? && s.tasks[id].process.result.Success?
  }

  lemma StepSucceeds(c: Config, s: State, a: Action, id: JobId)
    requires JobOk(s, id) && Enabled(s, a)
    ensures SuccessAhead(Apply(c, s, a), id) <==> SuccessAhead(s, id) || Completes(s, a, id)
  {
  }

  lemma {:induction false} SuccessIffCompleted(c: Config, ss: seq<State>, acts: seq<Action>, k: nat, id: JobId)
    requires IsRun(c, ss, acts) && k < |ss|
    ensures SuccessAhead(ss[k], id) <==> WasCompleted(ss, acts, k, id)
  {
    if k > 0 {
      SuccessIffCompleted(c, ss, acts, k - 1, id);
      InvHolds(c, ss, acts, k - 1);
      assert JobOk(ss[k - 1], id);
      assert StepAt(c, ss, acts, k - 1);
      StepSucceeds(c, ss[k - 1], acts[k - 1], id);
    }
  }

  /**
    The "success" observations count exactly the finished jobs whose update to completed returned
    no error; the "error" observations count the other finished jobs.
   */
  lemma SuccessObservations(c: Config, ss: seq<State>, acts: seq<Action>, k: nat)
    requires IsRun(c, ss, acts) && k < |ss|
    ensures ss[k].metrics.observedSuccess
         == |set id | id in ss[k].tasks && InStage(ss[k].tasks[id], Finished) && WasCompleted(ss, acts, k, id)|
    ensures ss[k].metrics.observedError
         == |set id | id in ss[k].tasks && InStage(ss[k].tasks[id], Finished) && !WasCompleted(ss, acts, k, id)|
  {
    CountsHold(c, ss, acts, k);
    var done := set id | id in ss[k].tasks && InStage(ss[k].tasks[id], Finished) && WasCompleted(ss, acts, k, id);
    var other := set id | id in ss[k].tasks && InStage(ss[k].tasks[id], Finished) && !WasCompleted(ss, acts, k, id);
    forall id ensures id in done <==> id in Where(ss[k].tasks, Succeeded) {
      SuccessIffCompleted(c, ss, acts, k, id);
    }
    forall id ensures id in other <==> id in Where(ss[k].tasks, Errored) {
      SuccessIffCompleted(c, ss, acts, k, id);
    }
    assert done == Where(ss[k].tasks, Succeeded);
    assert other == Where(ss[k].tasks, Errored);
  }
}
