/**
  The lifecycle protocol over the relational store: the store calls of any run, in their order,
  keep to what StoreSimulation asks of its callers, so the protocol's theorems carry over to the
  tables.
 */
module TableRuns {
  import opened Domain
  import opened Protocol
  import opened ProtocolSafety
  import opened StoreSimulation
  import opened ReadAnswers
  import Timing

  /** Whose job each id is, and whose SaveResponse gets its commit through. */
  datatype Setting = Setting(users: set<int>, owner: JobId -> int, commits: JobId -> bool)

  ghost predicate Owned(g: Setting) {
    forall id :: g.owner(id) in g.users
  }

  // ----- the calls that reach the store -----

  function CallsOf(g: Setting, s: State, a: Action): seq<Op>
    requires Enabled(s, a)
  {
    match a
    case Advance(d) => [Wait(d)]
    case Cleanup => [Op.Cleanup]
    case StoreJob(id, call) => if call.TakesEffect() then [Op.StoreJob(id, g.owner(id))] else []
    case Save(id, call) =>
      var out := s.tasks[id].out;
      if call.TakesEffect() && out.Some? then [SaveResponse(id, out.value, g.commits(id))] else []
    case Update(id, call) => if call.TakesEffect() then [UpdateJob(id, s.tasks[id].process.target)] else []
    case _ => []
  }

  ghost function Calls(g: Setting, c: Config, ss: seq<State>, acts: seq<Action>, k: nat): seq<Op>
    requires IsRun(c, ss, acts) && k < |ss|
  {
    if k == 0 then []
    else
      assert StepAt(c, ss, acts, k - 1);
      Calls(g, c, ss, acts, k - 1) + CallsOf(g, ss[k - 1], acts[k - 1])
  }

  /** Both stores after the at most one call of step `a`. */
  function NextStores(g: Setting, s: State, a: Action, w: World): World
    requires Enabled(s, a)
  {
    var ops := CallsOf(g, s, a);
    if ops == [] then w else Step(w, ops[0])
  }

  /** Both stores at moment `k` of a run. */
  ghost function StoresAt(g: Setting, c: Config, ss: seq<State>, acts: seq<Action>, k: nat): World
    requires IsRun(c, ss, acts) && k < |ss|
  {
    if k == 0 then Fresh(c.jobTTL, g.users)
    else
      assert StepAt(c, ss, acts, k - 1);
      NextStores(g, ss[k - 1], acts[k - 1], StoresAt(g, c, ss, acts, k - 1))
  }

  // ----- protocol state and stores in step -----

  /** How far a job's task has come, seen from the bookkeeping of the stores. */
  predicate UsedMatches(s: State, w: World, id: JobId) {
    id in w.used ==> id in s.tasks && Processing in s.tasks[id].held
  }

  predicate SavedMatches(s: State, w: World, id: JobId) {
    id in w.saved ==> id in s.tasks && (s.tasks[id].process.Updating? || s.tasks[id].process.After?)
  }

  /** The job is completed or about to be. */
  predicate Completes(t: Task) {
    Completed in t.held || (t.process.Updating? && t.process.target.Completed?)
  }

  predicate CompletesGiven(s: State, w: World, id: JobId) {
    id in s.tasks && Completes(s.tasks[id]) ==> id in w.given
  }

  predicate GivenMatches(g: Setting, s: State, w: World, id: JobId) {
    id in w.given ==> Got(s, id, w.given[id]) && (id in w.lost <==> !g.commits(id))
  }

  predicate JobMatches(g: Setting, s: State, w: World, id: JobId) {
    UsedMatches(s, w, id) && SavedMatches(s, w, id) && CompletesGiven(s, w, id) && GivenMatches(g, s, w, id)
  }

  predicate Matches(g: Setting, c: Config, s: State, w: World) {
    w.now == s.now && w.ttl == c.jobTTL && w.rows == s.rows && w.tables.users == g.users
  }

  /** No save reaches the store with a negative count: the tables' check would refuse it. */
  predicate CountOk(s: State, a: Action)
    requires Enabled(s, a)
  {
    a.Save? && a.call.TakesEffect() && s.tasks[a.id].out.Some? ==> s.tasks[a.id].out.value.response.genCount >= 0
  }

  ghost predicate CountsOk(c: Config, ss: seq<State>, acts: seq<Action>)
    requires IsRun(c, ss, acts)
  {
    forall k :: 0 <= k < |acts| ==> CountAt(c, ss, acts, k)
  }

  predicate CountAt(c: Config, ss: seq<State>, acts: seq<Action>, k: nat)
    requires |ss| == |acts| + 1 && k < |acts|
  {
    StepAt(c, ss, acts, k) && CountOk(ss[k], acts[k])
  }

  lemma OneCall(w: World, ops: seq<Op>)
    requires |ops| <= 1
    ensures AfterAll(w, ops) == if ops == [] then w else Step(w, ops[0])
    ensures AllAdmissible(w, ops) <==> ops == [] || Admissible(w, ops[0])
  {
    if ops != [] {
      assert ops[1..] == [];
    }
  }

  lemma CallsAdmissible(g: Setting, s: State, a: Action, w: World, id: JobId)
    requires Owned(g) && Enabled(s, a) && CountOk(s, a) && w.tables.users == g.users
    requires a.StoreJob? || a.Save? || a.Update? ==> id == a.id
    requires JobOk(s, id) && JobMatches(g, s, w, id)
    ensures forall op :: op in CallsOf(g, s, a) ==> Admissible(w, op)
  {
  }

  lemma StepKeepsMatch(g: Setting, c: Config, s: State, a: Action, w: World, id: JobId)
    requires Enabled(s, a) && Matches(g, c, s, w) && JobOk(s, id)
    requires a.StoreJob? || a.Save? || a.Update? ==> id == a.id
    ensures Matches(g, c, Apply(c, s, a), NextStores(g, s, a, w))
  {
  }

  /** What a step adds to the bookkeeping of the stores about `id`. */
  lemma StoresRecord(g: Setting, s: State, a: Action, w: World, id: JobId)
    requires Enabled(s, a) && JobOk(s, id) && SavedMatches(s, w, id) && GivenMatches(g, s, w, id)
    requires w.given.Keys <= w.saved && w.lost <= w.given.Keys
    ensures var w' := NextStores(g, s, a, w);
            && (id in w'.used ==> id in w.used || (a.StoreJob? && a.id == id && a.call.TakesEffect()))
            && (id in w'.saved ==> id in w.saved || (a.Save? && a.id == id))
            && GivenMatches(g, s, w', id)
            && (id in w'.given <==> id in w.given || (a.Save? && a.id == id && a.call.TakesEffect() && id in w.rows))
  {
  }

  lemma StepKeepsUsed(c: Config, s: State, a: Action, w: World, w': World, id: JobId)
    requires Enabled(s, a) && JobOk(s, id) && UsedMatches(s, w, id)
    requires id in w'.used ==> id in w.used || (a.StoreJob? && a.id == id && a.call.TakesEffect())
    ensures UsedMatches(Apply(c, s, a), w', id)
  {
  }

  lemma StepKeepsSaved(c: Config, s: State, a: Action, w: World, w': World, id: JobId)
    requires Enabled(s, a) && JobOk(s, id) && SavedMatches(s, w, id)
    requires id in w'.saved ==> id in w.saved || (a.Save? && a.id == id)
    ensures SavedMatches(Apply(c, s, a), w', id)
  {
  }

  lemma StepKeepsCompletes(c: Config, s: State, a: Action, w: World, w': World, id: JobId)
    requires Enabled(s, a) && JobOk(s, id) && CompletesGiven(s, w, id)
    requires id in w.given || (a.Save? && a.id == id && a.call.TakesEffect() && id in s.rows) ==> id in w'.given
    ensures CompletesGiven(Apply(c, s, a), w', id)
  {
  }

  lemma StepKeepsGiven(g: Setting, c: Config, s: State, a: Action, w: World, id: JobId)
    requires Enabled(s, a) && JobOk(s, id) && GivenMatches(g, s, w, id)
    ensures GivenMatches(g, Apply(c, s, a), w, id)
  {
    if id in w.given {
      StepDelivers(c, s, a, id, w.given[id]);
    }
  }

  lemma StepKeepsJobMatch(g: Setting, c: Config, s: State, a: Action, w: World, id: JobId)
    requires Enabled(s, a) && w.rows == s.rows && JobOk(s, id) && JobMatches(g, s, w, id)
    requires w.given.Keys <= w.saved && w.lost <= w.given.Keys
    ensures JobMatches(g, Apply(c, s, a), NextStores(g, s, a, w), id)
  {
    var w' := NextStores(g, s, a, w);
    StoresRecord(g, s, a, w, id);
    StepKeepsUsed(c, s, a, w, w', id);
    StepKeepsSaved(c, s, a, w, w', id);
    StepKeepsCompletes(c, s, a, w, w', id);
    StepKeepsGiven(g, c, s, a, w', id);
  }

  ghost predicate InStep(g: Setting, c: Config, s: State, w: World) {
    Matches(g, c, s, w) && Related(w) && forall id :: JobMatches(g, s, w, id)
  }

  lemma StepStaysInStep(g: Setting, c: Config, s: State, a: Action, w: World)
    requires Owned(g) && Inv(s) && Enabled(s, a) && CountOk(s, a) && InStep(g, c, s, w)
    ensures AllAdmissible(w, CallsOf(g, s, a))
    ensures InStep(g, c, Apply(c, s, a), NextStores(g, s, a, w))
  {
    var ops := CallsOf(g, s, a);
    var subject := if a.StoreJob? || a.Save? || a.Update? then a.id else "";
    assert JobOk(s, subject) && JobMatches(g, s, w, subject);
    OneCall(w, ops);
    CallsAdmissible(g, s, a, w, subject);
    StepKeepsMatch(g, c, s, a, w, subject);
    if ops != [] {
      StepKeepsRelated(w, ops[0]);
    }
    forall id ensures JobMatches(g, Apply(c, s, a), NextStores(g, s, a, w), id) {
      assert JobOk(s, id) && JobMatches(g, s, w, id);
      StepKeepsJobMatch(g, c, s, a, w, id);
    }
  }

  lemma StartsInStep(g: Setting, c: Config)
    ensures InStep(g, c, INIT, Fresh(c.jobTTL, g.users))
  {
  }

  lemma {:induction false} StaysInStep(g: Setting, c: Config, ss: seq<State>, acts: seq<Action>, k: nat)
    requires Owned(g) && IsRun(c, ss, acts) && CountsOk(c, ss, acts) && k < |ss|
    ensures InStep(g, c, ss[k], StoresAt(g, c, ss, acts, k))
  {
    if k == 0 {
      StartsInStep(g, c);
    } else {
      StaysInStep(g, c, ss, acts, k - 1);
      InvHolds(c, ss, acts, k - 1);
      assert CountAt(c, ss, acts, k - 1);
      StepStaysInStep(g, c, ss[k - 1], acts[k - 1], StoresAt(g, c, ss, acts, k - 1));
    }
  }

  /**
    The store calls of every run are admissible: ids are fresh, statuses recognised, and no job is
    given a second response. Map and tables therefore stay related, and the map is the protocol's.
   */
  lemma RunsAreAdmissible(g: Setting, c: Config, ss: seq<State>, acts: seq<Action>, k: nat)
    requires Owned(g) && IsRun(c, ss, acts) && CountsOk(c, ss, acts) && k < |ss|
    ensures AllAdmissible(Fresh(c.jobTTL, g.users), Calls(g, c, ss, acts, k))
    ensures StoresAt(g, c, ss, acts, k) == AfterAll(Fresh(c.jobTTL, g.users), Calls(g, c, ss, acts, k))
    ensures Related(StoresAt(g, c, ss, acts, k)) && StoresAt(g, c, ss, acts, k).rows == ss[k].rows
  {
    StaysInStep(g, c, ss, acts, k);
    CallsLeadThere(g, c, ss, acts, k);
  }

  lemma {:induction false} CallsLeadThere(g: Setting, c: Config, ss: seq<State>, acts: seq<Action>, k: nat)
    requires Owned(g) && IsRun(c, ss, acts) && CountsOk(c, ss, acts) && k < |ss|
    ensures AllAdmissible(Fresh(c.jobTTL, g.users), Calls(g, c, ss, acts, k))
    ensures StoresAt(g, c, ss, acts, k) == AfterAll(Fresh(c.jobTTL, g.users), Calls(g, c, ss, acts, k))
  {
    if k > 0 {
      CallsLeadThere(g, c, ss, acts, k - 1);
      StepIsAdmissible(g, c, ss, acts, k);
      OneMoreStep(g, ss[k - 1], acts[k - 1], Fresh(c.jobTTL, g.users), Calls(g, c, ss, acts, k - 1));
    }
  }

  lemma OneMoreStep(g: Setting, s: State, a: Action, start: World, before: seq<Op>)
    requires Enabled(s, a) && AllAdmissible(start, before) && AllAdmissible(AfterAll(start, before), CallsOf(g, s, a))
    ensures AllAdmissible(start, before + CallsOf(g, s, a))
    ensures AfterAll(start, before + CallsOf(g, s, a)) == NextStores(g, s, a, AfterAll(start, before))
  {
    Append(start, before, CallsOf(g, s, a));
    OneCall(AfterAll(start, before), CallsOf(g, s, a));
  }

  lemma StepIsAdmissible(g: Setting, c: Config, ss: seq<State>, acts: seq<Action>, k: nat)
    requires Owned(g) && IsRun(c, ss, acts) && CountsOk(c, ss, acts) && 0 < k < |ss|
    ensures StepAt(c, ss, acts, k - 1)
    ensures AllAdmissible(StoresAt(g, c, ss, acts, k - 1), CallsOf(g, ss[k - 1], acts[k - 1]))
  {
    StaysInStep(g, c, ss, acts, k - 1);
    InvHolds(c, ss, acts, k - 1);
    assert CountAt(c, ss, acts, k - 1);
    StepStaysInStep(g, c, ss[k - 1], acts[k - 1], StoresAt(g, c, ss, acts, k - 1));
  }

  // ----- what carries over -----

  /** If the call of step `a` reaches the store, the tables answer it as the map does, as far as the service looks. */
  predicate AnsweredAlike(g: Setting, s: State, a: Action, t: P.Tables)
    requires Enabled(s, a)
  {
    match a
    case StoreJob(id, call) => call.TakesEffect() ==>
      M.StoreResult(s.rows, id) == P.Answered(P.InsertJobFails(t, id, Processing, g.owner(id)))
    case Save(id, call) => call.TakesEffect() ==>
      s.tasks[id].out.Some?
      && (M.PresentResult(s.rows, id).Ok? <==> P.Answered(P.InsertArchiveFails(t, id, s.tasks[id].out.value)).Ok?)
    case Update(id, call) => call.TakesEffect() ==>
      M.PresentResult(s.rows, id) == P.Answered(P.UpdateJobFails(t, id, s.tasks[id].process.target))
    case StoreRead(r, fails) => !fails ==> M.StatusOf(s.rows, s.readers[r].id) == P.StatusOf(t, s.readers[r].id)
    case _ => true
  }

  predicate UpdatesMissing(s: State, a: Action) {
    a.Update? && a.call.TakesEffect() && a.id !in s.rows
  }

  lemma InStepAnswers(g: Setting, c: Config, s: State, a: Action, w: World, id: JobId)
    requires Owned(g) && Enabled(s, a) && CountOk(s, a) && Matches(g, c, s, w) && Related(w)
    requires a.StoreJob? || a.Save? || a.Update? ==> id == a.id
    requires JobOk(s, id) && JobMatches(g, s, w, id)
    ensures AnsweredAlike(g, s, a, w.tables) <==> !UpdatesMissing(s, a)
  {
  }

  /**
    In every run the tables answer every store call as the map does, the one exception being an
    UpdateJob that finds its job missing; and with punctual calls that fit into jobTTL there is
    none, so that every such run of the protocol is one over the tables.
   */
  lemma AnsweredAlikeIff(g: Setting, c: Config, delay: Time, ss: seq<State>, acts: seq<Action>, k: nat)
    requires Owned(g) && IsRun(c, ss, acts) && CountsOk(c, ss, acts) && k < |acts|
    ensures StepAt(c, ss, acts, k)
    ensures AnsweredAlike(g, ss[k], acts[k], StoresAt(g, c, ss, acts, k).tables)
       <==> !UpdatesMissing(ss[k], acts[k])
    ensures Timing.OnTimeRun(c, delay, ss, acts) && delay + c.jobMaxDuration + FINALIZE_TIMEOUT <= c.jobTTL
            ==> AnsweredAlike(g, ss[k], acts[k], StoresAt(g, c, ss, acts, k).tables)
  {
    assert CountAt(c, ss, acts, k);
    StaysInStep(g, c, ss, acts, k);
    InvHolds(c, ss, acts, k);
    var subject := if acts[k].StoreJob? || acts[k].Save? || acts[k].Update? then acts[k].id else "";
    assert JobOk(ss[k], subject) && JobMatches(g, ss[k], StoresAt(g, c, ss, acts, k), subject);
    InStepAnswers(g, c, ss[k], acts[k], StoresAt(g, c, ss, acts, k), subject);
    if Timing.OnTimeRun(c, delay, ss, acts) && delay + c.jobMaxDuration + FINALIZE_TIMEOUT <= c.jobTTL {
      Timing.PresentHolds(c, delay, ss, acts, k, subject);
    }
  }

  lemma CompletedIsGiven(g: Setting, c: Config, s: State, w: World, id: JobId, d: Delivery)
    requires Matches(g, c, s, w) && Related(w) && JobOk(s, id) && JobMatches(g, s, w, id)
    requires id in s.rows && Holds(s, id, Completed) && Got(s, id, d)
    ensures if g.commits(id) then Serves(P.ArchiveOf(w.tables, id), P.InfoOf(w.tables, id), d)
            else NothingFound(P.ArchiveOf(w.tables, id), P.InfoOf(w.tables, id))
  {
  }

  lemma AnsweredIsHeld(c: Config, ss: seq<State>, acts: seq<Action>, k: nat, m: nat, id: JobId)
    requires IsRun(c, ss, acts) && Answers(ss, acts, k, id, Completed) && k < m < |ss|
    ensures Holds(ss[m], id, Completed)
  {
    InvHolds(c, ss, acts, k + 1);
    assert ReaderOk(ss[k + 1], ss[k + 1].readers[acts[k].r]);
    HeldGrows(c, ss, acts, k + 1, m, id);
  }

  /**
    Once a status check has answered completed, the tables answer GetArchive and GetArchiveInfo
    from exactly what was delivered for that job, for as long as its row exists, if and only if
    the commit of its SaveResponse went through; if it did not, they find nothing at all.
   */
  lemma TablesAnnounceAfterSave(
      g: Setting, c: Config, ss: seq<State>, acts: seq<Action>, k: nat, m: nat, id: JobId, d: Delivery)
    requires Owned(g) && IsRun(c, ss, acts) && CountsOk(c, ss, acts)
    requires Answers(ss, acts, k, id, Completed) && k < m < |ss| && Delivered(acts, m, id, d)
    ensures var t := StoresAt(g, c, ss, acts, m).tables;
            id in t.jobs ==>
              if g.commits(id) then Serves(P.ArchiveOf(t, id), P.InfoOf(t, id), d)
              else NothingFound(P.ArchiveOf(t, id), P.InfoOf(t, id))
  {
    StaysInStep(g, c, ss, acts, m);
    InvHolds(c, ss, acts, m);
    AnsweredIsHeld(c, ss, acts, k, m, id);
    OutIsDelivered(c, ss, acts, m, id, d);
    var w := StoresAt(g, c, ss, acts, m);
    assert JobOk(ss[m], id) && JobMatches(g, ss[m], w, id);
    if id in w.tables.jobs {
      CompletedIsGiven(g, c, ss[m], w, id, d);
    }
  }

  // ----- every read of an archive -----

  lemma {:induction false} GivenIffSaved(g: Setting, c: Config, ss: seq<State>, acts: seq<Action>, k: nat, id: JobId)
    requires Owned(g) && IsRun(c, ss, acts) && CountsOk(c, ss, acts) && k < |ss|
    ensures id in StoresAt(g, c, ss, acts, k).given <==> WasSaved(ss, acts, k, id)
  {
    if k > 0 {
      var w, s, a := StoresAt(g, c, ss, acts, k - 1), ss[k - 1], acts[k - 1];
      GivenIffSaved(g, c, ss, acts, k - 1, id);
      StaysInStep(g, c, ss, acts, k - 1);
      InvHolds(c, ss, acts, k - 1);
      assert StepAt(c, ss, acts, k - 1);
      assert JobOk(s, id) && JobMatches(g, s, w, id);
      StoresRecord(g, s, a, w, id);
      WasSavedStep(ss, acts, k, id);
    }
  }

  lemma UnfinishedReads(w: World, id: JobId)
    requires Related(w) && id in w.rows && id in w.given && id !in w.lost && !w.rows[id].status.Completed?
    ensures var failed := w.rows[id].fatalError.Some? && w.rows[id].fatalError.value != "";
            var error := if failed then ErrInternal else ErrJobNotFinished;
            && ArchiveAnswer(P.ArchiveOf(w.tables, id)) == Err(error)
            && InfoAnswer(P.InfoOf(w.tables, id)) == Err(error)
  {
  }

  /**
    In every reachable state, for every job: the tables find nothing unless a response was saved
    for it and its commit went through; then they serve what was delivered once the job is
    completed, and before that report a failure if and only if a delivered error text was saved.
   */
  lemma TablesArchiveReads(g: Setting, c: Config, ss: seq<State>, acts: seq<Action>, k: nat, id: JobId)
    requires Owned(g) && IsRun(c, ss, acts) && CountsOk(c, ss, acts) && k < |ss|
    ensures var t := StoresAt(g, c, ss, acts, k).tables;
            var archive, info := ArchiveAnswer(P.ArchiveOf(t, id)), InfoAnswer(P.InfoOf(t, id));
            if id !in t.jobs || !WasSaved(ss, acts, k, id) || !g.commits(id) then
              archive == Err(ErrNotFound) && info == Err(ErrNotFound)
            else if t.jobs[id].status == Completed then
              exists d :: Delivered(acts, k, id, d) && Serves(P.ArchiveOf(t, id), P.InfoOf(t, id), d)
            else if ErrorSaved(ss, acts, k, id) then archive == Err(ErrInternal) && info == Err(ErrInternal)
            else archive == Err(ErrJobNotFinished) && info == Err(ErrJobNotFinished)
  {
    StaysInStep(g, c, ss, acts, k);
    GivenIffSaved(g, c, ss, acts, k, id);
    InvHolds(c, ss, acts, k);
    var w := StoresAt(g, c, ss, acts, k);
    assert JobOk(ss[k], id) && JobMatches(g, ss[k], w, id);
    if id in w.rows {
      assert SameRow(w, id);
      if id in w.given && g.commits(id) {
        if w.rows[id].status == Completed {
          OutIsDelivered(c, ss, acts, k, id, w.given[id]);
          CompletedIsGiven(g, c, ss[k], w, id, w.given[id]);
        } else {
          UnfinishedReads(w, id);
          ErrorSavedIff(c, ss, acts, k, id);
        }
      }
    }
  }

  /**
    A job of the tables is removed only after it has lived for more than jobTTL, and with a
    punctual ticker neither it nor anything that refers to it is left after twice that time.
   */
  lemma TablesRowLifetime(
      g: Setting, c: Config, ss: seq<State>, acts: seq<Action>, i: nat, j: nat, id: JobId)
    requires Owned(g) && IsRun(c, ss, acts) && CountsOk(c, ss, acts) && i <= j < |ss|
    requires id in StoresAt(g, c, ss, acts, i).tables.jobs
    ensures var born := StoresAt(g, c, ss, acts, i).tables.jobs[id].createdAt;
            var t := StoresAt(g, c, ss, acts, j).tables;
            && (id !in t.jobs ==> ss[j].now > born + c.jobTTL)
            && (Timing.Punctual(c, ss, acts) && ss[j].now > born + 2 * c.jobTTL
                ==> id !in t.jobs && id !in t.archives && id !in t.inputs)
  {
    StaysInStep(g, c, ss, acts, i);
    StaysInStep(g, c, ss, acts, j);
    Timing.RowLifetime(c, ss, acts, i, j, id);
  }
}
