/** The two stores side by side: same calls, same instants, related contents. */
module StoreSimulation {
  import opened Domain
  import M = StorageInMemory
  import P = Postgres

  // ----- calls and the states they lead to -----

  /** `commit` says whether the relational SaveResponse's commit succeeds; the map has none. */
  datatype Op =
    | StoreJob(id: JobId, user: int)
    | UpdateJob(id: JobId, status: JobStatus)
    | SaveResponse(id: JobId, d: Delivery, commit: bool)
    | Cleanup
    | Wait(duration: Time)

  /**
    `used` and `saved` record the ids already stored and already offered a response, `given` the
    responses that found their job, and `lost` the jobs whose commit failed.
   */
  datatype World = World(
    now: Time,
    ttl: Time,
    rows: M.Rows,
    tables: P.Tables,
    used: set<JobId>,
    saved: set<JobId>,
    given: map<JobId, Delivery>,
    lost: set<JobId>)

  function Fresh(ttl: Time, users: set<int>): World {
    World(0, ttl, map[], P.Tables(users, map[], map[], map[]), {}, {}, map[], {})
  }

  /**
    What the service guarantees: fresh ids, an existing user, recognised statuses, at most one
    response per job with a count that is not negative. Module TableRuns derives it.
   */
  predicate Admissible(w: World, op: Op) {
    match op
    case StoreJob(id, user) => id !in w.used && user in w.tables.users
    case UpdateJob(_, status) => !status.Other?
    case SaveResponse(id, d, _) => id !in w.saved && d.response.genCount >= 0
    case Cleanup => true
    case Wait(_) => true
  }

  function StepSave(w: World, id: JobId, d: Delivery, commit: bool): World {
    w.(rows := M.AfterSave(w.rows, id, d),
       tables := if commit then P.InsertArchive(w.tables, id, d) else w.tables,
       saved := w.saved + {id},
       given := if id in w.rows then w.given[id := d] else w.given,
       lost := if id in w.rows && !commit then w.lost + {id} else w.lost)
  }

  function Step(w: World, op: Op): World {
    match op
    case StoreJob(id, user) =>
      w.(rows := M.AfterStore(w.rows, id, Processing, w.now),
         tables := P.InsertJob(w.tables, id, Processing, user, w.now),
         used := w.used + {id})
    case UpdateJob(id, status) =>
      w.(rows := M.AfterUpdate(w.rows, id, status), tables := P.UpdateJobRow(w.tables, id, status, w.now))
    case SaveResponse(id, d, commit) => StepSave(w, id, d, commit)
    case Cleanup =>
      w.(rows := M.AfterCleanup(w.rows, w.now, w.ttl), tables := P.DeleteOld(w.tables, w.now, w.ttl))
    case Wait(d) => w.(now := w.now + d)
  }

  predicate AllAdmissible(w: World, ops: seq<Op>)
    decreases |ops|
  {
    ops == [] || (Admissible(w, ops[0]) && AllAdmissible(Step(w, ops[0]), ops[1..]))
  }

  function AfterAll(w: World, ops: seq<Op>): World
    decreases |ops|
  {
    if ops == [] then w else AfterAll(Step(w, ops[0]), ops[1..])
  }

  lemma {:induction false} Append(w: World, ops: seq<Op>, more: seq<Op>)
    ensures AfterAll(w, ops + more) == AfterAll(AfterAll(w, ops), more)
    ensures AllAdmissible(w, ops + more) <==> AllAdmissible(w, ops) && AllAdmissible(AfterAll(w, ops), more)
    decreases |ops|
  {
    if ops == [] {
      assert ops + more == more;
    } else {
      assert (ops + more)[1..] == ops[1..] + more;
      Append(Step(w, ops[0]), ops[1..], more);
    }
  }

  // ----- the relation -----

  predicate Blank(row: M.JobData) {
    row.archive.None? && row.errors == [] && row.genCount == 0 && row.fatalError.None?
  }

  /** The row carries the response given to its job, and the tables its columns unless the commit was lost. */
  predicate SameResponse(w: World, id: JobId)
    requires id in w.rows
  {
    if id in w.given then
      && w.rows[id] == M.Saved(w.rows[id], w.given[id])
      && (id in w.tables.archives <==> id !in w.lost)
      && (id in w.tables.archives ==> w.tables.archives[id] == P.Columns(w.given[id]))
    else
      Blank(w.rows[id]) && id !in w.tables.archives
  }

  predicate Related(w: World) {
    && P.Consistent(w.tables)
    && w.rows.Keys == w.tables.jobs.Keys
    && w.rows.Keys <= w.used && w.given.Keys <= w.used && w.given.Keys <= w.saved && w.lost <= w.given.Keys
    && forall id :: id in w.rows ==> SameRow(w, id)
  }

  predicate SameRow(w: World, id: JobId)
    requires id in w.rows && id in w.tables.jobs
  {
    && w.rows[id].status == w.tables.jobs[id].status
    && w.rows[id].createdAt == w.tables.jobs[id].createdAt
    && SameResponse(w, id)
  }

  lemma StepKeepsRelated(w: World, op: Op)
    requires Related(w) && Admissible(w, op)
    ensures Related(Step(w, op))
  {
    match op
    case SaveResponse(id, d, commit) => SaveKeepsRelated(w, id, d, commit);
    case Cleanup => CleanupKeepsRelated(w);
    case _ =>
  }

  lemma SaveKeepsRelated(w: World, id: JobId, d: Delivery, commit: bool)
    requires Related(w) && Admissible(w, SaveResponse(id, d, commit))
    ensures Related(StepSave(w, id, d, commit))
  {
    forall other | other in w.rows ensures SameRow(StepSave(w, id, d, commit), other) {
      assert SameRow(w, other);
    }
  }

  lemma CleanupKeepsRelated(w: World)
    requires Related(w)
    ensures Related(Step(w, Cleanup))
  {
  }

  lemma {:induction false} RunsKeepRelated(w: World, ops: seq<Op>)
    requires Related(w) && AllAdmissible(w, ops)
    ensures Related(AfterAll(w, ops))
    decreases |ops|
  {
    if ops != [] {
      StepKeepsRelated(w, ops[0]);
      RunsKeepRelated(Step(w, ops[0]), ops[1..]);
    }
  }

  // ----- where the stores agree -----

  /** A job that was given no response, or whose response was lost: the only kind told apart on reads. */
  predicate Unsaved(w: World, id: JobId) {
    id in w.rows && (id !in w.given || id in w.lost)
  }

  /**
    After every admissible call sequence, failing commits included, the two stores answer
    CheckJobStatus alike, and answer GetArchive and GetArchiveInfo alike for exactly the jobs that
    were given a response and did not lose it; for the others the tables answer "not found" and
    the map with what it was given, or with blanks.
   */
  lemma StoresAgree(ttl: Time, users: set<int>, ops: seq<Op>, id: JobId)
    requires AllAdmissible(Fresh(ttl, users), ops)
    ensures var w := AfterAll(Fresh(ttl, users), ops);
            && M.StatusOf(w.rows, id) == P.StatusOf(w.tables, id)
            && (M.ArchiveOf(w.rows, id) == P.ArchiveOf(w.tables, id) <==> !Unsaved(w, id))
            && (M.InfoOf(w.rows, id) == P.InfoOf(w.tables, id) <==> !Unsaved(w, id))
            && (Unsaved(w, id) ==>
                  && P.ArchiveOf(w.tables, id) == Err(ErrNotFound)
                  && M.ArchiveOf(w.rows, id)
                     == if id in w.given
                        then Ok(ArchiveRow(w.rows[id].status, w.given[id].response.archive, TextOf(w.given[id].err)))
                        else Ok(ArchiveRow(w.rows[id].status, None, "")))
  {
    RunsKeepRelated(Fresh(ttl, users), ops);
  }

  /** The map has an archive to serve, completed, that the tables never got. */
  predicate HasArchive(w: World, id: JobId) {
    id in w.given && w.given[id].response.archive.Some?
  }

  /**
    The same one level up: GetArchiveInfo differs exactly for unsaved jobs, and GetArchive exactly
    for unsaved jobs that are not completed or whose archive was lost with the commit.
   */
  lemma ServiceAnswersAgree(ttl: Time, users: set<int>, ops: seq<Op>, id: JobId)
    requires AllAdmissible(Fresh(ttl, users), ops)
    ensures var w := AfterAll(Fresh(ttl, users), ops);
            && (ArchiveAnswer(M.ArchiveOf(w.rows, id)) == ArchiveAnswer(P.ArchiveOf(w.tables, id))
                <==> !(Unsaved(w, id) && (!w.rows[id].status.Completed? || HasArchive(w, id))))
            && (InfoAnswer(M.InfoOf(w.rows, id)) == InfoAnswer(P.InfoOf(w.tables, id)) <==> !Unsaved(w, id))
  {
    RunsKeepRelated(Fresh(ttl, users), ops);
  }

  /**
    The answers to the writes of an admissible sequence: alike while the job exists, whatever
    became of the commit; on a missing job SaveResponse fails in both stores and UpdateJob fails
    in the map only.
   */
  lemma WriteAnswers(ttl: Time, users: set<int>, ops: seq<Op>, op: Op)
    requires AllAdmissible(Fresh(ttl, users), ops + [op])
    ensures var w := AfterAll(Fresh(ttl, users), ops);
            match op
            case StoreJob(id, user) =>
              M.StoreResult(w.rows, id) == Ok(()) == P.Answered(P.InsertJobFails(w.tables, id, Processing, user))
            case UpdateJob(id, status) =>
              && P.Answered(P.UpdateJobFails(w.tables, id, status)) == Ok(())
              && M.PresentResult(w.rows, id) == if id in w.rows then Ok(()) else Err(ErrNotFound)
            case SaveResponse(id, d, _) =>
              && (M.PresentResult(w.rows, id).Ok? <==> P.Answered(P.InsertArchiveFails(w.tables, id, d)).Ok?)
              && (M.PresentResult(w.rows, id).Ok? <==> id in w.rows)
            case _ => true
  {
    Append(Fresh(ttl, users), ops, [op]);
    RunsKeepRelated(Fresh(ttl, users), ops);
  }

  // ----- lost commits -----

  /** The service's two reads answer from the response in `d`. */
  predicate Serves(archive: Result<ArchiveRow>, info: Result<ArchiveInfo>, d: Delivery) {
    && ArchiveAnswer(archive) == (if d.response.archive.Some? then Ok(d.response.archive) else Err(ErrNotFound))
    && InfoAnswer(info) == Ok((d.response.errors, d.response.genCount))
  }

  predicate NothingFound(archive: Result<ArchiveRow>, info: Result<ArchiveInfo>) {
    ArchiveAnswer(archive) == Err(ErrNotFound) && InfoAnswer(info) == Err(ErrNotFound)
  }

  /** What was given, and whether it was lost, stays as it is. */
  lemma {:induction false} GivenForGood(w: World, ops: seq<Op>, id: JobId)
    requires AllAdmissible(w, ops) && id in w.given && id in w.saved
    ensures id in AfterAll(w, ops).given && AfterAll(w, ops).given[id] == w.given[id]
    ensures id in AfterAll(w, ops).lost <==> id in w.lost
    decreases |ops|
  {
    if ops != [] {
      GivenForGood(Step(w, ops[0]), ops[1..], id);
    }
  }

  function Saving(before: seq<Op>, id: JobId, d: Delivery, commit: bool, after: seq<Op>): seq<Op> {
    before + [SaveResponse(id, d, commit)] + after
  }

  lemma UpToTheSave(w: World, before: seq<Op>, id: JobId, d: Delivery, commit: bool, after: seq<Op>)
    ensures var w1 := StepSave(AfterAll(w, before), id, d, commit);
            && AfterAll(w, Saving(before, id, d, commit, after)) == AfterAll(w1, after)
            && (AllAdmissible(w, Saving(before, id, d, commit, after))
                <==> && AllAdmissible(w, before)
                     && Admissible(AfterAll(w, before), SaveResponse(id, d, commit))
                     && AllAdmissible(w1, after))
  {
    var op := SaveResponse(id, d, commit);
    Append(w, before + [op], after);
    Append(w, before, [op]);
    var w0 := AfterAll(w, before);
    assert [op][1..] == [];
    assert AfterAll(w0, [op]) == Step(w0, op);
    assert AllAdmissible(w0, [op]) <==> Admissible(w0, op);
  }

  /**
    Whatever is called before and after it: a response that found its job is served by the tables
    once the job is completed if and only if its commit succeeded; otherwise they find nothing,
    although SaveResponse answered success. The map serves it in either case.
   */
  lemma ServedIffCommitted(
      ttl: Time, users: set<int>, before: seq<Op>, id: JobId, d: Delivery, commit: bool, after: seq<Op>)
    requires AllAdmissible(Fresh(ttl, users), Saving(before, id, d, commit, after))
    requires id in AfterAll(Fresh(ttl, users), before).rows
    ensures P.Answered(P.InsertArchiveFails(AfterAll(Fresh(ttl, users), before).tables, id, d)) == Ok(())
    ensures var w := AfterAll(Fresh(ttl, users), Saving(before, id, d, commit, after));
            id in w.rows && w.rows[id].status.Completed? ==>
              && Serves(M.ArchiveOf(w.rows, id), M.InfoOf(w.rows, id), d)
              && if commit then Serves(P.ArchiveOf(w.tables, id), P.InfoOf(w.tables, id), d)
                 else NothingFound(P.ArchiveOf(w.tables, id), P.InfoOf(w.tables, id))
  {
    var w0 := Fresh(ttl, users);
    UpToTheSave(w0, before, id, d, commit, after);
    RunsKeepRelated(w0, before);
    RunsKeepRelated(w0, Saving(before, id, d, commit, after));
    GivenForGood(StepSave(AfterAll(w0, before), id, d, commit), after, id);
  }

  /** `w'` is `w` but for the archive of `id`. */
  predicate SameButArchive(w: World, w': World, id: JobId) {
    && w'.now == w.now && w'.ttl == w.ttl && w'.rows == w.rows && w'.used == w.used && w'.saved == w.saved
    && w'.tables == w.tables.(archives := w.tables.archives - {id})
  }

  lemma StepKeepsSameButArchive(w: World, w': World, op: Op, id: JobId)
    requires SameButArchive(w, w', id) && id in w.saved && Admissible(w, op)
    ensures Admissible(w', op) && SameButArchive(Step(w, op), Step(w', op), id)
  {
    var t, t' := Step(w, op).tables, Step(w', op).tables;
    assert t'.archives == t.archives - {id};
  }

  lemma {:induction false} StaySameButArchive(w: World, w': World, ops: seq<Op>, id: JobId)
    requires SameButArchive(w, w', id) && id in w.saved && AllAdmissible(w, ops)
    ensures AllAdmissible(w', ops) && SameButArchive(AfterAll(w, ops), AfterAll(w', ops), id)
    decreases |ops|
  {
    if ops != [] {
      StepKeepsSameButArchive(w, w', ops[0], id);
      StaySameButArchive(Step(w, ops[0]), Step(w', ops[0]), ops[1..], id);
    }
  }

  lemma LostAtTheSave(w: World, id: JobId, d: Delivery)
    requires Related(w) && id !in w.saved
    ensures SameButArchive(StepSave(w, id, d, true), StepSave(w, id, d, false), id)
  {
    assert id !in w.tables.archives;
    assert w.tables.archives == P.InsertArchive(w.tables, id, d).archives - {id};
  }

  /**
    A lost commit is local: had it succeeded instead, the same calls would have left the same map
    and the same tables, but for that one job's archive.
   */
  lemma LostCommitIsLocal(ttl: Time, users: set<int>, before: seq<Op>, id: JobId, d: Delivery, after: seq<Op>)
    requires AllAdmissible(Fresh(ttl, users), Saving(before, id, d, true, after))
    ensures AllAdmissible(Fresh(ttl, users), Saving(before, id, d, false, after))
    ensures SameButArchive(AfterAll(Fresh(ttl, users), Saving(before, id, d, true, after)),
                           AfterAll(Fresh(ttl, users), Saving(before, id, d, false, after)), id)
  {
    var w0 := Fresh(ttl, users);
    UpToTheSave(w0, before, id, d, true, after);
    UpToTheSave(w0, before, id, d, false, after);
    RunsKeepRelated(w0, before);
    var w := AfterAll(w0, before);
    LostAtTheSave(w, id, d);
    StaySameButArchive(StepSave(w, id, d, true), StepSave(w, id, d, false), after, id);
  }
}
