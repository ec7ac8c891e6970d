/**
  The relational store: internal/storage/postgres/postgres.go over the tables of
  internal/storage/postgres/migrations. Keys, foreign keys, checks and cascades are those of the
  migrations; a JSON column is taken to read back the value that was written.
 */
module Postgres {
  import opened Domain

  datatype JobRow = JobRow(status: JobStatus, userId: int, createdAt: Time, updatedAt: Time)
  datatype ArchiveCols = ArchiveCols(
    archive: Option<Bytes>,
    genCount: int,
    genErrors: seq<FilesErrors>,
    fatalGenError: string)

  datatype Tables = Tables(
    users: set<int>,
    jobs: map<JobId, JobRow>,
    archives: map<JobId, ArchiveCols>,
    inputs: map<JobId, Bytes>)

  /** What pgx reports. */
  datatype PgFailure = NoRows | Code(sqlState: string) | Unknown

  const UNIQUE_VIOLATION := "23505"
  const FOREIGN_KEY_VIOLATION := "23503"
  const CHECK_VIOLATION := "23514"

  function NewDomainErrFromPgx(f: PgFailure): AppError {
    match f
    case NoRows => ErrNotFound
    case Unknown => ErrInternal
    case Code(state) => if state == UNIQUE_VIOLATION then ErrConflict else ErrBadRequest
  }

  /** Every archive and every input archive refers to a job, and every job to a user. */
  predicate Consistent(t: Tables) {
    && t.archives.Keys <= t.jobs.Keys
    && t.inputs.Keys <= t.jobs.Keys
    && forall id :: id in t.jobs ==> t.jobs[id].userId in t.users && !t.jobs[id].status.Other?
  }

  // ----- statements -----

  function InsertJobFails(t: Tables, id: JobId, status: JobStatus, user: int): Option<PgFailure> {
    if status.Other? then Some(Code(CHECK_VIOLATION))
    else if id in t.jobs then Some(Code(UNIQUE_VIOLATION))
    else if user !in t.users then Some(Code(FOREIGN_KEY_VIOLATION))
    else None
  }

  function InsertJob(t: Tables, id: JobId, status: JobStatus, user: int, now: Time): Tables {
    if InsertJobFails(t, id, status, user).Some? then t
    else t.(jobs := t.jobs[id := JobRow(status, user, now, now)])
  }

  function UpdateJobFails(t: Tables, id: JobId, status: JobStatus): Option<PgFailure> {
    if status.Other? && id in t.jobs then Some(Code(CHECK_VIOLATION)) else None
  }

  function UpdateJobRow(t: Tables, id: JobId, status: JobStatus, now: Time): Tables {
    if UpdateJobFails(t, id, status).Some? || id !in t.jobs then t
    else t.(jobs := t.jobs[id := t.jobs[id].(status := status, updatedAt := now)])
  }

  function InsertArchiveFails(t: Tables, id: JobId, d: Delivery): Option<PgFailure> {
    if d.response.genCount < 0 then Some(Code(CHECK_VIOLATION))
    else if id in t.archives then Some(Code(UNIQUE_VIOLATION))
    else if id !in t.jobs then Some(Code(FOREIGN_KEY_VIOLATION))
    else None
  }

  function Columns(d: Delivery): ArchiveCols {
    ArchiveCols(d.response.archive, d.response.genCount, d.response.errors, TextOf(d.err))
  }

  function InsertArchive(t: Tables, id: JobId, d: Delivery): Tables {
    if InsertArchiveFails(t, id, d).Some? then t else t.(archives := t.archives[id := Columns(d)])
  }

  function InsertInputFails(t: Tables, id: JobId): Option<PgFailure> {
    if id in t.inputs then Some(Code(UNIQUE_VIOLATION))
    else if id !in t.jobs then Some(Code(FOREIGN_KEY_VIOLATION))
    else None
  }

  function InsertInput(t: Tables, id: JobId, archive: Bytes): Tables {
    if InsertInputFails(t, id).Some? then t else t.(inputs := t.inputs[id := archive])
  }

  /** The cleanup's DELETE, with its cascades. */
  function DeleteOld(t: Tables, now: Time, ttl: Time): Tables {
    var jobs := map id | id in t.jobs && !(now - t.jobs[id].createdAt > ttl) :: t.jobs[id];
    t.(jobs := jobs,
       archives := map id | id in t.archives && id in jobs :: t.archives[id],
       inputs := map id | id in t.inputs && id in jobs :: t.inputs[id])
  }

  function StatusOf(t: Tables, id: JobId): Result<JobStatus> {
    if id in t.jobs then Ok(t.jobs[id].status) else Err(NewDomainErrFromPgx(NoRows))
  }

  /** archives JOIN jobs: no row unless both tables have one. */
  function ArchiveOf(t: Tables, id: JobId): Result<ArchiveRow> {
    if id in t.archives && id in t.jobs
    then Ok(ArchiveRow(t.jobs[id].status, t.archives[id].archive, t.archives[id].fatalGenError))
    else Err(NewDomainErrFromPgx(NoRows))
  }

  function InfoOf(t: Tables, id: JobId): Result<ArchiveInfo> {
    if id in t.archives && id in t.jobs
    then Ok(ArchiveInfo(t.jobs[id].status, t.archives[id].genErrors, t.archives[id].genCount, t.archives[id].fatalGenError))
    else Err(NewDomainErrFromPgx(NoRows))
  }

  function Answered(f: Option<PgFailure>): Result<()> {
    if f.Some? then Err(NewDomainErrFromPgx(f.value)) else Ok(())
  }

  /** All three tables say the same about `id`. */
  predicate SameJob(t: Tables, t': Tables, id: JobId) {
    && (id in t.jobs <==> id in t'.jobs) && (id in t.jobs ==> t.jobs[id] == t'.jobs[id])
    && (id in t.archives <==> id in t'.archives) && (id in t.archives ==> t.archives[id] == t'.archives[id])
    && (id in t.inputs <==> id in t'.inputs) && (id in t.inputs ==> t.inputs[id] == t'.inputs[id])
  }

  class StorageGenerator {
    var tables: Tables
    const jobTTL: Time

    constructor (ttl: Time, users: set<int>)
      ensures tables == Tables(users, map[], map[], map[]) && jobTTL == ttl
    {
      tables := Tables(users, map[], map[], map[]);
      jobTTL := ttl;
    }

    method StoreJob(job: Job, userId: int, now: Time) returns (r: Result<()>)
      modifies this`tables
      ensures r == Answered(InsertJobFails(old(tables), job.id, job.status, userId))
      ensures tables == InsertJob(old(tables), job.id, job.status, userId, now)
      ensures if job.status.Other? then r == Err(ErrBadRequest)
              else if job.id in old(tables).jobs then r == Err(ErrConflict)
              else if userId !in old(tables).users then r == Err(ErrBadRequest)
              else r == Ok(()) && StatusOf(tables, job.id) == Ok(job.status)
      ensures r.Err? ==> tables == old(tables)
    {
      var failure := InsertJobFails(tables, job.id, job.status, userId);
      tables := InsertJob(tables, job.id, job.status, userId, now);
      if failure.Some? {
        return Err(NewDomainErrFromPgx(failure.value));
      }
      return Ok(());
    }

    /** No error when no row matches. */
    method UpdateJob(job: Job, now: Time) returns (r: Result<()>)
      modifies this`tables
      ensures r == Answered(UpdateJobFails(old(tables), job.id, job.status))
      ensures tables == UpdateJobRow(old(tables), job.id, job.status, now)
      ensures job.id !in old(tables.jobs) ==> r == Ok(()) && tables == old(tables)
      ensures job.id in old(tables.jobs) && job.status.Other? ==> r == Err(ErrBadRequest) && tables == old(tables)
      ensures job.id in old(tables.jobs) && !job.status.Other? ==>
                && r == Ok(()) && StatusOf(tables, job.id) == Ok(job.status)
                && tables.jobs - {job.id} == old(tables.jobs) - {job.id}
                && tables.jobs[job.id]
                   == JobRow(job.status, old(tables.jobs)[job.id].userId, old(tables.jobs)[job.id].createdAt, now)
                && tables.archives == old(tables.archives) && tables.inputs == old(tables.inputs)
    {
      var failure := UpdateJobFails(tables, job.id, job.status);
      tables := UpdateJobRow(tables, job.id, job.status, now);
      if failure.Some? {
        return Err(NewDomainErrFromPgx(failure.value));
      }
      return Ok(());
    }

    /** A failing commit is logged and answered with success. */
    method SaveResponse(job: Job, response: GenResponse, fatalGenErr: Option<string>, begin: Option<PgFailure>, commit: bool)
        returns (r: Result<()>)
      modifies this`tables
      ensures begin.Some? ==> r == Err(NewDomainErrFromPgx(begin.value)) && tables == old(tables)
      ensures begin.None? ==>
                && r == Answered(InsertArchiveFails(old(tables), job.id, Delivery(fatalGenErr, response)))
                && tables == if commit
                             then InsertArchive(old(tables), job.id, Delivery(fatalGenErr, response))
                             else old(tables)
      ensures begin == Some(NoRows) ==> r == Err(ErrNotFound)
      ensures begin == Some(Unknown) ==> r == Err(ErrInternal)
      ensures begin.Some? && begin.value.Code? ==>
                r == if begin.value.sqlState == "23505" then Err(ErrConflict) else Err(ErrBadRequest)
      ensures begin.None? ==>
                if response.genCount < 0 then r == Err(ErrBadRequest)
                else if job.id in old(tables).archives then r == Err(ErrConflict)
                else if job.id !in old(tables).jobs then r == Err(ErrBadRequest)
                else r == Ok(())
      ensures r.Err? ==> tables == old(tables)
      ensures r.Ok? ==> (job.id in tables.archives <==> commit)
      ensures r.Ok? && commit ==> tables.archives[job.id] == Columns(Delivery(fatalGenErr, response))
    {
      if begin.Some? {
        return Err(NewDomainErrFromPgx(begin.value));
      }
      var failure := InsertArchiveFails(tables, job.id, Delivery(fatalGenErr, response));
      var pending := InsertArchive(tables, job.id, Delivery(fatalGenErr, response));
      if failure.Some? {
        return Err(NewDomainErrFromPgx(failure.value));
      }
      if commit {
        tables := pending;
      }
      return Ok(());
    }

    method SaveRawArchive(id: JobId, archive: Bytes) returns (r: Result<()>)
      modifies this`tables
      ensures r == Answered(InsertInputFails(old(tables), id))
      ensures tables == InsertInput(old(tables), id, archive)
      ensures if id in old(tables).inputs then r == Err(ErrConflict)
              else if id !in old(tables).jobs then r == Err(ErrBadRequest)
              else r == Ok(()) && id in tables.inputs && tables.inputs[id] == archive
      ensures r.Err? ==> tables == old(tables)
    {
      var failure := InsertInputFails(tables, id);
      tables := InsertInput(tables, id, archive);
      if failure.Some? {
        return Err(NewDomainErrFromPgx(failure.value));
      }
      return Ok(());
    }

    /** One tick of the cleanup loop; a failing begin, statement or commit leaves everything. */
    method CleanUp(now: Time, fails: bool)
      modifies this`tables
      ensures fails ==> tables == old(tables)
      ensures !fails ==> tables == DeleteOld(old(tables), now, jobTTL)
      ensures !fails ==> forall id :: id in tables.jobs <==>
                           id in old(tables.jobs) && now <= old(tables.jobs)[id].createdAt + jobTTL
      ensures forall id :: id in tables.jobs ==> id in old(tables.jobs) && SameJob(tables, old(tables), id)
      ensures !fails ==> Consistent(old(tables)) ==> Consistent(tables)
    {
      if !fails {
        tables := DeleteOld(tables, now, jobTTL);
      }
    }

    method CheckJobStatus(id: JobId) returns (r: Result<JobStatus>)
      ensures r == StatusOf(tables, id)
      ensures id !in tables.jobs ==> r == Err(ErrNotFound)
    {
      r := StatusOf(tables, id);
    }

    method GetArchive(id: JobId) returns (r: Result<ArchiveRow>)
      ensures r == ArchiveOf(tables, id)
      ensures id !in tables.jobs || id !in tables.archives ==> r == Err(ErrNotFound)
    {
      r := ArchiveOf(tables, id);
    }

    method GetArchiveInfo(id: JobId) returns (r: Result<ArchiveInfo>)
      ensures r == InfoOf(tables, id)
      ensures id !in tables.jobs || id !in tables.archives ==> r == Err(ErrNotFound)
    {
      r := InfoOf(tables, id);
    }
  }

  /** Every statement keeps the tables consistent, cascading cleanup included. */
  lemma StatementsKeepConsistent(
      t: Tables, id: JobId, status: JobStatus, user: int, d: Delivery, raw: Bytes, now: Time, ttl: Time)
    requires Consistent(t)
    ensures Consistent(InsertJob(t, id, status, user, now))
    ensures Consistent(UpdateJobRow(t, id, status, now))
    ensures Consistent(InsertArchive(t, id, d))
    ensures Consistent(InsertInput(t, id, raw))
    ensures Consistent(DeleteOld(t, now, ttl))
  {
  }
}
