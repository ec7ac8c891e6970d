/** The in-memory store: internal/storage/storage_in_memory/storage.go. */
module StorageInMemory {
  import opened Domain

  datatype JobData = JobData(
    status: JobStatus,
    archive: Option<Bytes>,
    errors: seq<FilesErrors>,
    genCount: int,
    createdAt: Time,
    fatalError: Option<string>)
  type Rows = map<JobId, JobData>

  datatype UserData = UserData(id: nat, name: string, passwordHash: Bytes, createdAt: Time)
  type Users = map<string, UserData>

  // ----- what each operation does to the job map -----

  function StoreResult(rows: Rows, id: JobId): Result<()> {
    if id in rows then Err(ErrConflict) else Ok(())
  }

  function AfterStore(rows: Rows, id: JobId, status: JobStatus, now: Time): Rows {
    if id in rows then rows else rows[id := JobData(status, None, [], 0, now, None)]
  }

  /** UpdateJob and SaveResponse fail alike on a missing job. */
  function PresentResult(rows: Rows, id: JobId): Result<()> {
    if id in rows then Ok(()) else Err(ErrNotFound)
  }

  function AfterUpdate(rows: Rows, id: JobId, status: JobStatus): Rows {
    if id in rows then rows[id := rows[id].(status := status)] else rows
  }

  function Saved(row: JobData, d: Delivery): JobData {
    row.(archive := d.response.archive,
         errors := d.response.errors,
         genCount := d.response.genCount,
         fatalError := d.err)
  }

  function AfterSave(rows: Rows, id: JobId, d: Delivery): Rows {
    if id in rows then rows[id := Saved(rows[id], d)] else rows
  }

  predicate OverAge(row: JobData, now: Time, ttl: Time) {
    now - row.createdAt > ttl
  }

  function AfterCleanup(rows: Rows, now: Time, ttl: Time): Rows {
    map id | id in rows && !OverAge(rows[id], now, ttl) :: rows[id]
  }

  function StatusOf(rows: Rows, id: JobId): Result<JobStatus> {
    if id in rows then Ok(rows[id].status) else Err(ErrNotFound)
  }

  function ArchiveOf(rows: Rows, id: JobId): Result<ArchiveRow> {
    if id in rows then Ok(ArchiveRow(rows[id].status, rows[id].archive, TextOf(rows[id].fatalError)))
    else Err(ErrNotFound)
  }

  function InfoOf(rows: Rows, id: JobId): Result<ArchiveInfo> {
    if id in rows
    then Ok(ArchiveInfo(rows[id].status, rows[id].errors, rows[id].genCount, TextOf(rows[id].fatalError)))
    else Err(ErrNotFound)
  }

  class MemoryStorage {
    var data: Rows
    var users: Users
    var userIDIncrement: nat
    const jobTTL: Time

    constructor (ttl: Time)
      ensures data == map[] && users == map[] && userIDIncrement == 0 && jobTTL == ttl
    {
      data := map[];
      users := map[];
      userIDIncrement := 0;
      jobTTL := ttl;
    }

    /** One pass of the cleanup ticker: deletes entries while ranging over the map. */
    method Cleanup(now: Time)
      modifies this`data
      ensures data == AfterCleanup(old(data), now, jobTTL)
    {
      var pending := data.Keys;
      while pending != {}
        invariant pending <= old(data).Keys
        invariant data == map id | id in old(data) && (id in pending || !OverAge(old(data)[id], now, jobTTL))
                          :: old(data)[id]
        decreases |pending|
      {
        var id :| id in pending;
        pending := pending - {id};
        if now - data[id].createdAt > jobTTL {
          data := data - {id};
        }
      }
    }

    method StoreJob(job: Job, now: Time) returns (r: Result<()>)
      modifies this`data
      ensures r == StoreResult(old(data), job.id)
      ensures data == AfterStore(old(data), job.id, job.status, now)
      ensures job.id in old(data) ==> r == Err(ErrConflict) && data == old(data)
      ensures job.id !in old(data) ==>
                r == Ok(()) && data == old(data)[job.id := JobData(job.status, None, [], 0, now, None)]
    {
      if job.id in data {
        return Err(ErrConflict);
      }
      data := data[job.id := JobData(job.status, None, [], 0, now, None)];
      return Ok(());
    }

    method UpdateJob(job: Job) returns (r: Result<()>)
      modifies this`data
      ensures r == PresentResult(old(data), job.id)
      ensures data == AfterUpdate(old(data), job.id, job.status)
      ensures job.id !in old(data) ==> r == Err(ErrNotFound) && data == old(data)
      ensures job.id in old(data) ==> r == Ok(()) && data == old(data)[job.id := old(data)[job.id].(status := job.status)]
    {
      if job.id !in data {
        return Err(ErrNotFound);
      }
      var jobData := data[job.id];
      data := data[job.id := jobData.(status := job.status)];
      return Ok(());
    }

    method CheckJobStatus(id: JobId) returns (r: Result<JobStatus>)
      ensures r == StatusOf(data, id)
      ensures id !in data ==> r == Err(ErrNotFound)
    {
      if id !in data {
        return Err(ErrNotFound);
      }
      return Ok(data[id].status);
    }

    /** The status carried by the job argument is overwritten locally and never stored. */
    method SaveResponse(job: Job, response: GenResponse, err: Option<string>) returns (r: Result<()>)
      modifies this`data
      ensures r == PresentResult(old(data), job.id)
      ensures data == AfterSave(old(data), job.id, Delivery(err, response))
      ensures job.id !in old(data) ==> r == Err(ErrNotFound) && data == old(data)
      ensures job.id in old(data) ==>
                && r == Ok(()) && data.Keys == old(data).Keys
                && data[job.id].status == old(data)[job.id].status
                && data[job.id].createdAt == old(data)[job.id].createdAt
                && InfoOf(data, job.id)
                   == Ok(ArchiveInfo(old(data)[job.id].status, response.errors, response.genCount, TextOf(err)))
    {
      if job.id !in data {
        return Err(ErrNotFound);
      }
      var jobData := data[job.id];
      jobData := jobData.(fatalError := err);
      jobData := jobData.(archive := response.archive);
      jobData := jobData.(errors := response.errors);
      jobData := jobData.(genCount := response.genCount);
      data := data[job.id := jobData];
      return Ok(());
    }

    method GetArchive(id: JobId) returns (r: Result<ArchiveRow>)
      ensures r == ArchiveOf(data, id)
      ensures id !in data ==> r == Err(ErrNotFound)
    {
      if id !in data {
        return Err(ErrNotFound);
      }
      var job := data[id];
      var fatalErrString := "";
      if job.fatalError.Some? {
        fatalErrString := job.fatalError.value;
      }
      return Ok(ArchiveRow(job.status, job.archive, fatalErrString));
    }

    method GetArchiveInfo(id: JobId) returns (r: Result<ArchiveInfo>)
      ensures r == InfoOf(data, id)
      ensures id !in data ==> r == Err(ErrNotFound)
    {
      if id !in data {
        return Err(ErrNotFound);
      }
      var job := data[id];
      var fatalErrString := "";
      if job.fatalError.Some? {
        fatalErrString := job.fatalError.value;
      }
      return Ok(ArchiveInfo(job.status, job.errors, job.genCount, fatalErrString));
    }

    method Register(name: string, login: string, password: Bytes, now: Time) returns (r: Result<nat>)
      modifies this`users, this`userIDIncrement
      ensures old(login in users) ==>
                r == Err(ErrConflict) && users == old(users) && userIDIncrement == old(userIDIncrement)
      ensures old(login !in users) ==>
                && r == Ok(old(userIDIncrement))
                && userIDIncrement == old(userIDIncrement) + 1
                && users == old(users)[login := UserData(old(userIDIncrement), name, password, now)]
    {
      if login in users {
        return Err(ErrConflict);
      }
      var id := userIDIncrement;
      userIDIncrement := userIDIncrement + 1;
      users := users[login := UserData(id, name, password, now)];
      return Ok(id);
    }

    method LogIn(login: string) returns (r: Result<(nat, Bytes)>)
      ensures r == if login in users then Ok((users[login].id, users[login].passwordHash)) else Err(ErrNotFound)
    {
      if login !in users {
        return Err(ErrNotFound);
      }
      return Ok((users[login].id, users[login].passwordHash));
    }
  }

  /** A cleanup pass removes exactly the over-age entries and leaves the rest unchanged. */
  lemma CleanupIsExact(rows: Rows, now: Time, ttl: Time, id: JobId)
    ensures id in AfterCleanup(rows, now, ttl) <==> id in rows && now <= rows[id].createdAt + ttl
    ensures id in AfterCleanup(rows, now, ttl) ==> AfterCleanup(rows, now, ttl)[id] == rows[id]
  {
  }
}
