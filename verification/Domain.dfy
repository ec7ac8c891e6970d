/** The service's vocabulary: internal/domain/generator.go and internal/domain/errors.go. */
module Domain {

  datatype Option<+T> = None | Some(value: T)

  /** The sentinel errors of internal/domain/errors.go that the modelled code returns. */
  datatype AppError =
    | ErrInternal
    | ErrBadRequest
    | ErrStorageBadRequest
    | ErrNotFound
    | ErrConflict
    | ErrInvalidToken
    | ErrGenClient
    | ErrJobNotFinished
    | ErrHashComparing

  datatype Result<+T> = Ok(value: T) | Err(error: AppError)

  type JobId = string
  type Bytes = seq<bv8>
  /** Instants and durations, in nanoseconds. */
  type Time = nat
  type int32 = x: int | -0x8000_0000 <= x < 0x8000_0000

  /**
    A status is a string in the source; the three recognised texts have names here and every
    other text is `Other`.
   */
  datatype JobStatus = Processing | Completed | Failed | Other(text: string) {
    predicate Terminal() {
      Completed? || Failed?
    }
  }

  function JobStatusFromString(status: JobStatus): Result<JobStatus> {
    if status.Other? then Err(ErrInternal) else Ok(status)
  }

  datatype Job = Job(id: JobId, status: JobStatus)

  datatype FileError = FileError(code: int, msg: string)
  datatype FilesErrors = FilesErrors(name: string, errors: seq<FileError>)
  /** A nil byte slice is `None`; a nil slice of errors is the empty sequence. */
  datatype GenResponse = GenResponse(archive: Option<Bytes>, errors: seq<FilesErrors>, genCount: int)

  const EMPTY_RESPONSE := GenResponse(None, [], 0)

  /** What the client goroutine hands over: an error text or none, and a response. */
  datatype Delivery = Delivery(err: Option<string>, response: GenResponse)

  /** What a store's GetArchiveInfo returns (internal/storage/postgres/views/views.go). */
  datatype ArchiveInfo = ArchiveInfo(status: JobStatus, errors: seq<FilesErrors>, count: int, fatalGenErr: string)

  /** What a store's GetArchive returns. */
  datatype ArchiveRow = ArchiveRow(status: JobStatus, archive: Option<Bytes>, fatalGenErr: string)

  function TextOf(err: Option<string>): string {
    if err.Some? then err.value else ""
  }

  /** The service's GetArchive, as a function of what the store answered. */
  function ArchiveAnswer(row: Result<ArchiveRow>): (r: Result<Option<Bytes>>)
    ensures r.Ok? ==> row.Ok? && row.value.status.Completed? && row.value.archive.Some? && r.value == row.value.archive
    ensures row.Ok? && row.value.status.Other? ==> r == Err(ErrInternal)
  {
    match row
    case Err(e) => Err(e)
    case Ok(a) =>
      var status := JobStatusFromString(a.status);
      if status.Err? then Err(status.error)
      else if !status.value.Completed? then
        if a.fatalGenErr != "" then Err(ErrInternal) else Err(ErrJobNotFinished)
      else if a.archive.None? then Err(ErrNotFound)
      else Ok(a.archive)
  }

  /** The service's GetArchiveInfo, as a function of what the store answered. */
  function InfoAnswer(row: Result<ArchiveInfo>): (r: Result<(seq<FilesErrors>, int)>)
    ensures r.Ok? ==> row.Ok? && row.value.status.Completed? && r.value == (row.value.errors, row.value.count)
    ensures row.Ok? && row.value.status.Other? ==> r == Err(ErrInternal)
  {
    match row
    case Err(e) => Err(e)
    case Ok(a) =>
      var status := JobStatusFromString(a.status);
      if status.Err? then Err(status.error)
      else if !status.value.Completed? then
        if a.fatalGenErr != "" then Err(ErrInternal) else Err(ErrJobNotFinished)
      else Ok((a.errors, a.count))
  }
}
