/**
  The way of the per-file errors from the worker's gRPC answer, through the client's nested
  loops, the stored form and the DTO's nested loops, to the HTTP response.
 */
module FilePipeline {
  import opened Domain
  import opened StorageInMemory
  import opened Protocol
  import opened ProtocolSafety
  import opened ReadAnswers
  import GenClient
  import Dto

  /** The HTTP answer lists the worker's files in order, each with its messages in order, and its count. */
  predicate Lists(pb: GenClient.GenerateResponse, http: Dto.GetArchiveInfoResponse) {
    && http.genCnt == pb.generatedCount
    && |http.genErrs| == |pb.errors|
    && forall i :: 0 <= i < |pb.errors| ==>
         && http.genErrs[i].fileName == pb.errors[i].fileName
         && |http.genErrs[i].errors| == |pb.errors[i].errors|
         && forall j :: 0 <= j < |pb.errors[i].errors| ==> http.genErrs[i].errors[j] == pb.errors[i].errors[j].message
  }

  lemma TranslateThenRender(pb: GenClient.GenerateResponse, d: Delivery, http: Dto.GetArchiveInfoResponse)
    requires GenClient.Translates(GenClient.Answer(pb), d)
    requires Dto.SameListing(d.response.errors, http.genErrs) && http.genCnt == d.response.genCount
    ensures Lists(pb, http)
  {
  }

  /**
    End to end, in every interleaving: if the worker's answer `pb` was delivered for a job and
    some status check has answered completed, then while the row exists the archive information
    served over HTTP lists exactly `pb`, and the archive served is exactly `pb`'s.
   */
  lemma CompletedJobServesWorkerAnswer(
      c: Config, ss: seq<State>, acts: seq<Action>, k: nat, m: nat, id: JobId,
      pb: GenClient.GenerateResponse, d: Delivery, http: Dto.GetArchiveInfoResponse)
    requires IsRun(c, ss, acts) && Answers(ss, acts, k, id, Completed) && k < m < |ss| && id in ss[m].rows
    requires Delivered(acts, m, id, d) && GenClient.Translates(GenClient.Answer(pb), d)
    ensures InfoAnswer(InfoOf(ss[m].rows, id)).Ok?
    ensures (var info := InfoAnswer(InfoOf(ss[m].rows, id)).value;
             Dto.SameListing(info.0, http.genErrs) && http.genCnt == info.1) ==> Lists(pb, http)
    ensures ArchiveAnswer(ArchiveOf(ss[m].rows, id))
         == if pb.zipArchive.Some? then Ok(pb.zipArchive) else Err(ErrNotFound)
  {
    AnnounceAfterSave(c, ss, acts, k, m, id);
    var info := InfoAnswer(InfoOf(ss[m].rows, id)).value;
    if Dto.SameListing(info.0, http.genErrs) && http.genCnt == info.1 {
      TranslateThenRender(pb, d, http);
    }
  }

  /**
    A worker call that failed is reported as such: once its outcome is saved, and while the row
    exists, both reads answer with an internal error and never with "not finished".
   */
  lemma FailedCallIsReported(
      c: Config, ss: seq<State>, acts: seq<Action>, k: nat, id: JobId, detail: string, d: Delivery)
    requires IsRun(c, ss, acts) && k < |ss| && id in ss[k].rows && WasSaved(ss, acts, k, id)
    requires Delivered(acts, k, id, d) && GenClient.Translates(GenClient.CallError(detail), d)
    ensures ArchiveAnswer(ArchiveOf(ss[k].rows, id)) == Err(ErrInternal)
    ensures InfoAnswer(InfoOf(ss[k].rows, id)) == Err(ErrInternal)
  {
    OutIsDelivered(c, ss, acts, k, id, d);
    InvHolds(c, ss, acts, k);
    assert JobOk(ss[k], id);
    var i :| 0 <= i < k && acts[i] == Receive(id, d);
    assert DeliversError(acts[i], id, d.err.value);
    ArchiveReads(c, ss, acts, k, id);
  }
}
