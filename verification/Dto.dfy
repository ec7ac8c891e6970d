/** The HTTP form of archive information: internal/dto/dto.go. */
module Dto {
  import opened Domain

  datatype HttpFilesErrors = HttpFilesErrors(fileName: string, errors: seq<string>)
  datatype GetArchiveInfoResponse = GetArchiveInfoResponse(genErrs: seq<HttpFilesErrors>, genCnt: int)

  predicate SameMessages(errs: seq<FileError>, texts: seq<string>) {
    |texts| == |errs| && forall j :: 0 <= j < |errs| ==> texts[j] == errs[j].msg
  }

  predicate SameListing(files: seq<FilesErrors>, http: seq<HttpFilesErrors>) {
    && |http| == |files|
    && forall i :: 0 <= i < |files| ==> http[i].fileName == files[i].name && SameMessages(files[i].errors, http[i].errors)
  }

  method NewGetArchiveInfoResponse(grpcErrs: seq<FilesErrors>, genCnt: int) returns (r: GetArchiveInfoResponse)
    ensures SameListing(grpcErrs, r.genErrs) && r.genCnt == genCnt
  {
    var httpErrs: seq<HttpFilesErrors> := [];
    for i := 0 to |grpcErrs|
      invariant SameListing(grpcErrs[..i], httpErrs)
    {
      var fileErrs := grpcErrs[i];
      var errs: seq<string> := [];
      for j := 0 to |fileErrs.errors|
        invariant SameMessages(fileErrs.errors[..j], errs)
      {
        errs := errs + [fileErrs.errors[j].msg];
      }
      assert fileErrs.errors[..|fileErrs.errors|] == fileErrs.errors;
      httpErrs := httpErrs + [HttpFilesErrors(fileErrs.name, errs)];
    }
    assert grpcErrs[..|grpcErrs|] == grpcErrs;
    return GetArchiveInfoResponse(httpErrs, genCnt);
  }
}
