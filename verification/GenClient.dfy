/** The gRPC client's translation of the worker's answer: internal/gen_client/client.go. */
module GenClient {
  import opened Domain

  // Messages of proto/generator/generator.proto.
  datatype PbFileError = PbFileError(code: int32, message: string)
  datatype PbFileErrors = PbFileErrors(fileName: string, errors: seq<PbFileError>)
  datatype GenerateResponse = GenerateResponse(
    zipArchive: Option<Bytes>,
    errors: seq<PbFileErrors>,
    generatedCount: int32)

  datatype CallOutcome = Answer(response: GenerateResponse) | CallError(detail: string)

  predicate SameFileErrors(pb: seq<PbFileError>, errs: seq<FileError>) {
    && |errs| == |pb|
    && forall j :: 0 <= j < |pb| ==> errs[j].msg == pb[j].message && errs[j].code == pb[j].code
  }

  predicate SameFiles(pb: seq<PbFileErrors>, files: seq<FilesErrors>) {
    && |files| == |pb|
    && forall i :: 0 <= i < |pb| ==> files[i].name == pb[i].fileName && SameFileErrors(pb[i].errors, files[i].errors)
  }

  /** `d` is what the client goroutine hands over for a call that ended as `o`. */
  predicate Translates(o: CallOutcome, d: Delivery) {
    match o
    case Answer(pb) =>
      && d.err.None?
      && d.response.archive == pb.zipArchive
      && d.response.genCount == pb.generatedCount
      && SameFiles(pb.errors, d.response.errors)
    case CallError(_) => d.err.Some? && d.err.value != "" && d.response == EMPTY_RESPONSE
  }

  /** The pair that BulkGenerate sends, error first. */
  method BulkGenerate(o: CallOutcome) returns (d: Delivery)
    ensures Translates(o, d)
  {
    if o.CallError? {
      return Delivery(Some("can't get grpcs response: " + o.detail + ", error during generation"), EMPTY_RESPONSE);
    }
    var response := o.response;
    var data := GenResponse(response.zipArchive, [], response.generatedCount as int);
    for i := 0 to |response.errors|
      invariant data.archive == response.zipArchive && data.genCount == response.generatedCount
      invariant SameFiles(response.errors[..i], data.errors)
    {
      var file := response.errors[i];
      var fileErrors := FilesErrors(file.fileName, []);
      for j := 0 to |file.errors|
        invariant fileErrors.name == file.fileName
        invariant SameFileErrors(file.errors[..j], fileErrors.errors)
      {
        var e := FileError(file.errors[j].code as int, file.errors[j].message);
        fileErrors := fileErrors.(errors := fileErrors.errors + [e]);
      }
      assert file.errors[..|file.errors|] == file.errors;
      data := data.(errors := data.errors + [fileErrors]);
    }
    assert response.errors[..|response.errors|] == response.errors;
    return Delivery(None, data);
  }

  /** A successful outcome determines the delivery completely. */
  lemma TranslationIsUnique(pb: GenerateResponse, d: Delivery, d': Delivery)
    requires Translates(Answer(pb), d) && Translates(Answer(pb), d')
    ensures d == d'
  {
    var files, files' := d.response.errors, d'.response.errors;
    forall i | 0 <= i < |files| ensures files[i] == files'[i] {
      assert files[i].errors == files'[i].errors by {
        forall j | 0 <= j < |files[i].errors| ensures files[i].errors[j] == files'[i].errors[j] {
          var e := pb.errors[i].errors[j];
          assert files[i].errors[j] == FileError(e.code, e.message) == files'[i].errors[j];
        }
      }
    }
    assert files == files';
  }
}
