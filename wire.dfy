/** What the web client receives for each backend reply, and how its pages
    classify it. FastAPI serialises a raised `HTTPException` as
    `{"detail": ...}` with the error status code, and every other reply as
    the returned dictionary with status 200; `fetch` resolves for both. */
module Wire {
  import opened Json
  import opened Wrappers
  import opened Http
  import S = Server
  import V = Verification

  /** The body the client parses. `percent` is the `:.2f%` formatting of the
      confidence, which is not modelled. */
  function Body(r: S.Reply, percent: real -> string): (v: Value)
    ensures v.Obj?
    ensures "detail" in v.fields <==> r.Raised?
    ensures "status" in v.fields <==> !r.Raised?
    ensures r.Done? || r.Matched? ==> v.fields["status"] == Str("success")
    ensures r.NotDone? ==> v.fields == map["status" := Str(r.status), "message" := Str(r.message)]
  {
    match r
    case Raised(_, detail) => Obj(map["detail" := Str(detail)])
    case Done(message) => Obj(map["status" := Str("success"), "message" := Str(message)])
    case Matched(nim, name, confidence, distance) =>
      Obj(map["status" := Str("success"),
               "data" := Obj(map["nim" := Str(nim), "name" := Str(name),
                                 "confidence" := Str(percent(confidence)),
                                 "distance" := Num(distance)])])
    case NotDone(status, message) => Obj(map["status" := Str(status), "message" := Str(message)])
  }

  function Delivered(r: S.Reply, percent: real -> string): Transport {
    Responded(Some(Body(r, percent)))
  }

  /** An error the backend raises (a 400, 404 or 500) has no `status`, so a
      page reads it as a refusal without a message, never as a connection
      failure: the scan shows the default rejection text and the backend
      stays marked reachable. */
  lemma RaisedIsRefusalWithoutMessage(code: nat, detail: string, percent: real -> string, now: string)
    ensures Read(Delivered(S.Raised(code, detail), percent)).Refused?
    ensures MessageOf(Body(S.Raised(code, detail), percent)) == Undefined
    ensures V.Classify(Delivered(S.Raised(code, detail), percent), now) == V.Rejected(Str(V.DefaultRejection))
  {
  }

  /** A match reaches the attendance log as an entry with the matched NIM and
      name and the receipt time, and without any `model` field, since the
      backend's success payload has none. */
  lemma MatchedEntryHasNoModel(nim: string, name: string, confidence: real, distance: real,
                               percent: real -> string, now: string)
    ensures var v := V.Classify(Delivered(S.Matched(nim, name, confidence, distance), percent), now);
      && v.Accepted?
      && "model" !in v.entry
      && v.entry.Keys == {"nim", "name", "confidence", "distance", "timestamp"}
      && v.entry["nim"] == Str(nim) && v.entry["name"] == Str(name)
      && v.entry["timestamp"] == Str(now)
  {
  }

  /** A `failed` or `error` reply shows the backend's own message when it is
      non-empty (for an unrecognised face, "Face not recognized"). */
  lemma NotDoneShowsServerMessage(status: string, message: string, percent: real -> string, now: string)
    requires status != "success" && message != ""
    ensures V.Classify(Delivered(S.NotDone(status, message), percent), now) == V.Rejected(Str(message))
  {
  }

  /** The registration and upload pages count every `Done` reply as success
      and nothing else the enrollment endpoints return. */
  lemma EnrollmentSuccessIsDone(r: S.Reply, percent: real -> string)
    requires r.Raised? || r.Done?
    ensures Read(Delivered(r, percent)).Succeeded? <==> r.Done?
  {
  }
}
