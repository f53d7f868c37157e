/** The attendance page's scan (`AttendancePage.handleDeepFaceCheck`,
    frontend/src/App.jsx:247-304): capture a frame, post it to `/verify`,
    classify the reply, show a result panel and, on success only, record one
    log entry. */
module Verification {
  import opened Json
  import opened Wrappers
  import opened Http
  import opened AttendanceLog

  const DefaultRejection: string := "Wajah tidak dikenali."
  const ConnectionFailure: string := "Gagal koneksi server."
  const TimestampKey: string := "timestamp"

  /** The two options of the model selector. */
  const Facenet: string := "facenet"
  const Facenet512: string := "facenet512"

  /** The body posted to `/verify`: the frame as a data URL and the model. */
  datatype VerifyRequest = VerifyRequest(image: string, model: string)

  /** How one scan ends. */
  datatype Verdict =
    | Accepted(entry: Entry)     // `status === 'success'`
    | Rejected(message: Value)   // a reply with any other status
    | Unreachable                // the `catch` branch

  /** The page's `result` state: `{status: 'success', data}` or
      `{status: 'failed', message}`. */
  datatype Panel = SuccessPanel(data: Entry) | FailedPanel(message: Value)

  /** `{ ...data, timestamp: now }`: every field of the server's `data`,
      with `timestamp` added (or replaced). */
  function Stamped(data: map<string, Value>, now: string): (e: Entry)
    ensures e.Keys == data.Keys + {TimestampKey}
    ensures e[TimestampKey] == Str(now)
    ensures forall k :: k in data && k != TimestampKey ==> e[k] == data[k]
  {
    data[TimestampKey := Str(now)]
  }

  /** The verdict of one scan, by the reply the awaited calls produced. */
  function Classify(reply: Transport, now: string): (v: Verdict)
    ensures v.Accepted? <==> Read(reply).Succeeded?
    ensures v.Unreachable? <==> reply.NetworkError? || reply.body.None? || reply.body.value.Null?
    ensures v.Accepted? ==> v.entry == Stamped(Spread(Member(reply.body.value, "data")), now)
    ensures v.Rejected? ==>
      var m := Member(reply.body.value, "message");
      !m.Throws? && v.message == if Truthy(m) then m.value else Str(DefaultRejection)
  {
    match Read(reply)
    case Succeeded(body) => Accepted(Stamped(Spread(Member(body, "data")), now))
    case Refused(body) =>
      var m := MessageOf(body);
      Rejected(if Truthy(m) then m.value else Str(DefaultRejection))
    case Broken => Unreachable
  }

  /** The panel shown for a verdict. */
  function PanelOf(v: Verdict): (p: Panel)
    ensures p.SuccessPanel? <==> v.Accepted?
    ensures v.Accepted? ==> p.data == v.entry
    ensures v.Rejected? ==> p.message == v.message
    ensures v.Unreachable? ==> p.message == Str(ConnectionFailure)
  {
    match v
    case Accepted(e) => SuccessPanel(e)
    case Rejected(m) => FailedPanel(m)
    case Unreachable => FailedPanel(Str(ConnectionFailure))
  }

  /** Only a success panel shows the recognised entry, and a failed panel
      always has a message to show. */
  lemma PanelOfShowsOutcome(reply: Transport, now: string)
    ensures PanelOf(Classify(reply, now)).SuccessPanel? <==> Read(reply).Succeeded?
    ensures PanelOf(Classify(reply, now)).FailedPanel? ==>
      Truthy(Found(PanelOf(Classify(reply, now)).message))
  {
  }

  class AttendancePage {
    const app: App
    var model: string
    var isProcessing: bool
    var result: Option<Panel>

    ghost predicate Valid()
      reads this, app, app.store
    {
      app.Valid() && (model == Facenet || model == Facenet512)
    }

    constructor (app: App)
      requires app.Valid()
      ensures this.app == app && Valid()
      ensures model == Facenet && !isProcessing && result == None
    {
      this.app := app;
      model := Facenet;
      isProcessing := false;
      result := None;
    }

    /** The model selector offers exactly two options. */
    method SelectModel(m: string)
      requires Valid()
      requires m == Facenet || m == Facenet512
      modifies this
      ensures Valid() && model == m
      ensures isProcessing == old(isProcessing) && result == old(result)
    {
      model := m;
    }

    /** The part of `handleDeepFaceCheck` before the request is awaited. The
        scan button is disabled while a scan is in flight (line 328), so a
        scan only starts when none is pending. `frame` stands for the canvas
        snapshot of the video. */
    method StartScan(videoPresent: bool, frame: string) returns (request: Option<VerifyRequest>)
      requires Valid() && !isProcessing
      modifies this
      ensures Valid() && model == old(model)
      ensures !videoPresent ==> request == None && !isProcessing && result == old(result)
      ensures videoPresent ==> request == Some(VerifyRequest(frame, model)) && isProcessing && result == None
    {
      if !videoPresent {
        return None;
      }
      isProcessing := true;
      result := None;
      request := Some(VerifyRequest(frame, model));
    }

    /** The part of `handleDeepFaceCheck` after the request settles: the
        backend is marked reachable once `fetch` resolves, unreachable again if
        anything throws; only a success reply is recorded, exactly once; the
        busy flag is cleared on every path. */
    method FinishScan(reply: Transport, now: string)
      requires Valid() && isProcessing
      modifies this, app, app.store
      ensures Valid() && !isProcessing && model == old(model)
      ensures result == Some(PanelOf(Classify(reply, now)))
      ensures app.serverStatus <==> !Classify(reply, now).Unreachable?
      ensures app.logs == match Classify(reply, now)
        case Accepted(e) => Recorded(old(app.logs), e)
        case _ => old(app.logs)
      ensures app.store.items == old(app.store.items)[LogKey := app.logs]
    {
      var v := Classify(reply, now);
      if reply.Responded? {
        app.serverStatus := true;
      }
      match v {
        case Accepted(e) =>
          result := Some(SuccessPanel(e));
          app.RecordAttendance(e);
        case Rejected(m) =>
          result := Some(FailedPanel(m));
        case Unreachable =>
          app.serverStatus := false;
          result := Some(FailedPanel(Str(ConnectionFailure)));
      }
      isProcessing := false;
    }
  }

  /** One scan, start to finish, changes the log by at most one entry, and by
      one exactly when the server said `success`. */
  method Scan(page: AttendancePage, frame: string, reply: Transport, now: string)
    requires page.Valid() && !page.isProcessing
    modifies page, page.app, page.app.store
    ensures page.Valid() && !page.isProcessing
    ensures |page.app.logs| == |old(page.app.logs)| + (if Read(reply).Succeeded? then 1 else 0)
    ensures page.app.logs[|page.app.logs| - |old(page.app.logs)|..] == old(page.app.logs)
  {
    var request := page.StartScan(true, frame);
    page.FinishScan(reply, now);
  }
}
