/** The registration wizard (`RegisterPage`, frontend/src/App.jsx:381-439):
    step 0 collects NIM and name, steps 1-3 each capture one photo (front,
    left, right), step 4 reviews the three photos and submits them to
    `/register`. */
module Registration {
  import opened Json
  import opened Wrappers
  import opened Http

  /** The review step; no capture moves past it. */
  const ReviewStep: nat := 4

  /** The body posted to `/register`. */
  datatype RegisterRequest = RegisterRequest(nim: string, name: string, images: seq<string>)

  /** The alert shown when a registration does not succeed:
      `"Error: " + data.message` or the connection-failure text. */
  datatype Notice = ServerError(message: Prop) | ConnectionError

  /** The steps that render the video element and request the camera. */
  predicate CaptureStep(step: int): (b: bool)
    ensures b <==> 0 < step < ReviewStep
  {
    1 <= step <= 3
  }

  class RegisterPage {
    var nim: string
    var name: string
    var step: nat
    var photos: seq<string>
    var isUploading: bool
    var showSuccessModal: bool
    /** Whether the camera effect currently holds a stream. */
    var camera: bool

    /** The wizard's invariant: the step is in 0..4, each capture step has
        one photo per earlier capture step, and a stream is held only on a
        capture step. */
    ghost predicate Valid()
      reads this
    {
      && step <= ReviewStep
      && |photos| == (if step == 0 then 0 else step - 1)
      && (camera ==> CaptureStep(step))
    }

    constructor ()
      ensures Valid()
      ensures step == 0 && photos == [] && nim == "" && name == ""
      ensures !isUploading && !showSuccessModal && !camera
    {
      nim, name := "", "";
      step, photos := 0, [];
      isUploading, showSuccessModal := false, false;
      camera := false;
    }

    /** The NIM input, shown at step 0. */
    method EditNim(s: string)
      requires Valid() && step == 0
      modifies this`nim
      ensures Valid() && nim == s
    {
      nim := s;
    }

    /** The name input, shown at step 0. */
    method EditName(s: string)
      requires Valid() && step == 0
      modifies this`name
      ensures Valid() && name == s
    {
      name := s;
    }

    /** The camera effect, re-run after every change of `step`: its cleanup
        stops the previous stream, and a new one is requested only on a
        capture step. `granted` is whether the browser grants it. */
    method CameraEffect(granted: bool)
      modifies this`camera
      ensures camera <==> CaptureStep(step) && granted
    {
      camera := false;
      if CaptureStep(step) && granted {
        camera := true;
      }
    }

    /** The "Lanjut" button of step 0: it advances only when both fields are
        non-empty. */
    method Continue(granted: bool)
      requires Valid() && step == 0
      modifies this
      ensures Valid()
      ensures nim == old(nim) && name == old(name) && photos == old(photos)
      ensures isUploading == old(isUploading) && showSuccessModal == old(showSuccessModal)
      ensures step == (if nim != "" && name != "" then 1 else 0)
      ensures camera <==> step == 1 && granted
    {
      if nim != "" && name != "" {
        step := 1;
        CameraEffect(granted);
      }
    }

    /** `capture`: the video element exists only on a capture step, so a
        capture at step 0 or at the review step changes nothing; otherwise
        it appends exactly one frame and advances one step. */
    method Capture(frame: string, granted: bool)
      requires Valid()
      modifies this
      ensures Valid()
      ensures nim == old(nim) && name == old(name)
      ensures isUploading == old(isUploading) && showSuccessModal == old(showSuccessModal)
      ensures !CaptureStep(old(step)) ==> step == old(step) && photos == old(photos) && camera == old(camera)
      ensures CaptureStep(old(step)) ==>
        && step == old(step) + 1
        && photos == old(photos) + [frame]
        && (camera <==> CaptureStep(step) && granted)
    {
      var videoMounted := CaptureStep(step);
      if step >= ReviewStep || !videoMounted {
        return;
      }
      photos := photos + [frame];
      step := step + 1;
      CameraEffect(granted);
    }

    /** The part of `handleRegister` before the request is awaited. The save
        button is rendered only at the review step and is disabled while
        uploading; what it sends is always the three photos. */
    method StartRegister() returns (request: RegisterRequest)
      requires Valid() && step == ReviewStep && !isUploading
      modifies this`isUploading
      ensures Valid() && isUploading
      ensures request == RegisterRequest(nim, name, photos)
      ensures |request.images| == 3
    {
      isUploading := true;
      request := RegisterRequest(nim, name, photos);
    }

    /** The part of `handleRegister` after the request settles: success
        shows the modal; a failure alerts and keeps the draft; the busy flag
        is cleared on every path. The reset button stays enabled during the
        request, so the wizard may be at any step by now. */
    method FinishRegister(reply: Transport) returns (notice: Option<Notice>)
      requires Valid() && isUploading
      modifies this`isUploading, this`showSuccessModal
      ensures Valid() && !isUploading
      ensures showSuccessModal <==> old(showSuccessModal) || Read(reply).Succeeded?
      ensures notice.None? <==> Read(reply).Succeeded?
      ensures Read(reply).Refused? ==> notice == Some(ServerError(MessageOf(Read(reply).body)))
      ensures Read(reply).Broken? ==> notice == Some(ConnectionError)
    {
      match Read(reply) {
        case Succeeded(_) =>
          showSuccessModal := true;
          notice := None;
        case Refused(body) =>
          notice := Some(ServerError(MessageOf(body)));
        case Broken =>
          notice := Some(ConnectionError);
      }
      isUploading := false;
    }

    /** `reset` ("Ulangi" and the modal's "Selesai"): back to an empty step 0;
        the step change runs the camera effect's cleanup. */
    method Reset()
      requires Valid()
      modifies this
      ensures Valid()
      ensures step == 0 && photos == [] && nim == "" && name == ""
      ensures !showSuccessModal && !camera
      ensures isUploading == old(isUploading)
    {
      step := 0;
      photos := [];
      nim := "";
      name := "";
      showSuccessModal := false;
      CameraEffect(false);
    }
  }

  /** Front, left and right, captured in that order from step 1, reach the
      review step with the three photos in that order; a fourth capture there
      changes nothing. */
  method CaptureAll(page: RegisterPage, front: string, left: string, right: string, extra: string)
    requires page.Valid() && page.step == 1
    modifies page
    ensures page.Valid() && page.step == ReviewStep
    ensures page.photos == [front, left, right]
    ensures !page.camera
  {
    page.Capture(front, true);
    page.Capture(left, true);
    page.Capture(right, true);
    page.Capture(extra, true);
  }
}
