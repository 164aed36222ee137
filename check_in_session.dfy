/** The teacher check-in form as one stateful object. Its fields are the
    component's React state (plus the preview element's `srcObject` and the
    hidden canvas); each event handler is one method that runs to completion.
    Every device, network and clock answer is a parameter. */
module CheckInSession {
  import opened Records
  import opened TimeOfDay
  import opened Camera
  import opened CheckIn

  /** What `getUserMedia` did: handed out a stream, or rejected with an error
      whose `name` picks the message. */
  datatype Acquisition = Granted(stream: MediaStream) | Rejected(errorName: string)

  datatype CaptureOutcome = Captured | NoVideoElement | VideoNotReady | NoCanvasContext

  /** Head of the string `canvas.toDataURL('image/jpeg', 0.95)` returns. */
  const DataUrlPrefix: string := "data:image/jpeg;base64,"

  /** Some look for the preview element within the retry budget finds it. */
  ghost predicate PreviewAppears(refAt: nat -> bool)
  {
    exists k :: 0 <= k <= MaxRetryCount && refAt(k)
  }

  /** Whether `startCamera` ends ready: the API exists, the stream is
      granted, the element can be rendered (`noPhoto`) and appears within the
      retry budget, and it is still there one frame later. */
  ghost predicate StartEndsReady(supported: bool, acquisition: Acquisition, noPhoto: bool, refAt: nat -> bool, refAfterFrame: bool)
  {
    supported && acquisition.Granted? && noPhoto && PreviewAppears(refAt) && refAfterFrame
  }

  /** The message `startCamera` leaves when it fails: the classified one for
      a rejection, the generic one otherwise. */
  function StartErrorMessage(supported: bool, acquisition: Acquisition): string
  {
    if supported && acquisition.Rejected? then CameraErrorMessage(acquisition.errorName) else GenericCameraError
  }

  class AttendanceForm {
    var schedules: seq<ScheduleRow>
    var selectedSchedule: string
    var isLoading: bool
    var locationStatus: Option<GeoVerdict>
    var currentLocation: Option<Coordinates>
    var stream: MediaStream?
    /** `videoRef.current.srcObject`: the stream bound to the preview element
        that is mounted now, null when no element is mounted or the mounted
        one was never given a stream. */
    var previewSource: MediaStream?
    var cameraState: CameraState
    var cameraError: string
    var photoDataUrl: string
    var photoBlob: Option<Blob>
    /** The hidden capture canvas. */
    var canvas: Raster

    /** The object invariant, apart from the loading flag: an idle camera
        holds no stream and a ready one holds one; an error message is shown
        exactly in the error state; an upload payload never exists without
        its preview; a valid location verdict comes with its coordinates;
        and a bound preview element is the mounted one, previewing the held
        stream. A ready camera need not have a bound preview: the element
        mounted again after a retake has no stream. */
    ghost predicate Consistent()
      reads this
    {
      SchedulesWellFormed(schedules) &&
      (cameraState == Idle ==> stream == null) &&
      (cameraState == Ready ==> stream != null) &&
      (cameraState == Error <==> cameraError != "") &&
      (photoBlob.Some? ==> photoDataUrl != "") &&
      (LocationOk(locationStatus) ==> currentLocation.Some?) &&
      (previewSource != null ==> PreviewMounted() && previewSource == stream)
    }

    /** The `<video>` element is rendered: no photo is shown and the camera
        is starting or ready. */
    predicate PreviewMounted()
      reads this
    {
      photoDataUrl == "" && (cameraState == Starting || cameraState == Ready)
    }

    /** Between two events no submission is in flight. */
    ghost predicate Valid()
      reads this
    {
      Consistent() && !isLoading
    }

    /** The tracks of the stream held, the only device state a handler stops. */
    function StreamTracks(): set<object>
      reads this
    {
      if stream == null then {} else {stream.tracks}
    }

    constructor ()
      ensures Valid()
      ensures schedules == [] && selectedSchedule == "" && locationStatus == None && currentLocation == None
      ensures stream == null && previewSource == null && cameraState == Idle && cameraError == ""
      ensures photoDataUrl == "" && photoBlob == None
    {
      schedules := [];
      selectedSchedule := "";
      isLoading := false;
      locationStatus := None;
      currentLocation := None;
      stream := null;
      previewSource := null;
      cameraState := Idle;
      cameraError := "";
      photoDataUrl := "";
      photoBlob := None;
      canvas := BlankRaster(300, 150);
    }

    /** `fetchTodaySchedules`: a successful query replaces the loaded slots; a
        missing user or a failed query leaves them as they were. */
    method LoadSchedules(fetched: Option<seq<ScheduleRow>>)
      requires Valid()
      requires fetched.Some? ==> SchedulesWellFormed(fetched.value)
      modifies this`schedules
      ensures Valid()
      ensures schedules == if fetched.Some? then fetched.value else old(schedules)
    {
      if fetched.Some? {
        schedules := fetched.value;
      }
    }

    /** The slot picker's `onValueChange`. */
    method SelectSchedule(id: string)
      requires Valid()
      modifies this`selectedSchedule
      ensures Valid() && selectedSchedule == id
    {
      selectedSchedule := id;
    }

    /** `checkLocation`: one position request, its verdict stored. */
    method CheckLocation(fix: GeoFix)
      requires Valid()
      modifies this`locationStatus, this`currentLocation
      ensures Valid()
      ensures locationStatus == Some(LocationVerdict(fix))
      ensures currentLocation == if fix.Position? then Some(Coordinates(fix.latitude, fix.longitude)) else old(currentLocation)
    {
      if fix.Position? {
        currentLocation := Some(Coordinates(fix.latitude, fix.longitude));
      }
      locationStatus := Some(LocationVerdict(fix));
    }

    /** `setStream(next)` together with the clean-up of the effect that
        watches `stream`: when the value changes, the tracks of the stream it
        held are stopped. */
    method ReplaceStream(next: MediaStream?)
      modifies this`stream, StreamTracks()
      ensures stream == next
      ensures old(stream) != null && old(stream) != next ==> old(stream).Stopped()
      ensures old(stream) != null && old(stream) == next ==> unchanged(old(stream).tracks)
    {
      if stream != null && stream != next {
        stream.StopAllTracks();
      }
      stream := next;
    }

    /** `stopCamera`: the tracks are stopped, the stream dropped and the
        camera idle. The preview loses its stream either way: a mounted
        element has `srcObject` cleared, and the idle state unmounts it. */
    method StopCamera()
      requires Consistent()
      modifies this, StreamTracks()
      ensures Consistent()
      ensures stream == null && previewSource == null && cameraState == Idle && cameraError == ""
      ensures old(stream) != null ==> old(stream).Stopped()
      ensures photoDataUrl == old(photoDataUrl) && photoBlob == old(photoBlob) && canvas == old(canvas)
      ensures selectedSchedule == old(selectedSchedule) && schedules == old(schedules) && isLoading == old(isLoading)
      ensures locationStatus == old(locationStatus) && currentLocation == old(currentLocation)
    {
      if stream != null {
        stream.StopAllTracks();
        ReplaceStream(null);
      }
      previewSource := null;
      cameraState := Idle;
      cameraError := "";
    }

    /** `startCamera`. `supported` says whether `getUserMedia` exists,
        `acquisition` what it did, `refAt` when the preview element is
        mounted, `refAfterFrame` whether it is still there one animation
        frame after binding, and `playSucceeded` how `video.play()` settled.
        While a photo is shown no `<video>` is rendered, so no look finds it. */
    method StartCamera(supported: bool, acquisition: Acquisition, refAt: nat -> bool, refAfterFrame: bool, playSucceeded: bool)
      requires Valid()
      modifies this, StreamTracks()
      ensures Valid()
      ensures cameraState == Ready || cameraState == Error
      ensures cameraState == Ready <==> StartEndsReady(supported, acquisition, old(photoDataUrl) == "", refAt, refAfterFrame)
      ensures cameraState == Error ==> cameraError == StartErrorMessage(supported, acquisition)
      // an acquired stream is kept even when binding it fails
      ensures stream == if supported && acquisition.Granted? then acquisition.stream else old(stream)
      ensures supported && acquisition.Granted? && old(stream) != null && old(stream) != acquisition.stream ==>
                old(stream).Stopped()
      // an unsupported or rejected request leaves the held stream running
      ensures !(supported && acquisition.Granted?) && old(stream) != null ==> unchanged(old(stream).tracks)
      // a ready camera previews the new stream; an error unmounts the element
      ensures previewSource == if cameraState == Ready then acquisition.stream else null
      ensures photoDataUrl == old(photoDataUrl) && photoBlob == old(photoBlob) && canvas == old(canvas)
      ensures selectedSchedule == old(selectedSchedule) && schedules == old(schedules)
      ensures locationStatus == old(locationStatus) && currentLocation == old(currentLocation)
    {
      cameraState := Starting;
      cameraError := "";
      if !supported {
        // "Browser tidak mendukung akses kamera", a plain Error
        cameraError := GenericCameraError;
        cameraState := Error;
        previewSource := null;
        return;
      }
      match acquisition
      case Rejected(name) =>
        cameraError := CameraErrorMessage(name);
        cameraState := Error;
        previewSource := null;
      case Granted(s) =>
        BindGranted(s, refAt, refAfterFrame);
    }

    /** The part of `startCamera` after `getUserMedia` resolved: hold the
        stream, look for the preview element, bind it and wait one frame. */
    method BindGranted(s: MediaStream, refAt: nat -> bool, refAfterFrame: bool)
      requires Valid() && cameraState == Starting && cameraError == ""
      modifies this, StreamTracks()
      ensures Valid()
      ensures cameraState == Ready <==> photoDataUrl == "" && PreviewAppears(refAt) && refAfterFrame
      ensures cameraState == Ready || (cameraState == Error && cameraError == GenericCameraError)
      ensures stream == s
      ensures old(stream) != null && old(stream) != s ==> old(stream).Stopped()
      ensures old(stream) == s ==> unchanged(s.tracks)
      ensures previewSource == if cameraState == Ready then s else null
      ensures photoDataUrl == old(photoDataUrl) && photoBlob == old(photoBlob) && canvas == old(canvas)
      ensures selectedSchedule == old(selectedSchedule) && schedules == old(schedules)
      ensures locationStatus == old(locationStatus) && currentLocation == old(currentLocation)
    {
      ReplaceStream(s);
      var noPhoto := photoDataUrl == "";
      var lookup := (k: nat) => noPhoto && refAt(k);
      var found, retries := AttachStreamToVideo(lookup);
      if found.None? {
        // "Video element not available after 15 retries"
        assert forall k: nat :: lookup(k) == (noPhoto && refAt(k));
        cameraError := GenericCameraError;
        cameraState := Error;
        previewSource := null;
      } else {
        assert noPhoto && PreviewAppears(refAt) by {
          assert lookup(found.value);
        }
        if !refAfterFrame {
          // "Video ref lost after RAF"
          cameraError := GenericCameraError;
          cameraState := Error;
          previewSource := null;
        } else {
          // ready whether play() resolved or rejected
          previewSource := s;
          cameraState := Ready;
        }
      }
    }

    /** `capturePhoto`. `cameraFrame` is the frame the camera delivers (its
        size the stream's intrinsic size), `contextAvailable` whether the
        canvas gives a 2d context, `jpeg` the JPEG encoder and `blobCreated`
        whether `toBlob` produced a payload. The video shows that frame only
        when it has the stream bound; otherwise its size is 0 x 0. A
        successful capture shows the photo, which unmounts the video. */
    method CapturePhoto(cameraFrame: Raster, contextAvailable: bool, jpeg: Raster -> string, blobCreated: bool)
      returns (outcome: CaptureOutcome)
      requires Valid() && WellFormedRaster(cameraFrame)
      modifies this`canvas, this`photoDataUrl, this`photoBlob, this`previewSource
      ensures Valid()
      ensures outcome == if !old(PreviewMounted()) then NoVideoElement
                         else if old(previewSource) == null || cameraFrame.width == 0 || cameraFrame.height == 0 then VideoNotReady
                         else if !contextAvailable then NoCanvasContext
                         else Captured
      ensures outcome != Captured ==>
                photoDataUrl == old(photoDataUrl) && photoBlob == old(photoBlob) && previewSource == old(previewSource)
      ensures outcome == NoCanvasContext ==> canvas == BlankRaster(cameraFrame.width, cameraFrame.height)
      ensures outcome == NoVideoElement || outcome == VideoNotReady ==> canvas == old(canvas)
      ensures outcome == Captured ==>
                canvas == Mirrored(cameraFrame) && canvas.width == cameraFrame.width && canvas.height == cameraFrame.height &&
                photoDataUrl == DataUrlPrefix + jpeg(canvas) &&
                photoBlob == (if blobCreated then Some(Blob(jpeg(canvas))) else old(photoBlob)) &&
                previewSource == null && !PreviewMounted()
    {
      if !PreviewMounted() {
        return NoVideoElement;
      }
      var frame := if previewSource == null then Raster(0, 0, []) else cameraFrame;
      if frame.width == 0 || frame.height == 0 {
        return VideoNotReady;
      }
      canvas := BlankRaster(frame.width, frame.height);
      if !contextAvailable {
        return NoCanvasContext;
      }
      canvas := Mirrored(frame);
      photoDataUrl := DataUrlPrefix + jpeg(canvas);
      previewSource := null;
      if blobCreated {
        photoBlob := Some(Blob(jpeg(canvas)));
      }
      outcome := Captured;
    }

    /** `retakePhoto`: drop both forms of the photo, and start the camera
        again (with the given device answers) only when it is idle. From any
        other state the `<video>` mounted again has no stream bound: a
        camera that stays ready previews nothing, and every capture after it
        finds a 0 x 0 video. */
    method RetakePhoto(supported: bool, acquisition: Acquisition, refAt: nat -> bool, refAfterFrame: bool, playSucceeded: bool)
      requires Valid()
      modifies this, StreamTracks()
      ensures Valid()
      ensures photoDataUrl == "" && photoBlob == None
      ensures old(cameraState) == Idle ==>
                (cameraState == Ready <==> StartEndsReady(supported, acquisition, true, refAt, refAfterFrame)) &&
                (cameraState == Error ==> cameraError == StartErrorMessage(supported, acquisition)) &&
                (cameraState == Ready || cameraState == Error) &&
                stream == (if supported && acquisition.Granted? then acquisition.stream else null) &&
                previewSource == (if cameraState == Ready then acquisition.stream else null)
      ensures old(cameraState) != Idle ==>
                cameraState == old(cameraState) && cameraError == old(cameraError) &&
                stream == old(stream) && previewSource == old(previewSource)
      ensures old(cameraState) != Idle && old(stream) != null ==> unchanged(old(stream).tracks)
      ensures old(cameraState) != Idle && old(photoDataUrl) != "" ==> previewSource == null
      ensures selectedSchedule == old(selectedSchedule) && schedules == old(schedules) && canvas == old(canvas)
      ensures locationStatus == old(locationStatus) && currentLocation == old(currentLocation)
    {
      photoDataUrl := "";
      photoBlob := None;
      if cameraState == Idle {
        StartCamera(supported, acquisition, refAt, refAfterFrame, playSucceeded);
      }
    }

    /** The retake the "Kamera aktif kembali" notice promises: as
        `retakePhoto`, but a camera that stays ready binds its held stream to
        the newly mounted element, so a ready camera previews its stream. */
    method RetakePhotoRebinding(supported: bool, acquisition: Acquisition, refAt: nat -> bool, refAfterFrame: bool, playSucceeded: bool)
      requires Valid()
      modifies this, StreamTracks()
      ensures Valid()
      ensures photoDataUrl == "" && photoBlob == None
      ensures cameraState == Ready ==> previewSource == stream && stream != null
      ensures old(cameraState) == Idle ==>
                (cameraState == Ready <==> StartEndsReady(supported, acquisition, true, refAt, refAfterFrame)) &&
                (cameraState == Error ==> cameraError == StartErrorMessage(supported, acquisition)) &&
                (cameraState == Ready || cameraState == Error) &&
                stream == (if supported && acquisition.Granted? then acquisition.stream else null) &&
                previewSource == (if cameraState == Ready then acquisition.stream else null)
      ensures old(cameraState) != Idle ==>
                cameraState == old(cameraState) && cameraError == old(cameraError) && stream == old(stream)
      ensures old(cameraState) != Idle && old(cameraState) != Ready ==> previewSource == old(previewSource)
      ensures old(cameraState) != Idle && old(stream) != null ==> unchanged(old(stream).tracks)
      ensures selectedSchedule == old(selectedSchedule) && schedules == old(schedules) && canvas == old(canvas)
      ensures locationStatus == old(locationStatus) && currentLocation == old(currentLocation)
    {
      photoDataUrl := "";
      photoBlob := None;
      if cameraState == Idle {
        StartCamera(supported, acquisition, refAt, refAfterFrame, playSucceeded);
      } else if cameraState == Ready {
        previewSource := stream;
      }
    }

    /** `confirmPhoto`: only acknowledges a complete photo; changes nothing. */
    method ConfirmPhoto() returns (confirmed: bool)
      requires Valid()
      ensures confirmed <==> photoDataUrl != "" && photoBlob.Some?
    {
      confirmed := photoDataUrl != "" && photoBlob.Some?;
    }

    /** `handleSubmit`. On success the camera is stopped (the captured photo is
        on screen, so no preview element is mounted), the photo is dropped
        and the selection reset; on any failure the form is left as it was
        so the teacher can resubmit without a new photo. */
    method HandleSubmit(env: SubmitEnv) returns (outcome: SubmitOutcome)
      requires Valid() && ValidClock(env.hour, env.minute)
      modifies this, StreamTracks()
      ensures Valid()
      ensures outcome == SubmitResult(old(selectedSchedule), old(locationStatus), old(photoDataUrl), old(photoBlob),
                                      old(schedules), old(currentLocation), env)
      // a disabled button would be refused by the gate anyway; an enabled one
      // passes it whenever the upload payload exists
      ensures !old(CanSubmit()) ==> outcome.Blocked?
      ensures old(CanSubmit()) ==> (outcome.Blocked? <==> old(photoBlob).None?)
      ensures outcome.Recorded? ==> outcome.record.latitude.Some? && outcome.record.longitude.Some?
      ensures outcome.Recorded? ==>
                stream == null && cameraState == Idle && cameraError == "" &&
                photoDataUrl == "" && photoBlob == None && selectedSchedule == "" &&
                (old(stream) != null ==> old(stream).Stopped())
      ensures !outcome.Recorded? ==>
                stream == old(stream) && cameraState == old(cameraState) && cameraError == old(cameraError) &&
                photoDataUrl == old(photoDataUrl) && photoBlob == old(photoBlob) &&
                selectedSchedule == old(selectedSchedule) &&
                (old(stream) != null ==> unchanged(old(stream).tracks))
      ensures previewSource == old(previewSource) && canvas == old(canvas) && schedules == old(schedules)
      ensures locationStatus == old(locationStatus) && currentLocation == old(currentLocation)
    {
      ButtonPredictsOutcome(selectedSchedule, locationStatus, photoDataUrl, photoBlob, schedules, currentLocation, env);
      var gate := FirstUnmet(selectedSchedule, locationStatus, photoDataUrl, photoBlob);
      if gate.Some? {
        return Blocked(gate.value);
      }
      isLoading := true;
      if env.user.None? {
        outcome := Failed(UserNotFound);
      } else if !env.uploadOk {
        outcome := Failed(UploadFailed);
      } else {
        var currentTime := FormatHHMM(env.hour, env.minute);
        var p := EvaluateSelected(schedules, selectedSchedule, currentTime);
        var record := AttendanceRecord(selectedSchedule, env.user.value, env.date, currentTime, p.status, p.lateness,
                                       env.publicUrl, Latitude(currentLocation), Longitude(currentLocation));
        if !env.insertOk {
          outcome := Failed(InsertFailed);
        } else {
          outcome := Recorded(record);
          ClearAfterRecord();
        }
      }
      isLoading := false;
    }

    /** The clean-up after a stored check-in: the camera is stopped, the
        photo dropped and the selection reset. */
    method ClearAfterRecord()
      requires Consistent()
      modifies this, StreamTracks()
      ensures Consistent()
      ensures stream == null && previewSource == null && cameraState == Idle && cameraError == ""
      ensures old(stream) != null ==> old(stream).Stopped()
      ensures photoDataUrl == "" && photoBlob == None && selectedSchedule == ""
      ensures canvas == old(canvas) && schedules == old(schedules) && isLoading == old(isLoading)
      ensures locationStatus == old(locationStatus) && currentLocation == old(currentLocation)
    {
      StopCamera();
      photoDataUrl := "";
      photoBlob := None;
      selectedSchedule := "";
    }

    /** The clean-up effect when the form unmounts: the held stream's tracks
        are stopped. */
    method Unmount()
      requires Valid()
      modifies StreamTracks()
      ensures stream != null ==> stream.Stopped()
    {
      if stream != null {
        stream.StopAllTracks();
      }
    }

    /** The submit button's enabled state. */
    predicate CanSubmit()
      reads this
      ensures Valid() ==>
                (CanSubmit() <==> FirstUnmet(selectedSchedule, locationStatus, photoDataUrl, Some(Blob(""))).None?)
    {
      SubmitEnabled(selectedSchedule, locationStatus, photoDataUrl, isLoading)
    }
  }
  /** The form opened with the 07:00 slot loaded and selected, checked 80 m
      from the school. */
  method OpenedOnSlot() returns (form: AttendanceForm)
    ensures fresh(form) && form.Valid()
    ensures form.schedules == [ScheduleRow("j1", "g1", "m1", "k1", "Senin", "07:00:00", "08:30:00")]
    ensures form.selectedSchedule == "j1"
    ensures form.locationStatus == Some(LocationVerdict(Position(-2.98, 104.73, 80.0)))
    ensures form.currentLocation == Some(Coordinates(-2.98, 104.73))
    ensures form.stream == null && form.photoDataUrl == "" && form.photoBlob == None
  {
    form := new AttendanceForm();
    var slot := ScheduleRow("j1", "g1", "m1", "k1", "Senin", "07:00:00", "08:30:00");
    assert MinuteOfDay("07:00:00") == 420;
    form.LoadSchedules(Some([slot]));
    form.CheckLocation(Position(-2.98, 104.73, 80.0));
    form.SelectSchedule("j1");
  }

  /** That form after starting the camera, with the preview element mounted
      at the third look and `play()` rejected, and taking one photo: ready to
      submit, holding the device's stream. */
  method OpenedAndPhotographed() returns (form: AttendanceForm, device: MediaStream)
    ensures fresh(form) && form.Valid()
    ensures form.schedules == [ScheduleRow("j1", "g1", "m1", "k1", "Senin", "07:00:00", "08:30:00")]
    ensures form.selectedSchedule == "j1"
    ensures form.locationStatus == Some(LocationVerdict(Position(-2.98, 104.73, 80.0)))
    ensures form.currentLocation == Some(Coordinates(-2.98, 104.73))
    ensures form.photoDataUrl != "" && form.photoBlob == Some(Blob("jpeg"))
    ensures form.stream == device && form.cameraState == Ready && fresh(device.tracks)
    ensures form.previewSource == null
  {
    form := OpenedOnSlot();
    device := new MediaStream(1);
    var refAt := (k: nat) => k >= 2;
    assert refAt(2);
    form.StartCamera(true, Granted(device), refAt, true, false);
    var frame := Raster(2, 1, [[7, 9]]);
    var captured := form.CapturePhoto(frame, true, (r: Raster) => "jpeg", true);
  }

  /** One check-in from an opened form to the stored record, submitted at
      07:05 for the 07:00 slot: the record is late by 5 minutes, and the
      camera is idle with its stream stopped. */
  method LateCheckInScenario() returns (outcome: SubmitOutcome, cameraAfter: CameraState, tracksStopped: bool)
    ensures outcome == Recorded(AttendanceRecord("j1", "g1", "2026-10-19", "07:05", Terlambat, 5,
                                                 "https://example/p.jpg", Some(-2.98), Some(104.73)))
    ensures cameraAfter == Idle && tracksStopped
  {
    var form, device := OpenedAndPhotographed();
    FiveMinutesLate(form.photoDataUrl, form.currentLocation);
    outcome := form.HandleSubmit(SubmitEnv(Some("g1"), true, "https://example/p.jpg", 7, 5, "2026-10-19", true));
    cameraAfter := form.cameraState;
    tracksStopped := device.Stopped();
  }

  /** Photo taken, then "Ulangi Foto" while the camera stays ready, then
      "Ambil Foto" again with a live 2 x 1 camera frame: the camera reports
      ready, yet the new preview element has no stream, so the capture stops
      at the 0 x 0 check and no photo is taken. */
  method RetakeFromReadyCannotCapture() returns (cameraAfter: CameraState, outcome: CaptureOutcome, photo: string)
    ensures cameraAfter == Ready && outcome == VideoNotReady && photo == ""
  {
    var form, device := OpenedAndPhotographed();
    form.RetakePhoto(true, Granted(device), (k: nat) => true, true, true);
    outcome := form.CapturePhoto(Raster(2, 1, [[7, 9]]), true, (r: Raster) => "jpeg", true);
    cameraAfter := form.cameraState;
    photo := form.photoDataUrl;
  }

  /** The same steps with the rebinding retake: the second capture succeeds. */
  method RetakeRebindingThenCapture() returns (cameraAfter: CameraState, outcome: CaptureOutcome, photo: string)
    ensures cameraAfter == Ready && outcome == Captured && photo == DataUrlPrefix + "jpeg"
  {
    var form, device := OpenedAndPhotographed();
    form.RetakePhotoRebinding(true, Granted(device), (k: nat) => true, true, true);
    outcome := form.CapturePhoto(Raster(2, 1, [[7, 9]]), true, (r: Raster) => "jpeg", true);
    cameraAfter := form.cameraState;
    photo := form.photoDataUrl;
  }
}
