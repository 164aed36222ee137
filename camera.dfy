/** The device side of the teacher check-in form: camera states, media
    streams and their tracks, the bounded loop that waits for the preview
    <video> element, the classification of camera errors, and the mirrored
    frame copy made on capture. */
module Camera {
  import opened Records

  /** `cameraState` of the check-in form. */
  datatype CameraState = Idle | Starting | Ready | Error

  /** A stream handed out by `getUserMedia`. Each track is live until it is
      stopped; stopping is the only change the form makes to a stream. */
  class MediaStream {
    /** One entry per track: true while the track is live. */
    const tracks: array<bool>

    constructor (trackCount: nat)
      ensures fresh(tracks) && tracks.Length == trackCount
      ensures forall i :: 0 <= i < trackCount ==> tracks[i]
    {
      tracks := new bool[trackCount](_ => true);
    }

    /** Every track has ended. */
    predicate Stopped()
      reads tracks
    {
      forall i :: 0 <= i < tracks.Length ==> !tracks[i]
    }

    /** `stream.getTracks().forEach(track => track.stop())`. */
    method StopAllTracks()
      modifies tracks
      ensures Stopped()
    {
      for i := 0 to tracks.Length
        invariant forall j :: 0 <= j < i ==> !tracks[j]
      {
        tracks[i] := false;
      }
    }
  }

  /** The largest retry count at which the preview element is still looked
      for; the check at this count is the last one. */
  const MaxRetryCount: nat := 15

  /** How the next look for the preview element is scheduled. */
  datatype RetryTimer = AnimationFrame | Timeout(ms: nat)

  /** The bind-retry loop of `attachStreamToVideo`. `refAt(k)` says whether
      `videoRef.current` is set at the check made with retry count `k` (the
      render timing is the environment's). The result is the count at which
      the element was found, or None when the loop gave up, and the timers
      used to schedule each retry, in order. */
  method AttachStreamToVideo(refAt: nat -> bool) returns (found: Option<nat>, retries: seq<RetryTimer>)
    ensures found.Some? ==> found.value <= MaxRetryCount && refAt(found.value)
    ensures found.Some? ==> forall k :: 0 <= k < found.value ==> !refAt(k)
    ensures found.None? <==> forall k :: 0 <= k <= MaxRetryCount ==> !refAt(k)
    ensures |retries| == if found.Some? then found.value else MaxRetryCount
    ensures forall i :: 0 <= i < |retries| ==> (retries[i] == AnimationFrame <==> i < 5)
    ensures forall i :: 0 <= i < |retries| ==> (retries[i] != AnimationFrame ==> retries[i] == Timeout(100))
  {
    var retryCount: nat := 0;
    retries := [];
    while !refAt(retryCount)
      invariant retryCount <= MaxRetryCount
      invariant forall k :: 0 <= k < retryCount ==> !refAt(k)
      invariant |retries| == retryCount
      invariant forall i :: 0 <= i < |retries| ==> retries[i] == if i < 5 then AnimationFrame else Timeout(100)
      decreases MaxRetryCount - retryCount
    {
      if retryCount == MaxRetryCount {
        // "Video element not available after 15 retries"
        return None, retries;
      }
      var timer := if retryCount < 5 then AnimationFrame else Timeout(100);
      retries := retries + [timer];
      retryCount := retryCount + 1;
    }
    found := Some(retryCount);
  }

  /** Error names of `getUserMedia` failures that get a message of their own. */
  const KnownErrorNames: set<string> :=
    {"NotAllowedError", "NotFoundError", "NotReadableError", "OverconstrainedError"}

  const GenericCameraError: string := "Gagal mengakses kamera"

  /** The message shown for a camera failure, picked by `error.name`. */
  function CameraErrorMessage(errorName: string): (msg: string)
    ensures msg != ""
    ensures msg == GenericCameraError <==> errorName !in KnownErrorNames
  {
    if errorName == "NotAllowedError" then "❌ Izin kamera ditolak. Klik ikon kamera di browser dan izinkan akses."
    else if errorName == "NotFoundError" then "❌ Kamera tidak ditemukan di perangkat Anda."
    else if errorName == "NotReadableError" then "❌ Kamera sedang digunakan aplikasi lain."
    else if errorName == "OverconstrainedError" then "❌ Pengaturan kamera tidak didukung perangkat Anda."
    else GenericCameraError
  }

  /** Each known error name has a message no other name shares. */
  lemma DistinctCameraErrorMessages(a: string, b: string)
    requires a in KnownErrorNames && a != b
    ensures CameraErrorMessage(a) != CameraErrorMessage(b)
  {
    if b !in KnownErrorNames {
      assert CameraErrorMessage(b) == GenericCameraError != CameraErrorMessage(a);
    }
  }

  /** The JPEG payload handed to the upload (`canvas.toBlob`). */
  datatype Blob = Blob(jpeg: string)

  /** A raster of abstract pixel values, row by row. */
  datatype Raster = Raster(width: nat, height: nat, pixels: seq<seq<int>>)

  predicate WellFormedRaster(r: Raster)
  {
    |r.pixels| == r.height && forall y :: 0 <= y < r.height ==> |r.pixels[y]| == r.width
  }

  /** A canvas right after its width and height were assigned: cleared. */
  function BlankRaster(width: nat, height: nat): (r: Raster)
    ensures WellFormedRaster(r) && r.width == width && r.height == height
    ensures forall y, x :: 0 <= y < height && 0 <= x < width ==> r.pixels[y][x] == 0
  {
    Raster(width, height, seq(height, _ => seq(width, _ => 0)))
  }

  /** The frame drawn with `scale(-1, 1)` and `drawImage(video, -w, 0, w, h)`:
      column x of the result is column w - 1 - x of the source. */
  function Mirrored(r: Raster): (m: Raster)
    requires WellFormedRaster(r)
    ensures WellFormedRaster(m) && m.width == r.width && m.height == r.height
    ensures forall y, x :: 0 <= y < r.height && 0 <= x < r.width ==>
              m.pixels[y][x] == r.pixels[y][r.width - 1 - x]
  {
    Raster(r.width, r.height,
      seq(r.height, y requires 0 <= y < r.height =>
        seq(r.width, x requires 0 <= x < r.width => r.pixels[y][r.width - 1 - x])))
  }

  /** Mirroring is its own inverse. */
  lemma {:induction false} MirroredTwice(r: Raster)
    requires WellFormedRaster(r)
    ensures Mirrored(Mirrored(r)) == r
  {
    var m := Mirrored(Mirrored(r));
    assert |m.pixels| == |r.pixels|;
    forall y | 0 <= y < r.height
      ensures m.pixels[y] == r.pixels[y]
    {
      assert |m.pixels[y]| == |r.pixels[y]|;
      forall x | 0 <= x < r.width
        ensures m.pixels[y][x] == r.pixels[y][x]
      {
        assert m.pixels[y][x] == Mirrored(r).pixels[y][r.width - 1 - x];
      }
    }
  }
}
