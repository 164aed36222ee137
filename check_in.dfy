/** The decision logic of the teacher check-in form, as values: the geofence
    verdict, the three-step submission gate and the requirement checklist,
    the punctuality evaluator, and the attendance record a successful
    submission writes. The stateful session that uses them is in
    CheckInSession. */
module CheckIn {
  import opened Records
  import opened TimeOfDay
  import opened Camera

  /** `days[new Date().getDay()]`: the weekday names the form queries with,
      Sunday first. */
  const FormDays: seq<string> := ["Minggu", "Senin", "Selasa", "Rabu", "Kamis", "Jumat", "Sabtu"]

  // ---------------------------------------------------------------- geofence

  /** Tolerance radius around the school, in meters. */
  const MaxDistance: int := 150

  /** What one `getCurrentPosition` request produced. A fix carries the
      haversine distance to the school, computed outside this model. */
  datatype GeoFix = NoGeolocation | PositionFailed | Position(latitude: real, longitude: real, distance: real)

  /** The status line shown for a verdict, with the rounded distance. */
  datatype GeoMessage = WithinRadius(meters: int) | TooFar(meters: int) | Unsupported | Unavailable

  /** `locationStatus`. */
  datatype GeoVerdict = GeoVerdict(valid: bool, distance: Option<int>, message: GeoMessage)

  datatype Coordinates = Coordinates(latitude: real, longitude: real)

  /** `Math.round`: the nearest integer, halves rounded up. */
  function RoundHalfUp(x: real): (n: int)
    ensures n as real - 0.5 <= x < n as real + 0.5
  {
    (x + 0.5).Floor
  }

  /** The verdict `checkLocation` stores for one position request. The test is
      on the unrounded distance; the rounded one is only stored and shown. */
  function LocationVerdict(fix: GeoFix): (v: GeoVerdict)
    ensures v.valid <==> fix.Position? && fix.distance <= MaxDistance as real
    ensures v.distance.Some? <==> fix.Position?
    ensures fix.Position? ==> v.distance == Some(RoundHalfUp(fix.distance))
    ensures fix.Position? ==> v.message == if v.valid then WithinRadius(v.distance.value) else TooFar(v.distance.value)
    ensures fix == NoGeolocation ==> v.message == Unsupported
    ensures fix == PositionFailed ==> v.message == Unavailable
  {
    match fix
    case NoGeolocation => GeoVerdict(false, None, Unsupported)
    case PositionFailed => GeoVerdict(false, None, Unavailable)
    case Position(_, _, d) =>
      if d <= MaxDistance as real then GeoVerdict(true, Some(RoundHalfUp(d)), WithinRadius(RoundHalfUp(d)))
      else GeoVerdict(false, Some(RoundHalfUp(d)), TooFar(RoundHalfUp(d)))
  }

  /** A valid verdict never shows more than the radius, and every fix shown
      below the radius is valid. */
  lemma ShownDistanceAgreesWithVerdict(fix: GeoFix)
    requires fix.Position?
    ensures LocationVerdict(fix).valid ==> LocationVerdict(fix).distance.value <= MaxDistance
    ensures LocationVerdict(fix).distance.value < MaxDistance ==> LocationVerdict(fix).valid
  {
    var n := RoundHalfUp(fix.distance);
    if n < MaxDistance {
      assert n as real <= (MaxDistance - 1) as real;
    }
  }

  /** At exactly the radius the verdict is valid and one meter beyond it is
      not; a fix between 150 and 150.5 meters is refused yet shown as 150 m. */
  lemma GeofenceBoundary()
    ensures LocationVerdict(Position(0.0, 0.0, 150.0)).valid
    ensures !LocationVerdict(Position(0.0, 0.0, 151.0)).valid
    ensures LocationVerdict(Position(0.0, 0.0, 150.25)) == GeoVerdict(false, Some(150), TooFar(150))
  {
    assert RoundHalfUp(150.25) == 150;
  }

  // ------------------------------------------------------ submission gate

  datatype Requirement = ScheduleNotSelected | LocationNotValid | PhotoNotTaken

  /** `locationStatus?.valid`. */
  predicate LocationOk(location: Option<GeoVerdict>)
  {
    location.Some? && location.value.valid
  }

  /** The gate of `handleSubmit`: the first unmet requirement in the order
      schedule, location, photo, or None when all three hold. The photo needs
      both the preview and the upload payload. */
  function FirstUnmet(selected: string, location: Option<GeoVerdict>, photoDataUrl: string, photoBlob: Option<Blob>): (r: Option<Requirement>)
    ensures r.None? <==> selected != "" && LocationOk(location) && photoDataUrl != "" && photoBlob.Some?
    ensures r == Some(ScheduleNotSelected) <==> selected == ""
    ensures r == Some(LocationNotValid) <==> selected != "" && !LocationOk(location)
    ensures r == Some(PhotoNotTaken) <==> selected != "" && LocationOk(location) && (photoDataUrl == "" || photoBlob.None?)
  {
    if selected == "" then Some(ScheduleNotSelected)
    else if !LocationOk(location) then Some(LocationNotValid)
    else if photoDataUrl == "" || photoBlob.None? then Some(PhotoNotTaken)
    else None
  }

  /** A selection, a location verdict and a preview that each meet their
      requirement, for stating one requirement with the others met. */
  const MetSelection: string := "j"
  const MetLocation: Option<GeoVerdict> := Some(GeoVerdict(true, Some(0), WithinRadius(0)))
  const MetPhoto: string := "p"

  /** The "Persyaratan Presensi" checklist: each requirement shown on its own. */
  datatype Checklist = Checklist(location: bool, schedule: bool, photo: bool)

  function RequirementChecklist(selected: string, location: Option<GeoVerdict>, photoDataUrl: string): (c: Checklist)
    // fully ticked exactly when the gate passes given an upload payload
    ensures c == Checklist(true, true, true) <==> FirstUnmet(selected, location, photoDataUrl, Some(Blob(""))).None?
    // the first unticked item, in the gate's order, is the one the gate names
    ensures !c.schedule <==> FirstUnmet(selected, location, photoDataUrl, None) == Some(ScheduleNotSelected)
    ensures c.schedule && !c.location <==> FirstUnmet(selected, location, photoDataUrl, None) == Some(LocationNotValid)
    // each item is ticked on its own requirement, whatever the other two are:
    // unticked exactly when the gate names it once the others are met
    ensures !c.schedule <==> FirstUnmet(selected, MetLocation, MetPhoto, Some(Blob(""))) == Some(ScheduleNotSelected)
    ensures !c.location <==> FirstUnmet(MetSelection, location, MetPhoto, Some(Blob(""))) == Some(LocationNotValid)
    ensures !c.photo <==> FirstUnmet(MetSelection, MetLocation, photoDataUrl, Some(Blob(""))) == Some(PhotoNotTaken)
  {
    Checklist(LocationOk(location), selected != "", photoDataUrl != "")
  }

  /** The submit button is enabled (not `disabled`). */
  predicate SubmitEnabled(selected: string, location: Option<GeoVerdict>, photoDataUrl: string, isLoading: bool)
    ensures SubmitEnabled(selected, location, photoDataUrl, isLoading) <==>
              !isLoading && RequirementChecklist(selected, location, photoDataUrl) == Checklist(true, true, true)
  {
    LocationOk(location) && photoDataUrl != "" && selected != "" && !isLoading
  }

  /** Whenever the gate passes, every checklist item is ticked and the button is
      enabled; whenever the gate blocks, the requirement it names is unticked,
      unless only the payload is missing behind a ticked photo. */
  lemma GateAgreesWithChecklist(selected: string, location: Option<GeoVerdict>, photoDataUrl: string, photoBlob: Option<Blob>)
    ensures FirstUnmet(selected, location, photoDataUrl, photoBlob).None? ==>
              RequirementChecklist(selected, location, photoDataUrl) == Checklist(true, true, true) &&
              SubmitEnabled(selected, location, photoDataUrl, false)
    ensures FirstUnmet(selected, location, photoDataUrl, photoBlob) == Some(ScheduleNotSelected) ==>
              !RequirementChecklist(selected, location, photoDataUrl).schedule
    ensures FirstUnmet(selected, location, photoDataUrl, photoBlob) == Some(LocationNotValid) ==>
              !RequirementChecklist(selected, location, photoDataUrl).location
    ensures FirstUnmet(selected, location, photoDataUrl, photoBlob) == Some(PhotoNotTaken) ==>
              (!RequirementChecklist(selected, location, photoDataUrl).photo <==> photoDataUrl == "")
    ensures SubmitEnabled(selected, location, photoDataUrl, false) ==>
              (FirstUnmet(selected, location, photoDataUrl, photoBlob).None? <==> photoBlob.Some?)
  {
  }

  /** The button can be enabled while the gate still refuses: a preview exists
      but `toBlob` produced no payload. */
  lemma EnabledButBlocked()
    ensures var loc := Some(GeoVerdict(true, Some(80), WithinRadius(80)));
            SubmitEnabled("j1", loc, "data:image/jpeg;base64,", false) &&
            FirstUnmet("j1", loc, "data:image/jpeg;base64,", None) == Some(PhotoNotTaken)
  {
  }

  // ------------------------------------------------- punctuality evaluator

  /** Status and `keterlambatan_menit` of a check-in. */
  datatype Punctuality = Punctuality(status: AttendanceStatus, lateness: int)

  /** The evaluator of `handleSubmit` for a scheduled start `jam_mulai` and the
      check-in time "HH:MM". */
  function Evaluate(scheduledStart: string, currentTime: string): (p: Punctuality)
    requires WellFormedTime(scheduledStart) && WellFormedTime(currentTime)
    ensures p.status != TidakHadir && p.lateness >= 0
    ensures p.status == Terlambat <==> p.lateness > 0
    ensures p.lateness == if DelayMinutes(scheduledStart, currentTime) <= 0 then 0 else DelayMinutes(scheduledStart, currentTime)
  {
    var delay := DelayMinutes(scheduledStart, currentTime);
    if delay <= 0 then Punctuality(Hadir, 0) else Punctuality(Terlambat, delay)
  }

  /** Checking in at or before the scheduled start is on time with no lateness;
      checking in after it is late by exactly the minutes in between. */
  lemma OnTimeIffNotAfterStart(scheduledStart: string, currentTime: string)
    requires WellFormedTime(scheduledStart) && WellFormedTime(currentTime)
    ensures Evaluate(scheduledStart, currentTime) == Punctuality(Hadir, 0) <==>
              MinuteOfDay(currentTime) <= MinuteOfDay(scheduledStart)
    ensures MinuteOfDay(currentTime) > MinuteOfDay(scheduledStart) ==>
              Evaluate(scheduledStart, currentTime) ==
              Punctuality(Terlambat, MinuteOfDay(currentTime) - MinuteOfDay(scheduledStart))
  {
  }

  /** A slot starting 07:00:00 and a check-in at 07:15 give late by 15 minutes. */
  lemma QuarterPastSeven()
    ensures Evaluate("07:00:00", "07:15") == Punctuality(Terlambat, 15)
  {
    assert MinuteOfDay("07:00:00") == 420;
    assert MinuteOfDay("07:15") == 435;
  }

  /** Every loaded slot carries a well-formed start time. */
  predicate SchedulesWellFormed(schedules: seq<ScheduleRow>)
  {
    forall s :: s in schedules ==> WellFormedTime(s.jamMulai)
  }

  /** `schedules.find(s => s.id_jadwal === id)`: the first loaded slot with
      that id. */
  function FindSchedule(schedules: seq<ScheduleRow>, id: string): (r: Option<ScheduleRow>)
    ensures r.None? <==> forall s :: s in schedules ==> s.idJadwal != id
    ensures r.Some? ==> r.value in schedules && r.value.idJadwal == id
    ensures r.Some? ==> exists i :: 0 <= i < |schedules| && schedules[i] == r.value &&
                          forall j :: 0 <= j < i ==> schedules[j].idJadwal != id
  {
    if |schedules| == 0 then None
    else if schedules[0].idJadwal == id then Some(schedules[0])
    else
      var rest := FindSchedule(schedules[1..], id);
      assert rest.Some? ==> exists i :: 0 < i < |schedules| && schedules[i] == rest.value &&
                              forall j :: 0 <= j < i ==> schedules[j].idJadwal != id by {
        if rest.Some? {
          var i :| 0 <= i < |schedules[1..]| && schedules[1..][i] == rest.value &&
                   forall j :: 0 <= j < i ==> schedules[1..][j].idJadwal != id;
          assert schedules[i + 1] == rest.value;
          assert forall j :: 0 <= j < i + 1 ==> schedules[j].idJadwal != id by {
            forall j | 0 <= j < i + 1 ensures schedules[j].idJadwal != id {
              if j > 0 { assert schedules[j] == schedules[1..][j - 1]; }
            }
          }
        }
      }
      rest
  }

  /** Status and lateness for the selected slot at check-in time
      `currentTime`. A selection that matches no loaded slot keeps the
      defaults: on time, no lateness. */
  function EvaluateSelected(schedules: seq<ScheduleRow>, selected: string, currentTime: string): (p: Punctuality)
    requires SchedulesWellFormed(schedules) && WellFormedTime(currentTime)
    ensures p.status != TidakHadir && p.lateness >= 0
    ensures p.status == Terlambat <==> p.lateness > 0
    ensures FindSchedule(schedules, selected).None? ==> p == Punctuality(Hadir, 0)
    ensures FindSchedule(schedules, selected).Some? ==>
              p == Evaluate(FindSchedule(schedules, selected).value.jamMulai, currentTime)
  {
    match FindSchedule(schedules, selected)
    case None => Punctuality(Hadir, 0)
    case Some(s) => Evaluate(s.jamMulai, currentTime)
  }

  // ------------------------------------------------------ record assembly

  /** The `presensi_mengajar` row inserted by a successful submission. */
  datatype AttendanceRecord = AttendanceRecord(
    idJadwal: string,
    idGuru: string,
    tanggal: string,
    jam: string,
    status: AttendanceStatus,
    keterlambatanMenit: int,
    fotoAbsenUrl: string,
    latitude: Option<real>,
    longitude: Option<real>)

  /** What the environment answers during one submission: the signed-in user,
      the upload result and the photo's public URL, the wall clock (hour,
      minute and the ISO date), and the insert result. */
  datatype SubmitEnv = SubmitEnv(
    user: Option<string>,
    uploadOk: bool,
    publicUrl: string,
    hour: int,
    minute: int,
    date: string,
    insertOk: bool)

  datatype SubmitFailure = UserNotFound | UploadFailed | InsertFailed

  datatype SubmitOutcome = Blocked(missing: Requirement) | Failed(reason: SubmitFailure) | Recorded(record: AttendanceRecord)

  /** A record as this form writes it: never absent, lateness non-negative,
      late exactly when the lateness is positive, time in "HH:MM". */
  predicate FormRecord(r: AttendanceRecord)
  {
    r.status != TidakHadir && r.keterlambatanMenit >= 0 &&
    (r.status == Terlambat <==> r.keterlambatanMenit > 0) &&
    |r.jam| == 5 && WellFormedTime(r.jam)
  }

  function Latitude(c: Option<Coordinates>): Option<real>
  {
    if c.Some? then Some(c.value.latitude) else None
  }

  function Longitude(c: Option<Coordinates>): Option<real>
  {
    if c.Some? then Some(c.value.longitude) else None
  }

  /** The outcome of one `handleSubmit`: the gate, then user lookup, upload,
      evaluation and insert, each able to stop the submission. */
  function SubmitResult(
    selected: string, location: Option<GeoVerdict>, photoDataUrl: string, photoBlob: Option<Blob>,
    schedules: seq<ScheduleRow>, coordinates: Option<Coordinates>, env: SubmitEnv): (o: SubmitOutcome)
    requires SchedulesWellFormed(schedules) && ValidClock(env.hour, env.minute)
    ensures o.Blocked? <==> FirstUnmet(selected, location, photoDataUrl, photoBlob).Some?
    ensures o.Blocked? ==> FirstUnmet(selected, location, photoDataUrl, photoBlob) == Some(o.missing)
    ensures o.Recorded? <==> FirstUnmet(selected, location, photoDataUrl, photoBlob).None? &&
                             env.user.Some? && env.uploadOk && env.insertOk
    ensures o == Failed(UserNotFound) <==> !o.Blocked? && env.user.None?
    ensures o == Failed(UploadFailed) <==> !o.Blocked? && env.user.Some? && !env.uploadOk
    ensures o.Recorded? ==>
              FormRecord(o.record) &&
              o.record.idJadwal == selected && o.record.idGuru == env.user.value &&
              o.record.tanggal == env.date && o.record.jam == FormatHHMM(env.hour, env.minute) &&
              o.record.fotoAbsenUrl == env.publicUrl &&
              o.record.latitude == Latitude(coordinates) && o.record.longitude == Longitude(coordinates)
  {
    match FirstUnmet(selected, location, photoDataUrl, photoBlob)
    case Some(missing) => Blocked(missing)
    case None =>
      if env.user.None? then Failed(UserNotFound)
      else if !env.uploadOk then Failed(UploadFailed)
      else
        var currentTime := FormatHHMM(env.hour, env.minute);
        var p := EvaluateSelected(schedules, selected, currentTime);
        if !env.insertOk then Failed(InsertFailed)
        else Recorded(AttendanceRecord(selected, env.user.value, env.date, currentTime, p.status, p.lateness,
                                       env.publicUrl, Latitude(coordinates), Longitude(coordinates)))
  }

  /** What the button says about a click: a disabled button's submission
      would be blocked, an enabled one's is blocked exactly when the upload
      payload is missing; and a recorded check-in had a valid location. */
  lemma ButtonPredictsOutcome(
    selected: string, location: Option<GeoVerdict>, photoDataUrl: string, photoBlob: Option<Blob>,
    schedules: seq<ScheduleRow>, coordinates: Option<Coordinates>, env: SubmitEnv)
    requires SchedulesWellFormed(schedules) && ValidClock(env.hour, env.minute)
    ensures var o := SubmitResult(selected, location, photoDataUrl, photoBlob, schedules, coordinates, env);
            (!SubmitEnabled(selected, location, photoDataUrl, false) ==> o.Blocked?) &&
            (SubmitEnabled(selected, location, photoDataUrl, false) ==> (o.Blocked? <==> photoBlob.None?)) &&
            (o.Recorded? ==> LocationOk(location))
  {
  }

  /** The stored status and lateness are those of the selected slot at the
      stored time "HH:MM": the record's own `jam` reproduces its lateness. */
  lemma RecordedLatenessMatchesStoredTime(
    selected: string, location: Option<GeoVerdict>, photoDataUrl: string, photoBlob: Option<Blob>,
    schedules: seq<ScheduleRow>, coordinates: Option<Coordinates>, env: SubmitEnv)
    requires SchedulesWellFormed(schedules) && ValidClock(env.hour, env.minute)
    requires SubmitResult(selected, location, photoDataUrl, photoBlob, schedules, coordinates, env).Recorded?
    ensures var r := SubmitResult(selected, location, photoDataUrl, photoBlob, schedules, coordinates, env).record;
            Punctuality(r.status, r.keterlambatanMenit) == EvaluateSelected(schedules, selected, r.jam)
  {
  }

  /** Slot 07:00 selected, 80 m from the school, photo taken, submitted at
      07:05: one record, late by 5 minutes. */
  lemma FiveMinutesLate(photo: string, coordinates: Option<Coordinates>)
    requires photo != ""
    ensures var slot := ScheduleRow("j1", "g1", "m1", "k1", "Senin", "07:00:00", "08:30:00");
            var location := Some(LocationVerdict(Position(-2.98, 104.73, 80.0)));
            var env := SubmitEnv(Some("g1"), true, "https://example/p.jpg", 7, 5, "2026-10-19", true);
            location.value.distance == Some(80) &&
            SubmitResult("j1", location, photo, Some(Blob("jpeg")), [slot], coordinates, env) ==
            Recorded(AttendanceRecord("j1", "g1", "2026-10-19", "07:05", Terlambat, 5, "https://example/p.jpg",
                                      Latitude(coordinates), Longitude(coordinates)))
  {
    var slot := ScheduleRow("j1", "g1", "m1", "k1", "Senin", "07:00:00", "08:30:00");
    assert RoundHalfUp(80.0) == 80;
    assert FindSchedule([slot], "j1") == Some(slot);
    assert FormatHHMM(7, 5) == "07:05";
    assert MinuteOfDay("07:00:00") == 420;
  }
}
