# Teacher check-in: a Dafny model

This project models the attendance core of a school web application in which
teachers register their presence. On the check-in form a teacher:

- passes a geofence check: within 150 m of the school;
- takes a live photo: a camera state machine with a bounded wait for the preview element and a mirrored capture;
- picks one of today's teaching slots and submits.

The form checks three requirements in order, uploads the photo, works out
from the clock whether the teacher is on time (`Hadir`) or late (`Terlambat`,
with the minutes of lateness), and inserts one `presensi_mengajar` row.

Three smaller pieces sit next to it. The attendance history shows each row's
on-time or late badge. The admin's schedule dialog validates a slot and
inserts or updates it. The teacher's weekly timetable groups the slots under
the six school days.

Modules: one per component, except that the check-in form has three (its device side, its decisions and its state), plus two shared modules (`TimeOfDay` and `Records`):

- `TimeOfDay` (time_of_day.dfy): the "HH:MM" and "HH:MM:SS" strings all the components parse, and the "HH:MM" the form formats.
- `Records` (records.dfy): the row shapes and the `attendance_status` enum of the store.
- `Camera` (camera.dfy): camera states, media streams and their tracks, the bind-retry loop, the camera error messages, and the mirrored frame.
- `CheckIn` (check_in.dfy): the check-in form's decisions as functions. These are the geofence verdict, the gate and checklist, the punctuality evaluator, and the submission outcome with its record.
- `CheckInSession` (check_in_session.dfy): the check-in form as a class. Its fields are the component's state, and each event handler is a method.
- `AttendanceHistory` (attendance_history.dfy): `calculateLateness` and `getStatusBadge`.
- `SchedulesManagement` (schedules_management.dfy): the schedule dialog as a class, with its validation as functions.
- `TeacherSchedule` (teacher_schedule.dfy): `groupSchedulesByDay` and today's card.

Every device, network and clock answer becomes a parameter of the handler that receives it:

- the position fix, with its distance already computed;
- `getUserMedia`'s result, and when the preview element appears;
- the canvas context and the JPEG encoder;
- the signed-in user, the upload and insert results, and the photo's public URL;
- the clock, as an hour and minute plus the date string.

Behaviour of the code that its own messages or a first reading would not suggest:

- The bind loop logs `[RETRY n/15]` and gives up "after 15 retries" (AttendanceForm.tsx:276, :292), but it looks for the preview element 16 times, at retry counts 0 to 15: 15 retries after the first look, the last one logged as 16/15.
- `handleSubmit` reports only the first unmet requirement, checking the slot, then the location, then the photo. Only the on-screen checklist shows all three independently. The checklist and the submit button look at the photo preview only, but the gate also needs the upload payload.
- When binding the preview fails, the acquired stream stays in `stream` while the camera state is `error`. It is stopped only when a later stream replaces it or when the form unmounts.
- The stored record holds the latitude and longitude but not the distance.
- A retake while the camera stays ready mounts a new `<video>` that never receives the stream, so no later capture succeeds until the camera is closed and opened again (see "## Findings").

## Model

| member | source | states |
|---|---|---|
| `TimeOfDay.MinuteOfDay` | src/components/dashboard/teacher/AttendanceHistory.tsx:52-60 | minutes since midnight of a parsed time; below 1440, and its hour and minute are recovered by `/ 60` and `% 60` |
| `TimeOfDay.DelayMinutes` | src/components/dashboard/teacher/AttendanceForm.tsx:579-591 | signed minute difference of two times of the same day; non-positive exactly when the check-in is not after the start |
| `TimeOfDay.FormatHHMM` | src/components/dashboard/teacher/AttendanceForm.tsx:573 | the "HH:MM" check-in time is a well-formed five-character time that parses back to the same hour and minute |
| `TimeOfDay.ParseThenFormat` | src/components/dashboard/teacher/AttendanceForm.tsx:573-585 | formatting a parsed "HH:MM" gives the string back (inverse of FormatHHMM) |
| `TimeOfDay.SecondsIgnored` | src/components/dashboard/teacher/AttendanceHistory.tsx:56-60 | a seconds field never changes the minute of day |
| `Camera.MediaStream.StopAllTracks` | src/components/dashboard/teacher/AttendanceForm.tsx:215-219 | after the loop every track of the stream has ended |
| `Camera.AttachStreamToVideo` | src/components/dashboard/teacher/AttendanceForm.tsx:274-297 | the element is found at the first count where it exists, at most 16 looks (counts 0..15), giving up exactly when none of them finds it; retries from counts 0-4 use an animation frame, later ones a 100 ms timeout |
| `Camera.CameraErrorMessage` | src/components/dashboard/teacher/AttendanceForm.tsx:368-378 | a non-empty message, the generic one exactly for names other than the four known ones |
| `Camera.DistinctCameraErrorMessages` | src/components/dashboard/teacher/AttendanceForm.tsx:370-377 | each known error name has a message no other name shares |
| `Camera.BlankRaster` | src/components/dashboard/teacher/AttendanceForm.tsx:426-428 | resizing the canvas to the video's size clears it to that size |
| `Camera.Mirrored` | src/components/dashboard/teacher/AttendanceForm.tsx:436-440 | the captured raster has the video's size and column x is the video's column width-1-x |
| `Camera.MirroredTwice` | src/components/dashboard/teacher/AttendanceForm.tsx:436-440 | mirroring is its own inverse |
| `CheckIn.RoundHalfUp` | src/components/dashboard/teacher/AttendanceForm.tsx:192 | `Math.round`: the nearest integer, halves up |
| `CheckIn.LocationVerdict` | src/components/dashboard/teacher/AttendanceForm.tsx:173-210 | valid iff there is a fix and its unrounded distance is at most 150; a distance (rounded) is stored iff there is a fix; missing geolocation and position errors give their own messages |
| `CheckIn.ShownDistanceAgreesWithVerdict` | src/components/dashboard/teacher/AttendanceForm.tsx:189-200 | a valid verdict never shows more than 150 m, and any shown distance under 150 m is valid |
| `CheckIn.GeofenceBoundary` | src/components/dashboard/teacher/AttendanceForm.tsx:19 | 150 m is valid, 151 m is not, and 150.25 m is refused while shown as 150 m |
| `CheckIn.FirstUnmet` | src/components/dashboard/teacher/AttendanceForm.tsx:502-531 | the gate passes iff slot, valid location, preview and payload all exist; otherwise it names the first unmet one in the order slot, location, photo |
| `CheckIn.GateAgreesWithChecklist` | src/components/dashboard/teacher/AttendanceForm.tsx:933-972 | a passing gate means a fully ticked checklist and an enabled button; a blocking gate's requirement is unticked, except a missing payload behind a ticked photo; an enabled button passes the gate iff the payload exists |
| `CheckIn.RequirementChecklist` | src/components/dashboard/teacher/AttendanceForm.tsx:933-966 | each item is ticked on its own requirement whatever the other two are (unticked iff the gate, with the others met, names it); fully ticked iff the gate passes given a payload; the first unticked item in the gate's order is the requirement the gate names |
| `CheckIn.SubmitEnabled` | src/components/dashboard/teacher/AttendanceForm.tsx:969-972 | the button is enabled iff nothing is loading and the checklist is fully ticked |
| `CheckIn.EnabledButBlocked` | src/components/dashboard/teacher/AttendanceForm.tsx:524-531 | the submit button can be enabled while the gate refuses for a missing payload |
| `CheckIn.Evaluate` | src/components/dashboard/teacher/AttendanceForm.tsx:579-600 | never absent, lateness non-negative, late iff lateness positive, lateness is the positive part of the delay |
| `CheckIn.OnTimeIffNotAfterStart` | src/components/dashboard/teacher/AttendanceForm.tsx:594-600 | on time with lateness 0 iff the check-in is not after the start; otherwise late by exactly the minutes in between |
| `CheckIn.QuarterPastSeven` | src/components/dashboard/teacher/AttendanceForm.tsx:579-600 | a 07:00 slot and a 07:15 check-in give late by 15 |
| `CheckIn.FindSchedule` | src/components/dashboard/teacher/AttendanceForm.tsx:574 | None iff no loaded slot has the id; otherwise a loaded slot with that id, the first one |
| `CheckIn.EvaluateSelected` | src/components/dashboard/teacher/AttendanceForm.tsx:572-601 | a selection matching no loaded slot gives on time with lateness 0; otherwise the evaluation of the slot's start |
| `CheckIn.SubmitResult` | src/components/dashboard/teacher/AttendanceForm.tsx:502-656 | blocked iff the gate blocks, recorded iff gate, user, upload and insert all succeed; the record is never absent, has non-negative lateness, is late iff lateness is positive, and carries the selection, the user, the date, the "HH:MM" time, the photo URL and the coordinates |
| `CheckIn.ButtonPredictsOutcome` | src/components/dashboard/teacher/AttendanceForm.tsx:504-531 | a click on a disabled button would be blocked; an enabled button's submission is blocked iff the payload is missing; a recorded check-in had a valid location |
| `CheckIn.RecordedLatenessMatchesStoredTime` | src/components/dashboard/teacher/AttendanceForm.tsx:573-610 | the stored status and lateness are those of the selected slot at the stored `jam` |
| `CheckIn.FiveMinutesLate` | src/components/dashboard/teacher/AttendanceForm.tsx:502-656 | 07:00 slot, 80 m, any photo preview with a payload, submit at 07:05: exactly the record late by 5 |
| `CheckInSession.AttendanceForm.constructor` | src/components/dashboard/teacher/AttendanceForm.tsx:23-43 | the initial state: nothing loaded or selected, camera idle without stream, no photo |
| `CheckInSession.AttendanceForm.LoadSchedules` | src/components/dashboard/teacher/AttendanceForm.tsx:101-156 | a successful fetch replaces the slots, a failed one keeps them |
| `CheckInSession.AttendanceForm.SelectSchedule` | src/components/dashboard/teacher/AttendanceForm.tsx:681 | the selection becomes the picked id |
| `CheckInSession.AttendanceForm.CheckLocation` | src/components/dashboard/teacher/AttendanceForm.tsx:173-210 | the stored verdict is LocationVerdict of the fix; coordinates change only on a fix |
| `CheckInSession.AttendanceForm.ReplaceStream` | src/components/dashboard/teacher/AttendanceForm.tsx:80-87 | replacing the held stream by a different value stops the old stream's tracks; setting the same stream again leaves its tracks alone |
| `CheckInSession.AttendanceForm.StopCamera` | src/components/dashboard/teacher/AttendanceForm.tsx:213-228 | the old stream's tracks are stopped, no stream is held, the state is idle with no error, and no preview element holds a stream; also from idle with no stream; nothing else changes |
| `CheckInSession.AttendanceForm.StartCamera` | src/components/dashboard/teacher/AttendanceForm.tsx:231-389 | ends ready or error; ready iff supported, granted, no photo is shown (so the `<video>` is rendered), the element appears within the budget and is still there after a frame, whatever `play()` did; the error message is the classified one; a granted stream is kept even on error and replaces (and stops) the old one; an unsupported or rejected request leaves the held stream's tracks untouched; the preview holds the new stream iff ready |
| `CheckInSession.AttendanceForm.BindGranted` | src/components/dashboard/teacher/AttendanceForm.tsx:268-356 | the granted stream is held (the old one stopped, the same one left running); ready iff no photo is shown, the element appears within the budget and survives a frame, and then the preview holds the stream; otherwise the generic error and no preview |
| `CheckInSession.AttendanceForm.CapturePhoto` | src/components/dashboard/teacher/AttendanceForm.tsx:392-470 | no rendered `<video>`, a 0 x 0 video (no stream bound, or an empty camera frame) or no context leave the photo unchanged; on success the canvas is the mirrored frame at the video's size, the preview is its JPEG data URL, the payload is its JPEG only when `toBlob` yields one, and the `<img>` replaces the video, which loses its stream |
| `CheckInSession.AttendanceForm.RetakePhoto` | src/components/dashboard/teacher/AttendanceForm.tsx:473-490 | both photo forms are cleared; from idle the camera is started with the given device answers, with StartCamera's outcome, message, stream and preview; otherwise camera, stream and the stream's tracks are unchanged and the newly mounted preview has no stream |
| `CheckInSession.AttendanceForm.RetakePhotoRebinding` | src/components/dashboard/teacher/AttendanceForm.tsx:473-490 | the retake the "Kamera aktif kembali" notice describes: both photo forms cleared; from idle the same start as RetakePhoto (outcome, message, stream, preview); otherwise camera, stream and the stream's tracks unchanged, and a ready camera previews its held stream |
| `CheckInSession.AttendanceForm.ConfirmPhoto` | src/components/dashboard/teacher/AttendanceForm.tsx:493-500 | changes nothing and confirms iff preview and payload both exist |
| `CheckInSession.AttendanceForm.HandleSubmit` | src/components/dashboard/teacher/AttendanceForm.tsx:502-656 | the outcome is SubmitResult of the state; a disabled button means blocked, an enabled one is blocked iff the payload is missing; a record always carries coordinates; only a recorded outcome stops the camera, clears the photo and resets the selection; on any other outcome they are unchanged and the held stream's tracks are untouched; loading is off afterwards |
| `CheckInSession.AttendanceForm.ClearAfterRecord` | src/components/dashboard/teacher/AttendanceForm.tsx:637-646 | after a stored check-in the camera is stopped with its tracks ended, the photo is dropped and the selection reset; location and slots are kept |
| `CheckInSession.AttendanceForm.CanSubmit` | src/components/dashboard/teacher/AttendanceForm.tsx:969-972 | between events the button is enabled iff the gate passes given a payload |
| `CheckInSession.AttendanceForm.Unmount` | src/components/dashboard/teacher/AttendanceForm.tsx:80-87 | unmounting stops the held stream's tracks |
| `CheckInSession.OpenedOnSlot` | src/components/dashboard/teacher/AttendanceForm.tsx:101-210 | a fresh form after loading the 07:00 slot, a fix 80 m away and selecting the slot holds exactly that slot, selection, verdict and coordinates, and no stream or photo |
| `CheckInSession.OpenedAndPhotographed` | src/components/dashboard/teacher/AttendanceForm.tsx:231-470 | starting the camera with the element at the third look and taking one photo leaves the form ready with the device's stream, a preview and a payload |
| `CheckInSession.LateCheckInScenario` | src/components/dashboard/teacher/AttendanceForm.tsx:231-656 | from a fresh form through camera start, capture, selection and submit at 07:05: one record late by 5, camera idle, device tracks stopped |
| `CheckInSession.RetakeFromReadyCannotCapture` | src/components/dashboard/teacher/AttendanceForm.tsx:473-490 | photo, retake while ready, capture with a live frame: still ready, capture refused as not ready, no photo |
| `CheckInSession.RetakeRebindingThenCapture` | src/components/dashboard/teacher/AttendanceForm.tsx:392-490 | the same steps with the rebinding retake: the capture succeeds |
| `AttendanceHistory.CalculateLateness` | src/components/dashboard/teacher/AttendanceHistory.tsx:48-67 | 0 when either time is missing, otherwise the signed minute difference of hours and minutes |
| `AttendanceHistory.EarlyCheckInIsNegative` | src/components/dashboard/teacher/AttendanceHistory.tsx:62-66 | the recomputed delay may be negative |
| `AttendanceHistory.LatenessIgnoresSeconds` | src/components/dashboard/teacher/AttendanceHistory.tsx:56-60 | dropping the seconds of either time does not change the delay |
| `AttendanceHistory.EffectiveDelay` | src/components/dashboard/teacher/AttendanceHistory.tsx:70-72 | the stored lateness whenever the key is present (null as 0), recomputed only when absent |
| `AttendanceHistory.StatusBadge` | src/components/dashboard/teacher/AttendanceHistory.tsx:69-87 | on time iff the delay is at most 0, otherwise late with exactly the delay |
| `AttendanceHistory.StoredNullIsOnTime` | src/integrations/supabase/types.ts:116 | a stored null is shown on time |
| `AttendanceHistory.FormRecordBadge` | src/components/dashboard/teacher/AttendanceHistory.tsx:69-87 | for a row written by the check-in form the badge is late iff the status is Terlambat, with the stored minutes, and reading or recomputing the lateness gives the same badge |
| `SchedulesManagement.Validate` | src/components/dashboard/admin/SchedulesManagement.tsx:130-149 | accepted iff all six fields are non-empty and the start is string-less than the end; a missing field is reported before the time check |
| `SchedulesManagement.LexLessOnClock` | src/components/dashboard/admin/SchedulesManagement.tsx:142 | string order on two "HH:MM" is the order of their digits |
| `SchedulesManagement.LexLessIsTimeOrder` | src/components/dashboard/admin/SchedulesManagement.tsx:142 | for two "HH:MM" times string order is minute-of-day order |
| `SchedulesManagement.ValidateIsTimeOrder` | src/components/dashboard/admin/SchedulesManagement.tsx:142-149 | for "HH:MM" times a filled form is accepted iff the start is earlier in the day than the end |
| `SchedulesManagement.PrefixIsLess` | src/components/dashboard/admin/SchedulesManagement.tsx:142 | a proper prefix compares less |
| `SchedulesManagement.EqualTimesMayPass` | src/components/dashboard/admin/SchedulesManagement.tsx:142 | a start "HH:MM" with an end of the same time plus seconds is accepted |
| `SchedulesManagement.EightOClockPasses` | src/components/dashboard/admin/SchedulesManagement.tsx:407-408 | "08:00" to "08:00:00", equal times, passes validation |
| `SchedulesManagement.PlannedWrite` | src/components/dashboard/admin/SchedulesManagement.tsx:153-186 | insert iff nothing is being edited, otherwise update of the edited row's id; the form is sent as it is |
| `SchedulesManagement.FormOf` | src/components/dashboard/admin/SchedulesManagement.tsx:402-409 | the edit action copies exactly the row's six fields |
| `SchedulesManagement.SundayNotOffered` | src/components/dashboard/admin/SchedulesManagement.tsx:32 | "Minggu" is not a day option |
| `SchedulesManagement.ScheduleDialog.constructor` | src/components/dashboard/admin/SchedulesManagement.tsx:40-49 | dialog closed, empty form, nothing edited |
| `SchedulesManagement.ScheduleDialog.ResetForm` | src/components/dashboard/admin/SchedulesManagement.tsx:225-235 | every field empty and nothing edited |
| `SchedulesManagement.ScheduleDialog.OpenForNew` | src/components/dashboard/admin/SchedulesManagement.tsx:241-246 | the add button opens the dialog on an empty form |
| `SchedulesManagement.ScheduleDialog.EditRow` | src/components/dashboard/admin/SchedulesManagement.tsx:400-411 | the row is being edited, the form is its six fields, and the dialog is open |
| `SchedulesManagement.ScheduleDialog.ChooseDay` | src/components/dashboard/admin/SchedulesManagement.tsx:320-336 | the day becomes one of the options, never "Minggu"; other fields unchanged |
| `SchedulesManagement.ScheduleDialog.SetTimes` | src/components/dashboard/admin/SchedulesManagement.tsx:339-363 | the time inputs replace only the two times |
| `SchedulesManagement.ScheduleDialog.Submit` | src/components/dashboard/admin/SchedulesManagement.tsx:127-198 | the error is Validate of the form; a valid form sends PlannedWrite and nothing is sent otherwise; a successful write closes and resets; a refusal or failed write leaves dialog and form as they were |
| `TeacherSchedule.SchedulesOn` | src/components/dashboard/teacher/TeacherSchedule.tsx:59 | exactly the slots of that day, never more than the input |
| `TeacherSchedule.GroupByDay` | src/components/dashboard/teacher/TeacherSchedule.tsx:56-62 | keys are exactly the six days; each group is the day's filter |
| `TeacherSchedule.SchedulesOnAppend` | src/components/dashboard/teacher/TeacherSchedule.tsx:59 | filtering distributes over concatenation, so each group keeps the input order |
| `TeacherSchedule.GroupsPartition` | src/components/dashboard/teacher/TeacherSchedule.tsx:56-62 | a slot is in the group of its own day only; a slot of an unknown day is in none |
| `TeacherSchedule.GroupSizesCountKnownDays` | src/components/dashboard/teacher/TeacherSchedule.tsx:56-62 | group sizes add up to the number of slots on a school day |
| `TeacherSchedule.Today` | src/components/dashboard/teacher/TeacherSchedule.tsx:65 | None exactly on Sunday, otherwise day weekday-1 |
| `TeacherSchedule.AtMostOneHighlighted` | src/components/dashboard/teacher/TeacherSchedule.tsx:69-82 | at most one card is highlighted, the one of that weekday |
| `TeacherSchedule.TodayMatchesCheckInDay` | src/components/dashboard/teacher/AttendanceForm.tsx:114-115 | Monday to Saturday the timetable's day is the day the check-in form queries; Sunday's "Minggu" is no timetable day |
| `TeacherSchedule.SameDaysAsAdminDialog` | src/components/dashboard/teacher/TeacherSchedule.tsx:7 | the timetable's days are the admin dialog's options |

## Left out

- The haversine distance (`calculateDistance`) is floating-point trigonometry. A position fix carries its distance as a real number, and only the 150 m test and the rounding are modelled.
- Supabase is not modelled: authentication, storage upload and public URLs, inserts, updates, deletes, realtime channels and server-side query filters. Each result is a parameter. The upload file name built from `Date.now()` is not modelled.
- Browser APIs are not modelled: `getUserMedia`, `video.play()`, the animation-frame and timeout scheduling, canvas drawing, JPEG encoding and `URL.revokeObjectURL`. They appear as parameters: a stream or an error name, when the preview element exists, a context flag, an abstract encoder, and whether `toBlob` produced a payload. The mirror is stated on an abstract pixel grid.
- Clock and date handling is not modelled: `new Date()`, `toISOString()` and daylight-saving effects of `setHours`. The check-in time is an hour and minute, and the date is an opaque string.
- Time strings that are not "HH:MM" or "HH:MM:SS" are assumed away. In the source, `split(':').map(Number)` would turn them into NaN.
- The evaluator compares minutes of one day, so a check-in after midnight for a late-evening slot counts as early. The source has no handling for this either.
- Asynchrony is not modelled: each handler is one atomic step, so `isLoading` is true only inside `HandleSubmit`. Handlers cannot interleave, and the camera callbacks cannot race with a submission.
- The preview element's lifetime is modelled through what it renders from: it exists while no photo is shown and the camera is starting or ready. Its intrinsic size is 0 x 0 without a stream, and otherwise that of the camera frame passed in. When the element appears during `startCamera` is a parameter.
- Toasts, console logging, the debug panel and all rendering other than the checklist and the submit button's enabled state are not modelled.
- `handleDelete` and the fetches of teachers, subjects and classes in the schedule dialog are plain store calls, as are the teacher, subject and class pickers, which only copy an id into the form.
- The login page, the teacher, subject and class management pages, the attendance report, the dashboards and the landing page are not part of this model.
- CheckInSession.AttendanceForm.StartCamera: the timers of the bind retries are stated on `Camera.AttachStreamToVideo` and are not repeated in the session's contract.

## Findings

| source | as written | input that shows it | evidently intended | confidence | as-written member | corrected member |
|---|---|---|---|---|---|---|
| src/components/dashboard/teacher/AttendanceForm.tsx:473-490 | `retakePhoto` clears the photo and calls `startCamera` only when the camera is idle; from ready, the `<video>` that mounts in place of the `<img>` (:772-787) never gets `srcObject` (set only at :312), so its size stays 0 x 0 | take a photo, press "Ulangi Foto" while the camera is ready, press "Ambil Foto": the capture stops at the 0 x 0 check (:414) | after a retake the camera previews again and a new photo can be taken, as the "Kamera aktif kembali. Ambil foto baru." notice says | high, not executed | `CheckInSession.RetakeFromReadyCannotCapture` | `CheckInSession.AttendanceForm.RetakePhotoRebinding` (used by `CheckInSession.RetakeRebindingThenCapture`) |
