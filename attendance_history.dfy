/** The lateness column of the teacher's attendance history: recompute the
    delay from the stored times when no lateness is stored, and map it to an
    on-time or late badge. */
module AttendanceHistory {
  import opened Records
  import opened TimeOfDay
  import CheckIn

  /** The fields of one fetched `presensi_mengajar` row that the badge reads:
      `jam`, the joined slot's `jam_mulai` (None when the join is empty) and
      `keterlambatan_menit`. An empty string is a missing value. */
  datatype HistoryRecord = HistoryRecord(jam: string, jamMulai: Option<string>, stored: StoredLateness)

  /** The times that are present are well formed. */
  predicate TimesWellFormed(r: HistoryRecord)
  {
    (r.jam != "" ==> WellFormedTime(r.jam)) &&
    (r.jamMulai.Some? && r.jamMulai.value != "" ==> WellFormedTime(r.jamMulai.value))
  }

  /** `calculateLateness`: 0 when either time is missing, otherwise the signed
      minute difference of the two times' hours and minutes. */
  function CalculateLateness(r: HistoryRecord): (d: int)
    requires TimesWellFormed(r)
    ensures r.jamMulai.None? || r.jamMulai.value == "" || r.jam == "" ==> d == 0
    ensures r.jamMulai.Some? && r.jamMulai.value != "" && r.jam != "" ==>
              d == MinuteOfDay(r.jam) - MinuteOfDay(r.jamMulai.value)
  {
    if r.jamMulai.None? || r.jamMulai.value == "" || r.jam == "" then 0
    else DelayMinutes(r.jamMulai.value, r.jam)
  }

  /** A recomputed delay can be negative: a check-in before the start. */
  lemma EarlyCheckInIsNegative()
    ensures CalculateLateness(HistoryRecord("06:50:00", Some("07:00:00"), Undefined)) == -10
  {
    assert MinuteOfDay("06:50:00") == 410;
    assert MinuteOfDay("07:00:00") == 420;
  }

  /** The recomputation looks at hours and minutes only: dropping the seconds
      of either time does not change it. */
  lemma LatenessIgnoresSeconds(jam: string, jamMulai: string, stored: StoredLateness)
    requires WellFormedTime(jam) && |jam| == 8 && WellFormedTime(jamMulai) && |jamMulai| == 8
    ensures CalculateLateness(HistoryRecord(jam, Some(jamMulai), stored)) ==
            CalculateLateness(HistoryRecord(jam[..5], Some(jamMulai[..5]), stored))
  {
    SecondsIgnored(jam);
    SecondsIgnored(jamMulai);
  }

  datatype Badge = OnTime | Late(minutes: int)

  /** The delay the badge is computed from: the stored lateness whenever the
      key is present (a stored null counts as 0), recomputed only when it is
      absent. */
  function EffectiveDelay(r: HistoryRecord): (d: int)
    requires TimesWellFormed(r)
    ensures r.stored.Minutes? ==> d == r.stored.n
    ensures r.stored.Null? ==> d == 0
    ensures r.stored.Undefined? ==> d == CalculateLateness(r)
  {
    match r.stored
    case Undefined => CalculateLateness(r)
    case Null => 0
    case Minutes(n) => n
  }

  /** `getStatusBadge`. */
  function StatusBadge(r: HistoryRecord): (b: Badge)
    requires TimesWellFormed(r)
    ensures b == OnTime <==> EffectiveDelay(r) <= 0
    ensures b.Late? ==> b.minutes == EffectiveDelay(r) && b.minutes > 0
  {
    var delay := EffectiveDelay(r);
    if delay <= 0 then OnTime else Late(delay)
  }

  /** A stored null is shown on time whatever the times say. */
  lemma StoredNullIsOnTime(jam: string, jamMulai: Option<string>)
    requires TimesWellFormed(HistoryRecord(jam, jamMulai, Null))
    ensures StatusBadge(HistoryRecord(jam, jamMulai, Null)) == OnTime
  {
  }

  /** A row written by the check-in form for slot start `jamMulai` at clock
      time hour:minute: its badge is late exactly when the stored status is
      Terlambat, with the stored minutes, and the badge is the same whether
      the lateness is read back or recomputed from the row's times. */
  lemma {:induction false} FormRecordBadge(jamMulai: string, hour: int, minute: int)
    requires WellFormedTime(jamMulai) && jamMulai != "" && ValidClock(hour, minute)
    ensures var jam := FormatHHMM(hour, minute);
            var p := CheckIn.Evaluate(jamMulai, jam);
            var read := StatusBadge(HistoryRecord(jam, Some(jamMulai), Minutes(p.lateness)));
            var recomputed := StatusBadge(HistoryRecord(jam, Some(jamMulai), Undefined));
            (read.Late? <==> p.status == Terlambat) &&
            (read.Late? ==> read.minutes == p.lateness) &&
            read == recomputed
  {
    var jam := FormatHHMM(hour, minute);
    var p := CheckIn.Evaluate(jamMulai, jam);
    assert CalculateLateness(HistoryRecord(jam, Some(jamMulai), Undefined)) == DelayMinutes(jamMulai, jam);
  }
}
