/** The teacher's weekly timetable: slots grouped under the six school days,
    and the card of the current day highlighted. */
module TeacherSchedule {
  import opened Records
  import CheckIn
  import SchedulesManagement

  /** `DAYS`: Monday to Saturday. */
  const Days: seq<string> := ["Senin", "Selasa", "Rabu", "Kamis", "Jumat", "Sabtu"]

  /** `schedules.filter(s => s.hari === day)`. */
  function SchedulesOn(schedules: seq<ScheduleRow>, day: string): (r: seq<ScheduleRow>)
    ensures |r| <= |schedules|
    ensures forall s :: s in r <==> s in schedules && s.hari == day
  {
    if |schedules| == 0 then []
    else (if schedules[0].hari == day then [schedules[0]] else []) + SchedulesOn(schedules[1..], day)
  }

  /** `groupSchedulesByDay`: one entry per day of `Days`, each the slots of
      that day. */
  function GroupByDay(schedules: seq<ScheduleRow>): (g: map<string, seq<ScheduleRow>>)
    ensures g.Keys == set d | d in Days
    ensures forall d :: d in g ==> g[d] == SchedulesOn(schedules, d)
  {
    map d | d in Days :: SchedulesOn(schedules, d)
  }

  /** Filtering keeps the original order: it distributes over concatenation. */
  lemma {:induction false} SchedulesOnAppend(a: seq<ScheduleRow>, b: seq<ScheduleRow>, day: string)
    ensures SchedulesOn(a + b, day) == SchedulesOn(a, day) + SchedulesOn(b, day)
  {
    if |a| == 0 {
      assert a + b == b;
    } else {
      assert (a + b)[1..] == a[1..] + b;
      SchedulesOnAppend(a[1..], b, day);
    }
  }

  /** A slot on a school day is in its own day's group and in no other; a slot
      whose day is not a school day is in no group. */
  lemma GroupsPartition(schedules: seq<ScheduleRow>, s: ScheduleRow)
    requires s in schedules
    ensures var g := GroupByDay(schedules);
            forall d :: d in g ==> (s in g[d] <==> s.hari == d)
    ensures s.hari !in Days ==> forall d :: d in GroupByDay(schedules) ==> s !in GroupByDay(schedules)[d]
  {
  }

  predicate Distinct(days: seq<string>)
  {
    forall i, j :: 0 <= i < j < |days| ==> days[i] != days[j]
  }

  /** Total size of the groups of `days`. */
  function GroupSizes(schedules: seq<ScheduleRow>, days: seq<string>): nat
  {
    if |days| == 0 then 0 else |SchedulesOn(schedules, days[0])| + GroupSizes(schedules, days[1..])
  }

  /** The number of slots whose day is among `days`. */
  function CountOn(schedules: seq<ScheduleRow>, days: seq<string>): nat
  {
    if |schedules| == 0 then 0
    else (if schedules[0].hari in days then 1 else 0) + CountOn(schedules[1..], days)
  }

  lemma {:induction false} GroupSizesOfCons(x: ScheduleRow, rest: seq<ScheduleRow>, days: seq<string>)
    requires Distinct(days)
    ensures GroupSizes([x] + rest, days) == GroupSizes(rest, days) + (if x.hari in days then 1 else 0)
  {
    if |days| > 0 {
      assert ([x] + rest)[1..] == rest;
      GroupSizesOfCons(x, rest, days[1..]);
      assert x.hari in days <==> x.hari == days[0] || x.hari in days[1..];
      assert x.hari == days[0] ==> x.hari !in days[1..];
    }
  }

  /** The groups together hold each school-day slot exactly once: their sizes
      add up to the number of slots on a day of `Days`. */
  lemma {:induction false} GroupSizesCountKnownDays(schedules: seq<ScheduleRow>)
    ensures GroupSizes(schedules, Days) == CountOn(schedules, Days)
  {
    if |schedules| == 0 {
      GroupSizesOfEmpty(Days);
    } else {
      assert schedules == [schedules[0]] + schedules[1..];
      GroupSizesOfCons(schedules[0], schedules[1..], Days);
      GroupSizesCountKnownDays(schedules[1..]);
    }
  }

  lemma {:induction false} GroupSizesOfEmpty(days: seq<string>)
    ensures GroupSizes([], days) == 0
  {
    if |days| > 0 {
      GroupSizesOfEmpty(days[1..]);
    }
  }

  /** `DAYS[new Date().getDay() - 1]`: the day whose card is highlighted, or
      None on a Sunday (index -1 is undefined). */
  function Today(weekday: int): (t: Option<string>)
    requires 0 <= weekday <= 6
    ensures t.None? <==> weekday == 0
    ensures t.Some? ==> t.value in Days && t.value == Days[weekday - 1]
  {
    if weekday == 0 then None else Some(Days[weekday - 1])
  }

  /** At most one card is highlighted, and none on a Sunday. */
  lemma {:induction false} AtMostOneHighlighted(weekday: int, i: nat, j: nat)
    requires 0 <= weekday <= 6 && i < |Days| && j < |Days|
    requires Today(weekday) == Some(Days[i]) && Today(weekday) == Some(Days[j])
    ensures i == j && weekday == i + 1
  {
    assert Distinct(Days);
  }

  /** The timetable's day agrees with the day the check-in form queries
      with on Monday to Saturday; on Sunday the form asks for "Minggu", which
      is no day of the timetable. */
  lemma TodayMatchesCheckInDay(weekday: int)
    requires 0 <= weekday <= 6
    ensures weekday > 0 ==> Today(weekday) == Some(CheckIn.FormDays[weekday])
    ensures weekday == 0 ==> Today(weekday).None? && CheckIn.FormDays[weekday] !in Days
  {
  }

  /** The timetable's days are the admin dialog's day options. */
  lemma SameDaysAsAdminDialog()
    ensures Days == SchedulesManagement.Days
  {
  }
}
