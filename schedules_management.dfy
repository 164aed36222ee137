/** The admin's teaching-schedule dialog: validation of the six fields, the
    choice between insert and update, and the form bookkeeping around them. */
module SchedulesManagement {
  import opened Records
  import opened TimeOfDay

  /** The day options of the dialog's day picker. */
  const Days: seq<string> := ["Senin", "Selasa", "Rabu", "Kamis", "Jumat", "Sabtu"]

  /** `formData`: the six columns of a slot, as strings. */
  datatype ScheduleForm = ScheduleForm(
    idGuru: string,
    idMapel: string,
    idKelas: string,
    hari: string,
    jamMulai: string,
    jamSelesai: string)

  const EmptyForm: ScheduleForm := ScheduleForm("", "", "", "", "", "")

  /** JavaScript's `<` on strings, character by character, a proper prefix
      being smaller than the longer string. It agrees with JavaScript's
      UTF-16 order on text inside the Basic Multilingual Plane, such as
      times. */
  predicate LexLess(a: string, b: string)
  {
    if |a| == 0 then |b| > 0
    else if |b| == 0 then false
    else if a[0] < b[0] then true
    else if a[0] == b[0] then LexLess(a[1..], b[1..])
    else false
  }

  datatype FormError = MissingField | StartNotBeforeEnd

  predicate AllFilled(f: ScheduleForm)
  {
    f.idGuru != "" && f.idMapel != "" && f.idKelas != "" && f.hari != "" && f.jamMulai != "" && f.jamSelesai != ""
  }

  /** The two checks at the head of `handleSubmit`: every field non-empty,
      then `jam_mulai >= jam_selesai` refused under string order. */
  function Validate(f: ScheduleForm): (r: Option<FormError>)
    ensures r.None? <==> AllFilled(f) && LexLess(f.jamMulai, f.jamSelesai)
    ensures r == Some(MissingField) <==> !AllFilled(f)
    ensures r == Some(StartNotBeforeEnd) <==> AllFilled(f) && !LexLess(f.jamMulai, f.jamSelesai)
  {
    if !AllFilled(f) then Some(MissingField)
    else if !LexLess(f.jamMulai, f.jamSelesai) then Some(StartNotBeforeEnd)
    else None
  }

  /** String order on two "HH:MM" times: first hour digit, second, then the
      minute digits (the ':' is common to both). */
  lemma {:induction false} LexLessOnClock(a: string, b: string)
    requires ClockShape(a) && ClockShape(b) && |a| == 5 && |b| == 5
    ensures LexLess(a, b) <==>
              a[0] < b[0] || (a[0] == b[0] && (a[1] < b[1] || (a[1] == b[1] &&
              (a[3] < b[3] || (a[3] == b[3] && a[4] < b[4])))))
  {
    var a1, b1 := a[1..], b[1..];
    var a2, b2 := a1[1..], b1[1..];
    var a3, b3 := a2[1..], b2[1..];
    var a4, b4 := a3[1..], b3[1..];
    assert a4[1..] == [] && b4[1..] == [];
    assert LexLess(a4, b4) <==> a[4] < b[4];
    assert LexLess(a3, b3) <==> a[3] < b[3] || (a[3] == b[3] && LexLess(a4, b4));
    assert LexLess(a2, b2) <==> LexLess(a3, b3);
    assert LexLess(a1, b1) <==> a[1] < b[1] || (a[1] == b[1] && LexLess(a2, b2));
    assert LexLess(a, b) <==> a[0] < b[0] || (a[0] == b[0] && LexLess(a1, b1));
  }

  /** For two "HH:MM" times the string comparison is the order of the times
      of day, so the dialog refuses exactly the slots that do not start
      before they end. */
  lemma {:induction false} LexLessIsTimeOrder(a: string, b: string)
    requires WellFormedTime(a) && WellFormedTime(b) && |a| == 5 && |b| == 5
    ensures LexLess(a, b) <==> MinuteOfDay(a) < MinuteOfDay(b)
  {
    LexLessOnClock(a, b);
    assert DigitValue(a[0]) < DigitValue(b[0]) <==> a[0] < b[0];
    assert DigitValue(a[1]) < DigitValue(b[1]) <==> a[1] < b[1];
    assert DigitValue(a[3]) < DigitValue(b[3]) <==> a[3] < b[3];
    assert DigitValue(a[4]) < DigitValue(b[4]) <==> a[4] < b[4];
    assert a[0] == b[0] <==> DigitValue(a[0]) == DigitValue(b[0]);
    assert a[1] == b[1] <==> DigitValue(a[1]) == DigitValue(b[1]);
    assert a[3] == b[3] <==> DigitValue(a[3]) == DigitValue(b[3]);
  }

  /** For "HH:MM" times the dialog accepts a filled form exactly when the
      start is earlier in the day than the end. */
  lemma ValidateIsTimeOrder(f: ScheduleForm)
    requires AllFilled(f)
    requires WellFormedTime(f.jamMulai) && |f.jamMulai| == 5 && WellFormedTime(f.jamSelesai) && |f.jamSelesai| == 5
    ensures Validate(f).None? <==> MinuteOfDay(f.jamMulai) < MinuteOfDay(f.jamSelesai)
  {
    LexLessIsTimeOrder(f.jamMulai, f.jamSelesai);
  }

  /** A proper prefix is smaller. */
  lemma {:induction false} PrefixIsLess(a: string, b: string)
    requires |a| < |b| && a == b[..|a|]
    ensures LexLess(a, b)
  {
    if |a| > 0 {
      assert a[0] == b[0];
      assert a[1..] == b[1..][..|a[1..]|];
      PrefixIsLess(a[1..], b[1..]);
    }
  }

  /** A start typed as "HH:MM" and an end loaded from the store as the same
      time with seconds pass the check: editing a slot can keep its end time
      equal to its start time. */
  lemma EqualTimesMayPass(f: ScheduleForm, seconds: string)
    requires AllFilled(f) && |f.jamMulai| == 5 && f.jamSelesai == f.jamMulai + seconds && |seconds| > 0
    ensures Validate(f).None?
  {
    PrefixIsLess(f.jamMulai, f.jamSelesai);
  }

  /** The concrete case: "08:00" and "08:00:00" are the same minute of day, yet
      the form is accepted. */
  lemma EightOClockPasses()
    ensures var f := ScheduleForm("g", "m", "k", "Senin", "08:00", "08:00:00");
            Validate(f).None? && MinuteOfDay(f.jamMulai) == MinuteOfDay(f.jamSelesai)
  {
    EqualTimesMayPass(ScheduleForm("g", "m", "k", "Senin", "08:00", "08:00:00"), ":00");
  }

  /** The write `handleSubmit` sends: insert when no slot is being edited,
      otherwise an update of that slot's id. */
  datatype Write = Insert(form: ScheduleForm) | Update(idJadwal: string, form: ScheduleForm)

  function PlannedWrite(f: ScheduleForm, editing: Option<ScheduleRow>): (w: Write)
    ensures w.form == f
    ensures w.Insert? <==> editing.None?
    ensures w.Update? ==> w.idJadwal == editing.value.idJadwal
  {
    if editing.None? then Insert(f) else Update(editing.value.idJadwal, f)
  }

  /** The form filled from a row by the edit action: exactly its six fields. */
  function FormOf(row: ScheduleRow): (f: ScheduleForm)
    ensures f.idGuru == row.idGuru && f.idMapel == row.idMapel && f.idKelas == row.idKelas
    ensures f.hari == row.hari && f.jamMulai == row.jamMulai && f.jamSelesai == row.jamSelesai
  {
    ScheduleForm(row.idGuru, row.idMapel, row.idKelas, row.hari, row.jamMulai, row.jamSelesai)
  }

  /** "Minggu" (Sunday) is not one of the day options. */
  lemma SundayNotOffered()
    ensures "Minggu" !in Days
  {
  }

  class ScheduleDialog {
    var form: ScheduleForm
    var editing: Option<ScheduleRow>
    var isOpen: bool

    constructor ()
      ensures form == EmptyForm && editing == None && !isOpen
    {
      form := EmptyForm;
      editing := None;
      isOpen := false;
    }

    /** `resetForm`. */
    method ResetForm()
      modifies this`form, this`editing
      ensures form == EmptyForm && editing == None
    {
      form := EmptyForm;
      editing := None;
    }

    /** The "Tambah Jadwal" trigger: reset, then open the dialog. */
    method OpenForNew()
      modifies this
      ensures form == EmptyForm && editing == None && isOpen
    {
      ResetForm();
      isOpen := true;
    }

    /** The edit button of a table row. */
    method EditRow(row: ScheduleRow)
      modifies this
      ensures editing == Some(row) && form == FormOf(row) && isOpen
    {
      editing := Some(row);
      form := FormOf(row);
      isOpen := true;
    }

    /** The day picker: option `i` of the rendered list. */
    method ChooseDay(i: nat)
      requires i < |Days|
      modifies this`form
      ensures form == old(form).(hari := Days[i]) && form.hari != "Minggu"
    {
      form := form.(hari := Days[i]);
    }

    /** The start and end time inputs. */
    method SetTimes(jamMulai: string, jamSelesai: string)
      modifies this`form
      ensures form == old(form).(jamMulai := jamMulai, jamSelesai := jamSelesai)
    {
      form := form.(jamMulai := jamMulai, jamSelesai := jamSelesai);
    }

    /** `handleSubmit`. `writeOk` is the store's answer. A refused form sends
        nothing; a failed write leaves the dialog open and the form as typed;
        a successful one closes the dialog and resets the form. */
    method Submit(writeOk: bool) returns (sent: Option<Write>, error: Option<FormError>)
      modifies this
      ensures error == Validate(old(form))
      ensures sent == if error.None? then Some(PlannedWrite(old(form), old(editing))) else None
      ensures error.None? && writeOk ==> !isOpen && form == EmptyForm && editing == None
      ensures error.Some? || !writeOk ==> isOpen == old(isOpen) && form == old(form) && editing == old(editing)
    {
      error := Validate(form);
      if error.Some? {
        return None, error;
      }
      sent := Some(PlannedWrite(form, editing));
      if !writeOk {
        return;
      }
      isOpen := false;
      ResetForm();
    }
  }
}
