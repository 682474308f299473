/** The reminder form of the client's `ReminderViewModel`: the form state, the actions that
    reassign it, the save that validates the form and encodes it as a reminder row, and
    the edit load that decodes a row back into a form. */
module ReminderForms {
  import opened Wrappers
  import opened Strings
  import opened Sorting
  import opened ReminderEntities
  import opened ClientModels

  /** `ReminderFormUiState`; a time is a number of milliseconds. */
  datatype ReminderFormUiState = ReminderFormUiState(
    medicineName: string,
    medicineId: Option<int>,
    dosage: string,
    frequency: ReminderFrequency,
    times: seq<string>,
    daysOfWeek: seq<int>,
    startDate: int,
    endDate: Option<int>,
    instructions: string,
    isLoading: bool,
    error: Option<string>,
    isSaved: bool)

  /** Monday to Sunday. */
  const AllDays: seq<int> := [1, 2, 3, 4, 5, 6, 7]

  /** The form's default arguments, `now` standing for `System.currentTimeMillis()`. */
  function DefaultForm(now: int): (f: ReminderFormUiState)
    ensures f.frequency == Daily && f.times == ["09:00"] && f.daysOfWeek == AllDays
    ensures f.startDate == now && f.endDate.None? && f.error.None? && !f.isSaved && !f.isLoading
    ensures SortedBy(f.times, LexLe) && Distinct(f.times) && SortedBy(f.daysOfWeek, IntLe) && Distinct(f.daysOfWeek)
  {
    ReminderFormUiState("", None, "", Daily, ["09:00"], AllDays, now, None, "", false, None, false)
  }

  // Clock times.

  /** A zero-padded `HH:MM` time of day. */
  predicate IsClockTime(s: string)
  {
    |s| == 5 && IsDigit(s[0]) && IsDigit(s[1]) && s[2] == ':' && IsDigit(s[3]) && IsDigit(s[4]) &&
    10 * DigitValue(s[0]) + DigitValue(s[1]) < 24 && DigitValue(s[3]) < 6
  }

  /** The minutes since midnight a clock time names. */
  function Minutes(s: string): nat
    requires IsClockTime(s)
  {
    (10 * DigitValue(s[0]) + DigitValue(s[1])) * 60 + 10 * DigitValue(s[3]) + DigitValue(s[4])
  }

  /** `String.format("%02d:%02d", hour, minute)`, as the time picker builds a time. */
  function FormatClock(hour: nat, minute: nat): (s: string)
    requires hour < 24 && minute < 60
    ensures IsClockTime(s) && Minutes(s) == 60 * hour + minute
  {
    [DigitChar(hour / 10), DigitChar(hour % 10), ':', DigitChar(minute / 10), DigitChar(minute % 10)]
  }

  /** On clock times the string order is the order of the day, so sorting the times puts
      them in chronological order. */
  lemma ClockOrder(a: string, b: string)
    requires IsClockTime(a) && IsClockTime(b)
    ensures LexLe(a, b) <==> Minutes(a) <= Minutes(b)
  {
    assert a == [a[0]] + a[1..] && a[1..] == [a[1]] + a[2..] && a[2..] == [a[2]] + a[3..];
    assert a[3..] == [a[3]] + a[4..] && a[4..] == [a[4]] + a[5..];
    assert b[1..][0] == b[1] && b[2..][0] == b[2] && b[3..][0] == b[3] && b[4..][0] == b[4];
    assert a[1..][1..] == a[2..] && a[2..][1..] == a[3..] && a[3..][1..] == a[4..] && a[4..][1..] == a[5..];
    assert b[1..][1..] == b[2..] && b[2..][1..] == b[3..] && b[3..][1..] == b[4..] && b[4..][1..] == b[5..];
    assert |a[5..]| == 0;
  }

  /** A clock time is neither blank nor holds the separator the row uses. */
  lemma ClockTimeIsPlain(s: string)
    requires IsClockTime(s)
    ensures !IsBlank(s) && ',' !in s
  {
    assert !IsWhitespace(s[0]);
  }

  // Field updates.

  /** The value passed as `Any`: its runtime class decides which casts succeed. */
  datatype FormValue =
    TextValue(s: string)
    | IntValue(i: int)
    | LongValue(l: int)
    | FrequencyValue(f: ReminderFrequency)
    | TextListValue(ss: seq<string>)
    | IntListValue(ns: seq<int>)

  const FieldNames: set<string> := {"medicineName", "medicineId", "dosage", "frequency", "times",
                                    "daysOfWeek", "startDate", "endDate", "instructions"}

  /** `value as List<String>`: a list of strings, or an empty list of any element type
      (the element type is not checked, and an empty list holds no element of the wrong
      type). */
  function AsTexts(value: FormValue): (r: Option<seq<string>>)
    ensures r.Some? <==> value.TextListValue? || (value.IntListValue? && value.ns == [])
    ensures value.TextListValue? ==> r == Some(value.ss)
    ensures value.IntListValue? && value.ns == [] ==> r == Some([])
  {
    match value
    case TextListValue(ss) => Some(ss)
    case IntListValue(ns) => if ns == [] then Some([]) else None
    case _ => None
  }

  /** `value as List<Int>`: a list of numbers, or an empty list of any element type. */
  function AsInts(value: FormValue): (r: Option<seq<int>>)
    ensures r.Some? <==> value.IntListValue? || (value.TextListValue? && value.ss == [])
    ensures value.IntListValue? ==> r == Some(value.ns)
    ensures value.TextListValue? && value.ss == [] ==> r == Some([])
  {
    match value
    case IntListValue(ns) => Some(ns)
    case TextListValue(ss) => if ss == [] then Some([]) else None
    case _ => None
  }

  /** The hard casts (`as`) of `updateFormField` succeed; the soft casts (`as?`) of
      `medicineId` and `endDate` never throw. */
  predicate CastSucceeds(field: string, value: FormValue)
  {
    (field in {"medicineName", "dosage", "instructions"} ==> value.TextValue?) &&
    (field == "frequency" ==> value.FrequencyValue?) &&
    (field == "times" ==> AsTexts(value).Some?) &&
    (field == "daysOfWeek" ==> AsInts(value).Some?) &&
    (field == "startDate" ==> value.LongValue?)
  }

  /** The named field of `g` holds the value as cast: a failed soft cast gives `null`. */
  predicate Holds(g: ReminderFormUiState, field: string, value: FormValue)
  {
    match field
    case "medicineName" => value.TextValue? && g.medicineName == value.s
    case "medicineId" => g.medicineId == (if value.LongValue? then Some(value.l) else None)
    case "dosage" => value.TextValue? && g.dosage == value.s
    case "frequency" => value.FrequencyValue? && g.frequency == value.f
    case "times" => AsTexts(value) == Some(g.times)
    case "daysOfWeek" => AsInts(value) == Some(g.daysOfWeek)
    case "startDate" => value.LongValue? && g.startDate == value.l
    case "endDate" => g.endDate == (if value.LongValue? then Some(value.l) else None)
    case "instructions" => value.TextValue? && g.instructions == value.s
    case _ => true
  }

  /** Every field other than the named one is the same in both forms. */
  predicate Untouched(a: ReminderFormUiState, b: ReminderFormUiState, field: string)
  {
    (field != "medicineName" ==> a.medicineName == b.medicineName) &&
    (field != "medicineId" ==> a.medicineId == b.medicineId) &&
    (field != "dosage" ==> a.dosage == b.dosage) &&
    (field != "frequency" ==> a.frequency == b.frequency) &&
    (field != "times" ==> a.times == b.times) &&
    (field != "daysOfWeek" ==> a.daysOfWeek == b.daysOfWeek) &&
    (field != "startDate" ==> a.startDate == b.startDate) &&
    (field != "endDate" ==> a.endDate == b.endDate) &&
    (field != "instructions" ==> a.instructions == b.instructions) &&
    a.isLoading == b.isLoading && a.error == b.error && a.isSaved == b.isSaved
  }

  /** `updateFormField(field, value)`: the named field set to the cast value and nothing
      else changed, an unknown name a no-op, and `None` where a hard cast throws
      `ClassCastException`. */
  function UpdatedForm(f: ReminderFormUiState, field: string, value: FormValue): (r: Option<ReminderFormUiState>)
    ensures field !in FieldNames ==> r == Some(f)
    ensures r.None? <==> !CastSucceeds(field, value)
    ensures r.Some? ==> Untouched(f, r.value, field) && Holds(r.value, field, value)
  {
    match field
    case "medicineName" => if value.TextValue? then Some(f.(medicineName := value.s)) else None
    case "medicineId" => Some(f.(medicineId := if value.LongValue? then Some(value.l) else None))
    case "dosage" => if value.TextValue? then Some(f.(dosage := value.s)) else None
    case "frequency" => if value.FrequencyValue? then Some(f.(frequency := value.f)) else None
    case "times" => if AsTexts(value).Some? then Some(f.(times := AsTexts(value).value)) else None
    case "daysOfWeek" => if AsInts(value).Some? then Some(f.(daysOfWeek := AsInts(value).value)) else None
    case "startDate" => if value.LongValue? then Some(f.(startDate := value.l)) else None
    case "endDate" => Some(f.(endDate := if value.LongValue? then Some(value.l) else None))
    case "instructions" => if value.TextValue? then Some(f.(instructions := value.s)) else None
    case _ => Some(f)
  }

  // The time list and the day list.

  /** The times after `addTime(t)`: unchanged when `t` is there, otherwise `t` added and the
      list sorted. */
  function WithTime(times: seq<string>, t: string): (r: seq<string>)
    ensures forall x :: x in r <==> x in times || x == t
    ensures t in times ==> r == times
  {
    if t in times then times
    else
      var r := Sort(times + [t], LexLe);
      assert forall x :: x in r <==> x in multiset(times + [t]);
      r
  }

  /** After `addTime(t)` the time is listed; a new time is added once and the list comes out
      sorted; an ordered list without repetitions stays so. */
  lemma WithTimeSpec(times: seq<string>, t: string)
    ensures t in WithTime(times, t)
    ensures t !in times ==> SortedBy(WithTime(times, t), LexLe) && multiset(WithTime(times, t)) == multiset(times) + multiset{t}
    ensures SortedBy(times, LexLe) ==> SortedBy(WithTime(times, t), LexLe)
    ensures Distinct(times) ==> Distinct(WithTime(times, t))
  {
    if t !in times {
      LexLeTotalOrder();
      SortSorted(times + [t], LexLe);
      assert t in multiset(WithTime(times, t));
      if Distinct(times) {
        AddFreshKeepsDistinct(times, t, WithTime(times, t));
      }
    }
  }

  /** `removeTime` undoes `addTime` of a new time on an ordered list. */
  lemma AddThenRemoveTime(times: seq<string>, t: string)
    requires SortedBy(times, LexLe) && t !in times
    ensures RemoveFirst(WithTime(times, t), t) == times
  {
    LexLeTotalOrder();
    InsertThenRemove(times, t, LexLe);
  }

  /** The days after `toggleDayOfWeek(d)`: a present day removed, an absent one added and
      the list sorted. */
  function ToggledDays(days: seq<int>, d: int): (r: seq<int>)
    ensures d !in days ==> d in r && |r| == |days| + 1
    ensures d in days ==> |r| == |days| - 1
    ensures forall x :: x != d ==> (x in r <==> x in days)
  {
    if d in days then
      var r := RemoveFirst(days, d);
      assert forall x :: x != d ==> (x in r <==> x in multiset(days));
      r
    else
      var r := Sort(days + [d], IntLe);
      assert |r| == |multiset(r)| == |days + [d]|;
      assert forall x :: x in r <==> x in multiset(days + [d]);
      r
  }

  /** On an ordered list without repetitions, toggling flips exactly the one day and keeps
      the list ordered and without repetitions. */
  lemma ToggleFlipsOneDay(days: seq<int>, d: int)
    requires SortedBy(days, IntLe) && Distinct(days)
    ensures SortedBy(ToggledDays(days, d), IntLe) && Distinct(ToggledDays(days, d))
    ensures d in ToggledDays(days, d) <==> d !in days
    ensures forall x :: x != d ==> (x in ToggledDays(days, d) <==> x in days)
  {
    var r := ToggledDays(days, d);
    if d in days {
      RemoveFirstKeeps(days, d, IntLe);
      forall x | x != d
        ensures x in r <==> x in days
      {
        assert x in multiset(r) <==> x in multiset(days);
      }
    } else {
      IntLeTotalOrder();
      SortSorted(days + [d], IntLe);
      AddFreshKeepsDistinct(days, d, r);
      forall x
        ensures x in r <==> x in days || x == d
      {
        assert x in multiset(r) <==> x in multiset(days + [d]);
      }
    }
  }

  /** Toggling the same day twice restores an ordered list without repetitions. */
  lemma ToggleTwice(days: seq<int>, d: int)
    requires SortedBy(days, IntLe) && Distinct(days)
    ensures ToggledDays(ToggledDays(days, d), d) == days
  {
    IntLeTotalOrder();
    if d in days {
      RemoveFirstKeeps(days, d, IntLe);
      RemoveThenInsert(days, d, IntLe);
    } else {
      SortSorted(days + [d], IntLe);
      assert d in multiset(Sort(days + [d], IntLe));
      InsertThenRemove(days, d, IntLe);
    }
  }

  // Saving.

  const NameRequired := "Medicine name is required"
  const DosageRequired := "Dosage is required"
  const TimeRequired := "At least one time is required"

  /** The first check `saveReminder` fails, in its order: blank name, blank dosage, no
      time. */
  function Rejection(f: ReminderFormUiState): (m: Option<string>)
    ensures IsBlank(f.medicineName) ==> m == Some(NameRequired)
    ensures !IsBlank(f.medicineName) && IsBlank(f.dosage) ==> m == Some(DosageRequired)
    ensures !IsBlank(f.medicineName) && !IsBlank(f.dosage) && |f.times| == 0 ==> m == Some(TimeRequired)
    ensures m.None? <==> !IsBlank(f.medicineName) && !IsBlank(f.dosage) && |f.times| > 0
  {
    if IsBlank(f.medicineName) then Some(NameRequired)
    else if IsBlank(f.dosage) then Some(DosageRequired)
    else if |f.times| == 0 then Some(TimeRequired)
    else None
  }

  /** The reminder row a valid form is saved as, created at `now`: times joined by commas,
      days joined only for a weekly reminder, blank instructions as `null`. */
  function ToEntity(f: ReminderFormUiState, now: int): (e: MedicationReminderEntity)
    ensures e.medicineName == f.medicineName && e.medicineId == f.medicineId && e.dosage == f.dosage
    ensures e.frequency == f.frequency && e.startDate == f.startDate && e.endDate == f.endDate
    ensures e.daysOfWeek.Some? <==> f.frequency == Weekly
    ensures e.instructions.None? <==> IsBlank(f.instructions)
    ensures e.instructions.Some? ==> e.instructions.value == f.instructions
    ensures e.id == 0 && e.isActive && e.createdAt == now && e.updatedAt == now
  {
    MedicationReminderEntity(
      0, f.medicineName, f.medicineId, f.dosage, f.frequency,
      Join(f.times, ","),
      if f.frequency == Weekly then Some(JoinInts(f.daysOfWeek, ",")) else None,
      f.startDate, f.endDate,
      NullIfBlank(f.instructions),
      true, now, now)
  }

  /** The form after one emission, built from the form as it was when the save began;
      success resets the form (at time `now`) and marks it saved. */
  function AfterEmission<T>(formState: ReminderFormUiState, r: Resource<T>, now: int): (g: ReminderFormUiState)
    ensures r.Success? ==> g == DefaultForm(now).(isSaved := true)
    ensures !r.Success? ==> Untouched(formState, g.(isLoading := formState.isLoading, error := formState.error), "")
    ensures r.Loading? ==> g.isLoading && g.error.None?
    ensures r.Error? ==> !g.isLoading && g.error == Some(r.message)
  {
    match r
    case Loading => formState.(isLoading := true, error := None)
    case Success(_) => DefaultForm(now).(isSaved := true)
    case Error(message) => formState.(isLoading := false, error := Some(message))
  }

  // Loading for edit.

  /** The form `loadReminderForEdit` builds from a row: a time piece that is blank is
      dropped, a day piece that is no integer is dropped, no days means every day, no
      instructions means the empty text. */
  function FromEntity(e: MedicationReminderEntity): (f: ReminderFormUiState)
    ensures f.medicineName == e.medicineName && f.medicineId == e.medicineId && f.dosage == e.dosage
    ensures f.frequency == e.frequency && f.startDate == e.startDate && f.endDate == e.endDate
    ensures forall i :: 0 <= i < |f.times| ==> !IsBlank(f.times[i])
    ensures e.daysOfWeek.None? ==> f.daysOfWeek == AllDays
    ensures f.instructions == e.instructions.GetOr("")
    ensures !f.isLoading && f.error.None? && !f.isSaved
  {
    ReminderFormUiState(
      e.medicineName, e.medicineId, e.dosage, e.frequency,
      NonBlank(Split(e.times, ',')),
      if e.daysOfWeek.Some? then ParseInts(Split(e.daysOfWeek.value, ',')) else AllDays,
      e.startDate, e.endDate,
      e.instructions.GetOr(""),
      false, None, false)
  }

  /** Loading a saved reminder for edit gives back the form that was saved, except that a
      non-weekly reminder reads back every day, blank instructions read back empty, and the
      status fields are reset. Times must be plain (as clock times are) and days 32-bit. */
  lemma {:induction false} EditLoadsSavedForm(f: ReminderFormUiState, now: int)
    requires forall i :: 0 <= i < |f.times| ==> !IsBlank(f.times[i]) && ',' !in f.times[i]
    requires forall i :: 0 <= i < |f.daysOfWeek| ==> IntMin <= f.daysOfWeek[i] <= IntMax
    ensures FromEntity(ToEntity(f, now)) ==
            f.(daysOfWeek := if f.frequency == Weekly then f.daysOfWeek else AllDays,
               instructions := if IsBlank(f.instructions) then "" else f.instructions,
               isLoading := false, error := None, isSaved := false)
  {
    var e := ToEntity(f, now);
    if |f.times| == 0 {
      assert Split(e.times, ',') == [""];
      assert IsBlank("");
    } else {
      SplitJoin(f.times, ',');
      NonBlankKeepsNonBlank(f.times);
    }
    if f.frequency == Weekly {
      ParseJoinedInts(f.daysOfWeek);
    }
  }

  class ReminderViewModel {
    var form: ReminderFormUiState

    /** The view model starts with the default form, created at `now`. */
    constructor (now: int)
      ensures form == DefaultForm(now)
    {
      form := DefaultForm(now);
    }

    /** `updateFormField(field, value)`; `thrown` when a hard cast fails, and then the form
        is unchanged. */
    method UpdateFormField(field: string, value: FormValue) returns (thrown: bool)
      modifies this
      ensures thrown <==> UpdatedForm(old(form), field, value).None?
      ensures form == if thrown then old(form) else UpdatedForm(old(form), field, value).value
    {
      var updated := UpdatedForm(form, field, value);
      if updated.None? {
        return true;
      }
      form := updated.value;
      return false;
    }

    /** `addTime(time)`: a listed time is a no-op, otherwise the time is added to a copy of
        the list, the copy sorted, and the form given the copy. */
    method AddTime(time: string)
      modifies this
      ensures form == old(form).(times := WithTime(old(form).times, time))
      ensures time in old(form).times ==> form == old(form)
    {
      var currentTimes := form.times;
      if time !in currentTimes {
        currentTimes := currentTimes + [time];
        currentTimes := Sort(currentTimes, LexLe);
        form := form.(times := currentTimes);
      }
    }

    /** `removeTime(time)`: the first occurrence taken out, the others kept in order. */
    method RemoveTime(time: string)
      modifies this
      ensures form == old(form).(times := RemoveFirst(old(form).times, time))
    {
      var currentTimes := form.times;
      currentTimes := RemoveFirst(currentTimes, time);
      form := form.(times := currentTimes);
    }

    /** `toggleDayOfWeek(day)`: a listed day removed, an unlisted one added and the list
        sorted. */
    method ToggleDayOfWeek(day: int)
      modifies this
      ensures form == old(form).(daysOfWeek := ToggledDays(old(form).daysOfWeek, day))
    {
      var currentDays := form.daysOfWeek;
      if day in currentDays {
        currentDays := RemoveFirst(currentDays, day);
      } else {
        currentDays := currentDays + [day];
        currentDays := Sort(currentDays, IntLe);
      }
      form := form.(daysOfWeek := currentDays);
    }

    /** `saveReminder()`: a failed check sets only the error and creates nothing; otherwise
        the row is handed to the create use case, and each of its `emissions` replaces the
        form in turn, built from the form as it was when the save began. `now` is the clock
        for the row and for a reset form. */
    method SaveReminder<T>(emissions: seq<Resource<T>>, now: int) returns (sent: Option<MedicationReminderEntity>)
      modifies this
      ensures Rejection(old(form)).Some? ==> sent.None? && form == old(form).(error := Rejection(old(form)))
      ensures Rejection(old(form)).None? ==>
                sent == Some(ToEntity(old(form), now)) &&
                form == if |emissions| == 0 then old(form) else AfterEmission(old(form), emissions[|emissions| - 1], now)
    {
      var formState := form;
      if IsBlank(formState.medicineName) {
        form := formState.(error := Some(NameRequired));
        return None;
      }
      if IsBlank(formState.dosage) {
        form := formState.(error := Some(DosageRequired));
        return None;
      }
      if |formState.times| == 0 {
        form := formState.(error := Some(TimeRequired));
        return None;
      }
      var reminder := ToEntity(formState, now);
      for i := 0 to |emissions|
        invariant form == if i == 0 then formState else AfterEmission(formState, emissions[i - 1], now)
      {
        form := AfterEmission(formState, emissions[i], now);
      }
      return Some(reminder);
    }

    /** `resetForm()`: the default form, created at `now`. */
    method ResetForm(now: int)
      modifies this
      ensures form == DefaultForm(now)
    {
      form := DefaultForm(now);
    }

    /** `loadReminderForEdit(id)` given what the lookup returned: a found row replaces the
        form with its decoding; no row leaves the form as it was. */
    method LoadReminderForEdit(reminder: Option<MedicationReminderEntity>)
      modifies this
      ensures reminder.None? ==> form == old(form)
      ensures reminder.Some? ==> form == FromEntity(reminder.value)
    {
      if reminder.Some? {
        form := FromEntity(reminder.value);
      }
    }
  }
}
