/** How the reminder list describes a reminder's schedule: `formatFrequency` and `dayName`
    of `ReminderListScreen`. */
module ReminderList {
  import opened Wrappers
  import opened Strings
  import opened ReminderEntities
  import opened ReminderForms

  /** The short names of Monday to Sunday. */
  const WeekDays: seq<string> := ["Mon", "Tue", "Wed", "Thu", "Fri", "Sat", "Sun"]

  /** `dayName`: the short name of days 1 to 7, the empty text for any other integer. */
  function DayName(day: int): (s: string)
    ensures 1 <= day <= 7 ==> s == WeekDays[day - 1]
    ensures !(1 <= day <= 7) ==> s == ""
  {
    match day
    case 1 => "Mon"
    case 2 => "Tue"
    case 3 => "Wed"
    case 4 => "Thu"
    case 5 => "Fri"
    case 6 => "Sat"
    case 7 => "Sun"
    case _ => ""
  }

  /** Different days of the week have different names, and none is empty. */
  lemma DayNamesDistinct(a: int, b: int)
    requires 1 <= a <= 7 && 1 <= b <= 7
    ensures DayName(a) != ""
    ensures DayName(a) == DayName(b) ==> a == b
  {
  }

  function DayNames(days: seq<int>): (names: seq<string>)
    ensures |names| == |days| && forall k :: 0 <= k < |days| ==> names[k] == DayName(days[k])
  {
    seq(|days|, k requires 0 <= k < |days| => DayName(days[k]))
  }

  /** The times column: the stored text split on commas, blank pieces dropped, the rest
      joined by a comma and a space. */
  function TimesText(times: string): (s: string)
    ensures ',' !in times && !IsBlank(times) ==> s == times
    ensures ',' !in times && IsBlank(times) ==> s == ""
  {
    SplitWithoutSeparator(times, ',');
    Join(NonBlank(Split(times, ',')), ", ")
  }

  /** The days column of a weekly reminder: the names of the pieces that are integers, or
      "Selected days" when no days are stored. */
  function DaysText(daysOfWeek: Option<string>): (s: string)
    ensures daysOfWeek.None? ==> s == "Selected days"
    ensures daysOfWeek.Some? && ',' !in daysOfWeek.value ==>
              s == match ParseInt(daysOfWeek.value) case Some(d) => DayName(d) case None => ""
  {
    if daysOfWeek.Some? then SplitWithoutSeparator(daysOfWeek.value, ','); DaysTextBody(daysOfWeek)
    else DaysTextBody(daysOfWeek)
  }

  function DaysTextBody(daysOfWeek: Option<string>): string
  {
    if daysOfWeek.None? then "Selected days"
    else Join(DayNames(ParseInts(Split(daysOfWeek.value, ','))), ", ")
  }

  /** `formatFrequency`: once and daily name the times, weekly the days and the times, and
      the other three frequencies are fixed texts. */
  function FormatFrequency(frequency: ReminderFrequency, times: string, daysOfWeek: Option<string>): (s: string)
    ensures frequency == Once ==> s == "Once at " + TimesText(times)
    ensures frequency == Daily ==> s == "Daily at " + TimesText(times)
    ensures frequency == Weekly ==> s == DaysText(daysOfWeek) + " at " + TimesText(times)
    ensures frequency == EveryXHours ==> s == "Every few hours"
    ensures frequency == EveryXDays ==> s == "Every few days"
    ensures frequency == AsNeeded ==> s == "As needed"
  {
    var timesStr := TimesText(times);
    match frequency
    case Once => "Once at " + timesStr
    case Daily => "Daily at " + timesStr
    case Weekly => DaysText(daysOfWeek) + " at " + timesStr
    case EveryXHours => "Every few hours"
    case EveryXDays => "Every few days"
    case AsNeeded => "As needed"
  }

  /** The three interval frequencies describe a reminder without its times or days. */
  lemma IntervalTextsIgnoreSchedule(frequency: ReminderFrequency, t1: string, d1: Option<string>, t2: string, d2: Option<string>)
    requires frequency in {EveryXHours, EveryXDays, AsNeeded}
    ensures FormatFrequency(frequency, t1, d1) == FormatFrequency(frequency, t2, d2)
  {
  }

  /** The list shows the times of a saved reminder as they were in the form, and a saved
      weekly reminder's days by name, in the form's order; a non-weekly reminder is saved
      without days. */
  lemma {:induction false} ListShowsSavedSchedule(f: ReminderFormUiState, now: int)
    requires forall i :: 0 <= i < |f.times| ==> !IsBlank(f.times[i]) && ',' !in f.times[i]
    requires forall i :: 0 <= i < |f.daysOfWeek| ==> IntMin <= f.daysOfWeek[i] <= IntMax
    ensures TimesText(ToEntity(f, now).times) == Join(f.times, ", ")
    ensures f.frequency == Weekly ==> DaysText(ToEntity(f, now).daysOfWeek) == Join(DayNames(f.daysOfWeek), ", ")
    ensures f.frequency != Weekly ==> DaysText(ToEntity(f, now).daysOfWeek) == "Selected days"
  {
    EditLoadsSavedForm(f, now);
  }
}
