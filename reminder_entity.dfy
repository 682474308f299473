/** The client's medication-reminder row and the two enums it stores by name, with the
    Room converters between an enum and its name. */
module ReminderEntities {
  import opened Wrappers

  datatype ReminderFrequency = Once | Daily | Weekly | EveryXHours | EveryXDays | AsNeeded

  datatype IntakeStatus = Taken | Skipped | Missed | Late

  /** `fromReminderFrequency`: the constant's name. */
  function FrequencyName(f: ReminderFrequency): string
  {
    match f
    case Once => "ONCE"
    case Daily => "DAILY"
    case Weekly => "WEEKLY"
    case EveryXHours => "EVERY_X_HOURS"
    case EveryXDays => "EVERY_X_DAYS"
    case AsNeeded => "AS_NEEDED"
  }

  const FrequencyNames: set<string> := {"ONCE", "DAILY", "WEEKLY", "EVERY_X_HOURS", "EVERY_X_DAYS", "AS_NEEDED"}
  const StatusNames: set<string> := {"TAKEN", "SKIPPED", "MISSED", "LATE"}

  const NoFrequencyConstant := "No enum constant com.example.medassist_android.data.local.entity.ReminderFrequency."
  const NoStatusConstant := "No enum constant com.example.medassist_android.data.local.entity.IntakeStatus."

  /** `toReminderFrequency` (`valueOf`): the constant of that exact name, or the
      `IllegalArgumentException` message for any other text. */
  function ToReminderFrequency(value: string): (r: Result<ReminderFrequency, string>)
    ensures r.Ok? ==> FrequencyName(r.value) == value
    ensures r.Err? <==> value !in FrequencyNames
    ensures r.Err? ==> r.error == NoFrequencyConstant + value
  {
    match value
    case "ONCE" => Ok(Once)
    case "DAILY" => Ok(Daily)
    case "WEEKLY" => Ok(Weekly)
    case "EVERY_X_HOURS" => Ok(EveryXHours)
    case "EVERY_X_DAYS" => Ok(EveryXDays)
    case "AS_NEEDED" => Ok(AsNeeded)
    case _ => Err(NoFrequencyConstant + value)
  }

  /** A frequency stored by name reads back as itself, and its name is one of the names. */
  lemma FrequencyRoundTrip(f: ReminderFrequency)
    ensures FrequencyName(f) in FrequencyNames
    ensures ToReminderFrequency(FrequencyName(f)) == Ok(f)
  {
  }

  /** `fromIntakeStatus`: the constant's name. */
  function StatusName(s: IntakeStatus): string
  {
    match s
    case Taken => "TAKEN"
    case Skipped => "SKIPPED"
    case Missed => "MISSED"
    case Late => "LATE"
  }

  /** `toIntakeStatus` (`valueOf`): the constant of that exact name, or the
      `IllegalArgumentException` message for any other text. */
  function ToIntakeStatus(value: string): (r: Result<IntakeStatus, string>)
    ensures r.Ok? ==> StatusName(r.value) == value
    ensures r.Err? <==> value !in StatusNames
    ensures r.Err? ==> r.error == NoStatusConstant + value
  {
    match value
    case "TAKEN" => Ok(Taken)
    case "SKIPPED" => Ok(Skipped)
    case "MISSED" => Ok(Missed)
    case "LATE" => Ok(Late)
    case _ => Err(NoStatusConstant + value)
  }

  /** A status stored by name reads back as itself, and its name is one of the names. */
  lemma StatusRoundTrip(s: IntakeStatus)
    ensures StatusName(s) in StatusNames
    ensures ToIntakeStatus(StatusName(s)) == Ok(s)
  {
  }

  /** Names are case-sensitive: a lower-case name is no constant. */
  lemma NamesAreCaseSensitive()
    ensures ToReminderFrequency("daily").Err?
    ensures ToIntakeStatus("taken").Err?
  {
  }

  /** A `MedicationReminderEntity` row: the times and the days are comma-joined text, and
      a time is a number of milliseconds. */
  datatype MedicationReminderEntity = MedicationReminderEntity(
    id: int,
    medicineName: string,
    medicineId: Option<int>,
    dosage: string,
    frequency: ReminderFrequency,
    times: string,
    daysOfWeek: Option<string>,
    startDate: int,
    endDate: Option<int>,
    instructions: Option<string>,
    isActive: bool,
    createdAt: int,
    updatedAt: int)
}
