/** The client's `UserPreferencesManager`: settings kept as typed preferences. Reading maps
    every absent key to its default; each setter is one `edit` transaction on the
    store. */
module UserSettings {
  import opened Wrappers

  datatype ThemeMode = System | Light | Dark

  /** `ThemeMode.name`. */
  function ThemeName(m: ThemeMode): string
  {
    match m
    case System => "SYSTEM"
    case Light => "LIGHT"
    case Dark => "DARK"
  }

  /** `ThemeMode.valueOf(s)`, `None` where it throws `IllegalArgumentException`. */
  function ThemeValueOf(s: string): (m: Option<ThemeMode>)
    ensures m.Some? <==> s == "SYSTEM" || s == "LIGHT" || s == "DARK"
    ensures m.Some? ==> ThemeName(m.value) == s
  {
    match s
    case "SYSTEM" => Some(System)
    case "LIGHT" => Some(Light)
    case "DARK" => Some(Dark)
    case _ => None
  }

  /** A theme is stored by name and read back as itself. */
  lemma ThemeRoundTrip(m: ThemeMode)
    ensures ThemeValueOf(ThemeName(m)) == Some(m)
  {
  }

  /** The settings store: each typed key holds a value or nothing. The key names are
      `notifications_enabled`, `reminder_sound_enabled`, `reminder_vibration_enabled`,
      `reminder_snooze_duration`, `quiet_hours_enabled`, `quiet_hours_start`,
      `quiet_hours_end`, `theme_mode`, `use_dynamic_colors`, `language_code`,
      `biometric_enabled`, `auto_lock_timeout`, `default_reminder_time`,
      `show_medicine_images`, `track_side_effects`, `track_mood`, `auto_backup_enabled`,
      `last_sync_time`, `onboarding_completed` and `first_launch_time`, one field each, in
      that order; the theme is kept under its name. */
  datatype Stored = Stored(
    notificationsEnabled: Option<bool>,
    reminderSoundEnabled: Option<bool>,
    reminderVibrationEnabled: Option<bool>,
    reminderSnoozeDuration: Option<int>,
    quietHoursEnabled: Option<bool>,
    quietHoursStart: Option<string>,
    quietHoursEnd: Option<string>,
    themeMode: Option<string>,
    useDynamicColors: Option<bool>,
    languageCode: Option<string>,
    biometricEnabled: Option<bool>,
    autoLockTimeout: Option<int>,
    defaultReminderTime: Option<string>,
    showMedicineImages: Option<bool>,
    trackSideEffects: Option<bool>,
    trackMood: Option<bool>,
    autoBackupEnabled: Option<bool>,
    lastSyncTime: Option<int>,
    onboardingCompleted: Option<bool>,
    firstLaunchTime: Option<int>)

  /** `emptyPreferences()`. */
  const Empty := Stored(None, None, None, None, None, None, None, None, None, None,
                        None, None, None, None, None, None, None, None, None, None)

  /** `UserPreferences`; a time is in milliseconds. */
  datatype UserPreferences = UserPreferences(
    notificationsEnabled: bool,
    reminderSoundEnabled: bool,
    reminderVibrationEnabled: bool,
    reminderSnoozeDuration: int,
    quietHoursEnabled: bool,
    quietHoursStart: string,
    quietHoursEnd: string,
    themeMode: ThemeMode,
    useDynamicColors: bool,
    languageCode: string,
    biometricEnabled: bool,
    autoLockTimeout: int,
    defaultReminderTime: string,
    showMedicineImages: bool,
    trackSideEffects: bool,
    trackMood: bool,
    autoBackupEnabled: bool,
    lastSyncTime: int,
    onboardingCompleted: bool,
    firstLaunchTime: int)

  /** The data class's default arguments. */
  const Defaults := UserPreferences(true, true, true, 10, false, "22:00", "07:00", System, true, "en",
                                    false, 0, "09:00", true, true, false, false, 0, false, 0)

  /** The start of `valueOf`'s message: the enum's canonical name. */
  const NoThemeConstant := "No enum constant com.example.medassist_android.data.local.UserPreferencesManager.ThemeMode."

  /** The theme as read: the stored name through `valueOf`, `SYSTEM` when absent, and an
      exception for a name that is no constant. */
  function ThemeAt(p: Stored): (r: Result<ThemeMode, string>)
    ensures p.themeMode.None? ==> r == Ok(System)
    ensures r.Err? <==> p.themeMode.Some? && ThemeValueOf(p.themeMode.value).None?
    ensures r.Ok? && p.themeMode.Some? ==> ThemeName(r.value) == p.themeMode.value
    ensures r.Err? ==> r.error == NoThemeConstant + p.themeMode.value
  {
    match p.themeMode
    case None => Ok(System)
    case Some(name) =>
      match ThemeValueOf(name)
      case Some(m) => Ok(m)
      case None => Err(NoThemeConstant + name)
  }

  /** Every field but the theme from its key, or its default when the key holds nothing. */
  function Fields(p: Stored, theme: ThemeMode): UserPreferences
  {
    UserPreferences(
      p.notificationsEnabled.GetOr(true),
      p.reminderSoundEnabled.GetOr(true),
      p.reminderVibrationEnabled.GetOr(true),
      p.reminderSnoozeDuration.GetOr(10),
      p.quietHoursEnabled.GetOr(false),
      p.quietHoursStart.GetOr("22:00"),
      p.quietHoursEnd.GetOr("07:00"),
      theme,
      p.useDynamicColors.GetOr(true),
      p.languageCode.GetOr("en"),
      p.biometricEnabled.GetOr(false),
      p.autoLockTimeout.GetOr(0),
      p.defaultReminderTime.GetOr("09:00"),
      p.showMedicineImages.GetOr(true),
      p.trackSideEffects.GetOr(true),
      p.trackMood.GetOr(false),
      p.autoBackupEnabled.GetOr(false),
      p.lastSyncTime.GetOr(0),
      p.onboardingCompleted.GetOr(false),
      p.firstLaunchTime.GetOr(0))
  }

  /** The `map` stage of `userPreferencesFlow`: every field from its key, or its default;
      a stored theme name that is no constant makes the read throw. */
  function Read(p: Stored): (r: Result<UserPreferences, string>)
    ensures r.Err? <==> ThemeAt(p).Err?
    ensures r.Ok? ==> r.value == Fields(p, ThemeAt(p).value)
  {
    match ThemeAt(p)
    case Err(e) => Err(e)
    case Ok(theme) => Ok(Fields(p, theme))
  }

  /** An empty store reads as the defaults. */
  lemma EmptyReadsAsDefaults()
    ensures Read(Empty) == Ok(Defaults)
  {
  }

  /** What the data store's flow delivers: the preferences, an `IOException`, or another
      exception. */
  datatype StoreRead = Data(p: Stored) | IOFailure | OtherFailure(message: string)

  /** `userPreferencesFlow`: an `IOException` is replaced by empty preferences, so by the
      defaults; any other exception goes on to the collector. */
  function Observe(read: StoreRead): (r: Result<UserPreferences, string>)
    ensures read.IOFailure? ==> r == Ok(Defaults)
    ensures read.OtherFailure? ==> r == Err(read.message)
    ensures read.Data? ==> r == Read(read.p)
  {
    match read
    case Data(p) => Read(p)
    case IOFailure =>
      EmptyReadsAsDefaults();
      Read(Empty)
    case OtherFailure(m) => Err(m)
  }

  class UserPreferencesManager {
    var stored: Stored

    /** The theme is only ever stored by `setThemeMode`, by constant name. */
    ghost predicate Valid()
      reads this
    {
      ThemeAt(stored).Ok?
    }

    constructor ()
      ensures Valid() && stored == Empty
    {
      stored := Empty;
    }

    /** The preferences a read of the current store delivers. */
    function Current(): (r: UserPreferences)
      requires Valid()
      reads this
      ensures Read(stored) == Ok(r)
    {
      Fields(stored, ThemeAt(stored).value)
    }

    method SetNotificationsEnabled(enabled: bool)
      requires Valid()
      modifies this
      ensures Valid() && stored == old(stored).(notificationsEnabled := Some(enabled))
      ensures Current() == old(Current()).(notificationsEnabled := enabled)
    {
      stored := stored.(notificationsEnabled := Some(enabled));
    }

    method SetReminderSoundEnabled(enabled: bool)
      requires Valid()
      modifies this
      ensures Valid() && stored == old(stored).(reminderSoundEnabled := Some(enabled))
      ensures Current() == old(Current()).(reminderSoundEnabled := enabled)
    {
      stored := stored.(reminderSoundEnabled := Some(enabled));
    }

    method SetReminderVibrationEnabled(enabled: bool)
      requires Valid()
      modifies this
      ensures Valid() && stored == old(stored).(reminderVibrationEnabled := Some(enabled))
      ensures Current() == old(Current()).(reminderVibrationEnabled := enabled)
    {
      stored := stored.(reminderVibrationEnabled := Some(enabled));
    }

    method SetReminderSnoozeDuration(minutes: int)
      requires Valid()
      modifies this
      ensures Valid() && stored == old(stored).(reminderSnoozeDuration := Some(minutes))
      ensures Current() == old(Current()).(reminderSnoozeDuration := minutes)
    {
      stored := stored.(reminderSnoozeDuration := Some(minutes));
    }

    /** `setQuietHours(enabled, start, end)`: the flag always, the start and end times only
        when given. */
    method SetQuietHours(enabled: bool, start: Option<string>, end: Option<string>)
      requires Valid()
      modifies this
      ensures Valid()
      ensures stored == old(stored).(quietHoursEnabled := Some(enabled),
                                     quietHoursStart := if start.Some? then start else old(stored).quietHoursStart,
                                     quietHoursEnd := if end.Some? then end else old(stored).quietHoursEnd)
      ensures Current() == old(Current()).(quietHoursEnabled := enabled,
                                           quietHoursStart := start.GetOr(old(Current()).quietHoursStart),
                                           quietHoursEnd := end.GetOr(old(Current()).quietHoursEnd))
    {
      var edited := stored.(quietHoursEnabled := Some(enabled));
      if start.Some? {
        edited := edited.(quietHoursStart := Some(start.value));
      }
      if end.Some? {
        edited := edited.(quietHoursEnd := Some(end.value));
      }
      stored := edited;
    }

    /** `setThemeMode(mode)`: the theme stored by name, and read back as itself. */
    method SetThemeMode(mode: ThemeMode)
      requires Valid()
      modifies this
      ensures Valid() && stored == old(stored).(themeMode := Some(ThemeName(mode)))
      ensures Current() == old(Current()).(themeMode := mode)
    {
      ThemeRoundTrip(mode);
      stored := stored.(themeMode := Some(ThemeName(mode)));
    }

    method SetUseDynamicColors(enabled: bool)
      requires Valid()
      modifies this
      ensures Valid() && stored == old(stored).(useDynamicColors := Some(enabled))
      ensures Current() == old(Current()).(useDynamicColors := enabled)
    {
      stored := stored.(useDynamicColors := Some(enabled));
    }

    method SetLanguageCode(code: string)
      requires Valid()
      modifies this
      ensures Valid() && stored == old(stored).(languageCode := Some(code))
      ensures Current() == old(Current()).(languageCode := code)
    {
      stored := stored.(languageCode := Some(code));
    }

    method SetBiometricEnabled(enabled: bool)
      requires Valid()
      modifies this
      ensures Valid() && stored == old(stored).(biometricEnabled := Some(enabled))
      ensures Current() == old(Current()).(biometricEnabled := enabled)
    {
      stored := stored.(biometricEnabled := Some(enabled));
    }

    method SetAutoLockTimeout(minutes: int)
      requires Valid()
      modifies this
      ensures Valid() && stored == old(stored).(autoLockTimeout := Some(minutes))
      ensures Current() == old(Current()).(autoLockTimeout := minutes)
    {
      stored := stored.(autoLockTimeout := Some(minutes));
    }

    method SetDefaultReminderTime(time: string)
      requires Valid()
      modifies this
      ensures Valid() && stored == old(stored).(defaultReminderTime := Some(time))
      ensures Current() == old(Current()).(defaultReminderTime := time)
    {
      stored := stored.(defaultReminderTime := Some(time));
    }

    method SetShowMedicineImages(show: bool)
      requires Valid()
      modifies this
      ensures Valid() && stored == old(stored).(showMedicineImages := Some(show))
      ensures Current() == old(Current()).(showMedicineImages := show)
    {
      stored := stored.(showMedicineImages := Some(show));
    }

    method SetTrackSideEffects(track: bool)
      requires Valid()
      modifies this
      ensures Valid() && stored == old(stored).(trackSideEffects := Some(track))
      ensures Current() == old(Current()).(trackSideEffects := track)
    {
      stored := stored.(trackSideEffects := Some(track));
    }

    method SetTrackMood(track: bool)
      requires Valid()
      modifies this
      ensures Valid() && stored == old(stored).(trackMood := Some(track))
      ensures Current() == old(Current()).(trackMood := track)
    {
      stored := stored.(trackMood := Some(track));
    }

    method SetAutoBackupEnabled(enabled: bool)
      requires Valid()
      modifies this
      ensures Valid() && stored == old(stored).(autoBackupEnabled := Some(enabled))
      ensures Current() == old(Current()).(autoBackupEnabled := enabled)
    {
      stored := stored.(autoBackupEnabled := Some(enabled));
    }

    /** `updateLastSyncTime()` at the wall-clock time `now`. */
    method UpdateLastSyncTime(now: int)
      requires Valid()
      modifies this
      ensures Valid() && stored == old(stored).(lastSyncTime := Some(now))
      ensures Current() == old(Current()).(lastSyncTime := now)
    {
      stored := stored.(lastSyncTime := Some(now));
    }

    /** `setOnboardingCompleted(completed)` at time `now`: the flag, and the first-launch time
        only on completion when none is stored; a stored one is never overwritten. */
    method SetOnboardingCompleted(completed: bool, now: int)
      requires Valid()
      modifies this
      ensures Valid()
      ensures old(stored).firstLaunchTime.Some? ==> stored.firstLaunchTime == old(stored).firstLaunchTime
      ensures completed && old(stored).firstLaunchTime.None? ==>
                stored == old(stored).(onboardingCompleted := Some(true), firstLaunchTime := Some(now)) &&
                Current() == old(Current()).(onboardingCompleted := true, firstLaunchTime := now)
      ensures !completed || old(stored).firstLaunchTime.Some? ==>
                stored == old(stored).(onboardingCompleted := Some(completed)) &&
                Current() == old(Current()).(onboardingCompleted := completed)
    {
      var edited := stored.(onboardingCompleted := Some(completed));
      if completed && edited.firstLaunchTime.None? {
        edited := edited.(firstLaunchTime := Some(now));
      }
      stored := edited;
    }

    /** `clearAllSettings()`: the store emptied, so every setting reads as its default. */
    method ClearAllSettings()
      modifies this
      ensures Valid() && stored == Empty && Current() == Defaults
    {
      stored := Empty;
      EmptyReadsAsDefaults();
    }
  }
}
