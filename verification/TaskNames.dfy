/**
 * The element names of a scheduled task, as packages/dsh-luban-keepalive/src/windows-task.ts writes and asks for them.
 * The reader ignores case and, when it looks for an element, does not mind if the name in the document goes on behind
 * the one it asks for. So it matters that no name begins with another one but for two; the names are told apart by a
 * few of their letters, and the facts about single names are proved group by group.
 */
module TaskNames {
  import opened XmlScan

  datatype Tag =
    | Task | RegistrationInfo | Description | URI
    | Triggers | BootTrigger | CalendarTrigger | EventTrigger | IdleTrigger | LogonTrigger | RegistrationTrigger
    | SessionStateChangeTrigger | TimeTrigger
    | Principals | Principal | UserId | LogonType | RunLevel
    | Settings | MultipleInstancesPolicy | DisallowStartIfOnBatteries | StopIfGoingOnBatteries | AllowHardTerminate
    | StartWhenAvailable | RunOnlyIfNetworkAvailable | AllowStartOnDemand | Enabled | Hidden | RunOnlyIfIdle | WakeToRun
    | ExecutionTimeLimit | RestartOnFailure | Interval | Count | Priority
    | IdleSettings | StopOnIdleEnd | RestartOnIdle | UseUnifiedSchedulingEngine
    | Actions | Exec | Command | Arguments

  function Name(t: Tag): (name: string)
    ensures |name| >= 3
  {
    match t
    case Task => "Task"
    case RegistrationInfo => "RegistrationInfo"
    case Description => "Description"
    case URI => "URI"
    case Triggers => "Triggers"
    case BootTrigger => "BootTrigger"
    case CalendarTrigger => "CalendarTrigger"
    case EventTrigger => "EventTrigger"
    case IdleTrigger => "IdleTrigger"
    case LogonTrigger => "LogonTrigger"
    case RegistrationTrigger => "RegistrationTrigger"
    case SessionStateChangeTrigger => "SessionStateChangeTrigger"
    case TimeTrigger => "TimeTrigger"
    case Principals => "Principals"
    case Principal => "Principal"
    case UserId => "UserId"
    case LogonType => "LogonType"
    case RunLevel => "RunLevel"
    case Settings => "Settings"
    case MultipleInstancesPolicy => "MultipleInstancesPolicy"
    case DisallowStartIfOnBatteries => "DisallowStartIfOnBatteries"
    case StopIfGoingOnBatteries => "StopIfGoingOnBatteries"
    case AllowHardTerminate => "AllowHardTerminate"
    case StartWhenAvailable => "StartWhenAvailable"
    case RunOnlyIfNetworkAvailable => "RunOnlyIfNetworkAvailable"
    case AllowStartOnDemand => "AllowStartOnDemand"
    case Enabled => "Enabled"
    case Hidden => "Hidden"
    case RunOnlyIfIdle => "RunOnlyIfIdle"
    case WakeToRun => "WakeToRun"
    case ExecutionTimeLimit => "ExecutionTimeLimit"
    case RestartOnFailure => "RestartOnFailure"
    case Interval => "Interval"
    case Count => "Count"
    case Priority => "Priority"
    case IdleSettings => "IdleSettings"
    case StopOnIdleEnd => "StopOnIdleEnd"
    case RestartOnIdle => "RestartOnIdle"
    case UseUnifiedSchedulingEngine => "UseUnifiedSchedulingEngine"
    case Actions => "Actions"
    case Exec => "Exec"
    case Command => "Command"
    case Arguments => "Arguments"
  }

  predicate IsTrigger(t: Tag) {
    t.Triggers? || t.BootTrigger? || t.CalendarTrigger? || t.EventTrigger? || t.IdleTrigger? || t.TimeTrigger?
  }

  predicate IsLongTrigger(t: Tag) {
    t.LogonTrigger? || t.RegistrationTrigger? || t.SessionStateChangeTrigger?
  }

  predicate IsLongSetting(t: Tag) {
    t.MultipleInstancesPolicy? || t.DisallowStartIfOnBatteries?
  }

  predicate IsLongerSetting(t: Tag) {
    t.StopIfGoingOnBatteries? || t.UseUnifiedSchedulingEngine?
  }

  predicate IsStartSetting(t: Tag) {
    t.StartWhenAvailable? || t.AllowHardTerminate?
  }

  predicate IsDemandSetting(t: Tag) {
    t.RunOnlyIfNetworkAvailable? || t.AllowStartOnDemand?
  }

  predicate IsIdleSetting(t: Tag) {
    t.RunOnlyIfIdle? || t.IdleSettings?
  }

  predicate IsRestartSetting(t: Tag) {
    t.RestartOnIdle? || t.RestartOnFailure?
  }

  predicate IsEndSetting(t: Tag) {
    t.StopOnIdleEnd? || t.ExecutionTimeLimit?
  }

  predicate IsOtherSetting(t: Tag) {
    t.Settings? || t.Enabled? || t.Hidden? || t.WakeToRun?
  }

  predicate IsShortSetting(t: Tag) {
    t.Interval? || t.Count? || t.Priority?
  }

  predicate IsPrincipalPart(t: Tag) {
    t.Principals? || t.Principal? || t.UserId? || t.LogonType? || t.RunLevel?
  }

  predicate IsSection(t: Tag) {
    !IsPrincipalPart(t) && !IsTrigger(t) && !IsLongTrigger(t) && !IsLongSetting(t) && !IsLongerSetting(t)
    && !IsStartSetting(t) && !IsDemandSetting(t) && !IsIdleSetting(t) && !IsRestartSetting(t) && !IsEndSetting(t)
    && !IsOtherSetting(t) && !IsShortSetting(t)
  }

  lemma TriggersAreNames(t: Tag)
    requires IsTrigger(t)
    ensures IsName(Name(t))
  {
  }

  lemma LongTriggersAreNames(t: Tag)
    requires IsLongTrigger(t)
    ensures IsName(Name(t))
  {
  }

  lemma LongSettingsAreNames(t: Tag)
    requires IsLongSetting(t)
    ensures IsName(Name(t))
  {
  }

  lemma LongerSettingsAreNames(t: Tag)
    requires IsLongerSetting(t)
    ensures IsName(Name(t))
  {
  }

  lemma StartSettingsAreNames(t: Tag)
    requires IsStartSetting(t)
    ensures IsName(Name(t))
  {
  }

  lemma DemandSettingsAreNames(t: Tag)
    requires IsDemandSetting(t)
    ensures IsName(Name(t))
  {
  }

  lemma IdleSettingsAreNames(t: Tag)
    requires IsIdleSetting(t)
    ensures IsName(Name(t))
  {
  }

  lemma RestartSettingsAreNames(t: Tag)
    requires IsRestartSetting(t)
    ensures IsName(Name(t))
  {
  }

  lemma EndSettingsAreNames(t: Tag)
    requires IsEndSetting(t)
    ensures IsName(Name(t))
  {
  }

  lemma OtherSettingsAreNames(t: Tag)
    requires IsOtherSetting(t)
    ensures IsName(Name(t))
  {
  }

  lemma ShortSettingsAreNames(t: Tag)
    requires IsShortSetting(t)
    ensures IsName(Name(t))
  {
  }

  lemma PrincipalPartsAreNames(t: Tag)
    requires IsPrincipalPart(t)
    ensures IsName(Name(t))
  {
  }

  lemma SectionsAreNames(t: Tag)
    requires IsSection(t)
    ensures IsName(Name(t))
  {
  }

  lemma NamesAreNames(t: Tag)
    ensures IsName(Name(t))
  {
    if IsTrigger(t) {
      TriggersAreNames(t);
    } else if IsLongTrigger(t) {
      LongTriggersAreNames(t);
    } else if IsLongSetting(t) {
      LongSettingsAreNames(t);
    } else if IsLongerSetting(t) {
      LongerSettingsAreNames(t);
    } else if IsStartSetting(t) {
      StartSettingsAreNames(t);
    } else if IsDemandSetting(t) {
      DemandSettingsAreNames(t);
    } else if IsIdleSetting(t) {
      IdleSettingsAreNames(t);
    } else if IsRestartSetting(t) {
      RestartSettingsAreNames(t);
    } else if IsEndSetting(t) {
      EndSettingsAreNames(t);
    } else if IsOtherSetting(t) {
      OtherSettingsAreNames(t);
    } else if IsShortSetting(t) {
      ShortSettingsAreNames(t);
    } else if IsPrincipalPart(t) {
      PrincipalPartsAreNames(t);
    } else {
      SectionsAreNames(t);
    }
  }

  // ----- Telling the names apart -----

  function Letter(s: string, i: nat): char {
    if i < |s| then Fold(s[i]) else ' '
  }

  /** Finds a name by a few of its letters. */
  function Recognize(s: string): Tag {
    match Letter(s, 0)
    case 'a' => RecognizeA(s)
    case 'b' => BootTrigger
    case 'c' => if Letter(s, 2) == 'l' then CalendarTrigger else if Letter(s, 2) == 'u' then Count else Command
    case 'd' => if Letter(s, 1) == 'e' then Description else DisallowStartIfOnBatteries
    case 'e' => if Letter(s, 1) == 'v' then EventTrigger else if Letter(s, 1) == 'n' then Enabled else Exec
    case 'h' => Hidden
    case 'i' => if Letter(s, 1) == 'n' then Interval else if Letter(s, 4) == 't' then IdleTrigger else IdleSettings
    case 'l' => if Letter(s, 6) == 'r' then LogonTrigger else LogonType
    case 'm' => MultipleInstancesPolicy
    case 'p' => if Letter(s, 4) == 'r' then Priority else Principal
    case 'r' => RecognizeR(s)
    case 's' => RecognizeS(s)
    case 't' => if Letter(s, 1) == 'a' then Task else if Letter(s, 1) == 'r' then Triggers else TimeTrigger
    case 'u' => if Letter(s, 1) == 'r' then URI else if Letter(s, 3) == 'r' then UserId else UseUnifiedSchedulingEngine
    case _ => WakeToRun
  }

  function RecognizeA(s: string): Tag {
    if Letter(s, 1) == 'r' then Arguments
    else if Letter(s, 1) == 'c' then Actions
    else if Letter(s, 5) == 'h' then AllowHardTerminate
    else AllowStartOnDemand
  }

  function RecognizeR(s: string): Tag {
    if Letter(s, 1) == 'u' then
      if Letter(s, 3) == 'l' then RunLevel else if Letter(s, 9) == 'n' then RunOnlyIfNetworkAvailable else RunOnlyIfIdle
    else if Letter(s, 2) == 'g' then
      if Letter(s, 12) == 'i' then RegistrationInfo else RegistrationTrigger
    else if Letter(s, 9) == 'f' then RestartOnFailure
    else RestartOnIdle
  }

  function RecognizeS(s: string): Tag {
    if Letter(s, 1) == 'e' then
      if Letter(s, 2) == 't' then Settings else SessionStateChangeTrigger
    else if Letter(s, 2) == 'a' then StartWhenAvailable
    else if Letter(s, 4) == 'i' then StopIfGoingOnBatteries
    else StopOnIdleEnd
  }

  /** Two names go on where another name ends. */
  function Stem(t: Tag): Tag {
    if t == Principals then Principal else if t == ExecutionTimeLimit then Exec else t
  }

  predicate SameLetter(s: string, name: string, i: nat) {
    i < |name| ==> Letter(s, i) == Fold(name[i])
  }

  /** The letters that tell the names apart. */
  lemma LettersOf(s: string, name: string)
    requires StartsWith(s, name)
    ensures SameLetter(s, name, 0) && SameLetter(s, name, 1) && SameLetter(s, name, 2) && SameLetter(s, name, 3)
    ensures SameLetter(s, name, 4) && SameLetter(s, name, 5) && SameLetter(s, name, 6) && SameLetter(s, name, 9)
    ensures SameLetter(s, name, 12)
  {
  }

  lemma TriggersAreRecognized(t: Tag, s: string, name: string)
    requires IsTrigger(t) && name == Name(t) && StartsWith(s, name)
    ensures Recognize(s) == Stem(t)
  {
    LettersOf(s, name);
  }

  lemma LongTriggersAreRecognized(t: Tag, s: string, name: string)
    requires IsLongTrigger(t) && name == Name(t) && StartsWith(s, name)
    ensures Recognize(s) == Stem(t)
  {
    LettersOf(s, name);
  }

  lemma LongSettingsAreRecognized(t: Tag, s: string, name: string)
    requires IsLongSetting(t) && name == Name(t) && StartsWith(s, name)
    ensures Recognize(s) == Stem(t)
  {
    LettersOf(s, name);
  }

  lemma StopIfGoingIsRecognized(s: string, name: string)
    requires name == Name(StopIfGoingOnBatteries) && StartsWith(s, name)
    ensures Recognize(s) == StopIfGoingOnBatteries
  {
  }

  lemma UnifiedEngineIsRecognized(s: string, name: string)
    requires name == Name(UseUnifiedSchedulingEngine) && StartsWith(s, name)
    ensures Recognize(s) == UseUnifiedSchedulingEngine
  {
  }

  lemma StartSettingsAreRecognized(t: Tag, s: string, name: string)
    requires IsStartSetting(t) && name == Name(t) && StartsWith(s, name)
    ensures Recognize(s) == Stem(t)
  {
    LettersOf(s, name);
  }

  lemma DemandSettingsAreRecognized(t: Tag, s: string, name: string)
    requires IsDemandSetting(t) && name == Name(t) && StartsWith(s, name)
    ensures Recognize(s) == Stem(t)
  {
    LettersOf(s, name);
  }

  lemma IdleSettingsAreRecognized(t: Tag, s: string, name: string)
    requires IsIdleSetting(t) && name == Name(t) && StartsWith(s, name)
    ensures Recognize(s) == Stem(t)
  {
    LettersOf(s, name);
  }

  lemma RestartSettingsAreRecognized(t: Tag, s: string, name: string)
    requires IsRestartSetting(t) && name == Name(t) && StartsWith(s, name)
    ensures Recognize(s) == Stem(t)
  {
    LettersOf(s, name);
  }

  lemma EndSettingsAreRecognized(t: Tag, s: string, name: string)
    requires IsEndSetting(t) && name == Name(t) && StartsWith(s, name)
    ensures Recognize(s) == Stem(t)
  {
    LettersOf(s, name);
  }

  lemma OtherSettingsAreRecognized(t: Tag, s: string, name: string)
    requires IsOtherSetting(t) && name == Name(t) && StartsWith(s, name)
    ensures Recognize(s) == Stem(t)
  {
    LettersOf(s, name);
  }

  lemma ShortSettingsAreRecognized(t: Tag, s: string, name: string)
    requires IsShortSetting(t) && name == Name(t) && StartsWith(s, name)
    ensures Recognize(s) == Stem(t)
  {
    LettersOf(s, name);
  }

  lemma PrincipalPartsAreRecognized(t: Tag, s: string, name: string)
    requires IsPrincipalPart(t) && name == Name(t) && StartsWith(s, name)
    ensures Recognize(s) == Stem(t)
  {
    LettersOf(s, name);
  }

  lemma SectionsAreRecognized(t: Tag, s: string, name: string)
    requires IsSection(t) && name == Name(t) && StartsWith(s, name)
    ensures Recognize(s) == Stem(t)
  {
    LettersOf(s, name);
  }

  lemma NamesAreRecognized(t: Tag, s: string)
    requires StartsWith(s, Name(t))
    ensures Recognize(s) == Stem(t)
  {
    if IsTrigger(t) {
      TriggersAreRecognized(t, s, Name(t));
    } else if IsLongTrigger(t) {
      LongTriggersAreRecognized(t, s, Name(t));
    } else if IsLongSetting(t) {
      LongSettingsAreRecognized(t, s, Name(t));
    } else if IsLongerSetting(t) {
      if t == StopIfGoingOnBatteries {
        StopIfGoingIsRecognized(s, Name(t));
      } else {
        UnifiedEngineIsRecognized(s, Name(t));
      }
    } else if IsStartSetting(t) {
      StartSettingsAreRecognized(t, s, Name(t));
    } else if IsDemandSetting(t) {
      DemandSettingsAreRecognized(t, s, Name(t));
    } else if IsIdleSetting(t) {
      IdleSettingsAreRecognized(t, s, Name(t));
    } else if IsRestartSetting(t) {
      RestartSettingsAreRecognized(t, s, Name(t));
    } else if IsEndSetting(t) {
      EndSettingsAreRecognized(t, s, Name(t));
    } else if IsOtherSetting(t) {
      OtherSettingsAreRecognized(t, s, Name(t));
    } else if IsShortSetting(t) {
      ShortSettingsAreRecognized(t, s, Name(t));
    } else if IsPrincipalPart(t) {
      PrincipalPartsAreRecognized(t, s, Name(t));
    } else {
      SectionsAreRecognized(t, s, Name(t));
    }
  }

  lemma StemsAgree(t: Tag, u: Tag)
    requires StartsWith(Name(u), Name(t))
    ensures Stem(t) == Stem(u) && !Extends(t, u)
  {
    NamesAreRecognized(t, Name(u));
    NamesAreRecognized(u, Name(u));
    if Extends(t, u) {
      ExtendsIsLonger(t, u);
    }
  }

  predicate Extends(longer: Tag, shorter: Tag) {
    (longer == Principals && shorter == Principal) || (longer == ExecutionTimeLimit && shorter == Exec)
  }

  lemma ExtendsIsLonger(longer: Tag, shorter: Tag)
    requires Extends(longer, shorter)
    ensures |Name(shorter)| < |Name(longer)|
  {
    if longer == Principals {
      LengthsDiffer(Name(longer), "Principals", Name(shorter), "Principal");
    } else {
      LengthsDiffer(Name(longer), "ExecutionTimeLimit", Name(shorter), "Exec");
    }
  }

  lemma LengthsDiffer(longer: string, long: string, shorter: string, short: string)
    requires longer == long && shorter == short && |short| < |long|
    ensures |shorter| < |longer|
  {
  }

  lemma SameStem(t: Tag, u: Tag)
    requires Stem(t) == Stem(u)
    ensures t == u || Extends(t, u) || Extends(u, t)
  {
  }

  /** No name begins with another one but for two; in particular the names differ when case is ignored. */
  lemma NamesDiffer(t: Tag, u: Tag)
    requires StartsWith(Name(u), Name(t)) && t != u
    ensures Extends(u, t)
  {
    StemsAgree(t, u);
    SameStem(t, u);
  }
}
