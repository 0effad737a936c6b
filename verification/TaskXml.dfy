/**
 * The scheduled task of packages/dsh-luban-keepalive/src/windows-task.ts: the document it is written as, and the reader
 * that decides whether a document is exactly that task.
 */
module TaskXml {
  import opened Wrappers
  import opened Text
  import opened XmlScan
  import opened TaskNames
  import opened TaskDocument

  datatype Trigger = Boot | OnDemand

  datatype TaskDefinition = TaskDefinition(
    name: string, description: string, principalSid: string, trigger: Trigger, command: string, arguments: string)

  /** The case conversions of the platform, `toLocaleLowerCase('en-US')` and `toUpperCase()`. */
  datatype Locale = Locale(lower: string -> string, upper: string -> string)

  /** What they do to the few texts the reader compares with a converted one. */
  ghost predicate KnowsAscii(locale: Locale) {
    locale.lower("true") == "true" && locale.lower("false") == "false" && locale.lower("7") == "7"
    && locale.lower("LeastPrivilege") == "leastprivilege" && locale.upper("S4U") == "S4U"
  }

  // ----- The document -----

  function RegistrationElem(description: string): Elem {
    Node(RegistrationInfo, [Leaf(Description, description)])
  }

  function TriggersElem(): Elem {
    Node(Triggers, [Node(BootTrigger, [Leaf(Enabled, "true")])])
  }

  function PrincipalRows(sid: string): seq<Elem> {
    [Leaf(UserId, sid), Leaf(LogonType, "S4U"), Leaf(RunLevel, "LeastPrivilege")]
  }

  function PrincipalElem(sid: string): Elem {
    Elem(Principal, [Attribute("id", "CurrentUser")], Block(PrincipalRows(sid)))
  }

  function PrincipalsElem(sid: string): Elem {
    Node(Principals, [PrincipalElem(sid)])
  }

  function RestartRows(): seq<Elem> {
    [Leaf(Interval, "PT1M"), Leaf(Count, "3")]
  }

  function SettingsRows(): seq<Elem> {
    [
      Leaf(MultipleInstancesPolicy, "IgnoreNew"),
      Leaf(DisallowStartIfOnBatteries, "false"),
      Leaf(StopIfGoingOnBatteries, "false"),
      Leaf(AllowHardTerminate, "true"),
      Leaf(StartWhenAvailable, "true"),
      Leaf(RunOnlyIfNetworkAvailable, "false"),
      Leaf(AllowStartOnDemand, "true"),
      Leaf(Enabled, "true"),
      Leaf(Hidden, "false"),
      Leaf(RunOnlyIfIdle, "false"),
      Leaf(WakeToRun, "false"),
      Leaf(ExecutionTimeLimit, "PT0S"),
      Node(RestartOnFailure, RestartRows()),
      Leaf(Priority, "7")
    ]
  }

  function SettingsElem(): Elem {
    Node(Settings, SettingsRows())
  }

  function ExecRows(command: string, arguments: string): seq<Elem> {
    [Leaf(Command, command)] + (if arguments == "" then [] else [Leaf(Arguments, arguments)])
  }

  function ActionsElem(command: string, arguments: string): Elem {
    Elem(Actions, [Attribute("Context", "CurrentUser")], Block([Node(Exec, ExecRows(command, arguments))]))
  }

  function TaskRows(d: TaskDefinition): seq<Elem> {
    [RegistrationElem(d.description)]
    + (if d.trigger == Boot then [TriggersElem()] else [])
    + [PrincipalsElem(d.principalSid), SettingsElem(), ActionsElem(d.command, d.arguments)]
  }

  /** The name space of task documents. */
  function NameSpace(): string {
    "http://schemas." + "microsoft.com/" + "windows/2004/" + "02/mit/task"
  }

  function TaskAttributes(): seq<Attribute> {
    [Attribute("version", "1.4"), Attribute("xmlns", NameSpace())]
  }

  function TaskElem(d: TaskDefinition): Elem {
    Elem(Task, TaskAttributes(), Block(TaskRows(d)))
  }

  function PrologAttributes(): seq<Attribute> {
    [Attribute("version", "1.0"), Attribute("encoding", "UTF-16")]
  }

  function Prolog(): string {
    "<?xml" + PrintAttributes(PrologAttributes()) + "?>"
  }

  function RenderWindowsTaskXml(d: TaskDefinition): string {
    Prolog() + "\n" + (PrintElem(TaskElem(d), 0) + "\n")
  }

  // ----- Reading the parts -----

  function ExecutionTriggerTags(): seq<Tag> {
    [BootTrigger, CalendarTrigger, EventTrigger, IdleTrigger, LogonTrigger, RegistrationTrigger,
     SessionStateChangeTrigger, TimeTrigger]
  }

  /** How often an execution trigger must occur. */
  function ExpectedCount(tag: Tag, trigger: Trigger): nat {
    if trigger == Boot && tag == BootTrigger then 1 else 0
  }

  predicate HasTriggerCounts(xml: string, trigger: Trigger) {
    forall t :: t in ExecutionTriggerTags() ==> OpeningTagCount(xml, Name(t)) == ExpectedCount(t, trigger)
  }

  predicate IsEnabledBoot(body: string, locale: Locale) {
    IsSelfClosed(body, Name(BootTrigger))
    || (match SingleElement(body, Name(BootTrigger))
        case None => false
        case Some(boot) =>
          boot.attributes == map[] && Trim(RemoveFirst(body, boot.full)) == ""
          && (Trim(boot.inner) == "" || IsEnabled(boot.inner, locale)))
  }

  predicate IsEnabled(inner: string, locale: Locale) {
    match TextChild(inner, Name(Enabled))
    case None => false
    case Some(enabled) => locale.lower(enabled.value) == "true" && Trim(RemoveFirst(inner, enabled.full)) == ""
  }

  predicate HasOnlyExpectedTrigger(xml: string, trigger: Trigger, locale: Locale) {
    HasTriggerCounts(xml, trigger)
    && if trigger == OnDemand then
         OpeningTagCount(xml, Name(Triggers)) == 0
         || (OpeningTagCount(xml, Name(Triggers)) == 1 && Has(SelfClosing(Name(Triggers)), xml))
       else HasEnabledBoot(xml, locale)
  }

  /** The triggers hold the boot trigger, and it is enabled. */
  predicate HasEnabledBoot(xml: string, locale: Locale) {
    match SingleElement(xml, Name(Triggers))
    case None => false
    case Some(triggers) => triggers.attributes == map[] && IsEnabledBoot(Trim(triggers.inner), locale)
  }

  /** Takes the expected text children out of `remainder`, one after another; all of them must be there. */
  function Consume(parent: string, remainder: string, expected: seq<(Tag, string)>, locale: Locale): Option<string>
    decreases |expected|
  {
    if expected == [] then Some(remainder)
    else
      match TextChild(parent, Name(expected[0].0))
      case None => None
      case Some(child) =>
        if locale.lower(child.value) != locale.lower(expected[0].1) then None
        else Consume(parent, RemoveFirst(remainder, child.full), expected[1..], locale)
  }

  predicate HasExactTextChildren(parent: string, expected: seq<(Tag, string)>, locale: Locale) {
    match Consume(parent, parent, expected, locale)
    case None => false
    case Some(remainder) => Trim(remainder) == ""
  }

  method ExactTextChildren(parent: string, expected: seq<(Tag, string)>, locale: Locale) returns (exact: bool)
    ensures exact == HasExactTextChildren(parent, expected, locale)
  {
    var remainder := parent;
    var i := 0;
    while i < |expected|
      invariant i <= |expected|
      invariant Consume(parent, remainder, expected[i..], locale) == Consume(parent, parent, expected, locale)
    {
      var (tag, value) := expected[i];
      var child := TextChild(parent, Name(tag));
      if child.None? || locale.lower(child.value.value) != locale.lower(value) {
        return false;
      }
      remainder := RemoveFirst(remainder, child.value.full);
      i := i + 1;
    }
    return Trim(remainder) == "";
  }

  /** Like `Consume`, but a child may be missing, and the expected texts are in lower case already. */
  function ConsumeOptional(parent: string, remainder: string, expected: seq<(Tag, string)>,
                           locale: Locale): Option<string>
    decreases |expected|
  {
    if expected == [] then Some(remainder)
    else
      var name := Name(expected[0].0);
      if OpeningTagCount(parent, name) == 0 then ConsumeOptional(parent, remainder, expected[1..], locale)
      else
        match TextChild(parent, name)
        case None => None
        case Some(child) =>
          if locale.lower(child.value) != expected[0].1 then None
          else ConsumeOptional(parent, RemoveFirst(remainder, child.full), expected[1..], locale)
  }

  function RestartChildren(): seq<(Tag, string)> {
    [(Interval, "PT1M"), (Count, "3")]
  }

  function IdleChildren(): seq<(Tag, string)> {
    [(StopOnIdleEnd, "true"), (RestartOnIdle, "false")]
  }

  function RequiredSettings(): seq<(Tag, string)> {
    [
      (MultipleInstancesPolicy, "IgnoreNew"),
      (DisallowStartIfOnBatteries, "false"),
      (StopIfGoingOnBatteries, "false"),
      (StartWhenAvailable, "true"),
      (ExecutionTimeLimit, "PT0S")
    ]
  }

  function OptionalSettings(): seq<(Tag, string)> {
    [
      (AllowHardTerminate, "true"),
      (RunOnlyIfNetworkAvailable, "false"),
      (AllowStartOnDemand, "true"),
      (Enabled, "true"),
      (Hidden, "false"),
      (RunOnlyIfIdle, "false"),
      (WakeToRun, "false"),
      (Priority, "7"),
      (UseUnifiedSchedulingEngine, "true")
    ]
  }

  /** Takes an element with exactly these text children out of `remainder`. */
  function TakeBlock(parent: string, remainder: string, tag: Tag, children: seq<(Tag, string)>,
                     locale: Locale): Option<string> {
    match SingleElement(parent, Name(tag))
    case None => None
    case Some(block) =>
      if block.attributes != map[] || !HasExactTextChildren(block.inner, children, locale) then None
      else Some(RemoveFirst(remainder, block.full))
  }

  /** The idle settings may be missing, but then there must be no trace of them. */
  function TakeIdle(parent: string, remainder: string, locale: Locale): Option<string> {
    if SingleElement(parent, Name(IdleSettings)).Some?
    then TakeBlock(parent, remainder, IdleSettings, IdleChildren(), locale)
    else if OpeningTagCount(parent, Name(IdleSettings)) != 0 then None
    else Some(remainder)
  }

  predicate HasExactSettings(value: string, locale: Locale) {
    match TakeBlock(value, value, RestartOnFailure, RestartChildren(), locale)
    case None => false
    case Some(a) =>
      match TakeIdle(value, a, locale)
      case None => false
      case Some(b) =>
        match Consume(value, b, RequiredSettings(), locale)
        case None => false
        case Some(c) =>
          match ConsumeOptional(value, c, OptionalSettings(), locale)
          case None => false
          case Some(d) => Trim(d) == ""
  }

  /** A name that occurs other than once has no single element. */
  lemma OnlyOneIsRead(parent: string, name: string)
    requires OpeningTagCount(parent, name) != 1
    ensures TextChild(parent, name).None?
  {
  }

  method ExactSettings(value: string, locale: Locale) returns (exact: bool)
    ensures exact == HasExactSettings(value, locale)
  {
    var remainder := value;
    var restart := SingleElement(value, Name(RestartOnFailure));
    if restart.None? || restart.value.attributes != map[] {
      return false;
    }
    var restartExact := ExactTextChildren(restart.value.inner, RestartChildren(), locale);
    if !restartExact {
      return false;
    }
    remainder := RemoveFirst(remainder, restart.value.full);

    var idle := SingleElement(value, Name(IdleSettings));
    if idle.Some? {
      var idleExact := ExactTextChildren(idle.value.inner, IdleChildren(), locale);
      if idle.value.attributes != map[] || !idleExact {
        return false;
      }
      remainder := RemoveFirst(remainder, idle.value.full);
    } else if OpeningTagCount(value, Name(IdleSettings)) != 0 {
      return false;
    }
    assert TakeIdle(value, RemoveFirst(value, restart.value.full), locale) == Some(remainder);

    var required := TakeRequired(value, remainder, RequiredSettings(), locale);
    if required.None? {
      return false;
    }
    var optional := TakeOptional(value, required.value, OptionalSettings(), locale);
    return optional.Some? && Trim(optional.value) == "";
  }

  method TakeRequired(value: string, before: string, settings: seq<(Tag, string)>,
                      locale: Locale) returns (after: Option<string>)
    ensures after == Consume(value, before, settings, locale)
  {
    var remainder := before;
    var i := 0;
    while i < |settings|
      invariant i <= |settings|
      invariant Consume(value, remainder, settings[i..], locale) == Consume(value, before, settings, locale)
    {
      var (tag, text) := settings[i];
      var child := TextChild(value, Name(tag));
      if child.None? || locale.lower(child.value.value) != locale.lower(text) {
        return None;
      }
      remainder := RemoveFirst(remainder, child.value.full);
      i := i + 1;
    }
    return Some(remainder);
  }

  method TakeOptional(value: string, before: string, settings: seq<(Tag, string)>,
                      locale: Locale) returns (after: Option<string>)
    ensures after == ConsumeOptional(value, before, settings, locale)
  {
    var remainder := before;
    var i := 0;
    while i < |settings|
      invariant i <= |settings|
      invariant ConsumeOptional(value, remainder, settings[i..], locale)
             == ConsumeOptional(value, before, settings, locale)
    {
      var (tag, expected) := settings[i];
      var count := OpeningTagCount(value, Name(tag));
      if count != 0 {
        var child := if count == 1 then TextChild(value, Name(tag)) else None;
        if count != 1 {
          OnlyOneIsRead(value, Name(tag));
        }
        if child.None? || locale.lower(child.value.value) != expected {
          return None;
        }
        remainder := RemoveFirst(remainder, child.value.full);
      }
      i := i + 1;
    }
    return Some(remainder);
  }

  // ----- Reading the task -----

  datatype Projection = Projection(description: string, uri: Option<string>, principalSid: string, command: string,
                                   arguments: string)

  /** The description and the URI; nothing else may be registered. */
  function ReadRegistration(task: string): Option<(string, Option<string>)> {
    match SingleElement(task, Name(RegistrationInfo))
    case None => None
    case Some(registration) =>
      match TextChild(registration.inner, Name(Description))
      case None => None
      case Some(description) =>
        var remainder := RemoveFirst(registration.inner, description.full);
        match TextChild(registration.inner, Name(URI))
        case None => if Trim(remainder) != "" then None else Some((description.value, None))
        case Some(uri) =>
          if Trim(RemoveFirst(remainder, uri.full)) != "" then None else Some((description.value, Some(uri.value)))
  }

  /** The one principal of the task. */
  function ReadPrincipal(task: string, locale: Locale): Option<string> {
    match SingleElement(task, Name(Principals))
    case None => None
    case Some(principals) =>
      match SingleElement(principals.inner, Name(Principal))
      case None => None
      case Some(principal) =>
        if principals.attributes != map[] || principal.attributes != map["id" := "CurrentUser"]
           || Trim(RemoveFirst(principals.inner, principal.full)) != ""
        then None
        else ReadUser(principal.inner, locale)
  }

  /** The user of a principal that logs on as a service and, if it says so, with least privilege. */
  function ReadUser(principal: string, locale: Locale): Option<string> {
    match (TextChild(principal, Name(UserId)), TextChild(principal, Name(LogonType)))
    case (Some(userId), Some(logonType)) =>
      if locale.upper(logonType.value) != "S4U" then None
      else
        var remainder := RemoveFirst(RemoveFirst(principal, userId.full), logonType.full);
        (match TextChild(principal, Name(RunLevel))
         case None => if Trim(remainder) != "" then None else Some(userId.value)
         case Some(runLevel) =>
           if locale.lower(runLevel.value) != "leastprivilege" || Trim(RemoveFirst(remainder, runLevel.full)) != ""
           then None
           else Some(userId.value))
    case _ => None
  }

  predicate ReadSettings(task: string, locale: Locale) {
    match SingleElement(task, Name(Settings))
    case None => false
    case Some(settings) => settings.attributes == map[] && HasExactSettings(settings.inner, locale)
  }

  /** The command and its arguments; the task may do nothing else. */
  function ReadActions(task: string): Option<(string, string)> {
    match SingleElement(task, Name(Actions))
    case None => None
    case Some(actions) =>
      match SingleElement(actions.inner, Name(Exec))
      case None => None
      case Some(exec) =>
        if actions.attributes != map["Context" := "CurrentUser"] || exec.attributes != map[]
           || Trim(RemoveFirst(actions.inner, exec.full)) != ""
        then None
        else ReadCommand(exec.inner)
  }

  function ReadCommand(exec: string): Option<(string, string)> {
    match TextChild(exec, Name(Command))
    case None => None
    case Some(command) =>
      if command.value == "" then None
      else
        var remainder := RemoveFirst(exec, command.full);
        var arguments := if OpeningTagCount(exec, Name(Arguments)) == 0 then None else TextChild(exec, Name(Arguments));
        match arguments
        case None => if Trim(remainder) != "" then None else Some((command.value, ""))
        case Some(text) =>
          if Trim(RemoveFirst(remainder, text.full)) != "" then None else Some((command.value, text.value))
  }

  function ProjectTask(task: string, trigger: Trigger, locale: Locale): Option<Projection> {
    if !HasOnlyExpectedTrigger(task, trigger, locale) || !ReadSettings(task, locale) then None
    else
      match (ReadRegistration(task), ReadPrincipal(task, locale), ReadActions(task))
      case (Some((description, uri)), Some(sid), Some((command, arguments))) =>
        Some(Projection(description, uri, sid, command, arguments))
      case _ => None
  }

  function ProjectWindowsTaskXml(xml: string, trigger: Trigger, locale: Locale): Option<Projection> {
    if Has(Declaration, xml) then None
    else
      match SingleElement(xml, Name(Task))
      case None => None
      case Some(task) => ProjectTask(task.inner, trigger, locale)
  }

  predicate SameWindowsValue(a: string, b: string, locale: Locale) {
    locale.lower(a) == locale.lower(b)
  }

  predicate MatchesWindowsTaskXml(xml: string, d: TaskDefinition, locale: Locale) {
    match ProjectWindowsTaskXml(xml, d.trigger, locale)
    case None => false
    case Some(p) =>
      p.description == d.description
      && (p.uri.None? || SameWindowsValue(p.uri.value, d.name, locale))
      && SameWindowsValue(p.principalSid, d.principalSid, locale)
      && SameWindowsValue(p.command, d.command, locale)
      && p.arguments == d.arguments
  }
}
