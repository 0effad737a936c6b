/** Reading back a written task: what the reader of TaskXml makes of every rendered definition. */
module TaskRoundTrip {
  import opened Wrappers
  import opened Text
  import opened XmlScan
  import opened TaskNames
  import opened TaskDocument
  import opened TaskXml
  import opened TaskSettings
  import opened TaskSections
  import Quoting

  // ----- The whole document -----

  lemma RegistrationInRows(rows: seq<Elem>, k: nat, inner: seq<Elem>, text: string)
    requires TidyRows(rows) && Apart(rows) && k < |rows| && rows[k] == Node(RegistrationInfo, inner)
    requires inner == [Leaf(Description, text)]
    ensures ReadRegistration(Body(rows, 1, {})) == Some((Trim(text), None))
  {
    SectionIsFound(rows, k, 1, rows[k], inner, PrintElem(rows[k], 1), Body(inner, 2, {}));
    RegistrationIsRead(Body(rows, 1, {}), PrintElem(rows[k], 1), inner, text);
  }

  lemma RegistrationOfTask(rows: seq<Elem>, d: TaskDefinition)
    requires IsTask(rows, d)
    ensures ReadRegistration(Body(rows, 1, {})) == Some((Trim(d.description), None))
  {
    TaskRowsAre(rows, d);
    TaskRowsAreTidy(rows, d);
    TaskRowsAreApart(rows, d);
    RegistrationInRows(rows, 0, [Leaf(Description, d.description)], d.description);
  }

  lemma PrincipalInRows(rows: seq<Elem>, k: nat, e: Elem, sid: string, locale: Locale)
    requires TidyRows(rows) && Apart(rows) && k < |rows| && rows[k] == Node(Principals, [e])
    requires e == PrincipalElem(sid) && KnowsAscii(locale)
    ensures ReadPrincipal(Body(rows, 1, {}), locale) == Some(Trim(sid))
  {
    SectionIsFound(rows, k, 1, rows[k], [e], PrintElem(rows[k], 1), Body([e], 2, {}));
    PrincipalIsRead(Body(rows, 1, {}), PrintElem(rows[k], 1), e, sid, locale);
  }

  lemma PrincipalOfTask(rows: seq<Elem>, d: TaskDefinition, locale: Locale)
    requires IsTask(rows, d) && KnowsAscii(locale)
    ensures ReadPrincipal(Body(rows, 1, {}), locale) == Some(Trim(d.principalSid))
  {
    TaskRowsAre(rows, d);
    TaskRowsAreTidy(rows, d);
    TaskRowsAreApart(rows, d);
    PrincipalInRows(rows, PrincipalsAt(d), PrincipalElem(d.principalSid), d.principalSid, locale);
  }

  lemma SettingsWhenRead(task: string, full: string, inner: string, locale: Locale)
    requires SingleElement(task, Name(Settings)) == Some(XmlElement(full, map[], inner))
    requires HasExactSettings(inner, locale)
    ensures ReadSettings(task, locale)
  {
  }

  lemma SettingsElementIs(rows: seq<Elem>, k: nat, settings: seq<Elem>)
    requires TidyRows(rows) && Apart(rows) && k < |rows| && rows[k] == Node(Settings, settings)
    ensures SingleElement(Body(rows, 1, {}), Name(Settings))
         == Some(XmlElement(PrintElem(rows[k], 1), map[], Body(settings, 2, {})))
  {
    SectionIsFound(rows, k, 1, rows[k], settings, PrintElem(rows[k], 1), Body(settings, 2, {}));
  }

  lemma SettingsOfTask(rows: seq<Elem>, d: TaskDefinition, settings: seq<Elem>, locale: Locale)
    requires IsTask(rows, d) && settings == SettingsRows() && KnowsAscii(locale)
    ensures ReadSettings(Body(rows, 1, {}), locale)
  {
    var k := PrincipalsAt(d) + 1;
    TaskRowsAre(rows, d);
    TaskRowsAreTidy(rows, d);
    TaskRowsAreApart(rows, d);
    SettingsElementIs(rows, k, settings);
    SettingsAreExact(settings, locale);
    SettingsWhenRead(Body(rows, 1, {}), PrintElem(rows[k], 1), Body(settings, 2, {}), locale);
  }

  lemma ActionsOfTask(rows: seq<Elem>, d: TaskDefinition)
    requires IsTask(rows, d)
    ensures ReadActions(Body(rows, 1, {}))
         == if Trim(d.command) == "" then None else Some((Trim(d.command), Trim(d.arguments)))
  {
    var (k, e) := (PrincipalsAt(d) + 2, Node(Exec, ExecRows(d.command, d.arguments)));
    TaskRowsAre(rows, d);
    TaskRowsAreTidy(rows, d);
    TaskRowsAreApart(rows, d);
    SingleInRows(rows, k, 1);
    ActionsAreTidy(d.command, d.arguments);
    assert rows[k].content == Block([e]);
    ActionsAreRead(Body(rows, 1, {}), PrintElem(rows[k], 1), e, d.command, d.arguments);
  }

  /** What the reader is expected to make of a written definition. */
  function ProjectionOf(d: TaskDefinition): Projection {
    Projection(Trim(d.description), None, Trim(d.principalSid), Trim(d.command), Trim(d.arguments))
  }

  function Expected(d: TaskDefinition, trigger: Trigger): Option<Projection> {
    if trigger != d.trigger || Trim(d.command) == "" then None else Some(ProjectionOf(d))
  }

  lemma ProjectWhenRead(task: string, d: TaskDefinition, trigger: Trigger, locale: Locale)
    requires HasOnlyExpectedTrigger(task, trigger, locale) <==> trigger == d.trigger
    requires ReadSettings(task, locale) && ReadRegistration(task) == Some((Trim(d.description), None))
    requires ReadPrincipal(task, locale) == Some(Trim(d.principalSid))
    requires ReadActions(task) == if Trim(d.command) == "" then None else Some((Trim(d.command), Trim(d.arguments)))
    ensures ProjectTask(task, trigger, locale) == Expected(d, trigger)
  {
  }

  lemma TaskIsProjected(rows: seq<Elem>, d: TaskDefinition, trigger: Trigger, locale: Locale)
    requires IsTask(rows, d) && KnowsAscii(locale)
    ensures ProjectTask(Body(rows, 1, {}), trigger, locale) == Expected(d, trigger)
  {
    TriggerIsExpected(rows, d, trigger, locale);
    SettingsOfTask(rows, d, SettingsRows(), locale);
    RegistrationOfTask(rows, d);
    PrincipalOfTask(rows, d, locale);
    ActionsOfTask(rows, d);
    ProjectWhenRead(Body(rows, 1, {}), d, trigger, locale);
  }

  lemma TwoAttributes(a: Attribute, b: Attribute)
    requires TidyAttribute(a) && TidyAttribute(b) && a.key != b.key
    ensures TidyAttributes([a, b])
  {
  }

  lemma PrologIsMarkup(prolog: string)
    requires prolog == Prolog()
    ensures IsOneMarkup(prolog) && prolog[1] == '?'
  {
    var (a, b) := (Attribute("version", "1.0"), Attribute("encoding", "UTF-16"));
    TwoAttributes(a, b);
    var attributes := PrintAttributes([a, b]);
    AttributesHaveNoAngle([a, b]);
    assert prolog == "<?xml" + attributes + "?>";
    assert prolog[1..] == "?xml" + attributes + "?>";
  }

  lemma NothingAtQuestionMark(p: Probe, s: string)
    requires Proper(p) && |s| >= 2 && s[1] == '?'
    ensures !Holds(p, s)
  {
    if !p.End? {
      NotAtSlash(p, s);
    }
  }

  lemma NothingAtProlog(p: Probe, prolog: string)
    requires Proper(p) && prolog == Prolog()
    ensures Scanned(p, prolog + "\n", 0)
  {
    PrologIsMarkup(prolog);
    ScanTag(p, prolog);
    ScanPlain(p, "\n");
    NothingAtQuestionMark(p, prolog);
    ScanJoin(p, prolog, 0, "\n", 0);
  }

  lemma PlainValueAppend(a: string, b: string)
    requires PlainValue(a) && PlainValue(b)
    ensures PlainValue(a + b)
  {
  }

  lemma NameSpaceIsPlain()
    ensures PlainValue(NameSpace())
  {
    PlainValueAppend("http://schemas.", "microsoft.com/");
    PlainValueAppend("http://schemas." + "microsoft.com/", "windows/2004/");
    PlainValueAppend("http://schemas." + "microsoft.com/" + "windows/2004/", "02/mit/task");
  }

  lemma TaskAttributesAreTidy()
    ensures TidyAttributes(TaskAttributes())
  {
    NameSpaceIsPlain();
    TwoAttributes(Attribute("version", "1.4"), Attribute("xmlns", NameSpace()));
  }

  lemma TaskIsTidy(d: TaskDefinition)
    ensures Tidy(TaskElem(d))
  {
    var rows := TaskRows(d);
    TaskAttributesAreTidy();
    TaskRowsAreTidy(rows, d);
    SectionTags(rows, d);
  }

  lemma NoDeclarationInTask(d: TaskDefinition)
    ensures !Has(Declaration, RenderWindowsTaskXml(d))
  {
    var e := TaskElem(d);
    TaskIsTidy(d);
    NoDeclaration(e);
    ScanElem(Declaration, e, 0);
    NothingAtProlog(Declaration, Prolog());
    ScanPlain(Declaration, "\n");
    ScanJoin(Declaration, PrintElem(e, 0), 0, "\n", 0);
    ScanJoin(Declaration, Prolog() + "\n", 0, PrintElem(e, 0) + "\n", 0);
  }

  lemma TaskIsFound(d: TaskDefinition, e: Elem)
    requires e == TaskElem(d)
    ensures SingleElement(RenderWindowsTaskXml(d), Name(Task)) == Some(ElementPrinted(e, 0))
  {
    TaskIsTidy(d);
    LowerRankIsLacking(e, Task);
    NamesAreNames(Task);
    NothingAtProlog(Opening(Name(Task)), Prolog());
    NothingAtProlog(Start(Name(Task)), Prolog());
    ScanPlain(Opening(Name(Task)), "\n");
    SingleIs(Prolog() + "\n", e, 0, "\n");
    PartsAreBuilt(e, 0);
  }

  /** What is read back from a written task: its texts without the white space at their ends, or nothing. */
  lemma RenderedTaskIsProjected(d: TaskDefinition, trigger: Trigger, locale: Locale)
    requires KnowsAscii(locale)
    ensures ProjectWindowsTaskXml(RenderWindowsTaskXml(d), trigger, locale) == Expected(d, trigger)
  {
    var rows := TaskRows(d);
    NoDeclarationInTask(d);
    TaskIsFound(d, TaskElem(d));
    assert PrintContent(Block(rows), 0) == Body(rows, 1, {});
    TaskIsProjected(rows, d, trigger, locale);
  }

  /**
   * A written task matches a definition exactly when the triggers are the same, its description and arguments without
   * the white space at their ends are the definition's, its user and command without it are the definition's up to
   * case, and the command is not blank.
   */
  lemma RenderedTaskMatchesIff(written: TaskDefinition, asked: TaskDefinition, locale: Locale)
    requires KnowsAscii(locale)
    ensures MatchesWindowsTaskXml(RenderWindowsTaskXml(written), asked, locale)
      <==> (written.trigger == asked.trigger
            && Trim(written.description) == asked.description
            && Trim(written.arguments) == asked.arguments
            && SameWindowsValue(Trim(written.principalSid), asked.principalSid, locale)
            && SameWindowsValue(Trim(written.command), asked.command, locale)
            && Trim(written.command) != "")
  {
    RenderedTaskIsProjected(written, asked.trigger, locale);
  }

  /** The texts a definition can keep through its document. */
  predicate KeepsTexts(d: TaskDefinition) {
    Trimmed(d.description) && Trimmed(d.arguments) && Trimmed(d.principalSid) && Trimmed(d.command) && d.command != ""
  }

  /** For definitions whose texts are trimmed, matching is equality, up to case in the user and the command. */
  lemma TrimmedTaskMatchesIff(written: TaskDefinition, asked: TaskDefinition, locale: Locale)
    requires KnowsAscii(locale) && KeepsTexts(written)
    ensures MatchesWindowsTaskXml(RenderWindowsTaskXml(written), asked, locale)
      <==> (written.trigger == asked.trigger
            && written.description == asked.description && written.arguments == asked.arguments
            && SameWindowsValue(written.principalSid, asked.principalSid, locale)
            && SameWindowsValue(written.command, asked.command, locale))
  {
    RenderedTaskMatchesIff(written, asked, locale);
    TrimIsTrimmed(written.description);
    TrimIsTrimmed(written.arguments);
    TrimIsTrimmed(written.principalSid);
    TrimIsTrimmed(written.command);
  }

  /** Changing case neither adds nor removes white space at the ends. */
  ghost predicate KeepsEnds(locale: Locale) {
    forall s :: Trimmed(locale.lower(s)) <==> Trimmed(s)
  }

  /** A task that was just written is recognized exactly when its texts are trimmed and it has a command. */
  lemma WrittenTaskMatchesItselfIff(d: TaskDefinition, locale: Locale)
    requires KnowsAscii(locale) && KeepsEnds(locale)
    ensures MatchesWindowsTaskXml(RenderWindowsTaskXml(d), d, locale) <==> KeepsTexts(d)
  {
    RenderedTaskMatchesIff(d, d, locale);
    TrimIsTrimmed(d.description);
    TrimIsTrimmed(d.arguments);
    TrimIsTrimmed(d.principalSid);
    TrimIsTrimmed(d.command);
    assert Trimmed(locale.lower(Trim(d.principalSid))) && Trimmed(locale.lower(Trim(d.command)));
    assert Trimmed(locale.lower(d.principalSid)) <==> Trimmed(d.principalSid);
    assert Trimmed(locale.lower(d.command)) <==> Trimmed(d.command);
  }

  // ----- Child session tasks -----

  function SessionDescription(): string {
    "dsh-luban Windows " + "runtime child session v1"
  }

  /** The definition of a child session; a command that is empty, or texts with control characters, are refused. */
  function ChildTaskDefinition(name: string, principalSid: string, command: string,
                               arguments: string): Option<TaskDefinition> {
    if command == "" || !Quoting.Printable(command) || !Quoting.Printable(arguments) then None
    else Some(TaskDefinition(name, SessionDescription(), principalSid, OnDemand, command, arguments))
  }

  lemma SessionDescriptionIsTrimmed()
    ensures Trimmed(SessionDescription())
  {
    var s := SessionDescription();
    assert s[0] == 'd' && s[|s| - 1] == "runtime child session v1"[23] == '1';
  }

  /** A child task with printed arguments is recognized exactly when its command is trimmed, which nothing checks
      before. */
  lemma ChildTaskIsRecognizedIff(name: string, sid: string, command: string, args: seq<string>, locale: Locale)
    requires KnowsAscii(locale) && KeepsEnds(locale) && Trimmed(sid)
    requires Quoting.WindowsArguments(args).Some?
    requires ChildTaskDefinition(name, sid, command, Quoting.WindowsArguments(args).value).Some?
    ensures var d := ChildTaskDefinition(name, sid, command, Quoting.WindowsArguments(args).value).value;
            MatchesWindowsTaskXml(RenderWindowsTaskXml(d), d, locale) <==> Trimmed(command)
  {
    var d := ChildTaskDefinition(name, sid, command, Quoting.WindowsArguments(args).value).value;
    SessionDescriptionIsTrimmed();
    Quoting.PrintedArgumentsAreTrimmed(args);
    WrittenTaskMatchesItselfIff(d, locale);
  }

  /** A child task without arguments whose command is `node` and a space is accepted, written, and not recognized
      afterwards. */
  lemma ChildTaskCanBeLost(name: string, sid: string, locale: Locale)
    requires KnowsAscii(locale) && KeepsEnds(locale) && Trimmed(sid)
    ensures var d := ChildTaskDefinition(name, sid, "node ", "");
            d.Some? && !MatchesWindowsTaskXml(RenderWindowsTaskXml(d.value), d.value, locale)
  {
    assert "node "[4] == ' ';
    UntrimmedCommandIsLost(name, sid, "node ", locale);
  }

  lemma UntrimmedCommandIsLost(name: string, sid: string, command: string, locale: Locale)
    requires KnowsAscii(locale) && KeepsEnds(locale) && Trimmed(sid)
    requires command != "" && Quoting.Printable(command) && !Trimmed(command)
    ensures var d := ChildTaskDefinition(name, sid, command, "");
            d.Some? && !MatchesWindowsTaskXml(RenderWindowsTaskXml(d.value), d.value, locale)
  {
    assert Quoting.WindowsArguments([]) == Some("");
    ChildTaskIsRecognizedIff(name, sid, command, [], locale);
  }

  /** Whatever vector a child task was written with, the arguments that are read back split into that vector. */
  lemma ChildArgumentsSurvive(d: TaskDefinition, args: seq<string>, locale: Locale)
    requires KnowsAscii(locale) && Quoting.WindowsArguments(args) == Some(d.arguments)
    ensures var p := ProjectWindowsTaskXml(RenderWindowsTaskXml(d), d.trigger, locale);
            (p.Some? <==> Trim(d.command) != "") && (p.Some? ==> Quoting.SplitArguments(p.value.arguments) == args)
  {
    Quoting.PrintedArgumentsAreTrimmed(args);
    Quoting.WindowsArgumentsRoundTrip(args);
    TrimIsTrimmed(d.arguments);
    RenderedTaskIsProjected(d, d.trigger, locale);
  }
}
