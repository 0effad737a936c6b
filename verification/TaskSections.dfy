/**
 * Reading the other sections of a written task (packages/dsh-luban-keepalive/src/windows-task.ts,
 * hasOnlyExpectedTrigger and projectWindowsTaskXml): the description, the one principal with its user, logon type and
 * run level, the one command with or without arguments, and the trigger. All sections have the same rank but for the
 * triggers, whose tree is small enough to be looked at by itself; so no section's name occurs in another section, and
 * every execution trigger is counted as often as it was written.
 */
module TaskSections {
  import opened Wrappers
  import opened Text
  import opened XmlScan
  import opened TaskNames
  import opened TaskDocument
  import opened TaskXml
  import opened TaskSettings

  // ----- One section -----

  lemma SectionIsFound(rows: seq<Elem>, k: nat, depth: nat, e: Elem, inner: seq<Elem>, full: string, body: string)
    requires depth > 0 && TidyRows(rows) && Apart(rows) && k < |rows|
    requires rows[k] == e == Node(e.tag, inner) && !IsStem(e.tag)
    requires full == PrintElem(e, depth) && body == Body(inner, depth + 1, {})
    ensures SingleElement(Body(rows, depth, {}), Name(e.tag)) == Some(XmlElement(full, map[], body))
  {
    BlockInRows(rows, k, depth, {}, e.tag, inner);
  }

  // ----- The registration -----

  lemma LeavesAreAskable(rows: seq<Elem>, level: nat)
    requires forall i :: 0 <= i < |rows| ==>
      rows[i].content.Value? && rows[i].attributes == [] && Level(rows[i].tag) == level
    requires forall i :: 0 <= i < |rows| ==> !IsStem(rows[i].tag)
    requires forall i, j :: 0 <= i < j < |rows| ==> rows[i].tag != rows[j].tag
    ensures Askable(rows)
  {
    SameRankIsApart(rows, level);
  }

  lemma OneRowIsApart(e: Elem)
    requires Tidy(e)
    ensures TidyRows([e]) && Apart([e])
  {
  }

  /** `child` is what is read for a name, and cutting it out turns `before` into `after`. */
  ghost predicate Taken(parent: string, before: string, tag: Tag, child: TextElement, after: string) {
    OpeningTagCount(parent, Name(tag)) == 1 && TextChild(parent, Name(tag)) == Some(child)
    && RemoveFirst(before, child.full) == after
  }

  function ReadLeaf(tag: Tag, text: string, depth: nat): TextElement {
    TextElement(PrintElem(Leaf(tag, text), depth), Trim(text))
  }

  lemma LeafIsTaken(rows: seq<Elem>, k: nat, depth: nat, gone: set<Tag>, more: set<Tag>, tag: Tag, text: string)
    requires depth > 0 && Askable(rows) && k < |rows| && rows[k] == Leaf(tag, text)
    requires tag !in gone && more == gone + {tag}
    ensures Taken(Body(rows, depth, {}), Body(rows, depth, gone), tag, ReadLeaf(tag, text, depth),
                  Body(rows, depth, more))
  {
    assert Leaf(tag, text) in rows;
    TakeLeaf(rows, depth, gone, tag, text);
  }

  lemma NoLeafToTake(rows: seq<Elem>, depth: nat, tag: Tag)
    requires depth > 0 && Askable(rows) && forall i :: 0 <= i < |rows| ==> rows[i].content.Value? && rows[i].tag != tag
    ensures OpeningTagCount(Body(rows, depth, {}), Name(tag)) == 0 && TextChild(Body(rows, depth, {}), Name(tag)).None?
  {
    AbsentInRows(rows, tag, depth);
    OnlyOneIsRead(Body(rows, depth, {}), Name(tag));
  }

  lemma RegistrationWhenTaken(task: string, full: string, inner: string, description: TextElement, after: string)
    requires SingleElement(task, Name(RegistrationInfo)) == Some(XmlElement(full, map[], inner))
    requires Taken(inner, inner, Description, description, after) && Trim(after) == ""
    requires TextChild(inner, Name(URI)).None?
    ensures ReadRegistration(task) == Some((description.value, None))
  {
  }

  lemma RegistrationIsRead(task: string, full: string, rows: seq<Elem>, text: string)
    requires rows == [Leaf(Description, text)]
    requires SingleElement(task, Name(RegistrationInfo)) == Some(XmlElement(full, map[], Body(rows, 2, {})))
    ensures ReadRegistration(task) == Some((Trim(text), None))
  {
    LeavesAreAskable(rows, 4);
    LeafIsTaken(rows, 0, 2, {}, {Description}, Description, text);
    NoLeafToTake(rows, 2, URI);
    AllGone(rows, 2, {Description});
    RegistrationWhenTaken(task, full, Body(rows, 2, {}), ReadLeaf(Description, text, 2), Body(rows, 2, {Description}));
  }

  // ----- The principal -----

  lemma PrincipalRowsAreAskable(sid: string)
    ensures Askable(PrincipalRows(sid))
  {
    LeavesAreAskable(PrincipalRows(sid), 5);
  }

  lemma UserWhenTaken(principal: string, a: string, b: string, c: string, locale: Locale,
                      userId: TextElement, logonType: TextElement, runLevel: TextElement)
    requires KnowsAscii(locale) && logonType.value == "S4U" && runLevel.value == "LeastPrivilege" && Trim(c) == ""
    requires Taken(principal, principal, UserId, userId, a) && Taken(principal, a, LogonType, logonType, b)
    requires Taken(principal, b, RunLevel, runLevel, c)
    ensures ReadUser(principal, locale) == Some(userId.value)
  {
  }

  lemma LogonTextsAreTrimmed()
    ensures Trim("S4U") == "S4U" && Trim("LeastPrivilege") == "LeastPrivilege"
  {
    TrimIsTrimmed("S4U");
    TrimIsTrimmed("LeastPrivilege");
  }

  /** A row that is a leaf is read, and cut out of what is left of its block. */
  lemma RowIsTaken(rows: seq<Elem>, k: nat, depth: nat, gone: set<Tag>, more: set<Tag>, r: Elem)
    requires depth > 0 && Askable(rows) && k < |rows| && rows[k] == r && r.content.Value? && r.attributes == []
    requires r.tag !in gone && more == gone + {r.tag}
    ensures Taken(Body(rows, depth, {}), Body(rows, depth, gone), r.tag, ReadLeaf(r.tag, r.content.text, depth),
                  Body(rows, depth, more))
  {
    LeafIsTaken(rows, k, depth, gone, more, r.tag, r.content.text);
  }

  lemma TwoRowsAreTaken(rows: seq<Elem>, depth: nat, r: Elem, s: Elem, one: set<Tag>, two: set<Tag>)
    requires depth > 0 && Askable(rows) && |rows| >= 2 && rows[0] == r && rows[1] == s
    requires r.content.Value? && s.content.Value? && r.attributes == s.attributes == []
    requires r.tag != s.tag && one == {r.tag} && two == {r.tag, s.tag}
    ensures Taken(Body(rows, depth, {}), Body(rows, depth, {}), r.tag, ReadLeaf(r.tag, r.content.text, depth),
                  Body(rows, depth, one))
    ensures Taken(Body(rows, depth, {}), Body(rows, depth, one), s.tag, ReadLeaf(s.tag, s.content.text, depth),
                  Body(rows, depth, two))
  {
    RowIsTaken(rows, 0, depth, {}, one, r);
    RowIsTaken(rows, 1, depth, one, two, s);
  }

  lemma LastRowIsTaken(rows: seq<Elem>, depth: nat, k: nat, r: Elem, before: set<Tag>, all: set<Tag>)
    requires depth > 0 && Askable(rows) && |rows| == k + 1 && rows[k] == r && r.content.Value? && r.attributes == []
    requires r.tag !in before && all == before + {r.tag} && forall i :: 0 <= i < |rows| ==> rows[i].tag in all
    ensures Taken(Body(rows, depth, {}), Body(rows, depth, before), r.tag, ReadLeaf(r.tag, r.content.text, depth),
                  Body(rows, depth, all))
    ensures Trim(Body(rows, depth, all)) == ""
  {
    RowIsTaken(rows, k, depth, before, all, r);
    AllGone(rows, depth, all);
  }

  lemma UserIsRead(rows: seq<Elem>, sid: string, locale: Locale)
    requires rows == PrincipalRows(sid) && KnowsAscii(locale)
    ensures ReadUser(Body(rows, 3, {}), locale) == Some(Trim(sid))
  {
    PrincipalRowsAreAskable(sid);
    LogonTextsAreTrimmed();
    ThreeAreRead(rows, rows[0], rows[1], rows[2], locale);
  }

  lemma ThreeAreRead(rows: seq<Elem>, r: Elem, s: Elem, t: Elem, locale: Locale)
    requires |rows| == 3 && rows[0] == r && rows[1] == s && rows[2] == t && Askable(rows) && KnowsAscii(locale)
    requires r.tag == UserId && s.tag == LogonType && t.tag == RunLevel
    requires r.content.Value? && s.content.Value? && t.content.Value?
    requires r.attributes == s.attributes == t.attributes == []
    requires Trim(s.content.text) == "S4U" && Trim(t.content.text) == "LeastPrivilege"
    ensures ReadUser(Body(rows, 3, {}), locale) == Some(Trim(r.content.text))
  {
    var (one, two, three) := ({r.tag}, {r.tag, s.tag}, {r.tag, s.tag, t.tag});
    var (u, v, w) := (ReadLeaf(r.tag, r.content.text, 3), ReadLeaf(s.tag, s.content.text, 3),
                      ReadLeaf(t.tag, t.content.text, 3));
    var (all, a, b, c) := (Body(rows, 3, {}), Body(rows, 3, one), Body(rows, 3, two), Body(rows, 3, three));
    TwoRowsAreTaken(rows, 3, r, s, one, two);
    LastRowIsTaken(rows, 3, 2, t, two, three);
    UserWhenTaken(all, a, b, c, locale, u, v, w);
  }

  lemma OneAttribute(a: Attribute)
    requires TidyAttribute(a)
    ensures TidyAttributes([a]) && AttributeMap([a], map[]) == map[a.key := a.value]
  {
  }

  lemma PrincipalIsTidy(sid: string)
    ensures Tidy(PrincipalElem(sid)) && Tidy(PrincipalsElem(sid))
    ensures AttributeMap(PrincipalElem(sid).attributes, map[]) == map["id" := "CurrentUser"]
  {
    OneAttribute(Attribute("id", "CurrentUser"));
    forall i | 0 <= i < |PrincipalRows(sid)| ensures Tidy(PrincipalRows(sid)[i]) {
      LeafIsTidy(PrincipalRows(sid)[i]);
    }
    assert Tidy(PrincipalElem(sid));
  }

  /** The only row of a block is found, and nothing is left when it is cut out. */
  lemma OneRowIsAll(e: Elem, depth: nat)
    requires Tidy(e) && depth > 0
    ensures SingleElement(Body([e], depth, {}), Name(e.tag)) == Some(ElementPrinted(e, depth))
    ensures Trim(RemoveFirst(Body([e], depth, {}), PrintElem(e, depth))) == ""
  {
    OneRowIsApart(e);
    SingleInRows([e], 0, depth);
    RemoveInRows([e], 0, depth, {});
    AllGone([e], depth, {} + {e.tag});
  }

  lemma PrincipalWhenRead(task: string, full: string, inner: string, principal: XmlElement, locale: Locale)
    requires SingleElement(task, Name(Principals)) == Some(XmlElement(full, map[], inner))
    requires SingleElement(inner, Name(Principal)) == Some(principal) && Trim(RemoveFirst(inner, principal.full)) == ""
    requires principal.attributes == map["id" := "CurrentUser"]
    ensures ReadPrincipal(task, locale) == ReadUser(principal.inner, locale)
  {
  }

  lemma PrincipalIsRead(task: string, full: string, e: Elem, sid: string, locale: Locale)
    requires e == PrincipalElem(sid) && KnowsAscii(locale)
    requires SingleElement(task, Name(Principals)) == Some(XmlElement(full, map[], Body([e], 2, {})))
    ensures ReadPrincipal(task, locale) == Some(Trim(sid))
  {
    PrincipalIsTidy(sid);
    OneRowIsAll(e, 2);
    PrincipalWhenRead(task, full, Body([e], 2, {}), ElementPrinted(e, 2), locale);
    UserIsRead(e.content.rows, sid, locale);
  }

  // ----- The actions -----

  lemma CommandWhenAlone(exec: string, command: TextElement, after: string)
    requires Taken(exec, exec, Command, command, after) && Trim(after) == ""
    requires OpeningTagCount(exec, Name(Arguments)) == 0
    ensures ReadCommand(exec) == if command.value == "" then None else Some((command.value, ""))
  {
  }

  lemma CommandWhenTaken(exec: string, a: string, b: string, command: TextElement, arguments: TextElement)
    requires Taken(exec, exec, Command, command, a) && Taken(exec, a, Arguments, arguments, b) && Trim(b) == ""
    ensures ReadCommand(exec) == if command.value == "" then None else Some((command.value, arguments.value))
  {
  }

  lemma LoneCommandIsRead(rows: seq<Elem>, r: Elem)
    requires |rows| == 1 && rows[0] == r && Askable(rows) && r.content.Value?
    requires r.tag == Command && r.attributes == []
    ensures ReadCommand(Body(rows, 3, {}))
         == if Trim(r.content.text) == "" then None else Some((Trim(r.content.text), ""))
  {
    var one := {r.tag};
    var child := ReadLeaf(r.tag, r.content.text, 3);
    RowIsTaken(rows, 0, 3, {}, one, r);
    AllGone(rows, 3, one);
    NoLeafToTake(rows, 3, Arguments);
    CommandWhenAlone(Body(rows, 3, {}), child, Body(rows, 3, one));
  }

  lemma CommandWithArgumentsIsRead(rows: seq<Elem>, r: Elem, s: Elem)
    requires |rows| == 2 && rows[0] == r && rows[1] == s && Askable(rows) && r.content.Value? && s.content.Value?
    requires r == Leaf(Command, r.content.text) && s == Leaf(Arguments, s.content.text)
    ensures ReadCommand(Body(rows, 3, {}))
         == if Trim(r.content.text) == "" then None else Some((Trim(r.content.text), Trim(s.content.text)))
  {
    var (one, two) := ({r.tag}, {r.tag, s.tag});
    var (u, v) := (ReadLeaf(r.tag, r.content.text, 3), ReadLeaf(s.tag, s.content.text, 3));
    TwoRowsAreTaken(rows, 3, r, s, one, two);
    AllGone(rows, 3, two);
    CommandWhenTaken(Body(rows, 3, {}), Body(rows, 3, one), Body(rows, 3, two), u, v);
  }

  lemma CommandIsRead(rows: seq<Elem>, command: string, arguments: string)
    requires rows == ExecRows(command, arguments)
    ensures ReadCommand(Body(rows, 3, {}))
         == if Trim(command) == "" then None else Some((Trim(command), Trim(arguments)))
  {
    LeavesAreAskable(rows, 5);
    if arguments == "" {
      LoneCommandIsRead(rows, Leaf(Command, command));
    } else {
      CommandWithArgumentsIsRead(rows, Leaf(Command, command), Leaf(Arguments, arguments));
    }
  }

  lemma ExecIsTidy(command: string, arguments: string)
    ensures Tidy(Node(Exec, ExecRows(command, arguments)))
  {
    forall i | 0 <= i < |ExecRows(command, arguments)| ensures Tidy(ExecRows(command, arguments)[i]) {
      LeafIsTidy(ExecRows(command, arguments)[i]);
    }
  }

  lemma ActionsAreTidy(command: string, arguments: string)
    ensures Tidy(Node(Exec, ExecRows(command, arguments))) && Tidy(ActionsElem(command, arguments))
    ensures AttributeMap(ActionsElem(command, arguments).attributes, map[]) == map["Context" := "CurrentUser"]
  {
    OneAttribute(Attribute("Context", "CurrentUser"));
    ExecIsTidy(command, arguments);
  }

  lemma ActionsWhenRead(task: string, full: string, inner: string, exec: XmlElement)
    requires SingleElement(task, Name(Actions)) == Some(XmlElement(full, map["Context" := "CurrentUser"], inner))
    requires SingleElement(inner, Name(Exec)) == Some(exec) && Trim(RemoveFirst(inner, exec.full)) == ""
    requires exec.attributes == map[]
    ensures ReadActions(task) == ReadCommand(exec.inner)
  {
  }

  lemma ActionsAreRead(task: string, full: string, e: Elem, command: string, arguments: string)
    requires e == Node(Exec, ExecRows(command, arguments))
    requires SingleElement(task, Name(Actions))
          == Some(XmlElement(full, map["Context" := "CurrentUser"], Body([e], 2, {})))
    ensures ReadActions(task) == if Trim(command) == "" then None else Some((Trim(command), Trim(arguments)))
  {
    ExecIsTidy(command, arguments);
    OneRowIsAll(e, 2);
    ActionsWhenRead(task, full, Body([e], 2, {}), ElementPrinted(e, 2));
    CommandIsRead(e.content.rows, command, arguments);
  }

  // ----- The trigger -----

  lemma {:induction false} TrimStartOfBlank(blank: string, s: string)
    requires Blank(blank) && s != "" && !IsSpace(s[0])
    ensures TrimStart(blank + s) == s
  {
    if blank == "" {
      assert blank + s == s;
    } else {
      assert (blank + s)[1..] == blank[1..] + s && blank[0] in blank;
      TrimStartOfBlank(blank[1..], s);
    }
  }

  lemma {:induction false} TrimEndOfBlank(s: string, blank: string)
    requires Blank(blank) && s != "" && !IsSpace(s[|s| - 1])
    ensures TrimEnd(s + blank) == s
  {
    if blank == "" {
      assert s + blank == s;
    } else {
      var n := |blank| - 1;
      assert (s + blank)[..|s| + n] == s + blank[..n] && blank[n] in blank;
      TrimEndOfBlank(s, blank[..n]);
    }
  }

  lemma ElemIsTrimmed(e: Elem, depth: nat)
    ensures var s := PrintElem(e, depth); s != "" && !IsSpace(s[0]) && !IsSpace(s[|s| - 1])
  {
    var s := PrintElem(e, depth);
    assert s[0] == OpenTag(e.tag, e.attributes)[0] == '<';
    assert s[|s| - 1] == CloseTag(e.tag)[|CloseTag(e.tag)| - 1] == '>';
  }

  /** A block of one row is, without the white space at the ends, that row. */
  lemma TrimOfOneRow(e: Elem, depth: nat)
    requires depth > 0
    ensures Trim(Body([e], depth, {})) == PrintElem(e, depth)
  {
    var s := PrintElem(e, depth);
    assert PrintRows([e], depth, {}) == NewLine(depth) + s + "";
    assert Body([e], depth, {}) == NewLine(depth) + (s + NewLine(depth - 1));
    ElemIsTrimmed(e, depth);
    TrimStartOfBlank(NewLine(depth), s + NewLine(depth - 1));
    TrimEndOfBlank(s, NewLine(depth - 1));
  }

  lemma ClosedElem(e: Elem, depth: nat)
    requires Tidy(e)
    ensures Closed(PrintElem(e, depth)) && Closed(PrintContent(e.content, depth))
  {
    NoDeclaration(e);
    ScanElem(Declaration, e, depth);
    ScanContent(Declaration, e, depth);
  }

  lemma SingleAlone(e: Elem, depth: nat)
    requires Tidy(e)
    ensures SingleElement(PrintElem(e, depth), Name(e.tag)) == Some(ElementPrinted(e, depth))
    ensures RemoveFirst(PrintElem(e, depth), PrintElem(e, depth)) == ""
  {
    var s := PrintElem(e, depth);
    NamesAreNames(e.tag);
    ScanPlain(Opening(Name(e.tag)), "");
    LowerRankIsLacking(e, e.tag);
    SingleIs("", e, depth, "");
    PartsAreBuilt(e, depth);
    assert "" + (s + "") == s;
    RemoveHere(s, "");
  }

  lemma PlainElement(e: Elem, depth: nat, rows: seq<Elem>)
    requires e == Node(e.tag, rows)
    ensures ElementPrinted(e, depth) == XmlElement(PrintElem(e, depth), map[], Body(rows, depth + 1, {}))
  {
  }

  lemma EnabledWhenTaken(inner: string, child: TextElement, after: string, locale: Locale)
    requires Taken(inner, inner, Enabled, child, after) && locale.lower(child.value) == "true" && Trim(after) == ""
    ensures IsEnabled(inner, locale)
  {
  }

  lemma EnabledIsRead(rows: seq<Elem>, r: Elem, locale: Locale)
    requires rows == [r] && r.content.Value? && r == Leaf(Enabled, r.content.text)
    requires locale.lower(Trim(r.content.text)) == "true"
    ensures IsEnabled(Body(rows, 3, {}), locale)
  {
    LeavesAreAskable(rows, 4);
    LeafIsTaken(rows, 0, 3, {}, {r.tag}, r.tag, r.content.text);
    AllGone(rows, 3, {r.tag});
    EnabledWhenTaken(Body(rows, 3, {}), ReadLeaf(r.tag, r.content.text, 3), Body(rows, 3, {r.tag}), locale);
  }

  lemma BootWhenAlone(body: string, inner: string, locale: Locale)
    requires SingleElement(body, Name(BootTrigger)) == Some(XmlElement(body, map[], inner))
    requires Trim(RemoveFirst(body, body)) == "" && IsEnabled(inner, locale)
    ensures IsEnabledBoot(body, locale)
  {
  }

  lemma BootElementIs(boot: Elem, enabled: Elem)
    requires boot == Node(BootTrigger, [enabled])
    requires enabled.content.Value? && enabled == Leaf(Enabled, enabled.content.text)
    ensures SingleElement(PrintElem(boot, 2), Name(BootTrigger))
         == Some(XmlElement(PrintElem(boot, 2), map[], Body([enabled], 3, {})))
    ensures RemoveFirst(PrintElem(boot, 2), PrintElem(boot, 2)) == ""
  {
    LeafIsTidy(enabled);
    OneChildIsTidy(BootTrigger, enabled);
    SingleAlone(boot, 2);
    PlainElement(boot, 2, [enabled]);
  }

  lemma BootIsEnabled(boot: Elem, enabled: Elem, locale: Locale)
    requires boot == Node(BootTrigger, [enabled]) && enabled == Leaf(Enabled, "true") && KnowsAscii(locale)
    ensures IsEnabledBoot(PrintElem(boot, 2), locale)
  {
    BootElementIs(boot, enabled);
    TrimIsTrimmed("true");
    EnabledIsRead([enabled], enabled, locale);
    BootWhenAlone(PrintElem(boot, 2), Body([enabled], 3, {}), locale);
  }

  // ----- The sections of the task -----

  lemma BlockIsTidy(tag: Tag, rows: seq<Elem>)
    requires TidyRows(rows) && forall i :: 0 <= i < |rows| ==> Level(rows[i].tag) > Level(tag)
    ensures Tidy(Node(tag, rows))
  {
  }

  lemma SettingsElemIsTidy()
    ensures Tidy(SettingsElem())
  {
    SettingsAreTidy();
    SettingsHaveRank4();
    BlockIsTidy(Settings, SettingsRows());
  }

  lemma RegistrationElemIsTidy(text: string)
    ensures Tidy(RegistrationElem(text))
  {
    LeafIsTidy(Leaf(Description, text));
  }

  lemma SectionsAreTidy(d: TaskDefinition)
    ensures Tidy(RegistrationElem(d.description)) && Tidy(PrincipalsElem(d.principalSid)) && Tidy(SettingsElem())
    ensures Tidy(ActionsElem(d.command, d.arguments))
  {
    RegistrationElemIsTidy(d.description);
    PrincipalIsTidy(d.principalSid);
    SettingsElemIsTidy();
    ActionsAreTidy(d.command, d.arguments);
  }

  lemma OneChildIsTidy(tag: Tag, inner: Elem)
    requires Tidy(inner) && Level(inner.tag) > Level(tag)
    ensures Tidy(Node(tag, [inner]))
  {
  }

  lemma OneChildLacks(tag: Tag, inner: Elem, t: Tag)
    requires Lacks(inner, t) && tag != t
    ensures Lacks(Node(tag, [inner]), t)
  {
  }

  lemma TriggersAreTidy()
    ensures Tidy(TriggersElem())
  {
    var enabled := Leaf(Enabled, "true");
    var boot := Node(BootTrigger, [enabled]);
    LeafIsTidy(enabled);
    OneChildIsTidy(BootTrigger, enabled);
    OneChildIsTidy(Triggers, boot);
  }

  lemma TriggersLack(t: Tag)
    requires t != Triggers && t != BootTrigger && t != Enabled
    ensures Lacks(TriggersElem(), t)
  {
    var enabled := Leaf(Enabled, "true");
    var boot := Node(BootTrigger, [enabled]);
    assert Lacks(enabled, t);
    OneChildLacks(BootTrigger, enabled, t);
    OneChildLacks(Triggers, boot, t);
  }

  /** The rows in front of the principals, and the rows from there on. */
  ghost predicate IsTask(rows: seq<Elem>, d: TaskDefinition) {
    rows == TaskRows(d)
  }

  /** Where the principals stand. */
  function PrincipalsAt(d: TaskDefinition): nat {
    if d.trigger == Boot then 2 else 1
  }

  lemma TaskRowsAre(rows: seq<Elem>, d: TaskDefinition)
    requires IsTask(rows, d)
    ensures |rows| == PrincipalsAt(d) + 3 && rows[0] == RegistrationElem(d.description)
    ensures d.trigger == Boot ==> rows[1] == TriggersElem()
    ensures rows[PrincipalsAt(d)] == PrincipalsElem(d.principalSid)
    ensures rows[PrincipalsAt(d) + 1] == SettingsElem()
    ensures rows[PrincipalsAt(d) + 2] == ActionsElem(d.command, d.arguments)
  {
  }

  lemma TaskRowsAreTidy(rows: seq<Elem>, d: TaskDefinition)
    requires IsTask(rows, d)
    ensures TidyRows(rows)
  {
    TaskRowsAre(rows, d);
    SectionsAreTidy(d);
    TriggersAreTidy();
  }

  /** All sections but the triggers have the same rank. */
  ghost predicate IsPlaced(e: Elem, i: nat, d: TaskDefinition) {
    ((e.tag == Triggers && e == TriggersElem() && i == 1 && d.trigger == Boot) || Level(e.tag) == 3)
    && e.tag != BootTrigger && e.tag != Enabled && Level(e.tag) <= 3 && !IsStem(e.tag)
  }

  lemma SectionIsPlaced(rows: seq<Elem>, d: TaskDefinition, i: nat)
    requires IsTask(rows, d) && i < |rows|
    ensures IsPlaced(rows[i], i, d)
  {
    TaskRowsAre(rows, d);
  }

  lemma SectionTags(rows: seq<Elem>, d: TaskDefinition)
    requires IsTask(rows, d)
    ensures forall i :: 0 <= i < |rows| ==> IsPlaced(rows[i], i, d)
  {
    forall i | 0 <= i < |rows| ensures IsPlaced(rows[i], i, d) {
      SectionIsPlaced(rows, d, i);
    }
  }

  lemma SectionsDiffer(rows: seq<Elem>, d: TaskDefinition)
    requires IsTask(rows, d)
    ensures forall i, j :: 0 <= i < |rows| && 0 <= j < |rows| && i != j ==> rows[i].tag != rows[j].tag
  {
    TaskRowsAre(rows, d);
  }

  lemma TaskRowsAreApart(rows: seq<Elem>, d: TaskDefinition)
    requires IsTask(rows, d)
    ensures Apart(rows)
  {
    SectionTags(rows, d);
    SectionsDiffer(rows, d);
    TaskRowsAreTidy(rows, d);
    forall i, j | 0 <= i < |rows| && 0 <= j < |rows| && i != j ensures Lacks(rows[i], rows[j].tag) {
      if rows[i].tag != Triggers {
        LowerRankIsLacking(rows[i], rows[j].tag);
      } else {
        TriggersLack(rows[j].tag);
      }
    }
  }

  // ----- Counting the triggers -----

  /** A trigger that no section holds is not counted. */
  lemma OtherTriggersAreAbsent(rows: seq<Elem>, d: TaskDefinition, t: Tag)
    requires IsTask(rows, d) && (Level(t) == 0 || (d.trigger == OnDemand && (t == BootTrigger || t == Triggers)))
    ensures OpeningTagCount(Body(rows, 1, {}), Name(t)) == 0
  {
    SectionTags(rows, d);
    TaskRowsAreTidy(rows, d);
    forall i | 0 <= i < |rows| ensures Lacks(rows[i], t) {
      LowerRankIsLacking(rows[i], t);
    }
    AbsentInRows(rows, t, 1);
  }

  /** The boot trigger inside the triggers is counted once. */
  lemma NestedContent(inner: Elem, depth: nat)
    requires Tidy(inner)
    ensures Scanned(Opening(Name(inner.tag)), Body([inner], depth + 1, {}), 1)
  {
    var rows := [inner];
    OneRowIsApart(inner);
    CountInRows(rows, 0, depth + 1);
    ScanAround(Opening(Name(inner.tag)), rows, 0, depth + 1, {});
    BodySplit(rows, 0, depth + 1, {});
    ClosedElem(inner, depth + 1);
    ClosedAppend(PrintElem(inner, depth + 1), AfterRow(rows, 0, depth + 1, {}));
    ClosedAppend(BeforeRow(rows, 0, depth + 1, {}), PrintElem(inner, depth + 1) + AfterRow(rows, 0, depth + 1, {}));
  }

  lemma NestedIsCountedOnce(e: Elem, inner: Elem, depth: nat)
    requires e == Node(e.tag, [inner]) && Tidy(e) && e.tag != inner.tag
    ensures Scanned(Opening(Name(inner.tag)), PrintElem(e, depth), 1)
  {
    var p := Opening(Name(inner.tag));
    var (open, content, close) := (OpenTag(e.tag, e.attributes), PrintContent(e.content, depth), CloseTag(e.tag));
    NamesAreNames(inner.tag);
    assert e.content.rows[0] == inner && Tidy(inner);
    NestedContent(inner, depth);
    assert content == Body([inner], depth + 1, {});
    OpenTagIsMarkup(e.tag, e.attributes);
    CloseTagIsMarkup(e.tag);
    ScanTag(p, open);
    ScanTag(p, close);
    OpeningAtOpenTag(inner.tag, e.tag, e.attributes);
    NothingElseAtCloseTag(p, e.tag);
    ScanJoin(p, content, 1, close, 0);
    ScanJoin(p, open, 0, content + close, 1);
  }

  lemma NestedInRows(rows: seq<Elem>, k: nat, depth: nat, inner: Elem)
    requires k < |rows| && depth > 0 && TidyRows(rows) && rows[k] == Node(rows[k].tag, [inner])
    requires rows[k].tag != inner.tag && !IsStem(inner.tag)
    requires forall i :: 0 <= i < |rows| && i != k ==> Lacks(rows[i], inner.tag)
    ensures OpeningTagCount(Body(rows, depth, {}), Name(inner.tag)) == 1
  {
    var p := Opening(Name(inner.tag));
    NamesAreNames(inner.tag);
    forall i | 0 <= i < |rows| && i != k ensures Misses(p, rows[i]) {
      LackingMisses(p, rows[i], inner.tag);
    }
    NestedIsCountedOnce(rows[k], inner, depth);
    ScanOthers(p, rows, k, depth, {});
    var (before, after) := (BeforeRow(rows, k, depth, {}), AfterRow(rows, k, depth, {}));
    ScanJoin(p, PrintElem(rows[k], depth), 1, after, 0);
    ScanJoin(p, before, 0, PrintElem(rows[k], depth) + after, 1);
    BodySplit(rows, k, depth, {});
  }

  lemma BootIsCountedOnce(rows: seq<Elem>, d: TaskDefinition)
    requires IsTask(rows, d) && d.trigger == Boot
    ensures OpeningTagCount(Body(rows, 1, {}), Name(BootTrigger)) == 1
  {
    var boot := Node(BootTrigger, [Leaf(Enabled, "true")]);
    TaskRowsAre(rows, d);
    SectionTags(rows, d);
    TaskRowsAreTidy(rows, d);
    forall i | 0 <= i < |rows| && i != 1 ensures Lacks(rows[i], BootTrigger) {
      LowerRankIsLacking(rows[i], BootTrigger);
    }
    NestedInRows(rows, 1, 1, boot);
  }

  lemma TriggerTags()
    ensures BootTrigger in ExecutionTriggerTags()
    ensures forall t :: t in ExecutionTriggerTags() ==> t == BootTrigger || Level(t) == 0
  {
    assert ExecutionTriggerTags()[0] == BootTrigger;
  }

  /** The trigger counts are those of the trigger that was written, and of no other. */
  lemma TriggerCounts(rows: seq<Elem>, d: TaskDefinition, trigger: Trigger)
    requires IsTask(rows, d)
    ensures HasTriggerCounts(Body(rows, 1, {}), trigger) <==> trigger == d.trigger
  {
    TriggerTags();
    forall t | t in ExecutionTriggerTags() && t != BootTrigger
      ensures OpeningTagCount(Body(rows, 1, {}), Name(t)) == 0
    {
      OtherTriggersAreAbsent(rows, d, t);
    }
    if d.trigger == Boot {
      BootIsCountedOnce(rows, d);
    } else {
      OtherTriggersAreAbsent(rows, d, BootTrigger);
    }
  }

  lemma BootWhenRead(task: string, full: string, inner: string, locale: Locale)
    requires SingleElement(task, Name(Triggers)) == Some(XmlElement(full, map[], inner))
    requires IsEnabledBoot(Trim(inner), locale)
    ensures HasEnabledBoot(task, locale)
  {
  }

  lemma BootTextIsEnabled(boot: Elem, enabled: Elem, inner: string, locale: Locale)
    requires KnowsAscii(locale) && inner == Body([boot], 2, {})
    requires boot == Node(BootTrigger, [enabled]) && enabled == Leaf(Enabled, "true")
    ensures IsEnabledBoot(Trim(inner), locale)
  {
    BootIsEnabled(boot, enabled, locale);
    TrimOfOneRow(boot, 2);
  }

  lemma TriggersAreFound(rows: seq<Elem>, k: nat, boot: Elem, inner: string, locale: Locale)
    requires TidyRows(rows) && Apart(rows) && k < |rows| && rows[k] == Node(Triggers, [boot])
    requires inner == Body([boot], 2, {}) && IsEnabledBoot(Trim(inner), locale)
    ensures HasEnabledBoot(Body(rows, 1, {}), locale)
  {
    SectionIsFound(rows, k, 1, rows[k], [boot], PrintElem(rows[k], 1), inner);
    BootWhenRead(Body(rows, 1, {}), PrintElem(rows[k], 1), inner, locale);
  }

  lemma BootWhenCounted(task: string, locale: Locale)
    requires HasTriggerCounts(task, Boot) && HasEnabledBoot(task, locale)
    ensures HasOnlyExpectedTrigger(task, Boot, locale)
  {
  }

  lemma BootIsThere(rows: seq<Elem>, d: TaskDefinition, boot: Elem, enabled: Elem, locale: Locale)
    requires IsTask(rows, d) && d.trigger == Boot && KnowsAscii(locale)
    requires boot == Node(BootTrigger, [enabled]) && enabled == Leaf(Enabled, "true")
    ensures HasEnabledBoot(Body(rows, 1, {}), locale)
  {
    TaskRowsAre(rows, d);
    TaskRowsAreTidy(rows, d);
    TaskRowsAreApart(rows, d);
    BootTextIsEnabled(boot, enabled, Body([boot], 2, {}), locale);
    TriggersAreFound(rows, 1, boot, Body([boot], 2, {}), locale);
  }

  /** A written task has exactly the trigger it was written with. */
  lemma TriggerIsExpected(rows: seq<Elem>, d: TaskDefinition, trigger: Trigger, locale: Locale)
    requires IsTask(rows, d) && KnowsAscii(locale)
    ensures HasOnlyExpectedTrigger(Body(rows, 1, {}), trigger, locale) <==> trigger == d.trigger
  {
    TriggerCounts(rows, d, trigger);
    if trigger == d.trigger {
      if trigger == Boot {
        var enabled := Leaf(Enabled, "true");
        BootIsThere(rows, d, Node(BootTrigger, [enabled]), enabled, locale);
        BootWhenCounted(Body(rows, 1, {}), locale);
      } else {
        OtherTriggersAreAbsent(rows, d, Triggers);
      }
    }
  }
}
