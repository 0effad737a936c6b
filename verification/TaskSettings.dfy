/**
 * Reading the settings of a written task (packages/dsh-luban-keepalive/src/windows-task.ts, exactTextChildren and
 * exactSettings): the rows of a block are asked for one after another, each is read from the block itself and cut out
 * of what is left of it, until only white space is left. The settings that are written are the thirteen plain ones and
 * the restart settings; the idle settings and the unified engine are asked for and are not there.
 */
module TaskSettings {
  import opened Wrappers
  import opened Text
  import opened XmlScan
  import opened TaskNames
  import opened TaskDocument
  import opened TaskXml

  // ----- Consuming the rows of a block -----

  /** The rows can be asked for one by one. */
  ghost predicate Askable(rows: seq<Elem>) {
    TidyRows(rows) && Apart(rows) && forall i :: 0 <= i < |rows| ==> !IsStem(rows[i].tag)
  }

  predicate HasLeaf(rows: seq<Elem>, entry: (Tag, string)) {
    Leaf(entry.0, entry.1) in rows && Trim(entry.1) == entry.1
  }

  function Tags(expected: seq<(Tag, string)>): set<Tag> {
    if expected == [] then {} else {expected[0].0} + Tags(expected[1..])
  }

  predicate DifferentTags(expected: seq<(Tag, string)>) {
    forall i, j :: 0 <= i < j < |expected| ==> expected[i].0 != expected[j].0
  }

  /** A leaf is read, and taking it out of what is left takes out its row. */
  lemma TakeLeaf(rows: seq<Elem>, depth: nat, gone: set<Tag>, tag: Tag, text: string)
    requires depth > 0 && Askable(rows) && Leaf(tag, text) in rows && tag !in gone
    ensures OpeningTagCount(Body(rows, depth, {}), Name(tag)) == 1
    ensures TextChild(Body(rows, depth, {}), Name(tag))
         == Some(TextElement(PrintElem(Leaf(tag, text), depth), Trim(text)))
    ensures RemoveFirst(Body(rows, depth, gone), PrintElem(Leaf(tag, text), depth)) == Body(rows, depth, gone + {tag})
  {
    var k :| 0 <= k < |rows| && rows[k] == Leaf(tag, text);
    TextInRows(rows, k, depth, text);
    RemoveInRows(rows, k, depth, gone);
  }

  lemma ConsumeStep(parent: string, remainder: string, expected: seq<(Tag, string)>, locale: Locale, child: TextElement)
    requires expected != [] && TextChild(parent, Name(expected[0].0)) == Some(child) && child.value == expected[0].1
    ensures Consume(parent, remainder, expected, locale)
         == Consume(parent, RemoveFirst(remainder, child.full), expected[1..], locale)
  {
  }

  ghost predicate AllThere(rows: seq<Elem>, expected: seq<(Tag, string)>, gone: set<Tag>) {
    forall i :: 0 <= i < |expected| ==> HasLeaf(rows, expected[i]) && expected[i].0 !in gone
  }

  lemma AllThereNext(rows: seq<Elem>, expected: seq<(Tag, string)>, gone: set<Tag>, more: set<Tag>)
    requires expected != [] && DifferentTags(expected) && AllThere(rows, expected, gone)
    requires more == gone + {expected[0].0}
    ensures DifferentTags(expected[1..]) && AllThere(rows, expected[1..], more)
    ensures more + Tags(expected[1..]) == gone + Tags(expected)
  {
  }

  lemma ConsumeLeaf(rows: seq<Elem>, depth: nat, gone: set<Tag>, expected: seq<(Tag, string)>, locale: Locale,
                    more: set<Tag>)
    requires depth > 0 && Askable(rows) && expected != [] && HasLeaf(rows, expected[0])
    requires expected[0].0 !in gone && more == gone + {expected[0].0}
    ensures Consume(Body(rows, depth, {}), Body(rows, depth, gone), expected, locale)
         == Consume(Body(rows, depth, {}), Body(rows, depth, more), expected[1..], locale)
  {
    var (parent, before, after) := (Body(rows, depth, {}), Body(rows, depth, gone), Body(rows, depth, more));
    var child := TextElement(PrintElem(Leaf(expected[0].0, expected[0].1), depth), expected[0].1);
    assert TextChild(parent, Name(expected[0].0)) == Some(child) && RemoveFirst(before, child.full) == after by {
      TakeLeaf(rows, depth, gone, expected[0].0, expected[0].1);
    }
    ConsumeStep(parent, before, expected, locale, child);
  }

  lemma {:induction false} ConsumeRows(rows: seq<Elem>, depth: nat, gone: set<Tag>, expected: seq<(Tag, string)>,
                                       locale: Locale)
    requires depth > 0 && Askable(rows) && DifferentTags(expected) && AllThere(rows, expected, gone)
    ensures Consume(Body(rows, depth, {}), Body(rows, depth, gone), expected, locale)
         == Some(Body(rows, depth, gone + Tags(expected)))
    decreases |expected|
  {
    if expected == [] {
      assert gone + Tags(expected) == gone;
    } else {
      var more := gone + {expected[0].0};
      assert HasLeaf(rows, expected[0]) && expected[0].0 !in gone;
      ConsumeLeaf(rows, depth, gone, expected, locale, more);
      AllThereNext(rows, expected, gone, more);
      ConsumeRows(rows, depth, more, expected[1..], locale);
    }
  }

  /** The names of the expected children that are there. */
  function Present(rows: seq<Elem>, expected: seq<(Tag, string)>): set<Tag> {
    if expected == [] then {}
    else (if HasLeaf(rows, expected[0]) then {expected[0].0} else {}) + Present(rows, expected[1..])
  }

  ghost predicate Absent(rows: seq<Elem>, tag: Tag) {
    forall i :: 0 <= i < |rows| ==> Lacks(rows[i], tag)
  }

  lemma ConsumeOptionalStep(parent: string, remainder: string, expected: seq<(Tag, string)>, locale: Locale,
                            child: TextElement)
    requires expected != [] && OpeningTagCount(parent, Name(expected[0].0)) == 1
    requires TextChild(parent, Name(expected[0].0)) == Some(child) && locale.lower(child.value) == expected[0].1
    ensures ConsumeOptional(parent, remainder, expected, locale)
         == ConsumeOptional(parent, RemoveFirst(remainder, child.full), expected[1..], locale)
  {
  }

  lemma ConsumeOptionalSkip(parent: string, remainder: string, expected: seq<(Tag, string)>, locale: Locale)
    requires expected != [] && OpeningTagCount(parent, Name(expected[0].0)) == 0
    ensures ConsumeOptional(parent, remainder, expected, locale)
         == ConsumeOptional(parent, remainder, expected[1..], locale)
  {
  }

  ghost predicate ThereOrAbsent(rows: seq<Elem>, expected: seq<(Tag, string)>, gone: set<Tag>, locale: Locale) {
    (forall i :: 0 <= i < |expected| ==> HasLeaf(rows, expected[i]) || Absent(rows, expected[i].0))
    && forall i :: 0 <= i < |expected| ==> expected[i].0 !in gone && locale.lower(expected[i].1) == expected[i].1
  }

  lemma ThereOrAbsentNext(rows: seq<Elem>, expected: seq<(Tag, string)>, gone: set<Tag>, more: set<Tag>, locale: Locale)
    requires expected != [] && DifferentTags(expected) && ThereOrAbsent(rows, expected, gone, locale)
    requires more == if HasLeaf(rows, expected[0]) then gone + {expected[0].0} else gone
    ensures DifferentTags(expected[1..])
    ensures ThereOrAbsent(rows, expected[1..], more, locale)
    ensures more + Present(rows, expected[1..]) == gone + Present(rows, expected)
  {
  }

  lemma ConsumeOptionalLeaf(rows: seq<Elem>, depth: nat, gone: set<Tag>, expected: seq<(Tag, string)>, locale: Locale,
                            more: set<Tag>)
    requires depth > 0 && Askable(rows) && expected != [] && HasLeaf(rows, expected[0])
    requires expected[0].0 !in gone && more == gone + {expected[0].0} && locale.lower(expected[0].1) == expected[0].1
    ensures ConsumeOptional(Body(rows, depth, {}), Body(rows, depth, gone), expected, locale)
         == ConsumeOptional(Body(rows, depth, {}), Body(rows, depth, more), expected[1..], locale)
  {
    var (parent, before, after) := (Body(rows, depth, {}), Body(rows, depth, gone), Body(rows, depth, more));
    var child := TextElement(PrintElem(Leaf(expected[0].0, expected[0].1), depth), expected[0].1);
    assert OpeningTagCount(parent, Name(expected[0].0)) == 1 && TextChild(parent, Name(expected[0].0)) == Some(child)
        && RemoveFirst(before, child.full) == after by {
      TakeLeaf(rows, depth, gone, expected[0].0, expected[0].1);
    }
    ConsumeOptionalStep(parent, before, expected, locale, child);
  }

  lemma {:induction false} ConsumeOptionalRows(rows: seq<Elem>, depth: nat, gone: set<Tag>,
                                               expected: seq<(Tag, string)>, locale: Locale)
    requires depth > 0 && Askable(rows) && DifferentTags(expected) && ThereOrAbsent(rows, expected, gone, locale)
    ensures ConsumeOptional(Body(rows, depth, {}), Body(rows, depth, gone), expected, locale)
         == Some(Body(rows, depth, gone + Present(rows, expected)))
    decreases |expected|
  {
    if expected == [] {
      assert gone + Present(rows, expected) == gone;
    } else {
      var more := if HasLeaf(rows, expected[0]) then gone + {expected[0].0} else gone;
      assert HasLeaf(rows, expected[0]) || Absent(rows, expected[0].0);
      assert expected[0].0 !in gone && locale.lower(expected[0].1) == expected[0].1;
      if HasLeaf(rows, expected[0]) {
        ConsumeOptionalLeaf(rows, depth, gone, expected, locale, more);
      } else {
        AbsentInRows(rows, expected[0].0, depth);
        ConsumeOptionalSkip(Body(rows, depth, {}), Body(rows, depth, gone), expected, locale);
      }
      ThereOrAbsentNext(rows, expected, gone, more, locale);
      ConsumeOptionalRows(rows, depth, more, expected[1..], locale);
    }
  }

  // ----- The settings -----

  lemma LeafIsTidy(e: Elem)
    requires e.content.Value? && e.attributes == []
    ensures Tidy(e)
  {
  }

  lemma LeavesAreTidy(rows: seq<Elem>)
    requires forall i :: 0 <= i < |rows| ==> rows[i].content.Value? && rows[i].attributes == []
    ensures TidyRows(rows)
  {
  }

  lemma SettingsAreLeaves()
    ensures forall i :: 0 <= i < |SettingsRows()| && i != 12 ==>
              SettingsRows()[i].content.Value? && SettingsRows()[i].attributes == []
  {
  }

  lemma SettingsAreTidy()
    ensures TidyRows(SettingsRows()) && TidyRows(RestartRows())
  {
    LeavesAreTidy(RestartRows());
    assert Tidy(Node(RestartOnFailure, RestartRows()));
    SettingsAreLeaves();
    forall i | 0 <= i < |SettingsRows()| ensures Tidy(SettingsRows()[i]) {
      if i != 12 {
        LeafIsTidy(SettingsRows()[i]);
      }
    }
  }

  /** Where a setting stands. */
  function Position(tag: Tag): int {
    match tag
    case MultipleInstancesPolicy => 0
    case DisallowStartIfOnBatteries => 1
    case StopIfGoingOnBatteries => 2
    case AllowHardTerminate => 3
    case StartWhenAvailable => 4
    case RunOnlyIfNetworkAvailable => 5
    case AllowStartOnDemand => 6
    case Enabled => 7
    case Hidden => 8
    case RunOnlyIfIdle => 9
    case WakeToRun => 10
    case ExecutionTimeLimit => 11
    case RestartOnFailure => 12
    case _ => 13
  }

  lemma FirstSettingsPosition(i: nat)
    requires i < 7
    ensures Position(SettingsRows()[i].tag) == i
  {
  }

  lemma LastSettingsPosition(i: nat)
    requires 7 <= i < 14
    ensures Position(SettingsRows()[i].tag) == i
  {
  }

  lemma SettingsDiffer()
    ensures forall i, j :: 0 <= i < j < |SettingsRows()| ==> SettingsRows()[i].tag != SettingsRows()[j].tag
  {
    forall i | 0 <= i < |SettingsRows()| ensures Position(SettingsRows()[i].tag) == i {
      if i < 7 {
        FirstSettingsPosition(i);
      } else {
        LastSettingsPosition(i);
      }
    }
  }

  lemma FirstSettingsHaveRank4(i: nat)
    requires i < 7
    ensures Level(SettingsRows()[i].tag) == 4 && !IsStem(SettingsRows()[i].tag)
  {
  }

  lemma LastSettingsHaveRank4(i: nat)
    requires 7 <= i < 14
    ensures Level(SettingsRows()[i].tag) == 4 && !IsStem(SettingsRows()[i].tag)
  {
  }

  lemma SettingsHaveRank4()
    ensures forall i :: 0 <= i < |SettingsRows()| ==>
      Level(SettingsRows()[i].tag) == 4 && !IsStem(SettingsRows()[i].tag)
  {
    forall i | 0 <= i < |SettingsRows()| ensures Level(SettingsRows()[i].tag) == 4 && !IsStem(SettingsRows()[i].tag) {
      if i < 7 {
        FirstSettingsHaveRank4(i);
      } else {
        LastSettingsHaveRank4(i);
      }
    }
  }

  lemma SettingsAreAskable()
    ensures Askable(SettingsRows()) && Askable(RestartRows())
  {
    SettingsAreTidy();
    SettingsDiffer();
    SettingsHaveRank4();
    SameRankIsApart(SettingsRows(), 4);
    SameRankIsApart(RestartRows(), 5);
  }

  lemma {:induction false} TagAt(expected: seq<(Tag, string)>, i: nat)
    requires i < |expected|
    ensures expected[i].0 in Tags(expected)
  {
    if i > 0 {
      TagAt(expected[1..], i - 1);
    }
  }

  lemma {:induction false} PresentAt(rows: seq<Elem>, expected: seq<(Tag, string)>, i: nat)
    requires i < |expected| && HasLeaf(rows, expected[i])
    ensures expected[i].0 in Present(rows, expected)
  {
    if i > 0 {
      PresentAt(rows, expected[1..], i - 1);
    }
  }

  /** The row of a required setting. */
  function RequiredRow(i: nat): nat {
    if i < 3 then i else if i == 3 then 4 else 11
  }

  /** The row of an optional setting; the last one is not written. */
  function OptionalRow(i: nat): nat {
    if i == 0 then 3 else if i < 7 then i + 4 else 13
  }

  lemma LeafAt(rows: seq<Elem>, k: nat, entry: (Tag, string))
    requires k < |rows| && rows[k] == Leaf(entry.0, entry.1) && entry.1 != ""
    requires !IsSpace(entry.1[0]) && !IsSpace(entry.1[|entry.1| - 1])
    ensures HasLeaf(rows, entry)
  {
    assert Leaf(entry.0, entry.1) in rows;
    TrimIsTrimmed(entry.1);
  }

  lemma RequiredIsThere(i: nat)
    requires i < 5
    ensures SettingsRows()[RequiredRow(i)].tag == RequiredSettings()[i].0
    ensures HasLeaf(SettingsRows(), RequiredSettings()[i])
  {
    LeafAt(SettingsRows(), RequiredRow(i), RequiredSettings()[i]);
  }

  lemma OptionalIsThere(i: nat)
    requires i < 8
    ensures SettingsRows()[OptionalRow(i)].tag == OptionalSettings()[i].0
    ensures HasLeaf(SettingsRows(), OptionalSettings()[i])
  {
    LeafAt(SettingsRows(), OptionalRow(i), OptionalSettings()[i]);
  }

  lemma RequiredDiffer()
    ensures DifferentTags(RequiredSettings())
    ensures forall i :: 0 <= i < |RequiredSettings()| ==> RequiredSettings()[i].0 != RestartOnFailure
  {
    forall i | 0 <= i < |RequiredSettings()| ensures Position(RequiredSettings()[i].0) == RequiredRow(i) {
    }
    assert Position(RestartOnFailure) == 12;
  }

  lemma RequiredAreThere()
    ensures AllThere(SettingsRows(), RequiredSettings(), {RestartOnFailure})
  {
    RequiredDiffer();
    forall i | 0 <= i < |RequiredSettings()|
      ensures HasLeaf(SettingsRows(), RequiredSettings()[i]) && RequiredSettings()[i].0 !in {RestartOnFailure}
    {
      RequiredIsThere(i);
    }
  }

  lemma OptionalAreLower(locale: Locale)
    requires KnowsAscii(locale)
    ensures forall i :: 0 <= i < |OptionalSettings()| ==>
      locale.lower(OptionalSettings()[i].1) == OptionalSettings()[i].1
  {
    forall i | 0 <= i < |OptionalSettings()|
      ensures OptionalSettings()[i].1 == "true" || OptionalSettings()[i].1 == "false" || OptionalSettings()[i].1 == "7"
    {
    }
  }

  lemma OptionalAreThereOrAbsent(i: nat)
    requires i < 9
    ensures HasLeaf(SettingsRows(), OptionalSettings()[i]) || Absent(SettingsRows(), OptionalSettings()[i].0)
  {
    if i < 8 {
      OptionalIsThere(i);
    } else {
      AbsentFromSettings(SettingsRows(), UseUnifiedSchedulingEngine);
    }
  }

  lemma OptionalAreThere(locale: Locale)
    requires KnowsAscii(locale)
    ensures ThereOrAbsent(SettingsRows(), OptionalSettings(), {RestartOnFailure} + Tags(RequiredSettings()), locale)
  {
    OptionalAreNotRequired();
    OptionalAreLower(locale);
    forall i | 0 <= i < |OptionalSettings()|
      ensures HasLeaf(SettingsRows(), OptionalSettings()[i]) || Absent(SettingsRows(), OptionalSettings()[i].0)
    {
      OptionalAreThereOrAbsent(i);
    }
  }

  lemma OptionalDiffer()
    ensures DifferentTags(OptionalSettings())
  {
    forall i | 0 <= i < |OptionalSettings()|
      ensures if i < 8 then Position(OptionalSettings()[i].0) == OptionalRow(i)
              else OptionalSettings()[i].0 == UseUnifiedSchedulingEngine
    {
    }
  }

  lemma {:induction false} TagHasEntry(expected: seq<(Tag, string)>, tag: Tag)
    requires tag in Tags(expected)
    ensures exists i :: 0 <= i < |expected| && expected[i].0 == tag
  {
    if tag != expected[0].0 {
      TagHasEntry(expected[1..], tag);
      var i :| 0 <= i < |expected[1..]| && expected[1..][i].0 == tag;
      assert expected[i + 1].0 == tag;
    }
  }

  lemma RequiredPosition(j: nat)
    requires j < 5
    ensures Position(RequiredSettings()[j].0) in {0, 1, 2, 4, 11}
  {
  }

  lemma OptionalPosition(i: nat)
    requires i < 9
    ensures Position(OptionalSettings()[i].0) in {3, 5, 6, 7, 8, 9, 10, 13}
  {
  }

  lemma OptionalIsNotRequired(i: nat)
    requires i < 9
    ensures OptionalSettings()[i].0 !in {RestartOnFailure} + Tags(RequiredSettings())
  {
    var tag := OptionalSettings()[i].0;
    OptionalPosition(i);
    if tag in Tags(RequiredSettings()) {
      TagHasEntry(RequiredSettings(), tag);
      var j :| 0 <= j < |RequiredSettings()| && RequiredSettings()[j].0 == tag;
      RequiredPosition(j);
    }
  }

  lemma OptionalAreNotRequired()
    ensures forall i :: 0 <= i < |OptionalSettings()| ==>
      OptionalSettings()[i].0 !in {RestartOnFailure} + Tags(RequiredSettings())
  {
    forall i | 0 <= i < |OptionalSettings()|
      ensures OptionalSettings()[i].0 !in {RestartOnFailure} + Tags(RequiredSettings())
    {
      OptionalIsNotRequired(i);
    }
  }

  lemma AbsentFromSettings(rows: seq<Elem>, tag: Tag)
    requires rows == SettingsRows() && Level(tag) == 0
    ensures Absent(rows, tag)
  {
    SettingsAreTidy();
    SettingsHaveRank4();
    forall i | 0 <= i < |rows| ensures Lacks(rows[i], tag) {
      LowerRankIsLacking(rows[i], tag);
    }
  }

  /** The names of the settings that are cut out. */
  function CutOut(rows: seq<Elem>): set<Tag> {
    {RestartOnFailure} + Tags(RequiredSettings()) + Present(rows, OptionalSettings())
  }

  lemma RequiredIsCutOut(rows: seq<Elem>, j: nat)
    requires rows == SettingsRows() && j < 5
    ensures rows[RequiredRow(j)].tag in CutOut(rows)
  {
    RequiredIsThere(j);
    TagAt(RequiredSettings(), j);
  }

  lemma OptionalIsCutOut(rows: seq<Elem>, j: nat)
    requires rows == SettingsRows() && j < 8
    ensures rows[OptionalRow(j)].tag in CutOut(rows)
  {
    OptionalIsThere(j);
    PresentAt(rows, OptionalSettings(), j);
  }

  /** The restart settings, the required and the optional settings are all there is. */
  lemma SettingsAreCovered(rows: seq<Elem>)
    requires rows == SettingsRows()
    ensures forall i :: 0 <= i < |rows| ==> rows[i].tag in CutOut(rows)
  {
    forall i | 0 <= i < |rows| ensures rows[i].tag in CutOut(rows) {
      if i < 3 || i == 4 || i == 11 {
        RequiredIsCutOut(rows, if i < 3 then i else if i == 4 then 3 else 4);
      } else if i != 12 {
        OptionalIsCutOut(rows, if i == 3 then 0 else if i < 11 then i - 4 else 7);
      }
    }
  }

  lemma ChildrenAreExact(parent: string, expected: seq<(Tag, string)>, locale: Locale, remainder: string)
    requires Consume(parent, parent, expected, locale) == Some(remainder) && Trim(remainder) == ""
    ensures HasExactTextChildren(parent, expected, locale)
  {
  }

  lemma RestartLeaves()
    ensures DifferentTags(RestartChildren()) && AllThere(RestartRows(), RestartChildren(), {})
    ensures forall i :: 0 <= i < |RestartRows()| ==> RestartRows()[i].tag in Tags(RestartChildren())
  {
    LeafAt(RestartRows(), 0, RestartChildren()[0]);
    LeafAt(RestartRows(), 1, RestartChildren()[1]);
    TagAt(RestartChildren(), 0);
    TagAt(RestartChildren(), 1);
  }

  lemma RestartIsExact(rows: seq<Elem>, locale: Locale)
    requires rows == RestartRows()
    ensures HasExactTextChildren(Body(rows, 3, {}), RestartChildren(), locale)
  {
    var children := RestartChildren();
    SettingsAreAskable();
    RestartLeaves();
    ConsumeRows(rows, 3, {}, children, locale);
    AllGone(rows, 3, {} + Tags(children));
    ChildrenAreExact(Body(rows, 3, {}), children, locale, Body(rows, 3, {} + Tags(children)));
  }

  /** A block without attributes is found by its name, and can be cut out. */
  lemma BlockInRows(rows: seq<Elem>, k: nat, depth: nat, gone: set<Tag>, tag: Tag, inner: seq<Elem>)
    requires k < |rows| && depth > 0 && TidyRows(rows) && Apart(rows) && (IsStem(tag) ==> k == 0)
    requires rows[k] == Node(tag, inner)
    ensures SingleElement(Body(rows, depth, {}), Name(tag))
         == Some(XmlElement(PrintElem(rows[k], depth), map[], Body(inner, depth + 1, {})))
    ensures tag !in gone ==>
      RemoveFirst(Body(rows, depth, gone), PrintElem(rows[k], depth)) == Body(rows, depth, gone + {tag})
  {
    SingleInRows(rows, k, depth);
    if tag !in gone {
      RemoveInRows(rows, k, depth, gone);
    }
  }

  lemma BlockIsTaken(parent: string, remainder: string, tag: Tag, children: seq<(Tag, string)>, locale: Locale,
                     full: string, inner: string)
    requires SingleElement(parent, Name(tag)) == Some(XmlElement(full, map[], inner))
    requires HasExactTextChildren(inner, children, locale)
    ensures TakeBlock(parent, remainder, tag, children, locale) == Some(RemoveFirst(remainder, full))
  {
  }

  lemma BlockTakenInRows(rows: seq<Elem>, k: nat, depth: nat, tag: Tag, inner: seq<Elem>, children: seq<(Tag, string)>,
                         locale: Locale)
    requires k < |rows| && depth > 0 && TidyRows(rows) && Apart(rows) && !IsStem(tag)
    requires rows[k] == Node(tag, inner) && HasExactTextChildren(Body(inner, depth + 1, {}), children, locale)
    ensures TakeBlock(Body(rows, depth, {}), Body(rows, depth, {}), tag, children, locale)
         == Some(Body(rows, depth, {tag}))
  {
    var (value, full) := (Body(rows, depth, {}), PrintElem(rows[k], depth));
    BlockInRows(rows, k, depth, {}, tag, inner);
    BlockIsTaken(value, value, tag, children, locale, full, Body(inner, depth + 1, {}));
    assert {} + {tag} == {tag};
  }

  lemma RestartIsTaken(rows: seq<Elem>, restart: seq<Elem>, locale: Locale)
    requires rows == SettingsRows() && restart == RestartRows()
    ensures TakeBlock(Body(rows, 2, {}), Body(rows, 2, {}), RestartOnFailure, RestartChildren(), locale)
         == Some(Body(rows, 2, {RestartOnFailure}))
  {
    assert rows[12] == Node(RestartOnFailure, restart);
    SettingsAreAskable();
    RestartIsExact(restart, locale);
    BlockTakenInRows(rows, 12, 2, RestartOnFailure, restart, RestartChildren(), locale);
  }

  lemma NoIdleIsTaken(rows: seq<Elem>, remainder: string, locale: Locale)
    requires rows == SettingsRows()
    ensures TakeIdle(Body(rows, 2, {}), remainder, locale) == Some(remainder)
  {
    SettingsAreAskable();
    AbsentFromSettings(rows, IdleSettings);
    AbsentInRows(rows, IdleSettings, 2);
  }

  /** The written settings are the expected ones. */
  lemma SettingsAreExact(rows: seq<Elem>, locale: Locale)
    requires rows == SettingsRows() && KnowsAscii(locale)
    ensures HasExactSettings(Body(rows, 2, {}), locale)
  {
    var value := Body(rows, 2, {});
    var gone := {RestartOnFailure} + Tags(RequiredSettings());
    var left := Body(rows, 2, {RestartOnFailure});
    RestartIsTaken(rows, RestartRows(), locale);
    NoIdleIsTaken(rows, left, locale);
    assert Consume(value, left, RequiredSettings(), locale) == Some(Body(rows, 2, gone)) by {
      SettingsAreAskable();
      RequiredDiffer();
      RequiredAreThere();
      ConsumeRows(rows, 2, {RestartOnFailure}, RequiredSettings(), locale);
    }
    var all := gone + Present(rows, OptionalSettings());
    assert ConsumeOptional(value, Body(rows, 2, gone), OptionalSettings(), locale) == Some(Body(rows, 2, all)) by {
      SettingsAreAskable();
      OptionalDiffer();
      OptionalAreThere(locale);
      ConsumeOptionalRows(rows, 2, gone, OptionalSettings(), locale);
    }
    assert Trim(Body(rows, 2, all)) == "" by {
      SettingsAreCovered(rows);
      AllGone(rows, 2, all);
    }
    ExactWhenTaken(value, Body(rows, 2, {RestartOnFailure}), Body(rows, 2, gone), Body(rows, 2, all), locale);
  }

  lemma ExactWhenTaken(value: string, a: string, b: string, c: string, locale: Locale)
    requires TakeBlock(value, value, RestartOnFailure, RestartChildren(), locale) == Some(a)
    requires TakeIdle(value, a, locale) == Some(a)
    requires Consume(value, a, RequiredSettings(), locale) == Some(b)
    requires ConsumeOptional(value, b, OptionalSettings(), locale) == Some(c) && Trim(c) == ""
    ensures HasExactSettings(value, locale)
  {
  }
}
