/**
 * Element trees, how a task document is printed from one, and what the reader's patterns find in the print. A block is
 * printed one element a row. Its rows keep apart when no row's name occurs in another row; then every row is found by
 * its name, read, and cut out, and the others stay as they are.
 */
module TaskDocument {
  import opened Wrappers
  import opened Text
  import opened XmlEntities
  import opened XmlScan
  import opened TaskNames

  /** What stands between the tags: a text that is escaped, or one element a row. */
  datatype Content = Value(text: string) | Block(rows: seq<Elem>)

  datatype Elem = Elem(tag: Tag, attributes: seq<Attribute>, content: Content)

  function Leaf(tag: Tag, text: string): Elem {
    Elem(tag, [], Value(text))
  }

  function Node(tag: Tag, rows: seq<Elem>): Elem {
    Elem(tag, [], Block(rows))
  }

  // ----- Printing -----

  function PrintAttribute(attribute: Attribute): string {
    " " + attribute.key + "=\"" + attribute.value + "\""
  }

  function PrintAttributes(attributes: seq<Attribute>): string {
    if attributes == [] then "" else PrintAttribute(attributes[0]) + PrintAttributes(attributes[1..])
  }

  function OpenTag(tag: Tag, attributes: seq<Attribute>): string {
    "<" + (Name(tag) + PrintAttributes(attributes)) + ">"
  }

  function CloseTag(tag: Tag): string {
    CloseText(Name(tag))
  }

  function NewLine(depth: nat): string {
    "\n" + Repeat(' ', 2 * depth)
  }

  function PrintContent(content: Content, depth: nat): string
    decreases content, 1
  {
    match content
    case Value(text) => XmlText(text)
    case Block(rows) => PrintRows(rows, depth + 1, {}) + NewLine(depth)
  }

  function PrintElem(e: Elem, depth: nat): string
    decreases e, 2
  {
    OpenTag(e.tag, e.attributes) + (PrintContent(e.content, depth) + CloseTag(e.tag))
  }

  /** The rows of a block; an element that is taken out leaves its line break and indentation. */
  function PrintRows(rows: seq<Elem>, depth: nat, gone: set<Tag>): string
    decreases rows, 0
  {
    if rows == [] then ""
    else PrintRow(rows[0], depth, gone) + PrintRows(rows[1..], depth, gone)
  }

  function PrintRow(e: Elem, depth: nat, gone: set<Tag>): string
    decreases e, 3
  {
    NewLine(depth) + (if e.tag in gone then "" else PrintElem(e, depth))
  }

  /** The text between the tags of a block one level up. */
  function Body(rows: seq<Elem>, depth: nat, gone: set<Tag>): string
    requires depth > 0
  {
    PrintRows(rows, depth, gone) + NewLine(depth - 1)
  }

  // ----- Trees that can be read back -----

  predicate PlainValue(value: string) {
    forall c :: c in value ==> c != '"' && c != '&' && c != '<' && c != '>'
  }

  predicate TidyAttribute(a: Attribute) {
    a.key != "" && IsNameStart(a.key[0]) && (forall c :: c in a.key ==> IsNameChar(c)) && a.key != "__proto__"
    && PlainValue(a.value)
  }

  predicate TidyAttributes(attributes: seq<Attribute>) {
    (forall a :: a in attributes ==> TidyAttribute(a))
    && forall i, j :: 0 <= i < j < |attributes| ==> attributes[i].key != attributes[j].key
  }

  /** A rank of the names: an element holds only names of higher rank. */
  function Level(tag: Tag): nat {
    match tag
    case Task => 1
    case Triggers => 2
    case RegistrationInfo => 3
    case BootTrigger => 3
    case Principals => 3
    case Settings => 3
    case Actions => 3
    case UserId => 5
    case LogonType => 5
    case RunLevel => 5
    case Interval => 5
    case Count => 5
    case Command => 5
    case Arguments => 5
    case URI => 0
    case CalendarTrigger => 0
    case EventTrigger => 0
    case IdleTrigger => 0
    case LogonTrigger => 0
    case RegistrationTrigger => 0
    case SessionStateChangeTrigger => 0
    case TimeTrigger => 0
    case IdleSettings => 0
    case StopOnIdleEnd => 0
    case RestartOnIdle => 0
    case UseUnifiedSchedulingEngine => 0
    case _ => 4
  }

  ghost predicate Tidy(e: Elem) {
    TidyAttributes(e.attributes)
    && (e.content.Block? ==>
          forall i :: 0 <= i < |e.content.rows| ==>
            Level(e.content.rows[i].tag) > Level(e.tag) && Tidy(e.content.rows[i]))
  }

  ghost predicate TidyRows(rows: seq<Elem>) {
    forall i :: 0 <= i < |rows| ==> Tidy(rows[i])
  }

  /** No element of that name in the tree. */
  ghost predicate Lacks(e: Elem, tag: Tag) {
    e.tag != tag && ContentLacks(e.content, tag)
  }

  ghost predicate ContentLacks(content: Content, tag: Tag) {
    content.Block? ==> forall i :: 0 <= i < |content.rows| ==> Lacks(content.rows[i], tag)
  }

  lemma {:induction false} LowerRankIsLacking(e: Elem, tag: Tag)
    requires Tidy(e) && Level(tag) <= Level(e.tag)
    ensures ContentLacks(e.content, tag)
  {
    if e.content.Block? {
      forall i | 0 <= i < |e.content.rows| ensures Lacks(e.content.rows[i], tag) {
        LowerRankIsLacking(e.content.rows[i], tag);
      }
    }
  }

  /** No row's name occurs in another row. */
  ghost predicate Apart(rows: seq<Elem>) {
    forall i, j :: 0 <= i < |rows| && 0 <= j < |rows| && i != j ==> Lacks(rows[i], rows[j].tag)
  }

  lemma SameRankIsApart(rows: seq<Elem>, level: nat)
    requires TidyRows(rows) && forall i :: 0 <= i < |rows| ==> Level(rows[i].tag) == level
    requires forall i, j :: 0 <= i < j < |rows| ==> rows[i].tag != rows[j].tag
    ensures Apart(rows)
  {
    forall i, j | 0 <= i < |rows| && 0 <= j < |rows| && i != j ensures Lacks(rows[i], rows[j].tag) {
      LowerRankIsLacking(rows[i], rows[j].tag);
    }
  }

  // ----- Tags in print -----

  lemma {:induction false} AttributesHaveNoAngle(attributes: seq<Attribute>)
    requires TidyAttributes(attributes)
    ensures '<' !in PrintAttributes(attributes) && '>' !in PrintAttributes(attributes)
    ensures attributes != [] ==> PrintAttributes(attributes)[0] == ' '
  {
    if attributes != [] {
      var a := attributes[0];
      assert a in attributes && TidyAttribute(a);
      assert forall b :: b in attributes[1..] ==> b in attributes;
      AttributesHaveNoAngle(attributes[1..]);
      assert '<' !in a.key && '>' !in a.key && '<' !in a.value && '>' !in a.value;
      assert forall c :: c in PrintAttribute(a) ==> c in a.key || c in a.value || c == ' ' || c == '=' || c == '"';
    }
  }

  /** A tag is one piece of markup. */
  ghost predicate IsOneMarkup(s: string) {
    |s| >= 2 && s[0] == '<' && s[|s| - 1] == '>' && '<' !in s[1..]
  }

  lemma NameHasNoAngle(tag: Tag)
    ensures '<' !in Name(tag) && '>' !in Name(tag)
  {
    NamesAreNames(tag);
    assert forall c :: c in Name(tag) ==> IsLetter(c);
  }

  lemma OpenTagIsMarkup(tag: Tag, attributes: seq<Attribute>)
    requires TidyAttributes(attributes)
    ensures IsOneMarkup(OpenTag(tag, attributes))
  {
    AttributesHaveNoAngle(attributes);
    NameHasNoAngle(tag);
    assert OpenTag(tag, attributes)[1..] == Name(tag) + PrintAttributes(attributes) + ">";
  }

  lemma CloseTagIsMarkup(tag: Tag)
    ensures IsOneMarkup(CloseTag(tag))
  {
    NameHasNoAngle(tag);
    CloseTextIsMarkup(Name(tag));
  }

  lemma CloseTextIsMarkup(name: string)
    requires '<' !in name
    ensures IsOneMarkup(CloseText(name))
  {
    assert CloseText(name)[1..] == "/" + name + ">";
  }

  // ----- What the patterns find at a tag -----

  /** An open tag without its `<`: the name, then a blank or the end. */
  function AfterAngle(tag: Tag, attributes: seq<Attribute>): string {
    Name(tag) + PrintAttributes(attributes) + ">"
  }

  /** What begins with a printed name and goes on with something else begins with another name only if that is
      shorter. */
  lemma NameBefore(s: string, u: Tag, t: Tag)
    requires |s| > |Name(u)| && s[..|Name(u)|] == Name(u) && EndsName(s[|Name(u)|])
    requires StartsWith(s, Name(t))
    ensures t == u || (Extends(u, t) && |Name(t)| < |Name(u)|)
  {
    NamesAreNames(t);
    NoLongerName(s, Name(u), Name(t));
    if t != u {
      NamesDiffer(t, u);
      ExtendsIsLonger(u, t);
    }
  }

  /** Behind the shorter name there is still a letter. */
  lemma LetterBehind(s: string, u: Tag, n: nat)
    requires |s| > |Name(u)| && s[..|Name(u)|] == Name(u) && n < |Name(u)|
    ensures IsLetter(s[n]) && !EndsName(s[n])
  {
    NamesAreNames(u);
    assert s[n] == Name(u)[n];
  }

  lemma NameThenBehind(name: string, behind: string)
    requires behind == "" || behind[0] == ' '
    ensures var s := name + behind + ">"; |s| > |name| && s[..|name|] == name && EndsName(s[|name|])
  {
    var s := name + behind + ">";
    assert s[|name|] == (behind + ">")[0];
  }

  lemma OpenTagParts(u: Tag, attributes: seq<Attribute>)
    requires TidyAttributes(attributes)
    ensures var s := AfterAngle(u, attributes);
            OpenTag(u, attributes)[1..] == s && |s| > |Name(u)| && s[..|Name(u)|] == Name(u) && EndsName(s[|Name(u)|])
  {
    AttributesHaveNoAngle(attributes);
    NameThenBehind(Name(u), PrintAttributes(attributes));
  }

  /** The opening pattern of a name matches the open tags of that name and no others. */
  lemma OpeningAtOpenTag(t: Tag, u: Tag, attributes: seq<Attribute>)
    requires TidyAttributes(attributes)
    ensures Holds(Opening(Name(t)), OpenTag(u, attributes)) <==> t == u
  {
    if t == u {
      AttributesHaveNoAngle(attributes);
      OpensOwnTag(Name(t), PrintAttributes(attributes), "");
      assert OpenTag(u, attributes) + "" == OpenTag(u, attributes);
    } else {
      OpeningAtOtherTag(t, u, attributes);
    }
  }

  lemma OpeningAtOtherTag(t: Tag, u: Tag, attributes: seq<Attribute>)
    requires TidyAttributes(attributes) && t != u
    ensures !Holds(Opening(Name(t)), OpenTag(u, attributes))
  {
    OpenTagParts(u, attributes);
    var s := AfterAngle(u, attributes);
    if StartsWith(s, Name(t)) {
      NameBefore(s, u, t);
      LetterBehind(s, u, |Name(t)|);
      assert OpenTag(u, attributes)[1 + |Name(t)|] == s[|Name(t)|];
    }
  }

  lemma StartAtOpenTag(t: Tag, u: Tag, attributes: seq<Attribute>)
    requires TidyAttributes(attributes) && t != u && !Extends(u, t)
    ensures !Holds(Start(Name(t)), OpenTag(u, attributes))
  {
    OpenTagParts(u, attributes);
    if StartsWith(AfterAngle(u, attributes), Name(t)) {
      NameBefore(AfterAngle(u, attributes), u, t);
    }
  }

  lemma SecondOfOpenTag(u: Tag, attributes: seq<Attribute>)
    ensures |OpenTag(u, attributes)| >= 2 && IsLetter(OpenTag(u, attributes)[1])
  {
    NamesAreNames(u);
    assert OpenTag(u, attributes)[1] == Name(u)[0];
  }

  lemma NothingElseAtOpenTag(p: Probe, u: Tag, attributes: seq<Attribute>)
    requires p.End? || p.Declaration?
    ensures !Holds(p, OpenTag(u, attributes))
  {
    SecondOfOpenTag(u, attributes);
    NotAtLetter(p, OpenTag(u, attributes));
  }

  lemma EndAtCloseTag(t: Tag, u: Tag)
    ensures Holds(End(Name(t)), CloseTag(u)) <==> t == u
  {
    if t == u {
      EndOfCloseTag(t, "");
      assert CloseTag(u) + "" == CloseTag(u);
    } else {
      EndAtOtherTag(t, u);
    }
  }

  lemma EndAtOtherTag(t: Tag, u: Tag)
    requires t != u
    ensures !Holds(End(Name(t)), CloseTag(u))
  {
    NamesAreNames(t);
    NamesAreNames(u);
    if StartsWith(Name(u), Name(t)) {
      NamesDiffer(t, u);
      ExtendsIsLonger(u, t);
    }
    EndNotAtOther(Name(t), Name(u));
  }

  lemma EndOfCloseTag(t: Tag, rest: string)
    ensures EndLength(CloseTag(t) + rest, Name(t)) == Some(|CloseTag(t)|)
  {
    EndOfOwnTag(Name(t), rest);
  }

  lemma NothingElseAtCloseTag(p: Probe, u: Tag)
    requires Proper(p) && !p.End?
    ensures !Holds(p, CloseTag(u))
  {
    NotAtSlash(p, CloseTag(u));
  }

  lemma StartOfOpenTag(t: Tag, attributes: seq<Attribute>, rest: string)
    requires TidyAttributes(attributes)
    ensures StartLength(OpenTag(t, attributes) + rest, Name(t)) == Some(|OpenTag(t, attributes)|)
  {
    AttributesHaveNoAngle(attributes);
    StartOfOwnTag(Name(t), PrintAttributes(attributes), rest);
  }

  // ----- Scanning a printed tree -----

  /** The pattern matches at no tag of the tree. */
  ghost predicate Misses(p: Probe, e: Elem) {
    !Holds(p, OpenTag(e.tag, e.attributes)) && !Holds(p, CloseTag(e.tag)) && ContentMisses(p, e.content)
  }

  ghost predicate ContentMisses(p: Probe, content: Content) {
    content.Block? ==> forall i :: 0 <= i < |content.rows| ==> Misses(p, content.rows[i])
  }

  /** The scanned text is complete markup with this many matches. */
  ghost predicate Scanned(p: Probe, s: string, count: nat) {
    Closed(s) && Hits(p, s) == count
  }

  lemma ScanJoin(p: Probe, a: string, m: nat, b: string, n: nat)
    requires Proper(p) && Scanned(p, a, m) && Scanned(p, b, n)
    ensures Scanned(p, a + b, m + n)
  {
    HitsAppend(p, a, b);
    ClosedAppend(a, b);
  }

  lemma ScanPlain(p: Probe, s: string)
    requires Proper(p) && '<' !in s
    ensures Scanned(p, s, 0)
  {
    PlainHasNoHits(p, s);
  }

  lemma ScanTag(p: Probe, s: string)
    requires Proper(p) && IsOneMarkup(s)
    ensures Scanned(p, s, if Holds(p, s) then 1 else 0)
  {
    HitsOfMarkup(p, s);
  }

  lemma {:induction false} ScanElem(p: Probe, e: Elem, depth: nat)
    requires Proper(p) && Tidy(e) && ContentMisses(p, e.content)
    ensures Scanned(p, PrintElem(e, depth),
              (if Holds(p, OpenTag(e.tag, e.attributes)) then 1 else 0) + (if Holds(p, CloseTag(e.tag)) then 1 else 0))
    decreases e, 1
  {
    var (open, content, close) := (OpenTag(e.tag, e.attributes), PrintContent(e.content, depth), CloseTag(e.tag));
    OpenTagIsMarkup(e.tag, e.attributes);
    CloseTagIsMarkup(e.tag);
    ScanTag(p, open);
    ScanTag(p, close);
    ScanContent(p, e, depth);
    ScanJoin(p, content, 0, close, if Holds(p, close) then 1 else 0);
    ScanJoin(p, open, if Holds(p, open) then 1 else 0, content + close, if Holds(p, close) then 1 else 0);
  }

  lemma {:induction false} ScanContent(p: Probe, e: Elem, depth: nat)
    requires Proper(p) && Tidy(e) && ContentMisses(p, e.content)
    ensures Scanned(p, PrintContent(e.content, depth), 0)
    decreases e, 0
  {
    match e.content
    case Value(text) =>
      EscapedHasNoAngle(text);
      ScanPlain(p, XmlText(text));
    case Block(rows) =>
      ScanRows(p, rows, depth + 1, {});
      ScanPlain(p, NewLine(depth));
      ScanJoin(p, PrintRows(rows, depth + 1, {}), 0, NewLine(depth), 0);
  }

  lemma {:induction false} ScanRows(p: Probe, rows: seq<Elem>, depth: nat, gone: set<Tag>)
    requires Proper(p) && TidyRows(rows)
    requires forall i :: 0 <= i < |rows| ==> rows[i].tag in gone || Misses(p, rows[i])
    ensures Scanned(p, PrintRows(rows, depth, gone), 0)
    decreases rows, 2
  {
    if rows == [] {
      ScanPlain(p, "");
    } else {
      var e := rows[0];
      ScanRows(p, rows[1..], depth, gone);
      ScanPlain(p, NewLine(depth));
      if e.tag in gone {
        ScanPlain(p, "");
        ScanJoin(p, NewLine(depth), 0, "", 0);
      } else {
        ScanElem(p, e, depth);
        ScanJoin(p, NewLine(depth), 0, PrintElem(e, depth), 0);
      }
      ScanJoin(p, PrintRow(e, depth, gone), 0, PrintRows(rows[1..], depth, gone), 0);
    }
  }

  // ----- Trees that lack a name -----

  lemma {:induction false} LackingMisses(p: Probe, e: Elem, tag: Tag)
    requires Tidy(e) && Lacks(e, tag) && (p == Opening(Name(tag)) || p == End(Name(tag)))
    ensures Misses(p, e)
  {
    NamesAreNames(tag);
    if p.Opening? {
      OpeningAtOpenTag(tag, e.tag, e.attributes);
      NothingElseAtCloseTag(p, e.tag);
    } else {
      EndAtCloseTag(tag, e.tag);
      NothingElseAtOpenTag(p, e.tag, e.attributes);
    }
    if e.content.Block? {
      forall i | 0 <= i < |e.content.rows| ensures Misses(p, e.content.rows[i]) {
        LackingMisses(p, e.content.rows[i], tag);
      }
    }
  }

  /** The names that another name goes on from. */
  predicate IsStem(tag: Tag) {
    tag == Principal || tag == Exec
  }

  lemma {:induction false} LackingMissesStart(e: Elem, tag: Tag)
    requires Tidy(e) && Lacks(e, tag) && !IsStem(tag)
    ensures Misses(Start(Name(tag)), e)
  {
    NamesAreNames(tag);
    StartAtOpenTag(tag, e.tag, e.attributes);
    NothingElseAtCloseTag(Start(Name(tag)), e.tag);
    if e.content.Block? {
      forall i | 0 <= i < |e.content.rows| ensures Misses(Start(Name(tag)), e.content.rows[i]) {
        LackingMissesStart(e.content.rows[i], tag);
      }
    }
  }

  lemma {:induction false} NoDeclaration(e: Elem)
    requires Tidy(e)
    ensures Misses(Declaration, e)
  {
    NothingElseAtOpenTag(Declaration, e.tag, e.attributes);
    NothingElseAtCloseTag(Declaration, e.tag);
    if e.content.Block? {
      forall i | 0 <= i < |e.content.rows| ensures Misses(Declaration, e.content.rows[i]) {
        NoDeclaration(e.content.rows[i]);
      }
    }
  }

  lemma ContentLackingMisses(p: Probe, e: Elem, tag: Tag)
    requires Tidy(e) && ContentLacks(e.content, tag) && (p == Opening(Name(tag)) || p == End(Name(tag)))
    ensures ContentMisses(p, e.content)
  {
    if e.content.Block? {
      forall i | 0 <= i < |e.content.rows| ensures Misses(p, e.content.rows[i]) {
        LackingMisses(p, e.content.rows[i], tag);
      }
    }
  }

  // ----- Finding an element -----

  /** The element that is printed between a front and a back without its name is the one that is found. */
  lemma SingleIs(pre: string, e: Elem, depth: nat, post: string)
    requires Tidy(e) && ContentLacks(e.content, e.tag)
    requires Scanned(Opening(Name(e.tag)), pre, 0) && Hits(Start(Name(e.tag)), pre) == 0
    requires Scanned(Opening(Name(e.tag)), post, 0)
    ensures OpeningTagCount(pre + (PrintElem(e, depth) + post), Name(e.tag)) == 1
    ensures SingleElement(pre + (PrintElem(e, depth) + post), Name(e.tag))
      == PartsPrinted(e, depth).Build()
  {
    var text := pre + (PrintElem(e, depth) + post);
    var m := SpanOf(pre, e, depth);
    CountIsOne(pre, e, depth, post);
    FindPrinted(pre, e, depth, post);
    PartsOfPrinted(pre, e, depth, post);
    SingleThrough(text, Name(e.tag), m);
  }

  function SpanOf(pre: string, e: Elem, depth: nat): Span {
    Span(|pre|, |OpenTag(e.tag, e.attributes)|, |PrintContent(e.content, depth)|, |CloseTag(e.tag)|)
  }

  lemma FindPrinted(pre: string, e: Elem, depth: nat, post: string)
    requires Tidy(e) && ContentLacks(e.content, e.tag) && Closed(pre) && Hits(Start(Name(e.tag)), pre) == 0
    ensures FindElement(pre + (PrintElem(e, depth) + post), Name(e.tag)) == Some(SpanOf(pre, e, depth))
  {
    var name := Name(e.tag);
    var (open, content, close) := (OpenTag(e.tag, e.attributes), PrintContent(e.content, depth), CloseTag(e.tag));
    NamesAreNames(e.tag);
    ContentLackingMisses(End(name), e, e.tag);
    ScanContent(End(name), e, depth);
    StartOfOpenTag(e.tag, e.attributes, content + (close + post));
    EndOfCloseTag(e.tag, post);
    ElementHereIs(open, content, close, post, name);
    PrintRegrouped(open, content, close, post);
    FindElementIs(pre, PrintElem(e, depth) + post, Span(0, |open|, |content|, |close|), name);
  }

  lemma PrintRegrouped(open: string, content: string, close: string, post: string)
    ensures (open + (content + close)) + post == open + (content + (close + post))
  {
  }

  lemma CountIsOne(pre: string, e: Elem, depth: nat, post: string)
    requires Tidy(e) && ContentLacks(e.content, e.tag)
    requires Scanned(Opening(Name(e.tag)), pre, 0) && Scanned(Opening(Name(e.tag)), post, 0)
    ensures OpeningTagCount(pre + (PrintElem(e, depth) + post), Name(e.tag)) == 1
  {
    var p := Opening(Name(e.tag));
    NamesAreNames(e.tag);
    ContentLackingMisses(p, e, e.tag);
    ScanElem(p, e, depth);
    OpeningAtOpenTag(e.tag, e.tag, e.attributes);
    NothingElseAtCloseTag(p, e.tag);
    ScanJoin(p, PrintElem(e, depth), 1, post, 0);
    ScanJoin(p, pre, 0, PrintElem(e, depth) + post, 1);
  }

  /** The texts of a printed element. */
  function PartsPrinted(e: Elem, depth: nat): Parts {
    Parts(PrintElem(e, depth), PrintAttributes(e.attributes), PrintContent(e.content, depth))
  }

  lemma PartsOfPrinted(pre: string, e: Elem, depth: nat, post: string)
    ensures SpanOf(pre, e, depth).open >= |Name(e.tag)| + 2
    ensures SpanOf(pre, e, depth).Stop() <= |pre + (PrintElem(e, depth) + post)|
    ensures PartsOf(pre + (PrintElem(e, depth) + post), Name(e.tag), SpanOf(pre, e, depth)) == PartsPrinted(e, depth)
  {
    PartsInContext(pre, Name(e.tag), PrintAttributes(e.attributes), PrintContent(e.content, depth), CloseTag(e.tag),
                   post, SpanOf(pre, e, depth));
  }

  // ----- Reading printed attributes -----

  function AttributeMap(attributes: seq<Attribute>, found: map<string, string>): map<string, string> {
    if attributes == [] then found
    else AttributeMap(attributes[1..], found[attributes[0].key := attributes[0].value])
  }

  lemma {:induction false} NameAtIs(key: string, rest: string)
    requires (forall c :: c in key ==> IsNameChar(c)) && rest != "" && !IsNameChar(rest[0])
    ensures NameAt(key + rest) == (key, rest)
  {
    if key == "" {
      assert key + rest == rest;
    } else {
      assert key[0] in key && (key + rest)[1..] == key[1..] + rest;
      NameAtIs(key[1..], rest);
      assert [key[0]] + key[1..] == key;
    }
  }

  lemma {:induction false} UpToIs(s: string, quote: char, rest: string)
    requires quote !in s
    ensures UpTo(s + [quote] + rest, quote) == Some((s, rest))
  {
    var all := s + [quote] + rest;
    if s != "" {
      assert all[1..] == s[1..] + [quote] + rest && all[0] in s;
      UpToIs(s[1..], quote, rest);
      assert [s[0]] + s[1..] == s;
    }
  }

  lemma ValueAtIs(value: string, rest: string)
    requires '"' !in value
    ensures ValueAt("=\"" + value + "\"" + rest) == Some((value, rest))
  {
    var s := "=\"" + value + "\"" + rest;
    var quoted := "\"" + value + "\"" + rest;
    assert s[1..] == quoted && TrimStart(s) == s && TrimStart(quoted) == quoted;
    assert quoted[1..] == value + ['"'] + rest;
    UpToIs(value, '"', rest);
  }

  lemma AttributeAtIs(a: Attribute, rest: string)
    requires TidyAttribute(a)
    ensures AttributeAt(PrintAttribute(a) + rest) == Some((a, rest))
  {
    var s := PrintAttribute(a) + rest;
    var behind := "=\"" + a.value + "\"" + rest;
    assert a.key[0] in a.key;
    assert s[1..] == a.key + behind;
    assert TrimStart(s[1..]) == s[1..] && TrimStart(s) == s[1..];
    NameAtIs(a.key, behind);
    ValueAtIs(a.value, rest);
  }

  lemma {:induction false} PlainIsDecoded(s: string)
    requires '&' !in s
    ensures DecodeXmlText(s) == s
  {
    NothingToReplace(s, "&lt;", "<");
    NothingToReplace(s, "&gt;", ">");
    NothingToReplace(s, "&quot;", "\"");
    NothingToReplace(s, "&apos;", "'");
    NothingToReplace(s, "&amp;", "&");
  }

  lemma NothingToReplace(s: string, pattern: string, replacement: string)
    requires pattern != "" && pattern[0] !in s
    ensures ReplaceAll(s, pattern, replacement) == s
  {
    PassOver(s, "", pattern, replacement);
    assert s + "" == s;
  }

  /** Printed attributes are read back. */
  lemma {:induction false} AttributesAreRead(attributes: seq<Attribute>, found: map<string, string>)
    requires TidyAttributes(attributes) && forall a :: a in attributes ==> a.key !in found
    ensures AttributesFrom(PrintAttributes(attributes), found) == Some(AttributeMap(attributes, found))
  {
    if attributes != [] {
      var (a, rest) := (attributes[0], PrintAttributes(attributes[1..]));
      assert a in attributes;
      assert forall b :: b in attributes[1..] ==> b in attributes;
      AttributeAtIs(a, rest);
      PlainIsDecoded(a.value);
      forall b | b in attributes[1..] ensures b.key !in found[a.key := a.value] {
        var i :| 0 <= i < |attributes[1..]| && attributes[1..][i] == b;
        assert attributes[i + 1] == b;
      }
      AttributesAreRead(attributes[1..], found[a.key := a.value]);
    }
  }

  /** What the reader makes of a printed element. */
  function ElementPrinted(e: Elem, depth: nat): XmlElement {
    XmlElement(PrintElem(e, depth), AttributeMap(e.attributes, map[]), PrintContent(e.content, depth))
  }

  lemma PartsAreBuilt(e: Elem, depth: nat)
    requires Tidy(e)
    ensures PartsPrinted(e, depth).Build() == Some(ElementPrinted(e, depth))
  {
    AttributesAreRead(e.attributes, map[]);
  }

  // ----- Rows -----

  lemma {:induction false} RowsSplit(rows: seq<Elem>, k: nat, depth: nat, gone: set<Tag>)
    requires k < |rows|
    ensures PrintRows(rows, depth, gone)
      == PrintRows(rows[..k], depth, gone) + (PrintRow(rows[k], depth, gone) + PrintRows(rows[k + 1..], depth, gone))
  {
    if k > 0 {
      RowsSplit(rows[1..], k - 1, depth, gone);
      assert rows[..k][1..] == rows[1..][..k - 1] && rows[1..][k..] == rows[k + 1..];
    }
  }

  function BeforeRow(rows: seq<Elem>, k: nat, depth: nat, gone: set<Tag>): string
    requires k < |rows|
  {
    PrintRows(rows[..k], depth, gone) + NewLine(depth)
  }

  function AfterRow(rows: seq<Elem>, k: nat, depth: nat, gone: set<Tag>): string
    requires k < |rows| && depth > 0
  {
    PrintRows(rows[k + 1..], depth, gone) + NewLine(depth - 1)
  }

  lemma BodySplit(rows: seq<Elem>, k: nat, depth: nat, gone: set<Tag>)
    requires k < |rows| && depth > 0
    ensures Body(rows, depth, gone)
      == BeforeRow(rows, k, depth, gone)
       + ((if rows[k].tag in gone then "" else PrintElem(rows[k], depth)) + AfterRow(rows, k, depth, gone))
  {
    RowsSplit(rows, k, depth, gone);
    Regrouped(PrintRows(rows[..k], depth, gone), NewLine(depth),
              if rows[k].tag in gone then "" else PrintElem(rows[k], depth),
              PrintRows(rows[k + 1..], depth, gone), NewLine(depth - 1));
  }

  lemma Regrouped(a: string, b: string, c: string, d: string, e: string)
    ensures (a + ((b + c) + d)) + e == (a + b) + (c + (d + e))
  {
  }

  lemma ScanOthers(p: Probe, rows: seq<Elem>, k: nat, depth: nat, gone: set<Tag>)
    requires k < |rows| && depth > 0 && TidyRows(rows) && Proper(p)
    requires forall i :: 0 <= i < |rows| && i != k ==> Misses(p, rows[i])
    ensures Scanned(p, BeforeRow(rows, k, depth, gone), 0) && Scanned(p, AfterRow(rows, k, depth, gone), 0)
  {
    ScanRows(p, rows[..k], depth, gone);
    ScanRows(p, rows[k + 1..], depth, gone);
    ScanPlain(p, NewLine(depth));
    ScanPlain(p, NewLine(depth - 1));
    ScanJoin(p, PrintRows(rows[..k], depth, gone), 0, NewLine(depth), 0);
    ScanJoin(p, PrintRows(rows[k + 1..], depth, gone), 0, NewLine(depth - 1), 0);
  }

  /** The rows around one row lack its name. */
  lemma ScanAround(p: Probe, rows: seq<Elem>, k: nat, depth: nat, gone: set<Tag>)
    requires k < |rows| && depth > 0 && TidyRows(rows) && Apart(rows)
    requires p == Opening(Name(rows[k].tag)) || p == End(Name(rows[k].tag))
    ensures Proper(p) && Scanned(p, BeforeRow(rows, k, depth, gone), 0) && Scanned(p, AfterRow(rows, k, depth, gone), 0)
  {
    var tag := rows[k].tag;
    NamesAreNames(tag);
    forall i | 0 <= i < |rows| && i != k ensures Misses(p, rows[i]) {
      LackingMisses(p, rows[i], tag);
    }
    ScanOthers(p, rows, k, depth, gone);
  }

  /** A name that another one goes on from is asked for only where it comes first. */
  lemma NoStartBefore(rows: seq<Elem>, k: nat, depth: nat)
    requires k < |rows| && TidyRows(rows) && Apart(rows) && (IsStem(rows[k].tag) ==> k == 0)
    ensures Hits(Start(Name(rows[k].tag)), BeforeRow(rows, k, depth, {})) == 0
  {
    var p := Start(Name(rows[k].tag));
    NamesAreNames(rows[k].tag);
    forall i | 0 <= i < k ensures Misses(p, rows[i]) {
      LackingMissesStart(rows[i], rows[k].tag);
    }
    ScanRows(p, rows[..k], depth, {});
    ScanPlain(p, NewLine(depth));
    ScanJoin(p, PrintRows(rows[..k], depth, {}), 0, NewLine(depth), 0);
  }

  /** The name of a row is counted once. */
  lemma CountInRows(rows: seq<Elem>, k: nat, depth: nat)
    requires k < |rows| && depth > 0 && TidyRows(rows) && Apart(rows)
    ensures OpeningTagCount(Body(rows, depth, {}), Name(rows[k].tag)) == 1
  {
    var e := rows[k];
    BodySplit(rows, k, depth, {});
    ScanAround(Opening(Name(e.tag)), rows, k, depth, {});
    LowerRankIsLacking(e, e.tag);
    CountIsOne(BeforeRow(rows, k, depth, {}), e, depth, AfterRow(rows, k, depth, {}));
  }

  /** Every row of a block is found by its name. */
  lemma SingleInRows(rows: seq<Elem>, k: nat, depth: nat)
    requires k < |rows| && depth > 0 && TidyRows(rows) && Apart(rows) && (IsStem(rows[k].tag) ==> k == 0)
    ensures OpeningTagCount(Body(rows, depth, {}), Name(rows[k].tag)) == 1
    ensures SingleElement(Body(rows, depth, {}), Name(rows[k].tag)) == Some(ElementPrinted(rows[k], depth))
  {
    var e := rows[k];
    BodySplit(rows, k, depth, {});
    ScanAround(Opening(Name(e.tag)), rows, k, depth, {});
    NoStartBefore(rows, k, depth);
    LowerRankIsLacking(e, e.tag);
    SingleIs(BeforeRow(rows, k, depth, {}), e, depth, AfterRow(rows, k, depth, {}));
    PartsAreBuilt(e, depth);
  }

  /** A name that occurs in no row is not found. */
  lemma AbsentInRows(rows: seq<Elem>, tag: Tag, depth: nat)
    requires depth > 0 && TidyRows(rows) && forall i :: 0 <= i < |rows| ==> Lacks(rows[i], tag)
    ensures OpeningTagCount(Body(rows, depth, {}), Name(tag)) == 0
  {
    var p := Opening(Name(tag));
    NamesAreNames(tag);
    forall i | 0 <= i < |rows| ensures Misses(p, rows[i]) {
      LackingMisses(p, rows[i], tag);
    }
    ScanRows(p, rows, depth, {});
    ScanPlain(p, NewLine(depth - 1));
    ScanJoin(p, PrintRows(rows, depth, {}), 0, NewLine(depth - 1), 0);
  }

  lemma {:induction false} NoMarkupInPlain(s: string)
    requires '<' !in s
    ensures !Has(Markup, s)
  {
    if s != "" {
      assert s[0] in s;
      NoMarkupInPlain(s[1..]);
    }
  }

  /** Every leaf is read with its text, without the white space at the ends. */
  lemma TextInRows(rows: seq<Elem>, k: nat, depth: nat, text: string)
    requires k < |rows| && depth > 0 && TidyRows(rows) && Apart(rows) && (IsStem(rows[k].tag) ==> k == 0)
    requires rows[k] == Leaf(rows[k].tag, text)
    ensures OpeningTagCount(Body(rows, depth, {}), Name(rows[k].tag)) == 1
    ensures TextChild(Body(rows, depth, {}), Name(rows[k].tag))
         == Some(TextElement(PrintElem(rows[k], depth), Trim(text)))
  {
    SingleInRows(rows, k, depth);
    EscapedHasNoAngle(text);
    NoMarkupInPlain(XmlText(text));
    DecodeOfTrimmedEscape(text);
  }

  // ----- Removing rows -----

  lemma OpenTagComesFirst(e: Elem, depth: nat, s: string)
    requires Tidy(e) && PrintElem(e, depth) <= s
    ensures Holds(Opening(Name(e.tag)), s)
  {
    var open := OpenTag(e.tag, e.attributes);
    NamesAreNames(e.tag);
    OpenTagIsMarkup(e.tag, e.attributes);
    OpeningAtOpenTag(e.tag, e.tag, e.attributes);
    assert open <= PrintElem(e, depth);
    assert s == open + s[|open|..];
    assert open[|open| - 1] in open;
    HoldsIsLocal(Opening(Name(e.tag)), open, s[|open|..]);
  }

  /** Cutting the first occurrence of a row's element out of what is left of the block takes out that row. */
  lemma RemoveInRows(rows: seq<Elem>, k: nat, depth: nat, gone: set<Tag>)
    requires k < |rows| && depth > 0 && TidyRows(rows) && Apart(rows) && rows[k].tag !in gone
    ensures RemoveFirst(Body(rows, depth, gone), PrintElem(rows[k], depth)) == Body(rows, depth, gone + {rows[k].tag})
  {
    var (e, p, more) := (rows[k], Opening(Name(rows[k].tag)), gone + {rows[k].tag});
    BodySplit(rows, k, depth, gone);
    BodySplit(rows, k, depth, more);
    ScanAround(p, rows, k, depth, gone);
    forall s: string | PrintElem(e, depth) <= s ensures Holds(p, s) {
      OpenTagComesFirst(e, depth, s);
    }
    RemoveFirstIs(p, BeforeRow(rows, k, depth, gone), PrintElem(e, depth), AfterRow(rows, k, depth, gone));
    GoneElsewhere(rows[..k], depth, gone, e.tag);
    GoneElsewhere(rows[k + 1..], depth, gone, e.tag);
    assert "" + AfterRow(rows, k, depth, more) == AfterRow(rows, k, depth, more);
  }

  lemma {:induction false} GoneElsewhere(rows: seq<Elem>, depth: nat, gone: set<Tag>, tag: Tag)
    requires forall i :: 0 <= i < |rows| ==> rows[i].tag != tag
    ensures PrintRows(rows, depth, gone + {tag}) == PrintRows(rows, depth, gone)
  {
    if rows != [] {
      GoneElsewhere(rows[1..], depth, gone, tag);
    }
  }

  predicate Blank(s: string) {
    forall c :: c in s ==> IsSpace(c)
  }

  lemma {:induction false} BlankIsTrimmedAway(s: string)
    requires Blank(s)
    ensures Trim(s) == ""
  {
    if s != "" {
      assert s[0] in s;
      BlankIsTrimmedAway(s[1..]);
    }
  }

  lemma {:induction false} GoneRowsAreBlank(rows: seq<Elem>, depth: nat, gone: set<Tag>)
    requires forall i :: 0 <= i < |rows| ==> rows[i].tag in gone
    ensures Blank(PrintRows(rows, depth, gone))
  {
    if rows != [] {
      GoneRowsAreBlank(rows[1..], depth, gone);
    }
  }

  /** Nothing but white space is left when every row is taken out. */
  lemma AllGone(rows: seq<Elem>, depth: nat, gone: set<Tag>)
    requires depth > 0 && forall i :: 0 <= i < |rows| ==> rows[i].tag in gone
    ensures Trim(Body(rows, depth, gone)) == ""
  {
    GoneRowsAreBlank(rows, depth, gone);
    BlankIsTrimmedAway(Body(rows, depth, gone));
  }
}
