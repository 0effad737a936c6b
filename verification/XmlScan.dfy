/** What the patterns of the task XML reader find (packages/dsh-luban-keepalive/src/windows-task.ts): opening, start
    and end tags by name, the leftmost element, its attributes, and what is left of a text when an element is cut
    out of it. */
module XmlScan {
  import opened Wrappers
  import opened Text
  import opened XmlEntities

  // The regular expressions are functions on strings; all of them start at a `<` and ignore case.

  /** Case folding of the characters that fold to an ASCII letter: two letters beyond ASCII do. */
  function Fold(c: char): char {
    if 'A' <= c <= 'Z' then (c as int + 32) as char
    else if c == '\U{17F}' then 's'
    else if c == '\U{212A}' then 'k'
    else c
  }

  predicate IsLetter(c: char) {
    'a' <= c <= 'z' || 'A' <= c <= 'Z'
  }

  /** An element name as the reader asks for it. */
  predicate IsName(name: string) {
    name != "" && forall i :: 0 <= i < |name| ==> IsLetter(name[i])
  }

  predicate StartsWith(s: string, name: string) {
    |name| <= |s| && forall i :: 0 <= i < |name| ==> Fold(s[i]) == Fold(name[i])
  }

  /** Length of the white space at the start. */
  function Spaces(s: string): (n: nat)
    ensures n <= |s|
  {
    if s == "" || !IsSpace(s[0]) then 0 else 1 + Spaces(s[1..])
  }

  /** Position of the first angle bracket of either kind. */
  function AngleAt(s: string): (r: Option<nat>)
    ensures r.Some? ==> r.value < |s|
  {
    if s == "" then None
    else if s[0] == '<' || s[0] == '>' then Some(0)
    else
      match AngleAt(s[1..])
      case None => None
      case Some(i) => Some(i + 1)
  }

  // ----- The patterns, matched at the start of a text -----

  /** `<name(?:\s|>|\/)` */
  predicate OpensTag(s: string, name: string) {
    |s| >= |name| + 2 && s[0] == '<' && StartsWith(s[1..], name)
    && (IsSpace(s[1 + |name|]) || s[1 + |name|] == '>' || s[1 + |name|] == '/')
  }

  /** Length of `<name[^<>]*>`; a longer name with this one in front matches too. */
  function StartLength(s: string, name: string): (r: Option<nat>)
    ensures r.Some? ==> |name| + 2 <= r.value <= |s|
  {
    if s == "" || s[0] != '<' || !StartsWith(s[1..], name) then None
    else
      match AngleAt(s[1 + |name|..])
      case None => None
      case Some(k) => if s[1 + |name| + k] == '>' then Some(|name| + k + 2) else None
  }

  /** Length of `<\/name\s*>`. */
  function EndLength(s: string, name: string): (r: Option<nat>)
    ensures r.Some? ==> |name| + 3 <= r.value <= |s|
  {
    if |s| < 2 || s[0] != '<' || s[1] != '/' || !StartsWith(s[2..], name) then None
    else
      var at := 2 + |name| + Spaces(s[2 + |name|..]);
      if at < |s| && s[at] == '>' then Some(at + 1) else None
  }

  /** `<!DOCTYPE|<!ENTITY` */
  predicate Declares(s: string) {
    s != "" && s[0] == '<' && (StartsWith(s[1..], "!DOCTYPE") || StartsWith(s[1..], "!ENTITY"))
  }

  /** `<[^>]+>` */
  predicate IsMarkup(s: string) {
    |s| > 2 && s[0] == '<' && s[1] != '>' && '>' in s[2..]
  }

  /** `<name\s*\/>` */
  predicate SelfCloses(s: string, name: string) {
    s != "" && s[0] == '<' && StartsWith(s[1..], name)
    && var at := 1 + |name| + Spaces(s[1 + |name|..]); at + 1 < |s| && s[at] == '/' && s[at + 1] == '>'
  }

  /** `^<name\s*\/>$` */
  predicate IsSelfClosed(s: string, name: string) {
    SelfCloses(s, name) && 1 + |name| + Spaces(s[1 + |name|..]) + 2 == |s|
  }

  // ----- Searches -----

  datatype Probe =
    | Opening(name: string) | Start(name: string) | End(name: string) | Declaration | Markup | SelfClosing(name: string)

  predicate Holds(p: Probe, s: string) {
    match p
    case Opening(name) => OpensTag(s, name)
    case Start(name) => StartLength(s, name).Some?
    case End(name) => EndLength(s, name).Some?
    case Declaration => Declares(s)
    case Markup => IsMarkup(s)
    case SelfClosing(name) => SelfCloses(s, name)
  }

  /** The number of positions at which the pattern matches. */
  function Hits(p: Probe, s: string): nat {
    if s == "" then 0 else (if Holds(p, s) then 1 else 0) + Hits(p, s[1..])
  }

  /** Matches of the opening pattern hold one `<` each, so that no two overlap: all positions count. */
  function OpeningTagCount(xml: string, tag: string): nat {
    Hits(Opening(tag), xml)
  }

  predicate Has(p: Probe, s: string) {
    Hits(p, s) > 0
  }

  /** Where the first end tag begins and how long it is. */
  function FindEnd(s: string, name: string): (r: Option<(nat, nat)>)
    ensures r.Some? ==> r.value.0 + r.value.1 <= |s|
  {
    if s == "" then None
    else if EndLength(s, name).Some? then Some((0, EndLength(s, name).value))
    else
      match FindEnd(s[1..], name)
      case None => None
      case Some((i, n)) => Some((i + 1, n))
  }

  /** A match of `<name([^<>]*)>([\s\S]*?)<\/name\s*>`: where it starts and how long its three parts are. */
  datatype Span = Span(start: nat, open: nat, inner: nat, close: nat) {
    function Stop(): nat {
      start + open + inner + close
    }
  }

  function ElementHere(s: string, name: string): (r: Option<Span>)
    ensures r.Some? ==> r.value.start == 0 && r.value.open >= |name| + 2 && r.value.Stop() <= |s|
  {
    match StartLength(s, name)
    case None => None
    case Some(open) =>
      match FindEnd(s[open..], name)
      case None => None
      case Some((inner, close)) => Some(Span(0, open, inner, close))
  }

  /** The leftmost match. */
  function FindElement(s: string, name: string): (r: Option<Span>)
    ensures r.Some? ==> r.value.open >= |name| + 2 && r.value.Stop() <= |s|
  {
    if s == "" then None
    else if ElementHere(s, name).Some? then ElementHere(s, name)
    else
      match FindElement(s[1..], name)
      case None => None
      case Some(m) => Some(m.(start := m.start + 1))
  }

  // ----- Attributes -----

  predicate IsNameStart(c: char) {
    IsLetter(c) || c == '_'
  }

  predicate IsNameChar(c: char) {
    IsNameStart(c) || '0' <= c <= '9' || c == '.' || c == '-'
  }

  datatype Attribute = Attribute(key: string, value: string)

  /** The longest name at the start, and the rest. */
  function NameAt(s: string): (r: (string, string))
    ensures |r.0| + |r.1| == |s|
  {
    if s == "" || !IsNameChar(s[0]) then ("", s)
    else
      var (name, rest) := NameAt(s[1..]);
      ([s[0]] + name, rest)
  }

  /** What stands before the next `quote`, and what stands behind it. */
  function UpTo(s: string, quote: char): (r: Option<(string, string)>)
    ensures r.Some? ==> |r.value.1| < |s|
  {
    if s == "" then None
    else if s[0] == quote then Some(("", s[1..]))
    else
      match UpTo(s[1..], quote)
      case None => None
      case Some((before, behind)) => Some(([s[0]] + before, behind))
  }

  /** `(?:"([^"]*)"|'([^']*)')` at the start. */
  function QuotedAt(s: string): (r: Option<(string, string)>)
    ensures r.Some? ==> |r.value.1| < |s|
  {
    if s == "" || (s[0] != '"' && s[0] != '\'') then None else UpTo(s[1..], s[0])
  }

  /** `\s*=\s*` and a quoted text. */
  function ValueAt(s: string): (r: Option<(string, string)>)
    ensures r.Some? ==> |r.value.1| < |s|
  {
    var b := TrimStart(s);
    if b == "" || b[0] != '=' then None else QuotedAt(TrimStart(b[1..]))
  }

  /** One attribute at the start, and the rest. */
  function AttributeAt(s: string): (r: Option<(Attribute, string)>)
    ensures r.Some? ==> |r.value.1| < |s|
  {
    var (name, behind) := NameAt(TrimStart(s));
    if name == "" || !IsNameStart(name[0]) then None
    else
      match ValueAt(behind)
      case None => None
      case Some((value, rest)) => Some((Attribute(name, value), rest))
  }

  /** Assigning a text to the key `__proto__` of a plain object changes nothing. */
  function Recorded(attributes: map<string, string>, found: Attribute): map<string, string> {
    if found.key == "__proto__" then attributes else attributes[found.key := DecodeXmlText(found.value)]
  }

  /** Reads one attribute into those already found; it must not have been found before. */
  function Advance(s: string, found: map<string, string>): (r: Option<(string, map<string, string>)>)
    ensures r.Some? ==> |r.value.0| < |s|
  {
    match AttributeAt(s)
    case None => None
    case Some((attribute, rest)) => if attribute.key in found then None else Some((rest, Recorded(found, attribute)))
  }

  /** Reads attributes until nothing is left; anything else left over is an error. */
  function AttributesFrom(s: string, found: map<string, string>): Option<map<string, string>>
    decreases |s|
  {
    if s == "" then Some(found)
    else
      match Advance(s, found)
      case None => None
      case Some((rest, more)) => AttributesFrom(rest, more)
  }

  method ParseAttributes(value: string) returns (attributes: Option<map<string, string>>)
    ensures attributes == AttributesFrom(value, map[])
  {
    var found: map<string, string> := map[];
    var rest := value;
    while rest != ""
      invariant AttributesFrom(rest, found) == AttributesFrom(value, map[])
      decreases |rest|
    {
      var next := Advance(rest, found);
      if next.None? {
        return None;
      }
      rest, found := next.value.0, next.value.1;
    }
    return Some(found);
  }

  // ----- Elements -----

  datatype XmlElement = XmlElement(full: string, attributes: map<string, string>, inner: string)

  /** The texts of an element: all of it, what stands behind the name in its open tag, and what it encloses. */
  datatype Parts = Parts(full: string, attributes: string, inner: string) {
    function Build(): Option<XmlElement> {
      match AttributesFrom(attributes, map[])
      case None => None
      case Some(found) => Some(XmlElement(full, found, inner))
    }
  }

  function PartsOf(xml: string, tag: string, m: Span): Parts
    requires m.open >= |tag| + 2 && m.Stop() <= |xml|
  {
    var body := m.start + m.open;
    Parts(xml[m.start..m.Stop()], xml[m.start + 1 + |tag|..body - 1], xml[body..body + m.inner])
  }

  /** The only element of that name; `None` when there are none or several. */
  function SingleElement(xml: string, tag: string): Option<XmlElement> {
    if OpeningTagCount(xml, tag) != 1 then None
    else
      match FindElement(xml, tag)
      case None => None
      case Some(m) => PartsOf(xml, tag, m).Build()
  }

  datatype TextElement = TextElement(full: string, value: string)

  /** The only element of that name, when it has no attributes and no markup inside. */
  function TextChild(parent: string, tag: string): Option<TextElement> {
    match SingleElement(parent, tag)
    case None => None
    case Some(element) =>
      if element.attributes != map[] || Has(Markup, element.inner) then None
      else Some(TextElement(element.full, DecodeXmlText(Trim(element.inner))))
  }

  /** `text.replace(part, '')` */
  function RemoveFirst(text: string, part: string): string {
    if part <= text then text[|part|..]
    else if text == "" then ""
    else [text[0]] + RemoveFirst(text[1..], part)
  }

  // ----- Texts whose markup is complete -----

  /** Every `<` has a `>` behind it. */
  predicate Closed(s: string) {
    s == "" || ((s[0] == '<' ==> '>' in s) && Closed(s[1..]))
  }

  /** The patterns ask for names, not for markup; only these take part in the reasoning below. */
  predicate Proper(p: Probe) {
    match p
    case Opening(name) => IsName(name)
    case Start(name) => IsName(name)
    case End(name) => IsName(name)
    case Declaration => true
    case Markup => false
    case SelfClosing(name) => false
  }

  lemma {:induction false} AngleWithin(x: string, y: string)
    requires AngleAt(x).Some?
    ensures AngleAt(x + y) == AngleAt(x)
  {
    if !(x[0] == '<' || x[0] == '>') {
      assert (x + y)[1..] == x[1..] + y;
      AngleWithin(x[1..], y);
    }
  }

  lemma {:induction false} SpacesWithin(x: string, y: string)
    requires Spaces(x) < |x|
    ensures Spaces(x + y) == Spaces(x)
  {
    if IsSpace(x[0]) {
      assert (x + y)[1..] == x[1..] + y;
      SpacesWithin(x[1..], y);
    }
  }

  /** A name cannot reach over a `>`. */
  lemma StartsWithin(x: string, y: string, name: string)
    requires '>' in x && forall i :: 0 <= i < |name| ==> Fold(name[i]) != '>'
    ensures StartsWith(x + y, name) == StartsWith(x, name)
    ensures StartsWith(x, name) ==> |name| < |x| && '>' in x[|name|..]
  {
    var k :| 0 <= k < |x| && x[k] == '>';
    assert (x + y)[k] == '>' && Fold('>') == '>';
    if StartsWith(x, name) {
      assert k >= |name|;
      assert x[|name|..][k - |name|] == '>';
    }
    if StartsWith(x + y, name) {
      assert k >= |name|;
    }
  }

  lemma {:induction false} AngleInside(x: string)
    requires '>' in x
    ensures AngleAt(x).Some?
  {
    if x[0] != '<' && x[0] != '>' {
      AngleInside(x[1..]);
    }
  }

  lemma {:induction false} SpacesInside(x: string)
    requires '>' in x
    ensures Spaces(x) < |x|
  {
    if IsSpace(x[0]) {
      SpacesInside(x[1..]);
    }
  }

  lemma StartIsLocal(x: string, y: string, name: string)
    requires x != "" && x[0] == '<' && '>' in x && IsName(name)
    ensures StartLength(x + y, name) == StartLength(x, name)
  {
    assert (x + y)[1..] == x[1..] + y && '>' in x[1..];
    StartsWithin(x[1..], y, name);
    if StartsWith(x[1..], name) {
      var rest := x[1 + |name|..];
      assert x[1..][|name|..] == rest && (x + y)[1 + |name|..] == rest + y;
      AngleInside(rest);
      AngleWithin(rest, y);
    }
  }

  lemma EndIsLocal(x: string, y: string, name: string)
    requires x != "" && x[0] == '<' && '>' in x && IsName(name)
    ensures EndLength(x + y, name) == EndLength(x, name)
  {
    assert (x + y)[1..] == x[1..] + y && '>' in x[1..];
    if x[1] == '/' {
      assert x[1..] == ['/'] + x[2..] && '>' in x[2..];
      assert (x + y)[2..] == x[2..] + y;
      StartsWithin(x[2..], y, name);
      if StartsWith(x[2..], name) {
        var rest := x[2 + |name|..];
        assert x[2..][|name|..] == rest && (x + y)[2 + |name|..] == rest + y;
        SpacesInside(rest);
        SpacesWithin(rest, y);
      }
    }
  }

  /** Whether a pattern matches at a `<` is settled by the `>` behind it. */
  lemma HoldsIsLocal(p: Probe, x: string, y: string)
    requires x != "" && x[0] == '<' && '>' in x && Proper(p)
    ensures Holds(p, x + y) == Holds(p, x)
  {
    match p
    case Opening(name) =>
      assert (x + y)[1..] == x[1..] + y && '>' in x[1..];
      StartsWithin(x[1..], y, name);
    case Start(name) => StartIsLocal(x, y, name);
    case End(name) => EndIsLocal(x, y, name);
    case Declaration =>
      assert (x + y)[1..] == x[1..] + y && '>' in x[1..];
      StartsWithin(x[1..], y, "!DOCTYPE");
      StartsWithin(x[1..], y, "!ENTITY");
  }

  lemma {:induction false} HitsAppend(p: Probe, a: string, b: string)
    requires Closed(a) && Proper(p)
    ensures Hits(p, a + b) == Hits(p, a) + Hits(p, b)
  {
    if a == "" {
      assert a + b == b;
    } else {
      HitsAppend(p, a[1..], b);
      assert (a + b)[1..] == a[1..] + b;
      HoldsOnBoth(p, a, b);
    }
  }

  lemma HoldsOnBoth(p: Probe, a: string, b: string)
    requires Closed(a) && Proper(p) && a != ""
    ensures Holds(p, a + b) == Holds(p, a)
  {
    if a[0] == '<' {
      HoldsIsLocal(p, a, b);
    } else {
      assert (a + b)[0] == a[0];
    }
  }

  lemma {:induction false} ClosedAppend(a: string, b: string)
    requires Closed(a) && Closed(b)
    ensures Closed(a + b)
  {
    if a == "" {
      assert a + b == b;
    } else {
      ClosedAppend(a[1..], b);
      assert (a + b)[1..] == a[1..] + b;
    }
  }

  lemma {:induction false} PlainHasNoHits(p: Probe, s: string)
    requires '<' !in s && Proper(p)
    ensures Hits(p, s) == 0 && Closed(s)
  {
    if s != "" {
      PlainHasNoHits(p, s[1..]);
      assert s[0] in s;
    }
  }

  /** A piece of markup matches at its own `<` or nowhere. */
  lemma HitsOfMarkup(p: Probe, s: string)
    requires |s| >= 2 && s[0] == '<' && s[|s| - 1] == '>' && '<' !in s[1..] && Proper(p)
    ensures Hits(p, s) == (if Holds(p, s) then 1 else 0) && Closed(s)
  {
    PlainHasNoHits(p, s[1..]);
  }

  // ----- Finding an element in its context -----

  lemma {:induction false} FindEndIs(inner: string, close: string, post: string, name: string)
    requires Closed(inner) && Hits(End(name), inner) == 0 && IsName(name)
    requires EndLength(close + post, name) == Some(|close|) && close != ""
    ensures FindEnd(inner + (close + post), name) == Some((|inner|, |close|))
  {
    var s := inner + (close + post);
    if inner == "" {
      assert s == close + post;
    } else {
      HoldsOnBoth(End(name), inner, close + post);
      assert s[1..] == inner[1..] + (close + post);
      FindEndIs(inner[1..], close, post, name);
    }
  }

  lemma ElementHereIs(open: string, inner: string, close: string, post: string, name: string)
    requires IsName(name) && Closed(inner) && Hits(End(name), inner) == 0
    requires StartLength(open + (inner + (close + post)), name) == Some(|open|)
    requires EndLength(close + post, name) == Some(|close|) && close != ""
    ensures ElementHere(open + (inner + (close + post)), name) == Some(Span(0, |open|, |inner|, |close|))
  {
    var rest := inner + (close + post);
    assert (open + rest)[|open|..] == rest;
    FindEndIs(inner, close, post, name);
  }

  lemma {:induction false} FindElementIs(pre: string, rest: string, m: Span, name: string)
    requires IsName(name) && Closed(pre) && Hits(Start(name), pre) == 0
    requires ElementHere(rest, name) == Some(m) && m.start == 0
    ensures FindElement(pre + rest, name) == Some(m.(start := |pre|))
  {
    var s := pre + rest;
    if pre == "" {
      assert s == rest;
    } else {
      HoldsOnBoth(Start(name), pre, rest);
      assert s[1..] == pre[1..] + rest;
      FindElementIs(pre[1..], rest, m, name);
    }
  }

  // ----- Removing an element -----

  lemma RemoveHere(part: string, post: string)
    ensures RemoveFirst(part + post, part) == post
  {
    assert (part + post)[|part|..] == post;
  }

  lemma RemoveLater(c: char, rest: string, part: string)
    requires !(part <= [c] + rest)
    ensures RemoveFirst([c] + rest, part) == [c] + RemoveFirst(rest, part)
  {
    assert ([c] + rest)[1..] == rest;
  }

  /** A part that begins with something the pattern finds is cut out behind a text in which the pattern finds
      nothing. */
  lemma {:induction false} RemoveFirstIs(p: Probe, pre: string, part: string, post: string)
    requires Proper(p) && Closed(pre) && Hits(p, pre) == 0
    requires forall s: string :: part <= s ==> Holds(p, s)
    ensures RemoveFirst(pre + (part + post), part) == pre + post
  {
    if pre == "" {
      assert pre + (part + post) == part + post && pre + post == post;
      RemoveHere(part, post);
    } else {
      var (c, rest) := (pre[0], pre[1..]);
      HoldsOnBoth(p, pre, part + post);
      assert pre + (part + post) == [c] + (rest + (part + post)) && pre + post == [c] + (rest + post);
      RemoveLater(c, rest + (part + post), part);
      RemoveFirstIs(p, rest, part, post);
    }
  }

  // ----- A pattern at a tag of its own name, or of another kind -----

  /** Only the end pattern looks for a slash behind the `<`. */
  lemma NotAtSlash(p: Probe, s: string)
    requires Proper(p) && !p.End? && |s| >= 2 && (s[1] == '/' || s[1] == '?')
    ensures !Holds(p, s)
  {
    assert s[1..][0] == s[1] && Fold(s[1]) == s[1];
    match p {
      case Opening(name) => assert IsLetter(name[0]);
      case Start(name) => assert IsLetter(name[0]);
      case Declaration => assert Fold("!DOCTYPE"[0]) == '!' && Fold("!ENTITY"[0]) == '!';
    }
  }

  /** Neither the end pattern nor the declaration pattern looks for a letter behind the `<`. */
  lemma NotAtLetter(p: Probe, s: string)
    requires (p.End? || p.Declaration?) && |s| >= 2 && IsLetter(s[1])
    ensures !Holds(p, s)
  {
    assert s[1..][0] == s[1] && Fold(s[1]) != '!';
    assert Fold("!DOCTYPE"[0]) == '!' && Fold("!ENTITY"[0]) == '!';
  }

  lemma StartsWithItself(name: string, rest: string)
    ensures StartsWith(name + rest, name)
  {
  }

  lemma OpensOwnTag(name: string, behind: string, rest: string)
    requires behind == "" || behind[0] == ' '
    ensures OpensTag("<" + (name + behind) + ">" + rest, name)
  {
    var s := "<" + (name + behind) + ">" + rest;
    assert s[1..] == name + (behind + ">" + rest);
    StartsWithItself(name, behind + ">" + rest);
    assert s[1 + |name|] == (behind + ">" + rest)[0];
  }

  lemma {:induction false} AngleBehind(s: string, rest: string)
    requires '<' !in s && '>' !in s
    ensures AngleAt(s + ">" + rest) == Some(|s|)
  {
    var all := s + ">" + rest;
    if s != "" {
      assert all[1..] == s[1..] + ">" + rest;
      assert all[0] in s;
      AngleBehind(s[1..], rest);
    }
  }

  lemma StartOfOwnTag(name: string, behind: string, rest: string)
    requires '<' !in behind && '>' !in behind
    ensures StartLength("<" + (name + behind) + ">" + rest, name) == Some(|name| + |behind| + 2)
  {
    var s := "<" + (name + behind) + ">" + rest;
    assert s[1..] == name + (behind + ">" + rest);
    StartsWithItself(name, behind + ">" + rest);
    assert s[1 + |name|..] == behind + ">" + rest;
    AngleBehind(behind, rest);
  }

  function CloseText(name: string): string {
    "</" + name + ">"
  }

  lemma CloseTextParts(name: string)
    ensures CloseText(name)[1] == '/' && CloseText(name)[2..] == name + ">" && CloseText(name)[1..] == "/" + name + ">"
  {
  }

  lemma EndOfOwnTag(name: string, rest: string)
    ensures EndLength(CloseText(name) + rest, name) == Some(|CloseText(name)|)
  {
    var s := CloseText(name) + rest;
    assert s[2..] == name + (">" + rest);
    StartsWithItself(name, ">" + rest);
    assert s[2 + |name|..] == ">" + rest;
    assert Spaces(">" + rest) == 0;
  }

  /** A character that ends a name. */
  predicate EndsName(c: char) {
    IsSpace(c) || c == '>' || c == '/'
  }

  /** What begins with `printed`, which ends there, begins with no longer name. */
  lemma NoLongerName(s: string, printed: string, name: string)
    requires |s| > |printed| && s[..|printed|] == printed && EndsName(s[|printed|])
    requires IsName(name) && StartsWith(s, name)
    ensures |name| <= |printed| && StartsWith(printed, name)
  {
    assert |name| <= |printed|;
    assert forall i :: 0 <= i < |printed| ==> printed[i] == s[i];
  }

  /** The end pattern of a name does not match the end tag of a name that is not begun by it, or goes on behind it. */
  lemma EndNotAtOther(name: string, printed: string)
    requires IsName(name) && IsName(printed) && (StartsWith(printed, name) ==> |name| < |printed|)
    ensures EndLength(CloseText(printed), name).None?
  {
    var (s, n) := (CloseText(printed), |name|);
    CloseTextParts(printed);
    if StartsWith(s[2..], name) {
      assert s[2..][..|printed|] == printed && s[2..][|printed|] == '>';
      NoLongerName(s[2..], printed, name);
      assert IsLetter(printed[n]) && s[2 + n..][0] == printed[n];
    }
  }

  lemma SingleThrough(xml: string, tag: string, m: Span)
    requires OpeningTagCount(xml, tag) == 1 && FindElement(xml, tag) == Some(m)
    ensures SingleElement(xml, tag) == PartsOf(xml, tag, m).Build()
  {
  }

  /** `part` stands in `xml` behind `i` characters. */
  ghost predicate StandsAt(xml: string, i: nat, part: string) {
    i + |part| <= |xml| && xml[i..i + |part|] == part
  }

  lemma StandsInside(a: string, b: string, c: string)
    ensures StandsAt(a + (b + c), |a|, b)
  {
  }

  lemma StandsWithin(xml: string, i: nat, a: string, b: string, c: string)
    requires StandsAt(xml, i, a + (b + c))
    ensures StandsAt(xml, i + |a|, b)
  {
    var part := a + (b + c);
    StandsInside(a, b, c);
    var cut := xml[i..i + |part|];
    var there := xml[i + |a|..i + |a| + |b|];
    assert cut == part && part[|a|..|a| + |b|] == b;
    forall k | 0 <= k < |b| ensures there[k] == b[k] {
      assert there[k] == cut[|a| + k] == part[|a| + k] == part[|a|..|a| + |b|][k];
    }
  }

  function TagText(name: string, attributes: string): string {
    "<" + (name + attributes) + ">"
  }

  lemma PartsStand(pre: string, name: string, attributes: string, content: string, close: string, post: string)
    ensures var xml := pre + ((TagText(name, attributes) + (content + close)) + post);
            var n := |name| + |attributes| + 2;
            StandsAt(xml, |pre|, TagText(name, attributes) + (content + close)) && StandsAt(xml, |pre| + n, content)
            && StandsAt(xml, |pre| + 1 + |name|, attributes)
  {
    var (open, rest) := (TagText(name, attributes), content + close);
    var xml := pre + ((open + rest) + post);
    StandsInside(pre, open + rest, post);
    StandsWithin(xml, |pre|, open, content, close);
    assert open + rest == ("<" + name) + (attributes + (">" + rest));
    StandsWithin(xml, |pre|, "<" + name, attributes, ">" + rest);
  }

  lemma PartsAre(xml: string, name: string, full: string, attributes: string, inner: string, m: Span)
    requires m.open == |name| + |attributes| + 2 && m.inner == |inner| && m.open + m.inner + m.close == |full|
    requires StandsAt(xml, m.start, full) && StandsAt(xml, m.start + m.open, inner)
    requires StandsAt(xml, m.start + 1 + |name|, attributes)
    ensures PartsOf(xml, name, m) == Parts(full, attributes, inner)
  {
    assert m.Stop() == m.start + |full|;
  }

  /** The three texts of an element that is cut out of its context. */
  lemma PartsInContext(pre: string, name: string, attributes: string, content: string, close: string, post: string,
                       m: Span)
    requires m == Span(|pre|, |name| + |attributes| + 2, |content|, |close|)
    ensures var full := TagText(name, attributes) + (content + close);
            var xml := pre + (full + post);
            m.Stop() <= |xml| && PartsOf(xml, name, m) == Parts(full, attributes, content)
  {
    var full := TagText(name, attributes) + (content + close);
    PartsStand(pre, name, attributes, content, close, post);
    PartsAre(pre + (full + post), name, full, attributes, content, m);
  }
}
