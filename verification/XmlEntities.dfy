/** Entity escaping of task XML (packages/dsh-luban-keepalive/src/windows-task.ts): five replacements one after
    another are one pass that escapes every special character once, and decoding undoes it, trimmed or not. */
module XmlEntities {
  import opened Text

  /** Replaces every occurrence, from left to right, without looking at what was put in. */
  function ReplaceAll(s: string, pattern: string, replacement: string): string
    requires pattern != ""
    decreases |s|
  {
    if s == "" then ""
    else if pattern <= s then replacement + ReplaceAll(s[|pattern|..], pattern, replacement)
    else [s[0]] + ReplaceAll(s[1..], pattern, replacement)
  }

  function XmlText(value: string): string {
    var a := ReplaceAll(value, "&", "&amp;");
    var b := ReplaceAll(a, "<", "&lt;");
    var c := ReplaceAll(b, ">", "&gt;");
    var d := ReplaceAll(c, "\"", "&quot;");
    ReplaceAll(d, "'", "&apos;")
  }

  function DecodeXmlText(value: string): string {
    var a := ReplaceAll(value, "&lt;", "<");
    var b := ReplaceAll(a, "&gt;", ">");
    var c := ReplaceAll(b, "&quot;", "\"");
    var d := ReplaceAll(c, "&apos;", "'");
    ReplaceAll(d, "&amp;", "&")
  }

  // ----- Character by character -----

  predicate IsSpecial(c: char) {
    c == '&' || c == '<' || c == '>' || c == '"' || c == '\''
  }

  function Entity(c: char): (e: string)
    requires IsSpecial(c)
    ensures |e| >= 4 && e[0] == '&' && '&' !in e[1..]
    ensures '<' !in e && '>' !in e && !IsSpace(e[|e| - 1])
  {
    match c
    case '&' => "&amp;"
    case '<' => "&lt;"
    case '>' => "&gt;"
    case '"' => "&quot;"
    case _ => "&apos;"
  }

  function Encoded(c: char, plain: set<char>): string {
    if IsSpecial(c) && c !in plain then Entity(c) else [c]
  }

  /** `s` with every special character as its entity, except those that are left plain. */
  function Encoding(s: string, plain: set<char>): string {
    if s == "" then "" else Encoded(s[0], plain) + Encoding(s[1..], plain)
  }

  lemma EncodingStep(c: char, rest: string, plain: set<char>)
    ensures Encoding([c] + rest, plain) == Encoded(c, plain) + Encoding(rest, plain)
  {
    assert ([c] + rest)[1..] == rest;
  }

  lemma Associates(a: string, b: string, c: string)
    ensures a + (b + c) == (a + b) + c
  {
  }

  lemma {:induction false} EncodingAppend(a: string, b: string, plain: set<char>)
    ensures Encoding(a + b, plain) == Encoding(a, plain) + Encoding(b, plain)
  {
    if a == "" {
      assert a + b == b;
    } else {
      var (c, rest) := (a[0], a[1..]);
      assert a == [c] + rest;
      Associates([c], rest, b);
      EncodingStep(c, rest, plain);
      EncodingStep(c, rest + b, plain);
      EncodingAppend(rest, b, plain);
      Associates(Encoded(c, plain), Encoding(rest, plain), Encoding(b, plain));
    }
  }

  /** A stretch without the pattern's first character is passed over. */
  lemma {:induction false} PassOver(s: string, rest: string, pattern: string, replacement: string)
    requires pattern != "" && pattern[0] !in s
    ensures ReplaceAll(s + rest, pattern, replacement) == s + ReplaceAll(rest, pattern, replacement)
  {
    if s == "" {
      assert s + rest == rest;
    } else {
      var all := s + rest;
      assert all[0] == s[0] && all[1..] == s[1..] + rest;
      PassOver(s[1..], rest, pattern, replacement);
      assert [s[0]] + (s[1..] + ReplaceAll(rest, pattern, replacement)) == s + ReplaceAll(rest, pattern, replacement);
    }
  }

  lemma PassEntity(e: string, rest: string, pattern: string, replacement: string)
    requires pattern != "" && e != "" && !(pattern <= e + rest) && pattern[0] !in e[1..]
    ensures ReplaceAll(e + rest, pattern, replacement) == e + ReplaceAll(rest, pattern, replacement)
  {
    var all := e + rest;
    assert all[0] == e[0] && all[1..] == e[1..] + rest;
    PassOver(e[1..], rest, pattern, replacement);
    assert [e[0]] + (e[1..] + ReplaceAll(rest, pattern, replacement)) == e + ReplaceAll(rest, pattern, replacement);
  }

  lemma ReplaceHead(pattern: string, rest: string, replacement: string)
    requires pattern != ""
    ensures ReplaceAll(pattern + rest, pattern, replacement) == replacement + ReplaceAll(rest, pattern, replacement)
  {
    assert (pattern + rest)[|pattern|..] == rest;
  }

  // ----- Escaping -----

  /** One replacement turns one more character into its entity, when no entity brings that character in. */
  lemma {:induction false} EscapeStep(s: string, plain: set<char>, c: char)
    requires IsSpecial(c) && c in plain
    requires forall d :: IsSpecial(d) && d !in plain ==> c !in Entity(d)
    ensures ReplaceAll(Encoding(s, plain), [c], Entity(c)) == Encoding(s, plain - {c})
  {
    if s != "" {
      EscapeStep(s[1..], plain, c);
      var rest := Encoding(s[1..], plain);
      if s[0] == c {
        ReplaceHead([c], rest, Entity(c));
      } else {
        PassOver(Encoded(s[0], plain), rest, [c], Entity(c));
      }
    }
  }

  lemma {:induction false} AllPlain(s: string, plain: set<char>)
    requires forall c :: IsSpecial(c) ==> c in plain
    ensures Encoding(s, plain) == s
  {
    if s != "" {
      AllPlain(s[1..], plain);
    }
  }

  /** `EscapeStep` on a text that is already known to be an encoding. */
  lemma EscapeNext(s: string, text: string, plain: set<char>, c: char, left: set<char>)
    requires IsSpecial(c) && c in plain && left == plain - {c} && text == Encoding(s, plain)
    requires forall d :: IsSpecial(d) && d !in plain ==> c !in Entity(d)
    ensures ReplaceAll(text, [c], Entity(c)) == Encoding(s, left)
  {
    EscapeStep(s, plain, c);
  }

  /** The five replacements escape every special character exactly once. */
  lemma XmlTextIsEncoding(s: string)
    ensures XmlText(s) == Encoding(s, {})
  {
    var c := ReplaceAll(ReplaceAll(ReplaceAll(s, "&", "&amp;"), "<", "&lt;"), ">", "&gt;");
    MarkupIsEscaped(s);
    var d := ReplaceAll(c, "\"", "&quot;");
    EscapeNext(s, c, {'"', '\''}, '"', {'\''});
    EscapeNext(s, d, {'\''}, '\'', {});
  }

  /** The first three replacements leave the quotes plain. */
  lemma MarkupIsEscaped(s: string)
    ensures ReplaceAll(ReplaceAll(ReplaceAll(s, "&", "&amp;"), "<", "&lt;"), ">", "&gt;") == Encoding(s, {'"', '\''})
  {
    AllPlain(s, {'&', '<', '>', '"', '\''});
    var a := ReplaceAll(s, "&", "&amp;");
    EscapeNext(s, s, {'&', '<', '>', '"', '\''}, '&', {'<', '>', '"', '\''});
    var b := ReplaceAll(a, "<", "&lt;");
    EscapeNext(s, a, {'<', '>', '"', '\''}, '<', {'>', '"', '\''});
    EscapeNext(s, b, {'>', '"', '\''}, '>', {'"', '\''});
  }

  // ----- Decoding -----

  lemma EntitiesDiffer(c: char, d: char, rest: string)
    requires IsSpecial(c) && IsSpecial(d) && c != d
    ensures !(Entity(c) <= Entity(d) + rest)
  {
    var (e, all) := (Entity(c), Entity(d) + rest);
    assert all[1] == Entity(d)[1] && all[2] == Entity(d)[2];
    assert e[1] != all[1] || e[2] != all[2];
  }

  /** One replacement turns one more entity back, as long as every ampersand is still an entity. */
  lemma {:induction false} DecodeStep(s: string, plain: set<char>, c: char)
    requires IsSpecial(c) && c !in plain && '&' !in plain
    ensures ReplaceAll(Encoding(s, plain), Entity(c), [c]) == Encoding(s, plain + {c})
  {
    if s != "" {
      DecodeStep(s[1..], plain, c);
      var (head, rest) := (Encoded(s[0], plain), Encoding(s[1..], plain));
      if s[0] == c {
        ReplaceHead(Entity(c), rest, [c]);
      } else if IsSpecial(s[0]) && s[0] !in plain {
        EntitiesDiffer(c, s[0], rest);
        PassEntity(head, rest, Entity(c), [c]);
      } else {
        PassOver(head, rest, Entity(c), [c]);
      }
    }
  }

  lemma DecodeNext(s: string, text: string, plain: set<char>, c: char, more: set<char>)
    requires IsSpecial(c) && c !in plain && '&' !in plain && more == plain + {c} && text == Encoding(s, plain)
    ensures ReplaceAll(text, Entity(c), [c]) == Encoding(s, more)
  {
    DecodeStep(s, plain, c);
  }

  /** Decoding undoes escaping, for every text. */
  lemma DecodeUndoesEscape(s: string)
    ensures DecodeXmlText(XmlText(s)) == s
  {
    var text := XmlText(s);
    XmlTextIsEncoding(s);
    var a := ReplaceAll(text, "&lt;", "<");
    DecodeNext(s, text, {}, '<', {'<'});
    var b := ReplaceAll(a, "&gt;", ">");
    DecodeNext(s, a, {'<'}, '>', {'<', '>'});
    var c := ReplaceAll(b, "&quot;", "\"");
    DecodeNext(s, b, {'<', '>'}, '"', {'<', '>', '"'});
    var d := ReplaceAll(c, "&apos;", "'");
    DecodeNext(s, c, {'<', '>', '"'}, '\'', {'<', '>', '"', '\''});
    DecodeNext(s, d, {'<', '>', '"', '\''}, '&', {'<', '>', '"', '\'', '&'});
    AllPlain(s, {'<', '>', '"', '\'', '&'});
  }

  // ----- What escaped text looks like -----

  lemma {:induction false} EscapedHasNoAngle(s: string)
    ensures '<' !in XmlText(s) && '>' !in XmlText(s)
  {
    XmlTextIsEncoding(s);
    if s != "" {
      EscapedHasNoAngle(s[1..]);
      XmlTextIsEncoding(s[1..]);
    }
  }

  lemma EscapedSplit(a: string, b: string)
    ensures XmlText(a + b) == XmlText(a) + XmlText(b)
  {
    XmlTextIsEncoding(a);
    XmlTextIsEncoding(b);
    XmlTextIsEncoding(a + b);
    EncodingAppend(a, b, {});
  }

  /** A character's escape is blank exactly when the character is, and then it is that character. */
  lemma EscapedChar(c: char)
    ensures var e := XmlText([c]);
            e != "" && (if IsSpace(c) then e == [c] else !IsSpace(e[0]) && !IsSpace(e[|e| - 1]))
  {
    XmlTextIsEncoding([c]);
    assert Encoding([c], {}) == Encoded(c, {}) + Encoding("", {}) == Encoded(c, {});
  }

  /** White space at the ends stays white space at the ends. */
  lemma {:induction false} TrimStartOfEscaped(s: string)
    ensures TrimStart(XmlText(s)) == XmlText(TrimStart(s))
  {
    if s == "" {
      XmlTextIsEncoding(s);
    } else {
      assert [s[0]] + s[1..] == s;
      EscapedSplit([s[0]], s[1..]);
      EscapedChar(s[0]);
      TrimStartOfEscaped(s[1..]);
      TrimStartStep(XmlText([s[0]]), XmlText(s[1..]));
    }
  }

  lemma TrimStartStep(e: string, rest: string)
    requires e != "" && (IsSpace(e[0]) ==> |e| == 1)
    ensures TrimStart(e + rest) == if IsSpace(e[0]) then TrimStart(rest) else e + rest
  {
    if IsSpace(e[0]) {
      assert (e + rest)[1..] == rest;
    }
  }

  lemma TrimEndStep(rest: string, e: string)
    requires e != "" && (IsSpace(e[|e| - 1]) ==> |e| == 1)
    ensures TrimEnd(rest + e) == if IsSpace(e[|e| - 1]) then TrimEnd(rest) else rest + e
  {
    if IsSpace(e[|e| - 1]) {
      assert (rest + e)[..|rest|] == rest;
    }
  }

  lemma {:induction false} TrimEndOfEscaped(s: string)
    ensures TrimEnd(XmlText(s)) == XmlText(TrimEnd(s))
  {
    if s == "" {
      XmlTextIsEncoding(s);
    } else {
      var (init, last) := (s[..|s| - 1], s[|s| - 1]);
      assert init + [last] == s;
      EscapedSplit(init, [last]);
      EscapedChar(last);
      TrimEndOfEscaped(init);
      TrimEndStep(XmlText(init), XmlText([last]));
    }
  }

  /** An escaped value that is trimmed and decoded is the trimmed value. */
  lemma DecodeOfTrimmedEscape(s: string)
    ensures DecodeXmlText(Trim(XmlText(s))) == Trim(s)
  {
    TrimStartOfEscaped(s);
    TrimEndOfEscaped(TrimStart(s));
    DecodeUndoesEscape(Trim(s));
  }
}
