/** The digest of earlier context (packages/dsh-luban-context/src/dsh-context.ts): which lines are chosen for it, and
    which of them it lists, since it is cut at a number of lines and at a number of characters. */
module Digest {
  import opened Text

  // ----- The lines and the text -----

  /** The lines of a text; a carriage return in front of a line feed belongs to the line end. */
  function Lines(s: string): (r: seq<string>)
    ensures r != []
  {
    if s == "" then [""]
    else if s[0] == '\n' then [""] + Lines(s[1..])
    else if "\r\n" <= s then [""] + Lines(s[2..])
    else
      var rest := Lines(s[1..]);
      [[s[0]] + rest[0]] + rest[1..]
  }

  function NonBlank(lines: seq<string>): (r: seq<string>)
    ensures forall line :: line in r ==> line != ""
  {
    if lines == [] then []
    else
      var line := Trim(lines[0]);
      (if line == "" then [] else [line]) + NonBlank(lines[1..])
  }

  function Chosen(lines: seq<string>, isImportant: string -> bool): (r: seq<string>)
    ensures forall line :: line in r <==> line in lines && isImportant(line)
  {
    if lines == [] then []
    else (if isImportant(lines[0]) then [lines[0]] else []) + Chosen(lines[1..], isImportant)
  }

  function AtMost<T>(s: seq<T>, n: nat): (r: seq<T>)
    ensures r <= s && |r| <= n && (|s| <= n ==> r == s)
  {
    if |s| <= n then s else s[..n]
  }

  function LastOf<T>(s: seq<T>, n: nat): seq<T> {
    if |s| <= n then s else s[|s| - n..]
  }

  const MAX_LINES := 80
  const MAX_SUMMARY := 12_000

  /** The first lines and the important ones. */
  function Leading(lines: seq<string>, isImportant: string -> bool): seq<string> {
    AtMost(lines, 12) + Chosen(lines, isImportant)
  }

  /** The first, the important and the last lines, each once, up to the limit; `isImportant` looks for the words
      that mark decisions, constraints, requirements, errors and the like. */
  function ImportantLines(content: string, isImportant: string -> bool): seq<string> {
    var lines := NonBlank(Lines(content));
    AtMost(Dedupe(Leading(lines, isImportant) + LastOf(lines, 8)), MAX_LINES)
  }

  function Listed(files: seq<string>): string {
    Join(seq(|files|, i requires 0 <= i < |files| => "- " + files[i]), "\n")
  }

  const HEADING := "Compacted earlier context (preserve these decisions and constraints):"

  /** The heading and a list of lines. */
  function Listing(lines: seq<string>): string {
    HEADING + "\n" + Listed(lines)
  }

  function SummaryOf(contents: seq<string>, isImportant: string -> bool): (r: string)
    ensures r != "" && |r| <= MAX_SUMMARY
  {
    var lines := ImportantLines(Join(contents, "\n"), isImportant);
    if lines == [] then "Earlier context contained no textual content." else AtMost(Listing(lines), MAX_SUMMARY)
  }

  // ----- Which lines are chosen -----

  lemma LeadingFit(lines: seq<string>, isImportant: string -> bool, kept: seq<string>)
    requires kept == AtMost(Dedupe(Leading(lines, isImportant) + LastOf(lines, 8)), MAX_LINES)
    requires |Dedupe(Leading(lines, isImportant))| <= MAX_LINES
    ensures forall line :: line in lines && isImportant(line) ==> line in kept
  {
    var leading := Leading(lines, isImportant);
    assert Dedupe(leading) <= kept by {
      DedupePrefix(leading, LastOf(lines, 8));
    }
    forall line | line in lines && isImportant(line) ensures line in kept {
      assert line in Dedupe(leading);
    }
  }

  /** With more than 80 different leading lines, an important one is not chosen. */
  lemma LeadingOverflow(lines: seq<string>, isImportant: string -> bool, kept: seq<string>) returns (dropped: string)
    requires kept == AtMost(Dedupe(Leading(lines, isImportant) + LastOf(lines, 8)), MAX_LINES)
    requires |Dedupe(Leading(lines, isImportant))| > MAX_LINES
    ensures dropped in lines && isImportant(dropped) && dropped !in kept
  {
    var (first, chosen) := (AtMost(lines, 12), Chosen(lines, isImportant));
    var distinct := Dedupe(first + chosen);
    dropped := distinct[MAX_LINES];
    assert kept == distinct[..MAX_LINES] by {
      DedupePrefix(first + chosen, LastOf(lines, 8));
    }
    assert dropped !in first by {
      DedupePrefix(first, chosen);
      assert Dedupe(first) == distinct[..|Dedupe(first)|] && |Dedupe(first)| <= 12;
    }
    assert dropped in first + chosen;
  }

  // ----- Which of them the text lists -----

  lemma {:induction false} JoinPrefix(a: seq<string>, b: seq<string>, separator: string)
    requires a != []
    ensures Join(a, separator) <= Join(a + b, separator)
    decreases |a|
  {
    var all := a + b;
    if |a| == 1 {
      assert all[0] == a[0];
    } else {
      JoinPrefix(a[1..], b, separator);
      assert all[0] == a[0] && all[1..] == a[1..] + b;
    }
  }

  function Bullets(lines: seq<string>): seq<string> {
    seq(|lines|, i requires 0 <= i < |lines| => "- " + lines[i])
  }

  lemma ListingPrefix(lines: seq<string>, j: nat, k: nat)
    requires 0 < j <= k <= |lines|
    ensures Listing(lines[..j]) <= Listing(lines[..k])
  {
    var (a, b) := (Bullets(lines[..j]), Bullets(lines[j..k]));
    assert a + b == Bullets(lines[..k]);
    JoinPrefix(a, b, "\n");
  }

  /** The line is chosen, and everything up to its end is in the digest. */
  ghost predicate IsListed(contents: seq<string>, isImportant: string -> bool, line: string) {
    Lists(ImportantLines(Join(contents, "\n"), isImportant), SummaryOf(contents, isImportant), line)
  }

  ghost predicate Lists(kept: seq<string>, summary: string, line: string) {
    exists i :: 0 <= i < |kept| && IsListedAt(kept, i, summary) && kept[i] == line
  }

  predicate IsListedAt(kept: seq<string>, i: nat, summary: string)
    requires i < |kept|
  {
    Listing(kept[..i + 1]) <= summary
  }

  /** The digest of chosen lines. */
  predicate Summarizes(summary: string, kept: seq<string>) {
    kept != [] ==> summary == AtMost(Listing(kept), MAX_SUMMARY)
  }

  lemma ListedIffFits(kept: seq<string>, summary: string, i: nat)
    requires i < |kept| && Summarizes(summary, kept)
    ensures IsListedAt(kept, i, summary) <==> |Listing(kept[..i + 1])| <= MAX_SUMMARY
  {
    ListingPrefix(kept, i + 1, |kept|);
    assert kept[..|kept|] == kept;
    PrefixOfPrefix(Listing(kept[..i + 1]), Listing(kept), MAX_SUMMARY);
  }

  lemma PrefixOfPrefix(part: string, whole: string, n: nat)
    requires part <= whole
    ensures part <= AtMost(whole, n) <==> |part| <= n
  {
  }

  /** How many lines there are up to the last important one. */
  function UpToLast(lines: seq<string>, isImportant: string -> bool): (n: nat)
    ensures n <= |lines|
    ensures n > 0 ==> isImportant(lines[n - 1])
    ensures forall i :: n <= i < |lines| ==> !isImportant(lines[i])
  {
    if lines == [] then 0
    else if isImportant(lines[|lines| - 1]) then |lines|
    else UpToLast(lines[..|lines| - 1], isImportant)
  }

  /** The first and the important lines are at most 80 different ones, and the list of the chosen lines fits the
      limit of characters up to its last important line. */
  predicate Fits(lines: seq<string>, kept: seq<string>, isImportant: string -> bool) {
    |Dedupe(Leading(lines, isImportant))| <= MAX_LINES
    && |Listing(kept[..UpToLast(kept, isImportant)])| <= MAX_SUMMARY
  }

  lemma ChosenAreLines(lines: seq<string>, isImportant: string -> bool, kept: seq<string>)
    requires kept == AtMost(Dedupe(Leading(lines, isImportant) + LastOf(lines, 8)), MAX_LINES)
    ensures forall line :: line in kept ==> line in lines
    ensures forall i, j :: 0 <= i < j < |kept| ==> kept[i] != kept[j]
  {
    var all := Dedupe(Leading(lines, isImportant) + LastOf(lines, 8));
    forall line | line in kept ensures line in lines {
      assert line in all;
      assert line in AtMost(lines, 12) || line in Chosen(lines, isImportant) || line in LastOf(lines, 8);
    }
  }

  lemma KeptIsListed(kept: seq<string>, summary: string, isImportant: string -> bool, line: string)
    requires Summarizes(summary, kept) && line in kept && isImportant(line)
    requires |Listing(kept[..UpToLast(kept, isImportant)])| <= MAX_SUMMARY
    ensures Lists(kept, summary, line)
  {
    var i: nat :| i < |kept| && kept[i] == line;
    var n := UpToLast(kept, isImportant);
    assert i < n;
    assert |Listing(kept[..i + 1])| <= |Listing(kept[..n])| by {
      ListingPrefix(kept, i + 1, n);
    }
    ListedIffFits(kept, summary, i);
  }

  /** If everything fits, every important line of the text is listed. */
  lemma FittingAreListed(lines: seq<string>, kept: seq<string>, summary: string, isImportant: string -> bool)
    requires kept == AtMost(Dedupe(Leading(lines, isImportant) + LastOf(lines, 8)), MAX_LINES)
    requires Summarizes(summary, kept) && Fits(lines, kept, isImportant)
    ensures forall line :: line in lines && isImportant(line) ==> Lists(kept, summary, line)
  {
    LeadingFit(lines, isImportant, kept);
    forall line | line in lines && isImportant(line) ensures Lists(kept, summary, line) {
      KeptIsListed(kept, summary, isImportant, line);
    }
  }

  /** If not, some important line is not. */
  lemma OverflowIsDropped(lines: seq<string>, kept: seq<string>, summary: string, isImportant: string -> bool)
      returns (dropped: string)
    requires kept == AtMost(Dedupe(Leading(lines, isImportant) + LastOf(lines, 8)), MAX_LINES)
    requires Summarizes(summary, kept) && !Fits(lines, kept, isImportant)
    ensures dropped in lines && isImportant(dropped) && !Lists(kept, summary, dropped)
  {
    ChosenAreLines(lines, isImportant, kept);
    if |Dedupe(Leading(lines, isImportant))| > MAX_LINES {
      dropped := LeadingOverflow(lines, isImportant, kept);
    } else {
      dropped := LastIsCut(kept, summary, isImportant);
    }
  }

  lemma LastIsCut(kept: seq<string>, summary: string, isImportant: string -> bool) returns (dropped: string)
    requires Summarizes(summary, kept) && forall i, j :: 0 <= i < j < |kept| ==> kept[i] != kept[j]
    requires |Listing(kept[..UpToLast(kept, isImportant)])| > MAX_SUMMARY
    ensures dropped in kept && isImportant(dropped) && !Lists(kept, summary, dropped)
  {
    var n := UpToLast(kept, isImportant);
    assert n > 0 by {
      HeadingIsShort();
    }
    dropped := kept[n - 1];
    ListedIffFits(kept, summary, n - 1);
  }

  lemma HeadingIsShort()
    ensures |Listing([])| <= MAX_SUMMARY
  {
  }

  /** The digest lists every important line of the text, whole, exactly when everything fits. */
  lemma ImportantAreListedIff(contents: seq<string>, isImportant: string -> bool)
    ensures var content := Join(contents, "\n");
            var lines := NonBlank(Lines(content));
            (forall line :: line in lines && isImportant(line) ==> IsListed(contents, isImportant, line))
            <==> Fits(lines, ImportantLines(content, isImportant), isImportant)
  {
    var content := Join(contents, "\n");
    var (lines, kept) := (NonBlank(Lines(content)), ImportantLines(content, isImportant));
    var summary := SummaryOf(contents, isImportant);
    if Fits(lines, kept, isImportant) {
      FittingAreListed(lines, kept, summary, isImportant);
    } else {
      var dropped := OverflowIsDropped(lines, kept, summary, isImportant);
      assert !IsListed(contents, isImportant, dropped);
    }
  }

  // ----- Two digests that drop important lines -----

  lemma {:induction false} LinesOfOne(line: string, rest: string)
    requires '\n' !in line && '\r' !in line
    ensures Lines(line) == [line] && Lines(line + "\n" + rest) == [line] + Lines(rest)
  {
    var s := line + "\n" + rest;
    if line == "" {
      assert s[1..] == rest;
    } else {
      LinesOfOne(line[1..], rest);
      assert s[1..] == line[1..] + "\n" + rest && [line[0]] + line[1..] == line;
    }
  }

  lemma {:induction false} LinesOfJoined(lines: seq<string>)
    requires lines != [] && forall line :: line in lines ==> '\n' !in line && '\r' !in line
    ensures Lines(Join(lines, "\n")) == lines
  {
    assert lines[0] in lines && lines == [lines[0]] + lines[1..];
    if |lines| == 1 {
      LinesOfOne(lines[0], "");
    } else {
      LinesOfJoined(lines[1..]);
      LinesOfOne(lines[0], Join(lines[1..], "\n"));
    }
  }

  lemma {:induction false} NonBlankOfTrimmed(lines: seq<string>)
    requires forall line :: line in lines ==> line != "" && Trimmed(line)
    ensures NonBlank(lines) == lines
  {
    if lines != [] {
      assert lines[0] in lines && lines == [lines[0]] + lines[1..];
      TrimIsTrimmed(lines[0]);
      assert forall line :: line in lines[1..] ==> line in lines;
      NonBlankOfTrimmed(lines[1..]);
    }
  }

  /** Different entries need as many places. */
  lemma {:induction false} Pigeonhole(a: seq<string>, b: seq<string>)
    requires (forall i, j :: 0 <= i < j < |a| ==> a[i] != a[j]) && forall x :: x in a ==> x in b
    ensures |a| <= |b|
  {
    if a != [] {
      assert a[0] in a;
      var k :| 0 <= k < |b| && b[k] == a[0];
      var rest := b[..k] + b[k + 1..];
      forall x | x in a[1..] ensures x in rest {
        var i :| 0 < i < |a| && a[i] == x;
        assert a[0] != a[i] && a[i] in b;
        var j :| 0 <= j < |b| && b[j] == x;
        assert if j < k then rest[j] == x else rest[j - 1] == x;
      }
      Pigeonhole(a[1..], rest);
    }
  }

  function Musts(n: nat): seq<string> {
    seq(n, i requires 0 <= i < n => "must " + Decimal(i))
  }

  lemma MustsAreLines(n: nat)
    ensures forall line :: line in Musts(n) ==> line != "" && Trimmed(line) && '\n' !in line && '\r' !in line
    ensures forall i, j :: 0 <= i < j < n ==> Musts(n)[i] != Musts(n)[j]
  {
    forall line | line in Musts(n) ensures line != "" && Trimmed(line) && '\n' !in line && '\r' !in line {
      var i :| 0 <= i < n && Musts(n)[i] == line;
      var d := Decimal(i);
      assert line[0] == 'm' && line[|line| - 1] == d[|d| - 1] && d[|d| - 1] in d;
      assert line == "must " + d;
    }
    forall i, j | 0 <= i < j < n ensures Musts(n)[i] != Musts(n)[j] {
      if Musts(n)[i] == Musts(n)[j] {
        assert Decimal(i) == Musts(n)[i][5..] == Musts(n)[j][5..] == Decimal(j);
        DecimalInjective(i, j);
      }
    }
  }

  /** Of 81 lines that all say what must be, the digest lists one not at all. */
  lemma ManyLinesDropOne(isImportant: string -> bool) returns (dropped: string)
    requires forall line :: line in Musts(MAX_LINES + 1) ==> isImportant(line)
    ensures dropped in Musts(MAX_LINES + 1)
    ensures !IsListed([Join(Musts(MAX_LINES + 1), "\n")], isImportant, dropped)
  {
    var lines := Musts(MAX_LINES + 1);
    MustsAreLines(MAX_LINES + 1);
    LinesOfJoined(lines);
    NonBlankOfTrimmed(lines);
    var kept := ImportantLines(Join(lines, "\n"), isImportant);
    if forall line :: line in lines ==> line in kept {
      Pigeonhole(lines, kept);
    }
    dropped :| dropped in lines && dropped !in kept;
  }

  lemma DedupeOfPair(a: string, b: string)
    requires a != b
    ensures Dedupe([a, b]) == [a, b]
  {
    assert Dedupe([a]) == [a] by {
      assert [a][..0] == [];
    }
    assert [a, b][..1] == [a];
  }

  lemma DedupeOfTwo(a: string, b: string, more: seq<string>)
    requires a != b && forall line :: line in more ==> line == a || line == b
    ensures Dedupe([a, b] + more) == [a, b]
  {
    var kept := Dedupe([a, b] + more);
    assert [a, b] <= kept by {
      DedupeOfPair(a, b);
      DedupePrefix([a, b], more);
    }
    Pigeonhole(kept, [a, b]);
  }

  predicate IsOneLine(s: string) {
    s != "" && Trimmed(s) && '\n' !in s && '\r' !in s
  }

  lemma TwoLines(a: string, b: string)
    requires IsOneLine(a) && IsOneLine(b)
    ensures NonBlank(Lines(a + "\n" + b)) == [a, b]
  {
    assert Lines(a + "\n" + b) == [a, b] by {
      LinesOfOne(a, b);
      LinesOfOne(b, "");
    }
    NonBlankOfTrimmed([a, b]);
  }

  lemma TwoAreChosen(a: string, b: string, isImportant: string -> bool)
    requires a != b
    ensures Dedupe(Leading([a, b], isImportant)) == [a, b]
    ensures AtMost(Dedupe(Leading([a, b], isImportant) + LastOf([a, b], 8)), MAX_LINES) == [a, b]
  {
    var lines := [a, b];
    var chosen := Chosen(lines, isImportant);
    assert Leading(lines, isImportant) == lines + chosen;
    DedupeOfTwo(a, b, chosen);
    assert lines + chosen + LastOf(lines, 8) == lines + (chosen + LastOf(lines, 8));
    DedupeOfTwo(a, b, chosen + LastOf(lines, 8));
  }

  /** What comes behind a line as long as the limit is cut off. */
  lemma BehindLongIsCut(long: string, next: string)
    requires |long| >= MAX_SUMMARY
    ensures AtMost(Listing([long, next]), MAX_SUMMARY) <= Listing([long])
    ensures |Listing([long, next])| > MAX_SUMMARY
  {
    var kept := [long, next];
    ListingPrefix(kept, 1, 2);
    assert kept[..1] == [long] && kept[..2] == kept;
    assert |Listing([long])| >= MAX_SUMMARY by {
      assert Bullets([long]) == ["- " + long];
    }
    assert |Listing(kept)| > MAX_SUMMARY by {
      assert Bullets(kept) == ["- " + long, "- " + next];
      assert Join(["- " + long, "- " + next], "\n") == "- " + long + "\n" + ("- " + next);
    }
  }

  lemma NextIsNotListed(kept: seq<string>, summary: string)
    requires |kept| == 2 && kept[0] != kept[1] && Summarizes(summary, kept) && |Listing(kept)| > MAX_SUMMARY
    ensures !Lists(kept, summary, kept[1])
  {
    ListedIffFits(kept, summary, 1);
    assert kept[..2] == kept;
  }

  /** Behind a first line of 12000 characters no other line is listed: the digest ends within the first one. */
  lemma LongLineDropsNext(long: string, next: string, isImportant: string -> bool)
    requires IsOneLine(long) && IsOneLine(next) && next != long && |long| >= MAX_SUMMARY
    ensures var content := long + "\n" + next;
            next in ImportantLines(content, isImportant)
            && |Dedupe(Leading(NonBlank(Lines(content)), isImportant))| <= MAX_LINES
            && SummaryOf([content], isImportant) <= Listing([long]) && !IsListed([content], isImportant, next)
  {
    var (content, kept) := (long + "\n" + next, [long, next]);
    TwoLines(long, next);
    TwoAreChosen(long, next, isImportant);
    BehindLongIsCut(long, next);
    assert Join([content], "\n") == content;
    assert SummaryOf([content], isImportant) == AtMost(Listing(kept), MAX_SUMMARY);
    NextIsNotListed(kept, SummaryOf([content], isImportant));
  }

  /** Such a text: 12000 times `x`, and then what must be. */
  lemma DigestCanLoseNext(isImportant: string -> bool)
    ensures var content := Repeat('x', MAX_SUMMARY) + "\n" + "must not";
            "must not" in ImportantLines(content, isImportant) && !IsListed([content], isImportant, "must not")
  {
    LongLineDropsNext(Repeat('x', MAX_SUMMARY), "must not", isImportant);
  }
}
