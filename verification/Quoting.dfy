/** Command-line quoting (packages/dsh-luban-keepalive/src/session-id.ts) and the readers it is written for. */
module Quoting {
  import opened Wrappers
  import opened Text

  // ----- Windows: the printer -----

  /** The characters a Windows argument may not hold: NUL, carriage return, line feed. */
  predicate Printable(value: string) {
    '\0' !in value && '\r' !in value && '\n' !in value
  }

  /** An argument that is printed as it stands: not empty, no white space, no double quote. */
  predicate Plain(value: string) {
    value != "" && forall c :: c in value ==> !IsSpace(c) && c != '\"'
  }

  /** What is still to be printed of a quoted argument when `pending` backslashes are held back. */
  function Escaped(value: string, pending: nat): string {
    if value == "" then Repeat('\\', pending * 2) + "\""
    else if value[0] == '\\' then Escaped(value[1..], pending + 1)
    else if value[0] == '\"' then Repeat('\\', pending * 2 + 1) + "\"" + Escaped(value[1..], 0)
    else Repeat('\\', pending) + [value[0]] + Escaped(value[1..], 0)
  }

  function Quoted(value: string): string {
    if Plain(value) then value else "\"" + Escaped(value, 0)
  }

  function QuotedAll(args: seq<string>): seq<string> {
    seq(|args|, i requires 0 <= i < |args| => Quoted(args[i]))
  }

  /** The printed argument vector; an argument that cannot be printed is refused. */
  function WindowsArguments(args: seq<string>): Option<string> {
    if forall arg :: arg in args ==> Printable(arg) then Some(Join(QuotedAll(args), " ")) else None
  }

  /** Program and arguments on one line; an empty argument string is dropped, not printed. */
  function WindowsCommand(command: string, args: seq<string>): Option<string> {
    var tail := WindowsArguments(args);
    if !Printable(command) || tail.None? then None
    else if tail.value == "" then Some(Quoted(command))
    else Some(Quoted(command) + " " + tail.value)
  }

  /** The loop over the characters of one argument, holding back a run of backslashes. */
  method WindowsArgument(value: string) returns (printed: Option<string>)
    ensures printed == if Printable(value) then Some(Quoted(value)) else None
  {
    if '\0' in value || '\r' in value || '\n' in value {
      return None;
    }
    if Plain(value) {
      return Some(value);
    }
    var result := "\"";
    var backslashes := 0;
    for i := 0 to |value|
      invariant result + Escaped(value[i..], backslashes) == "\"" + Escaped(value, 0)
    {
      var character := value[i];
      assert value[i..][1..] == value[i + 1..];
      if character == '\\' {
        backslashes := backslashes + 1;
      } else if character == '\"' {
        result := result + Repeat('\\', backslashes * 2 + 1) + "\"";
        backslashes := 0;
      } else {
        result := result + Repeat('\\', backslashes) + [character];
        backslashes := 0;
      }
    }
    assert value[|value|..] == "";
    var closing := Repeat('\\', backslashes * 2) + "\"";
    return Some(result + closing);
  }

  // ----- Windows: the reader (the CommandLineToArgvW rules) -----

  predicate IsBlank(c: char) {
    c == ' ' || c == '\t'
  }

  /** Length of the run of backslashes at the start. */
  function BackslashRun(line: string): (n: nat)
    ensures n <= |line|
    ensures forall i :: 0 <= i < n ==> line[i] == '\\'
    ensures n < |line| ==> line[n] != '\\'
  {
    if line != "" && line[0] == '\\' then 1 + BackslashRun(line[1..]) else 0
  }

  /** Reads one argument: its value and what follows it. Before a quote, 2n backslashes stand for n and the quote
      opens or closes a quoted part; 2n+1 stand for n and a literal quote. Anywhere else they stand for themselves. */
  function ReadArgument(line: string, inQuotes: bool): (r: (string, string))
    ensures |r.1| <= |line|
    decreases |line|
  {
    if line == "" then ("", "")
    else if !inQuotes && IsBlank(line[0]) then ("", line)
    else if line[0] == '\"' then ReadArgument(line[1..], !inQuotes)
    else if line[0] == '\\' then
      var n := BackslashRun(line);
      if n < |line| && line[n] == '\"' then
        if n % 2 == 0 then
          var (value, rest) := ReadArgument(line[n + 1..], !inQuotes);
          (Repeat('\\', n / 2) + value, rest)
        else
          var (value, rest) := ReadArgument(line[n + 1..], inQuotes);
          (Repeat('\\', n / 2) + "\"" + value, rest)
      else
        var (value, rest) := ReadArgument(line[n..], inQuotes);
        (Repeat('\\', n) + value, rest)
    else
      var (value, rest) := ReadArgument(line[1..], inQuotes);
      ([line[0]] + value, rest)
  }

  /** Splits a whole line into its arguments. */
  function SplitArguments(line: string): seq<string>
    decreases |line|
  {
    if line == "" then []
    else if IsBlank(line[0]) then SplitArguments(line[1..])
    else
      var (value, rest) := ReadArgument(line, false);
      if |rest| < |line| then [value] + SplitArguments(rest) else [value]
  }

  /** The program name has rules of its own: a quoted one ends at the next quote, whatever stands before it,
      an unquoted one at the next blank. Backslashes always stand for themselves. */
  function ReadProgram(line: string): string {
    if line != "" && line[0] == '\"' then UpTo(line[1..], IsQuote) else UpTo(line, IsBlank)
  }

  predicate IsQuote(c: char) {
    c == '\"'
  }

  function UpTo(s: string, stop: char -> bool): string {
    if s == "" || stop(s[0]) then "" else [s[0]] + UpTo(s[1..], stop)
  }

  // ----- Windows: what the printer is for -----

  predicate EndsArgument(rest: string) {
    rest == "" || rest[0] == ' '
  }

  lemma {:induction false} RunOf(n: nat, rest: string)
    requires rest == "" || rest[0] != '\\'
    ensures BackslashRun(Repeat('\\', n) + rest) == n
  {
    var line := Repeat('\\', n) + rest;
    assert n < |line| ==> line[n] == rest[0];
  }

  /** What a read over `n` backslashes and then `rest` comes to. */
  function AfterRun(n: nat, rest: string, inQuotes: bool): (string, string) {
    if n > 0 && rest != "" && rest[0] == '\"' then
      if n % 2 == 0 then Prefixed(Repeat('\\', n / 2), ReadArgument(rest[1..], !inQuotes))
      else Prefixed(Repeat('\\', n / 2) + "\"", ReadArgument(rest[1..], inQuotes))
    else Prefixed(Repeat('\\', n), ReadArgument(rest, inQuotes))
  }

  function Prefixed(prefix: string, read: (string, string)): (string, string) {
    (prefix + read.0, read.1)
  }

  lemma {:induction false} ReadRun(n: nat, rest: string, inQuotes: bool)
    requires rest == "" || rest[0] != '\\'
    ensures ReadArgument(Repeat('\\', n) + rest, inQuotes) == AfterRun(n, rest, inQuotes)
  {
    var line := Repeat('\\', n) + rest;
    if n == 0 {
      assert line == rest;
      assert Repeat('\\', 0) + ReadArgument(rest, inQuotes).0 == ReadArgument(rest, inQuotes).0;
    } else {
      RunOf(n, rest);
      assert line[n..] == rest;
      if rest != "" {
        assert line[n] == rest[0];
        assert line[n + 1..] == rest[1..];
      }
    }
  }

  lemma ReadClosingQuote(pending: nat, rest: string)
    requires EndsArgument(rest)
    ensures ReadArgument(Repeat('\\', pending * 2) + "\"" + rest, true) == (Repeat('\\', pending), rest)
  {
    var after := "\"" + rest;
    assert Repeat('\\', pending * 2) + "\"" + rest == Repeat('\\', pending * 2) + after;
    ReadRun(pending * 2, after, true);
    assert after[1..] == rest;
    assert ReadArgument(rest, false) == ("", rest);
    assert Repeat('\\', pending) + "" == Repeat('\\', pending);
  }

  lemma ReadLiteralQuote(pending: nat, rest: string)
    ensures ReadArgument(Repeat('\\', pending * 2 + 1) + "\"" + rest, true)
         == Prefixed(Repeat('\\', pending) + "\"", ReadArgument(rest, true))
  {
    var after := "\"" + rest;
    assert Repeat('\\', pending * 2 + 1) + "\"" + rest == Repeat('\\', pending * 2 + 1) + after;
    ReadRun(pending * 2 + 1, after, true);
    assert after[1..] == rest;
    assert (pending * 2 + 1) % 2 == 1 && (pending * 2 + 1) / 2 == pending;
  }

  lemma ReadOtherCharacter(pending: nat, c: char, rest: string)
    requires c != '\\' && c != '\"'
    ensures ReadArgument(Repeat('\\', pending) + [c] + rest, true)
         == Prefixed(Repeat('\\', pending) + [c], ReadArgument(rest, true))
  {
    var after := [c] + rest;
    AppendAssociates(Repeat('\\', pending), [c], rest);
    ReadRun(pending, after, true);
    assert after[1..] == rest;
    assert ReadArgument(after, true) == Prefixed([c], ReadArgument(rest, true));
    AppendAssociates(Repeat('\\', pending), [c], ReadArgument(rest, true).0);
  }

  /** A quoted argument reads back as its value, whatever was held back before it. */
  lemma {:induction false} EscapedReadsBack(value: string, pending: nat, rest: string)
    requires EndsArgument(rest)
    ensures ReadArgument(Escaped(value, pending) + rest, true) == (Repeat('\\', pending) + value, rest)
    decreases |value|
  {
    if value == "" {
      ReadClosingQuote(pending, rest);
      assert Repeat('\\', pending) + value == Repeat('\\', pending);
    } else if value[0] == '\\' {
      assert Escaped(value, pending) == Escaped(value[1..], pending + 1);
      EscapedReadsBack(value[1..], pending + 1, rest);
      OneMoreHeld(value, pending);
    } else {
      EscapedReadsBack(value[1..], 0, rest);
      EscapedStep(value, pending, rest);
      NoneHeld(value, Repeat('\\', pending));
    }
  }

  lemma OneMoreHeld(value: string, pending: nat)
    requires value != "" && value[0] == '\\'
    ensures Repeat('\\', pending + 1) + value[1..] == Repeat('\\', pending) + value
  {
  }

  lemma NoneHeld(value: string, held: string)
    requires value != ""
    ensures held + [value[0]] + (Repeat('\\', 0) + value[1..]) == held + value
  {
    assert Repeat('\\', 0) + value[1..] == value[1..];
    assert held + [value[0]] + value[1..] == held + value;
  }

  lemma EscapedStep(value: string, pending: nat, rest: string)
    requires value != "" && value[0] != '\\'
    ensures ReadArgument(Escaped(value, pending) + rest, true)
      == Prefixed(Repeat('\\', pending) + [value[0]], ReadArgument(Escaped(value[1..], 0) + rest, true))
  {
    var after := Escaped(value[1..], 0) + rest;
    if value[0] == '\"' {
      AppendAssociates(Repeat('\\', pending * 2 + 1) + "\"", Escaped(value[1..], 0), rest);
      ReadLiteralQuote(pending, after);
    } else {
      AppendAssociates(Repeat('\\', pending) + [value[0]], Escaped(value[1..], 0), rest);
      ReadOtherCharacter(pending, value[0], after);
    }
  }

  lemma AppendAssociates(a: string, b: string, c: string)
    ensures a + b + c == a + (b + c)
  {
  }

  /** So does an unquoted one: no run of its backslashes stands before a quote. */
  lemma {:induction false} PlainReadsBack(value: string, rest: string)
    requires forall c :: c in value ==> !IsSpace(c) && c != '\"'
    requires EndsArgument(rest)
    ensures ReadArgument(value + rest, false) == (value, rest)
    decreases |value|
  {
    var line := value + rest;
    if value == "" {
      assert line == rest;
    } else {
      assert value[0] in value;
      var n := if value[0] == '\\' then BackslashRun(value) else 0;
      if n == 0 {
        PlainReadsBack(value[1..], rest);
        PlainCharacter(value, rest);
        assert [value[0]] + value[1..] == value;
      } else {
        PlainReadsBack(value[n..], rest);
        PlainStep(value, n, rest);
        assert Repeat('\\', n) + value[n..] == value;
      }
    }
  }

  lemma PlainCharacter(value: string, rest: string)
    requires value != "" && !IsBlank(value[0]) && value[0] != '\"' && value[0] != '\\'
    ensures ReadArgument(value + rest, false) == Prefixed([value[0]], ReadArgument(value[1..] + rest, false))
  {
    assert (value + rest)[1..] == value[1..] + rest;
  }

  lemma PlainStep(value: string, n: nat, rest: string)
    requires 0 < n == BackslashRun(value)
    requires '\"' !in value && EndsArgument(rest)
    ensures ReadArgument(value + rest, false) == Prefixed(Repeat('\\', n), ReadArgument(value[n..] + rest, false))
  {
    var after := value[n..] + rest;
    assert value[..n] == Repeat('\\', n);
    assert value + rest == Repeat('\\', n) + after;
    assert n < |value| ==> after[0] == value[n] && value[n] in value;
    assert n == |value| ==> after == rest;
    ReadRun(n, after, false);
  }

  lemma QuotedReadsBack(value: string, rest: string)
    requires EndsArgument(rest)
    ensures Quoted(value) != "" && !IsBlank(Quoted(value)[0])
    ensures ReadArgument(Quoted(value) + rest, false) == (value, rest)
  {
    if Plain(value) {
      assert value[0] in value;
      PlainReadsBack(value, rest);
    } else {
      EscapedReadsBack(value, 0, rest);
      AppendAssociates("\"", Escaped(value, 0), rest);
      ReadOpeningQuote(Escaped(value, 0) + rest);
      assert Repeat('\\', 0) + value == value;
    }
  }

  lemma ReadOpeningQuote(after: string)
    ensures ReadArgument("\"" + after, false) == ReadArgument(after, true)
  {
    assert ("\"" + after)[1..] == after;
  }

  lemma SplitFirstArgument(value: string, rest: string)
    requires EndsArgument(rest)
    ensures SplitArguments(Quoted(value) + rest) == [value] + SplitArguments(rest)
  {
    QuotedReadsBack(value, rest);
  }

  /** The round trip: the Win32 splitting rules give back exactly the vector that was printed. */
  lemma {:induction false} SplitOfPrintedArguments(args: seq<string>)
    ensures SplitArguments(Join(QuotedAll(args), " ")) == args
  {
    var parts := QuotedAll(args);
    if args == [] {
      assert parts == [];
    } else {
      var rest := if |args| == 1 then "" else " " + Join(parts[1..], " ");
      assert Join(parts, " ") == parts[0] + rest;
      SplitOfPrintedArguments(args[1..]);
      assert QuotedAll(args[1..]) == parts[1..];
      assert |args| > 1 ==> rest[1..] == Join(parts[1..], " ");
      SplitFirstArgument(args[0], rest);
      assert args == [args[0]] + args[1..];
    }
  }

  lemma WindowsArgumentsRoundTrip(args: seq<string>)
    ensures WindowsArguments(args).Some? <==> forall arg :: arg in args ==> Printable(arg)
    ensures WindowsArguments(args).Some? ==> SplitArguments(WindowsArguments(args).value) == args
  {
    SplitOfPrintedArguments(args);
  }

  /** Two vectors that print alike are the same vector. */
  lemma WindowsArgumentsInjective(a: seq<string>, b: seq<string>)
    requires WindowsArguments(a).Some? && WindowsArguments(a) == WindowsArguments(b)
    ensures a == b
  {
    WindowsArgumentsRoundTrip(a);
    WindowsArgumentsRoundTrip(b);
  }

  lemma QuotedIsTrimmed(value: string)
    ensures Quoted(value) != "" && Trimmed(Quoted(value))
  {
    if Plain(value) {
      assert value[0] in value && value[|value| - 1] in value;
    } else {
      EscapedEndsWithQuote(value, 0);
    }
  }

  lemma {:induction false} EscapedEndsWithQuote(value: string, pending: nat)
    ensures var e := Escaped(value, pending); e != "" && e[|e| - 1] == '\"'
    decreases |value|
  {
    if value != "" {
      EscapedEndsWithQuote(value[1..], 0);
      EscapedEndsWithQuote(value[1..], pending + 1);
    }
  }

  /** A printed vector begins and ends with visible characters, so a reader that trims it loses nothing. */
  lemma {:induction false} PrintedArgumentsAreTrimmed(args: seq<string>)
    ensures Trimmed(Join(QuotedAll(args), " "))
    ensures args != [] ==> Join(QuotedAll(args), " ") != ""
  {
    var parts := QuotedAll(args);
    if args != [] {
      QuotedIsTrimmed(args[0]);
      PrintedArgumentsAreTrimmed(args[1..]);
      assert QuotedAll(args[1..]) == parts[1..];
    }
  }

  /** Read by the argument rules throughout, a whole command line gives back the program and its arguments. */
  lemma WindowsCommandRoundTrip(command: string, args: seq<string>)
    requires WindowsCommand(command, args).Some?
    ensures SplitArguments(WindowsCommand(command, args).value) == [command] + args
  {
    var all := [command] + args;
    var line := WindowsCommand(command, args).value;
    PrintedArgumentsAreTrimmed(args);
    assert QuotedAll(all)[1..] == QuotedAll(args);
    assert line == Join(QuotedAll(all), " ");
    SplitOfPrintedArguments(all);
  }

  predicate EndsWithBackslash(s: string) {
    s != "" && s[|s| - 1] == '\\'
  }

  lemma {:induction false} UpToStopsAtQuote(s: string, rest: string)
    requires '\"' !in s
    ensures UpTo(s + "\"" + rest, IsQuote) == s
  {
    var line := s + "\"" + rest;
    if s != "" {
      UpToStopsAtQuote(s[1..], rest);
      assert line[1..] == s[1..] + "\"" + rest;
    }
  }

  lemma {:induction false} UpToStopsAtBlank(s: string, rest: string)
    requires forall c :: c in s ==> !IsBlank(c)
    requires EndsArgument(rest)
    ensures UpTo(s + rest, IsBlank) == s
  {
    if s == "" {
      assert s + rest == rest;
    } else {
      UpToStopsAtBlank(s[1..], rest);
      assert (s + rest)[1..] == s[1..] + rest;
    }
  }

  lemma {:induction false} UpToNeverHoldsAQuote(s: string)
    ensures '\"' !in UpTo(s, IsQuote)
  {
    if s != "" && s[0] != '\"' {
      UpToNeverHoldsAQuote(s[1..]);
    }
  }

  /** Without a quote in it, the quoted form doubles the final run of backslashes and changes nothing else. */
  lemma {:induction false} EscapedWithoutQuotes(value: string, pending: nat) returns (last: nat)
    requires '\"' !in value
    ensures Escaped(value, pending) == Repeat('\\', pending) + value + Repeat('\\', last) + "\""
    ensures last == 0 <==> !EndsWithBackslash(Repeat('\\', pending) + value)
    decreases |value|
  {
    var all := Repeat('\\', pending) + value;
    if value == "" {
      last := pending;
    } else if value[0] == '\\' {
      last := EscapedWithoutQuotes(value[1..], pending + 1);
      assert Repeat('\\', pending + 1) + value[1..] == all;
    } else {
      last := EscapedWithoutQuotes(value[1..], 0);
      assert Repeat('\\', pending) + [value[0]] + (Repeat('\\', 0) + value[1..]) == all;
      assert EndsWithBackslash(Repeat('\\', 0) + value[1..]) <==> EndsWithBackslash(all);
    }
  }

  /** Exactly when the program survives the program-name rules: it holds no quote and, if it has to be quoted,
      it does not end in a backslash. A caller can test this before the call. */
  lemma ProgramSurvives(command: string, args: seq<string>)
    requires WindowsCommand(command, args).Some?
    ensures ReadProgram(WindowsCommand(command, args).value) == command
      <==> '\"' !in command && (Plain(command) || !EndsWithBackslash(command))
  {
    var line := WindowsCommand(command, args).value;
    var tail := WindowsArguments(args).value;
    var rest := if tail == "" then "" else " " + tail;
    assert line == Quoted(command) + rest;
    if Plain(command) {
      assert command[0] in command;
      UpToStopsAtBlank(command, rest);
    } else if '\"' in command {
      UpToNeverHoldsAQuote(line[1..]);
    } else {
      QuotedProgram(command, rest);
    }
  }

  lemma QuotedProgram(command: string, rest: string)
    requires '\"' !in command && !Plain(command)
    ensures ReadProgram(Quoted(command) + rest) == command <==> !EndsWithBackslash(command)
  {
    var last := EscapedWithoutQuotes(command, 0);
    assert Repeat('\\', 0) + command == command;
    var program := command + Repeat('\\', last);
    var line := Quoted(command) + rest;
    AppendAssociates("\"", program + "\"", rest);
    assert line[1..] == program + "\"" + rest;
    UpToStopsAtQuote(program, rest);
    assert ReadProgram(line) == program;
    assert last == 0 <==> program == command;
  }

  /** Two programs that are printed but not read back: one that has to be quoted and ends in a backslash, and one
      with a quote in it. */
  lemma ProgramCanBeLost(args: seq<string>)
    requires WindowsArguments(args).Some?
    ensures WindowsCommand("a b\\", args).Some? && ReadProgram(WindowsCommand("a b\\", args).value) != "a b\\"
    ensures WindowsCommand("a\"b", args).Some? && ReadProgram(WindowsCommand("a\"b", args).value) != "a\"b"
  {
    assert "a b\\"[1] in "a b\\" && IsSpace("a b\\"[1]);
    ProgramSurvives("a b\\", args);
    assert "a\"b"[1] == '\"';
    ProgramSurvives("a\"b", args);
  }

  // ----- POSIX: the printer and the reader -----

  /** Each quote of the value leaves the quoted part, is printed inside double quotes, and opens a new part. */
  function PosixEscaped(value: string): string {
    if value == "" then ""
    else if value[0] == '\'' then "'\"'\"'" + PosixEscaped(value[1..])
    else [value[0]] + PosixEscaped(value[1..])
  }

  function PosixWord(value: string): string {
    "'" + PosixEscaped(value) + "'"
  }

  function PosixWords(values: seq<string>): seq<string> {
    seq(|values|, i requires 0 <= i < |values| => PosixWord(values[i]))
  }

  function PosixCommand(command: string, args: seq<string>): string {
    Join(PosixWords([command] + args), " ")
  }

  datatype ShellQuote = Unquoted | Single | Double

  /** Characters that are not read literally outside quotes (IEEE Std 1003.1-2017, Shell, section 2.2). */
  predicate IsShellSpecial(c: char) {
    c in "|&;<>()$`\\*?[#~=%!{}\n"
  }

  /** Reads one word by sections 2.2.2, 2.2.3 and 2.3: its value and what follows. None when a quote is left open
      or when the shell would do anything but take the characters literally. */
  function ReadWord(line: string, quote: ShellQuote): (r: Option<(string, string)>)
    ensures r.Some? ==> |r.value.1| <= |line|
    decreases |line|
  {
    if line == "" then if quote.Unquoted? then Some(("", "")) else None
    else if quote.Unquoted? && IsBlank(line[0]) then Some(("", line))
    else if quote.Unquoted? && line[0] == '\'' then ReadWord(line[1..], Single)
    else if quote.Unquoted? && line[0] == '\"' then ReadWord(line[1..], Double)
    else if quote.Single? && line[0] == '\'' then ReadWord(line[1..], Unquoted)
    else if quote.Double? && line[0] == '\"' then ReadWord(line[1..], Unquoted)
    else if quote.Unquoted? && IsShellSpecial(line[0]) then None
    else if quote.Double? && line[0] in "$`\\" then None
    else
      match ReadWord(line[1..], quote)
      case None => None
      case Some((value, rest)) => Some(([line[0]] + value, rest))
  }

  function SplitWords(line: string): Option<seq<string>>
    decreases |line|
  {
    if line == "" then Some([])
    else if IsBlank(line[0]) then SplitWords(line[1..])
    else
      match ReadWord(line, Unquoted)
      case None => None
      case Some((value, rest)) =>
        if |rest| == |line| then None
        else
          match SplitWords(rest)
          case None => None
          case Some(values) => Some([value] + values)
  }

  lemma {:induction false} PosixReadsBack(value: string, rest: string)
    requires EndsArgument(rest)
    ensures ReadWord(PosixEscaped(value) + "'" + rest, Single) == Some((value, rest))
  {
    var line := PosixEscaped(value) + "'" + rest;
    if value == "" {
      assert line[1..] == rest;
      assert ReadWord(rest, Unquoted) == Some(("", rest));
    } else {
      PosixReadsBack(value[1..], rest);
      var after := PosixEscaped(value[1..]) + "'" + rest;
      assert [value[0]] + value[1..] == value;
      if value[0] == '\'' {
        QuotedQuote(after);
        assert line == "'\"'\"'" + after;
      } else {
        assert line[1..] == after;
      }
    }
  }

  /** A quote that opens or closes a part. */
  lemma ReadsQuote(c: char, after: string)
    ensures c == '\'' ==> ReadWord([c] + after, Single) == ReadWord(after, Unquoted)
    ensures c == '\'' ==> ReadWord([c] + after, Unquoted) == ReadWord(after, Single)
    ensures c == '\"' ==> ReadWord([c] + after, Double) == ReadWord(after, Unquoted)
    ensures c == '\"' ==> ReadWord([c] + after, Unquoted) == ReadWord(after, Double)
  {
    assert ([c] + after)[1..] == after;
  }

  lemma ReadsQuoted(c: char, after: string)
    requires c !in "\"$`\\" && ReadWord(after, Double).Some?
    ensures ReadWord([c] + after, Double)
      == Some(([c] + ReadWord(after, Double).value.0, ReadWord(after, Double).value.1))
  {
    assert ([c] + after)[1..] == after;
  }

  /** The five characters printed for a quote close the part, read as one quote, and open the next part. */
  lemma QuotedQuote(after: string)
    requires ReadWord(after, Single).Some?
    ensures ReadWord("'\"'\"'" + after, Single)
      == Some(("'" + ReadWord(after, Single).value.0, ReadWord(after, Single).value.1))
  {
    var line1 := ['\''] + after;
    var line2 := ['\"'] + line1;
    var line3 := ['\''] + line2;
    var line4 := ['\"'] + line3;
    ReadsQuote('\'', after);
    ReadsQuote('\"', line1);
    ReadsQuoted('\'', line2);
    ReadsQuote('\"', line3);
    ReadsQuote('\'', line4);
    assert ['\''] + line4 == "'\"'\"'" + after;
  }

  lemma SplitFirstWord(value: string, rest: string, values: seq<string>)
    requires EndsArgument(rest) && SplitWords(rest) == Some(values)
    ensures SplitWords(PosixWord(value) + rest) == Some([value] + values)
  {
    var line := PosixWord(value) + rest;
    var after := PosixEscaped(value) + "'" + rest;
    PosixReadsBack(value, rest);
    AppendAssociates("'", PosixEscaped(value) + "'", rest);
    assert line[0] == '\'' && line[1..] == after;
    assert ReadWord(line, Unquoted) == ReadWord(after, Single);
  }

  /** Field splitting gives back exactly the words that were printed, for every string. */
  lemma {:induction false} SplitOfPrintedWords(values: seq<string>)
    ensures SplitWords(Join(PosixWords(values), " ")) == Some(values)
  {
    var parts := PosixWords(values);
    if values == [] {
      assert parts == [];
    } else {
      var rest := if |values| == 1 then "" else " " + Join(parts[1..], " ");
      assert Join(parts, " ") == parts[0] + rest;
      SplitOfPrintedWords(values[1..]);
      assert PosixWords(values[1..]) == parts[1..];
      assert |values| > 1 ==> rest[1..] == Join(parts[1..], " ");
      SplitFirstWord(values[0], rest, values[1..]);
      assert values == [values[0]] + values[1..];
    }
  }

  lemma PosixCommandRoundTrip(command: string, args: seq<string>)
    ensures SplitWords(PosixCommand(command, args)) == Some([command] + args)
  {
    SplitOfPrintedWords([command] + args);
  }
}
