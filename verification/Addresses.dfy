/** Address arithmetic of the trusted-network check (packages/dsh-luban-auth/src/http-security.ts). */
module Addresses {
  import opened Wrappers
  import opened Text

  // ----- Splitting and numbers -----

  /** The parts between separators; there is always at least one. */
  function Split(s: string, separator: char): (r: seq<string>)
    ensures r != []
    ensures forall part :: part in r ==> separator !in part
  {
    if s == "" then [""]
    else if s[0] == separator then [""] + Split(s[1..], separator)
    else
      var rest := Split(s[1..], separator);
      [[s[0]] + rest[0]] + rest[1..]
  }

  predicate IsDigit(c: char) {
    '0' <= c <= '9'
  }

  predicate IsHexDigit(c: char) {
    IsDigit(c) || 'a' <= c <= 'f'
  }

  predicate AllDigits(s: string) {
    s != "" && forall c :: c in s ==> IsDigit(c)
  }

  /** One to four lower-case hexadecimal digits. */
  predicate IsGroup(s: string) {
    1 <= |s| <= 4 && forall c :: c in s ==> IsHexDigit(c)
  }

  /** Values of digits; only asked of texts that consist of digits. */
  function DecimalValue(s: string): nat {
    if s == "" then 0
    else 10 * DecimalValue(s[..|s| - 1]) + (if IsDigit(s[|s| - 1]) then s[|s| - 1] as int - '0' as int else 0)
  }

  function HexDigitValue(c: char): (v: nat)
    ensures v < 16
  {
    if IsDigit(c) then c as int - '0' as int else if IsHexDigit(c) then c as int - 'a' as int + 10 else 0
  }

  function HexValue(s: string): nat {
    if s == "" then 0 else 16 * HexValue(s[..|s| - 1]) + HexDigitValue(s[|s| - 1])
  }

  function HexDigit(v: nat): (c: char)
    requires v < 16
    ensures IsHexDigit(c) && HexDigitValue(c) == v
  {
    if v < 10 then (v + '0' as int) as char else (v - 10 + 'a' as int) as char
  }

  /** Shortest hexadecimal notation. */
  function HexString(n: nat): (s: string)
    ensures s != "" && forall c :: c in s ==> IsHexDigit(c)
  {
    (if n < 16 then "" else HexString(n / 16)) + [HexDigit(n % 16)]
  }

  function LowerChar(c: char): char {
    if 'A' <= c <= 'Z' then (c as int + 32) as char else c
  }

  function Lower(s: string): (r: string)
    ensures |r| == |s| && forall i :: 0 <= i < |s| ==> r[i] == LowerChar(s[i])
  {
    seq(|s|, i requires 0 <= i < |s| => LowerChar(s[i]))
  }

  // ----- IPv4 -----

  /** Four runs of digits between dots. */
  predicate IsDotted(s: string) {
    var parts := Split(s, '.');
    |parts| == 4 && forall part :: part in parts ==> AllDigits(part)
  }

  function Ipv4ToInt(s: string): Option<nat>
    requires IsDotted(s)
  {
    var parts := Split(s, '.');
    var (a, b) := (DecimalValue(parts[0]), DecimalValue(parts[1]));
    var (c, d) := (DecimalValue(parts[2]), DecimalValue(parts[3]));
    if a > 255 || b > 255 || c > 255 || d > 255 then None else Some(((a * 256 + b) * 256 + c) * 256 + d)
  }

  // ----- IPv6 -----

  /** What follows the last colon. */
  function AfterLastColon(s: string): (r: string)
    ensures |r| <= |s| && s[|s| - |r|..] == r && ':' !in r
  {
    if ':' !in s then s else AfterLastColon(s[1..])
  }

  /** The two hexadecimal groups of an IPv4 number. */
  function HexTail(v: nat): string {
    HexString(v / 65536 % 65536) + ":" + HexString(v % 65536)
  }

  /** Replaces a dotted tail by its two hexadecimal groups. */
  function Normalized(s: string): Option<string> {
    var lower := Lower(s);
    var tail := AfterLastColon(lower);
    if !IsDotted(tail) then Some(lower)
    else
      match Ipv4ToInt(tail)
      case None => None
      case Some(v) => Some(lower[..|lower| - |tail|] + HexTail(v))
  }

  /** The leftmost pair of colons. */
  function DoubleColon(s: string): (r: Option<nat>)
    ensures r.Some? ==> r.value + 2 <= |s| && s[r.value] == ':' && s[r.value + 1] == ':'
  {
    if |s| < 2 then None
    else if s[0] == ':' && s[1] == ':' then Some(0)
    else
      match DoubleColon(s[1..])
      case None => None
      case Some(i) => Some(i + 1)
  }

  function Side(s: string): seq<string> {
    if s == "" then [] else Split(s, ':')
  }

  function Zeros(n: nat): seq<string> {
    seq(n, i => "0")
  }

  /** The eight groups of a normalized text. */
  function Groups(s: string): (r: Option<seq<string>>)
    ensures r.Some? ==> |r.value| == 8 && forall g :: g in r.value ==> IsGroup(g)
  {
    match DoubleColon(s)
    case None =>
      var groups := Side(s);
      if |groups| == 8 && (forall g :: g in groups ==> IsGroup(g)) then Some(groups) else None
    case Some(i) =>
      var (left, right) := (Side(s[..i]), Side(s[i + 2..]));
      if DoubleColon(s[i + 2..]).Some? || |left| + |right| > 8 then None
      else
        var groups := left + Zeros(8 - |left| - |right|) + right;
        if forall g :: g in groups ==> IsGroup(g) then Some(groups) else None
  }

  function GroupsValue(groups: seq<string>): nat {
    if groups == [] then 0 else 65536 * GroupsValue(groups[..|groups| - 1]) + HexValue(groups[|groups| - 1])
  }

  function Ipv6ToInt(s: string): Option<nat> {
    match Normalized(s)
    case None => None
    case Some(n) =>
      match Groups(n)
      case None => None
      case Some(groups) => Some(GroupsValue(groups))
  }

  // ----- The text forms of RFC 4291, section 2.2 -----

  /** An IPv4 tail in dotted decimal, or none. */
  datatype Quad = NoQuad | Quad(a: string, b: string, c: string, d: string)

  /** Groups in front, groups behind a double colon if there is one, and perhaps an IPv4 tail at the end. */
  datatype TextForm = TextForm(left: seq<string>, compressed: bool, right: seq<string>, quad: Quad)

  function QuadText(q: Quad): string
    requires q.Quad?
  {
    Join([q.a, q.b, q.c, q.d], ".")
  }

  function Tail(q: Quad): seq<string> {
    if q.NoQuad? then [] else [QuadText(q)]
  }

  function Print(t: TextForm): string {
    if t.compressed then Join(t.left, ":") + "::" + Join(t.right + Tail(t.quad), ":")
    else Join(t.left + Tail(t.quad), ":")
  }

  predicate IsOctet(s: string) {
    AllDigits(s) && DecimalValue(s) <= 255
  }

  predicate HasOctets(q: Quad) {
    q.Quad? ==> IsOctet(q.a) && IsOctet(q.b) && IsOctet(q.c) && IsOctet(q.d)
  }

  /** Groups and octets where they belong, however many. */
  predicate Shaped(t: TextForm) {
    (forall g :: g in t.left + t.right ==> IsGroup(Lower(g))) && HasOctets(t.quad) && (t.compressed || t.right == [])
  }

  /** A tail counts for two groups. */
  function GroupCount(t: TextForm): nat {
    |t.left| + |t.right| + (if t.quad.Quad? then 2 else 0)
  }

  /** Eight groups, or at most seven around a double colon. */
  predicate WellFormed(t: TextForm) {
    Shaped(t) && if t.compressed then GroupCount(t) <= 7 else GroupCount(t) == 8
  }

  function Words(groups: seq<string>): seq<nat> {
    seq(|groups|, i requires 0 <= i < |groups| => HexValue(Lower(groups[i])))
  }

  function QuadWords(q: Quad): seq<nat> {
    if q.NoQuad? then []
    else [DecimalValue(q.a) * 256 + DecimalValue(q.b), DecimalValue(q.c) * 256 + DecimalValue(q.d)]
  }

  /** The eight 16-bit words: the double colon stands for as many zeros as are missing. */
  function AddressWords(t: TextForm): seq<nat> {
    var behind := Words(t.right) + QuadWords(t.quad);
    var missing := 8 - |t.left| - |behind|;
    Words(t.left) + (if missing > 0 then seq(missing, i => 0) else []) + behind
  }

  /** The number of a list of 16-bit words, most significant first. */
  function WordsValue(words: seq<nat>): nat {
    if words == [] then 0 else 65536 * WordsValue(words[..|words| - 1]) + words[|words| - 1]
  }

  // ----- Prefix comparison -----

  /** `v >> k` on unbounded integers. */
  function ShiftRight(v: nat, k: nat): nat {
    if k == 0 then v else ShiftRight(v, k - 1) / 2
  }

  function Pow2(n: nat): nat {
    if n == 0 then 1 else 2 * Pow2(n - 1)
  }

  /** The i-th bit of an n-bit number, counted from the most significant one. */
  function Bit(v: nat, n: nat, i: nat): nat
    requires i < n
  {
    ShiftRight(v, n - 1 - i) % 2
  }

  ghost predicate SameBits(a: nat, b: nat, n: nat, prefix: nat)
    requires prefix <= n
  {
    forall i :: 0 <= i < prefix ==> Bit(a, n, i) == Bit(b, n, i)
  }

  lemma {:induction false} ShiftBounds(v: nat, n: nat, k: nat)
    requires v < Pow2(n) && k <= n
    ensures ShiftRight(v, k) < Pow2(n - k)
  {
    if k > 0 {
      ShiftBounds(v, n, k - 1);
    }
  }

  /** Shifted numbers are equal exactly when the bits that are left agree. */
  lemma {:induction false} ShiftedEqualIffBitsAgree(a: nat, b: nat, n: nat, prefix: nat)
    requires a < Pow2(n) && b < Pow2(n) && prefix <= n
    ensures ShiftRight(a, n - prefix) == ShiftRight(b, n - prefix) <==> SameBits(a, b, n, prefix)
    decreases prefix
  {
    if prefix == 0 {
      ShiftBounds(a, n, n);
      ShiftBounds(b, n, n);
    } else {
      var p := prefix - 1;
      ShiftedEqualIffBitsAgree(a, b, n, p);
      assert ShiftRight(a, n - p) == ShiftRight(a, n - prefix) / 2;
      assert ShiftRight(b, n - p) == ShiftRight(b, n - prefix) / 2;
      assert Bit(a, n, p) == ShiftRight(a, n - prefix) % 2 && Bit(b, n, p) == ShiftRight(b, n - prefix) % 2;
    }
  }

  // ----- Splitting undoes joining -----

  lemma {:induction false} SplitPrefix(part: string, rest: string, separator: char)
    requires separator !in part
    ensures Split(part + [separator] + rest, separator) == [part] + Split(rest, separator)
  {
    var s := part + [separator] + rest;
    if part == "" {
      assert s[0] == separator && s[1..] == rest;
    } else {
      SplitPrefix(part[1..], rest, separator);
      assert s[0] == part[0] && s[1..] == part[1..] + [separator] + rest;
      assert [part[0]] + part[1..] == part;
    }
  }

  lemma {:induction false} SplitNone(part: string, separator: char)
    requires separator !in part
    ensures Split(part, separator) == [part]
  {
    if part != "" {
      SplitNone(part[1..], separator);
      assert [part[0]] + part[1..] == part;
    }
  }

  lemma {:induction false} SplitJoin(parts: seq<string>, separator: char)
    requires parts != [] && forall part :: part in parts ==> separator !in part
    ensures Split(Join(parts, [separator]), separator) == parts
  {
    assert parts[0] in parts;
    if |parts| == 1 {
      SplitNone(parts[0], separator);
    } else {
      SplitJoin(parts[1..], separator);
      SplitPrefix(parts[0], Join(parts[1..], [separator]), separator);
      assert parts == [parts[0]] + parts[1..];
    }
  }

  // ----- Reading hexadecimal groups back -----

  ghost predicate Solid(groups: seq<string>) {
    forall g :: g in groups ==> g != "" && ':' !in g
  }

  lemma GroupsAreSolid(groups: seq<string>)
    requires forall g :: g in groups ==> IsGroup(g)
    ensures Solid(groups)
  {
    forall g | g in groups ensures ':' !in g {
      assert forall c :: c in g ==> IsHexDigit(c);
    }
  }

  /** Joined groups hold no double colon and neither begin nor end with a colon. */
  lemma {:induction false} JoinedIsSingle(groups: seq<string>)
    requires Solid(groups)
    ensures var s := Join(groups, ":");
            DoubleColon(s).None? && (groups != [] ==> s != "" && s[0] != ':' && s[|s| - 1] != ':')
  {
    if groups != [] {
      var g := groups[0];
      assert g in groups && g[0] in g && g[|g| - 1] in g;
      if |groups| == 1 {
        NoColonNoPair(g);
      } else {
        assert forall h :: h in groups[1..] ==> h in groups;
        JoinedIsSingle(groups[1..]);
        SinglePair(g, Join(groups[1..], ":"));
      }
    }
  }

  lemma {:induction false} NoColonNoPair(s: string)
    requires ':' !in s
    ensures DoubleColon(s).None?
  {
    if |s| >= 2 {
      NoColonNoPair(s[1..]);
    }
  }

  lemma {:induction false} SinglePair(g: string, rest: string)
    requires g != "" && ':' !in g && DoubleColon(rest).None? && rest != "" && rest[0] != ':'
    ensures DoubleColon(g + ":" + rest).None?
  {
    var s := g + ":" + rest;
    assert s[1..] == g[1..] + ":" + rest;
    if |g| == 1 {
      assert s[1..] == ":" + rest && s[1..][1..] == rest;
    } else {
      SinglePair(g[1..], rest);
    }
  }

  lemma {:induction false} FirstPair(s: string, rest: string)
    requires DoubleColon(s).None? && (s != "" ==> s[|s| - 1] != ':')
    ensures DoubleColon(s + "::" + rest) == Some(|s|)
  {
    var all := s + "::" + rest;
    if s != "" {
      assert all[1..] == s[1..] + "::" + rest;
      FirstPair(s[1..], rest);
    }
  }

  lemma SideOfJoined(groups: seq<string>)
    requires Solid(groups)
    ensures Side(Join(groups, ":")) == groups
  {
    JoinedIsSingle(groups);
    if groups != [] {
      SplitJoin(groups, ':');
    }
  }

  /** The printed form of groups without an IPv4 tail. */
  function GroupsText(left: seq<string>, compressed: bool, right: seq<string>): string {
    if compressed then Join(left, ":") + "::" + Join(right, ":") else Join(left, ":")
  }

  /** A text of lower-case groups is read as its groups with the missing zeros between them. */
  lemma GroupsOfText(left: seq<string>, compressed: bool, right: seq<string>)
    requires forall g :: g in left + right ==> IsGroup(g)
    requires if compressed then |left| + |right| <= 8 else |left| == 8 && right == []
    ensures Groups(GroupsText(left, compressed, right)) == Some(left + Zeros(8 - |left| - |right|) + right)
  {
    assert forall g :: g in left || g in right ==> g in left + right;
    GroupsAreSolid(left);
    GroupsAreSolid(right);
    JoinedIsSingle(left);
    JoinedIsSingle(right);
    SideOfJoined(left);
    SideOfJoined(right);
    var (before, behind) := (Join(left, ":"), Join(right, ":"));
    var text := GroupsText(left, compressed, right);
    if compressed {
      FirstPair(before, behind);
      assert text[..|before|] == before && text[|before| + 2..] == behind;
      assert IsGroup("0");
    } else {
      assert left + Zeros(0) + right == left;
    }
  }

  // ----- Lower case and the IPv4 tail -----

  function LowerAll(parts: seq<string>): (r: seq<string>)
    ensures |r| == |parts| && forall i :: 0 <= i < |parts| ==> r[i] == Lower(parts[i])
  {
    seq(|parts|, i requires 0 <= i < |parts| => Lower(parts[i]))
  }

  lemma LowerAppend(a: string, b: string)
    ensures Lower(a + b) == Lower(a) + Lower(b)
  {
  }

  lemma {:induction false} LowerJoin(parts: seq<string>, separator: string)
    requires Lower(separator) == separator
    ensures Lower(Join(parts, separator)) == Join(LowerAll(parts), separator)
  {
    if |parts| > 1 {
      LowerJoin(parts[1..], separator);
      LowerAppend(parts[0] + separator, Join(parts[1..], separator));
      LowerAppend(parts[0], separator);
      assert LowerAll(parts)[1..] == LowerAll(parts[1..]);
    }
  }

  /** Every group followed by a colon. */
  function Lead(groups: seq<string>): string {
    if groups == [] then "" else groups[0] + ":" + Lead(groups[1..])
  }

  lemma JoinStep(part: string, rest: seq<string>, separator: string)
    requires rest != []
    ensures Join([part] + rest, separator) == part + separator + Join(rest, separator)
  {
    assert ([part] + rest)[1..] == rest;
  }

  lemma LeadStep(group: string, rest: seq<string>, tail: string)
    ensures Lead([group] + rest) + tail == group + ":" + (Lead(rest) + tail)
  {
    assert ([group] + rest)[1..] == rest;
  }

  lemma {:induction false} JoinIsLead(groups: seq<string>, tail: seq<string>)
    requires tail != []
    ensures Join(groups + tail, ":") == Lead(groups) + Join(tail, ":")
  {
    if groups == [] {
      assert groups + tail == tail;
    } else {
      assert groups == [groups[0]] + groups[1..];
      JoinIsLead(groups[1..], tail);
      assert groups + tail == [groups[0]] + (groups[1..] + tail);
      JoinStep(groups[0], groups[1..] + tail, ":");
      LeadStep(groups[0], groups[1..], Join(tail, ":"));
    }
  }

  ghost predicate AtColon(s: string) {
    s != "" ==> s[|s| - 1] == ':'
  }

  lemma {:induction false} LeadEndsAtColon(groups: seq<string>)
    ensures AtColon(Lead(groups))
  {
    if groups != [] {
      LeadEndsAtColon(groups[1..]);
    }
  }

  lemma {:induction false} AfterLastColonIs(front: string, tail: string)
    requires ':' !in tail && AtColon(front)
    ensures AfterLastColon(front + tail) == tail
  {
    var s := front + tail;
    if front == "" {
      assert s == tail;
    } else {
      assert s[|front| - 1] == ':' && ':' in s;
      assert s[1..] == front[1..] + tail;
      AfterLastColonIs(front[1..], tail);
    }
  }

  lemma {:induction false} HexStringValue(n: nat)
    ensures HexValue(HexString(n)) == n
    ensures n < 65536 ==> |HexString(n)| <= 4
    ensures n < 4096 ==> |HexString(n)| <= 3
    ensures n < 256 ==> |HexString(n)| <= 2
    ensures n < 16 ==> |HexString(n)| <= 1
  {
    var s := HexString(n);
    assert s[..|s| - 1] == (if n < 16 then "" else HexString(n / 16));
    if n >= 16 {
      HexStringValue(n / 16);
    }
  }

  /** A joined text is made of the characters of its parts and of the separator. */
  lemma {:induction false} JoinedChars(parts: seq<string>, separator: char, c: char)
    requires c in Join(parts, [separator])
    ensures c == separator || exists part :: part in parts && c in part
  {
    if |parts| > 1 {
      var rest := Join(parts[1..], [separator]);
      if c in parts[0] {
        assert parts[0] in parts;
      } else if c != separator {
        assert c in rest;
        JoinedChars(parts[1..], separator, c);
      }
    } else {
      assert parts[0] in parts;
    }
  }

  lemma QuadChars(q: Quad)
    requires q.Quad? && HasOctets(q)
    ensures forall c :: c in QuadText(q) ==> IsDigit(c) || c == '.'
  {
    forall c | c in QuadText(q) ensures IsDigit(c) || c == '.' {
      JoinedChars([q.a, q.b, q.c, q.d], '.', c);
    }
  }

  lemma QuadIsDotted(q: Quad)
    requires q.Quad? && HasOctets(q)
    ensures ':' !in QuadText(q) && Lower(QuadText(q)) == QuadText(q)
    ensures IsDotted(QuadText(q))
    ensures Ipv4ToInt(QuadText(q)) == Some(QuadWords(q)[0] * 65536 + QuadWords(q)[1])
  {
    var parts := [q.a, q.b, q.c, q.d];
    var text := QuadText(q);
    QuadChars(q);
    forall i | 0 <= i < |text| ensures LowerChar(text[i]) == text[i] {
      assert text[i] in text;
    }
    SplitJoin(parts, '.');
  }

  /** What stands before the IPv4 tail. */
  function Front(t: TextForm): string {
    if t.compressed then Join(t.left, ":") + "::" + Lead(t.right) else Lead(t.left)
  }

  lemma FrontEndsAtColon(t: TextForm)
    ensures AtColon(Front(t))
  {
    LeadEndsAtColon(t.left);
    LeadEndsAtColon(t.right);
  }

  /** The form that has words in hexadecimal, `tail`, where `t` has its IPv4 tail. */
  function WithTail(t: TextForm, tail: seq<string>): string {
    GroupsText(if t.compressed then t.left else t.left + tail, t.compressed,
               if t.compressed then t.right + tail else [])
  }

  lemma WithTailIsFront(t: TextForm, tail: seq<string>)
    requires tail != []
    ensures WithTail(t, tail) == Front(t) + Join(tail, ":")
  {
    if t.compressed {
      JoinIsLead(t.right, tail);
    } else {
      JoinIsLead(t.left, tail);
    }
  }

  lemma LowerFront(t: TextForm)
    ensures Lower(Front(t)) == Front(t.(left := LowerAll(t.left), right := LowerAll(t.right)))
  {
    LowerLead(t.left);
    LowerLead(t.right);
    LowerJoin(t.left, ":");
    if t.compressed {
      LowerAppend(Join(t.left, ":") + "::", Lead(t.right));
      LowerAppend(Join(t.left, ":"), "::");
    }
  }

  lemma {:induction false} LowerLead(groups: seq<string>)
    ensures Lower(Lead(groups)) == Lead(LowerAll(groups))
  {
    if groups != [] {
      LowerLead(groups[1..]);
      LowerAppend(groups[0] + ":", Lead(groups[1..]));
      LowerAppend(groups[0], ":");
      assert LowerAll(groups)[1..] == LowerAll(groups[1..]);
    }
  }

  // ----- Every text form is read as its words -----

  function Lowered(t: TextForm): TextForm {
    t.(left := LowerAll(t.left), right := LowerAll(t.right))
  }

  /** The two hexadecimal groups an IPv4 tail becomes. */
  function QuadGroups(q: Quad): (r: seq<string>)
    requires q.Quad? && QuadWords(q)[0] < 65536 && QuadWords(q)[1] < 65536
    ensures |r| == 2
  {
    [HexString(QuadWords(q)[0]), HexString(QuadWords(q)[1])]
  }

  lemma HexGroup(n: nat)
    requires n < 65536
    ensures IsGroup(HexString(n)) && HexValue(HexString(n)) == n
  {
    HexStringValue(n);
  }

  lemma QuadWordsAreSmall(q: Quad)
    requires q.Quad? && HasOctets(q)
    ensures QuadWords(q)[0] < 65536 && QuadWords(q)[1] < 65536
  {
  }

  lemma HexPair(high: nat, low: nat, groups: seq<string>)
    requires high < 65536 && low < 65536 && groups == [HexString(high), HexString(low)]
    ensures forall g :: g in groups ==> IsGroup(g)
    ensures HexValue(groups[0]) == high && HexValue(groups[1]) == low
  {
    HexGroup(high);
    HexGroup(low);
  }

  lemma QuadGroupsAreGroups(q: Quad)
    requires q.Quad? && HasOctets(q)
    ensures QuadWords(q)[0] < 65536 && QuadWords(q)[1] < 65536
    ensures forall g :: g in QuadGroups(q) ==> IsGroup(g)
    ensures HexValue(QuadGroups(q)[0]) == QuadWords(q)[0] && HexValue(QuadGroups(q)[1]) == QuadWords(q)[1]
  {
    QuadWordsAreSmall(q);
    HexPair(QuadWords(q)[0], QuadWords(q)[1], QuadGroups(q));
  }

  /** The groups a text form is read as, up to the missing zeros. */
  function Behind(t: TextForm): seq<string>
    requires Shaped(t)
  {
    LowerAll(t.right) + (if t.quad.NoQuad? then [] else (QuadGroupsAreGroups(t.quad); QuadGroups(t.quad)))
  }

  function NormalForm(t: TextForm): string
    requires Shaped(t)
  {
    var left := LowerAll(t.left);
    if t.compressed then GroupsText(left, true, Behind(t)) else GroupsText(left + Behind(t), false, [])
  }

  lemma LoweredAreGroups(t: TextForm)
    requires Shaped(t)
    ensures forall g :: g in LowerAll(t.left) ==> IsGroup(g)
    ensures forall g :: g in LowerAll(t.right) ==> IsGroup(g)
  {
    forall g | g in LowerAll(t.left) ensures IsGroup(g) {
      var i :| 0 <= i < |t.left| && LowerAll(t.left)[i] == g;
      assert t.left[i] in t.left + t.right;
    }
    forall g | g in LowerAll(t.right) ensures IsGroup(g) {
      var i :| 0 <= i < |t.right| && LowerAll(t.right)[i] == g;
      assert t.right[i] in t.left + t.right;
    }
  }

  lemma GroupChars(groups: seq<string>)
    requires forall g :: g in groups ==> IsGroup(g)
    ensures forall c :: c in Join(groups, ":") ==> c == ':' || IsHexDigit(c)
  {
    forall c | c in Join(groups, ":") ensures c == ':' || IsHexDigit(c) {
      JoinedChars(groups, ':', c);
    }
  }

  /** A text without a dot is only put in lower case. */
  lemma WithoutDot(s: string)
    requires '.' !in Lower(s)
    ensures Normalized(s) == Some(Lower(s))
  {
    var (lower, tail) := (Lower(s), AfterLastColon(Lower(s)));
    assert forall c :: c in tail ==> c in lower[|lower| - |tail|..];
    SplitNone(tail, '.');
  }

  lemma LowerOfGroups(left: seq<string>, compressed: bool, right: seq<string>)
    ensures Lower(GroupsText(left, compressed, right)) == GroupsText(LowerAll(left), compressed, LowerAll(right))
  {
    LowerJoin(left, ":");
    LowerJoin(right, ":");
    if compressed {
      LowerAppend(Join(left, ":") + "::", Join(right, ":"));
      LowerAppend(Join(left, ":"), "::");
    }
  }

  lemma NormalFormIsLower(t: TextForm)
    requires Shaped(t) && t.quad.NoQuad?
    ensures Print(t) == GroupsText(t.left, t.compressed, t.right)
    ensures NormalForm(t) == GroupsText(LowerAll(t.left), t.compressed, LowerAll(t.right))
  {
    assert t.right + Tail(t.quad) == t.right && t.left + Tail(t.quad) == t.left;
    assert Behind(t) == LowerAll(t.right) && LowerAll(t.left) + LowerAll([]) == LowerAll(t.left);
  }

  lemma NormalizedWithoutQuad(t: TextForm)
    requires Shaped(t) && t.quad.NoQuad?
    ensures Normalized(Print(t)) == Some(NormalForm(t))
  {
    NormalFormIsLower(t);
    LowerOfGroups(t.left, t.compressed, t.right);
    LoweredAreGroups(t);
    GroupChars(LowerAll(t.left));
    GroupChars(LowerAll(t.right));
    assert !IsHexDigit('.');
    WithoutDot(Print(t));
  }

  /** A dotted tail behind a front that ends at a colon is replaced by its two groups. */
  lemma TailReplaced(s: string, front: string, tail: string, v: nat)
    requires Lower(s) == front + tail && AtColon(front) && ':' !in tail
    requires IsDotted(tail) && Ipv4ToInt(tail) == Some(v)
    ensures Normalized(s) == Some(front + HexTail(v))
  {
    AfterLastColonIs(front, tail);
    var lower := Lower(s);
    assert lower[..|lower| - |tail|] == front;
  }

  lemma LowerOfPrint(t: TextForm)
    requires Shaped(t) && t.quad.Quad?
    ensures Lower(Print(t)) == Front(Lowered(t)) + QuadText(t.quad)
  {
    var q := QuadText(t.quad);
    QuadIsDotted(t.quad);
    assert Print(t) == WithTail(t, [q]);
    WithTailIsFront(t, [q]);
    LowerFront(t);
    LowerAppend(Front(t), q);
  }

  lemma NormalizedWithQuad(t: TextForm)
    requires Shaped(t) && t.quad.Quad?
    ensures Normalized(Print(t)) == Some(NormalForm(t))
  {
    var (text, front, tail) := (Print(t), Front(Lowered(t)), QuadText(t.quad));
    var v := QuadWords(t.quad)[0] * 65536 + QuadWords(t.quad)[1];
    assert NormalForm(t) == front + HexTail(v) by {
      NormalFormIsReplaced(t);
    }
    assert Lower(text) == front + tail by {
      LowerOfPrint(t);
    }
    assert ':' !in tail && IsDotted(tail) && Ipv4ToInt(tail) == Some(v) by {
      QuadIsDotted(t.quad);
    }
    FrontEndsAtColon(Lowered(t));
    TailReplaced(text, front, tail, v);
  }

  lemma NormalFormIsReplaced(t: TextForm)
    requires Shaped(t) && t.quad.Quad?
    ensures var words := QuadWords(t.quad);
            NormalForm(t) == Front(Lowered(t)) + HexTail(words[0] * 65536 + words[1])
  {
    NormalFormIsWithTail(t);
    WithTailIsFront(Lowered(t), QuadGroups(t.quad));
    JoinStep(QuadGroups(t.quad)[0], [QuadGroups(t.quad)[1]], ":");
    HalvesOf(QuadWords(t.quad)[0], QuadWords(t.quad)[1]);
  }

  lemma Halves(high: nat, low: nat)
    requires high < 65536 && low < 65536
    ensures (high * 65536 + low) / 65536 % 65536 == high && (high * 65536 + low) % 65536 == low
  {
  }

  lemma HalvesOf(high: nat, low: nat)
    requires high < 65536 && low < 65536
    ensures HexTail(high * 65536 + low) == HexString(high) + ":" + HexString(low)
  {
    Halves(high, low);
  }

  lemma NormalFormIsWithTail(t: TextForm)
    requires Shaped(t) && t.quad.Quad?
    ensures QuadWords(t.quad)[0] < 65536 && QuadWords(t.quad)[1] < 65536
    ensures NormalForm(t) == WithTail(Lowered(t), QuadGroups(t.quad))
  {
    QuadGroupsAreGroups(t.quad);
    if !t.compressed {
      assert Behind(t) == QuadGroups(t.quad);
    }
  }

  lemma {:induction false} GroupsMeanWords(groups: seq<string>, words: seq<nat>)
    requires |groups| == |words| && forall i :: 0 <= i < |groups| ==> HexValue(groups[i]) == words[i]
    ensures GroupsValue(groups) == WordsValue(words)
  {
    if groups != [] {
      GroupsMeanWords(groups[..|groups| - 1], words[..|words| - 1]);
    }
  }

  /** Groups and words that agree one by one. */
  ghost predicate Mean(groups: seq<string>, words: seq<nat>) {
    |groups| == |words| && forall i :: 0 <= i < |groups| ==> IsGroup(groups[i]) && HexValue(groups[i]) == words[i]
  }

  lemma MeanJoined(a: seq<string>, m: seq<nat>, b: seq<string>, n: seq<nat>)
    requires Mean(a, m) && Mean(b, n)
    ensures Mean(a + b, m + n)
  {
  }

  lemma ZerosMean(n: nat)
    ensures Mean(Zeros(n), seq(n, i => 0))
  {
    assert "0"[..0] == "" && HexValue("0") == 0 && IsGroup("0");
  }

  lemma LoweredMean(groups: seq<string>)
    requires forall g :: g in LowerAll(groups) ==> IsGroup(g)
    ensures Mean(LowerAll(groups), Words(groups))
  {
  }

  /** What stands behind the double colon, or behind the groups, as words. */
  function BehindWords(t: TextForm): seq<nat> {
    Words(t.right) + QuadWords(t.quad)
  }

  lemma TwoMean(groups: seq<string>, words: seq<nat>)
    requires |groups| == 2 == |words| && IsGroup(groups[0]) && IsGroup(groups[1])
    requires HexValue(groups[0]) == words[0] && HexValue(groups[1]) == words[1]
    ensures Mean(groups, words)
  {
  }

  lemma QuadMean(q: Quad)
    requires q.Quad? && HasOctets(q)
    ensures QuadWords(q)[0] < 65536 && QuadWords(q)[1] < 65536
    ensures Mean(QuadGroups(q), QuadWords(q))
  {
    QuadGroupsAreGroups(q);
    var groups := QuadGroups(q);
    assert groups[0] in groups && groups[1] in groups;
    TwoMean(groups, QuadWords(q));
  }

  lemma BehindMean(t: TextForm)
    requires Shaped(t)
    ensures Mean(Behind(t), BehindWords(t))
  {
    LoweredAreGroups(t);
    LoweredMean(t.right);
    if t.quad.Quad? {
      QuadMean(t.quad);
      MeanJoined(LowerAll(t.right), Words(t.right), QuadGroups(t.quad), QuadWords(t.quad));
    } else {
      MeanJoined(LowerAll(t.right), Words(t.right), [], []);
    }
  }

  lemma MeanAreGroups(groups: seq<string>, words: seq<nat>)
    requires Mean(groups, words)
    ensures forall g :: g in groups ==> IsGroup(g)
  {
  }

  /** The groups of a normal form, whatever its two parts are. */
  lemma GroupsOfParts(left: seq<string>, compressed: bool, behind: seq<string>)
    requires forall g :: g in left ==> IsGroup(g)
    requires forall g :: g in behind ==> IsGroup(g)
    requires if compressed then |left| + |behind| <= 8 else |left| + |behind| == 8
    ensures Groups(if compressed then GroupsText(left, true, behind) else GroupsText(left + behind, false, []))
         == Some(left + Zeros(8 - |left| - |behind|) + behind)
  {
    if compressed {
      GroupsOfText(left, true, behind);
    } else {
      GroupsOfText(left + behind, false, []);
      assert left + Zeros(0) + behind == left + behind && (left + behind) + Zeros(0) + [] == left + behind;
    }
  }

  function AllGroups(t: TextForm): seq<string>
    requires WellFormed(t)
  {
    BehindMean(t);
    LowerAll(t.left) + Zeros(8 - |t.left| - |Behind(t)|) + Behind(t)
  }

  lemma AllGroupsAreRead(t: TextForm)
    requires WellFormed(t)
    ensures Groups(NormalForm(t)) == Some(AllGroups(t))
  {
    LoweredAreGroups(t);
    BehindMean(t);
    MeanAreGroups(Behind(t), BehindWords(t));
    GroupsOfParts(LowerAll(t.left), t.compressed, Behind(t));
  }

  lemma AllGroupsAreWords(t: TextForm)
    requires WellFormed(t)
    ensures |AddressWords(t)| == 8 && Mean(AllGroups(t), AddressWords(t))
  {
    LoweredAreGroups(t);
    LoweredMean(t.left);
    BehindMean(t);
    var n := 8 - |t.left| - |Behind(t)|;
    var zeros := seq(n, i => 0);
    ZerosMean(n);
    MeanJoined(LowerAll(t.left), Words(t.left), Zeros(n), zeros);
    MeanJoined(LowerAll(t.left) + Zeros(n), Words(t.left) + zeros, Behind(t), BehindWords(t));
    MissingWords(t, n);
  }

  lemma MissingWords(t: TextForm, n: nat)
    requires n == 8 - |t.left| - |BehindWords(t)|
    ensures AddressWords(t) == Words(t.left) + seq(n, i => 0) + BehindWords(t)
  {
  }

  lemma PrintIsNormalized(t: TextForm)
    requires Shaped(t)
    ensures Normalized(Print(t)) == Some(NormalForm(t))
  {
    if t.quad.NoQuad? {
      NormalizedWithoutQuad(t);
    } else {
      NormalizedWithQuad(t);
    }
  }

  lemma ReadThrough(s: string, normalized: string, groups: seq<string>)
    requires Normalized(s) == Some(normalized) && Groups(normalized) == Some(groups)
    ensures Ipv6ToInt(s) == Some(GroupsValue(groups))
  {
  }

  lemma ReadAsGroups(t: TextForm)
    requires WellFormed(t)
    ensures Ipv6ToInt(Print(t)) == Some(GroupsValue(AllGroups(t)))
  {
    var (s, normalized, groups) := (Print(t), NormalForm(t), AllGroups(t));
    assert Normalized(s) == Some(normalized) by {
      PrintIsNormalized(t);
    }
    assert Groups(normalized) == Some(groups) by {
      AllGroupsAreRead(t);
    }
    ReadThrough(s, normalized, groups);
  }

  /** A well-formed text of any of the three forms is read as the address it denotes. */
  lemma TextFormsAreRead(t: TextForm)
    requires WellFormed(t)
    ensures |AddressWords(t)| == 8
    ensures Ipv6ToInt(Print(t)) == Some(WordsValue(AddressWords(t)))
  {
    ReadAsGroups(t);
    AllGroupsAreWords(t);
    GroupsMeanWords(AllGroups(t), AddressWords(t));
  }

  // ----- Every number that is read has its width -----

  lemma {:induction false} WordsBound(groups: seq<string>)
    requires |groups| <= 8 && forall g :: g in groups ==> IsGroup(g)
    ensures GroupsValue(groups) < Pow2(16 * |groups|)
  {
    if groups != [] {
      var n := |groups| - 1;
      assert groups[n] in groups;
      WordsBound(groups[..n]);
      HexBound(groups[n]);
      Pow2Adds(16 * n, 16);
      PowersOf2();
    }
  }

  lemma {:induction false} Pow2Adds(m: nat, n: nat)
    ensures Pow2(m + n) == Pow2(m) * Pow2(n)
  {
    if n > 0 {
      Pow2Adds(m, n - 1);
    }
  }

  lemma {:induction false} HexBound(g: string)
    requires |g| <= 4
    ensures HexValue(g) < 65536
    ensures |g| <= 3 ==> HexValue(g) < 4096
    ensures |g| <= 2 ==> HexValue(g) < 256
    ensures |g| <= 1 ==> HexValue(g) < 16
  {
    if g != "" {
      HexBound(g[..|g| - 1]);
    }
  }

  lemma PowersOf2()
    ensures Pow2(16) == 65536 && Pow2(32) == 0x1_0000_0000
  {
    Pow2Adds(4, 4);
    assert Pow2(4) == 16;
    Pow2Adds(8, 8);
    Pow2Adds(16, 16);
  }

  lemma Ipv6HasWidth(s: string)
    ensures Ipv6ToInt(s).Some? ==> Ipv6ToInt(s).value < Pow2(128)
  {
    if Ipv6ToInt(s).Some? {
      WordsBound(Groups(Normalized(s).value).value);
    }
  }

  lemma Ipv4HasWidth(s: string)
    requires IsDotted(s)
    ensures Ipv4ToInt(s).Some? ==> Ipv4ToInt(s).value < Pow2(32)
  {
    PowersOf2();
  }
}
