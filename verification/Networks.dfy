/** The trusted-network check (packages/dsh-luban-auth/src/http-security.ts, normalizeIp and ipMatchesNetwork): what it
    sees of an address once zone and mapped prefix are cut off as text, and when its answer is that the first bits of
    two addresses agree. */
module Networks {
  import opened Wrappers
  import opened Text
  import opened Addresses

  /** The answer of the platform's `isIP`. */
  datatype Version = NotIp | V4 | V6

  function Bits(version: Version): nat {
    if version == V4 then 32 else 128
  }

  function BeforeFirst(s: string, c: char): string {
    if s == "" || s[0] == c then "" else [s[0]] + BeforeFirst(s[1..], c)
  }

  /** Without its zone, and without the prefix of an IPv4-mapped address. */
  function NormalizeIp(ip: string): string {
    var withoutZone := BeforeFirst(ip, '%');
    if "::ffff:" <= withoutZone then withoutZone[7..] else withoutZone
  }

  function NetworkParts(network: string): (parts: seq<string>)
    ensures parts != []
  {
    Split(Trim(network), '/')
  }

  /** The prefix length of a network: all bits without a slash, `None` when it is no length for this version. */
  function PrefixOf(parts: seq<string>, version: Version, toNumber: string -> Option<int>): (r: Option<nat>)
    requires parts != []
    ensures r.Some? ==> r.value <= Bits(version)
  {
    if |parts| == 1 then Some(Bits(version))
    else
      match toNumber(parts[1])
      case None => None
      case Some(n) => if n < 0 || n > Bits(version) then None else Some(n)
  }

  /** Without superfluous zeros. */
  predicate IsCanonical(s: string) {
    IsOctet(s) && (s[0] == '0' ==> s == "0")
  }

  /** Four octets without superfluous zeros between dots. */
  predicate IsQuad(s: string) {
    var parts := Split(s, '.');
    |parts| == 4 && forall part :: part in parts ==> IsCanonical(part)
  }

  /** A well-formed text form whose IPv4 tail, if it has one, has no superfluous zeros. */
  predicate IsAddress(t: TextForm) {
    WellFormed(t)
    && (t.quad.Quad? ==>
          IsCanonical(t.quad.a) && IsCanonical(t.quad.b) && IsCanonical(t.quad.c) && IsCanonical(t.quad.d))
  }

  /** `isIp` takes exactly the quads for version 4; without a zone it takes all text forms and nothing unreadable for
      version 6. */
  ghost predicate Recognizes(isIp: string -> Version) {
    (forall s :: isIp(s) == V4 <==> IsQuad(s))
    && (forall s {:trigger Ipv6ToInt(s)} :: isIp(s) == V6 && '%' !in s ==> Ipv6ToInt(s).Some?)
    && (forall t :: IsAddress(t) ==> isIp(Print(t)) == V6)
  }

  lemma QuadsAreRead(s: string)
    requires IsQuad(s)
    ensures IsDotted(s) && Ipv4ToInt(s).Some?
  {
    var parts := Split(s, '.');
    assert parts[0] in parts && parts[1] in parts && parts[2] in parts && parts[3] in parts;
  }

  function Number(ip: string, version: Version): Option<nat>
    requires version == V4 ==> IsDotted(ip)
  {
    if version == V4 then Ipv4ToInt(ip) else Ipv6ToInt(ip)
  }

  /** The comparison of two numbers, any of which may be missing. */
  predicate SharePrefix(left: Option<nat>, right: Option<nat>, bits: nat, prefix: Option<nat>)
    requires prefix.Some? ==> prefix.value <= bits
  {
    if prefix.None? || left.None? || right.None? then false
    else
      var shift := bits - prefix.value;
      ShiftRight(left.value, shift) == ShiftRight(right.value, shift)
  }

  function IpMatchesNetwork(ipValue: string, network: string, isIp: string -> Version,
                            toNumber: string -> Option<int>): bool
    requires Recognizes(isIp)
  {
    var parts := NetworkParts(network);
    if parts[0] == "" then false
    else
      var (networkIp, ip) := (NormalizeIp(parts[0]), NormalizeIp(ipValue));
      var version := isIp(ip);
      if version == NotIp || isIp(networkIp) != version then false
      else
        SharePrefix(Number(ip, version), Number(networkIp, version), Bits(version), PrefixOf(parts, version, toNumber))
  }

  /** Nothing is missing and the first `prefix` of the bits agree. */
  ghost predicate Agree(left: Option<nat>, right: Option<nat>, bits: nat, prefix: Option<nat>)
    requires prefix.Some? ==> prefix.value <= bits
  {
    prefix.Some? && left.Some? && right.Some? && SameBits(left.value, right.value, bits, prefix.value)
  }

  /** Both texts have numbers, the prefix length is one of their version, and the first `prefix` bits agree. */
  ghost predicate InNetwork(ip: string, networkIp: string, version: Version, prefix: Option<nat>)
    requires version == V4 ==> IsDotted(ip) && IsDotted(networkIp)
    requires prefix.Some? ==> prefix.value <= Bits(version)
  {
    Agree(Number(ip, version), Number(networkIp, version), Bits(version), prefix)
  }

  ghost predicate HasWidth(number: Option<nat>, bits: nat) {
    number.Some? ==> number.value < Pow2(bits)
  }

  lemma SharePrefixIffAgree(left: Option<nat>, right: Option<nat>, bits: nat, prefix: Option<nat>)
    requires HasWidth(left, bits) && HasWidth(right, bits)
    requires prefix.Some? ==> prefix.value <= bits
    ensures SharePrefix(left, right, bits, prefix) <==> Agree(left, right, bits, prefix)
  {
    if prefix.Some? && left.Some? && right.Some? {
      ShiftedEqualIffBitsAgree(left.value, right.value, bits, prefix.value);
    }
  }

  lemma NumberHasWidth(ip: string, version: Version)
    requires version == V4 ==> IsDotted(ip)
    ensures HasWidth(Number(ip, version), Bits(version))
  {
    if version == V4 {
      Ipv4HasWidth(ip);
    } else {
      Ipv6HasWidth(ip);
    }
  }

  lemma SharePrefixIsInNetwork(ip: string, networkIp: string, version: Version, prefix: Option<nat>)
    requires version == V4 ==> IsDotted(ip) && IsDotted(networkIp)
    requires prefix.Some? ==> prefix.value <= Bits(version)
    ensures SharePrefix(Number(ip, version), Number(networkIp, version), Bits(version), prefix)
      <==> InNetwork(ip, networkIp, version, prefix)
  {
    NumberHasWidth(ip, version);
    NumberHasWidth(networkIp, version);
    SharePrefixIffAgree(Number(ip, version), Number(networkIp, version), Bits(version), prefix);
  }

  /** The check holds exactly for the addresses of the network's version that share its first `prefix` bits. */
  lemma MatchesIffFirstBitsAgree(ipValue: string, network: string, isIp: string -> Version,
                                 toNumber: string -> Option<int>)
    requires Recognizes(isIp)
    ensures var parts := NetworkParts(network);
            var (networkIp, ip) := (NormalizeIp(parts[0]), NormalizeIp(ipValue));
            var version := isIp(ip);
            IpMatchesNetwork(ipValue, network, isIp, toNumber)
            <==> (parts[0] != "" && version != NotIp && isIp(networkIp) == version
                  && InNetwork(ip, networkIp, version, PrefixOf(parts, version, toNumber)))
  {
    var parts := NetworkParts(network);
    var (networkIp, ip) := (NormalizeIp(parts[0]), NormalizeIp(ipValue));
    var version := isIp(ip);
    if parts[0] != "" && version != NotIp && isIp(networkIp) == version {
      SharePrefixIsInNetwork(ip, networkIp, version, PrefixOf(parts, version, toNumber));
    }
  }

  /** An address in a network is in every network of the same address with a shorter prefix. */
  lemma LongerMatchImpliesShorter(ip: string, longer: string, shorter: string, isIp: string -> Version,
                                  toNumber: string -> Option<int>, version: Version)
    requires Recognizes(isIp) && IpMatchesNetwork(ip, longer, isIp, toNumber)
    requires version == isIp(NormalizeIp(ip))
    requires NetworkParts(longer)[0] == NetworkParts(shorter)[0]
    requires PrefixOf(NetworkParts(shorter), version, toNumber).Some?
    requires PrefixOf(NetworkParts(longer), version, toNumber).Some?
    requires PrefixOf(NetworkParts(shorter), version, toNumber).value
          <= PrefixOf(NetworkParts(longer), version, toNumber).value
    ensures IpMatchesNetwork(ip, shorter, isIp, toNumber)
  {
    MatchesIffFirstBitsAgree(ip, longer, isIp, toNumber);
    MatchesIffFirstBitsAgree(ip, shorter, isIp, toNumber);
  }

  // ----- What the characters of a text form are -----

  predicate IsFormChar(c: char) {
    c == ':' || c == '.' || IsHexDigit(LowerChar(c))
  }

  lemma FormChars(parts: seq<string>)
    requires forall part, c :: part in parts && c in part ==> IsFormChar(c)
    ensures forall c :: c in Join(parts, ":") ==> IsFormChar(c)
  {
    forall c | c in Join(parts, ":") ensures IsFormChar(c) {
      JoinedChars(parts, ':', c);
    }
  }

  lemma GroupFormChars(g: string)
    requires IsGroup(Lower(g))
    ensures forall c :: c in g ==> IsFormChar(c) && c != ':' && c != '.'
  {
    forall i | 0 <= i < |g| ensures IsHexDigit(LowerChar(g[i])) {
      assert Lower(g)[i] in Lower(g);
    }
  }

  /** The parts a form is joined from. */
  lemma PartsHaveFormChars(groups: seq<string>, q: Quad)
    requires (forall g :: g in groups ==> IsGroup(Lower(g))) && HasOctets(q)
    ensures forall c :: c in Join(groups + Tail(q), ":") ==> IsFormChar(c)
  {
    forall g | g in groups ensures forall c :: c in g ==> IsFormChar(c) {
      GroupFormChars(g);
    }
    if q.Quad? {
      QuadChars(q);
    }
    FormChars(groups + Tail(q));
  }

  lemma PrintHasFormChars(t: TextForm)
    requires Shaped(t)
    ensures forall c :: c in Print(t) ==> IsFormChar(c)
  {
    forall g | g in t.left || g in t.right ensures IsGroup(Lower(g)) {
      assert g in t.left + t.right;
    }
    PartsHaveFormChars(t.left, t.quad);
    PartsHaveFormChars(t.right, t.quad);
    PartsHaveFormChars(t.left, NoQuad);
    assert t.left + Tail(NoQuad) == t.left;
  }

  lemma {:induction false} NotCut(s: string, c: char)
    requires c !in s
    ensures BeforeFirst(s, c) == s
  {
    if s != "" {
      NotCut(s[1..], c);
      assert [s[0]] + s[1..] == s;
    }
  }

  // ----- Which texts the platform takes for quads -----

  /** No character but the separator is lost in splitting. */
  lemma {:induction false} SplitKeeps(s: string, separator: char, c: char) returns (i: nat)
    requires c in s && c != separator
    ensures i < |Split(s, separator)| && c in Split(s, separator)[i]
  {
    if s[0] == separator {
      assert c in s[1..];
      var j := SplitKeeps(s[1..], separator, c);
      i := j + 1;
    } else if s[0] == c {
      i := 0;
    } else {
      assert c in s[1..];
      i := SplitKeeps(s[1..], separator, c);
    }
  }

  lemma QuadHasNoColon(s: string)
    requires ':' in s
    ensures !IsQuad(s)
  {
    var i := SplitKeeps(s, '.', ':');
    var part := Split(s, '.')[i];
    assert part in Split(s, '.') && ':' in part && !IsDigit(':');
  }

  lemma QuadTextIsQuad(q: Quad)
    requires q.Quad? && IsCanonical(q.a) && IsCanonical(q.b) && IsCanonical(q.c) && IsCanonical(q.d)
    ensures IsQuad(QuadText(q))
  {
    var parts := [q.a, q.b, q.c, q.d];
    forall part | part in parts ensures '.' !in part {
      assert IsOctet(part) && !IsDigit('.');
    }
    SplitJoin(parts, '.');
  }

  lemma OneGroupIsNoQuad(g: string)
    requires IsGroup(Lower(g))
    ensures !IsQuad(g)
  {
    GroupFormChars(g);
    SplitNone(g, '.');
  }

  lemma JoinHasSeparator(parts: seq<string>)
    requires |parts| > 1
    ensures ':' in Join(parts, ":")
  {
    assert Join(parts, ":")[|parts[0]|] == ':';
  }

  // ----- Too few groups are not read -----

  lemma GroupsOfFew(groups: seq<string>)
    requires (forall g :: g in groups ==> IsGroup(g)) && |groups| != 8
    ensures Groups(GroupsText(groups, false, [])).None?
  {
    GroupsAreSolid(groups);
    JoinedIsSingle(groups);
    SideOfJoined(groups);
  }

  lemma FewGroupsAreNotRead(t: TextForm)
    requires Shaped(t) && !t.compressed && GroupCount(t) != 8
    ensures Ipv6ToInt(Print(t)).None?
  {
    PrintIsNormalized(t);
    LoweredAreGroups(t);
    BehindMean(t);
    MeanAreGroups(Behind(t), BehindWords(t));
    var groups := LowerAll(t.left) + Behind(t);
    assert |groups| == GroupCount(t);
    GroupsOfFew(groups);
    assert NormalForm(t) == GroupsText(groups, false, []);
    NotReadThrough(Print(t), NormalForm(t));
  }

  lemma NotReadThrough(s: string, normalized: string)
    requires Normalized(s) == Some(normalized) && Groups(normalized).None?
    ensures Ipv6ToInt(s).None?
  {
  }

  // ----- What the check sees of a text form -----

  const MAPPED := "::ffff:"

  /** The beginning that `NormalizeIp` cuts off as text. */
  predicate IsStripped(t: TextForm) {
    MAPPED <= Print(t)
  }

  /** The only stripped forms with anything left that the check can read. */
  predicate IsMappedQuad(t: TextForm) {
    IsStripped(t) && t.right == ["ffff"] && t.quad.Quad?
  }

  /** What is left of a stripped form: its groups behind the first one, and its tail. */
  function Rest(t: TextForm): TextForm {
    TextForm(if t.right == [] then [] else t.right[1..], false, [], t.quad)
  }

  lemma FirstGroupIs(g: string, rest: string, more: bool)
    requires |g| <= 4 && ':' !in g && g != ""
    requires "ffff:" <= (if more then g + ":" + rest else g)
    ensures more && g == "ffff"
  {
    var s := if more then g + ":" + rest else g;
    assert s[0] == 'f' && s[1] == 'f' && s[2] == 'f' && s[3] == 'f' && s[4] == ':';
    assert forall i :: 0 <= i < |g| ==> g[i] == s[i] && g[i] in g;
    assert |g| == 4;
    assert g == "ffff";
  }

  lemma JoinStartsWithFirst(parts: seq<string>)
    requires parts != [] && parts[0] != ""
    ensures forall separator :: Join(parts, separator) != "" && Join(parts, separator)[0] == parts[0][0]
  {
  }

  lemma QuadHasNoColonInFront(q: Quad)
    requires q.Quad? && HasOctets(q)
    ensures Join(Tail(q), ":") != "" && IsDigitOrDot(Join(Tail(q), ":")[0])
  {
    QuadChars(q);
    JoinStartsWithFirst([q.a, q.b, q.c, q.d]);
    assert QuadText(q)[0] in QuadText(q);
  }

  predicate IsDigitOrDot(c: char) {
    IsDigit(c) || c == '.'
  }

  /** A text that begins with a colon begins with two. */
  lemma StrippedIsCompressed(t: TextForm)
    requires Shaped(t) && IsStripped(t)
    ensures t.compressed && t.left == []
  {
    var s := Print(t);
    assert s[0] == MAPPED[0] == ':';
    if t.left != [] {
      var g := t.left[0];
      assert g in t.left + t.right && g[0] in g;
      GroupFormChars(g);
      JoinStartsWithFirst(t.left);
      JoinStartsWithFirst(t.left + Tail(t.quad));
    } else if !t.compressed {
      assert t.left + Tail(t.quad) == Tail(t.quad);
      if t.quad.Quad? {
        QuadHasNoColonInFront(t.quad);
      }
    }
  }

  lemma StrippedShape(t: TextForm)
    requires Shaped(t) && IsStripped(t)
    ensures t.compressed && t.left == [] && t.right != [] && t.right[0] == "ffff"
    ensures Shaped(Rest(t)) && Print(t)[7..] == Print(Rest(t)) && |t.right| + |Tail(t.quad)| > 1
  {
    StrippedIsCompressed(t);
    var (s, parts) := (Print(t), t.right + Tail(t.quad));
    assert s == "::" + Join(parts, ":");
    assert s[2..] == Join(parts, ":") && MAPPED[2..] == "ffff:";
    assert "ffff:" <= Join(parts, ":");
    if t.right == [] {
      assert parts == Tail(t.quad);
      if t.quad.Quad? {
        QuadHasNoColonInFront(t.quad);
      }
    } else {
      var g := parts[0];
      assert g in t.left + t.right;
      GroupFormChars(g);
      FirstGroupIs(g, Join(parts[1..], ":"), |parts| > 1);
      RestIsPrinted(t, parts);
    }
  }

  lemma RestIsPrinted(t: TextForm, parts: seq<string>)
    requires Shaped(t) && t.compressed && t.left == [] && t.right != [] && t.right[0] == "ffff"
    requires parts == t.right + Tail(t.quad) && |parts| > 1
    ensures Shaped(Rest(t)) && Print(t)[7..] == Print(Rest(t))
  {
    assert parts[1..] == t.right[1..] + Tail(t.quad);
    assert Print(t) == "::" + ("ffff" + ":" + Join(parts[1..], ":"));
    forall g | g in Rest(t).left + Rest(t).right ensures IsGroup(Lower(g)) {
      assert g in t.left + t.right;
    }
  }

  datatype Sighting = Sighting(version: Version, number: nat)

  function QuadNumber(q: Quad): nat
    requires q.Quad?
  {
    QuadWords(q)[0] * 65536 + QuadWords(q)[1]
  }

  /** Version and number the check works with; `None` when it does not take the text for an address. */
  function Seen(t: TextForm): Option<Sighting> {
    if !IsStripped(t) then Some(Sighting(V6, WordsValue(AddressWords(t))))
    else if IsMappedQuad(t) then Some(Sighting(V4, QuadNumber(t.quad)))
    else None
  }

  /** `s` is taken for what was seen. */
  ghost predicate IsSeenAs(s: string, seen: Option<Sighting>, isIp: string -> Version)
    requires Recognizes(isIp)
  {
    match seen
    case None => isIp(s) == NotIp
    case Some(sighting) =>
      sighting.version != NotIp && isIp(s) == sighting.version && Number(s, sighting.version) == Some(sighting.number)
  }

  lemma WholeIsKept(t: TextForm)
    requires Shaped(t) && !IsStripped(t)
    ensures NormalizeIp(Print(t)) == Print(t)
  {
    PrintHasFormChars(t);
    assert !IsFormChar('%');
    NotCut(Print(t), '%');
  }

  lemma WholeIsSeen(t: TextForm, isIp: string -> Version)
    requires Recognizes(isIp) && IsAddress(t) && !IsStripped(t)
    ensures IsSeenAs(NormalizeIp(Print(t)), Seen(t), isIp)
  {
    WholeIsKept(t);
    TextFormsAreRead(t);
  }

  lemma QuadIsSeen(q: Quad, isIp: string -> Version)
    requires Recognizes(isIp) && q.Quad?
    requires IsCanonical(q.a) && IsCanonical(q.b) && IsCanonical(q.c) && IsCanonical(q.d)
    ensures IsSeenAs(QuadText(q), Some(Sighting(V4, QuadNumber(q))), isIp)
  {
    assert isIp(QuadText(q)) == V4 by {
      QuadTextIsQuad(q);
    }
    assert IsDotted(QuadText(q)) && Ipv4ToInt(QuadText(q)) == Some(QuadNumber(q)) by {
      QuadIsDotted(q);
    }
  }

  lemma MappedQuadIsSeen(t: TextForm, isIp: string -> Version)
    requires Recognizes(isIp) && IsAddress(t) && IsMappedQuad(t)
    ensures IsSeenAs(Print(Rest(t)), Seen(t), isIp)
  {
    assert Print(Rest(t)) == QuadText(t.quad) by {
      assert Rest(t).left + Tail(t.quad) == [QuadText(t.quad)];
    }
    QuadIsSeen(t.quad, isIp);
  }

  lemma OtherRestIsNoQuad(rest: TextForm)
    requires Shaped(rest) && !rest.compressed && rest.left != []
    ensures !IsQuad(Print(rest))
  {
    var parts := rest.left + Tail(rest.quad);
    if |parts| > 1 {
      JoinHasSeparator(parts);
      QuadHasNoColon(Print(rest));
    } else {
      assert parts == [rest.left[0]] && rest.left[0] in rest.left + rest.right;
      OneGroupIsNoQuad(rest.left[0]);
    }
  }

  lemma FewGroupsAreNoAddress(rest: TextForm, isIp: string -> Version)
    requires Recognizes(isIp) && Shaped(rest) && !rest.compressed && rest.left != [] && GroupCount(rest) != 8
    ensures isIp(Print(rest)) == NotIp
  {
    assert !IsQuad(Print(rest)) by {
      OtherRestIsNoQuad(rest);
    }
    assert Ipv6ToInt(Print(rest)).None? by {
      FewGroupsAreNotRead(rest);
    }
    assert '%' !in Print(rest) by {
      PrintHasFormChars(rest);
      assert !IsFormChar('%');
    }
  }

  /** What is left of any other stripped form is no address of either version. */
  lemma OtherRestIsNoAddress(t: TextForm, isIp: string -> Version)
    requires Recognizes(isIp) && IsAddress(t) && IsStripped(t) && !IsMappedQuad(t)
    ensures isIp(Print(Rest(t))) == NotIp
  {
    StrippedShape(t);
    FewGroupsAreNoAddress(Rest(t), isIp);
  }

  lemma FormIsSeen(t: TextForm, isIp: string -> Version)
    requires Recognizes(isIp) && IsAddress(t)
    ensures IsSeenAs(NormalizeIp(Print(t)), Seen(t), isIp)
  {
    if IsStripped(t) {
      PrintHasFormChars(t);
      assert !IsFormChar('%');
      NotCut(Print(t), '%');
      StrippedShape(t);
      if IsMappedQuad(t) {
        MappedQuadIsSeen(t, isIp);
      } else {
        OtherRestIsNoAddress(t, isIp);
      }
    } else {
      WholeIsSeen(t, isIp);
    }
  }

  // ----- When the check compares the first bits -----

  /** Both were taken for addresses of one version, with a prefix length, and the first bits of their numbers agree. */
  ghost predicate SightingsAgree(left: Option<Sighting>, right: Option<Sighting>, parts: seq<string>,
                                 toNumber: string -> Option<int>)
    requires parts != []
  {
    left.Some? && right.Some? && left.value.version == right.value.version
    && Agree(Some(left.value.number), Some(right.value.number), Bits(left.value.version),
             PrefixOf(parts, left.value.version, toNumber))
  }

  lemma PrintIsSome(t: TextForm)
    requires WellFormed(t)
    ensures Print(t) != ""
  {
    var parts := t.left + Tail(t.quad);
    if !t.compressed {
      assert t.left[0] in t.left + t.right;
      JoinStartsWithFirst(parts);
    }
  }

  /** What the check says about any two text forms: it compares what it sees of them. */
  lemma TextFormsMatchIff(address: TextForm, network: TextForm, networkValue: string, isIp: string -> Version,
                          toNumber: string -> Option<int>)
    requires Recognizes(isIp) && IsAddress(address) && IsAddress(network)
    requires NetworkParts(networkValue)[0] == Print(network)
    ensures IpMatchesNetwork(Print(address), networkValue, isIp, toNumber)
      <==> SightingsAgree(Seen(address), Seen(network), NetworkParts(networkValue), toNumber)
  {
    PrintIsSome(network);
    FormIsSeen(address, isIp);
    FormIsSeen(network, isIp);
    MatchesIffFirstBitsAgree(Print(address), networkValue, isIp, toNumber);
  }

  /** A mapped address in hexadecimal is in no network, and no address is in a network that is written so. */
  lemma HexMappedMatchesNothing(t: TextForm, other: string, isIp: string -> Version, toNumber: string -> Option<int>)
    requires Recognizes(isIp) && IsAddress(t) && IsStripped(t) && !IsMappedQuad(t)
    ensures !IpMatchesNetwork(Print(t), other, isIp, toNumber)
    ensures forall ip :: NetworkParts(other)[0] == Print(t) ==> !IpMatchesNetwork(ip, other, isIp, toNumber)
  {
    FormIsSeen(t, isIp);
  }

  /** The address `::ffff:1.2.3.4` in hexadecimal. */
  const HEX_MAPPED := TextForm([], true, ["ffff", "102", "304"], NoQuad)

  lemma HexMappedIsPrinted(t: TextForm)
    requires t == HEX_MAPPED
    ensures Print(t) == "::ffff:102:304"
  {
    assert t.right + Tail(t.quad) == ["ffff", "102", "304"];
  }

  lemma HexMappedIsAddress(t: TextForm)
    requires t == HEX_MAPPED
    ensures IsAddress(t)
  {
    assert Lower("ffff") == "ffff" && Lower("102") == "102" && Lower("304") == "304";
  }

  lemma HexMappedIsRead(t: TextForm, s: string, network: string, isIp: string -> Version,
                        toNumber: string -> Option<int>)
    requires Recognizes(isIp) && IsAddress(t) && Print(t) == s && IsStripped(t) && t.quad.NoQuad?
    ensures Ipv6ToInt(s).Some? && isIp(s) == V6
    ensures !IpMatchesNetwork(s, network, isIp, toNumber)
  {
    TextFormsAreRead(t);
    HexMappedMatchesNothing(t, network, isIp, toNumber);
  }

  /** `::ffff:102:304`, the same address as `::ffff:1.2.3.4`, is in no network. */
  lemma HexMappedExample(network: string, isIp: string -> Version, toNumber: string -> Option<int>)
    requires Recognizes(isIp)
    ensures Ipv6ToInt("::ffff:102:304").Some? && isIp("::ffff:102:304") == V6
    ensures !IpMatchesNetwork("::ffff:102:304", network, isIp, toNumber)
  {
    HexMappedIsPrinted(HEX_MAPPED);
    HexMappedIsAddress(HEX_MAPPED);
    HexMappedIsRead(HEX_MAPPED, "::ffff:102:304", network, isIp, toNumber);
  }

  // ----- When that is a comparison of the 128-bit numbers -----

  /** Decimal texts up to 128 are read, and no text counts as zero. */
  ghost predicate ReadsNumbers(toNumber: string -> Option<int>) {
    toNumber("") == Some(0) && forall n: nat :: n <= 128 ==> toNumber(Decimal(n)) == Some(n)
  }

  function WithPrefix(ip: string, prefix: string): string {
    ip + ['/'] + prefix
  }

  lemma SlashSplits(ip: string, prefix: string)
    requires '/' !in ip && '/' !in prefix && Trimmed(ip) && Trimmed(prefix) && ip != ""
    ensures NetworkParts(WithPrefix(ip, prefix)) == [ip, prefix]
  {
    var s := WithPrefix(ip, prefix);
    assert Trimmed(s) by {
      assert s[0] == ip[0] && s[|s| - 1] == (if prefix == "" then '/' else prefix[|prefix| - 1]);
    }
    TrimIsTrimmed(s);
    SplitPrefix(ip, prefix, '/');
    SplitNone(prefix, '/');
  }

  lemma FormWithPrefix(t: TextForm, n: nat)
    requires WellFormed(t)
    ensures NetworkParts(WithPrefix(Print(t), Decimal(n))) == [Print(t), Decimal(n)]
  {
    PrintIsSome(t);
    PrintHasFormChars(t);
    var s, d := Print(t), Decimal(n);
    assert s[0] in s && s[|s| - 1] in s && d[0] in d && d[|d| - 1] in d;
    assert forall c :: c in s ==> IsFormChar(c) && !IsSpace(c) && c != '/';
    SlashSplits(s, d);
  }

  /** The address a text form denotes. */
  function Denoted(t: TextForm): nat {
    WordsValue(AddressWords(t))
  }

  /** The check says what comparing the first `prefix` bits of the denoted addresses says. */
  ghost predicate ComparesAddresses(address: TextForm, network: TextForm, prefix: nat, isIp: string -> Version,
                                    toNumber: string -> Option<int>)
    requires Recognizes(isIp) && prefix <= 128
  {
    IpMatchesNetwork(Print(address), WithPrefix(Print(network), Decimal(prefix)), isIp, toNumber)
    <==> SameBits(Denoted(address), Denoted(network), 128, prefix)
  }

  lemma {:induction false} WordsValueOfZeros(n: nat, words: seq<nat>)
    ensures WordsValue(seq(n, i => 0) + words) == WordsValue(words)
    decreases |words|, n
  {
    var all: seq<nat> := seq(n, i => 0) + words;
    if words != [] {
      WordsValueOfZeros(n, words[..|words| - 1]);
      assert all[..|all| - 1] == seq(n, i => 0) + words[..|words| - 1];
    } else if n > 0 {
      WordsValueOfZeros(n - 1, []);
      assert all[..n - 1] == seq(n - 1, i => 0) + [];
    }
  }

  lemma ThreeWords(a: nat, b: nat, c: nat)
    ensures WordsValue([a, b, c]) == (a * 65536 + b) * 65536 + c
  {
    assert [a, b, c][..2] == [a, b] && [a, b][..1] == [a] && [a][..0] == [];
    assert WordsValue([a]) == a && WordsValue([a, b]) == a * 65536 + b;
  }

  lemma FirstGroupIsRead(groups: seq<string>)
    requires groups == ["ffff"]
    ensures Words(groups) == [0xffff]
  {
    assert Lower("ffff") == "ffff" && HexValue("ffff") == 0xffff by {
      assert "ffff"[..3] == "fff" && "fff"[..2] == "ff" && "ff"[..1] == "f" && "f"[..0] == "";
    }
  }

  lemma ThreeWordsAreSmall(n: nat, a: nat, b: nat, c: nat)
    requires a < 65536 && b < 65536 && c < 65536
    ensures WordsValue(seq(n, i => 0) + [a, b, c]) < Pow2(48)
  {
    WordsValueOfZeros(n, [a, b, c]);
    ThreeWords(a, b, c);
    PowersOf2();
    Pow2Adds(32, 16);
  }

  /** The number of a mapped quad has 48 bits. */
  lemma MappedQuadIsSmall(t: TextForm)
    requires IsAddress(t) && IsMappedQuad(t)
    ensures Denoted(t) < Pow2(48)
  {
    StrippedShape(t);
    FirstGroupIsRead(t.right);
    var words := QuadWords(t.quad);
    assert AddressWords(t) == seq(5, i => 0) + [0xffff, words[0], words[1]];
    ThreeWordsAreSmall(5, 0xffff, words[0], words[1]);
  }

  /** Where two numbers have no bits they agree. */
  lemma SmallShareFirstBits(a: nat, b: nat, width: nat, bits: nat, prefix: nat)
    requires a < Pow2(width) && b < Pow2(width) && width + prefix <= bits
    ensures SameBits(a, b, bits, prefix)
  {
    var shift := bits - prefix;
    Pow2Grows(width, shift);
    Pow2Grows(shift, bits);
    ShiftBounds(a, shift, shift);
    ShiftBounds(b, shift, shift);
    ShiftedEqualIffBitsAgree(a, b, bits, prefix);
  }

  lemma {:induction false} Pow2Grows(m: nat, n: nat)
    requires m <= n
    ensures Pow2(m) <= Pow2(n)
    decreases n
  {
    if m < n {
      Pow2Grows(m, n - 1);
      PowIsPositive(n - 1);
    }
  }

  lemma {:induction false} PowIsPositive(n: nat)
    ensures Pow2(n) >= 1
  {
    if n > 0 {
      PowIsPositive(n - 1);
    }
  }

  /** Two mapped quads are refused a prefix longer than 32, though their first 80 bits agree. */
  lemma MappedQuadsDiffer(address: TextForm, network: TextForm, prefix: nat, isIp: string -> Version,
                          toNumber: string -> Option<int>)
    requires Recognizes(isIp) && ReadsNumbers(toNumber) && IsAddress(address) && IsAddress(network)
    requires IsMappedQuad(address) && IsMappedQuad(network) && 32 < prefix <= 80
    ensures !ComparesAddresses(address, network, prefix, isIp, toNumber)
  {
    assert !IpMatchesNetwork(Print(address), WithPrefix(Print(network), Decimal(prefix)), isIp, toNumber) by {
      FormWithPrefix(network, prefix);
      TextFormsMatchIff(address, network, WithPrefix(Print(network), Decimal(prefix)), isIp, toNumber);
    }
    MappedQuadIsSmall(address);
    MappedQuadIsSmall(network);
    SmallShareFirstBits(Denoted(address), Denoted(network), 48, 128, prefix);
  }

  /** At prefix 0 all addresses agree, but of two of which only one is stripped the check says otherwise. */
  lemma OneStrippedDiffers(address: TextForm, network: TextForm, isIp: string -> Version,
                           toNumber: string -> Option<int>)
    requires Recognizes(isIp) && ReadsNumbers(toNumber) && IsAddress(address) && IsAddress(network)
    requires IsStripped(address) || IsStripped(network)
    requires !(IsMappedQuad(address) && IsMappedQuad(network))
    ensures !ComparesAddresses(address, network, 0, isIp, toNumber)
  {
    FormWithPrefix(network, 0);
    TextFormsMatchIff(address, network, WithPrefix(Print(network), Decimal(0)), isIp, toNumber);
  }

  lemma AgreeIsSameBits(left: TextForm, right: TextForm, parts: seq<string>, prefix: nat,
                        toNumber: string -> Option<int>)
    requires !IsStripped(left) && !IsStripped(right) && prefix <= 128
    requires |parts| == 2 && toNumber(parts[1]) == Some(prefix)
    ensures SightingsAgree(Seen(left), Seen(right), parts, toNumber)
      <==> SameBits(Denoted(left), Denoted(right), 128, prefix)
  {
  }

  lemma UnstrippedCompare(address: TextForm, network: TextForm, prefix: nat, isIp: string -> Version,
                          toNumber: string -> Option<int>)
    requires Recognizes(isIp) && ReadsNumbers(toNumber) && IsAddress(address) && IsAddress(network)
    requires !IsStripped(address) && !IsStripped(network) && prefix <= 128
    ensures ComparesAddresses(address, network, prefix, isIp, toNumber)
  {
    var networkValue := WithPrefix(Print(network), Decimal(prefix));
    FormWithPrefix(network, prefix);
    TextFormsMatchIff(address, network, networkValue, isIp, toNumber);
    AgreeIsSameBits(address, network, NetworkParts(networkValue), prefix, toNumber);
  }

  /** The check compares the first bits of the addresses, whatever the prefix, exactly when neither text begins with
      `::ffff:`. */
  lemma ComparesAddressesIff(address: TextForm, network: TextForm, isIp: string -> Version,
                             toNumber: string -> Option<int>)
    requires Recognizes(isIp) && ReadsNumbers(toNumber) && IsAddress(address) && IsAddress(network)
    ensures (forall prefix: nat :: prefix <= 128 ==> ComparesAddresses(address, network, prefix, isIp, toNumber))
      <==> !IsStripped(address) && !IsStripped(network)
  {
    if IsMappedQuad(address) && IsMappedQuad(network) {
      MappedQuadsDiffer(address, network, 33, isIp, toNumber);
    } else if IsStripped(address) || IsStripped(network) {
      OneStrippedDiffers(address, network, isIp, toNumber);
    } else {
      forall prefix: nat | prefix <= 128 ensures ComparesAddresses(address, network, prefix, isIp, toNumber) {
        UnstrippedCompare(address, network, prefix, isIp, toNumber);
      }
    }
  }

  // ----- A prefix length that counts as zero -----

  lemma NormalizedIsRead(ip: string, isIp: string -> Version)
    requires Recognizes(isIp) && isIp(NormalizeIp(ip)) != NotIp
    ensures Number(NormalizeIp(ip), isIp(NormalizeIp(ip))).Some?
  {
    var n := NormalizeIp(ip);
    if IsQuad(n) {
      QuadsAreRead(n);
    } else {
      NothingBehind(ip, '%');
      assert '%' !in n;
    }
  }

  lemma {:induction false} NothingBehind(s: string, c: char)
    ensures c !in BeforeFirst(s, c)
  {
    if s != "" && s[0] != c {
      NothingBehind(s[1..], c);
    }
  }

  lemma ZeroPrefixAgrees(left: Option<nat>, right: Option<nat>, version: Version, parts: seq<string>,
                         toNumber: string -> Option<int>)
    requires |parts| > 1 && toNumber(parts[1]) == Some(0) && left.Some? && right.Some?
    ensures Agree(left, right, Bits(version), PrefixOf(parts, version, toNumber))
  {
  }

  /** A network whose prefix text counts as zero takes every address of its version. */
  lemma ZeroPrefixTakesVersion(ip: string, network: string, isIp: string -> Version, toNumber: string -> Option<int>)
    requires Recognizes(isIp) && |NetworkParts(network)| > 1 && toNumber(NetworkParts(network)[1]) == Some(0)
    ensures var base := NetworkParts(network)[0];
            IpMatchesNetwork(ip, network, isIp, toNumber)
            <==> base != "" && isIp(NormalizeIp(ip)) != NotIp && isIp(NormalizeIp(base)) == isIp(NormalizeIp(ip))
  {
    var parts := NetworkParts(network);
    var (n, b) := (NormalizeIp(ip), NormalizeIp(parts[0]));
    MatchesIffFirstBitsAgree(ip, network, isIp, toNumber);
    if isIp(n) != NotIp && isIp(b) == isIp(n) {
      NormalizedIsRead(ip, isIp);
      NormalizedIsRead(parts[0], isIp);
      ZeroPrefixAgrees(Number(n, isIp(n)), Number(b, isIp(n)), isIp(n), parts, toNumber);
    }
  }

  lemma SlashAlone(base: string)
    requires base != "" && '/' !in base && Trimmed(base)
    ensures NetworkParts(WithPrefix(base, "")) == [base, ""] && NetworkParts(base) == [base]
  {
    SlashSplits(base, "");
    TrimIsTrimmed(base);
    SplitNone(base, '/');
  }

  lemma WholeLengthComparesNumbers(left: Option<nat>, right: Option<nat>, bits: nat)
    requires left.Some? && right.Some?
    ensures SharePrefix(left, right, bits, Some(bits)) <==> left == right
  {
  }

  /** Without a prefix length a network holds the addresses that are read as the same number. */
  lemma WholeLengthIsEquality(ip: string, base: string, isIp: string -> Version, toNumber: string -> Option<int>)
    requires Recognizes(isIp) && NetworkParts(base) == [base] && base != ""
    ensures var (n, b) := (NormalizeIp(ip), NormalizeIp(base));
            IpMatchesNetwork(ip, base, isIp, toNumber)
            <==> (isIp(n) != NotIp && isIp(b) == isIp(n) && Number(n, isIp(n)) == Number(b, isIp(n)))
  {
    var (n, b) := (NormalizeIp(ip), NormalizeIp(base));
    var version := isIp(n);
    if version != NotIp && isIp(b) == version {
      assert IsReadable(n, version) && IsReadable(b, version) by {
        ReadableWhenRecognized(ip, isIp);
        ReadableWhenRecognized(base, isIp);
      }
      WholeLengthComparesNumbers(Number(n, version), Number(b, version), Bits(version));
    }
  }

  predicate IsReadable(s: string, version: Version) {
    (version == V4 ==> IsDotted(s)) && Number(s, version).Some?
  }

  lemma ReadableWhenRecognized(ip: string, isIp: string -> Version)
    requires Recognizes(isIp) && isIp(NormalizeIp(ip)) != NotIp
    ensures IsReadable(NormalizeIp(ip), isIp(NormalizeIp(ip)))
  {
    NormalizedIsRead(ip, isIp);
    QuadsOfVersion(NormalizeIp(ip), isIp);
  }

  lemma QuadsOfVersion(ip: string, isIp: string -> Version)
    requires Recognizes(isIp)
    ensures isIp(ip) == V4 ==> IsDotted(ip)
  {
    if IsQuad(ip) {
      QuadsAreRead(ip);
    }
  }

  /** `s` is an address of this version whose number is `v`. */
  ghost predicate IsRead(s: string, v: nat, version: Version, isIp: string -> Version)
    requires Recognizes(isIp)
  {
    NormalizeIp(s) == s && IsSeenAs(s, Some(Sighting(version, v)), isIp)
  }

  lemma QuadIsRead(q: Quad, isIp: string -> Version)
    requires Recognizes(isIp) && q.Quad?
    requires IsCanonical(q.a) && IsCanonical(q.b) && IsCanonical(q.c) && IsCanonical(q.d)
    ensures IsRead(QuadText(q), QuadNumber(q), V4, isIp)
  {
    QuadIsSeen(q, isIp);
    QuadChars(q);
    var s := QuadText(q);
    NotCut(s, '%');
    assert s != "" ==> s[0] in s;
  }

  lemma SmallDigits()
    ensures IsCanonical("0") && DecimalValue("0") == 0
    ensures IsCanonical("1") && DecimalValue("1") == 1
  {
    assert "0"[..0] == "" && "1"[..0] == "";
  }

  lemma SmallQuadIsRead(zero: string, digit: string, v: nat, isIp: string -> Version)
    requires Recognizes(isIp) && IsCanonical(zero) && IsCanonical(digit)
    requires DecimalValue(zero) == 0 && DecimalValue(digit) == v
    ensures exists s :: IsRead(s, v, V4, isIp)
  {
    var q := Quad(zero, zero, zero, digit);
    assert IsRead(QuadText(q), v, V4, isIp) by {
      SmallQuadNumber(zero, digit);
      QuadIsRead(q, isIp);
    }
  }

  lemma SmallQuadNumber(zero: string, digit: string)
    requires IsCanonical(zero) && IsCanonical(digit) && DecimalValue(zero) == 0
    ensures QuadNumber(Quad(zero, zero, zero, digit)) == DecimalValue(digit)
  {
  }

  lemma SmallQuadsAreRead(isIp: string -> Version)
    requires Recognizes(isIp)
    ensures exists s :: IsRead(s, 0, V4, isIp)
    ensures exists s :: IsRead(s, 1, V4, isIp)
  {
    SmallDigits();
    SmallQuadIsRead("0", "0", 0, isIp);
    SmallQuadIsRead("0", "1", 1, isIp);
  }

  lemma WholeIsRead(t: TextForm, s: string, isIp: string -> Version)
    requires Recognizes(isIp) && IsAddress(t) && !IsStripped(t) && s == Print(t)
    ensures IsRead(s, Denoted(t), V6, isIp)
  {
    WholeIsKept(t);
    FormIsSeen(t, isIp);
  }

  /** A double colon and one group that does not begin with an `f`. */
  lemma ShortIsWhole(t: TextForm, g: string)
    requires t == TextForm([], true, [g], NoQuad) && g != "" && g[0] != 'f'
    ensures !IsStripped(t)
  {
    assert t.right + Tail(NoQuad) == [g];
    assert Print(t) == "::" + g;
    assert Print(t)[2] == g[0] && MAPPED[2] == 'f';
  }

  lemma ShortDenotes(t: TextForm, g: string)
    requires t == TextForm([], true, [g], NoQuad)
    ensures Denoted(t) == HexValue(Lower(g))
  {
    var v := HexValue(Lower(g));
    assert AddressWords(t) == seq(7, i => 0) + [v];
    WordsValueOfZeros(7, [v]);
    assert [v][..0] == [];
  }

  lemma ShortIsRead(g: string, isIp: string -> Version)
    requires Recognizes(isIp) && g != "" && g[0] != 'f' && IsGroup(Lower(g))
    ensures exists s :: IsRead(s, HexValue(Lower(g)), V6, isIp)
  {
    var t := TextForm([], true, [g], NoQuad);
    ShortIsWhole(t, g);
    ShortDenotes(t, g);
    WholeIsRead(t, Print(t), isIp);
  }

  lemma SmallFormsAreRead(isIp: string -> Version)
    requires Recognizes(isIp)
    ensures exists s :: IsRead(s, 0, V6, isIp)
    ensures exists s :: IsRead(s, 1, V6, isIp)
  {
    assert "0"[..0] == "" && "1"[..0] == "";
    assert Lower("0") == "0" && Lower("1") == "1" && HexValue("0") == 0 && HexValue("1") == 1;
    ShortIsRead("0", isIp);
    ShortIsRead("1", isIp);
  }

  /** Some address of the version has another number. */
  lemma OtherIsRead(version: Version, v: nat, isIp: string -> Version) returns (s: string, w: nat)
    requires Recognizes(isIp) && version != NotIp
    ensures w != v && IsRead(s, w, version, isIp)
  {
    SmallQuadsAreRead(isIp);
    SmallFormsAreRead(isIp);
    w := if v == 0 then 1 else 0;
    s :| IsRead(s, w, version, isIp);
  }

  /** A slash with nothing behind it changes what a network takes exactly when an address stands before it. */
  lemma SlashChangesNothingIff(base: string, isIp: string -> Version, toNumber: string -> Option<int>)
    requires Recognizes(isIp) && ReadsNumbers(toNumber)
    requires base != "" && '/' !in base && Trimmed(base)
    ensures (forall ip :: IpMatchesNetwork(ip, WithPrefix(base, ""), isIp, toNumber)
                          <==> IpMatchesNetwork(ip, base, isIp, toNumber))
      <==> isIp(NormalizeIp(base)) == NotIp
  {
    SlashAlone(base);
    var b := NormalizeIp(base);
    if isIp(b) != NotIp {
      NormalizedIsRead(base, isIp);
      var ip, w := OtherIsRead(isIp(b), Number(b, isIp(b)).value, isIp);
      ZeroPrefixTakesVersion(ip, WithPrefix(base, ""), isIp, toNumber);
      WholeLengthIsEquality(ip, base, isIp, toNumber);
    } else {
      forall ip ensures !IpMatchesNetwork(ip, WithPrefix(base, ""), isIp, toNumber) {
        ZeroPrefixTakesVersion(ip, WithPrefix(base, ""), isIp, toNumber);
      }
      forall ip ensures !IpMatchesNetwork(ip, base, isIp, toNumber) {
        WholeLengthIsEquality(ip, base, isIp, toNumber);
      }
    }
  }

  /** An IPv4 network with a slash and nothing behind it takes every IPv4 address. */
  lemma QuadWithSlash(ip: string, q: Quad, isIp: string -> Version, toNumber: string -> Option<int>)
    requires Recognizes(isIp) && ReadsNumbers(toNumber) && isIp(NormalizeIp(ip)) == V4 && q.Quad?
    requires IsCanonical(q.a) && IsCanonical(q.b) && IsCanonical(q.c) && IsCanonical(q.d)
    ensures IpMatchesNetwork(ip, WithPrefix(QuadText(q), ""), isIp, toNumber)
  {
    var s := QuadText(q);
    QuadIsRead(q, isIp);
    QuadChars(q);
    assert s[0] in s && s[|s| - 1] in s;
    assert '/' !in s && Trimmed(s);
    SlashAlone(s);
    ZeroPrefixTakesVersion(ip, WithPrefix(s, ""), isIp, toNumber);
  }

  const TEN := Quad("10", "0", "0", "0")

  lemma TenIsCanonical()
    ensures IsCanonical("10") && IsCanonical("0")
  {
    assert "10"[..1] == "1" && "1"[..0] == "" && "0"[..0] == "";
  }

  lemma TenIsPrinted(q: Quad)
    requires q == TEN
    ensures WithPrefix(QuadText(q), "") == "10.0.0.0/"
  {
  }

  /** `10.0.0.0/` takes every IPv4 address. */
  lemma SlashExample(ip: string, isIp: string -> Version, toNumber: string -> Option<int>)
    requires Recognizes(isIp) && ReadsNumbers(toNumber) && isIp(NormalizeIp(ip)) == V4
    ensures IpMatchesNetwork(ip, "10.0.0.0/", isIp, toNumber)
  {
    TenIsCanonical();
    TenIsPrinted(TEN);
    QuadWithSlash(ip, TEN, isIp, toNumber);
  }

  // ----- There is such a platform -----

  /** Takes what is read, and nothing else. */
  function Platform(s: string): Version {
    if IsQuad(s) then V4 else if Ipv6ToInt(s).Some? then V6 else NotIp
  }

  lemma PrintIsNoQuad(t: TextForm)
    requires WellFormed(t)
    ensures !IsQuad(Print(t))
  {
    assert ':' in Print(t) by {
      if t.compressed {
        assert Print(t)[|Join(t.left, ":")|] == ':';
      } else {
        JoinHasSeparator(t.left + Tail(t.quad));
      }
    }
    QuadHasNoColon(Print(t));
  }

  lemma PlatformRecognizes()
    ensures Recognizes(Platform)
  {
    forall t | IsAddress(t) ensures Platform(Print(t)) == V6 {
      PrintIsNoQuad(t);
      TextFormsAreRead(t);
    }
  }
}
