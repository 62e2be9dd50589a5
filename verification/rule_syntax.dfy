/** One filter-list line: how it is cut up, and what it asks for. */
module RuleSyntax {
  import opened Text
  import opened Domains
  import opened Addresses
  import opened Regexes
  import opened Patterns

  /**
   * What the standard library, the DNS library and the regex crate decide about texts: address
   * syntax, record-type names, which regexes are valid and what they match.
   */
  datatype Library = Library(
    parseIp: string -> Option<IpAddr>,
    recordType: string -> Option<nat>,
    validRegex: string -> bool,
    regexMatches: (string, string) -> bool)

  /** The regex crate takes this text, if it is in the generated fragment, and gives it its textbook meaning. */
  ghost predicate Textbook(lib: Library, text: string) {
    forall re | Parse(text) == Some(re) ::
      lib.validRegex(text) && forall s :: lib.regexMatches(text, s) <==> IsMatch(re, s)
  }

  datatype Disposition = Block | Allow

  datatype Origin = RemoteFilter | UserRule

  datatype DomainRule = DomainRule(disposition: Disposition, domain: string, includeSubdomains: bool)

  datatype TypeConstraint = Include(types: set<nat>) | Exclude(types: set<nat>)

  datatype MatchRule = MatchRule(
    rawText: string, regex: string, important: bool,
    dnstypes: Option<TypeConstraint>, denyallow: seq<DomainPattern>)

  datatype ParsedModifiers = ParsedModifiers(
    important: bool, dnstypes: Option<TypeConstraint>, denyallow: seq<DomainPattern>)

  datatype SyntaxError = UnterminatedRegex | UnsupportedModifier | BadDnstype | BadDomainPattern | BadRegex

  // ------------------------------------------------ pattern and modifiers

  /** How many backslashes stand directly before position `i`; position 0 is the opening slash. */
  function BackslashRun(line: string, i: nat): (n: nat)
    requires i <= |line|
    ensures n <= i
  {
    if i > 1 && line[i - 1] == '\\' then 1 + BackslashRun(line, i - 1) else 0
  }

  /** It is the length of the longest run of backslashes that ends there, not counting position 0. */
  lemma {:induction false} LongestRun(line: string, i: nat)
    requires i <= |line|
    ensures var n := BackslashRun(line, i);
            && (forall k :: i - n <= k < i ==> line[k] == '\\')
            && (i - n > 1 ==> line[i - n - 1] != '\\')
  {
    if i > 1 && line[i - 1] == '\\' { LongestRun(line, i - 1); }
  }

  /** An unescaped slash with `$` or the end of the line after it. */
  predicate IsCloser(line: string, i: nat) {
    && 1 <= i < |line| && line[i] == '/'
    && BackslashRun(line, i) % 2 == 0
    && (i + 1 == |line| || line[i + 1] == '$')
  }

  function FirstCloser(line: string, from: nat): (r: Option<nat>)
    ensures r.Some? ==>
            from <= r.value && IsCloser(line, r.value) && forall j :: from <= j < r.value ==> !IsCloser(line, j)
    ensures r.None? ==> forall j :: from <= j ==> !IsCloser(line, j)
    decreases |line| - from
  {
    if from >= |line| then None
    else if IsCloser(line, from) then Some(from)
    else FirstCloser(line, from + 1)
  }

  type LineParts = (string, Option<string>)

  function SplitPlain(line: string): LineParts {
    match SplitOnce(line, '$')
    case Some((pattern, modifiers)) => (pattern, Some(modifiers))
    case None => (line, None)
  }

  function SplitAtCloser(line: string, i: nat): LineParts
    requires IsCloser(line, i)
  {
    if i + 1 == |line| then (line, None) else (line[..i + 1], Some(line[i + 2..]))
  }

  function SplitLine(line: string): Result<LineParts, SyntaxError> {
    if !StartsWith(line, "/") then Ok(SplitPlain(line))
    else
      match FirstCloser(line, 1)
      case None => Err(UnterminatedRegex)
      case Some(i) => Ok(SplitAtCloser(line, i))
  }

  /** The scanner; its escape flag says "after an odd run of backslashes". */
  method SplitPatternAndModifiers(line: string) returns (r: Result<LineParts, SyntaxError>)
    ensures r == SplitLine(line)
  {
    if !StartsWith(line, "/") {
      return Ok(SplitPlain(line));
    }
    var escaped := false;
    var index := 1;
    while index < |line|
      invariant 1 <= index <= |line|
      invariant escaped <==> BackslashRun(line, index) % 2 == 1
      invariant forall j :: 0 <= j < index ==> !IsCloser(line, j)
    {
      if escaped {
        escaped := false;
      } else if line[index] == '\\' {
        escaped := true;
      } else if line[index] == '/' {
        assert IsCloser(line, index) <==> index + 1 == |line| || line[index + 1] == '$';
        if index + 1 < |line| && line[index + 1] == '$' {
          return Ok((line[..index + 1], Some(line[index + 2..])));
        }
        if index + 1 == |line| {
          return Ok((line, None));
        }
      }
      index := index + 1;
    }
    return Err(UnterminatedRegex);
  }

  /** Splitting loses nothing, and fails exactly on a regex line without a closing slash. */
  lemma SplitLosesNothing(line: string)
    ensures match SplitLine(line)
            case Ok((pattern, None)) => pattern == line
            case Ok((pattern, Some(modifiers))) => pattern + "$" + modifiers == line
            case Err(_) => StartsWith(line, "/") && forall i :: !IsCloser(line, i)
    ensures StartsWith(line, "/") && SplitLine(line).Ok? ==>
            var pattern := SplitLine(line).value.0;
            && IsCloser(line, |pattern| - 1)
            && forall j :: 0 <= j < |pattern| - 1 ==> !IsCloser(line, j)
    ensures !StartsWith(line, "/") ==> SplitLine(line).Ok? && '$' !in SplitLine(line).value.0
  {}

  // -------------------------------------------------------------- modifiers

  function NonEmpty(parts: seq<string>): seq<string> {
    if parts == [] then []
    else (if parts[0] == "" then [] else [parts[0]]) + NonEmpty(parts[1..])
  }

  /** The record type a listed value stands for, whether or not it is negated. */
  function TypeOf(lib: Library, value: string): Option<nat> {
    lib.recordType(AsciiUpper(TrimStartChar(value, '~')))
  }

  function TypesOf(lib: Library, values: seq<string>): (types: seq<Option<nat>>)
    ensures |types| == |values| && forall i :: 0 <= i < |types| ==> types[i] == TypeOf(lib, values[i])
  {
    seq(|values|, i requires 0 <= i < |values| => TypeOf(lib, values[i]))
  }

  function KnownTypes(types: seq<Option<nat>>): Option<set<nat>> {
    match Collect(types)
    case None => None
    case Some(known) => Some(set t | t in known)
  }

  function RecordTypes(lib: Library, values: seq<string>): Option<set<nat>> {
    KnownTypes(TypesOf(lib, values))
  }

  function ParseDnstype(lib: Library, value: string): Result<TypeConstraint, SyntaxError> {
    DnstypeOf(lib, NonEmpty(Split(value, '|')))
  }

  predicate Negated(value: string) {
    StartsWith(value, "~")
  }

  function DnstypeOf(lib: Library, values: seq<string>): Result<TypeConstraint, SyntaxError> {
    Constraint(forall i :: 0 <= i < |values| ==> Negated(values[i]),
               forall i :: 0 <= i < |values| ==> !Negated(values[i]),
               RecordTypes(lib, values))
  }

  function Constraint(allNegated: bool, allPlain: bool, types: Option<set<nat>>): Result<TypeConstraint, SyntaxError> {
    if (!allNegated && !allPlain) || types.None? then Err(BadDnstype)
    else Ok(if allNegated then Exclude(types.value) else Include(types.value))
  }

  function ParseDomainPattern(value: string): Option<DomainPattern> {
    match NormalizeDomain(value)
    case None => None
    case Some(name) => Some(if StartsWith(Trim(value), "*.") then WildcardSuffix(name) else Exact(name))
  }

  function ParseDomainPatterns(values: seq<string>): Option<seq<DomainPattern>> {
    Collect(seq(|values|, i requires 0 <= i < |values| => ParseDomainPattern(values[i])))
  }

  function AddDnstype(lib: Library, value: string, parsed: ParsedModifiers): Result<ParsedModifiers, SyntaxError> {
    match ParseDnstype(lib, value)
    case Err(e) => Err(e)
    case Ok(types) => Ok(parsed.(dnstypes := Some(types)))
  }

  function AddDenyallow(value: string, parsed: ParsedModifiers): Result<ParsedModifiers, SyntaxError> {
    match ParseDomainPatterns(Split(value, '|'))
    case None => Err(BadDomainPattern)
    case Some(patterns) => Ok(parsed.(denyallow := patterns))
  }

  function AddModifier(lib: Library, modifier: string, parsed: ParsedModifiers): Result<ParsedModifiers, SyntaxError> {
    if modifier == "" then Ok(parsed)
    else if modifier == "important" || modifier == "badfilter" then
      Ok(parsed.(important := modifier == "important"))
    else if StartsWith(modifier, "dnstype=") then AddDnstype(lib, modifier[8..], parsed)
    else if StartsWith(modifier, "denyallow=") then AddDenyallow(modifier[10..], parsed)
    else Err(UnsupportedModifier)
  }

  function AddModifiers(lib: Library, parts: seq<string>, parsed: ParsedModifiers)
    : Result<ParsedModifiers, SyntaxError>
  {
    if parts == [] then Ok(parsed)
    else
      match AddModifier(lib, Trim(parts[0]), parsed)
      case Err(e) => Err(e)
      case Ok(next) => AddModifiers(lib, parts[1..], next)
  }

  const NO_MODIFIERS := ParsedModifiers(false, None, [])

  function ModifiersOf(lib: Library, text: Option<string>): Result<ParsedModifiers, SyntaxError> {
    match text
    case None => Ok(NO_MODIFIERS)
    case Some(t) => AddModifiers(lib, Split(t, ','), NO_MODIFIERS)
  }

  method ParseModifiers(lib: Library, text: Option<string>) returns (r: Result<ParsedModifiers, SyntaxError>)
    ensures r == ModifiersOf(lib, text)
  {
    if text.None? {
      return Ok(NO_MODIFIERS);
    }
    var parsed := NO_MODIFIERS;
    var parts := Split(text.value, ',');
    for i := 0 to |parts|
      invariant AddModifiers(lib, parts[i..], parsed) == ModifiersOf(lib, text)
    {
      var next := AddModifier(lib, Trim(parts[i]), parsed);
      assert parts[i..][1..] == parts[i + 1..];
      if next.Err? {
        return Err(next.error);
      }
      parsed := next.value;
    }
    return Ok(parsed);
  }

  // ------------------------------------------------------------------ lines

  function StripComments(line: string): string {
    var trimmed := TrimStart(line);
    if StartsWith(trimmed, "#") || StartsWith(trimmed, "!") then "" else line
  }

  /** The name in what follows `||`. */
  function SimpleName(text: string): string {
    Trim(TrimEndChar(TrimEndChar(Split(text, '$')[0], '^'), '|'))
  }

  predicate HasSimpleShape(remainder: string) {
    !('$' in remainder || '*' in remainder || StartsWith(remainder, "/")) && StartsWith(remainder, "||")
  }

  function ParseSimpleBody(disposition: Disposition, remainder: string): (r: Option<DomainRule>)
    ensures r.Some? ==> r.value.includeSubdomains && r.value.disposition == disposition
  {
    if !HasSimpleShape(remainder) then None
    else
      match NormalizeDomain(SimpleName(remainder[2..]))
      case None => None
      case Some(domain) => Some(DomainRule(disposition, domain, true))
  }

  /** `||name^` and `@@||name^`: always for the name and everything below it. */
  function ParseSimpleRule(line: string): (r: Option<DomainRule>)
    ensures r.Some? ==> r.value.includeSubdomains
  {
    if StartsWith(line, "@@") then ParseSimpleBody(Allow, line[2..]) else ParseSimpleBody(Block, line)
  }

  lemma SimpleNameOfPlain(name: string)
    requires IsPlainName(name)
    ensures SimpleName(name + "^") == name
  {
    var closed := name + "^";
    assert forall i :: 0 <= i < |closed| ==> closed[i] == '^' || IsNameChar(closed[i]);
    assert Find(closed, '$') == None;
    assert closed[..|closed| - 1] == name;
    assert TrimEndChar(closed, '^') == name;
    assert TrimEndChar(name, '|') == name;
    TrimInert(name);
  }

  lemma SimpleShapeOfPlain(name: string)
    requires forall i :: 0 <= i < |name| ==> IsNameChar(name[i])
    ensures HasSimpleShape("||" + name + "^")
  {
    var rule := "||" + name + "^";
    assert forall i :: 0 <= i < |rule| ==> rule[i] == '|' || rule[i] == '^' || IsNameChar(rule[i]);
    assert rule[0] != "/"[0];
  }

  lemma SimpleBodyReads(disposition: Disposition, remainder: string, name: string)
    requires HasSimpleShape(remainder)
    requires NormalizeDomain(SimpleName(remainder[2..])) == Some(name)
    ensures ParseSimpleBody(disposition, remainder) == Some(DomainRule(disposition, name, true))
  {}

  lemma PlainNameReads(name: string, text: string)
    requires IsPlainName(name) && SimpleName(text) == name
    ensures NormalizeDomain(SimpleName(text)) == Some(name)
  {
    NormalizedNames(name);
  }

  lemma SimpleBodyOfPlain(disposition: Disposition, name: string, rule: string)
    requires IsPlainName(name) && rule == "||" + name + "^"
    ensures ParseSimpleBody(disposition, rule) == Some(DomainRule(disposition, name, true))
  {
    hide SimpleName;
    SimpleShapeOfPlain(name);
    SimpleNameOfPlain(name);
    assert rule[2..] == name + "^";
    PlainNameReads(name, rule[2..]);
    SimpleBodyReads(disposition, rule, name);
  }

  /** The simple route reads `||name^` back as a block rule on that very name, `@@||name^` as an allow rule. */
  lemma SimpleRuleRoundTrip(name: string)
    requires IsPlainName(name)
    ensures ParseSimpleRule("||" + name + "^") == Some(DomainRule(Block, name, true))
    ensures ParseSimpleRule("@@||" + name + "^") == Some(DomainRule(Allow, name, true))
  {
    var rule := "||" + name + "^";
    assert rule[0] != "@@"[0];
    assert ("@@||" + name + "^")[2..] == rule;
    SimpleBodyOfPlain(Block, name, rule);
    SimpleBodyOfPlain(Allow, name, rule);
  }

  function NamesOf(words: seq<string>): (names: seq<Option<string>>)
    ensures |names| == |words| && forall i :: 0 <= i < |names| ==> names[i] == NormalizeDomain(words[i])
  {
    seq(|words|, i requires 0 <= i < |words| => NormalizeDomain(words[i]))
  }

  function NormalizeAll(words: seq<string>): seq<string> {
    KeepSome(NamesOf(words))
  }

  function ParseHostsRule(lib: Library, line: string): Option<(IpAddr, seq<string>)> {
    var words := SplitWhitespace(line);
    if words == [] then None
    else
      match lib.parseIp(words[0])
      case None => None
      case Some(ip) =>
        var domains := NormalizeAll(words[1..]);
        if domains == [] then None else Some((ip, domains))
  }

  function RegexOf(pattern: string): string {
    if StartsWith(pattern, "/") && EndsWith(pattern, "/") && |pattern| >= 2 then pattern[1..|pattern| - 1]
    else RegexText(pattern)
  }

  function RuleWith(lib: Library, line: string, regex: string, m: ParsedModifiers): Result<MatchRule, SyntaxError> {
    if !lib.validRegex(regex) then Err(BadRegex)
    else Ok(MatchRule(line, regex, m.important, m.dnstypes, m.denyallow))
  }

  function ComplexRuleOf(lib: Library, line: string): Result<MatchRule, SyntaxError> {
    match SplitLine(if StartsWith(line, "@@") then line[2..] else line)
    case Err(e) => Err(e)
    case Ok((pattern, modifierText)) =>
      match ModifiersOf(lib, modifierText)
      case Err(e) => Err(e)
      case Ok(m) => RuleWith(lib, line, RegexOf(pattern), m)
  }

  method CompileRegex(pattern: string) returns (regex: string)
    ensures regex == RegexOf(pattern)
  {
    if StartsWith(pattern, "/") && EndsWith(pattern, "/") && |pattern| >= 2 {
      regex := pattern[1..|pattern| - 1];
    } else {
      regex := AdblockPatternToRegex(pattern);
    }
  }

  method ParseComplexRule(lib: Library, line: string) returns (r: Result<MatchRule, SyntaxError>)
    ensures r == ComplexRuleOf(lib, line)
  {
    var parts := SplitPatternAndModifiers(if StartsWith(line, "@@") then line[2..] else line);
    if parts.Err? {
      return Err(parts.error);
    }
    var modifiers := ParseModifiers(lib, parts.value.1);
    if modifiers.Err? {
      return Err(modifiers.error);
    }
    var regex := CompileRegex(parts.value.0);
    return RuleWith(lib, line, regex, modifiers.value);
  }

  /** What one line asks of the rule sets. */
  datatype Effect =
    | Nothing
    | DomainRules(rules: seq<DomainRule>)
    | Override(ip: IpAddr, domains: seq<string>)
    | Disable(target: string)
    | ComplexRule(rule: MatchRule, disposition: Disposition)

  function BlockNames(domains: seq<string>): (rules: seq<DomainRule>)
    ensures |rules| == |domains|
    ensures forall i :: 0 <= i < |rules| ==> rules[i] == DomainRule(Block, domains[i], false)
  {
    seq(|domains|, i requires 0 <= i < |domains| => DomainRule(Block, domains[i], false))
  }

  const BADFILTER := "$badfilter"

  function BadfilterTarget(rawText: string): string {
    TrimEndChar(TrimEndText(rawText, BADFILTER), ',')
  }

  function ClassifyComplex(lib: Library, line: string): (r: Result<Effect, SyntaxError>)
    ensures r.Ok? ==> !r.value.DomainRules?
  {
    match ComplexRuleOf(lib, line)
    case Err(e) => Err(e)
    case Ok(rule) =>
      if EndsWith(rule.rawText, BADFILTER) then Ok(Disable(BadfilterTarget(rule.rawText)))
      else Ok(ComplexRule(rule, if StartsWith(line, "@@") then Allow else Block))
  }

  function ClassifyHosts(origin: Origin, ip: IpAddr, domains: seq<string>): (e: Effect)
    ensures e.DomainRules? ==> AllBlock(e.rules)
  {
    if origin == RemoteFilter then DomainRules(BlockNames(domains)) else Override(ip, domains)
  }

  predicate AllBlock(rules: seq<DomainRule>) {
    forall i :: 0 <= i < |rules| ==> rules[i].disposition == Block
  }

  /** The routes after the simple one: none makes an allow rule on a domain. */
  function ClassifyOther(lib: Library, line: string, origin: Origin): (r: Result<Effect, SyntaxError>)
    ensures r.Ok? && r.value.DomainRules? ==> AllBlock(r.value.rules)
  {
    match ParseHostsRule(lib, line)
    case Some((ip, domains)) => Ok(ClassifyHosts(origin, ip, domains))
    case None =>
      match NormalizeDomain(line)
      case Some(domain) => Ok(DomainRules([DomainRule(Block, domain, false)]))
      case None => ClassifyComplex(lib, line)
  }

  predicate AllowsCoverSubdomains(rules: seq<DomainRule>) {
    forall i :: 0 <= i < |rules| && rules[i].disposition == Allow ==> rules[i].includeSubdomains
  }

  predicate OneKind(rules: seq<DomainRule>) {
    forall i, j :: 0 <= i < j < |rules| ==> rules[i].disposition == rules[j].disposition
  }

  /**
   * No line makes an allow rule for a single name only: they all cover the names below as well. And
   * no line makes allow rules and block rules together.
   */
  function Classify(lib: Library, rawLine: string, origin: Origin): (r: Result<Effect, SyntaxError>)
    ensures r.Ok? && r.value.DomainRules? ==> AllowsCoverSubdomains(r.value.rules) && OneKind(r.value.rules)
  {
    var line := Trim(StripComments(rawLine));
    if line == "" then Ok(Nothing)
    else
      match ParseSimpleRule(line)
      case Some(rule) => Ok(DomainRules([rule]))
      case None => ClassifyOther(lib, line, origin)
  }
}
