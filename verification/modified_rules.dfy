/**
 * Rules with `important`, `dnstype=` and `denyallow=`, from the text of the line to the queries they
 * match.
 */
module ModifiedRules {
  import opened Text
  import opened Domains
  import opened Regexes
  import opened Patterns
  import opened RuleSyntax
  import opened RuleIndex
  import opened BlockDecision
  import opened LineForms
  import opened BadfilterLines
  import opened ModifierMeanings

  // ---------------------------------------------------------------- dnstype

  /** How the library knows record types: capitals and digits. */
  predicate TypeName(name: string) {
    name != "" && forall i :: 0 <= i < |name| ==> 'A' <= name[i] <= 'Z' || '0' <= name[i] <= '9'
  }

  /** `text` is `name` but for the case of its letters. */
  predicate SpelledAs(text: string, name: string) {
    |text| == |name| && forall i :: 0 <= i < |text| ==>
      text[i] == name[i] || ('a' <= text[i] <= 'z' && text[i] as int - 32 == name[i] as int)
  }

  /** A list of record types: their names, how they are spelled in the rule, and what they stand for. */
  ghost predicate KnownList(lib: Library, names: seq<string>, texts: seq<string>, codes: seq<nat>) {
    && |names| == |texts| == |codes| > 0
    && forall i :: 0 <= i < |names| ==>
         TypeName(names[i]) && SpelledAs(texts[i], names[i]) && lib.recordType(names[i]) == Some(codes[i])
  }

  function Marked(negated: bool, texts: seq<string>): (values: seq<string>)
    ensures |values| == |texts|
    ensures forall i :: 0 <= i < |texts| ==> values[i] == (if negated then "~" else "") + texts[i]
  {
    seq(|texts|, i requires 0 <= i < |texts| => (if negated then "~" else "") + texts[i])
  }

  function DnstypeText(negated: bool, texts: seq<string>): string {
    "dnstype=" + Join(Marked(negated, texts), '|')
  }

  /** The types that are listed, or all others. */
  predicate Selects(negated: bool, codes: seq<nat>, rtype: nat) {
    if negated then rtype !in codes else rtype in codes
  }

  lemma UpperOf(text: string, name: string)
    requires TypeName(name) && SpelledAs(text, name)
    ensures AsciiUpper(text) == name && text != "" && text[0] != '~'
    ensures forall i :: 0 <= i < |text| ==> text[i] != '|' && text[i] != ',' && text[i] != '$' && !IsWhitespace(text[i])
  {
    assert forall i :: 0 <= i < |text| ==> AsciiUpper(text)[i] == UpperChar(text[i]) == name[i];
  }

  lemma NoTilde(text: string)
    requires text != "" && text[0] != '~'
    ensures TrimStartChar(text, '~') == text && !Negated(text)
  {
    assert text[0] != "~"[0];
  }

  lemma OneTilde(value: string, text: string)
    requires value != "" && value[0] == '~' && value[1..] == text
    ensures TrimStartChar(value, '~') == TrimStartChar(text, '~') && Negated(value)
  {
    assert value[..1] == "~";
  }

  lemma TildeOff(negated: bool, text: string, value: string)
    requires text != "" && text[0] != '~' && value == (if negated then "~" else "") + text
    ensures TrimStartChar(value, '~') == text && (Negated(value) <==> negated)
    ensures value != "" && forall i :: 0 <= i < |value| ==> value[i] == '~' || value[i] in text
  {
    hide TrimStartChar, Negated;
    NoTilde(text);
    if negated {
      assert value[0] == '~' && value[1..] == text;
      OneTilde(value, text);
    } else {
      assert value == text;
    }
  }

  lemma ValueRead(lib: Library, negated: bool, text: string, name: string, value: string)
    requires TypeName(name) && SpelledAs(text, name) && value == (if negated then "~" else "") + text
    ensures TypeOf(lib, value) == lib.recordType(name) && (Negated(value) <==> negated)
    ensures value != "" && '|' !in value && ',' !in value && '$' !in value && Solid(value)
  {
    hide TrimStartChar, AsciiUpper, TypeName, SpelledAs, Negated;
    UpperOf(text, name);
    TildeOff(negated, text, value);
  }

  lemma {:induction false} NothingEmpty(parts: seq<string>)
    requires forall i :: 0 <= i < |parts| ==> parts[i] != ""
    ensures NonEmpty(parts) == parts
  {
    if parts != [] {
      NothingEmpty(parts[1..]);
      assert parts == [parts[0]] + parts[1..];
    }
  }

  function SetOf(codes: seq<nat>): set<nat> {
    set c | c in codes
  }

  lemma KnownCodes(types: seq<Option<nat>>, codes: seq<nat>)
    requires |types| == |codes| && forall i :: 0 <= i < |types| ==> types[i] == Some(codes[i])
    ensures KnownTypes(types) == Some(SetOf(codes))
  {
    CollectAll(types, codes);
  }

  lemma ListRead(lib: Library, negated: bool, names: seq<string>, texts: seq<string>, codes: seq<nat>)
    requires KnownList(lib, names, texts, codes)
    ensures DnstypeOf(lib, Marked(negated, texts)) ==
            Ok(if negated then Exclude(SetOf(codes)) else Include(SetOf(codes)))
    ensures forall v :: v in Marked(negated, texts) ==> v != "" && '|' !in v && ',' !in v && '$' !in v && Solid(v)
  {
    hide TypeOf, Negated, TypeName, SpelledAs, KnownTypes, IsWhitespace;
    var values := Marked(negated, texts);
    forall i | 0 <= i < |values|
      ensures TypeOf(lib, values[i]) == Some(codes[i]) && (Negated(values[i]) <==> negated)
      ensures values[i] != "" && '|' !in values[i] && ',' !in values[i] && '$' !in values[i] && Solid(values[i])
    {
      ValueRead(lib, negated, texts[i], names[i], values[i]);
    }
    KnownCodes(TypesOf(lib, values), codes);
    assert values != [] && (Negated(values[0]) <==> negated);
    DnstypeCases(lib, values);
  }

  lemma JoinedParts(values: seq<string>)
    requires values != [] && forall v :: v in values ==> v != "" && '|' !in v
    ensures NonEmpty(Split(Join(values, '|'), '|')) == values
  {
    hide Split, Join;
    SplitJoin(values, '|');
    assert forall i :: 0 <= i < |values| ==> values[i] in values;
    NothingEmpty(values);
  }

  lemma IsDnstype(m: string, value: string)
    requires m == "dnstype=" + value
    ensures m != "" && m != "important" && m != "badfilter" && StartsWith(m, "dnstype=") && m[8..] == value
  {
    assert m[1] == 'n' && "important"[1] == 'm' && "badfilter"[1] == 'a';
  }

  lemma DnstypeValue(lib: Library, m: string, value: string, types: TypeConstraint, parsed: ParsedModifiers)
    requires m != "" && m != "important" && m != "badfilter" && StartsWith(m, "dnstype=") && m[8..] == value
    requires DnstypeOf(lib, NonEmpty(Split(value, '|'))) == Ok(types)
    ensures AddModifier(lib, m, parsed) == Ok(parsed.(dnstypes := Some(types)))
  {
    hide DnstypeOf, NonEmpty, Split;
  }

  /** The value of `dnstype=` is read back as the listed types, or all but them; nothing else changes. */
  lemma DnstypeRoundTrip(lib: Library, negated: bool, names: seq<string>, texts: seq<string>, codes: seq<nat>,
                         parsed: ParsedModifiers)
    requires KnownList(lib, names, texts, codes)
    ensures AddModifier(lib, DnstypeText(negated, texts), parsed) ==
            Ok(parsed.(dnstypes := Some(if negated then Exclude(SetOf(codes)) else Include(SetOf(codes)))))
  {
    hide DnstypeOf, NonEmpty, Split, Join, AddModifier, TypeName, SpelledAs, Solid;
    var values := Marked(negated, texts);
    ListRead(lib, negated, names, texts, codes);
    JoinedParts(values);
    IsDnstype(DnstypeText(negated, texts), Join(values, '|'));
    DnstypeValue(lib, DnstypeText(negated, texts), Join(values, '|'),
                 if negated then Exclude(SetOf(codes)) else Include(SetOf(codes)), parsed);
  }

  // ------------------------------------------------------------------ errors

  /** A modifier that is none of the four fails the rule. */
  lemma UnknownModifier(lib: Library, m: string, parsed: ParsedModifiers)
    requires m != "" && m != "important" && m != "badfilter"
    requires !StartsWith(m, "dnstype=") && !StartsWith(m, "denyallow=")
    ensures AddModifier(lib, m, parsed) == Err(UnsupportedModifier)
  {}

  /** An exemption that is no name fails the rule. */
  lemma DenyallowFails(value: string, parts: seq<string>, parsed: ParsedModifiers)
    requires parts == Split(value, '|')
    ensures AddDenyallow(value, parsed).Err? <==> exists i :: 0 <= i < |parts| && NormalizeDomain(parts[i]) == None
  {
    hide NormalizeDomain;
    NamesFail(parts);
  }

  lemma NamesFail(parts: seq<string>)
    ensures ParseDomainPatterns(parts) == None <==> exists i :: 0 <= i < |parts| && NormalizeDomain(parts[i]) == None
  {
    hide NormalizeDomain;
    var patterns := seq(|parts|, i requires 0 <= i < |parts| => ParseDomainPattern(parts[i]));
    assert forall i :: 0 <= i < |parts| ==> (patterns[i] == None <==> NormalizeDomain(parts[i]) == None);
    if i :| 0 <= i < |parts| && NormalizeDomain(parts[i]) == None { assert patterns[i] == None; }
  }

  /** A regex that is not valid fails the rule, whatever its modifiers. */
  lemma InvalidRegexFails(lib: Library, line: string)
    requires SplitLine(if StartsWith(line, "@@") then line[2..] else line).Ok?
    requires var (pattern, mods) := SplitLine(if StartsWith(line, "@@") then line[2..] else line).value;
             !lib.validRegex(RegexOf(pattern))
    ensures ComplexRuleOf(lib, line).Err?
  {
    hide SplitLine, ModifiersOf, RegexOf;
  }

  // ------------------------------------------------------- a list of modifiers

  /** Nothing in it ends a modifier, or the modifiers, or is trimmed. */
  predicate Tame(s: string) {
    forall i :: 0 <= i < |s| ==> s[i] != ',' && s[i] != '$' && !IsWhitespace(s[i])
  }

  predicate AllTame(mods: seq<string>) {
    forall i :: 0 <= i < |mods| ==> mods[i] != "" && Tame(mods[i])
  }

  lemma {:induction false} JoinTame(parts: seq<string>, c: char)
    requires (forall i :: 0 <= i < |parts| ==> Tame(parts[i])) && Tame([c])
    ensures Tame(Join(parts, c))
  {
    if |parts| > 1 { JoinTame(parts[1..], c); }
  }

  lemma ModifierTexts(lib: Library, mods: seq<string>)
    requires mods != [] && AllTame(mods)
    ensures ModifiersOf(lib, Some(Join(mods, ','))) == AddModifiers(lib, mods, NO_MODIFIERS)
  {
    hide AddModifiers, Join, Split;
    forall m | m in mods ensures ',' !in m {
      var i :| 0 <= i < |mods| && mods[i] == m;
    }
    SplitJoin(mods, ',');
  }

  lemma OneMore(lib: Library, m: string, rest: seq<string>, parsed: ParsedModifiers, next: ParsedModifiers)
    requires m != "" && Tame(m) && AddModifier(lib, m, parsed) == Ok(next)
    ensures AddModifiers(lib, [m] + rest, parsed) == AddModifiers(lib, rest, next)
  {
    hide AddModifier;
    SolidIsTrimmed(m);
    assert ([m] + rest)[1..] == rest;
  }

  lemma NoneLeft(lib: Library, parsed: ParsedModifiers)
    ensures AddModifiers(lib, [], parsed) == Ok(parsed)
  {}

  function ModifiedLine(name: string, mods: seq<string>): string {
    "||" + name + "^$" + Join(mods, ',')
  }

  lemma ModifiedParts(lib: Library, pattern: string, mods: string, line: string, parsed: ParsedModifiers)
    requires line == pattern + "$" + mods && '$' !in pattern && |pattern| > 1
    requires !StartsWith(pattern, "/") && !StartsWith(pattern, "@@")
    requires ModifiersOf(lib, Some(mods)) == Ok(parsed) && lib.validRegex(RegexText(pattern))
    ensures ComplexRuleOf(lib, line) ==
            Ok(MatchRule(line, RegexText(pattern), parsed.important, parsed.dnstypes, parsed.denyallow))
  {
    hide ModifiersOf, SplitLine, RegexText;
    SplitAtDollar(pattern, mods);
    assert line[0] == pattern[0] && line[1] == pattern[1];
    assert !StartsWith(line, "@@");
    assert RegexOf(pattern) == RegexText(pattern);
  }

  /** A rule on a name with any list of good modifiers: the compiled name with what the modifiers say. */
  lemma RuleOfModifiers(lib: Library, name: string, mods: seq<string>, parsed: ParsedModifiers)
    requires IsPlainName(name) && lib.validRegex(RegexText("||" + name + "^"))
    requires mods != [] && AllTame(mods) && AddModifiers(lib, mods, NO_MODIFIERS) == Ok(parsed)
    ensures ComplexRuleOf(lib, ModifiedLine(name, mods)) ==
            Ok(MatchRule(ModifiedLine(name, mods), RegexText("||" + name + "^"),
                         parsed.important, parsed.dnstypes, parsed.denyallow))
  {
    hide AddModifiers, ModifiersOf, RegexText, ComplexRuleOf, AllTame, Join, IsPlainName;
    var pattern := "||" + name + "^";
    NameLineParts(name);
    ModifierTexts(lib, mods);
    assert ModifiedLine(name, mods) == pattern + "$" + Join(mods, ',');
    ModifiedParts(lib, pattern, Join(mods, ','), ModifiedLine(name, mods), parsed);
  }

  // ----------------------------------------------------------- what they match

  /** A name or one below it. */
  ghost predicate IsUnder(domain: string, name: string) {
    domain == name || exists p: string :: domain == p + "." + name
  }

  lemma NamedRuleMatches(lib: Library, name: string, rule: MatchRule, domain: string, rtype: nat)
    requires IsPlainName(name) && Textbook(lib, RegexText("||" + name + "^"))
    requires rule.regex == RegexText("||" + name + "^")
    ensures ComplexRuleMatches(lib, rule, domain, rtype) <==>
            && IsUnder(domain, name) && NewlineFree(domain, 0, |domain|) && AllowsType(rule, rtype)
            && forall p :: p in rule.denyallow ==> !DomainPatternMatches(p, domain)
  {
    hide RegexText, Parse, AllowsType, DomainPatternMatches, Accepts, IsMatch;
    GeneratedRegexes(lib, "||" + name + "^", domain);
    RoutesAgree(name, domain);
    SuffixMatchMeaning(domain, name);
  }

  /** `||name^$important` matches the name and those below it, for every type. */
  lemma ImportantRule(lib: Library, name: string, domain: string, rtype: nat)
    requires IsPlainName(name) && Textbook(lib, RegexText("||" + name + "^"))
    ensures var rule := ComplexRuleOf(lib, ModifiedLine(name, ["important"]));
            && rule.Ok? && rule.value.important
            && (ComplexRuleMatches(lib, rule.value, domain, rtype) <==>
                IsUnder(domain, name) && NewlineFree(domain, 0, |domain|))
  {
    hide ComplexRuleOf, RegexText, AddModifiers, AddModifier, ComplexRuleMatches, Tame, Parse, IsMatch;
    var parsed := NO_MODIFIERS.(important := true);
    CompilerParses("||" + name + "^");
    PlainTame();
    ImportantModifier(lib, NO_MODIFIERS);
    OneMore(lib, "important", [], NO_MODIFIERS, parsed);
    NoneLeft(lib, parsed);
    assert ["important"] + [] == ["important"];
    RuleOfModifiers(lib, name, ["important"], parsed);
    NamedRuleMatches(lib, name, ComplexRuleOf(lib, ModifiedLine(name, ["important"])).value, domain, rtype);
  }

  /** `||name^$dnstype=..` matches the name and those below it for the selected types, and no others. */
  lemma DnstypeRule(lib: Library, name: string, negated: bool, names: seq<string>, texts: seq<string>, codes: seq<nat>,
                    domain: string, rtype: nat)
    requires IsPlainName(name) && Textbook(lib, RegexText("||" + name + "^")) && KnownList(lib, names, texts, codes)
    ensures var rule := ComplexRuleOf(lib, ModifiedLine(name, [DnstypeText(negated, texts)]));
            && rule.Ok? && !rule.value.important
            && (ComplexRuleMatches(lib, rule.value, domain, rtype) <==>
                IsUnder(domain, name) && NewlineFree(domain, 0, |domain|) && Selects(negated, codes, rtype))
  {
    hide ComplexRuleOf, RegexText, AddModifiers, AddModifier, ComplexRuleMatches, KnownList;
    hide DnstypeText, Tame, Parse, IsMatch;
    var m := DnstypeText(negated, texts);
    var types := if negated then Exclude(SetOf(codes)) else Include(SetOf(codes));
    CompilerParses("||" + name + "^");
    DnstypeTame(lib, negated, names, texts, codes);
    DnstypeRoundTrip(lib, negated, names, texts, codes, NO_MODIFIERS);
    OneMore(lib, m, [], NO_MODIFIERS, NO_MODIFIERS.(dnstypes := Some(types)));
    NoneLeft(lib, NO_MODIFIERS.(dnstypes := Some(types)));
    assert [m] + [] == [m];
    RuleOfModifiers(lib, name, [m], NO_MODIFIERS.(dnstypes := Some(types)));
    NamedRuleMatches(lib, name, ComplexRuleOf(lib, ModifiedLine(name, [m])).value, domain, rtype);
  }

  lemma DnstypeTame(lib: Library, negated: bool, names: seq<string>, texts: seq<string>, codes: seq<nat>)
    requires KnownList(lib, names, texts, codes)
    ensures DnstypeText(negated, texts) != "" && Tame(DnstypeText(negated, texts))
  {
    hide TypeOf, Negated, TypeName, SpelledAs, IsWhitespace;
    var values := Marked(negated, texts);
    ListRead(lib, negated, names, texts, codes);
    forall i | 0 <= i < |values| ensures Tame(values[i]) { assert values[i] in values; }
    PlainTame();
    JoinTame(values, '|');
  }

  lemma PlainTame()
    ensures Tame("|") && Tame("dnstype=") && Tame("denyallow=") && Tame("important")
  {}

  function DenyallowText(ps: seq<DomainPattern>): string {
    "denyallow=" + Join(PatternTexts(ps), '|')
  }

  lemma DenyallowTame(ps: seq<DomainPattern>)
    requires forall p :: p in ps ==> IsPlainName(NameOf(p))
    ensures DenyallowText(ps) != "" && Tame(DenyallowText(ps))
  {
    hide IsWhitespace;
    var texts := PatternTexts(ps);
    forall i | 0 <= i < |texts| ensures Tame(texts[i]) {
      assert ps[i] in ps;
      PatternTame(ps[i]);
    }
    PlainTame();
    JoinTame(texts, '|');
  }

  lemma PatternTame(p: DomainPattern)
    requires IsPlainName(NameOf(p))
    ensures Tame(PatternText(p))
  {
    var name, text := NameOf(p), PatternText(p);
    assert forall i :: 0 <= i < |name| ==> IsNameChar(name[i]);
    assert forall i :: 0 <= i < |text| ==> text[i] == '*' || text[i] == '.' || text[i] in name;
  }

  /** No pattern of the list exempts the name: not itself where plain, not above it where a wildcard. */
  ghost predicate NotExempt(ps: seq<DomainPattern>, domain: string) {
    forall p :: p in ps ==>
      match p
      case Exact(name) => domain != name
      case WildcardSuffix(suffix) => !exists q: string :: domain == q + "." + suffix
  }

  /** All three at once, each with its own effect on the queries that the rule matches. */
  lemma FullRule(lib: Library, name: string, negated: bool, names: seq<string>, texts: seq<string>, codes: seq<nat>,
                 ps: seq<DomainPattern>, domain: string, rtype: nat)
    requires IsPlainName(name) && Textbook(lib, RegexText("||" + name + "^")) && KnownList(lib, names, texts, codes)
    requires ps != [] && forall p :: p in ps ==> IsPlainName(NameOf(p))
    ensures var mods := ["important", DnstypeText(negated, texts), DenyallowText(ps)];
            var rule := ComplexRuleOf(lib, ModifiedLine(name, mods));
            && rule.Ok? && rule.value.important
            && (ComplexRuleMatches(lib, rule.value, domain, rtype) <==>
                && IsUnder(domain, name) && NewlineFree(domain, 0, |domain|)
                && Selects(negated, codes, rtype) && NotExempt(ps, domain))
  {
    hide ComplexRuleOf, RegexText, AddModifiers, ComplexRuleMatches, KnownList, Parse, IsMatch;
    hide DnstypeText, DenyallowText, ModifiedLine, IsPlainName, DomainPatternMatches;
    var mods := ["important", DnstypeText(negated, texts), DenyallowText(ps)];
    var parsed := ThreeModifiers(lib, negated, names, texts, codes, ps);
    CompilerParses("||" + name + "^");
    RuleOfModifiers(lib, name, mods, parsed);
    NamedRuleMatches(lib, name, ComplexRuleOf(lib, ModifiedLine(name, mods)).value, domain, rtype);
    forall p | p in ps ensures DomainPatternMatches(p, domain) <==>
            match p
            case Exact(n) => domain == n
            case WildcardSuffix(suffix) => exists q: string :: domain == q + "." + suffix
    {
      DenyallowCovers(p, domain);
    }
  }

  lemma ImportantModifier(lib: Library, parsed: ParsedModifiers)
    ensures AddModifier(lib, "important", parsed) == Ok(parsed.(important := true))
  {}

  lemma DenyallowIsText(ps: seq<DomainPattern>)
    ensures DenyallowText(ps) == "denyallow=" + Join(PatternTexts(ps), '|')
  {}

  lemma ThreeModifiers(lib: Library, negated: bool, names: seq<string>, texts: seq<string>, codes: seq<nat>,
                       ps: seq<DomainPattern>) returns (parsed: ParsedModifiers)
    requires KnownList(lib, names, texts, codes)
    requires ps != [] && forall p :: p in ps ==> IsPlainName(NameOf(p))
    ensures var mods := ["important", DnstypeText(negated, texts), DenyallowText(ps)];
            AllTame(mods) && AddModifiers(lib, mods, NO_MODIFIERS) == Ok(parsed)
    ensures parsed.important && parsed.denyallow == ps
    ensures parsed.dnstypes == Some(if negated then Exclude(SetOf(codes)) else Include(SetOf(codes)))
  {
    hide KnownList, DnstypeText, DenyallowText, AddModifiers, AddModifier, Tame, IsPlainName;
    var first, second := NO_MODIFIERS.(important := true), DnstypeText(negated, texts);
    var third := DenyallowText(ps);
    var types := if negated then Exclude(SetOf(codes)) else Include(SetOf(codes));
    parsed := first.(dnstypes := Some(types)).(denyallow := ps);
    PlainTame();
    DnstypeTame(lib, negated, names, texts, codes);
    DenyallowTame(ps);
    assert ["important", second, third] == ["important"] + [second, third];
    assert [second, third] == [second] + [third] && [third] == [third] + [];
    ImportantModifier(lib, NO_MODIFIERS);
    OneMore(lib, "important", [second, third], NO_MODIFIERS, first);
    DnstypeRoundTrip(lib, negated, names, texts, codes, first);
    OneMore(lib, second, [third], first, first.(dnstypes := Some(types)));
    DenyallowIsText(ps);
    DenyallowRoundTrip(lib, ps, first.(dnstypes := Some(types)));
    OneMore(lib, third, [], first.(dnstypes := Some(types)), parsed);
    NoneLeft(lib, parsed);
  }

  // ------------------------------------------------------------- regex rules

  /** `re` between slashes ends at the second one: nothing in it closes it. */
  predicate ClosesOnce(re: string) {
    var pattern := "/" + re + "/";
    && IsCloser(pattern, |pattern| - 1)
    && forall j :: 0 <= j < |pattern| - 1 ==> !IsCloser(pattern, j)
  }

  lemma RegexParts(re: string, mods: Option<string>, line: string)
    requires ClosesOnce(re) && line == "/" + re + "/" + (if mods.Some? then "$" + mods.value else "")
    ensures SplitLine(line) == Ok(("/" + re + "/", mods)) && !StartsWith(line, "@@")
  {
    var pattern := "/" + re + "/";
    var tail := if mods.Some? then "$" + mods.value else "";
    assert pattern[0] == '/' && line[0] == '/' && line[0] != "@@"[0];
    ClosedPattern(pattern, tail);
    assert line == pattern + tail;
    FirstCloserAt(line, |pattern| - 1);
    assert line[..|pattern|] == pattern;
    if mods.Some? { assert line[|pattern| + 1..] == mods.value; } else { assert line == pattern; }
  }

  lemma SlashesOff(re: string)
    ensures RegexOf("/" + re + "/") == re
  {
    var pattern := "/" + re + "/";
    assert pattern[0] == '/' && pattern[|pattern| - 1] == '/' && pattern[|pattern| - 1..] == "/";
    assert pattern[1..|pattern| - 1] == re;
  }

  /** A rule between slashes is that very regex, without the slashes, with what its modifiers say. */
  lemma RegexRule(lib: Library, re: string, mods: Option<string>, line: string, parsed: ParsedModifiers)
    requires ClosesOnce(re) && line == "/" + re + "/" + (if mods.Some? then "$" + mods.value else "")
    requires ModifiersOf(lib, mods) == Ok(parsed) && lib.validRegex(re)
    ensures ComplexRuleOf(lib, line) == Ok(MatchRule(line, re, parsed.important, parsed.dnstypes, parsed.denyallow))
  {
    hide ModifiersOf, SplitLine, RegexOf, ClosesOnce;
    RegexParts(re, mods, line);
    SlashesOff(re);
  }
}
