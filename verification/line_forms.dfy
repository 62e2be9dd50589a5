/** What the documented line forms come to, from the text of the line to the queries it decides. */
module LineForms {
  import opened Text
  import opened Domains
  import opened Addresses
  import opened NameForms
  import opened Regexes
  import opened Patterns
  import opened RuleSyntax
  import opened RuleIndex

  lemma SolidIsTrimmed(s: string)
    requires Solid(s)
    ensures Trim(s) == s
  {}

  lemma OneWord(s: string)
    requires Solid(s)
    ensures SplitWhitespace(s) == [s]
  {
    SpreadRoundTrip([s], [], "");
    assert Spread([s], []) + "" == s;
  }

  /** A line of one word is never a hosts rule: there is no name after the address. */
  lemma OneWordIsNoHostsRule(lib: Library, s: string)
    requires Solid(s)
    ensures ParseHostsRule(lib, s) == None
  {
    OneWord(s);
    assert [s][1..] == [];
  }

  /** A solid line that is not a comment is taken as it stands. */
  lemma LineAsIs(s: string)
    requires Solid(s) && s[0] != '#' && s[0] != '!'
    ensures Trim(StripComments(s)) == s
  {}

  /** A line with nothing on it, or with `#` or `!` first, asks for nothing. */
  lemma CommentLine(lib: Library, lead: string, rest: string, origin: Origin)
    requires Blank(lead) && (rest == "" || rest[0] == '#' || rest[0] == '!')
    ensures Classify(lib, lead + rest, origin) == Ok(Nothing)
  {
    hide ParseSimpleRule, ClassifyOther, Trim;
    BlanksFirst(lead, rest);
    if rest == "" {
      assert lead + rest == lead;
      BlankIsEmpty(lead);
    } else {
      NothingLeft(lead + rest, rest);
      BlankIsEmpty("");
    }
  }

  lemma NothingLeft(line: string, rest: string)
    requires TrimStart(line) == TrimStart(rest) && rest != "" && (rest[0] == '#' || rest[0] == '!')
    ensures StripComments(line) == ""
  {
    assert TrimStart(rest) == rest;
    assert rest[..1] == [rest[0]];
  }

  lemma {:induction false} BlankIsEmpty(s: string)
    requires Blank(s)
    ensures Trim(s) == "" && Trim(StripComments(s)) == ""
  {
    BlanksFirst(s, "");
    assert s + "" == s && TrimStart("") == "" && TrimEnd("") == "";
  }

  lemma ClassifyAsName(lib: Library, line: string, origin: Origin, name: string)
    requires Solid(line) && line[0] != '#' && line[0] != '!'
    requires ParseSimpleRule(line) == None && NormalizeDomain(line) == Some(name)
    ensures Classify(lib, line, origin) == Ok(DomainRules([DomainRule(Block, name, false)]))
  {
    LineAsIs(line);
    OneWordIsNoHostsRule(lib, line);
  }

  lemma NotASimpleRule(line: string)
    requires line != "" && line[0] != '|' && line[0] != '@'
    ensures ParseSimpleRule(line) == None
  {}

  /** A bare name blocks that name and nothing below it. */
  lemma BareNameLine(lib: Library, name: string, origin: Origin)
    requires IsPlainName(name)
    ensures Classify(lib, name, origin) == Ok(DomainRules([DomainRule(Block, name, false)]))
  {
    PlainIsSolid(name);
    PlainStart(name);
    NotASimpleRule(name);
    NormalizedNames(name);
    ClassifyAsName(lib, name, origin, name);
  }

  lemma PlainStart(name: string)
    requires IsPlainName(name)
    ensures name[0] != '#' && name[0] != '!' && name[0] != '|' && name[0] != '@'
  {
    assert IsNameChar(name[0]);
  }

  /** `||name^` blocks the name and everything below it, and `@@||name^` allows as much. */
  lemma SimpleLine(lib: Library, name: string, origin: Origin)
    requires IsPlainName(name)
    ensures Classify(lib, "||" + name + "^", origin) == Ok(DomainRules([DomainRule(Block, name, true)]))
    ensures Classify(lib, "@@||" + name + "^", origin) == Ok(DomainRules([DomainRule(Allow, name, true)]))
  {
    hide StripComments, Trim, ParseSimpleRule, ClassifyOther;
    var block, allow := "||" + name + "^", "@@||" + name + "^";
    assert forall i :: 0 <= i < |block| ==> block[i] == '|' || block[i] == '^' || IsNameChar(block[i]);
    assert forall i :: 0 <= i < |allow| ==>
      allow[i] == '@' || allow[i] == '|' || allow[i] == '^' || IsNameChar(allow[i]);
    LineAsIs(block);
    LineAsIs(allow);
    SimpleRuleRoundTrip(name);
  }

  // -------------------------------------------------------------- hosts lines

  /** What addresses are written with. */
  predicate AddressText(s: string) {
    s != "" && forall i :: 0 <= i < |s| ==>
      '0' <= s[i] <= '9' || 'a' <= s[i] <= 'f' || 'A' <= s[i] <= 'F' || s[i] == '.' || s[i] == ':'
  }

  lemma HostsRule(lib: Library, line: string, words: seq<string>, ip: IpAddr)
    requires |words| > 1 && SplitWhitespace(line) == words
    requires lib.parseIp(words[0]) == Some(ip) && NormalizeAll(words[1..]) != []
    ensures ParseHostsRule(lib, line) == Some((ip, NormalizeAll(words[1..])))
  {}

  lemma UncommentedLine(line: string)
    requires line != "" && line[0] != '#' && line[0] != '!'
    requires !IsWhitespace(line[0]) && !IsWhitespace(line[|line| - 1])
    ensures Trim(StripComments(line)) == line
  {}

  lemma ClassifyAsHosts(lib: Library, line: string, text: string, origin: Origin, ip: IpAddr, names: seq<string>)
    requires Trim(StripComments(line)) == text != "" && ParseSimpleRule(text) == None
    requires ParseHostsRule(lib, text) == Some((ip, names))
    ensures Classify(lib, line, origin) ==
            Ok(if origin == RemoteFilter then DomainRules(BlockNames(names)) else Override(ip, names))
  {}

  /** A text between blanks is what is left of the line, unless it starts a comment. */
  lemma BetweenBlanks(lead: string, text: string, trail: string)
    requires Blank(lead) && Blank(trail) && text != "" && text[0] != '#' && text[0] != '!'
    requires !IsWhitespace(text[0]) && !IsWhitespace(text[|text| - 1])
    ensures Trim(StripComments(lead + text + trail)) == text
  {
    hide Trim;
    TrimDrops(lead, text, trail);
    var line := lead + text + trail;
    assert line == lead + (text + trail);
    BlanksFirst(lead, text + trail);
    assert TrimStart(text + trail) == text + trail;
    assert TrimStart(line)[0] == text[0] && text[0] != "#"[0] && text[0] != "!"[0];
  }

  lemma AddressStart(words: seq<string>, text: string)
    requires words != [] && AddressText(words[0]) && words[0] <= text
    ensures text != "" && text[0] != '#' && text[0] != '!' && text[0] != '|' && text[0] != '@' && !IsWhitespace(text[0])
  {
    assert text[0] == words[0][0];
  }

  /**
   * An address and names, with any blanks around and between: in a remote list this blocks each text
   * that is a name, by itself, and the address is ignored; among the user's rules it answers those
   * names with the address. Texts that are no names are dropped.
   */
  lemma HostsLine(lib: Library, words: seq<string>, gaps: seq<string>, lead: string, trail: string,
                  ip: IpAddr, origin: Origin)
    requires |words| == |gaps| + 1 > 1 && AllSolid(words) && AreGaps(gaps) && Blank(lead) && Blank(trail)
    requires AddressText(words[0]) && lib.parseIp(words[0]) == Some(ip) && NormalizeAll(words[1..]) != []
    ensures var names := NormalizeAll(words[1..]);
            Classify(lib, lead + Spread(words, gaps) + trail, origin) ==
            Ok(if origin == RemoteFilter then DomainRules(BlockNames(names)) else Override(ip, names))
  {
    hide NormalizeAll, SplitWhitespace, ParseHostsRule, ParseSimpleRule, Classify, Trim, StripComments;
    var text := Spread(words, gaps);
    SpreadEnds(words, gaps);
    AddressStart(words, text);
    SpreadRoundTrip(words, gaps, "");
    assert text + "" == text;
    HostsRule(lib, text, words, ip);
    BetweenBlanks(lead, text, trail);
    NotASimpleRule(text);
    ClassifyAsHosts(lib, lead + text + trail, text, origin, ip, NormalizeAll(words[1..]));
  }

  lemma PlainIsSolid(name: string)
    requires IsPlainName(name)
    ensures Solid(name)
  {}

  // ------------------------------------------------------ rules with a modifier

  lemma OnePart(s: string, c: char)
    requires c !in s
    ensures Split(s, c) == [s]
  {}

  lemma PlainModifier(lib: Library, modifier: string)
    requires modifier == "important" || modifier == "badfilter"
    ensures ModifiersOf(lib, Some(modifier)) == Ok(ParsedModifiers(modifier == "important", None, []))
  {
    hide Split, Trim, AddModifiers, StartsWith, AddDnstype, AddDenyallow;
    if modifier == "important" { assert ',' !in "important"; } else { assert ',' !in "badfilter"; }
    OnePart(modifier, ',');
    SolidIsTrimmed(modifier);
    OneModifier(lib, modifier, NO_MODIFIERS.(important := modifier == "important"));
  }

  lemma OneModifier(lib: Library, modifier: string, parsed: ParsedModifiers)
    requires AddModifier(lib, Trim(modifier), NO_MODIFIERS) == Ok(parsed)
    ensures AddModifiers(lib, [modifier], NO_MODIFIERS) == Ok(parsed)
  {}

  lemma SplitAtDollar(pattern: string, modifier: string)
    requires '$' !in pattern && !StartsWith(pattern, "/") && pattern != ""
    ensures SplitLine(pattern + "$" + modifier) == Ok((pattern, Some(modifier)))
  {
    var line := pattern + "$" + modifier;
    FindAfter(pattern, '$', modifier);
    assert line == pattern + ['$'] + modifier;
    assert line[0] == pattern[0];
    assert line[..|pattern|] == pattern && line[|pattern| + 1..] == modifier;
  }

  lemma NameLineParts(name: string)
    requires IsPlainName(name)
    ensures var p := "||" + name + "^"; '$' !in p && !StartsWith(p, "/") && !StartsWith(p, "@@") && Solid(p)
  {
    var p := "||" + name + "^";
    assert forall i :: 0 <= i < |p| ==> p[i] == '|' || p[i] == '^' || IsNameChar(p[i]);
    assert p[0] != "/"[0] && p[0] != "@@"[0];
  }

  /** `||name^$important` and `||name^$badfilter` become the compiled pattern with that one flag. */
  lemma ModifiedRule(lib: Library, name: string, modifier: string, line: string)
    requires IsPlainName(name) && (modifier == "important" || modifier == "badfilter")
    requires line == "||" + name + "^$" + modifier
    requires Textbook(lib, RegexText("||" + name + "^"))
    ensures ComplexRuleOf(lib, line) ==
            Ok(MatchRule(line, RegexText("||" + name + "^"), modifier == "important", None, []))
  {
    hide RegexText, IsPlainName, Parse, ModifiersOf, IsMatch, SplitLine;
    var pattern := "||" + name + "^";
    NameLineParts(name);
    assert line == pattern + "$" + modifier;
    assert line[0] == pattern[0] && line[0] != "@@"[0];
    SplitAtDollar(pattern, modifier);
    PlainModifier(lib, modifier);
    CompilerParses(pattern);
    assert RegexOf(pattern) == RegexText(pattern);
    RuleWithValid(lib, line, RegexText(pattern), ParsedModifiers(modifier == "important", None, []));
  }

  lemma RuleWithValid(lib: Library, line: string, regex: string, m: ParsedModifiers)
    requires lib.validRegex(regex)
    ensures RuleWith(lib, line, regex, m) == Ok(MatchRule(line, regex, m.important, m.dnstypes, m.denyallow))
  {}

  /**
   * The long route agrees with the short one: the regex of `||name^$important` matches exactly the
   * newline-free names that the index finds for `||name^`.
   */
  lemma ImportantRuleMatches(lib: Library, name: string, s: string)
    requires IsPlainName(name) && Textbook(lib, RegexText("||" + name + "^"))
    ensures var rule := ComplexRuleOf(lib, "||" + name + "^$important");
            && rule.Ok? && rule.value.important
            && (lib.regexMatches(rule.value.regex, s) <==>
                NewlineFree(s, 0, |s|) && Covers(DomainRule(Block, name, true), s))
  {
    hide ComplexRuleOf, RegexText;
    ModifiedRule(lib, name, "important", "||" + name + "^$important");
    CompilerCorrect("||" + name + "^");
    RoutesAgree(name, s);
  }

  lemma TargetOfLine(line: string, rule: string)
    requires line == rule + BADFILTER && !EndsWith(rule, BADFILTER)
    requires rule != "" && rule[|rule| - 1] != ','
    ensures EndsWith(line, BADFILTER) && BadfilterTarget(line) == rule
  {
    assert line[|line| - |BADFILTER|..] == BADFILTER;
    assert line[..|line| - |BADFILTER|] == rule;
    assert TrimEndText(line, BADFILTER) == TrimEndText(rule, BADFILTER) == rule;
  }

  lemma ClassifySkips(lib: Library, line: string, origin: Origin)
    requires Solid(line) && line[0] != '#' && line[0] != '!'
    requires ParseSimpleRule(line) == None && NormalizeDomain(line) == None
    ensures Classify(lib, line, origin) == ClassifyComplex(lib, line)
  {
    LineAsIs(line);
    OneWordIsNoHostsRule(lib, line);
  }

  lemma DollarIsNotSimple(line: string)
    requires line != "" && line[0] == '|' && '$' in line
    ensures ParseSimpleRule(line) == None
  {}

  lemma ClassifyAsComplex(lib: Library, line: string, origin: Origin)
    requires Solid(line) && line[0] == '|' && '$' in line
    ensures Classify(lib, line, origin) == ClassifyComplex(lib, line)
  {
    DollarIsNotSimple(line);
    NotAName(line);
    ClassifySkips(lib, line, origin);
  }

  lemma NotAName(line: string)
    requires Solid(line) && line[0] == '|'
    ensures NormalizeDomain(line) == None
  {
    CandidateKeepsFirst(line);
    BarIsRejected(CandidateName(line));
  }

  lemma BarIsRejected(candidate: string)
    requires forall i :: 0 <= i < |candidate| ==> !('A' <= candidate[i] <= 'Z')
    requires candidate != "" && candidate[0] == '|'
    ensures AcceptName(candidate) == None
  {}

  lemma CandidateKeepsFirst(line: string)
    requires Solid(line) && line[0] == '|'
    ensures CandidateName(line) != "" && CandidateName(line)[0] == '|'
  {
    SolidIsTrimmed(line);
    BareNameKeepsFirst(line);
    LowerFirst(BareName(line));
  }

  lemma LowerFirst(s: string)
    requires s != "" && s[0] == '|'
    ensures AsciiLower(s)[0] == '|'
  {}

  lemma BareNameKeepsFirst(line: string)
    requires line != "" && line[0] == '|'
    ensures BareName(line) != "" && BareName(line)[0] == '|'
  {
    var started := TrimStartChar(line, '.');
    assert started == line;
    KeepsFirst(line);
    var ended := TrimEndChar(started, '.');
    assert ended[0] != "*."[0];
    assert TrimStartText(ended, "*.") == ended;
  }

  lemma {:induction false} KeepsFirst(line: string)
    requires line != "" && line[0] != '.'
    ensures TrimEndChar(line, '.') != "" && TrimEndChar(line, '.')[0] == line[0]
    decreases |line|
  {
    if |line| > 1 && line[|line| - 1] == '.' { KeepsFirst(line[..|line| - 1]); }
  }

  lemma BadfilterLineParts(name: string, rule: string, line: string)
    requires IsPlainName(name) && rule == "||" + name + "^" && line == rule + BADFILTER
    ensures Solid(line) && line[0] == '|' && '$' in line && BadfilterTarget(line) == rule && EndsWith(line, BADFILTER)
  {
    NameLineParts(name);
    assert line[|rule|] == BADFILTER[0] == '$';
    forall i | 0 <= i < |line| ensures !IsWhitespace(line[i]) {
      if i < |rule| { assert line[i] == rule[i]; } else { assert line[i] == BADFILTER[i - |rule|]; }
    }
    assert rule[|rule| - 1] == '^' && BADFILTER[|BADFILTER| - 1] == 'r';
    TargetOfLine(line, rule);
  }

  lemma ComplexDisables(lib: Library, line: string, rule: MatchRule, target: string)
    requires ComplexRuleOf(lib, line) == Ok(rule) && rule.rawText == line
    requires EndsWith(line, BADFILTER) && BadfilterTarget(line) == target
    ensures ClassifyComplex(lib, line) == Ok(Disable(target))
  {}

  lemma TargetOfSimple(text: string, name: string)
    requires ParseSimpleRule(text) == Some(DomainRule(Block, name, true))
    ensures TargetOf(text) == BlockTarget(name)
  {}

  lemma ComplexLineDisables(lib: Library, line: string, origin: Origin, rule: MatchRule, target: string)
    requires Solid(line) && line[0] == '|' && '$' in line
    requires ComplexRuleOf(lib, line) == Ok(rule) && rule.rawText == line
    requires EndsWith(line, BADFILTER) && BadfilterTarget(line) == target
    ensures Classify(lib, line, origin) == Ok(Disable(target))
  {
    ClassifyAsComplex(lib, line, origin);
    ComplexDisables(lib, line, rule, target);
  }

  lemma BadfilterRule(lib: Library, name: string, rule: string, line: string)
    requires IsPlainName(name) && Textbook(lib, RegexText("||" + name + "^"))
    requires rule == "||" + name + "^" && line == rule + BADFILTER
    ensures ComplexRuleOf(lib, line) == Ok(MatchRule(line, RegexText(rule), false, None, []))
  {
    hide AddModifiers, AnchorText, TokenText;
    assert line == "||" + name + "^$" + "badfilter";
    ModifiedRule(lib, name, "badfilter", line);
  }

  lemma BadfilterLineWith(lib: Library, name: string, origin: Origin, rule: string, line: string)
    requires IsPlainName(name) && Textbook(lib, RegexText("||" + name + "^"))
    requires rule == "||" + name + "^" && line == rule + BADFILTER
    ensures Classify(lib, line, origin) == Ok(Disable(rule))
  {
    BadfilterLineParts(name, rule, line);
    BadfilterRule(lib, name, rule, line);
    ComplexLineDisables(lib, line, origin, MatchRule(line, RegexText(rule), false, None, []), rule);
  }

  /** `||name^$badfilter` takes the rule `||name^` off that name, and does nothing else. */
  lemma BadfilterLine(lib: Library, name: string, origin: Origin)
    requires IsPlainName(name) && Textbook(lib, RegexText("||" + name + "^"))
    ensures Classify(lib, "||" + name + "^$badfilter", origin) == Ok(Disable("||" + name + "^"))
    ensures TargetOf("||" + name + "^") == BlockTarget(name)
  {
    var rule := "||" + name + "^";
    assert rule + BADFILTER == "||" + name + "^$badfilter";
    BadfilterLineWith(lib, name, origin, rule, rule + BADFILTER);
    SimpleRuleRoundTrip(name);
    TargetOfSimple(rule, name);
  }
}
