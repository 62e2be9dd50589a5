/**
 * What a line that gives domain rules comes to when `$badfilter` is put after it: exactly when that
 * takes its rules back, and what disabling an allow rule then does, in lines.
 */
module TakenBack {
  import opened Text
  import opened Domains
  import opened NameForms
  import opened Regexes
  import opened Patterns
  import opened RuleSyntax
  import opened SimpleLines
  import opened RuleIndex
  import opened DisabledAllows
  import opened RuleSetBuilding
  import opened BlockDecision
  import opened LineForms
  import opened BadfilterLines
  import opened LineOrder

  /** What the standard library reads as an address is written like one. */
  ghost predicate PlainAddresses(lib: Library) {
    forall text :: lib.parseIp(text).Some? ==> AddressText(text)
  }

  /** A text as `Trim(StripComments(line))` leaves it, if it leaves anything. */
  predicate IsDark(t: string) {
    t != "" && t[0] != '#' && t[0] != '!' && !IsWhitespace(t[0]) && !IsWhitespace(t[|t| - 1])
  }

  /** What one target disables. */
  ghost function DisabledOne(target: Target): Disabled {
    match target
    case BlockTarget(name) => Disabled({name}, {}, {})
    case AllowTarget(name) => Disabled({}, {name}, {})
    case NameTarget(name) => Disabled({}, {}, {name})
    case NoTarget => Disabled({}, {}, {})
  }

  lemma DisabledByOne(text: string, target: Target)
    requires TargetOf(text) == target
    ensures DisabledBy({text}) == DisabledOne(target)
  {
    hide TargetOf;
    assert Image(TargetOf, {text}) == {target};
  }

  /** Putting the mark after `t` gives a badfilter line that disables all these rules. */
  ghost predicate TakesBack(lib: Library, t: string, origin: Origin, rules: seq<DomainRule>) {
    exists target ::
      && Classify(lib, t + BADFILTER, origin) == Ok(Disable(target))
      && forall r :: r in rules ==> !Enabled(DisabledBy({target}), r)
  }

  // ------------------------------------------------------------ first words

  lemma FirstWordStarts(t: string)
    requires t != "" && !IsWhitespace(t[0])
    ensures SplitWhitespace(t) != [] && SplitWhitespace(t)[0] != "" && SplitWhitespace(t)[0][0] == t[0]
  {
    assert TrimStart(t) == t;
    WordsStep(t, t, WordLength(t));
  }

  lemma NoAddressFirst(lib: Library, t: string)
    requires PlainAddresses(lib) && t != "" && (t[0] == '@' || t[0] == '|')
    ensures ParseHostsRule(lib, t) == None
  {
    FirstWordStarts(t);
    var words := SplitWhitespace(t);
    assert !AddressText(words[0]);
    HostsWordsNone(lib, t, words);
  }

  // ------------------------------------------------- rules without modifiers

  lemma PlainComplex(lib: Library, t: string, body: string)
    requires body == Body(t) && '$' !in body && !StartsWith(body, "/") && lib.validRegex(RegexText(body))
    ensures ComplexRuleOf(lib, t).Ok? && !HasModifiers(t)
  {
    assert SplitLine(body) == Ok((body, None));
    assert RegexOf(body) == RegexText(body);
  }

  lemma MarkedPlain(lib: Library, t: string, origin: Origin)
    requires IsDark(t) && ParseHostsRule(lib, t) == None && !EndsInComma(t)
    requires '$' !in Body(t) && !StartsWith(Body(t), "/") && lib.validRegex(RegexText(Body(t)))
    ensures Classify(lib, t + BADFILTER, origin) == Ok(Disable(t))
  {
    PlainComplex(lib, t, Body(t));
    MarkedLine(lib, t, origin);
  }

  // ------------------------------------------------------------- simple rules

  lemma TailedEnd(body: string, bars: nat, carets: nat)
    requires body != ""
    ensures var text := Tailed(body, bars, carets);
            text != "" && text[|text| - 1] == if carets > 0 then '^' else if bars > 0 then '|' else body[|body| - 1]
  {}

  lemma SimpleTextShape(t: string, disposition: Disposition, name: string)
    requires IsSimpleText(t, disposition, name)
    ensures t != "" && (t[0] == '@' || t[0] == '|') && !EndsInComma(t)
    ensures '$' !in Body(t) && !StartsWith(Body(t), "/")
  {
    hide NormalizeDomain, Body, MarkOf;
    var body, bars, carets :| t == SimpleText(disposition, body, bars, carets) && SimpleLines.Names(body, name);
    var text := Tailed(body, bars, carets);
    AcceptedChars(body, name);
    TailChars(body, bars, carets);
    TailedEnd(body, bars, carets);
    assert IsNameText(body[|body| - 1]);
    var rest := "||" + text;
    assert t == MarkOf(disposition) + rest && t[|t| - 1] == text[|text| - 1];
    BarredShape(rest, text);
    MarkedBodyOf(t, disposition, rest);
  }

  lemma MarkedBodyOf(t: string, disposition: Disposition, rest: string)
    requires t == MarkOf(disposition) + rest && HasSimpleShape(rest)
    ensures Body(t) == rest && '$' !in rest && !StartsWith(rest, "/") && (t[0] == '@' || t[0] == '|')
  {
    assert rest[0] == "||"[0];
    if disposition == Allow {
      assert t[..2] == "@@" && t[2..] == rest;
    } else {
      assert t == rest && t[0] != "@@"[0];
    }
  }

  lemma SimpleTakenBack(lib: Library, t: string, origin: Origin, rule: DomainRule)
    requires IsDark(t) && ParseHostsRule(lib, t) == None && lib.validRegex(RegexText(Body(t)))
    requires ParseSimpleRule(t) == Some(rule)
    ensures Classify(lib, t + BADFILTER, origin) == Ok(Disable(t))
    ensures TargetOf(t) == if rule.disposition == Block then BlockTarget(rule.domain) else AllowTarget(rule.domain)
  {
    assert rule == DomainRule(rule.disposition, rule.domain, true);
    SimpleRuleExactly(t, rule.disposition, rule.domain);
    SimpleTextShape(t, rule.disposition, rule.domain);
    MarkedPlain(lib, t, origin);
  }

  // -------------------------------------------------------------- bare names

  lemma NameTextShape(t: string, name: string)
    requires IsDark(t) && NormalizeDomain(t) == Some(name)
    ensures !EndsInComma(t) && '$' !in Body(t) && !StartsWith(Body(t), "/")
  {
    hide NormalizeDomain;
    AcceptedChars(t, name);
    assert IsNameText(t[0]) && IsNameText(t[|t| - 1]);
    assert t[0] != "@@"[0] && t[0] != "/"[0];
    assert Body(t) == t;
  }

  lemma NameTakenBack(lib: Library, t: string, origin: Origin, name: string)
    requires IsDark(t) && ParseHostsRule(lib, t) == None && lib.validRegex(RegexText(Body(t)))
    requires ParseSimpleRule(t) == None && NormalizeDomain(t) == Some(name)
    ensures Classify(lib, t + BADFILTER, origin) == Ok(Disable(t)) && TargetOf(t) == NameTarget(name)
  {
    NameTextShape(t, name);
    MarkedPlain(lib, t, origin);
  }

  // ------------------------------------------------------------- hosts rules

  /** An accepted text with nothing blank at its ends has nothing blank in it. */
  lemma DarkNameIsSolid(t: string, name: string)
    requires IsDark(t) && NormalizeDomain(t) == Some(name)
    ensures Solid(t)
  {
    hide NormalizeDomain, IsWhitespace, Framed, IsCore, BareName, Trim;
    var core := AcceptedHasForm(t, name);
    var before, dots, stars, after, blank :|
      && t == before + Framed(dots, stars, core, after) + blank
      && Blank(before) && Blank(blank) && IsCore(core) && (stars == 0 ==> core[0] != '.');
    FramedSolid(dots, stars, core, after);
    var inner := Framed(dots, stars, core, after);
    assert before + inner + blank == before + (inner + blank);
    if before != "" { StartsBlank(before, inner + blank, t); }
    if blank != "" { EndsBlank(before + inner, blank, t); }
    assert t == inner;
  }

  lemma StartsBlank(before: string, rest: string, t: string)
    requires Blank(before) && before != "" && t == before + rest
    ensures IsWhitespace(t[0])
  {
    assert t[0] == before[0];
  }

  lemma EndsBlank(rest: string, blank: string, t: string)
    requires Blank(blank) && blank != "" && t == rest + blank
    ensures IsWhitespace(t[|t| - 1])
  {
    assert t[|t| - 1] == blank[|blank| - 1];
  }

  lemma FramedSolid(dots: nat, stars: nat, core: string, after: nat)
    requires IsCore(core)
    ensures Solid(Framed(dots, stars, core, after))
  {
    StarsChars(stars);
  }

  lemma ManyWordsAreNoName(t: string)
    requires IsDark(t) && |SplitWhitespace(t)| > 1
    ensures NormalizeDomain(t) == None
  {
    if NormalizeDomain(t).Some? {
      DarkNameIsSolid(t, NormalizeDomain(t).value);
      OneWord(t);
    }
  }

  lemma FewWords(lib: Library, t: string)
    requires |SplitWhitespace(t)| <= 1
    ensures ParseHostsRule(lib, t) == None
  {
    hide SplitWhitespace;
    var words := SplitWhitespace(t);
    assert words == [] || (|words| == 1 && words[1..] == []);
    assert NormalizeAll([]) == [];
  }

  lemma HostsWords(lib: Library, t: string) returns (words: seq<string>)
    requires ParseHostsRule(lib, t).Some?
    ensures words == SplitWhitespace(t) && |words| > 1
    ensures lib.parseIp(words[0]).Some? && NormalizeAll(words[1..]) == ParseHostsRule(lib, t).value.1 != []
  {
    hide SplitWhitespace, NormalizeAll;
    words := SplitWhitespace(t);
    if |words| <= 1 { FewWords(lib, t); }
  }

  lemma AcceptedWord(word: string)
    requires NormalizeDomain(word).Some?
    ensures word != "" && word[|word| - 1] != ',' && !EndsWith(word, BADFILTER)
  {
    hide NormalizeDomain;
    AcceptedChars(word, NormalizeDomain(word).value);
    assert IsNameText(word[|word| - 1]);
    if EndsWith(word, BADFILTER) {
      BadfilterEnd(word);
      NoName(word);
    }
  }

  /** `word` stands at the end of `s`, after nothing or after a blank. */
  predicate LastIn(s: string, word: string) {
    EndsWith(s, word) && (|word| < |s| ==> IsWhitespace(s[|s| - |word| - 1]))
  }

  lemma {:induction false} WordLengthStops(s: string)
    ensures WordLength(s) < |s| ==> IsWhitespace(s[WordLength(s)])
  {
    if s != "" && !IsWhitespace(s[0]) { WordLengthStops(s[1..]); }
  }

  lemma LastInLonger(before: string, s: string, word: string)
    requires LastIn(s, word) && (s == word ==> before == "" || IsWhitespace(before[|before| - 1]))
    ensures LastIn(before + s, word)
  {
    var longer := before + s;
    assert longer[|longer| - |word|..] == s[|s| - |word|..];
  }

  lemma {:induction false} TrimStartBlank(s: string) returns (before: string)
    ensures s == before + TrimStart(s) && (before != "" ==> IsWhitespace(before[|before| - 1]))
  {
    before := "";
    if s != "" && IsWhitespace(s[0]) {
      var rest := TrimStartBlank(s[1..]);
      before := [s[0]] + rest;
    }
  }

  lemma {:induction false} LastWordEnds(s: string)
    requires s != "" && !IsWhitespace(s[|s| - 1])
    ensures var words := SplitWhitespace(s); words != [] && LastIn(s, words[|words| - 1])
    decreases |s|
  {
    hide SplitWhitespace, TrimStart, WordLength, IsWhitespace, Solid, LastIn;
    EndsDark(s);
    var t := TrimStart(s);
    var n := WordLength(t);
    var before := TrimStartBlank(s);
    WordsStep(s, t, n);
    if n == |t| {
      OnlyWord(t, "");
      WholeIsLast(t);
      LastInLonger(before, t, t);
    } else {
      LaterWords(t, n, "");
      LastWordEnds(t[n..]);
      var rest := SplitWhitespace(t[n..]);
      WordLengthStops(t);
      WordsAreSolid(t[n..]);
      LaterLast(t, n, rest[|rest| - 1]);
      LastInLonger(before, t, rest[|rest| - 1]);
    }
  }

  lemma WholeIsLast(t: string)
    ensures LastIn(t, t)
  {}

  lemma LaterLast(t: string, n: nat, word: string)
    requires 0 < n < |t| && IsWhitespace(t[n]) && LastIn(t[n..], word) && Solid(word)
    ensures LastIn(t, word) && word != t
  {
    var rest := t[n..];
    assert t[|t| - |word|..] == rest[|rest| - |word|..];
    assert rest[0] == t[n] && rest != word;
    assert t[|t| - |word| - 1] == rest[|rest| - |word| - 1];
  }

  lemma {:induction false} WordsAreSolid(s: string)
    ensures forall w :: w in SplitWhitespace(s) ==> Solid(w)
    decreases |s|
  {
    var t := TrimStart(s);
    if t != "" {
      var n := WordLength(t);
      WordsStep(s, t, n);
      WordIsSolid(t);
      WordsAreSolid(t[n..]);
    } else {
      assert SplitWhitespace(s) == [];
    }
  }

  lemma {:induction false} WordIsSolid(s: string)
    ensures forall i :: 0 <= i < WordLength(s) ==> !IsWhitespace(s[i])
  {
    if s != "" && !IsWhitespace(s[0]) { WordIsSolid(s[1..]); }
  }

  lemma DollarInLast(t: string, word: string)
    requires LastIn(t, word) && EndsWith(t, BADFILTER)
    ensures EndsWith(word, BADFILTER)
  {
    SolidMark();
    var front := t[..|t| - |word|];
    assert t == front + word && (front != "" ==> front[|front| - 1] == t[|t| - |word| - 1]);
    TailInLast(t, word, BADFILTER, front);
  }

  /** A tail without blanks lies within the last word. */
  lemma TailInLast(t: string, word: string, tail: string, front: string)
    requires t == front + word && EndsWith(t, tail) && Solid(tail)
    requires front != "" ==> IsWhitespace(front[|front| - 1])
    ensures EndsWith(word, tail)
  {
    assert forall i :: 0 <= i < |tail| ==> t[|t| - |tail| + i] == tail[i];
    assert forall i :: |t| - |tail| <= i < |t| ==> !IsWhitespace(t[i]);
    assert front != "" ==> t[|front| - 1] == front[|front| - 1];
    assert word[|word| - |tail|..] == t[|t| - |tail|..];
  }

  lemma DisablingIsNoHosts(lib: Library, line: string, origin: Origin, target: string)
    requires Classify(lib, line, origin) == Ok(Disable(target))
    ensures ParseHostsRule(lib, Trim(StripComments(line))) == None
  {}

  /** If all the other words of a hosts line are dropped, its last word is a name. */
  lemma OnlyLastNames(lib: Library, t: string, words: seq<string>)
    requires IsDark(t) && words == SplitWhitespace(t) && |words| > 1
    requires lib.parseIp(words[0]).Some? && NormalizeAll(words[1..]) != []
    requires ParseHostsRule(lib, t + BADFILTER) == None
    ensures NormalizeDomain(words[|words| - 1]).Some?
  {
    hide NormalizeDomain, SplitWhitespace, ParseHostsRule, NormalizeAll;
    SolidMark();
    LastWordLonger(t, BADFILTER);
    var longer := SplitWhitespace(t + BADFILTER);
    HostsWordsNone(lib, t + BADFILTER, longer);
    NoNames(longer[1..]);
    NoNames(words[1..]);
    var i :| 0 <= i < |words[1..]| && NormalizeDomain(words[1..][i]) != None;
    SameButLast(words, longer, BADFILTER, i + 1);
  }

  lemma SameButLast(words: seq<string>, longer: seq<string>, tail: string, i: nat)
    requires LastLonger(words, longer, tail) && 1 <= i < |words|
    requires NormalizeDomain(words[i]) != None && NormalizeDomain(longer[1..][i - 1]) == None
    ensures i == |words| - 1
  {
    hide NormalizeDomain;
  }

  /** A marked hosts line that disables anything has a target that stands for no name. */
  lemma HostsTarget(lib: Library, t: string, origin: Origin, target: string)
    requires IsDark(t) && ParseSimpleRule(t) == None && ParseHostsRule(lib, t).Some?
    requires Classify(lib, t + BADFILTER, origin) == Ok(Disable(target))
    ensures TargetOf(target) == NoTarget
  {
    var line := t + BADFILTER;
    SolidMark();
    assert line[0] == t[0] && line[|line| - 1] == 'r';
    UncommentedLine(line);
    DisablingIsNoHosts(lib, line, origin, target);
    OnlyComplexLinesDisable(lib, line, origin, target);
    DisableParts(lib, line, target);
    var words := HostsWords(lib, t);
    OnlyLastNames(lib, t, words);
    BareHostsTarget(t, words);
    ManyWordsAreNoName(t);
  }

  lemma BareHostsTarget(t: string, words: seq<string>)
    requires IsDark(t) && words == SplitWhitespace(t) && words != [] && NormalizeDomain(words[|words| - 1]).Some?
    ensures BadfilterTarget(t + BADFILTER) == t
  {
    hide NormalizeDomain, SplitWhitespace, BadfilterTarget;
    var word := words[|words| - 1];
    LastWordEnds(t);
    AcceptedWord(word);
    if EndsWith(t, BADFILTER) { DollarInLast(t, word); }
    assert t[|t| - 1] == word[|word| - 1];
    BareTarget(t + BADFILTER, t);
    assert TrimEndChar(t, ',') == t;
  }

  // ------------------------------------------------------------- exactly when

  lemma RulesOfRoutes(lib: Library, line: string, origin: Origin, rules: seq<DomainRule>) returns (t: string)
    requires Classify(lib, line, origin) == Ok(DomainRules(rules))
    ensures t == Trim(StripComments(line)) && IsDark(t)
    ensures ParseSimpleRule(t).Some? ==> rules == [ParseSimpleRule(t).value]
    ensures ParseSimpleRule(t) == None ==> ClassifyOther(lib, t, origin) == Ok(DomainRules(rules))
  {
    if Trim(StripComments(line)) == "" { EmptyLine(lib, line, origin, ""); }
    t := Dark(line);
    if ParseSimpleRule(t).Some? {
      SimpleRoute(lib, line, origin, t);
    } else {
      OtherRoutes(lib, line, origin, t);
    }
  }

  lemma OtherRules(lib: Library, t: string, origin: Origin, rules: seq<DomainRule>)
    requires ClassifyOther(lib, t, origin) == Ok(DomainRules(rules))
    ensures ParseHostsRule(lib, t).Some? ==> rules == BlockNames(ParseHostsRule(lib, t).value.1)
    ensures ParseHostsRule(lib, t) == None ==>
            NormalizeDomain(t).Some? && rules == [DomainRule(Block, NormalizeDomain(t).value, false)]
  {}

  /** The line is read as an address and names. */
  predicate IsHostsLine(lib: Library, t: string) {
    ParseSimpleRule(t) == None && ParseHostsRule(lib, t).Some?
  }

  lemma HostsNotTakenBack(lib: Library, t: string, origin: Origin, rules: seq<DomainRule>)
    requires IsDark(t) && IsHostsLine(lib, t) && ClassifyOther(lib, t, origin) == Ok(DomainRules(rules))
    ensures !TakesBack(lib, t, origin, rules)
  {
    hide ParseHostsRule, ParseSimpleRule, NormalizeDomain, IsWhitespace;
    hide BlockNames, ClassifyHosts, AllBlock, ClassifyComplex;
    OtherRules(lib, t, origin, rules);
    var words := HostsWords(lib, t);
    assert rules[0] in rules;
    forall target | Classify(lib, t + BADFILTER, origin) == Ok(Disable(target))
      ensures Enabled(DisabledBy({target}), rules[0])
    {
      HostsTarget(lib, t, origin, target);
      DisabledByOne(target, NoTarget);
    }
  }

  lemma OthersTakenBack(lib: Library, t: string, origin: Origin, rules: seq<DomainRule>)
    requires PlainAddresses(lib) && IsDark(t) && !IsHostsLine(lib, t) && lib.validRegex(RegexText(Body(t)))
    requires ParseSimpleRule(t).Some? ==> rules == [ParseSimpleRule(t).value]
    requires ParseSimpleRule(t) == None ==> ClassifyOther(lib, t, origin) == Ok(DomainRules(rules))
    ensures TakesBack(lib, t, origin, rules)
  {
    hide TargetOf, Classify, ClassifyOther, ParseHostsRule, ParseSimpleRule, NormalizeDomain, DisabledBy;
    if ParseSimpleRule(t).Some? {
      var rule := ParseSimpleRule(t).value;
      SimpleStart(t, rule);
      NoAddressFirst(lib, t);
      SimpleTakenBack(lib, t, origin, rule);
      DisabledByOne(t, TargetOf(t));
    } else {
      OtherRules(lib, t, origin, rules);
      NameTakenBack(lib, t, origin, NormalizeDomain(t).value);
      DisabledByOne(t, TargetOf(t));
    }
  }

  lemma SimpleStart(t: string, rule: DomainRule)
    requires ParseSimpleRule(t) == Some(rule)
    ensures t != "" && (t[0] == '@' || t[0] == '|')
  {
    assert rule == DomainRule(rule.disposition, rule.domain, true);
    SimpleRuleExactly(t, rule.disposition, rule.domain);
    SimpleTextShape(t, rule.disposition, rule.domain);
  }

  /**
   * A line that gives domain rules has them taken back by its own text with the mark after it if and
   * only if it is not read as an address and names.
   */
  lemma TakenBackExactly(lib: Library, line: string, origin: Origin, rules: seq<DomainRule>)
    requires PlainAddresses(lib) && lib.validRegex(RegexText(Body(Trim(StripComments(line)))))
    requires Classify(lib, line, origin) == Ok(DomainRules(rules))
    ensures var t := Trim(StripComments(line));
            TakesBack(lib, t, origin, rules) <==> !IsHostsLine(lib, t)
  {
    var t := RulesOfRoutes(lib, line, origin, rules);
    if IsHostsLine(lib, t) {
      HostsNotTakenBack(lib, t, origin, rules);
    } else {
      OthersTakenBack(lib, t, origin, rules);
    }
  }

  // ------------------------------------------------ allow rules, in lines

  lemma MarkedNameLine(name: string, mark: string)
    requires IsPlainName(name) && (mark == "" || mark == "@@")
    ensures IsDark(mark + "||" + name + "^") && Solid(mark + "||" + name + "^")
  {
    var t := mark + "||" + name + "^";
    assert forall i :: 0 <= i < |t| ==> t[i] == '@' || t[i] == '|' || t[i] == '^' || IsNameChar(t[i]);
    assert t[0] == '@' || t[0] == '|';
    assert t[|t| - 1] == '^';
  }

  /** `@@||name^$badfilter` takes the allow rule off that name, and does nothing else. */
  lemma AllowBadfilterLine(lib: Library, name: string, origin: Origin)
    requires IsPlainName(name) && Textbook(lib, RegexText("||" + name + "^"))
    ensures var rule := "@@||" + name + "^";
            Classify(lib, rule + BADFILTER, origin) == Ok(Disable(rule)) && TargetOf(rule) == AllowTarget(name)
  {
    hide ParseSimpleRule, ParseHostsRule, TargetOf, Classify, RegexText, Parse, IsMatch;
    var pattern, rule := "||" + name + "^", "@@||" + name + "^";
    assert rule == "@@" + "||" + name + "^" && rule == "@@" + pattern;
    MarkedNameLine(name, "@@");
    OneWordIsNoHostsRule(lib, rule);
    SimpleRuleRoundTrip(name);
    CompilerParses(pattern);
    assert rule[..2] == "@@" && rule[2..] == pattern;
    assert Body(rule) == pattern;
    SimpleTakenBack(lib, rule, origin, DomainRule(Allow, name, true));
  }

  /** An allow line on a name, a block line, and the allow line disabled. */
  function AllowText(name: string): string { "@@||" + name + "^" }

  function BlockText(name: string): string { "||" + name + "^" }

  /** How the lines `block`, `allow` and `allow` with the mark are read. */
  ghost predicate ReadsTrio(read: Classifier, name: string, child: string, block: Line, allow: Line, mark: Line) {
    && EffectOf(read, block) == DomainRules([DomainRule(Block, child, true)])
    && EffectOf(read, allow) == DomainRules([DomainRule(Allow, name, true)])
    && EffectOf(read, mark) == Disable(AllowText(name))
    && TargetOf(AllowText(name)) == AllowTarget(name)
    && AllParse(read, [block, allow, mark])
  }

  lemma TrioIsRead(lib: Library, name: string, child: string, origin: Origin)
    requires IsPlainName(name) && IsPlainName(child) && Textbook(lib, RegexText(BlockText(name)))
    ensures ReadsTrio(Reader(lib), name, child, Line(BlockText(child), origin), Line(AllowText(name), origin),
                      Line(AllowText(name) + BADFILTER, origin))
  {
    hide Classify, TargetOf, RegexText, Parse, IsMatch;
    SimpleLine(lib, child, origin);
    SimpleLine(lib, name, origin);
    AllowBadfilterLine(lib, name, origin);
  }

  lemma ThreeEffects(read: Classifier, a: Line, b: Line, c: Line)
    ensures EffectsOf(read, [a, b, c]) == [EffectOf(read, a), EffectOf(read, b), EffectOf(read, c)]
  {}

  lemma TrioEffects(first: DomainRule, second: DomainRule, name: string, effects: seq<Effect>)
    requires effects == [DomainRules([first]), DomainRules([second]), Disable(AllowText(name))]
    requires TargetOf(AllowText(name)) == AllowTarget(name)
    ensures DomainRulesOf(effects) == [first, second]
    ensures DisabledBy(TargetsOf(effects)) == Disabled({}, {name}, {})
  {
    hide TargetOf, AllowText, DisabledBy;
    assert effects[1..] == [DomainRules([second]), Disable(AllowText(name))];
    assert effects[1..][1..] == [Disable(AllowText(name))] && effects[1..][1..][1..] == [];
    var last, none := [Disable(AllowText(name))], effects[3..];
    assert none == [] && DomainRulesOf(none) == [] && DomainRulesOf(last) == [] + [];
    assert DomainRulesOf(effects[1..]) == [second] + DomainRulesOf(last);
    assert DomainRulesOf(effects) == [first] + DomainRulesOf(effects[1..]);
    assert TargetsOf(effects) == {AllowText(name)};
    DisabledByOne(AllowText(name), AllowTarget(name));
  }

  /** Lines that order does show in: `a.b` below is blocked only if its line came before `@@||b^`. */
  lemma OrderCanMatterInLines(read: Classifier, lib: Library, name: string, child: string,
                              block: Line, allow: Line, mark: Line, rtype: nat)
    requires child != name && SuffixMatch(child, name) && ReadsTrio(read, name, child, block, allow, mark)
    ensures LinesBlock(read, [block, allow, mark], child) && !LinesBlock(read, [allow, block, mark], child)
    ensures BuiltBlock(read, lib, [block, allow, mark], child, rtype)
    ensures !BuiltBlock(read, lib, [allow, block, mark], child, rtype)
  {
    hide TargetOf, AllowText, IndexBlocks;
    var allowRule, blockRule := DomainRule(Allow, name, true), DomainRule(Block, child, true);
    ThreeEffects(read, block, allow, mark);
    ThreeEffects(read, allow, block, mark);
    TrioEffects(blockRule, allowRule, name, EffectsOf(read, [block, allow, mark]));
    TrioEffects(allowRule, blockRule, name, EffectsOf(read, [allow, block, mark]));
    OrderCanMatter(name, child);
    NoPatterns(read, lib, [block, allow, mark], child, rtype);
    NoPatterns(read, lib, [allow, block, mark], child, rtype);
  }

  /** Without any rule with a pattern the index decides. */
  lemma NoPatterns(read: Classifier, lib: Library, lines: seq<Line>, domain: string, rtype: nat)
    requires AllParse(read, lines)
    requires forall e :: e in EffectsOf(read, lines) ==> !e.ComplexRule?
    ensures BuiltBlock(read, lib, lines, domain, rtype) <==> LinesBlock(read, lines, domain)
  {
    var allowed, blocked := BuiltBlockMeaning(read, lib, lines, domain, rtype);
  }

  /** For the plain names `b` and `a.b`, read as the server reads them. */
  lemma OrderShows(lib: Library, name: string, child: string, origin: Origin, rtype: nat)
    requires IsPlainName(name) && IsPlainName(child) && Textbook(lib, RegexText(BlockText(name)))
    requires child != name && SuffixMatch(child, name)
    ensures var block, allow := Line(BlockText(child), origin), Line(AllowText(name), origin);
            var mark := Line(AllowText(name) + BADFILTER, origin);
            && BuiltBlock(Reader(lib), lib, [block, allow, mark], child, rtype)
            && !BuiltBlock(Reader(lib), lib, [allow, block, mark], child, rtype)
  {
    hide *;
    TrioIsRead(lib, name, child, origin);
    OrderCanMatterInLines(Reader(lib), lib, name, child, Line(BlockText(child), origin), Line(AllowText(name), origin),
                          Line(AllowText(name) + BADFILTER, origin), rtype);
  }

  /** `||name^`, `@@||name^` and that with the mark: in no order is the name blocked, though its rule is enabled. */
  lemma LostInEveryOrder(read: Classifier, lib: Library, name: string, block: Line, allow: Line, mark: Line,
                         order: seq<Line>, rtype: nat)
    requires ReadsWide(read) && ReadsTrio(read, name, name, block, allow, mark)
    requires forall l :: l in order <==> l in [block, allow, mark]
    ensures !BuiltBlock(read, lib, order, name, rtype)
    ensures EffectsBlock(lib, EffectsOf(read, order), name, rtype)
  {
    hide TargetOf, AllowText, IndexBlocks, RulesBlock, BuildFrom;
    var trio := [block, allow, mark];
    var allowRule, blockRule := DomainRule(Allow, name, true), DomainRule(Block, name, true);
    ThreeEffects(read, block, allow, mark);
    TrioEffects(blockRule, allowRule, name, EffectsOf(read, trio));
    assert Elements([blockRule, allowRule]) == {allowRule, blockRule};
    WrongInEveryOrder(name);
    SameLinesSameEffects(read, order, trio);
    EffectsInAnyOrder(lib, EffectsOf(read, order), EffectsOf(read, trio), name, rtype);
    BuildDecides(read, lib, order, name, rtype);
    StandingTrio(lib, EffectsOf(read, trio), name, rtype);
  }

  lemma StandingTrio(lib: Library, effects: seq<Effect>, name: string, rtype: nat)
    requires forall e :: e in effects ==> !e.ComplexRule?
    ensures EffectsBlock(lib, effects, name, rtype) <==> Decides(StandingRules(effects), name)
    ensures Verdict(lib, effects, LastingStanding(effects), name, rtype) <==> Decides(LastingStanding(effects), name)
  {}
}
