/**
 * Which rules a `$badfilter` line can take back: exactly those without modifiers. A rule that has
 * some cannot be disabled by any line.
 */
module BadfilterLines {
  import opened Text
  import opened Domains
  import opened NameForms
  import opened Patterns
  import opened RuleSyntax
  import opened RuleSetBuilding
  import opened BlockDecision
  import opened LineForms

  /** No record type has a name with a dollar sign in it. */
  ghost predicate PlainTypeNames(lib: Library) {
    forall name :: '$' in name ==> lib.recordType(name) == None
  }

  /** The rule without the mark of an allow rule. */
  function Body(line: string): string {
    if StartsWith(line, "@@") then line[2..] else line
  }

  predicate HasModifiers(line: string) {
    SplitLine(Body(line)).Ok? && SplitLine(Body(line)).value.1.Some?
  }

  // ------------------------------------------- a dollar sign is never lost

  lemma {:induction false} TrimStartKeeps(s: string)
    requires '$' in s
    ensures '$' in TrimStart(s)
  {
    if IsWhitespace(s[0]) { TrimStartKeeps(s[1..]); }
  }

  lemma {:induction false} TrimEndKeeps(s: string)
    requires '$' in s
    ensures '$' in TrimEnd(s)
  {
    if IsWhitespace(s[|s| - 1]) { TrimEndKeeps(s[..|s| - 1]); }
  }

  lemma {:induction false} TrimStartCharKeeps(s: string, c: char)
    requires '$' in s && c != '$'
    ensures '$' in TrimStartChar(s, c)
  {
    if s[0] == c { TrimStartCharKeeps(s[1..], c); }
  }

  lemma {:induction false} TrimEndCharKeeps(s: string, c: char)
    requires '$' in s && c != '$'
    ensures '$' in TrimEndChar(s, c)
  {
    if s[|s| - 1] == c { TrimEndCharKeeps(s[..|s| - 1], c); }
  }

  lemma {:induction false} TrimStartTextKeeps(s: string, t: string)
    requires '$' in s && t != "" && '$' !in t
    ensures '$' in TrimStartText(s, t)
    decreases |s|
  {
    if StartsWith(s, t) {
      assert s == t + s[|t|..];
      TrimStartTextKeeps(s[|t|..], t);
    }
  }

  lemma BareNameKeeps(s: string)
    requires '$' in s
    ensures '$' in BareName(s)
  {
    hide TrimStartChar;
    TrimStartCharKeeps(s, '.');
    TrimEndCharKeeps(TrimStartChar(s, '.'), '.');
    TrimStartTextKeeps(TrimEndChar(TrimStartChar(s, '.'), '.'), "*.");
  }

  lemma LowerKeeps(s: string)
    requires '$' in s
    ensures '$' in AsciiLower(s)
  {}

  lemma UpperKeeps(s: string)
    requires '$' in s
    ensures '$' in AsciiUpper(s)
  {
    var i :| 0 <= i < |s| && s[i] == '$';
    assert AsciiUpper(s)[i] == '$';
  }

  lemma Refused(candidate: string)
    requires forall i :: 0 <= i < |candidate| ==> !('A' <= candidate[i] <= 'Z')
    requires '$' in candidate
    ensures AcceptName(candidate) == None
  {}

  lemma CandidateKeeps(s: string)
    requires '$' in s
    ensures '$' in CandidateName(s)
  {
    TrimStartKeeps(s);
    TrimEndKeeps(TrimStart(s));
    BareNameKeeps(Trim(s));
    LowerKeeps(BareName(Trim(s)));
  }

  /** A text with a dollar sign is no name. */
  lemma NoName(s: string)
    requires '$' in s
    ensures NormalizeDomain(s) == None
  {
    CandidateKeeps(s);
    Refused(CandidateName(s));
  }

  lemma {:induction false} SplitKeeps(s: string, c: char) returns (part: nat)
    requires '$' in s && c != '$'
    ensures part < |Split(s, c)| && '$' in Split(s, c)[part]
    decreases |s|
  {
    part := 0;
    match Find(s, c)
    case None => return;
    case Some(i) =>
      assert s == s[..i] + [c] + s[i + 1..];
      if '$' !in s[..i] {
        var k := SplitKeeps(s[i + 1..], c);
        part := k + 1;
      }
  }

  lemma {:induction false} NonEmptyKeeps(parts: seq<string>, i: nat)
    requires i < |parts| && parts[i] != ""
    ensures parts[i] in NonEmpty(parts)
  {
    if i > 0 { NonEmptyKeeps(parts[1..], i - 1); }
  }

  // ------------------------------------- no modifier has a dollar sign in it

  lemma NoType(lib: Library, values: seq<string>, i: nat)
    requires i < |values| && TypeOf(lib, values[i]) == None
    ensures RecordTypes(lib, values) == None
  {
    assert TypesOf(lib, values)[i] == None;
  }

  lemma NoTypes(lib: Library, values: seq<string>)
    requires RecordTypes(lib, values) == None
    ensures DnstypeOf(lib, values).Err?
  {}

  lemma NoDnstype(lib: Library, values: seq<string>, i: nat)
    requires PlainTypeNames(lib) && i < |values| && '$' in values[i]
    ensures DnstypeOf(lib, values).Err?
  {
    TrimStartCharKeeps(values[i], '~');
    UpperKeeps(TrimStartChar(values[i], '~'));
    NoType(lib, values, i);
    NoTypes(lib, values);
  }

  lemma NoDnstypeValue(lib: Library, value: string, parsed: ParsedModifiers)
    requires PlainTypeNames(lib) && '$' in value
    ensures AddDnstype(lib, value, parsed).Err?
  {
    var parts := Split(value, '|');
    var i := SplitKeeps(value, '|');
    NonEmptyKeeps(parts, i);
    var values := NonEmpty(parts);
    var k :| 0 <= k < |values| && values[k] == parts[i];
    NoDnstype(lib, values, k);
  }

  lemma NoDenyallow(values: seq<string>, i: nat)
    requires i < |values| && '$' in values[i]
    ensures ParseDomainPatterns(values) == None
  {
    NoName(values[i]);
    assert ParseDomainPattern(values[i]) == None;
    assert seq(|values|, k requires 0 <= k < |values| => ParseDomainPattern(values[k]))[i] == None;
  }

  lemma NoDenyallowValue(value: string, parsed: ParsedModifiers)
    requires '$' in value
    ensures AddDenyallow(value, parsed).Err?
  {
    var parts := Split(value, '|');
    var i := SplitKeeps(value, '|');
    NoDenyallow(parts, i);
  }

  lemma AfterPrefix(m: string, prefix: string)
    requires StartsWith(m, prefix) && '$' in m && '$' !in prefix
    ensures '$' in m[|prefix|..]
  {}

  lemma NotAFlag(m: string)
    requires '$' in m
    ensures m != "" && m != "important" && m != "badfilter"
  {}

  lemma NoModifier(lib: Library, m: string, parsed: ParsedModifiers)
    requires PlainTypeNames(lib) && '$' in m
    ensures AddModifier(lib, m, parsed).Err?
  {
    NotAFlag(m);
    if StartsWith(m, "dnstype=") {
      AfterPrefix(m, "dnstype=");
      NoDnstypeValue(lib, m[8..], parsed);
    } else if StartsWith(m, "denyallow=") {
      AfterPrefix(m, "denyallow=");
      NoDenyallowValue(m[10..], parsed);
    }
  }

  lemma FirstFails(lib: Library, parts: seq<string>, parsed: ParsedModifiers)
    requires parts != [] && AddModifier(lib, Trim(parts[0]), parsed).Err?
    ensures AddModifiers(lib, parts, parsed).Err?
  {}

  lemma LaterFails(lib: Library, parts: seq<string>, parsed: ParsedModifiers)
    requires parts != []
    requires forall next :: AddModifiers(lib, parts[1..], next).Err?
    ensures AddModifiers(lib, parts, parsed).Err?
  {}

  lemma {:induction false} NoModifiersAfter(lib: Library, parts: seq<string>, i: nat, parsed: ParsedModifiers)
    requires PlainTypeNames(lib) && i < |parts| && '$' in parts[i]
    ensures AddModifiers(lib, parts, parsed).Err?
    decreases parts
  {
    if i == 0 {
      TrimStartKeeps(parts[0]);
      TrimEndKeeps(TrimStart(parts[0]));
      NoModifier(lib, Trim(parts[0]), parsed);
      FirstFails(lib, parts, parsed);
    } else {
      forall next ensures AddModifiers(lib, parts[1..], next).Err? {
        NoModifiersAfter(lib, parts[1..], i - 1, next);
      }
      LaterFails(lib, parts, parsed);
    }
  }

  /** A modifier text that parses has no dollar sign in it. */
  lemma ModifiersAreDollarFree(lib: Library, text: string)
    requires PlainTypeNames(lib) && ModifiersOf(lib, Some(text)).Ok?
    ensures '$' !in text
  {
    if '$' in text {
      var i := SplitKeeps(text, ',');
      NoModifiersAfter(lib, Split(text, ','), i, NO_MODIFIERS);
    }
  }

  // ----------------------------------------------------- the shape of targets

  /** The mark and the rest of a rule. */
  function Mark(line: string): string {
    if StartsWith(line, "@@") then "@@" else ""
  }

  lemma MarkAndBody(line: string)
    ensures Mark(line) + Body(line) == line
  {}

  lemma MarkBodyMark(line: string, pattern: string)
    requires Body(line) == pattern + BADFILTER
    ensures line == Mark(line) + pattern + BADFILTER
  {}

  lemma ComplexParts(lib: Library, line: string)
    requires ComplexRuleOf(lib, line).Ok?
    ensures SplitLine(Body(line)).Ok? && ModifiersOf(lib, SplitLine(Body(line)).value.1).Ok?
  {}

  lemma BodyEnds(line: string)
    requires EndsWith(line, BADFILTER)
    ensures EndsWith(Body(line), BADFILTER)
  {
    var at := |line| - |BADFILTER|;
    assert line[at] == line[at..][0] == BADFILTER[0];
    if StartsWith(line, "@@") {
      assert line[0] == '@' && line[1] == '@' && at >= 2;
      assert line[2..][at - 2..] == line[at..];
    }
  }

  lemma LastDollar(p: string, m: string, q: string, n: string)
    requires p + "$" + m == q + "$" + n && '$' !in m && '$' !in n
    ensures p == q && m == n
  {
    var s, t := p + "$" + m, q + "$" + n;
    assert s[|p|] == '$' && t[|q|] == '$';
    assert forall k :: |p| < k < |s| ==> s[k] == m[k - |p| - 1];
    assert forall k :: |q| < k < |t| ==> t[k] == n[k - |q| - 1];
    assert s[..|p|] == p && t[..|q|] == q && s[|p| + 1..] == m && t[|q| + 1..] == n;
  }

  lemma BadfilterEnd(s: string)
    requires EndsWith(s, BADFILTER)
    ensures s != "" && s[|s| - 1] == 'r' && '$' in s
    ensures s == s[..|s| - |BADFILTER|] + "$" + "badfilter"
  {
    var at := |s| - |BADFILTER|;
    assert s[at] == s[at..][0] == '$';
    assert s[|s| - 1] == s[at..][9] == 'r';
  }

  /** Text that ends in the mark is a pattern before it, if a good modifier text comes last. */
  lemma EndIsModifier(lib: Library, rest: string, pattern: string, modifiers: Option<string>)
    requires PlainTypeNames(lib) && EndsWith(rest, BADFILTER) && ModifiersOf(lib, modifiers).Ok?
    requires modifiers.None? ==> '$' !in rest || (rest != "" && rest[|rest| - 1] == '/')
    requires modifiers.Some? ==> rest == pattern + "$" + modifiers.value
    ensures modifiers == Some("badfilter") && rest == pattern + BADFILTER
  {
    hide ModifiersOf;
    BadfilterEnd(rest);
    if modifiers.Some? {
      ModifiersAreDollarFree(lib, modifiers.value);
      assert '$' !in "badfilter";
      LastDollar(pattern, modifiers.value, rest[..|rest| - |BADFILTER|], "badfilter");
    }
  }

  /** A split of a line: what is known of the pattern and of the modifiers. */
  lemma SplitParts(rest: string, pattern: string, modifiers: Option<string>)
    requires SplitLine(rest) == Ok((pattern, modifiers))
    ensures modifiers.None? ==> pattern == rest && ('$' !in rest || (rest != "" && rest[|rest| - 1] == '/'))
    ensures modifiers.Some? ==> rest == pattern + "$" + modifiers.value
    ensures '$' !in pattern || (StartsWith(pattern, "/") && pattern[|pattern| - 1] == '/')
  {}

  lemma ModifiersMeanDollar(line: string)
    requires HasModifiers(line)
    ensures '$' in line
  {}

  lemma {:induction false} SameRun(a: string, b: string, i: nat)
    requires i <= |a| <= |b| && a == b[..|a|]
    ensures BackslashRun(a, i) == BackslashRun(b, i)
  {
    if i > 1 { SameRun(a, b, i - 1); }
  }

  /** A closed regex is one pattern, whether it stands alone or before modifiers. */
  lemma ClosedPattern(pattern: string, tail: string)
    requires pattern != "" && pattern[0] == '/' && (tail == "" || tail[0] == '$')
    ensures (forall j :: 0 <= j < |pattern| ==> (IsCloser(pattern + tail, j) <==> IsCloser(pattern, j)))
  {
    forall j | 0 <= j < |pattern| ensures IsCloser(pattern + tail, j) <==> IsCloser(pattern, j) {
      assert pattern == (pattern + tail)[..|pattern|];
      SameRun(pattern, pattern + tail, j);
    }
  }

  lemma FirstCloserAt(line: string, at: nat)
    requires IsCloser(line, at) && StartsWith(line, "/")
    requires forall j :: 0 <= j < at ==> !IsCloser(line, j)
    ensures SplitLine(line) == Ok(SplitAtCloser(line, at))
  {}

  lemma RegexAlone(pattern: string, tail: string)
    requires StartsWith(pattern, "/") && (tail == "" || tail[0] == '$')
    requires SplitLine(pattern + tail).Ok? && SplitLine(pattern + tail).value.0 == pattern
    ensures SplitLine(pattern) == Ok((pattern, None))
  {
    SplitLosesNothing(pattern + tail);
    ClosedPattern(pattern, tail);
    FirstCloserAt(pattern, |pattern| - 1);
  }

  lemma BareTarget(line: string, bare: string)
    requires line == bare + BADFILTER && !EndsWith(bare, BADFILTER)
    ensures BadfilterTarget(line) == TrimEndChar(bare, ',')
  {
    assert line[|line| - |BADFILTER|..] == BADFILTER && line[..|line| - |BADFILTER|] == bare;
    assert TrimEndText(line, BADFILTER) == TrimEndText(bare, BADFILTER) == bare;
  }

  lemma NotAgain(bare: string)
    requires '$' !in bare || bare[|bare| - 1] == '/'
    ensures !EndsWith(bare, BADFILTER)
  {
    if EndsWith(bare, BADFILTER) { BadfilterEnd(bare); }
  }

  lemma RegexTarget(line: string, pattern: string)
    requires line == Mark(line) + pattern + BADFILTER && StartsWith(pattern, "/") && pattern[|pattern| - 1] == '/'
    requires SplitLine(pattern) == Ok((pattern, None))
    ensures !HasModifiers(BadfilterTarget(line))
  {
    hide SplitLine;
    var bare := Mark(line) + pattern;
    assert bare[|bare| - 1] == '/';
    NotAgain(bare);
    BareTarget(line, bare);
    assert TrimEndChar(bare, ',') == bare;
    assert line[0] == bare[0] && pattern[0] == '/';
    assert Body(bare) == pattern;
  }

  lemma PlainTarget(line: string, pattern: string)
    requires line == Mark(line) + pattern + BADFILTER && '$' !in pattern
    ensures !HasModifiers(BadfilterTarget(line))
  {
    var bare := Mark(line) + pattern;
    assert '$' !in bare;
    NotAgain(bare);
    BareTarget(line, bare);
    if HasModifiers(TrimEndChar(bare, ',')) { ModifiersMeanDollar(TrimEndChar(bare, ',')); }
  }

  /** A pattern that takes modifiers only from what is put after it. */
  predicate TakesModifiers(pattern: string) {
    '$' !in pattern
    || (StartsWith(pattern, "/") && pattern[|pattern| - 1] == '/' && SplitLine(pattern) == Ok((pattern, None)))
  }

  lemma BareHasNoModifiers(line: string, pattern: string)
    requires line == Mark(line) + pattern + BADFILTER && TakesModifiers(pattern)
    ensures !HasModifiers(BadfilterTarget(line))
  {
    if '$' in pattern { RegexTarget(line, pattern); } else { PlainTarget(line, pattern); }
  }

  lemma DisablingPattern(lib: Library, rest: string, pattern: string, modifiers: Option<string>)
    requires PlainTypeNames(lib) && EndsWith(rest, BADFILTER)
    requires SplitLine(rest) == Ok((pattern, modifiers)) && ModifiersOf(lib, modifiers).Ok?
    ensures rest == pattern + BADFILTER && modifiers == Some("badfilter") && TakesModifiers(pattern)
  {
    SplitParts(rest, pattern, modifiers);
    EndIsModifier(lib, rest, pattern, modifiers);
    if '$' in pattern { RegexAlone(pattern, BADFILTER); }
  }

  lemma DisableParts(lib: Library, line: string, target: string)
    requires ClassifyComplex(lib, line) == Ok(Disable(target))
    ensures ComplexRuleOf(lib, line).Ok? && EndsWith(line, BADFILTER) && target == BadfilterTarget(line)
  {
    assert ComplexRuleOf(lib, line).value.rawText == line;
  }

  /** Whatever a line disables has no modifiers. */
  lemma TargetsHaveNoModifiers(lib: Library, line: string, target: string)
    requires PlainTypeNames(lib) && ClassifyComplex(lib, line) == Ok(Disable(target))
    ensures !HasModifiers(target)
  {
    DisableParts(lib, line, target);
    BodyEnds(line);
    ComplexParts(lib, line);
    var rest := Body(line);
    var parts := SplitLine(rest).value;
    DisablingPattern(lib, rest, parts.0, parts.1);
    MarkBodyMark(line, parts.0);
    BareHasNoModifiers(line, parts.0);
  }

  lemma OnlyComplexLinesDisable(lib: Library, line: string, origin: Origin, target: string)
    requires Classify(lib, line, origin) == Ok(Disable(target))
    ensures ClassifyComplex(lib, Trim(StripComments(line))) == Ok(Disable(target))
  {}

  // ------------------------------------------------ rules that can be disabled

  lemma PlainThen(body: string)
    requires '$' !in body && !StartsWith(body, "/")
    ensures SplitLine(body + BADFILTER) == Ok((body, Some("badfilter")))
  {
    var line := body + BADFILTER;
    FindAfter(body, '$', "badfilter");
    assert line == body + ['$'] + "badfilter";
    assert line[..|body|] == body && line[|body| + 1..] == "badfilter";
    assert line[0] == (if body == "" then '$' else body[0]);
  }

  lemma RegexThen(body: string)
    requires StartsWith(body, "/") && SplitLine(body) == Ok((body, None))
    ensures SplitLine(body + BADFILTER) == Ok((body, Some("badfilter")))
  {
    var line := body + BADFILTER;
    SplitLosesNothing(body);
    ClosedPattern(body, BADFILTER);
    FirstCloserAt(line, |body| - 1);
    assert line[..|body|] == body && line[|body| + 1..] == "badfilter";
  }

  lemma PatternThen(body: string)
    requires SplitLine(body).Ok? && SplitLine(body).value.1 == None
    ensures SplitLine(body) == Ok((body, None)) && SplitLine(body + BADFILTER) == Ok((body, Some("badfilter")))
  {
    SplitParts(body, SplitLine(body).value.0, None);
    if StartsWith(body, "/") {
      RegexThen(body);
    } else {
      SplitLosesNothing(body);
      PlainThen(body);
    }
  }

  lemma RegexIsValid(lib: Library, line: string, body: string)
    requires ComplexRuleOf(lib, line).Ok? && body == Body(line) && SplitLine(body) == Ok((body, None))
    ensures lib.validRegex(RegexOf(body))
  {}

  lemma ComplexBadfilter(lib: Library, line: string, rest: string, body: string)
    requires rest == Body(line) && SplitLine(rest) == Ok((body, Some("badfilter"))) && lib.validRegex(RegexOf(body))
    ensures ComplexRuleOf(lib, line) == Ok(MatchRule(line, RegexOf(body), false, None, []))
  {
    PlainModifier(lib, "badfilter");
    RuleWithValid(lib, line, RegexOf(body), ParsedModifiers(false, None, []));
  }

  lemma BodyOfLonger(line: string)
    requires line != ""
    ensures Body(line + BADFILTER) == Body(line) + BADFILTER
  {
    var longer := line + BADFILTER;
    assert longer[0] == line[0] && longer[1] == if |line| > 1 then line[1] else '$';
    if StartsWith(line, "@@") { assert longer[2..] == line[2..] + BADFILTER; }
  }

  lemma NeverSimple(line: string)
    requires '$' in Body(line)
    ensures ParseSimpleRule(line) == None
  {}

  lemma DollarLine(lib: Library, line: string, origin: Origin)
    requires Solid(line) && line[0] != '#' && line[0] != '!' && '$' in Body(line)
    ensures Classify(lib, line, origin) == ClassifyComplex(lib, line)
  {
    NeverSimple(line);
    MarkAndBody(line);
    NoName(line);
    ClassifySkips(lib, line, origin);
  }

  lemma TargetOfRule(t: string)
    requires t != "" && t[|t| - 1] != ',' && !HasModifiers(t) && SplitLine(Body(t)).Ok?
    ensures BadfilterTarget(t + BADFILTER) == t
  {
    var body := Body(t);
    PatternThen(body);
    SplitParts(body, body, None);
    MarkAndBody(t);
    if body != "" { assert t[|t| - 1] == body[|body| - 1]; }
    NotAgain(t);
    BareTarget(t + BADFILTER, t);
    assert TrimEndChar(t, ',') == t;
  }

  // -------------------------------------------- badfilter lines, both ways

  /** A rule text that parses and has no modifiers. */
  ghost predicate Unmodified(lib: Library, bare: string) {
    SplitLine(Body(bare)) == Ok((Body(bare), None)) && lib.validRegex(RegexOf(Body(bare)))
  }

  ghost predicate IsBadfilter(lib: Library, line: string, target: string, bare: string) {
    line == bare + BADFILTER && Unmodified(lib, bare) && target == TrimEndChar(bare, ',')
  }

  lemma BodyOfMarked(line: string, pattern: string, bare: string)
    requires line == bare + BADFILTER && bare == Mark(line) + pattern
    ensures Body(bare) == pattern
  {
    assert |bare| >= 2 ==> line[..2] == bare[..2];
    if StartsWith(line, "@@") { assert bare[..2] == "@@" && bare[2..] == pattern; }
  }

  lemma PatternAlone(rest: string, pattern: string)
    requires rest == pattern + BADFILTER && TakesModifiers(pattern)
    requires SplitLine(rest) == Ok((pattern, Some("badfilter")))
    ensures SplitLine(pattern) == Ok((pattern, None))
  {
    if StartsWith(pattern, "/") {
      RegexAlone(pattern, BADFILTER);
    } else {
      assert '$' !in pattern;
    }
  }

  lemma ValidPattern(lib: Library, line: string, rest: string, pattern: string, modifiers: Option<string>)
    requires rest == Body(line) && SplitLine(rest) == Ok((pattern, modifiers)) && ComplexRuleOf(lib, line).Ok?
    ensures lib.validRegex(RegexOf(pattern))
  {}

  lemma BareIs(line: string, bare: string, pattern: string, target: string)
    requires line == bare + BADFILTER && target == BadfilterTarget(line) && Body(bare) == pattern
    requires '$' !in pattern || (StartsWith(pattern, "/") && pattern[|pattern| - 1] == '/')
    ensures target == TrimEndChar(bare, ',')
  {
    MarkAndBody(bare);
    if pattern != "" { assert bare[|bare| - 1] == pattern[|pattern| - 1]; }
    NotAgain(bare);
    BareTarget(line, bare);
  }

  lemma DisablingIsBadfilter(lib: Library, line: string, target: string) returns (bare: string)
    requires PlainTypeNames(lib) && ClassifyComplex(lib, line) == Ok(Disable(target))
    ensures IsBadfilter(lib, line, target, bare)
  {
    DisableParts(lib, line, target);
    BodyEnds(line);
    ComplexParts(lib, line);
    var rest := Body(line);
    var (pattern, modifiers) := SplitLine(rest).value;
    DisablingPattern(lib, rest, pattern, modifiers);
    bare := Mark(line) + pattern;
    MarkBodyMark(line, pattern);
    BodyOfMarked(line, pattern, bare);
    PatternAlone(rest, pattern);
    ValidPattern(lib, line, rest, pattern, modifiers);
    BareIs(line, bare, pattern, target);
  }

  lemma BadfilterDisables(lib: Library, line: string, target: string, bare: string)
    requires IsBadfilter(lib, line, target, bare)
    ensures ClassifyComplex(lib, line) == Ok(Disable(target))
  {
    var body := Body(bare);
    PatternThen(body);
    SplitParts(body, body, None);
    if bare == "" { assert line == BADFILTER && line[0] == '$'; } else { BodyOfLonger(bare); }
    ComplexBadfilter(lib, line, body + BADFILTER, body);
    BareIs(line, bare, body, BadfilterTarget(line));
    assert line[|bare|..] == BADFILTER;
    ComplexDisables(lib, line, MatchRule(line, RegexOf(body), false, None, []), target);
  }

  /**
   * On the last route, a line is a badfilter line exactly if it is a good rule without modifiers and
   * then `$badfilter`; its target is that rule without the commas at its end.
   */
  lemma BadfilterExactly(lib: Library, line: string, target: string)
    requires PlainTypeNames(lib)
    ensures ClassifyComplex(lib, line) == Ok(Disable(target)) <==> exists bare :: IsBadfilter(lib, line, target, bare)
  {
    if ClassifyComplex(lib, line) == Ok(Disable(target)) { var bare := DisablingIsBadfilter(lib, line, target); }
    if bare :| IsBadfilter(lib, line, target, bare) { BadfilterDisables(lib, line, target, bare); }
  }

  // -------------------------------------------------- rules of several words

  lemma {:induction false} WordLengthLonger(s: string, tail: string)
    requires forall i :: 0 <= i < |tail| ==> !IsWhitespace(tail[i])
    ensures WordLength(s + tail) == WordLength(s) + if WordLength(s) == |s| then |tail| else 0
  {
    if s == "" {
      assert s + tail == tail == tail + "";
      SolidWordLength(tail, "");
    } else {
      assert (s + tail)[0] == s[0] && (s + tail)[1..] == s[1..] + tail;
      WordLengthLonger(s[1..], tail);
    }
  }

  lemma {:induction false} TrimStartLonger(s: string, tail: string)
    requires TrimStart(s) != ""
    ensures TrimStart(s + tail) == TrimStart(s) + tail
  {
    if IsWhitespace(s[0]) {
      assert (s + tail)[1..] == s[1..] + tail;
      TrimStartLonger(s[1..], tail);
    }
  }

  lemma {:induction false} EndsDark(s: string)
    requires s != "" && !IsWhitespace(s[|s| - 1])
    ensures TrimStart(s) != "" && TrimStart(s)[|TrimStart(s)| - 1] == s[|s| - 1]
  {
    if IsWhitespace(s[0]) { EndsDark(s[1..]); }
  }

  lemma WordsStep(s: string, t: string, n: nat)
    requires t == TrimStart(s) && t != "" && n == WordLength(t)
    ensures SplitWhitespace(s) == [t[..n]] + SplitWhitespace(t[n..])
  {}

  /** `longer` is `words` with `tail` put after the last word. */
  predicate LastLonger(words: seq<string>, longer: seq<string>, tail: string) {
    |words| > 0 && longer == words[..|words| - 1] + [words[|words| - 1] + tail]
  }

  lemma LastLongerStep(word: string, words: seq<string>, longer: seq<string>, tail: string)
    requires LastLonger(words, longer, tail)
    ensures LastLonger([word] + words, [word] + longer, tail)
  {
    var all := [word] + words;
    assert all[..|all| - 1] == [word] + words[..|words| - 1];
  }

  /** Text put right after the last word makes that word longer and leaves the others alone. */
  lemma {:induction false} LastWordLonger(s: string, tail: string)
    requires s != "" && !IsWhitespace(s[|s| - 1]) && Solid(tail)
    ensures LastLonger(SplitWhitespace(s), SplitWhitespace(s + tail), tail)
    decreases |s|
  {
    EndsDark(s);
    TrimStartLonger(s, tail);
    var t := TrimStart(s);
    var n := WordLength(t);
    WordLengthLonger(t, tail);
    WordsStep(s, t, n);
    WordsStep(s + tail, t + tail, WordLength(t + tail));
    if n == |t| {
      OnlyWord(t, tail);
    } else {
      LaterWords(t, n, tail);
      LastWordLonger(t[n..], tail);
      LastLongerStep(t[..n], SplitWhitespace(t[n..]), SplitWhitespace(t[n..] + tail), tail);
    }
  }

  lemma LaterWords(t: string, n: nat, tail: string)
    requires n < |t|
    ensures (t + tail)[..n] == t[..n] && (t + tail)[n..] == t[n..] + tail && t[n..][|t[n..]| - 1] == t[|t| - 1]
  {}

  lemma OnlyWord(t: string, tail: string)
    ensures t[..|t|] == t && t[|t|..] == "" && (t + tail)[..|t + tail|] == t + tail && (t + tail)[|t + tail|..] == ""
    ensures SplitWhitespace("") == []
  {}

  lemma NoNames(words: seq<string>)
    ensures NormalizeAll(words) == [] <==> forall i :: 0 <= i < |words| ==> NormalizeDomain(words[i]) == None
  {
    hide NormalizeDomain;
    NothingKept(NamesOf(words));
  }

  lemma {:induction false} NothingKept<T>(xs: seq<Option<T>>)
    ensures KeepSome(xs) == [] <==> forall i :: 0 <= i < |xs| ==> xs[i] == None
  {
    if xs != [] {
      NothingKept(xs[1..]);
      assert forall i :: 0 < i < |xs| ==> xs[i] == xs[1..][i - 1];
    }
  }

  /** Whether words make a hosts rule. */
  lemma HostsWordsNone(lib: Library, line: string, words: seq<string>)
    requires SplitWhitespace(line) == words && words != []
    ensures ParseHostsRule(lib, line) == None <==> lib.parseIp(words[0]) == None || NormalizeAll(words[1..]) == []
  {}

  lemma NoNameLonger(words: seq<string>, longer: seq<string>, tail: string, i: nat)
    requires LastLonger(words, longer, tail) && '$' in tail && i < |longer|
    requires i < |words| - 1 ==> NormalizeDomain(words[i]) == None
    ensures NormalizeDomain(longer[i]) == None
  {
    hide NormalizeDomain;
    if i == |words| - 1 {
      DollarAtEnd(words[i], tail);
      NoName(longer[i]);
    }
  }

  lemma NoNamesLonger(words: seq<string>, longer: seq<string>, tail: string)
    requires LastLonger(words, longer, tail) && '$' in tail && NormalizeAll(words[1..]) == []
    ensures NormalizeAll(longer[1..]) == []
  {
    hide NormalizeDomain, NormalizeAll;
    NoNames(words[1..]);
    assert forall i :: 1 <= i < |words| ==> words[i] == words[1..][i - 1];
    forall i | 0 <= i < |longer[1..]| ensures NormalizeDomain(longer[1..][i]) == None {
      NoNameLonger(words, longer, tail, i + 1);
    }
    NoNames(longer[1..]);
  }

  lemma NoHostsLonger(lib: Library, words: seq<string>, longer: seq<string>, tail: string)
    requires |words| > 1 && LastLonger(words, longer, tail) && '$' in tail
    requires lib.parseIp(words[0]) == None || NormalizeAll(words[1..]) == []
    ensures lib.parseIp(longer[0]) == None || NormalizeAll(longer[1..]) == []
  {
    assert longer[0] == words[0];
    if NormalizeAll(words[1..]) == [] { NoNamesLonger(words, longer, tail); }
  }

  lemma DollarAtEnd(s: string, tail: string)
    requires '$' in tail
    ensures '$' in s + tail
  {
    var i :| 0 <= i < |tail| && tail[i] == '$';
    assert (s + tail)[|s| + i] == '$';
  }

  /** A line that is no hosts rule does not become one when the mark is put after it. */
  lemma StillNoHostsRule(lib: Library, t: string)
    requires t != "" && !IsWhitespace(t[|t| - 1]) && ParseHostsRule(lib, t) == None
    ensures ParseHostsRule(lib, t + BADFILTER) == None
  {
    SolidMark();
    LastWordLonger(t, BADFILTER);
    var words, longer := SplitWhitespace(t), SplitWhitespace(t + BADFILTER);
    HostsWordsNone(lib, t, words);
    HostsWordsNone(lib, t + BADFILTER, longer);
    if |words| > 1 {
      NoHostsLonger(lib, words, longer, BADFILTER);
    } else {
      assert longer[1..] == [];
      NoNames(longer[1..]);
    }
  }

  lemma SolidMark()
    ensures Solid(BADFILTER) && '$' in BADFILTER && BADFILTER[|BADFILTER| - 1] == 'r'
  {
    assert BADFILTER[0] == '$';
  }

  // ------------------------------------------------------------ and its line

  /** A text that none of the first routes takes. */
  ghost predicate TakenLast(lib: Library, t: string) {
    && Trim(StripComments(t)) == t && t != ""
    && ParseSimpleRule(t) == None && ParseHostsRule(lib, t) == None && NormalizeDomain(t) == None
  }

  lemma LastRoute(lib: Library, t: string, origin: Origin)
    requires TakenLast(lib, t)
    ensures Classify(lib, t, origin) == ClassifyComplex(lib, t)
  {}

  lemma Dark(line: string) returns (t: string)
    requires Trim(StripComments(line)) != ""
    ensures t == Trim(StripComments(line))
    ensures t[0] != '#' && t[0] != '!' && !IsWhitespace(t[0]) && !IsWhitespace(t[|t| - 1])
  {
    t := Trim(StripComments(line));
    TrimmedStart(TrimStart(line));
    assert t[0] == TrimStart(line)[0];
    assert t[0] == '#' ==> StartsWith(TrimStart(line), "#");
    assert t[0] == '!' ==> StartsWith(TrimStart(line), "!");
  }

  lemma ComplexRoute(lib: Library, line: string, origin: Origin, rule: MatchRule, disposition: Disposition)
    requires Classify(lib, line, origin) == Ok(ComplexRule(rule, disposition))
    ensures var t := Trim(StripComments(line));
            && t != "" && ParseSimpleRule(t) == None && ParseHostsRule(lib, t) == None && NormalizeDomain(t) == None
            && ClassifyComplex(lib, t) == Ok(ComplexRule(rule, disposition))
  {}

  lemma ComplexText(lib: Library, t: string, rule: MatchRule, disposition: Disposition)
    requires ClassifyComplex(lib, t) == Ok(ComplexRule(rule, disposition))
    ensures ComplexRuleOf(lib, t) == Ok(rule) && rule.rawText == t
  {}

  lemma MarkedIsTakenLast(lib: Library, t: string)
    requires t != "" && t[0] != '#' && t[0] != '!' && !IsWhitespace(t[0]) && !IsWhitespace(t[|t| - 1])
    requires ParseHostsRule(lib, t) == None
    ensures TakenLast(lib, t + BADFILTER)
  {
    var line := t + BADFILTER;
    SolidMark();
    assert line[|line| - 1] == 'r' && line[0] == t[0];
    UncommentedLine(line);
    StillNoHostsRule(lib, t);
    BodyOfLonger(t);
    DollarAtEnd(Body(t), BADFILTER);
    NeverSimple(line);
    DollarAtEnd(t, BADFILTER);
    NoName(line);
  }

  lemma MarkedDisables(lib: Library, t: string)
    requires t != "" && t[|t| - 1] != ','
    requires ComplexRuleOf(lib, t).Ok? && !HasModifiers(t)
    ensures ClassifyComplex(lib, t + BADFILTER) == Ok(Disable(t))
  {
    var line, body := t + BADFILTER, Body(t);
    ComplexParts(lib, t);
    PatternThen(body);
    RegexIsValid(lib, t, body);
    BodyOfLonger(t);
    ComplexBadfilter(lib, line, body + BADFILTER, body);
    TargetOfRule(t);
    assert line[|t|..] == BADFILTER;
    ComplexDisables(lib, line, MatchRule(line, RegexOf(body), false, None, []), t);
  }

  predicate EndsInComma(t: string) {
    t != "" && t[|t| - 1] == ','
  }

  /** What is known of the text of a filter rule that some line gives. */
  lemma RuleText(lib: Library, line: string, origin: Origin, rule: MatchRule, disposition: Disposition)
    returns (t: string)
    requires Classify(lib, line, origin) == Ok(ComplexRule(rule, disposition))
    ensures t == rule.rawText && t != ""
    ensures t[0] != '#' && t[0] != '!' && !IsWhitespace(t[0]) && !IsWhitespace(t[|t| - 1])
    ensures ParseHostsRule(lib, t) == None && ComplexRuleOf(lib, t).Ok?
  {
    ComplexRoute(lib, line, origin, rule, disposition);
    t := Dark(line);
    ComplexText(lib, t, rule, disposition);
  }

  lemma MarkedLine(lib: Library, t: string, origin: Origin)
    requires t != "" && t[0] != '#' && t[0] != '!' && !IsWhitespace(t[0]) && !IsWhitespace(t[|t| - 1])
    requires ParseHostsRule(lib, t) == None && ComplexRuleOf(lib, t).Ok? && !HasModifiers(t) && !EndsInComma(t)
    ensures Classify(lib, t + BADFILTER, origin) == Ok(Disable(t))
  {
    MarkedIsTakenLast(lib, t);
    LastRoute(lib, t + BADFILTER, origin);
    MarkedDisables(lib, t);
  }

  /** A filter rule without modifiers is disabled by its text with the mark after it. */
  lemma UnmodifiedIsDisabled(lib: Library, line: string, origin: Origin, rule: MatchRule, disposition: Disposition)
    requires Classify(lib, line, origin) == Ok(ComplexRule(rule, disposition))
    requires !HasModifiers(rule.rawText) && !EndsInComma(rule.rawText)
    ensures Classify(lib, rule.rawText + BADFILTER, origin) == Ok(Disable(rule.rawText))
  {
    var t := RuleText(lib, line, origin, rule, disposition);
    MarkedLine(lib, t, origin);
  }

  lemma DisabledText(lib: Library, line: string, origin: Origin, target: string)
    requires PlainTypeNames(lib) && Classify(lib, line, origin) == Ok(Disable(target))
    ensures !HasModifiers(target) && !EndsInComma(target)
  {
    var text := Trim(StripComments(line));
    OnlyComplexLinesDisable(lib, line, origin, target);
    TargetsHaveNoModifiers(lib, text, target);
    DisableParts(lib, text, target);
  }

  ghost predicate CanBeDisabled(lib: Library, t: string) {
    exists line, origin :: Classify(lib, line, origin) == Ok(Disable(t))
  }

  /**
   * A filter rule that some line gives can be disabled by some line if and only if it has no
   * modifiers (and does not end in a comma, which the target loses).
   */
  lemma DisablableExactly(lib: Library, line: string, origin: Origin, rule: MatchRule, disposition: Disposition)
    requires PlainTypeNames(lib)
    requires Classify(lib, line, origin) == Ok(ComplexRule(rule, disposition))
    ensures CanBeDisabled(lib, rule.rawText) <==> !HasModifiers(rule.rawText) && !EndsInComma(rule.rawText)
  {
    var t := rule.rawText;
    if other, o :| Classify(lib, other, o) == Ok(Disable(t)) { DisabledText(lib, other, o, t); }
    if !HasModifiers(t) && !EndsInComma(t) { UnmodifiedIsDisabled(lib, line, origin, rule, disposition); }
  }

  /** So in any build, from any lines in any order, a rule that carries modifiers survives the badfilters. */
  lemma ModifiedRulesStand(lib: Library, lines: seq<Line>, rule: MatchRule, disposition: Disposition)
    requires PlainTypeNames(lib)
    requires ComplexRule(rule, disposition) in EffectsOf(Reader(lib), lines) && HasModifiers(rule.rawText)
    ensures rule.rawText !in TargetsOf(EffectsOf(Reader(lib), lines))
  {
    var effects := EffectsOf(Reader(lib), lines);
    if e :| e in effects && e.Disable? && e.target == rule.rawText {
      var i :| 0 <= i < |effects| && effects[i] == e;
      OnlyComplexLinesDisable(lib, lines[i].text, lines[i].origin, e.target);
      TargetsHaveNoModifiers(lib, Trim(StripComments(lines[i].text)), e.target);
    }
  }

  predicate Flag(modifier: string) {
    modifier == "important" || modifier == "badfilter"
  }

  lemma TwoFlags(lib: Library, first: string, second: string)
    requires Flag(first) && Flag(second)
    ensures AddModifiers(lib, [first, second], NO_MODIFIERS) == Ok(ParsedModifiers(second == "important", None, []))
  {
    hide AddDenyallow, Trim;
    SolidIsTrimmed(first);
    SolidIsTrimmed(second);
    var once := NO_MODIFIERS.(important := first == "important");
    assert AddModifier(lib, first, NO_MODIFIERS) == Ok(once);
    assert AddModifier(lib, second, once) == Ok(once.(important := second == "important"));
    assert [first, second][1..] == [second] && [second][1..] == [];
    assert AddModifiers(lib, [second], once) == Ok(once.(important := second == "important"));
  }

  lemma FlagText(first: string, second: string)
    requires Flag(first) && Flag(second)
    ensures Split(first + "," + second, ',') == [first, second]
  {
    assert ',' !in "important" && ',' !in "badfilter";
    OnePart(first, ',');
    OnePart(second, ',');
    SplitConcat(first, ',', second);
  }

  lemma TwoFlagRule(lib: Library, line: string, pattern: string, first: string, second: string)
    requires line == pattern + "$" + (first + "," + second) && Flag(first) && Flag(second)
    requires '$' !in pattern && !StartsWith(pattern, "/") && !StartsWith(pattern, "@@") && |pattern| > 1
    requires lib.validRegex(RegexOf(pattern))
    ensures ComplexRuleOf(lib, line) == Ok(MatchRule(line, RegexOf(pattern), second == "important", None, []))
  {
    assert line[0] == pattern[0] && line[1] == pattern[1];
    assert Body(line) == line;
    SplitAtDollar(pattern, first + "," + second);
    FlagText(first, second);
    TwoFlags(lib, first, second);
    RuleWithValid(lib, line, RegexOf(pattern), ParsedModifiers(second == "important", None, []));
  }

  /**
   * `||name^$important,badfilter` is not taken for a badfilter line: it becomes one more rule that
   * blocks the name, and not even an important one.
   */
  lemma CommaBadfilterBlocks(lib: Library, name: string, origin: Origin)
    requires IsPlainName(name) && Textbook(lib, RegexText("||" + name + "^"))
    ensures var line := "||" + name + "^$important,badfilter";
            var regex := RegexText("||" + name + "^");
            Classify(lib, line, origin) == Ok(ComplexRule(MatchRule(line, regex, false, None, []), Block))
  {
    hide Classify, ComplexRuleOf, RegexText, IsPlainName, Body, PatternTree, IsNameChar;
    var pattern, line := "||" + name + "^", "||" + name + "^$important,badfilter";
    NameLineParts(name);
    assert line == pattern + "$" + ("important" + "," + "badfilter");
    CompilerParses(pattern);
    assert RegexOf(pattern) == RegexText(pattern);
    TwoFlagRule(lib, line, pattern, "important", "badfilter");
    CommaLine(line, pattern);
    DollarLine(lib, line, origin);
    NotDisabling(lib, line, MatchRule(line, RegexText(pattern), false, None, []));
  }

  lemma CommaLine(line: string, pattern: string)
    requires line == pattern + "$" + ("important" + "," + "badfilter")
    requires Solid(pattern) && !StartsWith(pattern, "@@") && |pattern| > 1
    ensures Solid(line) && line[0] == pattern[0] && '$' in Body(line) && !StartsWith(line, "@@")
    ensures !EndsWith(line, BADFILTER)
  {
    var tail := "$important,badfilter";
    assert line == pattern + tail;
    forall i | 0 <= i < |line| ensures !IsWhitespace(line[i]) {
      if i < |pattern| { assert line[i] == pattern[i]; } else { assert line[i] == tail[i - |pattern|]; }
    }
    assert line[0] == pattern[0] && line[1] == pattern[1] && line[|pattern|] == '$';
    assert line[|line| - 10] == tail[10] == ',' && line[|line| - 10..][0] == ',' && BADFILTER[0] == '$';
  }

  lemma NotDisabling(lib: Library, line: string, rule: MatchRule)
    requires ComplexRuleOf(lib, line) == Ok(rule) && rule.rawText == line
    requires !EndsWith(line, BADFILTER) && !StartsWith(line, "@@")
    ensures ClassifyComplex(lib, line) == Ok(ComplexRule(rule, Block))
  {}
}
