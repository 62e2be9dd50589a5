/** The rule sets while they are built: lines go in one by one, badfilters are applied at the end. */
module RuleSetBuilding {
  import opened Text
  import opened Domains
  import opened Overrides
  import opened RuleSyntax
  import opened RuleIndex

  /** Everything a build has gathered so far, with the badfilter targets seen. */
  datatype Gathered = Gathered(
    index: Index, blockRules: seq<MatchRule>, allowRules: seq<MatchRule>,
    overrides: OverrideMap, disabled: set<string>)

  const NOTHING_GATHERED := Gathered(EMPTY_INDEX, [], [], map[], {})

  datatype Line = Line(text: string, origin: Origin)

  function Lines(text: string, origin: Origin): (lines: seq<Line>)
    ensures |lines| == |Text.Lines(text)|
    ensures forall i :: 0 <= i < |lines| ==> lines[i] == Line(Text.Lines(text)[i], origin)
  {
    var texts := Text.Lines(text);
    seq(|texts|, i requires 0 <= i < |texts| => Line(texts[i], origin))
  }

  ghost function Apply(effect: Effect, g: Gathered): Gathered {
    match effect
    case Nothing => g
    case DomainRules(rules) => g.(index := AddRules(g.index, rules))
    case Override(ip, domains) => g.(overrides := AddOverrides(ip, domains, g.overrides))
    case Disable(target) => g.(disabled := g.disabled + {target})
    case ComplexRule(rule, disposition) =>
      if disposition == Allow then g.(allowRules := g.allowRules + [rule])
      else g.(blockRules := g.blockRules + [rule])
  }

  type Classifier = (string, Origin) -> Result<Effect, SyntaxError>

  function Reader(lib: Library): Classifier {
    (text: string, origin: Origin) => Classify(lib, text, origin)
  }

  /** Lines fed in order; the first that does not parse fails the build. */
  ghost function Feed(read: Classifier, lines: seq<Line>, g: Gathered): Result<Gathered, SyntaxError>
    decreases lines
  {
    if lines == [] then Ok(g)
    else
      match read(lines[0].text, lines[0].origin)
      case Err(e) => Err(e)
      case Ok(effect) => Feed(read, lines[1..], Apply(effect, g))
  }

  ghost predicate FailsAt(read: Classifier, lines: seq<Line>, k: nat, error: SyntaxError)
    requires k < |lines|
  {
    read(lines[k].text, lines[k].origin) == Err(error)
  }

  lemma {:induction false} FeedAppend(read: Classifier, a: seq<Line>, b: seq<Line>, g: Gathered)
    ensures Feed(read, a + b, g) ==
            if Feed(read, a, g).Err? then Feed(read, a, g) else Feed(read, b, Feed(read, a, g).value)
    decreases a
  {
    if a == [] {
      assert a + b == b;
    } else {
      assert (a + b)[1..] == a[1..] + b;
      match read(a[0].text, a[0].origin)
      case Err(_) =>
      case Ok(effect) => FeedAppend(read, a[1..], b, Apply(effect, g));
    }
  }

  /** One line more, after lines that parse; and if it does not parse, the whole list does not. */
  lemma FeedStep(read: Classifier, lines: seq<Line>, i: nat, g: Gathered)
    requires i < |lines| && Feed(read, lines[..i], g).Ok?
    ensures match read(lines[i].text, lines[i].origin)
            case Err(e) => Feed(read, lines, g) == Err(e)
            case Ok(effect) => Feed(read, lines[..i + 1], g) == Ok(Apply(effect, Feed(read, lines[..i], g).value))
  {
    assert lines == lines[..i] + lines[i..];
    assert lines[..i + 1] == lines[..i] + [lines[i]];
    assert [lines[i]][1..] == [];
    FeedAppend(read, lines[..i], lines[i..], g);
    FeedAppend(read, lines[..i], [lines[i]], g);
  }

  function KeepRules(rules: seq<MatchRule>, disabled: set<string>): (kept: seq<MatchRule>)
    ensures forall r :: r in kept <==> r in rules && r.rawText !in disabled
  {
    if rules == [] then []
    else (if rules[0].rawText in disabled then [] else [rules[0]]) + KeepRules(rules[1..], disabled)
  }

  ghost function WithoutDisabled(g: Gathered): Gathered {
    g.(index := Without(g.index, DisabledBy(g.disabled)),
       blockRules := KeepRules(g.blockRules, g.disabled),
       allowRules := KeepRules(g.allowRules, g.disabled))
  }

  ghost function BuildFrom(read: Classifier, lines: seq<Line>): Result<Gathered, SyntaxError> {
    match Feed(read, lines, NOTHING_GATHERED)
    case Err(e) => Err(e)
    case Ok(g) => Ok(WithoutDisabled(g))
  }

  ghost function Build(lib: Library, lines: seq<Line>): Result<Gathered, SyntaxError> {
    BuildFrom(Reader(lib), lines)
  }

  class RuleSets {
    var overrides: OverrideMap
    var blockExact: set<string>
    var blockSubdomains: set<string>
    var allowExact: set<string>
    var allowSubdomains: set<string>
    var blockRules: seq<MatchRule>
    var allowRules: seq<MatchRule>

    ghost function Contents(disabled: set<string>): Gathered
      reads this
    {
      Gathered(Index(blockExact, blockSubdomains, allowExact, allowSubdomains),
               blockRules, allowRules, overrides, disabled)
    }

    constructor ()
      ensures Contents({}) == NOTHING_GATHERED
    {
      overrides := map[];
      blockExact, blockSubdomains, allowExact, allowSubdomains := {}, {}, {}, {};
      blockRules, allowRules := [], [];
    }

    method AddDomainRule(disposition: Disposition, domain: string, includeSubdomains: bool, ghost disabled: set<string>)
      modifies this
      ensures Contents(disabled) ==
              old(Contents(disabled)).(index := AddRule(old(Contents(disabled)).index,
                                                        DomainRule(disposition, domain, includeSubdomains)))
    {
      match disposition {
        case Allow =>
          blockExact := blockExact - {domain};
          blockSubdomains := blockSubdomains - {domain};
          allowExact := allowExact + {domain};
          if includeSubdomains {
            allowSubdomains := allowSubdomains + {domain};
          }
        case Block =>
          var allowed := DomainSetMatches(allowExact, allowSubdomains, domain);
          if allowed {
            return;
          }
          blockExact := blockExact + {domain};
          if includeSubdomains {
            blockSubdomains := blockSubdomains + {domain};
          }
      }
    }

    method AddDomainRules(rules: seq<DomainRule>, ghost disabled: set<string>)
      modifies this
      ensures Contents(disabled) ==
              old(Contents(disabled)).(index := AddRules(old(Contents(disabled)).index, rules))
    {
      ghost var before := Contents(disabled);
      for i := 0 to |rules|
        invariant Contents(disabled).(index := before.index) == before
        invariant AddRules(Contents(disabled).index, rules[i..]) == AddRules(before.index, rules)
      {
        assert rules[i..][0] == rules[i] && rules[i..][1..] == rules[i + 1..];
        AddDomainRule(rules[i].disposition, rules[i].domain, rules[i].includeSubdomains, disabled);
      }
    }

    method ParseRuleLine(lib: Library, line: string, origin: Origin, disabled: set<string>)
      returns (r: Result<(), SyntaxError>, disabled': set<string>)
      modifies this
      ensures match Classify(lib, line, origin)
              case Err(e) => r == Err(e) && disabled' == disabled && Contents(disabled) == old(Contents(disabled))
              case Ok(effect) => r == Ok(()) && Contents(disabled') == Apply(effect, old(Contents(disabled)))
    {
      r, disabled' := Ok(()), disabled;
      var text := Trim(StripComments(line));
      if text == "" {
        return;
      }
      var simple := ParseSimpleRule(text);
      if simple.Some? {
        AddDomainRules([simple.value], disabled);
        return;
      }
      var hosts := ParseHostsRule(lib, text);
      if hosts.Some? {
        match origin {
          case RemoteFilter =>
            AddDomainRules(BlockNames(hosts.value.1), disabled);
          case UserRule =>
            overrides := AddOverrides(hosts.value.0, hosts.value.1, overrides);
        }
        return;
      }
      var name := NormalizeDomain(text);
      if name.Some? {
        AddDomainRules([DomainRule(Block, name.value, false)], disabled);
        return;
      }
      r, disabled' := ParseComplexLine(lib, text, disabled);
    }

    method ParseComplexLine(lib: Library, text: string, disabled: set<string>)
      returns (r: Result<(), SyntaxError>, disabled': set<string>)
      modifies this
      ensures match ClassifyComplex(lib, text)
              case Err(e) => r == Err(e) && disabled' == disabled && Contents(disabled) == old(Contents(disabled))
              case Ok(effect) => r == Ok(()) && Contents(disabled') == Apply(effect, old(Contents(disabled)))
    {
      hide AddRules, SplitLine, ModifiersOf, RegexOf, RuleWith;
      r, disabled' := Ok(()), disabled;
      var complex := ParseComplexRule(lib, text);
      if complex.Err? {
        r := Err(complex.error);
        return;
      }
      var rule := complex.value;
      if EndsWith(rule.rawText, BADFILTER) {
        disabled' := disabled + {BadfilterTarget(rule.rawText)};
        return;
      }
      if StartsWith(text, "@@") {
        allowRules := allowRules + [rule];
      } else {
        blockRules := blockRules + [rule];
      }
    }

    /** After an error the rule sets hold what the lines before it gave. */
    method ParseRuleLines(lib: Library, lines: seq<Line>, disabled: set<string>)
      returns (r: Result<(), SyntaxError>, disabled': set<string>)
      modifies this
      ensures match Feed(Reader(lib), lines, old(Contents(disabled)))
              case Err(e) => r == Err(e)
              case Ok(g) => r == Ok(()) && Contents(disabled') == g
      ensures r.Err? ==>
              exists k :: 0 <= k < |lines| && FailsAt(Reader(lib), lines, k, r.error)
                          && Feed(Reader(lib), lines[..k], old(Contents(disabled))) == Ok(Contents(disabled'))
    {
      r, disabled' := Ok(()), disabled;
      ghost var g := Contents(disabled);
      for i := 0 to |lines|
        invariant r == Ok(())
        invariant Feed(Reader(lib), lines[..i], g) == Ok(Contents(disabled'))
      {
        FeedStep(Reader(lib), lines, i, g);
        r, disabled' := ParseRuleLine(lib, lines[i].text, lines[i].origin, disabled');
        if r.Err? {
          assert FailsAt(Reader(lib), lines, i, r.error);
          return;
        }
      }
      assert lines[..|lines|] == lines;
    }

    method RemoveTarget(target: Target, ghost disabled: set<string>)
      modifies this
      ensures Contents(disabled) ==
              old(Contents(disabled)).(index := RuleIndex.RemoveTarget(old(Contents(disabled)).index, target))
    {
      match target {
        case BlockTarget(d) =>
          blockExact := blockExact - {d};
          blockSubdomains := blockSubdomains - {d};
        case AllowTarget(d) =>
          allowExact := allowExact - {d};
          allowSubdomains := allowSubdomains - {d};
        case NameTarget(d) =>
          blockExact := blockExact - {d};
          allowExact := allowExact - {d};
        case NoTarget =>
      }
    }

    /** The disabled set is walked in whatever order; the result is one set difference. */
    method RemoveTargets(texts: set<string>, read: string -> Target, ghost disabled: set<string>)
      modifies this
      ensures Contents(disabled) ==
              var before := old(Contents(disabled));
              before.(index := Without(before.index, DisabledTargets(Image(read, texts))))
    {
      ghost var before := Contents(disabled);
      ghost var done: set<string> := {};
      var todo := texts;
      WithoutNothing(before.index, read);
      while todo != {}
        invariant done + todo == texts && done !! todo
        invariant Contents(disabled) == before.(index := Without(before.index, DisabledTargets(Image(read, done))))
        decreases |todo|
      {
        var text :| text in todo;
        RemoveTargetStep(before.index, read, done, text);
        RemoveTarget(read(text), disabled);
        done := done + {text};
        todo := todo - {text};
      }
      assert done == texts;
    }

    method ApplyBadfilters(disabled: set<string>)
      modifies this
      ensures Contents(disabled) == WithoutDisabled(old(Contents(disabled)))
    {
      RemoveTargets(disabled, TargetOf, disabled);
      blockRules := KeepRules(blockRules, disabled);
      allowRules := KeepRules(allowRules, disabled);
    }
  }

  lemma WithoutNothing(ix: Index, read: string -> Target)
    ensures Without(ix, DisabledTargets(Image(read, {}))) == ix
  {}

  method BuildRuleSets(lib: Library, lines: seq<Line>)
    returns (rules: RuleSets, r: Result<(), SyntaxError>, disabled: set<string>)
    ensures fresh(rules)
    ensures match Build(lib, lines)
            case Err(e) => r == Err(e)
            case Ok(g) => r == Ok(()) && rules.Contents(disabled) == g
  {
    rules := new RuleSets();
    r, disabled := rules.ParseRuleLines(lib, lines, {});
    if r.Ok? {
      rules.ApplyBadfilters(disabled);
    }
  }

  lemma {:induction false} KeepRulesTwice(rules: seq<MatchRule>, disabled: set<string>)
    ensures KeepRules(KeepRules(rules, disabled), disabled) == KeepRules(rules, disabled)
  {
    if rules != [] {
      var rest := KeepRules(rules[1..], disabled);
      KeepRulesTwice(rules[1..], disabled);
      assert ([rules[0]] + rest)[1..] == rest && [] + rest == rest;
    }
  }

  /** Applying the same badfilters again changes nothing. */
  lemma BadfiltersAreIdempotent(g: Gathered)
    ensures WithoutDisabled(WithoutDisabled(g)) == WithoutDisabled(g)
  {
    WithoutIsIdempotent(g.index, DisabledBy(g.disabled));
    KeepRulesTwice(g.blockRules, g.disabled);
    KeepRulesTwice(g.allowRules, g.disabled);
  }
}
