/** The staged block lookup, and what it amounts to for the lines the rules came from. */
module BlockDecision {
  import opened Text
  import opened Domains
  import opened NameForms
  import opened Regexes
  import opened Patterns
  import opened RuleSyntax
  import opened RuleIndex
  import opened DisabledAllows
  import opened RuleSetBuilding

  predicate AllowsType(rule: MatchRule, rtype: nat) {
    match rule.dnstypes
    case None => true
    case Some(Include(types)) => rtype in types
    case Some(Exclude(types)) => rtype !in types
  }

  predicate ComplexRuleMatches(lib: Library, rule: MatchRule, domain: string, rtype: nat) {
    && AllowsType(rule, rtype)
    && !(exists p :: p in rule.denyallow && DomainPatternMatches(p, domain))
    && lib.regexMatches(rule.regex, domain)
  }

  predicate SomeMatch(lib: Library, rules: seq<MatchRule>, domain: string, rtype: nat) {
    exists r :: r in rules && ComplexRuleMatches(lib, r, domain, rtype)
  }

  predicate SomeMatchOf(lib: Library, rules: seq<MatchRule>, important: bool, domain: string, rtype: nat) {
    exists r :: r in rules && r.important == important && ComplexRuleMatches(lib, r, domain, rtype)
  }

  datatype Answer = Skip | BlockResponse

  /** The zone handler; its fields never change after it is built. */
  datatype BlockAuthority = BlockAuthority(
    blockExact: set<string>, blockSubdomains: set<string>,
    allowExact: set<string>, allowSubdomains: set<string>,
    blockRules: seq<MatchRule>, allowRules: seq<MatchRule>)
  {
    ghost function Index(): Index {
      RuleIndex.Index(blockExact, blockSubdomains, allowExact, allowSubdomains)
    }

    /**
     * Precedence: an important allow rule, then an important block rule, then whatever is normally
     * allowed, then whatever is normally blocked. The last two stages scan important rules as well,
     * which changes nothing.
     */
    method Lookup(lib: Library, domain: string, rtype: nat) returns (answer: Answer)
      ensures answer == BlockResponse <==>
              && !SomeMatchOf(lib, allowRules, true, domain, rtype)
              && (|| SomeMatchOf(lib, blockRules, true, domain, rtype)
                  || (&& !(IsAllowed(Index(), domain) || SomeMatchOf(lib, allowRules, false, domain, rtype))
                      && (IsBlocked(Index(), domain) || SomeMatchOf(lib, blockRules, false, domain, rtype))))
    {
      if SomeMatchOf(lib, allowRules, true, domain, rtype) {
        return Skip;
      }
      if SomeMatchOf(lib, blockRules, true, domain, rtype) {
        return BlockResponse;
      }
      var allowedNormal := DomainSetMatches(allowExact, allowSubdomains, domain);
      if !allowedNormal {
        allowedNormal := SomeMatch(lib, allowRules, domain, rtype);
      }
      var blockedNormal := DomainSetMatches(blockExact, blockSubdomains, domain);
      if !blockedNormal {
        blockedNormal := SomeMatch(lib, blockRules, domain, rtype);
      }
      if allowedNormal || !blockedNormal {
        return Skip;
      }
      return BlockResponse;
    }
  }

  /** The verdict of finished rule sets, as `BlockAuthority.Lookup` gives it. */
  ghost predicate RulesBlock(lib: Library, rules: Gathered, domain: string, rtype: nat) {
    && !SomeMatchOf(lib, rules.allowRules, true, domain, rtype)
    && (|| SomeMatchOf(lib, rules.blockRules, true, domain, rtype)
        || (&& !(IsAllowed(rules.index, domain) || SomeMatchOf(lib, rules.allowRules, false, domain, rtype))
            && (IsBlocked(rules.index, domain) || SomeMatchOf(lib, rules.blockRules, false, domain, rtype))))
  }

  // ----------------------------------------------- what lines ask, in no order

  ghost predicate AllParse(read: Classifier, lines: seq<Line>) {
    forall l :: l in lines ==> read(l.text, l.origin).Ok?
  }

  ghost function EffectOf(read: Classifier, line: Line): Effect {
    match read(line.text, line.origin)
    case Ok(effect) => effect
    case Err(_) => Nothing
  }

  ghost function EffectsOf(read: Classifier, lines: seq<Line>): (effects: seq<Effect>)
    ensures |effects| == |lines|
    ensures forall i :: 0 <= i < |lines| ==> effects[i] == EffectOf(read, lines[i])
  {
    seq(|lines|, i requires 0 <= i < |lines| => EffectOf(read, lines[i]))
  }

  ghost function ApplyAll(effects: seq<Effect>, g: Gathered): Gathered
    decreases effects
  {
    if effects == [] then g else ApplyAll(effects[1..], Apply(effects[0], g))
  }

  ghost function RulesFrom(effect: Effect): seq<DomainRule> {
    if effect.DomainRules? then effect.rules else []
  }

  ghost function DomainRulesOf(effects: seq<Effect>): seq<DomainRule> {
    if effects == [] then [] else RulesFrom(effects[0]) + DomainRulesOf(effects[1..])
  }

  ghost function ComplexFrom(effect: Effect, disposition: Disposition): seq<MatchRule> {
    if effect.ComplexRule? && effect.disposition == disposition then [effect.rule] else []
  }

  ghost function ComplexRulesOf(effects: seq<Effect>, disposition: Disposition): seq<MatchRule> {
    if effects == [] then [] else ComplexFrom(effects[0], disposition) + ComplexRulesOf(effects[1..], disposition)
  }

  ghost function TargetsOf(effects: seq<Effect>): set<string> {
    set e | e in effects && e.Disable? :: e.target
  }

  lemma {:induction false} DomainRulesMembership(effects: seq<Effect>, r: DomainRule)
    ensures r in DomainRulesOf(effects) <==> exists e :: e in effects && r in RulesFrom(e)
  {
    if effects != [] {
      DomainRulesMembership(effects[1..], r);
      assert forall e :: e in effects <==> e == effects[0] || e in effects[1..];
    }
  }

  lemma {:induction false} ComplexRulesMembership(effects: seq<Effect>, disposition: Disposition, r: MatchRule)
    ensures r in ComplexRulesOf(effects, disposition) <==> ComplexRule(r, disposition) in effects
  {
    if effects != [] { ComplexRulesMembership(effects[1..], disposition, r); }
  }

  ghost function TargetFrom(effect: Effect): set<string> {
    if effect.Disable? then {effect.target} else {}
  }

  /** `h` is `g` with these rules and targets added. */
  ghost predicate Extends(h: Gathered, g: Gathered, rules: seq<DomainRule>,
                          blocks: seq<MatchRule>, allows: seq<MatchRule>, targets: set<string>)
  {
    && h.index == AddRules(g.index, rules)
    && h.blockRules == g.blockRules + blocks && h.allowRules == g.allowRules + allows
    && h.disabled == g.disabled + targets
  }

  lemma ApplyExtends(effect: Effect, g: Gathered)
    ensures Extends(Apply(effect, g), g, RulesFrom(effect),
                    ComplexFrom(effect, Block), ComplexFrom(effect, Allow), TargetFrom(effect))
  {}

  lemma ExtendsTwice(g: Gathered, h: Gathered, k: Gathered,
                     r1: seq<DomainRule>, b1: seq<MatchRule>, a1: seq<MatchRule>, t1: set<string>,
                     r2: seq<DomainRule>, b2: seq<MatchRule>, a2: seq<MatchRule>, t2: set<string>)
    requires Extends(h, g, r1, b1, a1, t1) && Extends(k, h, r2, b2, a2, t2)
    ensures Extends(k, g, r1 + r2, b1 + b2, a1 + a2, t1 + t2)
  {
    AddRulesAppend(g.index, r1, r2);
  }

  lemma {:induction false} EffectsGather(effects: seq<Effect>, g: Gathered)
    ensures Extends(ApplyAll(effects, g), g, DomainRulesOf(effects),
                    ComplexRulesOf(effects, Block), ComplexRulesOf(effects, Allow), TargetsOf(effects))
    decreases effects
  {
    if effects != [] {
      var first, rest := effects[0], effects[1..];
      assert effects == [first] + rest;
      ApplyExtends(first, g);
      EffectsGather(rest, Apply(first, g));
      ExtendsTwice(g, Apply(first, g), ApplyAll(effects, g),
                   RulesFrom(first), ComplexFrom(first, Block), ComplexFrom(first, Allow), TargetFrom(first),
                   DomainRulesOf(rest), ComplexRulesOf(rest, Block), ComplexRulesOf(rest, Allow), TargetsOf(rest));
      assert TargetsOf(effects) == TargetFrom(first) + TargetsOf(rest);
    }
  }

  lemma {:induction false} FeedApplies(read: Classifier, lines: seq<Line>, g: Gathered)
    ensures Feed(read, lines, g).Ok? <==> AllParse(read, lines)
    ensures AllParse(read, lines) ==> Feed(read, lines, g) == Ok(ApplyAll(EffectsOf(read, lines), g))
    decreases lines
  {
    if lines != [] {
      var first, rest := lines[0], lines[1..];
      assert lines == [first] + rest;
      assert EffectsOf(read, lines)[1..] == EffectsOf(read, rest);
      FeedApplies(read, rest, Apply(EffectOf(read, first), g));
    }
  }

  /** The domain rules that the badfilter lines leave standing, wherever they stood. */
  ghost function StandingRules(effects: seq<Effect>): set<DomainRule> {
    EnabledRules(DisabledBy(TargetsOf(effects)), Elements(DomainRulesOf(effects)))
  }

  /** Some standing complex rule of this kind matches. */
  ghost predicate StandingMatch(lib: Library, effects: seq<Effect>, disposition: Disposition, important: bool,
                                domain: string, rtype: nat)
  {
    exists r :: && ComplexRule(r, disposition) in effects && r.rawText !in TargetsOf(effects)
                && r.important == important && ComplexRuleMatches(lib, r, domain, rtype)
  }

  /** The verdict that these domain rules give together with the standing complex rules. */
  ghost predicate Verdict(lib: Library, effects: seq<Effect>, rules: set<DomainRule>, domain: string, rtype: nat) {
    && !StandingMatch(lib, effects, Allow, true, domain, rtype)
    && (|| StandingMatch(lib, effects, Block, true, domain, rtype)
        || (&& !SomeRuleCovers(rules, Allow, domain)
            && !StandingMatch(lib, effects, Allow, false, domain, rtype)
            && (|| SomeRuleCovers(rules, Block, domain)
                || StandingMatch(lib, effects, Block, false, domain, rtype))))
  }

  /** The verdict read off the effects as an unordered collection. */
  ghost predicate EffectsBlock(lib: Library, effects: seq<Effect>, domain: string, rtype: nat) {
    Verdict(lib, effects, StandingRules(effects), domain, rtype)
  }

  /** The standing rules, less the block rules on names that an allow rule carries, disabled or not. */
  ghost function LastingStanding(effects: seq<Effect>): set<DomainRule> {
    EnabledRules(DisabledBy(TargetsOf(effects)), LastingRules(Elements(DomainRulesOf(effects))))
  }

  /** Every enabled block rule is still decided by what is enabled, even if it was pruned. */
  ghost predicate Settled(effects: seq<Effect>) {
    AllExpendable(Elements(DomainRulesOf(effects)), DisabledBy(TargetsOf(effects)))
  }

  /** The same of every enabled block rule on a name that no allow rule carries: order does not show. */
  ghost predicate Orderless(effects: seq<Effect>) {
    OrderFree(Elements(DomainRulesOf(effects)), DisabledBy(TargetsOf(effects)))
  }

  /** For instance if no badfilter takes out an allow rule that some line gives. */
  lemma StandingAllowsSettle(effects: seq<Effect>)
    requires forall r :: r in DomainRulesOf(effects) && r.disposition == Allow ==>
               Enabled(DisabledBy(TargetsOf(effects)), r)
    ensures Settled(effects)
  {
    NothingDisabledExpendable(Elements(DomainRulesOf(effects)), DisabledBy(TargetsOf(effects)));
  }

  /** A way of reading lines in which allow rules always cover the names below. */
  ghost predicate ReadsWide(read: Classifier) {
    forall text, origin | read(text, origin).Ok? && read(text, origin).value.DomainRules? ::
      AllowsCoverSubdomains(read(text, origin).value.rules)
  }

  lemma ReaderReadsWide(lib: Library)
    ensures ReadsWide(Reader(lib))
  {}

  lemma AllowRulesAreWide(read: Classifier, lines: seq<Line>)
    requires ReadsWide(read)
    ensures AllowsAreWide(Elements(DomainRulesOf(EffectsOf(read, lines))))
  {
    var effects := EffectsOf(read, lines);
    forall r | r in DomainRulesOf(effects) && r.disposition == Allow ensures r.includeSubdomains {
      DomainRulesMembership(effects, r);
      var e :| e in effects && r in RulesFrom(e);
      var i :| 0 <= i < |effects| && effects[i] == e;
      assert AllowsCoverSubdomains(e.rules);
    }
  }

  lemma IndexAllows(rules: seq<DomainRule>, off: Disabled, domain: string)
    requires AllowsAreWide(Elements(rules))
    ensures IsAllowed(Without(AddRules(EMPTY_INDEX, rules), off), domain) <==>
            SomeRuleCovers(EnabledRules(off, Elements(rules)), Allow, domain)
  {
    AddRulesPreserves(EMPTY_INDEX, {}, rules);
    assert {} + Elements(rules) == Elements(rules);
    WithoutAllowed(AddRules(EMPTY_INDEX, rules), Elements(rules), off, domain);
  }

  lemma KeptMatch(lib: Library, effects: seq<Effect>, disposition: Disposition, important: bool,
                  domain: string, rtype: nat)
    ensures var kept := KeepRules(ComplexRulesOf(effects, disposition), TargetsOf(effects));
            SomeMatchOf(lib, kept, important, domain, rtype) <==>
            StandingMatch(lib, effects, disposition, important, domain, rtype)
  {
    forall r ensures r in ComplexRulesOf(effects, disposition) <==> ComplexRule(r, disposition) in effects {
      ComplexRulesMembership(effects, disposition, r);
    }
  }

  /** The domain rules of the effects, indexed in order and with the badfilters applied, block this name. */
  ghost predicate EffectsIndexBlocks(effects: seq<Effect>, domain: string) {
    IndexBlocks(DomainRulesOf(effects), DisabledBy(TargetsOf(effects)), domain)
  }

  /** If the index decides a name as some set of rules does, so do the finished rule sets. */
  lemma GatheredDecide(lib: Library, effects: seq<Effect>, rules: set<DomainRule>, domain: string, rtype: nat)
    requires AllowsAreWide(Elements(DomainRulesOf(effects)))
    requires EffectsIndexBlocks(effects, domain) <==> Decides(rules, domain)
    requires SomeRuleCovers(rules, Allow, domain) <==> SomeRuleCovers(StandingRules(effects), Allow, domain)
    ensures var built := WithoutDisabled(ApplyAll(effects, NOTHING_GATHERED));
            RulesBlock(lib, built, domain, rtype) <==> Verdict(lib, effects, rules, domain, rtype)
  {
    EffectsGather(effects, NOTHING_GATHERED);
    var gathered := ApplyAll(effects, NOTHING_GATHERED);
    assert gathered.disabled == TargetsOf(effects);
    assert gathered.blockRules == ComplexRulesOf(effects, Block);
    assert gathered.allowRules == ComplexRulesOf(effects, Allow);
    IndexAllows(DomainRulesOf(effects), DisabledBy(TargetsOf(effects)), domain);
    KeptMatch(lib, effects, Allow, true, domain, rtype);
    KeptMatch(lib, effects, Allow, false, domain, rtype);
    KeptMatch(lib, effects, Block, true, domain, rtype);
    KeptMatch(lib, effects, Block, false, domain, rtype);
  }

  lemma SettledDecide(lib: Library, effects: seq<Effect>, domain: string, rtype: nat)
    requires AllowsAreWide(Elements(DomainRulesOf(effects))) && Settled(effects)
    ensures var built := WithoutDisabled(ApplyAll(effects, NOTHING_GATHERED));
            RulesBlock(lib, built, domain, rtype) <==> EffectsBlock(lib, effects, domain, rtype)
  {
    var rules, off := DomainRulesOf(effects), DisabledBy(TargetsOf(effects));
    ExpendableSuffices(rules, off);
    assert IndexBlocks(rules, off, domain) <==> Decides(EnabledRules(off, Elements(rules)), domain);
    GatheredDecide(lib, effects, StandingRules(effects), domain, rtype);
  }

  lemma OrderlessDecide(lib: Library, effects: seq<Effect>, domain: string, rtype: nat)
    requires AllowsAreWide(Elements(DomainRulesOf(effects))) && Orderless(effects)
    ensures var built := WithoutDisabled(ApplyAll(effects, NOTHING_GATHERED));
            RulesBlock(lib, built, domain, rtype) <==> Verdict(lib, effects, LastingStanding(effects), domain, rtype)
  {
    var rules, off := DomainRulesOf(effects), DisabledBy(TargetsOf(effects));
    OrderFreeSuffices(rules, off, domain);
    AllowsAreLasting(Elements(rules), off, domain);
    GatheredDecide(lib, effects, LastingStanding(effects), domain, rtype);
  }

  /**
   * A build fails exactly if some line does not parse. Otherwise it decides as its lines say, taken
   * as a collection, if every enabled block rule is expendable; and as its lasting rules say if only
   * those are.
   */
  lemma BuildDecides(read: Classifier, lib: Library, lines: seq<Line>, domain: string, rtype: nat)
    requires ReadsWide(read)
    ensures BuildFrom(read, lines).Ok? <==> AllParse(read, lines)
    ensures BuildFrom(read, lines).Ok? && Settled(EffectsOf(read, lines)) ==>
            (RulesBlock(lib, BuildFrom(read, lines).value, domain, rtype) <==>
             EffectsBlock(lib, EffectsOf(read, lines), domain, rtype))
    ensures BuildFrom(read, lines).Ok? && Orderless(EffectsOf(read, lines)) ==>
            (RulesBlock(lib, BuildFrom(read, lines).value, domain, rtype) <==>
             Verdict(lib, EffectsOf(read, lines), LastingStanding(EffectsOf(read, lines)), domain, rtype))
  {
    FeedApplies(read, lines, NOTHING_GATHERED);
    AllowRulesAreWide(read, lines);
    if Settled(EffectsOf(read, lines)) { SettledDecide(lib, EffectsOf(read, lines), domain, rtype); }
    if Orderless(EffectsOf(read, lines)) { OrderlessDecide(lib, EffectsOf(read, lines), domain, rtype); }
  }

  lemma EffectsInAnyOrder(lib: Library, a: seq<Effect>, b: seq<Effect>, domain: string, rtype: nat)
    requires forall e :: e in a <==> e in b
    ensures EffectsBlock(lib, a, domain, rtype) <==> EffectsBlock(lib, b, domain, rtype)
    ensures Verdict(lib, a, LastingStanding(a), domain, rtype) <==> Verdict(lib, b, LastingStanding(b), domain, rtype)
    ensures (Settled(a) <==> Settled(b)) && (Orderless(a) <==> Orderless(b))
  {
    SameRules(a, b);
  }

  lemma SameRules(a: seq<Effect>, b: seq<Effect>)
    requires forall e :: e in a <==> e in b
    ensures TargetsOf(a) == TargetsOf(b) && Elements(DomainRulesOf(a)) == Elements(DomainRulesOf(b))
  {
    forall r ensures r in DomainRulesOf(a) <==> r in DomainRulesOf(b) {
      DomainRulesMembership(a, r);
      DomainRulesMembership(b, r);
    }
  }

  lemma EffectMembership(read: Classifier, lines: seq<Line>, e: Effect)
    ensures e in EffectsOf(read, lines) <==> exists l :: l in lines && EffectOf(read, l) == e
  {}

  lemma SameLinesSameEffects(read: Classifier, a: seq<Line>, b: seq<Line>)
    requires forall l :: l in a <==> l in b
    ensures forall e :: e in EffectsOf(read, a) <==> e in EffectsOf(read, b)
  {
    forall e ensures e in EffectsOf(read, a) <==> e in EffectsOf(read, b) {
      EffectMembership(read, a, e);
      EffectMembership(read, b, e);
    }
  }

  // --------------------------------------------------------------- end to end

  /** The name a query is decided under: no trailing dots, lower case. */
  function NormalizedQueryName(ascii: string): string {
    AsciiLower(TrimEndChar(ascii, '.'))
  }

  /** `lower` is `text` with its capital letters made small. */
  predicate SameButCase(text: string, lower: string) {
    |text| == |lower| && forall i :: 0 <= i < |text| ==>
      if 'A' <= text[i] <= 'Z' then lower[i] as int == text[i] as int + 32 else lower[i] == text[i]
  }

  /** A text of a query name: the name in any case, and any number of dots after it. */
  ghost predicate SpellsName(text: string, name: string) {
    exists body: string, dots: nat ::
      text == body + Repeated('.', dots) && SameButCase(body, name) && (name == "" || name[|name| - 1] != '.')
  }

  lemma LowerIsSameButCase(text: string, lower: string)
    ensures AsciiLower(text) == lower <==> SameButCase(text, lower)
  {
    assert |text| == |lower| && SameButCase(text, lower) ==>
      forall i :: 0 <= i < |text| ==> AsciiLower(text)[i] == lower[i];
  }

  lemma {:induction false} OnlyDots(n: nat)
    ensures TrimEndChar(Repeated('.', n), '.') == ""
  {
    var s := Repeated('.', n);
    if n > 0 {
      assert s[..n - 1] == Repeated('.', n - 1);
      OnlyDots(n - 1);
    }
  }

  /** The name a query is decided under is the one its text spells. */
  lemma QueryNameExactly(text: string, name: string)
    ensures NormalizedQueryName(text) == name <==> SpellsName(text, name)
  {
    var body := TrimEndChar(text, '.');
    if NormalizedQueryName(text) == name {
      var dots := TrimEndCharSplits(text, '.');
      LowerIsSameButCase(body, name);
      assert text == body + Repeated('.', dots);
    }
    if SpellsName(text, name) {
      var front: string, dots: nat :|
        text == front + Repeated('.', dots) && SameButCase(front, name) && (name == "" || name[|name| - 1] != '.');
      LowerIsSameButCase(front, name);
      if front == "" {
        assert text == Repeated('.', dots);
        OnlyDots(dots);
      } else {
        TrimEndCharDrops(front, '.', dots);
      }
    }
  }

  /** With nothing to block or allow by pattern no handler is built, and no query would be blocked. */
  method LookupIn(lib: Library, rules: RuleSets, domain: string, rtype: nat, ghost disabled: set<string>)
    returns (answer: Answer)
    ensures answer == BlockResponse <==> RulesBlock(lib, rules.Contents(disabled), domain, rtype)
  {
    if rules.blockExact == {} && rules.blockSubdomains == {} && rules.blockRules == [] && rules.allowRules == [] {
      return Skip;
    }
    var authority := BlockAuthority(rules.blockExact, rules.blockSubdomains, rules.allowExact, rules.allowSubdomains,
                                    rules.blockRules, rules.allowRules);
    answer := authority.Lookup(lib, domain, rtype);
  }

  /**
   * From rule lines to the answer of a query. Building fails exactly if some line does not parse;
   * otherwise the answer for the name that the query's text spells is what the lines say as an
   * unordered collection, or, if that is all that can be said, what their lasting rules say.
   */
  method AnswerQuery(lib: Library, lines: seq<Line>, text: string, rtype: nat) returns (r: Result<Answer, SyntaxError>)
    ensures r.Ok? <==> AllParse(Reader(lib), lines)
    ensures r.Ok? ==>
            var effects := EffectsOf(Reader(lib), lines);
            forall name | SpellsName(text, name) ::
              && (Settled(effects) ==> (r.value == BlockResponse <==> EffectsBlock(lib, effects, name, rtype)))
              && (Orderless(effects) ==>
                    (r.value == BlockResponse <==> Verdict(lib, effects, LastingStanding(effects), name, rtype)))
  {
    hide SpellsName, NormalizedQueryName, Settled, Orderless, EffectsBlock, Verdict, RulesBlock;
    var rules, built, disabled := BuildRuleSets(lib, lines);
    FeedApplies(Reader(lib), lines, NOTHING_GATHERED);
    if built.Err? {
      return Err(built.error);
    }
    var domain := NormalizedQueryName(text);
    var answer := LookupIn(lib, rules, domain, rtype, disabled);
    ReaderReadsWide(lib);
    BuildDecides(Reader(lib), lib, lines, domain, rtype);
    forall name | SpellsName(text, name) ensures name == domain { QueryNameExactly(text, name); }
    return Ok(answer);
  }

  // ------------------------------------------------------- generated regexes

  /** If the engine is a textbook one on it, a compiled pattern is valid and matches what the pattern accepts. */
  lemma GeneratedRegexes(lib: Library, pattern: string, domain: string)
    requires Textbook(lib, RegexText(pattern))
    ensures lib.validRegex(RegexText(pattern))
    ensures lib.regexMatches(RegexText(pattern), domain) <==> Accepts(pattern, domain)
  {
    CompilerCorrect(pattern);
    var re :| Parse(RegexText(pattern)) == Some(re) && forall s :: IsMatch(re, s) <==> Accepts(pattern, s);
  }
}
