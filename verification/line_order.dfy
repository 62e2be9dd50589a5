/** Whether the order of rule lines can show: exactly when, and what the decision is if it cannot. */
module LineOrder {
  import opened RuleSyntax
  import opened RuleIndex
  import opened DisabledAllows
  import opened RuleSetBuilding
  import opened BlockDecision

  /**
   * The same lines in any order, repeated or not, build alike; and they decide every query alike if
   * every enabled block rule on a name that no allow rule carries is expendable.
   */
  lemma LineOrderIsIrrelevant(read: Classifier, lib: Library, a: seq<Line>, b: seq<Line>, domain: string, rtype: nat)
    requires ReadsWide(read)
    requires forall l :: l in a <==> l in b
    ensures BuildFrom(read, a).Ok? <==> BuildFrom(read, b).Ok?
    ensures BuildFrom(read, a).Ok? && Orderless(EffectsOf(read, a)) ==>
            (RulesBlock(lib, BuildFrom(read, a).value, domain, rtype) <==>
             RulesBlock(lib, BuildFrom(read, b).value, domain, rtype))
  {
    SameLinesSameEffects(read, a, b);
    EffectsInAnyOrder(lib, EffectsOf(read, a), EffectsOf(read, b), domain, rtype);
    BuildDecides(read, lib, a, domain, rtype);
    BuildDecides(read, lib, b, domain, rtype);
  }

  // ------------------------------------------------------ and only if they are

  /** A line gives allow rules or block rules, never both. */
  ghost predicate ReadsOneKind(read: Classifier) {
    forall l :: OneKind(RulesFrom(EffectOf(read, l)))
  }

  lemma ReaderReadsOneKind(lib: Library)
    ensures ReadsOneKind(Reader(lib))
  {}

  ghost predicate GivesAllow(read: Classifier, line: Line) {
    exists r :: r in RulesFrom(EffectOf(read, line)) && r.disposition == Allow
  }

  /** The domain index built from these lines blocks this name. */
  ghost predicate LinesBlock(read: Classifier, lines: seq<Line>, domain: string) {
    EffectsIndexBlocks(EffectsOf(read, lines), domain)
  }

  lemma LinesBlockMeaning(read: Classifier, lines: seq<Line>, domain: string)
    requires AllParse(read, lines)
    ensures BuildFrom(read, lines).Ok?
    ensures LinesBlock(read, lines, domain) <==> Blocks(BuildFrom(read, lines).value.index, domain)
  {
    FeedApplies(read, lines, NOTHING_GATHERED);
    EffectsGather(EffectsOf(read, lines), NOTHING_GATHERED);
    assert NOTHING_GATHERED.disabled + TargetsOf(EffectsOf(read, lines)) == TargetsOf(EffectsOf(read, lines));
  }

  lemma {:induction false} Separated(read: Classifier, lines: seq<Line>) returns (allows: seq<Line>, others: seq<Line>)
    ensures multiset(allows + others) == multiset(lines)
    ensures forall l :: l in allows ==> GivesAllow(read, l)
    ensures forall l :: l in others ==> !GivesAllow(read, l)
  {
    allows, others := [], [];
    if lines != [] {
      allows, others := Separated(read, lines[1..]);
      assert lines == [lines[0]] + lines[1..];
      if GivesAllow(read, lines[0]) { allows := [lines[0]] + allows; } else { others := [lines[0]] + others; }
    }
  }

  lemma RulesOfLines(read: Classifier, a: seq<Line>, b: seq<Line>)
    ensures DomainRulesOf(EffectsOf(read, a + b)) ==
            DomainRulesOf(EffectsOf(read, a)) + DomainRulesOf(EffectsOf(read, b))
  {
    hide DomainRulesOf, EffectOf;
    assert EffectsOf(read, a + b) == EffectsOf(read, a) + EffectsOf(read, b);
    RulesOfEffects(EffectsOf(read, a), EffectsOf(read, b));
  }

  lemma {:induction false} RulesOfEffects(a: seq<Effect>, b: seq<Effect>)
    ensures DomainRulesOf(a + b) == DomainRulesOf(a) + DomainRulesOf(b)
    decreases a
  {
    if a == [] {
      assert a + b == b;
    } else {
      assert (a + b)[1..] == a[1..] + b;
      RulesOfEffects(a[1..], b);
    }
  }

  lemma RuleOfLine(read: Classifier, lines: seq<Line>, r: DomainRule) returns (line: Line)
    requires r in DomainRulesOf(EffectsOf(read, lines))
    ensures line in lines && r in RulesFrom(EffectOf(read, line))
  {
    var effects := EffectsOf(read, lines);
    DomainRulesMembership(effects, r);
    var e :| e in effects && r in RulesFrom(e);
    var i :| 0 <= i < |effects| && effects[i] == e;
    line := lines[i];
  }

  lemma RuleKinds(read: Classifier, allows: seq<Line>, others: seq<Line>)
    requires ReadsOneKind(read)
    requires forall l :: l in allows ==> GivesAllow(read, l)
    requires forall l :: l in others ==> !GivesAllow(read, l)
    ensures forall r :: r in DomainRulesOf(EffectsOf(read, allows)) ==> r.disposition == Allow
    ensures forall r :: r in DomainRulesOf(EffectsOf(read, others)) ==> r.disposition == Block
  {
    forall r | r in DomainRulesOf(EffectsOf(read, allows)) ensures r.disposition == Allow {
      var line := RuleOfLine(read, allows, r);
      var q :| q in RulesFrom(EffectOf(read, line)) && q.disposition == Allow;
      assert OneKind(RulesFrom(EffectOf(read, line)));
    }
    forall r | r in DomainRulesOf(EffectsOf(read, others)) ensures r.disposition == Block {
      var line := RuleOfLine(read, others, r);
      assert !GivesAllow(read, line);
    }
  }

  lemma SameLines(a: seq<Line>, b: seq<Line>)
    requires multiset(a) == multiset(b)
    ensures forall l :: l in a <==> l in b
  {
    forall l ensures l in a <==> l in b {
      assert l in a <==> l in multiset(a);
      assert l in b <==> l in multiset(b);
    }
  }

  /** Every order of these lines gives an index that decides every name as this order's does. */
  ghost predicate LineOrderNeverShows(read: Classifier, lines: seq<Line>) {
    forall other: seq<Line>, domain | multiset(other) == multiset(lines) ::
      LinesBlock(read, other, domain) <==> LinesBlock(read, lines, domain)
  }

  lemma OrderlessNeverShows(read: Classifier, lines: seq<Line>)
    requires ReadsWide(read) && Orderless(EffectsOf(read, lines))
    ensures LineOrderNeverShows(read, lines)
  {
    forall other: seq<Line>, domain | multiset(other) == multiset(lines)
      ensures LinesBlock(read, other, domain) <==> LinesBlock(read, lines, domain)
    {
      SameLines(other, lines);
      SameLinesSameEffects(read, other, lines);
      SameRules(EffectsOf(read, other), EffectsOf(read, lines));
      AllowRulesAreWide(read, lines);
      OrdersAgree(DomainRulesOf(EffectsOf(read, other)), DomainRulesOf(EffectsOf(read, lines)),
                  DisabledBy(TargetsOf(EffectsOf(read, lines))), domain);
    }
  }

  lemma LinesSplit(read: Classifier, order: seq<Line>, lines: seq<Line>,
                   first: seq<Line>, second: seq<Line>, domain: string)
    requires order == first + second && forall l :: l in order <==> l in lines
    ensures var rules := DomainRulesOf(EffectsOf(read, first)) + DomainRulesOf(EffectsOf(read, second));
            && Elements(rules) == Elements(DomainRulesOf(EffectsOf(read, lines)))
            && (LinesBlock(read, order, domain) <==>
                IndexBlocks(rules, DisabledBy(TargetsOf(EffectsOf(read, lines))), domain))
  {
    SameLinesSameEffects(read, order, lines);
    SameRules(EffectsOf(read, order), EffectsOf(read, lines));
    RulesOfLines(read, first, second);
  }

  lemma LinesAgree(read: Classifier, lines: seq<Line>, a: seq<Line>, b: seq<Line>, domain: string)
    requires LineOrderNeverShows(read, lines)
    requires multiset(a) == multiset(lines) && multiset(b) == multiset(lines)
    ensures LinesBlock(read, a, domain) <==> LinesBlock(read, b, domain)
  {}

  lemma NeverShowsOrderless(read: Classifier, lines: seq<Line>)
    requires ReadsWide(read) && ReadsOneKind(read) && LineOrderNeverShows(read, lines)
    ensures Orderless(EffectsOf(read, lines))
  {
    var first, second := Separated(read, lines);
    var allows, blocks := DomainRulesOf(EffectsOf(read, first)), DomainRulesOf(EffectsOf(read, second));
    var rules, off := DomainRulesOf(EffectsOf(read, lines)), DisabledBy(TargetsOf(EffectsOf(read, lines)));
    RuleKinds(read, first, second);
    assert multiset(second + first) == multiset(first + second);
    SameLines(first + second, lines);
    SameLines(second + first, lines);
    forall domain ensures IndexBlocks(allows + blocks, off, domain) <==> IndexBlocks(blocks + allows, off, domain) {
      LinesSplit(read, first + second, lines, first, second, domain);
      LinesSplit(read, second + first, lines, second, first, domain);
      LinesAgree(read, lines, first + second, second + first, domain);
    }
    LinesSplit(read, first + second, lines, first, second, "");
    AllowRulesAreWide(read, lines);
    TwoOrdersTell(rules, allows, blocks, off);
  }

  /**
   * The order of the lines never shows in what the domain index decides if and only if every enabled
   * block rule on a name that no allow rule carries, disabled or not, is expendable.
   */
  lemma LineOrderExactly(read: Classifier, lines: seq<Line>)
    requires ReadsWide(read) && ReadsOneKind(read)
    ensures LineOrderNeverShows(read, lines) <==> Orderless(EffectsOf(read, lines))
  {
    if Orderless(EffectsOf(read, lines)) { OrderlessNeverShows(read, lines); }
    if LineOrderNeverShows(read, lines) { NeverShowsOrderless(read, lines); }
  }

  // ------------------------------------------------------------ and verdicts

  /** A standing rule with a pattern has a say in this query. */
  ghost predicate PatternMatches(lib: Library, effects: seq<Effect>, domain: string, rtype: nat) {
    exists disposition, important :: StandingMatch(lib, effects, disposition, important, domain, rtype)
  }

  /** What the standing rules with patterns make of the verdict of the domain index. */
  ghost predicate VerdictWith(lib: Library, effects: seq<Effect>, allowed: bool, blocked: bool,
                              domain: string, rtype: nat)
  {
    && !StandingMatch(lib, effects, Allow, true, domain, rtype)
    && (|| StandingMatch(lib, effects, Block, true, domain, rtype)
        || (&& !allowed && !StandingMatch(lib, effects, Allow, false, domain, rtype)
            && (blocked || StandingMatch(lib, effects, Block, false, domain, rtype))))
  }

  lemma VerdictOfIndex(read: Classifier, lib: Library, lines: seq<Line>, domain: string, rtype: nat)
    requires AllParse(read, lines)
    ensures BuildFrom(read, lines).Ok?
    ensures var index := BuildFrom(read, lines).value.index;
            RulesBlock(lib, BuildFrom(read, lines).value, domain, rtype) <==>
            VerdictWith(lib, EffectsOf(read, lines), IsAllowed(index, domain), IsBlocked(index, domain), domain, rtype)
  {
    var effects := EffectsOf(read, lines);
    FeedApplies(read, lines, NOTHING_GATHERED);
    EffectsGather(effects, NOTHING_GATHERED);
    var gathered := ApplyAll(effects, NOTHING_GATHERED);
    assert gathered.disabled == TargetsOf(effects);
    assert gathered.blockRules == ComplexRulesOf(effects, Block);
    assert gathered.allowRules == ComplexRulesOf(effects, Allow);
    KeptMatch(lib, effects, Allow, true, domain, rtype);
    KeptMatch(lib, effects, Allow, false, domain, rtype);
    KeptMatch(lib, effects, Block, true, domain, rtype);
    KeptMatch(lib, effects, Block, false, domain, rtype);
  }

  /** Whether the finished index allows a name does not depend on the order. */
  lemma AllowedAlike(read: Classifier, a: seq<Line>, b: seq<Line>, domain: string)
    requires ReadsWide(read) && AllParse(read, a) && AllParse(read, b) && forall l :: l in a <==> l in b
    ensures BuildFrom(read, a).Ok? && BuildFrom(read, b).Ok?
    ensures IsAllowed(BuildFrom(read, a).value.index, domain) <==> IsAllowed(BuildFrom(read, b).value.index, domain)
  {
    SameLinesSameEffects(read, a, b);
    SameRules(EffectsOf(read, a), EffectsOf(read, b));
    AllowedByStanding(read, a, domain);
    AllowedByStanding(read, b, domain);
  }

  lemma AllowedByStanding(read: Classifier, lines: seq<Line>, domain: string)
    requires ReadsWide(read) && AllParse(read, lines)
    ensures BuildFrom(read, lines).Ok?
    ensures IsAllowed(BuildFrom(read, lines).value.index, domain) <==>
            SomeRuleCovers(StandingRules(EffectsOf(read, lines)), Allow, domain)
  {
    var effects := EffectsOf(read, lines);
    FeedApplies(read, lines, NOTHING_GATHERED);
    EffectsGather(effects, NOTHING_GATHERED);
    assert NOTHING_GATHERED.disabled + TargetsOf(effects) == TargetsOf(effects);
    AllowRulesAreWide(read, lines);
    IndexAllows(DomainRulesOf(effects), DisabledBy(TargetsOf(effects)), domain);
  }

  lemma SameMatches(lib: Library, a: seq<Effect>, b: seq<Effect>, domain: string, rtype: nat)
    requires (forall e :: e in a <==> e in b) && TargetsOf(a) == TargetsOf(b)
    ensures forall disposition, important ::
              StandingMatch(lib, a, disposition, important, domain, rtype) <==>
              StandingMatch(lib, b, disposition, important, domain, rtype)
  {}

  lemma PatternCases(lib: Library, effects: seq<Effect>, domain: string, rtype: nat)
    ensures PatternMatches(lib, effects, domain, rtype) <==>
            || StandingMatch(lib, effects, Allow, true, domain, rtype)
            || StandingMatch(lib, effects, Allow, false, domain, rtype)
            || StandingMatch(lib, effects, Block, true, domain, rtype)
            || StandingMatch(lib, effects, Block, false, domain, rtype)
  {
    if disposition, important :| StandingMatch(lib, effects, disposition, important, domain, rtype) {
      assert disposition == Allow || disposition == Block;
      assert important == true || important == false;
    }
  }

  /** With a match the index has no say beyond what it allows; without one it decides. */
  lemma VerdictsCompare(lib: Library, a: seq<Effect>, b: seq<Effect>, allowed: bool, p: bool, q: bool,
                        domain: string, rtype: nat)
    requires forall disposition, important ::
               StandingMatch(lib, a, disposition, important, domain, rtype) <==>
               StandingMatch(lib, b, disposition, important, domain, rtype)
    ensures (VerdictWith(lib, a, allowed, p, domain, rtype) <==> VerdictWith(lib, b, allowed, q, domain, rtype)) <==>
            (!allowed && p <==> !allowed && q) || PatternMatches(lib, a, domain, rtype)
  {
    PatternCases(lib, a, domain, rtype);
  }

  ghost predicate BuiltBlock(read: Classifier, lib: Library, lines: seq<Line>, domain: string, rtype: nat) {
    BuildFrom(read, lines).Ok? && RulesBlock(lib, BuildFrom(read, lines).value, domain, rtype)
  }

  lemma BuiltBlockMeaning(read: Classifier, lib: Library, lines: seq<Line>, domain: string, rtype: nat)
    returns (allowed: bool, blocked: bool)
    requires AllParse(read, lines)
    ensures BuildFrom(read, lines).Ok? && allowed == IsAllowed(BuildFrom(read, lines).value.index, domain)
    ensures BuiltBlock(read, lib, lines, domain, rtype) <==>
            VerdictWith(lib, EffectsOf(read, lines), allowed, blocked, domain, rtype)
    ensures LinesBlock(read, lines, domain) <==> !allowed && blocked
  {
    VerdictOfIndex(read, lib, lines, domain, rtype);
    LinesBlockMeaning(read, lines, domain);
    allowed := IsAllowed(BuildFrom(read, lines).value.index, domain);
    blocked := IsBlocked(BuildFrom(read, lines).value.index, domain);
  }

  /**
   * For verdicts, query by query: two orders of the same lines agree if and only if their domain
   * indexes agree on the name or some standing rule with a pattern matches the query.
   */
  lemma VerdictOrderExactly(read: Classifier, lib: Library, a: seq<Line>, b: seq<Line>, domain: string, rtype: nat)
    requires ReadsWide(read) && AllParse(read, a) && AllParse(read, b) && forall l :: l in a <==> l in b
    ensures (BuiltBlock(read, lib, a, domain, rtype) <==> BuiltBlock(read, lib, b, domain, rtype)) <==>
            || (LinesBlock(read, a, domain) <==> LinesBlock(read, b, domain))
            || PatternMatches(lib, EffectsOf(read, a), domain, rtype)
  {
    var allowed, p := BuiltBlockMeaning(read, lib, a, domain, rtype);
    var allowedToo, q := BuiltBlockMeaning(read, lib, b, domain, rtype);
    AllowedAlike(read, a, b, domain);
    SameLinesSameEffects(read, a, b);
    SameRules(EffectsOf(read, a), EffectsOf(read, b));
    SameMatches(lib, EffectsOf(read, a), EffectsOf(read, b), domain, rtype);
    VerdictsCompare(lib, EffectsOf(read, a), EffectsOf(read, b), allowed, p, q, domain, rtype);
  }

  /** No order of these lines gives any query another verdict. */
  ghost predicate VerdictsNeverDiffer(read: Classifier, lib: Library, lines: seq<Line>) {
    forall other: seq<Line>, domain, rtype | multiset(other) == multiset(lines) ::
      BuiltBlock(read, lib, other, domain, rtype) <==> BuiltBlock(read, lib, lines, domain, rtype)
  }

  /** Wherever an order gives the index another decision, rules with patterns decide for every record type. */
  ghost predicate PatternsCover(read: Classifier, lib: Library, lines: seq<Line>) {
    forall other: seq<Line>, domain, rtype | multiset(other) == multiset(lines) ::
      (LinesBlock(read, other, domain) <==> LinesBlock(read, lines, domain))
      || PatternMatches(lib, EffectsOf(read, lines), domain, rtype)
  }

  /** So the order of the lines never shows in a verdict if and only if rules with patterns cover its effect. */
  lemma VerdictsNeverDifferExactly(read: Classifier, lib: Library, lines: seq<Line>)
    requires ReadsWide(read) && AllParse(read, lines)
    ensures VerdictsNeverDiffer(read, lib, lines) <==> PatternsCover(read, lib, lines)
  {
    forall other: seq<Line>, domain, rtype | multiset(other) == multiset(lines)
      ensures (BuiltBlock(read, lib, other, domain, rtype) <==> BuiltBlock(read, lib, lines, domain, rtype)) <==>
              || (LinesBlock(read, other, domain) <==> LinesBlock(read, lines, domain))
              || PatternMatches(lib, EffectsOf(read, lines), domain, rtype)
    {
      SameLines(other, lines);
      VerdictOrderExactly(read, lib, lines, other, domain, rtype);
    }
  }
}
