/**
 * Disabling an allow rule does not bring back the block rules it pruned, and which ones it pruned
 * depends on the order of the rules. This module says exactly for which rules the first never
 * shows, whatever the order, and for which rules the order itself never shows.
 */
module DisabledAllows {
  import opened Text
  import opened Domains
  import opened RuleSyntax
  import opened RuleIndex

  /** Everything `rule` covers, `wide` covers as well. */
  ghost predicate Subsumes(wide: DomainRule, rule: DomainRule) {
    || (wide.includeSubdomains && SuffixMatch(rule.domain, wide.domain))
    || (!rule.includeSubdomains && wide.domain == rule.domain)
  }

  /** Losing `rule` cannot matter: it is allowed anyway, or a block rule no allow rule touches stands in for it. */
  ghost predicate Expendable(rules: set<DomainRule>, off: Disabled, rule: DomainRule) {
    var on := EnabledRules(off, rules);
    || SomeRuleCovers(on, Allow, rule.domain)
    || exists w :: && w in on && w.disposition == Block
                   && !SomeRuleCovers(rules, Allow, w.domain) && Subsumes(w, rule)
  }

  ghost predicate AllExpendable(rules: set<DomainRule>, off: Disabled) {
    forall r :: r in EnabledRules(off, rules) && r.disposition == Block ==> Expendable(rules, off, r)
  }

  /** The decision of the index built in this order, after the badfilters. */
  ghost predicate IndexBlocks(order: seq<DomainRule>, off: Disabled, domain: string) {
    Blocks(Without(AddRules(EMPTY_INDEX, order), off), domain)
  }

  /** The index built in this order, after the badfilters, decides as the enabled rules do. */
  ghost predicate DecidesAsEnabled(order: seq<DomainRule>, off: Disabled) {
    forall domain ::
      IndexBlocks(order, off, domain) <==>
      Decides(EnabledRules(off, Elements(order)), domain)
  }

  lemma SubsumedCovers(wide: DomainRule, rule: DomainRule, domain: string)
    requires Subsumes(wide, rule) && Covers(rule, domain)
    ensures Covers(wide, domain)
  {
    if wide.includeSubdomains && SuffixMatch(rule.domain, wide.domain) && domain != rule.domain {
      SuffixMatchTransitive(domain, rule.domain, wide.domain);
    }
  }

  lemma ExpendableSuffices(order: seq<DomainRule>, off: Disabled)
    requires AllowsAreWide(Elements(order)) && AllExpendable(Elements(order), off)
    ensures DecidesAsEnabled(order, off)
  {
    var ix, all := AddRules(EMPTY_INDEX, order), Elements(order);
    var on := EnabledRules(off, all);
    AddRulesPreserves(EMPTY_INDEX, {}, order);
    assert {} + all == all;
    forall domain ensures Blocks(Without(ix, off), domain) <==> Decides(on, domain) {
      WithoutAllowed(ix, all, off, domain);
      if IsBlocked(Without(ix, off), domain) { WithoutBlocked(ix, all, off, domain); }
      if r :| r in on && r.disposition == Block && Covers(r, domain) {
        if SomeRuleCovers(on, Allow, r.domain) {
          PrunedIsAllowed(on, r, domain);
        } else {
          var w :| w in on && w.disposition == Block && !SomeRuleCovers(all, Allow, w.domain) && Subsumes(w, r);
          AllowedMeaning(ix, all, w.domain);
          SubsumedCovers(w, r, domain);
          IndexedStaysEnabled(ix, off, w, domain);
        }
      }
    }
  }

  /** With every allow rule standing, every block rule is expendable. */
  lemma NothingDisabledExpendable(rules: set<DomainRule>, off: Disabled)
    requires forall r :: r in rules && r.disposition == Allow ==> Enabled(off, r)
    ensures AllExpendable(rules, off)
  {
    var on := EnabledRules(off, rules);
    forall r | r in on && r.disposition == Block ensures Expendable(rules, off, r) {
      if SomeRuleCovers(rules, Allow, r.domain) {
        var a :| a in rules && a.disposition == Allow && Covers(a, r.domain);
        assert a in on;
      } else {
        assert Subsumes(r, r);
      }
    }
  }

  // ------------------------------------------- the order that prunes the most

  function Of(rules: seq<DomainRule>, disposition: Disposition): (part: seq<DomainRule>)
    ensures forall r :: r in part <==> r in rules && r.disposition == disposition
  {
    if rules == [] then []
    else (if rules[0].disposition == disposition then [rules[0]] else []) + Of(rules[1..], disposition)
  }

  lemma {:induction false} AllowsFirstIsPermutation(rules: seq<DomainRule>)
    ensures multiset(Of(rules, Allow) + Of(rules, Block)) == multiset(rules)
  {
    if rules != [] {
      AllowsFirstIsPermutation(rules[1..]);
      assert rules == [rules[0]] + rules[1..];
    }
  }

  lemma {:induction false} AllowsAloneBlockNothing(ix: Index, rules: seq<DomainRule>)
    requires ix.blockExact == {} && ix.blockSubdomains == {}
    requires forall r :: r in rules ==> r.disposition == Allow
    ensures AddRules(ix, rules).blockExact == {} && AddRules(ix, rules).blockSubdomains == {}
    decreases rules
  {
    if rules != [] { AllowsAloneBlockNothing(AddRule(ix, rules[0]), rules[1..]); }
  }

  ghost predicate BlocksAreUnallowed(ix: Index) {
    forall d :: d in ix.blockExact + ix.blockSubdomains ==> !IsAllowed(ix, d)
  }

  lemma AddBlock(ix: Index, rule: DomainRule)
    requires BlocksAreUnallowed(ix) && rule.disposition == Block
    ensures BlocksAreUnallowed(AddRule(ix, rule))
  {
    var next := AddRule(ix, rule);
    forall d | d in next.blockExact + next.blockSubdomains ensures !IsAllowed(next, d) {
      assert d in ix.blockExact + ix.blockSubdomains || (d == rule.domain && !IsAllowed(ix, d));
      assert IsAllowed(next, d) <==> IsAllowed(ix, d);
    }
  }

  lemma {:induction false} BlocksAfterAllows(ix: Index, rules: seq<DomainRule>)
    requires BlocksAreUnallowed(ix)
    requires forall r :: r in rules ==> r.disposition == Block
    ensures BlocksAreUnallowed(AddRules(ix, rules))
    decreases rules
  {
    if rules != [] {
      AddBlock(ix, rules[0]);
      BlocksAfterAllows(AddRule(ix, rules[0]), rules[1..]);
    }
  }

  /** A dotless label longer than every name in the rules. */
  function FreshLabel(rules: seq<DomainRule>): (x: string)
    ensures '.' !in x
    ensures forall r :: r in rules ==> |r.domain| < |x|
  {
    if rules == [] then "x"
    else
      var x := FreshLabel(rules[1..]);
      if |rules[0].domain| < |x| then x else seq(|rules[0].domain| + 1, _ => 'x')
  }

  /** A child under a label no rule knows is covered only by what covers its parent. */
  lemma FreshChild(x: string, domain: string, suffix: string)
    requires '.' !in x && |suffix| < |x|
    ensures SuffixMatch(x + "." + domain, suffix) <==> SuffixMatch(domain, suffix)
  {
    var child := x + "." + domain;
    FindAfter(x, '.', domain);
    assert child == x + ['.'] + domain && child[|x| + 1..] == domain;
    ParentStep(child, |x|, suffix);
  }

  /** A query only this rule decides: its own name, or a child with a label no rule knows. */
  function Probe(rules: seq<DomainRule>, rule: DomainRule): string {
    if rule.includeSubdomains then FreshLabel(rules) + "." + rule.domain else rule.domain
  }

  lemma ProbeCovered(rules: seq<DomainRule>, rule: DomainRule, other: DomainRule)
    requires other in rules
    requires Covers(other, Probe(rules, rule))
    ensures (other.includeSubdomains && SuffixMatch(rule.domain, other.domain))
            || (!rule.includeSubdomains && other.domain == rule.domain)
  {
    if rule.includeSubdomains { FreshChild(FreshLabel(rules), rule.domain, other.domain); }
  }

  /** Allow rules, then block rules. */
  ghost predicate AllowsFirst(order: seq<DomainRule>, allows: seq<DomainRule>, blocks: seq<DomainRule>) {
    && order == allows + blocks
    && (forall r :: r in allows ==> r.disposition == Allow)
    && (forall r :: r in blocks ==> r.disposition == Block)
  }

  lemma AllowsFirstUnallowed(order: seq<DomainRule>, allows: seq<DomainRule>, blocks: seq<DomainRule>)
    requires AllowsFirst(order, allows, blocks)
    ensures BlocksAreUnallowed(AddRules(EMPTY_INDEX, order))
  {
    AllowsAloneBlockNothing(EMPTY_INDEX, allows);
    BlocksAfterAllows(AddRules(EMPTY_INDEX, allows), blocks);
    AddRulesAppend(EMPTY_INDEX, allows, blocks);
  }

  /** If the probe of a rule is blocked even with the allow rules first, the rule is expendable. */
  lemma BlockedProbe(order: seq<DomainRule>, off: Disabled, rule: DomainRule)
    requires AllowsAreWide(Elements(order)) && BlocksAreUnallowed(AddRules(EMPTY_INDEX, order))
    requires IndexBlocks(order, off, Probe(order, rule))
    ensures Expendable(Elements(order), off, rule)
  {
    var ix, all := AddRules(EMPTY_INDEX, order), Elements(order);
    AddRulesPreserves(EMPTY_INDEX, {}, order);
    assert {} + all == all;
    var w := BlockedByUnallowed(ix, all, off, Probe(order, rule));
    ProbeCovered(order, rule, w);
    AllowedMeaning(ix, all, w.domain);
    assert Subsumes(w, rule);
  }

  lemma ExpendableIsNeeded(order: seq<DomainRule>, off: Disabled, rule: DomainRule)
    requires AllowsAreWide(Elements(order)) && BlocksAreUnallowed(AddRules(EMPTY_INDEX, order))
    requires DecidesAsEnabled(order, off)
    requires rule in EnabledRules(off, Elements(order)) && rule.disposition == Block
    ensures Expendable(Elements(order), off, rule)
  {
    var on := EnabledRules(off, Elements(order));
    if !SomeRuleCovers(on, Allow, rule.domain) {
      ProbeNotAllowed(order, on, rule);
      ProbeCoveredByOwn(order, rule);
      assert Decides(on, Probe(order, rule));
      BlockedProbe(order, off, rule);
    }
  }

  lemma ProbeNotAllowed(rules: seq<DomainRule>, on: set<DomainRule>, rule: DomainRule)
    requires on <= Elements(rules) && !SomeRuleCovers(on, Allow, rule.domain)
    ensures !SomeRuleCovers(on, Allow, Probe(rules, rule))
  {
    forall a | a in on && a.disposition == Allow ensures !Covers(a, Probe(rules, rule)) {
      if Covers(a, Probe(rules, rule)) { ProbeCovered(rules, rule, a); }
    }
  }

  lemma ProbeCoveredByOwn(rules: seq<DomainRule>, rule: DomainRule)
    ensures Covers(rule, Probe(rules, rule))
  {}

  lemma BlockedByUnallowed(ix: Index, rules: set<DomainRule>, off: Disabled, domain: string) returns (w: DomainRule)
    requires Represents(ix, rules) && BlocksAreUnallowed(ix)
    requires IsBlocked(Without(ix, off), domain)
    ensures w in EnabledRules(off, rules) && w.disposition == Block && Covers(w, domain) && !IsAllowed(ix, w.domain)
  {
    var left := Without(ix, off);
    if domain in left.blockExact {
      assert Names(rules, Block, domain);
      w :| w in rules && w.disposition == Block && w.domain == domain;
    } else {
      var s :| s in left.blockSubdomains && SuffixMatch(domain, s);
      w := DomainRule(Block, s, true);
    }
  }

  /**
   * Disabling rules of either kind leaves the decision to the enabled rules, for every order of the
   * lines, if and only if every enabled block rule is expendable.
   */
  lemma DisablingAllowsExactly(rules: seq<DomainRule>, off: Disabled)
    requires AllowsAreWide(Elements(rules))
    ensures (forall order: seq<DomainRule> | multiset(order) == multiset(rules) :: DecidesAsEnabled(order, off))
            <==> AllExpendable(Elements(rules), off)
  {
    if AllExpendable(Elements(rules), off) {
      forall order: seq<DomainRule> | multiset(order) == multiset(rules) ensures DecidesAsEnabled(order, off) {
        SameElements(order, rules);
        ExpendableSuffices(order, off);
      }
    }
    if forall order: seq<DomainRule> | multiset(order) == multiset(rules) :: DecidesAsEnabled(order, off) {
      var order := Of(rules, Allow) + Of(rules, Block);
      AllowsFirstIsPermutation(rules);
      AllowsFirstUnallowed(order, Of(rules, Allow), Of(rules, Block));
      SameElements(order, rules);
      assert DecidesAsEnabled(order, off);
      forall r | r in EnabledRules(off, Elements(rules)) && r.disposition == Block
        ensures Expendable(Elements(rules), off, r)
      {
        ExpendableIsNeeded(order, off, r);
      }
    }
  }

  lemma SameElements(a: seq<DomainRule>, b: seq<DomainRule>)
    requires multiset(a) == multiset(b)
    ensures Elements(a) == Elements(b)
  {
    forall r ensures r in a <==> r in b {
      assert r in a <==> r in multiset(a);
      assert r in b <==> r in multiset(b);
    }
  }

  lemma TwoRules(first: DomainRule, second: DomainRule)
    ensures AddRules(EMPTY_INDEX, [first, second]) == AddRule(AddRule(EMPTY_INDEX, first), second)
  {
    assert [first, second][1..] == [second] && [second][1..] == [];
    assert AddRules(AddRule(EMPTY_INDEX, first), [second]) == AddRule(AddRule(EMPTY_INDEX, first), second);
  }

  /** The names an allow rule on `name` makes allowed, and a block rule on `name` indexed. */
  lemma AllowedAlone(name: string, domain: string)
    ensures IsAllowed(AddRule(EMPTY_INDEX, DomainRule(Allow, name, true)), domain) <==> SuffixMatch(domain, name)
  {}

  /** An allow and a block rule on one name, and the allow rule disabled; the block rule stays lost. */
  lemma DisabledAllowKeepsPruning(name: string)
    ensures var allowRule, blockRule := DomainRule(Allow, name, true), DomainRule(Block, name, true);
            var off := Disabled({}, {name}, {});
            && !IndexBlocks([allowRule, blockRule], off, name)
            && Decides(EnabledRules(off, {allowRule, blockRule}), name)
  {
    var allowRule, blockRule := DomainRule(Allow, name, true), DomainRule(Block, name, true);
    var first := AddRule(EMPTY_INDEX, allowRule);
    TwoRules(allowRule, blockRule);
    AllowedAlone(name, name);
    assert AddRule(first, blockRule) == first;
    assert blockRule in EnabledRules(Disabled({}, {name}, {}), {allowRule, blockRule}) && Covers(blockRule, name);
  }

  // --------------------------------------------------- when the order matters

  /** A block rule whose own name an allow rule carries is lost in every order; the others are lasting. */
  ghost predicate Lasting(rules: set<DomainRule>, rule: DomainRule) {
    rule.disposition == Block ==> !Names(rules, Allow, rule.domain)
  }

  ghost function LastingRules(rules: set<DomainRule>): set<DomainRule> {
    set r | r in rules && Lasting(rules, r)
  }

  ghost predicate OrderFree(rules: set<DomainRule>, off: Disabled) {
    forall r :: r in EnabledRules(off, rules) && r.disposition == Block && Lasting(rules, r) ==>
      Expendable(rules, off, r)
  }

  ghost predicate BlocksAreUnnamed(ix: Index) {
    ix.blockExact !! ix.allowExact && ix.blockSubdomains !! ix.allowExact
  }

  lemma {:induction false} AddRulesKeepsUnnamed(ix: Index, rules: seq<DomainRule>)
    requires BlocksAreUnnamed(ix)
    ensures BlocksAreUnnamed(AddRules(ix, rules))
    decreases rules
  {
    if rules != [] { AddRulesKeepsUnnamed(AddRule(ix, rules[0]), rules[1..]); }
  }

  lemma BlockedByLasting(ix: Index, rules: set<DomainRule>, off: Disabled, domain: string)
    requires Represents(ix, rules) && BlocksAreUnnamed(ix)
    requires IsBlocked(Without(ix, off), domain)
    ensures SomeRuleCovers(EnabledRules(off, LastingRules(rules)), Block, domain)
  {
    var left := Without(ix, off);
    var on := EnabledRules(off, LastingRules(rules));
    if domain in left.blockExact {
      assert Names(rules, Block, domain);
      var r :| r in rules && r.disposition == Block && r.domain == domain;
      assert r in on && Covers(r, domain);
    } else {
      var s :| s in left.blockSubdomains && SuffixMatch(domain, s);
      assert DomainRule(Block, s, true) in on && Covers(DomainRule(Block, s, true), domain);
    }
  }

  /** Then every order decides alike, namely as the enabled lasting rules do. */
  lemma OrderFreeSuffices(order: seq<DomainRule>, off: Disabled, domain: string)
    requires AllowsAreWide(Elements(order)) && OrderFree(Elements(order), off)
    ensures IndexBlocks(order, off, domain) <==>
            Decides(EnabledRules(off, LastingRules(Elements(order))), domain)
  {
    var ix, all := AddRules(EMPTY_INDEX, order), Elements(order);
    var on := EnabledRules(off, LastingRules(all));
    AddRulesPreserves(EMPTY_INDEX, {}, order);
    assert {} + all == all;
    AddRulesKeepsUnnamed(EMPTY_INDEX, order);
    WithoutAllowed(ix, all, off, domain);
    AllowsAreLasting(all, off, domain);
    if IsBlocked(Without(ix, off), domain) { BlockedByLasting(ix, all, off, domain); }
    if r :| r in on && r.disposition == Block && Covers(r, domain) {
      StandInBlocks(ix, all, off, r, domain);
    }
  }

  lemma AllowsAreLasting(rules: set<DomainRule>, off: Disabled, domain: string)
    ensures SomeRuleCovers(EnabledRules(off, LastingRules(rules)), Allow, domain) <==>
            SomeRuleCovers(EnabledRules(off, rules), Allow, domain)
  {
    assert forall r: DomainRule :: r.disposition == Allow ==>
      (r in EnabledRules(off, LastingRules(rules)) <==> r in EnabledRules(off, rules));
  }

  /** What an expendable rule covers is allowed, or blocked in any order. */
  lemma StandInBlocks(ix: Index, rules: set<DomainRule>, off: Disabled, rule: DomainRule, domain: string)
    requires Represents(ix, rules) && AllowsAreWide(rules)
    requires Expendable(rules, off, rule) && Covers(rule, domain)
    ensures SomeRuleCovers(EnabledRules(off, rules), Allow, domain) || IsBlocked(Without(ix, off), domain)
  {
    var on := EnabledRules(off, rules);
    if SomeRuleCovers(on, Allow, rule.domain) {
      PrunedIsAllowed(on, rule, domain);
    } else {
      var w :| w in on && w.disposition == Block && !SomeRuleCovers(rules, Allow, w.domain) && Subsumes(w, rule);
      AllowedMeaning(ix, rules, w.domain);
      SubsumedCovers(w, rule, domain);
      IndexedStaysEnabled(ix, off, w, domain);
    }
  }

  lemma {:induction false} BlocksAloneIndexed(ix: Index, rules: seq<DomainRule>, rule: DomainRule)
    requires ix.allowExact == {} && ix.allowSubdomains == {}
    requires forall r :: r in rules ==> r.disposition == Block
    requires rule.disposition == Block && (rule in rules || Indexed(ix, rule))
    ensures Indexed(AddRules(ix, rules), rule)
    decreases rules
  {
    if rules != [] {
      assert rule in rules ==> rule == rules[0] || rule in rules[1..];
      BlocksAloneIndexed(AddRule(ix, rules[0]), rules[1..], rule);
    }
  }

  lemma {:induction false} OtherAllowsKeep(ix: Index, rules: seq<DomainRule>, rule: DomainRule)
    requires Indexed(ix, rule)
    requires forall r :: r in rules ==> r.disposition == Allow && r.domain != rule.domain
    ensures Indexed(AddRules(ix, rules), rule)
    decreases rules
  {
    if rules != [] { OtherAllowsKeep(AddRule(ix, rules[0]), rules[1..], rule); }
  }

  /** With the block rules first, a lasting rule is in the index at the end. */
  lemma LastingIsIndexed(order: seq<DomainRule>, allows: seq<DomainRule>, blocks: seq<DomainRule>, rule: DomainRule)
    requires AllowsFirst(allows + blocks, allows, blocks) && order == blocks + allows
    requires rule in blocks && Lasting(Elements(order), rule)
    ensures Indexed(AddRules(EMPTY_INDEX, order), rule)
  {
    BlocksAloneIndexed(EMPTY_INDEX, blocks, rule);
    forall r | r in allows ensures r.domain != rule.domain {
      assert r in Elements(order);
    }
    OtherAllowsKeep(AddRules(EMPTY_INDEX, blocks), allows, rule);
    AddRulesAppend(EMPTY_INDEX, blocks, allows);
  }

  /** If allow rules first and block rules first decide alike, an enabled lasting block rule is expendable. */
  lemma ExtremesSuffice(allows: seq<DomainRule>, blocks: seq<DomainRule>, off: Disabled, rule: DomainRule)
    requires AllowsFirst(allows + blocks, allows, blocks) && AllowsAreWide(Elements(allows + blocks))
    requires forall domain :: IndexBlocks(allows + blocks, off, domain) <==>
                              IndexBlocks(blocks + allows, off, domain)
    requires rule in EnabledRules(off, Elements(allows + blocks)) && rule.disposition == Block
    requires Lasting(Elements(allows + blocks), rule)
    ensures Expendable(Elements(allows + blocks), off, rule)
  {
    var order, other := allows + blocks, blocks + allows;
    assert Elements(order) == Elements(other);
    var on := EnabledRules(off, Elements(order));
    if !SomeRuleCovers(on, Allow, rule.domain) {
      LastingIsIndexed(other, allows, blocks, rule);
      ProbeIsBlocked(order, other, off, rule);
      AllowsFirstUnallowed(order, allows, blocks);
      BlockedProbe(order, off, rule);
    }
  }

  lemma ProbeIsBlocked(order: seq<DomainRule>, other: seq<DomainRule>, off: Disabled, rule: DomainRule)
    requires Elements(order) == Elements(other) && AllowsAreWide(Elements(other))
    requires rule.disposition == Block && Enabled(off, rule) && Indexed(AddRules(EMPTY_INDEX, other), rule)
    requires !SomeRuleCovers(EnabledRules(off, Elements(order)), Allow, rule.domain)
    ensures IndexBlocks(other, off, Probe(order, rule))
  {
    var ix, all := AddRules(EMPTY_INDEX, other), Elements(other);
    AddRulesPreserves(EMPTY_INDEX, {}, other);
    assert {} + all == all;
    ProbeNotAllowed(order, EnabledRules(off, all), rule);
    WithoutAllowed(ix, all, off, Probe(order, rule));
    ProbeCoveredByOwn(order, rule);
    IndexedStaysEnabled(ix, off, rule, Probe(order, rule));
  }

  /** Every order of these rules decides every query as this one does. */
  ghost predicate OrderNeverShows(rules: seq<DomainRule>, off: Disabled) {
    forall order: seq<DomainRule>, domain | multiset(order) == multiset(rules) ::
      IndexBlocks(order, off, domain) <==>
      IndexBlocks(rules, off, domain)
  }

  lemma OrdersAgree(a: seq<DomainRule>, b: seq<DomainRule>, off: Disabled, domain: string)
    requires Elements(a) == Elements(b) && AllowsAreWide(Elements(a)) && OrderFree(Elements(a), off)
    ensures IndexBlocks(a, off, domain) <==> IndexBlocks(b, off, domain)
  {
    OrderFreeSuffices(a, off, domain);
    OrderFreeSuffices(b, off, domain);
  }

  /** Two orders are enough to tell: allow rules first, and block rules first. */
  lemma TwoOrdersTell(rules: seq<DomainRule>, allows: seq<DomainRule>, blocks: seq<DomainRule>, off: Disabled)
    requires AllowsFirst(allows + blocks, allows, blocks) && Elements(allows + blocks) == Elements(rules)
    requires AllowsAreWide(Elements(rules))
    requires forall domain :: IndexBlocks(allows + blocks, off, domain) <==> IndexBlocks(blocks + allows, off, domain)
    ensures OrderFree(Elements(rules), off)
  {
    forall r | r in EnabledRules(off, Elements(rules)) && r.disposition == Block && Lasting(Elements(rules), r)
      ensures Expendable(Elements(rules), off, r)
    {
      ExtremesSuffice(allows, blocks, off, r);
    }
  }

  lemma OrderFreeNeverShows(rules: seq<DomainRule>, off: Disabled)
    requires AllowsAreWide(Elements(rules)) && OrderFree(Elements(rules), off)
    ensures OrderNeverShows(rules, off)
  {
    forall order: seq<DomainRule>, domain | multiset(order) == multiset(rules)
      ensures IndexBlocks(order, off, domain) <==> IndexBlocks(rules, off, domain)
    {
      SameElements(order, rules);
      OrdersAgree(order, rules, off, domain);
    }
  }

  lemma NeverShows(rules: seq<DomainRule>, a: seq<DomainRule>, b: seq<DomainRule>, off: Disabled, domain: string)
    requires OrderNeverShows(rules, off)
    requires multiset(a) == multiset(rules) && multiset(b) == multiset(rules)
    ensures IndexBlocks(a, off, domain) <==> IndexBlocks(b, off, domain)
  {}

  lemma Extremes(rules: seq<DomainRule>) returns (allows: seq<DomainRule>, blocks: seq<DomainRule>)
    ensures AllowsFirst(allows + blocks, allows, blocks)
    ensures multiset(allows + blocks) == multiset(rules) && multiset(blocks + allows) == multiset(rules)
  {
    allows, blocks := Of(rules, Allow), Of(rules, Block);
    AllowsFirstIsPermutation(rules);
  }

  lemma NeverShowsOrderFree(rules: seq<DomainRule>, off: Disabled)
    requires AllowsAreWide(Elements(rules)) && OrderNeverShows(rules, off)
    ensures OrderFree(Elements(rules), off)
  {
    var allows, blocks := Extremes(rules);
    SameElements(allows + blocks, rules);
    forall domain ensures IndexBlocks(allows + blocks, off, domain) <==> IndexBlocks(blocks + allows, off, domain) {
      NeverShows(rules, allows + blocks, blocks + allows, off, domain);
    }
    TwoOrdersTell(rules, allows, blocks, off);
  }

  /**
   * The order of the rules never shows in a decision if and only if every enabled block rule whose
   * own name no allow rule carries, disabled or not, is expendable.
   */
  lemma OrderIsIrrelevantExactly(rules: seq<DomainRule>, off: Disabled)
    requires AllowsAreWide(Elements(rules))
    ensures OrderNeverShows(rules, off) <==> OrderFree(Elements(rules), off)
  {
    if OrderFree(Elements(rules), off) { OrderFreeNeverShows(rules, off); }
    if OrderNeverShows(rules, off) { NeverShowsOrderFree(rules, off); }
  }

  /** An allow rule on a name and a block rule below it, the allow rule disabled: the order shows. */
  lemma OrderCanMatter(name: string, child: string)
    requires child != name && SuffixMatch(child, name)
    ensures var allowRule, blockRule := DomainRule(Allow, name, true), DomainRule(Block, child, true);
            var off := Disabled({}, {name}, {});
            && IndexBlocks([blockRule, allowRule], off, child)
            && !IndexBlocks([allowRule, blockRule], off, child)
  {
    var allowRule, blockRule := DomainRule(Allow, name, true), DomainRule(Block, child, true);
    var allowed, blocked := AddRule(EMPTY_INDEX, allowRule), AddRule(EMPTY_INDEX, blockRule);
    TwoRules(allowRule, blockRule);
    TwoRules(blockRule, allowRule);
    AllowedAlone(name, child);
    assert AddRule(allowed, blockRule) == allowed;
    assert AddRule(blocked, allowRule).blockExact == {child};
  }

  /** An allow and a block rule on one name, the allow rule disabled: wrong in every order, so order does not show. */
  lemma WrongInEveryOrder(name: string)
    ensures var rules := {DomainRule(Allow, name, true), DomainRule(Block, name, true)};
            var off := Disabled({}, {name}, {});
            && OrderFree(rules, off) && !AllExpendable(rules, off)
            && Decides(EnabledRules(off, rules), name) && !Decides(EnabledRules(off, LastingRules(rules)), name)
  {
    var allowRule, blockRule := DomainRule(Allow, name, true), DomainRule(Block, name, true);
    var rules, off := {allowRule, blockRule}, Disabled({}, {name}, {});
    assert Names(rules, Allow, name) && Covers(allowRule, name) && Covers(blockRule, name);
    assert EnabledRules(off, rules) == {blockRule};
    assert EnabledRules(off, LastingRules(rules)) == {};
  }
}
