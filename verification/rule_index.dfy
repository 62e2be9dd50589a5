/**
 * The domain index as a value: building it prunes block rules that allow rules cover, and the
 * decision it gives must not depend on the order the rules came in.
 */
module RuleIndex {
  import opened Domains
  import opened RuleSyntax

  datatype Index = Index(
    blockExact: set<string>, blockSubdomains: set<string>,
    allowExact: set<string>, allowSubdomains: set<string>)

  const EMPTY_INDEX := Index({}, {}, {}, {})

  ghost predicate IsAllowed(ix: Index, domain: string) {
    LinearScan(ix.allowExact, ix.allowSubdomains, domain)
  }

  ghost predicate IsBlocked(ix: Index, domain: string) {
    LinearScan(ix.blockExact, ix.blockSubdomains, domain)
  }

  /** The plain decision for a query: block-listed and not allow-listed. */
  ghost predicate Blocks(ix: Index, domain: string) {
    !IsAllowed(ix, domain) && IsBlocked(ix, domain)
  }

  function With(names: set<string>, name: string, condition: bool): set<string> {
    if condition then names + {name} else names
  }

  ghost function AddRule(ix: Index, rule: DomainRule): Index {
    var d := rule.domain;
    match rule.disposition
    case Allow =>
      Index(ix.blockExact - {d}, ix.blockSubdomains - {d},
            ix.allowExact + {d}, With(ix.allowSubdomains, d, rule.includeSubdomains))
    case Block =>
      if IsAllowed(ix, d) then ix
      else ix.(blockExact := ix.blockExact + {d},
               blockSubdomains := With(ix.blockSubdomains, d, rule.includeSubdomains))
  }

  ghost function AddRules(ix: Index, rules: seq<DomainRule>): Index
    decreases rules
  {
    if rules == [] then ix else AddRules(AddRule(ix, rules[0]), rules[1..])
  }

  lemma {:induction false} AddRulesAppend(ix: Index, a: seq<DomainRule>, b: seq<DomainRule>)
    ensures AddRules(ix, a + b) == AddRules(AddRules(ix, a), b)
    decreases a
  {
    if a == [] {
      assert a + b == b;
    } else {
      assert (a + b)[1..] == a[1..] + b;
      AddRulesAppend(AddRule(ix, a[0]), a[1..], b);
    }
  }

  // -------------------------------------------------- the order-free reading

  ghost predicate Covers(rule: DomainRule, domain: string) {
    domain == rule.domain || (rule.includeSubdomains && SuffixMatch(domain, rule.domain))
  }

  ghost predicate SomeRuleCovers(rules: set<DomainRule>, disposition: Disposition, domain: string) {
    exists r :: r in rules && r.disposition == disposition && Covers(r, domain)
  }

  ghost predicate Decides(rules: set<DomainRule>, domain: string) {
    SomeRuleCovers(rules, Block, domain) && !SomeRuleCovers(rules, Allow, domain)
  }

  /** What building guarantees of every allow rule. */
  ghost predicate AllowsAreWide(rules: set<DomainRule>) {
    forall r :: r in rules && r.disposition == Allow ==> r.includeSubdomains
  }

  ghost predicate Indexed(ix: Index, rule: DomainRule) {
    rule.domain in ix.blockExact && (rule.includeSubdomains ==> rule.domain in ix.blockSubdomains)
  }

  ghost predicate Names(rules: set<DomainRule>, disposition: Disposition, domain: string) {
    exists r :: r in rules && r.disposition == disposition && r.domain == domain
  }

  /** The invariant of the whole rule stream. */
  ghost predicate Represents(ix: Index, rules: set<DomainRule>) {
    && (forall d :: d in ix.allowExact <==> Names(rules, Allow, d))
    && ix.allowSubdomains == ix.allowExact
    && (forall d :: d in ix.blockExact ==> Names(rules, Block, d))
    && (forall d :: d in ix.blockSubdomains ==> DomainRule(Block, d, true) in rules)
    && (forall r :: r in rules && r.disposition == Block ==> Indexed(ix, r) || IsAllowed(ix, r.domain))
  }

  lemma AddRulePreserves(ix: Index, rules: set<DomainRule>, rule: DomainRule)
    requires Represents(ix, rules)
    requires rule.disposition == Allow ==> rule.includeSubdomains
    ensures Represents(AddRule(ix, rule), rules + {rule})
  {}

  function Elements(rules: seq<DomainRule>): set<DomainRule> {
    set r | r in rules
  }

  lemma {:induction false} AddRulesPreserves(ix: Index, before: set<DomainRule>, rules: seq<DomainRule>)
    requires Represents(ix, before)
    requires AllowsAreWide(Elements(rules))
    ensures Represents(AddRules(ix, rules), before + Elements(rules))
    decreases rules
  {
    if rules != [] {
      assert rules[0] in Elements(rules);
      AddRulePreserves(ix, before, rules[0]);
      assert Elements(rules) == {rules[0]} + Elements(rules[1..]);
      AddRulesPreserves(AddRule(ix, rules[0]), before + {rules[0]}, rules[1..]);
      assert before + {rules[0]} + Elements(rules[1..]) == before + Elements(rules);
    } else {
      assert before + Elements(rules) == before;
    }
  }

  lemma AllowedMeaning(ix: Index, rules: set<DomainRule>, domain: string)
    requires Represents(ix, rules) && AllowsAreWide(rules)
    ensures IsAllowed(ix, domain) <==> SomeRuleCovers(rules, Allow, domain)
  {}

  /** A block rule whose name is allowed can be dropped: everything it covers is allowed too. */
  lemma PrunedIsAllowed(rules: set<DomainRule>, rule: DomainRule, domain: string)
    requires AllowsAreWide(rules)
    requires SomeRuleCovers(rules, Allow, rule.domain) && Covers(rule, domain)
    ensures SomeRuleCovers(rules, Allow, domain)
  {}

  lemma RepresentsDecides(ix: Index, rules: set<DomainRule>, domain: string)
    requires Represents(ix, rules) && AllowsAreWide(rules)
    ensures Blocks(ix, domain) <==> Decides(rules, domain)
  {
    AllowedMeaning(ix, rules, domain);
    if IsBlocked(ix, domain) {
      if domain in ix.blockExact {
        assert Names(rules, Block, domain);
      } else {
        var s :| s in ix.blockSubdomains && SuffixMatch(domain, s);
        assert Covers(DomainRule(Block, s, true), domain);
      }
    }
    if r :| r in rules && r.disposition == Block && Covers(r, domain) {
      AllowedMeaning(ix, rules, r.domain);
      if IsAllowed(ix, r.domain) { PrunedIsAllowed(rules, r, domain); }
    }
  }

  /** Pruning is sound: the index decides as the unpruned, unordered set of its rules does. */
  lemma PruningIsSound(rules: seq<DomainRule>, domain: string)
    requires AllowsAreWide(Elements(rules))
    ensures Blocks(AddRules(EMPTY_INDEX, rules), domain) <==> Decides(Elements(rules), domain)
  {
    AddRulesPreserves(EMPTY_INDEX, {}, rules);
    assert {} + Elements(rules) == Elements(rules);
    RepresentsDecides(AddRules(EMPTY_INDEX, rules), Elements(rules), domain);
  }

  /** An allow rule for one name only would break this: it prunes a block rule for the names below. */
  lemma NarrowAllowsWouldLoseRules()
    ensures var rules := [DomainRule(Allow, "b", false), DomainRule(Block, "b", true)];
            !Blocks(AddRules(EMPTY_INDEX, rules), "a.b") && Decides(Elements(rules), "a.b")
  {}

  // -------------------------------------------------------------- badfilters

  /** The names a set of badfilter targets removes, by the route each target takes. */
  datatype Disabled = Disabled(blocks: set<string>, allows: set<string>, names: set<string>)

  datatype Target = BlockTarget(name: string) | AllowTarget(name: string) | NameTarget(name: string) | NoTarget

  function TargetOf(text: string): Target {
    match ParseSimpleRule(text)
    case Some(rule) => if rule.disposition == Block then BlockTarget(rule.domain) else AllowTarget(rule.domain)
    case None =>
      match NormalizeDomain(text)
      case Some(name) => NameTarget(name)
      case None => NoTarget
  }

  ghost function Image<A, B>(f: A -> B, s: set<A>): set<B> {
    set x | x in s :: f(x)
  }

  ghost function DisabledTargets(targets: set<Target>): Disabled {
    Disabled(set t | t in targets && t.BlockTarget? :: t.name,
             set t | t in targets && t.AllowTarget? :: t.name,
             set t | t in targets && t.NameTarget? :: t.name)
  }

  ghost function DisabledBy(texts: set<string>): Disabled {
    DisabledTargets(Image(TargetOf, texts))
  }

  function Without(ix: Index, off: Disabled): Index {
    Index(ix.blockExact - off.blocks - off.names, ix.blockSubdomains - off.blocks,
          ix.allowExact - off.allows - off.names, ix.allowSubdomains - off.allows)
  }

  /** One target taken out of the index. */
  function RemoveTarget(ix: Index, target: Target): Index {
    match target
    case BlockTarget(d) =>
      ix.(blockExact := ix.blockExact - {d}, blockSubdomains := ix.blockSubdomains - {d})
    case AllowTarget(d) =>
      ix.(allowExact := ix.allowExact - {d}, allowSubdomains := ix.allowSubdomains - {d})
    case NameTarget(d) => ix.(blockExact := ix.blockExact - {d}, allowExact := ix.allowExact - {d})
    case NoTarget => ix
  }

  /** Removing the targets one by one, in any order, comes to one set difference. */
  lemma RemoveTargetStep(ix: Index, read: string -> Target, done: set<string>, text: string)
    ensures RemoveTarget(Without(ix, DisabledTargets(Image(read, done))), read(text)) ==
            Without(ix, DisabledTargets(Image(read, done + {text})))
  {}

  lemma WithoutIsIdempotent(ix: Index, off: Disabled)
    ensures Without(Without(ix, off), off) == Without(ix, off)
  {}

  /** The rules that survive the badfilters, judged one by one. */
  ghost predicate Enabled(off: Disabled, rule: DomainRule) {
    match rule.disposition
    case Block => rule.domain !in off.blocks && (rule.includeSubdomains || rule.domain !in off.names)
    case Allow => rule.domain !in off.allows
  }

  ghost function EnabledRules(off: Disabled, rules: set<DomainRule>): set<DomainRule> {
    set r | r in rules && Enabled(off, r)
  }

  lemma WithoutAllowed(ix: Index, rules: set<DomainRule>, off: Disabled, domain: string)
    requires Represents(ix, rules) && AllowsAreWide(rules)
    ensures IsAllowed(Without(ix, off), domain) <==> SomeRuleCovers(EnabledRules(off, rules), Allow, domain)
  {}

  lemma WithoutBlocked(ix: Index, rules: set<DomainRule>, off: Disabled, domain: string)
    requires Represents(ix, rules)
    requires IsBlocked(Without(ix, off), domain)
    ensures SomeRuleCovers(EnabledRules(off, rules), Block, domain)
  {}

  lemma IndexedStaysEnabled(ix: Index, off: Disabled, rule: DomainRule, domain: string)
    requires rule.disposition == Block && Enabled(off, rule) && Indexed(ix, rule) && Covers(rule, domain)
    ensures IsBlocked(Without(ix, off), domain)
  {
    if rule.includeSubdomains {
      assert rule.domain in Without(ix, off).blockSubdomains && SuffixMatch(domain, rule.domain);
    }
  }

  /**
   * With badfilters on block rules and on bare names, the index still decides as the enabled rules
   * alone would, wherever the badfilter lines stood.
   */
  lemma BadfiltersDecide(rules: seq<DomainRule>, off: Disabled, domain: string)
    requires AllowsAreWide(Elements(rules))
    requires forall r :: r in rules && r.disposition == Allow ==> Enabled(off, r)
    ensures Blocks(Without(AddRules(EMPTY_INDEX, rules), off), domain)
            <==> Decides(EnabledRules(off, Elements(rules)), domain)
  {
    var ix, all := AddRules(EMPTY_INDEX, rules), Elements(rules);
    AddRulesPreserves(EMPTY_INDEX, {}, rules);
    assert {} + all == all;
    WithoutAllowed(ix, all, off, domain);
    var on := EnabledRules(off, all);
    assert SomeRuleCovers(all, Allow, domain) ==> SomeRuleCovers(on, Allow, domain);
    if IsBlocked(Without(ix, off), domain) { WithoutBlocked(ix, all, off, domain); }
    if r :| r in on && r.disposition == Block && Covers(r, domain) {
      AllowedMeaning(ix, all, r.domain);
      if IsAllowed(ix, r.domain) {
        PrunedIsAllowed(all, r, domain);
      } else {
        IndexedStaysEnabled(ix, off, r, domain);
      }
    }
  }
}
