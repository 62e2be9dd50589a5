/** Which local answers a build gives: those of the user's hosts lines, and of no others. */
module LocalAnswers {
  import opened Text
  import opened Addresses
  import opened Overrides
  import opened RuleSyntax
  import opened RuleSetBuilding
  import opened BlockDecision
  import opened FilterCache

  /** The effect answers `name` with `ip`. */
  predicate Gives(effect: Effect, name: string, ip: IpAddr) {
    effect.Override? && effect.ip == ip && name in effect.domains
  }

  lemma {:induction false} EffectsAnswer(effects: seq<Effect>, g: Gathered, name: string, ip: IpAddr)
    ensures Answers(ApplyAll(effects, g).overrides, name, ip) <==>
            Answers(g.overrides, name, ip) || exists e :: e in effects && Gives(e, name, ip)
    decreases effects
  {
    hide Answers, AddOverrides;
    if effects != [] {
      var first, rest := effects[0], effects[1..];
      EffectsAnswer(rest, Apply(first, g), name, ip);
      if first.Override? { AddOverridesAnswers(first.ip, first.domains, g.overrides, name, ip); }
      assert Answers(Apply(first, g).overrides, name, ip) <==> Answers(g.overrides, name, ip) || Gives(first, name, ip);
      GivesFirst(effects, name, ip);
    }
  }

  lemma GivesFirst(effects: seq<Effect>, name: string, ip: IpAddr)
    requires effects != []
    ensures (exists e :: e in effects && Gives(e, name, ip)) <==>
            Gives(effects[0], name, ip) || exists e :: e in effects[1..] && Gives(e, name, ip)
  {
    assert forall e :: e in effects <==> e == effects[0] || e in effects[1..];
  }

  /** A build answers a name with an address exactly if some line says so. */
  lemma BuildAnswers(read: Classifier, lines: seq<Line>, name: string, ip: IpAddr)
    requires AllParse(read, lines)
    ensures BuildFrom(read, lines).Ok?
    ensures Answers(BuildFrom(read, lines).value.overrides, name, ip) <==>
            exists l :: l in lines && Gives(EffectOf(read, l), name, ip)
  {
    FeedApplies(read, lines, NOTHING_GATHERED);
    EffectsAnswer(EffectsOf(read, lines), NOTHING_GATHERED, name, ip);
    if e :| e in EffectsOf(read, lines) && Gives(e, name, ip) { EffectMembership(read, lines, e); }
    if l :| l in lines && Gives(EffectOf(read, l), name, ip) { EffectMembership(read, lines, EffectOf(read, l)); }
  }

  lemma RemoteLinesGiveNone(lib: Library, text: string, name: string, ip: IpAddr)
    ensures !Gives(EffectOf(Reader(lib), Line(text, RemoteFilter)), name, ip)
  {
    hide ParseSimpleRule, ParseHostsRule, ComplexRuleOf, StripComments;
  }

  lemma {:induction false} AllAreRemote(contents: seq<string>)
    ensures forall l :: l in AllLines(contents) ==> l.origin == RemoteFilter
  {
    if contents != [] { AllAreRemote(contents[..|contents| - 1]); }
  }

  /** The rule sets of the fetched lists and the user's rules: only hosts lines of the user's give answers. */
  lemma OnlyUsersAnswer(lib: Library, contents: seq<string>, userRules: seq<string>, name: string, ip: IpAddr)
    requires AllParse(Reader(lib), AllLines(contents) + UserLines(userRules))
    ensures Build(lib, AllLines(contents) + UserLines(userRules)).Ok?
    ensures Answers(Build(lib, AllLines(contents) + UserLines(userRules)).value.overrides, name, ip) <==>
            exists i, domains :: && 0 <= i < |userRules| && name in domains
                                 && Classify(lib, userRules[i], UserRule) == Ok(Override(ip, domains))
  {
    hide Classify, Answers, BuildFrom;
    var lines := AllLines(contents) + UserLines(userRules);
    BuildAnswers(Reader(lib), lines, name, ip);
    AllAreRemote(contents);
    if l :| l in lines && Gives(EffectOf(Reader(lib), l), name, ip) {
      if l.origin == RemoteFilter { RemoteLinesGiveNone(lib, l.text, name, ip); }
      var k :| 0 <= k < |UserLines(userRules)| && UserLines(userRules)[k] == l;
      assert Classify(lib, userRules[k], UserRule) == Ok(Override(ip, EffectOf(Reader(lib), l).domains));
    }
    if i, domains :| 0 <= i < |userRules| && name in domains
                     && Classify(lib, userRules[i], UserRule) == Ok(Override(ip, domains)) {
      var l := UserLines(userRules)[i];
      assert l in lines && Gives(EffectOf(Reader(lib), l), name, ip);
    }
  }
}
