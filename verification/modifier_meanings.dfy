/** What the values of `dnstype=` and `denyallow=` select, read off their texts. */
module ModifierMeanings {
  import opened Text
  import opened Domains
  import opened NameForms
  import opened RuleSyntax
  import opened BlockDecision

  // ---------------------------------------------------------------- dnstype

  ghost predicate Lists(lib: Library, values: seq<string>, rtype: nat) {
    exists i :: 0 <= i < |values| && TypeOf(lib, values[i]) == Some(rtype)
  }

  lemma KnownTypesMeaning(types: seq<Option<nat>>)
    ensures KnownTypes(types).Some? <==> forall i :: 0 <= i < |types| ==> types[i].Some?
    ensures KnownTypes(types).Some? ==>
            forall t :: t in KnownTypes(types).value <==> exists i :: 0 <= i < |types| && types[i] == Some(t)
  {}

  lemma RecordTypesMeaning(lib: Library, values: seq<string>)
    ensures RecordTypes(lib, values).Some? <==> forall i :: 0 <= i < |values| ==> TypeOf(lib, values[i]).Some?
    ensures RecordTypes(lib, values).Some? ==>
            forall rtype :: rtype in RecordTypes(lib, values).value <==> Lists(lib, values, rtype)
  {
    KnownTypesMeaning(TypesOf(lib, values));
  }

  /** All parts are negated, or none is. */
  ghost predicate Alike(values: seq<string>) {
    forall i, j :: 0 <= i < j < |values| ==> (Negated(values[i]) <==> Negated(values[j]))
  }

  lemma DnstypeCases(lib: Library, values: seq<string>)
    ensures var types := RecordTypes(lib, values);
            DnstypeOf(lib, values) ==
            if !Alike(values) || types.None? then Err(BadDnstype)
            else if values == [] || Negated(values[0]) then Ok(Exclude(types.value))
            else Ok(Include(types.value))
  {}

  /**
   * The parts of a `dnstype=` value are good if they name record types and are all negated or all
   * plain; the rule then applies to the listed types, or to all but the listed ones. Without parts
   * it applies to all.
   */
  lemma DnstypeMeaning(lib: Library, values: seq<string>, rule: MatchRule, rtype: nat)
    ensures DnstypeOf(lib, values).Ok? <==>
            Alike(values) && forall i :: 0 <= i < |values| ==> TypeOf(lib, values[i]).Some?
    ensures DnstypeOf(lib, values).Ok? && rule.dnstypes == Some(DnstypeOf(lib, values).value) ==>
            (AllowsType(rule, rtype) <==>
             if values != [] && !Negated(values[0]) then Lists(lib, values, rtype) else !Lists(lib, values, rtype))
  {
    RecordTypesMeaning(lib, values);
    DnstypeCases(lib, values);
  }

  // -------------------------------------------------------------- denyallow

  function PatternText(p: DomainPattern): string {
    match p
    case Exact(name) => name
    case WildcardSuffix(suffix) => "*." + suffix
  }

  function PatternTexts(ps: seq<DomainPattern>): (texts: seq<string>)
    ensures |texts| == |ps| && forall i :: 0 <= i < |ps| ==> texts[i] == PatternText(ps[i])
  {
    seq(|ps|, i requires 0 <= i < |ps| => PatternText(ps[i]))
  }

  function NameOf(p: DomainPattern): string {
    match p
    case Exact(name) => name
    case WildcardSuffix(suffix) => suffix
  }

  lemma WildcardBareName(name: string, s: string)
    requires IsPlainName(name) && s == "*." + name
    ensures BareName(s) == name
  {
    assert s[0] == '*' && s[|s| - 1] == name[|name| - 1];
    assert TrimEndChar(TrimStartChar(s, '.'), '.') == s;
    assert IsNameChar(name[0]) && name[0] != "*."[0];
    assert s[2..] == name;
    assert TrimStartText(name, "*.") == name;
  }

  lemma WildcardName(name: string, s: string)
    requires IsPlainName(name) && s == "*." + name
    ensures Trim(s) == s && NormalizeDomain(s) == Some(name)
  {
    assert s[|s| - 1] == name[|name| - 1] && IsNameChar(name[|name| - 1]);
    TrimInert(s);
    WildcardBareName(name, s);
    LowerInert(name);
    LowerName(s, name);
  }

  lemma LowerName(s: string, name: string)
    requires Trim(s) == s && BareName(s) == name && AsciiLower(name) == name && IsPlainName(name)
    ensures NormalizeDomain(s) == Some(name)
  {}

  lemma PatternReads(p: DomainPattern, text: string)
    requires IsPlainName(NameOf(p)) && text == PatternText(p)
    ensures ParseDomainPattern(text) == Some(p)
  {
    hide NormalizeDomain;
    match p
    case Exact(name) =>
      NormalizedNames(name);
      TrimInert(name);
      assert IsNameChar(name[0]) && name[0] != "*."[0];
    case WildcardSuffix(suffix) => WildcardName(suffix, text);
  }

  lemma CollectAll<T>(xs: seq<Option<T>>, ys: seq<T>)
    requires |xs| == |ys| && forall i :: 0 <= i < |xs| ==> xs[i] == Some(ys[i])
    ensures Collect(xs) == Some(ys)
  {
    assert Collect(xs).value == ys;
  }

  lemma PatternsCollected(texts: seq<string>, ps: seq<DomainPattern>)
    requires |texts| == |ps| && forall i :: 0 <= i < |ps| ==> ParseDomainPattern(texts[i]) == Some(ps[i])
    ensures ParseDomainPatterns(texts) == Some(ps)
  {
    CollectAll(seq(|texts|, i requires 0 <= i < |texts| => ParseDomainPattern(texts[i])), ps);
  }

  lemma PatternsRead(ps: seq<DomainPattern>)
    requires forall p :: p in ps ==> IsPlainName(NameOf(p))
    ensures ParseDomainPatterns(PatternTexts(ps)) == Some(ps)
  {
    var texts := PatternTexts(ps);
    forall i | 0 <= i < |ps| ensures ParseDomainPattern(texts[i]) == Some(ps[i]) {
      PatternReads(ps[i], texts[i]);
    }
    PatternsCollected(texts, ps);
  }

  /** The value of `denyallow=` is read back as the patterns it was written from. */
  lemma DenyallowRoundTrip(lib: Library, ps: seq<DomainPattern>, parsed: ParsedModifiers)
    requires ps != [] && forall p :: p in ps ==> IsPlainName(NameOf(p))
    ensures AddModifier(lib, "denyallow=" + Join(PatternTexts(ps), '|'), parsed) == Ok(parsed.(denyallow := ps))
  {
    var texts := PatternTexts(ps);
    forall t | t in texts ensures '|' !in t {
      var i :| 0 <= i < |texts| && texts[i] == t;
      assert forall k :: 0 <= k < |NameOf(ps[i])| ==> IsNameChar(NameOf(ps[i])[k]);
    }
    SplitJoin(texts, '|');
    PatternsRead(ps);
    var value := Join(texts, '|');
    IsDenyallow("denyallow=" + value, value);
    DenyallowValue(lib, "denyallow=" + value, value, ps, parsed);
  }

  lemma IsDenyallow(m: string, value: string)
    requires m == "denyallow=" + value
    ensures m != "" && m != "important" && m != "badfilter" && !StartsWith(m, "dnstype=")
    ensures StartsWith(m, "denyallow=") && m[10..] == value
  {
    assert m[1] == 'e' && "important"[1] == 'm' && "badfilter"[1] == 'a' && "dnstype="[1] == 'n';
  }

  lemma DenyallowValue(lib: Library, m: string, value: string, ps: seq<DomainPattern>, parsed: ParsedModifiers)
    requires m != "" && m != "important" && m != "badfilter" && !StartsWith(m, "dnstype=")
    requires StartsWith(m, "denyallow=") && m[10..] == value
    requires ParseDomainPatterns(Split(value, '|')) == Some(ps)
    ensures AddModifier(lib, m, parsed) == Ok(parsed.(denyallow := ps))
  {
    assert AddDenyallow(value, parsed) == Ok(parsed.(denyallow := ps));
  }

  lemma {:induction false} TrimEndKeepsFront(front: string, rest: string)
    requires front != "" && !IsWhitespace(front[|front| - 1])
    ensures front <= TrimEnd(front + rest)
    decreases |rest|
  {
    var s := front + rest;
    if rest == "" {
      assert s == front;
    } else if IsWhitespace(s[|s| - 1]) {
      assert s[..|s| - 1] == front + rest[..|rest| - 1];
      TrimEndKeepsFront(front, rest[..|rest| - 1]);
    }
  }

  /** Blanks and then `*.`. */
  ghost predicate StarLeads(value: string) {
    exists blank, rest :: value == blank + ("*." + rest) && Blank(blank)
  }

  lemma TrimmedStar(value: string)
    requires StartsWith(Trim(value), "*.")
    ensures StarLeads(value)
  {
    hide Trim;
    var before, after := TrimSplits(value);
    var trimmed := Trim(value);
    StarOff(trimmed);
    assert value == before + ("*." + (trimmed[2..] + after));
  }

  lemma StarOff(s: string)
    requires StartsWith(s, "*.")
    ensures s == "*." + s[2..]
  {}

  lemma StarTrims(value: string, blank: string, rest: string)
    requires value == blank + ("*." + rest) && Blank(blank)
    ensures StartsWith(Trim(value), "*.")
  {
    hide IsWhitespace, TrimStart, TrimEnd;
    BlanksFirst(blank, "*." + rest);
    StarStays(rest);
    StarIsDark();
    TrimEndKeepsFront("*.", rest);
  }

  lemma StarIsDark()
    ensures !IsWhitespace('*') && !IsWhitespace('.')
  {}

  lemma StarStays(rest: string)
    ensures TrimStart("*." + rest) == "*." + rest
  {
    assert ("*." + rest)[0] == '*';
  }

  lemma StarFirst(value: string)
    ensures StartsWith(Trim(value), "*.") <==> StarLeads(value)
  {
    hide Trim;
    if StartsWith(Trim(value), "*.") { TrimmedStar(value); }
    if blank, rest :| value == blank + ("*." + rest) && Blank(blank) { StarTrims(value, blank, rest); }
  }

  /** A text is a pattern if it normalises, to that name, and a wildcard exactly if `*.` comes first in it. */
  lemma PatternExactly(value: string, p: DomainPattern)
    ensures ParseDomainPattern(value) == Some(p) <==>
            && NormalizeDomain(value) == Some(NameOf(p))
            && (p.WildcardSuffix? <==> StarLeads(value))
  {
    hide NormalizeDomain, Trim, StarLeads;
    StarFirst(value);
  }

  /** A plain name exempts itself only; a wildcard exempts every name below, and not itself. */
  lemma DenyallowCovers(p: DomainPattern, domain: string)
    ensures DomainPatternMatches(p, domain) <==>
            match p
            case Exact(name) => domain == name
            case WildcardSuffix(suffix) => exists q: string :: domain == q + "." + suffix
  {
    if p.WildcardSuffix? { SuffixMatchMeaning(domain, p.suffix); }
  }
}
