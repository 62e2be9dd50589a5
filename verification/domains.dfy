/** Domain names as strings: normalisation, suffix matching and the parent walk. */
module Domains {
  import opened Text

  // ---------------------------------------------------------------- matching

  predicate SuffixMatch(domain: string, suffix: string) {
    || domain == suffix
    || match StripSuffix(domain, suffix) {
         case None => false
         case Some(prefix) => EndsWith(prefix, ".")
       }
  }

  datatype DomainPattern = Exact(name: string) | WildcardSuffix(suffix: string)

  predicate DomainPatternMatches(pattern: DomainPattern, domain: string) {
    match pattern
    case Exact(name) => domain == name
    case WildcardSuffix(suffix) => domain != suffix && SuffixMatch(domain, suffix)
  }

  /** By position: the name itself, or a dot and then the name at the very end. */
  lemma SuffixMatchAt(domain: string, suffix: string)
    ensures SuffixMatch(domain, suffix) <==>
            || domain == suffix
            || (&& |suffix| < |domain|
                && domain[|domain| - |suffix| - 1] == '.' && domain[|domain| - |suffix|..] == suffix)
  {}

  /** What "is a name or a child of it" means: the name itself, or anything, a dot, and the name. */
  lemma SuffixMatchMeaning(domain: string, suffix: string)
    ensures SuffixMatch(domain, suffix) <==> domain == suffix || exists p: string :: domain == p + "." + suffix
  {
    SuffixMatchAt(domain, suffix);
    if domain != suffix && SuffixMatch(domain, suffix) {
      var p := domain[..|domain| - |suffix| - 1];
      assert domain == p + "." + suffix;
    }
  }

  lemma SuffixMatchTransitive(a: string, b: string, c: string)
    requires SuffixMatch(a, b) && SuffixMatch(b, c)
    ensures SuffixMatch(a, c)
  {}

  /** The reference form of the two-set lookup: a scan over both sets. */
  ghost predicate LinearScan(exact: set<string>, subdomains: set<string>, domain: string) {
    domain in exact || exists s :: s in subdomains && SuffixMatch(domain, s)
  }

  /** One step of the parent walk: unless it is equal, a suffix of a name is a suffix of its parent. */
  lemma ParentStep(name: string, dot: nat, suffix: string)
    requires Find(name, '.') == Some(dot)
    ensures SuffixMatch(name, suffix) <==> name == suffix || SuffixMatch(name[dot + 1..], suffix)
  {
    var parent := name[dot + 1..];
    SuffixMatchAt(name, suffix);
    SuffixMatchAt(parent, suffix);
    assert forall k :: 0 <= k < dot ==> name[k] == name[..dot][k];
    var at := |name| - |suffix|;
    if at > dot {
      assert parent[at - dot - 1..] == name[at..];
    }
  }

  lemma NoParent(name: string, suffix: string)
    requires '.' !in name
    ensures SuffixMatch(name, suffix) <==> name == suffix
  {
    SuffixMatchAt(name, suffix);
  }

  /** The indexed lookup walks the parents of the name and agrees with the linear scan. */
  method DomainSetMatches(exact: set<string>, subdomains: set<string>, domain: string) returns (found: bool)
    ensures found <==> LinearScan(exact, subdomains, domain)
  {
    hide EndsWith;
    if domain in exact {
      return true;
    }
    var candidate := domain;
    while true
      invariant domain !in exact
      invariant SuffixMatch(domain, candidate)
      invariant forall s :: s in subdomains ==> (SuffixMatch(domain, s) <==> SuffixMatch(candidate, s))
      decreases |candidate|
    {
      if candidate in subdomains {
        return true;
      }
      match Find(candidate, '.') {
        case None =>
          forall s | s in subdomains ensures !SuffixMatch(candidate, s) { NoParent(candidate, s); }
          return false;
        case Some(dot) =>
          forall s | s in subdomains
            ensures SuffixMatch(candidate, s) <==> SuffixMatch(candidate[dot + 1..], s)
          {
            ParentStep(candidate, dot, s);
          }
          assert candidate == candidate[..dot] + "." + candidate[dot + 1..];
          SuffixMatchMeaning(candidate, candidate[dot + 1..]);
          SuffixMatchTransitive(domain, candidate, candidate[dot + 1..]);
          candidate := candidate[dot + 1..];
      }
    }
  }

  // ----------------------------------------------------------- normalisation

  predicate IsNameChar(c: char) {
    'a' <= c <= 'z' || '0' <= c <= '9' || c == '.' || c == '-' || c == '_'
  }

  /** The characters that survive the byte check, which runs after lower-casing. */
  predicate IsAcceptedChar(c: char) {
    IsNameChar(c) || 'A' <= c <= 'Z'
  }

  /** Blanks off, dots off both ends, leading `*.` labels off, lower case. */
  function CandidateName(input: string): (r: string)
    ensures forall i :: 0 <= i < |r| ==> !('A' <= r[i] <= 'Z')
    ensures r != "" ==> r[|r| - 1] != '.'
  {
    LowerBareName(Trim(input))
  }

  function LowerBareName(trimmed: string): (r: string)
    ensures forall i :: 0 <= i < |r| ==> !('A' <= r[i] <= 'Z')
    ensures r != "" ==> r[|r| - 1] != '.'
    ensures |r| == |BareName(trimmed)|
  {
    AsciiLower(BareName(trimmed))
  }

  function BareName(trimmed: string): (r: string)
    ensures r != "" ==> r[|r| - 1] != '.'
    ensures |r| <= |trimmed|
    ensures trimmed != "" && (trimmed[0] == '.' || trimmed[|trimmed| - 1] == '.') ==> |r| < |trimmed|
  {
    TrimStartText(TrimEndChar(TrimStartChar(trimmed, '.'), '.'), "*.")
  }

  function AcceptName(candidate: string): (r: Option<string>)
    requires forall i :: 0 <= i < |candidate| ==> !('A' <= candidate[i] <= 'Z')
    ensures r.Some? ==> r.value == candidate
    ensures r.Some? <==> candidate != "" && forall i :: 0 <= i < |candidate| ==> IsNameChar(candidate[i])
  {
    if candidate == "" || '/' in candidate || ':' in candidate || ' ' in candidate then None
    else if forall i :: 0 <= i < |candidate| ==> IsAcceptedChar(candidate[i]) then Some(candidate)
    else None
  }

  function NormalizeDomain(input: string): (r: Option<string>)
    ensures r.Some? ==> r.value != "" && r.value[|r.value| - 1] != '.'
    ensures r.Some? ==> forall i :: 0 <= i < |r.value| ==> IsNameChar(r.value[i])
  {
    AcceptName(CandidateName(input))
  }

  lemma TrimInert(s: string)
    requires s != "" && !IsWhitespace(s[0]) && !IsWhitespace(s[|s| - 1])
    ensures Trim(s) == s
  {}

  lemma BareNameInert(s: string)
    requires s != "" && s[0] != '.' && s[|s| - 1] != '.' && s[0] != '*'
    ensures BareName(s) == s
  {}

  predicate IsPlainName(name: string) {
    && name != "" && (forall i :: 0 <= i < |name| ==> IsNameChar(name[i]))
    && name[0] != '.' && name[|name| - 1] != '.'
  }

  lemma LowerInert(s: string)
    requires forall i :: 0 <= i < |s| ==> IsNameChar(s[i])
    ensures AsciiLower(s) == s
  {}

  lemma CandidateOfPlain(name: string)
    requires name != "" && forall i :: 0 <= i < |name| ==> IsNameChar(name[i])
    ensures CandidateName(name) == name <==> name[0] != '.' && name[|name| - 1] != '.'
  {
    TrimInert(name);
    LowerInert(name);
    if name[0] != '.' && name[|name| - 1] != '.' {
      BareNameInert(name);
    }
  }

  /** A name that normalises to itself is all name characters, with no dot at either end. */
  lemma NormalizedNames(name: string)
    ensures NormalizeDomain(name) == Some(name) <==> IsPlainName(name)
  {
    if name != "" && forall i :: 0 <= i < |name| ==> IsNameChar(name[i]) {
      CandidateOfPlain(name);
    }
  }
}
