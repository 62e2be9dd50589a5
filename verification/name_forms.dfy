/** Which texts are accepted as a name, what the name then is, and when normalising again changes it. */
module NameForms {
  import opened Text
  import opened Domains

  function Repeated(c: char, n: nat): (s: string)
    ensures |s| == n && forall i :: 0 <= i < n ==> s[i] == c
  {
    seq(n, _ => c)
  }

  function Stars(n: nat): string {
    if n == 0 then "" else "*." + Stars(n - 1)
  }

  /** The part of an accepted text that is kept: accepted characters, no dot at the end. */
  predicate IsCore(core: string) {
    && core != "" && (forall i :: 0 <= i < |core| ==> IsAcceptedChar(core[i]))
    && core[|core| - 1] != '.'
  }

  /** The text in between the blanks. */
  function Framed(dots: nat, stars: nat, core: string, after: nat): string {
    Repeated('.', dots) + (Stars(stars) + core) + Repeated('.', after)
  }

  /** Blanks, dots, `*.` labels, the core (which brings no dot of its own if there are no labels), dots, blanks. */
  ghost predicate HasForm(input: string, core: string) {
    exists before, dots, stars, after, blank ::
      && input == before + Framed(dots, stars, core, after) + blank
      && Blank(before) && Blank(blank) && IsCore(core) && (stars == 0 ==> core[0] != '.')
  }

  // ------------------------------------------------------- from text to form

  lemma {:induction false} TrimStartSplits(s: string) returns (before: string)
    ensures s == before + TrimStart(s) && Blank(before)
  {
    before := "";
    if s != "" && IsWhitespace(s[0]) {
      var rest := TrimStartSplits(s[1..]);
      before := [s[0]] + rest;
    }
  }

  lemma {:induction false} TrimEndSplits(s: string) returns (after: string)
    ensures s == TrimEnd(s) + after && Blank(after)
  {
    after := "";
    if s != "" && IsWhitespace(s[|s| - 1]) {
      var rest := TrimEndSplits(s[..|s| - 1]);
      after := rest + [s[|s| - 1]];
    }
  }

  lemma OneMore(s: string, c: char, k: nat, rest: string)
    requires s != "" && s[0] == c && s[1..] == Repeated(c, k) + rest
    ensures s == Repeated(c, k + 1) + rest
  {
    assert s == [c] + s[1..];
    assert Repeated(c, k + 1) == [c] + Repeated(c, k);
  }

  lemma {:induction false} TrimStartCharSplits(s: string, c: char) returns (n: nat)
    ensures s == Repeated(c, n) + TrimStartChar(s, c)
  {
    hide Repeated;
    n := 0;
    if s != "" && s[0] == c {
      var k := TrimStartCharSplits(s[1..], c);
      n := k + 1;
      OneMore(s, c, k, TrimStartChar(s[1..], c));
    } else {
      assert s == Repeated(c, 0) + s;
    }
  }

  lemma OneMoreAtEnd(s: string, c: char, k: nat, rest: string)
    requires s != "" && s[|s| - 1] == c && s[..|s| - 1] == rest + Repeated(c, k)
    ensures s == rest + Repeated(c, k + 1)
  {
    assert s == s[..|s| - 1] + [c];
    assert Repeated(c, k + 1) == Repeated(c, k) + [c];
  }

  lemma {:induction false} TrimEndCharSplits(s: string, c: char) returns (n: nat)
    ensures s == TrimEndChar(s, c) + Repeated(c, n)
  {
    hide Repeated;
    n := 0;
    if s != "" && s[|s| - 1] == c {
      var k := TrimEndCharSplits(s[..|s| - 1], c);
      n := k + 1;
      OneMoreAtEnd(s, c, k, TrimEndChar(s[..|s| - 1], c));
    } else {
      assert s == s + Repeated(c, 0);
    }
  }

  lemma OneStarMore(s: string, k: nat, rest: string)
    requires StartsWith(s, "*.") && s[2..] == Stars(k) + rest
    ensures s == Stars(k + 1) + rest
  {
    assert s == "*." + s[2..];
    assert Stars(k + 1) == "*." + Stars(k);
  }

  lemma {:induction false} TrimStarsSplits(s: string) returns (n: nat)
    ensures s == Stars(n) + TrimStartText(s, "*.")
    decreases |s|
  {
    n := 0;
    if StartsWith(s, "*.") {
      var k := TrimStarsSplits(s[2..]);
      n := k + 1;
      OneStarMore(s, k, TrimStartText(s[2..], "*."));
    }
  }

  lemma LowerAccepted(core: string)
    ensures (forall i :: 0 <= i < |core| ==> IsAcceptedChar(core[i])) <==>
            forall i :: 0 <= i < |core| ==> IsNameChar(AsciiLower(core)[i])
  {
    assert forall i :: 0 <= i < |core| ==> AsciiLower(core)[i] == LowerChar(core[i]);
  }

  lemma BareNameSplits(trimmed: string) returns (dots: nat, stars: nat, after: nat)
    ensures trimmed == Framed(dots, stars, BareName(trimmed), after)
    ensures stars == 0 && BareName(trimmed) != "" ==> BareName(trimmed)[0] != '.'
  {
    var inner := TrimStartChar(trimmed, '.');
    var dotless := TrimEndChar(inner, '.');
    dots := TrimStartCharSplits(trimmed, '.');
    after := TrimEndCharSplits(inner, '.');
    stars := TrimStarsSplits(dotless);
    Nested(trimmed, inner, dotless, BareName(trimmed), dots, stars, after);
  }

  lemma Nested(s: string, inner: string, dotless: string, core: string, dots: nat, stars: nat, after: nat)
    requires s == Repeated('.', dots) + inner
    requires inner == dotless + Repeated('.', after) && dotless == Stars(stars) + core
    ensures s == Framed(dots, stars, core, after)
    ensures stars == 0 && core != "" ==> inner[0] == core[0]
  {
    assert s == Repeated('.', dots) + (dotless + Repeated('.', after));
    assert stars == 0 ==> dotless == core;
  }

  lemma FormOf(input: string, before: string, dots: nat, stars: nat, core: string, after: nat, blank: string)
    requires input == before + Framed(dots, stars, core, after) + blank
    requires Blank(before) && Blank(blank) && IsCore(core) && (stars == 0 ==> core[0] != '.')
    ensures HasForm(input, core)
  {}

  lemma AcceptedCore(input: string, name: string)
    requires NormalizeDomain(input) == Some(name)
    ensures IsCore(BareName(Trim(input))) && name == AsciiLower(BareName(Trim(input)))
  {
    LowerAccepted(BareName(Trim(input)));
  }

  lemma TrimSplits(input: string) returns (before: string, blank: string)
    ensures input == before + Trim(input) + blank && Blank(before) && Blank(blank)
  {
    before := TrimStartSplits(input);
    blank := TrimEndSplits(TrimStart(input));
  }

  lemma AcceptedHasForm(input: string, name: string) returns (core: string)
    requires NormalizeDomain(input) == Some(name)
    ensures HasForm(input, core) && name == AsciiLower(core)
  {
    core := BareName(Trim(input));
    AcceptedCore(input, name);
    var before, blank := TrimSplits(input);
    var dots, stars, after := BareNameSplits(Trim(input));
    FormOf(input, before, dots, stars, core, after, blank);
  }

  // ------------------------------------------------------- from form to text

  lemma {:induction false} TrimStartDrops(before: string, s: string)
    requires Blank(before) && s != "" && !IsWhitespace(s[0])
    ensures TrimStart(before + s) == s
  {
    if before == "" {
      assert before + s == s;
    } else {
      assert (before + s)[1..] == before[1..] + s;
      TrimStartDrops(before[1..], s);
    }
  }

  lemma {:induction false} TrimEndDrops(s: string, after: string)
    requires Blank(after) && s != "" && !IsWhitespace(s[|s| - 1])
    ensures TrimEnd(s + after) == s
  {
    if after == "" {
      assert s + after == s;
    } else {
      assert (s + after)[..|s + after| - 1] == s + after[..|after| - 1];
      TrimEndDrops(s, after[..|after| - 1]);
    }
  }

  lemma {:induction false} TrimmedStart(s: string)
    requires TrimEnd(s) != ""
    ensures TrimEnd(s)[0] == s[0]
    decreases |s|
  {
    if IsWhitespace(s[|s| - 1]) { TrimmedStart(s[..|s| - 1]); }
  }

  lemma {:induction false} TrimStartCharDrops(c: char, n: nat, s: string)
    requires s != "" && s[0] != c
    ensures TrimStartChar(Repeated(c, n) + s, c) == s
  {
    if n == 0 {
      assert Repeated(c, n) + s == s;
    } else {
      assert (Repeated(c, n) + s)[1..] == Repeated(c, n - 1) + s;
      TrimStartCharDrops(c, n - 1, s);
    }
  }

  lemma {:induction false} TrimEndCharDrops(s: string, c: char, n: nat)
    requires s != "" && s[|s| - 1] != c
    ensures TrimEndChar(s + Repeated(c, n), c) == s
  {
    var longer := s + Repeated(c, n);
    if n == 0 {
      assert longer == s;
    } else {
      assert longer[..|longer| - 1] == s + Repeated(c, n - 1);
      TrimEndCharDrops(s, c, n - 1);
    }
  }

  lemma OneStarOff(s: string, rest: string)
    requires s == "*." + rest
    ensures TrimStartText(s, "*.") == TrimStartText(rest, "*.")
  {
    assert s[2..] == rest;
  }

  lemma NoStarOff(core: string)
    requires core != "" && core[0] != '*'
    ensures TrimStartText(core, "*.") == core
  {
    assert core[0] != "*."[0];
  }

  lemma {:induction false} TrimStarsDrops(n: nat, core: string)
    requires core != "" && core[0] != '*'
    ensures TrimStartText(Stars(n) + core, "*.") == core
  {
    hide TrimStartText;
    if n == 0 {
      assert Stars(n) + core == core;
      NoStarOff(core);
    } else {
      assert Stars(n) + core == "*." + (Stars(n - 1) + core);
      OneStarOff(Stars(n) + core, Stars(n - 1) + core);
      TrimStarsDrops(n - 1, core);
    }
  }

  lemma StarredEnds(stars: nat, core: string)
    requires IsCore(core) && (stars == 0 ==> core[0] != '.')
    ensures var inner := Stars(stars) + core;
            inner != "" && inner[0] != '.' && inner[|inner| - 1] != '.' && core[0] != '*'
  {
    var inner := Stars(stars) + core;
    assert inner[0] == if stars == 0 then core[0] else '*';
    assert inner[|inner| - 1] == core[|core| - 1];
    assert IsAcceptedChar(core[0]);
  }

  lemma BareNameOf(trimmed: string, inner: string, dots: nat, after: nat)
    requires trimmed == Repeated('.', dots) + (inner + Repeated('.', after))
    requires inner != "" && inner[0] != '.' && inner[|inner| - 1] != '.'
    ensures BareName(trimmed) == TrimStartText(inner, "*.")
  {
    TrimStartCharDrops('.', dots, inner + Repeated('.', after));
    TrimEndCharDrops(inner, '.', after);
  }

  lemma FramedBareName(dots: nat, stars: nat, core: string, after: nat)
    requires IsCore(core) && (stars == 0 ==> core[0] != '.')
    ensures BareName(Framed(dots, stars, core, after)) == core
  {
    var inner := Stars(stars) + core;
    StarredEnds(stars, core);
    assert Framed(dots, stars, core, after) == Repeated('.', dots) + (inner + Repeated('.', after));
    BareNameOf(Framed(dots, stars, core, after), inner, dots, after);
    TrimStarsDrops(stars, core);
  }

  lemma FramedEnds(dots: nat, stars: nat, core: string, after: nat)
    requires IsCore(core)
    ensures var s := Framed(dots, stars, core, after);
            s != "" && !IsWhitespace(s[0]) && !IsWhitespace(s[|s| - 1])
  {
    var s := Framed(dots, stars, core, after);
    assert IsAcceptedChar(core[0]) && IsAcceptedChar(core[|core| - 1]);
    assert s[0] == if dots > 0 then '.' else if stars > 0 then '*' else core[0];
    assert s[|s| - 1] == if after > 0 then '.' else core[|core| - 1];
  }

  lemma TrimDrops(before: string, s: string, blank: string)
    requires Blank(before) && Blank(blank) && s != "" && !IsWhitespace(s[0]) && !IsWhitespace(s[|s| - 1])
    ensures Trim(before + s + blank) == s
  {
    assert before + s + blank == before + (s + blank);
    TrimStartDrops(before, s + blank);
    TrimEndDrops(s, blank);
  }

  lemma AcceptsCore(input: string, core: string)
    requires BareName(Trim(input)) == core && IsCore(core)
    ensures NormalizeDomain(input) == Some(AsciiLower(core))
  {
    LowerAccepted(core);
  }

  lemma FormIsAccepted(input: string, core: string)
    requires HasForm(input, core)
    ensures NormalizeDomain(input) == Some(AsciiLower(core))
  {
    hide Blank, Framed;
    var before, dots, stars, after, blank :|
      && input == before + Framed(dots, stars, core, after) + blank
      && Blank(before) && Blank(blank) && IsCore(core) && (stars == 0 ==> core[0] != '.');
    FramedEnds(dots, stars, core, after);
    TrimDrops(before, Framed(dots, stars, core, after), blank);
    FramedBareName(dots, stars, core, after);
    AcceptsCore(input, core);
  }

  /**
   * A text is accepted as a name exactly if it has the form above, and the name is its core in lower
   * case.
   */
  lemma NormalizeExactly(input: string, name: string)
    ensures NormalizeDomain(input) == Some(name) <==> exists core :: HasForm(input, core) && name == AsciiLower(core)
  {
    if NormalizeDomain(input) == Some(name) { var core := AcceptedHasForm(input, name); }
    if core :| HasForm(input, core) && name == AsciiLower(core) { FormIsAccepted(input, core); }
  }

  // -------------------------------------------------------- normalising again

  /** The labels at the front are `*.` and then comes an empty one. */
  predicate StarsThenDot(s: string) {
    StartsWith(s, "*..") || (StartsWith(s, "*.") && StarsThenDot(s[2..]))
  }

  /** The input between its blanks, and without the dots at its ends. */
  function Dotless(input: string): string {
    TrimEndChar(TrimStartChar(Trim(input), '.'), '.')
  }

  lemma TwoOfThree(s: string)
    ensures StartsWith(s, "*..") ==> StartsWith(s, "*.")
  {
    if StartsWith(s, "*..") { assert s[..2] == "*.."[..2] == "*."; }
  }

  lemma {:induction false} StarsThenDotMeaning(s: string)
    requires TrimStartText(s, "*.") != ""
    ensures TrimStartText(s, "*.")[0] == '.' <==> s[0] == '.' || StarsThenDot(s)
    decreases |s|
  {
    if StartsWith(s, "*.") {
      assert s[0] == "*."[0];
      assert s[2..] != "" ==> (s[2] == '.' <==> StartsWith(s, "*.."));
      StarsThenDotMeaning(s[2..]);
    } else {
      TwoOfThree(s);
    }
  }

  lemma FirstOfCandidate(input: string)
    requires CandidateName(input) != ""
    ensures CandidateName(input)[0] == '.' <==> BareName(Trim(input))[0] == '.'
  {
    assert CandidateName(input)[0] == LowerChar(BareName(Trim(input))[0]);
  }

  lemma DotlessStart(trimmed: string)
    requires BareName(trimmed) != ""
    ensures BareName(trimmed)[0] == '.' <==> StarsThenDot(TrimEndChar(TrimStartChar(trimmed, '.'), '.'))
  {
    var s := TrimEndChar(TrimStartChar(trimmed, '.'), '.');
    assert s[0] == TrimStartChar(trimmed, '.')[0];
    StarsThenDotMeaning(s);
  }

  lemma AgainUnlessDotted(input: string, name: string)
    requires NormalizeDomain(input) == Some(name)
    ensures NormalizeDomain(name) == Some(name) <==> name[0] != '.'
  {
    hide NormalizeDomain;
    NormalizedNames(name);
  }

  lemma NameStart(input: string, name: string)
    requires NormalizeDomain(input) == Some(name)
    ensures name[0] == '.' <==> StarsThenDot(Dotless(input))
  {
    FirstOfCandidate(input);
    DotlessStart(Trim(input));
  }

  /**
   * Normalising again changes nothing exactly if the input, less its blanks and outer dots, does not
   * start with `*.` labels and then a dot. The dots are trimmed before the labels are, so that dot stays.
   */
  lemma NormalizeTwice(input: string, name: string)
    requires NormalizeDomain(input) == Some(name)
    ensures NormalizeDomain(name) == Some(name) <==> !StarsThenDot(Dotless(input))
  {
    AgainUnlessDotted(input, name);
    NameStart(input, name);
  }

  lemma FormOfNameChars(input: string, core: string)
    requires HasForm(input, core) && forall i :: 0 <= i < |core| ==> IsNameChar(core[i])
    ensures NormalizeDomain(input) == Some(core)
  {
    FormIsAccepted(input, core);
    LowerInert(core);
  }

  lemma StarredNormalizes(name: string) returns (starred: string)
    requires IsPlainName(name)
    ensures starred == "*.." + name && NormalizeDomain(starred) == Some("." + name)
  {
    starred := "*.." + name;
    StarredForm(name);
    FormOfNameChars(starred, "." + name);
  }

  lemma DottedNormalizes(name: string, dotted: string)
    requires IsPlainName(name) && dotted == "." + name
    ensures NormalizeDomain(dotted) == Some(name)
  {
    DottedForm(name);
    FormOfNameChars(dotted, name);
  }

  /** A dot before a name is dropped, but not between a `*.` label and the name: `*..foo`, `.foo`, `foo`. */
  lemma NotIdempotent(name: string) returns (starred: string, dotted: string)
    requires IsPlainName(name)
    ensures starred == "*.." + name && NormalizeDomain(starred) == Some(dotted) && NormalizeDomain(dotted) == Some(name)
    ensures dotted != name
  {
    starred := StarredNormalizes(name);
    dotted := "." + name;
    DottedNormalizes(name, dotted);
  }

  lemma StarredForm(name: string)
    requires IsPlainName(name)
    ensures HasForm("*.." + name, "." + name)
  {
    var core := "." + name;
    assert Stars(1) == "*." + Stars(0);
    assert Repeated('.', 0) == "";
    assert Framed(0, 1, core, 0) == "*." + core;
    assert "*.." + name == "" + Framed(0, 1, core, 0) + "";
    FormOf("*.." + name, "", 0, 1, core, 0, "");
  }

  lemma DottedForm(name: string)
    requires IsPlainName(name)
    ensures HasForm("." + name, name)
  {
    assert Repeated('.', 0) == "" && Repeated('.', 1) == ".";
    assert Framed(1, 0, name, 0) == "." + name;
    assert "." + name == "" + Framed(1, 0, name, 0) + "";
    FormOf("." + name, "", 1, 0, name, 0, "");
  }
}
