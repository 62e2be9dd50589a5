/**
 * Filter patterns (`||ads.example.com^`, `|load.gtm.`, `.bbelements.com^`, `ac*.786ip.com`), read
 * directly and compiled to regular-expression text, and the proof that the two agree.
 */
module Patterns {
  import opened Text
  import opened Regexes
  import opened Domains

  // ------------------------------------------------------ the direct reading

  datatype Anchor = AtLabel | AtStart | Anywhere

  /** Where the pattern may begin, and what is left of it. */
  function SplitAnchor(pattern: string): (Anchor, string) {
    if StartsWith(pattern, "||") then (AtLabel, pattern[2..])
    else if StartsWith(pattern, "|") then (AtStart, pattern[1..])
    else if StartsWith(pattern, ".") then (AtLabel, pattern[1..])
    else (Anywhere, pattern)
  }

  ghost predicate MayStart(anchor: Anchor, s: string, i: nat)
    requires i <= |s|
  {
    match anchor
    case AtLabel => i == 0 || (s[i - 1] == '.' && NewlineFree(s, 0, i - 1))
    case AtStart => i == 0
    case Anywhere => NewlineFree(s, 0, i)
  }

  /** The rest of the pattern accepts `s` from position `i` on; what follows the pattern is free. */
  ghost predicate BodyAccepts(body: string, s: string, i: nat)
    requires i <= |s|
    decreases body
  {
    if body == "" then NewlineFree(s, i, |s|)
    else if body == "|" then i == |s|
    else if body[0] == '*' then
      exists k :: i <= k <= |s| && NewlineFree(s, i, k) && BodyAccepts(body[1..], s, k)
    else if body[0] == '^' || body[0] == '$' then i == |s| && BodyAccepts(body[1..], s, i)
    else i < |s| && s[i] == body[0] && BodyAccepts(body[1..], s, i + 1)
  }

  ghost predicate Accepts(pattern: string, s: string) {
    var (anchor, body) := SplitAnchor(pattern);
    exists i :: 0 <= i <= |s| && MayStart(anchor, s, i) && BodyAccepts(body, s, i)
  }

  /** The regex text parses, and a search with it accepts exactly what the pattern accepts. */
  ghost predicate MeansPattern(regex: string, pattern: string) {
    exists re :: Parse(regex) == Some(re) && forall s :: IsMatch(re, s) <==> Accepts(pattern, s)
  }

  // ------------------------------------------------------------ the compiler

  predicate IsEscaped(c: char) {
    || c == '?' || c == '+' || c == '(' || c == ')' || c == '[' || c == ']' || c == '{' || c == '}' || c == '\\'
  }

  function TokenText(c: char, last: bool): (t: string)
    ensures t != ""
  {
    if last && c == '|' then "$"
    else if c == '*' then ".*"
    else if c == '^' then "$"
    else if c == '.' then "\\."
    else if IsEscaped(c) then ['\\', c]
    else if c == '|' then "\\|"
    else [c]
  }

  function BodyText(body: string): string {
    if body == "" then "" else TokenText(body[0], |body| == 1) + BodyText(body[1..])
  }

  function AnchorText(pattern: string): string {
    if StartsWith(pattern, "||") then "(?:^|.*\\.)"
    else if StartsWith(pattern, "|") then ""
    else if StartsWith(pattern, ".") then "(?:.*\\.)?"
    else ".*"
  }

  function HeadText(pattern: string): string {
    "^" + AnchorText(pattern)
  }

  function RegexText(pattern: string): string {
    var text := HeadText(pattern) + BodyText(SplitAnchor(pattern).1);
    if EndsWith(text, "$") then text else text + ".*$"
  }

  lemma BodyTextStep(before: string, chars: string, i: nat)
    requires i < |chars|
    ensures before + BodyText(chars[i..]) ==
            (before + TokenText(chars[i], i + 1 == |chars|)) + BodyText(chars[i + 1..])
  {}

  /** The compiler loop; its text parses, and searches accept what the pattern accepts. */
  method AdblockPatternToRegex(pattern: string) returns (regex: string)
    ensures regex == RegexText(pattern)
    ensures MeansPattern(regex, pattern)
  {
    regex := "^";
    var chars := pattern;
    var i := 0;
    if StartsWith(pattern, "||") {
      regex := regex + "(?:^|.*\\.)";
      i := 2;
    } else if StartsWith(pattern, "|") {
      i := 1;
    } else if StartsWith(pattern, ".") {
      regex := regex + "(?:.*\\.)?";
      i := 1;
    } else {
      regex := regex + ".*";
    }
    ghost var whole := HeadText(pattern) + BodyText(SplitAnchor(pattern).1);
    assert regex == HeadText(pattern);
    while i < |chars|
      invariant 0 <= i <= |chars|
      invariant regex + BodyText(chars[i..]) == whole
    {
      ghost var before := regex;
      var last := i + 1 == |chars|;
      BodyTextStep(before, chars, i);
      if last && chars[i] == '|' {
        regex := regex + "$";
      } else if chars[i] == '*' {
        regex := regex + ".*";
      } else if chars[i] == '^' {
        regex := regex + "$";
      } else if chars[i] == '.' {
        regex := regex + "\\.";
      } else if IsEscaped(chars[i]) {
        regex := regex + ['\\'];
        regex := regex + [chars[i]];
        assert before + ['\\'] + [chars[i]] == before + ['\\', chars[i]];
      } else if chars[i] == '|' {
        regex := regex + "\\|";
      } else {
        regex := regex + [chars[i]];
      }
      assert regex == before + TokenText(chars[i], last);
      i := i + 1;
    }
    assert regex == whole;
    if !EndsWith(regex, "$") {
      regex := regex + ".*$";
    }
    CompilerCorrect(pattern);
  }

  // ------------------------------------------------- the text parses as meant

  function TokenTree(c: char, last: bool): Regex {
    if last && c == '|' then End
    else if c == '*' then Star(AnyChar)
    else if c == '^' || c == '$' then End
    else Literal(c)
  }

  function TailText(open: bool): string {
    if open then ".*$" else ""
  }

  function BodyTree(body: string, open: bool): Regex {
    if body != "" then Concat(TokenTree(body[0], |body| == 1), BodyTree(body[1..], open))
    else if open then Concat(Star(AnyChar), Concat(End, Empty))
    else Empty
  }

  const THROUGH_DOT := Concat(Star(AnyChar), Concat(Literal('.'), Empty))

  function HeadTree(pattern: string, body: Regex): Regex {
    if StartsWith(pattern, "||") then
      Concat(Start, Concat(Alternate(Concat(Start, Empty), THROUGH_DOT), body))
    else if StartsWith(pattern, "|") then Concat(Start, body)
    else if StartsWith(pattern, ".") then Concat(Start, Concat(Optional(THROUGH_DOT), body))
    else Concat(Start, Concat(Star(AnyChar), body))
  }

  /** The emitted text gets an open tail unless the last character of the body is an end mark. */
  predicate Open(body: string) {
    body == "" || (var last := body[|body| - 1]; last != '^' && last != '$' && last != '|')
  }

  function PatternTree(pattern: string): Regex {
    var body := SplitAnchor(pattern).1;
    HeadTree(pattern, BodyTree(body, Open(body)))
  }

  lemma TokenEnd(c: char, last: bool)
    ensures var t := TokenText(c, last); t[|t| - 1] == '$' <==> c == '^' || c == '$' || (last && c == '|')
  {}

  lemma {:induction false} LastOfBody(body: string)
    requires body != ""
    ensures BodyText(body) != "" && (BodyText(body)[|BodyText(body)| - 1] == '$' <==> !Open(body))
  {
    hide TokenText;
    var token := TokenText(body[0], |body| == 1);
    if |body| == 1 {
      TokenEnd(body[0], true);
      assert BodyText(body[1..]) == "" && BodyText(body) == token;
    } else {
      LastOfBody(body[1..]);
      assert BodyText(body) == token + BodyText(body[1..]);
    }
  }

  lemma LastOfHead(pattern: string)
    ensures HeadText(pattern) != "" && HeadText(pattern)[|HeadText(pattern)| - 1] != '$'
  {}

  lemma RegexTextTail(pattern: string)
    ensures var body := SplitAnchor(pattern).1;
            RegexText(pattern) == HeadText(pattern) + (BodyText(body) + TailText(Open(body)))
  {
    var head, body := HeadText(pattern), SplitAnchor(pattern).1;
    LastOfHead(pattern);
    if body != "" { LastOfBody(body); }
    EndsWithDollar(head, BodyText(body));
    assert head + (BodyText(body) + "") == head + BodyText(body);
  }

  lemma EndsWithDollar(head: string, body: string)
    requires head != "" && head[|head| - 1] != '$'
    ensures EndsWith(head + body, "$") <==> body != "" && body[|body| - 1] == '$'
  {
    var text := head + body;
    assert EndsWith(text, "$") <==> text[|text| - 1] == '$';
  }

  lemma ParseToken(c: char, last: bool, rest: string)
    requires NoQuantifierAhead(rest)
    ensures var text := TokenText(c, last) + rest;
            && ParseRepeat(text) == Some((TokenTree(c, last), rest))
            && text[0] != '|' && text[0] != ')' && !IsQuantifier(text[0])
  {}

  lemma ParseTokenThen(c: char, last: bool, rest: string, tree: Regex)
    requires NoQuantifierAhead(rest) && ParseSequence(rest) == Some((tree, ""))
    ensures var text := TokenText(c, last) + rest;
            ParseSequence(text) == Some((Concat(TokenTree(c, last), tree), "")) && NoQuantifierAhead(text)
  {
    ParseToken(c, last, rest);
    SequenceStep(TokenText(c, last) + rest, TokenTree(c, last), rest, tree, "");
  }

  lemma BodyTextFirst(body: string, tail: string)
    requires body != ""
    ensures BodyText(body) + tail == TokenText(body[0], |body| == 1) + (BodyText(body[1..]) + tail)
  {
    hide TokenText;
  }

  lemma {:induction false} ParseBody(body: string, open: bool, text: string)
    requires text == BodyText(body) + TailText(open)
    ensures ParseSequence(text) == Some((BodyTree(body, open), "")) && NoQuantifierAhead(text)
  {
    if body != "" {
      var rest := BodyText(body[1..]) + TailText(open);
      ParseBody(body[1..], open, rest);
      ParseTokenThen(body[0], |body| == 1, rest, BodyTree(body[1..], open));
      BodyTextFirst(body, TailText(open));
    } else if open {
      ParseOpenTail();
      assert text == ".*$";
    }
  }

  lemma SequenceStep(text: string, first: Regex, rest: string, second: Regex, after: string)
    requires text != "" && text[0] != '|' && text[0] != ')'
    requires ParseRepeat(text) == Some((first, rest))
    requires ParseSequence(rest) == Some((second, after))
    ensures ParseSequence(text) == Some((Concat(first, second), after))
  {}

  lemma ParseOpenTail()
    ensures ParseSequence(".*$") == Some((BodyTree("", true), ""))
  {}

  lemma ParseThroughDot(rest: string)
    ensures ParseAlternation(".*\\.)" + rest) == Some((THROUGH_DOT, ")" + rest))
  {
    var close := ")" + rest;
    var dot := "\\." + close;
    ParseToken('.', false, close);
    assert dot == TokenText('.', false) + close;
    SequenceStep(dot, Literal('.'), close, Empty, close);
    ParseToken('*', false, dot);
    assert ".*\\.)" + rest == TokenText('*', false) + dot;
    SequenceStep(".*\\.)" + rest, Star(AnyChar), dot, Concat(Literal('.'), Empty), close);
  }

  lemma GroupRead(text: string, inner: string, re: Regex, close: string, rest: string)
    requires text == "(?:" + inner && close == ")" + rest && ParseAlternation(inner) == Some((re, close))
    ensures ParseAtom(text) == Some((re, rest))
  {
    assert text[..3] == "(?:" && text[3..] == inner && text[0] == "(?:"[0] && close[1..] == rest;
  }

  lemma AlternationRead(inner: string, left: Regex, bar: string, second: string, right: Regex, close: string)
    requires ParseSequence(inner) == Some((left, bar)) && bar == "|" + second
    requires ParseAlternation(second) == Some((right, close))
    ensures ParseAlternation(inner) == Some((Alternate(left, right), close))
  {
    assert bar[0] == '|' && bar[1..] == second;
  }

  lemma PlainRepeat(text: string, re: Regex, rest: string)
    requires ParseAtom(text) == Some((re, rest)) && NoQuantifierAhead(rest)
    ensures ParseRepeat(text) == Some((re, rest))
  {}

  lemma StartRead(inner: string, bar: string, second: string)
    requires inner == "^" + bar && bar == "|" + second
    ensures ParseSequence(inner) == Some((Concat(Start, Empty), bar))
  {
    assert inner[0] == '^' && inner[1..] == bar && bar[0] == '|';
    PlainRepeat(inner, Start, bar);
    SequenceStep(inner, Start, bar, Empty, bar);
  }

  lemma ParseLabelHead(rest: string)
    requires NoQuantifierAhead(rest)
    ensures ParseRepeat("(?:^|.*\\.)" + rest) == Some((Alternate(Concat(Start, Empty), THROUGH_DOT), rest))
  {
    hide ParseAtom, ParseRepeat, ParseSequence, ParseAlternation, THROUGH_DOT;
    var close := ")" + rest;
    var second := ".*\\.)" + rest;
    var bar := "|" + second;
    var inner := "^" + bar;
    var text := "(?:^|.*\\.)" + rest;
    assert text == "(?:" + inner;
    ParseThroughDot(rest);
    StartRead(inner, bar, second);
    AlternationRead(inner, Concat(Start, Empty), bar, second, THROUGH_DOT, close);
    GroupRead(text, inner, Alternate(Concat(Start, Empty), THROUGH_DOT), close, rest);
    PlainRepeat(text, Alternate(Concat(Start, Empty), THROUGH_DOT), rest);
  }

  lemma OptionalRead(text: string, re: Regex, question: string, rest: string)
    requires ParseAtom(text) == Some((re, question)) && question == "?" + rest && NoQuantifierAhead(rest)
    ensures ParseRepeat(text) == Some((Optional(re), rest))
  {
    assert question[0] == '?' && question[1..] == rest;
  }

  lemma ParseDotHead(rest: string)
    requires NoQuantifierAhead(rest)
    ensures ParseRepeat("(?:.*\\.)?" + rest) == Some((Optional(THROUGH_DOT), rest))
  {
    hide ParseAtom, ParseRepeat, ParseSequence, ParseAlternation, THROUGH_DOT;
    var question := "?" + rest;
    var inner := ".*\\.)" + question;
    var text := "(?:.*\\.)?" + rest;
    assert text == "(?:" + inner;
    ParseThroughDot(question);
    GroupRead(text, inner, THROUGH_DOT, ")" + question, question);
    OptionalRead(text, THROUGH_DOT, question, rest);
  }

  lemma HeadParses(pattern: string, rest: string, tree: Regex)
    requires NoQuantifierAhead(rest)
    requires ParseSequence(rest) == Some((tree, ""))
    ensures ParseSequence(HeadText(pattern) + rest) == Some((HeadTree(pattern, tree), ""))
  {
    var after := AnchorText(pattern) + rest;
    var text := "^" + after;
    assert HeadText(pattern) + rest == text && text[1..] == after;
    if StartsWith(pattern, "||") {
      ParseLabelHead(rest);
      SequenceStep(after, Alternate(Concat(Start, Empty), THROUGH_DOT), rest, tree, "");
    } else if StartsWith(pattern, "|") {
      assert after == rest;
    } else if StartsWith(pattern, ".") {
      ParseDotHead(rest);
      SequenceStep(after, Optional(THROUGH_DOT), rest, tree, "");
    } else {
      ParseToken('*', false, rest);
      assert after == TokenText('*', false) + rest;
      SequenceStep(after, Star(AnyChar), rest, tree, "");
    }
    assert ParseRepeat(text) == Some((Start, after));
    SequenceStep(text, Start, after, HeadTree(pattern, tree).second, "");
  }

  /** The emitted text is always in the fragment and parses to the tree that was meant. */
  lemma CompilerParses(pattern: string)
    ensures Parse(RegexText(pattern)) == Some(PatternTree(pattern))
  {
    var body := SplitAnchor(pattern).1;
    var open := Open(body);
    RegexTextTail(pattern);
    var text := BodyText(body) + TailText(open);
    ParseBody(body, open, text);
    HeadParses(pattern, text, BodyTree(body, open));
  }

  // ------------------------------------------------- the tree means the same

  lemma {:induction false} BodyMeaning(body: string, open: bool, s: string, i: nat, j: nat)
    requires i <= j <= |s|
    requires open || !Open(body)
    ensures Matches(BodyTree(body, open), s, i, j) <==> j == |s| && BodyAccepts(body, s, i)
    decreases body
  {
    if body == "" {
      TailMeaning(s, i, j);
    } else {
      var token, rest := TokenTree(body[0], |body| == 1), body[1..];
      var tree := BodyTree(rest, open);
      if rest == "" && !open {
        assert Matches(End, s, i, j) ==> Matches(tree, s, j, j);
      } else if token == Star(AnyChar) {
        forall k | i <= k <= j
          ensures Matches(tree, s, k, j) <==> j == |s| && BodyAccepts(rest, s, k)
          ensures Matches(token, s, i, k) <==> NewlineFree(s, i, k)
        {
          AnyRun(s, i, k);
          BodyMeaning(rest, open, s, k, j);
        }
      } else if token == End {
        BodyMeaning(rest, open, s, i, j);
        assert i == |s| ==> Matches(token, s, i, i);
      } else if i < j {
        BodyMeaning(rest, open, s, i + 1, j);
        assert s[i] == body[0] ==> Matches(token, s, i, i + 1);
      }
    }
  }

  lemma TailMeaning(s: string, i: nat, j: nat)
    requires i <= j <= |s|
    ensures Matches(BodyTree("", true), s, i, j) <==> j == |s| && NewlineFree(s, i, |s|)
  {
    AnyRun(s, i, j);
    assert forall k :: i <= k <= j ==> (Matches(Concat(End, Empty), s, k, j) <==> k == j == |s|) by {
      forall k | i <= k <= j ensures Matches(Concat(End, Empty), s, k, j) <==> k == j == |s| {
        assert k == j == |s| ==> Matches(End, s, k, k) && Matches(Empty, s, k, j);
      }
    }
  }

  lemma ThroughDotMeaning(s: string, k: nat)
    requires k <= |s|
    ensures Matches(THROUGH_DOT, s, 0, k) <==> k > 0 && s[k - 1] == '.' && NewlineFree(s, 0, k - 1)
  {
    forall m | 0 <= m <= k
      ensures Matches(Concat(Literal('.'), Empty), s, m, k) <==> m + 1 == k && s[m] == '.'
    {
      assert m < k ==> (Matches(Literal('.'), s, m, m + 1) <==> s[m] == '.');
    }
    if k > 0 { AnyRun(s, 0, k - 1); }
  }

  lemma StartThen(re: Regex, s: string, i: nat, j: nat)
    requires i <= j <= |s|
    ensures Matches(Concat(Start, re), s, i, j) <==> i == 0 && Matches(re, s, 0, j)
  {}

  lemma LabelHead(s: string, k: nat)
    requires k <= |s|
    ensures Matches(Alternate(Concat(Start, Empty), THROUGH_DOT), s, 0, k) <==> MayStart(AtLabel, s, k)
    ensures Matches(Optional(THROUGH_DOT), s, 0, k) <==> MayStart(AtLabel, s, k)
  {
    ThroughDotMeaning(s, k);
    StartThen(Empty, s, 0, k);
  }

  lemma HeadMeaning(pattern: string, body: Regex, s: string, i: nat, j: nat)
    requires i <= j <= |s|
    ensures Matches(HeadTree(pattern, body), s, i, j) <==>
            i == 0 && exists k :: 0 <= k <= j && MayStart(SplitAnchor(pattern).0, s, k) && Matches(body, s, k, j)
  {
    var rest := HeadTree(pattern, body).second;
    var anchor := SplitAnchor(pattern).0;
    StartThen(rest, s, i, j);
    if anchor == AtStart {
      assert MayStart(AtStart, s, 0);
    } else {
      assert rest == Concat(rest.first, body);
      forall k | 0 <= k <= j ensures Matches(rest.first, s, 0, k) <==> MayStart(anchor, s, k) {
        LabelHead(s, k);
        AnyRun(s, 0, k);
      }
      FirstThen(rest.first, body, anchor, s, j);
    }
  }

  lemma FirstThen(first: Regex, body: Regex, anchor: Anchor, s: string, j: nat)
    requires j <= |s|
    requires forall k :: 0 <= k <= j ==> (Matches(first, s, 0, k) <==> MayStart(anchor, s, k))
    ensures Matches(Concat(first, body), s, 0, j) <==>
            exists k :: 0 <= k <= j && MayStart(anchor, s, k) && Matches(body, s, k, j)
  {}

  /** Compilation preserves meaning, for every pattern and every text. */
  lemma CompilerPreservesMeaning(pattern: string, s: string)
    ensures IsMatch(PatternTree(pattern), s) <==> Accepts(pattern, s)
  {
    var (anchor, body) := SplitAnchor(pattern);
    var tree := BodyTree(body, Open(body));
    forall i, j | 0 <= i <= j <= |s|
      ensures Matches(PatternTree(pattern), s, i, j) <==> i == 0 && j == |s| && Accepts(pattern, s)
    {
      HeadMeaning(pattern, tree, s, i, j);
      forall k | 0 <= k <= j ensures Matches(tree, s, k, j) <==> j == |s| && BodyAccepts(body, s, k) {
        BodyMeaning(body, Open(body), s, k, j);
      }
    }
    assert Matches(PatternTree(pattern), s, 0, |s|) <==> Accepts(pattern, s);
  }

  lemma CompilerCorrect(pattern: string)
    ensures MeansPattern(RegexText(pattern), pattern)
  {
    CompilerParses(pattern);
    forall s ensures IsMatch(PatternTree(pattern), s) <==> Accepts(pattern, s) {
      CompilerPreservesMeaning(pattern, s);
    }
  }

  // ---------------------------------------------------- what patterns accept

  /** Characters that stand for themselves wherever they are in a pattern body. */
  predicate IsLiteralChar(c: char) {
    c != '*' && c != '^' && c != '$' && c != '|'
  }

  /** A body of plain characters accepts that very text, up to the end if a `^` closes it. */
  lemma {:induction false} LiteralBody(body: string, closed: bool, s: string, i: nat)
    requires i <= |s|
    requires forall k :: 0 <= k < |body| ==> IsLiteralChar(body[k])
    ensures BodyAccepts(body + (if closed then "^" else ""), s, i) <==>
            && body <= s[i..]
            && if closed then i + |body| == |s| else NewlineFree(s, i + |body|, |s|)
    decreases body
  {
    var pattern := body + (if closed then "^" else "");
    if body == "" {
      assert pattern == if closed then "^" else "";
      assert body <= s[i..];
    } else {
      assert pattern[1..] == body[1..] + (if closed then "^" else "");
      assert pattern[0] == body[0];
      if i < |s| {
        LiteralBody(body[1..], closed, s, i + 1);
        assert body == [body[0]] + body[1..] && s[i..] == [s[i]] + s[i + 1..];
      }
    }
  }

  /** `||b` and `.b` accept the same texts, for every `b`. */
  lemma LabelAnchorsAgree(body: string, s: string)
    ensures Accepts("||" + body, s) <==> Accepts("." + body, s)
  {
    assert ("||" + body)[2..] == body && ("." + body)[1..] == body;
    assert ("." + body)[0] != "|"[0] && ("." + body)[0] != "||"[0];
    assert SplitAnchor("||" + body) == SplitAnchor("." + body);
  }

  /**
   * The two routes for `||dom^` agree: the compiled pattern accepts exactly the newline-free
   * names that the hash-set lookup finds under `dom`.
   */
  lemma RoutesAgree(dom: string, s: string)
    requires forall k :: 0 <= k < |dom| ==> IsNameChar(dom[k])
    ensures Accepts("||" + dom + "^", s) <==> SuffixMatch(s, dom) && NewlineFree(s, 0, |s|)
    ensures Accepts("||" + dom + "^", s) <==> LinearScan({}, {dom}, s) && NewlineFree(s, 0, |s|)
  {
    var body := dom + "^";
    var pattern := "||" + dom + "^";
    assert pattern == "||" + body && pattern[2..] == body;
    assert SplitAnchor(pattern) == (AtLabel, body);
    SuffixMatchAt(s, dom);
    forall i | 0 <= i <= |s| ensures BodyAccepts(body, s, i) <==> i + |dom| == |s| && s[i..] == dom {
      LiteralBody(dom, true, s, i);
    }
    if |dom| <= |s| {
      var i := |s| - |dom|;
      assert s[i..] == dom ==> NewlineFree(s, i, |s|) by {
        if s[i..] == dom {
          forall k | i <= k < |s| ensures s[k] != '\n' { assert s[k] == dom[k - i]; }
        }
      }
      assert Accepts(pattern, s) <==> MayStart(AtLabel, s, i) && s[i..] == dom;
    }
  }

  /**
   * Without the closing `^` the tail is open: `||dom` then accepts whatever begins with `dom` at a
   * label, and so never agrees with the suffix match that the simple route makes of the same text.
   */
  lemma OpenTailIsWider(dom: string, s: string)
    requires forall k :: 0 <= k < |dom| ==> IsNameChar(dom[k])
    ensures Accepts("||" + dom, s) <==>
            exists i :: 0 <= i <= |s| && MayStart(AtLabel, s, i) && dom <= s[i..] && NewlineFree(s, i + |dom|, |s|)
    ensures Accepts("||" + dom, dom + "x") && !SuffixMatch(dom + "x", dom)
  {
    var pattern := "||" + dom;
    assert pattern[2..] == dom && SplitAnchor(pattern) == (AtLabel, dom);
    assert dom + "" == dom;
    forall i | 0 <= i <= |s|
      ensures BodyAccepts(dom, s, i) <==> dom <= s[i..] && NewlineFree(s, i + |dom|, |s|)
    {
      LiteralBody(dom, false, s, i);
    }
    var longer := dom + "x";
    LiteralBody(dom, false, longer, 0);
    assert longer[0..] == longer && MayStart(AtLabel, longer, 0);
    SuffixMatchAt(longer, dom);
    NoRepeatedTail(dom);
  }

  lemma NoRepeatedTail(dom: string)
    ensures !((dom + "x")[0] == '.' && (dom + "x")[1..] == dom)
  {
    var longer := dom + "x";
    if longer[0] == '.' && longer[1..] == dom {
      var k := 0;
      while k < |dom|
        invariant 0 <= k <= |dom|
        invariant longer[k] == '.'
      {
        assert longer[1..][k] == dom[k];
        assert longer[k] == dom[k];
        k := k + 1;
      }
      assert false;
    }
  }

  /** Patterns are not lower-cased: one with a capital letter in its body accepts no lower-case name. */
  lemma {:induction false} CapitalsNeverMatch(body: string, s: string, i: nat, at: nat)
    requires i <= |s| && at < |body| && 'A' <= body[at] <= 'Z'
    requires forall k :: 0 <= k < |s| ==> !('A' <= s[k] <= 'Z')
    ensures !BodyAccepts(body, s, i)
    decreases body
  {
    if at > 0 {
      assert body[1..][at - 1] == body[at];
      forall k | i <= k <= |s| ensures !BodyAccepts(body[1..], s, k) {
        CapitalsNeverMatch(body[1..], s, k, at - 1);
      }
    }
  }
}
