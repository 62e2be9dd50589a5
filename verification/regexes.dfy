/**
 * The part of the `regex` crate's language that generated filter patterns use: its text, its
 * syntax trees, and when a tree matches part of a text (newline-insensitive `.`, anchors at the
 * two ends of the whole text, unanchored search).
 */
module Regexes {
  import opened Text

  datatype Regex =
    | Empty
    | Literal(c: char)
    | AnyChar
    | Start
    | End
    | Concat(first: Regex, second: Regex)
    | Alternate(left: Regex, right: Regex)
    | Star(body: Regex)
    | Optional(body: Regex)

  /** `re` matches the stretch of `s` from position `i` up to position `j`. */
  ghost predicate Matches(re: Regex, s: string, i: nat, j: nat)
    requires i <= j <= |s|
    decreases re, j - i
  {
    match re
    case Empty => i == j
    case Literal(c) => j == i + 1 && s[i] == c
    case AnyChar => j == i + 1 && s[i] != '\n'
    case Start => i == j == 0
    case End => i == j == |s|
    case Concat(first, second) =>
      exists k :: i <= k <= j && Matches(first, s, i, k) && Matches(second, s, k, j)
    case Alternate(left, right) => Matches(left, s, i, j) || Matches(right, s, i, j)
    case Star(body) =>
      i == j || exists k :: i < k <= j && Matches(body, s, i, k) && Matches(re, s, k, j)
    case Optional(body) => i == j || Matches(body, s, i, j)
  }

  /** `Regex::is_match`: some stretch of the text matches. */
  ghost predicate IsMatch(re: Regex, s: string) {
    exists i, j :: 0 <= i <= j <= |s| && Matches(re, s, i, j)
  }

  ghost predicate NewlineFree(s: string, i: nat, j: nat)
    requires i <= j <= |s|
  {
    forall k :: i <= k < j ==> s[k] != '\n'
  }

  /** `.*` matches exactly the stretches without a newline. */
  lemma {:induction false} AnyRun(s: string, i: nat, j: nat)
    requires i <= j <= |s|
    ensures Matches(Star(AnyChar), s, i, j) <==> NewlineFree(s, i, j)
    decreases j - i
  {
    if i < j {
      AnyRun(s, i + 1, j);
      if NewlineFree(s, i, j) {
        assert Matches(AnyChar, s, i, i + 1);
      }
    }
  }

  // ------------------------------------------------------------------ syntax

  /** Characters that mean something to the regex parser unless escaped. */
  predicate IsMeta(c: char) {
    || c == '\\' || c == '.' || c == '+' || c == '*' || c == '?' || c == '(' || c == ')'
    || c == '|' || c == '[' || c == ']' || c == '{' || c == '}' || c == '^' || c == '$'
  }

  predicate IsQuantifier(c: char) {
    c == '*' || c == '+' || c == '?' || c == '{'
  }

  /** The text does not begin with something that would bind to what stands before it. */
  predicate NoQuantifierAhead(text: string) {
    text != "" ==> !IsQuantifier(text[0])
  }

  /** A parsed tree with the text after it. */
  type Parsed = Option<(Regex, string)>

  function ParseAtom(text: string): (r: Parsed)
    ensures r.Some? ==> |r.value.1| < |text|
    decreases |text|, 0
  {
    if text == "" then None
    else if text[0] == '(' then
      if !StartsWith(text, "(?:") then None
      else
        match ParseAlternation(text[3..])
        case None => None
        case Some((re, rest)) => if rest != "" && rest[0] == ')' then Some((re, rest[1..])) else None
    else if text[0] == '\\' then
      if |text| >= 2 && IsMeta(text[1]) then Some((Literal(text[1]), text[2..])) else None
    else if text[0] == '.' then Some((AnyChar, text[1..]))
    else if text[0] == '^' then Some((Start, text[1..]))
    else if text[0] == '$' then Some((End, text[1..]))
    else if IsMeta(text[0]) then None
    else Some((Literal(text[0]), text[1..]))
  }

  /** An atom with at most one `*` or `?` after it; other quantifiers are outside the fragment. */
  function ParseRepeat(text: string): (r: Parsed)
    ensures r.Some? ==> |r.value.1| < |text|
    decreases |text|, 1
  {
    match ParseAtom(text)
    case None => None
    case Some((re, rest)) =>
      if NoQuantifierAhead(rest) then Some((re, rest))
      else if rest[0] == '*' && NoQuantifierAhead(rest[1..]) then Some((Star(re), rest[1..]))
      else if rest[0] == '?' && NoQuantifierAhead(rest[1..]) then Some((Optional(re), rest[1..]))
      else None
  }

  function ParseSequence(text: string): (r: Parsed)
    ensures r.Some? ==> |r.value.1| <= |text|
    decreases |text|, 2
  {
    if text == "" || text[0] == '|' || text[0] == ')' then Some((Empty, text))
    else
      match ParseRepeat(text)
      case None => None
      case Some((first, rest)) =>
        match ParseSequence(rest)
        case None => None
        case Some((second, after)) => Some((Concat(first, second), after))
  }

  function ParseAlternation(text: string): (r: Parsed)
    ensures r.Some? ==> |r.value.1| <= |text|
    decreases |text|, 3
  {
    match ParseSequence(text)
    case None => None
    case Some((left, rest)) =>
      if rest == "" || rest[0] != '|' then Some((left, rest))
      else
        match ParseAlternation(rest[1..])
        case None => None
        case Some((right, after)) => Some((Alternate(left, right), after))
  }

  /** `Regex::new` on the fragment; `None` for everything else. */
  function Parse(text: string): Option<Regex> {
    match ParseAlternation(text)
    case None => None
    case Some((re, rest)) => if rest == "" then Some(re) else None
  }
}
