/** The few operations of Rust's `str` that the filter code is written with. */
module Text {

  datatype Option<+T> = None | Some(value: T)

  datatype Result<+T, +E> = Ok(value: T) | Err(error: E)

  /** `collect` into an option: all the values, if there are no gaps. */
  function Collect<T>(xs: seq<Option<T>>): (r: Option<seq<T>>)
    ensures r.Some? <==> forall i :: 0 <= i < |xs| ==> xs[i].Some?
    ensures r.Some? ==> |r.value| == |xs| && forall i :: 0 <= i < |xs| ==> xs[i] == Some(r.value[i])
  {
    if xs == [] then Some([])
    else if xs[0].None? then None
    else
      match Collect(xs[1..])
      case None => None
      case Some(rest) =>
        assert forall i :: 0 < i < |xs| ==> xs[i] == xs[1..][i - 1];
        Some([xs[0].value] + rest)
  }

  /** `filter_map` once the map is done: the values there are, in order. */
  function KeepSome<T>(xs: seq<Option<T>>): seq<T> {
    if xs == [] then []
    else (match xs[0] case None => [] case Some(x) => [x]) + KeepSome(xs[1..])
  }

  lemma {:induction false} KeepAll<T>(xs: seq<Option<T>>, ys: seq<T>)
    requires |xs| == |ys| && forall i :: 0 <= i < |xs| ==> xs[i] == Some(ys[i])
    ensures KeepSome(xs) == ys
  {
    if xs != [] {
      KeepAll(xs[1..], ys[1..]);
      assert ys == [ys[0]] + ys[1..];
    }
  }

  /** The Unicode White_Space property, which `str::trim` and `str::split_whitespace` use. */
  predicate IsWhitespace(c: char) {
    var n := c as int;
    || 0x09 <= n <= 0x0D || n == 0x20 || n == 0x85 || n == 0xA0 || n == 0x1680
    || 0x2000 <= n <= 0x200A || n == 0x2028 || n == 0x2029 || n == 0x202F || n == 0x205F || n == 0x3000
  }

  predicate StartsWith(s: string, prefix: string) {
    prefix <= s
  }

  predicate EndsWith(s: string, suffix: string) {
    |suffix| <= |s| && s[|s| - |suffix|..] == suffix
  }

  function StripSuffix(s: string, suffix: string): Option<string> {
    if EndsWith(s, suffix) then Some(s[..|s| - |suffix|]) else None
  }

  /** `trim_start_matches` with a character. */
  function TrimStartChar(s: string, c: char): (r: string)
    ensures r == "" || r[0] != c
    ensures |r| <= |s| && r == s[|s| - |r|..]
  {
    if s != "" && s[0] == c then TrimStartChar(s[1..], c) else s
  }

  /** `trim_end_matches` with a character. */
  function TrimEndChar(s: string, c: char): (r: string)
    ensures r == "" || r[|r| - 1] != c
    ensures |r| <= |s| && r == s[..|r|]
  {
    if s != "" && s[|s| - 1] == c then TrimEndChar(s[..|s| - 1], c) else s
  }

  function TrimStart(s: string): (r: string)
    ensures r == "" || !IsWhitespace(r[0])
    ensures |r| <= |s|
  {
    if s != "" && IsWhitespace(s[0]) then TrimStart(s[1..]) else s
  }

  function TrimEnd(s: string): (r: string)
    ensures r == "" || !IsWhitespace(r[|r| - 1])
    ensures |r| <= |s|
  {
    if s != "" && IsWhitespace(s[|s| - 1]) then TrimEnd(s[..|s| - 1]) else s
  }

  function Trim(s: string): string {
    TrimEnd(TrimStart(s))
  }

  /** `trim_start_matches` with a string pattern. */
  function TrimStartText(s: string, t: string): (r: string)
    requires t != ""
    ensures |r| <= |s| && r == s[|s| - |r|..]
  {
    if StartsWith(s, t) then
      var rest := s[|t|..];
      var r := TrimStartText(rest, t);
      assert rest[|rest| - |r|..] == s[|s| - |r|..];
      r
    else s
  }

  /** `trim_end_matches` with a string pattern. */
  function TrimEndText(s: string, t: string): (r: string)
    requires t != ""
    ensures |r| <= |s| && r == s[..|r|]
  {
    if EndsWith(s, t) then
      var rest := s[..|s| - |t|];
      var r := TrimEndText(rest, t);
      assert rest[..|r|] == s[..|r|];
      r
    else s
  }

  function LowerChar(c: char): (r: char)
    ensures !('A' <= r <= 'Z')
    ensures !('A' <= c <= 'Z') ==> r == c
  {
    if 'A' <= c <= 'Z' then (c as int + 32) as char else c
  }

  function AsciiLower(s: string): (r: string)
    ensures |r| == |s|
    ensures forall i :: 0 <= i < |s| ==> r[i] == LowerChar(s[i])
    ensures s != "" ==> r[|r| - 1] == LowerChar(s[|s| - 1])
  {
    seq(|s|, i requires 0 <= i < |s| => LowerChar(s[i]))
  }

  function UpperChar(c: char): char {
    if 'a' <= c <= 'z' then (c as int - 32) as char else c
  }

  function AsciiUpper(s: string): string {
    seq(|s|, i requires 0 <= i < |s| => UpperChar(s[i]))
  }

  /** The position of the first `c`, as `str::find` gives it. */
  function Find(s: string, c: char): (r: Option<nat>)
    ensures r.None? ==> c !in s
    ensures r.Some? ==> r.value < |s| && s[r.value] == c && c !in s[..r.value]
  {
    if s == "" then None
    else if s[0] == c then Some(0)
    else match Find(s[1..], c)
      case None => None
      case Some(i) =>
        assert s[..i + 1] == [s[0]] + s[1..][..i];
        Some(i + 1)
  }

  /** `str::split` at a character: always at least one part. */
  function Split(s: string, c: char): (parts: seq<string>)
    ensures |parts| >= 1
  {
    match Find(s, c)
    case None => [s]
    case Some(i) => [s[..i]] + Split(s[i + 1..], c)
  }

  /** `join`: the parts with the separator between them. */
  function Join(parts: seq<string>, c: char): string {
    if parts == [] then ""
    else if |parts| == 1 then parts[0]
    else parts[0] + [c] + Join(parts[1..], c)
  }

  lemma FindAfter(a: string, c: char, b: string)
    requires c !in a
    ensures Find(a + [c] + b, c) == Some(|a|)
  {
    var s := a + [c] + b;
    assert s[|a|] == c && s[..|a|] == a;
    var i := Find(s, c).value;
    assert forall k :: 0 <= k < i ==> s[k] == s[..i][k];
    assert forall k :: 0 <= k < |a| ==> s[k] == s[..|a|][k];
  }

  /** Splitting undoes joining when no part holds the separator. */
  lemma {:induction false} SplitJoin(parts: seq<string>, c: char)
    requires parts != []
    requires forall p :: p in parts ==> c !in p
    ensures Split(Join(parts, c), c) == parts
  {
    assert parts[0] in parts;
    if |parts| == 1 {
      assert Find(parts[0], c) == None;
    } else {
      var tail := Join(parts[1..], c);
      FindAfter(parts[0], c, tail);
      var s := parts[0] + [c] + tail;
      assert s[..|parts[0]|] == parts[0];
      assert s[|parts[0]| + 1..] == tail;
      SplitJoin(parts[1..], c);
    }
  }

  /** `split_once`. */
  function SplitOnce(s: string, c: char): Option<(string, string)> {
    match Find(s, c)
    case None => None
    case Some(i) => Some((s[..i], s[i + 1..]))
  }

  /** `split_whitespace`: the maximal runs of other characters. */
  function SplitWhitespace(s: string): seq<string>
    decreases |s|
  {
    var t := TrimStart(s);
    if t == "" then []
    else
      var n := WordLength(t);
      [t[..n]] + SplitWhitespace(t[n..])
  }

  function WordLength(s: string): (n: nat)
    ensures n <= |s|
    ensures s != "" && !IsWhitespace(s[0]) ==> n > 0
  {
    if s == "" || IsWhitespace(s[0]) then 0 else 1 + WordLength(s[1..])
  }

  /** Something to read, and no blanks in it. */
  predicate Solid(s: string) {
    s != "" && forall i :: 0 <= i < |s| ==> !IsWhitespace(s[i])
  }

  lemma {:induction false} SolidWordLength(s: string, rest: string)
    requires forall i :: 0 <= i < |s| ==> !IsWhitespace(s[i])
    requires rest == "" || IsWhitespace(rest[0])
    ensures WordLength(s + rest) == |s|
  {
    if s == "" {
      assert s + rest == rest;
    } else {
      assert (s + rest)[1..] == s[1..] + rest;
      SolidWordLength(s[1..], rest);
    }
  }

  /** The first word of a text, and the words after it. */
  lemma FirstWord(word: string, rest: string)
    requires Solid(word) && (rest == "" || IsWhitespace(rest[0]))
    ensures SplitWhitespace(word + rest) == [word] + SplitWhitespace(rest)
  {
    var s := word + rest;
    assert TrimStart(s) == s;
    SolidWordLength(word, rest);
    assert s[..|word|] == word && s[|word|..] == rest;
  }

  predicate Blank(s: string) {
    forall i :: 0 <= i < |s| ==> IsWhitespace(s[i])
  }

  lemma {:induction false} BlanksFirst(blank: string, s: string)
    requires Blank(blank)
    ensures SplitWhitespace(blank + s) == SplitWhitespace(s) && TrimStart(blank + s) == TrimStart(s)
  {
    if blank == "" {
      assert blank + s == s;
    } else {
      assert (blank + s)[1..] == blank[1..] + s;
      BlanksFirst(blank[1..], s);
    }
  }

  /** The words with a gap between any two. */
  function Spread(words: seq<string>, gaps: seq<string>): string
    requires |words| == |gaps| + 1
  {
    if gaps == [] then words[0] else words[0] + (gaps[0] + Spread(words[1..], gaps[1..]))
  }

  predicate AreGaps(gaps: seq<string>) {
    forall i :: 0 <= i < |gaps| ==> gaps[i] != "" && Blank(gaps[i])
  }

  predicate AllSolid(words: seq<string>) {
    forall i :: 0 <= i < |words| ==> Solid(words[i])
  }

  /** Words with any blanks between and after them are split into those very words. */
  lemma {:induction false} SpreadRoundTrip(words: seq<string>, gaps: seq<string>, trail: string)
    requires |words| == |gaps| + 1 && AllSolid(words) && AreGaps(gaps) && Blank(trail)
    ensures SplitWhitespace(Spread(words, gaps) + trail) == words
    decreases words
  {
    hide TrimStart;
    if gaps == [] {
      FirstWord(words[0], trail);
      BlanksFirst(trail, "");
      assert trail + "" == trail;
    } else {
      var tail := Spread(words[1..], gaps[1..]) + trail;
      SpreadRoundTrip(words[1..], gaps[1..], trail);
      FirstWord(words[0], gaps[0] + tail);
      BlanksFirst(gaps[0], tail);
      assert Spread(words, gaps) + trail == words[0] + (gaps[0] + tail);
    }
  }

  lemma {:induction false} SpreadEnds(words: seq<string>, gaps: seq<string>)
    requires |words| == |gaps| + 1 && AllSolid(words)
    ensures var s := Spread(words, gaps); s != "" && words[0] <= s && !IsWhitespace(s[|s| - 1])
    decreases words
  {
    if gaps != [] {
      SpreadEnds(words[1..], gaps[1..]);
      var tail := gaps[0] + Spread(words[1..], gaps[1..]);
      assert tail[|tail| - 1] == Spread(words[1..], gaps[1..])[|Spread(words[1..], gaps[1..])| - 1];
    }
  }

  /** Splitting goes part by part over a text put together at a separator. */
  lemma {:induction false} SplitConcat(a: string, c: char, b: string)
    ensures Split(a + [c] + b, c) == Split(a, c) + Split(b, c)
    decreases |a|
  {
    hide Find;
    var s := a + [c] + b;
    match Find(a, c)
    case None =>
      FindAfter(a, c, b);
      assert s[..|a|] == a && s[|a| + 1..] == b;
    case Some(i) =>
      var before, after := a[..i], a[i + 1..];
      assert a == before + [c] + after;
      assert s == before + [c] + (after + [c] + b);
      FindAfter(before, c, after + [c] + b);
      assert s[..i] == before && s[i + 1..] == after + [c] + b;
      SplitConcat(after, c, b);
  }

  /** `str::lines`: cut at line feeds, each with the carriage return before it dropped. */
  function Lines(s: string): seq<string> {
    if s == "" then []
    else
      match Find(s, '\n')
      case None => [s]
      case Some(i) =>
        [if i > 0 && s[i - 1] == '\r' then s[..i - 1] else s[..i]] + Lines(s[i + 1..])
  }

  function Terminated(lines: seq<string>): string {
    if lines == [] then "" else lines[0] + "\n" + Terminated(lines[1..])
  }

  /** A text file made of lines is read back as those lines. */
  lemma {:induction false} LinesRoundTrip(lines: seq<string>)
    requires forall l :: l in lines ==> '\n' !in l && (l == "" || l[|l| - 1] != '\r')
    ensures Lines(Terminated(lines)) == lines
  {
    if lines != [] {
      var first, rest := lines[0], Terminated(lines[1..]);
      var text := first + ['\n'] + rest;
      assert Terminated(lines) == text;
      FindAfter(first, '\n', rest);
      assert text[..|first|] == first && text[|first| + 1..] == rest;
      assert |first| > 0 ==> text[|first| - 1] == first[|first| - 1];
      LinesRoundTrip(lines[1..]);
    }
  }
}
