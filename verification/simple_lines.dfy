/** Exactly which lines the simple route reads, and that only they make allow rules. */
module SimpleLines {
  import opened Text
  import opened Domains
  import opened NameForms
  import opened RuleSyntax

  function MarkOf(disposition: Disposition): string {
    if disposition == Allow then "@@" else ""
  }

  /** The name is written as `body`, and any bars and then any carets may follow it. */
  function SimpleText(disposition: Disposition, body: string, bars: nat, carets: nat): string {
    MarkOf(disposition) + ("||" + Tailed(body, bars, carets))
  }

  function Tailed(body: string, bars: nat, carets: nat): string {
    body + Repeated('|', bars) + Repeated('^', carets)
  }

  // ------------------------------------------------------ characters of names

  predicate IsNameText(c: char) {
    IsWhitespace(c) || c == '*' || IsAcceptedChar(c)
  }

  lemma {:induction false} StarsChars(n: nat)
    ensures forall i :: 0 <= i < |Stars(n)| ==> Stars(n)[i] == '*' || Stars(n)[i] == '.'
  {
    if n > 0 { StarsChars(n - 1); }
  }

  lemma FramedChars(dots: nat, stars: nat, core: string, after: nat)
    requires IsCore(core)
    ensures forall i :: 0 <= i < |Framed(dots, stars, core, after)| ==> IsNameText(Framed(dots, stars, core, after)[i])
  {
    StarsChars(stars);
  }

  /** Nothing but blanks, stars and accepted characters can be in a text that is accepted. */
  lemma AcceptedChars(body: string, name: string)
    requires NormalizeDomain(body) == Some(name)
    ensures body != "" && forall i :: 0 <= i < |body| ==> IsNameText(body[i])
  {
    var core := AcceptedHasForm(body, name);
    FormChars(body, core);
  }

  lemma FormChars(body: string, core: string)
    requires HasForm(body, core)
    ensures body != "" && forall i :: 0 <= i < |body| ==> IsNameText(body[i])
  {
    var before, dots, stars, after, blank :|
      && body == before + Framed(dots, stars, core, after) + blank
      && Blank(before) && Blank(blank) && IsCore(core) && (stars == 0 ==> core[0] != '.');
    FramedChars(dots, stars, core, after);
  }

  lemma TrimAgain(s: string)
    ensures Trim(Trim(s)) == Trim(s)
  {
    if Trim(s) != "" {
      TrimmedStart(TrimStart(s));
      TrimInert(Trim(s));
    }
  }

  lemma NormalizeTrimmed(s: string)
    ensures NormalizeDomain(Trim(s)) == NormalizeDomain(s)
  {
    TrimAgain(s);
  }

  // ---------------------------------------------------------- simple rules

  lemma SimpleNameSplits(text: string) returns (body: string, bars: nat, carets: nat)
    requires '$' !in text
    ensures text == Tailed(body, bars, carets) && SimpleName(text) == Trim(body)
  {
    assert Find(text, '$') == None;
    carets := TrimEndCharSplits(text, '^');
    bars := TrimEndCharSplits(TrimEndChar(text, '^'), '|');
    body := TrimEndChar(TrimEndChar(text, '^'), '|');
  }

  lemma SimpleNameOf(text: string, body: string, bars: nat, carets: nat)
    requires text == Tailed(body, bars, carets) && '$' !in text
    requires body != "" && body[|body| - 1] != '|' && body[|body| - 1] != '^'
    ensures SimpleName(text) == Trim(body)
  {
    assert Find(text, '$') == None;
    var barred := body + Repeated('|', bars);
    assert barred[|barred| - 1] == if bars > 0 then '|' else body[|body| - 1];
    TrimEndCharDrops(barred, '^', carets);
    TrimEndCharDrops(body, '|', bars);
  }

  ghost predicate Names(body: string, name: string) {
    '*' !in body && NormalizeDomain(body) == Some(name)
  }

  lemma SimpleBodyFacts(disposition: Disposition, rest: string, name: string)
    requires ParseSimpleBody(disposition, rest) == Some(DomainRule(disposition, name, true))
    ensures HasSimpleShape(rest) && NormalizeDomain(SimpleName(rest[2..])) == Some(name)
  {}

  lemma BarsFirst(rest: string) returns (text: string)
    requires StartsWith(rest, "||")
    ensures rest == "||" + text && text == rest[2..]
  {
    text := rest[2..];
  }

  lemma SimpleNameNamed(text: string, name: string) returns (body: string, bars: nat, carets: nat)
    requires '$' !in text && '*' !in text && NormalizeDomain(SimpleName(text)) == Some(name)
    ensures text == Tailed(body, bars, carets) && Names(body, name)
  {
    body, bars, carets := SimpleNameSplits(text);
    if '*' in body { StarInTail(body, bars, carets); }
    NormalizeTrimmed(body);
  }

  lemma SimpleBodySplits(rest: string, text: string, name: string) returns (body: string, bars: nat, carets: nat)
    requires HasSimpleShape(rest) && rest == "||" + text && NormalizeDomain(SimpleName(text)) == Some(name)
    ensures text == Tailed(body, bars, carets) && Names(body, name)
  {
    ShapeOfText(rest, text);
    body, bars, carets := SimpleNameNamed(text, name);
  }

  lemma ShapeOfText(rest: string, text: string)
    requires HasSimpleShape(rest) && rest == "||" + text
    ensures '$' !in text && '*' !in text
  {
    assert forall i :: 0 <= i < |text| ==> text[i] == rest[i + 2];
  }

  lemma StarInTail(body: string, bars: nat, carets: nat)
    requires '*' in body
    ensures '*' in Tailed(body, bars, carets)
  {
    var i :| 0 <= i < |body| && body[i] == '*';
    assert Tailed(body, bars, carets)[i] == '*';
  }

  lemma TailChars(body: string, bars: nat, carets: nat)
    requires body != "" && '*' !in body && forall i :: 0 <= i < |body| ==> IsNameText(body[i])
    ensures body[|body| - 1] != '|' && body[|body| - 1] != '^'
    ensures '$' !in Tailed(body, bars, carets) && '*' !in Tailed(body, bars, carets)
  {
    var text := Tailed(body, bars, carets);
    assert IsNameText(body[|body| - 1]);
    assert forall i :: 0 <= i < |text| ==>
      text[i] == if i < |body| then body[i] else if i < |body| + bars then '|' else '^';
  }

  lemma BarredShape(rest: string, text: string)
    requires rest == "||" + text && '$' !in text && '*' !in text
    ensures HasSimpleShape(rest)
  {
    assert forall i :: 0 <= i < |rest| ==> rest[i] == if i < 2 then '|' else text[i - 2];
    assert rest[0] != "/"[0];
  }

  lemma SimpleBodyJoins(disposition: Disposition, rest: string, body: string, bars: nat, carets: nat, name: string)
    requires rest == "||" + Tailed(body, bars, carets) && Names(body, name)
    ensures ParseSimpleBody(disposition, rest) == Some(DomainRule(disposition, name, true))
  {
    var text := Tailed(body, bars, carets);
    AcceptedChars(body, name);
    TailChars(body, bars, carets);
    assert rest[2..] == text;
    BarredShape(rest, text);
    SimpleNameOf(text, body, bars, carets);
    NormalizeTrimmed(body);
    SimpleBodyReads(disposition, rest, name);
  }

  /** The rule texts that name `name`. */
  ghost predicate IsSimpleText(line: string, disposition: Disposition, name: string) {
    exists body, bars, carets :: line == SimpleText(disposition, body, bars, carets) && Names(body, name)
  }

  lemma SimpleTextIntro(line: string, disposition: Disposition, name: string, body: string, bars: nat, carets: nat)
    requires line == MarkOf(disposition) + ("||" + Tailed(body, bars, carets)) && Names(body, name)
    ensures IsSimpleText(line, disposition, name)
  {
    assert line == SimpleText(disposition, body, bars, carets);
  }

  lemma MarkedRest(line: string, disposition: Disposition, rest: string)
    requires line == MarkOf(disposition) + rest && StartsWith(rest, "||")
    ensures ParseSimpleRule(line) == ParseSimpleBody(disposition, rest)
  {
    if disposition == Allow {
      assert line[2..] == rest && StartsWith(line, "@@");
    } else {
      assert line == rest && line[0] != "@@"[0];
    }
  }

  lemma MarkedCases(line: string)
    ensures ParseSimpleRule(line) ==
            if StartsWith(line, "@@") then ParseSimpleBody(Allow, line[2..]) else ParseSimpleBody(Block, line)
  {}

  lemma MarkFirst(line: string) returns (disposition: Disposition, rest: string)
    ensures line == MarkOf(disposition) + rest
    ensures if StartsWith(line, "@@") then disposition == Allow && rest == line[2..]
            else disposition == Block && rest == line
  {
    disposition := if StartsWith(line, "@@") then Allow else Block;
    rest := if StartsWith(line, "@@") then line[2..] else line;
  }

  lemma SimpleBodyText(disposition: Disposition, rest: string, name: string)
    requires ParseSimpleBody(disposition, rest) == Some(DomainRule(disposition, name, true))
    ensures exists body, bars, carets :: rest == "||" + Tailed(body, bars, carets) && Names(body, name)
  {
    SimpleBodyFacts(disposition, rest, name);
    var text := BarsFirst(rest);
    var body, bars, carets := SimpleBodySplits(rest, text, name);
  }

  lemma SimpleRuleRead(line: string, disposition: Disposition, name: string)
    requires ParseSimpleRule(line) == Some(DomainRule(disposition, name, true))
    ensures IsSimpleText(line, disposition, name)
  {
    var mark, rest := MarkFirst(line);
    MarkedCases(line);
    SimpleBodyText(mark, rest, name);
    var body, bars, carets :| rest == "||" + Tailed(body, bars, carets) && Names(body, name);
    SimpleTextIntro(line, disposition, name, body, bars, carets);
  }

  lemma SimpleTextReads(line: string, disposition: Disposition, name: string)
    requires IsSimpleText(line, disposition, name)
    ensures ParseSimpleRule(line) == Some(DomainRule(disposition, name, true))
  {
    var body, bars, carets :| line == SimpleText(disposition, body, bars, carets) && Names(body, name);
    var rest := "||" + Tailed(body, bars, carets);
    MarkedRest(line, disposition, rest);
    SimpleBodyJoins(disposition, rest, body, bars, carets, name);
  }

  /**
   * The simple route reads exactly these texts: the mark of an allow rule if it is one, two bars, a
   * text without stars that normalises to the name, and any bars and then any carets.
   */
  lemma SimpleRuleExactly(line: string, disposition: Disposition, name: string)
    ensures ParseSimpleRule(line) == Some(DomainRule(disposition, name, true)) <==>
            IsSimpleText(line, disposition, name)
  {
    if ParseSimpleRule(line) == Some(DomainRule(disposition, name, true)) { SimpleRuleRead(line, disposition, name); }
    if IsSimpleText(line, disposition, name) { SimpleTextReads(line, disposition, name); }
  }

  ghost predicate MakesAllow(result: Result<Effect, SyntaxError>, name: string) {
    && result.Ok? && result.value.DomainRules?
    && exists r :: r in result.value.rules && r.disposition == Allow && r.domain == name
  }

  /** Only the simple route makes allow rules, so those lines are known too. */
  lemma AllowLinesExactly(lib: Library, line: string, origin: Origin, name: string)
    ensures MakesAllow(Classify(lib, line, origin), name) <==> IsSimpleText(Trim(StripComments(line)), Allow, name)
  {
    var text := Trim(StripComments(line));
    SimpleRuleExactly(text, Allow, name);
    AllowRoute(lib, line, origin, text, name);
  }

  lemma AllowRoute(lib: Library, line: string, origin: Origin, text: string, name: string)
    requires text == Trim(StripComments(line))
    ensures MakesAllow(Classify(lib, line, origin), name) <==>
            ParseSimpleRule(text) == Some(DomainRule(Allow, name, true))
  {
    if text == "" {
      EmptyLine(lib, line, origin, text);
    } else if ParseSimpleRule(text).Some? {
      SimpleRoute(lib, line, origin, text);
      OneRule(ParseSimpleRule(text).value, name);
    } else {
      OtherRoutes(lib, line, origin, text);
      NoAllowElsewhere(lib, text, origin, name);
    }
  }

  lemma OneRule(rule: DomainRule, name: string)
    requires rule.includeSubdomains
    ensures MakesAllow(Ok(DomainRules([rule])), name) <==> rule == DomainRule(Allow, name, true)
  {
    assert rule in [rule];
  }

  lemma NoAllowElsewhere(lib: Library, text: string, origin: Origin, name: string)
    ensures !MakesAllow(ClassifyOther(lib, text, origin), name)
  {}

  lemma EmptyLine(lib: Library, line: string, origin: Origin, text: string)
    requires text == Trim(StripComments(line)) == ""
    ensures Classify(lib, line, origin) == Ok(Nothing) && ParseSimpleRule(text) == None
  {}

  lemma SimpleRoute(lib: Library, line: string, origin: Origin, text: string)
    requires text == Trim(StripComments(line)) && text != "" && ParseSimpleRule(text).Some?
    ensures Classify(lib, line, origin) == Ok(DomainRules([ParseSimpleRule(text).value]))
  {}

  lemma OtherRoutes(lib: Library, line: string, origin: Origin, text: string)
    requires text == Trim(StripComments(line)) && text != "" && ParseSimpleRule(text) == None
    ensures Classify(lib, line, origin) == ClassifyOther(lib, text, origin)
  {}
}
