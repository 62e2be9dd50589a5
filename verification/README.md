# Astra DNS: what its core does, proved

Astra DNS is a DNS server for home routers: it filters queries by ad-block lists, answers LAN names
from DHCP leases, forwards the rest to several upstreams at once, and reloads itself while it
serves. This project models the parts of it that decide something and proves what they decide.
`dafny verify dfyconfig.toml` checks everything.

| File | Models |
|---|---|
| `text.dfy`, `numbers.dfy` | the operations of Rust's `str` the code is written with, and some arithmetic |
| `domains.dfy`, `name_forms.dfy` | name normalisation, suffix matching, the parent walk (`src/adblock/rules.rs`) |
| `regexes.dfy`, `patterns.dfy` | a small regex language, and the compiler from filter patterns to regex text |
| `rule_syntax.dfy`, `simple_lines.dfy`, `line_forms.dfy`, `modifier_meanings.dfy`, `modified_rules.dfy` | one filter line: how it is cut up and what it asks for |
| `rule_index.dfy`, `disabled_allows.dfy`, `badfilter_lines.dfy`, `taken_back.dfy` | the index that prunes while it is built, and what `$badfilter` does to it |
| `rule_sets.dfy`, `block_decision.dfy`, `line_order.dfy` | the rule sets as an object, the staged lookup, the two end to end, and when the order of lines shows |
| `addresses.dfy`, `overrides.dfy`, `local_answers.dfy`, `lan_hosts.dfy` | reverse names, local answers, DHCP leases |
| `control_messages.dfy`, `message_chains.dfy` | the ancillary-data codec of the UDP sockets (`src/udp/pktinfo.rs`) |
| `upstream_slots.dfy`, `upstream_recovery.dfy`, `query_race.dfy` | upstream slots, the recovery worker, the fan-out lookup (`src/upstream.rs`) |
| `filter_cache.dfy`, `reload_loop.dfy` | the filter cache and builds from it; the server's main loop |

Where the source updates something in place there is a class or a method with a loop, proved equal
to a specification function; the theorems are about those functions, for every input, every run and
every order of events.

## Main results

- **Patterns.** For every pattern and every text, the emitted regex text parses, and a search with it
  succeeds exactly when a direct reading of the pattern accepts the text
  (`Patterns.AdblockPatternToRegex`, `Patterns.CompilerPreservesMeaning`).
- **Rules.** From rule lines to the answer of a query: the pruned, order-dependent index decides as the
  lines do when taken as an unordered collection, as long as no badfilter disables an allow rule that
  was needed (`BlockDecision.AnswerQuery`, `BlockDecision.BuildDecides`).
- **Badfilters.** Disabling block rules is exact. Disabling an allow rule leaves the decision to the
  rules that are still enabled, whatever the order of the lines, if and only if every enabled block
  rule is *expendable*: still allowed, or covered by an enabled block rule that no allow rule touches
  (`DisabledAllows.DisablingAllowsExactly`). A filter rule can be disabled by some line if and only if
  it has no modifiers and does not end in a comma (`BadfilterLines.DisablableExactly`), and a line that
  gives domain rules has them taken back by its own text and `$badfilter` if and only if it is not read
  as an address and names (`TakenBack.TakenBackExactly`).
- **Order.** The order of the lines never shows in what the domain index decides if and only if every
  enabled block rule on a name that no allow rule carries, disabled or not, is expendable
  (`DisabledAllows.OrderIsIrrelevantExactly`, `LineOrder.LineOrderExactly`). Two orders give a query the
  same verdict if and only if their indexes agree on the name or some standing rule with a pattern
  matches the query (`LineOrder.VerdictOrderExactly`).
- **Control messages.** On arbitrary bytes, parsing yields some packet info precisely when the bytes
  spell messages, whatever their padding, with that info as the only packet info
  (`ControlMessages.DecodeExact`, `MessageChains.ChainExactly`, `MessageChains.DecodeSpelled`).
- **Upstreams.** Pacing of attempts over every run (`UpstreamRecovery.AttemptsPerWindow`,
  `UpstreamRecovery.AttemptsKeepComing`); the resolver object survives a run exactly if no refresh on
  the way brings another address set (`UpstreamSlots.SlotSafety`); the kind of reply is independent of
  who finishes first if and only if nobody answers while somebody trusted denies
  (`QueryRace.KindIsOrderFreeExactly`), the reply itself if and only if all that is decisive says the
  same (`QueryRace.ReplyIsOrderFreeExactly`), and every broken upstream is asked to refresh in every order if
  and only if nobody decides the race or nobody is broken (`QueryRace.AlwaysBlamesAllExactly`).
- **Cache and reloads.** After a refresh, the cache gives back the contents of the refresh if and only if
  filters that share a cache file were given the same contents (`FilterCache.CacheAgreesExactly`); catalog, settings and log
  level always stem from one and the same load (`ReloadLoop.ActiveIsLastAccepted`), and a refresh that
  is taken over ends the retries (`ReloadLoop.RefreshEndsRetrying`).

## Where the code is narrower than it reads

Each of these is proved; the model follows the code.

- The repository's README.md:266 lists `$badfilter` as supported without reservation. A line is a badfilter line only if
  its text ends in the very letters `$badfilter`, and no modifier that parses contains a dollar sign.
  So a rule that carries modifiers, or ends in a comma, cannot be disabled by any line, and
  `||name^$important,badfilter` adds a block rule instead of removing one
  (`BadfilterLines.DisablableExactly`, `BadfilterLines.CommaBadfilterBlocks`).
- Disabling an allow rule does not bring back the block rules it pruned
  (`DisabledAllows.DisabledAllowKeepsPruning`): with the lines `||b^`, `@@||b^` and `@@||b^$badfilter`, `b` is
  not blocked in any order (`TakenBack.LostInEveryOrder`). Which ones it pruned depends on the order:
  with `||a.b^` in place of `||b^`, `a.b` is blocked only if that line came first
  (`TakenBack.OrderShows`).
- A hosts line followed by `$badfilter` takes nothing back (`TakenBack.TakenBackExactly`); with several
  names it even blocks all but the last again.
- Pruning is sound only because every allow rule covers its subdomains too; an allow rule for a single
  name would lose block rules (`RuleIndex.NarrowAllowsWouldLoseRules`). `RuleSyntax.Classify` shows
  that no line makes one.
- `||name` without `^` means something else on the simple route, which trims `^`, than as a compiled
  pattern, whose tail is then open (`Patterns.OpenTailIsWider`). Compiled patterns are not lower-cased,
  so one with a capital letter accepts no query name (`Patterns.CapitalsNeverMatch`).
- Normalising a name is not idempotent: `*..foo` gives `.foo`, and that gives `foo`
  (`NameForms.NotIdempotent`). It is so exactly for texts that, less their blanks and outer dots, start
  with `*.` labels and then a dot (`NameForms.NormalizeTwice`).
- What the server sends for IPv4 is not what it accepts: the sent message leaves the destination zero
  and the parser demands that it equal the local address (`ControlMessages.SentRoundTrip`).
- The repository's README.md:287-288 calls periodic filter refresh and hot reload unsupported; the main loop does both,
  as lines 134-138 and 330-356 of the same file say.

## Assumptions

- `RuleSyntax.Library` holds what the standard library, the DNS library and the regex crate decide
  about texts: address syntax, record-type names, valid regexes and their matches. Theorems hold for
  all of them. Where a theorem needs the regex crate to take a generated text and give it its textbook
  meaning it requires `RuleSyntax.Textbook` of that text, or just that it is valid; where it needs that
  no record type is named with a dollar sign, or that addresses are written with hexadecimal digits,
  dots and colons, it requires `BadfilterLines.PlainTypeNames` or `TakenBack.PlainAddresses`.
- Word size (4 or 8), byte order of the host and the width of the length field of a control message
  are parameters: on 64-bit musl that field is four bytes and padding, on glibc a whole word.
  Structure sizes are those of Linux:
  12 bytes for IPv4 packet info, 20 for IPv6, 16 and 28 for socket addresses.
- Lookup results, downloads, write failures, notifications, timer lateness, completion order and
  signals are arbitrary inputs.

## Model

| member | source | states |
|---|---|---|
| `Domains.SuffixMatchMeaning` | src/adblock/rules.rs:789-794 | a name matches a suffix exactly if it is the suffix or ends in a dot and the suffix |
| `Domains.SuffixMatchTransitive` | src/adblock/rules.rs:789-794 | suffix matching is transitive, on which pruning rests |
| `Domains.DomainSetMatches` | src/adblock/rules.rs:767-787 | the parent walk finds a name exactly when a linear scan of both sets does, and it terminates on every string |
| `Domains.NormalizedNames` | src/adblock/rules.rs:613-636 | the names that normalise to themselves are exactly those of name characters with no dot at either end |
| `NameForms.NormalizeExactly` | src/adblock/rules.rs:613-636 | which texts are accepted, and as what: blanks, dots, `*.` labels, a core of accepted characters, dots, blanks; the name is the core in lower case |
| `NameForms.NormalizeTwice` | src/adblock/rules.rs:613-636 | normalising again changes nothing if and only if the input, less blanks and outer dots, does not start with `*.` labels and then a dot |
| `NameForms.NotIdempotent` | src/adblock/rules.rs:613-636 | for every plain name, a star label, a dot and the name is an input for which it does |
| `Regexes.AnyRun` | src/adblock/rules.rs:473-491 | the emitted `.*` matches exactly the stretches without a newline |
| `Patterns.AdblockPatternToRegex` | src/adblock/rules.rs:464-507 | the emitted text parses, and searching with it accepts a text exactly when the pattern, read directly, does |
| `Patterns.CompilerParses` | src/adblock/rules.rs:464-507 | the emitted text is always a valid regex and parses to the intended tree, so escaping is right and `Regex::new` cannot fail on it |
| `Patterns.CompilerPreservesMeaning` | src/adblock/rules.rs:464-507 | the intended tree accepts exactly what the direct reading of the pattern accepts, for every pattern and every text |
| `Patterns.CompilerCorrect` | src/adblock/rules.rs:464-507 | the two together, for the emitted text |
| `Patterns.RegexTextTail` | src/adblock/rules.rs:502-504 | the open tail is added exactly if the last character of the pattern body is no end mark, although the code looks at the emitted text |
| `Patterns.LiteralBody` | src/adblock/rules.rs:484-500 | a body without special characters accepts that very text, up to the end if `^` closes it |
| `Patterns.LabelAnchorsAgree` | src/adblock/rules.rs:469-478 | a body after a double bar and the same body after a leading dot accept the same texts, though they compile differently |
| `Patterns.RoutesAgree` | src/adblock/rules.rs:464-507 | a double bar, a name and `^`, compiled, accept exactly the newline-free names that suffix matching and the set lookup find under the name |
| `Patterns.OpenTailIsWider` | src/adblock/rules.rs:502-504 | without the closing `^` every continuation is accepted, so the pattern never agrees with the suffix match of the simple route |
| `Patterns.CapitalsNeverMatch` | src/adblock/rules.rs:498 | literals are not lower-cased: a body with a capital letter accepts no lower-case name |
| `RuleSyntax.SplitPatternAndModifiers` | src/adblock/rules.rs:366-397 | the scanner splits at the first unescaped slash before `$` or the end; its flag means an odd run of backslashes |
| `RuleSyntax.LongestRun` | src/adblock/rules.rs:374-385 | the run that the flag counts is the longest one of backslashes that ends there, the opening slash aside |
| `RuleSyntax.SplitLosesNothing` | src/adblock/rules.rs:366-397 | pattern and modifiers rejoin to the line, the split is at the first closing slash, and an error means there is none |
| `RuleSyntax.ParseModifiers` | src/adblock/rules.rs:406-437 | modifiers are folded left to right, the first bad one is the error |
| `RuleSyntax.SimpleRuleRoundTrip` | src/adblock/rules.rs:320-338 | the block and the allow form of a name are read back as rules on that very name |
| `SimpleLines.SimpleRuleExactly` | src/adblock/rules.rs:320-338 | the simple route reads exactly the texts of an optional allow mark, two bars, a text without stars that normalises to the name, then bars, then carets; always with subdomains |
| `SimpleLines.AllowLinesExactly` | src/adblock/rules.rs:250-309 | a line makes an allow rule on a domain exactly if its text is such an allow text; no other route does |
| `RuleSyntax.ParseComplexRule` | src/adblock/rules.rs:340-364 | split, modifiers, then the regex taken as it stands or compiled, and the error of whichever fails first |
| `BadfilterLines.BadfilterExactly` | src/adblock/rules.rs:283-292 | on the last route a line is a badfilter line exactly if it is a good rule without modifiers and then `$badfilter`; its target is that rule less trailing commas |
| `LineForms.BareNameLine` | src/adblock/rules.rs:278-281 | a bare name blocks that name and nothing below it |
| `LineForms.CommentLine` | src/adblock/rules.rs:256-259 | a line with nothing on it, or with a comment sign first, asks for nothing |
| `LineForms.SimpleLine` | src/adblock/rules.rs:261-265 | the documented block and allow lines block and allow the name and everything below |
| `LineForms.HostsLine` | src/adblock/rules.rs:267-276 | an address and texts, with any blanks around and between: each text that is a name is blocked by itself in a remote list, and answered with the address among user rules; other texts are dropped |
| `LineForms.ModifiedRule` | src/adblock/rules.rs:340-364 | a rule on a name with `$important` or `$badfilter` becomes the compiled pattern with that one flag |
| `LineForms.ImportantRuleMatches` | src/adblock/rules.rs:340-364 | the regex of a rule on a name with `$important` matches exactly the newline-free names that the rule without it covers |
| `LineForms.BadfilterLine` | src/adblock/rules.rs:283-292 | a block rule on a name with `$badfilter` does nothing but disable the block rule on that name |
| `TakenBack.AllowBadfilterLine` | src/adblock/rules.rs:283-292 | the allow rule with `$badfilter` does nothing but disable the allow rule on that name |
| `TakenBack.TakenBackExactly` | src/adblock/rules.rs:250-305 | a line that gives domain rules has them all taken back by its own text with `$badfilter` after it if and only if it is not read as an address and names |
| `TakenBack.OrderShows` | src/adblock/rules.rs:692-761 | three lines, two orders, two verdicts: a block line below an allow line that is disabled |
| `TakenBack.LostInEveryOrder` | src/adblock/rules.rs:692-761 | three lines whose block rule is enabled and blocks in no order |
| `ModifierMeanings.DnstypeMeaning` | src/adblock/rules.rs:439-462 | good values are all negated or all plain and name record types; the rule then applies to the listed types, or to all others |
| `ModifierMeanings.DenyallowRoundTrip` | src/adblock/rules.rs:426-432 | the value of `denyallow=` is read back as the patterns it was written from |
| `ModifierMeanings.PatternExactly` | src/adblock/rules.rs:885-893 | which texts are patterns, on which name, and which are wildcards |
| `ModifierMeanings.DenyallowCovers` | src/adblock/rules.rs:895-900 | a name exempts itself only; a wildcard exempts every name below it and not itself |
| `ModifiedRules.DnstypeRoundTrip` | src/adblock/rules.rs:421-424 | the value of `dnstype=`, types spelled in any case, is read back as the listed types or all others; the other modifiers stay as they were |
| `ModifiedRules.DnstypeRule` | src/adblock/rules.rs:340-364 | a rule on a name with `$dnstype=` matches the name and those below it for the selected types and no others |
| `ModifiedRules.FullRule` | src/adblock/rules.rs:406-437 | with `important`, `dnstype=` and `denyallow=` together, each has its own effect on which queries the rule matches |
| `ModifiedRules.NamedRuleMatches` | src/adblock/authority.rs:712-735 | a rule on a name matches by name, record type and exemptions, all three |
| `ModifiedRules.ImportantRule` | src/adblock/rules.rs:340-364 | a rule on a name with `$important` alone matches the name and those below it for every record type |
| `ModifiedRules.RegexRule` | src/adblock/rules.rs:347-353 | a rule between slashes is that very regex, without the slashes, with what its modifiers say |
| `ModifiedRules.UnknownModifier` | src/adblock/rules.rs:433 | any other modifier fails the rule |
| `ModifiedRules.DenyallowFails` | src/adblock/rules.rs:426-432 | `denyallow=` fails exactly if some part is no name |
| `ModifiedRules.InvalidRegexFails` | src/adblock/rules.rs:347-355 | an invalid regex fails the rule |
| `RuleIndex.AddRulePreserves` | src/adblock/rules.rs:692-717 | one rule added keeps the index a faithful pruning of the rules so far |
| `RuleIndex.AddRulesPreserves` | src/adblock/rules.rs:692-717 | so does a whole stream of rules |
| `RuleIndex.PrunedIsAllowed` | src/adblock/rules.rs:705-708 | whatever a dropped block rule covers is allowed anyway |
| `RuleIndex.PruningIsSound` | src/adblock/rules.rs:692-717 | the index decides "some block rule covers the name and no allow rule does", for every rule sequence |
| `RuleIndex.NarrowAllowsWouldLoseRules` | src/adblock/rules.rs:692-717 | that fails for an allow rule without subdomains, by example |
| `RuleIndex.RemoveTargetStep` | src/adblock/rules.rs:719-732 | targets removed one by one, in any order, come to one set difference |
| `RuleIndex.WithoutIsIdempotent` | src/adblock/rules.rs:719-732 | removing the same targets again changes nothing |
| `RuleIndex.BadfiltersDecide` | src/adblock/rules.rs:719-761 | while no allow rule is disabled, the index decides as the enabled rules alone do, wherever the badfilter lines stood |
| `DisabledAllows.DisablingAllowsExactly` | src/adblock/rules.rs:692-761 | with any rules disabled, every order of the lines decides as the enabled rules do if and only if every enabled block rule is still allowed or is covered by an enabled block rule that no allow rule ever touched |
| `DisabledAllows.ExpendableSuffices` | src/adblock/rules.rs:692-761 | the condition suffices, for one given order |
| `DisabledAllows.ExpendableIsNeeded` | src/adblock/rules.rs:692-761 | the order with allow rules first already makes the condition necessary |
| `DisabledAllows.DisabledAllowKeepsPruning` | src/adblock/rules.rs:692-761 | for any name: an allow and a block rule on it, the allow rule disabled, and the name is not blocked |
| `DisabledAllows.OrderFreeSuffices` | src/adblock/rules.rs:692-761 | if the enabled block rules on names no allow rule carries are expendable, any order decides as those rules and the enabled allow rules do |
| `DisabledAllows.TwoOrdersTell` | src/adblock/rules.rs:692-761 | if allow rules first and block rules first decide alike, they are |
| `DisabledAllows.OrderIsIrrelevantExactly` | src/adblock/rules.rs:692-761 | so all orders of the rules decide every name alike if and only if every enabled block rule whose own name no allow rule carries, disabled or not, is expendable |
| `DisabledAllows.OrderCanMatter` | src/adblock/rules.rs:692-761 | for any name and a name below it, a pair of rules whose two orders decide differently |
| `DisabledAllows.WrongInEveryOrder` | src/adblock/rules.rs:692-761 | a pair whose orders agree although they do not decide as the enabled rules do |
| `BadfilterLines.ModifiersAreDollarFree` | src/adblock/rules.rs:406-437 | a modifier text that parses contains no dollar sign |
| `BadfilterLines.TargetsHaveNoModifiers` | src/adblock/rules.rs:283-292 | what a badfilter line disables never has modifiers |
| `BadfilterLines.UnmodifiedIsDisabled` | src/adblock/rules.rs:283-292 | any filter rule that some line gives, without modifiers and not ending in a comma, is disabled by its text with `$badfilter` after it |
| `BadfilterLines.DisablableExactly` | src/adblock/rules.rs:250-309 | a filter rule that some line gives can be disabled by some line if and only if it has no modifiers and does not end in a comma |
| `BadfilterLines.ModifiedRulesStand` | src/adblock/rules.rs:734-739 | whatever the lines, a rule that carries modifiers is not among the disabled texts |
| `BadfilterLines.CommaBadfilterBlocks` | src/adblock/rules.rs:283-305 | a rule on a name with `$important,badfilter` becomes one more block rule, not an important one |
| `RuleSetBuilding.RuleSets.AddDomainRule` | src/adblock/rules.rs:692-717 | the in-place update, with the parent walk inside, is one step of the index specification |
| `RuleSetBuilding.RuleSets.ParseRuleLine` | src/adblock/rules.rs:250-309 | a line changes the rule sets by exactly what it asks for; a line that does not parse changes nothing |
| `RuleSetBuilding.RuleSets.ParseRuleLines` | src/adblock/rules.rs:238-248 | lines are applied in order up to the first error; after an error the rule sets hold what the lines before it gave |
| `RuleSetBuilding.RuleSets.RemoveTarget` | src/adblock/rules.rs:741-761 | one target taken out, from the sets of its route only |
| `RuleSetBuilding.RuleSets.RemoveTargets` | src/adblock/rules.rs:719-732 | the disabled set is walked in an arbitrary order, and the result does not depend on it |
| `RuleSetBuilding.RuleSets.ApplyBadfilters` | src/adblock/rules.rs:719-739 | domain sets lose the targets' names, rule lists lose the rules with a disabled text, nothing else changes |
| `RuleSetBuilding.BuildRuleSets` | src/adblock/rules.rs:207-216 | a build without remote lists is feed all lines, then apply the badfilters |
| `RuleSetBuilding.KeepRules` | src/adblock/rules.rs:734-739 | retained are exactly the rules whose text is not disabled |
| `RuleSetBuilding.BadfiltersAreIdempotent` | src/adblock/rules.rs:719-739 | applying the same badfilters again changes nothing |
| `BlockDecision.BlockAuthority.Lookup` | src/adblock/authority.rs:340-368 | blocked exactly when no important allow rule matches and an important block rule does, or nothing normal allows and something normal blocks, although the normal stage scans important rules too |
| `BlockDecision.EffectsGather` | src/adblock/rules.rs:238-309 | feeding lines gathers their domain rules, filter rules and targets, in order |
| `BlockDecision.FeedApplies` | src/adblock/rules.rs:238-248 | feeding succeeds exactly if every line parses, and then applies their effects |
| `BlockDecision.BuildDecides` | src/adblock/rules.rs:154-188 | a build fails exactly if some line does not parse; otherwise it decides as the lines, taken as a collection, say, if every enabled block rule is expendable, and as their lasting rules say if only those are |
| `BlockDecision.StandingAllowsSettle` | src/adblock/rules.rs:154-188 | all are expendable whenever no badfilter takes out an allow rule that some line gives |
| `BlockDecision.EffectsInAnyOrder` | src/adblock/rules.rs:154-188 | both readings and both conditions depend on which effects there are, not on order or repetition |
| `LineOrder.LineOrderIsIrrelevant` | src/adblock/rules.rs:154-188 | the same lines in any order, repeated or not, build alike; and decide every query alike if every enabled block rule on a name that no allow rule carries is expendable |
| `LineOrder.LineOrderExactly` | src/adblock/rules.rs:154-188 | that condition is exact for what the domain index built from the lines decides |
| `LineOrder.LinesBlockMeaning` | src/adblock/rules.rs:154-188 | that index is the one of the finished rule sets |
| `LineOrder.VerdictOfIndex` | src/adblock/authority.rs:340-368 | the verdict in terms of the index and of the standing rules with patterns |
| `LineOrder.VerdictOrderExactly` | src/adblock/authority.rs:340-368 | two orders of the same lines give a query one verdict if and only if their indexes agree on the name or some standing rule with a pattern matches the query |
| `LineOrder.VerdictsNeverDifferExactly` | src/adblock/authority.rs:340-368 | so no order of the lines changes any verdict if and only if such rules cover every query on which the indexes differ |
| `LineOrder.ReaderReadsOneKind` | src/adblock/rules.rs:250-309 | no line makes allow rules and block rules together, as the exactness needs |
| `BlockDecision.LookupIn` | src/adblock/mod.rs:63-73 | leaving the handler out when there is nothing to block changes no answer |
| `BlockDecision.QueryNameExactly` | src/adblock/authority.rs:688-693 | the name a query is decided under is the one its text spells, in any case and with any number of dots after it |
| `BlockDecision.AnswerQuery` | src/adblock/authority.rs:340-368 | from rule lines and the text of a query to its answer, by the code's own steps: for the name that the text spells it agrees with the two readings of the lines, under the condition of each |
| `BlockDecision.GeneratedRegexes` | src/adblock/rules.rs:502-506 | if the engine is a textbook one on the compiled text, that text is valid and matches what the pattern accepts |
| `Addresses.DecimalRoundTrip` | src/adblock/rules.rs:674-678 | decimal labels read back as the number and contain no dot |
| `Addresses.ReverseNameRoundTrip` | src/adblock/rules.rs:671-690 | reverse names read back as the address, IPv4 (section 3.5 of RFC 1035) and IPv6 (section 2.5 of RFC 3596) |
| `Addresses.ReverseNameInjective` | src/adblock/rules.rs:671-690 | distinct addresses of either family have distinct reverse names |
| `Addresses.OrderKeyInjective` | src/upstream.rs:186 | the address order is total on addresses, so sorting brings equal ones together |
| `Addresses.OrderIsLexicographic` | src/upstream.rs:186 | IPv4 comes before IPv6, and within a family the first octet that differs decides |
| `Overrides.AddOverridesAnswers` | src/adblock/rules.rs:638-656 | adding answers adds exactly those |
| `LocalAnswers.BuildAnswers` | src/adblock/rules.rs:267-276 | a build answers a name with an address exactly if some line says so |
| `LocalAnswers.OnlyUsersAnswer` | src/adblock/rules.rs:154-188 | and only hosts lines of the user's do, never those of a remote list |
| `LanHosts.LeaseLine` | src/adblock/rules.rs:568-611 | exactly which lease a line of columns gives, with any blanks: from an address in the third and any text that normalises, other than `*`, in the fourth |
| `LanHosts.LeaseNamesAreQualified` | src/adblock/rules.rs:581-601 | with a LAN domain the reverse name is under it, the bare name is listed exactly if wanted or already qualified, and no name twice |
| `LanHosts.LeaseNamesExactly` | src/adblock/rules.rs:581-601 | exactly which names a lease gives, with and without a LAN domain, and which one is the reverse name |
| `LanHosts.HostIsServed` | src/adblock/rules.rs:519-611 | from a line of the lease file, for any host and LAN domain that normalise: the host's full name is answered with the address and is its reverse name, and the bare name is answered if wanted, whatever else the file holds |
| `LanHosts.LanHostOverrides.Add` | src/adblock/rules.rs:544-549 | one lease updates both tables as specified |
| `LanHosts.LanHostOverrides.Load` | src/adblock/rules.rs:538-550 | all lines, those without a lease skipped |
| `LanHosts.LoadLanHostOverrides` | src/adblock/rules.rs:519-559 | disabled or unreadable gives empty tables, otherwise those of all leases in the text |
| `LanHosts.ForwardEntries` | src/adblock/rules.rs:642-656 | a name is answered with an address exactly if some lease says so |
| `LanHosts.ReverseEntries` | src/adblock/rules.rs:658-669 | an address is reversed to a name exactly if some lease says so |
| `LanHosts.TablesAreTidy` | src/adblock/rules.rs:642-669 | no list repeats an entry and addresses are in the list of their family |
| `LanHosts.EarlierFirst` | src/adblock/rules.rs:642-669 | names and addresses are listed in the order in which the leases bring them |
| `LanHosts.ForwardConfirmed` | src/adblock/rules.rs:519-611 | for any lease text and configuration: every reverse name is forward-confirmed, every answered address has a reverse entry, nothing is listed twice |
| `ControlMessages.UintRoundTrip` | src/udp/pktinfo.rs:355-367 | integers written in either byte order are read back |
| `ControlMessages.BytesRoundTrip` | src/udp/pktinfo.rs:280-282 | bytes read as an integer are written back |
| `ControlMessages.LengthRoundTrip` | src/udp/pktinfo.rs:283-285 | the length field of either layout is read back, whatever the padding beside it |
| `ControlMessages.MaskRoundsUp` | src/udp/pktinfo.rs:331-332 | the mask expression rounds up to the word size |
| `ControlMessages.Scan` | src/udp/pktinfo.rs:276-334 | the loop keeps its offset word-aligned, stays in range, terminates, and judges the messages in order |
| `ControlMessages.DecodeInfo` | src/udp/pktinfo.rs:271-334 | the parser, on any bytes, is the specification that the next rows describe |
| `ControlMessages.Ipv4Unicast` | src/udp/pktinfo.rs:216-233 | the valid IPv4 addresses are all but 0.0.0.0, those from 224.0.0.0 to 239.255.255.255, and 255.255.255.255 |
| `ControlMessages.Ipv6Unicast` | src/udp/pktinfo.rs:216-233 | the valid IPv6 addresses are all but the unspecified one, those that start with ff, and mapped ones |
| `ControlMessages.CarriesMeaning` | src/udp/pktinfo.rs:288-323 | a message carries valid info exactly if it is, byte for byte, the one message that info is received as |
| `ControlMessages.DecodeExact` | src/udp/pktinfo.rs:271-334 | parsing arbitrary bytes yields info exactly when the walk finds a complete chain of messages, that info's message is among them, and no other packet info is |
| `MessageChains.ChainExactly` | src/udp/pktinfo.rs:276-333 | the walk finds exactly the messages that the bytes spell: header, payload and gap with any padding, the last gap perhaps cut short, then less than a header |
| `MessageChains.DecodeSpelled` | src/udp/pktinfo.rs:271-334 | so parsing is exact in terms of the bytes alone |
| `ControlMessages.MessagesRoundTrip` | src/udp/pktinfo.rs:271-334 | any list of messages laid out with CMSG_LEN and CMSG_SPACE is read back, also with a remainder shorter than a header |
| `ControlMessages.DecodeLaidOut` | src/udp/pktinfo.rs:271-334 | on laid-out lists parsing succeeds exactly with one packet info in all, of the right family and size, and valid; other messages are skipped |
| `ControlMessages.FillControl` | src/udp/pktinfo.rs:337-365 | the writer fills header and payload, leaves the rest of the 128 bytes alone, and returns the padded length, at most 128 |
| `ControlMessages.SendOnce` | src/udp/pktinfo.rs:153-200 | the control bytes of a reply are the one message laid out |
| `ControlMessages.SentFields` | src/udp/pktinfo.rs:166-198 | the message sent is the one received, but for an IPv4 destination of zero |
| `ControlMessages.ReceivedRoundTrip` | src/udp/pktinfo.rs:271-334 | what arrives for valid info of either family decodes to that info |
| `ControlMessages.SentRoundTrip` | src/udp/pktinfo.rs:166-198 | decoding what is sent gives the info back for IPv6, and never succeeds for IPv4 |
| `ControlMessages.PeerRoundTrip` | src/udp/pktinfo.rs:235-269 | every peer is read back from its socket address, except mapped IPv4 ones, which are refused |
| `ControlMessages.RecvOnce` | src/udp/pktinfo.rs:115-151 | exactly which datagrams are accepted, and that each accepted pair passes the checks of `send` |
| `UpstreamSlots.CanonicalAscends` | src/upstream.rs:185-190 | sorted and deduplicated lists ascend strictly and keep exactly the elements |
| `UpstreamSlots.CanonicalIsSetEquality` | src/upstream.rs:193-202 | comparing canonical lists compares address sets |
| `UpstreamSlots.UpstreamSlot.Install` | src/upstream.rs:179-215 | the in-place installation is the specification function |
| `UpstreamSlots.RefreshReplacesExactly` | src/upstream.rs:179-215 | a refresh replaces the resolver exactly if it succeeds with another address set, and denials are then trusted exactly if all new servers are; otherwise the slot is unchanged |
| `UpstreamSlots.SlotSafety` | src/upstream.rs:179-215 | over every run: ready stays ready, addresses stay sorted, distinct and non-empty, and the resolver is the old one exactly if no refresh brought another set |
| `UpstreamSlots.LaterResolver` | src/upstream.rs:209-213 | a resolver that is gone never comes back |
| `UpstreamSlots.ResolvedIsCanonical` | src/lib.rs:480-542 | a resolved endpoint gives one untrusted server for each address, in canonical order already |
| `UpstreamSlots.TrustNeverArises` | src/upstream.rs:203-213 | over every run of refreshes from resolved endpoints, an untrusted slot stays so |
| `UpstreamRecovery.RecoveryWorker.Attempt` | src/upstream.rs:235-280 | one turn of the loop, with its updates of backoff, slot and permit, is one step of the specification |
| `UpstreamRecovery.RecoveryWorker.ApplyRefresh` | src/upstream.rs:239-247 | a timeout, a failed lookup and a failed installation leave the slot alone |
| `UpstreamRecovery.RecoveryWorker.WaitAfterSuccess` | src/upstream.rs:273-278 | the wait between timer and notification, and what becomes of the stored permit |
| `UpstreamRecovery.RecoverUpstream` | src/upstream.rs:217-281 | the whole loop follows the specified run: when each attempt starts and what the slot holds |
| `UpstreamRecovery.BackoffLaw` | src/upstream.rs:230-265 | after any run the next failure sleeps `min(retry_min * 2^j, retry_max)`, `j` being the failures in a row before it |
| `UpstreamRecovery.AttemptExactly` | src/upstream.rs:238-265 | after any run: an attempt answered in time with another, usable address set puts a new resolver for exactly those addresses into the slot, every other leaves it, and it fails exactly if there is no usable answer in time |
| `UpstreamRecovery.AttemptTiming` | src/upstream.rs:238-275 | the next attempt starts after the answer or the deadline, and then the backoff or the refresh interval |
| `UpstreamRecovery.OutageKeepsNotifications` | src/upstream.rs:269-278 | over a whole outage, a notification is stored at the end exactly if there was one before or during it |
| `UpstreamRecovery.FirstOutage` | src/upstream.rs:230-271 | a worker starts without a stored notification |
| `UpstreamRecovery.NotificationsCannotHurry` | src/upstream.rs:269-271 | two courses of events that differ only in notifications, all of whose attempts fail, start every attempt at the same times |
| `UpstreamRecovery.AttemptsAreSpaced` | src/upstream.rs:217-281 | over every run, `k` more attempts take at least `k * retry_min` |
| `UpstreamRecovery.AttemptsPerWindow` | src/upstream.rs:217-281 | a window holds at most `1 + span / retry_min` attempts |
| `UpstreamRecovery.AttemptsKeepComing` | src/upstream.rs:217-281 | with punctual timers no gap exceeds `bootstrap_timeout + max(retry_max, refresh_interval)` |
| `UpstreamRecovery.NotificationsNeverDelay` | src/upstream.rs:268-279 | of two courses of events that differ only in that one has no notifications, the other starts every attempt at the same time or earlier, over every run |
| `UpstreamRecovery.NotificationsRefreshEarly` | src/upstream.rs:273-278 | after one success with punctual timers: when the next attempt starts, and that a notification is used up by it |
| `UpstreamRecovery.RunRefreshesSlot` | src/upstream.rs:242-247 | the slot of a worker goes through the refreshes that answered in time, so the slot theorems apply to every run |
| `UpstreamRecovery.FailureKeepsSlot` | src/upstream.rs:242-247 | a failed attempt changes nothing in the slot |
| `UpstreamRecovery.WorkersNeverTrust` | src/upstream.rs:115-146 | a worker installs what its endpoint resolves to, so its slot is never trusted to deny, over every run |
| `QueryRace.RecoveringForwarder.Lookup` | src/upstream.rs:307-356 | for every completion order, the loop gives the specified reply and notifies exactly the upstreams seen broken before it ended |
| `QueryRace.RaceFromMeaning` | src/upstream.rs:328-350 | the loop's running result is the specified reply at every point |
| `QueryRace.DenialsExactly` | src/upstream.rs:390-401 | which errors deny a name or its records; all others are failures |
| `QueryRace.ServFailExactly` | src/upstream.rs:351-355 | SERVFAIL exactly when no upstream answered or denied |
| `QueryRace.AnswersBeatUntrustedDenials` | src/upstream.rs:333-346 | if nobody is trusted to deny, any answer beats every denial |
| `QueryRace.RepliesAreEarned` | src/upstream.rs:328-355 | a reply is what some upstream said, or SERVFAIL; only upstreams that failed without an answer are blamed |
| `QueryRace.BlamesAllExactly` | src/upstream.rs:328-346 | in a given completion order every broken upstream is notified exactly if none completes after something decisive |
| `QueryRace.AlwaysBlamesAllExactly` | src/upstream.rs:328-346 | in every order it is, if and only if nothing is decisive or nobody is broken |
| `QueryRace.KindIsOrderFreeExactly` | src/upstream.rs:328-355 | answer, denial or failure is the same for every completion order if and only if nobody answered while somebody trusted denied |
| `QueryRace.ReplyIsOrderFreeExactly` | src/upstream.rs:328-355 | the reply is the same for every completion order if and only if all decisive completions say the same and, if there are none, all denials do |
| `FilterCache.IdsHaveOwnKeys` | src/adblock/fetch.rs:39-47 | filters with ids share a cache file exactly if they share the id |
| `FilterCache.KeyReadsBack` | src/adblock/fetch.rs:39-47 | the file of a filter is its id in decimal, or the hash of its URL in 16 hex digits, and `.txt` |
| `FilterCache.KeyInPlace` | src/adblock/rules.rs:162 | an enabled filter has its cache file in its place in the build, a disabled one leaves no trace |
| `FilterCache.KeysOfEnabled` | src/adblock/rules.rs:162 | the cache files of a build are those of the enabled filters and no others |
| `FilterCache.Cache.Persist` | src/adblock/fetch.rs:103-119 | equal contents are not written again; otherwise the file is what the write left, and only a complete write succeeds |
| `FilterCache.Cache.FetchFilter` | src/adblock/fetch.rs:54-101 | fetching, with its updates of the cache, is the specification function |
| `FilterCache.FetchKeepsCache` | src/adblock/fetch.rs:61-76 | a failed download and cache-only mode change nothing and give what the cache has |
| `FilterCache.FetchWritesItsFile` | src/adblock/fetch.rs:78-86 | a download that is written is returned and kept, and touches no other file |
| `FilterCache.FetchFailsExactly` | src/adblock/fetch.rs:54-101 | exactly when a fetch fails, and what it returns otherwise |
| `FilterCache.BuildWithFetchMode` | src/adblock/rules.rs:154-188 | the build is the specified run of fetches, lines, user rules and badfilters, with its first error and with the cache it leaves in every case |
| `FilterCache.FiltersInPhases` | src/adblock/rules.rs:162-180 | fetching and parsing in turns comes to fetching everything and then parsing everything; after an error the cache is what the fetches up to it left |
| `FilterCache.BuildInPhases` | src/adblock/rules.rs:154-188 | so a build succeeds exactly if all fetches do and all lines parse, and gives the rule sets of those lines |
| `FilterCache.DisabledFiltersDoNotMatter` | src/adblock/rules.rs:162 | putting a disabled filter in anywhere changes neither the rule sets, nor the error, nor the cache |
| `FilterCache.CacheOnlyBuildsKeep` | src/adblock/fetch.rs:61-76 | a cache-only build never writes |
| `FilterCache.RefreshFillsCache` | src/adblock/rules.rs:143-148 | after a successful refresh every enabled filter is cached, with the contents of the last filter that uses the file |
| `FilterCache.CacheOnlyReadsAll` | src/adblock/rules.rs:130-132 | with nothing uncached, a cache-only pass reads every file |
| `FilterCache.CacheAgreesExactly` | src/adblock/rules.rs:130-148 | after a successful refresh nothing is uncached, and the cache gives the same contents if and only if filters sharing a file agreed |
| `FilterCache.CacheOnlyRebuilds` | src/adblock/rules.rs:154-188 | if filters that share a cache file were given the same contents, a cache-only build after a successful refresh build gives the very same rule sets and leaves the cache alone |
| `FilterCache.RefreshLeavesNothingUncached` | src/adblock/rules.rs:135-141 | after a successful refresh build no enabled filter is uncached |
| `FilterCache.RefreshCachesFilters` | src/adblock/rules.rs:135-141 | in terms of filters: after a successful refresh build no enabled one is uncached |
| `FilterCache.CacheOnlyRebuildsFilters` | src/adblock/rules.rs:154-188 | in terms of filters: if the enabled ones have ids of their own, a cache-only build repeats a refresh build |
| `ReloadLoop.ChangedSettings` | src/bin/astra-dns.rs:689-722 | nothing is reported exactly if the listener and process settings are equal |
| `ReloadLoop.ChangesAreNamed` | src/bin/astra-dns.rs:689-722 | each setting that differs is named in the complaint, and no other |
| `ReloadLoop.ReloadableCatalog.Replace` | src/bin/astra-dns.rs:602-607 | the catalog that is served is the new one |
| `ReloadLoop.ServerLoop.ReloadRuntimeConfig` | src/bin/astra-dns.rs:519-540 | a reload replaces catalog, settings and log level together, or nothing |
| `ReloadLoop.ServerLoop.Handle` | src/bin/astra-dns.rs:362-402 | one event changes catalog, settings, retry delay and timer as one step of the specification |
| `ReloadLoop.ServerLoop.Serve` | src/bin/astra-dns.rs:352-408 | the loop follows the specified run on every event sequence |
| `ReloadLoop.EventsAreHandled` | src/bin/astra-dns.rs:362-402 | a hangup, and a timer event that is due with something to refresh, takes a good load over and sets retry delay and timer; a bad load changes nothing else |
| `ReloadLoop.OtherTimersAreIgnored` | src/bin/astra-dns.rs:380-382 | a timer event that is not due, or with nothing to refresh, changes nothing |
| `ReloadLoop.FirstRefresh` | src/bin/astra-dns.rs:352-353 | at startup the first refresh is due after a second if a list is missing, otherwise after the interval |
| `ReloadLoop.ActiveIsLastAccepted` | src/bin/astra-dns.rs:519-540 | what is active comes whole from the last acceptable load, and listener and process settings stay those of startup |
| `ReloadLoop.LastAcceptedIsSomebodys` | src/bin/astra-dns.rs:519-540 | that load is the startup one or an acceptable one that some event brought |
| `ReloadLoop.RetryDelayLaw` | src/bin/astra-dns.rs:352-402 | the retry delay is `min(2^k, 30)` after `k` failed timer refreshes since the last success or SIGHUP |
| `ReloadLoop.NoRefreshWhenDisabled` | src/bin/astra-dns.rs:380-382 | with nothing missing and the interval zero, timer events do nothing |
| `ReloadLoop.MissingListsAreRetried` | src/bin/astra-dns.rs:681-687 | while a list is missing the next refresh is due within thirty seconds, otherwise after the interval, and never at once |
| `ReloadLoop.RefreshEndsRetrying` | src/bin/astra-dns.rs:380-402 | once a refresh build is taken over, with the disk left alone, nothing is missing: the next refresh waits for the interval, and with the interval zero no timer event does anything |

## Left out

- System calls, raw memory access and `unsafe` blocks of the UDP sockets: bytes, lengths and flags are inputs; the retry loops around `try_io` and the encoding of the peer address for sending belong to libraries.
- UDP dispatch (`src/udp/mod.rs`): pairing a reply with its datagram's addresses would only add easy members.
- DNS message handling, the catalog's walk over its handlers, resolvers, DNS caches: Hickory, not part of this model.
- The regex engine: generated patterns get textbook semantics, without the crate's size limits; the regexes users write are an uninterpreted predicate on names.
- Response records of the blocking modes, rewrites and address-range containment: easy members. A build that fails because a rewrite is bad is therefore not modelled.
- The handler that serves local answers and its timed refresh of the lease tables: the tables are modelled, the lookup in them is a map access. The reverse table of the filter rule sets is never filled by any rule and is omitted.
- The forwarder registry that shares live forwarders between reloads, and the upstreams whose address is literal and needs no worker.
- Which slots a query is sent to is read when it starts; an upstream that becomes ready or is replaced meanwhile does not matter to that query, and the model keeps its trust flag fixed for the length of one lookup.
- Configuration parsing, command line, logging, metrics, privilege dropping, socket setup; the termination signal and the end of the server task, which only end the event sequence.
- Files are a map from names to readable texts: a file that is not valid UTF-8 is an absent one, and creating the directory is part of whether a write succeeds.
- Strings are sequences of characters; the byte offsets of the source always fall on ASCII characters, so the cuts agree.
- Times are natural numbers in one unit, without an upper bound: overflow of durations is not modelled, and the doubling of the filter retry delay stays below 60.
