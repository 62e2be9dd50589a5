/** LAN names from DHCP leases: forward answers and the reverse names that confirm them. */
module LanHosts {
  import opened Text
  import opened Domains
  import opened Addresses
  import opened Overrides

  datatype LanHostsConfig = LanHostsConfig(enabled: bool, domain: Option<string>, includeUnqualified: bool)

  datatype Lease = Lease(ip: IpAddr, domains: seq<string>, ptrDomain: string)

  function LanDomain(config: LanHostsConfig): Option<string> {
    match config.domain
    case None => None
    case Some(d) => NormalizeDomain(d)
  }

  function Qualified(hostname: string, domain: string): string {
    if hostname == domain || EndsWith(hostname, "." + domain) then hostname else hostname + "." + domain
  }

  /** The names a host name is answered under; the last one is what reverse lookups return. */
  function LeaseNames(hostname: string, lanDomain: Option<string>, includeUnqualified: bool): seq<string> {
    var bare := if includeUnqualified then [hostname] else [];
    match lanDomain
    case None => bare
    case Some(domain) => Push(bare, Qualified(hostname, domain))
  }

  function ParseLease(parseIp: string -> Option<IpAddr>, line: string, config: LanHostsConfig): (r: Option<Lease>)
    ensures r.Some? ==> r.value.ptrDomain in r.value.domains
  {
    LeaseFrom(parseIp, SplitWhitespace(line), config)
  }

  function LeaseFrom(parseIp: string -> Option<IpAddr>, words: seq<string>, config: LanHostsConfig): (r: Option<Lease>)
    ensures r.Some? ==> r.value.ptrDomain in r.value.domains
  {
    if |words| < 4 || words[3] == "*" then None
    else LeaseWith(parseIp(words[2]), NormalizeDomain(words[3]), config)
  }

  function LeaseWith(ip: Option<IpAddr>, hostname: Option<string>, config: LanHostsConfig): (r: Option<Lease>)
    ensures r.Some? ==> r.value.ptrDomain in r.value.domains
  {
    match (ip, hostname)
    case (Some(addr), Some(host)) => LeaseFor(addr, LeaseNames(host, LanDomain(config), config.includeUnqualified))
    case _ => None
  }

  function LeaseFor(ip: IpAddr, names: seq<string>): (r: Option<Lease>)
    ensures r.Some? ==> r.value.ptrDomain in r.value.domains
  {
    if names == [] then None else Some(Lease(ip, names, names[|names| - 1]))
  }

  lemma QualifiedMatches(hostname: string, domain: string)
    ensures SuffixMatch(Qualified(hostname, domain), domain)
  {}

  /**
   * With a LAN domain configured, the reverse name is under it, the bare name is listed exactly if it
   * is wanted or already under the domain, and no name is listed twice.
   */
  lemma LeaseNamesAreQualified(hostname: string, domain: string, includeUnqualified: bool)
    ensures var names := LeaseNames(hostname, Some(domain), includeUnqualified);
            && names != [] && SuffixMatch(names[|names| - 1], domain) && Distinct(names)
            && (hostname in names <==> includeUnqualified || SuffixMatch(hostname, domain))
  {
    hide SuffixMatch, EndsWith;
    QualifiedMatches(hostname, domain);
    LeaseNamesExactly(hostname, domain, includeUnqualified, hostname);
    UnderMatches(hostname, domain);
    assert hostname + "." + domain != hostname;
  }

  lemma UnderMatches(hostname: string, domain: string)
    ensures SuffixMatch(hostname, domain) <==> IsUnder(hostname, domain)
  {
    SuffixMatchMeaning(hostname, domain);
  }

  /** The columns, whatever blanks are around and between them. */
  function LeaseText(words: seq<string>, gaps: seq<string>, lead: string, trail: string): string
    requires |words| == |gaps| + 1
  {
    lead + (Spread(words, gaps) + trail)
  }

  /**
   * The five-column form (expiry, hardware address, address, host name, client id; more columns do
   * not matter, nor does the last): the third and fourth count. There is a lease exactly if they are
   * an address and a name other than `*` and some form of the name is wanted.
   */
  lemma LeaseLine(parseIp: string -> Option<IpAddr>, words: seq<string>, gaps: seq<string>, lead: string, trail: string,
                  config: LanHostsConfig, lease: Lease)
    requires |words| == |gaps| + 1 >= 4 && AllSolid(words) && AreGaps(gaps) && Blank(lead) && Blank(trail)
    ensures ParseLease(parseIp, LeaseText(words, gaps, lead, trail), config) == Some(lease) <==>
            && words[3] != "*" && parseIp(words[2]) == Some(lease.ip)
            && exists host :: && NormalizeDomain(words[3]) == Some(host)
                              && lease.domains == LeaseNames(host, LanDomain(config), config.includeUnqualified) != []
                              && lease.ptrDomain == lease.domains[|lease.domains| - 1]
  {
    hide SplitWhitespace, NormalizeDomain, LeaseNames, LanDomain;
    SpreadRoundTrip(words, gaps, trail);
    BlanksFirst(lead, Spread(words, gaps) + trail);
  }

  /** The host name is the LAN domain or a name below it. */
  ghost predicate IsUnder(hostname: string, domain: string) {
    hostname == domain || exists p: string :: hostname == p + "." + domain
  }

  lemma UnderIsSuffix(hostname: string, domain: string)
    ensures (hostname == domain || EndsWith(hostname, "." + domain)) <==> IsUnder(hostname, domain)
  {
    if EndsWith(hostname, "." + domain) {
      var p := hostname[..|hostname| - |domain| - 1];
      assert hostname == p + ("." + domain) && p + ("." + domain) == p + "." + domain;
    }
    if p: string :| hostname == p + "." + domain {
      assert hostname[|hostname| - |"." + domain|..] == "." + domain;
    }
  }

  /**
   * Which names a lease gives. With a LAN domain: the host name itself if it is wanted or already under
   * the domain, and the host name with the domain after it if it is not; reverse lookups give the one
   * under the domain. Without one: the host name if it is wanted.
   */
  lemma LeaseNamesExactly(hostname: string, domain: string, includeUnqualified: bool, name: string)
    ensures var names := LeaseNames(hostname, Some(domain), includeUnqualified);
            && (name in names <==>
                  || (name == hostname && (includeUnqualified || IsUnder(hostname, domain)))
                  || (name == hostname + "." + domain && !IsUnder(hostname, domain)))
            && names != []
            && names[|names| - 1] == if IsUnder(hostname, domain) then hostname else hostname + "." + domain
    ensures LeaseNames(hostname, None, includeUnqualified) == if includeUnqualified then [hostname] else []
  {
    UnderIsSuffix(hostname, domain);
  }

  // ------------------------------------------------------------------ tables

  type PtrMap = map<string, seq<string>>

  datatype Tables = Tables(overrides: OverrideMap, ptrOverrides: PtrMap)

  function PtrNames(ptrOverrides: PtrMap, ip: IpAddr): seq<string> {
    var name := ReverseLookupName(ip);
    if name in ptrOverrides then ptrOverrides[name] else []
  }

  function AddPtr(ip: IpAddr, domain: string, ptrOverrides: PtrMap): PtrMap {
    ptrOverrides[ReverseLookupName(ip) := Push(PtrNames(ptrOverrides, ip), domain)]
  }

  function AddLease(t: Tables, lease: Lease): Tables {
    Tables(AddOverrides(lease.ip, lease.domains, t.overrides), AddPtr(lease.ip, lease.ptrDomain, t.ptrOverrides))
  }

  function AddLeases(t: Tables, leases: seq<Lease>): Tables {
    if leases == [] then t else AddLease(AddLeases(t, leases[..|leases| - 1]), leases[|leases| - 1])
  }

  type LeaseReader = string -> Option<Lease>

  function Reader(parseIp: string -> Option<IpAddr>, config: LanHostsConfig): LeaseReader {
    (line: string) => ParseLease(parseIp, line, config)
  }

  /** The reverse name of a lease is one of its names. */
  ghost predicate Confirms(read: LeaseReader) {
    forall line :: read(line).Some? ==> read(line).value.ptrDomain in read(line).value.domains
  }

  lemma ReaderConfirms(parseIp: string -> Option<IpAddr>, config: LanHostsConfig)
    ensures Confirms(Reader(parseIp, config))
  {}

  function LeasesOf(read: LeaseReader, lines: seq<string>): seq<Lease> {
    if lines == [] then []
    else
      LeasesOf(read, lines[..|lines| - 1]) +
      match read(lines[|lines| - 1])
      case None => []
      case Some(lease) => [lease]
  }

  lemma {:induction false} LeasesConfirm(read: LeaseReader, lines: seq<string>)
    requires Confirms(read)
    ensures forall l :: l in LeasesOf(read, lines) ==> l.ptrDomain in l.domains
  {
    if lines != [] { LeasesConfirm(read, lines[..|lines| - 1]); }
  }

  class LanHostOverrides {
    var overrides: OverrideMap
    var ptrOverrides: PtrMap

    ghost function Contents(): Tables
      reads this
    {
      Tables(overrides, ptrOverrides)
    }

    constructor ()
      ensures Contents() == Tables(map[], map[])
    {
      overrides, ptrOverrides := map[], map[];
    }

    method Add(lease: Lease)
      modifies this
      ensures Contents() == AddLease(old(Contents()), lease)
    {
      ghost var wanted := AddOverrides(lease.ip, lease.domains, overrides);
      for j := 0 to |lease.domains|
        invariant AddOverrides(lease.ip, lease.domains[j..], overrides) == wanted
        invariant ptrOverrides == old(ptrOverrides)
      {
        assert lease.domains[j..][1..] == lease.domains[j + 1..];
        overrides := AddOverride(lease.ip, lease.domains[j], overrides);
      }
      ptrOverrides := AddPtr(lease.ip, lease.ptrDomain, ptrOverrides);
    }

    method Load(read: LeaseReader, lines: seq<string>)
      modifies this
      ensures Contents() == AddLeases(old(Contents()), LeasesOf(read, lines))
    {
      ghost var before := Contents();
      for i := 0 to |lines|
        invariant Contents() == AddLeases(before, LeasesOf(read, lines[..i]))
      {
        AddLeasesStep(before, read, lines[..i], lines[i]);
        assert lines[..i + 1] == lines[..i] + [lines[i]];
        var parsed := read(lines[i]);
        if parsed.Some? {
          Add(parsed.value);
        }
      }
      assert lines[..|lines|] == lines;
    }
  }

  lemma AddLeasesStep(t: Tables, read: LeaseReader, lines: seq<string>, line: string)
    ensures AddLeases(t, LeasesOf(read, lines + [line])) ==
            var before := AddLeases(t, LeasesOf(read, lines));
            match read(line)
            case None => before
            case Some(lease) => AddLease(before, lease)
  {
    var leases := LeasesOf(read, lines);
    assert (lines + [line])[..|lines|] == lines;
    match read(line)
    case None => assert leases + [] == leases;
    case Some(lease) => assert (leases + [lease])[..|leases|] == leases;
  }

  /** `source` is the text of the lease file, if it can be read. */
  method LoadLanHostOverrides(parseIp: string -> Option<IpAddr>, config: LanHostsConfig, source: Option<string>)
    returns (leases: LanHostOverrides)
    ensures fresh(leases)
    ensures leases.Contents() ==
            if config.enabled && source.Some?
            then AddLeases(Tables(map[], map[]), LeasesOf(Reader(parseIp, config), Lines(source.value)))
            else Tables(map[], map[])
  {
    leases := new LanHostOverrides();
    if !config.enabled || source.None? {
      return;
    }
    leases.Load(Reader(parseIp, config), Lines(source.value));
  }

  // ------------------------------------------------- what the tables hold

  predicate Distinct<T(==)>(xs: seq<T>) {
    forall i, j :: 0 <= i < j < |xs| ==> xs[i] != xs[j]
  }

  /** Address lists hold addresses of their own family, and no list holds anything twice. */
  ghost predicate Tidy(t: Tables) {
    && (forall name :: name in t.overrides ==>
          && Distinct(t.overrides[name].ipv4) && (forall ip :: ip in t.overrides[name].ipv4 ==> ip.V4?)
          && Distinct(t.overrides[name].ipv6) && (forall ip :: ip in t.overrides[name].ipv6 ==> ip.V6?))
    && (forall name :: name in t.ptrOverrides ==> Distinct(t.ptrOverrides[name]))
  }

  lemma {:induction false} AddOverridesTidy(ip: IpAddr, domains: seq<string>, overrides: OverrideMap, ptrs: PtrMap)
    requires Tidy(Tables(overrides, ptrs))
    ensures Tidy(Tables(AddOverrides(ip, domains, overrides), ptrs))
    decreases domains
  {
    if domains != [] {
      AddOverridesTidy(ip, domains[1..], AddOverride(ip, domains[0], overrides), ptrs);
    }
  }

  /** A name is answered with an address exactly if some lease says so. */
  lemma {:induction false} ForwardEntries(leases: seq<Lease>, name: string, ip: IpAddr)
    ensures Answers(AddLeases(Tables(map[], map[]), leases).overrides, name, ip) <==>
            exists l :: l in leases && l.ip == ip && name in l.domains
  {
    if leases != [] {
      var init, last := leases[..|leases| - 1], leases[|leases| - 1];
      assert leases == init + [last];
      ForwardEntries(init, name, ip);
      AddOverridesAnswers(last.ip, last.domains, AddLeases(Tables(map[], map[]), init).overrides, name, ip);
    }
  }

  /** An address is reversed to a name exactly if some lease says so. */
  lemma {:induction false} ReverseEntries(leases: seq<Lease>, name: string, ip: IpAddr)
    ensures name in PtrNames(AddLeases(Tables(map[], map[]), leases).ptrOverrides, ip) <==>
            exists l :: l in leases && l.ip == ip && l.ptrDomain == name
  {
    if leases != [] {
      var init, last := leases[..|leases| - 1], leases[|leases| - 1];
      assert leases == init + [last];
      ReverseEntries(init, name, ip);
      if ReverseLookupName(last.ip) == ReverseLookupName(ip) { ReverseNameInjective(last.ip, ip); }
    }
  }

  lemma {:induction false} TablesAreTidy(leases: seq<Lease>)
    ensures Tidy(AddLeases(Tables(map[], map[]), leases))
  {
    if leases != [] {
      var init, last := leases[..|leases| - 1], leases[|leases| - 1];
      var t := AddLeases(Tables(map[], map[]), init);
      TablesAreTidy(init);
      AddOverridesTidy(last.ip, last.domains, t.overrides, t.ptrOverrides);
    }
  }

  /**
   * Forward-confirmed reverse DNS, for any lease text and configuration: a name listed under the
   * reverse name of an address is answered with that address, every address in an answer has a
   * reverse entry, and no list repeats an entry.
   */
  lemma ForwardConfirmed(parseIp: string -> Option<IpAddr>, lines: seq<string>, config: LanHostsConfig)
    ensures var t := AddLeases(Tables(map[], map[]), LeasesOf(Reader(parseIp, config), lines));
            && Tidy(t)
            && (forall name, ip: IpAddr :: name in PtrNames(t.ptrOverrides, ip) ==> Answers(t.overrides, name, ip))
            && (forall name, ip: IpAddr :: Answers(t.overrides, name, ip) ==> PtrNames(t.ptrOverrides, ip) != [])
  {
    var leases := LeasesOf(Reader(parseIp, config), lines);
    var t := AddLeases(Tables(map[], map[]), leases);
    ReaderConfirms(parseIp, config);
    LeasesConfirm(Reader(parseIp, config), lines);
    TablesAreTidy(leases);
    forall name, ip: IpAddr | name in PtrNames(t.ptrOverrides, ip) ensures Answers(t.overrides, name, ip) {
      ForwardEntries(leases, name, ip);
      ReverseEntries(leases, name, ip);
    }
    forall name, ip: IpAddr | Answers(t.overrides, name, ip) ensures PtrNames(t.ptrOverrides, ip) != [] {
      ForwardEntries(leases, name, ip);
      var l :| l in leases && l.ip == ip && name in l.domains;
      ReverseEntries(leases, l.ptrDomain, ip);
    }
  }

  /** The LAN domain a configuration comes to: what its text normalises to, if it is there and does. */
  ghost predicate HasLanDomain(config: LanHostsConfig, domain: Option<string>) {
    match domain
    case Some(d) => config.domain.Some? && NormalizeDomain(config.domain.value) == Some(d)
    case None => config.domain.Some? ==> NormalizeDomain(config.domain.value) == None
  }

  lemma LanDomainOf(config: LanHostsConfig, domain: Option<string>)
    requires HasLanDomain(config, domain)
    ensures LanDomain(config) == domain
  {
    hide NormalizeDomain;
  }

  /** The name of a host under the LAN domain, if there is one. */
  ghost function FullName(hostname: string, domain: Option<string>): string {
    match domain
    case Some(d) => if IsUnder(hostname, d) then hostname else hostname + "." + d
    case None => hostname
  }

  lemma NamesOfLease(hostname: string, domain: Option<string>, includeUnqualified: bool)
    requires domain.Some? || includeUnqualified
    ensures var names := LeaseNames(hostname, domain, includeUnqualified);
            && names != [] && names[|names| - 1] == FullName(hostname, domain)
            && (includeUnqualified ==> hostname in names)
  {
    if domain.Some? {
      LeaseNamesExactly(hostname, domain.value, includeUnqualified, hostname);
    } else {
      LeaseNamesExactly(hostname, "", includeUnqualified, hostname);
    }
  }

  /** A lease of an address to a host, read by itself. */
  lemma LeaseOfHost(parseIp: string -> Option<IpAddr>, words: seq<string>, gaps: seq<string>, config: LanHostsConfig,
                    ip: IpAddr, hostname: string, domain: Option<string>) returns (lease: Lease)
    requires |words| == |gaps| + 1 >= 4 && AllSolid(words) && AreGaps(gaps)
    requires parseIp(words[2]) == Some(ip) && words[3] != "*" && NormalizeDomain(words[3]) == Some(hostname)
    requires HasLanDomain(config, domain) && (domain.Some? || config.includeUnqualified)
    ensures ParseLease(parseIp, LeaseText(words, gaps, "", ""), config) == Some(lease) && lease.ip == ip
    ensures lease.domains == LeaseNames(hostname, domain, config.includeUnqualified)
    ensures lease.ptrDomain == FullName(hostname, domain)
  {
    hide ParseLease, LeaseNames, NormalizeDomain, AllSolid, FullName, LeaseText, LanDomain;
    var names := LeaseNames(hostname, domain, config.includeUnqualified);
    LanDomainOf(config, domain);
    NamesOfLease(hostname, domain, config.includeUnqualified);
    lease := Lease(ip, names, names[|names| - 1]);
    LeaseLine(parseIp, words, gaps, "", "", config, lease);
  }

  /**
   * From a line of the lease file to the answers: the host's full name is answered with the address and
   * is its reverse name, and so is the bare name answered if it is wanted, whatever else the file holds.
   */
  lemma HostIsServed(parseIp: string -> Option<IpAddr>, lines: seq<string>, config: LanHostsConfig,
                     words: seq<string>, gaps: seq<string>, ip: IpAddr, hostname: string, domain: Option<string>)
    requires |words| == |gaps| + 1 >= 4 && AllSolid(words) && AreGaps(gaps) && LeaseText(words, gaps, "", "") in lines
    requires parseIp(words[2]) == Some(ip) && words[3] != "*" && NormalizeDomain(words[3]) == Some(hostname)
    requires HasLanDomain(config, domain) && (domain.Some? || config.includeUnqualified)
    ensures var t := AddLeases(Tables(map[], map[]), LeasesOf(Reader(parseIp, config), lines));
            var full := FullName(hostname, domain);
            && Answers(t.overrides, full, ip) && full in PtrNames(t.ptrOverrides, ip)
            && (config.includeUnqualified ==> Answers(t.overrides, hostname, ip))
  {
    hide ParseLease, LeaseNames, AllSolid, FullName, LeaseText, AddLeases, PtrNames, Answers, NormalizeDomain;
    var leases := LeasesOf(Reader(parseIp, config), lines);
    var lease := LeaseOfHost(parseIp, words, gaps, config, ip, hostname, domain);
    LeaseIsRead(Reader(parseIp, config), lines, LeaseText(words, gaps, "", ""), lease);
    NamesOfLease(hostname, domain, config.includeUnqualified);
    ForwardEntries(leases, FullName(hostname, domain), ip);
    ForwardEntries(leases, hostname, ip);
    ReverseEntries(leases, FullName(hostname, domain), ip);
  }

  /** Names and addresses are listed in the order they came in: later leases only add at the end. */
  lemma {:induction false} EarlierFirst(t: Tables, leases: seq<Lease>, name: string, ip: IpAddr)
    ensures var after := AddLeases(t, leases);
            && PtrNames(t.ptrOverrides, ip) <= PtrNames(after.ptrOverrides, ip)
            && RuleFor(t.overrides, name).ipv4 <= RuleFor(after.overrides, name).ipv4
            && RuleFor(t.overrides, name).ipv6 <= RuleFor(after.overrides, name).ipv6
  {
    hide ReverseLookupName;
    if leases != [] {
      var init, last := leases[..|leases| - 1], leases[|leases| - 1];
      EarlierFirst(t, init, name, ip);
      OverridesGrow(last.ip, last.domains, AddLeases(t, init).overrides, name);
    }
  }

  lemma {:induction false} OverridesGrow(ip: IpAddr, domains: seq<string>, overrides: OverrideMap, name: string)
    ensures var after := AddOverrides(ip, domains, overrides);
            && RuleFor(overrides, name).ipv4 <= RuleFor(after, name).ipv4
            && RuleFor(overrides, name).ipv6 <= RuleFor(after, name).ipv6
    decreases domains
  {
    if domains != [] { OverridesGrow(ip, domains[1..], AddOverride(ip, domains[0], overrides), name); }
  }

  lemma {:induction false} LeaseIsRead(read: LeaseReader, lines: seq<string>, line: string, lease: Lease)
    requires line in lines && read(line) == Some(lease)
    ensures lease in LeasesOf(read, lines)
  {
    var n := |lines| - 1;
    if lines[n] != line { LeaseIsRead(read, lines[..n], line, lease); }
  }
}
