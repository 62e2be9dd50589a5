/** One upstream's slot: its resolved addresses, its resolver, and when a refresh replaces it. */
module UpstreamSlots {
  import opened Text
  import opened Addresses

  datatype Server = Server(ip: IpAddr, trustNegative: bool)

  /** `forwarder` is the identity of the resolver object, which owns the DNS cache. */
  datatype ReadyUpstream = ReadyUpstream(addresses: seq<IpAddr>, forwarder: nat, trustNegative: bool)

  datatype InstallError = NoAddresses | BuildFailed

  // ------------------------------------------------------- canonical lists

  function Insert(ip: IpAddr, sorted: seq<IpAddr>): seq<IpAddr> {
    if sorted == [] || OrderKey(ip) <= OrderKey(sorted[0]) then [ip] + sorted
    else [sorted[0]] + Insert(ip, sorted[1..])
  }

  /** `sort_unstable`: equal addresses are indistinguishable, so stability does not show. */
  function Sort(ips: seq<IpAddr>): seq<IpAddr> {
    if ips == [] then [] else Insert(ips[0], Sort(ips[1..]))
  }

  /** `dedup`: drops an element equal to the one before it. */
  function Dedup(ips: seq<IpAddr>): seq<IpAddr> {
    if |ips| < 2 then ips
    else if ips[0] == ips[1] then Dedup(ips[1..])
    else [ips[0]] + Dedup(ips[1..])
  }

  function Canonical(ips: seq<IpAddr>): seq<IpAddr> {
    Dedup(Sort(ips))
  }

  predicate Ascending(ips: seq<IpAddr>) {
    |ips| < 2 || (OrderKey(ips[0]) <= OrderKey(ips[1]) && Ascending(ips[1..]))
  }

  /** In order and without repetition. */
  predicate StrictlyAscending(ips: seq<IpAddr>) {
    |ips| < 2 || (OrderKey(ips[0]) < OrderKey(ips[1]) && StrictlyAscending(ips[1..]))
  }

  lemma {:induction false} InsertAscends(ip: IpAddr, sorted: seq<IpAddr>)
    requires Ascending(sorted)
    ensures Ascending(Insert(ip, sorted))
    ensures forall x :: x in Insert(ip, sorted) <==> x == ip || x in sorted
    ensures Insert(ip, sorted)[0] == ip || (sorted != [] && Insert(ip, sorted)[0] == sorted[0])
  {
    if sorted == [] || OrderKey(ip) <= OrderKey(sorted[0]) {
      assert ([ip] + sorted)[1..] == sorted;
    } else {
      InsertAscends(ip, sorted[1..]);
      assert ([sorted[0]] + Insert(ip, sorted[1..]))[1..] == Insert(ip, sorted[1..]);
    }
  }

  lemma {:induction false} SortAscends(ips: seq<IpAddr>)
    ensures Ascending(Sort(ips))
    ensures forall x :: x in Sort(ips) <==> x in ips
  {
    if ips != [] {
      SortAscends(ips[1..]);
      InsertAscends(ips[0], Sort(ips[1..]));
    }
  }

  lemma {:induction false} DedupAscends(ips: seq<IpAddr>)
    requires Ascending(ips)
    ensures StrictlyAscending(Dedup(ips))
    ensures forall x :: x in Dedup(ips) <==> x in ips
    ensures ips != [] ==> Dedup(ips) != [] && Dedup(ips)[0] == ips[0]
  {
    if |ips| >= 2 {
      DedupAscends(ips[1..]);
      if ips[0] != ips[1] {
        if OrderKey(ips[0]) == OrderKey(ips[1]) { OrderKeyInjective(ips[0], ips[1]); }
        assert ([ips[0]] + Dedup(ips[1..]))[1..] == Dedup(ips[1..]);
      }
    }
  }

  lemma CanonicalAscends(ips: seq<IpAddr>)
    ensures StrictlyAscending(Canonical(ips))
    ensures forall x :: x in Canonical(ips) <==> x in ips
    ensures Canonical(ips) == [] <==> ips == []
  {
    SortAscends(ips);
    DedupAscends(Sort(ips));
    if ips != [] { assert ips[0] in Sort(ips); }
    if Sort(ips) != [] { assert Sort(ips)[0] in ips; }
  }

  lemma {:induction false} FirstIsLeast(ips: seq<IpAddr>, x: IpAddr)
    requires StrictlyAscending(ips) && ips != [] && x in ips[1..]
    ensures OrderKey(ips[0]) < OrderKey(x)
  {
    if x != ips[1] { FirstIsLeast(ips[1..], x); }
  }

  lemma EmptyTogether(a: seq<IpAddr>, b: seq<IpAddr>)
    requires forall x :: x in a <==> x in b
    ensures a == [] <==> b == []
  {
    if a != [] { assert a[0] in b; }
    if b != [] { assert b[0] in a; }
  }

  lemma {:induction false} SameElementsSameList(a: seq<IpAddr>, b: seq<IpAddr>)
    requires StrictlyAscending(a) && StrictlyAscending(b)
    requires forall x :: x in a <==> x in b
    ensures a == b
  {
    EmptyTogether(a, b);
    if a != [] {
      assert a[0] in b && b != [] && b[0] in a;
      if a[0] != b[0] {
        FirstIsLeast(a, b[0]);
        FirstIsLeast(b, a[0]);
        assert false;
      }
      forall x ensures x in a[1..] <==> x in b[1..] {
        if x in a[1..] { FirstIsLeast(a, x); assert x in b; }
        if x in b[1..] { FirstIsLeast(b, x); assert x in a; }
      }
      SameElementsSameList(a[1..], b[1..]);
      assert a == [a[0]] + a[1..] && b == [b[0]] + b[1..];
    }
  }

  /** Comparing canonical lists compares address sets. */
  lemma CanonicalIsSetEquality(a: seq<IpAddr>, b: seq<IpAddr>)
    ensures Canonical(a) == Canonical(b) <==> forall x :: x in a <==> x in b
  {
    CanonicalAscends(a);
    CanonicalAscends(b);
    if forall x :: x in a <==> x in b {
      SameElementsSameList(Canonical(a), Canonical(b));
    } else {
      var x :| !(x in a <==> x in b);
      assert !(x in Canonical(a) <==> x in Canonical(b));
    }
  }

  // -------------------------------------------------------------- installing

  function Ips(servers: seq<Server>): (ips: seq<IpAddr>)
    ensures |ips| == |servers| && forall i :: 0 <= i < |ips| ==> ips[i] == servers[i].ip
  {
    seq(|servers|, i requires 0 <= i < |servers| => servers[i].ip)
  }

  /** `built` is the resolver the builder would hand out, or nothing if it fails. */
  function Installed(ready: Option<ReadyUpstream>, servers: seq<Server>, built: Option<nat>)
    : (Option<ReadyUpstream>, Result<bool, InstallError>)
  {
    var addresses := Canonical(Ips(servers));
    if addresses == [] then (ready, Err(NoAddresses))
    else if ready.Some? && ready.value.addresses == addresses then (ready, Ok(false))
    else if built.None? then (ready, Err(BuildFailed))
    else
      var trust := forall i :: 0 <= i < |servers| ==> servers[i].trustNegative;
      (Some(ReadyUpstream(addresses, built.value, trust)), Ok(true))
  }

  class UpstreamSlot {
    var ready: Option<ReadyUpstream>
    /** The single permit that `Notify` stores. */
    var permit: bool

    constructor ()
      ensures ready == None && !permit
    {
      ready, permit := None, false;
    }

    method Install(servers: seq<Server>, built: Option<nat>) returns (r: Result<bool, InstallError>)
      modifies this`ready
      ensures (ready, r) == Installed(old(ready), servers, built)
    {
      var addresses := Dedup(Sort(Ips(servers)));
      if addresses == [] {
        return Err(NoAddresses);
      }
      if ready.Some? && ready.value.addresses == addresses {
        return Ok(false);
      }
      var trust := forall i :: 0 <= i < |servers| ==> servers[i].trustNegative;
      if built.None? {
        return Err(BuildFailed);
      }
      ready := Some(ReadyUpstream(addresses, built.value, trust));
      return Ok(true);
    }

    method NotifyOne()
      modifies this`permit
      ensures permit
    {
      permit := true;
    }
  }

  // --------------------------------------------------------------- resolving

  /** The servers of an endpoint, one for each address; their denials are not trusted. */
  function DohServers(ips: seq<IpAddr>): (servers: seq<Server>)
    ensures |servers| == |ips| && forall i :: 0 <= i < |ips| ==> servers[i] == Server(ips[i], false)
  {
    seq(|ips|, i requires 0 <= i < |ips| => Server(ips[i], false))
  }

  /** `looked` is what the lookup of the host name gives; no addresses count as a failure. */
  function ResolveEndpoint(looked: Option<seq<IpAddr>>): Option<seq<Server>> {
    match looked
    case None => None
    case Some(ips) => if Canonical(ips) == [] then None else Some(DohServers(Canonical(ips)))
  }

  /** What resolution gives is already canonical, so installing it keeps the addresses as they are. */
  lemma ResolvedIsCanonical(looked: Option<seq<IpAddr>>)
    requires ResolveEndpoint(looked).Some?
    ensures var servers := ResolveEndpoint(looked).value;
            && servers != [] && Canonical(Ips(servers)) == Ips(servers)
            && (forall ip :: ip in Ips(servers) <==> ip in looked.value)
            && forall i :: 0 <= i < |servers| ==> !servers[i].trustNegative
  {
    var ips := looked.value;
    CanonicalAscends(ips);
    var servers := ResolveEndpoint(looked).value;
    assert Ips(servers) == Canonical(ips);
    CanonicalAscends(Ips(servers));
    SameElementsSameList(Canonical(Ips(servers)), Ips(servers));
  }

  // --------------------------------------------------------- over every run

  /** What one refresh brings: the lookup result and, if a resolver is needed, what the builder gives. */
  datatype Refresh = Refresh(servers: Option<seq<Server>>, built: Option<nat>)

  function AfterRefresh(ready: Option<ReadyUpstream>, r: Refresh): Option<ReadyUpstream> {
    if r.servers.None? then ready else Installed(ready, r.servers.value, r.built).0
  }

  function AfterRefreshes(ready: Option<ReadyUpstream>, rs: seq<Refresh>): Option<ReadyUpstream>
    decreases rs
  {
    if rs == [] then ready else AfterRefreshes(AfterRefresh(ready, rs[0]), rs[1..])
  }

  predicate WellFormed(ready: Option<ReadyUpstream>) {
    ready.Some? ==> ready.value.addresses != [] && StrictlyAscending(ready.value.addresses)
  }

  /** A successful install that brings another set of addresses than the slot has. */
  ghost predicate Replaces(ready: Option<ReadyUpstream>, r: Refresh) {
    && r.servers.Some? && r.servers.value != [] && r.built.Some?
    && (ready.None? || !forall x :: x in Ips(r.servers.value) <==> x in ready.value.addresses)
  }

  /**
   * One refresh replaces the resolver exactly if it brings another address set, and then denials are
   * trusted exactly if all the new servers are; otherwise nothing changes.
   */
  lemma RefreshReplacesExactly(ready: Option<ReadyUpstream>, r: Refresh)
    requires WellFormed(ready)
    ensures var next := AfterRefresh(ready, r);
            && WellFormed(next)
            && (!Replaces(ready, r) ==> next == ready)
            && (Replaces(ready, r) ==>
                  && next.Some? && next.value.forwarder == r.built.value
                  && (next.value.trustNegative <==> forall x :: x in r.servers.value ==> x.trustNegative)
                  && forall x :: x in next.value.addresses <==> x in Ips(r.servers.value))
  {
    if r.servers.Some? {
      var ips := Ips(r.servers.value);
      CanonicalAscends(ips);
      if ready.Some? {
        var mine := ready.value.addresses;
        if forall x :: x in ips <==> x in mine {
          SameElementsSameList(Canonical(ips), mine);
        } else {
          var x :| !(x in ips <==> x in mine);
          assert !(x in Canonical(ips) <==> x in mine);
        }
      }
    }
  }

  /** None of the refreshes replaces what the slot holds when it is its turn. */
  ghost predicate NoneReplaces(ready: Option<ReadyUpstream>, rs: seq<Refresh>)
    decreases rs
  {
    rs == [] || (!Replaces(ready, rs[0]) && NoneReplaces(AfterRefresh(ready, rs[0]), rs[1..]))
  }

  /** The builder never hands out the same resolver twice, nor the one the slot holds. */
  ghost predicate FreshResolvers(ready: Option<ReadyUpstream>, rs: seq<Refresh>) {
    && (forall i, j :: 0 <= i < j < |rs| && rs[i].built.Some? ==> rs[i].built != rs[j].built)
    && (ready.Some? ==> forall i :: 0 <= i < |rs| ==> rs[i].built != Some(ready.value.forwarder))
  }

  /**
   * Over every run of refreshes: the slot stays well formed, once ready it stays ready, and it holds
   * the same resolver at the end exactly if no refresh on the way brought another address set.
   */
  lemma {:induction false} SlotSafety(ready: Option<ReadyUpstream>, rs: seq<Refresh>)
    requires WellFormed(ready)
    ensures WellFormed(AfterRefreshes(ready, rs))
    ensures ready.Some? ==> AfterRefreshes(ready, rs).Some?
    ensures NoneReplaces(ready, rs) ==> AfterRefreshes(ready, rs) == ready
    ensures ready.Some? && FreshResolvers(ready, rs) && !NoneReplaces(ready, rs) ==>
            AfterRefreshes(ready, rs).value.forwarder != ready.value.forwarder
    decreases rs
  {
    if rs != [] {
      RefreshReplacesExactly(ready, rs[0]);
      var next := AfterRefresh(ready, rs[0]);
      SlotSafety(next, rs[1..]);
      if ready.Some? && FreshResolvers(ready, rs) && Replaces(ready, rs[0]) {
        LaterResolver(next, rs[1..], ready.value.forwarder);
      }
    }
  }

  /** A resolver that neither the slot nor the builder has can never come to be in the slot. */
  lemma {:induction false} LaterResolver(ready: Option<ReadyUpstream>, rs: seq<Refresh>, gone: nat)
    requires WellFormed(ready) && ready.Some? && ready.value.forwarder != gone
    requires forall i :: 0 <= i < |rs| ==> rs[i].built != Some(gone)
    ensures AfterRefreshes(ready, rs).Some? && AfterRefreshes(ready, rs).value.forwarder != gone
    decreases rs
  {
    if rs != [] {
      RefreshReplacesExactly(ready, rs[0]);
      LaterResolver(AfterRefresh(ready, rs[0]), rs[1..], gone);
    }
  }

  /** Denials from this upstream count only when nobody answers. */
  predicate Untrusted(ready: Option<ReadyUpstream>) {
    ready.Some? ==> !ready.value.trustNegative
  }

  /** A refresh with the servers of a resolved endpoint. */
  predicate IsResolved(r: Refresh, looked: Option<seq<IpAddr>>) {
    r.servers == ResolveEndpoint(looked)
  }

  /** So over every run of such refreshes an upstream that starts without trust never gets any. */
  lemma {:induction false} TrustNeverArises(ready: Option<ReadyUpstream>, rs: seq<Refresh>,
                                            looked: seq<Option<seq<IpAddr>>>)
    requires Untrusted(ready) && |looked| == |rs| && forall i :: 0 <= i < |rs| ==> IsResolved(rs[i], looked[i])
    ensures Untrusted(AfterRefreshes(ready, rs))
    decreases rs
  {
    if rs != [] {
      OneBringsNoTrust(ready, rs[0], looked[0]);
      TrustNeverArises(AfterRefresh(ready, rs[0]), rs[1..], looked[1..]);
    }
  }

  lemma OneBringsNoTrust(ready: Option<ReadyUpstream>, r: Refresh, looked: Option<seq<IpAddr>>)
    requires Untrusted(ready) && IsResolved(r, looked)
    ensures Untrusted(AfterRefresh(ready, r))
  {
    if r.servers.Some? {
      ResolvedIsCanonical(looked);
      assert !r.servers.value[0].trustNegative;
    }
  }
}
