/** The server's main loop: reloads on SIGHUP, filter refreshes on a timer, and what each may change. */
module ReloadLoop {
  import opened Text
  import opened Numbers
  import opened Addresses
  import FilterCache
  import opened RuleSetBuilding

  datatype ReloadSettings = ReloadSettings(
    listenAddrs: seq<IpAddr>, listenPort: nat, udpEnabled: bool, tcpEnabled: bool,
    tcpRequestTimeoutSecs: nat, user: Option<string>, group: Option<string>,
    filterRefreshIntervalSecs: nat, missingFilterCache: bool)

  /** The settings that the listeners and the process were started with; the rest may change at run time. */
  function Frozen(s: ReloadSettings): ReloadSettings {
    s.(filterRefreshIntervalSecs := 0, missingFilterCache := false)
  }

  function Noted(changed: bool, what: string): seq<string> {
    if changed then [what] else []
  }

  /** What `ensure_reload_safe` complains about. */
  function ChangedSettings(before: ReloadSettings, after: ReloadSettings): (changed: seq<string>)
    ensures changed == [] <==> Frozen(before) == Frozen(after)
  {
    Noted(before.listenAddrs != after.listenAddrs, "listen addresses")
    + Noted(before.listenPort != after.listenPort, "listen port")
    + Noted(before.udpEnabled != after.udpEnabled, "UDP enable/disable state")
    + Noted(before.tcpEnabled != after.tcpEnabled, "TCP enable/disable state")
    + Noted(before.tcpRequestTimeoutSecs != after.tcpRequestTimeoutSecs, "TCP request timeout")
    + Noted(before.user != after.user, "user")
    + Noted(before.group != after.group, "group")
  }

  /**
   * What one load of the configuration gives: a catalog, settings if they parse, and a log level that
   * may be refused.
   */
  datatype Loaded = Loaded(catalog: nat, settings: Option<ReloadSettings>, level: nat, levelAccepted: bool)

  /** The state a load leaves behind when it is taken over. */
  datatype Active = Active(catalog: nat, settings: ReloadSettings, level: nat)

  function ActiveOf(load: Loaded): Active
    requires load.settings.Some?
  {
    Active(load.catalog, load.settings.value, load.level)
  }

  function NextFilterRefresh(s: ReloadSettings, retrySecs: nat): nat {
    Max(if s.missingFilterCache then retrySecs else s.filterRefreshIntervalSecs, 1)
  }

  predicate RefreshEnabled(s: ReloadSettings) {
    s.missingFilterCache || s.filterRefreshIntervalSecs > 0
  }

  /** A load that may replace what is active: its settings parse, nothing frozen differs, its log level is accepted. */
  predicate Acceptable(frozen: ReloadSettings, load: Option<Loaded>) {
    load.Some? && load.value.settings.Some? && Frozen(load.value.settings.value) == frozen && load.value.levelAccepted
  }

  function Reloaded(a: Active, load: Option<Loaded>): Active {
    if Acceptable(Frozen(a.settings), load) then
      ActiveOf(load.value)
    else a
  }

  /** What `select!` may find ready; a reload begun at `at` is over at `done`. */
  datatype Event =
    | Hangup(at: nat, done: nat, load: Option<Loaded>)
    | Timer(at: nat, done: nat, load: Option<Loaded>)

  datatype State = State(active: Active, retrySecs: nat, due: nat)

  /** The timer branch is taken only if its guard holds and its time has come. */
  predicate Taken(st: State, e: Event) {
    e.Timer? ==> RefreshEnabled(st.active.settings) && e.at >= st.due
  }

  function Started(a: Active, now: nat): State {
    State(a, 1, now + NextFilterRefresh(a.settings, 1))
  }

  function Step(st: State, e: Event): State {
    if !Taken(st, e) then st
    else
      var active := Reloaded(st.active, e.load);
      var ok := Acceptable(Frozen(st.active.settings), e.load);
      var retry := if e.Hangup? || ok then 1 else Min(st.retrySecs * 2, 30);
      State(active, retry, e.done + NextFilterRefresh(active.settings, retry))
  }

  function Run(st: State, events: seq<Event>): State {
    if events == [] then st else Step(Run(st, events[..|events| - 1]), events[|events| - 1])
  }

  class ReloadableCatalog {
    var current: nat

    constructor (initial: nat)
      ensures current == initial
    {
      current := initial;
    }

    method Replace(catalog: nat)
      modifies this
      ensures current == catalog
    {
      current := catalog;
    }
  }

  class ServerLoop {
    const handler: ReloadableCatalog
    var settings: ReloadSettings
    var level: nat
    var filterRetrySecs: nat
    var due: nat

    ghost function Contents(): State
      reads this, handler
    {
      State(Active(handler.current, settings, level), filterRetrySecs, due)
    }

    constructor (handler: ReloadableCatalog, settings: ReloadSettings, level: nat, now: nat)
      ensures this.handler == handler
      ensures Contents() == Started(Active(handler.current, settings, level), now)
    {
      this.handler, this.settings, this.level := handler, settings, level;
      filterRetrySecs, due := 1, now + NextFilterRefresh(settings, 1);
    }

    /** Load, check, set the log level, then replace the catalog and the settings together. */
    method ReloadRuntimeConfig(load: Option<Loaded>) returns (ok: bool)
      modifies this`settings, this`level, handler
      ensures ok == Acceptable(Frozen(old(settings)), load)
      ensures Contents() == old(Contents()).(active := Reloaded(old(Contents()).active, load))
    {
      if load.None? || load.value.settings.None? {
        return false;
      }
      var newSettings := load.value.settings.value;
      if ChangedSettings(settings, newSettings) != [] {
        return false;
      }
      if !load.value.levelAccepted {
        return false;
      }
      level := load.value.level;
      handler.Replace(load.value.catalog);
      settings := newSettings;
      return true;
    }

    method Handle(e: Event)
      modifies this, handler
      ensures Contents() == Step(old(Contents()), e)
    {
      match e {
        case Hangup(at, done, load) =>
          var _ := ReloadRuntimeConfig(load);
          filterRetrySecs := 1;
          due := done + NextFilterRefresh(settings, filterRetrySecs);
        case Timer(at, done, load) =>
          if (settings.missingFilterCache || settings.filterRefreshIntervalSecs > 0) && at >= due {
            var ok := ReloadRuntimeConfig(load);
            filterRetrySecs := if ok then 1 else Min(filterRetrySecs * 2, 30);
            due := done + NextFilterRefresh(settings, filterRetrySecs);
          }
      }
    }

    method Serve(events: seq<Event>)
      modifies this, handler
      ensures Contents() == Run(old(Contents()), events)
    {
      ghost var before := Contents();
      for i := 0 to |events|
        invariant Contents() == Run(before, events[..i])
      {
        assert events[..i + 1][..i] == events[..i];
        Handle(events[i]);
      }
      assert events[..|events|] == events;
    }
  }

  /** A load that parses, keeps the settings of the listeners and the process, and has a usable log level. */
  predicate IsGood(s: ReloadSettings, load: Loaded) {
    && load.levelAccepted && load.settings.Some?
    && var n := load.settings.value;
       && n.listenAddrs == s.listenAddrs && n.listenPort == s.listenPort
       && n.udpEnabled == s.udpEnabled && n.tcpEnabled == s.tcpEnabled
       && n.tcpRequestTimeoutSecs == s.tcpRequestTimeoutSecs && n.user == s.user && n.group == s.group
  }

  /**
   * A hangup, and a timer event that is due while a list is missing or an interval is set, takes a good
   * load over; a bad load, or none, changes nothing but the retry delay and the timer.
   */
  lemma EventsAreHandled(st: State, e: Event)
    requires e.Timer? ==>
               && e.at >= st.due
               && (st.active.settings.missingFilterCache || st.active.settings.filterRefreshIntervalSecs > 0)
    ensures var next := Step(st, e);
            && (if e.load.Some? && IsGood(st.active.settings, e.load.value)
                then next.active == Active(e.load.value.catalog, e.load.value.settings.value, e.load.value.level)
                else next.active == st.active)
            && next.retrySecs == (if e.Hangup? || (e.load.Some? && IsGood(st.active.settings, e.load.value)) then 1
                                  else if st.retrySecs < 15 then st.retrySecs * 2 else 30)
            && next.due == e.done + (if next.active.settings.missingFilterCache then Max(next.retrySecs, 1)
                                     else Max(next.active.settings.filterRefreshIntervalSecs, 1))
  {}

  /** A timer event that is not due, or without anything to refresh, changes nothing. */
  lemma OtherTimersAreIgnored(st: State, e: Event)
    requires e.Timer?
    requires || e.at < st.due
             || !(st.active.settings.missingFilterCache || st.active.settings.filterRefreshIntervalSecs > 0)
    ensures Step(st, e) == st
  {}

  /** At startup the first refresh is due after a second if a list is missing, and else after the interval. */
  lemma FirstRefresh(a: Active, now: nat)
    ensures Started(a, now).due ==
            now + if a.settings.missingFilterCache || a.settings.filterRefreshIntervalSecs == 0 then 1
                  else a.settings.filterRefreshIntervalSecs
  {}

  /** Each setting that differs is reported, and no other. */
  lemma ChangesAreNamed(before: ReloadSettings, after: ReloadSettings, what: string)
    ensures what in ChangedSettings(before, after) <==>
            || (what == "listen addresses" && before.listenAddrs != after.listenAddrs)
            || (what == "listen port" && before.listenPort != after.listenPort)
            || (what == "UDP enable/disable state" && before.udpEnabled != after.udpEnabled)
            || (what == "TCP enable/disable state" && before.tcpEnabled != after.tcpEnabled)
            || (what == "TCP request timeout" && before.tcpRequestTimeoutSecs != after.tcpRequestTimeoutSecs)
            || (what == "user" && before.user != after.user)
            || (what == "group" && before.group != after.group)
  {
    hide Noted;
    NotedIs(before.listenAddrs != after.listenAddrs, "listen addresses", what);
    NotedIs(before.listenPort != after.listenPort, "listen port", what);
    NotedIs(before.udpEnabled != after.udpEnabled, "UDP enable/disable state", what);
    NotedIs(before.tcpEnabled != after.tcpEnabled, "TCP enable/disable state", what);
    NotedIs(before.tcpRequestTimeoutSecs != after.tcpRequestTimeoutSecs, "TCP request timeout", what);
    NotedIs(before.user != after.user, "user", what);
    NotedIs(before.group != after.group, "group", what);
  }

  lemma NotedIs(changed: bool, name: string, what: string)
    ensures what in Noted(changed, name) <==> changed && what == name
  {}

  // ------------------------------------------------ over every event sequence

  /** The last load taken over, starting from the startup one. */
  function LastAccepted(st: State, events: seq<Event>): Active {
    if events == [] then st.active
    else
      var init, e := events[..|events| - 1], events[|events| - 1];
      if Taken(Run(st, init), e) && Acceptable(Frozen(st.active.settings), e.load)
      then ActiveOf(e.load.value)
      else LastAccepted(st, init)
  }

  /**
   * Catalog, settings and log level always come from one and the same load, the last acceptable one;
   * what is acceptable never drifts, because the frozen settings stay those of startup.
   */
  lemma {:induction false} ActiveIsLastAccepted(st: State, events: seq<Event>)
    ensures Run(st, events).active == LastAccepted(st, events)
    ensures Frozen(Run(st, events).active.settings) == Frozen(st.active.settings)
  {
    if events != [] { ActiveIsLastAccepted(st, events[..|events| - 1]); }
  }

  /** The load that is active is the startup one or that of some taken event. */
  lemma {:induction false} LastAcceptedIsSomebodys(st: State, events: seq<Event>)
    ensures var a := LastAccepted(st, events);
            || a == st.active
            || exists i :: 0 <= i < |events| && Acceptable(Frozen(st.active.settings), events[i].load)
                           && a == ActiveOf(events[i].load.value)
  {
    if events != [] {
      var init := events[..|events| - 1];
      LastAcceptedIsSomebodys(st, init);
      assert forall i :: 0 <= i < |init| ==> init[i] == events[i];
    }
  }

  /** Failed timer refreshes since the last successful one or the last SIGHUP, whichever came later. */
  function FailedRefreshes(st: State, events: seq<Event>): nat {
    if events == [] then 0
    else
      var init, e := events[..|events| - 1], events[|events| - 1];
      var before := Run(st, init);
      if !Taken(before, e) then FailedRefreshes(st, init)
      else if e.Hangup? || Acceptable(Frozen(before.active.settings), e.load) then 0
      else FailedRefreshes(st, init) + 1
  }

  /** The retry delay doubles from one second and stops at thirty. */
  lemma {:induction false} RetryDelayLaw(a: Active, now: nat, events: seq<Event>)
    ensures Run(Started(a, now), events).retrySecs == Min(Pow2(FailedRefreshes(Started(a, now), events)), 30)
  {
    if events != [] { RetryDelayLaw(a, now, events[..|events| - 1]); }
  }

  /** With nothing missing and no interval, timer events change nothing until some other load is taken over. */
  lemma {:induction false} NoRefreshWhenDisabled(st: State, events: seq<Event>)
    requires !RefreshEnabled(st.active.settings)
    requires forall i :: 0 <= i < |events| ==> events[i].Timer?
    ensures Run(st, events) == st
  {
    if events != [] { NoRefreshWhenDisabled(st, events[..|events| - 1]); }
  }

  /** While a list is missing, the next refresh is due within thirty seconds of the last reload, and never at once. */
  lemma MissingListsAreRetried(a: Active, now: nat, events: seq<Event>, e: Event)
    requires Taken(Run(Started(a, now), events), e)
    ensures var next := Step(Run(Started(a, now), events), e);
            && next.due >= e.done + 1
            && (next.active.settings.missingFilterCache ==> next.due == e.done + next.retrySecs <= e.done + 30)
            && (!next.active.settings.missingFilterCache ==>
                  next.due == e.done + Max(next.active.settings.filterRefreshIntervalSecs, 1))
  {
    RetryDelayLaw(a, now, events);
    var st := Run(Started(a, now), events);
    PowerIsPositive(FailedRefreshes(Started(a, now), events));
  }

  /** A load taken over after a refresh build: a list is missing from it if its cache file is. */
  ghost predicate LoadedFrom(load: Option<Loaded>, files: FilterCache.Files, keys: seq<string>) {
    load.Some? && load.value.settings.Some? &&
    load.value.settings.value.missingFilterCache == FilterCache.HasUncached(files, keys)
  }

  /**
   * Once a timer refresh has built the rule sets and is taken over, with the disk left alone, nothing
   * is missing any more: the retries stop and the next refresh waits for the interval. With the
   * interval zero there is none, whatever timer events follow.
   */
  lemma RefreshEndsRetrying(read: Classifier, files: FilterCache.Files, keys: seq<string>,
                            worlds: seq<FilterCache.World>, userRules: seq<string>,
                            st: State, e: Event, later: seq<Event>)
    requires |worlds| == |keys|
    requires var (after, built) := FilterCache.BuildResult(read, files, keys, FilterCache.Refresh, worlds, userRules);
             built.Ok? && LoadedFrom(e.load, after, keys)
    requires e.Timer? && Taken(st, e) && Acceptable(Frozen(st.active.settings), e.load)
    requires forall i :: 0 <= i < |later| ==> later[i].Timer?
    ensures var next := Step(st, e);
            var interval := next.active.settings.filterRefreshIntervalSecs;
            && !next.active.settings.missingFilterCache && next.retrySecs == 1
            && next.due == e.done + Max(interval, 1)
            && (interval == 0 ==> Run(next, later) == next)
  {
    FilterCache.RefreshLeavesNothingUncached(read, files, keys, worlds, userRules);
    var next := Step(st, e);
    if next.active.settings.filterRefreshIntervalSecs == 0 { NoRefreshWhenDisabled(next, later); }
  }

  lemma {:induction false} PowerIsPositive(k: nat)
    ensures Pow2(k) >= 1
  {
    if k > 0 { PowerIsPositive(k - 1); }
  }
}
