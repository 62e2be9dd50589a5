/** The background worker that keeps one upstream resolved: attempts, backoff and early refreshes. */
module UpstreamRecovery {
  import opened Text
  import opened Numbers
  import opened Addresses
  import opened UpstreamSlots

  /** All durations in one unit. */
  datatype RecoveryTiming = RecoveryTiming(bootstrapTimeout: nat, retryMin: nat, retryMax: nat, refreshInterval: nat)

  predicate Sane(t: RecoveryTiming) {
    t.retryMin <= t.retryMax && t.retryMin <= t.refreshInterval
  }

  /**
   * What the outside does around one attempt. `answered` is how long the lookup took, if it did not
   * time out. Notifications may come while it runs, first at some time while the worker then waits,
   * and (`notifiedLast`) once more before the next attempt. Timers may fire late by `late`.
   */
  datatype Round = Round(
    answered: Option<nat>, refresh: Refresh,
    notifiedDuring: bool, notifiedAfter: Option<nat>, notifiedLast: bool, late: nat)

  /** The worker between attempts; `start` is when the next one begins. */
  datatype Worker = Worker(ready: Option<ReadyUpstream>, permit: bool, backoff: nat, failing: bool, start: nat)

  function Fresh(t: RecoveryTiming, start: nat): Worker {
    Worker(None, false, t.retryMin, false, start)
  }

  function Outcome(t: RecoveryTiming, r: Round): Refresh {
    if r.answered.Some? && r.answered.value <= t.bootstrapTimeout then r.refresh else Refresh(None, None)
  }

  function Took(t: RecoveryTiming, r: Round): nat {
    if r.answered.Some? then Min(r.answered.value, t.bootstrapTimeout) else t.bootstrapTimeout
  }

  predicate Succeeds(t: RecoveryTiming, w: Worker, r: Round) {
    var result := Outcome(t, r);
    result.servers.Some? && Installed(w.ready, result.servers.value, result.built).1.Ok?
  }

  /** When the wait after a success ends: the refresh interval, or a notification, but not before `retryMin` is over. */
  function WakeAfterSuccess(t: RecoveryTiming, start: nat, finish: nat, permit: bool, notified: Option<nat>): nat {
    if permit then Max(finish, start + t.retryMin)
    else if notified.Some? && notified.value < t.refreshInterval then Max(finish + notified.value, start + t.retryMin)
    else finish + t.refreshInterval
  }

  function Next(t: RecoveryTiming, w: Worker, r: Round): Worker {
    var finish := w.start + Took(t, r);
    var permit := w.permit || r.notifiedDuring;
    var ready := AfterRefresh(w.ready, Outcome(t, r));
    if Succeeds(t, w, r) then
      var early := !permit && r.notifiedAfter.Some? && r.notifiedAfter.value < t.refreshInterval;
      var missed := !permit && r.notifiedAfter.Some? && !early;
      Worker(ready, missed || r.notifiedLast, t.retryMin, false,
             WakeAfterSuccess(t, w.start, finish, permit, r.notifiedAfter) + r.late)
    else
      Worker(ready, permit || r.notifiedAfter.Some? || r.notifiedLast, Min(w.backoff * 2, t.retryMax), true,
             finish + w.backoff + r.late)
  }

  function Run(t: RecoveryTiming, w: Worker, rounds: seq<Round>): Worker
    decreases rounds
  {
    if rounds == [] then w else Run(t, Next(t, w, rounds[0]), rounds[1..])
  }

  /** The worker's own state beside the slot it serves. */
  class RecoveryWorker {
    const slot: UpstreamSlot
    const timing: RecoveryTiming
    var backoff: nat
    var failing: bool
    var start: nat

    ghost function State(): Worker
      reads this, slot
    {
      Worker(slot.ready, slot.permit, backoff, failing, start)
    }

    constructor (slot: UpstreamSlot, timing: RecoveryTiming, start: nat)
      ensures this.slot == slot && this.timing == timing
      ensures State() == Worker(slot.ready, slot.permit, timing.retryMin, false, start)
    {
      this.slot, this.timing := slot, timing;
      backoff, failing, this.start := timing.retryMin, false, start;
    }

    /** One attempt and the wait after it. */
    method Attempt(r: Round)
      modifies this, slot
      ensures State() == Next(timing, old(State()), r)
    {
      hide WakeAfterSuccess, Installed;
      var ok := ApplyRefresh(Outcome(timing, r));
      var finish := start + Took(timing, r);
      if r.notifiedDuring {
        slot.NotifyOne();
      }
      if ok {
        failing := false;
        backoff := timing.retryMin;
        WaitAfterSuccess(finish, r.notifiedAfter);
      } else {
        failing := true;
        var delay := backoff;
        backoff := Min(backoff * 2, timing.retryMax);
        start := finish + delay;
        if r.notifiedAfter.Some? {
          slot.NotifyOne();
        }
      }
      if r.notifiedLast {
        slot.NotifyOne();
      }
      start := start + r.late;
    }

    method ApplyRefresh(result: Refresh) returns (ok: bool)
      modifies slot
      ensures slot.permit == old(slot.permit)
      ensures slot.ready == AfterRefresh(old(slot.ready), result)
      ensures ok <==> result.servers.Some? && Installed(old(slot.ready), result.servers.value, result.built).1.Ok?
    {
      ok := false;
      if result.servers.Some? {
        var installed := slot.Install(result.servers.value, result.built);
        ok := installed.Ok?;
      }
    }

    /** The select between the refresh timer and a notification. */
    method WaitAfterSuccess(finish: nat, notified: Option<nat>)
      modifies this`start, slot`permit
      ensures start == WakeAfterSuccess(timing, old(start), finish, old(slot.permit), notified)
      ensures slot.permit <==> !old(slot.permit) && notified.Some? && notified.value >= timing.refreshInterval
    {
      if slot.permit {
        slot.permit := false;
        start := Max(finish, start + timing.retryMin);
      } else if notified.Some? && notified.value < timing.refreshInterval {
        start := Max(finish + notified.value, start + timing.retryMin);
      } else {
        start := finish + timing.refreshInterval;
        if notified.Some? {
          slot.NotifyOne();
        }
      }
    }
  }

  /** The worker loop, run until the slot is dropped: it records when each attempt starts. */
  method RecoverUpstream(slot: UpstreamSlot, t: RecoveryTiming, start: nat, rounds: seq<Round>)
    returns (starts: seq<nat>)
    modifies slot
    ensures var w := Worker(old(slot.ready), old(slot.permit), t.retryMin, false, start);
            && |starts| == |rounds| + 1
            && (forall i :: 0 <= i <= |rounds| ==> starts[i] == Run(t, w, rounds[..i]).start)
            && slot.ready == Run(t, w, rounds).ready && slot.permit == Run(t, w, rounds).permit
  {
    hide Next;
    var worker := new RecoveryWorker(slot, t, start);
    starts := [start];
    ghost var w := Worker(slot.ready, slot.permit, t.retryMin, false, start);
    for i := 0 to |rounds|
      invariant worker.slot == slot && worker.timing == t
      invariant |starts| == i + 1
      invariant forall k :: 0 <= k <= i ==> starts[k] == Run(t, w, rounds[..k]).start
      invariant Run(t, w, rounds[..i]) == worker.State()
    {
      RunStep(t, w, rounds, i);
      worker.Attempt(rounds[i]);
      starts := starts + [worker.start];
    }
    assert rounds[..|rounds|] == rounds;
  }

  lemma {:induction false} RunAppend(t: RecoveryTiming, w: Worker, rounds: seq<Round>, r: Round)
    ensures Run(t, w, rounds + [r]) == Next(t, Run(t, w, rounds), r)
    decreases rounds
  {
    if rounds == [] {
      assert [r][1..] == [];
      assert [] + [r] == [r];
    } else {
      assert (rounds + [r])[1..] == rounds[1..] + [r];
      RunAppend(t, Next(t, w, rounds[0]), rounds[1..], r);
    }
  }

  lemma RunStep(t: RecoveryTiming, w: Worker, rounds: seq<Round>, i: nat)
    requires i < |rounds|
    ensures Run(t, w, rounds[..i + 1]) == Next(t, Run(t, w, rounds[..i]), rounds[i])
  {
    assert rounds[..i + 1] == rounds[..i] + [rounds[i]];
    RunAppend(t, w, rounds[..i], rounds[i]);
  }

  // ------------------------------------------------------------------ backoff

  /** How many attempts have failed since the last success. */
  function FailureStreak(t: RecoveryTiming, w: Worker, rounds: seq<Round>): nat {
    if rounds == [] then 0
    else
      var init := rounds[..|rounds| - 1];
      if Succeeds(t, Run(t, w, init), rounds[|rounds| - 1]) then 0 else FailureStreak(t, w, init) + 1
  }

  /** The wait after `j` failures in a row. */
  function Delay(t: RecoveryTiming, j: nat): nat {
    Min(t.retryMin * Pow2(j), t.retryMax)
  }

  lemma NextBackoff(t: RecoveryTiming, w: Worker, r: Round, j: nat)
    requires t.retryMin <= t.retryMax && w.backoff == Delay(t, j)
    ensures Next(t, w, r).backoff == if Succeeds(t, w, r) then Delay(t, 0) else Delay(t, j + 1)
    ensures Next(t, w, r).failing <==> !Succeeds(t, w, r)
  {}

  /**
   * After any run, the next failure sleeps `min(retryMin * 2^j, retryMax)`, `j` being the failures in
   * a row before it.
   */
  lemma {:induction false} BackoffLaw(t: RecoveryTiming, start: nat, rounds: seq<Round>)
    requires t.retryMin <= t.retryMax
    ensures var w, j := Run(t, Fresh(t, start), rounds), FailureStreak(t, Fresh(t, start), rounds);
            w.backoff == Min(t.retryMin * Pow2(j), t.retryMax) && (w.failing <==> j > 0)
    decreases |rounds|
  {
    var first := Fresh(t, start);
    if rounds == [] {
      assert t.retryMin * Pow2(0) == t.retryMin;
    } else {
      var init, last := rounds[..|rounds| - 1], rounds[|rounds| - 1];
      BackoffLaw(t, start, init);
      RunAppend(t, first, init, last);
      assert rounds == init + [last];
      NextBackoff(t, Run(t, first, init), last, FailureStreak(t, first, init));
    }
  }

  lemma BackoffBounds(t: RecoveryTiming, w: Worker, r: Round)
    requires Sane(t) && t.retryMin <= w.backoff <= t.retryMax
    ensures t.retryMin <= Next(t, w, r).backoff <= t.retryMax
  {}

  /** Every attempt of the run fails. */
  ghost predicate AllFail(t: RecoveryTiming, w: Worker, rounds: seq<Round>) {
    forall i :: 0 <= i < |rounds| ==> !Succeeds(t, Run(t, w, rounds[..i]), rounds[i])
  }

  predicate SameButNotified(a: Round, b: Round) {
    a.answered == b.answered && a.refresh == b.refresh && a.late == b.late
  }

  /** Two workers that differ at most in whether a notification is stored. */
  predicate SameButPermit(v: Worker, w: Worker) {
    v.(permit := w.permit) == w
  }

  lemma FailAlike(t: RecoveryTiming, v: Worker, w: Worker, a: Round, b: Round)
    requires SameButPermit(v, w) && SameButNotified(a, b) && !Succeeds(t, v, a)
    ensures !Succeeds(t, w, b) && SameButPermit(Next(t, v, a), Next(t, w, b))
  {}

  lemma FirstFails(t: RecoveryTiming, w: Worker, rounds: seq<Round>)
    requires rounds != [] && AllFail(t, w, rounds)
    ensures !Succeeds(t, w, rounds[0]) && AllFail(t, Next(t, w, rounds[0]), rounds[1..])
  {
    assert rounds[..0] == [];
    forall i | 0 <= i < |rounds[1..]|
      ensures !Succeeds(t, Run(t, Next(t, w, rounds[0]), rounds[1..][..i]), rounds[1..][i])
    {
      assert rounds[..i + 1][1..] == rounds[1..][..i];
      assert !Succeeds(t, Run(t, w, rounds[..i + 1]), rounds[i + 1]);
    }
  }

  /**
   * During an outage notifications change nothing: two courses of events that differ only in the
   * notifications, all of whose attempts fail, start every attempt at the same times.
   */
  lemma {:induction false} NotificationsCannotHurry(t: RecoveryTiming, v: Worker, w: Worker,
                                                    a: seq<Round>, b: seq<Round>)
    requires SameButPermit(v, w) && |a| == |b| && AllFail(t, v, a)
    requires forall i :: 0 <= i < |a| ==> SameButNotified(a[i], b[i])
    ensures AllFail(t, w, b)
    ensures forall i :: 0 <= i <= |a| ==> Run(t, v, a[..i]).start == Run(t, w, b[..i]).start
    decreases a
  {
    if a != [] {
      FirstFails(t, v, a);
      FailAlike(t, v, w, a[0], b[0]);
      var next, other := Next(t, v, a[0]), Next(t, w, b[0]);
      NotificationsCannotHurry(t, next, other, a[1..], b[1..]);
      FailsFrom(t, w, b);
      forall i | 0 <= i <= |a| ensures Run(t, v, a[..i]).start == Run(t, w, b[..i]).start {
        if i > 0 {
          assert a[..i][1..] == a[1..][..i - 1] && b[..i][1..] == b[1..][..i - 1];
          assert Run(t, next, a[1..][..i - 1]).start == Run(t, other, b[1..][..i - 1]).start;
        }
      }
    }
  }

  lemma FailsFrom(t: RecoveryTiming, w: Worker, rounds: seq<Round>)
    requires rounds != [] && !Succeeds(t, w, rounds[0]) && AllFail(t, Next(t, w, rounds[0]), rounds[1..])
    ensures AllFail(t, w, rounds)
  {
    forall i | 0 <= i < |rounds| ensures !Succeeds(t, Run(t, w, rounds[..i]), rounds[i]) {
      if i > 0 {
        assert rounds[..i][1..] == rounds[1..][..i - 1];
        assert rounds[i] == rounds[1..][i - 1];
      }
    }
  }

  predicate Silent(r: Round) {
    !r.notifiedDuring && r.notifiedAfter.None? && !r.notifiedLast
  }

  /** The first worker is at least as far on as the second, which has no notification stored. */
  predicate Ahead(v: Worker, w: Worker) {
    v.ready == w.ready && v.backoff == w.backoff && v.failing == w.failing && v.start <= w.start && !w.permit
  }

  lemma StaysAhead(t: RecoveryTiming, v: Worker, w: Worker, a: Round, b: Round)
    requires Sane(t) && Ahead(v, w) && SameButNotified(a, b) && Silent(b)
    ensures Ahead(Next(t, v, a), Next(t, w, b))
  {}

  /**
   * Notifications never delay: of two courses of events that differ only in that the second has no
   * notifications, the first starts every attempt at the same time or earlier.
   */
  lemma {:induction false} NotificationsNeverDelay(t: RecoveryTiming, v: Worker, w: Worker,
                                                   a: seq<Round>, b: seq<Round>)
    requires Sane(t) && Ahead(v, w) && |a| == |b|
    requires forall i :: 0 <= i < |a| ==> SameButNotified(a[i], b[i]) && Silent(b[i])
    ensures forall i :: 0 <= i <= |a| ==> Run(t, v, a[..i]).start <= Run(t, w, b[..i]).start
    decreases a
  {
    if a != [] {
      StaysAhead(t, v, w, a[0], b[0]);
      var next, other := Next(t, v, a[0]), Next(t, w, b[0]);
      NotificationsNeverDelay(t, next, other, a[1..], b[1..]);
      forall i | 0 <= i <= |a| ensures Run(t, v, a[..i]).start <= Run(t, w, b[..i]).start {
        if i > 0 {
          assert a[..i][1..] == a[1..][..i - 1] && b[..i][1..] == b[1..][..i - 1];
          assert Run(t, next, a[1..][..i - 1]).start <= Run(t, other, b[1..][..i - 1]).start;
        }
      }
    }
  }

  // ------------------------------------------------------------------- pacing

  lemma GapAtLeast(t: RecoveryTiming, w: Worker, r: Round)
    requires Sane(t) && t.retryMin <= w.backoff
    ensures Next(t, w, r).start >= w.start + t.retryMin
  {}

  /** With punctual timers an attempt follows within the lookup deadline and the longest wait. */
  lemma GapAtMost(t: RecoveryTiming, w: Worker, r: Round)
    requires Sane(t) && w.backoff <= t.retryMax && r.late == 0
    ensures Next(t, w, r).start <= w.start + t.bootstrapTimeout + Max(t.retryMax, t.refreshInterval)
  {}

  function StartAt(t: RecoveryTiming, start: nat, rounds: seq<Round>, i: nat): nat
    requires i <= |rounds|
  {
    Run(t, Fresh(t, start), rounds[..i]).start
  }

  lemma {:induction false} BackoffInRange(t: RecoveryTiming, start: nat, rounds: seq<Round>, i: nat)
    requires Sane(t) && i <= |rounds|
    ensures t.retryMin <= Run(t, Fresh(t, start), rounds[..i]).backoff <= t.retryMax
    decreases i
  {
    if i > 0 {
      BackoffInRange(t, start, rounds, i - 1);
      RunStep(t, Fresh(t, start), rounds, i - 1);
      BackoffBounds(t, Run(t, Fresh(t, start), rounds[..i - 1]), rounds[i - 1]);
    }
  }

  /** Over every run, `k` further attempts take at least `k` times the minimum retry time. */
  lemma {:induction false} AttemptsAreSpaced(t: RecoveryTiming, start: nat, rounds: seq<Round>, i: nat, k: nat)
    requires Sane(t) && i + k <= |rounds|
    ensures StartAt(t, start, rounds, i + k) >= StartAt(t, start, rounds, i) + k * t.retryMin
    decreases k
  {
    hide Next;
    if k > 0 {
      AttemptsAreSpaced(t, start, rounds, i, k - 1);
      BackoffInRange(t, start, rounds, i + k - 1);
      RunStep(t, Fresh(t, start), rounds, i + k - 1);
      GapAtLeast(t, Run(t, Fresh(t, start), rounds[..i + k - 1]), rounds[i + k - 1]);
      assert k * t.retryMin == (k - 1) * t.retryMin + t.retryMin;
    }
  }

  /** However notifications arrive, a window of length `span` holds at most `1 + span / retryMin` attempts. */
  lemma AttemptsPerWindow(t: RecoveryTiming, start: nat, rounds: seq<Round>, i: nat, k: nat, span: nat)
    requires Sane(t) && t.retryMin > 0 && i + k <= |rounds|
    requires StartAt(t, start, rounds, i + k) <= StartAt(t, start, rounds, i) + span
    ensures k + 1 <= 1 + span / t.retryMin
  {
    AttemptsAreSpaced(t, start, rounds, i, k);
    QuotientBound(k, t.retryMin, span);
  }

  lemma QuotientBound(k: nat, m: nat, n: nat)
    requires m > 0 && k * m <= n
    ensures k <= n / m
  {
    var q := n / m;
    assert n < (q + 1) * m;
    if q + 1 <= k { MulMonotone(q + 1, k, m); }
  }

  lemma MulMonotone(a: nat, b: nat, m: nat)
    requires a <= b
    ensures a * m <= b * m
  {}

  /** With punctual timers no gap is longer than the lookup deadline and the longest wait. */
  lemma AttemptsKeepComing(t: RecoveryTiming, start: nat, rounds: seq<Round>, i: nat)
    requires Sane(t) && i < |rounds| && rounds[i].late == 0
    ensures StartAt(t, start, rounds, i + 1) <=
            StartAt(t, start, rounds, i) + t.bootstrapTimeout + Max(t.retryMax, t.refreshInterval)
  {
    BackoffInRange(t, start, rounds, i);
    RunStep(t, Fresh(t, start), rounds, i);
    GapAtMost(t, Run(t, Fresh(t, start), rounds[..i]), rounds[i]);
  }

  /**
   * After a success, a stored notification brings the next attempt forward at once and a later one
   * when it comes, but never closer than `retryMin` to the last start; it is used up by that.
   */
  lemma NotificationsRefreshEarly(t: RecoveryTiming, w: Worker, r: Round)
    requires Sane(t) && Succeeds(t, w, r) && r.late == 0
    ensures var next, finish, stored := Next(t, w, r), w.start + Took(t, r), w.permit || r.notifiedDuring;
            && next.start >= w.start + t.retryMin
            && (stored ==> next.start == Max(finish, w.start + t.retryMin) && next.permit == r.notifiedLast)
            && (!stored && r.notifiedAfter.None? ==> next.start == finish + t.refreshInterval)
            && (!stored && r.notifiedAfter.Some? && r.notifiedAfter.value < t.refreshInterval ==>
                  && next.start == Max(finish + r.notifiedAfter.value, w.start + t.retryMin)
                  && next.permit == r.notifiedLast)
  {}

  // -------------------------------------------------------------------- slot

  function Outcomes(t: RecoveryTiming, rounds: seq<Round>): (rs: seq<Refresh>)
    ensures |rs| == |rounds| && forall i :: 0 <= i < |rs| ==> rs[i] == Outcome(t, rounds[i])
  {
    seq(|rounds|, i requires 0 <= i < |rounds| => Outcome(t, rounds[i]))
  }

  /** The worker's slot goes through the refreshes that answered in time, so `SlotSafety` speaks of it. */
  lemma {:induction false} RunRefreshesSlot(t: RecoveryTiming, w: Worker, rounds: seq<Round>)
    ensures Run(t, w, rounds).ready == AfterRefreshes(w.ready, Outcomes(t, rounds))
    decreases rounds
  {
    if rounds != [] {
      assert Outcomes(t, rounds)[1..] == Outcomes(t, rounds[1..]);
      RunRefreshesSlot(t, Next(t, w, rounds[0]), rounds[1..]);
    }
  }

  /** While it fails, the slot keeps what it had. */
  lemma FailureKeepsSlot(t: RecoveryTiming, w: Worker, r: Round)
    requires !Succeeds(t, w, r)
    ensures Next(t, w, r).ready == w.ready
  {}

  /** The lookup of the round is over before the deadline, and gives these servers. */
  predicate AnswersWith(t: RecoveryTiming, r: Round, servers: seq<Server>) {
    r.answered.Some? && r.answered.value <= t.bootstrapTimeout && r.refresh.servers == Some(servers)
  }

  /** The resolver is there already for these addresses, or one can be built. */
  ghost predicate Usable(ready: Option<ReadyUpstream>, servers: seq<Server>, built: Option<nat>) {
    && servers != []
    && (built.Some? || (ready.Some? && forall ip :: ip in Ips(servers) <==> ip in ready.value.addresses))
  }

  lemma {:induction false} RunIsWellFormed(t: RecoveryTiming, w: Worker, rounds: seq<Round>)
    requires WellFormed(w.ready)
    ensures WellFormed(Run(t, w, rounds).ready)
    decreases rounds
  {
    if rounds != [] {
      RefreshReplacesExactly(w.ready, Outcome(t, rounds[0]));
      RunIsWellFormed(t, Next(t, w, rounds[0]), rounds[1..]);
    }
  }

  lemma InstalledIfUsable(ready: Option<ReadyUpstream>, servers: seq<Server>, built: Option<nat>)
    requires WellFormed(ready)
    ensures Installed(ready, servers, built).1.Ok? <==> Usable(ready, servers, built)
  {
    CanonicalAscends(Ips(servers));
    assert servers == [] <==> Ips(servers) == [];
    if ready.Some? {
      var mine := ready.value.addresses;
      if forall ip :: ip in Ips(servers) <==> ip in mine { SameElementsSameList(Canonical(Ips(servers)), mine); }
    }
  }

  /**
   * After any run, an attempt that is answered in time with another, usable address set puts a new
   * resolver for exactly those addresses into the slot, and every other attempt leaves it as it was.
   * The attempt fails exactly if there is no answer in time or nothing usable in it.
   */
  lemma AttemptExactly(t: RecoveryTiming, start: nat, rounds: seq<Round>, r: Round)
    ensures var ready := Run(t, Fresh(t, start), rounds).ready;
            var after := Run(t, Fresh(t, start), rounds + [r]);
            && (after.failing <==>
                  !exists servers :: AnswersWith(t, r, servers) && Usable(ready, servers, r.refresh.built))
            && forall servers | AnswersWith(t, r, servers) ::
                 if Replaces(ready, r.refresh) then
                   && after.ready.Some? && after.ready.value.forwarder == r.refresh.built.value
                   && (forall ip :: ip in after.ready.value.addresses <==> ip in Ips(servers))
                   && (after.ready.value.trustNegative <==> forall x: Server :: x in servers ==> x.trustNegative)
                 else after.ready == ready
    ensures (forall servers :: !AnswersWith(t, r, servers)) ==>
            Run(t, Fresh(t, start), rounds + [r]).ready == Run(t, Fresh(t, start), rounds).ready
  {
    var w := Run(t, Fresh(t, start), rounds);
    RunAppend(t, Fresh(t, start), rounds, r);
    RunIsWellFormed(t, Fresh(t, start), rounds);
    if r.answered.Some? && r.answered.value <= t.bootstrapTimeout && r.refresh.servers.Some? {
      var servers := r.refresh.servers.value;
      assert AnswersWith(t, r, servers) && Outcome(t, r) == r.refresh;
      RefreshReplacesExactly(w.ready, r.refresh);
      InstalledIfUsable(w.ready, servers, r.refresh.built);
    }
  }

  /**
   * When the next attempt starts: after the answer or the deadline, and then the backoff if the attempt
   * failed, or the refresh interval if it did not and nobody notified.
   */
  lemma AttemptTiming(t: RecoveryTiming, w: Worker, r: Round)
    ensures var answered := r.answered.Some? && r.answered.value <= t.bootstrapTimeout;
            var finish := w.start + if answered then r.answered.value else t.bootstrapTimeout;
            var next := Next(t, w, r);
            && (next.failing ==> next.start == finish + w.backoff + r.late)
            && (!next.failing && !w.permit && !r.notifiedDuring && r.notifiedAfter.None? ==>
                  next.start == finish + t.refreshInterval + r.late)
  {}

  predicate Notified(r: Round) {
    r.notifiedDuring || r.notifiedAfter.Some? || r.notifiedLast
  }

  /** A notification that comes during an outage is kept, however long it lasts; and only such a one is. */
  lemma {:induction false} OutageKeepsNotifications(t: RecoveryTiming, w: Worker, rounds: seq<Round>)
    requires AllFail(t, w, rounds)
    ensures Run(t, w, rounds).permit <==> w.permit || exists i :: 0 <= i < |rounds| && Notified(rounds[i])
    decreases rounds
  {
    if rounds != [] {
      FirstFails(t, w, rounds);
      OutageKeepsNotifications(t, Next(t, w, rounds[0]), rounds[1..]);
      assert forall i :: 0 < i < |rounds| ==> rounds[i] == rounds[1..][i - 1];
    }
  }

  /** So a slot that never was ready has a notification stored exactly if one came since the start. */
  lemma FirstOutage(t: RecoveryTiming, start: nat, rounds: seq<Round>)
    requires AllFail(t, Fresh(t, start), rounds)
    ensures Run(t, Fresh(t, start), rounds).permit <==> exists i :: 0 <= i < |rounds| && Notified(rounds[i])
  {
    OutageKeepsNotifications(t, Fresh(t, start), rounds);
  }

  /** What the lookups gave that answered in time. */
  function InTime(t: RecoveryTiming, rounds: seq<Round>, looked: seq<Option<seq<IpAddr>>>)
    : (found: seq<Option<seq<IpAddr>>>)
    requires |looked| == |rounds|
    ensures |found| == |rounds|
    ensures forall i :: 0 <= i < |found| ==>
              found[i] == if Outcome(t, rounds[i]) == rounds[i].refresh then looked[i] else None
  {
    if rounds == [] then []
    else
      [if Outcome(t, rounds[0]) == rounds[0].refresh then looked[0] else None] + InTime(t, rounds[1..], looked[1..])
  }

  /** A worker resolves an endpoint, so the denials of its slot are never trusted. */
  lemma WorkersNeverTrust(t: RecoveryTiming, start: nat, rounds: seq<Round>, looked: seq<Option<seq<IpAddr>>>)
    requires |looked| == |rounds| && forall i :: 0 <= i < |rounds| ==> IsResolved(rounds[i].refresh, looked[i])
    ensures Untrusted(Run(t, Fresh(t, start), rounds).ready)
  {
    RunRefreshesSlot(t, Fresh(t, start), rounds);
    TrustNeverArises(None, Outcomes(t, rounds), InTime(t, rounds, looked));
  }
}
