/** One query asked of every ready upstream at once; the answer depends on who finishes when. */
module QueryRace {
  import opened Text
  import opened UpstreamSlots

  datatype ResponseCode = NoError | NXDomain | ServFail | OtherCode(code: nat)

  datatype LookupError =
    | NameExists
    | Code(code: ResponseCode)
    | NoRecordsFound(code: ResponseCode)
    | OtherError(id: nat)

  predicate IsNegativeAnswer(error: LookupError) {
    match error
    case NameExists => true
    case Code(code) => code == NXDomain
    case NoRecordsFound(code) => code == NXDomain || code == NoError
    case OtherError(_) => false
  }

  /** The errors that deny a name or its records; all others are failures. */
  lemma DenialsExactly(error: LookupError)
    ensures IsNegativeAnswer(error) <==>
            error in {NameExists, Code(NXDomain), NoRecordsFound(NXDomain), NoRecordsFound(NoError)}
  {}

  /** How one upstream's query ended; `Continue` and `Break` results are treated alike. */
  datatype Outcome = Panicked | Answered(answer: nat) | Failed(error: LookupError) | Skipped

  datatype Completion = Completion(upstream: nat, trusted: bool, outcome: Outcome)

  datatype Reply = Positive(answer: nat) | Refused(error: LookupError)

  predicate IsPositive(c: Completion) { c.outcome.Answered? }

  predicate IsNegative(c: Completion) { c.outcome.Failed? && IsNegativeAnswer(c.outcome.error) }

  /** Seen failing with something that is not an answer. */
  predicate IsBroken(c: Completion) { c.outcome.Failed? && !IsNegativeAnswer(c.outcome.error) }

  /** Ends the race: an answer, or a trusted denial. */
  predicate IsDecisive(c: Completion) { IsPositive(c) || (IsNegative(c) && c.trusted) }

  function ReplyOf(c: Completion): Reply
    requires IsDecisive(c)
  {
    if IsPositive(c) then Positive(c.outcome.answer) else Refused(c.outcome.error)
  }

  /** Where the race ends: the first decisive completion, or the end. */
  function Finish(cs: seq<Completion>): (n: nat)
    ensures n <= |cs|
    ensures n < |cs| ==> IsDecisive(cs[n])
    ensures forall i :: 0 <= i < n ==> !IsDecisive(cs[i])
  {
    if cs == [] || IsDecisive(cs[0]) then 0 else 1 + Finish(cs[1..])
  }

  function FirstDenial(cs: seq<Completion>): (r: Option<LookupError>)
    ensures r.Some? <==> exists i :: 0 <= i < |cs| && IsNegative(cs[i])
    ensures r.Some? ==> IsNegativeAnswer(r.value)
  {
    if cs == [] then None
    else if IsNegative(cs[0]) then Some(cs[0].outcome.error)
    else
      var rest := FirstDenial(cs[1..]);
      assert forall i :: 0 < i < |cs| ==> cs[i] == cs[1..][i - 1];
      rest
  }

  /** The reply the completions give in this order. */
  function RaceReply(cs: seq<Completion>): Reply {
    var n := Finish(cs);
    if n < |cs| then ReplyOf(cs[n])
    else
      match FirstDenial(cs)
      case Some(error) => Refused(error)
      case None => Refused(Code(ServFail))
  }

  function BrokenBefore(cs: seq<Completion>, n: nat): set<nat>
    requires n <= |cs|
  {
    set i | 0 <= i < n && IsBroken(cs[i]) :: cs[i].upstream
  }

  /** The upstreams that are asked to refresh: those seen broken before the race ended. */
  function Blamed(cs: seq<Completion>): set<nat> {
    BrokenBefore(cs, Finish(cs))
  }

  lemma BrokenStep(cs: seq<Completion>, n: nat)
    requires n < |cs|
    ensures BrokenBefore(cs, n + 1) == BrokenBefore(cs, n) + if IsBroken(cs[n]) then {cs[n].upstream} else {}
  {}

  class RecoveringForwarder {
    const slots: seq<UpstreamSlot>

    constructor (slots: seq<UpstreamSlot>)
      ensures this.slots == slots
    {
      this.slots := slots;
    }

    /** Each completion is that of a ready slot, with the trust flag the slot had when it was asked. */
    ghost predicate Plausible(cs: seq<Completion>)
      reads slots
    {
      forall i :: 0 <= i < |cs| ==>
        && cs[i].upstream < |slots| && slots[cs[i].upstream].ready.Some?
        && cs[i].trusted == slots[cs[i].upstream].ready.value.trustNegative
    }

    /** The slots with a refresh notification stored. */
    ghost function Permits(): set<nat>
      reads slots
    {
      set k | 0 <= k < |slots| && slots[k].permit
    }

    method Blame(k: nat)
      requires k < |slots| && Separate()
      modifies slots`permit
      ensures Permits() == old(Permits()) + {k}
    {
      slots[k].NotifyOne();
    }

    ghost predicate Separate() {
      forall i, j :: 0 <= i < j < |slots| ==> slots[i] != slots[j]
    }

    method Lookup(cs: seq<Completion>) returns (reply: Reply)
      requires Plausible(cs) && Separate()
      modifies slots`permit
      ensures reply == RaceReply(cs)
      ensures Permits() == old(Permits()) + Blamed(cs)
    {
      hide Separate, Permits, RaceReply;
      var negative: Option<LookupError> := None;
      var n := 0;
      RaceFromStart(cs);
      while n < |cs|
        invariant 0 <= n <= |cs|
        invariant forall i :: 0 <= i < n ==> !IsDecisive(cs[i])
        invariant RaceFrom(cs, n, negative) == RaceReply(cs)
        invariant Permits() == old(Permits()) + BrokenBefore(cs, n)
      {
        var c := cs[n];
        BrokenStep(cs, n);
        match c.outcome {
          case Panicked =>
          case Answered(answer) =>
            FinishAt(cs, n);
            return Positive(answer);
          case Failed(error) =>
            if IsNegativeAnswer(error) {
              if c.trusted {
                FinishAt(cs, n);
                return Refused(error);
              }
              if negative.None? {
                negative := Some(error);
              }
            } else {
              Blame(c.upstream);
            }
          case Skipped =>
        }
        n := n + 1;
      }
      FinishAt(cs, n);
      return if negative.Some? then Refused(negative.value) else Refused(Code(ServFail));
    }
  }

  /** The reply when the completions from `n` on are still out and `negative` is the denial kept. */
  function RaceFrom(cs: seq<Completion>, n: nat, negative: Option<LookupError>): Reply
    requires n <= |cs|
    decreases |cs| - n
  {
    if n == |cs| then if negative.Some? then Refused(negative.value) else Refused(Code(ServFail))
    else if IsDecisive(cs[n]) then ReplyOf(cs[n])
    else RaceFrom(cs, n + 1, if negative.None? && IsNegative(cs[n]) then Some(cs[n].outcome.error) else negative)
  }

  lemma {:induction false} RaceFromMeaning(cs: seq<Completion>, n: nat, negative: Option<LookupError>)
    requires n <= |cs|
    ensures RaceFrom(cs, n, negative) ==
            var rest := cs[n..];
            if Finish(rest) < |rest| || negative.None? then RaceReply(rest) else Refused(negative.value)
    decreases |cs| - n
  {
    if n < |cs| {
      assert cs[n..][0] == cs[n] && cs[n..][1..] == cs[n + 1..];
      RaceFromMeaning(cs, n + 1, if negative.None? && IsNegative(cs[n]) then Some(cs[n].outcome.error) else negative);
    }
  }

  lemma RaceFromStart(cs: seq<Completion>)
    ensures RaceFrom(cs, 0, None) == RaceReply(cs)
  {
    RaceFromMeaning(cs, 0, None);
    assert cs[0..] == cs;
  }

  lemma FinishAt(cs: seq<Completion>, n: nat)
    requires n <= |cs| && (n < |cs| ==> IsDecisive(cs[n]))
    requires forall i :: 0 <= i < n ==> !IsDecisive(cs[i])
    ensures Finish(cs) == n
  {}

  // ------------------------------------------------- for every finishing order

  ghost predicate NobodyTrusted(cs: seq<Completion>) {
    forall i :: 0 <= i < |cs| ==> !cs[i].trusted
  }

  /** SERVFAIL is the reply exactly when no upstream answered or denied. */
  lemma ServFailExactly(cs: seq<Completion>)
    ensures RaceReply(cs) == Refused(Code(ServFail)) <==>
            forall i :: 0 <= i < |cs| ==> !IsPositive(cs[i]) && !IsNegative(cs[i])
  {}

  /** When no denial is trusted, any answer beats every denial, in any order. */
  lemma AnswersBeatUntrustedDenials(cs: seq<Completion>)
    requires NobodyTrusted(cs)
    ensures RaceReply(cs).Positive? <==> exists i :: 0 <= i < |cs| && IsPositive(cs[i])
    ensures RaceReply(cs).Positive? ==>
            exists i :: 0 <= i < |cs| && IsPositive(cs[i]) && RaceReply(cs) == ReplyOf(cs[i])
  {}

  /** The reply is always what some upstream said, or SERVFAIL; and nobody is blamed who was not seen broken. */
  lemma RepliesAreEarned(cs: seq<Completion>)
    ensures RaceReply(cs) == Refused(Code(ServFail))
            || exists i :: 0 <= i < |cs| && ((IsPositive(cs[i]) && RaceReply(cs) == Positive(cs[i].outcome.answer))
                                             || (IsNegative(cs[i]) && RaceReply(cs) == Refused(cs[i].outcome.error)))
    ensures forall k :: k in Blamed(cs) ==> exists i :: 0 <= i < |cs| && cs[i].upstream == k && IsBroken(cs[i])
  {
    var n := Finish(cs);
    if n == |cs| { DenialIsSomebodys(cs); }
  }

  lemma {:induction false} DenialIsSomebodys(cs: seq<Completion>)
    ensures FirstDenial(cs).Some? ==>
            exists i :: 0 <= i < |cs| && IsNegative(cs[i]) && FirstDenial(cs) == Some(cs[i].outcome.error)
  {
    if cs != [] && !IsNegative(cs[0]) && FirstDenial(cs[1..]).Some? {
      DenialIsSomebodys(cs[1..]);
      var i :| 0 <= i < |cs[1..]| && IsNegative(cs[1..][i]) && FirstDenial(cs[1..]) == Some(cs[1..][i].outcome.error);
      assert cs[i + 1] == cs[1..][i];
    }
  }

  function AllBroken(cs: seq<Completion>): set<nat> {
    BrokenBefore(cs, |cs|)
  }

  /** No upstream completes twice. */
  ghost predicate Once(cs: seq<Completion>) {
    forall i, j :: 0 <= i < j < |cs| ==> cs[i].upstream != cs[j].upstream
  }

  lemma BrokenMeaning(cs: seq<Completion>, n: nat, i: nat)
    requires i < |cs| && n <= |cs| && Once(cs) && IsBroken(cs[i])
    ensures cs[i].upstream in BrokenBefore(cs, n) <==> i < n
  {
    if cs[i].upstream in BrokenBefore(cs, n) {
      var k :| 0 <= k < n && IsBroken(cs[k]) && cs[k].upstream == cs[i].upstream;
    }
  }

  /** Every broken upstream is asked to refresh exactly if none completes after something decisive. */
  lemma BlamesAllExactly(cs: seq<Completion>)
    requires Once(cs)
    ensures Blamed(cs) == AllBroken(cs) <==> forall i, j :: 0 <= i < j < |cs| && IsDecisive(cs[i]) ==> !IsBroken(cs[j])
  {
    var n := Finish(cs);
    if forall i, j :: 0 <= i < j < |cs| && IsDecisive(cs[i]) ==> !IsBroken(cs[j]) {
      assert forall j :: n <= j < |cs| ==> !IsBroken(cs[j]);
    } else {
      var i, j :| 0 <= i < j < |cs| && IsDecisive(cs[i]) && IsBroken(cs[j]);
      assert n <= i;
      BrokenMeaning(cs, n, j);
      BrokenMeaning(cs, |cs|, j);
    }
  }

  lemma SameBroken(a: seq<Completion>, b: seq<Completion>)
    requires multiset(a) == multiset(b)
    ensures AllBroken(a) == AllBroken(b)
  {
    SameMembers(a, b);
    forall i | 0 <= i < |a| && IsBroken(a[i]) ensures a[i].upstream in AllBroken(b) {
      assert a[i] in b;
    }
    forall i | 0 <= i < |b| && IsBroken(b[i]) ensures b[i].upstream in AllBroken(a) {
      assert b[i] in a;
    }
  }

  lemma UndecidedBlamesAll(cs: seq<Completion>)
    requires forall i :: 0 <= i < |cs| ==> !IsDecisive(cs[i])
    ensures Blamed(cs) == AllBroken(cs)
  {
    FinishAt(cs, |cs|);
  }

  ghost predicate NothingDecisive(cs: seq<Completion>) {
    forall c :: c in cs ==> !IsDecisive(c)
  }

  /**
   * Whatever the finishing order, every broken upstream is asked to refresh: that holds if and only if
   * nobody decides the race, or nobody is broken.
   */
  lemma AlwaysBlamesAllExactly(cs: seq<Completion>)
    ensures (forall other: seq<Completion> | multiset(other) == multiset(cs) :: Blamed(other) == AllBroken(cs))
            <==> NothingDecisive(cs) || AllBroken(cs) == {}
  {
    if NothingDecisive(cs) || AllBroken(cs) == {} {
      forall other: seq<Completion> | multiset(other) == multiset(cs) ensures Blamed(other) == AllBroken(cs) {
        SameMembers(other, cs);
        SameBroken(other, cs);
        if NothingDecisive(cs) { UndecidedBlamesAll(other); }
      }
    } else {
      var c :| c in cs && IsDecisive(c);
      var i :| 0 <= i < |cs| && cs[i] == c;
      ToFrontPermutes(cs, i);
      FinishAt(ToFront(cs, i), 0);
      assert Blamed(ToFront(cs, i)) == {};
    }
  }

  datatype Kind = Answer | Denial | Failure

  function KindOf(reply: Reply): Kind {
    match reply
    case Positive(_) => Answer
    case Refused(error) => if error == Code(ServFail) then Failure else Denial
  }

  /** Somebody answered while somebody trusted denied. */
  ghost predicate Conflict(cs: seq<Completion>) {
    && (exists i :: 0 <= i < |cs| && IsPositive(cs[i]))
    && (exists i :: 0 <= i < |cs| && IsNegative(cs[i]) && cs[i].trusted)
  }

  /** Without a conflict the kind of the reply can be read off the completions as a collection. */
  lemma KindWithoutConflict(cs: seq<Completion>)
    requires !Conflict(cs)
    ensures KindOf(RaceReply(cs)) ==
            if exists i :: 0 <= i < |cs| && IsPositive(cs[i]) then Answer
            else if exists i :: 0 <= i < |cs| && IsNegative(cs[i]) then Denial
            else Failure
  {}

  lemma SameMembers(a: seq<Completion>, b: seq<Completion>)
    requires multiset(a) == multiset(b)
    ensures forall c :: c in a <==> c in b
  {
    forall c ensures c in a <==> c in b {
      assert c in a <==> c in multiset(a);
      assert c in b <==> c in multiset(b);
    }
  }

  lemma SameKind(a: seq<Completion>, b: seq<Completion>)
    requires multiset(a) == multiset(b) && !Conflict(a)
    ensures KindOf(RaceReply(a)) == KindOf(RaceReply(b))
  {
    SameMembers(a, b);
    assert forall i :: 0 <= i < |a| ==> a[i] in b;
    assert forall i :: 0 <= i < |b| ==> b[i] in a;
    KindWithoutConflict(a);
    KindWithoutConflict(b);
  }

  function ToFront(cs: seq<Completion>, i: nat): seq<Completion>
    requires i < |cs|
  {
    [cs[i]] + cs[..i] + cs[i + 1..]
  }

  lemma ToFrontPermutes(cs: seq<Completion>, i: nat)
    requires i < |cs|
    ensures multiset(ToFront(cs, i)) == multiset(cs)
  {
    assert cs == cs[..i] + [cs[i]] + cs[i + 1..];
  }

  /** The kind of the reply is the same for every finishing order if and only if there is no conflict. */
  lemma KindIsOrderFreeExactly(cs: seq<Completion>)
    ensures (forall other: seq<Completion> | multiset(other) == multiset(cs) ::
               KindOf(RaceReply(other)) == KindOf(RaceReply(cs)))
            <==> !Conflict(cs)
  {
    if !Conflict(cs) {
      forall other: seq<Completion> | multiset(other) == multiset(cs)
        ensures KindOf(RaceReply(other)) == KindOf(RaceReply(cs))
      {
        SameKind(cs, other);
      }
    } else {
      var i :| 0 <= i < |cs| && IsPositive(cs[i]);
      var j :| 0 <= j < |cs| && IsNegative(cs[j]) && cs[j].trusted;
      ToFrontPermutes(cs, i);
      ToFrontPermutes(cs, j);
      FinishAt(ToFront(cs, i), 0);
      FinishAt(ToFront(cs, j), 0);
      assert RaceReply(ToFront(cs, i)).Positive? && RaceReply(ToFront(cs, j)).Refused?;
      assert KindOf(RaceReply(ToFront(cs, i))) != KindOf(RaceReply(ToFront(cs, j)));
    }
  }

  /** All decisive completions say the same; and if there is none, all denials do. */
  ghost predicate OneReply(cs: seq<Completion>) {
    && (forall c, d :: c in cs && d in cs && IsDecisive(c) && IsDecisive(d) ==> ReplyOf(c) == ReplyOf(d))
    && (NothingDecisive(cs) ==>
          forall c, d :: c in cs && d in cs && IsNegative(c) && IsNegative(d) ==> c.outcome.error == d.outcome.error)
  }

  /** What the reply is then, whatever the order. */
  lemma ReplyIfOne(cs: seq<Completion>, c: Completion)
    requires OneReply(cs) && c in cs
    ensures IsDecisive(c) ==> RaceReply(cs) == ReplyOf(c)
    ensures NothingDecisive(cs) && IsNegative(c) ==> RaceReply(cs) == Refused(c.outcome.error)
  {
    var n := Finish(cs);
    if IsDecisive(c) {
      var i :| 0 <= i < |cs| && cs[i] == c;
      assert n < |cs| && cs[n] in cs;
    } else if NothingDecisive(cs) && IsNegative(c) {
      FinishAt(cs, |cs|);
      DenialIsSomebodys(cs);
      var i :| 0 <= i < |cs| && IsNegative(cs[i]) && FirstDenial(cs) == Some(cs[i].outcome.error);
      assert cs[i] in cs;
    }
  }

  lemma OneReplyForAll(cs: seq<Completion>, other: seq<Completion>)
    requires OneReply(cs) && multiset(other) == multiset(cs)
    ensures RaceReply(other) == RaceReply(cs)
  {
    SameMembers(other, cs);
    assert OneReply(other);
    if c :| c in cs && IsDecisive(c) {
      ReplyIfOne(cs, c);
      ReplyIfOne(other, c);
    } else if c :| c in cs && IsNegative(c) {
      ReplyIfOne(cs, c);
      ReplyIfOne(other, c);
    } else {
      ServFailExactly(cs);
      ServFailExactly(other);
    }
  }

  lemma FrontDecides(cs: seq<Completion>, c: Completion) returns (other: seq<Completion>)
    requires c in cs && (IsDecisive(c) || (NothingDecisive(cs) && IsNegative(c)))
    ensures multiset(other) == multiset(cs)
    ensures RaceReply(other) == if IsDecisive(c) then ReplyOf(c) else Refused(c.outcome.error)
  {
    var i :| 0 <= i < |cs| && cs[i] == c;
    other := ToFront(cs, i);
    ToFrontPermutes(cs, i);
    if IsDecisive(c) {
      FinishAt(other, 0);
    } else {
      SameMembers(other, cs);
      FinishAt(other, |other|);
      assert FirstDenial(other) == Some(c.outcome.error);
    }
  }

  ghost predicate ReplyNeverDiffers(cs: seq<Completion>) {
    forall other: seq<Completion> | multiset(other) == multiset(cs) :: RaceReply(other) == RaceReply(cs)
  }

  /**
   * The reply itself is the same for every finishing order if and only if all decisive completions
   * say the same and, if there are none, all denials do.
   */
  lemma ReplyIsOrderFreeExactly(cs: seq<Completion>)
    ensures ReplyNeverDiffers(cs) <==> OneReply(cs)
  {
    if OneReply(cs) {
      forall other: seq<Completion> | multiset(other) == multiset(cs) ensures RaceReply(other) == RaceReply(cs) {
        OneReplyForAll(cs, other);
      }
    }
    if ReplyNeverDiffers(cs) {
      forall c, d | c in cs && d in cs && IsDecisive(c) && IsDecisive(d) ensures ReplyOf(c) == ReplyOf(d) {
        var first := FrontDecides(cs, c);
        var second := FrontDecides(cs, d);
      }
      if NothingDecisive(cs) {
        forall c, d | c in cs && d in cs && IsNegative(c) && IsNegative(d) ensures c.outcome.error == d.outcome.error {
          var first := FrontDecides(cs, c);
          var second := FrontDecides(cs, d);
        }
      }
    }
  }
}
