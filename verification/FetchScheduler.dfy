/** The fall-through URL-fetch scheduler (scheduler/fetch.py). A run is given what its environment did:
    which providers had capacity at each scan, and what each attempted provider and the judge did. */
module FetchScheduler {
  import opened Options
  import opened Strings

  type Provider = string

  datatype ErrorCode = AllProvidersFailed | LlmStageFailed | OtherCode(name: string)

  /** An `ExecutionFailure`; a missing reason is the empty string. */
  datatype Failure = Failure(code: ErrorCode, message: string, reason: string)

  datatype Candidate = Candidate(rawContent: string, content: string)

  /** `FetchBreaks` is any other exception, or a candidate that is not of the declared types. */
  datatype Fetch = Gives(candidate: Candidate) | FetchFails(failure: Failure) | FetchBreaks | FetchCancelled

  datatype Judge = Decides(ok: bool) | JudgeFails(failure: Failure) | JudgeBreaks | JudgeCancelled

  datatype Kind = Accepted | SemanticFailure | ExecutionFailure

  datatype FetchOutcome = FetchOutcome(kind: Kind, candidate: Option<Candidate>, failures: seq<Failure>)

  datatype End = Returned(outcome: FetchOutcome) | Raised(failure: Failure) | WasCancelled

  function ValidationText(c: Candidate): string
  {
    if c.content != "" then c.content else c.rawContent
  }

  function CheapCheck(text: string): bool
  {
    Strip(text) != ""
  }

  function Attempt(provider: Provider, fetch: Fetch, judge: Judge): End
  {
    match fetch
    case FetchCancelled => WasCancelled
    case FetchFails(failure) => Returned(FetchOutcome(ExecutionFailure, None, [failure]))
    case FetchBreaks => Returned(FetchOutcome(ExecutionFailure, None, [InvalidData(provider)]))
    case Gives(candidate) =>
      if candidate.rawContent == "" then Returned(FetchOutcome(ExecutionFailure, None, [InvalidData(provider)]))
      else if !CheapCheck(ValidationText(candidate)) then Returned(FetchOutcome(SemanticFailure, None, []))
      else
        match judge
        case JudgeCancelled => WasCancelled
        case JudgeFails(failure) =>
          Raised(failure.(reason := if failure.reason != "" then failure.reason else "judge_execution_failed"))
        case JudgeBreaks => Raised(Failure(LlmStageFailed, "Judge LLM stage failed", "judge_execution_failed"))
        case Decides(ok) =>
          if ok then Returned(FetchOutcome(Accepted, Some(candidate), []))
          else Returned(FetchOutcome(SemanticFailure, None, []))
  }

  // ----- what an attempt ends with, in terms of the fetch and the judge -----

  /** The fetch gave a candidate with raw content. */
  predicate Fetched(fetch: Fetch)
  {
    fetch.Gives? && fetch.candidate.rawContent != ""
  }

  /** There is a text to judge: the content, or the raw content when there is none, and it is not blank. */
  predicate Judgeable(fetch: Fetch)
  {
    Fetched(fetch)
      && !(fetch.candidate.content == "" && Blank(fetch.candidate.rawContent))
      && !(fetch.candidate.content != "" && Blank(fetch.candidate.content))
  }

  predicate Succeeds(fetch: Fetch, judge: Judge)
  {
    Judgeable(fetch) && judge == Decides(true)
  }

  predicate IsRejected(fetch: Fetch, judge: Judge)
  {
    Fetched(fetch) && (!Judgeable(fetch) || judge == Decides(false))
  }

  predicate Fails(fetch: Fetch)
  {
    fetch.FetchFails? || fetch.FetchBreaks? || (fetch.Gives? && !Fetched(fetch))
  }

  predicate JudgeStops(fetch: Fetch, judge: Judge)
  {
    Judgeable(fetch) && (judge.JudgeFails? || judge.JudgeBreaks?)
  }

  predicate IsCancelled(fetch: Fetch, judge: Judge)
  {
    fetch.FetchCancelled? || (Judgeable(fetch) && judge.JudgeCancelled?)
  }

  /** The failure of a fetch that failed. */
  function Reason(provider: Provider, fetch: Fetch): Failure
  {
    if fetch.FetchFails? then fetch.failure
    else Failure(AllProvidersFailed, "Fetch provider " + provider + " returned invalid data", "")
  }

  /** What a failed judge raises keeps the stage's code, message and reason, and always has a reason. */
  predicate RaisedBy(judge: Judge, failure: Failure)
  {
    match judge
    case JudgeFails(cause) =>
      && failure.code == cause.code && failure.message == cause.message
      && failure.reason in {cause.reason, "judge_execution_failed"} - {""}
      && (failure.reason == "judge_execution_failed" ==> cause.reason in {"", failure.reason})
    case _ => failure.code == LlmStageFailed && failure.reason == "judge_execution_failed"
  }

  /** One equivalence for each way an attempt can end. */
  ghost predicate Explains(provider: Provider, fetch: Fetch, judge: Judge, end: End)
  {
    && (Accepts(end) <==> Succeeds(fetch, judge))
    && (Accepts(end) ==> end.outcome.candidate == Some(fetch.candidate) && end.outcome.failures == [])
    && (RejectsSemantically(end) <==> IsRejected(fetch, judge))
    && (RejectsSemantically(end) ==> end.outcome.candidate == None && end.outcome.failures == [])
    && (FailsToExecute(end) <==> Fails(fetch))
    && (FailsToExecute(end) ==> end.outcome.candidate == None && end.outcome.failures == [Reason(provider, fetch)])
    && (end.Raised? <==> JudgeStops(fetch, judge))
    && (end.Raised? ==> RaisedBy(judge, end.failure))
    && (end.WasCancelled? <==> IsCancelled(fetch, judge))
  }

  /** Every attempt ends as the fetch and the judge decide. */
  lemma AttemptMeaning(provider: Provider, fetch: Fetch, judge: Judge)
    ensures Explains(provider, fetch, judge, Attempt(provider, fetch, judge))
  {
    if fetch.Gives? {
      StripEmptyIff(fetch.candidate.content);
      StripEmptyIff(fetch.candidate.rawContent);
    }
  }

  function InvalidData(provider: Provider): Failure
  {
    Failure(AllProvidersFailed, "Fetch provider " + provider + " returned invalid data", "")
  }

  predicate Accepts(end: End)
  {
    end.Returned? && end.outcome.kind.Accepted?
  }

  predicate RejectsSemantically(end: End)
  {
    end.Returned? && end.outcome.kind.SemanticFailure?
  }

  predicate FailsToExecute(end: End)
  {
    end.Returned? && end.outcome.kind.ExecutionFailure?
  }

  /** The run falls through to another provider. */
  predicate FallsThrough(end: End)
  {
    end.Returned? && !end.outcome.kind.Accepted?
  }

  function Failures(ends: seq<End>): seq<Failure>
  {
    if ends == [] then []
    else
      var last := ends[|ends| - 1];
      Failures(ends[..|ends| - 1]) + if last.Returned? && last.outcome.kind.ExecutionFailure? then
        last.outcome.failures else []
  }

  /** The providers with capacity at each scan while a run waits for its next lease, and what the
      chosen provider and the judge then do. A wait whose scans run out is cancelled. */
  datatype Turn = Turn(scans: seq<set<Provider>>, fetch: Fetch, judge: Judge)

  datatype LeaseEvent = Taken(provider: Provider) | GivenBack(provider: Provider)

  ghost predicate HadCapacity(provider: Provider, scans: seq<set<Provider>>)
  {
    exists n :: 0 <= n < |scans| && provider in scans[n]
  }

  /** None of `remaining` had capacity at any scan. */
  ghost predicate Starved(remaining: multiset<Provider>, scans: seq<set<Provider>>)
  {
    forall p :: p in remaining ==> !HadCapacity(p, scans)
  }

  /** Provider `i` is the first with capacity at the first scan that finds any. */
  ghost predicate FirstFree(remaining: seq<Provider>, scans: seq<set<Provider>>, i: nat)
    requires i < |remaining|
  {
    exists n :: 0 <= n < |scans|
      && remaining[i] in scans[n]
      && (forall j :: 0 <= j < i ==> remaining[j] !in scans[n])
      && (forall m, j :: 0 <= m < n && 0 <= j < |remaining| ==> remaining[j] !in scans[m])
  }

  /** `list.remove`: all but the first occurrence of `p`. */
  function Without(providers: seq<Provider>, p: Provider): seq<Provider>
  {
    if providers == [] then []
    else if providers[0] == p then providers[1..]
    else [providers[0]] + Without(providers[1..], p)
  }

  /** What is left of `providers` after attempts in `order`. */
  function Untried(providers: seq<Provider>, order: seq<Provider>): seq<Provider>
  {
    if order == [] then providers else Without(Untried(providers, order[..|order| - 1]), order[|order| - 1])
  }

  ghost predicate ChosenFirst(remaining: seq<Provider>, scans: seq<set<Provider>>, provider: Provider)
  {
    exists i :: 0 <= i < |remaining| && remaining[i] == provider && FirstFree(remaining, scans, i)
  }

  /** Every attempted provider was the first untried one with capacity, at the first scan that found any. */
  ghost predicate ChosenInOrder(providers: seq<Provider>, order: seq<Provider>, turns: seq<Turn>)
    requires |order| <= |turns|
  {
    forall k :: 0 <= k < |order| ==> ChosenFirst(Untried(providers, order[..k]), turns[k].scans, order[k])
  }

  /** The first scan that finds capacity gives a lease to the first remaining provider that has some. */
  method SelectAvailableProvider(remaining: seq<Provider>, scans: seq<set<Provider>>) returns (chosen: Option<nat>)
    ensures chosen.Some? ==>
        chosen.value < |remaining| && FirstFree(remaining, scans, chosen.value)
          && HadCapacity(remaining[chosen.value], scans)
    ensures chosen.None? ==> Starved(multiset(remaining), scans)
  {
    for n := 0 to |scans|
      invariant forall m, i :: 0 <= m < n && 0 <= i < |remaining| ==> remaining[i] !in scans[m]
    {
      for i := 0 to |remaining|
        invariant forall j :: 0 <= j < i ==> remaining[j] !in scans[n]
      {
        if remaining[i] in scans[n] {
          return Some(i);
        }
      }
    }
    return None;
  }

  function Attempts(order: seq<Provider>, turns: seq<Turn>): seq<End>
    requires |order| <= |turns|
  {
    seq(|order|, k requires 0 <= k < |order| => Attempt(order[k], turns[k].fetch, turns[k].judge))
  }

  /** One lease at a time, each given back before the next is taken. */
  function Balanced(order: seq<Provider>): seq<LeaseEvent>
  {
    if order == [] then []
    else Balanced(order[..|order| - 1]) + [Taken(order[|order| - 1]), GivenBack(order[|order| - 1])]
  }

  /** Whether every attempt fell through, so that the run looks for another provider. */
  ghost predicate Unsettled(ends: seq<End>)
  {
    forall k :: 0 <= k < |ends| ==> FallsThrough(ends[k])
  }

  ghost predicate SomeRejected(ends: seq<End>)
  {
    exists k :: 0 <= k < |ends| && RejectsSemantically(ends[k])
  }

  /** How a run over `providers` that attempted `order` ends. */
  ghost predicate Explained(providers: seq<Provider>, ends: seq<End>, end: End)
  {
    if ends != [] && !FallsThrough(ends[|ends| - 1]) then
      && Unsettled(ends[..|ends| - 1])
      && end == (if Accepts(ends[|ends| - 1]) then Returned(ends[|ends| - 1].outcome.(failures := Failures(ends)))
                 else ends[|ends| - 1])
    else
      && Unsettled(ends)
      && (|ends| == |providers| ==>
            end == Returned(FetchOutcome(if SomeRejected(ends) then SemanticFailure else ExecutionFailure,
                                         None, Failures(ends))))
      && (|ends| < |providers| ==> end == WasCancelled)
  }

  ghost predicate SplitsProviders(order: seq<Provider>, remaining: seq<Provider>, providers: seq<Provider>)
  {
    multiset(order) <= multiset(providers) && |order| + |remaining| == |providers|
      && multiset(order) + multiset(remaining) == multiset(providers)
  }

  lemma {:induction false} WithoutAt(remaining: seq<Provider>, i: nat)
    requires i < |remaining| && forall j :: 0 <= j < i ==> remaining[j] != remaining[i]
    ensures Without(remaining, remaining[i]) == remaining[..i] + remaining[i + 1..]
  {
    if i == 0 {
      assert remaining[..0] + remaining[1..] == remaining[1..];
    } else {
      WithoutAt(remaining[1..], i - 1);
      assert remaining[..i] == [remaining[0]] + remaining[1..][..i - 1];
      assert remaining[i + 1..] == remaining[1..][i..];
    }
  }

  /** `remaining.remove(provider)`: the chosen provider moves from those left to those attempted. */
  method Remove(remaining: seq<Provider>, i: nat, ghost order: seq<Provider>, ghost providers: seq<Provider>)
      returns (rest: seq<Provider>)
    requires SplitsProviders(order, remaining, providers) && i < |remaining|
    requires forall j :: 0 <= j < i ==> remaining[j] != remaining[i]
    ensures SplitsProviders(order + [remaining[i]], rest, providers) && rest == Without(remaining, remaining[i])
  {
    rest := remaining[..i] + remaining[i + 1..];
    assert remaining == remaining[..i] + [remaining[i]] + remaining[i + 1..];
    WithoutAt(remaining, i);
  }

  /** `order` lists the providers in the order they were attempted. At every exit, each lease the run
      took was given back. */
  method FetchUntilAccepted(providers: seq<Provider>, turns: seq<Turn>)
      returns (end: End, order: seq<Provider>, leases: seq<LeaseEvent>)
    requires |turns| == |providers|
    ensures |order| <= |providers| && multiset(order) <= multiset(providers)
    ensures Explained(providers, Attempts(order, turns), end)
    ensures ChosenInOrder(providers, order, turns)
    ensures Unsettled(Attempts(order, turns)) && |order| < |providers| ==>
              Starved(multiset(providers) - multiset(order), turns[|order|].scans)
    ensures leases == Balanced(order)
  {
    var semanticFailureSeen := false;
    var failures: seq<Failure> := [];
    var remaining := providers;
    order, leases := [], [];
    ghost var ends := [];
    while remaining != []
      invariant SplitsProviders(order, remaining, providers)
      invariant ends == Attempts(order, turns) && Unsettled(ends)
      invariant remaining == Untried(providers, order) && ChosenInOrder(providers, order, turns)
      invariant semanticFailureSeen <==> SomeRejected(ends)
      invariant failures == Failures(ends) && leases == Balanced(order)
      decreases |remaining|
    {
      var turn := turns[|order|];
      var chosen := SelectAvailableProvider(remaining, turn.scans);
      if chosen.None? {
        RemainingUntried(order, remaining, providers);
        return WasCancelled, order, leases;
      }
      var provider := remaining[chosen.value];
      AttemptsNext(order, turns, provider, ends);
      BalancedNext(order, provider);
      ChosenNext(providers, order, turns, chosen.value);
      leases := leases + [Taken(provider)];
      remaining := Remove(remaining, chosen.value, order, providers);
      var outcome := Attempt(provider, turn.fetch, turn.judge);
      leases := leases + [GivenBack(provider)];
      Settles(providers, ends, outcome);
      order, ends := order + [provider], ends + [outcome];
      if !outcome.Returned? {
        return outcome, order, leases;
      }
      if outcome.outcome.kind.Accepted? {
        return Returned(FetchOutcome(Accepted, outcome.outcome.candidate, failures)), order, leases;
      }
      if outcome.outcome.kind.SemanticFailure? {
        semanticFailureSeen := true;
      } else {
        failures := failures + outcome.outcome.failures;
      }
    }
    end := Returned(FetchOutcome(if semanticFailureSeen then SemanticFailure else ExecutionFailure, None, failures));
  }

  lemma RemainingUntried(order: seq<Provider>, remaining: seq<Provider>, providers: seq<Provider>)
    requires SplitsProviders(order, remaining, providers)
    ensures multiset(providers) - multiset(order) == multiset(remaining)
  {
  }

  lemma ChosenNext(providers: seq<Provider>, order: seq<Provider>, turns: seq<Turn>, i: nat)
    requires |order| < |turns| && ChosenInOrder(providers, order, turns) && i < |Untried(providers, order)|
    requires FirstFree(Untried(providers, order), turns[|order|].scans, i)
    ensures var remaining, provider := Untried(providers, order), Untried(providers, order)[i];
      && ChosenInOrder(providers, order + [provider], turns)
      && Untried(providers, order + [provider]) == Without(remaining, provider)
      && forall j :: 0 <= j < i ==> remaining[j] != provider
  {
    var longer := order + [Untried(providers, order)[i]];
    forall k | 0 <= k < |longer| ensures ChosenFirst(Untried(providers, longer[..k]), turns[k].scans, longer[k]) {
      assert longer[..k] == order[..k];
      assert order[..|order|] == order;
    }
    assert longer[..|order|] == order;
  }

  lemma AttemptsNext(order: seq<Provider>, turns: seq<Turn>, provider: Provider, ends: seq<End>)
    requires |order| < |turns| && ends == Attempts(order, turns)
    ensures Attempts(order + [provider], turns) ==
        ends + [Attempt(provider, turns[|order|].fetch, turns[|order|].judge)]
  {
  }

  lemma BalancedNext(order: seq<Provider>, provider: Provider)
    ensures Balanced(order + [provider]) == Balanced(order) + [Taken(provider)] + [GivenBack(provider)]
  {
    assert (order + [provider])[..|order|] == order;
    assert Balanced(order) + [Taken(provider)] + [GivenBack(provider)] ==
      Balanced(order) + [Taken(provider), GivenBack(provider)];
  }

  lemma Settles(providers: seq<Provider>, ends: seq<End>, last: End)
    requires Unsettled(ends)
    ensures Failures(ends + [last]) == Failures(ends) + if last.Returned? && last.outcome.kind.ExecutionFailure? then
        last.outcome.failures else []
    ensures Unsettled(ends + [last]) <==> FallsThrough(last)
    ensures SomeRejected(ends + [last]) <==> SomeRejected(ends) || RejectsSemantically(last)
    ensures !last.Returned? ==> Explained(providers, ends + [last], last)
    ensures Accepts(last) ==> Explained(providers, ends + [last], Returned(last.outcome.(failures := Failures(ends))))
  {
    var longer := ends + [last];
    assert longer[..|ends|] == ends && longer[|ends|] == last;
    if k :| 0 <= k < |ends| && RejectsSemantically(ends[k]) { assert longer[k] == ends[k]; }
  }

  // ----- what the outcome means -----

  /** A run ends accepted exactly when its last attempt was accepted, with a semantic failure exactly
      when every provider was tried, none settled the run and some was rejected semantically, and with
      an execution failure exactly when every provider was tried and every one failed to execute. */
  lemma OutcomeMeaning(providers: seq<Provider>, ends: seq<End>, end: End)
    requires |ends| <= |providers| && Explained(providers, ends, end)
    ensures Accepts(end) <==> ends != [] && Accepts(ends[|ends| - 1])
    ensures RejectsSemantically(end) <==>
      |ends| == |providers| && Unsettled(ends) && SomeRejected(ends)
    ensures FailsToExecute(end) <==>
      |ends| == |providers| && forall k :: 0 <= k < |ends| ==> FailsToExecute(ends[k])
    ensures end.Raised? <==> ends != [] && ends[|ends| - 1].Raised?
    ensures end.Returned? ==> end.outcome.failures == Failures(ends)
  {
    if ends != [] {
      var last := ends[|ends| - 1];
      if !FallsThrough(last) {
        assert !Unsettled(ends);
      }
    }
  }

  /** Attempt `k` let the run go on to another provider. */
  predicate Passed(turn: Turn)
  {
    IsRejected(turn.fetch, turn.judge) || Fails(turn.fetch)
  }

  ghost predicate AllPassed(turns: seq<Turn>)
  {
    forall k :: 0 <= k < |turns| ==> Passed(turns[k])
  }

  /** The reasons of the fetches that failed, in order. */
  function Reasons(order: seq<Provider>, turns: seq<Turn>): seq<Failure>
    requires |order| <= |turns|
  {
    if order == [] then []
    else
      var k := |order| - 1;
      Reasons(order[..k], turns) + if Fails(turns[k].fetch) then [Reason(order[k], turns[k].fetch)] else []
  }

  /** The last turn settles the run by a candidate, by a judge that failed or by a cancellation; every
      turn before it passed. */
  ghost predicate SettledByLast(turns: seq<Turn>, n: nat, end: End)
    requires n <= |turns|
  {
    && AllPassed(turns[..if n == 0 then 0 else n - 1])
    && (Accepts(end) <==> n > 0 && Succeeds(turns[n - 1].fetch, turns[n - 1].judge))
    && (Accepts(end) ==> end.outcome.candidate == Some(turns[n - 1].fetch.candidate))
    && (end.Raised? <==> n > 0 && JudgeStops(turns[n - 1].fetch, turns[n - 1].judge))
    && (end.Raised? ==> RaisedBy(turns[n - 1].judge, end.failure))
    && (end.WasCancelled? <==>
        (n > 0 && IsCancelled(turns[n - 1].fetch, turns[n - 1].judge)) || (n < |turns| && AllPassed(turns[..n])))
  }

  /** Otherwise every provider was tried: the run failed semantically when some candidate was rejected, and
      failed to execute when every fetch failed. */
  ghost predicate SettledByAll(turns: seq<Turn>, n: nat, end: End)
    requires n <= |turns|
  {
    && (RejectsSemantically(end) <==>
        n == |turns| && AllPassed(turns) && exists k :: 0 <= k < n && IsRejected(turns[k].fetch, turns[k].judge))
    && (FailsToExecute(end) <==> n == |turns| && forall k :: 0 <= k < n ==> Fails(turns[k].fetch))
    && (end.Returned? && !Accepts(end) ==> end.outcome.candidate == None)
  }

  /** How a run that attempted `order` ends, in terms of what each fetch and the judge did. */
  ghost predicate Settled(order: seq<Provider>, turns: seq<Turn>, end: End)
    requires |order| <= |turns|
  {
    && SettledByLast(turns, |order|, end) && SettledByAll(turns, |order|, end)
    && (end.Returned? ==> end.outcome.failures == Reasons(order, turns))
  }

  lemma {:induction false} FailuresAreReasons(order: seq<Provider>, turns: seq<Turn>)
    requires |order| <= |turns|
    ensures Failures(Attempts(order, turns)) == Reasons(order, turns)
  {
    if order == [] {
    } else {
      var k := |order| - 1;
      FailuresAreReasons(order[..k], turns);
      AttemptMeaning(order[k], turns[k].fetch, turns[k].judge);
      assert Attempts(order, turns)[..k] == Attempts(order[..k], turns);
    }
  }

  /** A run that is explained by its attempts is settled by what the fetches and the judge did. */
  lemma RunMeaning(providers: seq<Provider>, order: seq<Provider>, turns: seq<Turn>, end: End)
    requires |order| <= |providers| == |turns| && Explained(providers, Attempts(order, turns), end)
    ensures Settled(order, turns, end)
  {
    var ends := Attempts(order, turns);
    FailuresAreReasons(order, turns);
    OutcomeMeaning(providers, ends, end);
    forall k | 0 <= k < |order| ensures Explains(order[k], turns[k].fetch, turns[k].judge, ends[k]) {
      AttemptMeaning(order[k], turns[k].fetch, turns[k].judge);
    }
    LastSettles(providers, order, turns, ends, end);
    AllSettle(providers, order, turns, ends, end);
  }

  lemma LastSettles(providers: seq<Provider>, order: seq<Provider>, turns: seq<Turn>, ends: seq<End>, end: End)
    requires |ends| == |order| <= |providers| == |turns| && Explained(providers, ends, end)
    requires forall k :: 0 <= k < |order| ==> Explains(order[k], turns[k].fetch, turns[k].judge, ends[k])
    ensures SettledByLast(turns, |order|, end)
  {
    forall k | 0 <= k < |order| ensures FallsThrough(ends[k]) <==> Passed(turns[k]) {
      assert Explains(order[k], turns[k].fetch, turns[k].judge, ends[k]);
    }
    OutcomeMeaning(providers, ends, end);
  }

  lemma AllSettle(providers: seq<Provider>, order: seq<Provider>, turns: seq<Turn>, ends: seq<End>, end: End)
    requires |ends| == |order| <= |providers| == |turns| && Explained(providers, ends, end)
    requires forall k :: 0 <= k < |order| ==> Explains(order[k], turns[k].fetch, turns[k].judge, ends[k])
    ensures SettledByAll(turns, |order|, end)
  {
    forall k | 0 <= k < |order|
      ensures RejectsSemantically(ends[k]) <==> IsRejected(turns[k].fetch, turns[k].judge)
      ensures FallsThrough(ends[k]) <==> Passed(turns[k])
    {
      assert Explains(order[k], turns[k].fetch, turns[k].judge, ends[k]);
    }
    OutcomeMeaning(providers, ends, end);
  }

  /** What a caller may rely on whatever the environment did. */
  predicate PossibleEnd(end: End)
  {
    match end
    case Returned(FetchOutcome(kind, candidate, _)) =>
      && (candidate.Some? <==> kind.Accepted?)
      && (candidate.Some? ==>
            && candidate.value.rawContent != ""
            && (candidate.value.content == "" || Strip(candidate.value.content) != "")
            && CheapCheck(ValidationText(candidate.value)))
    case _ => true
  }

  /** An accepted outcome carries the candidate its last attempt fetched and the judge accepted: its raw
      content is not empty, and its content is empty or not blank. */
  lemma AcceptedCandidate(providers: seq<Provider>, order: seq<Provider>, turns: seq<Turn>, end: End)
    requires |order| <= |providers| == |turns| && Explained(providers, Attempts(order, turns), end)
    ensures PossibleEnd(end)
    ensures Accepts(end) ==>
      && order != []
      && turns[|order| - 1].fetch.Gives? && turns[|order| - 1].judge == Decides(true)
      && end.outcome.candidate == Some(turns[|order| - 1].fetch.candidate)
  {
    OutcomeMeaning(providers, Attempts(order, turns), end);
  }
}
