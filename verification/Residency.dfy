/**
 Where a call may go, said of the providers' own profiles (src/serving/domain/select-provider.ts).
 */
module Residency {
  import opened Outcomes
  import opened Texts
  import opened ExecutionLog
  import opened HashChain
  import opened Gateway

  /** This candidate processes and stores in the region, is healthy, and keeps nothing where nothing may be kept. */
  predicate Suits(p: ProviderProfile, region: Text, zeroRetention: bool) {
    p.processingRegion == region && p.storageRegion == region && p.healthy && (zeroRetention ==> p.zeroRetention)
  }

  /** The provider has such a profile among the candidates. */
  predicate Resident(candidates: seq<ProviderProfile>, region: Text, zeroRetention: bool, provider: Text) {
    exists i :: 0 <= i < |candidates| && candidates[i].id == provider && Suits(candidates[i], region, zeroRetention)
  }

  predicate ResidentFor(serve: ServeRequest, provider: Text) {
    Resident(serve.candidates, serve.tenantRegion, serve.requiresZeroRetention, provider)
  }

  lemma EligibleMeansResident(serve: ServeRequest, provider: Text)
    ensures HasEligible(serve, provider) <==> ResidentFor(serve, provider)
  {
    if HasEligible(serve, provider) {
      var p :| p in serve.candidates && p.id == provider && IsEligible(p, serve);
      var i :| 0 <= i < |serve.candidates| && serve.candidates[i] == p;
      assert Suits(serve.candidates[i], serve.tenantRegion, serve.requiresZeroRetention);
    }
    if ResidentFor(serve, provider) {
      var i :| 0 <= i < |serve.candidates| && serve.candidates[i].id == provider
               && Suits(serve.candidates[i], serve.tenantRegion, serve.requiresZeroRetention);
      assert serve.candidates[i] in serve.candidates && IsEligible(serve.candidates[i], serve);
    }
  }

  // ---- The choice ----------------------------------------------------------------------------------------------

  lemma {:induction false} FirstKept(xs: seq<ProviderProfile>, keep: ProviderProfile -> bool)
    ensures |Filter(xs, keep)| > 0 ==>
              exists i :: 0 <= i < |xs| && Filter(xs, keep)[0] == xs[i] && keep(xs[i])
                          && forall j | 0 <= j < i :: !keep(xs[j])
  {
    if |xs| > 0 && !keep(xs[0]) {
      FirstKept(xs[1..], keep);
      if |Filter(xs, keep)| > 0 {
        var i :| 0 <= i < |xs[1..]| && Filter(xs[1..], keep)[0] == xs[1..][i] && keep(xs[1..][i])
                 && forall j | 0 <= j < i :: !keep(xs[1..][j]);
        assert xs[i + 1] == xs[1..][i];
        assert forall j | 0 < j < i + 1 :: xs[j] == xs[1..][j - 1];
      }
    }
  }

  lemma {:induction false} FilterTwice(xs: seq<ProviderProfile>, a: ProviderProfile -> bool, b: ProviderProfile -> bool)
    ensures Filter(Filter(xs, a), b) == Filter(xs, p => a(p) && b(p))
  {
    if |xs| > 0 {
      FilterTwice(xs[1..], a, b);
      if a(xs[0]) { assert Filter(xs, a)[1..] == Filter(xs[1..], a); }
    }
  }

  /** The i-th candidate suits and was not tried, and none before it is so. */
  predicate FirstChoice(serve: ServeRequest, attempted: seq<Text>, i: nat) {
    && i < |serve.candidates|
    && Suits(serve.candidates[i], serve.tenantRegion, serve.requiresZeroRetention)
       && serve.candidates[i].id !in attempted
    && forall j | 0 <= j < i ::
         !Suits(serve.candidates[j], serve.tenantRegion, serve.requiresZeroRetention)
             || serve.candidates[j].id in attempted
  }

  /** The route is the first candidate that suits and was not tried. */
  lemma FirstSuitableIsChosen(serve: ServeRequest, attempted: seq<Text>)
    ensures var d := SelectProvider(serve, attempted);
            d.Route? ==> exists i: nat :: FirstChoice(serve, attempted, i) && d.provider == serve.candidates[i].id
  {
    var eligible := (p: ProviderProfile) => IsEligible(p, serve);
    var untried := (p: ProviderProfile) => p.id !in attempted;
    var both := (p: ProviderProfile) => eligible(p) && untried(p);
    FilterTwice(serve.candidates, eligible, untried);
    FirstKept(serve.candidates, both);
    if SelectProvider(serve, attempted).Route? {
      var i :| 0 <= i < |serve.candidates| && Filter(serve.candidates, both)[0] == serve.candidates[i]
               && both(serve.candidates[i]) && forall j | 0 <= j < i :: !both(serve.candidates[j]);
      assert FirstChoice(serve, attempted, i);
    }
  }

  // ---- A whole delivery ----------------------------------------------------------------------------------------

  /** Every provider called, and every one an invocation names, is resident. */
  predicate StaysInRegion(serve: ServeRequest, trace: seq<Effect>) {
    forall i | 0 <= i < |trace| ::
      && (trace[i].Called? ==> ResidentFor(serve, trace[i].provider))
      && (trace[i].Wrote? && trace[i].event.ModelInvoked? ==> ResidentFor(serve, trace[i].event.routerDecision))
  }

  lemma RoutedStaysInRegion(serve: ServeRequest, trace: seq<Effect>)
    requires Routed(serve, trace)
    ensures StaysInRegion(serve, trace)
  {
    forall i | 0 <= i < |trace|
      ensures trace[i].Called? ==> ResidentFor(serve, trace[i].provider)
      ensures trace[i].Wrote? && trace[i].event.ModelInvoked? ==> ResidentFor(serve, trace[i].event.routerDecision)
    {
      assert Announced(trace, i) && NamesEligible(serve, trace[i]);
      if trace[i].Called? {
        assert NamesEligible(serve, trace[i - 1]);
        EligibleMeansResident(serve, trace[i].provider);
      }
      if trace[i].Wrote? && trace[i].event.ModelInvoked? {
        EligibleMeansResident(serve, trace[i].event.routerDecision);
      }
    }
  }

  /** No delivery leaves the tenant's region: neither a call nor an entry names a provider that does not suit. */
  lemma DeliveryStaysInRegion(serve: ServeRequest, log: Log, d: Delivery)
    ensures StaysInRegion(serve, Serve(serve, log, d).1)
  {
    DeliveryStaysRouted(serve, log, d);
    RoutedStaysInRegion(serve, Serve(serve, log, d).1);
  }

  predicate NoneSuits(serve: ServeRequest) {
    forall i | 0 <= i < |serve.candidates| ::
      !Suits(serve.candidates[i], serve.tenantRegion, serve.requiresZeroRetention)
  }

  lemma NoneEligibleMeansNoneSuits(serve: ServeRequest)
    ensures (forall provider :: !HasEligible(serve, provider)) <==> NoneSuits(serve)
  {
    forall provider ensures HasEligible(serve, provider) <==> ResidentFor(serve, provider) {
      EligibleMeansResident(serve, provider);
    }
    forall i | 0 <= i < |serve.candidates|
      ensures Suits(serve.candidates[i], serve.tenantRegion, serve.requiresZeroRetention) ==>
                ResidentFor(serve, serve.candidates[i].id) {
    }
  }

  lemma {:induction false} RefusedOnlyWithoutAny(serve: ServeRequest, s: Attempts, attempt: nat,
                                                 completions: nat -> Completion)
    requires attempt > 0 && !NoneSuits(serve)
    ensures AttemptsFrom(serve, s, attempt, completions).0 != AttemptHalted(Refusal(NoEligibleInRegionProvider))
    decreases MAX_ATTEMPTS + 1 - attempt
  {
    if attempt <= MAX_ATTEMPTS {
      SelectionStaysInRegion(serve, s.attempted);
      NoneEligibleMeansNoneSuits(serve);
      var (outcome, next) := Attempt(serve, s, attempt, completions(attempt));
      if outcome.Retryable? { RefusedOnlyWithoutAny(serve, next, attempt + 1, completions); }
    }
  }

  /** A delivery is refused for want of a provider exactly when it was made, opened, and no candidate suits. */
  lemma RefusedExactlyWhenNoneSuits(serve: ServeRequest, log: Log, d: Delivery)
    ensures Serve(serve, log, d).0 == Rejected(Refusal(NoEligibleInRegionProvider), Serve(serve, log, d).0.log) <==>
            d.claim.Claimed? && OpenRun(serve, log, d.openSeal).Ok? && NoneSuits(serve)
  {
    NoneEligibleMeansNoneSuits(serve);
    if NoneSuits(serve) {
      NoEligibleNoCall(serve, log, d);
    } else if d.claim.Claimed? && OpenRun(serve, log, d.openSeal).Ok? {
      RefusedOnlyWithoutAny(serve, Opening(serve, log, OpenRun(serve, log, d.openSeal).value), 1, d.completions);
    }
  }
}
