/**
 One delivery through the gateway: claim, open, route, fail over, settle (src/serving/application/serve-completion.ts,
 src/serving/domain/select-provider.ts, src/serving/domain/retry-policy.ts).

 Everything outside the process answers as a `Delivery` says: the claim ledger, the key store and the providers.
 */
module Gateway {
  import opened Outcomes
  import opened Texts
  import opened ExecutionLog
  import opened HashChain

  datatype ProviderProfile = ProviderProfile(id: Text, processingRegion: Text, storageRegion: Text,
                                             zeroRetention: bool, healthy: bool)

  datatype RefusalReason = NoEligibleInRegionProvider | AllEligibleExhausted

  datatype RoutingDecision = Route(provider: Text, rationale: Text) | Refuse(reason: RefusalReason)

  datatype ProviderFailure = RateLimited(retryAfterMs: int) | Timeout | Unavailable | ProviderRefused

  datatype Reply = Reply(text: Text, inputTokens: int, outputTokens: int)

  datatype Completion = Completed(reply: Reply) | CallFailed(failure: ProviderFailure)

  datatype ServeRequest = ServeRequest(
    runId: Text, principal: Principal, tenant: Text, tenantRegion: Text, legalBasisPolicy: Text,
        requiresZeroRetention: bool,
    model: Text, promptVersion: Text, candidates: seq<ProviderProfile>, adapters: seq<Text>, at: int, jitter: real,
    cost: (int, int) -> int, rationale: (nat, nat) -> Text, hash: EntryHasher)

  datatype ClaimAnswer = Claimed | ClaimStoreFailed | AlreadyClaimed(hasOutcome: bool)

  /** What the world answers to one delivery; the completion answered to attempt n is `completions(n)`. */
  datatype Delivery = Delivery(claim: ClaimAnswer, openSeal: Option<Sealed>, completions: nat -> Completion,
                               closeSeal: Option<Sealed>)

  datatype FailureReason = ClaimFailed | SealFailed | LogRefused | NoAdapter | NotTransient | AttemptsExhausted

  datatype ServeRejection =
    | Refusal(reason: RefusalReason)
    | AlreadyServed
    | InFlight
    | ProviderFailed(why: FailureReason)

  datatype ServeResult =
    | Served(reply: Reply, log: Log)
    | Rejected(rejection: ServeRejection, log: Log)

  /** What a delivery does to the world, in order. */
  datatype Effect = Wrote(event: Event) | Called(provider: Text) | ClaimCompleted(succeeded: bool)

  // ---- Routing -----------------------------------------------------------------------------------------------

  predicate IsEligible(provider: ProviderProfile, serve: ServeRequest) {
    && provider.processingRegion == serve.tenantRegion
    && provider.storageRegion == serve.tenantRegion
    && (serve.requiresZeroRetention ==> provider.zeroRetention)
    && provider.healthy
  }

  function Filter(xs: seq<ProviderProfile>, keep: ProviderProfile -> bool): seq<ProviderProfile> {
    if |xs| == 0 then []
    else if keep(xs[0]) then [xs[0]] + Filter(xs[1..], keep)
    else Filter(xs[1..], keep)
  }

  lemma {:induction false} FilterMembers(xs: seq<ProviderProfile>, keep: ProviderProfile -> bool)
    ensures forall x :: x in Filter(xs, keep) <==> x in xs && keep(x)
  {
    if |xs| > 0 {
      FilterMembers(xs[1..], keep);
      assert xs == [xs[0]] + xs[1..];
    }
  }

  function SelectProvider(serve: ServeRequest, attempted: seq<Text>): RoutingDecision {
    var eligible := Filter(serve.candidates, (p: ProviderProfile) => IsEligible(p, serve));
    if |eligible| == 0 then Refuse(NoEligibleInRegionProvider)
    else
      var remaining := Filter(eligible, (p: ProviderProfile) => p.id !in attempted);
      if |remaining| == 0 then Refuse(AllEligibleExhausted)
      else Route(remaining[0].id, serve.rationale(|attempted| + 1, |eligible|))
  }

  ghost predicate HasEligible(serve: ServeRequest, provider: Text) {
    exists p :: p in serve.candidates && p.id == provider && IsEligible(p, serve)
  }

  /** Residency is a constraint: the route is eligible and untried, and a refusal means there is none such. */
  lemma SelectionStaysInRegion(serve: ServeRequest, attempted: seq<Text>)
    ensures var d := SelectProvider(serve, attempted);
            && (d.Route? ==> HasEligible(serve, d.provider) && d.provider !in attempted)
            && (d.Refuse? <==> forall provider | HasEligible(serve, provider) :: provider in attempted)
            && (d == Refuse(NoEligibleInRegionProvider) <==> forall provider :: !HasEligible(serve, provider))
  {
    var eligible := Filter(serve.candidates, (p: ProviderProfile) => IsEligible(p, serve));
    var remaining := Filter(eligible, (p: ProviderProfile) => p.id !in attempted);
    FilterMembers(serve.candidates, (p: ProviderProfile) => IsEligible(p, serve));
    FilterMembers(eligible, (p: ProviderProfile) => p.id !in attempted);
    if |eligible| > 0 {
      assert eligible[0] in eligible && HasEligible(serve, eligible[0].id);
      if |remaining| > 0 {
        assert remaining[0] in remaining && remaining[0] in eligible;
        assert HasEligible(serve, remaining[0].id);
      }
    }
    forall provider | HasEligible(serve, provider) && provider !in attempted ensures |remaining| > 0 {
      var p :| p in serve.candidates && p.id == provider && IsEligible(p, serve);
      assert p in eligible;
    }
    forall provider | HasEligible(serve, provider) ensures |eligible| > 0 {
      var p :| p in serve.candidates && p.id == provider && IsEligible(p, serve);
      assert p in eligible;
    }
  }

  // ---- Retrying ----------------------------------------------------------------------------------------------

  const MAX_ATTEMPTS := 4
  const BASE_DELAY_MS := 250
  const MAX_DELAY_MS := 30_000

  datatype RetryDecision = Retry(afterMs: int, attempt: nat) | GiveUp(why: FailureReason)

  predicate IsTransient(failure: ProviderFailure) {
    !failure.ProviderRefused?
  }

  function PowerOfTwo(n: nat): nat {
    if n == 0 then 1 else 2 * PowerOfTwo(n - 1)
  }

  /** Why there is no next attempt, if there is none. */
  function GiveUpReason(failure: ProviderFailure, attempt: nat): Option<FailureReason> {
    if !IsTransient(failure)
    then Some(NotTransient)
    else if attempt >= MAX_ATTEMPTS then Some(AttemptsExhausted) else None
  }

  function NextRetry(failure: ProviderFailure, attempt: nat, jitter: real): RetryDecision
    requires attempt > 0
  {
    if GiveUpReason(failure, attempt).Some? then GiveUp(GiveUpReason(failure, attempt).value)
    else if failure.RateLimited? then Retry(failure.retryAfterMs, attempt + 1)
    else
      var doubled := BASE_DELAY_MS * PowerOfTwo(attempt - 1);
      var exponential := if doubled < MAX_DELAY_MS then doubled else MAX_DELAY_MS;
      Retry((exponential as real * (1.0 + jitter) + 0.5).Floor, attempt + 1)
  }

  /**
   A retry is transient, moves to the next attempt and stays within the last; it waits as long as the provider asked
   for, or a quarter of a second doubled with each attempt, which jitter at most doubles. Giving up is for the reason
   given.
   */
  lemma RetryMovesOn(failure: ProviderFailure, attempt: nat, jitter: real)
    requires attempt > 0 && 0.0 <= jitter < 1.0
    ensures var r := NextRetry(failure, attempt, jitter);
            && (r.Retry? <==> IsTransient(failure) && attempt < MAX_ATTEMPTS)
            && (r.Retry? ==> r.attempt == attempt + 1 <= MAX_ATTEMPTS)
            && (r.GiveUp? ==> r.why == if failure == ProviderRefused then NotTransient else AttemptsExhausted)
            && (r.Retry? && failure.RateLimited? ==> r.afterMs == failure.retryAfterMs)
            && (r.Retry? && !failure.RateLimited? ==>
                  var planned := (250 * PowerOfTwo(attempt - 1)) as real * (1.0 + jitter);
                  planned - 0.5 <= r.afterMs as real <= planned + 0.5)
            && (r.Retry? && !failure.RateLimited? ==>
                  BASE_DELAY_MS * PowerOfTwo(attempt - 1) <= r.afterMs <= 2 * BASE_DELAY_MS * PowerOfTwo(attempt - 1))
  {
    if attempt < MAX_ATTEMPTS {
      assert PowerOfTwo(0) == 1 && PowerOfTwo(1) == 2 && PowerOfTwo(2) == 4;
    }
  }

  // ---- The attempts of one delivery --------------------------------------------------------------------------

  /** The mutable state of the attempts, and the effects so far. */
  datatype Attempts = Attempts(log: Log, attempted: seq<Text>, trace: seq<Effect>)

  datatype AttemptOutcome =
    | AttemptServed(reply: Reply, invocationSeq: nat)
    | Retryable
    | AttemptHalted(rejection: ServeRejection)

  function InvocationOf(serve: ServeRequest, decision: RoutingDecision): Event
    requires decision.Route?
  {
    ModelInvoked(serve.model, serve.promptVersion, decision.provider, decision.rationale)
  }

  function Attempt(serve: ServeRequest, s: Attempts, attempt: nat, answer: Completion): (AttemptOutcome, Attempts)
    requires attempt > 0
  {
    var decision := SelectProvider(serve, s.attempted);
    if decision.Refuse? then (AttemptHalted(Refusal(decision.reason)), s)
    else
      var event := InvocationOf(serve, decision);
      var appended := AppendEntry(s.log, event, serve.runId, serve.at, serve.hash);
      if appended.Err? then (AttemptHalted(ProviderFailed(LogRefused)), s)
      else
        var written := s.(log := appended.value, trace := s.trace + [Wrote(event)]);
        if decision.provider !in serve.adapters then (AttemptHalted(ProviderFailed(NoAdapter)), written)
        else
          var called := written.(attempted := s.attempted + [decision.provider],
                                 trace := written.trace + [Called(decision.provider)]);
          if answer.Completed? then (AttemptServed(answer.reply, |appended.value| - 1), called)
          else
            var given := GiveUpReason(answer.failure, attempt);
            (if given.Some? then AttemptHalted(ProviderFailed(given.value)) else Retryable, called)
  }

  /** Attempts until one is not retryable, or none is left. */
  function AttemptsFrom(serve: ServeRequest, s: Attempts, attempt: nat,
                        completions: nat -> Completion): (AttemptOutcome, Attempts)
    requires attempt > 0
    decreases MAX_ATTEMPTS + 1 - attempt
  {
    if attempt > MAX_ATTEMPTS then (Retryable, s)
    else
      var (outcome, next) := Attempt(serve, s, attempt, completions(attempt));
      if outcome.Retryable? then AttemptsFrom(serve, next, attempt + 1, completions) else (outcome, next)
  }

  predicate HasStarted(log: Log) {
    exists i :: 0 <= i < |log| && log[i].event.RunStarted?
  }

  function OpenRun(serve: ServeRequest, log: Log, openSeal: Option<Sealed>): Result<Log, ServeRejection> {
    if HasStarted(log) then Ok(log)
    else if openSeal.None? then Err(ProviderFailed(SealFailed))
    else
      var started := AppendEntry(log,
                                 RunStarted(serve.principal, serve.tenant, serve.tenantRegion, serve.legalBasisPolicy,
                                            openSeal.value),
                                 serve.runId, serve.at, serve.hash);
      if started.Err? then Err(ProviderFailed(LogRefused)) else Ok(started.value)
  }

  function UsageOf(serve: ServeRequest, reply: Reply, invocationSeq: nat): Event {
    UsageRecorded(invocationSeq, reply.inputTokens, reply.outputTokens,
                  serve.cost(reply.inputTokens, reply.outputTokens))
  }

  function CloseRun(serve: ServeRequest, s: Attempts, reply: Reply, invocationSeq: nat,
                    closeSeal: Option<Sealed>): (ServeResult, seq<Effect>)
  {
    if closeSeal.None? then (Rejected(ProviderFailed(SealFailed), s.log), s.trace)
    else
      var usage := UsageOf(serve, reply, invocationSeq);
      var recorded := AppendEntry(s.log, usage, serve.runId, serve.at, serve.hash);
      if recorded.Err? then (Rejected(ProviderFailed(LogRefused), s.log), s.trace)
      else (Served(reply, recorded.value), s.trace + [Wrote(usage)] + [ClaimCompleted(true)])
  }

  function FailRun(s: Attempts, rejection: ServeRejection, closeSeal: Option<Sealed>): (ServeResult, seq<Effect>) {
    (Rejected(rejection, s.log), if closeSeal.Some? then s.trace + [ClaimCompleted(false)] else s.trace)
  }

  /** The attempts of a delivery that opened, before the first. */
  function Opening(serve: ServeRequest, log: Log, start: Log): Attempts {
    Attempts(start, [], if HasStarted(log) || |start| == 0 then [] else [Wrote(start[|start| - 1].event)])
  }

  /** What the attempts come to. */
  function Conclude(serve: ServeRequest, ended: (AttemptOutcome, Attempts), closeSeal: Option<Sealed>): (ServeResult,
      seq<Effect>) {
    match ended.0
    case AttemptServed(reply, invocationSeq) => CloseRun(serve, ended.1, reply, invocationSeq, closeSeal)
    case AttemptHalted(rejection) => FailRun(ended.1, rejection, closeSeal)
    case Retryable => FailRun(ended.1, ProviderFailed(AttemptsExhausted), closeSeal)
  }

  /** What the whole delivery returns and does. */
  function Serve(serve: ServeRequest, log: Log, d: Delivery): (ServeResult, seq<Effect>) {
    if d.claim.ClaimStoreFailed? then (Rejected(ProviderFailed(ClaimFailed), log), [])
    else if d.claim.AlreadyClaimed? then (Rejected(if d.claim.hasOutcome then AlreadyServed else InFlight, log), [])
    else
      var start := OpenRun(serve, log, d.openSeal);
      if start.Err? then (Rejected(start.error, log), [])
      else
        Conclude(serve, AttemptsFrom(serve, Opening(serve, log, start.value), 1, d.completions), d.closeSeal)
  }

  // ---- The gateway as the program runs it ----------------------------------------------------------------------

  class AttemptState {
    var log: Log
    var attempted: seq<Text>
    ghost var trace: seq<Effect>

    constructor (log: Log, ghost trace: seq<Effect>)
      ensures View() == Attempts(log, [], trace)
    {
      this.log, attempted, this.trace := log, [], trace;
    }

    ghost function View(): Attempts
      reads this
    {
      Attempts(log, attempted, trace)
    }
  }

  method AttemptOnce(serve: ServeRequest, state: AttemptState, attempt: nat, answer: Completion)
      returns (outcome: AttemptOutcome)
    requires attempt > 0
    modifies state
    ensures (outcome, state.View()) == Attempt(serve, old(state.View()), attempt, answer)
  {
    var decision := SelectProvider(serve, state.attempted);
    if decision.Refuse? {
      return AttemptHalted(Refusal(decision.reason));
    }
    var event := ModelInvoked(serve.model, serve.promptVersion, decision.provider, decision.rationale);
    var appended := AppendEntry(state.log, event, serve.runId, serve.at, serve.hash);
    if appended.Err? {
      return AttemptHalted(ProviderFailed(LogRefused));
    }
    state.log := appended.value;
    state.trace := state.trace + [Wrote(event)];
    var invocationSeq := |appended.value| - 1;
    if decision.provider !in serve.adapters {
      return AttemptHalted(ProviderFailed(NoAdapter));
    }
    state.attempted := state.attempted + [decision.provider];
    state.trace := state.trace + [Called(decision.provider)];
    if answer.Completed? {
      return AttemptServed(answer.reply, invocationSeq);
    }
    var retry := NextRetry(answer.failure, attempt, serve.jitter);
    return if retry.GiveUp? then AttemptHalted(ProviderFailed(retry.why)) else Retryable;
  }

  method FailDelivery(state: AttemptState, rejection: ServeRejection, closeSeal: Option<Sealed>)
      returns (r: ServeResult, ghost trace: seq<Effect>)
    ensures r == FailRun(state.View(), rejection, closeSeal).0
    ensures trace == FailRun(state.View(), rejection, closeSeal).1
  {
    trace := if closeSeal.Some? then state.trace + [ClaimCompleted(false)] else state.trace;
    return Rejected(rejection, state.log), trace;
  }

  method CloseDelivery(serve: ServeRequest, state: AttemptState, reply: Reply, invocationSeq: nat,
                       closeSeal: Option<Sealed>)
    returns (r: ServeResult, ghost trace: seq<Effect>)
    ensures r == CloseRun(serve, state.View(), reply, invocationSeq, closeSeal).0
    ensures trace == CloseRun(serve, state.View(), reply, invocationSeq, closeSeal).1
  {
    trace := state.trace;
    if closeSeal.None? {
      return Rejected(ProviderFailed(SealFailed), state.log), trace;
    }
    var usage := UsageRecorded(invocationSeq, reply.inputTokens, reply.outputTokens,
                               serve.cost(reply.inputTokens, reply.outputTokens));
    var recorded := AppendEntry(state.log, usage, serve.runId, serve.at, serve.hash);
    if recorded.Err? {
      return Rejected(ProviderFailed(LogRefused), state.log), trace;
    }
    return Served(reply, recorded.value), trace + [Wrote(usage)] + [ClaimCompleted(true)];
  }

  lemma FirstAttempt(serve: ServeRequest, s: Attempts, attempt: nat, completions: nat -> Completion)
    requires 0 < attempt <= MAX_ATTEMPTS
    ensures var first := Attempt(serve, s, attempt, completions(attempt));
            AttemptsFrom(serve, s, attempt, completions) ==
            if first.0.Retryable? then AttemptsFrom(serve, first.1, attempt + 1, completions) else first
  {
  }

  lemma NoAttemptLeft(serve: ServeRequest, s: Attempts, completions: nat -> Completion)
    ensures AttemptsFrom(serve, s, MAX_ATTEMPTS + 1, completions).0.Retryable?
  {
  }

  /** From here the attempts end this way. */
  ghost predicate EndsAs(serve: ServeRequest, s: Attempts, attempt: nat, completions: nat -> Completion,
                         ended: (AttemptOutcome, Attempts)) {
    attempt > 0 && AttemptsFrom(serve, s, attempt, completions) == ended && !ended.0.Retryable?
  }

  lemma EndsAsNext(serve: ServeRequest, s: Attempts, attempt: nat, completions: nat -> Completion,
                   ended: (AttemptOutcome, Attempts),
                   first: (AttemptOutcome, Attempts))
    requires attempt <= MAX_ATTEMPTS && EndsAs(serve, s, attempt, completions, ended)
    requires first == Attempt(serve, s, attempt, completions(attempt))
    ensures if first.0.Retryable? then EndsAs(serve, first.1, attempt + 1, completions, ended) else ended == first
  {
    FirstAttempt(serve, s, attempt, completions);
  }

  lemma NothingEndsLater(serve: ServeRequest, s: Attempts, completions: nat -> Completion,
                         ended: (AttemptOutcome, Attempts))
    ensures !EndsAs(serve, s, MAX_ATTEMPTS + 1, completions, ended)
  {
    NoAttemptLeft(serve, s, completions);
  }

  /** The attempts, one after another until one is not retryable; the code after the loop is never reached. */
  method RunAttempts(serve: ServeRequest, state: AttemptState, completions: nat -> Completion)
      returns (outcome: AttemptOutcome)
    modifies state
    ensures EndsAs(serve, old(state.View()), 1, completions, (outcome, state.View()))
  {
    ghost var ended := AttemptsFrom(serve, state.View(), 1, completions);
    LoopAlwaysAnswers(serve, state.View(), 1, completions);
    var attempt := 1;
    while attempt <= MAX_ATTEMPTS
      invariant 1 <= attempt <= MAX_ATTEMPTS + 1
      invariant EndsAs(serve, state.View(), attempt, completions, ended)
    {
      ghost var before := state.View();
      outcome := AttemptOnce(serve, state, attempt, completions(attempt));
      EndsAsNext(serve, before, attempt, completions, ended, (outcome, state.View()));
      if !outcome.Retryable? {
        return;
      }
      attempt := attempt + 1;
    }
    NothingEndsLater(serve, state.View(), completions, ended);
    assert false;
  }

  /** Returns what `Serve` says. */
  method ServeCompletion(serve: ServeRequest, log: Log, d: Delivery) returns (r: ServeResult, ghost trace: seq<Effect>)
    ensures r == Serve(serve, log, d).0
    ensures trace == Serve(serve, log, d).1
  {
    if d.claim.ClaimStoreFailed? {
      return Rejected(ProviderFailed(ClaimFailed), log), [];
    }
    if d.claim.AlreadyClaimed? {
      return Rejected(if d.claim.hasOutcome then AlreadyServed else InFlight, log), [];
    }
    var start := OpenRun(serve, log, d.openSeal);
    if start.Err? {
      return Rejected(start.error, log), [];
    }
    var state := new AttemptState(start.value, Opening(serve, log, start.value).trace);
    var outcome := RunAttempts(serve, state, d.completions);
    if outcome.AttemptHalted? {
      r, trace := FailDelivery(state, outcome.rejection, d.closeSeal);
    } else {
      r, trace := CloseDelivery(serve, state, outcome.reply, outcome.invocationSeq, d.closeSeal);
    }
  }

  // ---- What every delivery keeps -------------------------------------------------------------------------------

  /** The fourth attempt is never retryable, so the attempts always end in an answer. */
  lemma {:induction false} LoopAlwaysAnswers(serve: ServeRequest, s: Attempts, attempt: nat,
                                             completions: nat -> Completion)
    requires 0 < attempt <= MAX_ATTEMPTS
    ensures !AttemptsFrom(serve, s, attempt, completions).0.Retryable?
    decreases MAX_ATTEMPTS - attempt
  {
    var (outcome, next) := Attempt(serve, s, attempt, completions(attempt));
    if outcome.Retryable? { LoopAlwaysAnswers(serve, next, attempt + 1, completions); }
  }

  function Calls(trace: seq<Effect>): seq<Text> {
    if |trace| == 0 then []
    else
      var rest := Calls(trace[..|trace| - 1]);
      if trace[|trace| - 1].Called? then rest + [trace[|trace| - 1].provider] else rest
  }

  predicate NoRepeats(xs: seq<Text>) {
    forall i, j | 0 <= i < j < |xs| :: xs[i] != xs[j]
  }

  predicate InvokesFor(effect: Effect, provider: Text) {
    effect.Wrote? && effect.event.ModelInvoked? && effect.event.routerDecision == provider
  }

  /** A call comes just after the entry that announces it. */
  predicate Announced(trace: seq<Effect>, i: nat) {
    i < |trace| && (trace[i].Called? ==> i > 0 && InvokesFor(trace[i - 1], trace[i].provider))
  }

  ghost predicate NamesEligible(serve: ServeRequest, effect: Effect) {
    effect.Wrote? && effect.event.ModelInvoked? ==> HasEligible(serve, effect.event.routerDecision)
  }

  /** Every call is announced by the entry just before it, and every announced provider is eligible. */
  ghost predicate Routed(serve: ServeRequest, trace: seq<Effect>) {
    && (forall i | 0 <= i < |trace| :: Announced(trace, i))
    && (forall i | 0 <= i < |trace| :: NamesEligible(serve, trace[i]))
  }

  /** Call number k (from one) was answered by a transient failure. */
  predicate FailedTransiently(completions: nat -> Completion, k: nat) {
    completions(k).CallFailed? && IsTransient(completions(k).failure)
  }

  /** Before attempt n, n - 1 different eligible providers were called, and each failed transiently. */
  ghost predicate Attempting(serve: ServeRequest, s: Attempts, attempt: nat, completions: nat -> Completion) {
    && attempt > 0 && |s.attempted| == attempt - 1
    && Routed(serve, s.trace) && Calls(s.trace) == s.attempted && NoRepeats(s.attempted)
    && (forall k | 0 < k < attempt :: FailedTransiently(completions, k))
  }

  lemma CallsSnoc(trace: seq<Effect>, effect: Effect)
    ensures Calls(trace + [effect]) == if effect.Called? then Calls(trace) + [effect.provider] else Calls(trace)
  {
    assert (trace + [effect])[..|trace|] == trace;
  }

  lemma AnnouncedSnoc(trace: seq<Effect>, effect: Effect, i: nat)
    requires i <= |trace|
    requires if i < |trace| then Announced(trace, i)
             else effect.Called? ==> |trace| > 0 && InvokesFor(trace[|trace| - 1], effect.provider)
    ensures Announced(trace + [effect], i)
  {
  }

  lemma RoutedSnoc(serve: ServeRequest, trace: seq<Effect>, effect: Effect)
    requires Routed(serve, trace)
    requires effect.Called? ==> |trace| > 0 && InvokesFor(trace[|trace| - 1], effect.provider)
    requires effect.Wrote? && effect.event.ModelInvoked? ==> HasEligible(serve, effect.event.routerDecision)
    ensures Routed(serve, trace + [effect])
    ensures Calls(trace + [effect]) == if effect.Called? then Calls(trace) + [effect.provider] else Calls(trace)
  {
    CallsSnoc(trace, effect);
    var longer := trace + [effect];
    forall i | 0 <= i < |longer| ensures Announced(longer, i) && NamesEligible(serve, longer[i]) {
      AnnouncedSnoc(trace, effect, i);
    }
  }

  lemma NoRepeatsSnoc(xs: seq<Text>, x: Text)
    requires NoRepeats(xs) && x !in xs
    ensures NoRepeats(xs + [x])
  {
  }

  lemma AttemptKeepsRouted(serve: ServeRequest, s: Attempts, attempt: nat, completions: nat -> Completion)
    requires Attempting(serve, s, attempt, completions)
    ensures var (outcome, next) := Attempt(serve, s, attempt, completions(attempt));
            && Routed(serve, next.trace) && Calls(next.trace) == next.attempted && NoRepeats(next.attempted)
            && |next.attempted| <= attempt
            && (outcome.Retryable? ==> |next.attempted| == attempt && FailedTransiently(completions, attempt))
            && (outcome.AttemptHalted? && outcome.rejection.Refusal? ==>
                  next == s && SelectProvider(serve, s.attempted) == Refuse(outcome.rejection.reason))
  {
    SelectionStaysInRegion(serve, s.attempted);
    var decision := SelectProvider(serve, s.attempted);
    if decision.Route? {
      var wrote := Wrote(InvocationOf(serve, decision));
      RoutedSnoc(serve, s.trace, wrote);
      RoutedSnoc(serve, s.trace + [wrote], Called(decision.provider));
      NoRepeatsSnoc(s.attempted, decision.provider);
    }
  }

  ghost predicate Exhausted(serve: ServeRequest, calls: seq<Text>, completions: nat -> Completion) {
    forall provider | HasEligible(serve, provider) ::
      exists k :: 0 <= k < |calls| && calls[k] == provider && FailedTransiently(completions, k + 1)
  }

  lemma NothingUntriedMeansExhausted(serve: ServeRequest, s: Attempts, attempt: nat, completions: nat -> Completion)
    requires Attempting(serve, s, attempt, completions)
             && SelectProvider(serve, s.attempted) == Refuse(AllEligibleExhausted)
    ensures Exhausted(serve, s.attempted, completions)
  {
    SelectionStaysInRegion(serve, s.attempted);
    forall provider | HasEligible(serve, provider)
      ensures exists k :: 0 <= k < |s.attempted| && s.attempted[k] == provider && FailedTransiently(completions, k + 1)
    {
      var k :| 0 <= k < |s.attempted| && s.attempted[k] == provider;
      assert FailedTransiently(completions, k + 1);
    }
  }

  /** How the attempts ended: routed, no provider twice, and out of providers only when each was tried in vain. */
  ghost predicate EndedRouted(serve: ServeRequest, ended: (AttemptOutcome, Attempts), completions: nat -> Completion) {
    && Routed(serve, ended.1.trace) && Calls(ended.1.trace) == ended.1.attempted && NoRepeats(ended.1.attempted)
    && |ended.1.attempted| <= MAX_ATTEMPTS
    && (ended.0 == AttemptHalted(Refusal(AllEligibleExhausted)) ==> Exhausted(serve, ended.1.attempted, completions))
  }

  /** One attempt either leads to the next or ends them. */
  lemma AttemptEndsRouted(serve: ServeRequest, s: Attempts, attempt: nat, completions: nat -> Completion)
    requires Attempting(serve, s, attempt, completions) && attempt <= MAX_ATTEMPTS
    ensures var first := Attempt(serve, s, attempt, completions(attempt));
            if first.0.Retryable?
            then Attempting(serve, first.1, attempt + 1, completions)
            else EndedRouted(serve, first, completions)
  {
    AttemptKeepsRouted(serve, s, attempt, completions);
    var (outcome, next) := Attempt(serve, s, attempt, completions(attempt));
    if outcome == AttemptHalted(Refusal(AllEligibleExhausted)) {
      NothingUntriedMeansExhausted(serve, s, attempt, completions);
    }
  }

  lemma {:induction false} AttemptsKeepRouted(serve: ServeRequest, s: Attempts, attempt: nat,
                                              completions: nat -> Completion)
    requires Attempting(serve, s, attempt, completions) && attempt <= MAX_ATTEMPTS + 1
    ensures EndedRouted(serve, AttemptsFrom(serve, s, attempt, completions), completions)
    decreases MAX_ATTEMPTS + 1 - attempt
  {
    if attempt <= MAX_ATTEMPTS {
      FirstAttempt(serve, s, attempt, completions);
      AttemptEndsRouted(serve, s, attempt, completions);
      var first := Attempt(serve, s, attempt, completions(attempt));
      if first.0.Retryable? { AttemptsKeepRouted(serve, first.1, attempt + 1, completions); }
    }
  }

  lemma OpeningIsRouted(serve: ServeRequest, log: Log, openSeal: Option<Sealed>, completions: nat -> Completion)
    requires OpenRun(serve, log, openSeal).Ok?
    ensures Attempting(serve, Opening(serve, log, OpenRun(serve, log, openSeal).value), 1, completions)
  {
    var start := OpenRun(serve, log, openSeal).value;
    if !HasStarted(log) {
      var effect := Wrote(start[|start| - 1].event);
      assert effect.event.RunStarted?;
      RoutedSnoc(serve, [], effect);
      assert [] + [effect] == [effect];
    }
  }

  lemma CloseKeepsRouted(serve: ServeRequest, s: Attempts, reply: Reply, invocationSeq: nat, closeSeal: Option<Sealed>)
    requires Routed(serve, s.trace) && Calls(s.trace) == s.attempted
    ensures var (r, trace) := CloseRun(serve, s, reply, invocationSeq, closeSeal);
            Routed(serve, trace) && Calls(trace) == s.attempted && (r.Rejected? ==> r.rejection.ProviderFailed?)
  {
    var usage := Wrote(UsageOf(serve, reply, invocationSeq));
    RoutedSnoc(serve, s.trace, usage);
    RoutedSnoc(serve, s.trace + [usage], ClaimCompleted(true));
  }

  lemma FailKeepsRouted(serve: ServeRequest, s: Attempts, rejection: ServeRejection, closeSeal: Option<Sealed>)
    requires Routed(serve, s.trace) && Calls(s.trace) == s.attempted
    ensures var (r, trace) := FailRun(s, rejection, closeSeal);
            Routed(serve, trace) && Calls(trace) == s.attempted && r == Rejected(rejection, s.log)
  {
    RoutedSnoc(serve, s.trace, ClaimCompleted(false));
  }

  /**
   In every delivery each invocation names an eligible provider and precedes its call, no provider is called twice, and
   exhaustion is reported only after every eligible provider was called and failed transiently.
   */
  lemma DeliveryStaysRouted(serve: ServeRequest, log: Log, d: Delivery)
    ensures var (r, trace) := Serve(serve, log, d);
            && Routed(serve, trace) && NoRepeats(Calls(trace)) && |Calls(trace)| <= MAX_ATTEMPTS
            && (r.Rejected? && r.rejection == Refusal(AllEligibleExhausted)
                ==> Exhausted(serve, Calls(trace), d.completions))
  {
    if d.claim.Claimed? && OpenRun(serve, log, d.openSeal).Ok? {
      var s0 := Opening(serve, log, OpenRun(serve, log, d.openSeal).value);
      OpeningIsRouted(serve, log, d.openSeal, d.completions);
      AttemptsKeepRouted(serve, s0, 1, d.completions);
      LoopAlwaysAnswers(serve, s0, 1, d.completions);
      var (outcome, s) := AttemptsFrom(serve, s0, 1, d.completions);
      if outcome.AttemptServed? {
        CloseKeepsRouted(serve, s, outcome.reply, outcome.invocationSeq, d.closeSeal);
      } else {
        FailKeepsRouted(serve, s, outcome.rejection, d.closeSeal);
      }
    }
  }

  /** Without an eligible provider nothing is called, and an opened delivery is refused for exactly that reason. */
  lemma NoEligibleNoCall(serve: ServeRequest, log: Log, d: Delivery)
    requires forall provider :: !HasEligible(serve, provider)
    ensures Serve(serve, log, d).0.Rejected? && Calls(Serve(serve, log, d).1) == []
    ensures d.claim.Claimed? && OpenRun(serve, log, d.openSeal).Ok? ==>
              Serve(serve, log, d).0.rejection == Refusal(NoEligibleInRegionProvider)
  {
    SelectionStaysInRegion(serve, []);
    if d.claim.Claimed? && OpenRun(serve, log, d.openSeal).Ok? {
      var s0 := Opening(serve, log, OpenRun(serve, log, d.openSeal).value);
      OpeningIsRouted(serve, log, d.openSeal, d.completions);
      assert AttemptsFrom(serve, s0, 1, d.completions) == (AttemptHalted(Refusal(NoEligibleInRegionProvider)), s0);
      CallsSnoc(s0.trace, ClaimCompleted(false));
    }
  }

  // ---- Settling the claim ----------------------------------------------------------------------------------------

  predicate Unsettled(trace: seq<Effect>) {
    forall i | 0 <= i < |trace| :: !trace[i].ClaimCompleted?
  }

  lemma AttemptSettlesNothing(serve: ServeRequest, s: Attempts, attempt: nat, answer: Completion)
    requires attempt > 0 && Unsettled(s.trace)
    ensures var (outcome, after) := Attempt(serve, s, attempt, answer);
            Unsettled(after.trace) && (outcome.AttemptServed? ==> !IsFinished(after.log))
  {
  }

  /** The attempts settle nothing, and an answer leaves the log open for its usage. */
  lemma {:induction false} AttemptsSettleNothing(serve: ServeRequest, s: Attempts, attempt: nat,
                                                 completions: nat -> Completion)
    requires attempt > 0 && Unsettled(s.trace)
    ensures var (outcome, after) := AttemptsFrom(serve, s, attempt, completions);
            Unsettled(after.trace) && (outcome.AttemptServed? ==> !IsFinished(after.log))
    decreases MAX_ATTEMPTS + 1 - attempt
  {
    if attempt <= MAX_ATTEMPTS {
      AttemptSettlesNothing(serve, s, attempt, completions(attempt));
      var (outcome, next) := Attempt(serve, s, attempt, completions(attempt));
      if outcome.Retryable? { AttemptsSettleNothing(serve, next, attempt + 1, completions); }
    }
  }

  /** The claim is settled once, last, and with what the caller is told; or not at all. */
  predicate SettledLast(r: ServeResult, trace: seq<Effect>, settled: bool) {
    if settled then |trace| > 0 && trace[|trace| - 1] == ClaimCompleted(r.Served?) && Unsettled(trace[..|trace| - 1])
    else Unsettled(trace) && r.Rejected?
  }

  lemma ConclusionSettles(serve: ServeRequest, ended: (AttemptOutcome, Attempts), closeSeal: Option<Sealed>)
    requires Unsettled(ended.1.trace) && (ended.0.AttemptServed? ==> !IsFinished(ended.1.log))
    ensures var (r, trace) := Conclude(serve, ended, closeSeal);
            SettledLast(r, trace, closeSeal.Some?)
  {
  }

  /** A delivery settles its claim exactly when it made the claim, opened the run and could seal the outcome. */
  lemma ClaimIsSettled(serve: ServeRequest, log: Log, d: Delivery)
    ensures var (r, trace) := Serve(serve, log, d);
            SettledLast(r, trace, d.claim.Claimed? && OpenRun(serve, log, d.openSeal).Ok? && d.closeSeal.Some?)
  {
    if d.claim.Claimed? && OpenRun(serve, log, d.openSeal).Ok? {
      var s0 := Opening(serve, log, OpenRun(serve, log, d.openSeal).value);
      AttemptsSettleNothing(serve, s0, 1, d.completions);
      ConclusionSettles(serve, AttemptsFrom(serve, s0, 1, d.completions), d.closeSeal);
    }
  }
}
