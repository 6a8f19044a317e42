/**
 Deliveries that interleave as claim, invoke and complete, with sweeps in between
 (src/serving/application/execute-once.ts, src/serving/infrastructure/sqlite-idempotency-store.ts).
 */
module IdempotencyRuns {
  import opened Outcomes
  import opened Texts
  import opened Idempotency

  /** The n-th delivery of a request. */
  datatype DeliveryId = DeliveryId(key: RequestKey, n: nat)

  datatype Task =
    | Running(at: int)
    | Answered(answeredAt: int, seen: nat, result: Result<RecordedOutcome, IdempotencyFailure>)
    | Finished(at: int, outcome: Result<RecordedOutcome, IdempotencyFailure>)

  datatype Event = Invoked(id: DeliveryId, at: int) | Recorded(recorder: DeliveryId, outcome: RecordedOutcome)

  /** `history` is what happened; the program keeps only the ledger. */
  datatype World = World(ledger: Ledger<RequestKey>, tasks: map<DeliveryId, Task>, history: seq<Event>,
                         horizon: Option<int>)

  datatype Action = Deliver(id: DeliveryId, at: int) | Finish(id: DeliveryId,
                                                              outcome: RecordedOutcome) | Sweep(now: int)

  const EMPTY := World(map[], map[], [], None)

  function Later(horizon: Option<int>, now: int): Option<int> {
    if horizon.Some? && horizon.value > now then horizon else Some(now)
  }

  function Do(w: World, a: Action): World {
    match a
    case Deliver(id, at) =>
      if id in w.tasks then w
      else
        var (claimed, ledger) := ClaimIn(w.ledger, id.key, id.key, at);
        if claimed.AlreadyClaimed? then w.(tasks :=
                                           w.tasks[id := Answered(at, |w.history|, Deduped(id.key, claimed.claim))])
        else w.(ledger := ledger, tasks := w.tasks[id := Running(at)], history := w.history + [Invoked(id, at)])
    case Finish(id, outcome) =>
      if id !in w.tasks || !w.tasks[id].Running? then w
      else
        var (completed, ledger) := CompleteIn(w.ledger, id.key, id.key, outcome);
        var result := if completed.Ok? then Ok(outcome) else Err(completed.error);
        w.(ledger := ledger, tasks := w.tasks[id := Finished(w.tasks[id].at, result)],
           history := if completed.Ok? then w.history + [Recorded(id, outcome)] else w.history)
    case Sweep(now) => w.(ledger := SweptAt(w.ledger, now), horizon := Later(w.horizon, now))
  }

  function After(w: World, actions: seq<Action>): World
    decreases |actions|
  {
    if |actions| == 0 then w else After(Do(w, actions[0]), actions[1..])
  }

  /** No delivery is made at a time before a sweep that already ran. */
  predicate Orderly(w: World, actions: seq<Action>)
    decreases |actions|
  {
    |actions| > 0 ==>
      (actions[0].Deliver? && w.horizon.Some? ==> w.horizon.value <= actions[0].at)
          && Orderly(Do(w, actions[0]), actions[1..])
  }

  // ---- What the history says of one request -------------------------------------------------------------------------

  function KeyOf(e: Event): RequestKey {
    if e.Invoked? then e.id.key else e.recorder.key
  }

  /** The latest invocation of the request. */
  function LastInvocation(history: seq<Event>, key: RequestKey): Option<Event>
    ensures var e := LastInvocation(history, key);
            e.Some? ==> e.value.Invoked? && e.value.id.key == key
  {
    if |history| == 0 then None
    else
      var e := history[|history| - 1];
      if e.Invoked? && e.id.key == key then Some(e) else LastInvocation(history[..|history| - 1], key)
  }

  /** The outcome recorded last since the latest invocation of the request. */
  function LiveOutcome(history: seq<Event>, key: RequestKey): Option<RecordedOutcome> {
    if |history| == 0 then None
    else
      var e := history[|history| - 1];
      if KeyOf(e) != key then LiveOutcome(history[..|history| - 1], key)
      else if e.Recorded? then Some(e.outcome) else None
  }

  /** Invocations of one request are at least the life of a claim apart. */
  predicate Spaced(history: seq<Event>) {
    forall i, j | 0 <= i < j < |history| && history[i].Invoked? && history[j].Invoked?
        && history[i].id.key == history[j].id.key ::
      history[i].at + CLAIM_TTL_MS <= history[j].at
  }

  lemma Snoc(history: seq<Event>, e: Event, key: RequestKey)
    ensures LastInvocation(history + [e], key) == if e.Invoked? && e.id.key == key then Some(e)
            else LastInvocation(history, key)
    ensures LiveOutcome(history + [e], key) ==
            if KeyOf(e) != key then LiveOutcome(history, key) else if e.Recorded? then Some(e.outcome) else None
  {
    assert (history + [e])[..|history|] == history;
  }

  lemma {:induction false} LastIsLatest(history: seq<Event>, key: RequestKey, i: nat)
    requires Spaced(history) && i < |history| && history[i].Invoked? && history[i].id.key == key
    ensures var last := LastInvocation(history, key);
            last.Some? && history[i].at <= last.value.at
                && (history[i].at == last.value.at <==> history[i] == last.value)
    decreases |history|
  {
    var shorter := history[..|history| - 1];
    if i < |shorter| {
      var e := history[|history| - 1];
      if !(e.Invoked? && e.id.key == key) { LastIsLatest(shorter, key, i); }
    }
  }

  // ---- What holds in every world ------------------------------------------------------------------------------------

  predicate ClaimOk(w: World, key: RequestKey) {
    var last := LastInvocation(w.history, key);
    if key in w.ledger then
      && last.Some? && w.ledger[key].claimedAt == last.value.at
         && w.ledger[key].expiresAt == last.value.at + CLAIM_TTL_MS
      && w.ledger[key].outcome == LiveOutcome(w.history, key)
      && (w.horizon.Some? ==> w.horizon.value < w.ledger[key].expiresAt)
    else last.Some? ==> w.horizon.Some? && last.value.at + CLAIM_TTL_MS <= w.horizon.value
  }

  /** A delivery that did not invoke was answered from the claim then live. */
  predicate AnswerOk(history: seq<Event>, id: DeliveryId, task: Task) {
    task.Answered? ==>
      && task.seen <= |history|
      && var past := history[..task.seen];
      var last := LastInvocation(past, id.key);
      && last.Some? && task.answeredAt < last.value.at + CLAIM_TTL_MS
      && task.result == (if LiveOutcome(past,
                                        id.key).Some? then Ok(LiveOutcome(past, id.key).value)
                                        else Err(InFlight(id.key.request)))
  }

  predicate InvokedOk(history: seq<Event>, id: DeliveryId, task: Task) {
    !task.Answered? ==> Invoked(id, task.at) in history
  }

  /** The instant a delivery was made at. */
  function InstantOf(task: Task): int {
    if task.Answered? then task.answeredAt else task.at
  }

  predicate Delivered(tasks: map<DeliveryId, Task>, e: Event) {
    e.Invoked? ==> e.id in tasks && InstantOf(tasks[e.id]) == e.at
  }

  ghost predicate Sound(w: World) {
    && Spaced(w.history)
    && (forall key :: ClaimOk(w, key))
    && (forall id | id in w.tasks :: AnswerOk(w.history, id, w.tasks[id]) && InvokedOk(w.history, id, w.tasks[id]))
    && (forall e | e in w.history :: Delivered(w.tasks, e))
  }

  lemma AnswersOutlive(history: seq<Event>, e: Event, id: DeliveryId, task: Task)
    requires AnswerOk(history, id, task) && InvokedOk(history, id, task)
    ensures AnswerOk(history + [e], id, task) && InvokedOk(history + [e], id, task)
  {
    if task.Answered? { assert (history + [e])[..task.seen] == history[..task.seen]; }
  }

  lemma SpacedSnoc(w: World, id: DeliveryId, at: int)
    requires Sound(w) && ClaimIn(w.ledger, id.key, id.key, at).0.Claimed?
    requires w.horizon.Some? ==> w.horizon.value <= at
    ensures Spaced(w.history + [Invoked(id, at)])
  {
    var longer := w.history + [Invoked(id, at)];
    assert ClaimOk(w, id.key);
    forall i, j | 0 <= i < j < |longer| && longer[i].Invoked? && longer[j].Invoked?
        && longer[i].id.key == longer[j].id.key
      ensures longer[i].at + CLAIM_TTL_MS <= longer[j].at
    {
      if j == |w.history| { LastIsLatest(w.history, id.key, i); }
    }
  }

  lemma InvocationSound(w: World, id: DeliveryId, at: int)
    requires Sound(w) && id !in w.tasks && ClaimIn(w.ledger, id.key, id.key, at).0.Claimed?
    requires w.horizon.Some? ==> w.horizon.value <= at
    ensures Sound(Do(w, Deliver(id, at)))
  {
    var after := Do(w, Deliver(id, at));
    SpacedSnoc(w, id, at);
    forall key ensures ClaimOk(after, key) {
      Snoc(w.history, Invoked(id, at), key);
      assert ClaimOk(w, key);
    }
    forall other | other in after.tasks
      ensures AnswerOk(after.history, other, after.tasks[other]) && InvokedOk(after.history, other, after.tasks[other])
    {
      if other != id { AnswersOutlive(w.history, Invoked(id, at), other, w.tasks[other]); }
    }
  }

  lemma DedupSound(w: World, id: DeliveryId, at: int)
    requires Sound(w) && id !in w.tasks && ClaimIn(w.ledger, id.key, id.key, at).0.AlreadyClaimed?
    ensures Sound(Do(w, Deliver(id, at)))
  {
    var after := Do(w, Deliver(id, at));
    assert ClaimOk(w, id.key) && w.history[..|w.history|] == w.history;
    forall key ensures ClaimOk(after, key) { assert ClaimOk(w, key); }
  }

  lemma DeliverSound(w: World, id: DeliveryId, at: int)
    requires Sound(w) && (w.horizon.Some? ==> w.horizon.value <= at)
    ensures Sound(Do(w, Deliver(id, at)))
  {
    if id !in w.tasks {
      if ClaimIn(w.ledger, id.key, id.key, at).0.Claimed? {
        InvocationSound(w, id, at);
      } else {
        DedupSound(w, id, at);
      }
    }
  }

  lemma FinishKeepsClaims(w: World, id: DeliveryId, outcome: RecordedOutcome, key: RequestKey)
    requires Sound(w) && id in w.tasks && w.tasks[id].Running?
    ensures ClaimOk(Do(w, Finish(id, outcome)), key)
  {
    Snoc(w.history, Recorded(id, outcome), key);
    assert ClaimOk(w, key);
  }

  lemma FinishSound(w: World, id: DeliveryId, outcome: RecordedOutcome)
    requires Sound(w)
    ensures Sound(Do(w, Finish(id, outcome)))
  {
    if id in w.tasks && w.tasks[id].Running? {
      var after := Do(w, Finish(id, outcome));
      forall key ensures ClaimOk(after, key) { FinishKeepsClaims(w, id, outcome, key); }
      forall other | other in after.tasks
        ensures AnswerOk(after.history, other, after.tasks[other])
                && InvokedOk(after.history, other, after.tasks[other])
      {
        AnswersOutlive(w.history, Recorded(id, outcome), other, w.tasks[other]);
      }
    }
  }

  lemma SweepSound(w: World, now: int)
    requires Sound(w)
    ensures Sound(Do(w, Sweep(now)))
  {
    forall key ensures ClaimOk(Do(w, Sweep(now)), key) { assert ClaimOk(w, key); }
  }

  lemma {:induction false} EveryRunIsSound(w: World, actions: seq<Action>)
    requires Sound(w) && Orderly(w, actions)
    ensures Sound(After(w, actions))
    decreases |actions|
  {
    if |actions| > 0 {
      match actions[0]
      case Deliver(id, at) => DeliverSound(w, id, at); EveryRunIsSound(Do(w, actions[0]), actions[1..]);
      case Finish(id, outcome) => FinishSound(w, id, outcome); EveryRunIsSound(Do(w, actions[0]), actions[1..]);
      case Sweep(now) => SweepSound(w, now); EveryRunIsSound(Do(w, actions[0]), actions[1..]);
    }
  }

  lemma EmptyIsSound()
    ensures Sound(EMPTY)
  {
  }

  /**
   However deliveries interleave, two invocations of one request in one namespace carry times at least 24 hours apart.
   */
  lemma InvocationsAreADayApart(actions: seq<Action>, i: nat, j: nat)
    requires Orderly(EMPTY, actions)
    requires var h := After(EMPTY, actions).history;
             i < j < |h| && h[i].Invoked? && h[j].Invoked? && h[i].id.key == h[j].id.key
    ensures var h := After(EMPTY, actions).history;
            h[i].at + 24 * 60 * 60 * 1000 <= h[j].at
  {
    EmptyIsSound();
    EveryRunIsSound(EMPTY, actions);
  }

  /**
   A delivery that did not invoke was told in-flight, or what was recorded since the invocation whose claim was live.
   */
  lemma DedupedAnswersAreLive(actions: seq<Action>, id: DeliveryId)
    requires Orderly(EMPTY, actions)
    requires var w := After(EMPTY, actions);
             id in w.tasks && w.tasks[id].Answered?
    ensures var w := After(EMPTY, actions);
            AnswerOk(w.history, id, w.tasks[id])
  {
    EmptyIsSound();
    EveryRunIsSound(EMPTY, actions);
  }

  // ---- Whose claim an outcome lands on ------------------------------------------------------------------------------

  /** The claim in the ledger is the one this invocation made. */
  predicate HoldsOwnClaim(w: World, id: DeliveryId)
    requires id in w.tasks && w.tasks[id].Running?
  {
    id.key in w.ledger && w.ledger[id.key].claimedAt == w.tasks[id].at
  }

  /** Another delivery of the request, or a sweep, has come at this instant or later. */
  predicate Reached(w: World, key: RequestKey, instant: int) {
    || (exists id :: id in w.tasks && id.key == key && InstantOf(w.tasks[id]) >= instant)
    || (w.horizon.Some? && w.horizon.value >= instant)
  }

  /** A claim stays its maker's until somebody comes once its life is over. */
  lemma OwnClaimIsUnreached(w: World, id: DeliveryId, other: DeliveryId)
    requires Sound(w) && id in w.tasks && w.tasks[id].Running? && HoldsOwnClaim(w, id)
    requires other in w.tasks && other.key == id.key
    ensures InstantOf(w.tasks[other]) < w.tasks[id].at + CLAIM_TTL_MS
  {
    var (history, task) := (w.history, w.tasks[other]);
    assert ClaimOk(w, id.key) && AnswerOk(history, other, task) && InvokedOk(history, other, task);
    var e := if task.Answered? then LastInvocation(history[..task.seen], id.key).value else Invoked(other, task.at);
    if task.Answered? { LastIsInHistory(history[..task.seen], id.key); }
    var i :| 0 <= i < |history| && history[i] == e;
    LastIsLatest(history, id.key, i);
  }

  lemma {:induction false} LastIsInHistory(history: seq<Event>, key: RequestKey)
    ensures var e := LastInvocation(history, key);
            e.Some? ==> e.value in history
  {
    if |history| > 0 {
      var e := history[|history| - 1];
      if !(e.Invoked? && e.id.key == key) { LastIsInHistory(history[..|history| - 1], key); }
    }
  }

  /** Where it is not its maker's any more, somebody came. */
  lemma LostClaimWasReached(w: World, id: DeliveryId)
    requires Sound(w) && id in w.tasks && w.tasks[id].Running? && !HoldsOwnClaim(w, id)
    ensures Reached(w, id.key, w.tasks[id].at + CLAIM_TTL_MS)
    ensures id.key in w.ledger ==> w.ledger[id.key].claimedAt >= w.tasks[id].at + CLAIM_TTL_MS
  {
    var (history, mine) := (w.history, Invoked(id, w.tasks[id].at));
    assert ClaimOk(w, id.key) && InvokedOk(history, id, w.tasks[id]);
    var i :| 0 <= i < |history| && history[i] == mine;
    LastIsLatest(history, id.key, i);
    if id.key in w.ledger {
      var last := LastInvocation(history, id.key).value;
      LastIsInHistory(history, id.key);
      var j :| 0 <= j < |history| && history[j] == last;
      assert Delivered(w.tasks, last);
    }
  }

  /**
   A running invocation finishes under its own claim exactly when no delivery of its request and no sweep has come 24
   hours or more after it; and if the claim there is another's, that one is at least 24 hours younger.
   */
  lemma OutcomeLandsOnOwnClaim(actions: seq<Action>, id: DeliveryId)
    requires Orderly(EMPTY, actions)
    requires var w := After(EMPTY, actions);
             id in w.tasks && w.tasks[id].Running?
    ensures var w := After(EMPTY, actions);
            && (HoldsOwnClaim(w, id) <==> !Reached(w, id.key, w.tasks[id].at + CLAIM_TTL_MS))
            && (!HoldsOwnClaim(w, id) && id.key in w.ledger
                ==> w.ledger[id.key].claimedAt >= w.tasks[id].at + CLAIM_TTL_MS)
  {
    EmptyIsSound();
    EveryRunIsSound(EMPTY, actions);
    var w := After(EMPTY, actions);
    if HoldsOwnClaim(w, id) {
      assert ClaimOk(w, id.key);
      forall other | other in w.tasks && other.key == id.key
          ensures InstantOf(w.tasks[other]) < w.tasks[id].at + CLAIM_TTL_MS {
        OwnClaimIsUnreached(w, id, other);
      }
    } else {
      LostClaimWasReached(w, id);
    }
  }

  lemma TwoDeliveries(key: RequestKey, a: int, b: int)
    ensures var (first, second) := (DeliveryId(key, 1), DeliveryId(key, 2));
            var actions := [Deliver(first, a), Deliver(second, b)];
            var w := After(EMPTY, actions);
            && Orderly(EMPTY, actions) && w == Do(Do(EMPTY, Deliver(first, a)), Deliver(second, b))
               && w.tasks.Keys == {first, second}
            && key in w.ledger && w.horizon.None? && w.tasks[first] == Running(a) && InstantOf(w.tasks[second]) == b
            && (b >= a + CLAIM_TTL_MS ==> w.tasks[second] == Running(b) && w.ledger[key] == NewClaim(key, b))
  {
    var (first, second) := (DeliveryId(key, 1), DeliveryId(key, 2));
    var actions := [Deliver(first, a), Deliver(second, b)];
    var w1 := Do(EMPTY, actions[0]);
    assert w1.ledger[key] == NewClaim(key, a) && w1.tasks == map[first := Running(a)];
    var rest := actions[1..];
    assert rest == [Deliver(second, b)] && rest[1..] == [];
    assert After(w1, rest) == Do(w1, rest[0]);
  }

  /**
   An invocation that is still running when its request is delivered again answers for the one that replaced it exactly
   when that delivery comes 24 hours or more later: whoever asks while the newer claim lives is told the older outcome.
   */
  lemma LateOutcomeLandsOnNewClaim(key: RequestKey, outcome: RecordedOutcome, a: int, b: int, t: int)
    requires t < b + CLAIM_TTL_MS
    ensures var (first, second, third) := (DeliveryId(key, 1), DeliveryId(key, 2), DeliveryId(key, 3));
            var w := Do(Do(EMPTY, Deliver(first, a)), Deliver(second, b));
            var w2 := Do(Do(w, Finish(first, outcome)), Deliver(third, t));
            && (HoldsOwnClaim(w, first) <==> b < a + CLAIM_TTL_MS)
            && (b >= a + CLAIM_TTL_MS ==> w2.tasks[second] == Running(b)
                                          && w2.tasks[third].Answered? && w2.tasks[third].result == Ok(outcome))
  {
    var (first, second, third) := (DeliveryId(key, 1), DeliveryId(key, 2), DeliveryId(key, 3));
    var w := Do(Do(EMPTY, Deliver(first, a)), Deliver(second, b));
    TwoDeliveries(key, a, b);
    OutcomeLandsOnOwnClaim([Deliver(first, a), Deliver(second, b)], first);
    assert CLAIM_TTL_MS > 0 && first in w.tasks && second in w.tasks;
    if b >= a + CLAIM_TTL_MS {
      var w1 := Do(w, Finish(first, outcome));
      assert w1.ledger[key] == NewClaim(key, b).(outcome := Some(outcome)) && third !in w1.tasks;
    }
  }

  // ---- A sweep that runs ahead --------------------------------------------------------------------------------------

  /** The request is delivered at c, the ledger swept at s, and a second delivery at t invokes once more. */
  predicate Reruns(key: RequestKey, c: int, s: int, t: int) {
    var (first, second) := (DeliveryId(key, 1), DeliveryId(key, 2));
    Do(Do(Do(EMPTY, Deliver(first, c)), Sweep(s)), Deliver(second, t)).history
        == [Invoked(first, c), Invoked(second, t)]
  }

  lemma RerunsOnceOver(key: RequestKey, c: int, s: int, t: int)
    ensures Reruns(key, c, s, t) <==> c + CLAIM_TTL_MS <= s || c + CLAIM_TTL_MS <= t
  {
    var (first, second) := (DeliveryId(key, 1), DeliveryId(key, 2));
    var w1 := Do(EMPTY, Deliver(first, c));
    assert w1.ledger[key] == NewClaim(key, c) && w1.history == [Invoked(first, c)];
    var w2 := Do(w1, Sweep(s));
    assert key in w2.ledger <==> c + CLAIM_TTL_MS > s;
    assert second !in w2.tasks;
    assert w2.history + [Invoked(second, t)] == [Invoked(first, c), Invoked(second, t)];
  }

  /**
   Whatever was claimed before, a sweep lets no request run twice within 24 hours exactly when it is no later than the
   delivery.
   */
  lemma SweepIsSafeExactlyInOrder(key: RequestKey, s: int, t: int)
    ensures (forall c :: Reruns(key, c, s, t) ==> c + CLAIM_TTL_MS <= t) <==> s <= t
  {
    forall c ensures Reruns(key, c, s, t) <==> c + CLAIM_TTL_MS <= s || c + CLAIM_TTL_MS <= t {
      RerunsOnceOver(key, c, s, t);
    }
    if s > t { assert Reruns(key, s - CLAIM_TTL_MS, s, t); }
  }

  /** For instance, a sweep a day ahead lets a request run twice within a millisecond. */
  lemma EarlySweepRerunsARequest(key: RequestKey)
    ensures Reruns(key, 0, CLAIM_TTL_MS, 1)
  {
    RerunsOnceOver(key, 0, CLAIM_TTL_MS, 1);
  }

  // ---- Namespaces ---------------------------------------------------------------------------------------------------

  predicate Concerns(a: Action, namespace: Text) {
    match a
    case Deliver(id, _) => id.key.namespace == namespace
    case Finish(id, _) => id.key.namespace == namespace
    case Sweep(_) => true
  }

  function Only(actions: seq<Action>, namespace: Text): seq<Action> {
    if |actions| == 0 then []
    else if Concerns(actions[0], namespace) then [actions[0]] + Only(actions[1..], namespace)
    else Only(actions[1..], namespace)
  }

  /** What one task shows its caller. */
  function Shown(task: Task): Task {
    if task.Answered? then task.(seen := 0) else task
  }

  /** The same claims and the same answers in one namespace. */
  ghost predicate SameFor(namespace: Text, a: World, b: World) {
    && (forall key: RequestKey | key.namespace == namespace ::
          (key in a.ledger <==> key in b.ledger) && (key in a.ledger ==> a.ledger[key] == b.ledger[key]))
    && (forall id: DeliveryId | id.key.namespace == namespace ::
          (id in a.tasks <==> id in b.tasks) && (id in a.tasks ==> Shown(a.tasks[id]) == Shown(b.tasks[id])))
  }

  lemma SameDeliver(namespace: Text, a: World, b: World, id: DeliveryId, at: int)
    requires SameFor(namespace, a, b) && id.key.namespace == namespace
    ensures SameFor(namespace, Do(a, Deliver(id, at)), Do(b, Deliver(id, at)))
  {
  }

  lemma SameFinish(namespace: Text, a: World, b: World, id: DeliveryId, outcome: RecordedOutcome)
    requires SameFor(namespace, a, b) && id.key.namespace == namespace
    ensures SameFor(namespace, Do(a, Finish(id, outcome)), Do(b, Finish(id, outcome)))
  {
  }

  lemma OthersDoNothing(namespace: Text, a: World, b: World, action: Action)
    requires SameFor(namespace, a, b) && !Concerns(action, namespace)
    ensures SameFor(namespace, Do(a, action), b)
  {
  }

  lemma SameStep(namespace: Text, a: World, b: World, action: Action)
    requires SameFor(namespace, a, b) && Concerns(action, namespace)
    ensures SameFor(namespace, Do(a, action), Do(b, action))
  {
    match action
    case Deliver(id, at) => SameDeliver(namespace, a, b, id, at);
    case Finish(id, outcome) => SameFinish(namespace, a, b, id, outcome);
    case Sweep(_) =>
  }

  /** What happens in other namespaces changes no claim and no answer in this one. */
  lemma {:induction false} NamespacesAreApart(namespace: Text, a: World, b: World, actions: seq<Action>)
    requires SameFor(namespace, a, b)
    ensures SameFor(namespace, After(a, actions), After(b, Only(actions, namespace)))
    decreases |actions|
  {
    if |actions| > 0 {
      if Concerns(actions[0], namespace) {
        SameStep(namespace, a, b, actions[0]);
        assert Only(actions, namespace)[1..] == Only(actions[1..], namespace);
        NamespacesAreApart(namespace, Do(a, actions[0]), Do(b, actions[0]), actions[1..]);
      } else {
        OthersDoNothing(namespace, a, b, actions[0]);
        NamespacesAreApart(namespace, Do(a, actions[0]), b, actions[1..]);
      }
    }
  }

  // ---- Sweeps -------------------------------------------------------------------------------------------------------

  function Unswept(actions: seq<Action>): seq<Action> {
    if |actions| == 0
    then []
    else if actions[0].Sweep? then Unswept(actions[1..]) else [actions[0]] + Unswept(actions[1..])
  }

  /** One request's claim: the swept ledger may lack it, but only once it is over. */
  predicate ClaimAlike(swept: World, kept: World, key: RequestKey) {
    if key in swept.ledger then key in kept.ledger && kept.ledger[key] == swept.ledger[key]
    else key in kept.ledger ==> swept.horizon.Some? && kept.ledger[key].expiresAt <= swept.horizon.value
  }

  /** One delivery: answered alike, or finished in both. */
  predicate TaskAlike(swept: World, kept: World, id: DeliveryId) {
    && (id in swept.tasks <==> id in kept.tasks)
    && (id in swept.tasks ==>
          Shown(swept.tasks[id]) == Shown(kept.tasks[id])
          || (swept.tasks[id].Finished? && kept.tasks[id].Finished?))
  }

  /** The swept ledger lacks only claims that are over, and no delivery was answered differently. */
  ghost predicate SweptAlike(swept: World, kept: World) {
    (forall key :: ClaimAlike(swept, kept, key)) && (forall id :: TaskAlike(swept, kept, id))
  }

  lemma SweptDeliver(swept: World, kept: World, id: DeliveryId, at: int)
    requires SweptAlike(swept, kept) && (swept.horizon.Some? ==> swept.horizon.value <= at)
    ensures SweptAlike(Do(swept, Deliver(id, at)), Do(kept, Deliver(id, at)))
  {
    var (s, k) := (Do(swept, Deliver(id, at)), Do(kept, Deliver(id, at)));
    assert ClaimAlike(swept, kept, id.key) && TaskAlike(swept, kept, id);
    forall key ensures ClaimAlike(s, k, key) { assert ClaimAlike(swept, kept, key); }
    forall other ensures TaskAlike(s, k, other) { assert TaskAlike(swept, kept, other); }
  }

  lemma SweptFinish(swept: World, kept: World, id: DeliveryId, outcome: RecordedOutcome)
    requires SweptAlike(swept, kept)
    ensures SweptAlike(Do(swept, Finish(id, outcome)), Do(kept, Finish(id, outcome)))
  {
    var (s, k) := (Do(swept, Finish(id, outcome)), Do(kept, Finish(id, outcome)));
    assert ClaimAlike(swept, kept, id.key) && TaskAlike(swept, kept, id);
    forall key ensures ClaimAlike(s, k, key) { assert ClaimAlike(swept, kept, key); }
    forall other ensures TaskAlike(s, k, other) { assert TaskAlike(swept, kept, other); }
  }

  lemma SweptMore(swept: World, kept: World, now: int)
    requires SweptAlike(swept, kept)
    ensures SweptAlike(Do(swept, Sweep(now)), kept)
  {
    var s := Do(swept, Sweep(now));
    forall key ensures ClaimAlike(s, kept, key) { assert ClaimAlike(swept, kept, key); }
    forall id ensures TaskAlike(s, kept, id) { assert TaskAlike(swept, kept, id); }
  }

  lemma SweptStep(swept: World, kept: World, a: Action)
    requires SweptAlike(swept, kept)
    requires a.Deliver? && swept.horizon.Some? ==> swept.horizon.value <= a.at
    ensures if a.Sweep? then SweptAlike(Do(swept, a), kept) else SweptAlike(Do(swept, a), Do(kept, a))
  {
    match a
    case Deliver(id, at) => SweptDeliver(swept, kept, id, at);
    case Finish(id, outcome) => SweptFinish(swept, kept, id, outcome);
    case Sweep(now) => SweptMore(swept, kept, now);
  }

  /**
   Sweeping no later than the deliveries that follow changes no claim: who invokes and what the others are told stay the
   same.
   */
  lemma {:induction false} SweepsChangeNoAnswer(swept: World, kept: World, actions: seq<Action>)
    requires SweptAlike(swept, kept) && Orderly(swept, actions)
    ensures SweptAlike(After(swept, actions), After(kept, Unswept(actions)))
    decreases |actions|
  {
    if |actions| > 0 {
      SweptStep(swept, kept, actions[0]);
      if actions[0].Sweep? {
        SweepsChangeNoAnswer(Do(swept, actions[0]), kept, actions[1..]);
      } else {
        assert Unswept(actions)[1..] == Unswept(actions[1..]);
        SweepsChangeNoAnswer(Do(swept, actions[0]), Do(kept, actions[0]), actions[1..]);
      }
    }
  }
}
