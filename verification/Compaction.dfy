/** Fitting a context into a token budget without losing a pinned constraint (src/knowledge/domain/compact.ts). */
module Compaction {
  import opened Outcomes
  import opened Texts

  /** `id` tells one object from another, whatever they say. */
  datatype Item = Item(id: nat, pinned: bool, text: Text)

  datatype CompactionFailure = PinsExceedBudget(pinnedTokens: int, budgetTokens: int)

  type Counter = Text -> int

  function TokensOf(items: seq<Item>, count: Counter): int {
    if |items| == 0 then 0 else count(items[0].text) + TokensOf(items[1..], count)
  }

  function Pinned(items: seq<Item>): seq<Item> {
    if |items| == 0 then [] else if items[0].pinned then [items[0]] + Pinned(items[1..]) else Pinned(items[1..])
  }

  function Evictable(items: seq<Item>): seq<Item> {
    if |items| == 0 then [] else if items[0].pinned then Evictable(items[1..]) else [items[0]] + Evictable(items[1..])
  }

  /** How many of the oldest evictable items go: the fewest that make the rest fit. */
  function Evictions(evictable: seq<Item>, pinnedTokens: int, budget: int, count: Counter): (n: nat)
    ensures n <= |evictable|
  {
    if |evictable| > 0 && pinnedTokens + TokensOf(evictable, count) > budget
    then 1 + Evictions(evictable[1..], pinnedTokens, budget, count)
    else 0
  }

  /** After this many the rest fits, unless none is left; before that it did not. */
  lemma {:induction false} EvictionsAreFewest(evictable: seq<Item>, pinnedTokens: int, budget: int, count: Counter,
                                              k: nat)
    requires k <= Evictions(evictable, pinnedTokens, budget, count)
    ensures var n := Evictions(evictable, pinnedTokens, budget, count);
            if k == n then n == |evictable| || pinnedTokens + TokensOf(evictable[k..], count) <= budget
            else pinnedTokens + TokensOf(evictable[k..], count) > budget
    decreases |evictable|
  {
    if k == 0 {
      assert evictable[0..] == evictable;
    } else {
      EvictionsAreFewest(evictable[1..], pinnedTokens, budget, count, k - 1);
      assert evictable[1..][k - 1..] == evictable[k..];
    }
  }

  /** The items that are pinned or among those kept. */
  function Keeping(items: seq<Item>, kept: seq<Item>): seq<Item> {
    if |items| == 0 then []
    else if items[0].pinned || items[0] in kept then [items[0]] + Keeping(items[1..], kept)
    else Keeping(items[1..], kept)
  }

  function KeptOf(items: seq<Item>, budget: int, count: Counter): seq<Item> {
    var evictable := Evictable(items);
    evictable[Evictions(evictable, TokensOf(Pinned(items), count), budget, count)..]
  }

  function Compacted(items: seq<Item>, budget: int, count: Counter): Result<seq<Item>, CompactionFailure> {
    var pinnedTokens := TokensOf(Pinned(items), count);
    if TokensOf(items, count) <= budget then Ok(items)
    else if pinnedTokens > budget then Err(PinsExceedBudget(pinnedTokens, budget))
    else Ok(Keeping(items, KeptOf(items, budget, count)))
  }

  method Compact(items: seq<Item>, budget: int, count: Counter) returns (r: Result<seq<Item>, CompactionFailure>)
    ensures r == Compacted(items, budget, count)
  {
    if TokensOf(items, count) <= budget {
      return Ok(items);
    }
    var pinnedTokens := TokensOf(Pinned(items), count);
    if pinnedTokens > budget {
      return Err(PinsExceedBudget(pinnedTokens, budget));
    }
    var kept := Evict(Evictable(items), pinnedTokens, budget, count);
    return Ok(Keeping(items, kept));
  }

  /** Drops the oldest until the rest fits. */
  method Evict(evictable: seq<Item>, pinnedTokens: int, budget: int, count: Counter) returns (kept: seq<Item>)
    ensures kept == evictable[Evictions(evictable, pinnedTokens, budget, count)..]
  {
    kept := evictable;
    ghost var gone: nat := 0;
    while |kept| > 0 && pinnedTokens + TokensOf(kept, count) > budget
      invariant gone <= |evictable| && kept == evictable[gone..]
      invariant Evictions(evictable, pinnedTokens, budget, count) == gone + Evictions(kept, pinnedTokens, budget, count)
      decreases |kept|
    {
      kept := kept[1..];
      gone := gone + 1;
    }
  }

  // ---- What compaction keeps ---------------------------------------------------------------------------------------

  /** No object occurs twice. */
  predicate Distinct(items: seq<Item>) {
    forall i, j | 0 <= i < j < |items| :: items[i] != items[j]
  }

  /** The items but for the first n evictable ones, in their order. */
  function WithoutOldest(items: seq<Item>, n: nat): seq<Item> {
    if |items| == 0 then []
    else if items[0].pinned then [items[0]] + WithoutOldest(items[1..], n)
    else if n > 0 then WithoutOldest(items[1..], n - 1)
    else [items[0]] + WithoutOldest(items[1..], 0)
  }

  lemma {:induction false} EvictableMembers(items: seq<Item>)
    ensures forall x :: x in Evictable(items) <==> x in items && !x.pinned
  {
    if |items| > 0 {
      EvictableMembers(items[1..]);
      assert items == [items[0]] + items[1..];
    }
  }

  lemma {:induction false} TokensSplit(items: seq<Item>, count: Counter)
    ensures TokensOf(items, count) == TokensOf(Pinned(items), count) + TokensOf(Evictable(items), count)
  {
    if |items| > 0 { TokensSplit(items[1..], count); }
  }

  lemma {:induction false} WithoutOldestParts(items: seq<Item>, n: nat)
    requires n <= |Evictable(items)|
    ensures Pinned(WithoutOldest(items, n)) == Pinned(items)
    ensures Evictable(WithoutOldest(items, n)) == Evictable(items)[n..]
  {
    if |items| > 0 {
      if items[0].pinned {
        WithoutOldestParts(items[1..], n);
      } else if n > 0 {
        WithoutOldestParts(items[1..], n - 1);
        assert Evictable(items)[n..] == Evictable(items[1..])[n - 1..];
      } else {
        WithoutOldestParts(items[1..], 0);
      }
    }
  }

  /** The filter recognises the later ones of these and none of the first n. */
  predicate Tells(evictable: seq<Item>, n: nat, kept: seq<Item>)
    requires n <= |evictable|
  {
    forall i | 0 <= i < |evictable| :: evictable[i] in kept <==> i >= n
  }

  lemma TellsTail(evictable: seq<Item>, n: nat, kept: seq<Item>)
    requires 0 < |evictable| && n <= |evictable| && Tells(evictable, n, kept)
    ensures Tells(evictable[1..], if n > 0 then n - 1 else 0, kept)
  {
    assert forall i | 0 <= i < |evictable| - 1 :: evictable[1..][i] == evictable[i + 1];
  }

  lemma DistinctTells(evictable: seq<Item>, n: nat)
    requires Distinct(evictable) && n <= |evictable|
    ensures Tells(evictable, n, evictable[n..])
  {
  }

  lemma {:induction false} KeepingDropsOldest(items: seq<Item>, n: nat, kept: seq<Item>)
    requires n <= |Evictable(items)| && Tells(Evictable(items), n, kept)
    ensures Keeping(items, kept) == WithoutOldest(items, n)
  {
    if |items| > 0 {
      if items[0].pinned {
        KeepingDropsOldest(items[1..], n, kept);
      } else {
        TellsTail(Evictable(items), n, kept);
        assert Evictable(items)[1..] == Evictable(items[1..]);
        assert Evictable(items)[0] == items[0];
        KeepingDropsOldest(items[1..], if n > 0 then n - 1 else 0, kept);
      }
    }
  }

  /**
   With no evictable object twice, a context that fits comes back as it is; otherwise the pins stay and the fewest
   oldest others go that make the rest fit, unless the pins alone do not.
   */
  lemma CompactionEvictsOldest(items: seq<Item>, budget: int, count: Counter)
    requires Distinct(Evictable(items))
    ensures var r := Compacted(items, budget, count);
            var pinnedTokens := TokensOf(Pinned(items), count);
            && (TokensOf(items, count) <= budget ==> r == Ok(items))
            && (r.Err? <==> TokensOf(items, count) > budget && pinnedTokens > budget)
            && (r.Err? ==> r.error.pinnedTokens == TokensOf(Pinned(items), count) && r.error.budgetTokens == budget)
            && (r.Ok? && TokensOf(items, count) > budget ==>
                  var n := Evictions(Evictable(items), pinnedTokens, budget, count);
                  && r.value == WithoutOldest(items, n)
                  && Pinned(r.value) == Pinned(items)
                  && TokensOf(r.value, count) <= budget
                  && forall k: nat | k < n :: TokensOf(WithoutOldest(items, k), count) > budget)
  {
    var pinnedTokens := TokensOf(Pinned(items), count);
    if TokensOf(items, count) > budget && pinnedTokens <= budget {
      var evictable := Evictable(items);
      var n := Evictions(evictable, pinnedTokens, budget, count);
      DistinctTells(evictable, n);
      KeepingDropsOldest(items, n, evictable[n..]);
      WithoutOldestParts(items, n);
      TokensSplit(WithoutOldest(items, n), count);
      EvictionsAreFewest(evictable, pinnedTokens, budget, count, n);
      forall k: nat | k < n ensures TokensOf(WithoutOldest(items, k), count) > budget {
        EvictionsAreFewest(evictable, pinnedTokens, budget, count, k);
        WithoutOldestParts(items, k);
        TokensSplit(WithoutOldest(items, k), count);
      }
    }
  }

  // ---- An object that occurs twice ---------------------------------------------------------------------------------

  lemma {:induction false} KeepingSize(items: seq<Item>, kept: seq<Item>)
    ensures |Keeping(items, kept)| == |Pinned(items)| + |Keeping(Evictable(items), kept)|
  {
    if |items| > 0 { KeepingSize(items[1..], kept); }
  }

  lemma {:induction false} KeepingSplit(a: seq<Item>, b: seq<Item>, kept: seq<Item>)
    ensures Keeping(a + b, kept) == Keeping(a, kept) + Keeping(b, kept)
    decreases |a|
  {
    if |a| == 0 {
      assert a + b == b;
    } else {
      assert (a + b)[1..] == a[1..] + b;
      KeepingSplit(a[1..], b, kept);
    }
  }

  lemma {:induction false} KeepingAll(items: seq<Item>, kept: seq<Item>)
    requires forall x | x in items :: x in kept
    ensures Keeping(items, kept) == items
  {
    if |items| > 0 {
      assert items[0] in items;
      KeepingAll(items[1..], kept);
      assert items == [items[0]] + items[1..];
    }
  }

  lemma {:induction false} KeepingNone(items: seq<Item>, kept: seq<Item>)
    requires forall x | x in items :: !x.pinned
    ensures Keeping(items, kept) == [] <==> forall x | x in items :: x !in kept
  {
    if |items| > 0 {
      KeepingNone(items[1..], kept);
      assert items == [items[0]] + items[1..];
    }
  }

  /** As many items stay as were meant to, or more when an object meant to go is also one that was meant to stay. */
  lemma RepeatsStay(items: seq<Item>, n: nat)
    requires n <= |Evictable(items)|
    ensures var evictable := Evictable(items);
            var stay := |Keeping(items, evictable[n..])|;
            && stay >= |Pinned(items)| + |evictable| - n
            && (stay == |Pinned(items)| + |evictable| - n <==> forall x | x in evictable[..n] :: x !in evictable[n..])
  {
    var evictable := Evictable(items);
    var kept := evictable[n..];
    EvictableMembers(items);
    KeepingSize(items, kept);
    assert evictable == evictable[..n] + kept;
    KeepingSplit(evictable[..n], kept, kept);
    KeepingAll(kept, kept);
    forall x | x in evictable[..n] ensures !x.pinned { assert x in evictable; }
    KeepingNone(evictable[..n], kept);
  }

  /** A counter for which every text is one token. */
  function OneEach(text: Text): int { 1 }

  lemma {:induction false} OneTokenEach(items: seq<Item>)
    ensures TokensOf(items, OneEach) == |items|
  {
    if |items| > 0 { OneTokenEach(items[1..]); }
  }

  lemma {:induction false} PartsCount(items: seq<Item>)
    ensures |items| == |Pinned(items)| + |Evictable(items)|
  {
    if |items| > 0 { PartsCount(items[1..]); }
  }

  /** With a token each and room for all but the j oldest, just these go. */
  lemma EvictsToFit(evictable: seq<Item>, pinnedTokens: int, j: nat)
    requires j <= |evictable|
    ensures Evictions(evictable, pinnedTokens, pinnedTokens + |evictable| - j, OneEach) == j
  {
    var budget := pinnedTokens + |evictable| - j;
    var n := Evictions(evictable, pinnedTokens, budget, OneEach);
    EvictionsAreFewest(evictable, pinnedTokens, budget, OneEach, n);
    OneTokenEach(evictable[n..]);
    if j < n {
      EvictionsAreFewest(evictable, pinnedTokens, budget, OneEach, j);
      OneTokenEach(evictable[j..]);
    }
  }

  predicate StaysWithin(items: seq<Item>, budget: int, count: Counter) {
    var r := Compacted(items, budget, count);
    r.Ok? ==> TokensOf(r.value, count) <= budget
  }

  ghost predicate CountsUp(count: Counter) {
    forall text :: count(text) >= 0
  }

  /** With a token each and room for all but the j oldest, what is returned is what the filter leaves without these. */
  lemma CompactedByOnes(items: seq<Item>, j: nat)
    requires 0 < j <= |Evictable(items)|
    ensures Compacted(items, |items| - j, OneEach) == Ok(Keeping(items, Evictable(items)[j..]))
  {
    PartsCount(items);
    OneTokenEach(items);
    OneTokenEach(Pinned(items));
    EvictsToFit(Evictable(items), |Pinned(items)|, j);
  }

  lemma RepeatStays(items: seq<Item>, i: nat, j: nat)
    requires i < j < |Evictable(items)| && Evictable(items)[i] == Evictable(items)[j]
    ensures |Keeping(items, Evictable(items)[j..])| > |items| - j
  {
    var evictable := Evictable(items);
    PartsCount(items);
    RepeatsStay(items, j);
    assert evictable[..j][i] in evictable[..j] && evictable[j..][0] in evictable[j..];
  }

  /** An object held twice among the evictable ones overruns some budget: the one that cuts between its two places. */
  lemma RepeatOverruns(items: seq<Item>, i: nat, j: nat)
    requires i < j < |Evictable(items)| && Evictable(items)[i] == Evictable(items)[j]
    ensures !StaysWithin(items, |items| - j, OneEach)
  {
    CompactedByOnes(items, j);
    RepeatStays(items, i, j);
    OneTokenEach(Keeping(items, Evictable(items)[j..]));
  }

  /**
   What compaction returns is within the budget, whatever the budget and the counter, exactly when no evictable object
   occurs twice.
   */
  lemma BudgetHoldsExactlyWithoutRepeats(items: seq<Item>)
    ensures (forall budget, count | CountsUp(count) :: StaysWithin(items, budget, count))
            <==> Distinct(Evictable(items))
  {
    if Distinct(Evictable(items)) {
      forall budget, count | CountsUp(count) ensures StaysWithin(items, budget, count) {
        CompactionEvictsOldest(items, budget, count);
      }
    } else {
      var i, j :| 0 <= i < j < |Evictable(items)| && Evictable(items)[i] == Evictable(items)[j];
      RepeatOverruns(items, i, j);
      assert CountsUp(OneEach);
    }
  }

  /** For instance, one message object held twice stays twice, and the budget is overrun. */
  lemma RepeatedMessageOverruns(message: Item, count: Counter)
    requires !message.pinned && count(message.text) > 0
    ensures var items := [message, message];
            var r := Compacted(items, count(message.text), count);
            r == Ok(items) && TokensOf(items, count) > count(message.text)
  {
    var items := [message, message];
    var one := [message];
    assert items[1..] == one && one[1..] == [] && items[2..] == [];
    assert TokensOf(one, count) == count(message.text) && TokensOf(items, count) == 2 * count(message.text);
    assert Evictable(one) == one && Pinned(one) == [];
    assert items == one + one && Evictable(items) == one + Evictable(items[1..]) && Pinned(items) == Pinned(items[1..]);
    assert Evictions(one, 0, count(message.text), count) == 0;
    assert Evictions(items, 0, count(message.text), count) == 1;
    assert KeptOf(items, count(message.text), count) == one;
    assert Keeping(one, one) == one && Keeping(items, one) == one + Keeping(items[1..], one);
  }
}
