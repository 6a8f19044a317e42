/** Stable sorting by a comparison, as the runtime's own sort promises it. */
module Sorting {
  /** Put x before everything that is not before it. */
  function Insert<T>(x: T, xs: seq<T>, before: (T, T) -> bool): seq<T> {
    if |xs| == 0 || !before(xs[0], x) then [x] + xs else [xs[0]] + Insert(x, xs[1..], before)
  }

  function SortBy<T>(xs: seq<T>, before: (T, T) -> bool): seq<T> {
    if |xs| == 0 then [] else Insert(xs[0], SortBy(xs[1..], before), before)
  }

  /**
   Nothing is before itself or before what is before it, and what separates two elements separates either from a third.
   */
  ghost predicate WeakOrder<T(!new)>(before: (T, T) -> bool) {
    && (forall a, b :: before(a, b) ==> !before(b, a))
    && (forall a, b, c :: before(a, c) ==> before(a, b) || before(b, c))
  }

  ghost predicate Ordered<T>(xs: seq<T>, before: (T, T) -> bool) {
    forall i, j | 0 <= i < j < |xs| :: !before(xs[j], xs[i])
  }

  lemma {:induction false} InsertKeeps<T>(x: T, xs: seq<T>, before: (T, T) -> bool)
    ensures multiset(Insert(x, xs, before)) == multiset(xs) + multiset{x}
    ensures |Insert(x, xs, before)| == |xs| + 1
  {
    if |xs| > 0 && before(xs[0], x) {
      InsertKeeps(x, xs[1..], before);
      assert xs == [xs[0]] + xs[1..];
    }
  }

  /** Sorting rearranges. */
  lemma {:induction false} SortPermutes<T>(xs: seq<T>, before: (T, T) -> bool)
    ensures multiset(SortBy(xs, before)) == multiset(xs) && |SortBy(xs, before)| == |xs|
  {
    if |xs| > 0 {
      SortPermutes(xs[1..], before);
      InsertKeeps(xs[0], SortBy(xs[1..], before), before);
      assert xs == [xs[0]] + xs[1..];
    }
  }

  lemma Between<T(!new)>(a: T, b: T, c: T, before: (T, T) -> bool)
    requires WeakOrder(before)
    ensures before(a, c) ==> before(a, b) || before(b, c)
  {
  }

  lemma {:induction false} InsertOrders<T(!new)>(x: T, xs: seq<T>, before: (T, T) -> bool)
    requires WeakOrder(before) && Ordered(xs, before)
    ensures Ordered(Insert(x, xs, before), before)
  {
    var r := Insert(x, xs, before);
    if |xs| > 0 && before(xs[0], x) {
      InsertOrders(x, xs[1..], before);
      InsertKeeps(x, xs[1..], before);
      var rest := Insert(x, xs[1..], before);
      forall j | 0 <= j < |rest| ensures !before(rest[j], xs[0]) {
        assert rest[j] in multiset(rest);
        if rest[j] != x {
          assert rest[j] in multiset(xs[1..]);
          var k :| 0 <= k < |xs[1..]| && xs[1..][k] == rest[j];
          assert xs[k + 1] == rest[j];
        }
      }
    } else if |xs| > 0 {
      forall j | 0 <= j < |xs| ensures !before(xs[j], x) {
        Between(xs[j], xs[0], x, before);
      }
    }
  }

  /** Sorting by a weak order sorts. */
  lemma {:induction false} SortOrders<T(!new)>(xs: seq<T>, before: (T, T) -> bool)
    requires WeakOrder(before)
    ensures Ordered(SortBy(xs, before), before)
  {
    if |xs| > 0 {
      SortOrders(xs[1..], before);
      InsertOrders(xs[0], SortBy(xs[1..], before), before);
    }
  }

  /** The comparison tells any two different members apart. */
  ghost predicate Separates<T>(xs: seq<T>, before: (T, T) -> bool) {
    forall i, j | 0 <= i < |xs| && 0 <= j < |xs| && xs[i] != xs[j] :: before(xs[i], xs[j]) || before(xs[j], xs[i])
  }

  lemma ToldApart<T>(xs: seq<T>, i: nat, j: nat, before: (T, T) -> bool)
    requires Separates(xs, before) && i < |xs| && j < |xs|
    ensures xs[i] == xs[j] || before(xs[i], xs[j]) || before(xs[j], xs[i])
  {
  }

  lemma MembersByCount<T>(xs: seq<T>, ys: seq<T>, i: nat)
    requires multiset(xs) == multiset(ys) && i < |xs|
    ensures exists j :: 0 <= j < |ys| && ys[j] == xs[i]
  {
    assert xs[i] in multiset(xs);
    assert xs[i] in multiset(ys);
  }

  lemma FirstIsLeast<T>(xs: seq<T>, ys: seq<T>, before: (T, T) -> bool)
    requires multiset(xs) == multiset(ys) && |xs| > 0 && |ys| > 0
    requires Ordered(xs, before) && Ordered(ys, before) && Separates(xs, before)
    ensures xs[0] == ys[0]
  {
    MembersByCount(xs, ys, 0);
    MembersByCount(ys, xs, 0);
    var j :| 0 <= j < |ys| && ys[j] == xs[0];
    var i :| 0 <= i < |xs| && xs[i] == ys[0];
    ToldApart(xs, 0, i, before);
  }

  lemma RestAfterSame<T>(xs: seq<T>, ys: seq<T>)
    requires |xs| > 0 && |ys| > 0 && multiset(xs) == multiset(ys) && xs[0] == ys[0]
    ensures multiset(xs[1..]) == multiset(ys[1..])
  {
    assert xs == [xs[0]] + xs[1..] && ys == [ys[0]] + ys[1..];
    assert multiset(xs) == multiset{xs[0]} + multiset(xs[1..]) && multiset(ys) == multiset{ys[0]} + multiset(ys[1..]);
    assert multiset(xs[1..]) == multiset(xs) - multiset{xs[0]} && multiset(ys[1..]) == multiset(ys) - multiset{ys[0]};
  }

  lemma TailStaysOrdered<T>(xs: seq<T>, before: (T, T) -> bool)
    requires |xs| > 0
    ensures Ordered(xs, before) ==> Ordered(xs[1..], before)
    ensures Separates(xs, before) ==> Separates(xs[1..], before)
  {
  }

  lemma SameCount<T>(xs: seq<T>, ys: seq<T>)
    requires multiset(xs) == multiset(ys)
    ensures |xs| == |ys|
  {
    assert |xs| == |multiset(xs)| == |multiset(ys)| == |ys|;
  }

  /** Two orderings of the same members that the comparison tells apart are the same ordering. */
  lemma {:induction false} OrderedOnce<T>(xs: seq<T>, ys: seq<T>, before: (T, T) -> bool)
    requires multiset(xs) == multiset(ys)
    requires Ordered(xs, before) && Ordered(ys, before) && Separates(xs, before)
    ensures xs == ys
  {
    SameCount(xs, ys);
    if |xs| > 0 {
      FirstIsLeast(xs, ys, before);
      RestAfterSame(xs, ys);
      TailStaysOrdered(xs, before);
      TailStaysOrdered(ys, before);
      OrderedOnce(xs[1..], ys[1..], before);
      assert xs == [xs[0]] + xs[1..] && ys == [ys[0]] + ys[1..];
    }
  }
}
