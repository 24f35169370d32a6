/** The two nested exchange loops of key.go's sortKeys, over any ordering. */
module ExchangeSort {

  type Before<!T> = (T, T) -> bool

  function Exchange<T>(s: seq<T>, i: nat, j: nat): (r: seq<T>)
    requires i < |s| && j < |s|
    ensures |r| == |s|
  {
    s[i := s[j]][j := s[i]]
  }

  /** The smaller of the two elements goes to the pivot at i. */
  function Smaller<T>(lt: Before<T>, s: seq<T>, i: nat, j: nat): (r: seq<T>)
    requires i < |s| && j < |s|
    ensures |r| == |s|
  {
    if lt(s[j], s[i]) then Exchange(s, i, j) else s
  }

  /** The list once the inner loop with the pivot at i has reached j. */
  function Swept<T>(lt: Before<T>, s: seq<T>, i: nat, j: nat): (r: seq<T>)
    requires i < j <= |s|
    ensures |r| == |s|
  {
    if j == i + 1 then s else Smaller(lt, Swept(lt, s, i, j - 1), i, j - 1)
  }

  /** The list after i rounds of the outer loop. */
  function Rounds<T>(lt: Before<T>, s: seq<T>, i: nat): (r: seq<T>)
    requires i <= |s|
    ensures |r| == |s|
  {
    if i == 0 then s else Swept(lt, Rounds(lt, s, i - 1), i - 1, |s|)
  }

  /** The outer loop, in place. */
  method SortInPlace<T>(lt: Before<T>, a: array<T>)
    modifies a
    ensures a[..] == Rounds(lt, old(a[..]), a.Length)
  {
    for i := 0 to a.Length
      invariant a[..] == Rounds(lt, old(a[..]), i)
    {
      SweepInPlace(lt, a, i);
    }
  }

  /** The inner loop: exchange the pivot with every smaller element behind it. */
  method SweepInPlace<T>(lt: Before<T>, a: array<T>, i: nat)
    requires i < a.Length
    modifies a
    ensures a[..] == Swept(lt, old(a[..]), i, a.Length)
  {
    for j := i + 1 to a.Length
      invariant a[..] == Swept(lt, old(a[..]), i, j)
    {
      if lt(a[j], a[i]) {
        ghost var s := a[..];
        a[i], a[j] := a[j], a[i];
        assert a[..] == Exchange(s, i, j);
      }
    }
  }

  // ---------------------------------------------------------------- it sorts

  /** lt is asymmetric, and "not after" is transitive. */
  ghost predicate Ordering<T(!new)>(lt: Before<T>) {
    && (forall x, y :: lt(x, y) ==> !lt(y, x))
    && (forall x, y, z :: !lt(y, x) && !lt(z, y) ==> !lt(z, x))
  }

  predicate Sorted<T>(lt: Before<T>, s: seq<T>) {
    forall i, j :: 0 <= i < j < |s| ==> !lt(s[j], s[i])
  }

  /** The first n positions are in final order: sorted, and not after anything behind them. */
  predicate Placed<T>(lt: Before<T>, s: seq<T>, n: nat)
    requires n <= |s|
  {
    forall i, j :: 0 <= i < n && i < j < |s| ==> !lt(s[j], s[i])
  }

  /** Nothing between the pivot and j is smaller than the pivot. */
  predicate Least<T>(lt: Before<T>, s: seq<T>, i: nat, j: nat)
    requires i < j <= |s|
  {
    forall m :: i < m < j ==> !lt(s[m], s[i])
  }

  lemma ExchangePermutes<T>(s: seq<T>, i: nat, j: nat)
    requires i < |s| && j < |s|
    ensures multiset(Exchange(s, i, j)) == multiset(s)
  {
  }

  lemma {:induction false} SweptPermutes<T>(lt: Before<T>, s: seq<T>, i: nat, j: nat)
    requires i < j <= |s|
    ensures multiset(Swept(lt, s, i, j)) == multiset(s)
  {
    if j > i + 1 {
      SweptPermutes(lt, s, i, j - 1);
      ExchangePermutes(Swept(lt, s, i, j - 1), i, j - 1);
    }
  }

  /** One exchange keeps the placed prefix and leaves the new pivot least so far. */
  lemma ExchangePlaces<T(!new)>(lt: Before<T>, s: seq<T>, i: nat, j: nat)
    requires i < j < |s| && Ordering(lt) && Placed(lt, s, i) && Least(lt, s, i, j) && lt(s[j], s[i])
    ensures Placed(lt, Exchange(s, i, j), i) && Least(lt, Exchange(s, i, j), i, j + 1)
  {
    var t := Exchange(s, i, j);
    forall m | i < m < j + 1
      ensures !lt(t[m], t[i])
    {
      assert m < j ==> !lt(s[m], s[i]) && !lt(s[i], s[j]);
    }
  }

  lemma {:induction false} SweptPlaces<T(!new)>(lt: Before<T>, s: seq<T>, i: nat, j: nat)
    requires i < j <= |s| && Ordering(lt) && Placed(lt, s, i)
    ensures Placed(lt, Swept(lt, s, i, j), i) && Least(lt, Swept(lt, s, i, j), i, j)
  {
    if j > i + 1 {
      var before := Swept(lt, s, i, j - 1);
      SweptPlaces(lt, s, i, j - 1);
      if lt(before[j - 1], before[i]) {
        ExchangePlaces(lt, before, i, j - 1);
      }
    }
  }

  lemma {:induction false} RoundsPermute<T>(lt: Before<T>, s: seq<T>, i: nat)
    requires i <= |s|
    ensures multiset(Rounds(lt, s, i)) == multiset(s)
  {
    if i > 0 {
      RoundsPermute(lt, s, i - 1);
      SweptPermutes(lt, Rounds(lt, s, i - 1), i - 1, |s|);
    }
  }

  lemma {:induction false} RoundsPlace<T(!new)>(lt: Before<T>, s: seq<T>, i: nat)
    requires i <= |s| && Ordering(lt)
    ensures Placed(lt, Rounds(lt, s, i), i)
  {
    if i > 0 {
      RoundsPlace(lt, s, i - 1);
      SweptPlaces(lt, Rounds(lt, s, i - 1), i - 1, |s|);
    }
  }

  /** All rounds together yield a sorted permutation. */
  lemma RoundsSort<T(!new)>(lt: Before<T>, s: seq<T>)
    requires Ordering(lt)
    ensures multiset(Rounds(lt, s, |s|)) == multiset(s) && Sorted(lt, Rounds(lt, s, |s|))
  {
    RoundsPermute(lt, s, |s|);
    RoundsPlace(lt, s, |s|);
  }

  // ---------------------------------------------------------------- renaming elements the order cannot tell apart

  function Map<T>(f: T -> T, s: seq<T>): (r: seq<T>)
    ensures |r| == |s|
  {
    seq(|s|, i requires 0 <= i < |s| => f(s[i]))
  }

  ghost predicate Preserves<T(!new)>(lt: Before<T>, f: T -> T) {
    forall x, y {:trigger lt(f(x), f(y))} :: lt(f(x), f(y)) == lt(x, y)
  }

  lemma MapExchange<T>(f: T -> T, s: seq<T>, i: nat, j: nat)
    requires i < |s| && j < |s|
    ensures Map(f, Exchange(s, i, j)) == Exchange(Map(f, s), i, j)
  {
  }

  lemma MapSmaller<T(!new)>(lt: Before<T>, f: T -> T, s: seq<T>, i: nat, j: nat)
    requires i < |s| && j < |s| && Preserves(lt, f)
    ensures Smaller(lt, Map(f, s), i, j) == Map(f, Smaller(lt, s, i, j))
  {
    assert lt(f(s[j]), f(s[i])) == lt(s[j], s[i]);
    MapExchange(f, s, i, j);
  }

  lemma {:induction false} MapSwept<T(!new)>(lt: Before<T>, f: T -> T, s: seq<T>, i: nat, j: nat)
    requires i < j <= |s| && Preserves(lt, f)
    ensures Swept(lt, Map(f, s), i, j) == Map(f, Swept(lt, s, i, j))
  {
    if j > i + 1 {
      MapSwept(lt, f, s, i, j - 1);
      MapSmaller(lt, f, Swept(lt, s, i, j - 1), i, j - 1);
    }
  }

  /** Sorting commutes with a renaming that keeps every comparison. */
  lemma {:induction false} MapRounds<T(!new)>(lt: Before<T>, f: T -> T, s: seq<T>, i: nat)
    requires i <= |s| && Preserves(lt, f)
    ensures Rounds(lt, Map(f, s), i) == Map(f, Rounds(lt, s, i))
  {
    if i > 0 {
      MapRounds(lt, f, s, i - 1);
      MapSwept(lt, f, Rounds(lt, s, i - 1), i - 1, |s|);
    }
  }
}
