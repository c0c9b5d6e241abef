/** A stable sort by a "comes strictly before" relation, the behaviour the
    page relies on when it calls `Array.prototype.sort` with a comparator:
    given as a function on sequences and as an in-place insertion sort on
    an array. */
module Sorting {

  /** The relation a consistent comparator describes: irreflexive,
      asymmetric and negatively transitive. */
  ghost predicate StrictWeakOrder<T(!new)>(before: (T, T) -> bool)
  {
    && (forall a :: !before(a, a))
    && (forall a, b :: before(a, b) ==> !before(b, a))
    && (forall a, b, c :: before(a, c) ==> before(a, b) || before(b, c))
  }

  /** Records with the same key are never ordered strictly. */
  ghost predicate Separates<T(!new), K>(before: (T, T) -> bool, keyOf: T -> K)
  {
    forall a, b :: before(a, b) ==> keyOf(a) != keyOf(b)
  }

  /** No later element comes strictly before an earlier one. */
  ghost predicate Sorted<T>(s: seq<T>, before: (T, T) -> bool)
  {
    forall i, j :: 0 <= i < j < |s| ==> !before(s[j], s[i])
  }

  /** The elements of s whose key is k, in their order in s. */
  function WithKey<T, K(==)>(s: seq<T>, keyOf: T -> K, k: K): seq<T>
  {
    if s == [] then []
    else (if keyOf(s[0]) == k then [s[0]] else []) + WithKey(s[1..], keyOf, k)
  }

  /** Stability: the elements of every key keep their relative order. */
  ghost predicate StableBy<T, K(!new)>(input: seq<T>, output: seq<T>, keyOf: T -> K)
  {
    forall k :: WithKey(output, keyOf, k) == WithKey(input, keyOf, k)
  }

  lemma {:induction false} WithKeyAppend<T, K>(s: seq<T>, t: seq<T>, keyOf: T -> K, k: K)
    ensures WithKey(s + t, keyOf, k) == WithKey(s, keyOf, k) + WithKey(t, keyOf, k)
  {
    if s == [] {
      assert s + t == t;
    } else {
      var head := if keyOf(s[0]) == k then [s[0]] else [];
      assert (s + t)[0] == s[0];
      assert (s + t)[1..] == s[1..] + t;
      calc {
        WithKey(s + t, keyOf, k);
        head + WithKey(s[1..] + t, keyOf, k);
        { WithKeyAppend(s[1..], t, keyOf, k); }
        head + (WithKey(s[1..], keyOf, k) + WithKey(t, keyOf, k));
      }
    }
  }

  /** Inserts x into t from the right: x moves left past every element it
      comes strictly before, and stops behind the first one it does not. */
  function InsertLast<T>(x: T, t: seq<T>, before: (T, T) -> bool): seq<T>
  {
    if t == [] then [x]
    else if before(x, t[|t| - 1]) then InsertLast(x, t[..|t| - 1], before) + [t[|t| - 1]]
    else t + [x]
  }

  /** Stable insertion sort: sort all but the last element, then insert it. */
  function Sort<T>(s: seq<T>, before: (T, T) -> bool): seq<T>
  {
    if s == [] then [] else InsertLast(s[|s| - 1], Sort(s[..|s| - 1], before), before)
  }

  lemma {:induction false} InsertLastPermutes<T>(x: T, t: seq<T>, before: (T, T) -> bool)
    ensures multiset(InsertLast(x, t, before)) == multiset(t) + multiset{x}
  {
    if t != [] && before(x, t[|t| - 1]) {
      InsertLastPermutes(x, t[..|t| - 1], before);
      assert t == t[..|t| - 1] + [t[|t| - 1]];
    }
  }

  /** The sort rearranges its input and nothing more. */
  lemma {:induction false} SortPermutes<T>(s: seq<T>, before: (T, T) -> bool)
    ensures multiset(Sort(s, before)) == multiset(s)
  {
    if s != [] {
      SortPermutes(s[..|s| - 1], before);
      InsertLastPermutes(s[|s| - 1], Sort(s[..|s| - 1], before), before);
      assert s == s[..|s| - 1] + [s[|s| - 1]];
    }
  }

  lemma {:induction false} InsertLastSorted<T(!new)>(x: T, t: seq<T>, before: (T, T) -> bool)
    requires StrictWeakOrder(before)
    requires Sorted(t, before)
    ensures Sorted(InsertLast(x, t, before), before)
  {
    if t != [] {
      var init, last := t[..|t| - 1], t[|t| - 1];
      if before(x, last) {
        InsertLastSorted(x, init, before);
        var u := InsertLast(x, init, before);
        InsertLastPermutes(x, init, before);
        forall i | 0 <= i < |u|
          ensures !before(last, u[i])
        {
          assert u[i] in multiset(u);
          if u[i] != x {
            assert u[i] in multiset(init);
            var k :| 0 <= k < |init| && init[k] == u[i];
            assert t[k] == u[i];
          }
        }
      }
    }
  }

  lemma {:induction false} InsertLastStable<T(!new), K>(x: T, t: seq<T>, before: (T, T) -> bool, keyOf: T -> K, k: K)
    requires Separates(before, keyOf)
    ensures WithKey(InsertLast(x, t, before), keyOf, k) == WithKey(t + [x], keyOf, k)
  {
    if t != [] {
      var init, last := t[..|t| - 1], t[|t| - 1];
      if before(x, last) {
        InsertLastStable(x, init, before, keyOf, k);
        WithKeyAppend(InsertLast(x, init, before), [last], keyOf, k);
        WithKeyAppend(init, [x], keyOf, k);
        assert t + [x] == init + [last] + [x];
        WithKeyAppend(init + [last], [x], keyOf, k);
        WithKeyAppend(init, [last], keyOf, k);
      }
    }
  }

  lemma {:induction false} SortSorted<T(!new)>(s: seq<T>, before: (T, T) -> bool)
    requires StrictWeakOrder(before)
    ensures Sorted(Sort(s, before), before)
  {
    if s != [] {
      SortSorted(s[..|s| - 1], before);
      InsertLastSorted(s[|s| - 1], Sort(s[..|s| - 1], before), before);
    }
  }

  lemma {:induction false} SortStableFor<T(!new), K>(s: seq<T>, before: (T, T) -> bool, keyOf: T -> K, k: K)
    requires Separates(before, keyOf)
    ensures WithKey(Sort(s, before), keyOf, k) == WithKey(s, keyOf, k)
  {
    if s != [] {
      var init, last := s[..|s| - 1], s[|s| - 1];
      SortStableFor(init, before, keyOf, k);
      InsertLastStable(last, Sort(init, before), before, keyOf, k);
      WithKeyAppend(Sort(init, before), [last], keyOf, k);
      WithKeyAppend(init, [last], keyOf, k);
      assert s == init + [last];
    }
  }

  /** The sort keeps the relative order of elements with equal keys. */
  lemma SortStable<T(!new), K(!new)>(s: seq<T>, before: (T, T) -> bool, keyOf: T -> K)
    requires Separates(before, keyOf)
    ensures StableBy(s, Sort(s, before), keyOf)
  {
    forall k
      ensures WithKey(Sort(s, before), keyOf, k) == WithKey(s, keyOf, k)
    {
      SortStableFor(s, before, keyOf, k);
    }
  }

  /** An already sorted sequence is left as it is. */
  lemma {:induction false} SortOfSorted<T>(s: seq<T>, before: (T, T) -> bool)
    requires Sorted(s, before)
    ensures Sort(s, before) == s
  {
    if s != [] {
      var init, last := s[..|s| - 1], s[|s| - 1];
      assert Sorted(init, before) by {
        forall i, j | 0 <= i < j < |init|
          ensures !before(init[j], init[i])
        {
          assert init[i] == s[i] && init[j] == s[j];
        }
      }
      SortOfSorted(init, before);
      if |init| > 0 {
        assert !before(last, init[|init| - 1]);
      }
      assert s == init + [last];
    }
  }

  /** Sorting twice is sorting once. */
  lemma SortIdempotent<T(!new)>(s: seq<T>, before: (T, T) -> bool)
    requires StrictWeakOrder(before)
    ensures Sort(Sort(s, before), before) == Sort(s, before)
  {
    SortSorted(s, before);
    SortOfSorted(Sort(s, before), before);
  }

  /** Where x stops: behind the last element it does not come before, ahead
      of the run of elements it does. */
  lemma {:induction false} InsertLastSplice<T>(x: T, t: seq<T>, j: nat, before: (T, T) -> bool)
    requires j <= |t|
    requires j == 0 || !before(x, t[j - 1])
    requires forall k :: j <= k < |t| ==> before(x, t[k])
    ensures InsertLast(x, t, before) == t[..j] + [x] + t[j..]
  {
    if j < |t| {
      var init := t[..|t| - 1];
      assert before(x, t[|t| - 1]);
      assert InsertLast(x, t, before) == InsertLast(x, init, before) + [t[|t| - 1]];
      InsertLastSplice(x, init, j, before);
      assert init[..j] == t[..j];
      assert init[j..] + [t[|t| - 1]] == t[j..];
    } else {
      assert t[..j] == t;
    }
  }

  lemma SortSnoc<T>(s: seq<T>, i: nat, before: (T, T) -> bool)
    requires i < |s|
    ensures Sort(s[..i + 1], before) == InsertLast(s[i], Sort(s[..i], before), before)
  {
    assert s[..i + 1][..i] == s[..i];
  }

  /** Shifts a[j..i] one place right, where j is the leftmost position such
      that x comes strictly before every element of old a[j..i]. */
  method ShiftPast<T>(a: array<T>, i: nat, x: T, before: (T, T) -> bool) returns (j: nat)
    requires i < a.Length
    modifies a
    ensures j <= i
    ensures j == 0 || !before(x, old(a[j - 1]))
    ensures forall k :: j <= k < i ==> before(x, old(a[k]))
    ensures forall k :: 0 <= k < j ==> a[k] == old(a[k])
    ensures forall k :: j < k <= i ==> a[k] == old(a[k - 1])
    ensures forall k :: i < k < a.Length ==> a[k] == old(a[k])
  {
    j := i;
    while j > 0 && before(x, a[j - 1])
      invariant 0 <= j <= i
      invariant forall k :: 0 <= k < j ==> a[k] == old(a[k])
      invariant forall k :: j < k <= i ==> a[k] == old(a[k - 1])
      invariant forall k :: i < k < a.Length ==> a[k] == old(a[k])
      invariant forall k :: j <= k < i ==> before(x, old(a[k]))
    {
      a[j] := a[j - 1];
      j := j - 1;
    }
  }

  /** One step of the in-place sort: with a[..i] sorted, a[i] is moved left
      past every element it comes strictly before. */
  method InsertInPlace<T>(a: array<T>, i: nat, before: (T, T) -> bool)
    requires i < a.Length
    modifies a
    ensures a[..i + 1] == InsertLast(old(a[i]), old(a[..i]), before)
    ensures forall k :: i < k < a.Length ==> a[k] == old(a[k])
  {
    ghost var sorted := a[..i];
    var x := a[i];
    var j := ShiftPast(a, i, x, before);
    InsertLastSplice(x, sorted, j, before);
    a[j] := x;
    ghost var spliced := sorted[..j] + [x] + sorted[j..];
    forall k | 0 <= k <= i
      ensures a[k] == spliced[k]
    {
      if k > j {
        assert spliced[k] == sorted[k - 1];
      }
    }
    assert a[..i + 1] == spliced;
  }

  /** The stable insertion sort run in place on an array. */
  method SortInPlace<T>(a: array<T>, before: (T, T) -> bool)
    modifies a
    ensures a[..] == Sort(old(a[..]), before)
  {
    ghost var input := a[..];
    var i := 0;
    while i < a.Length
      invariant 0 <= i <= a.Length
      invariant a[..i] == Sort(input[..i], before)
      invariant forall k :: i <= k < a.Length ==> a[k] == input[k]
    {
      InsertInPlace(a, i, before);
      SortSnoc(input, i, before);
      i := i + 1;
    }
    assert a[..] == a[..a.Length];
    assert input == input[..a.Length];
  }
}
