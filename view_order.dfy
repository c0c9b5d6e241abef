/** The order the page's table is sorted by: the comparator passed to
    `processData.sort`, and the relation it describes on records. */
module ViewOrder {
  import opened Wrappers
  import opened Records
  import opened Ordering
  import opened Sorting

  datatype Direction = Ascending | Descending

  /** The value a record holds under the sort key; None when it is null or
      undefined. */
  function SortValue(r: Record, key: string): Option<Value>
  {
    if key in r && r[key] != Null then Some(r[key]) else None
  }

  /** The source's comparator: negative puts a first, positive puts b first. */
  function Comparator(a: Record, b: Record, key: string, dir: Direction): int
  {
    var av := Get(a, key);
    var bv := Get(b, key);
    if av.None? || av.value == Null then 1
    else if bv.None? || bv.value == Null then -1
    else if JsLess(av.value, bv.value) then (if dir == Ascending then -1 else 1)
    else if JsLess(bv.value, av.value) then (if dir == Ascending then 1 else -1)
    else 0
  }

  /** `a` comes strictly before `b`: a defined key before a null or undefined
      one, and between defined keys the smaller first when ascending, the
      larger first when descending. */
  predicate Precedes(a: Record, b: Record, key: string, dir: Direction)
  {
    match (SortValue(a, key), SortValue(b, key))
    case (Some(x), None) => true
    case (Some(x), Some(y)) => if dir == Ascending then ValueLess(x, y) else ValueLess(y, x)
    case (None, _) => false
  }

  /** The relation handed to the sort. */
  function Before(key: string, dir: Direction): (Record, Record) -> bool
  {
    (a, b) => Precedes(a, b, key, dir)
  }

  /** The sort key of a record as the stability statement groups records. */
  function KeyOf(key: string): Record -> Option<Value>
  {
    r => SortValue(r, key)
  }

  /** Wherever the comparator is consistent (not both keys missing, and not a
      number against a string) it says exactly what Precedes says. */
  lemma ComparatorAgrees(a: Record, b: Record, key: string, dir: Direction)
    requires SortValue(a, key).Some? || SortValue(b, key).Some?
    requires SortValue(a, key).Some? && SortValue(b, key).Some? ==>
               SameKind(SortValue(a, key).value, SortValue(b, key).value)
    ensures Comparator(a, b, key, dir) < 0 <==> Precedes(a, b, key, dir)
    ensures Comparator(a, b, key, dir) > 0 <==> Precedes(b, a, key, dir)
    ensures Comparator(a, b, key, dir) == 0 <==> SortValue(a, key) == SortValue(b, key)
  {
    var av, bv := SortValue(a, key), SortValue(b, key);
    if av.Some? && bv.Some? {
      var x, y := av.value, bv.value;
      ValueLessTotal(x, y);
      ValueLessIrreflexive(x);
      if ValueLess(x, y) {
        ValueLessAsymmetric(x, y);
      }
      if ValueLess(y, x) {
        ValueLessAsymmetric(y, x);
      }
    }
  }

  lemma PrecedesIrreflexive(a: Record, key: string, dir: Direction)
    ensures !Precedes(a, a, key, dir)
  {
    if SortValue(a, key).Some? {
      ValueLessIrreflexive(SortValue(a, key).value);
    }
  }

  lemma PrecedesAsymmetric(a: Record, b: Record, key: string, dir: Direction)
    requires Precedes(a, b, key, dir)
    ensures !Precedes(b, a, key, dir)
  {
    if SortValue(b, key).Some? {
      var x, y := SortValue(a, key).value, SortValue(b, key).value;
      if dir == Ascending { ValueLessAsymmetric(x, y); } else { ValueLessAsymmetric(y, x); }
    }
  }

  /** If a precedes c, any b precedes c or follows a. */
  lemma PrecedesNegTransitive(a: Record, b: Record, c: Record, key: string, dir: Direction)
    requires Precedes(a, c, key, dir)
    ensures Precedes(a, b, key, dir) || Precedes(b, c, key, dir)
  {
    var av, bv, cv := SortValue(a, key), SortValue(b, key), SortValue(c, key);
    if bv.Some? && cv.Some? {
      var x, y, z := av.value, bv.value, cv.value;
      ValueLessTotal(x, y);
      ValueLessTotal(y, z);
      if dir == Ascending {
        if !ValueLess(x, y) && !ValueLess(y, z) {
          if x == y && y == z { ValueLessIrreflexive(x); }
          if x != y && y == z { ValueLessAsymmetric(x, z); }
          if x == y && y != z { ValueLessAsymmetric(x, z); }
          if x != y && y != z { ValueLessTransitive(z, y, x); ValueLessAsymmetric(x, z); }
        }
      } else {
        if !ValueLess(y, x) && !ValueLess(z, y) {
          if x == y && y == z { ValueLessIrreflexive(x); }
          if x != y && y == z { ValueLessAsymmetric(z, x); }
          if x == y && y != z { ValueLessAsymmetric(z, x); }
          if x != y && y != z { ValueLessTransitive(x, y, z); ValueLessAsymmetric(z, x); }
        }
      }
    }
  }

  /** The relation the page sorts by is a strict weak order, so the sort's
      guarantees apply to it. */
  lemma BeforeIsStrictWeakOrder(key: string, dir: Direction)
    ensures StrictWeakOrder(Before(key, dir))
  {
    var before := Before(key, dir);
    forall a
      ensures !before(a, a)
    {
      PrecedesIrreflexive(a, key, dir);
    }
    forall a, b | before(a, b)
      ensures !before(b, a)
    {
      PrecedesAsymmetric(a, b, key, dir);
    }
    forall a, b, c | before(a, c)
      ensures before(a, b) || before(b, c)
    {
      PrecedesNegTransitive(a, b, c, key, dir);
    }
  }

  /** Records with the same sort value are never ordered strictly. */
  lemma BeforeSeparatesKeys(key: string, dir: Direction)
    ensures Separates(Before(key, dir), KeyOf(key))
  {
    forall a, b | Before(key, dir)(a, b)
      ensures KeyOf(key)(a) != KeyOf(key)(b)
    {
      if SortValue(a, key) == SortValue(b, key) {
        ValueLessIrreflexive(SortValue(a, key).value);
      }
    }
  }

  /** What sorting the view by `key` promises, stated on the records' key
      values: a permutation; every null or undefined key after every defined
      one, in both directions; defined keys ascending or descending; records
      with equal keys in their input order. */
  lemma SortByKeySpec(s: seq<Record>, key: string, dir: Direction)
    ensures var r := Sort(s, Before(key, dir));
      && multiset(r) == multiset(s)
      && (forall i, j :: 0 <= i < j < |r| && SortValue(r[i], key).None? ==> SortValue(r[j], key).None?)
      && (forall i, j :: 0 <= i < j < |r| && SortValue(r[i], key).Some? && SortValue(r[j], key).Some? ==>
            if dir == Ascending then !ValueLess(SortValue(r[j], key).value, SortValue(r[i], key).value)
            else !ValueLess(SortValue(r[i], key).value, SortValue(r[j], key).value))
      && StableBy(s, r, KeyOf(key))
  {
    var r := Sort(s, Before(key, dir));
    SortPermutes(s, Before(key, dir));
    BeforeIsStrictWeakOrder(key, dir);
    SortSorted(s, Before(key, dir));
    BeforeSeparatesKeys(key, dir);
    SortStable(s, Before(key, dir), KeyOf(key));
    forall i, j | 0 <= i < j < |r|
      ensures !Precedes(r[j], r[i], key, dir)
    {
      assert !Before(key, dir)(r[j], r[i]);
    }
  }
}
