/** The `<` the sort comparator applies to two defined field values: numbers
    compare numerically and strings compare lexicographically, character by
    character (so ISO 8601 dates written in one format compare
    chronologically). */
module Ordering {
  import opened Records

  /** JavaScript's `a < b` on two strings: lexicographic, a proper prefix
      first. Characters are compared by Unicode code point, not by UTF-16
      code unit as JavaScript does; the two agree on text within the Basic
      Multilingual Plane. */
  predicate StrLess(a: string, b: string)
  {
    if b == [] then false
    else if a == [] then true
    else if a[0] != b[0] then a[0] < b[0]
    else StrLess(a[1..], b[1..])
  }

  lemma {:induction false} StrLessIrreflexive(a: string)
    ensures !StrLess(a, a)
  {
    if a != [] {
      StrLessIrreflexive(a[1..]);
    }
  }

  lemma {:induction false} StrLessTransitive(a: string, b: string, c: string)
    requires StrLess(a, b) && StrLess(b, c)
    ensures StrLess(a, c)
  {
    if a != [] && a[0] == b[0] && b[0] == c[0] {
      StrLessTransitive(a[1..], b[1..], c[1..]);
    }
  }

  lemma {:induction false} StrLessTotal(a: string, b: string)
    ensures a == b || StrLess(a, b) || StrLess(b, a)
  {
    if a != [] && b != [] && a[0] == b[0] {
      StrLessTotal(a[1..], b[1..]);
      assert a == [a[0]] + a[1..] && b == [b[0]] + b[1..];
    }
  }

  /** JavaScript's `<` on two defined values of the same kind, as the
      comparator evaluates it. A number compared with a string, which
      JavaScript answers by converting the string to a number, is not
      modelled and yields false both ways. */
  predicate JsLess(x: Value, y: Value)
  {
    match (x, y)
    case (Num(a), Num(b)) => a < b
    case (Str(a), Str(b)) => StrLess(a, b)
    case _ => false
  }

  predicate SameKind(x: Value, y: Value)
  {
    (x.Num? && y.Num?) || (x.Str? && y.Str?)
  }

  /** The order the model sorts defined values by: JsLess within one kind,
      and every number before every string across kinds. */
  predicate ValueLess(x: Value, y: Value)
  {
    if SameKind(x, y) then JsLess(x, y) else x.Num? && y.Str?
  }

  /** ValueLess is a strict total order on the defined (non-null) values. */
  lemma ValueLessIrreflexive(x: Value)
    ensures !ValueLess(x, x)
  {
    if x.Str? {
      StrLessIrreflexive(x.s);
    }
  }

  lemma ValueLessAsymmetric(x: Value, y: Value)
    requires ValueLess(x, y)
    ensures !ValueLess(y, x)
  {
    if x.Str? && y.Str? && StrLess(y.s, x.s) {
      StrLessTransitive(x.s, y.s, x.s);
      StrLessIrreflexive(x.s);
    }
  }

  lemma ValueLessTransitive(x: Value, y: Value, z: Value)
    requires ValueLess(x, y) && ValueLess(y, z)
    ensures ValueLess(x, z)
  {
    if x.Str? && y.Str? && z.Str? {
      StrLessTransitive(x.s, y.s, z.s);
    }
  }

  lemma ValueLessTotal(x: Value, y: Value)
    requires x != Null && y != Null
    ensures x == y || ValueLess(x, y) || ValueLess(y, x)
  {
    if x.Str? && y.Str? {
      StrLessTotal(x.s, y.s);
    }
  }
}
