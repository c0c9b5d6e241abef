/** The view's filter step: a record is kept when it is not before the
    `dateFrom` bound, not after the `dateTo` bound, and, when the query is
    non-empty, some field's lower-cased string contains the lower-cased query. */
module Filtering {
  import opened Wrappers
  import opened Records

  /** The applied (or draft) filter settings. Dates are timestamps in
      milliseconds; None is an unset calendar. */
  datatype Filters = Filters(dateFrom: Option<int>, dateTo: Option<int>, query: string)

  const NoFilters := Filters(None, None, "")

  /** `new Date(s)` on a string: a timestamp, or None for an invalid date. */
  type DateParser = string -> Option<int>

  /** The largest magnitude of a valid JavaScript Date timestamp. */
  const MaxTimestamp: int := 8_640_000_000_000_000

  /** `new Date(item.date)`: an absent field gives an invalid date, null gives
      the epoch, a number is taken as a timestamp and a string is parsed. */
  function ItemDate(r: Record, parse: DateParser): Option<int>
  {
    if "date" !in r then None
    else match r["date"]
      case Null => Some(0)
      case Num(n) => if -MaxTimestamp <= n <= MaxTimestamp then Some(n) else None
      case Str(s) => parse(s)
  }

  /** The filter step runs only when one of the three settings is truthy. */
  predicate FiltersActive(f: Filters)
  {
    f.dateFrom.Some? || f.dateTo.Some? || f.query != ""
  }

  /** `Object.values(item).some(val => String(val).toLowerCase().includes(q))`. */
  predicate MatchesQuery(r: Record, query: string)
  {
    exists k | k in r :: Contains(Lower(ValueString(r[k])), Lower(query))
  }

  /** The per-record predicate, in the source's branch order. Comparisons with
      an invalid date are false, as comparisons with NaN are. */
  predicate Keep(r: Record, f: Filters, parse: DateParser)
  {
    var d := ItemDate(r, parse);
    if f.dateFrom.Some? && d.Some? && d.value < f.dateFrom.value then false
    else if f.dateTo.Some? && d.Some? && d.value > f.dateTo.value then false
    else if f.query != "" then MatchesQuery(r, f.query)
    else true
  }

  /** `processData.filter(keep)`. */
  function FilterSeq(s: seq<Record>, f: Filters, parse: DateParser): (r: seq<Record>)
    ensures |r| <= |s|
    ensures forall x :: x in r <==> x in s && Keep(x, f, parse)
  {
    if s == [] then []
    else (if Keep(s[0], f, parse) then [s[0]] else []) + FilterSeq(s[1..], f, parse)
  }

  /** t is s with some elements left out, the rest in their order. */
  predicate IsSubsequence<T(==)>(t: seq<T>, s: seq<T>)
  {
    if t == [] then true
    else if s == [] then false
    else (t[0] == s[0] && IsSubsequence(t[1..], s[1..])) || IsSubsequence(t, s[1..])
  }

  /** A record is kept iff it passes all three tests: the early returns on
      the date bounds make the filter a conjunction. */
  lemma KeepIsConjunction(r: Record, f: Filters, parse: DateParser)
    ensures var d := ItemDate(r, parse);
      Keep(r, f, parse) <==>
        && !(f.dateFrom.Some? && d.Some? && d.value < f.dateFrom.value)
        && !(f.dateTo.Some? && d.Some? && d.value > f.dateTo.value)
        && (f.query == "" || MatchesQuery(r, f.query))
  {
  }

  /** An invalid date compares false against both bounds, so it is never
      excluded by them: only the query decides. */
  lemma InvalidDateNeverExcluded(r: Record, f: Filters, parse: DateParser)
    requires ItemDate(r, parse).None?
    ensures Keep(r, f, parse) <==> (f.query == "" || MatchesQuery(r, f.query))
  {
  }

  /** Without active settings every record is kept. */
  lemma InactiveKeepsAll(r: Record, f: Filters, parse: DateParser)
    requires !FiltersActive(f)
    ensures Keep(r, f, parse)
  {
  }

  /** The filter keeps the order of the records it keeps. */
  lemma {:induction false} FilterIsSubsequence(s: seq<Record>, f: Filters, parse: DateParser)
    ensures IsSubsequence(FilterSeq(s, f, parse), s)
  {
    if s != [] {
      FilterIsSubsequence(s[1..], f, parse);
      var t := FilterSeq(s, f, parse);
      if Keep(s[0], f, parse) {
        assert t[0] == s[0] && t[1..] == FilterSeq(s[1..], f, parse);
      } else {
        assert t == FilterSeq(s[1..], f, parse);
        SkipHead(t, s);
      }
    }
  }

  lemma SkipHead<T>(t: seq<T>, s: seq<T>)
    requires s != [] && IsSubsequence(t, s[1..])
    ensures IsSubsequence(t, s)
  {
  }

  /** The filter removes records and duplicates none. */
  lemma {:induction false} FilterSubMultiset(s: seq<Record>, f: Filters, parse: DateParser)
    ensures multiset(FilterSeq(s, f, parse)) <= multiset(s)
  {
    if s != [] {
      FilterSubMultiset(s[1..], f, parse);
      assert s == [s[0]] + s[1..];
    }
  }

  /** The filter keeps every copy of a record that passes and no copy of
      one that fails. */
  lemma {:induction false} FilterCount(s: seq<Record>, f: Filters, parse: DateParser)
    ensures forall x :: multiset(FilterSeq(s, f, parse))[x] == if Keep(x, f, parse) then multiset(s)[x] else 0
  {
    if s != [] {
      FilterCount(s[1..], f, parse);
      assert s == [s[0]] + s[1..];
    }
  }

  /** A filter that keeps every record returns its input unchanged. */
  lemma {:induction false} FilterKeepingAll(s: seq<Record>, f: Filters, parse: DateParser)
    requires forall x :: x in s ==> Keep(x, f, parse)
    ensures FilterSeq(s, f, parse) == s
  {
    if s != [] {
      FilterKeepingAll(s[1..], f, parse);
      assert s == [s[0]] + s[1..];
    }
  }

  /** The query is matched against field values, not field names, and
      without regard to case: "bill" does not match a record whose only
      mention of it is the field name "T-Bill", and does match the value
      "T-Bill". */
  lemma QuerySearchesValues()
    ensures !MatchesQuery(map["date" := Str("2024-01-01"), "T-Bill" := Num(100)], "bill")
    ensures MatchesQuery(map["date" := Str("2024-01-01"), "kind" := Str("T-Bill")], "bill")
  {
    var r := map["date" := Str("2024-01-01"), "T-Bill" := Num(100)];
    assert Lower("bill") == "bill";
    forall k | k in r
      ensures !Contains(Lower(ValueString(r[k])), "bill")
    {
      var h := Lower(ValueString(r[k]));
      if k == "date" {
        assert h == "2024-01-01";
      } else {
        LowerOfDecimal(100);
        assert forall i :: 0 <= i < |h| ==> IsDigit(h[i]);
      }
      if Contains(h, "bill") {
        ContainsFirstChar(h, "bill");
      }
    }
    var q := map["date" := Str("2024-01-01"), "kind" := Str("T-Bill")];
    assert Lower("T-Bill") == "t-bill";
    assert OccursAt(Lower(ValueString(q["kind"])), "bill", 2);
  }
}
