/** The chart panel: the selectable metrics, the series it plots, the request
    it sends for a written description, and the state of that request. */
module Chart {
  import opened Wrappers
  import opened Records
  import opened Ordering
  import opened Sorting
  import opened ViewOrder
  import opened Filtering
  import opened Page

  /** The metrics offered by the selector, in declared order. */
  const ChartableKeys: seq<string> := [
    "OMO", "T-Repo", "T-Bill", "OMO+T-Repo", "OMO+T-Repo+T-Bill",
    "OMO-CUM", "T-Repo-CUM", "T-Bill-CUM", "OMO+T-Repo-CUM", "OMO+T-Repo+T-Bill-CUM"
  ]

  const InitialMetric := "OMO"

  /** At most this many points are sent for description. */
  const PayloadLimit: nat := 50

  const FallbackDescription := "Sorry, I was unable to generate a description for this chart."

  /** `{date: item.date, value: item[selectedKey]}`; None is `undefined`. */
  datatype ChartPoint = ChartPoint(date: Option<Value>, value: Option<Value>)

  function PointOf(r: Record, key: string): ChartPoint
  {
    ChartPoint(Get(r, "date"), Get(r, key))
  }

  function Reverse<T>(s: seq<T>): seq<T>
  {
    if s == [] then [] else Reverse(s[1..]) + [s[0]]
  }

  lemma {:induction false} ReverseIndex<T>(s: seq<T>)
    ensures |Reverse(s)| == |s|
    ensures forall i :: 0 <= i < |s| ==> Reverse(s)[i] == s[|s| - 1 - i]
  {
    if s != [] {
      ReverseIndex(s[1..]);
    }
  }

  /** `data.map(item => point).reverse()`: point i comes from record n-1-i;
      the records are not re-sorted by date. */
  function ChartData(data: seq<Record>, key: string): (series: seq<ChartPoint>)
    ensures |series| == |data|
    ensures forall i :: 0 <= i < |data| ==> series[i] == PointOf(data[|data| - 1 - i], key)
  {
    var points := seq(|data|, i requires 0 <= i < |data| => PointOf(data[i], key));
    ReverseIndex(points);
    Reverse(points)
  }

  function Min(a: int, b: int): int
  {
    if a <= b then a else b
  }

  /** `chartData.slice(0, 50)`. */
  function Payload(series: seq<ChartPoint>): seq<ChartPoint>
  {
    series[..Min(PayloadLimit, |series|)]
  }

  /** The chart type sent with the data. */
  function ChartTypeLabel(key: string): string
  {
    "Line chart showing " + key + " over time"
  }

  /** What the description service is asked: the points (serialised to JSON
      by the source) and the chart type. */
  datatype DescriptionRequest = DescriptionRequest(data: seq<ChartPoint>, chartType: string)

  function RequestFor(data: seq<Record>, key: string): DescriptionRequest
  {
    DescriptionRequest(Payload(ChartData(data, key)), ChartTypeLabel(key))
  }

  /** The awaited service call: a description, or a thrown error. */
  datatype ServiceResult = Described(description: string) | ServiceFailed

  /** The text shown after the call settles. */
  function DescriptionAfter(result: ServiceResult): string
  {
    match result
    case Described(text) => text
    case ServiceFailed => FallbackDescription
  }

  /** The selectable metrics are the record's fields after "date", in
      declaration order; "date" is not one of them and the initial one is
      the first. */
  lemma ChartableKeysSpec()
    ensures |ChartableKeys| == 10
    ensures ChartableKeys == RecordFields[1..]
    ensures "date" !in ChartableKeys
    ensures ChartableKeys[0] == InitialMetric
  {
  }

  /** The request carries the first min(50, n) points of the series. Point i
      is record n-1-i, so the request holds the view's last min(50, n)
      records, last first. */
  lemma RequestPayload(data: seq<Record>, key: string)
    ensures var req := RequestFor(data, key);
      && |req.data| == Min(PayloadLimit, |data|)
      && req.data == ChartData(data, key)[..|req.data|]
      && (forall i :: 0 <= i < |req.data| ==> req.data[i] == PointOf(data[|data| - 1 - i], key))
  {
  }

  /** The label names the metric and nothing else: different metrics give
      different labels, and the metric can be read back from the label. */
  lemma ChartTypeLabelSpec(key: string, other: string)
    ensures var text := ChartTypeLabel(key);
      && |text| == |key| + 29
      && text[..19] == "Line chart showing "
      && text[19..19 + |key|] == key
      && text[19 + |key|..] == " over time"
    ensures ChartTypeLabel(key) == ChartTypeLabel(other) ==> key == other
  {
    var text := ChartTypeLabel(key);
    assert text[19..19 + |key|] == key;
    if ChartTypeLabel(key) == ChartTypeLabel(other) {
      assert |key| == |other|;
      assert ChartTypeLabel(other)[19..19 + |other|] == other;
    }
  }

  /** A point whose date is neither null nor undefined. */
  predicate Dated(p: ChartPoint)
  {
    p.date.Some? && p.date.value != Null
  }

  /** Reversing a view sorted by date descending puts undated points first,
      then dates that never decrease in the comparator's order. */
  lemma ChartChronological(view: seq<Record>, key: string)
    requires Sorted(view, Before("date", Descending))
    ensures var s := ChartData(view, key);
      forall i, j :: 0 <= i < j < |s| && Dated(s[i]) ==>
        Dated(s[j]) && !ValueLess(s[j].date.value, s[i].date.value)
  {
    var s := ChartData(view, key);
    var n := |view|;
    forall i, j | 0 <= i < j < |s| && Dated(s[i])
      ensures Dated(s[j]) && !ValueLess(s[j].date.value, s[i].date.value)
    {
      assert !Before("date", Descending)(view[n - 1 - i], view[n - 1 - j]);
    }
  }

  /** With the initial sort (date, descending), whatever the filters, the
      chart's dates never decrease in the comparator's order. */
  lemma InitialViewChartChronological(data: seq<Record>, f: Filters, parse: DateParser, key: string)
    ensures var s := ChartData(Process(data, f, InitialSort, parse), key);
      forall i, j :: 0 <= i < j < |s| && Dated(s[i]) ==>
        Dated(s[j]) && !ValueLess(s[j].date.value, s[i].date.value)
  {
    var filtered := if FiltersActive(f) then FilterSeq(data, f, parse) else data;
    BeforeIsStrictWeakOrder("date", Descending);
    SortSorted(filtered, Before("date", Descending));
    ChartChronological(Process(data, f, InitialSort, parse), key);
  }

  class DataChart {
    var selectedKey: string
    var aiDescription: string
    var isGenerating: bool

    /** The selected metric is always one the selector offers. */
    ghost predicate Valid()
      reads this
    {
      selectedKey in ChartableKeys
    }

    constructor ()
      ensures Valid()
      ensures selectedKey == InitialMetric && aiDescription == "" && !isGenerating
    {
      selectedKey := InitialMetric;
      aiDescription := "";
      isGenerating := false;
    }

    /** The metric selector only offers the chartable keys. */
    method SelectMetric(key: string)
      requires key in ChartableKeys
      modifies this`selectedKey
      ensures Valid() && selectedKey == key
    {
      selectedKey := key;
    }

    /** The generate button's `disabled` flag. */
    predicate GenerateDisabled(data: seq<Record>)
      reads this
    {
      isGenerating || |data| == 0
    }

    /** The synchronous start of `handleGenerateDescription`: the request is
        built and the button is disabled until the call settles. */
    method StartGenerating(data: seq<Record>) returns (request: DescriptionRequest)
      modifies this`isGenerating, this`aiDescription
      ensures isGenerating && aiDescription == ""
      ensures GenerateDisabled(data)
      ensures request == RequestFor(data, selectedKey)
    {
      isGenerating := true;
      aiDescription := "";
      var series := ChartData(data, selectedKey);
      request := DescriptionRequest(series[..Min(PayloadLimit, |series|)], ChartTypeLabel(selectedKey));
    }

    /** The end of `handleGenerateDescription` once the call settles. */
    method FinishGenerating(result: ServiceResult)
      modifies this`isGenerating, this`aiDescription
      ensures !isGenerating
      ensures result.Described? ==> aiDescription == result.description
      ensures result.ServiceFailed? ==> aiDescription == FallbackDescription
    {
      match result {
        case Described(text) =>
          aiDescription := text;
        case ServiceFailed =>
          aiDescription := FallbackDescription;
      }
      isGenerating := false;
    }

    /** `handleGenerateDescription` from start to end. */
    method HandleGenerateDescription(data: seq<Record>, result: ServiceResult) returns (request: DescriptionRequest)
      requires Valid()
      modifies this`isGenerating, this`aiDescription
      ensures Valid()
      ensures request == RequestFor(data, selectedKey)
      ensures request.chartType == ChartTypeLabel(selectedKey) && selectedKey in ChartableKeys
      ensures !isGenerating && aiDescription == DescriptionAfter(result)
    {
      request := StartGenerating(data);
      FinishGenerating(result);
    }
  }
}
