/** The data-viewer page: its state (loaded records, loading flag, error,
    sort configuration, draft and applied filters), the handlers that change
    it, and the derived view the table and the chart show. */
module Page {
  import opened Wrappers
  import opened Records
  import opened Ordering
  import opened Sorting
  import opened ViewOrder
  import opened Filtering
  import opened Loader

  /** The sort column (None when unset) and direction. */
  datatype SortConfig = SortConfig(key: Option<string>, direction: Direction)

  const InitialSort := SortConfig(Some("date"), Descending)

  /** `handleSort(key)`: descending only when the key is already sorted
      ascending, ascending otherwise. */
  function NextSort(c: SortConfig, key: string): SortConfig
  {
    var direction := if c.key == Some(key) && c.direction == Ascending then Descending else Ascending;
    SortConfig(Some(key), direction)
  }

  /** `if (sortConfig.key)`: an unset or empty key does not sort. */
  predicate SortActive(c: SortConfig)
  {
    c.key.Some? && c.key.value != ""
  }

  /** The records the table and chart show: `data` filtered when a filter
      setting is active, then stably sorted when a sort key is set. */
  function Process(data: seq<Record>, f: Filters, c: SortConfig, parse: DateParser): seq<Record>
  {
    var filtered := if FiltersActive(f) then FilterSeq(data, f, parse) else data;
    if SortActive(c) then Sort(filtered, Before(c.key.value, c.direction)) else filtered
  }

  /** Activating a key makes it the sort key; a new key sorts ascending; the
      current key flips its direction. */
  lemma SortToggle(c: SortConfig, key: string)
    ensures NextSort(c, key).key == Some(key)
    ensures c.key != Some(key) ==> NextSort(c, key).direction == Ascending
    ensures c.key == Some(key) ==> NextSort(c, key).direction != c.direction
  {
  }

  /** Activating one key repeatedly alternates ascending and descending:
      from a different key, three clicks give ascending, descending,
      ascending; from the initial date-descending state one click on "date"
      gives ascending. */
  lemma SortToggleCycle(c: SortConfig, key: string)
    ensures var c1 := NextSort(c, key);
      var c2 := NextSort(c1, key);
      && NextSort(c2, key) == c1
      && c2.key == c1.key && c2.direction != c1.direction
    ensures c.key != Some(key) ==>
      && NextSort(c, key).direction == Ascending
      && NextSort(NextSort(c, key), key).direction == Descending
      && NextSort(NextSort(NextSort(c, key), key), key).direction == Ascending
    ensures NextSort(InitialSort, "date") == SortConfig(Some("date"), Ascending)
  {
  }

  /** Filtering only when a setting is active is the same as filtering always. */
  lemma {:induction false} FilterStepIsFilterSeq(data: seq<Record>, f: Filters, parse: DateParser)
    ensures (if FiltersActive(f) then FilterSeq(data, f, parse) else data) == FilterSeq(data, f, parse)
  {
    if !FiltersActive(f) {
      forall x | x in data
        ensures Keep(x, f, parse)
      {
        InactiveKeepsAll(x, f, parse);
      }
      FilterKeepingAll(data, f, parse);
    }
  }

  /** With no filter setting and no sort key the view is `data` itself. */
  lemma ProcessIdentity(data: seq<Record>, f: Filters, c: SortConfig, parse: DateParser)
    requires !FiltersActive(f) && !SortActive(c)
    ensures Process(data, f, c, parse) == data
  {
  }

  /** The view holds exactly the records of `data` that pass the filter,
      each as often as in `data`; when no filter setting is active
      it is a rearrangement of `data`. */
  lemma ProcessContents(data: seq<Record>, f: Filters, c: SortConfig, parse: DateParser)
    ensures forall x :: x in Process(data, f, c, parse) <==> x in data && Keep(x, f, parse)
    ensures forall x :: multiset(Process(data, f, c, parse))[x] == if Keep(x, f, parse) then multiset(data)[x] else 0
    ensures multiset(Process(data, f, c, parse)) <= multiset(data)
    ensures |Process(data, f, c, parse)| <= |data|
    ensures !FiltersActive(f) ==> multiset(Process(data, f, c, parse)) == multiset(data)
  {
    FilterStepIsFilterSeq(data, f, parse);
    var filtered := FilterSeq(data, f, parse);
    FilterSubMultiset(data, f, parse);
    FilterCount(data, f, parse);
    if SortActive(c) {
      SortPermutes(filtered, Before(c.key.value, c.direction));
      assert forall x :: x in Process(data, f, c, parse) <==> x in multiset(filtered);
    }
    assert |Process(data, f, c, parse)| == |multiset(Process(data, f, c, parse))|;
  }

  /** Without a sort key the view keeps the records of `data` in their order. */
  lemma ProcessUnsorted(data: seq<Record>, f: Filters, c: SortConfig, parse: DateParser)
    requires !SortActive(c)
    ensures IsSubsequence(Process(data, f, c, parse), data)
  {
    FilterStepIsFilterSeq(data, f, parse);
    FilterIsSubsequence(data, f, parse);
  }

  /** With a sort key, the view is the filtered records with null or undefined
      keys last, defined keys in the chosen direction, and equal keys in the
      order `data` has them. */
  lemma ProcessSorted(data: seq<Record>, f: Filters, c: SortConfig, parse: DateParser)
    requires SortActive(c)
    ensures var r := Process(data, f, c, parse);
      var key := c.key.value;
      && (forall i, j :: 0 <= i < j < |r| && SortValue(r[i], key).None? ==> SortValue(r[j], key).None?)
      && (forall i, j :: 0 <= i < j < |r| && SortValue(r[i], key).Some? && SortValue(r[j], key).Some? ==>
            if c.direction == Ascending then !ValueLess(SortValue(r[j], key).value, SortValue(r[i], key).value)
            else !ValueLess(SortValue(r[i], key).value, SortValue(r[j], key).value))
      && StableBy(FilterSeq(data, f, parse), r, KeyOf(key))
  {
    FilterStepIsFilterSeq(data, f, parse);
    SortByKeySpec(FilterSeq(data, f, parse), c.key.value, c.direction);
  }

  class DataViewerPage {
    var data: seq<Record>
    var isLoading: bool
    var error: Option<string>
    var sortConfig: SortConfig
    var filters: Filters
    var activeFilters: Filters

    /** The state at first render, before the first fetch completes. */
    constructor ()
      ensures data == [] && isLoading && error.None?
      ensures sortConfig == InitialSort
      ensures filters == NoFilters && activeFilters == NoFilters
    {
      data := [];
      isLoading := true;
      error := None;
      sortConfig := InitialSort;
      filters := NoFilters;
      activeFilters := NoFilters;
    }

    /** The synchronous start of `fetchData`. */
    method StartFetch()
      modifies this`isLoading, this`error
      ensures isLoading && error.None?
    {
      isLoading := true;
      error := None;
    }

    /** The rest of `fetchData`, once the outcome is known: the records on
      success, an empty dataset and the message on failure, and the loading
      flag cleared on every path. */
    method FinishFetch(outcome: FetchOutcome)
      modifies this`isLoading, this`error, this`data
      ensures !isLoading
      ensures Load(outcome).Success? ==> data == Load(outcome).value && error == old(error)
      ensures Load(outcome).Failure? ==> data == [] && error == Some(Load(outcome).error)
    {
      match Load(outcome) {
        case Success(records) =>
          data := records;
        case Failure(message) =>
          error := Some(message);
          data := [];
      }
      isLoading := false;
    }

    /** `fetchData` from start to end: sort and filter settings are kept. */
    method FetchData(outcome: FetchOutcome)
      modifies this`isLoading, this`error, this`data
      ensures !isLoading
      ensures data == (if Load(outcome).Success? then Load(outcome).value else [])
      ensures error == (if Load(outcome).Success? then None else Some(Load(outcome).error))
    {
      StartFetch();
      FinishFetch(outcome);
    }

    method HandleSort(key: string)
      modifies this`sortConfig
      ensures sortConfig == NextSort(old(sortConfig), key)
    {
      var direction := Ascending;
      if sortConfig.key == Some(key) && sortConfig.direction == Ascending {
        direction := Descending;
      }
      sortConfig := SortConfig(Some(key), direction);
    }

    method HandleApplyFilters()
      modifies this`activeFilters
      ensures activeFilters == filters
    {
      activeFilters := filters;
    }

    /** Editing the draft: only `filters` changes, so neither the applied
        filters nor the view do. */
    method SetDraftDateFrom(date: Option<int>)
      modifies this`filters
      ensures filters == old(filters).(dateFrom := date)
      ensures activeFilters == old(activeFilters)
    {
      filters := filters.(dateFrom := date);
    }

    method SetDraftDateTo(date: Option<int>)
      modifies this`filters
      ensures filters == old(filters).(dateTo := date)
      ensures activeFilters == old(activeFilters)
    {
      filters := filters.(dateTo := date);
    }

    method SetDraftQuery(query: string)
      modifies this`filters
      ensures filters == old(filters).(query := query)
      ensures activeFilters == old(activeFilters)
    {
      filters := filters.(query := query);
    }

    /** `filteredAndSortedData`: the filter step on the records, then the
        sort in place on a fresh array, so `data` itself is never reordered. */
    method FilteredAndSortedData(parse: DateParser) returns (view: seq<Record>)
      ensures view == Process(data, activeFilters, sortConfig, parse)
    {
      var processData := data;
      if FiltersActive(activeFilters) {
        processData := FilterSeq(processData, activeFilters, parse);
      }
      if SortActive(sortConfig) {
        var copy := new Record[|processData|](i requires 0 <= i < |processData| => processData[i]);
        assert copy[..] == processData;
        SortInPlace(copy, Before(sortConfig.key.value, sortConfig.direction));
        processData := copy[..];
      }
      view := processData;
    }
  }
}
