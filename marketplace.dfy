/** The marketplace page: the search/type filter, the four sort orders of the
    dataset list, the type icon and colour, the tag chips and the author label. */
module Marketplace {
  import opened Wrappers
  import opened Text

  /** A listed dataset. `createdAt` is the timestamp the page obtains by parsing
      the creation date; `price` may be absent. */
  datatype Dataset = Dataset(
    id: string,
    name: string,
    description: string,
    tags: seq<string>,
    datasetType: string,
    price: Option<real>,
    size: int,
    createdAt: int,
    author: string)

  /** `price || 0`. */
  function PriceOrZero(d: Dataset): real {
    match d.price
    case None => 0.0
    case Some(p) => p
  }

  // ---------------------------------------------------------------------------
  // Filter

  /** Some tag contains the (already lower-cased) term, case-insensitively. */
  predicate SomeTagIncludes(tags: seq<string>, loweredTerm: string) {
    exists tag :: tag in tags && Includes(Lower(tag), loweredTerm)
  }

  /** Name, description or some tag contains the search term, ignoring case. */
  predicate MatchesSearch(d: Dataset, searchTerm: string) {
    var term := Lower(searchTerm);
    || Includes(Lower(d.name), term)
    || Includes(Lower(d.description), term)
    || SomeTagIncludes(d.tags, term)
  }

  /** The type filter: `'all'` accepts every type. */
  predicate MatchesFilter(d: Dataset, selectedFilter: string) {
    selectedFilter == "all" || d.datasetType == selectedFilter
  }

  predicate Matches(d: Dataset, searchTerm: string, selectedFilter: string) {
    MatchesSearch(d, searchTerm) && MatchesFilter(d, selectedFilter)
  }

  /** The dataset itself if it matches both, else nothing. */
  function KeepMatching(d: Dataset, searchTerm: string, selectedFilter: string): seq<Dataset> {
    if Matches(d, searchTerm, selectedFilter) then [d] else []
  }

  /** `datasets.filter(...)`: keeps, in order, the datasets that match both. */
  function Filter(ds: seq<Dataset>, searchTerm: string, selectedFilter: string): (r: seq<Dataset>)
    ensures |r| <= |ds|
    ensures forall i :: 0 <= i < |r| ==> Matches(r[i], searchTerm, selectedFilter)
  {
    if ds == [] then []
    else KeepMatching(ds[0], searchTerm, selectedFilter) + Filter(ds[1..], searchTerm, selectedFilter)
  }

  /** Each dataset occurs in the filtered list as often as in the input if it
      matches both, and not at all otherwise. */
  lemma {:induction false} FilterMultiset(ds: seq<Dataset>, searchTerm: string, selectedFilter: string)
    ensures forall d :: multiset(Filter(ds, searchTerm, selectedFilter))[d]
                        == if Matches(d, searchTerm, selectedFilter) then multiset(ds)[d] else 0
  {
    if ds != [] {
      FilterMultiset(ds[1..], searchTerm, selectedFilter);
      assert ds == [ds[0]] + ds[1..];
    }
  }

  // ---------------------------------------------------------------------------
  // Sort

  /** The page's comparator for the selected sort key; any unrecognised key
      falls back to newest first. A negative value puts `a` before `b`. */
  function Compare(sortBy: string, a: Dataset, b: Dataset): real {
    if sortBy == "price-low" then PriceOrZero(a) - PriceOrZero(b)
    else if sortBy == "price-high" then PriceOrZero(b) - PriceOrZero(a)
    else if sortBy == "size" then (b.size - a.size) as real
    else (b.createdAt - a.createdAt) as real
  }

  /** The four orders the comparator distinguishes; every unrecognised key is newest first. */
  datatype SortOrder = PriceLow | PriceHigh | LargestFirst | NewestFirst

  function SortOrderOf(sortBy: string): SortOrder {
    if sortBy == "price-low" then PriceLow
    else if sortBy == "price-high" then PriceHigh
    else if sortBy == "size" then LargestFirst
    else NewestFirst
  }

  /** The ascending key of each order. */
  function SortKey(order: SortOrder, d: Dataset): real {
    match order
    case PriceLow => PriceOrZero(d)
    case PriceHigh => -PriceOrZero(d)
    case LargestFirst => -(d.size as real)
    case NewestFirst => -(d.createdAt as real)
  }

  /** Each comparator is the difference of one ascending key. */
  lemma CompareIsKeyDifference(sortBy: string, a: Dataset, b: Dataset)
    ensures Compare(sortBy, a, b) == SortKey(SortOrderOf(sortBy), a) - SortKey(SortOrderOf(sortBy), b)
  {
  }

  /** Every earlier element compares at most equal to every later one. */
  predicate Sorted(order: SortOrder, s: seq<Dataset>) {
    forall i, j :: 0 <= i < j < |s| ==> SortKey(order, s[i]) <= SortKey(order, s[j])
  }

  /** Every key in `s` is at least `bound`. */
  predicate AllAtLeast(order: SortOrder, bound: real, s: seq<Dataset>) {
    forall i :: 0 <= i < |s| ==> bound <= SortKey(order, s[i])
  }

  /** Inserts `x` before the first element whose key is not below its own. */
  function Insert(order: SortOrder, x: Dataset, s: seq<Dataset>): (r: seq<Dataset>)
    ensures multiset(r) == multiset(s) + multiset{x}
    ensures |r| == |s| + 1
  {
    if s == [] then [x]
    else if SortKey(order, x) <= SortKey(order, s[0]) then [x] + s
    else
      assert s == [s[0]] + s[1..];
      [s[0]] + Insert(order, x, s[1..])
  }

  /** Insertion keeps a lower bound on the keys. */
  lemma {:induction false} InsertAtLeast(order: SortOrder, bound: real, x: Dataset, s: seq<Dataset>)
    requires bound <= SortKey(order, x) && AllAtLeast(order, bound, s)
    ensures AllAtLeast(order, bound, Insert(order, x, s))
  {
    if s != [] && SortKey(order, x) > SortKey(order, s[0]) {
      InsertAtLeast(order, bound, x, s[1..]);
    }
  }

  /** Insertion keeps a sorted list sorted. */
  lemma {:induction false} InsertSorted(order: SortOrder, x: Dataset, s: seq<Dataset>)
    requires Sorted(order, s)
    ensures Sorted(order, Insert(order, x, s))
  {
    if s != [] && SortKey(order, x) > SortKey(order, s[0]) {
      InsertSorted(order, x, s[1..]);
      InsertAtLeast(order, SortKey(order, s[0]), x, s[1..]);
    }
  }

  /** `Array.prototype.sort` with the page's comparator, as a stable insertion sort. */
  function Sort(order: SortOrder, s: seq<Dataset>): (r: seq<Dataset>)
    ensures Sorted(order, r)
    ensures multiset(r) == multiset(s)
    ensures |r| == |s|
  {
    if s == [] then []
    else
      assert s == [s[0]] + s[1..];
      var rest := Sort(order, s[1..]);
      InsertSorted(order, s[0], rest);
      Insert(order, s[0], rest)
  }

  /** The number of datasets that match both predicates. */
  function MatchCount(ds: seq<Dataset>, searchTerm: string, selectedFilter: string): nat {
    if ds == [] then 0
    else (if Matches(ds[0], searchTerm, selectedFilter) then 1 else 0) + MatchCount(ds[1..], searchTerm, selectedFilter)
  }

  /** The list the page renders: filter, then sort. */
  function FilteredDatasets(ds: seq<Dataset>, searchTerm: string, selectedFilter: string, sortBy: string): seq<Dataset> {
    Sort(SortOrderOf(sortBy), Filter(ds, searchTerm, selectedFilter))
  }

  /** Every rendered dataset matches the search term and passes the type filter. */
  lemma ResultMatches(ds: seq<Dataset>, searchTerm: string, selectedFilter: string, sortBy: string)
    ensures var r := FilteredDatasets(ds, searchTerm, selectedFilter, sortBy);
            forall i :: 0 <= i < |r| ==> MatchesSearch(r[i], searchTerm) && MatchesFilter(r[i], selectedFilter)
  {
    var f := Filter(ds, searchTerm, selectedFilter);
    var r := Sort(SortOrderOf(sortBy), f);
    FilterMultiset(ds, searchTerm, selectedFilter);
    forall i | 0 <= i < |r|
      ensures Matches(r[i], searchTerm, selectedFilter)
    {
      assert r[i] in multiset(r);
      assert multiset(f)[r[i]] > 0;
    }
  }

  /** The rendered list is a permutation of exactly the matching datasets: each
      dataset occurs as often as in the input if it matches, and not at all
      otherwise; so no match is dropped and the shown count is the number of
      matches. */
  lemma ResultIsPermutationOfMatches(ds: seq<Dataset>, searchTerm: string, selectedFilter: string, sortBy: string)
    ensures var r := FilteredDatasets(ds, searchTerm, selectedFilter, sortBy);
            && (forall d :: multiset(r)[d] == if Matches(d, searchTerm, selectedFilter) then multiset(ds)[d] else 0)
            && (forall i :: 0 <= i < |ds| && Matches(ds[i], searchTerm, selectedFilter) ==> ds[i] in r)
            && |r| == MatchCount(ds, searchTerm, selectedFilter)
  {
    var r := FilteredDatasets(ds, searchTerm, selectedFilter, sortBy);
    FilterCount(ds, searchTerm, selectedFilter);
    FilterMultiset(ds, searchTerm, selectedFilter);
    forall i | 0 <= i < |ds| && Matches(ds[i], searchTerm, selectedFilter)
      ensures ds[i] in r
    {
      assert ds[i] in multiset(ds);
      assert multiset(r)[ds[i]] > 0;
    }
  }

  lemma {:induction false} FilterCount(ds: seq<Dataset>, searchTerm: string, selectedFilter: string)
    ensures |Filter(ds, searchTerm, selectedFilter)| == MatchCount(ds, searchTerm, selectedFilter)
  {
    if ds != [] {
      FilterCount(ds[1..], searchTerm, selectedFilter);
    }
  }

  /** The filter keeps the input order: filtering a concatenation filters each part. */
  lemma {:induction false} FilterAppend(a: seq<Dataset>, b: seq<Dataset>, searchTerm: string, selectedFilter: string)
    ensures Filter(a + b, searchTerm, selectedFilter) == Filter(a, searchTerm, selectedFilter) + Filter(b, searchTerm, selectedFilter)
  {
    if a == [] {
      assert a + b == b;
    } else {
      assert (a + b)[0] == a[0];
      assert (a + b)[1..] == a[1..] + b;
      FilterAppend(a[1..], b, searchTerm, selectedFilter);
    }
  }

  /** An empty search term matches every dataset, and the type `'all'` accepts every type. */
  lemma EmptyTermAllTypesMatches(d: Dataset)
    ensures MatchesFilter(d, "all")
    ensures Matches(d, "", "all")
  {
    assert Lower("") == "";
    EmptyIncluded(Lower(d.name));
  }

  lemma EverythingMatchesEmptySearch()
    ensures forall d :: Matches(d, "", "all")
  {
    forall d | true ensures Matches(d, "", "all") {
      EmptyTermAllTypesMatches(d);
    }
  }

  /** An empty search with `'all'` renders every dataset (in sorted order). */
  lemma EmptySearchShowsEverything(ds: seq<Dataset>, sortBy: string)
    ensures multiset(FilteredDatasets(ds, "", "all", sortBy)) == multiset(ds)
    ensures Filter(ds, "", "all") == ds
  {
    EverythingMatchesEmptySearch();
    FilterKeepsAll(ds, "", "all");
  }

  /** When every dataset matches, the filter returns the list unchanged. */
  lemma {:induction false} FilterKeepsAll(ds: seq<Dataset>, searchTerm: string, selectedFilter: string)
    requires forall i :: 0 <= i < |ds| ==> Matches(ds[i], searchTerm, selectedFilter)
    ensures Filter(ds, searchTerm, selectedFilter) == ds
  {
    if ds != [] {
      var tail := ds[1..];
      forall i | 0 <= i < |tail| ensures Matches(tail[i], searchTerm, selectedFilter) {
        assert tail[i] == ds[i + 1];
      }
      FilterKeepsAll(tail, searchTerm, selectedFilter);
      assert Filter(ds, searchTerm, selectedFilter) == [ds[0]] + Filter(tail, searchTerm, selectedFilter);
      assert ds == [ds[0]] + tail;
    }
  }

  /** The sorted result, in terms of the page's comparator and of each sort key:
      price ascending (missing price as 0) for `'price-low'`, descending for
      `'price-high'`, size descending for `'size'`, and creation time descending
      for `'newest'` and every other key. */
  lemma ResultOrder(ds: seq<Dataset>, searchTerm: string, selectedFilter: string, sortBy: string)
    ensures var r := FilteredDatasets(ds, searchTerm, selectedFilter, sortBy);
            && (forall i, j :: 0 <= i < j < |r| ==> Compare(sortBy, r[i], r[j]) <= 0.0)
            && (sortBy == "price-low" ==> forall i, j :: 0 <= i < j < |r| ==> PriceOrZero(r[i]) <= PriceOrZero(r[j]))
            && (sortBy == "price-high" ==> forall i, j :: 0 <= i < j < |r| ==> PriceOrZero(r[i]) >= PriceOrZero(r[j]))
            && (sortBy == "size" ==> forall i, j :: 0 <= i < j < |r| ==> r[i].size >= r[j].size)
            && (sortBy !in {"price-low", "price-high", "size"} ==>
                  forall i, j :: 0 <= i < j < |r| ==> r[i].createdAt >= r[j].createdAt)
  {
    var r := FilteredDatasets(ds, searchTerm, selectedFilter, sortBy);
    forall i, j | 0 <= i < j < |r|
      ensures Compare(sortBy, r[i], r[j]) <= 0.0
    {
      CompareIsKeyDifference(sortBy, r[i], r[j]);
    }
  }

  // ---------------------------------------------------------------------------
  // Stability: datasets that compare equal keep their input order.

  /** `[y]` when `y` has key `k`, else empty. */
  function KeepIf(order: SortOrder, k: real, y: Dataset): seq<Dataset> {
    if SortKey(order, y) == k then [y] else []
  }

  /** The elements of `s` whose key is `k`, in order. */
  function WithKey(order: SortOrder, k: real, s: seq<Dataset>): seq<Dataset> {
    if s == [] then [] else KeepIf(order, k, s[0]) + WithKey(order, k, s[1..])
  }

  lemma WithKeyCons(order: SortOrder, k: real, y: Dataset, t: seq<Dataset>)
    ensures WithKey(order, k, [y] + t) == KeepIf(order, k, y) + WithKey(order, k, t)
  {
    assert ([y] + t)[1..] == t;
  }

  lemma InsertCons(order: SortOrder, x: Dataset, s: seq<Dataset>)
    requires s != [] && SortKey(order, x) > SortKey(order, s[0])
    ensures Insert(order, x, s) == [s[0]] + Insert(order, x, s[1..])
  {
  }

  /** An element with a smaller key than `x` never has the key of `x`, so the two
      commute in the key-`k` projection. */
  lemma CommuteSmaller(order: SortOrder, k: real, x: Dataset, y: Dataset, t: seq<Dataset>, w: seq<Dataset>)
    requires SortKey(order, y) < SortKey(order, x)
    requires WithKey(order, k, t) == KeepIf(order, k, x) + w
    ensures WithKey(order, k, [y] + t) == KeepIf(order, k, x) + (KeepIf(order, k, y) + w)
  {
    WithKeyCons(order, k, y, t);
    if SortKey(order, x) == k {
      assert KeepIf(order, k, y) == [];
    } else {
      assert KeepIf(order, k, x) == [];
    }
  }

  lemma {:induction false} InsertStable(order: SortOrder, k: real, x: Dataset, s: seq<Dataset>)
    ensures WithKey(order, k, Insert(order, x, s)) == KeepIf(order, k, x) + WithKey(order, k, s)
  {
    if s == [] {
    } else if SortKey(order, x) <= SortKey(order, s[0]) {
      WithKeyCons(order, k, x, s);
    } else {
      InsertCons(order, x, s);
      InsertStable(order, k, x, s[1..]);
      CommuteSmaller(order, k, x, s[0], Insert(order, x, s[1..]), WithKey(order, k, s[1..]));
      WithKeyCons(order, k, s[0], s[1..]);
      assert [s[0]] + s[1..] == s;
    }
  }

  /** Sorting keeps the relative order of the elements of each key. */
  lemma {:induction false} SortStable(order: SortOrder, k: real, s: seq<Dataset>)
    ensures WithKey(order, k, Sort(order, s)) == WithKey(order, k, s)
  {
    if s != [] {
      SortStable(order, k, s[1..]);
      InsertStable(order, k, s[0], Sort(order, s[1..]));
    }
  }

  lemma {:induction false} WithKeyAppend(order: SortOrder, k: real, a: seq<Dataset>, b: seq<Dataset>)
    ensures WithKey(order, k, a + b) == WithKey(order, k, a) + WithKey(order, k, b)
  {
    if a == [] {
      assert a + b == b;
    } else {
      assert (a + b)[0] == a[0];
      assert (a + b)[1..] == a[1..] + b;
      WithKeyAppend(order, k, a[1..], b);
    }
  }

  lemma HeadCommutes(order: SortOrder, k: real, d: Dataset, searchTerm: string, selectedFilter: string)
    ensures WithKey(order, k, KeepMatching(d, searchTerm, selectedFilter))
            == Filter(KeepIf(order, k, d), searchTerm, selectedFilter)
  {
    assert [d][1..] == [];
  }

  /** Taking the datasets of one key and filtering commute. */
  lemma {:induction false} FilterWithKey(order: SortOrder, k: real, ds: seq<Dataset>, searchTerm: string, selectedFilter: string)
    ensures WithKey(order, k, Filter(ds, searchTerm, selectedFilter)) == Filter(WithKey(order, k, ds), searchTerm, selectedFilter)
  {
    if ds != [] {
      var d, t := ds[0], ds[1..];
      FilterWithKey(order, k, t, searchTerm, selectedFilter);
      WithKeyAppend(order, k, KeepMatching(d, searchTerm, selectedFilter), Filter(t, searchTerm, selectedFilter));
      assert ds == [d] + t;
      WithKeyCons(order, k, d, t);
      FilterAppend(KeepIf(order, k, d), WithKey(order, k, t), searchTerm, selectedFilter);
      HeadCommutes(order, k, d, searchTerm, selectedFilter);
    }
  }

  /** On the rendered page, the matching datasets that compare equal under the
      selected sort appear in the order of the input list. */
  lemma ResultKeepsInputOrder(ds: seq<Dataset>, searchTerm: string, selectedFilter: string, sortBy: string, k: real)
    ensures var order := SortOrderOf(sortBy);
            WithKey(order, k, FilteredDatasets(ds, searchTerm, selectedFilter, sortBy))
            == Filter(WithKey(order, k, ds), searchTerm, selectedFilter)
  {
    var order := SortOrderOf(sortBy);
    SortStable(order, k, Filter(ds, searchTerm, selectedFilter));
    FilterWithKey(order, k, ds, searchTerm, selectedFilter);
  }

  // ---------------------------------------------------------------------------
  // Page state

  datatype ViewMode = Grid | List

  /** The page's state hooks. */
  datatype ViewState = ViewState(searchTerm: string, selectedFilter: string, sortBy: string, viewMode: ViewMode)

  /** The state the page mounts with. */
  function InitialView(): ViewState {
    ViewState("", "all", "newest", Grid)
  }

  /** "Clear All Filters": empties the search and resets the type filter. */
  function ClearAllFilters(v: ViewState): (r: ViewState)
    ensures r.sortBy == v.sortBy && r.viewMode == v.viewMode
    ensures forall d :: Matches(d, r.searchTerm, r.selectedFilter)
  {
    EverythingMatchesEmptySearch();
    v.(searchTerm := "", selectedFilter := "all")
  }

  /** After "Clear All Filters" every dataset is rendered again, as on mount. */
  lemma ClearAllFiltersShowsEverything(ds: seq<Dataset>, v: ViewState)
    ensures var c := ClearAllFilters(v);
            && Filter(ds, c.searchTerm, c.selectedFilter) == ds
            && multiset(FilteredDatasets(ds, c.searchTerm, c.selectedFilter, c.sortBy)) == multiset(ds)
            && c.searchTerm == InitialView().searchTerm && c.selectedFilter == InitialView().selectedFilter
  {
    EmptySearchShowsEverything(ds, v.sortBy);
  }

  // ---------------------------------------------------------------------------
  // Type icon and colour

  /** The four types the page knows, as offered by its type filter. */
  const KnownTypes: seq<string> := ["tabular", "text", "time-series", "images"]

  const FallbackIcon: string := "📄"
  const FallbackColor: string := "bg-gray-100 text-gray-800 border-gray-200"

  function TypeIcon(datasetType: string): string {
    if datasetType == "tabular" then "📊"
    else if datasetType == "text" then "📝"
    else if datasetType == "time-series" then "📈"
    else if datasetType == "images" then "🖼️"
    else FallbackIcon
  }

  function TypeColor(datasetType: string): string {
    if datasetType == "tabular" then "bg-teal-100 text-teal-800 border-teal-200"
    else if datasetType == "text" then "bg-purple-100 text-purple-800 border-purple-200"
    else if datasetType == "time-series" then "bg-orange-100 text-orange-800 border-orange-200"
    else if datasetType == "images" then "bg-gray-100 text-gray-800 border-gray-200"
    else FallbackColor
  }

  /** The icon is the fallback exactly for unknown types, and it tells the
      known types apart. */
  lemma TypeIconTotal(t: string, u: string)
    ensures TypeIcon(t) == FallbackIcon <==> t !in KnownTypes
    ensures t in KnownTypes && u in KnownTypes && TypeIcon(t) == TypeIcon(u) ==> t == u
  {
  }

  /** The colour is the fallback exactly for unknown types and for images, which
      share it. */
  lemma TypeColorTotal(t: string)
    ensures TypeColor(t) == FallbackColor <==> t !in ["tabular", "text", "time-series"]
  {
  }

  // ---------------------------------------------------------------------------
  // Card: tag chips and author

  /** The tag chips of a card: at most the first three tags, and a "+n" chip. */
  datatype TagRow = TagRow(chips: seq<string>, more: Option<nat>)

  function TagChips(tags: seq<string>): (r: TagRow)
    ensures |r.chips| <= 3
    ensures r.chips <= tags
    ensures r.more.Some? <==> |tags| > 3
    ensures r.more.Some? ==> |r.chips| == 3 && r.more.value == |tags| - 3
    ensures r.more.None? ==> r.chips == tags
  {
    TagRow(Slice(tags, 0, 3), if |tags| > 3 then Some(|tags| - 3) else None)
  }

  /** The author label: the first six characters, "...", the last four. */
  function AuthorLabel(author: string): (r: string)
    ensures |r| == Min(6, |author|) + 3 + Min(4, |author|)
    ensures |author| >= 10 ==> |r| == 13 && r == author[..6] + "..." + author[|author| - 4..]
    ensures r == author[..Min(6, |author|)] + "..." + author[|author| - Min(4, |author|)..]
  {
    Slice(author, 0, 6) + "..." + SliceFrom(author, -4)
  }

  /** The avatar initials: characters 2 and 3 of the author, upper-cased. */
  function AuthorInitials(author: string): (r: string)
    ensures |r| == if |author| >= 4 then 2 else if |author| == 3 then 1 else 0
    ensures forall i :: 0 <= i < |r| ==> r[i] == UpperChar(author[2 + i])
  {
    Upper(Slice(author, 2, 4))
  }
}
