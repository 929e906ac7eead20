/** The cross-area search screen: category, area, date-range and text filters over every
    announcement, followed by a newest / oldest / relevance sort. */
module SearchPage {
  import opened Wrappers
  import opened Domain
  import opened Seqs
  import opened Text
  import opened Calendar

  /** The screen's filter state. `query` is the stored search text, lower-cased on input. */
  datatype Filters = Filters(query: string, category: string, dateRange: string, barangay: string, sort: string)

  /** Category chips offered by the screen. */
  const Categories: seq<string> := ["All", "Emergency", "Events", "Health", "Safety", "Announcement"]

  /** Date-range values offered by the screen. */
  const DateRanges: seq<string> := ["all", "today", "week", "month", "3months"]

  /** Sort values offered by the screen. */
  const SortOptions: seq<string> := ["newest", "oldest", "relevant"]

  /** Field values of a freshly opened screen, restored by `clearAllFilters`. */
  const Defaults: Filters := Filters("", "All", "all", "all", "newest")

  /** `onSearchInput` (after the debounce): the input value, `''` when there is none, lower-cased
      letter by letter, becomes the query. */
  function OnSearchInput(f: Filters, input: Option<string>): (r: Filters)
    ensures input.None? ==> r.query == ""
    ensures input.Some? ==> |r.query| == |input.value|
                            && forall i :: 0 <= i < |input.value| ==> r.query[i] == LowerChar(input.value[i])
    ensures ToLower(r.query) == r.query
    ensures r.(query := f.query) == f
  {
    var q := ToLower(input.GetOr(""));
    ToLowerIdempotent(input.GetOr(""));
    f.(query := q)
  }

  /** `clearAllFilters`. */
  function ClearAllFilters(f: Filters): (r: Filters)
    ensures !IsSearchActive(r) && r.sort == "newest"
    ensures r.query == ""
  {
    Defaults
  }

  /** `isSearchActive`: some filter differs from its default; the sort order is not a filter. */
  predicate IsSearchActive(f: Filters): (active: bool)
    ensures !active <==> f.(query := Trim(f.query), sort := Defaults.sort) == Defaults
  {
    Trim(f.query) != "" || f.category != "All" || f.dateRange != "all" || f.barangay != "all"
  }

  /** Changing only the sort order never changes whether a search is active. */
  lemma SearchActiveIgnoresSort(f: Filters, sort: string)
    ensures IsSearchActive(f.(sort := sort)) == IsSearchActive(f)
  {
  }

  /** `isSameDay`-, week-, month- and three-month windows of the date-range filter.
      An unrecognised range keeps everything. */
  predicate InDateRange(range: string, c: Clock, t: int): (keep: bool)
    ensures range == "today" ==> (keep <==> LocalDay(c.zone, t) == LocalDay(c.zone, c.now))
    ensures range !in DateRanges ==> keep
  {
    if range == "today" then IsSameDay(c.zone, t, c.now)
    else if range == "week" then t >= c.now - 7 * DayMs
    else if range == "month" then t >= MonthsBefore(c, 1)
    else if range == "3months" then t >= MonthsBefore(c, 3)
    else true
  }

  /** The stored query occurs in the lower-cased title or the lower-cased description. */
  predicate QueryMatches(query: string, a: Announcement) {
    Contains(ToLower(a.title), query) || Contains(ToLower(a.description), query)
  }

  /** Reference definition of the search result's membership: every active filter accepts `a`. */
  predicate Matches(f: Filters, c: Clock, a: Announcement) {
    && (f.category == "All" || a.category == f.category)
    && (f.barangay == "all" || a.barangayId == f.barangay)
    && (f.dateRange == "all" || InDateRange(f.dateRange, c, a.datePosted))
    && (Trim(f.query) == "" || QueryMatches(f.query, a))
  }

  function Matching(f: Filters, c: Clock): Announcement -> bool {
    (a: Announcement) => Matches(f, c, a)
  }

  function ByCategory(category: string): Announcement -> bool {
    (a: Announcement) => a.category == category
  }

  function ByBarangay(barangayId: string): Announcement -> bool {
    (a: Announcement) => a.barangayId == barangayId
  }

  function ByDateRange(range: string, c: Clock): Announcement -> bool {
    (a: Announcement) => InDateRange(range, c, a.datePosted)
  }

  function ByQuery(query: string): Announcement -> bool {
    (a: Announcement) => QueryMatches(query, a)
  }

  /** The relevance score scaled by `DayMs`, so that it is an exact integer:
      10 for a title match of a non-empty query, 5 for the Emergency category, and the
      recency bonus `max(0, 10 - days since posted)`. */
  function ScaledRelevance(query: string, c: Clock, a: Announcement): int {
    (if query != "" && Contains(ToLower(a.title), query) then 10 * DayMs else 0)
    + (if a.category == "Emergency" then 5 * DayMs else 0)
    + (if 10 * DayMs - (c.now - a.datePosted) > 0 then 10 * DayMs - (c.now - a.datePosted) else 0)
  }

  /** `getRelevanceScore`, in exact arithmetic: it is never negative, and at most 25 for an
      announcement that is not dated in the future. */
  function RelevanceScore(query: string, c: Clock, a: Announcement): (score: real)
    ensures score >= 0.0
    ensures a.datePosted <= c.now ==> score <= 25.0
    ensures score * (DayMs as real) == ScaledRelevance(query, c, a) as real
  {
    var days := (c.now - a.datePosted) as real / DayMs as real;
    (if query != "" && Contains(ToLower(a.title), query) then 10.0 else 0.0)
    + (if a.category == "Emergency" then 5.0 else 0.0)
    + (if 10.0 - days > 0.0 then 10.0 - days else 0.0)
  }

  /** Ordering by the scaled score is ordering by the score itself. */
  lemma ScaledRelevanceOrder(query: string, c: Clock, a: Announcement, b: Announcement)
    ensures ScaledRelevance(query, c, a) <= ScaledRelevance(query, c, b)
        <==> RelevanceScore(query, c, a) <= RelevanceScore(query, c, b)
  {
    var sa, sb := RelevanceScore(query, c, a), RelevanceScore(query, c, b);
    assert sa * (DayMs as real) <= sb * (DayMs as real) <==> sa <= sb;
  }

  /** Of two announcements that differ only in their posting date, the more recent one never
      scores lower. */
  lemma RelevanceFavoursRecent(query: string, c: Clock, a: Announcement, t: int)
    requires a.datePosted <= t
    ensures RelevanceScore(query, c, a) <= RelevanceScore(query, c, a.(datePosted := t))
  {
    ScaledRelevanceOrder(query, c, a, a.(datePosted := t));
  }

  /** Comparator of `filtered.sort(...)` as an ascending integer key:
      `'oldest'` by date ascending, `'relevant'` by score descending, anything else by date descending. */
  function SortKey(f: Filters, c: Clock): (key: Announcement -> int)
    ensures f.sort == "oldest" ==> forall a, b :: key(a) <= key(b) <==> a.datePosted <= b.datePosted
    ensures f.sort != "oldest" && f.sort != "relevant" ==>
              forall a, b :: key(a) <= key(b) <==> a.datePosted >= b.datePosted
    ensures f.sort == "relevant" ==>
              forall a, b :: key(a) <= key(b) <==> RelevanceScore(f.query, c, a) >= RelevanceScore(f.query, c, b)
  {
    assert f.sort == "relevant" ==>
             forall a, b :: -ScaledRelevance(f.query, c, a) <= -ScaledRelevance(f.query, c, b)
                            <==> RelevanceScore(f.query, c, a) >= RelevanceScore(f.query, c, b) by {
      forall a, b ensures -ScaledRelevance(f.query, c, a) <= -ScaledRelevance(f.query, c, b)
                          <==> RelevanceScore(f.query, c, a) >= RelevanceScore(f.query, c, b) {
        ScaledRelevanceOrder(f.query, c, b, a);
      }
    }
    if f.sort == "oldest" then (a: Announcement) => a.datePosted
    else if f.sort == "relevant" then (a: Announcement) => -ScaledRelevance(f.query, c, a)
    else (a: Announcement) => -a.datePosted
  }

  /** `applyFilters`: the four filters in the source's order, each skipped while at its
      default, then the stable sort. */
  function ApplyFilters(f: Filters, c: Clock, all: seq<Announcement>): (r: seq<Announcement>)
    ensures |r| == Count(Matching(f, c), all)
  {
    var byCategory := Stage(f.category != "All", ByCategory(f.category), all);
    var byBarangay := Stage(f.barangay != "all", ByBarangay(f.barangay), byCategory);
    var byDate := Stage(f.dateRange != "all", ByDateRange(f.dateRange, c), byBarangay);
    var byQuery := Stage(Trim(f.query) != "", ByQuery(f.query), byDate);
    StagesMatch(f, c, all);
    SortBy(SortKey(f, c), byQuery)
  }

  /** The four stages keep exactly the announcements that `Matches` accepts, in order. */
  lemma StagesMatch(f: Filters, c: Clock, all: seq<Announcement>)
    ensures Stage(Trim(f.query) != "", ByQuery(f.query),
              Stage(f.dateRange != "all", ByDateRange(f.dateRange, c),
                Stage(f.barangay != "all", ByBarangay(f.barangay),
                  Stage(f.category != "All", ByCategory(f.category), all))))
            == Filter(Matching(f, c), all)
  {
    FourStages(f.category != "All", ByCategory(f.category), f.barangay != "all", ByBarangay(f.barangay),
               f.dateRange != "all", ByDateRange(f.dateRange, c), Trim(f.query) != "", ByQuery(f.query),
               all, Matching(f, c));
  }

  /** The staged pipeline is the stable sort of exactly the announcements that `Matches` accepts. */
  lemma ApplyFiltersIsSortedMatches(f: Filters, c: Clock, all: seq<Announcement>)
    ensures ApplyFilters(f, c, all) == SortBy(SortKey(f, c), Filter(Matching(f, c), all))
  {
    StagesMatch(f, c, all);
  }

  /** The search result is a permutation of the announcements every active filter accepts,
      ordered by the selected sort; equal keys keep the input order. */
  lemma ApplyFiltersSpec(f: Filters, c: Clock, all: seq<Announcement>, k: int)
    ensures var r := ApplyFilters(f, c, all);
            && multiset(r) == multiset(Filter(Matching(f, c), all))
            && (forall i :: 0 <= i < |r| ==> r[i] in all && Matches(f, c, r[i]))
            && (forall i :: 0 <= i < |all| && Matches(f, c, all[i]) ==> all[i] in r)
            && SortedBy(SortKey(f, c), r)
            && KeyClass(SortKey(f, c), k, r) == KeyClass(SortKey(f, c), k, Filter(Matching(f, c), all))
  {
    ApplyFiltersIsSortedMatches(f, c, all);
    SortFiltered(SortKey(f, c), Matching(f, c), all, k);
  }

  /** `'oldest'` orders by posting date ascending; `'newest'` and every unrecognised value
      by posting date descending; `'relevant'` by score descending. */
  lemma SortOrders(f: Filters, c: Clock, all: seq<Announcement>)
    ensures var r := ApplyFilters(f, c, all);
            forall i, j :: 0 <= i < j < |r| ==>
              && (f.sort == "oldest" ==> r[i].datePosted <= r[j].datePosted)
              && (f.sort == "relevant" ==> RelevanceScore(f.query, c, r[i]) >= RelevanceScore(f.query, c, r[j]))
              && (f.sort != "oldest" && f.sort != "relevant" ==> r[i].datePosted >= r[j].datePosted)
  {
    var r := ApplyFilters(f, c, all);
    ApplyFiltersIsSortedMatches(f, c, all);
    forall i, j | 0 <= i < j < |r| && f.sort == "relevant"
      ensures RelevanceScore(f.query, c, r[i]) >= RelevanceScore(f.query, c, r[j])
    {
      ScaledRelevanceOrder(f.query, c, r[j], r[i]);
    }
  }

  /** With no active search every announcement is shown, only reordered. */
  lemma InactiveSearchShowsAll(f: Filters, c: Clock, all: seq<Announcement>)
    requires !IsSearchActive(f)
    ensures multiset(ApplyFilters(f, c, all)) == multiset(all)
  {
    ApplyFiltersIsSortedMatches(f, c, all);
    FilterAll(Matching(f, c), all);
  }

  /** Applying the filters to their own result changes nothing. */
  lemma ApplyFiltersIdempotent(f: Filters, c: Clock, all: seq<Announcement>)
    ensures ApplyFilters(f, c, ApplyFilters(f, c, all)) == ApplyFilters(f, c, all)
  {
    var r := ApplyFilters(f, c, all);
    ApplyFiltersSpec(f, c, all, 0);
    ApplyFiltersIsSortedMatches(f, c, r);
    FilterAll(Matching(f, c), r);
    SortBySorted(SortKey(f, c), r);
  }

  /** The empty list stays empty. */
  lemma ApplyFiltersEmpty(f: Filters, c: Clock)
    ensures ApplyFilters(f, c, []) == []
  {
  }

  /** The `'week'` window is inclusive: an announcement posted exactly seven days ago is kept,
      one a millisecond earlier is not. */
  lemma WeekBoundary(c: Clock)
    ensures InDateRange("week", c, c.now - 7 * DayMs)
    ensures !InDateRange("week", c, c.now - 7 * DayMs - 1)
  {
  }

  /** The `'week'` range keeps exactly the announcements posted at or after seven days ago. */
  lemma WeekRange(c: Clock, t: int)
    ensures InDateRange("week", c, t) <==> t >= c.now - 7 * DayMs
  {
  }

  /** The query filter is gated on the trimmed query, but matches with the stored,
      untrimmed query: a trailing space must itself occur in the text. */
  lemma QueryNotTrimmedWhenMatching()
    ensures var f := Defaults.(query := "flood ");
            var a := Announcement(None, "flood", "", "General", "b", "u", 0);
            !Matches(f, Clock(0, Zone(0)), a)
  {
    var a := Announcement(None, "flood", "", "General", "b", "u", 0);
    assert ToLower(a.title) == "flood";
    assert Trim("flood ") != "" by {
      assert !IsBlank("flood ") by { assert !IsSpace("flood "[0]); }
    }
  }

  /** Names of known areas, keyed by id: `barangays.forEach(b => map.set(b.id, b.name))`. */
  function AddBarangayNames(names: map<string, string>, barangays: seq<Barangay>): (r: map<string, string>)
    ensures forall i :: 0 <= i < |barangays| ==> barangays[i].id in r
    ensures forall id :: id in names ==> id in r
    decreases |barangays|
  {
    if barangays == [] then names
    else AddBarangayNames(names[barangays[0].id := barangays[0].name], barangays[1..])
  }

  /** Name of the last area in `barangays` with this id. */
  function LastNameFor(barangays: seq<Barangay>, id: string): Option<string>
    decreases |barangays|
  {
    if barangays == [] then None
    else if barangays[|barangays| - 1].id == id then Some(barangays[|barangays| - 1].name)
    else LastNameFor(barangays[..|barangays| - 1], id)
  }

  /** A later area with the same id overrides an earlier one; ids not in the list keep the
      name they had. */
  lemma {:induction false} AddBarangayNamesLastWins(names: map<string, string>, barangays: seq<Barangay>, id: string)
    ensures var r := AddBarangayNames(names, barangays);
            && (LastNameFor(barangays, id).Some? ==> id in r && r[id] == LastNameFor(barangays, id).value)
            && (LastNameFor(barangays, id).None? ==> (id in r <==> id in names) && (id in names ==> r[id] == names[id]))
    decreases |barangays|
  {
    if barangays != [] {
      var b := barangays[0];
      AddBarangayNamesLastWins(names[b.id := b.name], barangays[1..], id);
      LastNameForCons(barangays, id);
    }
  }

  lemma {:induction false} LastNameForCons(barangays: seq<Barangay>, id: string)
    requires barangays != []
    ensures LastNameFor(barangays, id) ==
              if LastNameFor(barangays[1..], id).Some? then LastNameFor(barangays[1..], id)
              else if barangays[0].id == id then Some(barangays[0].name)
              else None
    decreases |barangays|
  {
    if |barangays| > 1 {
      assert barangays[1..][..|barangays[1..]| - 1] == barangays[..|barangays| - 1][1..];
      LastNameForCons(barangays[..|barangays| - 1], id);
    }
  }

  /** `getBarangayName`: the mapped name, or `'Unknown Barangay'` when the id is unknown or
      its name is empty (JavaScript's `||`). */
  function BarangayName(names: map<string, string>, barangayId: string): (r: string)
    ensures r != ""
    ensures barangayId in names && names[barangayId] != "" ==> r == names[barangayId]
    ensures !(barangayId in names && names[barangayId] != "") ==> r == "Unknown Barangay"
  {
    if barangayId in names && names[barangayId] != "" then names[barangayId] else "Unknown Barangay"
  }

  /** After loading a list of areas into an empty map, an id's name is that of its last
      occurrence, and ids not in the list are `'Unknown Barangay'`. */
  lemma BarangayNameAfterLoad(barangays: seq<Barangay>, id: string)
    ensures var r := BarangayName(AddBarangayNames(map[], barangays), id);
            && (LastNameFor(barangays, id).Some? && LastNameFor(barangays, id).value != "" ==> r == LastNameFor(barangays, id).value)
            && (LastNameFor(barangays, id).None? ==> r == "Unknown Barangay")
            && (LastNameFor(barangays, id) == Some("") ==> r == "Unknown Barangay")
  {
    AddBarangayNamesLastWins(map[], barangays, id);
  }
}
