/** The resident's home feed: the announcements of the resident's own barangay, filtered by
    category chip and search text, with a redirect to the login screen when nobody is signed in. */
module HomePage {
  import opened Wrappers
  import opened Seqs
  import opened Text
  import opened Domain
  import opened AnnouncementService
  import SearchPage

  /** The feed's query test: the query is lower-cased and trimmed before it is looked up in the
      lower-cased title or description. */
  predicate FeedQueryMatches(query: string, a: Announcement) {
    SearchPage.QueryMatches(Trim(ToLower(query)), a)
  }

  /** Reference definition of the feed's membership. */
  predicate FeedMatches(category: string, query: string, a: Announcement) {
    && (category == "All" || a.category == category)
    && (IsBlank(query) || FeedQueryMatches(query, a))
  }

  function FeedMatching(category: string, query: string): Announcement -> bool {
    (a: Announcement) => FeedMatches(category, query, a)
  }

  function ByFeedQuery(query: string): Announcement -> bool {
    (a: Announcement) => FeedQueryMatches(query, a)
  }

  /** `applyFilters`: the category chip, then the search text when it is not blank. Nothing is
      sorted. */
  function ApplyFilters(all: seq<Announcement>, category: string, query: string): (r: seq<Announcement>)
    ensures r == Filter(FeedMatching(category, query), all)
    ensures IsSubsequence(r, all)
    ensures forall i :: 0 <= i < |all| ==> (all[i] in r <==> FeedMatches(category, query, all[i]))
  {
    var byCategory := Stage(category != "All", SearchPage.ByCategory(category), all);
    var r := Stage(!IsBlank(query), ByFeedQuery(query), byCategory);
    FourStages(category != "All", SearchPage.ByCategory(category), !IsBlank(query), ByFeedQuery(query),
               false, ByFeedQuery(query), false, ByFeedQuery(query), all, FeedMatching(category, query));
    r
  }

  /** Surrounding whitespace and letter case in the search text do not change the feed. */
  lemma FeedIgnoresPaddingAndCase(all: seq<Announcement>, category: string, query: string)
    ensures ApplyFilters(all, category, query) == ApplyFilters(all, category, Trim(query))
    ensures ApplyFilters(all, category, query) == ApplyFilters(all, category, ToLower(query))
  {
    TrimIdempotent(query);
    TrimToLowerCommute(query);
    TrimToLowerCommute(Trim(query));
    TrimToLowerCommute(ToLower(query));
    ToLowerIdempotent(query);
    ToLowerIdempotent(Trim(query));
    assert IsBlank(query) <==> IsBlank(Trim(query));
    assert IsBlank(query) <==> IsBlank(ToLower(query)) by {
      assert IsBlank(query) <==> Trim(query) == [];
      assert IsBlank(ToLower(query)) <==> ToLower(Trim(query)) == [];
    }
    FilterExt(FeedMatching(category, query), FeedMatching(category, Trim(query)), all);
    FilterExt(FeedMatching(category, query), FeedMatching(category, ToLower(query)), all);
  }

  /** With the "All" chip and a blank search text the feed is the whole list. */
  lemma UnfilteredFeed(all: seq<Announcement>, query: string)
    requires IsBlank(query)
    ensures ApplyFilters(all, "All", query) == all
  {
    FilterAll(FeedMatching("All", query), all);
  }

  /** `loadAnnouncements`: the barangay whose feed is read, or `None` when there is no profile or
      the profile names no barangay, in which case the feed is `[]`. */
  function AreaToLoad(profile: Option<UserProfile>): (r: Option<string>)
    ensures r.None? <==> profile.None? || profile.value.barangayId == ""
    ensures r.Some? ==> r.value == profile.value.barangayId && r.value != ""
  {
    match profile
    case None => None
    case Some(p) => if p.barangayId == "" then None else Some(p.barangayId)
  }

  /** The list `loadAnnouncements` yields and the local storage after it: the empty case
      touches neither the store nor the cache. */
  function LoadFeed(storage: Storage, profile: Option<UserProfile>, fetched: Result<seq<Doc>, Error>)
    : (r: (seq<Announcement>, Storage))
    ensures AreaToLoad(profile).None? ==> r == ([], storage)
    ensures AreaToLoad(profile).Some? ==> r == GetAnnouncements(storage, AreaToLoad(profile).value, fetched)
  {
    match AreaToLoad(profile)
    case None => ([], storage)
    case Some(area) => GetAnnouncements(storage, area, fetched)
  }

  /** `barangays.find(b => b.id === barangayId)`: the first barangay with that id. */
  function FindBarangay(barangays: seq<Barangay>, id: string): (r: Option<Barangay>)
    ensures r.None? <==> forall i :: 0 <= i < |barangays| ==> barangays[i].id != id
    ensures r.Some? ==> exists i :: 0 <= i < |barangays| && barangays[i] == r.value && r.value.id == id
                                    && forall j :: 0 <= j < i ==> barangays[j].id != id
  {
    if barangays == [] then None
    else if barangays[0].id == id then Some(barangays[0])
    else
      var r := FindBarangay(barangays[1..], id);
      assert r.Some? ==> exists i :: 0 <= i < |barangays| && barangays[i] == r.value && r.value.id == id
                                      && forall j :: 0 <= j < i ==> barangays[j].id != id by {
        if r.Some? {
          var i :| 0 <= i < |barangays| - 1 && barangays[1..][i] == r.value && r.value.id == id
                   && forall j :: 0 <= j < i ==> barangays[1..][j].id != id;
          forall j | 0 <= j < i + 1
            ensures barangays[j].id != id
          {
            if j > 0 {
              assert barangays[j] == barangays[1..][j - 1];
            }
          }
          assert barangays[i + 1] == barangays[1..][i];
        }
      }
      r
  }

  /** `loadBarangayName`: the name of the profile's barangay, or `""` when it is not listed or
      the list could not be read. */
  function BarangayNameFor(barangays: Result<seq<Barangay>, Error>, id: string): (r: string)
    ensures barangays.Err? ==> r == ""
    ensures barangays.Ok? && FindBarangay(barangays.value, id).None? ==> r == ""
    ensures barangays.Ok? && FindBarangay(barangays.value, id).Some? ==> r == FindBarangay(barangays.value, id).value.name
  {
    match barangays
    case Err(_) => ""
    case Ok(list) =>
      match FindBarangay(list, id)
      case None => ""
      case Some(b) => b.name
  }

  /** The feed's screen state. */
  datatype FeedView = FeedView(
    profile: Option<UserProfile>,
    announcements: seq<Announcement>,
    filtered: seq<Announcement>,
    barangayName: string,
    searchQuery: string,
    selectedCategory: string,
    isLoading: bool)

  const InitialView := FeedView(None, [], [], "", "", "All", true)

  /** The shown list is the current list under the current chip and search text. */
  predicate InSync(v: FeedView) {
    v.filtered == ApplyFilters(v.announcements, v.selectedCategory, v.searchQuery)
  }

  /** What happens on the signed-in user's profile stream, emission by emission: the profile,
      the store's answer to the feed read and the barangay list. */
  datatype ProfileEmission = ProfileEmission(
    profile: Option<UserProfile>,
    fetched: Result<seq<Doc>, Error>,
    barangays: Result<seq<Barangay>, Error>)

  /** The effect of one profile emission in `ngOnInit`: a missing profile navigates to the login
      screen and changes nothing else; a profile loads its barangay's name and feed. */
  function OnProfile(v: FeedView, storage: Storage, e: ProfileEmission): (r: (FeedView, Storage, seq<Navigation>))
    ensures e.profile.None? ==> r == (v, storage, [Navigation("/auth/login", false)])
    ensures e.profile.Some? ==> r.2 == [] && r.0.profile == e.profile && !r.0.isLoading
    ensures e.profile.Some? ==> (r.0.announcements, r.1) == LoadFeed(storage, e.profile, e.fetched)
    ensures e.profile.Some? ==> r.0.barangayName == BarangayNameFor(e.barangays, e.profile.value.barangayId)
    ensures e.profile.Some? ==> r.0.searchQuery == v.searchQuery && r.0.selectedCategory == v.selectedCategory
    ensures InSync(v) ==> InSync(r.0)
    ensures e.profile.Some? ==> InSync(r.0)
  {
    match e.profile
    case None => (v, storage, [Navigation("/auth/login", false)])
    case Some(p) =>
      var (list, storage') := LoadFeed(storage, e.profile, e.fetched);
      var v' := v.(profile := e.profile,
                   barangayName := BarangayNameFor(e.barangays, p.barangayId),
                   announcements := list,
                   filtered := ApplyFilters(list, v.selectedCategory, v.searchQuery),
                   isLoading := false);
      (v', storage', [])
  }

  /** The profile stream processed emission by emission; the navigations issued, in order. */
  function RunProfiles(v: FeedView, storage: Storage, es: seq<ProfileEmission>): (r: (FeedView, Storage, seq<Navigation>))
    ensures |r.2| <= |es|
    ensures forall i :: 0 <= i < |r.2| ==> r.2[i] == Navigation("/auth/login", false)
    decreases |es|
  {
    if es == [] then (v, storage, [])
    else
      var (v1, s1, n1) := OnProfile(v, storage, es[0]);
      var (v2, s2, n2) := RunProfiles(v1, s1, es[1..]);
      (v2, s2, n1 + n2)
  }

  function IsSignedOut(e: ProfileEmission): bool {
    e.profile.None?
  }

  /** Every missing profile, and nothing else, sends the user to the login screen. */
  lemma {:induction false} RunProfilesRedirects(v: FeedView, storage: Storage, es: seq<ProfileEmission>)
    ensures |RunProfiles(v, storage, es).2| == Count(IsSignedOut, es)
    ensures forall i :: 0 <= i < |RunProfiles(v, storage, es).2| ==>
              RunProfiles(v, storage, es).2[i] == Navigation("/auth/login", false)
    decreases |es|
  {
    if es != [] {
      var r1 := OnProfile(v, storage, es[0]);
      var rest := RunProfiles(r1.0, r1.1, es[1..]);
      RunProfilesRedirects(r1.0, r1.1, es[1..]);
      assert RunProfiles(v, storage, es).2 == r1.2 + rest.2;
      assert Count(IsSignedOut, es) == (if es[0].profile.None? then 1 else 0) + Count(IsSignedOut, es[1..]);
    }
  }

  /** The shown list stays in sync with the loaded list over the whole profile stream. */
  lemma {:induction false} RunProfilesInSync(v: FeedView, storage: Storage, es: seq<ProfileEmission>)
    requires InSync(v)
    ensures InSync(RunProfiles(v, storage, es).0)
    decreases |es|
  {
    if es != [] {
      var r1 := OnProfile(v, storage, es[0]);
      RunProfilesInSync(r1.0, r1.1, es[1..]);
    }
  }

  /** `selectCategory`: the chip changes and the list is filtered again at once. */
  function SelectCategory(v: FeedView, category: string): (r: FeedView)
    ensures InSync(r)
    ensures r.selectedCategory == category
    ensures r.(filtered := v.filtered, selectedCategory := v.selectedCategory) == v
  {
    v.(selectedCategory := category, filtered := ApplyFilters(v.announcements, category, v.searchQuery))
  }

  /** `onSearchInput` once the typing has settled: a missing value is the empty text, and the
      list is filtered again. */
  function SearchSettled(v: FeedView, value: Option<string>): (r: FeedView)
    ensures InSync(r)
    ensures r.searchQuery == value.GetOr("")
    ensures r.(filtered := v.filtered, searchQuery := v.searchQuery) == v
  {
    var q := value.GetOr("");
    v.(searchQuery := q, filtered := ApplyFilters(v.announcements, v.selectedCategory, q))
  }

  /** `onRefresh`: the feed is read again for the current profile and shown filtered. */
  function OnRefresh(v: FeedView, storage: Storage, fetched: Result<seq<Doc>, Error>): (r: (FeedView, Storage))
    ensures InSync(r.0)
    ensures (r.0.announcements, r.1) == LoadFeed(storage, v.profile, fetched)
    ensures r.0.(announcements := v.announcements, filtered := v.filtered) == v
  {
    var (list, storage') := LoadFeed(storage, v.profile, fetched);
    (v.(announcements := list, filtered := ApplyFilters(list, v.selectedCategory, v.searchQuery)), storage')
  }
}
