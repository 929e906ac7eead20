/** The official's dashboard: the role gate on the profile stream, the list of the official's
    own announcements, deletion, and the category and "this week" counters. */
module DashboardPage {
  import opened Wrappers
  import opened Seqs
  import opened Calendar
  import opened Domain
  import opened AnnouncementService
  import SearchPage
  import AnnouncementForm

  /** The decision of the profile filter in `ngOnInit`. */
  datatype GateDecision = Redirect(nav: Navigation) | Proceed(profile: UserProfile)

  /** Only officials get through; a missing profile goes to the login screen and a resident
      to the resident home. */
  function Gate(profile: Option<UserProfile>): (r: GateDecision)
    ensures r.Proceed? <==> profile.Some? && profile.value.role == Official
    ensures r.Proceed? ==> r.profile == profile.value
    ensures profile.None? ==> r == Redirect(Navigation("/auth/login", false))
    ensures profile.Some? && profile.value.role != Official ==> r == Redirect(Navigation("/home", false))
  {
    match profile
    case None => Redirect(Navigation("/auth/login", false))
    case Some(p) =>
      match p.role
      case Official => Proceed(p)
      case Resident => Redirect(Navigation("/home", false))
  }

  /** A redirect from the gate never targets the dashboard itself. */
  lemma GateNeverLoops(profile: Option<UserProfile>)
    ensures Gate(profile).Redirect? ==> Gate(profile).nav.url != "/official-dashboard"
    ensures Gate(profile).Redirect? && profile.Some? ==> Gate(profile).nav.url == RoleHome(profile.value.role)
  {
  }

  /** `loadAnnouncements`: the author whose announcements are read, or `None` when there is no
      profile (the list is then `[]`). */
  function AuthorToLoad(profile: Option<UserProfile>): (r: Option<string>)
    ensures r.None? <==> profile.None?
    ensures r.Some? ==> r.value == profile.value.uid
  {
    match profile
    case None => None
    case Some(p) => Some(p.uid)
  }

  /** The list `loadAnnouncements` yields: `[]` without a profile, else the store's answer
      for the official's own announcements, errors included. The cache is not involved. */
  function LoadMine(storage: Storage, profile: Option<UserProfile>, fetched: Result<seq<Doc>, Error>)
    : (r: Result<seq<Announcement>, Error>)
    ensures profile.None? ==> r == Ok([])
    ensures profile.Some? ==> r == ReadWithoutCache(storage, fetched).0
    ensures r.Err? ==> profile.Some? && fetched.Err?
  {
    match AuthorToLoad(profile)
    case None => Ok([])
    case Some(_) => ReadWithoutCache(storage, fetched).0
  }

  /** The dashboard's state. `closed` records that the profile subscription has ended, which
      happens when a load fails: its error handler runs and no later profile is seen. */
  datatype DashboardView = DashboardView(
    profile: Option<UserProfile>,
    announcements: seq<Announcement>,
    isLoading: bool,
    closed: bool)

  const InitialView := DashboardView(None, [], true, false)

  /** One profile emission with the store's answer for the load it may trigger. */
  datatype ProfileEmission = ProfileEmission(profile: Option<UserProfile>, fetched: Result<seq<Doc>, Error>)

  /** The effect of one emission of the profile stream. */
  function OnProfile(v: DashboardView, storage: Storage, e: ProfileEmission): (r: (DashboardView, seq<Effect>))
    ensures v.closed ==> r == (v, [])
    ensures !v.closed && Gate(e.profile).Redirect? ==> r == (v, [Navigate(Gate(e.profile).nav)])
    ensures !v.closed && Gate(e.profile).Proceed? ==>
              && r.0.profile == e.profile
              && !r.0.isLoading
              && (e.fetched.Ok? <==> !r.0.closed)
              && (e.fetched.Ok? ==> r.0.announcements == MapDocs(e.fetched.value) && r.1 == [])
              && (e.fetched.Err? ==> r.0.announcements == v.announcements
                                     && r.1 == [Notify(Toast("Failed to load announcements", Danger))])
  {
    if v.closed then (v, [])
    else
      match Gate(e.profile)
      case Redirect(nav) => (v, [Navigate(nav)])
      case Proceed(p) =>
        match LoadMine(storage, Some(p), e.fetched)
        case Ok(list) => (v.(profile := Some(p), announcements := list, isLoading := false), [])
        case Err(_) =>
          (v.(profile := Some(p), isLoading := false, closed := true),
           [Notify(Toast("Failed to load announcements", Danger))])
  }

  /** An official's profile whose load fails: the subscription's error handler runs and the
      profile subscription ends. */
  predicate EndsStream(e: ProfileEmission) {
    e.profile.Some? && e.profile.value.role == Official && e.fetched.Err?
  }

  /** The profile stream processed emission by emission. The subscription has ended exactly when
      it had already ended or some emission's load failed; each emission has at most one effect. */
  function RunProfiles(v: DashboardView, storage: Storage, es: seq<ProfileEmission>): (r: (DashboardView, seq<Effect>))
    ensures r.0.closed <==> v.closed || exists i :: 0 <= i < |es| && EndsStream(es[i])
    ensures |r.1| <= |es|
    decreases |es|
  {
    if es == [] then (v, [])
    else
      var (v1, f1) := OnProfile(v, storage, es[0]);
      var (v2, f2) := RunProfiles(v1, storage, es[1..]);
      assert v1.closed <==> v.closed || EndsStream(es[0]);
      ExistsCons(EndsStream, es);
      (v2, f1 + f2)
  }

  /** After a failed load every later emission is ignored: neither the list nor the screen
      changes, and there are no more effects. */
  lemma {:induction false} ClosedStreamIgnoresEmissions(v: DashboardView, storage: Storage, es: seq<ProfileEmission>)
    requires v.closed
    ensures RunProfiles(v, storage, es) == (v, [])
    decreases |es|
  {
    if es != [] {
      assert OnProfile(v, storage, es[0]) == (v, []);
      ClosedStreamIgnoresEmissions(v, storage, es[1..]);
      var e: seq<Effect> := [];
      assert e + e == e;
      assert RunProfiles(v, storage, es) == (v, e + e);
    }
  }

  /** A resident who reaches the dashboard never sees any announcement: the list stays as it was. */
  lemma {:induction false} ResidentsLoadNothing(v: DashboardView, storage: Storage, es: seq<ProfileEmission>)
    requires forall i :: 0 <= i < |es| ==> es[i].profile.None? || es[i].profile.value.role == Resident
    ensures RunProfiles(v, storage, es).0 == v
    decreases |es|
  {
    if es != [] {
      ResidentsLoadNothing(v, storage, es[1..]);
    }
  }

  /** `onRefresh`: reloads the official's announcements through a subscription of its own, so
      it works even after the profile subscription has ended. On failure the list is kept. */
  function OnRefresh(v: DashboardView, storage: Storage, fetched: Result<seq<Doc>, Error>): (r: (DashboardView, seq<Effect>))
    ensures !r.0.isLoading
    ensures r.0.(isLoading := v.isLoading, announcements := v.announcements) == v
    ensures LoadMine(storage, v.profile, fetched).Ok? ==>
              r.0.announcements == LoadMine(storage, v.profile, fetched).value
              && r.1 == [Notify(Toast("Announcements refreshed", Success))]
    ensures LoadMine(storage, v.profile, fetched).Err? ==>
              r.0.announcements == v.announcements && r.1 == [Notify(Toast("Failed to refresh", Danger))]
  {
    match LoadMine(storage, v.profile, fetched)
    case Ok(list) => (v.(announcements := list, isLoading := false), [Notify(Toast("Announcements refreshed", Success))])
    case Err(_) => (v.(isLoading := false), [Notify(Toast("Failed to refresh", Danger))])
  }

  /** After a failed load has ended the profile subscription, a successful refresh still brings
      the list up to date with the store. */
  lemma RefreshAfterFailedLoad(v: DashboardView, storage: Storage, e: ProfileEmission, docs: seq<Doc>)
    requires !v.closed && e.profile.Some? && e.profile.value.role == Official && e.fetched.Err?
    ensures var (failed, _) := OnProfile(v, storage, e);
            && failed.closed
            && OnRefresh(failed, storage, Ok(docs)).0.announcements == MapDocs(docs)
  {
  }

  /** The announcement form opened from the dashboard, with the `id` query parameter if any. */
  datatype FormLink = FormLink(url: string, id: Option<string>)

  /** `onCreateNew`: the form without a query parameter. */
  function OnCreateNew(): (r: FormLink)
    ensures r.url == "/announcement-form" && r.id.None?
  {
    FormLink("/announcement-form", None)
  }

  /** `onEdit`: the form with the announcement's id as `id` (left out when there is none). */
  function OnEdit(a: Announcement): (r: FormLink)
    ensures r.url == "/announcement-form" && r.id == a.id
  {
    FormLink("/announcement-form", a.id)
  }

  /** The form opened by "new" is in create mode; the one opened by "edit" is in edit mode
      exactly when the announcement has a non-empty id. */
  lemma FormLinksSetMode(a: Announcement, f: AnnouncementForm.FormState, loaded: Result<Option<Announcement>, Error>)
    ensures !AnnouncementForm.OnQueryParams(f, OnCreateNew().id, loaded).0.isEditMode
    ensures AnnouncementForm.OnQueryParams(f, OnEdit(a).id, loaded).0.isEditMode <==> a.id.Some? && a.id.value != ""
  {
  }

  /** Editing a stored announcement opens the form filled with its stored title, description
      and category. */
  lemma EditShowsStoredFields(store: Store, id: string, f: AnnouncementForm.FormState)
    requires id != "" && id in store
    ensures var a := GetAnnouncementById(store, id).value;
            var (g, effects) := AnnouncementForm.OnQueryParams(f, OnEdit(a).id, Ok(GetAnnouncementById(store, id)));
            && g.isEditMode && !g.isLoading && effects == []
            && g.title == store[id].title && g.description == store[id].description && g.category == store[id].category
  {
  }

  /** The outcome of the delete call. */
  datatype DeleteOutcome = Deleted | DeleteFailed

  /** `onDelete` after the user confirmed: nothing is attempted unless the id is truthy (present
      and non-empty); a successful
      delete removes every entry with that id, a failed one leaves the list alone. Returns the
      new list, whether the store was asked, and the toasts shown. */
  function OnDelete(list: seq<Announcement>, target: Announcement, outcome: DeleteOutcome)
    : (r: (seq<Announcement>, bool, seq<Effect>))
    ensures r.1 <==> target.id.Some? && target.id.value != ""
    ensures !r.1 ==> r.0 == list && r.2 == []
    ensures r.1 && outcome == DeleteFailed ==> r.0 == list && r.2 == [Notify(Toast("Failed to delete announcement", Danger))]
    ensures r.1 && outcome == Deleted ==> r.2 == [Notify(Toast("Announcement deleted", Success))]
    ensures r.1 && outcome == Deleted ==>
              && IsSubsequence(r.0, list)
              && (forall i :: 0 <= i < |r.0| ==> r.0[i].id != target.id)
              && (forall i :: 0 <= i < |list| ==> (list[i] in r.0 <==> list[i].id != target.id))
  {
    if !AnnouncementForm.Truthy(target.id) then (list, false, [])
    else
      match outcome
      case Deleted => (Filter(OtherThan(target.id), list), true, [Notify(Toast("Announcement deleted", Success))])
      case DeleteFailed => (list, true, [Notify(Toast("Failed to delete announcement", Danger))])
  }

  function OtherThan(id: Option<string>): Announcement -> bool {
    (a: Announcement) => a.id != id
  }

  /** Deleting keeps every other entry in order and removes exactly the entries sharing the id. */
  lemma DeleteCounts(list: seq<Announcement>, target: Announcement)
    requires target.id.Some? && target.id.value != ""
    ensures var r := OnDelete(list, target, Deleted).0;
            |r| + Count(SameId(target.id), list) == |list|
  {
    CountSplit(SameId(target.id), OtherThan(target.id), list);
  }

  function SameId(id: Option<string>): Announcement -> bool {
    (a: Announcement) => a.id == id
  }

  /** A delete removes the entry from the list and from the store alike: the local list after a
      successful delete is the list read back without the deleted document. */
  lemma DeleteMatchesStore(store: Store, docs: seq<Doc>, id: string)
    requires id != ""
    requires forall i :: 0 <= i < |docs| ==> docs[i].id in store && store[docs[i].id] == docs[i].data
    ensures var target := MapDoc(Doc(id, if id in store then store[id] else DocData("", "", "", "", "", 0)));
            var after := DeleteAnnouncement(store, id);
            forall i :: 0 <= i < |OnDelete(MapDocs(docs), target, Deleted).0| ==>
              var a := OnDelete(MapDocs(docs), target, Deleted).0[i];
              a.id.Some? && GetAnnouncementById(after, a.id.value) == Some(a)
  {
    var target := MapDoc(Doc(id, if id in store then store[id] else DocData("", "", "", "", "", 0)));
    var list := MapDocs(docs);
    var r := OnDelete(list, target, Deleted).0;
    forall i | 0 <= i < |r|
      ensures r[i].id.Some? && GetAnnouncementById(DeleteAnnouncement(store, id), r[i].id.value) == Some(r[i])
    {
      var j :| 0 <= j < |list| && list[j] == r[i];
      assert list[j].id == Some(docs[j].id) && DataOf(list[j]) == docs[j].data;
      assert docs[j].id != id;
    }
  }

  function InCategory(category: string): Announcement -> bool {
    (a: Announcement) => a.category == category
  }

  /** `getCategoryCount`: the number of listed announcements in that category. */
  function CategoryCount(list: seq<Announcement>, category: string): (n: nat)
    ensures n <= |list|
    ensures n == |Filter(InCategory(category), list)|
    ensures n == 0 <==> forall i :: 0 <= i < |list| ==> list[i].category != category
  {
    var r := Filter(InCategory(category), list);
    assert r != [] ==> r[0] in list && r[0].category == category;
    |r|
  }

  /** The category counters add up to the list length when every entry's category is counted. */
  lemma {:induction false} CategoryCountsPartition(list: seq<Announcement>, category: string)
    ensures CategoryCount(list, category) + Count((a: Announcement) => a.category != category, list) == |list|
  {
    CountSplit(InCategory(category), (a: Announcement) => a.category != category, list);
  }

  function PostedSince(threshold: int): Announcement -> bool {
    (a: Announcement) => a.datePosted >= threshold
  }

  /** `getRecentCount`: entries posted at or after the same local time seven calendar days ago.
      `setDate(getDate() - 7)` in a fixed-offset zone is exactly seven days of milliseconds
      earlier (`ShiftDays`). */
  function RecentCount(c: Clock, list: seq<Announcement>): (n: nat)
    ensures n <= |list|
    ensures n == |Filter(PostedSince(c.now - 7 * DayMs), list)|
    ensures n == 0 <==> forall i :: 0 <= i < |list| ==> list[i].datePosted < c.now - 7 * DayMs
  {
    var r := Filter(PostedSince(c.now - 7 * DayMs), list);
    assert r != [] ==> r[0] in list && r[0].datePosted >= c.now - 7 * DayMs;
    |r|
  }

  /** The dashboard's "this week" counter counts what the search screen's "week" range keeps:
      the entries `RecentCount` counts are exactly those the search range accepts. */
  lemma RecentCountIsSearchWeek(c: Clock, list: seq<Announcement>)
    ensures Count(PostedSince(c.now - 7 * DayMs), list) == Count(SearchPage.ByDateRange("week", c), list)
  {
    SameWeek(c);
    CountExt(PostedSince(c.now - 7 * DayMs), SearchPage.ByDateRange("week", c), list);
  }

  /** The dashboard's cut-off and the search screen's `'week'` range accept the same entries. */
  lemma SameWeek(c: Clock)
    ensures forall a: Announcement :: PostedSince(c.now - 7 * DayMs)(a) == SearchPage.ByDateRange("week", c)(a)
  {
    forall a: Announcement
      ensures PostedSince(c.now - 7 * DayMs)(a) == SearchPage.ByDateRange("week", c)(a)
    {
      SearchPage.WeekRange(c, a.datePosted);
    }
  }
}
