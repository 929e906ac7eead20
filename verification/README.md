# komunidad bulletin board — a Dafny model of its core

komunidad is an Ionic/Angular app for barangay (neighbourhood) announcements. Residents read
their barangay's feed and search across every barangay. Officials post, edit and delete
announcements from a dashboard. This project models the app's decision logic as pure Dafny
functions and proves properties about them:

- the advanced-search pipeline: four filters, a stable sort and a relevance score;
- the home feed's filter;
- both screens' "relative date" labels;
- navigation: the two guards, the route table, where the app lands after startup, login and
  registration, and the dashboard's own role gate;
- the login, registration and announcement-form validators, with their error messages;
- the small state machines: the announcement service's single-slot offline cache, the
  dashboard's delete, refresh and counters, and the barangay upload script's line parser.

Each TypeScript component is one module. Timestamps are integer milliseconds. A stream of
values (an RxJS observable) is a sequence of emissions. Firestore is a finite map from
document id to document data. Local storage is a map from key to cached list. Anything the
app reads from outside (the clock, the store's answer, the user's input) is a parameter.

Modules:

- `Wrappers`: `Option` and `Result`.
- `Seqs`: filtering, counting and a stable sort.
- `Text`: JavaScript's `trim`, `toLowerCase`, `includes` and `startsWith`, `split(/\r?\n/)`,
  and number formatting.
- `Calendar`: local dates in a fixed-offset zone, the way `Date` builds and compares them.
- `Domain`: the shared records (profiles, announcements, toasts, navigations).
- `AnnouncementService`, `SearchPage`, `HomePage`, `DashboardPage`, `AnnouncementForm`:
  the service and the four screens.
- `RelativeDate`: the date labels of the search and home screens.
- `Guards`, `Routes`, `AppComponent`, `LoginPage`, `RegisterPage`: navigation.
- `UploadBarangays`: the seeding script.

## Model

| member | source | states |
|---|---|---|
| SearchPage.OnSearchInput | src/app/resident/search/search.page.ts:171-174 | the stored query is the input with every letter lower-cased, or "" when there is no input; no other filter changes |
| SearchPage.ClearAllFilters | src/app/resident/search/search.page.ts:191-198 | after clearing, the query is "", no search is active and the sort is "newest" |
| SearchPage.IsSearchActive | src/app/resident/search/search.page.ts:290-295 | no search is active exactly when the filters, with the query trimmed and the sort ignored, are the defaults |
| SearchPage.SearchActiveIgnoresSort | src/app/resident/search/search.page.ts:290-295 | whether a search is active depends on the query, category, date range and barangay, never on the sort |
| SearchPage.RelevanceScore | src/app/resident/search/search.page.ts:264-282 | the relevance score is never negative and is at most 25 for an announcement not dated in the future; it equals the exact integer score divided by one day in ms |
| SearchPage.ScaledRelevanceOrder | src/app/resident/search/search.page.ts:250-254 | sorting by the exact integer score orders announcements as the real-valued score does |
| SearchPage.RelevanceFavoursRecent | src/app/resident/search/search.page.ts:277-279 | moving an announcement's post date later never lowers its score |
| SearchPage.SortKey | src/app/resident/search/search.page.ts:246-259 | an ascending key that orders "oldest" by ascending date, "relevant" by descending score and anything else by descending date |
| SearchPage.InDateRange | src/app/resident/search/search.page.ts:213-235 | "today" keeps exactly the posts on today's local day number; an unrecognised range keeps everything |
| SearchPage.ApplyFilters | src/app/resident/search/search.page.ts:200-261 | the result has exactly as many entries as there are announcements the reference predicate `Matches` accepts |
| SearchPage.ApplyFiltersIsSortedMatches | src/app/resident/search/search.page.ts:200-261 | the four staged filters followed by the sort give the stable sort of exactly the announcements the reference predicate `Matches` accepts |
| SearchPage.ApplyFiltersSpec | src/app/resident/search/search.page.ts:200-261 | the result is a permutation of the matching announcements: every entry matches, every match appears, it is sorted by the chosen key, and entries with equal keys keep their original order |
| SearchPage.SortOrders | src/app/resident/search/search.page.ts:246-259 | "oldest" gives ascending dates, "relevant" gives non-increasing relevance, and any other value gives descending dates |
| SearchPage.InactiveSearchShowsAll | src/app/resident/search/search.page.ts:200-243 | with no filter active, every announcement is shown (a permutation of all of them) |
| SearchPage.ApplyFiltersIdempotent | src/app/resident/search/search.page.ts:200-261 | filtering an already-filtered list again changes nothing |
| SearchPage.ApplyFiltersEmpty | src/app/resident/search/search.page.ts:200-261 | no announcements give no results |
| SearchPage.WeekBoundary | src/app/resident/search/search.page.ts:222-224 | the "week" range keeps a post made exactly 7×24 hours ago and drops one made a millisecond earlier |
| SearchPage.QueryNotTrimmedWhenMatching | src/app/resident/search/search.page.ts:238-243 | the query is trimmed only to decide whether it is active: "flood " does not match the title "flood" |
| SearchPage.AddBarangayNames | src/app/resident/search/search.page.ts:151-155 | every loaded barangay id, and every id already known, has a name in the map |
| SearchPage.AddBarangayNamesLastWins | src/app/resident/search/search.page.ts:154 | after loading, an id maps to the name of the last barangay with that id; ids not loaded keep their earlier entry |
| SearchPage.LastNameForCons | src/app/resident/search/search.page.ts:154 | the last name for an id is the tail's last name if there is one, else the head's name when its id matches |
| SearchPage.BarangayName | src/app/resident/search/search.page.ts:327-329 | a known non-empty name is shown as stored; an unknown id or an empty name shows "Unknown Barangay" |
| SearchPage.BarangayNameAfterLoad | src/app/resident/search/search.page.ts:327-329 | after loading, an id shows the last loaded name for it, or "Unknown Barangay" when no barangay has that id or the last one has an empty name |
| RelativeDate.RenderSingular | src/app/home/home.page.ts:232-246 | a count reads "1 <unit> ago" exactly when it is 1 |
| RelativeDate.SearchLabel | src/app/resident/search/search.page.ts:297-325 | "Just now" exactly when less than 2 minutes have passed (future dates included); "Today" never; "Yesterday" exactly for 1 to 2 days; 2 minutes to an hour reads the whole minutes, an hour to a day the whole hours, and two days or more the corrected home buckets of the whole days |
| RelativeDate.SearchTwelveMonths | src/app/resident/search/search.page.ts:318-320 | 360 to 364 days ago reads "12 months ago" |
| RelativeDate.ElapsedDays | src/app/home/home.page.ts:207-211 | the four nested floors of seconds, minutes, hours and days equal one floor of the difference by a day in ms |
| RelativeDate.HomeLabel | src/app/home/home.page.ts:204-247 | "Today" when the local calendar dates agree; otherwise "Yesterday" when the post's date is one local day before today; otherwise an "ago" bucket |
| RelativeDate.HomeBuckets | src/app/home/home.page.ts:230-246 | under 7 days the label counts days, from 7 to 27 days whole weeks, from 28 to 359 days `days / 30` months, and from 360 days on `days / 365` years |
| RelativeDate.HomeZeroCounts | src/app/home/home.page.ts:235-246 | as written, posts 28 or 29 days old read "0 months ago" and posts 360 to 364 days old read "0 years ago" |
| RelativeDate.HomeZeroMonthsExample | src/app/home/home.page.ts:204-247 | a post at the 1970 epoch seen 28 days later, in UTC, is labelled "0 months ago" |
| RelativeDate.HomeLabelFixed | src/app/home/home.page.ts:204-247 | same "Today"/"Yesterday" rule; a post in the past never gets a zero count |
| RelativeDate.FixedBuckets | src/app/resident/search/search.page.ts:313-324 | at least one day old means a count of at least 1; days below 7, weeks below 30 days, months below 365 days, then years, as the search screen buckets them |
| RelativeDate.SearchAgreesWithFixedHome | src/app/resident/search/search.page.ts:313-324 | for a post two days old or more that is from neither today nor yesterday, the search label equals the corrected home label |
| RelativeDate.HomeLabelFixedAgrees | src/app/home/home.page.ts:204-247 | the corrected label differs from the written one only where the written one says "0 months ago" (28–29 days) or "0 years ago" (360–364 days) |
| RelativeDate.BucketsAgree | src/app/home/home.page.ts:230-246 | the two bucketings differ exactly for 28–29 and 360–364 days |
| RelativeDate.HomeLabelCases | src/app/home/home.page.ts:216-228 | both home labels check the same "Today" and "Yesterday" rules before their buckets |
| Calendar.DaysFromCivilRoundTrip | src/app/resident/search/search.page.ts:284-288 | the date of a day number has a month in 0..11 and a day in 1..31, and the first day of that month plus the day, less one, is the day number again |
| Calendar.YearOfEraBounds | src/app/resident/search/search.page.ts:284-288 | every day of a 400-year era lies in one of its 400 years, at most 365 days after that year's start |
| Calendar.IsSameDay | src/app/resident/search/search.page.ts:284-288 | two instants have equal local year, month and day exactly when they fall on the same local day number |
| Calendar.NormalizeMonth | src/app/resident/search/search.page.ts:226-229 | a month index out of 0..11 rolls into the neighbouring year, keeping year×12+month |
| Calendar.LocalMidnight | src/app/resident/search/search.page.ts:226-229 | building a date from year, month and day gives local midnight of that date; years 0..99 mean 1900..1999 |
| Calendar.ShiftDays | src/app/home/home.page.ts:223-224 | moving a date back one day moves its local day number back by one |
| Calendar.MonthsBeforeRollover | src/app/resident/search/search.page.ts:225-230 | "k months ago" is the same day of month k months earlier, rolling into the previous year when needed |
| HomePage.ApplyFilters | src/app/home/home.page.ts:168-188 | the feed keeps, in order, exactly the announcements in the chosen category whose lower-cased title or description contains the trimmed, lower-cased query (any when the query is blank) |
| HomePage.FeedIgnoresPaddingAndCase | src/app/home/home.page.ts:179-180 | padding the query with spaces or changing its case never changes the feed |
| HomePage.UnfilteredFeed | src/app/home/home.page.ts:168-188 | category "All" and a blank query show the whole feed unchanged |
| HomePage.AreaToLoad | src/app/home/home.page.ts:137-142 | a feed is read only for a profile with a non-empty barangay id |
| HomePage.LoadFeed | src/app/home/home.page.ts:137-142 | without a barangay the feed is empty and storage unchanged; otherwise it is the cached service read for that barangay |
| HomePage.FindBarangay | src/app/home/home.page.ts:128 | the first barangay with the id, or none when no barangay has it |
| HomePage.BarangayNameFor | src/app/home/home.page.ts:123-135 | the header shows the found barangay's name, and "" when it is missing or the read fails |
| HomePage.OnProfile | src/app/home/home.page.ts:94-121 | a null profile navigates to the login screen and changes nothing else; a profile loads its barangay name and feed and keeps the filter in sync |
| HomePage.RunProfiles | src/app/home/home.page.ts:94-121 | over a profile stream, at most one navigation per emission, each to the login screen |
| HomePage.RunProfilesRedirects | src/app/home/home.page.ts:97-103 | each null profile, and nothing else, sends the user to the login screen |
| HomePage.RunProfilesInSync | src/app/home/home.page.ts:110-115 | the shown list stays equal to the filtered feed across every profile emission |
| HomePage.SelectCategory | src/app/home/home.page.ts:157-160 | choosing a category re-filters and changes nothing else |
| HomePage.SearchSettled | src/app/home/home.page.ts:162-166 | once the typed text settles, the query is the input (or "" when absent) and the list is re-filtered |
| HomePage.OnRefresh | src/app/home/home.page.ts:144-155 | a refresh re-reads the feed through the cache and re-filters; nothing else changes |
| AnnouncementService.MapDoc | src/app/services/announcement.ts:209-220 | an announcement carries the document's id and exactly its stored fields |
| AnnouncementService.MapDocs | src/app/services/announcement.ts:191-204 | one announcement per document, in order, each with its document's id and fields |
| AnnouncementService.MapDocsAppend | src/app/services/announcement.ts:191-204 | mapping distributes over concatenation |
| AnnouncementService.CachedAnnouncements | src/app/services/announcement.ts:180-186 | the cached list, or [] when nothing was cached |
| AnnouncementService.GetAnnouncements | src/app/services/announcement.ts:58-75 | a successful read returns the mapped documents and overwrites the single cache slot, leaving other keys alone; a failed read returns the cached list and changes nothing |
| AnnouncementService.RunReadsCache | src/app/services/announcement.ts:68-71 | after a run of reads, the cache holds the last successful result, or what it held before if none succeeded |
| AnnouncementService.RunReads | src/app/services/announcement.ts:58-75 | a run of reads returns one list per read |
| AnnouncementService.LastSuccessCons | src/app/services/announcement.ts:68-71 | the last success of a run is the tail's last success if any, else the head's result when it succeeded |
| AnnouncementService.FailedReadReturnsLastSuccess | src/app/services/announcement.ts:71 | a failed read returns the last successful read of any barangay, or the prior cache |
| AnnouncementService.RunReadsAppend | src/app/services/announcement.ts:58-75 | running two batches of reads in a row is running their concatenation |
| AnnouncementService.CacheIgnoresArea | src/app/services/announcement.ts:38 | the cache key ignores the barangay: after a successful read for one barangay, a failed read for another returns the first one's list |
| AnnouncementService.ReadWithoutCache | src/app/services/announcement.ts:80-114 | the uncached reads never touch storage and pass errors through |
| AnnouncementService.GetAnnouncementById | src/app/services/announcement.ts:119-133 | null exactly when no document has the id; otherwise the document with that id |
| AnnouncementService.CreateAnnouncement | src/app/services/announcement.ts:138-148 | adding a document adds exactly the new id and leaves every other document alone |
| AnnouncementService.CreateThenGet | src/app/services/announcement.ts:138-148 | reading a created announcement back gives its fields, the new id and the creation time |
| AnnouncementService.UpdateAnnouncement | src/app/services/announcement.ts:153-159 | an update succeeds exactly when the document exists, and touches no other document |
| AnnouncementService.UpdateKeepsImmutableFields | src/app/services/announcement.ts:153-159 | an update changes only the given title, description and category; id, barangay, author and date stay |
| AnnouncementService.DeleteAnnouncement | src/app/services/announcement.ts:164-167 | after a delete the id reads as null and every other id reads as before |
| DashboardPage.Gate | src/app/official/dashboard/dashboard.page.ts:74-84 | only an official's profile goes through; null goes to the login screen and a resident to "/home" |
| DashboardPage.GateNeverLoops | src/app/official/dashboard/dashboard.page.ts:74-84 | the gate never redirects to the dashboard itself; a rejected profile goes to its own role's home |
| DashboardPage.AuthorToLoad | src/app/official/dashboard/dashboard.page.ts:102-107 | announcements are read by the signed-in user's uid, or not at all |
| DashboardPage.LoadMine | src/app/official/dashboard/dashboard.page.ts:102-107 | with no profile the list is empty; otherwise it is the uncached read, which fails only when the store does |
| DashboardPage.OnProfile | src/app/official/dashboard/dashboard.page.ts:71-100 | a rejected profile only navigates; an official's profile loads the list, or on failure shows "Failed to load announcements" and ends the subscription |
| DashboardPage.RunProfiles | src/app/official/dashboard/dashboard.page.ts:71-100 | over a profile stream, the subscription has ended exactly when it already had or some official's load failed; at most one effect per emission |
| DashboardPage.ClosedStreamIgnoresEmissions | src/app/official/dashboard/dashboard.page.ts:95-98 | after a load error, later profile emissions have no effect |
| DashboardPage.ResidentsLoadNothing | src/app/official/dashboard/dashboard.page.ts:79-82 | profiles that are null or residents never change the dashboard |
| DashboardPage.OnRefresh | src/app/official/dashboard/dashboard.page.ts:171-186 | a refresh replaces the list and says "Announcements refreshed", or keeps it and says "Failed to refresh"; loading ends either way |
| DashboardPage.RefreshAfterFailedLoad | src/app/official/dashboard/dashboard.page.ts:171-186 | a refresh still reloads the list after the profile stream has closed |
| DashboardPage.OnCreateNew | src/app/official/dashboard/dashboard.page.ts:109-111 | "new" opens the form with no id |
| DashboardPage.OnEdit | src/app/official/dashboard/dashboard.page.ts:113-117 | "edit" opens the form with the announcement's id |
| DashboardPage.FormLinksSetMode | src/app/official/dashboard/dashboard.page.ts:109-117 | the "new" link opens the form in create mode; the "edit" link opens edit mode exactly when the id is non-empty |
| DashboardPage.EditShowsStoredFields | src/app/official/dashboard/dashboard.page.ts:113-117 | editing a stored announcement fills the form with its title, description and category |
| DashboardPage.OnDelete | src/app/official/dashboard/dashboard.page.ts:119-151 | the store is asked exactly when the id is truthy (present and non-empty), otherwise nothing happens; a failure keeps the list; a success removes exactly the entries with that id, keeping the others in order |
| DashboardPage.DeleteCounts | src/app/official/dashboard/dashboard.page.ts:139 | a delete removes exactly as many entries as share the id |
| DashboardPage.DeleteMatchesStore | src/app/official/dashboard/dashboard.page.ts:131-145 | every entry left after a local delete is still in the store, unchanged, once the store deletes the same id |
| DashboardPage.CategoryCount | src/app/official/dashboard/dashboard.page.ts:161-163 | the count is the number of listed announcements in the category, zero exactly when none is |
| DashboardPage.CategoryCountsPartition | src/app/official/dashboard/dashboard.page.ts:161-163 | entries in a category plus entries outside it make the whole list |
| DashboardPage.RecentCount | src/app/official/dashboard/dashboard.page.ts:165-169 | counts the entries posted at or after the same local time seven days ago, and is zero exactly when every entry is older |
| DashboardPage.RecentCountIsSearchWeek | src/app/official/dashboard/dashboard.page.ts:165-169 | the entries the dashboard's recent count accepts are exactly those the search screen's "This Week" range keeps, so both count the same |
| AnnouncementForm.OnQueryParams | src/app/official/announcement-form/announcement-form.page.ts:82-106 | edit mode exactly when the id is non-empty; only an existing announcement overwrites the fields; a load failure shows "Failed to load announcement" and is the only case with a toast (a missing document shows none); loading always ends |
| AnnouncementForm.RunQueryParams | src/app/official/announcement-form/announcement-form.page.ts:82-106 | over a stream of parameter values, the subscription ends exactly when some load fails, and the only toast ever shown is one "Failed to load announcement", exactly then; without a failure the form follows the last value's id and edit mode and is not loading |
| AnnouncementForm.LaterParamsIgnored | src/app/official/announcement-form/announcement-form.page.ts:101-104 | after the first failed load, later parameter values change neither the form nor the toasts |
| AnnouncementForm.NewFormDefaults | src/app/official/announcement-form/announcement-form.page.ts:64-69 | a new form has empty text, category "General", no id, and is not in edit mode |
| AnnouncementForm.SubmitCall | src/app/official/announcement-form/announcement-form.page.ts:119-141 | an update is sent exactly in edit mode with an id; otherwise a create owned by the profile's barangay and uid |
| AnnouncementForm.Perform | src/app/official/announcement-form/announcement-form.page.ts:119-142 | the service call changes the store exactly as the service's create or update does |
| AnnouncementForm.OnSubmit | src/app/official/announcement-form/announcement-form.page.ts:108-153 | an empty field shows "Please fill in all fields" and sends nothing; with no profile nothing is sent; success toasts and navigates to the dashboard; failure names "update" or "create" |
| AnnouncementForm.SubmitCreateThenGet | src/app/official/announcement-form/announcement-form.page.ts:129-146 | submitting a new announcement stores it under the new id, owned by the submitter, and changes no other document |
| AnnouncementForm.SubmitEditKeepsOwnership | src/app/official/announcement-form/announcement-form.page.ts:120-128 | an edit saves exactly when the document exists and changes only its title, description and category |
| Guards.AuthGuard | src/app/guards/auth.guard.ts:10-20 | decides on the first auth state: a user is allowed, no user is sent to the login screen |
| Guards.AuthGuardFirstOnly | src/app/guards/auth.guard.ts:11 | later auth states never change the decision |
| Guards.DecideRole | src/app/guards/auth.guard.ts:31-48 | allows exactly the required role; any other role goes to its own home |
| Domain.RoleHome | src/app/guards/auth.guard.ts:40-45 | an official's home is "/official-dashboard" and a resident's "/home", and each URL belongs to that role only |
| Guards.RoleGuard | src/app/guards/auth.guard.ts:28-49 | decides on the first non-null profile and waits while there is none |
| Guards.RoleGuardNeverToLogin | src/app/guards/auth.guard.ts:29-35 | the role guard never sends anyone to the login screen |
| Guards.RoleGuardSkipsNull | src/app/guards/auth.guard.ts:29 | a leading null profile does not change the decision |
| Guards.RoleGuardMismatch | src/app/guards/auth.guard.ts:39-46 | a profile of the wrong role is sent to its own role's home |
| Routes.Params | src/app/app.routes.ts:48-52 | every ":name" segment of a matched path binds a parameter |
| Routes.MatchAt | src/app/app.routes.ts:4-65 | a matched URL resolves to at least one page, taken from a route in the table |
| Routes.MatchChildren | src/app/app.routes.ts:23-41 | a matched child URL shows a page some child route of the list names |
| Routes.Resolve | src/app/app.routes.ts:4-65 | a resolved URL shows at least one page, the first being the page of a route of the table, with that route's guards and role |
| Routes.RunGuards | src/app/app.routes.ts:21 | a route opens exactly when each of its guards allows; otherwise the outcome is one guard's decision |
| Routes.Visit | src/app/app.routes.ts:4-65 | a page is shown only for a URL that resolves to it and only when all its guards allow |
| Routes.EntryRoute | src/app/app.routes.ts:5-13 | the empty URL redirects to the login page, which has no guard |
| Routes.RegisterRoute | src/app/app.routes.ts:14-17 | "auth/register" opens the registration page with no guard |
| Routes.TabsHomeRoute | src/app/app.routes.ts:18-27 | "tabs/home" opens the home tab behind the auth and resident-role guards |
| Routes.TabsRoute | src/app/app.routes.ts:36-40 | "tabs" alone redirects to its home tab |
| Routes.TabsChildLanding | src/app/app.routes.ts:36-40 | the tabs' empty child path lands on "home" |
| Routes.HomeRedirectRoute | src/app/app.routes.ts:43-47 | "home" redirects to "tabs/home" |
| Routes.SearchTabRoute | src/app/app.routes.ts:28-31 | "tabs/search" opens the search tab behind the resident guards |
| Routes.DetailRoute | src/app/app.routes.ts:48-52 | "announcement/<id>" opens the detail page with the id bound, behind the auth guard only |
| Routes.DashboardRoute | src/app/app.routes.ts:53-58 | "official-dashboard" opens the dashboard behind the official guards |
| Routes.FormRoute | src/app/app.routes.ts:59-64 | "announcement-form" opens the form behind the official guards |
| Routes.OfficialStartRoute | src/app/app.routes.ts:53-58 | the URL "/official-dashboard" resolves to the dashboard |
| Routes.ResidentStartRoute | src/app/app.routes.ts:43-47 | the URL "/home" resolves to the home tab |
| Routes.ResidentLandingRoute | src/app/app.routes.ts:18-27 | the URL "/tabs/home" resolves to the home tab |
| Routes.RoleHomeRoute | src/app/app.routes.ts:18-58 | each role's home URL resolves to that role's page |
| Routes.RoleHomeOpens | src/app/guards/auth.guard.ts:37-46 | a signed-in user's own home always opens |
| Routes.NoRedirectLoop | src/app/guards/auth.guard.ts:39-46 | for a signed-in user, a guard redirect always goes to the user's home, and that page opens |
| Routes.RolePagesNeedRole | src/app/app.routes.ts:18-64 | a page that was shown had its role guard and auth guard satisfied |
| Routes.RouteOfPage | src/app/app.routes.ts:4-65 | every page other than login and registration is behind the auth guard; tabs need a resident; dashboard and form need an official |
| Routes.OnlyEntryPagesArePublic | src/app/app.routes.ts:4-65 | only the login and registration pages open with no user signed in |
| Routes.TabsAreForResidents | src/app/app.routes.ts:18-42 | the tabs open only for a resident |
| Routes.OfficialPagesAreForOfficials | src/app/app.routes.ts:53-64 | the dashboard and the form open only for an official |
| AppComponent.StartupNavigation | src/app/app.component.ts:18-28 | a signed-in first profile replaces the URL with the role's landing page; no profile stays put |
| AppComponent.StartupFirstOnly | src/app/app.component.ts:18 | only the first profile counts |
| AppComponent.StartupMatchesLogin | src/app/app.component.ts:21-24 | startup and login send a profile to the same page |
| AppComponent.StartupLandingOpens | src/app/app.component.ts:21-24 | the startup landing page opens for the signed-in user |
| AppComponent.LoginLandingOpens | src/app/auth/login/login.page.ts:85-89 | the login landing page opens for the signed-in user |
| AppComponent.RegisterLandingOpens | src/app/auth/register/register.page.ts:131-135 | the registration landing page opens for the new user, redirecting through "/home" for a resident |
| AppComponent.MissingProfileWaits | src/app/auth/login/login.page.ts:85-89 | a sign-in without a profile lands on "/tabs/home", where the role guard keeps waiting |
| LoginPage.LoginErrorMessage | src/app/auth/login/login.page.ts:93-102 | each error code maps to its message, in order; a message mentioning "profile" gets the profile message; anything else "Login failed" |
| LoginPage.Landing | src/app/auth/login/login.page.ts:85-89 | officials land on the dashboard and everyone else, even with no profile, on "/tabs/home", replacing the URL |
| LoginPage.OnLogin | src/app/auth/login/login.page.ts:70-107 | an empty field only warns; otherwise sign in, read the profile by the user's uid, and toast and navigate on success or toast the mapped error on failure |
| LoginPage.LoginNavigatesOnlyOnSuccess | src/app/auth/login/login.page.ts:82-105 | the login screen navigates only after a success toast; every other outcome is one non-success toast |
| RegisterPage.EmptyForm | src/app/auth/register/register.page.ts:64-68 | the form starts with the resident role |
| RegisterPage.Validate | src/app/auth/register/register.page.ts:110-123 | a form passes exactly when all fields are filled, the passwords match and the password has at least 6 UTF-16 units; otherwise the first failing check's message |
| RegisterPage.MismatchReportedBeforeLength | src/app/auth/register/register.page.ts:115-123 | a short, mismatched password is reported as a mismatch |
| RegisterPage.RegisterErrorMessage | src/app/auth/register/register.page.ts:139-146 | each known error code maps to its message; anything else is "Registration failed" |
| RegisterPage.Landing | src/app/auth/register/register.page.ts:131-135 | officials land on the dashboard and residents on "/home", without replacing the URL |
| RegisterPage.OnRegister | src/app/auth/register/register.page.ts:108-150 | the account is created exactly when the form validates, with its email, password, role and barangay; success toasts and navigates, failure toasts the mapped error |
| RegisterPage.DefaultRegistrationIsResident | src/app/auth/register/register.page.ts:67 | an untouched role registers a resident |
| UploadBarangays.BarangayLines | scripts/upload-barangays.js:43 | the kept lines are, in file order, exactly those that are not blank and do not start with "#" |
| UploadBarangays.NamesBarangay | scripts/upload-barangays.js:43 | a line names a barangay exactly when it has a non-whitespace character and does not begin with "#" |
| UploadBarangays.StageBatch | scripts/upload-barangays.js:52-60 | one document per kept line, named by the trimmed line, and the count equals the number staged |
| UploadBarangays.Upload | scripts/upload-barangays.js:43-67 | nothing is uploaded when no line names a barangay; otherwise every kept line is staged and the commit either uploads them all or fails |
| UploadBarangays.UploadedNamesAreClean | scripts/upload-barangays.js:43-60 | uploaded names are non-empty and already trimmed, at most one per line of the file |
| UploadBarangays.CommentLinesDropped | scripts/upload-barangays.js:43 | no kept line starts with "#" |
| UploadBarangays.IndentedCommentKept | scripts/upload-barangays.js:43 | an indented "#" line is kept and uploaded as the name "#" |
| Text.Trim | src/app/resident/search/search.page.ts:238 | trimming removes exactly the leading and trailing white space and is empty exactly for a blank string |
| Text.TrimToLowerCommute | src/app/home/home.page.ts:180 | lower-casing and trimming can be done in either order |
| Text.ToLower | src/app/resident/search/search.page.ts:240-241 | lower-casing maps each character and keeps the length |
| Text.Contains | src/app/resident/search/search.page.ts:240-241 | a string contains a query exactly when the query occurs at some position |
| Text.SplitLinesCount | scripts/upload-barangays.js:43 | splitting on line breaks gives one more piece than there are line feeds |
| Text.JoinSplitLines | scripts/upload-barangays.js:43 | joining the pieces with "\n" gives the text with every "\r\n" turned into "\n" |
| Text.IntToStringOne | src/app/home/home.page.ts:232 | a count is written "1" exactly when it is 1 |
| Seqs.FourStages | src/app/resident/search/search.page.ts:201-243 | four filters applied in turn, each only when active, equal one filter by their conjunction |
| Seqs.SortByStable | src/app/resident/search/search.page.ts:246-259 | sorting keeps the original order among entries with the same key, as the stable array sort does |
| Seqs.SortBy | src/app/resident/search/search.page.ts:246-259 | the sort returns a permutation of its input ordered by the key |

## Left out

- Firestore's own `where` and `orderBy`: the store's answer to a query is a parameter, so the
  model never claims the feed arrives sorted by date.
- Debounce, `distinctUntilChanged` and `switchMap` cancellation: a settled search value is one
  input, and a newer emission replacing an older request is not modelled.
- AnnouncementForm.OnSubmit: uses the first non-null profile only; re-submission when the
  profile stream emits again is not modelled.
- Local-storage reads are assumed never to fail: the fallback read inside `catchError` of
  `getAnnouncements` always yields a list. The home feed's error handlers (the toast "Failed to
  load announcements" that ends the profile subscription, and the refresh's error branch) are
  reachable only through such a failure and are not modelled.
- The cache write in `getAnnouncements` is not awaited; the model applies it at once.
- Daylight-saving time: a zone is a fixed offset from UTC.
- Time read more than once: the clock is read once per operation. The relevance comparator
  reads `Date.now()` on every comparison, which can shift between comparisons; not modelled.
- SearchPage.RelevanceScore: floating-point rounding is not modelled; the score is exact
  (a real, or an integer in units of 1/86 400 000 of a point).
- Text.ToLower: lower-cases ASCII letters only; JavaScript's full Unicode case mapping is not
  modelled.
- Text.Contains: compares code points, where JavaScript compares UTF-16 code units; they
  agree except on unpaired surrogates. `Utf16Length` counts the units a password has.
- Routes.MatchAt: follows at most `RedirectLimit` (4) redirects; the table needs at most two.
  After a redirect it matches the new URL with redirects still allowed, where Angular's
  recognizer matches it at that level without following further redirects; no redirect
  target in the table is itself a redirect source, so the results agree for this table.
- The search screen's `loading` flag: with no error handler on `getAllAnnouncements`, a failed
  read leaves it set, and the model has no view state for it.
- Logging out, `viewDetails`, `formatDate`, password visibility toggles, the confirm dialog's
  Cancel button and the registration screen's barangay list: view-only or library calls.
- The profile page, the announcement-detail page, the toast service, the auth and barangay
  services and the Capacitor config: they are not part of this model beyond the records they
  hand to it.
- The upload script's Firebase Admin setup, its file read and its console output.

## Findings

| source | as written | input that shows it | evidently intended | confidence | as-written member | corrected member |
|---|---|---|---|---|---|---|
| src/app/home/home.page.ts:235-246 | weeks are shown while `diffDays / 7 < 4` and months while `diffDays / 30 < 12`, so days 28–29 give `diffDays / 30 == 0` and days 360–364 give `diffDays / 365 == 0` | a post 28 days old (e.g. the 1970 epoch seen 28 days later in UTC) reads "0 months ago"; 360 days old reads "0 years ago" | a non-zero count in every bucket (show weeks below 30 days and months below 365 days, as the search screen does) | not executed | RelativeDate.HomeLabel, RelativeDate.HomeZeroCounts, RelativeDate.HomeZeroMonthsExample | RelativeDate.HomeLabelFixed, RelativeDate.FixedBuckets, RelativeDate.HomeLabelFixedAgrees |
