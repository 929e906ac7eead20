/** The official's announcement form: edit mode from the `id` query parameter, loading the
    announcement being edited, the empty-field check, and the update or create call. */
module AnnouncementForm {
  import opened Wrappers
  import opened Seqs
  import opened Domain
  import opened AnnouncementService

  const DefaultCategory := "General"
  const FillAllFields := "Please fill in all fields"
  const LoadFailed := "Failed to load announcement"
  const Updated := "Announcement updated"
  const Created := "Announcement created"
  const UpdateFailed := "Failed to update announcement"
  const CreateFailed := "Failed to create announcement"

  /** The form's state. `announcementId` is the raw query parameter (absent is `None`). */
  datatype FormState = FormState(
    announcementId: Option<string>,
    title: string,
    description: string,
    category: string,
    isLoading: bool,
    isEditMode: bool)

  const InitialForm := FormState(None, "", "", DefaultCategory, false, false)

  /** JavaScript truthiness of an optional string: present and not empty. */
  predicate Truthy(s: Option<string>) {
    s.Some? && s.value != ""
  }

  /** `ngOnInit` for one value of the query parameters: edit mode exactly when `id` is truthy;
      in edit mode `loaded` is the store's answer for that id, and only an announcement that
      exists overwrites the fields. */
  function OnQueryParams(f: FormState, idParam: Option<string>, loaded: Result<Option<Announcement>, Error>)
    : (r: (FormState, seq<Effect>))
    ensures r.0.announcementId == idParam
    ensures r.0.isEditMode <==> Truthy(idParam)
    ensures !r.0.isEditMode ==> r == (f.(announcementId := idParam, isEditMode := false, isLoading := false), [])
    ensures r.0.isEditMode ==> !r.0.isLoading
    ensures r.0.isEditMode && loaded.Ok? && loaded.value.Some? ==>
              && r.0.title == loaded.value.value.title
              && r.0.description == loaded.value.value.description
              && r.0.category == loaded.value.value.category
              && r.1 == []
    ensures r.0.isEditMode && !(loaded.Ok? && loaded.value.Some?) ==>
              r.0.title == f.title && r.0.description == f.description && r.0.category == f.category
    ensures r.0.isEditMode && loaded.Err? ==> r.1 == [Notify(Toast(LoadFailed, Danger))]
    ensures !(r.0.isEditMode && loaded.Err?) ==> r.1 == []
  {
    var edit := Truthy(idParam);
    var f1 := f.(announcementId := idParam, isEditMode := edit, isLoading := edit);
    if !edit then (f1, [])
    else
      match loaded
      case Err(_) => (f1.(isLoading := false), [Notify(Toast(LoadFailed, Danger))])
      case Ok(None) => (f1.(isLoading := false), [])
      case Ok(Some(a)) => (f1.(title := a.title, description := a.description, category := a.category, isLoading := false), [])
  }

  /** Opening the form with no `id` starts an empty "General" announcement in create mode. */
  lemma NewFormDefaults()
    ensures OnQueryParams(InitialForm, None, Ok(None)).0 == FormState(None, "", "", DefaultCategory, false, false)
  {
  }

  /** One value of the query parameters with the store's answer for the load it may trigger. */
  datatype ParamsEmission = ParamsEmission(idParam: Option<string>, loaded: Result<Option<Announcement>, Error>)

  /** A failed load of the announcement being edited: the subscription's error handler runs and
      the `queryParams` subscription ends. */
  predicate EndsStream(e: ParamsEmission) {
    Truthy(e.idParam) && e.loaded.Err?
  }

  /** The query-parameter stream, emission by emission, up to and including the first failed
      load; returns the form, whether the subscription has ended, and the toasts shown. */
  function RunQueryParams(f: FormState, es: seq<ParamsEmission>): (r: (FormState, bool, seq<Effect>))
    ensures r.1 <==> exists i :: 0 <= i < |es| && EndsStream(es[i])
    ensures r.2 == if r.1 then [Notify(Toast(LoadFailed, Danger))] else []
    ensures !r.1 && es != [] ==> r.0.announcementId == es[|es| - 1].idParam
                                 && (r.0.isEditMode <==> Truthy(es[|es| - 1].idParam))
                                 && !r.0.isLoading
    decreases |es|
  {
    if es == [] then (f, false, [])
    else
      var (f1, e1) := OnQueryParams(f, es[0].idParam, es[0].loaded);
      if EndsStream(es[0]) then (f1, true, e1)
      else
        var (f2, ended, e2) := RunQueryParams(f1, es[1..]);
        ExistsCons(EndsStream, es);
        assert e1 == [];
        (f2, ended, e1 + e2)
  }

  /** Once a load has failed, later parameter changes are ignored: the outcome is that of the
      emissions up to the first failure. */
  lemma {:induction false} LaterParamsIgnored(f: FormState, es: seq<ParamsEmission>, k: nat)
    requires k < |es| && EndsStream(es[k])
    ensures RunQueryParams(f, es) == RunQueryParams(f, es[..k + 1])
    decreases k
  {
    var f1 := OnQueryParams(f, es[0].idParam, es[0].loaded).0;
    if !EndsStream(es[0]) {
      LaterParamsIgnored(f1, es[1..], k - 1);
      assert es[..k + 1][1..] == es[1..][..k];
    }
  }

  /** The call `onSubmit` makes to the announcement service. */
  datatype ServiceCall =
    | UpdateCall(id: string, update: AnnouncementUpdate)
    | CreateCall(announcement: NewAnnouncement)

  /** The call for the form's state and the profile it was submitted under. */
  function SubmitCall(f: FormState, profile: UserProfile): (c: ServiceCall)
    ensures c.UpdateCall? <==> f.isEditMode && Truthy(f.announcementId)
    ensures c.UpdateCall? ==> c == UpdateCall(f.announcementId.value, AnnouncementUpdate(Some(f.title), Some(f.description), Some(f.category)))
    ensures c.CreateCall? ==> c.announcement == NewAnnouncement(f.title, f.description, f.category, profile.barangayId, profile.uid)
  {
    if f.isEditMode && Truthy(f.announcementId) then
      UpdateCall(f.announcementId.value, AnnouncementUpdate(Some(f.title), Some(f.description), Some(f.category)))
    else
      CreateCall(NewAnnouncement(f.title, f.description, f.category, profile.barangayId, profile.uid))
  }

  /** What one press of the submit button did: the service call made (if any), whether the
      store accepted it, the store afterwards, the toasts and navigation, and the form. */
  datatype SubmitOutcome = SubmitOutcome(call: Option<ServiceCall>, saved: bool, store: Store, effects: seq<Effect>, form: FormState)

  /** Performs a service call against the store; `failure` is the store's refusal, if it refuses. */
  function Perform(store: Store, call: ServiceCall, failure: Option<Error>, newId: string, now: int): (r: Result<Store, Error>)
    requires newId !in store
    ensures failure.Some? ==> r == Err(failure.value)
    ensures r.Ok? && call.CreateCall? ==> r.value == CreateAnnouncement(store, call.announcement, newId, now).0
    ensures r.Ok? && call.UpdateCall? ==> UpdateAnnouncement(store, call.id, call.update) == r
    ensures failure.None? && call.CreateCall? ==> r.Ok?
    ensures failure.None? && call.UpdateCall? ==> (r.Ok? <==> call.id in store)
  {
    if failure.Some? then Err(failure.value)
    else
      match call
      case UpdateCall(id, u) => UpdateAnnouncement(store, id, u)
      case CreateCall(a) => Ok(CreateAnnouncement(store, a, newId, now).0)
  }

  /** `onSubmit`. `profiles` is the profile stream, of which the first non-null value is used;
      `failure` is the store's refusal of the write, if it refuses; a created document gets the
      fresh id `newId` and `datePosted = now`. */
  function OnSubmit(f: FormState, profiles: seq<Option<UserProfile>>, store: Store, failure: Option<Error>,
                    newId: string, now: int): (r: SubmitOutcome)
    requires newId !in store
    ensures f.title == "" || f.description == "" || f.category == "" ==>
              r == SubmitOutcome(None, false, store, [Notify(Toast(FillAllFields, Warning))], f)
    ensures r.call.Some? <==> f.title != "" && f.description != "" && f.category != "" && FirstSome(profiles).Some?
    ensures r.call.Some? ==> r.call.value == SubmitCall(f, FirstSome(profiles).value)
    ensures r.call.None? && f.title != "" && f.description != "" && f.category != "" ==>
              r == SubmitOutcome(None, false, store, [], f.(isLoading := true))
    ensures r.call.Some? ==> !r.form.isLoading && r.form.(isLoading := f.isLoading) == f
    ensures r.saved ==> r.call.Some? && failure.None?
    ensures !r.saved ==> r.store == store
    ensures r.saved ==>
              r.effects == [Notify(Toast(if f.isEditMode && Truthy(f.announcementId) then Updated else Created, Success)),
                            Navigate(Navigation("/official-dashboard", false))]
    ensures r.call.Some? && !r.saved ==>
              r.effects == [Notify(Toast(if f.isEditMode then UpdateFailed else CreateFailed, Danger))]
  {
    if f.title == "" || f.description == "" || f.category == "" then
      SubmitOutcome(None, false, store, [Notify(Toast(FillAllFields, Warning))], f)
    else
      match FirstSome(profiles)
      case None => SubmitOutcome(None, false, store, [], f.(isLoading := true))
      case Some(p) =>
        var call := SubmitCall(f, p);
        var done := f.(isLoading := false);
        match Perform(store, call, failure, newId, now)
        case Err(_) =>
          SubmitOutcome(Some(call), false, store, [Notify(Toast(if f.isEditMode then UpdateFailed else CreateFailed, Danger))], done)
        case Ok(store') =>
          var message := if call.UpdateCall? then Updated else Created;
          SubmitOutcome(Some(call), true, store', [Notify(Toast(message, Success)), Navigate(Navigation("/official-dashboard", false))], done)
  }

  /** A created announcement reads back with the form's fields, the official's own barangay and
      uid as its area and author, and the submission time. */
  lemma SubmitCreateThenGet(f: FormState, profiles: seq<Option<UserProfile>>, store: Store, newId: string, now: int)
    requires newId !in store
    requires f.title != "" && f.description != "" && f.category != ""
    requires !(f.isEditMode && Truthy(f.announcementId))
    requires FirstSome(profiles).Some?
    ensures var r := OnSubmit(f, profiles, store, None, newId, now);
            var p := FirstSome(profiles).value;
            && r.saved
            && GetAnnouncementById(r.store, newId) == Some(Announcement(Some(newId), f.title, f.description, f.category, p.barangayId, p.uid, now))
            && (forall k :: k != newId ==> GetAnnouncementById(r.store, k) == GetAnnouncementById(store, k))
  {
    var p := FirstSome(profiles).value;
    var a := NewAnnouncement(f.title, f.description, f.category, p.barangayId, p.uid);
    CreateThenGet(store, a, newId, now);
  }

  /** Saving an edit sets the three form fields and leaves the announcement's area, author and
      posting date as they were; an id the store does not have is reported as a failure. */
  lemma SubmitEditKeepsOwnership(f: FormState, profiles: seq<Option<UserProfile>>, store: Store, newId: string, now: int)
    requires newId !in store
    requires f.title != "" && f.description != "" && f.category != ""
    requires f.isEditMode && Truthy(f.announcementId)
    requires FirstSome(profiles).Some?
    ensures var r := OnSubmit(f, profiles, store, None, newId, now);
            var id := f.announcementId.value;
            && (r.saved <==> id in store)
            && (r.saved ==>
                  && GetAnnouncementById(r.store, id).Some?
                  && var before := GetAnnouncementById(store, id).value;
                     var after := GetAnnouncementById(r.store, id).value;
                     after == before.(title := f.title, description := f.description, category := f.category))
  {
    var id := f.announcementId.value;
    if id in store {
      UpdateKeepsImmutableFields(store, id, AnnouncementUpdate(Some(f.title), Some(f.description), Some(f.category)));
    }
  }
}
