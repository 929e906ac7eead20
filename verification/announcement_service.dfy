/** The announcement repository: reads through the document store, with a single-slot local
    cache that backs up the area-scoped read, and the create/update/delete calls.
    The document store's answer to each query is an input; where/orderBy are not evaluated. */
module AnnouncementService {
  import opened Wrappers
  import opened Domain

  /** Name of the announcements collection. */
  const CollectionName: string := "announcements"

  /** The one key under which the fallback list is kept in local storage. */
  const CacheKey: string := "cached_announcements"

  /** Fields of an announcement document as the store holds them. */
  datatype DocData = DocData(
    title: string,
    description: string,
    category: string,
    barangayId: string,
    authorId: string,
    datePosted: int)

  /** A document snapshot: the store-assigned id and the data. */
  datatype Doc = Doc(id: string, data: DocData)

  /** Local key-value storage (Ionic Storage). */
  type Storage = map<string, seq<Announcement>>

  /** The fields of an announcement without its id: what is written back to a document. */
  function DataOf(a: Announcement): DocData {
    DocData(a.title, a.description, a.category, a.barangayId, a.authorId, a.datePosted)
  }

  /** `mapDocToAnnouncement`: the document's fields with `id` taken from the document id. */
  function MapDoc(d: Doc): (a: Announcement)
    ensures a.id == Some(d.id)
    ensures DataOf(a) == d.data
  {
    Announcement(Some(d.id), d.data.title, d.data.description, d.data.category,
                 d.data.barangayId, d.data.authorId, d.data.datePosted)
  }

  /** `mapDocsToAnnouncements`: one announcement per document, in document order; the id
      and the data of every document can be read back from its announcement. */
  function MapDocs(docs: seq<Doc>): (r: seq<Announcement>)
    ensures |r| == |docs|
    ensures forall i :: 0 <= i < |docs| ==> r[i].id == Some(docs[i].id) && DataOf(r[i]) == docs[i].data
  {
    seq(|docs|, i requires 0 <= i < |docs| => MapDoc(docs[i]))
  }

  /** Mapping document lists commutes with concatenation, so it never reorders documents. */
  lemma MapDocsAppend(a: seq<Doc>, b: seq<Doc>)
    ensures MapDocs(a + b) == MapDocs(a) + MapDocs(b)
  {
  }

  /** The cache slot of local storage, if it was ever written. */
  function Slot(storage: Storage): Option<seq<Announcement>> {
    if CacheKey in storage then Some(storage[CacheKey]) else None
  }

  /** `getCachedAnnouncements`: the stored list, or `[]` when nothing was ever stored. */
  function CachedAnnouncements(storage: Storage): (r: seq<Announcement>)
    ensures CacheKey in storage ==> r == storage[CacheKey]
    ensures CacheKey !in storage ==> r == []
  {
    if CacheKey in storage then storage[CacheKey] else []
  }

  /** `getAnnouncements(barangayId)`, given the store's answer to the area query: a successful
      read is returned and overwrites the cache slot; a failed read falls back to the slot. */
  function GetAnnouncements(storage: Storage, barangayId: string, fetched: Result<seq<Doc>, Error>)
    : (r: (seq<Announcement>, Storage))
    ensures fetched.Ok? ==> r.0 == MapDocs(fetched.value)
    ensures fetched.Ok? ==> r.1.Keys == storage.Keys + {CacheKey} && r.1[CacheKey] == r.0
    ensures fetched.Ok? ==> forall k :: k in storage && k != CacheKey ==> r.1[k] == storage[k]
    ensures fetched.Err? ==> r.1 == storage && r.0 == CachedAnnouncements(storage)
  {
    match fetched
    case Ok(docs) =>
      var list := MapDocs(docs);
      (list, storage[CacheKey := list])
    case Err(_) =>
      (CachedAnnouncements(storage), storage)
  }

  /** One call of `getAnnouncements`: the area asked for and the store's answer. */
  datatype AreaRead = AreaRead(barangayId: string, fetched: Result<seq<Doc>, Error>)

  /** Lists returned by a sequence of `getAnnouncements` calls made one after another. */
  function RunReads(storage: Storage, calls: seq<AreaRead>): (r: (seq<seq<Announcement>>, Storage))
    ensures |r.0| == |calls|
    decreases |calls|
  {
    if calls == [] then ([], storage)
    else
      var first := GetAnnouncements(storage, calls[0].barangayId, calls[0].fetched);
      var rest := RunReads(first.1, calls[1..]);
      ([first.0] + rest.0, rest.1)
  }

  /** The list of the most recent successful read in `calls`, if any. */
  function LastSuccess(calls: seq<AreaRead>): Option<seq<Announcement>>
    decreases |calls|
  {
    if calls == [] then None
    else if calls[|calls| - 1].fetched.Ok? then Some(MapDocs(calls[|calls| - 1].fetched.value))
    else LastSuccess(calls[..|calls| - 1])
  }

  /** The cache slot after a run holds the list of the last successful read, whatever area it
      was for, and is untouched by a run without one. */
  lemma {:induction false} RunReadsCache(storage: Storage, calls: seq<AreaRead>)
    ensures Slot(RunReads(storage, calls).1)
              == if LastSuccess(calls).Some? then LastSuccess(calls) else Slot(storage)
    decreases |calls|
  {
    if calls != [] {
      var first := GetAnnouncements(storage, calls[0].barangayId, calls[0].fetched);
      RunReadsCache(first.1, calls[1..]);
      LastSuccessCons(calls);
    }
  }

  lemma {:induction false} LastSuccessCons(calls: seq<AreaRead>)
    requires calls != []
    ensures LastSuccess(calls) ==
              if LastSuccess(calls[1..]).Some? then LastSuccess(calls[1..])
              else if calls[0].fetched.Ok? then Some(MapDocs(calls[0].fetched.value))
              else None
    decreases |calls|
  {
    if |calls| > 1 {
      assert calls[1..][..|calls[1..]| - 1] == calls[..|calls| - 1][1..];
      LastSuccessCons(calls[..|calls| - 1]);
    }
  }

  /** A failed read returns the list of the most recent earlier successful read, for any area,
      or the list cached before the run (`[]` if none) when no earlier read succeeded. */
  lemma FailedReadReturnsLastSuccess(storage: Storage, before: seq<AreaRead>, failed: AreaRead)
    requires failed.fetched.Err?
    ensures var out := RunReads(storage, before + [failed]).0[|before|];
            out == if LastSuccess(before).Some? then LastSuccess(before).value else CachedAnnouncements(storage)
  {
    RunReadsAppend(storage, before, [failed]);
    RunReadsCache(storage, before);
  }

  lemma {:induction false} RunReadsAppend(storage: Storage, a: seq<AreaRead>, b: seq<AreaRead>)
    ensures RunReads(storage, a + b).0 == RunReads(storage, a).0 + RunReads(RunReads(storage, a).1, b).0
    ensures RunReads(storage, a + b).1 == RunReads(RunReads(storage, a).1, b).1
    decreases |a|
  {
    if a == [] {
      assert a + b == b;
    } else {
      assert (a + b)[1..] == a[1..] + b;
      var first := GetAnnouncements(storage, a[0].barangayId, a[0].fetched);
      RunReadsAppend(first.1, a[1..], b);
    }
  }

  /** The cache is not scoped by area: after a success for area A, a failure for area B
      returns A's announcements. */
  lemma CacheIgnoresArea(storage: Storage, a: string, docsA: seq<Doc>, b: string, e: Error)
    ensures var s1 := GetAnnouncements(storage, a, Ok(docsA)).1;
            GetAnnouncements(s1, b, Err(e)).0 == MapDocs(docsA)
  {
  }

  /** `getAllAnnouncements` / `getMyAnnouncements`: the store's answer mapped to announcements,
      with errors passed on to the caller; local storage is neither read nor written. */
  function ReadWithoutCache(storage: Storage, fetched: Result<seq<Doc>, Error>)
    : (r: (Result<seq<Announcement>, Error>, Storage))
    ensures r.1 == storage
    ensures fetched.Err? <==> r.0.Err?
    ensures fetched.Err? ==> r.0.error == fetched.error
    ensures fetched.Ok? ==> r.0.value == MapDocs(fetched.value)
  {
    match fetched
    case Ok(docs) => (Ok(MapDocs(docs)), storage)
    case Err(e) => (Err(e), storage)
  }

  /** The document store, as far as this repository uses it: documents by id. */
  type Store = map<string, DocData>

  /** `Omit<AnnouncementData, 'id' | 'datePosted'>`: what `createAnnouncement` accepts. */
  datatype NewAnnouncement = NewAnnouncement(
    title: string,
    description: string,
    category: string,
    barangayId: string,
    authorId: string)

  /** `Partial<Omit<AnnouncementData, 'id' | 'datePosted' | 'authorId' | 'barangayId'>>`:
      the only fields an update can carry. */
  datatype AnnouncementUpdate = AnnouncementUpdate(
    title: Option<string>,
    description: Option<string>,
    category: Option<string>)

  /** `getAnnouncementById`: `null` when the document does not exist. */
  function GetAnnouncementById(store: Store, id: string): (r: Option<Announcement>)
    ensures r.None? <==> id !in store
    ensures r.Some? ==> r.value.id == Some(id) && DataOf(r.value) == store[id]
  {
    if id in store then Some(MapDoc(Doc(id, store[id]))) else None
  }

  /** `createAnnouncement`: the store assigns the fresh id `newId` and `datePosted = now`;
      the call returns the id. */
  function CreateAnnouncement(store: Store, a: NewAnnouncement, newId: string, now: int): (r: (Store, string))
    requires newId !in store
    ensures r.1 == newId
    ensures r.0.Keys == store.Keys + {newId}
    ensures forall k :: k in store ==> r.0[k] == store[k]
  {
    (store[newId := DocData(a.title, a.description, a.category, a.barangayId, a.authorId, now)], newId)
  }

  /** Creating then reading back by the returned id yields the input plus the assigned id and
      `datePosted = now`. */
  lemma CreateThenGet(store: Store, a: NewAnnouncement, newId: string, now: int)
    requires newId !in store
    ensures var (s, id) := CreateAnnouncement(store, a, newId, now);
            GetAnnouncementById(s, id)
              == Some(Announcement(Some(newId), a.title, a.description, a.category, a.barangayId, a.authorId, now))
  {
  }

  /** `updateAnnouncement`: merges the present fields into the document; the store rejects an
      update of a document that does not exist. */
  function UpdateAnnouncement(store: Store, id: string, u: AnnouncementUpdate): (r: Result<Store, Error>)
    ensures r.Ok? <==> id in store
    ensures r.Ok? ==> r.value.Keys == store.Keys
    ensures r.Ok? ==> forall k :: k in store && k != id ==> r.value[k] == store[k]
  {
    if id !in store then Err(Error("not-found", "No document to update"))
    else
      var d := store[id];
      Ok(store[id := d.(title := u.title.GetOr(d.title),
                             description := u.description.GetOr(d.description),
                             category := u.category.GetOr(d.category))])
  }

  /** An update never changes the area, the author or the posting date of an announcement,
      and sets exactly the fields it carries. */
  lemma UpdateKeepsImmutableFields(store: Store, id: string, u: AnnouncementUpdate)
    requires id in store
    ensures var r := UpdateAnnouncement(store, id, u);
            var before, after := GetAnnouncementById(store, id).value, GetAnnouncementById(r.value, id).value;
            && after.barangayId == before.barangayId
            && after.authorId == before.authorId
            && after.datePosted == before.datePosted
            && after.id == before.id
            && (u.title.Some? ==> after.title == u.title.value)
            && (u.title.None? ==> after.title == before.title)
            && (u.description.Some? ==> after.description == u.description.value)
            && (u.description.None? ==> after.description == before.description)
            && (u.category.Some? ==> after.category == u.category.value)
            && (u.category.None? ==> after.category == before.category)
  {
  }

  /** `deleteAnnouncement`: the document is gone afterwards; others are untouched. */
  function DeleteAnnouncement(store: Store, id: string): (r: Store)
    ensures GetAnnouncementById(r, id).None?
    ensures forall k :: k != id ==> GetAnnouncementById(r, k) == GetAnnouncementById(store, k)
  {
    store - {id}
  }
}
