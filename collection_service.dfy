/**
 * The ownership and visibility rules of the collections feature. A store
 * keeps the collections by id and the entries in insertion order; the
 * repository reads and writes the service relies on are modelled as
 * operations on that store.
 */
module CollectionService {
  import opened Wrappers
  import opened Http

  /** A stored collection row. Dates are day numbers; `None` is SQL NULL. */
  datatype Collection = Collection(
    owner: Uuid, name: string, description: string, visible: bool,
    updatedAt: Option<int>, deletedAt: Option<int>)

  /** A stored entry: the collection it belongs to, its own id and its type. */
  datatype Entry = Entry(collectionId: Uuid, entryId: Uuid, kind: string)

  const CollectionMissing: HttpError := HttpError(NotFound, "Collection not found")
  const EntryRefused: HttpError := HttpError(Forbidden, "Collection not found or permission denied")

  /** `get_collection_by_id(id, caller)` finds a row: the id exists and the caller owns it (deleted or not). */
  predicate OwnedBy(collections: map<Uuid, Collection>, id: Uuid, caller: Caller)
  {
    id in collections && collections[id].owner == caller.userId
  }

  /** The row after `update_collection`'s UPDATE: new name, description and stamp; nothing else moves. */
  function Renamed(c: Collection, name: string, description: string, now: int): (r: Collection)
    ensures r.owner == c.owner && r.visible == c.visible && r.deletedAt == c.deletedAt
    ensures r.name == name && r.description == description && r.updatedAt == Some(now)
  {
    c.(name := name, description := description, updatedAt := Some(now))
  }

  /** The row after `delete_collection`'s UPDATE: hidden and stamped, otherwise as it was. */
  function SoftDeleted(c: Collection, now: int): (r: Collection)
    ensures !r.visible && r.deletedAt == Some(now)
    ensures r.owner == c.owner && r.name == c.name && r.description == c.description
    ensures r.updatedAt == c.updatedAt
  {
    c.(visible := false, deletedAt := Some(now))
  }

  /** `get_entries_by_collection_id`: the entries of collection `id`, in insertion order. */
  function EntriesOf(entries: seq<Entry>, id: Uuid): (r: seq<Entry>)
    ensures |r| <= |entries|
    ensures forall i :: 0 <= i < |r| ==> r[i].collectionId == id && r[i] in entries
    ensures forall e :: e in entries && e.collectionId == id ==> e in r
  {
    if entries == [] then []
    else (if entries[0].collectionId == id then [entries[0]] else []) + EntriesOf(entries[1..], id)
  }

  /** The entries left once the rows matching both ids are removed. */
  function WithoutEntry(entries: seq<Entry>, collectionId: Uuid, entryId: Uuid): (r: seq<Entry>)
    ensures |r| <= |entries|
    ensures forall e :: e in r <==> e in entries && (e.collectionId != collectionId || e.entryId != entryId)
    ensures |r| < |entries| <==> exists e :: e in entries && e.collectionId == collectionId && e.entryId == entryId
  {
    if entries == [] then []
    else
      var rest := WithoutEntry(entries[1..], collectionId, entryId);
      assert forall e :: e in entries <==> e == entries[0] || e in entries[1..];
      if entries[0].collectionId == collectionId && entries[0].entryId == entryId then rest
      else [entries[0]] + rest
  }

  /**
   * What `get_entries` returns: nothing for a missing collection, nothing
   * for a hidden one unless the caller owns it, the entries otherwise.
   */
  function VisibleEntries(collections: map<Uuid, Collection>, entries: seq<Entry>, id: Uuid, caller: Caller)
    : (r: Option<seq<Entry>>)
    ensures r.None? <==> id !in collections || (!collections[id].visible && collections[id].owner != caller.userId)
    ensures r.Some? ==> r.value == EntriesOf(entries, id)
  {
    if id !in collections then None
    else if !collections[id].visible && collections[id].owner != caller.userId then None
    else Some(EntriesOf(entries, id))
  }

  /** A posted entry shows up last among its collection's entries, and nowhere else. */
  lemma {:induction false} EntriesAfterPost(entries: seq<Entry>, e: Entry, id: Uuid)
    ensures EntriesOf(entries + [e], id) == EntriesOf(entries, id) + (if e.collectionId == id then [e] else [])
  {
    if entries != [] {
      EntriesAfterPost(entries[1..], e, id);
      assert (entries + [e])[1..] == entries[1..] + [e];
    }
  }

  /** Deleting an entry of one collection leaves every other collection's entries as they were. */
  lemma {:induction false} OtherEntriesKept(entries: seq<Entry>, collectionId: Uuid, entryId: Uuid, other: Uuid)
    requires other != collectionId
    ensures EntriesOf(WithoutEntry(entries, collectionId, entryId), other) == EntriesOf(entries, other)
  {
    if entries != [] {
      OtherEntriesKept(entries[1..], collectionId, entryId, other);
    }
  }

  /** Deleting the same entry twice removes nothing the second time. */
  lemma {:induction false} DeleteIdempotent(entries: seq<Entry>, collectionId: Uuid, entryId: Uuid)
    ensures WithoutEntry(WithoutEntry(entries, collectionId, entryId), collectionId, entryId)
            == WithoutEntry(entries, collectionId, entryId)
  {
    if entries != [] {
      DeleteIdempotent(entries[1..], collectionId, entryId);
    }
  }

  /** Posting one entry to an empty collection and deleting it leaves the collection empty again. */
  lemma PostThenDelete(entries: seq<Entry>, collectionId: Uuid, entryId: Uuid, kind: string)
    requires EntriesOf(entries, collectionId) == []
    ensures EntriesOf(WithoutEntry(entries + [Entry(collectionId, entryId, kind)], collectionId, entryId), collectionId) == []
  {
    var left := WithoutEntry(entries + [Entry(collectionId, entryId, kind)], collectionId, entryId);
    assert forall e :: e in left ==> e in entries;
    NoEntriesOf(left, collectionId);
  }

  lemma {:induction false} NoEntriesOf(entries: seq<Entry>, id: Uuid)
    requires forall e :: e in entries ==> e.collectionId != id
    ensures EntriesOf(entries, id) == []
  {
    if entries != [] {
      NoEntriesOf(entries[1..], id);
    }
  }

  /** An update never changes who may read which entries: it cannot publish or hide a collection. */
  lemma UpdateKeepsVisibility(collections: map<Uuid, Collection>, entries: seq<Entry>, id: Uuid,
                              name: string, description: string, now: int, q: Uuid, reader: Caller)
    requires id in collections
    ensures VisibleEntries(collections[id := Renamed(collections[id], name, description, now)], entries, q, reader)
            == VisibleEntries(collections, entries, q, reader)
  {
  }

  /** After a soft delete only the owner still reads the entries. */
  lemma DeletedHiddenFromOthers(collections: map<Uuid, Collection>, entries: seq<Entry>, id: Uuid,
                                now: int, reader: Caller)
    requires id in collections
    ensures var after := collections[id := SoftDeleted(collections[id], now)];
            VisibleEntries(after, entries, id, reader).None? <==> reader.userId != collections[id].owner
  {
  }

  /**
   * The owner lookup does not look at `deleted_at`: a soft-deleted
   * collection still belongs to its owner, who may rename it, delete it
   * again and post entries to it.
   */
  lemma DeletedStillOwned(collections: map<Uuid, Collection>, id: Uuid, now: int, caller: Caller)
    requires OwnedBy(collections, id, caller)
    ensures OwnedBy(collections[id := SoftDeleted(collections[id], now)], id, caller)
  {
  }

  /** The collection sent to `update_collection`, whose `updated_at` the service sets. */
  class CollectionRequest {
    var collectionId: Uuid
    var name: string
    var description: string
    var visible: bool
    var updatedAt: Option<int>

    constructor (collectionId: Uuid, name: string, description: string, visible: bool)
      ensures this.collectionId == collectionId && this.name == name
      ensures this.description == description && this.visible == visible
      ensures updatedAt.None?
    {
      this.collectionId := collectionId;
      this.name := name;
      this.description := description;
      this.visible := visible;
      updatedAt := None;
    }
  }

  /** The collection and entry tables. */
  class Store {
    var collections: map<Uuid, Collection>
    var entries: seq<Entry>

    constructor (collections: map<Uuid, Collection>, entries: seq<Entry>)
      ensures this.collections == collections && this.entries == entries
    {
      this.collections := collections;
      this.entries := entries;
    }

    /**
     * `update_collection`: 404 unless the caller owns the collection;
     * otherwise stamps the request and writes its name and description.
     * The request's `visible` is not written.
     */
    method UpdateCollection(request: CollectionRequest, caller: Caller, now: int)
      returns (r: Result<CollectionRequest, HttpError>)
      modifies this`collections, request`updatedAt
      ensures r.Err? <==> !OwnedBy(old(collections), request.collectionId, caller)
      ensures r.Err? ==> r.error == CollectionMissing && collections == old(collections)
                         && request.updatedAt == old(request.updatedAt)
      ensures r.Ok? ==> r.value == request && request.updatedAt == Some(now)
      ensures r.Ok? ==> collections == old(collections)[request.collectionId :=
                          Renamed(old(collections)[request.collectionId], request.name, request.description, now)]
    {
      if !OwnedBy(collections, request.collectionId, caller) {
        return Err(CollectionMissing);
      }
      request.updatedAt := Some(now);
      collections := collections[request.collectionId :=
                       Renamed(collections[request.collectionId], request.name, request.description, now)];
      r := Ok(request);
    }

    /** `delete_collection`: 404 unless the caller owns the collection; otherwise a soft delete. */
    method DeleteCollection(id: Uuid, caller: Caller, now: int) returns (r: Result<(), HttpError>)
      modifies this`collections
      ensures r.Err? <==> !OwnedBy(old(collections), id, caller)
      ensures r.Err? ==> r.error == CollectionMissing && collections == old(collections)
      ensures r.Ok? ==> collections == old(collections)[id := SoftDeleted(old(collections)[id], now)]
    {
      if !OwnedBy(collections, id, caller) {
        return Err(CollectionMissing);
      }
      collections := collections[id := SoftDeleted(collections[id], now)];
      r := Ok(());
    }

    /** `post_entries`: 403 unless the caller owns the collection; the stored entry takes the path's collection id. */
    method PostEntry(collectionId: Uuid, entryId: Uuid, kind: string, caller: Caller)
      returns (r: Result<Entry, HttpError>)
      modifies this`entries
      ensures r.Err? <==> !OwnedBy(collections, collectionId, caller)
      ensures r.Err? ==> r.error == EntryRefused && entries == old(entries)
      ensures r.Ok? ==> r.value == Entry(collectionId, entryId, kind) && entries == old(entries) + [r.value]
    {
      if !OwnedBy(collections, collectionId, caller) {
        return Err(EntryRefused);
      }
      var entry := Entry(collectionId, entryId, kind);
      entries := entries + [entry];
      r := Ok(entry);
    }

    /** `get_entries`. */
    method GetEntries(id: Uuid, caller: Caller) returns (r: Option<seq<Entry>>)
      ensures r == VisibleEntries(collections, entries, id, caller)
    {
      if id !in collections {
        return None;
      }
      var collection := collections[id];
      if !collection.visible {
        if collection.owner != caller.userId {
          return None;
        }
      }
      r := Some(EntriesOf(entries, id));
    }

    /** `delete_entries`: false for a non-owner; otherwise removes the matching rows and tells whether there were any. */
    method DeleteEntries(collectionId: Uuid, entryId: Uuid, caller: Caller) returns (deleted: bool)
      modifies this`entries
      ensures !OwnedBy(collections, collectionId, caller) ==> !deleted && entries == old(entries)
      ensures OwnedBy(collections, collectionId, caller) ==>
                entries == WithoutEntry(old(entries), collectionId, entryId)
      ensures deleted <==> (OwnedBy(collections, collectionId, caller) &&
                            exists e :: e in old(entries) && e.collectionId == collectionId && e.entryId == entryId)
    {
      if !OwnedBy(collections, collectionId, caller) {
        return false;
      }
      var remaining := WithoutEntry(entries, collectionId, entryId);
      var deletedRows := |entries| - |remaining|;
      entries := remaining;
      deleted := deletedRows > 0;
    }
  }
}
