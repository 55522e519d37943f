/** The backend's tables as maps keyed by their primary keys: comics,
    collections, collection items and page actions. The clock is the `now`
    parameter of each operation that stamps a row. */
module Database {
  import opened JsValues

  datatype Comic = Comic(
    filePath: string,
    title: string,
    format: string,
    sizeBytes: int,
    pageCount: int,
    currentPage: int,
    status: string,
    addedAt: int,
    lastReadAt: Option<int>)

  /** The row a fresh insert creates: the schema defaults for every column
      the insert does not name. */
  function NewComic(filePath: string, title: string, format: string, size: int, now: int): Comic {
    Comic(filePath, title, format, size, 0, 0, "unread", now, None)
  }

  datatype Collection = Collection(name: string, createdAt: int)

  /** A `page_actions` row; the key `(comic_id, page_number)` is the map key. */
  datatype ActionRow = ActionRow(isFavorite: bool, note: string, updatedAt: int)

  type ActionTable = map<(int, int), ActionRow>

  /** `collection_items`: the key `(collection_id, comic_id)` maps to `added_at`. */
  type ItemTable = map<(int, int), int>

  // ----- Page actions -----

  /** The row `set_page_action` writes: each absent argument keeps the stored
      value, or the column default when there is no row yet. */
  function MergedRow(table: ActionTable, comicId: int, page: int,
                     isFav: Option<bool>, note: Option<string>, now: int): (row: ActionRow)
    ensures isFav.Some? ==> row.isFavorite == isFav.value
    ensures isFav.None? && (comicId, page) in table ==> row.isFavorite == table[(comicId, page)].isFavorite
    ensures isFav.None? && (comicId, page) !in table ==> !row.isFavorite
    ensures note.Some? ==> row.note == note.value
    ensures note.None? && (comicId, page) in table ==> row.note == table[(comicId, page)].note
    ensures note.None? && (comicId, page) !in table ==> row.note == ""
    ensures row.updatedAt == now
  {
    var curr: Option<ActionRow> := if (comicId, page) in table then Some(table[(comicId, page)]) else None;
    var newFav := if isFav.Some? then isFav.value else if curr.Some? then curr.value.isFavorite else false;
    var newNote := if note.Some? then note.value else if curr.Some? then curr.value.note else "";
    ActionRow(newFav, newNote, now)
  }

  /** The page actions of one comic keyed by page number. */
  function ActionsOf(table: ActionTable, comicId: int): (r: map<int, ActionRow>)
    ensures forall p :: p in r <==> (comicId, p) in table
    ensures forall p :: p in r ==> r[p] == table[(comicId, p)]
  {
    var pages := set k | k in table && k.0 == comicId :: k.1;
    assert forall p :: p in pages <==> (comicId, p) in table by {
      forall p ensures p in pages <==> (comicId, p) in table {
        if (comicId, p) in table {
          assert (comicId, p).1 == p;
        }
      }
    }
    map p | p in pages :: table[(comicId, p)]
  }

  /** Writing one row's actions shows up in that comic's map at that page. */
  lemma SetThenGet(table: ActionTable, comicId: int, page: int,
                   isFav: Option<bool>, note: Option<string>, now: int)
    ensures var row := MergedRow(table, comicId, page, isFav, note, now);
      ActionsOf(table[(comicId, page) := row], comicId) == ActionsOf(table, comicId)[page := row]
  {
    var row := MergedRow(table, comicId, page, isFav, note, now);
    var t := table[(comicId, page) := row];
    assert ActionsOf(t, comicId).Keys == ActionsOf(table, comicId).Keys + {page};
  }

  /** Writing one comic's row leaves every other comic's map as it was. */
  lemma SetKeepsOtherComics(table: ActionTable, comicId: int, page: int, row: ActionRow, other: int)
    requires other != comicId
    ensures ActionsOf(table[(comicId, page) := row], other) == ActionsOf(table, other)
  {
    assert ActionsOf(table[(comicId, page) := row], other).Keys == ActionsOf(table, other).Keys;
  }

  /** Setting only the note leaves a stored favorite as it was, and the other
      way round. */
  lemma PartialUpdatesCommute(table: ActionTable, comicId: int, page: int, fav: bool, text: string, t1: int, t2: int)
    ensures var t := table[(comicId, page) := MergedRow(table, comicId, page, Some(fav), None, t1)];
      MergedRow(t, comicId, page, None, Some(text), t2) == ActionRow(fav, text, t2)
    ensures var t := table[(comicId, page) := MergedRow(table, comicId, page, None, Some(text), t1)];
      MergedRow(t, comicId, page, Some(fav), None, t2) == ActionRow(fav, text, t2)
  {
  }

  // ----- Collection items -----

  /** `INSERT OR IGNORE`: an existing pair keeps its first timestamp. */
  function AddedItem(items: ItemTable, collectionId: int, comicId: int, now: int): (r: ItemTable)
    ensures r.Keys == items.Keys + {(collectionId, comicId)}
    ensures (collectionId, comicId) in items ==> r == items
    ensures (collectionId, comicId) !in items ==> r[(collectionId, comicId)] == now
    ensures forall k :: k in items ==> r[k] == items[k]
  {
    if (collectionId, comicId) in items then items else items[(collectionId, comicId) := now]
  }

  /** Adding the same comic to the same collection again changes nothing. */
  lemma AddIdempotent(items: ItemTable, collectionId: int, comicId: int, t1: int, t2: int)
    ensures AddedItem(AddedItem(items, collectionId, comicId, t1), collectionId, comicId, t2) ==
            AddedItem(items, collectionId, comicId, t1)
  {
  }

  /** The manual cascade: every item row of the collection goes. */
  function WithoutCollection(items: ItemTable, collectionId: int): (r: ItemTable)
    ensures forall k :: k in r <==> k in items && k.0 != collectionId
    ensures forall k :: k in r ==> r[k] == items[k]
  {
    map k | k in items && k.0 != collectionId :: items[k]
  }

  /** The items of another collection are the same before and after. */
  lemma CascadeKeepsOthers(items: ItemTable, collectionId: int, other: int, comicId: int)
    requires other != collectionId
    ensures (other, comicId) in WithoutCollection(items, collectionId) <==> (other, comicId) in items
    ensures forall c :: (collectionId, c) !in WithoutCollection(items, collectionId)
  {
  }

  class ComicDatabase {
    var comics: map<int, Comic>
    var nextComicId: int             // the AUTOINCREMENT counter of `comics`
    var collections: map<int, Collection>
    var nextCollectionId: int
    var items: ItemTable
    var pageActions: ActionTable

    /** The UNIQUE constraints and the AUTOINCREMENT counters. */
    ghost predicate Valid()
      reads this
    {
      (forall i, j :: i in comics && j in comics && i != j ==> comics[i].filePath != comics[j].filePath) &&
      (forall i :: i in comics ==> i < nextComicId) &&
      (forall i, j :: i in collections && j in collections && i != j ==>
         collections[i].name != collections[j].name) &&
      (forall i :: i in collections ==> i < nextCollectionId)
    }

    constructor ()
      ensures Valid()
      ensures comics == map[] && collections == map[] && items == map[] && pageActions == map[]
    {
      comics := map[];
      nextComicId := 1;
      collections := map[];
      nextCollectionId := 1;
      items := map[];
      pageActions := map[];
    }

    /** `upsert_comic`: a new path inserts a row with the schema defaults; a
        known path changes only that row's `size_bytes`. */
    method UpsertComic(filePath: string, title: string, format: string, size: int, now: int)
      requires Valid()
      modifies this`comics, this`nextComicId
      ensures Valid()
      ensures forall id :: id in old(comics) && old(comics)[id].filePath == filePath ==>
        comics == old(comics)[id := old(comics)[id].(sizeBytes := size)] && nextComicId >= old(nextComicId)
      ensures (forall id :: id in old(comics) ==> old(comics)[id].filePath != filePath) ==>
        comics == old(comics)[old(nextComicId) := NewComic(filePath, title, format, size, now)] &&
        nextComicId == old(nextComicId) + 1
    {
      if id :| id in comics && comics[id].filePath == filePath {
        comics := comics[id := comics[id].(sizeBytes := size)];
      } else {
        comics := comics[nextComicId := NewComic(filePath, title, format, size, now)];
        nextComicId := nextComicId + 1;
      }
    }

    /** `update_progress`: the one row with that id, if any, is on `page`, is
        being read and was read at `now`. */
    method UpdateProgress(comicId: int, page: int, now: int)
      requires Valid()
      modifies this`comics
      ensures Valid()
      ensures comicId in old(comics) ==>
        comics == old(comics)[comicId := old(comics)[comicId].(currentPage := page, status := "reading", lastReadAt := Some(now))]
      ensures comicId !in old(comics) ==> comics == old(comics)
    {
      if comicId in comics {
        comics := comics[comicId := comics[comicId].(currentPage := page, status := "reading", lastReadAt := Some(now))];
      }
    }

    /** `create_collection`: false, changing nothing, when the name is taken. */
    method CreateCollection(name: string, now: int) returns (ok: bool)
      requires Valid()
      modifies this`collections, this`nextCollectionId
      ensures Valid()
      ensures ok <==> forall id :: id in old(collections) ==> old(collections)[id].name != name
      ensures ok ==> collections == old(collections)[old(nextCollectionId) := Collection(name, now)]
      ensures !ok ==> collections == old(collections) && nextCollectionId == old(nextCollectionId)
    {
      if id :| id in collections && collections[id].name == name {
        return false;
      }
      collections := collections[nextCollectionId := Collection(name, now)];
      nextCollectionId := nextCollectionId + 1;
      return true;
    }

    /** `add_to_collection`. Foreign keys are not enforced, so the pair is
        recorded whether or not the collection and the comic exist. */
    method AddToCollection(collectionId: int, comicId: int, now: int)
      modifies this`items
      ensures items == AddedItem(old(items), collectionId, comicId, now)
    {
      if (collectionId, comicId) !in items {
        items := items[(collectionId, comicId) := now];
      }
    }

    /** `delete_collection`: its items first, then the collection. */
    method DeleteCollection(collectionId: int)
      requires Valid()
      modifies this`items, this`collections
      ensures Valid()
      ensures items == WithoutCollection(old(items), collectionId)
      ensures collections == old(collections) - {collectionId}
    {
      items := map k | k in items && k.0 != collectionId :: items[k];
      collections := collections - {collectionId};
    }

    /** `set_page_action`: read the row, merge the arguments over it, upsert. */
    method SetPageAction(comicId: int, page: int, isFav: Option<bool>, note: Option<string>, now: int)
      modifies this`pageActions
      ensures pageActions == old(pageActions)[(comicId, page) := MergedRow(old(pageActions), comicId, page, isFav, note, now)]
      ensures forall k :: k in old(pageActions) && k != (comicId, page) ==> pageActions[k] == old(pageActions)[k]
    {
      pageActions := pageActions[(comicId, page) := MergedRow(pageActions, comicId, page, isFav, note, now)];
    }

    /** `get_page_actions`. */
    function GetPageActions(comicId: int): (r: map<int, ActionRow>)
      reads this
      ensures forall p :: p in r <==> (comicId, p) in pageActions
      ensures forall p :: p in r ==> r[p] == pageActions[(comicId, p)]
    {
      ActionsOf(pageActions, comicId)
    }
  }
}
