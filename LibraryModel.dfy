/** The library screen: the filtered and sorted book list, the drag-and-drop
    counter, the drop loop that scans or uploads files, and the blank-name
    guards of collection creation and renaming. */
module LibraryModel {
  import opened JsValues
  import opened Ascii

  /** A book as the library endpoint lists it; dates are timestamps. */
  datatype Book = Book(id: int, title: string, lastReadAt: Option<int>, addedAt: int)

  // ----- Text -----

  /** `hay.includes(needle)`. */
  predicate Contains(hay: string, needle: string) {
    exists i :: 0 <= i <= |hay| && OccursAt(hay, needle, i)
  }

  predicate OccursAt(hay: string, needle: string, i: int) {
    0 <= i && i + |needle| <= |hay| && hay[i..i + |needle|] == needle
  }

  /** The search rule: the lowercased title contains the lowercased term. */
  predicate Matches(b: Book, term: string) {
    Contains(Lower(b.title), Lower(term))
  }

  lemma EmptyTermMatches(b: Book)
    ensures Matches(b, "")
  {
    assert OccursAt(Lower(b.title), Lower(""), 0);
  }

  // ----- Filter and sort -----

  /** `source.filter(b => Matches(b, term))`. */
  function FilterBooks(source: seq<Book>, term: string): (r: seq<Book>)
    ensures forall b :: b in r <==> b in source && Matches(b, term)
    ensures multiset(r) <= multiset(source)
    ensures |r| <= |source|
  {
    if source == [] then []
    else
      var rest := FilterBooks(source[1..], term);
      assert source == [source[0]] + source[1..];
      if Matches(source[0], term) then [source[0]] + rest else rest
  }

  /** With every book matching, filtering keeps the list as it is. */
  lemma {:induction false} FilterAllMatch(source: seq<Book>, term: string)
    requires forall b :: b in source ==> Matches(b, term)
    ensures FilterBooks(source, term) == source
  {
    if source != [] {
      assert source[0] in source;
      forall b | b in source[1..] ensures Matches(b, term) {
        assert b in source;
      }
      FilterAllMatch(source[1..], term);
      assert FilterBooks(source, term) == [source[0]] + FilterBooks(source[1..], term);
      assert source == [source[0]] + source[1..];
    }
  }

  /** An empty search keeps every book. */
  lemma EmptySearchKeepsAll(source: seq<Book>)
    ensures FilterBooks(source, "") == source
  {
    forall b | b in source ensures Matches(b, "") {
      EmptyTermMatches(b);
    }
    FilterAllMatch(source, "");
  }

  predicate SortedBy(s: seq<Book>, key: Book -> int) {
    forall i, j :: 0 <= i < j < |s| ==> key(s[i]) <= key(s[j])
  }

  /** Appending an element whose key is not below any other keeps the order. */
  lemma SortedAppend(s: seq<Book>, x: Book, key: Book -> int)
    requires SortedBy(s, key)
    requires forall i :: 0 <= i < |s| ==> key(s[i]) <= key(x)
    ensures SortedBy(s + [x], key)
  {
    forall i, j | 0 <= i < j < |s + [x]|
      ensures key((s + [x])[i]) <= key((s + [x])[j])
    {
      assert (s + [x])[i] == s[i];
      if j < |s| {
        assert (s + [x])[j] == s[j];
      }
    }
  }

  /** A permutation of `init + [x]` has no key above `bound` when neither
      `init` nor `x` has. */
  lemma PermutedBelow(r: seq<Book>, init: seq<Book>, x: Book, key: Book -> int, bound: int)
    requires multiset(r) == multiset(init) + multiset{x}
    requires forall i :: 0 <= i < |init| ==> key(init[i]) <= bound
    requires key(x) <= bound
    ensures forall i :: 0 <= i < |r| ==> key(r[i]) <= bound
  {
    forall i | 0 <= i < |r|
      ensures key(r[i]) <= bound
    {
      assert r[i] in multiset(r);
      if r[i] != x {
        assert r[i] in multiset(init);
        var k :| 0 <= k < |init| && init[k] == r[i];
      }
    }
  }

  /** Insert `x` after every element whose key does not exceed its own. */
  function Insert(s: seq<Book>, x: Book, key: Book -> int): (r: seq<Book>)
    requires SortedBy(s, key)
    ensures SortedBy(r, key)
    ensures multiset(r) == multiset(s) + multiset{x}
    ensures |r| == |s| + 1
    decreases |s|
  {
    if s == [] then [x]
    else if key(s[|s| - 1]) <= key(x) then
      SortedAppend(s, x, key);
      s + [x]
    else
      var last := s[|s| - 1];
      var init := s[..|s| - 1];
      assert s == init + [last];
      assert forall i :: 0 <= i < |init| ==> key(init[i]) <= key(last) by {
        forall i | 0 <= i < |init| ensures key(init[i]) <= key(last) {
          assert init[i] == s[i];
        }
      }
      var r' := Insert(init, x, key);
      PermutedBelow(r', init, x, key, key(last));
      SortedAppend(r', last, key);
      r' + [last]
  }

  /** A stable insertion sort by an integer key, ascending. */
  function SortBy(s: seq<Book>, key: Book -> int): (r: seq<Book>)
    ensures SortedBy(r, key)
    ensures multiset(r) == multiset(s)
    decreases |s|
  {
    if s == [] then []
    else
      assert s == s[..|s| - 1] + [s[|s| - 1]];
      Insert(SortBy(s[..|s| - 1], key), s[|s| - 1], key)
  }

  datatype Tab = LibraryTab | CollectionsTab
  datatype SortOrder = Alpha | Recent

  /** The list the search runs over. */
  function SourceBooks(tab: Tab, selectedCollection: Option<int>,
                       collectionBooks: seq<Book>, books: seq<Book>): (r: seq<Book>)
    ensures r == collectionBooks <== tab == CollectionsTab && selectedCollection.Some?
    ensures r == books <== !(tab == CollectionsTab && selectedCollection.Some?)
  {
    if tab == CollectionsTab && selectedCollection.Some? then collectionBooks else books
  }

  /** `last_read_at || added_at`. */
  function DateOf(b: Book): int {
    match b.lastReadAt
    case Some(t) => t
    case None => b.addedAt
  }

  /** The sort key: the locale collation rank of the title for 'alpha', the
      reversed date for 'recent' (latest first). */
  function SortKey(order: SortOrder, collation: string -> int): Book -> int {
    match order
    case Alpha => (b: Book) => collation(b.title)
    case Recent => (b: Book) => -DateOf(b)
  }

  /** `filteredBooks`: the matching books of the source, ordered by the key
      of the selected sort. */
  function FilteredBooks(tab: Tab, selectedCollection: Option<int>, collectionBooks: seq<Book>,
                         books: seq<Book>, term: string, order: SortOrder,
                         collation: string -> int): (r: seq<Book>)
    ensures multiset(r) == multiset(FilterBooks(SourceBooks(tab, selectedCollection, collectionBooks, books), term))
    ensures SortedBy(r, SortKey(order, collation))
  {
    SortBy(FilterBooks(SourceBooks(tab, selectedCollection, collectionBooks, books), term), SortKey(order, collation))
  }

  /** The list shows exactly the books of the source that match the search. */
  lemma FilteredBooksContents(tab: Tab, selectedCollection: Option<int>, collectionBooks: seq<Book>,
                              books: seq<Book>, term: string, order: SortOrder,
                              collation: string -> int, b: Book)
    ensures b in FilteredBooks(tab, selectedCollection, collectionBooks, books, term, order, collation) <==>
            b in SourceBooks(tab, selectedCollection, collectionBooks, books) && Matches(b, term)
  {
    var r := FilteredBooks(tab, selectedCollection, collectionBooks, books, term, order, collation);
    var f := FilterBooks(SourceBooks(tab, selectedCollection, collectionBooks, books), term);
    assert b in r <==> b in multiset(r);
    assert b in f <==> b in multiset(f);
  }

  /** Sorted 'alpha': titles ascend in the collation order. */
  lemma FilteredAlphaOrder(tab: Tab, selectedCollection: Option<int>, collectionBooks: seq<Book>,
                           books: seq<Book>, term: string, collation: string -> int, i: int, j: int)
    requires var r := FilteredBooks(tab, selectedCollection, collectionBooks, books, term, Alpha, collation);
      0 <= i < j < |r|
    ensures var r := FilteredBooks(tab, selectedCollection, collectionBooks, books, term, Alpha, collation);
      collation(r[i].title) <= collation(r[j].title)
  {
    var r := FilteredBooks(tab, selectedCollection, collectionBooks, books, term, Alpha, collation);
    assert SortKey(Alpha, collation)(r[i]) <= SortKey(Alpha, collation)(r[j]);
  }

  /** Sorted 'recent': the last-read (else added) dates descend. */
  lemma FilteredRecentOrder(tab: Tab, selectedCollection: Option<int>, collectionBooks: seq<Book>,
                            books: seq<Book>, term: string, collation: string -> int, i: int, j: int)
    requires var r := FilteredBooks(tab, selectedCollection, collectionBooks, books, term, Recent, collation);
      0 <= i < j < |r|
    ensures var r := FilteredBooks(tab, selectedCollection, collectionBooks, books, term, Recent, collation);
      DateOf(r[i]) >= DateOf(r[j])
  {
    var r := FilteredBooks(tab, selectedCollection, collectionBooks, books, term, Recent, collation);
    assert SortKey(Recent, collation)(r[i]) <= SortKey(Recent, collation)(r[j]);
  }

  /** With an empty search the list is a rearrangement of the whole source. */
  lemma EmptySearchShowsAll(tab: Tab, selectedCollection: Option<int>, collectionBooks: seq<Book>,
                            books: seq<Book>, order: SortOrder, collation: string -> int)
    ensures multiset(FilteredBooks(tab, selectedCollection, collectionBooks, books, "", order, collation)) ==
            multiset(SourceBooks(tab, selectedCollection, collectionBooks, books))
  {
    EmptySearchKeepsAll(SourceBooks(tab, selectedCollection, collectionBooks, books));
  }

  // ----- Blank names -----

  /** The characters JavaScript's `trim` removes: the white space code
      points (tab, vertical tab, form feed, space, no-break space, byte order
      mark and the other space separators) and the line terminators. */
  predicate IsSpace(c: char) {
    c == '\t' || c == '\U{000B}' || c == '\U{000C}' || c == ' ' || c == '\U{00A0}' ||
    c == '\U{FEFF}' || c == '\U{1680}' || ('\U{2000}' <= c <= '\U{200A}') ||
    c == '\U{202F}' || c == '\U{205F}' || c == '\U{3000}' ||
    c == '\n' || c == '\r' || c == '\U{2028}' || c == '\U{2029}'
  }

  /** `s` without its leading white space. */
  function TrimStart(s: string): (r: string)
    ensures r == [] || !IsSpace(r[0])
    ensures |r| <= |s| && r == s[|s| - |r|..]
    ensures forall i :: 0 <= i < |s| - |r| ==> IsSpace(s[i])
  {
    if s != [] && IsSpace(s[0]) then TrimStart(s[1..]) else s
  }

  /** `s` without its trailing white space. */
  function TrimEnd(s: string): (r: string)
    ensures r == [] || !IsSpace(r[|r| - 1])
    ensures |r| <= |s| && r == s[..|r|]
    ensures forall i :: |r| <= i < |s| ==> IsSpace(s[i])
  {
    if s != [] && IsSpace(s[|s| - 1]) then TrimEnd(s[..|s| - 1]) else s
  }

  function Trim(s: string): string {
    TrimEnd(TrimStart(s))
  }

  /** A name is blank when it holds only whitespace. */
  predicate Blank(s: string) {
    forall i :: 0 <= i < |s| ==> IsSpace(s[i])
  }

  /** `!s.trim()` holds exactly for blank strings. */
  lemma {:induction false} TrimEmptyIffBlank(s: string)
    ensures Trim(s) == "" <==> Blank(s)
  {
    TrimStartEmpty(s);
    var t := TrimStart(s);
    if t != [] {
      assert !IsSpace(t[0]);
    }
  }

  lemma {:induction false} TrimStartEmpty(s: string)
    ensures TrimStart(s) == "" <==> Blank(s)
    decreases |s|
  {
    if s != [] {
      TrimStartEmpty(s[1..]);
      if IsSpace(s[0]) {
        assert Blank(s) <==> Blank(s[1..]) by {
          assert forall i :: 0 < i < |s| ==> s[i] == s[1..][i - 1];
        }
      }
    }
  }

  // ----- Stateful screen -----

  /** What became of a request: it threw, or a response came with `res.ok`. */
  datatype Outcome = Threw | Responded(ok: bool)

  /** A file dropped on the window; `path` is "" where the browser gives none. */
  datatype DroppedFile = DroppedFile(path: string, name: string, outcome: Outcome)

  datatype ItemKind = ComicItem | CollectionItem

  datatype Request =
    | Scan(path: string)
    | Upload(name: string)
    | FetchLibrary
    | FetchCollections
    | CreateCollectionRequest(name: string)
    | Rename(kind: ItemKind, id: int, title: string)

  /** Whether the drop loop counts a file: a scan counts unless it throws, an
      upload only with an ok response. */
  predicate Added(f: DroppedFile) {
    if f.path != "" then !f.outcome.Threw? else f.outcome == Responded(true)
  }

  function CountAdded(files: seq<DroppedFile>): (n: nat)
    ensures n <= |files|
  {
    if files == [] then 0 else CountAdded(files[..|files| - 1]) + (if Added(files[|files| - 1]) then 1 else 0)
  }

  /** The request the drop loop sends for a file. */
  function RequestFor(f: DroppedFile): Request {
    if f.path != "" then Scan(f.path) else Upload(f.name)
  }

  function RequestsFor(files: seq<DroppedFile>): (r: seq<Request>)
    ensures |r| == |files|
    ensures forall i :: 0 <= i < |files| ==> r[i] == RequestFor(files[i])
  {
    if files == [] then [] else RequestsFor(files[..|files| - 1]) + [RequestFor(files[|files| - 1])]
  }

  /** A dropped batch with no file that scans or uploads successfully adds nothing. */
  lemma {:induction false} NoneAddedCountsZero(files: seq<DroppedFile>)
    requires forall f :: f in files ==> !Added(f)
    ensures CountAdded(files) == 0
    decreases |files|
  {
    if files != [] {
      assert forall f :: f in files[..|files| - 1] ==> f in files;
      NoneAddedCountsZero(files[..|files| - 1]);
    }
  }

  /** The part of the drop loop that decides: which requests go out and how
      many files count as added. */
  method DropLoop(files: seq<DroppedFile>) returns (sent: seq<Request>, addedCount: nat)
    ensures sent == RequestsFor(files)
    ensures addedCount == CountAdded(files)
  {
    sent, addedCount := [], 0;
    var i := 0;
    while i < |files|
      invariant 0 <= i <= |files|
      invariant sent == RequestsFor(files[..i])
      invariant addedCount == CountAdded(files[..i])
    {
      assert files[..i + 1][..i] == files[..i];
      sent := sent + [RequestFor(files[i])];
      if Added(files[i]) {
        addedCount := addedCount + 1;
      }
      i := i + 1;
    }
    assert files[..|files|] == files;
  }

  class LibraryScreen {
    var dragCounter: int          // `dragCounter.current`
    var isDragging: bool
    var newCollectionName: string
    var renameShow: bool
    var renameId: int
    var renameTitle: string
    var renameKind: ItemKind
    var requests: seq<Request>    // requests sent, in order

    constructor ()
      ensures dragCounter == 0 && !isDragging && requests == [] && newCollectionName == ""
    {
      dragCounter := 0;
      isDragging := false;
      newCollectionName := "";
      renameShow := false;
      renameId := 0;
      renameTitle := "";
      renameKind := ComicItem;
      requests := [];
    }

    /** Nested enters and leaves are balanced and the overlay is shown only
        while some enter is unmatched. */
    ghost predicate Balanced()
      reads this
    {
      dragCounter >= 0 && (isDragging ==> dragCounter > 0)
    }

    /** `handleDragEnter`: always count; show the overlay only for files. */
    method DragEnter(hasFiles: bool)
      modifies this`dragCounter, this`isDragging
      ensures dragCounter == old(dragCounter) + 1
      ensures isDragging == (old(isDragging) || hasFiles)
      ensures old(Balanced()) ==> Balanced()
    {
      dragCounter := dragCounter + 1;
      if hasFiles {
        isDragging := true;
      }
    }

    /** `handleDragLeave`: uncount; hide the overlay only at zero. */
    method DragLeave()
      modifies this`dragCounter, this`isDragging
      ensures dragCounter == old(dragCounter) - 1
      ensures isDragging == (old(isDragging) && dragCounter != 0)
      ensures old(Balanced()) && old(dragCounter) > 0 ==> Balanced()
    {
      dragCounter := dragCounter - 1;
      if dragCounter == 0 {
        isDragging := false;
      }
    }

    /** `handleDrop`: reset the counter, send one request per file in order,
        and refetch the library iff some file was added. */
    method Drop(files: seq<DroppedFile>) returns (addedCount: nat)
      modifies this`dragCounter, this`isDragging, this`requests
      ensures dragCounter == 0 && !isDragging && Balanced()
      ensures addedCount == CountAdded(files)
      ensures requests == old(requests) + RequestsFor(files) + (if addedCount > 0 then [FetchLibrary] else [])
    {
      isDragging := false;
      dragCounter := 0;
      addedCount := 0;
      if files == [] {
        return;
      }
      var sent;
      sent, addedCount := DropLoop(files);
      requests := requests + sent;
      if addedCount > 0 {
        requests := requests + [FetchLibrary];
      }
    }

    /** `createCollection`: nothing for a blank name; otherwise send the name
        as typed, and on a request that did not throw clear the field and
        refetch the collections. */
    method CreateCollection(outcome: Outcome)
      modifies this`newCollectionName, this`requests
      ensures Blank(old(newCollectionName)) ==>
        requests == old(requests) && newCollectionName == old(newCollectionName)
      ensures !Blank(old(newCollectionName)) && outcome.Threw? ==>
        requests == old(requests) + [CreateCollectionRequest(old(newCollectionName))] &&
        newCollectionName == old(newCollectionName)
      ensures !Blank(old(newCollectionName)) && !outcome.Threw? ==>
        requests == old(requests) + [CreateCollectionRequest(old(newCollectionName)), FetchCollections] &&
        newCollectionName == ""
    {
      // `!newCollectionName.trim()`, which is Blank by TrimEmptyIffBlank
      if Blank(newCollectionName) {
        return;
      }
      requests := requests + [CreateCollectionRequest(newCollectionName)];
      if outcome.Threw? {
        return;
      }
      newCollectionName := "";
      requests := requests + [FetchCollections];
    }

    /** `renameItem`: nothing for a blank title; otherwise rename the comic
        or the collection, refetch its list and close the dialog unless the
        request threw. */
    method RenameItem(outcome: Outcome)
      modifies this`renameShow, this`requests
      ensures Blank(renameTitle) ==> requests == old(requests) && renameShow == old(renameShow)
      ensures !Blank(renameTitle) && outcome.Threw? ==>
        requests == old(requests) + [Rename(renameKind, renameId, renameTitle)] &&
        renameShow == old(renameShow)
      ensures !Blank(renameTitle) && !outcome.Threw? ==>
        requests == old(requests) + [Rename(renameKind, renameId, renameTitle),
                                     if renameKind == CollectionItem then FetchCollections else FetchLibrary] &&
        !renameShow
    {
      // `!renameTitle.trim()`, which is Blank by TrimEmptyIffBlank
      if Blank(renameTitle) {
        return;
      }
      requests := requests + [Rename(renameKind, renameId, renameTitle)];
      if outcome.Threw? {
        return;
      }
      requests := requests + [if renameKind == CollectionItem then FetchCollections else FetchLibrary];
      renameShow := false;
    }
  }
}
