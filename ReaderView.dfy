/** The reader component's state and its event handlers. Network writes go
    to an outbox and are never acknowledged; the two timers of the vertical
    scroll lock are explicit pending queues fired by events. */
module ReaderView {
  import opened JsValues
  import opened ReaderLogic

  /** A fire-and-forget write to the comic store. */
  datatype Write =
    | Progress(page: int)
    | FavoriteWrite(page: int, isFavorite: bool)
    | NoteWrite(page: int, note: string)

  /** One IntersectionObserver entry: the wrapper's `data-page` and whether
      it crosses the visibility threshold. */
  datatype Entry = Entry(page: int, isIntersecting: bool)

  /** The keys the keyboard handler reacts to. */
  datatype Key = Escape | Plus | EqualsSign | Minus | ArrowRight | ArrowLeft | OtherKey

  /** The pages of the intersecting entries, in order. */
  function IntersectingPages(entries: seq<Entry>): (r: seq<int>)
    ensures |r| <= |entries|
  {
    if entries == [] then []
    else if entries[|entries| - 1].isIntersecting
    then IntersectingPages(entries[..|entries| - 1]) + [entries[|entries| - 1].page]
    else IntersectingPages(entries[..|entries| - 1])
  }

  /** A page is selected exactly when some intersecting entry carries it. */
  lemma {:induction false} IntersectingMembers(entries: seq<Entry>, p: int)
    ensures p in IntersectingPages(entries) <==> exists e :: e in entries && e.isIntersecting && e.page == p
    decreases |entries|
  {
    if entries != [] {
      var init, last := entries[..|entries| - 1], entries[|entries| - 1];
      assert entries == init + [last];
      IntersectingMembers(init, p);
      if p in IntersectingPages(entries) && !(last.isIntersecting && last.page == p) {
        var e :| e in init && e.isIntersecting && e.page == p;
        assert e in entries;
      }
    }
  }

  /** A progress write for each page, in order. */
  function ProgressWrites(pages: seq<int>): (r: seq<Write>)
    ensures |r| == |pages|
    ensures forall i :: 0 <= i < |pages| ==> r[i] == Progress(pages[i])
  {
    if pages == [] then [] else ProgressWrites(pages[..|pages| - 1]) + [Progress(pages[|pages| - 1])]
  }

  function Last(s: seq<int>): int
    requires s != []
  {
    s[|s| - 1]
  }

  /** Taking one more entry extends the intersecting pages by that entry's
      page when it intersects, and the progress writes by its write. */
  lemma IntersectingStep(entries: seq<Entry>, i: nat)
    requires i < |entries|
    ensures IntersectingPages(entries[..i + 1]) ==
      IntersectingPages(entries[..i]) + (if entries[i].isIntersecting then [entries[i].page] else [])
    ensures ProgressWrites(IntersectingPages(entries[..i + 1])) ==
      ProgressWrites(IntersectingPages(entries[..i])) +
      (if entries[i].isIntersecting then [Progress(entries[i].page)] else [])
  {
    assert entries[..i + 1][..i] == entries[..i];
    var ps := IntersectingPages(entries[..i]);
    if entries[i].isIntersecting {
      assert (ps + [entries[i].page])[..|ps|] == ps;
    }
  }

  /** Every intersecting page is the page of some entry, so pages drawn from
      a range stay in it. */
  lemma {:induction false} IntersectingInRange(entries: seq<Entry>, n: int)
    requires forall e :: e in entries ==> 0 <= e.page < n
    ensures forall p :: p in IntersectingPages(entries) ==> 0 <= p < n
    decreases |entries|
  {
    if entries != [] {
      var init := entries[..|entries| - 1];
      assert forall e :: e in init ==> e in entries;
      IntersectingInRange(init, n);
    }
  }

  /** The `entries.forEach` loop of the observer callback: each intersecting
      entry in turn becomes the page and issues a progress write. */
  method ScanEntries(entries: seq<Entry>, start: int) returns (page: int, writes: seq<Write>)
    ensures writes == ProgressWrites(IntersectingPages(entries))
    ensures page == if IntersectingPages(entries) == [] then start else Last(IntersectingPages(entries))
    ensures IntersectingPages(entries) != [] ==> page in IntersectingPages(entries)
  {
    page, writes := start, [];
    ghost var pages: seq<int> := [];
    var i := 0;
    while i < |entries|
      invariant 0 <= i <= |entries|
      invariant pages == IntersectingPages(entries[..i])
      invariant writes == ProgressWrites(pages)
      invariant page == if pages == [] then start else Last(pages)
    {
      IntersectingStep(entries, i);
      if entries[i].isIntersecting {
        page := entries[i].page;
        writes := writes + [Progress(entries[i].page)];
        pages := pages + [entries[i].page];
      }
      i := i + 1;
    }
    assert entries[..|entries|] == entries;
    if pages != [] {
      assert pages[|pages| - 1] in pages;
    }
  }

  class Reader {
    var pageCount: Option<nat>         // `meta`, once the metadata has arrived
    var currentPage: int
    var viewMode: ViewMode
    var zoom: int
    var pan: Point
    var isDragging: bool
    var dragStart: Point               // `dragStartRef.current`
    var isMagnifier: bool
    var loupe: Loupe
    var pageActions: PageActions
    var noteText: string
    var showNoteModal: bool
    var isScrollingToPage: bool        // the scroll lock
    var pendingScrolls: seq<int>       // 50 ms timers, each with the page it captured
    var pendingReleases: nat           // 600 ms timers that release the lock
    var scrolledTo: seq<int>           // programmatic scrolls performed
    var outbox: seq<Write>

    /** What every handler keeps. */
    ghost predicate Valid()
      reads this
    {
      && ZoomValid(zoom)
      && currentPage >= 0
      && (isDragging ==> !isMagnifier)
      && (loupe.show ==> isMagnifier)
    }

    /** The current page is a page of the comic. */
    ghost predicate PageInRange()
      reads this
    {
      pageCount.Some? && 0 <= currentPage < pageCount.value
    }

    constructor (defaultViewMode: ViewMode)
      ensures Valid()
      ensures pageCount == None && currentPage == 0 && viewMode == defaultViewMode
      ensures zoom == 100 && pan == Origin && !isDragging && !isMagnifier
      ensures loupe == HiddenLoupe && pageActions == map[] && !isScrollingToPage
      ensures pendingScrolls == [] && pendingReleases == 0 && outbox == [] && scrolledTo == []
    {
      pageCount := None;
      currentPage := 0;
      viewMode := defaultViewMode;
      zoom := 100;
      pan := Origin;
      isDragging := false;
      dragStart := Origin;
      isMagnifier := false;
      loupe := HiddenLoupe;
      pageActions := map[];
      noteText := "";
      showNoteModal := false;
      isScrollingToPage := false;
      pendingScrolls := [];
      pendingReleases := 0;
      scrolledTo := [];
      outbox := [];
    }

    /** The effect keyed on `[currentPage, viewMode]`: when either differs
        from what the last render saw, the pan is zeroed and the loupe hidden. */
    method ResetEffect(page0: int, mode0: ViewMode)
      modifies this`pan, this`loupe
      ensures (currentPage != page0 || viewMode != mode0) ==>
        pan == Origin && loupe == old(loupe).(show := false)
      ensures (currentPage == page0 && viewMode == mode0) ==>
        pan == old(pan) && loupe == old(loupe)
    {
      if currentPage != page0 || viewMode != mode0 {
        pan := Origin;
        loupe := loupe.(show := false);
      }
    }

    /** The effect keyed on `[viewMode, meta]` in vertical mode: take the lock
        and schedule a scroll to the page current now. */
    method ArmScrollLock()
      modifies this`isScrollingToPage, this`pendingScrolls
      ensures isScrollingToPage
      ensures pendingScrolls == old(pendingScrolls) + [currentPage]
    {
      isScrollingToPage := true;
      pendingScrolls := pendingScrolls + [currentPage];
    }

    /** The metadata fetch resolves: `setMeta(data)` and
        `setCurrentPage(data.current_page || 0)`; the effects follow. */
    method LoadMeta(count: nat, storedPage: Option<int>)
      requires Valid()
      requires storedPage.Some? ==> storedPage.value >= 0
      modifies this`pageCount, this`currentPage, this`pan, this`loupe
      modifies this`isScrollingToPage, this`pendingScrolls
      ensures Valid()
      ensures pageCount == Some(count)
      ensures currentPage == (if storedPage.Some? then storedPage.value else 0)
      ensures viewMode == Vertical ==>
        isScrollingToPage && pendingScrolls == old(pendingScrolls) + [currentPage]
      ensures viewMode != Vertical ==>
        isScrollingToPage == old(isScrollingToPage) && pendingScrolls == old(pendingScrolls)
      ensures currentPage != old(currentPage) ==> pan == Origin && loupe == old(loupe).(show := false)
      ensures currentPage == old(currentPage) ==> pan == old(pan) && loupe == old(loupe)
    {
      var page0 := currentPage;
      pageCount := Some(count);
      currentPage := if storedPage.Some? then storedPage.value else 0;
      ResetEffect(page0, viewMode);
      if viewMode == Vertical {
        ArmScrollLock();
      }
    }

    /** The page-actions fetch resolves. */
    method LoadActions(actions: PageActions)
      modifies this`pageActions
      ensures pageActions == actions
    {
      pageActions := actions;
    }

    /** `setPage`: nothing before the metadata; otherwise commit the clamped,
        aligned page and write it as progress. */
    method SetPage(target: int)
      requires Valid()
      modifies this`currentPage, this`outbox, this`pan, this`loupe
      ensures Valid()
      ensures pageCount.None? ==>
        currentPage == old(currentPage) && outbox == old(outbox) && pan == old(pan) && loupe == old(loupe)
      ensures pageCount.Some? ==>
        currentPage == CommittedPage(viewMode, pageCount.value, target) &&
        outbox == old(outbox) + [Progress(currentPage)]
      ensures pageCount.Some? && pageCount.value > 0 ==> PageInRange()
      ensures viewMode == Double && pageCount.Some? ==> currentPage == 0 || currentPage % 2 == 1
      ensures currentPage != old(currentPage) ==> pan == Origin && loupe == old(loupe).(show := false)
      ensures currentPage == old(currentPage) ==> pan == old(pan) && loupe == old(loupe)
    {
      if pageCount.None? {
        return;
      }
      var page0 := currentPage;
      var target' := CommittedPage(viewMode, pageCount.value, target);
      currentPage := target';
      outbox := outbox + [Progress(target')];
      ResetEffect(page0, viewMode);
    }

    /** `nextPage`. */
    method NextPageAction()
      requires Valid()
      modifies this`currentPage, this`outbox, this`pan, this`loupe
      ensures Valid()
      ensures pageCount.None? ==>
        currentPage == old(currentPage) && outbox == old(outbox) && pan == old(pan) && loupe == old(loupe)
      ensures pageCount.Some? ==>
        currentPage == NextPage(viewMode, pageCount.value, old(currentPage)) &&
        outbox == old(outbox) + [Progress(currentPage)]
      ensures currentPage != old(currentPage) ==> pan == Origin && loupe == old(loupe).(show := false)
      ensures currentPage == old(currentPage) ==> pan == old(pan) && loupe == old(loupe)
    {
      SetPage(NextTarget(viewMode, currentPage));
    }

    /** `prevPage`. */
    method PrevPageAction()
      requires Valid()
      modifies this`currentPage, this`outbox, this`pan, this`loupe
      ensures Valid()
      ensures pageCount.None? ==>
        currentPage == old(currentPage) && outbox == old(outbox) && pan == old(pan) && loupe == old(loupe)
      ensures pageCount.Some? ==>
        currentPage == PrevPage(viewMode, pageCount.value, old(currentPage)) &&
        outbox == old(outbox) + [Progress(currentPage)]
      ensures currentPage != old(currentPage) ==> pan == Origin && loupe == old(loupe).(show := false)
      ensures currentPage == old(currentPage) ==> pan == old(pan) && loupe == old(loupe)
    {
      SetPage(PrevTarget(viewMode, currentPage));
    }

    /** A view-mode button. The page is not realigned; entering vertical mode
        with metadata loaded takes the scroll lock. */
    method SetViewMode(mode: ViewMode)
      requires Valid()
      modifies this`viewMode, this`pan, this`loupe, this`isScrollingToPage, this`pendingScrolls
      ensures Valid()
      ensures viewMode == mode
      ensures mode != old(viewMode) ==> pan == Origin && loupe == old(loupe).(show := false)
      ensures mode == old(viewMode) ==> pan == old(pan) && loupe == old(loupe)
      ensures mode != old(viewMode) && mode == Vertical && pageCount.Some? ==>
        isScrollingToPage && pendingScrolls == old(pendingScrolls) + [currentPage]
      ensures !(mode != old(viewMode) && mode == Vertical && pageCount.Some?) ==>
        isScrollingToPage == old(isScrollingToPage) && pendingScrolls == old(pendingScrolls)
    {
      var mode0 := viewMode;
      viewMode := mode;
      ResetEffect(currentPage, mode0);
      if mode != mode0 && mode == Vertical && pageCount.Some? {
        ArmScrollLock();
      }
    }

    /** A 50 ms timer fires: scroll to the page it captured if that page's
        wrapper is rendered (only in vertical mode), then start the release
        timer. With no timer pending nothing happens. */
    method FireScrollTimer()
      modifies this`pendingScrolls, this`pendingReleases, this`scrolledTo
      ensures old(pendingScrolls) == [] ==>
        pendingScrolls == [] && pendingReleases == old(pendingReleases) && scrolledTo == old(scrolledTo)
      ensures old(pendingScrolls) != [] ==>
        pendingScrolls == old(pendingScrolls)[1..] && pendingReleases == old(pendingReleases) + 1 &&
        scrolledTo == old(scrolledTo) + (if viewMode == Vertical then [old(pendingScrolls)[0]] else [])
    {
      if pendingScrolls != [] {
        if viewMode == Vertical {
          scrolledTo := scrolledTo + [pendingScrolls[0]];
        }
        pendingScrolls := pendingScrolls[1..];
        pendingReleases := pendingReleases + 1;
      }
    }

    /** A 600 ms timer fires and releases the lock. */
    method FireReleaseTimer()
      modifies this`pendingReleases, this`isScrollingToPage
      ensures old(pendingReleases) > 0 ==> !isScrollingToPage && pendingReleases == old(pendingReleases) - 1
      ensures old(pendingReleases) == 0 ==> isScrollingToPage == old(isScrollingToPage) && pendingReleases == 0
    {
      if pendingReleases > 0 {
        pendingReleases := pendingReleases - 1;
        isScrollingToPage := false;
      }
    }

    /** One IntersectionObserver callback. The observer exists only in
        vertical mode with metadata; under the lock the batch is ignored;
        otherwise every intersecting entry in turn sets the page and writes
        progress, so the last one wins. */
    method ObserverBatch(entries: seq<Entry>)
      requires Valid()
      requires pageCount.Some? ==> forall e :: e in entries ==> 0 <= e.page < pageCount.value
      modifies this`currentPage, this`outbox, this`pan, this`loupe
      ensures Valid()
      ensures (viewMode != Vertical || pageCount.None? || isScrollingToPage) ==>
        currentPage == old(currentPage) && outbox == old(outbox) && pan == old(pan) && loupe == old(loupe)
      ensures viewMode == Vertical && pageCount.Some? && !isScrollingToPage ==>
        var pages := IntersectingPages(entries);
        outbox == old(outbox) + ProgressWrites(pages) &&
        currentPage == (if pages == [] then old(currentPage) else Last(pages))
      ensures old(PageInRange()) ==> PageInRange()
      ensures currentPage != old(currentPage) ==> pan == Origin && loupe == old(loupe).(show := false)
      ensures currentPage == old(currentPage) ==> pan == old(pan) && loupe == old(loupe)
    {
      if viewMode != Vertical || pageCount.None? || isScrollingToPage {
        return;
      }
      var page0, count := currentPage, pageCount.value;
      var page, writes := ScanEntries(entries, currentPage);
      IntersectingInRange(entries, count);
      currentPage := page;
      outbox := outbox + writes;
      ResetEffect(page0, viewMode);
    }

    /** The zoom-in button and the `+`/`=` keys. */
    method ZoomInAction()
      requires Valid()
      modifies this`zoom
      ensures Valid() && zoom == ZoomIn(old(zoom))
    {
      zoom := ZoomIn(zoom);
    }

    /** The zoom-out button and the `-` key. */
    method ZoomOutAction()
      requires Valid()
      modifies this`zoom
      ensures Valid() && zoom == ZoomOut(old(zoom))
    {
      zoom := ZoomOut(zoom);
    }

    /** The window key handler. The arrows are inert in vertical mode; the
        result says whether Escape asked to leave the reader. No focus guard:
        keys typed into the note editor reach this handler too. */
    method KeyPress(key: Key) returns (back: bool)
      requires Valid()
      modifies this`zoom, this`currentPage, this`outbox, this`pan, this`loupe
      ensures Valid()
      ensures back <==> key == Escape
      ensures key == Plus || key == EqualsSign ==> zoom == ZoomIn(old(zoom))
      ensures key == Minus ==> zoom == ZoomOut(old(zoom))
      ensures key != Plus && key != EqualsSign && key != Minus ==> zoom == old(zoom)
      ensures key == ArrowRight && viewMode != Vertical && pageCount.Some? ==>
        currentPage == NextPage(viewMode, pageCount.value, old(currentPage)) &&
        outbox == old(outbox) + [Progress(currentPage)]
      ensures key == ArrowLeft && viewMode != Vertical && pageCount.Some? ==>
        currentPage == PrevPage(viewMode, pageCount.value, old(currentPage)) &&
        outbox == old(outbox) + [Progress(currentPage)]
      ensures !((key == ArrowRight || key == ArrowLeft) && viewMode != Vertical && pageCount.Some?) ==>
        currentPage == old(currentPage) && outbox == old(outbox)
      ensures currentPage != old(currentPage) ==> pan == Origin && loupe == old(loupe).(show := false)
      ensures currentPage == old(currentPage) ==> pan == old(pan) && loupe == old(loupe)
    {
      back := key == Escape;
      if key == Plus || key == EqualsSign {
        ZoomInAction();
      }
      if key == Minus {
        ZoomOutAction();
      }
      if viewMode != Vertical {
        if key == ArrowRight {
          NextPageAction();
        }
        if key == ArrowLeft {
          PrevPageAction();
        }
      }
    }

    /** `handleMouseDown`, bound only to the paged (single and double)
        container: ignored in vertical mode, with the magnifier on or at zoom
        100 or below; otherwise start dragging and record the offset. */
    method MouseDown(pointer: Point)
      requires Valid()
      modifies this`isDragging, this`dragStart
      ensures Valid()
      ensures (viewMode == Vertical || isMagnifier || zoom <= 100) ==>
        isDragging == old(isDragging) && dragStart == old(dragStart)
      ensures !(viewMode == Vertical || isMagnifier || zoom <= 100) ==>
        isDragging && dragStart == DragOffset(pointer, pan)
    {
      if viewMode == Vertical || isMagnifier || zoom <= 100 {
        return;
      }
      isDragging := true;
      dragStart := DragOffset(pointer, pan);
    }

    /** `handleMouseMove`: while dragging the pan follows the pointer. */
    method MouseMove(pointer: Point)
      requires Valid()
      modifies this`pan
      ensures Valid()
      ensures isDragging ==> pan == PanAt(pointer, dragStart)
      ensures !isDragging ==> pan == old(pan)
    {
      if !isDragging {
        return;
      }
      pan := PanAt(pointer, dragStart);
    }

    /** `handleMouseUp`, also bound to leaving the reader area. */
    method MouseUp()
      requires Valid()
      modifies this`isDragging
      ensures Valid() && !isDragging
    {
      isDragging := false;
    }

    /** `toggleMagnifier`: flips the tool, ends any drag and hides the loupe. */
    method ToggleMagnifier()
      requires Valid()
      modifies this`isMagnifier, this`isDragging, this`loupe
      ensures Valid()
      ensures isMagnifier == !old(isMagnifier) && !isDragging
      ensures loupe == old(loupe).(show := false)
    {
      isMagnifier := !isMagnifier;
      isDragging := false;
      loupe := loupe.(show := false);
    }

    /** `handleLoupeMove`: with the tool on, record the loupe for this image. */
    method LoupeMove(clientX: real, clientY: real, rect: Rect, src: string)
      requires Valid()
      modifies this`loupe
      ensures Valid()
      ensures isMagnifier ==> loupe == LoupeAt(clientX, clientY, rect, src)
      ensures !isMagnifier ==> loupe == old(loupe)
    {
      if !isMagnifier {
        return;
      }
      loupe := LoupeAt(clientX, clientY, rect, src);
    }

    /** `handleLoupeLeave`: hide the loupe and keep the rest of it. */
    method LoupeLeave()
      requires Valid()
      modifies this`loupe
      ensures Valid() && loupe == old(loupe).(show := false)
    {
      loupe := loupe.(show := false);
    }

    /** `toggleFavorite`: the local map first, then the write, whatever becomes
        of the write. */
    method ToggleFavorite()
      modifies this`pageActions, this`outbox
      ensures pageActions == ToggledFavorite(old(pageActions), currentPage)
      ensures outbox == old(outbox) + [FavoriteWrite(currentPage, IsFavorite(pageActions, currentPage))]
    {
      var isFav := !IsFavorite(pageActions, currentPage);
      pageActions := ToggledFavorite(pageActions, currentPage);
      outbox := outbox + [FavoriteWrite(currentPage, isFav)];
    }

    /** `openNoteModal`: the editor starts from the stored note or "". */
    method OpenNoteModal()
      modifies this`noteText, this`showNoteModal
      ensures noteText == (match NoteOf(pageActions, currentPage) case Some(n) => n case None => "")
      ensures showNoteModal
    {
      noteText := match NoteOf(pageActions, currentPage) case Some(n) => n case None => "";
      showNoteModal := true;
    }

    /** Typing into the note editor. */
    method EditNote(text: string)
      modifies this`noteText
      ensures noteText == text
    {
      noteText := text;
    }

    /** `saveNote`: the local map first, close the editor, then the write. */
    method SaveNote()
      modifies this`pageActions, this`outbox, this`showNoteModal
      ensures pageActions == WithNote(old(pageActions), currentPage, noteText)
      ensures outbox == old(outbox) + [NoteWrite(currentPage, noteText)]
      ensures !showNoteModal
    {
      pageActions := WithNote(pageActions, currentPage, noteText);
      showNoteModal := false;
      outbox := outbox + [NoteWrite(currentPage, noteText)];
    }

    /** The pages realized in vertical mode. */
    function RealizedNow(): (r: set<int>)
      reads this
      requires pageCount.Some?
      ensures |r| <= 9
      ensures currentPage < pageCount.value && currentPage >= 0 ==> currentPage in r
    {
      RealizedPages(currentPage, pageCount.value)
    }
  }

  /** Switching to vertical mode at page 4 takes the lock, and observer
      batches leave the page at 4 while the scroll timer fires. */
  method LockHoldsThroughScroll(r: Reader, p: int)
    requires r.Valid() && r.pageCount == Some(10) && r.currentPage == 4 && r.viewMode == Single
    requires r.pendingScrolls == [] && r.pendingReleases == 0
    requires 0 <= p < 10
    modifies r
    ensures r.Valid() && r.pageCount == Some(10) && r.viewMode == Vertical
    ensures r.currentPage == 4 && r.isScrollingToPage && r.pendingReleases == 1
  {
    r.SetViewMode(Vertical);
    assert r.isScrollingToPage && r.pendingScrolls == [4];
    LockedBatchIgnored(r, p);
    r.FireScrollTimer();
    LockedBatchIgnored(r, p);
  }

  /** Under the lock, a batch reporting page p leaves the page and the lock
      state as they were. */
  method LockedBatchIgnored(r: Reader, p: int)
    requires r.Valid() && r.viewMode == Vertical && r.pageCount == Some(10) && r.isScrollingToPage
    requires 0 <= p < 10
    modifies r
    ensures r.Valid() && r.viewMode == Vertical && r.pageCount == Some(10) && r.isScrollingToPage
    ensures r.currentPage == old(r.currentPage) && r.outbox == old(r.outbox)
    ensures r.pendingScrolls == old(r.pendingScrolls) && r.pendingReleases == old(r.pendingReleases)
  {
    r.ObserverBatch([Entry(p, true)]);
  }

  /** Once the release timer has fired as well, the next batch moves the
      page to the page it reports. */
  method VerticalLockScenario(r: Reader, p: int)
    requires r.Valid() && r.pageCount == Some(10) && r.currentPage == 4 && r.viewMode == Single
    requires r.pendingScrolls == [] && r.pendingReleases == 0
    requires 0 <= p < 10
    modifies r
    ensures r.currentPage == p
  {
    LockHoldsThroughScroll(r, p);
    r.FireReleaseTimer();
    var batch := [Entry(p, true)];
    SingleEntryBatch(p);
    assert forall e :: e in batch ==> 0 <= e.page < 10;
    r.ObserverBatch(batch);
  }

  lemma SingleEntryBatch(p: int)
    ensures IntersectingPages([Entry(p, true)]) == [p]
  {
    assert [Entry(p, true)][..0] == [];
  }

  /** Single mode, ten pages, page 3: right then left comes back to page 3
      with one progress write each, and an unbound key leaves the page, the
      writes, the zoom and the pan as they were. */
  method ArrowKeysScenario(r: Reader)
    requires r.Valid() && r.pageCount == Some(10) && r.currentPage == 3 && r.viewMode == Single
    modifies r
    ensures r.currentPage == 3
    ensures r.outbox == old(r.outbox) + [Progress(4), Progress(3)]
    ensures r.zoom == old(r.zoom) && r.pan == Origin
  {
    var back := r.KeyPress(ArrowRight);
    assert r.currentPage == 4;
    back := r.KeyPress(ArrowLeft);
    back := r.KeyPress(OtherKey);
    assert !back;
  }

  /** In vertical mode the arrows do nothing: the scroll position drives the
      page there. */
  method ArrowsInertInVertical(r: Reader, key: Key)
    requires r.Valid() && r.viewMode == Vertical && (key == ArrowRight || key == ArrowLeft)
    modifies r
    ensures r.currentPage == old(r.currentPage) && r.outbox == old(r.outbox)
    ensures r.pan == old(r.pan) && r.loupe == old(r.loupe) && r.zoom == old(r.zoom)
  {
    var back := r.KeyPress(key);
  }

  /** Toggling the favorite on page 2 while the store write fails: the local
      entry stays a favorite, since nothing reads the write back. */
  method FavoriteWithoutRollback(r: Reader)
    requires r.currentPage == 2 && !IsFavorite(r.pageActions, 2)
    modifies r
    ensures IsFavorite(r.pageActions, 2)
    ensures r.outbox == old(r.outbox) + [FavoriteWrite(2, true)]
  {
    r.ToggleFavorite();
  }
}
