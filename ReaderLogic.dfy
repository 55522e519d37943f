/** The pure rules of the reader view: page clamping and double-page
    alignment, the spread shown in double mode, zoom steps, drag offsets,
    loupe geometry, the vertical virtualization window, the page-action map
    and the composed image filter. */
module ReaderLogic {
  import opened JsValues
  import SettingsModel

  datatype ViewMode = Single | Double | Vertical

  // ----- Navigation -----

  /** `Math.max(0, Math.min(target, pageCount - 1))`. */
  function Clamp(target: int, pageCount: nat): (r: int)
    ensures pageCount > 0 ==> 0 <= r < pageCount
    ensures pageCount == 0 ==> r == 0
    ensures 0 <= target < pageCount ==> r == target
    ensures target < 0 ==> r == 0
    ensures pageCount > 0 && target >= pageCount ==> r == pageCount - 1
  {
    var m := if target < pageCount - 1 then target else pageCount - 1;
    if 0 < m then m else 0
  }

  /** The page `setPage(target)` commits: clamped, and in double mode moved
      back from an even page to the odd page that starts its spread. */
  function CommittedPage(mode: ViewMode, pageCount: nat, target: int): (r: int)
    ensures pageCount > 0 ==> 0 <= r < pageCount
    ensures pageCount == 0 ==> r == 0
    ensures mode == Double ==> r == 0 || r % 2 == 1
    ensures mode != Double ==> r == Clamp(target, pageCount)
    ensures mode == Double && 0 < target < pageCount ==>
      r == (if target % 2 == 0 then target - 1 else target)
    ensures mode == Double && target <= 0 ==> r == 0
  {
    var t := Clamp(target, pageCount);
    if mode == Double && t > 0 && t % 2 == 0 then t - 1 else t
  }

  /** The target `nextPage` hands to `setPage`: always ahead of the current
      page. */
  function NextTarget(mode: ViewMode, current: int): (t: int)
    ensures t > current
  {
    if mode == Double then (if current == 0 then 1 else current + 2) else current + 1
  }

  /** The target `prevPage` hands to `setPage`: from a page that exists it
      never moves forward, and it stays put only on the first spread. */
  function PrevTarget(mode: ViewMode, current: int): (t: int)
    ensures 0 <= current ==> t <= current && (t == current ==> mode == Double && current == 0)
    ensures t >= 0 || mode != Double
  {
    if mode == Double then (if current <= 1 then 0 else current - 2) else current - 1
  }

  /** The page after `nextPage`, once metadata is loaded: a real page,
      never behind a real current page. */
  function NextPage(mode: ViewMode, pageCount: nat, current: int): (r: int)
    ensures pageCount > 0 ==> 0 <= r < pageCount
    ensures pageCount == 0 ==> r == 0
    ensures mode != Double && 0 <= current < pageCount ==> r >= current
  {
    CommittedPage(mode, pageCount, NextTarget(mode, current))
  }

  /** The page after `prevPage`, once metadata is loaded: a real page, never
      ahead of a real current page. */
  function PrevPage(mode: ViewMode, pageCount: nat, current: int): (r: int)
    ensures pageCount > 0 ==> 0 <= r < pageCount
    ensures pageCount == 0 ==> r == 0
    ensures 0 <= current < pageCount ==> r <= current
  {
    CommittedPage(mode, pageCount, PrevTarget(mode, current))
  }

  /** Outside double mode, next and previous move by one page and stop at
      the ends. */
  lemma StepByOne(mode: ViewMode, pageCount: nat, current: int)
    requires mode != Double && 0 <= current < pageCount
    ensures NextPage(mode, pageCount, current) == if current + 1 < pageCount then current + 1 else current
    ensures PrevPage(mode, pageCount, current) == if current > 0 then current - 1 else 0
  {
  }

  /** In double mode, from an aligned page (0 or odd), next moves to the
      following spread and previous to the preceding one; both stay aligned. */
  lemma StepBySpread(pageCount: nat, current: int)
    requires 0 <= current < pageCount && (current == 0 || current % 2 == 1)
    ensures NextPage(Double, pageCount, current) ==
      if current == 0 then (if pageCount > 1 then 1 else 0)
      else if current + 2 < pageCount then current + 2
      else if (pageCount - 1) % 2 == 1 then pageCount - 1 else pageCount - 2
    ensures PrevPage(Double, pageCount, current) == if current <= 1 then 0 else current - 2
  {
  }

  /** `nextPage` applied `n` times from `current`. */
  function NextTimes(mode: ViewMode, pageCount: nat, current: int, n: nat): int
    decreases n
  {
    if n == 0 then current else NextTimes(mode, pageCount, NextPage(mode, pageCount, current), n - 1)
  }

  /** In single mode, `n` presses of next from the first page reach page `n`,
      as long as that page exists. */
  lemma {:induction false} NextTimesFromStart(pageCount: nat, start: int, n: nat)
    requires 0 <= start && start + n < pageCount
    ensures NextTimes(Single, pageCount, start, n) == start + n
    decreases n
  {
    if n > 0 {
      StepByOne(Single, pageCount, start);
      NextTimesFromStart(pageCount, start + 1, n - 1);
    }
  }

  /** Ten pages in single mode: nine nexts from page 0 reach the last page
      and a tenth stays there. */
  lemma SingleModeScenario()
    ensures NextTimes(Single, 10, 0, 9) == 9
    ensures NextTimes(Single, 10, 0, 10) == 9
  {
    NextTimesFromStart(10, 0, 9);
    StepByOne(Single, 10, 9);
    NextTimesShift(Single, 10, 0, 9);
  }

  /** One more press after `n` presses. */
  lemma {:induction false} NextTimesShift(mode: ViewMode, pageCount: nat, current: int, n: nat)
    ensures NextTimes(mode, pageCount, current, n + 1) ==
            NextPage(mode, pageCount, NextTimes(mode, pageCount, current, n))
    decreases n
  {
    if n > 0 {
      NextTimesShift(mode, pageCount, NextPage(mode, pageCount, current), n - 1);
    }
  }

  /** Double mode: 0 -> 1 -> 3, then back 3 -> 1 -> 0, whenever page 3 exists. */
  lemma DoubleModeScenario(pageCount: nat)
    requires pageCount >= 4
    ensures NextPage(Double, pageCount, 0) == 1
    ensures NextPage(Double, pageCount, 1) == 3
    ensures PrevPage(Double, pageCount, 3) == 1
    ensures PrevPage(Double, pageCount, 1) == 0
  {
  }

  /** `getDoublePages`: the one or two pages shown side by side. */
  function DoublePages(current: int, pageCount: nat): (r: seq<int>)
    requires 0 <= current
    ensures 1 <= |r| <= 2
    ensures current == 0 ==> r == [0]
    ensures current > 0 ==> r[0] % 2 == 1 && (r[0] == current || r[0] == current - 1)
    ensures |r| == 2 ==> r[1] == r[0] + 1 && r[1] < pageCount
    ensures current > 0 && r[0] + 1 < pageCount ==> |r| == 2
    ensures current < pageCount ==> current in r
    ensures current < pageCount ==> forall i :: 0 <= i < |r| ==> 0 <= r[i] < pageCount
  {
    if current == 0 then [0]
    else
      var start := if current % 2 == 0 then current - 1 else current;
      if start + 1 < pageCount then [start, start + 1] else [start]
  }

  /** The spread examples: page 3 of five or more shows 3 and 4; the last
      page of an even-length comic stands alone. */
  lemma DoublePagesExamples(pageCount: nat)
    requires pageCount >= 5
    ensures DoublePages(3, pageCount) == [3, 4]
    ensures pageCount % 2 == 0 ==> DoublePages(pageCount - 1, pageCount) == [pageCount - 1]
  {
  }

  // ----- Zoom and pan -----

  const MinZoom: int := 20
  const MaxZoom: int := 300
  const ZoomStep: int := 10

  predicate ZoomValid(z: int) {
    MinZoom <= z <= MaxZoom && z % ZoomStep == 0
  }

  /** `Math.min(z + 10, 300)`. */
  function ZoomIn(z: int): (r: int)
    ensures ZoomValid(z) ==> ZoomValid(r)
    ensures ZoomValid(z) ==> r == (if z == MaxZoom then z else z + ZoomStep)
  {
    if z + ZoomStep < MaxZoom then z + ZoomStep else MaxZoom
  }

  /** `Math.max(z - 10, 20)`. */
  function ZoomOut(z: int): (r: int)
    ensures ZoomValid(z) ==> ZoomValid(r)
    ensures ZoomValid(z) ==> r == (if z == MinZoom then z else z - ZoomStep)
  {
    if z - ZoomStep > MinZoom then z - ZoomStep else MinZoom
  }

  datatype ZoomAction = In | Out

  function ApplyZoom(z: int, actions: seq<ZoomAction>): int
    decreases |actions|
  {
    if actions == [] then z
    else ApplyZoom(if actions[0] == In then ZoomIn(z) else ZoomOut(z), actions[1..])
  }

  /** No sequence of zoom actions, from a valid zoom, leaves [20, 300] or the
      multiples of ten. */
  lemma {:induction false} ZoomStaysValid(z: int, actions: seq<ZoomAction>)
    requires ZoomValid(z)
    ensures ZoomValid(ApplyZoom(z, actions))
    decreases |actions|
  {
    if actions != [] {
      ZoomStaysValid(if actions[0] == In then ZoomIn(z) else ZoomOut(z), actions[1..]);
    }
  }

  /** A position in CSS pixels. Pointer coordinates and bounding boxes are
      fractional (the page sits under `scale(zoom / 100)`), hence `real`. */
  datatype Point = Point(x: real, y: real)

  const Origin: Point := Point(0.0, 0.0)

  /** Drag start records `pointer - pan`: the offset from which a move to the
      same pointer gives the pan back. */
  function DragOffset(pointer: Point, pan: Point): (o: Point)
    ensures PanAt(pointer, o) == pan
  {
    Point(pointer.x - pan.x, pointer.y - pan.y)
  }

  /** A drag move puts the pan at `pointer - offset`. */
  function PanAt(pointer: Point, offset: Point): Point {
    Point(pointer.x - offset.x, pointer.y - offset.y)
  }

  /** Moving back to the press point restores the pan held at the press, and
      every pixel the pointer moves moves the pan by the same amount. */
  lemma DragFollowsPointer(press: Point, pan: Point, dx: real, dy: real)
    ensures PanAt(press, DragOffset(press, pan)) == pan
    ensures PanAt(Point(press.x + dx, press.y + dy), DragOffset(press, pan)) == Point(pan.x + dx, pan.y + dy)
  {
  }

  // ----- Loupe -----

  /** A rendered image's bounding box. */
  datatype Rect = Rect(left: real, top: real, width: real, height: real)

  /** The loupe state: cursor, cursor relative to the image, image size, source. */
  datatype Loupe = Loupe(show: bool, x: real, y: real, relX: real, relY: real, w: real, h: real, src: string)

  const HiddenLoupe: Loupe := Loupe(false, 0.0, 0.0, 0.0, 0.0, 0.0, 0.0, "")

  /** The loupe a pointer move over an image records. */
  function LoupeAt(clientX: real, clientY: real, rect: Rect, src: string): (l: Loupe)
    ensures l.show && l.x == clientX && l.y == clientY
    ensures l.x == rect.left + l.relX && l.y == rect.top + l.relY
    ensures l.w == rect.width && l.h == rect.height && l.src == src
  {
    Loupe(true, clientX, clientY, clientX - rect.left, clientY - rect.top, rect.width, rect.height, src)
  }

  const LoupeSize: real := 200.0
  const LoupeHalf: real := 100.0
  const Magnification: real := 2.0

  /** The 200x200 overlay: position on screen, background size and offset. */
  datatype Overlay = Overlay(left: real, top: real, bgWidth: real, bgHeight: real, bgX: real, bgY: real)

  /** The overlay as intended: centred on the cursor, the image at twice its
      rendered size, offset by `-(rel * 2 - 100)`. */
  function OverlayOf(l: Loupe): (o: Overlay)
    ensures o.left + LoupeHalf == l.x && o.top + LoupeHalf == l.y
    ensures o.bgWidth == Magnification * l.w && o.bgHeight == Magnification * l.h
    ensures o.bgX + Magnification * l.relX == LoupeHalf
    ensures o.bgY + Magnification * l.relY == LoupeHalf
  {
    Overlay(l.x - LoupeHalf, l.y - LoupeHalf, l.w * 2.0, l.h * 2.0,
            -(l.relX * 2.0 - LoupeHalf), -(l.relY * 2.0 - LoupeHalf))
  }

  /** The image point under the cursor is drawn at the overlay's centre, and
      that centre is the cursor itself. */
  lemma LoupeCentresCursor(clientX: real, clientY: real, rect: Rect, src: string)
    ensures var l := LoupeAt(clientX, clientY, rect, src);
      var o := OverlayOf(l);
      o.bgX + Magnification * (clientX - rect.left) == LoupeHalf &&
      o.bgY + Magnification * (clientY - rect.top) == LoupeHalf &&
      o.left + LoupeHalf == clientX && o.top + LoupeHalf == clientY
  {
  }

  /** The background offset as the source writes it: the CSS text
      `-${v}px` for `v = rel * 2 - 100`. For `v >= 0` that is the length `-v`;
      for `v < 0` it reads `--|v|px`, which is not a CSS length, so the
      declaration is dropped (None). */
  function BackgroundOffsetAsWritten(l: Loupe): (r: Option<(real, real)>)
    ensures r.Some? <==> l.relX * 2.0 - LoupeHalf >= 0.0 && l.relY * 2.0 - LoupeHalf >= 0.0
    ensures r.Some? ==> r.value == (OverlayOf(l).bgX, OverlayOf(l).bgY)
  {
    var vx := l.relX * 2.0 - LoupeHalf;
    var vy := l.relY * 2.0 - LoupeHalf;
    if vx >= 0.0 && vy >= 0.0 then Some((-vx, -vy)) else None
  }

  /** A cursor 10 px inside the image's top-left corner gets no background
      offset as written, although the intended offset is (80, 80). */
  lemma BackgroundOffsetNearEdge()
    ensures var l := LoupeAt(110.0, 210.0, Rect(100.0, 200.0, 400.0, 600.0), "p");
      BackgroundOffsetAsWritten(l) == None &&
      OverlayOf(l).bgX == 80.0 && OverlayOf(l).bgY == 80.0
  {
  }

  // ----- Vertical window -----

  const WindowRadius: int := 5

  function Abs(x: int): nat {
    if x < 0 then -x else x
  }

  /** Page `i` is realized as an image (not a placeholder). */
  predicate Realized(current: int, i: int) {
    Abs(current - i) < WindowRadius
  }

  /** The realized pages of a comic. */
  function RealizedPages(current: int, pageCount: nat): (r: set<int>)
    ensures forall i :: i in r <==> 0 <= i < pageCount && Realized(current, i)
    ensures 0 <= current < pageCount ==> current in r
    ensures |r| <= 2 * WindowRadius - 1
  {
    var r := set i | 0 <= i < pageCount && Realized(current, i);
    var band := Band(current - (WindowRadius - 1), 2 * WindowRadius - 1);
    BandSize(current - (WindowRadius - 1), 2 * WindowRadius - 1);
    assert r <= band;
    SubsetSize(r, band);
    r
  }

  /** The integers in [lo, lo + n). */
  function Band(lo: int, n: nat): set<int>
    decreases n
  {
    if n == 0 then {} else Band(lo, n - 1) + {lo + n - 1}
  }

  lemma {:induction false} BandSize(lo: int, n: nat)
    ensures |Band(lo, n)| == n
    ensures forall i :: i in Band(lo, n) <==> lo <= i < lo + n
    decreases n
  {
    if n > 0 {
      BandSize(lo, n - 1);
    }
  }

  lemma SubsetSize(a: set<int>, b: set<int>)
    requires a <= b
    ensures |a| <= |b|
  {
    assert b == a + (b - a);
  }

  // ----- Page actions -----

  /** A page's local action entry: `is_favorite` and `note` may be absent. */
  datatype PageAction = PageAction(isFavorite: Option<bool>, note: Option<string>)

  type PageActions = map<int, PageAction>

  /** `pageActions[page]?.is_favorite`, read for truthiness. */
  predicate IsFavorite(actions: PageActions, page: int) {
    page in actions && actions[page].isFavorite == Some(true)
  }

  /** The note field of an entry as `{ ...entry }` would copy it. */
  function NoteOf(actions: PageActions, page: int): Option<string> {
    if page in actions then actions[page].note else None
  }

  /** The map `toggleFavorite` stores: only this page's favorite flips. */
  function ToggledFavorite(actions: PageActions, page: int): (r: PageActions)
    ensures r.Keys == actions.Keys + {page}
    ensures IsFavorite(r, page) <==> !IsFavorite(actions, page)
    ensures r[page].isFavorite.Some? && NoteOf(r, page) == NoteOf(actions, page)
    ensures forall p :: p in actions && p != page ==> r[p] == actions[p]
  {
    actions[page := PageAction(Some(!IsFavorite(actions, page)), NoteOf(actions, page))]
  }

  /** The map `saveNote` stores: only this page's note changes. */
  function WithNote(actions: PageActions, page: int, text: string): (r: PageActions)
    ensures r.Keys == actions.Keys + {page}
    ensures r[page].note == Some(text)
    ensures IsFavorite(r, page) == IsFavorite(actions, page)
    ensures page in actions ==> r[page].isFavorite == actions[page].isFavorite
    ensures forall p :: p in actions && p != page ==> r[p] == actions[p]
  {
    var fav := if page in actions then actions[page].isFavorite else None;
    actions[page := PageAction(fav, Some(text))]
  }

  /** Toggling twice restores the page's favorite; the note survives both. */
  lemma ToggleTwice(actions: PageActions, page: int)
    ensures IsFavorite(ToggledFavorite(ToggledFavorite(actions, page), page), page) == IsFavorite(actions, page)
    ensures NoteOf(ToggledFavorite(ToggledFavorite(actions, page), page), page) == NoteOf(actions, page)
  {
  }

  // ----- Image filter -----

  /** One function of the CSS filter chain. Number formatting is not modelled,
      the values are carried as they are stored. */
  datatype FilterFn =
    | Brightness(v: Value)
    | Contrast(v: Value)
    | Saturate(v: Value)
    | SharpenUrl            // url(#sharpen)
    | Blur(px: real)

  /** `s[key] && s[key] > 0`. */
  predicate PositiveAt(s: Object, key: string) {
    TruthyAt(s, key) && NumberOf(s[key]) > 0
  }

  /** The three base functions, each defaulting to 100 when null or absent. */
  function BaseFilter(s: Object): seq<FilterFn> {
    [Brightness(Coalesce(s, "brightness", Num(100))),
     Contrast(Coalesce(s, "contrast", Num(100))),
     Saturate(Coalesce(s, "saturation", Num(100)))]
  }

  /** `getFilterString`, as a list of filter functions. */
  function FilterChain(s: Object): (r: seq<FilterFn>)
    ensures |r| >= 3 && r[..3] == BaseFilter(s)
    ensures SharpenUrl in r <==> PositiveAt(s, "sharpen")
    ensures (exists i :: 0 <= i < |r| && r[i].Blur?) <==> PositiveAt(s, "denoise")
    ensures PositiveAt(s, "denoise") ==> r[|r| - 1] == Blur(NumberOf(s["denoise"]) as real / 50.0)
    ensures !PositiveAt(s, "sharpen") && !PositiveAt(s, "denoise") ==> r == BaseFilter(s)
  {
    var sharpen := if PositiveAt(s, "sharpen") then [SharpenUrl] else [];
    var blur := if PositiveAt(s, "denoise")
                then [Blur((NumberOf(s["denoise"]) as real / 100.0) * 2.0)] else [];
    var r := BaseFilter(s) + sharpen + blur;
    assert r[..3] == BaseFilter(s);
    assert forall i :: 3 <= i < |r| ==> r[i] == (sharpen + blur)[i - 3];
    assert blur != [] ==> r[|r| - 1].Blur?;
    r
  }

  /** At the default settings the filter is exactly the neutral base. */
  lemma NeutralFilter()
    ensures FilterChain(SettingsModel.DefaultImageSettings()) ==
      [Brightness(Num(100)), Contrast(Num(100)), Saturate(Num(100))]
  {
    var d := SettingsModel.DefaultImageSettings();
    assert !PositiveAt(d, "sharpen") && !PositiveAt(d, "denoise");
  }

  /** The blue-light button: `{ ...s, blueLight: !s.blueLight }`. */
  function ToggleBlueLight(s: Object): (r: Object)
    ensures r.Keys == s.Keys + {"blueLight"}
    ensures r["blueLight"] == Bool(!TruthyAt(s, "blueLight"))
    ensures forall k :: k in s && k != "blueLight" ==> r[k] == s[k]
  {
    s["blueLight" := Bool(!TruthyAt(s, "blueLight"))]
  }
}
