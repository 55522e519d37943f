/** The application shell: the sharpen kernel shared by every rendered page,
    the blue-light overlay, and the switch between library, reader and
    settings. */
module AppShell {
  import opened JsValues

  /** The slider value as a fraction: `(imageSettings.sharpen || 0) / 100`. */
  function SharpenFraction(settings: Object): real {
    if TruthyAt(settings, "sharpen") then NumberOf(settings["sharpen"]) as real / 100.0 else 0.0
  }

  /** The 3x3 kernel, row by row, interpolated between the identity kernel
      and the sharpen kernel by `s`. */
  function KernelFor(s: real): (k: seq<real>)
    ensures |k| == 9
  {
    [0.0, -s, 0.0,
     -s, 4.0 * s + 1.0, -s,
     0.0, -s, 0.0]
  }

  /** The kernel written into the `feConvolveMatrix` of the sharpen filter. */
  function Kernel(settings: Object): (k: seq<real>)
    ensures |k| == 9
  {
    KernelFor(SharpenFraction(settings))
  }

  function Sum(xs: seq<real>): real {
    if xs == [] then 0.0 else xs[0] + Sum(xs[1..])
  }

  /** The kernel preserves brightness: its weights sum to one for every `s`. */
  lemma {:induction false} KernelSumsToOne(s: real)
    ensures Sum(KernelFor(s)) == 1.0
  {
    var k := KernelFor(s);
    assert k[8..] == [0.0];
    assert Sum(k[8..]) == 0.0;
    assert Sum(k[7..]) == -s;
    assert Sum(k[6..]) == -s;
    assert Sum(k[5..]) == -2.0 * s;
    assert Sum(k[4..]) == 2.0 * s + 1.0;
    assert Sum(k[3..]) == s + 1.0;
    assert Sum(k[2..]) == s + 1.0;
    assert Sum(k[1..]) == 1.0;
  }

  const Identity: seq<real> := [0.0, 0.0, 0.0, 0.0, 1.0, 0.0, 0.0, 0.0, 0.0]

  /** At a zero or missing sharpen value the kernel is the identity. */
  lemma IdentityWhenNoSharpen(settings: Object)
    requires "sharpen" !in settings || settings["sharpen"] == Num(0) || settings["sharpen"] == Null
    ensures Kernel(settings) == Identity
  {
  }

  /** At the full value the kernel is the standard unity-gain sharpen kernel. */
  lemma FullSharpenKernel(settings: Object)
    requires "sharpen" in settings && settings["sharpen"] == Num(100)
    ensures Kernel(settings) == [0.0, -1.0, 0.0, -1.0, 5.0, -1.0, 0.0, -1.0, 0.0]
  {
  }

  /** The corners are zero and the four orthogonal neighbours are equal, for
      every slider value. */
  lemma KernelShape(settings: Object)
    ensures var k := Kernel(settings);
      k[0] == k[2] == k[6] == k[8] == 0.0 &&
      k[1] == k[3] == k[5] == k[7] == -SharpenFraction(settings) &&
      k[4] == 1.0 - 4.0 * k[1]
  {
  }

  /** The overlay is drawn only for a stored value strictly equal to `true`. */
  predicate BlueLightOverlay(settings: Object) {
    "blueLight" in settings && settings["blueLight"] == Bool(true)
  }

  /** The overlay's fixed alpha. */
  const OverlayAlpha: real := 0.4

  /** A truthy value other than `true` does not draw the overlay. */
  lemma BlueLightIsStrict()
    ensures TruthyAt(map["blueLight" := Num(1)], "blueLight")
    ensures !BlueLightOverlay(map["blueLight" := Num(1)])
    ensures BlueLightOverlay(map["blueLight" := Bool(true)])
  {
  }

  datatype View = LibraryView | ReaderView | SettingsView
  datatype Screen = LibraryScreen | ReaderScreen(bookId: Option<int>) | SettingsScreen

  /** The one screen the shell renders for a view. */
  function Rendered(view: View, currentBookId: Option<int>): (s: Screen)
    ensures s.LibraryScreen? <==> view == LibraryView
    ensures s.ReaderScreen? <==> view == ReaderView
    ensures s.SettingsScreen? <==> view == SettingsView
    ensures s.ReaderScreen? ==> s.bookId == currentBookId
  {
    match view
    case LibraryView => LibraryScreen
    case ReaderView => ReaderScreen(currentBookId)
    case SettingsView => SettingsScreen
  }

  /** The shell's view state. */
  class Shell {
    var view: View
    var currentBookId: Option<int>

    constructor ()
      ensures view == LibraryView && currentBookId == None
    {
      view := LibraryView;
      currentBookId := None;
    }

    /** `openBook(id)`: the reader for that comic. */
    method OpenBook(id: int)
      modifies this
      ensures view == ReaderView && currentBookId == Some(id)
      ensures Rendered(view, currentBookId) == ReaderScreen(Some(id))
    {
      currentBookId := Some(id);
      view := ReaderView;
    }

    /** `goHome`, the back action of both the reader and the settings screen. */
    method GoHome()
      modifies this
      ensures view == LibraryView && currentBookId == None
    {
      view := LibraryView;
      currentBookId := None;
    }

    /** The library's settings button. */
    method OpenSettings()
      modifies this
      ensures view == SettingsView && currentBookId == old(currentBookId)
    {
      view := SettingsView;
    }
  }
}
