# KubrickHQ comic reader — a Dafny model

KubrickHQ is a desktop comic reader: a React front end (library screen, reader
view, settings) over a small Python backend (a SQLite catalogue and an archive
reader for PDF, CBZ and CBR files). This project models the logic of that core
and proves what it promises:

- the reader view's state machine: clamped and spread-aligned page navigation,
  bounded zoom, drag-to-pan, the magnifier loupe, the vertical-mode window and
  its scroll lock, optimistic favorites and notes, and the CSS filter chain
  (`ReaderLogic` for the pure rules, `ReaderView` for the component state as a
  class whose handlers are methods);
- the application shell's sharpen kernel, blue-light overlay condition and
  three-screen view switch (`AppShell`);
- the settings provider's defaults merge, string fallbacks, reset and theme
  rule (`SettingsModel`);
- the library screen's search filter and two sort orders, the drag counter,
  the drop loop and the blank-name guards (`LibraryModel`);
- the catalogue tables and their update rules (`Database`, a class whose
  fields are the tables as maps);
- the archive reader's natural sort keys, image filtering, extension-to-type
  mapping and page bounds (`ArchiveReader`).

`JsValues` holds the JavaScript values the front end inspects (truthiness,
`??`), and `Ascii` the ASCII lower-casing both halves rely on.

Network calls, timers and browser APIs are not modelled as such. Each `fetch`
the front end issues becomes an entry appended to an outbox (`ReaderView`) or
a request list (`LibraryModel`), and the outcome of a request is a parameter.
The two timers of the vertical scroll lock are explicit events
(`FireScrollTimer`, `FireReleaseTimer`). The clock is a `now` parameter of the
table operations that stamp a row. The pixel geometry of the intersection
observer is reduced to the sequence of entries a batch delivers.

Three behaviours of the code a reader might not expect, which the model keeps:

- An explicit page selection in vertical mode does not arm the scroll lock.
  Only switching into vertical mode, or the metadata arriving while the view
  is vertical, does: the effect depends on the mode and the metadata, not on
  the page (src/components/Reader.jsx:278-292).
- The keyboard handler has no guard for a focused text field: arrows and zoom
  keys act even while the note editor has focus (src/components/Reader.jsx:215-228).
- The blue-light overlay's comment says 30% opacity; the colour it sets has
  alpha 0.4 (src/App.jsx:56-60); `AppShell.OverlayAlpha` is 0.4.

## Model

| member | source | states |
|---|---|---|
| JsValues.Coalesce | src/components/Reader.jsx:339-341 | `obj[key] ?? d`: a present non-null value is kept, undefined and null give the fallback |
| JsValues.Truthy | src/components/Reader.jsx:140 | JavaScript truthiness: null, false, 0 and the empty string are falsy, everything else truthy; used by every `if (x)` and `!x` the model reads, and by the `or`-defaults |
| JsValues.NumberOf | src/components/Reader.jsx:345-347 | the number a setting converts to in `v > 0` and `v / 100`: a number is itself and a boolean 1 or 0 (strings: see Left out) |
| Ascii.LowerChar | backend/reader.py:11 | lower-casing moves exactly the letters A-Z by 32, leaves every other character alone and keeps digits digits |
| Ascii.Lower | backend/reader.py:11 | `lower()` keeps the length and lower-cases position by position |
| Ascii.LowerIdempotent | backend/reader.py:11 | lower-casing twice is lower-casing once |
| Ascii.LowerSlice | backend/reader.py:11 | lower-casing commutes with taking a slice |
| ReaderLogic.Clamp | src/components/Reader.jsx:177 | with pages, the result is in [0, count-1]; an in-range target is kept, a negative one gives 0, one past the end gives the last page; with no pages it is 0 |
| ReaderLogic.CommittedPage | src/components/Reader.jsx:176-184 | the page setPage commits is in range; in double mode it is 0 or odd, a positive even target becoming target-1; other modes commit the clamped target |
| ReaderLogic.StepByOne | src/components/Reader.jsx:187-203 | in single and vertical mode next is +1 up to the last page and prev is -1 down to 0 |
| ReaderLogic.StepBySpread | src/components/Reader.jsx:187-203 | in double mode from an aligned page, next goes 0 to 1 and otherwise +2 (clamped), and prev goes to 0 from pages up to 1 and otherwise -2 |
| ReaderLogic.NextTimesFromStart | src/components/Reader.jsx:187-194 | n nexts in single mode from a page with n pages ahead land n pages later |
| ReaderLogic.NextTarget | src/components/Reader.jsx:187-194 | the target `nextPage` asks for is always ahead of the current page (the step sizes are ReaderLogic.StepByOne and ReaderLogic.StepBySpread) |
| ReaderLogic.PrevTarget | src/components/Reader.jsx:196-203 | the target `prevPage` asks for never moves forward from a page that exists, and stays put only at page 0 in double mode |
| ReaderLogic.NextPage | src/components/Reader.jsx:187-194 | after `nextPage` the page is a real page (0 with none), and outside double mode not behind the current one |
| ReaderLogic.PrevPage | src/components/Reader.jsx:196-203 | after `prevPage` the page is a real page (0 with none), never ahead of a real current page |
| ReaderLogic.SingleModeScenario | src/components/Reader.jsx:187-194 | with 10 pages, nine nexts from 0 reach 9 and a tenth stays at 9 |
| ReaderLogic.NextTimesShift | src/components/Reader.jsx:187-194 | n+1 nexts are n nexts followed by one more |
| ReaderLogic.DoubleModeScenario | src/components/Reader.jsx:187-203 | in double mode next goes 0 to 1 to 3, and prev goes 3 to 1 to 0 |
| ReaderLogic.DoublePages | src/components/Reader.jsx:206-212 | one or two pages: [0] at page 0; otherwise an odd start that is the page or the page before it, followed by start+1 exactly when that page exists; from an in-range page every index shown is a valid page and the current page is among them, even for an even page left by a mode switch |
| ReaderLogic.DoublePagesExamples | src/components/Reader.jsx:206-212 | page 3 shows [3, 4]; the last page of an even count is shown alone |
| ReaderLogic.ZoomIn | src/components/Reader.jsx:218 | from a valid zoom (a multiple of 10 in [20, 300]), +10 capped at 300, and the result is valid again |
| ReaderLogic.ZoomOut | src/components/Reader.jsx:219 | from a valid zoom (a multiple of 10 in [20, 300]), -10 floored at 20, and the result is valid again |
| ReaderLogic.ZoomStaysValid | src/components/Reader.jsx:218-219 | any sequence of zoom-ins and zoom-outs keeps zoom in [20, 300] |
| ReaderLogic.DragFollowsPointer | src/components/Reader.jsx:231-245 | with the offset recorded at the press, returning to the press point leaves pan as it was, and moving by (dx, dy) moves pan by (dx, dy) |
| ReaderLogic.DragOffset | src/components/Reader.jsx:235 | the offset recorded at the press is the one from which a move to the same pointer gives back the pan |
| ReaderLogic.PanAt | src/components/Reader.jsx:241-244 | the pan a drag move sets: pointer minus recorded offset; its meaning is ReaderLogic.DragFollowsPointer |
| ReaderLogic.LoupeAt | src/components/Reader.jsx:250-268 | the loupe is shown at the cursor, its relative position is the cursor minus the image's top-left, and it records the image's size and source |
| ReaderLogic.OverlayOf | src/components/Reader.jsx:379-394 | the overlay's top-left is the cursor minus 100, the background is twice the image's size, and the background offset puts the image point under the cursor at the box centre (100, 100) |
| ReaderLogic.LoupeCentresCursor | src/components/Reader.jsx:379-394 | for any pointer over any image, the magnified point is the one under the cursor and the box is centred on the cursor |
| ReaderLogic.BackgroundOffsetAsWritten | src/components/Reader.jsx:394 | the background offset as the CSS text is written exists exactly when both rel*2-100 are non-negative, and then equals the intended one |
| ReaderLogic.BackgroundOffsetNearEdge | src/components/Reader.jsx:394 | a cursor 10 px inside the image's corner gets no background offset as written, although (80, 80) is intended |
| ReaderLogic.RealizedPages | src/components/Reader.jsx:657 | page i is realized iff it is a page and lies less than 5 from the current page; at most 9 pages are realized, the current one among them |
| ReaderLogic.BandSize | src/components/Reader.jsx:657 | the band of n consecutive pages has n members, exactly those pages |
| ReaderLogic.Realized | src/components/Reader.jsx:657 | `Math.abs(currentPage - i) < 5`; what it means for the set of rendered pages is ReaderLogic.RealizedPages |
| ReaderLogic.Band | src/components/Reader.jsx:657 | the integers lo, ..., lo+n-1, as ReaderLogic.BandSize proves; used to bound the realized pages |
| ReaderLogic.SubsetSize | src/components/Reader.jsx:657 | a subset of a set is no larger than it |
| ReaderLogic.ToggledFavorite | src/components/Reader.jsx:139-146 | the favorite of the current page flips, its note is kept, every other page's entry is unchanged |
| ReaderLogic.IsFavorite | src/components/Reader.jsx:140 | `pageActions[page]?.is_favorite` read for truthiness: true only for a present entry whose flag is true; what toggling does to it is ReaderLogic.ToggledFavorite |
| ReaderLogic.NoteOf | src/components/Reader.jsx:155 | `pageActions[page]?.note`: the entry's note, absent when there is no entry |
| ReaderLogic.WithNote | src/components/Reader.jsx:159-166 | the current page's note becomes the text, its favorite is kept, every other page's entry is unchanged |
| ReaderLogic.ToggleTwice | src/components/Reader.jsx:139-146 | toggling the favorite twice restores the favorite flag and the note |
| ReaderLogic.FilterChain | src/components/Reader.jsx:338-350 | the chain starts with brightness, contrast and saturation; the sharpen reference is present iff sharpen > 0; a blur is present iff denoise > 0, last, with radius denoise/50; with neither it is the base chain |
| ReaderLogic.BaseFilter | src/components/Reader.jsx:339-343 | brightness, contrast and saturation, each the setting or 100 when absent or null (JsValues.Coalesce); ReaderLogic.FilterChain states the whole chain |
| ReaderLogic.NeutralFilter | src/components/Reader.jsx:338-350 | at the default settings the chain is exactly brightness(100%) contrast(100%) saturate(100%) |
| ReaderLogic.ToggleBlueLight | src/components/Reader.jsx:462 | the blue-light setting becomes the negation of its truthiness and every other setting is kept |
| ReaderView.IntersectingPages | src/components/Reader.jsx:299-304 | the pages an observer batch selects are no more than its entries; which pages they are is ReaderView.IntersectingMembers |
| ReaderView.IntersectingMembers | src/components/Reader.jsx:299-304 | a page is selected iff some entry of the batch intersects and carries it |
| ReaderView.SingleEntryBatch | src/components/Reader.jsx:299-304 | a batch of one intersecting entry selects exactly its page |
| ReaderView.ProgressWrites | src/components/Reader.jsx:299-304 | one progress write per selected page, in order |
| ReaderView.IntersectingStep | src/components/Reader.jsx:299-304 | extending a batch by one entry adds that page, and its write, exactly when the entry intersects |
| ReaderView.IntersectingInRange | src/components/Reader.jsx:299-304 | when every entry is a valid page, every selected page is too |
| ReaderView.ScanEntries | src/components/Reader.jsx:299-304 | walking the entries one by one issues one progress write per intersecting entry, in order, and ends on the last intersecting page (or the start page when none intersects) |
| ReaderView.Reader.constructor | src/components/Reader.jsx:74-99 | the initial state: no metadata, page 0, the default view mode, zoom 100, no pan, drag, magnifier, loupe, actions or lock |
| ReaderView.Reader.ResetEffect | src/components/Reader.jsx:102-105 | a change of page or view mode resets pan to (0, 0) and hides the loupe, keeping its other fields; with neither changed pan and loupe are kept; no other field may change |
| ReaderView.Reader.ArmScrollLock | src/components/Reader.jsx:278-292 | the lock is held and a scroll to the current page is queued; no other field may change |
| ReaderView.Reader.LoadMeta | src/components/Reader.jsx:115-126 | metadata sets the page count and the stored page (or 0); in vertical mode it arms the lock; a changed page resets pan and hides the loupe and an unchanged one keeps both; only the count, the page, pan, loupe and the lock fields may change |
| ReaderView.Reader.LoadActions | src/components/Reader.jsx:122-124 | the fetched page actions replace the map |
| ReaderView.Reader.SetPage | src/components/Reader.jsx:175-185 | before metadata nothing changes; afterwards the committed page is in range (0 or odd in double mode) and one progress write with that same page is sent; a changed page resets pan and hides the loupe, an unchanged one keeps both; only the page, the outbox, pan and loupe may change |
| ReaderView.Reader.NextPageAction | src/components/Reader.jsx:187-194 | before metadata nothing changes; afterwards the page becomes NextPage of the current one and one progress write is sent; pan and loupe reset exactly when the page changes; only the page, the outbox, pan and loupe may change |
| ReaderView.Reader.PrevPageAction | src/components/Reader.jsx:196-203 | before metadata nothing changes; afterwards the page becomes PrevPage of the current one and one progress write is sent; pan and loupe reset exactly when the page changes; only the page, the outbox, pan and loupe may change |
| ReaderView.Reader.SetViewMode | src/components/Reader.jsx:449-455 | the mode is set and the page is not realigned; a change resets pan and hides the loupe, the same mode keeps both; entering vertical mode with metadata arms the lock; only the mode, pan, loupe and the lock fields may change |
| ReaderView.Reader.FireScrollTimer | src/components/Reader.jsx:282-289 | the first queued scroll is performed (in vertical mode) and a release is scheduled; with none queued nothing changes; only the two timer queues and the scroll record may change |
| ReaderView.Reader.FireReleaseTimer | src/components/Reader.jsx:286-287 | a pending release clears the lock; with none nothing changes; only the release queue and the lock may change |
| ReaderView.Reader.ObserverBatch | src/components/Reader.jsx:294-318 | while the lock is held, outside vertical mode or before metadata a batch changes nothing; otherwise each intersecting entry in turn sets the page and issues a progress write, so the last one wins; pan and loupe reset exactly when the page changes; only the page, the outbox, pan and loupe may change |
| ReaderView.Reader.ZoomInAction | src/components/Reader.jsx:489 | zoom becomes ZoomIn of the old zoom |
| ReaderView.Reader.ZoomOutAction | src/components/Reader.jsx:487 | zoom becomes ZoomOut of the old zoom |
| ReaderView.Reader.KeyPress | src/components/Reader.jsx:215-228 | + and = zoom in, - zooms out; outside vertical mode with metadata the arrows page through NextPage and PrevPage with one progress write; Escape asks to go back; any other key, and the arrows in vertical mode, leave page, outbox, zoom, pan and loupe as they were; only those fields may change |
| ReaderView.Reader.MouseDown | src/components/Reader.jsx:231-236 | ignored in vertical mode (the handler is bound only to the paged container), while the magnifier is on or when zoom is at most 100; otherwise dragging starts with the pointer-minus-pan offset |
| ReaderView.Reader.MouseMove | src/components/Reader.jsx:238-245 | while dragging pan follows the pointer; otherwise nothing changes |
| ReaderView.Reader.MouseUp | src/components/Reader.jsx:247 | dragging stops |
| ReaderView.Reader.ToggleMagnifier | src/components/Reader.jsx:108-112 | the magnifier flips, dragging stops and the loupe is hidden |
| ReaderView.Reader.LoupeMove | src/components/Reader.jsx:250-268 | with the magnifier on the loupe becomes LoupeAt of the pointer; otherwise it is unchanged |
| ReaderView.Reader.LoupeLeave | src/components/Reader.jsx:270-272 | the loupe is hidden and keeps every other field |
| ReaderView.Reader.ToggleFavorite | src/components/Reader.jsx:139-152 | the local map is updated first and unconditionally, then one favorite write with the new flag is sent |
| ReaderView.Reader.OpenNoteModal | src/components/Reader.jsx:154-157 | the editor opens holding the current page's note, or empty text |
| ReaderView.Reader.EditNote | src/components/Reader.jsx:85 | the editor text becomes the typed text |
| ReaderView.Reader.SaveNote | src/components/Reader.jsx:159-172 | the local map gets the note, one note write is sent and the editor closes |
| ReaderView.Reader.RealizedNow | src/components/Reader.jsx:657 | at most 9 pages are realized and the current page is one of them |
| ReaderView.LockHoldsThroughScroll | src/components/Reader.jsx:278-304 | entering vertical mode at page 4 takes the lock; batches reporting another page are ignored before and after the scroll timer fires, which schedules one release |
| ReaderView.LockedBatchIgnored | src/components/Reader.jsx:294-297 | while the lock is held in vertical mode, a batch reporting any page leaves the page, the outbox and the timers as they were |
| ReaderView.VerticalLockScenario | src/components/Reader.jsx:278-304 | after entering vertical mode at page 4, once both timers have fired a batch reporting page p moves the page to p |
| ReaderView.FavoriteWithoutRollback | src/components/Reader.jsx:139-152 | toggling a page that is not a favorite makes it one and sends the write, with no dependence on the answer |
| ReaderView.ArrowKeysScenario | src/components/Reader.jsx:215-228 | in single mode on page 3 of 10, right then left returns to page 3 with writes for pages 4 and 3 and the pan at rest; an unbound key changes nothing |
| ReaderView.ArrowsInertInVertical | src/components/Reader.jsx:220-225 | in vertical mode an arrow key leaves the page, the outbox, the zoom, pan and loupe unchanged |
| AppShell.KernelSumsToOne | src/App.jsx:36-39 | the nine weights of the kernel sum to 1 for every sharpen fraction |
| AppShell.SharpenFraction | src/App.jsx:36 | the fraction `sharpen / 100`, taking 0 for a falsy setting: the slider value over 100 when truthy, 0 otherwise; AppShell.IdentityWhenNoSharpen and AppShell.FullSharpenKernel state its two ends |
| AppShell.KernelFor | src/App.jsx:36-39 | the kernel for a fraction has nine weights; AppShell.KernelSumsToOne and AppShell.KernelShape state their values and sum |
| AppShell.Kernel | src/App.jsx:36-39 | the kernel the settings give has nine weights; it is KernelFor of the sharpen fraction |
| AppShell.IdentityWhenNoSharpen | src/App.jsx:36-39 | with sharpen missing, null or 0 the kernel is the identity |
| AppShell.FullSharpenKernel | src/App.jsx:36-39 | at sharpen 100 the kernel is [0,-1,0,-1,5,-1,0,-1,0] |
| AppShell.KernelShape | src/App.jsx:36-39 | the corners are 0, the four neighbours are -s and the centre is 4s+1 |
| AppShell.BlueLightIsStrict | src/App.jsx:57 | the overlay appears for `true` and not for a merely truthy value such as 1 |
| AppShell.BlueLightOverlay | src/App.jsx:57 | `imageSettings.blueLight === true`: the overlay is rendered only for the boolean true; AppShell.BlueLightIsStrict shows a truthy 1 does not count |
| AppShell.Rendered | src/App.jsx:71-73 | exactly one screen is shown per view, and the reader gets the current book id |
| AppShell.Shell.constructor | src/App.jsx:8-9 | the shell starts on the library with no book |
| AppShell.Shell.OpenBook | src/App.jsx:12-15 | the view becomes the reader and the book id the given id |
| AppShell.Shell.GoHome | src/App.jsx:17-20 | the view becomes the library and the book id null |
| AppShell.Shell.OpenSettings | src/App.jsx:71 | the view becomes settings and the book id is kept |
| SettingsModel.LoadImageSettings | src/contexts/SettingsContext.jsx:25-32 | a parsed object gives the defaults overridden by every saved key, with absent keys at their default; a parse of null, a scalar or a parse failure gives exactly the defaults |
| SettingsModel.DefaultImageSettings | src/contexts/SettingsContext.jsx:16-23 | brightness, contrast and saturation 100, sharpen and denoise 0, blue light false; SettingsModel.LoadOfSavedDefaults and SettingsModel.LoadKeepsDefaultKeys relate it to loading |
| SettingsModel.LoadOfSavedDefaults | src/contexts/SettingsContext.jsx:16-28 | loading saved defaults gives the defaults |
| SettingsModel.LoadKeepsDefaultKeys | src/contexts/SettingsContext.jsx:16-28 | every default key is present after loading |
| SettingsModel.StoredOr | src/contexts/SettingsContext.jsx:10-13 | a missing or empty stored string gives the fallback; any other stored string is kept |
| SettingsModel.ThemeRule | src/contexts/SettingsContext.jsx:43-61 | 'dark' sets the dark class, 'system' follows the media query, anything else clears it |
| SettingsModel.DarkClass | src/contexts/SettingsContext.jsx:43-61 | whether the document gets the dark class; SettingsModel.ThemeRule states its three cases |
| SettingsModel.SettingsProvider.constructor | src/contexts/SettingsContext.jsx:10-32 | theme, language and default view fall back to 'system', 'pt-br' and 'single'; image settings are loaded; the theme rule holds |
| SettingsModel.SettingsProvider.SetTheme | src/contexts/SettingsContext.jsx:43-62 | the new theme is applied at once and nothing else changes |
| SettingsModel.SettingsProvider.MediaQueryChange | src/contexts/SettingsContext.jsx:49-55 | the media query value changes the dark class only under 'system' |
| SettingsModel.SettingsProvider.ResetImageSettings | src/contexts/SettingsContext.jsx:64-71 | image settings become brightness, contrast and saturation 100, sharpen and denoise 0, blue light false: the defaults, so a second reset changes nothing |
| SettingsModel.SettingsProvider.SetImageSetting | src/contexts/SettingsContext.jsx:78 | one image setting is replaced and everything else is kept |
| LibraryModel.EmptyTermMatches | src/components/Library.jsx:158 | every title contains the empty term |
| LibraryModel.FilterBooks | src/components/Library.jsx:158 | exactly the books whose lowercased title contains the lowercased term, a sub-multiset of the source |
| LibraryModel.Matches | src/components/Library.jsx:158 | the lowercased title contains the lowercased term; LibraryModel.EmptyTermMatches and LibraryModel.FilteredBooksContents state what it selects |
| LibraryModel.FilterAllMatch | src/components/Library.jsx:158 | when every book matches, the filter returns the source unchanged |
| LibraryModel.EmptySearchKeepsAll | src/components/Library.jsx:158 | an empty search keeps every book, in order |
| LibraryModel.Insert | src/components/Library.jsx:160-168 | inserting into a list sorted by the key keeps it sorted and adds exactly that book |
| LibraryModel.SortBy | src/components/Library.jsx:160-168 | the result is sorted by the key and a permutation of the input |
| LibraryModel.SourceBooks | src/components/Library.jsx:154-156 | the collection's books iff the collections tab is active and a collection is selected, otherwise all books |
| LibraryModel.FilteredBooks | src/components/Library.jsx:153-171 | a permutation of the filtered source, sorted by the chosen order's key |
| LibraryModel.DateOf | src/components/Library.jsx:165-166 | `last_read_at` or else `added_at`: the last read time when there is one, else the time added |
| LibraryModel.SortKey | src/components/Library.jsx:160-168 | the key each order sorts by: the collation rank of the title for 'alpha', the negated date for 'recent'; LibraryModel.FilteredAlphaOrder and LibraryModel.FilteredRecentOrder state the orders |
| LibraryModel.FilteredBooksContents | src/components/Library.jsx:153-171 | a book is listed iff it is in the source and its title matches the term |
| LibraryModel.FilteredAlphaOrder | src/components/Library.jsx:160-161 | with 'alpha', titles are in non-decreasing collation order |
| LibraryModel.FilteredRecentOrder | src/components/Library.jsx:163-168 | with 'recent', `last_read_at` or else `added_at` is non-increasing, latest first |
| LibraryModel.EmptySearchShowsAll | src/components/Library.jsx:153-171 | an empty term lists every source book, each as often as in the source |
| LibraryModel.TrimStart | src/components/Library.jsx:50 | leading white space removed and nothing else: a suffix of the input that does not start with white space, every dropped character being white space |
| LibraryModel.TrimEnd | src/components/Library.jsx:50 | trailing white space removed and nothing else: a prefix of the input that does not end with white space, every dropped character being white space |
| LibraryModel.TrimEmptyIffBlank | src/components/Library.jsx:50 | `trim()` is empty iff every character is white space |
| LibraryModel.IsSpace | src/components/Library.jsx:50 | the characters `String.prototype.trim` removes: tab, vertical tab, form feed, space, no-break space, byte order mark, the Unicode space separators (U+1680, U+2000 to U+200A, U+202F, U+205F, U+3000) and the line terminators LF, CR, U+2028 and U+2029 |
| LibraryModel.Trim | src/components/Library.jsx:50 | `trim()`: leading then trailing white space removed; LibraryModel.TrimEmptyIffBlank states when it is empty |
| LibraryModel.Blank | src/components/Library.jsx:50 | every character is white space; the guard `!name.trim()` holds exactly for these (LibraryModel.TrimEmptyIffBlank) |
| LibraryModel.TrimStartEmpty | src/components/Library.jsx:50 | trimming the start is empty iff the string is blank |
| LibraryModel.CountAdded | src/components/Library.jsx:230-262 | no more files are added than dropped |
| LibraryModel.RequestsFor | src/components/Library.jsx:230-262 | one request per dropped file, in order: a scan for a file with a path, an upload otherwise |
| LibraryModel.Added | src/components/Library.jsx:234-257 | a file with a path counts when its scan does not throw; one without counts only when its upload answers ok |
| LibraryModel.RequestFor | src/components/Library.jsx:234-254 | a file with a non-empty path is sent to the scan endpoint with its path, any other file is uploaded |
| LibraryModel.NoneAddedCountsZero | src/components/Library.jsx:230-262 | when every scan throws and every upload fails, the count is 0 |
| LibraryModel.DropLoop | src/components/Library.jsx:230-262 | the loop sends one request per file and counts the scans that did not throw and the uploads that answered ok |
| LibraryModel.LibraryScreen.constructor | src/components/Library.jsx:218 | the counter starts at 0, not dragging, no requests |
| LibraryModel.LibraryScreen.DragEnter | src/components/Library.jsx:271-278 | the counter always goes up by one, and dragging starts only when files are dragged |
| LibraryModel.LibraryScreen.DragLeave | src/components/Library.jsx:280-287 | the counter goes down by one, and dragging stops only when it reaches 0 |
| LibraryModel.LibraryScreen.Drop | src/components/Library.jsx:220-269 | the counter is 0 and dragging is off; the requests are the drop loop's, followed by a library refetch iff something was added |
| LibraryModel.LibraryScreen.CreateCollection | src/components/Library.jsx:49-62 | a blank name does nothing; otherwise the untrimmed name is posted, and unless the call throws the field is cleared and collections are refetched |
| LibraryModel.LibraryScreen.RenameItem | src/components/Library.jsx:89-110 | a blank title does nothing; otherwise the rename is sent for its kind, and unless the call throws the matching list is refetched and the modal closes |
| Database.MergedRow | backend/database.py:216-235 | an absent favorite or note keeps the stored value, or false and '' when there is no row; a given one is stored; the row is stamped now |
| Database.ActionsOf | backend/database.py:237-241 | the map keyed by page number holds exactly the rows of that comic |
| Database.SetThenGet | backend/database.py:216-241 | after a write the comic's map holds the merged row at that page and is otherwise unchanged |
| Database.SetKeepsOtherComics | backend/database.py:216-241 | a write to one comic's row leaves every other comic's map unchanged |
| Database.PartialUpdatesCommute | backend/database.py:216-235 | setting the favorite then the note, or the note then the favorite, leaves both |
| Database.AddedItem | backend/database.py:164-171 | the pair is a member afterwards; an existing pair keeps its first timestamp; a new one gets now |
| Database.AddIdempotent | backend/database.py:164-171 | adding the same pair twice is adding it once |
| Database.WithoutCollection | backend/database.py:184-190 | exactly the item rows of other collections remain, unchanged |
| Database.CascadeKeepsOthers | backend/database.py:184-190 | another collection's membership is unchanged and the deleted one has no items left |
| Database.ComicDatabase.constructor | backend/database.py:13-61 | all tables start empty and the unique constraints hold |
| Database.ComicDatabase.UpsertComic | backend/database.py:112-128 | a known path changes only that row's size; a new path inserts a row with the schema defaults under the next id; paths stay unique |
| Database.NewComic | backend/database.py:14-26 | the row an insert creates: the given path, title, format, size and time added, page count and current page 0, status 'unread', no last read time |
| Database.ComicDatabase.UpdateProgress | backend/database.py:130-138 | the comic with that id gets the page, status 'reading' and last read now; no other comic changes |
| Database.ComicDatabase.CreateCollection | backend/database.py:153-162 | succeeds iff the name is unused, inserting it under the next id; otherwise nothing changes; names stay unique |
| Database.ComicDatabase.AddToCollection | backend/database.py:164-171 | the item table becomes AddedItem of the old one |
| Database.ComicDatabase.DeleteCollection | backend/database.py:184-190 | the collection's items and then the collection are removed, nothing else |
| Database.ComicDatabase.SetPageAction | backend/database.py:216-235 | only the (comic, page) row changes, to the merged row |
| Database.ComicDatabase.GetPageActions | backend/database.py:237-241 | exactly the comic's rows, keyed by page |
| ArchiveReader.NonDigitPrefix | backend/reader.py:11 | the length of the leading text run, ending at a digit or the end |
| ArchiveReader.NonDigitPrefixHasNone | backend/reader.py:11 | the leading text run holds no digit |
| ArchiveReader.DigitPrefix | backend/reader.py:11 | the length of the leading digit run, nonzero when the string starts with a digit |
| ArchiveReader.DigitPrefixAllDigits | backend/reader.py:11 | the leading digit run is all digits |
| ArchiveReader.SplitAlternates | backend/reader.py:11 | `re.split` on digit runs gives an odd number of pieces, text at even positions and non-empty digit runs at odd positions |
| ArchiveReader.Split | backend/reader.py:11 | `re.split(r'(\d+)', text)`: ArchiveReader.SplitAlternates, ArchiveReader.SplitMaximal and ArchiveReader.SplitConcat state its shape |
| ArchiveReader.SplitMaximal | backend/reader.py:11 | every inner text piece is non-empty, so the digit runs are maximal |
| ArchiveReader.SplitConcat | backend/reader.py:11 | the pieces concatenate back to the input |
| ArchiveReader.NaturalKeysShape | backend/reader.py:10-11 | odd length, lowercased digit-free text at even positions, the integer value of a digit run at odd positions |
| ArchiveReader.NaturalKeys | backend/reader.py:10-11 | `natural_keys`: ArchiveReader.NaturalKeysShape states its shape and ArchiveReader.NaturalKeysIgnoreCase its case-insensitivity |
| ArchiveReader.SplitLower | backend/reader.py:11 | splitting the lowercased string gives the lowercased pieces |
| ArchiveReader.NaturalKeysIgnoreCase | backend/reader.py:11 | for ASCII input the keys of a string and of its lowercase are equal |
| ArchiveReader.StrTotal | backend/reader.py:11 | Python string comparison is total |
| ArchiveReader.KeyTotal | backend/reader.py:59-62 | any two names' keys compare one way or the other, so sorting by them is well-defined |
| ArchiveReader.KeyTotalFrom | backend/reader.py:59-62 | key lists of the same alternating shape are comparable |
| ArchiveReader.StrLtTrans | backend/reader.py:11 | string comparison is transitive |
| ArchiveReader.StrLtAsym | backend/reader.py:11 | string comparison is asymmetric |
| ArchiveReader.KeyLeTrans | backend/reader.py:59-62 | key-list comparison is transitive |
| ArchiveReader.KeyLe | backend/reader.py:59-62 | Python's list comparison on keys: element by element, a proper prefix first; ArchiveReader.KeyTotal and ArchiveReader.KeyLeTrans state that it orders names |
| ArchiveReader.KeysOfP2 | backend/reader.py:10-11 | the keys of "p2" are ['p', 2, ''] |
| ArchiveReader.KeysOfP10 | backend/reader.py:10-11 | the keys of "p10" are ['p', 10, ''] |
| ArchiveReader.NumericRunsOrder | backend/reader.py:10-11 | "p2" sorts before "p10" by keys, although it sorts after it as a plain string |
| ArchiveReader.ImageNames | backend/reader.py:57-69 | exactly the members whose lowercased name ends in .jpg, .jpeg, .png or .webp, each as often as listed |
| ArchiveReader.IsImageName | backend/reader.py:60 | the lowercased name ends in .jpg, .jpeg, .png or .webp |
| ArchiveReader.Insert | backend/reader.py:59-62 | inserting into a key-sorted list keeps it sorted and adds exactly that name |
| ArchiveReader.SortByKeys | backend/reader.py:59-62 | the result is sorted by natural keys and a permutation of the input |
| ArchiveReader.DetermineType | backend/reader.py:76-80 | .pdf gives pdf, .cbz and .zip give cbz, .cbr and .rar give cbr, anything else unknown |
| ArchiveReader.RFind | backend/reader.py:48 | the last position of the character, or -1 |
| ArchiveReader.SplitExt | backend/reader.py:48 | `os.path.splitext` on POSIX: the extension is empty or a dot-initial suffix of the path with no further dot or slash; it is empty exactly when the last path component has no dot, or only dots before its last dot |
| ArchiveReader.ExtensionOfArchive | backend/reader.py:48 | the last dot gives the extension, in any case: "a/v.1.CBZ" is a cbz |
| ArchiveReader.ExtensionOfDotFile | backend/reader.py:48 | a dot file has no extension: "a/.cbz" is unknown |
| ArchiveReader.LeadingDotsNoExtension | backend/reader.py:48 | a name made of leading dots followed by dot-free text, in any directory, has no extension |
| ArchiveReader.ComicReader.constructor | backend/reader.py:46-74 | the type comes from the lowercased extension; an archive that opens gets its sorted image names, anything else no page names; only a PDF holds a document (the class invariant) |
| ArchiveReader.ComicReader.PageCount | backend/reader.py:82-85 | a PDF with pages counts its pages, a PDF that did not open and an unknown type count 0; otherwise the number of page names |
| ArchiveReader.ComicReader.PageData | backend/reader.py:87-113 | data only for an index in [0, count) whose read succeeds, and never for an unknown type; an archive page is the name at that index; in range, a readable archive page or PDF page is always returned |
| ArchiveReader.PageNamesAreImages | backend/reader.py:57-70 | the page names are exactly the listed image members, each as often as listed |

## Left out

- Network requests: every `fetch` is an outbox or request entry without an acknowledgement; the answers of the metadata and actions loads are parameters of `LoadMeta` and `LoadActions`.
- Timer delays (50 ms and 600 ms) and the intersection observer's threshold and root margin: the timers are explicit events and a batch is given as its entries.
- Browser storage, the document's class list and `matchMedia`: stored strings and the media-query value are parameters; persistence effects are not modelled.
- CSS strings, transitions and number formatting: the filter chain and the kernel are structured values, not text.
- Floating point: the kernel fraction, the blur radius and the pointer and bounding-box coordinates (ReaderLogic.Point, ReaderLogic.Rect, DragOffset, PanAt, LoupeAt, OverlayOf) are exact `real`s; double rounding is not modelled.
- JsValues.NumberOf: a string slider value is read as 0, where JavaScript would convert a numeric string to its number.
- SettingsModel.LoadImageSettings: a saved JSON string parses to a scalar that adds no keys, whereas spreading a string adds one key per character.
- LibraryModel.SortBy: `localeCompare` is abstracted as a collation rank per title, and the stability of ties is not proved.
- LibraryModel.FilterBooks: lower-casing is ASCII only.
- ArchiveReader.NaturalKeys: ASCII digits and ASCII lower-casing only; Unicode case folding and non-ASCII digits are not modelled.
- ArchiveReader.SplitExt: the POSIX rule of `os.path.splitext`; Windows path separators are not modelled.
- ArchiveReader.Insert: the names are ordered by key, but that Python's sort keeps equal-key names in their original order is not proved.
- The sidebar and thumbnail rendering, src/components/ReaderSidebar.jsx and src/components/Settings.jsx: rendering only.
- The library's loading flag and upload form data: display state and I/O.
- backend/main.py, main.js and backend/scanner.py: routing, process management and file-system probing.
- Markers, `rename_comic`, `delete_comic`, `rename_collection`, `get_collections_with_counts` and `get_collection_items`: outside the modelled core.
- Database.ComicDatabase.UpsertComic: the returned row id is not modelled, and on a known path the model promises only that the id counter does not go back, since whether SQLite's AUTOINCREMENT counter advances on an update-on-conflict is left open; ids are therefore modelled up to gaps.
- Database foreign keys: they are not enforced by the schema as used, so the model does not check them either.
- PDF, ZIP and RAR decoding: whether an archive opens, its member listing, a PDF's page count and whether a page read succeeds are parameters; `close` releases a file handle and is not modelled.

## Findings

| source | as written | input that shows it | evidently intended | confidence | as-written member | corrected member |
|---|---|---|---|---|---|---|
| src/components/Reader.jsx:394 | the background position is the text `-${v}px` with `v = rel*2 - 100`, which for `v < 0` reads `--20px`, not a CSS length, so the declaration is dropped | a cursor 10 px inside the image's top-left corner: relX = relY = 10, v = -80 | the offset `-(rel*2 - 100)`, here +80 px, so the point under the cursor is at the loupe centre | not executed | ReaderLogic.BackgroundOffsetAsWritten, ReaderLogic.BackgroundOffsetNearEdge | ReaderLogic.OverlayOf, ReaderLogic.LoupeCentresCursor |
