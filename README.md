# guideline-scraper, modelled in Dafny

guideline-scraper downloads clinical guideline PDFs from two Dutch sites with a
headless browser. `BaseScraper.run` opens a browser, a context and a page. It creates
the download directory, opens the site's base URL and hands over to the site's
`scrape`. Its `finally` closes the browser. Each `scrape` clears the listing page
(cookie banner, readiness wait) and collects the matching hrefs. It turns them into
`sorted(list(set(hrefs)))` and walks that list. Each item URL gets a file name:
the last `/` piece for richtlijnendatabase.nl, the second-to-last for
kennisplatform.venvn.nl. An item whose file already exists is skipped. Otherwise the
scraper navigates, checks for exactly one action control and runs the site's
download sequence.

The model has seven modules:

- `Wrappers`: `Option`.
- `Strings`: Python's `str` order, `split`, `join` and `endswith`.
- `Discovery`: the dedup-and-sort step.
- `Paths`: `download_dir` and the save paths.
- `Web`: the browser as an oracle. It holds scripted answers per run and per item URL,
  the calls a scraper makes (`Event`) and the exceptions that can escape (`Error`).
- `Flow`: total functions for one item, the loop, `scrape` and `run`, with the lemmas
  about them.
- `Scrapers`: the imperative model.
  - `World` holds the existing paths and the call trace; its methods update them in place.
  - `Scraper` has the `browser`, `context` and `page` fields that `run` assigns.
  - Each method of `Scraper` is proved to produce exactly what its `Flow` function says.

A call is recorded when it is attempted, so a call that raises is the last entry of
the trace.

The loop has no exception handler around an item. An ambiguous page, a navigation
timeout, a failed download or a URL without a second-to-last piece (VVN) therefore
ends the whole `scrape`, and `run` re-raises it after closing the browser
(`Flow.FailureStopsLoop`, `Flow.AmbiguousItemAbortsLoop`). If `browser.close()` itself
raises, its exception escapes `run` in place of the one being re-raised, or of a normal
finish.

## Model

| member | source | states |
|---|---|---|
| Strings.LessIrreflexive | scrapers.py:133 | no string is below itself in the order `sorted` uses |
| Strings.LessTransitive | scrapers.py:133 | that order is transitive |
| Strings.LessTotal | scrapers.py:133 | any two distinct strings are ordered one way or the other |
| Strings.LessAsymmetric | scrapers.py:133 | `a < b` excludes `b < a` |
| Strings.LessCommonPrefix | scrapers.py:133 | a common prefix does not change the order of two strings |
| Strings.Split | scrapers.py:140 | `str.split` with one separator gives at least one piece, and no piece holds the separator |
| Strings.JoinSplit | scrapers.py:140 | joining the pieces of a split with the separator gives back the string |
| Strings.SplitJoin | scrapers.py:239 | splitting a join of separator-free pieces gives back the pieces |
| Strings.SplitAfterPiece | scrapers.py:239 | a separator-free piece followed by the separator is the first piece of the split |
| Strings.SplitConcat | scrapers.py:239 | splitting at one separator splits both sides independently |
| Strings.SplitNoSeparator | scrapers.py:239 | a string without the separator splits into itself alone |
| Strings.SplitSingle | scrapers.py:239 | the split has one piece exactly when the separator is absent, i.e. `[-2]` raises exactly then |
| Strings.JoinLast | scrapers.py:140 | a join of two or more pieces ends with the separator and the last piece |
| Discovery.Insert | scrapers.py:133 | adding a string to a strictly ascending list keeps it strictly ascending and adds exactly that element |
| Discovery.UniqueSorted | scrapers.py:133 | `sorted(list(set(hrefs)))` is strictly ascending and has exactly the elements of `hrefs` |
| Discovery.AscendingHasNoDuplicates | scrapers.py:133 | a strictly ascending list has no duplicates |
| Discovery.HeadIsLeast | scrapers.py:133 | the head of a strictly ascending list is below every other element |
| Discovery.AscendingUnique | scrapers.py:133 | two strictly ascending lists with the same elements are equal |
| Discovery.UniqueSortedDeterministic | scrapers.py:232 | hrefs collected in another order or with other repetitions give the same URL list |
| Discovery.UniqueSortedExactlyOnce | scrapers.py:232 | a URL is in the list iff it was among the hrefs, and no URL occurs twice |
| Discovery.DuplicatedListingScenario | scrapers.py:133 | `["/richtlijn/b", "/richtlijn/a", "/richtlijn/a"]` becomes `["/richtlijn/a", "/richtlijn/b"]` |
| Paths.DownloadDirRule | scrapers.py:71-80 | a directory given to the constructor is used as is; otherwise it is `ROOT_DIR/downloads/<name>`, distinct for distinct names |
| Paths.SavePathInjective | scrapers.py:141 | `dir / f"{name}.pdf"` lies directly in `dir`, and two save paths coincide iff the names do |
| Paths.LastSegmentSuffix | scrapers.py:140 | `url.split("/")[-1]` is the longest `/`-free suffix of the URL, preceded by `/` unless it is the whole URL |
| Paths.SecondToLastSegment | scrapers.py:239 | `url.split("/")[-2]` raises (`None`) iff the URL has no `/`, and otherwise holds no `/` |
| Paths.SegmentsOfJoin | scrapers.py:239 | in `head/slug` with a `/`-free `slug`, `[-1]` is `slug` and `[-2]` is the last segment of `head` |
| Paths.TrailingSlashSegments | scrapers.py:239 | a URL ending in `/` has an empty last segment, and its second-to-last is the last segment without that `/` |
| Flow.RichtlijnVisit | scrapers.py:148-192 | a Richtlijnen visit navigates first and only to its URL; it downloads only that URL and saves only to its path (last call before the pause); only a completed download adds a path, that one |
| Flow.VvnVisit | scrapers.py:247-281 | the same shape for a VVN visit; both the completed download and the non-PDF skip end with the pause |
| Flow.Visit | scrapers.py:247-281 | either site's visit keeps that shape and its file bookkeeping |
| Flow.ItemStep | scrapers.py:138-146 | an item adds a path only by a download, only its own save path, and only when that path did not exist; otherwise the paths are unchanged |
| Flow.ExistingFileSkipped | scrapers.py:143-146 | an item whose save path exists makes no call, and the loop continues with the next URL |
| Flow.ZeroMatchesSkipped | scrapers.py:156-158 | with no action control, the item is skipped after the navigation alone |
| Flow.SeveralMatchesRaise | scrapers.py:159-160 | with several action controls, the item raises right after the navigation |
| Flow.VvnMissingSlugRaises | scrapers.py:239 | a VVN URL without `/` raises `IndexError` before any call |
| Flow.RichtlijnDownloadsWhen | scrapers.py:143-188 | a Richtlijnen item is saved iff its path is new, it has one control, and none of its calls raises |
| Flow.RichtlijnVisitDownloadsWhen | scrapers.py:149-188 | the same iff for the visit itself |
| Flow.VvnDownloadsWhen | scrapers.py:239-273 | a VVN item is saved iff it has a slug, a new path, one control, a PDF href, and no failing call |
| Flow.VvnVisitDownloadsWhen | scrapers.py:247-273 | the same iff for the visit itself |
| Flow.VvnNonPdfWritesNothing | scrapers.py:262-276 | an href that is absent, empty or not `.pdf` means no download, no save and no new path |
| Flow.VvnVisitNonPdf | scrapers.py:263-276 | the same for the visit itself |
| Flow.SaveTargetsAppend | scrapers.py:188 | the saved paths of two call sequences together are the union of each |
| Flow.WritesOnceCompose | scrapers.py:138 | writing each path at most once, and never an existing one, survives sequencing a completed piece of work |
| Flow.StepSavesFresh | scrapers.py:143-188 | one item saves at most once, to a path that did not exist |
| Flow.VisitSavesFresh | scrapers.py:181-188 | a visit of a new path saves at most once, to that path |
| Flow.KeepsWritesOnce | scrapers.py:188 | a visit keeping its shape writes only its fresh path, once |
| Flow.LoopWritesOnce | scrapers.py:138 | a loop of such items writes no path twice and no existing path; afterwards the paths are the earlier ones plus the saved ones |
| Flow.ItemsWriteOnce | scrapers.py:237-273 | both scrapers' loops write no path twice and never overwrite an existing file |
| Flow.LoopSplit | scrapers.py:138 | the loop over a list is the loop over a prefix, then the loop over the rest from where the prefix left off |
| Flow.FailureStopsLoop | scrapers.py:159-160 | once an item has raised, no later URL is looked at |
| Flow.AmbiguousItemAbortsLoop | scrapers.py:255-259 | an item with several controls ends the loop, its navigation being the last call and its exception the loop's |
| Flow.SavedPathSkipsCollision | scrapers.py:243-245 | a later URL whose save path an earlier item saved makes no call and is skipped |
| Flow.VisitsAppend | scrapers.py:138 | the navigations of two call sequences together are those of each, in order |
| Flow.VisitsNone | scrapers.py:221-229 | calls without a navigation navigate nowhere |
| Flow.StepVisits | scrapers.py:149 | one item navigates at most once, and only to its own URL |
| Flow.LoopVisitsInOrder | scrapers.py:138 | on a strictly ascending list, the loop's navigations are strictly ascending and among the list |
| Flow.ScrapeVisitsDiscoveredInOrder | scrapers.py:232-247 | `scrape` navigates only to discovered hrefs, each at most once, in ascending order |
| Flow.StepNeverCloses | scrapers.py:138-192 | one item of either site never closes the browser |
| Flow.LoopNeverCloses | scrapers.py:194-195 | a loop whose items close nothing closes nothing |
| Flow.ScrapeNeverCloses | scrapers.py:283-284 | `scrape` never closes the browser |
| Flow.RunClosesLaunchedBrowserOnce | scrapers.py:51-54 | after a successful launch, `run` closes the launched browser exactly once, as its last call, whatever raises |
| Flow.RunWithoutBrowserNeverCloses | scrapers.py:35-54 | a failed launch on a scraper that never had a browser closes nothing and re-raises |
| Flow.ScrapeKeepsFiles | scrapers.py:46 | `scrape` only adds paths |
| Flow.RunSetsUpBeforeScrape | scrapers.py:35-55 | with the session open, launch, context, page, mkdir and base navigation come first, in that order, then `scrape`'s calls, then close; the directory exists; the fields hold the new handles; `run` re-raises exactly what `scrape` raised, and a raising `close` replaces that exception or the normal finish |
| Flow.RunSetupFailureSkipsScrape | scrapers.py:35-54 | a failing setup call means `scrape` never runs; the calls are a prefix of the setup; `run` re-raises that failure unless closing a held browser raises instead |
| Flow.RunAfterFailedLaunchClosesPrevious | scrapers.py:35-54 | after a failed launch, the `browser` field of an earlier run is still set, and `finally` closes that browser |
| Scrapers.World.constructor | scrapers.py:16-25 | the world starts with the given paths and an empty call trace |
| Scrapers.World.Call | scrapers.py:149 | a browser call is appended to the trace and changes no file |
| Scrapers.World.MakeDir | scrapers.py:40 | `mkdir(exist_ok=True)` succeeds iff the directory or its parent exists, and then adds the directory |
| Scrapers.World.SaveAs | scrapers.py:188 | `save_as` is recorded and adds its path unless it raises |
| Scrapers.Scraper.constructor | scrapers.py:16-25 | name, site and directory override are stored, and `browser`, `context` and `page` start unset |
| Scrapers.Scraper.Run | scrapers.py:27-55 | calls, files, handle fields and outcome (a raising `close` in `finally` included) are exactly `Flow.RunSpec` of the state before |
| Scrapers.Scraper.Try | scrapers.py:32-50 | the `try` block does exactly what `Flow.TrySpec` says |
| Scrapers.Scraper.Scrape | scrapers.py:46 | dispatching to the site's `scrape` does exactly what `Flow.ScrapeSpec` says |
| Scrapers.Scraper.ScrapeRichtlijnen | scrapers.py:98-195 | the Richtlijnen `scrape` (cookie click, network-idle wait, dedup-sort, loop) equals `Flow.ScrapeSpec` for that site |
| Scrapers.Scraper.ScrapeVvn | scrapers.py:214-284 | the VVN `scrape` (last-link wait, dedup-sort, loop) equals `Flow.ScrapeSpec` for that site |
| Scrapers.Scraper.Download | scrapers.py:138-192 | the `for` loop over the URLs equals `Flow.Loop`, stopping at the first exception |
| Scrapers.Scraper.Item | scrapers.py:138-146 | one item of either site equals `Flow.ItemStep` |
| Scrapers.Scraper.RichtlijnItem | scrapers.py:140-146 | slug, save path, exists check, then the visit, as `Flow.ItemStep` for Richtlijnen |
| Scrapers.Scraper.RichtlijnFetch | scrapers.py:149-192 | the Richtlijnen visit equals `Flow.RichtlijnVisit` |
| Scrapers.Scraper.VvnItem | scrapers.py:239-245 | the second-to-last slug (or `IndexError`), exists check, then the visit, as `Flow.ItemStep` for VVN |
| Scrapers.Scraper.VvnFetch | scrapers.py:247-281 | the VVN visit equals `Flow.VvnVisit` |

## Left out

- Playwright itself: locators, role and text matching, rendering and the network. Every answer the scraper reads comes from the `Session` and `Pages` oracles.
- The `a[href^=LINK_PREFIX]` filter and `evaluate_all`: the listing oracle gives the hrefs already filtered and resolved; `evaluate_all` has no failure in the model.
- The cookie banner click: its failure is swallowed by the source, so the model records the click and has no failure for it.
- `download_locator.count()` is called twice in the source. The model answers both with one count per item page.
- The base URL literals and their `Path(base_URL)` normalisation: `GotoBase(site)` stands for the navigation to the site's listing page.
- `time.sleep(random.randint(25, 50) / 100)` is a `Delay` event; its duration and randomness are not modelled.
- `print` output and the wrapping `raise Exception(e)`: `run` re-raises the same `Error` value.
- main.py, the composition root running the scrapers in turn, is not part of this model.
- The value of `ROOT_DIR` is a parameter (`root`); definitions.py is not part of this model.
- Scrapers.World.MakeDir: does not model `FileExistsError` for a path that is an existing file. Files and directories share one set of existing paths.
- Scrapers.World.SaveAs: a failing `save_as` leaves no partial file.
- The scraper's `name` is taken as a single path component.
- Scrapers.World: the browser's answers (`session`, `pages`) are fixed per world, so repeated `Run` calls on one scraper and world see the same launch answer; a failed launch after an earlier successful run (`Flow.RunAfterFailedLaunchClosesPrevious`) is stated on `Flow.RunSpec` with arbitrary earlier handles, not reached through the class.
- The abstract `BaseScraper` and its subclasses become a `Site` tag that the shared methods dispatch on.
