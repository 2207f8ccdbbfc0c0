/**
 The scraping logic as functions of the browser's answers and of the files that exist:
 one item of each scraper's loop, the loop over the discovered URLs (which stops at the
 first exception, there being no handler around an item), `scrape` with its listing
 phase, and the body of `run` with its `finally`. The methods of module Scrapers are
 proved to do what these functions say; the lemmas below state what the functions promise.
 */
module Flow {
  import opened Wrappers
  import opened Strings
  import opened Discovery
  import opened Paths
  import opened Web

  /** Why an item was passed over without raising. */
  datatype Skip = AlreadySaved | NoControl | NotPdf

  /** How one item ended: passed over, saved to a path, or raising out of the loop. */
  datatype Outcome = Skipped(why: Skip) | Downloaded(path: Path) | Raised(error: Error)

  /** One item: the calls made, the existing paths afterwards, and how it ended. */
  datatype Step = Step(events: seq<Event>, files: set<Path>, outcome: Outcome)

  /** A run of the loop or of `scrape`: calls made, existing paths, and the exception raised. */
  datatype Batch = Batch(events: seq<Event>, files: set<Path>, failure: Option<Error>)

  /** The file-name stem each scraper takes from an item URL; `None` is an `IndexError`. */
  function Slug(site: Site, url: string): Option<string>
  {
    match site
    case Richtlijnen => Some(LastSegment(url))
    case Vvn => SecondToLastSegment(url)
  }

  /** `href and href.endswith(".pdf")`. */
  predicate IsPdfLink(href: Option<string>)
  {
    href != None && |href.value| > 0 && EndsWith(href.value, PdfSuffix)
  }

  function Raise(events: seq<Event>, files: set<Path>, url: string, stage: Stage): Step
  {
    Step(events, files, Raised(ItemFailed(url, stage)))
  }

  /**
   The shape of the calls of one visit: a navigation only first and only to the item's
   URL, downloads only of the item's URL, `save_as` only to the item's path and only as
   the last call or the last before the pause, and no `close`.
   */
  predicate VisitShape(ev: seq<Event>, url: string, path: Path)
  {
    && (forall i :: 0 <= i < |ev| ==>
          && (ev[i].Goto? ==> i == 0 && ev[i].url == url)
          && (ev[i].ExpectDownload? ==> ev[i].url == url)
          && !ev[i].Close?)
    && (forall i :: 0 <= i < |ev| && ev[i].SaveAs? ==>
          ev[i].path == path && (i == |ev| - 1 || (i == |ev| - 2 && ev[|ev| - 1] == Delay)))
  }

  /**
   What every visit of a URL whose save path `path` does not exist keeps to. Only a download
   adds a path, and only `path`; a download has called `save_as(path)`, a skip has called
   no `save_as`.
   */
  predicate VisitKeeps(step: Step, url: string, path: Path, files: set<Path>)
  {
    && VisitShape(step.events, url, path)
    && (step.outcome.Downloaded? ==>
          step.outcome.path == path && step.files == files + {path}
          && |step.events| >= 2 && step.events[|step.events| - 2] == SaveAs(path))
    && (!step.outcome.Downloaded? ==> step.files == files)
    && (step.outcome.Skipped? ==> forall i :: 0 <= i < |step.events| ==> !step.events[i].SaveAs?)
  }

  /**
   The Richtlijnen calls for a URL whose save path does not exist: navigate, check the
   "Download richtlijn" link, click it, wait for the popup and the "GENEREER" button,
   download, save, pause.
   */
  function RichtlijnVisit(url: string, path: Path, files: set<Path>, it: Item): (step: Step)
    ensures VisitKeeps(step, url, path, files)
  {
    var go := Goto(url, NavigateTimeout);
    var click := ClickControl(url);
    var popup := WaitVisible(PopupText, VisibleTimeout);
    var generate := WaitVisible(GenerateButton, VisibleTimeout);
    var download := ExpectDownload(url, DownloadTimeout);
    var save := SaveAs(path);
    if it.fault == Some(AtGoto) then Raise([go], files, url, AtGoto)
    else if it.matches == 0 then Step([go], files, Skipped(NoControl))
    else if it.matches > 1 then Step([go], files, Raised(Ambiguous(url)))
    else if it.fault == Some(AtClick) then Raise([go, click], files, url, AtClick)
    else if it.fault == Some(AtPopup) then Raise([go, click, popup], files, url, AtPopup)
    else if it.fault == Some(AtGenerate) then Raise([go, click, popup, generate], files, url, AtGenerate)
    else if it.fault == Some(AtDownload) then
      Raise([go, click, popup, generate, download], files, url, AtDownload)
    else if it.fault == Some(AtSave) then
      Raise([go, click, popup, generate, download, save], files, url, AtSave)
    else Step([go, click, popup, generate, download, save, Delay], files + {path}, Downloaded(path))
  }

  /**
   The VVN calls for a URL whose save path does not exist: navigate, check the
   "Naar de richtlijn"/"Naar de handreiking" link, read its href, and only for a PDF link
   download and save; pause in both cases.
   */
  function VvnVisit(url: string, path: Path, files: set<Path>, it: Item): (step: Step)
    ensures VisitKeeps(step, url, path, files)
    ensures step.outcome == Skipped(NotPdf) || step.outcome.Downloaded? ==>
      |step.events| > 0 && step.events[|step.events| - 1] == Delay
  {
    var go := Goto(url, NavigateTimeout);
    var read := ReadHref(url);
    var download := ExpectDownload(url, DownloadTimeout);
    var save := SaveAs(path);
    if it.fault == Some(AtGoto) then Raise([go], files, url, AtGoto)
    else if it.matches == 0 then Step([go], files, Skipped(NoControl))
    else if it.matches > 1 then Step([go], files, Raised(Ambiguous(url)))
    else if it.fault == Some(AtReadHref) then Raise([go, read], files, url, AtReadHref)
    else if !IsPdfLink(it.href) then Step([go, read, Delay], files, Skipped(NotPdf))
    else if it.fault == Some(AtDownload) then Raise([go, read, download], files, url, AtDownload)
    else if it.fault == Some(AtSave) then Raise([go, read, download, save], files, url, AtSave)
    else Step([go, read, download, save, Delay], files + {path}, Downloaded(path))
  }

  /** The calls of the scraper `site` for a URL whose save path `path` does not exist. */
  function Visit(site: Site, url: string, path: Path, files: set<Path>, it: Item): (step: Step)
    ensures VisitKeeps(step, url, path, files)
  {
    match site
    case Richtlijnen => RichtlijnVisit(url, path, files, it)
    case Vvn => VvnVisit(url, path, files, it)
  }

  /**
   The body of either scraper's loop for one URL: take the slug, skip when the save path
   exists, otherwise visit. A path is added only by a download, only to the item's own
   save path, and only when that path did not exist.
   */
  function ItemStep(site: Site, dir: Path, url: string, files: set<Path>, it: Item): (step: Step)
    ensures step.outcome.Downloaded? ==>
      Slug(site, url) != None && step.outcome.path == SavePath(dir, Slug(site, url).value)
      && step.outcome.path !in files && step.files == files + {step.outcome.path}
    ensures !step.outcome.Downloaded? ==> step.files == files
  {
    match Slug(site, url)
    case None => Step([], files, Raised(SlugMissing(url)))
    case Some(slug) =>
      var path := SavePath(dir, slug);
      if path in files then Step([], files, Skipped(AlreadySaved))
      else Visit(site, url, path, files, it)
  }

  /** What one item does, given its URL and the paths that exist when it is reached. */
  type Body = (string, set<Path>) -> Step

  /** The `for` loop over `unique_urls`: items in order, stopping at the first exception. */
  function Loop(urls: seq<string>, files: set<Path>, body: Body): Batch
    decreases |urls|
  {
    if urls == [] then Batch([], files, None)
    else
      var step := body(urls[0], files);
      if step.outcome.Raised? then Batch(step.events, step.files, Some(step.outcome.error))
      else
        var rest := Loop(urls[1..], step.files, body);
        Batch(step.events + rest.events, rest.files, rest.failure)
  }

  /** The loop body of the scraper `site`, whose item pages answer as `item` says. */
  function ItemBody(site: Site, dir: Path, item: string -> Item): Body
  {
    (url: string, fs: set<Path>) => ItemStep(site, dir, url, fs, item(url))
  }

  /** The listing-page calls before the hrefs are read: cookie banner and readiness wait. */
  function ListingEvents(site: Site): seq<Event>
  {
    match site
    case Richtlijnen => [ClickCookie(CookieTimeout), WaitNetworkIdle(NetworkIdleTimeout)]
    case Vvn => [WaitLastLink(LastLinkTimeout)]
  }

  /** `scrape()` of either scraper, the page being on the base URL already. */
  function ScrapeSpec(site: Site, dir: Path, files: set<Path>, pages: Pages): Batch
  {
    var e := ListingEvents(site);
    if pages.listing.readyTimesOut then Batch(e, files, Some(ListingNotReady))
    else
      var b := Loop(UniqueSorted(pages.listing.hrefs), files, ItemBody(site, dir, pages.item));
      Batch(e + b.events, b.files, b.failure)
  }

  /** The `browser`, `context` and `page` fields of a scraper. */
  datatype Handles = Handles(browser: Option<Browser>, context: Option<Context>, page: Option<Page>)

  /** The `try` block of `run`: calls made, existing paths, fields, and the exception raised. */
  datatype Attempt = Attempt(events: seq<Event>, files: set<Path>, handles: Handles, failure: Option<Error>)

  /** `dir.mkdir(exist_ok=True)` succeeds when `dir` exists or its parent does. */
  predicate MkdirOk(files: set<Path>, dir: Path)
  {
    dir in files || (|dir| > 0 && dir[..|dir| - 1] in files)
  }

  /** The calls `run` makes before `scrape` when none of them raises. */
  function SetupEvents(site: Site, dir: Path): seq<Event>
  {
    [Launch(true), NewContext(true), NewPage, MakeDir(dir), GotoBase(site)]
  }

  /** The `try` block of `BaseScraper.run`. */
  function TrySpec(site: Site, dir: Path, prior: Handles, s: Session, pages: Pages, files: set<Path>): Attempt
  {
    var b := Browser(s.browserId);
    var h1 := prior.(browser := Some(b));
    var h2 := h1.(context := Some(Context(b)));
    var h3 := h2.(page := Some(Page(Context(b))));
    var setup := SetupEvents(site, dir);
    if s.launchFails then Attempt(setup[..1], files, prior, Some(SetupFailed(AtLaunch)))
    else if s.contextFails then Attempt(setup[..2], files, h1, Some(SetupFailed(AtNewContext)))
    else if s.pageFails then Attempt(setup[..3], files, h2, Some(SetupFailed(AtNewPage)))
    else if !MkdirOk(files, dir) then Attempt(setup[..4], files, h3, Some(SetupFailed(AtMkdir)))
    else if s.baseGotoFails then Attempt(setup, files + {dir}, h3, Some(SetupFailed(AtBaseGoto)))
    else
      var r := ScrapeSpec(site, dir, files + {dir}, pages);
      Attempt(setup + r.events, r.files, h3, r.failure)
  }

  /**
   How `run` ends: normally, re-raising the exception of its `try` block, or with the
   exception of `browser.close()` in `finally`, which replaces either of the others.
   */
  datatype RunOutcome = Finished | Reraised(cause: Error) | CloseRaised

  datatype RunResult = RunResult(events: seq<Event>, files: set<Path>, handles: Handles, outcome: RunOutcome)

  /** `BaseScraper.run`: the `try` block, then `finally` closing the browser if there is one. */
  function RunSpec(site: Site, dir: Path, prior: Handles, s: Session, pages: Pages, files: set<Path>): RunResult
  {
    var a := TrySpec(site, dir, prior, s, pages, files);
    var close := if a.handles.browser != None then [Close(a.handles.browser.value)] else [];
    RunResult(a.events + close, a.files, a.handles,
              if close != [] && s.closeFails then CloseRaised
              else if a.failure != None then Reraised(a.failure.value) else Finished)
  }

  // ---------------------------------------------------------------------------
  // What an item does

  /** An item whose save path exists makes no call at all, and the loop goes on with the next. */
  lemma ExistingFileSkipped(site: Site, dir: Path, urls: seq<string>, files: set<Path>, item: string -> Item)
    requires |urls| > 0 && Slug(site, urls[0]) != None
    requires SavePath(dir, Slug(site, urls[0]).value) in files
    ensures ItemStep(site, dir, urls[0], files, item(urls[0])) == Step([], files, Skipped(AlreadySaved))
    ensures Loop(urls, files, ItemBody(site, dir, item)) == Loop(urls[1..], files, ItemBody(site, dir, item))
  {
    var body := ItemBody(site, dir, item);
    var step := body(urls[0], files);
    assert step == Step([], files, Skipped(AlreadySaved));
    var rest := Loop(urls[1..], files, body);
    assert Loop(urls, files, body) == Batch(step.events + rest.events, rest.files, rest.failure);
    assert step.events + rest.events == rest.events;
  }

  /** With no action control the item is passed over after the navigation alone. */
  lemma ZeroMatchesSkipped(site: Site, dir: Path, url: string, files: set<Path>, it: Item)
    requires Slug(site, url) != None && SavePath(dir, Slug(site, url).value) !in files
    requires it.fault != Some(AtGoto) && it.matches == 0
    ensures ItemStep(site, dir, url, files, it)
         == Step([Goto(url, NavigateTimeout)], files, Skipped(NoControl))
  {
  }

  /** With more than one action control the item raises after the navigation. */
  lemma SeveralMatchesRaise(site: Site, dir: Path, url: string, files: set<Path>, it: Item)
    requires Slug(site, url) != None && SavePath(dir, Slug(site, url).value) !in files
    requires it.fault != Some(AtGoto) && it.matches > 1
    ensures ItemStep(site, dir, url, files, it)
         == Step([Goto(url, NavigateTimeout)], files, Raised(Ambiguous(url)))
  {
  }

  /** The VVN item whose URL has no `"/"` raises before anything is called. */
  lemma VvnMissingSlugRaises(dir: Path, url: string, files: set<Path>, it: Item)
    requires '/' !in url
    ensures ItemStep(Vvn, dir, url, files, it) == Step([], files, Raised(SlugMissing(url)))
  {
  }

  /**
   A Richtlijnen item is saved exactly when it is new, has one action control and none of
   the calls it makes raises (reading an href is not one of them).
   */
  lemma RichtlijnDownloadsWhen(dir: Path, url: string, files: set<Path>, it: Item)
    ensures ItemStep(Richtlijnen, dir, url, files, it).outcome.Downloaded?
        <==> SavePath(dir, LastSegment(url)) !in files && it.matches == 1 && RichtlijnCallsSucceed(it.fault)
  {
    if SavePath(dir, LastSegment(url)) !in files {
      RichtlijnVisitDownloadsWhen(url, SavePath(dir, LastSegment(url)), files, it);
    }
  }

  /** None of the calls a Richtlijnen item makes raises. */
  predicate RichtlijnCallsSucceed(fault: Option<Stage>)
  {
    fault == None || fault == Some(AtReadHref)
  }

  lemma RichtlijnVisitDownloadsWhen(url: string, path: Path, files: set<Path>, it: Item)
    ensures RichtlijnVisit(url, path, files, it).outcome.Downloaded?
        <==> it.matches == 1 && RichtlijnCallsSucceed(it.fault)
  {
    if it.fault != None {
      match it.fault.value
      case AtReadHref =>
      case _ =>
    }
  }

  /**
   A VVN item is saved exactly when it is new, has one action control whose href is a PDF
   link and none of the calls it makes raises (clicking the control before the popup,
   waiting for the popup or for the "GENEREER" button are not among them).
   */
  lemma VvnDownloadsWhen(dir: Path, url: string, files: set<Path>, it: Item)
    ensures ItemStep(Vvn, dir, url, files, it).outcome.Downloaded?
        <==> SecondToLastSegment(url) != None
             && SavePath(dir, SecondToLastSegment(url).value) !in files
             && it.matches == 1 && IsPdfLink(it.href) && VvnCallsSucceed(it.fault)
  {
    match SecondToLastSegment(url)
    case None =>
    case Some(slug) =>
      if SavePath(dir, slug) !in files {
        VvnVisitDownloadsWhen(url, SavePath(dir, slug), files, it);
      }
  }

  /** None of the calls a VVN item makes raises. */
  predicate VvnCallsSucceed(fault: Option<Stage>)
  {
    fault == None || fault == Some(AtClick) || fault == Some(AtPopup) || fault == Some(AtGenerate)
  }

  lemma VvnVisitDownloadsWhen(url: string, path: Path, files: set<Path>, it: Item)
    ensures VvnVisit(url, path, files, it).outcome.Downloaded?
        <==> it.matches == 1 && IsPdfLink(it.href) && VvnCallsSucceed(it.fault)
  {
    if it.fault != None {
      match it.fault.value
      case AtClick =>
      case AtPopup =>
      case AtGenerate =>
      case _ =>
    }
  }

  /** A VVN item whose action link is not a PDF link adds no path and neither downloads nor saves. */
  lemma VvnNonPdfWritesNothing(dir: Path, url: string, files: set<Path>, it: Item)
    requires !IsPdfLink(it.href)
    ensures var step := ItemStep(Vvn, dir, url, files, it);
      step.files == files && !step.outcome.Downloaded?
      && forall i :: 0 <= i < |step.events| ==> !step.events[i].ExpectDownload? && !step.events[i].SaveAs?
  {
    match SecondToLastSegment(url)
    case None =>
    case Some(slug) =>
      if SavePath(dir, slug) !in files {
        VvnVisitNonPdf(url, SavePath(dir, slug), files, it);
      }
  }

  lemma VvnVisitNonPdf(url: string, path: Path, files: set<Path>, it: Item)
    requires !IsPdfLink(it.href)
    ensures var step := VvnVisit(url, path, files, it);
      step.files == files && !step.outcome.Downloaded?
      && forall i :: 0 <= i < |step.events| ==> !step.events[i].ExpectDownload? && !step.events[i].SaveAs?
  {
  }

  // ---------------------------------------------------------------------------
  // What the loop does

  /** The paths of the `save_as` calls among `events`. */
  function SaveTargets(events: seq<Event>): set<Path>
  {
    set i | 0 <= i < |events| && events[i].SaveAs? :: events[i].path
  }

  /** No two `save_as` calls among `events` are to the same path. */
  predicate SavesDistinct(events: seq<Event>)
  {
    forall i, j :: 0 <= i < j < |events| && events[i].SaveAs? && events[j].SaveAs? ==>
      events[i].path != events[j].path
  }

  lemma SaveTargetsAppend(a: seq<Event>, b: seq<Event>)
    ensures SaveTargets(a + b) == SaveTargets(a) + SaveTargets(b)
  {
    var ab := a + b;
    forall p | p in SaveTargets(ab) ensures p in SaveTargets(a) + SaveTargets(b) {
      var i :| 0 <= i < |ab| && ab[i].SaveAs? && ab[i].path == p;
      if i >= |a| { assert b[i - |a|] == ab[i]; } else { assert a[i] == ab[i]; }
    }
    forall p | p in SaveTargets(a) ensures p in SaveTargets(ab) {
      var i :| 0 <= i < |a| && a[i].SaveAs? && a[i].path == p;
      assert ab[i] == a[i];
    }
    forall p | p in SaveTargets(b) ensures p in SaveTargets(ab) {
      var i :| 0 <= i < |b| && b[i].SaveAs? && b[i].path == p;
      assert ab[i + |a|] == b[i];
    }
  }

  /**
   Going from the paths `before` to the paths `after` with the calls `events`: no two
   `save_as` calls share a path, none is to a path that existed, only saved paths are
   added, and all of them are once the calls `completed` without an exception.
   */
  predicate WritesOnce(before: set<Path>, events: seq<Event>, after: set<Path>, completed: bool)
  {
    && SavesDistinct(events) && SaveTargets(events) !! before
    && before <= after <= before + SaveTargets(events)
    && (completed ==> after == before + SaveTargets(events))
  }

  /** Writing once is preserved by doing one completed piece of work after another. */
  lemma WritesOnceCompose(f0: set<Path>, e1: seq<Event>, f1: set<Path>, e2: seq<Event>, f2: set<Path>, completed: bool)
    requires WritesOnce(f0, e1, f1, true) && WritesOnce(f1, e2, f2, completed)
    ensures WritesOnce(f0, e1 + e2, f2, completed)
  {
    SaveTargetsAppend(e1, e2);
    var all := e1 + e2;
    forall i, j | 0 <= i < j < |all| && all[i].SaveAs? && all[j].SaveAs?
      ensures all[i].path != all[j].path
    {
      if j < |e1| {
        assert all[i] == e1[i] && all[j] == e1[j];
      } else if i >= |e1| {
        assert all[i] == e2[i - |e1|] && all[j] == e2[j - |e1|];
      } else {
        assert all[i] == e1[i];
        assert all[i].path in SaveTargets(e1);
        assert all[j] == e2[j - |e1|];
        assert all[j].path in SaveTargets(e2);
      }
    }
  }

  /** One item calls `save_as` at most once, on a path that did not exist. */
  lemma StepSavesFresh(site: Site, dir: Path, url: string, files: set<Path>, it: Item)
    ensures var step := ItemStep(site, dir, url, files, it);
      WritesOnce(files, step.events, step.files, !step.outcome.Raised?)
  {
    var step := ItemStep(site, dir, url, files, it);
    var slug := Slug(site, url);
    if slug != None && SavePath(dir, slug.value) !in files {
      var path := SavePath(dir, slug.value);
      VisitSavesFresh(site, url, path, files, it);
    } else {
      assert step.events == [];
    }
  }

  lemma VisitSavesFresh(site: Site, url: string, path: Path, files: set<Path>, it: Item)
    requires path !in files
    ensures var step := Visit(site, url, path, files, it);
      WritesOnce(files, step.events, step.files, !step.outcome.Raised?)
  {
    KeepsWritesOnce(Visit(site, url, path, files, it), url, path, files);
  }

  /** A visit that keeps to its shape saves at most once, to its own fresh path. */
  lemma KeepsWritesOnce(step: Step, url: string, path: Path, files: set<Path>)
    requires VisitKeeps(step, url, path, files) && path !in files
    ensures WritesOnce(files, step.events, step.files, !step.outcome.Raised?)
  {
    var ev := step.events;
    assert VisitShape(ev, url, path);
    forall q | q in SaveTargets(ev) ensures q == path {
      var i :| 0 <= i < |ev| && ev[i].SaveAs? && ev[i].path == q;
    }
    // Every `save_as` is at one index: the last, or the one before a final pause.
    var k := if ev != [] && ev[|ev| - 1] == Delay then |ev| - 2 else |ev| - 1;
    assert forall i :: 0 <= i < |ev| && ev[i].SaveAs? ==> i == k;
    assert SavesDistinct(ev);
    if step.outcome.Downloaded? {
      assert ev[|ev| - 2].SaveAs?;
      assert path in SaveTargets(ev);
    }
  }

  /** An item that keeps to `WritesOnce`, an exception counting as not completed. */
  predicate StepWritesOnce(before: set<Path>, step: Step)
  {
    WritesOnce(before, step.events, step.files, !step.outcome.Raised?)
  }

  /**
   A loop whose every item saves only to fresh paths, at most once each, writes no path
   twice and no existing path: the paths that exist afterwards are the earlier ones plus
   saved ones, all of them when the loop did not stop on an exception.
   */
  lemma {:induction false} LoopWritesOnce(urls: seq<string>, files: set<Path>, body: Body)
    requires forall url, fs :: StepWritesOnce(fs, body(url, fs))
    ensures var b := Loop(urls, files, body);
      WritesOnce(files, b.events, b.files, b.failure == None)
    decreases |urls|
  {
    if urls != [] {
      var step := body(urls[0], files);
      assert StepWritesOnce(files, step);
      if !step.outcome.Raised? {
        var rest := Loop(urls[1..], step.files, body);
        LoopWritesOnce(urls[1..], step.files, body);
        WritesOnceCompose(files, step.events, step.files, rest.events, rest.files, rest.failure == None);
      }
    } else {
      assert SaveTargets([]) == {};
    }
  }

  /**
   Within one loop of either scraper no path is written twice and no existing path is
   written; what exists afterwards is what existed plus what was saved.
   */
  lemma ItemsWriteOnce(site: Site, dir: Path, urls: seq<string>, files: set<Path>, item: string -> Item)
    ensures var b := Loop(urls, files, ItemBody(site, dir, item));
      WritesOnce(files, b.events, b.files, b.failure == None)
  {
    var body := ItemBody(site, dir, item);
    forall url, fs ensures StepWritesOnce(fs, body(url, fs)) {
      StepSavesFresh(site, dir, url, fs, item(url));
    }
    LoopWritesOnce(urls, files, body);
  }

  /** A loop over a sequence with a given failure-free prefix continues on what the prefix left. */
  function Then(a: Batch, b: Batch): Batch
  {
    if a.failure != None then a else Batch(a.events + b.events, b.files, b.failure)
  }

  /** The loop over `urls` is the loop over its first `k` items followed by the loop over the rest. */
  lemma {:induction false} LoopSplit(urls: seq<string>, k: nat, files: set<Path>, body: Body)
    requires k <= |urls|
    ensures var a := Loop(urls[..k], files, body);
      Loop(urls, files, body) == Then(a, Loop(urls[k..], a.files, body))
    decreases k
  {
    if k > 0 {
      var step := body(urls[0], files);
      assert urls[..k][0] == urls[0];
      assert urls[..k][1..] == urls[1..][..k - 1];
      if !step.outcome.Raised? {
        LoopSplit(urls[1..], k - 1, step.files, body);
        assert urls[1..][k - 1..] == urls[k..];
      }
    } else {
      assert urls[..0] == [] && urls[0..] == urls;
    }
  }

  /** Once an item has raised, no later URL is looked at: the loop ends with that exception. */
  lemma FailureStopsLoop(urls: seq<string>, k: nat, files: set<Path>, body: Body)
    requires k <= |urls|
    requires Loop(urls[..k], files, body).failure != None
    ensures Loop(urls, files, body) == Loop(urls[..k], files, body)
  {
    LoopSplit(urls, k, files, body);
  }

  /**
   An item with several action controls, reached with no exception before it, ends the loop:
   its navigation is the last call and its exception the loop's.
   */
  lemma AmbiguousItemAbortsLoop(site: Site, dir: Path, urls: seq<string>, k: nat, files: set<Path>, item: string -> Item)
    requires k < |urls|
    requires Loop(urls[..k], files, ItemBody(site, dir, item)).failure == None
    requires var before := Loop(urls[..k], files, ItemBody(site, dir, item)).files;
      Slug(site, urls[k]) != None && SavePath(dir, Slug(site, urls[k]).value) !in before
    requires item(urls[k]).fault != Some(AtGoto) && item(urls[k]).matches > 1
    ensures var a := Loop(urls[..k], files, ItemBody(site, dir, item));
      Loop(urls, files, ItemBody(site, dir, item))
        == Batch(a.events + [Goto(urls[k], NavigateTimeout)], a.files, Some(Ambiguous(urls[k])))
  {
    var body := ItemBody(site, dir, item);
    var a := Loop(urls[..k], files, body);
    LoopSplit(urls, k, files, body);
    assert urls[k..][0] == urls[k];
    SeveralMatchesRaise(site, dir, urls[k], a.files, item(urls[k]));
    assert body(urls[k], a.files) == Step([Goto(urls[k], NavigateTimeout)], a.files, Raised(Ambiguous(urls[k])));
  }

  /**
   A path saved by an earlier item exists when a later item with the same save path is
   reached, so that item is passed over without any call.
   */
  lemma SavedPathSkipsCollision(site: Site, dir: Path, urls: seq<string>, k: nat, files: set<Path>, item: string -> Item)
    requires k < |urls|
    requires var a := Loop(urls[..k], files, ItemBody(site, dir, item));
      a.failure == None && Slug(site, urls[k]) != None
      && SavePath(dir, Slug(site, urls[k]).value) in SaveTargets(a.events)
    ensures var a := Loop(urls[..k], files, ItemBody(site, dir, item));
      ItemStep(site, dir, urls[k], a.files, item(urls[k])) == Step([], a.files, Skipped(AlreadySaved))
      && Loop(urls, files, ItemBody(site, dir, item))
         == Then(a, Loop(urls[k + 1..], a.files, ItemBody(site, dir, item)))
  {
    var body := ItemBody(site, dir, item);
    var a := Loop(urls[..k], files, body);
    ItemsWriteOnce(site, dir, urls[..k], files, item);
    assert SavePath(dir, Slug(site, urls[k]).value) in a.files;
    LoopSplit(urls, k, files, body);
    var tail := urls[k..];
    assert tail[0] == urls[k] && tail[1..] == urls[k + 1..];
    ExistingFileSkipped(site, dir, tail, a.files, item);
  }

  /** The URLs navigated to among `events`, in order. */
  function Visits(events: seq<Event>): seq<string>
  {
    if events == [] then []
    else (if events[0].Goto? then [events[0].url] else []) + Visits(events[1..])
  }

  lemma {:induction false} VisitsAppend(a: seq<Event>, b: seq<Event>)
    ensures Visits(a + b) == Visits(a) + Visits(b)
    decreases |a|
  {
    if a != [] {
      assert (a + b)[1..] == a[1..] + b;
      VisitsAppend(a[1..], b);
    } else {
      assert a + b == b;
    }
  }

  lemma {:induction false} VisitsNone(events: seq<Event>)
    requires forall i :: 0 <= i < |events| ==> !events[i].Goto?
    ensures Visits(events) == []
    decreases |events|
  {
    if events != [] {
      VisitsNone(events[1..]);
    }
  }

  /** One item navigates only to its own URL, at most once. */
  lemma StepVisits(site: Site, dir: Path, url: string, files: set<Path>, it: Item)
    ensures var v := Visits(ItemStep(site, dir, url, files, it).events); v == [] || v == [url]
  {
    var ev := ItemStep(site, dir, url, files, it).events;
    if ev != [] {
      var slug := Slug(site, url);
      assert ev == Visit(site, url, SavePath(dir, slug.value), files, it).events;
      VisitsNone(ev[1..]);
    }
  }

  /** Every item navigates only to its own URL, at most once. */
  ghost predicate VisitsOwnUrl(body: Body)
  {
    forall url, fs :: Visits(body(url, fs).events) == [] || Visits(body(url, fs).events) == [url]
  }

  /**
   A loop whose items navigate only to their own URLs navigates only to URLs of its
   sequence, in its order; on a strictly ascending sequence the navigations are strictly
   ascending, so no URL is visited twice.
   */
  lemma {:induction false} LoopVisitsInOrder(urls: seq<string>, files: set<Path>, body: Body)
    requires StrictlyAscending(urls) && VisitsOwnUrl(body)
    ensures var v := Visits(Loop(urls, files, body).events);
      StrictlyAscending(v) && forall i :: 0 <= i < |v| ==> v[i] in urls
    decreases |urls|
  {
    if urls != [] {
      var step := body(urls[0], files);
      var vs := Visits(step.events);
      assert vs == [] || vs == [urls[0]];
      if !step.outcome.Raised? {
        var rest := Loop(urls[1..], step.files, body);
        LoopVisitsInOrder(urls[1..], step.files, body);
        VisitsAppend(step.events, rest.events);
        var vr := Visits(rest.events);
        assert Visits(Loop(urls, files, body).events) == vs + vr;
        forall i | 0 <= i < |vr| ensures vr[i] in urls && Less(urls[0], vr[i]) {
          var j :| 0 <= j < |urls[1..]| && urls[1..][j] == vr[i];
          assert urls[j + 1] == vr[i];
        }
        if vs == [] {
          assert vs + vr == vr;
        } else {
          AscendingCons(urls[0], vr);
        }
      }
    }
  }

  /** A string below every element of a strictly ascending sequence can go in front of it. */
  lemma AscendingCons(x: string, v: seq<string>)
    requires StrictlyAscending(v)
    requires forall i :: 0 <= i < |v| ==> Less(x, v[i])
    ensures StrictlyAscending([x] + v)
  {
    var w := [x] + v;
    forall i, j | 0 <= i < j < |w| ensures Less(w[i], w[j]) {
      assert w[j] == v[j - 1];
      if i > 0 {
        assert w[i] == v[i - 1];
      }
    }
  }

  /** `scrape` navigates, after the listing, to discovered URLs only, in ascending order. */
  lemma ScrapeVisitsDiscoveredInOrder(site: Site, dir: Path, files: set<Path>, pages: Pages)
    requires !pages.listing.readyTimesOut
    ensures var v := Visits(ScrapeSpec(site, dir, files, pages).events);
      StrictlyAscending(v) && forall i :: 0 <= i < |v| ==> v[i] in pages.listing.hrefs
  {
    var urls := UniqueSorted(pages.listing.hrefs);
    var body := ItemBody(site, dir, pages.item);
    var b := Loop(urls, files, body);
    forall url, fs ensures Visits(body(url, fs).events) == [] || Visits(body(url, fs).events) == [url] {
      StepVisits(site, dir, url, fs, pages.item(url));
    }
    LoopVisitsInOrder(urls, files, body);
    VisitsAppend(ListingEvents(site), b.events);
    VisitsNone(ListingEvents(site));
    forall i | 0 <= i < |Visits(b.events)| ensures Visits(b.events)[i] in pages.listing.hrefs {
      UniqueSortedExactlyOnce(pages.listing.hrefs, Visits(b.events)[i]);
    }
  }

  // ---------------------------------------------------------------------------
  // What `run` does

  /** No `close` call among `events`. */
  predicate NoClose(events: seq<Event>)
  {
    forall i :: 0 <= i < |events| ==> !events[i].Close?
  }

  /** A loop whose every item closes nothing closes nothing. */
  lemma {:induction false} LoopNeverCloses(urls: seq<string>, files: set<Path>, body: Body)
    requires forall url, fs :: NoClose(body(url, fs).events)
    ensures NoClose(Loop(urls, files, body).events)
    decreases |urls|
  {
    if urls != [] {
      var step := body(urls[0], files);
      if !step.outcome.Raised? {
        LoopNeverCloses(urls[1..], step.files, body);
      }
    }
  }

  /** One item never closes the browser. */
  lemma StepNeverCloses(site: Site, dir: Path, url: string, files: set<Path>, it: Item)
    ensures NoClose(ItemStep(site, dir, url, files, it).events)
  {
    match Slug(site, url)
    case None =>
    case Some(slug) =>
      var path := SavePath(dir, slug);
      if path !in files {
        var v := Visit(site, url, path, files, it);
        assert VisitShape(v.events, url, path);
      }
  }

  /** `scrape` never closes the browser. */
  lemma ScrapeNeverCloses(site: Site, dir: Path, files: set<Path>, pages: Pages)
    ensures NoClose(ScrapeSpec(site, dir, files, pages).events)
  {
    var body := ItemBody(site, dir, pages.item);
    forall url, fs ensures NoClose(body(url, fs).events) {
      StepNeverCloses(site, dir, url, fs, pages.item(url));
    }
    LoopNeverCloses(UniqueSorted(pages.listing.hrefs), files, body);
  }

  /**
   When the launch succeeds, `run` closes the browser it launched exactly once, as its last
   call, whatever else happens.
   */
  lemma RunClosesLaunchedBrowserOnce(site: Site, dir: Path, prior: Handles, s: Session, pages: Pages, files: set<Path>)
    requires !s.launchFails
    ensures var ev := RunSpec(site, dir, prior, s, pages, files).events;
      |ev| > 0 && ev[|ev| - 1] == Close(Browser(s.browserId))
      && forall i :: 0 <= i < |ev| - 1 ==> !ev[i].Close?
  {
    ScrapeNeverCloses(site, dir, files + {dir}, pages);
  }

  /** A failed launch on a scraper that never had a browser closes nothing and re-raises. */
  lemma RunWithoutBrowserNeverCloses(site: Site, dir: Path, prior: Handles, s: Session, pages: Pages, files: set<Path>)
    requires s.launchFails && prior.browser == None
    ensures RunSpec(site, dir, prior, s, pages, files)
         == RunResult([Launch(true)], files, prior, Reraised(SetupFailed(AtLaunch)))
  {
  }

  /** `scrape` only adds paths. */
  lemma ScrapeKeepsFiles(site: Site, dir: Path, files: set<Path>, pages: Pages)
    ensures files <= ScrapeSpec(site, dir, files, pages).files
  {
    ItemsWriteOnce(site, dir, UniqueSorted(pages.listing.hrefs), files, pages.item);
  }

  /**
   When the session opens, `run` creates the directory and visits the base URL before
   `scrape`, whose calls come next; the directory exists from then on; `run` ends with
   closing the browser and re-raises exactly what `scrape` raised, unless that `close`
   raises and its exception escapes instead.
   */
  lemma RunSetsUpBeforeScrape(site: Site, dir: Path, prior: Handles, s: Session, pages: Pages, files: set<Path>)
    requires !s.launchFails && !s.contextFails && !s.pageFails && !s.baseGotoFails
    requires MkdirOk(files, dir)
    ensures var r := RunSpec(site, dir, prior, s, pages, files);
      var sc := ScrapeSpec(site, dir, files + {dir}, pages);
      && r.events == SetupEvents(site, dir) + sc.events + [Close(Browser(s.browserId))]
      && r.files == sc.files && dir in r.files
      && r.handles == Handles(Some(Browser(s.browserId)), Some(Context(Browser(s.browserId))),
                              Some(Page(Context(Browser(s.browserId)))))
      && (s.closeFails ==> r.outcome == CloseRaised)
      && (r.outcome == Finished <==> sc.failure == None && !s.closeFails)
      && (sc.failure != None && !s.closeFails ==> r.outcome == Reraised(sc.failure.value))
  {
    ScrapeKeepsFiles(site, dir, files + {dir}, pages);
  }

  /**
   When the session cannot be opened, `scrape` is never called and `run` re-raises, unless
   closing a browser it holds raises instead.
   */
  lemma RunSetupFailureSkipsScrape(site: Site, dir: Path, prior: Handles, s: Session, pages: Pages, files: set<Path>)
    requires s.launchFails || s.contextFails || s.pageFails || s.baseGotoFails || !MkdirOk(files, dir)
    ensures var r := RunSpec(site, dir, prior, s, pages, files);
      var a := TrySpec(site, dir, prior, s, pages, files);
      && a.failure != None && a.failure.value.SetupFailed?
      && r.outcome == (if a.handles.browser != None && s.closeFails then CloseRaised
                       else Reraised(a.failure.value))
      && a.events == SetupEvents(site, dir)[..|a.events|]
      && r.files <= files + {dir}
  {
    var setup := SetupEvents(site, dir);
    if s.launchFails {
      assert setup[..1] == [Launch(true)];
    } else if s.contextFails {
      assert setup[..2] == [Launch(true), NewContext(true)];
    } else if s.pageFails {
      assert setup[..3] == [Launch(true), NewContext(true), NewPage];
    } else if !MkdirOk(files, dir) {
      assert setup[..4] == [Launch(true), NewContext(true), NewPage, MakeDir(dir)];
    } else {
      assert setup[..5] == setup;
    }
  }

  /**
   The `browser` field survives a failed launch: a second `run` whose launch fails closes
   the browser of the earlier run again.
   */
  lemma RunAfterFailedLaunchClosesPrevious(site: Site, dir: Path, prior: Handles, s: Session, pages: Pages, files: set<Path>)
    requires s.launchFails && prior.browser != None
    ensures RunSpec(site, dir, prior, s, pages, files).events == [Launch(true), Close(prior.browser.value)]
  {
  }
}
