/**
 The scrapers as objects whose methods act step by step, as `BaseScraper` and its two
 subclasses do: `run` fills the `browser`, `context` and `page` fields and closes the
 browser in `finally`; each `scrape` walks its URLs with a `for` loop that `continue`s on a
 skip and lets an exception out. Every method is proved to do what module Flow says.
 */
module Scrapers {
  import opened Wrappers
  import opened Strings
  import opened Discovery
  import opened Paths
  import opened Web
  import opened Flow

  /** Regrouping a call log; called explicitly because the solver is slow to regroup long logs itself. */
  lemma AppendAssoc(a: seq<Event>, b: seq<Event>, c: seq<Event>)
    ensures a + b + c == a + (b + c)
  {
  }

  /**
   Everything a scraper talks to: the paths that exist on disk, the browser's scripted
   answers, and the calls made on either, in order.
   */
  class World {
    const session: Session
    const pages: Pages
    var files: set<Path>
    var calls: seq<Event>

    constructor (session: Session, pages: Pages, files: set<Path>)
      ensures this.session == session && this.pages == pages
      ensures this.files == files && calls == []
    {
      this.session := session;
      this.pages := pages;
      this.files := files;
      calls := [];
    }

    /** `path.exists()`. */
    function Exists(path: Path): bool
      reads this
    {
      path in files
    }

    /** A call on the browser; its answer comes from `session` or `pages`. */
    method Call(e: Event)
      modifies this
      ensures calls == old(calls) + [e] && files == old(files)
    {
      calls := calls + [e];
    }

    /** `dir.mkdir(exist_ok=True)`, which can only succeed when `dir` or its parent exists. */
    method MakeDir(dir: Path) returns (ok: bool)
      modifies this
      ensures ok == MkdirOk(old(files), dir)
      ensures calls == old(calls) + [Event.MakeDir(dir)]
      ensures files == if ok then old(files) + {dir} else old(files)
    {
      calls := calls + [Event.MakeDir(dir)];
      ok := MkdirOk(files, dir);
      if ok {
        files := files + {dir};
      }
    }

    /** `download.save_as(path)`, creating `path` unless it fails. */
    method SaveAs(path: Path, fails: bool)
      modifies this
      ensures calls == old(calls) + [Event.SaveAs(path)]
      ensures files == if fails then old(files) else old(files) + {path}
    {
      calls := calls + [Event.SaveAs(path)];
      if !fails {
        files := files + {path};
      }
    }
  }

  /** `BaseScraper` with its subclass chosen by `site`. */
  class Scraper {
    const world: World
    const site: Site
    const name: string
    /** `ROOT_DIR`. */
    const root: Path
    /** `_download_dir`, the directory given to the constructor if any. */
    const downloadDir: Option<Path>
    var browser: Option<Browser>
    var context: Option<Context>
    var page: Option<Page>

    constructor (world: World, site: Site, name: string, root: Path, downloadDir: Option<Path>)
      ensures this.world == world && this.site == site && this.name == name
      ensures this.root == root && this.downloadDir == downloadDir
      ensures browser == None && context == None && page == None
    {
      this.world := world;
      this.site := site;
      this.name := name;
      this.root := root;
      this.downloadDir := downloadDir;
      browser := None;
      context := None;
      page := None;
    }

    /** The `download_dir` property. */
    function Dir(): Path
    {
      DownloadDir(root, name, downloadDir)
    }

    /** `run()`: the `try` block, then `finally` closing the browser if the field holds one. */
    method Run() returns (outcome: RunOutcome)
      modifies this, world
      ensures var r := RunSpec(site, Dir(), old(Handles(browser, context, page)),
                               world.session, world.pages, old(world.files));
        && world.calls == old(world.calls) + r.events && world.files == r.files
        && Handles(browser, context, page) == r.handles && outcome == r.outcome
    {
      var failure := Try();
      if browser != None {
        world.Call(Close(browser.value));
        if world.session.closeFails {
          return CloseRaised;
        }
      }
      outcome := if failure != None then Reraised(failure.value) else Finished;
    }

    /** The `try` block of `run()`, returning the exception it raises. */
    method Try() returns (failure: Option<Error>)
      modifies this, world
      ensures var a := TrySpec(site, Dir(), old(Handles(browser, context, page)),
                               world.session, world.pages, old(world.files));
        && world.calls == old(world.calls) + a.events && world.files == a.files
        && Handles(browser, context, page) == a.handles && failure == a.failure
    {
      var s := world.session;
      ghost var calls0 := world.calls;
      ghost var setup := SetupEvents(site, Dir());
      world.Call(Launch(true));
      if s.launchFails {
        assert world.calls == calls0 + setup[..1];
        return Some(SetupFailed(AtLaunch));
      }
      browser := Some(Browser(s.browserId));
      world.Call(NewContext(true));
      if s.contextFails {
        assert world.calls == calls0 + setup[..2];
        return Some(SetupFailed(AtNewContext));
      }
      context := Some(Context(browser.value));
      world.Call(NewPage);
      if s.pageFails {
        assert world.calls == calls0 + setup[..3];
        return Some(SetupFailed(AtNewPage));
      }
      page := Some(Page(context.value));
      var ok := world.MakeDir(Dir());
      if !ok {
        assert world.calls == calls0 + setup[..4];
        return Some(SetupFailed(AtMkdir));
      }
      world.Call(GotoBase(site));
      assert world.calls == calls0 + setup;
      if s.baseGotoFails {
        return Some(SetupFailed(AtBaseGoto));
      }
      ghost var r := ScrapeSpec(site, Dir(), world.files, world.pages);
      failure := Scrape();
      AppendAssoc(calls0, setup, r.events);
    }

    /** `scrape()` of the subclass `site` names. */
    method Scrape() returns (failure: Option<Error>)
      modifies world
      ensures var b := ScrapeSpec(site, Dir(), old(world.files), world.pages);
        world.calls == old(world.calls) + b.events && world.files == b.files && failure == b.failure
    {
      match site
      case Richtlijnen => failure := ScrapeRichtlijnen();
      case Vvn => failure := ScrapeVvn();
    }

    /** `RichtlijnenDatabaseScraper.scrape()`. */
    method ScrapeRichtlijnen() returns (failure: Option<Error>)
      modifies world
      ensures var b := ScrapeSpec(Richtlijnen, Dir(), old(world.files), world.pages);
        world.calls == old(world.calls) + b.events && world.files == b.files && failure == b.failure
    {
      ghost var calls0 := world.calls;
      // A failing click on the cookie banner is caught and ignored.
      world.Call(ClickCookie(CookieTimeout));
      world.Call(WaitNetworkIdle(NetworkIdleTimeout));
      assert world.calls == calls0 + ListingEvents(Richtlijnen);
      if world.pages.listing.readyTimesOut {
        return Some(ListingNotReady);
      }
      var urls := UniqueSorted(world.pages.listing.hrefs);
      ghost var b := Loop(urls, world.files, ItemBody(Richtlijnen, Dir(), world.pages.item));
      failure := Download(Richtlijnen, urls);
      AppendAssoc(calls0, ListingEvents(Richtlijnen), b.events);
    }

    /** `KennisinstituutVVNScraper.scrape()`. */
    method ScrapeVvn() returns (failure: Option<Error>)
      modifies world
      ensures var b := ScrapeSpec(Vvn, Dir(), old(world.files), world.pages);
        world.calls == old(world.calls) + b.events && world.files == b.files && failure == b.failure
    {
      ghost var calls0 := world.calls;
      world.Call(WaitLastLink(LastLinkTimeout));
      if world.pages.listing.readyTimesOut {
        return Some(ListingNotReady);
      }
      var urls := UniqueSorted(world.pages.listing.hrefs);
      ghost var b := Loop(urls, world.files, ItemBody(Vvn, Dir(), world.pages.item));
      failure := Download(Vvn, urls);
      AppendAssoc(calls0, ListingEvents(Vvn), b.events);
    }

    /** The `for url in unique_urls` loop of the subclass `kind`. */
    method Download(kind: Site, urls: seq<string>) returns (failure: Option<Error>)
      modifies world
      ensures var b := Loop(urls, old(world.files), ItemBody(kind, Dir(), world.pages.item));
        world.calls == old(world.calls) + b.events && world.files == b.files && failure == b.failure
    {
      var body := ItemBody(kind, Dir(), world.pages.item);
      ghost var calls0 := world.calls;
      ghost var total := Loop(urls, world.files, body);
      ghost var done: seq<Event> := [];
      failure := None;
      for i := 0 to |urls|
        invariant world.calls == calls0 + done
        invariant total == Then(Batch(done, world.files, None), Loop(urls[i..], world.files, body))
      {
        ghost var step := body(urls[i], world.files);
        ghost var rest := Loop(urls[i + 1..], step.files, body);
        assert urls[i..][0] == urls[i] && urls[i..][1..] == urls[i + 1..];
        assert Loop(urls[i..], world.files, body)
            == if step.outcome.Raised? then Batch(step.events, step.files, Some(step.outcome.error))
               else Batch(step.events + rest.events, rest.files, rest.failure);
        var outcome := Item(kind, urls[i]);
        AppendAssoc(calls0, done, step.events);
        AppendAssoc(done, step.events, rest.events);
        done := done + step.events;
        if outcome.Raised? {
          return Some(outcome.error);
        }
      }
      assert done + [] == done;
    }

    /** One pass of the loop body for `url`. */
    method Item(kind: Site, url: string) returns (outcome: Outcome)
      modifies world
      ensures var step := ItemStep(kind, Dir(), url, old(world.files), world.pages.item(url));
        world.calls == old(world.calls) + step.events && world.files == step.files && outcome == step.outcome
    {
      match kind
      case Richtlijnen => outcome := RichtlijnItem(url);
      case Vvn => outcome := VvnItem(url);
    }

    /** The loop body of `RichtlijnenDatabaseScraper.scrape()`. */
    method RichtlijnItem(url: string) returns (outcome: Outcome)
      modifies world
      ensures var step := ItemStep(Richtlijnen, Dir(), url, old(world.files), world.pages.item(url));
        world.calls == old(world.calls) + step.events && world.files == step.files && outcome == step.outcome
    {
      var savePath := SavePath(Dir(), LastSegment(url));
      if world.Exists(savePath) {
        return Skipped(AlreadySaved);
      }
      outcome := RichtlijnFetch(url, savePath);
    }

    /** The Richtlijnen calls for a URL whose save path does not exist. */
    method RichtlijnFetch(url: string, savePath: Path) returns (outcome: Outcome)
      modifies world
      ensures var step := RichtlijnVisit(url, savePath, old(world.files), world.pages.item(url));
        world.calls == old(world.calls) + step.events && world.files == step.files && outcome == step.outcome
    {
      ghost var calls0 := world.calls;
      var it := world.pages.item(url);
      var go, click := Goto(url, NavigateTimeout), ClickControl(url);
      var popup := WaitVisible(PopupText, VisibleTimeout);
      var generate := WaitVisible(GenerateButton, VisibleTimeout);
      var download := ExpectDownload(url, DownloadTimeout);
      world.Call(go);
      if it.fault == Some(AtGoto) {
        return Raised(ItemFailed(url, AtGoto));
      }
      if it.matches == 0 {
        return Skipped(NoControl);
      }
      if it.matches > 1 {
        return Raised(Ambiguous(url));
      }
      world.Call(click);
      assert world.calls == calls0 + [go, click];
      if it.fault == Some(AtClick) {
        return Raised(ItemFailed(url, AtClick));
      }
      world.Call(popup);
      assert world.calls == calls0 + [go, click, popup];
      if it.fault == Some(AtPopup) {
        return Raised(ItemFailed(url, AtPopup));
      }
      world.Call(generate);
      assert world.calls == calls0 + [go, click, popup, generate];
      if it.fault == Some(AtGenerate) {
        return Raised(ItemFailed(url, AtGenerate));
      }
      world.Call(download);
      assert world.calls == calls0 + [go, click, popup, generate, download];
      if it.fault == Some(AtDownload) {
        return Raised(ItemFailed(url, AtDownload));
      }
      world.SaveAs(savePath, it.fault == Some(AtSave));
      assert world.calls == calls0 + [go, click, popup, generate, download, SaveAs(savePath)];
      if it.fault == Some(AtSave) {
        return Raised(ItemFailed(url, AtSave));
      }
      world.Call(Delay);
      assert world.calls == calls0 + [go, click, popup, generate, download, SaveAs(savePath), Delay];
      outcome := Downloaded(savePath);
    }

    /** The loop body of `KennisinstituutVVNScraper.scrape()`. */
    method VvnItem(url: string) returns (outcome: Outcome)
      modifies world
      ensures var step := ItemStep(Vvn, Dir(), url, old(world.files), world.pages.item(url));
        world.calls == old(world.calls) + step.events && world.files == step.files && outcome == step.outcome
    {
      var name := SecondToLastSegment(url);
      if name == None {
        return Raised(SlugMissing(url));
      }
      var savePath := SavePath(Dir(), name.value);
      if world.Exists(savePath) {
        return Skipped(AlreadySaved);
      }
      outcome := VvnFetch(url, savePath);
    }

    /** The VVN calls for a URL whose save path does not exist. */
    method VvnFetch(url: string, savePath: Path) returns (outcome: Outcome)
      modifies world
      ensures var step := VvnVisit(url, savePath, old(world.files), world.pages.item(url));
        world.calls == old(world.calls) + step.events && world.files == step.files && outcome == step.outcome
    {
      ghost var calls0 := world.calls;
      var it := world.pages.item(url);
      var go, read := Goto(url, NavigateTimeout), ReadHref(url);
      var download := ExpectDownload(url, DownloadTimeout);
      world.Call(go);
      if it.fault == Some(AtGoto) {
        return Raised(ItemFailed(url, AtGoto));
      }
      if it.matches == 0 {
        return Skipped(NoControl);
      }
      if it.matches > 1 {
        return Raised(Ambiguous(url));
      }
      world.Call(read);
      assert world.calls == calls0 + [go, read];
      if it.fault == Some(AtReadHref) {
        return Raised(ItemFailed(url, AtReadHref));
      }
      var href := it.href;
      if IsPdfLink(href) {
        world.Call(download);
        assert world.calls == calls0 + [go, read, download];
        if it.fault == Some(AtDownload) {
          return Raised(ItemFailed(url, AtDownload));
        }
        world.SaveAs(savePath, it.fault == Some(AtSave));
        assert world.calls == calls0 + [go, read, download, SaveAs(savePath)];
        if it.fault == Some(AtSave) {
          return Raised(ItemFailed(url, AtSave));
        }
        world.Call(Delay);
        assert world.calls == calls0 + [go, read, download, SaveAs(savePath), Delay];
        outcome := Downloaded(savePath);
      } else {
        world.Call(Delay);
        assert world.calls == calls0 + [go, read, Delay];
        outcome := Skipped(NotPdf);
      }
    }
  }
}
