/**
 The collaborators a scraper drives, reduced to what the scraping logic observes:
 scripted answers of the browser (an oracle per run and per item URL), the calls the
 scraper makes on the browser and the filesystem, and the errors that can escape.
 */
module Web {
  import opened Wrappers
  import opened Paths

  /** The two concrete scrapers; everything else about a scraper is shared. */
  datatype Site = Richtlijnen | Vvn

  // Timeouts in milliseconds, as passed to the browser.
  const CookieTimeout: nat := 5000
  const NetworkIdleTimeout: nat := 30000
  const LastLinkTimeout: nat := 10000
  const NavigateTimeout: nat := 10000
  const VisibleTimeout: nat := 10000
  const DownloadTimeout: nat := 5 * 60 * 1000

  /** Suffix a VVN action link must carry to be downloaded. */
  const PdfSuffix: string := ".pdf"

  /** The browser calls of one item, each of which may raise. */
  datatype Stage =
    | AtGoto          // page.goto(url, timeout=10000)
    | AtClick         // clicking the "Download richtlijn" link
    | AtPopup         // waiting for the popup text to be visible
    | AtGenerate      // waiting for the "GENEREER" button to be visible
    | AtReadHref      // get_attribute("href") of the action link
    | AtDownload      // expect_download around the triggering click
    | AtSave          // download.save_as(save_path)

  /**
   What the browser answers on one item page: how many action controls match, the
   `href` attribute of the control (`None` when absent), and the first call that raises.
   */
  datatype Item = Item(matches: nat, href: Option<string>, fault: Option<Stage>)

  /** What the listing page answers: whether the readiness wait times out, and the hrefs. */
  datatype Listing = Listing(readyTimesOut: bool, hrefs: seq<string>)

  /** The sites as the browser shows them: the listing page and every item page. */
  datatype Pages = Pages(listing: Listing, item: string -> Item)

  /**
   Which of the session-opening calls of `run` raise, the browser a launch yields, and
   whether `browser.close()` in `finally` raises.
   */
  datatype Session = Session(
    launchFails: bool, browserId: nat, contextFails: bool, pageFails: bool, baseGotoFails: bool,
    closeFails: bool)

  datatype Browser = Browser(id: nat)
  datatype Context = Context(browser: Browser)
  datatype Page = Page(context: Context)

  /** The session-opening calls of `run`. */
  datatype SetupStage = AtLaunch | AtNewContext | AtNewPage | AtMkdir | AtBaseGoto

  /** An exception escaping `scrape` or the body of `run`. */
  datatype Error =
    | SetupFailed(setup: SetupStage)
    | ListingNotReady
    | SlugMissing(url: string)           // IndexError of url.split("/")[-2]
    | Ambiguous(url: string)             // more than one action control
    | ItemFailed(url: string, stage: Stage)

  /** The element a visibility wait is for. */
  datatype Marker = PopupText | GenerateButton

  /**
   One call made on a collaborator, recorded when it is made (a call that raises is
   recorded too). `ExpectDownload` stands for the listener, the triggering click inside
   it and the wait for the download.
   */
  datatype Event =
    | Launch(headless: bool)
    | NewContext(acceptDownloads: bool)
    | NewPage
    | MakeDir(dir: Path)
    | GotoBase(site: Site)               // page.goto(str(base_URL)) of that site, no explicit timeout
    | Goto(url: string, timeout: nat)
    | ClickCookie(timeout: nat)
    | WaitNetworkIdle(timeout: nat)
    | WaitLastLink(timeout: nat)
    | ClickControl(url: string)
    | WaitVisible(marker: Marker, timeout: nat)
    | ReadHref(url: string)
    | ExpectDownload(url: string, timeout: nat)
    | SaveAs(path: Path)
    | Delay
    | Close(browser: Browser)
}
