/**
 Where a scraper keeps its files: the download directory (`BaseScraper.download_dir`)
 and, per item URL, the save path `download_dir / f"{name}.pdf"`, whose `name` is a
 `"/"`-separated piece of the URL.
 */
module Paths {
  import opened Wrappers
  import opened Strings

  /** A filesystem path as the sequence of its components, `pathlib`'s `parts`. */
  type Path = seq<string>

  /** `ROOT_DIR / 'downloads' / name` unless the scraper was constructed with a directory. */
  function DownloadDir(root: Path, name: string, override: Option<Path>): Path
  {
    match override
    case None => root + ["downloads", name]
    case Some(d) => d
  }

  /**
   A directory given to the constructor is used as it is. Without one, a scraper keeps its
   files in `ROOT_DIR/downloads/<name>`, so two differently named scrapers never share one.
   */
  lemma DownloadDirRule(root: Path, a: string, b: string, override: Path)
    ensures DownloadDir(root, a, Some(override)) == override
    ensures DownloadDir(root, a, None) == root + ["downloads", a]
    ensures DownloadDir(root, a, None) == DownloadDir(root, b, None) <==> a == b
  {
    if DownloadDir(root, a, None) == DownloadDir(root, b, None) {
      assert DownloadDir(root, a, None)[|root| + 1] == a;
    }
  }

  /** `dir / f"{slug}.pdf"`. */
  function SavePath(dir: Path, slug: string): (p: Path)
  {
    dir + [slug + ".pdf"]
  }

  /** Save paths in one directory coincide exactly when the slugs do; they lie directly in it. */
  lemma SavePathInjective(dir: Path, a: string, b: string)
    ensures SavePath(dir, a) == SavePath(dir, b) <==> a == b
    ensures |SavePath(dir, a)| == |dir| + 1 && SavePath(dir, a)[..|dir|] == dir
  {
    if SavePath(dir, a) == SavePath(dir, b) {
      assert a + ".pdf" == SavePath(dir, a)[|dir|] == b + ".pdf";
      assert a == (a + ".pdf")[..|a|];
      assert b == (b + ".pdf")[..|b|];
    }
  }

  /** `url.split("/")[-1]`. */
  function LastSegment(url: string): string
  {
    var pieces := Split(url, '/');
    pieces[|pieces| - 1]
  }

  /**
   The last segment is the longest suffix of `url` free of `"/"`: it is preceded in `url`
   by a `"/"` unless it is all of `url`.
   */
  lemma LastSegmentSuffix(url: string)
    ensures var slug := LastSegment(url);
      && '/' !in slug
      && |slug| <= |url| && url[|url| - |slug|..] == slug
      && (|slug| == |url| || url[|url| - |slug| - 1] == '/')
  {
    var pieces := Split(url, '/');
    var n := |pieces|;
    var slug := pieces[n - 1];
    assert LastSegment(url) == slug;
    assert '/' !in slug;
    JoinSplit(url, '/');
    if n == 1 {
      assert url == slug;
      assert url[0..] == url;
    } else {
      JoinLast(pieces, '/');
      var pre := Join(pieces[..n - 1], '/');
      assert url == pre + ['/'] + slug;
      assert |url| - |slug| == |pre| + 1;
      assert url[|pre|] == '/';
      assert url[|pre| + 1..] == slug;
    }
  }

  /**
   `url.split("/")[-2]`, which raises `IndexError` (here `None`) exactly when `url` holds
   no `"/"`.
   */
  function SecondToLastSegment(url: string): (slug: Option<string>)
    ensures slug == None <==> '/' !in url
    ensures slug != None ==> '/' !in slug.value
  {
    var pieces := Split(url, '/');
    SplitSingle(url, '/');
    if |pieces| < 2 then None else Some(pieces[|pieces| - 2])
  }

  /**
   In `head + "/" + slug` with `slug` free of `"/"`, the last segment is `slug` and the
   second-to-last is the last segment of `head`.
   */
  lemma SegmentsOfJoin(head: string, slug: string)
    requires '/' !in slug
    ensures LastSegment(head + "/" + slug) == slug
    ensures SecondToLastSegment(head + "/" + slug) == Some(LastSegment(head))
  {
    SplitConcat(head, slug, '/');
    SplitNoSeparator(slug, '/');
    var ph, pu := Split(head, '/'), Split(head + "/" + slug, '/');
    assert pu == ph + [slug];
    assert pu[|pu| - 1] == slug;
    assert pu[|pu| - 2] == ph[|ph| - 1];
  }

  /**
   A URL ending in `"/"` has an empty last segment, and its second-to-last segment is
   the last one of the URL without that `"/"`.
   */
  lemma TrailingSlashSegments(u: string)
    ensures LastSegment(u + "/") == ""
    ensures SecondToLastSegment(u + "/") == Some(LastSegment(u))
  {
    SegmentsOfJoin(u, "");
    assert u + "/" + "" == u + "/";
  }
}
