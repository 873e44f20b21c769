/**
 * Where the downloader gets its cookies: a non-empty cookie file in one of
 * three fixed places, else the first browser whose cookie store works, else
 * none; and how a strategy's options carry that choice.
 */
module Cookies {
  import opened Common
  import opened Formats
  import opened Files
  import opened Options

  /** `CookieSource(mode, value, description)`; a missing value is `Null`. */
  datatype CookieSource = CookieSource(mode: string, value: Value, description: string)

  /** The three places a cookie file is looked for, in order. */
  function CookieFileCandidates(disk: Disk): seq<string> {
    [Join(disk.base, "cookies.txt"), Join(SystemDir(disk), "cookies.txt"), Join(Join(disk.base, "resources"), "cookies.txt")]
  }

  /** `candidate.exists() and candidate.stat().st_size > 0`. */
  predicate UsableCookieFile(disk: Disk, path: string) {
    Exists(disk, path) && disk.nodes[path].size > 0
  }

  function UsableTest(disk: Disk): string -> bool {
    path => UsableCookieFile(disk, path)
  }

  /** `find_cookie_file()`. */
  function CookieFile(disk: Disk): (r: Option<string>)
    ensures r.Some? ==> r.value in CookieFileCandidates(disk) && UsableCookieFile(disk, r.value)
    ensures r.None? <==> forall p :: p in CookieFileCandidates(disk) ==> !UsableCookieFile(disk, p)
  {
    FirstWhere(CookieFileCandidates(disk), UsableTest(disk))
  }

  method FindCookieFile(disk: Disk) returns (found: Option<string>)
    ensures found == CookieFile(disk)
  {
    var candidates := CookieFileCandidates(disk);
    var k := 0;
    while k < |candidates|
      invariant 0 <= k <= |candidates|
      invariant FirstWhere(candidates[k..], UsableTest(disk)) == CookieFile(disk)
    {
      var candidate := candidates[k];
      if Exists(disk, candidate) && disk.nodes[candidate].size > 0 {
        return Some(candidate);
      }
      assert candidates[k..][1..] == candidates[k + 1..];
      k := k + 1;
    }
    return None;
  }

  const DefaultBrowsers: seq<string> := ["edge", "chrome", "firefox", "brave", "opera", "vivaldi"]

  const NoCookies := CookieSource("none", Null, "no cookies detected")

  /**
   * `detect_cookie_source()`. `valid` stands for
   * `browser_cookie_source_is_valid`, which asks the library to read one
   * playlist entry with that browser's cookies.
   */
  function DetectedSource(disk: Disk, valid: string -> bool): (r: CookieSource)
    ensures r.mode == "file" || r.mode == "browser" || r.mode == "none"
    ensures r.mode != "none" ==> Truthy(r.value)
  {
    match CookieFile(disk)
    case Some(path) =>
      assert path != "" by {
        var cs := CookieFileCandidates(disk);
        assert path == cs[0] || path == cs[1] || path == cs[2];
        assert |cs[0]| > 0 && |cs[1]| > 0 && |cs[2]| > 0;
      }
      CookieSource("file", Str(path), "cookie file: " + path)
    case None =>
      match FirstWhere(DefaultBrowsers, valid)
      case Some(browser) => CookieSource("browser", List([Str(browser)]), "browser cookies: " + browser)
      case None => NoCookies
  }

  /** A cookie file always wins; a browser only when there is no file; otherwise none. */
  lemma DetectedSourceCases(disk: Disk, valid: string -> bool)
    ensures var s := DetectedSource(disk, valid);
      (s.mode == "file" <==> CookieFile(disk).Some?)
      && (s.mode == "browser" <==> CookieFile(disk).None? && exists b :: b in DefaultBrowsers && valid(b))
      && (s.mode == "none" <==> CookieFile(disk).None? && forall b :: b in DefaultBrowsers ==> !valid(b))
    ensures var s := DetectedSource(disk, valid);
      s.mode == "file" ==> s.value == Str(CookieFile(disk).value) && UsableCookieFile(disk, CookieFile(disk).value)
    ensures var s := DetectedSource(disk, valid);
      s.mode == "browser" ==> exists b :: b in DefaultBrowsers && valid(b) && s.value == List([Str(b)]) && s.description == "browser cookies: " + b
  {
    var s := DetectedSource(disk, valid);
    if CookieFile(disk).None? {
      var fb := FirstWhere(DefaultBrowsers, valid);
      if fb.Some? {
        assert s.value == List([Str(fb.value)]);
      }
    }
  }

  /** `apply_cookie_source(ydl_opts, cookie_source, use_cookies)`, as the dictionary it leaves. */
  function CookieOptions(opts: map<string, Value>, source: CookieSource, useCookies: bool): (r: map<string, Value>)
    ensures forall k :: k in r ==> k in opts || k == "cookiefile" || k == "cookiesfrombrowser"
    ensures !useCookies ==> r == opts - {"cookiefile", "cookiesfrombrowser"}
  {
    var cleared := opts - {"cookiefile", "cookiesfrombrowser"};
    if !useCookies then cleared
    else if source.mode == "file" && Truthy(source.value) then cleared["cookiefile" := Str(AsText(source.value))]
    else if source.mode == "browser" && Truthy(source.value) then cleared["cookiesfrombrowser" := source.value]
    else cleared
  }

  /** Each cookie key is present exactly in its own mode, with that mode's value. */
  lemma CookieOptionsKeys(opts: map<string, Value>, source: CookieSource, useCookies: bool)
    ensures var r := CookieOptions(opts, source, useCookies);
      ("cookiefile" in r <==> useCookies && source.mode == "file" && Truthy(source.value))
      && ("cookiefile" in r ==> r["cookiefile"] == Str(AsText(source.value)))
    ensures var r := CookieOptions(opts, source, useCookies);
      ("cookiesfrombrowser" in r <==> useCookies && source.mode == "browser" && Truthy(source.value))
      && ("cookiesfrombrowser" in r ==> r["cookiesfrombrowser"] == source.value)
  {
  }

  /** At most one of the two cookie keys is left, and none without cookies or in mode "none". */
  lemma CookieOptionsAtMostOne(opts: map<string, Value>, source: CookieSource, useCookies: bool)
    ensures var r := CookieOptions(opts, source, useCookies);
      !("cookiefile" in r && "cookiesfrombrowser" in r)
      && (!useCookies || source.mode == "none" ==> "cookiefile" !in r && "cookiesfrombrowser" !in r)
  {
    var r := CookieOptions(opts, source, useCookies);
    var cleared := opts - {"cookiefile", "cookiesfrombrowser"};
    assert "cookiefile" !in cleared && "cookiesfrombrowser" !in cleared;
  }

  /** Every other key keeps its value. */
  lemma CookieOptionsOthersUnchanged(opts: map<string, Value>, source: CookieSource, useCookies: bool, key: string)
    requires key != "cookiefile" && key != "cookiesfrombrowser"
    ensures var r := CookieOptions(opts, source, useCookies);
      (key in r <==> key in opts) && (key in r ==> r[key] == opts[key])
  {
  }

  /** With the detected source, the options name exactly the file or the browser that was found. */
  lemma DetectedSourceApplied(opts: map<string, Value>, disk: Disk, valid: string -> bool)
    ensures var r := CookieOptions(opts, DetectedSource(disk, valid), true);
      match CookieFile(disk)
      case Some(path) => r == (opts - {"cookiefile", "cookiesfrombrowser"})["cookiefile" := Str(path)]
      case None =>
        match FirstWhere(DefaultBrowsers, valid)
        case Some(b) => r == (opts - {"cookiefile", "cookiesfrombrowser"})["cookiesfrombrowser" := List([Str(b)])]
        case None => r == opts - {"cookiefile", "cookiesfrombrowser"}
  {
  }

  /** The loop over the browsers. */
  method FirstValidBrowser(browsers: seq<string>, valid: string -> bool) returns (found: Option<string>)
    ensures found == FirstWhere(browsers, valid)
  {
    var k := 0;
    while k < |browsers|
      invariant 0 <= k <= |browsers|
      invariant FirstWhere(browsers[k..], valid) == FirstWhere(browsers, valid)
    {
      var browser := browsers[k];
      if valid(browser) {
        return Some(browser);
      }
      assert browsers[k..][1..] == browsers[k + 1..];
      k := k + 1;
    }
    return None;
  }

  method DetectCookieSource(disk: Disk, valid: string -> bool) returns (source: CookieSource)
    ensures source == DetectedSource(disk, valid)
  {
    var cookieFile := FindCookieFile(disk);
    if cookieFile.Some? {
      return CookieSource("file", Str(cookieFile.value), "cookie file: " + cookieFile.value);
    }
    var browser := FirstValidBrowser(DefaultBrowsers, valid);
    if browser.Some? {
      return CookieSource("browser", List([Str(browser.value)]), "browser cookies: " + browser.value);
    }
    return NoCookies;
  }

  method ApplyCookieSource(opts: OptionsDict, source: CookieSource, useCookies: bool)
    modifies opts
    ensures opts.entries == CookieOptions(old(opts.entries), source, useCookies)
  {
    opts.Pop("cookiefile");
    opts.Pop("cookiesfrombrowser");
    if !useCookies {
      return;
    }
    if source.mode == "file" && Truthy(source.value) {
      opts.Set("cookiefile", Str(AsText(source.value)));
    } else if source.mode == "browser" && Truthy(source.value) {
      opts.Set("cookiesfrombrowser", source.value);
    }
  }
}
