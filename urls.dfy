/**
 * The URL canonicaliser: `normalize_video_url` turns one loosely written
 * reference to a YouTube video into `https://www.youtube.com/watch?v=<id>` or
 * into "" (no match), and `extract_urls` turns free text into the list of
 * distinct canonical URLs in the order of their first appearance.
 *
 * `urllib.parse.urlparse` and `parse_qs` are modelled by `UrlParse` and
 * `QueryPairs`, written after CPython's `urlsplit`, `urlparse` and `parse_qsl`.
 */
module Urls {
  import opened Common
  import opened Text

  const WatchPrefix: string := "https://www.youtube.com/watch?v="

  /** The characters of `[A-Za-z0-9_-]`. */
  predicate IsIdChar(c: char) {
    IsAsciiLetter(c) || IsDigit(c) || c == '_' || c == '-'
  }

  /** `VIDEO_ID_PATTERN.fullmatch(s)` for the pattern `^[A-Za-z0-9_-]{11}$`. */
  predicate IsVideoId(s: string) {
    |s| == 11 && forall c :: c in s ==> IsIdChar(c)
  }

  /** The canonical form of a video id. */
  function WatchUrl(id: string): string {
    WatchPrefix + id
  }

  /** A canonical watch URL: the watch page of some video id. */
  ghost predicate IsCanonical(u: string) {
    exists id :: IsVideoId(id) && u == WatchUrl(id)
  }

  /** The parts of a parsed URL that the canonicaliser reads. */
  datatype Url = Url(scheme: string, netloc: string, path: string, query: string)

  /** `_UNSAFE_URL_BYTES_TO_REMOVE`: tab, carriage return and line feed, removed everywhere. */
  predicate IsUnsafeUrlChar(c: char) { c == '\t' || c == '\r' || c == '\n' }

  function RemoveUnsafe(s: string): (r: string)
    ensures forall c :: c in r ==> c in s && !IsUnsafeUrlChar(c)
  {
    if s == [] then []
    else if IsUnsafeUrlChar(s[0]) then RemoveUnsafe(s[1..])
    else [s[0]] + RemoveUnsafe(s[1..])
  }

  lemma {:induction false} RemoveUnsafeUnchanged(s: string)
    requires forall c :: c in s ==> !IsUnsafeUrlChar(c)
    ensures RemoveUnsafe(s) == s
  {
    if s != [] {
      assert s[0] in s;
      assert forall c :: c in s[1..] ==> c in s;
      RemoveUnsafeUnchanged(s[1..]);
    }
  }

  /** `scheme_chars`: ASCII letters, digits and `+ - .`. */
  predicate IsSchemeChar(c: char) {
    IsAsciiLetter(c) || IsDigit(c) || c == '+' || c == '-' || c == '.'
  }

  /** `uses_params`: the schemes whose path may carry `;parameters`. */
  const UsesParams: set<string> := {"", "ftp", "hdl", "prospero", "http", "imap", "https", "shttp",
    "rtsp", "rtsps", "rtspu", "sip", "sips", "mms", "sftp", "tel"}

  /** `_splitparams(url)[0]`: the path without its `;parameters` after the last `/`. */
  function WithoutParams(path: string): (r: string)
    ensures StartsWith(path, r)
  {
    var slash := LastIndexOf(path, '/');
    if slash >= 0 then
      var semi := IndexOf(path[slash..], ';');
      if semi == |path[slash..]| then path else path[..slash + semi]
    else path[..IndexOf(path, ';')]
  }

  /** The first steps of `urlsplit`: strip C0 controls and spaces on the left, drop tab, CR and LF. */
  function Prepare(value: string): string {
    RemoveUnsafe(LStrip(value, ControlOrSpace))
  }

  /** A scheme is what precedes the first `:` when it starts with an ASCII letter and is made of scheme characters. */
  function SplitScheme(url: string): (string, string) {
    var colon := IndexOf(url, ':');
    if 0 < colon < |url| && IsAsciiLetter(url[0]) && forall j | 0 <= j < colon :: IsSchemeChar(url[j])
    then (Lower(url[..colon]), url[colon + 1..])
    else ("", url)
  }

  /** `_splitnetloc(url, 2)` after a leading `//`: the network location runs up to the first `/`, `?` or `#`. */
  function SplitNetloc(url: string): (string, string) {
    if StartsWith(url, "//") then
      var rest := url[2..];
      var delim := Min3(IndexOf(rest, '/'), IndexOf(rest, '?'), IndexOf(rest, '#'));
      (rest[..delim], rest[delim..])
    else ("", url)
  }

  /** The fragment is dropped after the first `#`; the query follows the first `?` before it. */
  function SplitQuery(url: string): (string, string) {
    var beforeFragment := url[..IndexOf(url, '#')];
    var question := IndexOf(beforeFragment, '?');
    (beforeFragment[..question], if question < |beforeFragment| then beforeFragment[question + 1..] else "")
  }

  /** `urlparse(value)`, or `None` where it raises `ValueError` (an unmatched IPv6 bracket). */
  function UrlParse(value: string): Option<Url> {
    var (scheme, afterScheme) := SplitScheme(Prepare(value));
    var (netloc, afterNetloc) := SplitNetloc(afterScheme);
    if ('[' in netloc) != (']' in netloc) then None
    else
      var (path0, query) := SplitQuery(afterNetloc);
      var path := if scheme in UsesParams && ';' in path0 then WithoutParams(path0) else path0;
      Some(Url(scheme, netloc, path, query))
  }

  function Min3(a: nat, b: nat, c: nat): (m: nat)
    ensures m <= a && m <= b && m <= c && (m == a || m == b || m == c)
  {
    if a <= b && a <= c then a else if b <= c then b else c
  }

  predicate IsHexDigit(c: char) { IsDigit(c) || 'a' <= c <= 'f' || 'A' <= c <= 'F' }

  function HexValue(c: char): (v: nat)
    requires IsHexDigit(c)
    ensures v < 16
  {
    if IsDigit(c) then c as int - '0' as int
    else if 'a' <= c <= 'f' then c as int - 'a' as int + 10
    else c as int - 'A' as int + 10
  }

  /**
   * `unquote(s)`: each `%XX` escape is decoded. An escape of a byte below 0x80
   * gives that ASCII character; one of a higher byte gives U+FFFD, where CPython
   * decodes the byte run as UTF-8 — either way a character that is not ASCII.
   */
  function Unquote(s: string): (r: string)
    decreases |s|
  {
    if s == [] then []
    else if s[0] == '%' && |s| >= 3 && IsHexDigit(s[1]) && IsHexDigit(s[2]) then
      var b := 16 * HexValue(s[1]) + HexValue(s[2]);
      [if b < 128 then b as char else '\U{FFFD}'] + Unquote(s[3..])
    else [s[0]] + Unquote(s[1..])
  }

  lemma {:induction false} UnquoteUnchanged(s: string)
    requires '%' !in s
    ensures Unquote(s) == s
  {
    if s != [] {
      UnquoteUnchanged(s[1..]);
    }
  }

  /** `parse_qsl(query)` with blank values dropped, both halves `+`-to-space replaced and unquoted. */
  function QueryPairs(query: string): seq<(string, string)> {
    if query == "" then [] else PairsOf(Split(query, '&'))
  }

  function PairsOf(args: seq<string>): seq<(string, string)> {
    if args == [] then []
    else
      var nv := args[0];
      var eq := IndexOf(nv, '=');
      if nv == "" || eq == |nv| || nv[eq + 1..] == "" then PairsOf(args[1..])
      else [(Unquote(ReplaceChar(nv[..eq], '+', ' ')), Unquote(ReplaceChar(nv[eq + 1..], '+', ' ')))]
           + PairsOf(args[1..])
  }

  /** `parse_qs(query).get(key)[0]`: the first value given for `key`, if any. */
  function FirstValue(pairs: seq<(string, string)>, key: string): (r: Option<string>)
    ensures r.Some? ==> (key, r.value) in pairs
  {
    if pairs == [] then None
    else if pairs[0].0 == key then Some(pairs[0].1)
    else FirstValue(pairs[1..], key)
  }

  /** `(raw or "").strip().strip('"').strip("'").strip(",")`. */
  function Trimmed(raw: string): string {
    StripEach(raw, TrimClasses)
  }

  const TrimClasses: seq<CharClass> := [Whitespace, AnyOf({'"'}), AnyOf({'\''}), AnyOf({','})]

  function CanonicalIfId(candidate: string): (r: string)
    ensures r == "" || (IsVideoId(candidate) && r == WatchUrl(candidate))
  {
    if IsVideoId(candidate) then WatchUrl(candidate) else ""
  }

  /** Bare host-and-path forms of the known hosts get an `https://` scheme before parsing. */
  function WithScheme(value: string): string {
    if StartsWith(value, "youtube.com/") || StartsWith(value, "youtu.be/") || StartsWith(value, "www.youtube.com/")
    then "https://" + value else value
  }

  /** The id a parsed URL names, by host: short link, watch page or an embedded path. */
  function FromParsed(parsed: Url): (r: string)
    ensures r == "" || IsCanonical(r)
  {
    var netloc := Lower(parsed.netloc);
    if Contains(netloc, "youtu.be") then
      CanonicalIfId(Split(Strip(parsed.path, AnyOf({'/'})), '/')[0])
    else if Contains(netloc, "youtube.com") then
      if parsed.path == "/watch" then
        match FirstValue(QueryPairs(parsed.query), "v")
        case None => ""
        case Some(candidate) => CanonicalIfId(candidate)
      else
        var parts := NonEmpty(Split(parsed.path, '/'));
        if |parts| >= 2 && parts[0] in {"shorts", "embed", "live"} then CanonicalIfId(parts[1])
        else ""
    else ""
  }

  /** `normalize_video_url(raw)`: the canonical watch URL, or "" when nothing matches. */
  function NormalizeVideoUrl(raw: string): (r: string)
    ensures r == "" || IsCanonical(r)
  {
    var value := Trimmed(raw);
    if value == "" then ""
    else if IsVideoId(value) then WatchUrl(value)
    else
      match UrlParse(WithScheme(value))
      case None => ""
      case Some(parsed) => FromParsed(parsed)
  }

  // ---------------------------------------------------------------------------
  // How `UrlParse` splits the URLs that the canonicaliser is meant to accept.

  /** A host with none of the characters that end a network location or upset `urlsplit`. */
  predicate PlainHost(host: string) {
    '/' !in host && '?' !in host && '#' !in host && '[' !in host && ']' !in host
    && '\t' !in host && '\r' !in host && '\n' !in host
  }

  /** A path with no query, fragment or parameters in it. */
  predicate PlainPath(path: string) {
    '?' !in path && '#' !in path && ';' !in path && '\t' !in path && '\r' !in path && '\n' !in path
  }

  predicate PlainQuery(query: string) {
    '#' !in query && '\t' !in query && '\r' !in query && '\n' !in query
  }

  lemma PrepareUnchanged(value: string)
    requires value != [] && !InClass(value[0], ControlOrSpace)
    requires '\t' !in value && '\r' !in value && '\n' !in value
    ensures Prepare(value) == value
  {
    RemoveUnsafeUnchanged(value);
  }

  lemma SchemeHttps(rest: string)
    ensures SplitScheme("https:" + rest) == ("https", rest)
  {
    var url := "https:" + rest;
    assert url[..5] == "https";
    IndexOfIs(url, ':', 5);
    LowerUnchanged("https");
  }

  lemma NetlocOf(host: string, rest: string)
    requires PlainHost(host) && |rest| > 0 && rest[0] == '/'
    ensures SplitNetloc("//" + host + rest) == (host, rest)
  {
    var url := "//" + host + rest;
    assert StartsWith(url, "//");
    var r := url[2..];
    assert r == host + rest;
    assert r[..|host|] == host;
    IndexOfIs(r, '/', |host|);
    IndexOfAtLeast(r, '?', |host|);
    IndexOfAtLeast(r, '#', |host|);
    assert r[..|host|] == host && r[|host|..] == rest;
  }

  lemma QueryOf(path: string, query: string)
    requires PlainPath(path) && PlainQuery(query)
    ensures SplitQuery(path + (if query == "" then "" else "?" + query)) == (path, query)
  {
    var url := path + (if query == "" then "" else "?" + query);
    if query == "" {
      assert url == path;
      NoQueryOf(path);
    } else {
      assert url == path + "?" + query;
      SomeQueryOf(path, query);
    }
  }

  lemma NoQueryOf(path: string)
    requires PlainPath(path)
    ensures SplitQuery(path) == (path, "")
  {
    IndexOfIs(path, '#', |path|);
    assert path[..|path|] == path;
    IndexOfIs(path, '?', |path|);
  }

  lemma SomeQueryOf(path: string, query: string)
    requires PlainPath(path) && PlainQuery(query)
    ensures SplitQuery(path + "?" + query) == (path, query)
  {
    var url := path + "?" + query;
    assert '#' !in url;
    IndexOfIs(url, '#', |url|);
    assert url[..|url|] == url;
    assert url[..|path|] == path;
    IndexOfIs(url, '?', |path|);
    assert url[|path| + 1..] == query;
  }


  /** `UrlParse` put together from what its stages give. */
  lemma UrlParseOfStages(value: string, rest: string, netloc: string, afterNetloc: string, path: string, query: string)
    requires Prepare(value) == value && SplitScheme(value) == ("https", rest)
    requires SplitNetloc(rest) == (netloc, afterNetloc) && '[' !in netloc && ']' !in netloc
    requires SplitQuery(afterNetloc) == (path, query) && ';' !in path
    ensures UrlParse(value) == Some(Url("https", netloc, path, query))
  {
  }

  lemma HttpsShape(host: string, path: string, tail: string)
    ensures "https://" + host + path + tail == "https:" + ("//" + host + (path + tail))
  {
  }

  /** An `https` URL made of a plain host, a plain path and an optional query parses into those parts. */
  lemma ParseHttps(host: string, path: string, query: string)
    requires PlainHost(host) && PlainPath(path) && PlainQuery(query)
    requires |path| > 0 && path[0] == '/'
    ensures UrlParse("https://" + host + path + (if query == "" then "" else "?" + query))
         == Some(Url("https", host, path, query))
  {
    var tail := if query == "" then "" else "?" + query;
    var value := "https://" + host + path + tail;
    PrepareUnchanged(value);
    HttpsShape(host, path, tail);
    SchemeHttps("//" + host + (path + tail));
    NetlocOf(host, path + tail);
    QueryOf(path, query);
    UrlParseOfStages(value, "//" + host + (path + tail), host, path + tail, path, query);
  }

  // ---------------------------------------------------------------------------
  // Facts about video ids and the host tests.

  lemma IdExcludes(id: string, c: char)
    requires IsVideoId(id) && !IsIdChar(c)
    ensures c !in id
  {
  }

  /** An id character is in none of the classes the cleaning strips. */
  lemma IdCharOutside(c: char, classes: seq<CharClass>)
    requires IsIdChar(c) && classes == TrimClasses
    ensures forall k :: 0 <= k < |classes| ==> !InClass(c, classes[k])
  {
    assert !IsSpace(c);
  }

  /** A string whose two ends are neither whitespace nor `" ' ,` survives the first cleaning. */
  lemma TrimmedUnchanged(s: string)
    requires s != []
    requires IsIdChar(s[0]) && IsIdChar(s[|s| - 1])
    ensures Trimmed(s) == s
  {
    IdCharOutside(s[0], TrimClasses);
    IdCharOutside(s[|s| - 1], TrimClasses);
    StripEachUnchanged(s, TrimClasses);
  }

  lemma NotShortLinkHost()
    ensures !Contains("www.youtube.com", "youtu.be") && !Contains("youtube.com", "youtu.be")
  {
    var t := "youtu.be";
    var s1 := "www.youtube.com";
    forall i | 0 <= i <= |s1| - |t|
      ensures !OccursAt(s1, t, i)
    {
      MismatchAt(s1, t, i, if s1[i] == 'y' then 5 else 0);
    }
    var s2 := "youtube.com";
    forall i | 0 <= i <= |s2| - |t|
      ensures !OccursAt(s2, t, i)
    {
      MismatchAt(s2, t, i, if s2[i] == 'y' then 5 else 0);
    }
  }

  lemma MainHosts()
    ensures Contains("www.youtube.com", "youtube.com") && Contains("youtube.com", "youtube.com")
    ensures Contains("youtu.be", "youtu.be")
  {
    assert OccursAt("www.youtube.com", "youtube.com", 4);
    assert OccursAt("youtube.com", "youtube.com", 0);
    assert OccursAt("youtu.be", "youtu.be", 0);
  }

  lemma WatchQuery(id: string)
    requires IsVideoId(id)
    ensures FirstValue(QueryPairs("v=" + id), "v") == Some(id)
  {
    var nv := "v=" + id;
    IdExcludes(id, '&');
    IdExcludes(id, '=');
    IdExcludes(id, '+');
    IdExcludes(id, '%');
    assert Split(nv, '&') == [nv];
    IndexOfIs(nv, '=', 1);
    assert nv[..1] == "v" && nv[2..] == id;
    ReplaceCharAbsent("v", '+', ' ');
    ReplaceCharAbsent(id, '+', ' ');
    UnquoteUnchanged("v");
    UnquoteUnchanged(id);
    assert PairsOf([nv]) == [("v", id)] + PairsOf([]);
  }

  /** What the canonicaliser needs to know about a main (non short-link) host. */
  predicate MainHost(host: string) {
    PlainHost(host) && Lower(host) == host && !Contains(host, "youtu.be") && Contains(host, "youtube.com")
  }

  /** Letters, digits, dots and dashes: the characters of the hosts that are matched. */
  predicate IsHostChar(c: char) {
    IsAsciiLetter(c) || IsDigit(c) || c == '.' || c == '-'
  }

  predicate HostChars(host: string) {
    forall i :: 0 <= i < |host| ==> IsHostChar(host[i])
  }

  lemma HostCharsPlain(host: string)
    requires HostChars(host)
    ensures PlainHost(host)
  {
  }

  lemma PlainWwwHost()
    ensures PlainHost("www.youtube.com")
  {
    assert HostChars("www.youtube.com");
    HostCharsPlain("www.youtube.com");
  }

  lemma PlainBareHost()
    ensures PlainHost("youtube.com")
  {
    assert HostChars("youtube.com");
    HostCharsPlain("youtube.com");
  }

  lemma LowerMainHosts()
    ensures Lower("www.youtube.com") == "www.youtube.com" && Lower("youtube.com") == "youtube.com"
  {
    LowerUnchanged("www.youtube.com");
    LowerUnchanged("youtube.com");
  }

  lemma MainHostsAreMain(host: string)
    requires host == "www.youtube.com" || host == "youtube.com"
    ensures MainHost(host)
  {
    PlainWwwHost();
    PlainBareHost();
    LowerMainHosts();
    NotShortLinkHost();
    MainHosts();
  }

  /** A cleaned value that is not itself an id goes through the parser. */
  lemma NormalizeParses(raw: string)
    requires raw != [] && Trimmed(raw) == raw && !IsVideoId(raw)
    ensures NormalizeVideoUrl(raw) == match UrlParse(WithScheme(raw)) case None => "" case Some(p) => FromParsed(p)
  {
  }

  /** A value cleaned to itself, not an id, that becomes `url` once a scheme is supplied. */
  predicate ParsedAs(value: string, url: string) {
    value != [] && Trimmed(value) == value && !IsVideoId(value) && WithScheme(value) == url
  }

  lemma NormalizeVia(value: string, url: string, parsed: Url)
    requires ParsedAs(value, url) && UrlParse(url) == Some(parsed)
    ensures NormalizeVideoUrl(value) == FromParsed(parsed)
  {
    NormalizeParses(value);
  }

  /** A watch page on a main host parses and names its id. */
  lemma WatchParsed(host: string, id: string)
    requires MainHost(host) && IsVideoId(id)
    ensures UrlParse("https://" + host + "/watch?v=" + id) == Some(Url("https", host, "/watch", "v=" + id))
    ensures FromParsed(Url("https", host, "/watch", "v=" + id)) == WatchUrl(id)
  {
    IdExcludes(id, '#');
    IdExcludes(id, '\t');
    IdExcludes(id, '\r');
    IdExcludes(id, '\n');
    assert "https://" + host + "/watch?v=" + id == "https://" + host + "/watch" + ("?" + ("v=" + id));
    ParseHttps(host, "/watch", "v=" + id);
    WatchQuery(id);
  }

  /** What the canonicaliser needs to know about the short-link host. */
  predicate ShortHost(host: string) {
    PlainHost(host) && Lower(host) == host && Contains(host, "youtu.be")
  }

  lemma ShortHostIsShort()
    ensures ShortHost("youtu.be")
  {
    LowerUnchanged("youtu.be");
    assert HostChars("youtu.be");
    HostCharsPlain("youtu.be");
    MainHosts();
  }

  /** A short link parses with the id as its whole path. */
  lemma ShortParsed(host: string, id: string)
    requires ShortHost(host) && IsVideoId(id)
    ensures UrlParse("https://" + host + "/" + id) == Some(Url("https", host, "/" + id, ""))
    ensures FromParsed(Url("https", host, "/" + id, "")) == WatchUrl(id)
  {
    IdExcludes(id, '?');
    IdExcludes(id, '#');
    IdExcludes(id, ';');
    IdExcludes(id, '/');
    IdExcludes(id, '\t');
    IdExcludes(id, '\r');
    IdExcludes(id, '\n');
    assert "https://" + host + "/" + id == "https://" + host + ("/" + id) + "";
    ParseHttps(host, "/" + id, "");
    StripLeading('/', id, AnyOf({'/'}));
    assert Split(id, '/') == [id];
  }

  predicate EmbedKind(kind: string) {
    kind in {"shorts", "embed", "live"}
  }

  lemma EmbedKindPlain(kind: string)
    requires EmbedKind(kind)
    ensures kind != "" && '/' !in kind && PlainPath(kind)
  {
  }

  /** A path of one plain segment and an id splits into just those two non-empty pieces. */
  lemma SegmentsOf(kind: string, id: string)
    requires kind != "" && id != "" && '/' !in kind && '/' !in id
    ensures NonEmpty(Split("/" + kind + "/" + id, '/')) == [kind, id]
  {
    assert "/" + kind + "/" + id == "" + ['/'] + (kind + ['/'] + id);
    SplitAt("", kind + ['/'] + id, '/');
    SplitAt(kind, id, '/');
    assert Split(id, '/') == [id];
    assert Split("/" + kind + "/" + id, '/') == ["", kind, id];
    NonEmptySnoc([], "");
    assert [""] == [] + [""];
    NonEmptySnoc([""], kind);
    assert ["", kind] == [""] + [kind];
    NonEmptySnoc(["", kind], id);
    assert ["", kind, id] == ["", kind] + [id];
  }

  /** A `/KIND/ID` path on a main host parses into its host and path. */
  lemma EmbedParsed(host: string, kind: string, id: string)
    requires MainHost(host) && kind != "" && '/' !in kind && PlainPath(kind) && IsVideoId(id)
    ensures UrlParse("https://" + host + "/" + kind + "/" + id) == Some(Url("https", host, "/" + kind + "/" + id, ""))
  {
    var path := "/" + kind + "/" + id;
    IdExcludes(id, '?');
    IdExcludes(id, '#');
    IdExcludes(id, ';');
    IdExcludes(id, '\t');
    IdExcludes(id, '\r');
    IdExcludes(id, '\n');
    assert "https://" + host + "/" + kind + "/" + id == "https://" + host + path + "";
    ParseHttps(host, path, "");
  }

  /** For the three embedding kinds, a `/KIND/ID` path on a main host names its id. */
  lemma EmbedNamed(host: string, kind: string, id: string)
    requires MainHost(host) && kind != "" && '/' !in kind && EmbedKind(kind) && IsVideoId(id)
    ensures FromParsed(Url("https", host, "/" + kind + "/" + id, "")) == WatchUrl(id)
  {
    var path := "/" + kind + "/" + id;
    IdExcludes(id, '/');
    assert |path| > 6;
    SegmentsOf(kind, id);
  }

  /** The bare host-and-path forms are completed with the `https` scheme. */
  lemma BareWithScheme(host: string, rest: string)
    requires host in {"youtube.com", "www.youtube.com", "youtu.be"}
    requires |rest| > 0 && rest[0] == '/'
    ensures WithScheme(host + rest) == "https://" + host + rest
  {
    var value := host + rest;
    assert value[..|host| + 1] == host + "/";
  }

  /** A URL that already has a scheme is parsed as it stands. */
  lemma HttpsWithScheme(value: string)
    requires StartsWith(value, "https://")
    ensures WithScheme(value) == value
  {
    assert value[..8][0] == 'h';
  }

  lemma WatchText(host: string, id: string)
    requires host == "www.youtube.com" || host == "youtube.com"
    ensures var url := "https://" + host + "/watch?v=" + id; StartsWith(url, "https://") && |url| > 11
    ensures host == "www.youtube.com" ==> "https://" + host + "/watch?v=" + id == WatchUrl(id)
  {
    var url := "https://" + host + "/watch?v=" + id;
    assert url[..8] == "https://";
  }

  lemma BareWatchText(host: string, id: string)
    requires host == "www.youtube.com" || host == "youtube.com"
    requires IsVideoId(id)
    ensures var bare := host + "/watch?v=" + id;
      WithScheme(bare) == "https://" + host + "/watch?v=" + id
      && |bare| > 11 && IsIdChar(bare[0]) && IsIdChar(bare[|bare| - 1])
  {
    var bare := host + "/watch?v=" + id;
    assert bare == host + ("/watch?v=" + id);
    BareWithScheme(host, "/watch?v=" + id);
    assert "https://" + host + ("/watch?v=" + id) == "https://" + host + "/watch?v=" + id;
    assert bare[|bare| - 1] == id[|id| - 1];
  }

  lemma ShortText(id: string)
    ensures var url := "https://youtu.be/" + id; StartsWith(url, "https://") && |url| > 11
    ensures "https://youtu.be/" + id == "https://" + "youtu.be" + "/" + id
    ensures "youtu.be/" + id == "youtu.be" + ("/" + id)
    ensures "https://" + "youtu.be" + ("/" + id) == "https://" + "youtu.be" + "/" + id
  {
    var url := "https://youtu.be/" + id;
    assert url[..8] == "https://";
  }

  lemma EmbedText(host: string, kind: string, id: string)
    ensures var url := "https://" + host + "/" + kind + "/" + id; StartsWith(url, "https://")
  {
    var url := "https://" + host + "/" + kind + "/" + id;
    assert url[..8] == "https://";
  }

  lemma CleanUrl(value: string)
    requires |value| > 11 && IsIdChar(value[0]) && IsIdChar(value[|value| - 1])
    ensures value != [] && Trimmed(value) == value && !IsVideoId(value)
  {
    TrimmedUnchanged(value);
  }

  lemma WatchPage(host: string, id: string, value: string)
    requires MainHost(host) && IsVideoId(id) && ParsedAs(value, "https://" + host + "/watch?v=" + id)
    ensures NormalizeVideoUrl(value) == WatchUrl(id)
  {
    WatchParsed(host, id);
    NormalizeVia(value, "https://" + host + "/watch?v=" + id, Url("https", host, "/watch", "v=" + id));
  }

  lemma ShortPage(host: string, id: string, value: string)
    requires ShortHost(host) && IsVideoId(id) && ParsedAs(value, "https://" + host + "/" + id)
    ensures NormalizeVideoUrl(value) == WatchUrl(id)
  {
    ShortParsed(host, id);
    NormalizeVia(value, "https://" + host + "/" + id, Url("https", host, "/" + id, ""));
  }

  lemma EmbedPage(host: string, kind: string, id: string, value: string)
    requires MainHost(host) && kind != "" && '/' !in kind && PlainPath(kind) && EmbedKind(kind) && IsVideoId(id)
    requires ParsedAs(value, "https://" + host + "/" + kind + "/" + id)
    ensures NormalizeVideoUrl(value) == WatchUrl(id)
  {
    EmbedParsed(host, kind, id);
    EmbedNamed(host, kind, id);
    NormalizeVia(value, "https://" + host + "/" + kind + "/" + id, Url("https", host, "/" + kind + "/" + id, ""));
  }

  // ---------------------------------------------------------------------------
  // The accepted forms.

  /** `https://www.youtube.com/watch?v=ID` and `https://youtube.com/watch?v=ID`. */
  lemma NormalizeWatchForm(host: string, id: string)
    requires host == "www.youtube.com" || host == "youtube.com"
    requires IsVideoId(id)
    ensures NormalizeVideoUrl("https://" + host + "/watch?v=" + id) == WatchUrl(id)
  {
    var url := "https://" + host + "/watch?v=" + id;
    WatchText(host, id);
    MainHostsAreMain(host);
    CleanUrl(url);
    HttpsWithScheme(url);
    WatchPage(host, id, url);
  }

  /** `www.youtube.com/watch?v=ID` and `youtube.com/watch?v=ID`, without a scheme. */
  lemma NormalizeBareWatchForm(host: string, id: string)
    requires host == "www.youtube.com" || host == "youtube.com"
    requires IsVideoId(id)
    ensures NormalizeVideoUrl(host + "/watch?v=" + id) == WatchUrl(id)
  {
    var bare := host + "/watch?v=" + id;
    MainHostsAreMain(host);
    BareWatchText(host, id);
    CleanUrl(bare);
    WatchPage(host, id, bare);
  }

  /** `https://youtu.be/ID`. */
  lemma NormalizeShortLink(id: string)
    requires IsVideoId(id)
    ensures NormalizeVideoUrl("https://youtu.be/" + id) == WatchUrl(id)
  {
    var url := "https://youtu.be/" + id;
    ShortText(id);
    ShortHostIsShort();
    CleanUrl(url);
    HttpsWithScheme(url);
    ShortPage("youtu.be", id, url);
  }

  /** `youtu.be/ID`, without a scheme. */
  lemma NormalizeBareShortLink(id: string)
    requires IsVideoId(id)
    ensures NormalizeVideoUrl("youtu.be/" + id) == WatchUrl(id)
  {
    var bare := "youtu.be/" + id;
    ShortText(id);
    ShortHostIsShort();
    CleanUrl(bare);
    BareWithScheme("youtu.be", "/" + id);
    ShortPage("youtu.be", id, bare);
  }

  /** `https://www.youtube.com/shorts/ID`, `.../embed/ID`, `.../live/ID`, with either main host. */
  lemma NormalizeEmbedded(host: string, kind: string, id: string)
    requires host == "www.youtube.com" || host == "youtube.com"
    requires EmbedKind(kind) && IsVideoId(id)
    ensures NormalizeVideoUrl("https://" + host + "/" + kind + "/" + id) == WatchUrl(id)
  {
    var url := "https://" + host + "/" + kind + "/" + id;
    EmbedText(host, kind, id);
    MainHostsAreMain(host);
    EmbedKindPlain(kind);
    CleanUrl(url);
    HttpsWithScheme(url);
    EmbedPage(host, kind, id, url);
  }

  /** A bare eleven-character id is taken as it is. */
  lemma NormalizeBareId(id: string)
    requires IsVideoId(id)
    ensures NormalizeVideoUrl(id) == WatchUrl(id)
  {
    TrimmedUnchanged(id);
  }

  /** The bare id, the short link and the watch page of one id all name the same video. */
  lemma NormalizeSameVideo(id: string)
    requires IsVideoId(id)
    ensures NormalizeVideoUrl(id) == NormalizeVideoUrl("https://youtu.be/" + id)
                                 == NormalizeVideoUrl("https://www.youtube.com/watch?v=" + id)
  {
    NormalizeBareId(id);
    NormalizeShortLink(id);
    NormalizeWatchForm("www.youtube.com", id);
    WatchText("www.youtube.com", id);
  }

  /** The canonical watch URL is a fixed point. */
  lemma NormalizeFixedPoint(id: string)
    requires IsVideoId(id)
    ensures NormalizeVideoUrl(WatchUrl(id)) == WatchUrl(id)
  {
    NormalizeWatchForm("www.youtube.com", id);
    WatchText("www.youtube.com", id);
  }

  /** Canonicalising twice changes nothing. */
  lemma NormalizeIdempotent(raw: string)
    ensures NormalizeVideoUrl(NormalizeVideoUrl(raw)) == NormalizeVideoUrl(raw)
  {
    CanonicalFixed(NormalizeVideoUrl(raw));
  }

  /** Every value the canonicaliser returns is left as it is. */
  lemma CanonicalFixed(r: string)
    requires r == "" || IsCanonical(r)
    ensures NormalizeVideoUrl(r) == r
  {
    if r == "" {
      assert Trimmed("") == "";
    } else {
      var id :| IsVideoId(id) && r == WatchUrl(id);
      NormalizeFixedPoint(id);
    }
  }
}
