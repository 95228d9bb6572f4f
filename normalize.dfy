/**
 * Address normalisation (`src/lib/normalize.js`). Parsing an address is the
 * platform's `URL` parser, which the model takes as a function argument:
 * it either refuses the text or gives back its host (with any non-default
 * port) and its pathname.
 */
module Normalize {
  import opened Text
  import opened Wrappers

  datatype ParsedUrl = ParsedUrl(host: string, pathname: string)

  /** `new URL(text)`: `None` where the constructor throws. */
  type UrlParser = string -> Option<ParsedUrl>

  /** `withScheme` */
  function WithScheme(s: string): (r: string)
    ensures s == "" ==> r == ""
    ensures StartsWith(s, "http://") || StartsWith(s, "https://") ==> r == s
    ensures s != "" ==> StartsWith(r, "http://") || StartsWith(r, "https://")
    ensures EndsWith(r, s)
  {
    if s == "" then s
    else if StartsWith(s, "http://") || StartsWith(s, "https://") then s
    else
      assert ("https://" + s)[..8] == "https://";
      "https://" + s
  }

  /** Adding a scheme twice adds it once. */
  lemma WithSchemeIdempotent(s: string)
    ensures WithScheme(WithScheme(s)) == WithScheme(s)
  {
  }

  datatype DomainInput = DomainInput(host: string, canonicalUrl: string)

  /** `normalizeDomainInput`: the lowercased host, and the canonical address always on https. */
  function NormalizeDomainInput(input: string, parse: UrlParser): (r: Result<DomainInput>)
    ensures r.Err? <==> parse(WithScheme(input)).None?
    ensures r.Ok? ==> r.value.host == ToLower(parse(WithScheme(input)).value.host)
    ensures r.Ok? ==> IsLower(r.value.host) && r.value.canonicalUrl == "https://" + r.value.host
  {
    match parse(WithScheme(input))
    case None => Err(Thrown("Invalid URL"))
    case Some(u) =>
      ToLowerIsLower(u.host);
      var host := ToLower(u.host);
      Ok(DomainInput(host, "https://" + host))
  }

  /** An `http` address and its `https` twin give the same domain whenever the parser sees the same host. */
  lemma DomainInputIgnoresScheme(rest: string, parse: UrlParser)
    requires parse("http://" + rest).Some? && parse("https://" + rest).Some?
    requires parse("http://" + rest).value.host == parse("https://" + rest).value.host
    ensures NormalizeDomainInput("http://" + rest, parse) == NormalizeDomainInput("https://" + rest, parse)
  {
    assert ("http://" + rest)[..7] == "http://";
    assert ("https://" + rest)[..8] == "https://";
  }

  /** The path rule: an empty pathname is `/`, and one trailing `/` is removed unless the path is `/`. */
  function NormalizePath(pathname: string): (p: string)
    ensures p != ""
    ensures p == "/" || StartsWith(pathname, p)
    ensures pathname != "" && pathname != "/" && EndsWith(pathname, "/") ==> |p| == |pathname| - 1
    ensures pathname == "" || pathname == "/" || !EndsWith(pathname, "/") ==> p == (if pathname == "" then "/" else pathname)
  {
    var path := if pathname == "" then "/" else pathname;
    if path != "/" && EndsWith(path, "/") then
      assert |path| >= 2;
      path[..|path| - 1]
    else path
  }

  /**
   * Only one slash goes: a path ending in `//` keeps a trailing `/` (`/a//`
   * becomes `/a/`), and normalising it again removes one more.
   */
  lemma NormalizePathOneSlash(pathname: string)
    requires |pathname| >= 3 && pathname[|pathname| - 2..] == "//"
    ensures NormalizePath(pathname) == pathname[..|pathname| - 1]
    ensures EndsWith(NormalizePath(pathname), "/")
    ensures NormalizePath(NormalizePath(pathname)) == pathname[..|pathname| - 2]
  {
    var n := |pathname|;
    assert pathname[n - 1] == '/' && pathname[n - 2] == '/';
    assert EndsWith(pathname, "/");
    var once := pathname[..n - 1];
    assert once[n - 2] == '/';
    assert EndsWith(once, "/") && once != "/";
    assert once[..n - 2] == pathname[..n - 2];
  }

  /** Normalising a path twice changes nothing unless it ended in two slashes. */
  lemma NormalizePathStable(pathname: string)
    requires pathname != "" && !(|pathname| >= 2 && pathname[|pathname| - 2..] == "//")
    ensures NormalizePath(NormalizePath(pathname)) == NormalizePath(pathname)
  {
  }

  datatype UrlInput = UrlInput(host: string, path: string, normalizedUrl: string)

  /** `normalizeUrlInput`: query and fragment are dropped; the address is always rebuilt on https. */
  function NormalizeUrlInput(input: string, parse: UrlParser): (r: Result<UrlInput>)
    ensures r.Err? <==> parse(WithScheme(input)).None?
    ensures r.Ok? ==> var u := parse(WithScheme(input)).value;
      && r.value.host == ToLower(u.host)
      && r.value.path == NormalizePath(u.pathname)
      && r.value.normalizedUrl == "https://" + r.value.host + r.value.path
  {
    match parse(WithScheme(input))
    case None => Err(Thrown("Invalid URL"))
    case Some(u) =>
      var host := ToLower(u.host);
      var pathname := if u.pathname != "" then u.pathname else "/";
      var path := if pathname == "" then "/" else pathname;
      var normalizedPath := if path != "/" && EndsWith(path, "/") then path[..|path| - 1] else path;
      var normalizedUrl := "https://" + host + (if normalizedPath == "/" then "/" else normalizedPath);
      Ok(UrlInput(host, if normalizedPath == "" then "/" else normalizedPath, normalizedUrl))
  }
}
