/** Normalisation of the configured server URL so that it points at the API root.

    The URL is handled as the six components that the URL library splits it into;
    splitting a string into them and joining them back are library calls, passed in
    as function parameters where the string form is needed. */
module Utils {

  /** The six components of a split URL, in the library's order. */
  datatype UrlParts = UrlParts(
    scheme: string,
    netloc: string,
    path: string,
    params: string,
    query: string,
    fragment: string)

  /** The path segment under which every endpoint of the server is served. */
  const ApiRoot: string := "/api"

  predicate EndsWith(s: string, suffix: string) {
    |suffix| <= |s| && s[|s| - |suffix|..] == suffix
  }

  /** Removes one trailing '/', if there is one; never more than one. */
  function StripTrailingSlash(path: string): (r: string)
    ensures |path| - 1 <= |r| <= |path|
    ensures r == path[..|r|]
    ensures r != path <==> EndsWith(path, "/")
  {
    if EndsWith(path, "/") then path[..|path| - 1] else path
  }

  /** The path transform: strip one trailing '/', then append the API root unless
      the path already ends with it. Defined for every string. */
  function NormalizePath(path: string): (r: string)
    ensures EndsWith(r, ApiRoot)
  {
    var stripped := StripTrailingSlash(path);
    if EndsWith(stripped, ApiRoot) then stripped else stripped + ApiRoot
  }

  /** Only the path component is replaced; the other five are carried over. */
  function NormalizeUrl(u: UrlParts): (r: UrlParts)
    ensures EndsWith(r.path, ApiRoot)
    ensures r.scheme == u.scheme && r.netloc == u.netloc && r.params == u.params
    ensures r.query == u.query && r.fragment == u.fragment
    ensures r.path == NormalizePath(u.path)
  {
    u.(path := NormalizePath(u.path))
  }

  /** The string form: split with `urlparse`, normalise, join with `urlunparse`. */
  function ParseServerUrl(
    serverUrl: string,
    urlparse: string -> UrlParts,
    urlunparse: UrlParts -> string): (r: string)
    ensures urlparse(r) == NormalizeUrl(urlparse(serverUrl)) ==> EndsWith(urlparse(r).path, ApiRoot)
    ensures EndsWith(urlparse(serverUrl).path, ApiRoot) ==> r == urlunparse(urlparse(serverUrl))
  {
    var u := urlparse(serverUrl);
    assert EndsWith(u.path, ApiRoot) ==> NormalizeUrl(u) == u by {
      if EndsWith(u.path, ApiRoot) {
        ApiRootHasNoTrailingSlash(u.path);
      }
    }
    urlunparse(NormalizeUrl(u))
  }

  lemma EndsWithLast(s: string, c: char)
    ensures EndsWith(s, [c]) <==> |s| > 0 && s[|s| - 1] == c
  {
    if |s| > 0 {
      assert s[|s| - 1..] == [s[|s| - 1]];
    }
  }

  /** A path that ends with the API root has no trailing '/'. */
  lemma ApiRootHasNoTrailingSlash(s: string)
    requires EndsWith(s, ApiRoot)
    ensures !EndsWith(s, "/")
  {
    EndsWithLast(s, '/');
    assert s[|s| - 1] == s[|s| - |ApiRoot|..][3] == 'i';
  }

  /** Normalising a normalised path changes nothing. */
  lemma NormalizePathIdempotent(path: string)
    ensures NormalizePath(NormalizePath(path)) == NormalizePath(path)
  {
    var r := NormalizePath(path);
    ApiRootHasNoTrailingSlash(r);
    assert StripTrailingSlash(r) == r;
  }

  /** Normalising a normalised URL changes nothing. */
  lemma NormalizeUrlIdempotent(u: UrlParts)
    ensures NormalizeUrl(NormalizeUrl(u)) == NormalizeUrl(u)
  {
    NormalizePathIdempotent(u.path);
  }

  /** When the path, after dropping one trailing '/', already ends with the API
      root, the result is exactly that path: `/api/` gives `/api`. */
  lemma NormalizePathKeepsExistingRoot(path: string)
    requires EndsWith(StripTrailingSlash(path), ApiRoot)
    ensures NormalizePath(path) == StripTrailingSlash(path)
  {
  }

  /** Otherwise the API root is appended to that path: `` and `/` both give `/api`. */
  lemma NormalizePathAppendsRoot(path: string)
    requires !EndsWith(StripTrailingSlash(path), ApiRoot)
    ensures NormalizePath(path) == StripTrailingSlash(path) + ApiRoot
  {
  }

  /** Only one trailing '/' is dropped: a path ending with `//` keeps one slash
      before the API root, so `/x//` becomes `/x//api`. */
  lemma NormalizePathDropsOneSlash(path: string)
    requires EndsWith(path, "//")
    ensures NormalizePath(path) == path + "api"
  {
    var n := |path|;
    assert path[n - 2..] == "//";
    assert path[n - 2] == '/' && path[n - 1] == '/';
    EndsWithLast(path, '/');
    var s := StripTrailingSlash(path);
    assert s == path[..n - 1];
    EndsWithLast(s, '/');
    assert s[|s| - 1] == '/';
    ApiRootNotEndingInSlash(s);
    assert path == s + "/";
    assert s + ApiRoot == (s + "/") + "api";
  }

  lemma ApiRootNotEndingInSlash(s: string)
    requires |s| > 0 && s[|s| - 1] == '/'
    ensures !EndsWith(s, ApiRoot)
  {
    if EndsWith(s, ApiRoot) {
      ApiRootHasNoTrailingSlash(s);
      EndsWithLast(s, '/');
    }
  }

  /** The API root may end up twice: `/x/api/api` is left as it is, so the result
      is promised to end with the API root, not to contain it once. */
  lemma RootMayRepeat()
    ensures NormalizePath("/x/api/api") == "/x/api/api"
  {
    assert EndsWith("/x/api/api", ApiRoot);
  }

  /** Example: `https://photos.example.com/` becomes
      `https://photos.example.com/api`, component by component. */
  lemma NormalizeUrlExample()
    ensures NormalizeUrl(UrlParts("https", "photos.example.com", "/", "", "", ""))
         == UrlParts("https", "photos.example.com", "/api", "", "", "")
  {
    assert StripTrailingSlash("/") == "";
    assert !EndsWith("", ApiRoot);
  }

  /** Whenever the URL library parses back what it joined, the string form is
      idempotent too and its path ends with the API root. */
  lemma ParseServerUrlIdempotent(
    serverUrl: string,
    urlparse: string -> UrlParts,
    urlunparse: UrlParts -> string)
    requires urlparse(urlunparse(NormalizeUrl(urlparse(serverUrl)))) == NormalizeUrl(urlparse(serverUrl))
    ensures EndsWith(urlparse(ParseServerUrl(serverUrl, urlparse, urlunparse)).path, ApiRoot)
    ensures ParseServerUrl(ParseServerUrl(serverUrl, urlparse, urlunparse), urlparse, urlunparse)
         == ParseServerUrl(serverUrl, urlparse, urlunparse)
  {
    NormalizeUrlIdempotent(urlparse(serverUrl));
  }
}
