/**
 * The pure half of the base-path navigation adapter in `App.tsx`: the deploy
 * base, the in-app location read from a pathname (`getSnapshot`) and the URL
 * that `navigate` pushes.
 */
module Routing {
  import opened Wrappers
  import Url

  /**
   * The deploy base: the build-time `BASE_URL`, or `/` when it is missing or
   * empty (an empty string is falsy, so `||` falls through to the default).
   */
  function DeployBase(configured: Option<string>): (base: string)
    ensures base != ""
    ensures configured.Some? && configured.value != "" ==> base == configured.value
    ensures configured == None || configured == Some("") ==> base == "/"
  {
    match configured
    case Some(b) => if b != "" then b else "/"
    case None => "/"
  }

  /**
   * What the adapter assumes of the base: it starts with `/`, so that
   * `pushState` treats `base + ...` as a path from the origin rather than a
   * URL relative to the current one.
   */
  predicate ValidBase(base: string)
  {
    Url.Rooted(base)
  }

  /** The default base, and any configured base that starts with `/`, is one the adapter can use. */
  lemma DeployBaseValid(configured: Option<string>)
    requires configured == None || configured == Some("") || (configured.Some? && ValidBase(configured.value))
    ensures ValidBase(DeployBase(configured))
  {
  }

  /**
   * `getSnapshot`: a pathname under the base maps to what follows the base,
   * or to `/` when nothing follows; any other pathname is returned as it is.
   */
  function Snapshot(pathname: string, base: string): (route: string)
    ensures base <= pathname && pathname == base ==> route == "/"
    ensures base <= pathname && pathname != base ==> base + route == pathname
    ensures !(base <= pathname) ==> route == pathname
  {
    if base <= pathname then
      var rest := pathname[|base|..];
      assert pathname == base + rest;
      if rest == "" then "/" else rest
    else
      pathname
  }

  /** `path.replace(/^\//, "")`: one leading `/`, if there is one, is removed. */
  function StripLeadingSlash(path: string): (q: string)
    ensures path != "" && path[0] == '/' ==> "/" + q == path
    ensures path == "" || path[0] != '/' ==> q == path
  {
    if path != "" && path[0] == '/' then path[1..] else path
  }

  /** The URL `navigate(path)` pushes: the base followed by the path less one leading `/`. */
  function FullPath(base: string, path: string): (url: string)
    ensures base <= url
    ensures url[|base|..] == StripLeadingSlash(path)
    ensures |url| >= |base| + |path| - 1
  {
    base + StripLeadingSlash(path)
  }

  /** The in-app location a read returns right after `navigate(path)`. */
  function RouteAfterNavigate(path: string): (route: string)
    ensures route != ""
    ensures route == "/" <==> path == "" || path == "/" || path == "//"
    ensures route != "/" ==> route == StripLeadingSlash(path)
  {
    var q := StripLeadingSlash(path);
    if q == "" then "/" else q
  }

  /** `x` and `/x` navigate to the same URL. */
  lemma LeadingSlashIgnored(base: string, path: string)
    requires path == "" || path[0] != '/'
    ensures FullPath(base, "/" + path) == FullPath(base, path)
  {
    assert ("/" + path)[1..] == path;
  }

  /** Only one slash is removed: `//x` still reaches a URL with a `/` right after the base. */
  lemma OnlyOneSlashRemoved(base: string, path: string)
    ensures FullPath(base, "//" + path) == base + "/" + path
  {
    assert ("//" + path)[1..] == "/" + path;
  }

  /**
   * Round trip of the adapter: when the URL `navigate(path)` builds is one the
   * browser accepts and stores as written, its pathname reads back as the path
   * less one leading `/`, or `/` when nothing is left.
   */
  lemma NavigateRoundTrip(base: string, path: string)
    requires Url.SameOrigin(FullPath(base, path)) && Url.Literal(FullPath(base, path))
    ensures Snapshot(Url.ParseUrl(FullPath(base, path)).pathname, base) == RouteAfterNavigate(path)
  {
    var url := FullPath(base, path);
    assert Url.Plain(url) by {
      forall i | 0 <= i < |url|
        ensures url[i] != '?' && url[i] != '#'
      {
        assert Url.PathChar(url[i]);
      }
    }
    Url.HrefRoundTrip(Url.Location(url, "", ""));
    assert Url.Href(Url.Location(url, "", "")) == url;
  }

  /**
   * With the default base, a path starting with `//` builds a URL that names a
   * host, which `pushState` refuses: `navigate("//x")` throws.
   */
  lemma DoubleSlashRefused(path: string)
    ensures !Url.SameOrigin(FullPath("/", "//" + path))
  {
    var url := FullPath("/", "//" + path);
    assert url == "/" + "/" + path;
    assert Url.StripTabs(url) == ['/'] + Url.StripTabs(url[1..]);
    assert url[1..] == "/" + path;
    assert Url.StripTabs(url[1..]) == ['/'] + Url.StripTabs(path);
  }

  /** With the default base, `navigate("/services")` reads back as `services`, with no leading slash. */
  lemma DefaultBaseDropsSlash()
    ensures Snapshot(Url.ParseUrl(FullPath("/", "/services")).pathname, "/") == "services"
    ensures Snapshot(Url.ParseUrl(FullPath("/", "/")).pathname, "/") == "/"
  {
    assert FullPath("/", "/services") == "/" + "services";
    Url.OneSegmentPath("services");
    NavigateRoundTrip("/", "/services");
    assert FullPath("/", "/") == "/" + "";
    Url.OneSegmentPath("");
    NavigateRoundTrip("/", "/");
  }

  /** Under base `/app/`, the pathname `/app` does not start with the base and is returned unchanged. */
  lemma BaseWithoutSlashFallsBack()
    ensures Snapshot("/app", "/app/") == "/app"
  {
  }
}
