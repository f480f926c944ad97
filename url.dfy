/**
 * The browser's view of a same-origin URL, as `window.location` exposes it:
 * the path, the query string (`search`) and the fragment (`hash`).
 * History entries are stored as the literal strings given to `pushState`
 * and `replaceState`; this module splits such a string into its parts.
 */
module Url {

  /** A string with no query or fragment delimiter in it. */
  predicate Plain(s: string)
  {
    forall i :: 0 <= i < |s| ==> s[i] != '?' && s[i] != '#'
  }

  /** A path from the origin: the string starts with `/`. */
  predicate Rooted(u: string)
  {
    u != "" && u[0] == '/'
  }

  /** `u` without the tabs, line feeds and carriage returns that the URL parser removes wherever they occur. */
  function StripTabs(u: string): (r: string)
    ensures |r| <= |u|
    ensures forall i :: 0 <= i < |r| ==> r[i] != '\t' && r[i] != '\n' && r[i] != '\r'
  {
    if u == [] then []
    else if u[0] == '\t' || u[0] == '\n' || u[0] == '\r' then StripTabs(u[1..])
    else [u[0]] + StripTabs(u[1..])
  }

  /**
   * A rooted URL that `pushState` and `replaceState` accept.  One whose first
   * two characters (tabs and newlines aside) are `//` or `/\` names a host,
   * which the model treats as another origin, and is refused with a `SecurityError`.
   */
  predicate SameOrigin(u: string)
  {
    Rooted(u) && var t := StripTabs(u); !(|t| >= 2 && (t[1] == '/' || t[1] == '\\'))
  }

  /**
   * A character the URL parser keeps as it is in a path: printable ASCII other
   * than the space and those of the path percent-encode set, and other than
   * `\\`, which the parser turns into `/`.
   */
  predicate PathChar(c: char)
  {
    '!' <= c <= '~' && c !in {'"', '#', '<', '>', '?', '\\', '^', '`', '{', '}'}
  }

  /** A path segment the URL parser removes or resolves: `.` or `..`, with any dot written `%2e`. */
  predicate DotSegment(seg: string)
  {
    seg in {".", "..", "%2e", "%2E", ".%2e", ".%2E", "%2e.", "%2E.", "%2e%2e", "%2e%2E", "%2E%2e", "%2E%2E"}
  }

  /** No `/`-separated segment of `s` is a dot segment. */
  predicate NoDotSegment(s: string)
    decreases |s|
  {
    var n := Cut(s, {'/'});
    !DotSegment(s[..n]) && (n == |s| || NoDotSegment(s[n + 1..]))
  }

  /** A path the browser stores as written: no character it encodes or rewrites, and no dot segment. */
  predicate Literal(s: string)
  {
    (forall i :: 0 <= i < |s| ==> PathChar(s[i])) && NoDotSegment(s)
  }

  /** The tail of a path the browser stores as written holds no query or fragment delimiter. */
  lemma LiteralTailPlain(a: string, b: string)
    requires Literal(a + b)
    ensures Plain(b)
  {
    forall i | 0 <= i < |b|
      ensures b[i] != '?' && b[i] != '#'
    {
      assert (a + b)[|a| + i] == b[i];
      assert PathChar((a + b)[|a| + i]);
    }
  }

  /** Removing tabs and newlines leaves a string of path characters as it is. */
  lemma {:induction false} StripTabsKeepsPath(s: string)
    requires forall i :: 0 <= i < |s| ==> PathChar(s[i])
    ensures StripTabs(s) == s
    decreases |s|
  {
    if s != [] {
      assert PathChar(s[0]);
      StripTabsKeepsPath(s[1..]);
      assert [s[0]] + s[1..] == s;
    }
  }

  /** A single segment of path characters after the root, such as `/services`, is accepted and stored as written. */
  lemma OneSegmentPath(seg: string)
    requires forall i :: 0 <= i < |seg| ==> PathChar(seg[i]) && seg[i] != '/'
    requires !DotSegment(seg)
    ensures SameOrigin("/" + seg) && Literal("/" + seg)
  {
    var u := "/" + seg;
    StripTabsKeepsPath(u);
    assert Cut(u, {'/'}) == 0;
    assert u[..0] == "" && u[1..] == seg;
    CutAt(seg, "", {'/'});
    assert seg + "" == seg && seg[..|seg|] == seg;
    assert NoDotSegment(seg);
  }

  datatype Location = Location(pathname: string, search: string, hash: string)

  /**
   * The shapes `window.location` can report: a plain pathname; a search that is
   * empty or `?` followed by at least one character and no `#`; a hash that is
   * empty or `#` followed by at least one character.  An empty query or
   * fragment (a lone `?` or `#`) is reported as the empty string.
   */
  predicate WellFormed(loc: Location)
  {
    && Plain(loc.pathname)
    && (loc.search == "" || (|loc.search| > 1 && loc.search[0] == '?' && '#' !in loc.search))
    && (loc.hash == "" || (|loc.hash| > 1 && loc.hash[0] == '#'))
  }

  /** The URL string a well-formed location stands for. */
  function Href(loc: Location): string
  {
    loc.pathname + loc.search + loc.hash
  }

  /** The length of the longest prefix of `s` holding no character of `stops`. */
  function Cut(s: string, stops: set<char>): (n: nat)
    ensures n <= |s|
    ensures forall i :: 0 <= i < n ==> s[i] !in stops
    ensures n < |s| ==> s[n] in stops
    decreases |s|
  {
    if s == [] || s[0] in stops then 0 else 1 + Cut(s[1..], stops)
  }

  /** The first stop of `a + b` is at `|a|` when `a` holds none and `b` starts with one (or is empty). */
  lemma CutAt(a: string, b: string, stops: set<char>)
    requires forall i :: 0 <= i < |a| ==> a[i] !in stops
    requires b == [] || b[0] in stops
    ensures Cut(a + b, stops) == |a|
  {
    assert forall i :: 0 <= i < |a| ==> (a + b)[i] == a[i];
    assert b != [] ==> (a + b)[|a|] == b[0];
  }

  /**
   * How the browser splits a stored URL: the pathname runs up to the first `?`
   * or `#`; a query starting with `?` runs up to the next `#`; the rest is the
   * fragment.
   */
  function ParseUrl(u: string): (loc: Location)
    ensures WellFormed(loc)
    ensures loc.pathname <= u
    ensures Rooted(u) ==> Rooted(loc.pathname)
  {
    var p := Cut(u, {'?', '#'});
    var rest := u[p..];
    var q := if rest != [] && rest[0] == '?' then Cut(rest, {'#'}) else 0;
    var query := rest[..q];
    var fragment := rest[q..];
    assert fragment != [] ==> fragment[0] == '#';
    assert forall i :: 0 <= i < |query| ==> query[i] == rest[i];
    Location(u[..p], if query == "?" then "" else query, if fragment == "#" then "" else fragment)
  }

  /** Splitting the string a well-formed location stands for gives that location back. */
  lemma {:induction false} HrefRoundTrip(loc: Location)
    requires WellFormed(loc)
    ensures ParseUrl(Href(loc)) == loc
  {
    var u := Href(loc);
    var tail := loc.search + loc.hash;
    assert u == loc.pathname + tail;
    CutAt(loc.pathname, tail, {'?', '#'});
    var rest := u[|loc.pathname|..];
    assert rest == tail;
    assert Cut(u, {'?', '#'}) == |loc.pathname|;
    assert u[..|loc.pathname|] == loc.pathname;
    if loc.search != "" {
      assert rest[0] == '?';
      CutAt(loc.search, loc.hash, {'#'});
      assert rest[..|loc.search|] == loc.search;
      assert rest[|loc.search|..] == loc.hash;
    } else {
      assert rest == loc.hash;
      assert rest[..0] == "" && rest[0..] == loc.hash;
    }
  }
}
