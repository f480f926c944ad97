/**
 * The pure half of the startup redirect normaliser in `main.tsx`: the URL the
 * current history entry is replaced with when the query string carries a
 * non-empty `redirect` value.
 */
module Redirect {
  import opened Wrappers
  import Url
  import Query

  /** `new URLSearchParams(search).get("redirect")`. */
  function RedirectValue(search: string): (r: Option<string>)
    ensures search == "" || search == "?" ==> r == None
    ensures r.Some? ==> '&' !in r.value && '+' !in r.value
  {
    Query.Get(Query.ParseQuery(search), "redirect")
  }

  /**
   * The URL to replace the current entry with, or `None` when the history is
   * left alone: there is no `redirect` pair, or its value is empty (falsy).
   * Otherwise the new URL is the pathname, the redirect value and the hash
   * written one after another, with no separator and without any query.
   */
  function NormalizedUrl(pathname: string, search: string, hash: string): (r: Option<string>)
    ensures r.None? <==> RedirectValue(search) == None || RedirectValue(search) == Some("")
    ensures r.Some? ==> exists redirect :: RedirectValue(search) == Some(redirect) &&
                                        redirect != "" && r.value == pathname + redirect + hash
  {
    match RedirectValue(search)
    case Some(redirect) => if redirect != "" then Some(pathname + redirect + hash) else None
    case None => None
  }

  /**
   * What the browser reports after the rewrite, when the redirect value holds
   * no `?` or `#`: the pathname is the old pathname followed by the redirect
   * value, the query string is gone (the `redirect` pair and every other pair)
   * and the hash is the old hash.
   */
  lemma RewriteDropsQuery(loc: Url.Location, redirect: string)
    requires Url.WellFormed(loc) && Url.Plain(redirect)
    ensures Url.ParseUrl(loc.pathname + redirect + loc.hash) ==
            Url.Location(loc.pathname + redirect, "", loc.hash)
  {
    var path := loc.pathname + redirect;
    assert Url.Plain(path) by {
      assert forall i :: 0 <= i < |path| ==>
        path[i] == if i < |loc.pathname| then loc.pathname[i] else redirect[i - |loc.pathname|];
    }
    var target := Url.Location(path, "", loc.hash);
    assert Url.Href(target) == loc.pathname + redirect + loc.hash;
    Url.HrefRoundTrip(target);
  }

  /** The first `redirect` pair decides; later ones and other pairs are ignored. */
  lemma FirstRedirectWins(before: seq<Query.Pair>, redirect: string, after: seq<Query.Pair>)
    requires forall i :: 0 <= i < |before| ==> before[i].0 != "redirect"
    ensures Query.Get(before + [("redirect", redirect)] + after, "redirect") == Some(redirect)
  {
    var pairs := before + [("redirect", redirect)] + after;
    assert pairs[|before|] == ("redirect", redirect);
  }

  /**
   * The query a static-hosting fallback page writes, `?redirect=<path>`,
   * followed by any other pairs, is rewritten to the pathname, the path and the
   * hash.
   */
  lemma {:induction false} FallbackRedirect(pathname: string, redirect: string, others: seq<Query.Pair>, hash: string)
    requires redirect != ""
    requires Query.Encodable([("redirect", redirect)] + others)
    ensures NormalizedUrl(pathname, Query.Serialize([("redirect", redirect)] + others), hash) ==
            Some(pathname + redirect + hash)
  {
    var pairs := [("redirect", redirect)] + others;
    Query.ParseSerialize(pairs);
    FirstRedirectWins([], redirect, others);
  }

  /** The fallback page's query `?redirect=<path>` on its own. */
  lemma RedirectOnly(pathname: string, redirect: string, hash: string)
    requires redirect != ""
    requires Query.Encodable([("redirect", redirect)])
    ensures NormalizedUrl(pathname, "?redirect=" + redirect, hash) == Some(pathname + redirect + hash)
  {
    assert [("redirect", redirect)] + [] == [("redirect", redirect)];
    assert Query.Serialize([("redirect", redirect)]) == "?redirect=" + redirect;
    FallbackRedirect(pathname, redirect, [], hash);
  }

  /** `/index.html?redirect=/services#pricing` becomes `/index.html/services#pricing`. */
  lemma IndexHtmlExample(pathname: string, redirect: string, hash: string)
    requires pathname == "/index.html" && redirect == "/services" && hash == "#pricing"
    ensures NormalizedUrl(pathname, "?redirect=" + redirect, hash) == Some(pathname + redirect + hash)
  {
    RedirectOnly(pathname, redirect, hash);
  }

  /**
   * A `redirect` value with `+` in it is form-decoded before it is used: each
   * `+` becomes a space.
   */
  lemma DecodedRedirect(pathname: string, raw: string, hash: string)
    requires '&' !in raw && '%' !in raw
    requires Query.DecodeComponent(raw) != ""
    ensures NormalizedUrl(pathname, "?redirect=" + raw, hash) == Some(pathname + Query.DecodeComponent(raw) + hash)
  {
    var search := "?redirect=" + raw;
    var body := "redirect=" + raw;
    assert search[1..] == body;
    assert '&' !in body;
    Query.SplitSingle(body, '&');
    Query.ParsePairOf("redirect", raw);
    assert body == "redirect" + "=" + raw;
    assert Query.DecodeComponent("redirect") == "redirect";
    assert Query.ParsePieces([body]) == [Query.ParsePair(body)] + Query.ParsePieces([]);
    assert Query.ParseQuery(search) == [("redirect", Query.DecodeComponent(raw))];
  }

  /** `?redirect=a+b` rewrites to the pathname followed by `a b`: for example `/a+b` becomes `/a b`. */
  lemma PlusRedirect(pathname: string, a: string, b: string, hash: string)
    requires '+' !in a && '&' !in a && '%' !in a
    requires '+' !in b && '&' !in b && '%' !in b
    ensures NormalizedUrl(pathname, "?redirect=" + (a + "+" + b), hash) == Some(pathname + (a + " " + b) + hash)
  {
    var raw := a + "+" + b;
    Query.DecodePlus(a, b);
    assert Query.DecodeComponent(raw) == a + " " + b;
    assert '&' !in raw && '%' !in raw;
    assert Query.DecodeComponent(raw)[|a|] == ' ';
    DecodedRedirect(pathname, raw, hash);
  }

  /**
   * A bare `redirect` (no `=`) is a pair with an empty value; being first, it
   * decides, so a later `redirect=r` is ignored and nothing is rewritten.
   */
  lemma BareRedirectIgnored(pathname: string, rest: string, hash: string)
    ensures NormalizedUrl(pathname, "?redirect&" + rest, hash) == None
  {
    var search := "?redirect&" + rest;
    var body := "redirect" + ("&" + rest);
    assert search[1..] == body;
    Url.CutAt("redirect", "&" + rest, {'&'});
    assert body[..8] == "redirect" && body[9..] == rest;
    var tail := Query.SplitOn(rest, '&');
    assert Query.SplitOn(body, '&') == ["redirect"] + tail;
    assert Query.DecodeComponent("redirect") == "redirect";
    assert Query.ParsePair("redirect") == ("redirect", "");
    assert Query.ParseQuery(search) == [("redirect", "")] + Query.ParsePieces(tail);
  }

  /** `?redirect=` carries an empty value, which is falsy: nothing is rewritten. */
  lemma EmptyRedirectIgnored(pathname: string, hash: string)
    ensures NormalizedUrl(pathname, "?redirect=", hash) == None
  {
    assert Query.Serialize([("redirect", "")]) == "?redirect=";
    Query.ParseSerialize([("redirect", "")]);
  }

  /** A URL with no query at all, or one without a `redirect` pair, is left alone. */
  lemma NoRedirectKeyIgnored(pathname: string, pairs: seq<Query.Pair>, hash: string)
    requires Query.Encodable(pairs)
    requires forall i :: 0 <= i < |pairs| ==> pairs[i].0 != "redirect"
    ensures NormalizedUrl(pathname, Query.Serialize(pairs), hash) == None
  {
    Query.ParseSerialize(pairs);
  }

  /**
   * A page opened at pathname `/` with a redirect value starting with `/`
   * yields a URL starting with `//`, which names a host; the model treats that
   * host as another origin, so `replaceState` throws before the app is rendered.
   */
  lemma RootRedirectRefused(redirect: string, hash: string)
    requires redirect != "" && redirect[0] == '/'
    ensures !Url.SameOrigin("/" + redirect + hash)
  {
    var url := "/" + redirect + hash;
    assert url[0] == '/' && url[1] == '/';
    assert Url.StripTabs(url) == ['/'] + Url.StripTabs(url[1..]);
    assert Url.StripTabs(url[1..]) == ['/'] + Url.StripTabs(url[2..]);
  }
}
