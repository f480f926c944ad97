/**
 * The browser state the adapter and the normaliser work on: the session
 * history (a list of URL strings and the index of the current one) and the
 * `popstate` listeners registered on the window, each with the log of
 * notifications it has received.  `navigate`, `subscribe` and its unsubscribe
 * function (`App.tsx`) and the startup rewrite (`main.tsx`) are methods here.
 */
module History {
  import opened Wrappers
  import Url
  import Routing
  import Redirect

  /** A listener is known by the identity of its callback. */
  type ListenerId = nat

  /** The function `subscribe` hands back: calling it removes `callback`. */
  datatype Unsubscriber = Unsubscriber(callback: ListenerId)

  class Browser {
    var entries: seq<string>
    var index: nat
    var listeners: set<ListenerId>
    /** For every listener ever registered, the current URL at each `popstate` it was sent, oldest first. */
    var notified: map<ListenerId, seq<string>>

    /** The current entry exists, every entry is a path from the origin, and every listener has a log. */
    ghost predicate Valid()
      reads this
    {
      && index < |entries|
      && (forall i :: 0 <= i < |entries| ==> Url.Rooted(entries[i]))
      && listeners <= notified.Keys
    }

    /** A fresh page: one history entry and no listeners. */
    constructor (url: string)
      requires Url.Rooted(url)
      ensures Valid()
      ensures entries == [url] && index == 0
      ensures listeners == {} && notified == map[]
    {
      entries := [url];
      index := 0;
      listeners := {};
      notified := map[];
    }

    /** The URL of the current history entry. */
    function Current(): string
      reads this
      requires Valid()
    {
      entries[index]
    }

    /** `window.location`. */
    function Location(): (loc: Url.Location)
      reads this
      requires Valid()
      ensures Url.WellFormed(loc)
      ensures loc.pathname <= Current() && Url.Rooted(loc.pathname)
    {
      Url.ParseUrl(Current())
    }

    /** `getSnapshot`: the in-app location read from the current pathname. */
    function ReadSnapshot(base: string): (route: string)
      reads this
      requires Valid()
      ensures Url.Plain(Current()) ==> route == Routing.Snapshot(Current(), base)
    {
      Routing.Snapshot(Location().pathname, base)
    }

    /**
     * `history.pushState`: a URL naming a host, which the model treats as another origin, is refused with a
     * thrown `SecurityError` and nothing changes; otherwise the entries after
     * the current one are dropped, `url` is appended and becomes current.
     */
    method PushState(url: string) returns (thrown: bool)
      requires Valid() && Url.Rooted(url)
      modifies this
      ensures Valid()
      ensures thrown == !Url.SameOrigin(url)
      ensures thrown ==> entries == old(entries) && index == old(index)
      ensures !thrown ==> entries == old(entries[..index + 1]) + [url] && index == old(index) + 1
      ensures listeners == old(listeners) && notified == old(notified)
    {
      thrown := !Url.SameOrigin(url);
      if !thrown {
        entries := entries[..index + 1] + [url];
        index := index + 1;
      }
    }

    /**
     * `history.replaceState`: a URL naming a host, which the model treats as another origin, is refused with a
     * thrown `SecurityError`; otherwise only the current entry's URL changes.
     * No event is fired.
     */
    method ReplaceCurrent(url: string) returns (thrown: bool)
      requires Valid() && Url.Rooted(url)
      modifies this
      ensures Valid()
      ensures thrown == !Url.SameOrigin(url)
      ensures entries == if thrown then old(entries) else old(entries)[old(index) := url]
      ensures |entries| == old(|entries|) && index == old(index)
      ensures listeners == old(listeners) && notified == old(notified)
    {
      thrown := !Url.SameOrigin(url);
      if !thrown {
        entries := entries[index := url];
      }
    }

    /**
     * `dispatchEvent(new PopStateEvent("popstate"))`: every registered listener
     * is called once, and sees the URL current at that moment.
     */
    method DispatchPopState()
      requires Valid()
      modifies this
      ensures Valid()
      ensures entries == old(entries) && index == old(index) && listeners == old(listeners)
      ensures notified.Keys == old(notified).Keys
      ensures forall id :: id in notified ==>
                notified[id] == if id in listeners then old(notified)[id] + [Current()] else old(notified)[id]
    {
      var pending := listeners;
      while pending != {}
        invariant pending <= listeners
        invariant entries == old(entries) && index == old(index) && listeners == old(listeners)
        invariant notified.Keys == old(notified).Keys
        invariant forall id :: id in notified ==>
                    notified[id] == if id in listeners - pending then old(notified)[id] + [Current()] else old(notified)[id]
        decreases pending
      {
        var id :| id in pending;
        notified := notified[id := notified[id] + [Current()]];
        pending := pending - {id};
      }
    }

    /**
     * `subscribe(callback)`: registers `callback` for `popstate` (registering it
     * again changes nothing) and returns the function that removes it.
     */
    method Subscribe(callback: ListenerId) returns (unsubscribe: Unsubscriber)
      requires Valid()
      modifies this
      ensures Valid()
      ensures unsubscribe.callback == callback
      ensures listeners == old(listeners) + {callback}
      ensures notified == if callback in old(notified) then old(notified) else old(notified)[callback := []]
      ensures entries == old(entries) && index == old(index)
    {
      listeners := listeners + {callback};
      if callback !in notified {
        notified := notified[callback := []];
      }
      unsubscribe := Unsubscriber(callback);
    }

    /**
     * Calling the function `subscribe` returned: exactly its callback is
     * removed, every other listener stays; removing it twice is harmless.
     */
    method Unsubscribe(unsubscribe: Unsubscriber)
      requires Valid()
      modifies this
      ensures Valid()
      ensures listeners == old(listeners) - {unsubscribe.callback}
      ensures notified == old(notified) && entries == old(entries) && index == old(index)
    {
      listeners := listeners - {unsubscribe.callback};
    }

    /**
     * `navigate(path)`: builds the base followed by the path less one leading
     * `/` and pushes it.  When `pushState` throws (the URL names a host),
     * nothing changes and no listener is notified.  Otherwise every listener is
     * notified once, after the push, and what they read is the path less one
     * leading `/`, or `/` when nothing is left.
     */
    method Navigate(base: string, path: string) returns (thrown: bool)
      requires Valid()
      requires Routing.ValidBase(base) && Url.Literal(Routing.FullPath(base, path))
      modifies this
      ensures Valid()
      ensures thrown == !Url.SameOrigin(Routing.FullPath(base, path))
      ensures listeners == old(listeners) && notified.Keys == old(notified).Keys
      ensures thrown ==> entries == old(entries) && index == old(index) && notified == old(notified)
      ensures !thrown ==> entries == old(entries[..index + 1]) + [Routing.FullPath(base, path)]
      ensures !thrown ==> index == old(index) + 1 && Current() == Routing.FullPath(base, path)
      ensures !thrown ==> entries[index - 1] == old(Current())
      ensures !thrown ==> forall id :: id in notified ==>
                notified[id] == if id in listeners then old(notified)[id] + [Current()] else old(notified)[id]
      ensures !thrown ==> ReadSnapshot(base) == Routing.RouteAfterNavigate(path)
    {
      var fullPath := Routing.FullPath(base, path);
      thrown := PushState(fullPath);
      if !thrown {
        DispatchPopState();
        Routing.NavigateRoundTrip(base, path);
      }
    }

    /**
     * The startup block of `main.tsx`: when the query carries a non-empty
     * `redirect` value, the current entry is replaced by the rewritten URL,
     * unless `replaceState` refuses that URL and throws; otherwise nothing
     * changes.
     */
    method NormalizeRedirect() returns (thrown: bool)
      requires Valid()
      modifies this
      ensures Valid()
      ensures var was := old(Location());
              var rewritten := Redirect.NormalizedUrl(was.pathname, was.search, was.hash);
              && thrown == (rewritten.Some? && !Url.SameOrigin(rewritten.value))
              && entries == if rewritten.Some? && !thrown then old(entries)[old(index) := rewritten.value] else old(entries)
      ensures |entries| == old(|entries|) && index == old(index)
      ensures listeners == old(listeners) && notified == old(notified)
    {
      thrown := false;
      var loc := Location();
      var rewritten := Redirect.NormalizedUrl(loc.pathname, loc.search, loc.hash);
      if rewritten.Some? {
        thrown := ReplaceCurrent(rewritten.value);
      }
    }

    /**
     * Page start: the redirect is normalised before the app renders, so the
     * adapter's first snapshot is read from the rewritten URL.  When the
     * rewrite throws, nothing is rendered and there is no snapshot.  With a
     * redirect value that leaves a pathname the browser keeps as written, the snapshot is taken from
     * the old pathname followed by that value.
     */
    method Start(base: string) returns (route: Option<string>)
      requires Valid()
      modifies this
      ensures Valid()
      ensures var was := old(Location());
              var rewritten := Redirect.NormalizedUrl(was.pathname, was.search, was.hash);
              && (route == None <==> rewritten.Some? && !Url.SameOrigin(rewritten.value))
              && entries == if rewritten.Some? && route != None then old(entries)[old(index) := rewritten.value] else old(entries)
      ensures |entries| == old(|entries|) && index == old(index)
      ensures listeners == old(listeners) && notified == old(notified)
      ensures route != None ==> route == Some(ReadSnapshot(base))
      ensures var was := old(Location());
              forall redirect :: Redirect.RedirectValue(was.search) == Some(redirect) && redirect != "" &&
                                 Url.Literal(was.pathname + redirect) && Url.SameOrigin(was.pathname + redirect + was.hash) ==>
                                 route == Some(Routing.Snapshot(was.pathname + redirect, base))
    {
      ghost var was := Location();
      var thrown := NormalizeRedirect();
      if thrown {
        route := None;
      } else {
        route := Some(ReadSnapshot(base));
        var value := Redirect.RedirectValue(was.search);
        if value.Some? && value.value != "" && Url.Literal(was.pathname + value.value) {
          Url.LiteralTailPlain(was.pathname, value.value);
          Redirect.RewriteDropsQuery(was, value.value);
        }
      }
    }
  }

  /**
   * Two listeners subscribe under the default base, the first unsubscribes,
   * then `navigate("/services")` runs: it does not throw, only the second
   * listener is notified, and it reads `services`.
   */
  method TwoListenersOneLeaves() returns (thrown: bool, firstCount: nat, secondCount: nat, seen: string)
    ensures !thrown
    ensures firstCount == 0 && secondCount == 1
    ensures seen == "services"
  {
    var browser := new Browser("/");
    var leaveFirst := browser.Subscribe(1);
    var leaveSecond := browser.Subscribe(2);
    browser.Unsubscribe(leaveFirst);
    assert Routing.FullPath("/", "/services") == "/" + "services";
    Url.OneSegmentPath("services");
    thrown := browser.Navigate("/", "/services");
    firstCount := |browser.notified[1]|;
    secondCount := |browser.notified[2]|;
    seen := browser.ReadSnapshot("/");
  }
}
