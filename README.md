# Base-path routing and startup redirect of the FineLine Financial Planning site

The site is a single-page app. It has two small pieces of routing logic, and this project models both and proves their properties in Dafny.

- **Navigation adapter** (`client/src/App.tsx`). It turns the browser pathname into an in-app location by removing the deploy base (`getSnapshot`). `navigate(path)` pushes `base + path` with one leading `/` removed as a new history entry, then fires a synthetic `popstate` so that every subscriber reads the new location. `subscribe` registers a `popstate` listener and returns the function that removes it.
- **Redirect normaliser** (`client/src/main.tsx`). It runs before the app renders. When the query string has a non-empty `redirect` value, it replaces the current history entry with `pathname + redirect + hash`. The whole query string is dropped.

Modules:

- `Wrappers`: `Option`.
- `Url`: how the browser splits a stored URL string into `pathname`, `search` and `hash`.
- `Query`: the part of `URLSearchParams` that is used, i.e. form parsing into pairs and `get`.
- `Routing`: the pure functions of `App.tsx`.
- `Redirect`: the pure URL computation of `main.tsx`.
- `History`: the class `Browser`. It holds the session history (`entries`, `index`), the listener registry (`listeners`), and a per-listener log `notified` of the URL current at each notification. The length of that log is the listener's notification count. `navigate`, `subscribe`, unsubscribe and the startup rewrite are methods of this class.

The adapter's assumptions are stated as preconditions of `Browser.Navigate`:

- The base starts with `/`. Otherwise `pushState` would resolve `base + ...` against the current URL.
- The URL `navigate` builds is one the browser stores as written (`Url.Literal`). It holds no character that the URL parser percent-encodes or rewrites (space, `"`, `<`, `>`, `?`, `#`, `\`, `^`, `` ` ``, `{`, `}`, control and non-ASCII characters). It has no `.` or `..` segment. Under that condition the browser's pathname equals the pushed string.

A URL whose first two characters are `//` or `/\` (tabs and newlines aside) names a host. The model always treats that host as another origin (see PushState under "## Left out"). `pushState` and `replaceState` then throw a `SecurityError`, and the model returns that as `thrown` with history unchanged. Two inputs reach this:

- With base `/`, `navigate("//x")` throws before any listener is notified (`Routing.DoubleSlashRefused`).
- Suppose the page is opened at pathname `/` with a redirect value starting with `/`, for example `/?redirect=/services`. The new URL then starts with `//` and `replaceState` throws. `render` (`client/src/main.tsx:14`) is never reached (`Redirect.RootRedirectRefused`).

**The current path does not always start with `/`.** The code keeps whatever follows the base (`client/src/App.tsx:23`). With the default base `/`, `navigate("/services")` followed by a read gives `services`, without a leading slash. `Routing.NavigateRoundTrip` states this behaviour, and `Routing.DefaultBaseDropsSlash` shows the `services` case.

## Model

| member | source | states |
|---|---|---|
| Routing.DeployBase | client/src/App.tsx:10 | a missing or empty `BASE_URL` gives `/`; any other value is used as it is; the base is never empty |
| Routing.Snapshot | client/src/App.tsx:19-25 | a pathname equal to the base reads as `/`; a longer pathname under the base reads as the remainder, and the base followed by it restores the pathname; a pathname not under the base is returned unchanged |
| Routing.BaseWithoutSlashFallsBack | client/src/App.tsx:22-24 | under base `/app/` the pathname `/app` is not under the base and reads back unchanged |
| Routing.DeployBaseValid | client/src/App.tsx:10 | the default base, and any configured base starting with `/`, satisfies the adapter's assumption on the base |
| Routing.StripLeadingSlash | client/src/App.tsx:28 | exactly one leading `/` is removed when there is one, otherwise the path is kept |
| Routing.FullPath | client/src/App.tsx:28 | the pushed URL starts with the base and continues with exactly the path less one leading `/` |
| Routing.LeadingSlashIgnored | client/src/App.tsx:28 | `x` and `/x` push the same URL |
| Routing.OnlyOneSlashRemoved | client/src/App.tsx:28 | `//x` pushes the base followed by `/x`, so one slash stays |
| Routing.NavigateRoundTrip | client/src/App.tsx:19-30 | when the pushed URL is accepted and stored as written, its pathname reads back as the path less one leading `/`, or as `/` when nothing remains |
| Routing.RouteAfterNavigate | client/src/App.tsx:23-28 | the route read after a navigate is never empty; it is `/` exactly for the empty path, `/` and `//`, and otherwise the path less one leading `/` |
| Routing.DoubleSlashRefused | client/src/App.tsx:28-29 | with base `/`, a path starting with `//` builds a URL naming a host, which `pushState` refuses |
| Routing.DefaultBaseDropsSlash | client/src/App.tsx:23 | with base `/`, `navigate("/services")` reads back as `services` and `navigate("/")` as `/` |
| Url.ParseUrl | client/src/main.tsx:10 | the browser's `pathname`, `search` and `hash` are well formed and the pathname is a prefix of the stored URL |
| Url.HrefRoundTrip | client/src/main.tsx:10 | splitting the URL a well-formed location stands for gives that location back |
| Query.SplitJoin | client/src/main.tsx:6 | cutting at `&` undoes joining with `&` for pieces without `&` |
| Query.DecodePlus | client/src/main.tsx:6 | the text on either side of a `+` decodes on its own, and the `+` becomes one space |
| Query.DecodeComponent | client/src/main.tsx:6 | form decoding turns each `+` into a space in the same position and keeps every other character; the length is kept |
| Query.ParsePair | client/src/main.tsx:6 | a piece's name is cut at its first `=`, so it holds no `=`; neither part holds a `+`; a piece without `=` is a name, the whole decoded piece, with an empty value |
| Query.ParsePiecesAppend | client/src/main.tsx:6 | parsing a list of pieces is parsing each part of it and joining the results |
| Query.EmptyPieceSkipped | client/src/main.tsx:6 | an empty piece anywhere (from `&&`, a leading or a trailing `&`) yields no pair |
| Query.ParseQuery | client/src/main.tsx:6 | an empty query or a lone `?` gives no pairs; no name or value holds `&` or `+` |
| Query.Get | client/src/main.tsx:7 | `None` exactly when no pair has the name; otherwise the value of the first pair with that name |
| Query.ParseSerialize | client/src/main.tsx:6 | a query string written from encodable pairs parses back to the same pairs, in order |
| Redirect.RedirectValue | client/src/main.tsx:6-7 | an empty query gives no value; a value holds no `&` and no `+` |
| Redirect.NormalizedUrl | client/src/main.tsx:7-10 | no rewrite exactly when `redirect` is missing or empty; otherwise the old pathname, the first `redirect` value and the old hash, written one after another |
| Redirect.RewriteDropsQuery | client/src/main.tsx:10-11 | after the rewrite with a plain redirect value, the pathname is the old pathname followed by the value, the query is empty and the hash is kept |
| Redirect.RootRedirectRefused | client/src/main.tsx:10-11 | with pathname `/`, a redirect value starting with `/` gives a URL starting with `//`, which `replaceState` refuses |
| Redirect.DecodedRedirect | client/src/main.tsx:6-10 | `?redirect=raw` rewrites to the pathname, the form-decoded value and the hash |
| Redirect.PlusRedirect | client/src/main.tsx:6-10 | `?redirect=a+b` rewrites to the pathname followed by `a b`, so `/a+b` gives `/a b` |
| Redirect.FirstRedirectWins | client/src/main.tsx:7 | the first `redirect` pair decides and later pairs are ignored |
| Redirect.FallbackRedirect | client/src/main.tsx:6-10 | `?redirect=r` followed by any other pairs rewrites to `pathname + r + hash` |
| Redirect.RedirectOnly | client/src/main.tsx:6-10 | `?redirect=r` alone rewrites to `pathname + r + hash` |
| Redirect.IndexHtmlExample | client/src/main.tsx:6-11 | `/index.html?redirect=/services#pricing` becomes `/index.html/services#pricing` |
| Redirect.BareRedirectIgnored | client/src/main.tsx:6-8 | a bare `redirect` first in the query gives the empty, falsy value, so a later `redirect=r` is ignored and nothing is rewritten |
| Redirect.EmptyRedirectIgnored | client/src/main.tsx:8 | `?redirect=` has an empty, falsy value and nothing is rewritten |
| Redirect.NoRedirectKeyIgnored | client/src/main.tsx:7-8 | a query with no `redirect` pair, including no query at all, is not rewritten |
| History.Browser.Location | client/src/main.tsx:10 | `window.location` is the well-formed split of the current entry, and its pathname is a prefix of that entry |
| History.Browser.ReadSnapshot | client/src/App.tsx:19-25 | for a current entry without query or fragment, the snapshot is that entry with the base stripped |
| History.Browser.PushState | client/src/App.tsx:29 | a URL naming a host throws and leaves history as it was; otherwise the entries after the current one are dropped and the URL is appended and becomes current; listeners are untouched |
| History.Browser.ReplaceCurrent | client/src/main.tsx:11 | a URL naming a host throws and changes nothing; otherwise only the current entry changes; the length, the index and the listeners are kept |
| History.Browser.DispatchPopState | client/src/App.tsx:30 | each registered listener gets exactly one notification carrying the current URL; the others get none; history is unchanged |
| History.Browser.Subscribe | client/src/App.tsx:14-16 | the callback is added (at most once), and the returned function names it |
| History.Browser.Unsubscribe | client/src/App.tsx:16 | exactly the callback is removed and every other listener stays |
| History.Browser.Navigate | client/src/App.tsx:27-31 | throws exactly when the built URL names a host, and then changes nothing and notifies no one; otherwise one entry is appended after the current one and becomes current, earlier entries are kept, the previous current entry is one step back, every registered listener is notified once after the push, and the snapshot is the round-trip route |
| History.Browser.NormalizeRedirect | client/src/main.tsx:6-12 | throws exactly when there is a rewritten URL and it names a host; the current entry is replaced with the rewritten URL when there is one and it is accepted, and otherwise history is unchanged; the length, the index and the listeners are kept |
| History.Browser.Start | client/src/main.tsx:6-14 | normalisation runs first; when it throws there is no snapshot; otherwise the first snapshot is read from the rewritten URL; when the old pathname followed by the redirect value is stored as written and accepted, the snapshot is taken from that path |
| History.TwoListenersOneLeaves | client/src/App.tsx:14-30 | `navigate("/services")` does not throw; of two subscribers, the one that unsubscribed before it is not notified; the other is notified once and reads `services` |

## Left out

- `client/src/pages/home.tsx`: static markup, copy and animation. Its one piece of state is never read, and its year is a clock read.
- The React component tree (`App`, `Routes`), `useSyncExternalStore` re-render scheduling, route matching by the `wouter` library, and the query-client, toaster, tooltip and `createRoot(...).render` plumbing. These are foreign UI code.
- Query.DecodeComponent: decodes `+` as a space but does not percent-decode (`%2F` stays as written), because byte-level percent-decoding and UTF-8 decoding belong to the browser. The serialisation round trip is therefore stated for names without `&`, `=`, `+`, `%` and values without `&`, `+`, `%`.
- Url.ParseUrl: takes a stored URL literally as a path from the origin. The URL parser's relative-URL resolution, dot-segment removal and percent-encoding of pushed strings are not modelled.
- NavigateRoundTrip: its round trip covers only built URLs that the browser stores as written (`Url.Literal`). For any other URL the browser would encode or rewrite the pathname first (`/a b` is shown as `/a%20b`, `/x/../y` as `/y`).
- Navigate: requires the built URL to be stored as written (`Url.Literal`), for the same reason. Navigating to a path the browser encodes or rewrites is not modelled.
- Start: states the first snapshot only when the old pathname followed by the redirect value is a path the browser stores as written (`Url.Literal`). Otherwise the browser would encode or rewrite that path, and the model stores the built string as it is.
- PushState: a URL starting with `//` or `/\` that names the page's own host is accepted by a browser. The model, which holds no host, treats every such URL as another origin and throws.
- ReplaceCurrent: the same simplification about a URL that names the page's own host.
- NormalizeRedirect: inherits the simplification of ReplaceCurrent.
- Back and forward traversal (the browser's own `popstate` source) is not modelled. Only the forward-entry truncation that `pushState` performs is modelled.
- History.Browser.DispatchPopState: listeners are a set, so the order in which they are called is not modelled. Re-entrant changes made by a listener during dispatch are not modelled either.
- Listener callbacks are identified by a number. What a callback does, here the re-render triggered by `useSyncExternalStore`, is represented only by the URL it sees.
