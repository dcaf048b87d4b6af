# Portfolio site core, modelled in Dafny

This project models the pure logic of a personal portfolio web application. The site is a single-page React client with Home, Work, About and Contact panels. The modelled parts are:

- **Menu router** (`MenuRoutes`, `MenuHistory`). It maps any URL pathname onto the four menu routes. The route hook keeps the browser's session history in step with the selected route, using `pushState` on navigation and `replaceState` when a location is not canonical.
- **Panel headings** (`PanelMeta`). This is the route-to-title table.
- **Content-management records** (`ContentfulRecords`, `WorkItems`). This covers asset URL fix-up, the id-to-asset lookup table, asset-link collection, first-image selection and description extraction. It also covers how an entry becomes a work item, and the eight placeholder items per work tab.
- **Work sorting** (`WorkSort`). A stable sort of work items by name or date, in either direction.
- **Background patch loader** (`CablesPatch`). This covers the patch directory, the script and JS paths, the options merge, and the guard that creates at most one patch per effect run.
- **Chart styling** (`Chart`). This covers the chart id and the generated CSS colour rule.

`Optional` holds `Option`, which stands in for JavaScript's `undefined`. `Strings` holds the string built-ins the source relies on: `startsWith`, `endsWith`, `slice(0, n)`, `trim` with ECMAScript's whitespace set, number interpolation, and `replace(/c/g, "")`.

The source's `label` properties (menu items, chart config items) are the fields `name` and `caption` here, because `label` is a reserved word in Dafny.

Everything is immutable data and pure functions. The one exception is `ContentfulRecords.BuildContentfulAssetMap`, a method whose loop mirrors the source's `for … of`. The route hook and the patch loader are state machines: each transition is a function, and a lemma proves an invariant over any sequence of events.

Some things are parameters, not computed. These are the clock (`Date.now()`), date parsing (`Date.parse`), ISO date rendering (`toISOString`), React's generated id (`useId`) and the background library object (`window.CABLES`). The browser location is part of the modelled history state.

## Model

| member | source | states |
|---|---|---|
| MenuRoutes.MenuRouteSetContents | src/lib/menu-routes.ts:1-10 | The route set built from the menu entries holds exactly `/`, `/work`, `/about`, `/contact`. |
| MenuRoutes.TrimTrailingSlash | src/lib/menu-routes.ts:12-18 | Empty and `/` give `/`; a path ending in `/` loses exactly that one slash; any other path is unchanged. |
| MenuRoutes.NormalizeMenuRoute | src/lib/menu-routes.ts:20-27 | The result is always one of the four routes. A menu route is returned as is. Any other result than `/` is the input, or the input minus one trailing slash. An input that is neither a route nor a route plus one slash gives `/`. |
| MenuRoutes.GetCurrentMenuRoute | src/lib/menu-routes.ts:29-35 | With no window the route is `/`. With a window the route is the normalised pathname, so a location that is already a menu route is kept. |
| MenuRoutes.MenuRoutesAreFixedPoints | src/lib/menu-routes.ts:10 | Each of the four menu paths normalises to itself. |
| MenuRoutes.EmptyAndRootNormaliseToRoot | src/lib/menu-routes.ts:13-15 | `""` and `/` both normalise to `/`. |
| MenuRoutes.SingleTrailingSlashTrimmed | src/lib/menu-routes.ts:17-23 | `/work/`, `/about/` and `/contact/` normalise to the route without the slash. |
| MenuRoutes.DoubleTrailingSlashFallsBack | src/lib/menu-routes.ts:17-26 | Only one slash is trimmed, so `/work//`, `/about//` and `/contact//` fall back to `/`. |
| MenuRoutes.NormalizeCharacterisation | src/lib/menu-routes.ts:17-26 | A pathname normalises to `/work`, `/about` or `/contact` if and only if it is that route or that route plus one `/`. |
| MenuRoutes.NormalizeIdempotent | src/lib/menu-routes.ts:20-27 | Normalising twice equals normalising once. |
| MenuHistory.Initial | src/hooks/use-menu-route.ts:6 | The hook's initial route is the normalised current pathname, and no history call has been made. |
| MenuHistory.SyncFromLocation | src/hooks/use-menu-route.ts:9-15 | After sync the route is the normalised pathname and the location shows it. The history keeps its length and every other entry. `replaceState` is called only when the pathname was not canonical, and nothing is called otherwise. |
| MenuHistory.Mount | src/hooks/use-menu-route.ts:6-18 | After the initial render and the effect's first sync, the state is synced and the single entry holds the normalised route. |
| MenuHistory.Navigate | src/hooks/use-menu-route.ts:25-32 | Navigating to the current route changes nothing. Any other route gives exactly one `pushState` of that route, and the route and location become it. The entries after the current one are replaced by the new entry, which becomes the current, last entry. |
| MenuHistory.PopState | src/hooks/use-menu-route.ts:9-17 | A history move to entry `t` followed by sync makes `t` current and adopts its normalised route, which the location then shows. No other entry changes. `replaceState` is called, once, only when entry `t` was not canonical; otherwise entries and calls are untouched. A move outside the history changes nothing. |
| MenuHistory.StepPreservesSynced | src/hooks/use-menu-route.ts:9-32 | Navigation and popstate each keep the invariant: the location shows the route and every entry is a menu path. |
| MenuHistory.RunPreservesSynced | src/hooks/use-menu-route.ts:9-32 | Any sequence of navigations and history moves keeps that invariant. |
| MenuHistory.PopStateOnSyncedNeverReplaces | src/hooks/use-menu-route.ts:11-13 | Once mounted, moving through history never triggers `replaceState`, and the route becomes the target entry. |
| MenuHistory.BackAfterNavigateRestoresRoute | src/hooks/use-menu-route.ts:9-31 | Navigating away and going back restores the previous route, with exactly one `pushState` in total. |
| MenuHistory.NavigateTwiceIsNavigateOnce | src/hooks/use-menu-route.ts:26-28 | A second navigation to the same route pushes nothing. |
| PanelMeta.GetPanelMeta | src/components/menu-route-panel.tsx:312-335 | `/work`, `/about` and `/contact` have titles "Work", "About" and "Contact" (if and only if), and `/` has "Home". |
| PanelMeta.PanelTitlesMatchMenuLabels | src/components/menu-route-panel.tsx:312-335 | Each menu path's panel title equals its menu label. |
| ContentfulRecords.NormalizeContentfulAssetUrl | src/components/menu-route-panel.tsx:375-389 | Missing or empty gives none. `//…` gains `https:` and `/…` gains the image host. Anything else is unchanged. A result never starts with `/`. |
| ContentfulRecords.NormalizeAssetUrlIdempotent | src/components/menu-route-panel.tsx:375-389 | Normalising a normalised URL changes nothing. |
| ContentfulRecords.LastAssetWithId | src/components/menu-route-panel.tsx:399-403 | Reference definition: the asset carrying a non-empty id that no later asset carries, or none when no asset has the id. |
| ContentfulRecords.BuildContentfulAssetMap | src/components/menu-route-panel.tsx:391-406 | No side table gives an empty map. Otherwise the keys are exactly the non-empty asset ids, and each maps to the last asset with that id. |
| ContentfulRecords.CollectAssetIds | src/components/menu-route-panel.tsx:408-429 | A non-array value gives `[id]` exactly when it is an asset link with a non-empty string id, and `[]` otherwise. Every collected id is non-empty. |
| ContentfulRecords.CollectAllAppend | src/components/menu-route-panel.tsx:409-411 | Flattening distributes over concatenation, so ids come out in array order. |
| ContentfulRecords.CollectAssetIdsComplete | src/components/menu-route-panel.tsx:408-429 | An id is collected if and only if it is linked from the value itself or through nested arrays. Links inside non-array objects are not collected. |
| ContentfulRecords.CollectAllComplete | src/components/menu-route-panel.tsx:409-411 | An id is collected from an array if and only if some element links it. |
| ContentfulRecords.FirstImageUrl | src/components/menu-route-panel.tsx:440-453 | No result if and only if no id survives the filters. Otherwise the result is the normalised URL of the first survivor. |
| ContentfulRecords.CandidateAssetIds | src/components/menu-route-panel.tsx:435-438 | The linked ids of `image`, `images`, `file` and `files`, one segment per field in that order and nothing else, every id non-empty. |
| ContentfulRecords.AssetImageUrl | src/components/menu-route-panel.tsx:441-451 | An id yields a URL if and only if the table has the asset, the asset has a file with a non-empty URL, and the content type is missing, empty or starts with `image/`. The URL is then the file's own URL. |
| ContentfulRecords.GetContentfulImageUrl | src/components/menu-route-panel.tsx:431-457 | No image if and only if no candidate id from `image`, `images`, `file` or `files` survives. Otherwise the image is the normalised URL of the first surviving id, every earlier id having been skipped. A found URL is absolute (never starts with `/`). |
| ContentfulRecords.ImageFieldTakesPrecedence | src/components/menu-route-panel.tsx:435-437 | When any `image` link survives, the later fields are never consulted. |
| ContentfulRecords.FirstImageUrlAppend | src/components/menu-route-panel.tsx:437-453 | The scan stops at the first survivor: ids after a list that contains a survivor do not matter. |
| ContentfulRecords.ExtractContentfulDescription | src/components/menu-route-panel.tsx:459-468 | The result is the trimmed `description` if that is a non-blank string, else the trimmed `titleDescription` if that is one, else none. A result is non-empty and already trimmed. |
| ContentfulRecords.DescriptionCandidate | src/components/menu-route-panel.tsx:462-463 | One field gives its trimmed text exactly when it is a string that is not all whitespace. |
| Strings.Trim | src/components/menu-route-panel.tsx:462-463 | `trim()` yields an infix whose stripped prefix and suffix are all whitespace and which neither starts nor ends with whitespace. |
| Strings.TrimIdempotent | src/components/menu-route-panel.tsx:463 | Trimming a trimmed string changes nothing. |
| Strings.TrimEmptyIffBlank | src/components/menu-route-panel.tsx:462 | `trim()` is empty (falsy) if and only if the string is all whitespace. |
| Strings.NatToStringInjective | src/components/menu-route-panel.tsx:351 | Different numbers interpolate to different digit strings. |
| Strings.NatToString | src/components/menu-route-panel.tsx:351 | The interpolation of a number is its decimal form: non-empty digits that, read left to right, denote the number, with no leading zero except for 0 itself. |
| WorkItems.FallbackIdInjective | src/components/menu-route-panel.tsx:351 | Different positions give different `<tab>-<n>` ids. |
| WorkItems.GetBaseWorkItems | src/components/menu-route-panel.tsx:337-358 | Exactly 8 items. Item `i` has id `<tab>-<i+1>`, name `<tab> item <i+1>` and the tab's description. It is dated `2026-01-DD` every fourth day from the 1st, and the timestamps strictly increase. |
| WorkItems.BaseItemIdsDistinct | src/components/menu-route-panel.tsx:351 | The eight placeholder ids of a tab are pairwise distinct. |
| WorkItems.FallbackId | src/components/menu-route-panel.tsx:351 | The id is the tab name, then `-`, then the decimal digits of the position, and nothing else. |
| WorkItems.FallbackName | src/components/menu-route-panel.tsx:352 | The name is the tab name, then ` item `, then the decimal digits of the position, and nothing else. |
| WorkItems.CreatedAtMs | src/components/menu-route-panel.tsx:485 | A parsed, non-zero `sys.createdAt` is the timestamp. A missing, unparsable (NaN) or zero one gives the clock's reading. |
| WorkItems.EntryDate | src/components/menu-route-panel.tsx:486-488 | The first ten characters of a non-empty string `date` field. Otherwise those of a non-empty `sys.createdAt`. Otherwise those of the ISO form of the timestamp. Never more than ten characters. |
| WorkItems.MapContentfulEntryToWorkItem | src/components/menu-route-panel.tsx:470-500 | Id and name are never empty. The id is `sys.id` when non-empty, else `<tab>-<index+1>`. The name is the non-empty string `title`, else the non-empty string `name`, else `<tab> item <index+1>`. The timestamp is the parsed non-zero `sys.createdAt`, else the clock. The date follows the chain `date` field, `sys.createdAt`, ISO timestamp, each cut to ten characters. The description and image are those the two extractors give for the entry's fields. |
| WorkItems.MapEntries | src/components/menu-route-panel.tsx:509 | One item per entry. Item `i` is exactly the mapping of entry `i` at index `i`, so its id falls back to `<tab>-<i+1>` and its name to `<tab> item <i+1>`. |
| WorkItems.MappedFallbackIdsDistinct | src/components/menu-route-panel.tsx:493 | When no entry has an id, the mapped items still have pairwise distinct ids. |
| WorkItems.FallbackIdCanCollideWithOwnId | src/components/menu-route-panel.tsx:493 | Mixed entries can collide: an entry with its own id `webdev-2` followed by one without an id gives two items with id `webdev-2`. |
| WorkSort.SortWorkItems | src/components/menu-route-panel.tsx:520-539 | The result is a permutation of the input. It is ordered on the selected key, non-decreasing for `asc` and non-increasing for `desc`, with `desc` when no direction is given. Items with equal keys keep their input order. |
| WorkSort.InsertionSort | src/components/menu-route-panel.tsx:529-534 | The sorted list is a permutation of the input; its order and stability are the two lemmas below. |
| WorkSort.InsertSorted | src/components/menu-route-panel.tsx:529 | Inserting into a sorted sequence keeps it sorted. |
| WorkSort.InsertionSortSorted | src/components/menu-route-panel.tsx:529-534 | The sort's output is ordered for either key and direction. |
| WorkSort.InsertionSortStable | src/components/menu-route-panel.tsx:529-534 | For every key value, the items with that key appear in input order (stability of `Array.prototype.sort`). |
| WorkSort.InsertionSortOfSorted | src/components/menu-route-panel.tsx:529-534 | Sorting an already ordered sequence returns it unchanged. |
| WorkSort.AscDescMirror | src/components/menu-route-panel.tsx:526 | For distinct keys, negating the comparator swaps the order. |
| WorkSort.BaseItemsAlreadyAscendingByDate | src/components/menu-route-panel.tsx:346-348 | Placeholder items sorted ascending by date come back exactly as generated. |
| CablesPatch.NormalizePatchDir | src/components/cables-patch-background.tsx:44-49 | The result ends with `/` and has the input as a prefix. It is the input when that already ends in `/`, and otherwise exactly one character longer. |
| CablesPatch.Truthy | src/components/cables-patch-background.tsx:88-98 | A value is truthy (`!x` is false) exactly when it is none of `undefined`, `null`, `false`, `0` and `""`. |
| CablesPatch.NormalizePatchDirIdempotent | src/components/cables-patch-background.tsx:44-49 | Normalising the directory twice equals once. |
| CablesPatch.PatchDirProp | src/components/cables-patch-background.tsx:52 | An omitted directory becomes `/patch/` after normalisation; a given one (even empty) is used. |
| CablesPatch.CanvasIdProp | src/components/cables-patch-background.tsx:53 | An omitted canvas id becomes `cables-bg-canvas`; a given one is used as is. |
| CablesPatch.ScriptSrc | src/components/cables-patch-background.tsx:65 | The script URL is the normalised directory (so also the given one) followed by `js/patch.js`. |
| CablesPatch.JsPath | src/components/cables-patch-background.tsx:81 | The JS path is the normalised directory followed by `js/`, so it ends with `/`. |
| CablesPatch.ScriptInJsDirectory | src/components/cables-patch-background.tsx:65-81 | The script URL is the JS path plus `patch.js`. The JS path starts with the normalised directory and with the given one. |
| CablesPatch.DefaultOptions | src/components/cables-patch-background.tsx:79-84 | Exactly five default keys: asset prefix (the normalised directory), JS path, canvas id, resize-to-window `true` and canvas settings `{ alpha: true, premultipliedAlpha: true }`. None of them is one of the three filled keys. |
| CablesPatch.BuildPatchOptions | src/components/cables-patch-background.tsx:79-98 | The keys are the defaults, the caller's keys and the three filled keys. Caller keys override defaults, including with `undefined`. Defaults not overridden survive. A falsy `patch` becomes the exported patch. Both callbacks are always truthy, and a falsy one becomes the no-op `() => undefined`. |
| CablesPatch.NoPatchOptionsGivesDefaults | src/components/cables-patch-background.tsx:79-98 | With no caller options, the constructor sees the directory, JS path, canvas id, exported patch and no-op callbacks. |
| CablesPatch.InitPatch | src/components/cables-patch-background.tsx:68-103 | Once disposed, with a patch already present, or without a `Patch` constructor, nothing changes at all. A patch is created (one) if and only if none of these holds. The new patch gets the merged options and is stored in the ref and on the library object; nothing else of the run or the library changes. |
| CablesPatch.Cleanup | src/components/cables-patch-background.tsx:136-148 | Cleanup marks the run disposed and clears the ref. It calls `delete` exactly when a patch is live and that patch has a `delete` method. |
| CablesPatch.AtMostOnePatchPerRun | src/components/cables-patch-background.tsx:69-71 | However often the script load fires, a run creates at most one patch. A patch is live exactly when created and not disposed, and deletions never exceed creations. |
| CablesPatch.FreshRunCreatesAtMostOnePatch | src/components/cables-patch-background.tsx:66-71 | Starting from a fresh effect run, no sequence of load and unmount events creates more than one patch. |
| CablesPatch.NoPatchAfterUnmount | src/components/cables-patch-background.tsx:69-71 | After cleanup no event creates a patch again. |
| Chart.ColoredEntries | src/components/ui/chart.tsx:61 | The coloured entries as (key, colour) pairs, no more than the config has. Empty if and only if no entry is coloured. |
| Chart.ColoredEntriesMembers | src/components/ui/chart.tsx:61 | A (key, colour) pair is kept if and only if some config entry has that key and that non-empty colour. |
| Chart.ColoredEntriesAppend | src/components/ui/chart.tsx:61 | The filter works piecewise, so config order is kept. |
| Chart.DeclarationsAppend | src/components/ui/chart.tsx:67-69 | The declarations of two lists of entries are those of the first list followed by those of the second. |
| Chart.Declarations | src/components/ui/chart.tsx:67-69 | The joined declarations are empty exactly when there are no coloured entries; DeclarationsAppend and DeclarationsCount fix their order and number. |
| Chart.DeclarationsShape | src/components/ui/chart.tsx:67-69 | A non-empty join opens with `--color-` and ends with `;`. |
| Chart.ChartStyle | src/components/ui/chart.tsx:60-72 | No stylesheet if and only if no entry has a colour. Otherwise the CSS is `[data-chart="<id>"] {`, one `--color-<key>: <color>;` declaration per coloured entry in config order, and `}`. |
| Chart.ChartStyleAppend | src/components/ui/chart.tsx:61-69 | For a config split in two, the rule holds the first part's declarations followed by the second part's. |
| Chart.UncoloredEntriesIgnored | src/components/ui/chart.tsx:61 | Uncoloured entries anywhere in the config do not change the stylesheet. |
| Chart.SingleColorStyle | src/components/ui/chart.tsx:67-69 | One coloured entry gives exactly `[data-chart="<id>"] {--color-<key>: <color>;}`. |
| Chart.DeclarationsCount | src/components/ui/chart.tsx:67-69 | When keys and colours contain no `;`, the body holds exactly one `;` per coloured entry. |
| Chart.ChartId | src/components/ui/chart.tsx:37-38 | The id starts with `chart-`. A given id follows it verbatim. Otherwise `chart-` is followed by the generated id with its `:` characters removed, the rest kept in order, and the result has no `:`. |
| Strings.RemoveChar | src/components/ui/chart.tsx:38 | `replace(/:/g, "")`: the result has no `:`, and every other character occurs as often as in the input. |
| Strings.RemoveCharAppend | src/components/ui/chart.tsx:38 | Removing a character works piecewise, so the remaining characters keep their order. |
| Strings.Take | src/components/menu-route-panel.tsx:487-488 | `slice(0, n)` is the prefix of length `n`, or the whole string when it is shorter. |
| Chart.ChartIdKeepsColonFreeUniqueId | src/components/ui/chart.tsx:38 | A generated id without `:` is used unchanged. |

## Left out

- HTTP fetching, bearer authentication, JSON decoding and configuration lookup (src/lib/contentful.ts) are left out: they are network plumbing. The model starts from decoded values.
- `fetchWorkProjectsByTab`, the module-level cache and the panel's loading effect are left out. They are asynchronous orchestration (`Promise.all`, cancellation flags) around the modelled per-entry mapping.
- Date handling is not computed. `Date.parse`, `Date.now` and `toISOString` are parameters of `WorkItems.MapContentfulEntryToWorkItem`. The eight fixed placeholder timestamps (`Date.UTC(2026, 0, 1 + 4i)`) are written out as milliseconds and January 2026 day strings.
- WorkSort.SortWorkItems: `localeCompare` is modelled as plain lexicographic order on characters. Locale collation rules are not modelled.
- ContentfulRecords.CollectAssetIds: only string link ids are modelled. The source would also return a truthy non-string `sys.id`, but such an id can never match an asset table key.
- Strings.Take: a `char` is a Unicode scalar value, but `slice` counts UTF-16 code units. A character outside the Basic Multilingual Plane (an emoji, say) counts once here and twice in `slice`. So `WorkItems.EntryDate` keeps up to 10 scalar values where the component keeps 10 code units; the two agree on text within the Basic Multilingual Plane, such as ISO dates.
- MenuHistory.NavigateTwiceIsNavigateOnce: the hook model re-renders between events, so `navigate` always compares against the latest route. In the component `navigate` closes over the route of the last render (`useCallback` with `[route]`), so two calls inside one event handler would both push. The app's callers make one call per event.
- CablesPatch.Truthy: NaN is not modelled among the falsy numbers.
- Chart.ChartStyle: the config is taken in `Object.entries` order as given. JavaScript's rule that lists integer-like keys first is not modelled.
- `encodeURIComponent` in the placeholder image URL is left out. Tab names and positions contain only lowercase letters, digits and `-`, which it leaves unchanged, so the URL is written directly.
- DOM work is left out: script tag injection, load and error listeners, console warnings, `matchMedia` and class toggling. The load event is modelled as a `ScriptLoaded` event that runs `initPatch`.
- Rendering is left out: JSX, the placeholder grid, the About and Contact panels, the bottom stripe, the static copy arrays, and the Angular module and router files.
