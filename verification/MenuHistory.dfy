/**
 * The route hook (src/hooks/use-menu-route.ts) as a state machine over the
 * hook's `route` state and the browser's session history.
 *
 * The session history is a list of entry URLs and the index of the current
 * one; the current entry's URL is `window.location.pathname`. `pushState`
 * drops the entries after the current one and appends; `replaceState`
 * overwrites the current entry. Every call the hook makes on
 * `window.history` is also recorded in `calls`, so that "no push" and
 * "no replace" are observable.
 */
module MenuHistory {
  import opened Optional
  import opened MenuRoutes

  datatype HistoryCall = PushState(url: string) | ReplaceState(url: string)

  datatype Browser = Browser(route: MenuRoute, entries: seq<string>, index: nat, calls: seq<HistoryCall>)

  predicate Valid(b: Browser) {
    b.index < |b.entries|
  }

  function Pathname(b: Browser): string
    requires Valid(b)
  {
    b.entries[b.index]
  }

  /**
   * The invariant of every state the hook can reach once mounted: the
   * location shows the hook's route, and every history entry is a menu path.
   */
  predicate Synced(b: Browser) {
    && Valid(b)
    && Pathname(b) == b.route
    && forall i :: 0 <= i < |b.entries| ==> IsMenuRoute(b.entries[i])
  }

  /** The state before the effect runs: `useState(() => getCurrentMenuRoute())` on a fresh page. */
  function Initial(pathname: string): (b: Browser)
    ensures Valid(b) && Pathname(b) == pathname && b.calls == []
    ensures b.route == NormalizeMenuRoute(pathname)
  {
    Browser(GetCurrentMenuRoute(Some(pathname)), [pathname], 0, [])
  }

  /**
   * `syncFromLocation`: adopt the normalised route, and rewrite the
   * current entry with `replaceState` only when the location is not
   * already canonical.
   */
  function SyncFromLocation(b: Browser): (r: Browser)
    requires Valid(b)
    ensures Valid(r) && r.route == NormalizeMenuRoute(Pathname(b)) && Pathname(r) == r.route
    ensures |r.entries| == |b.entries| && r.index == b.index
    ensures forall i :: 0 <= i < |b.entries| && i != b.index ==> r.entries[i] == b.entries[i]
    ensures Pathname(b) == r.route ==> r.entries == b.entries && r.calls == b.calls
    ensures Pathname(b) != r.route ==> r.calls == b.calls + [ReplaceState(r.route)]
  {
    var normalized := NormalizeMenuRoute(Pathname(b));
    if Pathname(b) != normalized then
      Browser(normalized, b.entries[b.index := normalized], b.index, b.calls + [ReplaceState(normalized)])
    else
      b.(route := normalized)
  }

  /** Mounting the hook: the initial state, then the effect's immediate sync. */
  function Mount(pathname: string): (b: Browser)
    ensures Synced(b)
    ensures b.route == NormalizeMenuRoute(pathname) && b.entries == [b.route]
  {
    SyncFromLocation(Initial(pathname))
  }

  /**
   * `navigate(next)`: nothing happens when `next` is the current route;
   * otherwise one `pushState(next)` and the route becomes `next`.
   */
  function Navigate(b: Browser, next: MenuRoute): (r: Browser)
    requires Valid(b)
    ensures Valid(r)
    ensures next == b.route ==> r == b
    ensures next != b.route ==> r.route == next && Pathname(r) == next && r.calls == b.calls + [PushState(next)]
    ensures next != b.route ==> r.entries == b.entries[..b.index + 1] + [next]
    ensures next != b.route ==> r.index == b.index + 1 && r.index == |r.entries| - 1
  {
    if next == b.route then b
    else Browser(next, b.entries[..b.index + 1] + [next], b.index + 1, b.calls + [PushState(next)])
  }

  /**
   * A `popstate` event: the user moved to entry `target` (back, forward or
   * a jump), then the listener runs `syncFromLocation`. A target outside
   * the history is not a move, and no event fires.
   */
  function PopState(b: Browser, target: nat): (r: Browser)
    requires Valid(b)
    ensures Valid(r) && |r.entries| == |b.entries|
    ensures target < |b.entries| ==> r.index == target && r.route == NormalizeMenuRoute(b.entries[target])
    ensures target < |b.entries| ==> Pathname(r) == r.route
    ensures target < |b.entries| ==> forall i :: 0 <= i < |b.entries| && i != target ==> r.entries[i] == b.entries[i]
    ensures target < |b.entries| && b.entries[target] == r.route ==> r.entries == b.entries && r.calls == b.calls
    ensures target < |b.entries| && b.entries[target] != r.route ==> r.calls == b.calls + [ReplaceState(r.route)]
    ensures target >= |b.entries| ==> r == b
  {
    if target < |b.entries| then SyncFromLocation(b.(index := target)) else b
  }

  datatype Event = NavigateTo(next: MenuRoute) | PopTo(target: nat)

  function Step(b: Browser, e: Event): (r: Browser)
    requires Valid(b)
    ensures Valid(r)
  {
    match e
    case NavigateTo(next) => Navigate(b, next)
    case PopTo(target) => PopState(b, target)
  }

  function Run(b: Browser, events: seq<Event>): (r: Browser)
    requires Valid(b)
    ensures Valid(r)
    decreases |events|
  {
    if events == [] then b else Run(Step(b, events[0]), events[1..])
  }

  /** Each transition keeps a synced state synced. */
  lemma StepPreservesSynced(b: Browser, e: Event)
    requires Synced(b)
    ensures Synced(Step(b, e))
  {
    match e
    case NavigateTo(next) =>
      var r := Navigate(b, next);
      forall i | 0 <= i < |r.entries|
        ensures IsMenuRoute(r.entries[i])
      {
        if i <= b.index { assert r.entries[i] == b.entries[i]; }
      }
    case PopTo(target) =>
  }

  /** After mounting, whatever the user does, the location shows the route and every entry is a menu path. */
  lemma {:induction false} RunPreservesSynced(b: Browser, events: seq<Event>)
    requires Synced(b)
    ensures Synced(Run(b, events))
    decreases |events|
  {
    if events != [] {
      StepPreservesSynced(b, events[0]);
      RunPreservesSynced(Step(b, events[0]), events[1..]);
    }
  }

  /** On a synced state, moving through history never needs `replaceState`. */
  lemma PopStateOnSyncedNeverReplaces(b: Browser, target: nat)
    requires Synced(b) && target < |b.entries|
    ensures PopState(b, target).calls == b.calls
    ensures PopState(b, target).route == b.entries[target]
  {
    var moved := b.(index := target);
    assert IsMenuRoute(Pathname(moved));
  }

  /** Navigating away and then going back restores the previous route without any further history call. */
  lemma BackAfterNavigateRestoresRoute(b: Browser, next: MenuRoute)
    requires Synced(b) && next != b.route
    ensures PopState(Navigate(b, next), b.index).route == b.route
    ensures PopState(Navigate(b, next), b.index).calls == b.calls + [PushState(next)]
  {
    StepPreservesSynced(b, NavigateTo(next));
    var n := Navigate(b, next);
    assert n.entries[b.index] == b.route;
    PopStateOnSyncedNeverReplaces(n, b.index);
  }

  /** Navigating to the same route twice pushes one entry. */
  lemma NavigateTwiceIsNavigateOnce(b: Browser, next: MenuRoute)
    requires Valid(b)
    ensures Navigate(Navigate(b, next), next) == Navigate(b, next)
  {
  }
}
