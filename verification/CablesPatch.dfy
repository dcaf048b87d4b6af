/**
 * The animated background's loader (src/components/cables-patch-background.tsx):
 * the patch directory, the script and JS paths derived from it, the options
 * handed to the patch constructor, and the guard that creates at most one
 * patch per effect run.
 */
module CablesPatch {
  import opened Optional
  import opened Strings

  /** A JavaScript option value, as far as truthiness and identity matter. */
  datatype Value =
    | Undefined
    | Null
    | Bool(b: bool)
    | Num(n: int)
    | Str(s: string)
    | Fn(name: string)
    | Obj(ref: nat)
    | Record(fields: map<string, Value>)

  /** The falsy values of JavaScript, as far as `Value` can express them (NaN is not modelled). */
  const Falsy: set<Value> := {Undefined, Null, Bool(false), Num(0), Str("")}

  /** JavaScript truthiness, the test `!x` negates. */
  function Truthy(v: Value): (r: bool)
    ensures r <==> v !in Falsy
  {
    match v
    case Undefined => false
    case Null => false
    case Bool(b) => b
    case Num(n) => n != 0
    case Str(s) => s != ""
    case _ => true
  }

  type Options = map<string, Value>

  /** Property read: an absent key reads as `undefined`. */
  function Get(o: Options, key: string): Value {
    if key in o then o[key] else Undefined
  }

  const DefaultPatchDir: string := "/patch"
  const DefaultCanvasId: string := "cables-bg-canvas"

  /** The directory with exactly one guaranteed trailing slash. */
  function NormalizePatchDir(patchDir: string): (r: string)
    ensures EndsWith(r, '/')
    ensures StartsWith(r, patchDir)
    ensures |r| == if EndsWith(patchDir, '/') then |patchDir| else |patchDir| + 1
  {
    if EndsWith(patchDir, '/') then patchDir else patchDir + "/"
  }

  lemma NormalizePatchDirIdempotent(patchDir: string)
    ensures NormalizePatchDir(NormalizePatchDir(patchDir)) == NormalizePatchDir(patchDir)
  {
  }

  /** The `patchDir` prop with its default: only an omitted prop becomes "/patch". */
  function PatchDirProp(patchDir: Option<string>): (r: string)
    ensures NormalizePatchDir(r) == if patchDir.None? then "/patch/" else NormalizePatchDir(patchDir.value)
  {
    patchDir.GetOr(DefaultPatchDir)
  }

  /** The `canvasId` prop with its default: only an omitted prop becomes "cables-bg-canvas". */
  function CanvasIdProp(canvasId: Option<string>): (r: string)
    ensures canvasId.None? ==> r == DefaultCanvasId
    ensures canvasId.Some? ==> r == canvasId.value
  {
    canvasId.GetOr(DefaultCanvasId)
  }

  /** The patch script's URL and the JS directory passed to the patch. */
  function ScriptSrc(dir: string): (r: string)
    ensures StartsWith(r, NormalizePatchDir(dir)) && StartsWith(r, dir)
    ensures r[|NormalizePatchDir(dir)|..] == "js/patch.js"
  {
    NormalizePatchDir(dir) + "js/patch.js"
  }

  function JsPath(dir: string): (r: string)
    ensures EndsWith(r, '/')
    ensures StartsWith(r, NormalizePatchDir(dir)) && r[|NormalizePatchDir(dir)|..] == "js/"
  {
    NormalizePatchDir(dir) + "js/"
  }

  /** The script lives in the JS directory, which lives in the patch directory. */
  lemma ScriptInJsDirectory(dir: string)
    ensures ScriptSrc(dir) == JsPath(dir) + "patch.js"
    ensures StartsWith(JsPath(dir), NormalizePatchDir(dir)) && StartsWith(JsPath(dir), dir)
  {
    var n := NormalizePatchDir(dir);
    assert JsPath(dir)[..|n|] == n;
    assert JsPath(dir)[..|dir|] == n[..|dir|];
  }

  // ---------------------------------------------------------------------
  // Options

  /** The options `initPatch` supplies before the caller's own. */
  function DefaultOptions(dir: string, canvasId: string): (r: Options)
    ensures r.Keys == {"prefixAssetPath", "jsPath", "glCanvasId", "glCanvasResizeToWindow", "canvas"}
    ensures r["prefixAssetPath"] == Str(NormalizePatchDir(dir)) && r["jsPath"] == Str(JsPath(dir))
    ensures r["glCanvasId"] == Str(canvasId) && r["glCanvasResizeToWindow"] == Bool(true)
    ensures r["canvas"] == Record(map["alpha" := Bool(true), "premultipliedAlpha" := Bool(true)])
    ensures forall k :: k in r ==> k !in FilledKeys
  {
    map[
      "prefixAssetPath" := Str(NormalizePatchDir(dir)),
      "jsPath" := Str(JsPath(dir)),
      "glCanvasId" := Str(canvasId),
      "glCanvasResizeToWindow" := Bool(true),
      "canvas" := Record(map["alpha" := Bool(true), "premultipliedAlpha" := Bool(true)])
    ]
  }

  /** The three keys filled in after the merge when falsy. */
  const FilledKeys: set<string> := {"patch", "onPatchLoaded", "onFinishedLoading"}

  /**
   * The constructor options: the defaults, overridden key by key by
   * `patchOptions` (spread copies a key even when its value is
   * `undefined`), then `patch` falls back to the exported patch and the two
   * callbacks to no-ops, each only when falsy after the merge.
   */
  function BuildPatchOptions(dir: string, canvasId: string, patchOptions: Option<Options>, exportedPatch: Value): (r: Options)
    ensures r.Keys == DefaultOptions(dir, canvasId).Keys + patchOptions.GetOr(map[]).Keys + FilledKeys
    ensures forall k :: k in patchOptions.GetOr(map[]) && (k !in FilledKeys || Truthy(patchOptions.GetOr(map[])[k]))
                        ==> r[k] == patchOptions.GetOr(map[])[k]
    ensures forall k :: k in DefaultOptions(dir, canvasId) && k !in patchOptions.GetOr(map[]) ==> r[k] == DefaultOptions(dir, canvasId)[k]
    ensures !Truthy(Get(patchOptions.GetOr(map[]), "patch")) ==> r["patch"] == exportedPatch
    ensures Truthy(r["onPatchLoaded"]) && Truthy(r["onFinishedLoading"])
    ensures !Truthy(Get(patchOptions.GetOr(map[]), "onPatchLoaded")) ==> r["onPatchLoaded"] == Fn("noop")
    ensures !Truthy(Get(patchOptions.GetOr(map[]), "onFinishedLoading")) ==> r["onFinishedLoading"] == Fn("noop")
  {
    var merged := DefaultOptions(dir, canvasId) + patchOptions.GetOr(map[]);
    var withPatch := if Truthy(Get(merged, "patch")) then merged else merged["patch" := exportedPatch];
    var withLoaded :=
      if Truthy(Get(withPatch, "onPatchLoaded")) then withPatch else withPatch["onPatchLoaded" := Fn("noop")];
    if Truthy(Get(withLoaded, "onFinishedLoading")) then withLoaded else withLoaded["onFinishedLoading" := Fn("noop")]
  }

  /** Without caller options the constructor sees the defaults plus the three fallbacks. */
  lemma NoPatchOptionsGivesDefaults(dir: string, canvasId: string, exportedPatch: Value)
    ensures var r := BuildPatchOptions(dir, canvasId, None, exportedPatch);
            && r["prefixAssetPath"] == Str(NormalizePatchDir(dir))
            && r["jsPath"] == Str(JsPath(dir))
            && r["glCanvasId"] == Str(canvasId)
            && r["patch"] == exportedPatch
            && r["onPatchLoaded"] == Fn("noop") && r["onFinishedLoading"] == Fn("noop")
  {
  }

  // ---------------------------------------------------------------------
  // At most one patch per effect run

  /** A constructed patch: the options it was given and whether it has a `delete` method. */
  datatype Patch = Patch(options: Options, hasDelete: bool)

  /**
   * `window.CABLES`: whether it has a `Patch` constructor, whether the
   * patches it constructs have a `delete` method, its exported patch, and
   * the patch last assigned to it.
   */
  datatype CablesApi = CablesApi(hasPatchConstructor: bool, patchHasDelete: bool, exportedPatch: Value, patch: Option<Patch>)

  /** One run of the effect: its `isDisposed` flag, `patchRef.current`, and how many patches it created and deleted. */
  datatype EffectRun = EffectRun(disposed: bool, current: Option<Patch>, created: nat, deleted: nat)

  /** What the effect closes over. */
  datatype PatchConfig = PatchConfig(dir: string, canvasId: string, patchOptions: Option<Options>)

  const FreshRun: EffectRun := EffectRun(false, None, 0, 0)

  /**
   * `initPatch`: does nothing once disposed, when a patch already exists,
   * or when the library has no `Patch` constructor; otherwise constructs
   * one patch and stores it in the ref and on the library object.
   */
  function InitPatch(run: EffectRun, api: Option<CablesApi>, cfg: PatchConfig): (r: (EffectRun, Option<CablesApi>))
    ensures run.disposed || run.current.Some? ==> r == (run, api)
    ensures r.0.created == run.created ==> r == (run, api)
    ensures r.0.created == run.created || r.0.created == run.created + 1
    ensures r.0.created == run.created + 1 <==>
              !run.disposed && run.current.None? && api.Some? && api.value.hasPatchConstructor
    ensures r.0.created == run.created + 1 ==>
              r.0.current.Some? && r.1.Some? && r.1.value.patch == r.0.current
              && r.0.current.value.options
                 == BuildPatchOptions(cfg.dir, cfg.canvasId, cfg.patchOptions, api.value.exportedPatch)
              && r.0.current.value.hasDelete == api.value.patchHasDelete
              && r.0 == run.(current := r.0.current, created := run.created + 1)
              && r.1 == Some(api.value.(patch := r.0.current))
  {
    if run.disposed || run.current.Some? then (run, api)
    else if api.None? || !api.value.hasPatchConstructor then (run, api)
    else
      var patch := Patch(BuildPatchOptions(cfg.dir, cfg.canvasId, cfg.patchOptions, api.value.exportedPatch), api.value.patchHasDelete);
      (run.(current := Some(patch), created := run.created + 1), Some(api.value.(patch := Some(patch))))
  }

  /**
   * The effect's cleanup: mark disposed, call the patch's `delete` when
   * there is a patch and it has one (`delete?.()`), clear the ref.
   */
  function Cleanup(run: EffectRun): (r: EffectRun)
    ensures r.disposed && r.current.None? && r.created == run.created
    ensures run.current.Some? && run.current.value.hasDelete ==> r.deleted == run.deleted + 1
    ensures run.current.None? || !run.current.value.hasDelete ==> r.deleted == run.deleted
  {
    var deletes := run.current.Some? && run.current.value.hasDelete;
    EffectRun(true, None, run.created, run.deleted + if deletes then 1 else 0)
  }

  datatype PatchEvent = ScriptLoaded(api: Option<CablesApi>) | Unmounted

  function RunEvents(run: EffectRun, api: Option<CablesApi>, cfg: PatchConfig, events: seq<PatchEvent>): (r: (EffectRun, Option<CablesApi>))
    decreases |events|
  {
    if events == [] then (run, api)
    else match events[0]
      case ScriptLoaded(a) =>
        var next := InitPatch(run, a, cfg);
        RunEvents(next.0, next.1, cfg, events[1..])
      case Unmounted => RunEvents(Cleanup(run), api, cfg, events[1..])
  }

  /** The invariant of an effect run: at most one patch, live exactly while created and not disposed. */
  predicate RunInvariant(run: EffectRun) {
    && run.created <= 1
    && (run.current.Some? <==> run.created == 1 && !run.disposed)
    && run.deleted + (if run.current.Some? then 1 else 0) <= run.created
  }

  /** However often the script's load event fires, an effect run creates at most one patch, and never deletes more than it created. */
  lemma {:induction false} AtMostOnePatchPerRun(run: EffectRun, api: Option<CablesApi>, cfg: PatchConfig, events: seq<PatchEvent>)
    requires RunInvariant(run)
    ensures RunInvariant(RunEvents(run, api, cfg, events).0)
    decreases |events|
  {
    if events != [] {
      match events[0]
      case ScriptLoaded(a) =>
        var next := InitPatch(run, a, cfg);
        AtMostOnePatchPerRun(next.0, next.1, cfg, events[1..]);
      case Unmounted =>
        AtMostOnePatchPerRun(Cleanup(run), api, cfg, events[1..]);
    }
  }

  /** A fresh run satisfies the invariant; after unmounting no patch is live and none is ever created again. */
  lemma {:induction false} NoPatchAfterUnmount(run: EffectRun, api: Option<CablesApi>, cfg: PatchConfig, events: seq<PatchEvent>)
    requires run.disposed && run.current.None?
    ensures RunEvents(run, api, cfg, events).0.current.None?
    ensures RunEvents(run, api, cfg, events).0.created == run.created
    decreases |events|
  {
    if events != [] {
      match events[0]
      case ScriptLoaded(a) =>
        NoPatchAfterUnmount(run, a, cfg, events[1..]);
      case Unmounted =>
        NoPatchAfterUnmount(Cleanup(run), api, cfg, events[1..]);
    }
  }

  /** From a fresh run, no sequence of load and unmount events creates more than one patch. */
  lemma FreshRunCreatesAtMostOnePatch(api: Option<CablesApi>, cfg: PatchConfig, events: seq<PatchEvent>)
    ensures RunEvents(FreshRun, api, cfg, events).0.created <= 1
  {
    AtMostOnePatchPerRun(FreshRun, api, cfg, events);
  }
}
