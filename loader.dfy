/** The per-type loaders of `loadStorageData`: resolve the target tab, then ask
    the page (local/session) or the cookies API (cookies) for the items. */
module Loader {
  import opened Wrappers
  import opened Items
  import opened Tabs

  /** The answers of the browser calls one load makes. */
  datatype LoadEnv = LoadEnv(
    tabs: TabEnv,
    // scripting.executeScript: one entry per frame, each with an optional result
    script: Result<seq<Option<seq<StorageItem>>>, string>,
    // cookies.getAll({ url: tab.url })
    cookies: Result<seq<Cookie>, string>)

  /** `result[0]?.result || []`: the main frame's items, or none. */
  function FirstFrameItems(frames: seq<Option<seq<StorageItem>>>): (items: seq<StorageItem>)
    ensures frames != [] && frames[0].Some? ==> items == frames[0].value
    ensures frames == [] || frames[0].None? ==> items == []
  {
    if frames != [] && frames[0].Some? then frames[0].value else []
  }

  /** One loader: the items it reads, or the error it catches. */
  function LoadItems(k: StorageKind, isPopupWindow: bool, env: LoadEnv): (r: Result<seq<StorageItem>, Failure>)
    ensures ResolveTarget(isPopupWindow, env.tabs).Err? ==> r == Err(ResolveTarget(isPopupWindow, env.tabs).error)
    ensures r.Ok? <==>
      ResolveTarget(isPopupWindow, env.tabs).Ok? && (if k == Cookies then env.cookies.Ok? else env.script.Ok?)
    ensures r.Ok? && k == Cookies ==>
      |r.value| == |env.cookies.value| &&
      forall i :: 0 <= i < |r.value| ==> ItemCookie(r.value[i]) == Some(env.cookies.value[i])
    ensures r.Ok? && k != Cookies ==> r.value == FirstFrameItems(env.script.value)
  {
    var tab :- ResolveTarget(isPopupWindow, env.tabs);
    match k
    case Local => var frames :- Api(env.script); Ok(FirstFrameItems(frames))
    case Session => var frames :- Api(env.script); Ok(FirstFrameItems(frames))
    case Cookies => var cookies :- Api(env.cookies); Ok(CookieItems(cookies))
  }

  /** What a whole load leaves behind: the loaded items and the error message,
      if a loader failed. A storage type the switch does not know loads nothing
      and fails nothing. */
  datatype Loaded = Loaded(items: seq<StorageItem>, error: Option<string>)

  function Load(storageType: string, isPopupWindow: bool, env: LoadEnv): (r: Loaded)
    ensures r.error.Some? ==> r.items == []
    ensures r.error.Some? <==> KindOf(storageType).Some? && LoadItems(KindOf(storageType).value, isPopupWindow, env).Err?
    ensures r.error.Some? ==> r.error.value == LoadFailureMessage(KindOf(storageType).value)
    ensures r.error.None? && KindOf(storageType).Some? ==>
      r.items == LoadItems(KindOf(storageType).value, isPopupWindow, env).value
    ensures KindOf(storageType).None? ==> r == Loaded([], None)
  {
    match KindOf(storageType)
    case None => Loaded([], None)
    case Some(k) =>
      match LoadItems(k, isPopupWindow, env)
      case Ok(items) => Loaded(items, None)
      case Err(_) => Loaded([], Some(LoadFailureMessage(k)))
  }

  /** A load whose target tab cannot be resolved (no stored URL, no web-page tab,
      no active tab, or a rejected lookup) reports that storage type's failure. */
  lemma UnresolvedTargetFailsLoad(k: StorageKind, isPopupWindow: bool, env: LoadEnv)
    requires ResolveTarget(isPopupWindow, env.tabs).Err?
    ensures Load(KindName(k), isPopupWindow, env) == Loaded([], Some(LoadFailureMessage(k)))
  {
    KindNameRoundTrip(k);
  }
}
