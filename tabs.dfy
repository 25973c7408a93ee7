/** Target-tab resolution: which browser tab an operation reads or changes.
    The source repeats this code in every loader and mutation; here it is one
    function. Each browser call is replaced by the answer it gives. */
module Tabs {
  import opened Wrappers
  import opened Text
  import opened Items

  /** A browser tab; its URL may be absent. */
  datatype Tab = Tab(id: int, url: Option<string>)

  /** The answers of the browser calls a resolution may make. */
  datatype TabEnv = TabEnv(
    storedUrl: Result<Option<string>, string>,  // storage.local.get of the stored tab URL
    urlTabs: Result<seq<Tab>, string>,          // tabs.query({ url: stored URL })
    allTabs: Result<seq<Tab>, string>,          // tabs.query({})
    activeTabs: Result<seq<Tab>, string>)       // tabs.query({ active: true, currentWindow: true })

  const ExtensionScheme := "chrome-extension://"
  const BrowserScheme := "chrome://"

  /** A tab showing a web page: a non-empty URL that is not an extension or
      browser-internal page. */
  predicate IsWebPageTab(t: Tab)
  {
    Truthy(t.url) && !StartsWith(t.url.value, ExtensionScheme) && !StartsWith(t.url.value, BrowserScheme)
  }

  /** `tabs[i]` is the first web-page tab of `tabs`. */
  ghost predicate IsFirstWebPageTab(tabs: seq<Tab>, i: int)
  {
    0 <= i < |tabs| && IsWebPageTab(tabs[i]) && forall j :: 0 <= j < i ==> !IsWebPageTab(tabs[j])
  }

  /** `allTabs.find(...)` with the web-page test. */
  function FindWebPageTab(tabs: seq<Tab>): (r: Option<Tab>)
    ensures r.None? <==> forall i :: 0 <= i < |tabs| ==> !IsWebPageTab(tabs[i])
    ensures r.Some? ==> exists i :: IsFirstWebPageTab(tabs, i) && tabs[i] == r.value
  {
    if tabs == [] then None
    else if IsWebPageTab(tabs[0]) then
      assert IsFirstWebPageTab(tabs, 0);
      Some(tabs[0])
    else
      var r := FindWebPageTab(tabs[1..]);
      assert r.Some? ==> exists i :: IsFirstWebPageTab(tabs, i) && tabs[i] == r.value by {
        if r.Some? {
          var i :| IsFirstWebPageTab(tabs[1..], i) && tabs[1..][i] == r.value;
          assert IsFirstWebPageTab(tabs, i + 1);
        }
      }
      r
  }

  /** Resolution in a detached popup window: the stored URL's tab, or else the
      first web-page tab. */
  function ResolveDetached(env: TabEnv): (r: Result<Tab, Failure>)
    ensures r == Err(NoStoredTab) <==> env.storedUrl.Ok? && !Truthy(env.storedUrl.value)
    ensures r.Ok? ==> env.storedUrl.Ok? && Truthy(env.storedUrl.value) && env.urlTabs.Ok?
    ensures r.Ok? && env.urlTabs.value != [] ==> r.value == env.urlTabs.value[0]
    ensures r.Ok? && env.urlTabs.value == [] ==> IsWebPageTab(r.value)
    ensures r == Err(NoValidTab) ==>
      env.urlTabs == Ok([]) && env.allTabs.Ok? &&
      forall i :: 0 <= i < |env.allTabs.value| ==> !IsWebPageTab(env.allTabs.value[i])
    ensures r != Err(NoActiveTab) && r != Err(ItemUndefined)
    ensures env.storedUrl.Err? ==> r == Err(BrowserError(env.storedUrl.error))
    ensures env.storedUrl.Ok? && Truthy(env.storedUrl.value) ==>
      match env.urlTabs
      case Err(e) => r == Err(BrowserError(e))
      case Ok(matching) =>
        if matching != [] then r == Ok(matching[0])
        else match env.allTabs
          case Err(e) => r == Err(BrowserError(e))
          case Ok(all) => r == (match FindWebPageTab(all) case Some(t) => Ok(t) case None => Err(NoValidTab))
    ensures r.Ok? && env.urlTabs.value == [] ==>
      env.allTabs.Ok? && exists i :: IsFirstWebPageTab(env.allTabs.value, i) && env.allTabs.value[i] == r.value
  {
    var stored :- Api(env.storedUrl);
    if !Truthy(stored) then Err(NoStoredTab)
    else
      var matching :- Api(env.urlTabs);
      if matching != [] then Ok(matching[0])
      else
        var all :- Api(env.allTabs);
        match FindWebPageTab(all)
        case Some(t) => Ok(t)
        case None => Err(NoValidTab)
  }

  /** Resolution in the inline popup: the first active tab of the current window. */
  function ResolveInline(env: TabEnv): (r: Result<Tab, Failure>)
    ensures r.Ok? <==> env.activeTabs.Ok? && env.activeTabs.value != []
    ensures r.Ok? ==> r.value == env.activeTabs.value[0]
    ensures r.Err? ==> r.error == NoActiveTab || r.error.BrowserError?
    ensures env.activeTabs == Ok([]) ==> r == Err(NoActiveTab)
    ensures env.activeTabs.Err? ==> r == Err(BrowserError(env.activeTabs.error))
  {
    var tabs :- Api(env.activeTabs);
    if tabs == [] then Err(NoActiveTab) else Ok(tabs[0])
  }

  /** The target tab of an operation, by window mode. */
  function ResolveTarget(isPopupWindow: bool, env: TabEnv): Result<Tab, Failure>
  {
    if isPopupWindow then ResolveDetached(env) else ResolveInline(env)
  }

  /** The fallback picks exactly the first web-page tab, and fails only when
      no tab qualifies. A corollary of the contract of `ResolveDetached`,
      spelled out for the all-tabs branch. */
  lemma DetachedFallback(env: TabEnv, all: seq<Tab>)
    requires env.storedUrl.Ok? && Truthy(env.storedUrl.value)
    requires env.urlTabs == Ok([]) && env.allTabs == Ok(all)
    ensures ResolveDetached(env).Ok? <==> exists i :: 0 <= i < |all| && IsWebPageTab(all[i])
    ensures ResolveDetached(env).Ok? ==>
      exists i :: IsFirstWebPageTab(all, i) && all[i] == ResolveDetached(env).value
  {
  }

  /** An extension page or a browser page is never a web-page tab. */
  lemma InternalPagesAreNotWebPages(id: int, rest: string)
    ensures !IsWebPageTab(Tab(id, Some(ExtensionScheme + rest)))
    ensures !IsWebPageTab(Tab(id, Some(BrowserScheme + rest)))
  {
    assert (ExtensionScheme + rest)[..|ExtensionScheme|] == ExtensionScheme;
    assert (BrowserScheme + rest)[..|BrowserScheme|] == BrowserScheme;
  }
}
