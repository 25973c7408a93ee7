/** The mutations the store sends to the browser: deleting one item, updating
    one value, and the cookie-removal URL. Each is a pure step from the answers
    of the browser calls it makes to the request it sends and whether it threw. */
module Mutations {
  import opened Wrappers
  import opened Text
  import opened Items
  import opened Tabs

  /** The page storage area an injected script touches. */
  datatype Area = LocalArea | SessionArea

  /** A request sent to the browser. */
  datatype Request =
    | SetItem(tabId: int, area: Area, key: string, value: string)   // script: storage.setItem(key, value)
    | RemoveItem(tabId: int, area: Area, key: string)               // script: storage.removeItem(key)
    | RemoveCookie(url: string, name: string)                        // cookies.remove({ url, name })

  /** The answers of the browser calls one mutation makes: the tab lookups,
      then the one script or cookie call. */
  datatype MutationEnv = MutationEnv(tabs: TabEnv, call: Result<(), string>)

  /** One mutation: the request it sent (if it got that far) and whether it threw. */
  datatype Attempt = Attempt(request: Option<Request>, result: Result<(), Failure>)

  /** A template-literal rendering of an optional string. */
  function TemplateText(s: Option<string>): string
  {
    if s.Some? then s.value else "undefined"
  }

  /** The URL a cookie is removed under: the scheme by the secure flag, then the
      domain, then the path or "/". */
  function CookieRemovalUrl(item: StorageItem): string
  {
    "http" + (if item.secure == Some(true) then "s" else "") + "://" +
    TemplateText(item.domain) + (if Truthy(item.path) then item.path.value else "/")
  }

  /** The removal URL is an https URL exactly when the cookie is secure. */
  lemma CookieUrlScheme(item: StorageItem)
    ensures StartsWith(CookieRemovalUrl(item), "https://") <==> item.secure == Some(true)
    ensures StartsWith(CookieRemovalUrl(item), "http://") <==> item.secure != Some(true)
  {
    var url := CookieRemovalUrl(item);
    if item.secure == Some(true) {
      assert url == "https://" + (TemplateText(item.domain) + (if Truthy(item.path) then item.path.value else "/"));
      assert url[4] == 's';
    } else {
      assert url == "http://" + (TemplateText(item.domain) + (if Truthy(item.path) then item.path.value else "/"));
      assert url[4] == ':';
    }
  }

  /** For an item read from a cookie, the URL is rebuilt from the cookie's own
      domain and path. */
  lemma CookieUrlOfLoadedCookie(c: Cookie)
    ensures CookieRemovalUrl(CookieItem(c)) ==
      (if c.secure then "https://" else "http://") + c.domain + (if c.path == "" then "/" else c.path)
  {
  }

  /** The request `deleteStorageItem` sends for a defined item. The session
      branch runs `localStorage.removeItem`, as the source does. */
  function DeleteRequest(k: StorageKind, tab: Tab, item: StorageItem): (r: Request)
    ensures k != Cookies ==> r == RemoveItem(tab.id, LocalArea, item.key)
    ensures k == Cookies ==> r == RemoveCookie(CookieRemovalUrl(item), item.key)
  {
    match k
    case Local => RemoveItem(tab.id, LocalArea, item.key)
    case Session => RemoveItem(tab.id, LocalArea, item.key)
    case Cookies => RemoveCookie(CookieRemovalUrl(item), item.key)
  }

  /** `deleteStorageItem`: resolve the target, then send the removal. An
      `undefined` item throws when its fields are read, after the resolution; an
      unknown storage type sends nothing and succeeds. */
  function DeleteAttempt(item: Option<StorageItem>, storageType: string, isPopupWindow: bool,
                         env: MutationEnv): (a: Attempt)
    ensures ResolveTarget(isPopupWindow, env.tabs).Err? ==>
      a == Attempt(None, Err(ResolveTarget(isPopupWindow, env.tabs).error))
    ensures a.request.Some? <==>
      ResolveTarget(isPopupWindow, env.tabs).Ok? && KindOf(storageType).Some? && item.Some?
    ensures a.request.Some? ==>
      a.request.value == DeleteRequest(KindOf(storageType).value, ResolveTarget(isPopupWindow, env.tabs).value, item.value)
    ensures a.result.Ok? <==>
      ResolveTarget(isPopupWindow, env.tabs).Ok? &&
      (KindOf(storageType).None? || (item.Some? && env.call.Ok?))
    ensures ResolveTarget(isPopupWindow, env.tabs).Ok? && KindOf(storageType).Some? ==>
      a.result == (if item.None? then Err(ItemUndefined) else Api(env.call))
  {
    match ResolveTarget(isPopupWindow, env.tabs)
    case Err(f) => Attempt(None, Err(f))
    case Ok(tab) =>
      match KindOf(storageType)
      case None => Attempt(None, Ok(()))
      case Some(k) =>
        if item.None? then Attempt(None, Err(ItemUndefined))
        else Attempt(Some(DeleteRequest(k, tab, item.value)), Api(env.call))
  }

  /** The attempt each item of a bulk delete would make, each with its own
      answers from the browser. */
  function DeleteAttempts(items: seq<Option<StorageItem>>, storageType: string, isPopupWindow: bool,
                          envs: nat -> MutationEnv): (r: seq<Attempt>)
    ensures |r| == |items|
    ensures forall i {:trigger DeleteAttempt(items[i], storageType, isPopupWindow, envs(i))} ::
      0 <= i < |items| ==> r[i] == DeleteAttempt(items[i], storageType, isPopupWindow, envs(i))
  {
    seq(|items|, i requires 0 <= i < |items| => DeleteAttempt(items[i], storageType, isPopupWindow, envs(i)))
  }

  /** The position of the first attempt that threw. */
  function FirstFailure(attempts: seq<Attempt>): (r: Option<nat>)
    ensures r.None? <==> forall i :: 0 <= i < |attempts| ==> attempts[i].result.Ok?
    ensures r.Some? ==> r.value < |attempts| && attempts[r.value].result.Err?
    ensures r.Some? ==> forall i :: 0 <= i < r.value ==> attempts[i].result.Ok?
  {
    if attempts == [] then None
    else if attempts[0].result.Err? then Some(0)
    else match FirstFailure(attempts[1..])
      case None => None
      case Some(j) => Some(j + 1)
  }

  /** An attempt that throws after only successes is the first failure. */
  lemma FirstFailureAt(attempts: seq<Attempt>, i: nat)
    requires i < |attempts| && attempts[i].result.Err?
    requires forall m :: 0 <= m < i ==> attempts[m].result.Ok?
    ensures FirstFailure(attempts) == Some(i)
  {
  }

  /** The request one attempt sent, if any. */
  function Sent(a: Attempt): (r: seq<Request>)
    ensures |r| <= 1
  {
    if a.request.Some? then [a.request.value] else []
  }

  /** The requests the attempts sent, in order. */
  function SentRequests(attempts: seq<Attempt>): (r: seq<Request>)
    ensures |r| <= |attempts|
  {
    if attempts == [] then [] else Sent(attempts[0]) + SentRequests(attempts[1..])
  }

  lemma {:induction false} SentRequestsAppend(a: seq<Attempt>, b: seq<Attempt>)
    ensures SentRequests(a + b) == SentRequests(a) + SentRequests(b)
  {
    if a == [] {
      assert a + b == b;
    } else {
      var h := Sent(a[0]);
      calc {
        SentRequests(a + b);
      == { assert (a + b)[0] == a[0]; assert (a + b)[1..] == a[1..] + b; }
        h + SentRequests(a[1..] + b);
      == { SentRequestsAppend(a[1..], b); }
        h + (SentRequests(a[1..]) + SentRequests(b));
      ==
        (h + SentRequests(a[1..])) + SentRequests(b);
      }
    }
  }

  /** One more attempt adds its own request, if any, at the end. */
  lemma SentRequestsSnoc(attempts: seq<Attempt>, i: nat)
    requires i < |attempts|
    ensures SentRequests(attempts[..i + 1]) ==
      SentRequests(attempts[..i]) + Sent(attempts[i])
  {
    assert attempts[..i + 1] == attempts[..i] + [attempts[i]];
    SentRequestsAppend(attempts[..i], [attempts[i]]);
  }

  /** When every attempt sends its request, the requests go out one per item,
      in the order of the items. */
  lemma {:induction false} SentRequestsInOrder(attempts: seq<Attempt>)
    requires forall i :: 0 <= i < |attempts| ==> attempts[i].request.Some?
    ensures |SentRequests(attempts)| == |attempts|
    ensures forall i :: 0 <= i < |attempts| ==> SentRequests(attempts)[i] == attempts[i].request.value
  {
    if attempts != [] {
      SentRequestsInOrder(attempts[1..]);
    }
  }

  /** A bulk delete that stops at its first failure has sent the requests of
      the attempts up to that one: the full run's requests are those followed
      by the requests of the attempts that were never tried. */
  lemma StopAtFirstFailure(attempts: seq<Attempt>)
    requires FirstFailure(attempts).Some?
    ensures var j := FirstFailure(attempts).value;
      SentRequests(attempts) == SentRequests(attempts[..j + 1]) + SentRequests(attempts[j + 1..])
  {
    var j := FirstFailure(attempts).value;
    assert attempts == attempts[..j + 1] + attempts[j + 1..];
    SentRequestsAppend(attempts[..j + 1], attempts[j + 1..]);
  }

  /** One step of a bulk delete that has not yet failed: the attempt's request
      follows those already sent, and if it throws it is the first failure and
      the rest of the run is never tried. */
  lemma StepOfRun(attempts: seq<Attempt>, i: nat)
    requires i < |attempts| && FirstFailure(attempts[..i]) == None
    ensures SentRequests(attempts[..i + 1]) == SentRequests(attempts[..i]) + Sent(attempts[i])
    ensures attempts[i].result.Ok? ==> FirstFailure(attempts[..i + 1]) == None
    ensures attempts[i].result.Err? ==>
      FirstFailure(attempts) == Some(i) &&
      SentRequests(attempts) == SentRequests(attempts[..i + 1]) + SentRequests(attempts[i + 1..])
  {
    SentRequestsSnoc(attempts, i);
    var before, upTo := attempts[..i], attempts[..i + 1];
    forall m | 0 <= m < i
      ensures attempts[m].result.Ok?
    {
      assert before[m] == attempts[m];
    }
    if attempts[i].result.Err? {
      FirstFailureAt(attempts, i);
      StopAtFirstFailure(attempts);
    } else {
      forall m | 0 <= m < i + 1
        ensures upTo[m].result.Ok?
      {
        assert upTo[m] == attempts[m];
      }
    }
  }

  /** The request `updateStorageItem` sends: a script for page storage (to the
      area the type names), nothing for any other type. */
  function UpdateRequest(k: Option<StorageKind>, tab: Tab, key: string, value: string): (r: Option<Request>)
    ensures r.Some? <==> k == Some(Local) || k == Some(Session)
    ensures r.Some? ==> r.value == SetItem(tab.id, if k == Some(Local) then LocalArea else SessionArea, key, value)
  {
    match k
    case Some(Local) => Some(SetItem(tab.id, LocalArea, key, value))
    case Some(Session) => Some(SetItem(tab.id, SessionArea, key, value))
    case _ => None
  }

  /** `updateStorageItem` up to its patch: resolve the target, then send the
      update. Only a sent request can be rejected. */
  function UpdateAttempt(key: string, value: string, storageType: string, isPopupWindow: bool,
                         env: MutationEnv): (a: Attempt)
    ensures ResolveTarget(isPopupWindow, env.tabs).Err? ==>
      a == Attempt(None, Err(ResolveTarget(isPopupWindow, env.tabs).error))
    ensures ResolveTarget(isPopupWindow, env.tabs).Ok? ==>
      a.request == UpdateRequest(KindOf(storageType), ResolveTarget(isPopupWindow, env.tabs).value, key, value)
    ensures a.result.Ok? <==> ResolveTarget(isPopupWindow, env.tabs).Ok? && (a.request.None? || env.call.Ok?)
  {
    match ResolveTarget(isPopupWindow, env.tabs)
    case Err(f) => Attempt(None, Err(f))
    case Ok(tab) =>
      var request := UpdateRequest(KindOf(storageType), tab, key, value);
      if request.Some? then Attempt(request, Api(env.call)) else Attempt(None, Ok(()))
  }
}
