/** The records the store works with: storage items, the cookies they are made
    from, the storage types, and the errors an operation can throw. */
module Items {
  import opened Wrappers

  /** JavaScript truthiness of an optional string: present and non-empty. */
  predicate Truthy(s: Option<string>)
  {
    s.Some? && s.value != ""
  }

  /** A key/value record; the cookie-only fields are absent for page storage. */
  datatype StorageItem = StorageItem(
    key: string,
    value: string,
    domain: Option<string>,
    path: Option<string>,
    secure: Option<bool>,
    httpOnly: Option<bool>,
    sameSite: Option<string>,
    expirationDate: Option<int>)

  /** A cookie as the cookies API reports it. */
  datatype Cookie = Cookie(
    name: string,
    value: string,
    domain: string,
    path: string,
    secure: bool,
    httpOnly: bool,
    sameSite: string,
    expirationDate: Option<int>)

  /** The cookie-to-item mapping of the cookie loader. */
  function CookieItem(c: Cookie): StorageItem
  {
    StorageItem(c.name, c.value, Some(c.domain), Some(c.path), Some(c.secure),
                Some(c.httpOnly), Some(c.sameSite), c.expirationDate)
  }

  /** Reads a cookie back out of an item that carries every cookie field. */
  function ItemCookie(item: StorageItem): Option<Cookie>
  {
    if item.domain.Some? && item.path.Some? && item.secure.Some? &&
       item.httpOnly.Some? && item.sameSite.Some?
    then Some(Cookie(item.key, item.value, item.domain.value, item.path.value,
                     item.secure.value, item.httpOnly.value, item.sameSite.value,
                     item.expirationDate))
    else None
  }

  /** The mapping loses nothing: every cookie field survives in the item. */
  lemma CookieItemRoundTrip(c: Cookie)
    ensures ItemCookie(CookieItem(c)) == Some(c)
  {
  }

  /** `cookies.map(...)`: one item per cookie, in the order the API gave. */
  function CookieItems(cookies: seq<Cookie>): (items: seq<StorageItem>)
    ensures |items| == |cookies|
    ensures forall i :: 0 <= i < |cookies| ==> ItemCookie(items[i]) == Some(cookies[i])
  {
    if cookies == [] then [] else [CookieItem(cookies[0])] + CookieItems(cookies[1..])
  }

  /** `indices.map(i => list[i])`: an index outside the list reads `undefined`. */
  function Snapshot(list: seq<StorageItem>, indices: seq<int>): (r: seq<Option<StorageItem>>)
    ensures |r| == |indices|
    ensures forall k :: 0 <= k < |indices| ==>
      r[k] == if 0 <= indices[k] < |list| then Some(list[indices[k]]) else None
  {
    seq(|indices|, k requires 0 <= k < |indices| =>
      if 0 <= indices[k] < |list| then Some(list[indices[k]]) else None)
  }

  /** The storage types that `currentStorageType` selects. */
  datatype StorageKind = Local | Session | Cookies

  function KindName(k: StorageKind): string
  {
    match k
    case Local => "local"
    case Session => "session"
    case Cookies => "cookies"
  }

  /** The `switch` on `currentStorageType`: any other string selects no branch. */
  function KindOf(t: string): (k: Option<StorageKind>)
    ensures k.Some? ==> KindName(k.value) == t
  {
    if t == "local" then Some(Local)
    else if t == "session" then Some(Session)
    else if t == "cookies" then Some(Cookies)
    else None
  }

  lemma KindNameRoundTrip(k: StorageKind)
    ensures KindOf(KindName(k)) == Some(k)
  {
  }

  /** The errors an operation throws. The first three are the messages the
      target-tab resolution throws; `ItemUndefined` is the TypeError of reading a
      field of `undefined`; `BrowserError` is a rejected browser call. */
  datatype Failure =
    | NoStoredTab
    | NoValidTab
    | NoActiveTab
    | ItemUndefined
    | BrowserError(message: string)

  /** How the failure message names each storage type. */
  function KindLabel(k: StorageKind): (l: string)
    ensures |l| > 0
  {
    match k
    case Local => "Local Storage"
    case Session => "Session Storage"
    case Cookies => "Cookies"
  }

  const LoadFailurePrefix := "Failed to load "
  const LoadFailureSuffix := " data. Please check if you have permission to access this page."

  /** The answer of a browser call, with a rejection read as a thrown `BrowserError`. */
  function Api<T>(r: Result<T, string>): (a: Result<T, Failure>)
    ensures a.Ok? <==> r.Ok?
    ensures a.Ok? ==> a.value == r.value
    ensures a.Err? ==> a.error == BrowserError(r.error)
  {
    match r
    case Ok(v) => Ok(v)
    case Err(m) => Err(BrowserError(m))
  }

  /** The message a failed loader puts into the error state: the type's label
      between a fixed prefix and a fixed suffix, where it can be read back. */
  function LoadFailureMessage(k: StorageKind): (m: string)
    ensures |m| == |LoadFailurePrefix| + |KindLabel(k)| + |LoadFailureSuffix|
    ensures m[..|LoadFailurePrefix|] == LoadFailurePrefix
    ensures m[|LoadFailurePrefix|..|LoadFailurePrefix| + |KindLabel(k)|] == KindLabel(k)
    ensures m[|LoadFailurePrefix| + |KindLabel(k)|..] == LoadFailureSuffix
  {
    LoadFailurePrefix + KindLabel(k) + LoadFailureSuffix
  }

  /** The three labels start with different letters. */
  lemma KindLabelsDistinct(j: StorageKind, k: StorageKind)
    requires j != k
    ensures KindLabel(j)[0] != KindLabel(k)[0]
  {
  }

  /** Each storage type names itself in its failure message. */
  lemma LoadFailureMessagesDistinct(j: StorageKind, k: StorageKind)
    requires j != k
    ensures LoadFailureMessage(j) != LoadFailureMessage(k)
  {
    var n := |LoadFailurePrefix|;
    KindLabelsDistinct(j, k);
    assert LoadFailureMessage(j)[n] == LoadFailureMessage(j)[n..n + |KindLabel(j)|][0] == KindLabel(j)[0];
    assert LoadFailureMessage(k)[n] == LoadFailureMessage(k)[n..n + |KindLabel(k)|][0] == KindLabel(k)[0];
  }
}
