/** The search filter of `filterData`: a case-insensitive substring match of the
    search term against an item's key, value or (when present) domain. */
module Search {
  import opened Wrappers
  import opened Text
  import opened Items

  /** The `filter` predicate. The cookie sub-filter takes no part: its
      `all-frames` branch is empty in the source. */
  predicate MatchesSearch(item: StorageItem, term: string)
  {
    var t := Lower(term);
    t == "" ||
    Contains(Lower(item.key), t) ||
    Contains(Lower(item.value), t) ||
    (Truthy(item.domain) && Contains(Lower(item.domain.value), t))
  }

  /** `storageData.filter(...)`: the matching items, in their original order. */
  function Filter(items: seq<StorageItem>, term: string): (r: seq<StorageItem>)
    ensures |r| <= |items|
    ensures forall i :: 0 <= i < |r| ==> MatchesSearch(r[i], term)
    ensures forall x :: x in r <==> x in items && MatchesSearch(x, term)
  {
    if items == [] then []
    else if MatchesSearch(items[0], term) then [items[0]] + Filter(items[1..], term)
    else Filter(items[1..], term)
  }

  /** Filtering a concatenation filters each part and keeps them in order: with
      the one-item case this determines `Filter` completely. */
  lemma {:induction false} FilterAppend(a: seq<StorageItem>, b: seq<StorageItem>, term: string)
    ensures Filter(a + b, term) == Filter(a, term) + Filter(b, term)
  {
    if a == [] {
      assert a + b == b;
    } else {
      assert (a + b)[1..] == a[1..] + b;
      FilterAppend(a[1..], b, term);
    }
  }

  /** The one-item case. */
  lemma FilterSingleton(x: StorageItem, term: string)
    ensures Filter([x], term) == if MatchesSearch(x, term) then [x] else []
  {
    assert [x][1..] == [];
  }

  /** An empty search term keeps the whole list. */
  lemma {:induction false} FilterEmptyTerm(items: seq<StorageItem>)
    ensures Filter(items, "") == items
  {
    if items != [] {
      FilterEmptyTerm(items[1..]);
    }
  }

  /** Filtering twice with the same term changes nothing more. */
  lemma {:induction false} FilterIdempotent(items: seq<StorageItem>, term: string)
    ensures Filter(Filter(items, term), term) == Filter(items, term)
  {
    if items != [] {
      FilterIdempotent(items[1..], term);
      if MatchesSearch(items[0], term) {
        var rest := Filter(items[1..], term);
        assert ([items[0]] + rest)[1..] == rest;
      }
    }
  }

  /** The match ignores the case of the search term. */
  lemma MatchesIgnoresTermCase(item: StorageItem, term: string)
    ensures MatchesSearch(item, term) == MatchesSearch(item, Lower(term))
  {
    LowerIdempotent(term);
  }
}
