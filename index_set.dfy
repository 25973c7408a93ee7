/** The selection is a JavaScript `Set<number>`: no duplicates, iterated in
    insertion order. It is modelled as a duplicate-free sequence. */
module IndexSet {

  predicate NoDup(s: seq<int>)
  {
    forall i, j :: 0 <= i < j < |s| ==> s[i] != s[j]
  }

  function Elements(s: seq<int>): set<int>
  {
    set x | x in s
  }

  /** `set.size` is the number of distinct members. */
  lemma {:induction false} SizeIsCardinality(s: seq<int>)
    requires NoDup(s)
    ensures |Elements(s)| == |s|
  {
    if s != [] {
      var last := s[|s| - 1];
      var init := s[..|s| - 1];
      assert s == init + [last];
      assert NoDup(init);
      assert last !in init;
      assert Elements(s) == Elements(init) + {last};
      SizeIsCardinality(init);
    }
  }

  /** `set.add(x)`: appended when absent, otherwise nothing changes. */
  function Add(s: seq<int>, x: int): (r: seq<int>)
    ensures NoDup(s) ==> NoDup(r)
    ensures Elements(r) == Elements(s) + {x}
    ensures r == if x in s then s else s + [x]
  {
    if x in s then s else s + [x]
  }

  /** `set.delete(x)`: every other member stays, in its order. */
  function Delete(s: seq<int>, x: int): (r: seq<int>)
    ensures Elements(r) == Elements(s) - {x}
    ensures |r| <= |s|
    ensures NoDup(s) ==> NoDup(r)
    ensures x !in s ==> r == s
  {
    if s == [] then []
    else
      assert Elements(s) == {s[0]} + Elements(s[1..]);
      var rest := Delete(s[1..], x);
      if s[0] == x then rest
      else
        assert Elements([s[0]] + rest) == {s[0]} + Elements(rest);
        assert NoDup(s) ==> s[0] !in rest;
        [s[0]] + rest
  }

  /** The tail of a duplicate-free selection is duplicate-free and lacks the head. */
  lemma NoDupTail(s: seq<int>)
    requires NoDup(s) && |s| > 0
    ensures NoDup(s[1..]) && s[0] !in s[1..]
  {
    var t := s[1..];
    forall a, b | 0 <= a < b < |t| ensures t[a] != t[b] {
      assert t[a] == s[a + 1] && t[b] == s[b + 1];
    }
    forall b | 0 <= b < |t| ensures t[b] != s[0] {
      assert t[b] == s[b + 1];
    }
  }

  /** Deleting a member of a duplicate-free selection cuts out exactly its
      position and keeps the others in their order. */
  lemma {:induction false} DeleteAt(s: seq<int>, i: nat)
    requires NoDup(s) && i < |s|
    ensures Delete(s, s[i]) == s[..i] + s[i + 1..]
  {
    NoDupTail(s);
    var t := s[1..];
    if i == 0 {
      assert Delete(s, s[0]) == Delete(t, s[0]) == t;
    } else {
      var x := s[i];
      assert x == t[i - 1] != s[0];
      DeleteAt(t, i - 1);
      calc {
        Delete(s, x);
        [s[0]] + Delete(t, x);
        [s[0]] + (t[..i - 1] + t[i..]);
        { assert t[..i - 1] == s[1..i] && t[i..] == s[i + 1..]; }
        [s[0]] + (s[1..i] + s[i + 1..]);
        { assert s[..i] == [s[0]] + s[1..i]; }
        s[..i] + s[i + 1..];
      }
    }
  }

  /** `forEach((_, index) => set.add(index))` over a list of length `n`. */
  function AddRange(s: seq<int>, n: nat): (r: seq<int>)
  {
    if n == 0 then s else Add(AddRange(s, n - 1), n - 1)
  }

  /** Adding every index keeps the old members, in front, and adds exactly
      the indices below `n`. */
  lemma {:induction false} AddRangeSpec(s: seq<int>, n: nat)
    ensures forall x :: x in Elements(AddRange(s, n)) <==> x in Elements(s) || 0 <= x < n
    ensures |s| <= |AddRange(s, n)| && AddRange(s, n)[..|s|] == s
    ensures NoDup(s) ==> NoDup(AddRange(s, n))
  {
    if n > 0 {
      AddRangeSpec(s, n - 1);
      var prev := AddRange(s, n - 1);
      if n - 1 !in prev {
        assert (prev + [n - 1])[..|s|] == prev[..|s|];
      }
    }
  }

  /** Selecting one index and deselecting it again restores a selection that
      did not hold it. */
  lemma {:induction false} AddThenDelete(s: seq<int>, x: int)
    requires x !in s
    ensures Delete(Add(s, x), x) == s
    decreases |s|
  {
    if s != [] {
      assert (s + [x])[0] == s[0];
      assert (s + [x])[1..] == s[1..] + [x];
      AddThenDelete(s[1..], x);
      assert [s[0]] + s[1..] == s;
    } else {
      assert [x][1..] == [];
    }
  }
}
