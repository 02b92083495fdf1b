/**
 * Descending order on a numeric key, used for the `orderBy: { … : "desc" }`
 * of the briefing list and for `results.sort(key=…, reverse=True)` in the
 * relevance scorer.
 */
module Sorting {

  ghost predicate SortedDesc<T>(s: seq<T>, key: T -> real)
  {
    forall i, j :: 0 <= i < j < |s| ==> key(s[i]) >= key(s[j])
  }

  /** Puts `x` in front of the first element with a key not above its own. */
  function InsertDesc<T>(x: T, s: seq<T>, key: T -> real): (r: seq<T>)
    requires SortedDesc(s, key)
    ensures SortedDesc(r, key)
    ensures multiset(r) == multiset(s) + multiset{x}
    ensures |r| == |s| + 1
  {
    if s == [] || key(x) >= key(s[0]) then
      ConsSorted(x, s, key);
      [x] + s
    else
      var rest := InsertDesc(x, s[1..], key);
      assert s == [s[0]] + s[1..];
      HeadBounds(s[0], rest, s[1..], x, key);
      ConsSorted(s[0], rest, key);
      [s[0]] + rest
  }

  /** A head whose key is at least every key of a sorted tail keeps it sorted. */
  lemma ConsSorted<T>(h: T, t: seq<T>, key: T -> real)
    requires SortedDesc(t, key)
    requires forall k :: 0 <= k < |t| ==> key(h) >= key(t[k])
    ensures SortedDesc([h] + t, key)
  {
    var r := [h] + t;
    forall i, j | 0 <= i < j < |r| ensures key(r[i]) >= key(r[j]) {
      assert r[j] == t[j - 1];
      if i > 0 {
        assert r[i] == t[i - 1];
      }
    }
  }

  /** Every element of `others` plus `x` has a key at most `key(h)`. */
  lemma HeadBounds<T>(h: T, rest: seq<T>, others: seq<T>, x: T, key: T -> real)
    requires multiset(rest) == multiset(others) + multiset{x}
    requires key(h) >= key(x)
    requires forall k :: 0 <= k < |others| ==> key(h) >= key(others[k])
    ensures forall k :: 0 <= k < |rest| ==> key(h) >= key(rest[k])
  {
    forall k | 0 <= k < |rest| ensures key(h) >= key(rest[k]) {
      assert rest[k] in multiset(rest);
      if rest[k] != x {
        assert rest[k] in multiset(others);
        var m :| 0 <= m < |others| && others[m] == rest[k];
      }
    }
  }

  /** Sorts by key, largest first. */
  function SortDesc<T>(s: seq<T>, key: T -> real): (r: seq<T>)
    ensures SortedDesc(r, key)
    ensures multiset(r) == multiset(s)
    ensures |r| == |s|
  {
    if s == [] then []
    else
      assert s == [s[0]] + s[1..];
      InsertDesc(s[0], SortDesc(s[1..], key), key)
  }

  /** Sorting keeps exactly the elements it is given. */
  lemma SortDescSameElements<T>(s: seq<T>, key: T -> real, x: T)
    ensures x in SortDesc(s, key) <==> x in s
  {
    var r := SortDesc(s, key);
    assert x in r <==> x in multiset(r);
    assert x in s <==> x in multiset(s);
  }
}
