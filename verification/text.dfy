/**
 * String helpers shared by the TypeScript and Python code: trimming,
 * lower-casing, substring search, joining and the two kinds of split the
 * source uses (on one character, and on runs of whitespace).
 *
 * Whitespace is the ASCII set (space, tab, line feed, vertical tab, form
 * feed, carriage return) and lower-casing maps only 'A'..'Z'.
 */
module Text {
  import opened Wrappers

  predicate IsSpace(c: char)
  {
    c == ' ' || c == '\t' || c == '\n' || c == '\r' || c == '\U{000B}' || c == '\U{000C}'
  }

  predicate NoSpace(s: string)
  {
    forall i :: 0 <= i < |s| ==> !IsSpace(s[i])
  }

  function LowerChar(c: char): char
  {
    if 'A' <= c <= 'Z' then (c as int + 32) as char else c
  }

  /** `s.toLowerCase()` / `s.lower()`. */
  function Lower(s: string): (r: string)
    ensures |r| == |s|
    ensures forall i :: 0 <= i < |s| ==> r[i] == LowerChar(s[i])
  {
    if s == [] then [] else [LowerChar(s[0])] + Lower(s[1..])
  }

  /** Drops the leading run of whitespace (`trimStart`, `lstrip`). */
  function TrimStart(s: string): (r: string)
    ensures |r| <= |s| && r == s[|s| - |r|..]
    ensures r != [] ==> !IsSpace(r[0])
    ensures s != [] && IsSpace(s[0]) ==> |r| < |s|
  {
    if s != [] && IsSpace(s[0]) then TrimStart(s[1..]) else s
  }

  /** What `TrimStart` drops is whitespace. */
  lemma {:induction false} TrimStartDropsSpaces(s: string)
    ensures forall k :: 0 <= k < |s| - |TrimStart(s)| ==> IsSpace(s[k])
  {
    if s != [] && IsSpace(s[0]) {
      TrimStartDropsSpaces(s[1..]);
      assert forall k :: 1 <= k < |s| - |TrimStart(s)| ==> s[k] == s[1..][k - 1];
    }
  }

  /** Drops the trailing run of whitespace (`trimEnd`, `rstrip`). */
  function TrimEnd(s: string): (r: string)
    ensures |r| <= |s| && r == s[..|r|]
    ensures r != [] ==> !IsSpace(r[|r| - 1])
  {
    if s != [] && IsSpace(s[|s| - 1]) then TrimEnd(s[..|s| - 1]) else s
  }

  /** What `TrimEnd` drops is whitespace. */
  lemma {:induction false} TrimEndDropsSpaces(s: string)
    ensures forall k :: |TrimEnd(s)| <= k < |s| ==> IsSpace(s[k])
  {
    if s != [] && IsSpace(s[|s| - 1]) {
      TrimEndDropsSpaces(s[..|s| - 1]);
    }
  }

  /** `s.trim()` / `s.strip()`. */
  function Trim(s: string): (r: string)
    ensures r == [] || (!IsSpace(r[0]) && !IsSpace(r[|r| - 1]))
    ensures NoSpace(s) ==> r == s
  {
    var t := TrimStart(s);
    var r := TrimEnd(t);
    assert NoSpace(s) ==> t == s by {
      if NoSpace(s) && s != [] { assert !IsSpace(s[0]); }
    }
    assert NoSpace(s) ==> r == t by {
      if NoSpace(s) && t != [] { assert !IsSpace(t[|t| - 1]); }
    }
    r
  }

  /** Trimming removes only whitespace: a string with no whitespace is unchanged
      and a non-blank string stays non-blank. */
  lemma TrimEmptyIffBlank(s: string)
    ensures Trim(s) == [] <==> forall k :: 0 <= k < |s| ==> IsSpace(s[k])
  {
    var t := TrimStart(s);
    TrimStartDropsSpaces(s);
    if t != [] {
      TrimEndDropsSpaces(t);
      assert TrimEnd(t) != [] by { assert !IsSpace(t[0]); }
      assert !IsSpace(s[|s| - |t|]);
    }
  }

  /** A string that neither starts nor ends with whitespace is its own trim. */
  lemma TrimNoEdgeSpace(s: string)
    requires s != [] && !IsSpace(s[0]) && !IsSpace(s[|s| - 1])
    ensures Trim(s) == s
  {
    assert TrimStart(s) == s;
  }

  /** Trimming is idempotent. */
  lemma TrimTwice(s: string)
    ensures Trim(Trim(s)) == Trim(s)
  {
    if Trim(s) != [] {
      TrimNoEdgeSpace(Trim(s));
    }
  }

  /** The trimmed string is a contiguous part of the input. */
  lemma TrimIsSlice(s: string)
    ensures |s| - |TrimStart(s)| + |Trim(s)| <= |s|
    ensures Trim(s) == s[|s| - |TrimStart(s)|..|s| - |TrimStart(s)| + |Trim(s)|]
  {
    var t := TrimStart(s);
    var a := |s| - |t|;
    assert Trim(s) == t[..|Trim(s)|];
    assert t[..|Trim(s)|] == s[a..a + |Trim(s)|];
  }

  /** Whitespace around a string with non-space ends is exactly what trimming removes. */
  lemma {:induction false} TrimAround(front: string, s: string, back: string)
    requires forall k :: 0 <= k < |front| ==> IsSpace(front[k])
    requires forall k :: 0 <= k < |back| ==> IsSpace(back[k])
    requires s != [] && !IsSpace(s[0]) && !IsSpace(s[|s| - 1])
    ensures Trim(front + s + back) == s
  {
    TrimStartSpaces(front, s + back);
    assert front + s + back == front + (s + back);
    TrimEndSpaces(s, back);
  }

  lemma {:induction false} TrimStartSpaces(front: string, s: string)
    requires forall k :: 0 <= k < |front| ==> IsSpace(front[k])
    requires s != [] && !IsSpace(s[0])
    ensures TrimStart(front + s) == s
  {
    if front != [] {
      assert (front + s)[0] == front[0];
      assert (front + s)[1..] == front[1..] + s;
      TrimStartSpaces(front[1..], s);
    }
  }

  lemma {:induction false} TrimEndSpaces(s: string, back: string)
    requires forall k :: 0 <= k < |back| ==> IsSpace(back[k])
    requires s != [] && !IsSpace(s[|s| - 1])
    ensures TrimEnd(s + back) == s
  {
    if back != [] {
      var b := back[..|back| - 1];
      assert (s + back)[..|s + back| - 1] == s + b;
      TrimEndSpaces(s, b);
    } else {
      assert s + back == s;
    }
  }

  /** The first index of `c` in `s`. */
  function IndexOf(s: string, c: char): (r: Option<nat>)
    ensures r.None? <==> c !in s
    ensures r.Some? ==> r.value < |s| && s[r.value] == c && c !in s[..r.value]
  {
    if s == [] then None
    else if s[0] == c then Some(0)
    else
      match IndexOf(s[1..], c)
      case None => None
      case Some(i) =>
        assert s[..i + 1] == [s[0]] + s[1..][..i];
        Some(i + 1)
  }

  /** The first occurrence is the one IndexOf finds. */
  lemma {:induction false} IndexOfFirst(s: string, c: char, i: int)
    requires 0 <= i < |s| && s[i] == c && c !in s[..i]
    ensures IndexOf(s, c) == Some(i)
  {
    if i > 0 {
      assert s[0] == s[..i][0];
      assert s[1..][..i - 1] == s[..i][1..];
      IndexOfFirst(s[1..], c, i - 1);
    }
  }

  predicate StartsWith(s: string, prefix: string)
  {
    |prefix| <= |s| && s[..|prefix|] == prefix
  }

  /** `s.includes(sub)` / Python's `sub in s`. */
  predicate Contains(s: string, sub: string)
    decreases |s|
  {
    |sub| <= |s| && (s[..|sub|] == sub || (s != [] && Contains(s[1..], sub)))
  }

  /** `any(k in s for k in subs)`. */
  predicate ContainsAny(s: string, subs: seq<string>)
  {
    subs != [] && (Contains(s, subs[0]) || ContainsAny(s, subs[1..]))
  }

  lemma {:induction false} ContainsAnyIff(s: string, subs: seq<string>)
    ensures ContainsAny(s, subs) <==> exists k :: k in subs && Contains(s, k)
  {
    if subs != [] {
      ContainsAnyIff(s, subs[1..]);
      if exists k :: k in subs && Contains(s, k) {
        var k :| k in subs && Contains(s, k);
        if k != subs[0] {
          assert k in subs[1..];
        }
      }
    }
  }

  /** Python's `a or b` on an optional string: a missing or empty string is
      falsy. */
  function OrElse(a: Option<string>, b: string): string
  {
    if a.Some? && a.value != "" then a.value else b
  }

  /** Each string lower-cased. */
  function LowerAll(xs: seq<string>): (r: seq<string>)
    ensures |r| == |xs|
  {
    seq(|xs|, i requires 0 <= i < |xs| => Lower(xs[i]))
  }

  /** No element occurs twice. */
  ghost predicate NoDup<T>(xs: seq<T>)
  {
    forall i, j :: 0 <= i < j < |xs| ==> xs[i] != xs[j]
  }

  /** Where a substring occurs. */
  ghost predicate OccursAt(s: string, sub: string, i: int)
  {
    0 <= i && i + |sub| <= |s| && s[i..i + |sub|] == sub
  }

  lemma {:induction false} ContainsIffOccurs(s: string, sub: string)
    ensures Contains(s, sub) <==> exists i :: OccursAt(s, sub, i)
    decreases |s|
  {
    if |sub| <= |s| && s[..|sub|] != sub && s != [] {
      ContainsIffOccurs(s[1..], sub);
      if Contains(s[1..], sub) {
        var i :| OccursAt(s[1..], sub, i);
        assert OccursAt(s, sub, i + 1);
      }
      if exists i :: OccursAt(s, sub, i) {
        var i :| OccursAt(s, sub, i);
        assert i != 0;
        assert OccursAt(s[1..], sub, i - 1);
      }
    } else if |sub| <= |s| && s[..|sub|] == sub {
      assert OccursAt(s, sub, 0);
    }
  }

  /** A substring of a substring is a substring. */
  lemma ContainsTrans(a: string, b: string, c: string)
    requires Contains(a, b) && Contains(b, c)
    ensures Contains(a, c)
  {
    ContainsIffOccurs(a, b);
    ContainsIffOccurs(b, c);
    var i :| OccursAt(a, b, i);
    var j :| OccursAt(b, c, j);
    assert forall k :: 0 <= k < |b| ==> a[i + k] == a[i..i + |b|][k] == b[k];
    assert a[i + j..i + j + |c|] == b[j..j + |c|];
    assert OccursAt(a, c, i + j);
    ContainsIffOccurs(a, c);
  }

  lemma ContainsSelf(s: string)
    ensures Contains(s, s)
  {
  }

  lemma {:induction false} ContainsPart(s: string, i: int, j: int)
    requires 0 <= i <= j <= |s|
    ensures Contains(s, s[i..j])
  {
    ContainsIffOccurs(s, s[i..j]);
    assert OccursAt(s, s[i..j], i);
  }

  lemma ContainsInMiddle(a: string, b: string, c: string)
    ensures Contains(a + b + c, b)
  {
    var s := a + b + c;
    assert s[|a|..|a| + |b|] == b;
    ContainsPart(s, |a|, |a| + |b|);
  }

  /** `parts.join(sep)`. */
  function Join(sep: string, parts: seq<string>): string
  {
    if parts == [] then ""
    else if |parts| == 1 then parts[0]
    else parts[0] + sep + Join(sep, parts[1..])
  }

  /** A join whose first part is non-empty is non-empty. */
  lemma JoinNonEmpty(sep: string, parts: seq<string>)
    requires parts != [] && parts[0] != ""
    ensures Join(sep, parts) != ""
  {
  }

  /** Joining the first `k` parts gives a prefix of joining them all. */
  lemma {:induction false} JoinPrefix(sep: string, parts: seq<string>, k: nat)
    requires k <= |parts|
    ensures |Join(sep, parts[..k])| <= |Join(sep, parts)|
    ensures Join(sep, parts[..k]) == Join(sep, parts)[..|Join(sep, parts[..k])|]
    ensures 0 < k < |parts| ==>
      |Join(sep, parts[..k])| + |sep| <= |Join(sep, parts)| &&
      Join(sep, parts)[|Join(sep, parts[..k])|..|Join(sep, parts[..k])| + |sep|] == sep
  {
    if k == 0 || k == |parts| {
      assert k == |parts| ==> parts[..k] == parts;
    } else if k == 1 {
      assert Join(sep, parts[..k]) == parts[0];
      assert Join(sep, parts) == parts[0] + sep + Join(sep, parts[1..]);
    } else {
      JoinPrefix(sep, parts[1..], k - 1);
      assert parts[..k][1..] == parts[1..][..k - 1];
      assert Join(sep, parts[..k]) == parts[0] + sep + Join(sep, parts[1..][..k - 1]);
      assert Join(sep, parts) == parts[0] + sep + Join(sep, parts[1..]);
    }
  }

  /** The number of whitespace characters in `s`. */
  function SpaceCount(s: string): nat
  {
    if s == [] then 0 else (if IsSpace(s[0]) then 1 else 0) + SpaceCount(s[1..])
  }

  lemma {:induction false} SpaceCountAppend(a: string, b: string)
    ensures SpaceCount(a + b) == SpaceCount(a) + SpaceCount(b)
  {
    if a == [] {
      assert a + b == b;
    } else {
      assert (a + b)[1..] == a[1..] + b;
      SpaceCountAppend(a[1..], b);
    }
  }

  lemma {:induction false} NoSpaceCount(s: string)
    requires NoSpace(s)
    ensures SpaceCount(s) == 0
  {
    if s != [] {
      NoSpaceCount(s[1..]);
    }
  }

  /** Joining `n` whitespace-free parts with one space puts exactly `n - 1`
      whitespace characters in the result: it has `n` words. */
  lemma {:induction false} JoinSpaceCount(parts: seq<string>)
    requires parts != []
    requires forall k :: 0 <= k < |parts| ==> NoSpace(parts[k])
    ensures SpaceCount(Join(" ", parts)) == |parts| - 1
  {
    NoSpaceCount(parts[0]);
    if |parts| > 1 {
      JoinSpaceCount(parts[1..]);
      SpaceCountAppend(parts[0], " ");
      SpaceCountAppend(parts[0] + " ", Join(" ", parts[1..]));
    }
  }

  /** Every part of a join is a substring of it. */
  lemma {:induction false} JoinContainsPart(sep: string, parts: seq<string>, k: int)
    requires 0 <= k < |parts|
    ensures Contains(Join(sep, parts), parts[k])
  {
    if |parts| == 1 {
      ContainsSelf(parts[0]);
    } else if k == 0 {
      ContainsInMiddle("", parts[0], sep + Join(sep, parts[1..]));
      assert "" + parts[0] + (sep + Join(sep, parts[1..])) == Join(sep, parts);
    } else {
      JoinContainsPart(sep, parts[1..], k - 1);
      var rest := Join(sep, parts[1..]);
      ContainsIffOccurs(rest, parts[k]);
      var i :| OccursAt(rest, parts[k], i);
      var whole := Join(sep, parts);
      assert whole == (parts[0] + sep) + rest;
      assert OccursAt(whole, parts[k], |parts[0] + sep| + i) by {
        assert whole[|parts[0] + sep| + i..|parts[0] + sep| + i + |parts[k]|] == rest[i..i + |parts[k]|];
      }
      ContainsIffOccurs(whole, parts[k]);
    }
  }

  /** `s.split(c)` for a one-character separator: the pieces between occurrences
      of `c`; splitting "" gives [""]. */
  function SplitOn(s: string, c: char): (r: seq<string>)
    ensures |r| >= 1
    ensures forall k :: 0 <= k < |r| ==> c !in r[k]
  {
    if s == [] then [""]
    else if s[0] == c then [""] + SplitOn(s[1..], c)
    else
      var rest := SplitOn(s[1..], c);
      [[s[0]] + rest[0]] + rest[1..]
  }

  /** Splitting on `c` and joining with `c` gives back the input. */
  lemma {:induction false} JoinSplitOn(s: string, c: char)
    ensures Join([c], SplitOn(s, c)) == s
  {
    if s == [] {
    } else if s[0] == c {
      JoinSplitOn(s[1..], c);
    } else {
      JoinSplitOn(s[1..], c);
      var rest := SplitOn(s[1..], c);
      if |rest| > 1 {
        assert ([[s[0]] + rest[0]] + rest[1..])[1..] == rest[1..];
      }
    }
  }

  /** `s.split(/\s+/)`: the maximal non-whitespace runs, with an empty first piece
      when `s` starts with whitespace and an empty last piece when it ends with it;
      splitting "" gives [""]. */
  function SplitSpaces(s: string): (r: seq<string>)
    ensures |r| >= 1
    ensures forall k :: 0 <= k < |r| ==> NoSpace(r[k])
    ensures s != [] && !IsSpace(s[0]) ==> r[0] != ""
    ensures s != [] && IsSpace(s[0]) ==> |r| >= 2
    decreases |s|
  {
    if s == [] then [""]
    else if IsSpace(s[0]) then [""] + SplitSpaces(TrimStart(s))
    else
      var rest := SplitSpaces(s[1..]);
      [[s[0]] + rest[0]] + rest[1..]
  }

  /** `re.sub(r"\s+", " ", s)`: every maximal whitespace run becomes one space. */
  function CollapseSpaces(s: string): (r: string)
    ensures |r| <= |s|
    ensures forall k :: 0 <= k < |r| ==> IsSpace(r[k]) ==> r[k] == ' '
    ensures forall k :: 0 <= k < |r| - 1 ==> !(IsSpace(r[k]) && IsSpace(r[k + 1]))
    ensures r != [] && s != [] ==> (IsSpace(r[0]) <==> IsSpace(s[0]))
    ensures r == [] <==> s == []
    decreases |s|
  {
    if s == [] then []
    else if IsSpace(s[0]) then
      var rest := CollapseSpaces(TrimStart(s));
      assert rest != [] ==> !IsSpace(rest[0]) by {
        if rest != [] { assert TrimStart(s) != [] && !IsSpace(TrimStart(s)[0]); }
      }
      " " + rest
    else [s[0]] + CollapseSpaces(s[1..])
  }

  /** Splitting on whitespace runs and joining with one space collapses each run. */
  lemma {:induction false} JoinSplitSpaces(s: string)
    ensures Join(" ", SplitSpaces(s)) == CollapseSpaces(s)
    decreases |s|
  {
    if s == [] {
    } else if IsSpace(s[0]) {
      JoinSplitSpaces(TrimStart(s));
    } else {
      JoinSplitSpaces(s[1..]);
      var rest := SplitSpaces(s[1..]);
      var r := [[s[0]] + rest[0]] + rest[1..];
      assert r[1..] == rest[1..];
    }
  }

  /** The first `n` elements of `s`, or all of them (`slice(0, n)`, `[:n]`). */
  function Take<T>(s: seq<T>, n: nat): (r: seq<T>)
    ensures |r| == (if |s| <= n then |s| else n)
    ensures |s| <= n ==> r == s
    ensures r == s[..|r|]
  {
    if |s| <= n then s else s[..n]
  }

  /** `f` applied to each element, in order. */
  function Map<A, B>(xs: seq<A>, f: A -> B): (r: seq<B>)
    ensures |r| == |xs|
    ensures forall k :: 0 <= k < |xs| ==> r[k] == f(xs[k])
  {
    seq(|xs|, k requires 0 <= k < |xs| => f(xs[k]))
  }

  /** One more element: the loop step of a mapping loop. */
  lemma MapSnoc<A, B>(xs: seq<A>, i: nat, f: A -> B)
    requires i < |xs|
    ensures Map(xs[..i + 1], f) == Map(xs[..i], f) + [f(xs[i])]
  {
    assert forall k :: 0 <= k < i ==> xs[..i + 1][k] == xs[..i][k];
  }

  /** A filtering loop that appends `f(x)` for each kept `x`, as its result
      after the elements `xs`. */
  function FilterMap<A, B>(xs: seq<A>, keep: A -> bool, f: A -> B): (r: seq<B>)
    ensures |r| <= |xs|
  {
    if xs == [] then []
    else
      var x := xs[|xs| - 1];
      FilterMap(xs[..|xs| - 1], keep, f) + (if keep(x) then [f(x)] else [])
  }

  /** The filter keeps input order: it distributes over concatenation. */
  lemma {:induction false} FilterMapAppend<A, B>(a: seq<A>, b: seq<A>, keep: A -> bool, f: A -> B)
    ensures FilterMap(a + b, keep, f) == FilterMap(a, keep, f) + FilterMap(b, keep, f)
    decreases |b|
  {
    if b == [] {
      assert a + b == a;
    } else {
      var init := b[..|b| - 1];
      assert (a + b)[..|a + b| - 1] == a + init;
      assert (a + b)[|a + b| - 1] == b[|b| - 1];
      FilterMapAppend(a, init, keep, f);
    }
  }

  /** When every element is kept, the filter is a plain map. */
  lemma {:induction false} FilterMapAll<A, B>(xs: seq<A>, keep: A -> bool, f: A -> B)
    requires forall k :: 0 <= k < |xs| ==> keep(xs[k])
    ensures FilterMap(xs, keep, f) == seq(|xs|, k requires 0 <= k < |xs| => f(xs[k]))
  {
    if xs != [] {
      FilterMapAll(xs[..|xs| - 1], keep, f);
    }
  }

  /** `f(x)` is in the result for every kept `x`, and every element of the result
      is `f` of a kept element. */
  lemma {:induction false} FilterMapMember<A, B>(xs: seq<A>, keep: A -> bool, f: A -> B, y: B)
    ensures y in FilterMap(xs, keep, f) <==> exists k :: 0 <= k < |xs| && keep(xs[k]) && f(xs[k]) == y
  {
    if xs != [] {
      var init := xs[..|xs| - 1];
      FilterMapMember(init, keep, f, y);
      if exists k :: 0 <= k < |xs| && keep(xs[k]) && f(xs[k]) == y {
        var k :| 0 <= k < |xs| && keep(xs[k]) && f(xs[k]) == y;
        if k < |init| {
          assert init[k] == xs[k];
        }
      }
    }
  }

  /** Some lower-cased element of `subs` occurs in `s`. */
  lemma ContainsAnyLowerIff(s: string, subs: seq<string>)
    ensures ContainsAny(s, LowerAll(subs)) <==> exists k :: k in subs && Contains(s, Lower(k))
  {
    var lowered := LowerAll(subs);
    ContainsAnyIff(s, lowered);
    if exists k :: k in subs && Contains(s, Lower(k)) {
      var k :| k in subs && Contains(s, Lower(k));
      var m :| 0 <= m < |subs| && subs[m] == k;
      assert lowered[m] == Lower(k);
      assert Lower(k) in lowered;
    }
    if exists x :: x in lowered && Contains(s, x) {
      var x :| x in lowered && Contains(s, x);
      var m :| 0 <= m < |lowered| && lowered[m] == x;
      assert subs[m] in subs && Lower(subs[m]) == x;
    }
  }

}
