// The list idioms the pages use on their stored arrays: `xs.filter(p)`,
// `xs.map(x => x.id === id ? f(x) : x)`, `xs.find(p)` and counting.
module Seqs {
  import opened Types

  /** `r` is `s` with some elements dropped and the rest kept in order. */
  predicate IsSubsequence<T(==)>(r: seq<T>, s: seq<T>)
    decreases |s|
  {
    if r == [] then true
    else if s == [] then false
    else if r[0] == s[0] then IsSubsequence(r[1..], s[1..])
    else IsSubsequence(r, s[1..])
  }

  lemma {:induction false} SubsequenceRefl<T>(s: seq<T>)
    ensures IsSubsequence(s, s)
    decreases |s|
  {
    if s != [] { SubsequenceRefl(s[1..]); }
  }

  /** Every element of a subsequence occurs in the sequence it was taken from. */
  lemma {:induction false} SubsequenceMembers<T>(r: seq<T>, s: seq<T>, i: nat)
    requires IsSubsequence(r, s) && i < |r|
    ensures r[i] in s
    decreases |s|
  {
    if r[0] == s[0] {
      if i > 0 {
        SubsequenceMembers(r[1..], s[1..], i - 1);
      }
    } else {
      SubsequenceMembers(r, s[1..], i);
    }
  }

  /** `s.filter(p)`. */
  function Filter<T(==)>(s: seq<T>, p: T -> bool): (r: seq<T>)
    ensures |r| <= |s|
    ensures forall i :: 0 <= i < |r| ==> r[i] in s && p(r[i])
    ensures forall i :: 0 <= i < |s| && p(s[i]) ==> s[i] in r
  {
    if s == [] then [] else (if p(s[0]) then [s[0]] else []) + Filter(s[1..], p)
  }

  /** The filter keeps the survivors in their original order. */
  lemma {:induction false} FilterIsSubsequence<T>(s: seq<T>, p: T -> bool)
    ensures IsSubsequence(Filter(s, p), s)
  {
    if s != [] {
      FilterIsSubsequence(s[1..], p);
      var r := Filter(s, p);
      if p(s[0]) {
        assert r[0] == s[0] && r[1..] == Filter(s[1..], p);
      } else {
        assert r == Filter(s[1..], p);
        SkipHead(r, s);
      }
    }
  }

  lemma {:induction false} SkipHead<T>(r: seq<T>, s: seq<T>)
    requires s != [] && IsSubsequence(r, s[1..])
    ensures IsSubsequence(r, s)
    decreases |s|, |r|
  {
    if r != [] && r[0] == s[0] {
      SubsequenceTail(r, s[1..]);
    }
  }

  lemma {:induction false} SubsequenceTail<T>(r: seq<T>, s: seq<T>)
    requires r != [] && IsSubsequence(r, s)
    ensures IsSubsequence(r[1..], s)
    decreases |s|, |r|
  {
    if r[0] == s[0] {
      SkipHead(r[1..], s);
    } else {
      SubsequenceTail(r, s[1..]);
      SkipHead(r[1..], s);
    }
  }

  /** A filter that rejects nothing returns the list unchanged. */
  lemma {:induction false} FilterKeepsAll<T>(s: seq<T>, p: T -> bool)
    requires forall i :: 0 <= i < |s| ==> p(s[i])
    ensures Filter(s, p) == s
  {
    if s != [] {
      assert p(s[0]);
      FilterKeepsAll(s[1..], p);
    }
  }

  /** The number of elements a filter keeps. */
  function CountWhere<T>(s: seq<T>, p: T -> bool): (n: nat)
    ensures n <= |s|
    ensures n == 0 <==> forall i :: 0 <= i < |s| ==> !p(s[i])
    ensures n == |s| <==> forall i :: 0 <= i < |s| ==> p(s[i])
  {
    if s == [] then 0
    else
      var rest := CountWhere(s[1..], p);
      assert forall i :: 1 <= i < |s| ==> s[i] == s[1..][i - 1];
      (if p(s[0]) then 1 else 0) + rest
  }

  lemma {:induction false} FilterLength<T>(s: seq<T>, p: T -> bool)
    ensures |Filter(s, p)| == CountWhere(s, p)
  {
    if s != [] { FilterLength(s[1..], p); }
  }

  /** A subsequence whose every element passes `p` is no longer than the count of passing elements. */
  lemma {:induction false} SubsequenceCountBound<T>(r: seq<T>, s: seq<T>, p: T -> bool)
    requires IsSubsequence(r, s) && forall i :: 0 <= i < |r| ==> p(r[i])
    ensures |r| <= CountWhere(s, p)
    decreases |s|
  {
    if r != [] {
      if r[0] == s[0] {
        assert forall i :: 0 <= i < |r[1..]| ==> p(r[1..][i]) by {
          forall i | 0 <= i < |r[1..]| ensures p(r[1..][i]) { assert r[1..][i] == r[i + 1]; }
        }
        SubsequenceCountBound(r[1..], s[1..], p);
      } else {
        SubsequenceCountBound(r, s[1..], p);
      }
    }
  }

  /**
   * The filter is the only subsequence that keeps nothing but passing
   * elements and as many of them as pass: these three facts pin the result
   * down, duplicates included.
   */
  lemma {:induction false} FilterUnique<T>(r: seq<T>, s: seq<T>, p: T -> bool)
    requires IsSubsequence(r, s) && forall i :: 0 <= i < |r| ==> p(r[i])
    requires |r| == CountWhere(s, p)
    ensures r == Filter(s, p)
    decreases |s|
  {
    if s == [] {
    } else if r != [] && r[0] == s[0] {
      assert forall i :: 0 <= i < |r[1..]| ==> p(r[1..][i]) by {
        forall i | 0 <= i < |r[1..]| ensures p(r[1..][i]) { assert r[1..][i] == r[i + 1]; }
      }
      assert p(s[0]);
      FilterUnique(r[1..], s[1..], p);
      assert r == [s[0]] + r[1..];
    } else {
      assert IsSubsequence(r, s[1..]);
      SubsequenceCountBound(r, s[1..], p);
      assert !p(s[0]);
      FilterUnique(r, s[1..], p);
    }
  }

  /** `s.map(x => matches(x) ? f(x) : x)`: every matching element is replaced, the rest stay put. */
  function ReplaceWhere<T>(s: seq<T>, matches: T -> bool, f: T -> T): (r: seq<T>)
    ensures |r| == |s|
    ensures forall i :: 0 <= i < |s| && matches(s[i]) ==> r[i] == f(s[i])
    ensures forall i :: 0 <= i < |s| && !matches(s[i]) ==> r[i] == s[i]
  {
    seq(|s|, i requires 0 <= i < |s| => if matches(s[i]) then f(s[i]) else s[i])
  }

  /** Replacing one element moves the count by what it took out and what it put in. */
  lemma {:induction false} CountWhereUpdate<T>(s: seq<T>, k: nat, x: T, p: T -> bool)
    requires k < |s|
    ensures CountWhere(s[k := x], p) == CountWhere(s, p) - (if p(s[k]) then 1 else 0) + (if p(x) then 1 else 0)
    decreases |s|
  {
    if k == 0 {
      assert s[k := x][1..] == s[1..];
    } else {
      assert s[k := x][1..] == s[1..][k - 1 := x];
      CountWhereUpdate(s[1..], k - 1, x, p);
    }
  }

  /** When exactly one element matches, the map replaces that one element and nothing else. */
  lemma ReplaceOne<T>(s: seq<T>, matches: T -> bool, f: T -> T, k: nat)
    requires k < |s| && matches(s[k])
    requires forall i :: 0 <= i < |s| && i != k ==> !matches(s[i])
    ensures ReplaceWhere(s, matches, f) == s[k := f(s[k])]
  {
  }

  /** The position `s.find(p)` stops at: the first element satisfying `p`, if any. */
  function FindIndex<T>(s: seq<T>, p: T -> bool): (r: Option<nat>)
    ensures r.Some? ==> r.value < |s| && p(s[r.value])
    ensures r.Some? ==> forall j :: 0 <= j < r.value ==> !p(s[j])
    ensures r.None? <==> forall j :: 0 <= j < |s| ==> !p(s[j])
  {
    if s == [] then None
    else if p(s[0]) then Some(0)
    else match FindIndex(s[1..], p)
      case None => None
      case Some(j) => Some(j + 1)
  }

  /** `s.find(p)`: the first element satisfying `p`, if any. */
  function Find<T>(s: seq<T>, p: T -> bool): (r: Option<T>)
    ensures r.Some? ==> r.value in s && p(r.value)
    ensures r.None? <==> forall j :: 0 <= j < |s| ==> !p(s[j])
  {
    match FindIndex(s, p)
    case None => None
    case Some(k) => Some(s[k])
  }
}
