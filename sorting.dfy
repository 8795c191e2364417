// `[...xs].sort((a, b) => key(a) < key(b) ? -1 : key(a) > key(b) ? 1 : 0)`:
// copy the list into a fresh array and sort that array in place.
module Sorting {
  import opened Text

  /** Non-decreasing by `key` under the string order `<`. */
  ghost predicate SortedBy<T>(s: seq<T>, key: T -> string) {
    forall i, j :: 0 <= i < j < |s| ==> NotAbove(key(s[i]), key(s[j]))
  }

  /** An insertion sort (stability not proved) of a copy of `s`; `s` itself is a value and stays as it was. */
  method SortByKey<T>(s: seq<T>, key: T -> string) returns (r: seq<T>)
    ensures multiset(r) == multiset(s)
    ensures SortedBy(r, key)
  {
    if |s| == 0 {
      return [];
    }
    var a := new T[|s|](i requires 0 <= i < |s| => s[i]);
    assert a[..] == s;
    var i := 1;
    while i < a.Length
      invariant a.Length == |s|
      invariant 1 <= i <= a.Length
      invariant multiset(a[..]) == multiset(s)
      invariant SortedBy(a[..i], key)
    {
      InsertLast(a, i, key);
      i := i + 1;
    }
    r := a[..];
  }

  /** Sinks `a[i]` into the sorted prefix `a[..i]` by swapping it past every strictly larger neighbour. */
  method InsertLast<T>(a: array<T>, i: nat, key: T -> string)
    requires 0 < i < a.Length
    requires SortedBy(a[..i], key)
    modifies a
    ensures multiset(a[..]) == old(multiset(a[..]))
    ensures SortedBy(a[..i + 1], key)
    ensures a[i + 1..] == old(a[i + 1..])
  {
    var j := i;
    assert Sinking(a[..], j, i, key);
    while j > 0 && Below(key(a[j]), key(a[j - 1]))
      invariant j <= i
      invariant Sinking(a[..], j, i, key)
      invariant multiset(a[..]) == old(multiset(a[..]))
      invariant a[i + 1..] == old(a[i + 1..])
    {
      SinkStep(a[..], j, i, key);
      a[j - 1], a[j] := a[j], a[j - 1];
      j := j - 1;
    }
    SinkDone(a[..], j, i, key);
  }

  /**
   * The state of the insertion loop: every pair in `s[..i + 1]` not involving the moving
   * element at `j` is in order, and the moving element is strictly below everything after it.
   */
  ghost predicate Sinking<T>(s: seq<T>, j: nat, i: nat, key: T -> string) {
    j <= i < |s|
    && (forall p, q :: 0 <= p < q <= i && p != j && q != j ==> NotAbove(key(s[p]), key(s[q])))
    && (forall q :: j < q <= i ==> Below(key(s[j]), key(s[q])))
  }

  /** One swap keeps the loop state, with the moving element one place further left. */
  lemma SinkStep<T>(s: seq<T>, j: nat, i: nat, key: T -> string)
    requires Sinking(s, j, i, key)
    requires j > 0 && Below(key(s[j]), key(s[j - 1]))
    ensures Sinking(s[j - 1 := s[j]][j := s[j - 1]], j - 1, i, key)
  {
    var t := s[j - 1 := s[j]][j := s[j - 1]];
    forall q | j - 1 < q <= i ensures Below(key(t[j - 1]), key(t[q])) {
      if q > j { assert t[q] == s[q]; }
    }
  }

  /** Once the moving element meets no larger left neighbour, the whole prefix is sorted. */
  lemma SinkDone<T>(s: seq<T>, j: nat, i: nat, key: T -> string)
    requires Sinking(s, j, i, key)
    requires j == 0 || !Below(key(s[j]), key(s[j - 1]))
    ensures SortedBy(s[..i + 1], key)
  {
    forall p, q | 0 <= p < q <= i ensures NotAbove(key(s[p]), key(s[q])) {
      if q == j {
        if p < j - 1 {
          NotAboveTransitive(key(s[p]), key(s[j - 1]), key(s[j]));
        }
      } else if p == j {
        BelowIsNotAbove(key(s[j]), key(s[q]));
      }
    }
  }
}
