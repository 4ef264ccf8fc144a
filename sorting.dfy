/**
  `Array.prototype.sort` with a numeric comparator `(a, b) => key(a) - key(b)`,
  as every list screen applies it to the array a fetch has just decoded.
  The array is fresh, so it is sorted in place and then handed to the
  screen's state. No particular order among equal keys is promised.
 */
module Sorting {
  import opened Http

  /** `s` is non-decreasing by `key`. */
  predicate SortedBy<T>(s: seq<T>, key: T -> int) {
    forall i, j :: 0 <= i < j < |s| ==> key(s[i]) <= key(s[j])
  }

  /** Copies `data` into a new array, sorts it in place by `key` and returns it. */
  method SortByKey<T>(data: seq<T>, key: T -> int) returns (sorted: seq<T>)
    ensures SortedBy(sorted, key)
    ensures multiset(sorted) == multiset(data)
  {
    var a := new T[|data|](i requires 0 <= i < |data| => data[i]);
    assert a[..] == data;
    var i := 0;
    while i < a.Length
      invariant 0 <= i <= a.Length
      invariant forall p, q :: 0 <= p < q < i ==> key(a[p]) <= key(a[q])
      invariant multiset(a[..]) == multiset(data)
    {
      InsertAt(a, i, key);
      i := i + 1;
    }
    sorted := a[..];
  }

  /** Moves `a[i]` left past every larger element of the sorted prefix `a[..i]`. */
  method InsertAt<T>(a: array<T>, i: nat, key: T -> int)
    requires i < a.Length
    requires forall p, q :: 0 <= p < q < i ==> key(a[p]) <= key(a[q])
    modifies a
    ensures forall p, q :: 0 <= p < q <= i ==> key(a[p]) <= key(a[q])
    ensures multiset(a[..]) == old(multiset(a[..]))
  {
    var j := i;
    while 0 < j && key(a[j]) < key(a[j - 1])
      invariant 0 <= j <= i
      invariant forall p, q :: 0 <= p < q <= i && p != j && q != j ==> key(a[p]) <= key(a[q])
      invariant forall q :: j < q <= i ==> key(a[j]) < key(a[q])
      invariant multiset(a[..]) == old(multiset(a[..]))
    {
      Swap(a, j - 1, j);
      j := j - 1;
    }
  }

  /** Exchanges `a[x]` and `a[y]`. */
  method Swap<T>(a: array<T>, x: nat, y: nat)
    requires x < y < a.Length
    modifies a
    ensures a[x] == old(a[y]) && a[y] == old(a[x])
    ensures forall k :: 0 <= k < a.Length && k != x && k != y ==> a[k] == old(a[k])
    ensures multiset(a[..]) == old(multiset(a[..]))
  {
    a[x], a[y] := a[y], a[x];
  }

  /** What a list screen's fetch leaves in its list: on success the fetched
      rows, sorted by `key`; on failure the list it had before. */
  ghost predicate Refreshed<T>(before: seq<T>, response: Response<seq<T>>, after: seq<T>, key: T -> int) {
    match response
    case Ok(rows) => SortedBy(after, key) && multiset(after) == multiset(rows)
    case Fail => after == before
  }
}
