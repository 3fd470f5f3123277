/**
 * The in-place slice algorithms the handlers call: sort.Slice with a "newer first" comparison,
 * and math/rand.Shuffle with a swapping callback.
 */
module Sorting {
  /** Keys never increase along s: newest first. */
  ghost predicate NewestFirst<T>(s: seq<T>, key: T -> int) {
    forall i, j :: 0 <= i < j < |s| ==> key(s[i]) >= key(s[j])
  }

  /** Exchange two elements; nothing else moves. */
  method Swap<T>(a: array<T>, i: int, j: int)
    requires 0 <= i < a.Length && 0 <= j < a.Length
    modifies a
    ensures a[i] == old(a[j]) && a[j] == old(a[i])
    ensures forall k :: 0 <= k < a.Length && k != i && k != j ==> a[k] == old(a[k])
    ensures multiset(a[..]) == multiset(old(a[..]))
  {
    a[i], a[j] := a[j], a[i];
  }

  /** Keys never increase along a[lo..hi]. */
  ghost predicate NewestFirstIn<T>(a: array<T>, lo: int, hi: int, key: T -> int)
    reads a
    requires 0 <= lo <= hi <= a.Length
  {
    forall p, q :: lo <= p < q < hi ==> key(a[p]) >= key(a[q])
  }

  /** One insertion step: sink a[i] into the newest-first prefix a[..i]. */
  method InsertNewest<T>(a: array<T>, i: int, key: T -> int)
    requires 0 <= i < a.Length && NewestFirstIn(a, 0, i, key)
    modifies a
    ensures NewestFirstIn(a, 0, i + 1, key)
    ensures multiset(a[..]) == multiset(old(a[..]))
  {
    var j := i;
    while j > 0 && key(a[j - 1]) < key(a[j])
      invariant 0 <= j <= i
      invariant multiset(a[..]) == multiset(old(a[..]))
      invariant forall p, q :: 0 <= p < q <= i && p != j && q != j ==> key(a[p]) >= key(a[q])
      invariant forall q :: j < q <= i ==> key(a[j]) > key(a[q])
    {
      Swap(a, j - 1, j);
      j := j - 1;
    }
  }

  /**
   * sort.Slice(s, func(i, j) bool { return key(s[i]) > key(s[j]) }). Go's sort is not stable;
   * an insertion sort gives one of the orders Go may produce.
   */
  method SortNewestFirst<T>(a: array<T>, key: T -> int)
    modifies a
    ensures NewestFirst(a[..], key)
    ensures multiset(a[..]) == multiset(old(a[..]))
  {
    for i := 0 to a.Length
      invariant NewestFirstIn(a, 0, i, key)
      invariant multiset(a[..]) == multiset(old(a[..]))
    {
      InsertNewest(a, i, key);
    }
  }

  /**
   * rand.Shuffle(len(a), swap): Fisher–Yates from the back; draw(i) is the random number the
   * generator yields at step i, reduced to [0, i] as Go's Int31n/Int63n do.
   */
  method Shuffle<T>(a: array<T>, draw: nat -> nat)
    modifies a
    ensures multiset(a[..]) == multiset(old(a[..]))
  {
    var i := a.Length - 1;
    while i > 0
      invariant i < a.Length
      invariant multiset(a[..]) == multiset(old(a[..]))
    {
      var j := draw(i) % (i + 1);
      Swap(a, i, j);
      i := i - 1;
    }
  }

  /** The element-wise image of s under f. */
  function Map<A, B>(s: seq<A>, f: A -> B): (r: seq<B>)
    ensures |r| == |s| && forall i :: 0 <= i < |s| ==> r[i] == f(s[i])
  {
    seq(|s|, i requires 0 <= i < |s| => f(s[i]))
  }

  /** The loop `for i, p := range src { list[i] = f(p) }` into a fresh slice. */
  method Project<A, B>(src: seq<A>, f: A -> B) returns (list: seq<B>)
    ensures list == Map(src, f)
  {
    list := [];
    for i := 0 to |src|
      invariant list == Map(src[..i], f)
    {
      assert src[..i + 1] == src[..i] + [src[i]];
      list := list + [f(src[i])];
    }
    assert src[..|src|] == src;
  }
}
