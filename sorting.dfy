/** The in-place ordering `renderEvents` applies to the filtered events: newest first. */
module Sorting {
  import opened Events

  /** Timestamps never increase from left to right. */
  predicate NewestFirst(s: seq<Event>) {
    forall p, q :: 0 <= p < q < |s| ==> s[p].timestamp >= s[q].timestamp
  }

  /** The first `n` elements of `a` are newest first. */
  ghost predicate PrefixNewestFirst(a: array<Event>, n: int)
    reads a
  {
    forall p, q :: 0 <= p < q < n && q < a.Length ==> a[p].timestamp >= a[q].timestamp
  }

  /**
   * The sort whose comparator subtracts the two events' dates (later minus
   * earlier), done as an insertion sort: afterwards the array holds the
   * same events, newest first.
   */
  method SortNewestFirst(a: array<Event>)
    modifies a
    ensures NewestFirst(a[..])
    ensures multiset(a[..]) == multiset(old(a[..]))
  {
    var i := 0;
    while i < a.Length
      invariant 0 <= i <= a.Length
      invariant PrefixNewestFirst(a, i)
      invariant multiset(a[..]) == multiset(old(a[..]))
    {
      Insert(a, i);
      i := i + 1;
    }
  }

  /** Moves `a[i]` left past every older event, so that the first `i + 1` elements are newest first. */
  method Insert(a: array<Event>, i: int)
    requires 0 <= i < a.Length
    requires PrefixNewestFirst(a, i)
    modifies a
    ensures PrefixNewestFirst(a, i + 1)
    ensures multiset(a[..]) == multiset(old(a[..]))
  {
    var j := i;
    while j > 0 && a[j - 1].timestamp < a[j].timestamp
      invariant 0 <= j <= i
      invariant forall p, q :: 0 <= p < q <= i && p != j && q != j ==> a[p].timestamp >= a[q].timestamp
      invariant forall q :: j < q <= i ==> a[j].timestamp > a[q].timestamp
      invariant multiset(a[..]) == multiset(old(a[..]))
    {
      Swap(a, j - 1, j);
      j := j - 1;
    }
  }

  /** Exchanges two neighbours; the array still holds the same events. */
  method Swap(a: array<Event>, i: int, j: int)
    requires 0 <= i < j < a.Length
    modifies a
    ensures a[i] == old(a[j]) && a[j] == old(a[i])
    ensures forall k :: 0 <= k < a.Length && k != i && k != j ==> a[k] == old(a[k])
    ensures multiset(a[..]) == multiset(old(a[..]))
  {
    a[i], a[j] := a[j], a[i];
  }
}
