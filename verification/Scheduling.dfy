/** The two schedulers: a stable sort, and a binary heap drained into a list. */
module Scheduling {
  import opened Ordering
  import opened Sorting
  import opened EventNet

  function ScheduleA(events: seq<Event>): seq<Event> {
    Sort(events, EventKey)
  }

  /** d may be scheduled no later than e. */
  ghost predicate NotAfter(d: Event, e: Event) {
    !Less(EventKey(e), EventKey(d))
  }

  predicate Before(d: Event, e: Event) {
    Less(EventKey(d), EventKey(e))
  }

  function Parent(j: nat): nat
    requires 0 < j
    ensures Parent(j) < j
  {
    (j - 1) / 2
  }

  ghost predicate OrderedAt(s: seq<Event>, j: nat)
    requires j < |s|
  {
    0 < j ==> NotAfter(s[Parent(j)], s[j])
  }

  ghost predicate HeapOrdered(s: seq<Event>) {
    forall j: nat :: j < |s| ==> OrderedAt(s, j)
  }

  /** Children of k already respect k's parent. */
  ghost predicate BridgesOver(s: seq<Event>, k: nat)
    requires k < |s|
  {
    forall j: nat :: 0 < k && 0 < j < |s| && Parent(j) == k ==> NotAfter(s[Parent(k)], s[j])
  }

  function Swap(s: seq<Event>, i: nat, j: nat): (r: seq<Event>)
    requires i < |s| && j < |s|
    ensures |r| == |s| && r[i] == s[j] && r[j] == s[i]
    ensures forall k :: 0 <= k < |s| && k != i && k != j ==> r[k] == s[k]
  {
    s[i := s[j]][j := s[i]]
  }

  lemma SwapPermutes(s: seq<Event>, i: nat, j: nat)
    requires i < |s| && j < |s|
    ensures multiset(Swap(s, i, j)) == multiset(s)
  {
  }

  lemma {:induction false} RootIsFirst(s: seq<Event>, j: nat)
    requires HeapOrdered(s) && j < |s|
    ensures NotAfter(s[0], s[j])
  {
    if j == 0 {
      LessIrreflexive(EventKey(s[0]));
    } else {
      RootIsFirst(s, Parent(j));
      assert OrderedAt(s, j);
      NotAfterTransitive(EventKey(s[0]), EventKey(s[Parent(j)]), EventKey(s[j]));
    }
  }

  /** The heap heapq keeps in a list. */
  class EventHeap {
    var items: seq<Event>

    ghost predicate Valid()
      reads this
    {
      HeapOrdered(items)
    }

    constructor ()
      ensures Valid() && items == []
    {
      items := [];
    }

    method Push(e: Event)
      requires Valid()
      modifies this
      ensures Valid() && multiset(items) == multiset(old(items)) + multiset{e}
    {
      items := items + [e];
      ghost var all := items;
      var k: nat := |items| - 1;
      assert forall j: nat :: j < |items| - 1 ==> OrderedAt(old(items), j) ==> OrderedAt(items, j);
      while 0 < k && Before(items[k], items[Parent(k)])
        invariant k < |items| == |all| && multiset(items) == multiset(all)
        invariant forall j: nat :: j < |items| && j != k ==> OrderedAt(items, j)
        invariant BridgesOver(items, k)
      {
        SwapPermutes(items, Parent(k), k);
        items := SiftUpStep(items, k);
        k := Parent(k);
      }
    }

    method Pop() returns (e: Event)
      requires Valid() && items != []
      modifies this
      ensures Valid() && multiset(items) == multiset(old(items)) - multiset{e}
      ensures e in old(items) && forall x :: x in old(items) ==> NotAfter(e, x)
    {
      hide NotAfter, OrderedAt, BridgesOver;
      RootIsMinimum(items);
      var last := items[|items| - 1];
      LastMovesToRoot(items);
      items := items[..|items| - 1];
      if items == [] {
        e := last;
      } else {
        e := items[0];
        items := [last] + items[1..];
        SiftDown();
      }
    }

    /** Lets the root sink below every smaller child. */
    method SiftDown()
      requires items != [] && OrderedExceptBelow(items, 0)
      modifies this
      ensures Valid() && multiset(items) == multiset(old(items))
    {
      var k: nat, settled := 0, false;
      while 2 * k + 1 < |items| && !settled
        invariant k < |items| == |old(items)| && multiset(items) == multiset(old(items))
        invariant settled ==> HeapOrdered(items)
        invariant !settled ==> OrderedExceptBelow(items, k) && BridgesOver(items, k)
        decreases |items| - k, if settled then 0 else 1
      {
        items, k, settled := SinkOnce(items, k);
      }
    }
  }

  /** One comparison of a parent with its smaller child, exchanging them if needed. */
  method SinkOnce(s: seq<Event>, k: nat) returns (r: seq<Event>, next: nat, settled: bool)
    requires 2 * k + 1 < |s| && OrderedExceptBelow(s, k) && BridgesOver(s, k)
    ensures |r| == |s| && multiset(r) == multiset(s)
    ensures settled ==> r == s && next == k && HeapOrdered(r)
    ensures !settled ==> k < next < |r| && OrderedExceptBelow(r, next) && BridgesOver(r, next)
  {
    var child: nat := 2 * k + 1;
    if child + 1 < |s| && !Before(s[child], s[child + 1]) {
      child := child + 1;
    }
    if !Before(s[child], s[k]) {
      SiftDownDone(s, k, child);
      return s, k, true;
    }
    SwapPermutes(s, k, child);
    return SiftDownStep(s, k, child), child, false;
  }

  /** Only the children of k may be out of order. */
  ghost predicate OrderedExceptBelow(s: seq<Event>, k: nat) {
    forall j: nat :: j < |s| && (0 < j ==> Parent(j) != k) ==> OrderedAt(s, j)
  }

  lemma RootIsMinimum(s: seq<Event>)
    requires HeapOrdered(s) && s != []
    ensures forall x :: x in s ==> NotAfter(s[0], x)
  {
    forall x | x in s
      ensures NotAfter(s[0], x)
    {
      var j :| 0 <= j < |s| && s[j] == x;
      RootIsFirst(s, j);
    }
  }

  /** Replacing the root by the last item removes the root and disturbs only the root. */
  lemma LastMovesToRoot(s: seq<Event>)
    requires HeapOrdered(s) && s != []
    ensures |s| == 1 ==> multiset(s) == multiset{s[0]} && HeapOrdered(s[..0])
    ensures |s| > 1 ==> var r := [s[|s| - 1]] + s[..|s| - 1][1..];
      OrderedExceptBelow(r, 0) && multiset(r) == multiset(s) - multiset{s[0]}
  {
    if |s| == 1 {
      assert s == [s[0]];
    } else {
      var r := [s[|s| - 1]] + s[..|s| - 1][1..];
      assert s == [s[0]] + s[..|s| - 1][1..] + [s[|s| - 1]];
      forall j: nat | j < |r| && (0 < j ==> Parent(j) != 0)
        ensures OrderedAt(r, j)
      {
        assert OrderedAt(s, j);
      }
    }
  }

  /** Exchanging a too-early leaf with its parent moves the only violation up. */
  function SiftUpStep(s: seq<Event>, k: nat): (r: seq<Event>)
    requires 0 < k < |s| && Before(s[k], s[Parent(k)])
    requires forall j: nat :: j < |s| && j != k ==> OrderedAt(s, j)
    requires BridgesOver(s, k)
    ensures r == Swap(s, Parent(k), k)
    ensures forall j: nat :: j < |r| && j != Parent(k) ==> OrderedAt(r, j)
    ensures BridgesOver(r, Parent(k))
  {
    var p := Parent(k);
    var r := Swap(s, p, k);
    assert forall j: nat :: j < |r| && j != p ==> OrderedAt(r, j) by {
      LessAsymmetric(EventKey(s[k]), EventKey(s[p]));
      forall j: nat | j < |r| && j != p
        ensures OrderedAt(r, j)
      {
        assert j != k ==> OrderedAt(s, j);
        if 0 < j && Parent(j) == p && j != k {
          NotAfterTransitive(EventKey(s[k]), EventKey(s[p]), EventKey(s[j]));
        }
      }
    }
    assert BridgesOver(r, p) by {
      LessAsymmetric(EventKey(s[k]), EventKey(s[p]));
      forall j: nat | 0 < p && 0 < j < |r| && Parent(j) == p
        ensures NotAfter(r[Parent(p)], r[j])
      {
        assert OrderedAt(s, p);
        if j != k {
          assert OrderedAt(s, j);
          NotAfterTransitive(EventKey(s[Parent(p)]), EventKey(s[p]), EventKey(s[j]));
        }
      }
    }
    r
  }

  ghost predicate SmallerChild(s: seq<Event>, k: nat, child: nat)
    requires k < |s|
  {
    && 0 < child < |s| && Parent(child) == k
    && forall j: nat :: 0 < j < |s| && Parent(j) == k ==> NotAfter(s[child], s[j])
  }

  lemma ChildChoice(s: seq<Event>, k: nat, child: nat)
    requires k < |s| && 2 * k + 1 <= child <= 2 * k + 2 && child < |s|
    requires child == 2 * k + 1 && child + 1 < |s| ==> Before(s[child], s[child + 1])
    requires child == 2 * k + 2 ==> !Before(s[child - 1], s[child])
    ensures SmallerChild(s, k, child)
  {
    forall j: nat | 0 < j < |s| && Parent(j) == k
      ensures NotAfter(s[child], s[j])
    {
      assert j == 2 * k + 1 || j == 2 * k + 2;
      LessIrreflexive(EventKey(s[child]));
      if j == child + 1 {
        LessAsymmetric(EventKey(s[child]), EventKey(s[j]));
      }
    }
  }

  lemma SiftDownDone(s: seq<Event>, k: nat, child: nat)
    requires k < |s| && 2 * k + 1 <= child <= 2 * k + 2 && child < |s|
    requires child == 2 * k + 1 && child + 1 < |s| ==> Before(s[child], s[child + 1])
    requires child == 2 * k + 2 ==> !Before(s[child - 1], s[child])
    requires !Before(s[child], s[k])
    requires OrderedExceptBelow(s, k)
    ensures HeapOrdered(s)
  {
    ChildChoice(s, k, child);
    forall j: nat | j < |s|
      ensures OrderedAt(s, j)
    {
      if 0 < j && Parent(j) == k {
        NotAfterTransitive(EventKey(s[k]), EventKey(s[child]), EventKey(s[j]));
      }
    }
  }

  /** Exchanging a too-late parent with its smaller child moves the only violation down. */
  function SiftDownStep(s: seq<Event>, k: nat, child: nat): (r: seq<Event>)
    requires k < |s| && 2 * k + 1 <= child <= 2 * k + 2 && child < |s|
    requires child == 2 * k + 1 && child + 1 < |s| ==> Before(s[child], s[child + 1])
    requires child == 2 * k + 2 ==> !Before(s[child - 1], s[child])
    requires Before(s[child], s[k])
    requires OrderedExceptBelow(s, k)
    requires BridgesOver(s, k)
    ensures r == Swap(s, k, child)
    ensures OrderedExceptBelow(r, child)
    ensures BridgesOver(r, child)
  {
    var r := Swap(s, k, child);
    assert OrderedExceptBelow(r, child) by {
      ChildChoice(s, k, child);
      LessAsymmetric(EventKey(s[child]), EventKey(s[k]));
      forall j: nat | j < |r| && (0 < j ==> Parent(j) != child)
        ensures OrderedAt(r, j)
      {
        if 0 < j && Parent(j) != k {
          assert OrderedAt(s, j);
        }
      }
    }
    assert BridgesOver(r, child) by {
      forall j: nat | 0 < j < |r| && Parent(j) == child
        ensures NotAfter(r[Parent(child)], r[j])
      {
        assert OrderedAt(s, j);
      }
    }
    r
  }

  lemma {:induction false} DrainedIsSorted(done: seq<Event>, e: Event)
    requires SortedBy(done, EventKey)
    requires forall x :: x in done ==> NotAfter(x, e)
    ensures SortedBy(done + [e], EventKey)
  {
    forall i, j | 0 <= i < j < |done + [e]|
      ensures NotAfter((done + [e])[i], (done + [e])[j])
    {
      assert done[i] in done;
    }
  }

  /** Push everything, then pop until empty. */
  method ScheduleB(events: seq<Event>) returns (ordered: seq<Event>)
    ensures SortedBy(ordered, EventKey) && multiset(ordered) == multiset(events)
    ensures KeysDetermine(events, EventKey) ==> ordered == ScheduleA(events)
  {
    var heap := new EventHeap();
    for i := 0 to |events|
      invariant heap.Valid() && fresh(heap)
      invariant multiset(heap.items) == multiset(events[..i])
    {
      assert events[..i + 1] == events[..i] + [events[i]];
      heap.Push(events[i]);
    }
    assert events[..|events|] == events;
    ordered := [];
    while heap.items != []
      invariant heap.Valid() && fresh(heap)
      invariant multiset(heap.items) + multiset(ordered) == multiset(events)
      invariant SortedBy(ordered, EventKey)
      invariant forall x, y :: x in ordered && y in heap.items ==> NotAfter(x, y)
      decreases |multiset(heap.items)|
    {
      ghost var before := heap.items;
      var e := heap.Pop();
      DrainedIsSorted(ordered, e);
      forall x, y | x in ordered + [e] && y in heap.items
        ensures NotAfter(x, y)
      {
        assert y in multiset(heap.items) && y in multiset(before);
      }
      ordered := ordered + [e];
    }
    if KeysDetermine(events, EventKey) {
      ScheduleIsUnique(events, ordered);
    }
  }

  /** Whatever sorts the queue by key produces the canonical order. */
  lemma ScheduleIsUnique(events: seq<Event>, ordered: seq<Event>)
    requires KeysDetermine(events, EventKey)
    requires SortedBy(ordered, EventKey) && multiset(ordered) == multiset(events)
    ensures ordered == ScheduleA(events)
  {
    KeysDetermineTransfer(events, ordered, EventKey);
    SortIs(events, ordered, EventKey);
  }

  /** Unique event identifiers make keys distinguish events. */
  lemma UniqueIdsDetermine(events: seq<Event>)
    requires forall d, e :: d in events && e in events && d.id == e.id ==> d == e
    ensures KeysDetermine(events, EventKey)
  {
    forall d, e | d in events && e in events && EventKey(d) == EventKey(e)
      ensures d == e
    {
      EventKeyParts(d, e);
    }
  }
}
