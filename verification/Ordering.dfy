/** Lexicographic keys and the sort that every scheduler, selector and router in the
    repository relies on. A Python tuple of integers ending in a string is compared like
    the sequence of its integers followed by the code points of the string. */
module Ordering {

  type Key = seq<int>

  predicate Less(a: Key, b: Key) {
    b != [] && (a == [] || a[0] < b[0] || (a[0] == b[0] && Less(a[1..], b[1..])))
  }

  /** The code points of a string, in order. */
  function Codes(s: string): (r: Key)
    ensures |r| == |s|
    ensures forall i :: 0 <= i < |s| ==> r[i] == s[i] as int
  {
    seq(|s|, i requires 0 <= i < |s| => s[i] as int)
  }

  lemma CodesInjective(s: string, t: string)
    requires Codes(s) == Codes(t)
    ensures s == t
  {
    assert |s| == |Codes(s)| == |Codes(t)| == |t|;
    forall i | 0 <= i < |s|
      ensures s[i] == t[i]
    {
      assert s[i] as int == Codes(s)[i] == Codes(t)[i] == t[i] as int;
    }
  }

  lemma LessCons(x: int, a: Key, y: int, b: Key)
    ensures Less([x] + a, [y] + b) <==> x < y || (x == y && Less(a, b))
  {
    assert ([x] + a)[1..] == a && ([y] + b)[1..] == b;
  }

  lemma {:induction false} LessIrreflexive(a: Key)
    ensures !Less(a, a)
  {
    if a != [] {
      LessIrreflexive(a[1..]);
    }
  }

  lemma {:induction false} LessTransitive(a: Key, b: Key, c: Key)
    requires Less(a, b) && Less(b, c)
    ensures Less(a, c)
  {
    if a != [] && a[0] == b[0] && b[0] == c[0] {
      LessTransitive(a[1..], b[1..], c[1..]);
    }
  }

  lemma {:induction false} LessTotal(a: Key, b: Key)
    ensures Less(a, b) || Less(b, a) || a == b
  {
    if a != [] && b != [] && a[0] == b[0] {
      LessTotal(a[1..], b[1..]);
      assert a == [a[0]] + a[1..] && b == [b[0]] + b[1..];
    }
  }

  lemma LessAsymmetric(a: Key, b: Key)
    requires Less(a, b)
    ensures !Less(b, a)
  {
    if Less(b, a) {
      LessTransitive(a, b, a);
      LessIrreflexive(a);
    }
  }

  /** "Not after" is transitive. */
  lemma NotAfterTransitive(a: Key, b: Key, c: Key)
    requires !Less(b, a) && !Less(c, b)
    ensures !Less(c, a)
  {
    if Less(c, a) {
      LessTotal(a, b);
      if Less(a, b) {
        LessTransitive(c, a, b);
      }
    }
  }
}

/** Stable sorting by a key, and what is special about an already sorted permutation. */
module Sorting {
  import opened Ordering

  ghost predicate SortedBy<T>(s: seq<T>, key: T -> Key) {
    forall i, j :: 0 <= i < j < |s| ==> !Less(key(s[j]), key(s[i]))
  }

  ghost predicate StrictlySortedBy<T>(s: seq<T>, key: T -> Key) {
    forall i, j :: 0 <= i < j < |s| ==> Less(key(s[i]), key(s[j]))
  }

  /** Items that share a key are the same item. */
  ghost predicate KeysDetermine<T>(s: seq<T>, key: T -> Key) {
    forall x, y :: x in s && y in s && key(x) == key(y) ==> x == y
  }

  ghost predicate NoDuplicates<T>(s: seq<T>) {
    forall i, j :: 0 <= i < j < |s| ==> s[i] != s[j]
  }

  /** Python's set(items). */
  function Elements<T(==)>(items: seq<T>): set<T> {
    set x | x in items
  }

  /** Inserts before equal keys, so sorting from the right is stable. */
  function Insert<T>(x: T, s: seq<T>, key: T -> Key): seq<T> {
    if s == [] || !Less(key(s[0]), key(x)) then [x] + s
    else [s[0]] + Insert(x, s[1..], key)
  }

  /** Python's sorted(s, key=key). */
  function Sort<T>(s: seq<T>, key: T -> Key): seq<T> {
    if s == [] then [] else Insert(s[0], Sort(s[1..], key), key)
  }

  lemma {:induction false} InsertCorrect<T>(x: T, s: seq<T>, key: T -> Key)
    requires SortedBy(s, key)
    ensures SortedBy(Insert(x, s, key), key)
    ensures multiset(Insert(x, s, key)) == multiset{x} + multiset(s)
  {
    if s == [] {
    } else if !Less(key(s[0]), key(x)) {
      LessIrreflexive(key(s[0]));
      forall j | 0 <= j < |s|
        ensures !Less(key(s[j]), key(x))
      {
        NotAfterTransitive(key(x), key(s[0]), key(s[j]));
      }
    } else {
      var rest := Insert(x, s[1..], key);
      InsertCorrect(x, s[1..], key);
      assert s == [s[0]] + s[1..];
      LessAsymmetric(key(s[0]), key(x));
      forall j | 0 <= j < |rest|
        ensures !Less(key(rest[j]), key(s[0]))
      {
        assert rest[j] in multiset(rest);
        assert rest[j] == x || rest[j] in s[1..];
      }
    }
  }

  /** Sorting sorts and permutes. */
  lemma {:induction false} SortCorrect<T>(s: seq<T>, key: T -> Key)
    ensures SortedBy(Sort(s, key), key)
    ensures multiset(Sort(s, key)) == multiset(s)
    ensures |Sort(s, key)| == |s|
  {
    if s != [] {
      SortCorrect(s[1..], key);
      InsertCorrect(s[0], Sort(s[1..], key), key);
      assert s == [s[0]] + s[1..];
    }
    assert |multiset(Sort(s, key))| == |multiset(s)|;
  }

  /** The items that carry a given key, in order. */
  function Carrying<T>(s: seq<T>, key: T -> Key, k: Key): seq<T> {
    if s == [] then []
    else (if key(s[0]) == k then [s[0]] else []) + Carrying(s[1..], key, k)
  }

  lemma {:induction false} InsertStable<T>(x: T, s: seq<T>, key: T -> Key, k: Key)
    ensures Carrying(Insert(x, s, key), key, k) == (if key(x) == k then [x] else []) + Carrying(s, key, k)
  {
    if s == [] || !Less(key(s[0]), key(x)) {
      assert ([x] + s)[1..] == s;
    } else {
      InsertStable(x, s[1..], key, k);
      assert ([s[0]] + Insert(x, s[1..], key))[1..] == Insert(x, s[1..], key);
      LessIrreflexive(key(x));
    }
  }

  /** Sorting is stable: items with the same key keep their order. */
  lemma {:induction false} SortStable<T>(s: seq<T>, key: T -> Key, k: Key)
    ensures Carrying(Sort(s, key), key, k) == Carrying(s, key, k)
  {
    if s != [] {
      SortStable(s[1..], key, k);
      InsertStable(s[0], Sort(s[1..], key), key, k);
    }
  }

  lemma SortMembers<T>(s: seq<T>, key: T -> Key)
    ensures forall x :: x in Sort(s, key) <==> x in s
  {
    SortCorrect(s, key);
    forall x
      ensures x in Sort(s, key) <==> x in s
    {
      assert x in multiset(Sort(s, key)) <==> x in multiset(s);
    }
  }

  lemma SameHead<T>(a: seq<T>, b: seq<T>, key: T -> Key)
    requires SortedBy(a, key) && SortedBy(b, key) && a != [] && b != []
    requires multiset(a) == multiset(b) && KeysDetermine(a, key)
    ensures a[0] == b[0]
  {
    assert a[0] in multiset(b) && b[0] in multiset(a);
    assert a[0] in b && b[0] in a;
    LessIrreflexive(key(a[0]));
    LessTotal(key(a[0]), key(b[0]));
  }

  lemma SameTails<T>(a: seq<T>, b: seq<T>)
    requires a != [] && b != [] && a[0] == b[0] && multiset(a) == multiset(b)
    ensures multiset(a[1..]) == multiset(b[1..])
    ensures forall x :: x in a[1..] ==> x in a
  {
    assert a == [a[0]] + a[1..] && b == [b[0]] + b[1..];
    assert multiset(a[1..]) == multiset(a) - multiset{a[0]};
    assert multiset(b[1..]) == multiset(b) - multiset{b[0]};
  }

  /** There is only one sorted arrangement when keys tell items apart. */
  lemma {:induction false} SortedPermutationUnique<T>(a: seq<T>, b: seq<T>, key: T -> Key)
    requires SortedBy(a, key) && SortedBy(b, key)
    requires multiset(a) == multiset(b)
    requires KeysDetermine(a, key)
    ensures a == b
  {
    assert |multiset(a)| == |a| && |multiset(b)| == |b|;
    if a != [] {
      SameHead(a, b, key);
      SameTails(a, b);
      SortedPermutationUnique(a[1..], b[1..], key);
      assert a == [a[0]] + a[1..] && b == [b[0]] + b[1..];
    }
  }

  /** A sorted permutation of the input is what Sort returns. */
  lemma SortIs<T>(s: seq<T>, sorted: seq<T>, key: T -> Key)
    requires SortedBy(sorted, key) && multiset(sorted) == multiset(s)
    requires KeysDetermine(sorted, key)
    ensures Sort(s, key) == sorted
  {
    SortCorrect(s, key);
    SortedPermutationUnique(sorted, Sort(s, key), key);
  }

  /** The order of submission is irrelevant when keys tell items apart. */
  lemma SortPermutationInvariant<T>(s: seq<T>, t: seq<T>, key: T -> Key)
    requires multiset(s) == multiset(t)
    requires KeysDetermine(s, key)
    ensures Sort(s, key) == Sort(t, key)
  {
    SortCorrect(s, key);
    SortCorrect(t, key);
    KeysDetermineTransfer(s, Sort(s, key), key);
    SortedPermutationUnique(Sort(s, key), Sort(t, key), key);
  }

  lemma KeysDetermineTransfer<T>(s: seq<T>, t: seq<T>, key: T -> Key)
    requires multiset(s) == multiset(t) && KeysDetermine(s, key)
    ensures KeysDetermine(t, key)
  {
    forall x, y | x in t && y in t && key(x) == key(y)
      ensures x == y
    {
      assert x in multiset(s) && y in multiset(s);
    }
  }

  lemma StrictIsSorted<T>(s: seq<T>, key: T -> Key)
    requires StrictlySortedBy(s, key)
    ensures SortedBy(s, key) && KeysDetermine(s, key) && NoDuplicates(s)
  {
    forall i, j | 0 <= i < j < |s|
      ensures !Less(key(s[j]), key(s[i])) && s[i] != s[j] && key(s[i]) != key(s[j])
    {
      LessAsymmetric(key(s[i]), key(s[j]));
      LessIrreflexive(key(s[i]));
    }
    forall x, y | x in s && y in s && key(x) == key(y)
      ensures x == y
    {
      var i :| 0 <= i < |s| && s[i] == x;
      var j :| 0 <= j < |s| && s[j] == y;
      assert i == j;
    }
  }

  /** Sorting duplicate-free items with distinguishing keys is strict. */
  lemma SortStrict<T>(s: seq<T>, key: T -> Key)
    requires NoDuplicates(s) && KeysDetermine(s, key)
    ensures StrictlySortedBy(Sort(s, key), key)
  {
    var r := Sort(s, key);
    SortCorrect(s, key);
    DuplicateFreePermutation(s, r);
    forall i, j | 0 <= i < j < |r|
      ensures Less(key(r[i]), key(r[j]))
    {
      LessTotal(key(r[i]), key(r[j]));
      assert r[i] in multiset(r) && r[j] in multiset(r);
      assert r[i] in s && r[j] in s;
    }
  }

  lemma {:induction false} MultiplicityOne<T>(s: seq<T>)
    requires NoDuplicates(s)
    ensures forall x :: x in s ==> multiset(s)[x] == 1
  {
    if s != [] {
      MultiplicityOne(s[1..]);
      assert s == [s[0]] + s[1..];
      assert s[0] !in s[1..];
      forall x | x in s
        ensures multiset(s)[x] == 1
      {
        assert multiset(s) == multiset{s[0]} + multiset(s[1..]);
        if x != s[0] {
          assert x in s[1..];
        }
      }
    }
  }

  lemma DuplicateFreePermutation<T>(s: seq<T>, t: seq<T>)
    requires NoDuplicates(s) && multiset(s) == multiset(t)
    ensures NoDuplicates(t)
  {
    MultiplicityOne(s);
    forall i, j | 0 <= i < j < |t|
      ensures t[i] != t[j]
    {
      assert t[i] in multiset(t);
      assert multiset(t)[t[i]] == 1;
      if t[i] == t[j] {
        OccursTwice(t, i, j);
        assert false;
      }
    }
  }

  lemma OccursTwice<T>(t: seq<T>, i: nat, j: nat)
    requires i < j < |t| && t[i] == t[j]
    ensures multiset(t)[t[i]] >= 2
  {
    assert t == t[..j] + [t[j]] + t[j + 1..];
    assert t[..j][i] == t[i];
    assert t[i] in multiset(t[..j]);
  }

  /** The last item of one arrangement can be cut out of any other arrangement of the same items. */
  lemma CutOut<T>(a: seq<T>, b: seq<T>) returns (before: seq<T>, after: seq<T>)
    requires multiset(a) == multiset(b) && a != []
    ensures b == (before + [a[|a| - 1]]) + after
    ensures multiset(a[..|a| - 1]) == multiset(before + after)
  {
    var front, last := a[..|a| - 1], a[|a| - 1];
    assert a == front + [last];
    assert last in multiset(b);
    var k :| 0 <= k < |b| && b[k] == last;
    before, after := b[..k], b[k + 1..];
    assert b == (before + [last]) + after;
    Splice(before, last, after);
    Splice(front, last, []);
    assert (front + [last]) + [] == a && front + [] == front;
    Cancel(multiset(front), multiset(before + after), last);
  }

  lemma Splice<T>(before: seq<T>, x: T, after: seq<T>)
    ensures multiset((before + [x]) + after) == multiset(before + after) + multiset{x}
  {
  }

  lemma Cancel<T>(a: multiset<T>, b: multiset<T>, x: T)
    requires a + multiset{x} == b + multiset{x}
    ensures a == b
  {
    assert a == (a + multiset{x}) - multiset{x};
    assert b == (b + multiset{x}) - multiset{x};
  }

  /** Two strictly sorted sequences with the same members are equal. */
  lemma StrictSameMembers<T>(a: seq<T>, b: seq<T>, key: T -> Key)
    requires StrictlySortedBy(a, key) && StrictlySortedBy(b, key)
    requires forall x :: x in a <==> x in b
    ensures a == b
  {
    StrictIsSorted(a, key);
    StrictIsSorted(b, key);
    MultiplicityOne(a);
    MultiplicityOne(b);
    forall x
      ensures multiset(a)[x] == multiset(b)[x]
    {
      if x in a {
        assert x in b;
      } else {
        assert x !in b && x !in multiset(a) && x !in multiset(b);
      }
    }
    assert multiset(a) == multiset(b);
    SortedPermutationUnique(a, b, key);
  }
}
