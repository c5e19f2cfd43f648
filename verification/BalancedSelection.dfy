/** The round-robin selection of validation pairs, balanced over mechanisms within each class. */
module BalancedSelection {
  import opened Ordering
  import opened Sorting
  import opened Transition

  datatype PairClass = Pivotal | Invariance | Contextual
  datatype Pair = Pair(id: string, pairClass: PairClass, mechanism: string)

  function Quota(c: PairClass): nat {
    match c case Pivotal => 16 case Invariance => 4 case Contextual => 4
  }

  ghost predicate UniqueIds(pairs: seq<Pair>) {
    forall i, j :: 0 <= i < j < |pairs| ==> pairs[i].id != pairs[j].id
  }

  /** How many pairs of the class are selected; the loop condition of the allocator. */
  function Selected(pairs: seq<Pair>, c: PairClass, chosen: set<string>): nat {
    if pairs == [] then 0
    else (if pairs[0].pairClass == c && pairs[0].id in chosen then 1 else 0) + Selected(pairs[1..], c, chosen)
  }

  function Available(pairs: seq<Pair>, c: PairClass): nat {
    if pairs == [] then 0
    else (if pairs[0].pairClass == c then 1 else 0) + Available(pairs[1..], c)
  }

  lemma {:induction false} SelectedBounds(pairs: seq<Pair>, c: PairClass, chosen: set<string>)
    ensures Selected(pairs, c, chosen) <= Available(pairs, c)
    ensures Selected(pairs, c, chosen) == Available(pairs, c)
       <==> forall p :: p in pairs && p.pairClass == c ==> p.id in chosen
    ensures Selected(pairs, c, chosen) == 0
       <==> forall p :: p in pairs && p.pairClass == c ==> p.id !in chosen
  {
    if pairs != [] {
      SelectedBounds(pairs[1..], c, chosen);
      assert pairs == [pairs[0]] + pairs[1..];
    }
  }

  lemma {:induction false} SelectedFrame(pairs: seq<Pair>, c: PairClass, chosen: set<string>, chosen': set<string>)
    requires forall p :: p in pairs && p.pairClass == c ==> (p.id in chosen <==> p.id in chosen')
    ensures Selected(pairs, c, chosen) == Selected(pairs, c, chosen')
  {
    if pairs != [] {
      assert pairs == [pairs[0]] + pairs[1..];
      SelectedFrame(pairs[1..], c, chosen, chosen');
    }
  }

  /** Choosing one more pair of the class counts one more. */
  lemma {:induction false} SelectedGrows(pairs: seq<Pair>, c: PairClass, chosen: set<string>, k: nat)
    requires UniqueIds(pairs) && k < |pairs| && pairs[k].pairClass == c && pairs[k].id !in chosen
    ensures Selected(pairs, c, chosen + {pairs[k].id}) == Selected(pairs, c, chosen) + 1
  {
    if k == 0 {
      forall p | p in pairs[1..]
        ensures p.id in chosen <==> p.id in chosen + {pairs[0].id}
      {
        var j :| 0 <= j < |pairs[1..]| && pairs[1..][j] == p;
        assert pairs[j + 1] == p;
      }
      SelectedFrame(pairs[1..], c, chosen, chosen + {pairs[0].id});
    } else {
      assert pairs[1..][k - 1] == pairs[k];
      SelectedGrows(pairs[1..], c, chosen, k - 1);
    }
  }

  // Buckets

  function Mechanisms(pairs: seq<Pair>, c: PairClass): set<string> {
    set p | p in pairs && p.pairClass == c :: p.mechanism
  }

  function IdsWith(pairs: seq<Pair>, c: PairClass, mechanism: string): seq<string> {
    if pairs == [] then []
    else (if pairs[0].pairClass == c && pairs[0].mechanism == mechanism then [pairs[0].id] else [])
         + IdsWith(pairs[1..], c, mechanism)
  }

  /** The identifiers of one mechanism, in identifier order. */
  function Bucket(pairs: seq<Pair>, c: PairClass, mechanism: string): seq<string> {
    Sort(IdsWith(pairs, c, mechanism), Codes)
  }

  /** The buckets in mechanism order. */
  function Buckets(pairs: seq<Pair>, c: PairClass): (r: seq<seq<string>>)
    ensures |r| == |SortedElements(Mechanisms(pairs, c))|
    ensures forall a :: 0 <= a < |r| ==> r[a] == Bucket(pairs, c, SortedElements(Mechanisms(pairs, c))[a])
  {
    var names := SortedElements(Mechanisms(pairs, c));
    seq(|names|, a requires 0 <= a < |names| => Bucket(pairs, c, names[a]))
  }

  /** x identifies a pair of the class. */
  ghost predicate InClass(pairs: seq<Pair>, c: PairClass, x: string) {
    exists p :: p in pairs && p.pairClass == c && p.id == x
  }

  /** x identifies a pair of the class and mechanism. */
  ghost predicate Names(pairs: seq<Pair>, c: PairClass, mechanism: string, x: string) {
    exists p :: p in pairs && p.pairClass == c && p.mechanism == mechanism && p.id == x
  }

  lemma {:induction false} IdsWithMembers(pairs: seq<Pair>, c: PairClass, mechanism: string)
    ensures forall x :: x in IdsWith(pairs, c, mechanism) <==> Names(pairs, c, mechanism, x)
    ensures UniqueIds(pairs) ==> NoDuplicates(IdsWith(pairs, c, mechanism))
  {
    if pairs != [] {
      IdsWithMembers(pairs[1..], c, mechanism);
      assert pairs == [pairs[0]] + pairs[1..];
      if UniqueIds(pairs) {
        forall p | p in pairs[1..]
          ensures p.id != pairs[0].id
        {
          var j :| 0 <= j < |pairs[1..]| && pairs[1..][j] == p;
          assert pairs[j + 1] == p;
        }
        assert UniqueIds(pairs[1..]);
        assert pairs[0].id !in IdsWith(pairs[1..], c, mechanism);
      }
      forall x
        ensures x in IdsWith(pairs, c, mechanism) <==> Names(pairs, c, mechanism, x)
      {
        if Names(pairs[1..], c, mechanism, x) {
          var p :| p in pairs[1..] && p.pairClass == c && p.mechanism == mechanism && p.id == x;
          assert p in pairs;
        }
      }
    }
  }

  /** Bucket entries are identifiers of pairs of that class and mechanism, each listed once. */
  lemma BucketMembers(pairs: seq<Pair>, c: PairClass, mechanism: string)
    ensures forall x :: x in Bucket(pairs, c, mechanism) <==> Names(pairs, c, mechanism, x)
    ensures UniqueIds(pairs) ==> NoDuplicates(Bucket(pairs, c, mechanism))
  {
    IdsWithMembers(pairs, c, mechanism);
    SortMembers(IdsWith(pairs, c, mechanism), Codes);
    SortCorrect(IdsWith(pairs, c, mechanism), Codes);
    if UniqueIds(pairs) {
      DuplicateFreePermutation(IdsWith(pairs, c, mechanism), Bucket(pairs, c, mechanism));
    }
  }

  lemma BucketEntry(pairs: seq<Pair>, c: PairClass, a: nat, i: nat) returns (k: nat)
    requires a < |Buckets(pairs, c)| && i < |Buckets(pairs, c)[a]|
    ensures k < |pairs| && pairs[k].pairClass == c && pairs[k].id == Buckets(pairs, c)[a][i]
    ensures pairs[k].mechanism == SortedElements(Mechanisms(pairs, c))[a]
  {
    var mechanism := SortedElements(Mechanisms(pairs, c))[a];
    BucketMembers(pairs, c, mechanism);
    var x := Buckets(pairs, c)[a][i];
    assert x in Bucket(pairs, c, mechanism);
    var p :| p in pairs && p.pairClass == c && p.mechanism == mechanism && p.id == x;
    k :| 0 <= k < |pairs| && pairs[k] == p;
  }

  /** No identifier stands at two places in the buckets. */
  lemma EntriesApart(pairs: seq<Pair>, c: PairClass, a: nat, i: nat, b: nat, j: nat)
    requires UniqueIds(pairs)
    requires a < |Buckets(pairs, c)| && i < |Buckets(pairs, c)[a]|
    requires b < |Buckets(pairs, c)| && j < |Buckets(pairs, c)[b]|
    requires Buckets(pairs, c)[a][i] == Buckets(pairs, c)[b][j]
    ensures a == b && i == j
  {
    var names := SortedElements(Mechanisms(pairs, c));
    var k := BucketEntry(pairs, c, a, i);
    var _ := BucketEntry(pairs, c, b, j);
    SortedElementsCorrect(Mechanisms(pairs, c));
    StrictIsSorted(names, Codes);
    assert names[a] == names[b];
    BucketMembers(pairs, c, names[a]);
  }

  lemma EveryPairHasAnEntry(pairs: seq<Pair>, c: PairClass, p: Pair) returns (a: nat, i: nat)
    requires p in pairs && p.pairClass == c
    ensures a < |Buckets(pairs, c)| && i < |Buckets(pairs, c)[a]| && Buckets(pairs, c)[a][i] == p.id
  {
    var names := SortedElements(Mechanisms(pairs, c));
    SortedElementsCorrect(Mechanisms(pairs, c));
    assert p.mechanism in names;
    a :| 0 <= a < |names| && names[a] == p.mechanism;
    BucketMembers(pairs, c, p.mechanism);
    assert p.id in Bucket(pairs, c, p.mechanism);
    i :| 0 <= i < |Bucket(pairs, c, p.mechanism)| && Bucket(pairs, c, p.mechanism)[i] == p.id;
  }

  // The fair share

  /** After k full rounds, and one more turn for some buckets. */
  function Share(size: nat, k: nat, extra: bool): nat {
    var turns := if extra then k + 1 else k;
    if size < turns then size else turns
  }

  /** The first `stop` mechanisms have had k + 1 turns and the others k; each turn took the
      smallest identifier left. */
  ghost predicate Fair(buckets: seq<seq<string>>, chosen: set<string>, k: nat, stop: nat) {
    forall a, i :: 0 <= a < |buckets| && 0 <= i < |buckets[a]| ==>
      (buckets[a][i] in chosen <==> i < Share(|buckets[a]|, k, a < stop))
  }

  /** What is left in the bucket lists. */
  ghost predicate Left(buckets: seq<seq<string>>, left: seq<seq<string>>, k: nat, stop: nat) {
    && |left| == |buckets|
    && forall a :: 0 <= a < |buckets| ==> left[a] == buckets[a][Share(|buckets[a]|, k, a < stop)..]
  }

  lemma TakeOne(pairs: seq<Pair>, c: PairClass, chosen: set<string>, k: nat, stop: nat)
    requires UniqueIds(pairs) && stop < |Buckets(pairs, c)| && k < |Buckets(pairs, c)[stop]|
    requires Fair(Buckets(pairs, c), chosen, k, stop)
    ensures var id := Buckets(pairs, c)[stop][k];
      && Fair(Buckets(pairs, c), chosen + {id}, k, stop + 1)
      && Selected(pairs, c, chosen + {id}) == Selected(pairs, c, chosen) + 1
  {
    var q := Buckets(pairs, c);
    var id := q[stop][k];
    var n := BucketEntry(pairs, c, stop, k);
    assert id !in chosen;
    SelectedGrows(pairs, c, chosen, n);
    forall a, i | 0 <= a < |q| && 0 <= i < |q[a]|
      ensures q[a][i] in chosen + {id} <==> i < Share(|q[a]|, k, a < stop + 1)
    {
      if q[a][i] == id {
        EntriesApart(pairs, c, a, i, stop, k);
      }
    }
  }

  /** A turn: the first identifier left is chosen and struck from the list. */
  lemma TakeTurn(pairs: seq<Pair>, c: PairClass, chosen: set<string>, left: seq<seq<string>>, k: nat, m: nat)
    requires UniqueIds(pairs) && m < |Buckets(pairs, c)| && k < |Buckets(pairs, c)[m]|
    requires Fair(Buckets(pairs, c), chosen, k, m) && Left(Buckets(pairs, c), left, k, m)
    ensures |left| == |Buckets(pairs, c)| && left[m] != []
    ensures Fair(Buckets(pairs, c), chosen + {left[m][0]}, k, m + 1)
    ensures Left(Buckets(pairs, c), left[m := left[m][1..]], k, m + 1)
    ensures Selected(pairs, c, chosen + {left[m][0]}) == Selected(pairs, c, chosen) + 1
    ensures InClass(pairs, c, left[m][0])
  {
    var n := BucketEntry(pairs, c, m, k);
    TakeOne(pairs, c, chosen, k, m);
    assert pairs[n] in pairs;
  }

  lemma LeftEmptyIff(buckets: seq<seq<string>>, left: seq<seq<string>>, k: nat, stop: nat)
    requires stop < |buckets| && Left(buckets, left, k, stop)
    ensures |left| == |buckets| && (left[stop] == [] <==> |buckets[stop]| <= k)
  {
  }

  lemma SkipEmpty(buckets: seq<seq<string>>, chosen: set<string>, left: seq<seq<string>>, k: nat, stop: nat)
    requires stop < |buckets| && |buckets[stop]| <= k
    requires Fair(buckets, chosen, k, stop) && Left(buckets, left, k, stop)
    ensures Fair(buckets, chosen, k, stop + 1) && Left(buckets, left, k, stop + 1)
  {
    forall a | 0 <= a < |buckets|
      ensures Share(|buckets[a]|, k, a < stop) == Share(|buckets[a]|, k, a < stop + 1)
    {
    }
  }

  lemma RoundDone(buckets: seq<seq<string>>, chosen: set<string>, left: seq<seq<string>>, k: nat)
    requires Fair(buckets, chosen, k, |buckets|) && Left(buckets, left, k, |buckets|)
    ensures Fair(buckets, chosen, k + 1, 0) && Left(buckets, left, k + 1, 0)
  {
    forall a | 0 <= a < |buckets|
      ensures Share(|buckets[a]|, k, true) == Share(|buckets[a]|, k + 1, false)
    {
    }
  }

  lemma ExhaustedTakesAll(pairs: seq<Pair>, c: PairClass, chosen: set<string>, k: nat)
    requires Fair(Buckets(pairs, c), chosen, k, |Buckets(pairs, c)|)
    requires forall a :: 0 <= a < |Buckets(pairs, c)| ==> |Buckets(pairs, c)[a]| <= k
    ensures Selected(pairs, c, chosen) == Available(pairs, c)
  {
    SelectedBounds(pairs, c, chosen);
    forall p | p in pairs && p.pairClass == c
      ensures p.id in chosen
    {
      var a, i := EveryPairHasAnEntry(pairs, c, p);
    }
  }

  /** What one class contributes. */
  ghost predicate Balanced(pairs: seq<Pair>, c: PairClass, chosen: set<string>) {
    && Selected(pairs, c, chosen) == Quota(c)
    && exists k: nat, stop: nat :: stop <= |Buckets(pairs, c)| && Fair(Buckets(pairs, c), chosen, k, stop)
  }

  /** One pass over the mechanisms, stopping as soon as the quota is met. */
  method Round(pairs: seq<Pair>, c: PairClass, chosen: set<string>, left: seq<seq<string>>, ghost k: nat)
    returns (chosen': set<string>, left': seq<seq<string>>, progressed: bool, ghost stop: nat)
    requires UniqueIds(pairs) && Selected(pairs, c, chosen) < Quota(c)
    requires Fair(Buckets(pairs, c), chosen, k, 0) && Left(Buckets(pairs, c), left, k, 0)
    ensures Selected(pairs, c, chosen') <= Quota(c) && Selected(pairs, c, chosen') >= Selected(pairs, c, chosen)
    ensures progressed <==> Selected(pairs, c, chosen') > Selected(pairs, c, chosen)
    ensures stop <= |Buckets(pairs, c)|
    ensures Fair(Buckets(pairs, c), chosen', k, stop) && Left(Buckets(pairs, c), left', k, stop)
    ensures Selected(pairs, c, chosen') < Quota(c) ==> stop == |Buckets(pairs, c)|
    ensures !progressed ==> Selected(pairs, c, chosen') == Available(pairs, c)
    ensures chosen <= chosen' && forall x :: x in chosen' - chosen ==> InClass(pairs, c, x)
  {
    ghost var q := Buckets(pairs, c);
    chosen', left', progressed, stop := chosen, left, false, 0;
    for m := 0 to |left|
      invariant |left| == |left'| == |q| && stop <= m
      invariant Selected(pairs, c, chosen) <= Selected(pairs, c, chosen') <= Quota(c)
      invariant progressed <==> Selected(pairs, c, chosen') > Selected(pairs, c, chosen)
      invariant Fair(q, chosen', k, stop) && Left(q, left', k, stop)
      invariant Selected(pairs, c, chosen') < Quota(c) ==> stop == m
      invariant !progressed ==> forall a :: 0 <= a < m ==> |q[a]| <= k
      invariant chosen <= chosen' && forall x :: x in chosen' - chosen ==> InClass(pairs, c, x)
    {
      hide Left, Fair, Buckets, Bucket, Selected, InClass;
      if stop == m {
        LeftEmptyIff(q, left', k, m);
      }
      if left'[m] != [] && Selected(pairs, c, chosen') < Quota(c) {
        TakeTurn(pairs, c, chosen', left', k, m);
        chosen' := chosen' + {left'[m][0]};
        left' := left'[m := left'[m][1..]];
        progressed := true;
        stop := m + 1;
      } else if Selected(pairs, c, chosen') < Quota(c) {
        SkipEmpty(q, chosen', left', k, m);
        stop := m + 1;
      }
    }
    if !progressed {
      ExhaustedTakesAll(pairs, c, chosen', k);
    }
  }

  /** Turns go round until the quota is met; raises when a whole round makes no progress. */
  method SelectClass(pairs: seq<Pair>, c: PairClass, before: set<string>) returns (enough: bool, chosen: set<string>)
    requires UniqueIds(pairs)
    requires forall p :: p in pairs && p.pairClass == c ==> p.id !in before
    ensures enough <==> Available(pairs, c) >= Quota(c)
    ensures enough ==> Balanced(pairs, c, chosen)
    ensures before <= chosen && forall x :: x in chosen - before ==> InClass(pairs, c, x)
  {
    chosen := before;
    var left := Buckets(pairs, c);
    ghost var k: nat, stop: nat := 0, 0;
    SelectedBounds(pairs, c, chosen);
    NothingTaken(pairs, c, chosen);
    while Selected(pairs, c, chosen) < Quota(c)
      invariant Selected(pairs, c, chosen) <= Quota(c)
      invariant stop <= |Buckets(pairs, c)|
      invariant Fair(Buckets(pairs, c), chosen, k, stop) && Left(Buckets(pairs, c), left, k, stop)
      invariant Selected(pairs, c, chosen) < Quota(c) ==> stop == 0
      invariant before <= chosen && forall x :: x in chosen - before ==> InClass(pairs, c, x)
      decreases Quota(c) - Selected(pairs, c, chosen)
    {
      var progressed;
      ghost var was := chosen;
      chosen, left, progressed, stop := Round(pairs, c, chosen, left, k);
      assert forall x :: x in chosen - before ==> x in chosen - was || x in was - before;
      if !progressed {
        return false, chosen;
      }
      if Selected(pairs, c, chosen) < Quota(c) {
        RoundDone(Buckets(pairs, c), chosen, left, k);
        k, stop := k + 1, 0;
      }
    }
    SelectedBounds(pairs, c, chosen);
    enough := true;
  }

  lemma NothingTaken(pairs: seq<Pair>, c: PairClass, chosen: set<string>)
    requires forall p :: p in pairs && p.pairClass == c ==> p.id !in chosen
    ensures Fair(Buckets(pairs, c), chosen, 0, 0) && Left(Buckets(pairs, c), Buckets(pairs, c), 0, 0)
  {
    var q := Buckets(pairs, c);
    forall a, i | 0 <= a < |q| && 0 <= i < |q[a]|
      ensures q[a][i] !in chosen
    {
      var k := BucketEntry(pairs, c, a, i);
    }
  }

  lemma OtherClassesUntouched(pairs: seq<Pair>, c: PairClass, d: PairClass, before: set<string>, after: set<string>)
    requires UniqueIds(pairs) && c != d && before <= after
    requires forall x :: x in after - before ==> InClass(pairs, c, x)
    ensures forall p :: p in pairs && p.pairClass == d ==> (p.id in after <==> p.id in before)
    ensures Balanced(pairs, d, before) ==> Balanced(pairs, d, after)
  {
    forall p | p in pairs && p.pairClass == d
      ensures p.id in after <==> p.id in before
    {
      assert p.id !in after - before;
    }
    SelectedFrame(pairs, d, before, after);
    if Balanced(pairs, d, before) {
      var b := Buckets(pairs, d);
      var k: nat, stop: nat :| stop <= |b| && Fair(b, before, k, stop);
      forall a, i | 0 <= a < |b| && 0 <= i < |b[a]|
        ensures b[a][i] in after <==> i < Share(|b[a]|, k, a < stop)
      {
        var n := BucketEntry(pairs, d, a, i);
        assert pairs[n] in pairs;
      }
      assert Fair(b, after, k, stop);
    }
  }

  datatype Selection = Chosen(ids: set<string>) | CannotSelect(pairClass: PairClass)

  /** With unique identifiers the selection is balanced in all three classes when each has enough
      pairs, and names the first class that has not. */
  method MechanismBalancedStatePairs(pairs: seq<Pair>) returns (r: Selection)
    requires UniqueIds(pairs)
    ensures r.Chosen? <==> forall c :: Available(pairs, c) >= Quota(c)
    ensures r.Chosen? ==> forall c :: Balanced(pairs, c, r.ids)
    ensures r.Chosen? ==> forall x :: x in r.ids ==> exists p :: p in pairs && p.id == x
    ensures r.CannotSelect? ==> Available(pairs, r.pairClass) < Quota(r.pairClass)
    ensures r.CannotSelect? && !r.pairClass.Pivotal? ==> Available(pairs, Pivotal) >= Quota(Pivotal)
    ensures r.CannotSelect? && r.pairClass.Contextual? ==> Available(pairs, Invariance) >= Quota(Invariance)
  {
    var enough, first, second, third;
    enough, first := SelectClass(pairs, Pivotal, {});
    if !enough {
      return CannotSelect(Pivotal);
    }
    OtherClassesUntouched(pairs, Pivotal, Invariance, {}, first);
    OtherClassesUntouched(pairs, Pivotal, Contextual, {}, first);
    enough, second := SelectClass(pairs, Invariance, first);
    if !enough {
      return CannotSelect(Invariance);
    }
    OtherClassesUntouched(pairs, Invariance, Pivotal, first, second);
    OtherClassesUntouched(pairs, Invariance, Contextual, first, second);
    enough, third := SelectClass(pairs, Contextual, second);
    if !enough {
      return CannotSelect(Contextual);
    }
    OtherClassesUntouched(pairs, Contextual, Pivotal, second, third);
    OtherClassesUntouched(pairs, Contextual, Invariance, second, third);
    assert forall x :: x in third ==> x in third - second || x in second - first || x in first - {};
    r := Chosen(third);
  }

  /** The identifiers of a class. */
  function OfClass(pairs: seq<Pair>, c: PairClass): set<string> {
    set p | p in pairs && p.pairClass == c :: p.id
  }

  lemma ClassOfCons(head: Pair, rest: seq<Pair>, c: PairClass)
    ensures OfClass([head] + rest, c) == (if head.pairClass == c then {head.id} else {}) + OfClass(rest, c)
  {
  }

  lemma NotListedAgain(pairs: seq<Pair>, c: PairClass)
    requires UniqueIds(pairs) && pairs != []
    ensures UniqueIds(pairs[1..]) && pairs[0].id !in OfClass(pairs[1..], c)
  {
    forall p | p in pairs[1..]
      ensures p.id != pairs[0].id
    {
      var j :| 0 <= j < |pairs[1..]| && pairs[1..][j] == p;
      assert pairs[j + 1] == p;
    }
  }

  lemma {:induction false} CountOfClass(pairs: seq<Pair>, c: PairClass, chosen: set<string>)
    requires UniqueIds(pairs)
    ensures |OfClass(pairs, c)| == Available(pairs, c)
    ensures |OfClass(pairs, c) * chosen| == Selected(pairs, c, chosen)
  {
    hide OfClass, UniqueIds;
    if pairs == [] {
      NoneOfClass(c, chosen);
    } else {
      var head, rest := pairs[0], pairs[1..];
      assert pairs == [head] + rest;
      NotListedAgain(pairs, c);
      CountOfClass(rest, c, chosen);
      ClassOfCons(head, rest, c);
      var own: set<string> := if head.pairClass == c then {head.id} else {};
      assert (own + OfClass(rest, c)) * chosen == own * chosen + OfClass(rest, c) * chosen;
      assert own * chosen == if head.pairClass == c && head.id in chosen then {head.id} else {};
    }
  }

  lemma NoneOfClass(c: PairClass, chosen: set<string>)
    ensures OfClass([], c) == {} && OfClass([], c) * chosen == {}
  {
  }

  /** No identifier belongs to two classes. */
  lemma ThreeClasses(pairs: seq<Pair>, chosen: set<string>)
    requires UniqueIds(pairs) && forall x :: x in chosen ==> exists p :: p in pairs && p.id == x
    ensures |chosen| == |OfClass(pairs, Pivotal) * chosen| + |OfClass(pairs, Invariance) * chosen|
                        + |OfClass(pairs, Contextual) * chosen|
  {
    var a, b, c := OfClass(pairs, Pivotal) * chosen, OfClass(pairs, Invariance) * chosen, OfClass(pairs, Contextual) * chosen;
    forall p, q | p in pairs && q in pairs && p.id == q.id
      ensures p == q
    {
      var i :| 0 <= i < |pairs| && pairs[i] == p;
      var j :| 0 <= j < |pairs| && pairs[j] == q;
      assert i < j || j < i || i == j;
    }
    assert a * b == {} && (a + b) * c == {};
    assert a + b + c == chosen;
  }

  /** In numbers: a selection is 24 identifiers, 16 pivotal ones and four of each other class, and it is
      made exactly when there are that many. */
  lemma SelectionInNumbers(pairs: seq<Pair>, chosen: set<string>)
    requires UniqueIds(pairs) && (forall x :: x in chosen ==> exists p :: p in pairs && p.id == x)
    ensures (forall c :: Available(pairs, c) >= Quota(c)) <==>
      && |OfClass(pairs, Pivotal)| >= 16 && |OfClass(pairs, Invariance)| >= 4 && |OfClass(pairs, Contextual)| >= 4
    ensures (forall c :: Balanced(pairs, c, chosen)) ==>
      && |chosen| == 24 && |OfClass(pairs, Pivotal) * chosen| == 16
      && |OfClass(pairs, Invariance) * chosen| == 4 && |OfClass(pairs, Contextual) * chosen| == 4
  {
    hide OfClass, Fair, UniqueIds;
    forall c
      ensures |OfClass(pairs, c)| == Available(pairs, c) && |OfClass(pairs, c) * chosen| == Selected(pairs, c, chosen)
    {
      CountOfClass(pairs, c, chosen);
    }
    ThreeClasses(pairs, chosen);
    if forall c :: Available(pairs, c) >= Quota(c) {
      assert Available(pairs, Pivotal) >= Quota(Pivotal) && Available(pairs, Invariance) >= Quota(Invariance);
      assert Available(pairs, Contextual) >= Quota(Contextual);
    }
    if forall c :: Balanced(pairs, c, chosen) {
      assert Balanced(pairs, Pivotal, chosen) && Balanced(pairs, Invariance, chosen) && Balanced(pairs, Contextual, chosen);
    }
  }

  // What balance means

  /** How many entries of a bucket were chosen. */
  function Taken(bucket: seq<string>, chosen: set<string>): nat {
    if bucket == [] then 0
    else (if bucket[0] in chosen then 1 else 0) + Taken(bucket[1..], chosen)
  }

  lemma {:induction false} TakenPrefix(bucket: seq<string>, chosen: set<string>, n: nat)
    requires n <= |bucket| && forall i :: 0 <= i < |bucket| ==> (bucket[i] in chosen <==> i < n)
    ensures Taken(bucket, chosen) == n
  {
    if bucket != [] {
      TakenPrefix(bucket[1..], chosen, if n == 0 then 0 else n - 1);
    }
  }

  /** Every mechanism contributes its first pairs by identifier; and two mechanisms that both have
      pairs left contribute equally many, up to one. */
  lemma BalancedMeans(pairs: seq<Pair>, c: PairClass, chosen: set<string>, a: nat, b: nat)
    requires Balanced(pairs, c, chosen) && a < |Buckets(pairs, c)| && b < |Buckets(pairs, c)|
    ensures var p, q := Buckets(pairs, c)[a], Buckets(pairs, c)[b];
      && (forall i :: 0 <= i < |p| ==> (p[i] in chosen <==> i < Taken(p, chosen)))
      && (Taken(p, chosen) < |p| && Taken(q, chosen) < |q| ==> -1 <= Taken(p, chosen) - Taken(q, chosen) <= 1)
  {
    var k: nat, stop: nat :| stop <= |Buckets(pairs, c)| && Fair(Buckets(pairs, c), chosen, k, stop);
    var p, q := Buckets(pairs, c)[a], Buckets(pairs, c)[b];
    TakenPrefix(p, chosen, Share(|p|, k, a < stop));
    TakenPrefix(q, chosen, Share(|q|, k, b < stop));
  }

  /** What a mechanism contributes. */
  function ChosenOf(pairs: seq<Pair>, c: PairClass, mechanism: string, chosen: set<string>): set<string> {
    set p | p in pairs && p.pairClass == c && p.mechanism == mechanism && p.id in chosen :: p.id
  }

  lemma {:induction false} TakenCounts(bucket: seq<string>, chosen: set<string>)
    requires NoDuplicates(bucket)
    ensures |set x | x in bucket && x in chosen| == Taken(bucket, chosen)
  {
    if bucket != [] {
      var head, rest := bucket[0], bucket[1..];
      assert bucket == [head] + rest;
      TakenCounts(rest, chosen);
      var before, after := set x | x in rest && x in chosen, set x | x in bucket && x in chosen;
      assert head !in before;
      if head in chosen {
        assert after == before + {head};
      } else {
        assert after == before;
      }
    }
  }

  lemma BucketOf(pairs: seq<Pair>, c: PairClass, p: Pair, chosen: set<string>) returns (a: nat, i: nat)
    requires UniqueIds(pairs) && p in pairs && p.pairClass == c
    ensures a < |Buckets(pairs, c)| && i < |Buckets(pairs, c)[a]| && Buckets(pairs, c)[a][i] == p.id
    ensures a < |SortedElements(Mechanisms(pairs, c))| && SortedElements(Mechanisms(pairs, c))[a] == p.mechanism
    ensures Taken(Buckets(pairs, c)[a], chosen) == |ChosenOf(pairs, c, p.mechanism, chosen)|
  {
    var names := SortedElements(Mechanisms(pairs, c));
    SortedElementsCorrect(Mechanisms(pairs, c));
    assert p.mechanism in names;
    a :| 0 <= a < |names| && names[a] == p.mechanism;
    var bucket := Buckets(pairs, c)[a];
    BucketMembers(pairs, c, p.mechanism);
    assert Names(pairs, c, p.mechanism, p.id) && p.id in bucket;
    hide Bucket, Buckets;
    i :| 0 <= i < |bucket| && bucket[i] == p.id;
    TakenCounts(bucket, chosen);
    assert (set x | x in bucket && x in chosen) == ChosenOf(pairs, c, p.mechanism, chosen);
  }

  /** Within a mechanism smaller identifiers are chosen first. */
  lemma SmallestFirst(pairs: seq<Pair>, c: PairClass, chosen: set<string>, p: Pair, q: Pair)
    requires UniqueIds(pairs) && Balanced(pairs, c, chosen) && p in pairs && q in pairs
    requires p.pairClass == q.pairClass == c && p.mechanism == q.mechanism && p.id in chosen && q.id !in chosen
    ensures Less(Codes(p.id), Codes(q.id))
  {
    var a, i := BucketOf(pairs, c, p, chosen);
    var b, j := BucketOf(pairs, c, q, chosen);
    SortedElementsCorrect(Mechanisms(pairs, c));
    StrictIsSorted(SortedElements(Mechanisms(pairs, c)), Codes);
    assert a == b;
    BalancedMeans(pairs, c, chosen, a, a);
    var ids := IdsWith(pairs, c, p.mechanism);
    var bucket := Buckets(pairs, c)[a];
    SortCorrect(ids, Codes);
    assert i < j;
    LessTotal(Codes(p.id), Codes(q.id));
    if Codes(p.id) == Codes(q.id) {
      CodesInjective(p.id, q.id);
    }
  }

  /** Turns go round the mechanisms by name: as long as a mechanism has pairs left, no mechanism with a
      smaller name has contributed more than one pair more, and no other mechanism has contributed more. */
  lemma TurnsByName(pairs: seq<Pair>, c: PairClass, chosen: set<string>, p: Pair, q: Pair)
    requires UniqueIds(pairs) && Balanced(pairs, c, chosen) && p in pairs && q in pairs
    requires p.pairClass == q.pairClass == c && q.id !in chosen
    ensures |ChosenOf(pairs, c, p.mechanism, chosen)|
         <= |ChosenOf(pairs, c, q.mechanism, chosen)| + (if Less(Codes(p.mechanism), Codes(q.mechanism)) then 1 else 0)
  {
    var a, i := BucketOf(pairs, c, p, chosen);
    var b, j := BucketOf(pairs, c, q, chosen);
    SortedElementsCorrect(Mechanisms(pairs, c));
    var k: nat, stop: nat :| stop <= |Buckets(pairs, c)| && Fair(Buckets(pairs, c), chosen, k, stop);
    var x, y := Buckets(pairs, c)[a], Buckets(pairs, c)[b];
    TakenPrefix(x, chosen, Share(|x|, k, a < stop));
    TakenPrefix(y, chosen, Share(|y|, k, b < stop));
  }
}
