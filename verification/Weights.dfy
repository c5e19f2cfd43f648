/** Rescaling sample weights so that every decision carries the same total weight. A weight is an
    integer number of millionths, which is what six decimal places give. */
module Weights {
  import opened Rounding

  datatype Record = Record(decision: string, pair: bool, weight: int)

  datatype Outcome =
    | Scaled(target: int)
    | NoDecisions // max() of an empty collection
    | ZeroTotal   // division by zero

  predicate Carries(r: Record, decision: string) {
    !r.pair && r.decision == decision
  }

  function Total(records: seq<Record>, decision: string): int {
    if records == [] then 0
    else
      var last := records[|records| - 1];
      Total(records[..|records| - 1], decision) + (if Carries(last, decision) then last.weight else 0)
  }

  function Members(records: seq<Record>, decision: string): nat {
    if records == [] then 0
    else
      Members(records[..|records| - 1], decision)
      + (if Carries(records[|records| - 1], decision) then 1 else 0)
  }

  /** The places of the records that count for a decision. */
  function Places(records: seq<Record>, decision: string): set<int> {
    set i | 0 <= i < |records| && !records[i].pair && records[i].decision == decision
  }

  lemma PlacesSnoc(front: seq<Record>, last: Record, decision: string)
    ensures Places(front + [last], decision) == Places(front, decision) + if Carries(last, decision) then {|front|} else {}
  {
    var all := front + [last];
    forall i
      ensures i in Places(all, decision) <==> i in Places(front, decision) || (i == |front| && Carries(last, decision))
    {
      assert 0 <= i < |front| ==> all[i] == front[i];
    }
  }

  lemma {:induction false} MembersCount(records: seq<Record>, decision: string)
    ensures |Places(records, decision)| == Members(records, decision)
  {
    if records == [] {
      assert Places(records, decision) == {};
    } else {
      var front, last := records[..|records| - 1], records[|records| - 1];
      assert records == front + [last];
      MembersCount(front, decision);
      PlacesSnoc(front, last, decision);
      assert |front| !in Places(front, decision);
    }
  }

  predicate HasDecision(records: seq<Record>, decision: string) {
    exists r :: r in records && Carries(r, decision)
  }

  /** `target` is the largest total of any decision. */
  ghost predicate Greatest(records: seq<Record>, target: int) {
    && (exists r :: r in records && !r.pair && Total(records, r.decision) == target)
    && (forall r :: r in records && !r.pair ==> Total(records, r.decision) <= target)
  }

  ghost predicate NonZeroTotals(records: seq<Record>) {
    forall r :: r in records && !r.pair ==> Total(records, r.decision) != 0
  }

  /** The share of `target` that `weight` has of `total`, before rounding. */
  function Share(weight: int, target: int, total: int): real
    requires total != 0
  {
    weight as real * target as real / total as real
  }

  function Rescale(weight: int, target: int, total: int): int
    requires total != 0
  {
    RoundHalfEven(Share(weight, target, total))
  }

  function RescaleRecord(r: Record, target: int, records: seq<Record>): Record
    requires !r.pair ==> Total(records, r.decision) != 0
  {
    if r.pair then r else r.(weight := Rescale(r.weight, target, Total(records, r.decision)))
  }

  /** The records after normalisation towards `target`. */
  function Normalised(records: seq<Record>, target: int): (r: seq<Record>)
    requires NonZeroTotals(records)
    ensures |r| == |records|
  {
    seq(|records|, i requires 0 <= i < |records| =>
      assert records[i] in records; RescaleRecord(records[i], target, records))
  }

  ghost predicate Tallied(records: seq<Record>, totals: map<string, int>) {
    && (forall d :: d in totals <==> HasDecision(records, d))
    && (forall d :: d in totals ==> totals[d] == Total(records, d))
  }

  lemma {:induction false} NothingCarried(records: seq<Record>, d: string)
    requires !HasDecision(records, d)
    ensures Total(records, d) == 0
  {
    if records != [] {
      var front, last := records[..|records| - 1], records[|records| - 1];
      assert records == front + [last] && last in records;
      NothingCarried(front, d);
    }
  }

  lemma TallyStep(front: seq<Record>, r: Record, totals: map<string, int>)
    requires Tallied(front, totals)
    ensures r.pair ==> Tallied(front + [r], totals)
    ensures !r.pair ==> Tallied(front + [r],
      totals[r.decision := (if r.decision in totals then totals[r.decision] else 0) + r.weight])
  {
    var all := front + [r];
    assert all[..|all| - 1] == front;
    forall d
      ensures HasDecision(all, d) <==> HasDecision(front, d) || Carries(r, d)
      ensures !HasDecision(front, d) ==> Total(front, d) == 0
    {
      if HasDecision(front, d) {
        var x :| x in front && Carries(x, d);
        assert x in all;
      } else {
        NothingCarried(front, d);
      }
      if Carries(r, d) {
        assert r in all;
      }
    }
  }

  /** Adds up the weights of every decision. */
  method DecisionTotals(a: array<Record>) returns (totals: map<string, int>)
    ensures Tallied(a[..], totals)
  {
    totals := map[];
    for i := 0 to a.Length
      invariant Tallied(a[..i], totals)
    {
      var r := a[i];
      TallyStep(a[..i], r, totals);
      assert a[..i + 1] == a[..i] + [r];
      if !r.pair {
        totals := totals[r.decision := (if r.decision in totals then totals[r.decision] else 0) + r.weight];
      }
    }
    assert a[..a.Length] == a[..];
  }

  /** The largest of the totals. */
  method Largest(totals: map<string, int>) returns (target: int)
    requires totals != map[]
    ensures exists d :: d in totals && totals[d] == target
    ensures forall d :: d in totals ==> totals[d] <= target
  {
    var rest := totals.Keys;
    var first :| first in rest;
    target := totals[first];
    while rest != {}
      invariant rest <= totals.Keys
      invariant exists d :: d in totals && totals[d] == target
      invariant forall d :: d in totals && d !in rest ==> totals[d] <= target
    {
      var d :| d in rest;
      if totals[d] > target {
        target := totals[d];
      }
      rest := rest - {d};
    }
  }

  lemma TalliedTarget(records: seq<Record>, totals: map<string, int>, target: int)
    requires Tallied(records, totals)
    requires exists d :: d in totals && totals[d] == target
    requires forall d :: d in totals ==> totals[d] <= target
    ensures Greatest(records, target)
  {
    var d :| d in totals && totals[d] == target;
    var r :| r in records && Carries(r, d);
    forall r | r in records && !r.pair
      ensures Total(records, r.decision) <= target
    {
      assert Carries(r, r.decision);
      assert HasDecision(records, r.decision);
    }
  }

  lemma TalliedZero(records: seq<Record>, totals: map<string, int>)
    requires Tallied(records, totals)
    ensures NonZeroTotals(records) <==> forall d :: d in totals ==> totals[d] != 0
    ensures totals == map[] <==> forall r :: r in records ==> r.pair
    ensures forall r :: r in records && !r.pair ==> r.decision in totals
  {
    forall r | r in records && !r.pair
      ensures r.decision in totals
    {
      assert Carries(r, r.decision);
      assert HasDecision(records, r.decision);
    }
    forall d | d in totals
      ensures exists r :: r in records && !r.pair && r.decision == d
    {
      var r :| r in records && Carries(r, d);
    }
  }

  /** The rewriting loop. */
  method Rewrite(a: array<Record>, target: int, totals: map<string, int>)
    requires Tallied(a[..], totals) && NonZeroTotals(a[..])
    modifies a
    ensures a[..] == Normalised(old(a[..]), target)
  {
    hide Total, Rescale;
    ghost var before := a[..];
    TalliedZero(before, totals);
    for i := 0 to a.Length
      invariant forall k :: 0 <= k < i ==> a[k] == Normalised(before, target)[k]
      invariant forall k :: i <= k < a.Length ==> a[k] == before[k]
    {
      var r := a[i];
      assert r == before[i] && r in before;
      if !r.pair {
        a[i] := r.(weight := Rescale(r.weight, target, totals[r.decision]));
      }
    }
  }

  /** Equalises the decision totals in place. */
  method Normalise(a: array<Record>) returns (outcome: Outcome)
    modifies a
    ensures outcome.NoDecisions? <==> forall r :: r in old(a[..]) ==> r.pair
    ensures outcome.ZeroTotal? <==> !NonZeroTotals(old(a[..]))
    ensures !outcome.Scaled? ==> a[..] == old(a[..])
    ensures outcome.Scaled? ==> NonZeroTotals(old(a[..])) && Greatest(old(a[..]), outcome.target)
                                && a[..] == Normalised(old(a[..]), outcome.target)
  {
    hide Total, Greatest, Rescale, Normalised;
    ghost var before := a[..];
    var totals := DecisionTotals(a);
    TalliedZero(before, totals);
    if totals == map[] {
      return NoDecisions;
    }
    var target := Largest(totals);
    TalliedTarget(before, totals, target);
    if d :| d in totals && totals[d] == 0 {
      return ZeroTotal;
    }
    Rewrite(a, target, totals);
    return Scaled(target);
  }

  // What normalisation achieves

  lemma RescaleError(weight: int, target: int, total: int)
    requires total != 0
    ensures -0.5 <= Rescale(weight, target, total) as real - Share(weight, target, total) <= 0.5
  {
    hide Share;
    RoundsToNearest(Share(weight, target, total));
  }

  lemma ShareAdds(x: int, y: int, target: int, total: int)
    requires total != 0
    ensures Share(x + y, target, total) == Share(x, target, total) + Share(y, target, total)
  {
  }

  lemma WholeShare(target: int, total: int)
    requires total != 0
    ensures Share(total, target, total) == target as real
    ensures Share(target, total, total) == target as real
    ensures Share(0, target, total) == 0.0
  {
  }

  /** Rounding errors of one decision add up to at most half a unit per record. */
  lemma {:induction false} PrefixError(records: seq<Record>, target: int, d: string, n: nat)
    requires NonZeroTotals(records) && n <= |records| && Total(records, d) != 0
    ensures var exact := Share(Total(records[..n], d), target, Total(records, d));
      var slack := Members(records[..n], d) as real / 2.0;
      -slack <= Total(Normalised(records, target)[..n], d) as real - exact <= slack
  {
    hide Share, Rescale;
    var after, total := Normalised(records, target), Total(records, d);
    if n == 0 {
      WholeShare(target, total);
    } else {
      PrefixError(records, target, d, n - 1);
      assert records[..n][..n - 1] == records[..n - 1] && after[..n][..n - 1] == after[..n - 1];
      var r := records[n - 1];
      assert r in records;
      assert after[n - 1] == RescaleRecord(r, target, records);
      if Carries(r, d) {
        RescaleError(r.weight, target, total);
        ShareAdds(Total(records[..n - 1], d), r.weight, target, total);
      }
    }
  }

  /** After normalisation every decision weighs the maximum total, up to half a millionth per record. */
  lemma TotalsAreBalanced(records: seq<Record>, target: int, d: string)
    requires NonZeroTotals(records) && HasDecision(records, d)
    ensures var after, n := Normalised(records, target), Members(records, d) as int;
      -n <= 2 * (Total(after, d) - target) <= n
  {
    hide Share, Normalised, Total, Members;
    var after, total := Normalised(records, target), Total(records, d);
    var r :| r in records && Carries(r, d);
    PrefixError(records, target, d, |records|);
    assert records[..|records|] == records && after[..|records|] == after;
    WholeShare(target, total);
  }

  /** Every record by itself is in proportion: its new weight is the nearest millionth to the share of the
      target that it had of its decision's total, and nothing else about it changes. */
  lemma EachInProportion(records: seq<Record>, target: int, i: nat)
    requires NonZeroTotals(records) && i < |records| && !records[i].pair && Total(records, records[i].decision) > 0
    ensures var before, after, total := records[i], Normalised(records, target)[i], Total(records, records[i].decision);
      && after == before.(weight := after.weight)
      && -total <= 2 * (after.weight * total - before.weight * target) <= total
  {
    hide Total, Rescale, Share;
    var before, total := records[i], Total(records, records[i].decision);
    assert before in records;
    RescaleError(before.weight, target, total);
    WithinHalf(Rescale(before.weight, target, total), before.weight, target, total);
  }

  lemma ShareTimes(weight: int, target: int, total: int)
    requires total != 0
    ensures Share(weight, target, total) * total as real == (weight * target) as real
  {
  }

  lemma WithinHalf(w: int, weight: int, target: int, total: int)
    requires total > 0 && -0.5 <= w as real - Share(weight, target, total) <= 0.5
    ensures -total <= 2 * (w * total - weight * target) <= total
  {
    hide Share;
    ShareTimes(weight, target, total);
    ScaledBounds(w as real, Share(weight, target, total), total as real, (w * total) as real, (weight * target) as real);
  }

  lemma ScaledBounds(x: real, y: real, t: real, u: real, v: real)
    requires t > 0.0 && -0.5 <= x - y <= 0.5 && u == x * t && v == y * t
    ensures -t <= (u - v) + (u - v) <= t
  {
    NonNegativeProduct(x - y + 0.5, t);
    NonNegativeProduct(0.5 - (x - y), t);
  }

  lemma NonNegativeProduct(a: real, b: real)
    requires a >= 0.0 && b >= 0.0
    ensures a * b >= 0.0
  {
  }

  lemma RoundWhole(w: int)
    ensures RoundHalfEven(w as real) == w
  {
    assert (w as real).Floor == w;
  }

  /** Pair records keep their weight, and so do the records of a decision that has the maximum total. */
  lemma MaximumIsUnchanged(records: seq<Record>, target: int, i: nat)
    requires NonZeroTotals(records) && i < |records|
    requires records[i].pair || Total(records, records[i].decision) == target
    ensures Normalised(records, target)[i] == records[i]
  {
    hide Share, Total;
    var r := records[i];
    assert r in records;
    if !r.pair {
      WholeShare(r.weight, target);
      RoundWhole(r.weight);
    }
  }

  /** Non-negative weights never shrink, provided the totals are positive. */
  lemma WeightsNeverShrink(records: seq<Record>, target: int, i: nat)
    requires NonZeroTotals(records) && Greatest(records, target) && i < |records|
    requires records[i].weight >= 0 && Total(records, records[i].decision) > 0
    ensures Normalised(records, target)[i].weight >= records[i].weight
  {
    hide Share, Total;
    var r := records[i];
    assert r in records;
    if !r.pair {
      var total := Total(records, r.decision);
      ShareGrows(r.weight, target, total);
      RoundWhole(r.weight);
    }
  }

  lemma ShareGrows(weight: int, target: int, total: int)
    requires weight >= 0 && target >= total > 0
    ensures Share(weight, target, total) >= weight as real
  {
    var w, t, s := weight as real, target as real, total as real;
    Products(w, s, t);
    CancelFactor(w, s);
    Quotients(w * s, w * t, s);
  }

  lemma Products(w: real, s: real, t: real)
    requires w >= 0.0 && s <= t
    ensures w * s <= w * t
  {
  }

  lemma CancelFactor(w: real, s: real)
    requires s != 0.0
    ensures w * s / s == w
  {
  }

  lemma Quotients(x: real, y: real, total: real)
    requires x <= y && total > 0.0
    ensures x / total <= y / total
  {
  }
}
