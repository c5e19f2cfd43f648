/** The receipt audit: what it accepts, and that it accepts every receipt of the engine. */
module QueueIntegrity {
  import opened Ordering
  import opened Sorting
  import opened EventNet
  import opened Scheduling
  import opened Transition
  import opened Evaluation
  import opened Engine

  // is_subsequence

  ghost predicate Embedding(values: seq<string>, ordered: seq<string>, at: seq<nat>) {
    && |at| == |values|
    && (forall i :: 0 <= i < |at| ==> at[i] < |ordered| && ordered[at[i]] == values[i])
    && (forall i, j :: 0 <= i < j < |at| ==> at[i] < at[j])
  }

  /** The values occur in order: some strictly increasing choice of positions holds them. */
  ghost predicate Embeds(values: seq<string>, ordered: seq<string>) {
    exists at :: Embedding(values, ordered, at)
  }

  /** Greedy matching: every value takes its first occurrence after the previous match. */
  predicate Greedy(values: seq<string>, ordered: seq<string>) {
    values == [] || (ordered != [] &&
      if ordered[0] == values[0] then Greedy(values[1..], ordered[1..]) else Greedy(values, ordered[1..]))
  }

  lemma {:induction false} GreedySound(values: seq<string>, ordered: seq<string>) returns (at: seq<nat>)
    requires Greedy(values, ordered)
    ensures Embedding(values, ordered, at)
    decreases |ordered|
  {
    if values == [] {
      at := [];
    } else {
      var matched := ordered[0] == values[0];
      var rest := GreedySound(if matched then values[1..] else values, ordered[1..]);
      var shifted := EmbedLater(if matched then values[1..] else values, ordered, rest);
      at := if matched then [0] + shifted else shifted;
      assert matched ==> forall i :: 0 < i < |at| ==> at[i] == shifted[i - 1];
    }
  }

  /** An embedding into a tail, seen in the whole. */
  lemma EmbedLater(values: seq<string>, ordered: seq<string>, at: seq<nat>) returns (shifted: seq<nat>)
    requires ordered != [] && Embedding(values, ordered[1..], at)
    ensures Embedding(values, ordered, shifted) && forall i :: 0 <= i < |shifted| ==> shifted[i] > 0
  {
    shifted := seq(|at|, i requires 0 <= i < |at| => at[i] + 1);
  }

  lemma {:induction false} GreedyComplete(values: seq<string>, ordered: seq<string>, at: seq<nat>)
    requires Embedding(values, ordered, at)
    ensures Greedy(values, ordered)
    decreases |ordered|
  {
    if values != [] {
      assert ordered[at[0]] == values[0];
      var drop := if ordered[0] == values[0] then at[1..] else at;
      assert forall i :: 0 <= i < |drop| ==> drop[i] > 0 by {
        forall i | 0 <= i < |drop|
          ensures drop[i] > 0
        {
          if ordered[0] == values[0] {
            assert at[0] < at[i + 1];
          } else if i > 0 {
            assert at[0] < at[i];
          }
        }
      }
      var shifted: seq<nat> := seq(|drop|, i requires 0 <= i < |drop| => drop[i] - 1);
      GreedyComplete(if ordered[0] == values[0] then values[1..] else values, ordered[1..], shifted);
    }
  }

  /** Greedy matching is complete: it succeeds exactly when an embedding exists. */
  lemma GreedyIffEmbeds(values: seq<string>, ordered: seq<string>)
    ensures Greedy(values, ordered) <==> Embeds(values, ordered)
  {
    if Greedy(values, ordered) {
      var at := GreedySound(values, ordered);
    }
    if Embeds(values, ordered) {
      var at :| Embedding(values, ordered, at);
      GreedyComplete(values, ordered, at);
    }
  }

  lemma {:induction false} GreedySkips(values: seq<string>, ordered: seq<string>, lo: int, hi: int)
    requires values != [] && 0 <= lo <= hi <= |ordered|
    requires forall i :: lo <= i < hi ==> ordered[i] != values[0]
    ensures Greedy(values, ordered[lo..]) == Greedy(values, ordered[hi..])
    decreases hi - lo
  {
    if lo < hi {
      assert ordered[lo..][1..] == ordered[lo + 1..];
      GreedySkips(values, ordered, lo + 1, hi);
    }
  }

  /** The shared iterator: each value consumes the cursor up to and including its match. */
  method IsSubsequence(values: seq<string>, ordered: seq<string>) returns (found: bool)
    ensures found <==> Embeds(values, ordered)
  {
    GreedyIffEmbeds(values, ordered);
    var cursor := 0;
    assert values[0..] == values && ordered[0..] == ordered;
    for i := 0 to |values|
      invariant cursor <= |ordered|
      invariant Greedy(values, ordered) == Greedy(values[i..], ordered[cursor..])
    {
      var value := values[i];
      ghost var start := cursor;
      while cursor < |ordered| && ordered[cursor] != value
        invariant start <= cursor <= |ordered|
        invariant forall j :: start <= j < cursor ==> ordered[j] != value
      {
        cursor := cursor + 1;
      }
      GreedySkips(values[i..], ordered, start, cursor);
      if cursor == |ordered| {
        return false;
      }
      assert values[i..][1..] == values[i + 1..] && ordered[cursor..][1..] == ordered[cursor + 1..];
      cursor := cursor + 1;
    }
    found := true;
  }

  // queue_integrity

  predicate QueueIntegrity(ordered: seq<string>, executed: seq<string>, deferred: seq<string>, submitted: seq<string>) {
    && |ordered| == |Elements(ordered)| == |submitted|
    && Elements(ordered) == Elements(submitted)
    && Elements(executed) * Elements(deferred) == {}
    && Elements(executed) + Elements(deferred) == Elements(ordered)
    && Greedy(executed, ordered)
    && Greedy(deferred, ordered)
  }

  lemma {:induction false} ElementsCount(items: seq<string>)
    ensures |Elements(items)| <= |items|
    ensures |Elements(items)| == |items| <==> NoDuplicates(items)
  {
    if items != [] {
      var head, rest := items[0], items[1..];
      ElementsCount(rest);
      assert items == [head] + rest;
      assert Elements(items) == Elements(rest) + {head};
      if head in rest {
        assert Elements(items) == Elements(rest);
        var k :| 0 <= k < |rest| && rest[k] == head;
        assert items[k + 1] == items[0];
      } else {
        assert NoDuplicates(rest) ==> NoDuplicates(items);
      }
      assert NoDuplicates(items) ==> NoDuplicates(rest);
    }
  }

  function Keep(items: seq<string>, kept: set<string>): seq<string> {
    if items == [] then []
    else (if items[0] in kept then [items[0]] else []) + Keep(items[1..], kept)
  }

  lemma {:induction false} KeepMembers(items: seq<string>, kept: set<string>)
    ensures forall x :: x in Keep(items, kept) <==> x in items && x in kept
  {
    if items != [] {
      KeepMembers(items[1..], kept);
      assert items == [items[0]] + items[1..];
    }
  }

  lemma {:induction false} KeepIsGreedy(items: seq<string>, kept: set<string>)
    ensures Greedy(Keep(items, kept), items)
  {
    if items != [] {
      KeepIsGreedy(items[1..], kept);
      if items[0] !in kept {
        var values := Keep(items, kept);
        assert values == Keep(items[1..], kept);
        KeepMembers(items[1..], kept);
        if values != [] {
          assert values[0] in values;
        }
      }
    }
  }

  lemma {:induction false} KeepIgnores(items: seq<string>, kept: set<string>, x: string)
    requires x !in items
    ensures Keep(items, kept + {x}) == Keep(items, kept)
  {
    if items != [] {
      assert items == [items[0]] + items[1..];
      KeepIgnores(items[1..], kept, x);
    }
  }

  lemma {:induction false} GreedyMembers(values: seq<string>, items: seq<string>)
    requires Greedy(values, items)
    ensures forall x :: x in values ==> x in items
    decreases |items|
  {
    if values != [] {
      assert items == [items[0]] + items[1..] && values == [values[0]] + values[1..];
      GreedyMembers(if items[0] == values[0] then values[1..] else values, items[1..]);
    }
  }

  /** In a duplicate-free order a subsequence is determined by its members. */
  lemma {:induction false} SubsequenceIsKeep(values: seq<string>, items: seq<string>)
    requires NoDuplicates(items) && Greedy(values, items)
    ensures values == Keep(items, Elements(values))
    decreases |items|
  {
    if items != [] {
      var head, rest := items[0], items[1..];
      assert items == [head] + rest && head !in rest;
      if values != [] && values[0] == head {
        SubsequenceIsKeep(values[1..], rest);
        assert values == [head] + values[1..];
        assert Elements(values) == Elements(values[1..]) + {head};
        KeepIgnores(rest, Elements(values[1..]), head);
      } else {
        if values != [] {
          GreedyMembers(values, rest);
        }
        SubsequenceIsKeep(values, rest);
      }
    }
  }

  lemma SameMembersPermute(a: seq<string>, b: seq<string>)
    requires NoDuplicates(a) && NoDuplicates(b) && Elements(a) == Elements(b)
    ensures multiset(a) == multiset(b)
  {
    MultiplicityOne(a);
    MultiplicityOne(b);
    forall x
      ensures multiset(a)[x] == multiset(b)[x]
    {
      assert x in a <==> x in Elements(a);
      assert x in b <==> x in Elements(b);
      assert x in a <==> x in multiset(a);
      assert x in b <==> x in multiset(b);
    }
  }

  /** What the audit accepts: a duplicate-free permutation of the submission, cut into executed
      and deferred by one set of identifiers, each part in scheduled order. */
  lemma IntegrityMeans(ordered: seq<string>, executed: seq<string>, deferred: seq<string>, submitted: seq<string>)
    ensures QueueIntegrity(ordered, executed, deferred, submitted) <==>
      && NoDuplicates(ordered)
      && multiset(ordered) == multiset(submitted)
      && executed == Keep(ordered, Elements(ordered) - Elements(deferred))
      && deferred == Keep(ordered, Elements(deferred))
  {
    ElementsCount(ordered);
    ElementsCount(submitted);
    if QueueIntegrity(ordered, executed, deferred, submitted) {
      SameMembersPermute(ordered, submitted);
      SubsequenceIsKeep(executed, ordered);
      SubsequenceIsKeep(deferred, ordered);
      assert Elements(ordered) - Elements(deferred) == Elements(executed);
    }
    var late := Elements(deferred);
    if NoDuplicates(ordered) && multiset(ordered) == multiset(submitted)
       && executed == Keep(ordered, Elements(ordered) - late) && deferred == Keep(ordered, late) {
      PartsCertify(ordered, executed, deferred, submitted);
    }
  }

  lemma PartsCertify(ordered: seq<string>, executed: seq<string>, deferred: seq<string>, submitted: seq<string>)
    requires NoDuplicates(ordered) && multiset(ordered) == multiset(submitted)
    requires executed == Keep(ordered, Elements(ordered) - Elements(deferred))
    requires deferred == Keep(ordered, Elements(deferred))
    ensures QueueIntegrity(ordered, executed, deferred, submitted)
  {
    hide Greedy, Keep;
    ElementsCount(ordered);
    assert |multiset(ordered)| == |multiset(submitted)|;
    forall x
      ensures x in ordered <==> x in submitted
    {
      assert x in multiset(ordered) <==> x in multiset(submitted);
    }
    KeepMembers(ordered, Elements(ordered) - Elements(deferred));
    KeepMembers(ordered, Elements(deferred));
    KeepIsGreedy(ordered, Elements(ordered) - Elements(deferred));
    KeepIsGreedy(ordered, Elements(deferred));
    assert Elements(executed) == Elements(ordered) - Elements(deferred);
    assert Elements(deferred) <= Elements(ordered);
  }

  // Receipts of the engine

  lemma {:induction false} PrefixIsGreedy(front: seq<string>, back: seq<string>)
    ensures Greedy(front, front + back)
  {
    if front != [] {
      assert (front + back)[1..] == front[1..] + back;
      PrefixIsGreedy(front[1..], back);
    }
  }

  lemma SuffixIsGreedy(front: seq<string>, back: seq<string>)
    ensures Greedy(back, front + back)
  {
    var at: seq<nat> := seq(|back|, i requires 0 <= i < |back| => |front| + i);
    GreedyComplete(back, front + back, at);
  }

  lemma {:induction false} IdsPermute(a: seq<Event>, b: seq<Event>)
    requires multiset(a) == multiset(b)
    ensures multiset(Ids(a)) == multiset(Ids(b))
    decreases |a|
  {
    if a == [] {
      assert |multiset(b)| == |b|;
    } else {
      var front, last := a[..|a| - 1], a[|a| - 1];
      var before, after := CutOut(a, b);
      IdsPermute(front, before + after);
      assert Ids(a) == (Ids(front) + [last.id]) + [];
      assert Ids(b) == (Ids(before) + [last.id]) + Ids(after);
      assert Ids(before + after) == Ids(before) + Ids(after);
      Splice(Ids(front), last.id, []);
      Splice(Ids(before), last.id, Ids(after));
      assert Ids(front) + [] == Ids(front);
    }
  }

  /** Every receipt the engine produces from a queue with unique identifiers is certified. */
  lemma ReceiptsCertify(initial: State, events: seq<Event>)
    requires NoDuplicates(Ids(events)) && Reference(initial, events).Ok?
    ensures var receipt := Reference(initial, events).value.receipt;
      QueueIntegrity(receipt.ordered, receipt.executed, receipt.deferred, Ids(events))
  {
    var receipt := Reference(initial, events).value.receipt;
    ReceiptSplitsAtClock(initial, events);
    SortCorrect(events, EventKey);
    IdsPermute(events, ScheduleA(events));
    PartsOfDuplicateFree(receipt.ordered, receipt.executed, receipt.deferred, Ids(events));
  }

  lemma PartsOfDuplicateFree(ordered: seq<string>, executed: seq<string>, deferred: seq<string>, submitted: seq<string>)
    requires NoDuplicates(submitted) && multiset(ordered) == multiset(submitted)
    requires ordered == executed + deferred
    ensures QueueIntegrity(ordered, executed, deferred, submitted)
  {
    DuplicateFreePermutation(submitted, ordered);
    ElementsCount(ordered);
    assert |multiset(ordered)| == |multiset(submitted)|;
    forall x
      ensures x in ordered <==> x in submitted
    {
      assert x in multiset(ordered) <==> x in multiset(submitted);
    }
    PrefixIsGreedy(executed, deferred);
    SuffixIsGreedy(executed, deferred);
    forall x | x in executed
      ensures x !in deferred
    {
      var i :| 0 <= i < |executed| && executed[i] == x;
      forall j | 0 <= j < |deferred|
        ensures deferred[j] != x
      {
        assert ordered[i] != ordered[|executed| + j];
      }
    }
  }
}
