/** The optimiser on generated queues: every generated trial keeps its outcome and its final state. */
module GeneratedCompaction {
  import opened Ordering
  import opened Sorting
  import opened EventNet
  import opened Scheduling
  import opened Engine
  import opened Compaction
  import opened Generators
  import opened Counterfactuals

  predicate NonNegativeDelta(e: Event) {
    e.op.AdjustReservation? ==> e.value.Int? && e.value.n >= 0
  }

  /** No delta releases anything, and the sequence number names the event. */
  ghost predicate Accumulating(events: seq<Event>) {
    && (forall e :: e in events ==> NonNegativeDelta(e))
    && (forall x, y :: x in events && y in events && x.sequence == y.sequence ==> x == y)
    && NoDuplicates(events)
  }

  lemma AccumulatingTransfer(a: seq<Event>, b: seq<Event>)
    requires Accumulating(a) && multiset(a) == multiset(b)
    ensures Accumulating(b)
  {
    DuplicateFreePermutation(a, b);
    forall e | e in b
      ensures e in a
    {
      assert e in multiset(b) && e in multiset(a);
    }
  }

  lemma {:induction false} NonNegativeGroups(ordered: seq<Event>, clock: int)
    requires forall e :: e in ordered ==> NonNegativeDelta(e)
    ensures GroupsMergeable(ordered) && GroupsOfOneSign(ordered, clock)
    decreases |ordered|
  {
    if ordered != [] {
      var n := GroupSize(ordered);
      NonNegativeGroups(ordered[n..], clock);
      forall i | 0 <= i < n && n > 1
        ensures ordered[i].value.Int? && ordered[i].value.n >= 0
      {
        assert ordered[i] in ordered && Joins(ordered[0], ordered[i]);
      }
    }
  }

  ghost predicate CompactsExactly(t: Trial, batchId: BatchId) {
    Compactable(t.events) &&
    match (Reference(t.state, Compact(t.events, batchId)), Reference(t.state, t.events))
    case (Ok(r'), Ok(r)) => r'.outcome == r.outcome && r'.state == r.state
    case (Err(d), Err(e)) => d == e
    case _ => false
  }

  lemma AccumulatingCompactsExactly(t: Trial, batchId: BatchId)
    requires Accumulating(t.events) && t.state.resources.reserved >= 0
    ensures CompactsExactly(t, batchId)
  {
    hide Compact, Reference, GroupsSafe, GroupsOfOneSign;
    var clock := t.state.request.queryTime;
    SortMembers(t.events, EventKey);
    NonNegativeGroups(ScheduleA(t.events), clock);
    OneSignIsSafe(ScheduleA(t.events), clock);
    CompactionPreservesMeaning(t.state, t.events, batchId);
  }

  // Generated queues accumulate

  ghost predicate Ascending(events: seq<Event>, low: int, high: int) {
    && (forall i :: 0 <= i < |events| ==> low <= events[i].sequence < high && NonNegativeDelta(events[i]))
    && (forall i, j :: 0 <= i < j < |events| ==> events[i].sequence < events[j].sequence)
  }

  lemma AscendingAccumulates(events: seq<Event>, low: int, high: int)
    requires Ascending(events, low, high)
    ensures Accumulating(events)
  {
    forall x, y | x in events && y in events && x.sequence == y.sequence
      ensures x == y
    {
      var i :| 0 <= i < |events| && events[i] == x;
      var j :| 0 <= j < |events| && events[j] == y;
      assert i == j;
    }
  }

  lemma CommonAscend(s: State, ids: EventIds)
    requires s.workflow.requiredApprovals != []
    ensures Ascending(CommonEvents(s, ids), 0, 5)
  {
  }

  lemma FutureAscends(s: State, ids: EventIds, count: nat)
    requires s.workflow.requiredApprovals != [] && 1 <= count <= 3
    ensures Ascending(DecisionClockEvents(s, ids, count), 90, 93)
  {
  }

  ghost predicate ExtrasOf(m: Mechanism, s: State, ids: EventIds, timing: nat)
    requires s.workflow.requiredApprovals != [] && timing < 3
  {
    var x := PivotalExtras(m, s, ids, timing);
    Ascending(x.0, 10, 12) && Ascending(x.1, 10, 12)
  }

  lemma ExtrasAscend(m: Mechanism, s: State, ids: EventIds, timing: nat)
    requires s.workflow.requiredApprovals != [] && timing < 3 && s.resources.capacity >= 0
    ensures ExtrasOf(m, s, ids, timing)
  {
    hide ExtrasOf;
    match m
    case DelayedEvidence => SpecialExtrasAscend(m, s, ids, timing);
    case ApprovalWithdrawal => SpecialExtrasAscend(m, s, ids, timing);
    case ResourceContention => SpecialExtrasAscend(m, s, ids, timing);
    case PriorityRace => SpecialExtrasAscend(m, s, ids, timing);
    case UnresolvedAppeal => SpecialExtrasAscend(m, s, ids, timing);
    case _ => WrittenExtrasAscend(m, s, ids, timing);
  }

  lemma SpecialExtrasAscend(m: Mechanism, s: State, ids: EventIds, timing: nat)
    requires s.workflow.requiredApprovals != [] && timing < 3 && s.resources.capacity >= 0
    requires m in {DelayedEvidence, ApprovalWithdrawal, ResourceContention, PriorityRace, UnresolvedAppeal}
    ensures ExtrasOf(m, s, ids, timing)
  {
  }

  lemma WrittenExtrasAscend(m: Mechanism, s: State, ids: EventIds, timing: nat)
    requires s.workflow.requiredApprovals != [] && timing < 3
    requires m !in {DelayedEvidence, ApprovalWithdrawal, ResourceContention, PriorityRace, UnresolvedAppeal}
    ensures ExtrasOf(m, s, ids, timing)
  {
  }

  /** Any submission of common events, extras and late events, in any order. */
  lemma SubmissionAccumulates(s: State, ids: EventIds, x: seq<Event>, count: nat, events: seq<Event>)
    requires s.workflow.requiredApprovals != [] && 1 <= count <= 3 && Ascending(x, 10, 12)
    requires multiset(events) == multiset(CommonEvents(s, ids) + x + DecisionClockEvents(s, ids, count))
    ensures Accumulating(events)
  {
    hide CommonEvents, DecisionClockEvents;
    var c, future := CommonEvents(s, ids), DecisionClockEvents(s, ids, count);
    CommonAscend(s, ids);
    FutureAscends(s, ids, count);
    AscendingAccumulates(c + x + future, 0, 93);
    AccumulatingTransfer(c + x + future, events);
  }

  /** Compaction keeps outcome and final state of both trials of every pivotal pair. */
  lemma PivotalTrialsCompactExactly(m: Mechanism, s: State, ids: EventIds, count: nat, timing: nat, batchId: BatchId)
    requires s.workflow.requiredApprovals != [] && 1 <= count <= 3 && timing < 3
    requires s.resources.capacity >= 0 && s.resources.reserved >= 0
    ensures var trials := PivotalTrials(m, s, ids, count, timing);
      CompactsExactly(trials.0, batchId) && CompactsExactly(trials.1, batchId)
  {
    hide CommonEvents, DecisionClockEvents, PivotalExtras, Reverse, CompactsExactly, Accumulating, Ascending;
    var p := Prepared(m, s);
    var trials := PivotalTrials(m, s, ids, count, timing);
    var c, future := CommonEvents(p, ids), DecisionClockEvents(p, ids, count);
    var x := PivotalExtras(m, p, ids, timing);
    ExtrasAscend(m, p, ids, timing);
    ReversePermutes(c + x.0 + future);
    ReversePermutes(c + x.1 + future);
    SubmissionAccumulates(p, ids, x.0, count, trials.0.events);
    SubmissionAccumulates(p, ids, x.1, count, trials.1.events);
    AccumulatingCompactsExactly(trials.0, batchId);
    AccumulatingCompactsExactly(trials.1, batchId);
  }

  lemma OneExtraAscends(e: Event)
    requires e.sequence == 10 && NonNegativeDelta(e)
    ensures Ascending([e], 10, 12)
  {
  }

  /** And of every invariance pair. */
  lemma InvarianceTrialsCompactExactly(s: State, ids: EventIds, count: nat, renamed: string, batchId: BatchId)
    requires s.workflow.requiredApprovals != [] && 1 <= count <= 3 && s.resources.reserved >= 0
    ensures var trials := InvarianceTrials(s, ids, count, renamed);
      CompactsExactly(trials.0, batchId) && CompactsExactly(trials.1, batchId)
  {
    hide CommonEvents, DecisionClockEvents, Reverse, CompactsExactly, Accumulating, Ascending;
    var trials := InvarianceTrials(s, ids, count, renamed);
    var e := MakeEvent(ids, 10, Set(AuthorityScopeMatch), Bool(true), s.request.queryTime - 1, 20, s.actors.delegator.actorId);
    var base, future := CommonEvents(s, ids) + [e], DecisionClockEvents(s, ids, count);
    OneExtraAscends(e);
    ReversePermutes(base + future);
    ReorderedSubmission(base, future);
    SubmissionAccumulates(s, ids, [e], count, trials.0.events);
    SubmissionAccumulates(s, ids, [e], count, trials.1.events);
    AccumulatingCompactsExactly(trials.0, batchId);
    AccumulatingCompactsExactly(trials.1, batchId);
  }

  /** And of every contextual pair. */
  lemma ContextualTrialsCompactExactly(s: State, ids: EventIds, count: nat, batchId: BatchId)
    requires s.workflow.requiredApprovals != [] && 1 <= count <= 3 && s.resources.reserved >= 0
    ensures var trials := ContextualTrials(s, ids, count);
      CompactsExactly(trials.0, batchId) && CompactsExactly(trials.1, batchId)
  {
    hide CommonEvents, DecisionClockEvents, Reverse, CompactsExactly, Accumulating, Ascending;
    var malformed := s.(request := s.request.(wellFormed := false));
    var trials := ContextualTrials(s, ids, count);
    var c, future := CommonEvents(malformed, ids), DecisionClockEvents(malformed, ids, count);
    var now, requester := s.request.queryTime, s.actors.requester.actorId;
    var d := MakeEvent(ids, 10, AdjustReservation, Int(0), now - 1, 20, requester);
    var e := MakeEvent(ids, 10, AdjustReservation, Int(5), now - 1, 20, requester);
    OneExtraAscends(d);
    OneExtraAscends(e);
    ReversePermutes(c + [d] + future);
    ReversePermutes(c + [e] + future);
    SubmissionAccumulates(malformed, ids, [d], count, trials.0.events);
    SubmissionAccumulates(malformed, ids, [e], count, trials.1.events);
    AccumulatingCompactsExactly(trials.0, batchId);
    AccumulatingCompactsExactly(trials.1, batchId);
  }

  // Which generated queues the optimiser changes at all

  lemma NothingMerges(events: seq<Event>, batchId: BatchId)
    requires NoDuplicates(events) && forall d, e :: d in events && e in events && d != e ==> !Merging(d, e)
    ensures Compactable(events) && Compact(events, batchId) == ScheduleA(events)
  {
    var ordered := ScheduleA(events);
    SortCorrect(events, EventKey);
    SortMembers(events, EventKey);
    DuplicateFreePermutation(events, ordered);
    forall k | 0 <= k < |ordered| - 1
      ensures !Merging(ordered[k], ordered[k + 1])
    {
      assert ordered[k] in ordered && ordered[k + 1] in ordered && ordered[k] != ordered[k + 1];
    }
    NothingToMerge(ordered, batchId);
  }

  /** The common and the late events hold one reservation, two ticks before the clock. */
  lemma SoleReservation(s: State, ids: EventIds, count: nat)
    requires s.workflow.requiredApprovals != [] && 1 <= count <= 3
    ensures forall e :: e in CommonEvents(s, ids) && e.op.AdjustReservation? ==>
      e == CommonEvents(s, ids)[4] && e.time == s.request.queryTime - 2
    ensures forall e :: e in DecisionClockEvents(s, ids, count) ==> !e.op.AdjustReservation?
  {
  }

  lemma SubmissionPassesThrough(s: State, ids: EventIds, x: seq<Event>, count: nat, events: seq<Event>, batchId: BatchId)
    requires s.workflow.requiredApprovals != [] && 1 <= count <= 3 && Ascending(x, 10, 12)
    requires multiset(events) == multiset(CommonEvents(s, ids) + x + DecisionClockEvents(s, ids, count))
    requires forall d, e :: d in x && e in x && d.op.AdjustReservation? && e.op.AdjustReservation? ==> d == e
    requires forall d :: d in x && d.op.AdjustReservation? ==> d.time != s.request.queryTime - 2
    ensures Compactable(events) && Compact(events, batchId) == ScheduleA(events)
  {
    hide CommonEvents, DecisionClockEvents, Ascending, Compactable, Compact;
    var c, future := CommonEvents(s, ids), DecisionClockEvents(s, ids, count);
    SubmissionAccumulates(s, ids, x, count, events);
    SoleReservation(s, ids, count);
    forall d, e | d in events && e in events && d != e
      ensures !Merging(d, e)
    {
      assert d in multiset(events) && e in multiset(events);
      assert d in c + x + future && e in c + x + future;
    }
    NothingMerges(events, batchId);
  }

  lemma ExtrasWithoutReservation(m: Mechanism, s: State, ids: EventIds, timing: nat)
    requires s.workflow.requiredApprovals != [] && timing < 3 && !m.ResourceContention?
    ensures forall e :: e in PivotalExtras(m, s, ids, timing).0 ==> !e.op.AdjustReservation?
    ensures forall e :: e in PivotalExtras(m, s, ids, timing).1 ==> !e.op.AdjustReservation?
  {
  }

  /** RESOURCE_CONTENTION is the only mechanism whose queues the optimiser changes. */
  lemma OtherTrialsPassThrough(m: Mechanism, s: State, ids: EventIds, count: nat, timing: nat, batchId: BatchId)
    requires s.workflow.requiredApprovals != [] && 1 <= count <= 3 && timing < 3
    requires s.resources.capacity >= 0 && !m.ResourceContention?
    ensures var (b, c) := PivotalTrials(m, s, ids, count, timing);
      && Compactable(b.events) && Compact(b.events, batchId) == ScheduleA(b.events)
      && Compactable(c.events) && Compact(c.events, batchId) == ScheduleA(c.events)
  {
    hide CommonEvents, DecisionClockEvents, PivotalExtras, Reverse, Ascending;
    var p := Prepared(m, s);
    var c, future := CommonEvents(p, ids), DecisionClockEvents(p, ids, count);
    var x := PivotalExtras(m, p, ids, timing);
    var trials := PivotalTrials(m, s, ids, count, timing);
    ExtrasAscend(m, p, ids, timing);
    ExtrasWithoutReservation(m, p, ids, timing);
    ReversePermutes(c + x.0 + future);
    ReversePermutes(c + x.1 + future);
    SubmissionPassesThrough(p, ids, x.0, count, trials.0.events, batchId);
    SubmissionPassesThrough(p, ids, x.1, count, trials.1.events, batchId);
  }

  lemma FutureInOrder(s: State, ids: EventIds, count: nat)
    requires s.workflow.requiredApprovals != [] && 1 <= count <= 3
    ensures StrictlySortedBy(DecisionClockEvents(s, ids, count), Tick)
  {
    var future := DecisionClockEvents(s, ids, count);
    forall i, j | 0 <= i < j < |future|
      ensures Less(Tick(future[i]), Tick(future[j]))
    {
      TickOrder(future[i], future[j]);
    }
  }

  lemma JoinInOrder(a: seq<Event>, b: seq<Event>, time: int)
    requires StrictlySortedBy(a, Tick) && StrictlySortedBy(b, Tick)
    requires (forall e :: e in a ==> e.time < time) && (forall e :: e in b ==> e.time >= time)
    ensures StrictlySortedBy(a + b, Tick)
  {
    forall i, j | 0 <= i < j < |a + b|
      ensures Less(Tick((a + b)[i]), Tick((a + b)[j]))
    {
      if i < |a| <= j {
        assert a[i] in a && b[j - |a|] in b;
        TickOrder(a[i], b[j - |a|]);
      }
    }
  }

  /** The schedule of a contended trial: the two reservations stand together, in tick order. */
  lemma ContentionSchedule(s: State, ids: EventIds, x: seq<Event>, count: nat, d: int, e: int)
    requires s.workflow.requiredApprovals != [] && 1 <= count <= 3 && TwoDeltas(x, s, d, e)
    ensures var q := CommonEvents(s, ids) + x + DecisionClockEvents(s, ids, count); ScheduleA(Reverse(q)) == q
  {
    var c, future := CommonEvents(s, ids), DecisionClockEvents(s, ids, count);
    hide CommonEvents, DecisionClockEvents, Reverse;
    var q, now := c + x + future, s.request.queryTime;
    CommonIsEarly(s, ids);
    FutureInOrder(s, ids, count);
    FutureIsLate(s, ids, count);
    assert x == [x[0], x[1]];
    JoinInOrder(c, x, now - 1);
    JoinInOrder(c + x, future, now);
    ReversePermutes(q);
    StrictTicksAreCanonical(q);
    StrictIsSorted(q, EventKey);
    SortIs(Reverse(q), q, EventKey);
  }

  lemma ContentionNeighbours(s: State, ids: EventIds, x: seq<Event>, count: nat, d: int, e: int)
    requires s.workflow.requiredApprovals != [] && 1 <= count <= 3 && TwoDeltas(x, s, d, e)
    requires x[0].target == x[1].target && x[0].priority == x[1].priority
    ensures var q := CommonEvents(s, ids) + x + DecisionClockEvents(s, ids, count);
      forall k :: 0 <= k < |q| - 1 ==> (Merging(q[k], q[k + 1]) <==> k == 5)
  {
    hide CommonEvents, DecisionClockEvents;
    var c, future := CommonEvents(s, ids), DecisionClockEvents(s, ids, count);
    var q := c + x + future;
    SoleReservation(s, ids, count);
    CommonIsEarly(s, ids);
    forall k | 0 <= k < |q| - 1
      ensures Merging(q[k], q[k + 1]) <==> k == 5
    {
      if k < 5 {
        assert q[k] == c[k] && c[k] in c && (k < 4 ==> c[k + 1] in c && q[k + 1] == c[k + 1]);
        if k < 4 {
          LessIrreflexive(Tick(c[k]));
          assert Less(Tick(c[k]), Tick(c[k + 1]));
        }
      } else if k > 5 {
        assert q[k + 1] == future[k - 6] && future[k - 6] in future;
      } else {
        assert q[k] == x[0] && q[k + 1] == x[1];
      }
    }
  }

  /** The optimised queue is the schedule with its sixth and seventh event replaced by one, which
      reserves the given total. */
  ghost predicate MergesContention(t: Trial, total: int, s: State, batchId: BatchId) {
    var q := ScheduleA(t.events);
    && Compactable(t.events) && |q| >= 7
    && q[5].time == q[6].time == s.request.queryTime - 1 && q[5].priority == q[6].priority == 20
    && q[5].actor == s.actors.requester.actorId && q[6].actor == s.actors.approver.actorId
    && Compact(t.events, batchId)
       == q[..5] + [q[5].(id := batchId([q[5].id, q[6].id]), value := Int(total))] + q[7..]
  }

  lemma ContentionMerges(s: State, ids: EventIds, x: seq<Event>, count: nat, d: int, e: int, batchId: BatchId)
    requires s.workflow.requiredApprovals != [] && 1 <= count <= 3 && TwoDeltas(x, s, d, e)
    requires x[0].target == x[1].target && x[0].priority == x[1].priority == 20
    requires x[0].actor == s.actors.requester.actorId && x[1].actor == s.actors.approver.actorId
    ensures var events := Reverse(CommonEvents(s, ids) + x + DecisionClockEvents(s, ids, count));
      MergesContention(Trial(s, events), d + e, s, batchId)
  {
    hide CommonEvents, DecisionClockEvents, Reverse, GroupsMergeable, CompactOrdered, Merging;
    var c, future := CommonEvents(s, ids), DecisionClockEvents(s, ids, count);
    var q := c + x + future;
    ContentionSchedule(s, ids, x, count, d, e);
    ContentionNeighbours(s, ids, x, count, d, e);
    assert q[5] == x[0] && q[6] == x[1];
    OnePairMerges(q, 5, batchId);
  }

  /** RESOURCE_CONTENTION: in each of its two queues the optimiser merges the two reservations made
      just before the clock, by different actors, and nothing else; the merged event of the
      intervention reserves the whole capacity, that of the base run nothing. */
  lemma ContentionMergesOnce(s: State, ids: EventIds, count: nat, timing: nat, batchId: BatchId)
    requires s.workflow.requiredApprovals != [] && 1 <= count <= 3 && timing < 3
    ensures var (b, c) := PivotalTrials(ResourceContention, s, ids, count, timing);
      MergesContention(b, 0, s, batchId) && MergesContention(c, s.resources.capacity, s, batchId)
  {
    hide CommonEvents, DecisionClockEvents, Reverse, MergesContention;
    var x, half := PivotalExtras(ResourceContention, s, ids, timing), s.resources.capacity / 2;
    ContentionExtras(s, ids, timing);
    ContentionMerges(s, ids, x.0, count, 0, 0, batchId);
    ContentionMerges(s, ids, x.1, count, half, s.resources.capacity - half, batchId);
  }
}
