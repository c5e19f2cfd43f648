/** Merging adjacent reservation deltas, and when that keeps the meaning of a queue. */
module Compaction {
  import opened Ordering
  import opened Sorting
  import opened EventNet
  import opened Scheduling
  import opened Transition
  import opened Evaluation
  import opened Engine
  import opened ClosedForm

  // The law of the clamped counter

  function Sum(ds: seq<int>): int {
    if ds == [] then 0 else Sum(ds[..|ds| - 1]) + ds[|ds| - 1]
  }

  /** The largest sum of a suffix that starts after position k for some k >= 1, counting the
      empty suffix as 0. */
  ghost predicate IsLargestProperSuffix(ds: seq<int>, m: int) {
    && (exists k :: 1 <= k <= |ds| && Sum(ds[k..]) == m)
    && (forall k :: 1 <= k <= |ds| ==> Sum(ds[k..]) <= m)
  }

  lemma {:induction false} SumSnoc(ds: seq<int>, k: nat, d: int)
    requires k <= |ds|
    ensures Sum((ds + [d])[k..]) == Sum(ds[k..]) + d
  {
    assert (ds + [d])[k..][..|ds| - k] == ds[k..];
  }

  /** Folding max(0, r + d) over a non-empty group: the larger of the unclamped total and the
      largest suffix sum after a clamp. */
  lemma {:induction false} ClampLaw(r: int, ds: seq<int>) returns (m: int)
    requires ds != []
    ensures IsLargestProperSuffix(ds, m)
    ensures ClampFold(r, ds) == if r + Sum(ds) < m then m else r + Sum(ds)
  {
    var n := |ds| - 1;
    var front, d := ds[..n], ds[n];
    assert ds == front + [d];
    assert Sum(ds[n + 1..]) == 0;
    if n == 0 {
      m := 0;
      assert Sum(front) == 0 && ClampFold(r, front) == r;
    } else {
      var m' := ClampLaw(r, front);
      var j :| 1 <= j <= |front| && Sum(front[j..]) == m';
      m := if m' + d < 0 then 0 else m' + d;
      SumSnoc(front, j, d);
      forall k | 1 <= k <= |ds|
        ensures Sum(ds[k..]) <= m
      {
        if k <= n {
          SumSnoc(front, k, d);
        }
      }
    }
  }

  /** The clamped result is never below the merged one. */
  lemma MergeNeverExceeds(r: int, ds: seq<int>)
    requires ds != []
    ensures Reserve(r, Sum(ds)) <= ClampFold(r, ds)
  {
    var m := ClampLaw(r, ds);
    assert Sum(ds[|ds|..]) == 0;
  }

  /** Every suffix that can follow a clamp sums to at most the merged result. */
  ghost predicate MergeSafe(r: int, ds: seq<int>) {
    forall k :: 1 <= k <= |ds| ==> Sum(ds[k..]) <= Reserve(r, Sum(ds))
  }

  /** Merging a group is exact for a given reservation in exactly the safe cases. */
  lemma MergeExactIff(r: int, ds: seq<int>)
    requires ds != []
    ensures ClampFold(r, ds) == Reserve(r, Sum(ds)) <==> MergeSafe(r, ds)
  {
    var m := ClampLaw(r, ds);
    assert Sum(ds[|ds|..]) == 0;
  }

  /** Merging is exact for every non-negative reservation exactly when it is exact for none held. */
  lemma MergeExactFromZero(ds: seq<int>)
    requires ds != []
    ensures (forall r :: r >= 0 ==> ClampFold(r, ds) == Reserve(r, Sum(ds))) <==> MergeSafe(0, ds)
  {
    if MergeSafe(0, ds) {
      forall r | r >= 0
        ensures ClampFold(r, ds) == Reserve(r, Sum(ds))
      {
        MergeExactIff(r, ds);
      }
    } else {
      MergeExactIff(0, ds);
    }
  }

  lemma {:induction false} ClampFoldMonotone(r: int, r': int, ds: seq<int>)
    requires r <= r'
    ensures ClampFold(r, ds) <= ClampFold(r', ds)
  {
    if ds != [] {
      ClampFoldMonotone(r, r', ds[..|ds| - 1]);
    }
  }

  ghost predicate NonNegative(ds: seq<int>) {
    forall i :: 0 <= i < |ds| ==> ds[i] >= 0
  }

  ghost predicate NonPositive(ds: seq<int>) {
    forall i :: 0 <= i < |ds| ==> ds[i] <= 0
  }

  lemma {:induction false} SumSign(ds: seq<int>)
    ensures NonNegative(ds) ==> Sum(ds) >= 0
    ensures NonPositive(ds) ==> Sum(ds) <= 0
  {
    if ds != [] {
      SumSign(ds[..|ds| - 1]);
    }
  }

  lemma {:induction false} SumSplit(a: seq<int>, b: seq<int>)
    ensures Sum(a + b) == Sum(a) + Sum(b)
  {
    if b == [] {
      assert a + b == a;
    } else {
      var n := |b| - 1;
      SumSplit(a, b[..n]);
      assert (a + b)[..|a + b| - 1] == a + b[..n];
    }
  }

  /** Deltas of one sign merge exactly whatever is already reserved. */
  lemma SameSignIsSafe(r: int, ds: seq<int>)
    requires r >= 0 && (NonNegative(ds) || NonPositive(ds))
    ensures MergeSafe(r, ds)
  {
    forall k | 1 <= k <= |ds|
      ensures Sum(ds[k..]) <= Reserve(r, Sum(ds))
    {
      SumSplit(ds[..k], ds[k..]);
      assert ds == ds[..k] + ds[k..];
      SumSign(ds[..k]);
      SumSign(ds[k..]);
      SumSign(ds);
    }
  }

  // The optimiser

  type BatchId = seq<string> -> string

  /** candidate joins the group that event starts. */
  predicate Joins(event: Event, candidate: Event) {
    && candidate.op == event.op && candidate.target == event.target
    && candidate.time == event.time && candidate.priority == event.priority
  }

  /** How many events the head of the queue stands for: a maximal run of joining deltas, or one. */
  function GroupSize(events: seq<Event>): (n: nat)
    requires events != []
    ensures 1 <= n <= |events|
    ensures forall i :: 0 <= i < n ==>
      && events[i].op == events[0].op && events[i].target == events[0].target
      && events[i].time == events[0].time && events[i].priority == events[0].priority
    ensures n < |events| && events[0].op.AdjustReservation? ==>
      || events[n].op != events[0].op || events[n].target != events[0].target
      || events[n].time != events[0].time || events[n].priority != events[0].priority
    ensures !events[0].op.AdjustReservation? ==> n == 1
  {
    if events[0].op.AdjustReservation? then 1 + RunLength(events[0], events[1..]) else 1
  }

  function RunLength(event: Event, rest: seq<Event>): (n: nat)
    ensures n <= |rest|
    ensures forall i :: 0 <= i < n ==> Joins(event, rest[i])
    ensures n < |rest| ==> !Joins(event, rest[n])
  {
    if rest == [] || !Joins(event, rest[0]) then 0 else 1 + RunLength(event, rest[1..])
  }

  function ValuesOf(group: seq<Event>): (ds: seq<int>)
    requires forall e :: e in group ==> e.value.Int?
    ensures |ds| == |group| && forall i :: 0 <= i < |ds| ==> ds[i] == group[i].value.n
  {
    seq(|group|, i requires 0 <= i < |group| => group[i].value.n)
  }

  predicate Mergeable(group: seq<Event>) {
    group != [] && (|group| > 1 ==> forall e :: e in group ==> e.value.Int?)
  }

  function Merge(group: seq<Event>, batchId: BatchId): Event
    requires Mergeable(group)
  {
    if |group| == 1 then group[0]
    else group[0].(id := batchId(Ids(group)), value := Int(Sum(ValuesOf(group))))
  }

  /** Every group of two or more holds integers; a lone event is passed through whatever it holds. */
  predicate GroupsMergeable(ordered: seq<Event>) {
    ordered == [] || (Mergeable(ordered[..GroupSize(ordered)]) && GroupsMergeable(ordered[GroupSize(ordered)..]))
  }

  predicate Compactable(events: seq<Event>) {
    GroupsMergeable(ScheduleA(events))
  }

  /** The optimiser on a queue that is already in order. */
  function CompactOrdered(ordered: seq<Event>, batchId: BatchId): seq<Event>
    requires GroupsMergeable(ordered)
  {
    if ordered == [] then []
    else
      var n := GroupSize(ordered);
      [Merge(ordered[..n], batchId)] + CompactOrdered(ordered[n..], batchId)
  }

  function Compact(events: seq<Event>, batchId: BatchId): seq<Event>
    requires Compactable(events)
  {
    SortMembers(events, EventKey);
    CompactOrdered(ScheduleA(events), batchId)
  }

  /** The inner cursor loop: collects the group that starts at index. */
  method CollectGroup(ordered: seq<Event>, index: nat) returns (group: seq<Event>, cursor: nat)
    requires index < |ordered| && ordered[index].op.AdjustReservation?
    ensures cursor == index + GroupSize(ordered[index..])
    ensures group == ordered[index..cursor]
  {
    var event := ordered[index];
    group := [event];
    cursor := index + 1;
    while cursor < |ordered| && Joins(event, ordered[cursor])
      invariant index < cursor <= |ordered|
      invariant group == ordered[index..cursor]
      invariant forall i :: index <= i < cursor ==> Joins(event, ordered[i])
    {
      group := group + [ordered[cursor]];
      cursor := cursor + 1;
    }
    ghost var rest := ordered[index..];
    assert forall i :: 0 <= i < cursor - index ==> rest[i] == ordered[index + i];
    assert cursor < |ordered| ==> rest[cursor - index] == ordered[cursor];
  }

  lemma CompactHead(rest: seq<Event>, done: seq<Event>, batchId: BatchId)
    requires rest != []
    ensures var n := GroupSize(rest);
      && (GroupsMergeable(rest) <==> Mergeable(rest[..n]) && GroupsMergeable(rest[n..]))
      && (GroupsMergeable(rest) ==>
            done + CompactOrdered(rest, batchId)
            == (done + [Merge(rest[..n], batchId)]) + CompactOrdered(rest[n..], batchId))
  {
  }

  lemma CompactPlain(rest: seq<Event>, done: seq<Event>, batchId: BatchId)
    requires rest != [] && !rest[0].op.AdjustReservation?
    ensures GroupsMergeable(rest) <==> GroupsMergeable(rest[1..])
    ensures GroupsMergeable(rest) ==>
      done + CompactOrdered(rest, batchId) == (done + [rest[0]]) + CompactOrdered(rest[1..], batchId)
  {
    CompactHead(rest, done, batchId);
    assert rest[..1] == [rest[0]];
  }

  lemma CompactNothing(done: seq<Event>, batchId: BatchId)
    ensures GroupsMergeable([]) && done + CompactOrdered([], batchId) == done
  {
  }

  /** One merged event; the sum raises at the first value that is not an integer. */
  method MergeGroup(group: seq<Event>, batchId: BatchId) returns (r: Result<Event>)
    requires group != []
    ensures r.Ok? <==> Mergeable(group)
    ensures r.Ok? ==> r.value == Merge(group, batchId)
    ensures r.Err? ==> exists e :: e in group && !e.value.Int? && r.error == IllTyped(e.value)
  {
    if |group| == 1 {
      return Ok(group[0]);
    }
    var total := 0;
    for i := 0 to |group|
      invariant forall e :: e in group[..i] ==> e.value.Int?
      invariant total == Sum(ValuesOf(group[..i]))
    {
      var e := group[i];
      assert group[..i + 1] == group[..i] + [e];
      if !e.value.Int? {
        assert e in group;
        return Err(IllTyped(e.value));
      }
      assert ValuesOf(group[..i + 1])[..i] == ValuesOf(group[..i]);
      total := total + e.value.n;
    }
    assert group[..|group|] == group;
    r := Ok(group[0].(id := batchId(Ids(group)), value := Int(total)));
  }

  /** The index-and-cursor loops of the optimiser. */
  method CompactCommutativeEvents(events: seq<Event>, batchId: BatchId) returns (r: Result<seq<Event>>)
    ensures r.Ok? <==> Compactable(events)
    ensures r.Ok? ==> r.value == Compact(events, batchId)
    ensures r.Err? ==> exists e :: e in events && !e.value.Int? && r.error == IllTyped(e.value)
  {
    hide Merge, Mergeable, GroupSize, Joins, CompactOrdered, GroupsMergeable, Sort;
    SortMembers(events, EventKey);
    var ordered := ScheduleA(events);
    var compacted := [];
    var index := 0;
    assert ordered[index..] == ordered;
    while index < |ordered|
      invariant 0 <= index <= |ordered|
      invariant GroupsMergeable(ordered) <==> GroupsMergeable(ordered[index..])
      invariant GroupsMergeable(ordered) ==>
        compacted + CompactOrdered(ordered[index..], batchId) == CompactOrdered(ordered, batchId)
    {
      var event := ordered[index];
      ghost var rest := ordered[index..];
      assert rest[1..] == ordered[index + 1..];
      if !event.op.AdjustReservation? {
        CompactPlain(rest, compacted, batchId);
        compacted := compacted + [event];
        index := index + 1;
        continue;
      }
      CompactHead(rest, compacted, batchId);
      var group, cursor := CollectGroup(ordered, index);
      assert rest[..cursor - index] == group && rest[cursor - index..] == ordered[cursor..];
      var merged := MergeGroup(group, batchId);
      if merged.Err? {
        assert forall e :: e in group ==> e in events;
        return Err(merged.error);
      }
      compacted := compacted + [merged.value];
      index := cursor;
    }
    assert ordered[index..] == [];
    CompactNothing(compacted, batchId);
    r := Ok(compacted);
  }

  // Meaning

  function WithReserved(s: State, reserved: int): State {
    s.(resources := s.resources.(reserved := reserved))
  }

  /** t' is t, except that it may hold a smaller reservation. */
  ghost predicate Relaxes(t': State, t: State) {
    t' == WithReserved(t, t'.resources.reserved) && t'.resources.reserved <= t.resources.reserved
  }

  ghost predicate RelaxesResult(r': Result<State>, r: Result<State>) {
    match (r', r)
    case (Ok(t'), Ok(t)) => Relaxes(t', t)
    case (Err(e'), Err(e)) => e' == e
    case _ => false
  }

  lemma StepRelaxes(s': State, s: State, e: Event)
    requires Relaxes(s', s)
    ensures RelaxesResult(TransitionA(s', e), TransitionA(s, e))
  {
    if e.op.Set? {
      var f := FieldAt(e.target);
      if f.Some? && Fits(f.value, e.value) {
        WriteKeepsFrame(s, f.value, e.value);
      }
    }
  }

  lemma StepKeepsReservationNonNegative(s: State, e: Event)
    requires s.resources.reserved >= 0 && TransitionA(s, e).Ok?
    ensures TransitionA(s, e).value.resources.reserved >= 0
  {
    if e.op.Set? {
      WriteKeepsFrame(s, FieldAt(e.target).value, e.value);
    }
  }

  ghost predicate DeltaGroup(group: seq<Event>) {
    forall e :: e in group ==> e.op.AdjustReservation? && e.value.Int?
  }

  lemma ExecNothing(s: State)
    ensures Exec(s, []) == Ok(s) && WithReserved(s, s.resources.reserved) == s
  {
  }

  lemma DeltaStep(s: State, r: int, e: Event)
    requires e.op.AdjustReservation? && e.value.Int?
    ensures Exec(WithReserved(s, r), [e]) == Ok(WithReserved(s, Reserve(r, e.value.n)))
  {
    ExecOne(WithReserved(s, r), e);
  }

  /** A group of deltas folds its values into the reservation and does nothing else. */
  lemma {:induction false} GroupExec(s: State, group: seq<Event>)
    requires DeltaGroup(group)
    ensures Exec(s, group) == Ok(WithReserved(s, ClampFold(s.resources.reserved, ValuesOf(group))))
  {
    hide Exec, WithReserved, Reserve;
    if group == [] {
      ExecNothing(s);
    } else {
      var n := |group| - 1;
      var front, e := group[..n], group[n];
      assert e in group;
      GroupExec(s, front);
      assert group == front + [e];
      ExecConcat(s, front, [e]);
      DeltaStep(s, ClampFold(s.resources.reserved, ValuesOf(front)), e);
      assert ValuesOf(group)[..n] == ValuesOf(front);
    }
  }

  lemma MergedExec(s: State, group: seq<Event>, batchId: BatchId)
    requires DeltaGroup(group) && group != []
    ensures Exec(s, [Merge(group, batchId)]) == Ok(WithReserved(s, Reserve(s.resources.reserved, Sum(ValuesOf(group)))))
  {
    ExecOne(s, Merge(group, batchId));
    if |group| == 1 {
      assert group[0] in group;
      assert ValuesOf(group) == [group[0].value.n];
    } else {
      assert group[0] in group;
    }
  }

  /** Every executed group may be merged even when nothing is reserved: a check on the queue
      alone. */
  ghost predicate GroupsSafe(ordered: seq<Event>, clock: int)
    requires GroupsMergeable(ordered)
  {
    ordered == [] ||
    (var n := GroupSize(ordered);
     (n > 1 && ordered[0].time <= clock ==> MergeSafe(0, ValuesOf(ordered[..n])))
     && GroupsSafe(ordered[n..], clock))
  }

  ghost predicate Simultaneous(group: seq<Event>, time: int) {
    forall e :: e in group ==> e.time == time
  }

  lemma DueHead(group: seq<Event>, rest: seq<Event>, time: int, clock: int)
    requires Simultaneous(group, time)
    ensures Due(group + rest, clock) == (if time <= clock then group else []) + Due(rest, clock)
  {
    DueConcat(group, rest, clock);
    if time <= clock {
      NoneLate(group, clock);
    } else {
      AllLate(group, clock);
    }
  }

  /** The head group against its merged event, from a state that may already be relaxed. */
  lemma HeadRelaxes(s': State, s: State, ordered: seq<Event>, batchId: BatchId)
    requires Relaxes(s', s) && ordered != [] && GroupsMergeable(ordered)
    ensures var g := ordered[..GroupSize(ordered)];
      && Mergeable(g)
      && RelaxesResult(Exec(s', [Merge(g, batchId)]), Exec(s, g))
      && (s == s' && s.resources.reserved >= 0 && (|g| > 1 ==> MergeSafe(0, ValuesOf(g)))
          ==> Exec(s', [Merge(g, batchId)]) == Exec(s, g))
      && (s.resources.reserved >= 0 && Exec(s, g).Ok? ==> Exec(s, g).value.resources.reserved >= 0)
  {
    var n := GroupSize(ordered);
    var g := ordered[..n];
    if n == 1 {
      assert g == [ordered[0]];
      ExecOne(s, ordered[0]);
      ExecOne(s', ordered[0]);
      StepRelaxes(s', s, ordered[0]);
      if s.resources.reserved >= 0 && TransitionA(s, ordered[0]).Ok? {
        StepKeepsReservationNonNegative(s, ordered[0]);
      }
    } else {
      forall e | e in g
        ensures e.op.AdjustReservation?
      {
        var i :| 0 <= i < n && ordered[i] == e;
        assert Joins(ordered[0], ordered[i]);
      }
      GroupExec(s, g);
      MergedExec(s', g, batchId);
      var ds, r, r' := ValuesOf(g), s.resources.reserved, s'.resources.reserved;
      MergeNeverExceeds(r', ds);
      ClampFoldMonotone(r', r, ds);
      MergeExactFromZero(ds);
    }
  }

  lemma CompactUnfolds(ordered: seq<Event>, batchId: BatchId)
    returns (g: seq<Event>, rest: seq<Event>, m: Event, out: seq<Event>)
    requires ordered != [] && GroupsMergeable(ordered)
    ensures g == ordered[..GroupSize(ordered)] && rest == ordered[GroupSize(ordered)..]
    ensures ordered == g + rest && |rest| < |ordered| && GroupsMergeable(rest)
    ensures Mergeable(g) && m == Merge(g, batchId) && m.time == ordered[0].time
    ensures out == CompactOrdered(rest, batchId) && CompactOrdered(ordered, batchId) == [m] + out
  {
    g, rest := ordered[..GroupSize(ordered)], ordered[GroupSize(ordered)..];
    m, out := Merge(g, batchId), CompactOrdered(rest, batchId);
  }

  lemma RelaxThenRest(s': State, s: State, a': seq<Event>, a: seq<Event>, b': seq<Event>, b: seq<Event>)
    requires RelaxesResult(Exec(s', a'), Exec(s, a))
    requires Exec(s, a).Ok? ==> RelaxesResult(Exec(Exec(s', a').value, b'), Exec(Exec(s, a).value, b))
    ensures RelaxesResult(Exec(s', a' + b'), Exec(s, a + b))
  {
    ExecConcat(s', a', b');
    ExecConcat(s, a, b);
  }

  /** Running what the optimiser emits never holds more than running what it was given. */
  lemma {:induction false} CompactRelaxes(s': State, s: State, ordered: seq<Event>, batchId: BatchId, clock: int)
    requires Relaxes(s', s) && GroupsMergeable(ordered)
    ensures RelaxesResult(Exec(s', Due(CompactOrdered(ordered, batchId), clock)), Exec(s, Due(ordered, clock)))
    decreases |ordered|
  {
    if ordered == [] {
    } else {
      var g, rest, m, out := CompactUnfolds(ordered, batchId);
      var time := ordered[0].time;
      DueHead(g, rest, time, clock);
      DueHead([m], out, time, clock);
      if time <= clock {
        HeadRelaxes(s', s, ordered, batchId);
        if Exec(s, g).Ok? {
          CompactRelaxes(Exec(s', [m]).value, Exec(s, g).value, rest, batchId, clock);
        }
        RelaxThenRest(s', s, [m], g, Due(out, clock), Due(rest, clock));
      } else {
        CompactRelaxes(s', s, rest, batchId, clock);
        assert [] + Due(rest, clock) == Due(rest, clock) && [] + Due(out, clock) == Due(out, clock);
      }
    }
  }

  /** With safe groups it ends in the very same state. */
  lemma {:induction false} CompactIsExact(s: State, ordered: seq<Event>, batchId: BatchId, clock: int)
    requires GroupsMergeable(ordered) && s.resources.reserved >= 0 && GroupsSafe(ordered, clock)
    ensures Exec(s, Due(CompactOrdered(ordered, batchId), clock)) == Exec(s, Due(ordered, clock))
    decreases |ordered|
  {
    if ordered == [] {
    } else {
      var g, rest, m, out := CompactUnfolds(ordered, batchId);
      var time := ordered[0].time;
      DueHead(g, rest, time, clock);
      DueHead([m], out, time, clock);
      if time <= clock {
        HeadRelaxes(s, s, ordered, batchId);
        ExecConcat(s, g, Due(rest, clock));
        ExecConcat(s, [m], Due(out, clock));
        if Exec(s, g).Ok? {
          CompactIsExact(Exec(s, g).value, rest, batchId, clock);
        }
      } else {
        CompactIsExact(s, rest, batchId, clock);
        assert [] + Due(rest, clock) == Due(rest, clock) && [] + Due(out, clock) == Due(out, clock);
      }
    }
  }

  // The optimised queue

  /** Time, priority and sequence, without the identifier. */
  function Tick(e: Event): Key {
    [e.time, e.priority, e.sequence]
  }

  ghost predicate DistinctTicks(events: seq<Event>) {
    forall i, j :: 0 <= i < j < |events| ==> Tick(events[i]) != Tick(events[j])
  }

  lemma TickOrder(d: Event, e: Event)
    ensures Less(Tick(d), Tick(e)) <==>
      d.time < e.time || (d.time == e.time &&
      (d.priority < e.priority || (d.priority == e.priority && d.sequence < e.sequence)))
    ensures Less(Tick(d), Tick(e)) ==> Less(EventKey(d), EventKey(e))
    ensures Tick(d) != Tick(e) && !Less(EventKey(e), EventKey(d)) ==> Less(Tick(d), Tick(e))
  {
    EventKeyOrder(d, e);
    EventKeyOrder(e, d);
    LessCons(d.sequence, [], e.sequence, []);
    LessCons(d.priority, [d.sequence], e.priority, [e.sequence]);
    LessCons(d.time, [d.priority] + [d.sequence], e.time, [e.priority] + [e.sequence]);
    assert Tick(d) == [d.time] + ([d.priority] + [d.sequence]);
    assert Tick(e) == [e.time] + ([e.priority] + [e.sequence]);
    if Tick(d) != Tick(e) {
      assert !(d.time == e.time && d.priority == e.priority && d.sequence == e.sequence);
    }
  }

  /** With distinct ticks the schedule is strictly ordered by tick. */
  lemma ScheduleByTick(events: seq<Event>)
    requires DistinctTicks(events)
    ensures StrictlySortedBy(ScheduleA(events), Tick)
  {
    var ordered := ScheduleA(events);
    SortCorrect(events, EventKey);
    assert NoDuplicates(events);
    DuplicateFreePermutation(events, ordered);
    KeysDetermineTransfer(events, ordered, Tick);
    forall i, j | 0 <= i < j < |ordered|
      ensures Less(Tick(ordered[i]), Tick(ordered[j]))
    {
      TickOrder(ordered[i], ordered[j]);
      assert ordered[i] in ordered && ordered[j] in ordered;
    }
  }

  lemma StrictTicksAreCanonical(s: seq<Event>)
    requires StrictlySortedBy(s, Tick)
    ensures StrictlySortedBy(s, EventKey) && ScheduleA(s) == s
  {
    forall i, j | 0 <= i < j < |s|
      ensures Less(EventKey(s[i]), EventKey(s[j]))
    {
      TickOrder(s[i], s[j]);
    }
    StrictIsSorted(s, EventKey);
    SortIs(s, s, EventKey);
  }

  /** Every emitted event carries the tick of some given event. */
  lemma {:induction false} CompactTicks(ordered: seq<Event>, batchId: BatchId)
    requires GroupsMergeable(ordered)
    ensures forall m :: m in CompactOrdered(ordered, batchId) ==> exists e :: e in ordered && Tick(e) == Tick(m)
    decreases |ordered|
  {
    if ordered != [] {
      var n := GroupSize(ordered);
      CompactTicks(ordered[n..], batchId);
      forall m | m in CompactOrdered(ordered, batchId)
        ensures exists e :: e in ordered && Tick(e) == Tick(m)
      {
        if m == Merge(ordered[..n], batchId) {
          assert ordered[0] in ordered && Tick(ordered[0]) == Tick(m);
        } else {
          assert m in CompactOrdered(ordered[n..], batchId);
          var e :| e in ordered[n..] && Tick(e) == Tick(m);
          assert e in ordered;
        }
      }
    }
  }

  lemma HeadTickFirst(ordered: seq<Event>, n: nat, batchId: BatchId)
    requires StrictlySortedBy(ordered, Tick) && 0 < n <= |ordered| && GroupsMergeable(ordered[n..])
    ensures forall m :: m in CompactOrdered(ordered[n..], batchId) ==> Less(Tick(ordered[0]), Tick(m))
  {
    CompactTicks(ordered[n..], batchId);
    forall m | m in CompactOrdered(ordered[n..], batchId)
      ensures Less(Tick(ordered[0]), Tick(m))
    {
      var e :| e in ordered[n..] && Tick(e) == Tick(m);
      var k :| 0 <= k < |ordered[n..]| && ordered[n..][k] == e;
      assert ordered[n + k] == e;
    }
  }

  lemma PrependStrict(e: Event, rest: seq<Event>)
    requires StrictlySortedBy(rest, Tick) && forall m :: m in rest ==> Less(Tick(e), Tick(m))
    ensures StrictlySortedBy([e] + rest, Tick)
  {
  }

  /** The optimiser's output is already in canonical order. */
  lemma {:induction false} CompactIsCanonical(ordered: seq<Event>, batchId: BatchId)
    requires GroupsMergeable(ordered) && StrictlySortedBy(ordered, Tick)
    ensures StrictlySortedBy(CompactOrdered(ordered, batchId), Tick)
    decreases |ordered|
  {
    if ordered != [] {
      var g, rest, m, out := CompactUnfolds(ordered, batchId);
      assert rest == ordered[GroupSize(ordered)..];
      CompactIsCanonical(rest, batchId);
      HeadTickFirst(ordered, GroupSize(ordered), batchId);
      assert Tick(m) == Tick(ordered[0]);
      PrependStrict(m, out);
    }
  }

  /** Operation, target, time and priority are all that decides a group: the longest run of
      reservation events that agree in them is the group, whoever acts and whatever they are called. */
  lemma GroupIs(events: seq<Event>, n: nat)
    requires 1 <= n <= |events| && events[0].op.AdjustReservation?
    requires forall i :: 0 <= i < n ==>
      && events[i].op.AdjustReservation? && events[i].target == events[0].target
      && events[i].time == events[0].time && events[i].priority == events[0].priority
    requires n < |events| ==>
      || !events[n].op.AdjustReservation? || events[n].target != events[0].target
      || events[n].time != events[0].time || events[n].priority != events[0].priority
    ensures GroupSize(events) == n
  {
  }

  lemma TailAfterHead(m: Event, out: seq<Event>, j: nat)
    requires 1 <= j <= |out| + 1
    ensures ([m] + out)[j..] == out[j - 1..]
  {
  }

  lemma TailAfterGroup(g: seq<Event>, rest: seq<Event>, i: nat)
    requires i <= |rest|
    ensures (g + rest)[|g| + i..] == rest[i..]
  {
  }

  /** The j-th emitted event starts what is emitted for a suffix of the given queue. */
  lemma {:induction false} EmittedFrom(ordered: seq<Event>, batchId: BatchId, j: nat) returns (i: nat)
    requires GroupsMergeable(ordered) && j < |CompactOrdered(ordered, batchId)|
    ensures i < |ordered| && GroupsMergeable(ordered[i..])
    ensures CompactOrdered(ordered, batchId)[j..] == CompactOrdered(ordered[i..], batchId)
    decreases |ordered|
  {
    hide Merge, Mergeable, GroupSize, GroupsMergeable;
    if j == 0 {
      i := 0;
      assert ordered[0..] == ordered;
    } else {
      var g, rest, m, out := CompactUnfolds(ordered, batchId);
      hide CompactOrdered;
      TailAfterHead(m, out, j);
      i := EmittedFrom(rest, batchId, j - 1);
      TailAfterGroup(g, rest, i);
      i := |g| + i;
    }
  }

  /** Where an emitted event comes from: it stands for n neighbours of the given queue, which agree in
      operation, target, time and priority, and which no further neighbour could join; a lone event is
      passed through, and several become the first of them under a new name and with their sum. */
  lemma EmittedEvent(ordered: seq<Event>, batchId: BatchId, j: nat) returns (rest: seq<Event>, n: nat)
    requires GroupsMergeable(ordered) && j < |CompactOrdered(ordered, batchId)|
    ensures exists i :: 0 <= i < |ordered| && rest == ordered[i..]
    ensures 1 <= n <= |rest|
    ensures forall k :: 0 <= k < n ==>
      && rest[k].op == rest[0].op && rest[k].target == rest[0].target
      && rest[k].time == rest[0].time && rest[k].priority == rest[0].priority
    ensures 1 < n ==> rest[0].op.AdjustReservation? && forall k :: 0 <= k < n ==> rest[k].value.Int?
    ensures n < |rest| && rest[0].op.AdjustReservation? ==>
      || rest[n].op != rest[0].op || rest[n].target != rest[0].target
      || rest[n].time != rest[0].time || rest[n].priority != rest[0].priority
    ensures var m := CompactOrdered(ordered, batchId)[j];
      m == if n == 1 then rest[0] else rest[0].(id := batchId(Ids(rest[..n])), value := Int(Sum(Deltas(rest[..n]))))
    ensures GroupsMergeable(rest) && GroupsMergeable(rest[n..])
    ensures CompactOrdered(ordered, batchId)[j + 1..] == CompactOrdered(rest[n..], batchId)
  {
    hide Sum, Deltas, Ids;
    var i := EmittedFrom(ordered, batchId, j);
    rest := ordered[i..];
    var g, next, m, out := CompactUnfolds(rest, batchId);
    n := |g|;
    if n > 1 {
      forall e | e in g
        ensures e.op.AdjustReservation?
      {
      }
      DeltasOfGroup(g);
    }
    assert CompactOrdered(ordered, batchId)[j..][1..] == CompactOrdered(ordered, batchId)[j + 1..];
  }

  /** No two neighbouring reservation events of the output share target, time and priority. */
  lemma NeighboursStayApart(ordered: seq<Event>, batchId: BatchId, j: nat)
    requires GroupsMergeable(ordered) && j + 1 < |CompactOrdered(ordered, batchId)|
    ensures var d, e := CompactOrdered(ordered, batchId)[j], CompactOrdered(ordered, batchId)[j + 1];
      d.op.AdjustReservation? && e.op.AdjustReservation? ==>
        d.target != e.target || d.time != e.time || d.priority != e.priority
  {
    var rest, n := EmittedEvent(ordered, batchId, j);
    var after := CompactOrdered(ordered, batchId)[j + 1..];
    assert after[0] == CompactOrdered(ordered, batchId)[j + 1];
    var _, _, second, _ := CompactUnfolds(rest[n..], batchId);
    assert after[0] == second;
  }

  /** Two neighbours of a queue that would be merged. */
  predicate Merging(d: Event, e: Event) {
    && d.op.AdjustReservation? && e.op.AdjustReservation?
    && d.target == e.target && d.time == e.time && d.priority == e.priority
  }

  /** A head that does not merge with the next event is passed through. */
  lemma LoneHead(ordered: seq<Event>, batchId: BatchId)
    requires ordered != [] && (|ordered| > 1 ==> !Merging(ordered[0], ordered[1]))
    ensures GroupSize(ordered) == 1
    ensures GroupsMergeable(ordered[1..]) ==>
      GroupsMergeable(ordered) && CompactOrdered(ordered, batchId) == [ordered[0]] + CompactOrdered(ordered[1..], batchId)
  {
    if ordered[0].op.AdjustReservation? {
      GroupIs(ordered, 1);
    }
    assert ordered[..1] == [ordered[0]];
  }

  /** A queue without such neighbours is passed through. */
  lemma {:induction false} NothingToMerge(ordered: seq<Event>, batchId: BatchId)
    requires forall k :: 0 <= k < |ordered| - 1 ==> !Merging(ordered[k], ordered[k + 1])
    ensures GroupsMergeable(ordered) && CompactOrdered(ordered, batchId) == ordered
    decreases |ordered|
  {
    if ordered != [] {
      var rest := ordered[1..];
      LoneHead(ordered, batchId);
      forall k | 0 <= k < |rest| - 1
        ensures !Merging(rest[k], rest[k + 1])
      {
        assert !Merging(ordered[k + 1], ordered[k + 2]);
      }
      NothingToMerge(rest, batchId);
      assert ordered == [ordered[0]] + rest;
    }
  }

  /** The event two deltas are merged into. */
  function Combined(d: Event, e: Event, batchId: BatchId): Event
    requires d.value.Int? && e.value.Int?
  {
    d.(id := batchId([d.id, e.id]), value := Int(d.value.n + e.value.n))
  }

  /** With a single such pair the queue becomes one event shorter at its place. */
  lemma {:induction false} OnePairMerges(ordered: seq<Event>, i: nat, batchId: BatchId)
    requires i + 1 < |ordered| && ordered[i].value.Int? && ordered[i + 1].value.Int?
    requires forall k :: 0 <= k < |ordered| - 1 ==> (Merging(ordered[k], ordered[k + 1]) <==> k == i)
    ensures GroupsMergeable(ordered)
    ensures CompactOrdered(ordered, batchId)
         == ordered[..i] + [Combined(ordered[i], ordered[i + 1], batchId)] + ordered[i + 2..]
    decreases |ordered|
  {
    hide GroupsMergeable, CompactOrdered, GroupSize, Merging, Combined;
    if i == 0 {
      assert Merging(ordered[0], ordered[1]);
      assert |ordered| > 2 ==> !Merging(ordered[1], ordered[2]);
      PairHead(ordered, batchId);
      forall k | 0 <= k < |ordered[2..]| - 1
        ensures !Merging(ordered[2..][k], ordered[2..][k + 1])
      {
        assert !Merging(ordered[k + 2], ordered[k + 3]);
      }
      NothingToMerge(ordered[2..], batchId);
      assert ordered[..0] == [];
    } else {
      assert !Merging(ordered[0], ordered[1]);
      LoneHead(ordered, batchId);
      PairFurtherOn(ordered, i);
      OnePairMerges(ordered[1..], i - 1, batchId);
      ShiftedPair(ordered, i, Combined(ordered[i], ordered[i + 1], batchId));
    }
  }

  lemma PairFurtherOn(ordered: seq<Event>, i: nat)
    requires 0 < i && i + 1 < |ordered|
    requires forall k :: 0 <= k < |ordered| - 1 ==> (Merging(ordered[k], ordered[k + 1]) <==> k == i)
    ensures var rest := ordered[1..];
      forall k :: 0 <= k < |rest| - 1 ==> (Merging(rest[k], rest[k + 1]) <==> k == i - 1)
  {
    var rest := ordered[1..];
    forall k | 0 <= k < |rest| - 1
      ensures Merging(rest[k], rest[k + 1]) <==> k == i - 1
    {
      assert Merging(ordered[k + 1], ordered[k + 2]) <==> k + 1 == i;
    }
  }

  lemma ShiftedPair(ordered: seq<Event>, i: nat, m: Event)
    requires 0 < i && i + 1 < |ordered|
    ensures var rest := ordered[1..];
      [ordered[0]] + (rest[..i - 1] + [m] + rest[i + 1..]) == ordered[..i] + [m] + ordered[i + 2..]
  {
  }

  lemma SumOfTwo(d: int, e: int)
    ensures Sum([d, e]) == d + e
  {
    SumOfOne(d);
    assert [d, e][..1] == [d];
  }

  lemma PairHead(ordered: seq<Event>, batchId: BatchId)
    requires |ordered| >= 2 && ordered[0].value.Int? && ordered[1].value.Int? && Merging(ordered[0], ordered[1])
    requires |ordered| > 2 ==> !Merging(ordered[1], ordered[2])
    ensures GroupsMergeable(ordered[2..]) ==>
      && GroupsMergeable(ordered)
      && CompactOrdered(ordered, batchId)
         == [Combined(ordered[0], ordered[1], batchId)] + CompactOrdered(ordered[2..], batchId)
  {
    hide GroupSize, Merge, Mergeable, Combined, ValuesOf, Sum;
    GroupIs(ordered, 2);
    PairBecomes(ordered[0], ordered[1], batchId);
    assert ordered[..2] == [ordered[0], ordered[1]];
  }

  lemma PairBecomes(d: Event, e: Event, batchId: BatchId)
    requires d.value.Int? && e.value.Int?
    ensures Mergeable([d, e]) && Merge([d, e], batchId) == Combined(d, e, batchId)
  {
    SumOfTwo(d.value.n, e.value.n);
    assert ValuesOf([d, e]) == [d.value.n, e.value.n];
    assert Ids([d, e]) == [d.id, e.id];
  }

  /** No two neighbours of the optimiser's output could be merged again. */
  lemma {:induction false} CompactIsFixed(ordered: seq<Event>, batchId: BatchId)
    requires GroupsMergeable(ordered)
    ensures GroupsMergeable(CompactOrdered(ordered, batchId))
    ensures CompactOrdered(CompactOrdered(ordered, batchId), batchId) == CompactOrdered(ordered, batchId)
    decreases |ordered|
  {
    if ordered != [] {
      var g, rest, m, out := CompactUnfolds(ordered, batchId);
      CompactIsFixed(rest, batchId);
      var all := [m] + out;
      assert all[..1] == [m] && all[1..] == out;
    }
  }

  // The theorems

  /** The optimised queue is in canonical order, and optimising it again changes nothing. */
  lemma CompactionIsCanonicalAndIdempotent(events: seq<Event>, batchId: BatchId)
    requires Compactable(events) && DistinctTicks(events)
    ensures Compactable(Compact(events, batchId))
    ensures ScheduleA(Compact(events, batchId)) == Compact(events, batchId)
    ensures Compact(Compact(events, batchId), batchId) == Compact(events, batchId)
  {
    SortMembers(events, EventKey);
    var ordered := ScheduleA(events);
    ScheduleByTick(events);
    CompactIsCanonical(ordered, batchId);
    StrictTicksAreCanonical(CompactOrdered(ordered, batchId));
    CompactIsFixed(ordered, batchId);
  }

  lemma RelaxingKeepsAllow(t': State, t: State)
    requires Relaxes(t', t)
    ensures VerdictA(t).decision.Allow? ==> VerdictA(t').decision.Allow?
    ensures VerdictA(t') != VerdictA(t) ==> VerdictA(t).failed == [ResourceCapacity] && VerdictA(t').decision.Allow?
  {
  }

  /** For every queue, optimised execution differs from the original at most by reserving less:
      it keeps every ALLOW, and it can only turn a RESOURCE_CAPACITY abstention into one. */
  lemma CompactionNeverOverReserves(initial: State, events: seq<Event>, batchId: BatchId)
    requires Compactable(events) && DistinctTicks(events)
    ensures match (Reference(initial, Compact(events, batchId)), Reference(initial, events))
      case (Ok(r'), Ok(r)) =>
        && Relaxes(r'.state, r.state)
        && (r.outcome.verdict.decision.Allow? ==> r'.outcome.verdict.decision.Allow?)
        && (r'.outcome.verdict != r.outcome.verdict ==>
              r.outcome.verdict.failed == [ResourceCapacity] && r'.outcome.verdict.decision.Allow?)
      case (Err(e'), Err(e)) => e' == e
      case _ => false
  {
    SortMembers(events, EventKey);
    CompactionIsCanonicalAndIdempotent(events, batchId);
    var clock := initial.request.queryTime;
    CompactRelaxes(initial, initial, ScheduleA(events), batchId, clock);
    var e', e := Exec(initial, Due(Compact(events, batchId), clock)), Exec(initial, Due(ScheduleA(events), clock));
    if e.Ok? {
      RelaxingKeepsAllow(e'.value, e.value);
    }
  }

  /** Meaning is preserved outright when the executed groups are safe to merge. */
  lemma CompactionPreservesMeaning(initial: State, events: seq<Event>, batchId: BatchId)
    requires Compactable(events) && DistinctTicks(events)
    requires initial.resources.reserved >= 0
    requires GroupsSafe(ScheduleA(events), initial.request.queryTime)
    ensures match (Reference(initial, Compact(events, batchId)), Reference(initial, events))
      case (Ok(r'), Ok(r)) => r'.outcome == r.outcome && r'.state == r.state
      case (Err(e'), Err(e)) => e' == e
      case _ => false
  {
    CompactionIsCanonicalAndIdempotent(events, batchId);
    CompactIsExact(initial, ScheduleA(events), batchId, initial.request.queryTime);
  }

  // Exactly when a whole run keeps its meaning

  lemma {:induction false} DeltasConcat(a: seq<Event>, b: seq<Event>)
    ensures Deltas(a + b) == Deltas(a) + Deltas(b)
  {
    if b == [] {
      assert a + b == a;
    } else {
      var n := |b| - 1;
      DeltasConcat(a, b[..n]);
      assert (a + b)[..|a + b| - 1] == a + b[..n];
    }
  }

  lemma {:induction false} DeltasOfGroup(group: seq<Event>)
    requires DeltaGroup(group)
    ensures Deltas(group) == ValuesOf(group)
  {
    if group != [] {
      var n := |group| - 1;
      assert group == group[..n] + [group[n]] && group[n] in group;
      DeltasOfGroup(group[..n]);
    }
  }

  lemma MergedDeltas(ordered: seq<Event>, batchId: BatchId)
    requires ordered != [] && GroupsMergeable(ordered)
    ensures var g := ordered[..GroupSize(ordered)];
      Mergeable(g) && SameTotal([Merge(g, batchId)], g)
  {
    var n := GroupSize(ordered);
    var g := ordered[..n];
    if n == 1 {
      assert g == [ordered[0]];
    } else {
      forall e | e in g
        ensures e.op.AdjustReservation?
      {
        var i :| 0 <= i < n && ordered[i] == e;
        assert Joins(ordered[0], ordered[i]);
      }
      DeltasOfGroup(g);
      var m := Merge(g, batchId);
      assert g[0] in g && [m][..0] == [];
      assert Deltas([m]) == [m.value.n] && [m.value.n][..0] == [];
    }
  }

  lemma TotalOfParts(a: seq<Event>, b: seq<Event>)
    ensures Sum(Deltas(a + b)) == Sum(Deltas(a)) + Sum(Deltas(b))
    ensures Deltas(a + b) == [] <==> Deltas(a) == [] && Deltas(b) == []
  {
    DeltasConcat(a, b);
    SumSplit(Deltas(a), Deltas(b));
  }

  ghost predicate SameTotal(a: seq<Event>, b: seq<Event>) {
    Sum(Deltas(a)) == Sum(Deltas(b)) && (Deltas(a) == [] <==> Deltas(b) == [])
  }

  lemma SameTotalOfParts(a: seq<Event>, b: seq<Event>, a': seq<Event>, b': seq<Event>)
    requires SameTotal(a, a') && SameTotal(b, b')
    ensures SameTotal(a + b, a' + b')
  {
    TotalOfParts(a, b);
    TotalOfParts(a', b');
  }

  lemma SameTotalRefl(a: seq<Event>)
    ensures SameTotal(a, a)
  {
  }

  /** The optimiser keeps the total of the executed deltas. */
  lemma {:induction false} CompactKeepsTotal(ordered: seq<Event>, batchId: BatchId, clock: int)
    requires GroupsMergeable(ordered)
    ensures SameTotal(Due(CompactOrdered(ordered, batchId), clock), Due(ordered, clock))
    decreases |ordered|
  {
    hide SameTotal;
    if ordered == [] {
      SameTotalRefl([]);
    } else {
      var g, rest, m, out := CompactUnfolds(ordered, batchId);
      var time := ordered[0].time;
      DueHead(g, rest, time, clock);
      DueHead([m], out, time, clock);
      CompactKeepsTotal(rest, batchId, clock);
      if time <= clock {
        MergedDeltas(ordered, batchId);
        SameTotalOfParts([m], Due(out, clock), g, Due(rest, clock));
      } else {
        assert [] + Due(rest, clock) == Due(rest, clock) && [] + Due(out, clock) == Due(out, clock);
      }
    }
  }

  /** Two counters fed the same total, one of them never above the other, end equal exactly when no
      suffix of the higher one's deltas sums to more than the lower one's result. */
  lemma SameTotalExactIff(r: int, a: seq<int>, b: seq<int>)
    requires Sum(a) == Sum(b) && (a == [] <==> b == []) && ClampFold(r, a) <= ClampFold(r, b)
    ensures ClampFold(r, a) == ClampFold(r, b) <==> forall k :: 1 <= k <= |b| ==> Sum(b[k..]) <= ClampFold(r, a)
  {
    if b != [] {
      var m := ClampLaw(r, a);
      var n := ClampLaw(r, b);
    }
  }

  /** How many deltas each executed group holds, in order; events that hold none are left out. */
  function GroupSizes(ordered: seq<Event>, clock: int): seq<nat>
    decreases |ordered|
  {
    if ordered == [] then []
    else
      var n := GroupSize(ordered);
      var held := |Deltas(ordered[..n])|;
      (if ordered[0].time <= clock && held > 0 then [held] else []) + GroupSizes(ordered[n..], clock)
  }

  function Count(sizes: seq<nat>): nat {
    if sizes == [] then 0 else sizes[0] + Count(sizes[1..])
  }

  /** The delta of one event, if it holds one. */
  lemma DeltasOfOne(e: Event)
    ensures Deltas([e]) == if e.op.AdjustReservation? && e.value.Int? then [e.value.n] else []
  {
    assert [e][..0] == [];
  }

  lemma SumOfOne(d: int)
    ensures Sum([d]) == d
  {
    assert [d][..0] == [];
  }

  /** Merging a group leaves one delta with its sum, or none where there was none. */
  lemma HeadDeltas(ordered: seq<Event>, batchId: BatchId)
    requires ordered != [] && GroupsMergeable(ordered)
    ensures var g := ordered[..GroupSize(ordered)];
      Deltas([Merge(g, batchId)]) == if Deltas(g) == [] then [] else [Sum(Deltas(g))]
  {
    hide Deltas, Sum;
    var n := GroupSize(ordered);
    var g := ordered[..n];
    var m := Merge(g, batchId);
    MergedDeltas(ordered, batchId);
    DeltasOfOne(m);
    if Deltas([m]) != [] {
      SumOfOne(Deltas([m])[0]);
    }
  }

  /** The deltas of the first group, as far as they are executed. */
  function HeadExecuted(ordered: seq<Event>, clock: int): seq<int>
    requires ordered != []
  {
    if ordered[0].time <= clock then Deltas(ordered[..GroupSize(ordered)]) else []
  }

  lemma SizesOfHead(ordered: seq<Event>, clock: int)
    requires ordered != []
    ensures var here := HeadExecuted(ordered, clock);
      GroupSizes(ordered, clock) == (if here == [] then [] else [|here|]) + GroupSizes(ordered[GroupSize(ordered)..], clock)
  {
    hide GroupSize, Deltas;
  }

  /** The deltas of both schedules, split after the first group. */
  lemma DeltasOfHead(ordered: seq<Event>, batchId: BatchId, clock: int)
    requires ordered != [] && GroupsMergeable(ordered)
    ensures var rest, here := ordered[GroupSize(ordered)..], HeadExecuted(ordered, clock);
      && Deltas(Due(ordered, clock)) == here + Deltas(Due(rest, clock))
      && Deltas(Due(CompactOrdered(ordered, batchId), clock))
         == (if here == [] then [] else [Sum(here)]) + Deltas(Due(CompactOrdered(rest, batchId), clock))
  {
    hide Deltas, Due, Sum, GroupSize, Merge;
    var g, rest, m, out := CompactUnfolds(ordered, batchId);
    var time := ordered[0].time;
    DueHead(g, rest, time, clock);
    DueHead([m], out, time, clock);
    HeadDeltas(ordered, batchId);
    if time <= clock {
      DeltasConcat(g, Due(rest, clock));
      DeltasConcat([m], Due(out, clock));
    } else {
      assert [] + Due(rest, clock) == Due(rest, clock) && [] + Due(out, clock) == Due(out, clock);
      assert [] + Deltas(Due(rest, clock)) == Deltas(Due(rest, clock));
      assert [] + Deltas(Due(out, clock)) == Deltas(Due(out, clock));
    }
  }

  /** The merged deltas from the j-th on sum to what follows the first j groups. */
  ghost predicate SuffixMatches(deltas: seq<int>, sizes: seq<nat>, merged: seq<int>, j: nat)
    requires j <= |sizes| == |merged|
  {
    Count(sizes[..j]) <= |deltas| && Sum(merged[j..]) == Sum(deltas[Count(sizes[..j])..])
  }

  ghost predicate SuffixesMatch(deltas: seq<int>, sizes: seq<nat>, merged: seq<int>) {
    |merged| == |sizes| && forall j: nat :: j <= |sizes| ==> SuffixMatches(deltas, sizes, merged, j)
  }

  lemma CountCons(n: nat, sizes: seq<nat>, j: nat)
    requires j <= |sizes|
    ensures Count(([n] + sizes)[..j + 1]) == n + Count(sizes[..j])
  {
    var taken := ([n] + sizes)[..j + 1];
    assert taken[0] == n && taken[1..] == sizes[..j];
  }

  lemma DropAfterHead(h: int, merged: seq<int>, j: nat)
    requires j <= |merged|
    ensures ([h] + merged)[j + 1..] == merged[j..]
  {
  }

  lemma LaterSums(here: seq<int>, deltas: seq<int>, n: nat, sizes: seq<nat>, h: int, merged: seq<int>, j: nat)
    requires j <= |sizes| == |merged| && n == |here| && SuffixMatches(deltas, sizes, merged, j)
    ensures SuffixMatches(here + deltas, [n] + sizes, [h] + merged, j + 1)
  {
    hide Sum, Count;
    CountCons(n, sizes, j);
    DropAfterHead(h, merged, j);
    var all, c := here + deltas, Count(sizes[..j]);
    assert all[n + c..] == deltas[c..];
  }

  lemma FirstSums(here: seq<int>, deltas: seq<int>, n: nat, sizes: seq<nat>, h: int, merged: seq<int>)
    requires |sizes| == |merged| && h == Sum(here) && SuffixMatches(deltas, sizes, merged, 0)
    ensures SuffixMatches(here + deltas, [n] + sizes, [h] + merged, 0)
  {
    hide Sum;
    assert ([n] + sizes)[..0] == [] == sizes[..0];
    assert merged[0..] == merged && deltas[0..] == deltas;
    assert ([h] + merged)[0..] == [h] + merged && (here + deltas)[0..] == here + deltas;
    SumSplit(here, deltas);
    SumSplit([h], merged);
    SumOfOne(h);
  }

  lemma SuffixesMatchCons(here: seq<int>, deltas: seq<int>, n: nat, sizes: seq<nat>, h: int, merged: seq<int>)
    requires SuffixesMatch(deltas, sizes, merged) && n == |here| && h == Sum(here)
    ensures SuffixesMatch(here + deltas, [n] + sizes, [h] + merged)
  {
    hide SuffixMatches;
    forall j: nat | j <= 1 + |sizes|
      ensures SuffixMatches(here + deltas, [n] + sizes, [h] + merged, j)
    {
      if j == 0 {
        FirstSums(here, deltas, n, sizes, h, merged);
      } else {
        LaterSums(here, deltas, n, sizes, h, merged, j - 1);
      }
    }
  }

  /** The deltas of the optimised run from its j-th on sum to what follows the first j groups of the
      original. */
  lemma {:induction false} MergedSuffix(ordered: seq<Event>, batchId: BatchId, clock: int)
    requires GroupsMergeable(ordered)
    ensures SuffixesMatch(Deltas(Due(ordered, clock)), GroupSizes(ordered, clock),
      Deltas(Due(CompactOrdered(ordered, batchId), clock)))
    decreases |ordered|
  {
    hide GroupSize, Due, Deltas, SuffixesMatch, GroupSizes, HeadExecuted, CompactOrdered;
    if ordered == [] {
      NothingDue(batchId, clock);
    } else {
      var rest, here := ordered[GroupSize(ordered)..], HeadExecuted(ordered, clock);
      DeltasOfHead(ordered, batchId, clock);
      SizesOfHead(ordered, clock);
      MergedSuffix(rest, batchId, clock);
      var deltas, sizes := Deltas(Due(rest, clock)), GroupSizes(rest, clock);
      var merged := Deltas(Due(CompactOrdered(rest, batchId), clock));
      if here == [] {
        assert [] + deltas == deltas && [] + merged == merged && [] + sizes == sizes;
      } else {
        SuffixesMatchCons(here, deltas, |here|, sizes, Sum(here), merged);
      }
    }
  }

  lemma NothingDue(batchId: BatchId, clock: int)
    ensures GroupsMergeable([])
    ensures SuffixesMatch(Deltas(Due([], clock)), GroupSizes([], clock), Deltas(Due(CompactOrdered([], batchId), clock)))
  {
  }

  /** A condition on the scheduled queue alone: whatever clamping inside a group can add is already
      there without it. No suffix of the executed deltas sums to more than the unclamped total, or
      some suffix that starts after a whole number of groups sums to at least as much. */
  ghost predicate RunSafe(held: int, ordered: seq<Event>, clock: int) {
    SumsSafe(held, Deltas(Due(ordered, clock)), GroupSizes(ordered, clock))
  }

  ghost predicate SumsSafe(held: int, deltas: seq<int>, sizes: seq<nat>) {
    forall k :: 1 <= k <= |deltas| ==>
      Sum(deltas[k..]) <= held + Sum(deltas) || MatchedAtBoundary(deltas, sizes, Sum(deltas[k..]))
  }

  ghost predicate MatchedAtBoundary(deltas: seq<int>, sizes: seq<nat>, sum: int) {
    exists j :: 1 <= j <= |sizes| && Count(sizes[..j]) <= |deltas| && sum <= Sum(deltas[Count(sizes[..j])..])
  }

  ghost predicate ReachedBySuffix(deltas: seq<int>, sum: int) {
    exists j :: 1 <= j <= |deltas| && sum <= Sum(deltas[j..])
  }

  lemma BoundarySums(deltas: seq<int>, sizes: seq<nat>, merged: seq<int>, sum: int)
    requires SuffixesMatch(deltas, sizes, merged)
    ensures MatchedAtBoundary(deltas, sizes, sum) <==> ReachedBySuffix(merged, sum)
  {
    hide Sum, Count;
    if MatchedAtBoundary(deltas, sizes, sum) {
      var j :| 1 <= j <= |sizes| && Count(sizes[..j]) <= |deltas| && sum <= Sum(deltas[Count(sizes[..j])..]);
      assert SuffixMatches(deltas, sizes, merged, j);
    }
    if ReachedBySuffix(merged, sum) {
      var j :| 1 <= j <= |merged| && sum <= Sum(merged[j..]);
      assert SuffixMatches(deltas, sizes, merged, j);
    }
  }

  /** The compacted counter is at least a number exactly when the total or a boundary suffix is. */
  lemma FoldReaches(held: int, merged: seq<int>, sum: int)
    requires merged != []
    ensures sum <= ClampFold(held, merged) <==> sum <= held + Sum(merged) || ReachedBySuffix(merged, sum)
  {
    var m := ClampLaw(held, merged);
  }

  lemma SumsSafeIff(held: int, deltas: seq<int>, sizes: seq<nat>, merged: seq<int>)
    requires SuffixesMatch(deltas, sizes, merged)
    requires Sum(merged) == Sum(deltas) && (merged == [] <==> deltas == [])
    ensures SumsSafe(held, deltas, sizes) <==> forall k :: 1 <= k <= |deltas| ==> Sum(deltas[k..]) <= ClampFold(held, merged)
  {
    hide SuffixesMatch, MatchedAtBoundary, ReachedBySuffix, ClampFold;
    forall k | 1 <= k <= |deltas|
      ensures Sum(deltas[k..]) <= ClampFold(held, merged)
         <==> Sum(deltas[k..]) <= held + Sum(deltas) || MatchedAtBoundary(deltas, sizes, Sum(deltas[k..]))
    {
      FoldReaches(held, merged, Sum(deltas[k..]));
      BoundarySums(deltas, sizes, merged, Sum(deltas[k..]));
    }
  }

  /** Meaning is preserved in exactly the safe runs, from any initial state. */
  lemma CompactionExactIff(initial: State, events: seq<Event>, batchId: BatchId)
    requires Compactable(events) && DistinctTicks(events) && Reference(initial, events).Ok?
    ensures Reference(initial, Compact(events, batchId)).Ok?
    ensures var r', r := Reference(initial, Compact(events, batchId)).value, Reference(initial, events).value;
      (r'.outcome == r.outcome && r'.state == r.state)
      <==> RunSafe(initial.resources.reserved, ScheduleA(events), initial.request.queryTime)
  {
    SortMembers(events, EventKey);
    CompactionIsCanonicalAndIdempotent(events, batchId);
    CompactionNeverOverReserves(initial, events, batchId);
    var clock, held := initial.request.queryTime, initial.resources.reserved;
    var due', due := Due(Compact(events, batchId), clock), Due(ScheduleA(events), clock);
    ReservationAfterRun(initial, due');
    ReservationAfterRun(initial, due);
    CompactKeepsTotal(ScheduleA(events), batchId, clock);
    SameTotalExactIff(held, Deltas(due'), Deltas(due));
    MergedSuffix(ScheduleA(events), batchId, clock);
    SumsSafeIff(held, Deltas(due), GroupSizes(ScheduleA(events), clock), Deltas(due'));
  }

  /** Each group of deltas has one sign; a late group does not matter. */
  ghost predicate GroupsOfOneSign(ordered: seq<Event>, clock: int)
    requires GroupsMergeable(ordered)
  {
    ordered == [] ||
    (var n := GroupSize(ordered);
     (n > 1 && ordered[0].time <= clock ==>
        NonNegative(ValuesOf(ordered[..n])) || NonPositive(ValuesOf(ordered[..n])))
     && GroupsOfOneSign(ordered[n..], clock))
  }

  /** Groups of one sign, such as every group the generators emit, are safe. */
  lemma {:induction false} OneSignIsSafe(ordered: seq<Event>, clock: int)
    requires GroupsMergeable(ordered) && GroupsOfOneSign(ordered, clock)
    ensures GroupsSafe(ordered, clock)
    decreases |ordered|
  {
    if ordered != [] {
      var n := GroupSize(ordered);
      OneSignIsSafe(ordered[n..], clock);
      if n > 1 && ordered[0].time <= clock {
        SameSignIsSafe(0, ValuesOf(ordered[..n]));
      }
    }
  }

  // A run whose verdict changes

  /** A state in which every gate passes as long as at most two units are reserved. */
  function TightState(): State {
    State(
      Request("", "", 10, "", "", 3, true),
      Actors(Actor("", 3), Actor("", 3), Actor("", 3), Actor("", 3)),
      Authority(true, false, true, 2, 1, 20), Evidence(True, "", Some(2), Some(20)),
      Workflow("", [], [], false, true), Resources(4, 1, 2), Routing(false, true, true), Policy(true, 3, 1),
      Consent(true, true), DecisionBody(2, 2), Custody(true, true), DelegationCondition(true, true),
      Obligation(true, 9, Some(8)), Budget(8, 0, 2), Quality(false, false, true),
      DomainContext("", "", "", "", "", []), false)
  }

  /** Releasing five and then reserving three, at the same time and priority. */
  function ReleaseThenReserve(): seq<Event> {
    [ Event("a", 5, 20, 0, "", AdjustReservation, ReservedTarget, Int(-5)),
      Event("b", 5, 20, 1, "", AdjustReservation, ReservedTarget, Int(3)) ]
  }

  lemma ReleaseThenReserveIsOneGroup(batchId: BatchId)
    ensures var q := ReleaseThenReserve();
      && DistinctTicks(q) && StrictlySortedBy(q, Tick) && GroupSize(q) == 2 && GroupsMergeable(q)
      && CompactOrdered(q, batchId) == [q[0].(id := batchId(Ids(q)), value := Int(-2))]
  {
    var q := ReleaseThenReserve();
    TickOrder(q[0], q[1]);
    assert q[..2] == q && q[2..] == [];
    var v := ValuesOf(q);
    assert v[..1] == [-5] && [-5][..0] == [];
    assert Sum([-5]) == -5 && Sum(v) == -2;
  }

  lemma AllDue(events: seq<Event>, clock: int)
    requires forall e :: e in events ==> e.time <= clock
    ensures Due(events, clock) == events
  {
    NoneLate(events, clock);
  }

  /** The optimiser changes what an institution decides: three units end up reserved as submitted,
      which leaves too little, and none when compacted. */
  lemma CompactionCanChangeTheVerdict(batchId: BatchId)
    ensures var s, q := TightState(), ReleaseThenReserve();
      && Compactable(q) && DistinctTicks(q)
      && Reference(s, q).Ok? && Reference(s, Compact(q, batchId)).Ok?
      && Reference(s, q).value.outcome.verdict == Verdict(Unknown, Abstain, [ResourceCapacity])
      && Reference(s, Compact(q, batchId)).value.outcome.verdict == Verdict(True, Allow, [])
  {
    var s, q := TightState(), ReleaseThenReserve();
    ReleaseThenReserveIsOneGroup(batchId);
    StrictTicksAreCanonical(q);
    CompactionIsCanonicalAndIdempotent(q, batchId);
    var c := Compact(q, batchId);
    AllDue(q, 10);
    AllDue(c, 10);
    assert q == [q[0]] + [q[1]];
    ExecConcat(s, [q[0]], [q[1]]);
    DeltaStep(s, 1, q[0]);
    DeltaStep(s, 0, q[1]);
    DeltaStep(s, 1, c[0]);
    assert WithReserved(s, 1) == s;
    assert Exec(s, q) == Ok(WithReserved(s, 3)) && Exec(s, c) == Ok(WithReserved(s, 0));
  }

  /** Releasing five and then taking three is not the same as releasing two. */
  lemma MixedSignsCanDiffer()
    ensures ClampFold(1, [-5, 3]) == 3 && Reserve(1, Sum([-5, 3])) == 0 && !MergeSafe(1, [-5, 3])
  {
    var ds := [-5, 3];
    assert ds[..1] == [-5] && [-5][..0] == [] && ds[1..] == [3] && [3][..0] == [];
    assert Sum([-5]) == -5 && Sum([3]) == 3;
    assert ClampFold(1, [-5]) == 0;
    assert Sum(ds[1..]) == 3;
  }
}
