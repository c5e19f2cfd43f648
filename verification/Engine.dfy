/** The deterministic run: schedule, execute up to the decision clock, defer the rest. */
module Engine {
  import opened Ordering
  import opened Sorting
  import opened EventNet
  import opened Scheduling
  import opened Transition
  import opened Evaluation

  type Stepper = (State, Event) -> Result<State>
  type Evaluator = State -> Outcome

  /** A step record keeps the state itself where the repository keeps its digest. */
  datatype Step = Step(eventId: string, op: Op, semantic: Semantic, decision: Decision, state: State)
  datatype Progress = Progress(state: State, steps: seq<Step>)
  datatype Receipt = Receipt(
    ordered: seq<string>, executed: seq<string>, deferred: seq<string>,
    steps: seq<Step>, finalState: State)
  datatype Run = Run(outcome: Outcome, state: State, steps: seq<Step>, receipt: Receipt)

  // What a run is

  function Ids(events: seq<Event>): (ids: seq<string>)
    ensures |ids| == |events| && forall i :: 0 <= i < |ids| ==> ids[i] == events[i].id
  {
    seq(|events|, i requires 0 <= i < |events| => events[i].id)
  }

  /** The events whose time has come, in the given order. */
  function Due(events: seq<Event>, clock: int): seq<Event> {
    if events == [] then []
    else
      var last := events[|events| - 1];
      Due(events[..|events| - 1], clock) + (if last.time > clock then [] else [last])
  }

  function Late(events: seq<Event>, clock: int): seq<Event> {
    if events == [] then []
    else
      var last := events[|events| - 1];
      Late(events[..|events| - 1], clock) + (if last.time > clock then [last] else [])
  }

  function StepOf(e: Event, s: State, o: Outcome): Step {
    Step(e.id, e.op, o.verdict.semantic, o.verdict.decision, s)
  }

  /** Takes the events one after the other, recording a step for each. */
  function Play(initial: State, due: seq<Event>, step: Stepper, evaluate: Evaluator): Result<Progress> {
    if due == [] then Ok(Progress(initial, []))
    else
      var p :- Play(initial, due[..|due| - 1], step, evaluate);
      var e := due[|due| - 1];
      var s :- step(p.state, e);
      Ok(Progress(s, p.steps + [StepOf(e, s, evaluate(s))]))
  }

  function RunOf(initial: State, ordered: seq<Event>, step: Stepper, evaluate: Evaluator): Result<Run> {
    var clock := initial.request.queryTime;
    var p :- Play(initial, Due(ordered, clock), step, evaluate);
    Ok(Run(
      evaluate(p.state), p.state, p.steps,
      Receipt(Ids(ordered), Ids(Due(ordered, clock)), Ids(Late(ordered, clock)), p.steps, p.state)))
  }

  /** Engine A from a submitted queue; the reference for everything below. */
  function Reference(initial: State, events: seq<Event>): Result<Run> {
    RunOf(initial, ScheduleA(events), TransitionA, EvaluateA)
  }

  // The loop of the engine

  method RunEngine(initial: State, ordered: seq<Event>, step: Stepper, evaluate: Evaluator)
    returns (r: Result<Run>)
    ensures r == RunOf(initial, ordered, step, evaluate)
  {
    hide Due, Late, Play;
    var state := initial;
    var clock := initial.request.queryTime;
    PlayNothing(initial, ordered, step, evaluate);
    var executed: seq<string>, deferred: seq<string>, steps := [], [], [];
    var i := 0;
    while i < |ordered|
      invariant 0 <= i <= |ordered|
      invariant executed == Ids(Due(ordered[..i], clock))
      invariant deferred == Ids(Late(ordered[..i], clock))
      invariant Play(initial, Due(ordered[..i], clock), step, evaluate) == Ok(Progress(state, steps))
    {
      var e := ordered[i];
      ghost var due := Due(ordered[..i], clock);
      SplitOneMore(ordered, i, clock);
      i := i + 1;
      if e.time > clock {
        deferred := deferred + [e.id];
        continue;
      }
      PlayOneMore(initial, due, e, step, evaluate);
      var next := step(state, e);
      if next.Err? {
        DueGrows(ordered, i, |ordered|, clock);
        assert ordered[..|ordered|] == ordered;
        PlayStopsAtError(initial, due + [e], Due(ordered, clock), step, evaluate);
        return Err(next.error);
      }
      state := next.value;
      executed := executed + [e.id];
      steps := steps + [StepOf(e, state, evaluate(state))];
    }
    assert ordered[..|ordered|] == ordered;
    r := Ok(Run(
      evaluate(state), state, steps,
      Receipt(Ids(ordered), executed, deferred, steps, state)));
  }

  lemma PlayNothing(s: State, ordered: seq<Event>, step: Stepper, evaluate: Evaluator)
    ensures Due(ordered[..0], s.request.queryTime) == Late(ordered[..0], s.request.queryTime) == []
    ensures Play(s, [], step, evaluate) == Ok(Progress(s, []))
  {
  }

  /** One more event is due or late. */
  lemma SplitOneMore(ordered: seq<Event>, i: nat, clock: int)
    requires i < |ordered|
    ensures var e, due, late := ordered[i], Due(ordered[..i], clock), Late(ordered[..i], clock);
      if e.time > clock then
        && Due(ordered[..i + 1], clock) == due && Late(ordered[..i + 1], clock) == late + [e]
        && Ids(late + [e]) == Ids(late) + [e.id]
      else
        && Due(ordered[..i + 1], clock) == due + [e] && Late(ordered[..i + 1], clock) == late
        && Ids(due + [e]) == Ids(due) + [e.id]
  {
    assert ordered[..i + 1][..i] == ordered[..i];
  }

  lemma PlayOneMore(s: State, due: seq<Event>, e: Event, step: Stepper, evaluate: Evaluator)
    ensures Play(s, due + [e], step, evaluate) ==
      match Play(s, due, step, evaluate)
      case Err(error) => Err(error)
      case Ok(p) =>
        (match step(p.state, e)
         case Err(error) => Err(error)
         case Ok(t) => Ok(Progress(t, p.steps + [StepOf(e, t, evaluate(t))])))
  {
    assert (due + [e])[..|due + [e]| - 1] == due;
  }

  lemma {:induction false} DueGrows(ordered: seq<Event>, i: nat, k: nat, clock: int)
    requires i <= k <= |ordered|
    ensures Due(ordered[..i], clock) <= Due(ordered[..k], clock)
  {
    if i < k {
      DueGrows(ordered, i, k - 1, clock);
      assert ordered[..k][..k - 1] == ordered[..k - 1];
    }
  }

  lemma {:induction false} PlayStopsAtError(s: State, a: seq<Event>, b: seq<Event>, step: Stepper, evaluate: Evaluator)
    requires a <= b && Play(s, a, step, evaluate).Err?
    ensures Play(s, b, step, evaluate) == Play(s, a, step, evaluate)
  {
    if |a| < |b| {
      PlayStopsAtError(s, a, b[..|b| - 1], step, evaluate);
    } else {
      assert a == b;
    }
  }

  /** Both engines run, and a difference between them is reported instead of a result: exactly when
      both runs go through and the guard fails at some step of engine A. */
  method Execute(initial: State, events: seq<Event>) returns (r: Result<(Run, nat)>)
    requires KeysDetermine(events, EventKey)
    ensures var due := Due(ScheduleA(events), initial.request.queryTime);
      match (Reference(initial, events), SecondReference(initial, events))
      case (Ok(run), Ok(_)) => r == if Guarded(initial, due) then Ok((run, |run.steps| + 1)) else Err(Disagreement)
      case (Err(error), _) => r == Err(error) && error != Disagreement
      case (_, Err(error)) => r == Err(error) && error != Disagreement
    ensures CanonicalApprovals(initial) && AllWellTargeted(events) ==> r != Err(Disagreement)
  {
    hide TransitionA, TransitionB, EvaluateA, EvaluateB, RunOf, Guarded, CanonicalApprovals, AllWellTargeted, Sort, Due;
    if CanonicalApprovals(initial) && AllWellTargeted(events) {
      EnginesAgree(initial, events);
    }
    RunErrors(initial, events);
    var left := RunEngine(initial, ScheduleA(events), TransitionA, EvaluateA);
    if left.Err? {
      return Err(left.error);
    }
    var ordered := ScheduleB(events);
    var right := RunEngine(initial, ordered, TransitionB, EvaluateB);
    if right.Err? {
      return Err(right.error);
    }
    RunsAgreeIff(initial, events);
    if left != right {
      return Err(Disagreement);
    }
    r := Ok((left.value, |left.value.steps| + 1));
  }

  /** Engine B from a submitted queue. */
  function SecondReference(initial: State, events: seq<Event>): Result<Run> {
    RunOf(initial, ScheduleA(events), TransitionB, EvaluateB)
  }

  ghost predicate NeverDisagreement(step: Stepper) {
    forall s, e :: step(s, e).Err? ==> step(s, e).error != Disagreement
  }

  lemma {:induction false} PlayErrors(initial: State, due: seq<Event>, step: Stepper, evaluate: Evaluator)
    requires NeverDisagreement(step)
    ensures var p := Play(initial, due, step, evaluate); p.Err? ==> p.error != Disagreement
  {
    if due != [] {
      PlayErrors(initial, due[..|due| - 1], step, evaluate);
    }
  }

  lemma RunErrors(initial: State, events: seq<Event>)
    ensures var r := Reference(initial, events); r.Err? ==> r.error != Disagreement
    ensures var r := SecondReference(initial, events); r.Err? ==> r.error != Disagreement
  {
    var due := Due(ScheduleA(events), initial.request.queryTime);
    PlayErrors(initial, due, TransitionA, EvaluateA);
    PlayErrors(initial, due, TransitionB, EvaluateB);
  }

  ghost predicate RunsAgree(initial: State, events: seq<Event>) {
    Reference(initial, events) == SecondReference(initial, events)
  }

  // The two engines in lockstep

  ghost predicate AllWellTargeted(events: seq<Event>) {
    forall e :: e in events ==> WellTargeted(e)
  }

  /** Stepping both engines through the same events keeps them equal and approvals canonical. */
  lemma {:induction false} Lockstep(initial: State, due: seq<Event>)
    requires CanonicalApprovals(initial) && AllWellTargeted(due)
    ensures Play(initial, due, TransitionA, EvaluateA) == Play(initial, due, TransitionB, EvaluateB)
    ensures var p := Play(initial, due, TransitionA, EvaluateA); p.Ok? ==> CanonicalApprovals(p.value.state)
  {
    if due != [] {
      var e := due[|due| - 1];
      Lockstep(initial, due[..|due| - 1]);
      var p := Play(initial, due[..|due| - 1], TransitionA, EvaluateA);
      if p.Ok? {
        assert e in due;
        TransitionsAgree(p.value.state, e);
        var s := TransitionA(p.value.state, e);
        if s.Ok? {
          EvaluatorsAgree(s.value);
        }
      }
    }
  }

  /** The guard holds at every step that engine A reaches. */
  ghost predicate Guarded(initial: State, due: seq<Event>) {
    forall k :: 0 <= k < |due| ==> GuardedAt(initial, due[..k], due[k])
  }

  ghost predicate GuardedAt(initial: State, before: seq<Event>, e: Event) {
    var p := Play(initial, before, TransitionA, EvaluateA);
    p.Ok? ==> AgreementGuard(p.value.state, e)
  }

  lemma GuardedSnoc(initial: State, front: seq<Event>, e: Event)
    ensures Guarded(initial, front + [e]) <==> Guarded(initial, front) && GuardedAt(initial, front, e)
  {
    hide GuardedAt;
    var due := front + [e];
    assert due[..|front|] == front;
    forall k | 0 <= k < |front|
      ensures due[..k] == front[..k] && due[k] == front[k]
    {
    }
    if Guarded(initial, due) {
      assert GuardedAt(initial, due[..|front|], due[|front|]);
      forall k | 0 <= k < |front|
        ensures GuardedAt(initial, front[..k], front[k])
      {
        assert GuardedAt(initial, due[..k], due[k]);
      }
    }
  }

  /** The trace ends in the state that is played on. */
  lemma StateIsLast(initial: State, due: seq<Event>, step: Stepper, evaluate: Evaluator)
    ensures var p := Play(initial, due, step, evaluate); p.Ok? ==>
      p.value.state == if p.value.steps == [] then initial else p.value.steps[|p.value.steps| - 1].state
  {
    StepsFollowEvents(initial, due, step, evaluate);
  }

  /** Where engine A goes through, engine B does the same exactly when the guard holds all along. */
  lemma {:induction false} LockstepIff(initial: State, due: seq<Event>)
    requires Play(initial, due, TransitionA, EvaluateA).Ok?
    ensures Play(initial, due, TransitionA, EvaluateA) == Play(initial, due, TransitionB, EvaluateB)
       <==> Guarded(initial, due)
  {
    hide AgreementGuard, TransitionA, TransitionB;
    if due != [] {
      var front, e := due[..|due| - 1], due[|due| - 1];
      assert due == front + [e];
      LockstepIff(initial, front);
      GuardedSnoc(initial, front, e);
      var p, q := Play(initial, front, TransitionA, EvaluateA), Play(initial, front, TransitionB, EvaluateB);
      TransitionsAgreeIff(p.value.state, e);
      EvaluatorsAgree(TransitionA(p.value.state, e).value);
      if Play(initial, due, TransitionA, EvaluateA) == Play(initial, due, TransitionB, EvaluateB) {
        StateIsLast(initial, front, TransitionA, EvaluateA);
        StateIsLast(initial, front, TransitionB, EvaluateB);
        SameFront(p.value, q.value, e, TransitionA(p.value.state, e).value, TransitionB(q.value.state, e).value);
      }
    }
  }

  lemma SameFront(p: Progress, q: Progress, e: Event, s: State, t: State)
    requires p.steps + [StepOf(e, s, EvaluateA(s))] == q.steps + [StepOf(e, t, EvaluateB(t))]
    ensures p.steps == q.steps && s == t
  {
    var a, b := p.steps + [StepOf(e, s, EvaluateA(s))], q.steps + [StepOf(e, t, EvaluateB(t))];
    assert |a| == |b|;
    assert p.steps == a[..|a| - 1] && q.steps == b[..|b| - 1];
    assert a[|a| - 1] == b[|b| - 1];
  }

  /** Whole runs: for every initial state and queue that engine A takes through, the engines agree
      exactly when the guard holds at each state the run reaches. */
  lemma RunsAgreeIff(initial: State, events: seq<Event>)
    requires Reference(initial, events).Ok?
    ensures RunsAgree(initial, events) <==> Guarded(initial, Due(ScheduleA(events), initial.request.queryTime))
  {
    hide Guarded;
    var due := Due(ScheduleA(events), initial.request.queryTime);
    LockstepIff(initial, due);
    StateIsLast(initial, due, TransitionA, EvaluateA);
    StateIsLast(initial, due, TransitionB, EvaluateB);
    EvaluatorsAgree(Reference(initial, events).value.state);
  }

  lemma {:induction false} DueMembers(events: seq<Event>, clock: int)
    ensures forall e :: e in Due(events, clock) <==> e in events && e.time <= clock
    ensures forall e :: e in Late(events, clock) <==> e in events && e.time > clock
  {
    if events != [] {
      DueMembers(events[..|events| - 1], clock);
      assert events == events[..|events| - 1] + [events[|events| - 1]];
    }
  }

  /** The engines never disagree: not in outcome, state, steps, receipt or error. */
  lemma EnginesAgree(initial: State, events: seq<Event>)
    requires CanonicalApprovals(initial) && AllWellTargeted(events)
    ensures RunsAgree(initial, events)
  {
    var ordered := ScheduleA(events);
    var clock := initial.request.queryTime;
    SortMembers(events, EventKey);
    DueMembers(ordered, clock);
    Lockstep(initial, Due(ordered, clock));
    var p := Play(initial, Due(ordered, clock), TransitionA, EvaluateA);
    if p.Ok? {
      EvaluatorsAgree(p.value.state);
    }
  }

  // The decision clock

  /** In a scheduled queue nothing due follows anything late. */
  lemma {:induction false} ClockSplitsSchedule(ordered: seq<Event>, clock: int)
    requires SortedBy(ordered, EventKey)
    ensures ordered == Due(ordered, clock) + Late(ordered, clock)
  {
    if ordered != [] {
      var front, last := ordered[..|ordered| - 1], ordered[|ordered| - 1];
      ClockSplitsSchedule(front, clock);
      assert ordered == front + [last];
      if last.time <= clock {
        NothingLateBefore(ordered, clock);
      }
    }
  }

  lemma NothingLateBefore(ordered: seq<Event>, clock: int)
    requires SortedBy(ordered, EventKey)
    requires ordered != [] && ordered[|ordered| - 1].time <= clock
    ensures Late(ordered[..|ordered| - 1], clock) == []
  {
    var front, last := ordered[..|ordered| - 1], ordered[|ordered| - 1];
    DueMembers(front, clock);
    forall e | e in front
      ensures e.time <= clock
    {
      var i :| 0 <= i < |front| && front[i] == e;
      EventKeyOrder(last, ordered[i]);
    }
    NoneLate(front, clock);
  }

  lemma {:induction false} NoneLate(events: seq<Event>, clock: int)
    requires forall e :: e in events ==> e.time <= clock
    ensures Late(events, clock) == [] && Due(events, clock) == events
  {
    if events != [] {
      NoneLate(events[..|events| - 1], clock);
      assert events == events[..|events| - 1] + [events[|events| - 1]];
    }
  }

  lemma IdsOfConcat(a: seq<Event>, b: seq<Event>)
    ensures Ids(a + b) == Ids(a) + Ids(b)
  {
  }

  lemma {:induction false} AllLate(events: seq<Event>, clock: int)
    requires forall e :: e in events ==> e.time > clock
    ensures Due(events, clock) == [] && Late(events, clock) == events
  {
    if events != [] {
      AllLate(events[..|events| - 1], clock);
      assert events == events[..|events| - 1] + [events[|events| - 1]];
    }
  }

  lemma {:induction false} DueConcat(a: seq<Event>, b: seq<Event>, clock: int)
    ensures Due(a + b, clock) == Due(a, clock) + Due(b, clock)
  {
    if b == [] {
      assert a + b == a;
    } else {
      var n := |b| - 1;
      DueConcat(a, b[..n], clock);
      assert (a + b)[..|a + b| - 1] == a + b[..n];
    }
  }

  /** Every receipt lists the executed identifiers, then the deferred ones. */
  lemma ReceiptSplitsAtClock(initial: State, events: seq<Event>)
    ensures var r := Reference(initial, events); r.Ok? ==>
      && r.value.receipt.ordered == r.value.receipt.executed + r.value.receipt.deferred
      && |r.value.receipt.executed| == |r.value.steps|
      && forall i :: 0 <= i < |r.value.steps| ==> r.value.steps[i].eventId == r.value.receipt.executed[i]
  {
    SortCorrect(events, EventKey);
    var clock := initial.request.queryTime;
    var ordered := ScheduleA(events);
    ClockSplitsSchedule(ordered, clock);
    IdsOfConcat(Due(ordered, clock), Late(ordered, clock));
    StepsFollowEvents(initial, Due(ordered, clock), TransitionA, EvaluateA);
    var p := Play(initial, Due(ordered, clock), TransitionA, EvaluateA);
    if p.Ok? {
      var r := Reference(initial, events).value;
      assert r.steps == p.value.steps && r.receipt.executed == Ids(Due(ordered, clock));
    }
  }

  /** What a receipt lists: the submitted events by their keys, up to the clock as executed and after it as
      deferred. */
  lemma ReceiptIsSchedule(initial: State, events: seq<Event>) returns (q: seq<Event>, n: nat)
    ensures SortedBy(q, EventKey) && multiset(q) == multiset(events) && n <= |q|
    ensures forall e :: e in q[..n] ==> e.time <= initial.request.queryTime
    ensures forall e :: e in q[n..] ==> e.time > initial.request.queryTime
    ensures Reference(initial, events).Ok? ==> var receipt := Reference(initial, events).value.receipt;
      receipt.ordered == Ids(q) && receipt.executed == Ids(q[..n]) && receipt.deferred == Ids(q[n..])
  {
    var clock := initial.request.queryTime;
    q := ScheduleA(events);
    n := |Due(q, clock)|;
    SortCorrect(events, EventKey);
    ClockSplitsSchedule(q, clock);
    DueMembers(q, clock);
    assert q[..n] == Due(q, clock) && q[n..] == Late(q, clock);
  }

  lemma {:induction false} StepsFollowEvents(s: State, due: seq<Event>, step: Stepper, evaluate: Evaluator)
    ensures var p := Play(s, due, step, evaluate); p.Ok? ==>
      |p.value.steps| == |due| && forall i :: 0 <= i < |due| ==> p.value.steps[i].eventId == due[i].id
  {
    if due != [] {
      StepsFollowEvents(s, due[..|due| - 1], step, evaluate);
    }
  }

  lemma {:induction false} DueCount(events: seq<Event>, clock: int, e: Event)
    ensures multiset(Due(events, clock))[e] == if e.time <= clock then multiset(events)[e] else 0
  {
    if events != [] {
      DueCount(events[..|events| - 1], clock, e);
      assert events == events[..|events| - 1] + [events[|events| - 1]];
    }
  }

  lemma DuePermutes(s: seq<Event>, t: seq<Event>, clock: int)
    requires multiset(s) == multiset(t)
    ensures multiset(Due(s, clock)) == multiset(Due(t, clock))
  {
    forall e
      ensures multiset(Due(s, clock))[e] == multiset(Due(t, clock))[e]
    {
      DueCount(s, clock, e);
      DueCount(t, clock, e);
    }
  }

  lemma {:induction false} DueStaysSorted(ordered: seq<Event>, clock: int)
    requires SortedBy(ordered, EventKey)
    ensures SortedBy(Due(ordered, clock), EventKey)
  {
    if ordered != [] {
      var front, last := ordered[..|ordered| - 1], ordered[|ordered| - 1];
      DueStaysSorted(front, clock);
      DueMembers(front, clock);
      forall e | e in Due(front, clock)
        ensures !Less(EventKey(last), EventKey(e))
      {
        var i :| 0 <= i < |front| && front[i] == e;
        assert ordered[i] == e;
      }
    }
  }

  /** What is executed is the canonical order of what is due. */
  lemma DueOfSchedule(events: seq<Event>, clock: int)
    requires KeysDetermine(Due(events, clock), EventKey)
    ensures Due(ScheduleA(events), clock) == ScheduleA(Due(events, clock))
  {
    SortCorrect(events, EventKey);
    DuePermutes(events, ScheduleA(events), clock);
    DueStaysSorted(ScheduleA(events), clock);
    ScheduleIsUnique(Due(events, clock), Due(ScheduleA(events), clock));
  }

  /** Late events are inert: two queues that agree on what is due have the same outcome, state,
      steps and executed identifiers, whatever else either of them holds. */
  lemma LateEventsAreInert(initial: State, events: seq<Event>, others: seq<Event>)
    requires var clock := initial.request.queryTime;
      && KeysDetermine(Due(events, clock), EventKey)
      && multiset(Due(events, clock)) == multiset(Due(others, clock))
    ensures match (Reference(initial, events), Reference(initial, others))
      case (Ok(r), Ok(q)) =>
        r.outcome == q.outcome && r.state == q.state && r.steps == q.steps
        && r.receipt.executed == q.receipt.executed
      case (Err(d), Err(e)) => d == e
      case _ => false
  {
    var clock := initial.request.queryTime;
    KeysDetermineTransfer(Due(events, clock), Due(others, clock), EventKey);
    DueOfSchedule(events, clock);
    DueOfSchedule(others, clock);
    SortPermutationInvariant(Due(events, clock), Due(others, clock), EventKey);
  }

  // Renaming the requester

  function Rename(s: State, id: string): State {
    s.(actors := s.actors.(requester := s.actors.requester.(actorId := id)))
  }

  function RenameOutcome(o: Outcome, id: string): Outcome
    requires o.authorityPath != []
  {
    o.(authorityPath := o.authorityPath[0 := id])
  }

  function RenameSteps(steps: seq<Step>, id: string): (r: seq<Step>)
    ensures |r| == |steps|
  {
    if steps == [] then []
    else
      var last := steps[|steps| - 1];
      RenameSteps(steps[..|steps| - 1], id) + [last.(state := Rename(last.state, id))]
  }

  lemma {:induction false} RenameStepsKeepsDecisions(steps: seq<Step>, id: string)
    ensures forall i :: 0 <= i < |steps| ==>
      RenameSteps(steps, id)[i] == steps[i].(state := Rename(steps[i].state, id))
  {
    if steps != [] {
      RenameStepsKeepsDecisions(steps[..|steps| - 1], id);
    }
  }

  lemma RenameCommutesWithTransition(s: State, e: Event, id: string)
    ensures TransitionA(Rename(s, id), e) ==
      match TransitionA(s, e) case Ok(t) => Ok(Rename(t, id)) case Err(error) => Err(error)
  {
    match e.op {
      case Set(_) =>
      case _ =>
    }
  }

  lemma RenameCommutesWithVerdict(s: State, id: string)
    ensures VerdictA(Rename(s, id)) == VerdictA(s)
    ensures EvaluateA(Rename(s, id)) == RenameOutcome(EvaluateA(s), id)
  {
  }

  lemma {:induction false} RenameCommutesWithPlay(s: State, due: seq<Event>, id: string)
    ensures Play(Rename(s, id), due, TransitionA, EvaluateA) ==
      match Play(s, due, TransitionA, EvaluateA)
      case Ok(p) => Ok(Progress(Rename(p.state, id), RenameSteps(p.steps, id)))
      case Err(error) => Err(error)
  {
    if due != [] {
      var front, e := due[..|due| - 1], due[|due| - 1];
      RenameCommutesWithPlay(s, front, id);
      var p := Play(s, front, TransitionA, EvaluateA);
      if p.Ok? {
        RenameCommutesWithTransition(p.value.state, e, id);
        var t := TransitionA(p.value.state, e);
        if t.Ok? {
          RenameCommutesWithVerdict(t.value, id);
          var step := StepOf(e, t.value, EvaluateA(t.value));
          assert (p.value.steps + [step])[..|p.value.steps|] == p.value.steps;
        }
      }
    }
  }

  function RenameRun(r: Run, id: string): Run
    requires r.outcome.authorityPath != []
  {
    var steps, state := RenameSteps(r.steps, id), Rename(r.state, id);
    Run(RenameOutcome(r.outcome, id), state, steps, r.receipt.(steps := steps, finalState := state))
  }

  /** Shuffling the submission order and renaming the requester changes nothing in a run except
      that identifier: same order, same executed and deferred ids, same decisions. */
  lemma ShuffleAndRenameInvariant(initial: State, events: seq<Event>, shuffled: seq<Event>, id: string)
    requires KeysDetermine(events, EventKey) && multiset(events) == multiset(shuffled)
    ensures Reference(Rename(initial, id), shuffled) ==
      match Reference(initial, events)
      case Ok(r) => Ok(RenameRun(r, id))
      case Err(error) => Err(error)
  {
    SortPermutationInvariant(events, shuffled, EventKey);
    var due := Due(ScheduleA(events), initial.request.queryTime);
    RenameCommutesWithPlay(initial, due, id);
    var p := Play(initial, due, TransitionA, EvaluateA);
    if p.Ok? {
      RenameCommutesWithVerdict(p.value.state, id);
    }
  }
}
