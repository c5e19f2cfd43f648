/** Every generated pair does what its class claims, for every index, name and hash choice. */
module Counterfactuals {
  import opened Ordering
  import opened Sorting
  import opened EventNet
  import opened Scheduling
  import opened Transition
  import opened Evaluation
  import opened Engine
  import opened ClosedForm
  import opened Compaction
  import opened Generators

  // Runs from a known arrangement of the due events

  lemma {:induction false} ReversePermutes(events: seq<Event>)
    ensures multiset(Reverse(events)) == multiset(events)
  {
    if events != [] {
      ReversePermutes(events[1..]);
      assert events == [events[0]] + events[1..];
    }
  }

  /** The outcome depends only on the due events, taken in tick order. */
  lemma RunOfArrangement(s: State, events: seq<Event>, due: seq<Event>)
    requires StrictlySortedBy(due, Tick)
    requires multiset(due) == multiset(Due(events, s.request.queryTime))
    ensures Reference(s, events).Ok? <==> Exec(s, due).Ok?
    ensures Exec(s, due).Ok? ==>
      Reference(s, events).value.state == Exec(s, due).value
      && Reference(s, events).value.outcome == EvaluateA(Exec(s, due).value)
      && Reference(s, events).value.receipt.executed == Ids(due)
  {
    var clock := s.request.queryTime;
    StrictTicksAreCanonical(due);
    StrictIsSorted(due, EventKey);
    KeysDetermineTransfer(due, Due(events, clock), EventKey);
    DueOfSchedule(events, clock);
    SortIs(Due(events, clock), due, EventKey);
  }

  /** A reversed submission of early events followed by late ones has the early ones due. */
  lemma DueOfSubmission(early: seq<Event>, late: seq<Event>, clock: int)
    requires forall e :: e in early ==> e.time <= clock
    requires forall e :: e in late ==> e.time > clock
    ensures multiset(Due(Reverse(early + late), clock)) == multiset(early)
  {
    ReversePermutes(early + late);
    DuePermutes(early + late, Reverse(early + late), clock);
    DueConcat(early, late, clock);
    NoneLate(early, clock);
    AllLate(late, clock);
  }

  lemma ExecCons(s: State, e: Event, rest: seq<Event>)
    ensures Exec(s, [e] + rest) == match TransitionA(s, e) case Ok(t) => Exec(t, rest) case Err(error) => Err(error)
  {
    ExecOne(s, e);
    ExecConcat(s, [e], rest);
  }

  lemma AddPresent(s: State, e: Event)
    requires e.op.AddApproval? && e.value.Text? && e.value.s in s.workflow.approvals && CanonicalApprovals(s)
    ensures TransitionA(s, e) == Ok(s)
  {
    StrictIsSorted(s.workflow.approvals, Codes);
    SortIs(s.workflow.approvals, s.workflow.approvals, Codes);
  }

  // The five common events

  /** The state after the common events. */
  function Settled(s: State): State {
    s.(routing := s.routing.(accepted := true),
       evidence := s.evidence.(receivedAt := Some(s.request.queryTime - 5)),
       resources := s.resources.(reserved := Reserve(s.resources.reserved, 1)))
  }

  ghost predicate Generated(s: State) {
    && s.workflow.requiredApprovals != []
    && s.workflow.requiredApprovals[0] in s.workflow.approvals
    && CanonicalApprovals(s)
  }

  lemma ExecFive(s: State, c: seq<Event>, s1: State, s2: State, s3: State, s4: State, s5: State)
    requires |c| == 5
    requires TransitionA(s, c[0]) == Ok(s1) && TransitionA(s1, c[1]) == Ok(s2) && TransitionA(s2, c[2]) == Ok(s3)
    requires TransitionA(s3, c[3]) == Ok(s4) && TransitionA(s4, c[4]) == Ok(s5)
    ensures Exec(s, c) == Ok(s5)
  {
    assert c == [c[0]] + c[1..] && c[1..] == [c[1]] + c[2..] && c[2..] == [c[2]] + c[3..];
    assert c[3..] == [c[3]] + [c[4]];
    ExecCons(s, c[0], c[1..]);
    ExecCons(s1, c[1], c[2..]);
    ExecCons(s2, c[2], c[3..]);
    ExecCons(s3, c[3], [c[4]]);
    ExecOne(s4, c[4]);
  }

  lemma CommonStart(s: State, ids: EventIds)
    requires Generated(s)
    ensures TransitionA(s, CommonEvents(s, ids)[0]) == Ok(s)
    ensures TransitionA(s, CommonEvents(s, ids)[1]) == Ok(s)
  {
    AddPresent(s, CommonEvents(s, ids)[1]);
  }

  lemma CommonRun(s: State, ids: EventIds)
    requires Generated(s)
    ensures Exec(s, CommonEvents(s, ids)) == Ok(Settled(s))
  {
    var s2 := Write(s, RouteAccepted, Bool(true));
    var s3 := Write(s2, EvidenceReceivedAt, Int(s.request.queryTime - 5));
    CommonStart(s, ids);
    var e := CommonEvents(s, ids)[4];
    assert e.op == AdjustReservation && e.value == Int(1);
    ExecFive(s, CommonEvents(s, ids), s, s, s2, s3, Settled(s));
  }

  lemma FutureIsLate(s: State, ids: EventIds, count: nat)
    requires s.workflow.requiredApprovals != [] && 1 <= count <= 3
    ensures forall e :: e in DecisionClockEvents(s, ids, count) ==> e.time > s.request.queryTime
  {
  }

  lemma CommonIsEarly(s: State, ids: EventIds)
    requires s.workflow.requiredApprovals != []
    ensures forall e :: e in CommonEvents(s, ids) ==> e.time <= s.request.queryTime - 2
    ensures StrictlySortedBy(CommonEvents(s, ids), Tick)
  {
    var c := CommonEvents(s, ids);
    forall i, j | 0 <= i < j < |c|
      ensures Less(Tick(c[i]), Tick(c[j]))
    {
      TickOrder(c[i], c[j]);
    }
  }

  lemma InitialIsGenerated(c: Config, pairIndex: nat, pack: DomainPack, names: Names, familyId: nat, index: nat, m: Mechanism)
    requires pack.workflows != [] && pack.jurisdictions != []
    requires c == InstitutionConfig(pack, names, familyId, index)
    ensures Generated(InitialState(c, pairIndex)) && Generated(Prepared(m, InitialState(c, pairIndex)))
    ensures Institutional(InitialState(c, pairIndex)) && Institutional(Prepared(m, InitialState(c, pairIndex)))
  {
    var a := c.requiredApprovals;
    assert a[0][0] == 'd' && (a[1][0] == 'r');
    assert Codes(a[0])[0] == 'd' as int && Codes(a[1])[0] == 'r' as int;
    assert Less(Codes(a[0]), Codes(a[1]));
    assert StrictlySortedBy(a, Codes);
  }

  /** Submitting early events and late ones in reverse executes the early ones in tick order. */
  lemma SubmissionRun(s: State, early: seq<Event>, late: seq<Event>, due: seq<Event>)
    requires forall e :: e in early ==> e.time <= s.request.queryTime
    requires forall e :: e in late ==> e.time > s.request.queryTime
    requires multiset(due) == multiset(early) && StrictlySortedBy(due, Tick)
    ensures var r := Reference(s, Reverse(early + late));
      && (r.Ok? <==> Exec(s, due).Ok?)
      && (r.Ok? ==> r.value.outcome == EvaluateA(Exec(s, due).value)
                    && r.value.state == Exec(s, due).value
                    && r.value.receipt.executed == Ids(due))
  {
    DueOfSubmission(early, late, s.request.queryTime);
    RunOfArrangement(s, Reverse(early + late), due);
  }

  /** After the common events, extras that fall due later act on the settled state. */
  lemma CommonThen(s: State, ids: EventIds, due: seq<Event>)
    requires Generated(s) && StrictlySortedBy(due, Tick)
    requires forall e :: e in due ==> s.request.queryTime - 2 < e.time
    ensures Exec(s, CommonEvents(s, ids) + due) == Exec(Settled(s), due)
    ensures StrictlySortedBy(CommonEvents(s, ids) + due, Tick)
  {
    var c := CommonEvents(s, ids);
    CommonIsEarly(s, ids);
    CommonRun(s, ids);
    ExecConcat(s, c, due);
    forall i, j | 0 <= i < j < |c + due|
      ensures Less(Tick((c + due)[i]), Tick((c + due)[j]))
    {
      if i < |c| <= j {
        assert c[i] in c && due[j - |c|] in due;
        TickOrder(c[i], due[j - |c|]);
      }
    }
  }

  /** The general shape of a generated run: common events, extras that fall due after them, and
      whatever lies beyond the clock. */
  lemma TrialRun(s: State, ids: EventIds, extras: seq<Event>, late: seq<Event>, due: seq<Event>)
    requires Generated(s) && StrictlySortedBy(due, Tick) && multiset(due) == multiset(extras)
    requires forall e :: e in extras ==> s.request.queryTime - 2 < e.time <= s.request.queryTime
    requires forall e :: e in late ==> e.time > s.request.queryTime
    ensures var r := Reference(s, Reverse(CommonEvents(s, ids) + extras + late));
      && (r.Ok? <==> Exec(Settled(s), due).Ok?)
      && (r.Ok? ==> r.value.outcome == EvaluateA(Exec(Settled(s), due).value)
                    && r.value.state == Exec(Settled(s), due).value
                    && r.value.receipt.executed == Ids(CommonEvents(s, ids) + due))
  {
    var c := CommonEvents(s, ids);
    CommonIsEarly(s, ids);
    forall e | e in due
      ensures s.request.queryTime - 2 < e.time
    {
      assert e in multiset(due) && e in multiset(extras);
    }
    CommonThen(s, ids, due);
    assert multiset(c + due) == multiset(c + extras);
    SubmissionRun(s, c + extras, late, c + due);
  }

  // The twenty mechanisms

  /** The decision each intervention is meant to cause. */
  function Flip(m: Mechanism): Decision {
    match m
    case ConflictAssertion | UnresolvedAppeal => Decision.Contested
    case MalformedRequestPair => Decision.Invalid
    case DelayedEvidence | ApprovalWithdrawal | ResourceContention | QuorumFailure
       | ReportingDeadline | BudgetEncumbrance => Abstain
    case _ => Deny
  }

  /** The gate each intervention is meant to trip. */
  function Tripped(m: Mechanism): Gate {
    match m
    case RevocationPropagation | PriorityRace => AuthorityGate
    case DelayedEvidence => EvidenceUnavailable
    case ApprovalWithdrawal => WorkflowApproval
    case ResourceContention => ResourceCapacity
    case PolicyChange => PolicyGate
    case RoutingRejection | JurisdictionShift => RoutingOrJurisdiction
    case ConflictAssertion | UnresolvedAppeal => UnresolvedContest
    case MalformedRequestPair => MalformedRequest
    case EvidenceExpiry => EvidenceFalseOrExpired
    case ConsentWithdrawal => ConsentGate
    case QuorumFailure => QuorumGate
    case ChainOfCustodyBreak => EvidenceCustody
    case ConditionalDelegation => DelegationConditionGate
    case ReportingDeadline => ReportingObligation
    case BudgetEncumbrance => BudgetCapacity
    case QualityHoldPair => QualityHold
    case RecallIncompletion => RecallIncomplete
  }

  /** Everything about a prepared state that the twenty arguments use. */
  ghost predicate Poised(m: Mechanism, s: State) {
    && Generated(s) && Institutional(s)
    && s.request.wellFormed && !s.conflict && !s.workflow.appealOpen && s.workflow.appealResolved
    && s.authority.active && !s.authority.revoked && s.authority.scopeMatch
    && s.actors.requester.rank >= s.authority.requiredRank
    && s.authority.validFrom <= s.request.queryTime <= s.authority.validTo
    && s.delegationCondition == DelegationCondition(true, true)
    && s.consent == Consent(true, true)
    && s.routing.accepted && s.routing.jurisdictionMatch
    && (m.RoutingRejection? || m.JurisdictionShift? ==> s.routing.required)
    && s.policy.allows && s.policy.version == s.request.requiredPolicyVersion
    && s.policy.effectiveAt <= s.request.queryTime
    && s.evidence.validUntil.Some? && s.request.queryTime <= s.evidence.validUntil.value
    && s.evidence.status == (if m.DelayedEvidence? then Missing else True)
    && s.custody == Custody(true, true)
    && s.workflow.approvals == s.workflow.requiredApprovals
    && s.decisionBody == DecisionBody(2, 2)
    && s.obligation == Obligation(true, s.request.queryTime - 1, Some(s.request.queryTime - 2))
    && 0 < s.budget.required <= s.budget.available && s.budget.encumbered == 0
    && !s.quality.holdActive && s.quality.recallComplete
    && (m.RecallIncompletion? ==> s.quality.recallRequired)
    && 0 < s.resources.demand && s.resources.demand + 2 <= s.resources.capacity && s.resources.reserved == 1
  }

  lemma InitialIsPoised(pack: DomainPack, names: Names, familyId: nat, index: nat, pairIndex: nat, m: Mechanism)
    requires pack.workflows != [] && pack.jurisdictions != []
    ensures Poised(m, Prepared(m, InitialState(InstitutionConfig(pack, names, familyId, index), pairIndex)))
  {
    InitialIsGenerated(InstitutionConfig(pack, names, familyId, index), pairIndex, pack, names, familyId, index, m);
  }

  /** A run that ends in ALLOW, and one that ends in the given decision at the given gate. */
  ghost predicate Allows(r: Result<Run>) {
    r.Ok? && r.value.outcome.verdict == Verdict(True, Allow, [])
  }

  ghost predicate FailsAt(r: Result<Run>, d: Decision, g: Gate) {
    r.Ok? && r.value.outcome.verdict.decision == d && r.value.outcome.verdict.failed == [g]
  }

  /** The generated submission runs through and ends in state u. */
  ghost predicate Ends(p: State, ids: EventIds, x: seq<Event>, late: seq<Event>, u: State)
    requires p.workflow.requiredApprovals != []
  {
    EndsIn(Reference(p, Reverse(CommonEvents(p, ids) + x + late)), u)
  }

  ghost predicate EndsIn(r: Result<Run>, u: State) {
    r.Ok? && r.value.state == u && r.value.outcome == EvaluateA(u)
  }

  /** What the common events leave of a prepared state: fresh evidence and a second reservation. */
  function Refreshed(p: State): State {
    p.(evidence := p.evidence.(receivedAt := Some(p.request.queryTime - 5)),
       resources := p.resources.(reserved := 2))
  }

  /** The state in which the base run of each mechanism is meant to end. */
  function BaseEnding(m: Mechanism, p: State): State {
    var t, now := Refreshed(p), p.request.queryTime;
    match m
    case DelayedEvidence => t.(evidence := t.evidence.(status := True, receivedAt := Some(now - 1)))
    case EvidenceExpiry => t.(evidence := t.evidence.(validUntil := Some(now + 4)))
    case ReportingDeadline => t.(obligation := t.obligation.(reportedAt := Some(now - 1)))
    case _ => t
  }

  /** And the state in which its intervention run is meant to end. */
  function ChangedEnding(m: Mechanism, p: State): State
    requires p.workflow.requiredApprovals != []
  {
    var t, required := Refreshed(p), p.workflow.requiredApprovals;
    match m
    case RevocationPropagation | PriorityRace => t.(authority := t.authority.(revoked := true))
    case DelayedEvidence => t
    case ApprovalWithdrawal => t.(workflow := t.workflow.(approvals := required[..|required| - 1]))
    case ResourceContention => t.(resources := t.resources.(reserved := 2 + p.resources.capacity))
    case PolicyChange => t.(policy := t.policy.(allows := false))
    case RoutingRejection => t.(routing := t.routing.(accepted := false))
    case JurisdictionShift => t.(routing := t.routing.(jurisdictionMatch := false))
    case ConflictAssertion => t.(conflict := true)
    case MalformedRequestPair => t.(request := t.request.(wellFormed := false))
    case EvidenceExpiry => t.(evidence := t.evidence.(validUntil := Some(p.request.queryTime - 1)))
    case UnresolvedAppeal => t.(workflow := t.workflow.(appealOpen := true, appealResolved := false))
    case ConsentWithdrawal => t.(consent := t.consent.(active := false))
    case QuorumFailure => t.(decisionBody := t.decisionBody.(votesPresent := 1))
    case ChainOfCustodyBreak => t.(custody := t.custody.(chainIntact := false))
    case ConditionalDelegation => t.(delegationCondition := t.delegationCondition.(satisfied := false))
    case ReportingDeadline => t.(obligation := t.obligation.(reportedAt := None))
    case BudgetEncumbrance => t.(budget := t.budget.(encumbered := p.budget.available))
    case QualityHoldPair => t.(quality := t.quality.(holdActive := true))
    case RecallIncompletion => t.(quality := t.quality.(recallComplete := false))
  }

  lemma BaseEndingAllows(m: Mechanism, p: State)
    requires Poised(m, p)
    ensures VerdictA(BaseEnding(m, p)) == Verdict(True, Allow, [])
  {
  }

  lemma ChangedEndingFails(m: Mechanism, p: State)
    requires Poised(m, p)
    ensures VerdictA(ChangedEnding(m, p)).decision == Flip(m) && VerdictA(ChangedEnding(m, p)).failed == [Tripped(m)]
  {
    if m.ApprovalWithdrawal? {
      LastIsMissing(p.workflow.requiredApprovals);
    }
  }

  /** A strictly sorted list without its last element, element by element. */
  lemma {:induction false} LastIsMissing(items: seq<string>)
    requires items != [] && StrictlySortedBy(items, Codes)
    ensures Without(items, items[|items| - 1]) == items[..|items| - 1]
    ensures items[|items| - 1] !in items[..|items| - 1]
  {
    var last := items[|items| - 1];
    LessIrreflexive(Codes(last));
    if |items| > 1 {
      LastIsMissing(items[1..]);
      assert items[1..][|items| - 2] == last && items[0] in items[..|items| - 1];
      assert [items[0]] + items[1..][..|items| - 2] == items[..|items| - 1];
    }
  }

  lemma SettledIsRefreshed(m: Mechanism, p: State)
    requires Poised(m, p)
    ensures Settled(p) == Refreshed(p)
  {
  }

  /** The mechanisms that differ in one written value. */
  function Pivot(m: Mechanism, s: State): Option<(Field, Value, Value)> {
    var now := s.request.queryTime;
    match m
    case RevocationPropagation => Some((DelegationRevoked, Bool(false), Bool(true)))
    case PolicyChange => Some((PolicyAllowed, Bool(true), Bool(false)))
    case RoutingRejection => Some((RouteAccepted, Bool(true), Bool(false)))
    case JurisdictionShift => Some((Field.JurisdictionMatch, Bool(true), Bool(false)))
    case ConflictAssertion => Some((Conflict, Bool(false), Bool(true)))
    case MalformedRequestPair => Some((RequestWellFormed, Bool(true), Bool(false)))
    case EvidenceExpiry => Some((EvidenceValidUntil, Int(now + 4), Int(now - 1)))
    case ConsentWithdrawal => Some((ConsentActive, Bool(true), Bool(false)))
    case QuorumFailure => Some((VotesPresent, Int(s.decisionBody.quorumRequired), Int(s.decisionBody.quorumRequired - 1)))
    case ChainOfCustodyBreak => Some((CustodyIntact, Bool(true), Bool(false)))
    case ConditionalDelegation => Some((DelegationSatisfied, Bool(true), Bool(false)))
    case ReportingDeadline => Some((ReportedAt, Int(s.obligation.deadline), Null))
    case BudgetEncumbrance => Some((BudgetEncumbered, Int(0), Int(s.budget.available)))
    case QualityHoldPair => Some((QualityHeld, Bool(false), Bool(true)))
    case RecallIncompletion => Some((RecallComplete, Bool(true), Bool(false)))
    case _ => None
  }

  lemma PivotEndings(m: Mechanism, p: State)
    requires Poised(m, p) && Pivot(m, p).Some?
    ensures var (f, v, w) := Pivot(m, p).value;
      && Fits(f, v) && Fits(f, w)
      && Write(Settled(p), f, v) == BaseEnding(m, p) && Write(Settled(p), f, w) == ChangedEnding(m, p)
  {
    SettledIsRefreshed(m, p);
  }

  /** The claim a pivotal pair is generated for, from a prepared state. */
  ghost predicate Claimed(m: Mechanism, p: State, ids: EventIds, count: nat, timing: nat)
    requires p.workflow.requiredApprovals != [] && 1 <= count <= 3 && timing < 3
  {
    var x := PivotalExtras(m, p, ids, timing);
    var future := DecisionClockEvents(p, ids, count);
    Ends(p, ids, x.0, future, BaseEnding(m, p)) && Ends(p, ids, x.1, future, ChangedEnding(m, p))
  }

  lemma SingleWriteRun(s: State, ids: EventIds, e: Event, late: seq<Event>)
    requires Generated(s) && e.op.Set? && WellTargeted(e) && Fits(e.op.field, e.value)
    requires e.time == s.request.queryTime - 1
    requires forall l :: l in late ==> l.time > s.request.queryTime
    ensures Ends(s, ids, [e], late, Write(Settled(s), e.op.field, e.value))
  {
    TrialRun(s, ids, [e], late, [e]);
    ExecOne(Settled(s), e);
  }

  lemma ExtrasOfPivot(m: Mechanism, s: State, ids: EventIds, timing: nat)
    requires s.workflow.requiredApprovals != [] && timing < 3 && Pivot(m, s).Some?
    ensures var x := PivotalExtras(m, s, ids, timing);
      && |x.0| == |x.1| == 1
      && x.0[0].op == x.1[0].op == Set(Pivot(m, s).value.0)
      && x.0[0].value == Pivot(m, s).value.1 && x.1[0].value == Pivot(m, s).value.2
      && WellTargeted(x.0[0]) && WellTargeted(x.1[0])
      && x.0[0].time == x.1[0].time == s.request.queryTime - 1
  {
  }

  lemma OneWritePair(m: Mechanism, p: State, ids: EventIds, count: nat, timing: nat)
    requires Poised(m, p) && Pivot(m, p).Some? && 1 <= count <= 3 && timing < 3
    ensures Claimed(m, p, ids, count, timing)
  {
    hide CommonEvents, PivotalExtras, Reverse, Reference;
    var x := PivotalExtras(m, p, ids, timing);
    var future := DecisionClockEvents(p, ids, count);
    ExtrasOfPivot(m, p, ids, timing);
    FutureIsLate(p, ids, count);
    PivotEndings(m, p);
    assert x.0 == [x.0[0]] && x.1 == [x.1[0]];
    SingleWriteRun(p, ids, x.0[0], future);
    SingleWriteRun(p, ids, x.1[0], future);
  }

  // Mechanisms with two extra events, or with an approval

  /** Two extras executed in tick order, whatever order they were listed in. */
  lemma TwoExtrasRun(s: State, ids: EventIds, extras: seq<Event>, d: Event, e: Event, late: seq<Event>, t: State, u: State)
    requires Generated(s) && multiset(extras) == multiset([d, e]) && Less(Tick(d), Tick(e))
    requires d.time == e.time == s.request.queryTime - 1
    requires forall l :: l in late ==> l.time > s.request.queryTime
    requires TransitionA(Settled(s), d) == Ok(t) && TransitionA(t, e) == Ok(u)
    ensures Ends(s, ids, extras, late, u)
  {
    forall x | x in extras
      ensures x.time == s.request.queryTime - 1
    {
      assert x in multiset(extras) && x in multiset([d, e]);
    }
    TrialRun(s, ids, extras, late, [d, e]);
    ExecCons(Settled(s), d, [e]);
    ExecOne(t, e);
    assert [d] + [e] == [d, e];
  }

  lemma NoExtrasRun(s: State, ids: EventIds, late: seq<Event>)
    requires Generated(s) && forall l :: l in late ==> l.time > s.request.queryTime
    ensures EndsIn(Reference(s, Reverse(CommonEvents(s, ids) + late)), Settled(s))
  {
    var none: seq<Event> := [];
    TrialRun(s, ids, none, late, none);
    assert CommonEvents(s, ids) + none + late == CommonEvents(s, ids) + late;
  }

  ghost predicate AllLateFor(late: seq<Event>, s: State) {
    forall l :: l in late ==> l.time > s.request.queryTime
  }

  /** Two well-targeted writes just before the clock, in tick order. */
  ghost predicate TwoWrites(x: seq<Event>, s: State, f: Field, v: Value, g: Field, w: Value) {
    && |x| == 2 && x[0].op == Set(f) && x[0].value == v && x[1].op == Set(g) && x[1].value == w
    && WellTargeted(x[0]) && WellTargeted(x[1]) && Fits(f, v) && Fits(g, w)
    && x[0].time == x[1].time == s.request.queryTime - 1
  }

  lemma WritesInListedOrder(p: State, ids: EventIds, x: seq<Event>, late: seq<Event>, f: Field, v: Value, g: Field, w: Value)
    requires Generated(p) && AllLateFor(late, p) && TwoWrites(x, p, f, v, g, w) && Less(Tick(x[0]), Tick(x[1]))
    ensures Ends(p, ids, x, late, Write(Write(Settled(p), f, v), g, w))
  {
    assert x == [x[0], x[1]];
    TwoExtrasRun(p, ids, x, x[0], x[1], late, Write(Settled(p), f, v), Write(Write(Settled(p), f, v), g, w));
  }

  lemma WritesInOtherOrder(p: State, ids: EventIds, x: seq<Event>, late: seq<Event>, f: Field, v: Value, g: Field, w: Value)
    requires Generated(p) && AllLateFor(late, p) && TwoWrites(x, p, f, v, g, w) && Less(Tick(x[1]), Tick(x[0]))
    ensures Ends(p, ids, x, late, Write(Write(Settled(p), g, w), f, v))
  {
    assert x == [x[0], x[1]] && multiset([x[1], x[0]]) == multiset(x);
    TwoExtrasRun(p, ids, x, x[1], x[0], late, Write(Settled(p), g, w), Write(Write(Settled(p), g, w), f, v));
  }

  lemma DelayedExtras(p: State, ids: EventIds, timing: nat)
    requires p.workflow.requiredApprovals != [] && timing < 3
    ensures var x, now := PivotalExtras(DelayedEvidence, p, ids, timing), p.request.queryTime;
      && TwoWrites(x.0, p, EvidenceStatus, Status(True), EvidenceReceivedAt, Int(now - 1))
      && Less(Tick(x.0[0]), Tick(x.0[1]))
      && AllLateFor(x.1, p)
  {
    var x := PivotalExtras(DelayedEvidence, p, ids, timing);
    TickOrder(x.0[0], x.0[1]);
  }

  lemma DelayedChanged(p: State, ids: EventIds, x: seq<Event>, future: seq<Event>)
    requires Poised(DelayedEvidence, p) && AllLateFor(x, p) && AllLateFor(future, p)
    ensures Ends(p, ids, x, future, ChangedEnding(DelayedEvidence, p))
  {
    NoExtrasRun(p, ids, x + future);
    SettledIsRefreshed(DelayedEvidence, p);
    assert CommonEvents(p, ids) + (x + future) == CommonEvents(p, ids) + x + future;
  }

  lemma DelayedBase(p: State, ids: EventIds, x: seq<Event>, future: seq<Event>)
    requires Poised(DelayedEvidence, p) && AllLateFor(future, p)
    requires TwoWrites(x, p, EvidenceStatus, Status(True), EvidenceReceivedAt, Int(p.request.queryTime - 1))
    requires Less(Tick(x[0]), Tick(x[1]))
    ensures Ends(p, ids, x, future, BaseEnding(DelayedEvidence, p))
  {
    var now := p.request.queryTime;
    SettledIsRefreshed(DelayedEvidence, p);
    WritesInListedOrder(p, ids, x, future, EvidenceStatus, Status(True), EvidenceReceivedAt, Int(now - 1));
  }

  lemma DelayedEvidencePair(p: State, ids: EventIds, count: nat, timing: nat)
    requires Poised(DelayedEvidence, p) && 1 <= count <= 3 && timing < 3
    ensures Claimed(DelayedEvidence, p, ids, count, timing)
  {
    hide CommonEvents, PivotalExtras, Reverse, Reference;
    var x := PivotalExtras(DelayedEvidence, p, ids, timing);
    var future := DecisionClockEvents(p, ids, count);
    FutureIsLate(p, ids, count);
    DelayedExtras(p, ids, timing);
    DelayedBase(p, ids, x.0, future);
    DelayedChanged(p, ids, x.1, future);
  }

  lemma OneExtraRun(p: State, ids: EventIds, x: seq<Event>, late: seq<Event>, u: State)
    requires Generated(p) && AllLateFor(late, p) && |x| == 1 && x[0].time == p.request.queryTime - 1
    requires TransitionA(Settled(p), x[0]) == Ok(u)
    ensures Ends(p, ids, x, late, u)
  {
    assert x == [x[0]];
    TrialRun(p, ids, x, late, x);
    ExecOne(Settled(p), x[0]);
  }

  lemma WithdrawalExtras(p: State, ids: EventIds, timing: nat)
    requires p.workflow.requiredApprovals != [] && timing < 3
    ensures var x := PivotalExtras(ApprovalWithdrawal, p, ids, timing);
      var approval := Text(p.workflow.requiredApprovals[|p.workflow.requiredApprovals| - 1]);
      && |x.0| == |x.1| == 1 && x.0[0].time == x.1[0].time == p.request.queryTime - 1
      && x.0[0].op.AddApproval? && x.1[0].op.RemoveApproval? && x.0[0].value == x.1[0].value == approval
  {
  }

  lemma ApprovalWithdrawalPair(p: State, ids: EventIds, count: nat, timing: nat)
    requires Poised(ApprovalWithdrawal, p) && 1 <= count <= 3 && timing < 3
    ensures Claimed(ApprovalWithdrawal, p, ids, count, timing)
  {
    hide CommonEvents, PivotalExtras, Reverse, Reference;
    var x := PivotalExtras(ApprovalWithdrawal, p, ids, timing);
    var future := DecisionClockEvents(p, ids, count);
    FutureIsLate(p, ids, count);
    WithdrawalExtras(p, ids, timing);
    ApprovalAgain(p, ids, x.0, future);
    ApprovalWithdrawn(p, ids, x.1, future);
  }

  lemma ApprovalAgain(p: State, ids: EventIds, x: seq<Event>, late: seq<Event>)
    requires Poised(ApprovalWithdrawal, p) && AllLateFor(late, p) && |x| == 1 && x[0].time == p.request.queryTime - 1
    requires x[0].op.AddApproval? && x[0].value.Text? && x[0].value.s in p.workflow.requiredApprovals
    ensures Ends(p, ids, x, late, BaseEnding(ApprovalWithdrawal, p))
  {
    AddPresent(Settled(p), x[0]);
    SettledIsRefreshed(ApprovalWithdrawal, p);
    OneExtraRun(p, ids, x, late, Settled(p));
  }

  lemma ApprovalWithdrawn(p: State, ids: EventIds, x: seq<Event>, late: seq<Event>)
    requires Poised(ApprovalWithdrawal, p) && AllLateFor(late, p) && |x| == 1 && x[0].time == p.request.queryTime - 1
    requires x[0].op.RemoveApproval?
    requires x[0].value == Text(p.workflow.requiredApprovals[|p.workflow.requiredApprovals| - 1])
    ensures Ends(p, ids, x, late, ChangedEnding(ApprovalWithdrawal, p))
  {
    SettledIsRefreshed(ApprovalWithdrawal, p);
    LastIsMissing(p.workflow.requiredApprovals);
    OneExtraRun(p, ids, x, late, ChangedEnding(ApprovalWithdrawal, p));
  }

  ghost predicate TwoDeltas(x: seq<Event>, s: State, d: int, e: int) {
    && |x| == 2 && x[0].op.AdjustReservation? && x[1].op.AdjustReservation?
    && x[0].value == Int(d) && x[1].value == Int(e)
    && x[0].time == x[1].time == s.request.queryTime - 1 && Less(Tick(x[0]), Tick(x[1]))
  }

  lemma TwoDeltasRun(p: State, ids: EventIds, x: seq<Event>, late: seq<Event>, d: nat, e: nat)
    requires Generated(p) && AllLateFor(late, p) && TwoDeltas(x, p, d, e) && p.resources.reserved == 1
    ensures Ends(p, ids, x, late, WithReserved(Settled(p), 2 + d + e))
  {
    assert x == [x[0], x[1]];
    TwoExtrasRun(p, ids, x, x[0], x[1], late, WithReserved(Settled(p), 2 + d), WithReserved(Settled(p), 2 + d + e));
  }

  lemma ContentionExtras(p: State, ids: EventIds, timing: nat)
    requires p.workflow.requiredApprovals != [] && timing < 3
    ensures var x, half := PivotalExtras(ResourceContention, p, ids, timing), p.resources.capacity / 2;
      TwoDeltas(x.0, p, 0, 0) && TwoDeltas(x.1, p, half, p.resources.capacity - half)
  {
    var x := PivotalExtras(ResourceContention, p, ids, timing);
    TickOrder(x.0[0], x.0[1]);
    TickOrder(x.1[0], x.1[1]);
  }

  lemma Uncontended(p: State, ids: EventIds, x: seq<Event>, late: seq<Event>)
    requires Poised(ResourceContention, p) && AllLateFor(late, p) && TwoDeltas(x, p, 0, 0)
    ensures Ends(p, ids, x, late, BaseEnding(ResourceContention, p))
  {
    hide Reverse, CommonEvents, Reference;
    TwoDeltasRun(p, ids, x, late, 0, 0);
    SettledIsRefreshed(ResourceContention, p);
  }

  lemma Contended(p: State, ids: EventIds, x: seq<Event>, late: seq<Event>, half: nat)
    requires Poised(ResourceContention, p) && AllLateFor(late, p) && half <= p.resources.capacity
    requires TwoDeltas(x, p, half, p.resources.capacity - half)
    ensures Ends(p, ids, x, late, ChangedEnding(ResourceContention, p))
  {
    hide Reverse, CommonEvents, Reference;
    TwoDeltasRun(p, ids, x, late, half, p.resources.capacity - half);
    SettledIsRefreshed(ResourceContention, p);
  }

  lemma ResourceContentionPair(p: State, ids: EventIds, count: nat, timing: nat)
    requires Poised(ResourceContention, p) && 1 <= count <= 3 && timing < 3
    ensures Claimed(ResourceContention, p, ids, count, timing)
  {
    hide CommonEvents, PivotalExtras, Reverse, Reference;
    var future := DecisionClockEvents(p, ids, count);
    FutureIsLate(p, ids, count);
    var x := PivotalExtras(ResourceContention, p, ids, timing);
    ContentionExtras(p, ids, timing);
    Uncontended(p, ids, x.0, future);
    Contended(p, ids, x.1, future, p.resources.capacity / 2);
  }

  ghost predicate RaceWrites(x: seq<Event>, p: State) {
    TwoWrites(x, p, DelegationRevoked, Bool(true), DelegationRevoked, Bool(false))
  }

  lemma RaceExtras(p: State, ids: EventIds, timing: nat)
    requires p.workflow.requiredApprovals != [] && timing < 3
    ensures var x := PivotalExtras(PriorityRace, p, ids, timing);
      && RaceWrites(x.0, p) && RaceWrites(x.1, p)
      && Less(Tick(x.0[0]), Tick(x.0[1])) && Less(Tick(x.1[1]), Tick(x.1[0]))
  {
    var x := PivotalExtras(PriorityRace, p, ids, timing);
    TickOrder(x.0[0], x.0[1]);
    TickOrder(x.1[1], x.1[0]);
  }

  lemma RestoredLast(p: State, ids: EventIds, x: seq<Event>, late: seq<Event>)
    requires Poised(PriorityRace, p) && AllLateFor(late, p) && RaceWrites(x, p) && Less(Tick(x[0]), Tick(x[1]))
    ensures Ends(p, ids, x, late, BaseEnding(PriorityRace, p))
  {
    WritesInListedOrder(p, ids, x, late, DelegationRevoked, Bool(true), DelegationRevoked, Bool(false));
    SettledIsRefreshed(PriorityRace, p);
  }

  lemma RevokedLast(p: State, ids: EventIds, x: seq<Event>, late: seq<Event>)
    requires Poised(PriorityRace, p) && AllLateFor(late, p) && RaceWrites(x, p) && Less(Tick(x[1]), Tick(x[0]))
    ensures Ends(p, ids, x, late, ChangedEnding(PriorityRace, p))
  {
    WritesInOtherOrder(p, ids, x, late, DelegationRevoked, Bool(true), DelegationRevoked, Bool(false));
    SettledIsRefreshed(PriorityRace, p);
  }

  lemma PriorityRacePair(p: State, ids: EventIds, count: nat, timing: nat)
    requires Poised(PriorityRace, p) && 1 <= count <= 3 && timing < 3
    ensures Claimed(PriorityRace, p, ids, count, timing)
  {
    hide CommonEvents, PivotalExtras, Reverse, Reference;
    var future := DecisionClockEvents(p, ids, count);
    FutureIsLate(p, ids, count);
    var x := PivotalExtras(PriorityRace, p, ids, timing);
    RaceExtras(p, ids, timing);
    RestoredLast(p, ids, x.0, future);
    RevokedLast(p, ids, x.1, future);
  }

  // The appeal mechanism: the OPEN event lands among the common events

  lemma AppealCommutesWithStep(s: State, e: Event, open: bool)
    requires !e.op.OpenAppeal? && !e.op.ResolveAppeal? && TransitionA(s, e).Ok?
    ensures TransitionA(WithAppeal(s, open), e) == Ok(WithAppeal(TransitionA(s, e).value, open))
  {
  }

  lemma {:induction false} AppealCommutes(s: State, events: seq<Event>, open: bool)
    requires forall e :: e in events ==> !e.op.OpenAppeal? && !e.op.ResolveAppeal?
    requires Exec(s, events).Ok?
    ensures Exec(WithAppeal(s, open), events) == Ok(WithAppeal(Exec(s, events).value, open))
  {
    if events != [] {
      var n := |events| - 1;
      var front, e := events[..n], events[n];
      assert events == front + [e];
      ExecConcat(s, front, [e]);
      ExecConcat(WithAppeal(s, open), front, [e]);
      AppealCommutes(s, front, open);
      ExecOne(Exec(s, front).value, e);
      ExecOne(WithAppeal(Exec(s, front).value, open), e);
      AppealCommutesWithStep(Exec(s, front).value, e, open);
    }
  }

  /** Where the OPEN event falls among the common events, by timing profile. */
  function OpenSlot(timing: nat): nat
    requires timing < 3
  {
    [1, 4, 5][timing]
  }

  lemma NoAppealInCommon(s: State, ids: EventIds)
    requires s.workflow.requiredApprovals != []
    ensures forall e :: e in CommonEvents(s, ids) ==> !e.op.OpenAppeal? && !e.op.ResolveAppeal?
  {
  }

  lemma OpenedEarly(s: State, ids: EventIds, open: Event, k: nat)
    requires Generated(s) && open.op.OpenAppeal? && k <= 5
    ensures var c := CommonEvents(s, ids); Exec(s, c[..k] + [open] + c[k..]) == Ok(WithAppeal(Settled(s), true))
  {
    hide CommonEvents, Settled, PlayA;
    var c := CommonEvents(s, ids);
    CommonRun(s, ids);
    assert c == c[..k] + c[k..];
    ExecConcat(s, c[..k], c[k..]);
    var t := Exec(s, c[..k]).value;
    ExecConcat(s, c[..k] + [open], c[k..]);
    ExecConcat(s, c[..k], [open]);
    ExecOne(t, open);
    NoAppealInCommon(s, ids);
    assert forall e :: e in c[k..] ==> e in c;
    AppealCommutes(t, c[k..], true);
  }

  lemma OpenInTickOrder(s: State, ids: EventIds, open: Event, timing: nat)
    requires s.workflow.requiredApprovals != [] && timing < 3
    requires open.time == s.request.queryTime - [4, 3, 2][timing] && open.priority == 20 && open.sequence == 10
    ensures var c := CommonEvents(s, ids); StrictlySortedBy(c[..OpenSlot(timing)] + [open] + c[OpenSlot(timing)..], Tick)
  {
    var c, k := CommonEvents(s, ids), OpenSlot(timing);
    CommonIsEarly(s, ids);
    var a := c[..k] + [open] + c[k..];
    forall i | 0 <= i < 5
      ensures i < k ==> Less(Tick(c[i]), Tick(open))
      ensures k <= i ==> Less(Tick(open), Tick(c[i]))
    {
      TickOrder(c[i], open);
      TickOrder(open, c[i]);
    }
    forall i, j | 0 <= i < j < |a|
      ensures Less(Tick(a[i]), Tick(a[j]))
    {
      assert i < k ==> a[i] == c[i];
      assert i > k ==> a[i] == c[i - 1];
      assert j < k ==> a[j] == c[j];
      assert j > k ==> a[j] == c[j - 1];
    }
  }

  lemma AppendStrict(a: seq<Event>, e: Event)
    requires StrictlySortedBy(a, Tick) && forall d :: d in a ==> Less(Tick(d), Tick(e))
    ensures StrictlySortedBy(a + [e], Tick)
  {
  }

  /** An OPEN_APPEAL at the time the profile gives it. */
  ghost predicate OpensAt(open: Event, p: State, timing: nat)
    requires timing < 3
  {
    && open.op.OpenAppeal? && open.time == p.request.queryTime - [4, 3, 2][timing]
    && open.priority == 20 && open.sequence == 10
  }

  function Opened(p: State, ids: EventIds, open: Event, timing: nat): seq<Event>
    requires p.workflow.requiredApprovals != [] && timing < 3
  {
    var c, k := CommonEvents(p, ids), OpenSlot(timing);
    c[..k] + [open] + c[k..]
  }

  lemma OpenedPermutes(p: State, ids: EventIds, open: Event, timing: nat)
    requires p.workflow.requiredApprovals != [] && timing < 3
    ensures multiset(Opened(p, ids, open, timing)) == multiset(CommonEvents(p, ids) + [open])
  {
    var c, k := CommonEvents(p, ids), OpenSlot(timing);
    assert c == c[..k] + c[k..];
  }

  lemma OpenedIsEarly(p: State, ids: EventIds, open: Event, timing: nat)
    requires p.workflow.requiredApprovals != [] && timing < 3 && OpensAt(open, p, timing)
    ensures forall e :: e in CommonEvents(p, ids) + [open] ==> e.time <= p.request.queryTime - 2
  {
    CommonIsEarly(p, ids);
  }

  lemma AppealOnlyOpened(p: State, ids: EventIds, open: Event, timing: nat, late: seq<Event>)
    requires Generated(p) && timing < 3 && OpensAt(open, p, timing) && AllLateFor(late, p)
    ensures Ends(p, ids, [open], late, WithAppeal(Settled(p), true))
  {
    hide CommonEvents, Reverse, Reference, Exec;
    OpenedEarly(p, ids, open, OpenSlot(timing));
    OpenInTickOrder(p, ids, open, timing);
    OpenedPermutes(p, ids, open, timing);
    OpenedIsEarly(p, ids, open, timing);
    SubmissionRun(p, CommonEvents(p, ids) + [open], late, Opened(p, ids, open, timing));
  }

  lemma ResolvedLast(p: State, ids: EventIds, open: Event, resolve: Event, timing: nat)
    requires Generated(p) && timing < 3 && OpensAt(open, p, timing)
    requires resolve.op.ResolveAppeal? && resolve.time == p.request.queryTime - 1
    ensures StrictlySortedBy(Opened(p, ids, open, timing) + [resolve], Tick)
  {
    var a := Opened(p, ids, open, timing);
    OpenInTickOrder(p, ids, open, timing);
    OpenedPermutes(p, ids, open, timing);
    OpenedIsEarly(p, ids, open, timing);
    forall d | d in a
      ensures Less(Tick(d), Tick(resolve))
    {
      assert d in multiset(a) && d in multiset(CommonEvents(p, ids) + [open]);
      TickOrder(d, resolve);
    }
    AppendStrict(a, resolve);
  }

  lemma ResolvedExec(p: State, ids: EventIds, open: Event, resolve: Event, timing: nat)
    requires Generated(p) && timing < 3 && open.op.OpenAppeal? && resolve.op.ResolveAppeal?
    ensures Exec(p, Opened(p, ids, open, timing) + [resolve]) == Ok(WithAppeal(Settled(p), false))
  {
    OpenedEarly(p, ids, open, OpenSlot(timing));
    ExecConcat(p, Opened(p, ids, open, timing), [resolve]);
    ExecOne(WithAppeal(Settled(p), true), resolve);
  }

  lemma AppealOpenedAndResolved(p: State, ids: EventIds, open: Event, resolve: Event, timing: nat, late: seq<Event>)
    requires Generated(p) && timing < 3 && OpensAt(open, p, timing) && AllLateFor(late, p)
    requires resolve.op.ResolveAppeal? && resolve.time == p.request.queryTime - 1
    ensures Ends(p, ids, [open, resolve], late, WithAppeal(Settled(p), false))
  {
    hide CommonEvents, Reverse, Reference, Exec;
    ResolvedLast(p, ids, open, resolve, timing);
    ResolvedExec(p, ids, open, resolve, timing);
    OpenedPermutes(p, ids, open, timing);
    OpenedIsEarly(p, ids, open, timing);
    var early := CommonEvents(p, ids) + [open, resolve];
    assert early == CommonEvents(p, ids) + [open] + [resolve];
    SubmissionRun(p, early, late, Opened(p, ids, open, timing) + [resolve]);
  }

  lemma AppealExtras(p: State, ids: EventIds, timing: nat)
    requires p.workflow.requiredApprovals != [] && timing < 3
    ensures var x := PivotalExtras(UnresolvedAppeal, p, ids, timing);
      && |x.0| == |x.1| == 2 && OpensAt(x.0[0], p, timing) && OpensAt(x.1[0], p, timing)
      && x.0[1].op.ResolveAppeal? && x.0[1].time == p.request.queryTime - 1
      && x.1[1].op.ResolveAppeal? && x.1[1].time > p.request.queryTime
  {
  }

  lemma AppealLeftOpen(p: State, ids: EventIds, x: seq<Event>, timing: nat, future: seq<Event>)
    requires Poised(UnresolvedAppeal, p) && timing < 3 && |x| == 2 && OpensAt(x[0], p, timing)
    requires x[1].time > p.request.queryTime && AllLateFor(future, p)
    ensures Ends(p, ids, x, future, ChangedEnding(UnresolvedAppeal, p))
  {
    hide CommonEvents, Reverse, Reference;
    AppealOnlyOpened(p, ids, x[0], timing, [x[1]] + future);
    SettledIsRefreshed(UnresolvedAppeal, p);
    assert x == [x[0]] + [x[1]];
    assert CommonEvents(p, ids) + [x[0]] + ([x[1]] + future) == CommonEvents(p, ids) + x + future;
  }

  lemma AppealResolvedInTime(p: State, ids: EventIds, x: seq<Event>, timing: nat, future: seq<Event>)
    requires Poised(UnresolvedAppeal, p) && timing < 3 && |x| == 2 && OpensAt(x[0], p, timing)
    requires x[1].op.ResolveAppeal? && x[1].time == p.request.queryTime - 1 && AllLateFor(future, p)
    ensures Ends(p, ids, x, future, BaseEnding(UnresolvedAppeal, p))
  {
    assert x == [x[0], x[1]];
    AppealOpenedAndResolved(p, ids, x[0], x[1], timing, future);
    SettledIsRefreshed(UnresolvedAppeal, p);
  }

  lemma UnresolvedAppealPair(p: State, ids: EventIds, count: nat, timing: nat)
    requires Poised(UnresolvedAppeal, p) && 1 <= count <= 3 && timing < 3
    ensures Claimed(UnresolvedAppeal, p, ids, count, timing)
  {
    hide CommonEvents, PivotalExtras, Reverse, Reference;
    var future := DecisionClockEvents(p, ids, count);
    FutureIsLate(p, ids, count);
    var x := PivotalExtras(UnresolvedAppeal, p, ids, timing);
    AppealExtras(p, ids, timing);
    AppealResolvedInTime(p, ids, x.0, timing, future);
    AppealLeftOpen(p, ids, x.1, timing, future);
  }

  // The claims

  lemma ClaimHolds(m: Mechanism, p: State, ids: EventIds, count: nat, timing: nat)
    requires Poised(m, p) && 1 <= count <= 3 && timing < 3
    ensures Claimed(m, p, ids, count, timing)
  {
    match m {
      case DelayedEvidence => DelayedEvidencePair(p, ids, count, timing);
      case ApprovalWithdrawal => ApprovalWithdrawalPair(p, ids, count, timing);
      case ResourceContention => ResourceContentionPair(p, ids, count, timing);
      case PriorityRace => PriorityRacePair(p, ids, count, timing);
      case UnresolvedAppeal => UnresolvedAppealPair(p, ids, count, timing);
      case _ => OneWritePair(m, p, ids, count, timing);
    }
  }

  /** Every pivotal pair flips: for every mechanism, institution, pair index, identifier choice,
      deferred suffix and timing profile, the base run ends in ALLOW and the intervention run ends
      in the mechanism's own decision at the mechanism's own gate, and both end in the very states
      that the mechanism is about. */
  lemma PivotalPairsFlip(
    m: Mechanism, pack: DomainPack, names: Names, familyId: nat, index: nat, pairIndex: nat,
    ids: EventIds, count: nat, timing: nat)
    requires pack.workflows != [] && pack.jurisdictions != [] && 1 <= count <= 3 && timing < 3
    ensures var s := InitialState(InstitutionConfig(pack, names, familyId, index), pairIndex);
      var trials := PivotalTrials(m, s, ids, count, timing);
      && Allows(Reference(trials.0.state, trials.0.events))
      && FailsAt(Reference(trials.1.state, trials.1.events), Flip(m), Tripped(m))
      && Flip(m) != Allow
      && Reference(trials.0.state, trials.0.events).value.state == BaseEnding(m, Prepared(m, s))
      && Reference(trials.1.state, trials.1.events).value.state == ChangedEnding(m, Prepared(m, s))
  {
    hide InitialState, InstitutionConfig, Prepared, CommonEvents, PivotalExtras, Reverse, Reference;
    InitialIsPoised(pack, names, familyId, index, pairIndex, m);
    var s := InitialState(InstitutionConfig(pack, names, familyId, index), pairIndex);
    ClaimHolds(m, Prepared(m, s), ids, count, timing);
    BaseEndingAllows(m, Prepared(m, s));
    ChangedEndingFails(m, Prepared(m, s));
  }

  lemma CommonEventsAcceptable(s: State, ids: EventIds)
    requires s.workflow.requiredApprovals != []
    ensures forall e :: e in CommonEvents(s, ids) ==> Acceptable(e) && WellTargeted(e) && e.op != Set(RequestWellFormed)
  {
    var c := CommonEvents(s, ids);
    forall e | e in c
      ensures Acceptable(e) && WellTargeted(e) && e.op != Set(RequestWellFormed)
    {
      assert e in {c[0], c[1], c[2], c[3], c[4]};
    }
  }

  lemma MakeEventsAcceptable(s: State, ids: EventIds, count: nat)
    requires s.workflow.requiredApprovals != [] && 1 <= count <= 3
    ensures forall e :: e in CommonEvents(s, ids) ==> Acceptable(e) && WellTargeted(e) && e.op != Set(RequestWellFormed)
    ensures forall e :: e in DecisionClockEvents(s, ids, count) ==> Acceptable(e) && WellTargeted(e)
  {
    hide CommonEvents;
    CommonEventsAcceptable(s, ids);
  }

  /** A run whose due events never repair the request ends INVALID. */
  lemma MalformedStaysInvalid(s: State, events: seq<Event>)
    requires !s.request.wellFormed
    requires forall e :: e in events && e.time <= s.request.queryTime ==>
      Acceptable(e) && !Writes(e, RequestWellFormed)
    ensures FailsAt(Reference(s, events), Decision.Invalid, MalformedRequest)
  {
    hide Acceptable, Writes, Sort, Due;
    var due := Due(ScheduleA(events), s.request.queryTime);
    SortMembers(events, EventKey);
    DueMembers(ScheduleA(events), s.request.queryTime);
    RunSucceedsIff(s, due);
    forall e | e in due
      ensures !Writes(e, RequestWellFormed)
    {
    }
    UnwrittenFieldAfterRun(s, due, RequestWellFormed);
  }

  lemma ReverseMembers(events: seq<Event>)
    ensures forall e :: e in Reverse(events) <==> e in events
  {
    ReversePermutes(events);
    forall e
      ensures e in Reverse(events) <==> e in events
    {
      assert e in multiset(Reverse(events)) <==> e in multiset(events);
    }
  }

  /** The reservation after the common events, from any state. */
  lemma CommonReserves(s: State, ids: EventIds)
    requires s.workflow.requiredApprovals != []
    ensures Exec(s, CommonEvents(s, ids)).Ok?
    ensures Exec(s, CommonEvents(s, ids)).value.resources.reserved == Reserve(s.resources.reserved, 1)
  {
    var c := CommonEvents(s, ids);
    CommonEventsAcceptable(s, ids);
    RunSucceedsIff(s, c);
    ReservationAfterRun(s, c);
    CommonDeltas(s, ids);
    assert [1][..0] == [];
  }

  lemma CommonDeltas(s: State, ids: EventIds)
    requires s.workflow.requiredApprovals != []
    ensures Deltas(CommonEvents(s, ids)) == [1]
  {
    var c := CommonEvents(s, ids);
    assert c == [c[0]] + [c[1]] + [c[2]] + [c[3]] + [c[4]];
    DeltasConcat([c[0]] + [c[1]] + [c[2]] + [c[3]], [c[4]]);
    DeltasConcat([c[0]] + [c[1]] + [c[2]], [c[3]]);
    DeltasConcat([c[0]] + [c[1]], [c[2]]);
    DeltasConcat([c[0]], [c[1]]);
    DeltasOfOne(c[0]);
    DeltasOfOne(c[1]);
    DeltasOfOne(c[2]);
    DeltasOfOne(c[3]);
    DeltasOfOne(c[4]);
  }

  /** One more delta just before the clock adds to what the common events leave. */
  lemma OneMoreDelta(s: State, ids: EventIds, d: Event, late: seq<Event>)
    requires s.workflow.requiredApprovals != [] && AllLateFor(late, s)
    requires d.op.AdjustReservation? && d.value.Int? && d.value.n >= 0 && d.time == s.request.queryTime - 1
    ensures Exec(s, CommonEvents(s, ids)).Ok?
    ensures var t := Exec(s, CommonEvents(s, ids)).value;
      Ends(s, ids, [d], late, WithReserved(t, Reserve(s.resources.reserved, 1) + d.value.n))
  {
    hide CommonEvents, PlayA, Reference;
    var c := CommonEvents(s, ids);
    CommonReserves(s, ids);
    CommonIsEarly(s, ids);
    forall e | e in c
      ensures Less(Tick(e), Tick(d))
    {
      TickOrder(e, d);
    }
    AppendStrict(c, d);
    ExecConcat(s, c, [d]);
    ExecOne(Exec(s, c).value, d);
    SubmissionRun(s, c + [d], late, c + [d]);
  }

  /** Contextual pairs end INVALID on both sides, from any state: the comparison run differs from the
      base run by five more reserved, and by nothing else. */
  lemma ContextualPairsPreserve(s: State, ids: EventIds, count: nat)
    requires s.workflow.requiredApprovals != [] && 1 <= count <= 3
    ensures var trials := ContextualTrials(s, ids, count);
      && FailsAt(Reference(trials.0.state, trials.0.events), Decision.Invalid, MalformedRequest)
      && FailsAt(Reference(trials.1.state, trials.1.events), Decision.Invalid, MalformedRequest)
      && var base, comparison := Reference(trials.0.state, trials.0.events).value, Reference(trials.1.state, trials.1.events).value;
      && base.state.resources.reserved == Reserve(s.resources.reserved, 1)
      && comparison.state == base.state.(resources := base.state.resources.(reserved := base.state.resources.reserved + 5))
      && comparison.outcome == base.outcome
  {
    hide CommonEvents, DecisionClockEvents, Reverse, Reference;
    var malformed := s.(request := s.request.(wellFormed := false));
    var trials := ContextualTrials(s, ids, count);
    MakeEventsAcceptable(malformed, ids, count);
    FutureIsLate(malformed, ids, count);
    var c, future := CommonEvents(malformed, ids), DecisionClockEvents(malformed, ids, count);
    var now, requester := s.request.queryTime, s.actors.requester.actorId;
    var d := MakeEvent(ids, 10, AdjustReservation, Int(0), now - 1, 20, requester);
    var e := MakeEvent(ids, 10, AdjustReservation, Int(5), now - 1, 20, requester);
    ReverseMembers(c + [d] + future);
    ReverseMembers(c + [e] + future);
    MalformedStaysInvalid(malformed, trials.0.events);
    MalformedStaysInvalid(malformed, trials.1.events);
    OneMoreDelta(malformed, ids, d, future);
    OneMoreDelta(malformed, ids, e, future);
  }

  lemma ReorderedSubmission(base: seq<Event>, future: seq<Event>)
    requires |base| >= 2
    ensures multiset(base[2..] + future + base[..2]) == multiset(Reverse(base + future))
  {
    ReversePermutes(base + future);
    assert base == base[..2] + base[2..];
  }

  lemma InvarianceSequences(s: State, ids: EventIds, count: nat, e: Event)
    requires s.workflow.requiredApprovals != [] && 1 <= count <= 3 && e.sequence == 10
    ensures KeysDetermine(CommonEvents(s, ids) + [e] + DecisionClockEvents(s, ids, count), EventKey)
  {
    SequencesDetermine(CommonEvents(s, ids) + [e] + DecisionClockEvents(s, ids, count));
  }

  lemma ReorderedRuns(s: State, base: seq<Event>, future: seq<Event>, renamed: string)
    requires |base| >= 2 && KeysDetermine(base + future, EventKey)
    ensures Reference(Rename(s, renamed), base[2..] + future + base[..2]) ==
      match Reference(s, Reverse(base + future))
      case Ok(r) => Ok(RenameRun(r, renamed))
      case Err(error) => Err(error)
  {
    ReorderedSubmission(base, future);
    ReversePermutes(base + future);
    KeysDetermineTransfer(base + future, Reverse(base + future), EventKey);
    ShuffleAndRenameInvariant(s, Reverse(base + future), base[2..] + future + base[..2], renamed);
  }

  /** Two runs that are alike up to the requester's identifier, or that stop with the same error. */
  ghost predicate AlikeUpTo(renamed: string, base: Trial, comparison: Trial) {
    Reference(comparison.state, comparison.events) ==
      match Reference(base.state, base.events)
      case Ok(r) => Ok(RenameRun(r, renamed))
      case Err(error) => Err(error)
  }

  /** Invariance pairs run alike up to the requester's identifier, from any state. */
  lemma InvariancePairsPreserve(s: State, ids: EventIds, count: nat, renamed: string)
    requires s.workflow.requiredApprovals != [] && 1 <= count <= 3
    ensures var trials := InvarianceTrials(s, ids, count, renamed); AlikeUpTo(renamed, trials.0, trials.1)
  {
    hide CommonEvents, DecisionClockEvents, Reverse, Reference;
    var e := MakeEvent(ids, 10, Set(AuthorityScopeMatch), Bool(true), s.request.queryTime - 1, 20, s.actors.delegator.actorId);
    InvarianceSequences(s, ids, count, e);
    ReorderedRuns(s, CommonEvents(s, ids) + [e], DecisionClockEvents(s, ids, count), renamed);
  }

  /** On a generated institution both runs end in ALLOW, in the state the common events leave. */
  lemma InvariancePairsAllow(
    pack: DomainPack, names: Names, familyId: nat, index: nat, pairIndex: nat, ids: EventIds, count: nat, renamed: string)
    requires pack.workflows != [] && pack.jurisdictions != [] && 1 <= count <= 3
    ensures var s := InitialState(InstitutionConfig(pack, names, familyId, index), pairIndex);
      var trials := InvarianceTrials(s, ids, count, renamed);
      && EndsIn(Reference(trials.0.state, trials.0.events), Refreshed(s))
      && Allows(Reference(trials.0.state, trials.0.events))
      && EndsIn(Reference(trials.1.state, trials.1.events), Rename(Refreshed(s), renamed))
      && Allows(Reference(trials.1.state, trials.1.events))
  {
    hide InitialState, InstitutionConfig, CommonEvents, DecisionClockEvents, Reverse, Reference;
    var s := InitialState(InstitutionConfig(pack, names, familyId, index), pairIndex);
    InitialIsPoised(pack, names, familyId, index, pairIndex, PolicyChange);
    var e := MakeEvent(ids, 10, Set(AuthorityScopeMatch), Bool(true), s.request.queryTime - 1, 20, s.actors.delegator.actorId);
    var future := DecisionClockEvents(s, ids, count);
    FutureIsLate(s, ids, count);
    SingleWriteRun(s, ids, e, future);
    SettledIsRefreshed(PolicyChange, s);
    BaseEndingAllows(PolicyChange, s);
    InvariancePairsPreserve(s, ids, count, renamed);
    RenameCommutesWithVerdict(Refreshed(s), renamed);
  }

  lemma SequencesDetermine(events: seq<Event>)
    requires forall i, j :: 0 <= i < j < |events| ==> events[i].sequence != events[j].sequence
    ensures KeysDetermine(events, EventKey)
  {
    forall d, e | d in events && e in events && EventKey(d) == EventKey(e)
      ensures d == e
    {
      EventKeyParts(d, e);
      var i :| 0 <= i < |events| && events[i] == d;
      var j :| 0 <= j < |events| && events[j] == e;
    }
  }

  // The appeal boundary

  function Matching(events: seq<Event>, op: Op): seq<Event> {
    if events == [] then []
    else (if events[0].op == op then [events[0]] else []) + Matching(events[1..], op)
  }

  /** The boundary audit; None where it raises because a queue does not have exactly one
      RESOLVE_APPEAL. */
  function AppealBoundaryExact(base: Trial, baseRun: Run, comparison: Trial, comparisonRun: Run): Option<bool> {
    var b, c := Matching(base.events, ResolveAppeal), Matching(comparison.events, ResolveAppeal);
    if |b| != 1 || |c| != 1 then None
    else Some(
      && b[0].time <= base.state.request.queryTime
      && c[0].time > comparison.state.request.queryTime
      && b[0].id in baseRun.receipt.executed
      && c[0].id in comparisonRun.receipt.deferred
      && baseRun.outcome.verdict.decision == Allow
      && comparisonRun.outcome.verdict.decision == Decision.Contested)
  }

  lemma {:induction false} MatchingCount(events: seq<Event>, op: Op)
    ensures forall e :: multiset(Matching(events, op))[e] == if e.op == op then multiset(events)[e] else 0
  {
    if events != [] {
      MatchingCount(events[1..], op);
      assert events == [events[0]] + events[1..];
    }
  }

  /** The only RESOLVE_APPEAL of a queue that is a permutation of others + [resolve]. */
  lemma SoleMatch(events: seq<Event>, others: seq<Event>, resolve: Event)
    requires multiset(events) == multiset(others + [resolve])
    requires resolve.op == ResolveAppeal && forall e :: e in others ==> e.op != ResolveAppeal
    ensures Matching(events, ResolveAppeal) == [resolve]
  {
    MatchingCount(events, ResolveAppeal);
    var m := Matching(events, ResolveAppeal);
    forall e
      ensures multiset(m)[e] == multiset{resolve}[e]
    {
      if e.op == ResolveAppeal && e != resolve {
        assert e !in others;
      }
    }
    assert multiset(m) == multiset{resolve} && |m| == |multiset(m)| == 1;
    assert m[0] in multiset(m);
  }

  /** An event's identifier is among the executed ones once its time has come, and among the
      deferred ones otherwise. */
  lemma ReceiptHolds(s: State, events: seq<Event>, e: Event)
    requires e in events && Reference(s, events).Ok?
    ensures var receipt := Reference(s, events).value.receipt;
      if e.time <= s.request.queryTime then e.id in receipt.executed else e.id in receipt.deferred
  {
    var ordered, clock := ScheduleA(events), s.request.queryTime;
    SortMembers(events, EventKey);
    DueMembers(ordered, clock);
    var part := if e.time <= clock then Due(ordered, clock) else Late(ordered, clock);
    var i :| 0 <= i < |part| && part[i] == e;
    assert Ids(part)[i] == e.id;
  }

  lemma {:induction false} MatchingMembers(events: seq<Event>, op: Op)
    ensures forall e :: e in Matching(events, op) <==> e in events && e.op == op
  {
    if events != [] {
      MatchingMembers(events[1..], op);
    }
  }

  /** What the audit means for two runs of the engine: it passes exactly when each queue has one
      RESOLVE_APPEAL, the base's by the decision and the comparison's after it, and the base run ends in
      ALLOW and the comparison in CONTESTED; where the receipts file the two events follows. */
  lemma BoundaryMeans(base: Trial, comparison: Trial)
    requires Reference(base.state, base.events).Ok? && Reference(comparison.state, comparison.events).Ok?
    ensures var r, q := Reference(base.state, base.events).value, Reference(comparison.state, comparison.events).value;
      var b, c := Matching(base.events, ResolveAppeal), Matching(comparison.events, ResolveAppeal);
      && (AppealBoundaryExact(base, r, comparison, q) == None <==> |b| != 1 || |c| != 1)
      && (AppealBoundaryExact(base, r, comparison, q) == Some(true) <==>
            && |b| == 1 && b[0].time <= base.state.request.queryTime
            && |c| == 1 && comparison.state.request.queryTime < c[0].time
            && VerdictA(r.state).decision == Allow && VerdictA(q.state).decision == Decision.Contested)
  {
    hide Reference, VerdictA, Matching;
    var r, q := Reference(base.state, base.events).value, Reference(comparison.state, comparison.events).value;
    var b, c := Matching(base.events, ResolveAppeal), Matching(comparison.events, ResolveAppeal);
    OutcomeOfState(base);
    OutcomeOfState(comparison);
    MatchingMembers(base.events, ResolveAppeal);
    MatchingMembers(comparison.events, ResolveAppeal);
    if |b| == 1 && |c| == 1 {
      assert b[0] in b && c[0] in c;
      ReceiptHolds(base.state, base.events, b[0]);
      ReceiptHolds(comparison.state, comparison.events, c[0]);
    }
  }

  lemma OutcomeOfState(t: Trial)
    requires Reference(t.state, t.events).Ok?
    ensures var r := Reference(t.state, t.events).value; r.outcome == EvaluateA(r.state)
  {
  }

  /** Every generated UNRESOLVED_APPEAL pair passes the boundary audit. */
  lemma AppealPairsAreExact(
    pack: DomainPack, names: Names, familyId: nat, index: nat, pairIndex: nat, ids: EventIds, count: nat, timing: nat)
    requires pack.workflows != [] && pack.jurisdictions != [] && 1 <= count <= 3 && timing < 3
    ensures var s := InitialState(InstitutionConfig(pack, names, familyId, index), pairIndex);
      var (b, c) := PivotalTrials(UnresolvedAppeal, s, ids, count, timing);
      var r, q := Reference(b.state, b.events), Reference(c.state, c.events);
      r.Ok? && q.Ok? && AppealBoundaryExact(b, r.value, c, q.value) == Some(true)
  {
    hide CommonEvents, DecisionClockEvents, PivotalExtras, Reverse, Reference, AppealBoundaryExact;
    PivotalPairsFlip(UnresolvedAppeal, pack, names, familyId, index, pairIndex, ids, count, timing);
    var s := InitialState(InstitutionConfig(pack, names, familyId, index), pairIndex);
    InitialIsPoised(pack, names, familyId, index, pairIndex, UnresolvedAppeal);
    var (b, c) := PivotalTrials(UnresolvedAppeal, s, ids, count, timing);
    AppealBoundaryHolds(s, ids, count, timing);
  }

  lemma AppealBoundaryHolds(s: State, ids: EventIds, count: nat, timing: nat)
    requires Generated(s) && 1 <= count <= 3 && timing < 3
    ensures var (b, c) := PivotalTrials(UnresolvedAppeal, s, ids, count, timing);
      var r, q := Reference(b.state, b.events), Reference(c.state, c.events);
      Allows(r) && FailsAt(q, Decision.Contested, UnresolvedContest) ==>
        AppealBoundaryExact(b, r.value, c, q.value) == Some(true)
  {
    hide CommonEvents, DecisionClockEvents, PivotalExtras, Reverse, Reference;
    var x := PivotalExtras(UnresolvedAppeal, s, ids, timing);
    var common, future := CommonEvents(s, ids), DecisionClockEvents(s, ids, count);
    AppealExtras(s, ids, timing);
    NoResolveAround(s, ids, count);
    OneResolve(s, common, x.0, future);
    OneResolve(s, common, x.1, future);
  }

  lemma NoResolveAround(s: State, ids: EventIds, count: nat)
    requires s.workflow.requiredApprovals != [] && 1 <= count <= 3
    ensures forall e :: e in CommonEvents(s, ids) || e in DecisionClockEvents(s, ids, count) ==> e.op != ResolveAppeal
  {
  }

  /** A submission with one RESOLVE_APPEAL: the audit finds it, and the receipt files it by its time. */
  lemma OneResolve(s: State, common: seq<Event>, x: seq<Event>, future: seq<Event>)
    requires |x| == 2 && x[1].op == ResolveAppeal && x[0].op != ResolveAppeal
    requires forall e :: e in common || e in future ==> e.op != ResolveAppeal
    ensures var events := Reverse(common + x + future);
      && Matching(events, ResolveAppeal) == [x[1]]
      && (Reference(s, events).Ok? ==>
            var receipt := Reference(s, events).value.receipt;
            if x[1].time <= s.request.queryTime then x[1].id in receipt.executed else x[1].id in receipt.deferred)
  {
    var events := Reverse(common + x + future);
    ReversePermutes(common + x + future);
    ReverseMembers(common + x + future);
    assert x == [x[0]] + [x[1]];
    assert x[1] in common + x + future;
    SoleMatch(events, common + [x[0]] + future, x[1]);
    if Reference(s, events).Ok? {
      ReceiptHolds(s, events, x[1]);
    }
  }
}
