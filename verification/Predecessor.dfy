/** The nine-gate predecessor engine, and the sense in which the current engine extends it. */
module Predecessor {
  import opened Ordering
  import opened Sorting
  import opened EventNet
  import opened Scheduling
  import opened Transition
  import opened Evaluation
  import opened Engine

  datatype Workflow7 = Workflow7(
    requiredApprovals: seq<string>, approvals: seq<string>, appealOpen: bool, appealResolved: bool)

  datatype State7 = State7(
    request: Request, actors: Actors, authority: Authority, evidence: Evidence,
    workflow: Workflow7, resources: Resources, routing: Routing, policy: Policy, conflict: bool)

  datatype Step7 = Step7(eventId: string, op: Op, semantic: Semantic, decision: Decision, state: State7)
  datatype Progress7 = Progress7(state: State7, steps: seq<Step7>)
  datatype Run7 = Run7(
    outcome: Outcome, state: State7, steps: seq<Step7>,
    ordered: seq<string>, executed: seq<string>, deferred: seq<string>)

  /** The fields the predecessor can write. */
  predicate Legacy(f: Field) {
    match f
    case ConsentActive | VotesPresent | CustodyIntact | DelegationSatisfied
       | ReportedAt | BudgetEncumbered | QualityHeld | RecallComplete => false
    case _ => true
  }

  function Write7(s: State7, f: Field, v: Value): State7
    requires Legacy(f) && Fits(f, v)
  {
    match f
    case PolicyVersion => s.(policy := s.policy.(version := v.n))
    case RouteAccepted => s.(routing := s.routing.(accepted := v.b))
    case DelegationRevoked => s.(authority := s.authority.(revoked := v.b))
    case EvidenceStatus => s.(evidence := s.evidence.(status := v.q))
    case EvidenceReceivedAt => s.(evidence := s.evidence.(receivedAt := ToOption(v)))
    case PolicyAllowed => s.(policy := s.policy.(allows := v.b))
    case JurisdictionMatch => s.(routing := s.routing.(jurisdictionMatch := v.b))
    case Conflict => s.(conflict := v.b)
    case RequestWellFormed => s.(request := s.request.(wellFormed := v.b))
    case EvidenceValidUntil => s.(evidence := s.evidence.(validUntil := ToOption(v)))
    case AuthorityScopeMatch => s.(authority := s.authority.(scopeMatch := v.b))
  }

  function WithAppeal7(s: State7, open: bool): State7 {
    s.(workflow := s.workflow.(appealOpen := open, appealResolved := !open))
  }

  function Transition7(s: State7, e: Event): Result<State7> {
    match e.op
    case Set(f) =>
      if !Legacy(f) then Err(UnknownOperation("SET operation of a later version"))
      else
        (match FieldAt(e.target)
         case Some(g) =>
           if !Legacy(g) then Err(UnknownTarget(e.target))
           else if Fits(g, e.value) then Ok(Write7(s, g, e.value))
           else Err(Misfit(g, e.value))
         case None => Err(UnknownTarget(e.target)))
    case AddApproval =>
      (match AsText(e.value)
       case None => Err(IllTyped(e.value))
       case Some(v) => Ok(s.(workflow := s.workflow.(approvals := Sort(Appended(s.workflow.approvals, v), Codes)))))
    case RemoveApproval =>
      (match AsText(e.value)
       case None => Ok(s)
       case Some(v) => Ok(s.(workflow := s.workflow.(approvals := Without(s.workflow.approvals, v)))))
    case AdjustReservation =>
      if e.value.Int? then Ok(s.(resources := s.resources.(reserved := Reserve(s.resources.reserved, e.value.n))))
      else Err(IllTyped(e.value))
    case OpenAppeal => Ok(WithAppeal7(s, true))
    case ResolveAppeal => Ok(WithAppeal7(s, false))
    case Noop => Ok(s)
    case Unrecognized(name) => Err(UnknownOperation(name))
  }

  function Verdict7(s: State7): Verdict {
    var now := s.request.queryTime;
    if !s.request.wellFormed then
      Verdict(Semantic.Invalid, Decision.Invalid, [MalformedRequest])
    else if s.conflict || (s.workflow.appealOpen && !s.workflow.appealResolved) then
      Verdict(Semantic.Contested, Decision.Contested, [UnresolvedContest])
    else if !s.authority.active || s.authority.revoked || !s.authority.scopeMatch
         || s.actors.requester.rank < s.authority.requiredRank
         || !(s.authority.validFrom <= now <= s.authority.validTo) then
      Verdict(False, Deny, [AuthorityGate])
    else if s.routing.required && (!s.routing.accepted || !s.routing.jurisdictionMatch) then
      Verdict(False, Deny, [RoutingOrJurisdiction])
    else if !s.policy.allows || s.policy.version != s.request.requiredPolicyVersion || now < s.policy.effectiveAt then
      Verdict(False, Deny, [PolicyGate])
    else if s.evidence.status.False? || (s.evidence.validUntil.Some? && s.evidence.validUntil.value < now) then
      Verdict(False, Deny, [EvidenceFalseOrExpired])
    else if s.evidence.status.Unknown? || s.evidence.status.Missing?
         || s.evidence.receivedAt.None? || s.evidence.receivedAt.value > now then
      Verdict(if s.evidence.status.Unknown? || s.evidence.status.Missing? then s.evidence.status else Unknown,
              Abstain, [EvidenceUnavailable])
    else if !(forall r :: r in s.workflow.requiredApprovals ==> r in s.workflow.approvals) then
      Verdict(Unknown, Abstain, [WorkflowApproval])
    else if s.resources.demand > s.resources.capacity - s.resources.reserved then
      Verdict(Unknown, Abstain, [ResourceCapacity])
    else
      Verdict(True, Allow, [])
  }

  function Evaluate7(s: State7): Outcome {
    var v := Verdict7(s);
    Outcome(
      v,
      [s.actors.requester.actorId, s.actors.delegator.actorId, s.request.targetInstitution],
      (s.evidence.source, s.evidence.status),
      [s.request.sourceInstitution, s.request.targetInstitution],
      if v.decision.Allow? then -s.resources.demand else 0,
      v.decision.Allow?,
      false)
  }

  function Play7(initial: State7, due: seq<Event>): Result<Progress7> {
    if due == [] then Ok(Progress7(initial, []))
    else
      var p :- Play7(initial, due[..|due| - 1]);
      var e := due[|due| - 1];
      var s :- Transition7(p.state, e);
      var v := Evaluate7(s).verdict;
      Ok(Progress7(s, p.steps + [Step7(e.id, e.op, v.semantic, v.decision, s)]))
  }

  function Reference7(initial: State7, events: seq<Event>): Result<Run7> {
    var ordered, clock := ScheduleA(events), initial.request.queryTime;
    var p :- Play7(initial, Due(ordered, clock));
    Ok(Run7(
      Evaluate7(p.state), p.state, p.steps,
      Ids(ordered), Ids(Due(ordered, clock)), Ids(Late(ordered, clock))))
  }

  // Projection

  /** The predecessor's view of a state: the eight later sections forgotten. */
  function Project(s: State): State7 {
    State7(
      s.request, s.actors, s.authority, s.evidence,
      Workflow7(s.workflow.requiredApprovals, s.workflow.approvals, s.workflow.appealOpen, s.workflow.appealResolved),
      s.resources, s.routing, s.policy, s.conflict)
  }

  /** The eight gates the current version added. */
  predicate AddedGatesPass(s: State) {
    && !(s.delegationCondition.required && !s.delegationCondition.satisfied)
    && !(s.consent.required && !s.consent.active)
    && !(s.custody.chainRequired && !s.custody.chainIntact)
    && s.decisionBody.votesPresent >= s.decisionBody.quorumRequired
    && !(s.obligation.reportingRequired && s.obligation.deadline <= s.request.queryTime
         && (s.obligation.reportedAt.None? || s.obligation.reportedAt.value > s.obligation.deadline))
    && s.budget.required <= s.budget.available - s.budget.encumbered
    && !s.quality.holdActive
    && !(s.quality.recallRequired && !s.quality.recallComplete)
  }

  /** An event the predecessor's generators could have put on a queue. */
  predicate LegacyEvent(e: Event) {
    WellTargeted(e) && (e.op.Set? ==> Legacy(e.op.field))
  }

  ghost predicate LegacyQueue(events: seq<Event>) {
    forall e :: e in events ==> LegacyEvent(e)
  }

  lemma WriteProjects(s: State, f: Field, v: Value)
    requires Legacy(f) && Fits(f, v)
    ensures Project(Write(s, f, v)) == Write7(Project(s), f, v)
    ensures AddedGatesPass(Write(s, f, v)) == AddedGatesPass(s)
  {
  }

  lemma StepProjects(s: State, e: Event)
    requires LegacyEvent(e)
    ensures Transition7(Project(s), e) ==
      match TransitionA(s, e) case Ok(t) => Ok(Project(t)) case Err(error) => Err(error)
    ensures TransitionA(s, e).Ok? ==> AddedGatesPass(TransitionA(s, e).value) == AddedGatesPass(s)
  {
    hide Write, Write7, Sort, Without, Appended, SetField;
    match e.op
    case Set(_) => SetProjects(s, e);
    case _ =>
  }

  lemma SetProjects(s: State, e: Event)
    requires LegacyEvent(e) && e.op.Set?
    ensures Transition7(Project(s), e) ==
      match TransitionA(s, e) case Ok(t) => Ok(Project(t)) case Err(error) => Err(error)
    ensures TransitionA(s, e).Ok? ==> AddedGatesPass(TransitionA(s, e).value) == AddedGatesPass(s)
  {
    hide Write, Write7, Project, AddedGatesPass;
    if Fits(e.op.field, e.value) {
      WriteProjects(s, e.op.field, e.value);
    }
  }

  /** Where the added gates pass the two ladders agree; ALLOW needs both. */
  lemma LadderExtends(s: State)
    ensures AddedGatesPass(s) ==> VerdictA(s) == Verdict7(Project(s)) && EvaluateA(s) == Evaluate7(Project(s))
    ensures VerdictA(s).decision.Allow? <==> Verdict7(Project(s)).decision.Allow? && AddedGatesPass(s)
  {
  }

  function ProjectSteps(steps: seq<Step>): seq<Step7> {
    if steps == [] then []
    else
      var last := steps[|steps| - 1];
      ProjectSteps(steps[..|steps| - 1])
        + [Step7(last.eventId, last.op, last.semantic, last.decision, Project(last.state))]
  }

  function ProjectRun(r: Run): Run7 {
    Run7(r.outcome, Project(r.state), ProjectSteps(r.steps),
         r.receipt.ordered, r.receipt.executed, r.receipt.deferred)
  }

  lemma {:induction false} StatesProject(s: State, due: seq<Event>)
    requires LegacyQueue(due)
    ensures var p, q := Play(s, due, TransitionA, EvaluateA), Play7(Project(s), due);
      match (p, q)
      case (Ok(a), Ok(b)) => b.state == Project(a.state) && AddedGatesPass(a.state) == AddedGatesPass(s)
      case (Err(d), Err(e)) => d == e
      case _ => false
  {
    if due != [] {
      var front, last := due[..|due| - 1], due[|due| - 1];
      StatesProject(s, front);
      assert last in due;
      var p := Play(s, front, TransitionA, EvaluateA);
      if p.Ok? {
        StepProjects(p.value.state, last);
      }
    }
  }

  lemma {:induction false} PlayProjects(s: State, due: seq<Event>)
    requires LegacyQueue(due) && AddedGatesPass(s)
    ensures Play7(Project(s), due) ==
      match Play(s, due, TransitionA, EvaluateA)
      case Ok(p) => Ok(Progress7(Project(p.state), ProjectSteps(p.steps)))
      case Err(error) => Err(error)
  {
    if due != [] {
      var front, last := due[..|due| - 1], due[|due| - 1];
      PlayProjects(s, front);
      StatesProject(s, front);
      assert last in due;
      var p := Play(s, front, TransitionA, EvaluateA);
      if p.Ok? {
        StepProjects(p.value.state, last);
        var t := TransitionA(p.value.state, last);
        if t.Ok? {
          LadderExtends(t.value);
          var step := StepOf(last, t.value, EvaluateA(t.value));
          assert (p.value.steps + [step])[..|p.value.steps|] == p.value.steps;
        }
      }
    }
  }

  lemma DueIsLegacy(events: seq<Event>, clock: int)
    requires LegacyQueue(events)
    ensures LegacyQueue(Due(ScheduleA(events), clock))
  {
    SortMembers(events, EventKey);
    DueMembers(ScheduleA(events), clock);
  }

  /** Conservative extension: from a state whose added gates pass, a queue of the predecessor's
      operations runs to the projection of the current run, step by step, receipt included. */
  lemma ExtensionIsConservative(initial: State, events: seq<Event>)
    requires LegacyQueue(events) && AddedGatesPass(initial)
    ensures Reference7(Project(initial), events) ==
      match Reference(initial, events)
      case Ok(r) => Ok(ProjectRun(r))
      case Err(error) => Err(error)
  {
    var due := Due(ScheduleA(events), initial.request.queryTime);
    DueIsLegacy(events, initial.request.queryTime);
    PlayProjects(initial, due);
    StatesProject(initial, due);
    var p := Play(initial, due, TransitionA, EvaluateA);
    if p.Ok? {
      LadderExtends(p.value.state);
    }
  }

  /** From any state, the current run of such a queue ends in ALLOW exactly when the predecessor's
      does and the added gates passed to begin with. */
  lemma AllowNeedsBoth(initial: State, events: seq<Event>)
    requires LegacyQueue(events)
    ensures match (Reference(initial, events), Reference7(Project(initial), events))
      case (Ok(r), Ok(q)) =>
        r.outcome.verdict.decision.Allow? <==> q.outcome.verdict.decision.Allow? && AddedGatesPass(initial)
      case (Err(d), Err(e)) => d == e
      case _ => false
  {
    var due := Due(ScheduleA(events), initial.request.queryTime);
    DueIsLegacy(events, initial.request.queryTime);
    StatesProject(initial, due);
    var p := Play(initial, due, TransitionA, EvaluateA);
    if p.Ok? {
      LadderExtends(p.value.state);
    }
  }
}
