/** The state as the engines hold it: a record whose sections are overwritten in place, after a
    copy. The transition functions of Transition are what these methods are proved against. */
module StateRecord {
  import opened Ordering
  import opened Sorting
  import opened EventNet
  import opened Transition
  import opened Generators

  class Record {
    var request: Request
    var actors: Actors
    var authority: Authority
    var evidence: Evidence
    var workflow: Workflow
    var resources: Resources
    var routing: Routing
    var policy: Policy
    var consent: Consent
    var decisionBody: DecisionBody
    var custody: Custody
    var delegationCondition: DelegationCondition
    var obligation: Obligation
    var budget: Budget
    var quality: Quality
    var domainContext: DomainContext
    var conflict: bool

    function Contents(): State
      reads this
    {
      State(request, actors, authority, evidence, workflow, resources, routing, policy, consent,
            decisionBody, custody, delegationCondition, obligation, budget, quality, domainContext, conflict)
    }

    constructor (s: State)
      ensures Contents() == s
    {
      request, actors, authority, evidence := s.request, s.actors, s.authority, s.evidence;
      workflow, resources, routing, policy := s.workflow, s.resources, s.routing, s.policy;
      consent, decisionBody, custody := s.consent, s.decisionBody, s.custody;
      delegationCondition, obligation, budget := s.delegationCondition, s.obligation, s.budget;
      quality, domainContext, conflict := s.quality, s.domainContext, s.conflict;
    }

    /** Overwrites one field and leaves every other cell of the record alone. */
    method SetCell(f: Field, v: Value)
      requires Fits(f, v)
      modifies this
      ensures Contents() == Write(old(Contents()), f, v)
    {
      match f
      case PolicyVersion => policy := policy.(version := v.n);
      case RouteAccepted => routing := routing.(accepted := v.b);
      case DelegationRevoked => authority := authority.(revoked := v.b);
      case EvidenceStatus => evidence := evidence.(status := v.q);
      case EvidenceReceivedAt => evidence := evidence.(receivedAt := ToOption(v));
      case PolicyAllowed => policy := policy.(allows := v.b);
      case JurisdictionMatch => routing := routing.(jurisdictionMatch := v.b);
      case Conflict => conflict := v.b;
      case RequestWellFormed => request := request.(wellFormed := v.b);
      case EvidenceValidUntil => evidence := evidence.(validUntil := ToOption(v));
      case AuthorityScopeMatch => authority := authority.(scopeMatch := v.b);
      case ConsentActive => consent := consent.(active := v.b);
      case VotesPresent => decisionBody := decisionBody.(votesPresent := v.n);
      case CustodyIntact => custody := custody.(chainIntact := v.b);
      case DelegationSatisfied => delegationCondition := delegationCondition.(satisfied := v.b);
      case ReportedAt => obligation := obligation.(reportedAt := ToOption(v));
      case BudgetEncumbered => budget := budget.(encumbered := v.n);
      case QualityHeld => quality := quality.(holdActive := v.b);
      case RecallComplete => quality := quality.(recallComplete := v.b);
    }
  }

  /** The copy holds what the function says, or the same error is reported. */
  ghost predicate Delivers(r: Result<Record>, s: Result<State>)
    reads if r.Ok? then {r.value} else {}
  {
    match (r, s)
    case (Ok(record), Ok(state)) => record.Contents() == state
    case (Err(d), Err(e)) => d == e
    case _ => false
  }

  /** Engine A: copies the record, then follows the event's own target. */
  method ApplyA(original: Record, e: Event) returns (r: Result<Record>)
    ensures r.Ok? ==> fresh(r.value)
    ensures Delivers(r, TransitionA(original.Contents(), e))
  {
    var result := new Record(original.Contents());
    match e.op {
      case Set(_) =>
        match FieldAt(e.target) {
          case None => return Err(UnknownTarget(e.target));
          case Some(f) =>
            if !Fits(f, e.value) {
              return Err(Misfit(f, e.value));
            }
            result.SetCell(f, e.value);
        }
      case AddApproval =>
        match AsText(e.value) {
          case None => return Err(IllTyped(e.value));
          case Some(v) =>
            if v !in result.workflow.approvals {
              result.workflow := result.workflow.(approvals := result.workflow.approvals + [v]);
            }
            result.workflow := result.workflow.(approvals := Sort(result.workflow.approvals, Codes));
        }
      case RemoveApproval =>
        match AsText(e.value) {
          case None =>
          case Some(v) => result.workflow := result.workflow.(approvals := Without(result.workflow.approvals, v));
        }
      case AdjustReservation =>
        if !e.value.Int? {
          return Err(IllTyped(e.value));
        }
        result.resources := result.resources.(reserved := Reserve(result.resources.reserved, e.value.n));
      case OpenAppeal =>
        result.workflow := result.workflow.(appealOpen := true);
        result.workflow := result.workflow.(appealResolved := false);
      case ResolveAppeal =>
        result.workflow := result.workflow.(appealOpen := false);
        result.workflow := result.workflow.(appealResolved := true);
      case Noop =>
      case Unrecognized(name) => return Err(UnknownOperation(name));
    }
    r := Ok(result);
  }

  /** Engine B: copies the record, then follows its own table and treats approvals as a set. */
  method ApplyB(original: Record, e: Event) returns (r: Result<Record>)
    ensures r.Ok? ==> fresh(r.value)
    ensures Delivers(r, TransitionB(original.Contents(), e))
  {
    var result := new Record(original.Contents());
    match e.op {
      case Set(f) =>
        if !Fits(f, e.value) {
          return Err(Misfit(f, e.value));
        }
        result.SetCell(f, e.value);
      case AddApproval =>
        var approvals := Elements(result.workflow.approvals);
        match AsText(e.value) {
          case None => return Err(IllTyped(e.value));
          case Some(v) => approvals := approvals + {v};
        }
        result.workflow := result.workflow.(approvals := SortedElements(approvals));
      case RemoveApproval =>
        var approvals := Elements(result.workflow.approvals);
        match AsText(e.value) {
          case None => assert approvals - {} == approvals;
          case Some(v) => approvals := approvals - {v};
        }
        result.workflow := result.workflow.(approvals := SortedElements(approvals));
      case AdjustReservation =>
        if !e.value.Int? {
          return Err(IllTyped(e.value));
        }
        result.resources := result.resources.(reserved := Reserve(result.resources.reserved, e.value.n));
      case OpenAppeal | ResolveAppeal =>
        var resolved := e.op.ResolveAppeal?;
        result.workflow := result.workflow.(appealOpen := !resolved);
        result.workflow := result.workflow.(appealResolved := resolved);
      case Noop =>
      case Unrecognized(name) => return Err(UnknownOperation(name));
    }
    r := Ok(result);
  }

  lemma PreparationSparesTheCommonEvents(m: Mechanism, s: State, ids: EventIds)
    requires s.workflow.requiredApprovals != []
    ensures CommonEvents(Prepared(m, s), ids) == CommonEvents(s, ids)
  {
  }

  /** Grows both queues from the common events, editing the state it was handed on the way. */
  method PivotalEvents(m: Mechanism, state: Record, ids: EventIds, count: nat, timing: nat)
    returns (base: seq<Event>, changed: seq<Event>)
    requires state.workflow.requiredApprovals != [] && 1 <= count <= 3 && timing < 3
    modifies state
    ensures var trials := PivotalTrials(m, old(state.Contents()), ids, count, timing);
      && state.Contents() == trials.0.state == trials.1.state
      && base == trials.0.events && changed == trials.1.events
  {
    hide CommonEvents, PivotalExtras, DecisionClockEvents, Reverse;
    ghost var given := state.Contents();
    PreparationSparesTheCommonEvents(m, given, ids);
    base := CommonEvents(state.Contents(), ids);
    changed := base;
    match m {
      case DelayedEvidence =>
        state.evidence := state.evidence.(status := Missing);
        state.evidence := state.evidence.(receivedAt := None);
      case RoutingRejection | JurisdictionShift =>
        state.routing := state.routing.(required := true);
      case RecallIncompletion =>
        state.quality := state.quality.(recallRequired := true);
      case _ =>
    }
    assert state.Contents() == Prepared(m, given);
    var extras := PivotalExtras(m, state.Contents(), ids, timing);
    base := base + extras.0;
    changed := changed + extras.1;
    var future := DecisionClockEvents(state.Contents(), ids, count);
    base, changed := Reverse(base + future), Reverse(changed + future);
  }
}
