/** The counterfactual generators: one institution, one pair of queues, one mechanism. */
module Generators {
  import opened EventNet

  /** What a domain pack contributes; everything in it is free. */
  datatype DomainPack = DomainPack(
    domainId: string, sectorGroup: string, riskTier: string,
    workflows: seq<string>, jurisdictions: seq<string>, evidenceTypes: seq<string>)

  /** Hash-derived names; the generators never compare two of them. */
  datatype Names = Names(
    request: string, requester: string, delegator: string, approver: string, reviewer: string,
    sourceInstitution: string, targetInstitution: string, evidenceSource: string)

  /** Hash-derived event identifiers. */
  type EventIds = (int, Op, Value, int, int) -> string

  datatype Config = Config(
    pack: DomainPack, names: Names, workflowName: string, jurisdiction: string, requiredRank: int,
    scope: string, policyVersion: int, capacity: int, requiredApprovals: seq<string>, crossInstitution: bool)

  datatype Mechanism =
    | RevocationPropagation | DelayedEvidence | ApprovalWithdrawal | ResourceContention
    | PolicyChange | RoutingRejection | JurisdictionShift | ConflictAssertion
    | MalformedRequestPair | PriorityRace | EvidenceExpiry | UnresolvedAppeal
    | ConsentWithdrawal | QuorumFailure | ChainOfCustodyBreak | ConditionalDelegation
    | ReportingDeadline | BudgetEncumbrance | QualityHoldPair | RecallIncompletion

  function InstitutionConfig(pack: DomainPack, names: Names, familyId: nat, institutionIndex: nat): Config
    requires pack.workflows != [] && pack.jurisdictions != []
  {
    var scopes := ["authorize", "procure", "enroll", "credential", "review", "allocate"];
    Config(
      pack, names,
      pack.workflows[familyId % |pack.workflows|],
      pack.jurisdictions[familyId % |pack.jurisdictions|],
      2 + familyId % 3,
      scopes[familyId % 6],
      3 + familyId % 5,
      8 + familyId % 4,
      if familyId % 2 == 0 then ["domain_owner", "risk_officer"] else ["domain_owner", "records_officer"],
      institutionIndex % 2 == 0)
  }

  function InitialState(c: Config, pairIndex: nat): State {
    var now := 8 + pairIndex % 5;
    var demand := 3 + pairIndex % 3;
    State(
      Request(
        c.names.request, c.scope, now, c.names.sourceInstitution,
        if c.crossInstitution then c.names.targetInstitution else c.names.sourceInstitution,
        c.policyVersion, true),
      Actors(
        Actor(c.names.requester, c.requiredRank + 1), Actor(c.names.delegator, c.requiredRank + 2),
        Actor(c.names.approver, c.requiredRank + 1), Actor(c.names.reviewer, c.requiredRank + 1)),
      Authority(true, false, true, c.requiredRank, 1, 20),
      Evidence(True, c.names.evidenceSource, Some(2), Some(20)),
      Workflow(c.workflowName, c.requiredApprovals, c.requiredApprovals, false, true),
      Resources(c.capacity, 1, demand),
      Routing(c.crossInstitution, true, true),
      Policy(true, c.policyVersion, 1),
      Consent(true, true),
      DecisionBody(2, 2),
      Custody(true, true),
      DelegationCondition(true, true),
      Obligation(true, now - 1, Some(now - 2)),
      Budget(c.capacity + demand + 2, 0, demand),
      Quality(false, false, true),
      DomainContext(
        c.pack.domainId, "1.0.0", c.pack.sectorGroup, c.pack.riskTier, c.jurisdiction, c.pack.evidenceTypes),
      false)
  }

  function TargetOf(op: Op): Target {
    match op
    case Set(f) => FieldTarget(f)
    case AddApproval | RemoveApproval => ApprovalsTarget
    case AdjustReservation => ReservedTarget
    case _ => AppealTarget
  }

  function MakeEvent(ids: EventIds, ordinal: int, op: Op, value: Value, time: int, priority: int, actor: string): Event {
    Event(ids(ordinal, op, value, time, priority), time, priority, ordinal, actor, op, TargetOf(op), value)
  }

  function CommonEvents(s: State, ids: EventIds): (events: seq<Event>)
    requires s.workflow.requiredApprovals != []
    ensures |events| == 5
  {
    var now := s.request.queryTime;
    var a := s.actors;
    [ MakeEvent(ids, 0, Set(PolicyVersion), Int(s.policy.version), now - 6, 30, a.reviewer.actorId),
      MakeEvent(ids, 1, AddApproval, Text(s.workflow.requiredApprovals[0]), now - 4, 30, a.approver.actorId),
      MakeEvent(ids, 2, Set(RouteAccepted), Bool(true), now - 4, 30, a.reviewer.actorId),
      MakeEvent(ids, 3, Set(EvidenceReceivedAt), Int(now - 5), now - 3, 20, a.reviewer.actorId),
      MakeEvent(ids, 4, AdjustReservation, Int(1), now - 2, 20, a.requester.actorId) ]
  }

  /** One to three consequential events after the decision clock. */
  function DecisionClockEvents(s: State, ids: EventIds, count: nat): (events: seq<Event>)
    requires s.workflow.requiredApprovals != [] && 1 <= count <= 3
    ensures |events| == count
  {
    var now := s.request.queryTime;
    var required := s.workflow.requiredApprovals;
    [ MakeEvent(ids, 90, Set(PolicyAllowed), Bool(false), now + 1, 5, s.actors.reviewer.actorId),
      MakeEvent(ids, 91, Set(Conflict), Bool(true), now + 2, 5, s.actors.requester.actorId),
      MakeEvent(ids, 92, RemoveApproval, Text(required[|required| - 1]), now + 3, 5, s.actors.approver.actorId)
    ][..count]
  }

  /** The edits a mechanism makes to the starting state of both runs. */
  function Prepared(m: Mechanism, s: State): State {
    match m
    case DelayedEvidence => s.(evidence := s.evidence.(status := Missing, receivedAt := None))
    case RoutingRejection | JurisdictionShift => s.(routing := s.routing.(required := true))
    case RecallIncompletion => s.(quality := s.quality.(recallRequired := true))
    case _ => s
  }

  /** One field written just before the clock, with one value in each queue. */
  function WritePair(ids: EventIds, now: int, f: Field, v: Value, w: Value, actor: string): (seq<Event>, seq<Event>) {
    ( [MakeEvent(ids, 10, Set(f), v, now - 1, 20, actor)],
      [MakeEvent(ids, 10, Set(f), w, now - 1, 20, actor)] )
  }

  /** The events a mechanism appends to the base queue and to the changed queue. */
  function PivotalExtras(m: Mechanism, s: State, ids: EventIds, timing: nat): (r: (seq<Event>, seq<Event>))
    requires s.workflow.requiredApprovals != [] && timing < 3
  {
    var now := s.request.queryTime;
    var requester, delegator := s.actors.requester.actorId, s.actors.delegator.actorId;
    var approver, reviewer := s.actors.approver.actorId, s.actors.reviewer.actorId;
    match m
    case RevocationPropagation => WritePair(ids, now, DelegationRevoked, Bool(false), Bool(true), delegator)
    case DelayedEvidence =>
      ( [ MakeEvent(ids, 10, Set(EvidenceStatus), Status(True), now - 1, 20, reviewer),
          MakeEvent(ids, 11, Set(EvidenceReceivedAt), Int(now - 1), now - 1, 21, reviewer) ],
        [ MakeEvent(ids, 10, Set(EvidenceStatus), Status(True), now + 1, 20, reviewer),
          MakeEvent(ids, 11, Set(EvidenceReceivedAt), Int(now + 1), now + 1, 21, reviewer) ] )
    case ApprovalWithdrawal =>
      var approval := Text(s.workflow.requiredApprovals[|s.workflow.requiredApprovals| - 1]);
      ( [MakeEvent(ids, 10, AddApproval, approval, now - 1, 20, approver)],
        [MakeEvent(ids, 10, RemoveApproval, approval, now - 1, 20, approver)] )
    case ResourceContention =>
      var first := s.resources.capacity / 2;
      var second := s.resources.capacity - first;
      ( [ MakeEvent(ids, 10, AdjustReservation, Int(0), now - 1, 20, requester),
          MakeEvent(ids, 11, AdjustReservation, Int(0), now - 1, 20, approver) ],
        [ MakeEvent(ids, 10, AdjustReservation, Int(first), now - 1, 20, requester),
          MakeEvent(ids, 11, AdjustReservation, Int(second), now - 1, 20, approver) ] )
    case PolicyChange => WritePair(ids, now, PolicyAllowed, Bool(true), Bool(false), reviewer)
    case RoutingRejection => WritePair(ids, now, RouteAccepted, Bool(true), Bool(false), reviewer)
    case JurisdictionShift => WritePair(ids, now, Field.JurisdictionMatch, Bool(true), Bool(false), reviewer)
    case ConflictAssertion => WritePair(ids, now, Conflict, Bool(false), Bool(true), reviewer)
    case MalformedRequestPair => WritePair(ids, now, RequestWellFormed, Bool(true), Bool(false), requester)
    case PriorityRace =>
      ( [ MakeEvent(ids, 10, Set(DelegationRevoked), Bool(true), now - 1, 10, delegator),
          MakeEvent(ids, 11, Set(DelegationRevoked), Bool(false), now - 1, 20, delegator) ],
        [ MakeEvent(ids, 10, Set(DelegationRevoked), Bool(true), now - 1, 10, delegator),
          MakeEvent(ids, 11, Set(DelegationRevoked), Bool(false), now - 1, 5, delegator) ] )
    case EvidenceExpiry => WritePair(ids, now, EvidenceValidUntil, Int(now + 4), Int(now - 1), reviewer)
    case UnresolvedAppeal =>
      var openTime := now - [4, 3, 2][timing];
      ( [ MakeEvent(ids, 10, OpenAppeal, Bool(true), openTime, 20, requester),
          MakeEvent(ids, 11, ResolveAppeal, Bool(false), now - 1, 20, reviewer) ],
        [ MakeEvent(ids, 10, OpenAppeal, Bool(true), openTime, 20, requester),
          MakeEvent(ids, 11, ResolveAppeal, Bool(false), now + [1, 2, 3][timing], 20, reviewer) ] )
    case ConsentWithdrawal => WritePair(ids, now, ConsentActive, Bool(true), Bool(false), requester)
    case QuorumFailure =>
      var required := s.decisionBody.quorumRequired;
      WritePair(ids, now, VotesPresent, Int(required), Int(required - 1), approver)
    case ChainOfCustodyBreak => WritePair(ids, now, CustodyIntact, Bool(true), Bool(false), reviewer)
    case ConditionalDelegation => WritePair(ids, now, DelegationSatisfied, Bool(true), Bool(false), delegator)
    case ReportingDeadline => WritePair(ids, now, ReportedAt, Int(s.obligation.deadline), Null, reviewer)
    case BudgetEncumbrance => WritePair(ids, now, BudgetEncumbered, Int(0), Int(s.budget.available), approver)
    case QualityHoldPair => WritePair(ids, now, QualityHeld, Bool(false), Bool(true), reviewer)
    case RecallIncompletion => WritePair(ids, now, RecallComplete, Bool(true), Bool(false), reviewer)
  }

  function Reverse(events: seq<Event>): (r: seq<Event>)
    ensures |r| == |events|
  {
    if events == [] then [] else Reverse(events[1..]) + [events[0]]
  }

  datatype Trial = Trial(state: State, events: seq<Event>)

  /** Base and intervention run of a mechanism; both start from the prepared state. */
  function PivotalTrials(m: Mechanism, s: State, ids: EventIds, count: nat, timing: nat): (Trial, Trial)
    requires s.workflow.requiredApprovals != [] && 1 <= count <= 3 && timing < 3
  {
    var prepared := Prepared(m, s);
    var common := CommonEvents(prepared, ids);
    var extras := PivotalExtras(m, prepared, ids, timing);
    var future := DecisionClockEvents(prepared, ids, count);
    ( Trial(prepared, Reverse(common + extras.0 + future)),
      Trial(prepared, Reverse(common + extras.1 + future)) )
  }

  /** The same case submitted in another order by a renamed requester. */
  function InvarianceTrials(s: State, ids: EventIds, count: nat, renamed: string): (Trial, Trial)
    requires s.workflow.requiredApprovals != [] && 1 <= count <= 3
  {
    var now := s.request.queryTime;
    var base := CommonEvents(s, ids)
      + [MakeEvent(ids, 10, Set(AuthorityScopeMatch), Bool(true), now - 1, 20, s.actors.delegator.actorId)];
    var future := DecisionClockEvents(s, ids, count);
    var actors := s.actors.(requester := s.actors.requester.(actorId := renamed));
    ( Trial(s, Reverse(base + future)),
      Trial(s.(actors := actors), base[2..] + future + base[..2]) )
  }

  /** A malformed request with two different reservations. */
  function ContextualTrials(s: State, ids: EventIds, count: nat): (Trial, Trial)
    requires s.workflow.requiredApprovals != [] && 1 <= count <= 3
  {
    var malformed := s.(request := s.request.(wellFormed := false));
    var common := CommonEvents(malformed, ids);
    var now, requester := s.request.queryTime, s.actors.requester.actorId;
    var future := DecisionClockEvents(malformed, ids, count);
    ( Trial(malformed, Reverse(common + [MakeEvent(ids, 10, AdjustReservation, Int(0), now - 1, 20, requester)] + future)),
      Trial(malformed, Reverse(common + [MakeEvent(ids, 10, AdjustReservation, Int(5), now - 1, 20, requester)] + future)) )
  }
}
