/** The typed institutional state, the events, and what one step or one run reports. */
module EventNet {
  import opened Ordering

  datatype Option<+T> = None | Some(value: T)

  datatype Error =
    | UnknownOperation(name: string)
    | UnknownTarget(target: Target)
    | IllTyped(value: Value)
    | Misfit(field: Field, value: Value)
    | Disagreement

  datatype Result<+T> = Ok(value: T) | Err(error: Error) {
    predicate IsFailure() { Err? }
    function PropagateFailure<U>(): Result<U>
      requires Err?
    {
      Err(error)
    }
    function Extract(): T
      requires Ok?
    {
      value
    }
  }

  datatype Semantic = True | False | Unknown | Missing | Contested | Invalid
  datatype Decision = Allow | Deny | Abstain | Contested | Invalid

  // The sections of the state

  datatype Request = Request(
    requestId: string, scope: string, queryTime: int,
    sourceInstitution: string, targetInstitution: string,
    requiredPolicyVersion: int, wellFormed: bool)
  datatype Actor = Actor(actorId: string, rank: int)
  datatype Actors = Actors(requester: Actor, delegator: Actor, approver: Actor, reviewer: Actor)
  datatype Authority = Authority(
    active: bool, revoked: bool, scopeMatch: bool, requiredRank: int, validFrom: int, validTo: int)
  datatype Evidence = Evidence(
    status: Semantic, source: string, receivedAt: Option<int>, validUntil: Option<int>)
  datatype Workflow = Workflow(
    workflowName: string, requiredApprovals: seq<string>, approvals: seq<string>,
    appealOpen: bool, appealResolved: bool)
  datatype Resources = Resources(capacity: int, reserved: int, demand: int)
  datatype Routing = Routing(required: bool, accepted: bool, jurisdictionMatch: bool)
  datatype Policy = Policy(allows: bool, version: int, effectiveAt: int)
  datatype Consent = Consent(required: bool, active: bool)
  datatype DecisionBody = DecisionBody(quorumRequired: int, votesPresent: int)
  datatype Custody = Custody(chainRequired: bool, chainIntact: bool)
  datatype DelegationCondition = DelegationCondition(required: bool, satisfied: bool)
  datatype Obligation = Obligation(reportingRequired: bool, deadline: int, reportedAt: Option<int>)
  datatype Budget = Budget(available: int, encumbered: int, required: int)
  datatype Quality = Quality(holdActive: bool, recallRequired: bool, recallComplete: bool)
  datatype DomainContext = DomainContext(
    domainId: string, domainPackVersion: string, sectorGroup: string, riskTier: string,
    jurisdiction: string, evidenceTypes: seq<string>)

  datatype State = State(
    request: Request, actors: Actors, authority: Authority, evidence: Evidence,
    workflow: Workflow, resources: Resources, routing: Routing, policy: Policy,
    consent: Consent, decisionBody: DecisionBody, custody: Custody,
    delegationCondition: DelegationCondition, obligation: Obligation, budget: Budget,
    quality: Quality, domainContext: DomainContext, conflict: bool)

  // The nineteen fields a SET operation can write

  datatype Field =
    | PolicyVersion | RouteAccepted | DelegationRevoked | EvidenceStatus | EvidenceReceivedAt
    | PolicyAllowed | JurisdictionMatch | Conflict | RequestWellFormed | EvidenceValidUntil
    | AuthorityScopeMatch | ConsentActive | VotesPresent | CustodyIntact | DelegationSatisfied
    | ReportedAt | BudgetEncumbered | QualityHeld | RecallComplete

  /** A status is a text too; Text stands for the others. */
  datatype Value = Null | Bool(b: bool) | Int(n: int) | Text(s: string) | Status(q: Semantic)

  /** A dotted target, by what it names; TargetText in the state tree gives the text back. */
  datatype Target =
    | FieldTarget(field: Field) | ApprovalsTarget | ReservedTarget | AppealTarget | OtherTarget(path: string)

  datatype Op =
    | Set(field: Field) | AddApproval | RemoveApproval | AdjustReservation
    | OpenAppeal | ResolveAppeal | Noop | Unrecognized(name: string)

  datatype Event = Event(
    id: string, time: int, priority: int, sequence: int, actor: string,
    op: Op, target: Target, value: Value)

  /** The field a target names, if it names one. */
  function FieldAt(target: Target): Option<Field> {
    match target case FieldTarget(f) => Some(f) case _ => None
  }

  function StatusName(q: Semantic): string {
    match q
    case True => "TRUE"
    case False => "FALSE"
    case Unknown => "UNKNOWN"
    case Missing => "MISSING"
    case Contested => "CONTESTED"
    case Invalid => "INVALID"
  }

  /** The text of a value, if it is one. */
  function AsText(v: Value): Option<string> {
    match v
    case Text(s) => Some(s)
    case Status(q) => Some(StatusName(q))
    case _ => None
  }

  /** The kinds of value each field stores. */
  predicate Fits(f: Field, v: Value) {
    match f
    case PolicyVersion | VotesPresent | BudgetEncumbered => v.Int?
    case EvidenceReceivedAt | EvidenceValidUntil | ReportedAt => v.Int? || v.Null?
    case EvidenceStatus => v.Status?
    case _ => v.Bool?
  }

  function ToOption(v: Value): Option<int>
    requires v.Int? || v.Null?
  {
    if v.Null? then None else Some(v.n)
  }

  function FromOption(o: Option<int>): Value {
    match o case None => Null case Some(n) => Int(n)
  }

  function Read(s: State, f: Field): (v: Value)
    ensures Fits(f, v)
  {
    match f
    case PolicyVersion => Int(s.policy.version)
    case RouteAccepted => Bool(s.routing.accepted)
    case DelegationRevoked => Bool(s.authority.revoked)
    case EvidenceStatus => Status(s.evidence.status)
    case EvidenceReceivedAt => FromOption(s.evidence.receivedAt)
    case PolicyAllowed => Bool(s.policy.allows)
    case JurisdictionMatch => Bool(s.routing.jurisdictionMatch)
    case Conflict => Bool(s.conflict)
    case RequestWellFormed => Bool(s.request.wellFormed)
    case EvidenceValidUntil => FromOption(s.evidence.validUntil)
    case AuthorityScopeMatch => Bool(s.authority.scopeMatch)
    case ConsentActive => Bool(s.consent.active)
    case VotesPresent => Int(s.decisionBody.votesPresent)
    case CustodyIntact => Bool(s.custody.chainIntact)
    case DelegationSatisfied => Bool(s.delegationCondition.satisfied)
    case ReportedAt => FromOption(s.obligation.reportedAt)
    case BudgetEncumbered => Int(s.budget.encumbered)
    case QualityHeld => Bool(s.quality.holdActive)
    case RecallComplete => Bool(s.quality.recallComplete)
  }

  function Write(s: State, f: Field, v: Value): State
    requires Fits(f, v)
  {
    match f
    case PolicyVersion => s.(policy := s.policy.(version := v.n))
    case RouteAccepted => s.(routing := s.routing.(accepted := v.b))
    case DelegationRevoked => s.(authority := s.authority.(revoked := v.b))
    case EvidenceStatus => s.(evidence := s.evidence.(status := v.q))
    case EvidenceReceivedAt => s.(evidence := s.evidence.(receivedAt := ToOption(v)))
    case PolicyAllowed => s.(policy := s.policy.(allows := v.b))
    case JurisdictionMatch => s.(routing := s.routing.(jurisdictionMatch := v.b))
    case Conflict => s.(conflict := v.b)
    case RequestWellFormed => s.(request := s.request.(wellFormed := v.b))
    case EvidenceValidUntil => s.(evidence := s.evidence.(validUntil := ToOption(v)))
    case AuthorityScopeMatch => s.(authority := s.authority.(scopeMatch := v.b))
    case ConsentActive => s.(consent := s.consent.(active := v.b))
    case VotesPresent => s.(decisionBody := s.decisionBody.(votesPresent := v.n))
    case CustodyIntact => s.(custody := s.custody.(chainIntact := v.b))
    case DelegationSatisfied => s.(delegationCondition := s.delegationCondition.(satisfied := v.b))
    case ReportedAt => s.(obligation := s.obligation.(reportedAt := ToOption(v)))
    case BudgetEncumbered => s.(budget := s.budget.(encumbered := v.n))
    case QualityHeld => s.(quality := s.quality.(holdActive := v.b))
    case RecallComplete => s.(quality := s.quality.(recallComplete := v.b))
  }

  /** Fields are independent cells: a write is read back and touches no other field. */
  lemma WriteRead(s: State, f: Field, v: Value, g: Field)
    requires Fits(f, v)
    ensures Read(Write(s, f, v), g) == if f == g then v else Read(s, g)
  {
  }

  /** The scheduling key: time, then priority, then sequence, then identifier. */
  function EventKey(e: Event): Key {
    [e.time, e.priority, e.sequence] + Codes(e.id)
  }

  lemma EventKeyParts(d: Event, e: Event)
    ensures EventKey(d) == EventKey(e) <==>
      d.time == e.time && d.priority == e.priority && d.sequence == e.sequence && d.id == e.id
  {
    if EventKey(d) == EventKey(e) {
      assert EventKey(d)[0] == EventKey(e)[0] && EventKey(d)[1] == EventKey(e)[1] && EventKey(d)[2] == EventKey(e)[2];
      assert EventKey(d)[3..] == Codes(d.id) && EventKey(e)[3..] == Codes(e.id);
      CodesInjective(d.id, e.id);
    }
  }

  /** The key orders events the way a tuple comparison does. */
  lemma EventKeyOrder(d: Event, e: Event)
    ensures Less(EventKey(d), EventKey(e)) <==>
      d.time < e.time || (d.time == e.time &&
      (d.priority < e.priority || (d.priority == e.priority &&
      (d.sequence < e.sequence || (d.sequence == e.sequence && Less(Codes(d.id), Codes(e.id)))))))
  {
    var c, c' := Codes(d.id), Codes(e.id);
    LessCons(d.sequence, c, e.sequence, c');
    LessCons(d.priority, [d.sequence] + c, e.priority, [e.sequence] + c');
    LessCons(d.time, [d.priority] + ([d.sequence] + c), e.time, [e.priority] + ([e.sequence] + c'));
    assert EventKey(d) == [d.time] + ([d.priority] + ([d.sequence] + c));
    assert EventKey(e) == [e.time] + ([e.priority] + ([e.sequence] + c'));
  }

  /** SET events carry the canonical target of their field. */
  predicate WellTargeted(e: Event) {
    e.op.Set? ==> e.target == FieldTarget(e.op.field)
  }
}
