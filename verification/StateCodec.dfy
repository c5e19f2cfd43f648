/** The typed state as the nested dictionary the repository stores, and the typed writes as the
    dictionary writes of the two engines. */
module StateCodec {
  import opened Paths
  import EventNet
  import opened StateTree
  import Transition

  function Optional(o: EventNet.Option<int>): Tree {
    match o case None => Tree.None case Some(n) => Number(n)
  }

  function Texts(items: seq<string>): Tree {
    Items(seq(|items|, i requires 0 <= i < |items| => Word(items[i])))
  }

  function EncodeActor(a: EventNet.Actor): Tree {
    Dict(map["actor_id" := Word(a.actorId), "rank" := Number(a.rank)])
  }

  function EncodeValue(v: EventNet.Value): Tree {
    match v
    case Null => Tree.None
    case Bool(b) => Flag(b)
    case Int(n) => Number(n)
    case Text(s) => Word(s)
    case Status(q) => Word(EventNet.StatusName(q))
  }

  function Request(r: EventNet.Request): Tree {
    Dict(map[
      "request_id" := Word(r.requestId), "scope" := Word(r.scope), "query_time" := Number(r.queryTime),
      "source_institution" := Word(r.sourceInstitution), "target_institution" := Word(r.targetInstitution),
      "required_policy_version" := Number(r.requiredPolicyVersion), "well_formed" := Flag(r.wellFormed)])
  }

  function Actors(a: EventNet.Actors): Tree {
    Dict(map["requester" := EncodeActor(a.requester), "delegator" := EncodeActor(a.delegator),
             "approver" := EncodeActor(a.approver), "reviewer" := EncodeActor(a.reviewer)])
  }

  function Authority(a: EventNet.Authority): Tree {
    Dict(map["active" := Flag(a.active), "revoked" := Flag(a.revoked), "scope_match" := Flag(a.scopeMatch),
             "required_rank" := Number(a.requiredRank), "valid_from" := Number(a.validFrom), "valid_to" := Number(a.validTo)])
  }

  function Evidence(e: EventNet.Evidence): Tree {
    Dict(map["status" := Word(EventNet.StatusName(e.status)), "source" := Word(e.source),
             "received_at" := Optional(e.receivedAt), "valid_until" := Optional(e.validUntil)])
  }

  function Workflow(w: EventNet.Workflow): Tree {
    Dict(map["workflow_name" := Word(w.workflowName), "required_approvals" := Texts(w.requiredApprovals),
             "approvals" := Texts(w.approvals), "appeal_open" := Flag(w.appealOpen), "appeal_resolved" := Flag(w.appealResolved)])
  }

  function Resources(r: EventNet.Resources): Tree {
    Dict(map["capacity" := Number(r.capacity), "reserved" := Number(r.reserved),
             "demand" := Number(r.demand)])
  }

  function Routing(r: EventNet.Routing): Tree {
    Dict(map["required" := Flag(r.required), "accepted" := Flag(r.accepted),
             "jurisdiction_match" := Flag(r.jurisdictionMatch)])
  }

  function Policy(p: EventNet.Policy): Tree {
    Dict(map["allows" := Flag(p.allows), "version" := Number(p.version),
             "effective_at" := Number(p.effectiveAt)])
  }

  function Consent(c: EventNet.Consent): Tree {
    Dict(map["required" := Flag(c.required), "active" := Flag(c.active)])
  }

  function DecisionBody(d: EventNet.DecisionBody): Tree {
    Dict(map["quorum_required" := Number(d.quorumRequired),
             "votes_present" := Number(d.votesPresent)])
  }

  function Custody(c: EventNet.Custody): Tree {
    Dict(map["chain_required" := Flag(c.chainRequired),
             "chain_intact" := Flag(c.chainIntact)])
  }

  function DelegationCondition(d: EventNet.DelegationCondition): Tree {
    Dict(map["required" := Flag(d.required),
             "satisfied" := Flag(d.satisfied)])
  }

  function Obligation(o: EventNet.Obligation): Tree {
    Dict(map["reporting_required" := Flag(o.reportingRequired),
             "deadline" := Number(o.deadline),
             "reported_at" := Optional(o.reportedAt)])
  }

  function Budget(b: EventNet.Budget): Tree {
    Dict(map["available" := Number(b.available), "encumbered" := Number(b.encumbered),
             "required" := Number(b.required)])
  }

  function Quality(q: EventNet.Quality): Tree {
    Dict(map["hold_active" := Flag(q.holdActive),
             "recall_required" := Flag(q.recallRequired),
             "recall_complete" := Flag(q.recallComplete)])
  }

  function DomainContext(d: EventNet.DomainContext): Tree {
    Dict(map["domain_id" := Word(d.domainId),
             "domain_pack_version" := Word(d.domainPackVersion),
             "sector_group" := Word(d.sectorGroup),
             "risk_tier" := Word(d.riskTier),
             "jurisdiction" := Word(d.jurisdiction),
             "evidence_types" := Texts(d.evidenceTypes)])
  }

  datatype SectionName =
    | RequestSection | ActorsSection | AuthoritySection | EvidenceSection | WorkflowSection | ResourcesSection
    | RoutingSection | PolicySection | ConsentSection | DecisionBodySection | CustodySection | DelegationSection
    | ObligationSection | BudgetSection | QualitySection | DomainSection | ConflictFlag

  /** The key of a section. */
  function Key(n: SectionName): string {
    match n
    case RequestSection => "request"
    case ActorsSection => "actors"
    case AuthoritySection => "authority"
    case EvidenceSection => "evidence"
    case WorkflowSection => "workflow"
    case ResourcesSection => "resources"
    case RoutingSection => "routing"
    case PolicySection => "policy"
    case ConsentSection => "consent"
    case DecisionBodySection => "decision_body"
    case CustodySection => "custody"
    case DelegationSection => "delegation_condition"
    case ObligationSection => "obligation"
    case BudgetSection => "budget"
    case QualitySection => "quality"
    case DomainSection => "domain_context"
    case ConflictFlag => "conflict"
  }

  function Section(s: EventNet.State, n: SectionName): Tree {
    match n
    case RequestSection => Request(s.request)
    case ActorsSection => Actors(s.actors)
    case AuthoritySection => Authority(s.authority)
    case EvidenceSection => Evidence(s.evidence)
    case WorkflowSection => Workflow(s.workflow)
    case ResourcesSection => Resources(s.resources)
    case RoutingSection => Routing(s.routing)
    case PolicySection => Policy(s.policy)
    case ConsentSection => Consent(s.consent)
    case DecisionBodySection => DecisionBody(s.decisionBody)
    case CustodySection => Custody(s.custody)
    case DelegationSection => DelegationCondition(s.delegationCondition)
    case ObligationSection => Obligation(s.obligation)
    case BudgetSection => Budget(s.budget)
    case QualitySection => Quality(s.quality)
    case DomainSection => DomainContext(s.domainContext)
    case ConflictFlag => Flag(s.conflict)
  }

  lemma KeysDistinct(m: SectionName, n: SectionName)
    requires Key(m) == Key(n)
    ensures m == n
  {
    assert |Key(m)| == |Key(n)| && Key(m)[0] == Key(n)[0] && Key(m)[2] == Key(n)[2];
  }

  /** The section a key names. */
  function NameOf(key: string): SectionName
    requires exists n :: Key(n) == key
  {
    var n :| Key(n) == key;
    n
  }

  lemma NameOfKey(n: SectionName)
    ensures NameOf(Key(n)) == n
  {
    KeysDistinct(NameOf(Key(n)), n);
  }

  function Keys(): (keys: set<string>)
    ensures forall k :: k in keys <==> exists n :: Key(n) == k
  {
    set n: SectionName :: Key(n)
  }

  /** The dictionary behind a state. */
  function Encode(s: EventNet.State): (t: Tree)
    ensures t.Dict? && t.fields.Keys == Keys()
  {
    Dict(map k | k in Keys() :: Section(s, NameOf(k)))
  }

  /** Where a field lives in the state, section first. */
  function PathOf(f: EventNet.Field): (path: seq<string>)
    ensures path != []
  {
    match f
    case PolicyVersion => ["policy", "version"]
    case RouteAccepted => ["routing", "accepted"]
    case DelegationRevoked => ["authority", "revoked"]
    case EvidenceStatus => ["evidence", "status"]
    case EvidenceReceivedAt => ["evidence", "received_at"]
    case PolicyAllowed => ["policy", "allows"]
    case JurisdictionMatch => ["routing", "jurisdiction_match"]
    case Conflict => ["conflict"]
    case RequestWellFormed => ["request", "well_formed"]
    case EvidenceValidUntil => ["evidence", "valid_until"]
    case AuthorityScopeMatch => ["authority", "scope_match"]
    case ConsentActive => ["consent", "active"]
    case VotesPresent => ["decision_body", "votes_present"]
    case CustodyIntact => ["custody", "chain_intact"]
    case DelegationSatisfied => ["delegation_condition", "satisfied"]
    case ReportedAt => ["obligation", "reported_at"]
    case BudgetEncumbered => ["budget", "encumbered"]
    case QualityHeld => ["quality", "hold_active"]
    case RecallComplete => ["quality", "recall_complete"]
  }

  /** Engine B's table of direct paths: the parent section, if any, and the key. */
  function DirectPath(f: EventNet.Field): (EventNet.Option<string>, string) {
    var path := PathOf(f);
    if |path| == 1 then (EventNet.None, path[0]) else (EventNet.Some(path[0]), path[1])
  }

  /** The dotted text of an event's target. */
  function TargetText(t: EventNet.Target): string {
    match t
    case FieldTarget(f) => Join(PathOf(f))
    case ApprovalsTarget => "workflow.approvals"
    case ReservedTarget => "resources.reserved"
    case AppealTarget => "workflow.appeal_open"
    case OtherTarget(path) => path
  }

  lemma PathsDotFree(f: EventNet.Field)
    ensures AllDotFree(PathOf(f)) && |PathOf(f)| <= 2
  {
  }

  /** Two fields never share a dotted target. */
  lemma FieldTextsDistinct(f: EventNet.Field, g: EventNet.Field)
    requires TargetText(EventNet.FieldTarget(f)) == TargetText(EventNet.FieldTarget(g))
    ensures f == g
  {
    PathsDotFree(f);
    PathsDotFree(g);
    JoinInjective(PathOf(f), PathOf(g));
  }

  // Writes

  function SectionOf(f: EventNet.Field): SectionName {
    match f
    case PolicyVersion | PolicyAllowed => PolicySection
    case RouteAccepted | JurisdictionMatch => RoutingSection
    case DelegationRevoked | AuthorityScopeMatch => AuthoritySection
    case EvidenceStatus | EvidenceReceivedAt | EvidenceValidUntil => EvidenceSection
    case Conflict => ConflictFlag
    case RequestWellFormed => RequestSection
    case ConsentActive => ConsentSection
    case VotesPresent => DecisionBodySection
    case CustodyIntact => CustodySection
    case DelegationSatisfied => DelegationSection
    case ReportedAt => ObligationSection
    case BudgetEncumbered => BudgetSection
    case QualityHeld | RecallComplete => QualitySection
  }

  lemma SectionOfPath(f: EventNet.Field)
    ensures PathOf(f)[0] == Key(SectionOf(f))
  {
  }

  /** A write leaves every other section alone. */
  lemma OtherSections(s: EventNet.State, f: EventNet.Field, v: EventNet.Value, n: SectionName)
    requires EventNet.Fits(f, v) && n != SectionOf(f)
    ensures Section(EventNet.Write(s, f, v), n) == Section(s, n)
  {
    hide Request, Actors, Authority, Evidence, Workflow, Resources, Routing, Policy, Consent, DecisionBody, Custody,
      DelegationCondition, Obligation, Budget, Quality, DomainContext;
    match f {
      case PolicyVersion | PolicyAllowed =>
      case RouteAccepted | JurisdictionMatch =>
      case DelegationRevoked | AuthorityScopeMatch =>
      case EvidenceStatus | EvidenceReceivedAt | EvidenceValidUntil =>
      case _ =>
    }
  }

  ghost predicate WritesOneKey(s: EventNet.State, f: EventNet.Field, v: EventNet.Value)
    requires EventNet.Fits(f, v)
  {
    var before, after := Section(s, SectionOf(f)), Section(EventNet.Write(s, f, v), SectionOf(f));
    if f.Conflict? then after == EncodeValue(v)
    else before.Dict? && |PathOf(f)| == 2 && after == Dict(before.fields[PathOf(f)[1] := EncodeValue(v)])
  }

  /** In its own section it updates one key. */
  lemma OwnSection(s: EventNet.State, f: EventNet.Field, v: EventNet.Value)
    requires EventNet.Fits(f, v)
    ensures WritesOneKey(s, f, v)
  {
    match f {
      case PolicyVersion | PolicyAllowed => PolicyWrites(s, f, v);
      case RouteAccepted | JurisdictionMatch => RoutingWrites(s, f, v);
      case DelegationRevoked => RevocationWrites(s, v);
      case AuthorityScopeMatch => ScopeWrites(s, v);
      case EvidenceStatus | EvidenceReceivedAt | EvidenceValidUntil => EvidenceWrites(s, f, v);
      case ConsentActive | VotesPresent => ConsentWrites(s, f, v);
      case CustodyIntact | DelegationSatisfied => ConditionWrites(s, f, v);
      case ReportedAt | BudgetEncumbered => ObligationWrites(s, f, v);
      case QualityHeld => HoldWrites(s, v);
      case RecallComplete => RecallWrites(s, v);
      case _ =>
    }
  }

  lemma PolicyWrites(s: EventNet.State, f: EventNet.Field, v: EventNet.Value)
    requires EventNet.Fits(f, v) && (f.PolicyVersion? || f.PolicyAllowed?)
    ensures WritesOneKey(s, f, v)
  {
  }

  lemma RoutingWrites(s: EventNet.State, f: EventNet.Field, v: EventNet.Value)
    requires EventNet.Fits(f, v) && (f.RouteAccepted? || f.JurisdictionMatch?)
    ensures WritesOneKey(s, f, v)
  {
  }

  lemma RevocationWrites(s: EventNet.State, v: EventNet.Value)
    requires v.Bool?
    ensures WritesOneKey(s, EventNet.DelegationRevoked, v)
  {
  }

  lemma ScopeWrites(s: EventNet.State, v: EventNet.Value)
    requires v.Bool?
    ensures WritesOneKey(s, EventNet.AuthorityScopeMatch, v)
  {
  }

  lemma EvidenceWrites(s: EventNet.State, f: EventNet.Field, v: EventNet.Value)
    requires EventNet.Fits(f, v) && (f.EvidenceStatus? || f.EvidenceReceivedAt? || f.EvidenceValidUntil?)
    ensures WritesOneKey(s, f, v)
  {
  }

  lemma ConsentWrites(s: EventNet.State, f: EventNet.Field, v: EventNet.Value)
    requires EventNet.Fits(f, v) && (f.ConsentActive? || f.VotesPresent?)
    ensures WritesOneKey(s, f, v)
  {
  }

  lemma ConditionWrites(s: EventNet.State, f: EventNet.Field, v: EventNet.Value)
    requires EventNet.Fits(f, v) && (f.CustodyIntact? || f.DelegationSatisfied?)
    ensures WritesOneKey(s, f, v)
  {
  }

  lemma ObligationWrites(s: EventNet.State, f: EventNet.Field, v: EventNet.Value)
    requires EventNet.Fits(f, v) && (f.ReportedAt? || f.BudgetEncumbered?)
    ensures WritesOneKey(s, f, v)
  {
  }

  lemma HoldWrites(s: EventNet.State, v: EventNet.Value)
    requires v.Bool?
    ensures WritesOneKey(s, EventNet.QualityHeld, v)
  {
  }

  lemma RecallWrites(s: EventNet.State, v: EventNet.Value)
    requires v.Bool?
    ensures WritesOneKey(s, EventNet.RecallComplete, v)
  {
    assert "recall_required"[7] != "recall_complete"[7];
  }

  lemma SectionLookup(s: EventNet.State, n: SectionName)
    ensures Key(n) in Encode(s).fields && Encode(s).fields[Key(n)] == Section(s, n)
  {
    hide Section, Key;
    NameOfKey(n);
  }

  /** Replacing one section of the encoding. */
  lemma SectionReplaced(s: EventNet.State, t: EventNet.State, n: SectionName)
    requires forall m :: m != n ==> Section(t, m) == Section(s, m)
    ensures Encode(t) == Dict(Encode(s).fields[Key(n) := Section(t, n)])
  {
    hide Section, Key, Keys, NameOf, Encode;
    var a, b := Encode(t).fields, Encode(s).fields[Key(n) := Section(t, n)];
    SectionLookup(s, n);
    assert a.Keys == b.Keys;
    forall k | k in a
      ensures a[k] == b[k]
    {
      var m :| Key(m) == k;
      SectionLookup(s, m);
      SectionLookup(t, m);
      if m == n {
      } else if Key(m) == Key(n) {
        KeysDistinct(m, n);
        assert false;
      }
    }
  }

  /** A two-part write updates one key of one section. */
  lemma SetPathInSection(s: EventNet.State, n: SectionName, key: string, v: Tree)
    requires Section(s, n).Dict?
    ensures SetPath(Encode(s), [Key(n), key], v)
         == Written(Dict(Encode(s).fields[Key(n) := Dict(Section(s, n).fields[key := v])]))
  {
    hide Section, Key, Encode;
    SectionLookup(s, n);
    var path := [Key(n), key];
    assert path[1..] == [key];
  }

  /** set_path on the dictionary at a field's path is the typed write of that field. */
  lemma SetPathIsWrite(s: EventNet.State, f: EventNet.Field, v: EventNet.Value)
    requires EventNet.Fits(f, v)
    ensures SetPath(Encode(s), PathOf(f), EncodeValue(v)) == Written(Encode(EventNet.Write(s, f, v)))
  {
    hide Section, Encode, EncodeValue, EventNet.Write, Key;
    var t, n := EventNet.Write(s, f, v), SectionOf(f);
    OwnSection(s, f, v);
    SectionOfPath(f);
    forall m | m != n
      ensures Section(t, m) == Section(s, m)
    {
      OtherSections(s, f, v, m);
    }
    SectionReplaced(s, t, n);
    SectionLookup(s, n);
    if f.Conflict? {
      assert PathOf(f) == [Key(n)];
    } else {
      SetPathInSection(s, n, PathOf(f)[1], EncodeValue(v));
      assert PathOf(f) == [Key(n), PathOf(f)[1]];
    }
  }

  /** result[key] = value, or result[parent][key] = value; raises as subscription does. */
  function TableWrite(t: Tree, entry: (EventNet.Option<string>, string), v: Tree): Outcome {
    if !t.Dict? then Raised
    else
      match entry.0
      case None => Written(Dict(t.fields[entry.1 := v]))
      case Some(parent) =>
        if parent !in t.fields || !t.fields[parent].Dict? then Raised
        else Written(Dict(t.fields[parent := Dict(t.fields[parent].fields[entry.1 := v])]))
  }

  lemma TableWriteIsSetPath(t: Tree, f: EventNet.Field, v: Tree)
    requires t.Dict?
    ensures TableWrite(t, DirectPath(f), v) == SetPath(t, PathOf(f), v)
  {
    PathsDotFree(f);
    var path := PathOf(f);
    if |path| == 2 {
      assert path[1..] == [path[1]];
    }
  }

  /** Both engines' dictionary writes for a well-targeted SET event are the typed step: the dotted
      write of engine A along the event's own target, and the table write of engine B. */
  lemma SetStepsAgreeWithDictionary(s: EventNet.State, e: EventNet.Event)
    requires e.op.Set? && EventNet.WellTargeted(e) && EventNet.Fits(e.op.field, e.value)
    ensures Transition.TransitionA(s, e).Ok?
    ensures var t := Written(Encode(Transition.TransitionA(s, e).value));
      && SetDotted(Encode(s), TargetText(e.target), EncodeValue(e.value)) == t
      && TableWrite(Encode(s), DirectPath(e.op.field), EncodeValue(e.value)) == t
  {
    hide Encode, EncodeValue, EventNet.Write, PathOf;
    var f := e.op.field;
    PathsDotFree(f);
    SplitJoin(PathOf(f));
    SetPathIsWrite(s, f, e.value);
    SectionLookup(s, ConflictFlag);
    TableWriteIsSetPath(Encode(s), f, EncodeValue(e.value));
  }

  /** The remaining operations, as the dictionary assignments both engines make. */
  lemma ApprovalsWrite(s: EventNet.State, approvals: seq<string>)
    ensures SetPath(Encode(s), [Key(WorkflowSection), "approvals"], Texts(approvals))
         == Written(Encode(Transition.WithApprovals(s, approvals)))
  {
    hide Encode;
    var t := Transition.WithApprovals(s, approvals);
    SectionReplaced(s, t, WorkflowSection);
    SetPathInSection(s, WorkflowSection, "approvals", Texts(approvals));
    assert Section(t, WorkflowSection) == Dict(Section(s, WorkflowSection).fields["approvals" := Texts(approvals)]);
  }

  lemma ReservationWrite(s: EventNet.State, reserved: int)
    ensures SetPath(Encode(s), [Key(ResourcesSection), "reserved"], Number(reserved))
         == Written(Encode(s.(resources := s.resources.(reserved := reserved))))
  {
    hide Encode;
    var t := s.(resources := s.resources.(reserved := reserved));
    SectionReplaced(s, t, ResourcesSection);
    SetPathInSection(s, ResourcesSection, "reserved", Number(reserved));
    assert Section(t, ResourcesSection) == Dict(Section(s, ResourcesSection).fields["reserved" := Number(reserved)]);
  }

  /** One key of the workflow section. */
  lemma WorkflowWrite(s: EventNet.State, t: EventNet.State, key: string, v: Tree)
    requires t == s.(workflow := t.workflow)
    requires Workflow(s.workflow).Dict? && Workflow(t.workflow) == Dict(Workflow(s.workflow).fields[key := v])
    ensures SetPath(Encode(s), [Key(WorkflowSection), key], v) == Written(Encode(t))
  {
    hide Encode, Request, Actors, Authority, Evidence, Workflow, Resources, Routing, Policy, Consent, DecisionBody,
      Custody, DelegationCondition, Obligation, Budget, Quality, DomainContext;
    SectionReplaced(s, t, WorkflowSection);
    SetPathInSection(s, WorkflowSection, key, v);
  }

  lemma AppealWrites(s: EventNet.State, open: bool)
    ensures var first := SetPath(Encode(s), [Key(WorkflowSection), "appeal_open"], Flag(open));
      && first.Written?
      && SetPath(first.tree, [Key(WorkflowSection), "appeal_resolved"], Flag(!open))
         == Written(Encode(Transition.WithAppeal(s, open)))
  {
    hide Encode, Texts, Section;
    var u := s.(workflow := s.workflow.(appealOpen := open));
    WorkflowWrite(s, u, "appeal_open", Flag(open));
    WorkflowWrite(u, Transition.WithAppeal(s, open), "appeal_resolved", Flag(!open));
  }

  // Differences of states

  /** A section has the same shape in every state. */
  lemma SectionKeepsShape(s: EventNet.State, t: EventNet.State, n: SectionName)
    ensures SameShape(Section(s, n), Section(t, n))
  {
    hide Section;
    match n
    case ActorsSection => ActorsKeepShape(s, t);
    case RequestSection => RequestKeepsShape(s, t, n);
    case ConflictFlag => RequestKeepsShape(s, t, n);
    case AuthoritySection => AuthorityKeepsShape(s, t, n);
    case EvidenceSection => EvidenceKeepsShape(s, t, n);
    case WorkflowSection => WorkflowKeepsShape(s, t, n);
    case DomainSection => DomainKeepsShape(s, t, n);
    case ResourcesSection => ResourcesKeepShape(s, t, n);
    case RoutingSection => ResourcesKeepShape(s, t, n);
    case PolicySection => ResourcesKeepShape(s, t, n);
    case ConsentSection => ConditionsKeepShape(s, t, n);
    case DecisionBodySection => ConditionsKeepShape(s, t, n);
    case CustodySection => ConditionsKeepShape(s, t, n);
    case DelegationSection => ConditionsKeepShape(s, t, n);
    case ObligationSection => ObligationKeepsShape(s, t, n);
    case BudgetSection => BudgetKeepsShape(s, t, n);
    case QualitySection => BudgetKeepsShape(s, t, n);
  }

  lemma RequestKeepsShape(s: EventNet.State, t: EventNet.State, n: SectionName)
    requires n.RequestSection? || n.ConflictFlag?
    ensures SameShape(Section(s, n), Section(t, n))
  {
  }

  lemma AuthorityKinds(a: EventNet.Authority)
    ensures var m := Authority(a).fields;
      && m.Keys == {"active", "revoked", "scope_match", "required_rank", "valid_from", "valid_to"}
      && m["active"].Flag? && m["revoked"].Flag? && m["scope_match"].Flag?
      && m["required_rank"].Number? && m["valid_from"].Number? && m["valid_to"].Number?
  {
  }

  lemma AuthorityIsDictionary(a: EventNet.Authority)
    ensures Authority(a).Dict?
  {
  }

  lemma AuthorityKeepsShape(s: EventNet.State, t: EventNet.State, n: SectionName)
    requires n.AuthoritySection?
    ensures SameShape(Section(s, n), Section(t, n))
  {
    AuthorityKinds(s.authority);
    AuthorityKinds(t.authority);
    hide Authority;
    AuthorityIsDictionary(s.authority);
    AuthorityIsDictionary(t.authority);
  }

  lemma EvidenceKeepsShape(s: EventNet.State, t: EventNet.State, n: SectionName)
    requires n.EvidenceSection?
    ensures SameShape(Section(s, n), Section(t, n))
  {
  }

  lemma WorkflowKeepsShape(s: EventNet.State, t: EventNet.State, n: SectionName)
    requires n.WorkflowSection?
    ensures SameShape(Section(s, n), Section(t, n))
  {
  }

  lemma DomainKeepsShape(s: EventNet.State, t: EventNet.State, n: SectionName)
    requires n.DomainSection?
    ensures SameShape(Section(s, n), Section(t, n))
  {
  }

  lemma ResourcesKeepShape(s: EventNet.State, t: EventNet.State, n: SectionName)
    requires n.ResourcesSection? || n.RoutingSection? || n.PolicySection?
    ensures SameShape(Section(s, n), Section(t, n))
  {
  }

  lemma ConditionsKeepShape(s: EventNet.State, t: EventNet.State, n: SectionName)
    requires n.ConsentSection? || n.DecisionBodySection? || n.CustodySection? || n.DelegationSection?
    ensures SameShape(Section(s, n), Section(t, n))
  {
  }

  lemma ObligationKeepsShape(s: EventNet.State, t: EventNet.State, n: SectionName)
    requires n.ObligationSection?
    ensures SameShape(Section(s, n), Section(t, n))
  {
  }

  lemma BudgetKeepsShape(s: EventNet.State, t: EventNet.State, n: SectionName)
    requires n.BudgetSection? || n.QualitySection?
    ensures SameShape(Section(s, n), Section(t, n))
  {
  }

  lemma ActorsKeepShape(s: EventNet.State, t: EventNet.State)
    ensures SameShape(Section(s, ActorsSection), Section(t, ActorsSection))
  {
    hide EncodeActor;
    ActorKeepsShape(s.actors.requester, t.actors.requester);
    ActorKeepsShape(s.actors.delegator, t.actors.delegator);
    ActorKeepsShape(s.actors.approver, t.actors.approver);
    ActorKeepsShape(s.actors.reviewer, t.actors.reviewer);
  }

  lemma ActorKeepsShape(a: EventNet.Actor, b: EventNet.Actor)
    ensures SameShape(EncodeActor(a), EncodeActor(b))
  {
  }

  lemma EvidencePlain(s: EventNet.State, n: SectionName)
    requires n.AuthoritySection? || n.EvidenceSection?
    ensures PlainKeys(Section(s, n)) && PlainKey(Key(n))
  {
  }

  lemma WorkflowPlain(s: EventNet.State, n: SectionName)
    requires n.WorkflowSection? || n.ResourcesSection?
    ensures PlainKeys(Section(s, n)) && PlainKey(Key(n))
  {
  }

  lemma PolicyPlain(s: EventNet.State, n: SectionName)
    requires n.RoutingSection? || n.PolicySection? || n.ConsentSection?
    ensures PlainKeys(Section(s, n)) && PlainKey(Key(n))
  {
  }

  lemma ConditionPlain(s: EventNet.State, n: SectionName)
    requires n.DecisionBodySection? || n.CustodySection? || n.DelegationSection?
    ensures PlainKeys(Section(s, n)) && PlainKey(Key(n))
  {
  }

  lemma ObligationPlain(s: EventNet.State, n: SectionName)
    requires n.ObligationSection? || n.BudgetSection? || n.QualitySection?
    ensures PlainKeys(Section(s, n)) && PlainKey(Key(n))
  {
  }

  lemma DomainPlain(s: EventNet.State, n: SectionName)
    requires n.DomainSection?
    ensures PlainKeys(Section(s, n)) && PlainKey(Key(n))
  {
  }

  lemma ActorsPlain(s: EventNet.State)
    ensures PlainKeys(Section(s, ActorsSection)) && PlainKey(Key(ActorsSection))
  {
    hide EncodeActor, Request, Authority, Evidence, Workflow, Resources, Routing, Policy, Consent, DecisionBody, Custody,
      DelegationCondition, Obligation, Budget, Quality, DomainContext;
    ActorPlain(s.actors.requester);
    ActorPlain(s.actors.delegator);
    ActorPlain(s.actors.approver);
    ActorPlain(s.actors.reviewer);
  }

  lemma ActorPlain(a: EventNet.Actor)
    ensures PlainKeys(EncodeActor(a))
  {
  }

  lemma SectionPlain(s: EventNet.State, n: SectionName)
    ensures PlainKeys(Section(s, n)) && PlainKey(Key(n))
  {
    match n {
      case ActorsSection => ActorsPlain(s);
      case AuthoritySection | EvidenceSection => EvidencePlain(s, n);
      case WorkflowSection | ResourcesSection => WorkflowPlain(s, n);
      case RoutingSection | PolicySection | ConsentSection => PolicyPlain(s, n);
      case DecisionBodySection | CustodySection | DelegationSection => ConditionPlain(s, n);
      case ObligationSection | BudgetSection | QualitySection => ObligationPlain(s, n);
      case DomainSection => DomainPlain(s, n);
      case RequestSection | ConflictFlag =>
    }
  }

  lemma StatePlain(s: EventNet.State)
    ensures PlainKeys(Encode(s))
  {
    hide Encode, Section, Key;
    forall k | k in Encode(s).fields
      ensures PlainKey(k) && PlainKeys(Encode(s).fields[k])
    {
      var n :| Key(n) == k;
      SectionLookup(s, n);
      SectionPlain(s, n);
    }
  }

  // The dictionary tells states apart

  lemma TextsFaithful(a: seq<string>, b: seq<string>)
    requires Texts(a) == Texts(b)
    ensures a == b
  {
    assert |a| == |Texts(a).items| == |Texts(b).items| == |b|;
    forall i | 0 <= i < |a|
      ensures a[i] == b[i]
    {
      assert Texts(a).items[i] == Texts(b).items[i];
    }
  }

  lemma ActorFaithful(a: EventNet.Actor, b: EventNet.Actor)
    requires EncodeActor(a) == EncodeActor(b)
    ensures a == b
  {
    var m, n := EncodeActor(a).fields, EncodeActor(b).fields;
    assert m["actor_id"] == n["actor_id"];
    assert m["rank"] == n["rank"];
  }

  lemma RequestFaithful(s: EventNet.State, t: EventNet.State)
    requires Section(s, RequestSection) == Section(t, RequestSection)
    ensures s.request == t.request
  {
    var m, n := Section(s, RequestSection).fields, Section(t, RequestSection).fields;
    assert m["request_id"] == n["request_id"];
    assert m["scope"] == n["scope"];
    assert m["query_time"] == n["query_time"];
    assert m["source_institution"] == n["source_institution"];
    assert m["target_institution"] == n["target_institution"];
    assert m["required_policy_version"] == n["required_policy_version"];
    assert m["well_formed"] == n["well_formed"];
  }

  lemma ActorsFaithful(s: EventNet.State, t: EventNet.State)
    requires Section(s, ActorsSection) == Section(t, ActorsSection)
    ensures s.actors == t.actors
  {
    var m, n := Section(s, ActorsSection).fields, Section(t, ActorsSection).fields;
    assert m["requester"] == n["requester"];
    assert m["delegator"] == n["delegator"];
    assert m["approver"] == n["approver"];
    assert m["reviewer"] == n["reviewer"];
    ActorFaithful(s.actors.requester, t.actors.requester);
    ActorFaithful(s.actors.delegator, t.actors.delegator);
    ActorFaithful(s.actors.approver, t.actors.approver);
    ActorFaithful(s.actors.reviewer, t.actors.reviewer);
  }

  lemma AuthorityFaithful(s: EventNet.State, t: EventNet.State)
    requires Section(s, AuthoritySection) == Section(t, AuthoritySection)
    ensures s.authority == t.authority
  {
    var m, n := Section(s, AuthoritySection).fields, Section(t, AuthoritySection).fields;
    assert m["active"] == n["active"];
    assert m["revoked"] == n["revoked"];
    assert m["scope_match"] == n["scope_match"];
    assert m["required_rank"] == n["required_rank"];
    assert m["valid_from"] == n["valid_from"];
    assert m["valid_to"] == n["valid_to"];
  }

  lemma EvidenceFaithful(s: EventNet.State, t: EventNet.State)
    requires Section(s, EvidenceSection) == Section(t, EvidenceSection)
    ensures s.evidence == t.evidence
  {
    var m, n := Section(s, EvidenceSection).fields, Section(t, EvidenceSection).fields;
    assert m["status"] == n["status"];
    assert m["source"] == n["source"];
    assert m["received_at"] == n["received_at"];
    assert m["valid_until"] == n["valid_until"];
  }

  lemma WorkflowFaithful(s: EventNet.State, t: EventNet.State)
    requires Section(s, WorkflowSection) == Section(t, WorkflowSection)
    ensures s.workflow == t.workflow
  {
    var m, n := Section(s, WorkflowSection).fields, Section(t, WorkflowSection).fields;
    assert m["workflow_name"] == n["workflow_name"];
    assert m["required_approvals"] == n["required_approvals"];
    assert m["approvals"] == n["approvals"];
    assert m["appeal_open"] == n["appeal_open"];
    assert m["appeal_resolved"] == n["appeal_resolved"];
    TextsFaithful(s.workflow.requiredApprovals, t.workflow.requiredApprovals);
    TextsFaithful(s.workflow.approvals, t.workflow.approvals);
  }

  lemma ResourcesFaithful(s: EventNet.State, t: EventNet.State)
    requires Section(s, ResourcesSection) == Section(t, ResourcesSection)
    ensures s.resources == t.resources
  {
    var m, n := Section(s, ResourcesSection).fields, Section(t, ResourcesSection).fields;
    assert m["capacity"] == n["capacity"];
    assert m["reserved"] == n["reserved"];
    assert m["demand"] == n["demand"];
  }

  lemma RoutingFaithful(s: EventNet.State, t: EventNet.State)
    requires Section(s, RoutingSection) == Section(t, RoutingSection)
    ensures s.routing == t.routing
  {
    var m, n := Section(s, RoutingSection).fields, Section(t, RoutingSection).fields;
    assert m["required"] == n["required"];
    assert m["accepted"] == n["accepted"];
    assert m["jurisdiction_match"] == n["jurisdiction_match"];
  }

  lemma PolicyFaithful(s: EventNet.State, t: EventNet.State)
    requires Section(s, PolicySection) == Section(t, PolicySection)
    ensures s.policy == t.policy
  {
    var m, n := Section(s, PolicySection).fields, Section(t, PolicySection).fields;
    assert m["allows"] == n["allows"];
    assert m["version"] == n["version"];
    assert m["effective_at"] == n["effective_at"];
  }

  lemma ConsentFaithful(s: EventNet.State, t: EventNet.State)
    requires Section(s, ConsentSection) == Section(t, ConsentSection)
    ensures s.consent == t.consent
  {
    var m, n := Section(s, ConsentSection).fields, Section(t, ConsentSection).fields;
    assert m["required"] == n["required"];
    assert m["active"] == n["active"];
  }

  lemma DecisionBodyFaithful(s: EventNet.State, t: EventNet.State)
    requires Section(s, DecisionBodySection) == Section(t, DecisionBodySection)
    ensures s.decisionBody == t.decisionBody
  {
    var m, n := Section(s, DecisionBodySection).fields, Section(t, DecisionBodySection).fields;
    assert m["quorum_required"] == n["quorum_required"];
    assert m["votes_present"] == n["votes_present"];
  }

  lemma CustodyFaithful(s: EventNet.State, t: EventNet.State)
    requires Section(s, CustodySection) == Section(t, CustodySection)
    ensures s.custody == t.custody
  {
    var m, n := Section(s, CustodySection).fields, Section(t, CustodySection).fields;
    assert m["chain_required"] == n["chain_required"];
    assert m["chain_intact"] == n["chain_intact"];
  }

  lemma DelegationFaithful(s: EventNet.State, t: EventNet.State)
    requires Section(s, DelegationSection) == Section(t, DelegationSection)
    ensures s.delegationCondition == t.delegationCondition
  {
    var m, n := Section(s, DelegationSection).fields, Section(t, DelegationSection).fields;
    assert m["required"] == n["required"];
    assert m["satisfied"] == n["satisfied"];
  }

  lemma ObligationFaithful(s: EventNet.State, t: EventNet.State)
    requires Section(s, ObligationSection) == Section(t, ObligationSection)
    ensures s.obligation == t.obligation
  {
    var m, n := Section(s, ObligationSection).fields, Section(t, ObligationSection).fields;
    assert m["reporting_required"] == n["reporting_required"];
    assert m["deadline"] == n["deadline"];
    assert m["reported_at"] == n["reported_at"];
  }

  lemma BudgetFaithful(s: EventNet.State, t: EventNet.State)
    requires Section(s, BudgetSection) == Section(t, BudgetSection)
    ensures s.budget == t.budget
  {
    var m, n := Section(s, BudgetSection).fields, Section(t, BudgetSection).fields;
    assert m["available"] == n["available"];
    assert m["encumbered"] == n["encumbered"];
    assert m["required"] == n["required"];
  }

  lemma QualityFaithful(s: EventNet.State, t: EventNet.State)
    requires Section(s, QualitySection) == Section(t, QualitySection)
    ensures s.quality == t.quality
  {
    var m, n := Section(s, QualitySection).fields, Section(t, QualitySection).fields;
    assert m["hold_active"] == n["hold_active"];
    assert m["recall_required"] == n["recall_required"];
    assert m["recall_complete"] == n["recall_complete"];
  }

  lemma DomainFaithful(s: EventNet.State, t: EventNet.State)
    requires Section(s, DomainSection) == Section(t, DomainSection)
    ensures s.domainContext == t.domainContext
  {
    var m, n := Section(s, DomainSection).fields, Section(t, DomainSection).fields;
    assert m["domain_id"] == n["domain_id"];
    assert m["domain_pack_version"] == n["domain_pack_version"];
    assert m["sector_group"] == n["sector_group"];
    assert m["risk_tier"] == n["risk_tier"];
    assert m["jurisdiction"] == n["jurisdiction"];
    assert m["evidence_types"] == n["evidence_types"];
    TextsFaithful(s.domainContext.evidenceTypes, t.domainContext.evidenceTypes);
  }

  lemma SameSection(s: EventNet.State, t: EventNet.State, n: SectionName)
    requires Encode(s) == Encode(t)
    ensures Section(s, n) == Section(t, n)
  {
    hide Section, Key, Encode;
    SectionLookup(s, n);
    SectionLookup(t, n);
  }

  /** The dictionary determines the state: nothing the engines hold is lost in it. */
  lemma EncodeInjective(s: EventNet.State, t: EventNet.State)
    requires Encode(s) == Encode(t)
    ensures s == t
  {
    hide Encode, Section, Key;
    forall n
      ensures Section(s, n) == Section(t, n)
    {
      SameSection(s, t, n);
    }
    RequestFaithful(s, t);
    ActorsFaithful(s, t);
    AuthorityFaithful(s, t);
    EvidenceFaithful(s, t);
    WorkflowFaithful(s, t);
    ResourcesFaithful(s, t);
    RoutingFaithful(s, t);
    PolicyFaithful(s, t);
    ConsentFaithful(s, t);
    DecisionBodyFaithful(s, t);
    CustodyFaithful(s, t);
    DelegationFaithful(s, t);
    ObligationFaithful(s, t);
    BudgetFaithful(s, t);
    QualityFaithful(s, t);
    DomainFaithful(s, t);
    assert s.conflict == t.conflict by {
      ConflictFaithful(s, t);
    }
  }

  lemma ConflictFaithful(s: EventNet.State, t: EventNet.State)
    requires Section(s, ConflictFlag) == Section(t, ConflictFlag)
    ensures s.conflict == t.conflict
  {
  }

  /** The changes recorded between two states, written back along their dotted texts, always turn the
      first into the second; nothing is recorded exactly when the states are the same; and the texts
      the changes are recorded under are those of the structured paths. */
  lemma StateDiffRoundTrip(s: EventNet.State, t: EventNet.State)
    ensures ChangedFields(Encode(s), Encode(t), "") == AsChanges([], Diff(Encode(s), Encode(t)))
    ensures PatchDotted(Encode(s), Recorded(Diff(Encode(s), Encode(t)))) == Written(Encode(t))
    ensures ChangedFields(Encode(s), Encode(t), "") == map[] <==> s == t
  {
    hide Encode, Section, Key, Diff, Patch, PatchDotted, Same, Merged;
    StatesShareShape(s, t);
    SameShapeIsExact(Encode(s), Encode(t));
    PatchYieldsMerged(Encode(s), Encode(t));
    NoChangeIffEqual(Encode(s), Encode(t), "");
    if Encode(s) == Encode(t) {
      EncodeInjective(s, t);
    }
    StatePlain(s);
    StatePlain(t);
    ChangedFieldsIsDiff(Encode(s), Encode(t), []);
    DiffPathsPlain(Encode(s), Encode(t));
    PatchDottedIsPatch(Encode(s), Diff(Encode(s), Encode(t)));
  }

  lemma StatesShareShape(s: EventNet.State, t: EventNet.State)
    ensures SameShape(Encode(s), Encode(t))
  {
    hide Encode, Section, Key;
    forall k | k in Encode(s).fields
      ensures SameShape(Encode(s).fields[k], Encode(t).fields[k])
    {
      var n :| Key(n) == k;
      SectionLookup(s, n);
      SectionLookup(t, n);
      SectionKeepsShape(s, t, n);
    }
  }
}
