/** Where every value of the typed state is found in the dictionary, by the names the repository uses. */
module StateSchema {
  import opened Paths
  import EventNet
  import opened StateTree
  import opened StateCodec
  import DictionaryStep
  import Generators

  /** The dictionary holds v under a section and a key. */
  ghost predicate Holds(s: EventNet.State, section: string, key: string, v: Tree) {
    Lookup(Encode(s), [section, key]) == Written(v)
  }

  lemma SectionHolds(s: EventNet.State, n: SectionName, key: string)
    requires Section(s, n).Dict? && key in Section(s, n).fields
    ensures Holds(s, Key(n), key, Section(s, n).fields[key])
  {
    hide Section;
    NameOfKey(n);
    var path := [Key(n), key];
    assert path[1..] == [key] && [key][1..] == [];
    var section := Section(s, n);
    assert Lookup(section, [key]) == Lookup(section.fields[key], []);
  }

  lemma RequestSchema(s: EventNet.State)
    ensures var r := s.request;
      && Holds(s, "request", "request_id", Word(r.requestId)) && Holds(s, "request", "scope", Word(r.scope))
      && Holds(s, "request", "query_time", Number(r.queryTime))
      && Holds(s, "request", "source_institution", Word(r.sourceInstitution))
      && Holds(s, "request", "target_institution", Word(r.targetInstitution))
      && Holds(s, "request", "required_policy_version", Number(r.requiredPolicyVersion))
      && Holds(s, "request", "well_formed", Flag(r.wellFormed))
  {
    hide Holds;
    SectionHolds(s, RequestSection, "request_id");
    SectionHolds(s, RequestSection, "scope");
    SectionHolds(s, RequestSection, "query_time");
    SectionHolds(s, RequestSection, "source_institution");
    SectionHolds(s, RequestSection, "target_institution");
    SectionHolds(s, RequestSection, "required_policy_version");
    SectionHolds(s, RequestSection, "well_formed");
  }

  lemma ActorsSchema(s: EventNet.State)
    ensures var a := s.actors;
      && Holds(s, "actors", "requester", EncodeActor(a.requester))
      && Holds(s, "actors", "delegator", EncodeActor(a.delegator))
      && Holds(s, "actors", "approver", EncodeActor(a.approver))
      && Holds(s, "actors", "reviewer", EncodeActor(a.reviewer))
  {
    hide Holds;
    SectionHolds(s, ActorsSection, "requester");
    SectionHolds(s, ActorsSection, "delegator");
    SectionHolds(s, ActorsSection, "approver");
    SectionHolds(s, ActorsSection, "reviewer");
  }

  lemma AuthoritySchema(s: EventNet.State)
    ensures var a := s.authority;
      && Holds(s, "authority", "active", Flag(a.active))
      && Holds(s, "authority", "revoked", Flag(a.revoked))
      && Holds(s, "authority", "scope_match", Flag(a.scopeMatch))
      && Holds(s, "authority", "required_rank", Number(a.requiredRank))
      && Holds(s, "authority", "valid_from", Number(a.validFrom))
      && Holds(s, "authority", "valid_to", Number(a.validTo))
  {
    hide Holds;
    SectionHolds(s, AuthoritySection, "active");
    SectionHolds(s, AuthoritySection, "revoked");
    SectionHolds(s, AuthoritySection, "scope_match");
    SectionHolds(s, AuthoritySection, "required_rank");
    SectionHolds(s, AuthoritySection, "valid_from");
    SectionHolds(s, AuthoritySection, "valid_to");
  }

  lemma EvidenceSchema(s: EventNet.State)
    ensures var e := s.evidence;
      && Holds(s, "evidence", "status", Word(EventNet.StatusName(e.status)))
      && Holds(s, "evidence", "source", Word(e.source))
      && Holds(s, "evidence", "received_at", Optional(e.receivedAt))
      && Holds(s, "evidence", "valid_until", Optional(e.validUntil))
  {
    hide Holds;
    SectionHolds(s, EvidenceSection, "status");
    SectionHolds(s, EvidenceSection, "source");
    SectionHolds(s, EvidenceSection, "received_at");
    SectionHolds(s, EvidenceSection, "valid_until");
  }

  lemma WorkflowSchema(s: EventNet.State)
    ensures var w := s.workflow;
      && Holds(s, "workflow", "workflow_name", Word(w.workflowName))
      && Holds(s, "workflow", "required_approvals", Texts(w.requiredApprovals))
      && Holds(s, "workflow", "approvals", Texts(w.approvals))
      && Holds(s, "workflow", "appeal_open", Flag(w.appealOpen))
      && Holds(s, "workflow", "appeal_resolved", Flag(w.appealResolved))
  {
    hide Holds;
    SectionHolds(s, WorkflowSection, "workflow_name");
    SectionHolds(s, WorkflowSection, "required_approvals");
    SectionHolds(s, WorkflowSection, "approvals");
    SectionHolds(s, WorkflowSection, "appeal_open");
    SectionHolds(s, WorkflowSection, "appeal_resolved");
  }

  lemma ResourcesSchema(s: EventNet.State)
    ensures var r := s.resources;
      && Holds(s, "resources", "capacity", Number(r.capacity))
      && Holds(s, "resources", "reserved", Number(r.reserved))
      && Holds(s, "resources", "demand", Number(r.demand))
  {
    hide Holds;
    SectionHolds(s, ResourcesSection, "capacity");
    SectionHolds(s, ResourcesSection, "reserved");
    SectionHolds(s, ResourcesSection, "demand");
  }

  lemma RoutingSchema(s: EventNet.State)
    ensures var r := s.routing;
      && Holds(s, "routing", "required", Flag(r.required))
      && Holds(s, "routing", "accepted", Flag(r.accepted))
      && Holds(s, "routing", "jurisdiction_match", Flag(r.jurisdictionMatch))
  {
    hide Holds;
    SectionHolds(s, RoutingSection, "required");
    SectionHolds(s, RoutingSection, "accepted");
    SectionHolds(s, RoutingSection, "jurisdiction_match");
  }

  lemma PolicySchema(s: EventNet.State)
    ensures var p := s.policy;
      && Holds(s, "policy", "allows", Flag(p.allows))
      && Holds(s, "policy", "version", Number(p.version))
      && Holds(s, "policy", "effective_at", Number(p.effectiveAt))
  {
    hide Holds;
    SectionHolds(s, PolicySection, "allows");
    SectionHolds(s, PolicySection, "version");
    SectionHolds(s, PolicySection, "effective_at");
  }

  lemma ConsentSchema(s: EventNet.State)
    ensures var c := s.consent;
      && Holds(s, "consent", "required", Flag(c.required))
      && Holds(s, "consent", "active", Flag(c.active))
  {
    hide Holds;
    SectionHolds(s, ConsentSection, "required");
    SectionHolds(s, ConsentSection, "active");
  }

  lemma DecisionBodySchema(s: EventNet.State)
    ensures var d := s.decisionBody;
      && Holds(s, "decision_body", "quorum_required", Number(d.quorumRequired))
      && Holds(s, "decision_body", "votes_present", Number(d.votesPresent))
  {
    hide Holds;
    SectionHolds(s, DecisionBodySection, "quorum_required");
    SectionHolds(s, DecisionBodySection, "votes_present");
  }

  lemma CustodySchema(s: EventNet.State)
    ensures var c := s.custody;
      && Holds(s, "custody", "chain_required", Flag(c.chainRequired))
      && Holds(s, "custody", "chain_intact", Flag(c.chainIntact))
  {
    hide Holds;
    SectionHolds(s, CustodySection, "chain_required");
    SectionHolds(s, CustodySection, "chain_intact");
  }

  lemma DelegationConditionSchema(s: EventNet.State)
    ensures var d := s.delegationCondition;
      && Holds(s, "delegation_condition", "required", Flag(d.required))
      && Holds(s, "delegation_condition", "satisfied", Flag(d.satisfied))
  {
    hide Holds;
    SectionHolds(s, DelegationSection, "required");
    SectionHolds(s, DelegationSection, "satisfied");
  }

  lemma ObligationSchema(s: EventNet.State)
    ensures var o := s.obligation;
      && Holds(s, "obligation", "reporting_required", Flag(o.reportingRequired))
      && Holds(s, "obligation", "deadline", Number(o.deadline))
      && Holds(s, "obligation", "reported_at", Optional(o.reportedAt))
  {
    hide Holds;
    SectionHolds(s, ObligationSection, "reporting_required");
    SectionHolds(s, ObligationSection, "deadline");
    SectionHolds(s, ObligationSection, "reported_at");
  }

  lemma BudgetSchema(s: EventNet.State)
    ensures var b := s.budget;
      && Holds(s, "budget", "available", Number(b.available))
      && Holds(s, "budget", "encumbered", Number(b.encumbered))
      && Holds(s, "budget", "required", Number(b.required))
  {
    hide Holds;
    SectionHolds(s, BudgetSection, "available");
    SectionHolds(s, BudgetSection, "encumbered");
    SectionHolds(s, BudgetSection, "required");
  }

  lemma QualitySchema(s: EventNet.State)
    ensures var q := s.quality;
      && Holds(s, "quality", "hold_active", Flag(q.holdActive))
      && Holds(s, "quality", "recall_required", Flag(q.recallRequired))
      && Holds(s, "quality", "recall_complete", Flag(q.recallComplete))
  {
    hide Holds;
    SectionHolds(s, QualitySection, "hold_active");
    SectionHolds(s, QualitySection, "recall_required");
    SectionHolds(s, QualitySection, "recall_complete");
  }

  lemma DomainContextSchema(s: EventNet.State)
    ensures var d := s.domainContext;
      && Holds(s, "domain_context", "domain_id", Word(d.domainId))
      && Holds(s, "domain_context", "domain_pack_version", Word(d.domainPackVersion))
      && Holds(s, "domain_context", "sector_group", Word(d.sectorGroup))
      && Holds(s, "domain_context", "risk_tier", Word(d.riskTier))
      && Holds(s, "domain_context", "jurisdiction", Word(d.jurisdiction))
      && Holds(s, "domain_context", "evidence_types", Texts(d.evidenceTypes))
  {
    hide Holds;
    SectionHolds(s, DomainSection, "domain_id");
    SectionHolds(s, DomainSection, "domain_pack_version");
    SectionHolds(s, DomainSection, "sector_group");
    SectionHolds(s, DomainSection, "risk_tier");
    SectionHolds(s, DomainSection, "jurisdiction");
    SectionHolds(s, DomainSection, "evidence_types");
  }

  lemma ConflictSchema(s: EventNet.State)
    ensures Lookup(Encode(s), ["conflict"]) == Written(Flag(s.conflict))
  {
    NameOfKey(ConflictFlag);
    assert ["conflict"][1..] == [];
  }

  /** Where an operation without a field of its own says that it writes, there is the cell it writes. */
  lemma TargetsNameTheirCells(s: EventNet.State)
    ensures Lookup(Encode(s), Split(TargetText(Generators.TargetOf(EventNet.AddApproval)))) == Written(Texts(s.workflow.approvals))
    ensures Lookup(Encode(s), Split(TargetText(Generators.TargetOf(EventNet.RemoveApproval)))) == Written(Texts(s.workflow.approvals))
    ensures Lookup(Encode(s), Split(TargetText(Generators.TargetOf(EventNet.AdjustReservation)))) == Written(Number(s.resources.reserved))
    ensures Lookup(Encode(s), Split(TargetText(Generators.TargetOf(EventNet.OpenAppeal)))) == Written(Flag(s.workflow.appealOpen))
    ensures Lookup(Encode(s), Split(TargetText(Generators.TargetOf(EventNet.ResolveAppeal)))) == Written(Flag(s.workflow.appealOpen))
  {
    hide Encode, Split, Lookup;
    DictionaryStep.SplitTwo("workflow", "approvals", "workflow.approvals");
    DictionaryStep.SplitTwo("resources", "reserved", "resources.reserved");
    DictionaryStep.SplitTwo("workflow", "appeal_open", "workflow.appeal_open");
    WorkflowSchema(s);
    ResourcesSchema(s);
  }

  /** The texts of the statuses. */
  lemma StatusTexts(q: EventNet.Semantic)
    ensures EventNet.AsText(EventNet.Status(q)) == EventNet.Some(
      match q
      case True => "TRUE"
      case False => "FALSE"
      case Unknown => "UNKNOWN"
      case Missing => "MISSING"
      case Contested => "CONTESTED"
      case Invalid => "INVALID")
  {
  }
}
