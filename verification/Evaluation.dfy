/** The seventeen-gate priority ladder, written as a conditional chain and as a factor table. */
module Evaluation {
  import opened EventNet
  import opened Sorting

  datatype Gate =
    | MalformedRequest | UnresolvedContest | AuthorityGate | DelegationConditionGate | ConsentGate
    | RoutingOrJurisdiction | PolicyGate | EvidenceFalseOrExpired | EvidenceCustody
    | EvidenceUnavailable | WorkflowApproval | QuorumGate | ReportingObligation | BudgetCapacity
    | QualityHold | RecallIncomplete | ResourceCapacity

  datatype Verdict = Verdict(semantic: Semantic, decision: Decision, failed: seq<Gate>)

  datatype Outcome = Outcome(
    verdict: Verdict, authorityPath: seq<string>, evidencePath: (string, Semantic),
    routingPath: seq<string>, resourceDelta: int, advances: bool, bindingAuthority: bool)

  /** The certificate both evaluators wrap around their verdict. */
  function Certificate(s: State, v: Verdict): Outcome {
    Outcome(
      v,
      [s.actors.requester.actorId, s.actors.delegator.actorId, s.request.targetInstitution],
      (s.evidence.source, s.evidence.status),
      [s.request.sourceInstitution, s.request.targetInstitution],
      if v.decision.Allow? then -s.resources.demand else 0,
      v.decision.Allow?,
      false)
  }

  function VerdictA(s: State): Verdict {
    var now := s.request.queryTime;
    if !s.request.wellFormed then
      Verdict(Semantic.Invalid, Decision.Invalid, [MalformedRequest])
    else if s.conflict || (s.workflow.appealOpen && !s.workflow.appealResolved) then
      Verdict(Semantic.Contested, Decision.Contested, [UnresolvedContest])
    else if !s.authority.active || s.authority.revoked || !s.authority.scopeMatch
         || s.actors.requester.rank < s.authority.requiredRank
         || !(s.authority.validFrom <= now <= s.authority.validTo) then
      Verdict(False, Deny, [AuthorityGate])
    else if s.delegationCondition.required && !s.delegationCondition.satisfied then
      Verdict(False, Deny, [DelegationConditionGate])
    else if s.consent.required && !s.consent.active then
      Verdict(False, Deny, [ConsentGate])
    else if s.routing.required && (!s.routing.accepted || !s.routing.jurisdictionMatch) then
      Verdict(False, Deny, [RoutingOrJurisdiction])
    else if !s.policy.allows || s.policy.version != s.request.requiredPolicyVersion || now < s.policy.effectiveAt then
      Verdict(False, Deny, [PolicyGate])
    else if s.evidence.status.False? || (s.evidence.validUntil.Some? && s.evidence.validUntil.value < now) then
      Verdict(False, Deny, [EvidenceFalseOrExpired])
    else if s.custody.chainRequired && !s.custody.chainIntact then
      Verdict(False, Deny, [EvidenceCustody])
    else if s.evidence.status.Unknown? || s.evidence.status.Missing?
         || s.evidence.receivedAt.None? || s.evidence.receivedAt.value > now then
      Verdict(if s.evidence.status.Unknown? || s.evidence.status.Missing? then s.evidence.status else Unknown,
              Abstain, [EvidenceUnavailable])
    else if !(forall r :: r in s.workflow.requiredApprovals ==> r in s.workflow.approvals) then
      Verdict(Unknown, Abstain, [WorkflowApproval])
    else if s.decisionBody.votesPresent < s.decisionBody.quorumRequired then
      Verdict(Unknown, Abstain, [QuorumGate])
    else if s.obligation.reportingRequired && s.obligation.deadline <= now
         && (s.obligation.reportedAt.None? || s.obligation.reportedAt.value > s.obligation.deadline) then
      Verdict(Unknown, Abstain, [ReportingObligation])
    else if s.budget.required > s.budget.available - s.budget.encumbered then
      Verdict(Unknown, Abstain, [BudgetCapacity])
    else if s.quality.holdActive then
      Verdict(False, Deny, [QualityHold])
    else if s.quality.recallRequired && !s.quality.recallComplete then
      Verdict(False, Deny, [RecallIncomplete])
    else if s.resources.demand > s.resources.capacity - s.resources.reserved then
      Verdict(Unknown, Abstain, [ResourceCapacity])
    else
      Verdict(True, Allow, [])
  }

  function EvaluateA(s: State): Outcome {
    Certificate(s, VerdictA(s))
  }

  datatype Row = Row(hit: bool, semantic: Semantic, decision: Decision, gate: Gate)

  /** The factor table, in priority order. */
  function Factors(s: State): (rows: seq<Row>)
    ensures |rows| == 17
  {
    var now := s.request.queryTime;
    var missingApproval := Elements(s.workflow.requiredApprovals) - Elements(s.workflow.approvals) != {};
    var unavailable := s.evidence.status.Unknown? || s.evidence.status.Missing?;
    [ Row(!s.request.wellFormed, Semantic.Invalid, Decision.Invalid, MalformedRequest),
      Row(s.conflict || (s.workflow.appealOpen && !s.workflow.appealResolved),
          Semantic.Contested, Decision.Contested, UnresolvedContest),
      Row(!s.authority.active || s.authority.revoked || !s.authority.scopeMatch
          || s.actors.requester.rank < s.authority.requiredRank
          || now < s.authority.validFrom || now > s.authority.validTo,
          False, Deny, AuthorityGate),
      Row(s.delegationCondition.required && !s.delegationCondition.satisfied, False, Deny, DelegationConditionGate),
      Row(s.consent.required && !s.consent.active, False, Deny, ConsentGate),
      Row(s.routing.required && (!s.routing.accepted || !s.routing.jurisdictionMatch), False, Deny, RoutingOrJurisdiction),
      Row(!s.policy.allows || s.policy.version != s.request.requiredPolicyVersion || now < s.policy.effectiveAt,
          False, Deny, PolicyGate),
      Row(s.evidence.status.False? || (s.evidence.validUntil.Some? && s.evidence.validUntil.value < now),
          False, Deny, EvidenceFalseOrExpired),
      Row(s.custody.chainRequired && !s.custody.chainIntact, False, Deny, EvidenceCustody),
      Row(unavailable || s.evidence.receivedAt.None? || s.evidence.receivedAt.value > now,
          if unavailable then s.evidence.status else Unknown, Abstain, EvidenceUnavailable),
      Row(missingApproval, Unknown, Abstain, WorkflowApproval),
      Row(s.decisionBody.votesPresent < s.decisionBody.quorumRequired, Unknown, Abstain, QuorumGate),
      Row(s.obligation.reportingRequired && s.obligation.deadline <= now
          && (s.obligation.reportedAt.None? || s.obligation.reportedAt.value > s.obligation.deadline),
          Unknown, Abstain, ReportingObligation),
      Row(s.budget.required > s.budget.available - s.budget.encumbered, Unknown, Abstain, BudgetCapacity),
      Row(s.quality.holdActive, False, Deny, QualityHold),
      Row(s.quality.recallRequired && !s.quality.recallComplete, False, Deny, RecallIncomplete),
      Row(s.resources.demand > s.resources.capacity - s.resources.reserved, Unknown, Abstain, ResourceCapacity) ]
  }

  /** The verdict of the first row that hits. */
  function FirstHit(rows: seq<Row>): Verdict {
    if rows == [] then Verdict(True, Allow, [])
    else if rows[0].hit then Verdict(rows[0].semantic, rows[0].decision, [rows[0].gate])
    else FirstHit(rows[1..])
  }

  function EvaluateB(s: State): Outcome {
    Certificate(s, FirstHit(Factors(s)))
  }

  /** The table scan with its early exit. */
  method ScanTable(rows: seq<Row>) returns (v: Verdict)
    ensures v == FirstHit(rows)
  {
    v := Verdict(True, Allow, []);
    for i := 0 to |rows|
      invariant v == Verdict(True, Allow, [])
      invariant FirstHit(rows) == FirstHit(rows[i..])
    {
      if rows[i].hit {
        v := Verdict(rows[i].semantic, rows[i].decision, [rows[i].gate]);
        return;
      }
      assert rows[i..][1..] == rows[i + 1..];
    }
  }

  /** Which row decides: the first that hits, and only that one. */
  lemma {:induction false} FirstHitMeaning(rows: seq<Row>, i: nat)
    requires i <= |rows|
    requires forall j :: 0 <= j < i ==> !rows[j].hit
    ensures i == |rows| ==> FirstHit(rows) == Verdict(True, Allow, [])
    ensures i < |rows| && rows[i].hit ==> FirstHit(rows) == Verdict(rows[i].semantic, rows[i].decision, [rows[i].gate])
  {
    if 0 < i {
      FirstHitMeaning(rows[1..], i - 1);
    }
  }

  lemma FirstHitExists(rows: seq<Row>) returns (i: nat)
    ensures i <= |rows| && (forall j :: 0 <= j < i ==> !rows[j].hit) && (i < |rows| ==> rows[i].hit)
  {
    i := 0;
    while i < |rows| && !rows[i].hit
      invariant i <= |rows| && forall j :: 0 <= j < i ==> !rows[j].hit
    {
      i := i + 1;
    }
  }

  lemma MissingApprovalForms(s: State)
    ensures Elements(s.workflow.requiredApprovals) - Elements(s.workflow.approvals) != {}
       <==> !(forall r :: r in s.workflow.requiredApprovals ==> r in s.workflow.approvals)
  {
    var missing := Elements(s.workflow.requiredApprovals) - Elements(s.workflow.approvals);
    if missing != {} {
      var r :| r in missing;
      assert r in s.workflow.requiredApprovals && r !in s.workflow.approvals;
    }
    forall r | r in s.workflow.requiredApprovals && r !in s.workflow.approvals
      ensures r in missing
    {
    }
  }

  /** The chain picks the verdict of the first row that hits. */
  lemma ChainFollowsTable(s: State, i: nat)
    requires i <= 17
    requires forall j :: 0 <= j < i ==> !Factors(s)[j].hit
    requires i < 17 ==> Factors(s)[i].hit
    ensures i == 17 ==> VerdictA(s) == Verdict(True, Allow, [])
    ensures i < 17 ==> VerdictA(s) == Verdict(Factors(s)[i].semantic, Factors(s)[i].decision, [Factors(s)[i].gate])
  {
    MissingApprovalForms(s);
    var t := Factors(s);
    assert 0 < i ==> !t[0].hit;
    assert 1 < i ==> !t[1].hit;
    assert 2 < i ==> !t[2].hit;
    assert 3 < i ==> !t[3].hit;
    assert 4 < i ==> !t[4].hit;
    assert 5 < i ==> !t[5].hit;
    assert 6 < i ==> !t[6].hit;
    assert 7 < i ==> !t[7].hit;
    assert 8 < i ==> !t[8].hit;
    assert 9 < i ==> !t[9].hit;
    assert 10 < i ==> !t[10].hit;
    assert 11 < i ==> !t[11].hit;
    assert 12 < i ==> !t[12].hit;
    assert 13 < i ==> !t[13].hit;
    assert 14 < i ==> !t[14].hit;
    assert 15 < i ==> !t[15].hit;
    assert 16 < i ==> !t[16].hit;
    assert i in {0, 1, 2, 3, 4, 5, 6, 7, 8, 9, 10, 11, 12, 13, 14, 15, 16, 17};
  }

  /** Every state gets the same certificate from the chain and from the table. */
  lemma EvaluatorsAgree(s: State)
    ensures EvaluateA(s) == EvaluateB(s)
  {
    var i := FirstHitExists(Factors(s));
    FirstHitMeaning(Factors(s), i);
    ChainFollowsTable(s, i);
  }

  /** ALLOW means that no gate fails, and it is the only verdict without a failed condition. */
  lemma AllowMeansEveryGatePasses(s: State)
    ensures EvaluateA(s).verdict.decision.Allow? <==> forall i :: 0 <= i < 17 ==> !Factors(s)[i].hit
    ensures EvaluateA(s).verdict.decision.Allow? <==> EvaluateA(s).verdict.failed == []
    ensures EvaluateA(s).advances <==> EvaluateA(s).verdict.decision.Allow?
  {
    var i := FirstHitExists(Factors(s));
    ChainFollowsTable(s, i);
  }

  /** A named failure is the most urgent one: its gate fails and no earlier gate does. */
  lemma FailureIsMostUrgent(s: State, i: nat)
    requires i < 17 && EvaluateA(s).verdict.failed == [Factors(s)[i].gate]
    ensures Factors(s)[i].hit && forall j :: 0 <= j < i ==> !Factors(s)[j].hit
    ensures EvaluateA(s).verdict.decision == Factors(s)[i].decision
  {
    hide Factors, Rank;
    var k := FirstHitExists(Factors(s));
    ChainFollowsTable(s, k);
    RankOfRow(s, i);
    if k < 17 {
      RankOfRow(s, k);
    }
  }

  /** What ALLOW says about the institution. */
  lemma AllowIff(s: State)
    ensures var now := s.request.queryTime; EvaluateA(s).verdict.decision.Allow? <==>
      && s.request.wellFormed
      && !s.conflict && (s.workflow.appealOpen ==> s.workflow.appealResolved)
      && s.authority.active && !s.authority.revoked && s.authority.scopeMatch
      && s.authority.requiredRank <= s.actors.requester.rank
      && s.authority.validFrom <= now <= s.authority.validTo
      && (s.delegationCondition.required ==> s.delegationCondition.satisfied)
      && (s.consent.required ==> s.consent.active)
      && (s.routing.required ==> s.routing.accepted && s.routing.jurisdictionMatch)
      && s.policy.allows && s.policy.version == s.request.requiredPolicyVersion && s.policy.effectiveAt <= now
      && s.evidence.status !in {False, Unknown, Missing}
      && (s.evidence.validUntil.Some? ==> now <= s.evidence.validUntil.value)
      && s.evidence.receivedAt.Some? && s.evidence.receivedAt.value <= now
      && (s.custody.chainRequired ==> s.custody.chainIntact)
      && (forall r :: r in s.workflow.requiredApprovals ==> r in s.workflow.approvals)
      && s.decisionBody.quorumRequired <= s.decisionBody.votesPresent
      && (s.obligation.reportingRequired && s.obligation.deadline <= now ==>
            s.obligation.reportedAt.Some? && s.obligation.reportedAt.value <= s.obligation.deadline)
      && s.budget.encumbered + s.budget.required <= s.budget.available
      && !s.quality.holdActive && (s.quality.recallRequired ==> s.quality.recallComplete)
      && s.resources.reserved + s.resources.demand <= s.resources.capacity
  {
  }

  /** Whether a gate is at fault, said for each gate alone. */
  ghost predicate AtFault(g: Gate, s: State) {
    var now := s.request.queryTime;
    match g
    case MalformedRequest => !s.request.wellFormed
    case UnresolvedContest => s.conflict || (s.workflow.appealOpen && !s.workflow.appealResolved)
    case AuthorityGate =>
      !(s.authority.active && !s.authority.revoked && s.authority.scopeMatch
        && s.authority.requiredRank <= s.actors.requester.rank
        && s.authority.validFrom <= now <= s.authority.validTo)
    case DelegationConditionGate => !(s.delegationCondition.required ==> s.delegationCondition.satisfied)
    case ConsentGate => !(s.consent.required ==> s.consent.active)
    case RoutingOrJurisdiction => !(s.routing.required ==> s.routing.accepted && s.routing.jurisdictionMatch)
    case PolicyGate =>
      !(s.policy.allows && s.policy.version == s.request.requiredPolicyVersion && s.policy.effectiveAt <= now)
    case EvidenceFalseOrExpired =>
      s.evidence.status.False? || exists t :: s.evidence.validUntil == Some(t) && t < now
    case EvidenceCustody => !(s.custody.chainRequired ==> s.custody.chainIntact)
    case EvidenceUnavailable =>
      s.evidence.status in {Unknown, Missing} || !exists t :: s.evidence.receivedAt == Some(t) && t <= now
    case WorkflowApproval => exists r :: r in s.workflow.requiredApprovals && r !in s.workflow.approvals
    case QuorumGate => s.decisionBody.votesPresent < s.decisionBody.quorumRequired
    case ReportingObligation =>
      && s.obligation.reportingRequired && s.obligation.deadline <= now
      && !exists t :: s.obligation.reportedAt == Some(t) && t <= s.obligation.deadline
    case BudgetCapacity => s.budget.available < s.budget.encumbered + s.budget.required
    case QualityHold => s.quality.holdActive
    case RecallIncomplete => !(s.quality.recallRequired ==> s.quality.recallComplete)
    case ResourceCapacity => s.resources.capacity < s.resources.reserved + s.resources.demand
  }

  /** How urgent a gate is; 0 is the most urgent. */
  function Rank(g: Gate): (k: nat)
    ensures k < 17
  {
    match g
    case MalformedRequest => 0
    case UnresolvedContest => 1
    case AuthorityGate => 2
    case DelegationConditionGate => 3
    case ConsentGate => 4
    case RoutingOrJurisdiction => 5
    case PolicyGate => 6
    case EvidenceFalseOrExpired => 7
    case EvidenceCustody => 8
    case EvidenceUnavailable => 9
    case WorkflowApproval => 10
    case QuorumGate => 11
    case ReportingObligation => 12
    case BudgetCapacity => 13
    case QualityHold => 14
    case RecallIncomplete => 15
    case ResourceCapacity => 16
  }

  lemma RowOfGate(s: State, g: Gate)
    ensures var row := Factors(s)[Rank(g)]; row.gate == g && (row.hit <==> AtFault(g, s))
  {
    hide Elements;
    MissingApprovalForms(s);
    FaultForms(s);
  }

  lemma RankOfRow(s: State, i: nat)
    requires i < 17
    ensures Rank(Factors(s)[i].gate) == i
  {
    hide Factors, Rank;
    if i < 8 {
      RankOfEarlyRow(s, i);
    } else {
      RankOfLateRow(s, i);
    }
  }

  lemma RankOfEarlyRow(s: State, i: nat)
    requires i < 8
    ensures Rank(Factors(s)[i].gate) == i
  {
    hide Elements;
    assert i in {0, 1, 2, 3, 4, 5, 6, 7};
  }

  lemma RankOfLateRow(s: State, i: nat)
    requires 8 <= i < 17
    ensures Rank(Factors(s)[i].gate) == i
  {
    hide Elements;
    assert i in {8, 9, 10, 11, 12, 13, 14, 15, 16};
  }

  lemma FaultForms(s: State)
    ensures AtFault(EvidenceFalseOrExpired, s) <==>
      s.evidence.status.False? || (s.evidence.validUntil.Some? && s.evidence.validUntil.value < s.request.queryTime)
    ensures AtFault(EvidenceUnavailable, s) <==>
      s.evidence.status.Unknown? || s.evidence.status.Missing?
      || s.evidence.receivedAt.None? || s.evidence.receivedAt.value > s.request.queryTime
    ensures AtFault(ReportingObligation, s) <==>
      s.obligation.reportingRequired && s.obligation.deadline <= s.request.queryTime
      && (s.obligation.reportedAt.None? || s.obligation.reportedAt.value > s.obligation.deadline)
  {
    assert s.evidence.validUntil.Some? ==> s.evidence.validUntil == Some(s.evidence.validUntil.value);
    assert s.evidence.receivedAt.Some? ==> s.evidence.receivedAt == Some(s.evidence.receivedAt.value);
    assert s.obligation.reportedAt.Some? ==> s.obligation.reportedAt == Some(s.obligation.reportedAt.value);
  }

  /** The ladder, said without it: a run's failed condition is the most urgent gate at fault. */
  lemma GateDecides(s: State, g: Gate)
    ensures EvaluateA(s).verdict.failed == [g] <==>
      AtFault(g, s) && forall h :: Rank(h) < Rank(g) ==> !AtFault(h, s)
  {
    hide AtFault, Rank, Factors;
    var k := FirstHitExists(Factors(s));
    ChainFollowsTable(s, k);
    RowOfGate(s, g);
    forall h
      ensures Factors(s)[Rank(h)].hit <==> AtFault(h, s)
    {
      RowOfGate(s, h);
    }
    if k < 17 {
      RankOfRow(s, k);
    }
    if Rank(g) < k {
      assert !Factors(s)[Rank(g)].hit;
    } else if k < Rank(g) {
      assert AtFault(Factors(s)[k].gate, s);
    }
  }

  /** The decision goes with the semantic state, whichever gate decides, and a missing evidence is
      reported as missing only by its own gate. */
  lemma SemanticFitsDecision(s: State)
    ensures var v := EvaluateA(s).verdict;
      && (v.semantic.True? <==> v.decision.Allow?)
      && (v.semantic.False? <==> v.decision.Deny?)
      && (v.semantic.Unknown? || v.semantic.Missing? <==> v.decision.Abstain?)
      && (v.semantic.Contested? <==> v.decision.Contested?)
      && (v.semantic.Invalid? <==> v.decision.Invalid?)
      && (v.semantic.Missing? <==> v.failed == [EvidenceUnavailable] && s.evidence.status.Missing?)
  {
  }
}
