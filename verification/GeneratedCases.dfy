/** What the generators draw on: how institutions vary, by how much a fresh one passes its gates, and
    when and by whom each generated event happens. */
module GeneratedCases {
  import opened Ordering
  import opened EventNet
  import opened Transition
  import opened Evaluation
  import opened Generators
  import opened Counterfactuals

  // Institutions

  /** The rules of an institution repeat every sixty families, and no two families in between share them:
      rank, scope, policy version, capacity and approvals together tell sixty families apart. */
  lemma RulesRepeatEverySixty(pack: DomainPack, names: Names, i: nat, j: nat, index: nat)
    requires pack.workflows != [] && pack.jurisdictions != []
    ensures var c, d := InstitutionConfig(pack, names, i, index), InstitutionConfig(pack, names, j, index);
      (c.requiredRank == d.requiredRank && c.scope == d.scope && c.policyVersion == d.policyVersion
       && c.capacity == d.capacity && c.requiredApprovals == d.requiredApprovals)
      <==> i % 60 == j % 60
  {
    ScopesDiffer(i % 6, j % 6);
    ApprovalsDiffer();
    SixtyFamilies(i, j);
  }

  lemma ScopesDiffer(a: nat, b: nat)
    requires a < 6 && b < 6
    ensures var scopes := ["authorize", "procure", "enroll", "credential", "review", "allocate"];
      scopes[a] == scopes[b] <==> a == b
  {
    var scopes := ["authorize", "procure", "enroll", "credential", "review", "allocate"];
    assert |scopes[0]| == 9 && |scopes[1]| == 7 && |scopes[2]| == 6 && |scopes[3]| == 10 && |scopes[4]| == 6;
    assert |scopes[5]| == 8 && scopes[2][0] == 'e' && scopes[4][0] == 'r';
  }

  lemma ApprovalsDiffer()
    ensures ["domain_owner", "risk_officer"] != ["domain_owner", "records_officer"]
  {
    assert |"risk_officer"| == 12 && |"records_officer"| == 15;
    assert ["domain_owner", "risk_officer"][1] != ["domain_owner", "records_officer"][1];
  }

  lemma SixtyFamilies(i: nat, j: nat)
    ensures (i % 3 == j % 3 && i % 6 == j % 6 && i % 5 == j % 5 && i % 4 == j % 4 && i % 2 == j % 2) <==> i % 60 == j % 60
  {
    var d := i - j;
    if i % 3 == j % 3 && i % 4 == j % 4 && i % 5 == j % 5 {
      var a, b, c := i / 3 - j / 3, i / 4 - j / 4, i / 5 - j / 5;
      assert d == 3 * a == 4 * b == 5 * c;
      assert d == 60 * (5 * (a - b) - 2 * c);
      WholePeriods(i, j, 5 * (a - b) - 2 * c);
    }
    if i % 60 == j % 60 {
      SmallerPeriods(i, j, i / 60 - j / 60);
    }
  }

  lemma SmallerPeriods(i: nat, j: nat, k: int)
    requires i - j == 60 * k
    ensures i % 3 == j % 3 && i % 6 == j % 6 && i % 5 == j % 5 && i % 4 == j % 4 && i % 2 == j % 2
  {
    ThreefoldPeriod(i, j, 20 * k);
    FourfoldPeriod(i, j, 15 * k);
    FivefoldPeriod(i, j, 12 * k);
    SixfoldPeriod(i, j, 10 * k);
    TwofoldPeriod(i, j, 30 * k);
  }

  lemma ThreefoldPeriod(i: nat, j: nat, a: int)
    requires i - j == 3 * a
    ensures i % 3 == j % 3
  {
  }

  lemma FourfoldPeriod(i: nat, j: nat, a: int)
    requires i - j == 4 * a
    ensures i % 4 == j % 4
  {
  }

  lemma FivefoldPeriod(i: nat, j: nat, a: int)
    requires i - j == 5 * a
    ensures i % 5 == j % 5
  {
  }

  lemma SixfoldPeriod(i: nat, j: nat, a: int)
    requires i - j == 6 * a
    ensures i % 6 == j % 6
  {
  }

  lemma TwofoldPeriod(i: nat, j: nat, a: int)
    requires i - j == 2 * a
    ensures i % 2 == j % 2
  {
  }

  lemma WholePeriods(i: nat, j: nat, k: int)
    requires i - j == 60 * k
    ensures i % 60 == j % 60
  {
  }

  /** What a family can ask for, and where a domain pack's lists are used. */
  lemma InstitutionRanges(pack: DomainPack, names: Names, familyId: nat, index: nat)
    requires pack.workflows != [] && pack.jurisdictions != []
    ensures var c := InstitutionConfig(pack, names, familyId, index);
      && 2 <= c.requiredRank <= 4 && 3 <= c.policyVersion <= 7 && 8 <= c.capacity <= 11
      && c.requiredApprovals == ["domain_owner", if familyId % 2 == 0 then "risk_officer" else "records_officer"]
      && c.scope == ["authorize", "procure", "enroll", "credential", "review", "allocate"][familyId % 6]
      && c.workflowName in pack.workflows && c.jurisdiction in pack.jurisdictions
      && c.pack == pack && c.names == names && (c.crossInstitution <==> index % 2 == 0)
  {
  }

  /** Families take a pack's workflows and jurisdictions in turn. */
  lemma ListsInTurn(pack: DomainPack, names: Names, familyId: nat, round: nat, index: nat)
    requires familyId < |pack.workflows| && familyId < |pack.jurisdictions|
    ensures InstitutionConfig(pack, names, familyId + round * |pack.workflows|, index).workflowName == pack.workflows[familyId]
    ensures InstitutionConfig(pack, names, familyId + round * |pack.jurisdictions|, index).jurisdiction
         == pack.jurisdictions[familyId]
  {
    RoundTurns(familyId, round, |pack.workflows|);
    RoundTurns(familyId, round, |pack.jurisdictions|);
  }

  lemma RoundTurns(a: nat, round: nat, n: nat)
    requires a < n
    ensures (a + round * n) % n == a
  {
    var x := a + round * n;
    var q, r := x / n, x % n;
    assert x == n * q + r;
    assert n * (q - round) == a - r;
    if q > round {
      AtLeastOnce(n, q - round);
    } else if q < round {
      assert n * (round - q) == r - a;
      AtLeastOnce(n, round - q);
    }
  }

  lemma AtLeastOnce(n: nat, times: nat)
    requires times >= 1
    ensures n * times >= n
  {
  }

  // A fresh institution

  /** By how much each gate is passed at first: the requester outranks the requirement by one, the
      decision falls well inside every period of validity, quorum and votes are equal, the report was
      made one tick before its deadline and that one tick before the decision, and what is free exceeds
      the demand by two in the budget and by capacity less demand less one in the resources. */
  lemma InitialMargins(c: Config, pairIndex: nat)
    ensures var s := InitialState(c, pairIndex);
      var now := s.request.queryTime;
      && 8 <= now <= 12 && now % 5 == (pairIndex + 3) % 5
      && 3 <= s.resources.demand <= 5 && s.resources.demand % 3 == pairIndex % 3
      && s.actors.requester.rank == s.authority.requiredRank + 1 && s.actors.delegator.rank == s.authority.requiredRank + 2
      && s.actors.approver.rank == s.actors.reviewer.rank == s.actors.requester.rank
      && s.authority.validFrom == 1 && s.authority.validTo == 20 && s.policy.effectiveAt == 1
      && s.evidence.status == Semantic.True && s.evidence.receivedAt == Some(2) && s.evidence.validUntil == Some(20)
      && s.policy.version == s.request.requiredPolicyVersion == c.policyVersion
      && s.workflow.approvals == s.workflow.requiredApprovals == c.requiredApprovals
      && s.decisionBody.quorumRequired == s.decisionBody.votesPresent == 2
      && s.obligation.deadline == now - 1 && s.obligation.reportedAt == Some(now - 2)
      && s.budget.available - s.budget.encumbered - s.budget.required == c.capacity + 2
      && s.resources.capacity - s.resources.reserved - s.resources.demand == c.capacity - s.resources.demand - 1
      && (s.routing.required <==> c.crossInstitution) && s.request.sourceInstitution == c.names.sourceInstitution
      && s.request.targetInstitution
         == (if c.crossInstitution then c.names.targetInstitution else s.request.sourceInstitution)
  {
  }

  /** Whose names a fresh institution carries, and what it takes over from its configuration. */
  lemma InitialNames(c: Config, pairIndex: nat)
    ensures var s := InitialState(c, pairIndex);
      && s.request.requestId == c.names.request && s.request.scope == c.scope
      && s.actors.requester.actorId == c.names.requester && s.actors.delegator.actorId == c.names.delegator
      && s.actors.approver.actorId == c.names.approver && s.actors.reviewer.actorId == c.names.reviewer
      && s.evidence.source == c.names.evidenceSource && s.workflow.workflowName == c.workflowName
      && s.authority.requiredRank == c.requiredRank && s.resources.capacity == c.capacity && s.resources.reserved == 1
      && s.domainContext.domainId == c.pack.domainId && s.domainContext.domainPackVersion == "1.0.0"
      && s.domainContext.sectorGroup == c.pack.sectorGroup && s.domainContext.riskTier == c.pack.riskTier
      && s.domainContext.jurisdiction == c.jurisdiction && s.domainContext.evidenceTypes == c.pack.evidenceTypes
      && s.budget.encumbered == 0 && s.budget.required == s.resources.demand
      && s.consent.required && s.custody.chainRequired && s.delegationCondition.required && s.obligation.reportingRequired
      && !s.quality.recallRequired
  {
  }

  /** What a mechanism withholds or demands before either run: late evidence is missing at first, routing
      and recall are required where they are to be tested, and no other mechanism prepares anything. */
  lemma PreparedCases(m: Mechanism, s: State)
    ensures var p := Prepared(m, s);
      && p.evidence == (if m.DelayedEvidence? then Evidence(Missing, s.evidence.source, None, s.evidence.validUntil) else s.evidence)
      && (p.routing.required <==> s.routing.required || m.RoutingRejection? || m.JurisdictionShift?)
      && (p.quality.recallRequired <==> s.quality.recallRequired || m.RecallIncompletion?)
      && s == p.(evidence := s.evidence, routing := p.routing.(required := s.routing.required),
                 quality := p.quality.(recallRequired := s.quality.recallRequired))
  {
  }

  // The timetable

  /** Tick relative to the decision, priority and actor of a generated event, which carries the name its
      parameters give it. */
  ghost predicate Scheduled(e: Event, ids: EventIds, sequence: int, now: int, offset: int, priority: int, actor: string) {
    && e.sequence == sequence && e.time == now + offset && e.priority == priority && e.actor == actor
    && e.id == ids(sequence, e.op, e.value, now + offset, priority)
  }

  lemma CommonTimetable(s: State, ids: EventIds, count: nat)
    requires s.workflow.requiredApprovals != [] && 1 <= count <= 3
    ensures var c, now, a := CommonEvents(s, ids), s.request.queryTime, s.actors;
      && Scheduled(c[0], ids, 0, now, -6, 30, a.reviewer.actorId)
      && Scheduled(c[1], ids, 1, now, -4, 30, a.approver.actorId)
      && Scheduled(c[2], ids, 2, now, -4, 30, a.reviewer.actorId)
      && Scheduled(c[3], ids, 3, now, -3, 20, a.reviewer.actorId)
      && Scheduled(c[4], ids, 4, now, -2, 20, a.requester.actorId)
    ensures var future, now, a := DecisionClockEvents(s, ids, count), s.request.queryTime, s.actors;
      && Scheduled(future[0], ids, 90, now, 1, 5, a.reviewer.actorId)
      && (count >= 2 ==> Scheduled(future[1], ids, 91, now, 2, 5, a.requester.actorId))
      && (count >= 3 ==> Scheduled(future[2], ids, 92, now, 3, 5, a.approver.actorId))
  {
  }

  /** Who intervenes. */
  function Intervenor(m: Mechanism, a: Actors, second: bool): string {
    match m
    case RevocationPropagation | PriorityRace | ConditionalDelegation => a.delegator.actorId
    case ApprovalWithdrawal | QuorumFailure | BudgetEncumbrance => a.approver.actorId
    case ResourceContention => if second then a.approver.actorId else a.requester.actorId
    case UnresolvedAppeal => if second then a.reviewer.actorId else a.requester.actorId
    case MalformedRequestPair | ConsentWithdrawal => a.requester.actorId
    case _ => a.reviewer.actorId
  }

  /** Extras happen one tick before the decision with priority 20, unless the mechanism is about their time
      or their priority. */
  lemma PivotalTimetable(m: Mechanism, s: State, ids: EventIds, timing: nat)
    requires s.workflow.requiredApprovals != [] && timing < 3
    ensures var x, now, a := PivotalExtras(m, s, ids, timing), s.request.queryTime, s.actors;
      && |x.0| == |x.1| == (if m in {DelayedEvidence, ResourceContention, PriorityRace, UnresolvedAppeal} then 2 else 1)
      && Scheduled(x.0[0], ids, 10, now, if m.UnresolvedAppeal? then timing - 4 else -1,
                   if m.PriorityRace? then 10 else 20, Intervenor(m, a, false))
      && Scheduled(x.1[0], ids, 10, now, if m.UnresolvedAppeal? then timing - 4 else if m.DelayedEvidence? then 1 else -1,
                   if m.PriorityRace? then 10 else 20, Intervenor(m, a, false))
      && (|x.0| == 2 ==>
            && Scheduled(x.0[1], ids, 11, now, -1, if m.DelayedEvidence? then 21 else 20, Intervenor(m, a, true))
            && Scheduled(x.1[1], ids, 11, now,
                         if m.UnresolvedAppeal? then timing + 1 else if m.DelayedEvidence? then 1 else -1,
                         if m.DelayedEvidence? then 21 else if m.PriorityRace? then 5 else 20, Intervenor(m, a, true)))
  {
  }

  // What is deferred

  /** The late events are consequential: each of them, had it been executed on the state in which the base
      run of a mechanism ends in ALLOW, would have ended the run otherwise. */
  lemma LateEventsAreConsequential(m: Mechanism, p: State, ids: EventIds, count: nat, k: nat)
    requires Poised(m, p) && 1 <= count <= 3 && k < count
    ensures var r := TransitionA(BaseEnding(m, p), DecisionClockEvents(p, ids, count)[k]);
      r.Ok? && var v := VerdictA(r.value);
      && (k == 0 ==> v == Verdict(False, Deny, [PolicyGate]))
      && (k == 1 ==> v == Verdict(Semantic.Contested, Decision.Contested, [UnresolvedContest]))
      && (k == 2 ==> v == Verdict(Unknown, Abstain, [WorkflowApproval]))
  {
    if k == 2 {
      LateRemoval(m, p, ids);
    }
  }

  lemma LateRemoval(m: Mechanism, p: State, ids: EventIds)
    requires Poised(m, p)
    ensures var e := DecisionClockEvents(p, ids, 3)[2];
      && TransitionA(BaseEnding(m, p), e).Ok?
      && VerdictA(TransitionA(BaseEnding(m, p), e).value) == Verdict(Unknown, Abstain, [WorkflowApproval])
  {
    LastIsMissing(p.workflow.requiredApprovals);
  }

  /** Delayed evidence is TRUE evidence dated by its arrival, in time in the base queue and too late in the
      other. */
  lemma DelayedEvidenceArrives(s: State, ids: EventIds, timing: nat)
    requires s.workflow.requiredApprovals != [] && timing < 3
    ensures var (base, late) := PivotalExtras(DelayedEvidence, s, ids, timing);
      && base[0].op == late[0].op == Set(EvidenceStatus) && base[0].value == late[0].value == Status(True)
      && base[1].op == late[1].op == Set(EvidenceReceivedAt)
      && base[1].value == Int(base[1].time) && late[1].value == Int(late[1].time)
  {
  }

  /** An appeal event says what it leaves open, and the one that comes too late would have led to the end of
      the base run. */
  lemma AppealEventsSayWhatTheyDo(p: State, ids: EventIds, timing: nat, s: State)
    requires Poised(UnresolvedAppeal, p) && timing < 3
    ensures var (base, late) := PivotalExtras(UnresolvedAppeal, p, ids, timing);
      && (forall e :: e in base || e in late ==>
            TransitionA(s, e).Ok? && e.value == Bool(TransitionA(s, e).value.workflow.appealOpen))
      && TransitionA(ChangedEnding(UnresolvedAppeal, p), late[1]) == Ok(BaseEnding(UnresolvedAppeal, p))
  {
  }
}
