/** The two independently written transition functions and exactly when they agree. */
module Transition {
  import opened Ordering
  import opened Sorting
  import opened EventNet

  function SetField(s: State, f: Field, v: Value): Result<State> {
    if Fits(f, v) then Ok(Write(s, f, v)) else Err(Misfit(f, v))
  }

  function WithApprovals(s: State, approvals: seq<string>): State {
    s.(workflow := s.workflow.(approvals := approvals))
  }

  function WithAppeal(s: State, open: bool): State {
    s.(workflow := s.workflow.(appealOpen := open, appealResolved := !open))
  }

  function Reserve(reserved: int, delta: int): int {
    if reserved + delta < 0 then 0 else reserved + delta
  }

  function Adjust(s: State, v: Value): Result<State> {
    if v.Int? then Ok(s.(resources := s.resources.(reserved := Reserve(s.resources.reserved, v.n))))
    else Err(IllTyped(v))
  }

  // Engine A: writes wherever the event's target points, keeps approvals as a list

  function Without(items: seq<string>, v: string): seq<string> {
    if items == [] then []
    else if items[0] == v then Without(items[1..], v)
    else [items[0]] + Without(items[1..], v)
  }

  function Appended(items: seq<string>, v: string): seq<string> {
    if v in items then items else items + [v]
  }

  function TransitionA(s: State, e: Event): Result<State> {
    match e.op
    case Set(_) =>
      (match FieldAt(e.target)
       case None => Err(UnknownTarget(e.target))
       case Some(f) => SetField(s, f, e.value))
    case AddApproval =>
      (match AsText(e.value)
       case None => Err(IllTyped(e.value))
       case Some(v) => Ok(WithApprovals(s, Sort(Appended(s.workflow.approvals, v), Codes))))
    case RemoveApproval =>
      (match AsText(e.value)
       case None => Ok(s)
       case Some(v) => Ok(WithApprovals(s, Without(s.workflow.approvals, v))))
    case AdjustReservation => Adjust(s, e.value)
    case OpenAppeal => Ok(WithAppeal(s, true))
    case ResolveAppeal => Ok(WithAppeal(s, false))
    case Noop => Ok(s)
    case Unrecognized(name) => Err(UnknownOperation(name))
  }

  // Engine B: writes where its own table says, keeps approvals as a set

  lemma LeastExists(items: set<string>) returns (least: string)
    requires items != {}
    ensures least in items && forall x :: x in items ==> !Less(Codes(x), Codes(least))
  {
    var some :| some in items;
    if items == {some} {
      least := some;
      LessIrreflexive(Codes(some));
    } else {
      var other := LeastExists(items - {some});
      LessIrreflexive(Codes(some));
      LessTotal(Codes(some), Codes(other));
      least := if Less(Codes(some), Codes(other)) then some else other;
      forall x | x in items
        ensures !Less(Codes(x), Codes(least))
      {
        if x != some {
          assert x in items - {some};
          if least == some {
            LessAsymmetric(Codes(some), Codes(other));
            NotAfterTransitive(Codes(some), Codes(other), Codes(x));
          }
        } else if least == other {
          assert !Less(Codes(some), Codes(other));
        }
      }
    }
  }

  lemma LeastUnique(a: string, b: string)
    requires !Less(Codes(a), Codes(b)) && !Less(Codes(b), Codes(a))
    ensures a == b
  {
    LessTotal(Codes(a), Codes(b));
    CodesInjective(a, b);
  }

  /** The least string of a set in code point order. */
  function Least(items: set<string>): (least: string)
    requires items != {}
    ensures least in items && forall x :: x in items ==> !Less(Codes(x), Codes(least))
  {
    assert exists l :: l in items && forall x :: x in items ==> !Less(Codes(x), Codes(l)) by {
      var l := LeastExists(items);
    }
    assert forall a, b :: !Less(Codes(a), Codes(b)) && !Less(Codes(b), Codes(a)) ==> a == b by {
      forall a, b | !Less(Codes(a), Codes(b)) && !Less(Codes(b), Codes(a))
        ensures a == b
      {
        LeastUnique(a, b);
      }
    }
    var l :| l in items && forall x :: x in items ==> !Less(Codes(x), Codes(l));
    l
  }

  /** Python's sorted(set). */
  function SortedElements(items: set<string>): seq<string>
    decreases |items|
  {
    if items == {} then []
    else var l := Least(items); [l] + SortedElements(items - {l})
  }

  lemma {:induction false} SortedElementsCorrect(items: set<string>)
    ensures StrictlySortedBy(SortedElements(items), Codes)
    ensures forall x :: x in SortedElements(items) <==> x in items
    ensures |SortedElements(items)| == |items|
    decreases |items|
  {
    if items != {} {
      var l := Least(items);
      var rest := SortedElements(items - {l});
      SortedElementsCorrect(items - {l});
      forall j | 0 <= j < |rest|
        ensures Less(Codes(l), Codes(rest[j]))
      {
        assert rest[j] in items - {l};
        LessTotal(Codes(l), Codes(rest[j]));
        if Codes(l) == Codes(rest[j]) {
          CodesInjective(l, rest[j]);
        }
      }
    }
  }

  function TransitionB(s: State, e: Event): Result<State> {
    match e.op
    case Set(f) => SetField(s, f, e.value)
    case AddApproval =>
      (match AsText(e.value)
       case None => Err(IllTyped(e.value))
       case Some(v) => Ok(WithApprovals(s, SortedElements(Elements(s.workflow.approvals) + {v}))))
    case RemoveApproval =>
      var discarded := match AsText(e.value) case None => {} case Some(v) => {v};
      Ok(WithApprovals(s, SortedElements(Elements(s.workflow.approvals) - discarded)))
    case AdjustReservation => Adjust(s, e.value)
    case OpenAppeal | ResolveAppeal => Ok(WithAppeal(s, !e.op.ResolveAppeal?))
    case Noop => Ok(s)
    case Unrecognized(name) => Err(UnknownOperation(name))
  }

  // The approval list as a set

  lemma {:induction false} WithoutMembers(items: seq<string>, v: string)
    ensures forall x :: x in Without(items, v) <==> x in items && x != v
    ensures |Without(items, v)| <= |items|
  {
    if items != [] {
      WithoutMembers(items[1..], v);
      assert items == [items[0]] + items[1..];
    }
  }

  lemma {:induction false} WithoutStaysSorted(items: seq<string>, v: string)
    requires StrictlySortedBy(items, Codes)
    ensures StrictlySortedBy(Without(items, v), Codes)
  {
    if items != [] {
      WithoutStaysSorted(items[1..], v);
      WithoutMembers(items[1..], v);
      forall x | x in Without(items[1..], v)
        ensures Less(Codes(items[0]), Codes(x))
      {
        assert x in items[1..];
      }
    }
  }

  lemma AppendedSorted(items: seq<string>, v: string)
    requires NoDuplicates(items)
    ensures StrictlySortedBy(Sort(Appended(items, v), Codes), Codes)
    ensures forall x :: x in Sort(Appended(items, v), Codes) <==> x in items || x == v
  {
    CodesDetermine(Appended(items, v));
    SortStrict(Appended(items, v), Codes);
    SortMembers(Appended(items, v), Codes);
  }

  lemma CodesDetermine(items: seq<string>)
    ensures KeysDetermine(items, Codes)
  {
    forall x, y | x in items && y in items && Codes(x) == Codes(y)
      ensures x == y
    {
      CodesInjective(x, y);
    }
  }

  lemma AddAgreesIff(items: seq<string>, v: string)
    ensures Sort(Appended(items, v), Codes) == SortedElements(Elements(items) + {v}) <==> NoDuplicates(items)
  {
    var a, b := Sort(Appended(items, v), Codes), SortedElements(Elements(items) + {v});
    SortedElementsCorrect(Elements(items) + {v});
    if NoDuplicates(items) {
      AppendedSorted(items, v);
      StrictSameMembers(a, b, Codes);
    }
    if a == b {
      StrictIsSorted(a, Codes);
      SortCorrect(Appended(items, v), Codes);
      DuplicateFreePermutation(a, Appended(items, v));
      assert items <= Appended(items, v);
    }
  }

  lemma RemoveAgreesIff(items: seq<string>, v: string)
    ensures Without(items, v) == SortedElements(Elements(items) - {v}) <==> StrictlySortedBy(Without(items, v), Codes)
  {
    SortedElementsCorrect(Elements(items) - {v});
    WithoutMembers(items, v);
    if StrictlySortedBy(Without(items, v), Codes) {
      StrictSameMembers(Without(items, v), SortedElements(Elements(items) - {v}), Codes);
    }
  }

  /** Removing what is no text leaves the list alone but still sorts the set. */
  lemma KeepAgreesIff(items: seq<string>)
    ensures items == SortedElements(Elements(items)) <==> StrictlySortedBy(items, Codes)
  {
    SortedElementsCorrect(Elements(items));
    if StrictlySortedBy(items, Codes) {
      StrictSameMembers(items, SortedElements(Elements(items)), Codes);
    }
  }

  /** Approvals sorted and duplicate free: what the generated states start from. */
  ghost predicate CanonicalApprovals(s: State) {
    StrictlySortedBy(s.workflow.approvals, Codes)
  }

  /** What a caller can check before a step to know that both engines will take it alike. */
  ghost predicate AgreementGuard(s: State, e: Event) {
    match e.op
    case Set(f) =>
      (match FieldAt(e.target)
       case None => false
       case Some(g) => f == g || Read(s, f) == e.value == Read(s, g))
    case AddApproval => AsText(e.value).Some? ==> NoDuplicates(s.workflow.approvals)
    case RemoveApproval =>
      (match AsText(e.value)
       case None => CanonicalApprovals(s)
       case Some(v) => StrictlySortedBy(Without(s.workflow.approvals, v), Codes))
    case _ => true
  }

  lemma DistinctWritesDiffer(s: State, f: Field, g: Field, v: Value)
    requires f != g && Fits(f, v) && Fits(g, v)
    ensures Write(s, f, v) == Write(s, g, v) <==> Read(s, f) == v == Read(s, g)
  {
    WriteRead(s, f, v, f);
    WriteRead(s, g, v, f);
    WriteRead(s, f, v, g);
    WriteRead(s, g, v, g);
  }

  /** For every state and event, the two transitions agree exactly under the guard. */
  lemma TransitionsAgreeIff(s: State, e: Event)
    ensures TransitionA(s, e) == TransitionB(s, e) <==> AgreementGuard(s, e)
  {
    match e.op {
      case Set(f) =>
        match FieldAt(e.target) {
          case None =>
          case Some(g) =>
            if f != g && Fits(f, e.value) && Fits(g, e.value) {
              DistinctWritesDiffer(s, f, g, e.value);
            }
        }
      case AddApproval =>
        if AsText(e.value).Some? {
          AddAgreesIff(s.workflow.approvals, AsText(e.value).value);
        }
      case RemoveApproval =>
        match AsText(e.value) {
          case None =>
            KeepAgreesIff(s.workflow.approvals);
            assert Elements(s.workflow.approvals) - {} == Elements(s.workflow.approvals);
          case Some(v) => RemoveAgreesIff(s.workflow.approvals, v);
        }
      case _ =>
    }
  }

  /** From canonical approvals a well-targeted event is taken alike and leaves approvals canonical. */
  lemma TransitionsAgree(s: State, e: Event)
    requires WellTargeted(e) && CanonicalApprovals(s)
    ensures TransitionA(s, e) == TransitionB(s, e)
    ensures TransitionA(s, e).Ok? ==> CanonicalApprovals(TransitionA(s, e).value)
  {
    TransitionsAgreeIff(s, e);
    ApprovalsStayCanonical(s, e);
    StrictIsSorted(s.workflow.approvals, Codes);
    if e.op.RemoveApproval? && AsText(e.value).Some? {
      WithoutStaysSorted(s.workflow.approvals, AsText(e.value).value);
    }
  }

  /** No event of any target or value spoils canonical approvals in engine A. */
  lemma ApprovalsStayCanonical(s: State, e: Event)
    requires CanonicalApprovals(s)
    ensures TransitionA(s, e).Ok? ==> CanonicalApprovals(TransitionA(s, e).value)
  {
    StrictIsSorted(s.workflow.approvals, Codes);
    match e.op {
      case AddApproval =>
        if AsText(e.value).Some? {
          AppendedSorted(s.workflow.approvals, AsText(e.value).value);
        }
      case RemoveApproval =>
        if AsText(e.value).Some? {
          WithoutStaysSorted(s.workflow.approvals, AsText(e.value).value);
        }
      case _ =>
    }
  }

  /** Everything no operation can write; the cells that can be written are blanked out. */
  function Frame(s: State): State {
    s.(request := s.request.(wellFormed := false),
       authority := s.authority.(revoked := false, scopeMatch := false),
       evidence := s.evidence.(status := Semantic.Unknown, receivedAt := None, validUntil := None),
       workflow := s.workflow.(approvals := [], appealOpen := false, appealResolved := false),
       resources := s.resources.(reserved := 0),
       routing := s.routing.(accepted := false, jurisdictionMatch := false),
       policy := s.policy.(allows := false, version := 0),
       consent := s.consent.(active := false),
       decisionBody := s.decisionBody.(votesPresent := 0),
       custody := s.custody.(chainIntact := false),
       delegationCondition := s.delegationCondition.(satisfied := false),
       obligation := s.obligation.(reportedAt := None),
       budget := s.budget.(encumbered := 0),
       quality := s.quality.(holdActive := false, recallComplete := false),
       conflict := false)
  }

  lemma WriteKeepsFrame(s: State, f: Field, v: Value)
    requires Fits(f, v)
    ensures Frame(Write(s, f, v)) == Frame(s)
    ensures Write(s, f, v).workflow == s.workflow && Write(s, f, v).resources == s.resources
  {
  }

  lemma SetFieldKeepsFrame(s: State, f: Field, v: Value)
    ensures SetField(s, f, v).Ok? ==> Frame(SetField(s, f, v).value) == Frame(s)
  {
    if Fits(f, v) {
      WriteKeepsFrame(s, f, v);
    }
  }

  /** No operation writes outside the mutable cells; in particular none moves the decision
      clock. */
  lemma TransitionAKeepsFrame(s: State, e: Event)
    ensures TransitionA(s, e).Ok? ==> Frame(TransitionA(s, e).value) == Frame(s)
  {
    match e.op {
      case Set(_) =>
        match FieldAt(e.target) {
          case None =>
          case Some(f) => SetFieldKeepsFrame(s, f, e.value);
        }
      case _ =>
    }
  }

  ghost predicate SameCells(s: State, t: State) {
    forall f :: Read(s, f) == Read(t, f)
  }

  lemma RequestCells(s: State, t: State)
    requires SameCells(s, t)
    ensures s.policy.version == t.policy.version && s.policy.allows == t.policy.allows
    ensures s.routing.accepted == t.routing.accepted && s.routing.jurisdictionMatch == t.routing.jurisdictionMatch
    ensures s.conflict == t.conflict && s.request.wellFormed == t.request.wellFormed
  {
    assert Read(s, PolicyVersion) == Read(t, PolicyVersion);
    assert Read(s, PolicyAllowed) == Read(t, PolicyAllowed);
    assert Read(s, RouteAccepted) == Read(t, RouteAccepted);
    assert Read(s, JurisdictionMatch) == Read(t, JurisdictionMatch);
    assert Read(s, Conflict) == Read(t, Conflict);
    assert Read(s, RequestWellFormed) == Read(t, RequestWellFormed);
  }

  lemma AuthorityCells(s: State, t: State)
    requires SameCells(s, t)
    ensures s.authority.revoked == t.authority.revoked && s.authority.scopeMatch == t.authority.scopeMatch
    ensures s.evidence.status == t.evidence.status && s.evidence.receivedAt == t.evidence.receivedAt
    ensures s.evidence.validUntil == t.evidence.validUntil
  {
    assert Read(s, DelegationRevoked) == Read(t, DelegationRevoked);
    assert Read(s, AuthorityScopeMatch) == Read(t, AuthorityScopeMatch);
    assert Read(s, EvidenceStatus) == Read(t, EvidenceStatus);
    assert Read(s, EvidenceReceivedAt) == Read(t, EvidenceReceivedAt);
    assert Read(s, EvidenceValidUntil) == Read(t, EvidenceValidUntil);
  }

  lemma GateCells(s: State, t: State)
    requires SameCells(s, t)
    ensures s.consent.active == t.consent.active && s.decisionBody.votesPresent == t.decisionBody.votesPresent
    ensures s.custody.chainIntact == t.custody.chainIntact
    ensures s.delegationCondition.satisfied == t.delegationCondition.satisfied
  {
    assert Read(s, ConsentActive) == Read(t, ConsentActive);
    assert Read(s, VotesPresent) == Read(t, VotesPresent);
    assert Read(s, CustodyIntact) == Read(t, CustodyIntact);
    assert Read(s, DelegationSatisfied) == Read(t, DelegationSatisfied);
  }

  lemma ObligationCells(s: State, t: State)
    requires SameCells(s, t)
    ensures s.obligation.reportedAt == t.obligation.reportedAt && s.budget.encumbered == t.budget.encumbered
    ensures s.quality.holdActive == t.quality.holdActive && s.quality.recallComplete == t.quality.recallComplete
  {
    assert Read(s, ReportedAt) == Read(t, ReportedAt);
    assert Read(s, BudgetEncumbered) == Read(t, BudgetEncumbered);
    assert Read(s, QualityHeld) == Read(t, QualityHeld);
    assert Read(s, RecallComplete) == Read(t, RecallComplete);
  }

  /** The frame, the fields, the workflow and the reservation together are the whole state. */
  lemma FrameAndCellsDetermine(s: State, t: State)
    requires Frame(s) == Frame(t) && SameCells(s, t)
    requires s.workflow == t.workflow && s.resources.reserved == t.resources.reserved
    ensures s == t
  {
    RequestCells(s, t);
    AuthorityCells(s, t);
    GateCells(s, t);
    ObligationCells(s, t);
  }

  /** Both guards can fail: a misdirected target, and an unsorted approval list. */
  lemma AgreementCanFail(s: State, e: Event, d: Event)
    requires e.op == Set(PolicyAllowed) && e.target == FieldTarget(RouteAccepted)
    requires e.value == Bool(false) && s.policy.allows
    requires d.op == RemoveApproval && d.value == Text("c")
    requires s.workflow.approvals == ["b", "a"]
    ensures TransitionA(s, e) != TransitionB(s, e)
    ensures TransitionA(s, d) != TransitionB(s, d)
  {
    TransitionsAgreeIff(s, e);
    TransitionsAgreeIff(s, d);
    var kept := Without(["b", "a"], "c");
    WithoutMembers(["b", "a"], "c");
    assert ["b", "a"][1..] == ["a"] && ["a"][1..] == [];
    assert kept == ["b", "a"];
    assert Codes("b")[0] == 'b' as int && Codes("a")[0] == 'a' as int;
    assert !Less(Codes(kept[0]), Codes(kept[1]));
  }
}
