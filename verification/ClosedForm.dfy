/** What a run leaves behind, read off the executed events without replaying them. */
module ClosedForm {
  import opened Ordering
  import opened Sorting
  import opened EventNet
  import opened Scheduling
  import opened Transition
  import opened Evaluation
  import opened Engine

  function PlayA(s: State, due: seq<Event>): Result<Progress> {
    Play(s, due, TransitionA, EvaluateA)
  }

  /** The final state alone. */
  function Exec(s: State, due: seq<Event>): Result<State> {
    match PlayA(s, due) case Ok(p) => Ok(p.state) case Err(error) => Err(error)
  }

  lemma {:induction false} ExecConcat(s: State, a: seq<Event>, b: seq<Event>)
    ensures Exec(s, a + b) == match Exec(s, a) case Ok(t) => Exec(t, b) case Err(error) => Err(error)
  {
    if b == [] {
      assert a + b == a;
    } else {
      var n := |b| - 1;
      ExecConcat(s, a, b[..n]);
      assert (a + b)[..|a + b| - 1] == a + b[..n];
    }
  }

  lemma ExecOne(s: State, e: Event)
    ensures Exec(s, [e]) == TransitionA(s, e)
  {
    assert [e][..0] == [];
    PlayOneMore(s, [], e, TransitionA, EvaluateA);
    assert [] + [e] == [e];
  }

  /** Step k of a trace is the k-th executed event, with the state that the run up to it ends in and
      the verdict on that state. */
  lemma {:induction false} StepsShowPrefixes(s: State, due: seq<Event>, k: nat)
    requires PlayA(s, due).Ok? && k < |due|
    ensures Exec(s, due[..k + 1]).Ok? && |PlayA(s, due).value.steps| == |due|
    ensures var step, t := PlayA(s, due).value.steps[k], Exec(s, due[..k + 1]).value;
      && step.eventId == due[k].id && step.op == due[k].op && step.state == t
      && step.semantic == VerdictA(t).semantic && step.decision == VerdictA(t).decision
  {
    hide TransitionA, VerdictA;
    var n := |due| - 1;
    StepsFollowEvents(s, due, TransitionA, EvaluateA);
    if k < n {
      StepsShowPrefixes(s, due[..n], k);
      assert due[..n][..k + 1] == due[..k + 1];
      StepsFollowEvents(s, due[..n], TransitionA, EvaluateA);
    } else {
      assert due[..k + 1] == due;
      StepsFollowEvents(s, due[..n], TransitionA, EvaluateA);
    }
  }

  // Which runs succeed

  /** Whether an event can be taken does not depend on the state it meets. */
  predicate Acceptable(e: Event) {
    match e.op
    case Set(_) => var f := FieldAt(e.target); f.Some? && Fits(f.value, e.value)
    case AddApproval => AsText(e.value).Some?
    case RemoveApproval => true
    case AdjustReservation => e.value.Int?
    case OpenAppeal | ResolveAppeal | Noop => true
    case Unrecognized(_) => false
  }

  lemma AcceptableExact(s: State, e: Event)
    ensures TransitionA(s, e).Ok? <==> Acceptable(e)
  {
  }

  /** A run succeeds exactly when every executed event is acceptable. */
  lemma {:induction false} RunSucceedsIff(s: State, due: seq<Event>)
    ensures PlayA(s, due).Ok? <==> forall e :: e in due ==> Acceptable(e)
  {
    if due != [] {
      var front, last := due[..|due| - 1], due[|due| - 1];
      RunSucceedsIff(s, front);
      assert due == front + [last];
      if PlayA(s, front).Ok? {
        AcceptableExact(PlayA(s, front).value.state, last);
      }
    }
  }

  /** What stops a run is the first unacceptable event, and the error says what is wrong with it. */
  lemma {:induction false} FirstErrorStops(s: State, due: seq<Event>, i: nat)
    requires i < |due| && !Acceptable(due[i]) && forall j :: 0 <= j < i ==> Acceptable(due[j])
    ensures PlayA(s, due) == Err(
      match due[i].op
      case Unrecognized(name) => UnknownOperation(name)
      case Set(_) =>
        (match due[i].target
         case FieldTarget(f) => Misfit(f, due[i].value)
         case _ => UnknownTarget(due[i].target))
      case _ => IllTyped(due[i].value))
  {
    var n := |due| - 1;
    if i < n {
      FirstErrorStops(s, due[..n], i);
    } else {
      RunSucceedsIff(s, due[..n]);
    }
  }

  // Last writes

  /** A SET writes the field its target names, whatever its operation is called. */
  predicate Writes(e: Event, f: Field) {
    e.op.Set? && e.target == FieldTarget(f)
  }

  ghost predicate LastWrite(due: seq<Event>, f: Field, i: nat) {
    && i < |due| && Writes(due[i], f)
    && forall j :: i < j < |due| ==> !Writes(due[j], f)
  }

  ghost predicate Unwritten(due: seq<Event>, f: Field) {
    forall j :: 0 <= j < |due| ==> !Writes(due[j], f)
  }

  lemma {:induction false} LastWriteExists(due: seq<Event>, f: Field)
    ensures Unwritten(due, f) || exists i: nat :: LastWrite(due, f, i)
  {
    if due != [] {
      var n := |due| - 1;
      LastWriteExists(due[..n], f);
      if Writes(due[n], f) {
        assert LastWrite(due, f, n);
      } else if !Unwritten(due[..n], f) {
        var i: nat :| LastWrite(due[..n], f, i);
        assert LastWrite(due, f, i);
      }
    }
  }

  /** One acceptable step, field by field. */
  lemma StepOnField(s: State, e: Event, f: Field)
    requires Acceptable(e)
    ensures Read(TransitionA(s, e).value, f) == if Writes(e, f) then e.value else Read(s, f)
  {
    if e.op.Set? {
      WriteRead(s, FieldAt(e.target).value, e.value, f);
    }
  }

  lemma {:induction false} UnwrittenFieldAfterRun(s: State, due: seq<Event>, f: Field)
    requires PlayA(s, due).Ok? && Unwritten(due, f)
    ensures Read(PlayA(s, due).value.state, f) == Read(s, f)
  {
    if due != [] {
      var n := |due| - 1;
      UnwrittenFieldAfterRun(s, due[..n], f);
      AcceptableExact(PlayA(s, due[..n]).value.state, due[n]);
      StepOnField(PlayA(s, due[..n]).value.state, due[n], f);
    }
  }

  /** A field ends up holding its last executed write (and, unwritten, what it held initially). */
  lemma {:induction false} FieldAfterRun(s: State, due: seq<Event>, f: Field, i: nat)
    requires PlayA(s, due).Ok? && LastWrite(due, f, i)
    ensures Read(PlayA(s, due).value.state, f) == due[i].value
  {
    var n := |due| - 1;
    var t := PlayA(s, due[..n]).value.state;
    AcceptableExact(t, due[n]);
    StepOnField(t, due[n], f);
    if i < n {
      FieldAfterRun(s, due[..n], f, i);
    }
  }

  // Approvals

  predicate Touches(e: Event, v: string) {
    (e.op.AddApproval? || e.op.RemoveApproval?) && AsText(e.value) == Some(v)
  }

  /** Whether v stands approved after the events, by its last ADD or REMOVE. */
  function ApprovedAfter(due: seq<Event>, v: string, initially: bool): bool {
    if due == [] then initially
    else if Touches(due[|due| - 1], v) then due[|due| - 1].op.AddApproval?
    else ApprovedAfter(due[..|due| - 1], v, initially)
  }

  /** An approval stands exactly when its last executed ADD or REMOVE is an ADD. */
  lemma {:induction false} ApprovalAfterRun(s: State, due: seq<Event>, v: string)
    requires PlayA(s, due).Ok?
    ensures v in PlayA(s, due).value.state.workflow.approvals
       <==> ApprovedAfter(due, v, v in s.workflow.approvals)
  {
    if due != [] {
      var front, e := due[..|due| - 1], due[|due| - 1];
      ApprovalAfterRun(s, front, v);
      ApprovalStep(PlayA(s, front).value.state, e, v);
    }
  }

  lemma ApprovalStep(s: State, e: Event, v: string)
    requires TransitionA(s, e).Ok?
    ensures v in TransitionA(s, e).value.workflow.approvals
       <==> if Touches(e, v) then e.op.AddApproval? else v in s.workflow.approvals
  {
    match e.op {
      case AddApproval =>
        SortMembers(Appended(s.workflow.approvals, AsText(e.value).value), Codes);
      case RemoveApproval =>
        if AsText(e.value).Some? {
          WithoutMembers(s.workflow.approvals, AsText(e.value).value);
        }
      case Set(_) =>
        WriteKeepsFrame(s, FieldAt(e.target).value, e.value);
      case _ =>
    }
  }

  // The clamped reservation

  /** The deltas of the executed reservation events, in order. */
  function Deltas(due: seq<Event>): seq<int> {
    if due == [] then []
    else
      var e := due[|due| - 1];
      Deltas(due[..|due| - 1]) + (if e.op.AdjustReservation? && e.value.Int? then [e.value.n] else [])
  }

  function ClampFold(r: int, deltas: seq<int>): int {
    if deltas == [] then r
    else Reserve(ClampFold(r, deltas[..|deltas| - 1]), deltas[|deltas| - 1])
  }

  /** The reservation is the clamped fold of its own events and of nothing else. */
  lemma {:induction false} ReservationAfterRun(s: State, due: seq<Event>)
    requires PlayA(s, due).Ok?
    ensures PlayA(s, due).value.state.resources.reserved == ClampFold(s.resources.reserved, Deltas(due))
  {
    if due != [] {
      var front, e := due[..|due| - 1], due[|due| - 1];
      ReservationAfterRun(s, front);
      var t := PlayA(s, front).value.state;
      if e.op.Set? {
        WriteKeepsFrame(t, FieldAt(e.target).value, e.value);
      } else if e.op.AdjustReservation? {
        assert (Deltas(front) + [e.value.n])[..|Deltas(front)|] == Deltas(front);
      } else {
        assert Deltas(due) == Deltas(front);
      }
      if e.op.Set? {
        assert Deltas(due) == Deltas(front);
      }
    }
  }

  // Appeals

  /** Whether an appeal stands open after the events, by the last OPEN or RESOLVE. */
  function OpenAfter(due: seq<Event>, initially: bool): bool {
    if due == [] then initially
    else if due[|due| - 1].op.OpenAppeal? then true
    else if due[|due| - 1].op.ResolveAppeal? then false
    else OpenAfter(due[..|due| - 1], initially)
  }

  /** What every generated state satisfies and every step keeps. */
  ghost predicate Institutional(s: State) {
    && s.workflow.appealOpen != s.workflow.appealResolved
    && CanonicalApprovals(s)
    && s.resources.reserved >= 0
  }

  lemma InstitutionalStep(s: State, e: Event)
    requires Institutional(s) && TransitionA(s, e).Ok?
    ensures Institutional(TransitionA(s, e).value)
    ensures TransitionA(s, e).value.workflow.appealOpen ==
      if e.op.OpenAppeal? then true else if e.op.ResolveAppeal? then false else s.workflow.appealOpen
  {
    ApprovalsStayCanonical(s, e);
    if e.op.Set? {
      WriteKeepsFrame(s, FieldAt(e.target).value, e.value);
    }
  }

  /** Every reachable state keeps open and resolved opposite, approvals canonical and the
      reservation non-negative; an appeal stands open exactly as its last event left it. */
  lemma {:induction false} InstitutionalRun(s: State, due: seq<Event>)
    requires Institutional(s) && PlayA(s, due).Ok?
    ensures Institutional(PlayA(s, due).value.state)
    ensures PlayA(s, due).value.state.workflow.appealOpen == OpenAfter(due, s.workflow.appealOpen)
  {
    if due != [] {
      InstitutionalRun(s, due[..|due| - 1]);
      InstitutionalStep(PlayA(s, due[..|due| - 1]).value.state, due[|due| - 1]);
    }
  }

  /** The appeal rule: with a well-formed request and no conflict at the end, a run is CONTESTED
      exactly when the last executed appeal event opened an appeal. */
  lemma AppealRule(s: State, due: seq<Event>)
    requires Institutional(s) && PlayA(s, due).Ok?
    requires var t := PlayA(s, due).value.state; t.request.wellFormed && !t.conflict
    ensures EvaluateA(PlayA(s, due).value.state).verdict.decision == Decision.Contested
       <==> OpenAfter(due, s.workflow.appealOpen)
  {
    InstitutionalRun(s, due);
  }

  // The whole state

  lemma {:induction false} FrameAfterRun(s: State, due: seq<Event>)
    requires PlayA(s, due).Ok?
    ensures Frame(PlayA(s, due).value.state) == Frame(s)
  {
    if due != [] {
      FrameAfterRun(s, due[..|due| - 1]);
      TransitionAKeepsFrame(PlayA(s, due[..|due| - 1]).value.state, due[|due| - 1]);
    }
  }

  /** The events that decide a run: the same last write per field, the same standing of every
      approval, the same reservation and the same appeal. */
  ghost predicate SameEffect(s: State, due: seq<Event>, due': seq<Event>) {
    && (forall f :: Unwritten(due, f) <==> Unwritten(due', f))
    && (forall f, i: nat, j: nat :: LastWrite(due, f, i) && LastWrite(due', f, j) ==> due[i].value == due'[j].value)
    && (forall v :: ApprovedAfter(due, v, v in s.workflow.approvals) == ApprovedAfter(due', v, v in s.workflow.approvals))
    && ClampFold(s.resources.reserved, Deltas(due)) == ClampFold(s.resources.reserved, Deltas(due'))
    && OpenAfter(due, s.workflow.appealOpen) == OpenAfter(due', s.workflow.appealOpen)
  }

  lemma SameFields(s: State, due: seq<Event>, due': seq<Event>)
    requires PlayA(s, due).Ok? && PlayA(s, due').Ok? && SameEffect(s, due, due')
    ensures SameCells(PlayA(s, due).value.state, PlayA(s, due').value.state)
  {
    forall f
      ensures Read(PlayA(s, due).value.state, f) == Read(PlayA(s, due').value.state, f)
    {
      LastWriteExists(due, f);
      LastWriteExists(due', f);
      if Unwritten(due, f) {
        UnwrittenFieldAfterRun(s, due, f);
        UnwrittenFieldAfterRun(s, due', f);
      } else {
        var i: nat :| LastWrite(due, f, i);
        var j: nat :| LastWrite(due', f, j);
        FieldAfterRun(s, due, f, i);
        FieldAfterRun(s, due', f, j);
      }
    }
  }

  /** The closed form is complete: it leaves no freedom in the final state. */
  lemma ClosedFormDetermines(s: State, due: seq<Event>, due': seq<Event>)
    requires Institutional(s)
    requires forall e :: e in due ==> Acceptable(e)
    requires forall e :: e in due' ==> Acceptable(e)
    requires SameEffect(s, due, due')
    ensures PlayA(s, due).Ok? && PlayA(s, due').Ok?
    ensures PlayA(s, due).value.state == PlayA(s, due').value.state
  {
    RunSucceedsIff(s, due);
    RunSucceedsIff(s, due');
    var t, t' := PlayA(s, due).value.state, PlayA(s, due').value.state;
    SameFields(s, due, due');
    FrameAfterRun(s, due);
    FrameAfterRun(s, due');
    InstitutionalRun(s, due);
    InstitutionalRun(s, due');
    ReservationAfterRun(s, due);
    ReservationAfterRun(s, due');
    forall v
      ensures v in t.workflow.approvals <==> v in t'.workflow.approvals
    {
      ApprovalAfterRun(s, due, v);
      ApprovalAfterRun(s, due', v);
    }
    StrictSameMembers(t.workflow.approvals, t'.workflow.approvals, Codes);
    FrameAndCellsDetermine(t, t');
  }

  // The certificate

  /** What evidence status a run ends with. */
  ghost predicate StatusAfter(s: State, due: seq<Event>, q: Semantic) {
    if Unwritten(due, EvidenceStatus) then q == s.evidence.status
    else exists i: nat :: LastWrite(due, EvidenceStatus, i) && due[i].value == Status(q)
  }

  lemma StatusAfterRun(s: State, due: seq<Event>)
    requires PlayA(s, due).Ok?
    ensures StatusAfter(s, due, PlayA(s, due).value.state.evidence.status)
  {
    LastWriteExists(due, EvidenceStatus);
    if Unwritten(due, EvidenceStatus) {
      UnwrittenFieldAfterRun(s, due, EvidenceStatus);
    } else {
      var i: nat :| LastWrite(due, EvidenceStatus, i);
      FieldAfterRun(s, due, EvidenceStatus, i);
    }
  }

  /** Whichever gate decides a run: the certificate names the people and institutions of the initial
      state and its evidence source, with the evidence status last written; it charges the initial
      demand when the decision is ALLOW and nothing otherwise, and it binds nobody. */
  lemma CertificateAfterRun(initial: State, events: seq<Event>)
    requires Reference(initial, events).Ok?
    ensures var o := Reference(initial, events).value.outcome;
      var due := Due(ScheduleA(events), initial.request.queryTime);
      && o.authorityPath
         == [initial.actors.requester.actorId, initial.actors.delegator.actorId, initial.request.targetInstitution]
      && o.routingPath == [initial.request.sourceInstitution, initial.request.targetInstitution]
      && o.evidencePath.0 == initial.evidence.source && StatusAfter(initial, due, o.evidencePath.1)
      && o.resourceDelta == (if o.verdict.decision.Allow? then -initial.resources.demand else 0)
      && (o.advances <==> o.verdict.decision.Allow?) && !o.bindingAuthority
  {
    var due := Due(ScheduleA(events), initial.request.queryTime);
    hide StatusAfter, VerdictA;
    StatusAfterRun(initial, due);
    FrameAfterRun(initial, due);
    SameFrame(initial, PlayA(initial, due).value.state);
  }

  /** The parts of a state that no operation can write, as far as a certificate shows them. */
  lemma SameFrame(s: State, t: State)
    requires Frame(s) == Frame(t)
    ensures s.actors == t.actors && s.evidence.source == t.evidence.source
    ensures s.resources.demand == t.resources.demand
    ensures s.request.sourceInstitution == t.request.sourceInstitution
    ensures s.request.targetInstitution == t.request.targetInstitution
  {
    assert Frame(s).evidence.source == Frame(t).evidence.source;
    assert Frame(s).resources.demand == Frame(t).resources.demand;
    assert Frame(s).request.sourceInstitution == Frame(t).request.sourceInstitution;
    assert Frame(s).request.targetInstitution == Frame(t).request.targetInstitution;
  }
}
