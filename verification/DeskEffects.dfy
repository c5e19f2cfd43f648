/** What each action on the review desk does, as it can be seen from outside: the plan on screen, the
    reviews that count, the open requests, the running timers and the numbers given out. */
module DeskEffects {
  import opened EventNet
  import opened ReviewDesk

  // The plan on screen

  /** A selection shows the first plan of that name at its catalog cost, except that a change of
      capacity makes the first plan cost 31800. */
  lemma SelectedPlanIsShown(catalog: seq<Incident>, d: Desk, id: string, k: nat)
    requires Catalogued(catalog) && id in d.selected
    requires var plans := Find(catalog, id).plans;
      k < |plans| && plans[k].id == d.selected[id] && forall j :: 0 <= j < k ==> plans[j].id != d.selected[id]
    ensures CurrentPlan(catalog, d, id).id == d.selected[id]
    ensures CurrentPlan(catalog, d, id).cost ==
      if k == 0 && id in d.capacityChanged then 31800 else Find(catalog, id).plans[k].cost
  {
    FindPlanAt(Plans(catalog, d, id), d.selected[id], k);
  }

  lemma {:induction false} FindPlanAt(plans: seq<Plan>, id: string, k: nat)
    requires k < |plans| && plans[k].id == id && forall j :: 0 <= j < k ==> plans[j].id != id
    ensures FindPlan(plans, id) == Some(plans[k])
  {
    if k > 0 {
      FindPlanAt(plans[1..], id, k - 1);
    }
  }

  lemma {:induction false} FindNoPlan(plans: seq<Plan>, id: string)
    requires forall j :: 0 <= j < |plans| ==> plans[j].id != id
    ensures FindPlan(plans, id) == None
  {
    if plans != [] {
      FindNoPlan(plans[1..], id);
    }
  }

  /** Without a selection that names one of its plans, an incident shows its first plan. */
  lemma FirstPlanIsShown(catalog: seq<Incident>, d: Desk, id: string)
    requires Catalogued(catalog)
    requires id in d.selected ==>
      forall j :: 0 <= j < |Find(catalog, id).plans| ==> Find(catalog, id).plans[j].id != d.selected[id]
    ensures CurrentPlan(catalog, d, id).id == Find(catalog, id).plans[0].id
    ensures CurrentPlan(catalog, d, id).cost ==
      if id in d.capacityChanged then 31800 else Find(catalog, id).plans[0].cost
  {
    if id in d.selected {
      FindNoPlan(Plans(catalog, d, id), d.selected[id]);
    }
  }

  /** Choosing a plan on offer puts it on screen and makes a new proposal of it. */
  lemma ChosenPlanIsShown(catalog: seq<Incident>, d: Desk, k: nat)
    requires Catalogued(catalog)
    requires var plans := Find(catalog, d.incidentId).plans;
      k < |plans| && forall j :: 0 <= j < k ==> plans[j].id != plans[k].id
    ensures var plan := Find(catalog, d.incidentId).plans[k];
      var e := Step(catalog, d, ChoosePlan(plan.id));
      && CurrentPlan(catalog, e, d.incidentId).id == plan.id
      && CurrentPlan(catalog, e, d.incidentId).cost ==
           (if k == 0 && d.incidentId in d.capacityChanged then 31800 else plan.cost)
      && Proposal(e, d.incidentId) ==
           Proposal(d, d.incidentId) + (if CurrentPlan(catalog, d, d.incidentId).id == plan.id then 0 else 1)
  {
    var id, plan := d.incidentId, Find(catalog, d.incidentId).plans[k];
    var e := Step(catalog, d, ChoosePlan(plan.id));
    if CurrentPlan(catalog, d, id).id != plan.id {
      SelectedPlanIsShown(catalog, e, id, k);
    } else {
      FindPlanAt(Plans(catalog, d, id), plan.id, k);
      if id !in d.selected || FindPlan(Plans(catalog, d, id), d.selected[id]).None? {
        assert plan.id == Find(catalog, id).plans[0].id;
      } else {
        FoundPlanIsNamed(Plans(catalog, d, id), d.selected[id]);
      }
    }
  }

  lemma {:induction false} FoundPlanIsNamed(plans: seq<Plan>, id: string)
    ensures FindPlan(plans, id).Some? ==> FindPlan(plans, id).value.id == id
  {
    if plans != [] {
      FoundPlanIsNamed(plans[1..], id);
    }
  }

  /** A refresh puts the second plan on screen at its catalog cost, as a new proposal on a new state;
      were the first two plans to share a name, the dearer first plan would be shown instead. */
  lemma RefreshShowsAlternative(catalog: seq<Incident>, d: Desk)
    requires Catalogued(catalog)
    ensures var plans, e := Find(catalog, d.incidentId).plans, Step(catalog, d, RefreshState);
      && CurrentPlan(catalog, e, d.incidentId)
         == (if plans[0].id == plans[1].id then Plan(plans[0].id, 31800) else plans[1])
      && Version(e, d.incidentId) == Version(d, d.incidentId) + 1
      && Proposal(e, d.incidentId) == Proposal(d, d.incidentId) + 1
      && e.scenario == Normal && d.incidentId in e.capacityChanged
  {
    var e := Step(catalog, d, RefreshState);
    var k := if Find(catalog, d.incidentId).plans[0].id == Find(catalog, d.incidentId).plans[1].id then 0 else 1;
    SelectedPlanIsShown(catalog, e, d.incidentId, k);
  }

  /** After a refresh an approver may review the alternative when it is within the ceiling and no
      blocking request is open. */
  lemma RefreshedIsReviewable(catalog: seq<Incident>, d: Desk, scopeAccepted: bool, noteLength: nat)
    requires Catalogued(catalog)
    requires var plans := Find(catalog, d.incidentId).plans; plans[0].id != plans[1].id && plans[1].cost <= 30000
    requires !exists r :: r in d.recourses && r.incidentId == d.incidentId && r.blocking && r.open
    ensures var e := Step(catalog, Step(catalog, d, RefreshState), ChangePersona(Approver));
      MaySubmit(catalog, e, scopeAccepted, noteLength) <==> scopeAccepted && noteLength >= 12
  {
    var r := Step(catalog, d, RefreshState);
    var e := Step(catalog, r, ChangePersona(Approver));
    RefreshShowsAlternative(catalog, d);
    SameChoiceSamePlan(catalog, r, e, d.incidentId);
  }

  // Submissions

  lemma BlocksIff(s: Scenario)
    ensures Blocks(s) <==> s != Normal && s != Empty
  {
    match s {
      case Normal | Loading | Empty | Stale =>
      case Conflicted | Restricted | Degraded | Disconnected =>
    }
  }

  /** When a submission is accepted, and what it leaves: one pending review of the plan on screen, bound
      to both versions, in place of the earlier ones of its incident, and its own timer. */
  lemma SubmissionEffect(catalog: seq<Incident>, d: Desk, scopeAccepted: bool, noteLength: nat)
    requires Catalogued(catalog)
    ensures var e, plan := Step(catalog, d, SubmitReview(scopeAccepted, noteLength)), CurrentPlan(catalog, d, d.incidentId);
      if && d.role == Approver && scopeAccepted && noteLength >= 12 && plan.cost <= 30000
         && (d.scenario == Normal || d.scenario == Empty)
         && !exists r :: r in d.recourses && r.incidentId == d.incidentId && r.blocking && r.open
      then
        && |e.reviews| > 0
        && e.reviews[0] == Review(d.incidentId, plan.id, Version(d, d.incidentId), Proposal(d, d.incidentId), Pending, d.nextTimer)
        && (forall r :: r in e.reviews[1..] <==> r in d.reviews && r.incidentId != d.incidentId)
        && e.pending == Some(d.nextTimer) && e.timers == d.timers[d.nextTimer := d.incidentId]
        && e == d.(reviews := e.reviews, pending := e.pending, timers := e.timers,
                   nextTimer := d.nextTimer + 1, sequence := d.sequence + 1)
      else e == d
  {
    hide CurrentPlan, Version, Proposal;
    BlocksIff(d.scenario);
    assert MaySubmit(catalog, d, scopeAccepted, noteLength) ==>
      Submitted(catalog, d).reviews[1..] == Without(d.reviews, d.incidentId);
  }

  // Invalidation and firing

  /** The actions that clear the remembered timer and invalidate. */
  ghost predicate Invalidating(catalog: seq<Incident>, d: Desk, a: Action)
    requires Catalogued(catalog)
  {
    match a
    case SetMode(_) | RefreshState | ResolveRecourse(_) | ChangePersona(_) => true
    case ChoosePlan(planId) => planId != CurrentPlan(catalog, d, d.incidentId).id
    case SubmitRecourse(blocking, noteLength) =>
      blocking && d.role != Auditor && d.scenario != Disconnected && noteLength >= 12
    case _ => false
  }

  /** They leave exactly the recorded reviews of other incidents, every record stays in its place with
      its text, and no timer but the remembered one stops. */
  lemma InvalidationEffect(catalog: seq<Incident>, d: Desk, a: Action)
    requires Catalogued(catalog) && Invalidating(catalog, d, a)
    ensures var e := Step(catalog, d, a);
      && |e.reviews| == |d.reviews|
      && (forall i :: 0 <= i < |e.reviews| ==>
            var r := d.reviews[i];
            e.reviews[i] == if r.status == Reviewed && r.incidentId != d.incidentId then r else r.(status := Invalidated))
      && e.pending == None
      && e.timers == d.timers - (if d.pending.Some? then {d.pending.value} else {})
  {
    hide Step, Invalidating;
    InvalidatingStepInvalidates(catalog, d, a);
  }

  lemma InvalidatingStepInvalidates(catalog: seq<Incident>, d: Desk, a: Action)
    requires Catalogued(catalog) && Invalidating(catalog, d, a)
    ensures var e, i := Step(catalog, d, a), Invalidate(d);
      e.reviews == i.reviews && e.pending == i.pending && e.timers == i.timers
  {
    hide CurrentPlan, Plans, Version, Proposal, OpenBlocking, InvalidateAll, CloseAll;
  }

  /** Every other action but a submission, a firing timer and a reset leaves reviews and timers alone. */
  lemma OtherwiseUntouched(catalog: seq<Incident>, d: Desk, a: Action)
    requires Catalogued(catalog) && !Invalidating(catalog, d, a) && !a.SubmitReview? && !a.Fire? && !a.Reset?
    ensures var e := Step(catalog, d, a); e.reviews == d.reviews && e.pending == d.pending && e.timers == d.timers
  {
    hide CurrentPlan, Plans, Version, Proposal, OpenBlocking;
  }

  /** A running timer records the pending reviews of the incident it captured and stops; one that has
      stopped does nothing. */
  lemma FiringEffect(catalog: seq<Incident>, d: Desk, timer: nat)
    requires Catalogued(catalog)
    ensures var e := Step(catalog, d, Fire(timer));
      if timer in d.timers then
        && |e.reviews| == |d.reviews|
        && (forall i :: 0 <= i < |e.reviews| ==>
              var r := d.reviews[i];
              e.reviews[i] == if r.status == Pending && r.incidentId == d.timers[timer] then r.(status := Reviewed) else r)
        && e == d.(reviews := e.reviews, pending := None, timers := d.timers - {timer}, sequence := d.sequence + 2)
      else e == d
  {
  }

  // Requests

  /** When a request is accepted it is filed open under the next number, and nothing else is filed. */
  lemma RecourseEffect(catalog: seq<Incident>, d: Desk, blocking: bool, noteLength: nat)
    requires Catalogued(catalog)
    ensures Step(catalog, d, SubmitRecourse(blocking, noteLength)).recourses ==
      if d.role == Auditor || d.scenario == Disconnected || noteLength < 12 then d.recourses
      else d.recourses + [Recourse(d.sequence, d.incidentId, blocking, true)]
  {
    hide CurrentPlan, Plans, Version, Proposal, OpenBlocking;
  }

  /** Resolving closes the records of that number and keeps every record in its place; an incident stays
      blocked exactly by what was open under other numbers. */
  lemma ResolutionEffect(catalog: seq<Incident>, d: Desk, id: nat, incident: string)
    requires Catalogued(catalog)
    ensures var e := Step(catalog, d, ResolveRecourse(id));
      && |e.recourses| == |d.recourses|
      && (forall i :: 0 <= i < |e.recourses| ==>
            e.recourses[i] == if d.recourses[i].id == id then d.recourses[i].(open := false) else d.recourses[i])
      && (OpenBlocking(e, incident) <==>
            exists r :: r in d.recourses && r.id != id && r.incidentId == incident && r.blocking && r.open)
  {
    hide CurrentPlan, Plans, Version, Proposal;
    var e := Step(catalog, d, ResolveRecourse(id));
    if OpenBlocking(e, incident) {
      var r :| r in e.recourses && r.incidentId == incident && r.blocking && r.open;
      var i :| 0 <= i < |e.recourses| && e.recourses[i] == r;
      assert d.recourses[i] == r;
    }
    if r :| r in d.recourses && r.id != id && r.incidentId == incident && r.blocking && r.open {
      var i :| 0 <= i < |d.recourses| && d.recourses[i] == r;
      assert e.recourses[i] == r;
    }
  }

  /** No other action touches a filed request, except that a reset drops them all. */
  lemma RecoursesStay(catalog: seq<Incident>, d: Desk, a: Action)
    requires Catalogued(catalog) && !a.SubmitRecourse? && !a.ResolveRecourse?
    ensures Step(catalog, d, a).recourses == if a.Reset? then [] else d.recourses
  {
    hide CurrentPlan, Plans, Version, Proposal, OpenBlocking;
  }

  // The rest of the screen

  /** Scenario, persona and incident on screen. */
  lemma ScreenAfter(catalog: seq<Incident>, d: Desk, a: Action)
    requires Catalogued(catalog)
    ensures var e := Step(catalog, d, a);
      && e.scenario == (match a case SetMode(next) => next case RefreshState | Reset => Normal case _ => d.scenario)
      && e.role == (match a case ChangePersona(role) => role case Reset => Operator case _ => d.role)
      && (a.Navigate? && Known(catalog, a.incidentId) ==> e.incidentId == a.incidentId)
      && (a.Reset? || (a.Navigate? && !Known(catalog, a.incidentId)) ==> e.incidentId == catalog[0].id)
      && (!a.Navigate? && !a.Reset? ==> e.incidentId == d.incidentId)
      && (d.incidentId in e.capacityChanged <==> !a.Reset? && (a.RefreshState? || d.incidentId in d.capacityChanged))
  {
    hide CurrentPlan, Plans, Version, Proposal, OpenBlocking;
    if a.Reset? {
      ResetIs(catalog, d);
    }
  }

  /** How many numbers an action gives out: one for each entry of the activity list, each receipt and
      each request that the handler makes. */
  lemma NumbersGivenOut(catalog: seq<Incident>, d: Desk, a: Action)
    requires Catalogued(catalog)
    ensures Step(catalog, d, a).sequence - d.sequence ==
      match a
      case SetMode(next) => if next in {Stale, Conflicted, Disconnected, Degraded} then 1 else 0
      case ChoosePlan(planId) => if planId == CurrentPlan(catalog, d, d.incidentId).id then 0 else 1
      case SubmitReview(scopeAccepted, noteLength) => if MaySubmit(catalog, d, scopeAccepted, noteLength) then 1 else 0
      case SubmitRecourse(_, noteLength) =>
        if d.role == Auditor || d.scenario == Disconnected || noteLength < 12 then 0 else 3
      case ResolveRecourse(_) => 2
      case RefreshState => 1
      case Fire(timer) => if timer in d.timers then 2 else 0
      case _ => 0
  {
    hide CurrentPlan, Plans, Version, Proposal, OpenBlocking, MaySubmit;
  }

  /** A reset leaves the start state on the first incident, except that every timer but the remembered one
      goes on running and that no number is given out twice. */
  lemma ResetEffect(catalog: seq<Incident>, d: Desk)
    requires Catalogued(catalog)
    ensures Step(catalog, d, Reset)
         == Desk(Normal, Operator, catalog[0].id, map[], map[], map[], {}, [], [], None,
                 d.timers - (if d.pending.Some? then {d.pending.value} else {}), d.nextTimer, d.sequence)
  {
    ResetIs(catalog, d);
  }

  /** What is on screen at first. */
  lemma FirstScreen(catalog: seq<Incident>, hash: string)
    requires Catalogued(catalog)
    ensures var d := Start(catalog, hash);
      && (Known(catalog, hash) ==> d.incidentId == hash) && (!Known(catalog, hash) ==> d.incidentId == catalog[0].id)
      && Version(d, d.incidentId) == 142 && Proposal(d, d.incidentId) == 3 && d.sequence == 842
      && CurrentPlan(catalog, d, d.incidentId) == Find(catalog, d.incidentId).plans[0]
      && d.scenario == Normal && d.role == Operator && d.reviews == [] && d.recourses == [] && d.timers == map[]
  {
  }
}
