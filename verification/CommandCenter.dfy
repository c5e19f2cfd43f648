/** Simulated human review of recovery plans: the handlers of the command center, and the timer that
    turns a pending review into a recorded one. */
module ReviewDesk {
  import opened EventNet

  datatype Scenario = Normal | Loading | Empty | Stale | Conflicted | Restricted | Degraded | Disconnected
  datatype Role = Operator | Approver | Auditor
  datatype Status = Pending | Reviewed | Invalidated

  datatype Plan = Plan(id: string, cost: int)
  datatype Incident = Incident(id: string, plans: seq<Plan>)
  /** A review record. `timer` is kept by the model only: it is the timer that the review's own
      submission started, and no handler reads it. */
  datatype Review = Review(
    incidentId: string, planId: string, stateVersion: int, proposalVersion: int, status: Status, timer: nat)
  datatype Recourse = Recourse(id: nat, incidentId: string, blocking: bool, open: bool)

  /** The state cells and refs of the component. `timers` holds every timer that is still running,
      with the incident its callback captured; `pending` is the one handle the component remembers. */
  datatype Desk = Desk(
    scenario: Scenario, role: Role, incidentId: string,
    selected: map<string, string>, versions: map<string, int>, proposals: map<string, int>,
    capacityChanged: set<string>, reviews: seq<Review>, recourses: seq<Recourse>,
    pending: Option<nat>, timers: map<nat, string>, nextTimer: nat, sequence: nat)

  datatype Action =
    | SetMode(next: Scenario)
    | ChoosePlan(planId: string)
    | SubmitReview(scopeAccepted: bool, noteLength: nat)
    | SubmitRecourse(blocking: bool, noteLength: nat)
    | ResolveRecourse(id: nat)
    | RefreshState
    | ChangePersona(role: Role)
    | Reset
    | Navigate(incidentId: string)
    | Fire(timer: nat)

  const REVIEW_CEILING := 30000
  const CHANGED_CAPACITY_COST := 31800
  const MINIMUM_NOTE := 12
  const FIRST_VERSION := 142
  const FIRST_PROPOSAL := 3
  const FIRST_SEQUENCE := 842

  /** There is an incident, and every incident has an alternative to its first plan. */
  ghost predicate Catalogued(catalog: seq<Incident>) {
    catalog != [] && forall i :: i in catalog ==> |i.plans| >= 2
  }

  predicate Known(catalog: seq<Incident>, id: string) {
    exists i :: i in catalog && i.id == id
  }

  function Find(catalog: seq<Incident>, id: string): (r: Incident)
    requires catalog != []
    ensures r in catalog
    ensures Known(catalog, id) ==> r.id == id
  {
    if catalog[0].id == id || |catalog| == 1 || !Known(catalog[1..], id) then catalog[0]
    else Find(catalog[1..], id)
  }

  /** The plans on offer, once a change of capacity has made the first one dearer. */
  function Plans(catalog: seq<Incident>, d: Desk, id: string): (r: seq<Plan>)
    requires Catalogued(catalog)
    ensures |r| >= 2
  {
    var plans := Find(catalog, id).plans;
    if id in d.capacityChanged then plans[0 := plans[0].(cost := CHANGED_CAPACITY_COST)] else plans
  }

  function FindPlan(plans: seq<Plan>, id: string): Option<Plan> {
    if plans == [] then None else if plans[0].id == id then Some(plans[0]) else FindPlan(plans[1..], id)
  }

  function CurrentPlan(catalog: seq<Incident>, d: Desk, id: string): Plan
    requires Catalogued(catalog)
  {
    var plans := Plans(catalog, d, id);
    match (if id in d.selected then FindPlan(plans, d.selected[id]) else None)
    case Some(p) => p
    case None => plans[0]
  }

  function Version(d: Desk, id: string): int {
    if id in d.versions then d.versions[id] else FIRST_VERSION
  }

  function Proposal(d: Desk, id: string): int {
    if id in d.proposals then d.proposals[id] else FIRST_PROPOSAL
  }

  predicate Blocks(s: Scenario) {
    s in {Stale, Conflicted, Restricted, Disconnected, Degraded, Loading}
  }

  predicate OpenBlocking(d: Desk, id: string) {
    exists r :: r in d.recourses && r.incidentId == id && r.blocking && r.open
  }

  predicate Blocked(d: Desk) {
    Blocks(d.scenario) || OpenBlocking(d, d.incidentId)
  }

  function InvalidateReview(r: Review, id: string): Review {
    if r.incidentId == id || r.status == Pending then r.(status := Invalidated) else r
  }

  function RecordReview(r: Review, id: string): Review {
    if r.incidentId == id && r.status == Pending then r.(status := Reviewed) else r
  }

  function Close(r: Recourse, id: nat): Recourse {
    if r.id == id then r.(open := false) else r
  }

  function Map<T, U>(f: T -> U, s: seq<T>): (r: seq<U>)
    ensures |r| == |s|
    ensures forall i :: 0 <= i < |s| ==> r[i] == f(s[i])
  {
    seq(|s|, i requires 0 <= i < |s| => f(s[i]))
  }

  function InvalidateAll(reviews: seq<Review>, id: string): seq<Review> {
    Map(r => InvalidateReview(r, id), reviews)
  }

  function RecordAll(reviews: seq<Review>, id: string): seq<Review> {
    Map(r => RecordReview(r, id), reviews)
  }

  function CloseAll(recourses: seq<Recourse>, id: nat): seq<Recourse> {
    Map(r => Close(r, id), recourses)
  }

  function Without(reviews: seq<Review>, id: string): (r: seq<Review>)
    ensures forall x :: x in r <==> x in reviews && x.incidentId != id
  {
    if reviews == [] then []
    else (if reviews[0].incidentId == id then [] else [reviews[0]]) + Without(reviews[1..], id)
  }

  function Invalidate(d: Desk): Desk {
    d.(pending := None,
       timers := if d.pending.Some? then d.timers - {d.pending.value} else d.timers,
       reviews := InvalidateAll(d.reviews, d.incidentId))
  }

  predicate MaySubmit(catalog: seq<Incident>, d: Desk, scopeAccepted: bool, noteLength: nat)
    requires Catalogued(catalog)
  {
    && !Blocked(d) && d.role == Approver && scopeAccepted && noteLength >= MINIMUM_NOTE
    && CurrentPlan(catalog, d, d.incidentId).cost <= REVIEW_CEILING
  }

  function Submitted(catalog: seq<Incident>, d: Desk): Desk
    requires Catalogued(catalog)
  {
    var id := d.incidentId;
    var review := Review(id, CurrentPlan(catalog, d, id).id, Version(d, id), Proposal(d, id), Pending, d.nextTimer);
    d.(reviews := [review] + Without(d.reviews, id),
       pending := Some(d.nextTimer), timers := d.timers[d.nextTimer := id],
       nextTimer := d.nextTimer + 1, sequence := d.sequence + 1)
  }

  predicate Logged(s: Scenario) {
    s in {Stale, Conflicted, Disconnected, Degraded}
  }

  function Start(catalog: seq<Incident>, id: string): Desk
    requires catalog != []
  {
    Desk(Normal, Operator, if Known(catalog, id) then id else catalog[0].id,
         map[], map[], map[], {}, [], [], None, map[], 0, FIRST_SEQUENCE)
  }

  /** One user action, or one expiring timer. */
  function Step(catalog: seq<Incident>, d: Desk, a: Action): Desk
    requires Catalogued(catalog)
  {
    var id := d.incidentId;
    match a
    case SetMode(next) =>
      var e := Invalidate(d).(scenario := next, sequence := d.sequence + (if Logged(next) then 1 else 0));
      if next == Normal && d.scenario != Normal then e.(versions := e.versions[id := Version(d, id) + 1]) else e
    case ChoosePlan(planId) =>
      if planId == CurrentPlan(catalog, d, id).id then d
      else Invalidate(d).(selected := d.selected[id := planId],
                          proposals := d.proposals[id := Proposal(d, id) + 1], sequence := d.sequence + 1)
    case SubmitReview(scopeAccepted, noteLength) =>
      if MaySubmit(catalog, d, scopeAccepted, noteLength) then Submitted(catalog, d) else d
    case SubmitRecourse(blocking, noteLength) =>
      if d.role == Auditor || d.scenario == Disconnected || noteLength < MINIMUM_NOTE then d
      else
        (if blocking then Invalidate(d) else d).(
          recourses := d.recourses + [Recourse(d.sequence, id, blocking, true)], sequence := d.sequence + 3)
    case ResolveRecourse(recourse) =>
      Invalidate(d).(recourses := CloseAll(d.recourses, recourse), sequence := d.sequence + 2)
    case RefreshState =>
      Invalidate(d).(capacityChanged := d.capacityChanged + {id},
                     versions := d.versions[id := Version(d, id) + 1],
                     proposals := d.proposals[id := Proposal(d, id) + 1],
                     selected := d.selected[id := Plans(catalog, d, id)[1].id],
                     scenario := Normal, sequence := d.sequence + 1)
    case ChangePersona(role) => Invalidate(d).(role := role)
    case Reset =>
      Start(catalog, catalog[0].id).(timers := Invalidate(d).timers, nextTimer := d.nextTimer, sequence := d.sequence)
    case Navigate(next) => d.(incidentId := if Known(catalog, next) then next else catalog[0].id)
    case Fire(timer) =>
      if timer !in d.timers then d
      else
        d.(reviews := RecordAll(d.reviews, d.timers[timer]), pending := None,
           timers := d.timers - {timer}, sequence := d.sequence + 2)
  }

  function Run(catalog: seq<Incident>, d: Desk, actions: seq<Action>): Desk
    requires Catalogued(catalog)
    decreases |actions|
  {
    if actions == [] then d else Run(catalog, Step(catalog, d, actions[0]), actions[1..])
  }

  // The invariant

  /** No incident has two reviews. */
  ghost predicate Single(reviews: seq<Review>) {
    forall i, j :: 0 <= i < j < |reviews| ==> reviews[i].incidentId != reviews[j].incidentId
  }

  /** What a pending or recorded review is bound to. */
  ghost predicate Binds(catalog: seq<Incident>, d: Desk, r: Review)
    requires Catalogued(catalog)
  {
    var plan := CurrentPlan(catalog, d, r.incidentId);
    && r.planId == plan.id && plan.cost <= REVIEW_CEILING
    && r.stateVersion == Version(d, r.incidentId) && r.proposalVersion == Proposal(d, r.incidentId)
    && !OpenBlocking(d, r.incidentId)
  }

  /** A pending review is watched by an approver in a usable scenario, and its own timer is running. */
  ghost predicate Attended(d: Desk, r: Review) {
    d.role == Approver && !Blocks(d.scenario) && r.timer in d.timers && d.timers[r.timer] == r.incidentId
  }

  ghost predicate Bound(catalog: seq<Incident>, d: Desk)
    requires Catalogued(catalog)
  {
    && Single(d.reviews)
    && (forall r :: r in d.reviews && r.status != Invalidated ==> Binds(catalog, d, r))
    && (forall r :: r in d.reviews && r.status == Pending ==> Attended(d, r))
  }

  ghost predicate Numbered(d: Desk) {
    && (forall t :: t in d.timers ==> t < d.nextTimer)
    && (d.pending.Some? ==> d.pending.value < d.nextTimer)
    && (forall r :: r in d.recourses ==> r.id < d.sequence)
    && (forall i, j :: 0 <= i < j < |d.recourses| ==> d.recourses[i].id != d.recourses[j].id)
  }

  ghost predicate Invariant(catalog: seq<Incident>, d: Desk)
    requires Catalogued(catalog)
  {
    Known(catalog, d.incidentId) && Bound(catalog, d) && Numbered(d)
  }

  // Preservation

  /** What `e` shows about incidents other than the one `d` is looking at. */
  ghost predicate SameElsewhere(catalog: seq<Incident>, d: Desk, e: Desk)
    requires Catalogued(catalog)
  {
    forall id :: id != d.incidentId ==>
      && CurrentPlan(catalog, e, id) == CurrentPlan(catalog, d, id)
      && Version(e, id) == Version(d, id) && Proposal(e, id) == Proposal(d, id)
      && (OpenBlocking(e, id) ==> OpenBlocking(d, id))
  }

  /** Invalidation leaves recorded reviews of other incidents, and no pending review at all. */
  lemma InvalidateSpares(d: Desk)
    ensures forall r :: r in Invalidate(d).reviews && r.status != Invalidated ==>
      r in d.reviews && r.incidentId != d.incidentId && r.status == Reviewed
    ensures Single(d.reviews) ==> Single(Invalidate(d).reviews)
  {
    var after := Invalidate(d).reviews;
    forall r | r in after && r.status != Invalidated
      ensures r in d.reviews && r.incidentId != d.incidentId && r.status == Reviewed
    {
      var i :| 0 <= i < |after| && after[i] == r;
      assert d.reviews[i] == r;
    }
  }

  lemma InvalidatingStep(catalog: seq<Incident>, d: Desk, e: Desk)
    requires Catalogued(catalog) && Bound(catalog, d)
    requires e.reviews == Invalidate(d).reviews && SameElsewhere(catalog, d, e)
    ensures Bound(catalog, e)
  {
    hide CurrentPlan, Version, Proposal, OpenBlocking, Invalidate;
    InvalidateSpares(d);
    forall r | r in e.reviews && r.status != Invalidated
      ensures Binds(catalog, e, r)
    {
      assert Binds(catalog, d, r);
    }
  }

  /** The desk a submission leaves differs only in its reviews, its timers and its counters. */
  lemma SubmissionFrame(catalog: seq<Incident>, d: Desk, r: Review)
    requires Catalogued(catalog)
    ensures Binds(catalog, Submitted(catalog, d), r) <==> Binds(catalog, d, r)
  {
    var e := Submitted(catalog, d);
    assert Plans(catalog, e, r.incidentId) == Plans(catalog, d, r.incidentId);
    assert OpenBlocking(e, r.incidentId) == OpenBlocking(d, r.incidentId);
  }

  lemma SubmissionBinds(catalog: seq<Incident>, d: Desk, scopeAccepted: bool, noteLength: nat)
    requires Catalogued(catalog) && Invariant(catalog, d) && MaySubmit(catalog, d, scopeAccepted, noteLength)
    ensures Invariant(catalog, Submitted(catalog, d))
  {
    hide CurrentPlan, Version, Proposal, OpenBlocking, Single;
    var e := Submitted(catalog, d);
    WithoutKeepsSingle(d.reviews, d.incidentId);
    SingleCons(e.reviews[0], Without(d.reviews, d.incidentId));
    forall r | r in e.reviews && r.status != Invalidated
      ensures Binds(catalog, e, r) && (r.status == Pending ==> Attended(e, r))
    {
      SubmissionFrame(catalog, d, r);
      if r == e.reviews[0] {
        assert e.timers[d.nextTimer] == r.incidentId;
      } else {
        assert r in d.reviews && Binds(catalog, d, r);
        if r.status == Pending {
          assert Attended(d, r);
        }
      }
    }
  }

  lemma SingleCons(r: Review, rest: seq<Review>)
    requires Single(rest) && forall x :: x in rest ==> x.incidentId != r.incidentId
    ensures Single([r] + rest)
  {
    var all := [r] + rest;
    forall i, j | 0 <= i < j < |all|
      ensures all[i].incidentId != all[j].incidentId
    {
      assert all[j] == rest[j - 1] && rest[j - 1] in rest;
      if i > 0 {
        assert all[i] == rest[i - 1];
      }
    }
  }

  lemma {:induction false} WithoutKeepsSingle(reviews: seq<Review>, id: string)
    requires Single(reviews)
    ensures Single(Without(reviews, id))
  {
    if reviews != [] {
      var head, rest := reviews[0], reviews[1..];
      WithoutKeepsSingle(rest, id);
      if head.incidentId == id {
        assert [] + Without(rest, id) == Without(rest, id);
      } else {
        forall x | x in Without(rest, id)
          ensures x.incidentId != head.incidentId
        {
          var k :| 0 <= k < |rest| && rest[k] == x;
          assert reviews[k + 1] == x;
        }
        SingleCons(head, Without(rest, id));
      }
    }
  }

  /** A firing timer changes only reviews, timers and a counter. */
  lemma FiringFrame(catalog: seq<Incident>, d: Desk, timer: nat, r: Review, status: Status)
    requires Catalogued(catalog) && timer in d.timers
    ensures Binds(catalog, Step(catalog, d, Fire(timer)), r.(status := status)) <==> Binds(catalog, d, r)
  {
    var e := Step(catalog, d, Fire(timer));
    assert Plans(catalog, e, r.incidentId) == Plans(catalog, d, r.incidentId);
    assert OpenBlocking(e, r.incidentId) == OpenBlocking(d, r.incidentId);
  }

  lemma FiringBinds(catalog: seq<Incident>, d: Desk, timer: nat)
    requires Catalogued(catalog) && Invariant(catalog, d) && timer in d.timers
    ensures Invariant(catalog, Step(catalog, d, Fire(timer)))
  {
    hide Binds, CurrentPlan, OpenBlocking;
    var e := Step(catalog, d, Fire(timer));
    forall r | r in e.reviews && r.status != Invalidated
      ensures Binds(catalog, e, r) && (r.status == Pending ==> Attended(e, r))
    {
      var i :| 0 <= i < |e.reviews| && e.reviews[i] == r;
      var before := d.reviews[i];
      assert before in d.reviews && r == before.(status := r.status);
      FiringFrame(catalog, d, timer, before, r.status);
      if r.status == Pending {
        assert before == r && Attended(d, r);
        assert r.incidentId != d.timers[timer];
      }
    }
  }

  lemma RecourseKeeps(catalog: seq<Incident>, d: Desk, blocking: bool, noteLength: nat)
    requires Catalogued(catalog) && Invariant(catalog, d)
    ensures Invariant(catalog, Step(catalog, d, SubmitRecourse(blocking, noteLength)))
  {
    var e := Step(catalog, d, SubmitRecourse(blocking, noteLength));
    if e != d {
      forall id | OpenBlocking(e, id) && (id != d.incidentId || !blocking)
        ensures OpenBlocking(d, id)
      {
        var r :| r in e.recourses && r.incidentId == id && r.blocking && r.open;
        assert r in d.recourses;
      }
      if blocking {
        InvalidatingStep(catalog, d, e);
      } else {
        forall r | r in e.reviews && r.status != Invalidated
          ensures Binds(catalog, e, r) && (r.status == Pending ==> Attended(e, r))
        {
          assert Binds(catalog, d, r);
        }
      }
    }
  }

  lemma ModeKeeps(catalog: seq<Incident>, d: Desk, next: Scenario)
    requires Catalogued(catalog) && Invariant(catalog, d)
    ensures Invariant(catalog, Step(catalog, d, SetMode(next)))
  {
    InvalidatingStep(catalog, d, Step(catalog, d, SetMode(next)));
  }

  lemma PlanKeeps(catalog: seq<Incident>, d: Desk, planId: string)
    requires Catalogued(catalog) && Invariant(catalog, d)
    ensures Invariant(catalog, Step(catalog, d, ChoosePlan(planId)))
  {
    if planId != CurrentPlan(catalog, d, d.incidentId).id {
      InvalidatingStep(catalog, d, Step(catalog, d, ChoosePlan(planId)));
    }
  }

  lemma ResolutionKeeps(catalog: seq<Incident>, d: Desk, id: nat)
    requires Catalogued(catalog) && Invariant(catalog, d)
    ensures Invariant(catalog, Step(catalog, d, ResolveRecourse(id)))
  {
    var e := Step(catalog, d, ResolveRecourse(id));
    forall other | OpenBlocking(e, other)
      ensures OpenBlocking(d, other)
    {
      var r :| r in e.recourses && r.incidentId == other && r.blocking && r.open;
      var i :| 0 <= i < |e.recourses| && e.recourses[i] == r;
      assert d.recourses[i] == r;
    }
    InvalidatingStep(catalog, d, e);
  }

  lemma RefreshKeeps(catalog: seq<Incident>, d: Desk)
    requires Catalogued(catalog) && Invariant(catalog, d)
    ensures Invariant(catalog, Step(catalog, d, RefreshState))
  {
    InvalidatingStep(catalog, d, Step(catalog, d, RefreshState));
  }

  lemma PersonaKeeps(catalog: seq<Incident>, d: Desk, role: Role)
    requires Catalogued(catalog) && Invariant(catalog, d)
    ensures Invariant(catalog, Step(catalog, d, ChangePersona(role)))
  {
    InvalidatingStep(catalog, d, Step(catalog, d, ChangePersona(role)));
  }

  lemma NavigationKeeps(catalog: seq<Incident>, d: Desk, next: string)
    requires Catalogued(catalog) && Invariant(catalog, d)
    ensures Invariant(catalog, Step(catalog, d, Navigate(next)))
  {
    var e := Step(catalog, d, Navigate(next));
    forall r | r in e.reviews && r.status != Invalidated
      ensures Binds(catalog, e, r)
    {
      assert Binds(catalog, d, r);
    }
  }

  /** Every action and every expiring timer keeps the invariant. */
  lemma StepKeepsInvariant(catalog: seq<Incident>, d: Desk, a: Action)
    requires Catalogued(catalog) && Invariant(catalog, d)
    ensures Invariant(catalog, Step(catalog, d, a))
  {
    hide Invalidate, CurrentPlan, Version, Proposal, Bound, Numbered, Submitted, Plans;
    match a
    case SetMode(next) => ModeKeeps(catalog, d, next);
    case ChoosePlan(planId) => PlanKeeps(catalog, d, planId);
    case SubmitReview(scopeAccepted, noteLength) =>
      if MaySubmit(catalog, d, scopeAccepted, noteLength) {
        SubmissionBinds(catalog, d, scopeAccepted, noteLength);
      }
    case SubmitRecourse(blocking, noteLength) => RecourseKeeps(catalog, d, blocking, noteLength);
    case ResolveRecourse(id) => ResolutionKeeps(catalog, d, id);
    case RefreshState => RefreshKeeps(catalog, d);
    case ChangePersona(role) => PersonaKeeps(catalog, d, role);
    case Reset => ResetKeeps(catalog, d);
    case Navigate(next) => NavigationKeeps(catalog, d, next);
    case Fire(timer) =>
      if timer in d.timers {
        FiringBinds(catalog, d, timer);
      }
  }

  /** Only running timers and the counters survive a reset. */
  lemma ResetIs(catalog: seq<Incident>, d: Desk)
    requires Catalogued(catalog)
    ensures Step(catalog, d, Reset)
         == Desk(Normal, Operator, catalog[0].id, map[], map[], map[], {}, [], [], None,
                 Invalidate(d).timers, d.nextTimer, d.sequence)
  {
    assert catalog[0] in catalog;
  }

  lemma ResetKeeps(catalog: seq<Incident>, d: Desk)
    requires Catalogued(catalog) && Invariant(catalog, d)
    ensures Invariant(catalog, Step(catalog, d, Reset))
  {
    assert catalog[0] in catalog;
  }

  lemma StartIsGood(catalog: seq<Incident>, id: string)
    requires Catalogued(catalog)
    ensures Invariant(catalog, Start(catalog, id))
  {
    assert catalog[0] in catalog;
  }

  lemma {:induction false} RunKeepsInvariant(catalog: seq<Incident>, d: Desk, actions: seq<Action>)
    requires Catalogued(catalog) && Invariant(catalog, d)
    ensures Invariant(catalog, Run(catalog, d, actions))
    decreases |actions|
  {
    if actions != [] {
      StepKeepsInvariant(catalog, d, actions[0]);
      RunKeepsInvariant(catalog, Step(catalog, d, actions[0]), actions[1..]);
    }
  }

  // What the invariant buys

  /** Where the reviews that still count come from: a step keeps them, a submission creates one for
      the plan on screen, or a timer records a pending one. Nothing brings an invalidated review back. */
  lemma LiveReviewsAreEarned(catalog: seq<Incident>, d: Desk, a: Action, r: Review)
    requires Catalogued(catalog) && Invariant(catalog, d)
    requires r in Step(catalog, d, a).reviews && r.status != Invalidated && r !in d.reviews
    ensures r.status == Pending ==>
      a.SubmitReview? && MaySubmit(catalog, d, a.scopeAccepted, a.noteLength)
      && r.incidentId == d.incidentId && Binds(catalog, d, r)
    ensures r.status == Reviewed ==>
      && a.Fire? && a.timer in d.timers && d.timers[a.timer] == r.incidentId
      && r.(status := Pending) in d.reviews
      && d.role == Approver && !Blocks(d.scenario) && Binds(catalog, d, r)
  {
    hide CurrentPlan, Version, Proposal, OpenBlocking, Single;
    var e := Step(catalog, d, a);
    if a.Fire? && a.timer in d.timers {
      var i :| 0 <= i < |e.reviews| && e.reviews[i] == r;
      var before := d.reviews[i];
      assert before in d.reviews;
      assert before.status == Pending && r == before.(status := Reviewed);
      assert Binds(catalog, d, before) && Attended(d, before);
    } else if a.SubmitReview? && MaySubmit(catalog, d, a.scopeAccepted, a.noteLength) {
      assert r == e.reviews[0];
      SubmissionBinds(catalog, d, a.scopeAccepted, a.noteLength);
      SubmissionFrame(catalog, d, r);
    } else {
      InvalidateSpares(d);
      assert false;
    }
  }

  /** A pending review can always be completed: its own timer is running and records it. */
  lemma PendingIsNeverStranded(catalog: seq<Incident>, d: Desk, r: Review)
    requires Catalogued(catalog) && Invariant(catalog, d)
    requires r in d.reviews && r.status == Pending
    ensures r.timer in d.timers && r.(status := Reviewed) in Step(catalog, d, Fire(r.timer)).reviews
  {
    assert Attended(d, r);
    FiringRecordsIff(catalog, d, r.timer, r);
  }

  /** A running timer records a pending review exactly when it captured the review's incident. */
  lemma FiringRecordsIff(catalog: seq<Incident>, d: Desk, timer: nat, r: Review)
    requires Catalogued(catalog) && Single(d.reviews) && timer in d.timers
    requires r in d.reviews && r.status == Pending
    ensures r.(status := Reviewed) in Step(catalog, d, Fire(timer)).reviews <==> d.timers[timer] == r.incidentId
  {
    var i :| 0 <= i < |d.reviews| && d.reviews[i] == r;
    var after := Step(catalog, d, Fire(timer)).reviews;
    if d.timers[timer] == r.incidentId {
      assert after[i] == r.(status := Reviewed);
    }
    if r.(status := Reviewed) in after {
      var j :| 0 <= j < |after| && after[j] == r.(status := Reviewed);
      assert d.reviews[j].incidentId == d.reviews[i].incidentId;
      assert i == j;
    }
  }

  // Versions

  /** Versions never fall, and the plan on offer only changes together with the proposal version. */
  ghost predicate Advances(catalog: seq<Incident>, d: Desk, e: Desk, id: string)
    requires Catalogued(catalog)
  {
    && Version(d, id) <= Version(e, id) && Proposal(d, id) <= Proposal(e, id)
    && (Proposal(d, id) == Proposal(e, id) ==> CurrentPlan(catalog, d, id) == CurrentPlan(catalog, e, id))
  }

  /** What an incident has selected, and whether its capacity changed. */
  ghost predicate SameChoice(d: Desk, e: Desk, id: string) {
    && (id in d.selected <==> id in e.selected)
    && (id in d.selected ==> d.selected[id] == e.selected[id])
    && (id in d.capacityChanged <==> id in e.capacityChanged)
  }

  lemma SameChoiceSamePlan(catalog: seq<Incident>, d: Desk, e: Desk, id: string)
    requires Catalogued(catalog) && SameChoice(d, e, id)
    ensures CurrentPlan(catalog, d, id) == CurrentPlan(catalog, e, id)
  {
    assert Plans(catalog, d, id) == Plans(catalog, e, id);
  }

  /** The proposal version moves by one exactly where another plan is chosen or the state refreshed. */
  lemma StepMovesProposal(catalog: seq<Incident>, d: Desk, a: Action, id: string)
    requires Catalogued(catalog) && !a.Reset?
    ensures var e := Step(catalog, d, a);
      if && id == d.incidentId
         && (a.RefreshState? || (a.ChoosePlan? && a.planId != CurrentPlan(catalog, d, id).id))
      then Proposal(e, id) == Proposal(d, id) + 1
      else Proposal(e, id) == Proposal(d, id) && SameChoice(d, e, id)
  {
    hide CurrentPlan, Plans, OpenBlocking, InvalidateAll, RecordAll, CloseAll, Without, Version, MaySubmit;
  }

  lemma StepMovesVersion(catalog: seq<Incident>, d: Desk, a: Action, id: string)
    requires Catalogued(catalog) && !a.Reset?
    ensures Version(Step(catalog, d, a), id) == Version(d, id) +
      if id == d.incidentId && (a.RefreshState? || (a == SetMode(Normal) && d.scenario != Normal)) then 1 else 0
  {
    hide CurrentPlan, Plans, OpenBlocking, InvalidateAll, RecordAll, CloseAll, Without, Proposal, MaySubmit;
  }

  lemma StepAdvances(catalog: seq<Incident>, d: Desk, a: Action, id: string)
    requires Catalogued(catalog) && !a.Reset?
    ensures Advances(catalog, d, Step(catalog, d, a), id)
  {
    hide Step, CurrentPlan, Version, Proposal, SameChoice;
    var e := Step(catalog, d, a);
    StepMovesProposal(catalog, d, a, id);
    StepMovesVersion(catalog, d, a, id);
    if SameChoice(d, e, id) {
      SameChoiceSamePlan(catalog, d, e, id);
    }
  }

  /** Until a reset, a proposal version identifies the plan and its cost: whenever an incident shows
      the same proposal version again, it shows the same plan. */
  lemma {:induction false} ProposalVersionIdentifiesPlan(catalog: seq<Incident>, d: Desk, actions: seq<Action>, id: string)
    requires Catalogued(catalog) && Reset !in actions
    ensures Advances(catalog, d, Run(catalog, d, actions), id)
    decreases |actions|
  {
    hide Step, CurrentPlan, Version, Proposal;
    if actions != [] {
      assert actions[0] in actions && forall a :: a in actions[1..] ==> a in actions;
      StepAdvances(catalog, d, actions[0], id);
      ProposalVersionIdentifiesPlan(catalog, Step(catalog, d, actions[0]), actions[1..], id);
    }
  }

  // Recourse

  lemma StepKeepsRecourse(catalog: seq<Incident>, d: Desk, a: Action, r: Recourse)
    requires Catalogued(catalog) && r in d.recourses && !a.Reset? && a != ResolveRecourse(r.id)
    ensures r in Step(catalog, d, a).recourses
  {
    if a.ResolveRecourse? {
      var i :| 0 <= i < |d.recourses| && d.recourses[i] == r;
      assert CloseAll(d.recourses, a.id)[i] == r;
    }
  }

  lemma {:induction false} RunKeepsRecourse(catalog: seq<Incident>, d: Desk, actions: seq<Action>, r: Recourse)
    requires Catalogued(catalog) && r in d.recourses && Reset !in actions && ResolveRecourse(r.id) !in actions
    ensures r in Run(catalog, d, actions).recourses
    decreases |actions|
  {
    hide Step;
    if actions != [] {
      assert actions[0] in actions && forall a :: a in actions[1..] ==> a in actions;
      StepKeepsRecourse(catalog, d, actions[0], r);
      RunKeepsRecourse(catalog, Step(catalog, d, actions[0]), actions[1..], r);
    }
  }

  /** An open blocking recourse keeps every review of its incident from counting until it is
      resolved itself, whatever else happens and whatever timers are running. */
  lemma BlockedUntilResolved(catalog: seq<Incident>, d: Desk, actions: seq<Action>, r: Recourse)
    requires Catalogued(catalog) && Invariant(catalog, d)
    requires r in d.recourses && r.blocking && r.open
    requires Reset !in actions && ResolveRecourse(r.id) !in actions
    ensures forall x :: x in Run(catalog, d, actions).reviews && x.incidentId == r.incidentId ==> x.status == Invalidated
  {
    hide Step, CurrentPlan, Version, Proposal, Run;
    var e := Run(catalog, d, actions);
    RunKeepsInvariant(catalog, d, actions);
    RunKeepsRecourse(catalog, d, actions, r);
    assert OpenBlocking(e, r.incidentId);
    forall x | x in e.reviews && x.incidentId == r.incidentId
      ensures x.status == Invalidated
    {
      assert x.status != Invalidated ==> Binds(catalog, e, x);
    }
  }

  // Timers

  /** The component remembers every timer that is running. */
  predicate Tidy(d: Desk) {
    d.timers.Keys == if d.pending.Some? then {d.pending.value} else {}
  }

  /** It loses track exactly when a review is accepted while an earlier timer is still running. */
  lemma TidinessIsLostExactly(catalog: seq<Incident>, d: Desk, a: Action)
    requires Catalogued(catalog) && Numbered(d) && Tidy(d)
    ensures Tidy(Step(catalog, d, a)) <==>
      !(a.SubmitReview? && MaySubmit(catalog, d, a.scopeAccepted, a.noteLength) && d.pending.Some?)
  {
    hide CurrentPlan, Version, Proposal, OpenBlocking, Plans;
    var e := Step(catalog, d, a);
    if a.SubmitReview? && MaySubmit(catalog, d, a.scopeAccepted, a.noteLength) {
      assert e.timers.Keys == d.timers.Keys + {d.nextTimer};
      if d.pending.Some? {
        assert d.pending.value in e.timers.Keys && d.pending.value != d.nextTimer;
      }
    } else if a.Fire? && a.timer in d.timers {
      assert e.timers.Keys == d.timers.Keys - {a.timer};
    } else if e.timers != d.timers {
      assert e.timers.Keys == {};
    }
  }

  /** In a tidy desk the only timer that can fire is that of the latest accepted submission. */
  lemma {:induction false} TidyRuns(catalog: seq<Incident>, d: Desk, actions: seq<Action>)
    requires Catalogued(catalog) && Invariant(catalog, d) && Tidy(d)
    requires forall k :: 0 <= k < |actions| && actions[k].SubmitReview? ==>
      Run(catalog, d, actions[..k]).pending.None?
    ensures Tidy(Run(catalog, d, actions))
    decreases |actions|
  {
    hide Invariant, Step, Tidy, Numbered;
    if actions != [] {
      var e, rest := Step(catalog, d, actions[0]), actions[1..];
      assert actions[..0] == [];
      assert Numbered(d) by {
        InvariantNumbers(catalog, d);
      }
      TidinessIsLostExactly(catalog, d, actions[0]);
      StepKeepsInvariant(catalog, d, actions[0]);
      forall k | 0 <= k < |rest| && rest[k].SubmitReview?
        ensures Run(catalog, e, rest[..k]).pending.None?
      {
        assert actions[..k + 1][0] == actions[0] && actions[..k + 1][1..] == rest[..k];
        assert actions[k + 1].SubmitReview?;
      }
      TidyRuns(catalog, e, rest);
    }
  }

  lemma InvariantNumbers(catalog: seq<Incident>, d: Desk)
    requires Catalogued(catalog) && Invariant(catalog, d)
    ensures Numbered(d)
  {
  }

  // Whose timer records a review

  /** A running timer that is not the review's own would record it. */
  ghost predicate Poached(catalog: seq<Incident>, d: Desk, r: Review)
    requires Catalogued(catalog)
  {
    exists t :: t in d.timers && t != r.timer && r.(status := Reviewed) in Step(catalog, d, Fire(t)).reviews
  }

  /** That can happen exactly when a second running timer captured the review's incident. */
  lemma PoachedIff(catalog: seq<Incident>, d: Desk, r: Review)
    requires Catalogued(catalog) && Invariant(catalog, d) && r in d.reviews && r.status == Pending
    ensures Poached(catalog, d, r) <==> exists t :: t in d.timers && t != r.timer && d.timers[t] == r.incidentId
  {
    hide Step;
    forall t | t in d.timers
      ensures r.(status := Reviewed) in Step(catalog, d, Fire(t)).reviews <==> d.timers[t] == r.incidentId
    {
      FiringRecordsIff(catalog, d, t, r);
    }
  }

  /** No two running timers captured the same incident. */
  ghost predicate Separate(d: Desk) {
    forall t, u :: t in d.timers && u in d.timers && d.timers[t] == d.timers[u] ==> t == u
  }

  /** A submission that is accepted for an incident whose earlier timer is still running. */
  ghost predicate Crowds(catalog: seq<Incident>, d: Desk, a: Action)
    requires Catalogued(catalog)
  {
    && a.SubmitReview? && MaySubmit(catalog, d, a.scopeAccepted, a.noteLength)
    && exists t :: t in d.timers && d.timers[t] == d.incidentId
  }

  /** No step but the submission adds a timer, and none changes what a running timer captured. */
  lemma StepTimers(catalog: seq<Incident>, d: Desk, a: Action)
    requires Catalogued(catalog)
    ensures var e := Step(catalog, d, a);
      if a.SubmitReview? && MaySubmit(catalog, d, a.scopeAccepted, a.noteLength)
      then e.timers == d.timers[d.nextTimer := d.incidentId]
      else forall t :: t in e.timers ==> t in d.timers && e.timers[t] == d.timers[t]
  {
    hide CurrentPlan, Plans, Version, Proposal, OpenBlocking, InvalidateAll, RecordAll, CloseAll, Without, MaySubmit;
  }

  /** Separation is lost by exactly those submissions. */
  lemma SeparationIsLostExactly(catalog: seq<Incident>, d: Desk, a: Action)
    requires Catalogued(catalog) && Numbered(d) && Separate(d)
    ensures Separate(Step(catalog, d, a)) <==> !Crowds(catalog, d, a)
  {
    hide Step, MaySubmit;
    var e := Step(catalog, d, a);
    StepTimers(catalog, d, a);
    if Crowds(catalog, d, a) {
      var t :| t in d.timers && d.timers[t] == d.incidentId;
      assert e.timers[t] == e.timers[d.nextTimer] && t != d.nextTimer;
    }
  }

  /** And what is lost is just this: after a step from a separate desk some pending review can be
      recorded by a timer of another submission exactly when the step was such a submission. */
  lemma PoachingIsCausedExactly(catalog: seq<Incident>, d: Desk, a: Action)
    requires Catalogued(catalog) && Invariant(catalog, d) && Separate(d)
    ensures var e := Step(catalog, d, a);
      (exists r :: r in e.reviews && r.status == Pending && Poached(catalog, e, r)) <==> Crowds(catalog, d, a)
  {
    hide Step, MaySubmit, Poached, Numbered, Bound;
    var e := Step(catalog, d, a);
    StepKeepsInvariant(catalog, d, a);
    StepTimers(catalog, d, a);
    InvariantNumbers(catalog, d);
    SeparationIsLostExactly(catalog, d, a);
    if Crowds(catalog, d, a) {
      CrowdingPoaches(catalog, d, a);
    } else {
      forall r | r in e.reviews && r.status == Pending
        ensures !Poached(catalog, e, r)
      {
        SeparateIsNotPoached(catalog, e, r);
      }
    }
  }

  lemma CrowdingPoaches(catalog: seq<Incident>, d: Desk, a: Action)
    requires Catalogued(catalog) && Invariant(catalog, d) && Crowds(catalog, d, a)
    ensures var e := Step(catalog, d, a); exists r :: r in e.reviews && r.status == Pending && Poached(catalog, e, r)
  {
    hide MaySubmit, Bound, Poached, Submitted;
    var e := Step(catalog, d, a);
    var t :| t in d.timers && d.timers[t] == d.incidentId;
    StepKeepsInvariant(catalog, d, a);
    SubmittedReview(catalog, d);
    PoachedIff(catalog, e, e.reviews[0]);
    assert t in e.timers && t != e.reviews[0].timer && e.timers[t] == e.reviews[0].incidentId;
    assert e.reviews[0] in e.reviews;
  }

  lemma SubmittedReview(catalog: seq<Incident>, d: Desk)
    requires Catalogued(catalog)
    ensures var e := Submitted(catalog, d);
      && e.timers == d.timers[d.nextTimer := d.incidentId] && |e.reviews| > 0
      && e.reviews[0].incidentId == d.incidentId && e.reviews[0].timer == d.nextTimer && e.reviews[0].status == Pending
  {
  }

  lemma SeparateIsNotPoached(catalog: seq<Incident>, d: Desk, r: Review)
    requires Catalogued(catalog) && Invariant(catalog, d) && Separate(d)
    requires r in d.reviews && r.status == Pending
    ensures !Poached(catalog, d, r)
  {
    hide Poached;
    PoachedIff(catalog, d, r);
    assert Attended(d, r);
  }

  /** Over a whole run: the running timers stay separate throughout exactly when no submission of the
      run is accepted for an incident whose earlier timer is still running. */
  lemma {:induction false} RunsStaySeparateIff(catalog: seq<Incident>, d: Desk, actions: seq<Action>)
    requires Catalogued(catalog) && Invariant(catalog, d) && Separate(d)
    ensures (forall k :: 0 <= k <= |actions| ==> Separate(Run(catalog, d, actions[..k])))
       <==> (forall k :: 0 <= k < |actions| ==> !Crowds(catalog, Run(catalog, d, actions[..k]), actions[k]))
    decreases |actions|
  {
    hide Invariant, Step, Separate, Crowds, Numbered;
    assert actions[..0] == [];
    if actions != [] {
      var e, rest := Step(catalog, d, actions[0]), actions[1..];
      InvariantNumbers(catalog, d);
      SeparationIsLostExactly(catalog, d, actions[0]);
      StepKeepsInvariant(catalog, d, actions[0]);
      forall k | 0 <= k <= |rest|
        ensures Run(catalog, d, actions[..k + 1]) == Run(catalog, e, rest[..k])
      {
        assert actions[..k + 1][0] == actions[0] && actions[..k + 1][1..] == rest[..k];
      }
      if Separate(e) {
        RunsStaySeparateIff(catalog, e, rest);
        ShiftedRuns(catalog, d, actions);
      } else {
        assert Run(catalog, d, actions[..1]) == Run(catalog, e, rest[..0]) == e;
        assert Run(catalog, d, actions[..0]) == d;
      }
    }
  }

  /** Both sides of the statement above, one action later. */
  lemma ShiftedRuns(catalog: seq<Incident>, d: Desk, actions: seq<Action>)
    requires Catalogued(catalog) && actions != [] && Separate(d) && !Crowds(catalog, d, actions[0])
    ensures var e, rest := Step(catalog, d, actions[0]), actions[1..];
      && ((forall k :: 0 <= k <= |actions| ==> Separate(Run(catalog, d, actions[..k])))
          <==> (forall k :: 0 <= k <= |rest| ==> Separate(Run(catalog, e, rest[..k]))))
      && ((forall k :: 0 <= k < |actions| ==> !Crowds(catalog, Run(catalog, d, actions[..k]), actions[k]))
          <==> (forall k :: 0 <= k < |rest| ==> !Crowds(catalog, Run(catalog, e, rest[..k]), rest[k])))
  {
    hide Step, Separate, Crowds;
    var e, rest := Step(catalog, d, actions[0]), actions[1..];
    assert actions[..0] == [] && Run(catalog, d, []) == d;
    forall k | 0 <= k <= |rest|
      ensures Run(catalog, d, actions[..k + 1]) == Run(catalog, e, rest[..k])
    {
      assert actions[..k + 1][0] == actions[0] && actions[..k + 1][1..] == rest[..k];
    }
    forall k | 0 < k <= |actions|
      ensures Run(catalog, d, actions[..k]) == Run(catalog, e, rest[..k - 1])
    {
      assert Run(catalog, d, actions[..(k - 1) + 1]) == Run(catalog, e, rest[..k - 1]);
    }
    if forall k :: 0 <= k <= |actions| ==> Separate(Run(catalog, d, actions[..k])) {
      forall k | 0 <= k <= |rest|
        ensures Separate(Run(catalog, e, rest[..k]))
      {
        assert Separate(Run(catalog, d, actions[..k + 1]));
      }
    }
    if forall k :: 0 <= k < |actions| ==> !Crowds(catalog, Run(catalog, d, actions[..k]), actions[k]) {
      forall k | 0 <= k < |rest|
        ensures !Crowds(catalog, Run(catalog, e, rest[..k]), rest[k])
      {
        assert !Crowds(catalog, Run(catalog, d, actions[..k + 1]), actions[k + 1]);
      }
    }
  }

  /** In such a run every review is recorded by the timer of its own submission. */
  lemma UncrowdedRunsRecordOwnReviews(catalog: seq<Incident>, d: Desk, actions: seq<Action>, k: nat, r: Review)
    requires Catalogued(catalog) && Invariant(catalog, d) && Separate(d) && k < |actions|
    requires forall j :: 0 <= j < |actions| ==> !Crowds(catalog, Run(catalog, d, actions[..j]), actions[j])
    ensures var e := Run(catalog, d, actions[..k]);
      r !in e.reviews && r in Step(catalog, e, actions[k]).reviews && r.status == Reviewed ==> actions[k] == Fire(r.timer)
  {
    hide Step, Run, Crowds, Binds;
    var e := Run(catalog, d, actions[..k]);
    RunKeepsInvariant(catalog, d, actions[..k]);
    RunsStaySeparateIff(catalog, d, actions);
    if r !in e.reviews && r in Step(catalog, e, actions[k]).reviews && r.status == Reviewed {
      LiveReviewsAreEarned(catalog, e, actions[k], r);
      assert Attended(e, r.(status := Pending));
    }
  }

  /** Nothing has been selected, challenged or refreshed, and an approver is at work. */
  ghost predicate Untouched(d: Desk) {
    d.scenario == Normal && d.role == Approver && d.selected == map[] && d.capacityChanged == {} && d.recourses == []
  }

  ghost predicate Affordable(catalog: seq<Incident>, id: string)
    requires Catalogued(catalog)
  {
    Known(catalog, id) && Find(catalog, id).plans[0].cost <= REVIEW_CEILING
  }

  /** Opening an affordable incident and submitting its review. */
  lemma OpenAndSubmit(catalog: seq<Incident>, d: Desk, id: string, rest: seq<Action>) returns (e: Desk)
    requires Catalogued(catalog) && Untouched(d) && Affordable(catalog, id)
    ensures e == Submitted(catalog, d.(incidentId := id))
    ensures Run(catalog, d, [Navigate(id), SubmitReview(true, MINIMUM_NOTE)] + rest) == Run(catalog, e, rest)
  {
    var shown := d.(incidentId := id);
    assert CurrentPlan(catalog, shown, id) == Find(catalog, id).plans[0];
    assert MaySubmit(catalog, shown, true, MINIMUM_NOTE);
    e := Submitted(catalog, shown);
    var all := [Navigate(id), SubmitReview(true, MINIMUM_NOTE)] + rest;
    assert all[1..] == [SubmitReview(true, MINIMUM_NOTE)] + rest && all[1..][1..] == rest;
    assert Step(catalog, d, all[0]) == shown && Step(catalog, shown, all[1..][0]) == e;
  }

  lemma RunCons(catalog: seq<Incident>, d: Desk, a: Action, rest: seq<Action>)
    requires Catalogued(catalog)
    ensures Run(catalog, d, [a] + rest) == Run(catalog, Step(catalog, d, a), rest)
  {
    assert ([a] + rest)[1..] == rest;
  }

  /** Two submissions in a row, then a third one after the persona was changed and changed back. */
  function Overlapping(first: string, second: string): seq<Action> {
    [ChangePersona(Approver)]
    + ([Navigate(first), SubmitReview(true, MINIMUM_NOTE)]
    + ([Navigate(second), SubmitReview(true, MINIMUM_NOTE)]
    + ([ChangePersona(Operator), ChangePersona(Approver)]
    + ([Navigate(first), SubmitReview(true, MINIMUM_NOTE)]
    + [Fire(0)]))))
  }

  /** After the two submissions and the invalidation, the first timer is still running. */
  lemma ForgottenTimer(catalog: seq<Incident>, first: string, second: string, rest: seq<Action>) returns (d: Desk)
    requires Catalogued(catalog) && Affordable(catalog, first) && Affordable(catalog, second) && first != second
    ensures Untouched(d) && d.timers == map[0 := first] && d.nextTimer == 2
    ensures Run(catalog, Start(catalog, first), [ChangePersona(Approver)]
      + ([Navigate(first), SubmitReview(true, MINIMUM_NOTE)]
      + ([Navigate(second), SubmitReview(true, MINIMUM_NOTE)]
      + ([ChangePersona(Operator), ChangePersona(Approver)] + rest)))) == Run(catalog, d, rest)
  {
    hide CurrentPlan, Version, Proposal, MaySubmit, Affordable, Run, InvalidateAll, Without;
    var d0 := Start(catalog, first);
    var tail2 := [ChangePersona(Operator), ChangePersona(Approver)] + rest;
    var tail1 := [Navigate(second), SubmitReview(true, MINIMUM_NOTE)] + tail2;
    var tail0 := [Navigate(first), SubmitReview(true, MINIMUM_NOTE)] + tail1;
    RunCons(catalog, d0, ChangePersona(Approver), tail0);
    var d1 := Step(catalog, d0, ChangePersona(Approver));
    assert Untouched(d1);
    var d2 := OpenAndSubmit(catalog, d1, first, tail1);
    var d3 := OpenAndSubmit(catalog, d2, second, tail2);
    assert d3.pending == Some(1) && d3.timers == map[0 := first, 1 := second];
    assert tail2 == [ChangePersona(Operator)] + ([ChangePersona(Approver)] + rest);
    RunCons(catalog, d3, ChangePersona(Operator), [ChangePersona(Approver)] + rest);
    var d4 := Step(catalog, d3, ChangePersona(Operator));
    assert d4.timers == map[0 := first];
    RunCons(catalog, d4, ChangePersona(Approver), rest);
    d := Step(catalog, d4, ChangePersona(Approver));
  }

  /** Losing track of a timer shows: the timer of an invalidated submission can record a later
      review of the same incident, whose own timer is still running. */
  lemma ForgottenTimerRecordsEarly(catalog: seq<Incident>, first: string, second: string)
    requires Catalogued(catalog) && Affordable(catalog, first) && Affordable(catalog, second) && first != second
    ensures var e := Run(catalog, Start(catalog, first), Overlapping(first, second));
      && e.timers == map[2 := first]
      && exists r :: r in e.reviews && r.incidentId == first && r.status == Reviewed && r.timer == 2
  {
    hide CurrentPlan, Version, Proposal, MaySubmit, Affordable, Run, InvalidateAll, Without;
    var last := [Fire(0)];
    var d4 := ForgottenTimer(catalog, first, second, [Navigate(first), SubmitReview(true, MINIMUM_NOTE)] + last);
    var d5 := OpenAndSubmit(catalog, d4, first, last);
    assert d5.reviews[0].incidentId == first && d5.reviews[0].status == Pending && d5.reviews[0].timer == 2;
    FireZero(catalog, d5, first);
  }

  lemma FireZero(catalog: seq<Incident>, d: Desk, first: string)
    requires Catalogued(catalog) && d.timers == map[0 := first, 2 := first]
    requires |d.reviews| > 0 && d.reviews[0].incidentId == first && d.reviews[0].status == Pending
    requires d.reviews[0].timer == 2
    ensures var e := Run(catalog, d, [Fire(0)]);
      && e.timers == map[2 := first]
      && exists r :: r in e.reviews && r.incidentId == first && r.status == Reviewed && r.timer == 2
  {
    RunCons(catalog, d, Fire(0), []);
    assert [Fire(0)] + [] == [Fire(0)];
    var e := Step(catalog, d, Fire(0));
    assert e.timers == map[2 := first];
    assert e.reviews[0] in e.reviews && e.reviews[0].status == Reviewed;
  }
}

/** The component itself: state cells assigned by its handlers. */
module CommandCenter {
  import opened EventNet
  import opened ReviewDesk

  class App {
    const catalog: seq<Incident>
    var scenario: Scenario
    var role: Role
    var incidentId: string
    var selected: map<string, string>
    var versions: map<string, int>
    var proposals: map<string, int>
    var capacityChanged: set<string>
    var reviews: seq<Review>
    var recourses: seq<Recourse>
    var pending: Option<nat>
    var timers: map<nat, string>
    var nextTimer: nat
    var sequence: nat

    function State(): Desk
      reads this
    {
      Desk(scenario, role, incidentId, selected, versions, proposals, capacityChanged, reviews, recourses,
           pending, timers, nextTimer, sequence)
    }

    ghost predicate Valid()
      reads this
    {
      Catalogued(catalog) && Invariant(catalog, State())
    }

    constructor (catalog: seq<Incident>, hash: string)
      requires Catalogued(catalog)
      ensures this.catalog == catalog && State() == Start(catalog, hash) && Valid()
    {
      this.catalog := catalog;
      scenario, role := Normal, Operator;
      incidentId := if Known(catalog, hash) then hash else catalog[0].id;
      selected, versions, proposals, capacityChanged := map[], map[], map[], {};
      reviews, recourses := [], [];
      pending, timers, nextTimer, sequence := None, map[], 0, FIRST_SEQUENCE;
      new;
      StartIsGood(catalog, hash);
    }

    /** Clears the remembered timer and invalidates every review it could still record. */
    method InvalidateReviews()
      modifies this`pending, this`timers, this`reviews
      ensures State() == Invalidate(old(State()))
    {
      if pending.Some? {
        timers := timers - {pending.value};
        pending := None;
      }
      reviews := InvalidateAll(reviews, incidentId);
    }

    method SetMode(next: Scenario)
      requires Valid()
      modifies this
      ensures Valid() && State() == Step(catalog, old(State()), Action.SetMode(next))
    {
      hide Invariant, Catalogued, Plans, CurrentPlan, Version, Proposal, OpenBlocking, Without, InvalidateAll, RecordAll, CloseAll;
      StepKeepsInvariant(catalog, State(), Action.SetMode(next));
      var shown := State();
      InvalidateReviews();
      scenario := next;
      if Logged(next) {
        sequence := sequence + 1;
      }
      if next == Normal && shown.scenario != Normal {
        versions := versions[incidentId := Version(shown, incidentId) + 1];
      }
    }

    method ChoosePlan(planId: string)
      requires Valid()
      modifies this
      ensures Valid() && State() == Step(catalog, old(State()), Action.ChoosePlan(planId))
    {
      hide Invariant, Catalogued, Plans, CurrentPlan, Version, Proposal, OpenBlocking, Without, InvalidateAll, RecordAll, CloseAll;
      StepKeepsInvariant(catalog, State(), Action.ChoosePlan(planId));
      var shown := State();
      if planId == CurrentPlan(catalog, shown, incidentId).id {
        return;
      }
      InvalidateReviews();
      selected := selected[incidentId := planId];
      proposals := proposals[incidentId := Proposal(shown, incidentId) + 1];
      sequence := sequence + 1;
    }

    method SubmitReview(scopeAccepted: bool, noteLength: nat)
      requires Valid()
      modifies this
      ensures Valid() && State() == Step(catalog, old(State()), Action.SubmitReview(scopeAccepted, noteLength))
    {
      hide Invariant, Catalogued, Plans, CurrentPlan, Version, Proposal, OpenBlocking, Without, InvalidateAll, RecordAll, CloseAll;
      StepKeepsInvariant(catalog, State(), Action.SubmitReview(scopeAccepted, noteLength));
      var shown := State();
      var plan := CurrentPlan(catalog, shown, incidentId);
      if Blocked(shown) || role != Approver || !scopeAccepted || noteLength < MINIMUM_NOTE || plan.cost > REVIEW_CEILING {
        return;
      }
      reviews := [Review(incidentId, plan.id, Version(shown, incidentId), Proposal(shown, incidentId), Pending, nextTimer)]
        + Without(reviews, incidentId);
      sequence := sequence + 1;
      timers := timers[nextTimer := incidentId];
      pending := Some(nextTimer);
      nextTimer := nextTimer + 1;
    }

    /** The callback of a running timer. */
    method Fire(timer: nat)
      requires Valid() && timer in timers
      modifies this
      ensures Valid() && State() == Step(catalog, old(State()), Action.Fire(timer))
    {
      hide Invariant, Catalogued, Plans, CurrentPlan, Version, Proposal, OpenBlocking, Without, InvalidateAll, RecordAll, CloseAll;
      StepKeepsInvariant(catalog, State(), Action.Fire(timer));
      var captured := timers[timer];
      timers := timers - {timer};
      reviews := RecordAll(reviews, captured);
      sequence := sequence + 2;
      pending := None;
    }

    method SubmitRecourse(blocking: bool, noteLength: nat)
      requires Valid()
      modifies this
      ensures Valid() && State() == Step(catalog, old(State()), Action.SubmitRecourse(blocking, noteLength))
    {
      hide Invariant, Catalogued, Plans, CurrentPlan, Version, Proposal, OpenBlocking, Without, InvalidateAll, RecordAll, CloseAll;
      StepKeepsInvariant(catalog, State(), Action.SubmitRecourse(blocking, noteLength));
      if role == Auditor || scenario == Disconnected || noteLength < MINIMUM_NOTE {
        return;
      }
      recourses := recourses + [Recourse(sequence, incidentId, blocking, true)];
      sequence := sequence + 1;
      if blocking {
        InvalidateReviews();
      }
      sequence := sequence + 2;
    }

    method ResolveRecourse(id: nat)
      requires Valid()
      modifies this
      ensures Valid() && State() == Step(catalog, old(State()), Action.ResolveRecourse(id))
    {
      hide Invariant, Catalogued, Plans, CurrentPlan, Version, Proposal, OpenBlocking, Without, InvalidateAll, RecordAll, CloseAll;
      StepKeepsInvariant(catalog, State(), Action.ResolveRecourse(id));
      InvalidateReviews();
      recourses := CloseAll(recourses, id);
      sequence := sequence + 2;
    }

    method RefreshState()
      requires Valid()
      modifies this
      ensures Valid() && State() == Step(catalog, old(State()), Action.RefreshState)
    {
      hide Invariant, Catalogued, Plans, CurrentPlan, Version, Proposal, OpenBlocking, Without, InvalidateAll, RecordAll, CloseAll;
      StepKeepsInvariant(catalog, State(), Action.RefreshState);
      var shown := State();
      InvalidateReviews();
      capacityChanged := capacityChanged + {incidentId};
      versions := versions[incidentId := Version(shown, incidentId) + 1];
      proposals := proposals[incidentId := Proposal(shown, incidentId) + 1];
      selected := selected[incidentId := Plans(catalog, shown, incidentId)[1].id];
      scenario := Normal;
      sequence := sequence + 1;
    }

    method ChangePersona(next: Role)
      requires Valid()
      modifies this
      ensures Valid() && State() == Step(catalog, old(State()), Action.ChangePersona(next))
    {
      hide Invariant, Catalogued, Plans, CurrentPlan, Version, Proposal, OpenBlocking, Without, InvalidateAll, RecordAll, CloseAll;
      StepKeepsInvariant(catalog, State(), Action.ChangePersona(next));
      InvalidateReviews();
      role := next;
    }

    method Navigate(next: string)
      requires Valid()
      modifies this`incidentId
      ensures Valid() && State() == Step(catalog, old(State()), Action.Navigate(next))
    {
      hide Invariant, Known, Plans, CurrentPlan, Version, Proposal, OpenBlocking, Without, InvalidateAll, RecordAll, CloseAll;
      StepKeepsInvariant(catalog, State(), Action.Navigate(next));
      incidentId := if Known(catalog, next) then next else catalog[0].id;
    }

    method Reset()
      requires Valid()
      modifies this
      ensures Valid() && State() == Step(catalog, old(State()), Action.Reset)
    {
      hide Invariant, Plans, CurrentPlan, Version, Proposal, OpenBlocking, Without, InvalidateAll, RecordAll, CloseAll;
      StepKeepsInvariant(catalog, State(), Action.Reset);
      ResetIs(catalog, State());
      InvalidateReviews();
      scenario, role := Normal, Operator;
      reviews, recourses := [], [];
      versions, proposals, selected, capacityChanged := map[], map[], map[], {};
      assert Known(catalog, catalog[0].id);
      incidentId := catalog[0].id;
    }
  }
}
