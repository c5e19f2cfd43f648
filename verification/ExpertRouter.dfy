/** Routing a review item to experts: eligibility, ranking, and one expert per affiliation. */
module ExpertRouter {
  import opened Ordering
  import opened Sorting
  import opened Rounding
  import EventNet

  datatype Profile = Profile(
    expertId: string, affiliation: EventNet.Option<string>, verified: bool, calibration: real,
    expiresOn: EventNet.Option<int>, domains: set<string>, specialties: set<string>, jurisdictions: set<string>,
    attested: bool, authored: set<string>, tenants: set<string>, completedReviews: nat)

  datatype Item = Item(
    domainId: string, requiredSpecialties: set<string>, jurisdiction: string,
    candidatePairId: EventNet.Option<string>, tenantId: EventNet.Option<string>, reviewsRequired: int)

  datatype Reason =
    | ProfileNotVerified | CalibrationBelowMinimum | CredentialExpiredOrMissing | DomainNotVerified
    | SpecialtyMismatch | JurisdictionMismatch | ConflictAttestationMissing | SelfReviewProhibited
    | TenantPermissionMissing

  datatype Candidate = Candidate(expertId: string, affiliation: string, score: int)
  datatype Rejection = Rejection(expertId: string, reasons: seq<Reason>)
  datatype Status = Assigned | InsufficientQualifiedExperts
  datatype Routing = Routing(
    assignees: seq<Candidate>, status: Status, eligibleCount: nat, affiliationCount: nat, rejected: seq<Rejection>)

  const MINIMUM_CALIBRATION: real := 0.8

  function When(condition: bool, reason: Reason): seq<Reason> {
    if condition then [reason] else []
  }

  function EligibilityReasons(p: Profile, item: Item, asOf: int): seq<Reason> {
    When(!p.verified, ProfileNotVerified)
    + When(p.calibration < MINIMUM_CALIBRATION, CalibrationBelowMinimum)
    + When(p.expiresOn.None? || p.expiresOn.value < asOf, CredentialExpiredOrMissing)
    + When(item.domainId !in p.domains, DomainNotVerified)
    + When(item.requiredSpecialties * p.specialties == {}, SpecialtyMismatch)
    + When(item.jurisdiction !in p.jurisdictions, JurisdictionMismatch)
    + When(!p.attested, ConflictAttestationMissing)
    + When(item.candidatePairId.Some? && item.candidatePairId.value in p.authored, SelfReviewProhibited)
    + When(item.tenantId.Some? && item.tenantId.value != "" && item.tenantId.value !in p.tenants, TenantPermissionMissing)
  }

  function Min(a: real, b: real): real {
    if b < a then b else a
  }

  /** The routing score in ten-thousandths. */
  function RoutingScore(p: Profile, item: Item): int {
    RoundHalfEven(10000.0 * (
      40.0
      + Min(30.0, |item.requiredSpecialties * p.specialties| as real * 15.0)
      + 15.0
      + p.calibration * 10.0
      + Min(5.0, p.completedReviews as real / 20.0)))
  }

  function AffiliationOf(p: Profile): string {
    match p.affiliation case Some(a) => a case None => p.expertId
  }

  function Eligible(profiles: seq<Profile>, item: Item, asOf: int): seq<Candidate> {
    if profiles == [] then []
    else
      var last := profiles[|profiles| - 1];
      Eligible(profiles[..|profiles| - 1], item, asOf)
      + (if EligibilityReasons(last, item, asOf) == []
         then [Candidate(last.expertId, AffiliationOf(last), RoutingScore(last, item))] else [])
  }

  function Rejected(profiles: seq<Profile>, item: Item, asOf: int): seq<Rejection> {
    if profiles == [] then []
    else
      var last := profiles[|profiles| - 1];
      var reasons := EligibilityReasons(last, item, asOf);
      Rejected(profiles[..|profiles| - 1], item, asOf)
      + (if reasons == [] then [] else [Rejection(last.expertId, reasons)])
  }

  /** Best score first, then expert identifier. */
  function RankKey(c: Candidate): Key {
    [-c.score] + Codes(c.expertId)
  }

  function Ranked(eligible: seq<Candidate>): seq<Candidate> {
    Sort(eligible, RankKey)
  }

  /** Takes the best candidate of every affiliation not yet used until `needed` are taken. */
  function Greedy(ranked: seq<Candidate>, needed: int, used: set<string>): seq<Candidate> {
    if ranked == [] then []
    else if ranked[0].affiliation in used then Greedy(ranked[1..], needed, used)
    else if needed == 1 then [ranked[0]]
    else [ranked[0]] + Greedy(ranked[1..], needed - 1, used + {ranked[0].affiliation})
  }

  function Affiliations(candidates: seq<Candidate>): set<string> {
    set c | c in candidates :: c.affiliation
  }

  /** The assignment loop with its early exit. */
  method AssignLoop(ranked: seq<Candidate>, needed: int) returns (assignments: seq<Candidate>)
    ensures assignments == Greedy(ranked, needed, {})
  {
    assignments := [];
    var used: set<string> := {};
    assert ranked[0..] == ranked;
    for i := 0 to |ranked|
      invariant |assignments| != needed || (needed == 0 && assignments == [])
      invariant Greedy(ranked, needed, {}) == assignments + Greedy(ranked[i..], needed - |assignments|, used)
    {
      var candidate := ranked[i];
      assert ranked[i..][1..] == ranked[i + 1..];
      if candidate.affiliation in used {
        continue;
      }
      assignments := assignments + [candidate];
      used := used + {candidate.affiliation};
      if |assignments| == needed {
        return;
      }
    }
  }

  method RouteItem(item: Item, profiles: seq<Profile>, asOf: int) returns (r: Routing)
    ensures r == Route(item, profiles, asOf)
  {
    var eligible: seq<Candidate>, rejected: seq<Rejection> := [], [];
    for i := 0 to |profiles|
      invariant eligible == Eligible(profiles[..i], item, asOf)
      invariant rejected == Rejected(profiles[..i], item, asOf)
    {
      var profile := profiles[i];
      assert profiles[..i + 1][..i] == profiles[..i];
      var reasons := EligibilityReasons(profile, item, asOf);
      if reasons != [] {
        rejected := rejected + [Rejection(profile.expertId, reasons)];
      } else {
        eligible := eligible + [Candidate(profile.expertId, AffiliationOf(profile), RoutingScore(profile, item))];
      }
    }
    assert profiles[..|profiles|] == profiles;
    var ranked := Ranked(eligible);
    SortMembers(eligible, RankKey);
    var assignments := AssignLoop(ranked, item.reviewsRequired);
    r := Routing(
      assignments,
      if |assignments| == item.reviewsRequired then Assigned else InsufficientQualifiedExperts,
      |eligible|, |Affiliations(eligible)|, rejected);
  }

  function Route(item: Item, profiles: seq<Profile>, asOf: int): Routing {
    var eligible := Eligible(profiles, item, asOf);
    var assignees := Greedy(Ranked(eligible), item.reviewsRequired, {});
    Routing(
      assignees,
      if |assignees| == item.reviewsRequired then Assigned else InsufficientQualifiedExperts,
      |eligible|, |Affiliations(eligible)|, Rejected(profiles, item, asOf))
  }

  // Selections

  /** Pairwise distinct affiliations, none of them used. */
  ghost predicate Independent(chosen: seq<Candidate>, used: set<string>) {
    && (forall c :: c in chosen ==> c.affiliation !in used)
    && (forall i, j :: 0 <= i < j < |chosen| ==> chosen[i].affiliation != chosen[j].affiliation)
  }

  ghost predicate DrawnFrom(chosen: seq<Candidate>, pool: seq<Candidate>) {
    forall c :: c in chosen ==> c in pool
  }

  function TotalScore(chosen: seq<Candidate>): int {
    if chosen == [] then 0 else chosen[0].score + TotalScore(chosen[1..])
  }

  lemma {:induction false} GreedyIsSelection(ranked: seq<Candidate>, needed: int, used: set<string>)
    ensures DrawnFrom(Greedy(ranked, needed, used), ranked)
    ensures Independent(Greedy(ranked, needed, used), used)
  {
    if ranked != [] {
      var head, rest := ranked[0], ranked[1..];
      assert ranked == [head] + rest;
      if head.affiliation in used {
        GreedyIsSelection(rest, needed, used);
      } else if needed != 1 {
        GreedyIsSelection(rest, needed - 1, used + {head.affiliation});
      }
    }
  }

  /** Affiliations still free after the first candidate of the ranking has been considered. */
  lemma FreeAffiliations(ranked: seq<Candidate>, used: set<string>)
    requires ranked != []
    ensures var a, rest := ranked[0].affiliation, ranked[1..];
      if a in used then Affiliations(ranked) - used == Affiliations(rest) - used
      else |Affiliations(ranked) - used| == 1 + |Affiliations(rest) - (used + {a})|
  {
    var a, rest := ranked[0].affiliation, ranked[1..];
    assert ranked == [ranked[0]] + rest;
    assert Affiliations(ranked) == Affiliations(rest) + {a};
    if a !in used {
      assert Affiliations(ranked) - used == (Affiliations(rest) - (used + {a})) + {a};
    }
  }

  /** The greedy loop stops at `needed`, or when the affiliations run out. */
  lemma {:induction false} GreedySize(ranked: seq<Candidate>, needed: int, used: set<string>)
    ensures var free := |Affiliations(ranked) - used|;
      |Greedy(ranked, needed, used)| == if 1 <= needed < free then needed else free
  {
    hide Affiliations;
    if ranked == [] {
      NoAffiliations(used);
    } else {
      FreeAffiliations(ranked, used);
      if ranked[0].affiliation in used {
        GreedySize(ranked[1..], needed, used);
      } else if needed != 1 {
        GreedySize(ranked[1..], needed - 1, used + {ranked[0].affiliation});
      }
    }
  }

  lemma NoAffiliations(used: set<string>)
    ensures |Affiliations([]) - used| == 0
  {
    assert Affiliations([]) - used == {};
  }

  ghost predicate ByScore(ranked: seq<Candidate>) {
    forall i, j :: 0 <= i < j < |ranked| ==> ranked[i].score >= ranked[j].score
  }

  function Drop(chosen: seq<Candidate>, k: nat): (r: seq<Candidate>)
    requires k < |chosen|
    ensures |r| == |chosen| - 1
  {
    chosen[..k] + chosen[k + 1..]
  }

  lemma {:induction false} DropScore(chosen: seq<Candidate>, k: nat)
    requires k < |chosen|
    ensures TotalScore(chosen) == chosen[k].score + TotalScore(Drop(chosen, k))
  {
    if k == 0 {
      assert Drop(chosen, 0) == chosen[1..];
    } else {
      DropScore(chosen[1..], k - 1);
      assert Drop(chosen, k)[1..] == Drop(chosen[1..], k - 1);
    }
  }

  /** The exchange step: some member of a rival selection can give way to the best candidate. */
  lemma GiveWay(chosen: seq<Candidate>, head: Candidate, rest: seq<Candidate>, needed: nat, used: set<string>)
    returns (smaller: seq<Candidate>)
    requires ByScore([head] + rest) && head.score >= 0 && head.affiliation !in used
    requires DrawnFrom(chosen, [head] + rest) && Independent(chosen, used) && 1 <= |chosen| <= needed
    ensures |smaller| <= needed - 1
    ensures DrawnFrom(smaller, rest) && Independent(smaller, used + {head.affiliation})
    ensures TotalScore(chosen) <= head.score + TotalScore(smaller)
  {
    if k: nat :| k < |chosen| && chosen[k].affiliation == head.affiliation {
      smaller := Drop(chosen, k);
      DropScore(chosen, k);
      NoBetter(chosen[k], head, rest);
    } else if |chosen| == needed {
      smaller := Drop(chosen, 0);
      DropScore(chosen, 0);
      NoBetter(chosen[0], head, rest);
    } else {
      smaller := chosen;
    }
    forall c | c in smaller
      ensures c in rest && c.affiliation !in used + {head.affiliation}
    {
      assert c in chosen;
    }
  }

  lemma NoBetter(c: Candidate, head: Candidate, rest: seq<Candidate>)
    requires ByScore([head] + rest) && c in [head] + rest
    ensures c.score <= head.score
  {
    var all := [head] + rest;
    var k :| 0 <= k < |all| && all[k] == c;
    assert 0 < k ==> all[0].score >= all[k].score;
  }

  /** No independent selection of at most `needed` candidates scores more than the greedy one. */
  lemma {:induction false} GreedyIsOptimal(
    ranked: seq<Candidate>, needed: nat, used: set<string>, chosen: seq<Candidate>)
    requires ByScore(ranked) && (forall c :: c in ranked ==> c.score >= 0) && needed >= 1
    requires DrawnFrom(chosen, ranked) && Independent(chosen, used) && |chosen| <= needed
    ensures TotalScore(chosen) <= TotalScore(Greedy(ranked, needed, used))
    decreases |ranked|
  {
    hide TotalScore, ByScore, Independent, DrawnFrom;
    if ranked == [] || chosen == [] {
      NothingChosen(chosen, ranked);
      GreedyScoreNonNegative(ranked, needed, used);
    } else {
      var head, rest := ranked[0], ranked[1..];
      assert ranked == [head] + rest;
      RestByScore(head, rest);
      if head.affiliation in used {
        SkipUsed(chosen, head, rest, used);
        GreedyIsOptimal(rest, needed, used, chosen);
      } else {
        var smaller := GiveWay(chosen, head, rest, needed, used);
        if needed == 1 {
          assert smaller == [];
          ScoreCons(head, []);
        } else {
          GreedyIsOptimal(rest, needed - 1, used + {head.affiliation}, smaller);
          ScoreCons(head, Greedy(rest, needed - 1, used + {head.affiliation}));
        }
      }
    }
  }

  lemma ScoreCons(c: Candidate, rest: seq<Candidate>)
    ensures TotalScore([c] + rest) == c.score + TotalScore(rest)
    ensures [c] + [] == [c] && TotalScore([]) == 0
  {
    assert ([c] + rest)[1..] == rest;
  }

  lemma NothingChosen(chosen: seq<Candidate>, ranked: seq<Candidate>)
    requires DrawnFrom(chosen, ranked) && (ranked == [] || chosen == [])
    ensures TotalScore(chosen) == 0
  {
    assert chosen == [] || chosen[0] in chosen;
  }

  lemma RestByScore(head: Candidate, rest: seq<Candidate>)
    requires ByScore([head] + rest)
    ensures ByScore(rest)
  {
    var all := [head] + rest;
    forall i, j | 0 <= i < j < |rest|
      ensures rest[i].score >= rest[j].score
    {
      assert all[i + 1].score >= all[j + 1].score;
    }
  }

  lemma SkipUsed(chosen: seq<Candidate>, head: Candidate, rest: seq<Candidate>, used: set<string>)
    requires DrawnFrom(chosen, [head] + rest) && Independent(chosen, used) && head.affiliation in used
    ensures DrawnFrom(chosen, rest)
  {
  }

  lemma {:induction false} GreedyScoreNonNegative(ranked: seq<Candidate>, needed: int, used: set<string>)
    requires forall c :: c in ranked ==> c.score >= 0
    ensures TotalScore(Greedy(ranked, needed, used)) >= 0
  {
    GreedyIsSelection(ranked, needed, used);
    NonNegativeTotal(Greedy(ranked, needed, used));
  }

  lemma {:induction false} NonNegativeTotal(chosen: seq<Candidate>)
    requires forall c :: c in chosen ==> c.score >= 0
    ensures TotalScore(chosen) >= 0
  {
    if chosen != [] {
      assert chosen == [chosen[0]] + chosen[1..];
      NonNegativeTotal(chosen[1..]);
    }
  }

  // Eligible candidates

  /** What each reason says about the expert. */
  ghost predicate Applies(r: Reason, p: Profile, item: Item, asOf: int) {
    match r
    case ProfileNotVerified => !p.verified
    case CalibrationBelowMinimum => p.calibration < MINIMUM_CALIBRATION
    case CredentialExpiredOrMissing => !(p.expiresOn.Some? && p.expiresOn.value >= asOf)
    case DomainNotVerified => item.domainId !in p.domains
    case SpecialtyMismatch => !exists s :: s in item.requiredSpecialties && s in p.specialties
    case JurisdictionMismatch => item.jurisdiction !in p.jurisdictions
    case ConflictAttestationMissing => !p.attested
    case SelfReviewProhibited => exists id :: id in p.authored && item.candidatePairId == EventNet.Some(id)
    case TenantPermissionMissing => exists id :: id !in p.tenants && id != "" && item.tenantId == EventNet.Some(id)
  }

  lemma NoSharedSpecialty(p: Profile, item: Item)
    ensures item.requiredSpecialties * p.specialties == {}
       <==> !exists s :: s in item.requiredSpecialties && s in p.specialties
  {
    var shared := item.requiredSpecialties * p.specialties;
    if shared != {} {
      var s :| s in shared;
    }
    forall s | s in item.requiredSpecialties && s in p.specialties
      ensures shared != {}
    {
      assert s in shared;
    }
  }

  /** Exactly the reasons that apply are reported. */
  lemma ReportedIffApplies(r: Reason, p: Profile, item: Item, asOf: int)
    ensures r in EligibilityReasons(p, item, asOf) <==> Applies(r, p, item, asOf)
  {
    NoSharedSpecialty(p, item);
    match r
    case SelfReviewProhibited =>
      assert item.candidatePairId.Some? ==> item.candidatePairId == EventNet.Some(item.candidatePairId.value);
    case TenantPermissionMissing =>
      assert item.tenantId.Some? ==> item.tenantId == EventNet.Some(item.tenantId.value);
    case _ =>
  }

  /** The order in which reasons are listed. */
  function Place(r: Reason): nat {
    match r
    case ProfileNotVerified => 0
    case CalibrationBelowMinimum => 1
    case CredentialExpiredOrMissing => 2
    case DomainNotVerified => 3
    case SpecialtyMismatch => 4
    case JurisdictionMismatch => 5
    case ConflictAttestationMissing => 6
    case SelfReviewProhibited => 7
    case TenantPermissionMissing => 8
  }

  ghost predicate InPlace(reasons: seq<Reason>, from: nat, to: nat) {
    && (forall i :: 0 <= i < |reasons| ==> from <= Place(reasons[i]) < to)
    && (forall i, j :: 0 <= i < j < |reasons| ==> Place(reasons[i]) < Place(reasons[j]))
  }

  lemma JoinPlaces(a: seq<Reason>, b: seq<Reason>, middle: nat)
    requires InPlace(a, 0, middle) && InPlace(b, middle, middle + 1)
    ensures InPlace(a + b, 0, middle + 1)
  {
  }

  lemma NinePlaces(
    a: seq<Reason>, b: seq<Reason>, c: seq<Reason>, d: seq<Reason>, e: seq<Reason>,
    f: seq<Reason>, g: seq<Reason>, h: seq<Reason>, i: seq<Reason>)
    requires InPlace(a, 0, 1) && InPlace(b, 1, 2) && InPlace(c, 2, 3) && InPlace(d, 3, 4) && InPlace(e, 4, 5)
    requires InPlace(f, 5, 6) && InPlace(g, 6, 7) && InPlace(h, 7, 8) && InPlace(i, 8, 9)
    ensures InPlace(a + b + c + d + e + f + g + h + i, 0, 9)
  {
    hide InPlace;
    JoinPlaces(a, b, 1);
    JoinPlaces(a + b, c, 2);
    JoinPlaces(a + b + c, d, 3);
    JoinPlaces(a + b + c + d, e, 4);
    JoinPlaces(a + b + c + d + e, f, 5);
    JoinPlaces(a + b + c + d + e + f, g, 6);
    JoinPlaces(a + b + c + d + e + f + g, h, 7);
    JoinPlaces(a + b + c + d + e + f + g + h, i, 8);
  }

  lemma InItsPlace(condition: bool, r: Reason)
    ensures InPlace(When(condition, r), Place(r), Place(r) + 1)
  {
  }

  /** Reasons are listed once each and always in that order. */
  lemma ReasonsInOrder(p: Profile, item: Item, asOf: int)
    ensures InPlace(EligibilityReasons(p, item, asOf), 0, 9)
  {
    hide InPlace, When;
    forall condition, r
      ensures InPlace(When(condition, r), Place(r), Place(r) + 1)
    {
      InItsPlace(condition, r);
    }
    NinePlaces(
      When(!p.verified, ProfileNotVerified),
      When(p.calibration < MINIMUM_CALIBRATION, CalibrationBelowMinimum),
      When(p.expiresOn.None? || p.expiresOn.value < asOf, CredentialExpiredOrMissing),
      When(item.domainId !in p.domains, DomainNotVerified),
      When(item.requiredSpecialties * p.specialties == {}, SpecialtyMismatch),
      When(item.jurisdiction !in p.jurisdictions, JurisdictionMismatch),
      When(!p.attested, ConflictAttestationMissing),
      When(item.candidatePairId.Some? && item.candidatePairId.value in p.authored, SelfReviewProhibited),
      When(item.tenantId.Some? && item.tenantId.value != "" && item.tenantId.value !in p.tenants, TenantPermissionMissing));
  }

  /** No reason is given exactly when all nine conditions hold. */
  lemma EligibleIff(p: Profile, item: Item, asOf: int)
    ensures EligibilityReasons(p, item, asOf) == [] <==>
      && p.verified && p.calibration >= MINIMUM_CALIBRATION
      && p.expiresOn.Some? && p.expiresOn.value >= asOf
      && item.domainId in p.domains && (exists s :: s in item.requiredSpecialties && s in p.specialties)
      && item.jurisdiction in p.jurisdictions && p.attested
      && (item.candidatePairId.Some? ==> item.candidatePairId.value !in p.authored)
      && (item.tenantId.Some? && item.tenantId.value != "" ==> item.tenantId.value in p.tenants)
  {
    NoSharedSpecialty(p, item);
  }

  lemma SpecialtyPoints(shared: nat)
    ensures 10000.0 * Min(30.0, shared as real * 15.0) == (if shared < 2 then 150000 * shared else 300000) as real
  {
  }

  lemma ReviewPoints(reviews: nat)
    ensures 10000.0 * Min(5.0, reviews as real / 20.0) == (if reviews < 100 then 500 * reviews else 50000) as real
  {
  }

  lemma AddedPoints(x: real, a: int, y: real, b: int, c: real)
    requires 10000.0 * x == a as real && 10000.0 * y == b as real && a % 2 == 0 && b % 2 == 0
    ensures RoundHalfEven(10000.0 * (40.0 + x + 15.0 + c * 10.0 + y)) == 550000 + a + b + RoundHalfEven(100000.0 * c)
  {
    hide RoundHalfEven;
    RoundShifts(100000.0 * c, 550000 + a + b);
    assert 10000.0 * (40.0 + x + 15.0 + c * 10.0 + y) == 100000.0 * c + (550000 + a + b) as real;
  }

  /** What each part of the score is worth, in ten-thousandths of a point: 55 points for the domain and
      the jurisdiction, 15 for each of the first two shared specialties, a twentieth for each of the
      first hundred reviews, and ten times the calibration, which alone is rounded. */
  lemma ScoreParts(p: Profile, item: Item)
    ensures var shared := |item.requiredSpecialties * p.specialties|;
      RoutingScore(p, item) == 550000
        + (if shared < 2 then 150000 * shared else 300000)
        + (if p.completedReviews < 100 then 500 * p.completedReviews else 50000)
        + RoundHalfEven(100000.0 * p.calibration)
  {
    hide Min, RoundHalfEven;
    var shared := |item.requiredSpecialties * p.specialties|;
    SpecialtyPoints(shared);
    ReviewPoints(p.completedReviews);
    AddedPoints(
      Min(30.0, shared as real * 15.0), if shared < 2 then 150000 * shared else 300000,
      Min(5.0, p.completedReviews as real / 20.0), if p.completedReviews < 100 then 500 * p.completedReviews else 50000,
      p.calibration);
  }

  /** A calibration that is higher by c is worth ten c points, up to one ten-thousandth. */
  lemma CalibrationPoints(p: Profile, q: Profile, item: Item)
    requires |item.requiredSpecialties * p.specialties| == |item.requiredSpecialties * q.specialties|
    requires p.completedReviews == q.completedReviews
    ensures var gain, exact := RoutingScore(q, item) - RoutingScore(p, item), 100000.0 * (q.calibration - p.calibration);
      exact - 1.0 <= gain as real <= exact + 1.0
  {
    ScoreParts(p, item);
    ScoreParts(q, item);
    RoundsToNearest(100000.0 * p.calibration);
    RoundsToNearest(100000.0 * q.calibration);
  }

  /** Nobody calibrated up to 1 scores more than 100 points; they are reached exactly with two shared
      specialties, a hundred reviews and a calibration that rounds to 1. */
  lemma FullScore(p: Profile, item: Item)
    requires p.calibration <= 1.0
    ensures RoutingScore(p, item) <= 1000000
    ensures RoutingScore(p, item) == 1000000 <==>
      |item.requiredSpecialties * p.specialties| >= 2 && p.completedReviews >= 100 && p.calibration >= 0.999995
  {
    ScoreParts(p, item);
  }

  ghost predicate Dominates(q: Profile, p: Profile, item: Item) {
    && |item.requiredSpecialties * p.specialties| <= |item.requiredSpecialties * q.specialties|
    && p.calibration <= q.calibration && p.completedReviews <= q.completedReviews
  }

  /** More shared specialties, a better calibration and more completed reviews never cost points. */
  lemma ScoreMonotone(p: Profile, q: Profile, item: Item)
    requires Dominates(q, p, item)
    ensures RoutingScore(p, item) <= RoutingScore(q, item)
  {
  }

  /** An eligible expert shares a specialty and is calibrated, which is worth 78 points. */
  lemma EligibleScore(p: Profile, item: Item, asOf: int)
    requires EligibilityReasons(p, item, asOf) == []
    ensures RoutingScore(p, item) >= 780000
  {
    EligibleIff(p, item, asOf);
    var shared := item.requiredSpecialties * p.specialties;
    NoSharedSpecialty(p, item);
    assert |shared| >= 1;
    RoundsToNearest(780000.0);
    assert 780000.0.Floor == 780000;
  }

  /** The bound is reached. */
  lemma EligibleScoreIsTight(p: Profile, item: Item, asOf: int)
    requires EligibilityReasons(p, item, asOf) == []
    requires |item.requiredSpecialties * p.specialties| == 1
    requires p.calibration == MINIMUM_CALIBRATION && p.completedReviews == 0
    ensures RoutingScore(p, item) == 780000
  {
    RoundsToNearest(780000.0);
    assert 780000.0.Floor == 780000;
  }

  /** Exactly the eligible profiles become candidates; an expert without affiliation stands for itself. */
  lemma {:induction false} EligibleMembers(profiles: seq<Profile>, item: Item, asOf: int)
    ensures forall c :: c in Eligible(profiles, item, asOf) <==>
      exists p :: p in profiles && EligibilityReasons(p, item, asOf) == []
        && c == Candidate(p.expertId, if p.affiliation.Some? then p.affiliation.value else p.expertId, RoutingScore(p, item))
  {
    if profiles != [] {
      var front, last := profiles[..|profiles| - 1], profiles[|profiles| - 1];
      EligibleMembers(front, item, asOf);
      assert profiles == front + [last];
    }
  }

  /** The ranking descends by score, and by expert identifier among equal scores. */
  lemma RankedByScore(eligible: seq<Candidate>)
    ensures ByScore(Ranked(eligible))
    ensures var r := Ranked(eligible); forall i, j :: 0 <= i < j < |r| && r[i].score == r[j].score ==>
      !Less(Codes(r[j].expertId), Codes(r[i].expertId))
  {
    var r := Ranked(eligible);
    SortCorrect(eligible, RankKey);
    forall i, j | 0 <= i < j < |r|
      ensures r[i].score >= r[j].score
      ensures r[i].score == r[j].score ==> !Less(Codes(r[j].expertId), Codes(r[i].expertId))
    {
      LessCons(-r[j].score, Codes(r[j].expertId), -r[i].score, Codes(r[i].expertId));
    }
  }

  /** Rejected are exactly the other profiles, with all their reasons. */
  lemma {:induction false} RejectedMembers(profiles: seq<Profile>, item: Item, asOf: int)
    ensures forall r :: r in Rejected(profiles, item, asOf) <==>
      exists p :: p in profiles && EligibilityReasons(p, item, asOf) != []
        && r == Rejection(p.expertId, EligibilityReasons(p, item, asOf))
    ensures |Eligible(profiles, item, asOf)| + |Rejected(profiles, item, asOf)| == |profiles|
  {
    hide EligibilityReasons, RoutingScore;
    if profiles != [] {
      var front, last := profiles[..|profiles| - 1], profiles[|profiles| - 1];
      RejectedMembers(front, item, asOf);
      assert profiles == front + [last];
    }
  }

  /** Whoever ranks before an assigned candidate is assigned, or an earlier one of its affiliation is. */
  lemma {:induction false} GreedyTakesFirst(ranked: seq<Candidate>, needed: int, used: set<string>, i: nat, j: nat)
    requires NoDuplicates(ranked) && i < j < |ranked|
    requires ranked[j] in Greedy(ranked, needed, used) && ranked[i].affiliation !in used
    ensures exists k ::
      0 <= k <= i && ranked[k] in Greedy(ranked, needed, used) && ranked[k].affiliation == ranked[i].affiliation
    decreases |ranked|
  {
    var head, rest := ranked[0], ranked[1..];
    var taken := head.affiliation !in used;
    if i > 0 && !(taken && head.affiliation == ranked[i].affiliation) {
      var needed', used' := if taken then needed - 1 else needed, if taken then used + {head.affiliation} else used;
      assert ranked[j] != head && ranked[j] == rest[j - 1];
      GreedyTakesFirst(rest, needed', used', i - 1, j - 1);
      var k :| 0 <= k <= i - 1 && rest[k] in Greedy(rest, needed', used')
        && rest[k].affiliation == ranked[i].affiliation;
      assert ranked[k + 1] == rest[k];
    } else {
      assert ranked[0] in Greedy(ranked, needed, used);
    }
  }

  // The theorems

  /** What a routing reports: every profile is either counted as eligible or rejected, and the
      affiliations are those of the eligible ones. */
  lemma RoutingReports(item: Item, profiles: seq<Profile>, asOf: int)
    ensures var r := Route(item, profiles, asOf);
      && r.eligibleCount + |r.rejected| == |profiles|
      && (forall x :: x in r.rejected <==> exists p ::
            p in profiles && EligibilityReasons(p, item, asOf) != []
            && x == Rejection(p.expertId, EligibilityReasons(p, item, asOf)))
      && r.affiliationCount == |set p | p in profiles && EligibilityReasons(p, item, asOf) == []
                                  :: if p.affiliation.Some? then p.affiliation.value else p.expertId|
      && (r.status == Assigned <==> |r.assignees| == item.reviewsRequired)
  {
    hide EligibilityReasons, RoutingScore;
    RejectedMembers(profiles, item, asOf);
    EligibleMembers(profiles, item, asOf);
    var affiliations := set p | p in profiles && EligibilityReasons(p, item, asOf) == []
      :: if p.affiliation.Some? then p.affiliation.value else p.expertId;
    var eligible := Eligible(profiles, item, asOf);
    forall a
      ensures a in affiliations <==> a in Affiliations(eligible)
    {
      if a in affiliations {
        var p :| p in profiles && EligibilityReasons(p, item, asOf) == []
          && a == if p.affiliation.Some? then p.affiliation.value else p.expertId;
        assert Candidate(p.expertId, a, RoutingScore(p, item)) in eligible;
      }
    }
    assert affiliations == Affiliations(eligible);
  }

  /** What a routing is worth: the assigned experts are eligible and independent, there are as many
      of them as possible up to the number needed, and no independent selection of at most that many
      eligible experts has a higher total score. */
  lemma RoutingIsOptimal(item: Item, profiles: seq<Profile>, asOf: int, rival: seq<Candidate>)
    requires item.reviewsRequired >= 1
    ensures var r, eligible := Route(item, profiles, asOf), Eligible(profiles, item, asOf);
      && DrawnFrom(r.assignees, eligible) && Independent(r.assignees, {})
      && (r.status == Assigned <==> |Affiliations(eligible)| >= item.reviewsRequired)
      && |r.assignees| == (if r.status == Assigned then item.reviewsRequired else |Affiliations(eligible)|)
      && ((DrawnFrom(rival, eligible) && Independent(rival, {}) && |rival| <= item.reviewsRequired)
          ==> TotalScore(rival) <= TotalScore(r.assignees))
  {
    var eligible := Eligible(profiles, item, asOf);
    var ranked := Ranked(eligible);
    SortMembers(eligible, RankKey);
    RankedByScore(eligible);
    GreedyIsSelection(ranked, item.reviewsRequired, {});
    GreedySize(ranked, item.reviewsRequired, {});
    SameAffiliations(eligible, ranked);
    assert Affiliations(ranked) - {} == Affiliations(eligible);
    forall c | c in ranked
      ensures c.score >= 0
    {
      EligibleMembers(profiles, item, asOf);
      var p :| p in profiles && EligibilityReasons(p, item, asOf) == []
        && c == Candidate(p.expertId, if p.affiliation.Some? then p.affiliation.value else p.expertId, RoutingScore(p, item));
      EligibleScore(p, item, asOf);
    }
    if DrawnFrom(rival, eligible) && Independent(rival, {}) && |rival| <= item.reviewsRequired {
      GreedyIsOptimal(ranked, item.reviewsRequired, {}, rival);
    }
  }

  lemma SameAffiliations(a: seq<Candidate>, b: seq<Candidate>)
    requires forall c :: c in a <==> c in b
    ensures Affiliations(a) == Affiliations(b)
  {
  }

  /** When no reviews are required, ASSIGNED means that nobody is eligible. */
  lemma NoReviewsRequired(item: Item, profiles: seq<Profile>, asOf: int)
    requires item.reviewsRequired <= 0
    ensures Route(item, profiles, asOf).status == Assigned
       <==> item.reviewsRequired == 0 && Eligible(profiles, item, asOf) == []
  {
    var eligible := Eligible(profiles, item, asOf);
    var ranked := Ranked(eligible);
    GreedySize(ranked, item.reviewsRequired, {});
    SortCorrect(eligible, RankKey);
    if ranked != [] {
      assert ranked[0].affiliation in Affiliations(ranked) - {};
    }
  }

  ghost predicate UniqueExperts(profiles: seq<Profile>) {
    forall p, q :: p in profiles && q in profiles && p.expertId == q.expertId ==> p == q
  }

  lemma {:induction false} EligibleConcat(a: seq<Profile>, b: seq<Profile>, item: Item, asOf: int)
    ensures Eligible(a + b, item, asOf) == Eligible(a, item, asOf) + Eligible(b, item, asOf)
  {
    hide EligibilityReasons, RoutingScore, AffiliationOf;
    if b == [] {
      assert a + b == a;
    } else {
      var n := |b| - 1;
      EligibleConcat(a, b[..n], item, asOf);
      assert (a + b)[..|a + b| - 1] == a + b[..n];
    }
  }

  lemma {:induction false} RejectedConcat(a: seq<Profile>, b: seq<Profile>, item: Item, asOf: int)
    ensures Rejected(a + b, item, asOf) == Rejected(a, item, asOf) + Rejected(b, item, asOf)
  {
    hide EligibilityReasons;
    if b == [] {
      assert a + b == a;
    } else {
      var n := |b| - 1;
      RejectedConcat(a, b[..n], item, asOf);
      assert (a + b)[..|a + b| - 1] == a + b[..n];
    }
  }

  lemma RoutingConcat(a: seq<Profile>, b: seq<Profile>, item: Item, asOf: int)
    ensures Eligible(a + b, item, asOf) == Eligible(a, item, asOf) + Eligible(b, item, asOf)
    ensures Rejected(a + b, item, asOf) == Rejected(a, item, asOf) + Rejected(b, item, asOf)
  {
    EligibleConcat(a, b, item, asOf);
    RejectedConcat(a, b, item, asOf);
  }

  lemma SameBagsEmpty(b: seq<Profile>)
    requires multiset(b) == multiset{}
    ensures b == []
  {
    assert |multiset(b)| == |b|;
  }

  /** Eligible and rejected experts are the same bags whatever the order of the profiles. */
  lemma {:induction false} SameBags(a: seq<Profile>, b: seq<Profile>, item: Item, asOf: int)
    requires multiset(a) == multiset(b)
    ensures multiset(Eligible(a, item, asOf)) == multiset(Eligible(b, item, asOf))
    ensures multiset(Rejected(a, item, asOf)) == multiset(Rejected(b, item, asOf))
  {
    hide EligibilityReasons, RoutingScore, AffiliationOf, Eligible, Rejected;
    if a == [] {
      SameBagsEmpty(b);
    } else {
      var front, last := a[..|a| - 1], a[|a| - 1];
      var before, after := CutOut(a, b);
      assert a == front + [last];
      RoutingConcat(front, [last], item, asOf);
      RoutingConcat(before, after, item, asOf);
      RoutingConcat(before, [last], item, asOf);
      RoutingConcat(before + [last], after, item, asOf);
      SameBags(front, before + after, item, asOf);
    }
  }

  lemma RankKeysDetermine(profiles: seq<Profile>, item: Item, asOf: int)
    requires UniqueExperts(profiles)
    ensures KeysDetermine(Eligible(profiles, item, asOf), RankKey)
  {
    var eligible := Eligible(profiles, item, asOf);
    EligibleMembers(profiles, item, asOf);
    forall x, y | x in eligible && y in eligible && RankKey(x) == RankKey(y)
      ensures x == y
    {
      assert Codes(x.expertId) == RankKey(x)[1..] == RankKey(y)[1..] == Codes(y.expertId);
      CodesInjective(x.expertId, y.expertId);
    }
  }

  /** With one profile per expert, the order in which profiles are supplied decides nothing but the
      order in which the rejections are reported. */
  lemma ProfileOrderIsIrrelevant(item: Item, a: seq<Profile>, b: seq<Profile>, asOf: int)
    requires multiset(a) == multiset(b) && UniqueExperts(a)
    ensures var ra, rb := Route(item, a, asOf), Route(item, b, asOf);
      && ra == rb.(rejected := ra.rejected)
      && multiset(ra.rejected) == multiset(rb.rejected)
  {
    var ea, eb := Eligible(a, item, asOf), Eligible(b, item, asOf);
    SameBags(a, b, item, asOf);
    RankKeysDetermine(a, item, asOf);
    SortPermutationInvariant(ea, eb, RankKey);
    assert |multiset(ea)| == |multiset(eb)|;
    forall c
      ensures c in ea <==> c in eb
    {
      assert c in multiset(ea) <==> c in multiset(eb);
    }
    SameAffiliations(ea, eb);
  }
}
