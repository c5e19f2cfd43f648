/** One step of both engines on the nested dictionary itself: any target text and any value, well
    typed or not. Says exactly when the two steps agree, and that the typed steps are these. */
module DictionaryStep {
  import Ordering
  import opened Sorting
  import opened Paths
  import EventNet
  import opened StateTree
  import opened StateCodec
  import Transition

  // Two writes of one value

  lemma {:induction false} LookupConcat(t: Tree, a: Path, b: Path)
    ensures Lookup(t, a + b) == match Lookup(t, a) case Raised => Raised case Written(u) => Lookup(u, b)
    decreases |a|
  {
    if a == [] {
      assert a + b == b;
    } else {
      assert (a + b)[1..] == a[1..] + b;
      if t.Dict? && a[0] in t.fields {
        LookupConcat(t.fields[a[0]], a[1..], b);
      }
    }
  }

  /** No value holds itself. */
  lemma {:induction false} NoValueHoldsItself(v: Tree, r: Path)
    requires r != []
    ensures Lookup(v, r) != Written(v)
    decreases v
  {
    if Lookup(v, r) == Written(v) {
      var w := v.fields[r[0]];
      LookupConcat(w, r[1..], [r[0]]);
      assert Lookup(w, []) == Written(w);
      NoValueHoldsItself(w, r[1..] + [r[0]]);
    }
  }

  lemma NestedPathsHoldApart(u: Tree, p: Path, q: Path, v: Tree)
    requires p <= q && p != q && Lookup(u, p) == Written(v)
    ensures Lookup(u, q) != Written(v)
  {
    var r := q[|p|..];
    assert q == p + r;
    LookupConcat(u, p, r);
    NoValueHoldsItself(v, r);
  }

  /** Writing what is already there changes nothing. */
  lemma {:induction false} RewriteIsIdentity(t: Tree, p: Path, v: Tree)
    requires Lookup(t, p) == Written(v) && p != []
    ensures SetPath(t, p, v) == Written(t)
    decreases |p|
  {
    if |p| == 1 {
      assert Lookup(t.fields[p[0]], p[1..]) == Written(t.fields[p[0]]);
      assert t.fields[p[0] := v] == t.fields;
    } else {
      RewriteIsIdentity(t.fields[p[0]], p[1..], v);
      assert t.fields[p[0] := t.fields[p[0]]] == t.fields;
    }
  }

  /** Writing a value along two paths has the same effect exactly when the paths are the same or the
      value is at both already. */
  lemma WritesAgreeIff(t: Tree, p: Path, q: Path, v: Tree)
    requires p != [] && q != [] && SetPath(t, q, v).Written?
    ensures SetPath(t, p, v) == SetPath(t, q, v) <==> p == q || Lookup(t, p) == Written(v) == Lookup(t, q)
  {
    if Lookup(t, p) == Written(v) == Lookup(t, q) {
      RewriteIsIdentity(t, p, v);
      RewriteIsIdentity(t, q, v);
    } else if SetPath(t, p, v) == SetPath(t, q, v) && p != q {
      var u := SetPath(t, q, v).tree;
      SetPathLookup(t, p, v, q);
      SetPathLookup(t, q, v, p);
      if p <= q {
        NestedPathsHoldApart(u, p, q, v);
      } else if q <= p {
        NestedPathsHoldApart(u, q, p, v);
      }
    }
  }

  // The steps

  /** int(value), where it does not raise; numbers and texts are converted alike by both engines. */
  type ToInt = Tree -> EventNet.Option<int>

  /** What a Python set can hold. */
  predicate Hashable(v: Tree) {
    !v.Items? && !v.Dict?
  }

  function WriteApprovals(s: EventNet.State, approvals: seq<Tree>): Outcome {
    SetPath(Encode(s), [Key(WorkflowSection), "approvals"], Items(approvals))
  }

  function Words(items: seq<string>): (r: seq<Tree>)
    ensures |r| == |items| && Items(r) == Texts(items)
  {
    seq(|items|, i requires 0 <= i < |items| => Word(items[i]))
  }

  function WriteReservation(s: EventNet.State, delta: EventNet.Option<int>): Outcome {
    match delta
    case None => Raised
    case Some(n) =>
      SetPath(Encode(s), [Key(ResourcesSection), "reserved"], Number(Transition.Reserve(s.resources.reserved, n)))
  }

  function WriteAppeal(s: EventNet.State, open: bool): Outcome {
    match SetPath(Encode(s), [Key(WorkflowSection), "appeal_open"], Flag(open))
    case Raised => Raised
    case Written(t) => SetPath(t, [Key(WorkflowSection), "appeal_resolved"], Flag(!open))
  }

  /** Engine A. Sorting a list of texts and one other value raises; a list of one value is sorted. */
  function StepA(s: EventNet.State, op: EventNet.Op, target: string, v: Tree, toInt: ToInt): Outcome {
    var approvals := s.workflow.approvals;
    match op
    case Set(_) => SetDotted(Encode(s), target, v)
    case AddApproval =>
      if v.Word? then WriteApprovals(s, Words(Sort(Transition.Appended(approvals, v.s), Ordering.Codes)))
      else if approvals == [] then WriteApprovals(s, [v])
      else Raised
    case RemoveApproval => WriteApprovals(s, Words(if v.Word? then Transition.Without(approvals, v.s) else approvals))
    case AdjustReservation => WriteReservation(s, toInt(v))
    case OpenAppeal => WriteAppeal(s, true)
    case ResolveAppeal => WriteAppeal(s, false)
    case Noop => Written(Encode(s))
    case Unrecognized(_) => Raised
  }

  /** Engine B. A set refuses lists and dictionaries, and sorting mixed values raises. */
  function StepB(s: EventNet.State, op: EventNet.Op, v: Tree, toInt: ToInt): Outcome {
    var approvals := Elements(s.workflow.approvals);
    match op
    case Set(f) => TableWrite(Encode(s), DirectPath(f), v)
    case AddApproval =>
      if v.Word? then WriteApprovals(s, Words(Transition.SortedElements(approvals + {v.s})))
      else if !Hashable(v) then Raised
      else if approvals == {} then WriteApprovals(s, [v])
      else Raised
    case RemoveApproval =>
      if !Hashable(v) then Raised
      else WriteApprovals(s, Words(Transition.SortedElements(approvals - (if v.Word? then {v.s} else {}))))
    case AdjustReservation => WriteReservation(s, toInt(v))
    case OpenAppeal | ResolveAppeal => WriteAppeal(s, !op.ResolveAppeal?)
    case Noop => Written(Encode(s))
    case Unrecognized(_) => Raised
  }

  /** What a caller can check before the step. */
  ghost predicate Guard(s: EventNet.State, op: EventNet.Op, target: string, v: Tree) {
    var approvals := s.workflow.approvals;
    match op
    case Set(f) =>
      Split(target) == PathOf(f) || Lookup(Encode(s), Split(target)) == Written(v) == Lookup(Encode(s), PathOf(f))
    case AddApproval => if v.Word? then NoDuplicates(approvals) else approvals == [] ==> Hashable(v)
    case RemoveApproval =>
      if v.Word? then StrictlySortedBy(Transition.Without(approvals, v.s), Ordering.Codes)
      else Hashable(v) && Transition.CanonicalApprovals(s)
    case _ => true
  }

  // Agreement

  lemma TableWriteSucceeds(s: EventNet.State, f: EventNet.Field, v: Tree)
    ensures TableWrite(Encode(s), DirectPath(f), v).Written?
    ensures TableWrite(Encode(s), DirectPath(f), v) == SetPath(Encode(s), PathOf(f), v)
  {
    hide Encode, PathOf, EventNet.Write;
    SectionLookup(s, SectionOf(f));
    SectionOfPath(f);
    PathsDotFree(f);
    TableWriteIsSetPath(Encode(s), f, v);
    FieldSections(s, f);
  }

  /** Every field but the conflict flag lives in a section that is a dictionary. */
  lemma FieldSections(s: EventNet.State, f: EventNet.Field)
    ensures if f.Conflict? then |PathOf(f)| == 1 else |PathOf(f)| == 2 && Section(s, SectionOf(f)).Dict?
  {
  }

  lemma SetStepsAgreeIff(s: EventNet.State, f: EventNet.Field, target: string, v: Tree)
    ensures SetDotted(Encode(s), target, v) == TableWrite(Encode(s), DirectPath(f), v)
       <==> (Split(target) == PathOf(f)
             || Lookup(Encode(s), Split(target)) == Written(v) == Lookup(Encode(s), PathOf(f)))
  {
    hide Encode, TableWrite, DirectPath;
    TableWriteSucceeds(s, f, v);
    WritesAgreeIff(Encode(s), Split(target), PathOf(f), v);
  }

  lemma WordsFaithful(a: seq<string>, b: seq<string>)
    ensures Words(a) == Words(b) <==> a == b
  {
    if Words(a) == Words(b) {
      TextsFaithful(a, b);
    }
  }

  /** Writing the approvals never raises, and different lists give different dictionaries. */
  lemma ApprovalWritesFaithful(s: EventNet.State, a: seq<Tree>, b: seq<Tree>)
    ensures WriteApprovals(s, a).Written?
    ensures WriteApprovals(s, a) == WriteApprovals(s, b) <==> a == b
  {
    hide Encode;
    var path := [Key(WorkflowSection), "approvals"];
    WorkflowIsDictionary(s);
    SetPathInSection(s, WorkflowSection, "approvals", Items(a));
    SetPathInSection(s, WorkflowSection, "approvals", Items(b));
    SetPathLookup(Encode(s), path, Items(a), path);
    SetPathLookup(Encode(s), path, Items(b), path);
  }

  lemma WorkflowIsDictionary(s: EventNet.State)
    ensures Section(s, WorkflowSection).Dict?
  {
  }

  lemma AddStepsAgreeIff(s: EventNet.State, v: Tree, toInt: ToInt)
    ensures StepA(s, EventNet.AddApproval, "", v, toInt) == StepB(s, EventNet.AddApproval, v, toInt)
       <==> Guard(s, EventNet.AddApproval, "", v)
  {
    hide Encode, WriteApprovals;
    var items := s.workflow.approvals;
    assert Elements(items) == {} <==> items == [] by {
      assert items != [] ==> items[0] in Elements(items);
    }
    if v.Word? {
      var a, b := Sort(Transition.Appended(items, v.s), Ordering.Codes), Transition.SortedElements(Elements(items) + {v.s});
      ApprovalWritesFaithful(s, Words(a), Words(b));
      WordsFaithful(a, b);
      Transition.AddAgreesIff(items, v.s);
    } else {
      ApprovalWritesFaithful(s, [v], [v]);
    }
  }

  lemma RemoveStepsAgreeIff(s: EventNet.State, v: Tree, toInt: ToInt)
    ensures StepA(s, EventNet.RemoveApproval, "", v, toInt) == StepB(s, EventNet.RemoveApproval, v, toInt)
       <==> Guard(s, EventNet.RemoveApproval, "", v)
  {
    hide Encode, WriteApprovals;
    var items := s.workflow.approvals;
    var a := if v.Word? then Transition.Without(items, v.s) else items;
    var b := Transition.SortedElements(Elements(items) - (if v.Word? then {v.s} else {}));
    ApprovalWritesFaithful(s, Words(a), Words(b));
    WordsFaithful(a, b);
    if v.Word? {
      Transition.RemoveAgreesIff(items, v.s);
    } else {
      assert Elements(items) - {} == Elements(items);
      Transition.KeepAgreesIff(items);
    }
  }

  /** For every state, operation, target text and value, the two steps give the same dictionary, or
      both raise, exactly under the guard. */
  lemma StepsAgreeIff(s: EventNet.State, op: EventNet.Op, target: string, v: Tree, toInt: ToInt)
    ensures StepA(s, op, target, v, toInt) == StepB(s, op, v, toInt) <==> Guard(s, op, target, v)
  {
    hide Encode;
    match op
    case Set(f) => SetStepsAgreeIff(s, f, target, v);
    case AddApproval => AddStepsAgreeIff(s, v, toInt);
    case RemoveApproval => RemoveStepsAgreeIff(s, v, toInt);
    case _ =>
  }

  // The typed steps

  lemma TextOfValue(v: EventNet.Value)
    ensures EncodeValue(v).Word? <==> EventNet.AsText(v).Some?
    ensures EncodeValue(v).Word? ==> EncodeValue(v).s == EventNet.AsText(v).value
    ensures Hashable(EncodeValue(v))
  {
  }

  ghost predicate ConvertsNumbers(toInt: ToInt) {
    forall n :: toInt(Number(n)) == EventNet.Some(n)
  }

  lemma ApprovalsWritten(s: EventNet.State, approvals: seq<string>)
    ensures WriteApprovals(s, Words(approvals)) == Written(Encode(Transition.WithApprovals(s, approvals)))
  {
    hide Encode;
    ApprovalsWrite(s, approvals);
  }

  lemma ReservationWritten(s: EventNet.State, n: int)
    ensures WriteReservation(s, EventNet.Some(n)) == Written(Encode(Transition.Adjust(s, EventNet.Int(n)).value))
  {
    hide Encode;
    ReservationWrite(s, Transition.Reserve(s.resources.reserved, n));
  }

  lemma AppealWritten(s: EventNet.State, open: bool)
    ensures WriteAppeal(s, open) == Written(Encode(Transition.WithAppeal(s, open)))
  {
    hide Encode;
    AppealWrites(s, open);
  }

  lemma FieldWritten(s: EventNet.State, f: EventNet.Field, v: EventNet.Value)
    requires EventNet.Fits(f, v)
    ensures SetDotted(Encode(s), TargetText(EventNet.FieldTarget(f)), EncodeValue(v)) == Written(Encode(EventNet.Write(s, f, v)))
    ensures TableWrite(Encode(s), DirectPath(f), EncodeValue(v)) == Written(Encode(EventNet.Write(s, f, v)))
  {
    hide Encode, EncodeValue, EventNet.Write, TableWrite, DirectPath;
    PathsDotFree(f);
    SplitJoin(PathOf(f));
    SetPathIsWrite(s, f, v);
    TableWriteSucceeds(s, f, EncodeValue(v));
  }

  /** Where the typed engine A goes through, it does what the dictionary engine A does. */
  lemma TypedStepA(s: EventNet.State, e: EventNet.Event, toInt: ToInt)
    requires ConvertsNumbers(toInt) && Transition.TransitionA(s, e).Ok?
    ensures StepA(s, e.op, TargetText(e.target), EncodeValue(e.value), toInt)
         == Written(Encode(Transition.TransitionA(s, e).value))
  {
    hide Encode, WriteApprovals, WriteReservation, WriteAppeal, EventNet.Write, TargetText, SetDotted;
    TextOfValue(e.value);
    match e.op
    case Set(_) => FieldWritten(s, EventNet.FieldAt(e.target).value, e.value);
    case AddApproval => ApprovalsWritten(s, Transition.TransitionA(s, e).value.workflow.approvals);
    case RemoveApproval => ApprovalsWritten(s, Transition.TransitionA(s, e).value.workflow.approvals);
    case AdjustReservation => ReservationWritten(s, e.value.n);
    case OpenAppeal => AppealWritten(s, true);
    case ResolveAppeal => AppealWritten(s, false);
    case Noop =>
  }

  /** And so does the typed engine B. */
  lemma TypedStepB(s: EventNet.State, e: EventNet.Event, toInt: ToInt)
    requires ConvertsNumbers(toInt) && Transition.TransitionB(s, e).Ok?
    ensures StepB(s, e.op, EncodeValue(e.value), toInt) == Written(Encode(Transition.TransitionB(s, e).value))
  {
    hide Encode, WriteApprovals, WriteReservation, WriteAppeal, EventNet.Write, TableWrite, DirectPath;
    TextOfValue(e.value);
    match e.op
    case Set(f) => FieldWritten(s, f, e.value);
    case AddApproval => ApprovalsWritten(s, Transition.TransitionB(s, e).value.workflow.approvals);
    case RemoveApproval => ApprovalsWritten(s, Transition.TransitionB(s, e).value.workflow.approvals);
    case AdjustReservation => ReservationWritten(s, e.value.n);
    case OpenAppeal => AppealWritten(s, true);
    case ResolveAppeal => AppealWritten(s, false);
    case Noop =>
  }

  // Inputs on which the steps differ, and one on which a misdirected write is harmless

  /** A misdirected value that fits neither field. */
  lemma MisdirectedNullDiffers(s: EventNet.State, toInt: ToInt)
    ensures StepA(s, EventNet.Set(EventNet.Conflict), "policy.allows", Tree.None, toInt)
         != StepB(s, EventNet.Set(EventNet.Conflict), Tree.None, toInt)
  {
    hide Encode, TableWrite, DirectPath, SetDotted, SetPath, Lookup, Split, PathOf;
    SetStepsAgreeIff(s, EventNet.Conflict, "policy.allows", Tree.None);
    ConflictIsFlag(s);
    SplitTwo("policy", "allows", "policy.allows");
    assert |["policy", "allows"]| != |["conflict"]|;
  }

  /** Removing what is no text leaves an unsorted list in engine A only. */
  lemma RemovedNullDiffers(s: EventNet.State, toInt: ToInt)
    requires s.workflow.approvals == ["b", "a"]
    ensures StepA(s, EventNet.RemoveApproval, "workflow.approvals", Tree.None, toInt)
         != StepB(s, EventNet.RemoveApproval, Tree.None, toInt)
  {
    hide Encode, StepA, StepB;
    StepsAgreeIff(s, EventNet.RemoveApproval, "workflow.approvals", Tree.None, toInt);
    var items := s.workflow.approvals;
    assert Ordering.Codes(items[0])[0] == 'b' as int && Ordering.Codes(items[1])[0] == 'a' as int;
    assert !Ordering.Less(Ordering.Codes(items[0]), Ordering.Codes(items[1]));
  }

  /** A misdirected write is harmless when both cells hold its value already. */
  lemma MisdirectedWriteCanBeHarmless(s: EventNet.State, toInt: ToInt)
    requires s.budget.encumbered == s.budget.required
    ensures var v := Number(s.budget.required);
      StepA(s, EventNet.Set(EventNet.BudgetEncumbered), "budget.required", v, toInt)
      == StepB(s, EventNet.Set(EventNet.BudgetEncumbered), v, toInt)
  {
    hide Encode, TableWrite, DirectPath, SetDotted, SetPath, Lookup, Split, PathOf;
    var v := Number(s.budget.required);
    SetStepsAgreeIff(s, EventNet.BudgetEncumbered, "budget.required", v);
    SplitTwo("budget", "required", "budget.required");
    BudgetCells(s);
  }

  lemma SplitTwo(parent: string, key: string, path: string)
    requires DotFree(parent) && DotFree(key) && path == parent + "." + key
    ensures Split(path) == [parent, key]
  {
    assert [parent, key][1..] == [key];
    SplitJoin([parent, key]);
  }

  lemma BudgetCells(s: EventNet.State)
    ensures Lookup(Encode(s), ["budget", "required"]) == Written(Number(s.budget.required))
    ensures Lookup(Encode(s), PathOf(EventNet.BudgetEncumbered)) == Written(Number(s.budget.encumbered))
  {
    hide Encode;
    SectionLookup(s, BudgetSection);
    assert ["budget", "required"][1..] == ["required"] && ["required"][1..] == [];
    assert ["budget", "encumbered"][1..] == ["encumbered"] && ["encumbered"][1..] == [];
  }

  lemma ConflictIsFlag(s: EventNet.State)
    ensures Lookup(Encode(s), PathOf(EventNet.Conflict)) == Written(Flag(s.conflict))
    ensures PathOf(EventNet.Conflict) == ["conflict"]
  {
    hide Encode;
    SectionLookup(s, ConflictFlag);
    assert ["conflict"][1..] == [];
  }

  /** A list or a dictionary among the approvals: engine B refuses it, while engine A removes it without
      complaint and adds it to an empty list. Any other value that is no text is removed by both. */
  lemma UnhashableApprovals(s: EventNet.State, target: string, v: Tree, toInt: ToInt)
    requires !v.Word?
    ensures StepA(s, EventNet.RemoveApproval, target, v, toInt).Written?
    ensures StepB(s, EventNet.RemoveApproval, v, toInt).Written? <==> v.None? || v.Flag? || v.Number?
    ensures StepA(s, EventNet.AddApproval, target, v, toInt).Written? <==> s.workflow.approvals == []
    ensures StepB(s, EventNet.AddApproval, v, toInt).Written?
       <==> s.workflow.approvals == [] && (v.None? || v.Flag? || v.Number?)
  {
    hide Encode, Section;
    ApprovalsAreWritable(s, Words(s.workflow.approvals));
    ApprovalsAreWritable(s, [v]);
    ApprovalsAreWritable(s, Words(Transition.SortedElements(Elements(s.workflow.approvals) - {})));
    assert s.workflow.approvals != [] ==> s.workflow.approvals[0] in Elements(s.workflow.approvals);
  }

  lemma ApprovalsAreWritable(s: EventNet.State, items: seq<Tree>)
    ensures WriteApprovals(s, items).Written?
  {
    SectionLookup(s, WorkflowSection);
  }
}
