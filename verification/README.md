# Verified model of the EventNet engine and its surroundings

This project models, in Dafny 4.11, the parts of the repository whose behaviour is decided by state
and order, and proves what the repository promises about them. `dafny verify dfyconfig.toml` checks
everything.

## What is modelled

**The EventNet reference engine** (`Ordering`, `EventNet`, `Scheduling`, `Transition`, `StateRecord`,
`DictionaryStep`, `Evaluation`, `Engine`). An unordered queue of events is scheduled by time, priority, sequence and
identifier; events up to the decision clock are executed, later ones deferred; after every step a
ladder of seventeen gates decides. The repository writes the engine twice and raises an error should
the two ever differ. Both are modelled as written: a sort and a binary heap, a transition that follows
the event's target and one that follows its own table, a conditional chain and a factor table. The
main result, `Engine.EnginesAgree`, is that they cannot differ on well-targeted events and canonical
approvals. `Engine.RunsAgreeIff` says exactly when whole runs agree, and `DictionaryStep.StepsAgreeIff`
exactly when one step does, on the dictionary itself and for any target and any value.

**What a run leaves behind** (`ClosedForm`, `Compaction`, `Predecessor`). The final state and
the certificate are read off the executed events without replaying them. The optimiser that merges adjacent reservation deltas does
not always preserve meaning, because the reservation is clamped at zero:
`Compaction.CompactionCanChangeTheVerdict` gives a state and a queue on which it turns an abstention
into ALLOW, `Compaction.MergeExactIff` and `Compaction.CompactionExactIff` say exactly when a group and
a whole run are reproduced, and
`Compaction.CompactionNeverOverReserves` says what remains true otherwise. The nine-gate engine of the
earlier version is modelled once (its first implementation) to show that the current one extends it
conservatively.

**Dictionaries and differences** (`Paths`, `StateTree`, `StateCodec`, `StateSchema`). The typed state is related to
the nested dictionary the repository stores: dotted writes, table writes and the structural difference
`changed_fields`. Writing the recorded changes back works exactly when no key disappears; a key that
does disappear is recorded with an after-value of None and would be written as such.

**The counterfactual generators** (`Generators`, `GeneratedCases`, `Counterfactuals`, `GeneratedCompaction`).
For all twenty mechanisms and every index, identifier choice, deferred suffix and timing profile, the two
runs of a pair do what the class of the pair claims and end in the states they are about, and the
optimiser keeps the meaning of both queues.

**Receipts and selection** (`QueueIntegrity`, `BalancedSelection`), **expert routing** (`Rounding`,
`ExpertRouter`: a greedy choice under one expert per affiliation, proved optimal by exchange),
**weight normalisation** (`Weights`, in millionths, in place) and **the review desk of the command
center** (`ReviewDesk` for the state machine with its racing timers, `DeskEffects` for what each action
shows, `CommandCenter` for the component whose handlers assign its state cells).

## Conventions

- A key is a sequence of integers compared lexicographically; strings enter by their code points.
- `WellTargeted` says that a SET event carries the canonical target of its field, which is what every
  generator emits. Engine A trusts the target and engine B does not.
- `KeysDetermine` says that two events with the same four-part key are the same event. Without it the
  heap of the repository would go on to compare dictionaries.
- A state digest is represented by the state itself: equal states stand for equal digests.
- Hash-derived identifiers and hash-derived choices (how many late events, which timing profile) are
  parameters that range over every value.
- A review carries the timer that its own submission started, so that it can be said whose timer records
  it; the component keeps no such field and no handler of the model reads it.
- Errors the repository raises are values of `EventNet.Error`, or of a result type of their own module.

## Where the code differs from what is said about it

- The optimiser's description speaks of combining commutative deltas; clamped deltas of mixed sign do
  not commute, see `Compaction.CompactionCanChangeTheVerdict`.
- When an item requires no review, the router assigns every affiliation and reports insufficient
  experts, unless nobody is eligible, see `ExpertRouter.NoReviewsRequired`.
- A submission overwrites the remembered timer without clearing it, and a timer records whatever review
  of its incident is pending, see `ReviewDesk.ForgottenTimerRecordsEarly`. A review can be recorded by a
  timer that is not its own exactly after a submission for an incident whose earlier timer still runs,
  see `ReviewDesk.PoachingIsCausedExactly`. The binding invariant holds all the same.

## Model

| member | source | states |
|---|---|---|
| EventNet.EventKeyOrder | experiments/ACTIONNET-DATA-QUAL-008/actionnet_multidomain.py:693 | events are compared by time, then priority, then sequence, then identifier, as the sort key tuple is |
| Sorting.SortCorrect | experiments/ACTIONNET-DATA-QUAL-008/actionnet_multidomain.py:692-693 | the schedule is sorted by key and is a permutation of what was submitted |
| Sorting.SortStable | experiments/ACTIONNET-DATA-QUAL-008/actionnet_multidomain.py:692-693 | events with the same key keep their submitted order |
| Sorting.SortedPermutationUnique | experiments/ACTIONNET-DATA-QUAL-008/actionnet_multidomain.py:692-703 | when keys tell items apart there is exactly one sorted arrangement of them |
| Sorting.SortPermutationInvariant | experiments/ACTIONNET-DATA-QUAL-008/actionnet_multidomain.py:692-693 | the submission order does not influence the schedule |
| Scheduling.EventHeap.Push | experiments/ACTIONNET-DATA-QUAL-008/actionnet_multidomain.py:697-699 | pushing keeps the array a heap and adds exactly the pushed event |
| Scheduling.EventHeap.Pop | experiments/ACTIONNET-DATA-QUAL-008/actionnet_multidomain.py:701-702 | popping removes an event with a least key and keeps the array a heap |
| Scheduling.EventHeap.SiftDown | experiments/ACTIONNET-DATA-QUAL-008/actionnet_multidomain.py:701-702 | a root that is too late sinks until the heap order is restored, nothing being lost |
| Scheduling.SinkOnce | experiments/ACTIONNET-DATA-QUAL-008/actionnet_multidomain.py:701-702 | one exchange with the smaller child leaves only that child's subtree in question |
| Scheduling.ScheduleB | experiments/ACTIONNET-DATA-QUAL-008/actionnet_multidomain.py:696-703 | draining the heap yields a sorted permutation, which is the list the sort yields |
| Scheduling.ScheduleIsUnique | experiments/ACTIONNET-DATA-QUAL-008/actionnet_multidomain.py:692-703 | whatever sorts a queue by key produces the canonical order |
| Scheduling.UniqueIdsDetermine | experiments/ACTIONNET-DATA-QUAL-008/actionnet_multidomain.py:692-703 | unique identifiers are enough for keys to tell events apart |
| EventNet.WriteRead | experiments/ACTIONNET-DATA-QUAL-008/actionnet_multidomain.py:454-459 | a written field is read back and no other of the nineteen fields changes |
| StateRecord.Record.SetCell | experiments/ACTIONNET-DATA-QUAL-008/actionnet_multidomain.py:454-459 | in place, one cell of the record is overwritten and every other cell stays |
| StateRecord.ApplyA | experiments/ACTIONNET-DATA-QUAL-008/actionnet_multidomain.py:462-504 | engine A on a fresh copy of the record, for values that fit their field: follows the event's own target, keeps approvals as a list, reports unknown operations; the original record is untouched |
| StateRecord.ApplyB | experiments/ACTIONNET-DATA-QUAL-008/actionnet_multidomain.py:507-552 | engine B on a fresh copy, for values that fit their field: follows its own table, rebuilds approvals from a set |
| Transition.SortedElementsCorrect | experiments/ACTIONNET-DATA-QUAL-008/actionnet_multidomain.py:538-543 | sorting a set lists each element once, strictly ascending |
| Transition.AddAgreesIff | experiments/ACTIONNET-DATA-QUAL-008/actionnet_multidomain.py:488-492 | list append-and-sort equals set insertion exactly when the list has no duplicates |
| Transition.RemoveAgreesIff | experiments/ACTIONNET-DATA-QUAL-008/actionnet_multidomain.py:493-494 | unsorted removal from the list equals set removal exactly when what remains is strictly sorted |
| Transition.KeepAgreesIff | experiments/ACTIONNET-DATA-QUAL-008/actionnet_multidomain.py:493-494 | removing what is no text leaves the list alone but sorts the set: the same exactly when the list is strictly sorted |
| Transition.TransitionsAgreeIff | experiments/ACTIONNET-DATA-QUAL-008/actionnet_multidomain.py:462-552 | for typed states and typed events whose target names a field, the two typed steps agree exactly under a guard a caller can evaluate beforehand |
| DictionaryStep.WritesAgreeIff | experiments/ACTIONNET-DATA-QUAL-008/actionnet_multidomain.py:454-459 | writing a value along two paths has the same effect exactly when the paths are equal or both already hold the value |
| DictionaryStep.SetStepsAgreeIff | experiments/ACTIONNET-DATA-QUAL-008/actionnet_multidomain.py:487-536 | for every state, field, target text and value, well typed or not, the dotted write equals the table write exactly when the target splits into the field's path, or the value is at both places already |
| DictionaryStep.StepsAgreeIff | experiments/ACTIONNET-DATA-QUAL-008/actionnet_multidomain.py:462-552 | for every state, operation, target text and value, the two dictionary steps give the same dictionary or both raise exactly under a guard a caller can evaluate beforehand |
| DictionaryStep.TypedStepA | experiments/ACTIONNET-DATA-QUAL-008/actionnet_multidomain.py:462-504 | where the typed engine A goes through, it does what the dictionary engine A does |
| DictionaryStep.TypedStepB | experiments/ACTIONNET-DATA-QUAL-008/actionnet_multidomain.py:507-552 | where the typed engine B goes through, it does what the dictionary engine B does |
| DictionaryStep.MisdirectedNullDiffers | experiments/ACTIONNET-DATA-QUAL-008/actionnet_multidomain.py:487-534 | SET_CONFLICT aimed at policy.allows with None makes the steps differ |
| DictionaryStep.RemovedNullDiffers | experiments/ACTIONNET-DATA-QUAL-008/actionnet_multidomain.py:493-543 | removing None from an unsorted list makes the steps differ |
| DictionaryStep.UnhashableApprovals | experiments/ACTIONNET-DATA-QUAL-008/actionnet_multidomain.py:488-543 | a list or a dictionary among the approvals makes engine B raise, while engine A removes it and adds it to an empty list; any other value that is no text is removed by both |
| DictionaryStep.MisdirectedWriteCanBeHarmless | experiments/ACTIONNET-DATA-QUAL-008/actionnet_multidomain.py:487-536 | a misdirected write of a value that both places hold is harmless, even outside the nineteen fields |
| Transition.TransitionsAgree | experiments/ACTIONNET-DATA-QUAL-008/actionnet_multidomain.py:462-552 | a well-targeted event on canonical approvals is taken alike and leaves approvals canonical |
| Transition.ApprovalsStayCanonical | experiments/ACTIONNET-DATA-QUAL-008/actionnet_multidomain.py:488-494 | no event of any target or value spoils sorted duplicate-free approvals in engine A |
| Transition.AgreementCanFail | experiments/ACTIONNET-DATA-QUAL-008/actionnet_multidomain.py:487-494 | a misdirected SET event, and a removal from an unsorted list, do make the engines differ |
| Transition.TransitionAKeepsFrame | experiments/ACTIONNET-DATA-QUAL-008/actionnet_multidomain.py:462-504 | no operation writes outside the mutable cells; the decision clock cannot move |
| Paths.SplitJoin | experiments/ACTIONNET-DATA-QUAL-008/actionnet_multidomain.py:455 | splitting a dotted path gives back its dot-free parts |
| Paths.JoinSplit | experiments/ACTIONNET-DATA-QUAL-008/actionnet_multidomain.py:455 | the parts of a dotted path joined again are that path |
| Paths.JoinInjective | experiments/ACTIONNET-DATA-QUAL-008/actionnet_multidomain.py:455 | two lists of dot-free parts with the same dotted path are the same list |
| StateTree.SetPathLookup | experiments/ACTIONNET-DATA-QUAL-008/actionnet_multidomain.py:454-459 | a dotted write is read back at its path and disturbs no path beside it |
| StateTree.SetPathSucceedsIff | experiments/ACTIONNET-DATA-QUAL-008/actionnet_multidomain.py:454-459 | a dotted write goes through exactly when every parent on its path is there and is a dictionary |
| StateCodec.FieldTextsDistinct | experiments/ACTIONNET-DATA-QUAL-008/actionnet_multidomain.py:510-530 | no two fields share a dotted target |
| StateCodec.SetPathIsWrite | experiments/ACTIONNET-DATA-QUAL-008/actionnet_multidomain.py:454-459 | writing the nested dictionary at a field's path is the typed write of that field |
| StateCodec.TableWriteIsSetPath | experiments/ACTIONNET-DATA-QUAL-008/actionnet_multidomain.py:531-536 | engine B's parent-and-key assignment is the same dictionary write |
| StateCodec.SetStepsAgreeWithDictionary | experiments/ACTIONNET-DATA-QUAL-008/actionnet_multidomain.py:487-536 | for a well-targeted SET event both dictionary writes produce the encoding of the typed step |
| StateCodec.ApprovalsWrite | experiments/ACTIONNET-DATA-QUAL-008/actionnet_multidomain.py:488-494 | assigning the approvals list in the dictionary is the typed update |
| StateCodec.ReservationWrite | experiments/ACTIONNET-DATA-QUAL-008/actionnet_multidomain.py:495-496 | assigning the reservation in the dictionary is the typed update |
| StateCodec.AppealWrites | experiments/ACTIONNET-DATA-QUAL-008/actionnet_multidomain.py:497-502 | the two appeal assignments in the dictionary are the typed update |
| StateCodec.EncodeInjective | experiments/ACTIONNET-DATA-QUAL-008/actionnet_multidomain.py:90-96 | the dictionary of a state determines the state, so comparing dictionaries compares states |
| StateSchema.TargetsNameTheirCells | experiments/ACTIONNET-DATA-QUAL-008/actionnet_multidomain.py:229-420 | where an approval, reservation or appeal event says that it writes, there is the cell it writes |
| StateSchema.RequestSchema | experiments/ACTIONNET-DATA-QUAL-008/actionnet_multidomain.py:140-148 | the dictionary holds every value of the request section under the repository's names |
| StateSchema.ActorsSchema | experiments/ACTIONNET-DATA-QUAL-008/actionnet_multidomain.py:149-154 | the dictionary holds every value of the actors section under the repository's names |
| StateSchema.AuthoritySchema | experiments/ACTIONNET-DATA-QUAL-008/actionnet_multidomain.py:155-162 | the dictionary holds every value of the authority section under the repository's names |
| StateSchema.EvidenceSchema | experiments/ACTIONNET-DATA-QUAL-008/actionnet_multidomain.py:163-168 | the dictionary holds every value of the evidence section under the repository's names |
| StateSchema.WorkflowSchema | experiments/ACTIONNET-DATA-QUAL-008/actionnet_multidomain.py:169-175 | the dictionary holds every value of the workflow section under the repository's names |
| StateSchema.DomainContextSchema | experiments/ACTIONNET-DATA-QUAL-008/actionnet_multidomain.py:194-201 | the dictionary holds every value of the domain context section under the repository's names |
| Evaluation.ScanTable | experiments/ACTIONNET-DATA-QUAL-008/actionnet_multidomain.py:673-677 | the loop over the factor table with its early exit returns the first row that hits |
| Evaluation.FirstHitMeaning | experiments/ACTIONNET-DATA-QUAL-008/actionnet_multidomain.py:673-677 | the verdict is that of row i exactly when row i hits and no earlier row does; without a hit it is ALLOW |
| Evaluation.ChainFollowsTable | experiments/ACTIONNET-DATA-QUAL-008/actionnet_multidomain.py:571-609 | the conditional chain decides by the first of the seventeen rows that hits |
| Evaluation.EvaluatorsAgree | experiments/ACTIONNET-DATA-QUAL-008/actionnet_multidomain.py:555-689 | chain and table give the same certificate for every state |
| Evaluation.AllowMeansEveryGatePasses | experiments/ACTIONNET-DATA-QUAL-008/actionnet_multidomain.py:571-620 | ALLOW if and only if all seventeen gates pass, if and only if no condition is reported |
| Evaluation.FailureIsMostUrgent | experiments/ACTIONNET-DATA-QUAL-008/actionnet_multidomain.py:571-609 | the reported failure is a failing gate with no failing gate before it in priority |
| Evaluation.AllowIff | experiments/ACTIONNET-DATA-QUAL-008/actionnet_multidomain.py:571-609 | ALLOW said in the fields of the state, without naming a gate |
| Evaluation.GateDecides | experiments/ACTIONNET-DATA-QUAL-008/actionnet_multidomain.py:571-609 | a gate is the one reported exactly when it is at fault, judged by itself, and no more urgent gate is |
| Evaluation.SemanticFitsDecision | experiments/ACTIONNET-DATA-QUAL-008/actionnet_multidomain.py:571-609 | TRUE goes with ALLOW, FALSE with DENY, UNKNOWN or MISSING with ABSTAIN, CONTESTED and INVALID with their namesakes, each way; MISSING is reported for missing evidence at its own gate only |
| Engine.RunEngine | experiments/ACTIONNET-DATA-QUAL-008/actionnet_multidomain.py:706-741 | the loop with its continue computes the specified run: deferred events are skipped, the first error ends it, every executed event leaves a step |
| Engine.Execute | experiments/ACTIONNET-DATA-QUAL-008/actionnet_multidomain.py:744-749 | the disagreement error is raised exactly when both runs go through and the guard fails at some state engine A reaches, never on canonical approvals and well-targeted events; an error of engine A comes first, then one of engine B |
| Engine.Lockstep | experiments/ACTIONNET-DATA-QUAL-008/actionnet_multidomain.py:719-732 | stepping both engines through the same events keeps them equal in state, steps and error |
| Engine.LockstepIff | experiments/ACTIONNET-DATA-QUAL-008/actionnet_multidomain.py:719-732 | where engine A goes through, engine B takes the same steps exactly when the guard holds at each of them |
| Engine.RunsAgreeIff | experiments/ACTIONNET-DATA-QUAL-008/actionnet_multidomain.py:744-749 | for every initial state and queue that engine A takes through, the engines agree exactly when the guard holds at each state the run reaches |
| Engine.EnginesAgree | experiments/ACTIONNET-DATA-QUAL-008/actionnet_multidomain.py:706-749 | for every queue and every canonical initial state the two engines return the same outcome, state, steps and receipt |
| Engine.ClockSplitsSchedule | experiments/ACTIONNET-DATA-QUAL-008/actionnet_multidomain.py:719-722 | a scheduled queue is its due events followed by its late events, although the loop only skips |
| Engine.ReceiptSplitsAtClock | experiments/ACTIONNET-DATA-QUAL-008/actionnet_multidomain.py:734-740 | ordered identifiers are the executed ones followed by the deferred ones, and each step names its executed event |
| Engine.ReceiptIsSchedule | experiments/ACTIONNET-DATA-QUAL-008/actionnet_multidomain.py:734-740 | a receipt lists the submitted events by their keys, those up to the clock as executed and those after it as deferred |
| Engine.DueOfSchedule | experiments/ACTIONNET-DATA-QUAL-008/actionnet_multidomain.py:715-722 | what is executed is the canonical order of what is due |
| Engine.LateEventsAreInert | experiments/ACTIONNET-DATA-QUAL-008/actionnet_multidomain.py:720-722 | replacing, adding or dropping late events changes neither outcome, state, steps nor executed identifiers |
| Engine.RenameCommutesWithTransition | experiments/ACTIONNET-DATA-QUAL-008/actionnet_multidomain.py:462-504 | renaming the requester commutes with every step |
| Engine.RenameCommutesWithVerdict | experiments/ACTIONNET-DATA-QUAL-008/actionnet_multidomain.py:555-620 | renaming the requester changes the certificate only in the first entry of the authority path |
| Engine.RenameStepsKeepsDecisions | experiments/ACTIONNET-DATA-QUAL-008/actionnet_multidomain.py:726-732 | a renamed step trace keeps event, operation, semantic state and decision of every step |
| Engine.ShuffleAndRenameInvariant | experiments/ACTIONNET-DATA-QUAL-008/actionnet_multidomain.py:423-439 | shuffling the submission and renaming the requester changes a run only in that identifier |
| ClosedForm.StepsShowPrefixes | experiments/ACTIONNET-DATA-QUAL-008/actionnet_multidomain.py:719-732 | step k of a trace carries the k-th executed event, the state that the run up to it ends in, and the verdict on that state |
| ClosedForm.RunSucceedsIff | experiments/ACTIONNET-DATA-QUAL-008/actionnet_multidomain.py:503-504 | a typed run stops with an error exactly when some executed event is unacceptable, whatever the state |
| ClosedForm.FirstErrorStops | experiments/ACTIONNET-DATA-QUAL-008/actionnet_multidomain.py:462-504 | the first unacceptable executed event stops a run, and the error says what is wrong with it |
| ClosedForm.FieldAfterRun | experiments/ACTIONNET-DATA-QUAL-008/actionnet_multidomain.py:466-487 | a field finally holds the value of its last executed write |
| ClosedForm.UnwrittenFieldAfterRun | experiments/ACTIONNET-DATA-QUAL-008/actionnet_multidomain.py:466-487 | a field that no executed event writes keeps its initial value |
| ClosedForm.ApprovalAfterRun | experiments/ACTIONNET-DATA-QUAL-008/actionnet_multidomain.py:488-494 | an approval finally stands exactly when its last executed ADD or REMOVE is an ADD |
| ClosedForm.ReservationAfterRun | experiments/ACTIONNET-DATA-QUAL-008/actionnet_multidomain.py:495-496 | the final reservation is the clamped fold of the executed deltas and of nothing else |
| ClosedForm.FrameAfterRun | experiments/ACTIONNET-DATA-QUAL-008/actionnet_multidomain.py:719-732 | a whole run leaves everything outside the mutable cells alone |
| ClosedForm.InstitutionalRun | experiments/ACTIONNET-DATA-QUAL-008/actionnet_multidomain.py:488-502 | every reachable state has open and resolved opposite, approvals sorted and duplicate free, the reservation non-negative; an appeal is open as its last event left it |
| ClosedForm.AppealRule | experiments/ACTIONNET-DATA-QUAL-008/actionnet_multidomain.py:573-574 | with a well-formed request and no conflict, the run is CONTESTED exactly when the last executed appeal event opened one |
| ClosedForm.ClosedFormDetermines | experiments/ACTIONNET-DATA-QUAL-008/actionnet_multidomain.py:706-741 | the closed form is complete: queues with the same last writes, standings, fold and appeal end in the same state |
| ClosedForm.CertificateAfterRun | experiments/ACTIONNET-DATA-QUAL-008/actionnet_multidomain.py:610-620 | whichever gate decides: the certificate names the initial requester, delegator, institutions and evidence source with the evidence status last written, charges the initial demand exactly on ALLOW, advances exactly on ALLOW and binds nobody |
| Compaction.ClampLaw | experiments/ACTIONNET-DATA-QUAL-008/actionnet_multidomain.py:495-496 | folding max(0, r + d) gives the larger of the total and the largest suffix sum after a clamp |
| Compaction.MergeNeverExceeds | experiments/ACTIONNET-DATA-QUAL-008/actionnet_multidomain.py:777-783 | merging a group never leaves a larger reservation |
| Compaction.MergeExactIff | experiments/ACTIONNET-DATA-QUAL-008/actionnet_multidomain.py:777-783 | merging a group is exact for a reservation exactly when no proper suffix sums to more than the merged result |
| Compaction.MergeExactFromZero | experiments/ACTIONNET-DATA-QUAL-008/actionnet_multidomain.py:777-783 | merging is exact from every non-negative reservation exactly when it is exact from none |
| Compaction.SameSignIsSafe | experiments/ACTIONNET-DATA-QUAL-008/actionnet_multidomain.py:777-783 | deltas of one sign merge exactly |
| Compaction.MixedSignsCanDiffer | experiments/ACTIONNET-DATA-QUAL-008/actionnet_multidomain.py:777-783 | on the counter: releasing five then reserving three from one held is not releasing two |
| Compaction.CompactionCanChangeTheVerdict | experiments/ACTIONNET-DATA-QUAL-008/actionnet_multidomain.py:1079-1084 | a state and a queue of two deltas for which the original run abstains for lack of capacity and the compacted run allows |
| Compaction.GroupSize | experiments/ACTIONNET-DATA-QUAL-008/actionnet_multidomain.py:763-776 | a group is the longest run that agrees with its first event in operation, target, time and priority, said in the fields of the events |
| Compaction.GroupIs | experiments/ACTIONNET-DATA-QUAL-008/actionnet_multidomain.py:767-776 | those four are all that decides a group: any longest run of reservation events that agrees in them is the group, whoever acts |
| Compaction.CollectGroup | experiments/ACTIONNET-DATA-QUAL-008/actionnet_multidomain.py:763-776 | the cursor loop collects exactly that run |
| Compaction.MergeGroup | experiments/ACTIONNET-DATA-QUAL-008/actionnet_multidomain.py:777-783 | a lone event passes through whatever it holds; a larger group becomes its sum, or raises when a value is no integer |
| Compaction.CompactCommutativeEvents | experiments/ACTIONNET-DATA-QUAL-008/actionnet_multidomain.py:752-785 | the index and cursor loops compute the specified compaction for every queue, and raise exactly when a group of two or more holds a value that is no integer |
| Compaction.EmittedEvent | experiments/ACTIONNET-DATA-QUAL-008/actionnet_multidomain.py:757-784 | every emitted event stands for neighbours that agree in operation, target, time and priority and that no further neighbour could join; a lone one is passed through, several become the first of them under a batch name with their sum |
| Compaction.NeighboursStayApart | experiments/ACTIONNET-DATA-QUAL-008/actionnet_multidomain.py:764-776 | no two neighbouring reservation events of the output share target, time and priority |
| Compaction.NothingToMerge | experiments/ACTIONNET-DATA-QUAL-008/actionnet_multidomain.py:757-784 | a queue without such neighbours is passed through |
| Compaction.OnePairMerges | experiments/ACTIONNET-DATA-QUAL-008/actionnet_multidomain.py:777-783 | with a single such pair the queue becomes one event shorter at its place |
| Compaction.CompactKeepsTotal | experiments/ACTIONNET-DATA-QUAL-008/actionnet_multidomain.py:782 | the executed deltas keep their total |
| Compaction.MergedSuffix | experiments/ACTIONNET-DATA-QUAL-008/actionnet_multidomain.py:782 | the merged deltas from the j-th on sum to what follows the first j executed groups of the original |
| Compaction.CompactRelaxes | experiments/ACTIONNET-DATA-QUAL-008/actionnet_multidomain.py:752-785 | running the compacted queue ends in the same state except for a possibly smaller reservation |
| Compaction.CompactIsExact | experiments/ACTIONNET-DATA-QUAL-008/actionnet_multidomain.py:752-785 | with safe groups it ends in the very same state |
| Compaction.CompactionIsCanonicalAndIdempotent | experiments/ACTIONNET-DATA-QUAL-008/actionnet_multidomain.py:752-785 | the compacted queue is already in canonical order and compacting it again changes nothing |
| Compaction.CompactionNeverOverReserves | experiments/ACTIONNET-DATA-QUAL-008/actionnet_multidomain.py:752-785 | for every queue: same error or same state up to a smaller reservation, every ALLOW kept, and a changed verdict is a RESOURCE_CAPACITY abstention turned into ALLOW |
| Compaction.CompactionPreservesMeaning | experiments/ACTIONNET-DATA-QUAL-008/actionnet_multidomain.py:1079-1084 | from a non-negative reservation and with safe groups, outcome and final state are those of the original queue |
| Compaction.OneSignIsSafe | experiments/ACTIONNET-DATA-QUAL-008/actionnet_multidomain.py:752-785 | queues whose executed groups have one sign are safe |
| Compaction.CompactionExactIff | experiments/ACTIONNET-DATA-QUAL-008/actionnet_multidomain.py:1079-1084 | outcome and state of the original are reproduced exactly when every suffix sum of the executed deltas is at most the unclamped total or at most some suffix sum that starts after a whole number of groups: a condition on the scheduled queue alone |
| StateTree.SameIffPlain | experiments/ACTIONNET-DATA-QUAL-008/actionnet_multidomain.py:894 | values compare equal exactly when they are the same up to True for 1 and False for 0, at every level |
| StateTree.NoChangeIffEqual | experiments/ACTIONNET-DATA-QUAL-008/actionnet_multidomain.py:884-896 | no change is recorded exactly when the two values are equal as Python compares them, where True is 1 and False is 0 |
| StateTree.DiffTells | experiments/ACTIONNET-DATA-QUAL-008/actionnet_multidomain.py:884-896 | every recorded change tells what the first value held at its path, what the second one holds there, and that these differ |
| StateTree.ChangedFieldsIsDiff | experiments/ACTIONNET-DATA-QUAL-008/actionnet_multidomain.py:884-896 | with non-empty dot-free keys the recorded dictionary is the structured difference, path by path |
| StateTree.TextInjective | experiments/ACTIONNET-DATA-QUAL-008/actionnet_multidomain.py:884-896 | distinct plain paths have distinct dotted texts, so no record overwrites another |
| StateTree.DiffPathsApart | experiments/ACTIONNET-DATA-QUAL-008/actionnet_multidomain.py:884-896 | no recorded path lies above or below another |
| StateTree.SameShapeIsExact | experiments/ACTIONNET-DATA-QUAL-008/actionnet_multidomain.py:884-896 | between dictionaries of the same shape no key is dropped and that comparison is plain equality |
| StateTree.DottedWriteIsPathWrite | experiments/ACTIONNET-DATA-QUAL-008/actionnet_multidomain.py:454-459 | the dotted write along the text of a plain path is the write along the path |
| StateTree.PatchDottedIsPatch | experiments/ACTIONNET-DATA-QUAL-008/actionnet_multidomain.py:454-459 | writing back along recorded dotted texts is writing back along the structured paths |
| StateTree.DottedRoundTripIff | experiments/ACTIONNET-DATA-QUAL-008/actionnet_multidomain.py:884-896 | set_path along every recorded dotted text turns before into after exactly when no key was dropped |
| StateTree.PatchYieldsMerged | experiments/ACTIONNET-DATA-QUAL-008/actionnet_multidomain.py:454-459 | writing every recorded after-value at its structured path never raises, and yields the second value with dropped keys left behind as None |
| StateTree.DiffRoundTripIff | experiments/ACTIONNET-DATA-QUAL-008/actionnet_multidomain.py:884-896 | along structured paths, for any keys, writing the changes back turns before into after exactly when no key was dropped |
| StateCodec.StateDiffRoundTrip | experiments/ACTIONNET-DATA-QUAL-008/actionnet_multidomain.py:884-896 | for any two states, set_path along the recorded dotted texts turns the first into the second, and nothing is recorded exactly when the states are equal |
| GeneratedCases.RulesRepeatEverySixty | experiments/ACTIONNET-DATA-QUAL-008/actionnet_multidomain.py:121-125 | rank, scope, policy version, capacity and approvals of two families are the same exactly when the families are equal modulo sixty |
| GeneratedCases.InstitutionRanges | experiments/ACTIONNET-DATA-QUAL-008/actionnet_multidomain.py:104-127 | which ranks, versions, capacities, scopes and approvals occur |
| GeneratedCases.ListsInTurn | experiments/ACTIONNET-DATA-QUAL-008/actionnet_multidomain.py:107-115 | families take a pack's workflows and jurisdictions in turn |
| GeneratedCases.InitialMargins | experiments/ACTIONNET-DATA-QUAL-008/actionnet_multidomain.py:130-203 | by how much a fresh institution passes each of its gates |
| GeneratedCases.InitialNames | experiments/ACTIONNET-DATA-QUAL-008/actionnet_multidomain.py:130-203 | whose names a fresh institution carries and what it takes over from its configuration |
| GeneratedCases.PreparedCases | experiments/ACTIONNET-DATA-QUAL-008/actionnet_multidomain.py:325-327 | what each mechanism withholds or demands before either run, and that it prepares nothing else |
| GeneratedCases.CommonTimetable | experiments/ACTIONNET-DATA-QUAL-008/actionnet_multidomain.py:229-306 | tick relative to the decision, priority, actor and name of the common and the late events |
| GeneratedCases.LateEventsAreConsequential | experiments/ACTIONNET-DATA-QUAL-008/actionnet_multidomain.py:286-306 | each of the deferred events, executed on the state in which a base run ends, would have ended the run otherwise |
| GeneratedCases.DelayedEvidenceArrives | experiments/ACTIONNET-DATA-QUAL-008/actionnet_multidomain.py:328-331 | delayed evidence is TRUE evidence dated by its arrival, in time in one queue and late in the other |
| GeneratedCases.AppealEventsSayWhatTheyDo | experiments/ACTIONNET-DATA-QUAL-008/actionnet_multidomain.py:309-420 | an appeal event carries what it leaves open, and the one that comes too late would have led to the end of the base run |
| GeneratedCases.PivotalTimetable | experiments/ACTIONNET-DATA-QUAL-008/actionnet_multidomain.py:318-417 | the same for the events a mechanism adds: one tick before the decision with priority 20 unless it is about time or priority |
| StateRecord.PivotalEvents | experiments/ACTIONNET-DATA-QUAL-008/actionnet_multidomain.py:309-420 | the generator edits the state it is handed and grows both queues from the same common events, as specified |
| Counterfactuals.CommonRun | experiments/ACTIONNET-DATA-QUAL-008/actionnet_multidomain.py:229-283 | the five common events take a generated state to one known state |
| Counterfactuals.InitialIsPoised | experiments/ACTIONNET-DATA-QUAL-008/actionnet_multidomain.py:104-203 | every generated and prepared initial state passes all gates but those its mechanism withholds |
| Counterfactuals.PivotalPairsFlip | experiments/ACTIONNET-DATA-QUAL-008/actionnet_multidomain.py:309-420 | for all twenty mechanisms and all indices, identifiers, deferred suffixes and timings the base run ends in ALLOW and the other in the mechanism's own decision at its own gate, and both end in the very state the mechanism is about |
| Counterfactuals.InvariancePairsPreserve | experiments/ACTIONNET-DATA-QUAL-008/actionnet_multidomain.py:423-439 | invariance pairs run alike up to the requester's identifier, from any state |
| Counterfactuals.InvariancePairsAllow | experiments/ACTIONNET-DATA-QUAL-008/actionnet_multidomain.py:423-439 | on a generated institution both runs of an invariance pair end in ALLOW, in the state the common events leave |
| Counterfactuals.ContextualPairsPreserve | experiments/ACTIONNET-DATA-QUAL-008/actionnet_multidomain.py:442-451 | contextual pairs end INVALID on both sides, from any state; the comparison run ends with exactly five more reserved and differs in nothing else |
| Counterfactuals.AppealPairsAreExact | experiments/ACTIONNET-DATA-QUAL-011/actionnet011.py:189-210 | every generated UNRESOLVED_APPEAL pair passes the boundary audit, which never raises on it |
| Counterfactuals.BoundaryMeans | experiments/ACTIONNET-DATA-QUAL-011/actionnet011.py:189-210 | for runs of the engine the audit passes exactly when each queue has one RESOLVE_APPEAL, on its side of the clock, and the decisions are ALLOW and CONTESTED; it raises exactly when a queue has not exactly one |
| GeneratedCompaction.AccumulatingCompactsExactly | experiments/ACTIONNET-DATA-QUAL-008/actionnet_multidomain.py:1079-1084 | a queue that only reserves, with sequence numbers that name its events, keeps outcome and final state when compacted |
| GeneratedCompaction.PivotalTrialsCompactExactly | experiments/ACTIONNET-DATA-QUAL-008/actionnet_multidomain.py:1079-1084 | compaction keeps outcome and final state of both trials of every pivotal pair, from any state with nothing negative |
| GeneratedCompaction.InvarianceTrialsCompactExactly | experiments/ACTIONNET-DATA-QUAL-008/actionnet_multidomain.py:1079-1084 | the same for every invariance pair, whose second queue is rotated instead of reversed |
| GeneratedCompaction.ContextualTrialsCompactExactly | experiments/ACTIONNET-DATA-QUAL-008/actionnet_multidomain.py:1079-1084 | the same for every contextual pair |
| GeneratedCompaction.OtherTrialsPassThrough | experiments/ACTIONNET-DATA-QUAL-008/actionnet_multidomain.py:309-420 | RESOURCE_CONTENTION is the only mechanism whose queues the optimiser changes |
| GeneratedCompaction.ContentionMergesOnce | experiments/ACTIONNET-DATA-QUAL-008/actionnet_multidomain.py:336-346 | it merges exactly the two reservations made just before the clock by two actors; the merged event of the intervention reserves the whole capacity, that of the base run nothing |
| Predecessor.StepProjects | experiments/ACTIONNET-DATA-QUAL-007/actionnet_eventnet.py:378-412 | an event of the earlier version is taken by it as the projection of the current step |
| Predecessor.LadderExtends | experiments/ACTIONNET-DATA-QUAL-007/actionnet_eventnet.py:455-495 | where the eight added gates pass the two ladders agree; ALLOW is ALLOW of the nine gates plus the added ones |
| Predecessor.ExtensionIsConservative | experiments/ACTIONNET-DATA-QUAL-007/actionnet_eventnet.py:563-598 | on queues of the earlier version the earlier run is the projection of the current run, steps and receipt included |
| Predecessor.AllowNeedsBoth | experiments/ACTIONNET-DATA-QUAL-007/actionnet_eventnet.py:563-598 | from any state the current run ends in ALLOW exactly when the earlier one does and the added gates passed to begin with |
| QueueIntegrity.GreedyIffEmbeds | experiments/ACTIONNET-DATA-QUAL-010/actionnet010.py:241-243 | greedy matching succeeds exactly when a strictly increasing embedding exists |
| QueueIntegrity.IsSubsequence | experiments/ACTIONNET-DATA-QUAL-010/actionnet010.py:241-243 | the shared iterator, consumed value by value, decides the existence of an embedding |
| QueueIntegrity.SubsequenceIsKeep | experiments/ACTIONNET-DATA-QUAL-010/actionnet010.py:257-258 | in a duplicate-free order a subsequence is determined by its members |
| QueueIntegrity.IntegrityMeans | experiments/ACTIONNET-DATA-QUAL-010/actionnet010.py:246-259 | what is accepted: a duplicate-free permutation of the submission, cut into executed and deferred in order |
| QueueIntegrity.ReceiptsCertify | experiments/ACTIONNET-DATA-QUAL-010/actionnet010.py:246-259 | every receipt of a queue with unique identifiers is accepted |
| BalancedSelection.Round | experiments/ACTIONNET-DATA-QUAL-010/actionnet010.py:229-236 | one pass over the mechanisms serves each at most once, in order, until the quota is met |
| BalancedSelection.SelectClass | experiments/ACTIONNET-DATA-QUAL-010/actionnet010.py:222-237 | a class is filled to its quota exactly when it has enough pairs; the loop terminates |
| BalancedSelection.MechanismBalancedStatePairs | experiments/ACTIONNET-DATA-QUAL-010/actionnet010.py:218-238 | exactly 16, 4 and 4 pairs are selected, fairly, when every class has enough; otherwise the first class that has not is named |
| BalancedSelection.BalancedMeans | experiments/ACTIONNET-DATA-QUAL-010/actionnet010.py:226-236 | each mechanism contributes its first pairs by identifier, and two mechanisms with pairs left contribute equally many up to one |
| BalancedSelection.SelectionInNumbers | experiments/ACTIONNET-DATA-QUAL-010/actionnet010.py:220-221 | a selection is 24 identifiers, 16 of pivotal pairs and four of each other class, and there is one exactly when there are that many |
| BalancedSelection.SmallestFirst | experiments/ACTIONNET-DATA-QUAL-010/actionnet010.py:225-234 | within a mechanism smaller identifiers are chosen first |
| BalancedSelection.TurnsByName | experiments/ACTIONNET-DATA-QUAL-010/actionnet010.py:229-235 | as long as a mechanism has pairs left, no mechanism has contributed more, except one pair by those with a smaller name |
| Rounding.RoundsToNearest | experiments/ACTIONNET-DATA-QUAL-008/expert_router.py:79-86 | rounding gives a nearest value, the even one on a tie, and leaves exact values alone |
| Rounding.RoundShifts | experiments/ACTIONNET-DATA-QUAL-008/expert_router.py:79-86 | an even whole number passes through rounding |
| ExpertRouter.ReportedIffApplies | experiments/ACTIONNET-DATA-QUAL-008/expert_router.py:52-74 | each of the nine reasons is reported exactly when it applies |
| ExpertRouter.ReasonsInOrder | experiments/ACTIONNET-DATA-QUAL-008/expert_router.py:54-74 | reasons are listed once each, always in the same order |
| ExpertRouter.EligibleIff | experiments/ACTIONNET-DATA-QUAL-008/expert_router.py:52-74 | no reason is reported exactly when all nine conditions hold |
| ExpertRouter.ScoreParts | experiments/ACTIONNET-DATA-QUAL-008/expert_router.py:77-86 | what each part is worth: 55 points, 15 for each of the first two shared specialties, a twentieth for each of the first hundred reviews, and ten times the calibration, which alone is rounded |
| ExpertRouter.CalibrationPoints | experiments/ACTIONNET-DATA-QUAL-008/expert_router.py:83 | a calibration higher by c is worth ten c points up to one ten-thousandth |
| ExpertRouter.FullScore | experiments/ACTIONNET-DATA-QUAL-008/expert_router.py:79-86 | nobody calibrated up to 1 scores above 100 points, reached exactly with two shared specialties, a hundred reviews and a calibration that rounds to 1 |
| ExpertRouter.EligibleScore | experiments/ACTIONNET-DATA-QUAL-008/expert_router.py:77-86 | an eligible expert scores at least 78 points |
| ExpertRouter.EligibleScoreIsTight | experiments/ACTIONNET-DATA-QUAL-008/expert_router.py:77-86 | 78 points are reached by one shared specialty, the minimum calibration and no completed review |
| ExpertRouter.ScoreMonotone | experiments/ACTIONNET-DATA-QUAL-008/expert_router.py:77-86 | more shared specialties, better calibration and more completed reviews never lower the score |
| ExpertRouter.EligibleMembers | experiments/ACTIONNET-DATA-QUAL-008/expert_router.py:92-101 | the candidates are exactly the eligible profiles with their affiliation and score |
| ExpertRouter.RejectedMembers | experiments/ACTIONNET-DATA-QUAL-008/expert_router.py:92-95 | the rejections are exactly the other profiles with all their reasons |
| ExpertRouter.RankedByScore | experiments/ACTIONNET-DATA-QUAL-008/expert_router.py:102 | candidates are considered by descending score, then by identifier |
| ExpertRouter.AssignLoop | experiments/ACTIONNET-DATA-QUAL-008/expert_router.py:104-112 | the loop with its continue and break is the greedy choice |
| ExpertRouter.RouteItem | experiments/ACTIONNET-DATA-QUAL-008/expert_router.py:89-121 | the whole routing record, rejections included, is the specified one |
| ExpertRouter.GreedyIsSelection | experiments/ACTIONNET-DATA-QUAL-008/expert_router.py:106-112 | assigned experts are candidates with pairwise distinct affiliations |
| ExpertRouter.GreedySize | experiments/ACTIONNET-DATA-QUAL-008/expert_router.py:106-112 | as many are assigned as needed, or as there are affiliations |
| ExpertRouter.GreedyTakesFirst | experiments/ACTIONNET-DATA-QUAL-008/expert_router.py:106-112 | whoever ranks before an assigned expert is assigned, or an earlier one of the same affiliation is |
| ExpertRouter.GiveWay | experiments/ACTIONNET-DATA-QUAL-008/expert_router.py:106-112 | exchange step: in any rival selection someone can give way to the best candidate at no loss |
| ExpertRouter.GreedyIsOptimal | experiments/ACTIONNET-DATA-QUAL-008/expert_router.py:102-112 | no independent selection of at most the needed number scores more |
| ExpertRouter.RoutingIsOptimal | experiments/ACTIONNET-DATA-QUAL-008/expert_router.py:89-121 | for at least one required review: eligible, independent, ASSIGNED exactly when the eligible experts span enough affiliations, and of maximal total score |
| ExpertRouter.RoutingReports | experiments/ACTIONNET-DATA-QUAL-008/expert_router.py:113-121 | every profile is counted as eligible or rejected with its reasons, and the affiliations counted are those of the eligible ones |
| ExpertRouter.NoReviewsRequired | experiments/ACTIONNET-DATA-QUAL-008/expert_router.py:103-115 | when no review is required the loop never stops early, and ASSIGNED means that nobody is eligible |
| ExpertRouter.ProfileOrderIsIrrelevant | experiments/ACTIONNET-DATA-QUAL-008/expert_router.py:89-121 | with one profile per expert the order of profiles affects nothing but the order of the rejections |
| Weights.DecisionTotals | experiments/ACTIONNET-DATA-QUAL-008/actionnet_multidomain.py:1326-1329 | the loop totals the weights of every decision over the records that are not pair contrasts |
| Weights.Largest | experiments/ACTIONNET-DATA-QUAL-008/actionnet_multidomain.py:1330 | the target is the largest total |
| Weights.Rewrite | experiments/ACTIONNET-DATA-QUAL-008/actionnet_multidomain.py:1332-1337 | in place, every such record is rescaled and every pair contrast is left alone |
| Weights.Normalise | experiments/ACTIONNET-DATA-QUAL-008/actionnet_multidomain.py:1325-1337 | no decision, a zero total, or all weights rescaled towards the largest total; the array is unchanged in the first two cases |
| Weights.PrefixError | experiments/ACTIONNET-DATA-QUAL-008/actionnet_multidomain.py:1332-1337 | rounding errors of a decision accumulate to at most half a millionth per record |
| Weights.TotalsAreBalanced | experiments/ACTIONNET-DATA-QUAL-008/actionnet_multidomain.py:1325-1337 | afterwards every decision's total is the maximum total up to half a millionth per record |
| Weights.MembersCount | experiments/ACTIONNET-DATA-QUAL-008/actionnet_multidomain.py:1326-1329 | the records of a decision are counted by their places |
| Weights.EachInProportion | experiments/ACTIONNET-DATA-QUAL-008/actionnet_multidomain.py:1331-1337 | every record's new weight is the nearest millionth to its own share of the target, and nothing else about it changes |
| Weights.MaximumIsUnchanged | experiments/ACTIONNET-DATA-QUAL-008/actionnet_multidomain.py:1331-1337 | records of a decision that attains the maximum, and pair contrasts, keep their weight |
| Weights.WeightsNeverShrink | experiments/ACTIONNET-DATA-QUAL-008/actionnet_multidomain.py:1331-1337 | no non-negative weight is reduced |
| ReviewDesk.InvalidateSpares | command-center/src/App.tsx:109-113 | invalidation spares only recorded reviews of other incidents |
| ReviewDesk.StepKeepsInvariant | command-center/src/App.tsx:107-150 | every handler and every expiring timer keeps the binding invariant |
| ReviewDesk.RunKeepsInvariant | command-center/src/App.tsx:56-150 | in every reachable state an incident has at most one review; a pending or recorded one matches plan, state version and proposal version, costs at most 30000 and has no open blocking recourse; a pending one has an approver, a usable scenario and a running timer |
| ReviewDesk.StartIsGood | command-center/src/App.tsx:56-75 | the initial state satisfies the invariant |
| ReviewDesk.LiveReviewsAreEarned | command-center/src/App.tsx:127-138 | a review only becomes pending by an admissible submission and only becomes recorded by a timer from pending; no invalidated review comes back |
| ReviewDesk.PendingIsNeverStranded | command-center/src/App.tsx:132-137 | the own timer of any pending review is running and would record it |
| ReviewDesk.StepAdvances | command-center/src/App.tsx:84-86 | no action but reset lowers a version, and none changes the plan on offer without a new proposal version |
| ReviewDesk.StepMovesVersion | command-center/src/App.tsx:114-150 | the state version rises by one exactly on a refresh and on a return to the normal scenario, for the incident on screen |
| ReviewDesk.StepMovesProposal | command-center/src/App.tsx:120-150 | the proposal version rises by one exactly on a refresh and on the choice of another plan, for the incident on screen; otherwise the choice stays |
| ReviewDesk.ProposalVersionIdentifiesPlan | command-center/src/App.tsx:84-150 | over any run without reset, the same proposal version of an incident means the same plan at the same cost |
| ReviewDesk.BlockedUntilResolved | command-center/src/App.tsx:89-148 | while a blocking recourse stays open no review of its incident counts, whatever handlers and timers run, until that record is resolved or all is reset |
| ReviewDesk.TidinessIsLostExactly | command-center/src/App.tsx:110-132 | the component loses track of a timer exactly when it accepts a submission while it remembers one |
| ReviewDesk.TidyRuns | command-center/src/App.tsx:109-138 | in a run whose submissions are made only when no timer is remembered, every running timer is remembered |
| ReviewDesk.FiringRecordsIff | command-center/src/App.tsx:132-136 | a running timer records a pending review exactly when it captured the review's incident |
| ReviewDesk.PoachedIff | command-center/src/App.tsx:132-136 | a timer that is not the review's own can record it exactly when a second running timer captured its incident |
| ReviewDesk.SeparationIsLostExactly | command-center/src/App.tsx:110-132 | running timers stop being for different incidents exactly by an accepted submission for an incident whose earlier timer still runs |
| ReviewDesk.PoachingIsCausedExactly | command-center/src/App.tsx:110-137 | after a step from a desk with separate timers some pending review can be recorded by a foreign timer exactly when the step was such a submission |
| ReviewDesk.RunsStaySeparateIff | command-center/src/App.tsx:109-138 | over a whole run the timers stay separate exactly when no such submission is accepted |
| ReviewDesk.UncrowdedRunsRecordOwnReviews | command-center/src/App.tsx:127-138 | in a run without such a submission every review is recorded by the timer its own submission started |
| ReviewDesk.ForgottenTimerRecordsEarly | command-center/src/App.tsx:110-137 | after the persona is changed and changed back, a forgotten timer records a later review of its incident while that review's own timer still runs |
| DeskEffects.SelectedPlanIsShown | command-center/src/App.tsx:84-85 | a selection shows the first plan of that name at its catalog cost, or at 31800 when it is the first plan and the capacity changed |
| DeskEffects.FirstPlanIsShown | command-center/src/App.tsx:84-85 | without a selection that names one of its plans an incident shows its first plan |
| DeskEffects.ChosenPlanIsShown | command-center/src/App.tsx:120 | choosing a plan on offer puts it on screen and makes a new proposal unless it was there already |
| DeskEffects.RefreshShowsAlternative | command-center/src/App.tsx:150 | a refresh puts the second plan on screen at its catalog cost, as a new proposal on a new state in the normal scenario; the dearer first plan only if the two share a name |
| DeskEffects.RefreshedIsReviewable | command-center/src/App.tsx:89-150 | after a refresh an approver may review an alternative within the ceiling, with scope accepted and a note of twelve characters, unless a blocking request is open |
| DeskEffects.SubmissionEffect | command-center/src/App.tsx:127-137 | exactly when a submission is accepted, and all it leaves: one pending review of the plan on screen, bound to both versions, in place of the incident's earlier ones, and its timer |
| DeskEffects.InvalidationEffect | command-center/src/App.tsx:109-113 | which reviews survive, that every record stays in its place with its text, and that no timer but the remembered one stops |
| DeskEffects.OtherwiseUntouched | command-center/src/App.tsx:107-150 | the other actions leave reviews and timers alone |
| DeskEffects.FiringEffect | command-center/src/App.tsx:132-137 | a running timer records the pending reviews of the incident it captured and touches no other record; a stopped one does nothing |
| DeskEffects.RecourseEffect | command-center/src/App.tsx:139-147 | exactly when a request is accepted, and that it is filed open under the next number |
| DeskEffects.ResolutionEffect | command-center/src/App.tsx:148 | resolving closes the records of that number and no other; an incident stays blocked exactly by what is open under other numbers |
| DeskEffects.RecoursesStay | command-center/src/App.tsx:107-157 | no other action touches a filed request, except that a reset drops them |
| DeskEffects.ScreenAfter | command-center/src/App.tsx:107-157 | scenario, persona, incident and capacity note after every action |
| DeskEffects.NumbersGivenOut | command-center/src/App.tsx:108-150 | how many numbers each action gives out |
| DeskEffects.ResetEffect | command-center/src/App.tsx:157 | a reset leaves the start state on the first incident, except that every timer but the remembered one runs on and the counters go on |
| DeskEffects.FirstScreen | command-center/src/App.tsx:56-86 | what is on screen at first |
| CommandCenter.App.constructor | command-center/src/App.tsx:56-75 | the start state: normal scenario, operator, no reviews, an incident of the catalog on screen |
| CommandCenter.App.InvalidateReviews | command-center/src/App.tsx:109-113 | clears the remembered timer only, and invalidates the incident's review and every pending one |
| CommandCenter.App.SetMode | command-center/src/App.tsx:114-119 | invalidates, changes scenario, and advances the state version when returning to normal |
| CommandCenter.App.ChoosePlan | command-center/src/App.tsx:120 | does nothing for the plan on screen; otherwise invalidates, selects and advances the proposal version |
| CommandCenter.App.SubmitReview | command-center/src/App.tsx:127-137 | under the guards, replaces the incident's review by a pending one bound to what is on screen and starts a timer, overwriting the remembered handle |
| CommandCenter.App.Fire | command-center/src/App.tsx:132-137 | records the pending review of the captured incident and forgets the remembered handle |
| CommandCenter.App.SubmitRecourse | command-center/src/App.tsx:139-147 | under the guards, opens a recourse record and invalidates when it is blocking |
| CommandCenter.App.ResolveRecourse | command-center/src/App.tsx:148 | invalidates and closes the named record |
| CommandCenter.App.RefreshState | command-center/src/App.tsx:150 | invalidates, marks the capacity changed, advances both versions, selects the second plan and returns to normal |
| CommandCenter.App.ChangePersona | command-center/src/App.tsx:157 | invalidates and changes the persona |
| CommandCenter.App.Navigate | command-center/src/App.tsx:42-47 | shows a known incident, or the first one |
| CommandCenter.App.Reset | command-center/src/App.tsx:157 | clears everything but the timers still running and the counters |

## Left out

- EventNet.Value: in the typed engines a value that does not fit its field, or a target that names no field, is an error; the repository would store it. `DictionaryStep` has the step that stores it.
- Transition.TransitionsAgreeIff: is exact for the typed steps only, where such a value or target is an error; the statement for every target and value is `DictionaryStep.StepsAgreeIff`.
- ClosedForm.RunSucceedsIff: counts values that do not fit and targets that name no field as errors of the run.
- StateRecord.ApplyB: reports a value that does not fit as an error instead of storing it, as `StateRecord.ApplyA` does.
- Engine.EnginesAgree: runs that store a value of the wrong kind are not modelled beyond the step that stores it; on such a state the table of evaluator B computes every factor and may raise where the chain of evaluator A stops earlier.
- DictionaryStep.StepsAgreeIff: one step from a typed state; conversion to an integer is any function of the value, the same for both engines, and numbers are integers.
- Scheduling.ScheduleB: two different events with the same four-part key, for which the repository's heap compares dictionaries, are only claimed to come out in key order.
- Scheduling.EventHeap: the standard library's heap is modelled as an ordinary binary heap over a sequence; it sinks the moved root from the top where the library first promotes a leaf path.
- StateRecord.ApplyA: reports a value that does not fit as an error instead of storing it; sections are overwritten as values inside a mutable record; nested dictionaries that could be shared are not modelled, since both engines work on a deep copy.
- StateTree.Same: compares flags, integers, texts, lists and dictionaries; floating point values do not occur in the modelled dictionaries.
- StateTree.SetPath: nested dictionaries are values, so a dotted write returns the new dictionary instead of updating it in place.
- Predecessor.Reference7: the second implementation of the earlier engine is not modelled; it differs from the first in the way the current two differ.
- Engine.Execute: each engine's certificate is assembled by one function, because the two texts are identical; what it says is fixed by `ClosedForm.CertificateAfterRun`.
- Hashing, digests and opaque identifiers are not computed; only their use as names is modelled.
- ExpertRouter.RoutingScore: scores are exact ten-thousandths, calibration and counts exact reals; binary floating point is not modelled.
- ExpertRouter.Profile: dates are numbers and missing profile entries are the defaults the code reads for them; parsing of dates is not modelled.
- Weights.Normalise: weights are integer millionths and the rescaling is exact before rounding; binary floating point and the summation order it depends on are not modelled.
- ReviewDesk.Step: note texts appear by their trimmed length, recourse kinds by whether they block; receipts, activity lists, toasts and dialogs appear only through the shared counter.
- ReviewDesk.Run: with a control plane configured, the component also sets a version when a fetch returns; that effect is not part of this model, and neither is unmounting.
- Corpus bookkeeping, overlap audits, rendering, observations, manifests and lineage records are string plumbing or finite counts over one seed.
- Earlier copies of the engine repeat the same ideas with fewer gates or without a queue.
- The multi-generation module that later experiments import is not part of this model; receipts are those of the engine modelled here.
- Governance and feedback modules are conjunctions of flags without state or order.
