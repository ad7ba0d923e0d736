# Scopebond, verified model

A Dafny model of the parts of Scopebond that decide, spend, record and restore: the dispatch boundary every
agent action passes, the gateway's action lifecycle and its anchored receipt log, the single use of signed
authorizations, the archive format engine bundles travel in, the settings the agent keeps in other tools' files,
and the agent's smaller state machines. Where the code changes something step by step, a method or class does it
in place and is proved against a function; what the code promises is proved about that function, over every
input, every run or every interleaving. `dafny verify dfyconfig.toml` checks everything.

## The parts

**The dispatch boundary** (`DispatchRules`, `DispatchStore`, `DispatchGuard`, `DispatchRuns` and the theorem
files `DispatchAtomicity`, `DispatchCounted`, `DispatchAnswers`, `DispatchWindow`, `DispatchSingleUse`,
`DispatchApprovals`, `DispatchGreedy`, `DispatchRegistered`, `DispatchDelegation`, `DispatchRevoked`,
`DispatchSpending`).
One SQLite file holds consumed approvals, delegations, revocations, budget reservations and the highest time
seen. Any number of processes run `authorize` against it in steps (clock reading and approval choice, workspace
delegation, preview, workspace spends, final transaction), interleaved in any order with arbitrary wall clocks.
An approval candidate carries whether its approver is known and its signature valid; a budget policy carries
whether it is acknowledged; digests are given.

**The action lifecycle** (`ActionLifecycle`, `ActionRuns` and the theorem files `ActionGuarantees`,
`ActionUnstarted`, `ActionCharges`, `ActionOutcomes`, `ActionBoundary`, `ActionRaces`). A call of
`handleAction` is a sequence of places between awaits; calls, retries, crashes, the stop switch and
reconciliations interleave over one receipt store. The verdict of the policy, the override, the boundary, the
executor and the adapter are answers given to each call.

**The anchored log** (`MerkleV1`, `Rfc9162`, `AnchorLog`, `LeafCache`). The older tree with self-paired odd
nodes, the tree of section 2.1.1 of RFC 9162 with its inclusion and consistency proofs and the loops of sections
2.1.3.2 and 2.1.4.2 that verify them, `anchor()` itself, and the leaf cache behind the public proof routes.
Digests are strings; hashes are parameters, assumed injective only where a proof must bind.

**Single use of authorizations** (`ReplayWindow`, `ReplayRuns`). Freshness, the bounded lookup and the full scan; and
the SQLite store, with the ids actions consumed, its index of those receipts name, and the upkeep that removes all of
it by age. Calls look, reserve and finish in steps, interleaved with upkeep and arbitrary clocks.

**The archive** (`Octal`, `Tar`, `Tgz`). ustar headers written into a buffer in place, packing, and unpacking of
arbitrary bytes with all its refusals. gzip is a pair of functions.

**Managed tool settings** (`ToolSettings`, `ToolSettingsFile`, `ToolSettingsRuns`, `ToolSettingsWanted`). The in-place merge of wanted
entries into lists a person also owns, with the record of what the agent placed and created.

**The agent** (`Launchers`, `EngineVersions`, `LivePrompt`, `GroupBlocks`). Quoting and reading back of launcher
paths, engine updates and rollbacks, the live prompt behind its serializer and without it, and the tray's rows.

## What does not hold as one might expect

Each entry names a lemma with a concrete run or input and the exact condition under which the property holds.

- A scope target that ends in two stars covers more than the scope it was checked against
  (`DispatchRules.DoubleStarWidensAScope`; exact condition for a pattern in `CoveredPatternReachesNoFurther`, for a
  scope in `SubScopesPermitNoMoreExactlyWhen`). Then a delegation's walk is more than a check of its leaf
  (`DispatchDelegation.ADoubledStarDefeatsTheLeafCheck`): it is just that where the condition holds of every ancestor
  (`WalkIsALeafCheck`), and below any record where it does not some leaf shows it (`UncoveredStarsDefeatTheLeafCheck`).
- The comment on `authorize` says a denial has consumed nothing. That is so for the local tables
  (`DispatchAtomicity.DenialSpendsNothing`); a workspace approval spent before the last transaction is not given
  back (`DispatchSingleUse.WorkspaceSpendIsNotGivenBack`). A call can be denied after such a spend exactly when it has
  another to spend, when its last transaction judges a delegation, a local approval or an enforcing policy, or when
  two of its policies count on one budget (`DispatchSpending.DeniedAfterASpendExactlyWhen`).
- Choosing approvals greedily can miss an assignment (`DispatchApprovals.OneIdForTwoSubjectsDefeatsGreedy`). For
  given approvals, in every order and for every request, it finds one whenever there is one exactly when any two
  subjects have no valid id in common or all of them (`DispatchGreedy.GreedyIsCompleteExactlyWhen`).
- A revoked delegation that is not registered locally is asked of the workspace, and the local revocation is not
  read (`DispatchDelegation.RevokedButUnknownIsAskedElsewhere`). A call under a delegation shut off here can end allowed
  exactly when a workspace is configured, the delegation is not registered here and the rest of the call is in order
  (`DispatchRevoked.RevokedEndsAllowedExactlyWhen`); one that is checked here is shut off for good
  (`DispatchDelegation.ShutOffForGood`).
- A reconciliation that read an action as reserved can finalize it as unstarted after it was sent
  (`ActionRaces.ASentActionIsCalledUnstarted`). The record tells: with no adapter named as it settles, the action
  never was and never will be sent; with one, it was or will be in this run or in one the store cannot tell from it
  (`ActionUnstarted.UnstartedIsWrongExactlyWhen`).
- An action can be charged twice: by two reconciliations (`ActionRaces.TwoReconciliationsChargeTwice`), or by one and
  the call's own finalization (`ActionRaces.TheCallItselfChargesTwice`). In any run that happens exactly when an
  event writes an execution or an unknown outcome of an action whose execution is on record already
  (`ActionCharges.ChargedTwiceExactlyWhen`); with finalizations that find the record as it was read it never does
  (`ActionCharges.EachActionIsChargedOnce`).
- A retry can be told to go ahead with what the first call was refused, only after such a reconciliation
  (`ActionRaces.ARepeatIsToldYesAfterANo`, `ActionGuarantees.RepeatNowAgreesExactlyWhen`).
- A stop in force just as the boundary would be asked, and lifted before the next check, lets an action through
  unasked (`ActionRaces.ALiftedStopPassesTheBoundary`); a call the boundary would refuse is sent in some
  continuation exactly then (`ActionBoundary.RefusedIsSentExactlyWhenStopped`).
- A denial a person overrides never reaches a dispatch executor: its record is denied, so the call throws
  (`ActionRaces.AnOverriddenDenialThrows`; what every call comes to, exactly, in `UninterruptedCall`).
- Overlapping `anchor()` calls can put two anchors with one sequence number and a shrinking size
  (`AnchorLog.TwoOverlappingCallsForkTheLog`; exact condition in `SequenceRisesExactlyWhenNoneOvertaken`).
- A caller that joins a finished but uncleared cache extension is told the log is too short though it is not
  (`LeafCache.AJoinerMayBeToldTooShort`; exact condition, in any round, in `ToldTooShortExactlyWhenLate`).
- The size field carries twelve octal digits, one more than the padding suggests: packing and unpacking restore
  the files exactly when every size is below 8 to the twelfth (`Tgz.UnpackingWhatWasPacked`; `Tgz.OneByteTooMany`).
- The settings merge says every other key stays; an object for permissions that was there and empty goes with the
  last list the agent removes (`ToolSettingsRuns.AnEmptyObjectGoes`; exact condition in
  `FileComesBackExactlyUnless`).
- The replay window can miss a use from before a change of configuration
  (`ReplayWindow.ASkewCutByTwoHoursLosesAUse`); it covers every one exactly when the skew and lifetime allowed then are
  within its margin (`ReplayWindow.WindowIsExact`).
- Upkeep forgets used ids by age, so a clock set far ahead for one upkeep and back lets an envelope be used again
  (`ReplayRuns.AClockSetAheadForgetsAUse`). None is used twice in any run in which nothing was removed from a call's
  bound on (`ReplayRuns.NoneAcceptedTwice`), and that bound is exact (`ReplayRuns.UsedAgainExactlyWhen`).
- Without its serializer a question in the tray that another replaces is never resolved
  (`LivePrompt.AnOvertakenQuestionIsLost`); one in the window still is
  (`LivePrompt.OvertakenIsLostExactlyInTheTray`), and behind the serializer none is replaced.
- A row of blocks shows the earliest time of its members unless the first member's time cannot be read
  (`GroupBlocks.AnUnreadableFirstTimeHidesTheNext`; exact condition in `FirstTimeExactlyWhen`).

## Model

| member | source | states |
|---|---|---|
| DispatchRules.CoveredPatternReachesNoFurther | packages/gateway/src/dispatch.ts:157-158 | a pattern covered by another matches only what that one matches, exactly unless it is the other with a further star |
| DispatchRules.SubScopesPermitNoMoreExactlyWhen | packages/gateway/src/dispatch.ts:161-178 | no sub-scope permits an action its parent does not, exactly when the parent permits what each of its targets with two stars would reach with one |
| DispatchRules.SubScopePermitsNoMore | packages/gateway/src/dispatch.ts:161-178 | in particular, a sub-scope permits no action its parent does not when no target of the parent ends in two stars |
| DispatchRules.DoubleStarWidensAScope | packages/gateway/src/dispatch.ts:157-178 | without that condition there is a sub-scope that permits more |
| DispatchRules.CheckApproval | packages/gateway/src/dispatch.ts:102-131 | an approval is valid exactly when it is signed by a known approver other than the actor, for this very actor, action, target, policy and request, has begun and not ended, and lives no longer than the shorter limit; what a rejection says is so |
| DispatchStore.Store.constructor | packages/gateway/src/dispatch-store.ts:52-72 | a new store has empty tables and no clock mark |
| DispatchStore.Store.Restore | packages/gateway/src/dispatch-store.ts:77-87 | a rollback restores every table, the clock mark included |
| DispatchStore.Store.ReadClock | packages/gateway/src/dispatch-store.ts:90-98 | the clock never reads earlier than the highest time seen, which it raises; a wall clock far behind is reported |
| DispatchStore.Store.AddDelegation | packages/gateway/src/dispatch-store.ts:115-135 | registers a delegation or says the first reason it may not be, leaving everything as it was |
| DispatchStore.Store.Revoke | packages/gateway/src/dispatch-store.ts:154-156 | adds a revocation and never changes an earlier one |
| DispatchStore.Store.ImportRevocations | packages/gateway/src/dispatch-store.ts:160-171 | adds every non-empty id not yet revoked, each at its own clock reading, and counts them |
| DispatchStore.Store.CheckDelegation | packages/gateway/src/dispatch-store.ts:179-197 | the loop answers as the walk from the leaf up to the root |
| DispatchStore.Store.InsertReservation | packages/gateway/src/dispatch-store.ts:214-218 | inserts one row and deletes the budget's old ones, or fails on a taken key |
| DispatchStore.Store.ConsumeApproval | packages/gateway/src/dispatch-store.ts:224-227 | marks an approval used, or fails when it was |
| DispatchGuard.Applicable | packages/gateway/src/dispatch-store.ts:269 | the policies of this actor that name one of its operations, and no others |
| DispatchGuard.FilteredInPlace | packages/gateway/src/dispatch-store.ts:269 | in their order, repeats and all |
| DispatchGuard.ChooseApprovals | packages/gateway/src/dispatch-store.ts:284-325 | the loop that fills both maps makes the greedy choice, local approvals before the workspace's |
| DispatchGuard.RunTransaction | packages/gateway/src/dispatch-store.ts:77-87 | commits the decision's tables, or restores all of them on a denial, a preview or an error |
| DispatchGuard.DecideInPlace | packages/gateway/src/dispatch-store.ts:335-378 | the body of the transaction gives the decision and the tables the specification does |
| DispatchAtomicity.WhatACallCharges | packages/gateway/src/dispatch-store.ts:345-375 | a committed call charges exactly its enforceable policies new to this action group, an enforcing one only with a slot free |
| DispatchAtomicity.WhenReservingSucceeds | packages/gateway/src/dispatch-store.ts:66-69 | reserving fails exactly when a slot is taken by the table or twice by the call |
| DispatchAtomicity.WhatReservingInserts | packages/gateway/src/dispatch-store.ts:214-218 | one row stamped now, with the policy's version, for each charged policy, no other row and no other table |
| DispatchAtomicity.WhatReservingDeletes | packages/gateway/src/dispatch-store.ts:214-218 | only old rows of a charged budget go |
| DispatchAtomicity.WhatConsumingWrites | packages/gateway/src/dispatch-store.ts:220-227 | consuming marks exactly the chosen ids, and fails exactly on a used or repeated one |
| DispatchAtomicity.AllOrNothing | packages/gateway/src/dispatch-store.ts:335-378 | no commit changes nothing at all; a commit consumes exactly the chosen approvals and adds exactly the new slots |
| DispatchAtomicity.WhenATransactionCommits | packages/gateway/src/dispatch-store.ts:335-378 | the exact condition for a commit, over delegation, approvals, enforcing policies and repeated budgets |
| DispatchAtomicity.DenialSpendsNothing | packages/gateway/src/dispatch-store.ts:258-260 | only the last step of a call that ends allowed writes to the approval and reservation tables |
| DispatchAtomicity.ImportTouchesRevocationsOnly | packages/gateway/src/dispatch-store.ts:158-171 | an import is add-only, gives each new id a time it was listed with, and changes no other table |
| DispatchCounted.AllowedAtOnceExactlyWhen | packages/gateway/src/dispatch-store.ts:269-273 | a call is let through at once exactly when no budget policy covers it, none of its actions needs an approval and it names no delegation |
| DispatchCounted.NothingGoesUncounted | packages/gateway/src/dispatch-store.ts:269-378 | in every run, a call allowed under an enforcing policy found it in force, counted before or with a slot free, and has its row in the table; after a commit so has every policy in force |
| DispatchCounted.CommittedWasAdmitted | packages/gateway/src/dispatch-store.ts:345-372 | a committed call was admitted by every enforcing policy it is under: not withdrawn, expired or unacknowledged, with its authority there and the clock in order, and counted before or with a slot free |
| DispatchCounted.CommittedIsCounted | packages/gateway/src/dispatch-store.ts:214-218 | after a commit there is a row for each policy in force, the one there was or one stamped now |
| DispatchAnswers.WhatACallIsTold | packages/gateway/src/dispatch-store.ts:335-400 | what every answer says of the delegation, the approvals and each policy is so, in that order and as far as the first that refuses; when the counter cannot be used the call goes through exactly when nothing is enforced |
| DispatchAnswers.TheCountIsTheTables | packages/gateway/src/dispatch-store.ts:201-218 | after a commit the count told of a policy in force, whose window is not empty, is the number of rows its budget now has in the window, none of the earlier ones deleted |
| DispatchAnswers.CommittedIsSpent | packages/gateway/src/dispatch-store.ts:220-227 | each approval used has its row, with its actor, action, request and group |
| DispatchAnswers.EachStepAnswers | packages/gateway/src/dispatch-store.ts:269-397 | what a call is told that ends before its last transaction: for want of an approval, with an intent nothing was left for; as the workspace answered; or as the preview decided |
| DispatchAnswers.AnswerNamesWhatItUsed | packages/gateway/src/dispatch-store.ts:378-397 | in every run an allowed call names its own approvals in order, then the workspace's |
| DispatchAnswers.TheWorkspaceIsAskedLast | packages/gateway/src/dispatch-store.ts:301-325 | each workspace approval chosen is a presented reference not chosen before, or the active one when all of those are; when the loop stops, nothing was left for an intent and the reason is the right one |
| DispatchRegistered.RegisteredExactlyWhen | packages/gateway/src/dispatch-store.ts:113-135 | a delegation is registered exactly when it is complete, its digest right, current and new, and its parent registered, unrevoked, current, at least as wide and as long-lived; what a refusal says is so |
| DispatchRegistered.EveryRecordWasAdmitted | packages/gateway/src/dispatch-store.ts:113-135 | in every run each record was put there by one registration that met all of that by the tables as they then were |
| DispatchRegistered.WalkTells | packages/gateway/src/dispatch-store.ts:179-197 | a refused walk names a record up the chain, and what it says of it is so |
| DispatchWindow.TableCountIsHistoryCount | packages/gateway/src/dispatch-store.ts:201-218 | deleting old rows never changes a count: the table counts what the full history would |
| DispatchWindow.SlidingWindowBound | packages/gateway/src/dispatch-store.ts:335-378 | under one enforcing policy no window of the full history of charges ever holds more than its maximum, in any interleaving with any clocks |
| DispatchWindow.CountsNeverForget | packages/gateway/src/dispatch-store.ts:201-212 | in every such run the store's count equals the count over the full history |
| DispatchSingleUse.EachApprovalUsedOnce | packages/gateway/src/dispatch-store.ts:220-227 | each approval is consumed by at most one allowing decision, and is marked used exactly when one did |
| DispatchSingleUse.SpentApprovalStaysSpent | packages/gateway/src/dispatch-store.ts:278-283 | a used approval, or one whose expiry the store has seen pass, lets nothing commit again, however the clock is set |
| DispatchSingleUse.WorkspaceSpendIsNotGivenBack | packages/gateway/src/dispatch-store.ts:380-397 | a run in which a workspace approval is spent and the call is then denied |
| DispatchSpending.DeniedAfterASpendExactlyWhen | packages/gateway/src/dispatch-store.ts:335-397 | in every run, a call with a workspace approval spent can be denied by its next step, over all later tables and clocks, exactly when it has another to spend, judges a delegation, a local approval or an enforcing policy again, or counts twice on one budget |
| DispatchApprovals.ChoiceIsSound | packages/gateway/src/dispatch-store.ts:292-324 | each local approval the loop chose is valid for its own intent and used for no other |
| DispatchApprovals.GreedyAssignsIffPossible | packages/gateway/src/dispatch-store.ts:284-325 | without a workspace, and when subjects that share a valid id share them all, the loop succeeds exactly when an assignment exists |
| DispatchGreedy.GreedyIsCompleteExactlyWhen | packages/gateway/src/dispatch-store.ts:284-325 | for given approvals the loop succeeds on every request that has an assignment, in every order they come in, exactly when any two subjects of one request have no valid id in common or all of them |
| DispatchApprovals.OneIdForTwoSubjectsDefeatsGreedy | packages/gateway/src/dispatch-store.ts:298-303 | with one id for two subjects the loop can miss an assignment |
| DispatchApprovals.NoDispatchWithoutApproval | packages/gateway/src/dispatch-store.ts:284-397 | a call reaches its last transaction only with an approval for every intent that needs one, workspace ones already consumed |
| DispatchDelegation.WalkInEveryRun | packages/gateway/src/dispatch-store.ts:179-197 | in every reachable store the walk permits exactly when the chain reaches a root in depth and every record passes |
| DispatchDelegation.WalkIsALeafCheck | packages/gateway/src/dispatch-store.ts:113-135 | when every ancestor's doubled stars are covered that is a check of the leaf and of revocations up the chain |
| DispatchDelegation.ADoubledStarDefeatsTheLeafCheck | packages/gateway/src/dispatch-store.ts:113-135 | a run after which the leaf has the action in scope and the walk refuses it |
| DispatchDelegation.UncoveredStarsDefeatTheLeafCheck | packages/gateway/src/dispatch-store.ts:113-135 | in every run, below any current and unrevoked record with a doubled star that is not covered, a leaf can be registered that passes the check of itself and that the walk refuses |
| DispatchDelegation.EveryRecordHasARoot | packages/gateway/src/dispatch-store.ts:113-135 | every registered delegation has a root above it |
| DispatchDelegation.ShutOffForGood | packages/gateway/src/dispatch-store.ts:153-197 | after a revocation, or an expiry the clock mark has reached, every later call below it whose delegation is checked here is denied and writes nothing |
| DispatchDelegation.RevokedButUnknownIsAskedElsewhere | packages/gateway/src/dispatch-store.ts:327-340 | a run in which a call under a revoked delegation the local store does not know ends allowed |
| DispatchRevoked.RevokedEndsAllowedExactlyWhen | packages/gateway/src/dispatch-store.ts:327-340 | in every run, a call under a delegation shut off here can end allowed exactly when a workspace is configured, the delegation is not registered here, and everything else about the call is in order |
| ActionLifecycle.ReceiptStore.constructor | packages/gateway/src/receipts.ts:872-877 | a new store is empty |
| ActionLifecycle.ReceiptStore.ReserveAction | packages/gateway/src/receipts.ts:888-906 | refuses a known action or a spent id, else records the action and spends its ids |
| ActionLifecycle.ReceiptStore.PrepareDispatch | packages/gateway/src/receipts.ts:907-913 | moves to dispatching exactly from reserved |
| ActionLifecycle.ReceiptStore.FinalizeAction | packages/gateway/src/receipts.ts:914-920 | appends the receipt and sets the final state of any known action |
| ActionLifecycle.ReceiptStore.DuplicateResult | packages/gateway/src/app.ts:483-494 | answers a repeat from the terminal receipt, or throws without one |
| ActionLifecycle.HandleAction | packages/gateway/src/app.ts:350-481 | uninterrupted, the call ends with the store and the answer its steps give |
| ActionLifecycle.HandleStopped | packages/gateway/src/app.ts:350-362 | the stopped path, as its steps |
| ActionLifecycle.Act | packages/gateway/src/app.ts:411-480 | from the last stop check to the answer, as its steps |
| ActionLifecycle.Send | packages/gateway/src/app.ts:431-465 | prepare, send and finalize, as its steps |
| ActionRuns.RunKeepsInv | packages/gateway/src/app.ts:258-555 | what every step of every call, crash and reconciliation keeps of records, owners, counts and answers |
| ActionGuarantees.SentAtMostOnce | packages/gateway/src/app.ts:373-455 | a dispatch executor runs at most once per action id, and only after a plain allow, with outbound on, past the boundary or a stop in force when it would be asked |
| ActionGuarantees.RepeatsAgree | packages/gateway/src/app.ts:483-494 | a repeat answers as the first call did unless a reconciliation called the action unstarted, and then only more freely |
| ActionGuarantees.RepeatNowAgreesExactlyWhen | packages/gateway/src/app.ts:483-494 | a repeat would agree now exactly when the call was let through or its terminal receipt does not call it unstarted |
| ActionUnstarted.UnstartedIsWrongExactlyWhen | packages/gateway/src/app.ts:516-555 | as a reconciliation settles that calls its action unstarted, the record names an adapter exactly when the action was or will be sent in some run that leaves the store as it is |
| ActionUnstarted.UnpreparedIsNeverSent | packages/gateway/src/app.ts:516-555 | with no adapter named the action was not sent and no continuation sends it |
| ActionUnstarted.PreparedMeans | packages/gateway/src/app.ts:431-439 | with one it was sent, its call is about to send it, or its call stopped in between |
| ActionUnstarted.SentAroundSettlingExactlyWhen | packages/gateway/src/app.ts:516-555 | in the run itself it was or can still be sent exactly when it had been, or its call stood between preparing and sending |
| ActionUnstarted.UnsentForever | packages/gateway/src/app.ts:431-438 | an action past reserved with no call at sending is never sent in any continuation |
| ActionCharges.EachActionIsChargedOnce | packages/gateway/src/receipts.ts:880-887 | when finalizations find records as they were read, no action is charged twice and a sent one is charged unless its adapter said it failed |
| ActionCharges.ChargedTwiceExactlyWhen | packages/gateway/src/receipts.ts:880-920 | in any run an action is charged more than once at some point exactly when some finalization, a call's or a reconciliation's, writes an execution or an unknown outcome of it although its execution is on record |
| ActionCharges.NextChargesTwiceExactlyWhen | packages/gateway/src/receipts.ts:914-920 | after finalizations that found their records as read, the next event charges an action twice exactly when it finalizes it so although its record is finalized as executed |
| ActionGuarantees.EachAuthorizationUsedOnce | packages/gateway/src/receipts.ts:888-906 | a request or approval id belongs to at most one action in every run |
| ActionOutcomes.ReconciledAlone | packages/gateway/src/app.ts:516-555 | a reconciliation on its own records what the adapter says, executed or failed, an unstarted action as failed and unstarted, and else nothing; and what that charges |
| ActionOutcomes.WhatACallRecords | packages/gateway/src/app.ts:350-481 | every call on its own on a new id: the state it records, the answer it gives and what it charges, for each way of ending |
| ActionOutcomes.WhatTheStopsDecide | packages/gateway/src/app.ts:384-417 | a denial is overridden, the boundary asked and the act begun only while the stop is off at each of the three times it is read |
| ActionRaces.ASentActionIsCalledUnstarted | packages/gateway/src/app.ts:516-555 | a run in which a sent action ends failed, unstarted and uncharged |
| ActionRaces.TwoReconciliationsChargeTwice | packages/gateway/src/app.ts:516-555 | a run in which one sent action is charged twice |
| ActionRaces.TheCallItselfChargesTwice | packages/gateway/src/app.ts:431-465 | a run in which one reconciliation and the call's own finalization charge one sent action twice, whether the call saw it executed or not |
| ActionRaces.ALiftedStopPassesTheBoundary | packages/gateway/src/app.ts:391-417 | a run in which an action the boundary would refuse is sent without asking it |
| ActionBoundary.RefusedIsSentExactlyWhenStopped | packages/gateway/src/app.ts:391-417 | a call at a boundary that would refuse it is sent in some continuation exactly when a stop is in force there and it could otherwise be sent |
| ActionRaces.ARepeatIsToldYesAfterANo | packages/gateway/src/app.ts:483-555 | a run in which the first call is refused and its repeat let through |
| ActionRaces.UninterruptedCall | packages/gateway/src/app.ts:350-481 | what any uninterrupted call on a new id answers, and that an overridden denial for dispatch throws with no receipt |
| ActionRaces.AnOverriddenDenialThrows | packages/gateway/src/app.ts:373-392 | a dispatch denial that a person overrides throws and leaves no terminal receipt |
| MerkleV1.MerkleRoot | packages/gateway/src/anchor.ts:14-28 | the loops compute the root of the self-pairing tree |
| MerkleV1.MerkleProof | packages/gateway/src/anchor.ts:33-51 | the loops compute the sibling list, none for an index outside |
| MerkleV1.VerifyProof | packages/gateway/src/anchor.ts:54-58 | accepts exactly when folding the steps from the leaf gives the root |
| MerkleV1.EveryProofVerifies | packages/gateway/src/anchor.ts:31-58 | every generated proof verifies and has one step per level |
| MerkleV1.VerifiedLeafIsThere | packages/gateway/src/anchor.ts:53-58 | with an injective hash a verifying proof of the tree's height shows its leaf is one of the leaves |
| MerkleV1.RootBindsTheList | packages/gateway/src/anchor.ts:12-28 | two lists of one length with one root are equal |
| MerkleV1.RepeatedTailKeepsTheRoot | packages/gateway/src/anchor.ts:12-28 | the length is needed: repeating the last of an odd number of leaves keeps the root |
| MerkleV1.SmallTrees | packages/gateway/src/anchor.ts:12-28 | the trees of up to three leaves, written out |
| Rfc9162.FindSplitPoint | packages/verify/src/anchor.ts:177-181 | the loop finds the largest power of two below n |
| Rfc9162.RootUp | packages/verify/src/anchor.ts:183-201 | the recursive tree has the root of the tree over its paired-up level |
| Rfc9162.PathUp | packages/verify/src/anchor.ts:203-209 | an audit path is the siblings met going up level by level |
| Rfc9162.VerifyInclusionProof | packages/verify/src/anchor.ts:220-246 | the loop accepts exactly when climbing the path reaches the root with nothing left over |
| Rfc9162.InclusionComplete | packages/verify/src/anchor.ts:203-246 | every inclusion proof verifies |
| Rfc9162.InclusionSound | packages/verify/src/anchor.ts:220-246 | an accepted path starts from the leaf at that index and is the one proof there is |
| Rfc9162.VerifyConsistencyProof | packages/verify/src/anchor.ts:270-302 | the loops accept exactly when the path reaches both roots, with the cases of empty and equal sizes |
| Rfc9162.SubproofIsAPath | packages/verify/src/anchor.ts:248-254 | the proof of a prefix ending in a left node is that node and its audit path |
| Rfc9162.ConsistencyComplete | packages/verify/src/anchor.ts:256-302 | every consistency proof verifies against both roots |
| Rfc9162.AcceptedMeansPrefix | packages/verify/src/anchor.ts:270-302 | an accepted proof between two roots means the first list is a prefix of the second |
| Rfc9162.ConsistencyMeansPrefix | packages/verify/src/anchor.ts:267-302 | some proof is accepted exactly when the first list is a prefix of the second |
| Rfc9162.RootBindsTheLeaves | packages/verify/src/anchor.ts:196-201 | two lists of one length with one root are equal |
| Rfc9162.OneConsistencyProof | packages/verify/src/anchor.ts:256-302 | two sizes and roots are proved consistent by one proof at most, the one the tree gives |
| Rfc9162.SmallTrees | packages/verify/src/anchor.ts:183-201 | the trees of up to three leaves and of five, written out |
| AnchorLog.OneListPerAnchor | packages/verify/src/anchor.ts:323-341 | an anchor commits to one list, whichever tree it uses |
| AnchorLog.Store.MakeAnchor | packages/gateway/src/app.ts:617-647 | makes the next anchor over the receipts, or refuses when they no longer begin with the last one's |
| AnchorLog.AnAnchorSays | packages/gateway/src/app.ts:617-647 | an anchor carries the size and root of the receipts, the time, the next number and the last hash, and its own hash; it is refused exactly when the log no longer begins with what the last one committed to |
| AnchorLog.EveryAnchorExtendsItsParent | packages/gateway/src/app.ts:617-647 | in every interleaving each anchor names the last one it saw, is one further, never smaller, and extends its list |
| AnchorLog.SequenceRisesExactlyWhenNoneOvertaken | packages/gateway/src/app.ts:621-645 | sequence numbers rise by one exactly when no put overtakes another call's |
| AnchorLog.OneGrowingLog | packages/gateway/src/app.ts:613-647 | then each anchored list is a prefix of every later one, whatever the store did in between |
| AnchorLog.ConsistencyBetweenAnchors | packages/gateway/src/app.ts:793-813 | the proof served between two anchors verifies, and any accepted one means a prefix |
| AnchorLog.TwoOverlappingCallsForkTheLog | packages/gateway/src/app.ts:617-647 | two overlapping calls put two anchors with one number, the second smaller |
| AnchorLog.LastHashBindsTheLog | packages/gateway/src/app.ts:629-644 | the last anchor's hash fixes every anchor before it |
| LeafCache.Cache.constructor | packages/gateway/src/app.ts:734 | the cache starts empty |
| LeafCache.Cache.Extend | packages/gateway/src/app.ts:736-744 | the loop extends leaves and index to the wanted size or the end of the log, faithfully |
| LeafCache.Cache.AnchoredLeaves | packages/gateway/src/app.ts:745-754 | one caller alone gets the first leaves, or none exactly when the log is shorter |
| LeafCache.AnswersAgreeWithTheLog | packages/gateway/src/app.ts:730-754 | with any number of callers the cache stays a faithful prefix, answers equal re-hashing, rounds are bounded, and only a caller that joined too late is told too short wrongly |
| LeafCache.ToldTooShortExactlyWhenLate | packages/gateway/src/app.ts:746-752 | a call that waits for leaves the log has, in any round, can be told too short after that wait exactly when nothing was added since it began and its pass is over, or settled and not cleared, without an error |
| LeafCache.JoinerToldTooShortExactlyWhenLate | packages/gateway/src/app.ts:746-752 | a new call for leaves the log has can be told so after its first wait exactly when the extension it joins has settled and is not cleared |
| LeafCache.AJoinerMayBeToldTooShort | packages/gateway/src/app.ts:746-752 | a run in which a joiner is told too short though the log was long enough |
| LeafCache.PublicProofVerifies | packages/gateway/src/app.ts:767-779 | the index gives a leaf's first position in the anchored part, or none exactly when it is not there, and the proof made verifies |
| ReplayWindow.ReceiptLog.AuthorizationUsed | packages/gateway/src/node-stores.ts:334-342 | an action has consumed the id, or some receipt from the time on names it |
| ReplayWindow.ReceiptLog.UsedAuthorizations | packages/gateway/src/app.ts:234-256 | the request's ids consumed or used inside the window, or all ids of the whole log |
| ReplayWindow.ReceiptLog.Handle | packages/gateway/src/app.ts:215-228 | one call is accepted exactly when it is well formed, its signatures hold, its times are in order and its ids unused; it appends a receipt of just that and consumes the ids |
| ReplayWindow.AcceptedExactlyWhen | packages/gateway/src/auth.ts:228-267 | the exact condition for accepting, over shape, signatures, times and used ids, what the receipt then says, and that what each refusal says is so |
| ReplayWindow.AcceptedForGood | packages/gateway/src/app.ts:215-256 | after a call is accepted none with its request id or its approval id is accepted again, at any time and under any configuration |
| ReplayWindow.StillFreshMeansInWindow | packages/gateway/src/auth.ts:191-199 | what was accepted before and is fresh again was used inside the window, whichever way clock and configuration moved |
| ReplayWindow.WindowIsExact | packages/gateway/src/app.ts:237-238 | that holds for all envelopes exactly when the skew allowed then, with the shorter of both lifetimes, is within the window now, or no envelope is fresh now |
| ReplayWindow.ASkewCutByTwoHoursLosesAUse | packages/gateway/src/app.ts:237-238 | an envelope used before the window of a configuration whose skew was cut, and fresh again |
| ReplayRuns.NoneAcceptedTwice | packages/gateway/src/node-stores.ts:334-342 | no signed authorization or approval is used twice in any run of calls in steps, crashes and upkeep, as long as nothing was removed from a call's bound on and the clock did not go back within the call |
| ReplayRuns.TwiceExactlyWhen | packages/gateway/src/node-stores.ts:626-646 | an envelope is used again after upkeep exactly when it is fresh both times, was used before the cutoff, and its receipt went too or is not read |
| ReplayRuns.UsedAgainExactlyWhen | packages/gateway/src/node-stores.ts:626-646 | some envelope can be, exactly when the cutoff is past the earliest time at which what is fresh now can have been used |
| ReplayRuns.AClockSetAheadForgetsAUse | packages/gateway/src/node-stores.ts:680-690 | a run in which the clock is set eight days ahead for one upkeep and back, and an envelope is used again |
| ReplayWindow.BoundedDecidesLikeTheFullScan | packages/gateway/src/app.ts:230-256 | for ids used by the same envelope only, the bounded lookup decides as a scan of the log and the consumed ids |
| ReplayWindow.UninterruptedConsumesWhatReceiptsName | packages/gateway/src/node-stores.ts:423-428 | calls that finish consume only ids their receipts name, so both decide alike |
| ReplayRuns.IndexedLookupIsRight | packages/gateway/src/node-stores.ts:330-369 | in every run the lookup finds every consumed id, and every use from a time on from which nothing was removed, and answers yes only for an id consumed or named by some receipt |
| ReplayRuns.Tables.AuthorizationUsed | packages/gateway/src/node-stores.ts:334-342 | consumed ids, then the index, then receipts from before it |
| ReplayRuns.Tables.ReserveAction | packages/gateway/src/node-stores.ts:389-428 | refuses a known action or a consumed id, else inserts the action and its ids |
| ReplayRuns.Tables.FinalizeAction | packages/gateway/src/node-stores.ts:457-474 | inserts the receipt, whose trigger stamps the ids it names, and sets the state |
| ReplayRuns.Tables.RemoveFinishedState | packages/gateway/src/node-stores.ts:626-640 | removes finished actions by age with the ids they consumed |
| ReplayRuns.Tables.RemoveAuthorizationIds | packages/gateway/src/node-stores.ts:641-647 | removes index rows by age |
| ReplayRuns.Tables.RemoveReceipts | packages/gateway/src/node-stores.ts:590-619 | removes receipts by age, in order |
| ReplayRuns.WhatIsRecorded | packages/gateway/src/node-stores.ts:389-474 | what a reservation and its finalization leave in each table |
| ReplayRuns.WhatUpkeepTakes | packages/gateway/src/node-stores.ts:626-640 | upkeep takes just actions that are not held and old enough, with the ids they consumed |
| ReplayRuns.HeldIsKept | packages/gateway/src/node-stores.ts:626-640 | in any run a held action keeps its row and its ids until it is finalized |
| ReplayRuns.IndexIsCompleteFrom | packages/gateway/src/node-stores.ts:343-369 | the index is complete from the start of an empty store, else from when it was made or from the latest receipt |
| Octal.ValueOfPadded | packages/agent/src/tgz.ts:14-17 | padded octal digits have the value they were made from |
| Octal.ParsesDigits | packages/agent/src/tgz.ts:74-82 | digits are read back whole |
| Octal.ReadsUpToANonDigit | packages/agent/src/tgz.ts:74-82 | a sign counts, reading stops at the first other character, and without a digit there is no number |
| Octal.BlanksAreTrimmed | packages/agent/src/tgz.ts:74-82 | white space around digits is trimmed away |
| Tar.WriteFields | packages/agent/src/tgz.ts:19-26 | the fields as written in place, a long size cut off by the time field |
| Tar.WriteHeader | packages/agent/src/tgz.ts:19-35 | the buffer ends as the specified header, checksum included |
| Tar.HeaderIsUstar | packages/agent/src/tgz.ts:19-35 | every field of the header, written out, but for size and checksum |
| Tar.FlatNamesAre | packages/agent/src/tgz.ts:11-12 | a flat name has at most a hundred characters, no separator and no leading dot |
| Tar.SumFits | packages/agent/src/tgz.ts:31-33 | the checksum always fits six octal digits |
| Tgz.PackTar | packages/agent/src/tgz.ts:38-50 | the entries in order and the end marker, or an error exactly for names that are not flat or not distinct |
| Tgz.PackTgz | packages/agent/src/tgz.ts:38-50 | the same, compressed |
| Tgz.ReadNext | packages/agent/src/tgz.ts:70-89 | one header is a file, or the first reason to refuse |
| Tgz.UnpackTar | packages/agent/src/tgz.ts:65-92 | the loop gives what the specification does, and ends |
| Tgz.UnpackTgz | packages/agent/src/tgz.ts:60-92 | the same from compressed bytes with the output limit |
| Tgz.UnpackedIsSound | packages/agent/src/tgz.ts:58-92 | for any bytes a returned list has distinct flat names, keeps both limits, and is slices of the archive one right after another, each behind its own checked header of a regular file, with a block of nulls behind the last |
| Tgz.RefusalTells | packages/agent/src/tgz.ts:65-92 | for any bytes, a refusal is of the header or the end right behind sound files, and what it says is so |
| Tgz.NoSizeIsZero | packages/agent/src/tgz.ts:82-83 | a header with nothing in its size field is of an empty file |
| Tgz.HeaderChecksum | packages/agent/src/tgz.ts:31-33 | a written header's checksum reads back as right |
| Tgz.SizeReadsBack | packages/agent/src/tgz.ts:82-83 | a size reads back exactly below 8 to the twelfth, else as something smaller |
| Tgz.TarLength | packages/agent/src/tgz.ts:64 | the output limit never refuses an archive within the limits; an archive is whole blocks, the last two null |
| Tgz.UnpackingWhatWasPacked | packages/agent/src/tgz.ts:37-92 | unpacking a packed list gives exactly it when and only when every size is below 8 to the twelfth |
| Tgz.OneByteTooMany | packages/agent/src/tgz.ts:19-26 | a file of exactly 8 to the twelfth bytes does not come back |
| ToolSettingsFile.Desired | packages/agent/src/tool-settings.ts:213-222 | the loops collect each setting's wanted entries without repeats, in order |
| ToolSettingsFile.MergeList | packages/agent/src/tool-settings.ts:263-266 | stale entries filtered out, missing ones appended and recorded |
| ToolSettingsFile.SettingsFile.MergeAt | packages/agent/src/tool-settings.ts:256-271 | one list merged in place, created and removed as the record says |
| ToolSettingsFile.SettingsFile.MergeLists | packages/agent/src/tool-settings.ts:255-271 | all lists in turn |
| ToolSettingsFile.SettingsFile.KeepRecords | packages/agent/src/tool-settings.ts:246-254 | what stays recorded when nothing is written |
| ToolSettingsFile.SettingsFile.Inspect | packages/agent/src/tool-settings.ts:232-240 | where something is missing, and whether anything is stale |
| ToolSettingsFile.SettingsFile.Apply | packages/agent/src/tool-settings.ts:204-290 | the whole pass with its refusals leaves file and record as specified |
| ToolSettings.ListsAfterWriting | packages/agent/src/tool-settings.ts:168-178 | writing a list changes that list only |
| ToolSettings.ListsAfterRemoving | packages/agent/src/tool-settings.ts:180-186 | removing a list changes that list only |
| ToolSettingsRuns.MergedStaysOwn | packages/agent/src/tool-settings.ts:255-271 | a merge keeps the list as what was there with what was placed behind it |
| ToolSettingsRuns.EachListIsMerged | packages/agent/src/tool-settings.ts:255-271 | each list is merged on its own, whatever the order |
| ToolSettingsRuns.ListsComeBack | packages/agent/src/tool-settings.ts:19-21 | without outside edits, once nothing is remembered every list reads as at the start |
| ToolSettingsRuns.UnnamedIsForgotten | packages/agent/src/tool-settings.ts:285-288 | a pass that no longer names the tool makes the agent forget it |
| ToolSettingsRuns.FileComesBack | packages/agent/src/tool-settings.ts:180-186 | then the whole file is as it was, or lost only an empty object for permissions |
| ToolSettingsRuns.FileComesBackExactlyUnless | packages/agent/src/tool-settings.ts:180-186 | it always comes back whole exactly when it had no such empty object |
| ToolSettingsRuns.AnEmptyObjectGoes | packages/agent/src/tool-settings.ts:180-186 | one rule placed and removed takes an empty object for permissions with it |
| ToolSettingsRuns.OnlyWhatWasPlacedIsTouched | packages/agent/src/tool-settings.ts:246-271 | with outside edits a pass touches only entries whose key the agent placed there, removes only lists it created, and keeps the rest |
| ToolSettingsWanted.NamedIsInTheFile | packages/agent/src/tool-settings.ts:83-101 | once a section is reported applied, each value of each list it names is in the file where that tool reads it and as it reads it |
| ToolSettingsWanted.EachEntryExactlyWhen | packages/agent/src/tool-settings.ts:224-290 | in any run with outside edits, after a completed pass a setting holds exactly what the section puts there and what was there and not placed by the agent; a person's own entry never counts as placed |
| ToolSettingsWanted.ReportedExactlyWhen | packages/agent/src/tool-settings.ts:204-290 | when a pass reports a drift and where, when a section counts as applied, when each refusal is given, and that nothing changes otherwise |
| ToolSettingsWanted.WantedOnce | packages/agent/src/tool-settings.ts:213-222 | however often a value is named it is wanted once in a place |
| Launchers.XmlReadsBack | packages/agent/src/autostart.ts:21 | every path comes back from the property list's three replacements |
| Launchers.PlistReadsBack | packages/agent/src/autostart.ts:396-398 | every path is read back from a whole property list in which the arguments' key begins nowhere before |
| Launchers.ExecStartReadsBack | packages/agent/src/autostart.ts:160-169 | every path comes back from its quoted line, with blanks behind it or none |
| Launchers.UnitReadsBack | packages/agent/src/autostart.ts:171-187 | every path is read back from a whole unit |
| Launchers.CliReadsBack | packages/agent/src/migrate.ts:90-94 | every agent path is read back from a whole shell launcher whose Node path is on one line |
| EngineVersions.Agent.RollBack | packages/agent/src/engine-update.ts:126-133 | marks the bundle bad and returns to the previous one when usable, else to the baseline |
| EngineVersions.Agent.Install | packages/agent/src/engine-update.ts:157-220 | what an attempt changes: nothing, the bad list, or the bundle in use |
| EngineVersions.Agent.Maintain | packages/agent/src/engine-update.ts:223-267 | one pass, as specified |
| EngineVersions.BadIsNeverUsedAgain | packages/agent/src/engine-update.ts:65-79 | a bad version is never in use again, the one before is always older, and what is in use is newer than the baseline |
| EngineVersions.FallsOnlyByRollback | packages/agent/src/engine-update.ts:222-267 | the engine in use becomes older exactly by rollback or return to the baseline |
| EngineVersions.RolledBackAtMostOnce | packages/agent/src/engine-update.ts:124-133 | each version is rolled back at most once |
| EngineVersions.Older | packages/hook/src/engine-shim.ts:52-57 | the minor number outranks any patch number, and the major any minor |
| EngineVersions.RollsBackExactlyWhen | packages/agent/src/engine-update.ts:124-248 | a bundle in use newer than the baseline is rolled back exactly when it fails to start or does not check out; it is bad from then on, and the one before it returns exactly when it is usable |
| EngineVersions.InstallsExactlyWhen | packages/agent/src/engine-update.ts:222-267 | a bundle that is named, newer than the baseline and than what is in use, and not bad comes into use exactly when its attempt passes, the former one behind it; one that was tried and failed is bad |
| EngineVersions.OnlyADueBundleIsInstalled | packages/agent/src/engine-update.ts:222-267 | nothing else is ever installed |
| EngineVersions.StaysExactlyWhen | packages/agent/src/engine-update.ts:222-267 | when the bundle in use stays in use, and when the baseline is returned to |
| EngineVersions.RecommendedComesIntoUse | packages/agent/src/engine-update.ts:222-267 | after any run a due bundle that passes comes into use, stays through any passes that let it, and is rolled back and bad the first time it fails |
| LivePrompt.Prompt.StartNext | packages/agent/src/live-prompt.ts:111-128 | the next question goes to the tray, replacing what was pending, to the window or to no one |
| LivePrompt.Prompt.AnswerForm | packages/agent/src/live-prompt.ts:151-171 | a form is refused with its reason or finishes the question |
| LivePrompt.Prompt.Finish | packages/agent/src/live-prompt.ts:91-95 | clears the question's timer, and what is pending if that is the question, and resolves it |
| LivePrompt.Prompt.FireTimer | packages/agent/src/live-prompt.ts:125-126 | a deadline denies the question only while it is the pending one |
| LivePrompt.Prompt.Close | packages/agent/src/live-prompt.ts:172-176 | closing resolves the pending question as unavailable |
| LivePrompt.EachQuestionIsResolvedOnce | packages/agent/src/prompt.ts:343-352 | behind the serializer nothing is pending when a question starts, each is resolved exactly once or is the last and still being asked, the tray's with a timer that would resolve it, and only by what was offered with a long enough reason |
| LivePrompt.ResolvedAtMostOnce | packages/agent/src/live-prompt.ts:91-95 | with the serializer or without no question is resolved twice |
| LivePrompt.OvertakenIsLostExactlyInTheTray | packages/agent/src/live-prompt.ts:111-128 | in any run, with the serializer or without, a question that is not pending and not resolved never is exactly when it was asked in the tray |
| LivePrompt.AnOvertakenQuestionIsLost | packages/agent/src/live-prompt.ts:121-127 | a run without the serializer in which a question is replaced and then never resolved |
| LivePrompt.SerializedIsNeverOvertaken | packages/agent/src/prompt.ts:343-352 | behind the serializer no question in the tray is replaced |
| LivePrompt.TrayResolvesExactlyWhen | packages/agent/src/live-prompt.ts:91-176 | in any run the question in the tray is resolved exactly by a form with an offered choice and a reason within the limits, with that choice and reason, by its deadline as denied, or by the close as unavailable |
| LivePrompt.ToldExactlyWhen | packages/agent/src/live-prompt.ts:151-171 | when each refusal of a form is given, and that it changes nothing |
| LivePrompt.AskedWhereExactlyWhen | packages/agent/src/live-prompt.ts:48-128 | a tray is asked exactly while it waits or for less than five seconds after, else the window where it may open, else no one; a question that waited past its deadline is not asked |
| GroupBlocks.GroupAll | packages/agent/src/tray-model.ts:162-185 | the loop with its key map makes the specified rows |
| GroupBlocks.GroupingIsAPartition | packages/agent/src/tray-model.ts:160-185 | rows split the blocks, in order, shared exactly by today's blocks of one key, and tries are conserved |
| GroupBlocks.SharedExactlyWhen | packages/agent/src/tray-model.ts:168-181 | two blocks share a row exactly when both can be dated, neither is from before midnight, and their keys are the same |
| GroupBlocks.OneBlock | packages/agent/src/tray-model.ts:168-181 | what a row of one block says: today or not, its tries and its first time |
| GroupBlocks.FirstTimeExactlyWhen | packages/agent/src/tray-model.ts:171-177 | a row's first time is the earliest readable one exactly when its first member's can be read or none can |
| GroupBlocks.AnUnreadableFirstTimeHidesTheNext | packages/agent/src/tray-model.ts:171-177 | a row of two blocks that shows no first time although the second has one |

## Left out

- SQLite, files, HTTP, timers and processes: tables are maps changed by one transaction at a time, and what the
  disk, the network and other programs answer is a parameter.
- Signatures, SHA-256, key registries and canonical JSON: given as checked or not, or as injective functions.
- gzip: an inverse pair with an output limit.
- The policy evaluator and the prior receipts it reads: a verdict given to each call.
- The workspace's delegation cache and its answers' bodies: one verdict per call.
- Stores without reservations, and receipts put outside them (`observeAction`): they dispatch nothing.
- The lifecycle rows SQLite keeps apart from the in-memory records, and its separate kinds of spent ids: modelled
  as the in-memory store, which keeps one map for both kinds.
- AnchorLog.Store.MakeAnchor: appends, as the in-memory and key-value stores do; the SQLite table keyed by sequence
  number agrees with it while sequence numbers rise.
- AnchorLog.OneGrowingLog: attester, signature and timestamp format of an anchor are not modelled.
- LeafCache.AnswersAgreeWithTheLog: callers of the two routes are one kind of call; the cache of consistency proofs
  is not modelled.
- Rfc9162.VerifyInclusionProof: digests and sizes as read; malformed ones, which the code refuses first, are not
  modelled. Positions count from the start of the whole list, where the code counts within the subtree.
- Rfc9162.VerifyConsistencyProof: likewise for malformed digests and sizes.
- ReplayWindow.ReceiptLog.Handle: one call uninterrupted, without the reservation's own refusal and without upkeep,
  which are in `ReplayRuns`.
- ReplayRuns.NoneAcceptedTwice: calls have numbers of their own, where the code names an action after its request id,
  which is refused and forgotten with it; receipts put without a reservation are not modelled.
- ReplayWindow.ReceiptLog.AuthorizationUsed: compares times, where the store compares ISO text; the margin in the
  window is for that.
- ActionLifecycle.HandleAction: receipt bodies beyond id, state and the unstarted mark, and the texts of reasons.
- Tar.WriteHeader: for sizes a buffer can have, up to the largest safe integer.
- ToolSettingsFile.SettingsFile.Apply: entries carry their comparable key; reports carry no times; a pass that
  finds the file changed reports nothing instead of its earlier report.
- ToolSettings.Place: the two tools and four lists the code knows, with paths instead of dotted names.
- Launchers.UnitReadsBack: the fixed lines around the path are parameters, none of which begins like the line
  read; likewise for the shell launcher and the property list. Windows launchers are left out.
- EngineVersions.Agent.Install: download, manifest, staging and vectors are one answer of three.
- LivePrompt.EachQuestionIsResolvedOnce: a window that throws instead of answering is not modelled, nor is the queue
  of windows among themselves: each answers at some time. A timer may fire at any time while it is set.
- GroupBlocks.GroupAll: rows are values updated by position, where the code changes shared objects.
- The agent lock, tool discovery, health, tray texts, update retries, autostart entries themselves and the window
  scripts: each branch is read off directly.
