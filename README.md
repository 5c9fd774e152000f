# Lecturer claims: status lifecycle model

This project models the core of a lecturer claims web application. A
lecturer submits a monthly claim (hours × rate, optional notes, an optional
supporting document). Programme coordinators, academic managers and HR then
move the claim between the statuses Pending, UnderReview, Approved,
Rejected and Paid. Every move goes through the claim's `UpdateStatus`, which
stamps the review and approval fields and appends one record to the
claim's status history. The one exception is the approvals controller,
which writes the fields directly.

The model covers these parts:

- **Claim entity, both variants.** `ClaimLifecycle` is the current variant
  and `LegacyClaim` the earlier one. Each is a class whose methods update
  fields in place. The methods are proved against a pure transition
  function on a snapshot datatype (`State()`), and the lifecycle properties
  are lemmas about those functions.
- **Status history display** (`StatusHistory`): the "old → new" label,
  which provably reads back, and the "time ago" bucketing.
- **Guards and actions of the reviewing controllers**:
  - `ReviewActions` holds the shared lookup, guard and executor code.
  - `AcademicManager`, `ProgrammeCoordinator` and `HumanResources` are the
    three reviewing controllers.
  - `Approvals` writes claim fields directly.

  A store of claims is a `seq` of claim objects. Each action is proved to
  have one of two effects:
  - on a refusal, every claim is unchanged;
  - otherwise exactly the found claim takes exactly one `UpdateStatus` step.
- **List filters and orderings** of the reviewing controllers (`ClaimQueries`).
- **Upload policy, content types and document access** of the claims
  controller (`ClaimsController`), and the document helpers (`Documents`).
- **Form bounds** (`ViewModels`), the dashboard badge (`Dashboard`), and the
  report aggregates (`Aggregates`, `ClaimReports`, `HRReports`,
  `ComprehensiveReports`).

Representation choices:

- Times are .NET ticks (100 ns) as integers. A `(int)` cast of
  `TotalDays`, `TotalHours` or `TotalMinutes` is truncation toward zero
  (`TruncDiv`).
- Money and hours are exact reals.
- A nullable string is an `Option<string>`, and a GUID is a natural number.
- `DateTime.Now`, `Guid.NewGuid()` and the signed-in user's name are
  parameters (`now`, `historyId`/`hid`, `actor`).

Two gaps in the code's bookkeeping. The model follows the code and
proves each one:

- `UpdateStatus` sets `ApprovalDate` on Approved and Rejected and never
  clears it, so a claim approved and then sent back to UnderReview keeps
  its approval date. `ClaimLifecycle.ApprovalDateSurvivesReopening`
  proves this.
- `ApprovalsController` writes the status without a history record, so
  any real change it makes leaves the log inconsistent with the status.
  `Approvals.DirectDecisionBreaksHistory` proves this. Every action that
  goes through `UpdateStatus` keeps the log consistent: see the
  `HistoryStillExplains` postconditions and
  `ClaimLifecycle.RunKeepsHistoryExplaining`.

## Model

| member | source | states |
|---|---|---|
| ClaimStatuses.Code | WebApplication1/Models/ClaimModel.cs:172-179 | the enumeration's underlying values are 0..4 in declaration order |
| ClaimStatuses.FromCode | WebApplication1/Models/ClaimModel.cs:172-179 | an integer names a member iff it is in 0..4, and then that member's value is the integer |
| ClaimStatuses.NameRoundTrip | WebApplication1/Models/ClaimModel.cs:172-179 | reading a status's name back gives the same status (names are distinct) |
| ClaimStatuses.ParseStatusCode | WebApplication1/Controllers/AcademicManagerController.cs:258-262 | `Enum.TryParse` gives a member's value for its identifier |
| ClaimStatuses.ParseName | WebApplication1/Controllers/AcademicManagerController.cs:258-262 | every member's identifier parses to that member |
| ClaimLifecycle.ClaimState.ProcessingTime | WebApplication1/Models/ClaimModel.cs:78-84 | processing time is absent iff the approval date is, and otherwise added to the submission date it gives the approval date |
| ClaimLifecycle.ClaimState.CalculatedProcessingDays | WebApplication1/Models/ClaimModel.cs:159-169 | present iff the claim is Approved with an approval date, and then the whole days (truncated) of the processing time |
| ClaimLifecycle.BadgeClassOfCode | WebApplication1/Models/ClaimModel.cs:102-110 | an underlying value that names a member gets that member's class |
| ClaimLifecycle.BadgeClassDistinct | WebApplication1/Models/ClaimModel.cs:102-110 | the five statuses get five distinct classes, none of them the default bg-secondary |
| ClaimLifecycle.BadgeClassDefault | WebApplication1/Models/ClaimModel.cs:102-110 | bg-secondary exactly for values outside 0..4 |
| ClaimLifecycle.TransitionAcceptsAnyTarget | WebApplication1/Models/ClaimModel.cs:121-127 | no target is refused, the current one included; the status becomes the target and the last-update date becomes now |
| ClaimLifecycle.TransitionAppendsOneRecord | WebApplication1/Models/ClaimModel.cs:145-154 | exactly one record is appended, old records keep their values and order, and the new one goes from the prior status to the target with the notes, time, claim id and record id |
| ClaimLifecycle.TransitionRecordsActor | WebApplication1/Models/ClaimModel.cs:128-151 | `ReviewedBy`, `ApprovedBy` (when written) and the record author are the actor or "Unknown"; review notes are the notes |
| ClaimLifecycle.TransitionApprovalFields | WebApplication1/Models/ClaimModel.cs:131-136 | approval date, approver and approval notes are written for Approved and Rejected and unchanged for any other target |
| ClaimLifecycle.TransitionStoredDays | WebApplication1/Models/ClaimModel.cs:138-141 | stored processing days become the truncated whole days since submission on Approved (agreeing with `CalculatedProcessingDays`), and are unchanged otherwise |
| ClaimLifecycle.TransitionFrame | WebApplication1/Models/ClaimModel.cs:121-155 | no field outside the status, the review and approval mirrors, the stored days and the log changes |
| ClaimLifecycle.RunHistory | WebApplication1/Models/ClaimModel.cs:145-154 | after N updates the log holds N more records, the earlier ones untouched; record k goes from the status before update k to its target, with its notes and time |
| ClaimLifecycle.TransitionKeepsHistoryExplaining | WebApplication1/Models/ClaimModel.cs:121-155 | if the log, read from Pending, chains to the current status, it still does after an update |
| ClaimLifecycle.RunKeepsHistoryExplaining | WebApplication1/Models/ClaimModel.cs:121-155 | the same for any sequence of updates |
| ClaimLifecycle.ApprovalDateSurvivesReopening | WebApplication1/Models/ClaimModel.cs:131-136 | after Approved then Pending or UnderReview, the claim is in the later status and still carries the first approval date |
| ClaimLifecycle.RepeatedApprovalIsRecordedTwice | WebApplication1/Models/ClaimModel.cs:121-155 | approving twice appends two records, the second from Approved to Approved, and moves the approval date |
| ClaimLifecycle.WithCalculatedTotal | WebApplication1/Models/ClaimModel.cs:116-119 | the total becomes hours × rate and no other field changes |
| ClaimLifecycle.Claim.constructor | WebApplication1/Models/ClaimModel.cs:9-73 | a new claim is Pending with no decision, no review, empty lists and a log that explains its status |
| ClaimLifecycle.Claim.CalculateTotalAmount | WebApplication1/Models/ClaimModel.cs:116-119 | the object's new state is `WithCalculatedTotal` of its old state |
| ClaimLifecycle.Claim.UpdateStatus | WebApplication1/Models/ClaimModel.cs:121-155 | the object's new state is `Transition` of its old state; the status is the target and the log is the old log plus one record |
| LegacyClaim.LegacyState.ProcessingTime | WebApplication1/WebApplication1/Models/ClaimModel.cs:65-71 | absent iff the approval date is absent, else approval date minus submission date |
| LegacyClaim.LegacyBadgeAgreesExceptPaid | WebApplication1/WebApplication1/Models/ClaimModel.cs:86-93 | Paid, and only Paid, falls to bg-secondary; the other four statuses get the same class as in the current variant |
| LegacyClaim.LegacyTransitionAppendsOneRecord | WebApplication1/WebApplication1/Models/ClaimModel.cs:101-123 | the status becomes the target and one record from the prior status to the target is appended, the old ones kept |
| LegacyClaim.LegacyTransitionApprovalFields | WebApplication1/WebApplication1/Models/ClaimModel.cs:106-120 | the approval trio is written for Approved and Rejected only; approver and record author fall back to "Unknown" |
| LegacyClaim.LegacyTransitionFrame | WebApplication1/WebApplication1/Models/ClaimModel.cs:101-124 | apart from the status, the approval trio and the log, nothing changes |
| LegacyClaim.LegacyTransitionKeepsHistoryExplaining | WebApplication1/WebApplication1/Models/ClaimModel.cs:101-124 | an update keeps the log chaining from Pending to the current status |
| LegacyClaim.LegacyWithCalculatedTotal | WebApplication1/WebApplication1/Models/ClaimModel.cs:96-99 | the total becomes hours × rate and no other field changes |
| LegacyClaim.Claim.constructor | WebApplication1/WebApplication1/Controllers/ClaimsController.cs:60-72 | a new claim holds the given values, no decision and empty lists |
| LegacyClaim.Claim.CalculateTotalAmount | WebApplication1/WebApplication1/Models/ClaimModel.cs:96-99 | the object's new state is `LegacyWithCalculatedTotal` of its old state |
| LegacyClaim.Claim.UpdateStatus | WebApplication1/WebApplication1/Models/ClaimModel.cs:101-124 | the object's new state is `LegacyTransition` of its old state |
| LegacyClaim.Claim.AddDocument | WebApplication1/WebApplication1/Controllers/ClaimsController.cs:138 | the document is appended to the end of the list and nothing else changes |
| StatusHistory.StatusChange | WebApplication1/WebApplication1/Models/ClaimStatusHistory.cs:39 | the label starts with the old status name and the arrow and ends with the new status name |
| StatusHistory.StatusChangeRoundTrip | WebApplication1/WebApplication1/Models/ClaimStatusHistory.cs:39 | parsing a label gives back the record's old and new status |
| StatusHistory.StatusChangeInjective | WebApplication1/WebApplication1/Models/ClaimStatusHistory.cs:39 | two records with the same label describe the same transition |
| StatusHistory.LabelHead | WebApplication1/WebApplication1/Models/ClaimStatusHistory.cs:39 | a label starts with the name-and-arrow of its own old status and of no other |
| StatusHistory.DurationInDays | WebApplication1/WebApplication1/Models/ClaimStatusHistory.cs:46-50 | at least a day: "{days}d ago" with days ≥ 1, the truncated count |
| StatusHistory.DurationInHours | WebApplication1/WebApplication1/Models/ClaimStatusHistory.cs:51-52 | from an hour up to a day: "{hours}h ago" with hours in 1..23 |
| StatusHistory.DurationInMinutes | WebApplication1/WebApplication1/Models/ClaimStatusHistory.cs:53-54 | from a minute up to an hour: "{minutes}m ago" with minutes in 1..59 |
| StatusHistory.DurationJustNow | WebApplication1/WebApplication1/Models/ClaimStatusHistory.cs:55 | under a minute, negative elapsed time included: "Just now" |
| StatusHistory.DurationShapes | WebApplication1/WebApplication1/Models/ClaimStatusHistory.cs:44-56 | each elapsed time gives exactly one of the four shapes, each exactly on its range, and the digits shown read back as the whole count of the unit |
| StatusHistory.ExplainsAppend | WebApplication1/WebApplication1/Models/ClaimModel.cs:114-123 | appending a record that starts at the current status keeps the log chaining to the record's target |
| Time.TruncDiv | WebApplication1/Models/ClaimModel.cs:140 | the `(int)` cast truncates toward zero: the Euclidean quotient for non-negative spans, its negation's negation for negative ones |
| Documents.FileSizeFormatted | WebApplication1/WebApplication1/Models/SupportingDocument.cs:50-64 | the loop picks the unit `UnitIndex` defines (the largest power of 1024 reached, capped at GB), the value times that power is the size, and it is below 1024 unless capped |
| Documents.UnitIndex | WebApplication1/WebApplication1/Models/SupportingDocument.cs:54-58 | the unit index never exceeds 3 |
| Documents.FileIcon | WebApplication1/WebApplication1/Models/SupportingDocument.cs:67-74 | each icon is chosen exactly when its word occurs and no earlier arm's does; the generic icon when none occurs |
| Documents.ImageHasSpecificIcon | WebApplication1/WebApplication1/Models/SupportingDocument.cs:67-76 | an "image/" content type never gets the generic icon |
| Documents.IconIsNotImageTest | WebApplication1/WebApplication1/Models/SupportingDocument.cs:72-76 | the converse fails: "application/x-image" gets the image icon but is not an image |
| Users.ApplicationUser.constructor | WebApplication1/WebApplication1/Models/ApplicationUser.cs:11-30 | a new account holds the given profile and is active |
| ViewModels.DefaultMonth | WebApplication1/Models/ViewModels.cs:11 | the default month is day 1 of today's year and month |
| ViewModels.NewClaimFormInvalid | WebApplication1/Models/ViewModels.cs:15-32 | a fresh form fails the hours and rate ranges, passes the notes length and totals zero |
| ViewModels.ValidTotalBounds | WebApplication1/Models/ViewModels.cs:15-32 | a valid form's total lies between 0.1 × 50 and 200 × 1000 |
| ViewModels.TotalAmountZero | WebApplication1/Models/ViewModels.cs:32 | the total is zero iff the hours or the rate is |
| ViewModels.ApprovalNotesValid | WebApplication1/Models/ViewModels.cs:40-43 | approval notes are valid iff present, not blank and at most 500 characters |
| Dashboard.ActivityBadge | WebApplication1/WebApplication1/Models/ViewModel/DashboardViewModel.cs:22-35 | always one of the five badge classes; bg-warning exactly when the status is null or its lower-cased text is none of approved, rejected, underreview, paid |
| Dashboard.ActivityBadgeIgnoresCase | WebApplication1/WebApplication1/Models/ViewModel/DashboardViewModel.cs:26 | the badge depends on the lower-cased text only |
| Dashboard.ActivityBadgeAgreesWithClaim | WebApplication1/WebApplication1/Models/ViewModel/DashboardViewModel.cs:26-33 | for the five status names the dashboard badge equals the claim's own badge |
| Dashboard.ActivityBadgeDefaults | WebApplication1/WebApplication1/Models/ViewModel/DashboardViewModel.cs:28-32 | empty text and "pending" get bg-warning; "APPROVED" gets bg-success |
| ClaimsController.Extension | WebApplication1/WebApplication1/Controllers/ClaimsController.cs:190 | the extension is empty or a '.' followed by dot-free, separator-free text that ends the name |
| ClaimsController.ExtensionOfSuffix | WebApplication1/WebApplication1/Controllers/ClaimsController.cs:190 | a name ending in '.' and a dot-free, separator-free tail has exactly that extension |
| ClaimsController.MimeOf | WebApplication1/WebApplication1/Controllers/ClaimsController.cs:226-234 | the type is specific iff the extension is one of the five allowed |
| ClaimsController.GetContentType | WebApplication1/WebApplication1/Controllers/ClaimsController.cs:223-235 | total; specific iff the lower-cased extension is allowed, octet-stream otherwise |
| ClaimsController.ContentTypeIgnoresCase | WebApplication1/WebApplication1/Controllers/ClaimsController.cs:225 | an extension's case does not change the content type |
| ClaimsController.SaveUploadedFile | WebApplication1/WebApplication1/Controllers/ClaimsController.cs:181-221 | too large iff over 5 MiB; wrong type iff within size and the lower-cased extension is not allowed; an accepted document is named fresh id + extension and copies name, size and type, with the actor or "Unknown" |
| ClaimsController.UploadSizeBoundary | WebApplication1/WebApplication1/Controllers/ClaimsController.cs:183 | exactly 5 MiB is accepted and one byte more is refused |
| ClaimsController.AcceptedDocumentHasKnownType | WebApplication1/WebApplication1/Controllers/ClaimsController.cs:203 | an accepted document's stored name maps to a specific type, the one of its upload's extension |
| ClaimsController.Create | WebApplication1/WebApplication1/Controllers/ClaimsController.cs:50-92 | invalid form: no claim; no user: challenge and no claim; otherwise a fresh Pending claim of the user with no lecturer object, no decision (no approval date, approver or notes), empty history, total hours × rate, holding the upload iff it was accepted |
| ClaimsController.FindOwnClaim | WebApplication1/WebApplication1/Controllers/ClaimsController.cs:123-125 | finds only a claim with that id owned by that user, and none exactly when there is none |
| ClaimsController.UploadDocument | WebApplication1/WebApplication1/Controllers/ClaimsController.cs:115-146 | no user, not found, missing or empty file, or a refused file: nothing changes; otherwise exactly the owner's claim gets the document appended with its claim id |
| ClaimsController.DownloadDocument | WebApplication1/WebApplication1/Controllers/ClaimsController.cs:148-179 | not found iff no document; forbidden iff no claim with the document's claim id is the user's own or open to a coordinator or manager; a file carries the mapped type and original name |
| ClaimsController.DownloadAccessByRole | WebApplication1/WebApplication1/Controllers/ClaimsController.cs:157-163 | the action's access rule admits coordinators and managers to any claim's documents, and a lecturer or HR user only to their own |
| ReviewActions.FindClaim | WebApplication1/Controllers/AcademicManagerController.cs:91-93 | the claim found has that id; none exactly when no claim has it |
| ReviewActions.FindInDepartment | WebApplication1/Controllers/ProgrammeCoordinatorController.cs:124-126 | the claim found has that id and its lecturer is in that department; none exactly when no such claim exists |
| ReviewActions.ScopedLookupIsNarrower | WebApplication1/Controllers/ProgrammeCoordinatorController.cs:124-126 | when the claim with that id is in the department, the scoped lookup finds the same claim |
| ReviewActions.ApproveGuard | WebApplication1/Controllers/AcademicManagerController.cs:95-107 | applies Approved iff the claim exists and is not yet Approved; warns when it is; otherwise the not-found outcome |
| ReviewActions.RejectGuard | WebApplication1/Controllers/AcademicManagerController.cs:126-148 | blank notes fail first; then not found; then a warning if already Rejected; otherwise applies Rejected with the notes |
| ReviewActions.UnguardedUpdate | WebApplication1/Controllers/AcademicManagerController.cs:228-235 | any found claim moves to the target; only a missing claim is refused |
| ReviewActions.BlankNotesIgnoreLookup | WebApplication1/Controllers/HRController.cs:299-303 | with blank notes the rejection fails the same way whatever the lookup found |
| ReviewActions.ValidNotesPassGuard | WebApplication1/Models/ViewModels.cs:40-43 | notes with a non-blank character never fail the notes check |
| ReviewActions.ApproveIsIdempotent | WebApplication1/Controllers/AcademicManagerController.cs:101-105 | after an approval, a second approval is only a warning |
| ReviewActions.Perform | WebApplication1/Controllers/AcademicManagerController.cs:95-108 | a refusal changes no claim; an application runs one `UpdateStatus` step on the found claim and no other; every log that explained its claim's status still does |
| AcademicManager.ApproveClaim | WebApplication1/Controllers/AcademicManagerController.cs:87-118 | the effect of `ApproveGuard` over the id lookup: unknown id error, already-approved warning, else one approval step; nothing else changes |
| AcademicManager.RejectClaim | WebApplication1/Controllers/AcademicManagerController.cs:122-159 | the effect of `RejectGuard`: blank notes before the lookup, then unknown id, then the warning, else one rejection step |
| AcademicManager.SendForReview | WebApplication1/Controllers/AcademicManagerController.cs:163-188 | any found claim takes one step to UnderReview, with no redundancy guard |
| AcademicManager.UpdateClaimStatus | WebApplication1/Controllers/AcademicManagerController.cs:221-247 | any found claim takes one step to the requested status |
| AcademicManager.Interpolate | WebApplication1/Controllers/AcademicManagerController.cs:437 | the text is the prefix followed by the value, a null value printing as nothing |
| AcademicManager.ReviewDispatch | WebApplication1/Controllers/AcademicManagerController.cs:394-410 | applies iff the claim exists and the action is Approve, Reject or RequestInfo; an unknown id is a 404 and any other action changes nothing |
| AcademicManager.ReviewDispatchTargets | WebApplication1/Controllers/AcademicManagerController.cs:394-410 | Approve goes to Approved and Reject to Rejected with the notes as given; RequestInfo goes to UnderReview with the notes after the prefix |
| AcademicManager.ReviewRejectSkipsGuards | WebApplication1/Controllers/AcademicManagerController.cs:401-403 | the review form rejects with blank notes or an already-rejected claim, where `RejectClaim` refuses |
| AcademicManager.ProcessClaimReview | WebApplication1/Controllers/AcademicManagerController.cs:381-420 | the effect of `ReviewDispatch` over the id lookup |
| AcademicManager.InformationRequest | WebApplication1/Controllers/AcademicManagerController.cs:424-448 | an unknown id is a 404; otherwise UnderReview with the manager's prefix followed by the message |
| AcademicManager.RequestInformation | WebApplication1/Controllers/AcademicManagerController.cs:424-448 | the effect of `InformationRequest` over the id lookup |
| ProgrammeCoordinator.ScopedLookup | WebApplication1/Controllers/ProgrammeCoordinatorController.cs:116-126 | no signed-in user finds nothing; a found claim has the id and the coordinator's department |
| ProgrammeCoordinator.ForeignClaimNeverFound | WebApplication1/Controllers/ProgrammeCoordinatorController.cs:124-132 | a claim of another department is never found, so no action touches it |
| ProgrammeCoordinator.WithUser | WebApplication1/Controllers/ProgrammeCoordinatorController.cs:116-122 | a missing signed-in user is an error before any other guard |
| ProgrammeCoordinator.RejectDecision | WebApplication1/Controllers/ProgrammeCoordinatorController.cs:159-163 | blank notes fail before the user is looked at |
| ProgrammeCoordinator.ApproveDecisionOutcomes | WebApplication1/Controllers/ProgrammeCoordinatorController.cs:112-151 | error iff no user or no claim; warning iff already Approved; otherwise one approval with the notes |
| ProgrammeCoordinator.RejectDecisionOutcomes | WebApplication1/Controllers/ProgrammeCoordinatorController.cs:155-200 | error iff blank notes, no user or no claim; warning iff already Rejected; an application is a rejection with the notes |
| ProgrammeCoordinator.QuickActionsSkipGuards | WebApplication1/Controllers/ProgrammeCoordinatorController.cs:502-519 | the quick actions apply even where approve warns and reject fails |
| ProgrammeCoordinator.ApproveClaim | WebApplication1/Controllers/ProgrammeCoordinatorController.cs:112-151 | the effect of the approve decision over the department-scoped lookup |
| ProgrammeCoordinator.RejectClaim | WebApplication1/Controllers/ProgrammeCoordinatorController.cs:155-200 | the effect of the reject decision over the department-scoped lookup |
| ProgrammeCoordinator.SendForReview | WebApplication1/Controllers/ProgrammeCoordinatorController.cs:204-237 | any claim found in the department takes one step to UnderReview |
| ProgrammeCoordinator.UpdateClaimStatus | WebApplication1/Controllers/ProgrammeCoordinatorController.cs:464-498 | any claim found in the department takes one step to the requested status |
| ProgrammeCoordinator.QuickApprove | WebApplication1/Controllers/ProgrammeCoordinatorController.cs:502-505 | the effect of `UpdateClaimStatus` with Approved, and every log still explains its claim |
| ProgrammeCoordinator.QuickReject | WebApplication1/Controllers/ProgrammeCoordinatorController.cs:509-512 | the effect of `UpdateClaimStatus` with Rejected, and every log still explains its claim |
| ProgrammeCoordinator.QuickReview | WebApplication1/Controllers/ProgrammeCoordinatorController.cs:516-519 | the effect of `UpdateClaimStatus` with UnderReview, and every log still explains its claim |
| HumanResources.ApproveClaim | WebApplication1/Controllers/HRController.cs:260-291 | the effect of `ApproveGuard` over the id lookup |
| HumanResources.RejectClaim | WebApplication1/Controllers/HRController.cs:295-330 | the effect of `RejectGuard` over the id lookup |
| HumanResources.UpdateClaimStatus | WebApplication1/Controllers/HRController.cs:608-634 | any found claim takes one step to the requested status |
| HumanResources.RejectCheckOrder | WebApplication1/Controllers/HRController.cs:299-321 | blank notes, then unknown id, then already Rejected; only a found, unrejected claim with notes is rejected |
| HumanResources.FindUser | WebApplication1/Controllers/HRController.cs:592 | the account found has that id; none exactly when no account has it |
| HumanResources.UpdateLecturerStatus | WebApplication1/Controllers/HRController.cs:585-604 | an empty or unknown id is a 404 and changes nothing; otherwise only that account's active flag changes |
| Approvals.DirectDecision | WebApplication1/Controllers/ApprovalsController.cs:63-66 | status, approval date, approver (or "Unknown") and notes are written and nothing else |
| Approvals.DirectDecisionBreaksHistory | WebApplication1/Controllers/ApprovalsController.cs:63-66 | starting from a consistent log, the log still explains the status iff the target equals the old status |
| Approvals.DirectDecisionSkipsBookkeeping | WebApplication1/Controllers/ApprovalsController.cs:63-66 | same status and approval fields as `UpdateStatus`, but one record fewer and no last-update date, review mirror or stored days |
| Approvals.WriteDecision | WebApplication1/Controllers/ApprovalsController.cs:63-66 | the object's new state is `DirectDecision` of its old state |
| Approvals.Approve | WebApplication1/Controllers/ApprovalsController.cs:55-72 | 404 iff no claim has the id, with no already-approved guard; the found claim gets the direct write and no other claim changes |
| Approvals.Reject | WebApplication1/Controllers/ApprovalsController.cs:76-93 | the same with Rejected and the reason as notes |
| Approvals.BulkWrite | WebApplication1/Controllers/ApprovalsController.cs:116-118 | status Approved, approval date and approver are written; notes and log are not |
| Approvals.BulkWriteIdempotent | WebApplication1/Controllers/ApprovalsController.cs:116-118 | writing twice with one clock reading is writing once |
| Approvals.Matching | WebApplication1/Controllers/ApprovalsController.cs:112-114 | the shared `Where` filter: a claim of the store is matched as often as the store holds it when its id is in the list, and never otherwise |
| Approvals.UnknownIdsIgnored | WebApplication1/Controllers/ApprovalsController.cs:112-114 | an id that names no claim adds nothing to the match |
| Approvals.ApproveOne | WebApplication1/Controllers/ApprovalsController.cs:116-118 | the object's new state is `BulkWrite` of its old state |
| Approvals.BulkApprove | WebApplication1/Controllers/ApprovalsController.cs:108-128 | a null or empty list changes nothing; otherwise every listed claim gets the bulk write, every other claim is unchanged, and the count is the number matched |
| Approvals.ApproveEach | WebApplication1/Controllers/ApprovalsController.cs:115-120 | every claim whose id is listed gets the bulk write and every other claim is unchanged |
| ClaimQueries.Where | WebApplication1/Controllers/AcademicManagerController.cs:258-281 | no longer than the input; the kept elements pass the test and each passing element is kept as often as it occurs |
| ClaimQueries.WhereAgrees | WebApplication1/Controllers/AcademicManagerController.cs:258-281 | two tests that agree on every element select the same sequence |
| ClaimQueries.KeyOrderTotal | WebApplication1/Controllers/HRController.cs:206-209 | the descending order compares any two keys |
| ClaimQueries.KeyOrderTransitive | WebApplication1/Controllers/HRController.cs:206-209 | the descending order is transitive |
| ClaimQueries.InsertDescending | WebApplication1/Controllers/HRController.cs:206-209 | inserting into a descending list adds exactly that element and keeps it descending |
| ClaimQueries.SortDescending | WebApplication1/Controllers/AcademicManagerController.cs:279-281 | the result is a permutation of the input in descending key order |
| ClaimQueries.SelectThenSort | WebApplication1/Controllers/AcademicManagerController.cs:258-281 | filtering then sorting keeps exactly the passing elements, in descending order |
| ClaimQueries.AllClaims | WebApplication1/Controllers/AcademicManagerController.cs:251-293 | newest first; a claim is listed iff it passes the status, department, month and name filters, as often as it occurs |
| ClaimQueries.ReviewClaims | WebApplication1/Controllers/ProgrammeCoordinatorController.cs:71-108 | 404 iff no user; otherwise the coordinator's department only, then status, month and name (no e-mail), newest first |
| ClaimQueries.ProcessClaims | WebApplication1/Controllers/HRController.cs:72-101 | status, month, and name or e-mail filters, newest first |
| ClaimQueries.RejectedClaims | WebApplication1/Controllers/HRController.cs:181-218 | rejected claims passing month, name-or-e-mail and department filters, by last status update (absent last) then submission, descending |
| ClaimQueries.EmptyFiltersKeepAll | WebApplication1/Controllers/AcademicManagerController.cs:258-277 | null or empty filters keep every claim |
| ClaimQueries.UnparsableStatusIgnored | WebApplication1/Controllers/AcademicManagerController.cs:258-262 | an unparsable status filter is ignored rather than matching nothing |
| ClaimQueries.StatusNameFilter | WebApplication1/Controllers/AcademicManagerController.cs:258-262 | a status-name filter keeps exactly the claims in that status |
| ClaimQueries.EmailOnlyInHumanResources | WebApplication1/Controllers/HRController.cs:87-92 | a match on e-mail alone passes the HR filter and not the manager's |
| Aggregates.CountWithStatus | WebApplication1/WebApplication1/Models/ViewModel/ReportViewModels.cs:41-43 | a status count never exceeds the list length |
| Aggregates.StatusCountsPartition | WebApplication1/WebApplication1/Models/ViewModel/ReportViewModels.cs:41-43 | the five status counts add up to the list length |
| Aggregates.CountAppend | WebApplication1/WebApplication1/Models/ViewModel/ReportViewModels.cs:41-43 | counts over a concatenation add |
| Aggregates.SumAmountAppend | WebApplication1/Models/ViewModel/ComprehensiveReportViewModel.cs:13 | sums over a concatenation add |
| Aggregates.SumWithStatusAppend | WebApplication1/WebApplication1/Models/ViewModel/ReportViewModels.cs:44 | status-filtered sums over a concatenation add |
| Aggregates.SumCountAppend | WebApplication1/WebApplication1/Models/ViewModel/ReportViewModels.cs:51 | sums of counts over a concatenation add |
| Aggregates.SumWithStatusBounded | WebApplication1/Models/ViewModel/HRViewModels.cs:43-51 | with non-negative amounts, a status-filtered sum is between zero and the full sum |
| ClaimReports.CountersWithinTotal | WebApplication1/WebApplication1/Models/ViewModel/ReportViewModels.cs:40-43 | approved + pending + rejected + the uncounted UnderReview and Paid claims is the total, so the three counters never exceed it |
| ClaimReports.ClaimReportAppend | WebApplication1/WebApplication1/Models/ViewModel/ReportViewModels.cs:40-44 | one more claim adds one to the total, one to the approved count and its amount to the total amount exactly when it is Approved |
| ClaimReports.EmptyClaimReport | WebApplication1/WebApplication1/Models/ViewModel/ReportViewModels.cs:40-44 | an empty list gives all-zero statistics |
| ClaimReports.ApprovalStatisticsAppend | WebApplication1/WebApplication1/Models/ViewModel/ReportViewModels.cs:51-52 | both totals over concatenated rows are the sums of the parts' totals |
| ClaimReports.EmptyApprovalStatistics | WebApplication1/WebApplication1/Models/ViewModel/ReportViewModels.cs:51-52 | no rows give zero totals |
| HRReports.ApprovedAndPendingWithinCount | WebApplication1/Models/ViewModel/HRViewModels.cs:52-53 | approved + pending claims never exceed the claim count |
| HRReports.EarningsWithinPaymentTotal | WebApplication1/Models/ViewModel/HRViewModels.cs:43-51 | with non-negative amounts, earnings (approved only) lie between zero and the payment total (every claim) |
| HRReports.EmptyHRReports | WebApplication1/Models/ViewModel/HRViewModels.cs:43-53 | empty lists give zero totals and counts |
| ComprehensiveReports.ComprehensiveAppend | WebApplication1/Models/ViewModel/ComprehensiveReportViewModel.cs:13-14 | one more claim adds one to the count and its amount to the total, whatever its status |
| ComprehensiveReports.EmptyComprehensiveReport | WebApplication1/Models/ViewModel/ComprehensiveReportViewModel.cs:13-14 | an empty list gives 0 and 0 |

## Left out

- Entity Framework plumbing is not modelled: queries, `Include`,
  `SaveChangesAsync`, async/await, TempData messages, redirects, views and
  the `try`/`catch` around each action. A lookup is a search of a `seq` of
  claim objects, and an action's result is an outcome datatype.
- Identity is not modelled. The signed-in user id, the user name, the
  current `ApplicationUser` and the role set are parameters.
- File-system I/O is not modelled: the upload directory, the file copy and
  the download stream. Whether the stored file exists is a parameter of
  `DownloadDocument`.
- ClaimsController.DownloadDocument: the controller's
  `[Authorize(Roles = "Lecturer")]` filter (ClaimsController.cs:11) is not
  modelled; only the access rule inside the action is. The action's
  coordinator/manager arm is therefore reached only by an account that also
  holds the Lecturer role, which no seeded or HR-created account does
  (each gets exactly one role). `DownloadAccessByRole` states the in-action
  rule, not who can reach the action.
- ClaimsController.DownloadDocument: a missing file on disk is a separate `FileMissing`
  outcome. The source answers it with the same 404 as a missing document.
- Create: a new claim has no `Lecturer` navigation, and an attached
  document keeps claim id 0. Entity Framework's relationship fix-up, which
  stamps the claim id on save, is not modelled.
- ClaimsController.Create: `ModelState.IsValid` is the form's attribute
  checks (`ClaimViewModel.IsValid`). Model-binding errors are not
  modelled, and neither is the model-state error a refused upload adds:
  the claim is still saved.
- ClaimsController.Extension: `Path.GetExtension` is modelled with '/' and
  '\\' as separators. Drive letters and platform-specific invalid
  characters are not.
- Text.Lower: lower-casing is ASCII only. `ToLower`/`ToLowerInvariant` on
  other letters is not modelled.
- ClaimStatuses.ParseStatusCode: `Enum.TryParse` is modelled for exact
  identifiers and plain decimal digits. Leading and trailing white space,
  signs, comma-separated flag names and case variants are not.
- ClaimQueries.LecturerMatches: `Contains` is an exact substring test. The
  database collation's case-insensitivity in the translated SQL is not
  modelled.
- ClaimQueries.MonthMatches: the month filter takes the already parsed
  year and month. `DateTime.TryParse(month + "-01")` is not modelled.
- ClaimQueries.SortDescending: the order of claims with equal keys is not
  specified. `OrderByDescending` keeps input order, but the database order
  it rests on is not defined anyway.
- The "Departments" drop-down queries beside the lists are not modelled.
- ClaimLifecycle.Claim.UpdateStatus: the up to four `DateTime.Now`
  readings of the source are one `now`.
- Approvals.BulkApprove: every claim of one call gets the same `now`. The
  source reads the clock once per claim.
- ClaimLifecycle.Transition: `(int)TimeSpan.TotalDays` goes through a
  double, and the model uses exact tick arithmetic. The two differ only
  for spans beyond about 2^53 ticks.
- StatusHistory.DurationString: the same holds for the `(int)` casts of
  `TotalDays`, `TotalHours` and `TotalMinutes` in `GetDurationString`.
- `ProcessingDays` (a double) and `FormattedMonth` (culture-dependent month
  names) are not modelled. Neither are the dashboard item's
  `FormattedDate` and `FormattedAmount`.
- Documents.FileSizeFormatted: the "0.##" rendering of the value is not
  modelled. The method returns the exact scaled value and the unit name.
- ViewModels.ClaimViewModel: `StringLength` counts UTF-16 code units, and
  the model counts characters.
- The `Percentage` column of `ApprovalStatistic` is not modelled. Neither
  are the controllers' dashboards, analytics and report generators that
  fill the report view models, nor the `HRReportsViewModel`,
  `LecturerPerformanceViewModel` and `DepartmentSummaryViewModel` property
  bags, whose values those generators compute.
- Users: of `ApplicationUser`, only the fields the modelled code reads or
  writes are kept.
