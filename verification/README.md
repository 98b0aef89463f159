# The runtime authority, as a model and its proofs

The repository is a command line that decides who may change what, once, and whether a run kept to it.
This project models five of its durable state machines in Dafny and proves what they promise over every
run. `dafny verify dfyconfig.toml` checks all of it.

| part | modules | what it is |
|---|---|---|
| campaign gate | `Campaign`, `CampaignSteps`, `CampaignFile`, `CampaignRuns`, `CampaignVerdicts`, `CampaignAuthority` | a sequential campaign whose file is saved before every side effect; a process may die before any effect and be restarted |
| write-scope authority | `Ttl`, `ScopePaths`, `Proposals`, `Authority`, `AuthoritySteps`, `AuthorityStore`, `AuthorityRuns`, `AuthorityVerdicts`, `AuthorityGrowth`, `GrowthCounterexample`, `Expiry`, `Audit`, `AuditCounterexample` | proposal, approval, binding, enforcement, receipt, audit |
| Kubernetes executor | `KubernetesBody`, `KubernetesNames`, `Kubernetes`, `KubernetesStore`, `KubernetesRuns`, `KubernetesVerdicts`, `Readiness` | the sibling life cycle for one Deployment operation, and the verification of a live patch |
| manifest text | `Yaml`, `YamlRoundTrip`, `YamlScalars`, `YamlText`, `YamlBlocks`, `ManifestText` | the small YAML printer and parser |
| evidence bundles | `Bundle`, `BundleRuns`, `BundleVerdicts` | write in staging, sign, verify, publish by rename |

`Text` holds string functions (strip, lower, split, join, decimal numbers).

How a part is built: the records are datatypes, an operation is a function on the store that follows the
code branch by branch, and a class with the records as fields carries the code's own loops and updates,
each method proved equal to that function. The theorems are about the functions: an invariant kept by each
operation and, from it, statements about every run, in any order, with adversarial answers from outside. The
public methods of the classes keep that invariant, so the statements hold of the objects as well.

Conventions that run through the model:

- Ids and content hashes are datatypes over the fields the code hashes, so they are injective by
  construction; a record saved under a taken id is handled as the code handles it.
- A crash is a budget: `power` counts the effects a process still performs, and every save and callback
  after the budget is spent does nothing. Each process of a run has its own budget and its own answers.
  Advances are serialised by the campaign's file lock, so a run is one process after another.
- Decimal digits are those of the interpreter's Unicode version: `DECIMALS` is a table of which only the ASCII
  part is fixed, and everything is proved for all such tables.
- The outside world is a parameter: clocks, `Path.resolve`, git, executors, signers, callbacks. A call
  that reads the clock more than once takes that many times.
- `Path.resolve` is assumed idempotent with plain segments as result (`WellBehaved`), and the same over one
  run; some statements add that without symbolic links a plain path resolves to itself and `..` only shortens a path
  (`NoSymlinks`).

Where the code and its comments differ, the code is followed: a comment in
`scripts/amof/write_scope_enforcement.py:771` says that an approval stays reusable after a run without
mutations, but the binding such a run completes blocks every later bind
(`scripts/amof/write_scope_bindings.py:71-73`), which `AuthorityVerdicts.CleanRunBlocksForever` states.

Results that are not what one might expect, each with its exact condition:

- a list of verbs or resources that collapses when lower-cased is frozen but cannot be saved
  (`FrozenGrantVerifiesIff`);
- a denied directory written with a trailing slash is missed by the campaign's overlap check exactly when a
  requested root lies inside it, and then holds exactly the paths below that root (`TrailingSlashDenial`,
  `DeniedDirectory`); the write-scope store still refuses them (`DenialsHold`);
- a binding record strips its roots, so a root whose last segment ends in white space is stored as another
  directory: authority grows exactly when the stored roots fail a comparison with the resolved ones that can be made
  before the bind (`StoredIsItselfIff`, `GrowthIff`, `NeverWider`), and two whole runs show it (`AllowedRootGrows`,
  `DeniedRootGrows`); no authority grows otherwise (`NoAuthorityGrowth`, `TidyIsNeverWider`);
- a receipt record strips its paths, and a path on record names its file exactly when nothing was stripped
  (`KeyRereadsIff`);
- a verified change is free exactly when its verb does not mutate (`ChangeIsFreeIff`);
- a Kubernetes binding record is overwritten exactly by a bind of its approval and run in its own second
  (`EndedBindingReplacedIff`);
- the readiness comparison overlooks exactly changes between `1`, `true` and `1.0` (`PyEqualIsSameIff`);
- audit and binder agree exactly when a blocking binding carries the latest stamp (`AuditAgreesIff`), and a run
  with two binds in one second can break that (`TwinBindsDisagree`, `AuditMisleads`);
- the enforcement error handler is reached exactly when the approval falls due inside the call
  (`RecoveryExactly`);
- the text of a decimal digit outside ASCII reads back as a number (`ForeignDigitIsANumber`);
- a list with a list or a mapping in it prints to text the parser refuses (`NestedItemsRefused`);
- a comment behind a single space swallows part of itself into the value exactly when it holds a hash sign behind two
  spaces (`TrailingComment`).

## Model

| member | source | states |
|---|---|---|
| CampaignRuns.DispatchedAtMostOnce | scripts/amof/campaign_loop.py:393-413 | over any number of processes, each crashed before any effect and restarted, no slice is dispatched twice, in bound and in unbound mode |
| CampaignRuns.IntentNeverReplayed | scripts/amof/campaign_loop.py:393-411 | once a dispatch intent is on disk, no later process dispatches that slice, whatever it is answered |
| CampaignRuns.JournalOnlyForward | scripts/amof/campaign_loop.py:356-413 | along every run a journal entry keeps its derived identity and its phase never moves back |
| CampaignRuns.NoDispatchMeansNone | scripts/amof/campaign_loop.py:488-497 | a slice recorded as blocked without dispatch was never dispatched and never will be |
| CampaignRuns.ClosedStays | scripts/amof/campaign_loop.py:431-433 | a campaign in a terminal status is never saved to or acted on again |
| CampaignRuns.AdvanceKeeps | scripts/amof/campaign_loop.py:416-564 | one advance, crashed anywhere, keeps the invariant, only moves the file forward, dispatches no spent slice, and if it leaves the campaign open has completed exactly one slice |
| CampaignRuns.CompletedIsPlanPrefix | scripts/amof/campaign_loop.py:293-353 | the completed slices are the first slices of the plan in order, up to the overwritten criterion; each had an objective criterion; exactly the last of the plan is recorded as the finish |
| CampaignRuns.ProgressBudget | scripts/amof/campaign_loop.py:523-531 | completed slices are at most (max_no_progress + 1) times the fingerprints, and an unblocked campaign is within its repeat budget |
| CampaignRuns.WritesStayAuthorized | scripts/amof/campaign_loop.py:221-290 | every changed path of every completed write slice lies under an allowed write root of the campaign and within no denied root of its approval, as the campaign compares texts; CampaignRuns.DeniedDirectory says what that means for a directory written with a trailing slash |
| CampaignRuns.DeniedDirectory | scripts/amof/campaign_loop.py:246-290 | for completed write slices a denied directory written plainly holds no changed path; written with a trailing slash it holds exactly the changed paths below a requested root that lies inside it |
| CampaignRuns.PassedDenialIff | scripts/amof/campaign_loop.py:246-252 | once the overlap check let a root pass, the paths below it lie in a directory denied with a trailing slash exactly when the root does |
| CampaignAuthority.ChangedFilesAuthorized | scripts/amof/campaign_loop.py:255-290 | when the receipt is one of the write-scope store, each changed path stands for a plain file the store accepted; where the record kept that file's text as it was, the file is below a write root and below no denied root, segment by segment |
| CampaignAuthority.ChangedFilesStayInside | scripts/amof/campaign_loop.py:246-290 | campaign and store together, without symbolic links: when the approval's frozen body is the one the campaign read and the roots on record are no wider than those resolved at bind time, every changed path stands for a file below a write root of the campaign and in no denied directory, whatever its text or the spelling of the roots |
| CampaignRuns.AllowedRootsInside | scripts/amof/campaign_loop.py:221-252 | every root the approval of a completed write slice allows lies within a write root of the campaign |
| CampaignAuthority.DenialsHold | scripts/amof/write_scope_enforcement.py:233-276 | without symbolic links no path of a stored receipt stands for a file in a denied directory, however its root is written, if the roots on record are no wider than those resolved at bind time (AuthorityGrowth.HoldsTo) |
| CampaignRuns.WritesHaveReceipts | scripts/amof/campaign_loop.py:501-504 | a completed write slice always carries its verified mutation receipt |
| CampaignRuns.VerifiedWriteWithin | scripts/amof/campaign_loop.py:255-290 | the receipt check together with the check made before dispatch confines every changed path |
| CampaignRuns.WithinTransitive | scripts/amof/campaign_loop.py:213-214 | being within is transitive |
| CampaignRuns.AncestorsComparable | scripts/amof/campaign_loop.py:213-214 | two roots one path is within are comparable, which is what makes the overlap check with denied roots sufficient |
| CampaignRuns.WithinMeansAncestor | scripts/amof/campaign_loop.py:202-214 | the text comparison is ancestry segment by segment, both directions, on all texts |
| CampaignRuns.TrailingSlashDenial | scripts/amof/campaign_loop.py:246-252 | a denied root written with a trailing slash is noticed exactly when it lies at or below the requested root, so a root inside it is missed |
| CampaignRuns.DoneMeansComplete | scripts/amof/campaign_loop.py:28-33 | with the built-in proposer a campaign is DONE only when every slice of its plan is complete |
| CampaignRuns.CompleteBecomesDone | scripts/amof/campaign_loop.py:446-451 | and a complete open campaign is DONE at its next advance that can save |
| CampaignRuns.FinishesOnlyUnproposed | scripts/amof/campaign_loop.py:446-451 | only an advance without a proposal, with no slice in flight, sets DONE, and it changes nothing but status and reason |
| CampaignRuns.SliceIdInjective | scripts/amof/campaign_loop.py:295-296 | slice ids of different positions differ, so at most one dispatch an id is at most one a slice |
| CampaignRuns.CreatedIsKept | scripts/amof/campaign_loop.py:53-114 | a created campaign, bound or not, starts inside the invariant |
| CampaignVerdicts.CompletesIff | scripts/amof/campaign_loop.py:416-564 | a slice is completed only when it was selected, dispatched, finished and completed by its own backend without fallback, authoritatively accepted, observed at its expected HEAD (check id, command, target, exit code, status), proven where it writes, with intact progress and within the repeat budget; a process that lives long enough completes it whenever all of that holds, and records it with its evidence counted |
| CampaignVerdicts.CallsAreDue | scripts/amof/campaign_loop.py:356-413 | the callbacks of an advance, wherever it dies, are a prefix of those its slice is due: prepare when the journal says so, dispatch when it was never dispatched and its packet holds; all of them if it lives |
| CampaignVerdicts.EndsAs | scripts/amof/campaign_loop.py:431-564 | what a living advance leaves in every case: status, completed slices, counters, the journal entry with its phase, references and decision, and a reason that holds of the answers it got |
| CampaignVerdicts.RaisesIff | scripts/amof/campaign_loop.py:293-353 | an exception escapes exactly for a proposal past the end of the plan, a slice missing from the journal, or a resumed write slice whose scope is malformed |
| CampaignVerdicts.CreatesIff | scripts/amof/campaign_loop.py:53-114 | which requests create a campaign, field by field, and what it starts with |
| CampaignVerdicts.LimitsHold | scripts/amof/campaign_loop.py:53-114 | over every run at most 20 slices and 2 repeats, write roots exactly for writing, one target for all criteria of a mission |
| CampaignVerdicts.CandidateIff | scripts/amof/campaign_loop.py:293-353 | a proposal is admitted exactly when it is the next slice of the plan and inside the parent's envelope, field by field |
| CampaignVerdicts.ScopePathIff | scripts/amof/campaign_loop.py:202-214 | a write root is accepted exactly when its segments are plain and it holds no wildcard |
| CampaignSteps.BoundDispatchKeeps | scripts/amof/campaign_loop.py:356-413 | every stage of the bound dispatch saves its intent first, touches one journal entry, moves it forward and dispatches only an unspent slice |
| CampaignFile.CampaignGate.AdvanceCampaign | scripts/amof/campaign_loop.py:416-564 | the advance on the state dictionary and its file does, effect by effect, what the step function says; CampaignVerdicts.EndsAs and CallsAreDue say what that leaves |
| CampaignFile.CampaignGate.DispatchBound | scripts/amof/campaign_loop.py:356-413 | the bound dispatch on the mutable journal is the staged function, including every early failure |
| CampaignFile.CampaignGate.JudgeResult | scripts/amof/campaign_loop.py:501-552 | the verdict on a result, updated in place, is the judging function, whose meaning CampaignVerdicts.CompletesIff gives |
| CampaignFile.CampaignGate.RunCampaign | scripts/amof/campaign_loop.py:587-603 | the loop ends within one advance more than the slices left, at a terminal or waiting state, and its final world is that many advances |
| AuthorityStore.WriteScopeStore.SaveProposal | scripts/amof/write_scope_proposals.py:296-399 | a proposal is frozen, hashed, re-verified and stored once; an existing record of the id stays |
| AuthorityStore.WriteScopeStore.ApproveProposal | scripts/amof/write_scope_approvals.py:619-676 | a text of days, hours, minutes and seconds, spelled in this order, mints an approval that ends after their sum; any other text mints nothing |
| AuthorityStore.WriteScopeStore.RevokeApproval | scripts/amof/write_scope_approvals.py:731-823 | revocation on both records: operator and reason are checked, idempotent on revoked, refused on expired and consumed |
| AuthorityStore.WriteScopeStore.BindApproval | scripts/amof/write_scope_bindings.py:575-742 | binding on the records, every refusal in its order; workspace and roots are kept as stripped texts; AuthorityVerdicts.BindsIff says which requests succeed |
| AuthorityStore.WriteScopeStore.TransitionBindingStatus | scripts/amof/write_scope_bindings.py:515-554 | the binding life cycle on the records |
| AuthorityStore.ResolveRepoRelativeRoots | scripts/amof/write_scope_bindings.py:190-225 | the appending loop resolves every root or fails with the first root's error |
| AuthorityStore.WriteScopeStore.EnforceMutations | scripts/amof/write_scope_enforcement.py:623-938 | classification, compliance, transitions, error handler and receipt on the records are the enforcement function, whose whole effect AuthorityVerdicts.EnforcementVerdict gives; the receipt keeps stripped paths |
| AuthorityStore.WriteScopeStore.CheckAuthority | scripts/amof/write_scope_enforcement.py:566-620 | the checkpoint on the records |
| AuthorityStore.WriteScopeStore.LoadScope | scripts/amof/write_scope_enforcement.py:128-177 | loading the scope roots on the records, with its fallback and the errors it does not catch |
| AuthorityStore.WriteScopeStore.AuditApproval | scripts/amof/write_scope_audit.py:193-262 | the audit of an approval id picks a binding bound last and reports the residual authority of those two records |
| AuthorityRuns.SingleUseAlways | scripts/amof/write_scope_bindings.py:71-86 | under every interleaving of binds and transitions one blocking binding an approval, one open binding a target, one within-scope receipt an approval |
| AuthorityRuns.EndedForever | scripts/amof/write_scope_bindings.py:77-86 | ended approvals and bindings are the very same records after any further run |
| AuthorityRuns.NeverActiveAgain | scripts/amof/write_scope_approvals.py:79-85 | an approval that is not active at some time is not active at any later time, after any further run |
| AuthorityRuns.NeverResumed | scripts/amof/write_scope_bindings.py:77-86 | a binding that is not active is never active again, after any further run |
| AuthorityRuns.RevokedForGood | scripts/amof/write_scope_approvals.py:731-823 | at every point of every run the revoked approvals are those with a revocation record, and the first record of an approval is never rewritten |
| AuthorityRuns.RevokeAgain | scripts/amof/write_scope_approvals.py:766-782 | revoking a revoked approval succeeds and changes nothing |
| AuthorityRuns.RecordsAlwaysVerify | scripts/amof/write_scope_proposals.py:341-379 | every stored proposal and approval passes its own integrity check unchanged at every point of every run |
| AuthorityRuns.ProposeKeeps | scripts/amof/write_scope_proposals.py:382-399 | saving keeps the invariant, and a freshly built record is never rejected as corrupt |
| AuthorityRuns.EnforcementEndsBinding | scripts/amof/write_scope_enforcement.py:647-938 | enforcing a stored binding succeeds exactly when the roots on record can be resolved, always so where no root ends in white space; then it leaves the binding terminal and files a receipt that says so, otherwise it ends and files nothing |
| AuthorityRuns.ChangeSpendsApproval | scripts/amof/write_scope_enforcement.py:748-857 | after a run that changed a path, under an unmoved revision, the approval is no longer approved |
| AuthorityRuns.RecoveryExactly | scripts/amof/write_scope_enforcement.py:858-883 | the error handler runs exactly when paths are classified as changed, the revision had not moved under an open binding, and an approval still live at the readings that mattered falls due before it is spent; all of it read off the call's inputs, whatever order its clock readings are in |
| AuthorityRuns.OneReadingNeverRecovers | scripts/amof/write_scope_enforcement.py:858-883 | with one clock reading a call the error handler is not reached |
| AuthorityGrowth.NoAuthorityGrowth | scripts/amof/write_scope_enforcement.py:257-276 | each in-scope path of each receipt stands for a file an enforcement accepted; the file lies under a resolved allowed root and no denied root of the proposal whose hash approval and binding carry, if the roots on record are no wider than those resolved at bind time |
| AuthorityGrowth.NoAuthorityGrowthPlain | scripts/amof/write_scope_approvals.py:203-234 | without symbolic links the roots then cover by their text, and a docs-only proposal reaches only `docs` |
| AuthorityGrowth.TidyIsNeverWider | scripts/amof/write_scope_bindings.py:304-395 | where no resolved root and no workspace ends in white space, no enforcement is wider than the roots resolved at bind time |
| AuthorityGrowth.AcceptedInsideIff | scripts/amof/write_scope_enforcement.py:233-254 | no text one scope accepts names a file another refuses, exactly when both agree on the workspace, the allowed roots of the first and the denied roots of the second |
| AuthorityGrowth.GrowthIff | scripts/amof/write_scope_enforcement.py:623-938 | under live authority some one-file run is within scope outside the roots resolved at bind time exactly when the roots on record fail that comparison |
| GrowthCounterexample.AllowedRootGrows | scripts/amof/write_scope_bindings.py:337-345 | a whole run: with the allowed root `docs/a /` a change of `docs/a/x` is within scope, which no root of the proposal covers |
| GrowthCounterexample.DeniedRootGrows | scripts/amof/write_scope_bindings.py:346-358 | a whole run: with the denied root `docs/s /` a change of `docs/s /x` is within scope |
| AuthorityRuns.GuardedRunIsCompliant | scripts/amof/write_scope_enforcement.py:1019-1053 | writes that passed the guardrail leave nothing out of scope while the roots on record still resolve to the enforced scope; with live authority, unmoved HEAD and a successful runner the compliance is within_scope or no_mutation |
| AuthorityRuns.CompletedBindingBlocksForever | scripts/amof/write_scope_bindings.py:487-496 | once a binding completed, even without a mutation, no later bind of its approval succeeds |
| AuthoritySteps.Enforces | scripts/amof/write_scope_enforcement.py:623-938 | the whole effect of one enforcement in terms of the records it found, or of its failure to resolve a root |
| AuthoritySteps.ScopeIsFrozen | scripts/amof/write_scope_enforcement.py:128-177 | whatever loading the approval answers, the scope is a function of the roots on record and the body; where no root ends in white space it is the one resolved at bind time |
| AuthoritySteps.BindingMintedIffFreshId | scripts/amof/write_scope_bindings.py:457-465 | a successful bind returns an active binding exactly when its id was free; a taken id returns an ended record |
| AuthoritySteps.RootsAreFixed | scripts/amof/write_scope_bindings.py:213-224 | every resolved root is a resolved path below its workspace |
| AuthorityVerdicts.EnforcementVerdict | scripts/amof/write_scope_enforcement.py:623-938 | the whole effect of an enforcement read off the records and the request: compliance, status of binding and approval, receipt, revocation record, verdict on the run, and everything else left as it was |
| AuthorityVerdicts.EndsUnderLiveAuthority | scripts/amof/write_scope_enforcement.py:684-857 | the five ends under live authority: clean without mutation completes and leaves the approval, clean in scope completes and consumes, out of scope fails and revokes with a record, a failed runner with changes in scope fails and consumes, a moved HEAD fails and leaves the approval as read |
| AuthorityVerdicts.CleanRunBlocksForever | scripts/amof/write_scope_enforcement.py:770-786 | after a clean run without mutation the binding is completed and no bind of the approval succeeds after any further run |
| AuthorityVerdicts.BindsIff | scripts/amof/write_scope_bindings.py:575-742 | a bind succeeds exactly when the run has a name, the approval is live and unblocked, its target free and matching, workspace and roots resolve inside, the observed HEAD is the approved revision and bounded write is granted |
| AuthorityVerdicts.BindFaultMeans | scripts/amof/write_scope_bindings.py:575-742 | a refused bind names a fault that holds of the request and the records |
| AuthorityVerdicts.RootAnswers | scripts/amof/write_scope_bindings.py:190-225 | where a root resolves to, and what each refusal of one says |
| AuthorityVerdicts.ProposesIff | scripts/amof/write_scope_proposals.py:296-399 | a proposal is saved exactly when its candidate freezes and the run has a name |
| AuthorityVerdicts.ApprovesIff | scripts/amof/write_scope_approvals.py:619-676 | an approval is granted exactly to an operator, for a stored proposal whose docs promise holds, with time left |
| AuthorityVerdicts.ApproveFaultMeans | scripts/amof/write_scope_approvals.py:619-676 | a refused approval names a fault that holds; no other fault occurs |
| AuthorityVerdicts.RevokesIff | scripts/amof/write_scope_approvals.py:731-823 | a revocation succeeds exactly for an operator with a reason on an approval live or already revoked, and what it changes |
| AuthorityVerdicts.RevokeFaultMeans | scripts/amof/write_scope_approvals.py:731-823 | a refused revocation names a fault that holds; no other fault occurs |
| AuthorityVerdicts.TransitionsIff | scripts/amof/write_scope_bindings.py:77-86 | active becomes anything else, suspended becomes an end, nothing else moves |
| AuthorityVerdicts.ScopeCases | scripts/amof/write_scope_enforcement.py:128-177 | exactly when the scope is the roots on record as they stand, when it is what they resolve to, and when an error nobody catches ends the call |
| AuthorityVerdicts.ResidualMeans | scripts/amof/write_scope_audit.py:94-117 | what the audit says of a live approval, binding status by binding status |
| Expiry.LazyRefinesEager | scripts/amof/write_scope_approvals.py:366-407 | for every schedule with non-decreasing times, load, revoke and consume answer exactly what a store that expires on the dot would answer |
| Expiry.LazyRefinesEagerReachable | scripts/amof/write_scope_approvals.py:755-823 | and so from every store that any run of proposing, approving, binding and enforcing can reach |
| Audit.AuditAgreesWithBinder | scripts/amof/write_scope_audit.py:94-117 | with strictly increasing bound_at the audit reports that only a new binding is missing exactly when the binder's approval-side checks would pass |
| Audit.AuditAgreesIff | scripts/amof/write_scope_audit.py:94-117 | in every reachable store, whatever record is listed last, audit and binder agree on a live approval exactly when a blocking binding is stamped later than every other of its approval |
| AuditCounterexample.TwinBindsDisagree | scripts/amof/write_scope_audit.py:257-262 | from every store where a live approval could be bound first, two binds in one second, the first failed and the second completed, may be listed in either order: ending on the failed record the audit asks for a binding the binder refuses, ending on the completed one they agree |
| AuditCounterexample.AuditMisleads | scripts/amof/write_scope_audit.py:257-262 | such a run exists from the empty store |
| AuthorityStore.WriteScopeStore.SingleUse | scripts/amof/write_scope_bindings.py:71-86 | on the object: the invariant its methods keep bounds bindings and successes |
| ScopePaths.ClassifyChangedPaths | scripts/amof/write_scope_enforcement.py:257-276 | the loop with its seen set is the classification function |
| ScopePaths.FaithfulPartition | scripts/amof/write_scope_enforcement.py:257-276 | the two lists are disjoint, duplicate-free, and every non-empty key is in the list its own verdict demands, whatever the order |
| ScopePaths.SameKeySameVerdict | scripts/amof/write_scope_enforcement.py:189-254 | paths with one key get one verdict, so dropping a repeated key hides nothing |
| ScopePaths.KeyNamesItself | scripts/amof/write_scope_enforcement.py:189-230 | every text that strips to the relative path printed for an accepted file names that same file again |
| ScopePaths.PlacedIff | scripts/amof/write_scope_enforcement.py:189-230 | a text is placed exactly where it resolves to below the workspace, unless blank, or relative with a parent segment |
| ScopePaths.KeyRereadsIff | scripts/amof/write_scope_enforcement.py:189-230 | without symbolic links the printed path, and so the path on record, names its file again exactly when no white space stands at either end of it |
| ScopePaths.StoredIsItselfIff | scripts/amof/write_scope_bindings.py:320-358 | a binding record keeps a root or workspace exactly when no white space stands at its end |
| ScopePaths.StoredPathsAre | scripts/amof/write_scope_enforcement.py:377-395 | a receipt record keeps the stripped text of each path that is not blank, and nothing else |
| ScopePaths.DenyingShrinks | scripts/amof/write_scope_enforcement.py:233-254 | adding denied roots only shrinks the in-scope list |
| ScopePaths.GuardrailMeansInScope | scripts/amof/write_scope_enforcement.py:1019-1053 | the guardrail with a workspace lets through exactly the paths in the scope its roots resolve to |
| ScopePaths.GuardrailAnswers | scripts/amof/write_scope_enforcement.py:1019-1053 | what the guardrail answers in both modes, and which of its two errors |
| ScopePaths.GuardModesAgree | scripts/amof/write_scope_enforcement.py:1019-1053 | with writable roots inside the workspace and the process standing in it, both modes pass the same trimmed texts, but for relative texts with a parent segment, which only the mode with a workspace refuses |
| ScopePaths.GuardedRunStaysInScope | scripts/amof/write_scope_enforcement.py:1019-1053 | if every changed path is a guarded write, no path is classified out of scope |
| Proposals.NormalizePathIdempotent | scripts/amof/write_scope_proposals.py:117-214 | normalising a scope path twice changes nothing |
| Proposals.NormalSegments | scripts/amof/write_scope_proposals.py:117-206 | a normalised path names at least one plain segment |
| Proposals.ScopePathIff | scripts/amof/write_scope_proposals.py:117-206 | which texts normalise and to what: the exact characters, prefixes and segments refused |
| Proposals.PathFaultMeans | scripts/amof/write_scope_proposals.py:117-206 | what each refusal of a path says |
| Proposals.FreezesIff | scripts/amof/write_scope_proposals.py:229-279 | which candidate bodies freeze and to what, field by field |
| Proposals.NormalizeBodyIdempotent | scripts/amof/write_scope_proposals.py:229-279 | freezing a frozen body changes nothing |
| Proposals.ValidateBodyIdempotent | scripts/amof/write_scope_approvals.py:213-234 | validating a validated body changes nothing |
| Proposals.UnderDocsSegments | scripts/amof/write_scope_approvals.py:203-210 | a root accepted as under docs has `docs` as its first segment |
| Ttl.ParseTtl | scripts/amof/write_scope_approvals.py:110-152 | accepts exactly days, hours, minutes and seconds spelled in this order, each amount at least 1 in any decimal digits, and answers their sum weighted by 86400, 3600, 60 and 1; terminates |
| Ttl.ReadingUnique | scripts/amof/write_scope_approvals.py:110-152 | no text has two readings |
| YamlRoundTrip.RoundTrip | scripts/amof/manifest.py:148-214 | parsing a printed mapping of the fragment returns it |
| YamlRoundTrip.BlockRoundTrip | scripts/amof/manifest.py:156-212 | a value printed at any indentation parses back, leaving exactly the less indented lines that follow |
| YamlRoundTrip.EmptyListBecomesMapping | scripts/amof/manifest.py:510-530 | outside the fragment: an empty list comes back as an empty mapping |
| YamlScalars.StringSurvivesIff | scripts/amof/manifest.py:115-145 | exactly which strings survive printing and parsing, for every table of decimal digits |
| YamlScalars.ForeignDigitIsANumber | scripts/amof/manifest.py:132-139 | a decimal digit outside ASCII reads as its value, so its text does not survive |
| YamlScalars.IntSurvives | scripts/amof/manifest.py:494-507 | every integer survives printing and parsing |
| YamlScalars.WordSurvives | scripts/amof/manifest.py:494-507 | booleans and null survive printing and parsing |
| Yaml.ParseStops | scripts/amof/manifest.py:156-212 | a block stops only before a line indented less than it |
| Yaml.ParseConsumesAll | scripts/amof/manifest.py:213-214 | at indentation 0 every line is consumed |
| YamlText.IgnoredLine | scripts/amof/manifest.py:148-154 | blank lines and comment lines may stand anywhere |
| YamlText.TrailingComment | scripts/amof/manifest.py:115-128 | what a comment behind a value leaves: the value, or, behind a single space and with a hash sign behind two spaces in it, the text up to that sign |
| YamlText.QuotedText | scripts/amof/manifest.py:140-145 | text in quotes of either kind is its body |
| YamlText.IntegerIff | scripts/amof/manifest.py:132-134 | exactly which texts read as an integer, and as which: a sign, and digit groups joined by single underscores |
| YamlText.FloatIff | scripts/amof/manifest.py:135-139 | exactly which texts read as a float |
| YamlText.JsonReadsBack | scripts/amof/manifest.py:494-507 | what is printed between quotes is a JSON string (section 7 of RFC 8259) of the very text |
| YamlBlocks.LineReads | scripts/amof/manifest.py:156-205 | how a content line reads: item exactly with a dash and a space, pair exactly with a colon, key and value on either side of the first colon; no line is an empty item, so that branch is dead |
| YamlBlocks.PutMeans | scripts/amof/manifest.py:193-205 | a repeated key keeps its place and takes the last value |
| YamlBlocks.InlineItemStartsMapping | scripts/amof/manifest.py:168-182 | an item `- key: value` with a mapping under it is the mapping that the pair, two columns further in, starts |
| YamlBlocks.RefusedTextMeans | scripts/amof/manifest.py:156-205 | a text is refused only for a line that is neither item nor pair, which is named, or for having both |
| YamlBlocks.NestedItemsRefused | scripts/amof/manifest.py:510-530 | outside the fragment: what is printed for a list with a list or mapping in it is refused by the parser, wherever it stands in the value |
| ManifestText.DumpYaml | scripts/amof/manifest.py:510-530 | the printing loops are the printer, and on the fragment the parser undoes them |
| ManifestText.ParseBlock | scripts/amof/manifest.py:156-212 | the parsing loop terminates and is the parser, position by position |
| ManifestText.SimpleParseYaml | scripts/amof/manifest.py:148-214 | the entry point is the parser on the content lines |
| KubernetesRuns.ReadinessEntersOnce | scripts/amof/kubernetes_capability.py:1384-1502 | an approval for one exact readiness operation enters an executor at most once over all calls |
| KubernetesRuns.OneChangingPass | scripts/amof/kubernetes_capability.py:1531-1540 | an approval yields at most one PASS for a patch that changed something, and is not live after it |
| KubernetesRuns.PassMeansVerified | scripts/amof/kubernetes_capability.py:1142-1172 | PASS means the operation met the approval's own grant field by field (cluster, namespace, resource, verb, mutation, name, exact operation), was executed and verified |
| KubernetesRuns.EntriesInGrant | scripts/amof/kubernetes_capability.py:324-371 | every operation that ever entered an executor met its approval's grant field by field |
| KubernetesBody.InGrantIff | scripts/amof/kubernetes_capability.py:324-371 | classification finds no fault exactly with the operations the fields of the grant admit |
| KubernetesVerdicts.ExecutionVerdict | scripts/amof/kubernetes_capability.py:1287-1574 | the whole effect of a call: refused, and for which reason, or entered, exactly when the approval can be acquired and the operation meets the grant; the receipt, statuses and acceptance that follow |
| KubernetesVerdicts.DeclinedMeans | scripts/amof/kubernetes_capability.py:1287-1384 | a declined call names a fault that holds of the records; no other code is declined with |
| KubernetesVerdicts.GrantsWellFormed | scripts/amof/capability.py:104-250 | every grant on record, at every point of every run, is of the stated form: known verbs, no patch without mutation, an exact patch of a listed and undenied Deployment |
| KubernetesVerdicts.RevokesIff | scripts/amof/kubernetes_capability.py:780-825 | a revocation succeeds exactly on a live or already revoked approval, and what it changes |
| KubernetesRuns.ReadinessPassIsReadBack | scripts/amof/kubernetes_capability.py:1084-1139 | a PASS of a readiness patch was read back on one object, timeout 1 then 3, generation and version advanced, every condition by field |
| KubernetesRuns.GuardsUnreachable | scripts/amof/kubernetes_capability.py:1327-1574 | past the checks on the request's own form (normalize_patch, executor), re-classification after execution, the refusal to mint and the diverged-hash denial are unreachable; the only escaping errors are a missing run id and an approval that fell due while being spent |
| KubernetesRuns.ChangeIsFreeIff | scripts/amof/kubernetes_capability.py:1531-1540 | a verified change gets its PASS, leaves the approval live and does not block exactly when the verb does not mutate |
| KubernetesRuns.BindsIff | scripts/amof/kubernetes_capability.py:947-1003 | a bind goes through exactly when the approval is live and nothing blocks it |
| KubernetesRuns.EndedBindingReplacedIff | scripts/amof/kubernetes_capability.py:974-1003 | an ended binding record is overwritten exactly by a bind of its own approval and run in its own second, while the approval is live and nothing blocks it |
| KubernetesStore.CapabilityStore.ExecuteCapability | scripts/amof/kubernetes_capability.py:1287-1574 | the executor's bookkeeping on the records is the execution function, whose whole effect KubernetesVerdicts.ExecutionVerdict gives |
| KubernetesStore.CapabilityStore.ReadinessOnce | scripts/amof/kubernetes_capability.py:1384-1502 | on the object: while the invariant its methods keep holds, a readiness approval has entered once and is not live |
| KubernetesStore.CapabilityStore.ResolveAnswer | scripts/amof/kubernetes_capability.py:1415-1574 | every branch after the executor was entered |
| KubernetesStore.CapabilityStore.CreateBinding | scripts/amof/kubernetes_capability.py:947-1003 | binding on the records |
| KubernetesBody.FrozenGrantVerifiesIff | scripts/amof/capability.py:104-250 | a frozen body verifies unchanged exactly when no two entries of a lower-cased list became equal |
| KubernetesBody.PatchIff | scripts/amof/kubernetes_capability.py:259-306 | which patches are accepted, and as what |
| KubernetesBody.CleanedLowerIdempotentIff | scripts/amof/capability.py:85-101 | deduplicating before lower-casing is idempotent exactly on lists distinct after lower-casing |
| KubernetesBody.UniquePreserve | scripts/amof/capability.py:74-82 | the loop keeps first occurrences in order |
| KubernetesBody.PatchIdempotent | scripts/amof/kubernetes_capability.py:259-306 | a normalised patch normalises to itself |
| KubernetesNames.NamesMatch | scripts/amof/capability.py:41-43 | the checks on cluster, namespace and resource names, contexts, tokens and annotation values accept exactly the texts their regular expressions match |
| Readiness.VerifiedMeans | scripts/amof/kubernetes_live.py:264-305 | a verified readiness patch is the same named object in the same namespace, timeout 1 then 3, generation and version advanced, every other place outside five named fields alike |
| Readiness.PatchedIsVerified | scripts/amof/kubernetes_live.py:264-305 | conversely the patched object, advanced and of the same identity, is verified |
| Readiness.ServerWrittenIgnored | scripts/amof/kubernetes_live.py:233-253 | objects that differ in one of the five fields the server writes, present or not, compare alike |
| Readiness.VerifiedIsFrameChange | scripts/amof/kubernetes_live.py:233-253 | the whole-object comparison is a frame statement about every place of the document |
| Readiness.PatchedVerifies | scripts/amof/kubernetes_live.py:233-253 | an object that equals the patched one up to the erased fields passes the comparison |
| Readiness.OneAndTrueConflated | scripts/amof/kubernetes_live.py:253-253 | the comparison can tell 1 neither from true nor from 1.0 |
| Readiness.PyEqualIsSameIff | scripts/amof/kubernetes_live.py:253-253 | values found equal are the same exactly when the same places hold truth values and the same places hold decimals |
| Readiness.PatchAppliesIffAsRead | scripts/amof/kubernetes_live.py:523-542 | the patch applies exactly to the version that was read, its timeout 1 by value, and then sets the timeout |
| Readiness.PatchedFrame | scripts/amof/kubernetes_live.py:523-542 | and it changes no other place |
| Readiness.ReadinessContainer | scripts/amof/kubernetes_live.py:190-207 | finds the one valid, uniquely named container with an integer timeout, and raises exactly when there is none |
| Readiness.SlotUnique | scripts/amof/kubernetes_live.py:190-207 | a document has at most one readiness container of a name, at one index with one timeout |
| Readiness.ReadinessOnlyChange | scripts/amof/kubernetes_live.py:233-253 | popping and overwriting copies decides the comparison |
| BundleRuns.FinalIsAbsentOrSealed | scripts/amof/trust_layer.py:497-544 | at every point of every interleaving of finalisers, with crashes and failures, the final path is absent or one complete bundle with all of `Guaranteed`: true signature verdict, signature file where finalized is claimed, result digest, file hashes, one run id, coherent documents |
| BundleRuns.FinalIsForever | scripts/amof/trust_layer.py:454-485 | once there it is never replaced or removed |
| BundleRuns.OnePublisher | scripts/amof/trust_layer.py:497-544 | at most one finaliser succeeds, and what it published is what is there |
| BundleRuns.LonePublishes | scripts/amof/trust_layer.py:497-544 | a finaliser that runs alone, with writable inputs and a signer that leaves a guaranteed tree, publishes that tree in twelve moves |
| BundleVerdicts.PublishedWasWritable | scripts/amof/trust_layer.py:721-842 | at every point of every interleaving, whoever published was handed writable documents |
| BundleVerdicts.FailureNeverPublishes | scripts/amof/trust_layer.py:497-544 | a finaliser that is killed, or meets a failing operation past its first check, never publishes, whatever happens after |
| BundleVerdicts.LatecomersDoNothing | scripts/amof/trust_layer.py:497-544 | a finaliser that starts after something was published makes no staging directory and does not get past its first check |
| BundleVerdicts.Cleans | scripts/amof/trust_layer.py:497-544 | giving up leaves a staging directory only where removing it fails; publishing leaves none |
| BundleRuns.BundleStore.WriteBundle | scripts/amof/trust_layer.py:721-842 | writing file by file yields the canonical tree, and succeeds exactly for writable documents |
| BundleRuns.BundleStore.FinalizeSignedBundle | scripts/amof/trust_layer.py:497-544 | a lone finaliser succeeds exactly under its stated conditions, publishes the signed tree with all of `Guaranteed`, and always cleans its staging |
| Bundle.WrittenBundleVerifies | scripts/amof/trust_layer.py:721-842 | every bundle that is written passes manifest verification, whatever bytes the result source holds |
| Bundle.WrittenBundleConsistentIff | scripts/amof/trust_layer.py:912-1034 | and is consistent exactly when the run has an id, the result is a JSON object, the receipt names that run or none, and the contents cohere |
| Bundle.ManifestDeterminesContents | scripts/amof/trust_layer.py:845-909 | verified bundles with one manifest have the same listed files |
| Bundle.VerifiesIff | scripts/amof/trust_layer.py:845-909 | a tree verifies exactly when it holds the five required files and at most a signature beside them, and its manifest lists the other four, each with its digest and size, and nothing else |
| Bundle.SealedIff | scripts/amof/trust_layer.py:912-1103 | a tree is sealed exactly when it has the guarantees, stated without the checks |
| Bundle.VerifyEvidenceBundle | scripts/amof/trust_layer.py:845-909 | the verification loop accepts exactly the trees the manifest describes |

## Left out

- AuthorityRuns.GuardedRunIsCompliant: covers the guardrail called with the binding's workspace, and enforcements whose scope is what the roots on record resolve to (`ScopeResolves`, `TidyGroundHolds` say when); the prefix mode without a workspace is compared with it by `ScopePaths.GuardModesAgree`.
- AuthorityGrowth.GrowthIff: an enforcement in a workspace that is no longer a directory uses the roots on record unresolved; for one of them that is itself a link only the safe direction is stated.
- AuthorityGrowth.NoAuthorityGrowth: false where a root on record is wider than the resolved one (`GrowthCounterexample`), so it is proved under `NeverWider`; the file system's links are the same over the run; a link that changes between bind and enforcement is not modelled.
- AuthorityStore.WriteScopeStore.EnforceMutations: restoring out-of-scope files, the texts of reasons, and the union list of changed paths are not part of the records here; a crash between its two record writes is not modelled.
- AuthorityStore.WriteScopeStore.AuditApproval: other seeds (run id, proposal, binding, receipt) and the execution result are not modelled; they only select which records are shown.
- AuthorityStore.WriteScopeStore.RevokeApproval: the event is not kept; both records are written in one step; the reason of a revocation by enforcement is one constant.
- AuthorityStore.WriteScopeStore.ApproveProposal: overflow of very large durations is not modelled.
- CampaignFile.CampaignGate.AdvanceCampaign: evidence references and the progress text in a completed record are not kept; a failing save inside an advance is a crash; callbacks are taken not to change the dictionaries they are handed.
- CampaignAuthority.ChangedFilesAuthorized: for a file whose printed text begins or ends in white space it says only that the store accepted it, because the campaign compares the stripped text, which then names another file; `ChangedFilesStayInside` covers those files without symbolic links.
- CampaignRuns.WritesStayAuthorized: the frozen body of an approval is the same at every reading, which is what `AuthorityRuns.RecordsAlwaysVerify` gives for the write-scope store.
- KubernetesRuns.GuardsUnreachable: a malformed patch and an unsupported executor raise before the modelled part.
- KubernetesRuns.ReadinessEntersOnce: an executor that raises anything but the two declared errors leaves its binding active; such runs are not covered, and neither is a crash inside one call.
- KubernetesStore.CapabilityStore.ExecuteCapability: digests, event log, denial records and the shape of the change summary are not modelled; the fixture executor is one instance of an arbitrary answer.
- Readiness.VerifiedMeans: covers the readiness patch; the annotation patch compares one field. Resource versions are ASCII text, and decimals are exact.
- Ttl.ParseTtl: the interpreter's limit on the number of digits is not modelled, nor which of two messages a refused text gets.
- YamlRoundTrip.RoundTrip: the fragment has no floats, no escapes inside quotes, no colons in list items and no nested values in lists, because printer and parser disagree there; `YamlText` and `YamlBlocks` say what the parser does outside it.
- YamlScalars.IntSurvives: the interpreter's limit on the number of digits is not modelled.
- BundleRuns.FinalIsAbsentOrSealed: nothing but finalisers writes to the final path, staging names never clash, removing a staging directory is one step, and syncing to disk is not modelled.
- Bundle.WrittenBundleConsistentIff: timestamps, workspace, git and seal cross-checks are one predicate on the three documents; signatures are a predicate on the tree.
- File formats, permissions, fsync and event logs: replaced by updates of maps.
- Races between processes on the write-scope and Kubernetes stores: the code locks only within a process, so each call is one step.
- `canonical_acceptance.py`, the handoff commands and the signing code: an abstract predicate and a derived identity stand for them; they are not part of this model.
- `reference_capability.py`, `demo_runtime.py`, `romulo_product_bridge.py`: they repeat the Kubernetes life cycle or call it.
- Command line, configuration, documentation building, manifest field validation, critics and smoke scripts: field checks and plumbing, settled by reading one branch.
