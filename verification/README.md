# Release and operations tooling: a verified model

This project models the tooling with which Agent Room is released, deployed and measured, and proves what
that tooling is meant to guarantee. Most of it is written to survive crashes and retries, so most of the
theorems range over every sequence of processes that end anywhere.

| module | models |
|---|---|
| `ReleaseLog`, `ReleaseFlow` | the resumable release command (checkpoint, workflow runs, candidate verification, uploads, gates): what its steps may be, and the command itself |
| `ReleaseDeploy` | the checkpointed `server` and `web` deployment phases on the host |
| `ReleasePromotion` | append-only promotion records in write-once files |
| `ReleasePayload` | the unpadded base64url payload of a signed manifest |
| `KeycloakReconcile`, `PasswordPolicy` | fail-closed reconciliation of the identity realm, and its policy parser and printer |
| `ReadinessIssues` | blockers kept in step with tracker issues |
| `ActionsArtifacts` | retention of workflow artifacts |
| `EventNamespace` | migration of the event namespace by replacement |
| `AgentRuntimeAcceptance` | decoding of event streams and the unique terminal JSON-RPC response |
| `NetworkAgentLoad` | delivery accounting and send pacing of the load driver |
| `Percentiles` | the two nearest-rank percentiles and the latency summary |
| `CapacityFederation` | first-occurrence bookkeeping of a backfill and its verdict |
| `ProtocolCodegen` | property names, generated field names, and serde's renaming |
| `Text`, `Wrappers`, `Outcomes`, `Rounding` | occurrences of one string in another; optional values; how a call ends; rounding up |

## How crashes and lost answers are modelled

The process is a class whose fields are its memory. The outside is a class too: its fields are the
checkpoint file and the remote state, and each of its methods is one atomic step that may end the process
just before or just after its effect (`if * { return Stopped; }`). That covers a crash between any two
steps, a refused request, and a request that takes effect while its answer is lost. Values that the process
cannot know are chosen freely (`:= *`). A ghost log collects the steps that took effect, over all processes.

`Permitted` says which step may follow a log and `Lawful` that every step of a log was permitted. Both are
local: one step against what came before. The methods show that the code writes lawful logs only; the lemmas
draw the consequences for whole logs, by induction and without looking at the code again. `Operate` closes
the argument: any number of processes, one after another, with any inputs, keeps the log lawful.

## Where the code does less than one might expect

Each of these is a theorem, with the exact condition under which the expected property does hold.

- A candidate that passed verification is locked only once the checkpoint is saved. `UnsavedVerificationDoesNotLock`
  shows, from any point at which nothing is locked and for any two digests, that the steps of a process that
  verifies one and ends before the save, and then those of the next process through its gates up to the
  verification of the other, are each permitted where they stand. With the lock on disk only the same candidate
  passes (`VerifiedAfterLock`).
- A deployment effect may repeat when the process ends between the effect and the save of its flag
  (`MayRepeatBeforeFlag`, with the steps of the next process up to the same effect), and never after that save
  (`NoRepeatAfterFlag`).
- Promotion files are created before they are written. An interrupted write leaves a file that neither
  parses nor may be overwritten, so even `resume` is refused from then on (`ResumeAfterInterruption`). The
  deployment takes such a file for the record and refuses it in every later process (`CutIsFinal`), so it stops for
  good: the gateway never starts, and without the evidence of the migration no service does (`CutStopsTheDeployment`).
- An interrupted rewrite of the event namespace leaves the beginning of a migrated file. It holds no occurrence of
  the retired name, so it is neither reported nor repaired (`CutIsNotReported`): a later complete migration succeeds,
  and gives the tree of an uninterrupted one exactly when no file was cut (`MigrationConverges`).
- Password policies are joined by " and " without escaping. Reading back returns the terms exactly when no
  kept term but the last ends in " and" (`PolicyReadsBack`); applying the policy twice equals applying it
  once exactly when the terms settle (`PolicyIsIdempotent`), which terms without inner white space always do.
- Event-stream lines are split where `str.splitlines` splits, which is at eight characters more than
  section 9.2.6 of the WHATWG HTML Standard names. A payload with one of them is lost (`AgainstTheStandard`).
- The ledger keeps deliveries that were counted for a message which is withdrawn afterwards. In every window,
  received plus missing equals expected plus withdrawn deliveries, so received exceeds expected exactly when more
  were withdrawn than are missing (`DeliveriesBalance`); once everything has come, exactly when a delivered message
  was withdrawn (`CompleteWindow`, with a window of that kind in `WithdrawnDeliveryOvercounts`).
- An artifact that is stale now may be kept again when the listing grows. It stays stale whatever is added exactly
  when, wherever it competes, some artifact of its name is strictly newer and not merely tied
  (`StaleForGoodExactlyWhen`); with distinct identifiers that is always so (`StaleStaysStale`, against
  `TiesDependOnOrder`).
- Issues are recognised among the 1000 newest only. A complete run keeps one issue per blocker exactly when no
  blocker has an issue beyond those (`DoubledExactlyWhenHidden`).
- An identifier that does not match the marker pattern is never recognised, and nothing refuses it. Each further
  complete run for the same blockers creates exactly one new issue for each such blocker (`NextRunCreates`), so one
  issue per blocker holds over repeated runs exactly when all identifiers are well-formed (`Repeat`).
- Generated field names are distinct unless a property called `extensions` meets the generated field of that
  name (`FieldsAreDistinct`); a property survives serde exactly when it is in camel case (`NameReadsBack`). A name
  shares its field with some other name exactly when one of its letters is a capital, or a lower-case letter that does
  not directly follow a lower-case letter or digit (`CollidesExactlyWhen`).
- The padding of a payload is computed from its whole length, while the library decoder skips characters
  outside the alphabet: with such characters mixed in, a payload may not decode (`DecodesExactlyWhen`).
- The backfill wait stops at the first batch that completes the set. The repeats that it reports are all of the
  stream's exactly when no expected id occurs in a later batch (`LaterRepeatsGoUnseen`).
- The two percentiles agree on [0, 1]; below 0 one refuses and the other takes the smallest value, and above 1 both
  fail (`ImplementationsAgree`, `ImplementationsDiffer`, `ImplementationsAgreeExactlyWhen`).

## Model

| member | source | states |
|---|---|---|
| ReleaseLog.DiskAdvances | tools/release_flow.py:40-51 | across any crashes and processes the checkpoint only advances: inputs stay locked, entries keep their operation, `dispatched`, a set run id, `downloaded` and a set manifest digest never change back |
| ReleaseLog.RequestIsDurable | tools/release_flow.py:216-221 | once a workflow was requested, the file on disk says `dispatched` for that operation, from just before the request on and for ever |
| ReleaseLog.AtMostOneRequest | tools/release_flow.py:182-222 | over all invocations, crashes and lost answers, at most one `gh workflow run` per workflow entry of a checkpoint |
| ReleaseLog.LockedRunNeverChanges | tools/release_flow.py:264-282 | a locked run id, and the operation that it belongs to, never change |
| ReleaseLog.LockedDigestWasVerified | tools/release_flow.py:327-354 | a manifest digest on disk belongs to a candidate that passed all inspections before |
| ReleaseLog.OneDigest | tools/release_flow.py:356-364 | every deployment requested or completed, the public release and the channel carry one and the same digest, verified before |
| ReleaseLog.VerifiedAfterLock | tools/release_flow.py:336-339 | after the digest is locked on disk only the same candidate passes verification |
| ReleaseLog.CompletionIsOneCandidate | tools/release_flow.py:435-449 | a completed release is one candidate: the digest verified and locked by this process is the one on disk, confirmed in public and on the channel, deployed, and carried by every deployment or confirmation of any process |
| ReleaseLog.StageIsEarned | tools/release_flow.py:451-456 | in every log the stage on disk is true: it belongs to the profile, and all gates before it were shown in list order, all of them for a finished release |
| ReleaseLog.FinishedIsOneCandidate | tools/release_flow.py:435-449 | whichever processes wrote it, a checkpoint that calls the release finished means one candidate: verified, locked, confirmed in public and on the channel, deployed for a full release, and the only digest ever carried |
| ReleaseLog.CandidateFollowsCi | tools/release_flow.py:438-439 | in every log, interrupted or not, a candidate is requested, drafted or verified only after a full CI run of the locked revision succeeded with all its jobs |
| ReleaseLog.PublicationFollows | tools/release_flow.py:441-444 | in every log publication is requested only on the release branch of the locked tag, and only after the candidate, the promotion and the usability record were verified, in this order; only that candidate is ever carried anywhere |
| ReleaseLog.WebFollows | tools/release_flow.py:444-447 | in every log the web is deployed for a full release only, after those verifications, a successful publishing run on the release branch and the public confirmation of the digest that is deployed, in this order |
| ReleaseLog.RequestsAreOnMain | tools/release_flow.py:211-217 | CI and candidate runs are requested on main, just seen at the locked revision |
| ReleaseLog.SucceededRunIsOurs | tools/release_flow.py:223-230 | a success is that of the locked run: dispatched for the operation of the entry, on the branch of its workflow and at the locked revision |
| ReleaseLog.FullCiHasAllJobs | tools/release_flow.py:152-156 | a full CI run that succeeded has every one of the nine jobs |
| ReleaseLog.FirstCheckpointIsEmpty | tools/release_flow.py:470-475 | the first checkpoint says that nothing was run, downloaded, recovered or verified |
| ReleaseFlow.VerdictMeans | tools/release_flow.py:142-156 | exactly when a run passes, when it is polled on, and when it waits for the operator |
| ReleaseLog.UnsavedVerificationDoesNotLock | tools/release_flow.py:352-354 | without the save any other candidate may pass verification in the next process, after the same gates in their order |
| ReleaseFlow.World.Save | tools/release_flow.py:40-51 | the checkpoint file is replaced as a whole or not at all |
| ReleaseFlow.World.Request | tools/release_flow.py:218-222 | a request may be lost, take effect silently, or be confirmed; it is issued only right after its intent was saved |
| ReleaseFlow.World.ListRuns | tools/release_flow.py:197-201 | a listing shows only runs of the workflow, branch and revision, and perhaps not all of them |
| ReleaseFlow.World.UploadAsset | tools/release_flow.py:403-404 | an upload adds an asset under a new name and alters none |
| ReleaseFlow.World.CreateBranch | tools/release_flow.py:257-260 | a branch is created or left as it is |
| ReleaseFlow.ReleaseFlow.constructor | tools/release_flow.py:159-165 | a process starts with the checkpoint in memory and no gate completed |
| ReleaseFlow.ReleaseFlow.SaveEntry | tools/release_flow.py:186-190 | one run entry changes in memory and on disk, and an id is written only if it names a run with the entry's title, workflow, branch and revision |
| ReleaseFlow.ReleaseFlow.RunWorkflow | tools/release_flow.py:182-239 | a normal return means that the run of this operation succeeded with its required jobs, or that a failed candidate run was recovered by verification |
| ReleaseFlow.ReleaseFlow.ExamineRun | tools/release_flow.py:223-239 | a normal return begins with the success of the locked run, or, for the candidate workflow only, with its end without success and no further request; then a recovered candidate is only verified again and another one recovered from its archive; it polls on only for a run that has not ended |
| ReleaseFlow.ReleaseFlow.LocateOrRequest | tools/release_flow.py:196-222 | of the runs listed, those with the operation's title decide: a single one is locked; several stop without a trace; none after a dispatch waits without another request; only an undispatched entry is requested |
| ReleaseFlow.ReleaseFlow.FindRuns | tools/release_flow.py:197-201 | the runs matched are exactly the listed ones with the operation title, and all belong to the entry |
| ReleaseFlow.ReleaseFlow.RequestRun | tools/release_flow.py:211-222 | the ref is checked, then the intent saved, then the request issued, with the operation of the entry and on the branch of its workflow; the call never ends normally |
| ReleaseFlow.ReleaseFlow.CheckMain | tools/release_flow.py:214-215 | passes only while main points at the locked revision |
| ReleaseFlow.ReleaseFlow.PinReleaseBranch | tools/release_flow.py:246-262 | passes only when the release branch was read at the locked revision |
| ReleaseFlow.ReleaseFlow.AttachRun | tools/release_flow.py:264-282 | an attached run has the operation title, workflow, branch and revision of the entry, and never replaces a locked one |
| ReleaseFlow.ReleaseFlow.PassInspections | tools/release_flow.py:327-353 | all inspections pass in order, and the digest equals the locked one if there is one |
| ReleaseFlow.ReleaseFlow.LockDigest | tools/release_flow.py:352-354 | only the digest of the candidate verified just before is locked, and saved |
| ReleaseFlow.ReleaseFlow.InspectCandidate | tools/release_flow.py:327-354 | on return the verified digest is the one locked in memory and on disk |
| ReleaseFlow.ReleaseFlow.ChooseArchive | tools/release_flow.py:286-292 | only a finished candidate run of the locked revision on main is accepted |
| ReleaseFlow.ReleaseFlow.RecoverCandidate | tools/release_flow.py:284-318 | the run is chosen first, its archive verified, no run requested, a release there, and the recovered run recorded |
| ReleaseFlow.ReleaseFlow.RestoreDraft | tools/release_flow.py:307-315 | a public release stops the recovery before any upload; on return there is a release |
| ReleaseFlow.ReleaseFlow.Upload | tools/release_flow.py:384-404 | on return every file is in the release with its local digest; no existing asset changed; if all were there already, nothing is uploaded |
| ReleaseFlow.ReleaseFlow.Deploy | tools/release_flow.py:356-364 | the deployment received the locked digest and completed; without a deployment target it waits and leaves no trace |
| ReleaseFlow.ReleaseFlow.RequireCompatibleServer | tools/release_flow.py:366-382 | the compatible-server record is there, after a deployment if it was not, and was verified in this call |
| ReleaseFlow.ReleaseFlow.RequireUsability | tools/release_flow.py:406-419 | the usability reports were verified in this call |
| ReleaseFlow.ReleaseFlow.RequirePublication | tools/release_flow.py:421-433 | the public release and the channel both carried the locked digest when read |
| ReleaseFlow.ReleaseFlow.Perform | tools/release_flow.py:438-447 | a gate that returns normally left its evidence in the log during the call (a download: at any time); only the gates of runs are polled on |
| ReleaseFlow.ReleaseFlow.EnterStage | tools/release_flow.py:176-180 | only the stage changes, after the gates before it were shown, and nothing is saved when it does not |
| ReleaseFlow.ReleaseFlow.EnterAndPerform | tools/release_flow.py:454-455 | the stage is written down first, and the gate is shown after that |
| ReleaseFlow.ReleaseFlow.Step | tools/release_flow.py:451-456 | a gate that returned normally in this process is not performed again and leaves the log as it is; a gate counts only after a normal return |
| ReleaseFlow.ReleaseFlow.Advance | tools/release_flow.py:435-449 | completion means that every gate of the profile returned normally in this process, in list order, each shown by the log after the one before it |
| ReleaseFlow.Poll | tools/release_flow.py:523-531 | polling ends with completion only when one pass through all gates did |
| ReleaseFlow.Invoke | tools/release_flow.py:499-531 | one process: changed inputs are refused without a trace; completion means that every gate was shown in this process, the finished stage is on disk, and every run that the operator named is the locked one |
| ReleaseFlow.Operate | tools/release_flow.py:498-535 | any number of processes keeps the log lawful, every locked id naming a run of its operation, and every asset |
| ReleaseDeploy.FlagsNeverGoBack | tools/release_deploy.py:84-86 | flags on disk only grow, and candidate, configuration, backup id and baseline are written once |
| ReleaseDeploy.NoRepeatAfterFlag | tools/release_deploy.py:155-159 | no guarded effect begins after its flag is on disk, in whatever process |
| ReleaseDeploy.MayRepeatBeforeFlag | tools/release_deploy.py:197-203 | before that it may begin again, in the next process and after its checks |
| ReleaseDeploy.OneBackupPerCheckpoint | tools/release_deploy.py:117-143 | no backup is taken once the first checkpoint exists |
| ReleaseDeploy.FirstCheckpointIsTrue | tools/release_deploy.py:117-143 | the checkpoint records what was found: the services before, a verified backup that changed no configuration, and whether rendering changed Synapse's configuration |
| ReleaseDeploy.RecordsAreWrittenOnce | tools/release_deploy.py:174-175 | each promotion record is written once over all processes, whole or in part |
| ReleaseDeploy.CutIsFinal | tools/release_deploy.py:174-176 | a record left unfinished is never verified and never written, in whatever process |
| ReleaseDeploy.CutStopsTheDeployment | tools/release_deploy.py:204-229 | with an unfinished record no gateway starts in any process, and with unfinished migration evidence nothing but the pull and the migration begins |
| ReleaseDeploy.MigrationNeedsBackup | tools/release_deploy.py:144-147 | a migration begins only after the saved backup id was verified again in the same process, and after the images were pulled |
| ReleaseDeploy.ServerNeedsMigration | tools/release_deploy.py:195-214 | identity and control plane start only after the migration ended and was saved, its evidence was verified in this process, and a needed Synapse restart ended and was saved |
| ReleaseDeploy.VerifiedServerWasStarted | tools/release_deploy.py:207-219 | a server flag means that the services were started, the realm synchronised, and control plane and identity seen healthy, each from its own image of the candidate, every other container the one found at first |
| ReleaseDeploy.VerifiedWebWasStarted | tools/release_deploy.py:229-233 | a web flag means that the gateway was started and then seen healthy from the web image of the candidate, with the server beside it |
| ReleaseDeploy.RunningMeans | tools/release_deploy.py:179-190 | the check of the running services passes exactly if each updated service runs healthy from its own image of the candidate, by reference and by image id, and no other container changed |
| ReleaseDeploy.GatewayIsLast | tools/release_deploy.py:222-233 | the gateway starts only with the server flag on disk, and after backup, migration, evidence, server start, verification and the compatible-server record, in this order |
| ReleaseDeploy.World.Save | tools/release_deploy.py:84-86 | the checkpoint is replaced as a whole or not at all, and the log gains this save or nothing |
| ReleaseDeploy.World.Do | tools/release_deploy.py:91-92 | an effect may not begin, not end, or end with its result lost |
| ReleaseDeploy.World.WriteRecord | tools/release_deploy.py:174-175 | an existing record is never written again; an interruption leaves nothing, an unfinished record or the record |
| ReleaseDeploy.Deployment.constructor | tools/release_deploy.py:54-57 | a process starts from the checkpoint on disk |
| ReleaseDeploy.Deployment.Baseline | tools/release_deploy.py:109-113 | passes only while the deployed configuration is the recorded one, and leaves no trace otherwise |
| ReleaseDeploy.Deployment.TakeBackup | tools/release_deploy.py:128-131 | a fresh backup is verified at once and refused if it changed the configuration |
| ReleaseDeploy.Deployment.RenderAndSave | tools/release_deploy.py:135-143 | the first checkpoint records the rendered configuration and what rendering changed |
| ReleaseDeploy.Deployment.FirstCheckpoint | tools/release_deploy.py:117-143 | the first checkpoint follows a verified backup and records the configuration rendered afterwards |
| ReleaseDeploy.Deployment.Prepare | tools/release_deploy.py:115-159 | on return the backup was verified in this process and the images are pulled |
| ReleaseDeploy.Deployment.PullImages | tools/release_deploy.py:155-159 | on return the pulled flag is saved; nothing is pulled once it is |
| ReleaseDeploy.Deployment.Evidence | tools/release_deploy.py:161-177 | on return the record exists and was verified in this process, whether it existed before or not; an unfinished one is refused without a trace |
| ReleaseDeploy.Deployment.RestartSynapse | tools/release_deploy.py:72-82 | a changed Synapse configuration means a completed, saved restart on return |
| ReleaseDeploy.Deployment.ExpandDatabase | tools/release_deploy.py:197-204 | on return the migration is saved and its evidence verified |
| ReleaseDeploy.Deployment.StartServices | tools/release_deploy.py:207-216 | on return the realm is synchronised and the services were started now or verified before |
| ReleaseDeploy.Deployment.ConfirmServer | tools/release_deploy.py:217-219 | the server flag is saved only straight after the running services were verified, the gateway among them once the web phase is done |
| ReleaseDeploy.Deployment.VerifyRunning | tools/release_deploy.py:179-193 | on return each updated service ran healthy from its own image of the candidate, every other service kept its container, and the configuration held |
| ReleaseDeploy.Deployment.Server | tools/release_deploy.py:195-220 | on return the server is verified, saved, and its record verified |
| ReleaseDeploy.Deployment.Web | tools/release_deploy.py:222-233 | refused without a trace before the server phase, and refused with an unfinished record; on return the web flag is saved |
| ReleaseDeploy.Deployment.StartWeb | tools/release_deploy.py:229-233 | the gateway is started in this process unless it was verified before, and the flag is saved straight after a verification that includes it |
| ReleaseDeploy.Operate | tools/release_deploy.py:236-254 | any number of processes of either phase keeps the log lawful |
| ReleasePromotion.ValidateRecord | tools/release_promotion.py:145-174 | accepts a record exactly when its history is, by name, the stages after the candidate up to its own, with well-formed entries |
| ReleasePromotion.ValidByName | tools/release_promotion.py:145-174 | the history of a valid record for each stage, by the names of the stages, and the form of every entry |
| ReleasePromotion.PromoteKeepsValid | tools/release_promotion.py:269-283 | a transition keeps records valid, goes one stage on and appends one entry |
| ReleasePromotion.ValidIsReachable | tools/release_promotion.py:145-200 | a record is valid exactly when replaying its own history from the initial record gives it |
| ReleasePromotion.AdvanceWritesOnce | tools/release_promotion.py:249-298 | no file changes; the output holds a valid record whose history extends that of the source by one |
| ReleasePromotion.ResumeSucceeds | tools/release_promotion.py:284-297 | resuming the identical transition at any later time succeeds and changes nothing |
| ReleasePromotion.OtherTransitionsAreRefused | tools/release_promotion.py:284-298 | any other stage or evidence, an earlier time, or a repetition without `resume` is refused |
| ReleasePromotion.ResumeAfterInterruption | tools/release_promotion.py:177-184 | after an interruption, resuming works exactly unless it left an unfinished file |
| ReleasePromotion.RecordStore.WriteNew | tools/release_promotion.py:177-184 | existing files stay; an interruption may leave an unfinished file |
| ReleasePromotion.RecordStore.Initialize | tools/release_promotion.py:187-200 | a new file holds the initial record |
| ReleasePromotion.RecordStore.Advance | tools/release_promotion.py:249-298 | does what the transition says, or nothing, or leaves an unfinished file; refused transitions change nothing; a resumption of an existing file succeeds exactly when it is the identical transition |
| ReleasePromotion.Operate | tools/release_promotion.py:187-298 | over any sequence of interrupted calls, files are write-once and every file that parses holds a valid record |
| ReleasePayload.PaddingIsRestored | tools/release.py:551-556 | for every byte string, stripping the padding of its encoding and adding `(-len) mod 4` characters restores the encoding |
| ReleasePayload.PayloadReadsBack | tools/release.py:551-556 | every byte string comes back from its unpadded encoding |
| ReleasePayload.AlphabetOfTheStandard | tools/release.py:556 | the letters are those of table 2 of RFC 4648 |
| ReleasePayload.LettersAreTheNumber | tools/release.py:556 | four letters are the number of the three bytes, most significant first |
| ReleasePayload.LastLettersAreTheNumber | tools/release.py:556 | an incomplete group is the number of its bytes with zero bits after it |
| ReleasePayload.DecodesExactlyWhen | tools/release.py:555-559 | exactly which payloads decode, for every text: ASCII in which, once padded, the letters fill their groups or padding ends a group |
| ReleasePayload.UnpaddedDecodesExactlyWhen | tools/release.py:555-559 | without '=': exactly when the padding computed from the length is enough for the letters |
| ReleasePayload.LettersDecode | tools/release.py:555-559 | with letters of the alphabet only: every length but one more than a multiple of four |
| PasswordPolicy.JoinUndoesSplit | infra/production/keycloak-registration-reconcile.py:349 | joining the parts of any text restores it |
| PasswordPolicy.SplitUndoesJoin | infra/production/keycloak-registration-reconcile.py:357 | splitting joined terms restores them exactly when no term but the last ends in " and" |
| PasswordPolicy.LengthTermReadsBack | infra/production/keycloak-registration-reconcile.py:353-357 | a printed length reads back as its number |
| PasswordPolicy.LengthOfMeans | infra/production/keycloak-registration-reconcile.py:351-355 | a length is read exactly from the word, a number and the closing bracket |
| PasswordPolicy.StripKeepsThePart | infra/production/keycloak-registration-reconcile.py:349 | stripping leaves a part of the text with nothing but white space around it |
| PasswordPolicy.KeptOfBoth | infra/production/keycloak-registration-reconcile.py:350 | the other terms stay in their order, each as often as it stood there |
| PasswordPolicy.WithoutAPolicy | infra/production/keycloak-registration-reconcile.py:349-357 | a realm without a policy gets `length(8)` |
| PasswordPolicy.MinimumLength | infra/production/keycloak-registration-reconcile.py:351-356 | the new length is the largest well-formed old one, in any decimal digits, and at least eight |
| PasswordPolicy.PolicyReadsBack | infra/production/keycloak-registration-reconcile.py:347-357 | the printed policy reads back as one length term and the kept terms in their order, exactly when the kept terms are separable |
| PasswordPolicy.PolicyIsIdempotent | infra/production/keycloak-registration-reconcile.py:347-357 | applying the policy twice equals applying it once exactly when the kept terms settle |
| PasswordPolicy.SeparableSettles | infra/production/keycloak-registration-reconcile.py:347-357 | terms that read back settle |
| PasswordPolicy.WithoutWhiteSpaceItReadsBack | infra/production/keycloak-registration-reconcile.py:347-357 | terms without inner white space always read back |
| PasswordPolicy.TwiceMayDifferFromOnce | infra/production/keycloak-registration-reconcile.py:347-357 | a family of policies whose second application differs from the first |
| KeycloakReconcile.ClosedRealmIsSettled | infra/production/keycloak-registration-reconcile.py:318-382 | the closed realm is a fixed point of the composed update exactly when the policy terms settle |
| KeycloakReconcile.ClosingUndoesOpening | infra/production/keycloak-registration-reconcile.py:603-606 | the next run's closing update undoes the opening one, under the same condition |
| KeycloakReconcile.ClosedIsConfigured | infra/production/keycloak-registration-reconcile.py:318-382 | the closed realm has every setting of the three updates, no mail settings, and all other keys and attributes of the old realm |
| KeycloakReconcile.OpenIsConfigured | infra/production/keycloak-registration-reconcile.py:643 | opening such a realm leaves the same settings, with registration allowed and the mail settings given |
| KeycloakReconcile.SwitchOnAsks | infra/production/keycloak-registration-reconcile.py:476-517 | the switch is believed only if exactly one step sets the password, that step is required and has an id, and its configuration asks on the form |
| KeycloakReconcile.OpenOnlyWhenReady | infra/production/keycloak-registration-reconcile.py:590-644 | at every point after the first update of a run, registration is open only in open mode with the mail check passed and the switch read back, and only in a realm that verifies addresses and uses them as user names |
| KeycloakReconcile.OpenedByACompleteRun | infra/production/keycloak-registration-reconcile.py:590-644 | over all runs, an open realm was put last, by one run whose first update closed it and which checked the mail and just confirmed the switch |
| KeycloakReconcile.RunSoFar | infra/production/keycloak-registration-reconcile.py:590-606 | what the current run has done lies in the log after its start, and its first update of the realm, if there is one, closes registration |
| KeycloakReconcile.WithSwitch | infra/production/keycloak-registration-reconcile.py:450-458 | the switch is on, every other value stays |
| KeycloakReconcile.ReconcileRegistrationPassword | infra/production/keycloak-registration-reconcile.py:476-517 | ends normally only if the only step that sets the password is required and holds the switch; the realm is not touched |
| KeycloakReconcile.CloseAndConfigure | infra/production/keycloak-registration-reconcile.py:599-629 | closing comes first; on return the realm is the closed one with its address |
| KeycloakReconcile.CheckAndOpen | infra/production/keycloak-registration-reconcile.py:634-643 | opening comes last, after both checks |
| KeycloakReconcile.Reconcile | infra/production/keycloak-registration-reconcile.py:590-644 | the final realm of a complete run, setting by setting: account, mail, theme, locale and policy settings, the address among the attributes, every other key and attribute as before; open exactly in open mode |
| KeycloakReconcile.Operate | infra/production/keycloak-registration-reconcile.py:647-653 | any number of runs, ending anywhere, keeps the log lawful |
| ReadinessIssues.MarkerReadsBack | tools/readiness_issues.py:73-78 | the marker written into a body is the one found in it, whatever follows, exactly for well-formed identifiers |
| ReadinessIssues.FirstMarkerCounts | tools/readiness_issues.py:110-113 | the first marker of a body counts, wherever it stands, and a body without one is not indexed |
| ReadinessIssues.Want | tools/readiness_issues.py:69-96 | the rendered body of a blocker is recognised by its own identifier exactly when that is well-formed, whatever the template puts below |
| ReadinessIssues.ParseExisting | tools/readiness_issues.py:99-122 | succeeds exactly when no identifier is marked twice, and then indexes exactly the marked issues |
| ReadinessIssues.ConvergedMeansExactlyOne | tools/readiness_issues.py:161-217 | in a converged tracker exactly one issue carries the identifier of a blocker, open and up to date |
| ReadinessIssues.ConvergedIsStanding | tools/readiness_issues.py:161-217 | a converged tracker has the right issues open |
| ReadinessIssues.RefreshStep | tools/readiness_issues.py:183-200 | wherever editing and reopening ends, no marker is lost or changed, and none is doubled among well-formed identifiers |
| ReadinessIssues.Refresh | tools/readiness_issues.py:183-200 | the issue is edited, and reopened only if the listing shows it closed |
| ReadinessIssues.Bring | tools/readiness_issues.py:161-201 | one blocker, whatever its identifier, is brought up to date by creating or editing its issue |
| ReadinessIssues.CloseOthers | tools/readiness_issues.py:203-217 | in any order, the open marked issues of no blocker are closed and no other one |
| ReadinessIssues.SynchronizeWanted | tools/readiness_issues.py:125-217 | of the issues listed: at every point unmarked ones are untouched and the new ones are the first of the missing ones, all of them at a normal end; for well-formed identifiers no identifier ever has two and a complete run converges; nothing is created, reopened or closed when the right ones are open, whatever their text; the others stay as they are |
| ReadinessIssues.Synchronize | tools/readiness_issues.py:125-217 | the same from the blockers themselves, for any identifiers and any text below the marker; after a complete run with well-formed ones each blocker has an open issue with its title and text |
| ReadinessIssues.BlockersAreWanted | tools/readiness_issues.py:159 | the dictionary of active blockers has exactly the identifiers of the blockers, repeated or not |
| ReadinessIssues.DistinctAreActive | tools/readiness_issues.py:159 | blockers without repeated identifiers all count, as they are |
| ReadinessIssues.NextRunCreates | tools/readiness_issues.py:158-181 | once the identifiers that can be marks are marks, as a complete run leaves them, the next run for the same blockers creates exactly the issues of the identifiers outside the marker pattern, none exactly when all are well-formed |
| ReadinessIssues.Repeat | tools/readiness_issues.py:125-217 | how many issues any number of complete runs for the same blockers create, while a listing shows all issues; one for each missing blocker, and no more, exactly when all identifiers are well-formed |
| ReadinessIssues.NothingDoubled | tools/readiness_issues.py:142-158 | over all issues, at whatever point a run for well-formed identifiers ends, nothing is doubled if no blocker has an issue beyond the listing |
| ReadinessIssues.DoubledExactlyWhenHidden | tools/readiness_issues.py:142-158 | a complete run keeps identifiers unique exactly then |
| ReadinessIssues.Operate | tools/readiness_issues.py:125-217 | any number of interrupted runs for any blockers leaves unmarked issues alone; for well-formed identifiers, while a listing shows all issues, nothing is doubled and one complete run at the end converges |
| ActionsArtifacts.NewerIsAnOrder | tools/actions_artifacts.py:74-78 | the comparison by creation time and identifier is a strict order that orders any two different keys |
| ActionsArtifacts.BeforeMeansEarlier | tools/actions_artifacts.py:74-78 | texts are compared at their first difference, as times in one format have to be |
| ActionsArtifacts.NewerMeansLater | tools/actions_artifacts.py:74-78 | the later time wins, and at equal times the larger identifier |
| ActionsArtifacts.LatestFollowsTime | tools/actions_artifacts.py:74-85 | nothing that competes is later than the running maximum, and what is later than all others is the running maximum |
| ActionsArtifacts.LatestIsFirstMaximum | tools/actions_artifacts.py:67-85 | the running maximum is the first maximum among the artifacts of the name, over all or over successful runs |
| ActionsArtifacts.FirstMaximumIsLatest | tools/actions_artifacts.py:67-85 | and the first maximum is what the loop finds |
| ActionsArtifacts.RetentionDecisions | tools/actions_artifacts.py:58-108 | one decision per artifact, in order, or a refusal exactly when a run is unknown; an artifact later than all others of its name, over all or over successful runs, is kept, and none kept as the latest has a later one of its name |
| ActionsArtifacts.KeptExactly | tools/actions_artifacts.py:88-107 | kept are exactly the artifacts of the current revision, of an active run, with the release prefix, or first maxima of their name |
| ActionsArtifacts.LatestSurvives | tools/actions_artifacts.py:326-327 | the latest of a name stays the latest in every part of the listing that still holds it |
| ActionsArtifacts.PruningIsStable | tools/actions_artifacts.py:312-328 | after any part of a prune every remaining artifact gets the decision it had, so a rerun finds nothing new |
| ActionsArtifacts.StaleForGoodExactlyWhen | tools/actions_artifacts.py:58-108 | a stale artifact stays stale in every larger listing exactly when, wherever it competes, it is beaten by a strictly newer one |
| ActionsArtifacts.StaleStaysStale | tools/actions_artifacts.py:58-108 | with distinct identifiers in the present listing, no addition revives a stale artifact |
| ActionsArtifacts.TiesDependOnOrder | tools/actions_artifacts.py:98-100 | a family of ties that the order of the listing decides |
| EventNamespace.ReplaceLeavesNothing | tools/event_namespace.py:71 | for every text and every inert pair of names, left-to-right replacement leaves no occurrence, none across a seam either |
| EventNamespace.ReplaceKeepsParts | tools/event_namespace.py:71 | every text is glued from parts that do not hold the name, and replacement gives the same parts with the other name between them |
| EventNamespace.ReplaceOfGlue | tools/event_namespace.py:71 | for a name that does not overlap itself, as the retired one, whatever parts a text is glued from, exactly the names between them are replaced |
| EventNamespace.MigratedMeansRenamed | tools/event_namespace.py:66-76 | a migrated text is the old one with the active name for the retired one and nothing else different, and there is one such text |
| EventNamespace.OnlyAnOccurrenceChangesText | tools/event_namespace.py:62-71 | replacement changes a text exactly when the name occurs in it |
| EventNamespace.NamespacesAreInert | tools/event_namespace.py:11-12 | the two names of the migration are such a pair |
| EventNamespace.MigratedTwice | tools/event_namespace.py:66-76 | migrating a text twice is migrating it once |
| EventNamespace.NothingStaleAfterMigration | tools/event_namespace.py:79-83 | the check succeeds after a migration |
| EventNamespace.CutIsNotReported | tools/event_namespace.py:58-63 | no beginning of a migrated text holds the retired name, so a cut file is neither reported nor rewritten |
| EventNamespace.PartlyAgain | tools/event_namespace.py:66-76 | interrupted migrations one after another leave no more than one does: stale files untouched, or some beginning of their migrated text |
| EventNamespace.MigrationConverges | tools/event_namespace.py:66-76 | after interruptions a complete run gives the tree of an uninterrupted one exactly when no file was cut |
| EventNamespace.OnlyStaleFilesMatter | tools/event_namespace.py:68-75 | rewriting the stale files is rewriting all of them |
| EventNamespace.Tree.LegacyOccurrences | tools/event_namespace.py:58-63 | reports exactly the files that hold the name, in order |
| EventNamespace.Tree.Rewrite | tools/event_namespace.py:70-74 | one file is untouched, cut or rewritten, and no other file changes |
| EventNamespace.Tree.Migrate | tools/event_namespace.py:66-76 | a complete run reports exactly the stale files, in every file has the active name for the retired one and the rest as it was, and changes no other file; wherever it ends, each stale file is untouched or a beginning of its migrated text |
| EventNamespace.Tree.MigrateAndCheck | tools/event_namespace.py:99-105 | after a complete run nothing stale is left, all else in the files is kept, and no file is reported exactly when none changed |
| EventNamespace.Operate | tools/event_namespace.py:99-105 | any number of interrupted migrations and a complete one: the check succeeds, and the tree is that of an uninterrupted migration exactly when no file was cut |
| AgentRuntimeAcceptance.LinesReadBack | tools/agent_runtime_acceptance.py:39 | printed lines free of line boundaries are split into themselves, for each of the three line ends |
| AgentRuntimeAcceptance.DataOfText | tools/agent_runtime_acceptance.py:45-49 | a line has a value exactly if its name is `data`: what follows the colon less one leading space, or nothing without a colon |
| AgentRuntimeAcceptance.EveryLine | tools/agent_runtime_acceptance.py:45-49 | every line that is not blank is a comment, a field or a name without a colon |
| AgentRuntimeAcceptance.StreamReadsBack | tools/agent_runtime_acceptance.py:36-51 | for every stream of comments, fields of any name and names without a colon: the payloads are the values of the `data` fields of each event, joined, in order; data after the last blank line is refused |
| AgentRuntimeAcceptance.JoinUndoesCut | tools/agent_runtime_acceptance.py:42 | a payload cut at its newlines is what joining restores |
| AgentRuntimeAcceptance.DecodedIsClean | tools/agent_runtime_acceptance.py:38-49 | no decoded payload holds a line boundary other than a newline |
| AgentRuntimeAcceptance.WrittenReadsBack | tools/agent_runtime_acceptance.py:36-51 | any list of payloads comes back exactly when each one is free of line boundaries other than newlines |
| AgentRuntimeAcceptance.AgainstTheStandard | tools/agent_runtime_acceptance.py:39 | compared with section 9.2.6 of the WHATWG HTML Standard: equal exactly without the further characters of `str.splitlines` |
| AgentRuntimeAcceptance.FurtherBreakIsLost | tools/agent_runtime_acceptance.py:39 | a payload with any of the eight further characters, wherever it stands, does not come back |
| AgentRuntimeAcceptance.Answer | tools/agent_runtime_acceptance.py:54-67 | returns a message exactly if it is the one terminal response to the request and all others are notifications (section 5 of JSON-RPC 2.0) |
| AgentRuntimeAcceptance.ReadStream | tools/agent_runtime_acceptance.py:36-51 | the loop over the lines computes the parsed payloads of the stream, or fails |
| AgentRuntimeAcceptance.DecodeRpcResponse | tools/agent_runtime_acceptance.py:29-67 | exactly when a value is returned, for either media type, and which one |
| AgentRuntimeAcceptance.MessagesReadBack | tools/agent_runtime_acceptance.py:36-51 | messages printed by any clean printer that the parser undoes come back |
| NetworkAgentLoad.Ledger.constructor | tools/network_agent_load.py:114-124 | an empty ledger |
| NetworkAgentLoad.Ledger.Begin | tools/network_agent_load.py:126-132 | a new window forgets everything but the user ids |
| NetworkAgentLoad.Ledger.Sending | tools/network_agent_load.py:134-136 | a message with a fresh nonce joins the window |
| NetworkAgentLoad.Ledger.NotSent | tools/network_agent_load.py:138-141 | the message leaves the window, its counted deliveries stay, and one error is added |
| NetworkAgentLoad.Ledger.Learn | tools/network_agent_load.py:163-165 | the first user id learnt for an agent stays |
| NetworkAgentLoad.Ledger.Received | tools/network_agent_load.py:147-156 | a delivery is counted exactly if its message is in the window, wakes the receiver, and was not counted for that receiver |
| NetworkAgentLoad.TakeOut | tools/network_agent_load.py:171-176 | the expected total does not depend on the order of summation |
| NetworkAgentLoad.DeliverableAreExpected | tools/network_agent_load.py:158-176 | there are exactly as many countable deliveries as are expected, in both wake modes |
| NetworkAgentLoad.CountedAndMissing | tools/network_agent_load.py:158-176 | counted deliveries and missing ones make up the expected ones |
| NetworkAgentLoad.Ledger.DeliveriesBalance | tools/network_agent_load.py:171-183 | after any interleaving, received plus missing equals expected plus withdrawn; received exceeds expected exactly when more were withdrawn than are missing |
| NetworkAgentLoad.Ledger.ReceivedAtMostExpected | tools/network_agent_load.py:171-183 | received exceeds expected by no more than the deliveries of messages withdrawn afterwards |
| NetworkAgentLoad.Ledger.CompleteWindow | tools/network_agent_load.py:171-183 | once everything has come, received exceeds expected exactly when a delivered message was withdrawn |
| NetworkAgentLoad.Ledger.Summary | tools/network_agent_load.py:171-183 | the reported counts |
| NetworkAgentLoad.WithdrawnDeliveryOvercounts | tools/network_agent_load.py:138-141 | such a withdrawal leaves one received and none expected |
| NetworkAgentLoad.Speak | tools/network_agent_load.py:513-541 | message k is never submitted before start + k / rate, a window sees at most ceil(rate * window) messages and at least rate * (window - time lost beside the sleeps), and the call does not end before the window does |
| Percentiles.SortKeeps | tools/network_agent_load.py:189 | sorting gives an ordered permutation |
| Percentiles.OrderedPermutationIsUnique | tools/capacity.py:85 | there is only one, so the algorithm does not matter |
| Percentiles.PercentileIsNearestRank | tools/capacity.py:80-87 | the result is the one member that covers ceil(ratio * n) values while no smaller member does |
| Percentiles.ImplementationsAgree | tools/network_agent_load.py:197-200 | both implementations agree on every ordered sample and every ratio in [0, 1] |
| Percentiles.ImplementationsDiffer | tools/capacity.py:83-84 | outside, one refuses, and the other takes the smallest value below 0 and fails above 1 |
| Percentiles.ImplementationsAgreeExactlyWhen | tools/network_agent_load.py:197-200 | so they give the same answer, or none, exactly from ratio 0 on |
| Percentiles.SummaryIgnoresOrder | tools/network_agent_load.py:186-194 | the latency summary does not depend on the order of arrival |
| Percentiles.SummaryMeans | tools/network_agent_load.py:186-194 | its figures are the nearest-rank percentiles and the maximum, and do not decrease |
| CapacityFederation.FirstsAreMembers | tools/capacity_federation.py:78-86 | first occurrences are the members, each once, and make up the list together with the repeats |
| CapacityFederation.FirstsInOrder | tools/capacity_federation.py:78-86 | first occurrences stand in the order of their first positions |
| CapacityFederation.TakeEvent | tools/capacity_federation.py:79-86 | one event: ignored, counted as a repeat, or observed |
| CapacityFederation.TakeBatch | tools/capacity_federation.py:78-86 | after a batch, observed ids are the first occurrences and duplicates the rest |
| CapacityFederation.WaitForOrderedBackfill | tools/capacity_federation.py:57-90 | the same over all batches, ending well at exactly the first batch that completes the expected set |
| CapacityFederation.LaterRepeatsGoUnseen | tools/capacity_federation.py:87-88 | the repeats of the whole stream are the reported ones and every later occurrence; the report is complete exactly when there is none |
| CapacityFederation.PassesExactlyOnPerfectDelivery | tools/capacity_federation.py:93-129 | the verdict passes exactly when the stream brought the expected list itself, non-empty and repeat-free, and the outage lasted |
| CapacityFederation.PassedMeansOnce | tools/capacity_federation.py:93-129 | a passed verdict means that every expected id came exactly once and no other one |
| CapacityFederation.AssessBackfill | tools/capacity_federation.py:207-219 | exactly when a report passes, exactly when it is eligible for the release gate, and what its figures are, in terms of the batches that were read |
| ProtocolCodegen.NameReadsBack | tools/protocol-codegen.ts:47-49 | serde's camel case of the generated field gives the name back exactly when the name is in camel case |
| ProtocolCodegen.SnakeCaseIsInjective | tools/protocol-codegen.ts:47-49 | on that class two names never share a field |
| ProtocolCodegen.CollidesWithItsField | tools/protocol-codegen.ts:47-49 | the field of a name is its own field |
| ProtocolCodegen.CollidesExactlyWhen | tools/protocol-codegen.ts:47-49 | for every name: another name has the same field exactly when one of its letters is a capital, or a lower-case letter that does not directly follow a lower-case letter or digit |
| ProtocolCodegen.FieldsAreDistinct | tools/protocol-codegen.ts:209-228 | distinct properties in camel case give distinct fields, unless other properties are allowed and one is called `extensions` |

## Left out

- Subprocesses, Docker, `gh`, HTTP, TLS, the file system and clocks are steps with free success, failure or lost answer; the lock that keeps a second process out is an assumption.
- SHA-256, Sigstore, HMAC and Tauri signatures: digests are values that are compared; an inspection passes or ends the process.
- JSON text: documents are values; the stream decoder takes the parser as a function.
- Others are assumed never to alter an existing release asset or the identity of an existing run; they may add runs, assets and branches, move branches between any two checks, and publish.
- ReleaseFlow.World.Request: a ref that moves between its check and the request is seen by the remote side only; the run that results is refused later by its revision.
- ReleaseFlow.ReleaseFlow.RequireCompatibleServer: the checks of the record and its evidence are one step that passes or ends the process; which files are uploaded afterwards is free.
- ReleaseFlow.ReleaseFlow.RequireUsability: as above for the usability reports.
- ReleaseFlow.ReleaseFlow.ExamineRun: run ids are integers; the shape checks of the remote answers are one step that passes or ends the process.
- ReleaseDeploy.Deployment.Evidence: the content of the deployment report is not modelled; its checks are one step.
- ReleaseDeploy.Deployment.Prepare: the rollback file and the image overlay are one check.
- ReleaseDeploy: each service has one container; Synapse's own start-up and the health probes are steps that pass or end the process.
- ReleasePromotion.ValidateRecord: the patterns of SemVer versions and HTTPS addresses are verdicts that come with the values.
- ReleasePromotion: `verify_evidence` and the content of deployment reports.
- ReleasePayload.PayloadReadsBack: the JSON object inside the payload.
- PasswordPolicy.MinimumLength: decimal digits that Unicode added after version 14.0, and numbers of more than 4300 digits, which the interpreter refuses to read.
- KeycloakReconcile.CloseAndConfigure: the reconciler is the only writer of the realm while it works; user profile, web client and account-deletion client are steps without content.
- ReadinessIssues.SynchronizeWanted: nobody else creates or changes marked issues during a run; metadata of an unexpected shape, which the parser refuses, is not modelled.
- ActionsArtifacts.RetentionDecisions: parsing of the remote pages and the retries of the transport.
- EventNamespace.Tree.Rewrite: texts are characters, so a file cut within the bytes of one character, which no later run can read, is not modelled.
- EventNamespace.Tree.Migrate: the walk over directories and the choice of files are a parameter; a file is the text as it is read, so that the line ends of a rewritten file become newlines is not modelled.
- AgentRuntimeAcceptance.DecodeRpcResponse: the UTF-8 decoding, the byte order mark and the parsing of the content type are parameters; all errors are one result.
- NetworkAgentLoad.Ledger.Sending: nonces are random in the code and assumed fresh in the window here; the lock makes each call one step.
- NetworkAgentLoad.Speak, Percentiles.PercentileIsNearestRank and CapacityFederation.PassesExactlyOnPerfectDelivery: times, rates and ratios are real numbers, without floating-point rounding; the rounding of reported figures is left out.
- ProtocolCodegen.NameReadsBack: names are ASCII; type rendering and the sorting of properties are left out.
- CapacityFederation.WaitForOrderedBackfill: which events a sync answer holds is free; a missing `next_batch` ends the wait like a failure of the process.
- tools/release.py beyond the payload: the building of a candidate and its comparison with the inventory appear only as one of the inspections of the release flow.
- tools/capacity.py beyond the percentile: the room allocation runs on constants, and its outcome is one number.
- Desktop, browser, installer and field-by-field validators, and the Rust crates.
