# Verification of the WSO2 Identity Server operator

This project models a Kubernetes operator that drives a remote WSO2 Identity Server towards a
declared `WSO2SP` object, and proves what its reconcile loop does and does not achieve.
`dafny verify dfyconfig.toml` checks the whole project.

## What is modelled

**One pass.** `Reconcile.Run(w, f, a)` is one reconcile pass as a function of the world `w`, the faults
`f` and the server's own choices `a`. The world holds the persisted object (finalizers, annotations,
deletion, spec, status), the `<name>-inbound` Secret, what the pass only reads (instances, ConfigMaps,
SAML metadata), and four remote stores: applications by name, OAuth registrations by name, SAML
registrations by issuer, groups with their members. Every one of the 33 places where a pass calls out
may work, fail, or take effect and still be reported as failed. The object in memory is kept apart from
the persisted one: `setPhase` swallows a failed status write and returns the zero result, which a caller
reads as "carry on"; the last status write is a merge patch (section 2 of RFC 7396) against a copy of
the status taken earlier. A pass also keeps a journal of what it read from WSO2, what it sent, and which
status writes it attempted.

**The program itself.** `Reconciler.WSO2SPReconciler` and `Outside.Cluster` are the code as it runs:
methods that assign status fields in memory and act on mutable stores, loops that build requests and take
responses apart, and a comparison that sorts the desired claims in place through their backing array. Each
method is proved equal to the function of the same name, and `Reconciler.WSO2SPReconciler.Reconcile` to `Run`,
so all theorems about `Run` are about it.

**The same told from outside.** `Wire`, `Accounts`, `Fidelity` and `Arrival` describe what is written and read
without the operator's own mappings, comparisons and merges: a registration, an update request and stored
content field by field against the spec, annotations and messages as literals, the Secret key by key. Every
pass is proved to do exactly what this account says, and arrival to mean exactly what it says.

**Around it.** The spec to request to response to application pipeline (`Builder`, `Mapper`, `Helpers`,
`RoundTrip`), SAML metadata reduction (`SamlMetadata`), and the condition list of the instance
controller (`Conditions`).

| file | content |
|---|---|
| `wrappers.dfy`, `text.dfy`, `application.dfy` | small datatypes, string functions, record shapes |
| `builder.dfy`, `mapper.dfy`, `helpers.dfy`, `server.dfy`, `roundtrip.dfy` | the pipeline and its round trips |
| `saml_metadata.dfy`, `conditions.dfy`, `secrets.dfy` | metadata, condition list, Secret histories |
| `world.dfy`, `reconcile.dfy`, `credentials.dfy` | state, effects, one pass as functions, what it reads and stores of keys |
| `outside.dfy`, `reconciler.dfy` | the mutable program, proved against those functions |
| `convergence.dfy`, `settling.dfy`, `pace.dfy` | the measure, why six fault-free passes suffice, and exactly how many it takes |
| `quiet.dfy` | which objects the loop ever leaves alone |
| `wire.dfy` | what registrations, requests and stored content say of the spec, field by field |
| `accounts.dfy`, `fidelity.dfy` | what each stage, and a whole pass, does under any faults, in those terms |
| `arrival.dfy` | what arrival and quiet mean, in those terms |
| `shapes.dfy`, `stages.dfy`, `safety.dfy`, `runs.dfy` | what any pass, and any run, guarantees under faults |
| `limits.dfy` | where the loop falls short |

## Main results

- **Convergence.** No pass, however it fails, moves WSO2 away from the desired state; every fault-free
  pass over an unsettled world lowers a measure of at most six. So six fault-free passes persist Ready,
  whether they come in a row or one at a time among failing ones. The measure is exact: from an unready
  status Ready is persisted after n fault-free passes if and only if n is at least the measure
  (`Pace.ExactConvergenceTime`), so a fresh object with OAuth and SAML takes exactly six. It is exact in
  the OAuth spec as well (`Limits.ConvergesExactly`).
- **Fidelity.** For all worlds, faults and server choices a pass reads and sends exactly what is told, and
  leaves the OAuth and SAML registrations, the applications, the groups, the Secret, the object and the outcome
  exactly as told, in terms of stored records, wire fields and literals. In particular every update sent says
  what the spec, the script and the registered keys say, field by field (`Fidelity.UpdatesSayWhatIsDeclared`),
  a registration compares as unchanged if and only if it agrees with the spec in every field
  (`Wire.UnchangedMeansAgrees`), an application if and only if its content does
  (`Wire.UnchangedMeansContentAgrees`), and after six fault-free passes what is stored agrees
  (`Arrival.SixPassesBringAbout`).
- **Quiet.** After arrival a pass sends nothing that changes WSO2 if and only if the application is in
  sync. In the long run that is so if and only if it was in sync to begin with, or the spec survives the
  round trip and every declared kind is followed or has left its key in the Secret
  (`Quietness.EventuallyQuiet`). All other objects are Ready and yet sent again on every pass.
- **Exact round trips.** An OAuth registration written and read back compares as unchanged if and only
  if the spec is no public client, names at least one grant type, and no grant type contains a space;
  an application if and only if `AlwaysSendBackAuthenticatedListOfIDPs` is off and both step selectors
  are 1 without steps, or 0 or a step's number otherwise. The order of claims never matters if and only
  if claims that share a URI are equal, or the records differ anyway.
- **Safety of all runs.** Passes with any faults, interleaved with arbitrary edits, deletions and changes
  in WSO2 by others: a persisted Ready implies admin access and was written by a pass that read exactly
  the persisted identifiers; the finalizer only goes in a pass that sent the remote delete or had no
  remote identifier; if nobody else writes the Secret, it is what the upserts of the run's own passes
  left, each of a value that pass read.
- **End to end.** The inbound keys of every update, for all worlds and faults: the key the pass read, else
  the one the Secret held before (`Safety.InboundKeysExactly`). An update matches what was read if and
  only if the registration was asked for without a fault and is there.
- **What goes wrong, and exactly when.** Deleting an application before its identifiers were recorded
  orphans it. A SAML correction deletes the application named like the issuer, hence the operator's own
  if and only if it has that name. A consumer key rotated in WSO2 after arrival reaches the Secret, but
  the stored application if and only if that was out of sync anyway. A failed OAuth read whose report is
  lost lets an update go out with the Secret's old key, or a blank one.

## Assumptions

- Reads are fresh and passes over one object do not overlap.
- WSO2 stores what it is sent and echoes it (`Server.EchoApplication`), drops inbound entries whose key
  is blank (`Server.KeepKeyed`), gives a registration without credentials some (`Server.RegisterOAuth`),
  finds an update by name (`World.UpdateApp`), answers an unknown issuer with a blank record
  (`World.ReadSaml`), answers HTTP 500 on the OAuth read only when nothing is registered, and creates a
  group along with an application (`World.WithGroup`). Whether adding an existing SAML issuer replaces it is
  left open (`Answers.samlAddOverwrites`).
- Convergence asks of the start state (`Convergence.Operable`) that the object is neither deleted nor
  paused, its instance Ready, its metadata and script reachable, every step with an identity provider
  names an authenticator, a registered client has a key, a stored application can be read and has a
  group, and no SAML registration disagrees with the metadata. It asks nothing of the Secret.
- Hashes are equal exactly when the JSON-visible values are. Slices tagged `omitempty` do not tell nil
  from empty and are sequences; the others are `Wrappers.Slice`.
- `sort.Slice` is the insertion sort it uses on short slices. Where claims that share a URI are equal the
  result does not depend on the algorithm (`Helpers.SortedArrangementIsUnique`); elsewhere it may.

Where comments and code disagree the model follows the code. The comment in front of the admin-access
step (`internal/controller/wso2sp_controller.go:376-378`) says that a failing sub-step ends the pass
without patching the status; when the failure report itself gets lost, the code goes on and patches. The
default assertion consumer service is the code's own choice, not that of section 2.2.3 of the SAML V2.0
Metadata specification, which would prefer an entry without `isDefault="false"`. The two scope validator
texts are exchanged in the source, consistently on both ways; the model keeps that.

## Model

| member | source | states |
|---|---|---|
| Reconciler.WSO2SPReconciler.Reconcile | internal/controller/wso2sp_controller.go:436-478 | the whole pass, branch by branch and under every fault, leaves exactly the world, journal and outcome of `Run` |
| Reconciler.WSO2SPReconciler.ReconcileApplication | internal/controller/wso2sp_controller.go:288-301 | OAuth, SAML and application stages in order; a sub-step's zero result means carry on, even when it hides a lost write |
| Reconciler.WSO2SPReconciler.ReconcileCore | internal/controller/wso2sp_controller.go:303-391 | read failure, creation, panic and synchronisation of the application, each with its exact effect |
| Reconciler.WSO2SPReconciler.CreateApplication | internal/controller/wso2sp_controller.go:313-333 | creation, its failure report, and the Pending patch against the status held before |
| Reconciler.WSO2SPReconciler.SyncApplication | internal/controller/wso2sp_controller.go:335-391 | identifiers refreshed in memory only, desired record built before that, script, comparison, update, tail |
| Reconciler.WSO2SPReconciler.CompareAndSend | internal/controller/wso2sp_controller.go:357-371 | an update goes out exactly when the records differ, with the claims the comparison sorted in place |
| Reconciler.WSO2SPReconciler.ReconcileApplicationOAuth2 | internal/controller/wso2sp_controller.go:182-231 | panic without an answer, failure reports, registration of a missing application, correction of an existing one |
| Reconciler.WSO2SPReconciler.CorrectOAuth2 | internal/controller/wso2sp_controller.go:205-230 | credentials go to the Secret before the drift is judged; a Secret error ends the pass with an error |
| Reconciler.WSO2SPReconciler.ReconcileSAMLApplication | internal/controller/wso2sp_controller.go:233-262 | metadata and read failures, and creation of a missing registration |
| Reconciler.WSO2SPReconciler.CorrectSAML | internal/controller/wso2sp_controller.go:264-286 | issuer and index go to the Secret, then a drifted registration is replaced, and the pass carries on |
| Reconciler.WSO2SPReconciler.ReconcileAdminAccess | internal/controller/wso2sp_controller.go:56-94 | the recorded flag short-circuits; membership sets it in memory; a join only requeues |
| Reconciler.WSO2SPReconciler.UpsertApplicationSecret | internal/controller/wso2sp_controller.go:96-136 | blanks are dropped, nothing left means no call, otherwise create or merge |
| Reconciler.WSO2SPReconciler.PopulateInboundSecrets | internal/controller/wso2sp_controller.go:138-180 | declared kinds take their keys from a Secret that has data, and are left alone otherwise |
| Reconciler.WSO2SPReconciler.HandleDelete | internal/controller/wso2sp_controller.go:393-415 | remote delete only with a recorded identifier, its failure ignored, finalizer removed either way |
| Reconciler.WSO2SPReconciler.SetPhase | internal/controller/helpers.go:235-248 | no write when nothing changes; a failed write is swallowed into the zero result but the memory keeps the new phase |
| Reconciler.WSO2SPReconciler.BuildClient | internal/controller/helpers.go:41-77 | why no client can be built: instance missing or not Ready, credentials unreadable |
| Outside.Cluster.UpdateSAMLApplication | internal/wso2/client.go:346-354 | deletes the application named after the issuer and then adds the registration; the first failure stops it |
| Outside.Cluster.GetApplicationOAuth2Config | internal/wso2/client.go:292-304 | panic without a response, absence as an empty result, otherwise the mapped registration |
| Outside.Cluster.GetApplicationByName | internal/wso2/client.go:365-386 | absence as an empty result; an unreadable step list panics |
| Outside.Cluster.GetAdminGroupMembership | internal/wso2/client.go:265-290 | error without exactly one group, else its identifier and whether admin is a member |
| Outside.GetUserGroupMembership | internal/wso2/client.go:256-263 | true exactly when some member carries the name |
| Fidelity.UpdatesSayWhatIsDeclared | internal/controller/wso2sp_controller.go:335-371 | every update any pass sends says, field by field, what spec, script, recorded identifier and registered or held keys say, and is stored so under the old identifiers |
| Fidelity.OAuthIsTold | internal/controller/wso2sp_controller.go:182-231 | what any pass reads, registers, corrects or leaves alone, and that what it writes is what the spec says, field by field |
| Fidelity.SamlIsTold | internal/controller/wso2sp_controller.go:233-286 | what any pass reads, deletes and adds, and that what it adds is what metadata and spec say, field by field |
| Fidelity.AppsAreTold | internal/controller/wso2sp_controller.go:303-371 | which applications any pass that enters reads, creates, updates, deletes or leaves alone, with what content |
| Fidelity.SecretIsTold | internal/controller/wso2sp_controller.go:96-136 | for every pass and key: the non-blank registered credential under its own key where read and written, else what was held |
| Fidelity.GroupsAreTold | internal/controller/wso2sp_controller.go:56-94 | when the administrator is sent to join which group, and the groups after any pass |
| Fidelity.StatusIsTold | internal/controller/helpers.go:235-248 | only the status of the object changes, to exactly what was reported, noted or patched, with literal messages, for all faults |
| Fidelity.OutcomeIsTold | internal/controller/wso2sp_controller.go:288-391 | exactly which passes end with a requeue, an error, a panic or the zero result |
| Fidelity.ShortIsTold | internal/controller/wso2sp_controller.go:436-470 | pause, missing client, deletion and finalizer in full: other finalizers stay, and the object goes only with the last |
| Arrival.ArrivedExactly | internal/controller/wso2sp_controller.go:182-391 | arrival means that the stored registrations, Secret keys, content and status say what spec and metadata say, and nothing less |
| Arrival.SixPassesBringAbout | internal/controller/wso2sp_controller.go:288-391 | after any faulty passes, six fault-free ones make what is stored say so |
| Arrival.QuietExactly | internal/controller/wso2sp_controller.go:357-391 | after arrival a pass only reads if and only if the stored content agrees with the spec in every field |
| Wire.UnchangedMeansAgrees | internal/controller/helpers.go:195-202 | a registration compares as unchanged iff callback, grant types, PKCE, bypassing, audiences, expiries, known validators and binding agree |
| Wire.BuiltRegisters | internal/wso2/builder.go:182-236 | the registration sent states the spec in every field of the wire record |
| Wire.SamlUnchangedMeansAgrees | internal/controller/helpers.go:204-222 | a SAML registration compares as unchanged iff issuer, locations in order and both flags agree |
| Wire.BuiltSamlRegisters | internal/wso2/saml.go:177-248 | the SAML registration sent states metadata and spec in every field |
| Wire.UnchangedMeansContentAgrees | internal/controller/helpers.go:224-233 | an application reads back and compares as unchanged iff its stored content agrees with the spec in every field |
| Wire.BuiltRequestStates | internal/wso2/builder.go:346-371 | the update sent states name, description, claims, consent and tenant flags, steps, script and keys, each in its own wire field |
| Convergence.PassEvolves | internal/controller/wso2sp_controller.go:288-478 | under any faults no part of the measure rises, nothing recorded is lost, and the start conditions stay true |
| Convergence.RemoteRankNeverRises | internal/controller/wso2sp_controller.go:288-478 | one pass never moves WSO2 away from the desired state, whatever fails |
| Convergence.StoredUpdate | internal/controller/wso2sp_controller.go:357-364 | an update once stored reads back in sync if and only if the spec settles and every declared kind has its key in the Secret |
| Settling.CleanPassProgresses | internal/controller/wso2sp_controller.go:288-391 | every fault-free pass over an unsettled world strictly lowers the measure |
| Settling.FaultyPassesKeep | internal/controller/wso2sp_controller.go:436-478 | any number of failing passes keeps the start conditions and the distance to the desired state |
| Settling.ConvergesWithinSix | internal/controller/wso2sp_controller.go:288-391 | after any faulty passes, six fault-free ones persist Ready with the remote identifiers, and later ones keep it |
| Settling.ConvergesInterleaved | internal/controller/wso2sp_controller.go:288-391 | six fault-free passes among any failing ones, the last one fault-free, suffice; so do more than the distance |
| Settling.SettledIsFixpoint | internal/controller/wso2sp_controller.go:182-391 | after arrival with the application in sync the world is left exactly as it is and nothing that changes WSO2 is sent |
| Settling.SettledForEver | internal/controller/wso2sp_controller.go:182-391 | for any number of passes after arrival: in sync means left alone, out of sync means never in sync |
| Settling.OutOfSyncIsResent | internal/controller/wso2sp_controller.go:357-371 | after arrival out of sync, the status stays Ready and yet the application is sent again, to no avail |
| Settling.QuietExactlyWhenInSync | internal/controller/wso2sp_controller.go:357-391 | after arrival a pass leaves WSO2 alone if and only if the application is in sync |
| Quietness.InSyncAfterOne | internal/controller/wso2sp_controller.go:357-371 | a pass that reaches the application leaves it in sync iff it was, or the spec settles and every declared kind is followed or has its key |
| Quietness.EventuallyQuiet | internal/controller/wso2sp_controller.go:288-391 | after six fault-free passes the next is quiet iff the application was in sync at the start, or the spec settles and the keys are available |
| Quietness.AvailabilityStays | internal/controller/wso2sp_controller.go:291-301 | no pass brings in the key of a kind that is not followed, or loses one |
| Pace.ExactConvergenceTime | internal/controller/wso2sp_controller.go:288-391 | from an unready status, Ready is persisted after n fault-free passes if and only if n reaches the measure |
| Pace.CleanPassIsOneStep | internal/controller/wso2sp_controller.go:288-391 | no fault-free pass takes more than one step of the measure |
| Pace.FreshObject | internal/controller/wso2sp_controller.go:469-477 | every fresh object meets the start conditions, at measure four plus one each for OAuth and SAML if followed |
| Limits.ConvergesExactly | internal/controller/wso2sp_controller.go:205-230 | with six fault-free passes among any others the world arrives iff the followed OAuth spec survives its round trip or is registered just so |
| Limits.NeverArrives | internal/controller/wso2sp_controller.go:205-230 | otherwise no number of passes, failing or not, ever arrives |
| Limits.StuckForEver | internal/controller/wso2sp_controller.go:214-229 | past the gates, such an OAuth spec keeps the object and its application unchanged for any number of passes |
| Limits.DriftCorrection | internal/controller/wso2sp_controller.go:276-285 | a SAML correction deletes the application named like the issuer and ends the drift exactly if adding replaces |
| Limits.DriftDeletesExactly | internal/wso2/client.go:346-354 | which application a fault-free pass deletes: the one named like the issuer, iff OAuth has nothing to repair and SAML has drifted |
| Limits.DriftDeletesOwnApplication | internal/controller/wso2sp_controller.go:276-285 | the operator deletes its own application iff that has the name of a drifted issuer, and recreates it bare in the same pass |
| Limits.RotationExactly | internal/controller/helpers.go:159-164 | a key rotated after arrival is in the Secret, but in the stored application iff that was out of sync at the rotation or had it already |
| Limits.ArrivedOutOfSyncExactly | internal/controller/helpers.go:224-233 | after arrival with the keys available, in sync means exactly that the spec survives the round trip |
| Limits.LostReportSendsOldKey | internal/controller/helpers.go:244-246 | a failed OAuth read whose report is lost lets the pass go on and send the Secret's old key, blank without a Secret |
| Runs.ReadyIsJustified | internal/controller/wso2sp_controller.go:303-390 | in every run, persisted Ready implies admin access and was written by a pass that read those identifiers |
| Runs.AdminAccessIsKept | internal/controller/wso2sp_controller.go:56-94 | in every run, admin access once recorded is never taken back while the object exists |
| Runs.FinalizerGuardsDeletion | internal/controller/wso2sp_controller.go:393-415 | in every run, the finalizer only goes in a pass that sent the remote delete or read an empty ResourceID |
| Runs.SecretIsRemembered | internal/controller/wso2sp_controller.go:96-136 | in every run from no Secret, it is exactly what the effective upserts of the run's own passes left: last non-blank values, no blanks |
| Runs.UpsertsAreGrounded | internal/controller/wso2sp_controller.go:205-212 | each of those upserts belongs to a pass of the run and holds, under their own keys, both values of a registration as that pass read it |
| Runs.NoKeyIsLost | internal/controller/wso2sp_controller.go:130-135 | in every run, a key once in the Secret stays while the object exists |
| Runs.ClientIDWasRead | internal/controller/wso2sp_controller.go:205-212 | in every run from no Secret, a client ID found in it was read from WSO2 by some pass |
| Runs.IssuerWasRead | internal/controller/wso2sp_controller.go:268-274 | in every run from no Secret, an issuer found in it was read from WSO2 by some pass |
| Runs.ClientSecretWasRegistered | internal/controller/wso2sp_controller.go:205-212 | in every run from no Secret, a client secret found in it was that of a registration when some pass read it |
| Runs.PausedPasses | internal/controller/wso2sp_controller.go:447-456 | while the application is paused only the phase may change, to Paused, even under deletion |
| Runs.OAuthPausedPasses | internal/controller/wso2sp_controller.go:291-295 | while OAuth is paused its registrations and Secret keys stay as they are, for any number of passes |
| Runs.SamlPausedPasses | internal/controller/wso2sp_controller.go:297-301 | while SAML is paused its registrations and Secret keys stay as they are, for any number of passes |
| Safety.RemoteWritesAreGuarded | internal/controller/wso2sp_controller.go:447-477 | every create or update sent comes from a pass over an unpaused, undeleted object with finalizer and Ready instance |
| Safety.FinalizerRemoval | internal/controller/wso2sp_controller.go:393-415 | when the finalizer goes, and exactly when the application outlives it |
| Safety.EarlyDeletionOrphans | internal/controller/wso2sp_controller.go:396-414 | deleting before the identifiers are recorded leaves the application behind without any error |
| Safety.NoSilentStall | internal/controller/wso2sp_controller.go:436-478 | exactly which passes end with the zero result; a sub-step's lost write is never the exit |
| Safety.PassKeepsDeclared | internal/controller/wso2sp_controller.go:436-478 | no pass changes annotations, deletion, spec or environment |
| Safety.PassReady | internal/controller/wso2sp_controller.go:303-390 | one pass keeps "Ready implies admin access", and a new Ready carries the identifiers it read |
| Safety.AdminAccessIsConfirmed | internal/controller/wso2sp_controller.go:77-93 | a pass records admin access only for an administrator who was a member before it; the joining pass does not |
| Safety.InboundKeysExactly | internal/controller/wso2sp_controller.go:138-180 | for all faults, the inbound keys of every update: the one read, else the Secret's; it matches what was read iff the registration was asked for without a fault and is there |
| Safety.InboundKeysEndToEnd | internal/controller/wso2sp_controller.go:357-364 | in particular, without lost status writes every update sent carries the consumer key and issuer the same pass read |
| Safety.PassSecret | internal/controller/wso2sp_controller.go:96-136 | what a pass does to the Secret, as a function of world, faults and answers |
| Secrets.SecretHistory | internal/controller/wso2sp_controller.go:96-136 | after any upserts each key holds the last non-blank value effectively written, else what it held at the start; no blank gets in |
| Secrets.NoKeyIsLost | internal/controller/wso2sp_controller.go:130-135 | a key once held is held for ever |
| Secrets.OAuthAndSamlCommute | internal/controller/wso2sp_controller.go:205-212 | the OAuth and the SAML upsert commute |
| Secrets.AgreementMeans | internal/controller/wso2sp_controller.go:96-136 | an upsert changes nothing if and only if every non-blank value is already held |
| Secrets.DropBlank | internal/controller/wso2sp_controller.go:97-101 | deleting blank entries one by one leaves exactly the non-blank ones |
| RoundTrip.OAuthRoundTrip | internal/wso2/mapper.go:146-163 | write, read back and compare as unchanged, if and only if no public client, some grant type, no space in one |
| RoundTrip.OAuthUnchangedMeans | internal/controller/helpers.go:195-202 | whatever is registered, "unchanged" implies agreement on callback, audiences, PKCE, expiries, bypassing and acceptable grant types |
| RoundTrip.ApplicationRoundTrip | internal/wso2/mapper.go:46-144 | write, store, read back: panics exactly on a nameless federated step, else unchanged exactly for settling specs with matching keys |
| RoundTrip.UnchangedMeansSettles | internal/controller/helpers.go:224-233 | whatever the server holds, only a settling spec ever compares as unchanged |
| RoundTrip.ScopesRoundTrip | internal/wso2/builder.go:28-41 | known scope validators survive the two mappings, in order |
| RoundTrip.InboundReadBack | internal/wso2/builder.go:56-93 | a kind is read back as enabled exactly when its key went out non-blank |
| Text.SplitJoinExact | internal/wso2/mapper.go:146-163 | splitting undoes joining exactly on non-empty lists of space-free words |
| Helpers.ChangeDetectionIgnoresClaimOrder | internal/controller/helpers.go:174-193 | where claims that share a URI are equal, no permutation of either claim list changes the verdict |
| Helpers.ClaimOrderMattersExactly | internal/controller/helpers.go:224-233 | no arrangement of either claim list changes the verdict iff claims that share a URI are equal or the records differ anyway |
| Helpers.SortIgnoresOrderExactly | internal/controller/helpers.go:180-182 | all arrangements of a claim list sort alike iff claims that share a URI are equal |
| Helpers.SortsAlikeExactly | internal/controller/helpers.go:180-182 | two claim lists sort alike iff for every URI they hold the same claims in the same order |
| Helpers.SortIsStable | internal/controller/helpers.go:180-182 | sorting keeps the order among claims of one URI |
| Helpers.SortedArrangementIsUnique | internal/controller/helpers.go:180-182 | where claims that share a URI are equal the sorted arrangement is unique, whatever the algorithm |
| Helpers.SortInPlace | internal/controller/helpers.go:180-182 | the caller's array ends up as the stable insertion sort of what it held |
| Helpers.NormalizeApplication | internal/controller/helpers.go:174-193 | the copy loses its identifiers and the caller's claims are sorted through the shared array |
| Helpers.CompareApplications | internal/controller/helpers.go:224-233 | the verdict of the two normal forms, with both callers' claims sorted as a side effect |
| Helpers.NormalizeIsIdempotent | internal/controller/helpers.go:174-193 | repeating changes nothing and the claims are only rearranged |
| Helpers.FilterScopeValidators | internal/controller/helpers.go:100-111 | keeps exactly the two known validators, in order |
| Helpers.MakeOAuth2 | internal/controller/helpers.go:113-126 | the OAuth record of a spec, by that filter |
| Helpers.MakeApplication | internal/controller/helpers.go:139-166 | the application record of a spec, by the loops over claims and steps |
| Helpers.AuthenticationStepsFromSpec | internal/controller/helpers.go:128-138 | copies the steps; none leaves the slice nil |
| Builder.BuildClaimConfig | internal/wso2/builder.go:8-26 | one mapping per claim, in order |
| Builder.BuildScopeValidators | internal/wso2/builder.go:28-41 | the exchanged validator texts of the known names, in order |
| Builder.BuildInboundAuthConfig | internal/wso2/builder.go:56-93 | OAuth, SAML, openid and passivests entries, in that order |
| Builder.BuildAuthenticationSteps | internal/wso2/builder.go:117-140 | one request per step; providers only with an authenticator or an identity provider; flags by step number |
| Builder.BuildUpdateRequest | internal/wso2/builder.go:346-371 | the whole update, by those loops |
| Builder.BuildOAuthRequest | internal/wso2/builder.go:182-236 | the whole registration, by the validator loop |
| Mapper.MapAuthenticationSteps | internal/wso2/mapper.go:59-78 | steps in order, the last flagged step as selector, 1 without steps, panic on an empty authenticator list |
| Mapper.MapScopeValidators | internal/wso2/mapper.go:19-34 | the names of the known validators, in order |
| Mapper.IsInboundEnabled | internal/wso2/mapper.go:94-110 | true exactly when some entry has the type |
| Mapper.MapClaims | internal/wso2/mapper.go:80-92 | one claim per mapping, in order |
| Mapper.MapApplicationResponse | internal/wso2/mapper.go:112-144 | the whole response, by those loops, or the panic |
| Mapper.MapOAuthResponse | internal/wso2/mapper.go:146-163 | the whole registration, by the validator loop |
| SamlMetadata.CollectACSURLs | internal/wso2/saml.go:347-372 | all locations in order, and the default the two scans select |
| SamlMetadata.DefaultLocationChoice | internal/wso2/saml.go:347-372 | the default is the last marked entry's non-blank location, else that of the first entry with the least index |
| SamlMetadata.ParseSLOEndpoints | internal/wso2/saml.go:376-407 | the loop's answer as a left-to-right scan |
| SamlMetadata.SLOSelectionExact | internal/wso2/saml.go:376-407 | with a preferred endpoint, its location, response location, binding and flags come out if and only if nothing later disturbs it |
| SamlMetadata.SLOSelection | internal/wso2/saml.go:376-407 | with non-blank locations: those five results of the last POST, else the first Redirect, else the first SOAP endpoint |
| SamlMetadata.SLODisturbed | internal/wso2/saml.go:376-407 | a preferred endpoint without a location keeps flags and binding, and its URLs become those of the first later SOAP endpoint that has one |
| SamlMetadata.BindingClassIgnoresOrder | internal/wso2/saml.go:376-407 | permuting the endpoints never changes the chosen binding class |
| SamlMetadata.DeriveAlias | internal/wso2/saml.go:413-435 | blank certificate, scheme, tail and port cut in turn |
| SamlMetadata.AliasExactly | internal/wso2/saml.go:413-435 | for every entity ID: its unique split into scheme, host, port and tail, and the alias as the host, else the first sixteen characters of the certificate |
| SamlMetadata.AliasIsHost | internal/wso2/saml.go:413-435 | for a printed entity ID with plain scheme, host, optional port and tail the alias is the host |
| SamlMetadata.AliasBlankOnlyIfCertBlank | internal/wso2/saml.go:413-435 | the alias is blank only if the certificate is |
| SamlMetadata.ScanSPKeys | internal/wso2/saml.go:219-235 | the accumulate-and-guard loop picks the first usable signing certificate and reports encryption |
| SamlMetadata.ScanIDPKeys | internal/wso2/saml.go:289-300 | the break-out loop picks the first usable signing certificate |
| SamlMetadata.SigningCertificateIsFirst | internal/wso2/saml.go:219-235 | which certificate is the first usable one |
| SamlMetadata.CertificateLoopsAgree | internal/wso2/saml.go:219-300 | both descriptor reductions agree on certificate and alias; alias blank exactly when certificate is; encryption exactly |
| SamlMetadata.SpConfigFromDescriptor | internal/wso2/saml.go:177-248 | the service provider reduction, field by field |
| SamlMetadata.IdpConfigFromDescriptor | internal/wso2/saml.go:252-303 | the identity provider reduction, field by field |
| SamlMetadata.SpReductionStates | internal/wso2/saml.go:177-248 | every field of the service provider record against the descriptor: signing, format, locations, default, logout, certificate, encryption |
| SamlMetadata.IdpReductionStates | internal/wso2/saml.go:252-303 | every field of the identity provider record against the descriptor |
| Conditions.InstanceObject.SetCondition | internal/controller/wso2isinstance_controller.go:148-160 | overwrites in place or appends; the time is kept while the status is |
| Conditions.InstanceReconciler.SetPhaseNoRequeue | internal/controller/wso2isinstance_controller.go:130-145 | phase, message and Available condition move together; the write may fail |
| Conditions.InstanceReconciler.Reconcile | internal/controller/wso2isinstance_controller.go:53-121 | Ready exactly when credentials are complete and the server answers; one write per pass |
| Conditions.ObservedTells | internal/controller/wso2isinstance_controller.go:75-110 | Ready iff username and password are there and not blank and the server answers; otherwise Failed with the reason |
| Conditions.ConditionHistory | internal/controller/wso2isinstance_controller.go:130-160 | after any writes: unique kinds, one Available, True exactly when Ready, time of the first write of the current stretch |
| Conditions.UpsertKeeps | internal/controller/wso2isinstance_controller.go:148-160 | kinds stay unique and other conditions keep value and place |

## Left out

- HTTP, TLS, authentication, JSON and XML encoding: remote operations succeed or fail as a whole.
- SHA-256 and JSON marshalling internals: replaced by equality of the JSON-visible values.
- Stale caches and resource versions: reads are fresh, so conflict errors only appear as faults.
- SCIM search semantics: one group per application, and joining adds the display name "admin".
- Requeue durations: only zero or non-zero is kept, as `Outcome`.
- Events and logging.
- Error texts: kept where the status message shows them, with formatting simplified (quoting, wrapping).
- The SAML fields that are only copied between records: the four compared fields and those the metadata reduction sets are modelled.
- A failing `SetControllerReference`: it cannot fail for objects of one namespace with a registered scheme.
- Type assertions on an unexpected JSON body of the application search: not part of this model.
- Garbage collection of other owned objects: only the Secret may go with its owner.
- Convergence.PassEvolves: does not cover a SAML registration that disagrees with the metadata from the start, because correcting it deletes an application (see `Limits.DriftCorrection`).
