# Verification model of go-patroni

go-patroni operates Patroni clusters: it prepares a plan from a revisioned etcd
snapshot, has it confirmed, revalidates it, writes through Patroni's REST API or
directly to etcd, and reads back before it reports SUCCEEDED, FAILED or UNKNOWN.
This project models that protocol and the algorithms it leans on, and proves
what they promise.

## How the model is built

- **etcd** (`Etcd.dfy`, `Txn.dfy`) is a history of committed requests; the store
  at any revision is replayed from it, so revisions and compare-and-swap have
  their real meaning. A request whose sender got no answer stays on the wire and
  may still arrive, once, at any later time. `World.Environment` lets all other
  writers run for any number of steps between any two exchanges of a command.
  Each request and REST call carries the run that issued it, and a run is new when
  its command starts; `NoEffect` says that nothing of it has taken effect or still can.
  `World.trace` lists every exchange with its answer and the length of the history
  at that moment, so a contract can say what was sent, in what order, and that a
  readback came after the last write.
- **The commands** (`Failover.dfy`, `EditConfig.dfy`, `Flush.dfy`, `Pause.dfy`,
  `Standby.dfy`, `Remove.dfy`, `Batch.dfy`) are methods over the shared world with
  the branches of the Go code; a cancelled context, a failing read and every
  delivery outcome are free choices, so each contract holds for all of them.
  `Effects.dfy` tracks what a run has written, `Members.dfy` what became of one
  REST write per member, `Control.dfy` holds plans, results and the one rule
  (`FollowsRules`) that the hand-written branching has to refine.
  `StoredConfig.dfy` and `StoredFailover.dfy` say which configuration and which
  failover event the commands really see; `ScheduledFlush.dfy` and
  `WaitingPause.dfy` are concrete histories on which a flush and a pause go wrong.
- **Snapshots and discovery** (`Cluster.dfy`, `Discovery.dfy`) decode keys;
  **Watch.dfy** is the watch loop with its consumer; **ConfigTree.dfy** and
  **Merge.dfy** are the configuration algebra and the layered merge;
  **Topology.dfy**, **Version.dfy**, **Target.dfy** and **Stream.dfy** are the
  self-contained algorithms. `Text.dfy`, `Decimal.dfy` and `Json.dfy` hold the
  library operations they share.

## Where the code and its promises part

- A 404 in a switchover flush is reported FAILED even after an attempt whose fate
  is unknown. Without such an attempt FAILED means no effect; with one, a run
  exists in which it does not (`Flush.NotFoundWithoutAmbiguity`,
  `Flush.NotFoundAfterAmbiguity`, `ScheduledFlush.MissingRunExists`).
- Pause breaks the rule for write results exactly when it is to wait, the flag was
  already set in its first snapshot, and no snapshot it reads afterwards shows
  convergence: it is UNKNOWN although nothing was sent (`Pause.ExecutePause`,
  `Pause.NotWaitingIsSafe`, `WaitingPause.WaitingRunExists`).
- Discovery and direct snapshots agree exactly for canonical keys; a group written
  as 007 is discovered as group 7 (`Discovery.EntriesAgree`,
  `Discovery.PaddedGroupDisagrees`).
- The root of one cluster lies inside that of another exactly when the names of
  the outer one are the first names of the inner one (`Remove.RootsNest`). Both
  ways to get there pass validation: a scope with a slash
  (`Remove.SlashedScopeIsInside`) and a namespace that ends in another cluster's
  scope (`Remove.NestedNamespaceIsInside`).
- A validated version range can be empty (`Version.EmptyRangeExists`).
- Attributed configuration paths stop being the leaf paths exactly when an empty
  object of one side of a merge meets a non-empty one of the other
  (`Merge.MergeExactIff`), in either order (`Merge.EmptiedObject`,
  `Merge.FilledObject`).
- A key that sorts after the config key and reads as the config key, such as
  `config/`, replaces the configuration that edit-config shows; if it is malformed
  the edit starts from nothing, since the decoding issue names that other key, and
  the commit erases what was stored. A key that sorts before it, such as `//config`, is harmless
  (`StoredConfig.ShowsStoredIff`, `StoredConfig.OverridingNames`,
  `StoredConfig.CommitForgetsStored`, `StoredConfig.EditErasesStored`).
- In the same way a key such as `failover/` masks the recorded failover event. The
  guarded writes are then blocked, but a flush reports success over a scheduled
  event it does not see (`StoredFailover.RecordedIsSeenIff`,
  `StoredFailover.MaskedGuardNeverHolds`, `StoredFailover.FlushOverlooksEvent`).
- The delete of a remove carries no guard: it also takes keys written after the
  revalidation, and one of unknown fate may still take a cluster created later
  (`Remove.RemoveTakesInventoryIff`, `Remove.UnlistedKeyIsRemoved`,
  `Remove.UnknownRemoveStillArrives`).
- A forced schedule on a member with a recorded one removes that first; if the
  restart is then rejected the result is FAILED although the old schedule is gone.
  In every other case FAILED means that nothing happened at the member
  (`Batch.FailedMeansNothing`, `Batch.RemovalSurvivesFailure`).

## Model

| member | source | states |
|---|---|---|
| Txn.World.Put | dcs/etcd3/txn.go:38-89 | Compare-and-swap put: applied only if the key's ModRevision equals the expected one (0 for an absent key), a conflict reports the observed revision and changes nothing, NOT_SENT changes nothing, MAYBE_SENT leaves the request on the wire |
| Txn.World.Delete | dcs/etcd3/txn.go:91-144 | Guarded delete of one key with the same delivery cases; afterwards the key is absent; deleting an absent key adds no revision |
| Txn.World.DeleteCluster | dcs/etcd3/txn.go:148-164 | Deletes exactly the keys under the trailing-slash prefix, returns their number, leaves every other key as it was |
| Txn.World.Rest | control/reload.go:275-294 | REST delivery contract: an accepting status means the write took effect, any other status or NOT_SENT means it did not, otherwise it may take effect now, later or never |
| Etcd.EveryRunIsLater | dcs/etcd3/txn.go:38-144 | Any number of steps of other writers, with late arrivals and losses, only extends the history and never adds effects of this run beyond what it has committed or on the wire |
| Etcd.NoEffectIsFinal | control/result.go:158-174 | If nothing of a run took effect and nothing is on the wire, no later interleaving can make it take effect |
| Etcd.OneCommitPerRevision | dcs/etcd3/txn.go:38-89 | At most one request guarded by the same positive ModRevision of a key ever commits, whoever sent it and however it was delivered |
| Etcd.SameRevisionSameEntry | dcs/etcd3/txn.go:38-89 | Equal ModRevisions of a key at two points of the history mean the same entry, value included, or absence at both |
| Etcd.RevisionIdentifiesKey | dcs/etcd3/txn.go:38-89 | Two keys never share a ModRevision |
| Etcd.GuardedCommitFindsEntry | dcs/etcd3/txn.go:38-144 | A guarded request that commits finds exactly the entry its guard was read from |
| Cluster.DecodeClusterLoop | dcs/decode.go:36-81 | The decoding loop computes the cluster and the issue list that the snapshot lemmas are about |
| Cluster.SnapshotFailover | dcs/decode.go:123-147 | The revision a snapshot shows for the failover event is 0 exactly when the failover key is absent; if it equals the key's ModRevision the event is the key's, otherwise it belongs to another key and can never match |
| Cluster.GuardFromSnapshot | control/failover.go:591-597 | A write of the failover key guarded with a snapshot's event, if it ever commits, finds the key exactly as that snapshot did |
| Cluster.PrefixForm | dcs/path.go:16-26 | The root of a cluster is its namespace, its scope and its group, each closed by a slash |
| Control.ReadSnapshot | dcs/etcd3/store.go:194-211 | One consistent read after any activity of others |
| Control.Verify | control/failover.go:718-750 | The bounded verification loop: every snapshot it looked at was read during the loop, success means that the last one satisfied the test, and failure that none did |
| Control.ClassifyHTTPStatus | control/read.go:749-762 | Which statuses map to which category, both ways; retryable exactly if unreachable, and never the category reserved for UNKNOWN outcomes |
| Control.ClassifyReadError | control/read.go:709-747 | Which kinds of failure map to which category, both ways; retryable exactly if unreachable, and never the category reserved for UNKNOWN outcomes |
| Failover.ExecuteTransition | control/failover.go:117-205 | FAILED means no REST, legacy or DCS write took or can take effect; SUCCEEDED means 200, 202 (if scheduled, with a matching snapshot read after the answer) or a matching snapshot read after the last write of the run; everything sent is the HTTP exchanges of the selection a revalidated snapshot gives, then at most one DCS write, which follows only an attempt without an HTTP response and only as the guarded fallback; outcome and error follow ClassifyWrite and Result.Validate |
| Failover.SendTransition | control/failover.go:167-205 | The same promises from the REST attempt on, each tied to the length of the history when that attempt had been answered |
| Failover.CallTransitionREST | control/failover.go:467-516 | One exchange with the selected member, and for a switchover a second one with the same member only after a 501 whose body contains the legacy text; at most one REST write takes effect; nothing took effect if it was not sent or was rejected |
| Failover.ExecuteTransitionFallback | control/failover.go:529-634 | The fallback writes at most once, guarded with the failover event of the fresh snapshot that passed the fallback guard; never FAILED after an ambiguous REST attempt |
| Failover.WriteFallback | control/failover.go:591-634 | The compare-and-swap and its readback: FAILED only if neither REST nor DCS write took effect, SUCCEEDED only on a completing snapshot read after the write had been answered |
| Failover.ConfirmAccepted | control/failover.go:175-190 | An accepted scheduled switchover is SUCCEEDED only on a matching snapshot read after the acceptance, and never FAILED |
| Failover.FallbackCommitFindsEvent | control/failover.go:591-597 | Whenever the fallback write commits, in the run or at any later time, the failover key is absent or holds the very event the guarding snapshot showed |
| Failover.OnlyFallbackWriteLater | control/failover.go:591-597 | What a run promised about its DCS write stays true under every later interleaving |
| Failover.CollectCandidates | control/failover.go:290-303 | The candidates are exactly the members other than the leader that do not have nofailover |
| Failover.ResolvedPassesFallback | control/failover.go:266-343 | A resolved transition names an eligible member, and its own cluster passes the fallback guard: only a change of topology can abort the fallback |
| Failover.PayloadIsRecognized | control/failover.go:668-680 | The payload the fallback writes decodes to the event the readback looks for |
| Failover.PreparedPlanBinds | control/failover.go:380-446 | A prepared plan is accepted for its request; revalidation accepts another selection if and only if leader, failover revision, pause state, synchronous eligibility and candidate list are the confirmed ones |
| Failover.FallbackFollowsRules | control/failover.go:612-634 | The three-way ending of the fallback obeys ClassifyWrite, and is FAILED only if the REST write was not sent and the DCS write conflicted or was not sent |
| ConfigTree.ApplyPatroniConfigPatch | control/edit_config.go:190-212 | The recursive patch over the keys in any order computes one result, independent of map iteration order |
| ConfigTree.PatchStabilizes | control/edit_config.go:190-248 | A third application never changes anything, and a second one changes nothing if and only if every object planted in place of a non-object holds no null |
| ConfigTree.CleanPatchSettles | control/edit_config.go:190-212 | A patch without nulls in its nested objects settles at once on every configuration, and keys it does not mention are untouched |
| ConfigTree.SelfPatch | control/edit_config.go:190-212 | An object patched with itself is unchanged if and only if it holds no null, and a second application changes nothing |
| ConfigTree.EffectivePathIsSet | control/edit_config.go:261-283 | The setter assigns along the effective path, on which everything below postgresql.parameters is one key |
| ConfigTree.SetThenGet | control/edit_config.go:261-283 | Setting a value and reading it back returns the value |
| ConfigTree.UnsetThenGet | control/edit_config.go:261-283 | After setting null the path is absent |
| ConfigTree.OtherPathsUnchanged | control/edit_config.go:261-283 | Paths that are neither prefixes nor extensions of the assigned one keep their value |
| ConfigTree.AncestorsPruned | control/edit_config.go:261-283 | Every proper ancestor of an assigned path ends absent or as a non-empty object |
| ConfigTree.UnsetRestores | control/edit_config.go:261-283 | Setting and unsetting restores the tree if and only if the path was absent below non-empty object ancestors |
| ConfigTree.SettingsCommute | control/edit_config.go:261-283 | Assignments on incomparable paths commute |
| ConfigTree.CollectChangedConfigPaths | control/edit_config.go:298-337 | The loop over the sorted keys appends exactly the diff of the two trees to the caller's list |
| ConfigTree.ChangedIsReported | control/edit_config.go:298-337 | The list holds a path if and only if the recursive rule reports it |
| ConfigTree.ReportedDiffers | control/edit_config.go:298-337 | A reported path really differs; a present null differs from absence |
| ConfigTree.UnreportedLeafAgrees | control/edit_config.go:298-337 | Before and after agree at every leaf path that has no reported path at itself or above |
| ConfigTree.DiffIsExact | control/edit_config.go:291-337 | The diff is empty if and only if the trees are equal |
| ConfigTree.ChangedConfigPathsExact | control/edit_config.go:291-296 | The rendered list is sorted, has every reported path, and is empty if and only if nothing would change |
| ConfigTree.DottedIdentifies | control/edit_config.go:312-316 | For keys without dots the dotted text identifies the path |
| ConfigTree.PreviewEditConfig | control/edit_config.go:101-133 | Replacement, then patch, then the settings in order; Noop holds if and only if the result equals the current configuration |
| EditConfig.PrepareEditConfig | control/edit_config.go:339-407 | A returned plan is bound to the snapshot it was built from and is accepted for its own request |
| EditConfig.AcceptedPlanWasIssued | control/edit_config.go:600-648 | A plan that validates was issued by a prepare of the service for the same cluster, and its revision and desired token are those of that prepare |
| EditConfig.ExecuteEditConfig | control/edit_config.go:409-527 | FAILED or NOT_SENT means no effect; the run sends at most one write, and SUCCEEDED means a snapshot read after it showed exactly the confirmed configuration; whatever the run commits, now or later, is the write its plan was prepared for; outcome, error and data obey the result rules |
| EditConfig.SwapAndVerify | control/edit_config.go:490-527 | The compare-and-swap and its readback, which follows the answer to the write, with the same promises |
| EditConfig.EditRunLater | control/edit_config.go:490-495 | The promise about what an execution can commit stays true under every later interleaving |
| EditConfig.PlanCommitsAtMostOnce | control/edit_config.go:409-527 | However often one plan is executed, by any number of runs against any writers, at most one of its writes ever commits |
| EditConfig.CommitReplacesPrepared | control/edit_config.go:490-495 | The commit finds the config key byte for byte as the prepare read it and leaves exactly the confirmed After value |
| StoredConfig.EditableIffObject | control/edit_config.go:543-554 | A plan can be prepared if and only if the config key holds a JSON object |
| StoredConfig.LastKeyIsShown | dcs/decode.go:36-49 | The configuration a snapshot shows is that of the last key that reads as the config key, and empty if that value is malformed |
| StoredConfig.ShowsStoredIff | dcs/types.go:205-229 | Whatever the values are, plans are prepared on the configuration stored under the config key if and only if no key sorting after it reads as the config key too |
| StoredConfig.OverridingNames | dcs/types.go:205-229 | A key config/ overrides the config key; a key //config reads as it but does not |
| StoredConfig.CommitEditsStored | control/edit_config.go:490-495 | Without an overriding key a committed edit is the requested edit of the very configuration stored until then |
| StoredConfig.CommitForgetsStored | control/edit_config.go:490-495 | With one, a committed edit is the edit of what the last overriding key holds, or of nothing if that is malformed, and the stored configuration is lost |
| StoredConfig.EditOverNothing | control/edit_config.go:339-407 | For every accepted request and every stored configuration there is a history whose plan is issued on an empty configuration |
| StoredConfig.EditErasesStored | control/edit_config.go:490-495 | That history goes on with the commit of the plan's write, after which the config key holds the edit of nothing |
| StoredFailover.LastKeyIsSeen | dcs/decode.go:55-56 | The failover event a snapshot shows is that of the last key that reads as the failover key |
| StoredFailover.RecordedIsSeenIff | dcs/types.go:205-229 | In every history the commands see the event recorded under the failover key if and only if no key masks it: none that reads as the failover key sorts after it, or exists at all while it is absent |
| StoredFailover.MaskingNames | dcs/types.go:205-229 | A key failover/ masks a recorded event, a key //failover does not |
| StoredFailover.MaskedGuardNeverHolds | control/failover.go:591-597 | A write or delete guarded with a masking event never commits: masking blocks the fallbacks instead of misdirecting them |
| StoredFailover.FlushOverlooksEvent | control/flush.go:445-449 | For every cluster root there is a history in which a scheduled switchover is recorded and every snapshot shows nothing scheduled |
| Flush.ExecuteFlush | control/flush.go:51-80 | For a switchover event: FAILED means no effect unless an attempt of unknown fate was followed by a 404; SUCCEEDED means a member took the delete or a snapshot read after the last write shows nothing scheduled; everything sent is the exchanges the results report, in plan order up to the first 200 or 404, then at most one DCS delete guarded by the confirmed event; results follow ClassifyWrite |
| Flush.ExecuteSwitchoverFlush | control/flush.go:425-485 | The same promises for the member loop, its 200, 404 and cancellation endings and the fallback; a 404 ending is always FAILED; a snapshot with nothing scheduled is a success with nothing sent |
| Flush.TryMembers | control/flush.go:457-484 | The exchanges sent are exactly those the results report, in plan order, ending at the first 200 or 404; per member no more writes can take effect than the results leave open; nothing took effect unless an attempt is unknown or was accepted |
| Flush.ExecuteSwitchoverFlushFallback | control/flush.go:510-587 | FAILED only if no REST attempt is ambiguous and nothing took effect; the only DCS request deletes the confirmed event's revision |
| Flush.DeleteAndVerify | control/flush.go:553-587 | The guarded delete and its readback, which follows the answer to the delete, with the same promises |
| Flush.FlushRemovesConfirmedEvent | control/flush.go:551-563 | Whenever the delete commits, in the run or at any later time, it removes the event whose revision, leader, candidate and schedule the plan confirmed, and no other key |
| Flush.OnlyConfirmedDeleteLater | control/flush.go:551-563 | What a run promised about its DCS delete stays true under every later interleaving |
| Flush.PreparedFlushConfirms | control/flush.go:589-608 | A plan prepared on a scheduled event confirms that event and no other |
| Flush.NotFoundWithoutAmbiguity | control/flush.go:478-482 | A member loop that ends with a 404 without an ambiguous reply before it has no effect, in every run |
| Flush.NotFoundAfterAmbiguity | control/flush.go:478-482 | For every accepted plan that the store still confirms and every ambiguous reply before the 404 there is a run of the loop in which a delete took effect although the ending is FAILED: the condition of the previous row is exact |
| ScheduledFlush.MissingRunExists | control/flush.go:478-482 | For every valid cluster there is such a history, plan and run |
| Flush.FinalizeFlushResults | control/flush.go:697-730 | UNKNOWN over FAILED over SUCCEEDED, noop if and only if every member was an unsent success, and the whole follows ClassifyWrite whenever every member result does |
| Members.AggregateRESTSendState | control/flush.go:618-629 | MAYBE_SENT if any attempt is, else ACCEPTED if any is, else NOT_SENT |
| Members.WriteToMember | control/flush.go:462-476 | One attempt sends one request, to the planned member, which its result reports, or none at all; others act before it, and it adds at most that write to what can take effect |
| Members.AllFailedIsQuiet | control/result.go:158-174 | If every attempt at a member failed, nothing of the run took or can take effect |
| Members.BoundedIsConfined | control/flush.go:457-484 | A write that can take effect goes to a member for which the results hold an attempt that did not fail |
| Pause.ExecutePause | control/pause.go:107-194 | The requests sent are exactly those the results report, follow the plan and stop at the first HTTP answer; FAILED means every attempt was unsent, except possibly a last HTTP rejection, and nothing took effect; SUCCEEDED means an accepted patch or, with wait, one snapshot read after the last answer in which the flag and every planned member match; the result breaks ClassifyWrite if and only if it was to wait, the first snapshot already had the flag, and no snapshot of the readback matched; it is a no-op if and only if the first snapshot had the flag |
| Pause.SendPause | control/pause.go:150-193 | The arm that sends the patch: its result always follows ClassifyWrite |
| Pause.WaitingBreaksRule | control/pause.go:132-148 | What is reported of a flag that is already set breaks the rule if and only if the request waits and no snapshot read matches, and then it is UNKNOWN with nothing sent |
| Pause.NotWaitingIsSafe | control/pause.go:132-148 | Every readback of such a flag obeys the rule if and only if the request does not wait |
| WaitingPause.WaitingRunExists | control/pause.go:132-148 | For every valid cluster there is a history in which the plan was prepared, another writer then set the flag, a planned member has not followed, and every readback of it breaks the rule |
| Pause.ProbeMembers | control/pause.go:156-180 | The probing loop: the requests sent are exactly those the results report, in plan order, none after an HTTP answer; no effect without an unknown or accepted attempt |
| Pause.Finish | control/pause.go:259-296 | How accepted, rejected, canceled and exhausted attempts are reported, with the readback after the last answer |
| Pause.VerifyPauseState | control/pause.go:298-328 | The snapshots it read, none but the last matching, and what it reports of them; verified only on one authoritative snapshot |
| Pause.MatchingIsAuthoritative | control/pause.go:330-342 | No pending members if and only if every planned member is present in the desired state |
| Pause.PreparedPauseIsAccepted | control/pause.go:55-105 | A prepared plan is accepted for its request and exists only if the cluster is not yet in the desired state |
| Standby.ExecuteRoleChange | control/standby_cluster.go:272-397 | FAILED or NOT_SENT means no effect; SUCCEEDED means a snapshot with the desired role, read after the patch; the only exchange is one patch of the leader the plan confirmed, in the confirmed role and state; results follow ClassifyWrite |
| Standby.SendRoleChange | control/standby_cluster.go:338-397 | Nothing is sent unless the state and endpoint bindings match |
| Standby.PatchAndVerify | control/standby_cluster.go:357-397 | The patch and its readback, which follows the answer, with the same promises |
| Standby.NothingPending | control/standby_cluster.go:603-627 | No pending condition if and only if the leader member is running in the desired role and, after a demotion, the previous leader runs again |
| Standby.LeaderIsPlanned | control/standby_cluster.go:341-350 | Matching state bindings mean the same leader name, role and state |
| Remove.ExecuteRemove | control/remove.go:125-208 | FAILED or NOT_SENT means no effect; the run sends at most one write, and SUCCEEDED means an empty root was read after it; only the exact root is deleted, only under the exact confirmation and only after the issued inventory and leader were found again; results follow ClassifyWrite |
| Remove.DeleteAndVerify | control/remove.go:179-208 | The delete and its readback, which follows the answer, with the same promises |
| Remove.AcceptedRemoveWasIssued | control/remove.go:253-290 | A plan that validates was issued on the inventory and leader it names |
| Remove.PrepareRemove | control/remove.go:75-123 | A returned plan is bound to the non-empty inventory it read |
| Remove.InventoryIsEmpty | control/remove.go:224-231 | The inventory is empty if and only if no key lies under the root |
| Remove.RemoveTakesExactlyTheRoot | dcs/etcd3/txn.go:148-164 | A committed remove takes every key under the exact root and no other |
| Remove.RemoveTakesInventoryIff | control/remove.go:162-180 | A committed remove takes exactly the keys a snapshot listed if and only if the inventory is still the same when it commits |
| Remove.UnlistedKeyIsRemoved | dcs/etcd3/txn.go:148-164 | On every history, a key that another writer puts under the root between the revalidation and the commit is deleted with it |
| Remove.UnknownRemoveStillArrives | control/remove.go:179-208 | A remove of unknown fate is UNKNOWN, and in every state with it on the wire there is a run in which a cluster is created again and the remove then deletes it |
| Remove.RootsOverlap | dcs/path.go:16-26 | The roots of any two accepted requests share a key if and only if the names of one (namespace, scope and group, split at slashes) are the first names of the other |
| Remove.RootsNest | dcs/path.go:16-26 | One root lies inside another if and only if the names of the outer one are the first names of the inner one |
| Remove.SiblingRoots | dcs/path.go:16-26 | Within a namespace and for scopes without a slash that means equal scopes and equal groups or one without a group |
| Remove.SlashedScopeIsInside | model/target.go:65-89 | For any names, validation accepts a scope with a slash whose whole root lies strictly inside the root of another accepted cluster |
| Remove.NestedNamespaceIsInside | model/target.go:65-89 | So does the root of a cluster with plain scope whose namespace ends in another cluster's scope |
| Batch.ExecuteBatch | control/restart.go:79-176 | One result per planned target in plan order; if any target vanished, changed role or lost its pending restart, nothing is sent and every result is NOT_SENT; UNKNOWN over FAILED over SUCCEEDED; everything sent is the members' turns in plan order, and each result is what the answers and readbacks of its own turn say |
| Batch.ResolvePlannedMembers | control/citus.go:122-161 | Conflicts are exactly the targets without a member of the role in their own cluster's snapshot; without conflicts the resolved members are the targets in order |
| Batch.RequirePendingRestart | control/restart.go:302-316 | Members without a pending restart become conflicts, and nothing else changes |
| Batch.AbortBatch | control/restart.go:318-334 | One unsent conflict result per planned target, in plan order |
| Batch.FinalizeBatch | control/reload.go:296-315 | The batch is UNKNOWN if any member is, else FAILED if any is, else SUCCEEDED, with the error category that fits |
| Batch.WriteMembers | control/reload.go:122-142 | Each member's turn is at most the removal of a schedule being replaced and its write, each taking effect at most once; FAILED or NOT_SENT means the write did not and cannot take effect; a success after a readback has a snapshot read after the answer, or polls, that show it |
| Batch.RestartMember | control/restart.go:113-174 | The restart of one member: a recorded schedule that a forced one replaces is removed first, a removal without an answer ends the turn, and a scheduled restart succeeds only on a later snapshot that shows the schedule unless it was answered 200 |
| Batch.FailedMeansNothing | control/restart.go:123-133 | A FAILED result means that neither write to the member took or can take effect if and only if no recorded schedule was replaced or the member did not take its removal |
| Batch.RemovalSurvivesFailure | control/restart.go:123-133 | The other case occurs: after an accepted removal every rejected restart is FAILED although the schedule is gone |
| Batch.ReinitializeMember | control/reinitialize.go:117-151 | The reinitialization of one member; when it waits, it succeeds only if the polls show completion |
| Batch.VerifyReinitialize | control/reinitialize.go:230-256 | Completed if and only if a poll showed a state other than creating after an accepted request or after creating was seen |
| Batch.PlannedAddressesDiffer | control/plan.go:62-109 | A valid plan never names a member twice |
| Batch.ClassifyFollowsRules | control/restart.go:372-393 | Each member result follows ClassifyWrite, and fails only if the write was rejected or not sent |
| Discovery.DiscoverFromEntries | dcs/decode.go:292-372 | The result is sorted, has each cluster once, and exactly the clusters that own a recognised key and have a valid root |
| Discovery.EachKeyOnce | dcs/decode.go:306-337 | Every recognised key is evidence of exactly one discovered cluster |
| Discovery.EntriesAgree | dcs/decode.go:338-356 | A discovered cluster is assembled from exactly the recognised entries of its direct snapshot if and only if its keys are canonical |
| Discovery.DiscoveryAgrees | dcs/etcd3/store.go:194-230 | Then its revision, state and issues equal those of the direct snapshot |
| Discovery.DiscoveryIsCorrect | dcs/decode.go:292-372 | All of it for a whole discovery: canonical clusters are shown as their direct snapshots decode them, and every addressable cluster with a recognised key is shown |
| Discovery.CanonicalKeys | dcs/decode.go:306-326 | A key is canonical if and only if its scope segment has no outer white space and its group segment is the decimal text of the group |
| Discovery.PaddedGroupDisagrees | dcs/decode.go:318-323 | Any other text of a group makes discovery and direct snapshot disagree |
| Discovery.PaddedGroupExists | dcs/decode.go:318-323 | 007 is such a text |
| Discovery.DirectKeyIsOwned | dcs/types.go:205-231 | A recognised key under a target's own root is assigned to that target with the same relative path |
| Discovery.DecodeIgnoresUnknown | dcs/decode.go:36-81 | Decoding ignores keys that are not recognised |
| Watch.RunWatch | dcs/etcd3/watch.go:22-124 | For any number of messages: the stream is a chain of spans without gap or overlap from the start revision to revision-1, and a consumer that applies it holds the prefix state at revision-1, across deadlines and compaction; from a start in the future nothing is reported until the store gets there |
| Watch.StreamFollowed | dcs/etcd3/watch.go:22-124 | Consuming a chained stream takes the state at its start to the state at its end |
| Watch.EventsFollowed | dcs/etcd3/watch.go:89-108 | The events of consecutive commits take one state to the next, for puts, deletes and prefix deletes |
| Watch.ResyncFollowed | dcs/etcd3/watch.go:55-70 | A resync event leaves exactly the state of the snapshot |
| Watch.ChainedBounds | dcs/etcd3/watch.go:89-91 | Spans of a chain are adjacent and never go back |
| Merge.Effective.ApplyLayer | config/merge.go:46-48 | One layer updates values and attribution in place, key by key |
| Merge.ApplyMap | config/merge.go:50-70 | The deep merge over the overlay in any order, with the attribution of every path |
| Merge.AssignSources | config/merge.go:72-80 | Attributes exactly the leaves of a value |
| Merge.LeafNamesLastWriter | config/merge.go:44-88 | After any layers, a leaf has the value the last layer with a value there gave it, and its own attribution, if any, names that layer |
| Merge.EveryLeafIsCovered | config/merge.go:44-88 | After any layers, every leaf is covered by an attribution at itself or at an ancestor |
| Merge.MergeExactIff | config/merge.go:50-88 | If the attributed paths are exactly the leaf paths, one merge keeps that if and only if no empty object of one side meets a non-empty object of the other at the same path |
| Merge.AttributedPathsAreLeaves | config/merge.go:44-88 | After layers whose merges never meet such a clash, the attributed paths are exactly the leaf paths |
| Merge.EmptiedObject | config/merge.go:57-63 | An empty object over a non-empty one moves the attribution of an existing leaf to the object, which is no leaf |
| Merge.FilledObject | config/merge.go:57-63 | A non-empty object over an empty one leaves the object attributed besides its new leaf |
| Topology.TopologyMembers | control/read.go:591-642 | Every non-empty name once, with the parent it replicates from; depth first, with siblings sorted, no subtree left before all its children that were not listed earlier, trees in member order; and, when the leader is a member, first exactly the members whose parent chain reaches it, each at the length of its chain; it terminates on cycles |
| Topology.EachMemberOnce | control/read.go:591-642 | With unique names every member is listed exactly once, and one that reaches the leader at the length of its chain, after none that does not |
| Topology.TopologyIsDetermined | control/read.go:591-642 | With unique names these properties leave exactly one listing |
| Topology.Walker.Walk | control/read.go:619-634 | The recursive walk visits the name, closes over its children, lists each of them earlier or in its own subtree, and keeps the listing depth first with sorted siblings |
| Topology.CollectChildren | control/read.go:600-615 | The children lists are sorted and hold exactly the replicatefrom edges |
| Topology.ChainLengthIsUnique | control/read.go:600-613 | With unique names a member's chain has one length |
| Version.CompareIsTotalPreorder | model/version.go:49-123 | Antisymmetric in sign, transitive, and zero exactly for equal cores and equal identifiers |
| Version.IdentifiersByValue | model/version.go:109-123 | Numeric identifiers of any length are ordered as integers, text by bytes, numbers before text (section 11 of Semantic Versioning 2.0.0) |
| Version.ComparePartsLoop | model/version.go:63-107 | The loop over the identifiers decides by the first difference, then by their number |
| Version.PrereleaseByPrecedence | model/version.go:63-107 | The comparison of suffixes is precedence of releases and identifier lists |
| Version.ValidRangeIsAudited | model/version.go:170-179 | Every version in a validated range lies in the audited range |
| Version.RangeIsInhabited | model/version.go:131-179 | A validated range contains a version if and only if the numeric cores of its bounds increase |
| Version.EmptyRangeExists | model/version.go:168-179 | From a release candidate to its release is a validated range that contains nothing, although validation promises a non-empty one |
| Target.NormalizeIdempotent | model/target.go:34-47 | Normalize is idempotent |
| Target.NormalizeNamespaceLoop | model/target.go:50-62 | The loop over the raw segments computes the normal form |
| Target.UnescapeEscape | model/target.go:96-121 | Percent-encoding round-trips on every byte string and yields no slash (section 2.1 of RFC 3986) |
| Target.ParseClusterID | model/target.go:96-176 | Parsing a cluster ID returns the normal form without the member |
| Target.ParseMemberID | model/target.go:109-176 | Parsing a member ID returns the normal form |
| Target.ClusterIDInjective | model/target.go:96-105 | Cluster IDs are equal if and only if the normal forms without members are |
| Target.MemberIDInjective | model/target.go:109-121 | Member IDs are equal if and only if the normal forms are |
| Stream.StreamChecked | postgres/client.go:171-230 | A successful stream observes every row, passes on exactly the longest prefix of all rows that fits both limits, flags truncation if and only if a row was withheld, per set and overall, and its per-set counters sum to the totals |
| Stream.StreamResult | postgres/client.go:171-226 | The same for one result set after the sets before it |
| Stream.LongestIsLongest | postgres/client.go:332-346 | No longer prefix fits |
| Stream.RowStep | postgres/client.go:332-346 | A row is passed on if and only if nothing was withheld before and the prefix ending in it fits |
| Stream.ResolveLimits | postgres/client.go:313-330 | Negative limits are refused; an unset limit falls back to the default |
| Stream.Collector.WriteRow | postgres/client.go:357-365 | Appends the row to its result set, or reports a bad index and changes nothing |

## Left out

- Values instead of aliased maps: the patch, the setter, the diff and the merge
  compute on immutable trees held in variables and fields; sharing of submaps
  between two Go maps is not captured.
- Text of JSON and YAML: documents are trees and marshalling is total; number
  texts stay as written. The changed paths of an edit and the key inventory of a
  remove, which travel as JSON text in a plan, are kept decoded.
- Plan tokens: the keyed hash is an injective function that nobody else can
  compute; its 64-digit length check is not modelled.
- Dotted and slash-joined configuration paths as text: diff, setter and merge work
  on key sequences; keys that contain dots can share a rendered path.
- Case folding beyond ASCII in member names, roles and boolean settings.
- Legacy member records of the form postgres://...: they decode to a member
  without a REST address.
- Cluster.DecodeClusterLoop: status values, quorum and lease fields are not decoded,
  because no command modelled here branches on them.
- Cluster.StringField: matches field names exactly; Go's decoder also fills a
  field from a name in other letter case.
- Member connection URLs, LSN, lag, timeline, lease, status and quorum fields of a
  snapshot: no command modelled here branches on them.
- Normalization of REST base URLs and RFC 3339 parsing: given as predicates of the
  service (usable address, same instant); the endpoint binding of a role change is
  taken over the recorded address.
- Transactions of other writers that touch several keys at once: another writer is
  any sequence of single puts, deletes and prefix deletes.
- Control.ClassifyReadError: the error kinds are those of the DCS client; the kinds
  of the Patroni client are mapped to them.
- Batch.ReinitializeMember: the state a poll returns is any text or a failure; it is
  not tied to the reinitialization the member performs.
- Batch.ExecuteBatch: takes the snapshots, the Citus group inventory and the
  feature gate as inputs; the discovery that reads one snapshot per group is not
  part of this model.
- Flush.ExecuteFlush: covers switchover events; the choice of the Citus coordinator
  group is an input.
- Restart flush (`executeRestartFlush`): its member writes have the shape of the
  batch writes; only its aggregation is modelled.
- Selection and request validation that only prepares a batch plan (member
  selection, random choice, timeout and version syntax).
- Evidence lists, messages, operation IDs and timestamps of results.
- Preparation of role changes and the plan's display summaries.
- Parsing of version strings by regular expression.
- Watch.RunWatch: is stated for responses that are complete up to their header
  revision; a previous value lost to compaction is not modelled.
- int64 overflow of byte and row counters, and revisions beyond int64.
- Stream.StreamChecked: starts at the first result set; connection, timeout and role
  check before it, and sinks other than the collector, are not part of this model.
- HTTP, TLS, etcd and PostgreSQL clients, the transport cache, redaction,
  the command line and the configuration projection.
