# Verified model of the RocketMQ operator's broker controller

A Kubernetes operator keeps, for each `BrokerCluster`, one headless Service and one
StatefulSet per group of brokers, and reports in the cluster's status whether all groups
are ready. This project models the controller that does so and proves what its protocol
guarantees: which objects exist after any run of syncs, what interleaved syncs, lagging
caches and failing calls can and cannot do, how concurrent writers of one cluster object
compose, and what the published Ready condition means.

`dafny verify dfyconfig.toml` checks everything (Dafny 4.11).

## How it is modelled

| file | what it holds |
|---|---|
| `Values`, `Naming`, `Normalisation`, `Builders` | API objects as values; object names and queue keys; defaults; the Services and StatefulSets that are built |
| `Conditions`, `StatusSync` | the condition list as a map with a transition clock; how a sync edits the cached and the sent list |
| `Objects`, `Updater`, `Controller` | the imperative program: heap objects with their in-place operations and deep copies, the retrying updater, the controller's sync. Their methods are proved against the functions of the other modules |
| `Updates`, `Clients` | the API server's versions of one cluster and any number of interleaved writers; each of them, taken out of the interleaving, runs the retry loop |
| `Patches` | what a strategic merge patch makes of the stored object |
| `Reconcile`, `Frames` | the reconciler as a state machine over Services and StatefulSets, any number of clusters, one worker per cluster |
| `Convergence`, `Edits`, `Prefix`, `Governing`, `Serial`, `Readiness`, `Routing`, `EndToEnd`, `Published`, `Completion` | the theorems |

One iteration of a loop of `syncHandler`, with its at most one write, is one step of the
machine. The answer of a lister is part of the event, so a cache may say anything; the
theorems say which answers they need (any, caught up, or correct at some earlier moment).
A call that returns an error has changed nothing. A patch is the difference between the
cached and the wanted object, applied to whatever is stored: plain fields are set, maps and
keyed lists (owner references by UID, environment variables and volumes by name) are merged
entry by entry, and the status is left alone.

What an operation achieves when nothing is in its way is proved beside what it never does: a
sync with caught-up caches and no failing call completes exactly if no foreign object stands
under its names (`Completion.UnhinderedSyncCompletes`), and an update succeeds exactly if some
attempt carries the number that is current by then (`Updates.SucceedsExactly`).

Six things in the code differ from what one might expect. Each is proved, with the exact
condition under which the code does meet the expectation:

- The AllMaster override is written back. A sync sets the member count of the lister's own
  object to one, and its status write sends that whole object, so a user's count of three is
  gone from the server and shows as one when AllMaster is switched off
  (`Normalisation.MemberCountForgotten`, `Updates.StatusWriteStoresOverride`). What the user
  wrote decides every later sync while the switch stays, and after a change of it unless it
  is turned off, an override has been stored, and it replaced another count
  (`Updates.UserSpecDecides`, `Builders.WriteBackThenSwitch`).
- Only a wrong number of replicas triggers a patch. An edit of the image, the properties or
  anything else but the counts and AllMaster changes no decision of any sync; it reaches an
  existing StatefulSet only along with such a patch, which then carries the whole new template
  (`Edits.OtherEditsOnlyShowInTemplates`, `Edits.TemplateArrives`). The AllMaster
  switch does reach every set, unless groups have one member either way
  (`Edits.SwitchReachesEverySet`).
- Ready compares two totals. A True verdict is right exactly when no group is counted with
  more members than wanted (`Readiness.TrueVerdictIsRight`); a False one is always right
  (`Readiness.AllReadyIsReported`, `Readiness.VerdictMisleads`). The Services play no part
  (`Readiness.VerdictIgnoresServices`). A set that the sync itself has to size counts as new,
  so that a look at the store afterwards may find ready what was reported as not ready
  (`Published.PublishedReadyIsRight`, `Published.ResizedSetNotCounted`).
- A patch goes to whatever is stored under the name. With a cache that lags, a sync resizes a
  StatefulSet its cluster does not control exactly when the object in the cache passes the
  guard of the patch branch (`Prefix.StaleStepResizes`). It never takes such a set over: the
  patch merges owner references by UID and says nothing of the cluster's own
  (`Patches.PatchKeepsControl`).
- A failed status write is forgotten when the cached list already had a Ready condition,
  because the verdict was written into the lister's own object first. Until an informer event
  replaces that object, as one will after a conflict, syncs with the same verdict succeed
  without writing (`StatusSync.FailedWriteIsForgotten`, `Published.FailedWriteThenSync`). Over
  whole histories this, a foreign write of the Ready condition and an outdated informer event
  are the only causes of a success with the wrong verdict stored
  (`Published.WrongSuccessHasCause`).
- A label update sends the whole cached object, and keeps the stored conditions exactly when
  the copy still has those of the version it carries (`Updates.LabelUpdateKeepsConditions`).

The default for the REPLICATION_MODE property never reaches a broker
(`Builders.ReplicationModePropertyUnused`). The comments
at pkg/controllers/cluster/controller.go:327-329 speak of requeueing an item after an error,
but lines 281-284 do not add it again: a sync starting is therefore an event of the
environment, and nothing here claims that one eventually starts.

## Model

| member | source | states |
|---|---|---|
| Values.ControllerIsFirst | vendor/k8s.io/apimachinery/pkg/apis/meta/v1/controller_ref.go:33-40 | The controller of an object is the first of its references that claims to be one |
| Values.ControlledExactly | vendor/k8s.io/apimachinery/pkg/apis/meta/v1/controller_ref.go:24-30 | An object is controlled by whoever's UID the first such reference carries, whatever else it says |
| Naming.DecimalRoundTrip | pkg/resources/statefulsets/statefulset.go:68 | A group index has one numeral, of digits and without leading zeros, which parses back to it and holds no dash |
| Naming.NameReadsBack | pkg/controllers/cluster/controller.go:360 | From an object name the cluster's name (with a suffix of its own for a Service) and the group index can be read back at the last dash |
| Naming.KeysDisjoint | pkg/controllers/cluster/controller.go:320 | For Services and for StatefulSets alike, the object's namespace and name determine the cluster and the group index, over all names and all naturals |
| Naming.KeyRoundTrip | pkg/controllers/cluster/controller.go:292-300 | Splitting a queue key gives back the namespace and name it was made from, exactly when neither holds a slash |
| Naming.MalformedKeys | pkg/controllers/cluster/controller.go:292-297 | A queue key is malformed exactly if it holds two slashes |
| Normalisation.NormalisationLaws | pkg/apis/rocketmq/v1alpha1/helpers.go:34-62 | Defaults and the AllMaster override are idempotent together and in part, touch four fields only, make the guard on zero members dead, and keep every value a user set, the member count exactly if it is set and not overridden |
| Normalisation.OmittedFields | pkg/apis/rocketmq/v1alpha1/helpers.go:19-28 | What each field that a user leaves out is taken to be |
| Normalisation.LaterSwitch | pkg/controllers/cluster/controller.go:349-351 | After a change of AllMaster a spec that syncs have edited means what the user's spec means, except exactly when the switch is turned off and an override is stored that replaced another member count |
| Normalisation.MemberCountForgotten | pkg/controllers/cluster/controller.go:349-351 | Three members, AllMaster on, written back, and off again: one member |
| Builders.BuiltObjectsAreOwned | pkg/resources/services/service.go:39-54 | A built Service or StatefulSet is filed under the name the reconciler looks up and its controller is the cluster |
| Builders.BuiltCarriesSpec | pkg/resources/statefulsets/statefulset.go:119-170 | The brokers of a group get the user's AllMaster switch, with one replica in that case, the user's image, name servers, replication mode, node selector and properties wherever set, and a broker name and volume paths that end in the group's numeral |
| Builders.BuiltLabelsAndOwner | pkg/resources/statefulsets/statefulset.go:35-86 | The role is master exactly for the first group; the set, its pods and its selector have the same labels, of which the Service selects by one; the only owner is the cluster |
| Builders.SelectorExact | pkg/resources/services/service.go:57-59 | A group's Service selects a StatefulSet's pods exactly when cluster name and index agree, and a StatefulSet selects its own pods |
| Builders.SelectorsDisjoint | pkg/resources/statefulsets/statefulset.go:39-42 | No pod, whatever its labels, is selected by two groups |
| Builders.IdentityIndependentOfSpec | pkg/resources/statefulsets/statefulset.go:64-113 | Name, labels, selector and Service name come from the cluster's key and the index alone |
| Builders.WriteBackPreservesMeaning | pkg/controllers/cluster/controller.go:431 | Writing back the spec as a sync has edited it, however far, changes no object that later syncs build while AllMaster stays as it is |
| Builders.WriteBackThenSwitch | pkg/controllers/cluster/controller.go:349-351 | After a change of AllMaster the StatefulSets built are still those the user's spec asks for exactly if no overridden member count was stored that would count again; Services and the group count always are |
| Builders.ReplicationModePropertyUnused | pkg/resources/statefulsets/statefulset.go:150-153 | The REPLICATION_MODE property has no influence on what is built |
| Conditions.UpdateRefinesMap | pkg/api/cluster/util.go:43-66 | One list update is one map update of the named entry, the flag is true exactly when the map changed, and types stay unique |
| Conditions.OwnEntryUpdate | pkg/api/cluster/util_test.go:85-89 | For an argument that is the list's own entry the report of no change is right exactly when the clock has not moved |
| Conditions.ListRefinesMap | pkg/api/cluster/util.go:28-66 | Any sequence of list updates is the same sequence of updates of a map whose entry times move only with their statuses |
| Conditions.TypesStayUnique | pkg/api/cluster/util.go:48-63 | Distinct condition types stay distinct over any sequence of updates |
| Conditions.TransitionClock | pkg/api/cluster/util.go:54-56 | A type's transition time is the clock at the latest call that added it or changed its status, and otherwise its initial value |
| Objects.GetClusterCondition | pkg/api/cluster/util.go:28-38 | The position of the first condition of the type and a pointer to that very element; -1 and nothing for an absent one or a nil status |
| Objects.UpdateClusterCondition | pkg/api/cluster/util.go:43-66 | The list, the argument and the flag after the call, for an argument outside the list, for the list's own entry, and for a duplicate |
| Objects.IsClusterReadyConditionTrue | pkg/api/cluster/util.go:75-84 | True exactly when the first Ready condition has status True |
| Objects.BrokerClusterSpec.DeepCopyInto | pkg/apis/rocketmq/v1alpha1/zz_generated.deepcopy.go:107-139 | The output has the input's value and every map and pointer of it is new |
| Objects.BrokerCluster.DeepCopy | pkg/apis/rocketmq/v1alpha1/zz_generated.deepcopy.go:29-46 | Equal value, all of it in newly allocated objects |
| Objects.CopyThenDiverge | pkg/apis/rocketmq/v1alpha1/zz_generated.deepcopy.go:38-46 | After a deep copy any sequences of changes in place to original and copy, each setting one of their fields, maps, lists or pointed-to values to any contents, are invisible to each other |
| Objects.BrokerCluster.EnsureDefaults | pkg/apis/rocketmq/v1alpha1/helpers.go:34-62 | The object itself gets the defaulted spec and nothing else of it changes |
| Updates.AttemptStores | pkg/controllers/cluster/cluster_control.go:47-63 | An attempt is accepted exactly if nothing fails and its copy carries the current number; otherwise nothing is stored, and how it ends is decided by the lister and the error |
| Updates.RetryContract | pkg/controllers/cluster/cluster_control.go:46-87 | For any bound and any answers: within the bound, retries only after a conflict and from the refreshed copy, the reported error is the one due, at most one accepted write and that one last, applied to the version before it |
| Updates.EndsAfterConflicts | pkg/controllers/cluster/cluster_control.go:46-87 | How many attempts are made and what is returned, from the version numbers and failures alone |
| Updates.SucceedsExactly | pkg/controllers/cluster/cluster_control.go:46-64 | An update succeeds exactly if some attempt within the bound meets no failure and carries the number current by then, after conflicts only, with a lister that answered each time |
| Updates.SuccessMeansStored | vendor/k8s.io/client-go/util/retry/util.go:61-79 | Success means the change is the current version, except that a bound of zero reports success and stores nothing |
| Updates.NoLostUpdate | pkg/controllers/cluster/cluster_control.go:46-87 | In every interleaving of updates and outside writers with caches that lag arbitrarily, each stored version is its writer's change applied, whole object, to one that stands in for the version just before: same number, identity and labels, the spec at most defaulted or overridden |
| Updates.TryIsAcceptedExactly | pkg/controllers/cluster/cluster_control.go:49-62 | In every reachable state a client's next attempt is stored exactly if nothing fails and its copy is current; what it returns or goes on with otherwise |
| Updates.OthersMayAct | pkg/controllers/cluster/cluster_control.go:49 | In every reachable state an outside write with the current number is stored and an update from a cached object begins |
| Updates.MergesComposeInOrder | pkg/controllers/cluster/cluster_control.go:66-87 | The stored object keeps its identity, its labels are the accepted merges replayed in order, and its spec is what its last outside writer wrote, or that with defaults, or that with defaults and override |
| Updates.UserSpecDecides | pkg/controllers/cluster/controller.go:431 | In every run the user's last spec decides later syncs, and after a change of AllMaster exactly if no overridden member count was stored that would count again |
| Updates.MergedLabelSurvives | pkg/controllers/cluster/cluster_control.go:68 | In every run a merged label is in all later versions up to any given one exactly if no writer in between, of the operator or outside, drops or changes that label |
| Updates.LabelUpdateKeepsConditions | pkg/controllers/cluster/cluster_control.go:66-73 | In every run an accepted label update keeps the stored conditions exactly when its copy has those of the version it carries |
| Updates.StatusIsLastWritten | pkg/controllers/cluster/cluster_control.go:48 | If all label updates are such, the stored conditions are those last written by a status update or from outside |
| Updates.LabelUpdateMayPublishCachedStatus | pkg/controllers/cluster/cluster_control.go:66-73 | Otherwise a label update stores conditions that were only ever in the cache |
| Updates.StatusWriteStoresOverride | pkg/controllers/cluster/cluster_control.go:48-49 | One status write from a synced object stores the normalised spec; turning AllMaster off then gives what the user asked for exactly if it was off before or one member was wanted |
| Clients.ClientRunsTheLoop | pkg/controllers/cluster/cluster_control.go:46-87 | Whatever is interleaved with it, an update that is over has returned the error, after the number of attempts and with the effect on the server, that the retry loop gives for what it met |
| Clients.ReportIsTrue | pkg/controllers/cluster/cluster_control.go:46-64 | In every interleaving, reported success means the change is in the history, applied to the version before; reported failure means all versions stored meanwhile are other writers' |
| Updater.ClusterUpdater.UpdateClusterStatus | pkg/controllers/cluster/cluster_control.go:46-64 | The imperative update has the server history and the error of the specification and leaves the lister's objects alone |
| Updater.ClusterUpdater.UpdateClusterLabels | pkg/controllers/cluster/cluster_control.go:66-87 | The same for the label update |
| Frames.IterationFrame | pkg/controllers/cluster/controller.go:320 | An iteration leaves every group of every cluster alone but the one it is about |
| Convergence.DeficitBounded | pkg/controllers/cluster/controller.go:319-401 | The measure is at most twice the group count, and zero exactly when every group has its Service and its StatefulSet of the right size |
| Convergence.DeficitNeverRises | pkg/controllers/cluster/controller.go:319-401 | Whatever caches say and whatever fails, no run of syncs raises the measure |
| Convergence.WritesPlusDeficit | pkg/controllers/cluster/controller.go:319-401 | With caught-up caches accepted writes and remaining measure always add up to the initial measure: at most two writes a group, none when it is zero |
| Convergence.SuccessMeansNothingMissing | pkg/controllers/cluster/controller.go:319-401 | A sync that gets through both loops with caught-up caches leaves the measure at zero, with any other clusters' syncs in between |
| Patches.PatchFromStored | vendor/k8s.io/apimachinery/pkg/util/strategicpatch/patch.go:90-93 | Computed from the object that is stored, a patch yields the wanted object, with the status as it was |
| Patches.PatchLeavesAgreed | vendor/k8s.io/apimachinery/pkg/util/strategicpatch/patch.go:156-166 | Whatever cached and wanted object agree on stays as stored, field by field, entry by entry of every map, and owner by owner; the rest becomes as wanted |
| Patches.PatchKeepsControl | vendor/k8s.io/apimachinery/pkg/apis/meta/v1/types.go:226 | A patch never takes an object from its cluster and, computed from one that has the cluster as its controller, never hands one over; a foreign controller stays exactly if the cached object lacked its UID |
| Edits.OtherEditsOnlyShowInTemplates | pkg/controllers/cluster/controller.go:386 | Two clusters alike in key, UID and counts, on stores and with answers alike but for pod templates: an iteration writes for both or for neither, ends and counts the same, and the stores stay alike, and unchanged if nothing is written |
| Edits.CaughtUpAnswersAlike | pkg/controllers/cluster/controller.go:360 | Caught-up listers answer alike on stores that are alike |
| Edits.OtherEditsLeaveRunsAlone | pkg/controllers/cluster/controller.go:319-401 | In any two runs of many clusters' syncs that differ in other parts of the specs than the counts, the same writes are made, all syncs get equally far and count the same, and the stores differ in pod templates at most |
| Edits.TemplateArrives | pkg/controllers/cluster/controller.go:386-396 | A finished caught-up iteration leaves the wanted template stored exactly if the set was missing, or had the wrong replicas, or had that template already |
| Edits.SwitchReachesEverySet | pkg/controllers/cluster/controller.go:349-351 | From nothing missing, turning AllMaster makes every group's set wrongly sized, unless groups have one member either way |
| Prefix.PrefixEffect | pkg/controllers/cluster/controller.go:319-396 | Wherever a sync stops, the store is the initial one with exactly its finished iterations done, all Services before the first StatefulSet |
| Prefix.ForeignObjectsUntouched | pkg/controllers/cluster/controller.go:335-379 | Objects in the way that the cluster does not control are as they were, and a sync stopped among the Services has changed no StatefulSet |
| Prefix.StepsRespectOwnership | pkg/controllers/cluster/controller.go:319-396 | Whatever the cache says, a step changes no existing Service and no existing StatefulSet but that of its own index, and that one only past the guard of the patch |
| Prefix.TruthRespectsOwnership | pkg/controllers/cluster/controller.go:375-379 | A caught-up step changes no StatefulSet outside its cluster's control, under any name |
| Prefix.StaleStepResizes | pkg/controllers/cluster/controller.go:386-395 | Where a set is stored, a step changes nothing unless the cached object passes the guard, and past it resizes what is stored; so a set of the wrong size, foreign or not, is changed exactly if the guard is passed; the cluster neither gains nor loses control of it, and a foreign controller stays exactly if the cached object lacked its UID |
| Governing.GoverningServices | pkg/controllers/cluster/controller.go:319-366 | In every reachable state each StatefulSet the operator created keeps its identity and names an existing Service controlled by the same cluster, if nobody else deletes Services |
| Governing.StoredSetsHaveOrigin | pkg/controllers/cluster/controller.go:361-366 | A stored set was there at the start, was added by somebody else, or is among those the operator created |
| Governing.PatchKeepsIdentity | pkg/controllers/cluster/controller.go:386-396 | A patch computed from any cached object keeps name, labels, selector and Service name of the set it lands on |
| Serial.EventsCommute | pkg/controllers/cluster/controller.go:241-243 | Steps of different clusters' syncs commute, and neither changes whether the other's cache is caught up |
| Serial.InterleavingIsSerial | pkg/controllers/cluster/controller.go:241-243 | Any interleaving of the syncs of distinct clusters ends in the same world as running the clusters one by one in any order |
| Readiness.CountersAreTotals | pkg/controllers/cluster/controller.go:357-401 | The two counters are the totals over the groups seen, after every iteration of a sync without error |
| Readiness.VerdictIsTotals | pkg/controllers/cluster/controller.go:424-428 | The verdict for arbitrary statuses, as a statement about all groups and one sum |
| Readiness.AllReadyIsReported | pkg/controllers/cluster/controller.go:424-428 | If every group was found complete and ready the verdict is True, for any statuses |
| Readiness.TrueVerdictIsRight | pkg/controllers/cluster/controller.go:424-428 | With at least one member wanted, a True verdict is right exactly if no group was counted with more members than wanted |
| Readiness.ReadyIffAllGroupsReady | pkg/controllers/cluster/controller.go:424-428 | Every group was found complete and ready, and no StatefulSet was created or patched, exactly when the verdict is True and no group is over-full |
| Readiness.VerdictMisleads | pkg/controllers/cluster/controller.go:424 | The verdict is wrong exactly when all groups are as ready as large, the sizes add up, and one group is over-full |
| Readiness.OverfullGroupHidesShortOne | pkg/controllers/cluster/controller.go:424 | Three ready members and one ready member pass for two and two |
| Readiness.VerdictIgnoresServices | pkg/controllers/cluster/controller.go:319-340 | The verdict does not depend on whether the sync created Services |
| Readiness.NoOverflow | pkg/controllers/cluster/controller.go:357-424 | The running sum and the product stay within 64 bits at every iteration, for all int32 counts and statuses |
| StatusSync.PublishLaws | pkg/controllers/cluster/controller.go:419-433 | A write is made exactly when the cached status differs from the verdict; the sent list has the verdict; the cached entry takes it at once; no other condition changes |
| StatusSync.PublishedEntry | pkg/controllers/cluster/controller.go:419-428 | The whole published entry: the verdict, the present time, and the cached reason and message where the status changes or is new, in both lists if it was cached; no change at all where the status is the verdict already |
| StatusSync.SuccessPublishes | pkg/controllers/cluster/controller.go:415-434 | After success the server has the verdict exactly when the cached status was different or the server had it already |
| StatusSync.AgreementPublishes | pkg/controllers/cluster/controller.go:415-434 | If cached and stored Ready agree, success means the verdict is stored; a failed write ends the agreement where a Ready condition was cached |
| StatusSync.FailedWriteIsForgotten | pkg/controllers/cluster/controller.go:420-428 | After one failed write any number of syncs with the same verdict on the same cached object succeed, write nothing, and leave the server without the verdict |
| StatusSync.RetriedIffAbsent | pkg/controllers/cluster/controller.go:421-423 | The next sync tries again exactly when the cached list had no Ready condition |
| StatusSync.StaleReadyWitness | pkg/controllers/cluster/controller.go:415-434 | A run that ends in success with the server still saying ready for a cluster that is not |
| Controller.BrokerController.SyncServices | pkg/controllers/cluster/controller.go:319-340 | The first loop takes store and index where the specification's iterations take them, stop for stop |
| Controller.BrokerController.SyncStatefulSets | pkg/controllers/cluster/controller.go:357-401 | The second loop likewise, with its counters |
| Controller.BrokerController.SyncGroups | pkg/controllers/cluster/controller.go:312-401 | Both loops with the in-place defaults before and the override between; what the cluster object holds when the sync stops early |
| Controller.BrokerController.EditConditions | pkg/controllers/cluster/controller.go:419-430 | The lister's list is edited in place and a separate list made to send, as specified |
| Controller.BrokerController.UpdateClusterStatus | pkg/controllers/cluster/controller.go:415-434 | The cluster object keeps the edit whatever the update's fate; the update is the retried one from a copy of it |
| Controller.BrokerController.SyncCluster | pkg/controllers/cluster/controller.go:312-412 | A sync of a found cluster: store, cluster object, server history and result |
| Controller.BrokerController.SyncHandler | pkg/controllers/cluster/controller.go:292-412 | A malformed key and a missing cluster are ignored, other lister errors returned, and nothing is touched then; otherwise a sync |
| Routing.HandledExactly | pkg/controllers/cluster/controller.go:453-486 | For every notification: a key is enqueued exactly if it is that of a known cluster to which the first controller reference of the object, alive or deleted, points |
| Routing.RoutingRoundTrip | pkg/controllers/cluster/controller.go:453-486 | Any object with the owner and namespace of a built StatefulSet, alive or deleted, is routed to its own cluster if the lister knows it and to nothing otherwise, and the key leads back to the cluster |
| Routing.RoutedIffControllerKnown | pkg/controllers/cluster/controller.go:470-485 | Among names without a slash, a notification enqueues a cluster's key exactly when the cluster is known and the object's controller reference points to it |
| Routing.QueueKeysDistinct | pkg/controllers/cluster/controller.go:439-446 | Distinct clusters have distinct queue keys |
| EndToEnd.SyncIsARun | pkg/controllers/cluster/controller.go:259-287 | A sync on its own is the run of the world in which only it takes steps |
| EndToEnd.SyncedMeansNothingMissing | pkg/controllers/cluster/controller.go:319-401 | A sync that completes with caught-up answers leaves nothing missing |
| EndToEnd.SyncKeepsCacheFaithful | pkg/controllers/cluster/controller.go:312-351 | What a sync does to the cached object keeps it a stand-in for the version it carries |
| EndToEnd.SyncLeavesInCache | pkg/controllers/cluster/controller.go:312-412 | However a sync ends, the cached object keeps identity, version and labels, has its defaults, shows an effective AllMaster override exactly if the Services were passed, and keeps its conditions if the sync stopped |
| EndToEnd.SuccessIsPublished | pkg/controllers/cluster/controller.go:430-433 | With agreement at the start, a successful sync leaves the verdict stored even with other writers in between, and a failed one has stored nothing |
| EndToEnd.SyncedIsSound | pkg/controllers/cluster/controller.go:292-412 | For the outcome the controller's own method has: reported success, caught-up answers and agreement imply that nothing is missing and the verdict is stored |
| Completion.WhyServicesStop | pkg/controllers/cluster/controller.go:320-339 | Which error ends an iteration over the Services, exactly, for any answers |
| Completion.WhySetsStop | pkg/controllers/cluster/controller.go:360-396 | Which error ends an iteration over the StatefulSets, exactly, for any answers |
| Completion.UnhinderedSyncCompletes | pkg/controllers/cluster/controller.go:319-401 | With caught-up caches and no failing call a sync completes exactly if every Service and StatefulSet stored under its names is controlled by the cluster, and then nothing is missing |
| Completion.UnhinderedCallSucceeds | pkg/controllers/cluster/controller.go:312-434 | The same for the whole call: if moreover the lister's object is current and the status write goes through, it reports success exactly if nothing foreign is in the way, and then the verdict is stored |
| Published.VerdictSpeaksOfStore | pkg/controllers/cluster/controller.go:357-401 | The verdict of a complete caught-up sync, in terms of the store: True with no set over-full exactly when every set stands complete afterwards and had its size before |
| Published.PublishedReadyIsRight | pkg/controllers/cluster/controller.go:424-433 | From end to end, a reported success: the server says ready and no set was over-full exactly when every group's set in the store has the wanted size and status and did not have to be sized by the sync |
| Published.ResizedSetNotCounted | pkg/controllers/cluster/controller.go:386-397 | A set of another size that reports the wanted members is sized and complete afterwards, and the verdict is False |
| Published.FailedWriteThenSync | pkg/controllers/cluster/controller.go:415-434 | Two calls on one cached object, whatever happened to the server in between: after a failed status write the second call with the same verdict publishes nothing and reports success exactly if the list had a Ready condition |
| Published.WrongSuccessHasCause | pkg/controllers/cluster/controller.go:415-434 | In any history of syncs with changing verdicts, other writers and informer events, a success with the wrong verdict stored implies a failed status write, a foreign change of the stored Ready condition, or an outdated informer event since any earlier agreement |

## Left out

- Client sets, informers, listers, schemes and JSON: only what they answer is modelled; a lister returns its own object and the server refuses stale versions.
- Patches of other fields than those modelled, of pod templates with other containers than the broker's, and the order of list entries. Owner references that name one UID twice are excluded: the API declares that list to be keyed by UID.
- Validation by the API server: a refusal counts as a call that failed.
- Calls that fail after taking effect: an error is taken to mean that nothing was written.
- Liveness: the work queue, its rate limits and back-off are not modelled, and a failed key is not added again by the code shown. One worker at a time per key is assumed of the queue.
- Deletion: groups at or above the group count are never removed by the code, and the collection of a deleted cluster's objects belongs to Kubernetes.
- Interleaving inside an iteration: an iteration is one step, which loses nothing because the lister's answer in it is arbitrary and it makes at most one write.
- Cluster names with a percent sign: the name is part of a format string, and Kubernetes admits no such name.
- Container ports, commands, volume mounts, Service ports, API group and version of owner references: constants.
- The type and object metadata embedded in a cluster's status, annotations and other metadata: nothing reads them.
- In-place growth of a slice of conditions: an append always reallocates, as it does for a list just copied.
- Concurrent reads of a cached cluster while its own worker edits it: one worker per cluster is the only reader modelled.
- Events, logs, metrics, options and start-up: no property to state.
