# installer-service: a verified model

installer-service manages openFuyao clusters on top of a Kubernetes management cluster. This project models the
stateful cores of its `pkg/installer` and `pkg/server/request` packages and proves what they guarantee. The
Kubernetes API server is a small store with one function per call; every call may fail. `dafny verify
dfyconfig.toml` checks the whole project.

| file | content |
|---|---|
| `ApiServer.dfy` | the store of ConfigMaps, and what each API call does to it |
| `PatchProtocol.dfy` | one upload or version query as a state machine of API calls; interleavings of many |
| `PatchStore.dfy` | the operations on the patch store, held call by call to that state machine |
| `PatchTheorems.dfy` | mirrors, failed cleanups, and lookups over whole runs |
| `PatchRaces.dfy` | version queries that interleave in online mode: the race that wedges the store, and what prevents it |
| `PatchUploads.dfy` | uploads that interleave offline: all of them succeed |
| `PatchContents.dfy` | what is stored, read from the items of the remote index and the fields of a patch |
| `VersionQueries.dfy`, `Versions.dfy` | version order, the two filters, chains of upgrades |
| `LogStream.dfy` | the log stream as interleaved steps of callback, sync waiter and caller |
| `Documents.dfy` | nested documents with get and set by path, and their lens laws |
| `Addons.dfy`, `ClusterBuild.dfy`, `ClusterPatch.dfy` | a cluster document from the request to the API server |
| `AddonTheorems.dfy`, `ClusterCreation.dfy` | merging from the texts of a request; creation from end to end, at written-out paths |
| `StatusRegistry.dfy`, `BKENodes.dfy` | status processors; node objects under partial failure |
| `RequestPath.dfy`, `ImageRepo.dfy`, `Newlines.dfy`, `GoStrings.dfy` | the string parsers |

How the source's parts appear here:

- A failed call is one for which `fault` (or `fate`) of the call's number says so; these functions are arbitrary,
  so a contract covers every failure point. In `PatchStore.dfy` a failed call has no effect. In
  `PatchProtocol.dfy` and `BKENodes.dfy` a call may also take effect while its reply is lost.
- `PatchClient.Do` demands that a call be the one its request in the protocol is waiting to make. The methods
  therefore run the state machine for which the interleaving theorems are proved.
- A conflict of an `Update` with a newer version of the object is one of the ways in which a call may be refused.
- Go's map iteration is a loop that takes the remaining keys in any order.
- YAML decoding, version parsing, the remote repository and the Kubernetes request resolver are function-valued
  parameters: nothing is assumed of them beyond what a contract says. The two YAML libraries the source uses for
  the same content are one function here. Printing a document and reading it back is the identity.
- A parsed version has at least three segments. Versions are ordered by their segments, read with zeros beyond the
  end, and then by prerelease as in item 11 of Semantic Versioning 2.0.0.

What the proofs found:

- Two version queries at once can wedge the store in online mode without a single failing call: each deletes a
  patch that the other then does not find, both give up, and the index still names both patches
  (`TwoQueriesWedge`, `QueriesDoWedge`). Refreshes that never overlap do not, however often they fail for want of a
  remote file (`SerialRefreshesLeaveIndexWhole`).
- A single cleanup does the same when one of its calls fails half-way: the index stays as it was, over patches that
  are gone (`HalfACleanup`, `EntriesComeToDangle`).
- Cleanups run only in online mode, and there uploads are refused. So once an entry dangles and no refresh is under
  way, nothing the service does mends the index, in any interleaving of requests and whatever becomes of their
  calls (`WedgeIsPermanent`): every upload and query fails until somebody changes bke-config or restores the patch
  by hand. `OnlineWedgeIsPermanent` and `DanglingBlocksCleanups` say it of whole operations, one after the other,
  and of the methods' own contracts. In any mode an entry goes on dangling until a valid patch of its version is
  uploaded offline (`DanglesUntilUpload`).
- A refresh that fails while refilling leaves a dangling entry exactly when the remote index lists a version twice
  and the second write of it lost the patch (`FailedRefillDangles`), which does happen (`HalfARefill`,
  `RefillsComeToDangle`).
- Offline uploads of different versions never get in each other's way: when their calls are served all succeed,
  however they interleave (`UploadsAllSucceed`).
- Concurrent uploads cannot break the naming discipline, and offline races alone leave no dangling index entry
  (`RacesLeaveIndexWhole`): there must have been an upload of that version whose deletion of the old patch lost its
  reply, or whose creation of the missing patch was refused (`DanglingNeedsBrokenUpload`), which does happen
  (`HalfAnUpload`, `EntriesComeToDangle`). The online/offline mode is a setting no request changes, so uploads and
  refreshes exclude each other (`UploadsExcludeRefreshes`).
- A finish event that is handled after the cache has synced but before the waiter has set its flag is written to
  the client but never ends the stream (`FinishBeforeFlagIsLost`).
- A version x.y.0.z of another line is offered as an upgrade although it cannot be installed
  (`FourSegmentsAreOffered`); on versions of other lines with exactly three segments the two filters
  agree (`InstallableAndOffered`).
- The version stage and the addon stage of a creation read the same patch exactly when that patch declares the
  version it is stored under (`SamePatchExactlyWhen`); uploads under which they read two different patches exist
  (`StagesDoDiffer`). Repeating the version stage then writes the other patch's versions or fails
  (`SecondVersionStage`). Online each stage refreshes the store again, which changes nothing (`RefreshIsIdempotent`).
- A created cluster carries no node list, so the CoreDNS anti-affinity stage never changes it (`PreparedStages`).

## Model

| member | source | states |
|---|---|---|
| `PatchProtocol.NamingDiscipline` | `pkg/installer/cluster.go:1423-1522` | at every call boundary of every interleaving and failure, `patch.v` maps to `cm.v`, `cm.v` has the one key `v` with content validated or downloaded for `v`, and the settings are unchanged |
| `PatchProtocol.UploadsExcludeRefreshes` | `pkg/installer/cluster.go:1429-1480` | an upload past its mode check and a refresh are never under way together |
| `PatchProtocol.DanglingNeedsBrokenUpload` | `pkg/installer/cluster.go:1767-1813` | offline, when all requests are over, a dangling entry means that some upload of its version broke off where it lost the patch: the reply to deleting the stored patch was lost, or creating the missing one was refused |
| `PatchProtocol.RacesLeaveIndexWhole` | `pkg/installer/cluster.go:1423-1465` | offline, any number of uploads interleaved in any way, with all calls served, leave no dangling entry |
| `PatchUploads.UploadsAllSucceed` | `pkg/installer/cluster.go:1423-1465` | offline, with all calls served: valid uploads of pairwise distinct versions, interleaved with each other and with queries, all succeed, and each has its own content stored and indexed |
| `PatchUploads.OthersStay` | `pkg/installer/cluster.go:1767-1804` | meanwhile index entry and patch of every other version stay as they are |
| `PatchProtocol.ModeIsASetting` | `pkg/installer/utils.go:260-272` | the mode does not depend on index entries |
| `PatchContents.ModeExactly` | `pkg/installer/utils.go:260-272` | the mode is known exactly when both keys are there, and offline exactly when both are empty |
| `PatchContents.ValidExactly` | `pkg/installer/cluster.go:1815-1830` | a patch is accepted exactly when it decodes and none of its four versions is blank |
| `PatchProtocol.EntriesExactly` | `pkg/installer/cluster.go:1702-1713` | a remote index is accepted exactly when each item has both fields, and then entry i has the version of item i and its file path without a leading `./` |
| `PatchStore.PatchClient.EnsureNsExists` | `pkg/installer/cluster.go:1743-1765` | the namespace exists on success, nothing else changes |
| `PatchStore.PatchClient.AddPatchesToConfigMap` | `pkg/installer/cluster.go:1767-1804` | the patch is replaced and its key and value answered; a failure leaves the old patch or none, and succeeds whenever no call fails |
| `PatchStore.PatchClient.AddPatchInfoToConfigMap` | `pkg/installer/cluster.go:1717-1741` | sets the one index entry, or changes nothing |
| `PatchStore.PatchClient.CleanConfigMapPatches` | `pkg/installer/cluster.go:1623-1640` | under every order of the keys: success removes all entries and their patches; failure leaves the stored index; without faults it succeeds exactly when each entry names its own stored patch |
| `PatchStore.PatchClient.CheckIndex` | `pkg/installer/cluster.go:1702-1713` | the loop over the remote index computes the accepted entries |
| `PatchStore.PatchClient.GetVersionsFromOnline` | `pkg/installer/cluster.go:1482-1522` | the store after a refresh, the versions in index order with duplicates, and without faults exactly when it succeeds; a failed one leaves the index as it was over some deleted patches, or cleaned and refilled up to the entry it stopped at |
| `PatchContents.RefreshAnswersItems` | `pkg/installer/cluster.go:1499-1521` | a successful online query answers the `openFuyaoVersion` of the index items, in their order |
| `PatchContents.RefreshStoresItems` | `pkg/installer/cluster.go:1499-1519` | the last item of each version v has the body of its file, normalised, stored as the one key v of `cm.v`, and `patch.v` leads there |
| `PatchContents.OldPatchesAreGone` | `pkg/installer/cluster.go:1623-1640` | patch and entry of an old version that no item names are gone |
| `PatchContents.IndexIsOfItems` | `pkg/installer/cluster.go:1499-1519` | every index entry after a refresh is that of some item |
| `PatchContents.RefreshNeedsItems` | `pkg/installer/cluster.go:1702-1713` | over a cleanable index a refresh can succeed exactly when each item has both fields and its file can be fetched |
| `PatchStore.PatchClient.GetVersionsFromOffline` | `pkg/installer/cluster.go:1524-1532` | each indexed version once, in some order |
| `PatchStore.PatchClient.GetVersionsFromSource` | `pkg/installer/cluster.go:1467-1480` | answer, store and settings after a query in either mode, however it ends, and exactly when it succeeds |
| `PatchStore.PatchClient.UploadPatchFile` | `pkg/installer/cluster.go:1423-1465` | patch and entry are written for the file's base name; an upload refused for its mode or content changes nothing, one that breaks off leaves the index over the old patch, none, or the new one; without faults exactly when offline and valid |
| `PatchStore.ExtOf` | `pkg/installer/cluster.go:1451` | a file `v.ext` is stored under `v` |
| `PatchStore.NoExtension` | `pkg/installer/cluster.go:1451` | a file name without a dot is the version |
| `PatchTheorems.RefreshIsMirror` | `pkg/installer/cluster.go:1482-1522` | the index is exactly that of the returned versions, each patch holds the normalised content of the last entry of its version, patches that only the old index names are gone, settings and other ConfigMaps are untouched, nothing dangles |
| `PatchTheorems.RefreshIsIdempotent` | `pkg/installer/cluster.go:1482-1522` | a successful refresh can be repeated, and repeating it changes nothing |
| `PatchTheorems.QueryIsIdempotent` | `pkg/installer/cluster.go:1467-1480` | the same of a version query in either mode |
| `PatchTheorems.FailedRefillDangles` | `pkg/installer/cluster.go:1499-1519` | after a refill that stopped at entry i, a key dangles exactly when it is that entry's, its version was written before, and its patch is gone |
| `PatchTheorems.FailedCleanupDangles` | `pkg/installer/cluster.go:1623-1640` | the entries dangling after a failed cleanup are those from before and those whose patches it deleted |
| `PatchTheorems.DanglingBlocksCleanups` | `pkg/installer/cluster.go:1623-1640` | over any sequence of cleanups, queries and uploads that do not overlap, as their contracts let them end, a dangling entry stays and every cleanup and online query fails until an upload of its version is accepted |
| `PatchTheorems.OnlineWedgeIsPermanent` | `pkg/installer/cluster.go:1429-1436` | online, over any such sequence, a dangling entry stays for ever, bke-config never changes, and every cleanup, query and upload fails |
| `PatchTheorems.HalfACleanup` | `pkg/installer/cluster.go:1623-1640` | for any two indexed versions, a run of one online query that ends in failure over a dangling entry |
| `PatchTheorems.HalfAnUpload` | `pkg/installer/cluster.go:1767-1804` | for any version and valid content, a run of one upload that ends over a dangling entry |
| `PatchTheorems.EntriesComeToDangle` | `pkg/installer/cluster.go:1623-1640` | both at concrete settings, versions and contents |
| `PatchTheorems.HalfARefill` | `pkg/installer/cluster.go:1499-1519` | for a remote index that lists any version twice, a run of one online query that ends over a dangling entry |
| `PatchTheorems.RefillsComeToDangle` | `pkg/installer/cluster.go:1499-1519` | this at concrete settings and entries |
| `PatchRaces.TwoQueriesWedge` | `pkg/installer/cluster.go:1623-1632` | online, for any two indexed versions, an interleaving of two queries with every call served in which both fail and both entries dangle |
| `PatchRaces.QueriesDoWedge` | `pkg/installer/cluster.go:1623-1632` | this at concrete settings and versions |
| `PatchRaces.WedgeIsPermanent` | `pkg/installer/cluster.go:1423-1522` | online, from a dangling entry with no refresh past it, over every interleaving and every fate of each call: bke-config never changes, the entry dangles for ever, and no request succeeds |
| `PatchRaces.DanglesUntilUpload` | `pkg/installer/cluster.go:1423-1522` | in any mode, over every interleaving and fate, a dangling entry stays unless the service is offline and a valid patch of its version is uploaded |
| `PatchRaces.SerialRefreshesLeaveIndexWhole` | `pkg/installer/cluster.go:1482-1522` | online, with all calls served and no two refreshes under way at once, no entry dangles whenever no refresh is under way |
| `PatchTheorems.RunsKeepIndexWhole` | `pkg/installer/cluster.go:1423-1522` | no run of successful uploads and queries leaves a dangling entry |
| `PatchTheorems.LookupFindsLastUpload` | `pkg/installer/cluster.go:1880-1900` | after any successful run, looking up an uploaded version gives the parse of its last upload |
| `VersionQueries.GetOpenFuyaoVersions` | `pkg/installer/cluster.go:1544-1576` | the listed versions that are "latest" or parse to three segments with the third zero, in order, and the store a query leaves, however it ends |
| `VersionQueries.GetOpenFuyaoUpgradeVersions` | `pkg/installer/cluster.go:1578-1621` | exactly the listed versions that the current one precedes and that share its first two segments or have third segment 0, in order, and the store a query leaves; "latest" has none and asks nothing |
| `VersionQueries.UploadedVersionIsOffered` | `pkg/installer/cluster.go:1578-1621` | an uploaded version is an upgrade exactly when it parses, is greater, and is in line or a release |
| `Versions.SegmentsEqualWhenPadded` | `pkg/installer/cluster.go:1599` | the order ignores padding with zeros |
| `Versions.Order` | `pkg/installer/cluster.go:1599` | comparison is antisymmetric, reflexive and transitive |
| `Versions.LessExactly` | `pkg/installer/cluster.go:1599` | one version is less than another exactly when it precedes it by item 11 of Semantic Versioning 2.0.0, at the first place where they differ |
| `Versions.FilterInstallable` | `pkg/installer/cluster.go:1550-1575` | the filtering loop selects the installable versions |
| `Versions.FilterUpgrades` | `pkg/installer/cluster.go:1586-1620` | the three branches select exactly the listed versions that the current one precedes and that share its first two segments or have third segment 0 |
| `Versions.UpgradesExactly` | `pkg/installer/cluster.go:1592-1620` | the same of the function that the chains use |
| `Versions.PatchReleasesAreOffered` | `pkg/installer/cluster.go:1608-1618` | from a.b.x a listed a.b.y is offered exactly when y > x; a patch of another line never is |
| `Versions.InstallableExactly` | `pkg/installer/cluster.go:1550-1575` | a listed version is installable exactly when it is "latest" or has three segments, the third zero |
| `Versions.SelectIsSubsequence` | `pkg/installer/cluster.go:1592-1620` | a selection is a subsequence at exactly the kept positions |
| `Versions.GreaterIsNotInEarlierLine` | `pkg/installer/cluster.go:1605-1618` | the three branches are exhaustive |
| `Versions.InstallableAndOffered` | `pkg/installer/cluster.go:1550-1620` | greater installable versions are offered; cross-line offers are installable exactly with three segments |
| `Versions.FourSegmentsAreOffered` | `pkg/installer/cluster.go:1562-1569` | a concrete offer that is not installable |
| `Versions.ChainIncreases` | `pkg/installer/cluster.go:1578-1621` | versions along an upgrade chain strictly increase and never repeat |
| `Versions.ChainIsBounded` | `pkg/installer/cluster.go:1578-1621` | a chain has at most as many upgrades as the list has entries |
| `Versions.LineIsEnteredAtRelease` | `pkg/installer/cluster.go:1608-1618` | a chain into another line has entered it at third segment 0, earlier if it ends at a patch |
| `Versions.LatestIsIsolated` | `pkg/installer/cluster.go:1579-1581` | no chain reaches or leaves "latest" |
| `LogStream.StepKeeps` | `pkg/installer/cluster.go:716-787` | every step of every thread keeps the invariant of the stream |
| `LogStream.ClosedAtMostOnce` | `pkg/installer/cluster.go:718-754` | stop is never closed twice, and the deferred close never runs |
| `LogStream.ClosedByFirstSynced` | `pkg/installer/cluster.go:745-755` | stop is closed exactly when a finish event read the flag, by the first such, never by one of the initial list |
| `LogStream.FinishAfterSyncCloses` | `pkg/installer/cluster.go:751-753` | a finish event delivered after the flag was set leaves stop closed |
| `LogStream.ReturnsOnlyAfterFinish` | `pkg/installer/cluster.go:785-786` | the call returns only after a finish event of the watch closed stop |
| `LogStream.MessagesAreDelivered` | `pkg/installer/cluster.go:742-762` | at every point the messages written are those due for the deliveries so far, or for all but the one being handled |
| `LogStream.LoggedEventsAreWritten` | `pkg/installer/cluster.go:742-762` | between callbacks the client has been sent the texts of exactly the added events annotated `bke.bocloud.com/complete` or `bke.bocloud.com/event`, in order of delivery, once each |
| `LogStream.ListIsHandedOut` | `pkg/installer/cluster.go:736-738` | the deliveries marked as listed are the initial list in order, as far as it has been handed out |
| `LogStream.FinishEndsEveryRun` | `pkg/installer/cluster.go:745-786` | after a finish event delivered with the flag set, in every interleaving: its callback has an enabled step until stop is closed, which takes at most four, and then the caller has one until it has returned |
| `LogStream.ClosedCallReturns` | `pkg/installer/cluster.go:718-786` | once stop is closed, in every interleaving: no other thread undoes the caller's progress, and it returns with its last step |
| `LogStream.FinishEndsCall` | `pkg/installer/cluster.go:751-786` | a run from the delivery of a finish event to the return of the call |
| `LogStream.FinishBeforeFlagIsLost` | `pkg/installer/cluster.go:779-783` | a finish event between sync and flag is written but does not close stop |
| `Documents.GetSet` | `pkg/installer/cluster_create.go:187-192` | what was set is read back |
| `Documents.SetGet` | `pkg/installer/cluster.go:1857-1859` | setting what was read changes nothing |
| `Documents.SetSet` | `pkg/installer/cluster_create.go:187-192` | the last of two settings of a path wins |
| `Documents.Frame` | `pkg/installer/cluster_create.go:187-192` | setting a path leaves every path apart from it as it was |
| `Documents.SettableExactly` | `pkg/installer/cluster_create.go:187-192` | setting succeeds exactly when nothing on the way is something else than an object |
| `Addons.OverlayParams` | `pkg/installer/cluster_create.go:272-275` | the loop over request parameters overrides key by key |
| `Addons.LastRequestWins` | `pkg/installer/cluster_create.go:246-251` | the last request of a normalised name decides |
| `Addons.MergeAddons` | `pkg/installer/cluster_create.go:242-301` | the merged defaults, then the enabled requests left over in any order |
| `Addons.MergedNames` | `pkg/installer/cluster_create.go:253-298` | the names are the surviving defaults and the new enabled requests, each once, defaults first |
| `AddonTheorems.DisabledExactly` | `pkg/installer/cluster_create.go:309-320` | a request disables its addon exactly when its parameter `enabled` is false, 0 or no, in any case and with any spaces around |
| `AddonTheorems.RequestsByName` | `pkg/installer/cluster_create.go:246-251` | the last request that asks for a name counts; `openFuyao-cores` asks for the system controller |
| `AddonTheorems.NamesAfterMerging` | `pkg/installer/cluster_create.go:242-301` | an addon is there exactly when the last request for it enables it, or nobody asks for it and it is a default other than the system controller |
| `Addons.KeptInOrder` | `pkg/installer/cluster_create.go:253-280` | surviving defaults keep their order |
| `Addons.MergeIsIdempotent` | `pkg/installer/cluster_create.go:242-301` | merging the same request again changes nothing, whatever the order |
| `Addons.BuildPatchMap` | `pkg/installer/utils.go:99-105` | exactly the names of the patch's addons, each with the last addon of that name |
| `Addons.LastPatchWins` | `pkg/installer/utils.go:99-105` | the same of the fold that the other theorems use |
| `Addons.ApplyPatchToAddon` | `pkg/installer/utils.go:116-134` | the result has the patch's version unless that is empty, the patch's block always, and parameter by parameter the patch's value or else its own; every other field is as it was |
| `Addons.PatchedCarries` | `pkg/installer/utils.go:116-134` | the same of the function that the other theorems use |
| `Addons.PatchedFields` | `pkg/installer/utils.go:84-134` | version and block of an addon after the pass: the patch's where it has them, else the addon's |
| `Addons.PatchedParams` | `pkg/installer/utils.go:84-134` | parameters of an addon after the pass: the patch's over the addon's |
| `Addons.UpdateCRDAddonsWithPatch` | `pkg/installer/utils.go:75-97` | the list is patched in place, element by element |
| `Addons.PatchKeepsNames` | `pkg/installer/utils.go:75-97` | length, order and names stay, and so does every addon the patch does not name |
| `Addons.PatchIsIdempotent` | `pkg/installer/utils.go:75-134` | patching twice is patching once |
| `Addons.Precedence` | `pkg/installer/utils.go:116-134` | parameters come from the patch, else the request, else the default; version and block from the patch, else the default |
| `Addons.PreferredByKey` | `pkg/installer/utils.go:129-133` | the precedence, key by key |
| `AddonTheorems.ParamsAtTheirPaths` | `pkg/installer/utils.go:116-134` | read at its path, a parameter is the one the last addon of the patch sets, else the one the last request sets, else the default's |
| `ClusterBuild.NormalizeNodeRoles` | `pkg/installer/cluster_create.go:227-240` | each role in place, master and worker renamed |
| `ClusterBuild.BuildNodeYaml` | `pkg/installer/cluster_create.go:194-225` | a node document under the cluster's name with its own fields and a port that is neither empty nor "0" |
| `ClusterBuild.BuildCreateClusterYaml` | `pkg/installer/cluster_create.go:129-185` | one document per node in order, then the cluster with each slot as chosen and everything else the template's; fails exactly for a blank name |
| `ClusterCreation.BuiltNames` | `pkg/installer/cluster_create.go:137-138` | metadata.name and metadata.namespace are the requested name |
| `ClusterCreation.BuiltOpenFuyaoVersion` | `pkg/installer/cluster_create.go:139` | spec.clusterConfig.cluster.openFuyaoVersion is the requested version, or the template's |
| `ClusterCreation.BuiltKubernetesVersion` | `pkg/installer/cluster_create.go:140-142` | spec.clusterConfig.cluster.kubernetesVersion is the default's, or the template's |
| `ClusterCreation.BuiltRuntime` | `pkg/installer/cluster_create.go:143-145` | containerRuntime.cri likewise |
| `ClusterCreation.BuiltAgentPort` | `pkg/installer/cluster_create.go:146-148` | agentHealthPort likewise |
| `ClusterCreation.BuiltHttpRepo` | `pkg/installer/cluster_create.go:149-151` | httpRepo.ip is the default IP, or the template's |
| `ClusterCreation.BuiltHost` | `pkg/installer/cluster_create.go:149-152` | customExtra.host is the default IP, or the template's |
| `ClusterCreation.BuiltRepoIp` | `pkg/installer/cluster_create.go:153-157` | imageRepo.ip is the trimmed requested one |
| `ClusterCreation.BuiltRepoDomain` | `pkg/installer/cluster_create.go:153-159` | imageRepo.domain is the trimmed requested one for a repository of one's own, else the template's |
| `ClusterCreation.BuiltRepoPort` | `pkg/installer/cluster_create.go:158-163` | imageRepo.port is 40443 for such a repository, else 443 |
| `ClusterCreation.BuiltRepoPrefix` | `pkg/installer/cluster_create.go:158-163` | imageRepo.prefix is `kubernetes` for such a repository, else empty |
| `ClusterCreation.PrivateExactly` | `pkg/installer/cluster_create.go:158` | such a repository: an address that is not blank and does not mention cr.openfuyao.cn |
| `ClusterCreation.BuiltControlPlane` | `pkg/installer/cluster_create.go:165-167` | spec.controlPlaneEndpoint is the requested host with port 36443, or empty for a blank one |
| `ClusterCreation.BuiltAsksForVersion` | `pkg/installer/cluster.go:147-148` | every built document is patched, and asks for the requested version |
| `ClusterBuild.SlotsAreApart` | `pkg/installer/cluster_create.go:137-169` | the paths that building sets are pairwise apart |
| `ClusterBuild.SlotHolds` | `pkg/installer/cluster_create.go:137-167` | after any sequence of settings a path holds its choice or the template's value |
| `ClusterBuild.TemplateNamesAreDistinct` | `pkg/installer/cluster_create.go:23-120` | the names of the template's addons are distinct, as the merge theorems ask |
| `ClusterBuild.BuiltClusterHasNoNodes` | `pkg/installer/cluster_create.go:23-120` | the built cluster has no node list |
| `ClusterPatch.GetPatchInfo` | `pkg/installer/utils.go:40-73` | the ConfigMap name for the version the document asks for and the store left, in either mode; without faults exactly when the query works and the version is indexed |
| `ClusterPatch.GetVersionFromPatchCM` | `pkg/installer/cluster.go:1880-1900` | the validated parse of the stored patch, or an error |
| `ClusterPatch.GetAddonsFromPatchCM` | `pkg/installer/utils.go:179-198` | the addons of the stored patch, or an error |
| `ClusterCreation.StagesReadContent` | `pkg/installer/utils.go:152-198` | for a document that asks for a stored version, the version stage reads the parse of the stored content and the addon stage the addons it lists |
| `ClusterPatch.PatchVersion` | `pkg/installer/cluster.go:1832-1862` | the four versions are written into the cluster map that was read, or nothing is; never into an absent map; the store left and, without faults, exactly when it succeeds, in either mode |
| `ClusterPatch.VersionedPaths` | `pkg/installer/cluster.go:1852-1859` | path by path, only the four version fields change |
| `ClusterPatch.PatchAddonsInfo` | `pkg/installer/utils.go:152-177` | the addon list is patched with the patch of the document's version, or nothing changes; the store left and, without faults, exactly when it succeeds, in either mode |
| `ClusterPatch.SamePatchExactlyWhen` | `pkg/installer/cluster.go:148-157` | both stages read one patch exactly when it declares the version it is stored under |
| `ClusterPatch.SamePatchAfterRefresh` | `pkg/installer/cluster.go:148-157` | the same online, over whatever index the refresh replaced |
| `ClusterPatch.StagesReadTwoPatches` | `pkg/installer/cluster.go:148-157` | after uploads of v, declaring w, and of w, the version stage reads cm.v and the addon stage cm.w |
| `ClusterPatch.StagesDoDiffer` | `pkg/installer/cluster.go:148-157` | this at a concrete store, document and contents |
| `ClusterPatch.VersionStageIsIdempotent` | `pkg/installer/cluster.go:1832-1862` | then patching the version again reads the same patch and changes nothing |
| `ClusterPatch.SecondVersionStage` | `pkg/installer/cluster.go:1832-1862` | for any declared version: the second pass reads the patch of that version, fails without one, and otherwise writes that patch's versions alone; the document stays exactly when the two patches agree |
| `ClusterPatch.PatchCoreDNSAntiAffinity` | `pkg/installer/utils.go:200-258` | the parameter is set on the first CoreDNS according to the node count, and nothing without nodes |
| `ClusterPatch.AntiAffinityAt` | `pkg/installer/utils.go:226-246` | only the first CoreDNS addon changes |
| `ClusterPatch.CoreDNSIsSpread` | `pkg/installer/utils.go:200-258` | with a node list the first addon named `coredns` gets EnableAntiAffinity "true" for more than one node, else "false", at its path; other addons and fields stay |
| `ClusterPatch.PrepareCluster` | `pkg/installer/cluster.go:147-162` | the three stages of a creation in sequence, in either mode over the one store that the first stage's query left; without faults exactly when that query works and the stages can be done |
| `ClusterPatch.PreparedStages` | `pkg/installer/utils.go:205-208` | the CoreDNS stage leaves a built cluster unchanged |
| `ClusterPatch.PreparedVersions` | `pkg/installer/cluster.go:147-162` | the submitted cluster has the patch's versions and otherwise the built cluster's fields |
| `ClusterPatch.PreparedKeepsTheRest` | `pkg/installer/cluster.go:147-162` | the submitted addons are the built ones patched; all else is as built |
| `ClusterPatch.CreatedAddons` | `pkg/installer/cluster.go:147-162` | precedence from the request to the API server |
| `ClusterPatch.CreatedFromTemplate` | `pkg/installer/cluster_create.go:23-185` | the same of the documents that building a cluster from the template gives |
| `ClusterCreation.PreparedFromContents` | `pkg/installer/cluster.go:147-162` | preparing a built cluster takes the versions from the content stored for the requested version, and the addons from the content for the version that one declares |
| `ClusterCreation.CreatedFromUploads` | `pkg/installer/cluster.go:147-162` | after any run of successful operations: versions and addons of the submitted cluster come from the last uploads, the addons over the request and the template |
| `ClusterCreation.CreatedFromRemote` | `pkg/installer/cluster.go:147-162` | the same online, from the bodies of the files that the remote index lists last |
| `StatusRegistry.StatusProcessor.GetStatus` | `pkg/installer/cluster.go:968-1031` | the status is a function of the current state fields, and the flag records "Healthy" |
| `StatusRegistry.StatusTable` | `pkg/installer/cluster.go:968-1031` | the reported status, state by state |
| `StatusRegistry.PassesExactly` | `pkg/installer/cluster.go:847-853` | which clusters a list call reports |
| `StatusRegistry.Registry.Cleanup` | `pkg/installer/cluster.go:1037-1056` | exactly the processors of existing clusters stay |
| `StatusRegistry.Registry.ReportStatus` | `pkg/installer/cluster.go:1251-1263` | one report through the cluster's own processor |
| `StatusRegistry.Registry.GetClustersByQuery` | `pkg/installer/cluster.go:835-904` | cleanup, then one report for each cluster that passes, in order |
| `StatusRegistry.Registry.Forget` | `pkg/installer/cluster.go:550-552` | the processor of a deleted cluster is dropped |
| `StatusRegistry.HealthyExactlyWhen` | `pkg/installer/cluster.go:958-1056` | over any run, the current processor has reported "Healthy" exactly when some call did and none dropped it since |
| `StatusRegistry.Registry.Replay` | `pkg/installer/cluster.go:958-1056` | after any sequence of calls on a new registry, a processor's flag is set exactly when some call reported "Healthy" for its cluster and none dropped it since |
| `StatusRegistry.UnfilteredListTracksClusters` | `pkg/installer/cluster.go:907-910` | after an unfiltered list the registry holds exactly the existing clusters |
| `BKENodes.NodeClient.CreateBKENodes` | `pkg/installer/cluster.go:178-232` | wherever it stops, the store is that of an uninterrupted run over a prefix |
| `BKENodes.CreatedObjects` | `pkg/installer/cluster.go:178-232` | a complete run has created each node's object by host name, or IP with dashes for dots, in the cluster's namespace and with its label and fields, unless the name was taken |
| `BKENodes.RetriesConverge` | `pkg/installer/cluster.go:178-232` | after any failed attempts a complete run leaves the store of a single run |
| `BKENodes.NodeClient.DeleteBKENodes` | `pkg/installer/cluster.go:653-678` | every non-empty name is attempted whatever failed before: exactly the objects whose own call took effect are gone; the first failure other than "not found" is returned, and without one none of the names is left |
| `BKENodes.ReachedExactly` | `pkg/installer/cluster.go:659-676` | the objects gone are those of the names whose own call, counted by the non-empty names before it, took effect |
| `BKENodes.CreateThenDelete` | `pkg/installer/cluster.go:178-232` | creating fresh names and deleting them restores the store |
| `BKENodes.FallbackNameInjective` | `pkg/installer/cluster.go:182-186` | distinct IPs without hyphens get distinct names |
| `Newlines.NormaliseIsOnePass` | `pkg/installer/cluster.go:1508-1509` | the two replacements equal one pass mapping each CRLF or CR to LF |
| `Newlines.NormaliseCleansOnce` | `pkg/installer/cluster.go:1508-1509` | the output has no CR and normalising again changes nothing |
| `Newlines.LinesAreKept` | `pkg/installer/cluster.go:1508-1509` | whatever mix of CRLF, CR and LF ends them, the lines stay as they are and are all ended by LF |
| `RequestPath.SplitPathJoin` | `pkg/server/request/inforequest.go:122-128` | splitting undoes joining, with or without a leading slash |
| `RequestPath.ClusterPathIsExtracted` | `pkg/server/request/inforequest.go:130-156` | `/p/clusters/c/rest` gives cluster c and `p/rest`, which splits back |
| `RequestPath.ExtractedExactlyWhen` | `pkg/server/request/inforequest.go:130-156` | which paths are accepted, their cluster, and the path that results: with three segments only the outer slashes go, with more also the second and third; a rejected path is unchanged |
| `RequestPath.K8sRequestExactly` | `pkg/server/request/inforequest.go:94-105` | a Kubernetes request is one whose resolved prefix, or else first path segment, is `api` or `apis` |
| `RequestPath.RequestInfoFactory.ResolveResourceScope` | `pkg/server/request/inforequest.go:164-176` | global exactly for a listed resource, else by namespace |
| `RequestPath.RequestInfoFactory.NewRequestInfo` | `pkg/server/request/inforequest.go:58-105` | the request's path is as before, and the resolver saw the rewritten one |
| `ImageRepo.ParseUndoesPrint` | `pkg/installer/cluster.go:1165-1177` | parsing undoes printing, with port 443 for none |
| `ImageRepo.OnlineImageIsParsed` | `pkg/installer/cluster.go:1178-1193` | the public image address gives domain and port, and the host replaces a missing IP |
| `ImageRepo.OfflineDomainIsKept` | `pkg/installer/cluster.go:1164` | with neither address set, the domain of the settings and nothing else |

## Left out

- HTTP handlers, routing, response envelopes, the API proxy, TLS, server start-up and logging: no deep state.
- SSH, ping, remote time, the upgrade script and the tar and gzip checks: calls into foreign code.
- `createResourcesOnCrateCluster`, discovery and REST mapping: submitting a prepared document is one create call; `CreateCluster` also returns nil without creating anything when discovery fails.
- `parseHttpRepo`: it trims by a character set and drops the port it computed, so no law is decided by it.
- Ordering of versions in hashicorp/go-version itself: it is not in the repository, and where padded segments are equal but of different length it ignores prereleases, which the order here does not.
- What the store mirrors after refreshes that overlap, and other writers between the stages of one creation: the mirror and its idempotence are proved for a refresh with no other writer and an unchanged remote repository.
- Lost replies in `PatchStore.dfy`: there a failed call has no effect; only `PatchProtocol.dfy` also lets a failed call take effect.
- Node data, node resources, time zone formatting, file-name sanitising and `FindExtraNodes`: easy or foreign.
- A nil dynamic client, and a cluster without a `clusterConfig` in a list call (which the source dereferences).
- Maps shared between documents: the source patches deep copies, and the model patches values.
