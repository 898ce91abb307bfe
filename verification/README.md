# Verified model of the dashboard API server's bounded state

This project models, in Dafny, the parts of the Kubernetes dashboard API server that hold bounded, shared state
and follow a protocol, and proves what those parts are for. `dafny verify dfyconfig.toml` checks all of it.

| part | modules |
|---|---|
| the central watch catalogue: frames, staging, atomic swap, gaps, four shared counters | `CatalogProtocol`, `CatalogAtomicity`, `CatalogConvergence`, `CatalogAccounting`, `CatalogProgress`, `CatalogAnswers`, `CatalogService`, `RemoteCatalogStore`, `CatalogInterleaving` |
| the agent's side: cutting a snapshot into messages, diffing projections into numbered deltas | `AgentChunks`, `AgentSync` |
| the usage store: reserve, build, publish | `UsageAdmission`, `UsageStoreState` |
| the response cache: LRU with expiry and two bounds, and the Redis lock handoff | `CacheModel`, `CacheHits`, `ResponseCache`, `RedisHandoff`, `RedisLocks` |
| browser-session refresh by compare-and-set on a version | `SessionRefresh`, `SessionRecords` |
| keyset pagination over a changing table | `Pagination` |
| the login guard: token buckets and an identity table with eviction, also with look-up and take interleaved | `AuthLimits`, `AuthInterleaving`, `AuthConformance`, `AuthGuardState` |
| the layout grid check, in Go and in JavaScript | `LayoutGrid` |
| cache-key canonicalisation | `CacheIdentity` |
| the screen projection, and what it holds | `ScreenModel`, `ScreenDetails`, `ScreenOrder`, `ScreenProjection`, `ScreenScope`, `ScreenFigures`, `ScreenMeaning`, `ScreenLists`, `ScreenShown`, `ScreenAsked` |
| shared: optional values, sums over maps, 64-bit arithmetic, sorting and folding | `Options`, `MapSums`, `MachineIntegers`, `Ordering` |

How the parts are built. What the program changes step by step is a class or a method with loops, proved against a
specification function: `RemoteCatalog.Apply` against `CatalogAccounting.ApplySpec`, `UsageStore.Update` against
`UsageAdmission.UpdateAlone`, `TTL` against `CacheModel`, `AuthGuard.Acquire` against `AuthLimits.Step`,
`ProjectScreen` against `ScreenOrder.Project`. The theorems are about those functions, over all runs. Where
goroutines or processes interleave, each section under a lock, each Redis command and each SQL statement is one
atomic step, and the theorems hold for every order of steps (`CatalogInterleaving`, `UsageAdmission`,
`AuthInterleaving`, `RedisHandoff`, `SessionRefresh`). What those functions answer is told once more apart from them, in
the terms of their inputs: which frames, updates, requests and refreshes are taken and which are not, and what a screen
holds (`CatalogAnswers`, `UsageAdmission.UpdateAnswer`, `RedisLocks`, `SessionRecords`, `AuthConformance`, `ScreenLists`).
A map iteration takes an arbitrary order every time. Clocks, random tokens, answers of other services and failures are
parameters of the steps.

## Where the code does not do what is said of it

- A comment in `apps/api/internal/cache/cache.go` (lines 242-243) says two instances never run the producer for one
  miss. An instance that gets the lock at the first try does not recheck Redis and can produce although a value is
  already there: `RedisHandoff.FirstTryProducesInVain`, with the exact condition over all undisturbed runs in
  `RedisHandoff.FirstTryIsInVainIff`. What does hold is `RedisHandoff.UndisturbedProductions`.
- The unchanged shortcut of the usage store reads a missing UID as no usage, so a snapshot in which idle containers
  were replaced by idle ones under UIDs as long is not published: `UsageAdmission.ShortcutMistakesAReplacedIdleUid`,
  with the exact condition in `UsageAdmission.ShortcutIsRightIff`.
- `TTL.set` with a value over the byte bound leaves an older entry being served: `CacheModel.OversizedSetLeavesStaleHit`,
  with the exact condition for a whole run in `CacheModel.AgreesThroughoutIff` (contents) and `CacheModel.HitsCurrentIff`
  (hits). The byte path never does this: `ResponseCache.BytesPathNeverServesStale`.
- The Go layout check adds in 64 bits and accepts a widget whose sum overflows; the JavaScript one does not:
  `LayoutGrid.GoAcceptsAWidgetOffTheGrid`, with the exact conditions in `LayoutGrid.GoIsRightIff` and
  `LayoutGrid.ValidateBoth`.
- A comment in `apps/api/internal/dashboard/sqlite.go` (line 140) says every row is smaller than the sentinel the first
  page starts from. A row at the sentinel itself is never listed: `Pagination.DraftAtTheStartIsMissed`, with the exact
  condition in `Pagination.FinishedWalkReturnsIff`. `Create` never makes such a row, for its IDs are of version 4:
  `Pagination.MadeDraftsAreReturned`.
- `refreshExpiry` is the earlier of its two times only while rounding the time left up does not wrap:
  `SessionRefresh.RefreshExpiryOverlooksALifetime`, with the exact condition in `SessionRefresh.RefreshExpiryIsEarlierIff`.
  No session is long enough for it to wrap: `SessionRefresh.SessionExpiryIsEarlier`.
- The ReplicaSet of the current revision is to be marked (`apps/api/internal/clusterstate/query.go`, lines 797-819, which
  compares revisions as numbers). The central projection compares them as texts, so revision 9 is marked rather than
  10: `ScreenDetails.TenthRevisionIsNotCurrent`, with the exact condition on the revisions of the Deployment's
  ReplicaSets in `ScreenDetails.CurrentIsLatestIff`.

## Model

| member | source | states |
|---|---|---|
| `CatalogAtomicity.SnapshotAllOrNothing` | apps/api/internal/clusterstate/remote_catalog.go:135-199 | a matching COMMIT makes live exactly the union of the chunks since its BEGIN, once each and nothing else; it is accepted exactly when every chunk was, its header matches and it is granted room, and otherwise readers keep what they had |
| `CatalogAtomicity.ChunksAllAccepted` | apps/api/internal/clusterstate/remote_catalog.go:145-176 | a run of chunks is accepted as a whole exactly when each belongs to the snapshot and is granted room, and every resource carried is legal, new to the stage, under a key of its own and within the bound; and the stage survives exactly then |
| `CatalogAtomicity.StageAllIff` | apps/api/internal/clusterstate/remote_catalog.go:150-163 | the loop over resources gets to its end exactly when all are legal, under keys of their own that are not staged yet, and within the bound |
| `CatalogAtomicity.VisibleChangesThreeWays` | apps/api/internal/clusterstate/remote_catalog.go:112-256 | readers see a change only from an accepted COMMIT, an accepted next-in-sequence DELTA (one key) or an EXPIRED; a refused frame changes nothing they see, a replayed delta changes nothing at all, and a gap forces a resync |
| `CatalogAtomicity.NoDeltaUntilCommit` | apps/api/internal/clusterstate/remote_catalog.go:113-119 | once a resync is needed, no log without an accepted commit changes the map served, and the resync stays needed |
| `CatalogConvergence.EveryRunServesTheSource` | apps/api/internal/clusterstate/grpc_registry.go:57-125 | convergence, safety half: in every state of every run (streams cut anywhere, gaps, duplicates, capacity refusals, restarts, a source that moves on) an available cluster serves exactly the map of its source for its epoch at its sequence number |
| `CatalogConvergence.StepKeepsFaithful` | apps/api/internal/clusterstate/remote_catalog.go:100-258 | one frame, cut, restart or advance of the source keeps what is served equal to the source |
| `CatalogConvergence.LogServesSource` | apps/api/internal/clusterstate/remote_catalog.go:100-258 | the same for any log of frames that could have come on streams of a source, whatever the capacity checks answered |
| `CatalogConvergence.DeltasAreApplied` | apps/api/internal/clusterstate/remote_catalog.go:200-253 | consecutive legal deltas take a cluster that serves the source at n to serving it at m |
| `CatalogConvergence.FullSyncCatchesUp` | apps/api/internal/clusterstate/remote_catalog.go:100-253 | convergence, progress half, for one cluster whose shared capacity checks are all answered with yes: from any record, reset, snapshot at n and the deltas up to m, every frame of them within 4 MiB in its encoding, leave the cluster available and serving the source at m |
| `CatalogAccounting.FrameKeepsCaps` | apps/api/internal/clusterstate/remote_catalog.go:164-247 | no frame of any cluster takes any of the four shared counters past its limit |
| `CatalogAccounting.ApplyKeepsBalance` | apps/api/internal/clusterstate/remote_catalog.go:112-293 | after any single Apply, accepted or refused at any exit, the four counters equal the true sums over all clusters and all four caps hold |
| `CatalogAccounting.EveryCatalogIsBalanced` | apps/api/internal/clusterstate/remote_catalog.go:100-293 | so after any sequence of frames from an empty catalogue |
| `CatalogAccounting.ClustersAreIsolated` | apps/api/internal/clusterstate/remote_catalog.go:104-111 | each cluster's record is its own frames run through the protocol: frames of other clusters matter only through the answers of the shared capacity checks |
| `CatalogAccounting.SoleStagerIsNeverRefused` | apps/api/internal/clusterstate/remote_catalog.go:164-173 | while only one cluster is staging and its stage stays within the live byte cap, no CHUNK is refused for retained capacity |
| `CatalogProgress.SyncAmongOthersCatchesUp` | apps/api/internal/clusterstate/remote_catalog.go:100-258 | the same for the whole catalogue, its own capacity answers, and any frames of other clusters between those of the sync: if every frame of the sync is within 4 MiB, and at each of them no other cluster stages and every map from n to m fits under the live limits beside what the others have live, the sync ends with the source at m served, whatever record the cluster had |
| `CatalogProgress.SyncWithRoomCatchesUp` | apps/api/internal/clusterstate/remote_catalog.go:100-258 | with no frames of others in between, that room at the start is enough |
| `CatalogProgress.LegalSyncIsDue` | apps/api/internal/clusterstate/remote_catalog.go:113-253 | from any record, each frame of a sync is one the protocol takes when its turn comes |
| `CatalogProgress.DueIsWilling` | apps/api/internal/clusterstate/remote_catalog.go:164-249 | such a frame is never refused for want of capacity while there is that room |
| `CatalogProgress.DeltaIsGranted` | apps/api/internal/clusterstate/remote_catalog.go:222-249 | a delta that leads to a map there is room for is taken as if capacity were no question |
| `CatalogProgress.FrameKeepsOut` | apps/api/internal/clusterstate/remote_catalog.go:145-253 | a cluster holds a resource, live or staged, only if it held it before or the frame carried it |
| `CatalogProgress.TooLargeIsNeverServed` | apps/api/internal/clusterstate/remote_catalog.go:100-103 | the converse: a resource that no frame within 4 MiB can carry is never served, whatever frames arrive for whatever clusters |
| `CatalogProgress.CutExistsIff` | apps/api/internal/clusterstate/remote_catalog.go:100-103 | a snapshot can be cut into chunks within 4 MiB exactly when each of its resources fits into a chunk of its own |
| `CatalogAnswers.LegalIff` | apps/api/internal/clusterstate/remote_catalog.go:295-327 | a resource is legal in a snapshot exactly when its own fields say so, kind by kind: a Pod in a namespace on any node or none, a ReplicaSet or workload in a namespace on none, a Namespace with neither namespace, owner nor node; in a delta also a Node or an Event; names of 1 to 253 bytes and at most 4 owners of the five owner kinds |
| `CatalogAnswers.CountersAreSums` | apps/api/internal/clusterstate/remote_catalog.go:270-293 | the four counters are what all clusters have live and staged, and what they have live, added up |
| `CatalogAnswers.BytesAreSizes` | apps/api/internal/clusterstate/remote_catalog.go:164 | the size of a map is the sum of the sizes of its resources |
| `CatalogAnswers.OnlyItsCluster` | apps/api/internal/clusterstate/remote_catalog.go:100-111 | a frame over 4 MiB or for an unknown cluster does nothing; any other moves its own cluster at most |
| `CatalogAnswers.ResetAnswer` | apps/api/internal/clusterstate/remote_catalog.go:113-119 | when RESET is taken, and that it drops the stage and asks for a resync |
| `CatalogAnswers.HeartbeatAnswer` | apps/api/internal/clusterstate/remote_catalog.go:120-125 | when HEARTBEAT is taken: from an available cluster, with its epoch and number and a time not before the last |
| `CatalogAnswers.ExpiryAnswer` | apps/api/internal/clusterstate/remote_catalog.go:126-134 | when EXPIRED is taken, and that it withdraws the map and the stage |
| `CatalogAnswers.BeginAnswer` | apps/api/internal/clusterstate/remote_catalog.go:135-144 | when BEGIN is taken, and that it opens an empty stage under its header |
| `CatalogAnswers.ChunkAnswer` | apps/api/internal/clusterstate/remote_catalog.go:145-176 | CHUNK is taken exactly when it belongs to the stage, has 1 to 1000 resources, each legal by its own fields and of a kind and UID not staged yet, within the bound, and there is room beside all that the clusters have live and staged; the stage then grows by exactly it, and is dropped otherwise |
| `CatalogAnswers.CommitAnswer` | apps/api/internal/clusterstate/remote_catalog.go:177-199 | COMMIT is taken exactly when it belongs to the stage and the stage fits under the live limits in place of the old map; then the stage is served, and it is dropped otherwise |
| `CatalogAnswers.DeltaAnswer` | apps/api/internal/clusterstate/remote_catalog.go:200-253 | DELTA is taken exactly when its header fits, its resource is legal by its own fields, and it repeats an old number or has the next one, creates what is absent or changes what is there, and there is room; one key changes at most; a gap asks for a resync |
| `CatalogAnswers.UnknownAnswer` | apps/api/internal/clusterstate/remote_catalog.go:254-255 | a frame of any other type is refused and changes nothing |
| `CatalogService.LegalSourceIsServed` | apps/api/internal/clusterstate/remote_catalog.go:84-258 | so a source map of legal resources, pods on any node included, ends up served while there is room for it, and a pod is found by UID exactly when the source has one of that UID |
| `RemoteCatalogStore.RemoteCatalogCluster.constructor` | apps/api/internal/clusterstate/remote_catalog.go:60 | a cluster starts as an empty, unavailable record |
| `RemoteCatalogStore.RemoteCatalog.constructor` | apps/api/internal/clusterstate/remote_catalog.go:51 | a catalogue starts with its clusters and all counters at zero |
| `RemoteCatalogStore.RemoteCatalog.ReleaseStage` | apps/api/internal/clusterstate/remote_catalog.go:270-280 | the stage is gone, its share is given back, and the rest of the books is untouched |
| `RemoteCatalogStore.RemoteCatalog.ReleaseCatalog` | apps/api/internal/clusterstate/remote_catalog.go:282-293 | stage and live share are both given back |
| `RemoteCatalogStore.RemoteCatalog.Open` | apps/api/internal/clusterstate/remote_catalog.go:135-144 | BEGIN leaves an empty stage with the header of the frame and releases an older one |
| `RemoteCatalogStore.RemoteCatalog.Withdraw` | apps/api/internal/clusterstate/remote_catalog.go:126-134 | EXPIRED empties the map, makes it unavailable, and gives all its share back |
| `RemoteCatalogStore.RemoteCatalog.StageOne` | apps/api/internal/clusterstate/remote_catalog.go:151-175 | one resource of a chunk is staged and booked, or refused, exactly as the protocol says |
| `RemoteCatalogStore.RemoteCatalog.StageEach` | apps/api/internal/clusterstate/remote_catalog.go:150-176 | the loop over a chunk stages all of it, or stops at the first resource that cannot be |
| `RemoteCatalogStore.RemoteCatalog.ApplyChunk` | apps/api/internal/clusterstate/remote_catalog.go:145-176 | CHUNK: same record and answer as the specification, and nobody else's books move |
| `RemoteCatalogStore.RemoteCatalog.BookSwap` | apps/api/internal/clusterstate/remote_catalog.go:182-192 | the shared counters take the stage for live and give the old map's share back |
| `RemoteCatalogStore.RemoteCatalog.Swap` | apps/api/internal/clusterstate/remote_catalog.go:188-199 | the stage becomes the live map and the counters move by the difference |
| `RemoteCatalogStore.RemoteCatalog.ApplyCommit` | apps/api/internal/clusterstate/remote_catalog.go:177-199 | COMMIT: same record and answer as the specification |
| `RemoteCatalogStore.RemoteCatalog.Drop` | apps/api/internal/clusterstate/remote_catalog.go:223-231 | a deletion takes one key and its size out of map and counters |
| `RemoteCatalogStore.RemoteCatalog.Put` | apps/api/internal/clusterstate/remote_catalog.go:233-249 | a creation or update is booked and stored, or refused with nothing changed, by the live and retained limits |
| `RemoteCatalogStore.RemoteCatalog.ApplyDelta` | apps/api/internal/clusterstate/remote_catalog.go:200-253 | DELTA: refusals, replays, gaps and the change of one key, as the specification says |
| `RemoteCatalogStore.RemoteCatalog.ApplyTo` | apps/api/internal/clusterstate/remote_catalog.go:112-257 | every frame type on the addressed cluster |
| `RemoteCatalogStore.RemoteCatalog.ApplyAt` | apps/api/internal/clusterstate/remote_catalog.go:104-257 | one frame on one cluster moves its record as the protocol says and leaves every other record as it was |
| `RemoteCatalogStore.RemoteCatalog.Apply` | apps/api/internal/clusterstate/remote_catalog.go:100-258 | the whole of Apply: the new catalogue and the answer are those of ApplySpec, the specification the theorems above are about and whose answers `CatalogAnswers` tells from the fields of frames, resources and records |
| `RemoteCatalogStore.RemoteCatalog.Available` | apps/api/internal/clusterstate/remote_catalog.go:72-82 | true exactly when readers are served a map for that cluster |
| `RemoteCatalogStore.RemoteCatalog.HasPodUID` | apps/api/internal/clusterstate/remote_catalog.go:84-98 | true exactly when the served map has a Pod of that UID |
| `RemoteCatalogStore.RemoteCatalog.Retained` | apps/api/internal/clusterstate/remote_catalog.go:260-264 | returns the shared counts of retained resources and bytes |
| `RemoteCatalogStore.MakeClusters` | apps/api/internal/clusterstate/remote_catalog.go:52-61 | one empty record per ID; fails exactly on an illegal or repeated ID |
| `RemoteCatalogStore.NewRemoteCatalog` | apps/api/internal/clusterstate/remote_catalog.go:47-63 | makes a catalogue exactly when the cluster list and the bound are legal, and then an empty one with the documented caps |
| `RemoteCatalogStore.ClusterIdIff` | apps/api/internal/clusterid/clusterid.go:12-17 | the check of a cluster ID accepts exactly the texts of its pattern |
| `CatalogInterleaving.StepFollows` | apps/api/internal/clusterstate/remote_catalog.go:112-293 | every step of a frame in progress keeps its cluster on the protocol and moves the shared counters by exactly what that cluster owes |
| `CatalogInterleaving.StepKeepsCaps` | apps/api/internal/clusterstate/remote_catalog.go:164-192 | no step under the counter lock passes a cap, whoever else is in the middle of a frame |
| `CatalogInterleaving.EveryInterleaving` | apps/api/internal/clusterstate/remote_catalog.go:164-247 | in every interleaving of frames of any number of clusters no counter passes its limit, and whenever no frame is in progress the counters are the true sums of all live and staged resources |
| `CatalogInterleaving.ArrivedAreStarted` | apps/api/internal/clusterstate/remote_catalog.go:104-111 | in every interleaving the frames a cluster has worked on are exactly those that arrived for it while it was free, in order |
| `CatalogInterleaving.InterleavedClusterServesSource` | apps/api/internal/clusterstate/remote_catalog.go:100-258 | an idle cluster has exactly the frames that arrived for it, in that order, run through the protocol, so it serves its source in every interleaving |
| `CatalogInterleaving.EveryFrameFinishes` | apps/api/internal/clusterstate/remote_catalog.go:100-258 | each step brings a frame closer to its end, whatever the others do to the counters |
| `CatalogInterleaving.AloneBooks` | apps/api/internal/clusterstate/remote_catalog.go:270-293 | a frame left alone moves the counters by exactly the change of its cluster's books |
| `CatalogInterleaving.AloneIsApply` | apps/api/internal/clusterstate/remote_catalog.go:100-258 | a frame that nobody interrupts does in small steps what the specification of Apply says it does at once, to its cluster and to the counters |
| `AgentChunks.Place` | apps/api/cmd/cluster-state-agent/main.go:255-273 | one resource goes into the open chunk or a new one, keeping every chunk legal and the lead over every other split; it fails only when the resource alone is too large |
| `AgentChunks.ChunkResources` | apps/api/cmd/cluster-state-agent/main.go:249-279 | the chunks are the input in order, each nonempty and within both limits; it fails exactly when the limits are invalid or one resource alone is too large; no order-preserving split into legal chunks has fewer |
| `AgentSync.IndexKeepsTheLast` | apps/api/cmd/cluster-state-agent/main.go:280-286 | the index has exactly the keys that occur, each with the last resource that has it |
| `AgentSync.Index` | apps/api/cmd/cluster-state-agent/main.go:280-286 | the loop computes that index |
| `AgentSync.ReceiveAnswer` | apps/api/internal/clusterstate/registry/registry.go:601-650 | the registry's rule for the frames of an agent: what it publishes, applies, takes for heard before and refuses |
| `AgentSync.PrefixesAreAccepted` | apps/api/cmd/cluster-state-agent/main.go:145-159 | if the registry accepts a session it has accepted every frame of it, for a refusal ends the session |
| `AgentSync.EveryDifferenceNeedsAFrame` | apps/api/cmd/cluster-state-agent/main.go:221-236 | no stream of deltas takes one map to another with fewer frames than there are keys to change |
| `AgentSync.AgendaIsTheDifference` | apps/api/cmd/cluster-state-agent/main.go:221-236 | in whatever orders the two projections are iterated, each key that differs is met once, and no other is |
| `AgentSync.TellsNothingElse` | apps/api/cmd/cluster-state-agent/main.go:221-236 | the deltas of one change are as many as the keys that differ, tell only those, as deleted or with their new resource, and are numbered without a gap |
| `AgentSync.TellsEachOnce` | apps/api/cmd/cluster-state-agent/main.go:221-236 | every key that differs is told, and none twice |
| `AgentSync.ReachIff` | apps/api/cmd/cluster-state-agent/main.go:143-146 | telling gets as far as the m-th key exactly when the deltas for the first m keys are all within the maximum size |
| `AgentSync.EveryOrderFitsIff` | apps/api/cmd/cluster-state-agent/main.go:221-236 | for an encoding that does not get shorter when a number grows: a change is told to its end in every order of iteration exactly when each delta fits in the last place it may get, a deletion after all other deletions, any other after all other deltas |
| `AgentSync.Session.constructor` | apps/api/cmd/cluster-state-agent/main.go:165-171 | a session starts with a fresh epoch, number zero and an empty map |
| `AgentSync.Session.Exchange` | apps/api/cmd/cluster-state-agent/main.go:144-158 | a frame is sent exactly when it is within the maximum size |
| `AgentSync.Session.SendChunk` | apps/api/cmd/cluster-state-agent/main.go:185 | the registry adds the chunk to what it stages |
| `AgentSync.Session.SendChunks` | apps/api/cmd/cluster-state-agent/main.go:184-188 | after all chunks the registry stages the index of their concatenation |
| `AgentSync.Session.Open` | apps/api/cmd/cluster-state-agent/main.go:177-179 | BEGIN is sent unless it is too large, and the registry stages an empty map |
| `AgentSync.Session.Close` | apps/api/cmd/cluster-state-agent/main.go:189-192 | COMMIT is sent unless it is too large, and the registry then serves the index of the projection |
| `AgentSync.Session.Snapshot` | apps/api/cmd/cluster-state-agent/main.go:172-194 | the registry ends up with the index of the projection; it fails exactly when BEGIN or COMMIT is too large or the projection cannot be cut, and then the registry serves what it served before |
| `AgentSync.Session.Heartbeat` | apps/api/cmd/cluster-state-agent/main.go:211-214 | a heartbeat carries the number the registry holds, so it is accepted; it fails exactly when it is too large |
| `AgentSync.Session.SendDelta` | apps/api/cmd/cluster-state-agent/main.go:223-226 | one delta with the next 64-bit number, sent exactly when it is within the maximum size |
| `AgentSync.Session.SendOne` | apps/api/cmd/cluster-state-agent/main.go:221-236 | one key that differs is told, deleted or with its new resource, and the registry stays in step; or its delta is too large, exactly then, and nothing is sent |
| `AgentSync.Session.SendGone` | apps/api/cmd/cluster-state-agent/main.go:221-228 | each key that is gone is deleted once, in the order of iteration, up to the first delta that is too large |
| `AgentSync.Session.SendChanged` | apps/api/cmd/cluster-state-agent/main.go:229-236 | each new or different resource is sent once, in the order of iteration, and nothing for an equal one, up to the first delta that is too large |
| `AgentSync.Session.Tell` | apps/api/cmd/cluster-state-agent/main.go:221-236 | both loops together tell the keys that differ up to the first whose delta is too large, and stop there |
| `AgentSync.Session.Update` | apps/api/cmd/cluster-state-agent/main.go:215-238 | one change notice, for given orders of iteration: exactly the deltas before the first that is too large are sent, numbered on, and the registry holds the last projection with exactly their keys brought up to date; it succeeds, and the registry serves the new projection, exactly when all deltas fit |
| `AgentSync.Session.Notice` | apps/api/cmd/cluster-state-agent/main.go:215-238 | with whatever orders of iteration, a notice brings the registry to the new projection or stops the session at a delta that is too large |
| `AgentSync.Session.Run` | apps/api/cmd/cluster-state-agent/main.go:195-239 | over a whole session the registry accepts every frame sent, heartbeats included, and its map is the index of the last projection; the session ends early exactly at a snapshot that cannot be sent or a heartbeat or delta that is too large, and what the registry then holds is stated |
| `UsageAdmission.AdmitKeepsBalance` | apps/api/internal/clusterstate/usage_store.go:105-118 | reserving keeps every counter equal to the sum over the clusters and both bounds |
| `UsageAdmission.PublishKeepsBalance` | apps/api/internal/clusterstate/usage_store.go:123-131 | so does publishing |
| `UsageAdmission.EveryInterleavingIsBalanced` | apps/api/internal/clusterstate/usage_store.go:95-133 | over every interleaving of updates of any clusters, the total is the sum of what is published, total plus reserved stays within the total limits, total plus build within the peak limits, and reserved and build are the sums over the updates in flight |
| `UsageAdmission.QuietStoreHoldsNothingBack` | apps/api/internal/clusterstate/usage_store.go:123-131 | with nothing in flight both reservations and builds are zero |
| `UsageAdmission.TotalsStayWithinLimits` | apps/api/internal/clusterstate/usage_store.go:110 | the totals themselves stay within the total limits |
| `UsageAdmission.InFlightIsUndisturbed` | apps/api/internal/clusterstate/usage_store.go:95-96 | while an update is in flight nothing but its own end changes its cluster |
| `UsageAdmission.AdmittedIsPublished` | apps/api/internal/clusterstate/usage_store.go:114-132 | an admitted update always publishes its own values, whatever happens in between, and readers see the old ones until then |
| `UsageAdmission.OtherClustersAreUntouched` | apps/api/internal/clusterstate/usage_store.go:79-133 | updates of one cluster never change another |
| `UsageAdmission.ShortcutIsRightIff` | apps/api/internal/clusterstate/usage_store.go:135-145 | the shortcut tells whether the snapshot changed, except exactly when bytes and entry counts are equal, every UID there before is as it was, some UID is new and every new one is idle |
| `UsageAdmission.NoZeroNoMistake` | apps/api/internal/clusterstate/usage_store.go:135-145 | a snapshot without a zero entry is never mistaken for another one |
| `UsageAdmission.ShortcutMistakesAReplacedIdleUid` | apps/api/internal/clusterstate/usage_store.go:140-142 | one idle container replaced by another under a UID as long is mistaken for no change |
| `UsageAdmission.AcceptedUpdateIsServed` | apps/api/internal/clusterstate/usage_store.go:147-158 | even then every UID of an accepted update is served its new usage, reading a missing one as none |
| `UsageAdmission.UpdateAnswer` | apps/api/internal/clusterstate/usage_store.go:79-117 | on every balanced store an update is refused exactly when its cluster is unknown, its values are illegal, or, with none of the cluster in flight and the values changed, what is published and reserved with its growth passes a total limit or what is published and being built with all of it passes a peak limit; and when it waits, changes nothing, or is admitted |
| `UsageAdmission.NoLargerIsRefusedIff` | apps/api/internal/clusterstate/usage_store.go:106-113 | over every interleaving an update that asks for no more than it replaces is refused for the peak limits alone |
| `UsageAdmission.QuietStoreAdmitsIff` | apps/api/internal/clusterstate/usage_store.go:106-113 | with nothing in flight an update is admitted exactly when what it leads to is within the total limits and it fits beside what is published under the peak limits |
| `UsageAdmission.QuietDefaultStoreAdmitsIff` | apps/api/internal/clusterstate/usage_store.go:51-60 | and with the default limits exactly when what it leads to is within the total limits |
| `UsageStoreState.UsageStore.constructor` | apps/api/internal/clusterstate/usage_store.go:66 | a store starts empty and balanced |
| `UsageStoreState.UsageStore.Measure` | apps/api/internal/clusterstate/usage_store.go:81-93 | in any iteration order, accepts exactly the legal values and adds up their bytes |
| `UsageStoreState.UsageStore.SameSnapshot` | apps/api/internal/clusterstate/usage_store.go:135-145 | the loop decides the shortcut as specified |
| `UsageStoreState.UsageStore.Copied` | apps/api/internal/clusterstate/usage_store.go:119-122 | the new map is a copy of the values |
| `UsageStoreState.UsageStore.Reserve` | apps/api/internal/clusterstate/usage_store.go:105-118 | reserves the growth and counts the build exactly when both fit; `UsageAdmission.UpdateAnswer` says when that is |
| `UsageStoreState.UsageStore.Settle` | apps/api/internal/clusterstate/usage_store.go:123-131 | moves build, reservation and total, and stores the snapshot |
| `UsageStoreState.UsageStore.Begin` | apps/api/internal/clusterstate/usage_store.go:79-118 | everything up to the first unlock, as the interleaved model has it |
| `UsageStoreState.UsageStore.Finish` | apps/api/internal/clusterstate/usage_store.go:119-131 | builds and publishes what was reserved |
| `UsageStoreState.UsageStore.Update` | apps/api/internal/clusterstate/usage_store.go:79-133 | an uninterrupted update is Admit followed by Publish, and keeps the store balanced |
| `UsageStoreState.UsageStore.Lookup` | apps/api/internal/clusterstate/usage_store.go:147-158 | serves a UID exactly when the published snapshot has it |
| `UsageStoreState.UsageStore.Retained` | apps/api/internal/clusterstate/usage_store.go:160-164 | returns the totals |
| `UsageStoreState.NewUsageStore` | apps/api/internal/clusterstate/usage_store.go:62-77 | makes a store exactly when limits and cluster IDs are legal |
| `UsageStoreState.LimitsIff` | apps/api/internal/clusterstate/usage_store.go:62-65 | which limits are accepted, number by number |
| `UsageStoreState.DefaultLimitsAreLegal` | apps/api/internal/clusterstate/usage_store.go:51-60 | the default limits are accepted for 1 to 100000 entries |
| `CacheModel.TrimmedIsLongest` | apps/api/internal/cache/cache.go:308-310 | what eviction keeps is the longest prefix of the recency list that fits: the evicted keys are the shortest least recently used suffix |
| `CacheModel.PutIsValid` | apps/api/internal/cache/cache.go:294-310 | after a set the index and the list hold the same distinct keys and both bounds hold |
| `CacheModel.PutKeepsTheNewest` | apps/api/internal/cache/cache.go:294-310 | the key just set survives at the front with its new entry, and one key more would not have fitted |
| `CacheModel.PutDropsNothingThatFits` | apps/api/internal/cache/cache.go:308-310 | nothing is evicted when everything fits |
| `CacheModel.GetIsValid` | apps/api/internal/cache/cache.go:269-282 | a get keeps index, list and bounds |
| `CacheModel.SweepIsValid` | apps/api/internal/cache/cache.go:319-332 | Len drops exactly the expired entries and keeps index, list and bounds |
| `CacheModel.EveryRunIsValid` | apps/api/internal/cache/cache.go:269-332 | index, list and both bounds are intact after every operation of every run |
| `CacheModel.SetAgreesIff` | apps/api/internal/cache/cache.go:291-293 | a set leaves the cache in agreement with the unbounded map exactly when the value fits or the key was not cached |
| `CacheModel.OversizedSetLeavesStaleHit` | apps/api/internal/cache/cache.go:291-293 | a value too big to keep leaves an older one being served |
| `CacheModel.AgreesThroughoutIff` | apps/api/internal/cache/cache.go:269-332 | a run agrees with the unbounded map with expiry times throughout exactly when no operation sets a value too big to keep under a key cached at that moment |
| `CacheModel.StepHitsIff` | apps/api/internal/cache/cache.go:284-311 | hits stay current through an operation exactly when it does not set a value too big to keep under a key whose older value is still served; if it does, every hit on that key is stale until the old entry expires |
| `CacheModel.HitsCurrentIff` | apps/api/internal/cache/cache.go:269-332 | every hit that could be had at any point of a run is what the unbounded map returns then, exactly when no operation of the run does that |
| `CacheModel.FittingValuesAreNeverOverlooked` | apps/api/internal/cache/cache.go:291-293 | values that fit never cause that |
| `CacheModel.EveryHitIsCurrent` | apps/api/internal/cache/cache.go:269-311 | then every hit is exactly what the unbounded map would return at that moment |
| `CacheModel.RecencyListIsByLastUse` | apps/api/internal/cache/cache.go:280-310 | after every run the recency list is sorted by last use |
| `CacheHits.GetAnswer` | apps/api/internal/cache/cache.go:269-282 | a look-up hits exactly what is kept and has not run out, moves a hit to the front, and removes what has run out |
| `CacheHits.SetAnswer` | apps/api/internal/cache/cache.go:284-311 | a value that fits by itself is kept with its time to live, at the front, and one that does not changes nothing |
| `CacheHits.SurvivesIff` | apps/api/internal/cache/cache.go:297-310 | an entry survives a set exactly when it, everything used more recently and the new entry fit both bounds |
| `CacheHits.NothingIsLostThatFits` | apps/api/internal/cache/cache.go:269-311 | in a run whose sets all fit together, every look-up answers as an unbounded map would |
| `ResponseCache.BytesPathNeverServesStale` | apps/api/internal/cache/cache.go:105-107 | because the value limit is clamped to the byte bound, the byte path never serves a stale hit |
| `ResponseCache.EffectiveIs` | apps/api/internal/cache/cache.go:92-107 | settings that are positive are kept, others get their defaults, and the value limit is clamped |
| `ResponseCache.TTL.constructor` | apps/api/internal/cache/cache.go:92-132 | a cache starts empty with every limit positive and the value limit clamped |
| `ResponseCache.TTL.Remove` | apps/api/internal/cache/cache.go:313-317 | takes one entry out of index, list and byte count |
| `ResponseCache.TTL.Get` | apps/api/internal/cache/cache.go:269-282 | a hit moves to the front, an expired entry is removed, as the model says |
| `ResponseCache.TTL.PutFront` | apps/api/internal/cache/cache.go:294-307 | the new entry is at the front and the byte count is the sum of the sizes |
| `ResponseCache.TTL.DropBack` | apps/api/internal/cache/cache.go:300 | eviction drops the last key; the list it drops from is never empty |
| `ResponseCache.TTL.TrimBytes` | apps/api/internal/cache/cache.go:299-301 | the first eviction loop ends with exactly the longest prefix that fits |
| `ResponseCache.TTL.TrimBoth` | apps/api/internal/cache/cache.go:308-310 | so does the second |
| `ResponseCache.TTL.Set` | apps/api/internal/cache/cache.go:284-311 | set does what the model says, in both branches |
| `ResponseCache.TTL.Len` | apps/api/internal/cache/cache.go:319-332 | the sweep from the back drops exactly the expired entries and counts the rest |
| `RedisHandoff.StepKeepsOrder` | apps/api/internal/cache/cache.go:422-453 | every step, with failures and expiries, keeps tokens distinct and every unexpired hold equal to the lock in Redis |
| `RedisHandoff.LockedProductionsNeverOverlap` | apps/api/internal/cache/cache.go:202-267 | over every run at most one instance works under a lock that has not expired |
| `RedisHandoff.ReleaseSparesOthers` | apps/api/internal/cache/cache.go:442-453 | a release never removes another instance's lock, even after one's own expired |
| `RedisHandoff.StepKeepsWaiters` | apps/api/internal/cache/cache.go:244-249 | no step makes Redis readable while an instance that had to wait produces |
| `RedisHandoff.UndisturbedProductions` | apps/api/internal/cache/cache.go:202-267 | with no Redis failure and no lock expiring while held, every production is under the producer's own lock, which stands unexpired in Redis; productions of a key never overlap; and an instance that had to wait produces only while no unexpired value of legal size is in Redis |
| `RedisLocks.LockHasHolderIff` | apps/api/internal/cache/cache.go:241 | over every run, failures and expiries included, a lock that stands has a holder exactly when neither the answer to its taking was lost nor its release failed |
| `RedisLocks.ReleasedLockIsFree` | apps/api/internal/cache/cache.go:203-241 | so without failures there is no lock once nobody holds one, and the next try takes it |
| `RedisLocks.LocksExpire` | apps/api/internal/cache/cache.go:433 | no lock stands longer than its time to live from now |
| `RedisLocks.TryAnswer` | apps/api/internal/cache/cache.go:422-442 | the lock is taken exactly when there is none or it has run out; otherwise the instance waits |
| `RedisLocks.ReleaseAnswer` | apps/api/internal/cache/cache.go:444-456 | a release removes the lock exactly when it is still one's own |
| `RedisLocks.NobodyWorksAfterAHit` | apps/api/internal/cache/cache.go:218-249 | over every run nobody goes for the lock or produces whose last look found a value, and a look that found none never ends the miss |
| `RedisLocks.ProducedAnswer` | apps/api/internal/cache/cache.go:254-266 | what is produced is published exactly when it is a value of at most the legal size, and the lock is released after it either way |
| `RedisLocks.PublishAnswer` | apps/api/internal/cache/cache.go:265 | the value published replaces the one in Redis for its time to live |
| `RedisLocks.PublishesItsProduct` | apps/api/internal/cache/cache.go:254-265 | over every run what is published is what the instance produced last |
| `RedisLocks.WaitedIsTold` | apps/api/internal/cache/cache.go:204-249 | over every run the recheck is due exactly in a miss that had to wait |
| `RedisHandoff.StepKeepsLocked` | apps/api/internal/cache/cache.go:203-241 | a step that does not fail leads to no production without a lock |
| `RedisHandoff.ReadableIff` | apps/api/internal/cache/cache.go:265 | over every run, with any failures and expiries, Redis has something to read where it had nothing exactly when the last publication since wrote a value of legal size that has not expired |
| `RedisHandoff.NobodyElsePublishes` | apps/api/internal/cache/cache.go:202-267 | in an undisturbed run nobody publishes while an instance produces |
| `RedisHandoff.FirstTryIsInVainIff` | apps/api/internal/cache/cache.go:203-250 | in every undisturbed run, at any moment of a production under a lock taken at the first try, Redis has a value that could have been read exactly when another instance published between the look and the lock and the last value so published is of legal size and has not expired |
| `RedisHandoff.FirstTryProducesInVain` | apps/api/internal/cache/cache.go:203-244 | an instance that takes the lock at the first try can produce although a value is there |
| `SessionRefresh.RefreshExpiryIsEarlierIff` | apps/api/internal/auth/session.go:815-825 | for every positive 64-bit lifetime the capped expiry is the earlier of the two times exactly when the rounding does not wrap or the configured time is the earlier one |
| `SessionRefresh.RefreshExpiryOverlooksALifetime` | apps/api/internal/auth/session.go:815-825 | with 2^63 - 1 nanoseconds left a lifetime of one second is overlooked |
| `SessionRefresh.SessionExpiryIsEarlier` | apps/api/internal/auth/session.go:815-825 | for sessions of at most a day it always is, and the product formed fits in 64 bits |
| `SessionRefresh.ExpiryNeverGrows` | apps/api/internal/auth/session.go:815-825 | whatever the lifetime, the result is never later than the configured time |
| `SessionRefresh.SameAudience` | apps/api/internal/auth/session.go:465-480 | true exactly when the two lists agree up to order, repetitions included |
| `SessionRefresh.CountDown` | apps/api/internal/auth/session.go:473-479 | the second loop decides that from the tally of the first list |
| `SessionRefresh.FirstRecordIsCapped` | apps/api/internal/auth/session.go:285-294 | a login stores version 1, with an expiry within the absolute expiry and that within the configured one |
| `SessionRefresh.NextRecordSucceeds` | apps/api/internal/auth/session.go:541-557 | a refreshed record has the next version, an absolute expiry no later than before, and an expiry within it |
| `SessionRecords.ExchangedAnswer` | apps/api/internal/auth/session.go:523-546 | with no answer the session stays, an acceptable one leads to a record made of it and of the old one, after any other the session is deleted |
| `SessionRecords.WritesIff` | apps/api/internal/auth/session.go:523-571 | when exactly the next record is written, and for how long |
| `SessionRecords.TimeSubIs` | apps/api/internal/auth/session.go:566 | a difference of times that a duration cannot hold is the nearest one it can |
| `SessionRecords.LoadAnswer` | apps/api/internal/auth/session.go:486-515 | a record is refreshed exactly when it has not ended, the CSRF value is its own, it has a refresh token and the lock was got |
| `SessionRecords.CasAnswer` | apps/api/internal/auth/session.go:566-571 | the write takes effect exactly while the record stored is still the one it was made from |
| `SessionRecords.DeleteAnswer` | apps/api/internal/auth/session.go:608-611 | deleting removes what is stored if the command runs |
| `SessionRecords.LoginRecord` | apps/api/internal/auth/session.go:285-294 | what the record of a login holds |
| `SessionRecords.RefreshAloneSucceeds` | apps/api/internal/auth/session.go:486-575 | a refresh that nothing interrupts, of a record that can be refreshed and with an acceptable answer, replaces it by the next one |
| `SessionRecords.RecordsAreChained` | apps/api/internal/auth/session.go:541-557 | over every run each record stored is made of the one before it and of the answer its writer got, with the earlier of the ends |
| `SessionRecords.EveryRecordIsMadeOfItsAnswers` | apps/api/internal/auth/session.go:535-547 | over every run the refresh token of each record is the last one handed out by then, its claims and its CSRF value are those of its own answer, and its user is the one who logged in |
| `SessionRefresh.StepWritesAtMostOnce` | apps/api/internal/auth/session.go:613-619 | a step leaves the stored record, removes it, or replaces it by its successor |
| `SessionRefresh.EveryRunIsConsistent` | apps/api/internal/auth/session.go:486-575 | over every interleaving, with the refresh lock expiring at will, the records ever stored have versions 1, 2, 3, ... and the stored one is the last |
| `SessionRefresh.SessionsOnlyGrowOld` | apps/api/internal/auth/session.go:486-619 | a session still stored was stored all along; its version grew by exactly the number of writes; its absolute expiry did not grow; its expiry is within it |
| `Pagination.List` | apps/api/internal/dashboard/sqlite.go:132-174 | a page holds at most the limit of drafts beyond the cursor, in order and with none left out, and a next cursor exactly when there is more |
| `Pagination.CutPage` | apps/api/internal/dashboard/sqlite.go:168-172 | cutting the extra row off leaves such a page |
| `Pagination.WalkDescends` | apps/api/internal/dashboard/sqlite.go:152 | whatever happens to the table between pages, drafts come in strictly descending order, so none comes twice |
| `Pagination.PageSkipsNothing` | apps/api/internal/dashboard/sqlite.go:152-172 | a draft beyond the cursor is on the page or beyond the next cursor |
| `Pagination.WalkSkipsNothing` | apps/api/internal/dashboard/sqlite.go:132-174 | a draft visible throughout is never skipped |
| `Pagination.FinishedWalkReturnsIff` | apps/api/internal/dashboard/sqlite.go:132-174 | a finished walk returns a draft visible throughout, once, exactly when it does not sit at the very place the walk starts from |
| `Pagination.MadeDraftsAreReturned` | apps/api/internal/dashboard/sqlite.go:106-130 | a draft under a version 4 ID, as all made here are, never sits there, so it is returned exactly once |
| `Pagination.DraftAtTheStartIsMissed` | apps/api/internal/dashboard/sqlite.go:140-148 | a draft at that place is visible and not listed |
| `Pagination.UnchangedWalkEnds` | apps/api/internal/dashboard/sqlite.go:168-172 | on an unchanged table a walk ends |
| `Pagination.UnchangedWalkListsAll` | apps/api/internal/dashboard/sqlite.go:132-174 | and has then listed exactly the drafts the viewer may list, whatever the page size |
| `Pagination.WalkShowsWhose` | apps/api/internal/dashboard/sqlite.go:152 | a walk shows each user's own drafts in any state, an administrator those of others that are submitted or approved, and nobody else's |
| `Pagination.WalkIsNewestFirst` | apps/api/internal/dashboard/sqlite.go:152 | the newest come first, and of one instant the larger ID |
| `Pagination.QueryHasAnAnswer` | apps/api/internal/dashboard/sqlite.go:152 | the query has an answer for every table |
| `AuthLimits.TokensAreConserved` | apps/api/internal/httpapi/auth_guard.go:83-100 | what is left in a bucket never exceeds what was there, plus the inflow, less the admissions |
| `AuthLimits.AdmissionsAreBounded` | apps/api/internal/httpapi/auth_guard.go:83-100 | between any two calls on one bucket at most burst plus rate times elapsed are admitted, in whatever order clock values arrive |
| `AuthLimits.IdleBucketIsLikeFresh` | apps/api/internal/httpapi/auth_guard.go:86-94 | a bucket idle for a full refill decides like a fresh one |
| `AuthConformance.AdmittedIff` | apps/api/internal/httpapi/auth_guard.go:83-100 | a call is admitted exactly when, from each call so far to this one, the admissions with it are at most the burst and the rate times the time between, in whatever order clock values arrive |
| `AuthLimits.BoundsHold` | apps/api/internal/httpapi/auth_guard.go:51-77 | in every run the table stays within 1024 identities and at most 16 requests are in progress |
| `AuthLimits.GlobalBucketSeesAll` | apps/api/internal/httpapi/auth_guard.go:39-42 | the global bucket has seen every well-formed request and admitted at least as many as were let through |
| `AuthLimits.GlobalBoundHolds` | apps/api/internal/httpapi/auth_guard.go:39-42 | so at most 100 requests are let through and 50 more per second |
| `AuthConformance.SharedBucketIs` | apps/api/internal/httpapi/auth_guard.go:75-77 | the shared bucket has seen exactly the requests without a bucket of their own |
| `AuthConformance.OwnBucketIs` | apps/api/internal/httpapi/auth_guard.go:62-80 | a host's bucket has seen exactly the requests of the host since it was made |
| `AuthConformance.LetThroughIff` | apps/api/internal/httpapi/auth_guard.go:35-57 | a request is let through exactly when it is well formed, the global bucket has allowance at 100 and 50 a second, its host's own bucket or else the shared one at 20 and 10 a second, and fewer than 16 are in progress |
| `AuthInterleaving.AloneIsCharged` | apps/api/internal/httpapi/auth_guard.go:47-50 | look-up and take as two steps with nothing in between do what the one step of the guard does, with the same choice of identities to evict |
| `AuthInterleaving.RunIsSound` | apps/api/internal/httpapi/auth_guard.go:59-81 | in every interleaving each host in the table has a bucket of its own, and a request that holds it is that host's |
| `AuthInterleaving.SeenTakeIsFaithful` | apps/api/internal/httpapi/auth_guard.go:83-100 | a token taken from the host's bucket in the table is granted, and changes it, as with a bucket never evicted |
| `AuthInterleaving.OwnLookUpIsFaithful` | apps/api/internal/httpapi/auth_guard.go:59-80 | looking the host up finds its bucket, or makes one that comes to the same as the one never evicted for all who will hold it |
| `AuthInterleaving.OtherLookUpIsFaithful` | apps/api/internal/httpapi/auth_guard.go:66-73 | looking another host up leaves the bucket alone, or evicts it when the host has been idle for ten minutes |
| `AuthInterleaving.EvictionIsInvisible` | apps/api/internal/httpapi/auth_guard.go:47-81 | over every interleaving of look-ups and takes, with clock readings of look-ups out of order by up to 299 seconds, tokens taken from a host's bucket in the table are granted exactly as from a bucket never evicted |
| `AuthConformance.SeenTakeIff` | apps/api/internal/httpapi/auth_guard.go:47-50 | so such a take is granted exactly when it conforms with all the host's takes before it, evictions or not |
| `AuthInterleaving.EvictionIsInvisibleIff` | apps/api/internal/httpapi/auth_guard.go:66-73 | 299 seconds is exact: for every larger disorder there is a run in which an eviction gives a host its burst twice in less than two seconds |
| `AuthInterleaving.LostTake` | apps/api/internal/httpapi/auth_guard.go:47-50 | a token taken from a bucket evicted since it was looked up changes no bucket of the table, and the request is by then 600 seconds less the disorder late |
| `AuthInterleaving.EveryTakeIsSeenIff` | apps/api/internal/httpapi/auth_guard.go:47-50 | no take is ever lost so exactly when tokens are taken sooner than that; for any longer delay there is a run that loses one |
| `AuthInterleaving.HostBoundSurvivesEviction` | apps/api/internal/httpapi/auth_guard.go:47-50 | so in any stretch of any run a host's own buckets, evicted ones included, let through at most 20 requests, 10 more per second, and those lost |
| `AuthGuardState.AuthBucket.constructor` | apps/api/internal/httpapi/auth_guard.go:78 | a bucket starts fresh |
| `AuthGuardState.AuthBucket.Take` | apps/api/internal/httpapi/auth_guard.go:83-100 | the bucket changes and answers as the model says |
| `AuthGuardState.AuthGuard.constructor` | apps/api/internal/httpapi/auth_guard.go:31-33 | a guard starts with fresh buckets and an empty table |
| `AuthGuardState.AuthGuard.FindIdle` | apps/api/internal/httpapi/auth_guard.go:67-72 | finds an identity idle for ten minutes exactly when there is one |
| `AuthGuardState.AuthGuard.Touch` | apps/api/internal/httpapi/auth_guard.go:62-65 | an identity found keeps its bucket and is marked used |
| `AuthGuardState.AuthGuard.MakeRoom` | apps/api/internal/httpapi/auth_guard.go:66-73 | a full table loses one idle identity, if there is one, and nothing else |
| `AuthGuardState.AuthGuard.AddHost` | apps/api/internal/httpapi/auth_guard.go:78-80 | a new host gets a fresh bucket of its own |
| `AuthGuardState.AuthGuard.IdentityBucket` | apps/api/internal/httpapi/auth_guard.go:59-81 | the bucket returned is the host's own, or the shared one exactly when the table stays full |
| `AuthGuardState.AuthGuard.Charge` | apps/api/internal/httpapi/auth_guard.go:47-50 | charging changes exactly the bucket found |
| `AuthGuardState.AuthGuard.Enter` | apps/api/internal/httpapi/auth_guard.go:47-56 | the host's bucket and then a place among the requests in progress |
| `AuthGuardState.AuthGuard.TakePlace` | apps/api/internal/httpapi/auth_guard.go:51-56 | a place is taken exactly when fewer than 16 are |
| `AuthGuardState.AuthGuard.Acquire` | apps/api/internal/httpapi/auth_guard.go:35-57 | the whole of acquire does what the model says, with a legal choice of the identity evicted |
| `AuthGuardState.AuthGuard.Finish` | apps/api/internal/httpapi/auth_guard.go:53 | a finished request gives its place back |
| `LayoutGrid.OverlapIsASharedCell` | apps/api/internal/dashboard/validate.go:227-234 | rectangles on the grid overlap exactly when some cell is covered by both |
| `LayoutGrid.CollidesIff` | apps/api/internal/dashboard/validate.go:229-231 | a rectangle hits a taken cell exactly when it overlaps an earlier one |
| `LayoutGrid.AdmittedIff` | apps/api/internal/dashboard/validate.go:224-226 | the 64-bit bounds check agrees with the real one unless a sum overflows |
| `LayoutGrid.AdmittedBySums` | apps/api/internal/dashboard/validate.go:224-226 | it lets a rectangle pass exactly when its numbers are in range and each of its sums is in bounds or overflows |
| `LayoutGrid.Mark` | apps/api/internal/dashboard/validate.go:227-234 | marking succeeds exactly when no cell was taken, and then all cells are marked |
| `LayoutGrid.ValidateGo` | apps/api/internal/dashboard/validate.go:190-235 | accepts exactly the lists whose rectangles are in bounds and pairwise disjoint, unless a sum overflows and nothing else is wrong; so exactly those when no sum overflows |
| `LayoutGrid.GoIsRightIff` | apps/api/internal/dashboard/validate.go:224 | wrong exactly when some sum overflows, all numbers are in range, every sum is in bounds or overflows, and the rectangles in bounds are disjoint |
| `LayoutGrid.GoAcceptsAWidgetOffTheGrid` | apps/api/internal/dashboard/validate.go:224-228 | such a list exists |
| `LayoutGrid.MarkAll` | packages/dashboard-schema/src/index.js:86-89 | all cells are marked and overlap is reported exactly when one was taken |
| `LayoutGrid.ValidateJs` | packages/dashboard-schema/src/index.js:46-91 | each layout gets its own verdict, and there are no problems exactly when all rectangles are in bounds and pairwise disjoint |
| `LayoutGrid.ValidateBoth` | packages/dashboard-schema/src/index.js:82-90 | run on one list, the two loops give the same answer exactly when the list does not mislead the Go one so, and always when no sum overflows; what JavaScript accepts Go accepts |
| `CacheIdentity.CanonicalIffSameUpToOrder` | apps/api/internal/cache/identity.go:37-54 | with distinct cluster IDs and parameter names, two identities share a canonical form exactly when they differ only in the order of clusters, namespaces and parameters |
| `CacheIdentity.ArrangedIsCanonical` | apps/api/internal/cache/identity.go:46-50 | what sorting leaves is an arrangement of the identity, and the canonical one when IDs and names are distinct |
| `CacheIdentity.CopyOf` | apps/api/internal/cache/identity.go:42-45 | a copy is a new list with the same elements |
| `CacheIdentity.CopyClusters` | apps/api/internal/cache/identity.go:38-41 | the copy has namespace lists of its own with the same contents |
| `CacheIdentity.SortByID` | apps/api/internal/cache/identity.go:46 | sorts the clusters by ID |
| `CacheIdentity.SortNamespaces` | apps/api/internal/cache/identity.go:47-49 | sorts the namespaces of every cluster, even if clusters share a list |
| `CacheIdentity.CanonicalClusters` | apps/api/internal/cache/identity.go:38-49 | the clusters in canonical order, computed on copies |
| `CacheIdentity.CanonicalParams` | apps/api/internal/cache/identity.go:42-50 | the parameters sorted by name, computed on a copy |
| `CacheIdentity.Key` | apps/api/internal/cache/identity.go:37-54 | computes the canonical form and modifies nothing of the caller's |
| `Ordering.SortArray` | apps/api/internal/cache/identity.go:46-50 | sorting in place leaves the same elements in order |
| `Ordering.SortedIsUnique` | apps/api/internal/cache/identity.go:46-50 | there is one sorted form of a collection whose elements the order tells apart |
| `ScreenModel.FindCommutes` | apps/api/internal/clusterstate/remote_provider.go:77-106 | the first pass comes to the same in any order, given unique UIDs and names |
| `ScreenModel.TotalForgetsOrder` | apps/api/internal/clusterstate/remote_provider.go:160-172 | a rollup with its issues sorted does not depend on the order of its parts |
| `ScreenModel.RollupForgetsOrder` | apps/api/internal/clusterstate/remote_provider.go:607-635 | so a workload shows the same in any order of pods |
| `ScreenModel.NamespaceForgetsOrder` | apps/api/internal/clusterstate/remote_provider.go:155-227 | and a namespace in any order of pods and workloads |
| `ScreenModel.EventsForgetOrder` | apps/api/internal/clusterstate/remote_provider.go:259-268 | the events listed do not depend on order, nor those cut off |
| `ScreenModel.EntryListForgetsOrder` | apps/api/internal/clusterstate/remote_provider.go:269-291 | nor the unhealthy entries |
| `ScreenModel.NamespaceListForgetsOrder` | apps/api/internal/clusterstate/remote_provider.go:292-306 | nor the namespaces |
| `ScreenModel.WorkloadListForgetsOrder` | apps/api/internal/clusterstate/remote_provider.go:314-328 | nor the workloads |
| `ScreenDetails.PodLinesForgetOrder` | apps/api/internal/clusterstate/remote_provider.go:711-731 | the sorted pods of a workload do not depend on order |
| `ScreenDetails.OwnersForgetOrder` | apps/api/internal/clusterstate/remote_provider.go:732-751 | nor the owners of a pod, with their counts |
| `ScreenDetails.SetLinesForgetOrder` | apps/api/internal/clusterstate/remote_provider.go:752-780 | nor the ReplicaSets of a Deployment, whose map is iterated itself |
| `ScreenDetails.WorkloadDetailForgetsOrder` | apps/api/internal/clusterstate/remote_provider.go:225-232 | so the workload asked for, with both lists, is the same in any order |
| `ScreenDetails.PodDetailForgetsOrder` | apps/api/internal/clusterstate/remote_provider.go:242-253 | and so is the pod asked for |
| `ScreenDetails.SameLengthOrder` | apps/api/internal/clusterstate/remote_provider.go:769-774 | revisions with as many digits are in the order of their texts |
| `ScreenDetails.CurrentIsLatestIff` | apps/api/internal/clusterstate/remote_provider.go:752-780 | the first ReplicaSet listed and no other is marked current; it is of the latest revision exactly when one revision of the Deployment's ReplicaSets is both the longest and the last as a text |
| `ScreenDetails.TenthRevisionIsNotCurrent` | apps/api/internal/clusterstate/remote_provider.go:769-778 | of revisions 9 and 10, neither of which is both, the ninth is marked |
| `ScreenOrder.ProjectionForgetsOrder` | apps/api/internal/clusterstate/remote_provider.go:59-345 | for resources with unique UIDs and unique kind, namespace and name, the counts, rollups, sorted lists, lists cut to their first rows, and the one namespace, workload or pod asked for are the same for every order in which the maps are iterated |
| `ScreenScope.FindAllFinds` | apps/api/internal/clusterstate/remote_provider.go:77-106 | what the first pass leaves behind: the ReplicaSets, the workloads, and what is asked for |
| `ScreenScope.AboveIs` | apps/api/internal/clusterstate/remote_provider.go:653-666 | the workload above a pod is its first owner, or that one's own first owner when it is a ReplicaSet that has one |
| `ScreenScope.ShownIff` | apps/api/internal/clusterstate/remote_provider.go:115-178 | which pods, events and nodes belong on a screen, told from the request and the resources |
| `ScreenFigures.TotalFigures` | apps/api/internal/clusterstate/remote_provider.go:141-173 | each figure of a rollup is the number of its pods of that kind, or the sum over them |
| `ScreenFigures.TotalState` | apps/api/internal/clusterstate/remote_provider.go:168-171 | a rollup's severity is the worst of its parts', and its issues are those of its parts, each once |
| `ScreenFigures.SettledIsAlphabetical` | apps/api/internal/clusterstate/normalize.go:353-355 | issues are sorted by their texts |
| `ScreenMeaning.WorkloadRowIs` | apps/api/internal/clusterstate/remote_provider.go:607-635 | a workload's row: its own names and numbers, stalled, short or critical by its own desired and ready numbers, and the figures, severity and issues of exactly the pods that belong to it |
| `ScreenMeaning.NamespaceRowIs` | apps/api/internal/clusterstate/remote_provider.go:155-227 | a namespace's row: the figures of exactly the pods shown in it, the numbers of its workloads, and the severity and issues of both |
| `ScreenLists.WorkloadRowsAre` | apps/api/internal/clusterstate/remote_provider.go:193-328 | one row for each workload shown, the worst first, then by namespace, name, kind and UID |
| `ScreenLists.EventsAre` | apps/api/internal/clusterstate/remote_provider.go:174-268 | the events listed are the latest of exactly those that belong on the screen, up to the limit |
| `ScreenLists.UnhealthyAre` | apps/api/internal/clusterstate/remote_provider.go:233-291 | the unhealthy listed are the worst, up to the limit, of exactly the pods that are not healthy and the workloads with too few ready pods or a stalled rollout |
| `ScreenShown.FiguresAre` | apps/api/internal/clusterstate/remote_provider.go:126-153 | nodes, pods and workloads of the screen are counted as they are: ready or not, running, pending or failed, restarts, crash loops, image pulls, requests; healthy, short or stalled |
| `ScreenShown.NamespaceRowsAre` | apps/api/internal/clusterstate/remote_provider.go:292-313 | one row for each namespace of the pods and workloads shown, the worst first and then by name; and the one asked for |
| `ScreenAsked.AskedForIs` | apps/api/internal/clusterstate/remote_provider.go:225-253 | the workload or pod asked for is detailed exactly when it is shown: its row, the pods that belong to it, its ReplicaSets or owners with their numbers of pods; and the UID the screen is resolved to |
| `ScreenProjection.Scan` | apps/api/internal/clusterstate/remote_provider.go:77-106 | the first pass as specified |
| `ScreenProjection.Merge` | apps/api/internal/clusterstate/remote_provider.go:168-171 | merging issues appends those that are missing, in order |
| `ScreenProjection.AddToNamespace` | apps/api/internal/clusterstate/remote_provider.go:155-172 | adds one part to the total of a namespace, made when first met |
| `ScreenProjection.CollectPod` | apps/api/internal/clusterstate/remote_provider.go:139-173 | counts a pod, and in its namespace when namespaces are shown |
| `ScreenProjection.CollectOne` | apps/api/internal/clusterstate/remote_provider.go:125-178 | counts one node, pod or event |
| `ScreenProjection.Collect` | apps/api/internal/clusterstate/remote_provider.go:115-179 | the second pass as specified |
| `ScreenProjection.GroupByWorkload` | apps/api/internal/clusterstate/remote_provider.go:180-191 | each group has exactly the pods of that workload UID |
| `ScreenProjection.ProjectOwn` | apps/api/internal/clusterstate/remote_provider.go:607-622 | what a workload shows by itself |
| `ScreenProjection.ProjectWorkload` | apps/api/internal/clusterstate/remote_provider.go:607-635 | a workload shows its own state and the rollup of exactly the pods it owns |
| `ScreenProjection.SummariseAll` | apps/api/internal/clusterstate/remote_provider.go:193-232 | the pass over the workloads as specified, with counts, namespaces and the workload asked for |
| `ScreenProjection.ListPods` | apps/api/internal/clusterstate/remote_provider.go:711-731 | the pods a workload owns, sorted |
| `ScreenProjection.CountOwned` | apps/api/internal/clusterstate/remote_provider.go:760-766 | how many pods have that first owner |
| `ScreenProjection.ListSets` | apps/api/internal/clusterstate/remote_provider.go:752-780 | the ReplicaSets of a Deployment, sorted, the first marked current |
| `ScreenProjection.DetailOne` | apps/api/internal/clusterstate/remote_provider.go:225-232 | the workload asked for gets its pods and owners, any other changes nothing |
| `ScreenProjection.ListOwners` | apps/api/internal/clusterstate/remote_provider.go:732-751 | the owner of a pod and that one's own owner |
| `ScreenProjection.FindRow` | apps/api/internal/clusterstate/remote_provider.go:308-313 | the row of the namespace asked for |
| `ScreenProjection.OnlyPods` | apps/api/internal/clusterstate/remote_provider.go:330-335 | the unhealthy pods among the entries listed |
| `ScreenProjection.ListUnhealthy` | apps/api/internal/clusterstate/remote_provider.go:233-258 | the unhealthy pods and workloads, the number of unhealthy pods, and the pod asked for |
| `ScreenProjection.ListNamespaces` | apps/api/internal/clusterstate/remote_provider.go:292-300 | one row for each namespace, with its issues sorted |
| `ScreenProjection.ProjectScreen` | apps/api/internal/clusterstate/remote_provider.go:59-345 | the loops and the in-place sorts compute the projection for whatever orders the maps are iterated in; what it holds is told by `ScreenLists`, `ScreenShown` and `ScreenAsked` |

## Left out

- gRPC, HTTP, SQL, Redis and Kubernetes calls: streams are sequences that may be cut, Redis scripts and SQL statements are atomic steps.
- Encoding: the size of a resource is part of its value, the size of a frame is any function of what it carries (where it matters, one that does not shrink when a chunk or a number grows), and a cache key or a cursor is the value it encodes.
- Cryptography and token checking: sealing, HMAC, SHA-256, JWT verification. Random lock tokens are never drawn twice.
- Resource keys: the code joins kind and UID with a NUL byte, which no legal kind contains; here the key is the pair. Kinds are constructors, and an unknown kind carries its name.
- Fields that mean nothing while no snapshot is staged (`stageEpoch`, `stageSeq`, `stageObservedUnixMs`) are kept by the classes but are not part of what the theorems compare.
- Locks inside the classes: the classes are sequential. Interleavings are proved in `CatalogInterleaving`, `UsageAdmission` and `AuthInterleaving`; `CatalogInterleaving.AloneIsApply` ties the two for the catalogue and `AuthInterleaving.AloneIsCharged` for the login guard.
- `CatalogPods`, `NamespaceNames`, `visitPods` and `StreamEntityNamespaces`: further readers of the map already characterised.
- The back-off delays and the frame callback of `StartWatch`, readiness, health probes, log text, audit and HTTP error mapping.
- The registry's limits, its validation, its parking of deltas during a snapshot and its staleness clock; only its rule for accepting an agent's frames is modelled.
- AgentSync.Session.Run: the registry is only followed for sessions of fewer than 2^64 frames, after which delta numbers would start over and be taken for duplicates.
- SessionRefresh.EveryRunIsConsistent: versions above 2^53, which the Redis script would compare as doubles, are not modelled.
- The session index and its cap: the load script rounds its score to whole seconds, so an exact cap is not an invariant.
- The cache's typed path and its singleflight groups, and the cool-down clock after a Redis failure: a failure may strike any Redis command of any instance at any time, whether or not the command took effect.
- AuthLimits.AdmissionsAreBounded: tokens are exact reals, so the rounding of 64-bit floats is not modelled.
- AuthInterleaving.EvictionIsInvisible: requests that the global bucket refused, and the places in progress, take no part in these interleavings; `AuthLimits` has them, one request at a time.
- The other checks of a dashboard definition (identifiers, bindings, query references, options, size) and unknown properties.
- Pagination.List: a draft carries one opaque body in place of revision, schema version, definition and update time, and the cursor's signature and decoding errors are left out.
- ScreenOrder.ProjectionForgetsOrder: pruning per screen and request limits out of range are left out, and so are fields that are copied as they are (nodes, images, container details, times); resource limits are too, for their sums start from nothing and are always absent. The normalised state of a pod is taken as given, and event times are compared in whole seconds, as their texts are.
- The PostgreSQL twin of the draft store, which has the same contract; configuration parsing; the web UI; deployment and quality scripts.
