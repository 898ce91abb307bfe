/** What the catalogue answers, frame type by frame type, told from the fields of the frame, of its resources and
    of the records: which frames it takes, and what readers and the stage have afterwards. Counters are told as
    sums over the clusters. */
module CatalogAnswers {
  import opened CatalogProtocol
  import opened Options
  import opened CatalogAtomicity
  import opened CatalogAccounting
  import MapSums

  // ----- legal resources, kind by kind -----

  predicate Named(uid: string, name: string)
  {
    1 <= |uid| <= 253 && 1 <= |name| <= 253
  }

  /** An owner is a workload or a ReplicaSet. */
  predicate MayOwn(o: Owner)
  {
    o.Owner? && Named(o.uid, o.name) && o.kind in {Kind.ReplicaSet, Kind.Deployment, Kind.StatefulSet, Kind.DaemonSet, Kind.CronJob}
  }

  predicate Sized(r: Resource)
  {
    && r.Resource? && Named(r.uid, r.name) && |r.namespace| <= 253 && |r.nodeName| <= 253 && |r.owners| <= 4
    && forall o :: o in r.owners ==> MayOwn(o)
  }

  /** What a snapshot may hold: pods, on any node or none; workloads, ReplicaSets and namespaces. */
  predicate Storable(r: Resource)
  {
    && Sized(r)
    && match r.kind
       case Pod => |r.namespace| >= 1
       case ReplicaSet => |r.namespace| >= 1 && r.nodeName == ""
       case Deployment => |r.namespace| >= 1 && r.nodeName == ""
       case StatefulSet => |r.namespace| >= 1 && r.nodeName == ""
       case DaemonSet => |r.namespace| >= 1 && r.nodeName == ""
       case CronJob => |r.namespace| >= 1 && r.nodeName == ""
       case Namespace => r.namespace == "" && r.owners == [] && r.nodeName == ""
       case Node => false
       case KubeEvent => false
       case OtherKind(_) => false
  }

  /** What a delta may be about: nodes and events as well. */
  predicate Reportable(r: Resource)
  {
    || Storable(r)
    || (Sized(r) && r.kind == Node && r.namespace == "" && r.owners == [] && r.nodeName == "")
    || (Sized(r) && r.kind == KubeEvent && r.owners == [] && r.nodeName == "")
  }

  lemma LegalIff(r: Resource)
    ensures ValidResource(r, true) <==> Storable(r)
    ensures ValidResource(r, false) <==> Reportable(r)
    ensures Reportable(r) ==> (PersistentKind(r.kind) <==> Storable(r)) && KeyOf(r) == Key(r.kind, r.uid)
  {
    if r.Resource? {
      assert forall i :: 0 <= i < |r.owners| ==> (ValidOwner(r.owners[i]) <==> MayOwn(r.owners[i]));
    }
  }

  // ----- the sums -----

  ghost function Held(c: Cluster): MapSums.Counters
  {
    MapSums.Counters(
      if c.staging.Some? then |c.resources| + |c.staging.value.resources| else |c.resources|,
      if c.staging.Some? then Bytes(c.resources) + Bytes(c.staging.value.resources) else Bytes(c.resources),
      |c.resources|,
      Bytes(c.resources))
  }

  /** What all the clusters have live and staged, and what they have live. */
  ghost function InUse(cat: Catalog): MapSums.Counters
  {
    MapSums.Sum(cat.clusters, Held)
  }

  /** The counters of a balanced catalogue are these sums. */
  lemma CountersAreSums(cat: Catalog)
    requires Balanced(cat)
    ensures InUse(cat) ==
      MapSums.Counters(cat.totals.totalResources, cat.totals.totalBytes, cat.totals.liveResources, cat.totals.liveBytes)
  {
    forall c: Cluster ensures Held(c) == BookEntry(c) {
      BytesEmpty();
    }
    MapSums.SumSame(cat.clusters, Held, cat.clusters, BookEntry);
  }

  /** The encoded sizes of the resources, added up. */
  function SizesOf(rs: seq<Resource>): int
    requires forall i :: 0 <= i < |rs| ==> rs[i].Resource?
  {
    if rs == [] then 0 else SizesOf(rs[..|rs| - 1]) + rs[|rs| - 1].bytes
  }

  /** A map's size is that of its resources. */
  lemma {:induction false} BytesAreSizes(m: map<Key, Resource>, rs: seq<Resource>)
    requires IsIndexOf(m, rs)
    ensures Bytes(m) == SizesOf(rs)
    decreases |rs|
  {
    if rs == [] {
      assert m == map[];
      BytesEmpty();
    } else {
      var before, r := rs[..|rs| - 1], rs[|rs| - 1];
      IndexShrinks(m, rs);
      BytesAreSizes(m - {KeyOf(r)}, before);
      BytesRemove(m, KeyOf(r));
    }
  }

  lemma IndexShrinks(m: map<Key, Resource>, rs: seq<Resource>)
    requires rs != [] && IsIndexOf(m, rs)
    ensures var r := rs[|rs| - 1];
      r.Resource? && KeyOf(r) in m && m[KeyOf(r)] == r && IsIndexOf(m - {KeyOf(r)}, rs[..|rs| - 1])
  {
    var r := rs[|rs| - 1];
    MapSums.CountRemove(m, KeyOf(r));
  }

  // ----- the answers -----

  /** The frame is within 4 MiB and names a cluster of the catalogue. */
  predicate Reaches(cat: Catalog, f: Frame)
  {
    f.Frame? && f.bytes <= 4 * 1024 * 1024 && f.clusterId in cat.clusters
  }

  predicate Bare(f: Frame)
    requires f.Frame?
  {
    |f.resources| == 0 && f.change == NoChange
  }

  /** The frame carries the header of the snapshot being staged. */
  predicate SameHeader(c: Cluster, f: Frame)
    requires f.Frame?
  {
    && c.staging.Some? && c.staging.value.epoch == f.epoch && c.staging.value.seq_ == f.seq_
    && c.staging.value.observed == f.observed && f.observed >= 1
  }

  /** The cluster's record after the frame, and whether the frame was taken. */
  ghost function Answer(cat: Catalog, f: Frame): (Cluster, bool)
    requires Reaches(cat, f)
  {
    (ApplySpec(cat, f).0.clusters[f.clusterId], ApplySpec(cat, f).1)
  }

  /** A frame moves at most the cluster it names, and one that does not reach any moves nothing. */
  lemma OnlyItsCluster(cat: Catalog, f: Frame, id: string)
    ensures !Reaches(cat, f) ==> ApplySpec(cat, f) == (cat, false)
    ensures var after := ApplySpec(cat, f).0;
      after.limits == cat.limits && after.clusters.Keys == cat.clusters.Keys
      && (id in cat.clusters && (!f.Frame? || id != f.clusterId) ==> after.clusters[id] == cat.clusters[id])
  {
  }

  lemma ResetAnswer(cat: Catalog, f: Frame)
    requires Reaches(cat, f) && f.ftype.Reset?
    ensures var c, (d, ok) := cat.clusters[f.clusterId], Answer(cat, f);
      && (ok <==> f.epoch == 0 && f.seq_ == 0 && Bare(f))
      && d == if ok then c.(staging := None, resyncNeeded := true) else c
  {
  }

  lemma HeartbeatAnswer(cat: Catalog, f: Frame)
    requires Reaches(cat, f) && f.ftype.Heartbeat?
    ensures var c, (d, ok) := cat.clusters[f.clusterId], Answer(cat, f);
      && (ok <==> c.available && f.epoch == c.epoch && f.seq_ == c.seq_ && f.observed >= 1 && f.observed >= c.observed && Bare(f))
      && d == if ok then c.(observed := f.observed) else c
  {
  }

  lemma ExpiryAnswer(cat: Catalog, f: Frame)
    requires Reaches(cat, f) && f.ftype.Expired?
    ensures var c, (d, ok) := cat.clusters[f.clusterId], Answer(cat, f);
      && (ok <==> f.epoch == 0 && f.seq_ == 0 && f.observed >= 1 && Bare(f))
      && d == if ok then Cluster(c.epoch, c.seq_, map[], None, false, true, c.observed) else c
  {
  }

  lemma BeginAnswer(cat: Catalog, f: Frame)
    requires Reaches(cat, f) && f.ftype.SnapshotBegin?
    ensures var c, (d, ok) := cat.clusters[f.clusterId], Answer(cat, f);
      && (ok <==> f.epoch >= 1 && f.observed >= 1 && Bare(f))
      && d == if ok then c.(staging := Some(Stage(f.epoch, f.seq_, f.observed, map[]))) else c
  {
  }

  lemma UnknownAnswer(cat: Catalog, f: Frame)
    requires Reaches(cat, f) && f.ftype.UnknownType?
    ensures Answer(cat, f) == (cat.clusters[f.clusterId], false)
  {
  }

  /** The resources of a chunk may all be stored, and no two of them, staged ones included, are of one kind and UID. */
  ghost predicate NewToStage(staged: map<Key, Resource>, rs: seq<Resource>)
  {
    && (forall i :: 0 <= i < |rs| ==> Storable(rs[i]) && Key(rs[i].kind, rs[i].uid) !in staged)
    && (forall i, j :: 0 <= i < j < |rs| && rs[i].Resource? && rs[j].Resource? ==> rs[i].kind != rs[j].kind || rs[i].uid != rs[j].uid)
  }

  lemma StageableIff(staged: map<Key, Resource>, rs: seq<Resource>, max: nat)
    ensures Stageable(staged, rs, max) <==> NewToStage(staged, rs) && (rs != [] ==> |staged| + |rs| <= max)
  {
    forall r ensures ValidResource(r, true) <==> Storable(r) {
      LegalIff(r);
    }
    forall r: Resource | r.Resource? ensures KeyOf(r) == Key(r.kind, r.uid) {
    }
  }

  lemma {:induction false} SizesFromTheFront(rs: seq<Resource>)
    requires forall i :: 0 <= i < |rs| ==> rs[i].Resource?
    ensures BytesOf(rs) == SizesOf(rs)
    decreases |rs|
  {
    if |rs| == 1 {
      assert rs[1..] == [] && rs[..0] == [];
    } else if |rs| > 1 {
      SizesFromTheFront(rs[1..]);
      SizesFromTheFront(rs[..|rs| - 1]);
      SizesFromTheFront(rs[1..][..|rs| - 2]);
      assert rs[1..][..|rs| - 2] == rs[..|rs| - 1][1..];
    }
  }

  /** The stage holds what it held and the resources of the chunk, each under its kind and UID, and nothing else. */
  ghost predicate StagedOnTop(m: map<Key, Resource>, rs: seq<Resource>, m': map<Key, Resource>)
  {
    && |m'| == |m| + |rs|
    && (forall k :: k in m ==> k in m' && m'[k] == m[k])
    && (forall i :: 0 <= i < |rs| ==> rs[i].Resource? && Key(rs[i].kind, rs[i].uid) in m' && m'[Key(rs[i].kind, rs[i].uid)] == rs[i])
  }

  lemma {:induction false} StagingIsExact(m: map<Key, Resource>, rs: seq<Resource>, max: nat)
    requires StageAll(m, rs, max).Some?
    ensures StagedOnTop(m, rs, StageAll(m, rs, max).value)
    decreases |rs|
  {
    if rs != [] {
      var m' := m[KeyOf(rs[0]) := rs[0]];
      StagingIsExact(m', rs[1..], max);
      assert StageAll(m, rs, max) == StageAll(m', rs[1..], max);
      forall i | 0 <= i < |rs| ensures rs[i].Resource? && StageAll(m, rs, max).value[Key(rs[i].kind, rs[i].uid)] == rs[i] {
        assert i > 0 ==> rs[i] == rs[1..][i - 1];
      }
    }
  }

  /** There is room to retain the chunk beside all that the clusters have live and staged. */
  ghost predicate RetainedRoom(cat: Catalog, rs: seq<Resource>)
    requires forall i :: 0 <= i < |rs| ==> rs[i].Resource?
  {
    InUse(cat).items + |rs| <= cat.limits.maxRetained && InUse(cat).bytes + SizesOf(rs) <= cat.limits.maxRetainedBytes
  }

  /** A chunk is taken exactly when it belongs to the snapshot being staged, has 1 to 1000 resources, each of them
      legal and new to the stage, the stage stays within the bound, and there is room to retain it; then the stage
      grows by exactly it. Any other chunk drops the stage. What is served stays. */
  lemma ChunkAnswer(cat: Catalog, f: Frame)
    requires Balanced(cat) && Reaches(cat, f) && f.ftype.SnapshotChunk?
    ensures var c, (d, ok) := cat.clusters[f.clusterId], Answer(cat, f);
      && (ok <==>
            && SameHeader(c, f) && 1 <= |f.resources| <= 1000 && f.change == NoChange
            && NewToStage(c.staging.value.resources, f.resources)
            && |c.staging.value.resources| + |f.resources| <= cat.limits.max && RetainedRoom(cat, f.resources))
      && d == c.(staging := d.staging) && (!ok ==> d.staging == None)
      && (ok ==>
            && d.staging.Some? && d.staging.value == c.staging.value.(resources := d.staging.value.resources)
            && StagedOnTop(c.staging.value.resources, f.resources, d.staging.value.resources))
  {
    var c := cat.clusters[f.clusterId];
    CountersAreSums(cat);
    if c.staging.Some? {
      var staged := c.staging.value.resources;
      StageAllIff(staged, f.resources, cat.limits.max);
      StageableIff(staged, f.resources, cat.limits.max);
      if NewToStage(staged, f.resources) {
        SizesFromTheFront(f.resources);
      }
      if StageAll(staged, f.resources, cat.limits.max).Some? {
        StagingIsExact(staged, f.resources, cat.limits.max);
      }
    }
  }

  /** There is live room for the stage in place of what the cluster serves now. */
  ghost predicate LiveRoom(cat: Catalog, c: Cluster)
    requires c.staging.Some?
  {
    && InUse(cat).items2 - |c.resources| + |c.staging.value.resources| <= cat.limits.max
    && InUse(cat).bytes2 - Bytes(c.resources) + Bytes(c.staging.value.resources) <= cat.limits.maxBytes
  }

  /** A commit is taken exactly when it belongs to the snapshot being staged and the stage fits under the live
      limits in place of the old map; then the stage is what is served, under the frame's header. Any other commit
      drops the stage. */
  lemma CommitAnswer(cat: Catalog, f: Frame)
    requires Balanced(cat) && Reaches(cat, f) && f.ftype.SnapshotCommit?
    ensures var c, (d, ok) := cat.clusters[f.clusterId], Answer(cat, f);
      && (ok <==> SameHeader(c, f) && Bare(f) && LiveRoom(cat, c))
      && d == if ok then Cluster(f.epoch, f.seq_, c.staging.value.resources, None, true, false, f.observed) else c.(staging := None)
  {
    CountersAreSums(cat);
  }

  /** The change is the source's own and the frame says so. */
  predicate DeltaHeader(c: Cluster, f: Frame)
    requires f.Frame?
  {
    && c.available && !c.resyncNeeded && f.observed >= 1 && f.observed >= c.observed && |f.resources| == 0
    && f.change.Change? && f.change.epoch == f.epoch == c.epoch && f.change.seq_ == f.seq_
    && f.change.action in {Action.Created, Action.Updated, Action.Deleted} && Reportable(f.change.resource)
  }

  /** There is room, live and retained, for one more resource, or for a larger one in place of the old. */
  ghost predicate RoomToPut(cat: Catalog, m: map<Key, Resource>, r: Resource)
    requires r.Resource?
  {
    var k := Key(r.kind, r.uid);
    var count, bytes := if k in m then 0 else 1, if k in m && m[k].Resource? then r.bytes - m[k].bytes else r.bytes;
    && InUse(cat).items + count <= cat.limits.maxRetained && InUse(cat).bytes + bytes <= cat.limits.maxRetainedBytes
    && InUse(cat).items2 + count <= cat.limits.max && InUse(cat).bytes2 + bytes <= cat.limits.maxBytes
  }

  /** What the next delta must meet: only what is absent is created, only what is there is updated or deleted, and
      there is room. Nodes and events are not kept and need nothing. */
  predicate Possible(m: map<Key, Resource>, d: Change, room: bool)
    requires d.Change? && d.resource.Resource?
  {
    var k := Key(d.resource.kind, d.resource.uid);
    || d.resource.kind == Node || d.resource.kind == KubeEvent
    || (d.action.Created? && k !in m && room)
    || (d.action.Updated? && k in m && room)
    || (d.action.Deleted? && k in m)
  }

  /** m after the change: at most one key differs. */
  function Edited(m: map<Key, Resource>, d: Change): map<Key, Resource>
    requires d.Change? && d.resource.Resource?
  {
    var k := Key(d.resource.kind, d.resource.uid);
    if d.resource.kind == Node || d.resource.kind == KubeEvent then m
    else if d.action.Deleted? then map x | x in m && x != k :: m[x]
    else map x | x in m.Keys + {k} :: if x == k then d.resource else m[x]
  }

  lemma EditedIsChanged(m: map<Key, Resource>, d: Change)
    requires d.Change? && d.resource.Resource? && Reportable(d.resource)
    ensures Edited(m, d) == Changed(m, d)
  {
  }

  lemma RoomIff(cat: Catalog, m: map<Key, Resource>, r: Resource)
    requires Balanced(cat) && r.Resource?
    ensures PutFits(cat.limits, cat.totals, m, r) <==> RoomToPut(cat, m, r)
  {
    CountersAreSums(cat);
  }

  /** What becomes of a cluster, and of the frame, for either answer about room. */
  ghost predicate DeltaOutcome(c: Cluster, f: Frame, room: bool, d: Cluster, ok: bool)
    requires f.Frame?
  {
    && (ok <==> DeltaHeader(c, f) && (f.seq_ <= c.seq_ || (f.seq_ == c.seq_ + 1 && Possible(c.resources, f.change, room))))
    && d == if !DeltaHeader(c, f) || f.seq_ <= c.seq_ then c
            else if f.seq_ > c.seq_ + 1 then c.(staging := None, resyncNeeded := true)
            else if !Possible(c.resources, f.change, room) then c
            else c.(resources := Edited(c.resources, f.change), seq_ := f.seq_, observed := f.observed)
  }

  lemma DeltaStep(c: Cluster, f: Frame, max: nat, granted: bool)
    requires f.Frame? && f.ftype.Delta?
    ensures var (d, ok) := Next(c, f, max, granted); DeltaOutcome(c, f, granted, d, ok)
  {
    if f.change.Change? {
      LegalIff(f.change.resource);
      if Reportable(f.change.resource) {
        EditedIsChanged(c.resources, f.change);
      }
    }
  }

  /** A delta with the cluster's epoch is taken when it repeats an older number, changing nothing, or has the next
      number and is possible, changing one key; one that skips a number makes the cluster ask for a resync and
      drops the stage; any other refused delta changes nothing. */
  lemma DeltaAnswer(cat: Catalog, f: Frame)
    requires Balanced(cat) && Reaches(cat, f) && f.ftype.Delta?
    ensures var c, (d, ok) := cat.clusters[f.clusterId], Answer(cat, f);
      DeltaOutcome(c, f, f.change.Change? && f.change.resource.Resource? ==> RoomToPut(cat, c.resources, f.change.resource), d, ok)
  {
    var c := cat.clusters[f.clusterId];
    if f.change.Change? && f.change.resource.Resource? {
      RoomIff(cat, c.resources, f.change.resource);
    }
    DeltaStep(c, f, cat.limits.max, Granted(cat.limits, cat.totals, c, f));
  }
}
