/** The catalogue as the API server keeps it: one record per cluster updated in place, four shared counters
    adjusted piecemeal at every exit. Its Apply is proved against CatalogAccounting.ApplySpec. */
module RemoteCatalogStore {
  import opened CatalogProtocol
  import opened Options
  import opened CatalogAccounting
  import MapSums

  predicate ClusterIdEdge(ch: char)
  {
    'a' <= ch <= 'z' || '0' <= ch <= '9'
  }

  predicate ValidClusterId(id: string)
  {
    && 1 <= |id| <= 63
    && ClusterIdEdge(id[0]) && ClusterIdEdge(id[|id| - 1])
    && forall i :: 0 <= i < |id| ==> ClusterIdEdge(id[i]) || id[i] in "._-"
  }

  /** One of the classes of the pattern. */
  predicate InClass(ch: char, inner: bool)
  {
    'a' <= ch <= 'z' || '0' <= ch <= '9' || (inner && (ch == '.' || ch == '_' || ch == '-'))
  }

  predicate Between(id: string, middle: string)
  {
    && |middle| <= 61 && (forall i :: 0 <= i < |middle| ==> InClass(middle[i], true))
    && |id| == |middle| + 2 && id[1..|id| - 1] == middle
  }

  /** The pattern of a cluster ID: one letter or digit, or two with up to 61 letters, digits, dots, underscores and
      hyphens between them. */
  ghost predicate MatchesPattern(id: string)
  {
    && |id| > 0 && InClass(id[0], false) && InClass(id[|id| - 1], false)
    && (|id| == 1 || exists middle :: Between(id, middle))
  }

  lemma ClusterIdIff(id: string)
    ensures ValidClusterId(id) <==> MatchesPattern(id)
  {
    if ValidClusterId(id) && |id| > 1 {
      assert Between(id, id[1..|id| - 1]);
    }
    if MatchesPattern(id) && |id| > 1 {
      var middle :| Between(id, middle);
      forall i | 0 <= i < |id| ensures ClusterIdEdge(id[i]) || id[i] in "._-" {
        if 0 < i < |id| - 1 {
          assert id[i] == middle[i - 1];
        }
      }
    }
  }

  function IdSet(ids: seq<string>): set<string>
  {
    set id | id in ids
  }

  /** The cluster lists and resource bounds a catalogue can be made for. */
  predicate ValidSetup(ids: seq<string>, maxResources: int)
  {
    && 1 <= |ids| <= 64 && 1 <= maxResources <= 100_000
    && (forall i :: 0 <= i < |ids| ==> ValidClusterId(ids[i]))
    && (forall i, j :: 0 <= i < j < |ids| ==> ids[i] != ids[j])
  }

  /** A cluster's share of the shared counters. */
  function Share(resources: map<Key, Resource>, staging: Option<map<Key, Resource>>, stageBytes: int, liveBytes: int): Totals
  {
    Totals(|resources| + (if staging.None? then 0 else |staging.value|), liveBytes + stageBytes, |resources|, liveBytes)
  }

  class RemoteCatalogCluster {
    var epoch: UInt64
    var seq_: UInt64
    var resources: map<Key, Resource>
    var staging: Option<map<Key, Resource>>
    var stageEpoch: UInt64
    var stageSeq: UInt64
    var stageBytes: int
    var stageObserved: int
    var liveBytes: int
    var available: bool
    var resyncNeeded: bool
    var observed: int

    constructor ()
      ensures Valid() && View() == EmptyCluster
    {
      epoch, seq_, resources, staging := 0, 0, map[], None;
      stageEpoch, stageSeq, stageBytes, stageObserved, liveBytes := 0, 0, 0, 0, 0;
      available, resyncNeeded, observed := false, false, 0;
      BytesEmpty();
    }

    /** The byte counters are the sizes of the maps they stand for. */
    ghost predicate Valid()
      reads this
    {
      liveBytes == Bytes(resources) && stageBytes == if staging.None? then 0 else Bytes(staging.value)
    }

    lemma ShareIsBooks()
      requires Valid()
      ensures Share(resources, staging, stageBytes, liveBytes) == Books(View())
    {
      BytesEmpty();
    }

    ghost function View(): Cluster
      reads this
    {
      var stage := if staging.None? then None else Some(Stage(stageEpoch, stageSeq, stageObserved, staging.value));
      Cluster(epoch, seq_, resources, stage, available, resyncNeeded, observed)
    }
  }

  class RemoteCatalog {
    const clusters: map<string, RemoteCatalogCluster>
    const limits: Limits
    var totalResources: int
    var totalBytes: int
    var liveResources: int
    var liveBytes: int

    constructor (clusters: map<string, RemoteCatalogCluster>, limits: Limits)
      ensures this.clusters == clusters && this.limits == limits
      ensures Counters() == Totals(0, 0, 0, 0)
    {
      this.clusters, this.limits := clusters, limits;
      totalResources, totalBytes, liveResources, liveBytes := 0, 0, 0, 0;
    }

    ghost predicate Valid()
      reads this, clusters.Values
    {
      && (forall i, j :: i in clusters && j in clusters && i != j ==> clusters[i] != clusters[j])
      && (forall i :: i in clusters ==> clusters[i].Valid())
    }

    ghost function Counters(): Totals
      reads this
    {
      Totals(totalResources, totalBytes, liveResources, liveBytes)
    }

    /** What the counters hold on account of everyone but c. */
    ghost function Rest(c: RemoteCatalogCluster): Totals
      reads this, c
    {
      Minus(Counters(), Share(c.resources, c.staging, c.stageBytes, c.liveBytes))
    }

    ghost function View(): Catalog
      reads this, clusters.Values
    {
      Catalog(map id | id in clusters :: clusters[id].View(), limits, Counters())
    }

    /** Drops the stage, if any, and gives its share back. */
    method ReleaseStage(c: RemoteCatalogCluster)
      requires c.Valid()
      modifies this, c
      ensures c.Valid() && c.View() == Unstaged(old(c.View()))
      ensures Rest(c) == old(Rest(c))
    {
      if c.staging.None? {
        return;
      }
      totalResources := totalResources - |c.staging.value|;
      totalBytes := totalBytes - c.stageBytes;
      c.staging := None;
      c.stageBytes := 0;
    }

    /** Drops the stage and gives the share of the live map back; the caller clears the map. */
    method ReleaseCatalog(c: RemoteCatalogCluster)
      requires c.Valid()
      modifies this, c
      ensures c.liveBytes == 0 && c.stageBytes == 0 && c.View() == Unstaged(old(c.View()))
      ensures Counters() == old(Rest(c))
    {
      ReleaseStage(c);
      BytesEmpty();
      totalResources := totalResources - |c.resources|;
      totalBytes := totalBytes - c.liveBytes;
      liveResources := liveResources - |c.resources|;
      liveBytes := liveBytes - c.liveBytes;
      c.liveBytes := 0;
    }

    /** Drops the stage and opens an empty one. */
    method Open(c: RemoteCatalogCluster, f: Frame)
      requires c.Valid() && f.Frame?
      modifies this, c
      ensures c.Valid() && Rest(c) == old(Rest(c))
      ensures c.View() == old(c.View()).(staging := Some(Stage(f.epoch, f.seq_, f.observed, map[])))
    {
      ReleaseStage(c);
      BytesEmpty();
      c.staging := Some(map[]);
      c.stageEpoch := f.epoch;
      c.stageSeq := f.seq_;
      c.stageBytes := 0;
      c.stageObserved := f.observed;
    }

    /** Withdraws the cluster: no stage, no map, not available. */
    method Withdraw(c: RemoteCatalogCluster)
      requires c.Valid()
      modifies this, c
      ensures c.Valid() && Rest(c) == old(Rest(c))
      ensures c.View() == Unstaged(old(c.View())).(resources := map[], available := false, resyncNeeded := true)
    {
      ReleaseCatalog(c);
      BytesEmpty();
      c.resources := map[];
      c.available := false;
      c.resyncNeeded := true;
    }

    /** Checks, books and stages one resource. A refusal changes nothing here; the caller drops the stage. */
    method StageOne(c: RemoteCatalogCluster, r: Resource) returns (ok: bool)
      requires c.Valid() && c.staging.Some?
      modifies this, c
      ensures c.Valid() && c.staging.Some?
      ensures ok <==>
        && ValidResource(r, true) && KeyOf(r) !in old(c.staging.value) && |old(c.staging.value)| < limits.max
        && old(totalResources) + 1 <= limits.maxRetained && old(totalBytes) + r.bytes <= limits.maxRetainedBytes
      ensures c.View() == old(c.View()).(staging := Some(old(c.View()).staging.value.(resources := c.staging.value)))
      ensures c.liveBytes == old(c.liveBytes)
      ensures
        if ok then
          && c.staging.value == old(c.staging.value)[KeyOf(r) := r] && c.stageBytes == old(c.stageBytes) + r.bytes
          && Counters() == Plus(old(Counters()), Totals(1, r.bytes, 0, 0))
        else c.staging == old(c.staging) && c.stageBytes == old(c.stageBytes) && Counters() == old(Counters())
    {
      if !ValidResource(r, true) || KeyOf(r) in c.staging.value || |c.staging.value| >= limits.max {
        return false;
      }
      if totalResources + 1 > limits.maxRetained || totalBytes + r.bytes > limits.maxRetainedBytes {
        return false;
      }
      BytesPut(c.staging.value, KeyOf(r), r);
      totalResources := totalResources + 1;
      totalBytes := totalBytes + r.bytes;
      c.stageBytes := c.stageBytes + r.bytes;
      c.staging := Some(c.staging.value[KeyOf(r) := r]);
      return true;
    }

    /** Stages the resources of a chunk one by one, stopping at the first refusal. */
    method StageEach(c: RemoteCatalogCluster, rs: seq<Resource>) returns (ok: bool)
      requires c.Valid() && c.staging.Some? && rs != []
      modifies this, c
      ensures c.Valid() && c.staging.Some? && Rest(c) == old(Rest(c))
      ensures c.View() == old(c.View()).(staging := Some(old(c.View()).staging.value.(resources := c.staging.value)))
      ensures
        var all := StageAll(old(c.staging.value), rs, limits.max);
        (ok <==> all.Some? && ChunkFits(limits, old(Counters()), rs)) && (ok ==> c.staging == all)
    {
      var i := 0;
      while i < |rs|
        invariant 0 <= i <= |rs|
        invariant c.Valid() && c.staging.Some? && Rest(c) == old(Rest(c))
        invariant c.View() == old(c.View()).(staging := Some(old(c.View()).staging.value.(resources := c.staging.value)))
        invariant StageAll(old(c.staging.value), rs, limits.max) == StageAll(c.staging.value, rs[i..], limits.max)
        invariant totalResources == old(totalResources) + i
        invariant totalBytes == old(totalBytes) + BytesOf(rs) - BytesOf(rs[i..])
        invariant i > 0 ==> totalResources <= limits.maxRetained && totalBytes <= limits.maxRetainedBytes
      {
        StageStep(c.staging.value, rs, i, limits.max);
        ok := StageOne(c, rs[i]);
        if !ok {
          return;
        }
        i := i + 1;
      }
      return true;
    }

    /** The chunk exit: a chunk is staged whole, or the stage is lost. */
    method ApplyChunk(c: RemoteCatalogCluster, f: Frame) returns (ok: bool)
      requires c.Valid() && f.Frame? && f.ftype.SnapshotChunk?
      modifies this, c
      ensures c.Valid()
      ensures (c.View(), ok) == NextChunk(old(c.View()), f, limits.max, ChunkFits(limits, old(Counters()), f.resources))
      ensures Rest(c) == old(Rest(c))
    {
      if c.staging.None? || c.stageEpoch != f.epoch || c.stageSeq != f.seq_ || c.stageObserved != f.observed
         || f.observed <= 0 || |f.resources| == 0 || |f.resources| > MaxChunkResources || !f.change.NoChange? {
        ok := false;
      } else {
        ok := StageEach(c, f.resources);
      }
      if !ok {
        ReleaseStage(c);
      }
    }

    /** Books the stage as live and gives the old map's share back. */
    method BookSwap(c: RemoteCatalogCluster)
      requires c.staging.Some?
      modifies this
      ensures Counters() == Plus(old(Rest(c)), Share(c.staging.value, None, 0, c.stageBytes))
    {
      totalResources := totalResources - |c.resources|;
      totalBytes := totalBytes - c.liveBytes;
      liveResources := liveResources + |c.staging.value| - |c.resources|;
      liveBytes := liveBytes + c.stageBytes - c.liveBytes;
    }

    /** Makes the stage live and gives the old map's share back. */
    method Swap(c: RemoteCatalogCluster, f: Frame)
      requires c.Valid() && f.Frame? && c.staging.Some?
      modifies this, c
      ensures c.Valid()
      ensures c.View() == Cluster(f.epoch, f.seq_, old(c.staging.value), None, true, false, f.observed)
      ensures Rest(c) == old(Rest(c))
    {
      BookSwap(c);
      c.resources, c.epoch, c.seq_ := c.staging.value, f.epoch, f.seq_;
      c.liveBytes := c.stageBytes;
      c.available := true;
      c.resyncNeeded := false;
      c.observed := f.observed;
      c.staging := None;
      c.stageBytes := 0;
    }

    /** The commit exit: the stage replaces the live map. */
    method ApplyCommit(c: RemoteCatalogCluster, f: Frame) returns (ok: bool)
      requires c.Valid() && f.Frame? && f.ftype.SnapshotCommit?
      modifies this, c
      ensures c.Valid()
      ensures (c.View(), ok) == NextCommit(old(c.View()), f, CommitFits(limits, old(Counters()), old(c.View())))
      ensures Rest(c) == old(Rest(c))
    {
      if c.staging.None? || c.stageEpoch != f.epoch || c.stageSeq != f.seq_ || c.stageObserved != f.observed
         || f.observed <= 0 || |f.resources| != 0 || !f.change.NoChange?
         || liveResources - |c.resources| + |c.staging.value| > limits.max
         || liveBytes - c.liveBytes + c.stageBytes > limits.maxBytes {
        ReleaseStage(c);
        return false;
      }
      Swap(c, f);
      return true;
    }

    /** Deletes one live resource. */
    method Drop(c: RemoteCatalogCluster, key: Key)
      requires c.Valid() && key in c.resources
      modifies this, c
      ensures c.Valid() && c.View() == old(c.View()).(resources := old(c.resources) - {key})
      ensures Rest(c) == old(Rest(c))
    {
      BytesRemove(c.resources, key);
      MapSums.CountRemove(c.resources, key);
      var oldSize := Size(c.resources[key]);
      c.resources := c.resources - {key};
      totalResources := totalResources - 1;
      totalBytes := totalBytes - oldSize;
      liveResources := liveResources - 1;
      liveBytes := liveBytes - oldSize;
      c.liveBytes := c.liveBytes - oldSize;
    }

    /** Creates or replaces one live resource, if all four caps leave room. */
    method Put(c: RemoteCatalogCluster, r: Resource) returns (room: bool)
      requires c.Valid() && r.Resource?
      modifies this, c
      ensures c.Valid()
      ensures room == PutFits(limits, old(Counters()), old(c.resources), r)
      ensures c.View() == if room then old(c.View()).(resources := old(c.resources)[KeyOf(r) := r]) else old(c.View())
      ensures Rest(c) == old(Rest(c))
    {
      var key := KeyOf(r);
      var exists_ := key in c.resources;
      var oldSize := if exists_ then Size(c.resources[key]) else 0;
      var newSize := r.bytes;
      var resourceDelta := if exists_ then 0 else 1;
      if liveResources + resourceDelta > limits.max || liveBytes - oldSize + newSize > limits.maxBytes
         || totalResources + resourceDelta > limits.maxRetained
         || totalBytes - oldSize + newSize > limits.maxRetainedBytes {
        return false;
      }
      BytesPut(c.resources, key, r);
      totalResources := totalResources + resourceDelta;
      totalBytes := totalBytes + newSize - oldSize;
      liveResources := liveResources + resourceDelta;
      liveBytes := liveBytes + newSize - oldSize;
      c.liveBytes := c.liveBytes + newSize - oldSize;
      c.resources := c.resources[key := r];
      return true;
    }

    /** The delta exit: refusals, replays and gaps first, then one key of the live map. */
    method ApplyDelta(c: RemoteCatalogCluster, f: Frame) returns (ok: bool)
      requires c.Valid() && f.Frame? && f.ftype.Delta?
      modifies this, c
      ensures c.Valid()
      ensures (c.View(), ok) ==
        NextDelta(old(c.View()), f,
                  f.change.Change? && f.change.resource.Resource?
                  && PutFits(limits, old(Counters()), old(c.resources), f.change.resource))
      ensures Rest(c) == old(Rest(c))
    {
      var d := f.change;
      if !c.available || c.resyncNeeded || f.observed <= 0 || f.observed < c.observed || |f.resources| != 0
         || !d.Change? || d.epoch != f.epoch || d.seq_ != f.seq_ || d.epoch != c.epoch || d.action.Unspecified?
         || !ValidResource(d.resource, false) {
        return false;
      }
      if d.seq_ <= c.seq_ {
        return true;
      }
      if d.seq_ != c.seq_ + 1 {
        ReleaseStage(c);
        c.resyncNeeded := true;
        return false;
      }
      if PersistentKind(d.resource.kind) {
        var key := KeyOf(d.resource);
        var exists_ := key in c.resources;
        if (d.action.Created? && exists_) || (!d.action.Created? && !exists_) {
          return false;
        }
        if d.action.Deleted? {
          Drop(c, key);
        } else {
          var room := Put(c, d.resource);
          if !room {
            return false;
          }
        }
      }
      c.seq_ := d.seq_;
      c.observed := f.observed;
      return true;
    }

    /** One frame on its own cluster. */
    method ApplyTo(c: RemoteCatalogCluster, f: Frame) returns (ok: bool)
      requires c.Valid() && f.Frame?
      modifies this, c
      ensures c.Valid()
      ensures (c.View(), ok) == Next(old(c.View()), f, limits.max, Granted(limits, old(Counters()), old(c.View()), f))
      ensures Rest(c) == old(Rest(c))
    {
      match f.ftype
      case Reset =>
        if f.epoch != 0 || f.seq_ != 0 || |f.resources| != 0 || !f.change.NoChange? {
          return false;
        }
        ReleaseStage(c);
        c.resyncNeeded := true;
        return true;
      case Heartbeat =>
        if |f.resources| != 0 || !f.change.NoChange? || !c.available || f.epoch != c.epoch || f.seq_ != c.seq_
           || f.observed <= 0 || f.observed < c.observed {
          return false;
        }
        c.observed := f.observed;
        return true;
      case Expired =>
        if f.epoch != 0 || f.seq_ != 0 || f.observed <= 0 || |f.resources| != 0 || !f.change.NoChange? {
          return false;
        }
        Withdraw(c);
        return true;
      case SnapshotBegin =>
        if f.epoch == 0 || f.observed <= 0 || |f.resources| != 0 || !f.change.NoChange? {
          return false;
        }
        Open(c, f);
        return true;
      case SnapshotChunk =>
        ok := ApplyChunk(c, f);
      case SnapshotCommit =>
        ok := ApplyCommit(c, f);
      case Delta =>
        ok := ApplyDelta(c, f);
      case UnknownType =>
        return false;
    }

    method ApplyBooked(c: RemoteCatalogCluster, f: Frame) returns (ok: bool)
      requires c.Valid() && f.Frame?
      modifies this, c
      ensures c.Valid()
      ensures (c.View(), ok) == Next(old(c.View()), f, limits.max, Granted(limits, old(Counters()), old(c.View()), f))
      ensures Counters() == Plus(old(Counters()), Minus(Books(c.View()), Books(old(c.View()))))
    {
      c.ShareIsBooks();
      ok := ApplyTo(c, f);
      c.ShareIsBooks();
    }

    /** When one record alone has changed, the rest of the catalogue is as it was. */
    twostate lemma OnlyOneMoved(id: string)
      requires old(Valid()) && id in clusters && clusters[id].Valid()
      requires forall i :: i in clusters && i != id ==> unchanged(clusters[i])
      ensures Valid() && View().clusters == old(View().clusters)[id := clusters[id].View()]
    {
      forall i | i in clusters && i != id ensures clusters[i].Valid() && clusters[i].View() == old(clusters[i].View()) {
        assert unchanged(clusters[i]) && old(clusters[i].Valid());
      }
    }

    /** Applies one frame to the cluster of that name; the others keep their records. */
    method ApplyAt(id: string, f: Frame) returns (ok: bool)
      requires Valid() && id in clusters && f.Frame?
      modifies this, clusters[id]
      ensures Valid()
      ensures View().clusters == old(View().clusters)[id := clusters[id].View()]
      ensures (clusters[id].View(), ok)
           == Next(old(clusters[id].View()), f, limits.max, Granted(limits, old(Counters()), old(clusters[id].View()), f))
      ensures Counters() == Plus(old(Counters()), Minus(Books(clusters[id].View()), Books(old(clusters[id].View()))))
    {
      ok := ApplyBooked(clusters[id], f);
      OnlyOneMoved(id);
    }

    /** Applies one frame, whatever it is. */
    method Apply(f: Frame) returns (ok: bool)
      requires Valid()
      modifies this, clusters.Values
      ensures Valid()
      ensures (View(), ok) == ApplySpec(old(View()), f)
    {
      if f.NilFrame? || f.bytes > MaxFrameBytes || f.clusterId !in clusters {
        return false;
      }
      assert clusters[f.clusterId] in clusters.Values;
      ghost var before := View();
      ok := ApplyAt(f.clusterId, f);
      SpecOf(before, f, clusters[f.clusterId].View(), ok);
    }

    method Available(id: string) returns (r: bool)
      requires Valid()
      ensures r <==> id in clusters && Visible(clusters[id].View()).Some?
    {
      r := id in clusters && clusters[id].available;
    }

    /** Whether the served map of the cluster has a Pod of that UID. */
    method HasPodUID(id: string, uid: string) returns (r: bool)
      requires Valid()
      ensures r <==> id in clusters && Visible(clusters[id].View()).Some?
                     && Key(Pod, uid) in Visible(clusters[id].View()).value
    {
      if id !in clusters || !clusters[id].available {
        return false;
      }
      return Key(Pod, uid) in clusters[id].resources;
    }

    method Retained() returns (resources: int, bytes: int)
      ensures resources == Counters().totalResources && bytes == Counters().totalBytes
    {
      return totalResources, totalBytes;
    }
  }

  ghost predicate FreshAndEmpty(clusters: map<string, RemoteCatalogCluster>)
    reads clusters.Values
  {
    && (forall id :: id in clusters ==> clusters[id].Valid() && clusters[id].View() == EmptyCluster)
    && (forall a, b :: a in clusters && b in clusters && a != b ==> clusters[a] != clusters[b])
  }

  /** One empty record per cluster ID, unless an ID is illegal or repeated. */
  method MakeClusters(ids: seq<string>) returns (ok: bool, clusters: map<string, RemoteCatalogCluster>)
    ensures ok <==>
      && (forall i :: 0 <= i < |ids| ==> ValidClusterId(ids[i]))
      && (forall i, j :: 0 <= i < j < |ids| ==> ids[i] != ids[j])
    ensures forall id :: id in clusters ==> fresh(clusters[id])
    ensures FreshAndEmpty(clusters)
    ensures ok ==> clusters.Keys == IdSet(ids)
  {
    clusters := map[];
    var i := 0;
    while i < |ids|
      invariant 0 <= i <= |ids|
      invariant forall k :: 0 <= k < i ==> ValidClusterId(ids[k])
      invariant forall k, l :: 0 <= k < l < i ==> ids[k] != ids[l]
      invariant clusters.Keys == IdSet(ids[..i])
      invariant forall id :: id in clusters ==> fresh(clusters[id])
      invariant FreshAndEmpty(clusters)
    {
      if !ValidClusterId(ids[i]) || ids[i] in clusters {
        return false, clusters;
      }
      assert ids[i] !in ids[..i] && ids[..i + 1] == ids[..i] + [ids[i]];
      var c := new RemoteCatalogCluster();
      clusters := clusters[ids[i] := c];
      i := i + 1;
    }
    assert ids[..i] == ids;
    return true, clusters;
  }

  /** Makes the catalogue of the given clusters, or nothing when the setup is not legal. */
  method NewRemoteCatalog(ids: seq<string>, maxResources: int) returns (r: RemoteCatalog?)
    ensures r == null <==> !ValidSetup(ids, maxResources)
    ensures r != null ==>
      && fresh(r) && fresh(r.clusters.Values) && r.Valid()
      && r.View() == NewCatalog(IdSet(ids), maxResources)
      && r.View().limits == Limits(maxResources, 64 * 1024 * 1024, 2 * maxResources, 128 * 1024 * 1024)
  {
    r := null;
    if |ids| == 0 || |ids| > 64 || maxResources < 1 || maxResources > 100_000 {
      return;
    }
    var ok, clusters := MakeClusters(ids);
    if ok {
      r := new RemoteCatalog(clusters, LimitsFor(maxResources));
    }
  }

  lemma SpecOf(cat: Catalog, f: Frame, d: Cluster, ok: bool)
    requires Addressed(cat, f)
    requires var c := cat.clusters[f.clusterId];
      (d, ok) == Next(c, f, cat.limits.max, Granted(cat.limits, cat.totals, c, f))
    ensures ApplySpec(cat, f) ==
      (cat.(clusters := cat.clusters[f.clusterId := d],
            totals := Plus(cat.totals, Minus(Books(d), Books(cat.clusters[f.clusterId])))), ok)
  {
  }

  /** Staging the rest of a chunk begins with its first resource. */
  lemma StageStep(m: map<Key, Resource>, rs: seq<Resource>, i: nat, max: nat)
    requires i < |rs|
    ensures BytesOf(rs[i..]) == Size(rs[i]) + BytesOf(rs[i + 1..]) && 0 <= BytesOf(rs[i + 1..])
    ensures StageAll(m, rs[i..], max) ==
      if !ValidResource(rs[i], true) || KeyOf(rs[i]) in m || |m| >= max then None
      else StageAll(m[KeyOf(rs[i]) := rs[i]], rs[i + 1..], max)
  {
    assert rs[i..][0] == rs[i] && rs[i..][1..] == rs[i + 1..];
    BytesOfNonNegative(rs[i + 1..]);
  }
}
