/** The whole catalogue: all clusters plus the four counters they share, and what one frame does to it. */
module CatalogAccounting {
  import opened CatalogProtocol
  import opened Options
  import MapSums

  const LiveByteCap := 0x400_0000
  const RetainedByteCap := 0x800_0000

  datatype Limits = Limits(max: nat, maxBytes: nat, maxRetained: nat, maxRetainedBytes: nat)

  /** Counts and bytes: `total` counts live and staged resources, `live` only live ones. */
  datatype Totals = Totals(totalResources: int, totalBytes: int, liveResources: int, liveBytes: int)

  datatype Catalog = Catalog(clusters: map<string, Cluster>, limits: Limits, totals: Totals)

  function LimitsFor(maxResources: nat): Limits
  {
    Limits(maxResources, LiveByteCap, maxResources * 2, RetainedByteCap)
  }

  function Plus(a: Totals, b: Totals): Totals
  {
    Totals(a.totalResources + b.totalResources, a.totalBytes + b.totalBytes,
           a.liveResources + b.liveResources, a.liveBytes + b.liveBytes)
  }

  function Minus(a: Totals, b: Totals): Totals
  {
    Totals(a.totalResources - b.totalResources, a.totalBytes - b.totalBytes,
           a.liveResources - b.liveResources, a.liveBytes - b.liveBytes)
  }

  // ----- sizes -----

  function Size(r: Resource): int
  {
    if r.Resource? then r.bytes else 0
  }

  ghost function Weight(r: Resource): MapSums.Counters
  {
    MapSums.Counters(1, Size(r), 0, 0)
  }

  /** The encoded size of a resource map. */
  ghost function Bytes(m: map<Key, Resource>): int
  {
    MapSums.Sum(m, Weight).bytes
  }

  ghost function BytesOf(rs: seq<Resource>): int
  {
    if rs == [] then 0 else Size(rs[0]) + BytesOf(rs[1..])
  }

  lemma BytesNonNegative(m: map<Key, Resource>)
    ensures 0 <= Bytes(m)
  {
    MapSums.SumNonNegative(m, Weight);
  }

  lemma {:induction false} BytesOfNonNegative(rs: seq<Resource>)
    ensures 0 <= BytesOf(rs)
    decreases |rs|
  {
    if rs != [] {
      BytesOfNonNegative(rs[1..]);
    }
  }

  lemma BytesPut(m: map<Key, Resource>, k: Key, r: Resource)
    ensures Bytes(m[k := r]) == Bytes(m) - (if k in m then Size(m[k]) else 0) + Size(r)
  {
    MapSums.SumUpdate(m, Weight, k, r);
  }

  lemma BytesRemove(m: map<Key, Resource>, k: Key)
    requires k in m
    ensures Bytes(m - {k}) == Bytes(m) - Size(m[k])
  {
    MapSums.SumRemove(m, Weight, k);
  }

  lemma BytesEmpty()
    ensures Bytes(map[]) == 0
  {
  }

  // ----- the books of one cluster -----

  function StagedMap(c: Cluster): map<Key, Resource>
  {
    if c.staging.Some? then c.staging.value.resources else map[]
  }

  /** What one cluster accounts for in the shared counters. */
  ghost function Books(c: Cluster): Totals
  {
    Totals(|c.resources| + |StagedMap(c)|, Bytes(c.resources) + Bytes(StagedMap(c)), |c.resources|, Bytes(c.resources))
  }

  // ----- one frame, the whole catalogue -----

  /** A chunk of resources rs needs retained room for all of them. */
  ghost predicate ChunkFits(limits: Limits, t: Totals, rs: seq<Resource>)
  {
    t.totalResources + |rs| <= limits.maxRetained && t.totalBytes + BytesOf(rs) <= limits.maxRetainedBytes
  }

  /** A commit needs live room for the stage in place of the old map. */
  ghost predicate CommitFits(limits: Limits, t: Totals, c: Cluster)
  {
    && t.liveResources - |c.resources| + |StagedMap(c)| <= limits.max
    && t.liveBytes - Bytes(c.resources) + Bytes(StagedMap(c)) <= limits.maxBytes
  }

  /** Putting r into map m needs live and retained room for what it adds. */
  predicate PutFits(limits: Limits, t: Totals, m: map<Key, Resource>, r: Resource)
    requires r.Resource?
  {
    var count := if KeyOf(r) in m then 0 else 1;
    var grown := r.bytes - (if KeyOf(r) in m then Size(m[KeyOf(r)]) else 0);
    && t.liveResources + count <= limits.max && t.liveBytes + grown <= limits.maxBytes
    && t.totalResources + count <= limits.maxRetained && t.totalBytes + grown <= limits.maxRetainedBytes
  }

  /** The answer of the capacity checks for frame f on cluster c. */
  ghost predicate Granted(limits: Limits, t: Totals, c: Cluster, f: Frame)
    requires f.Frame?
  {
    match f.ftype
    case SnapshotChunk => ChunkFits(limits, t, f.resources)
    case SnapshotCommit => CommitFits(limits, t, c)
    case Delta =>
      f.change.Change? && f.change.resource.Resource? ==> PutFits(limits, t, c.resources, f.change.resource)
    case _ => true
  }

  predicate Addressed(cat: Catalog, f: Frame)
  {
    f.Frame? && f.bytes <= MaxFrameBytes && f.clusterId in cat.clusters
  }

  /** The specification of Apply: the addressed cluster moves as the protocol says, the shared counters move
      by exactly the change of that cluster's books, and nothing else moves. */
  ghost function ApplySpec(cat: Catalog, f: Frame): (Catalog, bool)
  {
    if !Addressed(cat, f) then (cat, false)
    else
      var c := cat.clusters[f.clusterId];
      var (d, ok) := Next(c, f, cat.limits.max, Granted(cat.limits, cat.totals, c, f));
      (cat.(clusters := cat.clusters[f.clusterId := d],
            totals := Plus(cat.totals, Minus(Books(d), Books(c)))), ok)
  }

  // ----- the invariant -----

  function AsCounters(t: Totals): MapSums.Counters
  {
    MapSums.Counters(t.totalResources, t.totalBytes, t.liveResources, t.liveBytes)
  }

  /** The sum over a map of what each value accounts for. */
  ghost function TotalBy<V>(m: map<string, V>, entry: V -> MapSums.Counters): Totals
  {
    var sum := MapSums.Sum(m, entry);
    Totals(sum.items, sum.bytes, sum.items2, sum.bytes2)
  }

  lemma TotalByUpdate<V>(m: map<string, V>, entry: V -> MapSums.Counters, id: string, v: V, before: Totals, after: Totals)
    requires id in m && entry(m[id]) == AsCounters(before) && entry(v) == AsCounters(after)
    ensures TotalBy(m[id := v], entry) == Plus(TotalBy(m, entry), Minus(after, before))
  {
    MapSums.SumUpdate(m, entry, id, v);
  }

  lemma TotalByZero<V>(m: map<string, V>, entry: V -> MapSums.Counters)
    requires forall id :: id in m ==> entry(m[id]) == MapSums.Zero
    ensures TotalBy(m, entry) == Totals(0, 0, 0, 0)
  {
    MapSums.SumZero(m, entry);
  }

  ghost function BookEntry(c: Cluster): MapSums.Counters
  {
    AsCounters(Books(c))
  }

  /** The sum of the books of all clusters. */
  ghost function Total(clusters: map<string, Cluster>): Totals
  {
    TotalBy(clusters, BookEntry)
  }

  predicate WithinCaps(limits: Limits, t: Totals)
  {
    && t.totalResources <= limits.maxRetained && t.totalBytes <= limits.maxRetainedBytes
    && t.liveResources <= limits.max && t.liveBytes <= limits.maxBytes
  }

  /** The books are right and all four caps hold. */
  ghost predicate Balanced(cat: Catalog)
  {
    cat.totals == Total(cat.clusters) && WithinCaps(cat.limits, cat.totals)
  }

  lemma TotalUpdate(clusters: map<string, Cluster>, id: string, d: Cluster)
    requires id in clusters
    ensures Total(clusters[id := d]) == Plus(Total(clusters), Minus(Books(d), Books(clusters[id])))
  {
    TotalByUpdate(clusters, BookEntry, id, d, Books(clusters[id]), Books(d));
  }

  lemma {:induction false} StageAllCounts(m: map<Key, Resource>, rs: seq<Resource>, max: nat)
    requires StageAll(m, rs, max).Some?
    ensures
      var staged := StageAll(m, rs, max).value;
      |staged| == |m| + |rs| && Bytes(staged) == Bytes(m) + BytesOf(rs) && (rs != [] ==> |staged| <= max)
    decreases |rs|
  {
    if rs != [] {
      BytesPut(m, KeyOf(rs[0]), rs[0]);
      StageAllCounts(m[KeyOf(rs[0]) := rs[0]], rs[1..], max);
    }
  }

  /** The books move by the change itself. */
  lemma ChangedBooks(m: map<Key, Resource>, d: Change)
    requires d.Change? && d.resource.Resource? && PersistentKind(d.resource.kind) && ActionFits(m, d)
    ensures
      var k := KeyOf(d.resource);
      var old_ := if k in m then Size(m[k]) else 0;
      if d.action.Deleted? then |Changed(m, d)| == |m| - 1 && Bytes(Changed(m, d)) == Bytes(m) - old_
      else
        && |Changed(m, d)| == |m| + (if k in m then 0 else 1)
        && Bytes(Changed(m, d)) == Bytes(m) - old_ + d.resource.bytes
  {
    var k := KeyOf(d.resource);
    if d.action.Deleted? {
      BytesRemove(m, k);
      MapSums.CountRemove(m, k);
    } else {
      BytesPut(m, k, d.resource);
    }
  }

  /** An accepted delta breaks no cap. */
  lemma DeltaKeepsCaps(limits: Limits, t: Totals, c: Cluster, f: Frame)
    requires f.Frame? && f.ftype.Delta? && WithinCaps(limits, t)
    ensures
      var d := Next(c, f, limits.max, Granted(limits, t, c, f)).0;
      WithinCaps(limits, Plus(t, Minus(Books(d), Books(c))))
  {
    BytesEmpty();
    BytesNonNegative(StagedMap(c));
    if Next(c, f, limits.max, Granted(limits, t, c, f)).1 && f.change.seq_ == c.seq_ + 1 && PersistentKind(f.change.resource.kind) {
      ChangedBooks(c.resources, f.change);
      if f.change.action.Deleted? {
        assert 0 <= Size(c.resources[KeyOf(f.change.resource)]);
      }
    }
  }

  lemma ChunkKeepsCaps(limits: Limits, t: Totals, c: Cluster, f: Frame)
    requires f.Frame? && f.ftype.SnapshotChunk? && WithinCaps(limits, t)
    ensures
      var d := Next(c, f, limits.max, Granted(limits, t, c, f)).0;
      WithinCaps(limits, Plus(t, Minus(Books(d), Books(c))))
  {
    BytesEmpty();
    BytesNonNegative(StagedMap(c));
    if ValidChunk(c, f) && StageAll(c.staging.value.resources, f.resources, limits.max).Some? {
      StageAllCounts(c.staging.value.resources, f.resources, limits.max);
    }
  }

  lemma UnstagedBooks(c: Cluster)
    ensures Books(Unstaged(c)) == Totals(|c.resources|, Bytes(c.resources), |c.resources|, Bytes(c.resources))
  {
    BytesEmpty();
  }

  lemma OtherFramesKeepCaps(limits: Limits, t: Totals, c: Cluster, f: Frame)
    requires f.Frame? && !f.ftype.Delta? && !f.ftype.SnapshotChunk? && WithinCaps(limits, t)
    ensures
      var d := Next(c, f, limits.max, Granted(limits, t, c, f)).0;
      WithinCaps(limits, Plus(t, Minus(Books(d), Books(c))))
  {
    BytesNonNegative(StagedMap(c));
    BytesNonNegative(c.resources);
    UnstagedBooks(c);
    BytesEmpty();
  }

  /** No frame breaks a cap, whatever its fate. */
  lemma FrameKeepsCaps(limits: Limits, t: Totals, c: Cluster, f: Frame)
    requires f.Frame? && WithinCaps(limits, t)
    ensures
      var d := Next(c, f, limits.max, Granted(limits, t, c, f)).0;
      WithinCaps(limits, Plus(t, Minus(Books(d), Books(c))))
  {
    if f.ftype.Delta? {
      DeltaKeepsCaps(limits, t, c, f);
    } else if f.ftype.SnapshotChunk? {
      ChunkKeepsCaps(limits, t, c, f);
    } else {
      OtherFramesKeepCaps(limits, t, c, f);
    }
  }

  /** After every single Apply, accepted or refused at any exit, the four counters are the true sums over all
      clusters and all four caps hold. */
  lemma ApplyKeepsBalance(cat: Catalog, f: Frame)
    requires Balanced(cat)
    ensures Balanced(ApplySpec(cat, f).0)
  {
    if Addressed(cat, f) {
      var c := cat.clusters[f.clusterId];
      TotalUpdate(cat.clusters, f.clusterId, ApplySpec(cat, f).0.clusters[f.clusterId]);
      FrameKeepsCaps(cat.limits, cat.totals, c, f);
    }
  }

  ghost function ApplyAll(cat: Catalog, frames: seq<Frame>): Catalog
  {
    if frames == [] then cat else ApplySpec(ApplyAll(cat, frames[..|frames| - 1]), frames[|frames| - 1]).0
  }

  function NewClusters(ids: set<string>): map<string, Cluster>
  {
    map id | id in ids :: EmptyCluster
  }

  function NewCatalog(ids: set<string>, maxResources: nat): Catalog
  {
    Catalog(NewClusters(ids), LimitsFor(maxResources), Totals(0, 0, 0, 0))
  }

  lemma NewIsBalanced(ids: set<string>, maxResources: nat)
    ensures Balanced(NewCatalog(ids, maxResources))
  {
    BytesEmpty();
    TotalByZero(NewClusters(ids), BookEntry);
  }

  /** ... hence in every state a catalogue can reach. */
  lemma {:induction false} EveryCatalogIsBalanced(ids: set<string>, maxResources: nat, frames: seq<Frame>)
    ensures Balanced(ApplyAll(NewCatalog(ids, maxResources), frames))
    decreases |frames|
  {
    if frames == [] {
      NewIsBalanced(ids, maxResources);
    } else {
      var prefix := frames[..|frames| - 1];
      EveryCatalogIsBalanced(ids, maxResources, prefix);
      ApplyKeepsBalance(ApplyAll(NewCatalog(ids, maxResources), prefix), frames[|frames| - 1]);
    }
  }

  lemma {:induction false} ApplyAllKeepsFrame(cat: Catalog, frames: seq<Frame>)
    ensures ApplyAll(cat, frames).limits == cat.limits && ApplyAll(cat, frames).clusters.Keys == cat.clusters.Keys
    decreases |frames|
  {
    if frames != [] {
      ApplyAllKeepsFrame(cat, frames[..|frames| - 1]);
    }
  }

  /** What one more frame means to one cluster: a protocol step if it is addressed there, nothing otherwise. */
  lemma ApplyIsLocal(cat: Catalog, f: Frame, id: string)
    requires id in cat.clusters
    ensures
      var c := cat.clusters[id];
      id in ApplySpec(cat, f).0.clusters
      && ApplySpec(cat, f).0.clusters[id] ==
           if Addressed(cat, f) && f.clusterId == id then Next(c, f, cat.limits.max, Granted(cat.limits, cat.totals, c, f)).0
           else c
  {
  }

  /** The frames addressed to one cluster, in order. */
  function Own(frames: seq<Frame>, id: string): (own: seq<Frame>)
    ensures forall i :: 0 <= i < |own| ==> own[i].Frame?
  {
    if frames == [] then []
    else
      var f := frames[|frames| - 1];
      Own(frames[..|frames| - 1], id) + if f.Frame? && f.bytes <= MaxFrameBytes && f.clusterId == id then [f] else []
  }

  /** One cluster's own frames, each with the capacity answer it met. */
  ghost function OwnLog(cat: Catalog, frames: seq<Frame>, id: string): (log: seq<Received>)
    requires id in cat.clusters
    ensures AllFrames(log)
  {
    if frames == [] then []
    else
      var prefix, f := frames[..|frames| - 1], frames[|frames| - 1];
      var before := ApplyAll(cat, prefix);
      OwnLog(cat, prefix, id)
        + if id in before.clusters && Addressed(before, f) && f.clusterId == id
          then [Received(f, Granted(before.limits, before.totals, before.clusters[id], f))] else []
  }

  lemma {:induction false} OwnLogIsOwn(cat: Catalog, frames: seq<Frame>, id: string)
    requires id in cat.clusters
    ensures |OwnLog(cat, frames, id)| == |Own(frames, id)|
    ensures forall i :: 0 <= i < |Own(frames, id)| ==> OwnLog(cat, frames, id)[i].frame == Own(frames, id)[i]
    decreases |frames|
  {
    if frames != [] {
      ApplyAllKeepsFrame(cat, frames[..|frames| - 1]);
      OwnLogIsOwn(cat, frames[..|frames| - 1], id);
    }
  }

  /** Frames of other clusters never touch a cluster: its record is its own frames, in order, run through the
      protocol with the capacity answers they met. */
  lemma {:induction false} ClustersAreIsolated(cat: Catalog, frames: seq<Frame>, id: string)
    requires id in cat.clusters
    ensures
      var after := ApplyAll(cat, frames);
      id in after.clusters && after.clusters[id] == Run(cat.clusters[id], OwnLog(cat, frames, id), cat.limits.max)
    decreases |frames|
  {
    if frames != [] {
      var prefix, f := frames[..|frames| - 1], frames[|frames| - 1];
      ClustersAreIsolated(cat, prefix, id);
      ApplyAllKeepsFrame(cat, prefix);
      var before, log := ApplyAll(cat, prefix), OwnLog(cat, prefix, id);
      ApplyIsLocal(before, f, id);
      if Addressed(before, f) && f.clusterId == id {
        RunSnoc(cat.clusters[id], log, Received(f, Granted(before.limits, before.totals, before.clusters[id], f)), cat.limits.max);
      } else {
        assert OwnLog(cat, frames, id) == log;
      }
    }
  }

  // ----- room -----

  ghost predicate OnlyStaging(clusters: map<string, Cluster>, id: string)
  {
    forall i :: i in clusters && i != id ==> StagedMap(clusters[i]) == map[]
  }

  lemma NoStageTwin(clusters: map<string, Cluster>)
    requires forall i :: i in clusters ==> StagedMap(clusters[i]) == map[]
    ensures MapSums.Sum(clusters, BookEntry).Twin()
  {
    forall i | i in clusters ensures BookEntry(clusters[i]).Twin() {
      BytesEmpty();
    }
    MapSums.SumTwin(clusters, BookEntry);
  }

  /** When at most one cluster stages, the total counters exceed the live ones by its stage. */
  lemma OneStageTotals(clusters: map<string, Cluster>, id: string)
    requires id in clusters && OnlyStaging(clusters, id)
    ensures
      var t := Total(clusters);
      && t.totalResources == t.liveResources + |StagedMap(clusters[id])|
      && t.totalBytes == t.liveBytes + Bytes(StagedMap(clusters[id]))
  {
    MapSums.SumSplit(clusters, BookEntry, id);
    NoStageTwin(clusters - {id});
  }

  /** While one cluster stages and its stage stays within the live byte cap, a chunk that the protocol itself
      accepts is never refused for retained capacity. */
  lemma SoleStagerIsNeverRefused(cat: Catalog, f: Frame, maxResources: nat)
    requires Balanced(cat) && cat.limits == LimitsFor(maxResources)
    requires Addressed(cat, f) && f.ftype.SnapshotChunk? && OnlyStaging(cat.clusters, f.clusterId)
    requires var c := cat.clusters[f.clusterId];
      ValidChunk(c, f)
      && StageAll(c.staging.value.resources, f.resources, maxResources).Some?
      && Bytes(StageAll(c.staging.value.resources, f.resources, maxResources).value) <= LiveByteCap
    ensures ApplySpec(cat, f).1
  {
    var c := cat.clusters[f.clusterId];
    OneStageTotals(cat.clusters, f.clusterId);
    StageAllCounts(c.staging.value.resources, f.resources, maxResources);
  }
}
