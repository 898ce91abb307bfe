/** Catching up through the whole catalogue, with its own capacity answers and with frames of other clusters in
    between: when every frame is within the size limit and there is room beside the other clusters, nothing of a
    full sync is refused, and it ends with the source's map served. A resource that no frame within the limit can
    carry is never served. */
module CatalogProgress {
  import opened CatalogProtocol
  import opened Options
  import opened CatalogAtomicity
  import opened CatalogAccounting
  import opened CatalogConvergence
  import MapSums

  // ----- room -----

  /** What all the other clusters account for. */
  ghost function Others(cat: Catalog, id: string): Totals
    requires id in cat.clusters
  {
    Minus(cat.totals, Books(cat.clusters[id]))
  }

  /** Beside what the others account for, m fits under the live limits. */
  ghost predicate HasRoom(limits: Limits, others: Totals, m: map<Key, Resource>)
  {
    others.liveResources + |m| <= limits.max && others.liveBytes + Bytes(m) <= limits.maxBytes
  }

  /** The others retain what they have live and no more, as when none of them stages. */
  predicate Level(others: Totals)
  {
    && others.totalResources == others.liveResources && others.totalBytes == others.liveBytes
    && 0 <= others.liveResources && 0 <= others.liveBytes
  }

  /** The limits leave room to retain twice what may be live. */
  predicate Doubled(limits: Limits)
  {
    limits.maxRetained == 2 * limits.max && limits.maxRetainedBytes == 2 * limits.maxBytes
  }

  /** Part of a map is no bigger than the map. */
  lemma {:induction false} PartIsNoBigger(m: map<Key, Resource>, whole: map<Key, Resource>)
    requires forall k :: k in m ==> k in whole && whole[k] == m[k]
    ensures |m| <= |whole| && Bytes(m) <= Bytes(whole)
    decreases |m|
  {
    if m == map[] {
      BytesEmpty();
      BytesNonNegative(whole);
    } else {
      var k :| k in m;
      BytesRemove(m, k);
      BytesRemove(whole, k);
      MapSums.CountRemove(m, k);
      MapSums.CountRemove(whole, k);
      PartIsNoBigger(m - {k}, whole - {k});
    }
  }

  lemma StagedPart(staged: map<Key, Resource>, target: map<Key, Resource>, rs: seq<Resource>, rest: seq<Resource>)
    requires IsIndexOf(staged, rs) && IsIndexOf(target, rs + rest)
    ensures |staged| <= |target| && Bytes(staged) <= Bytes(target)
  {
    forall k | k in staged ensures k in target && target[k] == staged[k] {
      IndexHasNothingElse(staged, rs, k);
      var i :| 0 <= i < |rs| && rs[i].Resource? && KeyOf(rs[i]) == k;
      assert (rs + rest)[i] == rs[i];
    }
    PartIsNoBigger(staged, target);
  }

  // ----- one sync -----

  /** One unbroken sync of a cluster: the snapshot at number `from` in parts, and the deltas up to `upTo`. */
  datatype Plan = Plan(
    id: string, history: History, epoch: UInt64, from: int, upTo: int, parts: seq<seq<Resource>>, observed: int, times: seq<int>)

  predicate Shaped(s: Plan)
  {
    && s.epoch != 0 && Numbered(s.history, s.epoch)
    && Covers(s.history, s.from) && Covers(s.history, s.upTo) && s.from <= s.upTo < 0x1_0000_0000_0000_0000
    && |s.times| == |s.history.deltas|
  }

  type Sync = s: Plan | Shaped(s) witness Plan("", History(0, map[], []), 1, 0, 0, [], 1, [])

  /** The parts are legal chunks of the source's map at number `from`. */
  ghost predicate LegalSnapshot(s: Sync)
  {
    0 < s.observed && LegalParts(s.parts) && IsIndexOf(At(s.history, s.epoch, s.from), Flatten(s.parts))
  }

  /** The deltas may be applied one after another, at times that do not go back. */
  predicate LegalChanges(s: Sync)
  {
    LegalDeltas(s.history, s.epoch, s.from, s.upTo) && InOrder(s.observed, s.times)
  }

  ghost predicate LegalSync(s: Sync)
  {
    LegalSnapshot(s) && LegalChanges(s)
  }

  function Content(s: Sync): (log: seq<Received>)
    ensures AllFrames(log)
  {
    SyncContent(s.id, s.history, s.epoch, s.from, s.upTo, s.parts, s.observed, s.times)
  }

  function Sent(size: Frame -> nat, s: Sync): (log: seq<Received>)
    ensures AllFrames(log)
  {
    FullSync(size, s.id, s.history, s.epoch, s.from, s.upTo, s.parts, s.observed, s.times)
  }

  /** Every map of the source that the sync leads through has room. */
  ghost predicate RoomFor(limits: Limits, others: Totals, s: Sync)
  {
    forall k :: s.from <= k <= s.upTo ==> HasRoom(limits, others, At(s.history, s.epoch, k))
  }

  /** The others leave room for all the sync leads through, and for what the cluster has live now. */
  ghost predicate Roomy(limits: Limits, others: Totals, d: Cluster, s: Sync)
  {
    Doubled(limits) && Level(others) && HasRoom(limits, others, d.resources) && RoomFor(limits, others, s)
  }

  /** The capacity checks do not stand in the way of f on a cluster with record d. */
  ghost predicate Willing(limits: Limits, others: Totals, d: Cluster, f: Frame)
    requires f.Frame?
  {
    Next(d, f, limits.max, Granted(limits, Plus(others, Books(d)), d, f)) == Next(d, f, limits.max, true)
  }

  // ----- the parts of a sync -----

  function Head(s: Sync): seq<Received>
  {
    [Received(ResetFrame(s.id), true), Received(BeginFrame(s.id, s.epoch, s.from, s.observed), true)]
  }

  function Commit(s: Sync): Received
  {
    Received(CommitFrame(s.id, s.epoch, s.from, s.observed), true)
  }

  /** The record once the snapshot is opened. */
  function Opened(c: Cluster, s: Sync): Cluster
  {
    Unstaged(c).(resyncNeeded := true, staging := Some(Stage(s.epoch, s.from, s.observed, map[])))
  }

  lemma HeadOpens(c: Cluster, s: Sync, max: nat)
    requires 0 < s.observed
    ensures Run(c, Head(s), max) == Opened(c, s)
  {
    RunOne(c, Head(s)[0], max);
    assert Head(s)[..1] == [Head(s)[0]];
  }

  lemma {:induction false} FlattenSplit(parts: seq<seq<Resource>>, j: nat) returns (rest: seq<Resource>)
    requires LegalParts(parts) && j <= |parts|
    ensures Flatten(parts) == Flatten(parts[..j]) + rest && LegalParts(parts[..j])
    decreases |parts|
  {
    if j == |parts| {
      rest := [];
      assert parts[..j] == parts && Flatten(parts) + [] == Flatten(parts);
    } else {
      var last := |parts| - 1;
      LegalPrefix(parts);
      var before := FlattenSplit(parts[..last], j);
      assert parts[..last][..j] == parts[..j];
      rest := before + parts[last];
      assert Flatten(parts[..j]) + before + parts[last] == Flatten(parts[..j]) + rest;
    }
  }

  lemma {:induction false} ChunksPrefix(s: Sync, parts: seq<seq<Resource>>, j: nat)
    requires j <= |parts|
    ensures Chunks(s.id, s.epoch, s.from, s.observed, parts)[..j] == Chunks(s.id, s.epoch, s.from, s.observed, parts[..j])
    decreases |parts|
  {
    var chunks := Chunks(s.id, s.epoch, s.from, s.observed, parts);
    if j == |parts| {
      assert parts[..j] == parts && chunks[..j] == chunks;
    } else {
      var last := |parts| - 1;
      ChunksPrefix(s, parts[..last], j);
      assert parts[..last][..j] == parts[..j];
      assert chunks[..j] == chunks[..last][..j];
    }
  }

  lemma {:induction false} ChunkAt(s: Sync, parts: seq<seq<Resource>>, j: nat)
    requires j < |parts|
    ensures Chunks(s.id, s.epoch, s.from, s.observed, parts)[j]
         == Received(ChunkFrame(s.id, s.epoch, s.from, s.observed, parts[j]), true)
    decreases |parts|
  {
    if j < |parts| - 1 {
      ChunkAt(s, parts[..|parts| - 1], j);
    }
  }

  lemma {:induction false} DeltasPrefix(s: Sync, m: int, j: nat)
    requires s.from <= s.from + j <= m <= s.upTo
    ensures Deltas(s.id, s.history, s.epoch, s.from, m, s.times)[..j]
         == Deltas(s.id, s.history, s.epoch, s.from, s.from + j, s.times)
    decreases m
  {
    var deltas := Deltas(s.id, s.history, s.epoch, s.from, m, s.times);
    if s.from + j == m {
      assert deltas[..j] == deltas;
    } else {
      DeltasPrefix(s, m - 1, j);
      assert deltas[..j] == deltas[..|deltas| - 1][..j];
    }
  }

  lemma {:induction false} DeltaAt(s: Sync, m: int, j: nat)
    requires s.from <= s.from + j < m <= s.upTo
    ensures var i := s.from + j - s.history.baseSeq;
      Deltas(s.id, s.history, s.epoch, s.from, m, s.times)[j]
      == Received(DeltaFrame(s.id, s.history.deltas[i], s.times[i]), true)
    decreases m
  {
    if s.from + j < m - 1 {
      DeltaAt(s, m - 1, j);
    }
  }

  // ----- no part of a sync is refused -----

  /** The stage before chunk j. */
  lemma BeforeChunk(c: Cluster, s: Sync, j: nat, max: nat) returns (d: Cluster, rest: seq<Resource>)
    requires LegalSnapshot(s) && j <= |s.parts| && |At(s.history, s.epoch, s.from)| <= max
    ensures d == Run(Opened(c, s), Chunks(s.id, s.epoch, s.from, s.observed, s.parts[..j]), max)
    ensures d == Opened(c, s).(staging := d.staging) && d.staging.Some?
    ensures d.staging.value == Stage(s.epoch, s.from, s.observed, d.staging.value.resources)
    ensures IsIndexOf(d.staging.value.resources, Flatten(s.parts[..j]))
    ensures Flatten(s.parts) == Flatten(s.parts[..j]) + rest && LegalParts(s.parts[..j])
  {
    rest := FlattenSplit(s.parts, j);
    ChunksAreStaged(Opened(c, s), s.id, s.epoch, s.from, s.observed, s.parts[..j], max, At(s.history, s.epoch, s.from), rest);
    d := Run(Opened(c, s), Chunks(s.id, s.epoch, s.from, s.observed, s.parts[..j]), max);
  }

  /** m is no bigger than the snapshot. */
  ghost predicate Part(m: map<Key, Resource>, s: Sync)
  {
    |m| <= |At(s.history, s.epoch, s.from)| && Bytes(m) <= Bytes(At(s.history, s.epoch, s.from))
  }

  /** f is a chunk that the protocol takes, and the stage with it is no bigger than the snapshot. */
  ghost predicate ChunkDue(max: nat, d: Cluster, s: Sync, f: Frame)
    requires f.Frame?
  {
    && f.ftype.SnapshotChunk? && d.staging.Some?
    && StageAll(d.staging.value.resources, f.resources, max).Some?
    && Part(StageAll(d.staging.value.resources, f.resources, max).value, s)
  }

  lemma ChunkIsDue(max: nat, c: Cluster, s: Sync, j: nat, d: Cluster)
    requires LegalSnapshot(s) && j < |s.parts| && |At(s.history, s.epoch, s.from)| <= max
    requires d == Run(Opened(c, s), Chunks(s.id, s.epoch, s.from, s.observed, s.parts[..j]), max)
    ensures ChunkDue(max, d, s, ChunkFrame(s.id, s.epoch, s.from, s.observed, s.parts[j]))
  {
    var target, rs := At(s.history, s.epoch, s.from), s.parts[j];
    var _, _ := BeforeChunk(c, s, j, max);
    var rest := FlattenSplit(s.parts, j + 1);
    assert s.parts[..j + 1][..j] == s.parts[..j];
    LegalPrefix(s.parts[..j + 1]);
    DistinctPrefix(target, Flatten(s.parts[..j + 1]), rest);
    StageAllSucceeds(d.staging.value.resources, Flatten(s.parts[..j]), rs, max);
    StageAllIndexes(d.staging.value.resources, Flatten(s.parts[..j]), rs, max);
    StagedPart(StageAll(d.staging.value.resources, rs, max).value, target, Flatten(s.parts[..j + 1]), rest);
  }

  /** There is room to retain it. */
  lemma ChunkIsWilling(limits: Limits, others: Totals, d: Cluster, s: Sync, f: Frame)
    requires f.Frame? && ChunkDue(limits.max, d, s, f) && Doubled(limits) && Level(others)
    requires HasRoom(limits, others, d.resources) && HasRoom(limits, others, At(s.history, s.epoch, s.from))
    ensures Willing(limits, others, d, f)
  {
    StageAllCounts(d.staging.value.resources, f.resources, limits.max);
  }

  /** The stage at the end is the snapshot, and the commit publishes it. */
  lemma BeforeCommit(c: Cluster, s: Sync, max: nat) returns (d: Cluster)
    requires LegalSnapshot(s) && |At(s.history, s.epoch, s.from)| <= max
    ensures d == Run(Opened(c, s), Chunks(s.id, s.epoch, s.from, s.observed, s.parts), max)
    ensures StagedMap(d) == At(s.history, s.epoch, s.from)
    ensures Next(d, Commit(s).frame, max, true).0 == Committed(s)
  {
    assert s.parts[..|s.parts|] == s.parts;
    var rest;
    d, rest := BeforeChunk(c, s, |s.parts|, max);
    IndexIsUnique(d.staging.value.resources, At(s.history, s.epoch, s.from), Flatten(s.parts));
  }

  /** The record once the snapshot is committed. */
  function Committed(s: Sync): Cluster
  {
    Cluster(s.epoch, s.from, At(s.history, s.epoch, s.from), None, true, false, s.observed)
  }

  /** f is a commit of a stage that is no bigger than the snapshot. */
  ghost predicate CommitDue(d: Cluster, s: Sync, f: Frame)
    requires f.Frame?
  {
    f.ftype.SnapshotCommit? && Part(StagedMap(d), s)
  }

  /** It has room in place of the old map. */
  lemma CommitIsWilling(limits: Limits, others: Totals, d: Cluster, s: Sync, f: Frame)
    requires f.Frame? && CommitDue(d, s, f) && HasRoom(limits, others, At(s.history, s.epoch, s.from))
    ensures Willing(limits, others, d, f)
  {
    assert CommitFits(limits, Plus(others, Books(d)), d);
  }

  /** A delta that leads to a map there is room for is taken as if capacity were no question. */
  lemma DeltaIsGranted(limits: Limits, others: Totals, d: Cluster, f: Frame)
    requires Doubled(limits) && Level(others) && d.staging.None?
    requires f.Frame? && f.ftype.Delta? && ValidDelta(d, f) && f.change.seq_ == d.seq_ + 1
    requires PersistentKind(f.change.resource.kind) ==> ActionFits(d.resources, f.change)
    requires HasRoom(limits, others, d.resources) && HasRoom(limits, others, Changed(d.resources, f.change))
    ensures Willing(limits, others, d, f)
  {
    BytesEmpty();
    BytesNonNegative(Changed(d.resources, f.change));
    if PersistentKind(f.change.resource.kind) && !f.change.action.Deleted? {
      ChangedBooks(d.resources, f.change);
      assert PutFits(limits, Plus(others, Books(d)), d.resources, f.change.resource);
    }
  }

  /** The record between two deltas. */
  predicate ServesAt(d: Cluster, s: Sync, m: int)
  {
    && Covers(s.history, m) && d.available && !d.resyncNeeded && d.epoch == s.epoch && d.seq_ == m && d.staging.None?
    && d.resources == At(s.history, s.epoch, m)
  }

  lemma AtNext(h: History, e: UInt64, m: int)
    requires Numbered(h, e) && Covers(h, m) && Covers(h, m + 1)
    ensures At(h, e, m + 1) == Changed(At(h, e, m), h.deltas[m - h.baseSeq])
  {
  }

  lemma RoomAt(limits: Limits, others: Totals, s: Sync, m: int)
    requires RoomFor(limits, others, s) && s.from <= m <= s.upTo
    ensures HasRoom(limits, others, At(s.history, s.epoch, m))
  {
  }

  /** The delta with index i is one that may be applied where it comes, at a time not before the last one's. */
  predicate FitsIn(s: Sync, i: int)
    requires s.from - s.history.baseSeq <= i < s.upTo - s.history.baseSeq
  {
    var change := s.history.deltas[i];
    && change.Change? && change.epoch == s.epoch && change.seq_ == s.history.baseSeq + i + 1
    && !change.action.Unspecified? && ValidResource(change.resource, false)
    && (PersistentKind(change.resource.kind) ==> ActionFits(At(s.history, s.epoch, s.history.baseSeq + i), change))
    && 0 < (if i > s.from - s.history.baseSeq then s.times[i - 1] else s.observed) <= s.times[i]
  }

  lemma LegalAt(s: Sync, i: int)
    requires LegalChanges(s) && s.from - s.history.baseSeq <= i < s.upTo - s.history.baseSeq
    ensures FitsIn(s, i)
  {
  }

  /** A delta that may be applied to what is served, and leads to `after`, which has room. */
  lemma DeltaIsWilling(
      limits: Limits, others: Totals, d: Cluster, id: string, change: Change, observed: int, after: map<Key, Resource>)
    requires Doubled(limits) && Level(others) && HasRoom(limits, others, d.resources) && HasRoom(limits, others, after)
    requires d.available && !d.resyncNeeded && d.staging.None? && 0 < d.observed <= observed
    requires change.Change? && change.epoch == d.epoch && change.seq_ == d.seq_ + 1
    requires !change.action.Unspecified? && ValidResource(change.resource, false)
    requires PersistentKind(change.resource.kind) ==> ActionFits(d.resources, change)
    requires after == Changed(d.resources, change)
    ensures Willing(limits, others, d, DeltaFrame(id, change, observed))
  {
    DeltaIsGranted(limits, others, d, DeltaFrame(id, change, observed));
  }

  /** What the next delta leads to. */
  lemma NextMap(limits: Limits, others: Totals, s: Sync, m: int) returns (before: map<Key, Resource>, after: map<Key, Resource>)
    requires s.from <= m < s.upTo && RoomFor(limits, others, s)
    ensures before == At(s.history, s.epoch, m) && after == Changed(before, s.history.deltas[m - s.history.baseSeq])
    ensures HasRoom(limits, others, before) && HasRoom(limits, others, after)
  {
    before, after := At(s.history, s.epoch, m), At(s.history, s.epoch, m + 1);
    AtNext(s.history, s.epoch, m);
    RoomAt(limits, others, s, m);
    RoomAt(limits, others, s, m + 1);
  }

  /** The source's map at m is served, and f is the delta numbered m + 1. */
  predicate DeltaDue(d: Cluster, s: Sync, m: int, f: Frame)
  {
    && s.from <= m < s.upTo && ServesAt(d, s, m)
    && d.observed == (if m > s.from then s.times[m - s.history.baseSeq - 1] else s.observed)
    && f == DeltaFrame(s.id, s.history.deltas[m - s.history.baseSeq], s.times[m - s.history.baseSeq])
  }

  lemma StepIsWilling(limits: Limits, others: Totals, d: Cluster, s: Sync, m: int, f: Frame)
    requires DeltaDue(d, s, m, f) && FitsIn(s, m - s.history.baseSeq) && Roomy(limits, others, d, s)
    ensures Willing(limits, others, d, f)
  {
    var i := m - s.history.baseSeq;
    var before, after := NextMap(limits, others, s, m);
    DeltaIsWilling(limits, others, d, s.id, s.history.deltas[i], s.times[i], after);
  }

  /** What has been sent before frame k, part by part. */
  lemma ContentPrefix(s: Sync, k: nat)
    requires k < |Content(s)|
    ensures |Content(s)| == 3 + |s.parts| + (s.upTo - s.from)
    ensures k < 2 ==> Content(s)[k] == Head(s)[k]
    ensures 2 <= k < 2 + |s.parts| ==>
      && Content(s)[..k] == Head(s) + Chunks(s.id, s.epoch, s.from, s.observed, s.parts[..k - 2])
      && Content(s)[k] == Received(ChunkFrame(s.id, s.epoch, s.from, s.observed, s.parts[k - 2]), true)
    ensures k == 2 + |s.parts| ==>
      Content(s)[..k] == Head(s) + Chunks(s.id, s.epoch, s.from, s.observed, s.parts) && Content(s)[k] == Commit(s)
  {
    var chunks := Chunks(s.id, s.epoch, s.from, s.observed, s.parts);
    if 2 <= k < 2 + |s.parts| {
      ChunksPrefix(s, s.parts, k - 2);
      ChunkAt(s, s.parts, k - 2);
      assert Content(s)[..k] == Head(s) + chunks[..k - 2];
    } else if k == 2 + |s.parts| {
      assert Content(s)[..k] == Head(s) + chunks;
    }
  }

  lemma ContentTail(s: Sync, j: nat)
    requires j <= s.upTo - s.from
    ensures |Content(s)| == 3 + |s.parts| + (s.upTo - s.from)
    ensures Content(s)[..3 + |s.parts| + j] ==
      Head(s) + Chunks(s.id, s.epoch, s.from, s.observed, s.parts) + [Commit(s)]
        + Deltas(s.id, s.history, s.epoch, s.from, s.from + j, s.times)
    ensures j < s.upTo - s.from ==>
      var i := s.from + j - s.history.baseSeq;
      Content(s)[3 + |s.parts| + j] == Received(DeltaFrame(s.id, s.history.deltas[i], s.times[i]), true)
  {
    var chunks := Chunks(s.id, s.epoch, s.from, s.observed, s.parts);
    var deltas := Deltas(s.id, s.history, s.epoch, s.from, s.upTo, s.times);
    DeltasPrefix(s, s.upTo, j);
    assert Content(s)[..3 + |s.parts| + j] == Head(s) + chunks + [Commit(s)] + deltas[..j];
    if j < s.upTo - s.from {
      DeltaAt(s, s.upTo, j);
    }
  }

  lemma SnapshotIsTaken(c: Cluster, s: Sync, max: nat)
    requires LegalSnapshot(s) && |At(s.history, s.epoch, s.from)| <= max
    ensures Run(c, Head(s) + Chunks(s.id, s.epoch, s.from, s.observed, s.parts) + [Commit(s)], max) == Committed(s)
  {
    var chunks := Chunks(s.id, s.epoch, s.from, s.observed, s.parts);
    HeadOpens(c, s, max);
    var d := BeforeCommit(c, s, max);
    RunAppends(c, Head(s), chunks, max);
    RunSnoc(c, Head(s) + chunks, Commit(s), max);
  }

  lemma LegalUpTo(s: Sync, m: int)
    requires LegalChanges(s) && s.from <= m <= s.upTo
    ensures Covers(s.history, m) && LegalDeltas(s.history, s.epoch, s.from, m) && InOrder(s.observed, s.times)
  {
  }

  lemma CommittedServes(s: Sync, j: nat, max: nat)
    requires LegalChanges(s) && j <= s.upTo - s.from
    ensures ServesAt(Run(Committed(s), Deltas(s.id, s.history, s.epoch, s.from, s.from + j, s.times), max), s, s.from + j)
  {
    LegalUpTo(s, s.from + j);
    DeltasAreApplied(Committed(s), s.id, s.history, s.epoch, s.from, s.from + j, s.times, max);
  }

  lemma CommittedObserved(s: Sync, j: nat, max: nat)
    requires LegalChanges(s) && j <= s.upTo - s.from
    ensures Run(Committed(s), Deltas(s.id, s.history, s.epoch, s.from, s.from + j, s.times), max).observed
         == if j > 0 then s.times[s.from + j - s.history.baseSeq - 1] else s.observed
  {
    LegalUpTo(s, s.from + j);
    DeltasAreApplied(Committed(s), s.id, s.history, s.epoch, s.from, s.from + j, s.times, max);
  }

  /** The record after the snapshot and j deltas. */
  lemma AfterDeltas(c: Cluster, s: Sync, j: nat, max: nat) returns (d: Cluster)
    requires LegalSync(s) && j <= s.upTo - s.from && |At(s.history, s.epoch, s.from)| <= max
    ensures 3 + |s.parts| + j <= |Content(s)| && d == Run(c, Content(s)[..3 + |s.parts| + j], max)
    ensures ServesAt(d, s, s.from + j)
    ensures d.observed == if j > 0 then s.times[s.from + j - s.history.baseSeq - 1] else s.observed
  {
    var snapshot := Head(s) + Chunks(s.id, s.epoch, s.from, s.observed, s.parts) + [Commit(s)];
    ContentTail(s, j);
    SnapshotIsTaken(c, s, max);
    RunAppends(c, snapshot, Deltas(s.id, s.history, s.epoch, s.from, s.from + j, s.times), max);
    d := Run(c, Content(s)[..3 + |s.parts| + j], max);
    CommittedServes(s, j, max);
    CommittedObserved(s, j, max);
  }

  /** Frame f is what the protocol expects of the sync when the record is d. */
  ghost predicate Due(max: nat, d: Cluster, s: Sync, f: Frame)
  {
    f.Frame? &&
    match f.ftype
    case Reset => true
    case SnapshotBegin => true
    case SnapshotChunk => ChunkDue(max, d, s, f)
    case SnapshotCommit => CommitDue(d, s, f)
    case Delta => DeltaDue(d, s, d.seq_, f)
    case _ => false
  }

  lemma SnapshotIsDue(max: nat, c: Cluster, s: Sync, k: nat)
    requires LegalSnapshot(s) && k <= 2 + |s.parts| && k < |Content(s)| && |At(s.history, s.epoch, s.from)| <= max
    ensures Due(max, Run(c, Content(s)[..k], max), s, Content(s)[k].frame)
  {
    ContentPrefix(s, k);
    if k >= 2 {
      HeadOpens(c, s, max);
      RunAppends(c, Head(s), Chunks(s.id, s.epoch, s.from, s.observed, s.parts[..k - 2]), max);
      if k < 2 + |s.parts| {
        ChunkIsDue(max, c, s, k - 2, Run(c, Content(s)[..k], max));
      } else {
        assert s.parts[..k - 2] == s.parts;
        var _ := BeforeCommit(c, s, max);
      }
    }
  }

  lemma DueAfter(s: Sync, d: Cluster, j: nat, f: Frame)
    requires j < s.upTo - s.from && ServesAt(d, s, s.from + j)
    requires d.observed == if j > 0 then s.times[s.from + j - s.history.baseSeq - 1] else s.observed
    requires var i := s.from + j - s.history.baseSeq; f == DeltaFrame(s.id, s.history.deltas[i], s.times[i])
    ensures f.Frame? && f.ftype.Delta? && DeltaDue(d, s, d.seq_, f)
  {
  }

  lemma DeltaComes(max: nat, c: Cluster, s: Sync, j: nat) returns (d: Cluster, f: Frame)
    requires LegalSync(s) && j < s.upTo - s.from && |At(s.history, s.epoch, s.from)| <= max
    ensures 3 + |s.parts| + j < |Content(s)|
    ensures d == Run(c, Content(s)[..3 + |s.parts| + j], max) && f == Content(s)[3 + |s.parts| + j].frame
    ensures f.Frame? && f.ftype.Delta? && DeltaDue(d, s, d.seq_, f)
  {
    ContentTail(s, j);
    d := AfterDeltas(c, s, j, max);
    f := Content(s)[3 + |s.parts| + j].frame;
    DueAfter(s, d, j, f);
  }

  lemma DeltaIsDue(max: nat, c: Cluster, s: Sync, j: nat)
    requires LegalSync(s) && j < s.upTo - s.from && |At(s.history, s.epoch, s.from)| <= max
    ensures var k := 3 + |s.parts| + j;
      k < |Content(s)| && Due(max, Run(c, Content(s)[..k], max), s, Content(s)[k].frame)
  {
    var d, f := DeltaComes(max, c, s, j);
    assert Due(max, d, s, f);
  }

  lemma ContentLength(s: Sync)
    ensures |Content(s)| == 3 + |s.parts| + (s.upTo - s.from)
  {
  }

  /** Every frame of the sync is due when its turn comes. */
  ghost predicate AllDue(max: nat, c: Cluster, s: Sync)
  {
    forall k :: 0 <= k < |Content(s)| ==> Due(max, Run(c, Content(s)[..k], max), s, Content(s)[k].frame)
  }

  lemma LegalSyncIsDue(max: nat, c: Cluster, s: Sync)
    requires LegalSync(s) && |At(s.history, s.epoch, s.from)| <= max
    ensures AllDue(max, c, s)
  {
    ContentLength(s);
    forall k | 0 <= k < |Content(s)| ensures Due(max, Run(c, Content(s)[..k], max), s, Content(s)[k].frame) {
      if k <= 2 + |s.parts| {
        SnapshotIsDue(max, c, s, k);
      } else {
        DeltaIsDue(max, c, s, k - 3 - |s.parts|);
      }
    }
  }

  /** A frame that is due is never refused for want of room, as long as the others leave room. */
  lemma DueIsWilling(limits: Limits, others: Totals, s: Sync, d: Cluster, f: Frame)
    requires LegalChanges(s) && Due(limits.max, d, s, f) && Roomy(limits, others, d, s)
    ensures Willing(limits, others, d, f)
  {
    RoomAt(limits, others, s, s.from);
    match f.ftype
    case SnapshotChunk => ChunkIsWilling(limits, others, d, s, f);
    case SnapshotCommit => CommitIsWilling(limits, others, d, s, f);
    case Delta =>
      LegalAt(s, d.seq_ - s.history.baseSeq);
      StepIsWilling(limits, others, d, s, d.seq_, f);
    case _ =>
  }

  // ----- a sync among the frames of other clusters -----

  /** What the others account for is level when none of them stages, and leaves room for what is live. */
  lemma OthersAreLevel(cat: Catalog, id: string)
    requires Balanced(cat) && id in cat.clusters && OnlyStaging(cat.clusters, id)
    ensures Level(Others(cat, id)) && HasRoom(cat.limits, Others(cat, id), cat.clusters[id].resources)
  {
    OneStageTotals(cat.clusters, id);
    MapSums.SumSplit(cat.clusters, BookEntry, id);
    forall i | i in cat.clusters ensures BookEntry(cat.clusters[i]).NonNegative() {
      BytesNonNegative(cat.clusters[i].resources);
      BytesNonNegative(StagedMap(cat.clusters[i]));
    }
    MapSums.SumNonNegative(cat.clusters - {id}, BookEntry);
  }

  /** No other cluster stages, and the others leave room for all that the sync leads through. */
  ghost predicate RoomNow(cat: Catalog, s: Sync)
  {
    s.id in cat.clusters && OnlyStaging(cat.clusters, s.id) && RoomFor(cat.limits, Others(cat, s.id), s)
  }

  predicate IsOwn(f: Frame, id: string)
  {
    f.Frame? && f.bytes <= MaxFrameBytes && f.clusterId == id
  }

  /** So it is whenever a frame of the sync is next, whatever the frames of other clusters do. */
  ghost predicate RoomKept(cat: Catalog, frames: seq<Frame>, s: Sync)
  {
    if frames == [] then true
    else
      var before, f := frames[..|frames| - 1], frames[|frames| - 1];
      RoomKept(cat, before, s) && (IsOwn(f, s.id) ==> RoomNow(ApplyAll(cat, before), s))
  }

  lemma ContentIsGranted(s: Sync, k: nat)
    requires k < |Content(s)|
    ensures Content(s)[k].granted
  {
    ContentLength(s);
    if k <= 2 + |s.parts| {
      ContentPrefix(s, k);
    } else {
      ContentTail(s, k - 3 - |s.parts|);
    }
  }

  /** Past the size check, neither the protocol nor the capacity checks look at the size of a frame. */
  lemma SizeDoesNotMatter(limits: Limits, t: Totals, d: Cluster, f: Frame)
    requires f.Frame?
    ensures Granted(limits, t, d, f) == Granted(limits, t, d, f.(bytes := 0))
    ensures forall granted :: Next(d, f, limits.max, granted) == Next(d, f.(bytes := 0), limits.max, granted)
  {
  }

  /** One frame of the sync moves the cluster as if capacity were no question. */
  lemma OwnFrameIsTaken(now: Catalog, s: Sync, d: Cluster, f: Frame)
    requires Balanced(now) && Doubled(now.limits) && RoomNow(now, s) && now.clusters[s.id] == d
    requires LegalChanges(s) && IsOwn(f, s.id) && Due(now.limits.max, d, s, f.(bytes := 0))
    ensures ApplySpec(now, f).0.clusters == now.clusters[s.id := Next(d, f.(bytes := 0), now.limits.max, true).0]
  {
    OthersAreLevel(now, s.id);
    assert Willing(now.limits, Others(now, s.id), d, f.(bytes := 0)) by {
      DueIsWilling(now.limits, Others(now, s.id), s, d, f.(bytes := 0));
    }
    WillingIsTaken(now, s.id, d, f);
  }

  lemma WillingIsTaken(now: Catalog, id: string, d: Cluster, f: Frame)
    requires id in now.clusters && now.clusters[id] == d && IsOwn(f, id)
    requires Willing(now.limits, Others(now, id), d, f.(bytes := 0))
    ensures ApplySpec(now, f).0.clusters == now.clusters[id := Next(d, f.(bytes := 0), now.limits.max, true).0]
  {
    assert Plus(Others(now, id), Books(d)) == now.totals;
    SizeDoesNotMatter(now.limits, now.totals, d, f);
  }

  lemma ContentIsUnsized(s: Sync, k: nat)
    requires k < |Content(s)|
    ensures Content(s)[k].frame.bytes == 0
  {
    ContentLength(s);
    if k <= 2 + |s.parts| {
      ContentPrefix(s, k);
    } else {
      ContentTail(s, k - 3 - |s.parts|);
    }
  }

  lemma OneMoreOwn(c: Cluster, s: Sync, k: nat, max: nat)
    requires k < |Content(s)|
    ensures Run(c, Content(s)[..k + 1], max) == Next(Run(c, Content(s)[..k], max), Content(s)[k].frame, max, true).0
  {
    ContentIsGranted(s, k);
    assert Content(s)[..k + 1][..k] == Content(s)[..k];
  }

  lemma OneMoreOwnFrame(now: Catalog, c: Cluster, s: Sync, k: nat, f: Frame)
    requires Balanced(now) && Doubled(now.limits) && RoomNow(now, s) && LegalChanges(s) && AllDue(now.limits.max, c, s)
    requires k < |Content(s)| && now.clusters[s.id] == Run(c, Content(s)[..k], now.limits.max)
    requires IsOwn(f, s.id) && f.(bytes := 0) == Content(s)[k].frame
    ensures ApplySpec(now, f).0.clusters == now.clusters[s.id := Run(c, Content(s)[..k + 1], now.limits.max)]
  {
    OwnFrameIsTaken(now, s, now.clusters[s.id], f);
    OneMoreOwn(c, s, k, now.limits.max);
  }

  /** The cluster has exactly what the first k frames of the sync make of the record c. */
  ghost predicate HasGot(now: Catalog, c: Cluster, s: Sync, k: nat)
  {
    k <= |Content(s)| && s.id in now.clusters && now.clusters[s.id] == Run(c, Content(s)[..k], now.limits.max)
  }

  /** One more frame of the sync. */
  lemma OwnFrameComes(now: Catalog, c: Cluster, size: Frame -> nat, s: Sync, own: seq<Frame>, f: Frame)
    requires Balanced(now) && Doubled(now.limits) && RoomNow(now, s) && LegalChanges(s) && AllDue(now.limits.max, c, s)
    requires IsOwn(f, s.id) && own + [f] <= FramesOf(Sent(size, s)) && HasGot(now, c, s, |own|)
    ensures HasGot(ApplySpec(now, f).0, c, s, |own| + 1)
  {
    IsOfContent(size, s, own, f);
    OneMoreOwnFrame(now, c, s, |own|, f);
  }

  /** One more frame of another cluster. */
  lemma OtherFrameComes(now: Catalog, c: Cluster, s: Sync, k: nat, f: Frame)
    requires !IsOwn(f, s.id) && HasGot(now, c, s, k)
    ensures HasGot(ApplySpec(now, f).0, c, s, k)
  {
    ApplyIsLocal(now, f, s.id);
  }

  lemma IsOfContent(size: Frame -> nat, s: Sync, own: seq<Frame>, f: Frame)
    requires f.Frame? && own + [f] <= FramesOf(Sent(size, s))
    ensures |own| < |Content(s)| && f.(bytes := 0) == Content(s)[|own|].frame
  {
    assert (own + [f])[|own|] == f;
    ContentIsUnsized(s, |own|);
  }

  lemma NothingComes(now: Catalog, s: Sync)
    requires s.id in now.clusters
    ensures HasGot(now, now.clusters[s.id], s, 0)
  {
  }

  /** One more frame, of whichever cluster. */
  lemma OneMoreFrame(now: Catalog, c: Cluster, size: Frame -> nat, s: Sync, own: seq<Frame>, grown: seq<Frame>, f: Frame)
    requires Balanced(now) && Doubled(now.limits) && LegalChanges(s) && AllDue(now.limits.max, c, s)
    requires IsOwn(f, s.id) ==> RoomNow(now, s)
    requires grown == own + (if IsOwn(f, s.id) then [f] else []) && grown <= FramesOf(Sent(size, s))
    requires HasGot(now, c, s, |own|)
    ensures HasGot(ApplySpec(now, f).0, c, s, |grown|)
  {
    if IsOwn(f, s.id) {
      OwnFrameComes(now, c, size, s, own, f);
    } else {
      OtherFrameComes(now, c, s, |own|, f);
    }
  }

  lemma LastFrame(cat: Catalog, frames: seq<Frame>, s: Sync)
    requires frames != [] && RoomKept(cat, frames, s)
    ensures var prefix, f := frames[..|frames| - 1], frames[|frames| - 1];
      && ApplyAll(cat, frames) == ApplySpec(ApplyAll(cat, prefix), f).0
      && Own(frames, s.id) == Own(prefix, s.id) + (if IsOwn(f, s.id) then [f] else [])
      && RoomKept(cat, prefix, s) && (IsOwn(f, s.id) ==> RoomNow(ApplyAll(cat, prefix), s))
  {
  }

  /** While there is room, the cluster has exactly what the frames of the sync so far make of its record. */
  lemma {:induction false} SyncGoesThrough(cat: Catalog, size: Frame -> nat, s: Sync, frames: seq<Frame>)
    requires Balanced(cat) && Doubled(cat.limits) && s.id in cat.clusters && LegalChanges(s)
    requires AllDue(cat.limits.max, cat.clusters[s.id], s) && RoomKept(cat, frames, s)
    requires Own(frames, s.id) <= FramesOf(Sent(size, s))
    ensures HasGot(ApplyAll(cat, frames), cat.clusters[s.id], s, |Own(frames, s.id)|)
    decreases |frames|
  {
    if frames == [] {
      NothingComes(cat, s);
    } else {
      var prefix, f := frames[..|frames| - 1], frames[|frames| - 1];
      LastFrame(cat, frames, s);
      SyncGoesThrough(cat, size, s, prefix);
      ApplyAllKeepsFrame(cat, prefix);
      StaysBalanced(cat, prefix);
      OneMoreFrame(ApplyAll(cat, prefix), cat.clusters[s.id], size, s, Own(prefix, s.id), Own(frames, s.id), f);
    }
  }

  /** Room at one of its frames is room for the snapshot. */
  lemma {:induction false} SnapshotFits(cat: Catalog, frames: seq<Frame>, s: Sync)
    requires Balanced(cat) && RoomKept(cat, frames, s) && Own(frames, s.id) != []
    ensures |At(s.history, s.epoch, s.from)| <= cat.limits.max
    decreases |frames|
  {
    var prefix, f := frames[..|frames| - 1], frames[|frames| - 1];
    if IsOwn(f, s.id) {
      StaysBalanced(cat, prefix);
      ApplyAllKeepsFrame(cat, prefix);
      var now := ApplyAll(cat, prefix);
      OthersAreLevel(now, s.id);
      RoomAt(now.limits, Others(now, s.id), s, s.from);
    } else {
      SnapshotFits(cat, prefix, s);
    }
  }

  lemma {:induction false} StaysBalanced(cat: Catalog, frames: seq<Frame>)
    requires Balanced(cat)
    ensures Balanced(ApplyAll(cat, frames))
    decreases |frames|
  {
    if frames != [] {
      StaysBalanced(cat, frames[..|frames| - 1]);
      ApplyKeepsBalance(ApplyAll(cat, frames[..|frames| - 1]), frames[|frames| - 1]);
    }
  }

  lemma AllOfItCame(after: Catalog, c: Cluster, s: Sync)
    requires LegalSync(s) && |At(s.history, s.epoch, s.from)| <= after.limits.max && HasGot(after, c, s, |Content(s)|)
    ensures Visible(after.clusters[s.id]) == Some(At(s.history, s.epoch, s.upTo))
    ensures var d := after.clusters[s.id]; d.epoch == s.epoch && d.seq_ == s.upTo && !d.resyncNeeded
  {
    assert Content(s)[..|Content(s)|] == Content(s);
    SyncContentCatchesUp(c, s.id, s.history, s.epoch, s.from, s.upTo, s.parts, s.observed, s.times, after.limits.max);
  }

  /** Convergence, progress half, for the running catalogue: from any state and whatever the cluster's own record
      is, let the frames of one unbroken sync arrive, each within the size limit, with any frames of other
      clusters in between. If at each of them no other cluster is staging and every map of the source from
      number `from` to `upTo` has room beside what the others have live, none is refused, and in the end the
      source's map at number `upTo` is served. */
  lemma SyncAmongOthersCatchesUp(cat: Catalog, maxResources: nat, size: Frame -> nat, s: Sync, frames: seq<Frame>)
    requires Balanced(cat) && cat.limits == LimitsFor(maxResources) && s.id in cat.clusters && LegalSync(s)
    requires Own(frames, s.id) == FramesOf(Sent(size, s)) && RoomKept(cat, frames, s)
    ensures var after := ApplyAll(cat, frames);
      && s.id in after.clusters && Visible(after.clusters[s.id]) == Some(At(s.history, s.epoch, s.upTo))
      && after.clusters[s.id].epoch == s.epoch && after.clusters[s.id].seq_ == s.upTo && !after.clusters[s.id].resyncNeeded
  {
    ContentLength(s);
    SnapshotFits(cat, frames, s);
    LegalSyncIsDue(cat.limits.max, cat.clusters[s.id], s);
    SyncGoesThrough(cat, size, s, frames);
    ApplyAllKeepsFrame(cat, frames);
    AllOfItCame(ApplyAll(cat, frames), cat.clusters[s.id], s);
  }

  // ----- a sync alone -----

  /** Frames of one cluster do not change the room the others leave it. */
  lemma {:induction false} OwnFramesKeepRoom(cat: Catalog, frames: seq<Frame>, s: Sync)
    requires RoomNow(cat, s) && forall i :: 0 <= i < |frames| ==> IsOwn(frames[i], s.id)
    ensures RoomKept(cat, frames, s) && RoomNow(ApplyAll(cat, frames), s)
    ensures Own(frames, s.id) == frames
    decreases |frames|
  {
    if frames != [] {
      var prefix, f := frames[..|frames| - 1], frames[|frames| - 1];
      OwnFramesKeepRoom(cat, prefix, s);
      OwnFrameKeepsRoom(ApplyAll(cat, prefix), f, s);
      assert frames == prefix + [f];
    }
  }

  lemma OwnFrameKeepsRoom(now: Catalog, f: Frame, s: Sync)
    requires RoomNow(now, s) && IsOwn(f, s.id)
    ensures RoomNow(ApplySpec(now, f).0, s)
  {
    var after := ApplySpec(now, f).0;
    assert Others(after, s.id) == Others(now, s.id);
    assert forall i :: i in after.clusters && i != s.id ==> after.clusters[i] == now.clusters[i];
  }

  /** With nothing in between, room at the start is enough. */
  lemma SyncWithRoomCatchesUp(cat: Catalog, maxResources: nat, size: Frame -> nat, s: Sync)
    requires Balanced(cat) && cat.limits == LimitsFor(maxResources) && LegalSync(s)
    requires AllWithin(Sent(size, s)) && RoomNow(cat, s)
    ensures var after := ApplyAll(cat, FramesOf(Sent(size, s)));
      && s.id in after.clusters && Visible(after.clusters[s.id]) == Some(At(s.history, s.epoch, s.upTo))
      && after.clusters[s.id].epoch == s.epoch && after.clusters[s.id].seq_ == s.upTo && !after.clusters[s.id].resyncNeeded
  {
    var frames := FramesOf(Sent(size, s));
    forall i | 0 <= i < |frames| ensures IsOwn(frames[i], s.id) {
      ContentIsAddressed(s, i);
    }
    OwnFramesKeepRoom(cat, frames, s);
    SyncAmongOthersCatchesUp(cat, maxResources, size, s, frames);
  }

  lemma ContentIsAddressed(s: Sync, k: nat)
    requires k < |Content(s)|
    ensures Content(s)[k].frame.clusterId == s.id
  {
    ContentLength(s);
    if k <= 2 + |s.parts| {
      ContentPrefix(s, k);
    } else {
      ContentTail(s, k - 3 - |s.parts|);
    }
  }

  // ----- what is too large -----

  predicate Carries(f: Frame, r: Resource)
  {
    f.Frame? && (r in f.resources || (f.change.Change? && f.change.resource == r))
  }

  /** The resource is live or staged. */
  predicate Holds(c: Cluster, r: Resource)
  {
    r in c.resources.Values || r in StagedMap(c).Values
  }

  lemma {:induction false} StagingKeepsOut(m: map<Key, Resource>, rs: seq<Resource>, max: nat, r: Resource)
    requires StageAll(m, rs, max).Some? && r !in m.Values && r !in rs
    ensures r !in StageAll(m, rs, max).value.Values
    decreases |rs|
  {
    if rs != [] {
      var m' := m[KeyOf(rs[0]) := rs[0]];
      assert rs[0] in rs && forall x :: x in m'.Values ==> x == rs[0] || x in m.Values;
      StagingKeepsOut(m', rs[1..], max, r);
    }
  }

  /** A resource only ever comes with a frame that carries it. */
  lemma FrameKeepsOut(c: Cluster, f: Frame, max: nat, granted: bool, r: Resource)
    requires f.Frame? && !Carries(f, r) && !Holds(c, r)
    ensures !Holds(Next(c, f, max, granted).0, r)
  {
    match f.ftype
    case SnapshotChunk =>
      if ValidChunk(c, f) && StageAll(StagedMap(c), f.resources, max).Some? {
        StagingKeepsOut(StagedMap(c), f.resources, max, r);
      }
    case Delta =>
      if ValidDelta(c, f) {
        assert forall x :: x in Changed(c.resources, f.change).Values ==> x == f.change.resource || x in c.resources.Values;
      }
    case _ =>
  }

  /** Whatever frames arrive for whatever clusters: if every frame that carries the resource is over the size
      limit, the cluster never holds it. */
  lemma {:induction false} TooLargeNeverComes(cat: Catalog, frames: seq<Frame>, id: string, r: Resource)
    requires id in cat.clusters && !Holds(cat.clusters[id], r)
    requires forall i :: 0 <= i < |frames| && Carries(frames[i], r) ==> frames[i].bytes > MaxFrameBytes
    ensures id in ApplyAll(cat, frames).clusters && !Holds(ApplyAll(cat, frames).clusters[id], r)
    decreases |frames|
  {
    if frames != [] {
      var prefix, f := frames[..|frames| - 1], frames[|frames| - 1];
      TooLargeNeverComes(cat, prefix, id, r);
      var now := ApplyAll(cat, prefix);
      ApplyIsLocal(now, f, id);
      if Addressed(now, f) && f.clusterId == id {
        FrameKeepsOut(now.clusters[id], f, now.limits.max, Granted(now.limits, now.totals, now.clusters[id], f), r);
      }
    }
  }

  /** No frame that carries the resource fits. */
  ghost predicate TooLargeToSend(size: Frame -> nat, r: Resource)
  {
    forall f :: Carries(f, r) && f.bytes == 0 ==> size(f) > MaxFrameBytes
  }

  /** The converse of catching up: a resource too large for any frame is never served, whatever is sent. So the
      source's map is never served at any number at which it has such a resource. */
  lemma TooLargeIsNeverServed(
      ids: set<string>, maxResources: nat, size: Frame -> nat, frames: seq<Frame>, id: string, r: Resource)
    requires id in ids && TooLargeToSend(size, r)
    requires forall i :: 0 <= i < |frames| && frames[i].Frame? ==> frames[i].bytes == size(frames[i].(bytes := 0))
    ensures var after := ApplyAll(NewCatalog(ids, maxResources), frames);
      id in after.clusters && (Visible(after.clusters[id]).Some? ==> r !in Visible(after.clusters[id]).value.Values)
  {
    forall i | 0 <= i < |frames| && Carries(frames[i], r) ensures frames[i].bytes > MaxFrameBytes {
      assert Carries(frames[i].(bytes := 0), r);
    }
    TooLargeNeverComes(NewCatalog(ids, maxResources), frames, id, r);
  }

  /** A chunk with a resource in it is no smaller than one with that resource alone. */
  ghost predicate Grows(size: Frame -> nat, id: string, e: UInt64, n: UInt64, observed: int)
  {
    forall rs, r | r in rs :: size(ChunkFrame(id, e, n, observed, [r])) <= size(ChunkFrame(id, e, n, observed, rs))
  }

  predicate ChunksWithin(size: Frame -> nat, id: string, e: UInt64, n: UInt64, observed: int, parts: seq<seq<Resource>>)
  {
    forall i :: 0 <= i < |parts| ==> size(ChunkFrame(id, e, n, observed, parts[i])) <= MaxFrameBytes
  }

  function Singly(rs: seq<Resource>): seq<seq<Resource>>
  {
    seq(|rs|, i requires 0 <= i < |rs| => [rs[i]])
  }

  lemma {:induction false} SinglyIsACut(rs: seq<Resource>)
    ensures Flatten(Singly(rs)) == rs
    decreases |rs|
  {
    if rs != [] {
      var last := |rs| - 1;
      SinglyIsACut(rs[..last]);
      assert Singly(rs)[..last] == Singly(rs[..last]);
      assert rs == rs[..last] + [rs[last]];
    }
  }

  lemma {:induction false} InSomePart(parts: seq<seq<Resource>>, r: Resource) returns (i: nat)
    requires r in Flatten(parts)
    ensures i < |parts| && r in parts[i]
    decreases |parts|
  {
    var last := |parts| - 1;
    if r in parts[last] {
      i := last;
    } else {
      i := InSomePart(parts[..last], r);
    }
  }

  /** A snapshot can be cut into chunks that are all within the size limit exactly when each of its resources
      fits into a chunk of its own. */
  lemma CutExistsIff(size: Frame -> nat, id: string, e: UInt64, n: UInt64, observed: int, rs: seq<Resource>)
    requires AllValid(rs) && Grows(size, id, e, n, observed)
    ensures (exists parts :: LegalParts(parts) && Flatten(parts) == rs && ChunksWithin(size, id, e, n, observed, parts))
            <==> forall r :: r in rs ==> size(ChunkFrame(id, e, n, observed, [r])) <= MaxFrameBytes
  {
    if forall r :: r in rs ==> size(ChunkFrame(id, e, n, observed, [r])) <= MaxFrameBytes {
      SinglyIsACut(rs);
      assert LegalParts(Singly(rs));
      assert ChunksWithin(size, id, e, n, observed, Singly(rs));
    }
    if parts :| LegalParts(parts) && Flatten(parts) == rs && ChunksWithin(size, id, e, n, observed, parts) {
      forall r | r in rs ensures size(ChunkFrame(id, e, n, observed, [r])) <= MaxFrameBytes {
        var i := InSomePart(parts, r);
        assert r in parts[i];
      }
    }
  }
}
