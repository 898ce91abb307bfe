/** The catalogue against its source. A source keeps, per epoch, a base snapshot and numbered deltas;
    its streams are ordered, may break anywhere and are followed by a reset. Whatever happens, an available
    cluster serves the source's own map at the epoch and sequence number it records; and one
    unbroken sync brings any record, however stale, to the source's latest map. */
module CatalogConvergence {
  import opened CatalogProtocol
  import opened Options
  import opened CatalogAtomicity

  // ----- the source -----

  datatype History = History(baseSeq: UInt64, base: map<Key, Resource>, deltas: seq<Change>)

  type Source = map<UInt64, History>

  predicate Numbered(h: History, epoch: UInt64)
  {
    forall i :: 0 <= i < |h.deltas| ==>
      var d := h.deltas[i];
      d.Change? && d.resource.Resource? && d.epoch == epoch && d.seq_ == h.baseSeq + i + 1
  }

  predicate NumberedSource(src: Source)
  {
    forall e :: e in src ==> Numbered(src[e], e)
  }

  predicate Covers(h: History, n: int)
  {
    h.baseSeq <= n <= h.baseSeq + |h.deltas|
  }

  /** The source's map at sequence number n: the fold of its first deltas. */
  function At(h: History, epoch: UInt64, n: int): map<Key, Resource>
    requires Numbered(h, epoch) && Covers(h, n)
    decreases n
  {
    if n == h.baseSeq then h.base else Changed(At(h, epoch, n - 1), h.deltas[n - h.baseSeq - 1])
  }

  /** A source only ever gains epochs, and an epoch only ever gains deltas at its end. */
  predicate Extends(old_: Source, new_: Source)
  {
    forall e :: e in old_ ==>
      && e in new_
      && new_[e].baseSeq == old_[e].baseSeq && new_[e].base == old_[e].base
      && old_[e].deltas <= new_[e].deltas
  }

  lemma {:induction false} AtIsStable(old_: Source, new_: Source, e: UInt64, n: int)
    requires NumberedSource(old_) && NumberedSource(new_) && Extends(old_, new_)
    requires e in old_ && Covers(old_[e], n)
    ensures Covers(new_[e], n) && At(new_[e], e, n) == At(old_[e], e, n)
    decreases n
  {
    if n != old_[e].baseSeq {
      AtIsStable(old_, new_, e, n - 1);
    }
  }

  // ----- its streams -----

  datatype Stream =
    | Quiet
    | Sending(epoch: UInt64, seq_: UInt64, observed: int, sent: map<Key, Resource>)

  function AddAll(m: map<Key, Resource>, rs: seq<Resource>): map<Key, Resource>
    requires forall i :: 0 <= i < |rs| ==> rs[i].Resource?
    decreases |rs|
  {
    if rs == [] then m else AddAll(m[KeyOf(rs[0]) := rs[0]], rs[1..])
  }

  predicate InHistory(src: Source, e: UInt64, n: int)
  {
    e in src && Covers(src[e], n)
  }

  predicate HeaderOf(st: Stream, f: Frame)
    requires f.Frame?
  {
    st.Sending? && f.epoch == st.epoch && f.seq_ == st.seq_ && f.observed == st.observed
  }

  /** A delta frame is authentic when its change is the one the source made at that number. */
  predicate Authentic(src: Source, f: Frame)
    requires f.Frame?
  {
    f.change.Change? && f.change.epoch in src &&
    var h := src[f.change.epoch];
    h.baseSeq < f.change.seq_ && Covers(h, f.change.seq_) && f.change == h.deltas[f.change.seq_ - h.baseSeq - 1]
  }

  /** Frame f may be the next frame of a stream in state st, leaving it in state st'. Snapshots are sent
      in order, each opened by a well-formed begin; deltas may be late, early, repeated or missing, as long as they are authentic; other frames may be anything. */
  predicate Emits(src: Source, st: Stream, f: Frame, st': Stream)
    requires NumberedSource(src)
  {
    f.Frame? &&
    match f.ftype
    case SnapshotBegin =>
      ValidBegin(f) && InHistory(src, f.epoch, f.seq_) && st' == Sending(f.epoch, f.seq_, f.observed, map[])
    case SnapshotChunk =>
      && HeaderOf(st, f)
      && (forall i :: 0 <= i < |f.resources| ==> f.resources[i].Resource?)
      && st' == st.(sent := AddAll(st.sent, f.resources))
    case SnapshotCommit =>
      && HeaderOf(st, f) && InHistory(src, st.epoch, st.seq_)
      && st.sent == At(src[st.epoch], st.epoch, st.seq_)
      && st' == Quiet
    case Delta => Authentic(src, f) && st' == st
    case Reset => st' == st
    case Expired => st' == st
    case Heartbeat => st' == st
    case UnknownType => st' == st
  }

  // ----- every run -----

  datatype World = World(src: Source, st: Stream, c: Cluster)

  datatype Event =
    | Deliver(frame: Frame, granted: bool)  // the next frame arrives; the capacity checks answer anything
    | Cut                                   // the stream breaks here and the watcher applies a reset
    | Extend                                // the source moves on
    | Restart                               // the API process starts afresh

  function ResetFrame(id: string): Frame
  {
    Frame(id, 0, 0, Reset, [], NoChange, 0, 0)
  }

  predicate WorldStep(max: nat, w: World, e: Event, w': World)
  {
    NumberedSource(w.src) &&
    match e
    case Deliver(f, granted) =>
      && w'.src == w.src && Emits(w.src, w.st, f, w'.st) && w'.c == Next(w.c, f, max, granted).0
    case Cut => w'.src == w.src && w'.st == Quiet && w'.c == Next(w.c, ResetFrame(""), max, true).0
    case Extend => NumberedSource(w'.src) && Extends(w.src, w'.src) && w'.st == w.st && w'.c == w.c
    case Restart => w'.src == w.src && w'.st == Quiet && w'.c == EmptyCluster
  }

  ghost predicate IsRun(max: nat, ws: seq<World>, es: seq<Event>)
  {
    && |ws| == |es| + 1
    && NumberedSource(ws[0].src) && ws[0].st == Quiet && ws[0].c == EmptyCluster
    && forall i :: 0 <= i < |es| ==> WorldStep(max, ws[i], es[i], ws[i + 1])
  }

  /** What is served is the source's map at the recorded epoch and number. */
  predicate ServesSource(src: Source, c: Cluster)
    requires NumberedSource(src)
  {
    Visible(c).Some? ==> InHistory(src, c.epoch, c.seq_) && Visible(c).value == At(src[c.epoch], c.epoch, c.seq_)
  }

  /** A stage that is still held is exactly what the current stream has sent. */
  predicate StageFollows(st: Stream, c: Cluster)
  {
    c.staging.Some? ==>
      st.Sending? && c.staging.value == Stage(st.epoch, st.seq_, st.observed, st.sent)
  }

  predicate Faithful(w: World)
  {
    NumberedSource(w.src) && ServesSource(w.src, w.c) && StageFollows(w.st, w.c)
  }

  lemma {:induction false} StageAllAdds(m: map<Key, Resource>, rs: seq<Resource>, max: nat)
    requires StageAll(m, rs, max).Some?
    requires forall i :: 0 <= i < |rs| ==> rs[i].Resource?
    ensures StageAll(m, rs, max).value == AddAll(m, rs)
    decreases |rs|
  {
    if rs != [] {
      StageAllAdds(m[KeyOf(rs[0]) := rs[0]], rs[1..], max);
    }
  }

  lemma DeltaKeepsFaithful(max: nat, w: World, f: Frame, granted: bool, w': World)
    requires Faithful(w) && WorldStep(max, w, Deliver(f, granted), w') && f.ftype.Delta?
    ensures Faithful(w')
  {
    if ValidDelta(w.c, f) && f.change.seq_ == w.c.seq_ + 1 {
      var h := w.src[w.c.epoch];
      assert At(h, w.c.epoch, f.change.seq_) == Changed(At(h, w.c.epoch, w.c.seq_), f.change);
    }
  }

  lemma ChunkKeepsFaithful(max: nat, w: World, f: Frame, granted: bool, w': World)
    requires Faithful(w) && WorldStep(max, w, Deliver(f, granted), w') && f.ftype.SnapshotChunk?
    ensures Faithful(w')
  {
    if ValidChunk(w.c, f) && StageAll(w.c.staging.value.resources, f.resources, max).Some? {
      StageAllAdds(w.c.staging.value.resources, f.resources, max);
    }
  }

  lemma OtherFramesKeepFaithful(max: nat, w: World, f: Frame, granted: bool, w': World)
    requires Faithful(w) && WorldStep(max, w, Deliver(f, granted), w')
    requires !f.ftype.Delta? && !f.ftype.SnapshotChunk?
    ensures Faithful(w')
  {
    assert f.ftype.SnapshotCommit? && ValidCommit(w.c, f) ==> w.c.staging.value.resources == w.st.sent;
  }

  lemma StepKeepsFaithful(max: nat, w: World, e: Event, w': World)
    requires Faithful(w) && WorldStep(max, w, e, w')
    ensures Faithful(w')
  {
    match e
    case Deliver(f, granted) =>
      if f.ftype.Delta? {
        DeltaKeepsFaithful(max, w, f, granted, w');
      } else if f.ftype.SnapshotChunk? {
        ChunkKeepsFaithful(max, w, f, granted, w');
      } else {
        OtherFramesKeepFaithful(max, w, f, granted, w');
      }
    case Extend =>
      if w.c.available {
        AtIsStable(w.src, w'.src, w.c.epoch, w.c.seq_);
      }
    case Cut =>
    case Restart =>
  }

  /** Convergence, safety half: in every state of every run (breaks, gaps, duplicates, capacity refusals,
      restarts, a source that keeps moving) an available cluster serves exactly the source's map for its
      epoch at its recorded sequence number. */
  lemma {:induction false} EveryRunServesTheSource(max: nat, ws: seq<World>, es: seq<Event>, i: nat)
    requires IsRun(max, ws, es) && i < |ws|
    ensures Faithful(ws[i])
    decreases i
  {
    if i > 0 {
      EveryRunServesTheSource(max, ws, es, i - 1);
      StepKeepsFaithful(max, ws[i - 1], es[i - 1], ws[i]);
    }
  }

  /** A log whose frames could have been sent, in this order, on one or more streams of a fixed source. */
  ghost predicate LegalLog(src: Source, sts: seq<Stream>, log: seq<Received>)
    requires NumberedSource(src) && AllFrames(log)
  {
    && |sts| == |log| + 1 && sts[0] == Quiet
    && forall i :: 0 <= i < |log| ==>
         Emits(src, sts[i], log[i].frame, sts[i + 1]) || (log[i].frame == ResetFrame(log[i].frame.clusterId) && sts[i + 1] == Quiet)
  }

  /** Convergence for a log: whatever the capacity answers, the record it leads to serves the source. */
  lemma {:induction false} LogServesSource(src: Source, sts: seq<Stream>, log: seq<Received>, max: nat)
    requires NumberedSource(src) && AllFrames(log) && LegalLog(src, sts, log)
    ensures Faithful(World(src, sts[|log|], Run(EmptyCluster, log, max)))
    decreases |log|
  {
    if log != [] {
      var last := |log| - 1;
      var prefix, r := log[..last], log[last];
      assert LegalLog(src, sts[..last + 1], prefix);
      LogServesSource(src, sts[..last + 1], prefix, max);
      var w := World(src, sts[last], Run(EmptyCluster, prefix, max));
      var w' := World(src, sts[last + 1], Run(EmptyCluster, log, max));
      if Emits(src, sts[last], r.frame, sts[last + 1]) {
        StepKeepsFaithful(max, w, Deliver(r.frame, r.granted), w');
      } else {
        StepKeepsFaithful(max, w, Cut, w');
      }
    }
  }

  // ----- catching up -----

  function BeginFrame(id: string, e: UInt64, n: UInt64, observed: int): Frame
  {
    Frame(id, e, n, SnapshotBegin, [], NoChange, observed, 0)
  }

  function ChunkFrame(id: string, e: UInt64, n: UInt64, observed: int, rs: seq<Resource>): Frame
  {
    Frame(id, e, n, SnapshotChunk, rs, NoChange, observed, 0)
  }

  function CommitFrame(id: string, e: UInt64, n: UInt64, observed: int): Frame
  {
    Frame(id, e, n, SnapshotCommit, [], NoChange, observed, 0)
  }

  function DeltaFrame(id: string, d: Change, observed: int): Frame
    requires d.Change?
  {
    Frame(id, d.epoch, d.seq_, Delta, [], d, observed, 0)
  }

  function Flatten<T>(parts: seq<seq<T>>): seq<T>
  {
    if parts == [] then [] else Flatten(parts[..|parts| - 1]) + parts[|parts| - 1]
  }

  function Chunks(id: string, e: UInt64, n: UInt64, observed: int, parts: seq<seq<Resource>>): (log: seq<Received>)
    ensures |log| == |parts| && AllChunks(log)
  {
    if parts == [] then []
    else
      var last := |parts| - 1;
      Chunks(id, e, n, observed, parts[..last]) + [Received(ChunkFrame(id, e, n, observed, parts[last]), true)]
  }

  /** The deltas numbered n+1 .. m; times[i] is when the source observed its delta i. */
  function Deltas(id: string, h: History, e: UInt64, n: int, m: int, times: seq<int>): (log: seq<Received>)
    requires Numbered(h, e) && Covers(h, n) && Covers(h, m) && n <= m && |times| == |h.deltas|
    ensures |log| == m - n && AllFrames(log)
    decreases m
  {
    if n == m then []
    else
      Deltas(id, h, e, n, m - 1, times)
        + [Received(DeltaFrame(id, h.deltas[m - h.baseSeq - 1], times[m - h.baseSeq - 1]), true)]
  }

  predicate LegalParts(parts: seq<seq<Resource>>)
  {
    && (forall i :: 0 <= i < |parts| ==> 0 < |parts[i]| <= MaxChunkResources)
    && AllValid(Flatten(parts))
  }

  /** Each delta after number n is one the catalogue can take: a legal resource, created only when absent. */
  predicate LegalDeltas(h: History, e: UInt64, n: int, m: int)
    requires Numbered(h, e) && Covers(h, n) && Covers(h, m)
  {
    forall i :: n - h.baseSeq <= i < m - h.baseSeq ==>
      var d := h.deltas[i];
      && !d.action.Unspecified? && ValidResource(d.resource, false)
      && (PersistentKind(d.resource.kind) ==> ActionFits(At(h, e, h.baseSeq + i), d))
  }

  lemma {:induction false} StageAllSucceeds(m: map<Key, Resource>, before: seq<Resource>, rs: seq<Resource>, max: nat)
    requires IsIndexOf(m, before) && AllValid(rs) && |before| + |rs| <= max
    requires forall i, j :: 0 <= i < j < |before + rs| && (before + rs)[i].Resource? && (before + rs)[j].Resource?
               ==> KeyOf((before + rs)[i]) != KeyOf((before + rs)[j])
    ensures StageAll(m, rs, max).Some?
    decreases |rs|
  {
    if rs != [] {
      var all := before + rs;
      assert all[|before|] == rs[0] && forall i :: 0 <= i < |before| ==> all[i] == before[i];
      if KeyOf(rs[0]) in m {
        IndexHasNothingElse(m, before, KeyOf(rs[0]));
        assert false;
      }
      IndexExtends(m, before, rs[0]);
      assert before + [rs[0]] + rs[1..] == all;
      assert AllValid(rs[1..]);
      StageAllSucceeds(m[KeyOf(rs[0]) := rs[0]], before + [rs[0]], rs[1..], max);
    }
  }

  lemma {:induction false} ChunksAreStaged(
    c: Cluster, id: string, e: UInt64, n: UInt64, observed: int, parts: seq<seq<Resource>>, max: nat,
    target: map<Key, Resource>, rest: seq<Resource>)
    requires c.staging == Some(Stage(e, n, observed, map[])) && 0 < observed
    requires LegalParts(parts) && IsIndexOf(target, Flatten(parts) + rest) && |target| <= max
    ensures
      var d := Run(c, Chunks(id, e, n, observed, parts), max);
      && d == c.(staging := d.staging) && d.staging.Some?
      && d.staging.value == Stage(e, n, observed, d.staging.value.resources)
      && IsIndexOf(d.staging.value.resources, Flatten(parts))
    decreases |parts|
  {
    if parts != [] {
      var last := |parts| - 1;
      var prefix, rs := parts[..last], parts[last];
      assert Flatten(parts) == Flatten(prefix) + rs;
      LegalPrefix(parts);
      assert Flatten(parts) + rest == Flatten(prefix) + (rs + rest);
      ChunksAreStaged(c, id, e, n, observed, prefix, max, target, rs + rest);
      var log := Chunks(id, e, n, observed, parts);
      assert log[..last] == Chunks(id, e, n, observed, prefix);
      var d := Run(c, log[..last], max);
      DistinctPrefix(target, Flatten(parts), rest);
      StageAllSucceeds(d.staging.value.resources, Flatten(prefix), rs, max);
      StageAllIndexes(d.staging.value.resources, Flatten(prefix), rs, max);
    }
  }

  lemma LegalPrefix(parts: seq<seq<Resource>>)
    requires LegalParts(parts) && parts != []
    ensures LegalParts(parts[..|parts| - 1]) && AllValid(parts[|parts| - 1])
  {
    var prefix, rs := parts[..|parts| - 1], parts[|parts| - 1];
    assert Flatten(parts) == Flatten(prefix) + rs;
    assert forall i :: 0 <= i < |prefix| ==> prefix[i] == parts[i];
    forall i | 0 <= i < |Flatten(prefix)| ensures ValidResource(Flatten(prefix)[i], true) {
      assert Flatten(parts)[i] == Flatten(prefix)[i];
    }
    forall i | 0 <= i < |rs| ensures ValidResource(rs[i], true) {
      assert Flatten(parts)[|Flatten(prefix)| + i] == rs[i];
    }
  }

  lemma DistinctPrefix(target: map<Key, Resource>, rs: seq<Resource>, rest: seq<Resource>)
    requires IsIndexOf(target, rs + rest)
    ensures |rs| <= |target|
    ensures forall i, j :: 0 <= i < j < |rs| && rs[i].Resource? && rs[j].Resource? ==> KeyOf(rs[i]) != KeyOf(rs[j])
  {
    forall i, j | 0 <= i < j < |rs| && rs[i].Resource? && rs[j].Resource? ensures KeyOf(rs[i]) != KeyOf(rs[j]) {
      assert (rs + rest)[i] == rs[i] && (rs + rest)[j] == rs[j];
    }
  }

  /** Two maps that index the same resources are equal. */
  lemma IndexIsUnique(a: map<Key, Resource>, b: map<Key, Resource>, rs: seq<Resource>)
    requires IsIndexOf(a, rs) && IsIndexOf(b, rs)
    ensures a == b
  {
    forall k | k in a ensures k in b && a[k] == b[k] {
      IndexHasNothingElse(a, rs, k);
    }
    forall k | k in b ensures k in a {
      IndexHasNothingElse(b, rs, k);
    }
  }

  /** Times never go back, from the snapshot's on. */
  predicate InOrder(observed: int, times: seq<int>)
  {
    && 0 < observed && (forall i :: 0 <= i < |times| ==> observed <= times[i])
    && (forall i, j :: 0 <= i < j < |times| ==> times[i] <= times[j])
  }

  /** A well-served cluster takes the next delta of its source. */
  lemma DeltaIsApplied(c: Cluster, id: string, h: History, e: UInt64, m: int, observed: int, max: nat)
    requires Numbered(h, e) && Covers(h, m) && h.baseSeq < m && LegalDeltas(h, e, m - 1, m)
    requires c.available && !c.resyncNeeded && c.epoch == e && c.seq_ == m - 1 && c.resources == At(h, e, m - 1)
    requires 0 < c.observed <= observed
    ensures
      var d := h.deltas[m - h.baseSeq - 1];
      Next(c, DeltaFrame(id, d, observed), max, true).0
        == c.(resources := At(h, e, m), seq_ := d.seq_, observed := observed)
  {
    assert At(h, e, m) == Changed(At(h, e, m - 1), h.deltas[m - h.baseSeq - 1]);
  }

  lemma {:induction false} DeltasAreApplied(c: Cluster, id: string, h: History, e: UInt64, n: int, m: int, times: seq<int>, max: nat)
    requires Numbered(h, e) && Covers(h, n) && Covers(h, m) && n <= m && LegalDeltas(h, e, n, m)
    requires c.available && !c.resyncNeeded && c.epoch == e && c.seq_ == n && c.resources == At(h, e, n)
    requires |times| == |h.deltas| && InOrder(c.observed, times)
    ensures
      var d := Run(c, Deltas(id, h, e, n, m, times), max);
      && d.available && !d.resyncNeeded && d.epoch == e && d.seq_ == m && d.resources == At(h, e, m)
      && d.staging == c.staging && d.observed == if n < m then times[m - h.baseSeq - 1] else c.observed
    decreases m
  {
    if n < m {
      DeltasAreApplied(c, id, h, e, n, m - 1, times, max);
      var log := Deltas(id, h, e, n, m, times);
      var before := Deltas(id, h, e, n, m - 1, times);
      assert log[..|log| - 1] == before;
      DeltaIsApplied(Run(c, before, max), id, h, e, m, times[m - h.baseSeq - 1], max);
    }
  }

  lemma {:induction false} RunAppends(c: Cluster, a: seq<Received>, b: seq<Received>, max: nat)
    requires AllFrames(a) && AllFrames(b)
    ensures AllFrames(a + b) && Run(c, a + b, max) == Run(Run(c, a, max), b, max)
    decreases |b|
  {
    if b == [] {
      assert a + b == a;
    } else {
      var last := |b| - 1;
      RunAppends(c, a, b[..last], max);
      assert (a + b)[..|a + b| - 1] == a + b[..last];
    }
  }

  lemma RunOne(c: Cluster, r: Received, max: nat)
    requires r.frame.Frame?
    ensures Run(c, [r], max) == Next(c, r.frame, max, r.granted).0
  {
    var log := [r];
    assert log[..|log| - 1] == [];
    assert Run(c, log[..|log| - 1], max) == c;
  }

  /** What a full sync says: reset, begin, the snapshot at number n in parts, commit, the deltas up to m. */
  function SyncContent(id: string, h: History, e: UInt64, n: int, m: int, parts: seq<seq<Resource>>,
                       observed: int, times: seq<int>): (log: seq<Received>)
    requires Numbered(h, e) && Covers(h, n) && Covers(h, m) && n <= m && |times| == |h.deltas|
    requires n < 0x1_0000_0000_0000_0000
    ensures AllFrames(log)
  {
    [Received(ResetFrame(id), true), Received(BeginFrame(id, e, n, observed), true)]
      + Chunks(id, e, n, observed, parts)
      + [Received(CommitFrame(id, e, n, observed), true)]
      + Deltas(id, h, e, n, m, times)
  }

  /** A frame as it arrives, with the size of its encoding. */
  function Encoded(size: Frame -> nat, f: Frame): Frame
    requires f.Frame?
  {
    f.(bytes := size(f))
  }

  function EncodedLog(size: Frame -> nat, log: seq<Received>): (r: seq<Received>)
    requires AllFrames(log)
    ensures AllFrames(r) && |r| == |log|
  {
    seq(|log|, i requires 0 <= i < |log| => log[i].(frame := Encoded(size, log[i].frame)))
  }

  /** Everything a full sync sends, under any way of encoding frames. */
  function FullSync(size: Frame -> nat, id: string, h: History, e: UInt64, n: int, m: int, parts: seq<seq<Resource>>,
                    observed: int, times: seq<int>): (log: seq<Received>)
    requires Numbered(h, e) && Covers(h, n) && Covers(h, m) && n <= m && |times| == |h.deltas|
    requires n < 0x1_0000_0000_0000_0000
    ensures AllFrames(log)
  {
    EncodedLog(size, SyncContent(id, h, e, n, m, parts, observed, times))
  }

  /** Every frame is within the size limit. */
  predicate AllWithin(log: seq<Received>)
    requires AllFrames(log)
  {
    forall i :: 0 <= i < |log| ==> log[i].frame.bytes <= MaxFrameBytes
  }

  /** What gets past the size check: a frame that is too large is refused before anything else. */
  function Passing(log: seq<Received>): (r: seq<Received>)
    requires AllFrames(log)
    ensures AllFrames(r)
  {
    if log == [] then []
    else Passing(log[..|log| - 1]) + if log[|log| - 1].frame.bytes <= MaxFrameBytes then [log[|log| - 1]] else []
  }

  lemma LastApart(log: seq<Received>)
    requires log != []
    ensures log == log[..|log| - 1] + [log[|log| - 1]]
  {
  }

  lemma {:induction false} AllPass(log: seq<Received>)
    requires AllFrames(log) && AllWithin(log)
    ensures Passing(log) == log
    decreases |log|
  {
    if log != [] {
      AllPass(log[..|log| - 1]);
      LastApart(log);
    }
  }

  lemma NextIgnoresSize(c: Cluster, f: Frame, n: nat, max: nat, granted: bool)
    requires f.Frame?
    ensures Next(c, f.(bytes := n), max, granted) == Next(c, f, max, granted)
  {
  }

  lemma EncodedPrefix(size: Frame -> nat, log: seq<Received>)
    requires AllFrames(log) && log != []
    ensures AllFrames(log[..|log| - 1]) && EncodedLog(size, log)[..|log| - 1] == EncodedLog(size, log[..|log| - 1])
    ensures EncodedLog(size, log)[|log| - 1] == log[|log| - 1].(frame := Encoded(size, log[|log| - 1].frame))
  {
  }

  /** Past the size check the protocol does not look at sizes. */
  lemma {:induction false} EncodingDoesNotMatter(c: Cluster, size: Frame -> nat, log: seq<Received>, max: nat)
    requires AllFrames(log)
    ensures Run(c, EncodedLog(size, log), max) == Run(c, log, max)
    decreases |log|
  {
    if log != [] {
      var before, r := log[..|log| - 1], log[|log| - 1];
      EncodedPrefix(size, log);
      EncodingDoesNotMatter(c, size, before, max);
      NextIgnoresSize(Run(c, before, max), r.frame, size(r.frame), max, r.granted);
    }
  }

  lemma SyncContentCatchesUp(c: Cluster, id: string, h: History, e: UInt64, n: int, m: int,
                             parts: seq<seq<Resource>>, observed: int, times: seq<int>, max: nat)
    requires e != 0 && Numbered(h, e) && Covers(h, n) && Covers(h, m) && n <= m < 0x1_0000_0000_0000_0000
    requires LegalParts(parts) && IsIndexOf(At(h, e, n), Flatten(parts)) && |At(h, e, n)| <= max
    requires LegalDeltas(h, e, n, m) && |times| == |h.deltas| && InOrder(observed, times)
    ensures
      var d := Run(c, SyncContent(id, h, e, n, m, parts, observed, times), max);
      Visible(d) == Some(At(h, e, m)) && d.epoch == e && d.seq_ == m && !d.resyncNeeded
  {
    var head := [Received(ResetFrame(id), true), Received(BeginFrame(id, e, n, observed), true)];
    var chunks := Chunks(id, e, n, observed, parts);
    var commit := [Received(CommitFrame(id, e, n, observed), true)];
    var deltas := Deltas(id, h, e, n, m, times);
    var c1 := Run(c, head, max);
    RunOne(c, head[0], max);
    assert head[..|head| - 1] == [head[0]];
    assert c1.staging == Some(Stage(e, n, observed, map[]));
    assert Flatten(parts) + [] == Flatten(parts);
    ChunksAreStaged(c1, id, e, n, observed, parts, max, At(h, e, n), []);
    var c2 := Run(c1, chunks, max);
    IndexIsUnique(c2.staging.value.resources, At(h, e, n), Flatten(parts));
    var c3 := Run(c2, commit, max);
    RunOne(c2, commit[0], max);
    assert c3 == Cluster(e, n, At(h, e, n), None, true, false, observed);
    DeltasAreApplied(c3, id, h, e, n, m, times, max);
    RunAppends(c, head, chunks, max);
    RunAppends(c, head + chunks, commit, max);
    RunAppends(c, head + chunks + commit, deltas, max);
  }

  /** Convergence, progress half: from any record whatsoever (stale, expired, mid-snapshot, from another
      epoch) one unbroken sync whose frames are all within the size limit, with room for its snapshot, ends
      with the source's map at number m served. */
  lemma FullSyncCatchesUp(c: Cluster, size: Frame -> nat, id: string, h: History, e: UInt64, n: int, m: int,
                          parts: seq<seq<Resource>>, observed: int, times: seq<int>, max: nat)
    requires e != 0 && Numbered(h, e) && Covers(h, n) && Covers(h, m) && n <= m < 0x1_0000_0000_0000_0000
    requires LegalParts(parts) && IsIndexOf(At(h, e, n), Flatten(parts)) && |At(h, e, n)| <= max
    requires LegalDeltas(h, e, n, m) && |times| == |h.deltas| && InOrder(observed, times)
    requires AllWithin(FullSync(size, id, h, e, n, m, parts, observed, times))
    ensures
      var d := Run(c, Passing(FullSync(size, id, h, e, n, m, parts, observed, times)), max);
      Visible(d) == Some(At(h, e, m)) && d.epoch == e && d.seq_ == m && !d.resyncNeeded
  {
    AllPass(FullSync(size, id, h, e, n, m, parts, observed, times));
    EncodingDoesNotMatter(c, size, SyncContent(id, h, e, n, m, parts, observed, times), max);
    SyncContentCatchesUp(c, id, h, e, n, m, parts, observed, times, max);
  }
}
