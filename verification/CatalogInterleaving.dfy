/** Frames of different clusters applied concurrently. Each cluster has its own lock, so at most one frame
    is in progress per cluster; the shared counters have another lock, and each section under it is one step.
    Between such a section and the update of the cluster's own fields the books and the maps disagree, and
    frames of other clusters may run. */
module CatalogInterleaving {
  import opened CatalogProtocol
  import opened Options
  import opened CatalogAccounting
  import CatalogConvergence
  import MapSums

  /** What a frame goes on to do once the stage is gone. */
  datatype After =
    | Refuse(granted: bool)   // return an error; `granted` tells whether capacity was the reason
    | Resync                  // ask for a resync
    | OpenStage               // open an empty stage
    | Expire                  // withdraw the live map too

  datatype Pc =
    | Idle
    | ChunkAt(i: nat)         // about to check and book resource i of the chunk
    | ChunkBooked(i: nat)     // resource i is booked but not yet staged
    | Releasing(after: After) // about to book the release of the stage
    | Released(after: After)  // released in the books, still staged
    | CommitAt                // about to check and book the commit
    | Swapping                // committed in the books, maps not yet swapped
    | Withdrawing             // about to book the withdrawal of the live map
    | Withdrawn               // withdrawn in the books, map not yet cleared
    | Dropped(oldSize: int)   // deleted from the map, not yet from the books
    | DropBooked              // deleted everywhere, sequence number not yet moved
    | PutAt                   // about to check and book a created or updated resource
    | PutBooked               // booked, not yet in the map

  /** One cluster: its record, the frame in progress with the record it started from, and the frames finished. */
  datatype Proc = Proc(c: Cluster, pc: Pc, frame: Frame, start: Cluster, log: seq<Received>)

  datatype System = System(limits: Limits, totals: Totals, procs: map<string, Proc>)

  datatype Act =
    | Arrive(id: string, frame: Frame) // the watcher of an idle cluster takes the cluster lock with its next frame
    | Run(id: string)                  // the frame in progress takes its next step

  // ----- the steps -----

  function Finish(p: Proc, c: Cluster, granted: bool): Proc
  {
    p.(c := c, pc := Idle, log := p.log + [Received(p.frame, granted)])
  }

  function Continue(p: Proc, after: After): Proc
    requires p.frame.Frame?
  {
    match after
    case Refuse(granted) => Finish(p, p.c, granted)
    case Resync => Finish(p, p.c.(resyncNeeded := true), true)
    case OpenStage =>
      Finish(p, p.c.(staging := Some(Stage(p.frame.epoch, p.frame.seq_, p.frame.observed, map[]))), true)
    case Expire => p.(pc := Withdrawing)
  }

  function Release(p: Proc, after: After): Proc
    requires p.frame.Frame?
  {
    if p.c.staging.None? then Continue(p, after) else p.(pc := Releasing(after))
  }

  function BeginDelta(p: Proc): Proc
    requires p.frame.Frame?
  {
    var c, f := p.c, p.frame;
    if !ValidDelta(c, f) || f.change.seq_ <= c.seq_ then Finish(p, c, true)
    else if f.change.seq_ != c.seq_ + 1 then Release(p, Resync)
    else if !PersistentKind(f.change.resource.kind) then
      Finish(p, c.(seq_ := f.change.seq_, observed := f.observed), true)
    else if !ActionFits(c.resources, f.change) then Finish(p, c, true)
    else if f.change.action.Deleted? then
      var key := KeyOf(f.change.resource);
      p.(c := c.(resources := c.resources - {key}), pc := Dropped(Size(c.resources[key])))
    else p.(pc := PutAt)
  }

  /** Frame f arrives and its header is checked. */
  function Begin(p0: Proc, f: Frame): Proc
    requires f.Frame?
  {
    var p := p0.(frame := f, start := p0.c);
    match f.ftype
    case Reset => if ValidReset(f) then Release(p, Resync) else Finish(p, p.c, true)
    case Heartbeat => Finish(p, if ValidHeartbeat(p.c, f) then p.c.(observed := f.observed) else p.c, true)
    case Expired => if ValidExpiry(f) then Release(p, Expire) else Finish(p, p.c, true)
    case SnapshotBegin => if ValidBegin(f) then Release(p, OpenStage) else Finish(p, p.c, true)
    case SnapshotChunk => if ValidChunk(p.c, f) then p.(pc := ChunkAt(0)) else Release(p, Refuse(true))
    case SnapshotCommit => if ValidCommit(p.c, f) then p.(pc := CommitAt) else Release(p, Refuse(true))
    case Delta => BeginDelta(p)
    case UnknownType => Finish(p, p.c, true)
  }

  ghost function StageBooks(c: Cluster): Totals
  {
    Totals(|StagedMap(c)|, Bytes(StagedMap(c)), 0, 0)
  }

  ghost function LiveBooks(m: map<Key, Resource>): Totals
  {
    Totals(|m|, Bytes(m), |m|, Bytes(m))
  }

  function PutBooks(m: map<Key, Resource>, r: Resource): Totals
    requires r.Resource?
  {
    var count := if KeyOf(r) in m then 0 else 1;
    var grown := r.bytes - (if KeyOf(r) in m then Size(m[KeyOf(r)]) else 0);
    Totals(count, grown, count, grown)
  }

  /** The frame of a cluster has the shape its program counter needs. */
  predicate Shaped(p: Proc)
  {
    && (!p.pc.Idle? ==> p.frame.Frame?)
    && (p.pc.ChunkAt? ==> p.c.staging.Some? && p.pc.i <= |p.frame.resources|)
    && (p.pc.ChunkBooked? ==> p.c.staging.Some? && p.pc.i < |p.frame.resources| && p.frame.resources[p.pc.i].Resource?)
    && (p.pc.Swapping? ==> p.c.staging.Some?)
    && (p.pc.DropBooked? || p.pc.PutAt? || p.pc.PutBooked? || p.pc.Dropped? ==>
          p.frame.change.Change? && p.frame.change.resource.Resource?)
  }

  ghost function StepChunk(limits: Limits, t: Totals, p: Proc): (Totals, Proc)
    requires Shaped(p) && p.pc.ChunkAt?
  {
    var rs, i, staged := p.frame.resources, p.pc.i, p.c.staging.value.resources;
    if i == |rs| then (t, Finish(p, p.c, true))
    else if !ValidResource(rs[i], true) || KeyOf(rs[i]) in staged || |staged| >= limits.max then
      (t, Release(p, Refuse(true)))
    else if t.totalResources + 1 > limits.maxRetained || t.totalBytes + rs[i].bytes > limits.maxRetainedBytes then
      (t, Release(p, Refuse(false)))
    else (Plus(t, Totals(1, rs[i].bytes, 0, 0)), p.(pc := ChunkBooked(i)))
  }

  /** The next step of the frame in progress: at most one section under the counter lock. */
  ghost function StepProc(limits: Limits, t: Totals, p: Proc): (Totals, Proc)
    requires Shaped(p)
  {
    var c, f := p.c, p.frame;
    match p.pc
    case Idle => (t, p)
    case ChunkAt(i) => StepChunk(limits, t, p)
    case ChunkBooked(i) =>
      var r := f.resources[i];
      (t, p.(c := c.(staging := Some(c.staging.value.(resources := c.staging.value.resources[KeyOf(r) := r]))),
             pc := ChunkAt(i + 1)))
    case Releasing(after) => (Minus(t, StageBooks(c)), p.(pc := Released(after)))
    case Released(after) => (t, Continue(p.(c := Unstaged(c)), after))
    case CommitAt =>
      if !CommitFits(limits, t, c) then (t, Release(p, Refuse(false)))
      else
        (Plus(Minus(t, LiveBooks(c.resources)), Totals(0, 0, |StagedMap(c)|, Bytes(StagedMap(c)))), p.(pc := Swapping))
    case Swapping => (t, Finish(p, Cluster(f.epoch, f.seq_, c.staging.value.resources, None, true, false, f.observed), true))
    case Withdrawing => (Minus(t, LiveBooks(c.resources)), p.(pc := Withdrawn))
    case Withdrawn => (t, Finish(p, c.(resources := map[], available := false, resyncNeeded := true), true))
    case Dropped(oldSize) => (Minus(t, Totals(1, oldSize, 1, oldSize)), p.(pc := DropBooked))
    case DropBooked => (t, Finish(p, c.(seq_ := f.change.seq_, observed := f.observed), true))
    case PutAt =>
      if !PutFits(limits, t, c.resources, f.change.resource) then (t, Finish(p, c, false))
      else (Plus(t, PutBooks(c.resources, f.change.resource)), p.(pc := PutBooked))
    case PutBooked =>
      var r := f.change.resource;
      (t, Finish(p, c.(resources := c.resources[KeyOf(r) := r], seq_ := f.change.seq_, observed := f.observed), true))
  }

  /** The cluster is free, and the frame is one that its watcher hands on to it. */
  predicate Takes(sys: System, id: string, f: Frame)
  {
    id in sys.procs && sys.procs[id].pc.Idle? && f.Frame? && f.bytes <= MaxFrameBytes && f.clusterId == id
  }

  ghost function Do(sys: System, act: Act): System
    requires forall id :: id in sys.procs ==> Shaped(sys.procs[id])
  {
    match act
    case Arrive(id, f) =>
      if Takes(sys, id, f) then sys.(procs := sys.procs[id := Begin(sys.procs[id], f)]) else sys
    case Run(id) =>
      if id !in sys.procs then sys
      else
        var (t, p) := StepProc(sys.limits, sys.totals, sys.procs[id]);
        sys.(totals := t, procs := sys.procs[id := p])
  }

  // ----- the ledger -----

  /** What the shared counters currently hold on account of one cluster. */
  ghost function Owed(p: Proc): Totals
    requires Shaped(p)
  {
    match p.pc
    case ChunkBooked(i) => Plus(Books(p.c), Totals(1, p.frame.resources[i].bytes, 0, 0))
    case Released(_) => Minus(Books(p.c), StageBooks(p.c))
    case Swapping => LiveBooks(StagedMap(p.c))
    case Withdrawn => Minus(Books(p.c), LiveBooks(p.c.resources))
    case Dropped(oldSize) => Plus(Books(p.c), Totals(1, oldSize, 1, oldSize))
    case PutBooked => Plus(Books(p.c), PutBooks(p.c.resources, p.frame.change.resource))
    case _ => Books(p.c)
  }

  // ----- each cluster follows the protocol -----

  predicate AfterFits(p: Proc, after: After, max: nat)
    requires p.frame.Frame?
  {
    match after
    case Refuse(granted) => Next(p.start, p.frame, max, granted).0 == Unstaged(p.start)
    case Resync => Next(p.start, p.frame, max, true).0 == Unstaged(p.start).(resyncNeeded := true)
    case OpenStage => p.frame.ftype.SnapshotBegin? && ValidBegin(p.frame)
    case Expire => p.frame.ftype.Expired? && ValidExpiry(p.frame)
  }

  /** The change of an accepted persistent delta. */
  predicate Accepting(p: Proc)
  {
    && p.frame.Frame? && p.frame.ftype.Delta? && ValidDelta(p.start, p.frame)
    && p.frame.change.seq_ == p.start.seq_ + 1
    && PersistentKind(p.frame.change.resource.kind) && ActionFits(p.start.resources, p.frame.change)
  }

  /** How far the frame in progress has got, in terms of the record it started from. */
  predicate Midway(p: Proc, max: nat)
    requires Shaped(p)
  {
    var s, f := p.start, p.frame;
    match p.pc
    case Idle => true
    case ChunkAt(i) =>
      && f.ftype.SnapshotChunk? && ValidChunk(s, f)
      && p.c == s.(staging := Some(s.staging.value.(resources := p.c.staging.value.resources)))
      && StageAll(s.staging.value.resources, f.resources, max) == StageAll(p.c.staging.value.resources, f.resources[i..], max)
    case ChunkBooked(i) =>
      && f.ftype.SnapshotChunk? && ValidChunk(s, f)
      && p.c == s.(staging := Some(s.staging.value.(resources := p.c.staging.value.resources)))
      && KeyOf(f.resources[i]) !in p.c.staging.value.resources
      && StageAll(s.staging.value.resources, f.resources, max)
           == StageAll(p.c.staging.value.resources[KeyOf(f.resources[i]) := f.resources[i]], f.resources[i + 1..], max)
    case Releasing(after) => p.c.staging.Some? && Unstaged(p.c) == Unstaged(s) && AfterFits(p, after, max)
    case Released(after) => p.c.staging.Some? && Unstaged(p.c) == Unstaged(s) && AfterFits(p, after, max)
    case CommitAt => f.ftype.SnapshotCommit? && ValidCommit(s, f) && p.c == s
    case Swapping => f.ftype.SnapshotCommit? && ValidCommit(s, f) && p.c == s
    case Withdrawing => f.ftype.Expired? && ValidExpiry(f) && p.c == Unstaged(s)
    case Withdrawn => f.ftype.Expired? && ValidExpiry(f) && p.c == Unstaged(s)
    case Dropped(oldSize) =>
      && Accepting(p) && f.change.action.Deleted?
      && oldSize == Size(s.resources[KeyOf(f.change.resource)])
      && p.c == s.(resources := Changed(s.resources, f.change))
    case DropBooked => Accepting(p) && f.change.action.Deleted? && p.c == s.(resources := Changed(s.resources, f.change))
    case PutAt => Accepting(p) && !f.change.action.Deleted? && p.c == s
    case PutBooked => Accepting(p) && !f.change.action.Deleted? && p.c == s
  }

  /** The record is the log run through the protocol, up to the frame in progress. */
  predicate Follows(p: Proc, max: nat)
  {
    && AllFrames(p.log) && Shaped(p) && Midway(p, max)
    && (if p.pc.Idle? then p.c else p.start) == CatalogProtocol.Run(EmptyCluster, p.log, max)
  }

  lemma FinishFollows(p: Proc, c: Cluster, granted: bool, max: nat)
    requires AllFrames(p.log) && p.frame.Frame? && p.start == CatalogProtocol.Run(EmptyCluster, p.log, max)
    requires c == Next(p.start, p.frame, max, granted).0
    ensures Follows(Finish(p, c, granted), max)
  {
    RunSnoc(EmptyCluster, p.log, Received(p.frame, granted), max);
  }

  lemma ContinueFollows(p: Proc, after: After, max: nat)
    requires AllFrames(p.log) && p.frame.Frame? && p.start == CatalogProtocol.Run(EmptyCluster, p.log, max)
    requires p.c == Unstaged(p.start) && AfterFits(p, after, max)
    ensures Follows(Continue(p, after), max) && Owed(Continue(p, after)) == Books(p.c)
  {
    BytesEmpty();
    match after
    case Refuse(granted) => FinishFollows(p, p.c, granted, max);
    case Resync => FinishFollows(p, p.c.(resyncNeeded := true), true, max);
    case OpenStage => FinishFollows(p, Continue(p, after).c, true, max);
    case Expire =>
  }

  lemma ReleaseFollows(p: Proc, after: After, max: nat)
    requires AllFrames(p.log) && p.frame.Frame? && p.start == CatalogProtocol.Run(EmptyCluster, p.log, max)
    requires Unstaged(p.c) == Unstaged(p.start) && AfterFits(p, after, max)
    ensures Follows(Release(p, after), max) && Owed(Release(p, after)) == Books(p.c)
  {
    if p.c.staging.None? {
      ContinueFollows(p, after, max);
    }
  }

  lemma DeltaBeginFollows(p: Proc, max: nat)
    requires AllFrames(p.log) && p.frame.Frame? && p.frame.ftype.Delta?
    requires p.start == p.c == CatalogProtocol.Run(EmptyCluster, p.log, max)
    ensures Follows(BeginDelta(p), max) && Owed(BeginDelta(p)) == Books(p.c)
  {
    var c, f := p.c, p.frame;
    if !ValidDelta(c, f) || f.change.seq_ <= c.seq_ {
      FinishFollows(p, c, true, max);
    } else if f.change.seq_ != c.seq_ + 1 {
      ReleaseFollows(p, Resync, max);
    } else if !PersistentKind(f.change.resource.kind) {
      FinishFollows(p, BeginDelta(p).c, true, max);
    } else if !ActionFits(c.resources, f.change) {
      FinishFollows(p, c, true, max);
    } else {
      ChangedBooks(c.resources, f.change);
    }
  }

  /** A frame that arrives starts where its cluster stands, and owes nothing yet. */
  lemma BeginFollows(p: Proc, f: Frame, max: nat)
    requires Follows(p, max) && p.pc.Idle? && f.Frame?
    ensures Follows(Begin(p, f), max) && Owed(Begin(p, f)) == Owed(p)
  {
    var q := p.(frame := f, start := p.c);
    match f.ftype
    case Reset => if ValidReset(f) { ReleaseFollows(q, Resync, max); } else { FinishFollows(q, q.c, true, max); }
    case Heartbeat => FinishFollows(q, Begin(p, f).c, true, max);
    case Expired => if ValidExpiry(f) { ReleaseFollows(q, Expire, max); } else { FinishFollows(q, q.c, true, max); }
    case SnapshotBegin => if ValidBegin(f) { ReleaseFollows(q, OpenStage, max); } else { FinishFollows(q, q.c, true, max); }
    case SnapshotChunk => if !ValidChunk(q.c, f) { ReleaseFollows(q, Refuse(true), max); }
    case SnapshotCommit => if !ValidCommit(q.c, f) { ReleaseFollows(q, Refuse(true), max); }
    case Delta => DeltaBeginFollows(q, max);
    case UnknownType => FinishFollows(q, q.c, true, max);
  }

  lemma ChunkStepFollows(limits: Limits, t: Totals, p: Proc)
    requires Follows(p, limits.max) && p.pc.ChunkAt?
    ensures
      var (t', p') := StepProc(limits, t, p);
      Follows(p', limits.max) && Minus(t', t) == Minus(Owed(p'), Owed(p))
  {
    var rs, i, staged := p.frame.resources, p.pc.i, p.c.staging.value.resources;
    if i == |rs| {
      assert rs[i..] == [];
      FinishFollows(p, p.c, true, limits.max);
    } else {
      assert rs[i..][0] == rs[i] && rs[i..][1..] == rs[i + 1..];
      if !ValidResource(rs[i], true) || KeyOf(rs[i]) in staged || |staged| >= limits.max {
        ReleaseFollows(p, Refuse(true), limits.max);
      } else if t.totalResources + 1 > limits.maxRetained || t.totalBytes + rs[i].bytes > limits.maxRetainedBytes {
        ReleaseFollows(p, Refuse(false), limits.max);
      }
    }
  }

  lemma StageStepFollows(limits: Limits, t: Totals, p: Proc)
    requires Follows(p, limits.max) && p.pc.ChunkBooked?
    ensures
      var (t', p') := StepProc(limits, t, p);
      Follows(p', limits.max) && Minus(t', t) == Minus(Owed(p'), Owed(p))
  {
    var r := p.frame.resources[p.pc.i];
    BytesPut(p.c.staging.value.resources, KeyOf(r), r);
  }

  lemma ReleaseStepFollows(limits: Limits, t: Totals, p: Proc)
    requires Follows(p, limits.max) && p.pc.Releasing?
    ensures
      var (t', p') := StepProc(limits, t, p);
      Follows(p', limits.max) && Minus(t', t) == Minus(Owed(p'), Owed(p))
  {
  }

  lemma UnstageStepFollows(limits: Limits, t: Totals, p: Proc)
    requires Follows(p, limits.max) && p.pc.Released?
    ensures
      var (t', p') := StepProc(limits, t, p);
      Follows(p', limits.max) && Minus(t', t) == Minus(Owed(p'), Owed(p))
  {
    UnstagedBooks(p.c);
    ContinueFollows(p.(c := Unstaged(p.c)), p.pc.after, limits.max);
  }

  lemma CommitStepFollows(limits: Limits, t: Totals, p: Proc)
    requires Follows(p, limits.max) && (p.pc.CommitAt? || p.pc.Swapping?)
    ensures
      var (t', p') := StepProc(limits, t, p);
      Follows(p', limits.max) && Minus(t', t) == Minus(Owed(p'), Owed(p))
  {
    if p.pc.Swapping? {
      BytesEmpty();
      FinishFollows(p, StepProc(limits, t, p).1.c, true, limits.max);
    } else if !CommitFits(limits, t, p.c) {
      ReleaseFollows(p, Refuse(false), limits.max);
    }
  }

  lemma WithdrawStepFollows(limits: Limits, t: Totals, p: Proc)
    requires Follows(p, limits.max) && (p.pc.Withdrawing? || p.pc.Withdrawn?)
    ensures
      var (t', p') := StepProc(limits, t, p);
      Follows(p', limits.max) && Minus(t', t) == Minus(Owed(p'), Owed(p))
  {
    if p.pc.Withdrawn? {
      BytesEmpty();
      FinishFollows(p, StepProc(limits, t, p).1.c, true, limits.max);
    }
  }

  lemma DropStepFollows(limits: Limits, t: Totals, p: Proc)
    requires Follows(p, limits.max) && p.pc.Dropped?
    ensures
      var (t', p') := StepProc(limits, t, p);
      Follows(p', limits.max) && Minus(t', t) == Minus(Owed(p'), Owed(p))
  {
  }

  lemma DroppedStepFollows(limits: Limits, t: Totals, p: Proc)
    requires Follows(p, limits.max) && p.pc.DropBooked?
    ensures
      var (t', p') := StepProc(limits, t, p);
      Follows(p', limits.max) && Minus(t', t) == Minus(Owed(p'), Owed(p))
  {
    FinishFollows(p, StepProc(limits, t, p).1.c, true, limits.max);
  }

  lemma PutStepFollows(limits: Limits, t: Totals, p: Proc)
    requires Follows(p, limits.max) && (p.pc.PutAt? || p.pc.PutBooked?)
    ensures
      var (t', p') := StepProc(limits, t, p);
      Follows(p', limits.max) && Minus(t', t) == Minus(Owed(p'), Owed(p))
  {
    if p.pc.PutBooked? {
      ChangedBooks(p.c.resources, p.frame.change);
      FinishFollows(p, StepProc(limits, t, p).1.c, true, limits.max);
    } else if !PutFits(limits, t, p.c.resources, p.frame.change.resource) {
      FinishFollows(p, p.c, false, limits.max);
    }
  }

  /** Every step keeps its cluster on the protocol and moves the shared counters by what that cluster owes. */
  lemma StepFollows(limits: Limits, t: Totals, p: Proc)
    requires Follows(p, limits.max)
    ensures
      var (t', p') := StepProc(limits, t, p);
      Follows(p', limits.max) && Minus(t', t) == Minus(Owed(p'), Owed(p))
  {
    match p.pc
    case Idle =>
    case ChunkAt(_) => ChunkStepFollows(limits, t, p);
    case ChunkBooked(_) => StageStepFollows(limits, t, p);
    case Releasing(_) => ReleaseStepFollows(limits, t, p);
    case Released(_) => UnstageStepFollows(limits, t, p);
    case CommitAt => CommitStepFollows(limits, t, p);
    case Swapping => CommitStepFollows(limits, t, p);
    case Withdrawing => WithdrawStepFollows(limits, t, p);
    case Withdrawn => WithdrawStepFollows(limits, t, p);
    case Dropped(_) => DropStepFollows(limits, t, p);
    case DropBooked => DroppedStepFollows(limits, t, p);
    case PutAt => PutStepFollows(limits, t, p);
    case PutBooked => PutStepFollows(limits, t, p);
  }

  predicate MayBook(pc: Pc)
  {
    pc.ChunkAt? || pc.CommitAt? || pc.PutAt?
  }

  /** A step that takes from the counters, or leaves them. */
  lemma ReleasingKeepsCaps(limits: Limits, t: Totals, p: Proc)
    requires Shaped(p) && !MayBook(p.pc) && WithinCaps(limits, t)
    requires p.pc.Dropped? ==> 0 <= p.pc.oldSize
    ensures WithinCaps(limits, StepProc(limits, t, p).0)
  {
    BytesNonNegative(StagedMap(p.c));
    BytesNonNegative(p.c.resources);
  }

  lemma BookingKeepsCaps(limits: Limits, t: Totals, p: Proc)
    requires Shaped(p) && MayBook(p.pc) && WithinCaps(limits, t)
    ensures WithinCaps(limits, StepProc(limits, t, p).0)
  {
    BytesNonNegative(p.c.resources);
  }

  /** No step breaks a cap, whoever else is in the middle of what. */
  lemma StepKeepsCaps(limits: Limits, t: Totals, p: Proc)
    requires Follows(p, limits.max) && WithinCaps(limits, t)
    ensures WithinCaps(limits, StepProc(limits, t, p).0)
  {
    if MayBook(p.pc) {
      BookingKeepsCaps(limits, t, p);
    } else {
      ReleasingKeepsCaps(limits, t, p);
    }
  }

  // ----- every interleaving -----

  ghost function Ledger(p: Proc): MapSums.Counters
  {
    if Shaped(p) then AsCounters(Owed(p)) else MapSums.Zero
  }

  ghost function Owing(procs: map<string, Proc>): Totals
  {
    TotalBy(procs, Ledger)
  }

  predicate AllFollow(procs: map<string, Proc>, max: nat)
  {
    forall id :: id in procs ==> Follows(procs[id], max)
  }

  ghost predicate Consistent(sys: System)
  {
    && AllFollow(sys.procs, sys.limits.max)
    && sys.totals == Owing(sys.procs)
    && WithinCaps(sys.limits, sys.totals)
  }

  lemma OwingUpdate(procs: map<string, Proc>, id: string, p: Proc)
    requires id in procs && Shaped(procs[id]) && Shaped(p)
    ensures Owing(procs[id := p]) == Plus(Owing(procs), Minus(Owed(p), Owed(procs[id])))
  {
    TotalByUpdate(procs, Ledger, id, p, Owed(procs[id]), Owed(p));
  }

  lemma DoKeepsConsistent(sys: System, act: Act)
    requires Consistent(sys)
    ensures Consistent(Do(sys, act))
  {
    if act.id in sys.procs {
      var p := sys.procs[act.id];
      if act.Run? {
        StepFollows(sys.limits, sys.totals, p);
        StepKeepsCaps(sys.limits, sys.totals, p);
        OwingUpdate(sys.procs, act.id, StepProc(sys.limits, sys.totals, p).1);
      } else if p.pc.Idle? && act.frame.Frame? {
        BeginFollows(p, act.frame, sys.limits.max);
        OwingUpdate(sys.procs, act.id, Begin(p, act.frame));
      }
    }
  }

  const NewProc := Proc(EmptyCluster, Idle, NilFrame, EmptyCluster, [])

  lemma NewProcFollows(max: nat)
    ensures Follows(NewProc, max)
  {
  }

  /** A cluster with no frame in progress that holds nothing owes nothing. */
  lemma EmptyOwesNothing(p: Proc)
    requires p.pc.Idle? && p.c.resources == map[] && p.c.staging.None?
    ensures Ledger(p) == MapSums.Zero
  {
    BytesEmpty();
  }

  function NewProcs(ids: set<string>): map<string, Proc>
  {
    map id | id in ids :: NewProc
  }

  function NewSystem(ids: set<string>, maxResources: nat): System
  {
    System(LimitsFor(maxResources), Totals(0, 0, 0, 0), NewProcs(ids))
  }

  lemma NewOwesNothing(ids: set<string>)
    ensures Owing(NewProcs(ids)) == Totals(0, 0, 0, 0)
  {
    var procs := NewProcs(ids);
    forall id | id in procs ensures Ledger(procs[id]) == MapSums.Zero {
      EmptyOwesNothing(procs[id]);
    }
    TotalByZero(procs, Ledger);
  }

  lemma NewAllFollow(ids: set<string>, maxResources: nat)
    ensures AllFollow(NewProcs(ids), maxResources)
  {
    NewProcFollows(maxResources);
  }

  lemma NewIsConsistent(ids: set<string>, maxResources: nat)
    ensures Consistent(NewSystem(ids, maxResources))
  {
    NewOwesNothing(ids);
    NewAllFollow(ids, maxResources);
  }

  /** The catalogue as it starts. */
  ghost function Start(ids: set<string>, maxResources: nat): (sys: System)
    ensures Consistent(sys)
  {
    NewIsConsistent(ids, maxResources);
    NewSystem(ids, maxResources)
  }

  /** The system after a whole schedule of arrivals and steps. */
  ghost function Exec(sys: System, acts: seq<Act>): System
    requires Consistent(sys)
    ensures Consistent(Exec(sys, acts))
  {
    if acts == [] then sys
    else
      var before := Exec(sys, acts[..|acts| - 1]);
      DoKeepsConsistent(before, acts[|acts| - 1]);
      Do(before, acts[|acts| - 1])
  }

  ghost function Records(procs: map<string, Proc>): map<string, Cluster>
  {
    map id | id in procs :: procs[id].c
  }

  predicate Quiescent(procs: map<string, Proc>)
  {
    forall id :: id in procs ==> procs[id].pc.Idle?
  }

  lemma IdleOwesBooks(procs: map<string, Proc>)
    requires Quiescent(procs)
    ensures Owing(procs) == Total(Records(procs))
  {
    MapSums.SumSame(procs, Ledger, Records(procs), BookEntry);
  }

  /** In every interleaving of frames of any number of clusters no counter ever passes its limit, at any moment the
      counters are what the clusters owe, and whenever no frame is in progress they are the true sums of all
      live and staged resources. */
  lemma EveryInterleaving(ids: set<string>, maxResources: nat, acts: seq<Act>)
    ensures
      var sys := Exec(Start(ids, maxResources), acts);
      && WithinCaps(LimitsFor(maxResources), sys.totals)
      && sys.totals == Owing(sys.procs)
      && (Quiescent(sys.procs) ==> sys.totals == Total(Records(sys.procs)))
  {
    var sys := Exec(Start(ids, maxResources), acts);
    LimitsStay(Start(ids, maxResources), acts);
    if Quiescent(sys.procs) {
      IdleOwesBooks(sys.procs);
    }
  }

  lemma {:induction false} LimitsStay(sys: System, acts: seq<Act>)
    requires Consistent(sys)
    ensures Exec(sys, acts).limits == sys.limits && Exec(sys, acts).procs.Keys == sys.procs.Keys
    decreases |acts|
  {
    if acts != [] {
      LimitsStay(sys, acts[..|acts| - 1]);
    }
  }

  /** The frames of this cluster that have been finished or are in progress. */
  function Started(p: Proc): seq<Frame>
  {
    FramesOf(p.log) + if p.pc.Idle? then [] else [p.frame]
  }

  lemma ReleaseKeepsStarted(p: Proc, after: After)
    requires p.frame.Frame?
    ensures Started(Continue(p, after)) == Started(Release(p, after)) == FramesOf(p.log) + [p.frame]
  {
  }

  lemma BeginStarts(p: Proc, f: Frame)
    requires f.Frame? && p.pc.Idle?
    ensures Started(Begin(p, f)) == Started(p) + [f]
  {
    var q := p.(frame := f, start := p.c);
    ReleaseKeepsStarted(q, Resync);
    ReleaseKeepsStarted(q, Expire);
    ReleaseKeepsStarted(q, OpenStage);
    ReleaseKeepsStarted(q, Refuse(true));
    assert FramesOf(q.log) == Started(p);
  }

  lemma StepKeepsStarted(limits: Limits, t: Totals, p: Proc)
    requires Shaped(p)
    ensures Started(StepProc(limits, t, p).1) == Started(p)
  {
    if !p.pc.Idle? {
      ReleaseKeepsStarted(p, Refuse(true));
      ReleaseKeepsStarted(p, Refuse(false));
      if p.pc.Released? {
        ReleaseKeepsStarted(p.(c := Unstaged(p.c)), p.pc.after);
      }
    }
  }

  /** The frame of one cluster, if any, that the act brings while the cluster is free. */
  function ArrivedBy(sys: System, act: Act, id: string): seq<Frame>
  {
    if act.Arrive? && act.id == id && Takes(sys, id, act.frame) then [act.frame] else []
  }

  lemma DoStartsWhatArrives(sys: System, act: Act, id: string)
    requires id in sys.procs && forall i :: i in sys.procs ==> Shaped(sys.procs[i])
    ensures id in Do(sys, act).procs
    ensures Started(Do(sys, act).procs[id]) == Started(sys.procs[id]) + ArrivedBy(sys, act, id)
  {
    var p := sys.procs[id];
    assert Started(p) + [] == Started(p);
    if act.Run? {
      StepKeepsStarted(sys.limits, sys.totals, p);
    } else if Takes(sys, id, act.frame) {
      BeginStarts(p, act.frame);
    }
  }

  /** The frames that arrived for one cluster while it was free, in order. */
  ghost function Arrived(sys: System, acts: seq<Act>, id: string): seq<Frame>
    requires Consistent(sys)
  {
    if acts == [] then []
    else
      var before := acts[..|acts| - 1];
      Arrived(sys, before, id) + ArrivedBy(Exec(sys, before), acts[|acts| - 1], id)
  }

  lemma OneMoreArrived(sys: System, act: Act, id: string, arrived: seq<Frame>)
    requires Consistent(sys) && id in sys.procs && Started(sys.procs[id]) == arrived
    ensures forall i :: i in sys.procs ==> Shaped(sys.procs[i])
    ensures id in Do(sys, act).procs && Started(Do(sys, act).procs[id]) == arrived + ArrivedBy(sys, act, id)
  {
    AllAreShaped(sys);
    DoStartsWhatArrives(sys, act, id);
  }

  /** Each of them is worked on in turn, and no other frame ever is. */
  lemma {:induction false} ArrivedAreStarted(sys: System, acts: seq<Act>, id: string)
    requires Consistent(sys) && id in sys.procs && Started(sys.procs[id]) == []
    ensures id in Exec(sys, acts).procs && Started(Exec(sys, acts).procs[id]) == Arrived(sys, acts, id)
    decreases |acts|
  {
    if acts != [] {
      var prefix := acts[..|acts| - 1];
      ArrivedAreStarted(sys, prefix, id);
      OneMoreArrived(Exec(sys, prefix), acts[|acts| - 1], id, Arrived(sys, prefix, id));
    }
  }

  lemma AllAreShaped(sys: System)
    requires Consistent(sys)
    ensures forall i :: i in sys.procs ==> Shaped(sys.procs[i])
  {
    forall i | i in sys.procs ensures Shaped(sys.procs[i]) {
      assert Follows(sys.procs[i], sys.limits.max);
    }
  }

  lemma IdleFollows(sys: System, id: string)
    requires Consistent(sys) && id in sys.procs && sys.procs[id].pc.Idle?
    ensures var p := sys.procs[id];
      && AllFrames(p.log) && p.c == CatalogProtocol.Run(EmptyCluster, p.log, sys.limits.max) && Started(p) == FramesOf(p.log)
  {
    assert Follows(sys.procs[id], sys.limits.max);
  }

  /** Whatever the other clusters do, an idle cluster has exactly the frames that arrived for it, in that order,
      run through the protocol; so it serves its source if those frames came on the source's streams. */
  lemma InterleavedClusterServesSource(ids: set<string>, maxResources: nat, acts: seq<Act>, id: string,
                                       src: CatalogConvergence.Source, sts: seq<CatalogConvergence.Stream>)
    requires id in Exec(Start(ids, maxResources), acts).procs && Exec(Start(ids, maxResources), acts).procs[id].pc.Idle?
    requires CatalogConvergence.NumberedSource(src)
    requires CatalogConvergence.LegalLog(src, sts, Exec(Start(ids, maxResources), acts).procs[id].log)
    ensures var p := Exec(Start(ids, maxResources), acts).procs[id];
      && FramesOf(p.log) == Arrived(Start(ids, maxResources), acts, id)
      && AllFrames(p.log) && p.c == CatalogProtocol.Run(EmptyCluster, p.log, LimitsFor(maxResources).max)
      && CatalogConvergence.ServesSource(src, p.c)
  {
    var sys := Start(ids, maxResources);
    LimitsStay(sys, acts);
    ArrivedAreStarted(sys, acts, id);
    IdleFollows(Exec(sys, acts), id);
    assert Started(sys.procs[id]) == [];
    CatalogConvergence.LogServesSource(src, sts, Exec(sys, acts).procs[id].log, LimitsFor(maxResources).max);
  }

  // ----- a frame that is left alone -----

  function Length(f: Frame): nat
  {
    if f.Frame? then |f.resources| else 0
  }

  /** A bound on the steps a frame in progress still takes. */
  function Left(pc: Pc, length: nat): nat
  {
    match pc
    case Idle => 0
    case ChunkAt(i) => if i <= length then 2 * (length - i) + 5 else 0
    case ChunkBooked(i) => if i <= length then 2 * (length - i) + 4 else 0
    case Releasing(_) => 4
    case Released(_) => 3
    case CommitAt => 5
    case Swapping => 1
    case Withdrawing => 2
    case Withdrawn => 1
    case Dropped(_) => 2
    case DropBooked => 1
    case PutAt => 2
    case PutBooked => 1
  }

  /** Every frame finishes: each of its steps brings it closer, whatever the others do to the counters. */
  lemma EveryFrameFinishes(limits: Limits, t: Totals, p: Proc)
    requires Shaped(p) && !p.pc.Idle?
    ensures
      var p' := StepProc(limits, t, p).1;
      p'.frame == p.frame && Left(p'.pc, Length(p.frame)) < Left(p.pc, Length(p.frame))
  {
  }

  /** The frame in progress runs to its end with nobody in between. */
  ghost function Alone(limits: Limits, t: Totals, p: Proc): (Totals, Proc)
    requires Follows(p, limits.max)
    decreases Left(p.pc, Length(p.frame))
  {
    if p.pc.Idle? then (t, p)
    else
      StepFollows(limits, t, p);
      EveryFrameFinishes(limits, t, p);
      Alone(limits, StepProc(limits, t, p).0, StepProc(limits, t, p).1)
  }

  /** Every step moves the counters by the change of w. */
  ghost predicate MovesBy(limits: Limits, w: Proc -> Totals)
  {
    forall t, p :: Follows(p, limits.max) ==>
      Minus(StepProc(limits, t, p).0, t) == Minus(w(StepProc(limits, t, p).1), w(p))
  }

  /** Then so does the whole rest of a frame. */
  lemma {:induction false} AloneMovesBy(limits: Limits, t: Totals, p: Proc, w: Proc -> Totals)
    requires Follows(p, limits.max) && MovesBy(limits, w)
    ensures
      var (t', p') := Alone(limits, t, p);
      p'.pc.Idle? && Follows(p', limits.max) && Minus(t', t) == Minus(w(p'), w(p))
    decreases Left(p.pc, Length(p.frame))
  {
    if !p.pc.Idle? {
      StepFollows(limits, t, p);
      EveryFrameFinishes(limits, t, p);
      AloneMovesBy(limits, StepProc(limits, t, p).0, StepProc(limits, t, p).1, w);
    }
  }

  ghost function OwedBy(p: Proc): Totals
  {
    if Shaped(p) then Owed(p) else Totals(0, 0, 0, 0)
  }

  lemma OwedMoves(limits: Limits)
    ensures MovesBy(limits, OwedBy)
  {
    forall t: Totals, p: Proc | Follows(p, limits.max)
      ensures Minus(StepProc(limits, t, p).0, t) == Minus(OwedBy(StepProc(limits, t, p).1), OwedBy(p))
    {
      StepFollows(limits, t, p);
    }
  }

  /** A frame left alone moves the counters by exactly what the cluster's books have changed since what it owed. */
  lemma AloneBooks(limits: Limits, t: Totals, p: Proc)
    requires Follows(p, limits.max)
    ensures Alone(limits, t, p).1.pc.Idle?
    ensures Minus(Alone(limits, t, p).0, t) == Minus(Books(Alone(limits, t, p).1.c), Owed(p))
  {
    OwedMoves(limits);
    AloneMovesBy(limits, t, p, OwedBy);
  }

  /** What a frame goes on to do once the stage is gone, in one go. */
  function Afterwards(p: Proc, after: After): Cluster
    requires p.frame.Frame?
  {
    var c := Unstaged(p.c);
    match after
    case Refuse(_) => c
    case Resync => c.(resyncNeeded := true)
    case OpenStage => c.(staging := Some(Stage(p.frame.epoch, p.frame.seq_, p.frame.observed, map[])))
    case Expire => c.(resources := map[], available := false, resyncNeeded := true)
  }

  /** Where a chunk leads when resources `rest` are still to be staged. */
  ghost function ChunkOutcome(limits: Limits, t: Totals, c: Cluster, staged: map<Key, Resource>, rest: seq<Resource>): Cluster
    requires c.staging.Some?
  {
    var all := StageAll(staged, rest, limits.max);
    if all.None? || !ChunkFits(limits, t, rest) then Unstaged(c)
    else c.(staging := Some(c.staging.value.(resources := all.value)))
  }

  /** The record a frame in progress will leave if nobody comes in between. */
  ghost function Outcome(limits: Limits, t: Totals, p: Proc): Cluster
    requires Shaped(p)
  {
    var c, f := p.c, p.frame;
    match p.pc
    case Idle => c
    case ChunkAt(i) => ChunkOutcome(limits, t, c, c.staging.value.resources, f.resources[i..])
    case ChunkBooked(i) =>
      var r := f.resources[i];
      ChunkOutcome(limits, t, c, c.staging.value.resources[KeyOf(r) := r], f.resources[i + 1..])
    case Releasing(after) => Afterwards(p, after)
    case Released(after) => Afterwards(p, after)
    case CommitAt =>
      if CommitFits(limits, t, c) then Cluster(f.epoch, f.seq_, StagedMap(c), None, true, false, f.observed) else Unstaged(c)
    case Swapping => Cluster(f.epoch, f.seq_, c.staging.value.resources, None, true, false, f.observed)
    case Withdrawing => c.(resources := map[], available := false, resyncNeeded := true)
    case Withdrawn => c.(resources := map[], available := false, resyncNeeded := true)
    case Dropped(_) => c.(seq_ := f.change.seq_, observed := f.observed)
    case DropBooked => c.(seq_ := f.change.seq_, observed := f.observed)
    case PutAt =>
      var r := f.change.resource;
      if !PutFits(limits, t, c.resources, r) then c
      else c.(resources := c.resources[KeyOf(r) := r], seq_ := f.change.seq_, observed := f.observed)
    case PutBooked =>
      var r := f.change.resource;
      c.(resources := c.resources[KeyOf(r) := r], seq_ := f.change.seq_, observed := f.observed)
  }

  lemma ReleaseOutcome(limits: Limits, t: Totals, p: Proc, after: After)
    requires p.frame.Frame?
    ensures Shaped(Release(p, after)) && Outcome(limits, t, Release(p, after)) == Afterwards(p, after)
  {
  }

  /** Booking one resource of a chunk leads where the chunk leads. */
  lemma ChunkOutcomeStep(limits: Limits, t: Totals, p: Proc)
    requires Follows(p, limits.max) && p.pc.ChunkAt? && WithinCaps(limits, t)
    ensures Shaped(StepProc(limits, t, p).1)
    ensures Outcome(limits, StepProc(limits, t, p).0, StepProc(limits, t, p).1) == Outcome(limits, t, p)
  {
    var rs, i, staged := p.frame.resources, p.pc.i, p.c.staging.value.resources;
    ReleaseOutcome(limits, t, p, Refuse(true));
    ReleaseOutcome(limits, t, p, Refuse(false));
    if i == |rs| {
      assert rs[i..] == [];
    } else {
      assert rs[i..][0] == rs[i] && rs[i..][1..] == rs[i + 1..];
      BytesOfNonNegative(rs[i + 1..]);
    }
  }

  lemma CommitOutcomeStep(limits: Limits, t: Totals, p: Proc)
    requires Follows(p, limits.max) && p.pc.CommitAt?
    ensures Shaped(StepProc(limits, t, p).1)
    ensures Outcome(limits, StepProc(limits, t, p).0, StepProc(limits, t, p).1) == Outcome(limits, t, p)
  {
    ReleaseOutcome(limits, t, p, Refuse(false));
  }

  predicate ChangesOne(pc: Pc)
  {
    pc.Dropped? || pc.DropBooked? || pc.PutAt? || pc.PutBooked?
  }

  lemma ChangeOutcomeStep(limits: Limits, t: Totals, p: Proc)
    requires Shaped(p) && ChangesOne(p.pc)
    ensures Shaped(StepProc(limits, t, p).1)
    ensures Outcome(limits, StepProc(limits, t, p).0, StepProc(limits, t, p).1) == Outcome(limits, t, p)
  {
  }

  lemma StageOutcomeStep(limits: Limits, t: Totals, p: Proc)
    requires Shaped(p) && p.pc.ChunkBooked?
    ensures Shaped(StepProc(limits, t, p).1)
    ensures Outcome(limits, StepProc(limits, t, p).0, StepProc(limits, t, p).1) == Outcome(limits, t, p)
  {
  }

  lemma OtherOutcomeStep(limits: Limits, t: Totals, p: Proc)
    requires Shaped(p) && !p.pc.ChunkAt? && !p.pc.ChunkBooked? && !p.pc.CommitAt? && !ChangesOne(p.pc)
    ensures Shaped(StepProc(limits, t, p).1)
    ensures Outcome(limits, StepProc(limits, t, p).0, StepProc(limits, t, p).1) == Outcome(limits, t, p)
  {
  }

  lemma OutcomeStep(limits: Limits, t: Totals, p: Proc)
    requires Follows(p, limits.max) && WithinCaps(limits, t)
    ensures Shaped(StepProc(limits, t, p).1)
    ensures Outcome(limits, StepProc(limits, t, p).0, StepProc(limits, t, p).1) == Outcome(limits, t, p)
  {
    if p.pc.ChunkAt? {
      ChunkOutcomeStep(limits, t, p);
    } else if p.pc.CommitAt? {
      CommitOutcomeStep(limits, t, p);
    } else if p.pc.ChunkBooked? {
      StageOutcomeStep(limits, t, p);
    } else if ChangesOne(p.pc) {
      ChangeOutcomeStep(limits, t, p);
    } else {
      OtherOutcomeStep(limits, t, p);
    }
  }

  /** A property of counters and frame that every step keeps. */
  ghost predicate Lasts(limits: Limits, q: (Totals, Proc) -> bool)
  {
    forall t, p :: Follows(p, limits.max) && WithinCaps(limits, t) && q(t, p) ==>
      q(StepProc(limits, t, p).0, StepProc(limits, t, p).1)
  }

  lemma {:induction false} AloneLasts(limits: Limits, t: Totals, p: Proc, q: (Totals, Proc) -> bool)
    requires Follows(p, limits.max) && WithinCaps(limits, t) && Lasts(limits, q) && q(t, p)
    ensures q(Alone(limits, t, p).0, Alone(limits, t, p).1) && Alone(limits, t, p).1.pc.Idle?
    decreases Left(p.pc, Length(p.frame))
  {
    if !p.pc.Idle? {
      StepFollows(limits, t, p);
      StepKeepsCaps(limits, t, p);
      EveryFrameFinishes(limits, t, p);
      AloneLasts(limits, StepProc(limits, t, p).0, StepProc(limits, t, p).1, q);
    }
  }

  ghost function LeadsTo(limits: Limits, c: Cluster): (Totals, Proc) -> bool
  {
    (t: Totals, p: Proc) => Shaped(p) && Outcome(limits, t, p) == c
  }

  lemma OutcomeLasts(limits: Limits, c: Cluster)
    ensures Lasts(limits, LeadsTo(limits, c))
  {
    forall t: Totals, p: Proc | Follows(p, limits.max) && WithinCaps(limits, t) && LeadsTo(limits, c)(t, p)
      ensures LeadsTo(limits, c)(StepProc(limits, t, p).0, StepProc(limits, t, p).1)
    {
      OutcomeStep(limits, t, p);
    }
  }

  lemma BeginDeltaOutcome(limits: Limits, t: Totals, p: Proc)
    requires p.frame.Frame? && p.frame.ftype.Delta?
    ensures Shaped(BeginDelta(p))
    ensures Outcome(limits, t, BeginDelta(p)) == NextDelta(p.c, p.frame, Granted(limits, t, p.c, p.frame)).0
  {
    ReleaseOutcome(limits, t, p, Resync);
  }

  lemma BeginOutcome(limits: Limits, t: Totals, p: Proc, f: Frame)
    requires p.pc.Idle? && f.Frame?
    ensures Shaped(Begin(p, f))
    ensures Outcome(limits, t, Begin(p, f)) == Next(p.c, f, limits.max, Granted(limits, t, p.c, f)).0
  {
    var q := p.(frame := f, start := p.c);
    match f.ftype
    case Reset => ReleaseOutcome(limits, t, q, Resync);
    case Expired => ReleaseOutcome(limits, t, q, Expire);
    case SnapshotBegin => ReleaseOutcome(limits, t, q, OpenStage);
    case SnapshotChunk => ReleaseOutcome(limits, t, q, Refuse(true)); assert f.resources[0..] == f.resources;
    case SnapshotCommit => ReleaseOutcome(limits, t, q, Refuse(true));
    case Delta => BeginDeltaOutcome(limits, t, q);
    case Heartbeat =>
    case UnknownType =>
  }

  lemma AloneRecord(limits: Limits, t: Totals, p: Proc, c: Cluster)
    requires Follows(p, limits.max) && WithinCaps(limits, t) && Outcome(limits, t, p) == c
    ensures Alone(limits, t, p).1.pc.Idle? && Alone(limits, t, p).1.c == c
  {
    OutcomeLasts(limits, c);
    AloneLasts(limits, t, p, LeadsTo(limits, c));
    assert LeadsTo(limits, c)(Alone(limits, t, p).0, Alone(limits, t, p).1);
  }

  lemma MovedFrom(t: Totals, t': Totals, d: Totals)
    requires Minus(t', t) == d
    ensures t' == Plus(t, d)
  {
  }

  /** A frame that nobody interrupts does in small steps what ApplySpec says it does at once, to its cluster and
      to the shared counters. */
  lemma AloneIsApply(limits: Limits, t: Totals, p: Proc, f: Frame, q: Proc)
    requires Follows(p, limits.max) && p.pc.Idle? && f.Frame? && WithinCaps(limits, t) && q == Begin(p, f)
    ensures Follows(q, limits.max) && Alone(limits, t, q).1.pc.Idle?
    ensures Alone(limits, t, q).1.c == Next(p.c, f, limits.max, Granted(limits, t, p.c, f)).0
    ensures Alone(limits, t, q).0 == Plus(t, Minus(Books(Alone(limits, t, q).1.c), Books(p.c)))
  {
    BeginFollows(p, f, limits.max);
    BeginOutcome(limits, t, p, f);
    AloneRecord(limits, t, q, Next(p.c, f, limits.max, Granted(limits, t, p.c, f)).0);
    AloneBooks(limits, t, q);
    MovedFrom(t, Alone(limits, t, q).0, Minus(Books(Alone(limits, t, q).1.c), Books(p.c)));
  }
}
