/** The watch-frame protocol of the central catalogue, for one cluster: what a frame is, which
    resources are legal, and what one frame does to one cluster's record. */
module CatalogProtocol {
  import opened Options

  type UInt64 = x: int | 0 <= x < 0x1_0000_0000_0000_0000

  const MaxFrameBytes := 0x40_0000
  const MaxChunkResources := 1000

  datatype Kind =
    | Namespace | Pod | ReplicaSet | Deployment | StatefulSet | DaemonSet | CronJob | Node | KubeEvent
    | OtherKind(name: string)

  datatype Owner = NilOwner | Owner(uid: string, kind: Kind, name: string)

  /** A catalogue resource. Strings are byte strings; `bytes` is the encoded size, which is part of
      the value because it depends on nothing else. */
  datatype Resource =
    | NilResource
    | Resource(kind: Kind, uid: string, namespace: string, name: string,
               owners: seq<Owner>, nodeName: string, bytes: nat)

  datatype Action = Unspecified | Created | Updated | Deleted

  datatype Change = NoChange | Change(epoch: UInt64, seq_: UInt64, resource: Resource, action: Action)

  datatype FrameType =
    UnknownType | SnapshotBegin | SnapshotChunk | SnapshotCommit | Delta | Reset | Heartbeat | Expired

  datatype Frame =
    | NilFrame
    | Frame(clusterId: string, epoch: UInt64, seq_: UInt64, ftype: FrameType,
            resources: seq<Resource>, change: Change, observed: int, bytes: nat)

  /** A snapshot that is being received. */
  datatype Stage = Stage(epoch: UInt64, seq_: UInt64, observed: int, resources: map<Key, Resource>)

  /** What the API holds for one cluster. */
  datatype Cluster = Cluster(
    epoch: UInt64, seq_: UInt64, resources: map<Key, Resource>, staging: Option<Stage>,
    available: bool, resyncNeeded: bool, observed: int)

  const EmptyCluster := Cluster(0, 0, map[], None, false, false, 0)

  // ----- resources -----

  predicate KnownKind(kind: Kind)
  {
    !kind.OtherKind?
  }

  predicate PersistentKind(kind: Kind)
  {
    KnownKind(kind) && !kind.Node? && !kind.KubeEvent?
  }

  predicate ValidOwner(o: Owner)
  {
    && o.Owner?
    && 0 < |o.uid| <= 253 && 0 < |o.name| <= 253
    && (o.kind.ReplicaSet? || o.kind.Deployment? || o.kind.StatefulSet? || o.kind.DaemonSet? || o.kind.CronJob?)
  }

  predicate ValidResource(r: Resource, snapshot: bool)
  {
    && r.Resource?
    && 0 < |r.uid| <= 253 && 0 < |r.name| <= 253
    && |r.namespace| <= 253 && |r.nodeName| <= 253 && |r.owners| <= 4
    && KnownKind(r.kind)
    && (snapshot ==> PersistentKind(r.kind))
    && (!r.kind.Pod? ==> r.nodeName == "")
    && (r.kind.Namespace? || r.kind.Node? ==> r.namespace == "" && r.owners == [])
    && (r.kind.KubeEvent? ==> r.owners == [])
    && (!r.kind.Namespace? && !r.kind.Node? && !r.kind.KubeEvent? ==> r.namespace != "")
    && forall i :: 0 <= i < |r.owners| ==> ValidOwner(r.owners[i])
  }

  /** Resources are keyed by kind and UID. The code joins the two with a NUL byte, which no known kind contains. */
  datatype Key = Key(kind: Kind, uid: string)

  function KeyOf(r: Resource): Key
    requires r.Resource?
  {
    Key(r.kind, r.uid)
  }

  /** Stages rs one by one; None when one of them is illegal, already staged, or one too many. */
  function StageAll(staged: map<Key, Resource>, rs: seq<Resource>, max: nat): Option<map<Key, Resource>>
    decreases |rs|
  {
    if rs == [] then Some(staged)
    else if !ValidResource(rs[0], true) || KeyOf(rs[0]) in staged || |staged| >= max then None
    else StageAll(staged[KeyOf(rs[0]) := rs[0]], rs[1..], max)
  }

  // ----- frame headers -----

  predicate BareFrame(f: Frame)
    requires f.Frame?
  {
    f.resources == [] && f.change.NoChange?
  }

  predicate ValidReset(f: Frame)
    requires f.Frame?
  {
    f.epoch == 0 && f.seq_ == 0 && BareFrame(f)
  }

  predicate ValidHeartbeat(c: Cluster, f: Frame)
    requires f.Frame?
  {
    BareFrame(f) && c.available && f.epoch == c.epoch && f.seq_ == c.seq_ && 0 < f.observed && c.observed <= f.observed
  }

  predicate ValidExpiry(f: Frame)
    requires f.Frame?
  {
    f.epoch == 0 && f.seq_ == 0 && 0 < f.observed && BareFrame(f)
  }

  predicate ValidBegin(f: Frame)
    requires f.Frame?
  {
    f.epoch != 0 && 0 < f.observed && BareFrame(f)
  }

  predicate MatchesStage(c: Cluster, f: Frame)
    requires f.Frame?
  {
    && c.staging.Some?
    && c.staging.value.epoch == f.epoch && c.staging.value.seq_ == f.seq_
    && c.staging.value.observed == f.observed && 0 < f.observed
  }

  predicate ValidChunk(c: Cluster, f: Frame)
    requires f.Frame?
  {
    MatchesStage(c, f) && 0 < |f.resources| <= MaxChunkResources && f.change.NoChange?
  }

  predicate ValidCommit(c: Cluster, f: Frame)
    requires f.Frame?
  {
    MatchesStage(c, f) && BareFrame(f)
  }

  predicate ValidDelta(c: Cluster, f: Frame)
    requires f.Frame?
  {
    && c.available && !c.resyncNeeded && 0 < f.observed && c.observed <= f.observed && f.resources == []
    && f.change.Change?
    && f.change.epoch == f.epoch && f.change.seq_ == f.seq_ && f.change.epoch == c.epoch
    && !f.change.action.Unspecified?
    && ValidResource(f.change.resource, false)
  }

  /** A delta may create only what is absent and update or delete only what is present. */
  predicate ActionFits(m: map<Key, Resource>, d: Change)
    requires d.Change? && d.resource.Resource?
  {
    d.action.Created? <==> KeyOf(d.resource) !in m
  }

  // ----- one frame, one cluster -----

  function Unstaged(c: Cluster): Cluster
  {
    c.(staging := None)
  }

  /** What a change does to a resource map. Node and Event changes are numbered but not kept. */
  function Changed(m: map<Key, Resource>, d: Change): map<Key, Resource>
    requires d.Change? && d.resource.Resource?
  {
    if !PersistentKind(d.resource.kind) then m
    else if d.action.Deleted? then m - {KeyOf(d.resource)}
    else m[KeyOf(d.resource) := d.resource]
  }

  function NextChunk(c: Cluster, f: Frame, max: nat, granted: bool): (Cluster, bool)
    requires f.Frame?
  {
    if !ValidChunk(c, f) then (Unstaged(c), false)
    else
      var staged := StageAll(c.staging.value.resources, f.resources, max);
      if staged.None? || !granted then (Unstaged(c), false)
      else (c.(staging := Some(c.staging.value.(resources := staged.value))), true)
  }

  function NextCommit(c: Cluster, f: Frame, granted: bool): (Cluster, bool)
    requires f.Frame?
  {
    if !ValidCommit(c, f) || !granted then (Unstaged(c), false)
    else (Cluster(f.epoch, f.seq_, c.staging.value.resources, None, true, false, f.observed), true)
  }

  function NextDelta(c: Cluster, f: Frame, granted: bool): (Cluster, bool)
    requires f.Frame?
  {
    if !ValidDelta(c, f) then (c, false)
    else if f.change.seq_ <= c.seq_ then (c, true)
    else if f.change.seq_ != c.seq_ + 1 then (Unstaged(c).(resyncNeeded := true), false)
    else if PersistentKind(f.change.resource.kind) &&
            (!ActionFits(c.resources, f.change) || (!f.change.action.Deleted? && !granted)) then (c, false)
    else (c.(resources := Changed(c.resources, f.change), seq_ := f.change.seq_, observed := f.observed), true)
  }

  /** The effect of frame f on its cluster, and whether it is accepted. `max` bounds one snapshot;
      `granted` is the answer of the capacity checks shared with the other clusters. */
  function Next(c: Cluster, f: Frame, max: nat, granted: bool): (Cluster, bool)
    requires f.Frame?
  {
    match f.ftype
    case Reset =>
      if ValidReset(f) then (Unstaged(c).(resyncNeeded := true), true) else (c, false)
    case Heartbeat =>
      if ValidHeartbeat(c, f) then (c.(observed := f.observed), true) else (c, false)
    case Expired =>
      if ValidExpiry(f) then (Unstaged(c).(resources := map[], available := false, resyncNeeded := true), true)
      else (c, false)
    case SnapshotBegin =>
      if ValidBegin(f) then (c.(staging := Some(Stage(f.epoch, f.seq_, f.observed, map[]))), true) else (c, false)
    case SnapshotChunk => NextChunk(c, f, max, granted)
    case SnapshotCommit => NextCommit(c, f, granted)
    case Delta => NextDelta(c, f, granted)
    case UnknownType => (c, false)
  }

  /** One received frame together with the answer of the shared capacity checks. */
  datatype Received = Received(frame: Frame, granted: bool)

  predicate AllFrames(log: seq<Received>)
  {
    forall i :: 0 <= i < |log| ==> log[i].frame.Frame?
  }

  function FramesOf(log: seq<Received>): seq<Frame>
  {
    seq(|log|, i requires 0 <= i < |log| => log[i].frame)
  }

  /** The record after a whole log of frames. */
  function Run(c: Cluster, log: seq<Received>, max: nat): Cluster
    requires AllFrames(log)
  {
    if log == [] then c
    else Next(Run(c, log[..|log| - 1], max), log[|log| - 1].frame, max, log[|log| - 1].granted).0
  }

  lemma RunSnoc(c: Cluster, log: seq<Received>, r: Received, max: nat)
    requires AllFrames(log) && r.frame.Frame?
    ensures AllFrames(log + [r]) && Run(c, log + [r], max) == Next(Run(c, log, max), r.frame, max, r.granted).0
  {
    assert (log + [r])[..|log + [r]| - 1] == log;
  }

  /** What readers are served: nothing, or a resource map. */
  function Visible(c: Cluster): Option<map<Key, Resource>>
  {
    if c.available then Some(c.resources) else None
  }
}
