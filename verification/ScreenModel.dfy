/** One screen's projection of a cluster's resources, as a function of the orders in which the maps happen to
    be iterated, and the proof that those orders do not show. */
module ScreenModel {
  import opened CatalogProtocol
  import opened Options
  import opened Ordering

  // ----- resources -----

  datatype Severity = Healthy | Undetermined | Progressing | Warning | Degraded | Critical

  datatype Issue =
    | CrashLoopBackOff | ImagePullBackOff | OOMKilled | PendingTooLong | ProbeFailed
    | ReplicaMismatch | Restarting | RolloutStalled

  datatype Phase = Running | Pending | Failed | OtherPhase

  /** An owner. The first owner of a ReplicaSet carries the revision that the ReplicaSet stands for. */
  datatype OwnerRef = OwnerRef(kind: Kind, uid: string, name: string, revision: string)

  /** What the kind adds. The state of a pod is the one its status comes to at the time of the request; ages
      are in seconds. */
  datatype Body =
    | NoBody
    | NodeBody(ready: bool, pressure: bool, unschedulable: bool)
    | PodBody(phase: Phase, severity: Severity, issues: seq<Issue>, restarts: int, reason: string, podAge: int,
              cpuRequest: int, memoryRequest: int)
    | WorkloadBody(stalled: bool, desired: int, readyReplicas: int, age: int)
    | EventBody(lastSeenMs: int, involved: string, message: string)

  datatype Item = Item(kind: Kind, uid: string, namespace: string, name: string, owners: seq<OwnerRef>, body: Body)

  datatype Screen = Overview | NamespaceList | OneNamespace | OneWorkload | OnePod | Topology | Logs

  datatype Request = Request(
    screen: Screen, allNamespaces: bool, namespaces: set<string>, namespace: string, kind: Kind, name: string,
    entityUID: string, fromMs: int, eventLimit: nat, unhealthyLimit: nat)

  function Rank(s: Severity): nat
  {
    match s
    case Healthy => 0
    case Undetermined => 1
    case Progressing => 2
    case Warning => 3
    case Degraded => 4
    case Critical => 5
  }

  function WorseOf(a: Severity, b: Severity): Severity
  {
    if Rank(b) > Rank(a) then b else a
  }

  /** The place of an issue in the alphabet of issues. */
  function IssueRank(i: Issue): nat
  {
    match i
    case CrashLoopBackOff => 0
    case ImagePullBackOff => 1
    case OOMKilled => 2
    case PendingTooLong => 3
    case ProbeFailed => 4
    case ReplicaMismatch => 5
    case Restarting => 6
    case RolloutStalled => 7
  }

  predicate IssueAtMost(a: Issue, b: Issue)
  {
    IssueRank(a) <= IssueRank(b)
  }

  predicate SameName(x: Item, y: Item)
  {
    x.kind == y.kind && x.namespace == y.namespace && x.name == y.name
  }

  /** UIDs are unique, and so are kind, namespace and name together. */
  predicate Unique(items: seq<Item>)
  {
    forall x, y | x in items && y in items :: SameName(x, y) || x.uid == y.uid ==> x == y
  }

  predicate PodsAreKindPod(items: seq<Item>)
  {
    forall x :: x in items && x.body.PodBody? ==> x.kind.Pod?
  }

  // ----- what a screen needs -----

  predicate NeedPods(req: Request) { !req.screen.Logs? }

  predicate NeedWorkloads(req: Request)
  {
    req.screen.Overview? || req.screen.NamespaceList? || req.screen.OneNamespace? || req.screen.OneWorkload?
  }

  predicate NeedOwners(req: Request) { NeedWorkloads(req) || req.screen.OnePod? || req.screen.Topology? }

  predicate NeedEvents(req: Request)
  {
    req.screen.Overview? || req.screen.OneNamespace? || req.screen.OneWorkload? || req.screen.OnePod? || req.screen.Logs?
  }

  predicate NeedNamespaces(req: Request) { req.screen.NamespaceList? || req.screen.OneNamespace? }

  predicate Allows(req: Request, namespace: string) { req.allNamespaces || namespace in req.namespaces }

  // ----- the first pass -----

  datatype Found = Found(rs: map<string, Item>, workloads: map<string, Item>, target: string, targetOwner: string)

  predicate IsTargetWorkload(req: Request, x: Item)
  {
    && NeedWorkloads(req) && x.body.WorkloadBody? && req.screen.OneWorkload?
    && x.namespace == req.namespace && x.kind == req.kind && x.name == req.name
  }

  predicate IsTargetPod(req: Request, x: Item)
  {
    && NeedPods(req) && req.screen.OnePod? && x.body.PodBody?
    && x.namespace == req.namespace && x.name == req.name && (req.entityUID == "" || x.uid == req.entityUID)
  }

  function Find(req: Request, f: Found, x: Item): Found
  {
    Found(
      if NeedOwners(req) && x.kind.ReplicaSet? then f.rs[x.uid := x] else f.rs,
      if NeedWorkloads(req) && x.body.WorkloadBody? then f.workloads[x.uid := x] else f.workloads,
      if IsTargetWorkload(req, x) || IsTargetPod(req, x) then x.uid else f.target,
      if IsTargetPod(req, x) && x.owners != [] then x.owners[0].uid else f.targetOwner)
  }

  function Finder(req: Request): (Found, Item) -> Found
  {
    (f, x) => Find(req, f, x)
  }

  function FindAll(req: Request, items: seq<Item>): Found
  {
    Fold(Found(map[], map[], req.entityUID, ""), items, Finder(req))
  }

  lemma FindCommutes(req: Request, items: seq<Item>)
    requires Unique(items) && PodsAreKindPod(items)
    ensures CommutesOn(Finder(req), items)
  {
    forall f, x, y | x in items && y in items
      ensures Find(req, Find(req, f, x), y) == Find(req, Find(req, f, y), x)
    {
      if x != y {
        assert x.uid != y.uid;
        assert f.rs[x.uid := x][y.uid := y] == f.rs[y.uid := y][x.uid := x];
        assert f.workloads[x.uid := x][y.uid := y] == f.workloads[y.uid := y][x.uid := x];
      }
    }
  }

  // ----- the second pass -----

  /** The owner that stands for a pod's workload: its first owner, or that one's own first owner when it is a
      ReplicaSet that has one. */
  function WorkloadOf(owners: seq<OwnerRef>, rs: map<string, Item>): Option<OwnerRef>
  {
    if owners == [] then None
    else if owners[0].kind.ReplicaSet? && owners[0].uid in rs && rs[owners[0].uid].owners != []
    then Some(rs[owners[0].uid].owners[0])
    else Some(owners[0])
  }

  function UidOf(o: Option<OwnerRef>): string
  {
    if o.None? then "" else o.value.uid
  }

  predicate ScreenWants(req: Request, f: Found, x: Item)
  {
    if req.screen.OneWorkload? then UidOf(WorkloadOf(x.owners, f.rs)) == f.target
    else if req.screen.OnePod? then
      if f.targetOwner != "" then x.owners != [] && x.owners[0].uid == f.targetOwner else x.uid == f.target
    else true
  }

  function PodIncluded(req: Request, f: Found): Item -> bool
  {
    (x: Item) => NeedPods(req) && x.body.PodBody? && Allows(req, x.namespace) && ScreenWants(req, f, x)
  }

  function EventIncluded(req: Request, f: Found): Item -> bool
  {
    (x: Item) => NeedEvents(req) && x.body.EventBody? && Allows(req, x.namespace)
         && x.body.lastSeenMs >= req.fromMs && (f.target == "" || x.body.involved == f.target)
  }

  function NodeIncluded(req: Request): Item -> bool
  {
    (x: Item) => req.screen.Overview? && x.body.NodeBody?
  }

  // ----- rollups -----

  datatype Counts = Counts(
    pods: int, running: int, pending: int, failed: int, restarts: int, crashLoops: int, imagePulls: int,
    cpuRequest: int, memoryRequest: int, workloads: int, badWorkloads: int)
  {
    function Plus(o: Counts): Counts
    {
      Counts(pods + o.pods, running + o.running, pending + o.pending, failed + o.failed, restarts + o.restarts,
             crashLoops + o.crashLoops, imagePulls + o.imagePulls, cpuRequest + o.cpuRequest,
             memoryRequest + o.memoryRequest, workloads + o.workloads, badWorkloads + o.badWorkloads)
    }
  }

  const NoCounts := Counts(0, 0, 0, 0, 0, 0, 0, 0, 0, 0, 0)

  /** A running total, and what one pod or one workload adds to it. */
  datatype Tally = Tally(counts: Counts, severity: Severity, issues: seq<Issue>)

  const EmptyTally := Tally(NoCounts, Healthy, [])

  function One(b: bool): int
  {
    if b then 1 else 0
  }

  /** dst, and whatever of src it does not have. */
  function MergeIssues(dst: seq<Issue>, src: seq<Issue>): seq<Issue>
  {
    if src == [] then dst
    else
      var merged := MergeIssues(dst, src[..|src| - 1]);
      if src[|src| - 1] in merged then merged else merged + [src[|src| - 1]]
  }

  function Add(t: Tally, part: Tally): Tally
  {
    Tally(t.counts.Plus(part.counts), WorseOf(t.severity, part.severity), MergeIssues(t.issues, part.issues))
  }

  function Total(t: Tally, parts: seq<Tally>): Tally
  {
    Fold(t, parts, Add)
  }

  /** The total with its issues in alphabetical order. */
  function Settled(t: Tally): Tally
  {
    t.(issues := Sort(t.issues, IssueAtMost))
  }

  /** A total that does not remember in which order its issues came. */
  datatype Blurred = Blurred(counts: Counts, severity: Severity, issues: set<Issue>)

  function Blur(t: Tally): Blurred
  {
    Blurred(t.counts, t.severity, set i | i in t.issues)
  }

  function BlurAdd(b: Blurred, part: Tally): Blurred
  {
    Blurred(b.counts.Plus(part.counts), WorseOf(b.severity, part.severity), b.issues + set i | i in part.issues)
  }

  lemma {:induction false} MergeFacts(dst: seq<Issue>, src: seq<Issue>)
    requires NoRepeats(dst)
    ensures NoRepeats(MergeIssues(dst, src))
    ensures forall i :: i in MergeIssues(dst, src) <==> i in dst || i in src
    decreases |src|
  {
    if src != [] {
      MergeFacts(dst, src[..|src| - 1]);
      assert src == src[..|src| - 1] + [src[|src| - 1]];
    }
  }

  lemma {:induction false} TotalBlurs(t: Tally, parts: seq<Tally>)
    requires NoRepeats(t.issues)
    ensures NoRepeats(Total(t, parts).issues) && Blur(Total(t, parts)) == Fold(Blur(t), parts, BlurAdd)
    decreases |parts|
  {
    if parts != [] {
      var before, part := Total(t, parts[..|parts| - 1]), parts[|parts| - 1];
      TotalBlurs(t, parts[..|parts| - 1]);
      MergeFacts(before.issues, part.issues);
    }
  }

  lemma BlurAddCommutes(parts: seq<Tally>)
    ensures CommutesOn(BlurAdd, parts)
  {
    forall b, x, y | x in parts && y in parts
      ensures BlurAdd(BlurAdd(b, x), y) == BlurAdd(BlurAdd(b, y), x)
    {
      var xs, ys := set i | i in x.issues, set i | i in y.issues;
      assert b.issues + xs + ys == b.issues + ys + xs;
    }
  }

  lemma SettledForgets(a: Tally, b: Tally)
    requires NoRepeats(a.issues) && NoRepeats(b.issues) && Blur(a) == Blur(b)
    ensures Settled(a) == Settled(b)
  {
    forall i ensures i in a.issues <==> i in b.issues {
      assert i in Blur(a).issues <==> i in Blur(b).issues;
    }
    SameElementsPermute(a.issues, b.issues);
    SortForgetsOrder(a.issues, b.issues, IssueAtMost);
  }

  /** A settled total does not depend on the order of its parts. */
  lemma TotalForgetsOrder(t: Tally, parts: seq<Tally>, parts': seq<Tally>)
    requires NoRepeats(t.issues) && multiset(parts) == multiset(parts')
    ensures Settled(Total(t, parts)) == Settled(Total(t, parts'))
  {
    TotalBlurs(t, parts);
    TotalBlurs(t, parts');
    BlurAddCommutes(parts);
    FoldForgetsOrder(Blur(t), parts, parts', BlurAdd);
    SettledForgets(Total(t, parts), Total(t, parts'));
  }

  // ----- what a screen shows -----

  datatype Summary = Summary(
    kind: Kind, namespace: string, name: string, uid: string, severity: Severity, restarts: int, issues: seq<Issue>,
    desired: int, ready: int, age: int, cpuRequest: int, memoryRequest: int)

  datatype Reason = PodReason(text: string) | RolloutReason | ReplicaReason(ready: int, desired: int)

  datatype Entry = Entry(
    ofPod: bool, podUid: string, workloadUid: string, namespace: string, name: string, severity: Severity,
    reason: Reason, restarts: int, forSeconds: int)

  /** Times are shown in whole seconds. */
  datatype Event = Event(uid: string, namespace: string, lastSeen: int, involved: string, message: string)

  datatype NamespaceRow = NamespaceRow(name: string, tally: Tally)

  datatype NodeHealth = NodeHealth(total: nat, ready: nat, notReady: nat, pressure: nat, unschedulable: nat)

  datatype WorkloadHealth = WorkloadHealth(total: nat, available: nat, mismatched: nat, stalled: nat)

  function NonNegative(n: int): int
  {
    if n < 0 then 0 else n
  }

  function PodPart(x: Item): Tally
  {
    if !x.body.PodBody? then EmptyTally
    else
      Tally(Counts(1, One(x.body.phase.Running?), One(x.body.phase.Pending?), One(x.body.phase.Failed?), x.body.restarts,
                   One(CrashLoopBackOff in x.body.issues), One(ImagePullBackOff in x.body.issues),
                   x.body.cpuRequest, x.body.memoryRequest, 0, 0),
            x.body.severity, x.body.issues)
  }

  function WorkloadPart(w: Summary): Tally
  {
    Tally(NoCounts.(workloads := 1, badWorkloads := One(w.severity != Healthy)), w.severity, w.issues)
  }

  /** The pods that count towards workload x. */
  function Owned(x: Item, rs: map<string, Item>): Item -> bool
  {
    (p: Item) =>
      var o := WorkloadOf(p.owners, rs);
      o.Some? && o.value.uid != "" && o.value.uid == x.uid && o.value.kind == x.kind
  }

  /** What a workload shows by itself. */
  function OwnTally(x: Item): Tally
    requires x.body.WorkloadBody?
  {
    var short := x.body.desired > 0 && x.body.readyReplicas < x.body.desired;
    Tally(NoCounts,
          WorseOf(if x.body.stalled then Critical else Healthy,
                  if !short then Healthy else if x.body.readyReplicas == 0 then Critical else Degraded),
          (if x.body.stalled then [RolloutStalled] else []) + (if short then [ReplicaMismatch] else []))
  }

  function Rollup(x: Item, rs: map<string, Item>, pods: seq<Item>): Tally
    requires x.body.WorkloadBody?
  {
    Settled(Total(OwnTally(x), Map(PodPart, Filter(Owned(x, rs), pods))))
  }

  function SummaryOf(x: Item, t: Tally): Summary
    requires x.body.WorkloadBody?
  {
    Summary(x.kind, x.namespace, x.name, x.uid, t.severity, t.counts.restarts, t.issues,
            x.body.desired, x.body.readyReplicas, NonNegative(x.body.age), t.counts.cpuRequest, t.counts.memoryRequest)
  }

  const NoSummary := Summary(Kind.Pod, "", "", "", Healthy, 0, [], 0, 0, 0, 0, 0)

  function Summarise(rs: map<string, Item>, pods: seq<Item>): Item -> Summary
  {
    (x: Item) => if x.body.WorkloadBody? then SummaryOf(x, Rollup(x, rs, pods)) else NoSummary
  }

  function PodEntry(rs: map<string, Item>): Item -> Entry
  {
    (x: Item) =>
      if !x.body.PodBody? then Entry(true, "", "", "", "", Healthy, RolloutReason, 0, 0)
      else
        Entry(true, x.uid, UidOf(WorkloadOf(x.owners, rs)), x.namespace, x.name, x.body.severity,
              PodReason(if x.body.reason == "" then "Unknown" else x.body.reason), x.body.restarts, NonNegative(x.body.podAge))
  }

  function WorkloadEntry(w: Summary): Entry
  {
    Entry(false, "", w.uid, w.namespace, w.name, w.severity,
          if RolloutStalled in w.issues then RolloutReason else ReplicaReason(w.ready, w.desired), w.restarts, w.age)
  }

  predicate BadPod(x: Item) { x.body.PodBody? && x.body.severity != Healthy }

  predicate BadWorkload(w: Summary)
  {
    w.severity != Healthy && (ReplicaMismatch in w.issues || RolloutStalled in w.issues)
  }

  function EventOf(x: Item): Event
  {
    if x.body.EventBody? then Event(x.uid, x.namespace, x.body.lastSeenMs / 1000, x.body.involved, x.body.message)
    else Event("", "", 0, "", "")
  }

  // ----- sorting -----

  function KindName(kind: Kind): string
  {
    match kind
    case Namespace => "Namespace"
    case Pod => "Pod"
    case ReplicaSet => "ReplicaSet"
    case Deployment => "Deployment"
    case StatefulSet => "StatefulSet"
    case DaemonSet => "DaemonSet"
    case CronJob => "CronJob"
    case Node => "Node"
    case KubeEvent => "Event"
    case OtherKind(name) => name
  }

  function EntryKey(e: Entry): SortKey
  {
    SortKey(Rank(e.severity), e.forSeconds,
        [e.namespace, if e.ofPod then "Pod" else "Workload", e.name, e.podUid + e.workloadUid])
  }

  function EventKey(e: Event): SortKey
  {
    SortKey(e.lastSeen, 0, [e.uid])
  }

  function NamespaceKey(n: NamespaceRow): SortKey
  {
    SortKey(Rank(n.tally.severity), 0, [n.name])
  }

  function SummaryKey(w: Summary): SortKey
  {
    SortKey(Rank(w.severity), 0, [w.namespace, w.name, KindName(w.kind), w.uid])
  }

  predicate EntryAtMost(a: Entry, b: Entry) { KeyAtMost(EntryKey(a), EntryKey(b)) }
  predicate EventAtMost(a: Event, b: Event) { KeyAtMost(EventKey(a), EventKey(b)) }
  predicate NamespaceAtMost(a: NamespaceRow, b: NamespaceRow) { KeyAtMost(NamespaceKey(a), NamespaceKey(b)) }
  predicate SummaryAtMost(a: Summary, b: Summary) { KeyAtMost(SummaryKey(a), SummaryKey(b)) }

  lemma ListOrdersAreTotal()
    ensures TotalOrder(EntryAtMost) && TotalOrder(EventAtMost) && TotalOrder(NamespaceAtMost) && TotalOrder(SummaryAtMost)
  {
    KeysAreOrdered();
  }

  function First<T>(s: seq<T>, n: nat): seq<T>
  {
    if |s| > n then s[..n] else s
  }

  // ----- the lists before they are sorted -----

  function PodsOf(req: Request, f: Found, items: seq<Item>): seq<Item>
  {
    Filter(PodIncluded(req, f), items)
  }

  function Allowed(req: Request): Item -> bool
  {
    (x: Item) => Allows(req, x.namespace)
  }

  function SummariesOf(req: Request, f: Found, pods: seq<Item>, workloads: seq<Item>): seq<Summary>
  {
    Map(Summarise(f.rs, pods), Filter(Allowed(req), workloads))
  }

  predicate ReadyNode(x: Item) { x.body.NodeBody? && x.body.ready }
  predicate UnreadyNode(x: Item) { x.body.NodeBody? && !x.body.ready }
  predicate PressedNode(x: Item) { x.body.NodeBody? && x.body.pressure }
  predicate UnschedulableNode(x: Item) { x.body.NodeBody? && x.body.unschedulable }

  predicate AvailableWorkload(w: Summary) { w.severity == Healthy }
  predicate MismatchedWorkload(w: Summary) { ReplicaMismatch in w.issues }
  predicate StalledWorkload(w: Summary) { RolloutStalled in w.issues }

  function NodesOf(req: Request, items: seq<Item>): NodeHealth
  {
    var nodes := Filter(NodeIncluded(req), items);
    NodeHealth(|nodes|,
               |Filter(ReadyNode, nodes)|, |Filter(UnreadyNode, nodes)|,
               |Filter(PressedNode, nodes)|, |Filter(UnschedulableNode, nodes)|)
  }

  function HealthOf(summaries: seq<Summary>): WorkloadHealth
  {
    WorkloadHealth(|summaries|,
                   |Filter(AvailableWorkload, summaries)|,
                   |Filter(MismatchedWorkload, summaries)|,
                   |Filter(StalledWorkload, summaries)|)
  }

  function EntriesOf(rs: map<string, Item>, pods: seq<Item>, summaries: seq<Summary>): seq<Entry>
  {
    Map(PodEntry(rs), Filter(BadPod, pods)) + Map(WorkloadEntry, Filter(BadWorkload, summaries))
  }

  function PodIn(name: string): Item -> bool
  {
    (x: Item) => x.namespace == name
  }

  function WorkloadIn(name: string): Summary -> bool
  {
    (w: Summary) => w.namespace == name
  }

  function NamespaceTotal(pods: seq<Item>, summaries: seq<Summary>, name: string): Tally
  {
    Total(EmptyTally, Map(PodPart, Filter(PodIn(name), pods)) + Map(WorkloadPart, Filter(WorkloadIn(name), summaries)))
  }

  function NamespaceOf(pods: seq<Item>, summaries: seq<Summary>): string -> NamespaceRow
  {
    (name: string) => NamespaceRow(name, Settled(NamespaceTotal(pods, summaries, name)))
  }

  function NamesOf(req: Request, pods: seq<Item>, summaries: seq<Summary>): set<string>
  {
    if NeedNamespaces(req) then (set x | x in pods :: x.namespace) + (set w | w in summaries :: w.namespace) else {}
  }

  // ----- iteration orders do not show -----

  lemma FoundForgetsOrder(req: Request, items: seq<Item>, order: seq<Item>)
    requires Unique(items) && PodsAreKindPod(items) && multiset(order) == multiset(items)
    ensures FindAll(req, order) == FindAll(req, items)
  {
    FindCommutes(req, items);
    FoldForgetsOrder(Found(map[], map[], req.entityUID, ""), items, order, Finder(req));
  }

  /** The workloads found are resources of the map, under their own UIDs. */
  lemma {:induction false} WorkloadsAreItems(req: Request, items: seq<Item>, uid: string)
    requires uid in FindAll(req, items).workloads
    ensures var x := FindAll(req, items).workloads[uid]; x in items && x.uid == uid && x.body.WorkloadBody?
    decreases |items|
  {
    if items != [] {
      var last := items[|items| - 1];
      if !(NeedWorkloads(req) && last.body.WorkloadBody? && last.uid == uid) {
        WorkloadsAreItems(req, items[..|items| - 1], uid);
      }
    }
  }

  lemma PartsPermute(p: Item -> bool, pods: seq<Item>, pods': seq<Item>)
    requires multiset(pods) == multiset(pods')
    ensures multiset(Map(PodPart, Filter(p, pods))) == multiset(Map(PodPart, Filter(p, pods')))
  {
    FilterPermutes(p, pods, pods');
    MapPermutes(PodPart, Filter(p, pods), Filter(p, pods'));
  }

  lemma RollupForgetsOrder(x: Item, rs: map<string, Item>, pods: seq<Item>, pods': seq<Item>)
    requires x.body.WorkloadBody? && multiset(pods) == multiset(pods')
    ensures Rollup(x, rs, pods) == Rollup(x, rs, pods')
  {
    PartsPermute(Owned(x, rs), pods, pods');
    TotalForgetsOrder(OwnTally(x), Map(PodPart, Filter(Owned(x, rs), pods)), Map(PodPart, Filter(Owned(x, rs), pods')));
  }

  lemma SummariesForgetOrder(
      req: Request, f: Found, pods: seq<Item>, pods': seq<Item>, workloads: seq<Item>, workloads': seq<Item>)
    requires multiset(pods) == multiset(pods') && multiset(workloads) == multiset(workloads')
    ensures multiset(SummariesOf(req, f, pods, workloads)) == multiset(SummariesOf(req, f, pods', workloads'))
  {
    var s, s' := Filter(Allowed(req), workloads), Filter(Allowed(req), workloads');
    FilterPermutes(Allowed(req), workloads, workloads');
    MapPermutes(Summarise(f.rs, pods), s, s');
    forall x | x in s' ensures Summarise(f.rs, pods)(x) == Summarise(f.rs, pods')(x) {
      if x.body.WorkloadBody? {
        RollupForgetsOrder(x, f.rs, pods, pods');
      }
    }
    assert Map(Summarise(f.rs, pods), s') == Map(Summarise(f.rs, pods'), s');
  }

  lemma NamespaceForgetsOrder(
      pods: seq<Item>, pods': seq<Item>, summaries: seq<Summary>, summaries': seq<Summary>, name: string)
    requires multiset(pods) == multiset(pods') && multiset(summaries) == multiset(summaries')
    ensures NamespaceOf(pods, summaries)(name) == NamespaceOf(pods', summaries')(name)
  {
    var here, there := PodIn(name), WorkloadIn(name);
    PartsPermute(here, pods, pods');
    FilterPermutes(there, summaries, summaries');
    MapPermutes(WorkloadPart, Filter(there, summaries), Filter(there, summaries'));
    TotalForgetsOrder(EmptyTally,
      Map(PodPart, Filter(here, pods)) + Map(WorkloadPart, Filter(there, summaries)),
      Map(PodPart, Filter(here, pods')) + Map(WorkloadPart, Filter(there, summaries')));
  }

  lemma EntriesForgetOrder(
      rs: map<string, Item>, pods: seq<Item>, pods': seq<Item>, summaries: seq<Summary>, summaries': seq<Summary>)
    requires multiset(pods) == multiset(pods') && multiset(summaries) == multiset(summaries')
    ensures multiset(EntriesOf(rs, pods, summaries)) == multiset(EntriesOf(rs, pods', summaries'))
  {
    FilterPermutes(BadPod, pods, pods');
    MapPermutes(PodEntry(rs), Filter(BadPod, pods), Filter(BadPod, pods'));
    FilterPermutes(BadWorkload, summaries, summaries');
    MapPermutes(WorkloadEntry, Filter(BadWorkload, summaries), Filter(BadWorkload, summaries'));
  }

  lemma CountForgetsOrder<T(!new)>(p: T -> bool, s: seq<T>, t: seq<T>)
    requires multiset(s) == multiset(t)
    ensures |Filter(p, s)| == |Filter(p, t)|
  {
    FilterPermutes(p, s, t);
    SameCollection(Filter(p, s), Filter(p, t));
  }

  lemma NodesForgetOrder(req: Request, items: seq<Item>, items': seq<Item>)
    requires multiset(items) == multiset(items')
    ensures NodesOf(req, items) == NodesOf(req, items')
  {
    var nodes, nodes' := Filter(NodeIncluded(req), items), Filter(NodeIncluded(req), items');
    FilterPermutes(NodeIncluded(req), items, items');
    SameCollection(nodes, nodes');
    CountForgetsOrder(ReadyNode, nodes, nodes');
    CountForgetsOrder(UnreadyNode, nodes, nodes');
    CountForgetsOrder(PressedNode, nodes, nodes');
    CountForgetsOrder(UnschedulableNode, nodes, nodes');
  }

  lemma HealthForgetsOrder(s: seq<Summary>, s': seq<Summary>)
    requires multiset(s) == multiset(s')
    ensures HealthOf(s) == HealthOf(s')
  {
    SameCollection(s, s');
    CountForgetsOrder(AvailableWorkload, s, s');
    CountForgetsOrder(MismatchedWorkload, s, s');
    CountForgetsOrder(StalledWorkload, s, s');
  }

  // ----- the sort keys tell rows apart -----

  lemma EventsTellApart(p: Item -> bool, items: seq<Item>)
    requires Unique(items) && forall x :: p(x) ==> x.body.EventBody?
    ensures Distinguishes(EventAtMost, Map(EventOf, Filter(p, items)))
  {
    KeysAreOrdered();
    FilterMembers(p, items);
    var xs := Filter(p, items);
    var es := Map(EventOf, xs);
    forall i, j | 0 <= i < |es| && 0 <= j < |es| && EventAtMost(es[i], es[j]) && EventAtMost(es[j], es[i])
      ensures es[i] == es[j]
    {
      assert EventKey(es[i]).texts[0] == EventKey(es[j]).texts[0];
      assert xs[i] in xs && xs[j] in xs;
    }
  }

  /** Every listed workload is a workload of the map. */
  ghost predicate FromItems(workloads: seq<Item>, items: seq<Item>)
  {
    forall x :: x in workloads ==> x in items && x.body.WorkloadBody?
  }

  /** Each summary is that of one of the workloads. */
  lemma SummaryHasSource(req: Request, f: Found, pods: seq<Item>, workloads: seq<Item>, i: nat) returns (x: Item)
    requires i < |SummariesOf(req, f, pods, workloads)|
    ensures x in workloads && SummariesOf(req, f, pods, workloads)[i] == Summarise(f.rs, pods)(x)
    ensures x.body.WorkloadBody? ==> SummariesOf(req, f, pods, workloads)[i].uid == x.uid
  {
    FilterMembers(Allowed(req), workloads);
    x := Filter(Allowed(req), workloads)[i];
    assert x in Filter(Allowed(req), workloads);
  }

  lemma UidDecidesSummary(
      req: Request, f: Found, pods: seq<Item>, workloads: seq<Item>, items: seq<Item>, i: nat, j: nat)
    requires Unique(items) && FromItems(workloads, items)
    requires i < |SummariesOf(req, f, pods, workloads)| && j < |SummariesOf(req, f, pods, workloads)|
    requires SummariesOf(req, f, pods, workloads)[i].uid == SummariesOf(req, f, pods, workloads)[j].uid
    ensures SummariesOf(req, f, pods, workloads)[i] == SummariesOf(req, f, pods, workloads)[j]
  {
    var x := SummaryHasSource(req, f, pods, workloads, i);
    var y := SummaryHasSource(req, f, pods, workloads, j);
    assert x == y;
  }

  lemma SummaryUidsAreUnique(req: Request, f: Found, pods: seq<Item>, workloads: seq<Item>, items: seq<Item>)
    requires Unique(items) && FromItems(workloads, items)
    ensures forall v, w | v in SummariesOf(req, f, pods, workloads) && w in SummariesOf(req, f, pods, workloads) ::
              v.uid == w.uid ==> v == w
  {
    var summaries := SummariesOf(req, f, pods, workloads);
    forall v, w | v in summaries && w in summaries && v.uid == w.uid ensures v == w {
      var i :| 0 <= i < |summaries| && summaries[i] == v;
      var j :| 0 <= j < |summaries| && summaries[j] == w;
      UidDecidesSummary(req, f, pods, workloads, items, i, j);
    }
  }

  lemma SummariesTellApart(req: Request, f: Found, pods: seq<Item>, workloads: seq<Item>, items: seq<Item>)
    requires Unique(items) && FromItems(workloads, items)
    ensures Distinguishes(SummaryAtMost, SummariesOf(req, f, pods, workloads))
  {
    KeysAreOrdered();
    var s := SummariesOf(req, f, pods, workloads);
    forall i, j | 0 <= i < |s| && 0 <= j < |s| && SummaryAtMost(s[i], s[j]) && SummaryAtMost(s[j], s[i])
      ensures s[i] == s[j]
    {
      assert SummaryKey(s[i]).texts[3] == SummaryKey(s[j]).texts[3];
      UidDecidesSummary(req, f, pods, workloads, items, i, j);
    }
  }

  lemma NamespacesTellApart(pods: seq<Item>, summaries: seq<Summary>, names: seq<string>)
    ensures Distinguishes(NamespaceAtMost, Map(NamespaceOf(pods, summaries), names))
  {
    KeysAreOrdered();
    var s := Map(NamespaceOf(pods, summaries), names);
    forall i, j | 0 <= i < |s| && 0 <= j < |s| && NamespaceAtMost(s[i], s[j]) && NamespaceAtMost(s[j], s[i])
      ensures s[i] == s[j]
    {
      assert NamespaceKey(s[i]).texts[0] == NamespaceKey(s[j]).texts[0];
    }
  }

  /** Where a row of the unhealthy list comes from. */
  lemma EntryHasSource(
      rs: map<string, Item>, pods: seq<Item>, summaries: seq<Summary>, i: nat) returns (x: Item, w: Summary)
    requires i < |EntriesOf(rs, pods, summaries)| && forall p :: p in pods ==> p.body.PodBody?
    ensures var e := EntriesOf(rs, pods, summaries)[i];
      if e.ofPod then x in pods && e == PodEntry(rs)(x) else w in summaries && e == WorkloadEntry(w)
  {
    FilterMembers(BadPod, pods);
    FilterMembers(BadWorkload, summaries);
    var bad, worse := Filter(BadPod, pods), Filter(BadWorkload, summaries);
    x, w := Item(Kind.Pod, "", "", "", [], NoBody), NoSummary;
    if i < |bad| {
      x := bad[i];
      assert x in bad;
    } else {
      w := worse[i - |bad|];
      assert w in worse;
    }
  }

  lemma EntriesTellApart(
      rs: map<string, Item>, pods: seq<Item>, summaries: seq<Summary>, items: seq<Item>)
    requires Unique(items) && PodsAreKindPod(items)
    requires forall p :: p in pods ==> p in items && p.body.PodBody?
    requires forall v, w :: v in summaries && w in summaries && v.uid == w.uid ==> v == w
    ensures Distinguishes(EntryAtMost, EntriesOf(rs, pods, summaries))
  {
    KeysAreOrdered();
    var s := EntriesOf(rs, pods, summaries);
    forall i, j | 0 <= i < |s| && 0 <= j < |s| && EntryAtMost(s[i], s[j]) && EntryAtMost(s[j], s[i])
      ensures s[i] == s[j]
    {
      var x, v := EntryHasSource(rs, pods, summaries, i);
      var y, w := EntryHasSource(rs, pods, summaries, j);
      SameEntryKey(s[i], s[j]);
      if s[i].ofPod {
        assert SameName(x, y);
      } else {
        assert "" + v.uid == v.uid && "" + w.uid == w.uid;
      }
    }
  }

  lemma SameEntryKey(a: Entry, b: Entry)
    requires EntryKey(a) == EntryKey(b)
    ensures a.ofPod == b.ofPod && a.namespace == b.namespace && a.name == b.name
    ensures a.podUid + a.workloadUid == b.podUid + b.workloadUid
  {
    var s, t := EntryKey(a).texts, EntryKey(b).texts;
    assert s[0] == t[0] && s[1] == t[1] && s[2] == t[2] && s[3] == t[3];
    assert |s[1]| == |t[1]|;
  }

  // ----- the lists of one screen -----

  lemma PodsPermute(req: Request, f: Found, items: seq<Item>, second: seq<Item>, second': seq<Item>)
    requires multiset(second) == multiset(items) == multiset(second')
    ensures multiset(PodsOf(req, f, second)) == multiset(PodsOf(req, f, second'))
    ensures forall p :: p in PodsOf(req, f, second) ==> p in items && p.body.PodBody?
  {
    FilterPermutes(PodIncluded(req, f), second, second');
    FilterMembers(PodIncluded(req, f), second);
    SameCollection(second, items);
  }

  lemma EventsForgetOrder(req: Request, f: Found, items: seq<Item>, second: seq<Item>, second': seq<Item>)
    requires Unique(items) && multiset(second) == multiset(items) == multiset(second')
    ensures Sort(Map(EventOf, Filter(EventIncluded(req, f), second)), EventAtMost)
         == Sort(Map(EventOf, Filter(EventIncluded(req, f), second')), EventAtMost)
  {
    ListOrdersAreTotal();
    SameCollection(second, items);
    assert Unique(second);
    FilterPermutes(EventIncluded(req, f), second, second');
    MapPermutes(EventOf, Filter(EventIncluded(req, f), second), Filter(EventIncluded(req, f), second'));
    EventsTellApart(EventIncluded(req, f), second);
    SortForgetsOrder(Map(EventOf, Filter(EventIncluded(req, f), second)),
                     Map(EventOf, Filter(EventIncluded(req, f), second')), EventAtMost);
  }

  lemma NamespaceListForgetsOrder(
      pods: seq<Item>, pods': seq<Item>, summaries: seq<Summary>, summaries': seq<Summary>, names: seq<string>, names': seq<string>)
    requires multiset(pods) == multiset(pods') && multiset(summaries) == multiset(summaries') && multiset(names) == multiset(names')
    ensures Sort(Map(NamespaceOf(pods, summaries), names), NamespaceAtMost)
         == Sort(Map(NamespaceOf(pods', summaries'), names'), NamespaceAtMost)
  {
    ListOrdersAreTotal();
    forall n | n in names' ensures NamespaceOf(pods, summaries)(n) == NamespaceOf(pods', summaries')(n) {
      NamespaceForgetsOrder(pods, pods', summaries, summaries', n);
    }
    assert Map(NamespaceOf(pods, summaries), names') == Map(NamespaceOf(pods', summaries'), names');
    MapPermutes(NamespaceOf(pods, summaries), names, names');
    NamespacesTellApart(pods, summaries, names);
    SortForgetsOrder(Map(NamespaceOf(pods, summaries), names), Map(NamespaceOf(pods', summaries'), names'), NamespaceAtMost);
  }

  lemma WorkloadListForgetsOrder(
      req: Request, items: seq<Item>, f: Found, pods: seq<Item>, pods': seq<Item>, workloads: seq<Item>, workloads': seq<Item>)
    requires Unique(items) && FromItems(workloads, items)
    requires multiset(pods) == multiset(pods') && multiset(workloads) == multiset(workloads')
    ensures Sort(SummariesOf(req, f, pods, workloads), SummaryAtMost) == Sort(SummariesOf(req, f, pods', workloads'), SummaryAtMost)
  {
    ListOrdersAreTotal();
    SummariesForgetOrder(req, f, pods, pods', workloads, workloads');
    SummariesTellApart(req, f, pods, workloads, items);
    SortForgetsOrder(SummariesOf(req, f, pods, workloads), SummariesOf(req, f, pods', workloads'), SummaryAtMost);
  }

  lemma EntryListForgetsOrder(
      req: Request, items: seq<Item>, f: Found, pods: seq<Item>, pods': seq<Item>, workloads: seq<Item>, summaries': seq<Summary>)
    requires Unique(items) && PodsAreKindPod(items) && FromItems(workloads, items)
    requires multiset(pods) == multiset(pods') && multiset(SummariesOf(req, f, pods, workloads)) == multiset(summaries')
    requires forall p :: p in pods ==> p in items && p.body.PodBody?
    ensures Sort(EntriesOf(f.rs, pods, SummariesOf(req, f, pods, workloads)), EntryAtMost)
         == Sort(EntriesOf(f.rs, pods', summaries'), EntryAtMost)
  {
    ListOrdersAreTotal();
    var summaries := SummariesOf(req, f, pods, workloads);
    SummaryUidsAreUnique(req, f, pods, workloads, items);
    EntriesTellApart(f.rs, pods, summaries, items);
    EntriesForgetOrder(f.rs, pods, pods', summaries, summaries');
    SortForgetsOrder(EntriesOf(f.rs, pods, summaries), EntriesOf(f.rs, pods', summaries'), EntryAtMost);
  }

  lemma PodCountsForgetOrder(pods: seq<Item>, pods': seq<Item>)
    requires multiset(pods) == multiset(pods')
    ensures Total(EmptyTally, Map(PodPart, pods)).counts == Total(EmptyTally, Map(PodPart, pods')).counts
    ensures |pods| == |pods'| && |Filter(BadPod, pods)| == |Filter(BadPod, pods')|
  {
    MapPermutes(PodPart, pods, pods');
    TotalForgetsOrder(EmptyTally, Map(PodPart, pods), Map(PodPart, pods'));
    SameCollection(pods, pods');
    CountForgetsOrder(BadPod, pods, pods');
  }

  lemma SameNames(req: Request, pods: seq<Item>, pods': seq<Item>, summaries: seq<Summary>, summaries': seq<Summary>)
    requires forall x :: x in pods <==> x in pods'
    requires forall w :: w in summaries <==> w in summaries'
    ensures NamesOf(req, pods, summaries) == NamesOf(req, pods', summaries')
  {
  }
}
