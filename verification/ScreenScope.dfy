/** Which resources a screen is about, told from the request and the resources alone: the workload that stands
    above a pod, the one workload or pod asked for, and the pods, workloads, events and nodes that count. */
module ScreenScope {
  import opened CatalogProtocol
  import opened Options
  import opened Ordering
  import opened ScreenModel

  // ----- counting -----

  function Count<T>(p: T -> bool, s: seq<T>): nat
  {
    if s == [] then 0 else Count(p, s[..|s| - 1]) + if p(s[|s| - 1]) then 1 else 0
  }

  function SumOf<T>(f: T -> int, s: seq<T>): int
  {
    if s == [] then 0 else SumOf(f, s[..|s| - 1]) + f(s[|s| - 1])
  }

  lemma {:induction false} CountCounts<T(!new)>(p: T -> bool, q: T -> bool, s: seq<T>)
    requires forall x :: x in s ==> (p(x) <==> q(x))
    ensures |Filter(p, s)| == Count(q, s)
    decreases |s|
  {
    if s != [] {
      CountCounts(p, q, s[..|s| - 1]);
      assert s[|s| - 1] in s;
    }
  }

  lemma {:induction false} CountOfFiltered<T(!new)>(p: T -> bool, q: T -> bool, both: T -> bool, s: seq<T>)
    requires forall x :: x in s ==> (both(x) <==> p(x) && q(x))
    ensures Count(p, Filter(q, s)) == Count(both, s)
    decreases |s|
  {
    if s != [] {
      var before, last := s[..|s| - 1], s[|s| - 1];
      CountOfFiltered(p, q, both, before);
      assert last in s;
      if q(last) {
        assert Filter(q, s)[..|Filter(q, s)| - 1] == Filter(q, before);
      } else {
        assert Filter(q, s) == Filter(q, before);
      }
    }
  }

  lemma {:induction false} SumOfFiltered<T(!new)>(f: T -> int, q: T -> bool, g: T -> int, s: seq<T>)
    requires forall x :: x in s ==> g(x) == if q(x) then f(x) else 0
    ensures SumOf(f, Filter(q, s)) == SumOf(g, s)
    decreases |s|
  {
    if s != [] {
      var before, last := s[..|s| - 1], s[|s| - 1];
      SumOfFiltered(f, q, g, before);
      assert last in s;
      if q(last) {
        assert Filter(q, s)[..|Filter(q, s)| - 1] == Filter(q, before);
      } else {
        assert Filter(q, s) == Filter(q, before);
      }
    }
  }

  lemma {:induction false} CountIsASum<T(!new)>(p: T -> bool, f: T -> int, s: seq<T>)
    requires forall x :: x in s ==> f(x) == if p(x) then 1 else 0
    ensures Count(p, s) == SumOf(f, s)
    decreases |s|
  {
    if s != [] {
      CountIsASum(p, f, s[..|s| - 1]);
      assert s[|s| - 1] in s;
    }
  }

  /** Sums do not depend on order. */
  lemma SumForgetsOrder<T(!new)>(f: T -> int, s: seq<T>, t: seq<T>)
    requires multiset(s) == multiset(t)
    ensures SumOf(f, s) == SumOf(f, t)
  {
    var step := (n: int, x: T) => n + f(x);
    SumIsAFold(f, s, step);
    SumIsAFold(f, t, step);
    FoldForgetsOrder(0, s, t, step);
  }

  lemma {:induction false} SumIsAFold<T(!new)>(f: T -> int, s: seq<T>, step: (int, T) -> int)
    requires forall n, x :: step(n, x) == n + f(x)
    ensures SumOf(f, s) == Fold(0, s, step)
    decreases |s|
  {
    if s != [] {
      SumIsAFold(f, s[..|s| - 1], step);
    }
  }

  // ----- the first pass -----

  predicate ShowsOwners(req: Request)
  {
    req.screen in {Overview, NamespaceList, OneNamespace, OneWorkload, OnePod, Topology}
  }

  predicate ShowsWorkloads(req: Request)
  {
    req.screen in {Overview, NamespaceList, OneNamespace, OneWorkload}
  }

  /** The workload that a workload screen asks for. */
  predicate IsAskedWorkload(req: Request, x: Item)
  {
    && req.screen == OneWorkload && x.body.WorkloadBody?
    && x.kind == req.kind && x.namespace == req.namespace && x.name == req.name
  }

  /** The pod that a pod screen asks for. */
  predicate IsAskedPod(req: Request, x: Item)
  {
    && req.screen == OnePod && x.body.PodBody?
    && x.namespace == req.namespace && x.name == req.name && (req.entityUID != "" ==> x.uid == req.entityUID)
  }

  /** m holds exactly the resources that satisfy p, each under its own UID. */
  ghost predicate ByUid(m: map<string, Item>, p: Item -> bool, items: seq<Item>)
  {
    && (forall x :: x in items && p(x) ==> x.uid in m)
    && (forall u :: u in m ==> m[u] in items && p(m[u]) && m[u].uid == u)
  }

  function ReplicaSets(req: Request): Item -> bool
  {
    (x: Item) => ShowsOwners(req) && x.kind == ReplicaSet
  }

  function Workloads(req: Request): Item -> bool
  {
    (x: Item) => ShowsWorkloads(req) && x.body.WorkloadBody?
  }

  predicate IsAsked(req: Request, x: Item)
  {
    IsAskedWorkload(req, x) || IsAskedPod(req, x)
  }

  /** The UID asked for, and that of its first owner when it is a pod. */
  ghost predicate IsTarget(req: Request, items: seq<Item>, target: string, owner: string)
  {
    && (forall x :: x in items && IsAsked(req, x) ==>
          && target == x.uid
          && owner == if IsAskedPod(req, x) && x.owners != [] then x.owners[0].uid else "")
    && ((forall x :: x in items ==> !IsAsked(req, x)) ==> target == req.entityUID && owner == "")
  }

  lemma OneAskedFor(req: Request, x: Item, y: Item)
    requires IsAskedWorkload(req, x) || IsAskedPod(req, x)
    requires IsAskedWorkload(req, y) || IsAskedPod(req, y)
    requires (x.body.PodBody? ==> x.kind.Pod?) && (y.body.PodBody? ==> y.kind.Pod?)
    ensures SameName(x, y)
  {
  }

  lemma OneMoreByUid(m: map<string, Item>, p: Item -> bool, before: seq<Item>, x: Item)
    requires ByUid(m, p, before)
    ensures ByUid(if p(x) then m[x.uid := x] else m, p, before + [x])
  {
    var m' := if p(x) then m[x.uid := x] else m;
    assert forall y :: y in before + [x] <==> y in before || y == x;
  }

  lemma OneMoreTarget(req: Request, before: seq<Item>, f: Found, x: Item)
    requires Unique(before + [x]) && PodsAreKindPod(before + [x]) && IsTarget(req, before, f.target, f.targetOwner)
    ensures IsTarget(req, before + [x], Find(req, f, x).target, Find(req, f, x).targetOwner)
  {
    assert forall y :: y in before + [x] <==> y in before || y == x;
    forall y | y in before + [x] && IsAsked(req, y) && IsAsked(req, x) ensures y == x {
      OneAskedFor(req, x, y);
    }
  }

  /** What the first pass leaves behind. */
  lemma {:induction false} FindAllFinds(req: Request, items: seq<Item>)
    requires Unique(items) && PodsAreKindPod(items)
    ensures var f := FindAll(req, items);
      && ByUid(f.rs, ReplicaSets(req), items) && ByUid(f.workloads, Workloads(req), items)
      && IsTarget(req, items, f.target, f.targetOwner)
    decreases |items|
  {
    if items != [] {
      var before, x := items[..|items| - 1], items[|items| - 1];
      assert items == before + [x];
      FindAllFinds(req, before);
      var f := FindAll(req, before);
      OneMoreByUid(f.rs, ReplicaSets(req), before, x);
      OneMoreByUid(f.workloads, Workloads(req), before, x);
      OneMoreTarget(req, before, f, x);
    }
  }

  // ----- what is asked for -----

  ghost function TargetUid(req: Request, items: seq<Item>): string
  {
    if exists x :: x in items && IsAsked(req, x) then (var x :| x in items && IsAsked(req, x); x.uid) else req.entityUID
  }

  /** The UID of the first owner of the pod asked for, if it has one. */
  ghost function TargetOwnerUid(req: Request, items: seq<Item>): string
  {
    if exists x :: x in items && IsAskedPod(req, x) && |x.owners| > 0
    then (var x :| x in items && IsAskedPod(req, x) && |x.owners| > 0; x.owners[0].uid)
    else ""
  }

  lemma TargetIs(req: Request, items: seq<Item>, f: Found)
    requires IsTarget(req, items, f.target, f.targetOwner)
    ensures f.target == TargetUid(req, items) && f.targetOwner == TargetOwnerUid(req, items)
  {
    if x :| x in items && IsAsked(req, x) {
      assert IsAskedPod(req, x) && |x.owners| > 0 ==> f.targetOwner == TargetOwnerUid(req, items);
    }
  }

  // ----- the workload above a pod -----

  /** A ReplicaSet with this UID and an owner of its own. */
  predicate IsOwnedSet(r: Item, uid: string)
  {
    r.kind == ReplicaSet && r.uid == uid && |r.owners| > 0
  }

  /** The first owner; or, when that is a ReplicaSet with an owner of its own, the ReplicaSet's first owner. */
  ghost function Above(items: seq<Item>, owners: seq<OwnerRef>): Option<OwnerRef>
  {
    if |owners| == 0 then None
    else if owners[0].kind == ReplicaSet && exists r :: r in items && IsOwnedSet(r, owners[0].uid)
    then (var r :| r in items && IsOwnedSet(r, owners[0].uid); Some(r.owners[0]))
    else Some(owners[0])
  }

  lemma AboveIs(req: Request, items: seq<Item>, rs: map<string, Item>, owners: seq<OwnerRef>)
    requires Unique(items) && ShowsOwners(req) && ByUid(rs, ReplicaSets(req), items)
    ensures WorkloadOf(owners, rs) == Above(items, owners)
  {
    if |owners| > 0 && owners[0].kind == ReplicaSet {
      var uid := owners[0].uid;
      if r :| r in items && IsOwnedSet(r, uid) {
        assert ReplicaSets(req)(r) && rs[uid] == r;
      }
      if uid in rs && |rs[uid].owners| > 0 {
        assert IsOwnedSet(rs[uid], uid);
      }
    }
  }

  /** The pod is one of the workload's: they agree in UID and kind with what stands above the pod. */
  ghost predicate BelongsTo(items: seq<Item>, p: Item, w: Item)
  {
    w.uid != "" && Above(items, p.owners).Some? && Above(items, p.owners).value.uid == w.uid && Above(items, p.owners).value.kind == w.kind
  }

  // ----- what counts -----

  predicate InScope(req: Request, namespace: string)
  {
    req.allNamespaces || namespace in req.namespaces
  }

  /** The pods of a screen: all in scope; for a workload those under it; for a pod those with its first owner, or
      itself alone. Logs show none. */
  ghost predicate PodShown(req: Request, items: seq<Item>, p: Item)
  {
    && p.body.PodBody? && InScope(req, p.namespace)
    && match req.screen
       case Overview => true
       case NamespaceList => true
       case OneNamespace => true
       case Topology => true
       case Logs => false
       case OneWorkload =>
         TargetUid(req, items) == if Above(items, p.owners).Some? then Above(items, p.owners).value.uid else ""
       case OnePod =>
         if TargetOwnerUid(req, items) == "" then p.uid == TargetUid(req, items)
         else |p.owners| > 0 && p.owners[0].uid == TargetOwnerUid(req, items)
  }

  /** The events of a screen: those in scope since the time asked for, about the workload or pod asked for. */
  ghost predicate EventShown(req: Request, items: seq<Item>, x: Item)
  {
    && x.body.EventBody? && InScope(req, x.namespace) && req.screen in {Overview, OneNamespace, OneWorkload, OnePod, Logs}
    && x.body.lastSeenMs >= req.fromMs && (TargetUid(req, items) != "" ==> x.body.involved == TargetUid(req, items))
  }

  predicate NodeShown(req: Request, x: Item)
  {
    x.body.NodeBody? && req.screen == Overview
  }

  predicate WorkloadShown(req: Request, x: Item)
  {
    x.body.WorkloadBody? && InScope(req, x.namespace) && ShowsWorkloads(req)
  }

  lemma ShownIff(req: Request, items: seq<Item>, x: Item)
    requires Unique(items) && PodsAreKindPod(items)
    ensures var f := FindAll(req, items);
      && (PodIncluded(req, f)(x) <==> PodShown(req, items, x))
      && (EventIncluded(req, f)(x) <==> EventShown(req, items, x))
      && (NodeIncluded(req)(x) <==> NodeShown(req, x))
  {
    var f := FindAll(req, items);
    FindAllFinds(req, items);
    TargetIs(req, items, f);
    if ShowsOwners(req) {
      AboveIs(req, items, f.rs, x.owners);
    }
  }

  lemma OwnedIff(req: Request, items: seq<Item>, p: Item, w: Item)
    requires Unique(items) && PodsAreKindPod(items) && ShowsOwners(req)
    ensures Owned(w, FindAll(req, items).rs)(p) <==> BelongsTo(items, p, w)
  {
    FindAllFinds(req, items);
    AboveIs(req, items, FindAll(req, items).rs, p.owners);
  }
}
