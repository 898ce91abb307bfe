/** The one workload or pod a screen asks for, told from the request and the resources alone: its row, the pods
    under it, and the owners above it. */
module ScreenAsked {
  import opened CatalogProtocol
  import opened Options
  import opened Ordering
  import opened ScreenModel
  import opened ScreenDetails
  import opened ScreenOrder
  import opened ScreenScope
  import opened ScreenFigures
  import opened ScreenMeaning
  import opened ScreenLists

  // ----- pods under a workload -----

  ghost predicate PodLineIs(items: seq<Item>, p: Item, line: PodLine)
  {
    && p.body.PodBody? && line.uid == p.uid && line.namespace == p.namespace && line.name == p.name
    && line.workload == Above(items, p.owners) && line.owner == (if |p.owners| > 0 then Some(p.owners[0]) else None)
    && line.phase == p.body.phase && line.severity == p.body.severity && line.restarts == p.body.restarts
    && line.issues == p.body.issues && line.cpuRequest == p.body.cpuRequest && line.memoryRequest == p.body.memoryRequest
  }

  ghost function ShowsLine(items: seq<Item>): (Item, PodLine) -> bool
  {
    (p: Item, line: PodLine) => PodLineIs(items, p, line)
  }

  lemma LineIs(req: Request, items: seq<Item>, p: Item)
    requires Unique(items) && PodsAreKindPod(items) && ShowsOwners(req) && p.body.PodBody?
    ensures PodLineIs(items, p, PodLineOf(FindAll(req, items).rs)(p))
  {
    FindAllFinds(req, items);
    AboveIs(req, items, FindAll(req, items).rs, p.owners);
  }

  /** The lines are one for each pod shown that belongs to w, the worst first. */
  ghost predicate PodLinesAre(req: Request, items: seq<Item>, w: Item, lines: seq<PodLine>)
  {
    && Lists(lines, items, PodsUnder(req, items, w), ShowsLine(items))
    && forall i, j :: 0 <= i < j < |lines| ==> PodLineAhead(lines[i], lines[j])
  }

  lemma PodsUnderKept(req: Request, items: seq<Item>, second: seq<Item>, w: Item)
    requires Unique(items) && PodsAreKindPod(items) && ShowsOwners(req) && multiset(second) == multiset(items)
    ensures var f := FindAll(req, items);
      multiset(Filter(Owned(w, f.rs), PodsOf(req, f, second))) == multiset(Filter(PodsUnder(req, items, w), items))
  {
    var f := FindAll(req, items);
    forall x ensures PodsUnder(req, items, w)(x) <==> Owned(w, f.rs)(x) && PodIncluded(req, f)(x) {
      ShownIff(req, items, x);
      OwnedIff(req, items, x, w);
    }
    FilterTwice(Owned(w, f.rs), PodIncluded(req, f), PodsUnder(req, items, w), second);
    FilterPermutes(PodsUnder(req, items, w), second, items);
  }

  lemma SortedPodLines(req: Request, items: seq<Item>, second: seq<Item>, w: Item)
    requires Unique(items) && PodsAreKindPod(items) && ShowsOwners(req) && multiset(second) == multiset(items)
    ensures var f := FindAll(req, items); PodLinesAre(req, items, w, PodLinesOf(w, f.rs, PodsOf(req, f, second)))
  {
    var f := FindAll(req, items);
    var kept := Filter(Owned(w, f.rs), PodsOf(req, f, second));
    PodsUnderKept(req, items, second, w);
    LineOrdersAreTotal();
    SortSorts(Map(PodLineOf(f.rs), kept), PodLineAtMost);
    forall p | p in items && PodsUnder(req, items, w)(p) ensures ShowsLine(items)(p, PodLineOf(f.rs)(p)) {
      LineIs(req, items, p);
    }
    SortedRows(PodLinesOf(w, f.rs, PodsOf(req, f, second)), kept, PodLineOf(f.rs), items, PodsUnder(req, items, w), ShowsLine(items));
    OrdersAreThese();
  }

  // ----- ReplicaSets of a Deployment -----

  /** The pods shown whose first owner has this UID. */
  ghost function PodsOwnedBy(req: Request, items: seq<Item>, uid: string): Item -> bool
  {
    (x: Item) => PodShown(req, items, x) && |x.owners| > 0 && x.owners[0].uid == uid
  }

  function SetsUnder(w: Item): Item -> bool
  {
    (x: Item) => x.kind == ReplicaSet && |x.owners| > 0 && x.owners[0].uid == w.uid
  }

  ghost predicate SetLineIs(req: Request, items: seq<Item>, r: Item, line: OwnerLine)
  {
    && |r.owners| > 0 && line.kind == ReplicaSet && line.name == r.name && line.uid == r.uid
    && line.revision == r.owners[0].revision && line.pods == Count(PodsOwnedBy(req, items, r.uid), items)
  }

  ghost function ShowsSet(req: Request, items: seq<Item>): (Item, OwnerLine) -> bool
  {
    (r: Item, line: OwnerLine) => SetLineIs(req, items, r, line)
  }

  /** The greater revision first, as a text, then by UID. */
  predicate SetAhead(a: OwnerLine, b: OwnerLine)
  {
    Less(b.revision, a.revision) || (a.revision == b.revision && AtMost(a.uid, b.uid))
  }

  /** A Deployment's lines are one for each ReplicaSet that it owns first, in their order, and just the first is marked
      current; no other workload has any. */
  ghost predicate SetLinesAre(req: Request, items: seq<Item>, w: Item, lines: seq<OwnerLine>)
  {
    if w.kind != Deployment then lines == []
    else
      && Lists(lines, items, SetsUnder(w), ShowsSet(req, items))
      && (forall i, j :: 0 <= i < j < |lines| ==> SetAhead(lines[i], lines[j]))
      && (forall i :: 0 <= i < |lines| ==> (lines[i].current <==> i == 0))
  }

  lemma OwnedCount(req: Request, items: seq<Item>, second: seq<Item>, uid: string)
    requires Unique(items) && PodsAreKindPod(items) && multiset(second) == multiset(items)
    ensures |Filter(FirstOwnerIs(uid), PodsOf(req, FindAll(req, items), second))| == Count(PodsOwnedBy(req, items, uid), items)
  {
    var f, both := FindAll(req, items), PodsOwnedBy(req, items, uid);
    forall x ensures both(x) <==> FirstOwnerIs(uid)(x) && PodIncluded(req, f)(x) {
      ShownIff(req, items, x);
    }
    FilterTwice(FirstOwnerIs(uid), PodIncluded(req, f), both, second);
    CountCounts(both, both, second);
    CountSame(both, both, second, items);
  }

  lemma SetsKept(req: Request, items: seq<Item>, w: Item, sets: seq<Item>)
    requires ShowsOwners(req) && multiset(sets) == multiset(Filter(ReplicaSets(req), items))
    ensures multiset(Filter(FirstOwnerIs(w.uid), sets)) == multiset(Filter(SetsUnder(w), items))
  {
    FilterPermutes(FirstOwnerIs(w.uid), sets, Filter(ReplicaSets(req), items));
    FilterTwice(FirstOwnerIs(w.uid), ReplicaSets(req), SetsUnder(w), items);
  }

  lemma UnmarkedListed(req: Request, items: seq<Item>, second: seq<Item>, w: Item, sets: seq<Item>)
    requires Unique(items) && PodsAreKindPod(items) && multiset(second) == multiset(items)
    requires ShowsOwners(req) && multiset(sets) == multiset(Filter(ReplicaSets(req), items))
    ensures Lists(UnmarkedLines(w, sets, PodsOf(req, FindAll(req, items), second)), items, SetsUnder(w), ShowsSet(req, items))
  {
    var pods := PodsOf(req, FindAll(req, items), second);
    var kept, lines := Filter(FirstOwnerIs(w.uid), sets), UnmarkedLines(w, sets, pods);
    SetsKept(req, items, w, sets);
    LineOrdersAreTotal();
    SortSorts(Map(SetLineOf(pods), kept), OwnerLineAtMost);
    forall r | r in items && SetsUnder(w)(r) ensures ShowsSet(req, items)(r, SetLineOf(pods)(r)) {
      OwnedCount(req, items, second, r.uid);
    }
    SortedRows(lines, kept, SetLineOf(pods), items, SetsUnder(w), ShowsSet(req, items));
  }

  lemma UnmarkedInOrder(w: Item, sets: seq<Item>, pods: seq<Item>)
    ensures var lines := UnmarkedLines(w, sets, pods);
      forall i, j :: 0 <= i < j < |lines| ==> SetAhead(lines[i], lines[j])
    ensures forall i :: 0 <= i < |UnmarkedLines(w, sets, pods)| ==> !UnmarkedLines(w, sets, pods)[i].current
  {
    var of := Map(SetLineOf(pods), Filter(FirstOwnerIs(w.uid), sets));
    LineOrdersAreTotal();
    SortSorts(of, OwnerLineAtMost);
    SameCollection(UnmarkedLines(w, sets, pods), of);
    forall i | 0 <= i < |UnmarkedLines(w, sets, pods)| ensures !UnmarkedLines(w, sets, pods)[i].current {
      assert UnmarkedLines(w, sets, pods)[i] in of;
    }
  }

  ghost predicate ShowSame<X(!new), R>(a: R, b: R, shows: (X, R) -> bool)
  {
    forall x :: shows(x, a) <==> shows(x, b)
  }

  lemma ShownBefore<X(!new), R(!new)>(rows: seq<R>, marked: seq<R>, shows: (X, R) -> bool, m: R) returns (r: R)
    requires |rows| == |marked| && (forall i :: 0 <= i < |rows| ==> ShowSame(rows[i], marked[i], shows)) && m in marked
    ensures r in rows && ShowSame(r, m, shows)
  {
    var i :| 0 <= i < |marked| && marked[i] == m;
    r := rows[i];
  }

  lemma ShownAfter<X(!new), R(!new)>(rows: seq<R>, marked: seq<R>, shows: (X, R) -> bool, r: R) returns (m: R)
    requires |rows| == |marked| && (forall i :: 0 <= i < |rows| ==> ShowSame(rows[i], marked[i], shows)) && r in rows
    ensures m in marked && ShowSame(r, m, shows)
  {
    var i :| 0 <= i < |rows| && rows[i] == r;
    m := marked[i];
  }

  lemma RowsAlike<X(!new), R(!new)>(rows: seq<R>, marked: seq<R>, xs: seq<X>, p: X -> bool, shows: (X, R) -> bool)
    requires |rows| == |marked| && forall i :: 0 <= i < |rows| ==> ShowSame(rows[i], marked[i], shows)
    requires forall r :: r in rows ==> exists x :: x in xs && p(x) && shows(x, r)
    ensures forall m :: m in marked ==> exists x :: x in xs && p(x) && shows(x, m)
  {
    forall m | m in marked ensures exists x :: x in xs && p(x) && shows(x, m) {
      var r := ShownBefore(rows, marked, shows, m);
      var x :| x in xs && p(x) && shows(x, r);
      assert shows(x, m);
    }
  }

  lemma AllAlike<X(!new), R(!new)>(rows: seq<R>, marked: seq<R>, xs: seq<X>, p: X -> bool, shows: (X, R) -> bool)
    requires |rows| == |marked| && forall i :: 0 <= i < |rows| ==> ShowSame(rows[i], marked[i], shows)
    requires forall x :: x in xs && p(x) ==> exists r :: r in rows && shows(x, r)
    ensures forall x :: x in xs && p(x) ==> exists m :: m in marked && shows(x, m)
  {
    forall x | x in xs && p(x) ensures exists m :: m in marked && shows(x, m) {
      var r :| r in rows && shows(x, r);
      var m := ShownAfter(rows, marked, shows, r);
      assert shows(x, m);
    }
  }

  lemma ShownAlike<X(!new), R(!new)>(rows: seq<R>, marked: seq<R>, xs: seq<X>, p: X -> bool, shows: (X, R) -> bool)
    requires Lists(rows, xs, p, shows) && |rows| == |marked|
    requires forall i :: 0 <= i < |rows| ==> ShowSame(rows[i], marked[i], shows)
    ensures Lists(marked, xs, p, shows)
  {
    RowsAlike(rows, marked, xs, p, shows);
    AllAlike(rows, marked, xs, p, shows);
  }

  lemma SetLinesOfAre(req: Request, items: seq<Item>, second: seq<Item>, w: Item, sets: seq<Item>)
    requires Unique(items) && PodsAreKindPod(items) && multiset(second) == multiset(items)
    requires ShowsOwners(req) && multiset(sets) == multiset(Filter(ReplicaSets(req), items))
    ensures SetLinesAre(req, items, w, SetLinesOf(w, sets, PodsOf(req, FindAll(req, items), second)))
  {
    if w.kind == Deployment {
      var lines := UnmarkedLines(w, sets, PodsOf(req, FindAll(req, items), second));
      UnmarkedListed(req, items, second, w, sets);
      UnmarkedInOrder(w, sets, PodsOf(req, FindAll(req, items), second));
      MarkedAre(req, items, w, lines);
    }
  }

  /** Marking the first changes nothing else. */
  lemma MarkedAre(req: Request, items: seq<Item>, w: Item, lines: seq<OwnerLine>)
    requires Lists(lines, items, SetsUnder(w), ShowsSet(req, items)) && w.kind == Deployment
    requires forall i, j :: 0 <= i < j < |lines| ==> SetAhead(lines[i], lines[j])
    requires forall i :: 0 <= i < |lines| ==> !lines[i].current
    ensures SetLinesAre(req, items, w, MarkFirst(lines))
  {
    var marked := MarkFirst(lines);
    forall i | 0 <= i < |lines| ensures ShowSame(lines[i], marked[i], ShowsSet(req, items)) {
      MarkedAt(lines, i);
    }
    ShownAlike(lines, marked, items, SetsUnder(w), ShowsSet(req, items));
    forall i | 0 <= i < |lines| ensures marked[i] == lines[i].(current := i == 0) {
      MarkedAt(lines, i);
    }
  }

  lemma MarkedAt(lines: seq<OwnerLine>, i: nat)
    requires i < |lines| && !lines[i].current
    ensures |MarkFirst(lines)| == |lines| && MarkFirst(lines)[i] == lines[i].(current := i == 0)
  {
  }

  // ----- what is asked for -----

  /** The workload is shown and is the one named. */
  predicate NamedWorkload(req: Request, w: Item)
  {
    WorkloadShown(req, w) && w.namespace == req.namespace && w.kind == req.kind && w.name == req.name
  }

  /** The pod is shown and is the one named. */
  ghost predicate NamedPod(req: Request, items: seq<Item>, p: Item)
  {
    PodShown(req, items, p) && p.namespace == req.namespace && p.name == req.name && (req.entityUID != "" ==> p.uid == req.entityUID)
  }

  ghost predicate WorkloadDetailIs(req: Request, items: seq<Item>, w: Item, d: WorkloadDetail)
  {
    WorkloadRow(req, items, w, d.summary) && PodLinesAre(req, items, w, d.pods) && SetLinesAre(req, items, w, d.owners)
  }

  lemma LastOfKept<T(!new)>(p: T -> bool, s: seq<T>)
    ensures var x := LastOf(Filter(p, s));
      (x.Some? ==> x.value in s && p(x.value)) && (x.None? ==> forall y :: y in s ==> !p(y))
  {
    FilterMembers(p, s);
    var kept := Filter(p, s);
    if kept != [] {
      assert kept[|kept| - 1] in kept;
    }
  }

  lemma DetailOf(req: Request, items: seq<Item>, second: seq<Item>, workloads: seq<Item>, sets: seq<Item>)
    requires Unique(items) && PodsAreKindPod(items) && multiset(second) == multiset(items)
    requires multiset(workloads) == multiset(Filter(Workloads(req), items)) && multiset(sets) == multiset(Filter(ReplicaSets(req), items))
    ensures var f := FindAll(req, items);
      var d := WorkloadDetailOf(req, f, PodsOf(req, f, second), workloads, sets);
      if d.Some? then exists w :: w in items && NamedWorkload(req, w) && WorkloadDetailIs(req, items, w, d.value)
      else forall w :: w in items ==> !NamedWorkload(req, w)
  {
    LastOfKept(TheWorkload(req), workloads);
    SameCollection(workloads, Filter(Workloads(req), items));
    FilterMembers(Workloads(req), items);
    var x := LastOf(Filter(TheWorkload(req), workloads));
    if x.Some? {
      assert x.value in items && NamedWorkload(req, x.value);
      WorkloadRowIs(req, items, second, x.value);
      SortedPodLines(req, items, second, x.value);
      SetLinesOfAre(req, items, second, x.value, sets);
    }
  }

  /** A line of an owner that is not one of a Deployment's ReplicaSets. */
  predicate OwnerLineIs(o: OwnerRef, pods: nat, revision: string, line: OwnerLine)
  {
    line == OwnerLine(o.kind, o.name, o.uid, true, pods, revision)
  }

  /** The first owner of the ReplicaSet with this UID. */
  ghost function SetOwner(items: seq<Item>, uid: string): Option<OwnerRef>
  {
    if exists r :: r in items && IsOwnedSet(r, uid) then (var r :| r in items && IsOwnedSet(r, uid); Some(r.owners[0])) else None
  }

  lemma SetOwnerIs(req: Request, items: seq<Item>, rs: map<string, Item>, uid: string)
    requires UidsDiffer(items) && ShowsOwners(req) && ByUid(rs, ReplicaSets(req), items)
    ensures SetOwner(items, uid) == if uid in rs && |rs[uid].owners| > 0 then Some(rs[uid].owners[0]) else None
  {
    if r :| r in items && IsOwnedSet(r, uid) {
      assert ReplicaSets(req)(r) && rs[uid] == r;
    }
    if uid in rs && |rs[uid].owners| > 0 {
      assert IsOwnedSet(rs[uid], uid);
    }
  }

  /** The owners above a pod: its first owner, with the number of pods shown that it owns first; and, when a ReplicaSet
      with an owner of its own has that UID, the ReplicaSet's first owner, from which the revision is then taken. */
  ghost predicate OwnersAre(req: Request, items: seq<Item>, p: Item, lines: seq<OwnerLine>)
  {
    if |p.owners| == 0 then lines == []
    else
      var o, top := p.owners[0], SetOwner(items, p.owners[0].uid);
      var n := Count(PodsOwnedBy(req, items, o.uid), items);
      if top.Some? then
        |lines| == 2 && OwnerLineIs(o, n, top.value.revision, lines[0]) && OwnerLineIs(top.value, 0, "", lines[1])
      else
        |lines| == 1 && OwnerLineIs(o, n, o.revision, lines[0])
  }

  lemma OwnersOfAre(req: Request, items: seq<Item>, second: seq<Item>, p: Item)
    requires Unique(items) && PodsAreKindPod(items) && ShowsOwners(req) && multiset(second) == multiset(items)
    ensures var f := FindAll(req, items); OwnersAre(req, items, p, OwnersOf(p, f.rs, PodsOf(req, f, second)))
  {
    if |p.owners| > 0 {
      OwnedCount(req, items, second, p.owners[0].uid);
      assert SetOwner(items, p.owners[0].uid) ==
          var rs := FindAll(req, items).rs;
          var uid := p.owners[0].uid;
          if uid in rs && |rs[uid].owners| > 0 then Some(rs[uid].owners[0]) else None by {
        FindAllFinds(req, items);
        SetOwnerIs(req, items, FindAll(req, items).rs, p.owners[0].uid);
      }
    }
  }

  ghost predicate PodDetailIs(req: Request, items: seq<Item>, p: Item, d: PodDetail)
  {
    d.pod == p && PodLineIs(items, p, d.summary) && OwnersAre(req, items, p, d.owners)
  }

  lemma PodDetailOfIs(req: Request, items: seq<Item>, second: seq<Item>)
    requires Unique(items) && PodsAreKindPod(items) && multiset(second) == multiset(items)
    ensures var f := FindAll(req, items);
      var pods := PodsOf(req, f, second);
      var d := PodDetailOf(req, f.rs, pods, pods);
      if d.Some? then exists p :: p in items && NamedPod(req, items, p) && PodDetailIs(req, items, p, d.value)
      else forall p :: p in items ==> !NamedPod(req, items, p)
  {
    var f := FindAll(req, items);
    var pods := PodsOf(req, f, second);
    LastOfKept(ThePod(req), pods);
    FilterMembers(PodIncluded(req, f), second);
    SameCollection(second, items);
    forall p ensures p in pods <==> p in items && PodShown(req, items, p) {
      ShownIff(req, items, p);
    }
    var p := LastOf(Filter(ThePod(req), pods));
    if p.Some? {
      assert p.value in items && NamedPod(req, items, p.value);
      LineIs(req, items, p.value);
      OwnersOfAre(req, items, second, p.value);
    }
  }

  /** The workload or pod asked for is detailed exactly when it is shown; and the screen is resolved to the pod's UID,
      or else the workload's. */
  lemma AskedForIs(req: Request, items: seq<Item>, o: Orders)
    requires Resources(items) && Possible(req, items, o)
    ensures var d := Project(req, o).workload;
      if d.Some? then exists w :: w in items && NamedWorkload(req, w) && WorkloadDetailIs(req, items, w, d.value)
      else forall w :: w in items ==> !NamedWorkload(req, w)
    ensures var d := Project(req, o).pod;
      if d.Some? then exists p :: p in items && NamedPod(req, items, p) && PodDetailIs(req, items, p, d.value)
      else forall p :: p in items ==> !NamedPod(req, items, p)
    ensures var w, p := Project(req, o).workload, Project(req, o).pod;
      Project(req, o).resolved == if p.Some? then p.value.pod.uid else if w.Some? then w.value.summary.uid else ""
  {
    MapsIterated(req, items, o);
    FoundForgetsOrder(req, items, o.first);
    DetailOf(req, items, o.second, o.workloads, o.sets);
    PodDetailOfIs(req, items, o.second);
  }

  lemma MapsIterated(req: Request, items: seq<Item>, o: Orders)
    requires Resources(items) && Possible(req, items, o)
    ensures multiset(o.workloads) == multiset(Filter(Workloads(req), items))
    ensures multiset(o.sets) == multiset(Filter(ReplicaSets(req), items))
  {
    var f := FindAll(req, items);
    assert ByUid(f.workloads, Workloads(req), items) && ByUid(f.rs, ReplicaSets(req), items) by {
      FindAllFinds(req, items);
    }
    MapIterated(f.workloads, Workloads(req), items, o.workloads);
    MapIterated(f.rs, ReplicaSets(req), items, o.sets);
  }
}
