/** The projection as the API server computes it, with loops over the maps and lists sorted in place. It is
    proved against ScreenOrder.Project, for every order of iteration. */
module ScreenProjection {
  import opened CatalogProtocol
  import opened Options
  import opened Ordering
  import opened ScreenModel
  import opened ScreenDetails
  import opened ScreenOrder

  // ----- the first pass -----

  method Scan(req: Request, order: seq<Item>) returns (f: Found)
    ensures f == FindAll(req, order)
  {
    var rs: map<string, Item>, workloads: map<string, Item> := map[], map[];
    var target, targetOwner := req.entityUID, "";
    for i := 0 to |order|
      invariant Found(rs, workloads, target, targetOwner) == FindAll(req, order[..i])
    {
      var x := order[i];
      assert order[..i + 1][..i] == order[..i];
      if NeedOwners(req) && x.kind.ReplicaSet? {
        rs := rs[x.uid := x];
      }
      if NeedWorkloads(req) && x.body.WorkloadBody? {
        workloads := workloads[x.uid := x];
        if req.screen.OneWorkload? && x.namespace == req.namespace && x.kind == req.kind && x.name == req.name {
          target := x.uid;
        }
      }
      if NeedPods(req) && req.screen.OnePod? && x.body.PodBody? && x.namespace == req.namespace && x.name == req.name
         && (req.entityUID == "" || x.uid == req.entityUID) {
        target := x.uid;
        if |x.owners| > 0 {
          targetOwner := x.owners[0].uid;
        }
      }
    }
    assert order[..|order|] == order;
    f := Found(rs, workloads, target, targetOwner);
  }

  // ----- rollups -----

  method Merge(dst: seq<Issue>, src: seq<Issue>) returns (merged: seq<Issue>)
    ensures merged == MergeIssues(dst, src)
  {
    merged := dst;
    for i := 0 to |src|
      invariant merged == MergeIssues(dst, src[..i])
    {
      assert src[..i + 1][..i] == src[..i];
      if src[i] !in merged {
        merged := merged + [src[i]];
      }
    }
    assert src[..|src|] == src;
  }

  function Lookup(byNS: map<string, Tally>, name: string): Tally
  {
    if name in byNS then byNS[name] else EmptyTally
  }

  /** Adds one part to the total of one namespace, which is made when it is first met. */
  method AddToNamespace(byNS: map<string, Tally>, name: string, part: Tally) returns (r: map<string, Tally>)
    ensures r == byNS[name := Add(Lookup(byNS, name), part)]
  {
    var t := Lookup(byNS, name);
    var issues := Merge(t.issues, part.issues);
    r := byNS[name := Tally(t.counts.Plus(part.counts), WorseOf(t.severity, part.severity), issues)];
  }

  /** The namespaces met so far. */
  ghost function Met(pods: seq<Item>, summaries: seq<Summary>): set<string>
  {
    (set x | x in pods :: x.namespace) + (set w | w in summaries :: w.namespace)
  }

  /** byNS holds the total of every namespace met so far, and of no other. */
  ghost predicate HoldsTotals(byNS: map<string, Tally>, pods: seq<Item>, summaries: seq<Summary>)
  {
    byNS.Keys == Met(pods, summaries) && forall n :: n in byNS ==> byNS[n] == NamespaceTotal(pods, summaries, n)
  }

  lemma PrefixSnoc<T>(s: seq<T>, i: nat)
    requires i < |s|
    ensures s[..i + 1] == s[..i] + [s[i]]
  {
  }

  lemma MapSnoc<T, U>(g: T -> U, s: seq<T>, x: T)
    ensures Map(g, s + [x]) == Map(g, s) + [g(x)]
  {
  }

  lemma FilterSnoc<T>(p: T -> bool, s: seq<T>, x: T)
    ensures Filter(p, s + [x]) == Filter(p, s) + if p(x) then [x] else []
  {
    assert (s + [x])[..|s|] == s;
  }

  lemma TotalSnoc(t: Tally, parts: seq<Tally>, part: Tally)
    ensures Total(t, parts + [part]) == Add(Total(t, parts), part)
  {
    assert (parts + [part])[..|parts|] == parts;
  }

  lemma PodJoinsNamespace(pods: seq<Item>, x: Item, n: string)
    ensures NamespaceTotal(pods + [x], [], n) ==
      if x.namespace == n then Add(NamespaceTotal(pods, [], n), PodPart(x)) else NamespaceTotal(pods, [], n)
  {
    FilterSnoc(PodIn(n), pods, x);
    var parts := Map(PodPart, Filter(PodIn(n), pods));
    assert Map(WorkloadPart, Filter(WorkloadIn(n), [])) == [];
    if x.namespace == n {
      MapSnoc(PodPart, Filter(PodIn(n), pods), x);
      TotalSnoc(EmptyTally, parts, PodPart(x));
      assert parts + [PodPart(x)] + [] == parts + [PodPart(x)] && parts + [] == parts;
    } else {
      assert Filter(PodIn(n), pods) + [] == Filter(PodIn(n), pods);
    }
  }

  lemma WorkloadJoinsNamespace(pods: seq<Item>, summaries: seq<Summary>, w: Summary, n: string)
    ensures NamespaceTotal(pods, summaries + [w], n) ==
      if w.namespace == n then Add(NamespaceTotal(pods, summaries, n), WorkloadPart(w)) else NamespaceTotal(pods, summaries, n)
  {
    var here := Filter(WorkloadIn(n), summaries);
    FilterSnoc(WorkloadIn(n), summaries, w);
    if w.namespace == n {
      MapSnoc(WorkloadPart, here, w);
      TotalOfBothSnoc(Map(PodPart, Filter(PodIn(n), pods)), Map(WorkloadPart, here), WorkloadPart(w));
    } else {
      assert here + [] == here;
    }
  }

  lemma TotalOfBothSnoc(a: seq<Tally>, b: seq<Tally>, part: Tally)
    ensures Total(EmptyTally, a + (b + [part])) == Add(Total(EmptyTally, a + b), part)
  {
    TotalSnoc(EmptyTally, a + b, part);
    assert a + (b + [part]) == a + b + [part];
  }

  /** A namespace not met yet has nothing in it. */
  lemma LookupIsTotal(byNS: map<string, Tally>, pods: seq<Item>, summaries: seq<Summary>, n: string)
    requires HoldsTotals(byNS, pods, summaries)
    ensures Lookup(byNS, n) == NamespaceTotal(pods, summaries, n)
  {
    if n !in byNS {
      NotMetIsEmpty(pods, summaries, n);
    }
  }

  lemma NotMetIsEmpty(pods: seq<Item>, summaries: seq<Summary>, n: string)
    requires n !in Met(pods, summaries)
    ensures NamespaceTotal(pods, summaries, n) == EmptyTally
  {
    FilterOfNone(PodIn(n), pods);
    FilterOfNone(WorkloadIn(n), summaries);
  }

  lemma MetSnoc(pods: seq<Item>, summaries: seq<Summary>, x: Item, w: Summary)
    ensures Met(pods + [x], summaries) == Met(pods, summaries) + {x.namespace}
    ensures Met(pods, summaries + [w]) == Met(pods, summaries) + {w.namespace}
  {
  }

  lemma TotalsWithPart(
      byNS: map<string, Tally>, pods: seq<Item>, summaries: seq<Summary>, pods': seq<Item>, summaries': seq<Summary>,
      name: string, part: Tally)
    requires HoldsTotals(byNS, pods, summaries) && Met(pods', summaries') == Met(pods, summaries) + {name}
    requires forall n :: NamespaceTotal(pods', summaries', n) ==
               if n == name then Add(NamespaceTotal(pods, summaries, n), part) else NamespaceTotal(pods, summaries, n)
    ensures HoldsTotals(byNS[name := Add(Lookup(byNS, name), part)], pods', summaries')
  {
    LookupIsTotal(byNS, pods, summaries, name);
    var byNS' := byNS[name := Add(Lookup(byNS, name), part)];
    assert byNS'.Keys == byNS.Keys + {name};
    forall n | n in byNS' ensures byNS'[n] == NamespaceTotal(pods', summaries', n) {
    }
  }

  lemma TotalsWithPod(byNS: map<string, Tally>, pods: seq<Item>, x: Item)
    requires HoldsTotals(byNS, pods, [])
    ensures HoldsTotals(byNS[x.namespace := Add(Lookup(byNS, x.namespace), PodPart(x))], pods + [x], [])
  {
    MetSnoc(pods, [], x, NoSummary);
    forall n { PodJoinsNamespace(pods, x, n); }
    TotalsWithPart(byNS, pods, [], pods + [x], [], x.namespace, PodPart(x));
  }

  lemma TotalsWithWorkload(byNS: map<string, Tally>, pods: seq<Item>, summaries: seq<Summary>, w: Summary)
    requires HoldsTotals(byNS, pods, summaries)
    ensures HoldsTotals(byNS[w.namespace := Add(Lookup(byNS, w.namespace), WorkloadPart(w))], pods, summaries + [w])
  {
    MetSnoc(pods, summaries, Item(Kind.Pod, "", "", "", [], NoBody), w);
    forall n { WorkloadJoinsNamespace(pods, summaries, w, n); }
    TotalsWithPart(byNS, pods, summaries, pods, summaries + [w], w.namespace, WorkloadPart(w));
  }

  // ----- the second pass -----

  /** The counters of the second pass agree with what has been passed. */
  ghost predicate Collected(
      req: Request, f: Found, done: seq<Item>, nodes: NodeHealth, pods: seq<Item>, counts: Counts, events: seq<Event>,
      byNS: map<string, Tally>)
  {
    && nodes == NodesOf(req, done) && pods == PodsOf(req, f, done)
    && counts == Total(EmptyTally, Map(PodPart, pods)).counts
    && events == Map(EventOf, Filter(EventIncluded(req, f), done))
    && HoldsTotals(byNS, if NeedNamespaces(req) then pods else [], [])
  }

  /** What one more resource does to the lists of the second pass. */
  lemma OneMore(req: Request, f: Found, done: seq<Item>, x: Item)
    ensures PodsOf(req, f, done + [x]) == if PodIncluded(req, f)(x) then PodsOf(req, f, done) + [x] else PodsOf(req, f, done)
    ensures Map(EventOf, Filter(EventIncluded(req, f), done + [x])) ==
            var events := Map(EventOf, Filter(EventIncluded(req, f), done));
            if EventIncluded(req, f)(x) then events + [EventOf(x)] else events
    ensures !NodeIncluded(req)(x) ==> NodesOf(req, done + [x]) == NodesOf(req, done)
  {
    FilterSnoc(PodIncluded(req, f), done, x);
    FilterSnoc(EventIncluded(req, f), done, x);
    FilterSnoc(NodeIncluded(req), done, x);
    MapSnoc(EventOf, Filter(EventIncluded(req, f), done), x);
    assert Filter(EventIncluded(req, f), done) + [] == Filter(EventIncluded(req, f), done);
    assert Filter(NodeIncluded(req), done) + [] == Filter(NodeIncluded(req), done);
    assert Filter(PodIncluded(req, f), done) + [] == Filter(PodIncluded(req, f), done);
  }

  function CountedNode(h: NodeHealth, x: Item): NodeHealth
    requires x.body.NodeBody?
  {
    NodeHealth(h.total + 1, h.ready + One(x.body.ready), h.notReady + One(!x.body.ready),
               h.pressure + One(x.body.pressure), h.unschedulable + One(x.body.unschedulable))
  }

  lemma OneMoreNode(req: Request, done: seq<Item>, x: Item)
    requires NodeIncluded(req)(x)
    ensures NodesOf(req, done + [x]) == CountedNode(NodesOf(req, done), x)
  {
    var nodes := Filter(NodeIncluded(req), done);
    FilterSnoc(NodeIncluded(req), done, x);
    FilterSnoc(ReadyNode, nodes, x);
    FilterSnoc(UnreadyNode, nodes, x);
    FilterSnoc(PressedNode, nodes, x);
    FilterSnoc(UnschedulableNode, nodes, x);
  }

  lemma OneMorePod(pods: seq<Item>, x: Item)
    ensures Total(EmptyTally, Map(PodPart, pods + [x])).counts ==
            Total(EmptyTally, Map(PodPart, pods)).counts.Plus(PodPart(x).counts)
  {
    MapSnoc(PodPart, pods, x);
    TotalSnoc(EmptyTally, Map(PodPart, pods), PodPart(x));
  }

  /** Counts one pod, and adds it to its namespace when namespaces are needed. */
  method CollectPod(req: Request, x: Item, pods: seq<Item>, counts: Counts, byNS: map<string, Tally>)
    returns (counts': Counts, byNS': map<string, Tally>)
    requires counts == Total(EmptyTally, Map(PodPart, pods)).counts
    requires HoldsTotals(byNS, if NeedNamespaces(req) then pods else [], [])
    ensures counts' == Total(EmptyTally, Map(PodPart, pods + [x])).counts
    ensures HoldsTotals(byNS', if NeedNamespaces(req) then pods + [x] else [], [])
  {
    OneMorePod(pods, x);
    counts', byNS' := counts.Plus(PodPart(x).counts), byNS;
    if NeedNamespaces(req) {
      TotalsWithPod(byNS, pods, x);
      byNS' := AddToNamespace(byNS, x.namespace, PodPart(x));
    }
  }

  /** Counts one node, pod or event. */
  method CollectOne(
      req: Request, f: Found, x: Item, nodes: NodeHealth, pods: seq<Item>, counts: Counts, events: seq<Event>,
      byNS: map<string, Tally>, ghost done: seq<Item>)
    returns (nodes': NodeHealth, pods': seq<Item>, counts': Counts, events': seq<Event>, byNS': map<string, Tally>)
    requires Collected(req, f, done, nodes, pods, counts, events, byNS)
    ensures Collected(req, f, done + [x], nodes', pods', counts', events', byNS')
  {
    nodes', pods', counts', events', byNS' := nodes, pods, counts, events, byNS;
    OneMore(req, f, done, x);
    if req.screen.Overview? && x.body.NodeBody? {
      OneMoreNode(req, done, x);
      nodes' := CountedNode(nodes, x);
    } else if NeedPods(req) && x.body.PodBody? && Allows(req, x.namespace) && ScreenWants(req, f, x) {
      counts', byNS' := CollectPod(req, x, pods, counts, byNS);
      pods' := pods + [x];
    } else if NeedEvents(req) && x.body.EventBody? && Allows(req, x.namespace)
              && x.body.lastSeenMs >= req.fromMs && (f.target == "" || x.body.involved == f.target) {
      events' := events + [EventOf(x)];
    }
  }

  method Collect(req: Request, f: Found, order: seq<Item>)
    returns (nodes: NodeHealth, pods: seq<Item>, counts: Counts, events: seq<Event>, byNS: map<string, Tally>)
    ensures Collected(req, f, order, nodes, pods, counts, events, byNS)
  {
    nodes, pods, counts, events, byNS := NodeHealth(0, 0, 0, 0, 0), [], NoCounts, [], map[];
    for i := 0 to |order|
      invariant Collected(req, f, order[..i], nodes, pods, counts, events, byNS)
    {
      nodes, pods, counts, events, byNS := CollectOne(req, f, order[i], nodes, pods, counts, events, byNS, order[..i]);
      assert order[..i + 1] == order[..i] + [order[i]];
    }
    assert order[..|order|] == order;
  }

  // ----- workloads -----

  /** The pods whose workload has this UID, whatever its kind. */
  function BelongsTo(uid: string, rs: map<string, Item>): Item -> bool
  {
    (p: Item) => UidOf(WorkloadOf(p.owners, rs)) == uid
  }

  /** groups holds, for every UID, the pods that belong to it, in order. */
  ghost predicate Grouped(groups: map<string, seq<Item>>, pods: seq<Item>, rs: map<string, Item>)
  {
    && "" !in groups
    && forall uid :: uid != "" ==> GroupOf(groups, uid) == Filter(BelongsTo(uid, rs), pods)
  }

  function GroupOf(groups: map<string, seq<Item>>, uid: string): seq<Item>
  {
    if uid in groups then groups[uid] else []
  }

  method GroupByWorkload(pods: seq<Item>, rs: map<string, Item>) returns (groups: map<string, seq<Item>>)
    ensures Grouped(groups, pods, rs)
  {
    groups := map[];
    for i := 0 to |pods|
      invariant Grouped(groups, pods[..i], rs)
    {
      var uid := UidOf(WorkloadOf(pods[i].owners, rs));
      assert pods[..i + 1] == pods[..i] + [pods[i]];
      forall u | u != ""
        ensures Filter(BelongsTo(u, rs), pods[..i + 1]) ==
                Filter(BelongsTo(u, rs), pods[..i]) + if u == uid then [pods[i]] else []
      {
        FilterSnoc(BelongsTo(u, rs), pods[..i], pods[i]);
      }
      if uid != "" {
        groups := groups[uid := GroupOf(groups, uid) + [pods[i]]];
      }
    }
    assert pods[..|pods|] == pods;
  }

  /** A workload's own pods are among those that belong to its UID. */
  lemma {:induction false} OwnedBelong(x: Item, rs: map<string, Item>, pods: seq<Item>)
    ensures Filter(Owned(x, rs), Filter(BelongsTo(x.uid, rs), pods)) == Filter(Owned(x, rs), pods)
    decreases |pods|
  {
    if pods != [] {
      var before, last := pods[..|pods| - 1], pods[|pods| - 1];
      OwnedBelong(x, rs, before);
      FilterSnoc(Owned(x, rs), Filter(BelongsTo(x.uid, rs), before), last);
      assert Filter(BelongsTo(x.uid, rs), before) + [] == Filter(BelongsTo(x.uid, rs), before);
    }
  }

  lemma GroupHasTheOwned(
      x: Item, rs: map<string, Item>, pods: seq<Item>, groups: map<string, seq<Item>>)
    requires Grouped(groups, pods, rs)
    ensures Filter(Owned(x, rs), GroupOf(groups, x.uid)) == Filter(Owned(x, rs), pods)
  {
    if x.uid == "" {
      FilterOfNone(Owned(x, rs), pods);
    } else {
      OwnedBelong(x, rs, pods);
    }
  }

  lemma IssuesAreOrdered(issues: seq<Issue>)
    ensures TotalOrder(IssueAtMost) && Distinguishes(IssueAtMost, issues)
  {
  }

  method SettleTally(t: Tally) returns (r: Tally)
    ensures r == Settled(t)
  {
    IssuesAreOrdered(t.issues);
    var issues := SortList(t.issues, IssueAtMost);
    r := t.(issues := issues);
  }

  /** What the workload shows by itself. */
  method ProjectOwn(x: Item) returns (t: Tally)
    requires x.body.WorkloadBody?
    ensures t == OwnTally(x)
  {
    t := EmptyTally;
    if x.body.stalled {
      t := t.(issues := [RolloutStalled], severity := Critical);
    }
    if x.body.desired > 0 && x.body.readyReplicas < x.body.desired {
      t := t.(issues := t.issues + [ReplicaMismatch],
              severity := WorseOf(t.severity, if x.body.readyReplicas == 0 then Critical else Degraded));
    }
  }

  ghost function TotalOwned(x: Item, rs: map<string, Item>, t: Tally, pods: seq<Item>): Tally
  {
    Total(t, Map(PodPart, Filter(Owned(x, rs), pods)))
  }

  lemma OneMoreOwned(x: Item, rs: map<string, Item>, t: Tally, pods: seq<Item>, p: Item)
    ensures TotalOwned(x, rs, t, pods + [p]) ==
      if Owned(x, rs)(p) then Add(TotalOwned(x, rs, t, pods), PodPart(p)) else TotalOwned(x, rs, t, pods)
  {
    FilterSnoc(Owned(x, rs), pods, p);
    if Owned(x, rs)(p) {
      MapSnoc(PodPart, Filter(Owned(x, rs), pods), p);
      TotalSnoc(t, Map(PodPart, Filter(Owned(x, rs), pods)), PodPart(p));
    } else {
      assert Filter(Owned(x, rs), pods) + [] == Filter(Owned(x, rs), pods);
    }
  }

  /** What one workload shows: its own state, and then its pods'. */
  method ProjectWorkload(x: Item, group: seq<Item>, rs: map<string, Item>) returns (w: Summary)
    requires x.body.WorkloadBody?
    ensures w == SummaryOf(x, Settled(Total(OwnTally(x), Map(PodPart, Filter(Owned(x, rs), group)))))
  {
    var t := ProjectOwn(x);
    for i := 0 to |group|
      invariant t == TotalOwned(x, rs, OwnTally(x), group[..i])
    {
      OneMoreOwned(x, rs, OwnTally(x), group[..i], group[i]);
      assert group[..i + 1] == group[..i] + [group[i]];
      var o := WorkloadOf(group[i].owners, rs);
      if o.Some? && o.value.uid != "" && o.value.uid == x.uid && o.value.kind == x.kind {
        var part := PodPart(group[i]);
        var issues := Merge(t.issues, part.issues);
        t := Tally(t.counts.Plus(part.counts), WorseOf(t.severity, part.severity), issues);
      }
    }
    assert group[..|group|] == group;
    t := SettleTally(t);
    w := SummaryOf(x, t);
  }

  ghost predicate Summarised(
      req: Request, f: Found, pods: seq<Item>, done: seq<Item>, sets: seq<Item>, summaries: seq<Summary>,
      health: WorkloadHealth, byNS: map<string, Tally>, detail: Option<WorkloadDetail>)
  {
    && summaries == SummariesOf(req, f, pods, done) && health == HealthOf(summaries)
    && HoldsTotals(byNS, if NeedNamespaces(req) then pods else [], if NeedNamespaces(req) then summaries else [])
    && detail == WorkloadDetailOf(req, f, pods, done, sets)
  }

  lemma NoneSummarised(req: Request, f: Found, pods: seq<Item>, sets: seq<Item>, collected: map<string, Tally>)
    requires HoldsTotals(collected, if NeedNamespaces(req) then pods else [], [])
    ensures Summarised(req, f, pods, [], sets, [], WorkloadHealth(0, 0, 0, 0), collected, None)
  {
  }

  lemma OneMoreWorkload(req: Request, f: Found, pods: seq<Item>, done: seq<Item>, x: Item)
    ensures SummariesOf(req, f, pods, done + [x]) ==
      var s := SummariesOf(req, f, pods, done); if Allows(req, x.namespace) then s + [Summarise(f.rs, pods)(x)] else s
  {
    FilterSnoc(Allowed(req), done, x);
    MapSnoc(Summarise(f.rs, pods), Filter(Allowed(req), done), x);
    assert Filter(Allowed(req), done) + [] == Filter(Allowed(req), done);
  }

  lemma OneMoreSummary(s: seq<Summary>, w: Summary)
    ensures var h := HealthOf(s);
      HealthOf(s + [w]) == WorkloadHealth(h.total + 1, h.available + One(AvailableWorkload(w)),
        h.mismatched + One(MismatchedWorkload(w)), h.stalled + One(StalledWorkload(w)))
  {
    FilterSnoc(AvailableWorkload, s, w);
    FilterSnoc(MismatchedWorkload, s, w);
    FilterSnoc(StalledWorkload, s, w);
  }

  method AddSummary(
      req: Request, ghost pods: seq<Item>, summaries: seq<Summary>, health: WorkloadHealth, byNS: map<string, Tally>, w: Summary)
    returns (summaries': seq<Summary>, health': WorkloadHealth, byNS': map<string, Tally>)
    requires health == HealthOf(summaries)
    requires HoldsTotals(byNS, if NeedNamespaces(req) then pods else [], if NeedNamespaces(req) then summaries else [])
    ensures summaries' == summaries + [w] && health' == HealthOf(summaries')
    ensures HoldsTotals(byNS', if NeedNamespaces(req) then pods else [], if NeedNamespaces(req) then summaries' else [])
  {
    OneMoreSummary(summaries, w);
    summaries', byNS' := summaries + [w], byNS;
    health' := WorkloadHealth(
      health.total + 1, health.available + One(w.severity == Healthy), health.mismatched + One(ReplicaMismatch in w.issues),
      health.stalled + One(RolloutStalled in w.issues));
    if NeedNamespaces(req) {
      TotalsWithWorkload(byNS, pods, summaries, w);
      byNS' := AddToNamespace(byNS, w.namespace, WorkloadPart(w));
    }
  }

  // ----- the workload asked for -----

  /** The pods of a workload among the pods of its group, sorted. */
  method ListPods(x: Item, group: seq<Item>, rs: map<string, Item>) returns (lines: seq<PodLine>)
    requires Distinguishes(PodLineAtMost, Map(PodLineOf(rs), Filter(Owned(x, rs), group)))
    ensures lines == PodLinesOf(x, rs, group)
  {
    lines := [];
    for i := 0 to |group|
      invariant lines == Map(PodLineOf(rs), Filter(Owned(x, rs), group[..i]))
    {
      assert group[..i + 1] == group[..i] + [group[i]];
      FilterSnoc(Owned(x, rs), group[..i], group[i]);
      var o := WorkloadOf(group[i].owners, rs);
      if o.Some? && o.value.uid != "" && o.value.uid == x.uid && o.value.kind == x.kind {
        MapSnoc(PodLineOf(rs), Filter(Owned(x, rs), group[..i]), group[i]);
        lines := lines + [PodLineOf(rs)(group[i])];
      } else {
        assert Filter(Owned(x, rs), group[..i]) + [] == Filter(Owned(x, rs), group[..i]);
      }
    }
    assert group[..|group|] == group;
    LineOrdersAreTotal();
    lines := SortList(lines, PodLineAtMost);
  }

  method CountOwned(uid: string, pods: seq<Item>) returns (count: nat)
    ensures count == |Filter(FirstOwnerIs(uid), pods)|
  {
    count := 0;
    for i := 0 to |pods|
      invariant count == |Filter(FirstOwnerIs(uid), pods[..i])|
    {
      assert pods[..i + 1] == pods[..i] + [pods[i]];
      FilterSnoc(FirstOwnerIs(uid), pods[..i], pods[i]);
      if |pods[i].owners| > 0 && pods[i].owners[0].uid == uid {
        count := count + 1;
      }
    }
    assert pods[..|pods|] == pods;
  }

  /** The ReplicaSets of a Deployment, the greatest revision first and marked current. */
  method ListSets(x: Item, order: seq<Item>, pods: seq<Item>) returns (lines: seq<OwnerLine>)
    requires UidsDiffer(order)
    ensures lines == SetLinesOf(x, order, pods)
  {
    lines := [];
    if !x.kind.Deployment? {
      return;
    }
    for i := 0 to |order|
      invariant lines == Map(SetLineOf(pods), Filter(FirstOwnerIs(x.uid), order[..i]))
    {
      assert order[..i + 1] == order[..i] + [order[i]];
      FilterSnoc(FirstOwnerIs(x.uid), order[..i], order[i]);
      if |order[i].owners| == 0 || order[i].owners[0].uid != x.uid {
        assert Filter(FirstOwnerIs(x.uid), order[..i]) + [] == Filter(FirstOwnerIs(x.uid), order[..i]);
        continue;
      }
      var count := CountOwned(order[i].uid, pods);
      MapSnoc(SetLineOf(pods), Filter(FirstOwnerIs(x.uid), order[..i]), order[i]);
      lines := lines + [OwnerLine(ReplicaSet, order[i].name, order[i].uid, false, count, order[i].owners[0].revision)];
    }
    assert order[..|order|] == order;
    LineOrdersAreTotal();
    SetLinesTellApart(FirstOwnerIs(x.uid), order, pods);
    lines := SortList(lines, OwnerLineAtMost);
    if |lines| > 0 {
      lines := [lines[0].(current := true)] + lines[1..];
    }
  }

  /** What one more workload does to the one asked for. */
  lemma OneMoreDetail(req: Request, f: Found, pods: seq<Item>, done: seq<Item>, x: Item, sets: seq<Item>)
    ensures WorkloadDetailOf(req, f, pods, done + [x], sets) ==
      if TheWorkload(req)(x)
      then Some(WorkloadDetail(Summarise(f.rs, pods)(x), PodLinesOf(x, f.rs, pods), SetLinesOf(x, sets, pods)))
      else WorkloadDetailOf(req, f, pods, done, sets)
  {
    FilterSnoc(TheWorkload(req), done, x);
    assert Filter(TheWorkload(req), done) + [] == Filter(TheWorkload(req), done);
  }

  /** The detail of workload x, when it is the one asked for. */
  method DetailOne(
      req: Request, f: Found, pods: seq<Item>, ghost items: seq<Item>, x: Item, groups: map<string, seq<Item>>,
      sets: seq<Item>, w: Summary, detail: Option<WorkloadDetail>)
    returns (detail': Option<WorkloadDetail>)
    requires Unique(items) && ArePods(pods, items) && UidsDiffer(sets)
    requires Grouped(groups, pods, f.rs) && Allows(req, x.namespace)
    ensures detail' ==
      if TheWorkload(req)(x) then Some(WorkloadDetail(w, PodLinesOf(x, f.rs, pods), SetLinesOf(x, sets, pods))) else detail
  {
    detail' := detail;
    if x.namespace == req.namespace && x.kind == req.kind && x.name == req.name {
      GroupHasTheOwned(x, f.rs, pods, groups);
      PodLinesTellApart(Owned(x, f.rs), f.rs, pods, items);
      var lines := ListPods(x, GroupOf(groups, x.uid), f.rs);
      var owners := ListSets(x, sets, pods);
      detail' := Some(WorkloadDetail(w, lines, owners));
    }
  }

  method ShowWorkload(f: Found, ghost pods: seq<Item>, x: Item, groups: map<string, seq<Item>>) returns (w: Summary)
    requires x.body.WorkloadBody? && Grouped(groups, pods, f.rs)
    ensures w == Summarise(f.rs, pods)(x)
  {
    w := ProjectWorkload(x, GroupOf(groups, x.uid), f.rs);
    GroupHasTheOwned(x, f.rs, pods, groups);
  }

  /** Passing a workload that is shown adds its summary, and its detail when it is the one asked for. */
  lemma ShownIsSummarised(
      req: Request, f: Found, pods: seq<Item>, done: seq<Item>, x: Item, sets: seq<Item>, summaries: seq<Summary>,
      health': WorkloadHealth, byNS': map<string, Tally>, detail: Option<WorkloadDetail>)
    requires Allows(req, x.namespace) && summaries == SummariesOf(req, f, pods, done)
    requires detail == WorkloadDetailOf(req, f, pods, done, sets)
    requires var after := summaries + [Summarise(f.rs, pods)(x)];
      && health' == HealthOf(after)
      && HoldsTotals(byNS', if NeedNamespaces(req) then pods else [], if NeedNamespaces(req) then after else [])
    ensures Summarised(req, f, pods, done + [x], sets, summaries + [Summarise(f.rs, pods)(x)], health', byNS',
      if TheWorkload(req)(x)
      then Some(WorkloadDetail(Summarise(f.rs, pods)(x), PodLinesOf(x, f.rs, pods), SetLinesOf(x, sets, pods))) else detail)
  {
    OneMoreWorkload(req, f, pods, done, x);
    OneMoreDetail(req, f, pods, done, x, sets);
  }

  /** Passing one that is not shown changes nothing. */
  lemma HiddenIsSummarised(
      req: Request, f: Found, pods: seq<Item>, done: seq<Item>, x: Item, sets: seq<Item>, summaries: seq<Summary>,
      health: WorkloadHealth, byNS: map<string, Tally>, detail: Option<WorkloadDetail>)
    requires !Allows(req, x.namespace) && Summarised(req, f, pods, done, sets, summaries, health, byNS, detail)
    ensures Summarised(req, f, pods, done + [x], sets, summaries, health, byNS, detail)
  {
    OneMoreWorkload(req, f, pods, done, x);
    OneMoreDetail(req, f, pods, done, x, sets);
  }

  /** One workload of the pass. */
  method SummariseOne(
      req: Request, f: Found, pods: seq<Item>, ghost items: seq<Item>, order: seq<Item>, i: nat,
      groups: map<string, seq<Item>>, sets: seq<Item>, summaries: seq<Summary>, health: WorkloadHealth,
      byNS: map<string, Tally>, detail: Option<WorkloadDetail>)
    returns (summaries': seq<Summary>, health': WorkloadHealth, byNS': map<string, Tally>, detail': Option<WorkloadDetail>)
    requires i < |order| && order[i].body.WorkloadBody? && Grouped(groups, pods, f.rs)
    requires Unique(items) && ArePods(pods, items) && UidsDiffer(sets)
    requires Summarised(req, f, pods, order[..i], sets, summaries, health, byNS, detail)
    ensures Summarised(req, f, pods, order[..i + 1], sets, summaries', health', byNS', detail')
  {
    PrefixSnoc(order, i);
    if !Allows(req, order[i].namespace) {
      HiddenIsSummarised(req, f, pods, order[..i], order[i], sets, summaries, health, byNS, detail);
      return summaries, health, byNS, detail;
    }
    var w := ShowWorkload(f, pods, order[i], groups);
    summaries', health', byNS' := AddSummary(req, pods, summaries, health, byNS, w);
    detail' := DetailOne(req, f, pods, items, order[i], groups, sets, w, detail);
    ShownIsSummarised(req, f, pods, order[..i], order[i], sets, summaries, health', byNS', detail);
  }

  /** The pass over the workloads. */
  method SummariseAll(
      req: Request, f: Found, pods: seq<Item>, ghost items: seq<Item>, order: seq<Item>, sets: seq<Item>,
      collected: map<string, Tally>)
    returns (summaries: seq<Summary>, health: WorkloadHealth, byNS: map<string, Tally>, detail: Option<WorkloadDetail>)
    requires HoldsTotals(collected, if NeedNamespaces(req) then pods else [], [])
    requires forall x :: x in order ==> x.body.WorkloadBody?
    requires Unique(items) && ArePods(pods, items) && UidsDiffer(sets)
    ensures Summarised(req, f, pods, order, sets, summaries, health, byNS, detail)
  {
    var groups := GroupByWorkload(pods, f.rs);
    summaries, health, byNS, detail := [], WorkloadHealth(0, 0, 0, 0), collected, None;
    NoneSummarised(req, f, pods, sets, collected);
    assert order[..0] == [];
    for i := 0 to |order|
      invariant Summarised(req, f, pods, order[..i], sets, summaries, health, byNS, detail)
    {
      summaries, health, byNS, detail :=
        SummariseOne(req, f, pods, items, order, i, groups, sets, summaries, health, byNS, detail);
    }
    assert order[..|order|] == order;
  }

  // ----- the lists -----

  /** The chain of owners of a pod. */
  method ListOwners(p: Item, rs: map<string, Item>, pods: seq<Item>) returns (lines: seq<OwnerLine>)
    ensures lines == OwnersOf(p, rs, pods)
  {
    lines := [];
    if |p.owners| == 0 {
      return;
    }
    var o := p.owners[0];
    var count := CountOwned(o.uid, pods);
    lines := [OwnerLine(o.kind, o.name, o.uid, true, count, o.revision)];
    if o.uid in rs && |rs[o.uid].owners| > 0 {
      var top := rs[o.uid].owners[0];
      lines := [lines[0].(revision := top.revision), OwnerLine(top.kind, top.name, top.uid, true, 0, "")];
    }
  }

  lemma OneMorePodDetail(req: Request, rs: map<string, Item>, seen: seq<Item>, p: Item, pods: seq<Item>)
    ensures PodDetailOf(req, rs, seen + [p], pods) ==
      if ThePod(req)(p) then Some(PodDetail(p, PodLineOf(rs)(p), OwnersOf(p, rs, pods))) else PodDetailOf(req, rs, seen, pods)
  {
    FilterSnoc(ThePod(req), seen, p);
    assert Filter(ThePod(req), seen) + [] == Filter(ThePod(req), seen);
  }

  /** The unhealthy pods, and the pod asked for. */
  method ListBadPods(req: Request, rs: map<string, Item>, pods: seq<Item>)
    returns (entries: seq<Entry>, badPods: nat, detail: Option<PodDetail>)
    ensures entries == Map(PodEntry(rs), Filter(BadPod, pods)) && badPods == |Filter(BadPod, pods)|
    ensures detail == PodDetailOf(req, rs, pods, pods)
  {
    entries, badPods, detail := [], 0, None;
    for i := 0 to |pods|
      invariant entries == Map(PodEntry(rs), Filter(BadPod, pods[..i])) && badPods == |Filter(BadPod, pods[..i])|
      invariant detail == PodDetailOf(req, rs, pods[..i], pods)
    {
      assert pods[..i + 1] == pods[..i] + [pods[i]];
      FilterSnoc(BadPod, pods[..i], pods[i]);
      OneMorePodDetail(req, rs, pods[..i], pods[i], pods);
      if BadPod(pods[i]) {
        MapSnoc(PodEntry(rs), Filter(BadPod, pods[..i]), pods[i]);
        entries, badPods := entries + [PodEntry(rs)(pods[i])], badPods + 1;
      } else {
        assert Filter(BadPod, pods[..i]) + [] == Filter(BadPod, pods[..i]);
      }
      if pods[i].namespace == req.namespace && pods[i].name == req.name && (req.entityUID == "" || pods[i].uid == req.entityUID) {
        var owners := ListOwners(pods[i], rs, pods);
        detail := Some(PodDetail(pods[i], PodLineOf(rs)(pods[i]), owners));
      }
    }
    assert pods[..|pods|] == pods;
  }

  method ListBadWorkloads(summaries: seq<Summary>) returns (entries: seq<Entry>)
    ensures entries == Map(WorkloadEntry, Filter(BadWorkload, summaries))
  {
    entries := [];
    for i := 0 to |summaries|
      invariant entries == Map(WorkloadEntry, Filter(BadWorkload, summaries[..i]))
    {
      assert summaries[..i + 1] == summaries[..i] + [summaries[i]];
      FilterSnoc(BadWorkload, summaries[..i], summaries[i]);
      if BadWorkload(summaries[i]) {
        MapSnoc(WorkloadEntry, Filter(BadWorkload, summaries[..i]), summaries[i]);
        entries := entries + [WorkloadEntry(summaries[i])];
      } else {
        assert Filter(BadWorkload, summaries[..i]) + [] == Filter(BadWorkload, summaries[..i]);
      }
    }
    assert summaries[..|summaries|] == summaries;
  }

  /** The unhealthy list before sorting, how many pods are unhealthy, and the pod asked for. */
  method ListUnhealthy(req: Request, rs: map<string, Item>, pods: seq<Item>, summaries: seq<Summary>)
    returns (entries: seq<Entry>, badPods: nat, detail: Option<PodDetail>)
    ensures entries == EntriesOf(rs, pods, summaries) && badPods == |Filter(BadPod, pods)|
    ensures detail == PodDetailOf(req, rs, pods, pods)
  {
    entries, badPods, detail := ListBadPods(req, rs, pods);
    var others := ListBadWorkloads(summaries);
    entries := entries + others;
  }

  method ListNamespaces(
      byNS: map<string, Tally>, order: seq<string>, ghost pods: seq<Item>, ghost summaries: seq<Summary>)
    returns (rows: seq<NamespaceRow>)
    requires forall n :: n in order ==> n in byNS && byNS[n] == NamespaceTotal(pods, summaries, n)
    ensures rows == Map(NamespaceOf(pods, summaries), order)
  {
    rows := [];
    for i := 0 to |order|
      invariant rows == Map(NamespaceOf(pods, summaries), order[..i])
    {
      assert order[..i + 1] == order[..i] + [order[i]] && order[i] in order;
      MapSnoc(NamespaceOf(pods, summaries), order[..i], order[i]);
      var settled := SettleTally(byNS[order[i]]);
      rows := rows + [NamespaceRow(order[i], settled)];
    }
    assert order[..|order|] == order;
  }

  /** The row of one namespace. */
  method FindRow(name: string, rows: seq<NamespaceRow>) returns (row: Option<NamespaceRow>)
    ensures row == RowNamed(name, rows)
  {
    row := None;
    for i := 0 to |rows|
      invariant row == RowNamed(name, rows[..i])
    {
      assert rows[..i + 1] == rows[..i] + [rows[i]];
      FilterSnoc(NamedRow(name), rows[..i], rows[i]);
      if rows[i].name == name {
        row := Some(rows[i]);
      } else {
        assert Filter(NamedRow(name), rows[..i]) + [] == Filter(NamedRow(name), rows[..i]);
      }
    }
    assert rows[..|rows|] == rows;
  }

  /** Those entries of the unhealthy list that are pods. */
  method OnlyPods(entries: seq<Entry>) returns (listed: seq<Entry>)
    ensures listed == Filter(OfPod, entries)
  {
    listed := [];
    for i := 0 to |entries|
      invariant listed == Filter(OfPod, entries[..i])
    {
      assert entries[..i + 1] == entries[..i] + [entries[i]];
      FilterSnoc(OfPod, entries[..i], entries[i]);
      if entries[i].ofPod {
        listed := listed + [entries[i]];
      } else {
        assert Filter(OfPod, entries[..i]) + [] == Filter(OfPod, entries[..i]);
      }
    }
    assert entries[..|entries|] == entries;
  }

  /** Sorting is well defined: no two rows of a list have the same key. */
  lemma RowsTellApart(req: Request, o: Orders)
    requires Unique(o.first) && PodsAreKindPod(o.first) && Possible(req, o.first, o)
    ensures var f := FindAll(req, o.first);
      var pods := PodsOf(req, f, o.second);
      var summaries := SummariesOf(req, f, pods, o.workloads);
      && FromItems(o.workloads, o.first) && ArePods(pods, o.first) && UidsDiffer(o.sets)
      && Distinguishes(EntryAtMost, EntriesOf(f.rs, pods, summaries))
      && Distinguishes(EventAtMost, Map(EventOf, Filter(EventIncluded(req, f), o.second)))
      && Distinguishes(NamespaceAtMost, Map(NamespaceOf(pods, summaries), o.namespaces))
      && Distinguishes(SummaryAtMost, summaries)
  {
    var f := FindAll(req, o.first);
    var pods := PodsOf(req, f, o.second);
    var summaries := SummariesOf(req, f, pods, o.workloads);
    WorkloadOrdersPermute(req, o.first, o, o);
    SetOrdersPermute(req, o.first, o, o);
    PodsPermute(req, f, o.first, o.second, o.second);
    SameCollection(o.second, o.first);
    EventsTellApart(EventIncluded(req, f), o.second);
    NamespacesTellApart(pods, summaries, o.namespaces);
    SummariesTellApart(req, f, pods, o.workloads, o.first);
    SummaryUidsAreUnique(req, f, pods, o.workloads, o.first);
    EntriesTellApart(f.rs, pods, summaries, o.first);
  }

  /** The rows of the namespaces iterated are those of the totals. */
  lemma NamespacesAreMet(req: Request, o: Orders, byNS: map<string, Tally>)
    requires Possible(req, o.first, o)
    requires var f := FindAll(req, o.first);
      var pods := PodsOf(req, f, o.second);
      HoldsTotals(byNS, if NeedNamespaces(req) then pods else [],
                  if NeedNamespaces(req) then SummariesOf(req, f, pods, o.workloads) else [])
    ensures var f := FindAll(req, o.first);
      var pods := PodsOf(req, f, o.second);
      forall n :: n in o.namespaces ==>
        n in byNS && byNS[n] == NamespaceTotal(pods, SummariesOf(req, f, pods, o.workloads), n)
  {
  }

  /** The projection of one screen, for the orders in which Go happens to iterate its maps. With what
      ProjectionForgetsOrder says, it depends on the resources alone. */
  method ProjectScreen(req: Request, o: Orders) returns (out: Projection)
    requires Unique(o.first) && PodsAreKindPod(o.first) && Possible(req, o.first, o)
    ensures out == Project(req, o)
  {
    ListOrdersAreTotal();
    RowsTellApart(req, o);
    var f := Scan(req, o.first);
    var nodes, pods, counts, events, byNS := Collect(req, f, o.second);
    var summaries, health, workload;
    summaries, health, byNS, workload := SummariseAll(req, f, pods, o.first, o.workloads, o.sets, byNS);
    var entries, badPods, pod := ListUnhealthy(req, f.rs, pods, summaries);
    NamespacesAreMet(req, o, byNS);
    var rows := ListNamespaces(byNS, o.namespaces, pods, summaries);
    events := SortList(events, EventAtMost);
    entries := SortList(entries, EntryAtMost);
    var unhealthy := First(entries, req.unhealthyLimit);
    rows := SortList(rows, NamespaceAtMost);
    var row := FindRow(req.namespace, rows);
    summaries := SortList(summaries, SummaryAtMost);
    var listed := OnlyPods(unhealthy);
    out := Projection(nodes, counts, health, unhealthy, First(events, req.eventLimit), rows, row, summaries, workload, pod,
                      Resolved(workload, pod), TopologyPods(|pods|, badPods, listed));
  }
}
