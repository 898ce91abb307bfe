/** The rest of a screen, told from the request and the resources alone: its figures, its namespaces, and the one
    workload, pod or namespace asked for. */
module ScreenShown {
  import opened CatalogProtocol
  import opened Options
  import opened Ordering
  import opened ScreenModel
  import opened ScreenDetails
  import opened ScreenOrder
  import opened ScreenScope
  import opened ScreenFigures
  import opened ScreenMeaning
  import opened ScreenLists

  // ----- figures of the whole screen -----

  function ShownNodes(req: Request): Item -> bool
  {
    (x: Item) => x.body.NodeBody? && req.screen == Overview
  }

  function NodesThat(req: Request, ready: bool): Item -> bool
  {
    (x: Item) => x.body.NodeBody? && req.screen == Overview && x.body.ready == ready
  }

  function PressedNodes(req: Request): Item -> bool
  {
    (x: Item) => x.body.NodeBody? && req.screen == Overview && x.body.pressure
  }

  function UnschedulableNodes(req: Request): Item -> bool
  {
    (x: Item) => x.body.NodeBody? && req.screen == Overview && x.body.unschedulable
  }

  predicate NodeFigures(h: NodeHealth, req: Request, items: seq<Item>)
  {
    && h.total == Count(ShownNodes(req), items)
    && h.ready == Count(NodesThat(req, true), items) && h.notReady == Count(NodesThat(req, false), items)
    && h.pressure == Count(PressedNodes(req), items) && h.unschedulable == Count(UnschedulableNodes(req), items)
  }

  lemma CountNodes(req: Request, p: Item -> bool, both: Item -> bool, second: seq<Item>, items: seq<Item>)
    requires multiset(second) == multiset(items) && forall x :: both(x) <==> p(x) && NodeIncluded(req)(x)
    ensures |Filter(p, Filter(NodeIncluded(req), second))| == Count(both, items)
  {
    FilterTwice(p, NodeIncluded(req), both, second);
    CountCounts(both, both, second);
    CountSame(both, both, second, items);
  }

  lemma NodesAre(req: Request, items: seq<Item>, second: seq<Item>)
    requires multiset(second) == multiset(items)
    ensures NodeFigures(NodesOf(req, second), req, items)
  {
    CountCounts(NodeIncluded(req), ShownNodes(req), second);
    CountSame(ShownNodes(req), ShownNodes(req), second, items);
    CountNodes(req, ReadyNode, NodesThat(req, true), second, items);
    CountNodes(req, UnreadyNode, NodesThat(req, false), second, items);
    CountNodes(req, PressedNode, PressedNodes(req), second, items);
    CountNodes(req, UnschedulableNode, UnschedulableNodes(req), second, items);
  }

  predicate HealthyRow(r: Summary) { r.severity == Severity.Healthy }
  predicate ShortRow(r: Summary) { ReplicaMismatch in r.issues }
  predicate StalledRow(r: Summary) { RolloutStalled in r.issues }

  predicate HealthFigures(h: WorkloadHealth, rows: seq<Summary>)
  {
    && h.total == |rows| && h.available == Count(HealthyRow, rows)
    && h.mismatched == Count(ShortRow, rows) && h.stalled == Count(StalledRow, rows)
  }

  lemma HealthIs(summaries: seq<Summary>, rows: seq<Summary>)
    requires multiset(summaries) == multiset(rows)
    ensures HealthFigures(HealthOf(summaries), rows)
  {
    SameCollection(summaries, rows);
    CountCounts(AvailableWorkload, HealthyRow, summaries);
    CountCounts(MismatchedWorkload, ShortRow, summaries);
    CountCounts(StalledWorkload, StalledRow, summaries);
    CountSame(HealthyRow, HealthyRow, summaries, rows);
    CountSame(ShortRow, ShortRow, summaries, rows);
    CountSame(StalledRow, StalledRow, summaries, rows);
  }

  lemma PodsAre(req: Request, items: seq<Item>, second: seq<Item>)
    requires Unique(items) && PodsAreKindPod(items) && multiset(second) == multiset(items)
    ensures var pods := PodsOf(req, FindAll(req, items), second);
      && PodFigures(Total(EmptyTally, Map(PodPart, pods)).counts, items, ShownPods(req, items))
      && |pods| == Count(ShownPods(req, items), items) && |Filter(BadPod, pods)| == Count(BadPods(req, items), items)
  {
    var included, shown, bad := PodIncluded(req, FindAll(req, items)), ShownPods(req, items), BadPods(req, items);
    forall x ensures (included(x) <==> shown(x)) && (bad(x) <==> BadPod(x) && included(x)) {
      ShownIff(req, items, x);
    }
    TotalFigures(EmptyTally, included, second);
    SameFigures(Total(EmptyTally, PartsOf(included, second)).counts, included, shown, second, items);
    CountCounts(included, shown, second);
    CountSame(shown, shown, second, items);
    FilterTwice(BadPod, included, bad, second);
    CountCounts(bad, bad, second);
    CountSame(bad, bad, second, items);
  }

  /** The figures at the top of a screen: nodes, pods and workloads. */
  lemma FiguresAre(req: Request, items: seq<Item>, o: Orders)
    requires Resources(items) && Possible(req, items, o)
    ensures var p := Project(req, o);
      && NodeFigures(p.nodes, req, items) && PodFigures(p.pods, items, ShownPods(req, items))
      && HealthFigures(p.workloadHealth, p.workloads)
      && p.topology.total == Count(ShownPods(req, items), items) && p.topology.unhealthy == Count(BadPods(req, items), items)
      && p.topology.listed == Filter((e: Entry) => e.ofPod, p.unhealthy)
  {
    PartsOfProjection(req, items, o);
    NodesAre(req, items, o.second);
    PodsAre(req, items, o.second);
    HealthIs(SummariesOf(req, FindAll(req, items), PodsOf(req, FindAll(req, items), o.second), o.workloads), Project(req, o).workloads);
    FilterSame(OfPod, (e: Entry) => e.ofPod, Project(req, o).unhealthy);
  }

  // ----- namespaces -----

  /** The namespaces of a screen that shows them: those of its pods and of its workloads. */
  ghost predicate NamespaceShown(req: Request, items: seq<Item>, name: string)
  {
    && req.screen in {NamespaceList, OneNamespace}
    && (|| (exists p :: p in items && PodShown(req, items, p) && p.namespace == name)
        || exists w :: w in items && WorkloadShown(req, w) && w.namespace == name)
  }

  ghost predicate NamespacesAre(req: Request, items: seq<Item>, rows: seq<Summary>, spaces: seq<NamespaceRow>)
  {
    && (forall n :: n in spaces ==> NamespaceIs(req, items, rows, n) && NamespaceShown(req, items, n.name))
    && (forall name :: NamespaceShown(req, items, name) ==> exists n :: n in spaces && n.name == name)
    && (forall i, j :: 0 <= i < j < |spaces| ==> NamespaceAhead(spaces[i], spaces[j]) && spaces[i].name != spaces[j].name)
  }

  lemma SameRows(req: Request, items: seq<Item>, rows: seq<Summary>, summaries: seq<Summary>, n: NamespaceRow)
    requires multiset(rows) == multiset(summaries) && NamespaceIs(req, items, summaries, n)
    ensures NamespaceIs(req, items, rows, n)
  {
    CountSame(RowIn(n.name), RowIn(n.name), rows, summaries);
    CountSame(BadRowIn(n.name), BadRowIn(n.name), rows, summaries);
    SameCollection(rows, summaries);
    assert (set r | r in rows && r.namespace == n.name :: r.severity) == set r | r in summaries && r.namespace == n.name :: r.severity;
    assert (set r, i | r in rows && r.namespace == n.name && i in r.issues :: i)
        == set r, i | r in summaries && r.namespace == n.name && i in r.issues :: i;
  }

  lemma NamesAre(req: Request, items: seq<Item>, second: seq<Item>, workloads: seq<Item>, name: string)
    requires Unique(items) && PodsAreKindPod(items) && multiset(second) == multiset(items)
    requires multiset(Filter(Allowed(req), workloads)) == multiset(Filter(ShownWorkloads(req), items))
    ensures var f := FindAll(req, items); var pods := PodsOf(req, f, second);
      name in NamesOf(req, pods, SummariesOf(req, f, pods, workloads)) <==> NamespaceShown(req, items, name)
  {
    var f := FindAll(req, items);
    var pods := PodsOf(req, f, second);
    SameCollection(second, items);
    SameCollection(Filter(Allowed(req), workloads), Filter(ShownWorkloads(req), items));
    FilterMembers(PodIncluded(req, f), second);
    FilterMembers(ShownWorkloads(req), items);
    forall p ensures p in pods <==> p in items && PodShown(req, items, p) {
      ShownIff(req, items, p);
    }
    RowNames(f.rs, pods, Filter(Allowed(req), workloads), name);
  }

  lemma RowNames(rs: map<string, Item>, pods: seq<Item>, ws: seq<Item>, name: string)
    requires forall w :: w in ws ==> w.body.WorkloadBody?
    ensures (exists r :: r in Map(Summarise(rs, pods), ws) && r.namespace == name) <==> exists w :: w in ws && w.namespace == name
  {
    var rows := Map(Summarise(rs, pods), ws);
    if w :| w in ws && w.namespace == name {
      var i :| 0 <= i < |ws| && ws[i] == w;
      assert rows[i] in rows && rows[i].namespace == name;
    }
    if r :| r in rows && r.namespace == name {
      var i :| 0 <= i < |rows| && rows[i] == r;
      assert ws[i] in ws && ws[i].namespace == name;
    }
  }

  lemma SpacesPermute(of: string -> NamespaceRow, names: seq<string>, spaces: seq<NamespaceRow>)
    requires NoRepeats(names) && (forall n :: of(n).name == n) && multiset(spaces) == multiset(Map(of, names))
    ensures forall n :: n in spaces <==> n == of(n.name) && n.name in names
    ensures forall i, j :: 0 <= i < j < |spaces| ==> spaces[i].name != spaces[j].name
  {
    SameCollection(spaces, Map(of, names));
    forall n ensures n in Map(of, names) <==> n == of(n.name) && n.name in names {
      if n == of(n.name) && n.name in names {
        var i :| 0 <= i < |names| && names[i] == n.name;
        assert Map(of, names)[i] == n;
      }
    }
    forall i, j | 0 <= i < j < |spaces| ensures spaces[i].name != spaces[j].name {
      assert spaces[i] in spaces && spaces[j] in spaces;
      PermutedNoRepeats(spaces, Map(of, names), i, j);
    }
  }

  lemma OneSpace(req: Request, items: seq<Item>, second: seq<Item>, rows: seq<Summary>, summaries: seq<Summary>, name: string)
    requires Unique(items) && PodsAreKindPod(items) && multiset(second) == multiset(items) && multiset(rows) == multiset(summaries)
    ensures NamespaceIs(req, items, rows, NamespaceOf(PodsOf(req, FindAll(req, items), second), summaries)(name))
  {
    NamespaceRowIs(req, items, second, summaries, name);
    SameRows(req, items, rows, summaries, NamespaceOf(PodsOf(req, FindAll(req, items), second), summaries)(name));
  }

  /** Sorted rows of a list of names without repeats, each row being what its name stands for. */
  lemma SpacesAre(
      req: Request, items: seq<Item>, rows: seq<Summary>, of: string -> NamespaceRow, names: seq<string>, spaces: seq<NamespaceRow>)
    requires (forall n :: of(n).name == n && NamespaceIs(req, items, rows, of(n)))
    requires NoRepeats(names) && (forall n :: n in names <==> NamespaceShown(req, items, n))
    requires multiset(spaces) == multiset(Map(of, names)) && Sorted(spaces, NamespaceAtMost)
    ensures NamespacesAre(req, items, rows, spaces)
  {
    SpacesPermute(of, names, spaces);
    forall name | NamespaceShown(req, items, name) ensures exists n :: n in spaces && n.name == name {
      assert of(name) in spaces;
    }
    OrdersAreThese();
  }

  lemma SortedNamespaces(
      req: Request, items: seq<Item>, second: seq<Item>, rows: seq<Summary>, summaries: seq<Summary>, names: seq<string>)
    requires Unique(items) && PodsAreKindPod(items) && multiset(second) == multiset(items) && multiset(rows) == multiset(summaries)
    requires NoRepeats(names) && forall n :: n in names <==> NamespaceShown(req, items, n)
    ensures NamespacesAre(req, items, rows, Sort(Map(NamespaceOf(PodsOf(req, FindAll(req, items), second), summaries), names), NamespaceAtMost))
  {
    var of := NamespaceOf(PodsOf(req, FindAll(req, items), second), summaries);
    ListOrdersAreTotal();
    SortSorts(Map(of, names), NamespaceAtMost);
    forall name ensures of(name).name == name && NamespaceIs(req, items, rows, of(name)) {
      OneSpace(req, items, second, rows, summaries, name);
    }
    SpacesAre(req, items, rows, of, names, Sort(Map(of, names), NamespaceAtMost));
  }

  /** There is one row for each namespace of the pods and workloads shown, with the rollup of those in it, in their
      order; and the one asked for is found among them. */
  lemma NamespaceRowsAre(req: Request, items: seq<Item>, o: Orders)
    requires Resources(items) && Possible(req, items, o)
    ensures var p := Project(req, o);
      && NamespacesAre(req, items, p.workloads, p.namespaces)
      && (p.namespace.Some? <==> NamespaceShown(req, items, req.namespace))
      && (p.namespace.Some? ==> p.namespace.value in p.namespaces && p.namespace.value.name == req.namespace)
  {
    var f := FindAll(req, items);
    PartsOfProjection(req, items, o);
    WorkloadsListed(req, items, o);
    forall n ensures n in o.namespaces <==> NamespaceShown(req, items, n) {
      NamesAre(req, items, o.second, o.workloads, n);
    }
    SortedNamespaces(req, items, o.second, Project(req, o).workloads, SummariesOf(req, f, PodsOf(req, f, o.second), o.workloads), o.namespaces);
    RowFound(req.namespace, Project(req, o).namespaces);
  }

  lemma RowFound(name: string, spaces: seq<NamespaceRow>)
    ensures var r := RowNamed(name, spaces);
      && (r.Some? <==> exists n :: n in spaces && n.name == name) && (r.Some? ==> r.value in spaces && r.value.name == name)
  {
    FilterMembers(NamedRow(name), spaces);
    var kept := Filter(NamedRow(name), spaces);
    if kept != [] {
      assert kept[|kept| - 1] in kept;
    }
    if n :| n in spaces && n.name == name {
      assert n in kept;
    }
  }
}
