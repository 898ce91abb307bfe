/** The whole projection of one screen, as a function of the orders in which the maps happen to be iterated,
    and the theorem that those orders do not show. */
module ScreenOrder {
  import opened CatalogProtocol
  import opened Options
  import opened Ordering
  import opened ScreenModel
  import opened ScreenDetails

  /** Everything a screen may be sent; which of it is sent depends on the screen alone. */
  datatype Projection = Projection(
    nodes: NodeHealth, pods: Counts, workloadHealth: WorkloadHealth, unhealthy: seq<Entry>, events: seq<Event>,
    namespaces: seq<NamespaceRow>, namespace: Option<NamespaceRow>, workloads: seq<Summary>,
    workload: Option<WorkloadDetail>, pod: Option<PodDetail>, resolved: string, topology: TopologyPods)

  /** How many pods there are, how many of them are unhealthy, and those that made it into the unhealthy list. */
  datatype TopologyPods = TopologyPods(total: nat, unhealthy: nat, listed: seq<Entry>)

  /** The orders in which the resource map is iterated twice, the workload map once, the ReplicaSet map once,
      and the namespaces once. */
  datatype Orders = Orders(
    first: seq<Item>, second: seq<Item>, workloads: seq<Item>, sets: seq<Item>, namespaces: seq<string>)

  predicate OfPod(e: Entry) { e.ofPod }

  /** The last row of that name. */
  function RowNamed(name: string, rows: seq<NamespaceRow>): Option<NamespaceRow>
  {
    LastOf(Filter(NamedRow(name), rows))
  }

  function Project(req: Request, o: Orders): Projection
  {
    var f := FindAll(req, o.first);
    var pods := PodsOf(req, f, o.second);
    var summaries := SummariesOf(req, f, pods, o.workloads);
    var unhealthy := First(Sort(EntriesOf(f.rs, pods, summaries), EntryAtMost), req.unhealthyLimit);
    var namespaces := Sort(Map(NamespaceOf(pods, summaries), o.namespaces), NamespaceAtMost);
    var workload := WorkloadDetailOf(req, f, pods, o.workloads, o.sets);
    var pod := PodDetailOf(req, f.rs, pods, pods);
    Projection(
      NodesOf(req, o.second), Total(EmptyTally, Map(PodPart, pods)).counts, HealthOf(summaries), unhealthy,
      First(Sort(Map(EventOf, Filter(EventIncluded(req, f), o.second)), EventAtMost), req.eventLimit),
      namespaces, RowNamed(req.namespace, namespaces), Sort(summaries, SummaryAtMost), workload, pod,
      Resolved(workload, pod), TopologyPods(|pods|, |Filter(BadPod, pods)|, Filter(OfPod, unhealthy)))
  }

  /** o is a way the maps might be iterated when the resources are `items`. */
  ghost predicate Possible(req: Request, items: seq<Item>, o: Orders)
  {
    && multiset(o.first) == multiset(items) && multiset(o.second) == multiset(items)
    && (var f := FindAll(req, items);
        && NoRepeats(o.workloads) && (forall x :: x in o.workloads <==> x.uid in f.workloads && f.workloads[x.uid] == x)
        && NoRepeats(o.sets) && (forall x :: x in o.sets <==> x.uid in f.rs && f.rs[x.uid] == x)
        && NoRepeats(o.namespaces)
        && var pods := PodsOf(req, f, o.second);
           forall n :: n in o.namespaces <==> n in NamesOf(req, pods, SummariesOf(req, f, pods, o.workloads)))
  }

  // ----- iteration orders do not show -----

  lemma WorkloadOrdersPermute(req: Request, items: seq<Item>, o: Orders, o': Orders)
    requires Possible(req, items, o) && Possible(req, items, o')
    ensures multiset(o.workloads) == multiset(o'.workloads) && FromItems(o.workloads, items)
  {
    var f := FindAll(req, items);
    SameElementsPermute(o.workloads, o'.workloads);
    forall x | x in o.workloads ensures x in items && x.body.WorkloadBody? {
      WorkloadsAreItems(req, items, x.uid);
    }
  }

  lemma SetOrdersPermute(req: Request, items: seq<Item>, o: Orders, o': Orders)
    requires Possible(req, items, o) && Possible(req, items, o')
    ensures multiset(o.sets) == multiset(o'.sets) && UidsDiffer(o.sets)
  {
    SameElementsPermute(o.sets, o'.sets);
  }

  lemma NamesPermute(req: Request, items: seq<Item>, o: Orders, o': Orders)
    requires Possible(req, items, o) && Possible(req, items, o')
    ensures multiset(o.namespaces) == multiset(o'.namespaces)
  {
    var f := FindAll(req, items);
    var pods, pods' := PodsOf(req, f, o.second), PodsOf(req, f, o'.second);
    var summaries, summaries' := SummariesOf(req, f, pods, o.workloads), SummariesOf(req, f, pods', o'.workloads);
    PodsPermute(req, f, items, o.second, o'.second);
    WorkloadOrdersPermute(req, items, o, o');
    SummariesForgetOrder(req, f, pods, pods', o.workloads, o'.workloads);
    SameCollection(pods, pods');
    SameCollection(summaries, summaries');
    SameNames(req, pods, pods', summaries, summaries');
    SameElementsPermute(o.namespaces, o'.namespaces);
  }

  /** For resources with unique UIDs and unique kind, namespace and name, every part of the projection is the
      same whatever the orders in which the maps are iterated: the counts, the rollups per workload and per
      namespace, the sorted lists, the two lists that are cut to their first rows, and the one namespace,
      workload or pod asked for with its own lists of pods and owners. */
  lemma ProjectionForgetsOrder(req: Request, items: seq<Item>, o: Orders, o': Orders)
    requires Unique(items) && PodsAreKindPod(items)
    requires Possible(req, items, o) && Possible(req, items, o')
    ensures Project(req, o) == Project(req, o')
  {
    FoundForgetsOrder(req, items, o.first);
    FoundForgetsOrder(req, items, o'.first);
    var f := FindAll(req, items);
    var pods, pods' := PodsOf(req, f, o.second), PodsOf(req, f, o'.second);
    var summaries, summaries' := SummariesOf(req, f, pods, o.workloads), SummariesOf(req, f, pods', o'.workloads);
    PodsPermute(req, f, items, o.second, o'.second);
    WorkloadOrdersPermute(req, items, o, o');
    SummariesForgetOrder(req, f, pods, pods', o.workloads, o'.workloads);
    NodesForgetOrder(req, o.second, o'.second);
    PodCountsForgetOrder(pods, pods');
    HealthForgetsOrder(summaries, summaries');
    EntryListForgetsOrder(req, items, f, pods, pods', o.workloads, summaries');
    EventsForgetOrder(req, f, items, o.second, o'.second);
    NamesPermute(req, items, o, o');
    NamespaceListForgetsOrder(pods, pods', summaries, summaries', o.namespaces, o'.namespaces);
    WorkloadListForgetsOrder(req, items, f, pods, pods', o.workloads, o'.workloads);
    SetOrdersPermute(req, items, o, o');
    WorkloadDetailForgetsOrder(req, items, f, pods, pods', o.workloads, o'.workloads, o.sets, o'.sets);
    PodDetailForgetsOrder(req, items, f.rs, pods, pods');
  }
}
