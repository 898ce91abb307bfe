/** Which rows a screen's lists hold and in what order, told from the request and the resources alone. */
module ScreenLists {
  import opened CatalogProtocol
  import opened Options
  import opened Ordering
  import opened ScreenModel
  import opened ScreenDetails
  import opened ScreenOrder
  import opened ScreenScope
  import opened ScreenFigures
  import opened ScreenMeaning

  // ----- orders -----

  predicate Worse(a: Severity, b: Severity)
  {
    NoWorse(b, a) && a != b
  }

  /** The worse severity first, then by namespace, name, kind and UID. */
  predicate RowAhead(a: Summary, b: Summary)
  {
    || Worse(a.severity, b.severity)
    || (a.severity == b.severity
        && (|| Less(a.namespace, b.namespace)
            || (a.namespace == b.namespace
                && (|| Less(a.name, b.name)
                    || (a.name == b.name
                        && (|| Less(KindName(a.kind), KindName(b.kind))
                            || (KindName(a.kind) == KindName(b.kind) && AtMost(a.uid, b.uid))))))))
  }

  /** The worse severity first, then by name. */
  predicate NamespaceAhead(a: NamespaceRow, b: NamespaceRow)
  {
    Worse(a.tally.severity, b.tally.severity) || (a.tally.severity == b.tally.severity && AtMost(a.name, b.name))
  }

  /** The worse severity first, then what has been so for longer, then by namespace, pods before workloads, by name,
      and by UID. */
  predicate EntryAhead(a: Entry, b: Entry)
  {
    || Worse(a.severity, b.severity)
    || (a.severity == b.severity
        && (|| a.forSeconds > b.forSeconds
            || (a.forSeconds == b.forSeconds
                && (|| Less(a.namespace, b.namespace)
                    || (a.namespace == b.namespace
                        && (|| (a.ofPod && !b.ofPod)
                            || (a.ofPod == b.ofPod
                                && (|| Less(a.name, b.name)
                                    || (a.name == b.name && AtMost(a.podUid + a.workloadUid, b.podUid + b.workloadUid))))))))))
  }

  /** The later first, then by UID. */
  predicate EventAhead(a: Event, b: Event)
  {
    a.lastSeen > b.lastSeen || (a.lastSeen == b.lastSeen && AtMost(a.uid, b.uid))
  }

  /** The worse severity first, then by name and UID. */
  predicate PodLineAhead(a: PodLine, b: PodLine)
  {
    || Worse(a.severity, b.severity)
    || (a.severity == b.severity && (Less(a.name, b.name) || (a.name == b.name && AtMost(a.uid, b.uid))))
  }

  lemma TextsInTurn(a: seq<string>, b: seq<string>)
    requires |a| > 0 && |b| > 0
    ensures !TextsLess(b, a) <==> Less(a[0], b[0]) || (a[0] == b[0] && !TextsLess(b[1..], a[1..]))
  {
    LessIsStrict(a[0], b[0]);
  }

  lemma OneText(a: string, b: string)
    ensures !TextsLess([b], [a]) <==> AtMost(a, b)
  {
    TextsInTurn([a], [b]);
    LessIsStrict(a, b);
    assert !TextsLess([], []);
  }

  lemma TwoTexts(a: string, c: string, b: string, d: string)
    ensures !TextsLess([b, d], [a, c]) <==> Less(a, b) || (a == b && AtMost(c, d))
  {
    TextsInTurn([a, c], [b, d]);
    assert [a, c][1..] == [c] && [b, d][1..] == [d];
    OneText(c, d);
  }

  lemma FourTexts(a0: string, a1: string, a2: string, a3: string, b0: string, b1: string, b2: string, b3: string)
    ensures !TextsLess([b0, b1, b2, b3], [a0, a1, a2, a3]) <==>
      Less(a0, b0) || (a0 == b0 && (Less(a1, b1) || (a1 == b1 && (Less(a2, b2) || (a2 == b2 && AtMost(a3, b3))))))
  {
    TextsInTurn([a0, a1, a2, a3], [b0, b1, b2, b3]);
    assert [a0, a1, a2, a3][1..] == [a1, a2, a3] && [b0, b1, b2, b3][1..] == [b1, b2, b3];
    TextsInTurn([a1, a2, a3], [b1, b2, b3]);
    assert [a1, a2, a3][1..] == [a2, a3] && [b1, b2, b3][1..] == [b2, b3];
    TwoTexts(a2, a3, b2, b3);
  }

  lemma WorseIsRank(a: Severity, b: Severity)
    ensures Worse(a, b) <==> Rank(a) > Rank(b)
    ensures a == b <==> Rank(a) == Rank(b)
  {
    NoWorseIsRank(b, a);
    NoWorseIsRank(a, b);
  }

  lemma PodBeforeWorkload()
    ensures Less("Pod", "Workload") && !Less("Workload", "Pod") && !Less("Pod", "Pod") && !Less("Workload", "Workload")
  {
    LessIsStrict("Pod", "Pod");
    LessIsStrict("Workload", "Workload");
    assert "Pod"[0] == 'P' && "Workload"[0] == 'W';
  }

  lemma OrdersAreThese()
    ensures forall a, b :: SummaryAtMost(a, b) ==> RowAhead(a, b)
    ensures forall a, b :: NamespaceAtMost(a, b) ==> NamespaceAhead(a, b)
    ensures forall a, b :: EventAtMost(a, b) ==> EventAhead(a, b)
    ensures forall a, b :: PodLineAtMost(a, b) ==> PodLineAhead(a, b)
  {
    forall a, b | SummaryAtMost(a, b) ensures RowAhead(a, b) {
      WorseIsRank(a.severity, b.severity);
      FourTexts(a.namespace, a.name, KindName(a.kind), a.uid, b.namespace, b.name, KindName(b.kind), b.uid);
    }
    forall a, b | NamespaceAtMost(a, b) ensures NamespaceAhead(a, b) {
      WorseIsRank(a.tally.severity, b.tally.severity);
      OneText(a.name, b.name);
    }
    forall a, b | EventAtMost(a, b) ensures EventAhead(a, b) {
      OneText(a.uid, b.uid);
    }
    forall a, b | PodLineAtMost(a, b) ensures PodLineAhead(a, b) {
      WorseIsRank(a.severity, b.severity);
      TwoTexts(a.name, a.uid, b.name, b.uid);
    }
  }

  lemma EntryOrderIsThis(a: Entry, b: Entry)
    requires EntryAtMost(a, b)
    ensures EntryAhead(a, b)
  {
    var k, l := if a.ofPod then "Pod" else "Workload", if b.ofPod then "Pod" else "Workload";
    WorseIsRank(a.severity, b.severity);
    PodBeforeWorkload();
    FourTexts(a.namespace, k, a.name, a.podUid + a.workloadUid, b.namespace, l, b.name, b.podUid + b.workloadUid);
  }

  // ----- lists -----

  /** The rows are one for each of xs that satisfies p, and show it. */
  ghost predicate Lists<X(!new), R(!new)>(rows: seq<R>, xs: seq<X>, p: X -> bool, shows: (X, R) -> bool)
  {
    && |rows| == Count(p, xs)
    && (forall r :: r in rows ==> exists x :: x in xs && p(x) && shows(x, r))
    && (forall x :: x in xs && p(x) ==> exists r :: r in rows && shows(x, r))
  }

  lemma SortedRows<X(!new), R(!new)>(
      rows: seq<R>, kept: seq<X>, f: X -> R, xs: seq<X>, p: X -> bool, shows: (X, R) -> bool)
    requires multiset(rows) == multiset(Map(f, kept)) && multiset(kept) == multiset(Filter(p, xs))
    requires forall x :: x in xs && p(x) ==> shows(x, f(x))
    ensures Lists(rows, xs, p, shows)
  {
    SameCollection(rows, Map(f, kept));
    SameCollection(kept, Filter(p, xs));
    FilterMembers(p, xs);
    CountCounts(p, p, xs);
    forall r | r in rows ensures exists x :: x in xs && p(x) && shows(x, r) {
      var i :| 0 <= i < |kept| && Map(f, kept)[i] == r;
      assert kept[i] in kept;
    }
    forall x | x in xs && p(x) ensures exists r :: r in rows && shows(x, r) {
      assert x in kept;
      var i :| 0 <= i < |kept| && kept[i] == x;
      assert Map(f, kept)[i] == f(x);
    }
  }

  lemma {:induction false} FilterNoRepeats<T(!new)>(p: T -> bool, s: seq<T>)
    requires NoRepeats(s)
    ensures NoRepeats(Filter(p, s))
    decreases |s|
  {
    if s != [] {
      var before, last := s[..|s| - 1], s[|s| - 1];
      FilterNoRepeats(p, before);
      FilterMembers(p, before);
      assert forall x :: x in Filter(p, before) ==> x != last;
    }
  }

  /** A listing of the resources of a screen as a map holds them: no two alike, none twice. */
  ghost predicate Resources(items: seq<Item>)
  {
    Unique(items) && NoRepeats(items) && PodsAreKindPod(items)
  }

  function ShownWorkloads(req: Request): Item -> bool
  {
    (x: Item) => WorkloadShown(req, x)
  }

  ghost function ShowsWorkload(req: Request, items: seq<Item>): (Item, Summary) -> bool
  {
    (w: Item, row: Summary) => WorkloadRow(req, items, w, row)
  }

  /** Iterating a map of resources by UID goes over just those resources. */
  lemma MapIterated(m: map<string, Item>, p: Item -> bool, items: seq<Item>, order: seq<Item>)
    requires UidsDiffer(items) && NoRepeats(items) && ByUid(m, p, items)
    requires NoRepeats(order) && forall x :: x in order <==> x.uid in m && m[x.uid] == x
    ensures multiset(order) == multiset(Filter(p, items))
  {
    FilterMembers(p, items);
    FilterNoRepeats(p, items);
    forall x ensures x in order <==> x in Filter(p, items) {
      if x in items && p(x) {
        assert m[x.uid] in items && m[x.uid].uid == x.uid;
      }
    }
    SameElementsPermute(order, Filter(p, items));
  }

  lemma WorkloadsListed(req: Request, items: seq<Item>, o: Orders)
    requires Resources(items) && Possible(req, items, o)
    ensures multiset(Filter(Allowed(req), o.workloads)) == multiset(Filter(ShownWorkloads(req), items))
  {
    var m := FindAll(req, items).workloads;
    assert ByUid(m, Workloads(req), items) by {
      FindAllFinds(req, items);
    }
    assert multiset(o.workloads) == multiset(Filter(Workloads(req), items)) by {
      MapIterated(m, Workloads(req), items, o.workloads);
    }
    ScopedWorkloads(req, items, o.workloads);
  }

  lemma ScopedWorkloads(req: Request, items: seq<Item>, order: seq<Item>)
    requires multiset(order) == multiset(Filter(Workloads(req), items))
    ensures multiset(Filter(Allowed(req), order)) == multiset(Filter(ShownWorkloads(req), items))
  {
    FilterPermutes(Allowed(req), order, Filter(Workloads(req), items));
    FilterTwice(Allowed(req), Workloads(req), ShownWorkloads(req), items);
  }

  /** The parts of the projection that its lists are made of. */
  lemma PartsOfProjection(req: Request, items: seq<Item>, o: Orders)
    requires Resources(items) && Possible(req, items, o)
    ensures var f := FindAll(req, items);
      && FindAll(req, o.first) == f
      && multiset(Project(req, o).workloads) == multiset(SummariesOf(req, f, PodsOf(req, f, o.second), o.workloads))
      && Sorted(Project(req, o).workloads, SummaryAtMost)
  {
    FoundForgetsOrder(req, items, o.first);
    var f := FindAll(req, items);
    ListOrdersAreTotal();
    SortSorts(SummariesOf(req, f, PodsOf(req, f, o.second), o.workloads), SummaryAtMost);
  }

  /** The workloads are listed one row each, and in their order. */
  lemma WorkloadRowsAre(req: Request, items: seq<Item>, o: Orders)
    requires Resources(items) && Possible(req, items, o)
    ensures var rows := Project(req, o).workloads;
      && Lists(rows, items, ShownWorkloads(req), ShowsWorkload(req, items))
      && forall i, j :: 0 <= i < j < |rows| ==> RowAhead(rows[i], rows[j])
  {
    var f := FindAll(req, items);
    var rows, kept := Project(req, o).workloads, Filter(Allowed(req), o.workloads);
    PartsOfProjection(req, items, o);
    WorkloadsListed(req, items, o);
    forall w | w in items && ShownWorkloads(req)(w)
      ensures ShowsWorkload(req, items)(w, Summarise(f.rs, PodsOf(req, f, o.second))(w))
    {
      WorkloadRowIs(req, items, o.second, w);
    }
    SortedRows(rows, kept, Summarise(f.rs, PodsOf(req, f, o.second)), items, ShownWorkloads(req), ShowsWorkload(req, items));
    OrdersAreThese();
  }

  // ----- events -----

  predicate EventIs(x: Item, e: Event)
  {
    && x.body.EventBody? && e.uid == x.uid && e.namespace == x.namespace && e.involved == x.body.involved
    && e.message == x.body.message && e.lastSeen == x.body.lastSeenMs / 1000
  }

  ghost function ShownEvents(req: Request, items: seq<Item>): Item -> bool
  {
    (x: Item) => EventShown(req, items, x)
  }

  /** The first n of a list, or all of a shorter one. */
  predicate IsStartOf<R(==)>(rows: seq<R>, all: seq<R>, n: nat)
  {
    rows <= all && |rows| == if |all| <= n then |all| else n
  }

  lemma SortedEvents(req: Request, items: seq<Item>, second: seq<Item>) returns (all: seq<Event>)
    requires Unique(items) && PodsAreKindPod(items) && multiset(second) == multiset(items)
    ensures all == Sort(Map(EventOf, Filter(EventIncluded(req, FindAll(req, items)), second)), EventAtMost)
    ensures Lists(all, items, ShownEvents(req, items), EventIs) && forall i, j :: 0 <= i < j < |all| ==> EventAhead(all[i], all[j])
  {
    var included, shown := EventIncluded(req, FindAll(req, items)), ShownEvents(req, items);
    var kept := Filter(included, second);
    all := Sort(Map(EventOf, kept), EventAtMost);
    ListOrdersAreTotal();
    SortSorts(Map(EventOf, kept), EventAtMost);
    forall x ensures included(x) <==> shown(x) {
      ShownIff(req, items, x);
    }
    FilterSame(included, shown, second);
    FilterPermutes(shown, second, items);
    SortedRows(all, kept, EventOf, items, shown, EventIs);
    OrdersAreThese();
  }

  lemma FirstIsStart<R>(all: seq<R>, n: nat)
    ensures IsStartOf(First(all, n), all, n)
  {
  }

  lemma PassesAgree(req: Request, items: seq<Item>, o: Orders)
    requires Resources(items) && Possible(req, items, o)
    ensures FindAll(req, o.first) == FindAll(req, items) && multiset(o.second) == multiset(items)
  {
    FoundForgetsOrder(req, items, o.first);
  }

  /** The two lists of the projection that are cut. */
  lemma CutLists(req: Request, o: Orders)
    ensures var f := FindAll(req, o.first);
      var pods := PodsOf(req, f, o.second);
      && Project(req, o).events == First(Sort(Map(EventOf, Filter(EventIncluded(req, f), o.second)), EventAtMost), req.eventLimit)
      && Project(req, o).unhealthy
         == First(Sort(EntriesOf(f.rs, pods, SummariesOf(req, f, pods, o.workloads)), EntryAtMost), req.unhealthyLimit)
  {
  }

  /** The events listed are the latest of those that belong on the screen. */
  lemma EventsAre(req: Request, items: seq<Item>, o: Orders) returns (all: seq<Event>)
    requires Resources(items) && Possible(req, items, o)
    ensures Lists(all, items, ShownEvents(req, items), EventIs) && forall i, j :: 0 <= i < j < |all| ==> EventAhead(all[i], all[j])
    ensures IsStartOf(Project(req, o).events, all, req.eventLimit)
  {
    PassesAgree(req, items, o);
    CutLists(req, o);
    all := SortedEvents(req, items, o.second);
    FirstIsStart(all, req.eventLimit);
  }

  lemma {:induction false} FilterSame<T(!new)>(p: T -> bool, q: T -> bool, s: seq<T>)
    requires forall x :: x in s ==> (p(x) <==> q(x))
    ensures Filter(p, s) == Filter(q, s)
    decreases |s|
  {
    if s != [] {
      FilterSame(p, q, s[..|s| - 1]);
      assert s[|s| - 1] in s;
    }
  }

  // ----- the unhealthy -----

  ghost function BadPods(req: Request, items: seq<Item>): Item -> bool
  {
    (x: Item) => PodShown(req, items, x) && x.body.severity != Severity.Healthy
  }

  /** A row that is not healthy and has too few ready pods or a stalled rollout. */
  predicate IsBadRow(r: Summary)
  {
    r.severity != Severity.Healthy && (ReplicaMismatch in r.issues || RolloutStalled in r.issues)
  }

  ghost predicate EntryOfPod(items: seq<Item>, p: Item, e: Entry)
  {
    && p.body.PodBody? && e.ofPod && e.podUid == p.uid && e.namespace == p.namespace && e.name == p.name
    && e.workloadUid == (if Above(items, p.owners).Some? then Above(items, p.owners).value.uid else "")
    && e.severity == p.body.severity && e.restarts == p.body.restarts
    && e.reason == PodReason(if |p.body.reason| > 0 then p.body.reason else "Unknown")
    && e.forSeconds == (if p.body.podAge > 0 then p.body.podAge else 0)
  }

  predicate EntryOfRow(r: Summary, e: Entry)
  {
    && !e.ofPod && e.podUid == "" && e.workloadUid == r.uid && e.namespace == r.namespace && e.name == r.name
    && e.severity == r.severity && e.restarts == r.restarts && e.forSeconds == r.age
    && e.reason == if RolloutStalled in r.issues then RolloutReason else ReplicaReason(r.ready, r.desired)
  }

  ghost function ShowsPod(items: seq<Item>): (Item, Entry) -> bool
  {
    (p: Item, e: Entry) => EntryOfPod(items, p, e)
  }

  lemma PodEntriesAre(req: Request, items: seq<Item>, second: seq<Item>) returns (entries: seq<Entry>)
    requires Unique(items) && PodsAreKindPod(items) && multiset(second) == multiset(items)
    ensures var f := FindAll(req, items); entries == Map(PodEntry(f.rs), Filter(BadPod, PodsOf(req, f, second)))
    ensures Lists(entries, items, BadPods(req, items), ShowsPod(items))
  {
    var f := FindAll(req, items);
    var bad := BadPods(req, items);
    var kept := Filter(BadPod, PodsOf(req, f, second));
    entries := Map(PodEntry(f.rs), kept);
    forall x ensures BadPod(x) && PodIncluded(req, f)(x) <==> bad(x) {
      ShownIff(req, items, x);
    }
    FilterTwice(BadPod, PodIncluded(req, f), bad, second);
    FilterPermutes(bad, second, items);
    forall p | p in items && bad(p) ensures ShowsPod(items)(p, PodEntry(f.rs)(p)) {
      EntryIs(req, items, p);
    }
    SortedRows(entries, kept, PodEntry(f.rs), items, bad, ShowsPod(items));
  }

  lemma EntryIs(req: Request, items: seq<Item>, p: Item)
    requires Unique(items) && PodsAreKindPod(items) && PodShown(req, items, p)
    ensures EntryOfPod(items, p, PodEntry(FindAll(req, items).rs)(p))
  {
    FindAllFinds(req, items);
    AboveIs(req, items, FindAll(req, items).rs, p.owners);
  }

  lemma RowEntriesAre(rows: seq<Summary>, summaries: seq<Summary>) returns (entries: seq<Entry>)
    requires multiset(rows) == multiset(summaries)
    ensures entries == Map(WorkloadEntry, Filter(BadWorkload, summaries))
    ensures Lists(entries, rows, IsBadRow, EntryOfRow)
  {
    entries := Map(WorkloadEntry, Filter(BadWorkload, summaries));
    FilterSame(BadWorkload, IsBadRow, summaries);
    FilterPermutes(IsBadRow, summaries, rows);
    SortedRows(entries, Filter(BadWorkload, summaries), WorkloadEntry, rows, IsBadRow, EntryOfRow);
  }

  lemma SortedEntries(a: seq<Entry>, b: seq<Entry>) returns (all: seq<Entry>)
    ensures all == Sort(a + b, EntryAtMost) && multiset(all) == multiset(a + b)
    ensures forall i, j :: 0 <= i < j < |all| ==> EntryAhead(all[i], all[j])
  {
    all := Sort(a + b, EntryAtMost);
    ListOrdersAreTotal();
    SortSorts(a + b, EntryAtMost);
    forall i, j | 0 <= i < j < |all| ensures EntryAhead(all[i], all[j]) {
      EntryOrderIsThis(all[i], all[j]);
    }
  }

  lemma UnhealthyOf(req: Request, items: seq<Item>, second: seq<Item>, rows: seq<Summary>, summaries: seq<Summary>)
    returns (ofPods: seq<Entry>, ofRows: seq<Entry>, all: seq<Entry>)
    requires Unique(items) && PodsAreKindPod(items) && multiset(second) == multiset(items) && multiset(rows) == multiset(summaries)
    ensures Lists(ofPods, items, BadPods(req, items), ShowsPod(items)) && Lists(ofRows, rows, IsBadRow, EntryOfRow)
    ensures multiset(all) == multiset(ofPods + ofRows) && forall i, j :: 0 <= i < j < |all| ==> EntryAhead(all[i], all[j])
    ensures var f := FindAll(req, items); all == Sort(EntriesOf(f.rs, PodsOf(req, f, second), summaries), EntryAtMost)
  {
    ofPods := PodEntriesAre(req, items, second);
    ofRows := RowEntriesAre(rows, summaries);
    all := SortedEntries(ofPods, ofRows);
  }

  /** The unhealthy listed are the worst of one entry for each pod shown that is not healthy and one for each bad row. */
  lemma UnhealthyAre(req: Request, items: seq<Item>, o: Orders) returns (ofPods: seq<Entry>, ofRows: seq<Entry>, all: seq<Entry>)
    requires Resources(items) && Possible(req, items, o)
    ensures Lists(ofPods, items, BadPods(req, items), ShowsPod(items))
    ensures Lists(ofRows, Project(req, o).workloads, IsBadRow, EntryOfRow)
    ensures multiset(all) == multiset(ofPods + ofRows) && forall i, j :: 0 <= i < j < |all| ==> EntryAhead(all[i], all[j])
    ensures IsStartOf(Project(req, o).unhealthy, all, req.unhealthyLimit)
  {
    var f := FindAll(req, items);
    PassesAgree(req, items, o);
    CutLists(req, o);
    PartsOfProjection(req, items, o);
    ofPods, ofRows, all := UnhealthyOf(req, items, o.second, Project(req, o).workloads, SummariesOf(req, f, PodsOf(req, f, o.second), o.workloads));
    FirstIsStart(all, req.unhealthyLimit);
  }
}
