/** What a screen's projection holds, told from the request and the resources alone, and that the projection
    computed is that one: figures, severities and issues of every row, which rows there are, and their order. */
module ScreenMeaning {
  import opened CatalogProtocol
  import opened Options
  import opened Ordering
  import opened ScreenModel
  import opened ScreenScope
  import opened ScreenFigures

  // ----- the state of a row -----

  /** The severity is the worst of the row's own and of the pods' among xs that satisfy p, or healthy when there is
      none; the issues are the row's own and the pods', each once, in alphabetical order. */
  ghost predicate StateOf(
      sev: Severity, issues: seq<Issue>, ownSev: set<Severity>, ownIssues: set<Issue>, xs: seq<Item>, p: Item -> bool)
  {
    && (forall s :: s in ownSev ==> NoWorse(s, sev))
    && (forall x :: x in xs && p(x) && x.body.PodBody? ==> NoWorse(x.body.severity, sev))
    && (sev == Severity.Healthy || sev in ownSev || exists x :: x in xs && p(x) && x.body.PodBody? && sev == x.body.severity)
    && Alphabetical(issues)
    && (forall i :: i in issues <==> i in ownIssues || exists x :: x in xs && p(x) && x.body.PodBody? && i in x.body.issues)
  }

  /** The state does not depend on how the same pods are listed and told. */
  lemma SameState(
      sev: Severity, issues: seq<Issue>, ownSev: set<Severity>, ownIssues: set<Issue>, xs: seq<Item>, p: Item -> bool,
      ys: seq<Item>, q: Item -> bool)
    requires StateOf(sev, issues, ownSev, ownIssues, xs, p)
    requires multiset(xs) == multiset(ys) && forall x :: x in xs ==> (p(x) <==> q(x))
    ensures StateOf(sev, issues, ownSev, ownIssues, ys, q)
  {
    SameCollection(xs, ys);
  }

  lemma PartsComeFrom(q: Item -> bool, xs: seq<Item>)
    ensures forall part :: part in PartsOf(q, xs) ==> exists x :: x in xs && q(x) && part == PodPart(x)
    ensures forall x :: x in xs && q(x) ==> PodPart(x) in PartsOf(q, xs)
  {
    FilterMembers(q, xs);
    var kept := Filter(q, xs);
    forall part | part in PartsOf(q, xs) ensures exists x :: x in xs && q(x) && part == PodPart(x) {
      var i :| 0 <= i < |kept| && PartsOf(q, xs)[i] == part;
      assert kept[i] in kept && PodPart(kept[i]) == part;
    }
    forall x | x in xs && q(x) ensures PodPart(x) in PartsOf(q, xs) {
      var i :| 0 <= i < |kept| && kept[i] == x;
      assert PartsOf(q, xs)[i] == PodPart(x);
    }
  }

  lemma RowPartsComeFrom(ws: seq<Summary>)
    ensures forall part :: part in Map(WorkloadPart, ws) ==> exists r :: r in ws && part == WorkloadPart(r)
    ensures forall r :: r in ws ==> WorkloadPart(r) in Map(WorkloadPart, ws)
  {
    forall r | r in ws ensures WorkloadPart(r) in Map(WorkloadPart, ws) {
      var i :| 0 <= i < |ws| && ws[i] == r;
      assert Map(WorkloadPart, ws)[i] == WorkloadPart(r);
    }
  }

  /** What a total starts with and the rows it takes in are the row's own. */
  ghost predicate OwnIs(t: Tally, ws: seq<Summary>, ownSev: set<Severity>, ownIssues: set<Issue>)
  {
    && NoRepeats(t.issues)
    && (forall s :: s in ownSev ==> NoWorse(s, t.severity) || exists r :: r in ws && r.severity == s)
    && (t.severity == Severity.Healthy || t.severity in ownSev) && (forall r :: r in ws ==> r.severity in ownSev)
    && (forall i :: i in ownIssues <==> i in t.issues || exists r :: r in ws && i in r.issues)
  }

  lemma MixedSeverity(
      t: Tally, q: Item -> bool, xs: seq<Item>, ws: seq<Summary>, ownSev: set<Severity>, ownIssues: set<Issue>, sev: Severity)
    requires OwnIs(t, ws, ownSev, ownIssues) && forall x :: x in xs && q(x) ==> x.body.PodBody?
    requires Worst(sev, t, PartsOf(q, xs) + Map(WorkloadPart, ws))
    ensures forall s :: s in ownSev ==> NoWorse(s, sev)
    ensures forall x :: x in xs && q(x) && x.body.PodBody? ==> NoWorse(x.body.severity, sev)
    ensures sev == Severity.Healthy || sev in ownSev || exists x :: x in xs && q(x) && x.body.PodBody? && sev == x.body.severity
  {
    var parts := PartsOf(q, xs) + Map(WorkloadPart, ws);
    PartsComeFrom(q, xs);
    RowPartsComeFrom(ws);
    forall x | x in xs && q(x) ensures NoWorse(x.body.severity, sev) {
      assert PodPart(x) in parts;
    }
    forall s | s in ownSev ensures NoWorse(s, sev) {
      if r :| r in ws && r.severity == s {
        assert WorkloadPart(r) in parts;
      } else {
        NoWorseIsRank(s, t.severity);
        NoWorseIsRank(t.severity, sev);
        NoWorseIsRank(s, sev);
      }
    }
  }

  lemma MixedIssues(
      t: Tally, q: Item -> bool, xs: seq<Item>, ws: seq<Summary>, ownSev: set<Severity>, ownIssues: set<Issue>, issues: seq<Issue>)
    requires OwnIs(t, ws, ownSev, ownIssues) && forall x :: x in xs && q(x) ==> x.body.PodBody?
    requires Union(issues, t, PartsOf(q, xs) + Map(WorkloadPart, ws))
    ensures forall i :: i in issues <==> i in ownIssues || exists x :: x in xs && q(x) && x.body.PodBody? && i in x.body.issues
  {
    var parts := PartsOf(q, xs) + Map(WorkloadPart, ws);
    PartsComeFrom(q, xs);
    RowPartsComeFrom(ws);
    forall i ensures i in issues <==> i in ownIssues || exists x :: x in xs && q(x) && x.body.PodBody? && i in x.body.issues {
      if x :| x in xs && q(x) && x.body.PodBody? && i in x.body.issues {
        assert PodPart(x) in parts;
      }
      if r :| r in ws && i in r.issues {
        assert WorkloadPart(r) in parts;
      }
    }
  }

  /** A settled total of pods and rows is in the state that they make. */
  lemma MixedState(t: Tally, q: Item -> bool, xs: seq<Item>, ws: seq<Summary>, ownSev: set<Severity>, ownIssues: set<Issue>)
    requires OwnIs(t, ws, ownSev, ownIssues) && forall x :: x in xs && q(x) ==> x.body.PodBody?
    ensures var r := Settled(Total(t, PartsOf(q, xs) + Map(WorkloadPart, ws)));
      StateOf(r.severity, r.issues, ownSev, ownIssues, xs, q)
  {
    var total := Total(t, PartsOf(q, xs) + Map(WorkloadPart, ws));
    TotalState(t, PartsOf(q, xs) + Map(WorkloadPart, ws));
    MixedSeverity(t, q, xs, ws, ownSev, ownIssues, total.severity);
    MixedIssues(t, q, xs, ws, ownSev, ownIssues, total.issues);
    SettledIsAlphabetical(total);
  }

  // ----- one workload -----

  /** What a workload is in by itself: critical when its rollout is stalled, or when it wants pods and none is ready;
      degraded when it wants more than are ready. */
  function OwnSeverities(w: Item): set<Severity>
    requires w.body.WorkloadBody?
  {
    (if w.body.stalled then {Severity.Critical} else {})
    + (if w.body.desired <= 0 || w.body.readyReplicas >= w.body.desired then {}
       else if w.body.readyReplicas == 0 then {Severity.Critical} else {Severity.Degraded})
  }

  function OwnIssues(w: Item): set<Issue>
    requires w.body.WorkloadBody?
  {
    (if w.body.stalled then {RolloutStalled} else {})
    + (if w.body.desired > 0 && w.body.readyReplicas < w.body.desired then {ReplicaMismatch} else {})
  }

  /** The pods of the screen, and those of them that belong to a workload. */
  ghost function ShownPods(req: Request, items: seq<Item>): Item -> bool
  {
    (x: Item) => PodShown(req, items, x)
  }

  ghost function PodsUnder(req: Request, items: seq<Item>, w: Item): Item -> bool
  {
    (x: Item) => PodShown(req, items, x) && BelongsTo(items, x, w)
  }

  /** The row of workload w: its own names and numbers, and the rollup of the pods shown that belong to it. */
  ghost predicate WorkloadRow(req: Request, items: seq<Item>, w: Item, row: Summary)
  {
    && w.body.WorkloadBody?
    && row.kind == w.kind && row.namespace == w.namespace && row.name == w.name && row.uid == w.uid
    && row.desired == w.body.desired && row.ready == w.body.readyReplicas && row.age == (if w.body.age > 0 then w.body.age else 0)
    && row.restarts == SumOf(RestartsOf(PodsUnder(req, items, w)), items)
    && row.cpuRequest == SumOf(CpuOf(PodsUnder(req, items, w)), items)
    && row.memoryRequest == SumOf(MemoryOf(PodsUnder(req, items, w)), items)
    && StateOf(row.severity, row.issues, OwnSeverities(w), OwnIssues(w), items, PodsUnder(req, items, w))
  }

  lemma {:induction false} FilterTwice(p: Item -> bool, q: Item -> bool, both: Item -> bool, s: seq<Item>)
    requires forall x :: x in s ==> (both(x) <==> p(x) && q(x))
    ensures Filter(p, Filter(q, s)) == Filter(both, s)
    decreases |s|
  {
    if s != [] {
      var before, last := s[..|s| - 1], s[|s| - 1];
      FilterTwice(p, q, both, before);
      assert last in s;
      if q(last) {
        assert Filter(q, s)[..|Filter(q, s)| - 1] == Filter(q, before);
      } else {
        assert Filter(q, s) == Filter(q, before);
      }
    }
  }

  lemma OwnTallyIs(w: Item)
    requires w.body.WorkloadBody?
    ensures OwnIs(OwnTally(w), [], OwnSeverities(w), OwnIssues(w)) && OwnTally(w).counts == NoCounts
  {
  }

  function Both(p: Item -> bool, q: Item -> bool): Item -> bool
  {
    (x: Item) => p(x) && q(x)
  }

  /** A rollup over pods of any one listing. */
  lemma RollupIs(w: Item, rs: map<string, Item>, included: Item -> bool, xs: seq<Item>)
    requires w.body.WorkloadBody? && forall x :: x in xs && included(x) ==> x.body.PodBody?
    ensures var r, q := Rollup(w, rs, Filter(included, xs)), Both(Owned(w, rs), included);
      PodFigures(r.counts, xs, q) && StateOf(r.severity, r.issues, OwnSeverities(w), OwnIssues(w), xs, q)
  {
    var q := Both(Owned(w, rs), included);
    FilterTwice(Owned(w, rs), included, q, xs);
    OwnTallyIs(w);
    TotalFigures(OwnTally(w), q, xs);
    MixedState(OwnTally(w), q, xs, [], OwnSeverities(w), OwnIssues(w));
    assert PartsOf(q, xs) + Map(WorkloadPart, []) == PartsOf(q, xs);
    TotalState(OwnTally(w), PartsOf(q, xs));
    SettledIsAlphabetical(Total(OwnTally(w), PartsOf(q, xs)));
  }

  /** The screen's own listing of its resources, whatever the order of the second pass. */
  lemma WorkloadRowIs(req: Request, items: seq<Item>, second: seq<Item>, w: Item)
    requires Unique(items) && PodsAreKindPod(items) && multiset(second) == multiset(items)
    requires ShowsOwners(req) && w.body.WorkloadBody?
    ensures var f := FindAll(req, items);
      WorkloadRow(req, items, w, Summarise(f.rs, PodsOf(req, f, second))(w))
  {
    var f := FindAll(req, items);
    var included, q, under := PodIncluded(req, f), Both(Owned(w, f.rs), PodIncluded(req, f)), PodsUnder(req, items, w);
    RollupIs(w, f.rs, included, second);
    forall x ensures q(x) <==> under(x) {
      ShownIff(req, items, x);
      OwnedIff(req, items, x, w);
    }
    var r := Rollup(w, f.rs, Filter(included, second));
    SameFigures(r.counts, q, under, second, items);
    SameState(r.severity, r.issues, OwnSeverities(w), OwnIssues(w), second, q, items, under);
  }

  // ----- one namespace -----

  /** The pods of the screen in one namespace. */
  ghost function PodsWithin(req: Request, items: seq<Item>, name: string): Item -> bool
  {
    (x: Item) => PodShown(req, items, x) && x.namespace == name
  }

  function RowIn(name: string): Summary -> bool
  {
    (r: Summary) => r.namespace == name
  }

  function BadRowIn(name: string): Summary -> bool
  {
    (r: Summary) => r.namespace == name && r.severity != Severity.Healthy
  }

  /** The row of a namespace: the figures of the pods shown in it, the number of workload rows in it and of those not
      healthy, and the rollup of both. */
  ghost predicate NamespaceIs(req: Request, items: seq<Item>, rows: seq<Summary>, n: NamespaceRow)
  {
    var t := n.tally;
    && PodFigures(t.counts, items, PodsWithin(req, items, n.name))
    && t.counts.workloads == Count(RowIn(n.name), rows) && t.counts.badWorkloads == Count(BadRowIn(n.name), rows)
    && StateOf(t.severity, t.issues, set r | r in rows && r.namespace == n.name :: r.severity,
               set r, i | r in rows && r.namespace == n.name && i in r.issues :: i, items, PodsWithin(req, items, n.name))
  }

  lemma {:induction false} TotalAppends(t: Tally, a: seq<Tally>, b: seq<Tally>)
    ensures Total(t, a + b) == Total(Total(t, a), b)
    decreases |b|
  {
    if b == [] {
      assert a + b == a;
    } else {
      TotalAppends(t, a, b[..|b| - 1]);
      assert (a + b)[..|a + b| - 1] == a + b[..|b| - 1];
    }
  }

  predicate BadRow(r: Summary)
  {
    r.severity != Severity.Healthy
  }

  /** Rows of workloads add to the numbers of workloads and to no other figure. */
  lemma {:induction false} RowsAddUp(t: Tally, ws: seq<Summary>)
    ensures var c := Total(t, Map(WorkloadPart, ws)).counts;
      c == t.counts.(workloads := t.counts.workloads + |ws|, badWorkloads := t.counts.badWorkloads + Count(BadRow, ws))
    decreases |ws|
  {
    if ws != [] {
      RowsAddUp(t, ws[..|ws| - 1]);
      assert Map(WorkloadPart, ws)[..|ws| - 1] == Map(WorkloadPart, ws[..|ws| - 1]);
    }
  }

  lemma FiguresIgnoreWorkloads(c: Counts, a: int, b: int, xs: seq<Item>, p: Item -> bool)
    requires PodFigures(c, xs, p)
    ensures PodFigures(c.(workloads := a, badWorkloads := b), xs, p)
  {
  }

  lemma NamespaceOwn(ws: seq<Summary>, rows: seq<Summary>, name: string)
    requires forall r :: r in ws <==> r in rows && r.namespace == name
    ensures OwnIs(EmptyTally, ws, set r | r in rows && r.namespace == name :: r.severity,
                  set r, i | r in rows && r.namespace == name && i in r.issues :: i)
  {
  }

  /** A namespace's total over pods of any one listing. */
  lemma NamespaceTotalIs(included: Item -> bool, xs: seq<Item>, rows: seq<Summary>, name: string)
    requires forall x :: x in xs && included(x) ==> x.body.PodBody?
    ensures var t, q := Settled(NamespaceTotal(Filter(included, xs), rows, name)), Both(PodIn(name), included);
      && PodFigures(t.counts, xs, q)
      && t.counts.workloads == Count(RowIn(name), rows) && t.counts.badWorkloads == Count(BadRowIn(name), rows)
      && StateOf(t.severity, t.issues, set r | r in rows && r.namespace == name :: r.severity,
                 set r, i | r in rows && r.namespace == name && i in r.issues :: i, xs, q)
  {
    var q, ws := Both(PodIn(name), included), Filter(WorkloadIn(name), rows);
    FilterTwice(PodIn(name), included, q, xs);
    FilterMembers(WorkloadIn(name), rows);
    NamespaceOwn(ws, rows, name);
    MixedState(EmptyTally, q, xs, ws, set r | r in rows && r.namespace == name :: r.severity,
               set r, i | r in rows && r.namespace == name && i in r.issues :: i);
    NamespaceFigures(included, xs, rows, name);
  }

  lemma NamespaceFigures(included: Item -> bool, xs: seq<Item>, rows: seq<Summary>, name: string)
    requires forall x :: x in xs && included(x) ==> x.body.PodBody?
    ensures var t, q := Settled(NamespaceTotal(Filter(included, xs), rows, name)), Both(PodIn(name), included);
      && PodFigures(t.counts, xs, q)
      && t.counts.workloads == Count(RowIn(name), rows) && t.counts.badWorkloads == Count(BadRowIn(name), rows)
  {
    var q, ws := Both(PodIn(name), included), Filter(WorkloadIn(name), rows);
    var pods := Total(EmptyTally, PartsOf(q, xs));
    FilterTwice(PodIn(name), included, q, xs);
    TotalFigures(EmptyTally, q, xs);
    TotalAppends(EmptyTally, PartsOf(q, xs), Map(WorkloadPart, ws));
    RowsAddUp(pods, ws);
    FiguresIgnoreWorkloads(pods.counts, |ws|, Count(BadRow, ws), xs, q);
    CountCounts(WorkloadIn(name), RowIn(name), rows);
    CountOfFiltered(BadRow, WorkloadIn(name), BadRowIn(name), rows);
  }

  lemma NamespaceRowIs(req: Request, items: seq<Item>, second: seq<Item>, rows: seq<Summary>, name: string)
    requires Unique(items) && PodsAreKindPod(items) && multiset(second) == multiset(items)
    ensures var f := FindAll(req, items);
      NamespaceIs(req, items, rows, NamespaceOf(PodsOf(req, f, second), rows)(name))
  {
    var f := FindAll(req, items);
    var included, q, within := PodIncluded(req, f), Both(PodIn(name), PodIncluded(req, f)), PodsWithin(req, items, name);
    NamespaceTotalIs(included, second, rows, name);
    forall x ensures q(x) <==> within(x) {
      ShownIff(req, items, x);
    }
    var t := Settled(NamespaceTotal(Filter(included, second), rows, name));
    SameFigures(t.counts, q, within, second, items);
    SameState(t.severity, t.issues, set r | r in rows && r.namespace == name :: r.severity,
              set r, i | r in rows && r.namespace == name && i in r.issues :: i, second, q, items, within);
  }
}
