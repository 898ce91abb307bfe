/** The one workload or pod that a screen is about: its pods, its chain of owners, and the ReplicaSets of a
    Deployment by revision. None of it depends on the orders in which the maps are iterated. */
module ScreenDetails {
  import opened CatalogProtocol
  import opened Options
  import opened Ordering
  import opened ScreenModel

  /** One pod in the list of a workload's pods. */
  datatype PodLine = PodLine(
    uid: string, namespace: string, name: string, workload: Option<OwnerRef>, owner: Option<OwnerRef>, phase: Phase,
    severity: Severity, restarts: int, issues: seq<Issue>, cpuRequest: int, memoryRequest: int)

  /** One owner in a chain, or one ReplicaSet of a Deployment. */
  datatype OwnerLine = OwnerLine(kind: Kind, name: string, uid: string, current: bool, pods: nat, revision: string)

  datatype WorkloadDetail = WorkloadDetail(summary: Summary, pods: seq<PodLine>, owners: seq<OwnerLine>)

  datatype PodDetail = PodDetail(pod: Item, summary: PodLine, owners: seq<OwnerLine>)

  function LastOf<T>(s: seq<T>): Option<T>
  {
    if s == [] then None else Some(s[|s| - 1])
  }

  // ----- what is asked for -----

  function TheWorkload(req: Request): Item -> bool
  {
    (x: Item) => Allows(req, x.namespace) && x.namespace == req.namespace && x.kind == req.kind && x.name == req.name
  }

  function ThePod(req: Request): Item -> bool
  {
    (p: Item) => p.namespace == req.namespace && p.name == req.name && (req.entityUID == "" || p.uid == req.entityUID)
  }

  // ----- the pods of a workload -----

  const NoPodLine := PodLine("", "", "", None, None, OtherPhase, Healthy, 0, [], 0, 0)

  function PodLineOf(rs: map<string, Item>): Item -> PodLine
  {
    (p: Item) =>
      if !p.body.PodBody? then NoPodLine
      else
        PodLine(p.uid, p.namespace, p.name, WorkloadOf(p.owners, rs), if p.owners == [] then None else Some(p.owners[0]),
                p.body.phase, p.body.severity, p.body.restarts, p.body.issues, p.body.cpuRequest, p.body.memoryRequest)
  }

  function PodLineKey(p: PodLine): SortKey
  {
    SortKey(Rank(p.severity), 0, [p.name, p.uid])
  }

  predicate PodLineAtMost(a: PodLine, b: PodLine) { KeyAtMost(PodLineKey(a), PodLineKey(b)) }

  function PodLinesOf(x: Item, rs: map<string, Item>, pods: seq<Item>): seq<PodLine>
  {
    Sort(Map(PodLineOf(rs), Filter(Owned(x, rs), pods)), PodLineAtMost)
  }

  // ----- owners -----

  /** The items whose first owner has this UID. */
  function FirstOwnerIs(uid: string): Item -> bool
  {
    (p: Item) => p.owners != [] && p.owners[0].uid == uid
  }

  function OwnersOf(p: Item, rs: map<string, Item>, pods: seq<Item>): seq<OwnerLine>
  {
    if p.owners == [] then []
    else
      var o := p.owners[0];
      var count := |Filter(FirstOwnerIs(o.uid), pods)|;
      if o.uid in rs && rs[o.uid].owners != [] then
        var top := rs[o.uid].owners[0];
        [OwnerLine(o.kind, o.name, o.uid, true, count, top.revision), OwnerLine(top.kind, top.name, top.uid, true, 0, "")]
      else [OwnerLine(o.kind, o.name, o.uid, true, count, o.revision)]
  }

  function SetLineOf(pods: seq<Item>): Item -> OwnerLine
  {
    (r: Item) => OwnerLine(ReplicaSet, r.name, r.uid, false, |Filter(FirstOwnerIs(r.uid), pods)|,
                           if r.owners == [] then "" else r.owners[0].revision)
  }

  /** The greater revision comes first. Revisions are compared as texts. */
  predicate OwnerLineAtMost(a: OwnerLine, b: OwnerLine)
  {
    if a.revision != b.revision then Less(b.revision, a.revision) else AtMost(a.uid, b.uid)
  }

  function MarkFirst(lines: seq<OwnerLine>): seq<OwnerLine>
  {
    if lines == [] then [] else [lines[0].(current := true)] + lines[1..]
  }

  /** The lines before they are marked. */
  function UnmarkedLines(x: Item, sets: seq<Item>, pods: seq<Item>): seq<OwnerLine>
  {
    Sort(Map(SetLineOf(pods), Filter(FirstOwnerIs(x.uid), sets)), OwnerLineAtMost)
  }

  function SetLinesOf(x: Item, sets: seq<Item>, pods: seq<Item>): seq<OwnerLine>
  {
    if !x.kind.Deployment? then []
    else MarkFirst(UnmarkedLines(x, sets, pods))
  }

  lemma LineOrdersAreTotal()
    ensures TotalOrder(PodLineAtMost) && TotalOrder(OwnerLineAtMost)
  {
    KeysAreOrdered();
    StringsAreOrdered();
    forall a, b ensures OwnerLineAtMost(a, b) || OwnerLineAtMost(b, a) {
      LessIsStrict(a.revision, b.revision);
    }
    forall a, b, c | OwnerLineAtMost(a, b) && OwnerLineAtMost(b, c) ensures OwnerLineAtMost(a, c) {
      LessIsStrict(a.revision, b.revision);
      LessIsStrict(b.revision, c.revision);
      if a.revision != b.revision && b.revision != c.revision {
        LessChains(c.revision, b.revision, a.revision);
        LessIsStrict(c.revision, a.revision);
      }
    }
  }

  // ----- the details of a screen -----

  function WorkloadDetailOf(
      req: Request, f: Found, pods: seq<Item>, workloads: seq<Item>, sets: seq<Item>): Option<WorkloadDetail>
  {
    var x := LastOf(Filter(TheWorkload(req), workloads));
    if x.None? then None
    else
      Some(WorkloadDetail(Summarise(f.rs, pods)(x.value), PodLinesOf(x.value, f.rs, pods), SetLinesOf(x.value, sets, pods)))
  }

  /** The last one of `seen` that is asked for; its owners are counted among all pods. */
  function PodDetailOf(req: Request, rs: map<string, Item>, seen: seq<Item>, pods: seq<Item>): Option<PodDetail>
  {
    var p := LastOf(Filter(ThePod(req), seen));
    if p.None? then None else Some(PodDetail(p.value, PodLineOf(rs)(p.value), OwnersOf(p.value, rs, pods)))
  }

  /** The UID the screen turned out to be about. A pod, when there is one, goes before a workload. */
  function Resolved(w: Option<WorkloadDetail>, p: Option<PodDetail>): string
  {
    if p.Some? then p.value.pod.uid else if w.Some? then w.value.summary.uid else ""
  }

  /** The row of the namespace asked for. */
  function NamedRow(name: string): NamespaceRow -> bool
  {
    (r: NamespaceRow) => r.name == name
  }

  // ----- iteration orders do not show -----

  /** Where all that satisfies p is the same, the last of it is the same in any order. */
  lemma LastForgetsOrder<T(!new)>(p: T -> bool, s: seq<T>, t: seq<T>)
    requires multiset(s) == multiset(t) && forall x, y :: x in s && y in s && p(x) && p(y) ==> x == y
    ensures LastOf(Filter(p, s)) == LastOf(Filter(p, t))
  {
    FilterPermutes(p, s, t);
    SameCollection(Filter(p, s), Filter(p, t));
    FilterMembers(p, s);
    if Filter(p, s) != [] {
      assert Filter(p, s)[|Filter(p, s)| - 1] in Filter(p, s) && Filter(p, t)[|Filter(p, t)| - 1] in Filter(p, t);
    }
  }

  predicate ArePods(pods: seq<Item>, items: seq<Item>)
  {
    forall p :: p in pods ==> p in items && p.body.PodBody?
  }

  predicate UidsDiffer(items: seq<Item>)
  {
    forall x, y :: x in items && y in items && x.uid == y.uid ==> x == y
  }

  lemma SameUidSamePod(p: Item, q: Item, pods: seq<Item>, items: seq<Item>)
    requires Unique(items) && ArePods(pods, items) && p in pods && q in pods && p.uid == q.uid
    ensures p == q
  {
  }

  lemma PodLinesTellApart(p: Item -> bool, rs: map<string, Item>, pods: seq<Item>, items: seq<Item>)
    requires Unique(items) && ArePods(pods, items)
    ensures Distinguishes(PodLineAtMost, Map(PodLineOf(rs), Filter(p, pods)))
  {
    KeysAreOrdered();
    FilterMembers(p, pods);
    var xs := Filter(p, pods);
    var lines := Map(PodLineOf(rs), xs);
    forall i, j | 0 <= i < |lines| && 0 <= j < |lines| && PodLineAtMost(lines[i], lines[j]) && PodLineAtMost(lines[j], lines[i])
      ensures lines[i] == lines[j]
    {
      assert PodLineKey(lines[i]).texts[1] == PodLineKey(lines[j]).texts[1];
      assert xs[i] in xs && xs[j] in xs;
      SameUidSamePod(xs[i], xs[j], pods, items);
    }
  }

  lemma PodLinesForgetOrder(x: Item, rs: map<string, Item>, pods: seq<Item>, pods': seq<Item>, items: seq<Item>)
    requires Unique(items) && ArePods(pods, items) && multiset(pods) == multiset(pods')
    ensures PodLinesOf(x, rs, pods) == PodLinesOf(x, rs, pods')
  {
    var own, own' := Filter(Owned(x, rs), pods), Filter(Owned(x, rs), pods');
    LineOrdersAreTotal();
    FilterPermutes(Owned(x, rs), pods, pods');
    MapPermutes(PodLineOf(rs), own, own');
    PodLinesTellApart(Owned(x, rs), rs, pods, items);
    SortForgetsOrder(Map(PodLineOf(rs), own), Map(PodLineOf(rs), own'), PodLineAtMost);
  }

  lemma OwnersForgetOrder(p: Item, rs: map<string, Item>, pods: seq<Item>, pods': seq<Item>)
    requires multiset(pods) == multiset(pods')
    ensures OwnersOf(p, rs, pods) == OwnersOf(p, rs, pods')
  {
    if p.owners != [] {
      CountForgetsOrder(FirstOwnerIs(p.owners[0].uid), pods, pods');
    }
  }

  lemma SetLinesTellApart(p: Item -> bool, sets: seq<Item>, pods: seq<Item>)
    requires UidsDiffer(sets)
    ensures Distinguishes(OwnerLineAtMost, Map(SetLineOf(pods), Filter(p, sets)))
  {
    FilterMembers(p, sets);
    var xs := Filter(p, sets);
    var lines := Map(SetLineOf(pods), xs);
    forall i, j | 0 <= i < |lines| && 0 <= j < |lines| && OwnerLineAtMost(lines[i], lines[j]) && OwnerLineAtMost(lines[j], lines[i])
      ensures lines[i] == lines[j]
    {
      LessIsStrict(lines[i].revision, lines[j].revision);
      LessIsStrict(lines[i].uid, lines[j].uid);
      assert xs[i] in xs && xs[j] in xs;
      assert xs[i].uid == xs[j].uid;
    }
  }

  lemma SetLinesForgetOrder(x: Item, sets: seq<Item>, sets': seq<Item>, pods: seq<Item>, pods': seq<Item>)
    requires UidsDiffer(sets) && multiset(sets) == multiset(sets') && multiset(pods) == multiset(pods')
    ensures SetLinesOf(x, sets, pods) == SetLinesOf(x, sets', pods')
  {
    var own, own' := Filter(FirstOwnerIs(x.uid), sets), Filter(FirstOwnerIs(x.uid), sets');
    LineOrdersAreTotal();
    FilterPermutes(FirstOwnerIs(x.uid), sets, sets');
    MapPermutes(SetLineOf(pods), own, own');
    forall r ensures SetLineOf(pods)(r) == SetLineOf(pods')(r) {
      CountForgetsOrder(FirstOwnerIs(r.uid), pods, pods');
    }
    assert Map(SetLineOf(pods), own') == Map(SetLineOf(pods'), own');
    SetLinesTellApart(FirstOwnerIs(x.uid), sets, pods);
    SortForgetsOrder(Map(SetLineOf(pods), own), Map(SetLineOf(pods'), own'), OwnerLineAtMost);
  }

  /** The workload asked for, with its pods and its ReplicaSets, is the same in any order of the resources, the
      workloads and the ReplicaSets. */
  lemma WorkloadDetailForgetsOrder(
      req: Request, items: seq<Item>, f: Found, pods: seq<Item>, pods': seq<Item>, workloads: seq<Item>, workloads': seq<Item>,
      sets: seq<Item>, sets': seq<Item>)
    requires Unique(items) && ArePods(pods, items) && FromItems(workloads, items) && UidsDiffer(sets)
    requires multiset(pods) == multiset(pods') && multiset(workloads) == multiset(workloads') && multiset(sets) == multiset(sets')
    ensures WorkloadDetailOf(req, f, pods, workloads, sets) == WorkloadDetailOf(req, f, pods', workloads', sets')
  {
    forall x, y | x in workloads && y in workloads && TheWorkload(req)(x) && TheWorkload(req)(y) ensures x == y {
      assert SameName(x, y);
    }
    LastForgetsOrder(TheWorkload(req), workloads, workloads');
    var x := LastOf(Filter(TheWorkload(req), workloads));
    if x.Some? {
      if x.value.body.WorkloadBody? {
        RollupForgetsOrder(x.value, f.rs, pods, pods');
      }
      PodLinesForgetOrder(x.value, f.rs, pods, pods', items);
      SetLinesForgetOrder(x.value, sets, sets', pods, pods');
    }
  }

  /** So is the pod asked for, with its owners. */
  lemma PodDetailForgetsOrder(req: Request, items: seq<Item>, rs: map<string, Item>, pods: seq<Item>, pods': seq<Item>)
    requires Unique(items) && PodsAreKindPod(items) && ArePods(pods, items) && multiset(pods) == multiset(pods')
    ensures PodDetailOf(req, rs, pods, pods) == PodDetailOf(req, rs, pods', pods')
  {
    forall p, q | p in pods && q in pods && ThePod(req)(p) && ThePod(req)(q) ensures p == q {
      assert SameName(p, q);
    }
    LastForgetsOrder(ThePod(req), pods, pods');
    var p := LastOf(Filter(ThePod(req), pods));
    if p.Some? {
      OwnersForgetOrder(p.value, rs, pods, pods');
    }
  }

  // ----- which ReplicaSet is marked current -----

  function Pow10(n: nat): nat
  {
    if n == 0 then 1 else 10 * Pow10(n - 1)
  }

  predicate Digits(s: string)
  {
    forall i :: 0 <= i < |s| ==> '0' <= s[i] <= '9'
  }

  /** A revision as Kubernetes writes it: a positive number in decimal digits. */
  predicate Decimal(s: string)
  {
    s != [] && Digits(s) && s[0] != '0'
  }

  function Digit(c: char): nat
    requires '0' <= c <= '9'
  {
    c as int - '0' as int
  }

  function Number(s: string): nat
    requires Digits(s)
  {
    if s == [] then 0 else Digit(s[0]) * Pow10(|s| - 1) + Number(s[1..])
  }

  lemma {:induction false} NumberIsBelow(s: string)
    requires Digits(s)
    ensures Number(s) < Pow10(|s|)
    decreases |s|
  {
    if s != [] {
      NumberIsBelow(s[1..]);
      DigitTimes(Digit(s[0]), 9, Pow10(|s| - 1));
    }
  }

  lemma DigitTimes(a: nat, b: nat, p: nat)
    requires a <= b
    ensures a * p <= b * p
  {
  }

  lemma HeadDecides(a: nat, b: nat, p: nat, x: nat, y: nat)
    requires a < b && x < p
    ensures a * p + x < b * p + y
  {
    DigitTimes(a + 1, b, p);
    assert (a + 1) * p == a * p + p;
  }

  lemma DecimalIsAtLeast(s: string)
    requires Decimal(s)
    ensures Number(s) >= Pow10(|s| - 1)
  {
    DigitTimes(1, Digit(s[0]), Pow10(|s| - 1));
  }

  lemma {:induction false} Pow10Grows(m: nat, n: nat)
    requires m <= n
    ensures Pow10(m) <= Pow10(n)
    decreases n
  {
    if m < n {
      Pow10Grows(m, n - 1);
    }
  }

  /** Numbers with as many digits are in the order of their texts. */
  lemma {:induction false} SameLengthOrder(s: string, t: string)
    requires Digits(s) && Digits(t) && |s| == |t|
    ensures Less(s, t) <==> Number(s) < Number(t)
    decreases |s|
  {
    if s != [] {
      var p := Pow10(|s| - 1);
      SameLengthOrder(s[1..], t[1..]);
      NumberIsBelow(s[1..]);
      NumberIsBelow(t[1..]);
      if s[0] < t[0] {
        HeadDecides(Digit(s[0]), Digit(t[0]), p, Number(s[1..]), Number(t[1..]));
      } else if t[0] < s[0] {
        HeadDecides(Digit(t[0]), Digit(s[0]), p, Number(t[1..]), Number(s[1..]));
      }
    }
  }

  /** A number with more digits is the larger one. */
  lemma LongerIsLarger(s: string, t: string)
    requires Decimal(s) && Decimal(t) && |s| < |t|
    ensures Number(s) < Number(t)
  {
    NumberIsBelow(s);
    DecimalIsAtLeast(t);
    Pow10Grows(|s|, |t| - 1);
  }

  /** The revisions of the ReplicaSets whose first owner is x. */
  function Revisions(x: Item, sets: seq<Item>): set<string>
  {
    set r | r in sets && FirstOwnerIs(x.uid)(r) :: r.owners[0].revision
  }

  predicate AllDecimal(revisions: set<string>)
  {
    forall r :: r in revisions ==> Decimal(r)
  }

  /** One revision is both as long as any and, as a text, not before any. */
  predicate OneLeads(revisions: set<string>)
  {
    exists top :: top in revisions && forall r :: r in revisions ==> |r| <= |top| && !Less(top, r)
  }

  predicate IsLatest(top: string, revisions: set<string>)
    requires AllDecimal(revisions) && Decimal(top)
  {
    forall r :: r in revisions ==> Number(r) <= Number(top)
  }

  /** The revision that comes last as a text is the latest exactly when it is the longest too. */
  lemma GreatestTextIsLatestIff(top: string, revisions: set<string>)
    requires AllDecimal(revisions) && top in revisions && forall r :: r in revisions ==> !Less(top, r)
    ensures IsLatest(top, revisions) <==> OneLeads(revisions)
  {
    forall r | r in revisions ensures Number(r) <= Number(top) <==> |r| <= |top| {
      if |r| > |top| {
        LongerIsLarger(top, r);
      } else if |r| < |top| {
        LongerIsLarger(r, top);
      } else {
        SameLengthOrder(top, r);
      }
    }
    if OneLeads(revisions) {
      var lead :| lead in revisions && forall r :: r in revisions ==> |r| <= |lead| && !Less(lead, r);
      LessIsStrict(lead, top);
    }
  }

  predicate FirstIsCurrent(lines: seq<OwnerLine>)
  {
    forall i :: 0 <= i < |lines| ==> (lines[i].current <==> i == 0)
  }

  lemma MarkFirstMarks(lines: seq<OwnerLine>)
    requires forall l :: l in lines ==> !l.current
    ensures FirstIsCurrent(MarkFirst(lines)) && |MarkFirst(lines)| == |lines|
    ensures lines != [] ==> MarkFirst(lines)[0].revision == lines[0].revision
  {
    forall i | 0 <= i < |lines| ensures MarkFirst(lines)[i].current <==> i == 0 {
      assert lines[i] in lines;
    }
  }

  lemma UnmarkedAreSorted(x: Item, sets: seq<Item>, pods: seq<Item>)
    ensures Sorted(UnmarkedLines(x, sets, pods), OwnerLineAtMost)
    ensures forall l :: l in UnmarkedLines(x, sets, pods) <==> l in Map(SetLineOf(pods), Filter(FirstOwnerIs(x.uid), sets))
  {
    var unsorted := Map(SetLineOf(pods), Filter(FirstOwnerIs(x.uid), sets));
    LineOrdersAreTotal();
    SortSorts(unsorted, OwnerLineAtMost);
    SameCollection(UnmarkedLines(x, sets, pods), unsorted);
  }

  /** The revisions listed are those of the ReplicaSets. */
  lemma LinesHaveTheRevisions(x: Item, sets: seq<Item>, pods: seq<Item>)
    ensures forall l :: l in UnmarkedLines(x, sets, pods) ==> l.revision in Revisions(x, sets) && !l.current
    ensures forall r :: r in Revisions(x, sets) ==> exists l :: l in UnmarkedLines(x, sets, pods) && l.revision == r
  {
    var own := Filter(FirstOwnerIs(x.uid), sets);
    var unsorted := Map(SetLineOf(pods), own);
    FilterMembers(FirstOwnerIs(x.uid), sets);
    UnmarkedAreSorted(x, sets, pods);
    forall l | l in unsorted ensures l.revision in Revisions(x, sets) && !l.current {
      var k :| 0 <= k < |unsorted| && unsorted[k] == l;
      assert own[k] in own;
    }
    forall r | r in Revisions(x, sets) ensures exists l :: l in unsorted && l.revision == r {
      var s :| s in sets && FirstOwnerIs(x.uid)(s) && s.owners[0].revision == r;
      var k :| 0 <= k < |own| && own[k] == s;
      assert unsorted[k] in unsorted;
    }
  }

  lemma FirstIsGreatestText(lines: seq<OwnerLine>, l: OwnerLine)
    requires Sorted(lines, OwnerLineAtMost) && l in lines
    ensures !Less(lines[0].revision, l.revision)
  {
    LessIsStrict(lines[0].revision, l.revision);
  }

  /** The first line listed has the revision that comes last as a text. */
  lemma FirstHasTheGreatestText(x: Item, sets: seq<Item>, pods: seq<Item>)
    requires x.kind.Deployment? && Revisions(x, sets) != {}
    ensures var lines := SetLinesOf(x, sets, pods);
      && lines != [] && FirstIsCurrent(lines) && lines[0].revision in Revisions(x, sets)
      && forall r :: r in Revisions(x, sets) ==> !Less(lines[0].revision, r)
  {
    var sorted := UnmarkedLines(x, sets, pods);
    UnmarkedAreSorted(x, sets, pods);
    LinesHaveTheRevisions(x, sets, pods);
    MarkFirstMarks(sorted);
    forall r | r in Revisions(x, sets) ensures sorted != [] && !Less(sorted[0].revision, r) {
      var l :| l in sorted && l.revision == r;
      FirstIsGreatestText(sorted, l);
    }
    assert sorted != [] && sorted[0] in sorted;
  }

  /** Of the ReplicaSets of a Deployment the first one listed, and no other, is marked current. It is the one of
      the latest revision exactly when one of their revisions is both the longest and the last as a text: of 9
      and 10 neither is. */
  lemma CurrentIsLatestIff(x: Item, sets: seq<Item>, pods: seq<Item>)
    requires x.kind.Deployment? && Revisions(x, sets) != {} && AllDecimal(Revisions(x, sets))
    ensures var lines := SetLinesOf(x, sets, pods);
      && lines != [] && FirstIsCurrent(lines) && lines[0].revision in Revisions(x, sets)
      && (IsLatest(lines[0].revision, Revisions(x, sets)) <==> OneLeads(Revisions(x, sets)))
  {
    FirstHasTheGreatestText(x, sets, pods);
    GreatestTextIsLatestIff(SetLinesOf(x, sets, pods)[0].revision, Revisions(x, sets));
  }

  /** Two ReplicaSets of a Deployment that come in order already. */
  lemma SetLinesOfTwo(x: Item, a: Item, b: Item, pods: seq<Item>)
    requires x.kind.Deployment? && FirstOwnerIs(x.uid)(a) && FirstOwnerIs(x.uid)(b)
    requires OwnerLineAtMost(SetLineOf(pods)(a), SetLineOf(pods)(b))
    ensures SetLinesOf(x, [a, b], pods) == [SetLineOf(pods)(a).(current := true), SetLineOf(pods)(b)]
  {
    BothKept(FirstOwnerIs(x.uid), a, b);
    assert Map(SetLineOf(pods), [a, b]) == [SetLineOf(pods)(a), SetLineOf(pods)(b)];
    InOrderAlready(SetLineOf(pods)(a), SetLineOf(pods)(b));
  }

  const WebDeployment := Item(Deployment, "d", "n", "web", [], NoBody)
  const NinthSet := Item(ReplicaSet, "a", "n", "web-a", [OwnerRef(Deployment, "d", "web", "9")], NoBody)
  const TenthSet := Item(ReplicaSet, "b", "n", "web-b", [OwnerRef(Deployment, "d", "web", "10")], NoBody)

  /** The tenth revision is not marked: two ReplicaSets of one Deployment, of revisions 9 and 10, of which none
      leads the other. */
  lemma TenthRevisionIsNotCurrent(pods: seq<Item>)
    ensures var lines := SetLinesOf(WebDeployment, [NinthSet, TenthSet], pods);
      && |lines| == 2 && lines[0].uid == "a" && lines[0].current && lines[1].uid == "b" && !lines[1].current
    ensures Revisions(WebDeployment, [NinthSet, TenthSet]) == {"9", "10"}
    ensures AllDecimal({"9", "10"}) && !OneLeads({"9", "10"})
  {
    NineAndTenDoNotLead();
    SetLinesOfTwo(WebDeployment, NinthSet, TenthSet, pods);
    RevisionsOfTwo(WebDeployment, NinthSet, TenthSet);
  }

  lemma RevisionsOfTwo(x: Item, a: Item, b: Item)
    requires FirstOwnerIs(x.uid)(a) && FirstOwnerIs(x.uid)(b)
    ensures Revisions(x, [a, b]) == {a.owners[0].revision, b.owners[0].revision}
  {
    assert a in [a, b] && b in [a, b];
    assert a.owners[0].revision in Revisions(x, [a, b]) && b.owners[0].revision in Revisions(x, [a, b]);
  }

  lemma NineAndTenDoNotLead()
    ensures Less("10", "9") && AllDecimal({"9", "10"}) && !OneLeads({"9", "10"})
  {
    var nine, ten := "9", "10";
    assert nine[0] == '9' && ten[0] == '1' && |nine| < |ten| && Less(ten, nine);
    assert nine in {"9", "10"} && ten in {"9", "10"};
  }

  lemma BothKept(p: Item -> bool, x: Item, y: Item)
    requires p(x) && p(y)
    ensures Filter(p, [x, y]) == [x, y]
  {
    assert [x, y][..1] == [x] && [x][..0] == [];
    assert Filter(p, [x]) == Filter(p, []) + [x];
  }

  lemma InOrderAlready(a: OwnerLine, b: OwnerLine)
    requires OwnerLineAtMost(a, b)
    ensures Sort([a, b], OwnerLineAtMost) == [a, b]
  {
    assert [a, b][1..] == [b] && [b][1..] == [];
    assert Sort([b], OwnerLineAtMost) == [b];
  }
}
