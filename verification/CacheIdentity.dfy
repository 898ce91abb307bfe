/** The canonical form under which a response is cached: clusters sorted by ID, namespaces sorted, parameters
    sorted by name. The key is a digest of its encoding, so it is treated as the canonical value itself. */
module CacheIdentity {
  import opened Ordering

  // ----- values -----

  datatype Cluster = Cluster(id: string, all: bool, namespaces: seq<string>)

  datatype Param = Param(name: string, values: seq<string>)

  datatype Header = Header(
    dashboard: string, queryRef: string, topologyEditor: bool, range: string, from: string, to: string, stepSeconds: int)

  datatype Identity = Identity(header: Header, clusters: seq<Cluster>, params: seq<Param>)

  predicate ClusterAtMost(a: Cluster, b: Cluster)
  {
    AtMost(a.id, b.id)
  }

  predicate ParamAtMost(a: Param, b: Param)
  {
    AtMost(a.name, b.name)
  }

  function Tidy(c: Cluster): Cluster
  {
    c.(namespaces := Sort(c.namespaces, AtMost))
  }

  function Canonical(i: Identity): Identity
  {
    Identity(i.header, Sort(Map(Tidy, i.clusters), ClusterAtMost), Sort(i.params, ParamAtMost))
  }

  predicate DistinctIds(clusters: seq<Cluster>)
  {
    forall j, k :: 0 <= j < |clusters| && 0 <= k < |clusters| && clusters[j].id == clusters[k].id ==> j == k
  }

  predicate DistinctNames(params: seq<Param>)
  {
    forall j, k :: 0 <= j < |params| && 0 <= k < |params| && params[j].name == params[k].name ==> j == k
  }

  predicate Distinct(i: Identity)
  {
    DistinctIds(i.clusters) && DistinctNames(i.params)
  }

  // ----- what order means -----

  /** A cluster, without the order of its namespaces. */
  datatype Unordered = Unordered(id: string, all: bool, namespaces: multiset<string>)

  ghost function Forget(c: Cluster): Unordered
  {
    Unordered(c.id, c.all, multiset(c.namespaces))
  }

  /** The two identities differ at most in the order of clusters, of each cluster's namespaces, and of
      parameters. */
  ghost predicate SameUpToOrder(a: Identity, b: Identity)
  {
    && a.header == b.header && multiset(a.params) == multiset(b.params)
    && multiset(Map(Forget, a.clusters)) == multiset(Map(Forget, b.clusters))
  }

  lemma OrdersAreTotal()
    ensures TotalOrder(AtMost) && TotalOrder(ClusterAtMost) && TotalOrder(ParamAtMost)
  {
    StringsAreOrdered();
  }

  /** Tidying a cluster keeps all but the order of its namespaces, and depends on nothing else. */
  lemma TidyForgets(a: Cluster, b: Cluster)
    ensures Forget(Tidy(a)) == Forget(a)
    ensures Forget(a) == Forget(b) <==> Tidy(a) == Tidy(b)
  {
    StringsAreOrdered();
    SortSorts(a.namespaces, AtMost);
    SortSorts(b.namespaces, AtMost);
    if Forget(a) == Forget(b) {
      assert Distinguishes(AtMost, a.namespaces);
      SortForgetsOrder(a.namespaces, b.namespaces, AtMost);
    }
  }

  lemma DistinctClusters(clusters: seq<Cluster>)
    requires DistinctIds(clusters)
    ensures Distinguishes(ClusterAtMost, Map(Tidy, clusters))
  {
    StringsAreOrdered();
    var tidied := Map(Tidy, clusters);
    forall j, k | 0 <= j < |tidied| && 0 <= k < |tidied| && ClusterAtMost(tidied[j], tidied[k]) && ClusterAtMost(tidied[k], tidied[j])
      ensures tidied[j] == tidied[k]
    {
      assert clusters[j].id == clusters[k].id;
    }
  }

  lemma DistinctParams(params: seq<Param>)
    requires DistinctNames(params)
    ensures Distinguishes(ParamAtMost, params)
  {
    StringsAreOrdered();
    forall j, k | 0 <= j < |params| && 0 <= k < |params| && ParamAtMost(params[j], params[k]) && ParamAtMost(params[k], params[j])
      ensures params[j] == params[k]
    {
      assert params[j].name == params[k].name;
    }
  }

  lemma ClustersAgreeIff(a: seq<Cluster>, b: seq<Cluster>)
    requires DistinctIds(a) && DistinctIds(b)
    ensures Sort(Map(Tidy, a), ClusterAtMost) == Sort(Map(Tidy, b), ClusterAtMost) <==>
            multiset(Map(Forget, a)) == multiset(Map(Forget, b))
  {
    OrdersAreTotal();
    forall x, y ensures Forget(x) == Forget(y) <==> Tidy(x) == Tidy(y) {
      TidyForgets(x, y);
    }
    if multiset(Map(Forget, a)) == multiset(Map(Forget, b)) {
      MapsAgree(a, b, Forget, Tidy);
      DistinctClusters(a);
      SortForgetsOrder(Map(Tidy, a), Map(Tidy, b), ClusterAtMost);
    }
    if Sort(Map(Tidy, a), ClusterAtMost) == Sort(Map(Tidy, b), ClusterAtMost) {
      SortSorts(Map(Tidy, a), ClusterAtMost);
      SortSorts(Map(Tidy, b), ClusterAtMost);
      MapsAgree(a, b, Tidy, Forget);
    }
  }

  lemma ParamsAgreeIff(a: seq<Param>, b: seq<Param>)
    requires DistinctNames(a)
    ensures Sort(a, ParamAtMost) == Sort(b, ParamAtMost) <==> multiset(a) == multiset(b)
  {
    OrdersAreTotal();
    SortSorts(a, ParamAtMost);
    SortSorts(b, ParamAtMost);
    if multiset(a) == multiset(b) {
      DistinctParams(a);
      SortForgetsOrder(a, b, ParamAtMost);
    }
  }

  /** With distinct cluster IDs and distinct parameter names, two identities share a canonical form exactly
      when they differ only in order. */
  lemma CanonicalIffSameUpToOrder(a: Identity, b: Identity)
    requires Distinct(a) && Distinct(b)
    ensures Canonical(a) == Canonical(b) <==> SameUpToOrder(a, b)
  {
    ClustersAgreeIff(a.clusters, b.clusters);
    ParamsAgreeIff(a.params, b.params);
  }

  lemma ForgetAfterTidy(clusters: seq<Cluster>)
    ensures Map(Forget, Map(Tidy, clusters)) == Map(Forget, clusters)
  {
    forall k | 0 <= k < |clusters| ensures Forget(Tidy(clusters[k])) == Forget(clusters[k]) {
      TidyForgets(clusters[k], clusters[k]);
    }
  }

  function IdOf(c: Cluster): string
  {
    c.id
  }

  function NameOf(p: Param): string
  {
    p.name
  }

  function ItselfOf(s: string): string
  {
    s
  }

  // ----- as computed -----

  /** The caller's value holds its lists by reference. */
  datatype ClusterRef = ClusterRef(id: string, all: bool, namespaces: array<string>)

  function RefIdOf(c: ClusterRef): string
  {
    c.id
  }

  datatype IdentityRef = IdentityRef(header: Header, clusters: array<ClusterRef>, params: array<Param>)

  function ViewOf(c: ClusterRef): Cluster
    reads c.namespaces
  {
    Cluster(c.id, c.all, c.namespaces[..])
  }

  function Views(s: seq<ClusterRef>): (r: seq<Cluster>)
    reads set c | c in s :: c.namespaces
    ensures |r| == |s| && forall k :: 0 <= k < |s| ==> r[k] == ViewOf(s[k])
  {
    seq(|s|, k requires 0 <= k < |s| reads set c | c in s :: c.namespaces => ViewOf(s[k]))
  }

  function View(i: IdentityRef): Identity
    reads i.clusters, i.params, set c | c in i.clusters[..] :: c.namespaces
  {
    Identity(i.header, Views(i.clusters[..]), i.params[..])
  }

  method CopyOf<T>(a: array<T>) returns (b: array<T>)
    ensures fresh(b) && b[..] == a[..]
  {
    b := new T[a.Length](k requires 0 <= k < a.Length reads a => a[k]);
  }

  /** A copy of the list of clusters, each with a namespace list of its own. */
  method CopyClusters(a: array<ClusterRef>) returns (b: array<ClusterRef>)
    ensures fresh(b) && (forall c :: c in b[..] ==> fresh(c.namespaces))
    ensures Views(b[..]) == Views(a[..])
  {
    b := CopyOf(a);
    for n := 0 to b.Length
      invariant fresh(b) && b.Length == a.Length && a[..] == old(a[..])
      invariant forall k :: 0 <= k < n ==> fresh(b[k].namespaces) && ViewOf(b[k]) == ViewOf(a[k])
      invariant forall k :: n <= k < b.Length ==> b[k] == a[k]
    {
      var own := CopyOf(b[n].namespaces);
      b[n] := b[n].(namespaces := own);
    }
    assert Views(b[..]) == Views(a[..]);
  }

  /** Sorting references to clusters sorts the clusters. */
  lemma {:induction false} ViewsPermute(s: seq<ClusterRef>, t: seq<ClusterRef>)
    requires multiset(s) == multiset(t)
    ensures multiset(Views(s)) == multiset(Views(t))
    decreases |s|
  {
    SameCollection(s, t);
    if s != [] {
      var x := s[0];
      assert x in multiset(t);
      var j :| 0 <= j < |t| && t[j] == x;
      RemovedOne(s, 0);
      RemovedOne(t, j);
      ViewsPermute(Removed(s, 0), Removed(t, j));
      ViewsRemoved(s, 0);
      ViewsRemoved(t, j);
      RemovedOne(Views(s), 0);
      RemovedOne(Views(t), j);
    }
  }

  lemma ViewsRemoved(s: seq<ClusterRef>, i: nat)
    requires i < |s|
    ensures Views(Removed(s, i)) == Removed(Views(s), i)
  {
    var rest, views := Removed(s, i), Views(s);
    assert |Views(rest)| == |s| - 1 == |Removed(views, i)|;
    forall k | 0 <= k < |s| - 1 ensures Views(rest)[k] == Removed(views, i)[k] {
      RemovedAt(s, i, k);
      RemovedAt(views, i, k);
      assert Views(rest)[k] == ViewOf(rest[k]);
    }
  }

  lemma SortedIsTidy(c: Cluster, c': Cluster)
    requires c'.id == c.id && c'.all == c.all && multiset(c'.namespaces) == multiset(c.namespaces)
    requires Sorted(c'.namespaces, AtMost)
    ensures c' == Tidy(c)
  {
    StringsAreOrdered();
    SortSorts(c.namespaces, AtMost);
    SortedIsUnique(c'.namespaces, Sort(c.namespaces, AtMost), AtMost);
  }

  lemma TidyAll(was: seq<Cluster>, now_: seq<Cluster>)
    requires |was| == |now_|
    requires forall k :: 0 <= k < |was| ==>
      && now_[k].id == was[k].id && now_[k].all == was[k].all
      && multiset(now_[k].namespaces) == multiset(was[k].namespaces) && Sorted(now_[k].namespaces, AtMost)
    ensures now_ == Map(Tidy, was)
  {
    forall k | 0 <= k < |was| ensures now_[k] == Tidy(was[k]) {
      SortedIsTidy(was[k], now_[k]);
    }
  }

  /** Sorts the namespaces of every cluster in the list, each in its own list. Lists shared between clusters
      would only be sorted again. */
  method SortNamespaces(clusters: array<ClusterRef>)
    modifies set c | c in clusters[..] :: c.namespaces
    ensures clusters[..] == old(clusters[..])
    ensures Views(clusters[..]) == Map(Tidy, old(Views(clusters[..])))
  {
    StringsAreOrdered();
    for n := 0 to clusters.Length
      invariant clusters[..] == old(clusters[..])
      invariant forall k :: 0 <= k < clusters.Length ==>
        multiset(clusters[k].namespaces[..]) == multiset(old(clusters[k].namespaces[..]))
      invariant forall k :: 0 <= k < n ==> Sorted(clusters[k].namespaces[..], AtMost)
    {
      SortArray(clusters[n].namespaces, ItselfOf, AtMost);
    }
    TidyAll(old(Views(clusters[..])), Views(clusters[..]));
  }

  /** What sorting leaves is an arrangement of the identity, and with distinct IDs and names it is the
      canonical one. */
  lemma ArrangedIsCanonical(i: Identity, clusters: seq<Cluster>, params: seq<Param>)
    requires multiset(clusters) == multiset(i.clusters) && SortedBy(clusters, IdOf, AtMost)
    requires multiset(params) == multiset(i.params) && SortedBy(params, NameOf, AtMost)
    ensures SameUpToOrder(Identity(i.header, Map(Tidy, clusters), params), i)
    ensures Distinct(i) ==> Identity(i.header, Map(Tidy, clusters), params) == Canonical(i)
  {
    OrdersAreTotal();
    ForgetAfterTidy(clusters);
    MapPermutes(Forget, clusters, i.clusters);
    MapPermutes(Tidy, clusters, i.clusters);
    if Distinct(i) {
      ArrangedIsSorted(i, clusters, params);
    }
  }

  lemma ArrangedIsSorted(i: Identity, clusters: seq<Cluster>, params: seq<Param>)
    requires Distinct(i) && SortedBy(clusters, IdOf, AtMost) && SortedBy(params, NameOf, AtMost)
    requires multiset(Map(Tidy, clusters)) == multiset(Map(Tidy, i.clusters)) && multiset(params) == multiset(i.params)
    ensures Map(Tidy, clusters) == Sort(Map(Tidy, i.clusters), ClusterAtMost) && params == Sort(i.params, ParamAtMost)
  {
    OrdersAreTotal();
    var tidied := Map(Tidy, clusters);
    forall j, k | 0 <= j < k < |tidied| ensures ClusterAtMost(tidied[j], tidied[k]) {
      assert AtMost(clusters[j].id, clusters[k].id);
    }
    SortSorts(Map(Tidy, i.clusters), ClusterAtMost);
    SortSorts(i.params, ParamAtMost);
    DistinctClusters(i.clusters);
    DistinctParams(i.params);
    SameElementsDistinguished(tidied, Map(Tidy, i.clusters), ClusterAtMost);
    SameElementsDistinguished(params, i.params, ParamAtMost);
    SortedIsUnique(tidied, Sort(Map(Tidy, i.clusters), ClusterAtMost), ClusterAtMost);
    SortedIsUnique(params, Sort(i.params, ParamAtMost), ParamAtMost);
  }

  /** Sorts references by ID; the lists they refer to stay as they are. */
  method SortByID(clusters: array<ClusterRef>)
    modifies clusters
    ensures SortedBy(Views(clusters[..]), IdOf, AtMost)
    ensures multiset(Views(clusters[..])) == multiset(old(Views(clusters[..])))
    ensures forall c :: c in clusters[..] <==> c in old(clusters[..])
  {
    StringsAreOrdered();
    ghost var before, views := clusters[..], Views(clusters[..]);
    SortArray(clusters, RefIdOf, AtMost);
    assert Views(before) == views;
    ViewsPermute(before, clusters[..]);
    SameCollection(before, clusters[..]);
    ViewsSorted(clusters[..]);
  }

  lemma ViewsSorted(s: seq<ClusterRef>)
    requires SortedBy(s, RefIdOf, AtMost)
    ensures SortedBy(Views(s), IdOf, AtMost)
  {
    var views := Views(s);
    forall j, k | 0 <= j < k < |views| ensures AtMost(views[j].id, views[k].id) {
      assert views[j].id == s[j].id && views[k].id == s[k].id;
    }
  }

  /** Sorts the list, and then each cluster's namespaces. */
  method Arrange(clusters: array<ClusterRef>) returns (ghost arranged: seq<Cluster>)
    modifies clusters, set c | c in clusters[..] :: c.namespaces
    ensures multiset(arranged) == multiset(old(Views(clusters[..]))) && SortedBy(arranged, IdOf, AtMost)
    ensures Views(clusters[..]) == Map(Tidy, arranged)
  {
    SortByID(clusters);
    arranged := Views(clusters[..]);
    SortNamespaces(clusters);
  }

  /** The clusters of the caller's list, in canonical order, on copies. */
  method CanonicalClusters(a: array<ClusterRef>, ghost views: seq<Cluster>)
    returns (tidied: seq<Cluster>, ghost arranged: seq<Cluster>)
    requires views == Views(a[..])
    ensures tidied == Map(Tidy, arranged) && multiset(arranged) == multiset(views)
    ensures SortedBy(arranged, IdOf, AtMost)
  {
    var clusters := CopyClusters(a);
    arranged := Arrange(clusters);
    tidied := Views(clusters[..]);
  }

  method CanonicalParams(a: array<Param>) returns (sorted: seq<Param>)
    ensures multiset(sorted) == multiset(a[..]) && SortedBy(sorted, NameOf, AtMost)
  {
    StringsAreOrdered();
    var params := CopyOf(a);
    SortArray(params, NameOf, AtMost);
    sorted := params[..];
  }

  /** The canonical value of an identity, computed on copies: nothing the caller can see is modified. */
  method Key(i: IdentityRef) returns (canon: Identity)
    ensures SameUpToOrder(canon, View(i))
    ensures Distinct(View(i)) ==> canon == Canonical(View(i))
  {
    var clusters, arranged := CanonicalClusters(i.clusters, Views(i.clusters[..]));
    var params := CanonicalParams(i.params);
    canon := Identity(i.header, clusters, params);
    ArrangedIsCanonical(View(i), arranged, params);
  }
}
