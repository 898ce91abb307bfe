/** One sync session of the agent: a snapshot, then each new projection diffed against the last one
    and sent as numbered deltas; and what the registry holds after receiving those frames. */
module AgentSync {
  import opened CatalogProtocol
  import opened Options
  import opened CatalogConvergence
  import opened AgentChunks

  const MaxUInt64: UInt64 := 0xffff_ffff_ffff_ffff

  /** A projected resource: its key, and everything else as one encoded value. */
  datatype Projected = Projected(key: Key, body: string)

  type Projection = map<Key, Projected>

  datatype AgentFrame =
    | Begin(epoch: UInt64, baseSeq: UInt64)
    | Chunk(resources: seq<Projected>)
    | Commit(epoch: UInt64)
    | DeltaOf(epoch: UInt64, seq_: UInt64, resource: Projected, deleted: bool)
    | Beat(epoch: UInt64, seq_: UInt64)

  // ----- indexing a projection -----

  /** Adds rs to m in order; a later resource replaces an earlier one with the same key. */
  function PutAll(m: Projection, rs: seq<Projected>): Projection
  {
    if rs == [] then m else PutAll(m, rs[..|rs| - 1])[rs[|rs| - 1].key := rs[|rs| - 1]]
  }

  function IndexOf(rs: seq<Projected>): Projection
  {
    PutAll(map[], rs)
  }

  lemma {:induction false} PutAllAppends(m: Projection, a: seq<Projected>, b: seq<Projected>)
    ensures PutAll(m, a + b) == PutAll(PutAll(m, a), b)
    decreases |b|
  {
    if b == [] {
      assert a + b == a;
    } else {
      PutAllAppends(m, a, b[..|b| - 1]);
      assert (a + b)[..|a + b| - 1] == a + b[..|b| - 1];
    }
  }

  predicate LastWith(rs: seq<Projected>, i: int, k: Key)
  {
    0 <= i < |rs| && rs[i].key == k && forall j :: i < j < |rs| ==> rs[j].key != k
  }

  /** The index holds each key that occurs, with the last resource that has it, and nothing else. */
  lemma {:induction false} IndexKeepsTheLast(rs: seq<Projected>, k: Key)
    ensures k in IndexOf(rs) ==> exists i :: LastWith(rs, i, k) && IndexOf(rs)[k] == rs[i]
    ensures k !in IndexOf(rs) ==> forall i :: 0 <= i < |rs| ==> rs[i].key != k
    decreases |rs|
  {
    if rs != [] {
      var last, prefix := |rs| - 1, rs[..|rs| - 1];
      IndexKeepsTheLast(prefix, k);
      if rs[last].key == k {
        assert LastWith(rs, last, k);
      } else if k in IndexOf(rs) {
        var i :| LastWith(prefix, i, k) && IndexOf(prefix)[k] == prefix[i];
        assert LastWith(rs, i, k);
      }
    }
  }

  predicate Keyed(m: Projection)
  {
    forall k :: k in m ==> m[k].key == k
  }

  lemma IndexIsKeyed(rs: seq<Projected>)
    ensures Keyed(IndexOf(rs))
  {
    forall k | k in IndexOf(rs) ensures IndexOf(rs)[k].key == k {
      IndexKeepsTheLast(rs, k);
    }
  }

  method Index(rs: seq<Projected>) returns (m: Projection)
    ensures m == IndexOf(rs)
  {
    m := map[];
    for i := 0 to |rs|
      invariant m == IndexOf(rs[..i])
    {
      assert rs[..i + 1][..i] == rs[..i];
      m := m[rs[i].key := rs[i]];
    }
    assert rs[..|rs|] == rs;
  }

  // ----- the registry's side -----

  datatype Held = Held(epoch: UInt64, seq_: UInt64, resources: Projection)

  datatype Registry = Registry(live: Option<Held>, staging: Option<Held>)

  /** What the registry does with one frame of the open session; None when it refuses it. Its limits and
      its parking of deltas during a snapshot, which this agent never causes, are not part of the model. */
  function Receive(r: Registry, f: AgentFrame): Option<Registry>
  {
    match f
    case Begin(epoch, baseSeq) =>
      if epoch == 0 then None else Some(r.(staging := Some(Held(epoch, baseSeq, map[]))))
    case Chunk(resources) =>
      if r.staging.None? then None
      else Some(r.(staging := Some(r.staging.value.(resources := PutAll(r.staging.value.resources, resources)))))
    case Commit(epoch) =>
      if r.staging.None? || r.staging.value.epoch != epoch || (r.live.Some? && epoch <= r.live.value.epoch) then None
      else Some(Registry(r.staging, None))
    case DeltaOf(epoch, n, x, deleted) =>
      if r.staging.Some? || r.live.None? || r.live.value.epoch != epoch then None
      else if n <= r.live.value.seq_ then Some(r)
      else if n != r.live.value.seq_ + 1 then None
      else
        var m := r.live.value.resources;
        Some(r.(live := Some(Held(epoch, n, if deleted then m - {x.key} else m[x.key := x]))))
    case Beat(epoch, n) =>
      if r.live.None? || r.live.value.epoch != epoch || r.live.value.seq_ != n then None else Some(r)
  }

  /** The registry's rule: a snapshot opens under any epoch but 0 and is published only over an older one; a delta is for
      the epoch served while no snapshot is open, and one heard before changes nothing, the next one a single key, and
      any other is refused; a heartbeat names what is served. */
  lemma ReceiveAnswer(r: Registry, f: AgentFrame)
    ensures f.Begin? ==> (Receive(r, f).Some? <==> f.epoch >= 1)
    ensures f.Chunk? ==> (Receive(r, f).Some? <==> r.staging.Some?)
    ensures f.Commit? ==>
      (Receive(r, f) == (if r.staging.Some? && r.staging.value.epoch == f.epoch && (r.live.Some? ==> r.live.value.epoch < f.epoch)
                         then Some(Registry(r.staging, None)) else None))
    ensures f.DeltaOf? ==>
      var heard := r.staging.None? && r.live.Some? && r.live.value.epoch == f.epoch;
      if heard && f.seq_ < r.live.value.seq_ + 1 then Receive(r, f) == Some(r)
      else if heard && f.seq_ == r.live.value.seq_ + 1 then
        && Receive(r, f).Some? && Receive(r, f).value.live.Some? && Receive(r, f).value.live.value.seq_ == f.seq_
        && forall k :: k != f.resource.key ==>
             (k in Receive(r, f).value.live.value.resources <==> k in r.live.value.resources)
      else Receive(r, f) == None
    ensures f.Beat? ==>
      Receive(r, f) == if r.live.Some? && r.live.value.epoch == f.epoch && r.live.value.seq_ == f.seq_ then Some(r) else None
  {
  }

  function ReceiveAll(r: Registry, frames: seq<AgentFrame>): Option<Registry>
  {
    if frames == [] then Some(r)
    else
      var before := ReceiveAll(r, frames[..|frames| - 1]);
      if before.None? then None else Receive(before.value, frames[|frames| - 1])
  }

  lemma ReceiveSnoc(r: Registry, frames: seq<AgentFrame>, f: AgentFrame)
    ensures ReceiveAll(r, frames + [f]) ==
            var before := ReceiveAll(r, frames); if before.None? then None else Receive(before.value, f)
  {
    assert (frames + [f])[..|frames|] == frames;
  }

  /** A refused frame ends the session, so an accepted session has had every frame accepted. */
  lemma {:induction false} PrefixesAreAccepted(r: Registry, frames: seq<AgentFrame>, n: nat)
    requires n <= |frames| && ReceiveAll(r, frames).Some?
    ensures ReceiveAll(r, frames[..n]).Some?
    decreases |frames|
  {
    if n < |frames| {
      var shorter := frames[..|frames| - 1];
      PrefixesAreAccepted(r, shorter, n);
      assert shorter[..n] == frames[..n];
    } else {
      assert frames[..n] == frames;
    }
  }

  /** The keys at which two projections differ. */
  function Differs(a: Projection, b: Projection): set<Key>
  {
    (set k | k in a && (k !in b || a[k] != b[k])) + (set k | k in b && k !in a)
  }

  lemma DifferencesChain(a: Projection, b: Projection, c: Projection)
    ensures |Differs(a, c)| <= |Differs(a, b)| + |Differs(b, c)|
  {
    SubsetIsNoBigger(Differs(a, c), Differs(a, b) + Differs(b, c));
  }

  /** One frame that is no part of a snapshot changes at most one key. */
  lemma OneFrameOneKey(live: Held, r: Registry, f: AgentFrame)
    requires r.live == Some(live) && (f.DeltaOf? || f.Beat?) && Receive(r, f).Some?
    ensures Receive(r, f).value.live.Some?
    ensures |Differs(live.resources, Receive(r, f).value.live.value.resources)| <= 1
  {
    var next := Receive(r, f).value.live.value.resources;
    SubsetIsNoBigger(Differs(live.resources, next), if f.DeltaOf? then {f.resource.key} else {});
  }

  /** No stream of deltas and beats takes the registry from one map to another with fewer frames than there
      are keys to change. */
  lemma {:induction false} EveryDifferenceNeedsAFrame(r: Registry, frames: seq<AgentFrame>)
    requires ReceiveAll(r, frames).Some? && r.live.Some?
    requires forall i :: 0 <= i < |frames| ==> frames[i].DeltaOf? || frames[i].Beat?
    ensures ReceiveAll(r, frames).value.live.Some?
    ensures |Differs(r.live.value.resources, ReceiveAll(r, frames).value.live.value.resources)| <= |frames|
    decreases |frames|
  {
    var a := r.live.value.resources;
    if frames == [] {
      assert Differs(a, a) == {};
    } else {
      var shorter, f := frames[..|frames| - 1], frames[|frames| - 1];
      EveryDifferenceNeedsAFrame(r, shorter);
      var before := ReceiveAll(r, shorter).value;
      OneFrameOneKey(before.live.value, before, f);
      DifferencesChain(a, before.live.value.resources, Receive(before, f).value.live.value.resources);
    }
  }

  lemma {:induction false} SubsetIsNoBigger<T>(a: set<T>, b: set<T>)
    requires a <= b
    ensures |a| <= |b|
  {
    assert b == a + (b - a);
  }

  // ----- the agent's side -----

  function LastSeen(first: seq<Projected>, events: seq<Option<seq<Projected>>>): seq<Projected>
  {
    if events == [] then first
    else if events[|events| - 1].Some? then events[|events| - 1].value
    else LastSeen(first, events[..|events| - 1])
  }

  /** The registry has accepted every frame sent and now serves m under number n. Numbers are 64-bit;
      a session cannot use them up before it has sent 2^64 frames. */
  ghost predicate Tracks(registry: Registry, epoch: UInt64, sent: seq<AgentFrame>, n: UInt64, m: Projection)
  {
    |sent| <= MaxUInt64 ==>
      n < |sent| && ReceiveAll(registry, sent) == Some(Registry(Some(Held(epoch, n, m)), None))
  }

  /** The number k deltas after n. */
  function After(n: UInt64, k: nat): UInt64
  {
    (n + k) % 0x1_0000_0000_0000_0000
  }

  lemma AfterNext(n: UInt64, k: nat)
    ensures After(After(n, k), 1) == After(n, k + 1)
  {
  }

  lemma DeltaTracks(registry: Registry, epoch: UInt64, sent: seq<AgentFrame>, n: UInt64, m: Projection, x: Projected, deleted: bool)
    requires Tracks(registry, epoch, sent, n, m)
    ensures Tracks(registry, epoch, sent + [DeltaOf(epoch, After(n, 1), x, deleted)], After(n, 1),
                   if deleted then m - {x.key} else m[x.key := x])
  {
    ReceiveSnoc(registry, sent, DeltaOf(epoch, After(n, 1), x, deleted));
  }

  // ----- telling a change -----

  /** What one change notice has to tell: how to get from a to b in deltas numbered on from n, each of at most
      `max` bytes. */
  datatype Diff = Diff(epoch: UInt64, n: UInt64, a: Projection, b: Projection, size: AgentFrame -> nat, max: int)

  /** The j-th delta, when it is about key k. */
  function DeltaFor(d: Diff, k: Key, j: nat): AgentFrame
    requires k in Differs(d.a, d.b)
  {
    if k in d.b then DeltaOf(d.epoch, After(d.n, j), d.b[k], false) else DeltaOf(d.epoch, After(d.n, j), d.a[k], true)
  }

  predicate AllDiffer(d: Diff, keys: seq<Key>)
  {
    forall i :: 0 <= i < |keys| ==> keys[i] in Differs(d.a, d.b)
  }

  /** The deltas that tell what becomes of these keys, one after another. */
  function DeltasFor(d: Diff, keys: seq<Key>): seq<AgentFrame>
    requires AllDiffer(d, keys)
  {
    seq(|keys|, i requires 0 <= i < |keys| => DeltaFor(d, keys[i], i + 1))
  }

  /** The orders in which the last projection and the new one are iterated. */
  datatype Orders = Orders(last: seq<Key>, next: seq<Key>)

  /** Each of the keys once, and nothing else. */
  ghost predicate IsOrderOf(order: seq<Key>, keys: set<Key>)
  {
    && (forall i, j :: 0 <= i < j < |order| ==> order[i] != order[j])
    && forall k :: k in order <==> k in keys
  }

  ghost predicate Lists(o: Orders, d: Diff)
  {
    IsOrderOf(o.last, d.a.Keys) && IsOrderOf(o.next, d.b.Keys)
  }

  function Gone(d: Diff): set<Key>
  {
    d.a.Keys - d.b.Keys
  }

  function Fresh(d: Diff): set<Key>
  {
    Differs(d.a, d.b) - Gone(d)
  }

  /** Those of the keys that are wanted, in the order in which they are met. */
  function Met(wanted: set<Key>, order: seq<Key>): (met: seq<Key>)
    ensures forall i :: 0 <= i < |met| ==> met[i] in wanted
  {
    if order == [] then []
    else
      var k := order[|order| - 1];
      Met(wanted, order[..|order| - 1]) + if k in wanted then [k] else []
  }

  /** The keys to tell, as they are met: first those that are gone, then those that are new or different. */
  function Agenda(d: Diff, o: Orders): (keys: seq<Key>)
    ensures AllDiffer(d, keys)
  {
    Met(Gone(d), o.last) + Met(Fresh(d), o.next)
  }

  lemma {:induction false} MetAppends(wanted: set<Key>, s: seq<Key>, t: seq<Key>)
    ensures Met(wanted, s + t) == Met(wanted, s) + Met(wanted, t)
    decreases |t|
  {
    if t == [] {
      assert s + t == s;
    } else {
      MetAppends(wanted, s, t[..|t| - 1]);
      assert (s + t)[..|s + t| - 1] == s + t[..|t| - 1];
    }
  }

  /** Without its last key. */
  lemma OneLess(order: seq<Key>, keys: set<Key>)
    requires order != [] && IsOrderOf(order, keys)
    ensures var k := order[|order| - 1]; k in keys && IsOrderOf(order[..|order| - 1], keys - {k})
  {
    assert order == order[..|order| - 1] + [order[|order| - 1]];
  }

  lemma OneMore(keys: set<Key>, k: Key, order: seq<Key>)
    requires IsOrderOf(order, keys - {k})
    ensures IsOrderOf(if k in keys then order + [k] else order, keys)
  {
  }

  lemma {:induction false} EachIsMetOnce(wanted: set<Key>, all: set<Key>, order: seq<Key>)
    requires IsOrderOf(order, all)
    ensures IsOrderOf(Met(wanted, order), wanted * all)
    decreases |order|
  {
    if order != [] {
      var before, k := order[..|order| - 1], order[|order| - 1];
      OneLess(order, all);
      EachIsMetOnce(wanted, all - {k}, before);
      assert wanted * (all - {k}) == wanted * all - {k};
      OneMore(wanted * all, k, Met(wanted, before));
    }
  }

  lemma {:induction false} OrderLength(order: seq<Key>, keys: set<Key>)
    requires IsOrderOf(order, keys)
    ensures |order| == |keys|
    decreases |order|
  {
    if order == [] {
      assert keys == {};
    } else {
      var last, k := |order| - 1, order[|order| - 1];
      assert order == order[..last] + [k];
      OrderLength(order[..last], keys - {k});
    }
  }

  lemma WantedAreMet(wanted: set<Key>, all: set<Key>, order: seq<Key>)
    requires IsOrderOf(order, all) && wanted <= all
    ensures IsOrderOf(Met(wanted, order), wanted) && |Met(wanted, order)| == |wanted|
  {
    EachIsMetOnce(wanted, all, order);
    assert wanted * all == wanted;
    OrderLength(Met(wanted, order), wanted);
  }

  lemma GoneOrFresh(d: Diff, k: Key)
    ensures k in Gone(d) <==> k in d.a && k !in d.b
    ensures k in Fresh(d) <==> k in d.b && (k !in d.a || d.a[k] != d.b[k])
    ensures k in Differs(d.a, d.b) <==> k in Gone(d) || k in Fresh(d)
  {
  }

  lemma DifferencesSplit(d: Diff)
    ensures Gone(d) <= d.a.Keys && Fresh(d) <= d.b.Keys && Gone(d) !! Fresh(d) && Gone(d) + Fresh(d) == Differs(d.a, d.b)
  {
  }

  /** Whatever the orders, every key that differs is met once, and no other is. */
  lemma AgendaIsTheDifference(d: Diff, o: Orders)
    requires Lists(o, d)
    ensures IsOrderOf(Agenda(d, o), Differs(d.a, d.b))
  {
    DifferencesSplit(d);
    WantedAreMet(Gone(d), d.a.Keys, o.last);
    WantedAreMet(Fresh(d), d.b.Keys, o.next);
    Joined(Met(Gone(d), o.last), Met(Fresh(d), o.next), Gone(d), Fresh(d));
  }

  lemma GoneAreMet(d: Diff, o: Orders)
    requires Lists(o, d)
    ensures |Met(Gone(d), o.last)| == |Gone(d)|
  {
    WantedAreMet(Gone(d), d.a.Keys, o.last);
  }

  lemma Joined(s: seq<Key>, t: seq<Key>, a: set<Key>, b: set<Key>)
    requires IsOrderOf(s, a) && IsOrderOf(t, b) && a !! b
    ensures IsOrderOf(s + t, a + b)
  {
    forall i, j | 0 <= i < j < |s + t| ensures (s + t)[i] != (s + t)[j] {
      assert i < |s| <= j ==> s[i] in a && t[j - |s|] in b;
    }
  }

  lemma DeltaAt(d: Diff, keys: seq<Key>, i: nat)
    requires AllDiffer(d, keys) && i < |keys|
    ensures DeltasFor(d, keys)[i] == DeltaFor(d, keys[i], i + 1)
  {
  }

  /** The delta for a key says what becomes of it. */
  lemma DeltaTells(d: Diff, k: Key, j: nat)
    requires Keyed(d.a) && Keyed(d.b) && k in Differs(d.a, d.b)
    ensures var f := DeltaFor(d, k, j);
      && f.epoch == d.epoch && f.seq_ == After(d.n, j) && f.resource.key == k
      && if f.deleted then k in d.a && k !in d.b else k in d.b && f.resource == d.b[k]
  {
  }

  /** The deltas are as many as the keys that differ, tell nothing else, and are numbered without a gap. */
  lemma TellsNothingElse(d: Diff, keys: seq<Key>, i: nat)
    requires Keyed(d.a) && Keyed(d.b) && IsOrderOf(keys, Differs(d.a, d.b))
    ensures |DeltasFor(d, keys)| == |Differs(d.a, d.b)|
    ensures i < |Differs(d.a, d.b)| ==>
      var f := DeltasFor(d, keys)[i];
      && f.DeltaOf? && f.epoch == d.epoch && f.seq_ == After(d.n, i + 1) && f.resource.key in Differs(d.a, d.b)
      && if f.deleted then f.resource.key !in d.b else f.resource.key in d.b && f.resource == d.b[f.resource.key]
  {
    OrderLength(keys, Differs(d.a, d.b));
    if i < |keys| {
      DeltaAt(d, keys, i);
      DeltaTells(d, keys[i], i + 1);
    }
  }

  /** The deltas tell every key that differs, and none twice. */
  lemma TellsEachOnce(d: Diff, keys: seq<Key>, k: Key) returns (i: nat)
    requires Keyed(d.a) && Keyed(d.b) && IsOrderOf(keys, Differs(d.a, d.b)) && k in Differs(d.a, d.b)
    ensures var fs := DeltasFor(d, keys);
      && i < |fs| && fs[i].DeltaOf? && fs[i].resource.key == k
      && forall j :: 0 <= j < |fs| && j != i ==> fs[j].DeltaOf? && fs[j].resource.key != k
  {
    i :| 0 <= i < |keys| && keys[i] == k;
    forall j | 0 <= j < |keys|
      ensures DeltasFor(d, keys)[j].DeltaOf? && DeltasFor(d, keys)[j].resource.key == keys[j]
    {
      DeltaAt(d, keys, j);
      DeltaTells(d, keys[j], j + 1);
    }
  }

  // ----- how far a change has got -----

  /** a, except that the keys in `keys` are as in b. */
  function Mixed(a: Projection, b: Projection, keys: seq<Key>): Projection
  {
    map k | k in a.Keys + b.Keys && (if k in keys then k in b else k in a) :: if k in keys then b[k] else a[k]
  }

  lemma MixedEnds(a: Projection, b: Projection, keys: seq<Key>)
    requires IsOrderOf(keys, Differs(a, b))
    ensures Mixed(a, b, []) == a && Mixed(a, b, keys) == b
  {
  }

  lemma MixedOneMore(a: Projection, b: Projection, keys: seq<Key>, k: Key)
    requires k in Differs(a, b)
    ensures Mixed(a, b, keys + [k]) == if k in b then Mixed(a, b, keys)[k := b[k]] else Mixed(a, b, keys) - {k}
  {
  }

  /** The deltas for these keys, after the frames of `before`, have taken the registry so far. */
  ghost predicate Told(registry: Registry, before: seq<AgentFrame>, d: Diff, keys: seq<Key>)
  {
    && AllDiffer(d, keys)
    && Tracks(registry, d.epoch, before + DeltasFor(d, keys), After(d.n, |keys|), Mixed(d.a, d.b, keys))
  }

  lemma DeltasForSnoc(d: Diff, keys: seq<Key>, k: Key)
    requires AllDiffer(d, keys) && k in Differs(d.a, d.b)
    ensures AllDiffer(d, keys + [k]) && DeltasFor(d, keys + [k]) == DeltasFor(d, keys) + [DeltaFor(d, k, |keys| + 1)]
  {
  }

  lemma TellOne(registry: Registry, before: seq<AgentFrame>, d: Diff, keys: seq<Key>, k: Key)
    requires Keyed(d.a) && Keyed(d.b) && k in Differs(d.a, d.b) && Told(registry, before, d, keys)
    ensures Told(registry, before, d, keys + [k])
  {
    var f := DeltaFor(d, k, |keys| + 1);
    AfterNext(d.n, |keys|);
    MixedOneMore(d.a, d.b, keys, k);
    DeltasForSnoc(d, keys, k);
    DeltaTracks(registry, d.epoch, before + DeltasFor(d, keys), After(d.n, |keys|), Mixed(d.a, d.b, keys), f.resource, f.deleted);
    assert before + (DeltasFor(d, keys) + [f]) == before + DeltasFor(d, keys) + [f];
  }

  // ----- frames that are too large -----

  function ChunkSize(size: AgentFrame -> nat): seq<Projected> -> nat
  {
    (rs: seq<Projected>) => size(Chunk(rs))
  }

  /** The delta for key k is small enough to be sent as the j-th. */
  predicate Fits(d: Diff, k: Key, j: nat)
    requires k in Differs(d.a, d.b)
  {
    d.size(DeltaFor(d, k, j)) <= d.max
  }

  predicate AllFit(d: Diff, keys: seq<Key>)
    requires AllDiffer(d, keys)
  {
    forall i :: 0 <= i < |keys| ==> Fits(d, keys[i], i + 1)
  }

  /** How many of the keys are told before a delta is too large. */
  function Reach(d: Diff, keys: seq<Key>): (m: nat)
    requires AllDiffer(d, keys)
    ensures m <= |keys|
  {
    if keys == [] then 0
    else
      var last := |keys| - 1;
      var before := Reach(d, keys[..last]);
      if before == last && Fits(d, keys[last], |keys|) then |keys| else before
  }

  /** The first m keys are told exactly when the deltas for all of them fit. */
  lemma {:induction false} ReachIff(d: Diff, keys: seq<Key>, m: nat)
    requires AllDiffer(d, keys) && m <= |keys|
    ensures m <= Reach(d, keys) <==> AllFit(d, keys[..m])
    decreases |keys|
  {
    if keys != [] {
      var last := |keys| - 1;
      if m <= last {
        ReachIff(d, keys[..last], m);
        assert keys[..last][..m] == keys[..m];
      } else {
        ReachIff(d, keys[..last], last);
        assert keys[..m] == keys && keys[..last][..last] == keys[..last];
      }
    }
  }

  lemma ReachIsAll(d: Diff, keys: seq<Key>)
    requires AllDiffer(d, keys)
    ensures Reach(d, keys) == |keys| <==> AllFit(d, keys)
  {
    ReachIff(d, keys, |keys|);
    assert keys[..|keys|] == keys;
  }

  /** It goes as far as the first delta that does not fit. */
  lemma ReachEnds(d: Diff, keys: seq<Key>, k: Key, rest: seq<Key>)
    requires AllDiffer(d, keys) && AllFit(d, keys) && k in Differs(d.a, d.b) && !Fits(d, k, |keys| + 1)
    requires AllDiffer(d, keys + [k] + rest)
    ensures Reach(d, keys + [k] + rest) == |keys| && (keys + [k] + rest)[..|keys|] == keys
  {
    var all := keys + [k] + rest;
    assert all[..|keys|] == keys && all[..|keys| + 1][|keys|] == k;
    ReachIff(d, all, |keys|);
    ReachIff(d, all, |keys| + 1);
  }

  /** What comes later does not matter once a delta does not fit. */
  lemma StopsEarly(d: Diff, keys: seq<Key>, rest: seq<Key>)
    requires AllDiffer(d, keys) && AllDiffer(d, rest) && !AllFit(d, keys)
    ensures Reach(d, keys + rest) == Reach(d, keys) && !AllFit(d, keys + rest)
    ensures (keys + rest)[..Reach(d, keys)] == keys[..Reach(d, keys)]
  {
    var m := Reach(d, keys);
    ReachIsAll(d, keys);
    ReachIff(d, keys, m);
    ReachIff(d, keys, m + 1);
    assert (keys + rest)[..m] == keys[..m] && (keys + rest)[..m + 1] == keys[..m + 1];
    ReachIff(d, keys + rest, m);
    ReachIff(d, keys + rest, m + 1);
    ReachIsAll(d, keys + rest);
  }

  lemma MetOneMore(before: seq<Key>, wanted: set<Key>, order: seq<Key>, i: nat, keys: seq<Key>)
    requires i < |order| && keys == before + Met(wanted, order[..i])
    ensures before + Met(wanted, order[..i + 1]) == if order[i] in wanted then keys + [order[i]] else keys
  {
    assert order[..i + 1][..i] == order[..i];
  }

  lemma MetAround(before: seq<Key>, wanted: set<Key>, order: seq<Key>, i: nat, keys: seq<Key>)
    requires i < |order| && order[i] in wanted && keys == before + Met(wanted, order[..i])
    ensures before + Met(wanted, order) == keys + [order[i]] + Met(wanted, order[i + 1..])
  {
    MetOneMore(before, wanted, order, i, keys);
    MetAppends(wanted, order[..i + 1], order[i + 1..]);
    assert order == order[..i + 1] + order[i + 1..];
  }

  /** Where it ends when the delta for the i-th key in the order of iteration is too large. */
  lemma EndsAt(d: Diff, wanted: set<Key>, order: seq<Key>, i: nat, before: seq<Key>, keys: seq<Key>)
    requires wanted <= Differs(d.a, d.b) && i < |order| && order[i] in wanted && AllDiffer(d, before)
    requires keys == before + Met(wanted, order[..i]) && AllDiffer(d, keys) && AllFit(d, keys)
    requires !Fits(d, order[i], |keys| + 1)
    ensures var all := before + Met(wanted, order);
      AllDiffer(d, all) && Reach(d, all) == |keys| < |all| && all[..|keys|] == keys
  {
    MetAround(before, wanted, order, i, keys);
    ReachEnds(d, keys, order[i], Met(wanted, order[i + 1..]));
  }

  /** The encoding of a delta does not get shorter when its number gets larger. */
  ghost predicate NeverShrinks(d: Diff)
  {
    forall k, i: nat, j: nat :: k in Differs(d.a, d.b) && i <= j <= |Differs(d.a, d.b)| ==>
      d.size(DeltaFor(d, k, i)) <= d.size(DeltaFor(d, k, j))
  }

  lemma OrderOf(keys: set<Key>) returns (order: seq<Key>)
    ensures IsOrderOf(order, keys)
    decreases keys
  {
    order := [];
    if keys != {} {
      var k :| k in keys;
      order := OrderOf(keys - {k});
      order := order + [k];
    }
  }

  /** The last place among the deltas that the one for key k may get: after all other deletions if it deletes,
      after all other deltas if not. */
  function LastPlace(d: Diff, k: Key): nat
  {
    if k in Gone(d) then |Gone(d)| else |Differs(d.a, d.b)|
  }

  lemma PlaceInAgenda(d: Diff, o: Orders, i: nat)
    requires Lists(o, d) && i < |Agenda(d, o)|
    ensures i + 1 <= LastPlace(d, Agenda(d, o)[i]) <= |Differs(d.a, d.b)|
  {
    AgendaIsTheDifference(d, o);
    OrderLength(Agenda(d, o), Differs(d.a, d.b));
    GoneAreMet(d, o);
    SubsetIsNoBigger(Gone(d), Differs(d.a, d.b));
  }

  lemma LastIsMetLast(wanted: set<Key>, order: seq<Key>, k: Key)
    requires k in wanted
    ensures Met(wanted, order + [k]) == Met(wanted, order) + [k]
  {
    assert (order + [k])[..|order|] == order;
  }

  lemma OrdersEndingIn(d: Diff, k: Key) returns (o: Orders, last: seq<Key>, next: seq<Key>)
    ensures Lists(o, d) && o.last == (if k in d.a then last + [k] else last) && o.next == if k in d.b then next + [k] else next
  {
    last := OrderOf(d.a.Keys - {k});
    next := OrderOf(d.b.Keys - {k});
    OneMore(d.a.Keys, k, last);
    OneMore(d.b.Keys, k, next);
    o := Orders(if k in d.a then last + [k] else last, if k in d.b then next + [k] else next);
  }

  lemma LastOfGone(d: Diff, o: Orders, last: seq<Key>, k: Key)
    requires Lists(o, d) && o.last == last + [k] && k in Gone(d)
    ensures 0 < |Gone(d)| <= |Agenda(d, o)| && Agenda(d, o)[|Gone(d)| - 1] == k
  {
    GoneAreMet(d, o);
    LastIsMetLast(Gone(d), last, k);
  }

  lemma LastOfFresh(d: Diff, o: Orders, next: seq<Key>, k: Key)
    requires Lists(o, d) && o.next == next + [k] && k in Fresh(d)
    ensures 0 < |Differs(d.a, d.b)| == |Agenda(d, o)| && Agenda(d, o)[|Agenda(d, o)| - 1] == k
  {
    AgendaIsTheDifference(d, o);
    OrderLength(Agenda(d, o), Differs(d.a, d.b));
    LastIsMetLast(Fresh(d), next, k);
  }

  /** Some orders put the delta for key k there. */
  lemma SomeOrdersPutLast(d: Diff, k: Key) returns (o: Orders)
    requires k in Differs(d.a, d.b)
    ensures Lists(o, d) && 0 < LastPlace(d, k) <= |Agenda(d, o)| && Agenda(d, o)[LastPlace(d, k) - 1] == k
  {
    var last, next;
    o, last, next := OrdersEndingIn(d, k);
    GoneOrFresh(d, k);
    if k in Gone(d) {
      LastOfGone(d, o, last, k);
    } else {
      LastOfFresh(d, o, next, k);
    }
  }

  ghost predicate FitsAnywhere(d: Diff)
  {
    forall k :: k in Differs(d.a, d.b) ==> Fits(d, k, LastPlace(d, k))
  }

  lemma FitsInAgenda(d: Diff, o: Orders)
    requires NeverShrinks(d) && FitsAnywhere(d) && Lists(o, d)
    ensures AllFit(d, Agenda(d, o))
  {
    var keys := Agenda(d, o);
    forall i | 0 <= i < |keys| ensures Fits(d, keys[i], i + 1) {
      PlaceInAgenda(d, o, i);
      assert Fits(d, keys[i], LastPlace(d, keys[i]));
    }
  }

  /** A change is told to its end, whatever the orders of iteration, exactly when each delta fits in the last
      place it may get. */
  lemma EveryOrderFitsIff(d: Diff)
    requires NeverShrinks(d)
    ensures (forall o :: Lists(o, d) ==> AllFit(d, Agenda(d, o))) <==> FitsAnywhere(d)
  {
    if FitsAnywhere(d) {
      forall o | Lists(o, d) ensures AllFit(d, Agenda(d, o)) {
        FitsInAgenda(d, o);
      }
    }
    if forall o :: Lists(o, d) ==> AllFit(d, Agenda(d, o)) {
      forall k | k in Differs(d.a, d.b) ensures Fits(d, k, LastPlace(d, k)) {
        var o := SomeOrdersPutLast(d, k);
        assert Fits(d, Agenda(d, o)[LastPlace(d, k) - 1], LastPlace(d, k) - 1 + 1);
      }
    }
  }

  class Session {
    const epoch: UInt64
    const registry: Registry             // what the registry held when the session opened
    const size: AgentFrame -> nat        // the encoded size of a frame
    const max: int
    const maxCount: int
    var seq_: UInt64
    var current: Projection
    var sent: seq<AgentFrame>

    /** The registry serves the last projection sent. */
    ghost predicate Mirrored()
      reads this
    {
      Keyed(current) && Tracks(registry, epoch, sent, seq_, current)
    }

    /** A session opens with a fresh epoch. */
    constructor (epoch: UInt64, registry: Registry, size: AgentFrame -> nat, max: int, maxCount: int)
      requires epoch != 0 && (registry.live.Some? ==> registry.live.value.epoch < epoch)
      ensures this.epoch == epoch && this.registry == registry
      ensures this.size == size && this.max == max && this.maxCount == maxCount
      ensures seq_ == 0 && current == map[] && sent == []
    {
      this.epoch, this.registry, this.size, this.max, this.maxCount := epoch, registry, size, max, maxCount;
      seq_ := 0;
      current := map[];
      sent := [];
    }

    /** Sends one frame, unless it is too large. What the registry replies is what Receive says. */
    method Exchange(f: AgentFrame) returns (ok: bool)
      modifies this`sent
      ensures ok <==> size(f) <= max
      ensures sent == if ok then old(sent) + [f] else old(sent)
    {
      if size(f) > max {
        return false;
      }
      sent := sent + [f];
      ok := true;
    }

    /** The registry stages m for this session, and serves what it served before. */
    ghost predicate Stages(m: Projection)
      reads this
    {
      ReceiveAll(registry, sent) == Some(registry.(staging := Some(Held(epoch, 0, m))))
    }

    method SendChunk(part: seq<Projected>, ghost m: Projection)
      requires Stages(m) && size(Chunk(part)) <= max
      modifies this`sent
      ensures Stages(PutAll(m, part)) && sent == old(sent) + [Chunk(part)]
    {
      ReceiveSnoc(registry, sent, Chunk(part));
      var _ := Exchange(Chunk(part));
    }

    method SendChunks(parts: seq<seq<Projected>>)
      requires Stages(map[]) && forall i :: 0 <= i < |parts| ==> size(Chunk(parts[i])) <= max
      modifies this`sent
      ensures Stages(IndexOf(Flatten(parts))) && |sent| == old(|sent|) + |parts|
    {
      for i := 0 to |parts|
        invariant |sent| == old(|sent|) + i && Stages(IndexOf(Flatten(parts[..i])))
      {
        SendChunk(parts[i], IndexOf(Flatten(parts[..i])));
        PutAllAppends(map[], Flatten(parts[..i]), parts[i]);
        assert parts[..i + 1][..i] == parts[..i];
      }
      assert parts[..|parts|] == parts;
    }

    /** The registry has refused nothing, and serves what it served when the session opened. */
    ghost predicate Unpublished()
      reads this
    {
      ReceiveAll(registry, sent).Some? && ReceiveAll(registry, sent).value.live == registry.live
    }

    lemma StagingIsUnpublished(m: Projection)
      requires Stages(m)
      ensures Unpublished()
    {
    }

    /** A snapshot of rs can be sent. */
    predicate CanSend(rs: seq<Projected>)
    {
      && size(Begin(epoch, 0)) <= max && size(Commit(epoch)) <= max
      && ValidLimits(max, maxCount) && forall k :: 0 <= k < |rs| ==> size(Chunk([rs[k]])) <= max
    }

    /** Opens the snapshot. */
    method Open() returns (ok: bool)
      requires epoch != 0 && sent == [] && seq_ == 0
      modifies this`sent
      ensures ok <==> size(Begin(epoch, 0)) <= max
      ensures sent == if ok then [Begin(epoch, 0)] else []
      ensures Unpublished() && (ok ==> Stages(map[]))
    {
      ReceiveSnoc(registry, sent, Begin(epoch, seq_));
      ok := Exchange(Begin(epoch, seq_));
    }

    /** Closes the snapshot of rs. */
    method Close(rs: seq<Projected>) returns (ok: bool)
      requires epoch != 0 && (registry.live.Some? ==> registry.live.value.epoch < epoch)
      requires Stages(IndexOf(rs)) && |sent| > 0 && seq_ == 0
      modifies this
      ensures ok <==> size(Commit(epoch)) <= max
      ensures ok ==> Mirrored() && current == IndexOf(rs) && seq_ == 0
      ensures !ok ==> Unpublished()
    {
      StagingIsUnpublished(IndexOf(rs));
      ReceiveSnoc(registry, sent, Commit(epoch));
      ok := Exchange(Commit(epoch));
      if ok {
        current := Index(rs);
        IndexIsKeyed(rs);
      }
    }

    /** Sends the first projection as a snapshot; it fails exactly when the opening or the closing frame is too
        large or the projection cannot be cut into legal messages, and then the registry serves what it served. */
    method Snapshot(rs: seq<Projected>) returns (ok: bool)
      requires epoch != 0 && (registry.live.Some? ==> registry.live.value.epoch < epoch)
      requires Monotone(ChunkSize(size)) && sent == [] && seq_ == 0
      modifies this
      ensures ok <==> CanSend(rs)
      ensures ok ==> Mirrored() && current == IndexOf(rs) && seq_ == 0
      ensures !ok ==> Unpublished()
    {
      ok := Open();
      if !ok {
        return;
      }
      var chunks := ChunkResources(rs, ChunkSize(size), max, maxCount);
      if chunks.None? {
        return false;
      }
      SendChunks(chunks.value);
      ok := Close(rs);
    }

    method Heartbeat() returns (ok: bool)
      requires Mirrored()
      modifies this`sent
      ensures ok <==> size(Beat(epoch, seq_)) <= max
      ensures Mirrored() && sent == if ok then old(sent) + [Beat(epoch, seq_)] else old(sent)
    {
      ReceiveSnoc(registry, sent, Beat(epoch, seq_));
      ok := Exchange(Beat(epoch, seq_));
    }

    /** Numbers one change and sends it, unless it is too large. */
    method SendDelta(x: Projected, deleted: bool) returns (ok: bool)
      modifies this`seq_, this`sent
      ensures seq_ == After(old(seq_), 1) && (ok <==> size(DeltaOf(epoch, seq_, x, deleted)) <= max)
      ensures sent == if ok then old(sent) + [DeltaOf(epoch, seq_, x, deleted)] else old(sent)
    {
      seq_ := (seq_ + 1) % 0x1_0000_0000_0000_0000;
      ok := Exchange(DeltaOf(epoch, seq_, x, deleted));
    }

    /** The deltas for these keys have been sent since `before` was all that was. */
    ghost predicate Telling(d: Diff, before: seq<AgentFrame>, keys: seq<Key>)
      reads this
    {
      && d.epoch == epoch && d.size == size && d.max == max && d.a == current && Keyed(d.a) && Keyed(d.b)
      && Told(registry, before, d, keys) && sent == before + DeltasFor(d, keys) && AllFit(d, keys)
    }

    /** And the next number is that of the next delta. */
    ghost predicate InStep(d: Diff, before: seq<AgentFrame>, keys: seq<Key>)
      reads this
    {
      Telling(d, before, keys) && seq_ == After(d.n, |keys|)
    }

    /** The keys to tell have been told as far as the first delta that is too large. */
    ghost predicate ToldAll(d: Diff, before: seq<AgentFrame>, keys: seq<Key>, ok: bool)
      reads this
    {
      && AllDiffer(d, keys) && Telling(d, before, keys[..Reach(d, keys)]) && (ok <==> Reach(d, keys) == |keys|)
      && seq_ == After(d.n, Reach(d, keys) + if ok then 0 else 1)
    }

    lemma ToldToTheEnd(d: Diff, before: seq<AgentFrame>, keys: seq<Key>)
      requires InStep(d, before, keys)
      ensures ToldAll(d, before, keys, true)
    {
      ReachIsAll(d, keys);
      assert keys[..|keys|] == keys;
    }

    /** Tells one key that differs. */
    method SendOne(next: Projection, k: Key, ghost d: Diff, ghost before: seq<AgentFrame>, ghost keys: seq<Key>) returns (ok: bool)
      requires InStep(d, before, keys) && d.b == next && k in Differs(current, next)
      modifies this`seq_, this`sent
      ensures ok <==> Fits(d, k, |keys| + 1)
      ensures if ok then InStep(d, before, keys + [k]) else Telling(d, before, keys) && seq_ == After(d.n, |keys| + 1)
    {
      TellOne(registry, before, d, keys, k);
      DeltasForSnoc(d, keys, k);
      AfterNext(d.n, |keys|);
      if k in next {
        ok := SendDelta(next[k], false);
      } else {
        ok := SendDelta(current[k], true);
      }
    }

    /** The delta for the i-th key in the order of iteration is too large, and nothing more is told. */
    lemma NoMoreTold(d: Diff, before: seq<AgentFrame>, first: seq<Key>, wanted: set<Key>, order: seq<Key>, i: nat, keys: seq<Key>)
      requires wanted <= Differs(d.a, d.b) && i < |order| && order[i] in wanted && AllDiffer(d, first)
      requires keys == first + Met(wanted, order[..i]) && !Fits(d, order[i], |keys| + 1)
      requires Telling(d, before, keys) && seq_ == After(d.n, |keys| + 1)
      ensures ToldAll(d, before, first + Met(wanted, order), false)
    {
      EndsAt(d, wanted, order, i, first, keys);
    }

    /** Deletes what is gone, in the order of iteration. */
    method SendGone(next: Projection, order: seq<Key>, ghost d: Diff, ghost before: seq<AgentFrame>, ghost first: seq<Key>)
      returns (ok: bool)
      requires InStep(d, before, first) && d.b == next && IsOrderOf(order, current.Keys)
      modifies this`seq_, this`sent
      ensures ToldAll(d, before, first + Met(Gone(d), order), ok)
    {
      ghost var keys := first;
      assert first + [] == first;
      for i := 0 to |order|
        invariant keys == first + Met(Gone(d), order[..i]) && InStep(d, before, keys)
      {
        var k := order[i];
        MetOneMore(first, Gone(d), order, i, keys);
        GoneOrFresh(d, k);
        if k !in next {
          ok := SendOne(next, k, d, before, keys);
          if !ok {
            NoMoreTold(d, before, first, Gone(d), order, i, keys);
            return;
          }
          keys := keys + [k];
        }
      }
      assert order[..|order|] == order;
      ToldToTheEnd(d, before, keys);
      ok := true;
    }

    /** Sends what is new or different, in the order of iteration, after what is gone. */
    method SendChanged(next: Projection, order: seq<Key>, ghost d: Diff, ghost before: seq<AgentFrame>, ghost gone: seq<Key>)
      returns (ok: bool)
      requires InStep(d, before, gone) && d.b == next && IsOrderOf(order, next.Keys)
      modifies this`seq_, this`sent
      ensures ToldAll(d, before, gone + Met(Fresh(d), order), ok)
    {
      ghost var keys := gone;
      assert gone + [] == gone;
      for i := 0 to |order|
        invariant keys == gone + Met(Fresh(d), order[..i]) && InStep(d, before, keys)
      {
        var k := order[i];
        MetOneMore(gone, Fresh(d), order, i, keys);
        GoneOrFresh(d, k);
        if k !in current || current[k] != next[k] {
          ok := SendOne(next, k, d, before, keys);
          if !ok {
            NoMoreTold(d, before, gone, Fresh(d), order, i, keys);
            return;
          }
          keys := keys + [k];
        }
      }
      assert order[..|order|] == order;
      ToldToTheEnd(d, before, keys);
      ok := true;
    }

    lemma AllTold(d: Diff, before: seq<AgentFrame>, keys: seq<Key>)
      requires ToldAll(d, before, keys, true)
      ensures InStep(d, before, keys) && keys[..Reach(d, keys)] == keys
    {
      assert keys[..|keys|] == keys;
    }

    lemma RestUntold(d: Diff, before: seq<AgentFrame>, keys: seq<Key>, rest: seq<Key>)
      requires ToldAll(d, before, keys, false) && AllDiffer(d, rest)
      ensures ToldAll(d, before, keys + rest, false)
    {
      ReachIsAll(d, keys);
      StopsEarly(d, keys, rest);
    }

    /** Tells all of it, deletions first, the two projections being iterated in these orders. */
    method Tell(next: Projection, o: Orders, ghost d: Diff) returns (ok: bool)
      requires InStep(d, sent, []) && d.b == next && Lists(o, d)
      modifies this`seq_, this`sent
      ensures ToldAll(d, old(sent), Agenda(d, o), ok)
    {
      assert [] + Met(Gone(d), o.last) == Met(Gone(d), o.last);
      ok := SendGone(next, o.last, d, sent, []);
      if ok {
        AllTold(d, old(sent), Met(Gone(d), o.last));
        ok := SendChanged(next, o.next, d, old(sent), Met(Gone(d), o.last));
      } else {
        RestUntold(d, old(sent), Met(Gone(d), o.last), Met(Fresh(d), o.next));
      }
    }

    lemma NothingTold(d: Diff)
      requires Mirrored() && Keyed(d.b) && d == Diff(epoch, seq_, current, d.b, size, max)
      ensures InStep(d, sent, [])
    {
      assert Mixed(d.a, d.b, []) == d.a;
      assert sent + DeltasFor(d, []) == sent;
    }

    /** One change notice: the new projection is diffed against the last one, and the two are iterated in these
        orders. Deltas are sent for the keys of the agenda up to the first that is too large, the registry holds
        the last projection with just those keys brought up to date, and it serves the new projection exactly
        when all of them fit. */
    method Update(rs: seq<Projected>, o: Orders) returns (ok: bool)
      requires Mirrored() && Lists(o, Diff(epoch, seq_, current, IndexOf(rs), size, max))
      modifies this
      ensures var d := Diff(epoch, old(seq_), old(current), IndexOf(rs), size, max);
        var told := Agenda(d, o)[..Reach(d, Agenda(d, o))];
        && (ok <==> AllFit(d, Agenda(d, o)))
        && sent == old(sent) + DeltasFor(d, told)
        && Tracks(registry, epoch, sent, After(d.n, |told|), Mixed(d.a, d.b, told))
        && seq_ == After(d.n, if ok then |told| else |told| + 1)
        && current == (if ok then d.b else d.a)
        && (ok ==> told == Agenda(d, o) && Mirrored())
    {
      var next := Index(rs);
      IndexIsKeyed(rs);
      ghost var d := Diff(epoch, seq_, current, next, size, max);
      NothingTold(d);
      ok := Tell(next, o, d);
      ReachIsAll(d, Agenda(d, o));
      if ok {
        AllTold(d, old(sent), Agenda(d, o));
        AgendaIsTheDifference(d, o);
        MixedEnds(current, next, Agenda(d, o));
        current := next;
      }
    }

    /** The session stopped at this event: a heartbeat too large to send, or a change notice with a delta too
        large, the registry being left with the last projection brought up to date as far as was told. */
    ghost predicate StoppedAt(last: Projection, event: Option<seq<Projected>>)
      reads this
    {
      if event.None? then size(Beat(epoch, seq_)) > max && Tracks(registry, epoch, sent, seq_, last)
      else
        exists n: UInt64, o: Orders ::
          var d := Diff(epoch, n, last, IndexOf(event.value), size, max);
          var told := Agenda(d, o)[..Reach(d, Agenda(d, o))];
          && Lists(o, d) && !AllFit(d, Agenda(d, o))
          && Tracks(registry, epoch, sent, After(n, |told|), Mixed(last, d.b, told)) && seq_ == After(n, |told| + 1)
    }

    /** Map iteration takes any order. */
    method AnyOrders(rs: seq<Projected>) returns (o: Orders)
      ensures Lists(o, Diff(epoch, seq_, current, IndexOf(rs), size, max))
    {
      var next := Index(rs);
      var last := AnyOrder(current.Keys);
      var other := AnyOrder(next.Keys);
      o := Orders(last, other);
    }

    /** A change notice, with whatever orders of iteration. */
    method Notice(rs: seq<Projected>) returns (ok: bool)
      requires Mirrored()
      modifies this
      ensures ok ==> Mirrored() && current == IndexOf(rs)
      ensures !ok ==> StoppedAt(old(current), Some(rs))
    {
      ghost var n, last := seq_, current;
      var o := AnyOrders(rs);
      ok := Update(rs, o);
      assert Lists(o, Diff(epoch, n, last, IndexOf(rs), size, max));
    }

    /** A whole session: a snapshot, then a change notice (Some) or a heartbeat (None) at a time. The registry
        accepts every frame sent, heartbeats included. While frames fit it serves the last projection; the
        session ends early exactly when one does not. */
    method Run(first: seq<Projected>, events: seq<Option<seq<Projected>>>) returns (ok: bool, done: nat)
      requires epoch != 0 && (registry.live.Some? ==> registry.live.value.epoch < epoch)
      requires Monotone(ChunkSize(size)) && sent == [] && seq_ == 0
      modifies this
      ensures done <= |events| && (ok <==> CanSend(first) && done == |events|)
      ensures ok ==> Mirrored() && current == IndexOf(LastSeen(first, events))
      ensures CanSend(first) && !ok ==> StoppedAt(IndexOf(LastSeen(first, events[..done])), events[done])
      ensures !CanSend(first) ==> Unpublished()
    {
      done := 0;
      ok := Snapshot(first);
      if ok {
        while done < |events|
          invariant done <= |events| && ok
          invariant Mirrored() && current == IndexOf(LastSeen(first, events[..done]))
        {
          assert events[..done + 1][..done] == events[..done];
          if events[done].Some? {
            ok := Notice(events[done].value);
            if !ok {
              return;
            }
          } else {
            ok := Heartbeat();
            if !ok {
              return;
            }
          }
          done := done + 1;
        }
        assert events[..|events|] == events;
      }
    }
  }

  method AnyOrder(keys: set<Key>) returns (order: seq<Key>)
    ensures IsOrderOf(order, keys)
  {
    order := [];
    var rest := keys;
    while rest != {}
      invariant rest <= keys && IsOrderOf(order, keys - rest)
      decreases rest
    {
      var k :| k in rest;
      order := order + [k];
      rest := rest - {k};
    }
  }
}
