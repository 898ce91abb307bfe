/** The response cache as values: entries with expiry, a recency list, an entry bound and a byte bound;
    and the unbounded map with expiry times that it approximates. */
module CacheModel {
  import opened Options

  datatype Value = Bytes(data: seq<char>) | Typed(handle: int)

  function Size(v: Value): nat
  {
    if v.Bytes? then |v.data| else 1
  }

  datatype Entry = Entry(val: Value, expiresAt: int, size: nat)

  function Made(val: Value, expiresAt: int): Entry
  {
    Entry(val, expiresAt, Size(val))
  }

  datatype Bounds = Bounds(entries: nat, bytes: nat)

  /** `order` holds the keys, most recently used first. */
  datatype Cache = Cache(bounds: Bounds, items: map<string, Entry>, order: seq<string>)

  // ----- recency lists -----

  predicate NoRepeats(order: seq<string>)
  {
    order == [] || (order[0] !in order[1..] && NoRepeats(order[1..]))
  }

  function KeySet(order: seq<string>): set<string>
  {
    set k | k in order
  }

  /** order without its first k. */
  function Without(order: seq<string>, k: string): seq<string>
  {
    if order == [] then []
    else if order[0] == k then order[1..]
    else [order[0]] + Without(order[1..], k)
  }

  /** The keys whose entries have not expired. */
  function Unexpired(order: seq<string>, items: map<string, Entry>, now: int): seq<string>
  {
    if order == [] then []
    else if order[0] in items && now < items[order[0]].expiresAt then [order[0]] + Unexpired(order[1..], items, now)
    else Unexpired(order[1..], items, now)
  }

  function SizeOf(items: map<string, Entry>, k: string): nat
  {
    if k in items then items[k].size else 0
  }

  function Weight(order: seq<string>, items: map<string, Entry>): nat
  {
    if order == [] then 0 else SizeOf(items, order[0]) + Weight(order[1..], items)
  }

  predicate Fits(order: seq<string>, items: map<string, Entry>, b: Bounds)
  {
    |order| <= b.entries && Weight(order, items) <= b.bytes
  }

  /** What is left of order when keys are dropped from its end until the rest fits. */
  function Trimmed(order: seq<string>, items: map<string, Entry>, b: Bounds): seq<string>
  {
    if order == [] || Fits(order, items, b) then order else Trimmed(order[..|order| - 1], items, b)
  }

  lemma {:induction false} WeightSplits(a: seq<string>, b: seq<string>, items: map<string, Entry>)
    ensures Weight(a + b, items) == Weight(a, items) + Weight(b, items)
    decreases |a|
  {
    if a == [] {
      assert a + b == b;
    } else {
      WeightSplits(a[1..], b, items);
      assert (a + b)[1..] == a[1..] + b;
    }
  }

  /** A weight only depends on the entries of the keys it counts. */
  lemma {:induction false} WeightSame(order: seq<string>, items: map<string, Entry>, items': map<string, Entry>)
    requires forall k :: k in order ==> SizeOf(items, k) == SizeOf(items', k)
    ensures Weight(order, items) == Weight(order, items')
    decreases |order|
  {
    if order != [] {
      WeightSame(order[1..], items, items');
    }
  }

  lemma {:induction false} WithoutFacts(order: seq<string>, k: string, items: map<string, Entry>)
    requires NoRepeats(order)
    ensures var rest := Without(order, k);
      && NoRepeats(rest) && KeySet(rest) == KeySet(order) - {k}
      && Weight(rest, items) == Weight(order, items) - (if k in order then SizeOf(items, k) else 0)
      && |rest| == |order| - (if k in order then 1 else 0)
    decreases |order|
  {
    if order != [] {
      WithoutFacts(order[1..], k, items);
      var tail := Without(order[1..], k);
      assert forall x :: x in tail <==> x in KeySet(tail);
      assert forall x :: x in order[1..] <==> x in KeySet(order[1..]);
      assert order == [order[0]] + order[1..];
      if order[0] != k {
        assert Without(order, k)[1..] == tail;
        assert forall x :: x in Without(order, k) <==> x == order[0] || x in tail;
      }
    }
  }

  lemma {:induction false} UnexpiredFacts(order: seq<string>, items: map<string, Entry>, now: int)
    requires NoRepeats(order)
    ensures var live := Unexpired(order, items, now);
      && NoRepeats(live) && |live| <= |order| && Weight(live, items) <= Weight(order, items)
      && KeySet(live) == set k | k in order && k in items && now < items[k].expiresAt
    decreases |order|
  {
    if order != [] {
      UnexpiredFacts(order[1..], items, now);
      var live, tail := Unexpired(order, items, now), Unexpired(order[1..], items, now);
      assert forall x :: x in tail <==> x in KeySet(tail);
      assert order == [order[0]] + order[1..];
      if order[0] in items && now < items[order[0]].expiresAt {
        assert live[1..] == tail;
        assert forall x :: x in live <==> x == order[0] || x in tail;
      }
    }
  }

  lemma {:induction false} PrefixHasNoRepeats(order: seq<string>, n: nat)
    requires NoRepeats(order) && n <= |order|
    ensures NoRepeats(order[..n])
    ensures forall i :: n <= i < |order| ==> order[i] !in order[..n]
    decreases |order|
  {
    if n > 0 {
      PrefixHasNoRepeats(order[1..], n - 1);
      assert order[..n][1..] == order[1..][..n - 1];
      assert forall i :: n <= i < |order| ==> order[i] == order[1..][i - 1];
      assert order[..n] == [order[0]] + order[1..][..n - 1];
    }
  }

  /** What Trimmed keeps is the longest prefix that fits: the keys dropped are the fewest least recently
      used ones that restore the bounds. */
  lemma {:induction false} TrimmedIsLongest(order: seq<string>, items: map<string, Entry>, b: Bounds, n: nat)
    requires n <= |order|
    ensures var kept := Trimmed(order, items, b);
      && kept <= order && Fits(kept, items, b)
      && (Fits(order[..n], items, b) ==> n <= |kept|)
    decreases |order|
  {
    if order != [] && !Fits(order, items, b) {
      var shorter := order[..|order| - 1];
      if n < |order| {
        TrimmedIsLongest(shorter, items, b, n);
        assert shorter[..n] == order[..n];
      } else {
        TrimmedIsLongest(shorter, items, b, 0);
        assert order[..n] == order;
      }
    }
  }

  // ----- the three operations -----

  ghost predicate Valid(c: Cache)
  {
    NoRepeats(c.order) && KeySet(c.order) == c.items.Keys && Fits(c.order, c.items, c.bounds)
  }

  function Restricted(items: map<string, Entry>, order: seq<string>): map<string, Entry>
  {
    map k | k in items && k in order :: items[k]
  }

  function Dropped(c: Cache, key: string): Cache
  {
    c.(items := c.items - {key}, order := Without(c.order, key))
  }

  function Get(c: Cache, key: string, now: int): (Cache, Option<Value>)
  {
    if key !in c.items then (c, None)
    else if now >= c.items[key].expiresAt then (Dropped(c, key), None)
    else (c.(order := [key] + Without(c.order, key)), Some(c.items[key].val))
  }

  /** Putting e at the front and dropping from the back until the bounds hold again. */
  function Put(c: Cache, key: string, e: Entry): Cache
  {
    var items := c.items[key := e];
    var order := Trimmed([key] + Without(c.order, key), items, c.bounds);
    c.(items := Restricted(items, order), order := order)
  }

  /** A value over the byte bound is not kept, and what the cache holds under its key stays. */
  function Set(c: Cache, key: string, val: Value, ttl: int, now: int): Cache
  {
    if Size(val) > c.bounds.bytes then c else Put(c, key, Made(val, now + ttl))
  }

  function Sweep(c: Cache, now: int): Cache
  {
    var order := Unexpired(c.order, c.items, now);
    c.(items := Restricted(c.items, order), order := order)
  }

  lemma FrontFacts(c: Cache, key: string, items: map<string, Entry>)
    requires Valid(c) && forall k :: k in c.items && k != key ==> k in items && items[k] == c.items[k]
    ensures var front := [key] + Without(c.order, key);
      && NoRepeats(front) && KeySet(front) == c.items.Keys + {key}
      && |front| == |c.order| + (if key in c.items then 0 else 1)
      && Weight(front, items) == Weight(c.order, c.items) - SizeOf(c.items, key) + SizeOf(items, key)
  {
    var rest := Without(c.order, key);
    WithoutFacts(c.order, key, c.items);
    assert forall k :: k in rest <==> k in KeySet(rest);
    assert forall k :: k in c.order <==> k in KeySet(c.order);
    WeightSame(rest, c.items, items);
    assert ([key] + rest)[1..] == rest;
  }

  lemma DroppedIsValid(c: Cache, key: string)
    requires Valid(c) && key in c.items
    ensures Valid(Dropped(c, key))
  {
    var rest := Without(c.order, key);
    WithoutFacts(c.order, key, c.items);
    assert forall k :: k in rest <==> k in KeySet(rest);
    assert key in KeySet(c.order);
    WeightSame(rest, c.items, c.items - {key});
  }

  lemma GetIsValid(c: Cache, key: string, now: int)
    requires Valid(c)
    ensures Valid(Get(c, key, now).0)
  {
    if key in c.items {
      DroppedIsValid(c, key);
      FrontFacts(c, key, c.items);
    }
  }

  lemma RestrictedIsValid(b: Bounds, items: map<string, Entry>, order: seq<string>)
    requires NoRepeats(order) && KeySet(order) <= items.Keys && Fits(order, items, b)
    ensures Valid(Cache(b, Restricted(items, order), order))
  {
    assert forall k :: k in order <==> k in KeySet(order);
    WeightSame(order, items, Restricted(items, order));
  }

  lemma PutIsValid(c: Cache, key: string, e: Entry)
    requires Valid(c)
    ensures Valid(Put(c, key, e))
  {
    var items, front := c.items[key := e], [key] + Without(c.order, key);
    FrontFacts(c, key, items);
    TrimmedIsLongest(front, items, c.bounds, 0);
    var kept := Trimmed(front, items, c.bounds);
    PrefixHasNoRepeats(front, |kept|);
    assert kept == front[..|kept|];
    assert forall k :: k in kept ==> k in KeySet(front);
    RestrictedIsValid(c.bounds, items, kept);
  }

  lemma TrimmedKeepsTheFirst(order: seq<string>, items: map<string, Entry>, b: Bounds)
    requires order != [] && Fits([order[0]], items, b)
    ensures var kept := Trimmed(order, items, b); kept <= order && kept != [] && kept[0] == order[0]
  {
    assert order[..1] == [order[0]];
    TrimmedIsLongest(order, items, b, 1);
  }

  lemma OneMoreDoesNotFit(order: seq<string>, items: map<string, Entry>, b: Bounds)
    ensures var kept := Trimmed(order, items, b);
      |kept| <= |order| && (|kept| < |order| ==> !Fits(order[..|kept| + 1], items, b))
  {
    TrimmedIsLongest(order, items, b, 0);
    var n := |Trimmed(order, items, b)|;
    if n < |order| {
      TrimmedIsLongest(order, items, b, n + 1);
    }
  }

  /** The key just set survives, at the front, with its new entry; whatever is dropped was used less recently
      than whatever is kept, and one key more would not have fitted. */
  lemma PutKeepsTheNewest(c: Cache, key: string, e: Entry)
    requires Valid(c) && 1 <= c.bounds.entries && e.size <= c.bounds.bytes
    ensures var c', front := Put(c, key, e), [key] + Without(c.order, key);
      && key in c'.items && c'.items[key] == e && c'.order[0] == key
      && c'.order <= front && c'.items == Restricted(c.items[key := e], c'.order)
      && (|c'.order| < |front| ==> !Fits(front[..|c'.order| + 1], c.items[key := e], c.bounds))
  {
    var items, front := c.items[key := e], [key] + Without(c.order, key);
    assert Weight([key], items) == e.size + Weight([], items);
    TrimmedKeepsTheFirst(front, items, c.bounds);
    OneMoreDoesNotFit(front, items, c.bounds);
  }

  /** Nothing is dropped when everything fits. */
  lemma PutDropsNothingThatFits(c: Cache, key: string, e: Entry)
    requires Valid(c) && |c.items.Keys + {key}| <= c.bounds.entries
    requires Weight(c.order, c.items) - SizeOf(c.items, key) + e.size <= c.bounds.bytes
    ensures Put(c, key, e).items == c.items[key := e]
  {
    var items, front := c.items[key := e], [key] + Without(c.order, key);
    FrontFacts(c, key, items);
    DistinctCount(front);
    assert forall k :: k in front <==> k in KeySet(front);
    assert Fits(front, items, c.bounds);
  }

  lemma {:induction false} DistinctCount(order: seq<string>)
    requires NoRepeats(order)
    ensures |KeySet(order)| == |order|
    decreases |order|
  {
    if order != [] {
      DistinctCount(order[1..]);
      assert order == [order[0]] + order[1..];
      assert KeySet(order) == {order[0]} + KeySet(order[1..]);
    }
  }

  lemma SweepIsValid(c: Cache, now: int)
    requires Valid(c)
    ensures Valid(Sweep(c, now))
    ensures Sweep(c, now).items == map k | k in c.items && now < c.items[k].expiresAt :: c.items[k]
  {
    UnexpiredFacts(c.order, c.items, now);
    var live := Unexpired(c.order, c.items, now);
    assert forall k :: k in live <==> k in KeySet(live);
    assert forall k :: k in c.order <==> k in KeySet(c.order);
    RestrictedIsValid(c.bounds, c.items, live);
  }

  // ----- runs against the unbounded map -----

  datatype Op = GetOp(key: string, now: int) | SetOp(key: string, val: Value, ttl: int, now: int) | LenOp(now: int)

  function Step(c: Cache, op: Op): Cache
  {
    match op
    case GetOp(key, now) => Get(c, key, now).0
    case SetOp(key, val, ttl, now) => Set(c, key, val, ttl, now)
    case LenOp(now) => Sweep(c, now)
  }

  function Run(c: Cache, ops: seq<Op>): Cache
  {
    if ops == [] then c else Step(Run(c, ops[..|ops| - 1]), ops[|ops| - 1])
  }

  function RefStep(ref: map<string, Entry>, op: Op): map<string, Entry>
  {
    if op.SetOp? then ref[op.key := Made(op.val, op.now + op.ttl)] else ref
  }

  /** The unbounded map: whatever was last set, whenever it expires. */
  function RefRun(ops: seq<Op>): map<string, Entry>
  {
    if ops == [] then map[] else RefStep(RefRun(ops[..|ops| - 1]), ops[|ops| - 1])
  }

  function RefGet(ref: map<string, Entry>, key: string, now: int): Option<Value>
  {
    if key in ref && now < ref[key].expiresAt then Some(ref[key].val) else None
  }

  /** Whatever the cache holds is what the unbounded map holds. */
  predicate Agrees(c: Cache, ref: map<string, Entry>)
  {
    forall k :: k in c.items ==> k in ref && ref[k] == c.items[k]
  }

  /** Setting a key leaves the cache in agreement exactly when the value fits or the key was not cached. */
  lemma SetAgreesIff(c: Cache, ref: map<string, Entry>, key: string, val: Value, ttl: int, now: int)
    requires Valid(c) && Agrees(c, ref)
    ensures Agrees(Set(c, key, val, ttl, now), ref[key := Made(val, now + ttl)]) <==>
            Size(val) <= c.bounds.bytes || key !in c.items
  {
    if Size(val) > c.bounds.bytes && key in c.items {
      OneEntryFits(c, key);
    }
  }

  lemma OneEntryFits(c: Cache, key: string)
    requires Valid(c) && key in c.items
    ensures SizeOf(c.items, key) <= c.bounds.bytes
  {
    assert key in KeySet(c.order);
    WithoutFacts(c.order, key, c.items);
  }

  /** The stale hit: a value too big to keep leaves the older one being served. */
  lemma OversizedSetLeavesStaleHit()
    ensures var c := Cache(Bounds(1, 1), map[], []);
      var ops := [SetOp("k", Typed(1), 10, 0), SetOp("k", Bytes("ab"), 10, 0)];
      Get(Run(c, ops), "k", 5).1 == Some(Typed(1)) && RefGet(RefRun(ops), "k", 5) == Some(Bytes("ab"))
  {
    var c := Cache(Bounds(1, 1), map[], []);
    var first, second := SetOp("k", Typed(1), 10, 0), SetOp("k", Bytes("ab"), 10, 0);
    var ops := [first, second];
    assert ops[..1] == [first] && [first][..0] == [];
    var items := map["k" := Made(Typed(1), 10)];
    assert Weight(["k"], items) == 1 + Weight([], items);
    assert Run(c, [first]) == Put(c, "k", Made(Typed(1), 10));
    PutKeepsTheNewest(c, "k", Made(Typed(1), 10));
  }

  /** Both bounds and the recency list are intact after every operation of every run. */
  lemma {:induction false} EveryRunIsValid(b: Bounds, ops: seq<Op>)
    ensures Valid(Run(Cache(b, map[], []), ops)) && Run(Cache(b, map[], []), ops).bounds == b
    decreases |ops|
  {
    if ops != [] {
      var last := |ops| - 1;
      EveryRunIsValid(b, ops[..last]);
      var c := Run(Cache(b, map[], []), ops[..last]);
      match ops[last]
      case GetOp(key, now) => GetIsValid(c, key, now);
      case SetOp(key, val, ttl, now) => PutIsValid(c, key, Made(val, now + ttl));
      case LenOp(now) => SweepIsValid(c, now);
    }
  }

  /** Whether op sets a value too big to keep under a key that c holds. */
  predicate Overlooked(c: Cache, op: Op)
  {
    op.SetOp? && Size(op.val) > c.bounds.bytes && op.key in c.items
  }

  lemma StepAgreesIff(c: Cache, ref: map<string, Entry>, op: Op)
    requires Valid(c) && Agrees(c, ref)
    ensures Agrees(Step(c, op), RefStep(ref, op)) <==> !Overlooked(c, op)
  {
    match op
    case GetOp(key, now) =>
      assert forall k :: k in Get(c, key, now).0.items ==> k in c.items && Get(c, key, now).0.items[k] == c.items[k];
    case SetOp(key, val, ttl, now) => SetAgreesIff(c, ref, key, val, ttl, now);
    case LenOp(now) =>
      SweepIsValid(c, now);
      assert forall k :: k in Sweep(c, now).items ==> k in c.items && Sweep(c, now).items[k] == c.items[k];
  }

  predicate AgreesThroughout(b: Bounds, ops: seq<Op>)
  {
    ops == [] || (AgreesThroughout(b, ops[..|ops| - 1]) && Agrees(Run(Cache(b, map[], []), ops), RefRun(ops)))
  }

  /** No operation of the run sets a value too big to keep under a key that is cached at that moment. */
  predicate NeverOverlooked(b: Bounds, ops: seq<Op>)
  {
    ops == [] ||
    (NeverOverlooked(b, ops[..|ops| - 1]) && !Overlooked(Run(Cache(b, map[], []), ops[..|ops| - 1]), ops[|ops| - 1]))
  }

  /** The cache agrees with the unbounded map throughout a run exactly when nothing was overlooked in it. */
  lemma {:induction false} AgreesThroughoutIff(b: Bounds, ops: seq<Op>)
    ensures AgreesThroughout(b, ops) <==> NeverOverlooked(b, ops)
    decreases |ops|
  {
    if ops != [] {
      var before := ops[..|ops| - 1];
      AgreesThroughoutIff(b, before);
      if AgreesThroughout(b, before) {
        EveryRunIsValid(b, before);
        assert Agrees(Run(Cache(b, map[], []), before), RefRun(before));
        StepAgreesIff(Run(Cache(b, map[], []), before), RefRun(before), ops[|ops| - 1]);
      }
    }
  }

  /** Values that fit are never overlooked. */
  lemma {:induction false} FittingValuesAreNeverOverlooked(b: Bounds, ops: seq<Op>)
    requires forall i :: 0 <= i < |ops| && ops[i].SetOp? ==> Size(ops[i].val) <= b.bytes
    ensures NeverOverlooked(b, ops)
    decreases |ops|
  {
    if ops != [] {
      EveryRunIsValid(b, ops[..|ops| - 1]);
      FittingValuesAreNeverOverlooked(b, ops[..|ops| - 1]);
    }
  }

  /** Then every hit is exactly what the unbounded map would return at that moment: eviction and expiry only
      turn hits into misses. */
  lemma EveryHitIsCurrent(b: Bounds, ops: seq<Op>, key: string, now: int)
    requires NeverOverlooked(b, ops)
    ensures var hit := Get(Run(Cache(b, map[], []), ops), key, now).1;
      hit.Some? ==> hit == RefGet(RefRun(ops), key, now)
  {
    AgreesThroughoutIff(b, ops);
    assert Agrees(Run(Cache(b, map[], []), ops), RefRun(ops));
  }

  // ----- when a hit is stale -----

  /** Every hit from now on, until something is set, is what the unbounded map returns at that moment. */
  ghost predicate HitsAreCurrent(c: Cache, ref: map<string, Entry>, now: int)
  {
    forall k, t :: now <= t && Get(c, k, t).1.Some? ==> Get(c, k, t).1 == RefGet(ref, k, t)
  }

  /** Every entry is kept with the size of its value. */
  predicate Sized(c: Cache)
  {
    forall k :: k in c.items ==> c.items[k].size == Size(c.items[k].val)
  }

  lemma StepStaysSized(c: Cache, op: Op)
    requires Sized(c)
    ensures Sized(Step(c, op))
  {
  }

  /** op sets a value too big to keep under a key that c holds and still serves. */
  predicate LeavesStale(c: Cache, op: Op)
  {
    Overlooked(c, op) && op.now < c.items[op.key].expiresAt
  }

  /** A hit after an operation was a hit before it, or is of the value just set. */
  lemma HitComesFrom(c: Cache, op: Op, k: string, t: int)
    requires Valid(c) && Get(Step(c, op), k, t).1.Some?
    ensures if op.SetOp? && op.key == k && Size(op.val) <= c.bounds.bytes
            then Get(Step(c, op), k, t).1 == RefGet(map[k := Made(op.val, op.now + op.ttl)], k, t)
            else Get(Step(c, op), k, t).1 == Get(c, k, t).1
  {
    if op.LenOp? {
      SweepIsValid(c, op.now);
    }
  }

  /** Hits stay current through an operation exactly when it does not leave a stale entry; if it does, every
      hit on that key is stale until the entry expires. */
  lemma StepHitsIff(c: Cache, ref: map<string, Entry>, op: Op, now: int)
    requires Valid(c) && Sized(c) && HitsAreCurrent(c, ref, now) && now <= op.now
    ensures HitsAreCurrent(Step(c, op), RefStep(ref, op), op.now) <==> !LeavesStale(c, op)
    ensures LeavesStale(c, op) ==>
      forall t :: op.now <= t < c.items[op.key].expiresAt ==>
        Get(Step(c, op), op.key, t).1.Some? && Get(Step(c, op), op.key, t).1 != RefGet(RefStep(ref, op), op.key, t)
  {
    var c', ref' := Step(c, op), RefStep(ref, op);
    if LeavesStale(c, op) {
      OneEntryFits(c, op.key);
      assert c.items[op.key].val != op.val;
      assert Get(c', op.key, op.now).1.Some?;
    } else {
      forall k, t | op.now <= t && Get(c', k, t).1.Some? ensures Get(c', k, t).1 == RefGet(ref', k, t) {
        HitComesFrom(c, op, k, t);
      }
    }
  }

  /** The clock does not go back. */
  predicate InTime(ops: seq<Op>)
  {
    forall i :: 0 < i < |ops| ==> ops[i - 1].now <= ops[i].now
  }

  /** At every point of the run, every hit would be current. */
  ghost predicate HitsCurrentThroughout(b: Bounds, ops: seq<Op>)
  {
    ops == [] ||
    (HitsCurrentThroughout(b, ops[..|ops| - 1]) && HitsAreCurrent(Run(Cache(b, map[], []), ops), RefRun(ops), ops[|ops| - 1].now))
  }

  predicate NeverLeavesStale(b: Bounds, ops: seq<Op>)
  {
    ops == [] ||
    (NeverLeavesStale(b, ops[..|ops| - 1]) && !LeavesStale(Run(Cache(b, map[], []), ops[..|ops| - 1]), ops[|ops| - 1]))
  }

  /** Every hit that could be had during a run is current exactly when no value too big to keep was set under a
      key whose older value was still being served. */
  lemma {:induction false} HitsCurrentIff(b: Bounds, ops: seq<Op>)
    requires InTime(ops)
    ensures HitsCurrentThroughout(b, ops) <==> NeverLeavesStale(b, ops)
    ensures Sized(Run(Cache(b, map[], []), ops))
    decreases |ops|
  {
    if ops != [] {
      var before, last := ops[..|ops| - 1], ops[|ops| - 1];
      HitsCurrentIff(b, before);
      var c := Run(Cache(b, map[], []), before);
      StepStaysSized(c, last);
      if HitsCurrentThroughout(b, before) {
        EveryRunIsValid(b, before);
        var since := if before == [] then last.now else before[|before| - 1].now;
        assert HitsAreCurrent(c, RefRun(before), since);
        StepHitsIff(c, RefRun(before), last, since);
      }
    }
  }

  // ----- recency -----

  /** Looking a key up uses it, and so does setting it to a value that fits. */
  predicate Uses(b: Bounds, op: Op, k: string)
  {
    match op
    case GetOp(key, now) => key == k
    case SetOp(key, val, ttl, now) => key == k && Size(val) <= b.bytes
    case LenOp(now) => false
  }

  /** The position in the run at which k was last used. */
  function LastUse(b: Bounds, ops: seq<Op>, k: string): (n: int)
    ensures -1 <= n < |ops|
  {
    if ops == [] then -1
    else if Uses(b, ops[|ops| - 1], k) then |ops| - 1
    else LastUse(b, ops[..|ops| - 1], k)
  }

  /** Each key of order was used later than every key after it. */
  predicate ByLastUse(b: Bounds, ops: seq<Op>, order: seq<string>)
  {
    order == [] ||
    ((forall k :: k in order[1..] ==> LastUse(b, ops, order[0]) > LastUse(b, ops, k)) && ByLastUse(b, ops, order[1..]))
  }

  lemma {:induction false} WithoutStaysByLastUse(b: Bounds, ops: seq<Op>, order: seq<string>, key: string)
    requires ByLastUse(b, ops, order)
    ensures ByLastUse(b, ops, Without(order, key)) && forall k :: k in Without(order, key) ==> k in order
    decreases |order|
  {
    if order != [] && order[0] != key {
      WithoutStaysByLastUse(b, ops, order[1..], key);
      assert Without(order, key)[1..] == Without(order[1..], key);
    }
  }

  lemma {:induction false} UnexpiredStaysByLastUse(b: Bounds, ops: seq<Op>, order: seq<string>, items: map<string, Entry>, now: int)
    requires ByLastUse(b, ops, order)
    ensures ByLastUse(b, ops, Unexpired(order, items, now)) && forall k :: k in Unexpired(order, items, now) ==> k in order
    decreases |order|
  {
    if order != [] {
      UnexpiredStaysByLastUse(b, ops, order[1..], items, now);
      if order[0] in items && now < items[order[0]].expiresAt {
        assert Unexpired(order, items, now)[1..] == Unexpired(order[1..], items, now);
      }
    }
  }

  lemma {:induction false} PrefixStaysByLastUse(b: Bounds, ops: seq<Op>, order: seq<string>, n: nat)
    requires ByLastUse(b, ops, order) && n <= |order|
    ensures ByLastUse(b, ops, order[..n])
    decreases |order|
  {
    if n > 0 {
      PrefixStaysByLastUse(b, ops, order[1..], n - 1);
      assert order[..n][1..] == order[1..][..n - 1];
    }
  }

  /** An operation that uses none of the keys leaves them as recent as they were. */
  lemma {:induction false} UnusedStayByLastUse(b: Bounds, ops: seq<Op>, op: Op, order: seq<string>)
    requires ByLastUse(b, ops, order) && forall k :: k in order ==> !Uses(b, op, k)
    ensures ByLastUse(b, ops + [op], order)
    decreases |order|
  {
    if order != [] {
      UnusedStayByLastUse(b, ops, op, order[1..]);
      assert (ops + [op])[..|ops|] == ops;
      forall k | k in order ensures LastUse(b, ops + [op], k) == LastUse(b, ops, k) {
      }
    }
  }

  lemma MovedToFrontIsByLastUse(b: Bounds, ops: seq<Op>, op: Op, order: seq<string>, key: string)
    requires NoRepeats(order) && ByLastUse(b, ops, order)
    requires Uses(b, op, key)
    ensures ByLastUse(b, ops + [op], [key] + Without(order, key))
  {
    var rest := Without(order, key);
    WithoutStaysByLastUse(b, ops, order, key);
    WithoutFacts(order, key, map[]);
    assert key !in KeySet(rest);
    UnusedStayByLastUse(b, ops, op, rest);
    assert ([key] + rest)[1..] == rest;
    forall k | k in rest ensures LastUse(b, ops + [op], key) > LastUse(b, ops + [op], k) {
      assert (ops + [op])[..|ops|] == ops;
    }
  }

  lemma GetStaysByLastUse(c: Cache, ops: seq<Op>, key: string, now: int)
    requires Valid(c) && ByLastUse(c.bounds, ops, c.order)
    ensures ByLastUse(c.bounds, ops + [GetOp(key, now)], Get(c, key, now).0.order)
  {
    if key in c.items {
      MovedToFrontIsByLastUse(c.bounds, ops, GetOp(key, now), c.order, key);
      assert ([key] + Without(c.order, key))[1..] == Without(c.order, key);
    } else {
      assert forall k :: k in c.order ==> k in KeySet(c.order);
      UnusedStayByLastUse(c.bounds, ops, GetOp(key, now), c.order);
    }
  }

  lemma PutStaysByLastUse(c: Cache, ops: seq<Op>, op: Op, key: string, e: Entry)
    requires Valid(c) && ByLastUse(c.bounds, ops, c.order) && Uses(c.bounds, op, key)
    ensures ByLastUse(c.bounds, ops + [op], Put(c, key, e).order)
  {
    var front, items := [key] + Without(c.order, key), c.items[key := e];
    MovedToFrontIsByLastUse(c.bounds, ops, op, c.order, key);
    TrimmedIsLongest(front, items, c.bounds, 0);
    var kept := Trimmed(front, items, c.bounds);
    PrefixStaysByLastUse(c.bounds, ops + [op], front, |kept|);
    assert kept == front[..|kept|];
  }

  lemma StepStaysByLastUse(c: Cache, ops: seq<Op>, op: Op)
    requires Valid(c) && ByLastUse(c.bounds, ops, c.order)
    ensures ByLastUse(c.bounds, ops + [op], Step(c, op).order)
  {
    match op
    case GetOp(key, now) => GetStaysByLastUse(c, ops, key, now);
    case SetOp(key, val, ttl, now) =>
      if Size(val) > c.bounds.bytes {
        UnusedStayByLastUse(c.bounds, ops, op, c.order);
      } else {
        PutStaysByLastUse(c, ops, op, key, Made(val, now + ttl));
      }
    case LenOp(now) =>
      UnexpiredStaysByLastUse(c.bounds, ops, c.order, c.items, now);
      UnusedStayByLastUse(c.bounds, ops, op, Unexpired(c.order, c.items, now));
  }

  /** After every run the recency list is sorted by last use, so what Set drops from its end really is the
      least recently used. */
  lemma {:induction false} RecencyListIsByLastUse(b: Bounds, ops: seq<Op>)
    ensures ByLastUse(b, ops, Run(Cache(b, map[], []), ops).order)
    decreases |ops|
  {
    if ops != [] {
      var before := ops[..|ops| - 1];
      RecencyListIsByLastUse(b, before);
      EveryRunIsValid(b, before);
      StepStaysByLastUse(Run(Cache(b, map[], []), before), before, ops[|ops| - 1]);
      assert before + [ops[|ops| - 1]] == ops;
    }
  }
}
