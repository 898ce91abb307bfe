/** What the response cache answers: when a look-up hits, what survives a set, and that nothing is lost of what fits. */
module CacheHits {
  import opened Options
  import opened CacheModel

  // ----- single operations -----

  /** A look-up hits exactly what is kept and has not run out; a hit moves the key to the front and changes nothing else,
      and a look-up of what has run out removes it. */
  lemma GetAnswer(c: Cache, key: string, now: int)
    requires Valid(c)
    ensures var (c', hit) := Get(c, key, now);
      && hit == (if key in c.items && now < c.items[key].expiresAt then Some(c.items[key].val) else None)
      && c'.bounds == c.bounds
      && c'.items == (if key in c.items && now >= c.items[key].expiresAt then map k | k in c.items && k != key :: c.items[k] else c.items)
      && (hit.Some? ==> c'.order != [] && c'.order[0] == key)
  {
    var without := map k | k in c.items && k != key :: c.items[k];
    assert without == c.items - {key};
  }

  /** A value that fits by itself is kept until its time to live is over; one that does not changes nothing. */
  lemma SetAnswer(c: Cache, key: string, val: Value, ttl: int, now: int)
    requires Valid(c) && 1 <= c.bounds.entries
    ensures var c', size := Set(c, key, val, ttl, now), if val.Bytes? then |val.data| else 1;
      if size > c.bounds.bytes then c' == c
      else
        && key in c'.items && c'.items[key] == Entry(val, now + ttl, size) && c'.order != [] && c'.order[0] == key
        && forall k :: k in c'.items && k != key ==> k in c.items && c'.items[k] == c.items[k]
  {
    if Size(val) <= c.bounds.bytes {
      PutKeepsTheNewest(c, key, Made(val, now + ttl));
    }
  }

  lemma KeptByPlace(order: seq<string>, n: nat, i: nat)
    requires NoRepeats(order) && n <= |order| && i < |order|
    ensures order[i] in order[..n] <==> i < n
  {
    PrefixHasNoRepeats(order, n);
    if i < n {
      assert order[..n][i] == order[i];
    }
  }

  lemma PrefixFits(order: seq<string>, items: map<string, Entry>, b: Bounds, n: nat, m: nat)
    requires n <= m <= |order| && Fits(order[..m], items, b)
    ensures Fits(order[..n], items, b)
  {
    assert order[..m] == order[..n] + order[n..m];
    WeightSplits(order[..n], order[n..m], items);
  }

  lemma TrimmedUpTo(order: seq<string>, items: map<string, Entry>, b: Bounds, i: nat)
    requires NoRepeats(order) && i < |order|
    ensures order[i] in Trimmed(order, items, b) <==> Fits(order[..i + 1], items, b)
  {
    var kept := Trimmed(order, items, b);
    TrimmedIsLongest(order, items, b, i + 1);
    assert kept == order[..|kept|];
    KeptByPlace(order, |kept|, i);
    if i < |kept| {
      PrefixFits(order, items, b, i + 1, |kept|);
    }
  }

  /** An entry survives a set exactly when it, everything used more recently, and the new entry fit both bounds. */
  lemma SurvivesIff(c: Cache, key: string, e: Entry, i: nat)
    requires Valid(c) && i < |[key] + Without(c.order, key)|
    ensures var front, items := [key] + Without(c.order, key), c.items[key := e];
      front[i] in Put(c, key, e).items <==> i + 1 <= c.bounds.entries && Weight(front[..i + 1], items) <= c.bounds.bytes
  {
    var front, items := [key] + Without(c.order, key), c.items[key := e];
    FrontFacts(c, key, items);
    TrimmedUpTo(front, items, c.bounds, i);
    assert front[i] in KeySet(front);
  }

  // ----- runs in which everything fits -----

  function Sets(ops: seq<Op>): nat
  {
    if ops == [] then 0 else Sets(ops[..|ops| - 1]) + if ops[|ops| - 1].SetOp? then 1 else 0
  }

  function SetBytes(ops: seq<Op>): nat
  {
    if ops == [] then 0
    else
      var op := ops[|ops| - 1];
      SetBytes(ops[..|ops| - 1]) + if op.SetOp? then (if op.val.Bytes? then |op.val.data| else 1) else 0
  }

  /** The cache keeps all that has not run out by `now`, and is no larger than what has been set. */
  ghost predicate KeepsAll(c: Cache, ref: map<string, Entry>, sets: nat, bytes: nat, now: int)
  {
    && Valid(c) && |c.items| <= sets && Weight(c.order, c.items) <= bytes
    && Agrees(c, ref) && forall k :: k in ref && now < ref[k].expiresAt ==> k in c.items
  }

  lemma OneKeyLess(items: map<string, Entry>, key: string)
    ensures |items - {key}| <= |items|
  {
    assert (items - {key}).Keys <= items.Keys && items.Keys == (items - {key}).Keys + (items.Keys - (items - {key}).Keys);
    assert |items.Keys| == |items| && |(items - {key}).Keys| == |items - {key}|;
  }

  lemma DroppedWeighs(c: Cache, key: string)
    requires Valid(c) && key in c.items
    ensures Weight(Dropped(c, key).order, Dropped(c, key).items) <= Weight(c.order, c.items)
  {
    WithoutFacts(c.order, key, c.items);
    assert forall k :: k in Without(c.order, key) <==> k in KeySet(Without(c.order, key));
    WeightSame(Without(c.order, key), c.items, c.items - {key});
  }

  lemma GetKeepsAll(c: Cache, ref: map<string, Entry>, sets: nat, bytes: nat, since: int, key: string, now: int)
    requires KeepsAll(c, ref, sets, bytes, since) && since <= now
    ensures KeepsAll(Get(c, key, now).0, ref, sets, bytes, now)
  {
    GetIsValid(c, key, now);
    if key in c.items {
      if now >= c.items[key].expiresAt {
        OneKeyLess(c.items, key);
        DroppedWeighs(c, key);
      } else {
        FrontFacts(c, key, c.items);
      }
    }
  }

  lemma OneKeyMore(items: map<string, Entry>, key: string, e: Entry)
    ensures |items.Keys + {key}| <= |items| + 1 && |items[key := e]| <= |items| + 1
  {
    assert items[key := e].Keys == items.Keys + {key};
    assert |items.Keys| == |items| && |items[key := e].Keys| == |items[key := e]|;
  }

  lemma FrontFits(c: Cache, key: string, e: Entry)
    requires Valid(c) && |c.items| + 1 <= c.bounds.entries && Weight(c.order, c.items) + e.size <= c.bounds.bytes
    ensures var front, items := [key] + Without(c.order, key), c.items[key := e];
      Fits(front, items, c.bounds) && Weight(front, items) <= Weight(c.order, c.items) + e.size
  {
    FrontFacts(c, key, c.items[key := e]);
    DistinctCount(c.order);
    assert |c.items.Keys| == |c.items|;
  }

  lemma PutWhole(c: Cache, key: string, e: Entry)
    requires Valid(c) && |c.items.Keys + {key}| <= c.bounds.entries && Weight(c.order, c.items) + e.size <= c.bounds.bytes
    requires Fits([key] + Without(c.order, key), c.items[key := e], c.bounds)
    ensures Put(c, key, e) == c.(items := c.items[key := e], order := [key] + Without(c.order, key))
  {
    PutDropsNothingThatFits(c, key, e);
  }

  lemma PutWeight(c: Cache, key: string, e: Entry)
    requires Valid(c) && |c.items| + 1 <= c.bounds.entries && Weight(c.order, c.items) + e.size <= c.bounds.bytes
    ensures var c' := Put(c, key, e);
      c'.items == c.items[key := e] && Weight(c'.order, c'.items) <= Weight(c.order, c.items) + e.size && |c'.items| <= |c.items| + 1
  {
    OneKeyMore(c.items, key, e);
    FrontFits(c, key, e);
    PutWhole(c, key, e);
  }

  lemma SetKeepsAll(c: Cache, ref: map<string, Entry>, sets: nat, bytes: nat, since: int, op: Op)
    requires KeepsAll(c, ref, sets, bytes, since) && since <= op.now && op.SetOp?
    requires sets + 1 <= c.bounds.entries && bytes + Size(op.val) <= c.bounds.bytes
    ensures KeepsAll(Step(c, op), RefStep(ref, op), sets + 1, bytes + Size(op.val), op.now)
  {
    var e := Made(op.val, op.now + op.ttl);
    var c' := Put(c, op.key, e);
    assert Step(c, op) == c';
    PutIsValid(c, op.key, e);
    PutWeight(c, op.key, e);
  }

  lemma LenKeepsAll(c: Cache, ref: map<string, Entry>, sets: nat, bytes: nat, since: int, now: int)
    requires KeepsAll(c, ref, sets, bytes, since) && since <= now
    ensures KeepsAll(Sweep(c, now), ref, sets, bytes, now)
  {
    SweepIsValid(c, now);
    UnexpiredFacts(c.order, c.items, now);
    var live, swept := Unexpired(c.order, c.items, now), Sweep(c, now);
    assert swept.items.Keys <= c.items.Keys;
    assert |swept.items.Keys| <= |c.items.Keys| by {
      assert c.items.Keys == swept.items.Keys + (c.items.Keys - swept.items.Keys);
    }
    assert |swept.items.Keys| == |swept.items| && |c.items.Keys| == |c.items|;
    assert forall k :: k in live ==> k in KeySet(live);
    WeightSame(live, c.items, swept.items);
  }

  lemma {:induction false} RunKeepsAll(b: Bounds, ops: seq<Op>)
    requires InTime(ops) && ops != [] && Sets(ops) <= b.entries && SetBytes(ops) <= b.bytes
    ensures KeepsAll(Run(Cache(b, map[], []), ops), RefRun(ops), Sets(ops), SetBytes(ops), ops[|ops| - 1].now)
    ensures Run(Cache(b, map[], []), ops).bounds == b
    decreases |ops|
  {
    var before, op := ops[..|ops| - 1], ops[|ops| - 1];
    var c, ref := Run(Cache(b, map[], []), before), RefRun(before);
    var since := if before == [] then op.now else before[|before| - 1].now;
    if before != [] {
      RunKeepsAll(b, before);
    }
    assert KeepsAll(c, ref, Sets(before), SetBytes(before), since) && c.bounds == b;
    match op
    case GetOp(key, now) => GetKeepsAll(c, ref, Sets(before), SetBytes(before), since, key, now);
    case SetOp(_, _, _, _) => SetKeepsAll(c, ref, Sets(before), SetBytes(before), since, op);
    case LenOp(now) => LenKeepsAll(c, ref, Sets(before), SetBytes(before), since, now);
  }

  /** Nothing is lost of what fits: in a run whose sets are no more, and no larger together, than the cache may hold,
      every look-up from then on answers just as the unbounded map does. */
  lemma NothingIsLostThatFits(b: Bounds, ops: seq<Op>, key: string, now: int)
    requires InTime(ops) && ops != [] && Sets(ops) <= b.entries && SetBytes(ops) <= b.bytes && ops[|ops| - 1].now <= now
    ensures Get(Run(Cache(b, map[], []), ops), key, now).1 == RefGet(RefRun(ops), key, now)
  {
    RunKeepsAll(b, ops);
    GetAnswer(Run(Cache(b, map[], []), ops), key, now);
  }
}
