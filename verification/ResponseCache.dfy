/** The in-process response cache as the API server keeps it: a key index, a recency list and a byte count
    changed in place. Its operations are proved against CacheModel. */
module ResponseCache {
  import opened Options
  import opened CacheModel

  /** Durations in nanoseconds; a value that is not positive asks for the default. */
  datatype Config = Config(defaultTTL: int, maxEntries: int, maxValueBytes: int, maxLocalBytes: int)

  function OrElse(n: int, default_: int): int
  {
    if n <= 0 then default_ else n
  }

  function Effective(cfg: Config): Config
  {
    var local := OrElse(cfg.maxLocalBytes, 64 * 1024 * 1024);
    var val := OrElse(cfg.maxValueBytes, 4 * 1024 * 1024);
    Config(OrElse(cfg.defaultTTL, 5_000_000_000), OrElse(cfg.maxEntries, 1024), if local < val then local else val, local)
  }

  /** Every setting that is positive is kept and any other gets its default: 5 seconds, 1024 entries, 4 MiB for a value
      and 64 MiB in all; and no value may be larger than all may be. */
  lemma EffectiveIs(cfg: Config)
    ensures var e := Effective(cfg);
      && e.defaultTTL == (if cfg.defaultTTL >= 1 then cfg.defaultTTL else 5 * 1000 * 1000 * 1000)
      && e.maxEntries == (if cfg.maxEntries >= 1 then cfg.maxEntries else 1024)
      && e.maxLocalBytes == (if cfg.maxLocalBytes >= 1 then cfg.maxLocalBytes else 0x400_0000)
      && e.maxValueBytes <= e.maxLocalBytes && e.maxValueBytes <= (if cfg.maxValueBytes >= 1 then cfg.maxValueBytes else 0x40_0000)
      && (e.maxValueBytes == e.maxLocalBytes || e.maxValueBytes == if cfg.maxValueBytes >= 1 then cfg.maxValueBytes else 0x40_0000)
  {
  }

  /** A run of a cache made with `cfg` whose byte values passed the value limit, as all those produced or read
      from Redis have, never serves a stale hit: the value limit is clamped to the byte bound. */
  lemma BytesPathNeverServesStale(cfg: Config, ops: seq<Op>, key: string, now: int)
    requires forall i :: 0 <= i < |ops| && ops[i].SetOp? && ops[i].val.Bytes? ==>
      |ops[i].val.data| <= Effective(cfg).maxValueBytes
    ensures var b := Bounds(Effective(cfg).maxEntries, Effective(cfg).maxLocalBytes);
      var hit := CacheModel.Get(Run(Cache(b, map[], []), ops), key, now).1;
      hit.Some? ==> hit == RefGet(RefRun(ops), key, now)
  {
    var b := Bounds(Effective(cfg).maxEntries, Effective(cfg).maxLocalBytes);
    FittingValuesAreNeverOverlooked(b, ops);
    EveryHitIsCurrent(b, ops, key, now);
  }

  /** Removing the last key of a list without repeats. */
  lemma {:induction false} WithoutLast(order: seq<string>)
    requires order != [] && NoRepeats(order)
    ensures Without(order, order[|order| - 1]) == order[..|order| - 1]
    decreases |order|
  {
    if |order| > 1 {
      WithoutLast(order[1..]);
      assert order[|order| - 1] == order[1..][|order| - 2];
      assert order[..|order| - 1] == [order[0]] + order[1..][..|order| - 2];
    }
  }

  /** One key less, while the keys kept are a prefix. */
  lemma DropLast(order: seq<string>, items: map<string, Entry>, b: Bounds)
    requires order != [] && NoRepeats(order) && KeySet(order) <= items.Keys && !Fits(order, items, b)
    ensures var shorter, last := order[..|order| - 1], order[|order| - 1];
      && Without(order, last) == shorter && NoRepeats(shorter) && KeySet(shorter) <= items.Keys
      && Trimmed(order, items, b) == Trimmed(shorter, items, b)
      && Restricted(items, order) - {last} == Restricted(items, shorter)
      && last in items && Weight(shorter, items) == Weight(order, items) - items[last].size
  {
    var shorter, last := order[..|order| - 1], order[|order| - 1];
    WithoutLast(order);
    PrefixHasNoRepeats(order, |order| - 1);
    assert last in KeySet(order) && last !in shorter;
    assert order == shorter + [last];
    assert forall k :: k in order <==> k in shorter || k == last;
    WithoutFacts(order, last, items);
  }

  lemma DroppedWeight(c: Cache, key: string)
    requires CacheModel.Valid(c) && key in c.items
    ensures Weight(Dropped(c, key).order, Dropped(c, key).items) == Weight(c.order, c.items) - c.items[key].size
  {
    WithoutFacts(c.order, key, c.items);
    var rest := Without(c.order, key);
    assert forall k :: k in rest ==> k in KeySet(rest);
    assert key in KeySet(c.order);
    WeightSame(rest, c.items, c.items - {key});
  }

  lemma {:induction false} WithoutAbsent(order: seq<string>, k: string)
    requires k !in order
    ensures Without(order, k) == order
    decreases |order|
  {
    if order != [] {
      WithoutAbsent(order[1..], k);
    }
  }

  /** The list and the index right after an entry was put at the front, before anything is dropped. */
  lemma NothingDroppedYet(c: Cache, key: string, e: Entry)
    requires CacheModel.Valid(c)
    ensures var all, front := c.items[key := e], [key] + Without(c.order, key);
      && NoRepeats(front) && KeySet(front) <= all.Keys && Restricted(all, front) == all
      && Weight(front, all) == Weight(c.order, c.items) - SizeOf(c.items, key) + e.size
      && |front| == |c.order| + (if key in c.items then 0 else 1)
      && (key !in c.items ==> front == [key] + c.order)
  {
    var all, front := c.items[key := e], [key] + Without(c.order, key);
    FrontFacts(c, key, all);
    assert forall k :: k in front <==> k in KeySet(front);
    if key !in c.items {
      assert key !in KeySet(c.order);
      WithoutAbsent(c.order, key);
    }
  }

  lemma PutWeighs(c: Cache, key: string, e: Entry)
    ensures var c' := Put(c, key, e); Weight(c'.order, c.items[key := e]) == Weight(c'.order, c'.items)
  {
    WeightSame(Put(c, key, e).order, c.items[key := e], Put(c, key, e).items);
  }

  /** The list while expired keys are being dropped from position i to the end. */
  function Swept(c: Cache, i: nat, now: int): seq<string>
    requires i <= |c.order|
  {
    c.order[..i] + Unexpired(c.order[i..], c.items, now)
  }

  lemma {:induction false} WithoutAt(a: seq<string>, k: string, b: seq<string>)
    requires k !in a
    ensures Without(a + [k] + b, k) == a + b
    decreases |a|
  {
    if a == [] {
      assert a + [k] + b == [k] + b && a + b == b;
    } else {
      WithoutAt(a[1..], k, b);
      assert (a + [k] + b)[1..] == a[1..] + [k] + b;
      assert a + b == [a[0]] + (a[1..] + b);
    }
  }

  lemma {:induction false} NoRepeatsAt(order: seq<string>, i: nat)
    requires NoRepeats(order) && i < |order|
    ensures order[i] !in order[..i] && order[i] !in order[i + 1..] && NoRepeats(order[i + 1..])
    decreases |order|
  {
    if i > 0 {
      NoRepeatsAt(order[1..], i - 1);
      assert order[1..][i - 1 + 1..] == order[i + 1..];
      assert order[..i] == [order[0]] + order[1..][..i - 1];
      assert order[i] == order[1..][i - 1];
    }
  }

  lemma DropAt(items: map<string, Entry>, head: seq<string>, k: string, tail: seq<string>)
    requires k !in head && k !in tail && k in items
    ensures var before, after := head + [k] + tail, head + tail;
      && Without(before, k) == after && Restricted(items, before) - {k} == Restricted(items, after)
      && Weight(after, items) == Weight(before, items) - items[k].size
  {
    WithoutAt(head, k, tail);
    WeightSplits(head + [k], tail, items);
    WeightSplits(head, [k], items);
    WeightSplits(head, tail, items);
    assert Weight([k], items) == items[k].size + Weight([], items);
    assert forall x :: x in head + [k] + tail <==> x == k || x in head + tail;
  }

  /** One position of the sweep. */
  lemma SweepOne(c: Cache, i: nat, now: int)
    requires CacheModel.Valid(c) && i < |c.order|
    ensures var k, before, after := c.order[i], Swept(c, i + 1, now), Swept(c, i, now);
      && k in c.items && before[i] == k && k in before
      && (now < c.items[k].expiresAt ==> after == before)
      && (now >= c.items[k].expiresAt ==>
            && after == Without(before, k) && Restricted(c.items, after) == Restricted(c.items, before) - {k}
            && Weight(after, c.items) == Weight(before, c.items) - c.items[k].size)
  {
    var k, head, tail := c.order[i], c.order[..i], Unexpired(c.order[i + 1..], c.items, now);
    assert k in KeySet(c.order);
    assert c.order[i..][0] == k && c.order[i..][1..] == c.order[i + 1..];
    assert c.order[..i + 1] == head + [k];
    NoRepeatsAt(c.order, i);
    UnexpiredFacts(c.order[i + 1..], c.items, now);
    assert k !in KeySet(tail);
    assert Swept(c, i + 1, now) == head + [k] + tail;
    if now < c.items[k].expiresAt {
      assert head + [k] + tail == head + ([k] + tail);
    } else {
      DropAt(c.items, head, k, tail);
    }
  }

  class TTL {
    const config: Config
    var items: map<string, Entry>
    var order: seq<string>
    var localBytes: int

    constructor (cfg: Config)
      ensures config == Effective(cfg) && Valid() && View() == Cache(Bound(), map[], [])
    {
      config := Effective(cfg);
      items, order, localBytes := map[], [], 0;
    }

    predicate ValidConfig()
    {
      config == Effective(config)
    }

    ghost function Bound(): Bounds
      requires ValidConfig()
    {
      Bounds(config.maxEntries, config.maxLocalBytes)
    }

    ghost function View(): Cache
      reads this
      requires ValidConfig()
    {
      Cache(Bound(), items, order)
    }

    ghost predicate Valid()
      reads this
    {
      ValidConfig() && CacheModel.Valid(View()) && localBytes == Weight(order, items)
    }

    /** Unlinks an entry from the index and the list and takes it off the byte count. */
    method Remove(key: string)
      requires key in items
      modifies this
      ensures items == old(items) - {key} && order == Without(old(order), key)
      ensures localBytes == old(localBytes) - old(items)[key].size
    {
      localBytes := localBytes - items[key].size;
      items := items - {key};
      order := Without(order, key);
    }

    method Get(key: string, now: int) returns (r: Option<Value>)
      requires Valid()
      modifies this
      ensures Valid() && (View(), r) == CacheModel.Get(old(View()), key, now)
    {
      ghost var c := View();
      GetIsValid(c, key, now);
      if key !in items {
        return None;
      }
      FrontFacts(c, key, items);
      WithoutFacts(order, key, items);
      var e := items[key];
      if now >= e.expiresAt {
        assert key in KeySet(order);
        Remove(key);
        DroppedWeight(c, key);
        return None;
      }
      order := [key] + Without(order, key);
      r := Some(e.val);
    }

    /** The keys, entries and bytes that are left while the back of the list is being dropped. */
    ghost predicate Trimming(all: map<string, Entry>, kept: seq<string>)
      reads this
      requires ValidConfig()
    {
      && NoRepeats(order) && KeySet(order) <= all.Keys
      && items == Restricted(all, order) && localBytes == Weight(order, all)
      && Trimmed(order, all, Bound()) == kept
    }

    /** Drops the least recently used entry; the list cannot be empty, for nothing at all always fits. */
    method DropBack(ghost all: map<string, Entry>, ghost kept: seq<string>)
      requires ValidConfig() && Trimming(all, kept) && !Fits(order, all, Bound())
      modifies this
      ensures Trimming(all, kept) && |order| < old(|order|)
    {
      DropLast(order, all, Bound());
      assert order[|order| - 1] in order;
      Remove(order[|order| - 1]);
    }

    method TrimBytes(ghost all: map<string, Entry>, ghost kept: seq<string>)
      requires ValidConfig() && Trimming(all, kept) && |order| <= config.maxEntries
      modifies this
      ensures order == kept && items == Restricted(all, kept) && localBytes == Weight(kept, all)
    {
      while localBytes > config.maxLocalBytes
        invariant Trimming(all, kept) && |order| <= config.maxEntries
        decreases |order|
      {
        DropBack(all, kept);
      }
    }

    method TrimBoth(ghost all: map<string, Entry>, ghost kept: seq<string>)
      requires ValidConfig() && Trimming(all, kept)
      modifies this
      ensures order == kept && items == Restricted(all, kept) && localBytes == Weight(kept, all)
    {
      CountKept(all);
      while |items| > config.maxEntries || localBytes > config.maxLocalBytes
        invariant Trimming(all, kept) && |items| == |order|
        decreases |order|
      {
        DropBack(all, kept);
        CountKept(all);
      }
    }

    lemma CountKept(all: map<string, Entry>)
      requires NoRepeats(order) && KeySet(order) <= all.Keys && items == Restricted(all, order)
      ensures |items| == |order|
    {
      DistinctCount(order);
      assert items.Keys == KeySet(order);
    }

    /** Puts a new entry at the front; the byte count moves by the difference. */
    method PutFront(key: string, e: Entry)
      requires Valid()
      modifies this
      ensures ValidConfig() && Trimming(old(items)[key := e], Put(old(View()), key, e).order)
      ensures key in old(items) ==> |order| == old(|order|)
    {
      NothingDroppedYet(View(), key, e);
      if key in items {
        localBytes := localBytes + e.size - items[key].size;
        order := [key] + Without(order, key);
      } else {
        order := [key] + order;
        localBytes := localBytes + e.size;
      }
      items := items[key := e];
    }

    method Set(key: string, val: Value, ttl: int, now: int)
      requires Valid()
      modifies this
      ensures Valid() && View() == CacheModel.Set(old(View()), key, val, ttl, now)
    {
      if Size(val) > config.maxLocalBytes {
        return;
      }
      var e := Made(val, now + ttl);
      ghost var all, kept := items[key := e], Put(View(), key, e).order;
      PutIsValid(View(), key, e);
      PutWeighs(View(), key, e);
      if key in items {
        PutFront(key, e);
        TrimBytes(all, kept);
      } else {
        PutFront(key, e);
        TrimBoth(all, kept);
      }
    }

    /** Drops every expired entry, oldest use first, and counts the rest. */
    method Len(now: int) returns (n: nat)
      requires Valid()
      modifies this
      ensures Valid() && View() == Sweep(old(View()), now) && n == |items|
    {
      ghost var c := View();
      SweepIsValid(c, now);
      assert c.order[..|order|] + [] == order && Restricted(items, order) == items by {
        assert forall k :: k in order <==> k in KeySet(order);
      }
      var i := |order|;
      while i > 0
        invariant 0 <= i <= |c.order| && ValidConfig() && Sweeping(c, i, now)
        decreases i
      {
        i := i - 1;
        SweepOne(c, i, now);
        if now >= items[order[i]].expiresAt {
          Remove(order[i]);
        }
      }
      assert Swept(c, 0, now) == Unexpired(c.order, c.items, now) by {
        assert c.order[0..] == c.order;
      }
      WeightSame(order, c.items, items);
      n := |items|;
    }

    ghost predicate Sweeping(c: Cache, i: nat, now: int)
      reads this
      requires i <= |c.order|
    {
      order == Swept(c, i, now) && items == Restricted(c.items, order) && localBytes == Weight(order, c.items)
    }
  }
}
