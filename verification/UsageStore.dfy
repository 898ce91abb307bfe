/** The usage store as the API server keeps it. Its Update is proved against UsageAdmission.UpdateAlone. */
module UsageStoreState {
  import opened Options
  import opened RemoteCatalogStore
  import opened UsageAdmission

  /** The limits a store accepts. */
  predicate ValidUsageLimits(l: Limits)
  {
    && 1 <= l.perCluster.entries <= 100_000 && l.perCluster.entries <= l.total.entries <= 1_000_000
    && EntryOverhead <= l.perCluster.bytes && l.perCluster.bytes <= l.total.bytes <= 64 * 1024 * 1024
    && l.total.entries <= l.peak.entries <= 2_000_000
    && l.total.bytes <= l.peak.bytes <= 128 * 1024 * 1024
  }

  /** One cluster gets from 1 to 100000 entries and at least the room of one, no more than all clusters together;
      those get at most a million entries and 64 MiB, and with updates being built twice as much. */
  lemma LimitsIff(l: Limits)
    ensures ValidUsageLimits(l) <==>
      && 1 <= l.perCluster.entries <= 100_000 && 128 <= l.perCluster.bytes
      && l.perCluster.Within(l.total) && l.total.Within(l.peak)
      && l.total.Within(Load(1_000_000, 0x400_0000)) && l.peak.Within(Load(2_000_000, 0x800_0000))
  {
  }

  /** The limits of a store made for so many entries: for as many UIDs of full length, and twice as much at the peak. */
  function DefaultLimits(maxEntries: int): Limits
  {
    var whole := Load(maxEntries, maxEntries * (253 + EntryOverhead));
    Limits(whole, whole, whole.Plus(whole))
  }

  /** They are legal for 1 to 100000 entries, and with nothing in flight an update is then refused only when what it
      leads to is over the total. */
  lemma DefaultLimitsAreLegal(maxEntries: int)
    ensures ValidUsageLimits(DefaultLimits(maxEntries)) <==> 1 <= maxEntries <= 100_000
    ensures DefaultLimits(maxEntries).perCluster == DefaultLimits(maxEntries).total
    ensures DefaultLimits(maxEntries).peak
         == Load(2 * DefaultLimits(maxEntries).total.entries, 2 * DefaultLimits(maxEntries).total.bytes)
    ensures DefaultLimits(maxEntries).total == Load(maxEntries, 381 * maxEntries)
  {
  }

  class UsageStore {
    const limits: Limits
    var published: map<string, Option<Snapshot>>
    var total: Load
    var reserved: Load
    var build: Load

    constructor (limits: Limits, ids: set<string>)
      requires ValidUsageLimits(limits)
      ensures this.limits == limits && View() == NewStore(limits, ids) && Valid()
    {
      this.limits := limits;
      published := map id | id in ids :: None;
      total, reserved, build := Load(0, 0), Load(0, 0), Load(0, 0);
      new;
      assert Accounts() == NewStore(limits, ids).accounts;
      assert View() == NewStore(limits, ids);
      NewStoreIsBalanced(limits, ids);
    }

    ghost function Accounts(): map<string, Account>
      reads this`published
    {
      map id | id in published :: Account(published[id], None)
    }

    ghost function View(): Store
      reads this
    {
      Store(limits, total, reserved, build, Accounts())
    }

    ghost predicate Valid()
      reads this
    {
      ValidUsageLimits(limits) && Balanced(View())
    }

    /** Checks the values and adds up their bytes, in an arbitrary order. */
    method Measure(values: map<string, Usage>) returns (ok: bool, bytes: int)
      requires 0 <= limits.perCluster.bytes
      ensures ok <==> ValidValues(limits, values)
      ensures ok ==> bytes == UidBytes(values.Keys)
    {
      bytes := 0;
      if |values| > limits.perCluster.entries {
        return false, 0;
      }
      var rest := values.Keys;
      while rest != {}
        invariant rest <= values.Keys && bytes + UidBytes(rest) == UidBytes(values.Keys)
        invariant forall uid :: uid in values.Keys - rest ==> ValidEntry(uid, values[uid])
        invariant bytes <= limits.perCluster.bytes
        decreases rest
      {
        var uid :| uid in rest;
        if !ValidEntry(uid, values[uid]) {
          return false, 0;
        }
        UidBytesSplit(rest, uid);
        bytes := bytes + |uid| + EntryOverhead;
        rest := rest - {uid};
        if bytes > limits.perCluster.bytes {
          return false, 0;
        }
      }
      ok := true;
    }

    /** Whether the old snapshot looks the same as the new values. */
    method SameSnapshot(was: Option<Snapshot>, values: map<string, Usage>, bytes: int) returns (same: bool)
      ensures same <==> LooksUnchanged(was, Snapshot(values, bytes))
    {
      if was.None? || was.value.bytes != bytes || |was.value.values| != |values| {
        return false;
      }
      var rest := values.Keys;
      while rest != {}
        invariant rest <= values.Keys
        invariant forall uid :: uid in values.Keys - rest ==> Read(was.value.values, uid) == values[uid]
        decreases rest
      {
        var uid :| uid in rest;
        if Read(was.value.values, uid) != values[uid] {
          return false;
        }
        rest := rest - {uid};
      }
      return true;
    }

    /** Copies the values, in an arbitrary order. */
    method Copied(values: map<string, Usage>) returns (next: map<string, Usage>)
      ensures next == values
    {
      next := map[];
      var rest := values.Keys;
      while rest != {}
        invariant rest <= values.Keys && next == values - rest
        decreases rest
      {
        var uid :| uid in rest;
        next := next[uid := values[uid]];
        rest := rest - {uid};
      }
    }

    /** The first section under the global lock. */
    method Reserve(size: Load, growth: Load) returns (ok: bool)
      modifies this`reserved, this`build
      ensures ok <==> old(Room(View(), size, growth))
      ensures reserved == (if ok then old(reserved).Plus(growth) else old(reserved))
      ensures build == (if ok then old(build).Plus(size) else old(build))
    {
      if total.entries + reserved.entries + growth.entries > limits.total.entries
         || total.bytes + reserved.bytes + growth.bytes > limits.total.bytes
         || total.entries + build.entries + size.entries > limits.peak.entries
         || total.bytes + build.bytes + size.bytes > limits.peak.bytes {
        return false;
      }
      reserved := reserved.Plus(growth);
      build := build.Plus(size);
      ok := true;
    }

    /** The second section under the global lock. */
    method Settle(id: string, next: Snapshot, was: Load, size: Load, growth: Load)
      requires id in published
      modifies this
      ensures build == old(build).Minus(size) && reserved == old(reserved).Minus(growth)
      ensures total == old(total).Plus(size.Minus(was)) && published == old(published)[id := Some(next)]
    {
      build := build.Minus(size);
      reserved := reserved.Minus(growth);
      total := total.Plus(size.Minus(was));
      published := published[id := Some(next)];
    }

    /** Everything up to the end of the first locked section. */
    method Begin(id: string, values: map<string, Usage>) returns (reply: Reply, bytes: int)
      requires ValidUsageLimits(limits)
      modifies this`reserved, this`build
      ensures reply == Admit(old(View()), id, values).1
      ensures !reply.Waits?
      ensures !reply.Admitted? ==> reserved == old(reserved) && build == old(build)
      ensures reply.Admitted? ==>
        && id in published && bytes == UidBytes(values.Keys) && build == old(build).Plus(Load(|values|, bytes))
        && reserved == old(reserved).Plus(Growth(Load(|values|, bytes), SizeOf(published[id])))
    {
      bytes := 0;
      if id !in published {
        return Refused, 0;
      }
      assert Accounts()[id] == Account(published[id], None);
      var legal;
      legal, bytes := Measure(values);
      if !legal {
        return Refused, bytes;
      }
      var same := SameSnapshot(published[id], values, bytes);
      if same {
        return Unchanged, bytes;
      }
      var size := Load(|values|, bytes);
      var ok := Reserve(size, Growth(size, SizeOf(published[id])));
      reply := if ok then Admitted else Refused;
    }

    /** Builds and publishes what was reserved. */
    method Finish(id: string, values: map<string, Usage>, bytes: int)
      requires id in published
      modifies this
      ensures var was, size := old(SizeOf(published[id])), Load(|values|, bytes);
        && total == old(total).Plus(size.Minus(was))
        && reserved == old(reserved).Minus(Growth(size, was)) && build == old(build).Minus(size)
      ensures Accounts() == old(Accounts())[id := Account(Some(Snapshot(values, bytes)), None)]
    {
      var next := Copied(values);
      var was, size := SizeOf(published[id]), Load(|values|, bytes);
      Settle(id, Snapshot(next, bytes), was, size, Growth(size, was));
    }

    method BeginAndFinish(id: string, values: map<string, Usage>) returns (ok: bool)
      requires ValidUsageLimits(limits)
      modifies this
      ensures (View(), ok) == UpdateAlone(old(View()), id, values)
    {
      AloneByReply(View(), id, values);
      var reply, bytes := Begin(id, values);
      ok := !reply.Refused?;
      if reply.Admitted? {
        Finish(id, values, bytes);
      }
    }

    /** Replaces the snapshot of one cluster, or refuses and leaves everything as it was. */
    method Update(id: string, values: map<string, Usage>) returns (ok: bool)
      requires Valid()
      modifies this
      ensures Valid() && (View(), ok) == UpdateAlone(old(View()), id, values)
    {
      AloneKeepsBalance(View(), id, values);
      ok := BeginAndFinish(id, values);
    }

    method Lookup(id: string, uid: string) returns (u: Usage, found: bool)
      ensures found <==> id in published && published[id].Some? && uid in published[id].value.values
      ensures u == if found then published[id].value.values[uid] else NoUsage
    {
      if id !in published || published[id].None? {
        return NoUsage, false;
      }
      var values := published[id].value.values;
      return Read(values, uid), uid in values;
    }

    method Retained() returns (entries: int, bytes: int)
      ensures Load(entries, bytes) == total
    {
      return total.entries, total.bytes;
    }
  }

  predicate ValidIds(ids: seq<string>)
  {
    && (forall i :: 0 <= i < |ids| ==> ValidClusterId(ids[i]))
    && (forall i, j :: 0 <= i < j < |ids| ==> ids[i] != ids[j])
  }

  method CheckIds(ids: seq<string>) returns (ok: bool, known: set<string>)
    ensures ok <==> ValidIds(ids)
    ensures ok ==> known == IdSet(ids)
  {
    known := {};
    for i := 0 to |ids|
      invariant known == IdSet(ids[..i])
      invariant ValidIds(ids[..i])
    {
      if !ValidClusterId(ids[i]) || ids[i] in known {
        return false, known;
      }
      assert ids[i] !in ids[..i] && ids[..i + 1] == ids[..i] + [ids[i]];
      known := known + {ids[i]};
    }
    assert ids[..|ids|] == ids;
    ok := true;
  }

  /** Makes a store for the given clusters, or nothing when the IDs or the limits are not legal. */
  method NewUsageStore(ids: seq<string>, limits: Limits) returns (r: UsageStore?)
    ensures r == null <==> !(1 <= |ids| <= 64 && ValidUsageLimits(limits) && ValidIds(ids))
    ensures r != null ==> fresh(r) && r.Valid() && r.View() == NewStore(limits, IdSet(ids))
  {
    r := null;
    if |ids| == 0 || |ids| > 64 || !ValidUsageLimits(limits) {
      return;
    }
    var ok, known := CheckIds(ids);
    if ok {
      r := new UsageStore(limits, known);
    }
  }
}
