/** Admission of usage snapshots: reserve under the global lock, build outside it, publish under it again.
    One cluster has at most one update in flight; updates of different clusters interleave freely. */
module UsageAdmission {
  import opened Options
  import opened MapSums

  const EntryOverhead := 128

  datatype Usage = Usage(cpuMilli: int, memoryMib: int)

  const NoUsage := Usage(0, 0)

  /** What a reader is served for one cluster: usage by UID, and the bytes it was admitted for. */
  datatype Snapshot = Snapshot(values: map<string, Usage>, bytes: int)

  /** An update that is reserved and being built. */
  datatype Build = Build(next: Snapshot, oldEntries: int, oldBytes: int)

  datatype Account = Account(value: Option<Snapshot>, inFlight: Option<Build>)

  datatype Load = Load(entries: int, bytes: int)
  {
    function Plus(o: Load): Load { Load(entries + o.entries, bytes + o.bytes) }
    function Minus(o: Load): Load { Load(entries - o.entries, bytes - o.bytes) }
    predicate Within(o: Load) { entries <= o.entries && bytes <= o.bytes }
  }

  datatype Limits = Limits(perCluster: Load, total: Load, peak: Load)

  datatype Store = Store(limits: Limits, total: Load, reserved: Load, build: Load, accounts: map<string, Account>)

  // ----- snapshots -----

  ghost function Member(uids: set<string>): (uid: string)
    requires uids != {}
    ensures uid in uids
  {
    var uid :| uid in uids; uid
  }

  ghost function UidBytes(uids: set<string>): nat
  {
    if uids == {} then 0 else |Member(uids)| + EntryOverhead + UidBytes(uids - {Member(uids)})
  }

  lemma {:induction false} UidBytesSplit(uids: set<string>, uid: string)
    requires uid in uids
    ensures UidBytes(uids) == |uid| + EntryOverhead + UidBytes(uids - {uid})
    decreases |uids|
  {
    var m := Member(uids);
    if m != uid {
      UidBytesSplit(uids - {m}, uid);
      UidBytesSplit(uids - {uid}, m);
      assert uids - {m} - {uid} == uids - {uid} - {m};
    }
  }

  ghost function Taken(values: map<string, Usage>): Snapshot
  {
    Snapshot(values, UidBytes(values.Keys))
  }

  predicate ValidEntry(uid: string, u: Usage)
  {
    0 < |uid| <= 253 && 0 <= u.cpuMilli <= 1_000_000_000 && 0 <= u.memoryMib <= 1_000_000_000
  }

  ghost predicate ValidValues(limits: Limits, values: map<string, Usage>)
  {
    && |values| <= limits.perCluster.entries
    && UidBytes(values.Keys) <= limits.perCluster.bytes
    && forall uid :: uid in values ==> ValidEntry(uid, values[uid])
  }

  /** What a map answers for a UID it may not have. */
  function Read(values: map<string, Usage>, uid: string): Usage
  {
    if uid in values then values[uid] else NoUsage
  }

  /** The shortcut for an unchanged snapshot. It reads a UID the old snapshot lacks as no usage. */
  predicate LooksUnchanged(was: Option<Snapshot>, next: Snapshot)
  {
    && was.Some? && was.value.bytes == next.bytes && |was.value.values| == |next.values|
    && forall uid :: uid in next.values ==> Read(was.value.values, uid) == next.values[uid]
  }

  // ----- the two locked sections -----

  function SizeOf(value: Option<Snapshot>): Load
  {
    if value.None? then Load(0, 0) else Load(|value.value.values|, value.value.bytes)
  }

  function Growth(size: Load, was: Load): Load
  {
    Load(if size.entries > was.entries then size.entries - was.entries else 0,
         if size.bytes > was.bytes then size.bytes - was.bytes else 0)
  }

  predicate Room(s: Store, size: Load, growth: Load)
  {
    s.total.Plus(s.reserved).Plus(growth).Within(s.limits.total) && s.total.Plus(s.build).Plus(size).Within(s.limits.peak)
  }

  datatype Reply =
    | Refused     // returns an error
    | Unchanged   // returns without an error, publishing nothing
    | Admitted    // reserved; the build goes on
    | Waits       // another update of the cluster holds its lock

  /** Validation, the unchanged check, and the first section under the global lock. */
  ghost function Admit(s: Store, id: string, values: map<string, Usage>): (Store, Reply)
  {
    if id !in s.accounts || !ValidValues(s.limits, values) then (s, Refused)
    else
      var a, next := s.accounts[id], Taken(values);
      if a.inFlight.Some? then (s, Waits)
      else if LooksUnchanged(a.value, next) then (s, Unchanged)
      else
        var was, size := SizeOf(a.value), SizeOf(Some(next));
        if !Room(s, size, Growth(size, was)) then (s, Refused)
        else
          (s.(reserved := s.reserved.Plus(Growth(size, was)), build := s.build.Plus(size),
              accounts := s.accounts[id := a.(inFlight := Some(Build(next, was.entries, was.bytes)))]), Admitted)
  }

  /** The second section under the global lock: books and snapshot change together. */
  function Publish(s: Store, id: string): Store
    requires id in s.accounts && s.accounts[id].inFlight.Some?
  {
    var b := s.accounts[id].inFlight.value;
    var size, was := SizeOf(Some(b.next)), Load(b.oldEntries, b.oldBytes);
    s.(build := s.build.Minus(size), reserved := s.reserved.Minus(Growth(size, was)),
       total := s.total.Plus(size.Minus(was)), accounts := s.accounts[id := Account(Some(b.next), None)])
  }

  // ----- runs -----

  datatype Act = Update(id: string, values: map<string, Usage>) | Finish(id: string)

  ghost function Step(s: Store, act: Act): Store
  {
    match act
    case Update(id, values) => Admit(s, id, values).0
    case Finish(id) => if id in s.accounts && s.accounts[id].inFlight.Some? then Publish(s, id) else s
  }

  ghost function Exec(s: Store, acts: seq<Act>): Store
  {
    if acts == [] then s else Step(Exec(s, acts[..|acts| - 1]), acts[|acts| - 1])
  }

  function PublishedOf(a: Account): Counters
  {
    Counters(SizeOf(a.value).entries, SizeOf(a.value).bytes, 0, 0)
  }

  function InFlightOf(a: Account): Counters
  {
    if a.inFlight.None? then Zero
    else
      var b := a.inFlight.value;
      var size := SizeOf(Some(b.next));
      var growth := Growth(size, Load(b.oldEntries, b.oldBytes));
      Counters(growth.entries, growth.bytes, size.entries, size.bytes)
  }

  ghost predicate SoundSnapshot(limits: Limits, x: Snapshot)
  {
    ValidValues(limits, x.values) && x == Taken(x.values)
  }

  ghost predicate Sound(limits: Limits, a: Account)
  {
    && (a.value.Some? ==> SoundSnapshot(limits, a.value.value))
    && (a.inFlight.Some? ==>
          && SoundSnapshot(limits, a.inFlight.value.next)
          && SizeOf(a.value) == Load(a.inFlight.value.oldEntries, a.inFlight.value.oldBytes))
  }

  /** The books are exactly the sums over the clusters. */
  ghost predicate Booked(s: Store)
  {
    && Sum(s.accounts, PublishedOf) == Counters(s.total.entries, s.total.bytes, 0, 0)
    && Sum(s.accounts, InFlightOf) == Counters(s.reserved.entries, s.reserved.bytes, s.build.entries, s.build.bytes)
  }

  /** Two counters held as one pair of pairs. */
  function Pair(a: Load, b: Load): Counters
  {
    Counters(a.entries, a.bytes, b.entries, b.bytes)
  }

  /** The books stay exact when they move with the account that changes. */
  lemma BooksMove(s: Store, id: string, a: Account, s': Store)
    requires Booked(s) && id in s.accounts && s'.accounts == s.accounts[id := a]
    requires Pair(s'.total, Load(0, 0)) == Pair(s.total, Load(0, 0)).Minus(PublishedOf(s.accounts[id])).Plus(PublishedOf(a))
    requires Pair(s'.reserved, s'.build) == Pair(s.reserved, s.build).Minus(InFlightOf(s.accounts[id])).Plus(InFlightOf(a))
    ensures Booked(s')
  {
    SumUpdate(s.accounts, PublishedOf, id, a);
    SumUpdate(s.accounts, InFlightOf, id, a);
  }

  ghost predicate AllSound(s: Store)
  {
    forall id :: id in s.accounts ==> Sound(s.limits, s.accounts[id])
  }

  predicate Bounded(s: Store)
  {
    s.total.Plus(s.reserved).Within(s.limits.total) && s.total.Plus(s.build).Within(s.limits.peak)
  }

  ghost predicate Balanced(s: Store)
  {
    Booked(s) && AllSound(s) && Bounded(s)
  }

  /** Admitting an update reserves its growth and counts its build, and books nothing else. */
  lemma AdmitMoves(s: Store, id: string, values: map<string, Usage>)
    requires Admit(s, id, values).1.Admitted?
    ensures id in s.accounts && s.accounts[id].inFlight.None?
    ensures var s', a' := Admit(s, id, values).0, Admit(s, id, values).0.accounts[id];
      && s'.accounts == s.accounts[id := a'] && s'.total == s.total && Bounded(s')
      && a'.value == s.accounts[id].value
      && Pair(s'.reserved, s'.build) == Pair(s.reserved, s.build).Plus(InFlightOf(a'))
  {
  }

  lemma AdmitIsSound(s: Store, id: string, values: map<string, Usage>)
    requires Admit(s, id, values).1.Admitted? && id in s.accounts && Sound(s.limits, s.accounts[id])
    ensures Sound(s.limits, Admit(s, id, values).0.accounts[id])
  {
  }

  lemma AdmitKeepsBalance(s: Store, id: string, values: map<string, Usage>)
    requires Balanced(s)
    ensures Balanced(Admit(s, id, values).0)
  {
    if Admit(s, id, values).1.Admitted? {
      var s' := Admit(s, id, values).0;
      AdmitMoves(s, id, values);
      AdmitIsSound(s, id, values);
      BooksMove(s, id, s'.accounts[id], s');
    }
  }

  lemma PublishMoves(s: Store, id: string)
    requires id in s.accounts && s.accounts[id].inFlight.Some? && Sound(s.limits, s.accounts[id]) && Bounded(s)
    ensures var s', a' := Publish(s, id), Publish(s, id).accounts[id];
      && s'.accounts == s.accounts[id := a'] && a'.inFlight.None? && Sound(s.limits, a') && Bounded(s')
      && s'.total == s.total.Minus(SizeOf(s.accounts[id].value)).Plus(SizeOf(a'.value))
      && Pair(s'.reserved, s'.build) == Pair(s.reserved, s.build).Minus(InFlightOf(s.accounts[id]))
  {
  }

  lemma PublishKeepsBalance(s: Store, id: string)
    requires Balanced(s) && id in s.accounts && s.accounts[id].inFlight.Some?
    ensures Balanced(Publish(s, id))
  {
    var s' := Publish(s, id);
    PublishMoves(s, id);
    BooksMove(s, id, s'.accounts[id], s');
  }

  ghost function NewStore(limits: Limits, ids: set<string>): Store
  {
    Store(limits, Load(0, 0), Load(0, 0), Load(0, 0), map id | id in ids :: Account(None, None))
  }

  predicate NonNegativeLimits(limits: Limits)
  {
    Load(0, 0).Within(limits.total) && Load(0, 0).Within(limits.peak)
  }

  lemma NewStoreIsBalanced(limits: Limits, ids: set<string>)
    requires NonNegativeLimits(limits)
    ensures Balanced(NewStore(limits, ids))
  {
    SumZero(NewStore(limits, ids).accounts, PublishedOf);
    SumZero(NewStore(limits, ids).accounts, InFlightOf);
  }

  /** Over every interleaving of updates of any clusters: the totals are the sums of what is published, the
      reservations and builds are the sums over the updates in flight, and neither bound is ever passed. */
  lemma {:induction false} EveryInterleavingIsBalanced(limits: Limits, ids: set<string>, acts: seq<Act>)
    requires NonNegativeLimits(limits)
    ensures Balanced(Exec(NewStore(limits, ids), acts))
    decreases |acts|
  {
    if acts == [] {
      NewStoreIsBalanced(limits, ids);
    } else {
      var before := acts[..|acts| - 1];
      EveryInterleavingIsBalanced(limits, ids, before);
      match acts[|acts| - 1]
      case Update(id, values) => AdmitKeepsBalance(Exec(NewStore(limits, ids), before), id, values);
      case Finish(id) =>
        var s := Exec(NewStore(limits, ids), before);
        if id in s.accounts && s.accounts[id].inFlight.Some? {
          PublishKeepsBalance(s, id);
        }
    }
  }

  /** With nothing in flight, nothing is reserved and nothing counts as being built. */
  lemma QuietStoreHoldsNothingBack(s: Store)
    requires Balanced(s) && forall id :: id in s.accounts ==> s.accounts[id].inFlight.None?
    ensures s.reserved == Load(0, 0) && s.build == Load(0, 0)
  {
    SumZero(s.accounts, InFlightOf);
  }

  /** The totals themselves stay within the total limits, for reservations are never negative. */
  lemma TotalsStayWithinLimits(s: Store)
    requires Balanced(s)
    ensures s.total.Within(s.limits.total) && Load(0, 0).Within(s.reserved) && Load(0, 0).Within(s.build)
  {
    forall id | id in s.accounts ensures InFlightOf(s.accounts[id]).NonNegative() {
      assert Sound(s.limits, s.accounts[id]);
    }
    SumNonNegative(s.accounts, InFlightOf);
  }

  // ----- one update among others -----

  /** While an update of a cluster is in flight, nothing but its own end changes that cluster. */
  lemma {:induction false} InFlightIsUndisturbed(s: Store, id: string, acts: seq<Act>)
    requires id in s.accounts && s.accounts[id].inFlight.Some? && Finish(id) !in acts
    ensures id in Exec(s, acts).accounts && Exec(s, acts).accounts[id] == s.accounts[id]
    decreases |acts|
  {
    if acts != [] {
      var last := |acts| - 1;
      assert forall i :: 0 <= i < last ==> acts[..last][i] == acts[i];
      InFlightIsUndisturbed(s, id, acts[..last]);
      assert acts[last] in acts;
    }
  }

  /** An admitted update always publishes its own values, whatever other updates do in between; until then
      readers are served what they were served before. */
  lemma AdmittedIsPublished(s: Store, id: string, values: map<string, Usage>, between: seq<Act>)
    requires Admit(s, id, values).1.Admitted? && Finish(id) !in between
    ensures var s' := Exec(Admit(s, id, values).0, between);
      && id in s'.accounts && s'.accounts[id].value == s.accounts[id].value
      && Step(s', Finish(id)).accounts[id] == Account(Some(Taken(values)), None)
  {
    InFlightIsUndisturbed(Admit(s, id, values).0, id, between);
  }

  /** Clusters that no act names keep their snapshot and their update in flight. */
  lemma {:induction false} OtherClustersAreUntouched(s: Store, id: string, acts: seq<Act>)
    requires id in s.accounts && forall i :: 0 <= i < |acts| ==> acts[i].id != id
    ensures id in Exec(s, acts).accounts && Exec(s, acts).accounts[id] == s.accounts[id]
    decreases |acts|
  {
    if acts != [] {
      OtherClustersAreUntouched(s, id, acts[..|acts| - 1]);
    }
  }

  /** An update that nothing interrupts, and whether it returns without an error. */
  ghost function UpdateAlone(s: Store, id: string, values: map<string, Usage>): (Store, bool)
  {
    var (s', reply) := Admit(s, id, values);
    if reply.Admitted? then (Publish(s', id), true) else (s', reply.Unchanged?)
  }

  lemma AloneKeepsBalance(s: Store, id: string, values: map<string, Usage>)
    requires Balanced(s)
    ensures Balanced(UpdateAlone(s, id, values).0)
  {
    AdmitKeepsBalance(s, id, values);
    if Admit(s, id, values).1.Admitted? {
      PublishKeepsBalance(Admit(s, id, values).0, id);
    }
  }

  /** What an update that nothing interrupts comes to. */
  lemma AloneByReply(s: Store, id: string, values: map<string, Usage>)
    ensures Admit(s, id, values).1.Admitted? ==>
      id in s.accounts && UpdateAlone(s, id, values) ==
        (s.(total := s.total.Plus(SizeOf(Some(Taken(values))).Minus(SizeOf(s.accounts[id].value))),
            accounts := s.accounts[id := Account(Some(Taken(values)), None)]), true)
    ensures !Admit(s, id, values).1.Admitted? ==> UpdateAlone(s, id, values) == (s, Admit(s, id, values).1.Unchanged?)
  {
    if Admit(s, id, values).1.Admitted? {
      var s' := Admit(s, id, values).0;
      var done := Account(Some(Taken(values)), None);
      assert s'.accounts[id := done] == s.accounts[id := done];
    }
  }

  // ----- the unchanged shortcut -----

  lemma SameSizeSubset<T>(a: set<T>, b: set<T>)
    requires a <= b && |a| == |b|
    ensures a == b
  {
    assert b == a + (b - a);
  }

  /** As many bytes and entries as before and every UID that was there before as it was; but some UIDs are new,
      and all of those are idle. */
  predicate IdleUidsReplaced(was: Snapshot, next: Snapshot)
  {
    && was.bytes == next.bytes && |was.values| == |next.values|
    && (forall uid :: uid in next.values && uid in was.values ==> next.values[uid] == was.values[uid])
    && (exists uid :: uid in next.values && uid !in was.values)
    && (forall uid :: uid in next.values && uid !in was.values ==> next.values[uid] == NoUsage)
  }

  /** The shortcut tells whether the snapshot has changed, except when idle UIDs were replaced by idle UIDs: then,
      and only then, it takes a changed snapshot for the old one. It never does the opposite. */
  lemma ShortcutIsRightIff(limits: Limits, was: Option<Snapshot>, next: Snapshot)
    requires (was.Some? ==> SoundSnapshot(limits, was.value)) && SoundSnapshot(limits, next)
    ensures (LooksUnchanged(was, next) <==> was == Some(next)) <==> !(was.Some? && IdleUidsReplaced(was.value, next))
    ensures was == Some(next) ==> LooksUnchanged(was, next)
  {
    if LooksUnchanged(was, next) {
      assert forall uid :: uid in next.values ==> Read(was.value.values, uid) == next.values[uid];
      if next.values.Keys <= was.value.values.Keys {
        SameSizeSubset(next.values.Keys, was.value.values.Keys);
        assert was.value.values == next.values;
      } else {
        assert exists uid :: uid in next.values.Keys && uid !in was.value.values.Keys;
      }
    }
  }

  /** No snapshot without a zero entry is ever mistaken for another one. */
  lemma NoZeroNoMistake(limits: Limits, was: Option<Snapshot>, next: Snapshot)
    requires (was.Some? ==> SoundSnapshot(limits, was.value)) && SoundSnapshot(limits, next)
    requires forall uid :: uid in next.values ==> next.values[uid] != NoUsage
    ensures LooksUnchanged(was, next) <==> was == Some(next)
  {
    ShortcutIsRightIff(limits, was, next);
  }

  /** It does fire wrongly: one idle container replaced by another under a UID as long. */
  lemma ShortcutMistakesAReplacedIdleUid()
    ensures var was, next := Taken(map["a" := NoUsage]), Taken(map["b" := NoUsage]);
      IdleUidsReplaced(was, next) && LooksUnchanged(Some(was), next) && was != next
  {
    var was, next := map["a" := NoUsage], map["b" := NoUsage];
    UidBytesSplit({"a"}, "a");
    UidBytesSplit({"b"}, "b");
    assert was.Keys == {"a"} && next.Keys == {"b"} && {"a"} - {"a"} == {} && {"b"} - {"b"} == {};
    assert "a" in was && "a" !in next;
  }

  /** Even then every UID of an accepted update is served its new usage, reading a missing one as none. */
  lemma AcceptedUpdateIsServed(s: Store, id: string, values: map<string, Usage>, uid: string)
    requires UpdateAlone(s, id, values).1 && uid in values
    ensures id in UpdateAlone(s, id, values).0.accounts
    ensures var a := UpdateAlone(s, id, values).0.accounts[id];
      a.value.Some? && Read(a.value.value.values, uid) == values[uid]
  {
  }

  // ----- which updates are refused -----

  /** The lengths of all the UIDs together. */
  ghost function UidLengths(uids: set<string>): nat
  {
    if uids == {} then 0 else var uid :| uid in uids; |uid| + UidLengths(uids - {uid})
  }

  lemma {:induction false} UidLengthsSplit(uids: set<string>, uid: string)
    requires uid in uids
    ensures UidLengths(uids) == |uid| + UidLengths(uids - {uid})
    decreases |uids|
  {
    var m :| m in uids && UidLengths(uids) == |m| + UidLengths(uids - {m});
    if m != uid {
      UidLengthsSplit(uids - {m}, uid);
      UidLengthsSplit(uids - {uid}, m);
      assert uids - {m} - {uid} == uids - {uid} - {m};
    }
  }

  lemma {:induction false} BytesAreCharged(uids: set<string>)
    ensures UidBytes(uids) == UidLengths(uids) + 128 * |uids|
    decreases |uids|
  {
    if uids != {} {
      var uid := Member(uids);
      BytesAreCharged(uids - {uid});
      UidLengthsSplit(uids, uid);
    }
  }

  /** How much an update asks for: its entries, and the bytes of its UIDs and 128 for each. */
  ghost function Asked(values: map<string, Usage>): Load
  {
    Load(|values|, UidLengths(values.Keys) + 128 * |values|)
  }

  /** The values may be stored for one cluster. */
  ghost predicate LegalValues(limits: Limits, values: map<string, Usage>)
  {
    && Asked(values).entries <= limits.perCluster.entries && Asked(values).bytes <= limits.perCluster.bytes
    && forall uid :: uid in values ==>
         && 1 <= |uid| <= 253
         && 0 <= values[uid].cpuMilli <= 1_000_000_000 && 0 <= values[uid].memoryMib <= 1_000_000_000
  }

  /** What the cluster has published takes up. */
  ghost function Occupied(a: Account): Load
  {
    if a.value.None? then Load(0, 0) else Asked(a.value.value.values)
  }

  /** As many entries and bytes as published, and each value as published, or none published and none used. */
  ghost predicate Same(a: Account, values: map<string, Usage>)
  {
    && a.value.Some? && Occupied(a) == Asked(values)
    && forall uid :: uid in values ==>
         if uid in a.value.value.values then values[uid] == a.value.value.values[uid] else values[uid] == Usage(0, 0)
  }

  function AtLeastZero(n: int): int
  {
    if n < 0 then 0 else n
  }

  /** One of the four sums passes its limit: what is published and reserved with what the update adds, or what is
      published and being built with the whole update. */
  ghost predicate TooMuch(s: Store, was: Load, new_: Load)
  {
    || s.total.entries + s.reserved.entries + AtLeastZero(new_.entries - was.entries) > s.limits.total.entries
    || s.total.bytes + s.reserved.bytes + AtLeastZero(new_.bytes - was.bytes) > s.limits.total.bytes
    || s.total.entries + s.build.entries + new_.entries > s.limits.peak.entries
    || s.total.bytes + s.build.bytes + new_.bytes > s.limits.peak.bytes
  }

  lemma AskedIsTaken(values: map<string, Usage>)
    ensures SizeOf(Some(Taken(values))) == Asked(values)
  {
    BytesAreCharged(values.Keys);
  }

  lemma LegalValuesIff(limits: Limits, values: map<string, Usage>)
    ensures ValidValues(limits, values) <==> LegalValues(limits, values)
  {
    BytesAreCharged(values.Keys);
  }

  lemma OccupiedIsSize(limits: Limits, a: Account)
    requires Sound(limits, a)
    ensures SizeOf(a.value) == Occupied(a)
  {
    if a.value.Some? {
      AskedIsTaken(a.value.value.values);
    }
  }

  /** On every balanced store: an update is refused exactly when its cluster is unknown, its values are illegal,
      or, none of the cluster being in flight and the values having changed, one of the four sums would pass its
      limit. It waits for one in flight; it changes nothing when the values look as published; and otherwise it
      is admitted. */
  lemma UpdateAnswer(s: Store, id: string, values: map<string, Usage>)
    requires Balanced(s)
    ensures var reply := Admit(s, id, values).1;
      if id !in s.accounts || !LegalValues(s.limits, values) then reply == Refused
      else if s.accounts[id].inFlight.Some? then reply == Waits
      else if Same(s.accounts[id], values) then reply == Unchanged
      else if TooMuch(s, Occupied(s.accounts[id]), Asked(values)) then reply == Refused
      else reply == Admitted
  {
    LegalValuesIff(s.limits, values);
    AskedIsTaken(values);
    if id in s.accounts {
      OccupiedIsSize(s.limits, s.accounts[id]);
    }
  }

  /** A known cluster with nothing in flight gets legal values that are not the published ones. */
  ghost predicate Changes(s: Store, id: string, values: map<string, Usage>)
  {
    id in s.accounts && LegalValues(s.limits, values) && s.accounts[id].inFlight.None? && !Same(s.accounts[id], values)
  }

  /** Over every interleaving: an update that asks for no more than it replaces is never refused for the total
      limits, only when the peak would be passed. */
  lemma NoLargerIsRefusedIff(limits: Limits, ids: set<string>, acts: seq<Act>, id: string, values: map<string, Usage>)
    requires NonNegativeLimits(limits)
    requires var s := Exec(NewStore(limits, ids), acts);
      Changes(s, id, values) && Asked(values).Within(Occupied(s.accounts[id]))
    ensures var s := Exec(NewStore(limits, ids), acts);
      Admit(s, id, values).1 ==
        if s.total.entries + s.build.entries + |values| > s.limits.peak.entries
           || s.total.bytes + s.build.bytes + UidLengths(values.Keys) + 128 * |values| > s.limits.peak.bytes
        then Refused else Admitted
  {
    EveryInterleavingIsBalanced(limits, ids, acts);
    UpdateAnswer(Exec(NewStore(limits, ids), acts), id, values);
  }

  /** With nothing in flight anywhere an update is admitted exactly when what it leads to is within the total
      limits and there is room for it beside what is published now. */
  lemma QuietStoreAdmitsIff(s: Store, id: string, values: map<string, Usage>)
    requires Balanced(s) && Changes(s, id, values) && forall i :: i in s.accounts ==> s.accounts[i].inFlight.None?
    ensures Admit(s, id, values).1.Admitted? <==>
      && s.total.entries - Occupied(s.accounts[id]).entries + |values| <= s.limits.total.entries
      && s.total.bytes - Occupied(s.accounts[id]).bytes + Asked(values).bytes <= s.limits.total.bytes
      && s.total.entries + |values| <= s.limits.peak.entries
      && s.total.bytes + Asked(values).bytes <= s.limits.peak.bytes
  {
    UpdateAnswer(s, id, values);
    QuietStoreHoldsNothingBack(s);
    TotalsStayWithinLimits(s);
  }

  /** So with the limits a store is made with, a peak of twice the total and one cluster's share the whole, it is
      admitted exactly when what it leads to is within the total limits. */
  lemma QuietDefaultStoreAdmitsIff(s: Store, id: string, values: map<string, Usage>)
    requires Balanced(s) && Changes(s, id, values) && forall i :: i in s.accounts ==> s.accounts[i].inFlight.None?
    requires s.limits.perCluster == s.limits.total && s.limits.peak == Load(2 * s.limits.total.entries, 2 * s.limits.total.bytes)
    ensures Admit(s, id, values).1.Admitted? <==>
      && s.total.entries - Occupied(s.accounts[id]).entries + |values| <= s.limits.total.entries
      && s.total.bytes - Occupied(s.accounts[id]).bytes + Asked(values).bytes <= s.limits.total.bytes
  {
    QuietStoreAdmitsIff(s, id, values);
    TotalsStayWithinLimits(s);
  }
}
