/** Login requests that have got past the global bucket, with the two sections that each of them runs under a
    lock as separate steps: looking its host's bucket up, and later taking a token from it. Steps of other
    requests may come in between, and the bucket may be evicted in between. */
module AuthInterleaving {
  import opened Options
  import opened AuthLimits
  import MapSums

  /** Where a host's bucket is, and the clock reading of the request that last looked it up. */
  datatype Slot = Slot(ref: nat, last: real)

  /** A request between its two sections; None stands for the shared bucket. */
  datatype Pending = Pending(host: string, now: real, ref: Option<nat>)

  /** Every bucket ever made, also those that are no longer in the table, and the requests that hold one. */
  datatype Desk = Desk(table: map<string, Slot>, buckets: seq<Bucket>, overflow: Bucket, waiting: map<nat, Pending>)

  /** By how much clock readings may be out of order: an idle host's bucket is full again even if the reading that
      evicts it is this much ahead, and the reading that brings it back this much behind. */
  const MaxSkew := 299.0

  const EmptyDesk := Desk(map[], [], FreshBucket, map[])

  /** A request looks its bucket up, with the idle host, if any, that makes room; or it takes its token. */
  datatype Act = LookUp(id: nat, host: string, now: real, victim: Option<string>) | Charge(id: nat)

  // ----- the steps -----

  function Without(d: Desk, victim: Option<string>): map<string, Slot>
  {
    if victim.Some? then d.table - {victim.value} else d.table
  }

  /** The table once the host has been looked for, and the bucket found. */
  function Find(d: Desk, host: string, now: real, victim: Option<string>): (Desk, Option<nat>)
  {
    if host in d.table then
      (d.(table := d.table[host := d.table[host].(last := now)]), Some(d.table[host].ref))
    else if |Without(d, victim)| >= MaxIdentities then
      (d.(table := Without(d, victim)), None)
    else
      (d.(table := Without(d, victim)[host := Slot(|d.buckets|, now)], buckets := d.buckets + [FreshBucket]),
       Some(|d.buckets|))
  }

  /** A token is taken from the bucket that was found, wherever it is by now. */
  function TakeFrom(d: Desk, ref: Option<nat>, now: real): (Desk, bool)
  {
    if ref.None? then
      var (b, ok) := Take(d.overflow, now, HostRate);
      (d.(overflow := b), ok)
    else if ref.value < |d.buckets| then
      var (b, ok) := Take(d.buckets[ref.value], now, HostRate);
      (d.(buckets := d.buckets[ref.value := b]), ok)
    else (d, false)
  }

  function Step(d: Desk, a: Act): (Desk, bool)
  {
    match a
    case LookUp(id, host, now, victim) =>
      var (found, ref) := Find(d, host, now, victim);
      (found.(waiting := d.waiting[id := Pending(host, now, ref)]), true)
    case Charge(id) =>
      if id !in d.waiting then (d, false)
      else
        var (taken, ok) := TakeFrom(d, d.waiting[id].ref, d.waiting[id].now);
        (taken.(waiting := d.waiting - {id}), ok)
  }

  function Run(acts: seq<Act>): Desk
  {
    if acts == [] then EmptyDesk else Step(Run(acts[..|acts| - 1]), acts[|acts| - 1]).0
  }

  predicate Idle(d: Desk, host: string, now: real)
  {
    host in d.table && now - d.table[host].last >= IdentityIdle
  }

  /** Any idle host may go, but only to make room for one that is not in a full table. */
  ghost predicate MayEvict(d: Desk, host: string, now: real, victim: Option<string>)
  {
    if host in d.table || |d.table| < MaxIdentities then victim.None?
    else if victim.Some? then Idle(d, victim.value, now)
    else forall h :: h in d.table ==> !Idle(d, h, now)
  }

  /** The latest clock reading with which a bucket has been looked up. */
  function Latest(acts: seq<Act>): Option<real>
  {
    if acts == [] then None
    else
      var before, a := acts[..|acts| - 1], acts[|acts| - 1];
      if a.LookUp? then Some(Later(Latest(before), a.now)) else Latest(before)
  }

  /** Readings older than the latest by no more than `skew`. */
  predicate InTime(latest: Option<real>, now: real, skew: real)
  {
    latest.None? || latest.value - skew <= now
  }

  ghost predicate LegalAct(d: Desk, latest: Option<real>, a: Act, skew: real)
  {
    match a
    case LookUp(id, host, now, victim) => id !in d.waiting && InTime(latest, now, skew) && MayEvict(d, host, now, victim)
    case Charge(id) => id in d.waiting
  }

  /** A clock is read before any lock is taken, so buckets may be looked up with readings out of order by up to
      `skew`. Nothing is said of when the tokens are taken. */
  ghost predicate Legal(acts: seq<Act>, skew: real)
  {
    if acts == [] then true
    else
      var before := acts[..|acts| - 1];
      Legal(before, skew) && LegalAct(Run(before), Latest(before), acts[|acts| - 1], skew)
  }

  // ----- what takes reach the host's bucket -----

  /** A request of the host takes its token from a bucket of the host's own. */
  predicate Takes(d: Desk, a: Act, host: string)
  {
    a.Charge? && a.id in d.waiting && d.waiting[a.id].host == host && d.waiting[a.id].ref.Some?
  }

  /** The bucket the request holds is the one its host has in the table. */
  predicate Holds(d: Desk, p: Pending)
  {
    p.host in d.table && p.ref == Some(d.table[p.host].ref)
  }

  /** And that bucket is still the one in the table. */
  predicate IsSeen(d: Desk, a: Act, host: string)
  {
    Takes(d, a, host) && Holds(d, d.waiting[a.id])
  }

  /** The clock readings of the requests whose takes were seen, in the order of the takes. */
  function SeenTimes(acts: seq<Act>, host: string): seq<real>
  {
    if acts == [] then []
    else
      var d, a := Run(acts[..|acts| - 1]), acts[|acts| - 1];
      SeenTimes(acts[..|acts| - 1], host) + if IsSeen(d, a, host) then [d.waiting[a.id].now] else []
  }

  /** How many of them were let through. */
  function SeenGrants(acts: seq<Act>, host: string): nat
  {
    if acts == [] then 0
    else
      var d, a := Run(acts[..|acts| - 1]), acts[|acts| - 1];
      SeenGrants(acts[..|acts| - 1], host) + if IsSeen(d, a, host) && Step(d, a).1 then 1 else 0
  }

  /** How many takes came too late to be seen. */
  function Lost(acts: seq<Act>, host: string): nat
  {
    if acts == [] then 0
    else
      var d, a := Run(acts[..|acts| - 1]), acts[|acts| - 1];
      Lost(acts[..|acts| - 1], host) + if Takes(d, a, host) && !IsSeen(d, a, host) then 1 else 0
  }

  /** The bucket the host would have if it had never been evicted. */
  function Lasting(acts: seq<Act>, host: string): Bucket
  {
    TakeAll(FreshBucket, SeenTimes(acts, host), HostRate)
  }

  lemma Snoc(acts: seq<Act>, a: Act, host: string)
    ensures (acts + [a])[..|acts|] == acts
    ensures Run(acts + [a]) == Step(Run(acts), a).0
    ensures Latest(acts + [a]) == if a.LookUp? then Some(Later(Latest(acts), a.now)) else Latest(acts)
    ensures !IsSeen(Run(acts), a, host) ==>
      SeenTimes(acts + [a], host) == SeenTimes(acts, host) && SeenGrants(acts + [a], host) == SeenGrants(acts, host)
      && Lasting(acts + [a], host) == Lasting(acts, host)
  {
    assert (acts + [a])[..|acts|] == acts;
    assert SeenTimes(acts, host) + [] == SeenTimes(acts, host);
  }

  lemma SeenSnoc(acts: seq<Act>, a: Act, host: string)
    requires IsSeen(Run(acts), a, host)
    ensures var now := Run(acts).waiting[a.id].now;
      && SeenTimes(acts + [a], host) == SeenTimes(acts, host) + [now]
      && Lasting(acts + [a], host) == Take(Lasting(acts, host), now, HostRate).0
      && SeenGrants(acts + [a], host) == SeenGrants(acts, host) + (if Step(Run(acts), a).1 then 1 else 0)
      && Admissions(FreshBucket, SeenTimes(acts + [a], host), HostRate)
         == Admissions(FreshBucket, SeenTimes(acts, host), HostRate)
            + (if Take(Lasting(acts, host), now, HostRate).1 then 1 else 0)
  {
    var now := Run(acts).waiting[a.id].now;
    var times := SeenTimes(acts, host);
    assert (acts + [a])[..|acts|] == acts;
    assert (times + [now])[..|times|] == times;
  }

  // ----- the books of the desk -----

  predicate Exist(table: map<string, Slot>, n: nat)
  {
    forall h :: h in table ==> table[h].ref < n
  }

  /** Every bucket of the table is a bucket of its own. */
  predicate OwnBuckets(table: map<string, Slot>, n: nat)
  {
    && Exist(table, n)
    && (forall h, k :: h in table && k in table && table[h].ref == table[k].ref ==> h == k)
  }

  /** If what a request holds is a bucket of the table, it is its own host's. */
  predicate HoldsOwn(table: map<string, Slot>, n: nat, p: Pending)
  {
    p.ref.Some? ==> p.ref.value < n && forall h :: h in table && table[h].ref == p.ref.value ==> p.host == h
  }

  ghost predicate Sound(d: Desk)
  {
    OwnBuckets(d.table, |d.buckets|) && forall i :: i in d.waiting ==> HoldsOwn(d.table, |d.buckets|, d.waiting[i])
  }

  lemma OneMoreBucket(table: map<string, Slot>, n: nat, host: string, now: real)
    requires OwnBuckets(table, n)
    ensures OwnBuckets(table[host := Slot(n, now)], n + 1)
  {
  }

  lemma FindIsSound(d: Desk, host: string, now: real, victim: Option<string>)
    requires OwnBuckets(d.table, |d.buckets|)
    ensures var (d', ref) := Find(d, host, now, victim);
      OwnBuckets(d'.table, |d'.buckets|) && HoldsOwn(d'.table, |d'.buckets|, Pending(host, now, ref))
  {
    if host !in d.table {
      OneMoreBucket(Without(d, victim), |d.buckets|, host, now);
    }
  }

  lemma FindKeepsHeld(d: Desk, host: string, now: real, victim: Option<string>, p: Pending)
    requires OwnBuckets(d.table, |d.buckets|) && HoldsOwn(d.table, |d.buckets|, p)
    ensures var d' := Find(d, host, now, victim).0; HoldsOwn(d'.table, |d'.buckets|, p)
  {
  }

  lemma StepIsSound(d: Desk, a: Act)
    requires Sound(d)
    ensures Sound(Step(d, a).0)
  {
    if a.LookUp? {
      FindIsSound(d, a.host, a.now, a.victim);
      forall i | i in d.waiting ensures HoldsOwn(Step(d, a).0.table, |Step(d, a).0.buckets|, d.waiting[i]) {
        FindKeepsHeld(d, a.host, a.now, a.victim, d.waiting[i]);
      }
    }
  }

  lemma {:induction false} RunIsSound(acts: seq<Act>)
    ensures Sound(Run(acts))
    decreases |acts|
  {
    if acts != [] {
      RunIsSound(acts[..|acts| - 1]);
      StepIsSound(Run(acts[..|acts| - 1]), acts[|acts| - 1]);
    }
  }

  /** t is so long ago that a bucket not used since may be gone. */
  predicate LongAgo(latest: Option<real>, t: real, skew: real)
  {
    latest.Some? && latest.value - t >= IdentityIdle - skew
  }

  /** Then it was found not much after the host's last look-up; and if it is no longer, then long ago. */
  predicate InHand(d: Desk, latest: Option<real>, p: Pending, skew: real)
  {
    && latest.Some? && p.now <= latest.value
    && (p.ref.Some? ==> if Holds(d, p) then p.now - skew <= d.table[p.host].last else LongAgo(latest, p.now, skew))
  }

  ghost predicate AllInHand(d: Desk, latest: Option<real>, skew: real)
  {
    forall i :: i in d.waiting ==> InHand(d, latest, d.waiting[i], skew)
  }

  lemma StepInHand(d: Desk, latest: Option<real>, a: Act, p: Pending, skew: real)
    requires 0.0 <= skew && Sound(d) && InHand(d, latest, p, skew) && LegalAct(d, latest, a, skew)
    ensures InHand(Step(d, a).0, if a.LookUp? then Some(Later(latest, a.now)) else latest, p, skew)
  {
  }

  /** Over every run: a request whose bucket is no longer the one in the table has a clock reading at least
      600 seconds less the skew behind the latest. */
  lemma {:induction false} RunInHand(acts: seq<Act>, skew: real)
    requires 0.0 <= skew && Legal(acts, skew)
    ensures AllInHand(Run(acts), Latest(acts), skew)
    decreases |acts|
  {
    if acts != [] {
      var before, a := acts[..|acts| - 1], acts[|acts| - 1];
      RunInHand(before, skew);
      RunIsSound(before);
      var d, d' := Run(before), Run(acts);
      forall i | i in d'.waiting ensures InHand(d', Latest(acts), d'.waiting[i], skew) {
        if i in d.waiting && d'.waiting[i] == d.waiting[i] {
          StepInHand(d, Latest(before), a, d.waiting[i], skew);
        }
      }
    }
  }

  // ----- a request that nobody interrupts -----

  function BucketAt(buckets: seq<Bucket>, ref: nat): Bucket
  {
    if ref < |buckets| then buckets[ref] else FreshBucket
  }

  /** The identity table with each bucket in its place. */
  function Table(d: Desk): map<string, Identity>
  {
    map h | h in d.table :: Identity(BucketAt(d.buckets, d.table[h].ref), d.table[h].last)
  }

  predicate Same(g: Guard, d: Desk)
  {
    g.identities == Table(d) && g.overflow == d.overflow
  }

  lemma TableKeys(d: Desk)
    ensures Table(d).Keys == d.table.Keys && |Table(d)| == |d.table|
  {
    assert Table(d).Keys == d.table.Keys;
  }

  lemma SameVictims(g: Guard, d: Desk, host: string, now: real, victim: Option<string>)
    requires Sound(d) && Same(g, d)
    ensures MayEvict(d, host, now, victim) <==> LegalVictim(g, host, now, victim)
  {
    TableKeys(d);
    assert forall h :: Idle(d, h, now) <==> IsIdle(g, h, now);
  }

  lemma AloneMakesRoom(d: Desk, victim: Option<string>)
    ensures Table(d.(table := Without(d, victim))) == if victim.Some? then Table(d) - {victim.value} else Table(d)
  {
  }

  lemma AloneAdds(d: Desk, host: string, now: real)
    requires Exist(d.table, |d.buckets|)
    ensures Table(d.(table := d.table[host := Slot(|d.buckets|, now)], buckets := d.buckets + [FreshBucket]))
         == Table(d)[host := Identity(FreshBucket, now)]
  {
  }

  lemma AloneTouches(d: Desk, host: string, now: real)
    requires host in d.table
    ensures Table(d.(table := d.table[host := d.table[host].(last := now)])) == Table(d)[host := Table(d)[host].(last := now)]
  {
  }

  /** The two models find the same bucket in the same table. */
  lemma AloneFinds(g: Guard, d: Desk, host: string, now: real, victim: Option<string>)
    requires Exist(d.table, |d.buckets|) && Same(g, d)
    ensures var (d', ref) := Find(d, host, now, victim); Located(g, host, now, victim) == (Table(d'), ref.Some?)
  {
    TableKeys(d);
    if host in d.table {
      AloneTouches(d, host, now);
    } else {
      var rest := d.(table := Without(d, victim));
      AloneMakesRoom(d, victim);
      TableKeys(rest);
      AloneRoom(g, d, host, now, victim, Table(rest));
    }
  }

  lemma AloneRoom(g: Guard, d: Desk, host: string, now: real, victim: Option<string>, rest: map<string, Identity>)
    requires Exist(d.table, |d.buckets|) && host !in d.table && host !in g.identities
    requires rest == Table(d.(table := Without(d, victim))) && |rest| == |Without(d, victim)|
    requires rest == if victim.Some? then g.identities - {victim.value} else g.identities
    ensures var (d', ref) := Find(d, host, now, victim); Located(g, host, now, victim) == (Table(d'), ref.Some?)
  {
    var d' := d.(table := Without(d, victim));
    assert Exist(d'.table, |d'.buckets|);
    AloneAdds(d', host, now);
  }

  lemma WhereFound(d: Desk, host: string, now: real, victim: Option<string>)
    ensures var (d', ref) := Find(d, host, now, victim);
      d'.overflow == d.overflow && (ref.Some? ==> host in d'.table && ref == Some(d'.table[host].ref))
  {
  }

  lemma AloneTakes(d: Desk, host: string, now: real)
    requires OwnBuckets(d.table, |d.buckets|) && host in d.table
    ensures var (b, ok) := Take(Table(d)[host].bucket, now, HostRate);
      var (d', ok') := TakeFrom(d, Some(d.table[host].ref), now);
      ok == ok' && Table(d') == Table(d)[host := Table(d)[host].(bucket := b)] && d'.overflow == d.overflow
  {
  }

  /** What is taken does not depend on who else is waiting. */
  lemma WaitingApart(d: Desk, waiting: map<nat, Pending>, id: nat, p: Pending)
    requires id !in waiting
    ensures var (d', ok) := Step(d.(waiting := waiting[id := p]), Charge(id));
      var (taken, granted) := TakeFrom(d, p.ref, p.now);
      ok == granted && d'.waiting == waiting && d'.overflow == taken.overflow && Table(d') == Table(taken)
  {
    assert waiting[id := p] - {id} == waiting;
  }

  /** With nothing in between, the two steps are what AuthLimits makes of the request. */
  lemma AloneIsCharged(g: Guard, d: Desk, id: nat, host: string, now: real, victim: Option<string>)
    requires Sound(d) && Same(g, d) && id !in d.waiting
    ensures MayEvict(d, host, now, victim) <==> LegalVictim(g, host, now, victim)
    ensures var (g', ok) := Charged(g, Call.Acquire(true, host, now, victim));
      var (d', ok') := Step(Step(d, LookUp(id, host, now, victim)).0, Charge(id));
      ok == ok' && Same(g', d') && d'.waiting == d.waiting
  {
    SameVictims(g, d, host, now, victim);
    AloneFinds(g, d, host, now, victim);
    WhereFound(d, host, now, victim);
    var (found, ref) := Find(d, host, now, victim);
    FindIsSound(d, host, now, victim);
    TableKeys(found);
    if ref.Some? {
      AloneTakes(found, host, now);
    }
    WaitingApart(found, d.waiting, id, Pending(host, now, ref));
  }

  // ----- evictions do not show -----

  /** A bucket last used at t would be full again by now. */
  predicate Refilled(t: real, now: real)
  {
    t < now && Inflow(t, now, HostRate) >= HostRate.burst
  }

  /** The bucket in the table is the lasting one; or it is new, that one has not been used for long, and to
      everyone who holds the new one they come to the same. */
  ghost predicate Matches(d: Desk, latest: Option<real>, b: Bucket, host: string, skew: real)
    requires host in d.table && d.table[host].ref < |d.buckets|
  {
    var slot := d.table[host];
    || (d.buckets[slot.ref] == b && (b.last.Some? ==> b.last.value - skew <= slot.last))
    || (&& d.buckets[slot.ref] == FreshBucket && b.last.Some? && LongAgo(latest, b.last.value, skew)
        && forall i :: i in d.waiting && d.waiting[i].ref == Some(slot.ref) ==> Refilled(b.last.value, d.waiting[i].now))
  }

  ghost predicate Faithful(d: Desk, latest: Option<real>, b: Bucket, host: string, skew: real)
  {
    && Sane(b, HostRate) && (b.last.None? ==> b == FreshBucket)
    && (b.last.Some? ==> latest.Some? && b.last.value <= latest.value)
    && if host in d.table then d.table[host].ref < |d.buckets| && Matches(d, latest, b, host, skew)
       else b.last.Some? ==> LongAgo(latest, b.last.value, skew)
  }

  /** A take that is seen does to the host's bucket, and decides, what it would with the lasting one. */
  lemma SeenTakeIsFaithful(d: Desk, latest: Option<real>, b: Bucket, a: Act, host: string, skew: real)
    requires Faithful(d, latest, b, host, skew) && Sound(d) && AllInHand(d, latest, skew) && IsSeen(d, a, host)
    ensures var (after, ok) := Take(b, d.waiting[a.id].now, HostRate);
      Faithful(Step(d, a).0, latest, after, host, skew) && Step(d, a).1 == ok
  {
    var now := d.waiting[a.id].now;
    TakeIsSane(b, now, HostRate);
    if d.buckets[d.table[host].ref] != b {
      IdleBucketIsLikeFresh(b, now, HostRate);
    }
  }

  /** So does any other step, to the bucket of a host it does not take from. */
  lemma OtherChargeIsFaithful(d: Desk, latest: Option<real>, b: Bucket, a: Act, host: string, skew: real)
    requires Faithful(d, latest, b, host, skew) && Sound(d) && a.Charge? && !IsSeen(d, a, host)
    ensures Faithful(Step(d, a).0, latest, b, host, skew)
  {
    if a.id in d.waiting {
      assert HoldsOwn(d.table, |d.buckets|, d.waiting[a.id]);
      assert host in d.table ==> d.waiting[a.id].ref != Some(d.table[host].ref);
    }
  }

  lemma OtherLookUpIsFaithful(d: Desk, latest: Option<real>, b: Bucket, a: Act, host: string, skew: real)
    requires 0.0 <= skew && Faithful(d, latest, b, host, skew) && Sound(d) && a.LookUp? && a.host != host
    requires LegalAct(d, latest, a, skew)
    ensures Faithful(Step(d, a).0, Some(Later(latest, a.now)), b, host, skew)
  {
    FindIsSound(d, a.host, a.now, a.victim);
  }

  lemma OwnLookUpIsFaithful(d: Desk, latest: Option<real>, b: Bucket, a: Act, skew: real)
    requires 0.0 <= skew <= MaxSkew && a.LookUp? && Faithful(d, latest, b, a.host, skew) && Sound(d)
    requires LegalAct(d, latest, a, skew)
    ensures Faithful(Step(d, a).0, Some(Later(latest, a.now)), b, a.host, skew)
  {
    FindIsSound(d, a.host, a.now, a.victim);
  }

  ghost predicate RunFaithful(acts: seq<Act>, host: string, skew: real)
  {
    && Faithful(Run(acts), Latest(acts), Lasting(acts, host), host, skew)
    && SeenGrants(acts, host) == Admissions(FreshBucket, SeenTimes(acts, host), HostRate)
  }

  lemma UnseenStepIsFaithful(d: Desk, latest: Option<real>, b: Bucket, a: Act, host: string, skew: real)
    requires 0.0 <= skew <= MaxSkew && Faithful(d, latest, b, host, skew) && Sound(d)
    requires LegalAct(d, latest, a, skew) && !IsSeen(d, a, host)
    ensures Faithful(Step(d, a).0, if a.LookUp? then Some(Later(latest, a.now)) else latest, b, host, skew)
  {
    if a.Charge? {
      OtherChargeIsFaithful(d, latest, b, a, host, skew);
    } else if a.host == host {
      OwnLookUpIsFaithful(d, latest, b, a, skew);
    } else {
      OtherLookUpIsFaithful(d, latest, b, a, host, skew);
    }
  }

  lemma UnseenStep(acts: seq<Act>, a: Act, host: string, skew: real)
    requires 0.0 <= skew <= MaxSkew && LegalAct(Run(acts), Latest(acts), a, skew)
    requires RunFaithful(acts, host, skew) && !IsSeen(Run(acts), a, host)
    ensures RunFaithful(acts + [a], host, skew)
  {
    RunIsSound(acts);
    Snoc(acts, a, host);
    UnseenStepIsFaithful(Run(acts), Latest(acts), Lasting(acts, host), a, host, skew);
  }

  lemma SeenStep(acts: seq<Act>, a: Act, host: string, skew: real)
    requires 0.0 <= skew && Legal(acts, skew) && RunFaithful(acts, host, skew) && IsSeen(Run(acts), a, host)
    ensures RunFaithful(acts + [a], host, skew)
  {
    RunIsSound(acts);
    RunInHand(acts, skew);
    Snoc(acts, a, host);
    SeenSnoc(acts, a, host);
    SeenTakeIsFaithful(Run(acts), Latest(acts), Lasting(acts, host), a, host, skew);
  }

  /** Over every run, whatever steps come between a look-up and its take, and with clock readings out of order
      by up to the skew: the takes that are seen do to the host's bucket, and decide, just what they would if no
      bucket were ever evicted. */
  lemma {:induction false} EvictionIsInvisible(acts: seq<Act>, host: string, skew: real)
    requires 0.0 <= skew <= MaxSkew && Legal(acts, skew)
    ensures RunFaithful(acts, host, skew)
    decreases |acts|
  {
    if acts != [] {
      var before, a := acts[..|acts| - 1], acts[|acts| - 1];
      assert acts == before + [a];
      EvictionIsInvisible(before, host, skew);
      if IsSeen(Run(before), a, host) {
        SeenStep(before, a, host, skew);
      } else {
        UnseenStep(before, a, host, skew);
      }
    }
  }

  /** No token is taken more than `delay` seconds after it was asked for, by the latest clock reading. */
  ghost predicate Prompt(acts: seq<Act>, delay: real)
  {
    if acts == [] then true
    else
      var before, a := acts[..|acts| - 1], acts[|acts| - 1];
      && Prompt(before, delay)
      && (a.Charge? && a.id in Run(before).waiting && Latest(before).Some? ==>
            Latest(before).value - Run(before).waiting[a.id].now <= delay)
  }

  /** A take whose bucket has been evicted since it was looked up is lost: no bucket of the table changes. And the
      request is at least 600 seconds less the skew late. */
  lemma LostTake(acts: seq<Act>, a: Act, host: string, skew: real)
    requires 0.0 <= skew && Legal(acts, skew) && Takes(Run(acts), a, host)
    ensures !IsSeen(Run(acts), a, host) ==>
      var d, d' := Run(acts), Run(acts + [a]);
      && LongAgo(Latest(acts), d.waiting[a.id].now, skew) && d'.table == d.table && |d'.buckets| == |d.buckets|
      && forall h :: h in d.table ==> d.table[h].ref < |d.buckets| && d'.buckets[d.table[h].ref] == d.buckets[d.table[h].ref]
  {
    RunIsSound(acts);
    RunInHand(acts, skew);
    Snoc(acts, a, host);
    assert HoldsOwn(Run(acts).table, |Run(acts).buckets|, Run(acts).waiting[a.id]);
    assert InHand(Run(acts), Latest(acts), Run(acts).waiting[a.id], skew);
  }

  /** So none is lost if tokens are taken promptly. */
  lemma {:induction false} NothingIsLost(acts: seq<Act>, host: string, skew: real, delay: real)
    requires 0.0 <= skew && delay < IdentityIdle - skew && Legal(acts, skew) && Prompt(acts, delay)
    ensures Lost(acts, host) == 0
    decreases |acts|
  {
    if acts != [] {
      var before, a := acts[..|acts| - 1], acts[|acts| - 1];
      NothingIsLost(before, host, skew, delay);
      if Takes(Run(before), a, host) {
        LostTake(before, a, host, skew);
      }
    }
  }

  /** How many requests of the host its own buckets let through, evicted or not. */
  function Grants(acts: seq<Act>, host: string): nat
  {
    if acts == [] then 0
    else
      var d, a := Run(acts[..|acts| - 1]), acts[|acts| - 1];
      Grants(acts[..|acts| - 1], host) + if Takes(d, a, host) && Step(d, a).1 then 1 else 0
  }

  lemma {:induction false} EarlierPart(acts: seq<Act>, m: nat, host: string, skew: real)
    requires Legal(acts, skew) && m <= |acts|
    ensures Legal(acts[..m], skew) && SeenTimes(acts[..m], host) <= SeenTimes(acts, host)
    ensures var late, early := acts, acts[..m];
      Grants(late, host) - Grants(early, host)
      <= SeenGrants(late, host) - SeenGrants(early, host) + Lost(late, host) - Lost(early, host)
    decreases |acts|
  {
    if m == |acts| {
      assert acts[..m] == acts;
    } else {
      var before := acts[..|acts| - 1];
      assert before[..m] == acts[..m];
      EarlierPart(before, m, host, skew);
    }
  }

  /** The bound per host survives evictions: in any stretch of any run, from step m on, a host's own buckets let
      through at most 20 requests, 10 more for each second between its first and its last in the stretch, and
      the takes that were lost. */
  lemma HostBoundSurvivesEviction(acts: seq<Act>, m: nat, host: string, skew: real)
    requires 0.0 <= skew <= MaxSkew && Legal(acts, skew) && m <= |acts|
    requires |SeenTimes(acts[..m], host)| < |SeenTimes(acts, host)|
    ensures Lasting(acts, host).last.Some?
    ensures var first := SeenTimes(acts, host)[|SeenTimes(acts[..m], host)|];
      (Grants(acts, host) - Grants(acts[..m], host)) as real
      <= HostRate.burst + Inflow(first, Lasting(acts, host).last.value, HostRate)
         + (Lost(acts, host) - Lost(acts[..m], host)) as real
  {
    var early, all := SeenTimes(acts[..m], host), SeenTimes(acts, host);
    EarlierPart(acts, m, host, skew);
    EvictionIsInvisible(acts, host, skew);
    EvictionIsInvisible(acts[..m], host, skew);
    var late := all[|early|..];
    assert all == early + late;
    AdmissionsSplit(FreshBucket, early, late, HostRate);
    AdmissionsSince(Lasting(acts[..m], host), late, HostRate);
  }

  // ----- runs that show that neither bound can be wider -----

  /** Hosts that fill the table; the hosts the runs are about. */
  function Name(i: nat): (name: string)
    ensures |name| == i
  {
    seq(i, k => 'h')
  }

  const Target := "x"
  const Other := "y"

  /** Host after host is looked up, a second apart. */
  function FillingUp(n: nat): seq<Act>
  {
    if n == 0 then [] else FillingUp(n - 1) + [LookUp(n - 1, Name(n - 1), (n - 1) as real - 2000.0, None)]
  }

  predicate IsFiller(h: string, n: nat)
  {
    |h| < n && h == Name(|h|)
  }

  /** The table after n of them. */
  ghost predicate FilledUp(d: Desk, n: nat)
  {
    && |d.table| == n && (forall h :: h in d.table <==> IsFiller(h, n))
    && (forall h :: h in d.table ==> d.table[h].last <= -900.0)
    && forall i :: i in d.waiting ==> i < n
  }

  /** Nothing has been charged to the target yet. */
  ghost predicate Untouched(acts: seq<Act>, skew: real, delay: real)
  {
    && Legal(acts, skew) && Prompt(acts, delay)
    && SeenTimes(acts, Target) == [] && SeenGrants(acts, Target) == 0 && Lost(acts, Target) == 0
  }

  lemma LookUpIsLegal(acts: seq<Act>, a: Act, skew: real, delay: real)
    requires Legal(acts, skew) && a.LookUp? && LegalAct(Run(acts), Latest(acts), a, skew)
    ensures Legal(acts + [a], skew) && (Prompt(acts, delay) ==> Prompt(acts + [a], delay))
    ensures Lost(acts + [a], Target) == Lost(acts, Target)
    ensures SeenTimes(acts + [a], Target) == SeenTimes(acts, Target)
    ensures SeenGrants(acts + [a], Target) == SeenGrants(acts, Target)
    ensures Run(acts + [a]) == Step(Run(acts), a).0 && Latest(acts + [a]) == Some(Later(Latest(acts), a.now))
  {
    Snoc(acts, a, Target);
  }

  lemma FillOneMore(d: Desk, n: nat)
    requires FilledUp(d, n) && n < MaxIdentities - 1
    ensures var a := LookUp(n, Name(n), n as real - 2000.0, None);
      FilledUp(Step(d, a).0, n + 1) && a.id !in d.waiting && MayEvict(d, a.host, a.now, None)
  {
    assert !IsFiller(Name(n), n);
    forall h ensures IsFiller(h, n + 1) <==> IsFiller(h, n) || h == Name(n) {
    }
  }

  lemma {:induction false} FillUp(n: nat, skew: real, delay: real)
    requires 0.0 <= skew && n <= MaxIdentities - 1
    ensures Untouched(FillingUp(n), skew, delay) && FilledUp(Run(FillingUp(n)), n)
    ensures Latest(FillingUp(n)) == if n == 0 then None else Some((n - 1) as real - 2000.0)
    decreases n
  {
    if n > 0 {
      FillUp(n - 1, skew, delay);
      var a := LookUp(n - 1, Name(n - 1), (n - 1) as real - 2000.0, None);
      FillOneMore(Run(FillingUp(n - 1)), n - 1);
      LookUpIsLegal(FillingUp(n - 1), a, skew, delay);
    }
  }

  /** The host that makes the table full. */
  lemma LastPlace(d: Desk, host: string)
    requires FilledUp(d, MaxIdentities - 1) && (host == Target || host == Other)
    ensures host !in d.table && |d.table[host := Slot(0, 0.0)]| == MaxIdentities
    ensures MayEvict(d, host, 0.0, None)
  {
    assert !IsFiller(host, MaxIdentities - 1) by {
      assert |host| == 1 && Name(1)[0] == 'h';
    }
  }

  /** The table is full, with the target and an idle filler in it. */
  ghost predicate Full(d: Desk)
  {
    && |d.table| == MaxIdentities && Target in d.table && Other !in d.table
    && Name(0) in d.table && d.table[Name(0)].last <= -900.0
    && 2001 !in d.waiting && 2002 !in d.waiting && 2003 !in d.waiting
  }

  /** The target gone again. */
  ghost predicate Evicted(d: Desk)
  {
    && |d.table| == MaxIdentities && Target !in d.table && Name(0) in d.table && d.table[Name(0)].last <= -900.0
    && 2003 !in d.waiting
  }

  lemma Touched(d: Desk, latest: Option<real>, s: real)
    requires 0.0 <= s && Full(d) && latest == Some(0.0)
    ensures var a := LookUp(2001, Target, 0.0 - s, None);
      var d' := Step(d, a).0;
      && LegalAct(d, latest, a, s) && Full(d'.(waiting := d.waiting)) && 2002 !in d'.waiting && 2003 !in d'.waiting
      && d'.table[Target] == d.table[Target].(last := 0.0 - s) && Later(latest, a.now) == 0.0
      && (2000 in d.waiting ==> 2000 in d'.waiting && d'.waiting[2000] == d.waiting[2000])
  {
    assert Name(0) != Target;
  }

  lemma ThenEvicted(d: Desk, latest: Option<real>, s: real)
    requires 0.0 <= s && Full(d.(waiting := map[])) && 2002 !in d.waiting && 2003 !in d.waiting && latest == Some(0.0)
    requires d.table[Target].last == 0.0 - s
    ensures var a := LookUp(2002, Other, IdentityIdle - s, Some(Target));
      var d' := Step(d, a).0;
      && LegalAct(d, latest, a, s) && Evicted(d')
      && (2000 in d.waiting ==> 2000 in d'.waiting && d'.waiting[2000] == d.waiting[2000])
  {
    assert Name(0) != Target && Name(0) != Other;
    assert |d.table - {Target}| == MaxIdentities - 1 by {
      MapSums.CountRemove(d.table, Target);
    }
    assert (d.table - {Target})[Other := Slot(|d.buckets|, IdentityIdle - s)].Keys == d.table.Keys - {Target} + {Other};
  }

  /** The target is looked up with a reading `s` older, and 600 seconds after that reading it is evicted. */
  lemma TouchAndEvict(acts: seq<Act>, s: real, delay: real) returns (acts': seq<Act>)
    requires 0.0 <= s && Legal(acts, s) && Full(Run(acts)) && Latest(acts) == Some(0.0)
    ensures Legal(acts', s) && (Prompt(acts, delay) ==> Prompt(acts', delay)) && Evicted(Run(acts'))
    ensures Latest(acts') == Some(Later(Some(0.0), IdentityIdle - s))
    ensures Lost(acts', Target) == Lost(acts, Target) && SeenTimes(acts', Target) == SeenTimes(acts, Target)
    ensures SeenGrants(acts', Target) == SeenGrants(acts, Target)
    ensures 2000 in Run(acts).waiting ==>
      2000 in Run(acts').waiting && Run(acts').waiting[2000] == Run(acts).waiting[2000]
  {
    var touch, evict := LookUp(2001, Target, 0.0 - s, None), LookUp(2002, Other, IdentityIdle - s, Some(Target));
    Touched(Run(acts), Latest(acts), s);
    LookUpIsLegal(acts, touch, s, delay);
    ThenEvicted(Run(acts + [touch]), Latest(acts + [touch]), s);
    LookUpIsLegal(acts + [touch], evict, s, delay);
    acts' := acts + [touch] + [evict];
  }

  lemma TargetComes(d: Desk, latest: Option<real>, id: nat, s: real)
    requires FilledUp(d, MaxIdentities - 1) && id >= MaxIdentities && id != 2001 && id != 2002 && id != 2003
    requires 0.0 <= s && InTime(latest, 0.0, s)
    ensures var a := LookUp(id, Target, 0.0, None);
      var d' := Step(d, a).0;
      LegalAct(d, latest, a, s) && Full(d') && d'.waiting[id] == Pending(Target, 0.0, Some(|d.buckets|))
  {
    LastPlace(d, Target);
    LastPlace(d, Other);
    assert d.table[Target := Slot(|d.buckets|, 0.0)].Keys == d.table[Target := Slot(0, 0.0)].Keys;
    assert IsFiller(Name(0), MaxIdentities - 1);
  }

  lemma TakesTooLate(acts: seq<Act>, s: real, delay: real, ref: nat)
    requires Legal(acts, s) && Prompt(acts, delay) && Target !in Run(acts).table
    requires 2000 in Run(acts).waiting && Run(acts).waiting[2000] == Pending(Target, 0.0, Some(ref))
    requires Latest(acts).Some? && Latest(acts).value <= delay
    ensures var after := acts + [Charge(2000)]; Legal(after, s) && Prompt(after, delay) && Lost(after, Target) > 0
  {
    assert (acts + [Charge(2000)])[..|acts|] == acts;
  }

  /** A take can be lost as soon as tokens may be taken so late. */
  lemma TakeIsLost(skew: real, delay: real) returns (acts: seq<Act>)
    requires 0.0 <= skew && 0.0 <= delay && IdentityIdle - skew <= delay
    ensures Legal(acts, skew) && Prompt(acts, delay) && Lost(acts, Target) > 0
  {
    var start, first := FillingUp(MaxIdentities - 1), LookUp(2000, Target, 0.0, None);
    FillUp(MaxIdentities - 1, skew, delay);
    TargetComes(Run(start), Latest(start), 2000, skew);
    LookUpIsLegal(start, first, skew, delay);
    acts := TouchAndEvict(start + [first], skew, delay);
    TakesTooLate(acts, skew, delay, |Run(start).buckets|);
    acts := acts + [Charge(2000)];
  }

  /** Every take is seen, in every run, exactly when tokens are taken less than 600 seconds less the skew after
      they are asked for. */
  lemma EveryTakeIsSeenIff(skew: real, delay: real)
    requires 0.0 <= skew && 0.0 <= delay
    ensures (forall acts, host :: Legal(acts, skew) && Prompt(acts, delay) ==> Lost(acts, host) == 0)
            <==> delay < IdentityIdle - skew
  {
    if delay < IdentityIdle - skew {
      forall acts, host | Legal(acts, skew) && Prompt(acts, delay) ensures Lost(acts, host) == 0 {
        NothingIsLost(acts, host, skew, delay);
      }
    } else {
      var acts := TakeIsLost(skew, delay);
      assert Lost(acts, Target) != 0;
    }
  }

  // ----- twenty requests at once -----

  /** What the target's bucket is, whether in the table or still to be made. */
  function BucketOf(d: Desk): Bucket
  {
    if Target in d.table then BucketAt(d.buckets, d.table[Target].ref) else FreshBucket
  }

  /** The target can be looked up and gets a bucket of its own. */
  ghost predicate Welcome(acts: seq<Act>, now: real, victim: Option<string>, skew: real)
  {
    var d := Run(acts);
    && Legal(acts, skew) && 2003 !in d.waiting && InTime(Latest(acts), now, skew) && MayEvict(d, Target, now, victim)
    && (Target in d.table || |Without(d, victim)| < MaxIdentities)
  }

  function Request(now: real, victim: Option<string>): seq<Act>
  {
    [LookUp(2003, Target, now, victim), Charge(2003)]
  }

  function FoundTable(d: Desk, now: real, victim: Option<string>): map<string, Slot>
  {
    Find(d, Target, now, victim).0.table
  }

  /** One request of the target and nothing in between, as the desk sees it. */
  lemma RequestSteps(d: Desk, now: real, victim: Option<string>)
    requires OwnBuckets(d.table, |d.buckets|) && 2003 !in d.waiting
    requires Target in d.table || |Without(d, victim)| < MaxIdentities
    ensures var d1 := Step(d, LookUp(2003, Target, now, victim)).0;
      var (d2, ok) := Step(d1, Charge(2003));
      && IsSeen(d1, Charge(2003), Target) && d1.waiting[2003].now == now
      && d2.table == FoundTable(d, now, victim) && d2.waiting == d.waiting && Target in d2.table
      && (BucketOf(d2), ok) == Take(BucketOf(d), now, HostRate)
  {
  }

  lemma OneRequest(acts: seq<Act>, now: real, victim: Option<string>, skew: real)
    requires 0.0 <= skew && Welcome(acts, now, victim, skew) && Sound(Run(acts))
    ensures var after := acts + Request(now, victim);
      var (b, ok) := Take(BucketOf(Run(acts)), now, HostRate);
      && Legal(after, skew) && Latest(after) == Some(Later(Latest(acts), now))
      && Run(after).table == FoundTable(Run(acts), now, victim) && Run(after).waiting == Run(acts).waiting
      && Target in Run(after).table && BucketOf(Run(after)) == b
      && SeenTimes(after, Target) == SeenTimes(acts, Target) + [now]
      && SeenGrants(after, Target) == SeenGrants(acts, Target) + if ok then 1 else 0
  {
    var look, take := LookUp(2003, Target, now, victim), Charge(2003);
    assert acts + Request(now, victim) == acts + [look] + [take];
    RequestSteps(Run(acts), now, victim);
    Snoc(acts, look, Target);
    Snoc(acts + [look], take, Target);
    SeenSnoc(acts + [look], take, Target);
  }

  function Times(now: real, k: nat): seq<real>
  {
    seq(k, i => now)
  }

  lemma TakesOne(k: nat, now: real)
    requires 0 < k < 20
    ensures Take(Bucket(20.0 - k as real, Some(now)), now, HostRate) == (Bucket(20.0 - (k + 1) as real, Some(now)), true)
    ensures Take(FreshBucket, now, HostRate) == (Bucket(19.0, Some(now)), true)
  {
  }

  /** k requests of the target have come one after another with that reading, all let through by a new bucket. */
  ghost predicate Served(acts: seq<Act>, after: seq<Act>, now: real, victim: Option<string>, skew: real, k: nat)
  {
    && Legal(after, skew) && Latest(after) == Some(Later(Latest(acts), now))
    && Run(after).table == FoundTable(Run(acts), now, victim) && Run(after).waiting == Run(acts).waiting
    && Target in Run(after).table && BucketOf(Run(after)) == Bucket(20.0 - k as real, Some(now))
    && SeenTimes(after, Target) == SeenTimes(acts, Target) + Times(now, k)
    && SeenGrants(after, Target) == SeenGrants(acts, Target) + k
  }

  lemma FirstTime(times: seq<real>, now: real)
    ensures times + [now] == times + Times(now, 1)
  {
  }

  lemma FirstServed(acts: seq<Act>, now: real, victim: Option<string>, skew: real)
    requires 0.0 <= skew && Welcome(acts, now, victim, skew) && Target !in Run(acts).table
    ensures Served(acts, acts + Request(now, victim), now, victim, skew, 1)
  {
    RunIsSound(acts);
    TakesOne(1, now);
    FirstTime(SeenTimes(acts, Target), now);
    OneRequest(acts, now, victim, skew);
  }

  /** Looking the target up again with the same reading changes nothing. */
  lemma WelcomeAgain(acts: seq<Act>, before: seq<Act>, now: real, victim: Option<string>, skew: real, k: nat)
    requires 0.0 <= skew && Welcome(acts, now, victim, skew) && Target !in Run(acts).table
    requires Served(acts, before, now, victim, skew, k)
    ensures Welcome(before, now, None, skew) && FoundTable(Run(before), now, None) == Run(before).table
    ensures Some(Later(Latest(before), now)) == Latest(before)
  {
  }

  lemma OneMoreTime(times: seq<real>, now: real, k: nat)
    ensures times + Times(now, k) + [now] == times + Times(now, k + 1)
  {
  }

  lemma OneMoreServed(acts: seq<Act>, before: seq<Act>, now: real, victim: Option<string>, skew: real, k: nat)
    requires 0.0 <= skew && 0 < k < 20 && Served(acts, before, now, victim, skew, k)
    requires Welcome(before, now, None, skew) && FoundTable(Run(before), now, None) == Run(before).table
    requires Some(Later(Latest(before), now)) == Latest(before)
    ensures Served(acts, before + Request(now, None), now, victim, skew, k + 1)
  {
    RunIsSound(before);
    TakesOne(k, now);
    OneMoreTime(SeenTimes(acts, Target), now, k);
    OneRequest(before, now, None, skew);
  }

  /** A new bucket lets 20 requests through at once. */
  lemma {:induction false} Burst(acts: seq<Act>, now: real, victim: Option<string>, skew: real, k: nat) returns (after: seq<Act>)
    requires 0.0 <= skew && Welcome(acts, now, victim, skew) && Target !in Run(acts).table && 0 < k <= 20
    ensures Served(acts, after, now, victim, skew, k)
    decreases k
  {
    if k == 1 {
      FirstServed(acts, now, victim, skew);
      after := acts + Request(now, victim);
    } else {
      var before := Burst(acts, now, victim, skew, k - 1);
      WelcomeAgain(acts, before, now, victim, skew, k - 1);
      OneMoreServed(acts, before, now, victim, skew, k - 1);
      after := before + Request(now, None);
    }
  }

  lemma {:induction false} LastIsATime(b: Bucket, times: seq<real>, r: Rate, bound: real)
    requires b.last.Some? ==> b.last.value <= bound
    requires forall i :: 0 <= i < |times| ==> times[i] <= bound
    ensures TakeAll(b, times, r).last.Some? ==> TakeAll(b, times, r).last.value <= bound
    decreases |times|
  {
    if times != [] {
      LastIsATime(b, times[..|times| - 1], r, bound);
    }
  }

  /** A lasting bucket does not let 20 requests through at 0 and 20 less than two seconds later. */
  lemma FortyAreTooMany(now: real)
    requires 0.0 <= now < 2.0
    ensures Admissions(FreshBucket, Times(0.0, 20) + Times(now, 20), HostRate) < 40
  {
    var times := Times(0.0, 20) + Times(now, 20);
    LastIsATime(FreshBucket, times, HostRate, now);
    AdmissionsSince(FreshBucket, times, HostRate);
    assert times[0] == 0.0;
    assert Inflow(0.0, TakeAll(FreshBucket, times, HostRate).last.value, HostRate) < 20.0;
  }

  lemma {:induction false} LegalWithMore(acts: seq<Act>, s: real, skew: real)
    requires s <= skew && Legal(acts, s)
    ensures Legal(acts, skew)
    decreases |acts|
  {
    if acts != [] {
      LegalWithMore(acts[..|acts| - 1], s, skew);
    }
  }

  lemma FirstBurst(s: real) returns (acts: seq<Act>)
    requires 0.0 <= s
    ensures Legal(acts, s) && Full(Run(acts)) && Latest(acts) == Some(0.0)
    ensures SeenTimes(acts, Target) == Times(0.0, 20) && SeenGrants(acts, Target) == 20
  {
    var start := FillingUp(MaxIdentities - 1);
    FillUp(MaxIdentities - 1, s, 0.0);
    TargetComes(Run(start), Latest(start), 2004, s);
    LastPlace(Run(start), Target);
    acts := Burst(start, 0.0, None, s, 20);
    assert [] + Times(0.0, 20) == Times(0.0, 20);
  }

  /** With readings further out of order, an eviction lets a host have its burst twice in less than two seconds. */
  lemma EvictionShows(skew: real) returns (acts: seq<Act>)
    requires MaxSkew < skew
    ensures Legal(acts, skew)
    ensures SeenGrants(acts, Target) != Admissions(FreshBucket, SeenTimes(acts, Target), HostRate)
  {
    var s := if skew < 300.0 then skew else 300.0;
    var now := 600.0 - 2.0 * s;
    acts := FirstBurst(s);
    acts := TouchAndEvict(acts, s, 0.0);
    acts := Burst(acts, now, Some(Name(0)), s, 20);
    FortyAreTooMany(now);
    LegalWithMore(acts, s, skew);
  }

  /** Evictions never show, in any run, exactly when readings are out of order by at most 299 seconds. */
  lemma EvictionIsInvisibleIff(skew: real)
    requires 0.0 <= skew
    ensures (forall acts, host :: Legal(acts, skew) ==>
               SeenGrants(acts, host) == Admissions(FreshBucket, SeenTimes(acts, host), HostRate))
            <==> skew <= MaxSkew
  {
    if skew <= MaxSkew {
      forall acts, host | Legal(acts, skew)
        ensures SeenGrants(acts, host) == Admissions(FreshBucket, SeenTimes(acts, host), HostRate)
      {
        EvictionIsInvisible(acts, host, skew);
      }
    } else {
      var acts := EvictionShows(skew);
    }
  }
}
