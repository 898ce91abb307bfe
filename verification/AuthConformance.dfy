/** Exactly which login requests are let through: a bucket admits a call just when, counted from each earlier call,
    the admissions with this one stay within the burst and the rate; and a request is let through just when the
    global bucket admits it, then its host's or the shared one, and there is a place among those in progress. */
module AuthConformance {
  import opened Options
  import opened AuthLimits
  import AuthInterleaving

  // ----- one bucket -----

  /** The latest of the readings so far. */
  function Clock(times: seq<real>): real
    requires times != []
  {
    if |times| == 1 then times[0]
    else if times[|times| - 1] > Clock(times[..|times| - 1]) then times[|times| - 1]
    else Clock(times[..|times| - 1])
  }

  /** How many of the first k calls on a new bucket are admitted. */
  function AdmittedBy(times: seq<real>, k: nat, r: Rate): nat
    requires k <= |times|
  {
    Admissions(FreshBucket, times[..k], r)
  }

  /** What a stretch from call i until now may still admit, call k being next: the burst, and the rate since call i,
      less what has been admitted since then. */
  function Allowance(times: seq<real>, i: nat, k: nat, now: real, r: Rate): real
    requires i < |times| && i <= k <= |times|
  {
    r.burst + Inflow(Clock(times[..i + 1]), now, r) - (AdmittedBy(times, k, r) - AdmittedBy(times, i, r)) as real
  }

  /** The last of these calls keeps the stretch from call i within the burst and the rate. */
  predicate Within(times: seq<real>, i: nat, r: Rate)
    requires i < |times|
  {
    1.0 <= Allowance(times, i, |times| - 1, Clock(times), r)
  }

  /** It does so for every stretch that ends with it. */
  ghost predicate Conforms(times: seq<real>, r: Rate)
    requires times != []
  {
    forall i :: 0 <= i < |times| ==> Within(times, i, r)
  }

  /** The tokens are the least of what the stretches still allow. */
  ghost predicate IsLeast(tokens: real, times: seq<real>, n: nat, k: nat, now: real, r: Rate)
    requires 0 < n <= |times| && n <= k + 1 && k <= |times|
  {
    && (forall i :: 0 <= i < n ==> tokens <= Allowance(times, i, k, now, r))
    && exists i :: 0 <= i < n && tokens == Allowance(times, i, k, now, r)
  }

  lemma ClockSnoc(times: seq<real>, now: real)
    requires times != []
    ensures Clock(times + [now]) == if now > Clock(times) then now else Clock(times)
  {
    assert (times + [now])[..|times|] == times;
  }

  lemma PrefixSame(times: seq<real>, now: real, k: nat, r: Rate)
    requires k <= |times|
    ensures AdmittedBy(times + [now], k, r) == AdmittedBy(times, k, r)
    ensures k < |times| ==> Clock((times + [now])[..k + 1]) == Clock(times[..k + 1])
  {
    assert (times + [now])[..k] == times[..k];
    if k < |times| {
      assert (times + [now])[..k + 1] == times[..k + 1];
    }
  }

  lemma AdmittedSnoc(times: seq<real>, now: real, r: Rate)
    ensures AdmittedBy(times + [now], |times| + 1, r) == AdmittedBy(times, |times|, r)
              + if Take(TakeAll(FreshBucket, times, r), now, r).1 then 1 else 0
  {
    assert (times + [now])[..|times| + 1] == times + [now] && times[..|times|] == times;
    assert (times + [now])[..|times + [now]| - 1] == times;
  }

  /** The bucket holds the least of what the stretches still allow. */
  ghost predicate HoldsLeast(times: seq<real>, r: Rate)
    requires times != []
  {
    var b := TakeAll(FreshBucket, times, r);
    b.last == Some(Clock(times)) && b.tokens <= r.burst && IsLeast(b.tokens, times, |times|, |times|, Clock(times), r)
  }

  lemma AllowanceGrows(times: seq<real>, now: real, i: nat, r: Rate)
    requires i < |times|
    ensures var all := times + [now];
      Allowance(all, i, |times|, Clock(all), r) == Allowance(times, i, |times|, Clock(times), r) + Inflow(Clock(times), Clock(all), r)
  {
    PrefixSame(times, now, i, r);
    PrefixSame(times, now, |times|, r);
    InflowAdds(Clock(times[..i + 1]), Clock(times), Clock(times + [now]), r);
  }

  lemma OwnAllowance(times: seq<real>, now: real, r: Rate)
    ensures var all := times + [now]; Allowance(all, |times|, |times|, Clock(all), r) == r.burst
  {
    var all := times + [now];
    assert all[..|times| + 1] == all && Inflow(Clock(all), Clock(all), r) == 0.0;
  }

  lemma RefillTo(times: seq<real>, now: real, r: Rate)
    requires times != [] && ValidRate(r) && HoldsLeast(times, r)
    ensures var b, c, c' := TakeAll(FreshBucket, times, r), Clock(times), Clock(times + [now]);
      var grown := b.tokens + Inflow(c, c', r);
      Refill(b, now, r) == Bucket(if r.burst < grown then r.burst else grown, Some(c'))
  {
    ClockSnoc(times, now);
    assert Inflow(Clock(times), Clock(times), r) == 0.0;
  }

  /** Refilled for one more call, it holds the least with the stretch of that call alone. */
  lemma RefillIsLeast(times: seq<real>, now: real, r: Rate)
    requires times != [] && ValidRate(r) && HoldsLeast(times, r)
    ensures var all, full := times + [now], Refill(TakeAll(FreshBucket, times, r), now, r);
      full.last == Some(Clock(all)) && full.tokens <= r.burst && IsLeast(full.tokens, all, |all|, |times|, Clock(all), r)
  {
    var all, b, n := times + [now], TakeAll(FreshBucket, times, r), |times|;
    var more, full := Inflow(Clock(times), Clock(all), r), Refill(b, now, r).tokens;
    RefillTo(times, now, r);
    OwnAllowance(times, now, r);
    forall i | 0 <= i < |all| ensures full <= Allowance(all, i, n, Clock(all), r) {
      if i < n {
        AllowanceGrows(times, now, i, r);
        assert b.tokens <= Allowance(times, i, n, Clock(times), r);
      }
    }
    if full == r.burst {
      assert full == Allowance(all, n, n, Clock(all), r);
    } else {
      var i :| 0 <= i < n && b.tokens == Allowance(times, i, n, Clock(times), r);
      AllowanceGrows(times, now, i, r);
      assert full == Allowance(all, i, n, Clock(all), r);
    }
  }

  lemma FirstCall(now: real, r: Rate)
    requires ValidRate(r)
    ensures IsLeast(Refill(FreshBucket, now, r).tokens, [now], 1, 0, now, r) && Refill(FreshBucket, now, r).last == Some(now)
  {
    assert [now][..1] == [now] && Clock([now][..1]) == now && Inflow(now, now, r) == 0.0;
    assert Allowance([now], 0, 0, now, r) == r.burst;
  }

  /** Whether a call is admitted is whether it conforms. */
  lemma LeastDecides(tokens: real, times: seq<real>, r: Rate)
    requires times != [] && IsLeast(tokens, times, |times|, |times| - 1, Clock(times), r)
    ensures tokens >= 1.0 <==> Conforms(times, r)
  {
    var i :| 0 <= i < |times| && tokens == Allowance(times, i, |times| - 1, Clock(times), r);
    assert Within(times, i, r) <==> tokens >= 1.0;
  }

  /** The call takes one token from each stretch, if it is admitted. */
  lemma TakeKeepsLeast(times: seq<real>, now: real, full: real, r: Rate)
    requires var all := times + [now]; IsLeast(full, all, |all|, |times|, Clock(all), r)
    requires Take(TakeAll(FreshBucket, times, r), now, r).1 <==> full >= 1.0
    ensures var all := times + [now];
      IsLeast(if full >= 1.0 then full - 1.0 else full, all, |all|, |all|, Clock(all), r)
  {
    var all := times + [now];
    AdmittedSnoc(times, now, r);
    PrefixSame(times, now, |times|, r);
    var took := if full >= 1.0 then 1.0 else 0.0;
    forall i | 0 <= i < |all| ensures Allowance(all, i, |all|, Clock(all), r) == Allowance(all, i, |times|, Clock(all), r) - took {
    }
    var i :| 0 <= i < |all| && full == Allowance(all, i, |times|, Clock(all), r);
    assert full - took == Allowance(all, i, |all|, Clock(all), r);
  }

  lemma {:induction false} BucketHoldsLeast(times: seq<real>, r: Rate)
    requires times != [] && ValidRate(r)
    ensures HoldsLeast(times, r)
    decreases |times|
  {
    var before, now := times[..|times| - 1], times[|times| - 1];
    assert times == before + [now];
    var b := TakeAll(FreshBucket, before, r);
    if before == [] {
      FirstCall(now, r);
    } else {
      BucketHoldsLeast(before, r);
      RefillIsLeast(before, now, r);
    }
    TakeKeepsLeast(before, now, Refill(b, now, r).tokens, r);
  }

  /** A call on a bucket that was new at the first of the calls is admitted exactly when, for every earlier call and
      itself, the admissions from that call to this one, both included, are at most the burst and the rate times the
      time between; whatever the order of the clock readings, the latest one so far counting as now. */
  lemma AdmittedIff(before: seq<real>, now: real, r: Rate)
    requires ValidRate(r)
    ensures Take(TakeAll(FreshBucket, before, r), now, r).1 <==> Conforms(before + [now], r)
  {
    if before == [] {
      FirstCall(now, r);
      assert [] + [now] == [now];
      LeastDecides(Refill(FreshBucket, now, r).tokens, [now], r);
    } else {
      BucketHoldsLeast(before, r);
      RefillIsLeast(before, now, r);
      LeastDecides(Refill(TakeAll(FreshBucket, before, r), now, r).tokens, before + [now], r);
    }
  }

  // ----- the guard -----

  /** The request has a bucket of its own: its host is in the table, or there is or is made room for it. */
  predicate HasOwn(calls: seq<Call>, c: Call)
    requires c.Acquire?
  {
    c.host in Run(calls).identities || |Run(calls).identities| < 1024 || c.victim.Some?
  }

  predicate PassesGlobal(calls: seq<Call>, c: Call)
  {
    c.Acquire? && c.wellFormed && Take(Run(calls).global, c.now, GlobalRate).1
  }

  /** When the requests came that were charged to the bucket that the host has now. */
  function OwnTimes(calls: seq<Call>, host: string): seq<real>
  {
    if calls == [] || host !in Run(calls).identities then []
    else
      var before, c := calls[..|calls| - 1], calls[|calls| - 1];
      OwnTimes(before, host) + if PassesGlobal(before, c) && c.host == host then [c.now] else []
  }

  /** When the requests came that were charged to the shared bucket. */
  function SharedTimes(calls: seq<Call>): seq<real>
  {
    if calls == [] then []
    else
      var before, c := calls[..|calls| - 1], calls[|calls| - 1];
      SharedTimes(before) + if PassesGlobal(before, c) && !HasOwn(before, c) then [c.now] else []
  }

  /** How many requests have been let through and are not over. */
  function InProgress(calls: seq<Call>): int
  {
    if calls == [] then 0
    else
      var before, c := calls[..|calls| - 1], calls[|calls| - 1];
      if c.Acquire? then InProgress(before) + (if Step(Run(before), c).1 then 1 else 0)
      else if InProgress(before) > 0 then InProgress(before) - 1
      else 0
  }

  /** In every call so far room was made legally. */
  ghost predicate LegalCalls(calls: seq<Call>)
  {
    if calls == [] then true
    else LegalCalls(calls[..|calls| - 1]) && LegalCall(Run(calls[..|calls| - 1]), calls[|calls| - 1])
  }

  lemma OwnIff(calls: seq<Call>, c: Call)
    requires c.Acquire? && LegalVictim(Run(calls), c.host, c.now, c.victim)
    ensures Located(Run(calls), c.host, c.now, c.victim).1 <==> HasOwn(calls, c)
  {
    var table := Run(calls).identities;
    BoundsHold(calls);
    if c.victim.Some? && c.host !in table {
      assert table.Keys == (table - {c.victim.value}).Keys + {c.victim.value};
      assert |table.Keys| == |(table - {c.victim.value}).Keys| + 1;
    }
  }

  lemma TakeAllSnoc(times: seq<real>, now: real, r: Rate)
    ensures TakeAll(FreshBucket, times + [now], r) == Take(TakeAll(FreshBucket, times, r), now, r).0
  {
    assert (times + [now])[..|times|] == times;
  }

  /** The shared bucket has seen just the requests charged to it. */
  lemma {:induction false} SharedBucketIs(calls: seq<Call>)
    requires LegalCalls(calls)
    ensures Run(calls).overflow == TakeAll(FreshBucket, SharedTimes(calls), HostRate)
    decreases |calls|
  {
    if calls != [] {
      var before, c := calls[..|calls| - 1], calls[|calls| - 1];
      SharedBucketIs(before);
      if PassesGlobal(before, c) {
        OwnIff(before, c);
        ChargingIgnoresGlobal(Run(before), c);
        TakeAllSnoc(SharedTimes(before), c.now, HostRate);
      }
      assert SharedTimes(before) + [] == SharedTimes(before);
    }
  }

  function BucketOf(g: Guard, host: string): Bucket
  {
    if host in g.identities then g.identities[host].bucket else FreshBucket
  }

  /** What a request that reaches a bucket does to the one of a host. */
  lemma BucketAfter(g: Guard, c: Call, host: string)
    requires c.Acquire? && host in Charged(g, c).0.identities
    ensures BucketOf(Charged(g, c).0, host)
         == if c.host == host then Take(BucketOf(g, host), c.now, HostRate).0 else BucketOf(g, host)
    ensures c.host != host ==> host in g.identities
  {
  }

  lemma StepBucket(g: Guard, c: Call, host: string)
    requires host in Step(g, c).0.identities
    ensures BucketOf(Step(g, c).0, host)
         == if Reaches(g, c) && c.host == host then Take(BucketOf(g, host), c.now, HostRate).0 else BucketOf(g, host)
    ensures host in g.identities || (Reaches(g, c) && c.host == host)
  {
    if Reaches(g, c) {
      ChargingIgnoresGlobal(g, c);
      BucketAfter(g, c, host);
    }
  }

  /** A host's bucket has seen just the requests charged to it since it was made. */
  lemma {:induction false} OwnBucketIs(calls: seq<Call>, host: string)
    ensures BucketOf(Run(calls), host) == TakeAll(FreshBucket, OwnTimes(calls, host), HostRate)
    decreases |calls|
  {
    if calls != [] && host in Run(calls).identities {
      var before, c := calls[..|calls| - 1], calls[|calls| - 1];
      OwnBucketIs(before, host);
      StepBucket(Run(before), c, host);
      if PassesGlobal(before, c) && c.host == host {
        TakeAllSnoc(OwnTimes(before, host), c.now, HostRate);
      } else {
        assert OwnTimes(before, host) + [] == OwnTimes(before, host);
      }
    }
  }

  lemma {:induction false} InProgressIs(calls: seq<Call>)
    ensures Run(calls).inFlight == InProgress(calls)
    decreases |calls|
  {
    if calls != [] {
      InProgressIs(calls[..|calls| - 1]);
    }
  }

  /** The calls so far on the bucket that the request is charged to. */
  function ChargedTimes(calls: seq<Call>, c: Call): seq<real>
    requires c.Acquire?
  {
    if HasOwn(calls, c) then OwnTimes(calls, c.host) else SharedTimes(calls)
  }

  lemma ChargedIff(calls: seq<Call>, c: Call)
    requires LegalCalls(calls) && c.Acquire? && LegalVictim(Run(calls), c.host, c.now, c.victim)
    ensures Charged(Run(calls), c).1 <==> Take(TakeAll(FreshBucket, ChargedTimes(calls, c), HostRate), c.now, HostRate).1
  {
    OwnIff(calls, c);
    OwnBucketIs(calls, c.host);
    SharedBucketIs(calls);
  }

  /** Exactly which requests are let through: those that are well formed, for which the global bucket has allowance at
      100 at once and 50 a second, and the host's own bucket, or the shared one if the host has none, at 20 at once
      and 10 a second, while fewer than 16 are in progress. */
  lemma LetThroughIff(calls: seq<Call>, c: Call)
    requires LegalCalls(calls + [c]) && c.Acquire?
    ensures Step(Run(calls), c).1 <==>
      && c.wellFormed && Conforms(AllTimes(calls) + [c.now], Rate(50.0, 100.0))
      && Conforms(ChargedTimes(calls, c) + [c.now], Rate(10.0, 20.0)) && InProgress(calls) < 16
  {
    assert (calls + [c])[..|calls|] == calls;
    GlobalBucketSeesAll(calls);
    AdmittedIff(AllTimes(calls), c.now, GlobalRate);
    InProgressIs(calls);
    if Reaches(Run(calls), c) {
      ChargedIff(calls, c);
      ChargingIgnoresGlobal(Run(calls), c);
      AdmittedIff(ChargedTimes(calls, c), c.now, HostRate);
    }
  }

  // ----- with look-ups and takes apart -----

  /** A take that is seen is granted exactly when it conforms with all that were seen before, evictions or not. */
  lemma SeenTakeIff(acts: seq<AuthInterleaving.Act>, a: AuthInterleaving.Act, host: string, skew: real)
    requires 0.0 <= skew <= 299.0 && AuthInterleaving.Legal(acts, skew)
    requires AuthInterleaving.IsSeen(AuthInterleaving.Run(acts), a, host)
    ensures AuthInterleaving.Step(AuthInterleaving.Run(acts), a).1 <==>
      Conforms(AuthInterleaving.SeenTimes(acts, host) + [AuthInterleaving.Run(acts).waiting[a.id].now], Rate(10.0, 20.0))
  {
    var d, now := AuthInterleaving.Run(acts), AuthInterleaving.Run(acts).waiting[a.id].now;
    AuthInterleaving.EvictionIsInvisible(acts, host, skew);
    AuthInterleaving.RunIsSound(acts);
    AuthInterleaving.RunInHand(acts, skew);
    AuthInterleaving.SeenTakeIsFaithful(d, AuthInterleaving.Latest(acts), AuthInterleaving.Lasting(acts, host), a, host, skew);
    AdmittedIff(AuthInterleaving.SeenTimes(acts, host), now, HostRate);
  }
}
