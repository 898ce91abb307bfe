/** Rate limits on the login endpoints, as values: token buckets over exact reals, a bounded table of
    per-host buckets with eviction of idle hosts, and a bound on requests in progress. Times are in seconds. */
module AuthLimits {
  import opened Options

  const MaxIdentities := 1024
  const IdentityIdle := 600.0
  const MaxConcurrent := 16

  datatype Bucket = Bucket(tokens: real, last: Option<real>)

  const FreshBucket := Bucket(0.0, None)

  datatype Rate = Rate(perSecond: real, burst: real)

  const GlobalRate := Rate(50.0, 100.0)
  const HostRate := Rate(10.0, 20.0)

  predicate ValidRate(r: Rate)
  {
    0.0 < r.perSecond && 1.0 <= r.burst
  }

  // ----- one bucket -----

  /** The product of a time and a rate, kept apart so that it can be reasoned about as one quantity. */
  function Inflow(from: real, to: real, r: Rate): real
  {
    (to - from) * r.perSecond
  }

  lemma InflowIsPositive(from: real, to: real, r: Rate)
    requires from < to && ValidRate(r)
    ensures Inflow(from, to, r) > 0.0
  {
  }

  function Refill(b: Bucket, now: real, r: Rate): Bucket
  {
    if b.last.None? then Bucket(r.burst, Some(now))
    else if now > b.last.value then
      var more := b.tokens + Inflow(b.last.value, now, r);
      Bucket(if r.burst < more then r.burst else more, Some(now))
    else b
  }

  function Take(b: Bucket, now: real, r: Rate): (Bucket, bool)
  {
    var full := Refill(b, now, r);
    if full.tokens < 1.0 then (full, false) else (full.(tokens := full.tokens - 1.0), true)
  }

  function TakeAll(b: Bucket, times: seq<real>, r: Rate): Bucket
  {
    if times == [] then b else Take(TakeAll(b, times[..|times| - 1], r), times[|times| - 1], r).0
  }

  /** How many of the calls at these times get a token. */
  function Admissions(b: Bucket, times: seq<real>, r: Rate): nat
  {
    if times == [] then 0
    else
      var before := times[..|times| - 1];
      Admissions(b, before, r) + if Take(TakeAll(b, before, r), times[|times| - 1], r).1 then 1 else 0
  }

  predicate Sane(b: Bucket, r: Rate)
  {
    0.0 <= b.tokens && (b.last.Some? ==> b.tokens <= r.burst)
  }

  lemma TakeIsSane(b: Bucket, now: real, r: Rate)
    requires Sane(b, r) && ValidRate(r)
    ensures Sane(Take(b, now, r).0, r) && Take(b, now, r).0.last.Some?
    ensures b.last.Some? ==> b.last.value <= Take(b, now, r).0.last.value
  {
    if b.last.Some? && now > b.last.value {
      InflowIsPositive(b.last.value, now, r);
      assert Refill(b, now, r).tokens >= 0.0;
    }
  }

  lemma InflowAdds(a: real, b: real, c: real, r: Rate)
    ensures Inflow(a, b, r) + Inflow(b, c, r) == Inflow(a, c, r)
  {
  }

  lemma OneCallConserves(b: Bucket, now: real, r: Rate)
    requires Sane(b, r) && ValidRate(r) && b.last.Some?
    ensures var (after, ok) := Take(b, now, r);
      && after.last.Some? && b.last.value <= after.last.value && Sane(after, r)
      && after.tokens + (if ok then 1.0 else 0.0) <= b.tokens + Inflow(b.last.value, after.last.value, r)
  {
    TakeIsSane(b, now, r);
  }

  /** Tokens only come in at the rate, and each admission takes one: what is left never exceeds what there
      was, plus the inflow, less the admissions. */
  lemma {:induction false} TokensAreConserved(b: Bucket, times: seq<real>, r: Rate)
    requires Sane(b, r) && ValidRate(r) && b.last.Some?
    ensures var after := TakeAll(b, times, r);
      && Sane(after, r) && after.last.Some? && b.last.value <= after.last.value
      && after.tokens + Admissions(b, times, r) as real <= b.tokens + Inflow(b.last.value, after.last.value, r)
    decreases |times|
  {
    if times == [] {
      assert Inflow(b.last.value, b.last.value, r) == 0.0;
    } else {
      var before, now := times[..|times| - 1], times[|times| - 1];
      TokensAreConserved(b, before, r);
      var mid := TakeAll(b, before, r);
      OneCallConserves(mid, now, r);
      InflowAdds(b.last.value, mid.last.value, Take(mid, now, r).0.last.value, r);
    }
  }

  /** Between any two calls on one bucket, both included, at most burst + rate * elapsed are admitted,
      whatever the order in which the clock values arrive. `elapsed` runs from the bucket's time at the first
      of them to its time at the last. */
  lemma AdmissionsAreBounded(b: Bucket, times: seq<real>, r: Rate)
    requires Sane(b, r) && ValidRate(r) && times != []
    ensures TakeAll(b, times, r).last.Some? && Refill(b, times[0], r).last.Some?
    ensures Admissions(b, times, r) as real
            <= r.burst + Inflow(Refill(b, times[0], r).last.value, TakeAll(b, times, r).last.value, r)
  {
    TakeIsSane(b, times[0], r);
    FirstCallApart(b, times, r);
    TokensAreConserved(Take(b, times[0], r).0, times[1..], r);
  }

  lemma EarlierBringsMore(a: real, b: real, c: real, r: Rate)
    requires a <= b && ValidRate(r)
    ensures Inflow(b, c, r) <= Inflow(a, c, r)
  {
    InflowAdds(a, b, c, r);
    if a < b {
      InflowIsPositive(a, b, r);
    }
  }

  lemma AdmissionsSince(b: Bucket, times: seq<real>, r: Rate)
    requires Sane(b, r) && ValidRate(r) && times != []
    ensures TakeAll(b, times, r).last.Some?
    ensures Admissions(b, times, r) as real <= r.burst + Inflow(times[0], TakeAll(b, times, r).last.value, r)
  {
    AdmissionsAreBounded(b, times, r);
    EarlierBringsMore(times[0], Refill(b, times[0], r).last.value, TakeAll(b, times, r).last.value, r);
  }

  lemma {:induction false} FirstCallApart(b: Bucket, times: seq<real>, r: Rate)
    requires times != []
    ensures TakeAll(b, times, r) == TakeAll(Take(b, times[0], r).0, times[1..], r)
    ensures Admissions(b, times, r) ==
            (if Take(b, times[0], r).1 then 1 else 0) + Admissions(Take(b, times[0], r).0, times[1..], r)
    decreases |times|
  {
    var before := times[..|times| - 1];
    if before == [] {
      assert times[1..] == [];
    } else {
      FirstCallApart(b, before, r);
      assert times[1..][..|times| - 2] == before[1..];
    }
  }

  /** A bucket that has been idle for as long as a full refill takes cannot be told from a fresh one. */
  lemma IdleBucketIsLikeFresh(b: Bucket, now: real, r: Rate)
    requires Sane(b, r) && ValidRate(r) && b.last.Some?
    requires now > b.last.value && Inflow(b.last.value, now, r) >= r.burst
    ensures Take(b, now, r) == Take(FreshBucket, now, r)
  {
    assert Refill(b, now, r) == Refill(FreshBucket, now, r);
  }

  // ----- the guard -----

  datatype Identity = Identity(bucket: Bucket, last: real)

  datatype Guard = Guard(global: Bucket, overflow: Bucket, identities: map<string, Identity>, inFlight: nat)

  const NewGuard := Guard(FreshBucket, FreshBucket, map[], 0)

  /** A request, with the idle identity, if any, that makes room for its host; or the end of one. */
  datatype Call = Acquire(wellFormed: bool, host: string, now: real, victim: Option<string>) | Release

  predicate IsIdle(g: Guard, host: string, now: real)
  {
    host in g.identities && now - g.identities[host].last >= IdentityIdle
  }

  /** Any idle identity may go, but only to make room for a host that is not in a full table. */
  ghost predicate LegalVictim(g: Guard, host: string, now: real, victim: Option<string>)
  {
    if host in g.identities || |g.identities| < MaxIdentities then victim.None?
    else if victim.Some? then IsIdle(g, victim.value, now)
    else forall h :: h in g.identities ==> !IsIdle(g, h, now)
  }

  /** The table in which the host is looked for, and whether it has a bucket of its own there. */
  function Located(g: Guard, host: string, now: real, victim: Option<string>): (map<string, Identity>, bool)
  {
    if host in g.identities then (g.identities[host := g.identities[host].(last := now)], true)
    else
      var rest := if victim.Some? then g.identities - {victim.value} else g.identities;
      if |rest| >= MaxIdentities then (rest, false) else (rest[host := Identity(FreshBucket, now)], true)
  }

  /** The request reaches the bucket of its host, or the shared one. */
  predicate Reaches(g: Guard, c: Call)
  {
    c.Acquire? && c.wellFormed && Take(g.global, c.now, GlobalRate).1
  }

  /** What its host's bucket, or the shared one, makes of a request that reaches it. */
  function Charged(g: Guard, c: Call): (Guard, bool)
    requires c.Acquire?
  {
    var (table, own) := Located(g, c.host, c.now, c.victim);
    if own then
      var (b, ok) := Take(table[c.host].bucket, c.now, HostRate);
      (g.(identities := table[c.host := table[c.host].(bucket := b)]), ok)
    else
      var (b, ok) := Take(g.overflow, c.now, HostRate);
      (g.(identities := table, overflow := b), ok)
  }

  /** What becomes of a request that got past the global bucket. */
  function Entered(g: Guard, c: Call): (Guard, bool)
    requires c.Acquire?
  {
    var (g', ok) := Charged(g, c);
    if !ok || g'.inFlight >= MaxConcurrent then (g', false) else (g'.(inFlight := g'.inFlight + 1), true)
  }

  function Step(g: Guard, c: Call): (Guard, bool)
  {
    if c.Release? then (if g.inFlight > 0 then g.(inFlight := g.inFlight - 1) else g, true)
    else if !c.wellFormed then (g, false)
    else
      var charged := g.(global := Take(g.global, c.now, GlobalRate).0);
      if !Reaches(g, c) then (charged, false) else Entered(charged, c)
  }

  function Run(calls: seq<Call>): Guard
  {
    if calls == [] then NewGuard else Step(Run(calls[..|calls| - 1]), calls[|calls| - 1]).0
  }

  ghost predicate LegalCall(g: Guard, c: Call)
  {
    Reaches(g, c) ==> LegalVictim(g, c.host, c.now, c.victim)
  }

  lemma VictimsIgnoreGlobal(g: Guard, b: Bucket, host: string, now: real, victim: Option<string>)
    ensures LegalVictim(g.(global := b), host, now, victim) <==> LegalVictim(g, host, now, victim)
  {
    assert forall h :: IsIdle(g.(global := b), h, now) <==> IsIdle(g, h, now);
  }

  function Later(a: Option<real>, b: real): real
  {
    if a.Some? && a.value > b then a.value else b
  }

  /** The global bucket plays no part below it. */
  lemma ChargingIgnoresGlobal(g: Guard, c: Call)
    requires c.Acquire?
    ensures var g' := g.(global := Take(g.global, c.now, GlobalRate).0);
      Located(g', c.host, c.now, c.victim) == Located(g, c.host, c.now, c.victim)
      && Charged(g', c).0.identities == Charged(g, c).0.identities && Charged(g', c).1 == Charged(g, c).1
  {
  }

  lemma TableStaysSmall(g: Guard, c: Call)
    requires c.Acquire? && |g.identities| <= MaxIdentities
    ensures |Step(g, c).0.identities| <= MaxIdentities
  {
    ChargingIgnoresGlobal(g, c);
    var (table, own) := Located(g, c.host, c.now, c.victim);
    if own {
      assert table[c.host := Charged(g, c).0.identities[c.host]].Keys == table.Keys;
    }
  }

  /** In every run the table and the requests in progress stay within their bounds. */
  lemma {:induction false} BoundsHold(calls: seq<Call>)
    ensures |Run(calls).identities| <= 1024 && Run(calls).inFlight <= 16
    decreases |calls|
  {
    if calls != [] {
      var before, c := calls[..|calls| - 1], calls[|calls| - 1];
      BoundsHold(before);
      if c.Acquire? {
        TableStaysSmall(Run(before), c);
      }
    }
  }

  lemma {:induction false} AdmissionsSplit(b: Bucket, early: seq<real>, late: seq<real>, r: Rate)
    ensures TakeAll(b, early + late, r) == TakeAll(TakeAll(b, early, r), late, r)
    ensures Admissions(b, early + late, r) == Admissions(b, early, r) + Admissions(TakeAll(b, early, r), late, r)
    decreases |late|
  {
    if late == [] {
      assert early + late == early;
    } else {
      AdmissionsSplit(b, early, late[..|late| - 1], r);
      assert (early + late)[..|early + late| - 1] == early + late[..|late| - 1];
    }
  }

  /** The times of all well-formed requests, whoever they come from. */
  function AllTimes(calls: seq<Call>): seq<real>
  {
    if calls == [] then []
    else
      var c := calls[|calls| - 1];
      AllTimes(calls[..|calls| - 1]) + if c.Acquire? && c.wellFormed then [c.now] else []
  }

  /** How many requests were let through altogether. */
  function Admitted(calls: seq<Call>): nat
  {
    if calls == [] then 0
    else
      var before, c := calls[..|calls| - 1], calls[|calls| - 1];
      Admitted(before) + if c.Acquire? && Step(Run(before), c).1 then 1 else 0
  }

  lemma StepChargesGlobal(g: Guard, c: Call)
    ensures Step(g, c).0.global == if c.Acquire? && c.wellFormed then Take(g.global, c.now, GlobalRate).0 else g.global
    ensures c.Acquire? && Step(g, c).1 ==> c.wellFormed && Take(g.global, c.now, GlobalRate).1
  {
  }

  /** Nobody gets past the global bucket: it has seen every well-formed request, and admitted at least as many
      as were let through. */
  lemma {:induction false} GlobalBucketSeesAll(calls: seq<Call>)
    ensures Run(calls).global == TakeAll(FreshBucket, AllTimes(calls), GlobalRate)
    ensures Admitted(calls) <= Admissions(FreshBucket, AllTimes(calls), GlobalRate)
    decreases |calls|
  {
    if calls != [] {
      var before, c := calls[..|calls| - 1], calls[|calls| - 1];
      GlobalBucketSeesAll(before);
      StepChargesGlobal(Run(before), c);
      if c.Acquire? && c.wellFormed {
        assert AllTimes(calls)[..|AllTimes(before)|] == AllTimes(before);
      } else {
        assert AllTimes(before) + [] == AllTimes(before);
      }
    }
  }

  /** So over any run, with any clock values, at most 100 requests are let through and 50 more for each second. */
  lemma GlobalBoundHolds(calls: seq<Call>)
    requires AllTimes(calls) != []
    ensures Run(calls).global.last.Some?
    ensures Admitted(calls) as real
            <= GlobalRate.burst + Inflow(AllTimes(calls)[0], Run(calls).global.last.value, GlobalRate)
  {
    GlobalBucketSeesAll(calls);
    AdmissionsSince(FreshBucket, AllTimes(calls), GlobalRate);
  }
}
