/** The login guard as the API server keeps it: buckets and the identity table changed in place. Its methods
    are proved against AuthLimits. */
module AuthGuardState {
  import opened Options
  import opened AuthLimits

  class AuthBucket {
    var tokens: real
    var last: Option<real>

    constructor ()
      ensures View() == FreshBucket
    {
      tokens, last := 0.0, None;
    }

    function View(): Bucket
      reads this
    {
      Bucket(tokens, last)
    }

    method Take(now: real, r: Rate) returns (ok: bool)
      modifies this
      ensures (View(), ok) == AuthLimits.Take(old(View()), now, r)
    {
      if last.None? {
        tokens := r.burst;
        last := Some(now);
      }
      var elapsed := now - last.value;
      if elapsed > 0.0 {
        var more := tokens + Inflow(last.value, now, r);
        tokens := if r.burst < more then r.burst else more;
        last := Some(now);
      }
      if tokens < 1.0 {
        return false;
      }
      tokens := tokens - 1.0;
      ok := true;
    }
  }

  datatype AuthIdentity = AuthIdentity(bucket: AuthBucket, last: real)

  class AuthGuard {
    const global: AuthBucket
    const overflow: AuthBucket
    var identities: map<string, AuthIdentity>
    var inFlight: nat

    constructor ()
      ensures Valid() && View() == NewGuard
    {
      global := new AuthBucket();
      overflow := new AuthBucket();
      identities, inFlight := map[], 0;
    }

    ghost function Buckets(): set<object>
      reads this`identities
    {
      set h | h in identities :: identities[h].bucket
    }

    ghost function Repr(): set<object>
      reads this
    {
      {this, global, overflow} + Buckets()
    }

    /** Every bucket is an object of its own. */
    ghost predicate Valid()
      reads this
    {
      && global != overflow
      && (forall h :: h in identities ==> identities[h].bucket != global && identities[h].bucket != overflow)
      && (forall h, k :: h in identities && k in identities && h != k ==> identities[h].bucket != identities[k].bucket)
    }

    ghost function Table(): map<string, Identity>
      reads this`identities, Buckets()
    {
      map h | h in identities :: Identity(identities[h].bucket.View(), identities[h].last)
    }

    ghost function View(): Guard
      reads Repr()
    {
      Guard(global.View(), overflow.View(), Table(), inFlight)
    }

    /** Looks, in an arbitrary order, for an identity that has been idle long enough. */
    method FindIdle(now: real) returns (victim: Option<string>)
      ensures victim.Some? ==> victim.value in identities && now - identities[victim.value].last >= IdentityIdle
      ensures victim.None? ==> forall h :: h in identities ==> now - identities[h].last < IdentityIdle
    {
      var rest := identities.Keys;
      while rest != {}
        invariant rest <= identities.Keys
        invariant forall h :: h in identities.Keys - rest ==> now - identities[h].last < IdentityIdle
        decreases rest
      {
        var h :| h in rest;
        if now - identities[h].last >= IdentityIdle {
          return Some(h);
        }
        rest := rest - {h};
      }
      return None;
    }

    lemma SameKeys()
      ensures identities.Keys == Table().Keys
    {
    }

    method Touch(host: string, now: real)
      requires Valid() && host in identities
      modifies this`identities
      ensures Valid() && host in identities && identities[host].bucket == old(identities[host].bucket)
      ensures Table() == old(Table())[host := old(Table())[host].(last := now)]
    {
      identities := identities[host := identities[host].(last := now)];
    }

    /** Evicts one idle identity from a full table, if there is one. */
    method MakeRoom(now: real) returns (victim: Option<string>)
      requires Valid()
      modifies this`identities
      ensures Valid() && Table() == if victim.Some? then old(Table()) - {victim.value} else old(Table())
      ensures |old(Table())| < MaxIdentities ==> victim.None?
      ensures victim.Some? ==> IsIdle(old(View()), victim.value, now)
      ensures |old(Table())| >= MaxIdentities && victim.None? ==>
        forall h :: h in old(Table()) ==> !IsIdle(old(View()), h, now)
    {
      victim := None;
      SameKeys();
      if |identities| >= MaxIdentities {
        victim := FindIdle(now);
        if victim.Some? {
          identities := identities - {victim.value};
        }
      }
    }

    method AddHost(host: string, now: real) returns (bucket: AuthBucket)
      requires Valid() && host !in identities
      modifies this`identities
      ensures Valid() && fresh(bucket) && host in identities && bucket == identities[host].bucket
      ensures Table() == old(Table())[host := Identity(FreshBucket, now)]
    {
      bucket := new AuthBucket();
      identities := identities[host := AuthIdentity(bucket, now)];
    }

    /** The bucket to charge for the host: its own, found or made, or the shared one when the table is full
        of hosts that are not idle. */
    method IdentityBucket(host: string, now: real) returns (bucket: AuthBucket, ghost victim: Option<string>)
      requires Valid()
      modifies this`identities
      ensures Valid() && LegalVictim(old(View()), host, now, victim)
      ensures Table() == Located(old(View()), host, now, victim).0
      ensures if Located(old(View()), host, now, victim).1 then host in identities && bucket == identities[host].bucket
              else bucket == overflow
      ensures bucket in old(Repr()) || fresh(bucket)
    {
      victim := None;
      if host in identities {
        Touch(host, now);
        bucket := identities[host].bucket;
        return;
      }
      victim := MakeRoom(now);
      SameKeys();
      if |identities| >= MaxIdentities {
        bucket := overflow;
      } else {
        bucket := AddHost(host, now);
      }
    }

    /** Charging one bucket of the table changes no other. */
    method TakeOwn(host: string, now: real) returns (ok: bool)
      requires Valid() && host in identities
      modifies identities[host].bucket
      ensures Valid() && global.View() == old(global.View()) && overflow.View() == old(overflow.View())
      ensures var (b, granted) := AuthLimits.Take(old(Table())[host].bucket, now, HostRate);
        ok == granted && Table() == old(Table())[host := old(Table())[host].(bucket := b)]
    {
      ok := identities[host].bucket.Take(now, HostRate);
    }

    method TakeShared(now: real) returns (ok: bool)
      requires Valid()
      modifies overflow
      ensures Valid() && global.View() == old(global.View()) && Table() == old(Table())
      ensures (overflow.View(), ok) == AuthLimits.Take(old(overflow.View()), now, HostRate)
    {
      ok := overflow.Take(now, HostRate);
    }

    /** Charges the host's bucket, or the shared one. */
    method Charge(host: string, now: real) returns (ok: bool, ghost victim: Option<string>)
      requires Valid()
      modifies Repr()
      ensures Valid() && LegalVictim(old(View()), host, now, victim)
      ensures (View(), ok) == Charged(old(View()), Call.Acquire(true, host, now, victim))
    {
      var bucket;
      bucket, victim := IdentityBucket(host, now);
      if bucket == overflow {
        ok := TakeShared(now);
      } else {
        ok := TakeOwn(host, now);
      }
    }

    /** One login request: the global bucket, the host's bucket, and a place among the requests in progress,
        in that order; nothing is given back when a later one refuses. */
    method Acquire(wellFormed: bool, host: string, now: real) returns (ok: bool, ghost victim: Option<string>)
      requires Valid()
      modifies Repr()
      ensures Valid() && LegalCall(old(View()), Call.Acquire(wellFormed, host, now, victim))
      ensures (View(), ok) == Step(old(View()), Call.Acquire(wellFormed, host, now, victim))
    {
      victim := None;
      if !wellFormed {
        return false, None;
      }
      ghost var g := View();
      ok := TakeGlobal(now);
      if ok {
        ok, victim := Enter(host, now);
        VictimsIgnoreGlobal(g, AuthLimits.Take(g.global, now, GlobalRate).0, host, now, victim);
      }
    }

    method Enter(host: string, now: real) returns (ok: bool, ghost victim: Option<string>)
      requires Valid()
      modifies Repr()
      ensures Valid() && LegalVictim(old(View()), host, now, victim)
      ensures (View(), ok) == Entered(old(View()), Call.Acquire(true, host, now, victim))
    {
      ok, victim := Charge(host, now);
      if ok {
        ok := TakePlace();
      }
    }

    method TakePlace() returns (ok: bool)
      requires Valid()
      modifies this`inFlight
      ensures Valid() && ok == (old(inFlight) < MaxConcurrent)
      ensures View() == if ok then old(View()).(inFlight := old(inFlight) + 1) else old(View())
    {
      ok := inFlight < MaxConcurrent;
      if ok {
        inFlight := inFlight + 1;
      }
    }

    method TakeGlobal(now: real) returns (ok: bool)
      requires Valid()
      modifies global
      ensures Valid() && overflow.View() == old(overflow.View()) && Table() == old(Table())
      ensures (global.View(), ok) == AuthLimits.Take(old(global.View()), now, GlobalRate)
    {
      ok := global.Take(now, GlobalRate);
    }

    /** The end of a request that was let through. */
    method Finish()
      requires Valid() && inFlight > 0
      modifies this`inFlight
      ensures Valid() && View() == Step(old(View()), Release).0
    {
      inFlight := inFlight - 1;
    }
  }
}
