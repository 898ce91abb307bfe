/** Collapsing misses of one key across instances: a Redis lock with an owner token and an expiry, polling
    while another instance holds it, and a recheck after a handoff. Redis commands are atomic steps. */
module RedisHandoff {
  import opened Options

  datatype Settings = Settings(lockTTL: int, maxValueBytes: nat)

  datatype Stored = Stored(data: string, expiresAt: int)

  /** One hold of the lock. Tokens are drawn at random and never drawn twice. */
  datatype Lease = Lease(token: nat, expiresAt: int)

  /** Where one instance is in its miss. A production without a lease is one that Redis failed to guard. */
  datatype Pc =
    | Idle
    | Looking                                                   // about to read Redis
    | Trying                                                    // about to try the lock for the first time
    | Polling                                                   // lock taken by another: about to read again
    | TryingAgain                                               // about to try the lock after a miss
    | Rechecking(lease: Lease)                                  // got the lock after waiting, about to read
    | Producing(hold: Option<Lease>, waited: bool)
    | Publishing(hold: Option<Lease>, waited: bool, data: string, ttl: int)
    | Unlocking(lease: Lease)

  datatype State = State(now: int, value: Option<Stored>, lock: Option<Lease>, pcs: seq<Pc>, drawn: nat)

  datatype Act =
    | Start(i: nat)                                             // a miss in the instance's own cache
    | Go(i: nat)                                                // the next Redis command, which succeeds
    | Fail(i: nat, applied: bool)                               // the next Redis command fails, or Redis is off
    | Produced(i: nat, data: Option<string>, ttl: int)          // the producer returns, None for an error
    | GiveUp(i: nat)                                            // the wait is over, or the caller has gone
    | Tick(passed: nat)                                         // time passes

  /** Whether reading Redis is a hit. */
  predicate Readable(cfg: Settings, s: State)
  {
    s.value.Some? && s.now < s.value.value.expiresAt && |s.value.value.data| <= cfg.maxValueBytes
  }

  predicate LockFree(s: State)
  {
    s.lock.None? || s.lock.value.expiresAt <= s.now
  }

  function At(s: State, i: nat, pc: Pc): State
    requires i < |s.pcs|
  {
    s.(pcs := s.pcs[i := pc])
  }

  /** SET NX with a fresh token; `got` is where a success leads. */
  function TryLock(cfg: Settings, s: State, i: nat, got: Lease -> Pc): State
    requires i < |s.pcs|
  {
    if !LockFree(s) then At(s, i, Polling).(drawn := s.drawn + 1)
    else
      var lease := Lease(s.drawn, s.now + cfg.lockTTL);
      At(s, i, got(lease)).(lock := Some(lease), drawn := s.drawn + 1)
  }

  function AfterProduction(hold: Option<Lease>): Pc
  {
    if hold.Some? then Unlocking(hold.value) else Idle
  }

  function GoStep(cfg: Settings, s: State, i: nat): State
    requires i < |s.pcs|
  {
    match s.pcs[i]
    case Looking => At(s, i, if Readable(cfg, s) then Idle else Trying)
    case Trying => TryLock(cfg, s, i, lease => Producing(Some(lease), false))
    case Polling => At(s, i, if Readable(cfg, s) then Idle else TryingAgain)
    case TryingAgain => TryLock(cfg, s, i, lease => Rechecking(lease))
    case Rechecking(lease) => At(s, i, if Readable(cfg, s) then Unlocking(lease) else Producing(Some(lease), true))
    case Publishing(hold, waited, data, ttl) =>
      At(s, i, AfterProduction(hold)).(value := Some(Stored(data, s.now + ttl)))
    case Unlocking(lease) =>
      At(s, i, Idle).(lock := if s.lock.Some? && s.lock.value.token == lease.token then None else s.lock)
    case Idle => s
    case Producing(_, _) => s
  }

  function AfterFailure(pc: Pc): Pc
  {
    match pc
    case Looking => Trying
    case Trying => Producing(None, false)
    case Polling => Producing(None, true)
    case TryingAgain => Polling
    case Rechecking(lease) => Producing(Some(lease), true)
    case Publishing(hold, waited, data, ttl) => AfterProduction(hold)
    case Unlocking(lease) => Idle
    case Idle => Idle
    case Producing(_, _) => pc
  }

  /** The command fails. When it was applied, it took effect in Redis all the same and only its reply was lost. */
  function FailStep(cfg: Settings, s: State, i: nat, applied: bool): State
    requires i < |s.pcs|
  {
    var redis := if applied then GoStep(cfg, s, i) else s;
    At(s, i, AfterFailure(s.pcs[i])).(value := redis.value, lock := redis.lock, drawn := redis.drawn)
  }

  function Step(cfg: Settings, s: State, act: Act): State
  {
    if act.Tick? then s.(now := s.now + act.passed)
    else if act.i >= |s.pcs| then s
    else match act
      case Start(i) => if s.pcs[i].Idle? then At(s, i, Looking) else s
      case Go(i) => GoStep(cfg, s, i)
      case Fail(i, applied) => FailStep(cfg, s, i, applied)
      case Produced(i, data, ttl) =>
        if !s.pcs[i].Producing? then s
        else if data.None? || |data.value| > cfg.maxValueBytes then At(s, i, AfterProduction(s.pcs[i].hold))
        else At(s, i, Publishing(s.pcs[i].hold, s.pcs[i].waited, data.value, ttl))
      case GiveUp(i) => if s.pcs[i].Polling? then At(s, i, Idle) else s
  }

  function Run(cfg: Settings, s: State, acts: seq<Act>): State
  {
    if acts == [] then s else Step(cfg, Run(cfg, s, acts[..|acts| - 1]), acts[|acts| - 1])
  }

  function Fresh(now: int, value: Option<Stored>, n: nat): State
  {
    State(now, value, None, seq(n, _ => Idle), 0)
  }

  // ----- who holds the lock -----

  function LeaseOf(pc: Pc): Option<Lease>
  {
    match pc
    case Rechecking(lease) => Some(lease)
    case Producing(hold, _) => hold
    case Publishing(hold, _, _, _) => hold
    case Unlocking(lease) => Some(lease)
    case Idle => None
    case Looking => None
    case Trying => None
    case Polling => None
    case TryingAgain => None
  }

  predicate Holds(s: State, i: int)
  {
    0 <= i < |s.pcs| && LeaseOf(s.pcs[i]).Some?
  }

  function Held(s: State, i: int): Lease
    requires Holds(s, i)
  {
    LeaseOf(s.pcs[i]).value
  }

  /** No two instances hold under one token, and a hold that has not expired is the lock in Redis. */
  ghost predicate Orderly(s: State)
  {
    && (s.lock.Some? ==> s.lock.value.token < s.drawn)
    && (forall i :: Holds(s, i) ==> Held(s, i).token < s.drawn)
    && (forall i, j :: Holds(s, i) && Holds(s, j) && i != j ==> Held(s, i).token != Held(s, j).token)
    && (forall i :: Holds(s, i) && s.now < Held(s, i).expiresAt ==> s.lock == Some(Held(s, i)))
  }

  /** Going on without taking the lock anew leaves everybody's hold as it was. */
  lemma MovingKeepsOrder(s: State, i: nat, s': State)
    requires Orderly(s) && i < |s.pcs| == |s'.pcs| && s'.pcs == s.pcs[i := s'.pcs[i]]
    requires s'.now == s.now && s'.lock == s.lock && s'.drawn == s.drawn
    requires LeaseOf(s'.pcs[i]).Some? ==> LeaseOf(s'.pcs[i]) == LeaseOf(s.pcs[i])
    ensures Orderly(s')
  {
    assert forall j :: Holds(s', j) ==> Holds(s, j) && Held(s', j) == Held(s, j);
  }

  lemma LockingKeepsOrder(cfg: Settings, s: State, i: nat, got: Lease -> Pc)
    requires Orderly(s) && i < |s.pcs| && LeaseOf(s.pcs[i]).None?
    requires forall lease :: LeaseOf(got(lease)) == Some(lease)
    ensures Orderly(TryLock(cfg, s, i, got))
  {
    var s' := TryLock(cfg, s, i, got);
    assert forall j :: Holds(s', j) && j != i ==> Holds(s, j) && Held(s', j) == Held(s, j);
    assert Holds(s', i) ==> Held(s', i).token == s.drawn;
  }

  /** A lock whose taker never hears of it belongs to nobody, and stands until it expires. */
  lemma OrphanKeepsOrder(cfg: Settings, s: State, i: nat, s': State)
    requires Orderly(s) && i < |s.pcs| == |s'.pcs| && s'.pcs == s.pcs[i := s'.pcs[i]] && LeaseOf(s'.pcs[i]).None?
    requires LockFree(s) && s'.now == s.now && s'.drawn == s.drawn + 1
    requires s'.lock.Some? && s'.lock.value.token == s.drawn
    ensures Orderly(s')
  {
    assert forall j :: Holds(s', j) ==> Holds(s, j) && Held(s', j) == Held(s, j);
  }

  lemma UnlockingKeepsOrder(cfg: Settings, s: State, i: nat)
    requires Orderly(s) && i < |s.pcs| && s.pcs[i].Unlocking?
    ensures Orderly(GoStep(cfg, s, i))
  {
    var s' := GoStep(cfg, s, i);
    assert Holds(s, i);
    assert forall j :: Holds(s', j) ==> j != i && Holds(s, j) && Held(s', j) == Held(s, j);
  }

  lemma StepKeepsOrder(cfg: Settings, s: State, act: Act)
    requires Orderly(s)
    ensures Orderly(Step(cfg, s, act))
  {
    var s' := Step(cfg, s, act);
    if act.Tick? {
      assert forall j :: Holds(s', j) ==> Holds(s, j) && Held(s', j) == Held(s, j);
    } else if act.i < |s.pcs| {
      var i, pc := act.i, s.pcs[act.i];
      if act.Go? && pc.Trying? {
        LockingKeepsOrder(cfg, s, i, lease => Producing(Some(lease), false));
      } else if act.Go? && pc.TryingAgain? {
        LockingKeepsOrder(cfg, s, i, lease => Rechecking(lease));
      } else if (act.Go? || (act.Fail? && act.applied)) && pc.Unlocking? {
        UnlockingKeepsOrder(cfg, s, i);
      } else if act.Fail? && act.applied && (pc.Trying? || pc.TryingAgain?) && LockFree(s) {
        OrphanKeepsOrder(cfg, s, i, s');
      } else if act.Fail? && act.applied && (pc.Trying? || pc.TryingAgain?) {
        assert forall j :: Holds(s', j) ==> Holds(s, j) && Held(s', j) == Held(s, j);
      } else {
        MovingKeepsOrder(s, i, s');
      }
    }
  }

  /** Over every run, with any expiries and any Redis failures: at most one instance works under a lock that
      has not expired, so productions overlap only when a lock expired or Redis failed. */
  lemma {:induction false} LockedProductionsNeverOverlap(
      cfg: Settings, now: int, value: Option<Stored>, n: nat, acts: seq<Act>, i: nat, j: nat)
    ensures var s := Run(cfg, Fresh(now, value, n), acts);
      && Orderly(s)
      && (Holds(s, i) && Holds(s, j) && s.now < Held(s, i).expiresAt && s.now < Held(s, j).expiresAt ==> i == j)
    decreases |acts|
  {
    if acts != [] {
      LockedProductionsNeverOverlap(cfg, now, value, n, acts[..|acts| - 1], i, j);
      StepKeepsOrder(cfg, Run(cfg, Fresh(now, value, n), acts[..|acts| - 1]), acts[|acts| - 1]);
    }
  }

  /** Releasing removes the lock only if it is one's own, even after it expired and others took it. */
  lemma ReleaseSparesOthers(cfg: Settings, s: State, i: nat, j: nat)
    requires Orderly(s) && i < |s.pcs| && s.pcs[i].Unlocking? && i != j && Holds(s, j)
    requires s.lock == Some(Held(s, j))
    ensures Step(cfg, s, Go(i)).lock == s.lock
  {
    assert Holds(s, i);
  }

  // ----- when a producer runs -----

  /** No lock has expired while it is held. */
  ghost predicate Guarded(s: State)
  {
    forall i :: Holds(s, i) ==> s.now < Held(s, i).expiresAt
  }

  /** Whoever produces or publishes does so under a lock it has taken. */
  ghost predicate Locked(s: State)
  {
    forall i :: 0 <= i < |s.pcs| && (s.pcs[i].Producing? || s.pcs[i].Publishing?) ==> s.pcs[i].hold.Some?
  }

  predicate AfterWait(pc: Pc)
  {
    (pc.Producing? || pc.Publishing?) && pc.waited
  }

  /** While an instance that had to wait produces, Redis has nothing to read. */
  ghost predicate WaitersFindNothing(cfg: Settings, s: State)
  {
    forall i :: 0 <= i < |s.pcs| && AfterWait(s.pcs[i]) ==> !Readable(cfg, s)
  }

  /** A Redis command that fails is the only way to produce without the lock. */
  lemma StepKeepsLocked(cfg: Settings, s: State, act: Act)
    requires Locked(s) && !act.Fail?
    ensures Locked(Step(cfg, s, act))
  {
  }

  lemma StepKeepsWaiters(cfg: Settings, s: State, act: Act)
    requires Orderly(s) && Guarded(s) && Locked(s) && WaitersFindNothing(cfg, s) && !act.Fail?
    ensures WaitersFindNothing(cfg, Step(cfg, s, act))
  {
    var s' := Step(cfg, s, act);
    forall i | 0 <= i < |s'.pcs| && AfterWait(s'.pcs[i]) ensures !Readable(cfg, s') {
      if act.Go? && act.i < |s.pcs| && s.pcs[act.i].Publishing? {
        assert Holds(s, i) && Holds(s, act.i);
      }
    }
  }

  /** A run in which no Redis command fails and no lock expires while it is held. */
  ghost predicate Undisturbed(cfg: Settings, s: State, acts: seq<Act>)
  {
    if acts == [] then Guarded(s)
    else Undisturbed(cfg, s, acts[..|acts| - 1]) && !acts[|acts| - 1].Fail? && Guarded(Run(cfg, s, acts))
  }

  lemma {:induction false} UndisturbedPrefix(cfg: Settings, s: State, acts: seq<Act>, n: nat)
    requires Undisturbed(cfg, s, acts) && n <= |acts|
    ensures Undisturbed(cfg, s, acts[..n])
    decreases |acts|
  {
    if n == |acts| {
      assert acts[..n] == acts;
    } else {
      UndisturbedPrefix(cfg, s, acts[..|acts| - 1], n);
      assert acts[..|acts| - 1][..n] == acts[..n];
    }
  }

  /** In every such run each production is under a lock of the producer's own that stands in Redis and has not
      expired. So productions of the key never overlap; and an instance that had to wait produces only while
      no unexpired value of legal size is in Redis. */
  lemma {:induction false} UndisturbedProductions(
      cfg: Settings, now: int, value: Option<Stored>, n: nat, acts: seq<Act>, i: nat, j: nat)
    requires Undisturbed(cfg, Fresh(now, value, n), acts)
    ensures var s := Run(cfg, Fresh(now, value, n), acts);
      && Orderly(s) && Guarded(s) && Locked(s) && WaitersFindNothing(cfg, s)
      && (i < |s.pcs| && s.pcs[i].Producing? ==>
            s.pcs[i].hold.Some? && s.lock == s.pcs[i].hold && s.now < s.lock.value.expiresAt)
      && (i < |s.pcs| && j < |s.pcs| && s.pcs[i].Producing? && s.pcs[j].Producing? ==> i == j)
      && (i < |s.pcs| && s.pcs[i].Producing? && s.pcs[i].waited ==> !Readable(cfg, s))
    decreases |acts|
  {
    LockedProductionsNeverOverlap(cfg, now, value, n, acts, i, j);
    if acts != [] {
      var before := acts[..|acts| - 1];
      UndisturbedProductions(cfg, now, value, n, before, i, j);
      StepKeepsLocked(cfg, Run(cfg, Fresh(now, value, n), before), acts[|acts| - 1]);
      StepKeepsWaiters(cfg, Run(cfg, Fresh(now, value, n), before), acts[|acts| - 1]);
    }
    var s := Run(cfg, Fresh(now, value, n), acts);
    assert i < |s.pcs| && s.pcs[i].Producing? ==> Holds(s, i);
    assert j < |s.pcs| && s.pcs[j].Producing? ==> Holds(s, j);
  }

  // ----- when a production is in vain -----

  /** The act writes a value to Redis. */
  predicate Publishes(s: State, act: Act)
  {
    (act.Go? || (act.Fail? && act.applied)) && act.i < |s.pcs| && s.pcs[act.i].Publishing?
  }

  predicate PublishesAt(cfg: Settings, s: State, acts: seq<Act>, k: int)
  {
    0 <= k < |acts| && Publishes(Run(cfg, s, acts[..k]), acts[k])
  }

  ghost predicate LastPublication(cfg: Settings, s: State, acts: seq<Act>, k: int)
  {
    PublishesAt(cfg, s, acts, k) && forall m :: k < m < |acts| ==> !PublishesAt(cfg, s, acts, m)
  }

  function Written(s: State, act: Act): Stored
    requires Publishes(s, act)
  {
    Stored(s.pcs[act.i].data, s.now + s.pcs[act.i].ttl)
  }

  /** What act k publishes is of legal size and has not expired at time `now`. */
  predicate GoodUntil(cfg: Settings, s: State, acts: seq<Act>, k: int, now: int)
    requires PublishesAt(cfg, s, acts, k)
  {
    var written := Written(Run(cfg, s, acts[..k]), acts[k]);
    |written.data| <= cfg.maxValueBytes && now < written.expiresAt
  }

  lemma OnlyPublishingWrites(cfg: Settings, s: State, act: Act)
    ensures Step(cfg, s, act).value == if Publishes(s, act) then Some(Written(s, act)) else s.value
    ensures Step(cfg, s, act).now >= s.now
  {
  }

  lemma PublishesAtPrefix(cfg: Settings, s: State, acts: seq<Act>, n: nat, m: int)
    requires m < n <= |acts|
    ensures PublishesAt(cfg, s, acts[..n], m) <==> PublishesAt(cfg, s, acts, m)
    ensures 0 <= m ==> acts[..n][..m] == acts[..m] && acts[..n][m] == acts[m]
  {
    if 0 <= m {
      assert acts[..n][..m] == acts[..m];
    }
  }

  /** Redis holds what the last publication wrote, or what it held when there was none. */
  lemma {:induction false} RedisHoldsTheLast(cfg: Settings, s: State, acts: seq<Act>) returns (k: int)
    ensures k < |acts| && Run(cfg, s, acts).now >= s.now
    ensures k < 0 ==> Run(cfg, s, acts).value == s.value
    ensures k >= 0 ==> PublishesAt(cfg, s, acts, k)
    ensures k >= 0 ==> Run(cfg, s, acts).value == Some(Written(Run(cfg, s, acts[..k]), acts[k]))
    ensures forall m :: k < m < |acts| ==> !PublishesAt(cfg, s, acts, m)
    decreases |acts|
  {
    k := -1;
    if acts != [] {
      var last := |acts| - 1;
      k := RedisHoldsTheLast(cfg, s, acts[..last]);
      OnlyPublishingWrites(cfg, Run(cfg, s, acts[..last]), acts[last]);
      forall m | m < last ensures PublishesAt(cfg, s, acts[..last], m) <==> PublishesAt(cfg, s, acts, m) {
        PublishesAtPrefix(cfg, s, acts, last, m);
      }
      if Publishes(Run(cfg, s, acts[..last]), acts[last]) {
        k := last;
      } else {
        PublishesAtPrefix(cfg, s, acts, last, k);
      }
    }
  }

  /** Over every run, with any failures and expiries: when Redis had nothing to read, it has exactly if the last
      publication since wrote a value of legal size that has not expired. */
  lemma ReadableIff(cfg: Settings, s: State, acts: seq<Act>)
    requires !Readable(cfg, s)
    ensures Readable(cfg, Run(cfg, s, acts)) <==>
      exists k :: LastPublication(cfg, s, acts, k) && GoodUntil(cfg, s, acts, k, Run(cfg, s, acts).now)
  {
    var k := RedisHoldsTheLast(cfg, s, acts);
    if k >= 0 {
      assert LastPublication(cfg, s, acts, k);
      assert forall m :: LastPublication(cfg, s, acts, m) ==> m == k;
    }
  }

  lemma {:induction false} RunAppend(cfg: Settings, s: State, a: seq<Act>, b: seq<Act>)
    ensures Run(cfg, s, a + b) == Run(cfg, Run(cfg, s, a), b)
    decreases |b|
  {
    if b == [] {
      assert a + b == a;
    } else {
      RunAppend(cfg, s, a, b[..|b| - 1]);
      assert (a + b)[..|a + b| - 1] == a + b[..|b| - 1];
    }
  }

  /** None of the acts is instance i's. */
  predicate SitsOut(i: nat, acts: seq<Act>)
  {
    forall k :: 0 <= k < |acts| ==> acts[k].Tick? || acts[k].i != i
  }

  lemma {:induction false} SittingOutStays(cfg: Settings, s: State, i: nat, acts: seq<Act>)
    requires i < |s.pcs| && SitsOut(i, acts)
    ensures |Run(cfg, s, acts).pcs| == |s.pcs| && Run(cfg, s, acts).pcs[i] == s.pcs[i]
    decreases |acts|
  {
    if acts != [] {
      SittingOutStays(cfg, s, i, acts[..|acts| - 1]);
    }
  }

  lemma ProducerIsAlone(s: State, i: nat, act: Act)
    requires Orderly(s) && Guarded(s) && Locked(s) && i < |s.pcs| && s.pcs[i].Producing?
    ensures !Publishes(s, act)
  {
    if Publishes(s, act) {
      assert Holds(s, i) && Holds(s, act.i);
    }
  }

  lemma UndisturbedAt(cfg: Settings, now: int, value: Option<Stored>, n: nat, before: seq<Act>, during: seq<Act>, m: nat)
    requires Undisturbed(cfg, Fresh(now, value, n), before + during) && m <= |during|
    ensures var s := Run(cfg, Run(cfg, Fresh(now, value, n), before), during[..m]); Orderly(s) && Guarded(s) && Locked(s)
  {
    assert (before + during)[..|before| + m] == before + during[..m];
    UndisturbedPrefix(cfg, Fresh(now, value, n), before + during, |before| + m);
    UndisturbedProductions(cfg, now, value, n, before + during[..m], 0, 0);
    RunAppend(cfg, Fresh(now, value, n), before, during[..m]);
  }

  /** Nobody publishes while instance i produces under its lock. */
  lemma NobodyElsePublishes(
      cfg: Settings, now: int, value: Option<Stored>, n: nat, before: seq<Act>, i: nat, during: seq<Act>, m: nat)
    requires Undisturbed(cfg, Fresh(now, value, n), before + during) && m < |during| && SitsOut(i, during)
    requires var s := Run(cfg, Fresh(now, value, n), before); i < |s.pcs| && s.pcs[i].Producing?
    ensures !Publishes(Run(cfg, Run(cfg, Fresh(now, value, n), before), during[..m]), during[m])
  {
    var s := Run(cfg, Fresh(now, value, n), before);
    UndisturbedAt(cfg, now, value, n, before, during, m);
    SittingOutStays(cfg, s, i, during[..m]);
    ProducerIsAlone(Run(cfg, s, during[..m]), i, during[m]);
  }

  /** From looking to having the lock: what instance i does, and what the others do meanwhile. */
  function ToTheLock(i: nat, between: seq<Act>): seq<Act>
  {
    [Go(i)] + between + [Go(i)]
  }

  lemma LookingInVain(cfg: Settings, s: State, i: nat)
    requires i < |s.pcs| && s.pcs[i].Looking? && !Readable(cfg, s)
    ensures Run(cfg, s, [Go(i)]) == At(s, i, Trying)
  {
    assert [Go(i)][..0] == [];
  }

  lemma TakingTheLock(cfg: Settings, s: State, i: nat)
    requires i < |s.pcs| && s.pcs[i].Trying? && LockFree(s)
    ensures var s' := Step(cfg, s, Go(i));
      |s'.pcs| == |s.pcs| && s'.lock.Some? && s'.pcs[i] == Producing(s'.lock, false)
  {
  }

  /** An instance that finds nothing and gets the lock at the first try produces under it. */
  lemma FirstTryProduces(cfg: Settings, s: State, i: nat, between: seq<Act>)
    requires i < |s.pcs| && s.pcs[i].Looking? && !Readable(cfg, s) && SitsOut(i, between)
    requires LockFree(Run(cfg, s, [Go(i)] + between))
    ensures var s' := Run(cfg, s, ToTheLock(i, between));
      |s'.pcs| == |s.pcs| && s'.lock.Some? && s'.pcs[i] == Producing(s'.lock, false)
    ensures !Publishes(Run(cfg, s, [Go(i)] + between), Go(i))
  {
    LookingInVain(cfg, s, i);
    RunAppend(cfg, s, [Go(i)], between);
    SittingOutStays(cfg, At(s, i, Trying), i, between);
    TakingTheLock(cfg, Run(cfg, s, [Go(i)] + between), i);
    RunSnoc(cfg, s, [Go(i)] + between, Go(i));
  }

  /** Whether act k publishes, in the whole run and in its part before the lock was taken. */
  lemma SamePublication(
      cfg: Settings, now: int, value: Option<Stored>, n: nat, before: seq<Act>, i: nat, between: seq<Act>, during: seq<Act>, k: int)
    requires Undisturbed(cfg, Fresh(now, value, n), before + ToTheLock(i, between) + during)
    requires SitsOut(i, between) && SitsOut(i, during)
    requires var s := Run(cfg, Fresh(now, value, n), before);
      i < |s.pcs| && s.pcs[i].Looking? && !Readable(cfg, s) && LockFree(Run(cfg, s, [Go(i)] + between))
    ensures var s := Run(cfg, Fresh(now, value, n), before);
      PublishesAt(cfg, s, ToTheLock(i, between) + during, k) <==> PublishesAt(cfg, s, [Go(i)] + between, k)
  {
    var s := Run(cfg, Fresh(now, value, n), before);
    var upTo, acts := [Go(i)] + between, ToTheLock(i, between) + during;
    if k < |upTo| {
      assert acts[..|upTo|] == upTo;
      PublishesAtPrefix(cfg, s, acts, |upTo|, k);
    } else if k == |upTo| {
      FirstTryProduces(cfg, s, i, between);
      assert acts[..k] == upTo;
    } else if k < |acts| {
      var m := k - |upTo| - 1;
      assert acts[..k] == ToTheLock(i, between) + during[..m];
      FirstTryProduces(cfg, s, i, between);
      RunAppend(cfg, s, ToTheLock(i, between), during[..m]);
      RunAppend(cfg, Fresh(now, value, n), before, ToTheLock(i, between));
      NobodyElsePublishes(cfg, now, value, n, before + ToTheLock(i, between), i, during, m);
    }
  }

  lemma SamePublications(
      cfg: Settings, now: int, value: Option<Stored>, n: nat, before: seq<Act>, i: nat, between: seq<Act>, during: seq<Act>)
    requires Undisturbed(cfg, Fresh(now, value, n), before + ToTheLock(i, between) + during)
    requires SitsOut(i, between) && SitsOut(i, during)
    requires var s := Run(cfg, Fresh(now, value, n), before);
      i < |s.pcs| && s.pcs[i].Looking? && !Readable(cfg, s) && LockFree(Run(cfg, s, [Go(i)] + between))
    ensures var s, acts, upTo := Run(cfg, Fresh(now, value, n), before), ToTheLock(i, between) + during, [Go(i)] + between;
      && (forall k :: LastPublication(cfg, s, acts, k) <==> LastPublication(cfg, s, upTo, k))
      && (forall k, t :: PublishesAt(cfg, s, upTo, k) ==>
            PublishesAt(cfg, s, acts, k) && (GoodUntil(cfg, s, acts, k, t) <==> GoodUntil(cfg, s, upTo, k, t)))
  {
    var s := Run(cfg, Fresh(now, value, n), before);
    var upTo, acts := [Go(i)] + between, ToTheLock(i, between) + during;
    forall k ensures PublishesAt(cfg, s, acts, k) <==> PublishesAt(cfg, s, upTo, k) {
      SamePublication(cfg, now, value, n, before, i, between, during, k);
    }
    forall k | PublishesAt(cfg, s, upTo, k) ensures acts[..k] == upTo[..k] && acts[k] == upTo[k] {
      assert acts[..|upTo|] == upTo;
      PublishesAtPrefix(cfg, s, acts, |upTo|, k);
    }
  }

  /** The comment on the recheck says that two instances never run the producer for one miss. Exactly when an
      instance that gets the lock at the first try, and so does not recheck, does: in every run without
      failures and expiries, from the moment it looked and found nothing until any moment of its production,
      Redis has a value it could have read if and only if another instance published in between, before the
      lock was taken, and the last such value is of legal size and has not expired. */
  lemma FirstTryIsInVainIff(
      cfg: Settings, now: int, value: Option<Stored>, n: nat, before: seq<Act>, i: nat, between: seq<Act>, during: seq<Act>)
    requires Undisturbed(cfg, Fresh(now, value, n), before + ToTheLock(i, between) + during)
    requires SitsOut(i, between) && SitsOut(i, during)
    requires var s := Run(cfg, Fresh(now, value, n), before);
      i < |s.pcs| && s.pcs[i].Looking? && !Readable(cfg, s) && LockFree(Run(cfg, s, [Go(i)] + between))
    ensures var s := Run(cfg, Fresh(now, value, n), before);
      var s' := Run(cfg, s, ToTheLock(i, between) + during);
      && |s'.pcs| == |s.pcs| && s'.pcs[i].Producing? && !s'.pcs[i].waited && s'.pcs[i].hold.Some?
      && (Readable(cfg, s') <==>
            exists k :: LastPublication(cfg, s, [Go(i)] + between, k) && GoodUntil(cfg, s, [Go(i)] + between, k, s'.now))
  {
    var s := Run(cfg, Fresh(now, value, n), before);
    var acts := ToTheLock(i, between) + during;
    FirstTryProduces(cfg, s, i, between);
    RunAppend(cfg, s, ToTheLock(i, between), during);
    SittingOutStays(cfg, Run(cfg, s, ToTheLock(i, between)), i, during);
    ReadableIff(cfg, s, acts);
    SamePublications(cfg, now, value, n, before, i, between, during);
  }

  lemma RunSnoc(cfg: Settings, s: State, acts: seq<Act>, act: Act)
    ensures Run(cfg, s, acts + [act]) == Step(cfg, Run(cfg, s, acts), act)
  {
    assert (acts + [act])[..|acts|] == acts;
  }

  /** Instance 0 reads nothing; instance 1 reads nothing too and produces. */
  function BothMiss(): seq<Act>
  {
    [Start(0), Go(0), Start(1), Go(1), Go(1)]
  }

  lemma BothMissRun(cfg: Settings)
    ensures Run(cfg, Fresh(0, None, 2), BothMiss()) ==
      State(0, None, Some(Lease(0, cfg.lockTTL)), [Trying, Producing(Some(Lease(0, cfg.lockTTL)), false)], 1)
  {
    var s := Fresh(0, None, 2);
    var s1 := Step(cfg, s, Start(0));
    var s2 := Step(cfg, s1, Go(0));
    var s3 := Step(cfg, s2, Start(1));
    var s4 := Step(cfg, s3, Go(1));
    assert s4 == State(0, None, None, [Trying, Trying], 0);
    RunSnoc(cfg, s, [], Start(0));
    RunSnoc(cfg, s, [] + [Start(0)], Go(0));
    RunSnoc(cfg, s, [] + [Start(0)] + [Go(0)], Start(1));
    RunSnoc(cfg, s, [] + [Start(0)] + [Go(0)] + [Start(1)], Go(1));
    RunSnoc(cfg, s, [] + [Start(0)] + [Go(0)] + [Start(1)] + [Go(1)], Go(1));
    assert [] + [Start(0)] + [Go(0)] + [Start(1)] + [Go(1)] + [Go(1)] == BothMiss();
  }

  /** The recheck is skipped by an instance that takes the lock at the first try: when instance 1 has then
      published and released, instance 0 produces although Redis holds a value it could have read, with
      nothing failing and nothing expiring. */
  lemma FirstTryProducesInVain()
    ensures var cfg, s := Settings(15, 4), Fresh(0, None, 2);
      var s' := Run(cfg, s, BothMiss() + [Produced(1, Some("v"), 60)] + [Go(1)] + [Go(1)] + [Go(0)]);
      && |s'.pcs| == 2 && s'.pcs[0].Producing? && !s'.pcs[0].waited && Readable(cfg, s')
      && s'.now == 0 && s'.lock.Some? && s'.lock == s'.pcs[0].hold
  {
    var cfg, s := Settings(15, 4), Fresh(0, None, 2);
    BothMissRun(cfg);
    RunSnoc(cfg, s, BothMiss(), Produced(1, Some("v"), 60));
    RunSnoc(cfg, s, BothMiss() + [Produced(1, Some("v"), 60)], Go(1));
    RunSnoc(cfg, s, BothMiss() + [Produced(1, Some("v"), 60)] + [Go(1)], Go(1));
    RunSnoc(cfg, s, BothMiss() + [Produced(1, Some("v"), 60)] + [Go(1)] + [Go(1)], Go(0));
  }
}
