/** Whether a lock that stands in Redis has somebody who will release it, and whether whoever produces has looked
    first: over every run, with any failures and expiries. */
module RedisLocks {
  import opened Options
  import opened RedisHandoff

  // ----- a lock has a holder -----

  predicate AboutToLock(s: State, i: nat)
  {
    i < |s.pcs| && (s.pcs[i].Trying? || s.pcs[i].TryingAgain?)
  }

  /** A lock command took effect and its answer was lost: the lock carries the token drawn for it. */
  predicate LockAnswerLost(s: State, act: Act, token: nat)
  {
    act.Fail? && act.applied && AboutToLock(s, act.i) && LockFree(s) && s.drawn == token
  }

  /** A release failed and had no effect. */
  predicate ReleaseFailed(s: State, act: Act, token: nat)
  {
    act.Fail? && !act.applied && act.i < |s.pcs| && s.pcs[act.i].Unlocking? && s.pcs[act.i].lease.token == token
  }

  /** One of the two has happened to the hold with this token. */
  predicate Orphaned(cfg: Settings, s: State, acts: seq<Act>, token: nat)
  {
    acts != [] &&
    var before, act := acts[..|acts| - 1], acts[|acts| - 1];
    || Orphaned(cfg, s, before, token)
    || LockAnswerLost(Run(cfg, s, before), act, token) || ReleaseFailed(Run(cfg, s, before), act, token)
  }

  ghost predicate HasHolder(s: State)
    requires s.lock.Some?
  {
    exists i :: Holds(s, i) && Held(s, i) == s.lock.value
  }

  ghost predicate NobodyHolds(s: State, token: nat)
  {
    forall i :: Holds(s, i) ==> Held(s, i).token != token
  }

  /** One step either keeps the holder of a standing lock, or orphans it. */
  lemma StepKeepsHolder(cfg: Settings, s: State, act: Act)
    requires Orderly(s) && Step(cfg, s, act).lock.Some?
    requires s.lock.Some? && Step(cfg, s, act).lock == s.lock && HasHolder(s)
    ensures HasHolder(Step(cfg, s, act)) || ReleaseFailed(s, act, s.lock.value.token)
  {
    var i :| Holds(s, i) && Held(s, i) == s.lock.value;
    if !ReleaseFailed(s, act, s.lock.value.token) {
      assert Holds(Step(cfg, s, act), i) && Held(Step(cfg, s, act), i) == s.lock.value;
    }
  }

  /** A lock that was not there before is its taker's, unless the answer was lost. */
  lemma NewLockHasHolder(cfg: Settings, s: State, act: Act)
    requires Orderly(s) && Step(cfg, s, act).lock.Some? && Step(cfg, s, act).lock != s.lock
    ensures Step(cfg, s, act).lock.value.token == s.drawn && (HasHolder(Step(cfg, s, act)) || LockAnswerLost(s, act, s.drawn))
  {
    if act.Go? {
      assert Holds(Step(cfg, s, act), act.i);
    }
  }

  /** A token that is out of everybody's hands stays so. */
  lemma NobodyTakesItUp(cfg: Settings, s: State, act: Act, token: nat)
    requires token < s.drawn && NobodyHolds(s, token)
    ensures token < Step(cfg, s, act).drawn && NobodyHolds(Step(cfg, s, act), token)
  {
    var s' := Step(cfg, s, act);
    forall i | Holds(s', i) ensures Held(s', i).token != token {
      assert Held(s', i).token == s.drawn || (Holds(s, i) && Held(s, i) == Held(s', i));
    }
  }

  /** What either of the two leaves behind is in nobody's hands. */
  lemma OrphansAreNobodys(cfg: Settings, s: State, act: Act, token: nat)
    requires Orderly(s) && (LockAnswerLost(s, act, token) || ReleaseFailed(s, act, token))
    ensures token < Step(cfg, s, act).drawn && NobodyHolds(Step(cfg, s, act), token)
  {
    var s' := Step(cfg, s, act);
    assert ReleaseFailed(s, act, token) ==> Holds(s, act.i);
    forall i | Holds(s', i) ensures Held(s', i).token != token {
      assert i != act.i && Holds(s, i) && Held(s, i) == Held(s', i);
    }
  }

  lemma {:induction false} OrphanedIsNobodys(cfg: Settings, now: int, value: Option<Stored>, n: nat, acts: seq<Act>, token: nat)
    requires Orphaned(cfg, Fresh(now, value, n), acts, token)
    ensures token < Run(cfg, Fresh(now, value, n), acts).drawn && NobodyHolds(Run(cfg, Fresh(now, value, n), acts), token)
    decreases |acts|
  {
    var before, act := acts[..|acts| - 1], acts[|acts| - 1];
    var s := Run(cfg, Fresh(now, value, n), before);
    LockedProductionsNeverOverlap(cfg, now, value, n, before, 0, 0);
    if Orphaned(cfg, Fresh(now, value, n), before, token) {
      OrphanedIsNobodys(cfg, now, value, n, before, token);
      NobodyTakesItUp(cfg, s, act, token);
    } else {
      OrphansAreNobodys(cfg, s, act, token);
    }
  }

  lemma {:induction false} UnorphanedHasHolder(cfg: Settings, now: int, value: Option<Stored>, n: nat, acts: seq<Act>)
    requires var s := Run(cfg, Fresh(now, value, n), acts);
      s.lock.Some? && !Orphaned(cfg, Fresh(now, value, n), acts, s.lock.value.token)
    ensures HasHolder(Run(cfg, Fresh(now, value, n), acts))
    decreases |acts|
  {
    var before, act := acts[..|acts| - 1], acts[|acts| - 1];
    var s := Run(cfg, Fresh(now, value, n), before);
    LockedProductionsNeverOverlap(cfg, now, value, n, before, 0, 0);
    if Step(cfg, s, act).lock == s.lock {
      UnorphanedHasHolder(cfg, now, value, n, before);
      StepKeepsHolder(cfg, s, act);
    } else {
      NewLockHasHolder(cfg, s, act);
    }
  }

  /** Over every run: a lock that stands has a holder, who will release it, unless the answer to its taking was
      lost or its release failed; and then it has none. */
  lemma LockHasHolderIff(cfg: Settings, now: int, value: Option<Stored>, n: nat, acts: seq<Act>)
    requires Run(cfg, Fresh(now, value, n), acts).lock.Some?
    ensures var s := Run(cfg, Fresh(now, value, n), acts);
      HasHolder(s) <==> !Orphaned(cfg, Fresh(now, value, n), acts, s.lock.value.token)
  {
    if Orphaned(cfg, Fresh(now, value, n), acts, Run(cfg, Fresh(now, value, n), acts).lock.value.token) {
      OrphanedIsNobodys(cfg, now, value, n, acts, Run(cfg, Fresh(now, value, n), acts).lock.value.token);
    } else {
      UnorphanedHasHolder(cfg, now, value, n, acts);
    }
  }

  /** And no lock, held or not, stands for longer than its time to live from now. */
  lemma {:induction false} LocksExpire(cfg: Settings, now: int, value: Option<Stored>, n: nat, acts: seq<Act>)
    requires 0 <= cfg.lockTTL
    ensures var s := Run(cfg, Fresh(now, value, n), acts); s.lock.Some? ==> s.lock.value.expiresAt <= s.now + cfg.lockTTL
    decreases |acts|
  {
    if acts != [] {
      LocksExpire(cfg, now, value, n, acts[..|acts| - 1]);
    }
  }

  lemma {:induction false} NoFailureNoOrphan(cfg: Settings, s: State, acts: seq<Act>, token: nat)
    requires forall k :: 0 <= k < |acts| ==> !acts[k].Fail?
    ensures !Orphaned(cfg, s, acts, token)
    decreases |acts|
  {
    if acts != [] {
      NoFailureNoOrphan(cfg, s, acts[..|acts| - 1], token);
    }
  }

  /** So in a run without failures, once nobody holds a lock there is none, and the next to try takes it: at the
      first try it produces under it, and after a wait it looks once more under it. */
  lemma ReleasedLockIsFree(cfg: Settings, now: int, value: Option<Stored>, n: nat, acts: seq<Act>, i: nat)
    requires forall k :: 0 <= k < |acts| ==> !acts[k].Fail?
    requires forall j :: !Holds(Run(cfg, Fresh(now, value, n), acts), j)
    ensures var s := Run(cfg, Fresh(now, value, n), acts);
      && s.lock.None?
      && (AboutToLock(s, i) ==>
            var s', lease := Step(cfg, s, Go(i)), Lease(s.drawn, s.now + cfg.lockTTL);
            && s'.lock == Some(lease)
            && |s'.pcs| == |s.pcs| && s'.pcs[i] == if s.pcs[i].Trying? then Producing(Some(lease), false) else Rechecking(lease))
  {
    var s := Run(cfg, Fresh(now, value, n), acts);
    if s.lock.Some? {
      NoFailureNoOrphan(cfg, Fresh(now, value, n), acts, s.lock.value.token);
      LockHasHolderIff(cfg, now, value, n, acts);
    }
  }

  // ----- whoever produces has looked -----

  datatype Look = NotYet | Hit | Miss | Unanswered

  predicate AboutToLook(pc: Pc)
  {
    pc.Looking? || pc.Polling? || pc.Rechecking?
  }

  /** What instance i found when it last looked in Redis. */
  function LastLook(cfg: Settings, s: State, acts: seq<Act>, i: nat): Look
  {
    if acts == [] then NotYet
    else
      var before, act := acts[..|acts| - 1], acts[|acts| - 1];
      var now := Run(cfg, s, before);
      if !(act == Go(i) || (act.Fail? && act.i == i)) || i >= |now.pcs| || !AboutToLook(now.pcs[i]) then LastLook(cfg, s, before, i)
      else if act.Fail? then Unanswered
      else if now.value.Some? && now.now < now.value.value.expiresAt && |now.value.value.data| <= cfg.maxValueBytes then Hit
      else Miss
  }

  /** In the middle of a miss: going for the lock, or producing, or sending what was produced. */
  predicate Works(pc: Pc)
  {
    pc.Trying? || pc.TryingAgain? || pc.Polling? || pc.Producing? || pc.Publishing?
  }

  /** Over every run: nobody goes for the lock or produces whose last look found a value that had not expired and
      was of legal size; and a look that found none, or got no answer, never ends the miss. */
  lemma {:induction false} NobodyWorksAfterAHit(cfg: Settings, now: int, value: Option<Stored>, n: nat, acts: seq<Act>, i: nat)
    ensures var s := Run(cfg, Fresh(now, value, n), acts);
      i < |s.pcs| && Works(s.pcs[i]) ==> LastLook(cfg, Fresh(now, value, n), acts, i) in {Miss, Unanswered}
    ensures var s := Run(cfg, Fresh(now, value, n), acts);
      acts != [] && (var before := Run(cfg, Fresh(now, value, n), acts[..|acts| - 1]);
        && acts[|acts| - 1] in {Go(i), Fail(i, true), Fail(i, false)} && i < |before.pcs| && AboutToLook(before.pcs[i])
        && LastLook(cfg, Fresh(now, value, n), acts, i) != Hit) ==>
      i < |s.pcs| && Works(s.pcs[i])
    ensures var s := Run(cfg, Fresh(now, value, n), acts);
      i < |s.pcs| && s.pcs[i].Rechecking? ==> LastLook(cfg, Fresh(now, value, n), acts, i) in {Miss, Unanswered}
    decreases |acts|
  {
    if acts != [] {
      NobodyWorksAfterAHit(cfg, now, value, n, acts[..|acts| - 1], i);
    }
  }

  // ----- single commands -----

  /** A lock command takes the lock, with a new token, exactly when there is none or it has run out; otherwise the
      instance waits. */
  lemma TryAnswer(cfg: Settings, s: State, i: nat)
    requires AboutToLock(s, i)
    ensures var s', lease := Step(cfg, s, Go(i)), Lease(s.drawn, s.now + cfg.lockTTL);
      && |s'.pcs| == |s.pcs| && s'.now == s.now && s'.value == s.value && s'.drawn > s.drawn
      && if s.lock.None? || s.now >= s.lock.value.expiresAt then
           s'.lock == Some(lease) && s'.pcs == s.pcs[i := if s.pcs[i].Trying? then Producing(Some(lease), false) else Rechecking(lease)]
         else
           s'.lock == s.lock && s'.pcs == s.pcs[i := Polling]
  {
  }

  /** A release leaves the instance idle, and the lock as it was unless it is still the instance's own. */
  lemma ReleaseAnswer(cfg: Settings, s: State, i: nat)
    requires i < |s.pcs| && s.pcs[i].Unlocking?
    ensures var s', own := Step(cfg, s, Go(i)), s.lock.Some? && s.lock.value.token == s.pcs[i].lease.token;
      s' == s.(pcs := s.pcs[i := Idle], lock := if own then None else s.lock)
  {
  }

  /** What a producer returns is sent to Redis exactly when it is a value of at most the legal size; either way the
      lock, if there is one, is released after it. */
  lemma ProducedAnswer(cfg: Settings, s: State, i: nat, data: Option<string>, ttl: int)
    requires i < |s.pcs| && s.pcs[i].Producing?
    ensures var s', hold := Step(cfg, s, Produced(i, data, ttl)), s.pcs[i].hold;
      s' == s.(pcs := s.pcs[i :=
        if data.Some? && |data.value| <= cfg.maxValueBytes then Publishing(hold, s.pcs[i].waited, data.value, ttl)
        else if hold.Some? then Unlocking(hold.value)
        else Idle])
  {
  }

  /** The value sent replaces what is in Redis until its time to live is over. */
  lemma PublishAnswer(cfg: Settings, s: State, i: nat)
    requires i < |s.pcs| && s.pcs[i].Publishing?
    ensures var s', pc := Step(cfg, s, Go(i)), s.pcs[i];
      s' == s.(value := Some(Stored(pc.data, s.now + pc.ttl)),
               pcs := s.pcs[i := if pc.hold.Some? then Unlocking(pc.hold.value) else Idle])
  {
  }

  // ----- over every run -----

  /** The last value that instance i produced while it was its turn. */
  function LastProduct(cfg: Settings, s: State, acts: seq<Act>, i: nat): Option<Act>
  {
    if acts == [] then None
    else
      var before, act := acts[..|acts| - 1], acts[|acts| - 1];
      var now := Run(cfg, s, before);
      if act.Produced? && act.i == i && i < |now.pcs| && now.pcs[i].Producing? then Some(act) else LastProduct(cfg, s, before, i)
  }

  /** Over every run, what is about to be published is what the instance produced last, with its time to live. */
  lemma {:induction false} PublishesItsProduct(cfg: Settings, now: int, value: Option<Stored>, n: nat, acts: seq<Act>, i: nat)
    ensures var s, made := Run(cfg, Fresh(now, value, n), acts), LastProduct(cfg, Fresh(now, value, n), acts, i);
      i < |s.pcs| && s.pcs[i].Publishing? ==>
        && made.Some? && made.value.Produced? && made.value.data == Some(s.pcs[i].data) && made.value.ttl == s.pcs[i].ttl
        && |s.pcs[i].data| <= cfg.maxValueBytes
    decreases |acts|
  {
    if acts != [] {
      PublishesItsProduct(cfg, now, value, n, acts[..|acts| - 1], i);
    }
  }

  /** In its present miss instance i has had to wait for another one's lock. */
  function HasWaited(cfg: Settings, s: State, acts: seq<Act>, i: nat): bool
  {
    if acts == [] then false
    else
      var before, act := acts[..|acts| - 1], acts[|acts| - 1];
      var was, now := Run(cfg, s, before), Run(cfg, s, acts);
      if i < |was.pcs| && was.pcs[i].Idle? && act == Start(i) then false
      else HasWaited(cfg, s, before, i) || (i < |now.pcs| && now.pcs[i].Polling?)
  }

  predicate TellsWait(pc: Pc, waited: bool)
  {
    match pc
    case Idle => true
    case Looking => !waited
    case Trying => !waited
    case Polling => waited
    case TryingAgain => waited
    case Rechecking(_) => waited
    case Producing(_, w) => w == waited
    case Publishing(_, w, _, _) => w == waited
    case Unlocking(_) => true
  }

  lemma StepTellsWait(cfg: Settings, s: State, act: Act, i: nat, waited: bool)
    requires i < |s.pcs| && TellsWait(s.pcs[i], waited)
    ensures var s' := Step(cfg, s, act);
      && |s'.pcs| == |s.pcs|
      && TellsWait(s'.pcs[i], if s.pcs[i].Idle? && act == Start(i) then false else waited || s'.pcs[i].Polling?)
  {
  }

  lemma {:induction false} RunKeepsSize(cfg: Settings, s: State, acts: seq<Act>)
    ensures |Run(cfg, s, acts).pcs| == |s.pcs|
    decreases |acts|
  {
    if acts != [] {
      RunKeepsSize(cfg, s, acts[..|acts| - 1]);
    }
  }

  /** Over every run, a production is marked as one after a wait exactly when it is. */
  lemma {:induction false} WaitedIsTold(cfg: Settings, now: int, value: Option<Stored>, n: nat, acts: seq<Act>, i: nat)
    ensures var s, waited := Run(cfg, Fresh(now, value, n), acts), HasWaited(cfg, Fresh(now, value, n), acts, i);
      i < |s.pcs| ==> TellsWait(s.pcs[i], waited)
    decreases |acts|
  {
    if acts != [] && i < n {
      var before := acts[..|acts| - 1];
      WaitedIsTold(cfg, now, value, n, before, i);
      RunKeepsSize(cfg, Fresh(now, value, n), before);
      StepTellsWait(cfg, Run(cfg, Fresh(now, value, n), before), acts[|acts| - 1], i, HasWaited(cfg, Fresh(now, value, n), before, i));
    }
    RunKeepsSize(cfg, Fresh(now, value, n), acts);
  }
}
