/** Browser sessions: what a login stores, and refreshes by any number of replicas that compare and set on
    the record's version. The refresh lock may expire at any time, so nothing here relies on it. Times are in
    nanoseconds, durations are 64-bit; records hold whole seconds. */
module SessionRefresh {
  import opened Options
  import opened MachineIntegers

  const Second := 1_000_000_000

  /** The difference of two times is capped to what a duration can hold. */
  function TimeSub(a: int, b: int): int
  {
    if a - b > MaxInt64 then MaxInt64 else if a - b < -MaxInt64 - 1 then -MaxInt64 - 1 else a - b
  }

  function Min(a: int, b: int): int
  {
    if a < b then a else b
  }

  // ----- expiry arithmetic -----

  /** The absolute expiry, brought forward when the refresh token lives shorter. */
  function RefreshExpiry(now: int, configured: int, seconds: int): int
  {
    var remaining := TimeSub(configured, now);
    if remaining <= 0 then configured
    else
      var ceiling := Quotient(Wrap64(Wrap64(remaining + Second) - 1), Second);
      if seconds >= ceiling then configured else now + Wrap64(seconds * Second)
  }

  /** For every positive lifetime it is the earlier of the two times, exactly when adding the rounding to the
      time left does not wrap or the configured time is the earlier one. */
  lemma RefreshExpiryIsEarlierIff(now: int, configured: int, seconds: int)
    requires 0 < seconds <= MaxInt64
    ensures RefreshExpiry(now, configured, seconds) == Min(configured, now + seconds * Second) <==>
            configured - now <= MaxInt64 - (Second - 1) || configured <= now + seconds * Second
  {
    var left := configured - now;
    if 0 < left <= MaxInt64 - (Second - 1) {
      CeilingDecides(left, seconds);
    } else if left > MaxInt64 - (Second - 1) {
      WrappedCeilingIsNegative(TimeSub(configured, now));
    }
  }

  lemma CeilingDecides(left: int, seconds: int)
    requires 0 < left <= MaxInt64 - (Second - 1)
    ensures Quotient(Wrap64(Wrap64(left + Second) - 1), Second) == (left + Second - 1) / Second
    ensures seconds >= (left + Second - 1) / Second <==> seconds * Second >= left
  {
    WrapTwice(left);
    var c := (left + Second - 1) / Second;
    assert c * Second <= left + Second - 1 < (c + 1) * Second;
  }

  lemma WrapTwice(left: int)
    requires 0 < left <= MaxInt64 - (Second - 1)
    ensures Wrap64(Wrap64(left + Second) - 1) == left + Second - 1
  {
    if left + Second == MaxInt64 + 1 {
      assert Wrap64(left + Second) == -MaxInt64 - 1;
    }
  }

  lemma WrappedCeilingIsNegative(remaining: int)
    requires MaxInt64 - (Second - 1) < remaining <= MaxInt64
    ensures Quotient(Wrap64(Wrap64(remaining + Second) - 1), Second) <= 0
  {
    assert Wrap64(remaining + Second) == remaining + Second - 0x1_0000_0000_0000_0000;
  }

  /** A time left of 2^63 - 1 nanoseconds, rounded up, wraps to a negative one, so a lifetime of one second
      passes for long enough. */
  lemma RefreshExpiryOverlooksALifetime()
    ensures RefreshExpiry(0, MaxInt64, 1) == MaxInt64 && Min(MaxInt64, 0 + 1 * Second) == Second
  {
    RefreshExpiryIsEarlierIff(0, MaxInt64, 1);
  }

  /** No session lasts longer than a day, so for sessions it always is, and the product it forms never
      leaves 64 bits. */
  lemma SessionExpiryIsEarlier(now: int, configured: int, seconds: int)
    requires 0 < seconds <= MaxInt64 && configured - now <= 24 * 3600 * Second
    ensures RefreshExpiry(now, configured, seconds) == Min(configured, now + seconds * Second)
    ensures RefreshExpiry(now, configured, seconds) != configured ==> Wrap64(seconds * Second) == seconds * Second
  {
    RefreshExpiryIsEarlierIff(now, configured, seconds);
    if configured > now {
      CeilingDecides(configured - now, seconds);
    }
  }

  // ----- identity -----

  datatype Claims = Claims(issuer: string, subject: string, party: string, audience: seq<string>, expiresAt: int)

  /** seen counts what m holds; an absent count is zero. */
  ghost predicate Tallies(seen: map<string, int>, m: multiset<string>)
  {
    forall x :: Tally(seen, x) == m[x]
  }

  function Tally(seen: map<string, int>, x: string): int
  {
    if x in seen then seen[x] else 0
  }

  lemma TallyMoves(seen: map<string, int>, m: multiset<string>, x: string)
    requires Tallies(seen, m)
    ensures Tallies(seen[x := Tally(seen, x) + 1], m + multiset{x})
    ensures Tally(seen, x) > 0 ==> Tallies(seen[x := Tally(seen, x) - 1], m - multiset{x})
  {
    forall y ensures Tally(seen[x := Tally(seen, x) + 1], y) == (m + multiset{x})[y] {
      assert Tally(seen, y) == m[y];
    }
    if Tally(seen, x) > 0 {
      forall y ensures Tally(seen[x := Tally(seen, x) - 1], y) == (m - multiset{x})[y] {
        assert Tally(seen, y) == m[y];
      }
    }
  }

  lemma PrefixCount(b: seq<string>, i: nat)
    requires i < |b|
    ensures multiset(b[..i + 1]) == multiset(b[..i]) + multiset{b[i]}
    ensures multiset(b[..i])[b[i]] < multiset(b)[b[i]]
  {
    assert b[..i + 1] == b[..i] + [b[i]];
    assert b == b[..i + 1] + b[i + 1..];
  }

  /** Two audiences are the same when they agree up to order, repetitions included. */
  method SameAudience(a: seq<string>, b: seq<string>) returns (same: bool)
    ensures same <==> multiset(a) == multiset(b)
  {
    if |a| != |b| {
      assert |multiset(a)| != |multiset(b)|;
      return false;
    }
    var seen: map<string, int> := map[];
    for i := 0 to |a|
      invariant Tallies(seen, multiset(a[..i]))
    {
      PrefixCount(a, i);
      TallyMoves(seen, multiset(a[..i]), a[i]);
      seen := seen[a[i] := Tally(seen, a[i]) + 1];
    }
    assert a[..|a|] == a;
    same := CountDown(a, b, seen);
  }

  /** The second loop: every element of b takes one from the tally of a. */
  method CountDown(a: seq<string>, b: seq<string>, seen: map<string, int>) returns (same: bool)
    requires |a| == |b| && Tallies(seen, multiset(a))
    ensures same <==> multiset(a) == multiset(b)
  {
    var rest := seen;
    ghost var left := multiset(a);
    for i := 0 to |b|
      invariant Tallies(rest, left) && left + multiset(b[..i]) == multiset(a)
    {
      PrefixCount(b, i);
      TallyMoves(rest, left, b[i]);
      if Tally(rest, b[i]) == 0 {
        assert multiset(a)[b[i]] == multiset(b[..i])[b[i]];
        return false;
      }
      rest := rest[b[i] := Tally(rest, b[i]) - 1];
      left := left - multiset{b[i]};
    }
    assert b[..|b|] == b;
    assert |left| + |multiset(b)| == |multiset(a)|;
    same := true;
  }

  ghost predicate SameIdentity(a: Claims, b: Claims)
  {
    a.issuer == b.issuer && a.subject == b.subject && a.party == b.party && multiset(a.audience) == multiset(b.audience)
  }

  // ----- records -----

  datatype Record = Record(claims: Claims, refreshToken: string, csrf: string, expiresAt: int, absoluteAt: int, version: int)

  /** What the token endpoint answers. */
  datatype Reply =
    | Unavailable
    | Rejected
    | Tokens(claims: Claims, refreshToken: string, lifetime: Option<int>)

  /** The endpoint's answers are refused unless the lifetime, if there is one, is a positive 64-bit number. */
  predicate LegalReply(reply: Reply)
  {
    reply.Tokens? && reply.lifetime.Some? ==> 0 < reply.lifetime.value <= MaxInt64
  }

  function Unix(t: int): int
  {
    t / Second
  }

  /** The record a login stores. */
  function FirstRecord(now: int, absoluteTTL: int, reply: Reply, csrf: string): Record
    requires reply.Tokens?
  {
    var configured := now + absoluteTTL;
    var absolute := if reply.lifetime.Some? then RefreshExpiry(now, configured, reply.lifetime.value) else configured;
    Record(reply.claims, reply.refreshToken, csrf, Unix(Min(absolute, reply.claims.expiresAt)), Unix(absolute), 1)
  }

  /** The record a refresh of `was` is to be replaced by, and the absolute expiry it is computed from. */
  function NextRecord(was: Record, now: int, reply: Reply, csrf: string): (Record, int)
    requires reply.Tokens?
  {
    var configured := was.absoluteAt * Second;
    var absolute := if reply.lifetime.Some? then RefreshExpiry(now, configured, reply.lifetime.value) else configured;
    (Record(reply.claims, if reply.refreshToken != "" then reply.refreshToken else was.refreshToken, csrf,
            Unix(Min(absolute, reply.claims.expiresAt)), Unix(absolute), Wrap64(was.version + 1)), absolute)
  }

  predicate Encodable(r: Record)
  {
    1 <= r.version && 0 < r.expiresAt && 0 < r.absoluteAt
  }

  // ----- one session, any number of replicas -----

  datatype Pc =
    | Idle
    | Exchanging(was: Record)                       // loaded without taking anything, asking for new tokens
    | Writing(was: Record, next: Record, ttl: int)  // about to compare and set
    | Deleting                                      // about to delete the session

  /** `written` lists every record ever stored for this session, oldest first. */
  datatype Session = Session(stored: Option<Record>, written: seq<Record>, pcs: seq<Pc>)

  datatype Outcome = Answered | AnswerLost | NotRun

  datatype Act =
    | Load(i: nat, csrf: string, now: int, locked: bool)
    | Exchanged(i: nat, reply: Reply, csrf: string, now: int, idleTTL: int, later: int, bounded: bool)
    | CompareAndSet(i: nat, outcome: Outcome)
    | Delete(i: nat, ran: bool)
    | Vanish                                        // the key expires, or somebody logs out

  function At(s: Session, i: nat, pc: Pc): Session
    requires i < |s.pcs|
  {
    s.(pcs := s.pcs[i := pc])
  }

  /** Loading for a refresh: a session past its absolute expiry is deleted on sight. */
  function LoadStep(s: Session, i: nat, csrf: string, now: int, locked: bool): Session
    requires i < |s.pcs|
  {
    if s.stored.None? then s
    else if s.stored.value.absoluteAt <= Unix(now) then s.(stored := None)
    else if s.stored.value.csrf != csrf then s
    else if s.stored.value.refreshToken == "" then At(s, i, Deleting)
    else if !locked then s
    else At(s, i, Exchanging(s.stored.value))
  }

  ghost function ExchangedStep(
      s: Session, i: nat, was: Record, reply: Reply, csrf: string, now: int, idleTTL: int, later: int, bounded: bool): Session
    requires i < |s.pcs|
  {
    if reply.Unavailable? then At(s, i, Idle)
    else if reply.Rejected? || !LegalReply(reply) || !SameIdentity(was.claims, reply.claims) then At(s, i, Deleting)
    else
      var (next, absolute) := NextRecord(was, now, reply, csrf);
      if !Encodable(next) || !bounded then At(s, i, Deleting)
      else At(s, i, Writing(was, next, Min(idleTTL, TimeSub(absolute, later))))
  }

  /** The script sets the record only over one of the version it was computed from. Whatever else happens,
      the caller goes on to delete the session. */
  function CasStep(s: Session, i: nat, outcome: Outcome): Session
    requires i < |s.pcs| && s.pcs[i].Writing?
  {
    var w := s.pcs[i];
    if w.ttl <= 0 || outcome.NotRun? || s.stored.None? || s.stored.value.version != Wrap64(w.next.version - 1) then
      At(s, i, Deleting)
    else
      At(s, i, if outcome.Answered? then Idle else Deleting).(stored := Some(w.next), written := s.written + [w.next])
  }

  ghost function Step(s: Session, act: Act): Session
  {
    if act.Vanish? then s.(stored := None)
    else if act.i >= |s.pcs| then s
    else match act
      case Load(i, csrf, now, locked) => if s.pcs[i].Idle? then LoadStep(s, i, csrf, now, locked) else s
      case Exchanged(i, reply, csrf, now, idleTTL, later, bounded) =>
        if s.pcs[i].Exchanging? then ExchangedStep(s, i, s.pcs[i].was, reply, csrf, now, idleTTL, later, bounded) else s
      case CompareAndSet(i, outcome) => if s.pcs[i].Writing? then CasStep(s, i, outcome) else s
      case Delete(i, ran) =>
        if !s.pcs[i].Deleting? then s
        else At(s, i, Idle).(stored := if ran then None else s.stored)
  }

  ghost function Run(s: Session, acts: seq<Act>): Session
  {
    if acts == [] then s else Step(Run(s, acts[..|acts| - 1]), acts[|acts| - 1])
  }

  /** A session right after its login, with n replicas that may be asked to refresh it. */
  function LoggedIn(r: Record, n: nat): Session
  {
    Session(Some(r), [r], seq(n, _ => Idle))
  }

  // ----- what every run keeps -----

  predicate Capped(r: Record)
  {
    r.expiresAt <= r.absoluteAt
  }

  /** The k-th record stored has version k, and the absolute expiry never grows. */
  predicate Lineage(written: seq<Record>)
  {
    && written != []
    && (forall k :: 0 <= k < |written| ==> written[k].version == k + 1 && Capped(written[k]))
    && (forall k, l :: 0 <= k <= l < |written| ==> written[l].absoluteAt <= written[k].absoluteAt)
  }

  predicate Known(written: seq<Record>, r: Record)
  {
    1 <= r.version <= |written| && written[r.version - 1] == r
  }

  /** next may follow was. */
  predicate Succeeds(was: Record, next: Record)
  {
    next.version == Wrap64(was.version + 1) && 1 <= next.version && next.absoluteAt <= was.absoluteAt && Capped(next)
  }

  ghost predicate Consistent(s: Session)
  {
    && Lineage(s.written) && |s.written| <= MaxInt64
    && (s.stored.Some? ==> s.stored.value == s.written[|s.written| - 1])
    && (forall i :: 0 <= i < |s.pcs| && s.pcs[i].Exchanging? ==> Known(s.written, s.pcs[i].was))
    && (forall i :: 0 <= i < |s.pcs| && s.pcs[i].Writing? ==>
          Known(s.written, s.pcs[i].was) && Succeeds(s.pcs[i].was, s.pcs[i].next))
  }

  /** Any answer the endpoint gives leads to an absolute expiry no later than the one it started from. */
  lemma ExpiryNeverGrows(now: int, configured: int, seconds: int)
    requires 0 < seconds <= MaxInt64
    ensures RefreshExpiry(now, configured, seconds) <= configured
  {
    var left := configured - now;
    if 0 < left <= MaxInt64 - (Second - 1) {
      CeilingDecides(left, seconds);
    } else if left > MaxInt64 - (Second - 1) {
      WrappedCeilingIsNegative(TimeSub(configured, now));
    }
  }

  lemma NextRecordSucceeds(was: Record, now: int, reply: Reply, csrf: string)
    requires reply.Tokens? && LegalReply(reply)
    ensures var next := NextRecord(was, now, reply, csrf).0;
      Encodable(next) ==> Succeeds(was, next)
  {
    if reply.lifetime.Some? {
      ExpiryNeverGrows(now, was.absoluteAt * Second, reply.lifetime.value);
    }
  }

  /** A login stores a capped record that lasts no longer than it may. */
  lemma FirstRecordIsCapped(now: int, absoluteTTL: int, reply: Reply, csrf: string)
    requires reply.Tokens? && LegalReply(reply)
    ensures var r := FirstRecord(now, absoluteTTL, reply, csrf);
      Capped(r) && r.version == 1 && r.absoluteAt <= Unix(now + absoluteTTL)
  {
    if reply.lifetime.Some? {
      ExpiryNeverGrows(now, now + absoluteTTL, reply.lifetime.value);
    }
  }

  lemma LineageGrows(written: seq<Record>, next: Record)
    requires Lineage(written) && |written| <= MaxInt64 && Succeeds(written[|written| - 1], next)
    ensures Lineage(written + [next]) && |written + [next]| <= MaxInt64
  {
    var last := written[|written| - 1];
    assert last.version == |written|;
    assert forall k :: 0 <= k < |written| ==> last.absoluteAt <= written[k].absoluteAt;
  }

  /** Moving one replica on keeps the session consistent when what the replica now carries is in order. */
  lemma MoveKeepsConsistent(s: Session, i: nat, s': Session)
    requires Consistent(s) && i < |s.pcs| && |s'.pcs| == |s.pcs| && s'.pcs == s.pcs[i := s'.pcs[i]]
    requires s'.written == s.written && (s'.stored == s.stored || s'.stored == None)
    requires s'.pcs[i].Exchanging? ==> Known(s.written, s'.pcs[i].was)
    requires s'.pcs[i].Writing? ==> Known(s.written, s'.pcs[i].was) && Succeeds(s'.pcs[i].was, s'.pcs[i].next)
    ensures Consistent(s')
  {
  }

  /** A write that takes effect is over the record it was computed from. */
  lemma WriteKeepsConsistent(s: Session, i: nat, s': Session)
    requires Consistent(s) && i < |s.pcs| && s.pcs[i].Writing? && |s'.pcs| == |s.pcs|
    requires s.stored.Some? && s.stored.value.version == Wrap64(s.pcs[i].next.version - 1)
    requires s'.pcs == s.pcs[i := s'.pcs[i]] && (s'.pcs[i].Idle? || s'.pcs[i].Deleting?)
    requires s'.written == s.written + [s.pcs[i].next] && s'.stored == Some(s.pcs[i].next)
    ensures Consistent(s')
  {
    assert Known(s.written, s.pcs[i].was);
    LineageGrows(s.written, s.pcs[i].next);
    forall j | 0 <= j < |s'.pcs| && (s'.pcs[j].Exchanging? || s'.pcs[j].Writing?)
      ensures Known(s'.written, s'.pcs[j].was)
    {
      assert Known(s.written, s.pcs[j].was);
    }
  }

  lemma StepKeepsConsistent(s: Session, act: Act)
    requires Consistent(s)
    ensures Consistent(Step(s, act))
  {
    if !act.Vanish? && act.i < |s.pcs| {
      var i, s' := act.i, Step(s, act);
      if act.CompareAndSet? && s'.written != s.written {
        WriteKeepsConsistent(s, i, s');
      } else {
        if act.Exchanged? && s.pcs[i].Exchanging? && act.reply.Tokens? && LegalReply(act.reply) {
          NextRecordSucceeds(s.pcs[i].was, act.now, act.reply, act.csrf);
        }
        MoveKeepsConsistent(s, i, s');
      }
    }
  }

  /** One step either leaves the stored record, or removes it, or replaces it by its successor. */
  lemma StepWritesAtMostOnce(s: Session, act: Act)
    requires Consistent(s)
    ensures var s' := Step(s, act);
      || (s'.written == s.written && (s'.stored == s.stored || s'.stored == None))
      || (s.stored.Some? && s'.stored.Some? && s'.written == s.written + [s'.stored.value]
          && Succeeds(s.stored.value, s'.stored.value) && s'.stored.value.version == s.stored.value.version + 1)
  {
    if act.CompareAndSet? && act.i < |s.pcs| && s.pcs[act.i].Writing? && Step(s, act).written != s.written {
      assert Known(s.written, s.pcs[act.i].was);
    }
  }

  lemma {:induction false} EveryRunIsConsistent(r: Record, n: nat, acts: seq<Act>)
    requires Capped(r) && r.version == 1
    ensures Consistent(Run(LoggedIn(r, n), acts))
    decreases |acts|
  {
    if acts != [] {
      EveryRunIsConsistent(r, n, acts[..|acts| - 1]);
      StepKeepsConsistent(Run(LoggedIn(r, n), acts[..|acts| - 1]), acts[|acts| - 1]);
    }
  }

  /** Over any interleaving of refreshes, logouts, expiries and lost answers: a session that is still stored
      was stored all along; its version has grown by exactly the number of writes in between; its absolute
      expiry has not grown; and its expiry is within its absolute expiry. */
  lemma {:induction false} SessionsOnlyGrowOld(r: Record, n: nat, acts: seq<Act>, m: nat)
    requires Capped(r) && r.version == 1 && m <= |acts|
    ensures var then_, now_ := Run(LoggedIn(r, n), acts[..m]), Run(LoggedIn(r, n), acts);
      now_.stored.Some? ==>
        && then_.stored.Some? && then_.written <= now_.written
        && now_.stored.value.version == then_.stored.value.version + |now_.written| - |then_.written|
        && now_.stored.value.absoluteAt <= then_.stored.value.absoluteAt && Capped(now_.stored.value)
    decreases |acts|
  {
    EveryRunIsConsistent(r, n, acts);
    if m == |acts| {
      assert acts[..m] == acts;
    } else {
      var before := acts[..|acts| - 1];
      assert before[..m] == acts[..m];
      SessionsOnlyGrowOld(r, n, before, m);
      EveryRunIsConsistent(r, n, before);
      StepWritesAtMostOnce(Run(LoggedIn(r, n), before), acts[|acts| - 1]);
    }
  }
}
