/** What the records of one browser session hold, over every run of its refreshes: each is made of the one before
    and of the answer of the token endpoint that the writing replica got; and which refreshes succeed. */
module SessionRecords {
  import opened Options
  import opened MachineIntegers
  import opened SessionRefresh

  // ----- one record from the last -----

  predicate Exchange(act: Act)
  {
    act.Exchanged? && act.reply.Tokens?
  }

  /** When the session ends that is refreshed with this answer: when it was to end, or when the new refresh token does,
      whichever comes first. */
  function Until(r: Record, act: Act): int
    requires Exchange(act)
  {
    if act.reply.lifetime.None? then r.absoluteAt * 1_000_000_000
    else Min(r.absoluteAt * 1_000_000_000, act.now + act.reply.lifetime.value * 1_000_000_000)
  }

  /** Both ends are told in whole seconds, rounded down; the record's comes no later than the claims' own. */
  predicate Ends(was: Record, act: Act, next: Record)
    requires Exchange(act)
  {
    && next.absoluteAt == Until(was, act) / 1_000_000_000
    && next.expiresAt == Min(Until(was, act), act.reply.claims.expiresAt) / 1_000_000_000
  }

  /** next is made of `was` and the answer: the claims and the CSRF value are those of the answer, the refresh token
      is the one handed out or, when none was, the old one, and the user is the same. */
  ghost predicate Follows(was: Record, act: Act, next: Record)
  {
    && Exchange(act)
    && next.claims == act.reply.claims && next.csrf == act.csrf
    && next.refreshToken == (if |act.reply.refreshToken| > 0 then act.reply.refreshToken else was.refreshToken)
    && next.claims.issuer == was.claims.issuer && next.claims.subject == was.claims.subject
    && next.claims.party == was.claims.party && multiset(next.claims.audience) == multiset(was.claims.audience)
    && (was.absoluteAt * 1_000_000_000 - act.now <= 24 * 3600 * 1_000_000_000 ==> Ends(was, act, next))
  }

  /** The user of the answer is the one logged in, and the lifetime, if given, is a positive 64-bit number. */
  ghost predicate Acceptable(was: Record, reply: Reply)
  {
    && reply.Tokens? && (reply.lifetime.Some? ==> 1 <= reply.lifetime.value <= 0x7fff_ffff_ffff_ffff)
    && reply.claims.issuer == was.claims.issuer && reply.claims.subject == was.claims.subject
    && reply.claims.party == was.claims.party && multiset(reply.claims.audience) == multiset(was.claims.audience)
  }

  lemma EndsAsFollows(was: Record, act: Act)
    requires act.Exchanged? && Acceptable(was, act.reply)
    requires was.absoluteAt * 1_000_000_000 - act.now <= 24 * 3600 * 1_000_000_000
    ensures Ends(was, act, NextRecord(was, act.now, act.reply, act.csrf).0)
    ensures NextRecord(was, act.now, act.reply, act.csrf).1 == Until(was, act)
  {
    if act.reply.lifetime.Some? {
      SessionExpiryIsEarlier(act.now, was.absoluteAt * Second, act.reply.lifetime.value);
    }
  }

  /** What a replica does with an answer: with none it gives up and the session stays; an acceptable one it goes on to
      write the next record for; after any other it goes on to delete the session. */
  lemma ExchangedAnswer(s: Session, act: Act)
    requires act.Exchanged? && act.i < |s.pcs| && s.pcs[act.i].Exchanging?
    ensures var old_, s' := s.pcs[act.i].was, Step(s, act);
      && s'.stored == s.stored && s'.written == s.written && |s'.pcs| == |s.pcs|
      && (s'.pcs[act.i].Idle? <==> act.reply.Unavailable?)
      && (s'.pcs[act.i].Writing? ==>
            && Acceptable(old_, act.reply) && s'.pcs[act.i].was == old_ && Follows(old_, act, s'.pcs[act.i].next)
            && s'.pcs[act.i].next.version == Wrap64(old_.version + 1))
      && (s'.pcs[act.i].Idle? || s'.pcs[act.i].Writing? || s'.pcs[act.i].Deleting?)
  {
    var old_ := s.pcs[act.i].was;
    if Acceptable(old_, act.reply) && old_.absoluteAt * 1_000_000_000 - act.now <= 24 * 3600 * 1_000_000_000 {
      EndsAsFollows(old_, act);
    }
  }

  /** A difference of times that a 64-bit duration cannot hold is told as the nearest one it can. */
  lemma TimeSubIs(a: int, b: int)
    ensures -0x8000_0000_0000_0000 <= a - b <= 0x7fff_ffff_ffff_ffff ==> TimeSub(a, b) == a - b
    ensures a - b > 0x7fff_ffff_ffff_ffff ==> TimeSub(a, b) == 0x7fff_ffff_ffff_ffff
    ensures a - b < -0x8000_0000_0000_0000 ==> TimeSub(a, b) == -0x8000_0000_0000_0000
  {
  }

  // ----- over every run -----

  /** The last answer that replica i got while it waited for one. */
  ghost function LastAnswer(s: Session, acts: seq<Act>, i: nat): Option<Act>
  {
    if acts == [] then None
    else
      var before, act := acts[..|acts| - 1], acts[|acts| - 1];
      var now := Run(s, before);
      if act.Exchanged? && act.i == i && i < |now.pcs| && now.pcs[i].Exchanging? then Some(act) else LastAnswer(s, before, i)
  }

  /** For each record written after the first, the answer its writer got. */
  ghost function Sources(s: Session, acts: seq<Act>): seq<Option<Act>>
  {
    if acts == [] then []
    else
      var before, act := acts[..|acts| - 1], acts[|acts| - 1];
      Sources(s, before)
        + if |Run(s, acts).written| > |Run(s, before).written| && act.CompareAndSet? then [LastAnswer(s, before, act.i)] else []
  }

  /** Whoever is about to write has the next record from what it loaded and the answer it got. */
  ghost predicate Prepared(s: Session, acts: seq<Act>, i: nat)
  {
    var now := Run(s, acts);
    i < |now.pcs| && now.pcs[i].Writing? ==>
      && LastAnswer(s, acts, i).Some? && Follows(now.pcs[i].was, LastAnswer(s, acts, i).value, now.pcs[i].next)
  }

  /** Record k + 1 is made of record k and answer k. */
  ghost predicate Chained(written: seq<Record>, sources: seq<Option<Act>>)
  {
    && |written| == |sources| + 1
    && forall k :: 0 <= k < |sources| ==> sources[k].Some? && Follows(written[k], sources[k].value, written[k + 1])
  }

  lemma {:induction false} EveryWriterIsPrepared(r: Record, n: nat, acts: seq<Act>, i: nat)
    ensures Prepared(LoggedIn(r, n), acts, i)
    decreases |acts|
  {
    if acts != [] {
      var before, act := acts[..|acts| - 1], acts[|acts| - 1];
      var s := Run(LoggedIn(r, n), before);
      EveryWriterIsPrepared(r, n, before, i);
      if act.Exchanged? && act.i == i && i < |s.pcs| && s.pcs[i].Exchanging? {
        ExchangedAnswer(s, act);
      }
    }
  }

  lemma ChainGrows(written: seq<Record>, sources: seq<Option<Act>>, act: Act, next: Record)
    requires Chained(written, sources) && Follows(written[|written| - 1], act, next)
    ensures Chained(written + [next], sources + [Some(act)])
  {
  }

  lemma OneMoreWritten(r: Record, n: nat, before: seq<Act>, act: Act)
    requires Consistent(Run(LoggedIn(r, n), before)) && act.CompareAndSet?
    requires Step(Run(LoggedIn(r, n), before), act).written != Run(LoggedIn(r, n), before).written
    requires Chained(Run(LoggedIn(r, n), before).written, Sources(LoggedIn(r, n), before))
    ensures Chained(Step(Run(LoggedIn(r, n), before), act).written, Sources(LoggedIn(r, n), before) + [LastAnswer(LoggedIn(r, n), before, act.i)])
  {
    var s := Run(LoggedIn(r, n), before);
    WritesOverItsOwn(s, act);
    EveryWriterIsPrepared(r, n, before, act.i);
    ChainGrows(s.written, Sources(LoggedIn(r, n), before), LastAnswer(LoggedIn(r, n), before, act.i).value, s.pcs[act.i].next);
  }

  /** Over every run, each record ever stored is made of the one before it and of the answer its writer got. */
  lemma {:induction false} RecordsAreChained(r: Record, n: nat, acts: seq<Act>)
    requires Capped(r) && r.version == 1
    ensures Chained(Run(LoggedIn(r, n), acts).written, Sources(LoggedIn(r, n), acts))
    decreases |acts|
  {
    if acts != [] {
      var before, act := acts[..|acts| - 1], acts[|acts| - 1];
      var s := Run(LoggedIn(r, n), before);
      RecordsAreChained(r, n, before);
      EveryRunIsConsistent(r, n, before);
      StepWritesAtMostOnce(s, act);
      if act.CompareAndSet? && Step(s, act).written != s.written {
        OneMoreWritten(r, n, before, act);
      } else {
        assert Sources(LoggedIn(r, n), before) + [] == Sources(LoggedIn(r, n), before);
      }
    }
  }

  /** A write that takes effect adds what the replica has prepared from the last record. */
  lemma WritesOverItsOwn(s: Session, act: Act)
    requires Consistent(s) && act.CompareAndSet? && Step(s, act).written != s.written
    ensures act.i < |s.pcs| && s.pcs[act.i].Writing? && s.written != [] && s.pcs[act.i].was == s.written[|s.written| - 1]
    ensures Step(s, act).written == s.written + [s.pcs[act.i].next]
  {
    assert Known(s.written, s.pcs[act.i].was);
  }

  /** The last of the refresh tokens handed out: the login's, or that of the last answer that had one. */
  function LastToken(r: Record, sources: seq<Option<Act>>): string
  {
    if sources == [] then r.refreshToken
    else
      var last := sources[|sources| - 1];
      if last.Some? && Exchange(last.value) && last.value.reply.refreshToken != "" then last.value.reply.refreshToken
      else LastToken(r, sources[..|sources| - 1])
  }

  ghost predicate SameUser(a: Claims, b: Claims)
  {
    a.issuer == b.issuer && a.subject == b.subject && a.party == b.party && multiset(a.audience) == multiset(b.audience)
  }

  lemma {:induction false} ChainedRecord(written: seq<Record>, sources: seq<Option<Act>>, k: nat)
    requires Chained(written, sources) && k < |written|
    ensures written[k].refreshToken == LastToken(written[0], sources[..k]) && SameUser(written[0].claims, written[k].claims)
    decreases k
  {
    if k > 0 {
      ChainedRecord(written, sources, k - 1);
      assert sources[..k][..k - 1] == sources[..k - 1];
      assert Follows(written[k - 1], sources[k - 1].value, written[k]);
    }
  }

  /** Over every run, for every record ever stored: its refresh token is the last one handed out by then, its claims
      and its CSRF value are those of its own answer, and its user is the one who logged in. */
  lemma EveryRecordIsMadeOfItsAnswers(r: Record, n: nat, acts: seq<Act>, k: nat)
    requires Capped(r) && r.version == 1 && k < |Run(LoggedIn(r, n), acts).written|
    ensures var w, src := Run(LoggedIn(r, n), acts).written, Sources(LoggedIn(r, n), acts);
      && |w| == |src| + 1 && w[0] == r
      && w[k].refreshToken == LastToken(r, src[..k]) && SameUser(r.claims, w[k].claims)
      && (k > 0 ==>
            && src[k - 1].Some? && Exchange(src[k - 1].value)
            && w[k].claims == src[k - 1].value.reply.claims && w[k].csrf == src[k - 1].value.csrf)
  {
    RecordsAreChained(r, n, acts);
    WrittenStartsWith(r, n, acts);
    ChainedRecord(Run(LoggedIn(r, n), acts).written, Sources(LoggedIn(r, n), acts), k);
  }

  lemma {:induction false} WrittenStartsWith(r: Record, n: nat, acts: seq<Act>)
    ensures Run(LoggedIn(r, n), acts).written != [] && Run(LoggedIn(r, n), acts).written[0] == r
    decreases |acts|
  {
    if acts != [] {
      WrittenStartsWith(r, n, acts[..|acts| - 1]);
    }
  }

  // ----- which refreshes succeed -----

  /** The record can be refreshed at this time with this CSRF value. */
  predicate Refreshable(r: Record, csrf: string, now: int)
  {
    r.absoluteAt > now / 1_000_000_000 && r.csrf == csrf && r.refreshToken != ""
  }

  /** A replica that loads the record goes on with it exactly when it can be refreshed and the lock was got; a record
      past its end is removed, and one without a refresh token is going to be. */
  lemma LoadAnswer(s: Session, act: Act)
    requires act.Load? && act.i < |s.pcs| && s.pcs[act.i].Idle? && s.stored.Some?
    ensures var r, s' := s.stored.value, Step(s, act);
      && s'.written == s.written && |s'.pcs| == |s.pcs|
      && (s'.stored == None <==> r.absoluteAt <= act.now / 1_000_000_000) && (s'.stored.Some? ==> s'.stored == s.stored)
      && (s'.pcs[act.i] == Exchanging(r) <==> Refreshable(r, act.csrf, act.now) && act.locked)
      && (s'.pcs[act.i] == Deleting <==>
            r.absoluteAt > act.now / 1_000_000_000 && r.csrf == act.csrf && r.refreshToken == "")
      && (s'.pcs[act.i] == Exchanging(r) || s'.pcs[act.i] == Deleting || s'.pcs[act.i] == Idle)
  {
  }

  /** A replica goes on to write exactly when the answer is acceptable, the record not too long, its version not the
      last there is, and neither of its ends before the first second; it gives the record the idle time, or what is
      left of the session when that is shorter. */
  lemma WritesIff(s: Session, act: Act)
    requires act.Exchanged? && act.i < |s.pcs| && s.pcs[act.i].Exchanging? && 1 <= s.pcs[act.i].was.version <= 0x7fff_ffff_ffff_ffff
    requires s.pcs[act.i].was.absoluteAt * 1_000_000_000 - act.now <= 24 * 3600 * 1_000_000_000
    ensures var r, pc := s.pcs[act.i].was, Step(s, act).pcs[act.i];
      && (pc.Writing? <==>
            && Acceptable(r, act.reply) && act.bounded && r.version != 0x7fff_ffff_ffff_ffff
            && Until(r, act) >= 1_000_000_000 && act.reply.claims.expiresAt >= 1_000_000_000)
      && (pc.Writing? && -0x7fff_ffff_ffff_ffff <= Until(r, act) - act.later <= 0x7fff_ffff_ffff_ffff ==>
            pc.ttl == Min(act.idleTTL, Until(r, act) - act.later))
      && (pc.Deleting? <==> !pc.Writing? && !act.reply.Unavailable?)
  {
    var r := s.pcs[act.i].was;
    if Acceptable(r, act.reply) {
      EndsAsFollows(r, act);
      Seconds(Until(r, act), act.reply.claims.expiresAt);
    }
  }

  lemma Seconds(until: int, expires: int)
    ensures Unix(until) > 0 <==> until >= 1_000_000_000
    ensures Unix(until) > 0 && Unix(Min(until, expires)) > 0 <==> until >= 1_000_000_000 && expires >= 1_000_000_000
  {
  }

  /** A replica that deletes removes whatever is stored, if the command runs, and is done either way. */
  lemma DeleteAnswer(s: Session, act: Act)
    requires act.Delete? && act.i < |s.pcs|
    ensures Step(s, act) ==
      if s.pcs[act.i].Deleting? then s.(stored := if act.ran then None else s.stored, pcs := s.pcs[act.i := Idle]) else s
  {
  }

  /** A write takes effect exactly when it is sent with time left and runs while the record stored is still of the
      version it was prepared from; unless it did and the answer came, the replica goes on to delete the session. */
  lemma CasAnswer(s: Session, act: Act)
    requires Consistent(s) && act.CompareAndSet? && act.i < |s.pcs| && s.pcs[act.i].Writing?
    ensures var w, s' := s.pcs[act.i], Step(s, act);
      var over := w.ttl > 0 && !act.outcome.NotRun? && s.stored.Some? && s.stored.value.version == w.was.version;
      && (over ==> s.stored == Some(w.was))
      && s'.stored == (if over then Some(w.next) else s.stored)
      && s'.written == (if over then s.written + [w.next] else s.written)
      && s'.pcs == s.pcs[act.i := if over && act.outcome.Answered? then Idle else Deleting]
  {
    assert Known(s.written, s.pcs[act.i].was) && Succeeds(s.pcs[act.i].was, s.pcs[act.i].next);
  }

  /** The record of a login, for one of at most a day: the tokens and claims of its answer, version 1, and the
      earlier of the ends. */
  lemma LoginRecord(now: int, absoluteTTL: int, reply: Reply, csrf: string)
    requires reply.Tokens? && LegalReply(reply) && absoluteTTL <= 24 * 3600 * 1_000_000_000
    ensures var r := FirstRecord(now, absoluteTTL, reply, csrf);
      var until := if reply.lifetime.None? then now + absoluteTTL
                   else Min(now + absoluteTTL, now + reply.lifetime.value * 1_000_000_000);
      && r.claims == reply.claims && r.refreshToken == reply.refreshToken && r.csrf == csrf && r.version == 1
      && r.absoluteAt == until / 1_000_000_000 && r.expiresAt == Min(until, reply.claims.expiresAt) / 1_000_000_000
  {
    if reply.lifetime.Some? {
      SessionExpiryIsEarlier(now, now + absoluteTTL, reply.lifetime.value);
    }
  }

  /** A refresh: load, exchange, compare and set. */
  function Refresh(load: Act, exchange: Act): seq<Act>
    requires load.Load? && exchange.Exchanged?
  {
    [load, exchange, CompareAndSet(load.i, Answered)]
  }

  /** The times work out: the session, cut to the lifetime of the new refresh token, has time left when the record
      is written, and so have the claims. */
  predicate TimeLeft(r: Record, act: Act)
    requires Exchange(act)
  {
    && 1_000_000_000 <= act.now && r.absoluteAt * 1_000_000_000 - act.now <= 24 * 3600 * 1_000_000_000
    && 0 < act.idleTTL && act.later < Until(r, act) <= act.later + 24 * 3600 * 1_000_000_000
    && 1_000_000_000 <= act.reply.claims.expiresAt && 1 <= r.absoluteAt
  }

  lemma NextIsReady(r: Record, act: Act)
    requires act.Exchanged? && Acceptable(r, act.reply) && TimeLeft(r, act) && 1 <= r.version < 0x7fff_ffff_ffff_ffff
    ensures var (next, absolute) := NextRecord(r, act.now, act.reply, act.csrf);
      Encodable(next) && next.version == r.version + 1 && 0 < Min(act.idleTTL, TimeSub(absolute, act.later))
  {
    EndsAsFollows(r, act);
    var next, until := NextRecord(r, act.now, act.reply, act.csrf).0, NextRecord(r, act.now, act.reply, act.csrf).1;
    assert until >= Second && Min(until, act.reply.claims.expiresAt) >= Second;
    assert until / Second >= 1 && Min(until, act.reply.claims.expiresAt) / Second >= 1;
  }

  lemma ThreeSteps(s: Session, a: Act, b: Act, c: Act)
    ensures Run(s, [a, b, c]) == Step(Step(Step(s, a), b), c)
  {
    assert [a][..0] == [] && Run(s, [a]) == Step(s, a);
    assert [a, b][..1] == [a] && Run(s, [a, b]) == Step(Step(s, a), b);
    assert [a, b, c][..2] == [a, b];
  }

  lemma LoadsIt(s: Session, load: Act)
    requires load.Load? && load.i < |s.pcs| && s.pcs[load.i].Idle? && s.stored.Some?
    requires Refreshable(s.stored.value, load.csrf, load.now) && load.locked
    ensures Step(s, load) == s.(pcs := s.pcs[load.i := Exchanging(s.stored.value)])
  {
  }

  lemma GoesOnToWrite(s: Session, r: Record, act: Act) returns (next: Record, ttl: int)
    requires act.Exchanged? && act.i < |s.pcs| && s.pcs[act.i] == Exchanging(r) && act.bounded
    requires Acceptable(r, act.reply) && TimeLeft(r, act) && 1 <= r.version < 0x7fff_ffff_ffff_ffff
    ensures Step(s, act) == s.(pcs := s.pcs[act.i := Writing(r, next, ttl)])
    ensures ttl > 0 && Follows(r, act, next) && next.version == r.version + 1
  {
    NextIsReady(r, act);
    ExchangedAnswer(s, act);
    next, ttl := Step(s, act).pcs[act.i].next, Step(s, act).pcs[act.i].ttl;
  }

  lemma WritesIt(s: Session, i: nat, r: Record, next: Record, ttl: int)
    requires i < |s.pcs| && s.pcs[i] == Writing(r, next, ttl) && ttl > 0 && s.stored == Some(r)
    requires next.version == r.version + 1 && 1 <= r.version < 0x7fff_ffff_ffff_ffff
    ensures Step(s, CompareAndSet(i, Answered)) == Session(Some(next), s.written + [next], s.pcs[i := Idle])
  {
  }

  /** A refresh that nothing interrupts, of a record that can be refreshed and with an acceptable answer, replaces the
      record by the next one. */
  lemma RefreshAloneSucceeds(s: Session, load: Act, exchange: Act)
    requires load.Load? && Exchange(exchange) && load.i == exchange.i < |s.pcs| && s.pcs[load.i].Idle?
    requires s.stored.Some? && 1 <= s.stored.value.version < 0x7fff_ffff_ffff_ffff
    requires Refreshable(s.stored.value, load.csrf, load.now) && load.locked
    requires Acceptable(s.stored.value, exchange.reply) && exchange.bounded && TimeLeft(s.stored.value, exchange)
    ensures var r, s' := s.stored.value, Run(s, Refresh(load, exchange));
      && s'.stored.Some? && Follows(r, exchange, s'.stored.value) && s'.stored.value.version == r.version + 1
      && s'.written == s.written + [s'.stored.value] && s'.pcs == s.pcs
  {
    var r, i := s.stored.value, load.i;
    var s1 := Step(s, load);
    LoadsIt(s, load);
    var next, ttl := GoesOnToWrite(s1, r, exchange);
    WritesIt(Step(s1, exchange), i, r, next, ttl);
    ThreeSteps(s, load, exchange, CompareAndSet(i, Answered));
    assert s.pcs[i := Exchanging(r)][i := Writing(r, next, ttl)][i := Idle] == s.pcs;
  }
}
