/** What readers of one cluster can observe: snapshots appear whole or not at all, and nothing but a
    commit, an accepted next-in-sequence delta or an expiry ever changes the served map. */
module CatalogAtomicity {
  import opened CatalogProtocol
  import opened Options

  predicate AllValid(rs: seq<Resource>)
  {
    forall i :: 0 <= i < |rs| ==> ValidResource(rs[i], true)
  }

  /** m holds exactly the resources rs, each under its own key, and rs names no key twice. */
  ghost predicate IsIndexOf(m: map<Key, Resource>, rs: seq<Resource>)
  {
    && |m| == |rs|
    && (forall i :: 0 <= i < |rs| ==> rs[i].Resource? && KeyOf(rs[i]) in m && m[KeyOf(rs[i])] == rs[i])
    && (forall i, j :: 0 <= i < j < |rs| && rs[i].Resource? && rs[j].Resource? ==> KeyOf(rs[i]) != KeyOf(rs[j]))
  }

  lemma IndexExtends(m: map<Key, Resource>, before: seq<Resource>, r: Resource)
    requires IsIndexOf(m, before) && r.Resource? && KeyOf(r) !in m
    ensures IsIndexOf(m[KeyOf(r) := r], before + [r])
  {
    var after := before + [r];
    forall i, j | 0 <= i < j < |after| && after[i].Resource? && after[j].Resource?
      ensures KeyOf(after[i]) != KeyOf(after[j])
    {
      assert KeyOf(before[i]) in m;
      assert j < |before| ==> after[j] == before[j];
    }
  }

  /** An index has no key that its resources do not account for. */
  lemma {:induction false} IndexHasNothingElse(m: map<Key, Resource>, rs: seq<Resource>, k: Key)
    requires IsIndexOf(m, rs) && k in m
    ensures exists i :: 0 <= i < |rs| && rs[i].Resource? && KeyOf(rs[i]) == k
    decreases |rs|
  {
    assert m.Keys != {};
    assert rs != [];
    var last, prefix := rs[|rs| - 1], rs[..|rs| - 1];
    if KeyOf(last) != k {
      var m' := m - {KeyOf(last)};
      assert m == m'[KeyOf(last) := last];
      IndexHasNothingElse(m', prefix, k);
      var i :| 0 <= i < |prefix| && prefix[i].Resource? && KeyOf(prefix[i]) == k;
      assert rs[i] == prefix[i];
    }
  }

  /** Staging extends the index of what was staged before by exactly the new resources. */
  lemma {:induction false} StageAllIndexes(m: map<Key, Resource>, before: seq<Resource>, rs: seq<Resource>, max: nat)
    requires IsIndexOf(m, before)
    requires StageAll(m, rs, max).Some?
    ensures IsIndexOf(StageAll(m, rs, max).value, before + rs)
    decreases |rs|
  {
    if rs == [] {
      assert before + rs == before;
    } else {
      var m', before', rest := m[KeyOf(rs[0]) := rs[0]], before + [rs[0]], rs[1..];
      IndexExtends(m, before, rs[0]);
      StageAllIndexes(m', before', rest, max);
      assert StageAll(m, rs, max) == StageAll(m', rest, max);
      assert before' + rest == before + rs;
    }
  }

  lemma {:induction false} StageAllValid(m: map<Key, Resource>, rs: seq<Resource>, max: nat)
    requires StageAll(m, rs, max).Some?
    ensures AllValid(rs)
    decreases |rs|
  {
    if rs != [] {
      StageAllValid(m[KeyOf(rs[0]) := rs[0]], rs[1..], max);
      assert forall i :: 0 < i < |rs| ==> rs[i] == rs[1..][i - 1];
    }
  }

  /** rs may be staged on top of m: all legal, each under a key of its own that m lacks, and within the bound. */
  ghost predicate Stageable(m: map<Key, Resource>, rs: seq<Resource>, max: nat)
  {
    && AllValid(rs)
    && (forall i :: 0 <= i < |rs| && rs[i].Resource? ==> KeyOf(rs[i]) !in m)
    && (forall i, j :: 0 <= i < j < |rs| && rs[i].Resource? && rs[j].Resource? ==> KeyOf(rs[i]) != KeyOf(rs[j]))
    && (rs != [] ==> |m| + |rs| <= max)
  }

  lemma {:induction false} StageAllIff(m: map<Key, Resource>, rs: seq<Resource>, max: nat)
    ensures StageAll(m, rs, max).Some? <==> Stageable(m, rs, max)
    decreases |rs|
  {
    if rs != [] && ValidResource(rs[0], true) && KeyOf(rs[0]) !in m {
      var m', rest := m[KeyOf(rs[0]) := rs[0]], rs[1..];
      StageAllIff(m', rest, max);
      assert forall i :: 0 < i < |rs| ==> rs[i] == rest[i - 1];
      if Stageable(m', rest, max) {
        forall i, j | 0 <= i < j < |rs| && rs[i].Resource? && rs[j].Resource? ensures KeyOf(rs[i]) != KeyOf(rs[j]) {
          assert rs[j] == rest[j - 1] && KeyOf(rest[j - 1]) !in m';
        }
      }
      if Stageable(m, rs, max) {
        forall i | 0 <= i < |rest| && rest[i].Resource? ensures KeyOf(rest[i]) !in m' {
          assert rest[i] == rs[i + 1];
        }
      }
    }
  }

  lemma {:induction false} StageAllAppends(m: map<Key, Resource>, a: seq<Resource>, b: seq<Resource>, max: nat)
    ensures StageAll(m, a + b, max) ==
            var first := StageAll(m, a, max); if first.None? then None else StageAll(first.value, b, max)
    decreases |a|
  {
    if a == [] {
      assert a + b == b;
    } else if ValidResource(a[0], true) {
      StageAllAppends(m[KeyOf(a[0]) := a[0]], a[1..], b, max);
      assert (a + b)[1..] == a[1..] + b;
    }
  }

  predicate AllChunks(log: seq<Received>)
  {
    forall i :: 0 <= i < |log| ==> log[i].frame.Frame? && log[i].frame.ftype.SnapshotChunk?
  }

  /** All resources carried by a log of frames, in order. */
  function Carried(log: seq<Received>): seq<Resource>
    requires AllFrames(log)
  {
    if log == [] then [] else Carried(log[..|log| - 1]) + log[|log| - 1].frame.resources
  }

  /** While chunks arrive, the stage is the index of everything carried so far, or it is gone for good;
      the served map does not move. */
  lemma {:induction false} ChunksStage(c: Cluster, chunks: seq<Received>, max: nat)
    requires c.staging.Some? && c.staging.value.resources == map[]
    requires AllChunks(chunks)
    ensures
      var d := Run(c, chunks, max);
      && d == c.(staging := d.staging)
      && (d.staging.Some? ==>
            && d.staging.value == c.staging.value.(resources := d.staging.value.resources)
            && IsIndexOf(d.staging.value.resources, Carried(chunks))
            && AllValid(Carried(chunks)))
    decreases |chunks|
  {
    if chunks != [] {
      var prefix, last := chunks[..|chunks| - 1], chunks[|chunks| - 1];
      ChunksStage(c, prefix, max);
      var d := Run(c, prefix, max);
      if d.staging.Some? && StageAll(d.staging.value.resources, last.frame.resources, max).Some? {
        StageAllIndexes(d.staging.value.resources, Carried(prefix), last.frame.resources, max);
        StageAllValid(d.staging.value.resources, last.frame.resources, max);
      }
    }
  }

  /** The chunks belong to the snapshot being staged, and the shared limits have room for them. */
  predicate ChunksFit(c: Cluster, chunks: seq<Received>)
    requires AllChunks(chunks)
  {
    forall i :: 0 <= i < |chunks| ==> ValidChunk(c, chunks[i].frame) && chunks[i].granted
  }

  predicate AcceptedAt(c: Cluster, chunks: seq<Received>, i: int, max: nat)
    requires AllChunks(chunks) && 0 <= i < |chunks|
  {
    Next(Run(c, chunks[..i], max), chunks[i].frame, max, chunks[i].granted).1
  }

  /** One chunk more; a chunk is accepted exactly when it leaves a stage. */
  lemma OneMoreChunk(d: Cluster, f: Frame, max: nat, granted: bool)
    requires f.Frame? && f.ftype.SnapshotChunk?
    ensures var (e, ok) := Next(d, f, max, granted);
      && e == d.(staging := e.staging) && (ok <==> e.staging.Some?)
      && (ok <==> d.staging.Some? && ValidChunk(d, f) && granted && StageAll(d.staging.value.resources, f.resources, max).Some?)
      && (ok ==> e.staging.value == d.staging.value.(
                   resources := StageAll(d.staging.value.resources, f.resources, max).value))
  {
  }

  /** The stage survives exactly when all that is carried can be staged; once a chunk is refused it is gone. */
  lemma {:induction false} StageSurvivesIff(c: Cluster, chunks: seq<Received>, max: nat)
    requires AllChunks(chunks) && c.staging.Some?
    ensures Run(c, chunks, max) == c.(staging := Run(c, chunks, max).staging)
    ensures Run(c, chunks, max).staging.Some? <==>
            ChunksFit(c, chunks) && StageAll(c.staging.value.resources, Carried(chunks), max).Some?
    ensures Run(c, chunks, max).staging.Some? ==>
            Run(c, chunks, max).staging.value == c.staging.value.(
              resources := StageAll(c.staging.value.resources, Carried(chunks), max).value)
    decreases |chunks|
  {
    if chunks != [] {
      var prefix, last := chunks[..|chunks| - 1], chunks[|chunks| - 1];
      StageSurvivesIff(c, prefix, max);
      StageAllAppends(c.staging.value.resources, Carried(prefix), last.frame.resources, max);
      OneMoreChunk(Run(c, prefix, max), last.frame, max, last.granted);
      assert ChunksFit(c, chunks) <==> ChunksFit(c, prefix) && ValidChunk(c, last.frame) && last.granted;
    }
  }

  /** Every chunk is accepted exactly when the stage survives. */
  lemma {:induction false} AcceptedIffSurvives(c: Cluster, chunks: seq<Received>, max: nat)
    requires AllChunks(chunks) && c.staging.Some?
    ensures (forall i :: 0 <= i < |chunks| ==> AcceptedAt(c, chunks, i, max)) <==> Run(c, chunks, max).staging.Some?
    decreases |chunks|
  {
    if chunks != [] {
      var prefix, last := chunks[..|chunks| - 1], |chunks| - 1;
      AcceptedIffSurvives(c, prefix, max);
      forall i | 0 <= i < last ensures AcceptedAt(c, prefix, i, max) == AcceptedAt(c, chunks, i, max) {
        assert prefix[..i] == chunks[..i];
      }
      OneMoreChunk(Run(c, prefix, max), chunks[last].frame, max, chunks[last].granted);
      assert AcceptedAt(c, chunks, last, max) <==> Run(c, chunks, max).staging.Some?;
    }
  }

  /** A run of chunks is accepted, every one of them, exactly when each belongs to the snapshot and is granted
      room, and all the resources they carry are legal, new to the stage, under different keys, and within the
      bound. Then, and only then, the stage survives. */
  lemma ChunksAllAccepted(c: Cluster, chunks: seq<Received>, max: nat)
    requires AllChunks(chunks) && c.staging.Some?
    ensures (forall i :: 0 <= i < |chunks| ==> AcceptedAt(c, chunks, i, max)) <==>
            ChunksFit(c, chunks) && Stageable(c.staging.value.resources, Carried(chunks), max)
    ensures Run(c, chunks, max).staging.Some? <==>
            ChunksFit(c, chunks) && Stageable(c.staging.value.resources, Carried(chunks), max)
  {
    StageSurvivesIff(c, chunks, max);
    AcceptedIffSurvives(c, chunks, max);
    StageAllIff(c.staging.value.resources, Carried(chunks), max);
  }

  /** A snapshot is a transaction: begin, any chunks with any capacity answers, then a commit frame. Readers
      see the old map throughout; afterwards they see either that map still, or exactly the resources
      of all the chunks. The commit is accepted exactly when every chunk was, its header is that of the
      snapshot, and the shared limits have room. */
  lemma SnapshotAllOrNothing(c: Cluster, begin: Received, chunks: seq<Received>, commit: Received, max: nat)
    requires begin.frame.Frame? && begin.frame.ftype.SnapshotBegin? && ValidBegin(begin.frame)
    requires AllChunks(chunks)
    requires commit.frame.Frame? && commit.frame.ftype.SnapshotCommit?
    ensures
      var c1 := Next(c, begin.frame, max, begin.granted).0;
      var c2 := Run(c1, chunks, max);
      var (c3, committed) := Next(c2, commit.frame, max, commit.granted);
      && Visible(c1) == Visible(c) && Visible(c2) == Visible(c)
      && (if committed then
            && Visible(c3).Some? && IsIndexOf(Visible(c3).value, Carried(chunks)) && AllValid(Carried(chunks))
            && c3.epoch == begin.frame.epoch && c3.seq_ == begin.frame.seq_ && !c3.resyncNeeded
          else Visible(c3) == Visible(c))
      && (committed <==>
            && (forall i :: 0 <= i < |chunks| ==> AcceptedAt(c1, chunks, i, max))
            && ValidCommit(c1, commit.frame) && commit.granted)
  {
    var c1 := Next(c, begin.frame, max, begin.granted).0;
    ChunksStage(c1, chunks, max);
    AcceptedIffSurvives(c1, chunks, max);
  }

  /** The resource map after an accepted delta: one key differs. */
  ghost predicate OneKeyChanged(before: map<Key, Resource>, after: map<Key, Resource>, d: Change)
  {
    && d.Change? && d.resource.Resource?
    && var k := KeyOf(d.resource);
    && after - {k} == before - {k}
    && (d.action.Created? <==> k !in before)
    && (if d.action.Deleted? then k !in after else k in after && after[k] == d.resource)
  }

  /** The served map changes in three ways only: an accepted commit swaps in the stage, an accepted
      next-in-sequence delta of the current epoch changes one key, an accepted expiry withdraws it. A refused
      frame and a replayed delta change nothing that is served, and a gap forces a resync. */
  lemma VisibleChangesThreeWays(c: Cluster, f: Frame, max: nat, granted: bool)
    requires f.Frame?
    ensures
      var (d, ok) := Next(c, f, max, granted);
      || Visible(d) == Visible(c)
      || (ok && f.ftype.SnapshotCommit? && MatchesStage(c, f) && Visible(d) == Some(c.staging.value.resources))
      || (ok && f.ftype.Delta? && !c.resyncNeeded && f.epoch == c.epoch && f.seq_ == c.seq_ + 1 && d.seq_ == f.seq_
          && Visible(c).Some? && Visible(d).Some? && OneKeyChanged(Visible(c).value, Visible(d).value, f.change))
      || (ok && f.ftype.Expired? && Visible(d) == None)
    ensures !Next(c, f, max, granted).1 ==> Visible(Next(c, f, max, granted).0) == Visible(c)
    ensures f.ftype.Delta? && f.seq_ <= c.seq_ ==> Next(c, f, max, granted).0 == c
    ensures f.ftype.Delta? && ValidDelta(c, f) && c.seq_ + 1 < f.seq_ ==>
              Next(c, f, max, granted) == (c.(staging := None, resyncNeeded := true), false)
  {
    var (d, ok) := Next(c, f, max, granted);
    if f.ftype.Delta? && ok && f.change.seq_ == c.seq_ + 1 && PersistentKind(f.change.resource.kind) {
      assert OneKeyChanged(c.resources, d.resources, f.change);
    }
  }

  ghost predicate NoCommitAccepted(c: Cluster, log: seq<Received>, max: nat)
    requires AllFrames(log)
  {
    forall i :: 0 <= i < |log| && log[i].frame.ftype.SnapshotCommit? ==>
      !Next(Run(c, log[..i], max), log[i].frame, max, log[i].granted).1
  }

  /** From a state that needs a resync (after a reset, an expiry or a gap), no frame sequence without an
      accepted commit applies any delta: the map is the old one, or gone. */
  lemma {:induction false} NoDeltaUntilCommit(c: Cluster, log: seq<Received>, max: nat)
    requires AllFrames(log) && c.resyncNeeded
    requires NoCommitAccepted(c, log, max)
    ensures
      var d := Run(c, log, max);
      && d.resyncNeeded && d.epoch == c.epoch && d.seq_ == c.seq_
      && (Visible(d) == Visible(c) || Visible(d) == None)
    decreases |log|
  {
    if log != [] {
      var prefix := log[..|log| - 1];
      assert NoCommitAccepted(c, prefix, max) by {
        forall i | 0 <= i < |prefix| && prefix[i].frame.ftype.SnapshotCommit?
          ensures !Next(Run(c, prefix[..i], max), prefix[i].frame, max, prefix[i].granted).1
        {
          assert prefix[..i] == log[..i] && prefix[i] == log[i];
        }
      }
      NoDeltaUntilCommit(c, prefix, max);
    }
  }
}
