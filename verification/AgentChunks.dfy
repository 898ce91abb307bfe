/** How the agent cuts one snapshot into messages, under a count limit and a size limit. */
module AgentChunks {
  import opened CatalogProtocol
  import opened Options
  import opened CatalogConvergence

  /** The encoded size of a chunk never falls short of that of a contiguous part of it. */
  ghost predicate Monotone<R(!new)>(size: seq<R> -> nat)
  {
    forall s: seq<R>, i: int, j: int | 0 <= i <= j <= |s| :: size(s[i..j]) <= size(s)
  }

  predicate ValidLimits(max: int, maxCount: int)
  {
    1 <= max && 1 <= maxCount <= MaxChunkResources
  }

  predicate LegalChunk<R>(chunk: seq<R>, size: seq<R> -> nat, max: int, maxCount: int)
  {
    0 < |chunk| <= maxCount && size(chunk) <= max
  }

  predicate LegalChunks<R>(parts: seq<seq<R>>, size: seq<R> -> nat, max: int, maxCount: int)
  {
    forall i :: 0 <= i < |parts| ==> LegalChunk(parts[i], size, max, maxCount)
  }

  /** An order-preserving split of rs into legal chunks. */
  predicate LegalSplit<R(==)>(rs: seq<R>, parts: seq<seq<R>>, size: seq<R> -> nat, max: int, maxCount: int)
  {
    LegalChunks(parts, size, max, maxCount) && Flatten(parts) == rs
  }

  /** No choice of as many legal chunks reaches further into rs than `out` does. */
  ghost predicate Farthest<R(!new)>(rs: seq<R>, out: seq<seq<R>>, size: seq<R> -> nat, max: int, maxCount: int)
  {
    forall parts: seq<seq<R>> :: LegalChunks(parts, size, max, maxCount) && Flatten(parts) <= rs && |parts| <= |out| ==>
      |Flatten(parts)| <= |Flatten(out)|
  }

  lemma FlattenSnoc<R>(parts: seq<seq<R>>, last: seq<R>)
    ensures Flatten(parts + [last]) == Flatten(parts) + last
  {
    assert (parts + [last])[..|parts|] == parts;
  }

  /** The tail of a prefix is a slice of the whole. */
  lemma TailIsSlice<R>(rs: seq<R>, head: seq<R>, tail: seq<R>, n: nat)
    requires n <= |rs| && head + tail == rs[..n]
    ensures tail == rs[|head|..n]
  {
    assert (head + tail)[|head|..] == tail;
  }

  /** A slice of rs that covers from..to is at least as big as it. */
  lemma CoveringSliceIsBigger<R(!new)>(rs: seq<R>, size: seq<R> -> nat, p: nat, q: nat, from: nat, to: nat)
    requires Monotone(size) && p <= from <= to <= q <= |rs|
    ensures size(rs[from..to]) <= size(rs[p..q])
  {
    var whole, part := rs[p..q], rs[from..to];
    assert whole[from - p..to - p] == part by {
      forall k | 0 <= k < to - from ensures whole[from - p..to - p][k] == part[k] {
        assert whole[from - p + k] == rs[from + k];
      }
    }
  }

  /** If rs[start..i] cannot take one more resource, a split whose last part starts no later stops at i. */
  lemma LastPartStops<R(!new)>(
      rs: seq<R>, parts: seq<seq<R>>, start: nat, i: nat, size: seq<R> -> nat, max: int, maxCount: int)
    requires Monotone(size) && start <= i < |rs|
    requires i - start == maxCount || size(rs[start..i + 1]) > max
    requires parts != [] && LegalChunks(parts, size, max, maxCount) && Flatten(parts) <= rs
    requires |Flatten(parts[..|parts| - 1])| <= start
    ensures |Flatten(parts)| <= i
  {
    var init, last, end := Flatten(parts[..|parts| - 1]), parts[|parts| - 1], |Flatten(parts)|;
    assert LegalChunk(last, size, max, maxCount);
    TailIsSlice(rs, init, last, end);
    if end > i {
      CoveringSliceIsBigger(rs, size, |init|, end, start, i + 1);
    }
  }

  lemma InitStaysBehind<R(!new)>(
      rs: seq<R>, out: seq<seq<R>>, parts: seq<seq<R>>, size: seq<R> -> nat, max: int, maxCount: int)
    requires Farthest(rs, out, size, max, maxCount)
    requires 0 < |parts| <= |out| + 1 && LegalChunks(parts, size, max, maxCount) && Flatten(parts) <= rs
    ensures |Flatten(parts[..|parts| - 1])| <= |Flatten(out)|
  {
    assert LegalChunks(parts[..|parts| - 1], size, max, maxCount);
  }

  /** No split of as many parts and one more reaches past i when rs[start..i] cannot take one more resource. */
  lemma OneMorePartStops<R(!new)>(
      rs: seq<R>, out: seq<seq<R>>, parts: seq<seq<R>>, i: nat, size: seq<R> -> nat, max: int, maxCount: int)
    requires Monotone(size) && Farthest(rs, out, size, max, maxCount)
    requires |Flatten(out)| <= i < |rs|
    requires i - |Flatten(out)| == maxCount || size(rs[|Flatten(out)|..i + 1]) > max
    requires LegalChunks(parts, size, max, maxCount) && Flatten(parts) <= rs && |parts| <= |out| + 1
    ensures |Flatten(parts)| <= i
  {
    if parts != [] {
      InitStaysBehind(rs, out, parts, size, max, maxCount);
      LastPartStops(rs, parts, |Flatten(out)|, i, size, max, maxCount);
    }
  }

  /** Closing a chunk only when the next resource does not fit keeps the lead. */
  lemma ClosingKeepsLead<R(!new)>(
      rs: seq<R>, out: seq<seq<R>>, cur: seq<R>, i: nat, size: seq<R> -> nat, max: int, maxCount: int)
    requires Monotone(size) && Farthest(rs, out, size, max, maxCount)
    requires i < |rs| && Flatten(out) + cur == rs[..i]
    requires |cur| == maxCount || size(cur + [rs[i]]) > max
    ensures Farthest(rs, out + [cur], size, max, maxCount)
    ensures Flatten(out + [cur]) == rs[..i]
  {
    FlattenSnoc(out, cur);
    TailIsSlice(rs, Flatten(out), cur, i);
    CurAndNext(rs, |Flatten(out)|, cur, i);
    forall parts: seq<seq<R>> | LegalChunks(parts, size, max, maxCount) && Flatten(parts) <= rs && |parts| <= |out| + 1
      ensures |Flatten(parts)| <= i
    {
      OneMorePartStops(rs, out, parts, i, size, max, maxCount);
    }
  }

  lemma CurAndNext<R>(rs: seq<R>, start: nat, cur: seq<R>, i: nat)
    requires start <= i < |rs| && cur == rs[start..i]
    ensures cur + [rs[i]] == rs[start..i + 1]
  {
    assert rs[start..i + 1] == rs[start..i] + [rs[i]];
  }

  /** A chunk that holds a resource is at least as big as that resource alone. */
  lemma {:induction false} HeldResourceFits<R(!new)>(
      rs: seq<R>, parts: seq<seq<R>>, k: nat, size: seq<R> -> nat, max: int, maxCount: int)
    requires Monotone(size) && LegalSplit(rs, parts, size, max, maxCount) && k < |rs|
    ensures size([rs[k]]) <= max
    decreases |parts|
  {
    assert parts != [];
    var n := |parts| - 1;
    var init, last := Flatten(parts[..n]), parts[n];
    if k < |init| {
      HeldResourceFits(init, parts[..n], k, size, max, maxCount);
    } else {
      assert LegalChunk(last, size, max, maxCount);
      assert last[k - |init|..k - |init| + 1] == [rs[k]];
    }
  }

  /** How far the cutting has got: `out` is closed, `cur` is open, and together they are rs[..i]. */
  ghost predicate Cut<R(!new)>(
      rs: seq<R>, i: int, out: seq<seq<R>>, cur: seq<R>, size: seq<R> -> nat, max: int, maxCount: int)
  {
    && 0 <= i <= |rs| && LegalChunks(out, size, max, maxCount) && Farthest(rs, out, size, max, maxCount)
    && Flatten(out) + cur == rs[..i]
    && (cur == [] <==> i == 0) && (i == 0 ==> out == [])
    && (cur != [] ==> LegalChunk(cur, size, max, maxCount))
  }

  /** Places one resource: into the open chunk, or into a new one; or finds that it fits nowhere. */
  method Place<R(!new)>(
      rs: seq<R>, i: nat, out: seq<seq<R>>, cur: seq<R>, size: seq<R> -> nat, max: int, maxCount: int)
    returns (ok: bool, out': seq<seq<R>>, cur': seq<R>)
    requires Monotone(size) && ValidLimits(max, maxCount) && i < |rs| && Cut(rs, i, out, cur, size, max, maxCount)
    ensures !ok ==> size([rs[i]]) > max
    ensures ok ==> Cut(rs, i + 1, out', cur', size, max, maxCount)
  {
    var r := rs[i];
    out', cur' := out, cur;
    assert rs[..i + 1] == rs[..i] + [r];
    if |cur| == maxCount {
      ClosingKeepsLead(rs, out, cur, i, size, max, maxCount);
      out', cur' := out + [cur], [];
    }
    var candidate := cur' + [r];
    if size(candidate) > max {
      if |cur'| == 0 {
        assert candidate == [r];
        return false, out', cur';
      }
      ClosingKeepsLead(rs, out, cur, i, size, max, maxCount);
      out', cur' := out + [cur], [r];
      if size(cur') > max {
        return false, out', cur';
      }
    } else {
      cur' := candidate;
    }
    ok := true;
  }

  /** Once everything is placed, no split has fewer parts. */
  lemma NoSplitIsShorter<R(!new)>(
      rs: seq<R>, out: seq<seq<R>>, cur: seq<R>, size: seq<R> -> nat, max: int, maxCount: int, parts: seq<seq<R>>)
    requires Cut(rs, |rs|, out, cur, size, max, maxCount) && LegalSplit(rs, parts, size, max, maxCount)
    ensures |out| + (if cur == [] then 0 else 1) <= |parts|
  {
    assert rs[..|rs|] == rs;
  }

  /** Cuts rs greedily. It fails exactly when the limits are invalid or one resource alone is too large;
      otherwise the chunks are legal, keep the input and its order, and no legal split has fewer. */
  method ChunkResources<R(!new)>(rs: seq<R>, size: seq<R> -> nat, max: int, maxCount: int)
    returns (chunks: Option<seq<seq<R>>>)
    requires Monotone(size)
    ensures chunks.None? <==>
      max < 1 || maxCount < 1 || maxCount > 1000 || exists k :: 0 <= k < |rs| && size([rs[k]]) > max
    ensures chunks.Some? ==> LegalSplit(rs, chunks.value, size, max, maxCount)
    ensures chunks.Some? ==>
      forall parts: seq<seq<R>> :: LegalSplit(rs, parts, size, max, maxCount) ==> |chunks.value| <= |parts|
  {
    if max < 1 || maxCount < 1 || maxCount > MaxChunkResources {
      return None;
    }
    var out: seq<seq<R>>, cur: seq<R> := [], [];
    for i := 0 to |rs|
      invariant Cut(rs, i, out, cur, size, max, maxCount)
    {
      var ok;
      ok, out, cur := Place(rs, i, out, cur, size, max, maxCount);
      if !ok {
        return None;
      }
    }
    assert rs[..|rs|] == rs;
    forall parts: seq<seq<R>> | LegalSplit(rs, parts, size, max, maxCount)
      ensures |out| + (if cur == [] then 0 else 1) <= |parts|
    {
      NoSplitIsShorter(rs, out, cur, size, max, maxCount, parts);
    }
    if |cur| > 0 {
      FlattenSnoc(out, cur);
      out := out + [cur];
    }
    forall k | 0 <= k < |rs| ensures size([rs[k]]) <= max {
      HeldResourceFits(rs, out, k, size, max, maxCount);
    }
    return Some(out);
  }
}
