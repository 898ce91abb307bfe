/** What a sync comes to for readers, told from the source's resources alone: a source map of legal resources is
    served, and exactly its pods are found by UID. */
module CatalogService {
  import opened CatalogProtocol
  import opened Options
  import opened CatalogAtomicity
  import opened CatalogAccounting
  import opened CatalogConvergence
  import opened CatalogProgress
  import opened CatalogAnswers

  /** The change numbered next after m is one that the source may make. */
  predicate PlainChange(m: map<Key, Resource>, d: Change)
    requires d.Change? && d.resource.Resource?
  {
    && Reportable(d.resource)
    && match d.action
       case Created => Storable(d.resource) ==> Key(d.resource.kind, d.resource.uid) !in m
       case Updated => Storable(d.resource) ==> Key(d.resource.kind, d.resource.uid) in m
       case Deleted => Storable(d.resource) ==> Key(d.resource.kind, d.resource.uid) in m
       case Unspecified => false
  }

  /** The source's map at number `from` is cut into chunks of 1 to 1000 legal resources. */
  ghost predicate PlainSnapshot(s: Sync)
  {
    && 0 < s.observed
    && (forall i :: 0 <= i < |s.parts| ==> 1 <= |s.parts[i]| <= 1000)
    && (forall r :: r in Flatten(s.parts) ==> Storable(r))
    && IsIndexOf(At(s.history, s.epoch, s.from), Flatten(s.parts))
  }

  /** Each delta after it is one the source may make there, and clocks do not go back. */
  predicate PlainChanges(s: Sync)
  {
    && InOrder(s.observed, s.times)
    && forall i :: s.from - s.history.baseSeq <= i < s.upTo - s.history.baseSeq ==>
         PlainChange(At(s.history, s.epoch, s.history.baseSeq + i), s.history.deltas[i])
  }

  lemma PlainChangeIsLegal(m: map<Key, Resource>, d: Change)
    requires d.Change? && d.resource.Resource? && PlainChange(m, d)
    ensures !d.action.Unspecified? && ValidResource(d.resource, false)
    ensures PersistentKind(d.resource.kind) ==> ActionFits(m, d)
  {
    LegalIff(d.resource);
  }

  lemma SnapshotIsLegal(s: Sync)
    requires PlainSnapshot(s)
    ensures LegalSnapshot(s)
  {
    forall i | 0 <= i < |Flatten(s.parts)| ensures ValidResource(Flatten(s.parts)[i], true) {
      LegalIff(Flatten(s.parts)[i]);
    }
  }

  lemma ChangesAreLegal(s: Sync)
    requires PlainChanges(s)
    ensures LegalChanges(s)
  {
    forall i | s.from - s.history.baseSeq <= i < s.upTo - s.history.baseSeq
      ensures var d := s.history.deltas[i];
        && !d.action.Unspecified? && ValidResource(d.resource, false)
        && (PersistentKind(d.resource.kind) ==> ActionFits(At(s.history, s.epoch, s.history.baseSeq + i), d))
    {
      PlainChangeIsLegal(At(s.history, s.epoch, s.history.baseSeq + i), s.history.deltas[i]);
    }
  }

  /** Every resource is kept under its own kind and UID. */
  predicate Keyed(m: map<Key, Resource>)
  {
    forall k :: k in m ==> m[k].Resource? && k == Key(m[k].kind, m[k].uid)
  }

  lemma IndexIsKeyed(m: map<Key, Resource>, rs: seq<Resource>)
    requires IsIndexOf(m, rs)
    ensures Keyed(m)
  {
    forall k | k in m ensures m[k].Resource? && k == Key(m[k].kind, m[k].uid) {
      IndexHasNothingElse(m, rs, k);
    }
  }

  lemma {:induction false} SourceIsKeyed(s: Sync, n: int)
    requires PlainSnapshot(s) && s.from <= n <= s.upTo
    ensures Covers(s.history, n) && Keyed(At(s.history, s.epoch, n))
    decreases n
  {
    if n == s.from {
      IndexIsKeyed(At(s.history, s.epoch, n), Flatten(s.parts));
    } else {
      SourceIsKeyed(s, n - 1);
      AtNext(s.history, s.epoch, n - 1);
    }
  }

  /** What a reader is answered who asks for a pod by UID. */
  predicate FindsPod(cat: Catalog, id: string, uid: string)
  {
    id in cat.clusters && cat.clusters[id].available && Key(Pod, uid) in cat.clusters[id].resources
  }

  /** Whatever record the cluster had and whatever frames of other clusters come in between, a source map of legal
      resources, pods on any node included, ends up served while there is room for it; and a pod is found by UID
      exactly when the source has one of that UID. */
  lemma LegalSourceIsServed(cat: Catalog, maxResources: nat, size: Frame -> nat, s: Sync, frames: seq<Frame>, uid: string)
    requires Balanced(cat) && cat.limits == LimitsFor(maxResources) && s.id in cat.clusters && PlainSnapshot(s) && PlainChanges(s)
    requires Own(frames, s.id) == FramesOf(Sent(size, s)) && RoomKept(cat, frames, s)
    ensures var after, m := ApplyAll(cat, frames), At(s.history, s.epoch, s.upTo);
      && s.id in after.clusters && Visible(after.clusters[s.id]) == Some(m)
      && (FindsPod(after, s.id, uid) <==> exists k :: k in m && m[k].Resource? && m[k].kind == Pod && m[k].uid == uid)
  {
    SnapshotIsLegal(s);
    ChangesAreLegal(s);
    SyncAmongOthersCatchesUp(cat, maxResources, size, s, frames);
    SourceIsKeyed(s, s.upTo);
    assert Visible(ApplyAll(cat, frames).clusters[s.id]).Some?;
  }
}
