/** Sorting: the byte order of strings, orders on arbitrary values, an in-place sort, and why the sorted
    form of a collection does not depend on the order it came in. */
module Ordering {

  // ----- strings -----

  predicate Less(a: string, b: string)
  {
    b != [] && (a == [] || a[0] < b[0] || (a[0] == b[0] && Less(a[1..], b[1..])))
  }

  predicate AtMost(a: string, b: string)
  {
    !Less(b, a)
  }

  lemma {:induction false} LessIsStrict(a: string, b: string)
    ensures !(Less(a, b) && Less(b, a))
    ensures Less(a, b) || Less(b, a) || a == b
    decreases |a|
  {
    if a != [] && b != [] {
      LessIsStrict(a[1..], b[1..]);
      assert a == [a[0]] + a[1..] && b == [b[0]] + b[1..];
    }
  }

  lemma {:induction false} LessChains(a: string, b: string, c: string)
    requires Less(a, b) && !Less(c, b)
    ensures Less(a, c)
    decreases |a|
  {
    if a != [] && a[0] == b[0] && c != [] && c[0] == b[0] {
      LessChains(a[1..], b[1..], c[1..]);
    }
  }

  lemma StringsAreOrdered()
    ensures TotalOrder(AtMost) && forall a, b :: AtMost(a, b) && AtMost(b, a) ==> a == b
  {
    forall a, b ensures (AtMost(a, b) || AtMost(b, a)) && (AtMost(a, b) && AtMost(b, a) ==> a == b) {
      LessIsStrict(a, b);
    }
    forall a, b, c | AtMost(a, b) && AtMost(b, c) ensures AtMost(a, c) {
      if Less(c, a) {
        LessChains(c, a, b);
      }
    }
  }

  // ----- keys of several fields -----

  /** Numbers that are compared first, larger before smaller, and then texts in turn. */
  datatype SortKey = SortKey(first: int, second: int, texts: seq<string>)

  predicate TextsLess(a: seq<string>, b: seq<string>)
  {
    b != [] && (a == [] || Less(a[0], b[0]) || (a[0] == b[0] && TextsLess(a[1..], b[1..])))
  }

  predicate KeyAtMost(a: SortKey, b: SortKey)
  {
    || a.first > b.first
    || (a.first == b.first && a.second > b.second)
    || (a.first == b.first && a.second == b.second && !TextsLess(b.texts, a.texts))
  }

  lemma {:induction false} TextsLessIsStrict(a: seq<string>, b: seq<string>)
    ensures !(TextsLess(a, b) && TextsLess(b, a))
    ensures TextsLess(a, b) || TextsLess(b, a) || a == b
    decreases |a|
  {
    if a != [] && b != [] {
      LessIsStrict(a[0], b[0]);
      TextsLessIsStrict(a[1..], b[1..]);
      assert a == [a[0]] + a[1..] && b == [b[0]] + b[1..];
    }
  }

  lemma {:induction false} TextsLessChains(a: seq<string>, b: seq<string>, c: seq<string>)
    requires TextsLess(a, b) && !TextsLess(c, b)
    ensures TextsLess(a, c)
    decreases |a|
  {
    if a != [] && c != [] {
      LessIsStrict(b[0], c[0]);
      if a[0] == b[0] && b[0] == c[0] {
        TextsLessChains(a[1..], b[1..], c[1..]);
      } else if Less(a[0], b[0]) {
        LessChains(a[0], b[0], c[0]);
      }
    }
  }

  lemma KeysAreOrdered()
    ensures TotalOrder(KeyAtMost) && forall a, b :: KeyAtMost(a, b) && KeyAtMost(b, a) ==> a == b
  {
    forall a: SortKey, b: SortKey
      ensures (KeyAtMost(a, b) || KeyAtMost(b, a)) && (KeyAtMost(a, b) && KeyAtMost(b, a) ==> a == b)
    {
      TextsLessIsStrict(a.texts, b.texts);
    }
    forall a: SortKey, b: SortKey, c: SortKey | KeyAtMost(a, b) && KeyAtMost(b, c) ensures KeyAtMost(a, c) {
      if TextsLess(c.texts, a.texts) && !TextsLess(b.texts, a.texts) {
        TextsLessChains(c.texts, a.texts, b.texts);
      }
    }
  }

  // ----- orders -----

  ghost predicate TotalOrder<T(!new)>(le: (T, T) -> bool)
  {
    && (forall a, b :: le(a, b) || le(b, a))
    && (forall a, b, c :: le(a, b) && le(b, c) ==> le(a, c))
  }

  predicate Sorted<T>(s: seq<T>, le: (T, T) -> bool)
  {
    forall i, j :: 0 <= i < j < |s| ==> le(s[i], s[j])
  }

  /** Values of s that are equal in the order are equal. */
  predicate Distinguishes<T(==)>(le: (T, T) -> bool, s: seq<T>)
  {
    forall i, j :: 0 <= i < |s| && 0 <= j < |s| && le(s[i], s[j]) && le(s[j], s[i]) ==> s[i] == s[j]
  }

  function Insert<T>(x: T, s: seq<T>, le: (T, T) -> bool): seq<T>
  {
    if s == [] || le(x, s[0]) then [x] + s else [s[0]] + Insert(x, s[1..], le)
  }

  function Sort<T>(s: seq<T>, le: (T, T) -> bool): seq<T>
  {
    if s == [] then [] else Insert(s[0], Sort(s[1..], le), le)
  }

  lemma {:induction false} InsertKeeps<T(!new)>(x: T, s: seq<T>, le: (T, T) -> bool)
    ensures multiset(Insert(x, s, le)) == multiset(s) + multiset{x}
    decreases |s|
  {
    if s != [] {
      assert s == [s[0]] + s[1..];
      if !le(x, s[0]) {
        InsertKeeps(x, s[1..], le);
      }
    }
  }

  lemma {:induction false} InsertSorts<T(!new)>(x: T, s: seq<T>, le: (T, T) -> bool)
    requires TotalOrder(le) && Sorted(s, le)
    ensures Sorted(Insert(x, s, le), le)
    decreases |s|
  {
    if s != [] && !le(x, s[0]) {
      InsertSorts(x, s[1..], le);
      InsertKeeps(x, s[1..], le);
      var tail := Insert(x, s[1..], le);
      forall y | y in tail ensures le(s[0], y) {
        assert y in multiset(s[1..]) + multiset{x};
      }
    }
  }

  lemma {:induction false} SortSorts<T(!new)>(s: seq<T>, le: (T, T) -> bool)
    requires TotalOrder(le)
    ensures Sorted(Sort(s, le), le) && multiset(Sort(s, le)) == multiset(s)
    decreases |s|
  {
    if s != [] {
      SortSorts(s[1..], le);
      InsertSorts(s[0], Sort(s[1..], le), le);
      InsertKeeps(s[0], Sort(s[1..], le), le);
      assert s == [s[0]] + s[1..];
    }
  }

  lemma SortedHeadsAgree<T(!new)>(s: seq<T>, t: seq<T>, le: (T, T) -> bool)
    requires TotalOrder(le) && Sorted(s, le) && Sorted(t, le) && s != [] && t != []
    requires s[0] in t && t[0] in s && Distinguishes(le, s)
    ensures s[0] == t[0]
  {
    var i :| 0 <= i < |t| && t[i] == s[0];
    var j :| 0 <= j < |s| && s[j] == t[0];
    assert le(s[0], s[j]) && le(t[0], t[i]);
  }

  lemma TailsAgree<T>(s: seq<T>, t: seq<T>)
    requires s != [] && t != [] && s[0] == t[0] && multiset(s) == multiset(t)
    ensures multiset(s[1..]) == multiset(t[1..])
  {
    assert s == [s[0]] + s[1..] && t == [t[0]] + t[1..];
    assert multiset(s[1..]) == multiset(s) - multiset{s[0]};
    assert multiset(t[1..]) == multiset(t) - multiset{t[0]};
  }

  lemma SameCollection<T>(s: seq<T>, t: seq<T>)
    requires multiset(s) == multiset(t)
    ensures |s| == |t| && forall x :: x in s <==> x in t
  {
    assert |multiset(s)| == |s| && |multiset(t)| == |t|;
    forall x ensures x in s <==> x in t {
      assert x in multiset(s) <==> x in multiset(t);
    }
  }

  /** There is only one way to sort a collection whose elements the order tells apart. */
  lemma {:induction false} SortedIsUnique<T(!new)>(s: seq<T>, t: seq<T>, le: (T, T) -> bool)
    requires TotalOrder(le) && Sorted(s, le) && Sorted(t, le) && multiset(s) == multiset(t)
    requires Distinguishes(le, s)
    ensures s == t
    decreases |s|
  {
    SameCollection(s, t);
    if s != [] {
      SortedHeadsAgree(s, t, le);
      TailsAgree(s, t);
      SortedIsUnique(s[1..], t[1..], le);
      assert s == [s[0]] + s[1..] && t == [t[0]] + t[1..];
    }
  }

  /** Sorting forgets the order the elements came in. */
  lemma SortForgetsOrder<T(!new)>(s: seq<T>, t: seq<T>, le: (T, T) -> bool)
    requires TotalOrder(le) && multiset(s) == multiset(t) && Distinguishes(le, s)
    ensures Sort(s, le) == Sort(t, le)
  {
    SortSorts(s, le);
    SortSorts(t, le);
    SameElementsDistinguished(Sort(s, le), s, le);
    SortedIsUnique(Sort(s, le), Sort(t, le), le);
  }

  lemma SameElementsDistinguished<T(!new)>(s: seq<T>, t: seq<T>, le: (T, T) -> bool)
    requires multiset(s) == multiset(t) && Distinguishes(le, t)
    ensures Distinguishes(le, s)
  {
    forall i, j | 0 <= i < |s| && 0 <= j < |s| && le(s[i], s[j]) && le(s[j], s[i]) ensures s[i] == s[j] {
      assert s[i] in multiset(t) && s[j] in multiset(t);
    }
  }

  // ----- in place -----

  /** The elements are in order of their keys. */
  predicate SortedBy<T, K>(s: seq<T>, key: T -> K, le: (K, K) -> bool)
  {
    forall i, j :: 0 <= i < j < |s| ==> le(key(s[i]), key(s[j]))
  }

  /** All but the element at j, which is still sinking, are in order up to i. */
  predicate Sinking<T, K>(s: seq<T>, j: int, i: int, key: T -> K, le: (K, K) -> bool)
  {
    0 <= j <= i < |s| && forall k, l :: 0 <= k < l <= i && l != j ==> le(key(s[k]), key(s[l]))
  }

  lemma SinkOne<T, K(!new)>(s: seq<T>, j: nat, i: nat, key: T -> K, le: (K, K) -> bool)
    requires TotalOrder(le) && Sinking(s, j, i, key, le) && j > 0 && !le(key(s[j - 1]), key(s[j]))
    ensures var s' := s[j - 1 := s[j]][j := s[j - 1]];
      Sinking(s', j - 1, i, key, le) && multiset(s') == multiset(s)
  {
    var s' := s[j - 1 := s[j]][j := s[j - 1]];
    forall k, l | 0 <= k < l <= i && l != j - 1 ensures le(key(s'[k]), key(s'[l])) {
    }
  }

  lemma Sunk<T, K(!new)>(s: seq<T>, j: nat, i: nat, key: T -> K, le: (K, K) -> bool)
    requires TotalOrder(le) && Sinking(s, j, i, key, le) && (j == 0 || le(key(s[j - 1]), key(s[j])))
    ensures SortedBy(s[..i + 1], key, le)
  {
    forall k | 0 <= k < j ensures le(key(s[k]), key(s[j])) {
      assert k < j - 1 ==> le(key(s[k]), key(s[j - 1]));
    }
  }

  /** Sinks the element at i into the sorted part below it. */
  method Sink<T, K(!new)>(a: array<T>, i: nat, key: T -> K, le: (K, K) -> bool)
    requires TotalOrder(le) && i < a.Length && SortedBy(a[..i], key, le)
    modifies a
    ensures SortedBy(a[..i + 1], key, le) && multiset(a[..]) == multiset(old(a[..]))
  {
    var j := i;
    assert Sinking(a[..], i, i, key, le);
    while j > 0 && !le(key(a[j - 1]), key(a[j]))
      invariant 0 <= j <= i && multiset(a[..]) == multiset(old(a[..])) && Sinking(a[..], j, i, key, le)
    {
      SinkOne(a[..], j, i, key, le);
      a[j - 1], a[j] := a[j], a[j - 1];
      j := j - 1;
    }
    Sunk(a[..], j, i, key, le);
    assert a[..][..i + 1] == a[..i + 1];
  }

  /** Sorts an array in place. */
  method SortArray<T, K(!new)>(a: array<T>, key: T -> K, le: (K, K) -> bool)
    requires TotalOrder(le)
    modifies a
    ensures SortedBy(a[..], key, le) && multiset(a[..]) == multiset(old(a[..]))
  {
    for i := 0 to a.Length
      invariant SortedBy(a[..i], key, le) && multiset(a[..]) == multiset(old(a[..]))
    {
      Sink(a, i, key, le);
    }
    assert a[..a.Length] == a[..];
  }

  function Itself<T>(x: T): T
  {
    x
  }

  /** The list sorted, by sorting a copy of it in place. */
  method SortList<T(!new)>(s: seq<T>, le: (T, T) -> bool) returns (r: seq<T>)
    requires TotalOrder(le) && Distinguishes(le, s)
    ensures r == Sort(s, le)
  {
    var a := new T[|s|](i requires 0 <= i < |s| => s[i]);
    assert a[..] == s;
    SortArray(a, Itself, le);
    r := a[..];
    assert Sorted(r, le) by {
      assert SortedBy(r, Itself, le);
    }
    SortSorts(s, le);
    SameElementsDistinguished(r, s, le);
    SortedIsUnique(r, Sort(s, le), le);
  }

  // ----- maps over sequences -----

  function Map<T, U>(f: T -> U, s: seq<T>): (r: seq<U>)
    ensures |r| == |s| && forall i :: 0 <= i < |s| ==> r[i] == f(s[i])
  {
    seq(|s|, i requires 0 <= i < |s| => f(s[i]))
  }

  function Removed<T>(s: seq<T>, i: nat): seq<T>
    requires i < |s|
  {
    s[..i] + s[i + 1..]
  }

  lemma RemovedAt<T>(s: seq<T>, i: nat, k: nat)
    requires i < |s| && k < |s| - 1
    ensures Removed(s, i)[k] == if k < i then s[k] else s[k + 1]
  {
  }

  lemma RemovedOne<T>(s: seq<T>, i: nat)
    requires i < |s|
    ensures multiset(Removed(s, i)) == multiset(s) - multiset{s[i]}
    ensures multiset(s) == multiset(Removed(s, i)) + multiset{s[i]}
  {
    assert s == s[..i] + [s[i]] + s[i + 1..];
  }

  lemma MapRemoved<T, U>(f: T -> U, s: seq<T>, i: nat)
    requires i < |s|
    ensures Map(f, Removed(s, i)) == Removed(Map(f, s), i)
  {
  }

  /** When f decides g, collections that f cannot tell apart look the same through g. */
  lemma {:induction false} MapsAgree<T(!new), U, V>(a: seq<T>, b: seq<T>, f: T -> U, g: T -> V)
    requires multiset(Map(f, a)) == multiset(Map(f, b))
    requires forall x, y :: f(x) == f(y) ==> g(x) == g(y)
    ensures multiset(Map(g, a)) == multiset(Map(g, b))
    decreases |a|
  {
    SameCollection(Map(f, a), Map(f, b));
    if a != [] {
      var x := Map(f, a)[0];
      assert x in multiset(Map(f, a)) && x in multiset(Map(f, b));
      var j :| 0 <= j < |b| && Map(f, b)[j] == x;
      DropPair(a, b, j, f);
      MapsAgree(Removed(a, 0), Removed(b, j), f, g);
      AddPair(a, b, j, g);
    }
  }

  lemma DropPair<T, U>(a: seq<T>, b: seq<T>, j: nat, f: T -> U)
    requires a != [] && j < |b| && f(a[0]) == f(b[j]) && multiset(Map(f, a)) == multiset(Map(f, b))
    ensures multiset(Map(f, Removed(a, 0))) == multiset(Map(f, Removed(b, j)))
  {
    MapRemoved(f, a, 0);
    MapRemoved(f, b, j);
    RemovedOne(Map(f, a), 0);
    RemovedOne(Map(f, b), j);
  }

  lemma AddPair<T, V>(a: seq<T>, b: seq<T>, j: nat, g: T -> V)
    requires a != [] && j < |b| && g(a[0]) == g(b[j])
    requires multiset(Map(g, Removed(a, 0))) == multiset(Map(g, Removed(b, j)))
    ensures multiset(Map(g, a)) == multiset(Map(g, b))
  {
    var x, y := Map(g, a), Map(g, b);
    MapRemoved(g, a, 0);
    MapRemoved(g, b, j);
    RemovedOne(x, 0);
    RemovedOne(y, j);
    assert multiset(x) == multiset(x) - multiset{x[0]} + multiset{x[0]};
    assert multiset(y) == multiset(y) - multiset{y[j]} + multiset{y[j]};
  }

  lemma MapPermutes<T(!new), U>(f: T -> U, s: seq<T>, t: seq<T>)
    requires multiset(s) == multiset(t)
    ensures multiset(Map(f, s)) == multiset(Map(f, t))
  {
    var same := (x: T) => x;
    assert Map(same, s) == s && Map(same, t) == t;
    MapsAgree(s, t, same, f);
  }

  // ----- filters -----

  function Filter<T>(p: T -> bool, s: seq<T>): seq<T>
  {
    if s == [] then []
    else Filter(p, s[..|s| - 1]) + if p(s[|s| - 1]) then [s[|s| - 1]] else []
  }

  lemma {:induction false} FilterCounts<T>(p: T -> bool, s: seq<T>, x: T)
    ensures multiset(Filter(p, s))[x] == if p(x) then multiset(s)[x] else 0
    decreases |s|
  {
    if s != [] {
      FilterCounts(p, s[..|s| - 1], x);
      assert s == s[..|s| - 1] + [s[|s| - 1]];
    }
  }

  lemma FilterPermutes<T(!new)>(p: T -> bool, s: seq<T>, t: seq<T>)
    requires multiset(s) == multiset(t)
    ensures multiset(Filter(p, s)) == multiset(Filter(p, t))
  {
    forall x ensures multiset(Filter(p, s))[x] == multiset(Filter(p, t))[x] {
      FilterCounts(p, s, x);
      FilterCounts(p, t, x);
    }
  }

  lemma FilterMembers<T(!new)>(p: T -> bool, s: seq<T>)
    ensures forall x :: x in Filter(p, s) <==> x in s && p(x)
  {
    forall x ensures x in Filter(p, s) <==> x in s && p(x) {
      FilterCounts(p, s, x);
      assert x in Filter(p, s) <==> x in multiset(Filter(p, s));
      assert x in s <==> x in multiset(s);
    }
  }

  lemma {:induction false} FilterOfNone<T>(p: T -> bool, s: seq<T>)
    requires forall x :: x in s ==> !p(x)
    ensures Filter(p, s) == []
    decreases |s|
  {
    if s != [] {
      FilterOfNone(p, s[..|s| - 1]);
      assert s[|s| - 1] in s;
    }
  }

  // ----- folds -----

  function Fold<A, X>(a: A, s: seq<X>, step: (A, X) -> A): A
  {
    if s == [] then a else step(Fold(a, s[..|s| - 1], step), s[|s| - 1])
  }

  /** Taking two elements of s one after the other comes to the same either way round. */
  ghost predicate CommutesOn<A(!new), X(!new)>(step: (A, X) -> A, s: seq<X>)
  {
    forall a, x, y :: x in s && y in s ==> step(step(a, x), y) == step(step(a, y), x)
  }

  /** An element may as well come last. */
  lemma {:induction false} FoldMovesLast<A(!new), X(!new)>(a: A, s: seq<X>, i: nat, step: (A, X) -> A)
    requires CommutesOn(step, s) && i < |s|
    ensures Fold(a, s, step) == step(Fold(a, Removed(s, i), step), s[i])
    decreases |s|
  {
    var last := |s| - 1;
    if i == last {
      assert Removed(s, i) == s[..last];
    } else {
      FoldMovesLast(a, s[..last], i, step);
      var rest := Removed(s, i);
      assert rest[..|rest| - 1] == Removed(s[..last], i) && rest[|rest| - 1] == s[last];
      assert s[i] in s && s[last] in s;
    }
  }

  /** What such steps add up to does not depend on their order. */
  lemma {:induction false} FoldForgetsOrder<A(!new), X(!new)>(a: A, s: seq<X>, t: seq<X>, step: (A, X) -> A)
    requires CommutesOn(step, s) && multiset(s) == multiset(t)
    ensures Fold(a, s, step) == Fold(a, t, step)
    decreases |s|
  {
    SameCollection(s, t);
    if s != [] {
      var j := MatchLast(s, t);
      FoldMovesLast(a, t, j, step);
      FoldForgetsOrder(a, s[..|s| - 1], Removed(t, j), step);
    }
  }

  /** Where the last element of s is in an arrangement of s. */
  lemma MatchLast<T>(s: seq<T>, t: seq<T>) returns (j: nat)
    requires s != [] && multiset(s) == multiset(t)
    ensures j < |t| && t[j] == s[|s| - 1] && multiset(s[..|s| - 1]) == multiset(Removed(t, j))
  {
    var last := |s| - 1;
    assert s[last] in multiset(t);
    j :| 0 <= j < |t| && t[j] == s[last];
    RemovedOne(t, j);
    RemovedOne(s, last);
    assert Removed(s, last) == s[..last];
  }

  // ----- lists without repeats -----

  predicate NoRepeats<T(==)>(s: seq<T>)
  {
    forall i, j :: 0 <= i < j < |s| ==> s[i] != s[j]
  }

  lemma {:induction false} NoRepeatsCounts<T>(s: seq<T>, x: T)
    requires NoRepeats(s)
    ensures multiset(s)[x] == if x in s then 1 else 0
    decreases |s|
  {
    if s != [] {
      var last := |s| - 1;
      NoRepeatsCounts(s[..last], x);
      assert s == s[..last] + [s[last]];
    }
  }

  /** Lists without repeats that hold the same elements are arrangements of each other. */
  lemma SameElementsPermute<T(!new)>(s: seq<T>, t: seq<T>)
    requires NoRepeats(s) && NoRepeats(t) && forall x :: x in s <==> x in t
    ensures multiset(s) == multiset(t)
  {
    forall x ensures multiset(s)[x] == multiset(t)[x] {
      NoRepeatsCounts(s, x);
      NoRepeatsCounts(t, x);
    }
  }
}
