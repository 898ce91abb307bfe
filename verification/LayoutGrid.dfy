/** Widget layouts on the 96 by 12 dashboard grid, checked by marking cells one by one: the Go loop, which
    stops at the first problem and adds in 64 bits, and the JavaScript loop, which collects all problems and
    whose numbers do not wrap around. */
module LayoutGrid {
  import opened MachineIntegers

  const Rows := 96
  const Columns := 12

  datatype Layout = Layout(x: int, y: int, w: int, h: int)

  // ----- what a layout is for -----

  predicate InBounds(l: Layout)
  {
    0 <= l.x && 0 <= l.y && 1 <= l.w && 1 <= l.h && l.x + l.w <= Columns && l.y + l.h <= Rows
  }

  /** Two rectangles with a cell in common. */
  predicate Overlap(a: Layout, b: Layout)
  {
    a.x < b.x + b.w && b.x < a.x + a.w && a.y < b.y + b.h && b.y < a.y + a.h
  }

  /** Every rectangle is within the grid and no two share a cell. */
  predicate Proper(ls: seq<Layout>)
  {
    && (forall i :: 0 <= i < |ls| ==> InBounds(ls[i]))
    && (forall i, j :: 0 <= i < j < |ls| ==> !Overlap(ls[i], ls[j]))
  }

  predicate Covers(l: Layout, y: int, x: int)
  {
    l.x <= x < l.x + l.w && l.y <= y < l.y + l.h
  }

  /** Rectangles within the grid overlap exactly when some cell is covered by both. */
  lemma OverlapIsASharedCell(a: Layout, b: Layout)
    requires InBounds(a) && InBounds(b)
    ensures Overlap(a, b) <==> exists y, x :: Covers(a, y, x) && Covers(b, y, x)
  {
    if Overlap(a, b) {
      var y, x := if a.y < b.y then b.y else a.y, if a.x < b.x then b.x else a.x;
      assert Covers(a, y, x) && Covers(b, y, x);
    }
  }

  // ----- the grid -----

  predicate OnGrid(y: int, x: int)
  {
    0 <= y < Rows && 0 <= x < Columns
  }

  /** Some of the first n rectangles covers the cell. */
  ghost predicate Taken(ls: seq<Layout>, n: int, y: int, x: int)
  {
    exists k :: 0 <= k < n <= |ls| && InBounds(ls[k]) && Covers(ls[k], y, x)
  }

  /** The cells of l before (y, x) in the order they are marked. */
  predicate Passed(l: Layout, y: int, x: int, y': int, x': int)
  {
    InBounds(l) && Covers(l, y', x') && (y' < y || (y' == y && x' < x))
  }

  /** A rectangle within the grid that covers a cell taken before it. */
  ghost predicate Collides(ls: seq<Layout>, n: int)
    requires 0 <= n < |ls|
  {
    InBounds(ls[n]) && exists y, x :: Covers(ls[n], y, x) && Taken(ls, n, y, x)
  }

  /** A rectangle hits a taken cell exactly when it overlaps an earlier one. */
  lemma CollidesIff(ls: seq<Layout>, n: nat)
    requires n < |ls|
    ensures Collides(ls, n) <==> InBounds(ls[n]) && exists k :: 0 <= k < n && InBounds(ls[k]) && Overlap(ls[k], ls[n])
  {
    if Collides(ls, n) {
      var y, x :| Covers(ls[n], y, x) && Taken(ls, n, y, x);
      var k :| 0 <= k < n && InBounds(ls[k]) && Covers(ls[k], y, x);
      OverlapIsASharedCell(ls[k], ls[n]);
    }
    if k :| InBounds(ls[n]) && 0 <= k < n && InBounds(ls[k]) && Overlap(ls[k], ls[n]) {
      OverlapIsASharedCell(ls[k], ls[n]);
      var y, x :| Covers(ls[k], y, x) && Covers(ls[n], y, x);
      assert Taken(ls, n, y, x);
    }
  }

  // ----- the Go loop -----

  predicate Is64Bit(l: Layout)
  {
    && -MaxInt64 - 1 <= l.x <= MaxInt64 && -MaxInt64 - 1 <= l.y <= MaxInt64
    && -MaxInt64 - 1 <= l.w <= MaxInt64 && -MaxInt64 - 1 <= l.h <= MaxInt64
  }

  predicate AllAre64Bit(ls: seq<Layout>)
  {
    forall i :: 0 <= i < |ls| ==> Is64Bit(ls[i])
  }

  /** The bounds check as it is computed. */
  predicate Admitted(l: Layout)
  {
    0 <= l.x && 0 <= l.y && 1 <= l.w && 1 <= l.h && Wrap64(l.x + l.w) <= Columns && Wrap64(l.y + l.h) <= Rows
  }

  /** One of the two sums does not fit in 64 bits. */
  predicate Overflows(l: Layout)
  {
    l.x + l.w > MaxInt64 || l.y + l.h > MaxInt64
  }

  /** A sum that wraps around is negative, so it passes the check and no cell is marked. */
  lemma AdmittedIff(l: Layout)
    requires Is64Bit(l)
    ensures !Overflows(l) ==> (Admitted(l) <==> InBounds(l))
    ensures Overflows(l) ==> !InBounds(l)
    ensures Admitted(l) && l.x < Wrap64(l.x + l.w) && l.y < Wrap64(l.y + l.h) ==> InBounds(l)
    ensures InBounds(l) ==> Wrap64(l.x + l.w) == l.x + l.w && Wrap64(l.y + l.h) == l.y + l.h
  {
    WrapsDown(l.x + l.w);
    WrapsDown(l.y + l.h);
  }

  lemma WrapsDown(n: int)
    ensures MaxInt64 < n <= 2 * MaxInt64 ==> Wrap64(n) < 0
  {
    if MaxInt64 < n <= 2 * MaxInt64 {
      assert Wrap64(n) == n - 0x1_0000_0000_0000_0000;
    }
  }

  ghost predicate Marked(occupied: array2<bool>, ls: seq<Layout>, n: int)
    reads occupied
    requires occupied.Length0 == Rows && occupied.Length1 == Columns
  {
    forall y, x :: OnGrid(y, x) ==> (occupied[y, x] <==> Taken(ls, n, y, x))
  }

  /** Marks the cells of one rectangle, row by row, until one is taken. */
  method Mark(occupied: array2<bool>, ls: seq<Layout>, n: nat) returns (ok: bool)
    requires occupied.Length0 == Rows && occupied.Length1 == Columns
    requires n < |ls| && Is64Bit(ls[n]) && Admitted(ls[n]) && Marked(occupied, ls, n)
    modifies occupied
    ensures ok <==> !Collides(ls, n)
    ensures ok ==> Marked(occupied, ls, n + 1)
  {
    var l := ls[n];
    AdmittedIff(l);
    var y := l.y;
    while y < Wrap64(l.y + l.h)
      invariant l.y <= y && (InBounds(l) ==> y <= l.y + l.h)
      invariant forall y', x' :: OnGrid(y', x') ==>
        (occupied[y', x'] <==> Taken(ls, n, y', x') || Passed(l, y, l.x, y', x'))
      invariant forall y', x' :: Passed(l, y, l.x, y', x') ==> !Taken(ls, n, y', x')
    {
      var x := l.x;
      while x < Wrap64(l.x + l.w)
        invariant l.x <= x && (InBounds(l) ==> x <= l.x + l.w)
        invariant forall y', x' :: OnGrid(y', x') ==>
          (occupied[y', x'] <==> Taken(ls, n, y', x') || Passed(l, y, x, y', x'))
        invariant forall y', x' :: Passed(l, y, x, y', x') ==> !Taken(ls, n, y', x')
      {
        assert InBounds(l) && OnGrid(y, x) && Covers(l, y, x) && !Passed(l, y, x, y, x);
        if occupied[y, x] {
          return false;
        }
        occupied[y, x] := true;
        x := x + 1;
      }
      y := y + 1;
    }
    forall y', x' ensures InBounds(l) && Covers(l, y', x') ==> !Taken(ls, n, y', x') && Passed(l, y, l.x, y', x') {
    }
    ok := true;
  }

  /** What the Go loop accepts. */
  predicate GoAccepts(ls: seq<Layout>)
  {
    && (forall i :: 0 <= i < |ls| ==> InBounds(ls[i]) || (Admitted(ls[i]) && Overflows(ls[i])))
    && (forall i, j :: 0 <= i < j < |ls| && InBounds(ls[i]) && InBounds(ls[j]) ==> !Overlap(ls[i], ls[j]))
  }

  /** What the check cannot see through: a sum overflows, and that is all that is wrong. */
  predicate Misleads(ls: seq<Layout>)
  {
    && (exists i :: 0 <= i < |ls| && Overflows(ls[i]))
    && (forall i :: 0 <= i < |ls| ==>
          && 0 <= ls[i].x && 0 <= ls[i].y && 1 <= ls[i].w && 1 <= ls[i].h
          && (ls[i].x + ls[i].w <= Columns || ls[i].x + ls[i].w > MaxInt64)
          && (ls[i].y + ls[i].h <= Rows || ls[i].y + ls[i].h > MaxInt64))
    && (forall i, j :: 0 <= i < j < |ls| && InBounds(ls[i]) && InBounds(ls[j]) ==> !Overlap(ls[i], ls[j]))
  }

  lemma WrappedSum(n: int, bound: int)
    requires 0 <= n <= 2 * MaxInt64 && 0 <= bound <= MaxInt64
    ensures Wrap64(n) <= bound <==> n <= bound || n > MaxInt64
  {
    WrapsDown(n);
  }

  lemma AdmittedBySums(l: Layout)
    requires Is64Bit(l)
    ensures Admitted(l) <==>
      && 0 <= l.x && 0 <= l.y && 1 <= l.w && 1 <= l.h
      && (l.x + l.w <= Columns || l.x + l.w > MaxInt64) && (l.y + l.h <= Rows || l.y + l.h > MaxInt64)
  {
    if 0 <= l.x && 0 <= l.y && 1 <= l.w && 1 <= l.h {
      WrappedSum(l.x + l.w, Columns);
      WrappedSum(l.y + l.h, Rows);
    }
  }

  /** The Go loop accepts the proper lists and those that mislead it; no list is both. */
  lemma GoIsRightIff(ls: seq<Layout>)
    requires AllAre64Bit(ls)
    ensures GoAccepts(ls) <==> Proper(ls) || Misleads(ls)
    ensures (GoAccepts(ls) <==> Proper(ls)) <==> !Misleads(ls)
  {
    forall i | 0 <= i < |ls|
      ensures Admitted(ls[i]) <==>
        && 0 <= ls[i].x && 0 <= ls[i].y && 1 <= ls[i].w && 1 <= ls[i].h
        && (ls[i].x + ls[i].w <= Columns || ls[i].x + ls[i].w > MaxInt64)
        && (ls[i].y + ls[i].h <= Rows || ls[i].y + ls[i].h > MaxInt64)
      ensures InBounds(ls[i]) ==> !Overflows(ls[i]) && Admitted(ls[i])
    {
      AdmittedBySums(ls[i]);
    }
  }

  /** What one more rectangle does to the verdict. */
  lemma GoAcceptsOneMore(ls: seq<Layout>, n: nat)
    requires AllAre64Bit(ls) && n < |ls| && GoAccepts(ls[..n])
    ensures Admitted(ls[n]) && !Collides(ls, n) ==> GoAccepts(ls[..n + 1])
    ensures !(Admitted(ls[n]) && !Collides(ls, n)) ==> !GoAccepts(ls)
  {
    AdmittedIff(ls[n]);
    CollidesIff(ls, n);
  }

  /** The loop is right, that is, accepts exactly the proper lists, unless the list misleads it. A list without
      a sum that overflows never does. */
  method ValidateGo(ls: seq<Layout>) returns (ok: bool)
    requires AllAre64Bit(ls)
    ensures ok <==> Proper(ls) || Misleads(ls)
    ensures (ok <==> Proper(ls)) <==> !Misleads(ls)
    ensures (forall i :: 0 <= i < |ls| ==> !Overflows(ls[i])) ==> (ok <==> Proper(ls))
  {
    GoIsRightIff(ls);
    var occupied := new bool[Rows, Columns]((_, _) => false);
    for n := 0 to |ls|
      invariant Marked(occupied, ls, n) && GoAccepts(ls[..n])
    {
      GoAcceptsOneMore(ls, n);
      if ls[n].x < 0 || ls[n].y < 0 || ls[n].w < 1 || ls[n].h < 1
         || Wrap64(ls[n].x + ls[n].w) > Columns || Wrap64(ls[n].y + ls[n].h) > Rows {
        return false;
      }
      ok := Mark(occupied, ls, n);
      if !ok {
        return;
      }
    }
    assert ls[..|ls|] == ls;
    ok := true;
  }

  /** Such a list exists: a widget one column wide at the far end of the 64-bit range. */
  lemma GoAcceptsAWidgetOffTheGrid()
    ensures Is64Bit(Layout(MaxInt64, 0, 1, 1)) && Misleads([Layout(MaxInt64, 0, 1, 1)])
    ensures GoAccepts([Layout(MaxInt64, 0, 1, 1)]) && !Proper([Layout(MaxInt64, 0, 1, 1)])
  {
    var l := Layout(MaxInt64, 0, 1, 1);
    assert Overflows(l) && [l][0] == l;
    GoIsRightIff([l]);
  }

  // ----- the JavaScript loop -----

  datatype Problem = OutOfBounds(i: nat) | Overlapping(i: nat)

  /** Marks the cells of one rectangle, all of them, and tells whether one was taken. */
  method MarkAll(occupied: array<int>, ls: seq<Layout>, n: nat) returns (overlap: bool)
    requires occupied.Length == Rows * Columns
    requires n < |ls| && InBounds(ls[n]) && MarkedFlat(occupied, ls, n)
    modifies occupied
    ensures overlap <==> Collides(ls, n)
    ensures MarkedFlat(occupied, ls, n + 1)
  {
    var l := ls[n];
    overlap := false;
    for row := l.y to l.y + l.h
      invariant forall y, x :: OnGrid(y, x) ==>
        (occupied[y * 12 + x] != 0 <==> Taken(ls, n, y, x) || Passed(l, row, l.x, y, x))
      invariant overlap <==> exists y, x :: Passed(l, row, l.x, y, x) && Taken(ls, n, y, x)
    {
      for col := l.x to l.x + l.w
        invariant forall y, x :: OnGrid(y, x) ==>
          (occupied[y * 12 + x] != 0 <==> Taken(ls, n, y, x) || Passed(l, row, col, y, x))
        invariant overlap <==> exists y, x :: Passed(l, row, col, y, x) && Taken(ls, n, y, x)
      {
        var cell := row * 12 + col;
        assert OnGrid(row, col) && Covers(l, row, col) && !Passed(l, row, col, row, col);
        if occupied[cell] != 0 {
          overlap := true;
        }
        occupied[cell] := 1;
        assert Passed(l, row, col + 1, row, col);
      }
    }
    forall y, x ensures Covers(l, y, x) ==> Passed(l, l.y + l.h, l.x, y, x) {
    }
  }

  ghost predicate MarkedFlat(occupied: array<int>, ls: seq<Layout>, n: int)
    reads occupied
    requires occupied.Length == Rows * Columns
  {
    forall y, x :: OnGrid(y, x) ==> (occupied[y * 12 + x] != 0 <==> Taken(ls, n, y, x))
  }

  predicate OnlyFirst(problems: seq<Problem>, n: nat)
  {
    forall p :: p in problems ==> p.i < n
  }

  /** Each layout gets its own verdict: out of bounds, or overlapping one within bounds before it. Problems
      with one layout do not hide those of the next. */
  method ValidateJs(ls: seq<Layout>) returns (problems: seq<Problem>)
    ensures forall i :: 0 <= i < |ls| ==> (OutOfBounds(i) in problems <==> !InBounds(ls[i]))
    ensures forall i :: 0 <= i < |ls| ==> (Overlapping(i) in problems <==>
              InBounds(ls[i]) && exists k :: 0 <= k < i && InBounds(ls[k]) && Overlap(ls[k], ls[i]))
    ensures OnlyFirst(problems, |ls|)
    ensures problems == [] <==> Proper(ls)
  {
    var occupied := new int[Rows * Columns](_ => 0);
    problems := [];
    for n := 0 to |ls|
      invariant MarkedFlat(occupied, ls, n) && OnlyFirst(problems, n)
      invariant forall i :: 0 <= i < n ==> (OutOfBounds(i) in problems <==> !InBounds(ls[i]))
      invariant forall i :: 0 <= i < n ==> (Overlapping(i) in problems <==> Collides(ls, i))
    {
      if ls[n].x < 0 || ls[n].y < 0 || ls[n].w < 1 || ls[n].h < 1
         || ls[n].x + ls[n].w > Columns || ls[n].y + ls[n].h > Rows {
        problems := problems + [OutOfBounds(n)];
        continue;
      }
      var overlap := MarkAll(occupied, ls, n);
      if overlap {
        problems := problems + [Overlapping(n)];
      }
    }
    forall i | 0 <= i < |ls|
      ensures Collides(ls, i) <==> InBounds(ls[i]) && exists k :: 0 <= k < i && InBounds(ls[k]) && Overlap(ls[k], ls[i])
    {
      CollidesIff(ls, i);
    }
    NoProblemsIff(ls, problems);
  }

  lemma NoProblemsIff(ls: seq<Layout>, problems: seq<Problem>)
    requires OnlyFirst(problems, |ls|)
    requires forall i :: 0 <= i < |ls| ==> (OutOfBounds(i) in problems <==> !InBounds(ls[i]))
    requires forall i :: 0 <= i < |ls| ==> (Overlapping(i) in problems <==>
               InBounds(ls[i]) && exists k :: 0 <= k < i && InBounds(ls[k]) && Overlap(ls[k], ls[i]))
    ensures problems == [] <==> Proper(ls)
  {
    if problems == [] {
      forall i, j | 0 <= i < j < |ls| ensures !Overlap(ls[i], ls[j]) {
        assert OutOfBounds(i) !in problems && Overlapping(j) !in problems;
      }
    } else {
      var p := problems[0];
      assert p in problems && p == (if p.OutOfBounds? then OutOfBounds(p.i) else Overlapping(p.i));
    }
  }

  /** Both loops on one list. They give the same answer exactly when the list does not mislead the Go loop, and
      so whenever no sum overflows. */
  method ValidateBoth(ls: seq<Layout>) returns (go: bool, js: bool)
    requires AllAre64Bit(ls)
    ensures go == js <==> !Misleads(ls)
    ensures (forall i :: 0 <= i < |ls| ==> !Overflows(ls[i])) ==> go == js
    ensures js ==> go
  {
    go := ValidateGo(ls);
    var problems := ValidateJs(ls);
    js := problems == [];
  }
}
