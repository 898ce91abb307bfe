/** Listing dashboard drafts page by page: a keyset cursor over a table that anybody may change between two
    pages. UUIDs are 128-bit numbers (their canonical text sorts the same way), a cursor is the position it
    carries, and the SQL statement is one atomic query. */
module Pagination {
  import opened Options

  const MaxListPage := 50

  type Nanos = x: int | -0x8000_0000_0000_0000 <= x <= 0x7fff_ffff_ffff_ffff

  type Uuid = x: int | 0 <= x <= 0xffff_ffff_ffff_ffff_ffff_ffff_ffff_ffff

  datatype State = Drafting | Submitted | Approved

  datatype Draft = Draft(id: Uuid, owner: string, state: State, created: Nanos, body: string)

  type Table = map<Uuid, Draft>

  /** A place in the listing order. */
  datatype Pos = Pos(created: Nanos, id: Uuid)

  const Start := Pos(0x7fff_ffff_ffff_ffff, 0xffff_ffff_ffff_ffff_ffff_ffff_ffff_ffff)

  datatype Viewer = Viewer(subject: string, admin: bool)

  datatype Page = Page(items: seq<Draft>, next: Option<Pos>)

  function PosOf(d: Draft): Pos
  {
    Pos(d.created, d.id)
  }

  /** The newest comes first; drafts of one instant are told apart by their IDs. */
  predicate Precedes(a: Pos, b: Pos)
  {
    a.created > b.created || (a.created == b.created && a.id > b.id)
  }

  predicate MayList(v: Viewer, d: Draft)
  {
    d.owner == v.subject || (v.admin && (d.state.Submitted? || d.state.Approved?))
  }

  predicate WellKeyed(t: Table)
  {
    forall id :: id in t ==> t[id].id == id
  }

  /** d is a draft of t that v may list and that lies beyond `from`. */
  predicate Listed(t: Table, v: Viewer, from: Pos, d: Draft)
  {
    d.id in t && t[d.id] == d && MayList(v, d) && Precedes(from, PosOf(d))
  }

  predicate Descending(rows: seq<Draft>)
  {
    forall i, j :: 0 <= i < j < |rows| ==> Precedes(PosOf(rows[i]), PosOf(rows[j]))
  }

  /** The first n rows beyond `from`, in order: nothing that belongs in front of them is missing, and nothing
      at all is missing when there are fewer than n. */
  ghost predicate Selects(t: Table, v: Viewer, from: Pos, n: nat, rows: seq<Draft>)
  {
    && |rows| <= n && Descending(rows)
    && (forall i :: 0 <= i < |rows| ==> Listed(t, v, from, rows[i]))
    && (forall d :: Listed(t, v, from, d) && d !in rows ==>
          |rows| == n && forall i :: 0 <= i < |rows| ==> Precedes(PosOf(rows[i]), PosOf(d)))
  }

  function EffectiveLimit(limit: int): nat
  {
    if limit < 1 || limit > MaxListPage then MaxListPage else limit
  }

  function From(cursor: Option<Pos>): Pos
  {
    if cursor.None? then Start else cursor.value
  }

  /** What a page promises: at most `limit` drafts beyond the cursor, in order and with none left out; and a
      next cursor, the position of its last draft, exactly when there is more to come. */
  ghost predicate IsPage(t: Table, v: Viewer, cursor: Option<Pos>, limit: nat, page: Page)
  {
    && |page.items| <= limit && Descending(page.items)
    && (forall i :: 0 <= i < |page.items| ==> Listed(t, v, From(cursor), page.items[i]))
    && (forall d, i :: Listed(t, v, From(cursor), d) && d !in page.items && 0 <= i < |page.items| ==>
          Precedes(PosOf(page.items[i]), PosOf(d)))
    && (page.next.Some? <==> exists d :: Listed(t, v, From(cursor), d) && d !in page.items)
    && (page.next.Some? ==>
          |page.items| == limit && limit > 0 && page.next.value == PosOf(page.items[limit - 1]))
  }

  /** `sql` answers the query against t. */
  method List(
      ghost t: Table, v: Viewer, cursor: Option<Pos>, limit: int, sql: (Viewer, Pos, nat) -> seq<Draft>)
    returns (page: Page)
    requires forall from: Pos, n: nat :: Selects(t, v, from, n, sql(v, from, n))
    ensures IsPage(t, v, cursor, EffectiveLimit(limit), page)
    ensures |page.items| <= (if 1 <= limit <= 50 then limit else 50)
    ensures page.next.Some? ==> |page.items| == if 1 <= limit <= 50 then limit else 50
  {
    var most: nat := if limit < 1 || limit > MaxListPage then MaxListPage else limit;
    var from := Start;
    if cursor.Some? {
      from := cursor.value;
    }
    var rows := sql(v, from, most + 1);
    assert Selects(t, v, from, most + 1, rows);
    var items: seq<Draft> := [];
    for i := 0 to |rows|
      invariant items == rows[..i]
    {
      items := items + [rows[i]];
    }
    assert items == rows;
    page := Page(items, None);
    if |items| > most {
      var last := items[most - 1];
      page := Page(items[..most], Some(PosOf(last)));
    }
    CutPage(t, v, cursor, most, rows);
  }

  /** The page made from the rows: the extra row is cut off, and it is what there is more of. */
  lemma CutPage(t: Table, v: Viewer, cursor: Option<Pos>, most: nat, rows: seq<Draft>)
    requires Selects(t, v, From(cursor), most + 1, rows) && most > 0
    ensures IsPage(t, v, cursor, most,
                   if |rows| > most then Page(rows[..most], Some(PosOf(rows[most - 1]))) else Page(rows, None))
  {
    if |rows| > most {
      assert rows == rows[..most] + [rows[most]];
      assert Listed(t, v, From(cursor), rows[most]) && rows[most] !in rows[..most];
      forall d, i | Listed(t, v, From(cursor), d) && d !in rows[..most] && 0 <= i < most
        ensures Precedes(PosOf(rows[i]), PosOf(d))
      {
        if d != rows[most] {
          assert d !in rows;
        }
      }
    }
  }

  // ----- walks -----

  /** The cursor the next request carries; the first carries none. */
  function CursorAfter(pages: seq<Page>): Option<Pos>
  {
    if pages == [] then None else pages[|pages| - 1].next
  }

  /** Following cursors from the first page; tables[i] is the table when page i was fetched. */
  ghost predicate IsWalk(tables: seq<Table>, v: Viewer, limit: nat, pages: seq<Page>)
  {
    if pages == [] then tables == []
    else
      var last := |pages| - 1;
      && |tables| == |pages| && IsWalk(tables[..last], v, limit, pages[..last])
      && (last > 0 ==> CursorAfter(pages[..last]).Some?)
      && IsPage(tables[last], v, CursorAfter(pages[..last]), limit, pages[last])
  }

  function Items(pages: seq<Page>): seq<Draft>
  {
    if pages == [] then [] else Items(pages[..|pages| - 1]) + pages[|pages| - 1].items
  }

  predicate AtOrBefore(a: Pos, b: Pos)
  {
    a == b || Precedes(a, b)
  }

  predicate UpTo(rows: seq<Draft>, p: Pos)
  {
    forall i :: 0 <= i < |rows| ==> AtOrBefore(PosOf(rows[i]), p)
  }

  lemma JoinedUpTo(a: seq<Draft>, b: seq<Draft>, between: Pos, p: Pos)
    requires UpTo(a, between) && Precedes(between, p) && UpTo(b, p)
    ensures UpTo(a + b, p)
  {
  }

  /** What two descending parts make together. */
  lemma Joined(a: seq<Draft>, b: seq<Draft>, between: Pos)
    requires Descending(a) && Descending(b) && UpTo(a, between)
    requires forall i :: 0 <= i < |b| ==> Precedes(between, PosOf(b[i]))
    ensures Descending(a + b)
  {
    forall i, j | 0 <= i < j < |a + b| ensures Precedes(PosOf((a + b)[i]), PosOf((a + b)[j])) {
      if i < |a| <= j {
        assert AtOrBefore(PosOf(a[i]), between) && Precedes(between, PosOf(b[j - |a|]));
      }
    }
  }

  /** Over any walk, whatever happens to the table between its pages, drafts come in strictly descending
      order of creation and ID, so no draft comes twice, and all lie at or before the next cursor. */
  lemma {:induction false} WalkDescends(tables: seq<Table>, v: Viewer, limit: nat, pages: seq<Page>)
    requires IsWalk(tables, v, limit, pages)
    ensures Descending(Items(pages))
    ensures CursorAfter(pages).Some? ==> UpTo(Items(pages), CursorAfter(pages).value)
    decreases |pages|
  {
    if pages != [] {
      var last := |pages| - 1;
      WalkDescends(tables[..last], v, limit, pages[..last]);
      var before, page, from := Items(pages[..last]), pages[last], From(CursorAfter(pages[..last]));
      assert last == 0 ==> before == [];
      assert forall i :: 0 <= i < |page.items| ==> Listed(tables[last], v, from, page.items[i]);
      Joined(before, page.items, from);
      if page.next.Some? {
        PageEndsAtCursor(tables[last], v, CursorAfter(pages[..last]), limit, page);
        JoinedUpTo(before, page.items, from, page.next.value);
      }
    }
  }

  lemma PageEndsAtCursor(t: Table, v: Viewer, cursor: Option<Pos>, limit: nat, page: Page)
    requires IsPage(t, v, cursor, limit, page) && page.next.Some?
    ensures Precedes(From(cursor), page.next.value)
    ensures UpTo(page.items, page.next.value)
  {
    assert Listed(t, v, From(cursor), page.items[limit - 1]);
  }

  /** Whether a draft may be listed at every page of the walk. */
  ghost predicate VisibleThroughout(tables: seq<Table>, v: Viewer, id: Uuid, created: Nanos)
  {
    forall i :: 0 <= i < |tables| ==> id in tables[i] && tables[i][id].id == id && tables[i][id].created == created && MayList(v, tables[i][id])
  }

  ghost predicate Returned(pages: seq<Page>, id: Uuid, created: Nanos)
  {
    exists k :: 0 <= k < |Items(pages)| && PosOf(Items(pages)[k]) == Pos(created, id)
  }

  /** On one page, a draft beyond the cursor is returned or lies beyond the next cursor. */
  lemma PageSkipsNothing(t: Table, v: Viewer, cursor: Option<Pos>, limit: nat, page: Page, d: Draft)
    requires IsPage(t, v, cursor, limit, page) && Listed(t, v, From(cursor), d) && d !in page.items
    ensures page.next.Some? && Precedes(page.next.value, PosOf(d))
  {
    assert Precedes(PosOf(page.items[limit - 1]), PosOf(d));
  }

  lemma ReturnedStays(pages: seq<Page>, id: Uuid, created: Nanos)
    requires pages != [] && Returned(pages[..|pages| - 1], id, created)
    ensures Returned(pages, id, created)
  {
    var before := Items(pages[..|pages| - 1]);
    var k :| 0 <= k < |before| && PosOf(before[k]) == Pos(created, id);
    assert Items(pages)[k] == before[k];
  }

  lemma ReturnedHere(pages: seq<Page>, d: Draft)
    requires pages != [] && d in pages[|pages| - 1].items
    ensures Returned(pages, d.id, d.created)
  {
    var before, items := Items(pages[..|pages| - 1]), pages[|pages| - 1].items;
    var k :| 0 <= k < |items| && items[k] == d;
    assert Items(pages)[|before| + k] == d;
  }

  /** A draft visible throughout is never skipped: it has been returned or still lies ahead. */
  lemma {:induction false} WalkSkipsNothing(
      tables: seq<Table>, v: Viewer, limit: nat, pages: seq<Page>, id: Uuid, created: Nanos)
    requires IsWalk(tables, v, limit, pages) && VisibleThroughout(tables, v, id, created)
    requires Precedes(Start, Pos(created, id))
    ensures Returned(pages, id, created) || pages == [] ||
            (CursorAfter(pages).Some? && Precedes(CursorAfter(pages).value, Pos(created, id)))
    decreases |pages|
  {
    if pages != [] {
      var last := |pages| - 1;
      WalkSkipsNothing(tables[..last], v, limit, pages[..last], id, created);
      if Returned(pages[..last], id, created) {
        ReturnedStays(pages, id, created);
      } else {
        var t, cursor, d := tables[last], CursorAfter(pages[..last]), tables[last][id];
        assert Listed(t, v, From(cursor), d);
        if d in pages[last].items {
          ReturnedHere(pages, d);
        } else {
          PageSkipsNothing(t, v, cursor, limit, pages[last], d);
        }
      }
    }
  }

  /** No walk returns anything at or before the place it starts from. */
  lemma {:induction false} NothingBeforeStart(tables: seq<Table>, v: Viewer, limit: nat, pages: seq<Page>, k: nat)
    requires IsWalk(tables, v, limit, pages) && k < |Items(pages)|
    ensures Precedes(Start, PosOf(Items(pages)[k]))
    decreases |pages|
  {
    var last := |pages| - 1;
    var before := Items(pages[..last]);
    if k < |before| {
      NothingBeforeStart(tables[..last], v, limit, pages[..last], k);
    } else {
      var from, d := From(CursorAfter(pages[..last])), pages[last].items[k - |before|];
      assert Listed(tables[last], v, from, d);
      if last > 0 {
        CursorsAreBeyondStart(tables[..last], v, limit, pages[..last]);
      }
    }
  }

  lemma {:induction false} CursorsAreBeyondStart(tables: seq<Table>, v: Viewer, limit: nat, pages: seq<Page>)
    requires IsWalk(tables, v, limit, pages) && CursorAfter(pages).Some?
    ensures Precedes(Start, CursorAfter(pages).value)
    decreases |pages|
  {
    var last := |pages| - 1;
    PageEndsAtCursor(tables[last], v, CursorAfter(pages[..last]), limit, pages[last]);
    if last > 0 {
      CursorsAreBeyondStart(tables[..last], v, limit, pages[..last]);
    }
  }

  /** A finished walk returns a draft that was visible throughout exactly once, unless the draft sits at the
      very place the walk starts from, which it never returns. */
  lemma FinishedWalkReturnsIff(tables: seq<Table>, v: Viewer, limit: nat, pages: seq<Page>, id: Uuid, created: Nanos)
    requires IsWalk(tables, v, limit, pages) && pages != [] && CursorAfter(pages).None?
    requires VisibleThroughout(tables, v, id, created)
    ensures Returned(pages, id, created) <==> Pos(created, id) != Start
    ensures forall j, k :: 0 <= j < k < |Items(pages)| ==> PosOf(Items(pages)[j]) != PosOf(Items(pages)[k])
  {
    WalkDescends(tables, v, limit, pages);
    if Pos(created, id) != Start {
      WalkSkipsNothing(tables, v, limit, pages, id, created);
    } else if Returned(pages, id, created) {
      var k :| 0 <= k < |Items(pages)| && PosOf(Items(pages)[k]) == Pos(created, id);
      NothingBeforeStart(tables, v, limit, pages, k);
    }
  }

  /** The version that a UUID states (section 4.1.3 of RFC 4122). */
  function Version(id: Uuid): int
  {
    id / 0x1000_0000_0000_0000_0000 % 16
  }

  /** No draft made here sits there: its ID is of version 4, and the place the walk starts from has none. So every
      draft made here that is visible throughout is returned exactly once. */
  lemma MadeDraftsAreReturned(tables: seq<Table>, v: Viewer, limit: nat, pages: seq<Page>, id: Uuid, created: Nanos)
    requires IsWalk(tables, v, limit, pages) && pages != [] && CursorAfter(pages).None?
    requires VisibleThroughout(tables, v, id, created) && Version(id) == 4
    ensures Returned(pages, id, created)
    ensures forall j, k :: 0 <= j < k < |Items(pages)| ==> PosOf(Items(pages)[j]) != PosOf(Items(pages)[k])
  {
    assert Version(Start.id) == 15;
    FinishedWalkReturnsIff(tables, v, limit, pages, id, created);
  }

  /** A draft that did sit there would be missed: a table with no other gives one empty page and no cursor. */
  lemma DraftAtTheStartIsMissed(v: Viewer, limit: nat)
    ensures var t: Table := map[Start.id := Draft(Start.id, v.subject, Drafting, Start.created, "")];
      && IsWalk([t], v, limit, [Page([], None)]) && VisibleThroughout([t], v, Start.id, Start.created)
      && !Returned([Page([], None)], Start.id, Start.created)
  {
    var t: Table := map[Start.id := Draft(Start.id, v.subject, Drafting, Start.created, "")];
    var pages := [Page([], None)];
    assert pages[..0] == [] && [t][..0] == [];
    assert IsWalk([], v, limit, []);
    assert Items(pages) == [];
  }

  // ----- an unchanged table -----

  predicate Unchanging(tables: seq<Table>, t: Table)
  {
    forall i :: 0 <= i < |tables| ==> tables[i] == t
  }

  function Ids(rows: seq<Draft>): set<Uuid>
  {
    set i | 0 <= i < |rows| :: rows[i].id
  }

  lemma {:induction false} DescendingIdsAreDistinct(t: Table, rows: seq<Draft>)
    requires Descending(rows) && forall i :: 0 <= i < |rows| ==> rows[i].id in t && t[rows[i].id] == rows[i]
    ensures |Ids(rows)| == |rows| && Ids(rows) <= t.Keys
    decreases |rows|
  {
    if rows != [] {
      var last, before := rows[|rows| - 1], rows[..|rows| - 1];
      DescendingIdsAreDistinct(t, before);
      assert Ids(rows) == Ids(before) + {last.id};
      forall i | 0 <= i < |before| ensures before[i].id != last.id {
        assert Precedes(PosOf(rows[i]), PosOf(last)) && rows[i] == t[before[i].id];
      }
    }
  }

  lemma {:induction false} ItemsAreListed(tables: seq<Table>, t: Table, v: Viewer, limit: nat, pages: seq<Page>, k: nat)
    requires IsWalk(tables, v, limit, pages) && Unchanging(tables, t) && k < |Items(pages)|
    ensures Items(pages)[k].id in t && t[Items(pages)[k].id] == Items(pages)[k] && MayList(v, Items(pages)[k])
    decreases |pages|
  {
    var last := |pages| - 1;
    var before := Items(pages[..last]);
    if k < |before| {
      ItemsAreListed(tables[..last], t, v, limit, pages[..last], k);
    } else {
      assert Listed(tables[last], v, From(CursorAfter(pages[..last])), pages[last].items[k - |before|]);
    }
  }

  lemma {:induction false} FullPagesAddUp(tables: seq<Table>, v: Viewer, limit: nat, pages: seq<Page>)
    requires IsWalk(tables, v, limit, pages) && CursorAfter(pages).Some?
    ensures |Items(pages)| == |pages| * limit && limit > 0
    decreases |pages|
  {
    var last := |pages| - 1;
    if last > 0 {
      FullPagesAddUp(tables[..last], v, limit, pages[..last]);
    }
    assert |pages| * limit == last * limit + limit;
  }

  /** On a table nobody changes a walk ends: while there is a next cursor, the pages have used up `limit`
      different drafts each. */
  lemma UnchangedWalkEnds(tables: seq<Table>, t: Table, v: Viewer, limit: nat, pages: seq<Page>)
    requires IsWalk(tables, v, limit, pages) && Unchanging(tables, t) && CursorAfter(pages).Some?
    ensures |pages| <= |pages| * limit <= |t|
  {
    WalkDescends(tables, v, limit, pages);
    forall k | 0 <= k < |Items(pages)| ensures Items(pages)[k].id in t && t[Items(pages)[k].id] == Items(pages)[k] {
      ItemsAreListed(tables, t, v, limit, pages, k);
    }
    DescendingIdsAreDistinct(t, Items(pages));
    FullPagesAddUp(tables, v, limit, pages);
    SmallerSet(Ids(Items(pages)), t.Keys);
    assert |pages| * limit >= |pages| * 1;
  }

  lemma SmallerSet(a: set<Uuid>, b: set<Uuid>)
    requires a <= b
    ensures |a| <= |b|
  {
    assert b == a + (b - a);
  }

  /** And whatever the page size, it has then listed exactly the drafts the viewer may list. */
  lemma UnchangedWalkListsAll(tables: seq<Table>, t: Table, v: Viewer, limit: nat, pages: seq<Page>, d: Draft)
    requires IsWalk(tables, v, limit, pages) && Unchanging(tables, t) && pages != [] && CursorAfter(pages).None?
    requires WellKeyed(t)
    ensures d in Items(pages) <==> d.id in t && t[d.id] == d && MayList(v, d) && PosOf(d) != Start
  {
    if d in Items(pages) {
      var k :| 0 <= k < |Items(pages)| && Items(pages)[k] == d;
      ItemsAreListed(tables, t, v, limit, pages, k);
      NothingBeforeStart(tables, v, limit, pages, k);
    } else if d.id in t && t[d.id] == d && MayList(v, d) && PosOf(d) != Start {
      FinishedWalkReturnsIff(tables, v, limit, pages, d.id, d.created);
      var k :| 0 <= k < |Items(pages)| && PosOf(Items(pages)[k]) == PosOf(d);
      ItemsAreListed(tables, t, v, limit, pages, k);
      assert false;
    }
  }

  /** Whose drafts a viewer gets to see: each user's own in any state, and an administrator those of others that have
      been submitted or approved, and nobody else's. */
  lemma WalkShowsWhose(tables: seq<Table>, t: Table, v: Viewer, limit: nat, pages: seq<Page>, d: Draft)
    requires IsWalk(tables, v, limit, pages) && Unchanging(tables, t) && pages != [] && CursorAfter(pages).None?
    requires WellKeyed(t) && d.id in t && t[d.id] == d && Version(d.id) == 4
    ensures d.owner == v.subject ==> d in Items(pages)
    ensures d.owner != v.subject && v.admin ==> (d in Items(pages) <==> d.state == Submitted || d.state == Approved)
    ensures d.owner != v.subject && !v.admin ==> d !in Items(pages)
  {
    assert Version(Start.id) == 15;
    UnchangedWalkListsAll(tables, t, v, limit, pages, d);
  }

  /** The newest first: of two drafts returned the one made later comes first, and of two made at one instant the one
      with the larger ID. */
  lemma WalkIsNewestFirst(tables: seq<Table>, v: Viewer, limit: nat, pages: seq<Page>, j: nat, k: nat)
    requires IsWalk(tables, v, limit, pages) && j < k < |Items(pages)|
    ensures Items(pages)[j].created >= Items(pages)[k].created
    ensures Items(pages)[j].created == Items(pages)[k].created ==> Items(pages)[j].id > Items(pages)[k].id
  {
    WalkDescends(tables, v, limit, pages);
    assert Precedes(PosOf(Items(pages)[j]), PosOf(Items(pages)[k]));
  }

  // ----- the query has an answer -----

  /** The draft of s that comes first. */
  lemma {:induction false} FirstOf(s: set<Draft>) returns (d: Draft)
    requires s != {} && forall a, b :: a in s && b in s && a != b ==> a.id != b.id
    ensures d in s && forall e :: e in s && e != d ==> Precedes(PosOf(d), PosOf(e))
    decreases |s|
  {
    d :| d in s;
    var rest := s - {d};
    assert forall e :: e in s && e != d ==> e in rest;
    if rest != {} {
      var first := FirstOf(rest);
      if Precedes(PosOf(first), PosOf(d)) {
        d := first;
      }
    }
  }

  /** For every table, viewer, place and size there are rows the query selects. */
  lemma {:induction false} QueryHasAnAnswer(t: Table, v: Viewer, from: Pos, n: nat) returns (rows: seq<Draft>)
    requires WellKeyed(t)
    ensures Selects(t, v, from, n, rows)
    decreases n
  {
    rows := [];
    if n > 0 {
      var before := QueryHasAnAnswer(t, v, from, n - 1);
      var rest := set id | id in t && Listed(t, v, from, t[id]) && t[id] !in before :: t[id];
      if rest == {} {
        rows := before;
        NoneLeft(t, v, from, n - 1, before, rest);
      } else {
        var d := FirstOf(rest);
        rows := before + [d];
        OneMoreRow(t, v, from, n - 1, before, rest, d);
      }
    }
  }

  lemma NoneLeft(t: Table, v: Viewer, from: Pos, n: nat, rows: seq<Draft>, rest: set<Draft>)
    requires Selects(t, v, from, n, rows) && WellKeyed(t)
    requires rest == (set id | id in t && Listed(t, v, from, t[id]) && t[id] !in rows :: t[id]) && rest == {}
    ensures Selects(t, v, from, n + 1, rows)
  {
    assert forall d :: Listed(t, v, from, d) && d !in rows ==> t[d.id] in rest;
  }

  lemma OneMoreRow(t: Table, v: Viewer, from: Pos, n: nat, rows: seq<Draft>, rest: set<Draft>, d: Draft)
    requires Selects(t, v, from, n, rows) && WellKeyed(t)
    requires rest == set id | id in t && Listed(t, v, from, t[id]) && t[id] !in rows :: t[id]
    requires d in rest && forall e :: e in rest && e != d ==> Precedes(PosOf(d), PosOf(e))
    ensures Selects(t, v, from, n + 1, rows + [d])
  {
    var more := rows + [d];
    assert Listed(t, v, from, d) && d !in rows;
    forall e | Listed(t, v, from, e) && e !in more
      ensures |more| == n + 1 && forall i :: 0 <= i < |more| ==> Precedes(PosOf(more[i]), PosOf(e))
    {
      assert e !in rows && e != d;
      assert t[e.id] in rest;
    }
  }
}
