/** The in-memory persistence (in-memory.ts): rows in insertion order, loaded by sort order. */
module Persistence {
  import opened Wrappers
  import opened StoreTypes

  datatype Db = Db(profiles: seq<Profile>, spaces: seq<SpaceRow>, tabs: seq<TabRow>)

  // ---------- one table ----------

  /** `Map.set` on a table in insertion order: an existing row keeps its place, a new one goes last. */
  function SetBy<R>(rows: seq<R>, row: R, idOf: R -> string): seq<R> {
    if rows == [] then [row]
    else if idOf(rows[0]) == idOf(row) then [row] + rows[1..]
    else [rows[0]] + SetBy(rows[1..], row, idOf)
  }

  function DeleteBy<R>(rows: seq<R>, id: string, idOf: R -> string): seq<R> {
    if rows == [] then []
    else (if idOf(rows[0]) == id then [] else [rows[0]]) + DeleteBy(rows[1..], id, idOf)
  }

  /** `Map.get`. */
  function GetBy<R>(rows: seq<R>, id: string, idOf: R -> string): Option<R> {
    if rows == [] then None
    else if idOf(rows[0]) == id then Some(rows[0])
    else GetBy(rows[1..], id, idOf)
  }

  function KeysBy<R>(rows: seq<R>, idOf: R -> string): seq<string> {
    seq(|rows|, k requires 0 <= k < |rows| => idOf(rows[k]))
  }

  /** Saving a row is what the next lookups see, under its id only, and keeps the order of the keys. */
  lemma {:induction false} SetThenGet<R>(rows: seq<R>, row: R, idOf: R -> string, id: string)
    ensures GetBy(SetBy(rows, row, idOf), id, idOf) == if id == idOf(row) then Some(row) else GetBy(rows, id, idOf)
    ensures KeysBy(SetBy(rows, row, idOf), idOf) ==
            if idOf(row) in KeysBy(rows, idOf) then KeysBy(rows, idOf) else KeysBy(rows, idOf) + [idOf(row)]
  {
    if rows != [] {
      assert rows == [rows[0]] + rows[1..];
      KeysOfCons(rows[0], rows[1..], idOf);
      if idOf(rows[0]) == idOf(row) {
        KeysOfCons(row, rows[1..], idOf);
      } else {
        SetThenGet(rows[1..], row, idOf, id);
        KeysOfCons(rows[0], SetBy(rows[1..], row, idOf), idOf);
      }
    }
  }

  lemma KeysOfCons<R>(row: R, rows: seq<R>, idOf: R -> string)
    ensures KeysBy([row] + rows, idOf) == [idOf(row)] + KeysBy(rows, idOf)
  {
  }

  /** Deleting an id loses its rows and no other. */
  lemma {:induction false} DeleteThenGet<R>(rows: seq<R>, gone: string, idOf: R -> string, id: string)
    ensures GetBy(DeleteBy(rows, gone, idOf), id, idOf) == if id == gone then None else GetBy(rows, id, idOf)
  {
    if rows != [] {
      var rest := DeleteBy(rows[1..], gone, idOf);
      DeleteThenGet(rows[1..], gone, idOf, id);
      assert [] + rest == rest && ([rows[0]] + rest)[1..] == rest;
    }
  }

  function TabRowId(row: TabRow): string {
    row.id
  }

  function SpaceRowId(row: SpaceRow): string {
    row.id
  }

  function ProfileId(row: Profile): string {
    row.id
  }

  predicate HasTab(rows: seq<TabRow>, id: string) {
    exists k :: 0 <= k < |rows| && rows[k].id == id
  }

  function SetTab(rows: seq<TabRow>, row: TabRow): (rows': seq<TabRow>)
    ensures !HasTab(rows, row.id) ==> rows' == rows + [row]
  {
    NewGoesLast(rows, row, TabRowId);
    SetBy(rows, row, TabRowId)
  }

  function SetSpace(rows: seq<SpaceRow>, row: SpaceRow): (rows': seq<SpaceRow>)
    ensures (forall r | r in rows :: r.id != row.id) ==> rows' == rows + [row]
  {
    NewGoesLast(rows, row, SpaceRowId);
    SetBy(rows, row, SpaceRowId)
  }

  function SetProfile(rows: seq<Profile>, row: Profile): (rows': seq<Profile>)
    ensures (forall r | r in rows :: r.id != row.id) ==> rows' == rows + [row]
  {
    NewGoesLast(rows, row, ProfileId);
    SetBy(rows, row, ProfileId)
  }

  lemma {:induction false} NewGoesLast<R>(rows: seq<R>, row: R, idOf: R -> string)
    ensures (forall k | 0 <= k < |rows| :: idOf(rows[k]) != idOf(row)) ==> SetBy(rows, row, idOf) == rows + [row]
  {
    if rows != [] {
      NewGoesLast(rows[1..], row, idOf);
      assert rows == [rows[0]] + rows[1..];
    }
  }

  function RetitleRow(rows: seq<TabRow>, id: string, title: string): seq<TabRow> {
    seq(|rows|, k requires 0 <= k < |rows| => if rows[k].id == id then rows[k].(title := title) else rows[k])
  }

  function SetRowSession(rows: seq<TabRow>, id: string, session: string): seq<TabRow> {
    seq(|rows|, k requires 0 <= k < |rows| =>
      if rows[k].id == id then rows[k].(agentSessionId := Some(session)) else rows[k])
  }

  lemma KeysStay<R>(rows: seq<R>, rows': seq<R>, idOf: R -> string)
    requires |rows'| == |rows| && forall k | 0 <= k < |rows| :: idOf(rows'[k]) == idOf(rows[k])
    ensures KeysBy(rows', idOf) == KeysBy(rows, idOf)
  {
  }

  /** An edited table: what lookups see, and that every row keeps its place. */
  lemma {:induction false} RetitleThenGet(rows: seq<TabRow>, edited: string, title: string, id: string)
    ensures var before, after := GetBy(rows, id, TabRowId), GetBy(RetitleRow(rows, edited, title), id, TabRowId);
            after == if id == edited && before.Some? then Some(before.value.(title := title)) else before
    ensures KeysBy(RetitleRow(rows, edited, title), TabRowId) == KeysBy(rows, TabRowId)
  {
    if rows != [] {
      RetitleThenGet(rows[1..], edited, title, id);
      assert RetitleRow(rows, edited, title)[1..] == RetitleRow(rows[1..], edited, title);
    }
    KeysStay(rows, RetitleRow(rows, edited, title), TabRowId);
  }

  lemma {:induction false} SetSessionThenGet(rows: seq<TabRow>, edited: string, session: string, id: string)
    ensures var before, after := GetBy(rows, id, TabRowId), GetBy(SetRowSession(rows, edited, session), id, TabRowId);
            after == if id == edited
                && before.Some? then Some(before.value.(agentSessionId := Some(session))) else before
    ensures KeysBy(SetRowSession(rows, edited, session), TabRowId) == KeysBy(rows, TabRowId)
  {
    if rows != [] {
      SetSessionThenGet(rows[1..], edited, session, id);
      assert SetRowSession(rows, edited, session)[1..] == SetRowSession(rows[1..], edited, session);
    }
    KeysStay(rows, SetRowSession(rows, edited, session), TabRowId);
  }

  function SetOrder(rows: seq<TabRow>, spaceId: string, id: string, order: nat): seq<TabRow> {
    seq(|rows|, k requires 0 <= k < |rows| =>
      if rows[k].id == id && rows[k].spaceId == spaceId then rows[k].(sortOrder := order) else rows[k])
  }

  /** Each listed tab of the space gets its place in the list; other ids are ignored. */
  function Reordered(rows: seq<TabRow>, spaceId: string, ids: seq<string>): seq<TabRow> {
    if ids == [] then rows
    else SetOrder(Reordered(rows, spaceId, ids[..|ids| - 1]), spaceId, ids[|ids| - 1], |ids| - 1)
  }

  function DeleteRow(rows: seq<TabRow>, id: string): seq<TabRow> {
    DeleteBy(rows, id, TabRowId)
  }

  lemma {:induction false} SetTabIds(rows: seq<TabRow>, row: TabRow, id: string)
    ensures HasTab(SetTab(rows, row), id) <==> HasTab(rows, id) || id == row.id
  {
    if rows != [] {
      HasTabCons(rows[0], rows[1..], id);
      if rows[0].id == row.id {
        HasTabCons(row, rows[1..], id);
      } else {
        SetTabIds(rows[1..], row, id);
        HasTabCons(rows[0], SetTab(rows[1..], row), id);
      }
    } else {
      HasTabCons(row, [], id);
    }
  }

  lemma {:induction false} DeleteRowIds(rows: seq<TabRow>, gone: string, id: string)
    ensures HasTab(DeleteRow(rows, gone), id) <==> HasTab(rows, id) && id != gone
  {
    if rows != [] {
      DeleteRowIds(rows[1..], gone, id);
      HasTabCons(rows[0], rows[1..], id);
      HasTabCons(rows[0], DeleteRow(rows[1..], gone), id);
    }
  }

  lemma HasTabCons(row: TabRow, rows: seq<TabRow>, id: string)
    ensures HasTab([row] + rows, id) <==> row.id == id || HasTab(rows, id)
    ensures rows == [] ==> [row] + rows == [row]
    ensures HasTab([] + rows, id) <==> HasTab(rows, id)
  {
    var all := [row] + rows;
    assert all[0] == row && forall k | 0 <= k < |rows| :: all[k + 1] == rows[k];
    assert [] + rows == rows;
  }

  lemma EditedRowIds(rows: seq<TabRow>, rows': seq<TabRow>, id: string)
    requires |rows'| == |rows| && forall k | 0 <= k < |rows| :: rows'[k].id == rows[k].id
    ensures HasTab(rows', id) <==> HasTab(rows, id)
  {
  }

  // ---------- the stable sort ----------

  /** Puts a row before the first one with a greater order, that is, after its equals. */
  function Insert(row: TabRow, sorted: seq<TabRow>): seq<TabRow> {
    if sorted == [] || row.sortOrder < sorted[0].sortOrder then [row] + sorted
    else [sorted[0]] + Insert(row, sorted[1..])
  }

  function StableSort(rows: seq<TabRow>): seq<TabRow> {
    if rows == [] then [] else Insert(rows[|rows| - 1], StableSort(rows[..|rows| - 1]))
  }

  predicate Ascending(rows: seq<TabRow>) {
    forall i, j | 0 <= i < j < |rows| :: rows[i].sortOrder <= rows[j].sortOrder
  }

  function OfSpace(rows: seq<TabRow>, spaceId: string): seq<TabRow> {
    if rows == [] then []
    else OfSpace(rows[..|rows| - 1], spaceId) + (if rows[|rows| - 1].spaceId == spaceId then [rows[|rows| - 1]] else [])
  }

  lemma {:induction false} InsertAdds(row: TabRow, sorted: seq<TabRow>)
    ensures multiset(Insert(row, sorted)) == multiset(sorted) + multiset{row}
  {
    if sorted != [] && row.sortOrder >= sorted[0].sortOrder {
      InsertAdds(row, sorted[1..]);
      assert sorted == [sorted[0]] + sorted[1..];
    }
  }

  lemma {:induction false} InsertKeepsAscending(row: TabRow, sorted: seq<TabRow>)
    requires Ascending(sorted)
    ensures Ascending(Insert(row, sorted))
    ensures Insert(row, sorted)[0] == if sorted == [] || row.sortOrder < sorted[0].sortOrder then row else sorted[0]
  {
    if sorted != [] && row.sortOrder >= sorted[0].sortOrder {
      InsertKeepsAscending(row, sorted[1..]);
      AscendingCons(sorted[0], Insert(row, sorted[1..]));
    }
  }

  lemma AscendingCons(row: TabRow, rows: seq<TabRow>)
    requires Ascending(rows) && (rows != [] ==> row.sortOrder <= rows[0].sortOrder)
    ensures Ascending([row] + rows)
  {
  }

  lemma {:induction false} InsertLast(row: TabRow, sorted: seq<TabRow>)
    requires forall k | 0 <= k < |sorted| :: sorted[k].sortOrder <= row.sortOrder
    ensures Insert(row, sorted) == sorted + [row]
  {
    if sorted != [] {
      InsertLast(row, sorted[1..]);
    }
  }

  /** The load is a permutation of the rows in ascending order. */
  lemma {:induction false} StableSortSorts(rows: seq<TabRow>)
    ensures Ascending(StableSort(rows))
    ensures multiset(StableSort(rows)) == multiset(rows)
  {
    if rows != [] {
      StableSortSorts(rows[..|rows| - 1]);
      InsertKeepsAscending(rows[|rows| - 1], StableSort(rows[..|rows| - 1]));
      InsertAdds(rows[|rows| - 1], StableSort(rows[..|rows| - 1]));
      assert rows == rows[..|rows| - 1] + [rows[|rows| - 1]];
    }
  }

  /** Rows are left in place exactly when they are in ascending order already. */
  lemma {:induction false} SortedIffAscending(rows: seq<TabRow>)
    ensures StableSort(rows) == rows <==> Ascending(rows)
  {
    StableSortSorts(rows);
    if rows != [] && Ascending(rows) {
      var front, last := rows[..|rows| - 1], rows[|rows| - 1];
      SortedIffAscending(front);
      InsertLast(last, front);
    }
  }

  lemma {:induction false} OfSpaceCons(row: TabRow, rows: seq<TabRow>, spaceId: string)
    ensures OfSpace([row] + rows, spaceId) == (if row.spaceId == spaceId then [row] else []) + OfSpace(rows, spaceId)
  {
    if rows == [] {
      assert [row] + rows == [row];
      assert [row][..0] == [];
    } else {
      var n := |rows| - 1;
      assert ([row] + rows)[..n + 1] == [row] + rows[..n];
      OfSpaceCons(row, rows[..n], spaceId);
    }
  }

  lemma InsertPast(row: TabRow, first: TabRow, rest: seq<TabRow>)
    requires row.sortOrder >= first.sortOrder
    ensures Insert(row, [first] + rest) == [first] + Insert(row, rest)
  {
    assert ([first] + rest)[1..] == rest;
  }

  lemma {:induction false} InsertCommutes(row: TabRow, sorted: seq<TabRow>, spaceId: string)
    requires Ascending(sorted)
    ensures OfSpace(Insert(row, sorted), spaceId)
            == if row.spaceId == spaceId then Insert(row, OfSpace(sorted, spaceId)) else OfSpace(sorted, spaceId)
  {
    if sorted == [] || row.sortOrder < sorted[0].sortOrder {
      OfSpaceCons(row, sorted, spaceId);
      InsertBeforeAll(row, sorted, spaceId);
    } else {
      var rest := sorted[1..];
      InsertCommutes(row, rest, spaceId);
      assert sorted == [sorted[0]] + rest;
      OfSpaceCons(sorted[0], rest, spaceId);
      OfSpaceCons(sorted[0], Insert(row, rest), spaceId);
      InsertPast(row, sorted[0], OfSpace(rest, spaceId));
      assert [] + OfSpace(Insert(row, rest), spaceId) == OfSpace(Insert(row, rest), spaceId);
      assert [] + OfSpace(rest, spaceId) == OfSpace(rest, spaceId);
    }
  }

  lemma {:induction false} OfSpaceIsPart(rows: seq<TabRow>, spaceId: string)
    ensures forall r | r in OfSpace(rows, spaceId) :: r in rows
  {
    if rows != [] {
      OfSpaceIsPart(rows[..|rows| - 1], spaceId);
    }
  }

  lemma InsertBeforeAll(row: TabRow, sorted: seq<TabRow>, spaceId: string)
    requires Ascending(sorted) && (sorted == [] || row.sortOrder < sorted[0].sortOrder)
    ensures Insert(row, OfSpace(sorted, spaceId)) == [row] + OfSpace(sorted, spaceId)
  {
    OfSpaceIsPart(sorted, spaceId);
    var part := OfSpace(sorted, spaceId);
    if part != [] {
      assert part[0] in part;
      var k :| 0 <= k < |sorted| && sorted[k] == part[0];
      assert sorted[0].sortOrder <= sorted[k].sortOrder;
    }
  }

  lemma SortSnoc(rows: seq<TabRow>, row: TabRow)
    ensures StableSort(rows + [row]) == Insert(row, StableSort(rows))
  {
    assert (rows + [row])[..|rows|] == rows;
  }

  /** Sorting the whole table sorts each space's rows among themselves. */
  lemma {:induction false} SortCommutes(rows: seq<TabRow>, spaceId: string)
    ensures OfSpace(StableSort(rows), spaceId) == StableSort(OfSpace(rows, spaceId))
  {
    if rows != [] {
      var front, last := rows[..|rows| - 1], rows[|rows| - 1];
      SortCommutes(front, spaceId);
      StableSortSorts(front);
      InsertCommutes(last, StableSort(front), spaceId);
      if last.spaceId == spaceId {
        SortSnoc(OfSpace(front, spaceId), last);
      } else {
        assert OfSpace(front, spaceId) + [] == OfSpace(front, spaceId);
      }
    }
  }

  // ---------- distinct ids ----------

  predicate DistinctIds(rows: seq<TabRow>) {
    forall i, j | 0 <= i < j < |rows| :: rows[i].id != rows[j].id
  }

  lemma LoadedIdsAreNew(rows: seq<TabRow>, taken: set<string>)
    requires forall k | 0 <= k < |rows| :: rows[k].id !in taken
    requires forall i, j | 0 <= i < j < |rows| :: rows[i].id != rows[j].id
    ensures forall k | 0 <= k < |StableSort(rows)| :: StableSort(rows)[k].id !in taken
    ensures forall i, j | 0 <= i < j < |StableSort(rows)| :: StableSort(rows)[i].id != StableSort(rows)[j].id
  {
    var sorted := StableSort(rows);
    StableSortSorts(rows);
    forall k | 0 <= k < |sorted| ensures sorted[k].id !in taken {
      assert sorted[k] in multiset(sorted);
      assert sorted[k] in rows;
    }
    DistinctIdsSurvive(rows, sorted);
  }

  lemma DistinctIdsSurvive(rows: seq<TabRow>, sorted: seq<TabRow>)
    requires multiset(sorted) == multiset(rows)
    requires forall i, j | 0 <= i < j < |rows| :: rows[i].id != rows[j].id
    ensures forall i, j | 0 <= i < j < |sorted| :: sorted[i].id != sorted[j].id
  {
    forall i, j | 0 <= i < j < |sorted| ensures sorted[i].id != sorted[j].id {
      if sorted[i].id == sorted[j].id {
        assert sorted[i] in multiset(rows) && sorted[j] in multiset(rows);
        var p :| 0 <= p < |rows| && rows[p] == sorted[i];
        var q :| 0 <= q < |rows| && rows[q] == sorted[j];
        assert p == q;
        TwiceIn(sorted, i, j);
        OnceIn(rows, p);
      }
    }
  }

  lemma TwiceIn(rows: seq<TabRow>, i: nat, j: nat)
    requires i < j < |rows| && rows[i] == rows[j]
    ensures multiset(rows)[rows[i]] >= 2
  {
    assert rows == rows[..j] + rows[j..];
    assert rows[i] in rows[..j] && rows[j] in rows[j..];
    assert rows[..j][i] == rows[i] && rows[j..][0] == rows[j];
  }

  lemma {:induction false} OnceIn(rows: seq<TabRow>, p: nat)
    requires p < |rows| && forall i, j | 0 <= i < j < |rows| :: rows[i].id != rows[j].id
    ensures multiset(rows)[rows[p]] == 1
  {
    assert rows == [rows[0]] + rows[1..];
    if p > 0 {
      assert rows[0].id != rows[p].id;
      OnceIn(rows[1..], p - 1);
    } else {
      forall k | 0 < k < |rows| ensures rows[k] != rows[0] {
        assert rows[0].id != rows[k].id;
      }
      assert rows[0] !in rows[1..];
    }
  }

  lemma {:induction false} OfSpaceKeepsDistinct(rows: seq<TabRow>, spaceId: string)
    requires forall i, j | 0 <= i < j < |rows| :: rows[i].id != rows[j].id
    ensures forall i, j | 0 <= i < j < |OfSpace(rows, spaceId)| ::
              OfSpace(rows, spaceId)[i].id != OfSpace(rows, spaceId)[j].id
  {
    if rows != [] {
      var front := rows[..|rows| - 1];
      OfSpaceKeepsDistinct(front, spaceId);
      OfSpaceIsPart(front, spaceId);
      forall r | r in OfSpace(front, spaceId) ensures r.id != rows[|rows| - 1].id {
        var k :| 0 <= k < |front| && front[k] == r;
        assert rows[k] == r;
      }
    }
  }

  // ---------- spaces ----------

  /** The space rows, which are sorted the same way. */
  function InsertSpace(row: SpaceRow, sorted: seq<SpaceRow>): seq<SpaceRow> {
    if sorted == [] || row.sortOrder < sorted[0].sortOrder then [row] + sorted
    else [sorted[0]] + InsertSpace(row, sorted[1..])
  }

  function SortSpaces(rows: seq<SpaceRow>): seq<SpaceRow> {
    if rows == [] then [] else InsertSpace(rows[|rows| - 1], SortSpaces(rows[..|rows| - 1]))
  }

  lemma {:induction false} InsertSpaceAdds(row: SpaceRow, sorted: seq<SpaceRow>)
    ensures multiset(InsertSpace(row, sorted)) == multiset(sorted) + multiset{row}
  {
    if sorted != [] && row.sortOrder >= sorted[0].sortOrder {
      InsertSpaceAdds(row, sorted[1..]);
      assert sorted == [sorted[0]] + sorted[1..];
    }
  }

  predicate AscendingSpaces(rows: seq<SpaceRow>) {
    forall i, j | 0 <= i < j < |rows| :: rows[i].sortOrder <= rows[j].sortOrder
  }

  lemma {:induction false} InsertSpaceKeepsAscending(row: SpaceRow, sorted: seq<SpaceRow>)
    requires AscendingSpaces(sorted)
    ensures AscendingSpaces(InsertSpace(row, sorted))
    ensures InsertSpace(row, sorted)[0] == if sorted == []
              || row.sortOrder < sorted[0].sortOrder then row else sorted[0]
  {
    if sorted != [] && row.sortOrder >= sorted[0].sortOrder {
      InsertSpaceKeepsAscending(row, sorted[1..]);
      var rest := InsertSpace(row, sorted[1..]);
      assert rest[0].sortOrder >= sorted[0].sortOrder;
      assert InsertSpace(row, sorted) == [sorted[0]] + rest;
    }
  }

  lemma {:induction false} SortSpacesPermutes(rows: seq<SpaceRow>)
    ensures multiset(SortSpaces(rows)) == multiset(rows)
  {
    if rows != [] {
      SortSpacesPermutes(rows[..|rows| - 1]);
      InsertSpaceAdds(rows[|rows| - 1], SortSpaces(rows[..|rows| - 1]));
      assert rows == rows[..|rows| - 1] + [rows[|rows| - 1]];
    }
  }

  /** Spaces too are loaded as a permutation in ascending order. */
  lemma {:induction false} SortSpacesSorts(rows: seq<SpaceRow>)
    ensures AscendingSpaces(SortSpaces(rows)) && multiset(SortSpaces(rows)) == multiset(rows)
  {
    SortSpacesPermutes(rows);
    if rows != [] {
      SortSpacesSorts(rows[..|rows| - 1]);
      InsertSpaceKeepsAscending(rows[|rows| - 1], SortSpaces(rows[..|rows| - 1]));
    }
  }

  lemma {:induction false} InsertSpaceLast(row: SpaceRow, sorted: seq<SpaceRow>)
    requires forall r | r in sorted :: r.sortOrder <= row.sortOrder
    ensures InsertSpace(row, sorted) == sorted + [row]
  {
    if sorted != [] {
      InsertSpaceLast(row, sorted[1..]);
    }
  }

  lemma {:induction false} AscendingSpacesStay(rows: seq<SpaceRow>)
    requires AscendingSpaces(rows)
    ensures SortSpaces(rows) == rows
  {
    if rows != [] {
      AscendingSpacesStay(rows[..|rows| - 1]);
      InsertSpaceLast(rows[|rows| - 1], rows[..|rows| - 1]);
    }
  }

  /** What `loadAll` returns. */
  function Loaded(db: Db): Db {
    Db(db.profiles, SortSpaces(db.spaces), StableSort(db.tabs))
  }

  // ---------- the class ----------

  class InMemoryPersistence {
    var profiles: seq<Profile>
    var spaces: seq<SpaceRow>
    var tabs: seq<TabRow>

    function Contents(): Db
      reads this
    {
      Db(profiles, spaces, tabs)
    }

    constructor ()
      ensures Contents() == Db([], [], [])
    {
      profiles, spaces, tabs := [], [], [];
    }

    method LoadAll() returns (snapshot: Db)
      ensures snapshot == Loaded(Contents())
    {
      snapshot := Db(profiles, SortSpaces(spaces), StableSort(tabs));
    }

    method SaveProfile(p: Profile)
      modifies this`profiles
      ensures profiles == SetProfile(old(profiles), p)
    {
      profiles := SetProfile(profiles, p);
    }

    method SaveSpace(s: SpaceRow)
      modifies this`spaces
      ensures spaces == SetSpace(old(spaces), s)
    {
      spaces := SetSpace(spaces, s);
    }

    method SaveTab(t: TabRow)
      modifies this`tabs
      ensures tabs == SetTab(old(tabs), t)
    {
      tabs := SetTab(tabs, t);
    }

    method RenameTab(id: string, title: string)
      modifies this`tabs
      ensures tabs == RetitleRow(old(tabs), id, title)
    {
      tabs := RetitleRow(tabs, id, title);
    }

    method UpdateTabAgentSession(id: string, session: string)
      modifies this`tabs
      ensures tabs == SetRowSession(old(tabs), id, session)
    {
      tabs := SetRowSession(tabs, id, session);
    }

    method RemoveTab(id: string)
      modifies this`tabs
      ensures tabs == DeleteRow(old(tabs), id)
    {
      tabs := DeleteRow(tabs, id);
    }

    method ReorderTabs(spaceId: string, orderedIds: seq<string>)
      modifies this`tabs
      ensures tabs == Reordered(old(tabs), spaceId, orderedIds)
    {
      for i := 0 to |orderedIds|
        invariant tabs == Reordered(old(tabs), spaceId, orderedIds[..i])
      {
        assert orderedIds[..i + 1][..i] == orderedIds[..i];
        tabs := SetOrder(tabs, spaceId, orderedIds[i], i);
      }
      assert orderedIds[..|orderedIds|] == orderedIds;
    }
  }
}
