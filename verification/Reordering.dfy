/** What a reordering of a space's tabs means to the next load (in-memory.ts). */
module Reordering {
  import opened StoreTypes
  import opened Persistence

  /** The list names each tab of the space once, and nothing else. */
  ghost predicate ListsSpace(rows: seq<TabRow>, spaceId: string, ids: seq<string>) {
    && (forall i, j | 0 <= i < j < |ids| :: ids[i] != ids[j])
    && (forall id :: id in ids <==> exists k :: 0 <= k < |rows| && rows[k].id == id && rows[k].spaceId == spaceId)
  }

  function IdsOf(rows: seq<TabRow>): seq<string> {
    seq(|rows|, k requires 0 <= k < |rows| => rows[k].id)
  }

  /** A reordering changes the sort orders of the listed tabs of the space and nothing else. */
  lemma {:induction false} ReorderedRows(rows: seq<TabRow>, spaceId: string, ids: seq<string>)
    ensures |Reordered(rows, spaceId, ids)| == |rows|
    ensures forall k | 0 <= k < |rows| ::
              Reordered(rows, spaceId, ids)[k] == rows[k].(sortOrder := Reordered(rows, spaceId, ids)[k].sortOrder)
    ensures forall k | 0 <= k < |rows| && (rows[k].spaceId != spaceId || rows[k].id !in ids) ::
              Reordered(rows, spaceId, ids)[k] == rows[k]
  {
    if ids != [] {
      ReorderedRows(rows, spaceId, ids[..|ids| - 1]);
    }
  }

  /** Each listed tab ends up with the place of its last mention. */
  lemma {:induction false} ReorderedPlace(rows: seq<TabRow>, spaceId: string, ids: seq<string>, k: nat, i: nat)
    requires k < |rows| && rows[k].spaceId == spaceId && i < |ids| && ids[i] == rows[k].id
    requires forall j | i < j < |ids| :: ids[j] != ids[i]
    ensures |Reordered(rows, spaceId, ids)| == |rows| && Reordered(rows, spaceId, ids)[k].sortOrder == i
  {
    var front := ids[..|ids| - 1];
    ReorderedRows(rows, spaceId, ids);
    ReorderedRows(rows, spaceId, front);
    if i < |front| {
      ReorderedPlace(rows, spaceId, front, k, i);
    }
  }

  lemma {:induction false} OfSpaceMembers(rows: seq<TabRow>, spaceId: string, r: TabRow)
    ensures r in OfSpace(rows, spaceId) <==> r in rows && r.spaceId == spaceId
  {
    if rows != [] {
      var front, last := rows[..|rows| - 1], rows[|rows| - 1];
      OfSpaceMembers(front, spaceId, r);
      assert rows == front + [last];
    }
  }

  predicate HasOrder(rows: seq<TabRow>, order: nat) {
    exists k :: 0 <= k < |rows| && rows[k].sortOrder == order
  }

  /** The rows carry the orders 0 to n - 1, each once, and are in ascending order. */
  predicate Covers(rows: seq<TabRow>, n: nat) {
    && Ascending(rows)
    && (forall k | 0 <= k < |rows| :: rows[k].sortOrder < n)
    && (forall i: nat | i < n :: HasOrder(rows, i))
    && (forall i, j | 0 <= i < j < |rows| :: rows[i].sortOrder != rows[j].sortOrder)
  }

  lemma {:induction false} PlacesAreOrders(rows: seq<TabRow>, n: nat, k: nat)
    requires Covers(rows, n) && k <= n
    ensures k <= |rows| && forall i | 0 <= i < k :: rows[i].sortOrder == i
  {
    if k > 0 {
      PlacesAreOrders(rows, n, k - 1);
      assert HasOrder(rows, k - 1);
      var m :| 0 <= m < |rows| && rows[m].sortOrder == k - 1;
      assert m >= k - 1 && rows[k - 1].sortOrder <= rows[m].sortOrder;
      assert k > 1 ==> rows[k - 2].sortOrder <= rows[k - 1].sortOrder && rows[k - 2].sortOrder != rows[k - 1].sortOrder;
    }
  }

  lemma {:induction false} OrdersGrow(rows: seq<TabRow>, n: nat, k: nat)
    requires Covers(rows, n) && k < |rows|
    ensures k <= rows[k].sortOrder
  {
    if k > 0 {
      OrdersGrow(rows, n, k - 1);
      assert rows[k - 1].sortOrder <= rows[k].sortOrder && rows[k - 1].sortOrder != rows[k].sortOrder;
    }
  }

  lemma ExactlyCovered(rows: seq<TabRow>, n: nat)
    requires Covers(rows, n)
    ensures |rows| == n && forall i | 0 <= i < n :: rows[i].sortOrder == i
  {
    PlacesAreOrders(rows, n, n);
    if rows != [] {
      OrdersGrow(rows, n, |rows| - 1);
    }
  }

  /** A listed tab's order says where the list names it. */
  lemma ListedRow(rows: seq<TabRow>, spaceId: string, ids: seq<string>, r: TabRow)
    requires ListsSpace(rows, spaceId, ids)
    requires r in Reordered(rows, spaceId, ids) && r.spaceId == spaceId
    ensures r.sortOrder < |ids| && ids[r.sortOrder] == r.id
  {
    var rows' := Reordered(rows, spaceId, ids);
    ReorderedRows(rows, spaceId, ids);
    var k :| 0 <= k < |rows'| && rows'[k] == r;
    assert rows[k].id == r.id && rows[k].spaceId == spaceId;
    assert r.id in ids;
    var i :| 0 <= i < |ids| && ids[i] == r.id;
    ReorderedPlace(rows, spaceId, ids, k, i);
  }

  lemma EveryPlaceIsTaken(rows: seq<TabRow>, spaceId: string, ids: seq<string>, i: nat) returns (r: TabRow)
    requires ListsSpace(rows, spaceId, ids) && i < |ids|
    ensures r in Reordered(rows, spaceId, ids) && r.spaceId == spaceId && r.sortOrder == i
  {
    assert ids[i] in ids;
    var k :| 0 <= k < |rows| && rows[k].id == ids[i] && rows[k].spaceId == spaceId;
    ReorderedRows(rows, spaceId, ids);
    ReorderedPlace(rows, spaceId, ids, k, i);
    r := Reordered(rows, spaceId, ids)[k];
  }

  lemma LoadedPartCovers(rows: seq<TabRow>, spaceId: string, ids: seq<string>)
    requires DistinctIds(rows) && ListsSpace(rows, spaceId, ids)
    ensures var part := OfSpace(StableSort(Reordered(rows, spaceId, ids)), spaceId);
            Covers(part, |ids|) && forall k | 0 <= k < |part| ::
                part[k].sortOrder < |ids| && ids[part[k].sortOrder] == part[k].id
  {
    var rows' := Reordered(rows, spaceId, ids);
    var part := OfSpace(StableSort(rows'), spaceId);
    ReorderedRows(rows, spaceId, ids);
    StableSortSorts(rows');
    DistinctIdsSurvive(rows', StableSort(rows'));
    OfSpaceKeepsDistinct(StableSort(rows'), spaceId);
    SortCommutes(rows', spaceId);
    StableSortSorts(OfSpace(rows', spaceId));
    forall k | 0 <= k < |part| ensures part[k].sortOrder < |ids| && ids[part[k].sortOrder] == part[k].id {
      OfSpaceMembers(StableSort(rows'), spaceId, part[k]);
      assert part[k] in multiset(rows');
      ListedRow(rows, spaceId, ids, part[k]);
    }
    forall i: nat | i < |ids| ensures HasOrder(part, i) {
      var r := EveryPlaceIsTaken(rows, spaceId, ids, i);
      assert r in multiset(StableSort(rows'));
      OfSpaceMembers(StableSort(rows'), spaceId, r);
      var k :| 0 <= k < |part| && part[k] == r;
    }
  }

  lemma {:induction false} SamePart(rows: seq<TabRow>, rows': seq<TabRow>, spaceId: string)
    requires |rows'| == |rows| && forall k | 0 <= k < |rows| :: rows'[k].spaceId == rows[k].spaceId
    requires forall k | 0 <= k < |rows| && rows[k].spaceId == spaceId :: rows'[k] == rows[k]
    ensures OfSpace(rows', spaceId) == OfSpace(rows, spaceId)
  {
    if rows != [] {
      SamePart(rows[..|rows| - 1], rows'[..|rows| - 1], spaceId);
    }
  }

  /** After a reordering by a list of the space's tabs, the next load gives the space's tabs in
      the order of the list, and every other space's as before. */
  lemma ReorderedLoadsInOrder(rows: seq<TabRow>, spaceId: string, ids: seq<string>, other: string)
    requires DistinctIds(rows) && ListsSpace(rows, spaceId, ids)
    ensures IdsOf(OfSpace(StableSort(Reordered(rows, spaceId, ids)), spaceId)) == ids
    ensures other != spaceId ==>
              OfSpace(StableSort(Reordered(rows, spaceId, ids)), other) == OfSpace(StableSort(rows), other)
  {
    var rows' := Reordered(rows, spaceId, ids);
    LoadedPartCovers(rows, spaceId, ids);
    ExactlyCovered(OfSpace(StableSort(rows'), spaceId), |ids|);
    if other != spaceId {
      ReorderedRows(rows, spaceId, ids);
      SamePart(rows, rows', other);
      SortCommutes(rows, other);
      SortCommutes(rows', other);
    }
  }
}
