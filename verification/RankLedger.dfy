/** What an accepted ranker batch does to the ranks of a scan. */
module RankLedger {
  import opened Wrappers
  import opened Findings
  import opened RankPayloads
  import opened DedupePartition
  import Sorting

  function Ranked(t: Table): set<Id> {
    set id | id in t && t[id].bountyRank.Some?
  }

  /** The ranked findings are canonical, and their ranks are a bijection onto 1..n, written in both rank columns. */
  ghost predicate Ledger(t: Table) {
    var n := |Ranked(t)|;
    && (forall id | id in Ranked(t) ::
          && t[id].canonical == Some(true)
          && 1 <= t[id].bountyRank.value <= n
          && t[id].total == Some(n) && t[id].rank == t[id].bountyRank)
    && (forall a, b | a in Ranked(t) && b in Ranked(t) && t[a].bountyRank == t[b].bountyRank :: a == b)
    && (forall k | 1 <= k <= n :: exists id :: id in Ranked(t) && t[id].bountyRank == Some(k))
  }

  lemma SameRanksKeepLedger(t: Table, after: Table)
    requires Ledger(t) && after.Keys == t.Keys
    requires forall id | id in t :: SameRanks(t[id], after[id])
    requires forall id | id in Ranked(t) :: after[id].canonical == t[id].canonical
    ensures Ranked(after) == Ranked(t) && Ledger(after)
  {
    assert forall id :: id in Ranked(after) <==> id in Ranked(t);
    assert Ranked(after) == Ranked(t);
  }

  /** A batch of a table: all the ranked findings, and some canonicals that are not ranked yet. */
  ghost predicate Placed(t: Table, items: seq<Item>, anchors: seq<Row>, targets: seq<Row>) {
    && RowsFrom(anchors, t) && RowsFrom(targets, t)
    && Ids(anchors) == Ranked(t)
    && (forall r | r in targets :: Wants(Ranker, r.finding))
    && RankingsOk(items, Ids(targets))
  }

  lemma PlacedIs(t: Table, items: seq<Item>, anchors: seq<Row>, targets: seq<Row>)
    requires Placed(t, items, anchors, targets)
    ensures AllPlaced(items, targets)
    ensures Ids(anchors) !! Ids(targets)
  {
    ByIdIs(items);
    forall r | r in targets ensures r.id in ById(items) && r.id !in Ids(anchors) {
      assert r.id in Ids(targets);
      assert t[r.id] == r.finding;
    }
  }

  ghost function Order(items: seq<Item>, anchors: seq<Row>, targets: seq<Row>): seq<Entry>
    requires AllPlaced(items, targets)
  {
    Sorting.Sort(Combined(items, anchors, targets), EntryOrder)
  }

  ghost function After(t: Table, items: seq<Item>, anchors: seq<Row>, targets: seq<Row>): Table
    requires AllPlaced(items, targets)
  {
    ApplyRanks(t, Updates(items, anchors, targets))
  }

  ghost predicate WrittenAt(t: Table, after: Table, order: seq<Entry>) {
    && after.Keys == t.Keys
    && (forall k | 0 <= k < |order| :: order[k].id in t
          && after[order[k].id]
             == t[order[k].id].(bountyRank := Some(k + 1), total := Some(|order|), rank := Some(k + 1)))
    && (forall id | id in t && (forall k | 0 <= k < |order| :: order[k].id != id) :: after[id] == t[id])
  }

  lemma NumberedIs(order: seq<Entry>)
    requires Sorting.Distinct(order, EntryId)
    ensures Sorting.Distinct(Numbered(order), UpdateId)
    ensures forall u :: u in Numbered(order) ==> exists k :: 0 <= k < |order| && u.id == order[k].id
  {
    var us := Numbered(order);
    forall i, j | 0 <= i < j < |us| ensures UpdateId(us[i]) != UpdateId(us[j]) {
      assert EntryId(order[i]) != EntryId(order[j]);
    }
  }

  lemma RanksAreWritten(t: Table, order: seq<Entry>)
    requires Sorting.Distinct(order, EntryId)
    requires forall e | e in order :: e.id in t
    ensures WrittenAt(t, ApplyRanks(t, Numbered(order)), order)
  {
    var us := Numbered(order);
    var after := ApplyRanks(t, us);
    NumberedIs(order);
    ApplyRanksIs(t, us);
    forall k | 0 <= k < |order|
      ensures order[k].id in t
      ensures after[order[k].id]
        == t[order[k].id].(bountyRank := Some(k + 1), total := Some(|order|), rank := Some(k + 1))
    {
      assert order[k] in order && us[k] in us;
    }
    forall id | id in t && (forall k | 0 <= k < |order| :: order[k].id != id) ensures after[id] == t[id] {
      assert forall u | u in us :: u.id != id;
    }
  }

  /** The entries are those of the ranked findings and of the targets. */
  ghost predicate OrderFits(t: Table, order: seq<Entry>, ids: set<Id>) {
    && Sorting.Distinct(order, EntryId)
    && |order| == |ids|
    && (forall k | 0 <= k < |order| :: order[k].id in ids)
    && (forall id | id in ids :: exists k :: 0 <= k < |order| && order[k].id == id)
  }

  lemma OrderIs(t: Table, items: seq<Item>, anchors: seq<Row>, targets: seq<Row>)
    requires Placed(t, items, anchors, targets) && AllPlaced(items, targets)
    ensures OrderFits(t, Order(items, anchors, targets), Ranked(t) + Ids(targets))
    ensures WrittenAt(t, After(t, items, anchors, targets), Order(items, anchors, targets))
  {
    var order, ids := Order(items, anchors, targets), Ranked(t) + Ids(targets);
    PlacedIs(t, items, anchors, targets);
    MergedIs(items, anchors, targets);
    CombinedIs(items, anchors, targets);
    forall k | 0 <= k < |order| ensures order[k].id in ids && order[k].id in t {
      assert order[k] in order;
      assert order[k] in Combined(items, anchors, targets);
    }
    forall id | id in ids ensures exists k :: 0 <= k < |order| && order[k].id == id {
      if id in Ranked(t) {
        var r :| r in anchors && r.id == id;
        assert AnchorEntry(r) in order;
        var k :| 0 <= k < |order| && order[k] == AnchorEntry(r);
      } else {
        var r :| r in targets && r.id == id;
        assert TargetEntry(items, r) in order;
        var k :| 0 <= k < |order| && order[k] == TargetEntry(items, r);
      }
    }
    SameCount(order, ids);
    RanksAreWritten(t, order);
  }

  lemma SameCount(order: seq<Entry>, ids: set<Id>)
    requires Sorting.Distinct(order, EntryId)
    requires forall k | 0 <= k < |order| :: order[k].id in ids
    requires forall id | id in ids :: exists k :: 0 <= k < |order| && order[k].id == id
    ensures |order| == |ids|
  {
    Sorting.TagCount(order, EntryId);
    forall id ensures id in Sorting.TagSet(order, EntryId) <==> id in ids {
      Sorting.TagSetMember(order, EntryId, id);
      if id in ids {
        var k :| 0 <= k < |order| && order[k].id == id;
        assert order[k] in order && EntryId(order[k]) == id;
      }
    }
    assert Sorting.TagSet(order, EntryId) == ids;
  }

  lemma LedgerAfter(t: Table, after: Table, order: seq<Entry>, ids: set<Id>)
    requires OrderFits(t, order, ids) && WrittenAt(t, after, order)
    requires Ranked(t) <= ids
    requires forall id | id in ids :: id in t && t[id].canonical == Some(true)
    ensures Ranked(after) == ids && Ledger(after)
  {
    forall id ensures id in Ranked(after) <==> id in ids {
      if id in ids {
        var k :| 0 <= k < |order| && order[k].id == id;
      } else if id in after {
        assert after[id] == t[id];
        assert id !in Ranked(t);
      }
    }
    assert Ranked(after) == ids;
    forall id | id in ids
      ensures after[id].canonical == Some(true) && after[id].bountyRank.Some?
      ensures 1 <= after[id].bountyRank.value <= |ids|
      ensures after[id].total == Some(|ids|) && after[id].rank == after[id].bountyRank
    {
      var k :| 0 <= k < |order| && order[k].id == id;
    }
    forall a, b | a in ids && b in ids && after[a].bountyRank == after[b].bountyRank ensures a == b {
      var j :| 0 <= j < |order| && order[j].id == a;
      var k :| 0 <= k < |order| && order[k].id == b;
    }
    forall k | 1 <= k <= |ids| ensures exists id :: id in ids && after[id].bountyRank == Some(k) {
      assert order[k - 1].id in ids;
    }
  }

  /** An accepted batch ranks exactly its targets beside the ranked findings, and keeps the ledger. */
  lemma BatchKeepsLedger(t: Table, items: seq<Item>, anchors: seq<Row>, targets: seq<Row>)
    requires Ledger(t) && Placed(t, items, anchors, targets) && AllPlaced(items, targets)
    ensures Ledger(After(t, items, anchors, targets))
    ensures Ranked(After(t, items, anchors, targets)) == Ranked(t) + Ids(targets)
  {
    OrderIs(t, items, anchors, targets);
    LedgerAfter(
      t, After(t, items, anchors, targets), Order(items, anchors, targets), Ranked(t) + Ids(targets));
  }

  /** In the written order, an entry that sorts before another of another id has the smaller index. */
  lemma IndexOrder(order: seq<Entry>, j: nat, k: nat)
    requires Sorting.Sorted(order, EntryOrder) && j < |order| && k < |order|
    requires EntryOrder(order[j], order[k]) && order[j].id != order[k].id
    ensures j < k
  {
    assert k < j ==> EntryOrder(order[k], order[j]);
  }

  /** Entries get their ranks in the order of their positions, targets before anchors at the same position. */
  lemma RanksFollowPositions(
    t: Table, items: seq<Item>, anchors: seq<Row>, targets: seq<Row>, e: Entry, f: Entry)
    requires Placed(t, items, anchors, targets) && AllPlaced(items, targets)
    requires e in Combined(items, anchors, targets) && f in Combined(items, anchors, targets)
    requires EntryOrder(e, f) && e.id != f.id
    ensures var after := After(t, items, anchors, targets);
      && e.id in after && after[e.id].bountyRank.Some? && f.id in after && after[f.id].bountyRank.Some?
      && after[e.id].bountyRank.value < after[f.id].bountyRank.value
  {
    var order := Order(items, anchors, targets);
    PlacedIs(t, items, anchors, targets);
    MergedIs(items, anchors, targets);
    var j :| 0 <= j < |order| && order[j] == e;
    var k :| 0 <= k < |order| && order[k] == f;
    IndexOrder(order, j, k);
    OrderIs(t, items, anchors, targets);
  }

  /** Whatever positions the model returns, findings that were ranked keep their relative order. */
  lemma RankedOrderKept(t: Table, items: seq<Item>, anchors: seq<Row>, targets: seq<Row>, a: Id, b: Id)
    requires Ledger(t) && Placed(t, items, anchors, targets) && AllPlaced(items, targets)
    requires a in Ranked(t) && b in Ranked(t)
    requires t[a].bountyRank.value < t[b].bountyRank.value
    ensures var after := After(t, items, anchors, targets);
      && a in after && after[a].bountyRank.Some? && b in after && after[b].bountyRank.Some?
      && after[a].bountyRank.value < after[b].bountyRank.value
  {
    PlacedIs(t, items, anchors, targets);
    CombinedIs(items, anchors, targets);
    assert a in Ids(anchors) && b in Ids(anchors);
    var r :| r in anchors && r.id == a;
    var s :| s in anchors && s.id == b;
    assert r.finding == t[a] && s.finding == t[b];
    RanksFollowPositions(t, items, anchors, targets, AnchorEntry(r), AnchorEntry(s));
  }

  lemma TargetIsCombined(t: Table, items: seq<Item>, anchors: seq<Row>, targets: seq<Row>, id: Id) returns (e: Entry)
    requires Placed(t, items, anchors, targets) && AllPlaced(items, targets) && id in Ids(targets)
    ensures id in ById(items) && e == Entry(id, ById(items)[id].position, false)
    ensures e in Combined(items, anchors, targets)
  {
    PlacedIs(t, items, anchors, targets);
    CombinedIs(items, anchors, targets);
    var r :| r in targets && r.id == id;
    e := TargetEntry(items, r);
  }

  lemma AnchorIsCombined(t: Table, items: seq<Item>, anchors: seq<Row>, targets: seq<Row>, id: Id) returns (e: Entry)
    requires Ledger(t) && Placed(t, items, anchors, targets) && AllPlaced(items, targets) && id in Ranked(t)
    ensures e == Entry(id, t[id].bountyRank.value as real, true)
    ensures e in Combined(items, anchors, targets)
  {
    PlacedIs(t, items, anchors, targets);
    CombinedIs(items, anchors, targets);
    assert id in Ids(anchors);
    var r :| r in anchors && r.id == id;
    assert r.finding == t[id];
    e := AnchorEntry(r);
  }

  /** A target goes before a ranked finding exactly when its position is at most that finding's old rank. */
  lemma TargetBeforeAnchorIff(
    t: Table, items: seq<Item>, anchors: seq<Row>, targets: seq<Row>, target: Id, anchor: Id)
    requires Ledger(t) && Placed(t, items, anchors, targets) && AllPlaced(items, targets)
    requires target in Ids(targets) && anchor in Ranked(t)
    ensures var after := After(t, items, anchors, targets);
      && target in after && after[target].bountyRank.Some? && anchor in after && after[anchor].bountyRank.Some?
      && target in ById(items)
      && (after[target].bountyRank.value < after[anchor].bountyRank.value
          <==> ById(items)[target].position <= t[anchor].bountyRank.value as real)
  {
    PlacedIs(t, items, anchors, targets);
    var e := TargetIsCombined(t, items, anchors, targets, target);
    var f := AnchorIsCombined(t, items, anchors, targets, anchor);
    if EntryOrder(e, f) {
      RanksFollowPositions(t, items, anchors, targets, e, f);
    } else {
      RanksFollowPositions(t, items, anchors, targets, f, e);
    }
  }

  /** Two targets go by position, and by id at the same position. */
  lemma TargetBeforeTargetIff(t: Table, items: seq<Item>, anchors: seq<Row>, targets: seq<Row>, a: Id, b: Id)
    requires Placed(t, items, anchors, targets) && AllPlaced(items, targets)
    requires a in Ids(targets) && b in Ids(targets) && a != b
    ensures var after, p := After(t, items, anchors, targets), ById(items);
      && a in after && after[a].bountyRank.Some? && b in after && after[b].bountyRank.Some? && a in p && b in p
      && (after[a].bountyRank.value < after[b].bountyRank.value
          <==> p[a].position < p[b].position || (p[a].position == p[b].position && a < b))
  {
    var e := TargetIsCombined(t, items, anchors, targets, a);
    var f := TargetIsCombined(t, items, anchors, targets, b);
    if EntryOrder(e, f) {
      RanksFollowPositions(t, items, anchors, targets, e, f);
    } else {
      RanksFollowPositions(t, items, anchors, targets, f, e);
    }
  }

  /** Only rank columns change, and only in the ranked findings and the targets. */
  lemma RanksOnly(t: Table, items: seq<Item>, anchors: seq<Row>, targets: seq<Row>, id: Id)
    requires Placed(t, items, anchors, targets) && AllPlaced(items, targets) && id in t
    ensures var after := After(t, items, anchors, targets);
      && after.Keys == t.Keys
      && SameFiling(t[id], after[id])
      && (id !in Ranked(t) + Ids(targets) ==> after[id] == t[id])
  {
    var order := Order(items, anchors, targets);
    OrderIs(t, items, anchors, targets);
    if exists k :: 0 <= k < |order| && order[k].id == id {
      var k :| 0 <= k < |order| && order[k].id == id;
      assert order[k].id in Ranked(t) + Ids(targets);
    }
  }
}
