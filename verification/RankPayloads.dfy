/**
 Checking the model's rankings and merging them into the ranked findings
 (engine/open_kritt_engine/post_processing.py, `validate_ranker_payload` and `rank_updates_from_payload`;
 engine/open_kritt_engine/db.py, `apply_rank_updates`).
 */
module RankPayloads {
  import opened Wrappers
  import opened Findings
  import Sorting

  /** One ranking of a payload; the position is any number. */
  datatype Item = Item(id: Id, position: real, minimum: int, maximum: int)

  datatype Fault = UnexpectedId(id: Id) | RepeatedId(id: Id) | RewardsCrossed(id: Id) | Missing(ids: set<Id>)

  function ItemIds(items: seq<Item>): set<Id> {
    set i | i in items :: i.id
  }

  function ItemId(i: Item): Id {
    i.id
  }

  /** The rankings that may be applied: every target once, and no reward range upside down. */
  ghost predicate RankingsOk(items: seq<Item>, targets: set<Id>) {
    && Sorting.Distinct(items, ItemId)
    && ItemIds(items) == targets
    && forall i | i in items :: i.minimum <= i.maximum
  }

  ghost predicate FaultHolds(f: Fault, items: seq<Item>, targets: set<Id>) {
    match f
    case UnexpectedId(id) => id in ItemIds(items) && id !in targets
    case RepeatedId(id) => exists i, j | 0 <= i < j < |items| :: items[i].id == id == items[j].id
    case RewardsCrossed(id) => exists i | i in items :: i.id == id && i.minimum > i.maximum
    case Missing(ids) => ids == targets - ItemIds(items) && ids != {}
  }

  lemma FaultMeansRefusal(f: Fault, items: seq<Item>, targets: set<Id>)
    requires FaultHolds(f, items, targets)
    ensures !RankingsOk(items, targets)
  {
    match f
    case RepeatedId(id) =>
      var i, j :| 0 <= i < j < |items| && items[i].id == id == items[j].id;
      assert ItemId(items[i]) == ItemId(items[j]);
    case _ =>
  }

  /** `validate_ranker_payload`. */
  method ValidateRankerPayload(items: seq<Item>, targets: set<Id>) returns (r: Result<seq<Item>, Fault>)
    ensures r.Ok? <==> RankingsOk(items, targets)
    ensures r.Ok? ==> r.value == items
    ensures r.Err? ==> FaultHolds(r.error, items, targets)
  {
    var seen: set<Id>, out := {}, [];
    for k := 0 to |items|
      invariant out == items[..k]
      invariant forall id :: id in seen <==> exists i | 0 <= i < k :: items[i].id == id
      invariant seen <= targets
      invariant Sorting.Distinct(items[..k], ItemId)
      invariant forall i | i in items[..k] :: i.minimum <= i.maximum
    {
      var item := items[k];
      assert item in items;
      assert items[..k + 1] == items[..k] + [item];
      if item.id !in targets {
        return Err(UnexpectedId(item.id));
      }
      if item.id in seen {
        var i :| 0 <= i < k && items[i].id == item.id;
        assert ItemId(items[i]) == ItemId(items[k]);
        return Err(RepeatedId(item.id));
      }
      if item.minimum > item.maximum {
        return Err(RewardsCrossed(item.id));
      }
      seen := seen + {item.id};
      out := out + [item];
    }
    assert items[..|items|] == items;
    assert forall id :: id in seen <==> id in ItemIds(items);
    assert seen == ItemIds(items) && targets == seen + (targets - seen);
    if seen != targets {
      return Err(Missing(targets - seen));
    }
    r := Ok(out);
  }

  // ---- Merging ----

  datatype Entry = Entry(id: Id, position: real, anchor: bool)

  datatype Update = Update(id: Id, rank: nat, total: nat)

  function EntryId(e: Entry): Id {
    e.id
  }

  /** Python's `a or b or 0` on two optional ranks. */
  function AnchorPosition(f: Finding): nat {
    if OrZero(f.bountyRank) != 0 then OrZero(f.bountyRank) else OrZero(f.rank)
  }

  /** Targets go before an anchor at the same position. */
  predicate EntryOrder(a: Entry, b: Entry) {
    || a.position < b.position
    || (a.position == b.position && !a.anchor && b.anchor)
    || (a.position == b.position && a.anchor == b.anchor && a.id <= b.id)
  }

  function AnchorEntry(r: Row): Entry {
    Entry(r.id, AnchorPosition(r.finding) as real, true)
  }

  /** `items_by_id`: the last item of an id wins. */
  function ById(items: seq<Item>): map<Id, Item> {
    if items == [] then map[] else ById(items[..|items| - 1])[items[|items| - 1].id := items[|items| - 1]]
  }

  lemma {:induction false} ByIdIs(items: seq<Item>)
    ensures forall id :: id in ById(items) <==> id in ItemIds(items)
    ensures forall id | id in ById(items) :: ById(items)[id] in items && ById(items)[id].id == id
  {
    if items != [] {
      ByIdIs(items[..|items| - 1]);
      assert items == items[..|items| - 1] + [items[|items| - 1]];
    }
  }

  function TargetEntry(items: seq<Item>, r: Row): Entry
    requires r.id in ById(items)
  {
    Entry(r.id, ById(items)[r.id].position, false)
  }

  predicate AllPlaced(items: seq<Item>, targets: seq<Row>) {
    forall r | r in targets :: r.id in ById(items)
  }

  /** The ranked findings and the targets, before they are sorted. */
  function Combined(items: seq<Item>, anchors: seq<Row>, targets: seq<Row>): seq<Entry>
    requires AllPlaced(items, targets)
  {
    seq(|anchors|, i requires 0 <= i < |anchors| => AnchorEntry(anchors[i]))
    + seq(|targets|, i requires 0 <= i < |targets| => TargetEntry(items, targets[i]))
  }

  function Numbered(order: seq<Entry>): seq<Update> {
    seq(|order|, k requires 0 <= k < |order| => Update(order[k].id, k + 1, |order|))
  }

  function Updates(items: seq<Item>, anchors: seq<Row>, targets: seq<Row>): seq<Update>
    requires AllPlaced(items, targets)
  {
    Numbered(Sorting.Sort(Combined(items, anchors, targets), EntryOrder))
  }

  /** `rank_updates_from_payload`, for a payload that has been accepted. */
  method RankUpdates(items: seq<Item>, anchors: seq<Row>, targets: seq<Row>) returns (updates: seq<Update>)
    requires AllPlaced(items, targets)
    ensures updates == Updates(items, anchors, targets)
  {
    var byId := map[];
    for k := 0 to |items|
      invariant byId == ById(items[..k])
    {
      byId := byId[items[k].id := items[k]];
      assert items[..k + 1][..k] == items[..k];
    }
    assert items[..|items|] == items;
    var combined: seq<Entry> := [];
    for k := 0 to |anchors|
      invariant |combined| == k && forall i | 0 <= i < k :: combined[i] == AnchorEntry(anchors[i])
    {
      combined := combined + [AnchorEntry(anchors[k])];
    }
    for k := 0 to |targets|
      invariant |combined| == |anchors| + k
      invariant forall i | 0 <= i < |anchors| :: combined[i] == AnchorEntry(anchors[i])
      invariant forall i | 0 <= i < k :: combined[|anchors| + i] == TargetEntry(items, targets[i])
    {
      var id := targets[k].id;
      assert targets[k] in targets;
      combined := combined + [Entry(id, byId[id].position, false)];
    }
    assert combined == Combined(items, anchors, targets);
    combined := Sorting.Sort(combined, EntryOrder);
    updates := [];
    for k := 0 to |combined|
      invariant |updates| == k
      invariant forall i | 0 <= i < k :: updates[i] == Update(combined[i].id, i + 1, |combined|)
    {
      updates := updates + [Update(combined[k].id, k + 1, |combined|)];
    }
  }

  // ---- Writing the ranks ----

  function Write(t: Table, u: Update): Table {
    if u.id in t then
      t[u.id := t[u.id].(bountyRank := Some(u.rank), total := Some(u.total), rank := Some(u.rank))]
    else t
  }

  /** `apply_rank_updates`: one row after the other. */
  function ApplyRanks(t: Table, updates: seq<Update>): Table {
    if updates == [] then t else Write(ApplyRanks(t, updates[..|updates| - 1]), updates[|updates| - 1])
  }

  function UpdateId(u: Update): Id {
    u.id
  }

  lemma {:induction false} ApplyRanksIs(t: Table, updates: seq<Update>)
    requires Sorting.Distinct(updates, UpdateId)
    ensures var after := ApplyRanks(t, updates);
      && after.Keys == t.Keys
      && (forall id | id in t && (forall u | u in updates :: u.id != id) :: after[id] == t[id])
      && (forall u | u in updates && u.id in t ::
            after[u.id] == t[u.id].(bountyRank := Some(u.rank), total := Some(u.total), rank := Some(u.rank)))
  {
    if updates != [] {
      var front, last := updates[..|updates| - 1], updates[|updates| - 1];
      assert updates == front + [last];
      assert Sorting.Distinct(front, UpdateId) by {
        assert forall i | 0 <= i < |front| :: front[i] == updates[i];
      }
      ApplyRanksIs(t, front);
      forall u | u in front ensures u.id != last.id {
        var i :| 0 <= i < |front| && front[i] == u;
        assert UpdateId(updates[i]) != UpdateId(updates[|updates| - 1]);
      }
    }
  }

  // ---- The merged order ----

  lemma EntryOrderIsTotal()
    ensures Sorting.TotalPreorder(EntryOrder)
  {
  }

  lemma CombinedIs(items: seq<Item>, anchors: seq<Row>, targets: seq<Row>)
    requires AllPlaced(items, targets)
    requires Sorting.Distinct(anchors, RowId) && Sorting.Distinct(targets, RowId) && Ids(anchors) !! Ids(targets)
    ensures Sorting.Distinct(Combined(items, anchors, targets), EntryId)
    ensures forall r | r in anchors :: AnchorEntry(r) in Combined(items, anchors, targets)
    ensures forall r | r in targets :: TargetEntry(items, r) in Combined(items, anchors, targets)
    ensures forall e | e in Combined(items, anchors, targets) ::
      if e.anchor then exists r :: r in anchors && e == AnchorEntry(r)
      else exists r :: r in targets && e == TargetEntry(items, r)
  {
    var c, n := Combined(items, anchors, targets), |anchors|;
    forall i, j | 0 <= i < j < |c| ensures EntryId(c[i]) != EntryId(c[j]) {
      assert i < n ==> c[i].id == RowId(anchors[i]) && c[i].id in Ids(anchors);
      assert i >= n ==> c[i].id == RowId(targets[i - n]) && c[i].id in Ids(targets);
      assert j < n ==> c[j].id == RowId(anchors[j]);
      assert j >= n ==> c[j].id == RowId(targets[j - n]) && c[j].id in Ids(targets);
    }
    forall r | r in anchors ensures AnchorEntry(r) in c {
      var i :| 0 <= i < n && anchors[i] == r;
      assert c[i] == AnchorEntry(r);
    }
    forall r | r in targets ensures TargetEntry(items, r) in c {
      var i :| 0 <= i < |targets| && targets[i] == r;
      assert c[n + i] == TargetEntry(items, r);
    }
  }

  /** The merged order: sorted, every entry once. */
  lemma MergedIs(items: seq<Item>, anchors: seq<Row>, targets: seq<Row>)
    requires AllPlaced(items, targets)
    requires Sorting.Distinct(anchors, RowId) && Sorting.Distinct(targets, RowId) && Ids(anchors) !! Ids(targets)
    ensures var c := Combined(items, anchors, targets);
      var order := Sorting.Sort(c, EntryOrder);
      && Sorting.Sorted(order, EntryOrder) && Sorting.Distinct(order, EntryId)
      && |order| == |c| && forall e :: e in order <==> e in c
  {
    var c := Combined(items, anchors, targets);
    CombinedIs(items, anchors, targets);
    EntryOrderIsTotal();
    Sorting.SortSorted(c, EntryOrder);
    Sorting.SortDistinct(c, EntryOrder, EntryId);
    Sorting.SameElements(c, EntryOrder);
  }
}
