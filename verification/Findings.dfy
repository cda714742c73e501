/**
 The findings of a scan, and the batches the post-processor takes from them
 (engine/open_kritt_engine/post_processing.py, `dedupe_batch` and `ranker_batch`).
 */
module Findings {
  import opened Wrappers
  import Sorting

  type Id = int

  /** The columns of a finding that deduplication and ranking read and write. */
  datatype Finding = Finding(
    canonical: Option<bool>, canonicalId: Option<Id>, cluster: Option<string>,
    bountyRank: Option<nat>, total: Option<nat>, rank: Option<nat>)

  type Table = map<Id, Finding>

  datatype Row = Row(id: Id, finding: Finding)

  datatype Kind = Dedupe | Ranker

  const BATCH_SIZE := 50

  /** What a batch of a kind still has to process. */
  predicate Wants(kind: Kind, f: Finding) {
    match kind
    case Dedupe => f.canonical.None?
    case Ranker => f.canonical == Some(true) && f.bountyRank.None?
  }

  /** What a batch of a kind is placed against. */
  predicate Anchors(kind: Kind, f: Finding) {
    f.canonical == Some(true) && (kind.Ranker? ==> f.bountyRank.Some?)
  }

  predicate AllDone(kind: Kind, t: Table) {
    forall id | id in t :: !Wants(kind, t[id])
  }

  /** The targets a claim accepts: at least one, and all still to be processed. */
  predicate AllWaiting(kind: Kind, ids: set<Id>, now: Table) {
    ids != {} && forall id | id in ids :: id in now && Wants(kind, now[id])
  }

  // ---- Loading: ordered by rank, nulls last, then id ----

  predicate NullsLast(a: Option<nat>, b: Option<nat>) {
    a.Some? && (b.None? || a.value < b.value)
  }

  predicate LoadOrder(a: Row, b: Row) {
    NullsLast(a.finding.rank, b.finding.rank) || (!NullsLast(b.finding.rank, a.finding.rank) && a.id <= b.id)
  }

  function RowSet(t: Table): set<Row> {
    set id | id in t :: Row(id, t[id])
  }

  ghost function RowsIn(rows: set<Row>): seq<Row> {
    if rows == {} then []
    else
      var r :| r in rows;
      [r] + RowsIn(rows - {r})
  }

  /** `load_vulnerabilities`. */
  ghost function Load(t: Table): seq<Row> {
    Sorting.Sort(RowsIn(RowSet(t)), LoadOrder)
  }

  function RowId(r: Row): Id {
    r.id
  }

  ghost predicate RowsFrom(rows: seq<Row>, t: Table) {
    Sorting.Distinct(rows, RowId) && forall r | r in rows :: r.id in t && r.finding == t[r.id]
  }

  lemma {:induction false} RowsInIs(rows: set<Row>)
    requires forall a, b | a in rows && b in rows && a != b :: a.id != b.id
    ensures Sorting.Distinct(RowsIn(rows), RowId)
    ensures forall r :: r in RowsIn(rows) <==> r in rows
    decreases rows
  {
    if rows != {} {
      var r :| r in rows && RowsIn(rows) == [r] + RowsIn(rows - {r});
      RowsInIs(rows - {r});
      Sorting.DistinctJoin([r], RowsIn(rows - {r}), RowId);
    }
  }

  lemma LoadIs(t: Table)
    ensures RowsFrom(Load(t), t)
    ensures forall r :: r in Load(t) <==> r.id in t && r.finding == t[r.id]
  {
    var rows := RowsIn(RowSet(t));
    RowsInIs(RowSet(t));
    Sorting.SameElements(rows, LoadOrder);
    Sorting.SortDistinct(rows, LoadOrder, RowId);
  }

  // ---- Batches ----

  datatype Batch = Batch(anchors: seq<Row>, targets: seq<Row>)

  function Filter(rows: seq<Row>, keep: Finding -> bool): seq<Row> {
    if rows == [] then []
    else (if keep(rows[0].finding) then [rows[0]] else []) + Filter(rows[1..], keep)
  }

  lemma {:induction false} FilterIs(rows: seq<Row>, keep: Finding -> bool)
    ensures forall r :: r in Filter(rows, keep) <==> r in rows && keep(r.finding)
    ensures Sorting.Distinct(rows, RowId) ==> Sorting.Distinct(Filter(rows, keep), RowId)
  {
    if rows != [] {
      FilterIs(rows[1..], keep);
      assert forall r :: r in rows <==> r == rows[0] || r in rows[1..];
      if Sorting.Distinct(rows, RowId) {
        forall r | r in rows[1..] ensures RowId(rows[0]) != RowId(r) {
          Sorting.HeadDiffers(rows, RowId, r);
        }
        Sorting.DistinctJoin(
          if keep(rows[0].finding) then [rows[0]] else [], Filter(rows[1..], keep), RowId);
      }
    }
  }

  function OrZero(v: Option<nat>): nat {
    if v.Some? then v.value else 0
  }

  predicate AnchorOrder(a: Row, b: Row) {
    OrZero(a.finding.bountyRank) < OrZero(b.finding.bountyRank)
    || (OrZero(a.finding.bountyRank) == OrZero(b.finding.bountyRank) && a.id <= b.id)
  }

  predicate TargetOrder(a: Row, b: Row) {
    OrZero(a.finding.rank) < OrZero(b.finding.rank)
    || (OrZero(a.finding.rank) == OrZero(b.finding.rank) && a.id <= b.id)
  }

  function Take(rows: seq<Row>): seq<Row> {
    if |rows| <= BATCH_SIZE then rows else rows[..BATCH_SIZE]
  }

  function AnchorRows(kind: Kind, rows: seq<Row>): seq<Row> {
    Filter(rows, f => Anchors(kind, f))
  }

  function TargetRows(kind: Kind, rows: seq<Row>): seq<Row> {
    Filter(rows, f => Wants(kind, f))
  }

  /** `dedupe_batch` and `ranker_batch`, over the loaded rows. */
  function BatchOf(kind: Kind, rows: seq<Row>): Batch {
    match kind
    case Dedupe => Batch(AnchorRows(kind, rows), Take(TargetRows(kind, rows)))
    case Ranker =>
      Batch(Sorting.Sort(AnchorRows(kind, rows), AnchorOrder), Take(Sorting.Sort(TargetRows(kind, rows), TargetOrder)))
  }

  ghost function BatchIn(kind: Kind, t: Table): Batch {
    BatchOf(kind, Load(t))
  }

  function Ids(rows: seq<Row>): set<Id> {
    set r | r in rows :: r.id
  }

  /** What a batch of a table is: all the anchors, and some targets unless nothing is left to do. */
  ghost predicate BatchFits(b: Batch, kind: Kind, t: Table) {
    && RowsFrom(b.anchors, t) && RowsFrom(b.targets, t)
    && Ids(b.anchors) == (set id | id in t && Anchors(kind, t[id]))
    && (forall r | r in b.targets :: Wants(kind, r.finding))
    && |b.targets| <= BATCH_SIZE
    && (b.targets == [] <==> AllDone(kind, t))
  }

  lemma TakeKeeps(rows: seq<Row>)
    ensures forall r | r in Take(rows) :: r in rows
    ensures Take(rows) == [] <==> rows == []
    ensures Sorting.Distinct(rows, RowId) ==> Sorting.Distinct(Take(rows), RowId)
  {
  }

  lemma SortKeeps(rows: seq<Row>, leq: (Row, Row) -> bool)
    ensures forall r :: r in Sorting.Sort(rows, leq) <==> r in rows
    ensures Sorting.Sort(rows, leq) == [] <==> rows == []
    ensures Sorting.Distinct(rows, RowId) ==> Sorting.Distinct(Sorting.Sort(rows, leq), RowId)
  {
    Sorting.SameElements(rows, leq);
    if Sorting.Distinct(rows, RowId) {
      Sorting.SortDistinct(rows, leq, RowId);
    }
  }

  lemma FilteredRows(t: Table, keep: Finding -> bool)
    ensures RowsFrom(Filter(Load(t), keep), t)
    ensures forall r :: r in Filter(Load(t), keep) <==> r.id in t && r.finding == t[r.id] && keep(r.finding)
    ensures Filter(Load(t), keep) == [] <==> forall id | id in t :: !keep(t[id])
  {
    var rows := Filter(Load(t), keep);
    LoadIs(t);
    FilterIs(Load(t), keep);
    if rows == [] {
      forall id | id in t ensures !keep(t[id]) {
        assert Row(id, t[id]).id == id;
      }
    } else {
      assert rows[0] in rows;
    }
  }

  ghost predicate AllAnchors(rows: seq<Row>, kind: Kind, t: Table) {
    RowsFrom(rows, t) && forall r :: r in rows <==> r.id in t && r.finding == t[r.id] && Anchors(kind, r.finding)
  }

  ghost predicate SomeTargets(rows: seq<Row>, kind: Kind, t: Table) {
    && RowsFrom(rows, t)
    && (forall r | r in rows :: Wants(kind, r.finding))
    && (rows == [] <==> AllDone(kind, t))
  }

  lemma AnchorRowsFit(kind: Kind, t: Table)
    ensures AllAnchors(AnchorRows(kind, Load(t)), kind, t)
    ensures AllAnchors(Sorting.Sort(AnchorRows(kind, Load(t)), AnchorOrder), kind, t)
  {
    FilteredRows(t, f => Anchors(kind, f));
    SortKeeps(AnchorRows(kind, Load(t)), AnchorOrder);
  }

  lemma TakenTargets(rows: seq<Row>, kind: Kind, t: Table)
    requires SomeTargets(rows, kind, t)
    ensures SomeTargets(Take(rows), kind, t)
  {
    TakeKeeps(rows);
  }

  lemma SortedTargets(rows: seq<Row>, kind: Kind, t: Table)
    requires SomeTargets(rows, kind, t)
    ensures SomeTargets(Sorting.Sort(rows, TargetOrder), kind, t)
  {
    SortKeeps(rows, TargetOrder);
  }

  lemma TargetRowsFit(kind: Kind, t: Table)
    ensures SomeTargets(Take(TargetRows(kind, Load(t))), kind, t)
    ensures SomeTargets(Take(Sorting.Sort(TargetRows(kind, Load(t)), TargetOrder)), kind, t)
  {
    var rows := TargetRows(kind, Load(t));
    assert SomeTargets(rows, kind, t) by {
      FilteredRows(t, f => Wants(kind, f));
    }
    SortedTargets(rows, kind, t);
    TakenTargets(rows, kind, t);
    TakenTargets(Sorting.Sort(rows, TargetOrder), kind, t);
  }

  lemma AnchorIdsAre(rows: seq<Row>, kind: Kind, t: Table)
    requires AllAnchors(rows, kind, t)
    ensures Ids(rows) == (set id | id in t && Anchors(kind, t[id]))
  {
    forall id | id in t && Anchors(kind, t[id]) ensures id in Ids(rows) {
      assert Row(id, t[id]) in rows;
    }
  }

  lemma BatchFitsWhen(b: Batch, kind: Kind, t: Table)
    requires AllAnchors(b.anchors, kind, t) && SomeTargets(b.targets, kind, t) && |b.targets| <= BATCH_SIZE
    ensures BatchFits(b, kind, t)
  {
    AnchorIdsAre(b.anchors, kind, t);
  }

  lemma BatchInIs(kind: Kind, t: Table)
    ensures AllAnchors(BatchIn(kind, t).anchors, kind, t) && SomeTargets(BatchIn(kind, t).targets, kind, t)
    ensures |BatchIn(kind, t).targets| <= BATCH_SIZE
  {
    AnchorRowsFit(kind, t);
    TargetRowsFit(kind, t);
  }

  lemma BatchInFits(kind: Kind, t: Table)
    ensures BatchFits(BatchIn(kind, t), kind, t)
  {
    BatchInIs(kind, t);
    BatchFitsWhen(BatchIn(kind, t), kind, t);
  }

  // ---- Which targets a batch takes ----

  lemma OrdersAreTotal()
    ensures Sorting.TotalPreorder(LoadOrder)
    ensures Sorting.TotalPreorder(AnchorOrder)
    ensures Sorting.TotalPreorder(TargetOrder)
  {
  }

  lemma {:induction false} FilterSorted(rows: seq<Row>, keep: Finding -> bool, leq: (Row, Row) -> bool)
    requires Sorting.Sorted(rows, leq)
    ensures Sorting.Sorted(Filter(rows, keep), leq)
  {
    if rows != [] {
      FilterSorted(rows[1..], keep, leq);
      var rest := Filter(rows[1..], keep);
      FilterIs(rows[1..], keep);
      forall j | 0 <= j < |rest| ensures leq(rows[0], rest[j]) {
        assert rest[j] in rows[1..];
        var k :| 0 <= k < |rows[1..]| && rows[1..][k] == rest[j];
        assert rows[k + 1] == rest[j];
      }
    }
  }

  function WantedOrder(kind: Kind): (Row, Row) -> bool {
    if kind.Dedupe? then LoadOrder else TargetOrder
  }

  /** The smaller rank first, a finding without a rank last, then the smaller id. */
  predicate ByRank(a: Row, b: Row) {
    match (a.finding.rank, b.finding.rank)
    case (Some(x), Some(y)) => x < y || (x == y && a.id <= b.id)
    case (Some(_), None) => true
    case (None, Some(_)) => false
    case (None, None) => a.id <= b.id
  }

  /** The smaller number first, where none counts as zero, then the smaller id. */
  predicate ByNumber(x: Option<nat>, a: Id, y: Option<nat>, b: Id) {
    var u, v := (match x case Some(n) => n case None => 0), (match y case Some(n) => n case None => 0);
    u < v || (u == v && a <= b)
  }

  predicate Earlier(kind: Kind, a: Row, b: Row) {
    if kind.Dedupe? then ByRank(a, b) else ByNumber(a.finding.rank, a.id, b.finding.rank, b.id)
  }

  lemma WantedIsEarlier(kind: Kind, a: Row, b: Row)
    ensures WantedOrder(kind)(a, b) <==> Earlier(kind, a, b)
  {
  }

  /** The targets are in order, and one that waits comes after all of a full batch. */
  ghost predicate TakesFirst(targets: seq<Row>, kind: Kind, t: Table) {
    && (forall i, j | 0 <= i < j < |targets| :: Earlier(kind, targets[i], targets[j]))
    && forall id | id in t && Wants(kind, t[id]) && Row(id, t[id]) !in targets ::
         |targets| == BATCH_SIZE && forall r | r in targets :: Earlier(kind, r, Row(id, t[id]))
  }

  lemma TakeIsFirst(rows: seq<Row>, kind: Kind, t: Table)
    requires Sorting.Sorted(rows, WantedOrder(kind))
    requires forall id | id in t && Wants(kind, t[id]) :: Row(id, t[id]) in rows
    ensures TakesFirst(Take(rows), kind, t)
  {
    forall a, b ensures WantedOrder(kind)(a, b) <==> Earlier(kind, a, b) {
      WantedIsEarlier(kind, a, b);
    }
    forall id | id in t && Wants(kind, t[id]) && Row(id, t[id]) !in Take(rows)
      ensures |Take(rows)| == BATCH_SIZE
      ensures forall r | r in Take(rows) :: Earlier(kind, r, Row(id, t[id]))
    {
      var k :| 0 <= k < |rows| && rows[k] == Row(id, t[id]);
      assert forall i | 0 <= i < |Take(rows)| :: Take(rows)[i] == rows[i];
    }
  }

  /** Deduplication takes the unprocessed findings in loading order. */
  lemma DedupeTakesFirst(t: Table)
    ensures TakesFirst(BatchIn(Dedupe, t).targets, Dedupe, t)
  {
    OrdersAreTotal();
    Sorting.SortSorted(RowsIn(RowSet(t)), LoadOrder);
    FilterSorted(Load(t), f => Wants(Dedupe, f), LoadOrder);
    FilteredRows(t, f => Wants(Dedupe, f));
    TakeIsFirst(TargetRows(Dedupe, Load(t)), Dedupe, t);
  }

  /** Ranking takes the unranked canonicals in their old order, and places them against anchors in rank order. */
  lemma RankerTakesFirst(t: Table)
    ensures TakesFirst(BatchIn(Ranker, t).targets, Ranker, t)
    ensures var anchors := BatchIn(Ranker, t).anchors;
            forall i, j | 0 <= i < j < |anchors| ::
              ByNumber(anchors[i].finding.bountyRank, anchors[i].id, anchors[j].finding.bountyRank, anchors[j].id)
  {
    RankerTargets(t);
    SortedTakesFirst(TargetRows(Ranker, Load(t)), t);
    OrdersAreTotal();
    Sorting.SortSorted(AnchorRows(Ranker, Load(t)), AnchorOrder);
  }

  lemma RankerTargets(t: Table)
    ensures forall id | id in t && Wants(Ranker, t[id]) :: Row(id, t[id]) in TargetRows(Ranker, Load(t))
  {
    FilteredRows(t, f => Wants(Ranker, f));
  }

  lemma SortedTakesFirst(rows: seq<Row>, t: Table)
    requires forall id | id in t && Wants(Ranker, t[id]) :: Row(id, t[id]) in rows
    ensures TakesFirst(Take(Sorting.Sort(rows, TargetOrder)), Ranker, t)
  {
    OrdersAreTotal();
    Sorting.SortSorted(rows, TargetOrder);
    SortKeeps(rows, TargetOrder);
    TakeIsFirst(Sorting.Sort(rows, TargetOrder), Ranker, t);
  }
}
