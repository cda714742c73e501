/**
 Checking the model's clusters and turning them into a mapping (engine/open_kritt_engine/post_processing.py,
 `validate_dedupe_payload` and `dedupe_mapping_from_clusters`; engine/open_kritt_engine/db.py, `apply_dedupe_mapping`).
 */
module DedupePayloads {
  import opened Wrappers
  import opened Findings
  import Sorting
  import Text

  datatype Cluster = Cluster(ids: seq<Id>, reason: string)

  datatype Fault =
    | EmptyIds
    | UnexpectedId(id: Id)
    | RepeatedId(id: Id)
    | NoTarget
    | MergesAnchors
    | Missing(ids: set<Id>)

  function IdSet(ids: seq<Id>): set<Id> {
    set id | id in ids
  }

  /** All the ids of a payload, in order. */
  function Flat(clusters: seq<Cluster>): seq<Id> {
    if clusters == [] then [] else Flat(clusters[..|clusters| - 1]) + clusters[|clusters| - 1].ids
  }

  ghost predicate AllDifferent(ids: seq<Id>) {
    forall i, j | 0 <= i < j < |ids| :: ids[i] != ids[j]
  }

  ghost predicate HasTarget(c: Cluster, targets: set<Id>) {
    exists id | id in c.ids :: id in targets
  }

  ghost predicate MergesTwo(c: Cluster, anchors: set<Id>) {
    Twice(c.ids, anchors)
  }

  /** The clusters partition the targets, each with a target and at most one anchor. */
  ghost predicate ClustersOk(clusters: seq<Cluster>, anchors: set<Id>, targets: set<Id>) {
    && (forall c | c in clusters :: HasTarget(c, targets) && !MergesTwo(c, anchors))
    && AllDifferent(Flat(clusters))
    && targets <= IdSet(Flat(clusters)) <= anchors + targets
  }

  /** What each refusal means. */
  ghost predicate FaultHolds(f: Fault, clusters: seq<Cluster>, anchors: set<Id>, targets: set<Id>) {
    match f
    case EmptyIds => exists c | c in clusters :: c.ids == []
    case UnexpectedId(id) => id in Flat(clusters) && id !in anchors + targets
    case RepeatedId(id) => exists i, j | 0 <= i < j < |Flat(clusters)| :: Flat(clusters)[i] == id == Flat(clusters)[j]
    case NoTarget => exists c | c in clusters :: !HasTarget(c, targets)
    case MergesAnchors => exists c | c in clusters :: MergesTwo(c, anchors)
    case Missing(ids) => ids == targets - IdSet(Flat(clusters)) && ids != {}
  }

  lemma FaultMeansRefusal(f: Fault, clusters: seq<Cluster>, anchors: set<Id>, targets: set<Id>)
    requires FaultHolds(f, clusters, anchors, targets)
    ensures !ClustersOk(clusters, anchors, targets)
  {
    match f
    case EmptyIds =>
      var c :| c in clusters && c.ids == [];
      assert !HasTarget(c, targets);
    case UnexpectedId(id) =>
      assert id in IdSet(Flat(clusters));
    case _ =>
  }

  lemma {:induction false} FlatPrefix(clusters: seq<Cluster>, i: nat)
    requires i < |clusters|
    ensures Flat(clusters[..i + 1]) == Flat(clusters[..i]) + clusters[i].ids
    ensures Flat(clusters[..i]) + clusters[i].ids <= Flat(clusters)
    decreases |clusters| - i
  {
    assert clusters[..i + 1][..i] == clusters[..i];
    if i + 1 < |clusters| {
      FlatPrefix(clusters, i + 1);
    } else {
      assert clusters[..i + 1] == clusters;
    }
  }

  /** The ids of a list that are in a set, in order. */
  function Chosen(ids: seq<Id>, of: set<Id>): seq<Id> {
    if ids == [] then [] else (if ids[0] in of then [ids[0]] else []) + Chosen(ids[1..], of)
  }

  lemma {:induction false} ChosenIs(ids: seq<Id>, of: set<Id>)
    ensures forall id :: id in Chosen(ids, of) <==> id in ids && id in of
    ensures IdSet(Chosen(ids, of)) == IdSet(ids) * of
  {
    if ids != [] {
      ChosenIs(ids[1..], of);
      assert forall id :: id in ids <==> id == ids[0] || id in ids[1..];
    }
  }

  ghost predicate Twice(ids: seq<Id>, of: set<Id>) {
    exists i, j | 0 <= i < j < |ids| :: ids[i] in of && ids[j] in of
  }

  lemma {:induction false} ChosenCount(ids: seq<Id>, of: set<Id>)
    ensures |Chosen(ids, of)| > 1 <==> Twice(ids, of)
  {
    if ids != [] {
      var rest := ids[1..];
      ChosenCount(rest, of);
      ChosenIs(rest, of);
      if Twice(rest, of) {
        var i, j :| 0 <= i < j < |rest| && rest[i] in of && rest[j] in of;
        assert ids[i + 1] in of && ids[j + 1] in of;
      }
      if ids[0] in of && Chosen(rest, of) != [] {
        var id := Chosen(rest, of)[0];
        assert id in Chosen(rest, of);
        var j :| 0 <= j < |rest| && rest[j] == id;
        assert ids[0] in of && ids[j + 1] in of;
      }
      forall i, j | 0 <= i < j < |ids| && ids[i] in of && ids[j] in of ensures |Chosen(ids, of)| > 1 {
        assert rest[j - 1] == ids[j];
        assert ids[j] in Chosen(rest, of);
        if i > 0 {
          assert rest[i - 1] == ids[i];
        }
      }
    }
  }

  lemma ProperSubset(a: set<Id>, b: set<Id>)
    requires a <= b && a != b
    ensures b - a != {}
  {
    assert b <= a ==> a == b;
    assert (forall id | id in b :: id !in b - a) ==> b <= a;
  }

  /** The inner loop: ids must be allowed and must not have been seen. */
  method ScanIds(ids: seq<Id>, allowed: set<Id>, before: seq<Id>, seenBefore: set<Id>)
    returns (r: Result<set<Id>, Fault>)
    requires seenBefore == IdSet(before) && AllDifferent(before)
    ensures r.Ok? ==> IdSet(ids) <= allowed && AllDifferent(before + ids) && r.value == IdSet(before + ids)
    ensures r.Err? ==> r.error.UnexpectedId? || r.error.RepeatedId?
    ensures r.Err? && r.error.UnexpectedId? ==> r.error.id in ids && r.error.id !in allowed
    ensures r.Err? && r.error.RepeatedId? ==>
      exists i, j | 0 <= i < j < |before + ids| :: (before + ids)[i] == r.error.id == (before + ids)[j]
  {
    var seen := seenBefore;
    assert before + ids[..0] == before;
    for k := 0 to |ids|
      invariant seen == IdSet(before + ids[..k])
      invariant IdSet(ids[..k]) <= allowed
      invariant AllDifferent(before + ids[..k])
    {
      assert before + ids[..k + 1] == before + ids[..k] + [ids[k]];
      assert before + ids == before + ids[..k] + [ids[k]] + ids[k + 1..];
      if ids[k] !in allowed {
        return Err(UnexpectedId(ids[k]));
      }
      if ids[k] in seen {
        var i :| 0 <= i < |before + ids[..k]| && (before + ids[..k])[i] == ids[k];
        assert (before + ids)[i] == ids[k] == (before + ids)[|before| + k];
        return Err(RepeatedId(ids[k]));
      }
      seen := seen + {ids[k]};
    }
    assert ids[..|ids|] == ids;
    r := Ok(seen);
  }

  /** `validate_dedupe_payload`. */
  method ValidateDedupePayload(clusters: seq<Cluster>, anchors: set<Id>, targets: set<Id>)
    returns (r: Result<seq<Cluster>, Fault>)
    ensures r.Ok? <==> ClustersOk(clusters, anchors, targets)
    ensures r.Ok? ==> r.value == clusters
    ensures r.Err? ==> FaultHolds(r.error, clusters, anchors, targets)
  {
    for i := 0 to |clusters|
      invariant forall c | c in clusters[..i] :: c.ids != []
    {
      if clusters[i].ids == [] {
        FaultMeansRefusal(EmptyIds, clusters, anchors, targets);
        return Err(EmptyIds);
      }
    }
    var seen: set<Id>, seenTargets: set<Id>, cleaned := {}, {}, [];
    for i := 0 to |clusters|
      invariant cleaned == clusters[..i]
      invariant seen == IdSet(Flat(clusters[..i])) <= anchors + targets
      invariant seenTargets == seen * targets
      invariant AllDifferent(Flat(clusters[..i]))
      invariant forall c | c in clusters[..i] :: HasTarget(c, targets) && !MergesTwo(c, anchors)
    {
      var c := clusters[i];
      FlatPrefix(clusters, i);
      var scanned := ScanIds(c.ids, anchors + targets, Flat(clusters[..i]), seen);
      if scanned.Err? {
        ScanFault(clusters, i, scanned.error, anchors, targets);
        return Err(scanned.error);
      }
      var clusterTargets, clusterAnchors := Chosen(c.ids, targets), Chosen(c.ids, anchors);
      ChosenIs(c.ids, targets);
      ChosenCount(c.ids, anchors);
      if clusterTargets == [] {
        assert forall id | id in c.ids :: id !in targets by {
          assert forall id :: id !in clusterTargets;
        }
        assert c in clusters && !HasTarget(c, targets);
        return Err(NoTarget);
      }
      if |clusterAnchors| > 1 {
        assert MergesTwo(c, anchors);
        assert FaultHolds(MergesAnchors, clusters, anchors, targets);
        return Err(MergesAnchors);
      }
      var first := clusterTargets[0];
      assert first in clusterTargets;
      assert first in c.ids && first in targets;
      assert scanned.value == seen + IdSet(c.ids);
      seen := scanned.value;
      seenTargets := seenTargets + IdSet(clusterTargets);
      cleaned := cleaned + [c];
    }
    assert clusters[..|clusters|] == clusters;
    if seenTargets != targets {
      ProperSubset(seenTargets, targets);
      return Err(Missing(targets - seenTargets));
    }
    r := Ok(cleaned);
  }

  lemma ScanFault(clusters: seq<Cluster>, i: nat, f: Fault, anchors: set<Id>, targets: set<Id>)
    requires i < |clusters|
    requires f.UnexpectedId? || f.RepeatedId?
    requires f.UnexpectedId? ==> f.id in clusters[i].ids && f.id !in anchors + targets
    requires f.RepeatedId? ==>
      var s := Flat(clusters[..i]) + clusters[i].ids;
      exists j, k | 0 <= j < k < |s| :: s[j] == f.id == s[k]
    ensures FaultHolds(f, clusters, anchors, targets)
    ensures !ClustersOk(clusters, anchors, targets)
  {
    FlatPrefix(clusters, i);
    var s := Flat(clusters[..i]) + clusters[i].ids;
    assert forall j | 0 <= j < |s| :: s[j] == Flat(clusters)[j];
    if f.RepeatedId? {
      var j, k :| 0 <= j < k < |s| && s[j] == f.id == s[k];
      assert Flat(clusters)[j] == f.id == Flat(clusters)[k];
    } else {
      var k :| 0 <= k < |clusters[i].ids| && clusters[i].ids[k] == f.id;
      assert s[|Flat(clusters[..i])| + k] == f.id;
    }
    FaultMeansRefusal(f, clusters, anchors, targets);
  }

  // ---- The mapping ----

  datatype Assignment = Assignment(canonicalId: Id, isCanonical: bool, cluster: string, reason: string)

  function IntText(i: int): string {
    if i < 0 then "-" + Text.NatText(-i) else Text.NatText(i)
  }

  function ClusterId(scan: int, canonical: Id): string {
    IntText(scan) + ":" + IntText(canonical)
  }

  lemma IntTextInjective(a: int, b: int)
    requires IntText(a) == IntText(b)
    ensures a == b
  {
    assert Text.IsDigit(Text.NatText(if a < 0 then -a else a)[0]);
    assert Text.IsDigit(Text.NatText(if b < 0 then -b else b)[0]);
    assert a < 0 ==> IntText(a)[0] == '-' && IntText(a)[1..] == Text.NatText(-a);
    assert b < 0 ==> IntText(b)[0] == '-' && IntText(b)[1..] == Text.NatText(-b);
    Text.NatTextInjective(if a < 0 then -a else a, if b < 0 then -b else b);
  }

  /** The decimal numeral of a whole number. */
  predicate IntNumeral(s: string, i: int) {
    if i < 0 then s != "" && s[0] == '-' && Text.Numeral(s[1..], -i) else Text.Numeral(s, i)
  }

  lemma IntTextIs(i: int)
    ensures IntNumeral(IntText(i), i)
  {
    Text.NatTextIs(if i < 0 then -i else i);
    assert i < 0 ==> IntText(i)[1..] == Text.NatText(-i);
  }

  /** A cluster id is the numerals of the scan and of the canonical, with a colon between them. */
  lemma ClusterIdIs(scan: int, canonical: Id) returns (before: string, after: string)
    ensures ClusterId(scan, canonical) == before + ":" + after
    ensures IntNumeral(before, scan) && IntNumeral(after, canonical)
  {
    before, after := IntText(scan), IntText(canonical);
    IntTextIs(scan);
    IntTextIs(canonical);
  }

  /** Two findings of a scan get the same cluster id only when they get the same canonical. */
  lemma ClusterIdInjective(scan: int, a: Id, b: Id)
    requires ClusterId(scan, a) == ClusterId(scan, b)
    ensures a == b
  {
    AfterColon(IntText(scan), IntText(a));
    AfterColon(IntText(scan), IntText(b));
    IntTextInjective(a, b);
  }

  lemma AfterColon(before: string, after: string)
    ensures (before + ":" + after)[|before| + 1..] == after
  {
  }

  predicate AtMost(a: Id, b: Id) {
    a <= b
  }

  function Least(ids: seq<Id>): Id
    requires ids != []
  {
    Sorting.SameElements(ids, AtMost);
    Sorting.Sort(ids, AtMost)[0]
  }

  lemma LeastIs(ids: seq<Id>)
    requires ids != []
    ensures Least(ids) in ids && forall id | id in ids :: Least(ids) <= id
  {
    var s := Sorting.Sort(ids, AtMost);
    Sorting.SameElements(ids, AtMost);
    Sorting.SortSorted(ids, AtMost);
    assert s[0] in s;
    forall id | id in ids ensures s[0] <= id {
      assert id in s;
      var k :| 0 <= k < |s| && s[k] == id;
      assert k > 0 ==> AtMost(s[0], s[k]);
    }
  }

  /** The anchor of a cluster when there is one, the least target otherwise. */
  function CanonicalOf(c: Cluster, anchors: set<Id>, targets: set<Id>): Id
    requires Chosen(c.ids, targets) != []
  {
    var own := Chosen(c.ids, anchors);
    if own != [] then Least(own) else Least(Chosen(c.ids, targets))
  }

  predicate AllHaveTargets(clusters: seq<Cluster>, targets: set<Id>) {
    forall c | c in clusters :: Chosen(c.ids, targets) != []
  }

  /** Every target of a cluster gets the cluster's canonical, cluster id and reason. */
  function AssignAll(
    before: map<Id, Assignment>, ids: seq<Id>, canonical: Id, cluster: string, reason: string): map<Id, Assignment>
  {
    if ids == [] then before
    else
      var id := ids[|ids| - 1];
      AssignAll(before, ids[..|ids| - 1], canonical, cluster, reason)
        [id := Assignment(canonical, id == canonical, cluster, reason)]
  }

  function ReasonOf(c: Cluster): string {
    if c.reason == "" then "singleton" else c.reason
  }

  function AddCluster(
    before: map<Id, Assignment>, c: Cluster, scan: int, anchors: set<Id>, targets: set<Id>): map<Id, Assignment>
    requires Chosen(c.ids, targets) != []
  {
    var canonical := CanonicalOf(c, anchors, targets);
    AssignAll(before, Chosen(c.ids, targets), canonical, ClusterId(scan, canonical), ReasonOf(c))
  }

  function Mapping(clusters: seq<Cluster>, scan: int, anchors: set<Id>, targets: set<Id>): map<Id, Assignment>
    requires AllHaveTargets(clusters, targets)
  {
    if clusters == [] then map[]
    else
      AddCluster(
        Mapping(clusters[..|clusters| - 1], scan, anchors, targets), clusters[|clusters| - 1], scan, anchors, targets)
  }

  lemma OkHaveTargets(clusters: seq<Cluster>, anchors: set<Id>, targets: set<Id>)
    requires ClustersOk(clusters, anchors, targets)
    ensures AllHaveTargets(clusters, targets)
  {
    forall c | c in clusters ensures Chosen(c.ids, targets) != [] {
      assert HasTarget(c, targets);
      var id :| id in c.ids && id in targets;
      ChosenIs(c.ids, targets);
      assert id in Chosen(c.ids, targets);
    }
  }

  /** The inner loop of `dedupe_mapping_from_clusters`. */
  method AssignTargets(before: map<Id, Assignment>, ids: seq<Id>, canonical: Id, cluster: string, reason: string)
    returns (mapping: map<Id, Assignment>)
    ensures mapping == AssignAll(before, ids, canonical, cluster, reason)
  {
    mapping := before;
    for k := 0 to |ids|
      invariant mapping == AssignAll(before, ids[..k], canonical, cluster, reason)
    {
      mapping := mapping[ids[k] := Assignment(canonical, ids[k] == canonical, cluster, reason)];
      assert ids[..k + 1][..k] == ids[..k];
    }
    assert ids[..|ids|] == ids;
  }

  /** `dedupe_mapping_from_clusters`. */
  method DedupeMapping(clusters: seq<Cluster>, scan: int, anchors: set<Id>, targets: set<Id>)
    returns (mapping: map<Id, Assignment>)
    requires AllHaveTargets(clusters, targets)
    ensures mapping == Mapping(clusters, scan, anchors, targets)
  {
    mapping := map[];
    for i := 0 to |clusters|
      invariant mapping == Mapping(clusters[..i], scan, anchors, targets)
    {
      var c := clusters[i];
      var own, ids := Chosen(c.ids, anchors), Chosen(c.ids, targets);
      var canonical := if own != [] then Least(own) else Least(ids);
      assert canonical == CanonicalOf(c, anchors, targets);
      assert clusters[..i + 1][..i] == clusters[..i];
      mapping := AssignTargets(mapping, ids, canonical, ClusterId(scan, canonical), ReasonOf(c));
    }
    assert clusters[..|clusters|] == clusters;
  }

  lemma {:induction false} AssignAllIs(
    before: map<Id, Assignment>, ids: seq<Id>, canonical: Id, cluster: string, reason: string)
    ensures var m := AssignAll(before, ids, canonical, cluster, reason);
      forall id :: (id in m <==> id in before || id in ids)
        && (id in ids ==> m[id] == Assignment(canonical, id == canonical, cluster, reason))
        && (id in before && id !in ids ==> m[id] == before[id])
  {
    if ids != [] {
      var front := ids[..|ids| - 1];
      AssignAllIs(before, front, canonical, cluster, reason);
      assert ids == front + [ids[|ids| - 1]];
    }
  }

  /** What a finding is assigned, said without the code: its cluster's anchor, or the cluster's least target. */
  ghost predicate AssignedBy(a: Assignment, id: Id, c: Cluster, scan: int, anchors: set<Id>, targets: set<Id>) {
    && a.canonicalId in c.ids
    && (if exists k :: k in c.ids && k in anchors then a.canonicalId in anchors
        else a.canonicalId in targets && forall k | k in c.ids && k in targets :: a.canonicalId <= k)
    && (a.isCanonical <==> id == a.canonicalId)
    && a.cluster == ClusterId(scan, a.canonicalId)
    && a.reason == ReasonOf(c)
  }

  lemma CanonicalIs(c: Cluster, anchors: set<Id>, targets: set<Id>)
    requires Chosen(c.ids, targets) != []
    ensures var k := CanonicalOf(c, anchors, targets);
      k in c.ids
      && if exists j :: j in c.ids && j in anchors then k in anchors
         else k in targets && forall j | j in c.ids && j in targets :: k <= j
  {
    ChosenIs(c.ids, anchors);
    ChosenIs(c.ids, targets);
    if Chosen(c.ids, anchors) != [] {
      LeastIs(Chosen(c.ids, anchors));
    } else {
      LeastIs(Chosen(c.ids, targets));
    }
  }

  /** The cluster of the payload that an id is in. */
  ghost function ClusterWith(clusters: seq<Cluster>, id: Id): Cluster
    requires id in Flat(clusters)
  {
    var last := clusters[|clusters| - 1];
    if id in last.ids then last else ClusterWith(clusters[..|clusters| - 1], id)
  }

  lemma {:induction false} ClusterWithIs(clusters: seq<Cluster>, id: Id)
    requires id in Flat(clusters)
    ensures ClusterWith(clusters, id) in clusters && id in ClusterWith(clusters, id).ids
  {
    if id !in clusters[|clusters| - 1].ids {
      ClusterWithIs(clusters[..|clusters| - 1], id);
    }
  }

  lemma CanonicalAssigns(c: Cluster, id: Id, scan: int, anchors: set<Id>, targets: set<Id>)
    requires Chosen(c.ids, targets) != []
    ensures var canonical := CanonicalOf(c, anchors, targets);
      AssignedBy(
        Assignment(canonical, id == canonical, ClusterId(scan, canonical), ReasonOf(c)), id, c, scan, anchors, targets)
  {
    CanonicalIs(c, anchors, targets);
  }

  /** Adding a cluster assigns its targets, and leaves the other assignments. */
  lemma AddClusterIs(
    m: map<Id, Assignment>, c: Cluster, id: Id, scan: int, anchors: set<Id>, targets: set<Id>)
    requires Chosen(c.ids, targets) != []
    ensures var after := AddCluster(m, c, scan, anchors, targets);
      && (id in after <==> id in m || (id in c.ids && id in targets))
      && (id in c.ids && id in targets ==> AssignedBy(after[id], id, c, scan, anchors, targets))
      && (id in after && !(id in c.ids && id in targets) ==> after[id] == m[id])
  {
    var ids, canonical := Chosen(c.ids, targets), CanonicalOf(c, anchors, targets);
    ChosenIs(c.ids, targets);
    AssignAllIs(m, ids, canonical, ClusterId(scan, canonical), ReasonOf(c));
    CanonicalAssigns(c, id, scan, anchors, targets);
  }

  /** The mapping covers the clustered targets, each assigned by the cluster it is in. */
  lemma {:induction false} MappingIs(clusters: seq<Cluster>, id: Id, scan: int, anchors: set<Id>, targets: set<Id>)
    requires AllHaveTargets(clusters, targets)
    ensures var m := Mapping(clusters, scan, anchors, targets);
      && (id in m <==> id in Flat(clusters) && id in targets)
      && (id in m ==> AssignedBy(m[id], id, ClusterWith(clusters, id), scan, anchors, targets))
  {
    if clusters != [] {
      var front, c := clusters[..|clusters| - 1], clusters[|clusters| - 1];
      MappingIs(front, id, scan, anchors, targets);
      AddClusterIs(Mapping(front, scan, anchors, targets), c, id, scan, anchors, targets);
    }
  }
}
