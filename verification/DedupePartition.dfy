/** What an accepted dedupe batch does to the findings of a scan. */
module DedupePartition {
  import opened Wrappers
  import opened Findings
  import opened DedupePayloads

  /** `apply_dedupe_mapping`. */
  function ApplyMapping(t: Table, m: map<Id, Assignment>): Table {
    map id | id in t :: if id in m then Filed(t[id], m[id]) else t[id]
  }

  function Filed(f: Finding, a: Assignment): Finding {
    f.(canonical := Some(a.isCanonical), canonicalId := Some(a.canonicalId), cluster := Some(a.cluster))
  }

  /** A finding is unprocessed, or points to a canonical that points to itself and shares its cluster id. */
  ghost predicate FiledRight(t: Table, scan: int, id: Id)
    requires id in t
  {
    match t[id].canonical
    case None => t[id].canonicalId.None? && t[id].cluster.None?
    case Some(isCanonical) =>
      && t[id].canonicalId.Some?
      && var c := t[id].canonicalId.value;
      && t[id].cluster == Some(ClusterId(scan, c))
      && (isCanonical <==> id == c)
      && c in t && t[c].canonical == Some(true)
  }

  ghost predicate Partition(t: Table, scan: int) {
    forall id | id in t :: FiledRight(t, scan, id)
  }

  /** Two processed findings share a cluster id exactly when they share a canonical. */
  lemma SameClusterIff(t: Table, scan: int, a: Id, b: Id)
    requires Partition(t, scan) && a in t && b in t && t[a].canonical.Some? && t[b].canonical.Some?
    ensures t[a].cluster == t[b].cluster <==> t[a].canonicalId == t[b].canonicalId
  {
    assert FiledRight(t, scan, a) && FiledRight(t, scan, b);
    if t[a].cluster == t[b].cluster {
      ClusterIdInjective(scan, t[a].canonicalId.value, t[b].canonicalId.value);
    }
  }

  /** Two findings of one cluster id point to one finding, which is canonical and its own canonical. */
  lemma CanonicalPointsToItself(t: Table, scan: int, id: Id)
    requires Partition(t, scan) && id in t && t[id].canonical.Some?
    ensures t[id].canonicalId.Some?
    ensures var c := t[id].canonicalId.value;
      c in t && t[c].canonical == Some(true) && t[c].canonicalId == Some(c) && t[c].cluster == t[id].cluster
  {
    assert FiledRight(t, scan, id);
    assert FiledRight(t, scan, t[id].canonicalId.value);
  }

  lemma {:induction false} InFlat(clusters: seq<Cluster>, c: Cluster, id: Id)
    requires c in clusters && id in c.ids
    ensures id in Flat(clusters)
  {
    var front, last := clusters[..|clusters| - 1], clusters[|clusters| - 1];
    if c in front {
      InFlat(front, c, id);
    } else {
      assert clusters == front + [last];
    }
  }

  /** No id is in two clusters, so the cluster found for an id is the only one that holds it. */
  lemma {:induction false} ClusterIsUnique(clusters: seq<Cluster>, c: Cluster, id: Id)
    requires AllDifferent(Flat(clusters)) && c in clusters && id in c.ids
    ensures id in Flat(clusters) && ClusterWith(clusters, id) == c
  {
    var front, last := clusters[..|clusters| - 1], clusters[|clusters| - 1];
    InFlat(clusters, c, id);
    assert clusters == front + [last];
    var before, flat := Flat(front), Flat(clusters);
    assert forall i | 0 <= i < |before| :: flat[i] == before[i];
    if c in front {
      InFlat(front, c, id);
      var i :| 0 <= i < |before| && before[i] == id;
      assert forall k | 0 <= k < |last.ids| :: flat[|before| + k] == last.ids[k];
      assert id !in last.ids;
      ClusterIsUnique(front, c, id);
    }
  }

  ghost predicate Parts(t: Table, anchors: set<Id>, targets: set<Id>) {
    && (forall id | id in anchors :: id in t && t[id].canonical == Some(true))
    && (forall id | id in targets :: id in t && t[id].canonical == None)
  }

  /** The canonical of a target is an anchor, or a target that is its own canonical. */
  lemma CanonicalIsFiled(clusters: seq<Cluster>, scan: int, anchors: set<Id>, targets: set<Id>, id: Id)
    requires ClustersOk(clusters, anchors, targets) && anchors !! targets && id in targets
    requires AllHaveTargets(clusters, targets)
    ensures var m := Mapping(clusters, scan, anchors, targets);
      && id in m
      && (m[id].isCanonical <==> id == m[id].canonicalId)
      && m[id].cluster == ClusterId(scan, m[id].canonicalId)
      && (m[id].canonicalId in anchors || (m[id].canonicalId in m && m[m[id].canonicalId].isCanonical))
  {
    MappingIs(clusters, id, scan, anchors, targets);
    var m := Mapping(clusters, scan, anchors, targets);
    assert id in IdSet(Flat(clusters));
    var c, k := ClusterWith(clusters, id), m[id].canonicalId;
    MappingIs(clusters, k, scan, anchors, targets);
    ClusterWithIs(clusters, id);
    if k !in anchors {
      ClusterIsUnique(clusters, c, k);
      assert k in m && ClusterWith(clusters, k) == c;
    }
  }

  /** The mapping an accepted payload is turned into. */
  ghost function MappingFor(clusters: seq<Cluster>, scan: int, anchors: set<Id>, targets: set<Id>): map<Id, Assignment>
    requires ClustersOk(clusters, anchors, targets)
  {
    OkHaveTargets(clusters, anchors, targets);
    Mapping(clusters, scan, anchors, targets)
  }

  lemma MappingCovers(clusters: seq<Cluster>, scan: int, anchors: set<Id>, targets: set<Id>)
    requires ClustersOk(clusters, anchors, targets)
    ensures forall id :: id in MappingFor(clusters, scan, anchors, targets) <==> id in targets
  {
    OkHaveTargets(clusters, anchors, targets);
    forall id ensures id in MappingFor(clusters, scan, anchors, targets) <==> id in targets {
      MappingIs(clusters, id, scan, anchors, targets);
      assert id in targets ==> id in IdSet(Flat(clusters));
    }
  }

  /** An accepted batch keeps the partition. */
  lemma BatchKeepsPartition(t: Table, scan: int, clusters: seq<Cluster>, anchors: set<Id>, targets: set<Id>)
    requires Partition(t, scan) && Parts(t, anchors, targets) && ClustersOk(clusters, anchors, targets)
    ensures Partition(ApplyMapping(t, MappingFor(clusters, scan, anchors, targets)), scan)
  {
    var m := MappingFor(clusters, scan, anchors, targets);
    var after := ApplyMapping(t, m);
    OkHaveTargets(clusters, anchors, targets);
    MappingCovers(clusters, scan, anchors, targets);
    forall id | id in t ensures FiledRight(after, scan, id) {
      assert FiledRight(t, scan, id);
      if id in m {
        CanonicalIsFiled(clusters, scan, anchors, targets, id);
      }
    }
  }

  predicate SameRanks(a: Finding, b: Finding) {
    a.bountyRank == b.bountyRank && a.total == b.total && a.rank == b.rank
  }

  predicate SameFiling(a: Finding, b: Finding) {
    a.canonical == b.canonical && a.canonicalId == b.canonicalId && a.cluster == b.cluster
  }

  lemma SameFilingKeepsPartition(t: Table, after: Table, scan: int)
    requires Partition(t, scan) && after.Keys == t.Keys
    requires forall id | id in t :: SameFiling(t[id], after[id])
    ensures Partition(after, scan)
  {
    forall id | id in after ensures FiledRight(after, scan, id) {
      assert FiledRight(t, scan, id);
    }
  }

  /** Processed findings are untouched, so no canonical is demoted or merged; exactly the targets get processed. */
  lemma BatchOnlyFilesTargets(t: Table, scan: int, clusters: seq<Cluster>, anchors: set<Id>, targets: set<Id>)
    requires Parts(t, anchors, targets) && ClustersOk(clusters, anchors, targets)
    ensures var after := ApplyMapping(t, MappingFor(clusters, scan, anchors, targets));
      && after.Keys == t.Keys
      && (forall id | id in t && t[id].canonical.Some? :: after[id] == t[id])
      && (forall id | id in t :: after[id].canonical.None? <==> t[id].canonical.None? && id !in targets)
      && (forall id | id in t :: SameRanks(t[id], after[id]))
  {
    MappingCovers(clusters, scan, anchors, targets);
  }
}
