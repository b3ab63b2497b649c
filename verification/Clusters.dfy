/** Rounding requests to clusters, and the overlap test that serialises them (block.c). */
module Clusters {
  import opened Arith

  /** A half-open range of sectors. */
  datatype Range = Range(start: nat, count: nat) {
    ghost predicate Contains(x: nat) { start <= x < start + count }
  }

  ghost predicate Disjoint(a: Range, b: Range) {
    forall x :: !(a.Contains(x) && b.Contains(x))
  }

  /** round_to_clusters; a driver that reports no cluster size rounds nothing. */
  function RoundToClusters(cluster: nat, r: Range): Range {
    if cluster == 0 then r else
      var start := AlignDown(r.start, cluster);
      Range(start, AlignUp(r.start - start + r.count, cluster))
  }

  /** tracked_request_overlaps. */
  predicate Overlaps(req: Range, r: Range) {
    if r.start >= req.start + req.count then false
    else if req.start >= r.start + r.count then false
    else true
  }

  /** For ranges that are not empty, the test is exactly "they have a sector in common". */
  lemma OverlapsIffCommon(a: Range, b: Range)
    requires a.count > 0 && b.count > 0
    ensures Overlaps(a, b) <==> !Disjoint(a, b)
  {
    if Overlaps(a, b) {
      var x := if a.start >= b.start then a.start else b.start;
      assert a.Contains(x) && b.Contains(x);
    }
  }

  /** A rounded range covers the range and starts and ends on cluster boundaries. */
  lemma RoundCovers(cluster: nat, r: Range)
    ensures var w := RoundToClusters(cluster, r);
            w.start <= r.start && r.start + r.count <= w.start + w.count
    ensures cluster > 0 ==> var w := RoundToClusters(cluster, r);
            exists i: nat, j: nat :: w.start == i * cluster && w.start + w.count == j * cluster
  {
    if cluster > 0 {
      var start := AlignDown(r.start, cluster);
      AlignDownBounds(r.start, cluster);
      var n := r.start - start + r.count;
      AlignDownBounds(n + cluster - 1, cluster);
      var i, j := r.start / cluster, (n + cluster - 1) / cluster;
      assert start + AlignUp(n, cluster) == (i + j) * cluster;
    }
  }

  /** Testing one request's rounded range against the other's unrounded one is enough to keep
      them out of each other's clusters. */
  lemma NoOverlapNoSharedCluster(cluster: nat, mine: Range, req: Range)
    requires !Overlaps(req, RoundToClusters(cluster, mine))
    ensures Disjoint(RoundToClusters(cluster, mine), RoundToClusters(cluster, req))
  {
    if cluster > 0 {
      var w, v := RoundToClusters(cluster, mine), RoundToClusters(cluster, req);
      RoundCovers(cluster, mine);
      var i: nat, j: nat :| w.start == i * cluster && w.start + w.count == j * cluster;
      var start := AlignDown(req.start, cluster);
      AlignDownBounds(req.start, cluster);
      if w.start >= req.start + req.count {
        EndsBefore(cluster, req, i);
      } else {
        AlignDownGreatest(req.start, cluster, j);
      }
    }
  }

  lemma EndsBefore(cluster: nat, req: Range, i: nat)
    requires cluster > 0 && req.start + req.count <= i * cluster
    ensures var v := RoundToClusters(cluster, req); v.start + v.count <= i * cluster
  {
    var q := req.start / cluster;
    var start := AlignDown(req.start, cluster);
    AlignDownBounds(req.start, cluster);
    var n := req.start - start + req.count;
    if q > i {
      MulLess(i, q, cluster);
    } else {
      assert (i - q) * cluster == i * cluster - start;
      AlignUpLeast(n, cluster, i - q);
    }
  }
}
