/**
 * detect_communities_auc.py, the detections: a neighbour belongs to the
 * source's community at deviation dev when its AUC differs from the mean AUC
 * by at most dev times that mean. The AUCs themselves (spline integrals) are inputs.
 * detect_communities_from_sourcenode averages the AUCs of the source's own
 * difference signals; detect_communities averages the neighbours' own AUCs
 * and skips neighbours without one.
 */
module DetectAuc {
  import opened Base
  import opened Dict
  import opened Classify
  import CommonMethods

  /** The nine deviations 0.1, ..., 0.9: np.arange(0.1, 0.91, 0.1) rounded to two decimals. */
  function Deviation(k: nat): real
  {
    k as real / 10.0
  }

  function Abs(x: real): real
  {
    if x < 0.0 then -x else x
  }

  /** Each neighbour scored by its distance from the mean AUC. */
  function Scores(aucs: Dict<Node, real>, mean: real): (ps: seq<(Node, real)>)
    ensures |ps| == |aucs| && forall i :: 0 <= i < |aucs| ==> ps[i] == (aucs[i].0, Abs(mean - aucs[i].1))
    ensures Keys(ps) == Keys(aucs)
    ensures forall i :: 0 <= i < |ps| ==> 0.0 <= ps[i].1 && (ps[i].1 == 0.0 <==> aucs[i].1 == mean)
  {
    seq(|aucs|, i requires 0 <= i < |aucs| => (aucs[i].0, Abs(mean - aucs[i].1)))
  }

  /** The split at deviation dev: "in" when |mean - auc| <= dev * mean. */
  function SplitAt(aucs: Dict<Node, real>, mean: real, dev: real): Split
  {
    Split(Within(Scores(aucs, mean), dev * mean), Beyond(Scores(aucs, mean), dev * mean))
  }

  /** What SplitByBound returns on the scores is the split at that deviation. */
  lemma SplitAtIsSplit(aucs: Dict<Node, real>, mean: real, dev: real, s: Split)
    requires s == Split(Within(Scores(aucs, mean), dev * mean), Beyond(Scores(aucs, mean), dev * mean))
    ensures s == SplitAt(aucs, mean, dev)
  {
  }

  /** The detections of one source, one entry per deviation. */
  function Table(aucs: Dict<Node, real>, mean: real): (t: Dict<real, Split>)
    ensures |t| == 9
  {
    seq(9, i requires 0 <= i < 9 => (Deviation(i + 1), SplitAt(aucs, mean, Deviation(i + 1))))
  }

  /** The loop over the deviations for one source: the deviation list and the table it fills. */
  method ClassifySource(aucs: Dict<Node, real>, mean: real) returns (devs: seq<real>, table: Dict<real, Split>)
    ensures devs == [0.1, 0.2, 0.3, 0.4, 0.5, 0.6, 0.7, 0.8, 0.9]
    ensures table == Table(aucs, mean) && Keys(table) == devs
  {
    devs, table := [], [];
    var k := 1;
    while k <= 9
      invariant 1 <= k <= 10
      invariant |devs| == |table| == k - 1
      invariant forall i :: 0 <= i < k - 1 ==> devs[i] == Deviation(i + 1)
      invariant forall i :: 0 <= i < k - 1 ==> table[i] == (Deviation(i + 1), SplitAt(aucs, mean, Deviation(i + 1)))
    {
      var dev := Deviation(k);
      devs := devs + [dev];
      var split := SplitByBound(Scores(aucs, mean), dev * mean);
      SplitAtIsSplit(aucs, mean, dev, split);
      table := table + [(dev, split)];
      k := k + 1;
    }
    ClassifyDone(aucs, mean, devs, table);
  }

  /** Nine deviations Deviation(1..9), each with its split, are the deviation list and the table. */
  lemma ClassifyDone(aucs: Dict<Node, real>, mean: real, devs: seq<real>, table: Dict<real, Split>)
    requires |devs| == |table| == 9
    requires forall i :: 0 <= i < 9 ==> devs[i] == Deviation(i + 1)
    requires forall i :: 0 <= i < 9 ==> table[i] == (Deviation(i + 1), SplitAt(aucs, mean, Deviation(i + 1)))
    ensures devs == [0.1, 0.2, 0.3, 0.4, 0.5, 0.6, 0.7, 0.8, 0.9]
    ensures table == Table(aucs, mean) && Keys(table) == devs
  {
    assert forall i :: 0 <= i < 9 ==> Keys(table)[i] == devs[i];
  }

  /** At every deviation, "in" and "out" together list every neighbour with an AUC exactly once. */
  lemma EveryNeighbourOnce(aucs: Dict<Node, real>, mean: real, dev: real)
    ensures multiset(SplitAt(aucs, mean, dev).ins) + multiset(SplitAt(aucs, mean, dev).outs) == multiset(Keys(aucs))
  {
    SplitCovers(Scores(aucs, mean), dev * mean);
    assert Keys(Scores(aucs, mean)) == Keys(aucs);
  }

  /** A neighbour is "in" exactly when its AUC is within dev * mean of the mean. */
  lemma InIff(aucs: Dict<Node, real>, mean: real, dev: real, i: nat)
    requires DistinctKeys(aucs) && i < |aucs|
    ensures aucs[i].0 in SplitAt(aucs, mean, dev).ins <==> Abs(mean - aucs[i].1) <= dev * mean
    ensures aucs[i].0 in SplitAt(aucs, mean, dev).outs <==> Abs(mean - aucs[i].1) > dev * mean
  {
    ExactlyOneList(Scores(aucs, mean), dev * mean, i);
  }

  /** With a nonnegative mean, a neighbour "in" at one deviation is "in" at every larger one. */
  lemma InMonotone(aucs: Dict<Node, real>, mean: real, d1: real, d2: real, n: Node)
    requires 0.0 <= mean && d1 <= d2
    ensures n in SplitAt(aucs, mean, d1).ins ==> n in SplitAt(aucs, mean, d2).ins
  {
    ScaleMonotone(d1, d2, mean);
    Monotone(Scores(aucs, mean), d1 * mean, d2 * mean, n);
  }

  lemma ScaleMonotone(a: real, b: real, m: real)
    requires a <= b && 0.0 <= m
    ensures a * m <= b * m
  {
    var x := b - a;
    assert b * m == a * m + x * m;
    if m > 0.0 && x > 0.0 {
      assert x * m > 0.0;
    }
  }

  /**
   * detect_communities_from_sourcenode: for each source of the AUC table,
   * its detections against statistics.mean of its AUCs; a source without
   * any AUC raises StatisticsError. The deviations returned are those of the
   * last source, none for an empty table.
   */
  method DetectFromSource(aucs: Dict<Node, Dict<Node, real>>) returns (r: Result<(Dict<Node, Dict<real, Split>>, seq<real>)>)
    requires DistinctKeys(aucs)
    ensures r.Err? <==> exists i :: 0 <= i < |aucs| && |aucs[i].1| == 0
    ensures r.Err? ==> r.error == StatisticsError
    ensures r.Ok? ==> Keys(r.value.0) == Keys(aucs)
    ensures r.Ok? ==> forall i :: 0 <= i < |aucs| ==>
      r.value.0[i].1 == Table(aucs[i].1, CommonMethods.Mean(Values(aucs[i].1)).value)
    ensures r.Ok? ==> r.value.1 == if |aucs| == 0 then [] else [0.1, 0.2, 0.3, 0.4, 0.5, 0.6, 0.7, 0.8, 0.9]
  {
    var results: Dict<Node, Dict<real, Split>> := [];
    var deviations: seq<real> := [];
    var i := 0;
    while i < |aucs|
      invariant 0 <= i <= |aucs|
      invariant |results| == i
      invariant forall j :: 0 <= j < i ==> |aucs[j].1| > 0
      invariant forall j :: 0 <= j < i ==>
        results[j] == (aucs[j].0, Table(aucs[j].1, CommonMethods.Mean(Values(aucs[j].1)).value))
      invariant deviations == if i == 0 then [] else [0.1, 0.2, 0.3, 0.4, 0.5, 0.6, 0.7, 0.8, 0.9]
    {
      var (source, neighbours) := aucs[i];
      var mean := CommonMethods.Mean(Values(neighbours));
      if mean.Err? {
        return Err(mean.error);
      }
      var table;
      deviations, table := ClassifySource(neighbours, mean.value);
      SourcesExtend(aucs, results, i, table);
      results := results + [(source, table)];
      i := i + 1;
    }
    return Ok((results, deviations));
  }

  /** Appending the next source's table keeps the results in step with the sources. */
  lemma SourcesExtend(aucs: Dict<Node, Dict<Node, real>>, results: Dict<Node, Dict<real, Split>>, i: nat, table: Dict<real, Split>)
    requires i < |aucs| && |results| == i
    requires forall j :: 0 <= j < i ==> |aucs[j].1| > 0
    requires forall j :: 0 <= j < i ==>
      results[j] == (aucs[j].0, Table(aucs[j].1, CommonMethods.Mean(Values(aucs[j].1)).value))
    requires |aucs[i].1| > 0 && table == Table(aucs[i].1, CommonMethods.Mean(Values(aucs[i].1)).value)
    ensures var rs := results + [(aucs[i].0, table)];
      (forall j :: 0 <= j < i + 1 ==> |aucs[j].1| > 0) &&
      (forall j :: 0 <= j < i + 1 ==>
        rs[j] == (aucs[j].0, Table(aucs[j].1, CommonMethods.Mean(Values(aucs[j].1)).value)))
  {
    var rs := results + [(aucs[i].0, table)];
    assert forall j :: 0 <= j < i ==> rs[j] == results[j];
  }

  /** The neighbours that have an AUC, in neighbour order, with their AUCs. */
  function NeighborAucs(ns: seq<Node>, aucs: map<Node, real>): (d: Dict<Node, real>)
    ensures forall i :: 0 <= i < |d| ==> d[i].0 in ns && d[i].0 in aucs && d[i].1 == aucs[d[i].0]
  {
    if |ns| == 0 then []
    else
      var init := NeighborAucs(ns[..|ns| - 1], aucs);
      var n := ns[|ns| - 1];
      if n in aucs then init + [(n, aucs[n])] else init
  }

  /** A neighbour is kept exactly when it has an AUC. */
  lemma {:induction false} NeighborAucsKeys(ns: seq<Node>, aucs: map<Node, real>, n: Node)
    ensures n in Keys(NeighborAucs(ns, aucs)) <==> n in ns && n in aucs
  {
    if |ns| > 0 {
      var init := ns[..|ns| - 1];
      NeighborAucsKeys(init, aucs, n);
      var d := NeighborAucs(ns, aucs);
      var di := NeighborAucs(init, aucs);
      if n in Keys(di) {
        var j :| 0 <= j < |di| && di[j].0 == n;
        assert d[j] == di[j];
      }
      if n in ns && n != ns[|ns| - 1] {
        var j :| 0 <= j < |ns| && ns[j] == n;
        assert init[j] == n;
      }
      if n in ns && n == ns[|ns| - 1] && n in aucs {
        assert d[|d| - 1].0 == n;
      }
    }
  }

  /** The loop collecting the neighbours' AUCs, skipping those the AUC table lacks. */
  method CollectAucs(ns: seq<Node>, aucs: map<Node, real>) returns (d: Dict<Node, real>)
    ensures d == NeighborAucs(ns, aucs)
  {
    d := [];
    var i := 0;
    while i < |ns|
      invariant 0 <= i <= |ns|
      invariant d == NeighborAucs(ns[..i], aucs)
    {
      assert ns[..i + 1][..i] == ns[..i];
      if ns[i] in aucs {
        d := d + [(ns[i], aucs[ns[i]])];
      }
      i := i + 1;
    }
    assert ns[..i] == ns;
  }

  /** sum(...) / len(...): a node none of whose neighbours has an AUC raises ZeroDivisionError. */
  function SumMean(xs: seq<real>): (r: Result<real>)
    ensures r.Err? <==> |xs| == 0
    ensures r.Err? ==> r.error == ZeroDivisionError
    ensures r.Ok? ==> r == CommonMethods.Mean(xs)
  {
    if |xs| == 0 then Err(ZeroDivisionError) else Ok(CommonMethods.Sum(xs) / |xs| as real)
  }

  /** One node of detect_communities: the mean of the neighbours' AUCs and the split at every deviation. */
  method DetectNode(ns: seq<Node>, aucs: map<Node, real>) returns (r: Result<Dict<real, Split>>)
    ensures r.Err? <==> |NeighborAucs(ns, aucs)| == 0
    ensures r.Err? ==> r.error == ZeroDivisionError
    ensures r.Ok? ==> var d := NeighborAucs(ns, aucs); r.value == Table(d, SumMean(Values(d)).value)
  {
    var d := CollectAucs(ns, aucs);
    var mean := SumMean(Values(d));
    if mean.Err? {
      return Err(mean.error);
    }
    var deviations, table := ClassifySource(d, mean.value);
    return Ok(table);
  }

  /** Appending the next node's table keeps the results in step with the nodes. */
  lemma TablesExtend(nodes: seq<Node>, neighbors: map<Node, seq<Node>>, aucs: map<Node, real>,
                     results: Dict<Node, Dict<real, Split>>, i: nat, table: Dict<real, Split>)
    requires i < |nodes| && |results| == i
    requires forall j :: 0 <= j < |nodes| ==> nodes[j] in neighbors
    requires forall j :: 0 <= j < i ==> |NeighborAucs(neighbors[nodes[j]], aucs)| > 0
    requires forall j :: 0 <= j < i ==> results[j].0 == nodes[j]
    requires forall j :: 0 <= j < i ==>
      var d := NeighborAucs(neighbors[nodes[j]], aucs);
      results[j].1 == Table(d, SumMean(Values(d)).value)
    requires var d := NeighborAucs(neighbors[nodes[i]], aucs);
      |d| > 0 && table == Table(d, SumMean(Values(d)).value)
    ensures var rs := results + [(nodes[i], table)];
      (forall j :: 0 <= j < i + 1 ==> |NeighborAucs(neighbors[nodes[j]], aucs)| > 0) &&
      (forall j :: 0 <= j < i + 1 ==> rs[j].0 == nodes[j]) &&
      (forall j :: 0 <= j < i + 1 ==>
        var d := NeighborAucs(neighbors[nodes[j]], aucs);
        rs[j].1 == Table(d, SumMean(Values(d)).value))
  {
    var rs := results + [(nodes[i], table)];
    assert forall j :: 0 <= j < i ==> rs[j] == results[j];
  }

  /**
   * detect_communities: for each graph node, its detections over the
   * neighbours that have an AUC, against the mean of those AUCs.
   */
  method DetectCommunities(nodes: seq<Node>, neighbors: map<Node, seq<Node>>, aucs: map<Node, real>)
    returns (r: Result<(Dict<Node, Dict<real, Split>>, seq<real>)>)
    requires forall i :: 0 <= i < |nodes| ==> nodes[i] in neighbors
    requires forall i, j :: 0 <= i < j < |nodes| ==> nodes[i] != nodes[j]
    ensures r.Err? <==> exists i :: 0 <= i < |nodes| && |NeighborAucs(neighbors[nodes[i]], aucs)| == 0
    ensures r.Err? ==> r.error == ZeroDivisionError
    ensures r.Ok? ==> Keys(r.value.0) == nodes
    ensures r.Ok? ==> forall i :: 0 <= i < |nodes| ==>
      var d := NeighborAucs(neighbors[nodes[i]], aucs);
      r.value.0[i].1 == Table(d, SumMean(Values(d)).value)
    ensures r.Ok? ==> r.value.1 == if |nodes| == 0 then [] else [0.1, 0.2, 0.3, 0.4, 0.5, 0.6, 0.7, 0.8, 0.9]
  {
    var results: Dict<Node, Dict<real, Split>> := [];
    var deviations: seq<real> := [];
    var i := 0;
    while i < |nodes|
      invariant 0 <= i <= |nodes|
      invariant |results| == i
      invariant forall j :: 0 <= j < i ==> |NeighborAucs(neighbors[nodes[j]], aucs)| > 0
      invariant forall j :: 0 <= j < i ==> results[j].0 == nodes[j]
      invariant forall j :: 0 <= j < i ==>
        var d := NeighborAucs(neighbors[nodes[j]], aucs);
        results[j].1 == Table(d, SumMean(Values(d)).value)
      invariant deviations == if i == 0 then [] else [0.1, 0.2, 0.3, 0.4, 0.5, 0.6, 0.7, 0.8, 0.9]
    {
      var node := nodes[i];
      var table := DetectNode(neighbors[node], aucs);
      if table.Err? {
        return Err(table.error);
      }
      deviations := [0.1, 0.2, 0.3, 0.4, 0.5, 0.6, 0.7, 0.8, 0.9];
      TablesExtend(nodes, neighbors, aucs, results, i, table.value);
      results := results + [(node, table.value)];
      i := i + 1;
    }
    assert Keys(results) == nodes;
    return Ok((results, deviations));
  }
}
