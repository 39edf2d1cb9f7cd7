/**
 * common_methods.py: scoring a community detection against the Louvain
 * communities of the graph. For every source node and deviation, the
 * neighbours classified "in" and "out" are counted as correct or incorrect
 * by Louvain membership; the counts give a detection rate, a precision and a
 * recall per node, and their means over the nodes give the run's metrics.
 *
 * The Louvain communities are an input (a partition of the nodes, each
 * community as a list); the graph is its neighbour lists.
 */
module CommonMethods {
  import opened Base
  import opened Dict

  type Node = string

  /** The "in" and "out" lists detected for one source and deviation; a missing key is None. */
  datatype Lists = Lists(inList: Option<seq<Node>>, outList: Option<seq<Node>>)

  datatype Counts = Counts(correctIn: nat, incorrectIn: nat, correctOut: nat, incorrectOut: nat)

  /** count_detections[source]: must_in, must_out and one Counts per deviation, in order. */
  datatype NodeCounts = NodeCounts(mustIn: nat, mustOut: nat, deviations: Dict<string, Counts>)

  datatype Metric = Metric(detectionRate: real, precision: real, recall: real)

  // ---------------------------------------------------------------------------
  // Counting

  /** How many of xs belong to community c. */
  function Members(xs: seq<Node>, c: seq<Node>): nat
  {
    if |xs| == 0 then 0 else Members(xs[..|xs| - 1], c) + (if xs[|xs| - 1] in c then 1 else 0)
  }

  /** How many of xs do not belong to community c. */
  function NonMembers(xs: seq<Node>, c: seq<Node>): nat
  {
    if |xs| == 0 then 0 else NonMembers(xs[..|xs| - 1], c) + (if xs[|xs| - 1] in c then 0 else 1)
  }

  /** Every listed node is counted once, as a member or as a non-member. */
  lemma {:induction false} MembersSplit(xs: seq<Node>, c: seq<Node>)
    ensures Members(xs, c) + NonMembers(xs, c) == |xs|
  {
    if |xs| > 0 {
      MembersSplit(xs[..|xs| - 1], c);
    }
  }

  /** A list of members only counts entirely as members. */
  lemma {:induction false} AllMembers(xs: seq<Node>, c: seq<Node>)
    ensures Members(xs, c) == |xs| <==> forall i :: 0 <= i < |xs| ==> xs[i] in c
  {
    MembersSplit(xs, c);
    if |xs| > 0 {
      var init := xs[..|xs| - 1];
      AllMembers(init, c);
      MembersSplit(init, c);
      if forall i :: 0 <= i < |xs| ==> xs[i] in c {
        assert forall i :: 0 <= i < |init| ==> init[i] in c by {
          forall i | 0 <= i < |init| ensures init[i] in c {
            assert init[i] == xs[i];
          }
        }
      }
      if Members(xs, c) == |xs| {
        assert Members(init, c) <= |init|;
        forall i | 0 <= i < |xs|
          ensures xs[i] in c
        {
          if i < |init| {
            assert init[i] == xs[i];
          }
        }
      }
    }
  }

  /** The loop over one list: how many are in the community and how many are not. */
  method CountList(xs: seq<Node>, c: seq<Node>) returns (inside: nat, outside: nat)
    ensures inside == Members(xs, c) && outside == NonMembers(xs, c)
  {
    inside, outside := 0, 0;
    var i := 0;
    while i < |xs|
      invariant 0 <= i <= |xs|
      invariant inside == Members(xs[..i], c) && outside == NonMembers(xs[..i], c)
    {
      assert xs[..i + 1][..i] == xs[..i];
      if xs[i] in c {
        inside := inside + 1;
      } else {
        outside := outside + 1;
      }
      i := i + 1;
    }
    assert xs[..i] == xs;
  }

  /**
   * The counts of one deviation, and whether its processing completed. A
   * missing "in" key leaves the zero counts in place and ends the source's
   * processing (the KeyError is caught outside the loop over deviations); a
   * missing "out" key keeps the "in" counts. Every listed node is counted
   * once.
   */
  function Tally(l: Lists, c: seq<Node>): (r: (Counts, bool))
    ensures r.1 <==> l.inList.Some? && l.outList.Some?
    ensures l.inList.None? ==> r.0 == Counts(0, 0, 0, 0)
    ensures l.inList.Some? ==> r.0.correctIn + r.0.incorrectIn == |l.inList.value|
    ensures l.inList.Some? && l.outList.None? ==> r.0.correctOut == 0 && r.0.incorrectOut == 0
    ensures r.1 ==> r.0.correctOut + r.0.incorrectOut == |l.outList.value|
  {
    if l.inList.None? then (Counts(0, 0, 0, 0), false)
    else
      MembersSplit(l.inList.value, c);
      var inC, inN := Members(l.inList.value, c), NonMembers(l.inList.value, c);
      if l.outList.None? then (Counts(inC, inN, 0, 0), false)
      else
        MembersSplit(l.outList.value, c);
        (Counts(inC, inN, NonMembers(l.outList.value, c), Members(l.outList.value, c)), true)
  }

  /** The loops over the "in" and "out" lists of one deviation. */
  method CountDeviation(l: Lists, c: seq<Node>) returns (counts: Counts, complete: bool)
    ensures (counts, complete) == Tally(l, c)
  {
    counts := Counts(0, 0, 0, 0);
    if l.inList.None? {
      return counts, false;
    }
    var correct, incorrect := CountList(l.inList.value, c);
    counts := counts.(correctIn := correct, incorrectIn := incorrect);
    if l.outList.None? {
      return counts, false;
    }
    var wrong, right := CountList(l.outList.value, c);
    counts := counts.(correctOut := right, incorrectOut := wrong);
    complete := true;
  }

  /** The deviation counts CountDeviation leaves behind for one source, in deviation order. */
  function SourceCounts(devs: Dict<string, Lists>, c: seq<Node>): (r: Dict<string, Counts>)
    ensures |r| <= |devs| && Keys(r) == Keys(devs)[..|r|]
  {
    if |devs| == 0 then []
    else
      var t := Tally(devs[0].1, c);
      [(devs[0].0, t.0)] + if t.1 then SourceCounts(devs[1..], c) else []
  }

  /** Every deviation is counted when no list is missing, and the counts account for every listed node. */
  lemma {:induction false} SourceCountsComplete(devs: Dict<string, Lists>, c: seq<Node>)
    requires forall i :: 0 <= i < |devs| ==> devs[i].1.inList.Some? && devs[i].1.outList.Some?
    ensures |SourceCounts(devs, c)| == |devs|
    ensures forall i :: 0 <= i < |devs| ==>
      SourceCounts(devs, c)[i].1.correctIn + SourceCounts(devs, c)[i].1.incorrectIn == |devs[i].1.inList.value|
      && SourceCounts(devs, c)[i].1.correctOut + SourceCounts(devs, c)[i].1.incorrectOut == |devs[i].1.outList.value|
  {
    if |devs| > 0 {
      SourceCountsComplete(devs[1..], c);
      var r := SourceCounts(devs, c);
      forall i | 0 <= i < |devs|
        ensures r[i].1.correctIn + r[i].1.incorrectIn == |devs[i].1.inList.value|
          && r[i].1.correctOut + r[i].1.incorrectOut == |devs[i].1.outList.value|
      {
        if i > 0 {
          assert r[i] == SourceCounts(devs[1..], c)[i - 1];
          assert devs[i] == devs[1..][i - 1];
        }
      }
    }
  }

  /** The body of the try block for one source node, after must_in and must_out. */
  method CountSource(devs: Dict<string, Lists>, c: seq<Node>) returns (r: Dict<string, Counts>)
    ensures r == SourceCounts(devs, c)
  {
    r := [];
    var i := 0;
    while i < |devs|
      invariant 0 <= i <= |devs|
      invariant r + SourceCounts(devs[i..], c) == SourceCounts(devs, c)
    {
      var counts, complete := CountDeviation(devs[i].1, c);
      var rest := devs[i..];
      assert rest[0] == devs[i] && rest[1..] == devs[i + 1..];
      assert SourceCounts(rest, c) == [(devs[i].0, counts)] + if complete then SourceCounts(devs[i + 1..], c) else [];
      var x := [(devs[i].0, counts)];
      if !complete {
        assert SourceCounts(rest, c) == x + [] == x;
        return r + x;
      }
      var later := SourceCounts(devs[i + 1..], c);
      AppendAssoc(r, x, later);
      r := r + x;
      i := i + 1;
    }
    assert r + [] == r;
  }

  lemma AppendAssoc<T>(a: seq<T>, b: seq<T>, c: seq<T>)
    ensures (a + b) + c == a + (b + c)
  {
  }

  /** count_detections[source] for a node of community c. */
  function NodeCountsOf(s: Node, c: seq<Node>, neighbors: map<Node, seq<Node>>, results: map<Node, Dict<string, Lists>>): NodeCounts
    requires s in neighbors
  {
    NodeCounts(Members(neighbors[s], c), NonMembers(neighbors[s], c),
      if s in results then SourceCounts(results[s], c) else [])
  }

  /** The Louvain communities: disjoint lists of graph nodes, no node listed twice. */
  predicate Partition(communities: seq<seq<Node>>, neighbors: map<Node, seq<Node>>)
  {
    && (forall k, i :: 0 <= k < |communities| && 0 <= i < |communities[k]| ==> communities[k][i] in neighbors)
    && (forall k, l, i :: 0 <= k < l < |communities| && 0 <= i < |communities[k]| ==> communities[k][i] !in communities[l])
  }

  /** Recording the counts of the next node of community k keeps every recorded node's counts. */
  lemma CountsStep(neighbors: map<Node, seq<Node>>, communities: seq<seq<Node>>, results: map<Node, Dict<string, Lists>>,
                   counts: map<Node, NodeCounts>, k: nat, c: seq<Node>, i: nat, v: NodeCounts)
    requires Partition(communities, neighbors)
    requires k < |communities| && c == communities[k] && i < |c|
    requires forall s :: s in counts <==> (exists j :: 0 <= j < k && s in communities[j]) || s in c[..i]
    requires forall j, m :: 0 <= j < k && 0 <= m < |communities[j]| ==>
      counts[communities[j][m]] == NodeCountsOf(communities[j][m], communities[j], neighbors, results)
    requires forall m :: 0 <= m < i ==> counts[c[m]] == NodeCountsOf(c[m], c, neighbors, results)
    requires v == NodeCountsOf(c[i], c, neighbors, results)
    ensures var next := counts[c[i] := v];
      && (forall s :: s in next <==> (exists j :: 0 <= j < k && s in communities[j]) || s in c[..i + 1])
      && (forall j, m :: 0 <= j < k && 0 <= m < |communities[j]| ==>
        next[communities[j][m]] == NodeCountsOf(communities[j][m], communities[j], neighbors, results))
      && (forall m :: 0 <= m < i + 1 ==> next[c[m]] == NodeCountsOf(c[m], c, neighbors, results))
  {
    forall j, m | 0 <= j < k && 0 <= m < |communities[j]|
      ensures communities[j][m] != c[i]
    {
      assert communities[j][m] !in communities[k];
    }
    assert c[..i + 1] == c[..i] + [c[i]];
  }

  /**
   * The first half of create_metrics_for_node: one entry per node of a
   * community, its must_in/must_out counts against that community and the
   * counts of each deviation.
   */
  method CountDetections(neighbors: map<Node, seq<Node>>, communities: seq<seq<Node>>, results: map<Node, Dict<string, Lists>>)
    returns (counts: map<Node, NodeCounts>)
    requires Partition(communities, neighbors)
    ensures forall s :: s in counts <==> exists k :: 0 <= k < |communities| && s in communities[k]
    ensures forall k, i :: 0 <= k < |communities| && 0 <= i < |communities[k]| ==>
      counts[communities[k][i]] == NodeCountsOf(communities[k][i], communities[k], neighbors, results)
  {
    counts := map[];
    var k := 0;
    while k < |communities|
      invariant 0 <= k <= |communities|
      invariant forall s :: s in counts <==> exists j :: 0 <= j < k && s in communities[j]
      invariant forall j, i :: 0 <= j < k && 0 <= i < |communities[j]| ==>
        counts[communities[j][i]] == NodeCountsOf(communities[j][i], communities[j], neighbors, results)
    {
      var c := communities[k];
      var i := 0;
      while i < |c|
        invariant 0 <= i <= |c|
        invariant forall s :: s in counts <==> (exists j :: 0 <= j < k && s in communities[j]) || s in c[..i]
        invariant forall j, m :: 0 <= j < k && 0 <= m < |communities[j]| ==>
          counts[communities[j][m]] == NodeCountsOf(communities[j][m], communities[j], neighbors, results)
        invariant forall m :: 0 <= m < i ==> counts[c[m]] == NodeCountsOf(c[m], c, neighbors, results)
      {
        var s := c[i];
        var mustIn, mustOut := CountList(neighbors[s], c);
        var devs: Dict<string, Counts> := [];
        if s in results {
          devs := CountSource(results[s], c);
        }
        CountsStep(neighbors, communities, results, counts, k, c, i, NodeCounts(mustIn, mustOut, devs));
        counts := counts[s := NodeCounts(mustIn, mustOut, devs)];
        i := i + 1;
      }
      assert c[..i] == c;
      k := k + 1;
    }
  }

  // ---------------------------------------------------------------------------
  // Metrics of one node

  function Total(n: Counts): nat
  {
    n.correctIn + n.incorrectIn + n.correctOut + n.incorrectOut
  }

  /** a / b for a share a of a nonzero total b. */
  function Ratio(a: nat, b: nat): (r: real)
    requires 0 < b && a <= b
    ensures 0.0 <= r <= 1.0
  {
    var r := a as real / b as real;
    assert r * b as real == a as real;
    r
  }

  /** The share is the whole exactly when the part is the whole. */
  lemma RatioIsOneIff(a: nat, b: nat)
    requires 0 < b && a <= b
    ensures Ratio(a, b) == 1.0 <==> a == b
  {
    var r := Ratio(a, b);
    assert r * b as real == a as real;
  }

  /**
   * detection_rate, precision and recall as written: precision divides
   * correct_in by correct_in + correct_out, recall by correct_in +
   * incorrect_in. No detections at all raise ZeroDivisionError, which
   * nothing catches.
   */
  function NodeMetric(n: Counts, mustIn: nat): (r: Result<Metric>)
    ensures r.Err? <==> Total(n) == 0
    ensures r.Err? ==> r.error == ZeroDivisionError
    ensures r.Ok? ==> 0.0 <= r.value.detectionRate <= 1.0 && 0.0 <= r.value.precision <= 1.0 && 0.0 <= r.value.recall <= 1.0
  {
    if Total(n) == 0 then Err(ZeroDivisionError)
    else
      var rate := Ratio(n.correctOut + n.correctIn, Total(n));
      var precision := if n.correctIn + n.correctOut == 0 then 0.0
        else Ratio(n.correctIn, n.correctIn + n.correctOut);
      var recall := if n.correctIn + n.incorrectIn == 0 then (if mustIn == 0 then 1.0 else 0.0)
        else Ratio(n.correctIn, n.correctIn + n.incorrectIn);
      Ok(Metric(rate, precision, recall))
  }

  /**
   * The metrics with the usual meaning, which the recall fallback presumes
   * (correct_in + incorrect_out is must_in when every neighbour is
   * classified): precision is correct_in over everything classified in,
   * recall correct_in over every community member among the neighbours.
   */
  function NodeMetricFixed(n: Counts, mustIn: nat): (r: Result<Metric>)
    ensures r.Err? <==> Total(n) == 0
    ensures r.Err? ==> r.error == ZeroDivisionError
    ensures r.Ok? ==> 0.0 <= r.value.detectionRate <= 1.0 && 0.0 <= r.value.precision <= 1.0 && 0.0 <= r.value.recall <= 1.0
  {
    if Total(n) == 0 then Err(ZeroDivisionError)
    else
      var rate := Ratio(n.correctOut + n.correctIn, Total(n));
      var precision := if n.correctIn + n.incorrectIn == 0 then 0.0
        else Ratio(n.correctIn, n.correctIn + n.incorrectIn);
      var recall := if n.correctIn + n.incorrectOut == 0 then (if mustIn == 0 then 1.0 else 0.0)
        else Ratio(n.correctIn, n.correctIn + n.incorrectOut);
      Ok(Metric(rate, precision, recall))
  }

  /**
   * A perfect classification, one community member in and one outsider out,
   * scores precision 0.5 as written; and a classification that puts one
   * member in and misses another scores recall 1.
   */
  lemma PrecisionAndRecallAsWritten()
    ensures NodeMetric(Counts(1, 0, 1, 0), 1) == Ok(Metric(1.0, 0.5, 1.0))
    ensures NodeMetric(Counts(1, 0, 0, 1), 2).value.recall == 1.0
  {
  }

  /** With the usual definitions the same classifications score precision 1 and recall 0.5. */
  lemma PrecisionAndRecallFixed()
    ensures NodeMetricFixed(Counts(1, 0, 1, 0), 1) == Ok(Metric(1.0, 1.0, 1.0))
    ensures NodeMetricFixed(Counts(1, 0, 0, 1), 2).value.recall == 0.5
  {
  }

  /** Corrected precision is 1 exactly when something correct was classified in and no outsider was. */
  lemma PrecisionIsOneIff(n: Counts, mustIn: nat)
    requires Total(n) > 0
    ensures NodeMetricFixed(n, mustIn).value.precision == 1.0 <==> n.correctIn > 0 && n.incorrectIn == 0
  {
    if n.correctIn + n.incorrectIn > 0 {
      RatioIsOneIff(n.correctIn, n.correctIn + n.incorrectIn);
    }
  }

  /** Corrected recall is 1 exactly when no community member was classified out, given one was found or missed. */
  lemma RecallIsOneIff(n: Counts, mustIn: nat)
    requires Total(n) > 0 && n.correctIn + n.incorrectOut > 0
    ensures NodeMetricFixed(n, mustIn).value.recall == 1.0 <==> n.incorrectOut == 0
  {
    RatioIsOneIff(n.correctIn, n.correctIn + n.incorrectOut);
  }

  /** Precision as written is 1 exactly when something was correctly put in and nothing correctly put out. */
  lemma PrecisionAsWrittenIsOneIff(n: Counts, mustIn: nat)
    requires Total(n) > 0
    ensures NodeMetric(n, mustIn).value.precision == 1.0 <==> n.correctIn > 0 && n.correctOut == 0
  {
    if n.correctIn + n.correctOut > 0 {
      RatioIsOneIff(n.correctIn, n.correctIn + n.correctOut);
    }
  }

  /** Recall as written is 1 exactly when nothing was wrongly put in, given something was put in. */
  lemma RecallAsWrittenIsOneIff(n: Counts, mustIn: nat)
    requires Total(n) > 0 && n.correctIn + n.incorrectIn > 0
    ensures NodeMetric(n, mustIn).value.recall == 1.0 <==> n.incorrectIn == 0
  {
    RatioIsOneIff(n.correctIn, n.correctIn + n.incorrectIn);
  }

  /** Detection rate is 1 exactly when nothing was misclassified. */
  lemma DetectionRateIsOneIff(n: Counts, mustIn: nat)
    requires Total(n) > 0
    ensures NodeMetricFixed(n, mustIn).value.detectionRate == 1.0 <==> n.incorrectIn == 0 && n.incorrectOut == 0
  {
    RatioIsOneIff(n.correctOut + n.correctIn, Total(n));
  }

  /** metrics[source] for one counted node: a metric per deviation, in order. */
  function Row(devs: Dict<string, Counts>, mustIn: nat): (r: Result<Dict<string, Metric>>)
    ensures r.Ok? ==> Keys(r.value) == Keys(devs)
    ensures r.Ok? ==> forall i :: 0 <= i < |devs| ==> NodeMetricFixed(devs[i].1, mustIn) == Ok(r.value[i].1)
    ensures r.Err? <==> exists i :: 0 <= i < |devs| && Total(devs[i].1) == 0
    ensures r.Err? ==> r.error == ZeroDivisionError
  {
    if |devs| == 0 then Ok([])
    else
      var init := devs[..|devs| - 1];
      var last := devs[|devs| - 1];
      assert forall i :: 0 <= i < |init| ==> init[i] == devs[i];
      match Row(init, mustIn)
      case Err(e) => Err(e)
      case Ok(row) =>
        match NodeMetricFixed(last.1, mustIn)
        case Err(e) => Err(e)
        case Ok(m) =>
          assert Keys(devs) == Keys(init) + [last.0];
          assert Keys(row + [(last.0, m)]) == Keys(row) + [last.0];
          Ok(row + [(last.0, m)])
  }

  /**
   * The second half of create_metrics_for_node: one entry per graph node,
   * empty for a node without counts, else a metric per counted deviation.
   * A deviation with no detections at all makes the whole call raise.
   */
  method NodeMetrics(nodes: seq<Node>, counts: map<Node, NodeCounts>) returns (r: Result<Dict<Node, Dict<string, Metric>>>)
    requires forall i, j :: 0 <= i < j < |nodes| ==> nodes[i] != nodes[j]
    ensures r.Err? <==> exists i :: 0 <= i < |nodes| && EntryOf(counts, nodes[i]).Err?
    ensures r.Err? ==> r.error == ZeroDivisionError
    ensures r.Ok? ==> Keys(r.value) == nodes
    ensures r.Ok? ==> forall i :: 0 <= i < |nodes| ==>
      EntryOf(counts, nodes[i]).Ok? && Get(r.value, nodes[i]) == Some(EntryOf(counts, nodes[i]).value)
  {
    var metrics: Dict<Node, Dict<string, Metric>> := [];
    var i := 0;
    while i < |nodes|
      invariant 0 <= i <= |nodes|
      invariant Keys(metrics) == nodes[..i] && DistinctKeys(metrics)
      invariant forall j :: 0 <= j < i ==>
        EntryOf(counts, nodes[j]).Ok? && Get(metrics, nodes[j]) == Some(EntryOf(counts, nodes[j]).value)
    {
      var s := nodes[i];
      var row: Dict<string, Metric> := [];
      if s in counts {
        var rr := NodeRow(counts[s]);
        if rr.Err? {
          return Err(ZeroDivisionError);
        }
        row := rr.value;
      }
      EntriesExtend(nodes, counts, metrics, i, row);
      metrics := Put(metrics, s, row);
      i := i + 1;
    }
    assert nodes[..i] == nodes;
    return Ok(metrics);
  }

  /** Recording node `i`'s entry keeps the entries of the nodes before it. */
  lemma EntriesExtend(nodes: seq<Node>, counts: map<Node, NodeCounts>, metrics: Dict<Node, Dict<string, Metric>>,
                      i: nat, row: Dict<string, Metric>)
    requires i < |nodes|
    requires forall a, b :: 0 <= a < b < |nodes| ==> nodes[a] != nodes[b]
    requires Keys(metrics) == nodes[..i] && DistinctKeys(metrics)
    requires forall j :: 0 <= j < i ==>
      EntryOf(counts, nodes[j]).Ok? && Get(metrics, nodes[j]) == Some(EntryOf(counts, nodes[j]).value)
    requires EntryOf(counts, nodes[i]) == Ok(row)
    ensures Keys(Put(metrics, nodes[i], row)) == nodes[..i + 1]
    ensures DistinctKeys(Put(metrics, nodes[i], row))
    ensures forall j :: 0 <= j < i + 1 ==>
      EntryOf(counts, nodes[j]).Ok? && Get(Put(metrics, nodes[i], row), nodes[j]) == Some(EntryOf(counts, nodes[j]).value)
  {
    var s := nodes[i];
    assert s !in Keys(metrics);
    var m := Put(metrics, s, row);
    forall j | 0 <= j < i
      ensures Get(m, nodes[j]) == Get(metrics, nodes[j])
    {
      assert nodes[j] != s;
    }
    assert nodes[..i + 1] == nodes[..i] + [s];
  }

  /** One node's entry: its row when it was counted, and an empty row otherwise. */
  function EntryOf(counts: map<Node, NodeCounts>, n: Node): Result<Dict<string, Metric>>
  {
    if n in counts then RowOf(counts[n]) else Ok([])
  }

  /** The loop over one node's counted deviations. */
  method NodeRow(nc: NodeCounts) returns (r: Result<Dict<string, Metric>>)
    ensures r == RowOf(nc)
  {
    var row: Dict<string, Metric> := [];
    var k := 0;
    while k < |nc.deviations|
      invariant 0 <= k <= |nc.deviations|
      invariant Row(nc.deviations[..k], nc.mustIn) == Ok(row)
    {
      var m := NodeMetricFixed(nc.deviations[k].1, nc.mustIn);
      RowStep(nc.deviations, nc.mustIn, k, row);
      if m.Err? {
        return Err(ZeroDivisionError);
      }
      row := row + [(nc.deviations[k].0, m.value)];
      k := k + 1;
    }
    assert nc.deviations[..k] == nc.deviations;
    r := Ok(row);
  }

  /** One more deviation extends the row of the prefix, or makes the whole row fail. */
  lemma RowStep(devs: Dict<string, Counts>, mustIn: nat, k: nat, row: Dict<string, Metric>)
    requires k < |devs| && Row(devs[..k], mustIn) == Ok(row)
    ensures var m := NodeMetricFixed(devs[k].1, mustIn);
      (m.Err? ==> Row(devs, mustIn) == Err(ZeroDivisionError)) &&
      (m.Ok? ==> Row(devs[..k + 1], mustIn) == Ok(row + [(devs[k].0, m.value)]))
  {
    assert devs[..k + 1][..k] == devs[..k];
    if NodeMetricFixed(devs[k].1, mustIn).Err? {
      assert Total(devs[k].1) == 0;
    }
  }

  function RowOf(nc: NodeCounts): Result<Dict<string, Metric>>
  {
    Row(nc.deviations, nc.mustIn)
  }

  // ---------------------------------------------------------------------------
  // Metrics of a run

  function Sum(xs: seq<real>): real
  {
    if |xs| == 0 then 0.0 else Sum(xs[..|xs| - 1]) + xs[|xs| - 1]
  }

  /** statistics.mean: an empty list raises StatisticsError. */
  function Mean(xs: seq<real>): (r: Result<real>)
    ensures r.Err? <==> |xs| == 0
    ensures r.Err? ==> r.error == StatisticsError
  {
    if |xs| == 0 then Err(StatisticsError) else Ok(Sum(xs) / |xs| as real)
  }

  /** The mean of values between lo and hi is between lo and hi. */
  lemma {:induction false} SumBounds(xs: seq<real>, lo: real, hi: real)
    requires forall i :: 0 <= i < |xs| ==> lo <= xs[i] <= hi
    ensures |xs| as real * lo <= Sum(xs) <= |xs| as real * hi
  {
    if |xs| > 0 {
      SumBounds(xs[..|xs| - 1], lo, hi);
    }
  }

  lemma MeanBounds(xs: seq<real>, lo: real, hi: real)
    requires |xs| > 0 && forall i :: 0 <= i < |xs| ==> lo <= xs[i] <= hi
    ensures lo <= Mean(xs).value <= hi
  {
    SumBounds(xs, lo, hi);
    var n := |xs| as real;
    assert Mean(xs).value * n == Sum(xs);
  }

  /** node_metrics[node][deviation] for every node, in node order; a node without the deviation raises KeyError. */
  function Column(nm: Dict<Node, Dict<string, Metric>>, d: string): (r: Result<seq<Metric>>)
    ensures r.Ok? <==> forall i :: 0 <= i < |nm| ==> Get(nm[i].1, d).Some?
    ensures r.Err? ==> r.error == KeyError(d)
    ensures r.Ok? ==> |r.value| == |nm| && forall i :: 0 <= i < |nm| ==> Get(nm[i].1, d) == Some(r.value[i])
  {
    if |nm| == 0 then Ok([])
    else
      var init := nm[..|nm| - 1];
      assert forall i :: 0 <= i < |init| ==> init[i] == nm[i];
      match Get(nm[|nm| - 1].1, d)
      case None => Err(KeyError(d))
      case Some(m) =>
        match Column(init, d)
        case Err(e) => Err(e)
        case Ok(ms) => Ok(ms + [m])
  }

  function Rates(ms: seq<Metric>): (xs: seq<real>)
    ensures |xs| == |ms| && forall i :: 0 <= i < |ms| ==> xs[i] == ms[i].detectionRate
  {
    seq(|ms|, i requires 0 <= i < |ms| => ms[i].detectionRate)
  }

  function Precisions(ms: seq<Metric>): (xs: seq<real>)
    ensures |xs| == |ms| && forall i :: 0 <= i < |ms| ==> xs[i] == ms[i].precision
  {
    seq(|ms|, i requires 0 <= i < |ms| => ms[i].precision)
  }

  function Recalls(ms: seq<Metric>): (xs: seq<real>)
    ensures |xs| == |ms| && forall i :: 0 <= i < |ms| ==> xs[i] == ms[i].recall
  {
    seq(|ms|, i requires 0 <= i < |ms| => ms[i].recall)
  }

  datatype RunMetrics = RunMetrics(detectionRate: Dict<string, real>, precision: Dict<string, real>, recall: Dict<string, real>)

  /** Every metric of every node lies in [0, 1], as NodeMetricFixed guarantees. */
  predicate InUnit(nm: Dict<Node, Dict<string, Metric>>)
  {
    forall i, j :: 0 <= i < |nm| && 0 <= j < |nm[i].1| ==>
      var m := nm[i].1[j].1;
      0.0 <= m.detectionRate <= 1.0 && 0.0 <= m.precision <= 1.0 && 0.0 <= m.recall <= 1.0
  }

  /** The loop over node_metrics for one deviation. */
  method ColumnOf(nm: Dict<Node, Dict<string, Metric>>, d: string) returns (r: Result<seq<Metric>>)
    ensures r == Column(nm, d)
  {
    var ms: seq<Metric> := [];
    var i := 0;
    while i < |nm|
      invariant 0 <= i <= |nm|
      invariant Column(nm[..i], d) == Ok(ms)
    {
      assert nm[..i + 1][..i] == nm[..i];
      var m := Get(nm[i].1, d);
      if m.None? {
        ColumnPrefix(nm, i + 1, d);
        return Err(KeyError(d));
      }
      ms := ms + [m.value];
      i := i + 1;
    }
    assert nm[..i] == nm;
    return Ok(ms);
  }

  /** A key missing from a prefix's last row is missing from the column. */
  lemma ColumnPrefix(nm: Dict<Node, Dict<string, Metric>>, n: nat, d: string)
    requires 0 < n <= |nm| && Get(nm[n - 1].1, d).None?
    ensures Column(nm, d) == Err(KeyError(d))
  {
    assert !(forall i :: 0 <= i < |nm| ==> Get(nm[i].1, d).Some?);
  }

  /**
   * create_metrics_for_run: for each deviation, the mean over the nodes of
   * each metric. A node lacking the deviation raises KeyError, no nodes at
   * all StatisticsError.
   */
  method MetricsForRun(nm: Dict<Node, Dict<string, Metric>>, deviations: seq<string>) returns (r: Result<RunMetrics>)
    ensures r.Ok? ==> forall k :: 0 <= k < |deviations| ==>
      Recorded(nm, deviations[k], r.value.detectionRate, r.value.precision, r.value.recall)
    ensures r.Ok? ==> Keys(r.value.detectionRate) == Keys(r.value.precision) == Keys(r.value.recall)
    ensures r.Ok? && InUnit(nm) ==> forall k :: 0 <= k < |deviations| ==>
      UnitAt(r.value.detectionRate, deviations[k]) && UnitAt(r.value.precision, deviations[k]) && UnitAt(r.value.recall, deviations[k])
    ensures r.Err? ==> r.error == StatisticsError || r.error.KeyError?
    ensures r.Err? ==> exists k :: 0 <= k < |deviations| && (|nm| == 0 || Column(nm, deviations[k]).Err?)
  {
    var rates: Dict<string, real> := [];
    var precisions: Dict<string, real> := [];
    var recalls: Dict<string, real> := [];
    var k := 0;
    while k < |deviations|
      invariant 0 <= k <= |deviations|
      invariant Keys(rates) == Keys(precisions) == Keys(recalls)
      invariant k > 0 ==> |nm| > 0
      invariant forall j :: 0 <= j < k ==> Recorded(nm, deviations[j], rates, precisions, recalls)
    {
      var d := deviations[k];
      var ms := ColumnOf(nm, d);
      if ms.Err? {
        return Err(ms.error);
      }
      if |ms.value| == 0 {
        assert |nm| == 0;
        return Err(StatisticsError);
      }
      var rate, precision, recall := Mean(Rates(ms.value)).value, Mean(Precisions(ms.value)).value, Mean(Recalls(ms.value)).value;
      forall j | 0 <= j < k + 1
        ensures Recorded(nm, deviations[j], Put(rates, d, rate), Put(precisions, d, precision), Put(recalls, d, recall))
      {
        RecordedPut(nm, deviations[j], rates, precisions, recalls, d, ms.value);
      }
      rates, precisions, recalls := Put(rates, d, rate), Put(precisions, d, precision), Put(recalls, d, recall);
      k := k + 1;
    }
    r := Ok(RunMetrics(rates, precisions, recalls));
    if InUnit(nm) {
      forall j | 0 <= j < |deviations|
        ensures UnitAt(rates, deviations[j]) && UnitAt(precisions, deviations[j]) && UnitAt(recalls, deviations[j])
      {
        assert Recorded(nm, deviations[j], rates, precisions, recalls);
        ColumnInUnit(nm, deviations[j]);
      }
    }
  }

  /** d is recorded with a value in [0, 1]. */
  predicate UnitAt(dict: Dict<string, real>, d: string)
  {
    match Get(dict, d)
    case None => false
    case Some(v) => 0.0 <= v <= 1.0
  }

  /** The three run dicts hold the means of deviation d's column. */
  predicate Recorded(nm: Dict<Node, Dict<string, Metric>>, d: string,
    rates: Dict<string, real>, precisions: Dict<string, real>, recalls: Dict<string, real>)
  {
    match Column(nm, d)
    case Err(_) => false
    case Ok(ms) =>
      && |ms| > 0
      && Get(rates, d) == Some(Mean(Rates(ms)).value)
      && Get(precisions, d) == Some(Mean(Precisions(ms)).value)
      && Get(recalls, d) == Some(Mean(Recalls(ms)).value)
  }

  /** Recording the means of d's column keeps every other deviation's record and adds d's. */
  lemma RecordedPut(nm: Dict<Node, Dict<string, Metric>>, e: string,
    rates: Dict<string, real>, precisions: Dict<string, real>, recalls: Dict<string, real>, d: string, ms: seq<Metric>)
    requires Column(nm, d) == Ok(ms) && |ms| > 0
    requires e != d ==> Recorded(nm, e, rates, precisions, recalls)
    ensures Recorded(nm, e, Put(rates, d, Mean(Rates(ms)).value), Put(precisions, d, Mean(Precisions(ms)).value),
      Put(recalls, d, Mean(Recalls(ms)).value))
  {
  }

  /** The column of a metric dict whose metrics lie in [0, 1] has means in [0, 1]. */
  lemma ColumnInUnit(nm: Dict<Node, Dict<string, Metric>>, d: string)
    requires InUnit(nm) && Column(nm, d).Ok? && |nm| > 0
    ensures var ms := Column(nm, d).value;
      && 0.0 <= Mean(Rates(ms)).value <= 1.0
      && 0.0 <= Mean(Precisions(ms)).value <= 1.0
      && 0.0 <= Mean(Recalls(ms)).value <= 1.0
  {
    var ms := Column(nm, d).value;
    forall i | 0 <= i < |ms|
      ensures 0.0 <= ms[i].detectionRate <= 1.0 && 0.0 <= ms[i].precision <= 1.0 && 0.0 <= ms[i].recall <= 1.0
    {
      var j :| 0 <= j < |nm[i].1| && nm[i].1[j].0 == d && nm[i].1[j].1 == ms[i] by {
        InKeysAt(nm[i].1, d);
      }
    }
    MeanBounds(Rates(ms), 0.0, 1.0);
    MeanBounds(Precisions(ms), 0.0, 1.0);
    MeanBounds(Recalls(ms), 0.0, 1.0);
  }

  lemma InKeysAt(row: Dict<string, Metric>, d: string)
    requires Get(row, d).Some?
    ensures exists j :: 0 <= j < |row| && row[j].0 == d && row[j].1 == Get(row, d).value
  {
    var j := IndexOf(row, d).value;
    assert row[j].0 == d && row[j].1 == Get(row, d).value;
  }
}
