/**
 * detect_communities_diff_at_t.py: a neighbour belongs to the source's
 * community at a deviation when the difference of their values at the
 * detection time (taken around the circle of states for the discrete
 * models) is at most that deviation. The interpolated values at the
 * detection time are inputs.
 */
module DetectDiff {
  import opened Base
  import opened Dict
  import opened Classify
  import Circle

  /**
   * run_detection reads max_states for mypotts and clock only; every other
   * model, metropolis included, keeps -1.
   */
  function MaxStatesRead(kind: string, configured: int): (m: int)
    ensures kind == "metropolis" ==> m == -1
  {
    if kind == "mypotts" || kind == "clock" then configured else -1
  }

  /** The read as the discrete models need it: metropolis has a max_states entry too. */
  function MaxStatesReadFixed(kind: string, configured: int): (m: int)
    ensures kind in {"mypotts", "clock", "metropolis"} ==> m == configured
    ensures kind !in {"mypotts", "clock", "metropolis"} ==> m == -1
  {
    if kind == "mypotts" || kind == "clock" || kind == "metropolis" then configured else -1
  }

  /** max_diff: 2 for kuramoto, max_states // 2 for the discrete models, 0 for any other. */
  function MaxDiff(kind: string, maxStates: int): (d: int)
    ensures kind in {"mypotts", "clock", "metropolis"} ==> 2 * d <= maxStates < 2 * d + 2
  {
    if kind == "kuramoto" then 2
    else if kind == "mypotts" || kind == "metropolis" || kind == "clock" then Circle.FloorDiv(maxStates, 2)
    else 0
  }

  /**
   * np.arange(start, max_diff, step) with start = step = max_diff / 20 (0.1
   * for kuramoto, 0.05 * max_diff otherwise), two decimals: the 19 multiples
   * of the step below max_diff. A zero step raises ZeroDivisionError.
   */
  function Deviations(maxDiff: int): (r: Result<seq<real>>)
    ensures r.Err? <==> maxDiff == 0
    ensures r.Err? ==> r.error == ZeroDivisionError
    ensures r.Ok? ==> |r.value| == 19 && forall k :: 0 <= k < 19 ==> r.value[k] == (k + 1) as real * maxDiff as real / 20.0
  {
    if maxDiff == 0 then Err(ZeroDivisionError)
    else Ok(seq(19, k requires 0 <= k < 19 => (k + 1) as real * maxDiff as real / 20.0))
  }

  /** The deviations start at a twentieth of max_diff, step by as much, and stay strictly between 0 and max_diff. */
  lemma DeviationsBelowMaxDiff(maxDiff: int, k: nat)
    requires maxDiff > 0 && k < 19
    ensures var devs := Deviations(maxDiff).value;
      && devs[0] == maxDiff as real / 20.0
      && (k < 18 ==> devs[k + 1] - devs[k] == maxDiff as real / 20.0)
      && 0.0 < devs[k] < maxDiff as real
  {
    var m := maxDiff as real;
    assert (k + 1) as real * m <= 19.0 * m;
  }

  function Abs(x: real): real
  {
    if x < 0.0 then -x else x
  }

  /** The difference of two values, taken the other way round the circle when it exceeds max_diff. */
  function Diff(target: real, source: real, maxDiff: int, maxStates: int): real
  {
    var raw := Abs(target - source);
    if raw > maxDiff as real then maxStates as real - raw else raw
  }

  /** For an even number of states, the difference is the distance around the circle, at most max_diff. */
  lemma DiffIsCircularDistance(target: real, source: real, maxStates: int)
    requires maxStates >= 2 && maxStates % 2 == 0
    requires 0.0 <= target < maxStates as real && 0.0 <= source < maxStates as real
    ensures var raw := Abs(target - source);
      var d := Diff(target, source, maxStates / 2, maxStates);
      && d == (if raw <= maxStates as real - raw then raw else maxStates as real - raw)
      && 0.0 <= d <= (maxStates / 2) as real
  {
  }

  /** Each neighbour scored by its difference to the source. */
  function Scores(ns: seq<Node>, values: map<Node, real>, source: real, maxDiff: int, maxStates: int): (ps: seq<(Node, real)>)
    requires forall i :: 0 <= i < |ns| ==> ns[i] in values
    ensures |ps| == |ns| && forall i :: 0 <= i < |ns| ==> ps[i] == (ns[i], Diff(values[ns[i]], source, maxDiff, maxStates))
    ensures Keys(ps) == ns
    ensures (&& maxStates >= 2 && maxStates % 2 == 0 && maxDiff == maxStates / 2 && 0.0 <= source < maxStates as real
             && forall i :: 0 <= i < |ns| ==> 0.0 <= values[ns[i]] < maxStates as real) ==>
      forall i :: 0 <= i < |ps| ==> 0.0 <= ps[i].1 <= maxDiff as real
  {
    seq(|ns|, i requires 0 <= i < |ns| => (ns[i], Diff(values[ns[i]], source, maxDiff, maxStates)))
  }

  /** The detections of one source, one entry per deviation. */
  function Table(ps: seq<(Node, real)>, devs: seq<real>): (t: Dict<real, Split>)
    ensures Keys(t) == devs
  {
    seq(|devs|, k requires 0 <= k < |devs| => (devs[k], Split(Within(ps, devs[k]), Beyond(ps, devs[k]))))
  }

  /** The value of each neighbour, read in order; a neighbour without one ends the run. */
  method ScoreNeighbours(ns: seq<Node>, values: map<Node, real>, source: real, maxDiff: int, maxStates: int)
    returns (r: Result<seq<(Node, real)>>)
    ensures r.Ok? <==> forall i :: 0 <= i < |ns| ==> ns[i] in values
    ensures r.Err? ==> r.error.KeyError?
    ensures r.Ok? ==> r.value == Scores(ns, values, source, maxDiff, maxStates)
  {
    var ps: seq<(Node, real)> := [];
    var i := 0;
    while i < |ns|
      invariant 0 <= i <= |ns|
      invariant forall j :: 0 <= j < i ==> ns[j] in values
      invariant |ps| == i && forall j :: 0 <= j < i ==> ps[j] == (ns[j], Diff(values[ns[j]], source, maxDiff, maxStates))
    {
      if ns[i] !in values {
        return Err(KeyError(ns[i]));
      }
      ps := ps + [(ns[i], Diff(values[ns[i]], source, maxDiff, maxStates))];
      i := i + 1;
    }
    return Ok(ps);
  }

  /** The loop over the deviations of one source. */
  method ClassifySource(ps: seq<(Node, real)>, devs: seq<real>) returns (table: Dict<real, Split>)
    ensures table == Table(ps, devs)
  {
    table := [];
    var k := 0;
    while k < |devs|
      invariant 0 <= k <= |devs|
      invariant table == Table(ps, devs[..k])
    {
      var split := SplitByBound(ps, devs[k]);
      table := table + [(devs[k], split)];
      k := k + 1;
    }
    assert devs[..k] == devs;
  }

  /** Whether every node and every neighbour of one has a value. */
  predicate AllValued(nodes: seq<Node>, neighbors: map<Node, seq<Node>>, values: map<Node, real>)
    requires forall i :: 0 <= i < |nodes| ==> nodes[i] in neighbors
  {
    forall i :: 0 <= i < |nodes| ==> nodes[i] in values && forall j :: 0 <= j < |neighbors[nodes[i]]| ==> neighbors[nodes[i]][j] in values
  }

  /**
   * detect_communities: for each graph node, its detections at each
   * deviation. A node or neighbour without a value ends the run (the source
   * calls exit()); so does the range of deviations with a zero step.
   */
  method DetectCommunities(nodes: seq<Node>, neighbors: map<Node, seq<Node>>, values: map<Node, real>, kind: string, maxStates: int)
    returns (r: Result<(Dict<Node, Dict<real, Split>>, seq<real>)>)
    requires forall i :: 0 <= i < |nodes| ==> nodes[i] in neighbors
    ensures |nodes| == 0 ==> r == Ok(([], []))
    ensures |nodes| > 0 && AllValued(nodes, neighbors, values) && Deviations(MaxDiff(kind, maxStates)).Ok? ==> r.Ok?
    ensures |nodes| > 0 && Deviations(MaxDiff(kind, maxStates)).Err? ==> r.Err?
    ensures r.Ok? ==> Keys(r.value.0) == nodes && AllValued(nodes, neighbors, values)
    ensures r.Ok? ==> r.value.1 == if |nodes| == 0 then [] else Deviations(MaxDiff(kind, maxStates)).value
    ensures r.Ok? ==> forall i :: 0 <= i < |nodes| ==>
      var maxDiff := MaxDiff(kind, maxStates);
      r.value.0[i].1 == Table(Scores(neighbors[nodes[i]], values, values[nodes[i]], maxDiff, maxStates), Deviations(maxDiff).value)
  {
    var maxDiff := MaxDiff(kind, maxStates);
    var results: Dict<Node, Dict<real, Split>> := [];
    var deviations: seq<real> := [];
    var i := 0;
    while i < |nodes|
      invariant 0 <= i <= |nodes|
      invariant |results| == i
      invariant i > 0 ==> Deviations(maxDiff).Ok? && deviations == Deviations(maxDiff).value
      invariant i == 0 ==> deviations == []
      invariant forall j :: 0 <= j < i ==>
        (nodes[j] in values && forall k :: 0 <= k < |neighbors[nodes[j]]| ==> neighbors[nodes[j]][k] in values)
      invariant forall j :: 0 <= j < i ==>
        (results[j].0 == nodes[j] &&
         results[j].1 == Table(Scores(neighbors[nodes[j]], values, values[nodes[j]], maxDiff, maxStates), Deviations(maxDiff).value))
    {
      var source := nodes[i];
      if source !in values {
        return Err(KeyError(source));
      }
      var devs := Deviations(maxDiff);
      if devs.Err? {
        return Err(devs.error);
      }
      var ps := ScoreNeighbours(neighbors[source], values, values[source], maxDiff, maxStates);
      if ps.Err? {
        return Err(ps.error);
      }
      var table := ClassifySource(ps.value, devs.value);
      deviations := devs.value;
      results := results + [(source, table)];
      i := i + 1;
    }
    return Ok((results, deviations));
  }

  /** run_detection's part: the max_states read, then the detection. */
  method RunDetection(nodes: seq<Node>, neighbors: map<Node, seq<Node>>, values: map<Node, real>, kind: string, configured: int)
    returns (r: Result<(Dict<Node, Dict<real, Split>>, seq<real>)>)
    requires forall i :: 0 <= i < |nodes| ==> nodes[i] in neighbors
    ensures r.Ok? ==> Keys(r.value.0) == nodes
    ensures r.Ok? && kind == "metropolis" && configured >= 2 ==>
      r.value.1 == if |nodes| == 0 then [] else Deviations(configured / 2).value
  {
    r := DetectCommunities(nodes, neighbors, values, kind, MaxStatesReadFixed(kind, configured));
  }

  /** A neighbour is "in" at a deviation exactly when its difference is at most the deviation. */
  lemma InIff(ps: seq<(Node, real)>, devs: seq<real>, k: nat, i: nat)
    requires k < |devs| && i < |ps| && forall a, b :: 0 <= a < b < |ps| ==> ps[a].0 != ps[b].0
    ensures ps[i].0 in Table(ps, devs)[k].1.ins <==> ps[i].1 <= devs[k]
    ensures ps[i].0 in Table(ps, devs)[k].1.outs <==> ps[i].1 > devs[k]
  {
    ExactlyOneList(ps, devs[k], i);
  }

  /** A neighbour "in" at one deviation is "in" at every later one when max_diff is positive. */
  lemma InMonotone(ps: seq<(Node, real)>, maxDiff: int, k1: nat, k2: nat, n: Node)
    requires maxDiff > 0 && k1 <= k2 < 19
    ensures var t := Table(ps, Deviations(maxDiff).value);
      n in t[k1].1.ins ==> n in t[k2].1.ins
  {
    var devs := Deviations(maxDiff).value;
    var m := maxDiff as real;
    assert (k1 + 1) as real * m <= (k2 + 1) as real * m by {
      assert ((k2 + 1) as real - (k1 + 1) as real) * m >= 0.0;
    }
    Monotone(ps, devs[k1], devs[k2], n);
  }

  /**
   * As written, metropolis runs with max_states -1: max_diff is -1, every
   * difference exceeds it and turns into -1 - diff, below every deviation,
   * so every neighbour of every node is "in" at every deviation.
   */
  lemma MetropolisAllIn(ns: seq<Node>, values: map<Node, real>, source: real, configured: int, k: nat)
    requires forall i :: 0 <= i < |ns| ==> ns[i] in values
    requires k < 19
    ensures var maxStates := MaxStatesRead("metropolis", configured);
      var maxDiff := MaxDiff("metropolis", maxStates);
      var ps := Scores(ns, values, source, maxDiff, maxStates);
      && maxDiff == -1
      && Table(ps, Deviations(maxDiff).value)[k].1.outs == []
      && Table(ps, Deviations(maxDiff).value)[k].1.ins == ns
  {
    var maxDiff := MaxDiff("metropolis", -1);
    assert maxDiff == -1;
    var ps := Scores(ns, values, source, -1, -1);
    var dev := Deviations(-1).value[k];
    assert dev >= -19.0 / 20.0;
    forall i | 0 <= i < |ps|
      ensures ps[i].1 <= dev
    {
      assert ps[i].1 <= -1.0;
    }
    AllWithin(ps, dev);
    assert Keys(ps) == ns;
  }

  /** When every score is within the bound, "in" is every neighbour and "out" is empty. */
  lemma {:induction false} AllWithin(ps: seq<(Node, real)>, bound: real)
    requires forall i :: 0 <= i < |ps| ==> ps[i].1 <= bound
    ensures Within(ps, bound) == Keys(ps) && Beyond(ps, bound) == []
  {
    if |ps| > 0 {
      AllWithin(ps[..|ps| - 1], bound);
      assert Keys(ps) == Keys(ps[..|ps| - 1]) + [ps[|ps| - 1].0];
    }
  }

  /**
   * With max_states read for metropolis too, a neighbour in the opposite
   * state (half the states away) is "out" at every deviation.
   */
  lemma MetropolisFixedSeparates(ns: seq<Node>, values: map<Node, real>, source: real, configured: int, k: nat, i: nat)
    requires forall j :: 0 <= j < |ns| ==> ns[j] in values
    requires forall a, b :: 0 <= a < b < |ns| ==> ns[a] != ns[b]
    requires configured >= 2 && k < 19 && i < |ns|
    requires Abs(values[ns[i]] - source) == (configured / 2) as real
    ensures var maxStates := MaxStatesReadFixed("metropolis", configured);
      var maxDiff := MaxDiff("metropolis", maxStates);
      var ps := Scores(ns, values, source, maxDiff, maxStates);
      ns[i] in Table(ps, Deviations(maxDiff).value)[k].1.outs
  {
    assert MaxStatesReadFixed("metropolis", configured) == configured;
    var maxDiff := MaxDiff("metropolis", configured);
    assert maxDiff == configured / 2 && maxDiff >= 1;
    var ps := Scores(ns, values, source, maxDiff, configured);
    var devs := Deviations(maxDiff).value;
    DeviationsBelowMaxDiff(maxDiff, k);
    assert Diff(values[ns[i]], source, maxDiff, configured) == maxDiff as real;
    assert ps[i] == (ns[i], maxDiff as real);
    assert forall a, b :: 0 <= a < b < |ps| ==> ps[a].0 != ps[b].0;
    ExactlyOneList(ps, devs[k], i);
    assert Table(ps, devs)[k].1.outs == Beyond(ps, devs[k]);
  }
}
