/**
 * popularitynetwork.py: a random graph on the nodes 0..nodes-1, cut into
 * communities of consecutive ids. Each community gets a spanning tree and
 * random intra-community edges, a few extra intra edges go to random
 * communities, and the remaining edges join two different communities. The
 * whole draw is repeated until networkx reports a connected graph, at most
 * 100 times.
 *
 * The random module is an oracle: a sequence of natural numbers consumed in
 * order, draw d choosing d % n among n candidates. A loop that would keep
 * drawing after the oracle is exhausted reports OutOfDraws; no loop of the
 * source is claimed to terminate. Connectivity is given as a predicate.
 */
module PopularityNetwork {
  import opened Base
  import opened Wire
  import opened Circle

  type Edge = (int, int)

  // ---------------------------------------------------------------------------
  // Edge and community arithmetic

  /** int(edges * float(intraedgespercent)), and the rest of the edges. */
  function EdgeBudget(edges: int, pct: real): (r: (int, int))
    ensures r.0 + r.1 == edges
    ensures 0 <= edges && 0.0 <= pct <= 1.0 ==> 0 <= r.0 <= edges
  {
    var x := edges as real * pct;
    ShareWithin(edges as real, pct);
    (Truncate(x), edges - Truncate(x))
  }

  /** A share in [0, 1] of a non-negative amount lies between 0 and the amount. */
  lemma ShareWithin(e: real, p: real)
    ensures 0.0 <= e && 0.0 <= p <= 1.0 ==> 0.0 <= e * p <= e
  {
    if 0.0 <= e && 0.0 <= p <= 1.0 {
      assert e * (1.0 - p) >= 0.0;
    }
  }

  /** ceil(nodes / community_count); a zero count raises. */
  function CommunitySize(nodes: nat, count: int): (r: Result<int>)
    ensures r.Err? <==> count == 0
    ensures r.Err? ==> r.error == ZeroDivisionError
    ensures count > 0 ==> r.Ok? && (r.value - 1) * count < nodes <= r.value * count
  {
    if count == 0 then Err(ZeroDivisionError) else Ok(-FloorDiv(-(nodes as int), count))
  }

  /** intra_edges // community_count and what the division leaves over. */
  function IntraSplit(intra: int, count: int): (r: (int, int))
    requires count != 0
    ensures r.0 * count + r.1 == intra
    ensures count > 0 ==> 0 <= r.1 < count
  {
    (FloorDiv(intra, count), FloorMod(intra, count))
  }

  /** The number of distinct node pairs in a community of the given size. */
  function PairCount(size: int): int
  {
    size * (size - 1) / 2
  }

  /** The check made before generating: size*(size-1)/2, a float, against edges_per_community. */
  predicate Feasible(size: int, perCommunity: int)
  {
    !(((size * (size - 1)) as real) / 2.0 < perCommunity as real)
  }

  lemma FeasibleCountsPairs(size: int, perCommunity: int)
    ensures Feasible(size, perCommunity) <==> perCommunity <= PairCount(size)
  {
    var p := size * (size - 1);
    var h := size / 2;
    var q: int;
    if size == 2 * h {
      q := h * (size - 1);
      assert p == 2 * q;
    } else {
      q := size * h;
      assert size - 1 == 2 * h;
      assert p == 2 * q;
    }
    assert p / 2 == q;
    assert (p as real) / 2.0 == q as real;
  }

  // ---------------------------------------------------------------------------
  // Communities

  /** range(lo, hi) as a list. */
  function Range(lo: int, hi: int): (r: seq<int>)
    ensures |r| == if lo <= hi then hi - lo else 0
    ensures forall i :: 0 <= i < |r| ==> r[i] == lo + i
    decreases hi - lo
  {
    if lo >= hi then [] else [lo] + Range(lo + 1, hi)
  }

  function Min(a: int, b: int): int { if a <= b then a else b }

  function Max(a: int, b: int): int { if a >= b then a else b }

  /** nodes_list[i : i + size] for i in range(lo, nodes, size). */
  function Chunks(lo: nat, nodes: nat, size: nat): (cs: seq<seq<int>>)
    requires size > 0
    decreases nodes - lo
  {
    if lo >= nodes then [] else [Range(lo, Min(lo + size, nodes))] + Chunks(lo + size, nodes, size)
  }

  function Flatten(cs: seq<seq<int>>): seq<int>
  {
    if |cs| == 0 then [] else cs[0] + Flatten(cs[1..])
  }

  predicate Consecutive(c: seq<int>)
  {
    forall j :: 0 <= j < |c| ==> c[j] == c[0] + j
  }

  /** Every id of an earlier community is below every id of a later one. */
  predicate Ordered(cs: seq<seq<int>>)
  {
    forall k, l, i, j :: 0 <= k < l < |cs| && 0 <= i < |cs[k]| && 0 <= j < |cs[l]| ==> cs[k][i] < cs[l][j]
  }

  lemma {:induction false} RangeSplit(lo: int, mid: int, hi: int)
    requires lo <= mid <= hi
    ensures Range(lo, mid) + Range(mid, hi) == Range(lo, hi)
  {
    assert |Range(lo, mid) + Range(mid, hi)| == |Range(lo, hi)|;
    forall i | 0 <= i < hi - lo
      ensures (Range(lo, mid) + Range(mid, hi))[i] == Range(lo, hi)[i]
    {
      if i >= mid - lo {
        assert (Range(lo, mid) + Range(mid, hi))[i] == Range(mid, hi)[i - (mid - lo)];
      }
    }
  }

  /** The communities list lo..nodes-1 in order. */
  lemma {:induction false} ChunksCover(lo: nat, nodes: nat, size: nat)
    requires size > 0 && lo <= nodes
    ensures Flatten(Chunks(lo, nodes, size)) == Range(lo, nodes)
    decreases nodes - lo
  {
    var cs := Chunks(lo, nodes, size);
    if lo < nodes {
      var hi := Min(lo + size, nodes);
      var tail := Chunks(lo + size, nodes, size);
      assert cs[1..] == tail;
      if lo + size <= nodes {
        ChunksCover(lo + size, nodes, size);
        RangeSplit(lo, hi, nodes);
      } else {
        assert tail == [];
        assert Flatten(cs) == Range(lo, hi) + Flatten([]);
      }
    }
  }

  /**
   * Every community is a non-empty run of consecutive ids within lo..nodes-1,
   * of `size` ids except possibly the last, which is shorter.
   */
  lemma {:induction false} ChunksShape(lo: nat, nodes: nat, size: nat)
    requires size > 0 && lo <= nodes
    ensures forall k :: 0 <= k < |Chunks(lo, nodes, size)| ==>
      0 < |Chunks(lo, nodes, size)[k]| <= size && Consecutive(Chunks(lo, nodes, size)[k])
    ensures forall k :: 0 <= k < |Chunks(lo, nodes, size)| - 1 ==> |Chunks(lo, nodes, size)[k]| == size
    ensures forall k, i :: 0 <= k < |Chunks(lo, nodes, size)| && 0 <= i < |Chunks(lo, nodes, size)[k]| ==>
      lo <= Chunks(lo, nodes, size)[k][i] < nodes
    decreases nodes - lo
  {
    var cs := Chunks(lo, nodes, size);
    if lo < nodes {
      var tail := Chunks(lo + size, nodes, size);
      assert cs[1..] == tail;
      if lo + size <= nodes {
        ChunksShape(lo + size, nodes, size);
      } else {
        assert tail == [];
      }
      forall k | 0 < k < |cs|
        ensures cs[k] == tail[k - 1]
      {
      }
    }
  }

  /** Every id of an earlier community is below every id of a later one. */
  lemma {:induction false} ChunksOrdered(lo: nat, nodes: nat, size: nat)
    requires size > 0 && lo <= nodes
    ensures Ordered(Chunks(lo, nodes, size))
    decreases nodes - lo
  {
    var cs := Chunks(lo, nodes, size);
    if lo + size < nodes {
      var tail := Chunks(lo + size, nodes, size);
      assert cs[1..] == tail;
      ChunksOrdered(lo + size, nodes, size);
      ChunksShape(lo + size, nodes, size);
      forall k, l, i, j | 0 <= k < l < |cs| && 0 <= i < |cs[k]| && 0 <= j < |cs[l]|
        ensures cs[k][i] < cs[l][j]
      {
        assert cs[l] == tail[l - 1];
        assert lo + size <= tail[l - 1][j];
        if k > 0 {
          assert cs[k] == tail[k - 1];
          assert tail[k - 1][i] < tail[l - 1][j];
        } else {
          assert cs[0][i] == lo + i < lo + size;
        }
      }
    } else if lo < nodes {
      assert Chunks(lo + size, nodes, size) == [];
      assert |cs| == 1;
    }
  }

  /**
   * The communities partition lo..nodes-1 in order into runs of consecutive
   * ids, every one of `size` ids except possibly the last, which is shorter.
   */
  lemma ChunksPartition(lo: nat, nodes: nat, size: nat)
    requires size > 0 && lo <= nodes
    ensures Flatten(Chunks(lo, nodes, size)) == Range(lo, nodes)
    ensures forall k :: 0 <= k < |Chunks(lo, nodes, size)| ==>
      0 < |Chunks(lo, nodes, size)[k]| <= size && Consecutive(Chunks(lo, nodes, size)[k])
    ensures forall k :: 0 <= k < |Chunks(lo, nodes, size)| - 1 ==> |Chunks(lo, nodes, size)[k]| == size
    ensures forall k, i :: 0 <= k < |Chunks(lo, nodes, size)| && 0 <= i < |Chunks(lo, nodes, size)[k]| ==>
      lo <= Chunks(lo, nodes, size)[k][i] < nodes
    ensures Ordered(Chunks(lo, nodes, size))
  {
    ChunksCover(lo, nodes, size);
    ChunksShape(lo, nodes, size);
    ChunksOrdered(lo, nodes, size);
  }

  /**
   * The loop over range(0, nodes, community_size). A zero step raises in
   * range(); a negative one gives no communities at all.
   */
  method Communities(nodes: nat, size: int) returns (r: Result<seq<seq<int>>>)
    ensures r.Err? <==> size == 0
    ensures r.Err? ==> r.error == ValueError("range() arg 3 must not be zero")
    ensures size < 0 ==> r == Ok([])
    ensures size > 0 ==> r == Ok(Chunks(0, nodes, size))
  {
    if size == 0 {
      return Err(ValueError("range() arg 3 must not be zero"));
    }
    if size < 0 {
      return Ok([]);
    }
    var cs: seq<seq<int>> := [];
    var lo: nat := 0;
    while lo < nodes
      invariant cs + Chunks(lo, nodes, size) == Chunks(0, nodes, size)
      decreases nodes - lo
    {
      var chunk := Range(lo, Min(lo + size, nodes));
      assert Chunks(lo, nodes, size) == [chunk] + Chunks(lo + size, nodes, size);
      assert cs + Chunks(lo, nodes, size) == (cs + [chunk]) + Chunks(lo + size, nodes, size);
      cs := cs + [chunk];
      lo := lo + size;
    }
    assert Chunks(lo, nodes, size) == [];
    assert cs + [] == cs;
    return Ok(cs);
  }

  /**
   * The feasibility check looks at the first community only. With 10 nodes in
   * 4 communities of size 3 the last community is the single node 9, and with
   * 8 intra edges (2 per community) the check passes although that community
   * has no pair to draw: random.sample raises ValueError there.
   */
  lemma LastCommunityEscapesTheCheck()
    ensures CommunitySize(10, 4) == Ok(3) && IntraSplit(8, 4) == (2, 0)
    ensures Feasible(3, 2)
    ensures var cs := Chunks(0, 10, 3); |cs| == 4 && cs[3] == [9] && PairCount(|cs[3]|) < 2
  {
    var cs := Chunks(0, 10, 3);
    assert cs == [Range(0, 3)] + Chunks(3, 10, 3);
    assert Chunks(3, 10, 3) == [Range(3, 6)] + Chunks(6, 10, 3);
    assert Chunks(6, 10, 3) == [Range(6, 9)] + Chunks(9, 10, 3);
    assert Chunks(9, 10, 3) == [Range(9, 10)] + Chunks(12, 10, 3);
    assert Range(9, 10) == [9];
  }

  /**
   * The same gap without the ValueError: with 8 nodes in 3 communities and 6
   * intra edges (2 per community) the check passes, but the last community
   * [6, 7] has a single pair, which its tree edge already holds. Every pair
   * drawn there is that edge, so the redraw loop never finds a fresh one
   * (FreshPair stalls on every draw sequence).
   */
  lemma LastCommunityRedrawsForever()
    ensures CommunitySize(8, 3) == Ok(3) && IntraSplit(6, 3) == (2, 0)
    ensures Feasible(3, 2)
    ensures var cs := Chunks(0, 8, 3); |cs| == 3 && cs[2] == [6, 7] && PairCount(|cs[2]|) < 2
    ensures forall d1: nat, d2: nat :: Normalise([6, 7][SampleTwo(2, d1, d2).0], [6, 7][SampleTwo(2, d1, d2).1]) == (6, 7)
  {
    var cs := Chunks(0, 8, 3);
    assert cs == [Range(0, 3)] + Chunks(3, 8, 3);
    assert Chunks(3, 8, 3) == [Range(3, 6)] + Chunks(6, 8, 3);
    assert Chunks(6, 8, 3) == [Range(6, 8)] + Chunks(9, 8, 3);
    assert Range(6, 8) == [6, 7];
  }

  /** The check as evidently intended: every community, the smallest being the last, has room for its edges. */
  predicate FeasibleFixed(cs: seq<seq<int>>, perCommunity: int)
  {
    forall k :: 0 <= k < |cs| ==> perCommunity <= PairCount(|cs[k]|)
  }

  /** For chunked communities the corrected check reduces to the first and the last community. */
  lemma FeasibleFixedChunks(nodes: nat, size: nat, perCommunity: int)
    requires size > 0 && 0 < nodes
    ensures var cs := Chunks(0, nodes, size);
      FeasibleFixed(cs, perCommunity) <==>
        perCommunity <= PairCount(|cs[0]|) && perCommunity <= PairCount(|cs[|cs| - 1]|)
  {
    var cs := Chunks(0, nodes, size);
    ChunksPartition(0, nodes, size);
    assert |cs| > 0;
    if perCommunity <= PairCount(|cs[0]|) && perCommunity <= PairCount(|cs[|cs| - 1]|) {
      forall k | 0 <= k < |cs|
        ensures perCommunity <= PairCount(|cs[k]|)
      {
        if k < |cs| - 1 {
          assert |cs[k]| == |cs[0]|;
        }
      }
    }
  }

  /** When every community is to get edges, the corrected check leaves no community of a single node. */
  lemma FeasibleFixedNoSingleton(cs: seq<seq<int>>, perCommunity: int)
    requires FeasibleFixed(cs, perCommunity) && perCommunity > 0
    ensures forall k :: 0 <= k < |cs| ==> |cs[k]| != 1
  {
    assert PairCount(1) == 0;
  }

  // ---------------------------------------------------------------------------
  // Drawing edges

  /** random.sample of two positions out of n: two different positions. */
  function SampleTwo(n: nat, d1: nat, d2: nat): (p: (nat, nat))
    requires n >= 2
    ensures p.0 < n && p.1 < n && p.0 != p.1
  {
    var i := d1 % n;
    var j := d2 % (n - 1);
    (i, if j >= i then j + 1 else j)
  }

  /** The (smaller, larger) tuple an edge is stored as. */
  function Normalise(a: int, b: int): (e: Edge)
    ensures e.0 <= e.1
    ensures (e.0 == a && e.1 == b) || (e.0 == b && e.1 == a)
  {
    if a < b then (a, b) else (b, a)
  }

  predicate NoDuplicates(es: seq<Edge>)
  {
    forall i, j :: 0 <= i < j < |es| ==> es[i] != es[j]
  }

  /** An edge of two different nodes of community c, stored smaller end first. */
  predicate WithinCommunity(e: Edge, c: seq<int>)
  {
    e.0 < e.1 && e.0 in c && e.1 in c
  }

  predicate WithinSomeCommunity(e: Edge, cs: seq<seq<int>>)
  {
    exists k :: 0 <= k < |cs| && WithinCommunity(e, cs[k])
  }

  /** An edge from a node of one community to a node of a later one. */
  predicate Across(e: Edge, cs: seq<seq<int>>)
  {
    exists k, l :: 0 <= k < l < |cs| && e.0 in cs[k] && e.1 in cs[l]
  }

  predicate IsSuffix(rest: seq<nat>, draws: seq<nat>)
  {
    |rest| <= |draws| && rest == draws[|draws| - |rest|..]
  }

  lemma SuffixTrans(a: seq<nat>, b: seq<nat>, c: seq<nat>)
    requires IsSuffix(a, b) && IsSuffix(b, c)
    ensures IsSuffix(a, c)
  {
    assert c[|c| - |b|..][|b| - |a|..] == c[|c| - |a|..];
  }

  lemma ConsecutiveMember(c: seq<int>, x: int)
    requires Consecutive(c) && |c| > 0 && c[0] <= x < c[0] + |c|
    ensures x in c
  {
    assert c[x - c[0]] == x;
  }

  /**
   * The spanning tree of a community: for each node n after the first, the
   * edge (random.choice(range(community[0], n)), n).
   */
  method TreeEdges(c: seq<int>, draws: seq<nat>) returns (s: Status, es: seq<Edge>, rest: seq<nat>)
    requires |c| > 0 && Consecutive(c)
    ensures IsSuffix(rest, draws)
    ensures s == Done || s == Stalled
    ensures s == Done ==> |es| == |c| - 1
    ensures s == Done ==> forall k :: 0 <= k < |es| ==> c[0] <= es[k].0 < es[k].1 && es[k].1 == c[k + 1]
  {
    es := [];
    rest := draws;
    var k := 1;
    while k < |c|
      invariant 1 <= k <= |c| && |es| == k - 1
      invariant IsSuffix(rest, draws)
      invariant forall i :: 0 <= i < |es| ==> c[0] <= es[i].0 < es[i].1 && es[i].1 == c[i + 1]
    {
      if |rest| == 0 {
        return Stalled, es, rest;
      }
      var a := c[0] + rest[0] % (c[k] - c[0]);
      SuffixTrans(rest[1..], rest, draws);
      rest := rest[1..];
      es := es + [(a, c[k])];
      k := k + 1;
    }
    s := Done;
  }

  /** The tree edges of a consecutive community are distinct edges inside it. */
  lemma TreeEdgesWithin(c: seq<int>, es: seq<Edge>)
    requires |c| > 0 && Consecutive(c) && |es| == |c| - 1
    requires forall k :: 0 <= k < |es| ==> c[0] <= es[k].0 < es[k].1 && es[k].1 == c[k + 1]
    ensures NoDuplicates(es)
    ensures forall k :: 0 <= k < |es| ==> WithinCommunity(es[k], c)
  {
    forall k | 0 <= k < |es|
      ensures WithinCommunity(es[k], c)
    {
      ConsecutiveMember(c, es[k].0);
    }
  }

  /** The inner `while True` for one community: sample pairs until one is not yet in the list. */
  method FreshPair(c: seq<int>, es: seq<Edge>, draws: seq<nat>) returns (s: Status, e: Edge, rest: seq<nat>)
    requires |c| >= 2 && Consecutive(c)
    ensures IsSuffix(rest, draws)
    ensures s == Done || s == Stalled
    ensures s == Done ==> e !in es && WithinCommunity(e, c)
    ensures (forall d1: nat, d2: nat :: Normalise(c[SampleTwo(|c|, d1, d2).0], c[SampleTwo(|c|, d1, d2).1]) in es) ==>
      s == Stalled
  {
    rest := draws;
    while true
      invariant IsSuffix(rest, draws)
      decreases |rest|
    {
      if |rest| < 2 {
        return Stalled, (0, 0), rest;
      }
      var p := SampleTwo(|c|, rest[0], rest[1]);
      SuffixTrans(rest[2..], rest, draws);
      rest := rest[2..];
      e := Normalise(c[p.0], c[p.1]);
      if e !in es {
        return Done, e, rest;
      }
    }
  }

  /**
   * community_edge_list of one community: the tree, then fresh random pairs
   * until edges_per_community is reached. A one-node community that still
   * needs edges makes random.sample raise.
   */
  method CommunityEdges(c: seq<int>, perCommunity: int, draws: seq<nat>) returns (s: Status, es: seq<Edge>, rest: seq<nat>)
    requires |c| > 0 && Consecutive(c)
    ensures IsSuffix(rest, draws)
    ensures s.Raised? ==> s.error == ValueError("sample larger than population") && |c| == 1 && perCommunity > 0
    ensures s == Done ==> |es| == Max(|c| - 1, perCommunity) && NoDuplicates(es)
    ensures s == Done ==> forall k :: 0 <= k < |es| ==> WithinCommunity(es[k], c)
    ensures s == Done ==> forall k :: 0 <= k < |c| - 1 ==> c[0] <= es[k].0 && es[k].1 == c[k + 1]
  {
    s, es, rest := TreeEdges(c, draws);
    if s != Done {
      return;
    }
    TreeEdgesWithin(c, es);
    while |es| < perCommunity
      invariant s == Done && IsSuffix(rest, draws)
      invariant |c| - 1 <= |es| <= Max(|c| - 1, perCommunity)
      invariant NoDuplicates(es) && forall k :: 0 <= k < |es| ==> WithinCommunity(es[k], c)
      invariant forall k :: 0 <= k < |c| - 1 ==> c[0] <= es[k].0 && es[k].1 == c[k + 1]
      decreases perCommunity - |es|
    {
      if |c| < 2 {
        return Raised(ValueError("sample larger than population")), es, rest;
      }
      var e;
      var rest';
      s, e, rest' := FreshPair(c, es, rest);
      SuffixTrans(rest', rest, draws);
      rest := rest';
      if s != Done {
        return;
      }
      es := es + [e];
    }
  }

  /**
   * One attempt of the inner loop over extra intra edges: random.choice of a
   * community, then random.sample of two of its nodes, until the pair is
   * not yet in edges_list. Returns the number of duplicates drawn before.
   */
  method FreshIntraEdge(cs: seq<seq<int>>, es: seq<Edge>, draws: seq<nat>)
    returns (s: Status, e: Edge, duplicates: nat, rest: seq<nat>)
    requires forall k :: 0 <= k < |cs| ==> Consecutive(cs[k])
    ensures IsSuffix(rest, draws)
    ensures s.Raised? ==> (|cs| == 0 && s.error == IndexError) || s.error == ValueError("sample larger than population")
    ensures s == Done ==> |rest| < |draws| && e !in es && WithinSomeCommunity(e, cs)
  {
    rest := draws;
    duplicates := 0;
    while true
      invariant IsSuffix(rest, draws)
      decreases |rest|
    {
      if |cs| == 0 {
        return Raised(IndexError), (0, 0), duplicates, rest;
      }
      if |rest| == 0 {
        return Stalled, (0, 0), duplicates, rest;
      }
      var k := rest[0] % |cs|;
      var c := cs[k];
      if |c| < 2 {
        return Raised(ValueError("sample larger than population")), (0, 0), duplicates, rest;
      }
      if |rest| < 3 {
        return Stalled, (0, 0), duplicates, rest;
      }
      var p := SampleTwo(|c|, rest[1], rest[2]);
      SuffixTrans(rest[3..], rest, draws);
      rest := rest[3..];
      e := Normalise(c[p.0], c[p.1]);
      if e !in es {
        assert WithinCommunity(e, cs[k]);
        return Done, e, duplicates, rest;
      }
      duplicates := duplicates + 1;
    }
  }

  /**
   * The extra intra edges, kept as written: remaining_intra is decremented
   * only when a duplicate is drawn, so the loop adds edges until enough
   * duplicates have been seen rather than a fixed number of them. Nothing
   * bounds the number of edges it adds.
   */
  method ExtraIntra(cs: seq<seq<int>>, edges: seq<Edge>, remaining: int, draws: seq<nat>)
    returns (s: Status, es: seq<Edge>, rest: seq<nat>)
    requires forall k :: 0 <= k < |cs| ==> Consecutive(cs[k])
    ensures IsSuffix(rest, draws)
    ensures s.Raised? ==> (|cs| == 0 && s.error == IndexError) || s.error == ValueError("sample larger than population")
    ensures |es| >= |edges| && es[..|edges|] == edges
    ensures forall k :: |edges| <= k < |es| ==> WithinSomeCommunity(es[k], cs)
    ensures NoDuplicates(edges) ==> NoDuplicates(es)
    ensures s == Done && remaining <= 0 ==> es == edges
    ensures s == Done && remaining > 0 ==> |es| > |edges|
  {
    es := edges;
    rest := draws;
    s := Done;
    var left := remaining;
    while left > 0
      invariant IsSuffix(rest, draws)
      invariant |es| >= |edges| && es[..|edges|] == edges
      invariant forall k :: |edges| <= k < |es| ==> WithinSomeCommunity(es[k], cs)
      invariant NoDuplicates(edges) ==> NoDuplicates(es)
      invariant s == Done && left <= remaining
      invariant |es| == |edges| ==> left == remaining
      invariant remaining <= 0 ==> es == edges
      decreases |rest|
    {
      var e, duplicates, rest';
      s, e, duplicates, rest' := FreshIntraEdge(cs, es, rest);
      SuffixTrans(rest', rest, draws);
      rest := rest';
      if s != Done {
        return;
      }
      es := es + [e];
      left := left - duplicates;
    }
  }

  /**
   * One inter edge: random.sample of two communities, random.choice of a
   * node in each, until the pair is not yet in edges_list.
   */
  method FreshInterEdge(cs: seq<seq<int>>, es: seq<Edge>, draws: seq<nat>) returns (s: Status, e: Edge, rest: seq<nat>)
    requires Ordered(cs)
    ensures IsSuffix(rest, draws)
    ensures s.Raised? ==> (|cs| < 2 && s.error == ValueError("sample larger than population")) || s.error == IndexError
    ensures s == Done ==> e !in es && e.0 < e.1 && Across(e, cs)
  {
    rest := draws;
    if |cs| < 2 {
      return Raised(ValueError("sample larger than population")), (0, 0), rest;
    }
    while true
      invariant IsSuffix(rest, draws)
      decreases |rest|
    {
      if |rest| < 2 {
        return Stalled, (0, 0), rest;
      }
      var p := SampleTwo(|cs|, rest[0], rest[1]);
      var c1 := cs[p.0];
      var c2 := cs[p.1];
      if |c1| == 0 || |rest| < 3 {
        return (if |c1| == 0 then Raised(IndexError) else Stalled), (0, 0), rest;
      }
      if |c2| == 0 || |rest| < 4 {
        return (if |c2| == 0 then Raised(IndexError) else Stalled), (0, 0), rest;
      }
      var n1 := c1[rest[2] % |c1|];
      var n2 := c2[rest[3] % |c2|];
      SuffixTrans(rest[4..], rest, draws);
      rest := rest[4..];
      e := Normalise(n1, n2);
      if e !in es {
        if p.0 < p.1 {
          assert n1 < n2;
          assert Across(e, cs) by { assert e.0 in cs[p.0] && e.1 in cs[p.1]; }
        } else {
          assert n2 < n1;
          assert Across(e, cs) by { assert e.0 in cs[p.1] && e.1 in cs[p.0]; }
        }
        return Done, e, rest;
      }
    }
  }

  /** for i in range(inter_edges): one fresh edge between two communities each. */
  method InterEdges(cs: seq<seq<int>>, edges: seq<Edge>, inter: int, draws: seq<nat>)
    returns (s: Status, es: seq<Edge>, rest: seq<nat>)
    requires Ordered(cs)
    ensures IsSuffix(rest, draws)
    ensures s.Raised? ==> (|cs| < 2 && s.error == ValueError("sample larger than population")) || s.error == IndexError
    ensures |es| >= |edges| && es[..|edges|] == edges
    ensures forall k :: |edges| <= k < |es| ==> es[k].0 < es[k].1 && Across(es[k], cs)
    ensures NoDuplicates(edges) ==> NoDuplicates(es)
    ensures s == Done ==> |es| == |edges| + Max(0, inter)
  {
    es := edges;
    rest := draws;
    s := Done;
    var i := 0;
    while i < inter
      invariant s == Done && IsSuffix(rest, draws)
      invariant |es| == |edges| + Max(0, i) && es[..|edges|] == edges
      invariant forall k :: |edges| <= k < |es| ==> es[k].0 < es[k].1 && Across(es[k], cs)
      invariant NoDuplicates(edges) ==> NoDuplicates(es)
      invariant i <= Max(0, inter)
    {
      var e, rest';
      s, e, rest' := FreshInterEdge(cs, es, rest);
      SuffixTrans(rest', rest, draws);
      rest := rest';
      if s != Done {
        return;
      }
      es := es + [e];
      i := i + 1;
    }
  }

  /** The sum over communities of the edges each gets: its tree, topped up to edges_per_community. */
  function IntraTotal(cs: seq<seq<int>>, perCommunity: int): nat
  {
    if |cs| == 0 then 0 else Max(|cs[0]| - 1, Max(perCommunity, 0)) + IntraTotal(cs[1..], perCommunity)
  }

  lemma IntraTotalAppend(cs: seq<seq<int>>, c: seq<int>, perCommunity: int)
    ensures IntraTotal(cs + [c], perCommunity) == IntraTotal(cs, perCommunity) + Max(|c| - 1, Max(perCommunity, 0))
  {
    if |cs| > 0 {
      assert (cs + [c])[1..] == cs[1..] + [c];
      IntraTotalAppend(cs[1..], c, perCommunity);
    }
  }

  /** Two edges inside different communities of an ordered list are different edges. */
  lemma DifferentCommunities(cs: seq<seq<int>>, k: int, l: int, e: Edge, f: Edge)
    requires Ordered(cs) && 0 <= k < l < |cs|
    requires WithinCommunity(e, cs[k]) && WithinCommunity(f, cs[l])
    ensures e != f
  {
    var i :| 0 <= i < |cs[k]| && cs[k][i] == e.0;
    var j :| 0 <= j < |cs[l]| && cs[l][j] == f.0;
    assert cs[k][i] < cs[l][j];
  }

  /**
   * The edges of all communities, in community order: no edge twice, each
   * inside the community it was drawn for.
   */
  method AllCommunityEdges(cs: seq<seq<int>>, perCommunity: int, draws: seq<nat>)
    returns (s: Status, es: seq<Edge>, rest: seq<nat>)
    requires Ordered(cs)
    requires forall k :: 0 <= k < |cs| ==> |cs[k]| > 0 && Consecutive(cs[k])
    ensures IsSuffix(rest, draws)
    ensures s.Raised? ==>
      s.error == ValueError("sample larger than population") && perCommunity > 0
      && exists k :: 0 <= k < |cs| && |cs[k]| == 1
    ensures s == Done ==> |es| == IntraTotal(cs, perCommunity) && NoDuplicates(es)
    ensures s == Done ==> forall i :: 0 <= i < |es| ==> WithinSomeCommunity(es[i], cs)
  {
    es := [];
    rest := draws;
    s := Done;
    var k := 0;
    while k < |cs|
      invariant 0 <= k <= |cs| && s == Done && IsSuffix(rest, draws)
      invariant |es| == IntraTotal(cs[..k], perCommunity) && NoDuplicates(es)
      invariant forall i :: 0 <= i < |es| ==> exists j :: 0 <= j < k && WithinCommunity(es[i], cs[j])
    {
      var ce, rest';
      s, ce, rest' := CommunityEdges(cs[k], perCommunity, rest);
      SuffixTrans(rest', rest, draws);
      rest := rest';
      if s != Done {
        return;
      }
      forall i, j | 0 <= i < |es| && 0 <= j < |ce|
        ensures es[i] != ce[j]
      {
        var m :| 0 <= m < k && WithinCommunity(es[i], cs[m]);
        DifferentCommunities(cs, m, k, es[i], ce[j]);
      }
      IntraTotalAppend(cs[..k], cs[k], perCommunity);
      assert cs[..k + 1] == cs[..k] + [cs[k]];
      es := es + ce;
      k := k + 1;
    }
    assert cs[..k] == cs;
    forall i | 0 <= i < |es|
      ensures WithinSomeCommunity(es[i], cs)
    {
      var j :| 0 <= j < k && WithinCommunity(es[i], cs[j]);
    }
  }

  /**
   * One pass of the `while tries < 100` loop up to the graph: community
   * edges, extra intra edges, inter edges.
   */
  method OneTry(cs: seq<seq<int>>, perCommunity: int, more: int, inter: int, draws: seq<nat>)
    returns (s: Status, es: seq<Edge>, rest: seq<nat>)
    requires Ordered(cs)
    requires forall k :: 0 <= k < |cs| ==> |cs[k]| > 0 && Consecutive(cs[k])
    ensures IsSuffix(rest, draws)
    ensures s == Done ==> NoDuplicates(es)
    ensures s == Done ==> forall i :: 0 <= i < |es| ==> es[i].0 < es[i].1 && (WithinSomeCommunity(es[i], cs) || Across(es[i], cs))
    ensures s == Done ==> |es| >= IntraTotal(cs, perCommunity) + Max(0, inter)
    ensures s.Raised? ==> s.error.ValueError? || s.error == IndexError
  {
    var intra, extra, rest1, rest2;
    s, intra, rest1 := AllCommunityEdges(cs, perCommunity, draws);
    if s != Done {
      return s, intra, rest1;
    }
    s, extra, rest2 := ExtraIntra(cs, intra, more, rest1);
    SuffixTrans(rest2, rest1, draws);
    if s != Done {
      return s, extra, rest2;
    }
    s, es, rest := InterEdges(cs, extra, inter, rest2);
    SuffixTrans(rest, rest2, draws);
    if s == Done {
      forall i | 0 <= i < |es|
        ensures es[i].0 < es[i].1 && (WithinSomeCommunity(es[i], cs) || Across(es[i], cs))
      {
        if i < |extra| {
          assert es[i] == extra[i];
          if i < |intra| {
            assert extra[i] == intra[i];
          }
        }
      }
    }
  }

  lemma EdgeInRange(cs: seq<seq<int>>, nodes: nat, e: Edge)
    requires forall k, i :: 0 <= k < |cs| && 0 <= i < |cs[k]| ==> 0 <= cs[k][i] < nodes
    requires e.0 < e.1 && (WithinSomeCommunity(e, cs) || Across(e, cs))
    ensures 0 <= e.0 < e.1 < nodes
  {
    if WithinSomeCommunity(e, cs) {
      var k :| 0 <= k < |cs| && WithinCommunity(e, cs[k]);
      var a :| 0 <= a < |cs[k]| && cs[k][a] == e.0;
      var b :| 0 <= b < |cs[k]| && cs[k][b] == e.1;
    } else {
      var k, l :| 0 <= k < l < |cs| && e.0 in cs[k] && e.1 in cs[l];
      var a :| 0 <= a < |cs[k]| && cs[k][a] == e.0;
      var b :| 0 <= b < |cs[l]| && cs[l][b] == e.1;
    }
  }

  lemma EdgesInRange(cs: seq<seq<int>>, nodes: nat, es: seq<Edge>)
    requires forall k, i :: 0 <= k < |cs| && 0 <= i < |cs[k]| ==> 0 <= cs[k][i] < nodes
    requires forall i :: 0 <= i < |es| ==> es[i].0 < es[i].1 && (WithinSomeCommunity(es[i], cs) || Across(es[i], cs))
    ensures forall i :: 0 <= i < |es| ==> 0 <= es[i].0 < es[i].1 < nodes
  {
    forall i | 0 <= i < |es|
      ensures 0 <= es[i].0 < es[i].1 < nodes
    {
      EdgeInRange(cs, nodes, es[i]);
    }
  }

  /** What main ends in: a written graph, a raised exception, or an oracle with no draws left. */
  datatype Generated = Network(edges: seq<Edge>) | Failed(error: Failure) | OutOfDraws

  /**
   * main after parsing the arguments, with the feasibility check made for
   * every community. Nodes are ids 0..nodes-1; a written network is
   * connected, has no edge twice, and every edge joins two different nodes
   * of one community or of two communities.
   */
  method Generate(nodes: nat, count: int, edges: int, pct: real, draws: seq<nat>, connected: seq<Edge> -> bool)
    returns (r: Generated, tries: nat)
    ensures count == 0 ==> r == Failed(ZeroDivisionError)
    ensures r.Network? ==> connected(r.edges) && NoDuplicates(r.edges) && tries < 100
    ensures r.Network? ==> forall i :: 0 <= i < |r.edges| ==> 0 <= r.edges[i].0 < r.edges[i].1 < nodes
    ensures r == Failed(NetworkCreationError("did not create a connected graph in 100 tries")) <==> tries == 100
    ensures CommunitySize(nodes, count).Ok? && CommunitySize(nodes, count).value != 0 ==>
      var size := CommunitySize(nodes, count).value;
      var cs := if size < 0 then [] else Chunks(0, nodes, size);
      var (intra, inter) := EdgeBudget(edges, pct);
      var perCommunity := IntraSplit(intra, count).0;
      && (!FeasibleFixed(cs, perCommunity) ==> r == Failed(NetworkCreationError("each community has more edges than node pairs")))
      && (r.Network? ==>
            && |r.edges| >= IntraTotal(cs, perCommunity) + Max(0, inter)
            && forall i :: 0 <= i < |r.edges| ==> WithinSomeCommunity(r.edges[i], cs) || Across(r.edges[i], cs))
  {
    tries := 0;
    var (intra, inter) := EdgeBudget(edges, pct);
    var size := CommunitySize(nodes, count);
    if size.Err? {
      return Failed(size.error), tries;
    }
    var communities := Communities(nodes, size.value);
    if communities.Err? {
      return Failed(communities.error), tries;
    }
    var cs := communities.value;
    var (perCommunity, more) := IntraSplit(intra, count);
    if !FeasibleFixed(cs, perCommunity) {
      return Failed(NetworkCreationError("each community has more edges than node pairs")), tries;
    }
    if size.value > 0 {
      ChunksShape(0, nodes, size.value);
      ChunksOrdered(0, nodes, size.value);
    }
    var rest := draws;
    while tries < 100
      invariant tries <= 100
      decreases 100 - tries
    {
      var s, es, rest' := OneTry(cs, perCommunity, more, inter, rest);
      rest := rest';
      if s == Stalled {
        return OutOfDraws, tries;
      }
      if s.Raised? {
        return Failed(s.error), tries;
      }
      if connected(es) {
        EdgesInRange(cs, nodes, es);
        return Network(es), tries;
      }
      tries := tries + 1;
    }
    return Failed(NetworkCreationError("did not create a connected graph in 100 tries")), tries;
  }
}
