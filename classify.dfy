/**
 * The split both community detections make for one source node and one
 * deviation: walking the neighbours in order, a neighbour whose score is
 * within the bound is appended to "in", any other to "out". The score and the
 * bound are what the two detections differ in (an AUC distance against a
 * share of the mean AUC, or a state difference against the deviation).
 */
module Classify {
  import opened Dict

  type Node = string

  /** The "in" and "out" lists of one source node at one deviation. */
  datatype Split = Split(ins: seq<Node>, outs: seq<Node>)

  /** The neighbours whose score is at most the bound, in order. */
  function Within(ps: seq<(Node, real)>, bound: real): seq<Node>
  {
    if |ps| == 0 then []
    else Within(ps[..|ps| - 1], bound) + (if ps[|ps| - 1].1 <= bound then [ps[|ps| - 1].0] else [])
  }

  /** The neighbours whose score exceeds the bound, in order. */
  function Beyond(ps: seq<(Node, real)>, bound: real): seq<Node>
  {
    if |ps| == 0 then []
    else Beyond(ps[..|ps| - 1], bound) + (if ps[|ps| - 1].1 <= bound then [] else [ps[|ps| - 1].0])
  }

  /** The loop over the neighbours of one source at one deviation. */
  method SplitByBound(ps: seq<(Node, real)>, bound: real) returns (s: Split)
    ensures s == Split(Within(ps, bound), Beyond(ps, bound))
  {
    s := Split([], []);
    var i := 0;
    while i < |ps|
      invariant 0 <= i <= |ps|
      invariant s == Split(Within(ps[..i], bound), Beyond(ps[..i], bound))
    {
      assert ps[..i + 1][..i] == ps[..i];
      if ps[i].1 <= bound {
        s := s.(ins := s.ins + [ps[i].0]);
      } else {
        s := s.(outs := s.outs + [ps[i].0]);
      }
      i := i + 1;
    }
    assert ps[..i] == ps;
  }

  /** Together the two lists hold every neighbour once: as a multiset they are the neighbour list. */
  lemma {:induction false} SplitCovers(ps: seq<(Node, real)>, bound: real)
    ensures multiset(Within(ps, bound)) + multiset(Beyond(ps, bound)) == multiset(Keys(ps))
  {
    if |ps| > 0 {
      var init := ps[..|ps| - 1];
      var last := ps[|ps| - 1];
      SplitCovers(init, bound);
      assert Keys(ps) == Keys(init) + [last.0];
      assert multiset(Keys(ps)) == multiset(Keys(init)) + multiset{last.0};
      if last.1 <= bound {
        assert Within(ps, bound) == Within(init, bound) + [last.0];
        assert Beyond(ps, bound) == Beyond(init, bound);
        assert multiset(Within(ps, bound)) == multiset(Within(init, bound)) + multiset{last.0};
      } else {
        assert Within(ps, bound) == Within(init, bound);
        assert Beyond(ps, bound) == Beyond(init, bound) + [last.0];
        assert multiset(Beyond(ps, bound)) == multiset(Beyond(init, bound)) + multiset{last.0};
      }
    }
  }

  /** A neighbour is in "in" exactly when one of its entries scores within the bound. */
  lemma {:induction false} WithinIff(ps: seq<(Node, real)>, bound: real, n: Node)
    ensures n in Within(ps, bound) <==> exists i :: 0 <= i < |ps| && ps[i].0 == n && ps[i].1 <= bound
  {
    if |ps| > 0 {
      var init := ps[..|ps| - 1];
      WithinIff(init, bound, n);
      if exists i :: 0 <= i < |init| && init[i].0 == n && init[i].1 <= bound {
        var i :| 0 <= i < |init| && init[i].0 == n && init[i].1 <= bound;
        assert ps[i] == init[i];
      }
      if exists i :: 0 <= i < |ps| && ps[i].0 == n && ps[i].1 <= bound {
        var i :| 0 <= i < |ps| && ps[i].0 == n && ps[i].1 <= bound;
        if i < |init| {
          assert init[i] == ps[i];
        }
      }
    }
  }

  /** A neighbour is in "out" exactly when one of its entries scores beyond the bound. */
  lemma {:induction false} BeyondIff(ps: seq<(Node, real)>, bound: real, n: Node)
    ensures n in Beyond(ps, bound) <==> exists i :: 0 <= i < |ps| && ps[i].0 == n && ps[i].1 > bound
  {
    if |ps| > 0 {
      var init := ps[..|ps| - 1];
      BeyondIff(init, bound, n);
      if exists i :: 0 <= i < |init| && init[i].0 == n && init[i].1 > bound {
        var i :| 0 <= i < |init| && init[i].0 == n && init[i].1 > bound;
        assert ps[i] == init[i];
      }
      if exists i :: 0 <= i < |ps| && ps[i].0 == n && ps[i].1 > bound {
        var i :| 0 <= i < |ps| && ps[i].0 == n && ps[i].1 > bound;
        if i < |init| {
          assert init[i] == ps[i];
        }
      }
    }
  }

  /** With distinct neighbours, each lands in exactly one list, "in" when its score is within the bound. */
  lemma ExactlyOneList(ps: seq<(Node, real)>, bound: real, i: nat)
    requires i < |ps| && forall j, k :: 0 <= j < k < |ps| ==> ps[j].0 != ps[k].0
    ensures ps[i].0 in Within(ps, bound) <==> ps[i].1 <= bound
    ensures ps[i].0 in Beyond(ps, bound) <==> ps[i].1 > bound
  {
    WithinIff(ps, bound, ps[i].0);
    BeyondIff(ps, bound, ps[i].0);
  }

  /** Raising the bound only moves neighbours from "out" to "in". */
  lemma Monotone(ps: seq<(Node, real)>, b1: real, b2: real, n: Node)
    requires b1 <= b2
    ensures n in Within(ps, b1) ==> n in Within(ps, b2)
    ensures n in Beyond(ps, b2) ==> n in Beyond(ps, b1)
  {
    WithinIff(ps, b1, n);
    WithinIff(ps, b2, n);
    BeyondIff(ps, b1, n);
    BeyondIff(ps, b2, n);
  }
}
