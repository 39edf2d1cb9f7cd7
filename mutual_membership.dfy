/**
 * detect_communities_auc.py, mutual_communitymembership: making community
 * membership mutual at the first deviation of node "0". For every source
 * and every target in the source's "in" list that does not list the source
 * in turn, the common "in" neighbours vote on the target: when more of them
 * have the target "in" than "out", the source is appended to the target's
 * "in" list; otherwise the target moves from the source's "in" list to its
 * "out" list.
 *
 * The source's "in" list is changed while it is being iterated, and the
 * iteration walks it by position, as a Python for loop over a list does: a
 * removal shifts the next target into the position just visited, and that
 * target is skipped.
 */
module MutualMembership {
  import opened Base
  import opened Dict
  import opened Classify

  /** One deviation's detections: each node's "in" and "out" lists. */
  type Table = map<Node, Split>

  /** list.remove(x): drops the first occurrence of x. */
  function RemoveFirst(xs: seq<Node>, x: Node): (r: seq<Node>)
    requires x in xs
    ensures |r| == |xs| - 1 && multiset(r) == multiset(xs) - multiset{x}
  {
    if xs[0] == x then
      assert xs == [xs[0]] + xs[1..];
      xs[1..]
    else
      var r := [xs[0]] + RemoveFirst(xs[1..], x);
      assert xs == [xs[0]] + xs[1..];
      r
  }

  /**
   * list(set(a).intersection(b)), taken in the order of first occurrence in a.
   * Python iterates the set in hash order instead; the elements are the same,
   * so only which voter VotesPrefix reports first as missing can differ.
   */
  function Common(a: seq<Node>, b: seq<Node>): (r: seq<Node>)
    ensures forall x :: x in r <==> x in a && x in b
    ensures forall i, j :: 0 <= i < j < |r| ==> r[i] != r[j]
  {
    if |a| == 0 then []
    else
      var init := Common(a[..|a| - 1], b);
      var x := a[|a| - 1];
      assert forall y :: y in a <==> y in a[..|a| - 1] || y == x by {
        assert a == a[..|a| - 1] + [x];
      }
      if x in b && x !in init then init + [x] else init
  }

  /**
   * The vote of the common neighbours ps on target: how many have it "in",
   * and how many, not having it "in", have it "out". A voter without
   * detections raises KeyError.
   */
  function Votes(ps: seq<Node>, target: Node, t: Table): (r: Result<(nat, nat)>)
    ensures r.Ok? <==> forall i :: 0 <= i < |ps| ==> ps[i] in t
    ensures r.Ok? ==> r.value.0 + r.value.1 <= |ps|
    ensures r.Err? ==> r.error.KeyError?
  {
    if |ps| == 0 then Ok((0, 0))
    else
      var init := ps[..|ps| - 1];
      var p := ps[|ps| - 1];
      assert forall i :: 0 <= i < |init| ==> init[i] == ps[i];
      match Votes(init, target, t)
      case Err(e) => Err(e)
      case Ok((inCom, notInCom)) =>
        if p !in t then Err(KeyError(p))
        else if target in t[p].ins then Ok((inCom + 1, notInCom))
        else if target in t[p].outs then Ok((inCom, notInCom + 1))
        else Ok((inCom, notInCom))
  }

  /** The loop over the common neighbours. */
  method CountVotes(ps: seq<Node>, target: Node, t: Table) returns (r: Result<(nat, nat)>)
    ensures r == Votes(ps, target, t)
  {
    var inCom, notInCom := 0, 0;
    var i := 0;
    while i < |ps|
      invariant 0 <= i <= |ps|
      invariant Votes(ps[..i], target, t) == Ok((inCom, notInCom))
    {
      assert ps[..i + 1][..i] == ps[..i];
      var p := ps[i];
      if p !in t {
        VotesPrefix(ps, i + 1, target, t);
        return Err(KeyError(p));
      }
      if target in t[p].ins {
        inCom := inCom + 1;
      } else if target in t[p].outs {
        notInCom := notInCom + 1;
      }
      i := i + 1;
    }
    assert ps[..i] == ps;
    return Ok((inCom, notInCom));
  }

  /** A voter without detections fails the whole vote with the first such voter's KeyError. */
  lemma {:induction false} VotesPrefix(ps: seq<Node>, n: nat, target: Node, t: Table)
    requires 0 < n <= |ps| && ps[n - 1] !in t && Votes(ps[..n - 1], target, t).Ok?
    ensures Votes(ps, target, t) == Err(KeyError(ps[n - 1]))
  {
    if n < |ps| {
      var init := ps[..|ps| - 1];
      assert init[..n - 1] == ps[..n - 1];
      VotesPrefix(init, n, target, t);
    } else {
      assert ps[..|ps| - 1] == ps[..n - 1];
    }
  }

  /** The in-list multiset of a node together with its out-list. */
  function Listed(s: Split): multiset<Node>
  {
    multiset(s.ins) + multiset(s.outs)
  }

  /**
   * The body of the loop for one target of the source's "in" list: nothing
   * to do when the target lists the source; otherwise the vote decides
   * between adding the source to the target's "in" list and moving the
   * target to the source's "out" list.
   */
  function Step(t: Table, source: Node, target: Node): (r: Result<Table>)
    requires source in t && target in t[source].ins
    ensures r.Err? ==> r.error.KeyError?
    ensures r.Ok? ==> r.value.Keys == t.Keys && |r.value[source].ins| <= |t[source].ins|
  {
    if target !in t then Err(KeyError(target))
    else if source in t[target].ins then Ok(t)
    else
      match Votes(Common(t[target].ins, t[source].ins), target, t)
      case Err(e) => Err(e)
      case Ok((inCom, notInCom)) =>
        if inCom > notInCom then
          Ok(t[target := t[target].(ins := t[target].ins + [source])])
        else
          Ok(t[source := Split(RemoveFirst(t[source].ins, target), t[source].outs + [target])])
  }

  /**
   * The repair of an asymmetric pair: when more common neighbours have the
   * target "in" than "out", the target's "in" list gains the source;
   * otherwise the target leaves the source's "in" list for its "out" list,
   * and the source's lists together hold the same nodes as before.
   */
  lemma StepVote(t: Table, source: Node, target: Node, inCom: nat, notInCom: nat)
    requires source in t && target in t[source].ins && target in t && source !in t[target].ins
    requires Votes(Common(t[target].ins, t[source].ins), target, t) == Ok((inCom, notInCom))
    ensures inCom > notInCom ==> Step(t, source, target) == Ok(t[target := Split(t[target].ins + [source], t[target].outs)])
    ensures inCom <= notInCom ==>
      var r := Step(t, source, target).value;
      && r == t[source := r[source]]
      && r[source].outs == t[source].outs + [target]
      && multiset(r[source].ins) == multiset(t[source].ins) - multiset{target}
      && Listed(r[source]) == Listed(t[source])
  {
  }

  /** One step keeps the source's lists as a whole, and other nodes at most gain the source in "in". */
  lemma StepKeeps(t: Table, source: Node, target: Node)
    requires source in t && target in t[source].ins && Step(t, source, target).Ok?
    ensures Listed(Step(t, source, target).value[source]) == Listed(t[source])
    ensures forall x :: x in t && x != source ==>
      var s' := Step(t, source, target).value[x];
      s'.outs == t[x].outs && (s'.ins == t[x].ins || s'.ins == t[x].ins + [source])
  {
    var r := Step(t, source, target).value;
    if source !in t[target].ins {
      var (inCom, notInCom) := Votes(Common(t[target].ins, t[source].ins), target, t).value;
      StepVote(t, source, target, inCom, notInCom);
    }
  }

  /** The loop over the source's "in" list from position i on, as it changes under the loop. */
  function RepairFrom(t: Table, source: Node, i: nat): (r: Result<Table>)
    requires source in t
    ensures r.Err? ==> r.error.KeyError?
    decreases |t[source].ins| - i
  {
    if i >= |t[source].ins| then Ok(t)
    else
      match Step(t, source, t[source].ins[i])
      case Err(e) => Err(e)
      case Ok(t') => RepairFrom(t', source, i + 1)
  }

  /** The for loop over s_in, advancing by position through the list it edits. */
  method RepairSource(t: Table, source: Node) returns (r: Result<Table>)
    requires source in t
    ensures r == RepairFrom(t, source, 0)
  {
    var cur := t;
    var i := 0;
    while i < |cur[source].ins|
      invariant source in cur && cur.Keys == t.Keys
      invariant RepairFrom(cur, source, i) == RepairFrom(t, source, 0)
      decreases |cur[source].ins| - i
    {
      var target := cur[source].ins[i];
      i := i + 1;
      if target !in cur {
        return Err(KeyError(target));
      }
      if source !in cur[target].ins {
        var voters := Common(cur[target].ins, cur[source].ins);
        var votes := CountVotes(voters, target, cur);
        if votes.Err? {
          return Err(votes.error);
        }
        var (inCom, notInCom) := votes.value;
        if inCom > notInCom {
          cur := cur[target := cur[target].(ins := cur[target].ins + [source])];
        } else {
          cur := cur[source := Split(RemoveFirst(cur[source].ins, target), cur[source].outs + [target])];
        }
      }
    }
    return Ok(cur);
  }

  /** Repairing a source never loses or adds anything in the source's own lists: in and out together stay the same. */
  lemma {:induction false} RepairKeepsSourceListed(t: Table, source: Node, i: nat)
    requires source in t && RepairFrom(t, source, i).Ok?
    ensures source in RepairFrom(t, source, i).value
    ensures Listed(RepairFrom(t, source, i).value[source]) == Listed(t[source])
    decreases |t[source].ins| - i
  {
    if i < |t[source].ins| {
      var t' := Step(t, source, t[source].ins[i]).value;
      StepKeeps(t, source, t[source].ins[i]);
      RepairKeepsSourceListed(t', source, i + 1);
    }
  }

  function Repeat(x: Node, n: nat): (r: seq<Node>)
    ensures |r| == n && forall k :: 0 <= k < n ==> r[k] == x
  {
    seq(n, _ => x)
  }

  /** s' is s with copies of the source appended to its "in" list, its "out" list as it was. */
  predicate Gains(s: Split, s': Split, source: Node)
  {
    s'.outs == s.outs && |s.ins| <= |s'.ins| && s'.ins == s.ins + Repeat(source, |s'.ins| - |s.ins|)
  }

  lemma GainsTrans(s0: Split, s1: Split, s2: Split, source: Node)
    requires Gains(s0, s1, source) && Gains(s1, s2, source)
    ensures Gains(s0, s2, source)
  {
    var a, b := |s1.ins| - |s0.ins|, |s2.ins| - |s1.ins|;
    assert Repeat(source, a) + Repeat(source, b) == Repeat(source, a + b);
  }

  /** Nodes other than the source only ever gain the source at the end of their "in" list. */
  predicate GainsOnlySource(t: Table, t': Table, source: Node)
  {
    && t'.Keys == t.Keys
    && forall x :: x in t && x != source ==> Gains(t[x], t'[x], source)
  }

  lemma {:induction false} RepairOnlyAddsSource(t: Table, source: Node, i: nat)
    requires source in t && RepairFrom(t, source, i).Ok?
    ensures GainsOnlySource(t, RepairFrom(t, source, i).value, source)
    decreases |t[source].ins| - i
  {
    var r := RepairFrom(t, source, i).value;
    if i >= |t[source].ins| {
      forall x | x in t && x != source
        ensures Gains(t[x], r[x], source)
      {
        assert t[x].ins + Repeat(source, 0) == t[x].ins;
      }
    } else {
      var target := t[source].ins[i];
      var t' := Step(t, source, target).value;
      StepKeeps(t, source, target);
      RepairOnlyAddsSource(t', source, i + 1);
      forall x | x in t && x != source
        ensures Gains(t[x], r[x], source)
      {
        assert Gains(t[x], t'[x], source) by {
          if t'[x].ins == t[x].ins {
            assert t[x].ins + Repeat(source, 0) == t[x].ins;
          } else {
            assert Repeat(source, 1) == [source];
          }
        }
        GainsTrans(t[x], t'[x], r[x], source);
      }
    }
  }

  /**
   * The skip: source "0" has "1" and "2" in, and neither lists "0". The vote
   * on "1" is empty, so "1" moves out; "2" slides into position 0, the loop
   * goes on at position 1 and ends, and "2" stays in although it does not
   * list "0" either.
   */
  lemma SkipAfterRemoval()
    ensures
      var t := map["0" := Split(["1", "2"], []), "1" := Split([], ["0"]), "2" := Split([], ["0"])];
      RepairFrom(t, "0", 0) == Ok(t["0" := Split(["2"], ["1"])])
  {
    var t := map["0" := Split(["1", "2"], []), "1" := Split([], ["0"]), "2" := Split([], ["0"])];
    assert Common([], ["1", "2"]) == [];
    var t1 := t["0" := Split(["2"], ["1"])];
    assert t["1"].ins == [] && t["0"].ins == ["1", "2"];
    assert Votes([], "1", t) == Ok((0, 0));
    assert RemoveFirst(["1", "2"], "1") == ["2"];
    assert [] + ["1"] == ["1"];
    assert Step(t, "0", "1") == Ok(t1);
    assert RepairFrom(t1, "0", 1) == Ok(t1);
  }

  /**
   * The pass over every source, in key order, at deviation dev; a source
   * without that deviation raises KeyError of the deviation.
   */
  function RepairAll(t: Table, sources: seq<Node>, dev: real): (r: Result<Table>)
    ensures r.Err? ==> r.error.KeyError? || r.error == DeviationKeyError(dev)
    decreases |sources|
  {
    if |sources| == 0 then Ok(t)
    else if sources[0] !in t then Err(DeviationKeyError(dev))
    else
      match RepairFrom(t, sources[0], 0)
      case Err(e) => Err(e)
      case Ok(t') => RepairAll(t', sources[1..], dev)
  }

  /** The loop over the sources. */
  method Repair(t: Table, sources: seq<Node>, dev: real) returns (r: Result<Table>)
    ensures r == RepairAll(t, sources, dev)
  {
    var cur := t;
    var k := 0;
    while k < |sources|
      invariant 0 <= k <= |sources|
      invariant RepairAll(cur, sources[k..], dev) == RepairAll(t, sources, dev)
    {
      assert sources[k..][1..] == sources[k + 1..];
      var source := sources[k];
      if source !in cur {
        return Err(DeviationKeyError(dev));
      }
      var next := RepairSource(cur, source);
      if next.Err? {
        return next;
      }
      cur := next.value;
      k := k + 1;
    }
    return Ok(cur);
  }

  /** m' holds everything m holds, and whatever more it holds is among the allowed nodes. */
  predicate Extends(m: multiset<Node>, m': multiset<Node>, allowed: seq<Node>)
  {
    m <= m' && forall y :: y in m' - m ==> y in allowed
  }

  lemma ExtendsTrans(m0: multiset<Node>, m1: multiset<Node>, m2: multiset<Node>, source: Node, rest: seq<Node>)
    requires Extends(m0, m1, [source]) && Extends(m1, m2, rest)
    ensures Extends(m0, m2, [source] + rest)
  {
    forall y | y in m2 - m0
      ensures y in [source] + rest
    {
      if y !in m2 - m1 {
        assert y in m1 - m0;
      }
    }
  }

  /** A node that gains only copies of the source gains nothing else. */
  lemma GainsExtends(s: Split, s': Split, source: Node)
    requires Gains(s, s', source)
    ensures Extends(Listed(s), Listed(s'), [source])
  {
    var extra := Repeat(source, |s'.ins| - |s.ins|);
    assert Listed(s') == Listed(s) + multiset(extra);
  }

  /** Over the whole pass nothing is lost from any node's lists; what is added is sources. */
  lemma {:induction false} RepairAllOnlyAdds(t: Table, sources: seq<Node>, dev: real)
    requires RepairAll(t, sources, dev).Ok?
    ensures RepairAll(t, sources, dev).value.Keys == t.Keys
    ensures forall x :: x in t ==> Extends(Listed(t[x]), Listed(RepairAll(t, sources, dev).value[x]), sources)
    decreases |sources|
  {
    var r := RepairAll(t, sources, dev).value;
    if |sources| == 0 {
      assert r == t;
    } else {
      var source := sources[0];
      var t' := RepairFrom(t, source, 0).value;
      assert RepairAll(t', sources[1..], dev) == RepairAll(t, sources, dev);
      RepairOnlyAddsSource(t, source, 0);
      RepairKeepsSourceListed(t, source, 0);
      RepairAllOnlyAdds(t', sources[1..], dev);
      forall x | x in t
        ensures Extends(Listed(t[x]), Listed(r[x]), sources)
      {
        NodeExtends(t[x], t'[x], r[x], x == source, sources);
      }
    }
  }

  /** One source's repair followed by the rest of the pass, for one node. */
  lemma NodeExtends(s: Split, s': Split, s'': Split, isSource: bool, sources: seq<Node>)
    requires |sources| > 0
    requires isSource ==> Listed(s') == Listed(s)
    requires !isSource ==> Gains(s, s', sources[0])
    requires Extends(Listed(s'), Listed(s''), sources[1..])
    ensures Extends(Listed(s), Listed(s''), sources)
  {
    if !isSource {
      GainsExtends(s, s', sources[0]);
    }
    assert sources == [sources[0]] + sources[1..];
    ExtendsTrans(Listed(s), Listed(s'), Listed(s''), sources[0], sources[1..]);
  }

  /** The deviation's detections of every node that has that deviation. */
  function Slice(detections: Dict<Node, Dict<real, Split>>, dev: real): (t: Table)
    ensures forall x :: x in t <==> x in Keys(detections) && Get(Get(detections, x).value, dev).Some?
  {
    map x | x in Keys(detections) && Get(Get(detections, x).value, dev).Some? :: Get(Get(detections, x).value, dev).value
  }

  /** The repaired deviation written back, every other deviation as it was. */
  function WriteBack(detections: Dict<Node, Dict<real, Split>>, dev: real, t: Table): (r: Dict<Node, Dict<real, Split>>)
    ensures Keys(r) == Keys(detections)
  {
    seq(|detections|, i requires 0 <= i < |detections| =>
      var (x, devs) := detections[i];
      if x in t then (x, Put(devs, dev, t[x])) else (x, devs))
  }

  /**
   * mutual_communitymembership: the repair at the first deviation of node
   * "0" (the loop over the deviations ends after its first round). A
   * detections table without node "0" raises KeyError; one where node "0"
   * has no deviation is left as it is.
   */
  method Mutual(detections: Dict<Node, Dict<real, Split>>) returns (r: Result<Dict<Node, Dict<real, Split>>>)
    ensures Get(detections, "0").None? ==> r == Err(KeyError("0"))
    ensures Get(detections, "0") == Some([]) ==> r == Ok(detections)
    ensures Get(detections, "0").Some? && |Get(detections, "0").value| > 0 ==>
      var dev := Get(detections, "0").value[0].0;
      && (r.Ok? <==> RepairAll(Slice(detections, dev), Keys(detections), dev).Ok?)
      && (r.Ok? ==> r.value == WriteBack(detections, dev, RepairAll(Slice(detections, dev), Keys(detections), dev).value))
    ensures r.Ok? ==> Keys(r.value) == Keys(detections)
  {
    var zero := Get(detections, "0");
    if zero.None? {
      return Err(KeyError("0"));
    }
    if |zero.value| == 0 {
      return Ok(detections);
    }
    var dev := zero.value[0].0;
    var repaired := Repair(Slice(detections, dev), Keys(detections), dev);
    if repaired.Err? {
      return Err(repaired.error);
    }
    return Ok(WriteBack(detections, dev, repaired.value));
  }

  /** Only the first deviation changes: every other deviation of every node is as it was. */
  lemma OtherDeviationsKept(detections: Dict<Node, Dict<real, Split>>, dev: real, t: Table, i: nat, d: real)
    requires i < |detections| && d != dev
    ensures Get(WriteBack(detections, dev, t)[i].1, d) == Get(detections[i].1, d)
  {
  }
}
