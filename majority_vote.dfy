/**
 * majority_vote.py: the detections of several runs of one configuration are
 * merged. The first run's lists are the candidates; a target the first run
 * puts "in" stays "in" when some other run agrees and moves "out" otherwise,
 * and the same for "out". The runs are parsed JSON and are inputs here.
 */
module MajorityVote {
  import opened Base
  import opened Dict
  import opened Classify
  import opened CommonMethods

  /** One run's entry for a node and a deviation: a dict that may lack "in" or "out", or a value that is no dict. */
  datatype Entry = Listed(lists: Lists) | NotADict

  /**
   * One run: node, then deviation, then its entry. A node's value is always
   * a dict here, and an "in" or "out" value is always a list of nodes: a run
   * whose node value is no dict, or whose list is a string (where `in` would
   * test for a substring), is not representable.
   */
  type Run = Dict<Node, Dict<string, Entry>>

  datatype Side = In | Out

  /** What run[node][dev]["in"] (or ["out"]) gives: a list, a KeyError, or a TypeError. */
  datatype Lookup = Found(targets: seq<Node>) | Missing | Malformed

  function SideList(l: Lists, side: Side): Option<seq<Node>>
  {
    if side == In then l.inList else l.outList
  }

  function Find(run: Run, node: Node, dev: string, side: Side): Lookup
  {
    var devs := Get(run, node);
    if devs.None? then Missing
    else
      var e := Get(devs.value, dev);
      if e.None? then Missing
      else if e.value.NotADict? then Malformed
      else
        var ts := SideList(e.value.lists, side);
        if ts.None? then Missing else Found(ts.value)
  }

  const NotSubscriptable := TypeError("indices must be integers")

  /**
   * count_in (count_out): the other runs are read in order; a KeyError ends
   * the count with what it has, a TypeError leaves the loop over the targets.
   */
  function Count(others: seq<Run>, node: Node, dev: string, side: Side, target: Node): (r: Result<nat>)
    ensures r.Err? ==> r.error == NotSubscriptable
    ensures r.Ok? ==> r.value <= |others|
  {
    if |others| == 0 then Ok(0)
    else
      match Find(others[0], node, dev, side)
      case Missing => Ok(0)
      case Malformed => Err(NotSubscriptable)
      case Found(ts) =>
        match Count(others[1..], node, dev, side, target)
        case Err(e) => Err(e)
        case Ok(c) => Ok(c + if target in ts then 1 else 0)
  }

  /** Whether some other run, before the first one without the key, gives no dict. */
  predicate Broken(others: seq<Run>, node: Node, dev: string, side: Side)
  {
    if |others| == 0 then false
    else
      match Find(others[0], node, dev, side)
      case Missing => false
      case Malformed => true
      case Found(_) => Broken(others[1..], node, dev, side)
  }

  /** Some other run lists the target on this side, and every run before it has the key. */
  predicate ListedBy(others: seq<Run>, node: Node, dev: string, side: Side, target: Node)
  {
    exists j :: 0 <= j < |others| && (forall l :: 0 <= l < j ==> Find(others[l], node, dev, side).Found?) &&
      Find(others[j], node, dev, side).Found? && target in Find(others[j], node, dev, side).targets
  }

  /** The count fails exactly when the runs are broken, whatever the target. */
  lemma {:induction false} CountErrIff(others: seq<Run>, node: Node, dev: string, side: Side, target: Node)
    ensures Count(others, node, dev, side, target).Err? <==> Broken(others, node, dev, side)
  {
    if |others| > 0 && Find(others[0], node, dev, side).Found? {
      CountErrIff(others[1..], node, dev, side, target);
    }
  }

  /** A successful count is positive exactly when some other run lists the target. */
  lemma {:induction false} CountPositiveIff(others: seq<Run>, node: Node, dev: string, side: Side, target: Node)
    requires Count(others, node, dev, side, target).Ok?
    ensures Count(others, node, dev, side, target).value > 0 <==> ListedBy(others, node, dev, side, target)
  {
    if |others| > 0 && Find(others[0], node, dev, side).Found? {
      var rest := others[1..];
      CountPositiveIff(rest, node, dev, side, target);
      if ListedBy(rest, node, dev, side, target) {
        var j :| 0 <= j < |rest| && (forall l :: 0 <= l < j ==> Find(rest[l], node, dev, side).Found?) &&
          Find(rest[j], node, dev, side).Found? && target in Find(rest[j], node, dev, side).targets;
        assert forall l :: 0 <= l < j + 1 ==> Find(others[l], node, dev, side).Found? by {
          forall l | 0 < l < j + 1 ensures Find(others[l], node, dev, side).Found? {
            assert others[l] == rest[l - 1];
          }
        }
        assert others[j + 1] == rest[j];
      }
      if ListedBy(others, node, dev, side, target) {
        var j :| 0 <= j < |others| && (forall l :: 0 <= l < j ==> Find(others[l], node, dev, side).Found?) &&
          Find(others[j], node, dev, side).Found? && target in Find(others[j], node, dev, side).targets;
        if j > 0 {
          assert forall l :: 0 <= l < j - 1 ==> Find(rest[l], node, dev, side).Found? by {
            forall l | 0 <= l < j - 1 ensures Find(rest[l], node, dev, side).Found? {
              assert rest[l] == others[l + 1];
            }
          }
          assert rest[j - 1] == others[j];
        }
      }
    }
  }

  /** A run without the key ends the count: the runs after it are never read. */
  lemma {:induction false} CountStopsAtMissing(others: seq<Run>, node: Node, dev: string, side: Side, target: Node, j: nat)
    requires j < |others| && Find(others[j], node, dev, side).Missing?
    ensures Count(others, node, dev, side, target) == Count(others[..j], node, dev, side, target)
  {
    if j > 0 && Find(others[0], node, dev, side).Found? {
      assert others[..j][1..] == others[1..][..j - 1];
      CountStopsAtMissing(others[1..], node, dev, side, target, j - 1);
    }
  }

  function Plus(r: Result<nat>, c: nat): Result<nat>
  {
    match r
    case Err(e) => Err(e)
    case Ok(v) => Ok(v + c)
  }

  /** The loop over the other runs for one target. */
  method CountVotes(others: seq<Run>, node: Node, dev: string, side: Side, target: Node) returns (r: Result<nat>)
    ensures r == Count(others, node, dev, side, target)
  {
    var c := 0;
    var i := 0;
    CountLoopEntry(others, node, dev, side, target);
    while i < |others|
      invariant 0 <= i <= |others|
      invariant Count(others, node, dev, side, target) == Plus(Count(others[i..], node, dev, side, target), c)
    {
      var f := Find(others[i], node, dev, side);
      if f.Missing? {
        CountFromStop(others, i, node, dev, side, target);
        return Ok(c);
      }
      if f.Malformed? {
        CountFromStop(others, i, node, dev, side, target);
        return Err(NotSubscriptable);
      }
      var d := if target in f.targets then 1 else 0;
      CountFromStep(others, i, node, dev, side, target, c);
      c := c + d;
      i := i + 1;
    }
    return Ok(c);
  }

  /** Before the loop nothing is counted yet. */
  lemma CountLoopEntry(others: seq<Run>, node: Node, dev: string, side: Side, target: Node)
    ensures Count(others, node, dev, side, target) == Plus(Count(others[0..], node, dev, side, target), 0)
  {
    assert others[0..] == others;
  }

  /** A run without the key ends the count with 0 more; a run that is no dict raises. */
  lemma CountFromStop(others: seq<Run>, i: nat, node: Node, dev: string, side: Side, target: Node)
    requires i < |others| && !Find(others[i], node, dev, side).Found?
    ensures Count(others[i..], node, dev, side, target) ==
      if Find(others[i], node, dev, side).Missing? then Ok(0) else Err(NotSubscriptable)
  {
    assert others[i..][0] == others[i];
  }

  /** A run with the key adds 1 when it lists the target, and counting goes on from the next run. */
  lemma CountFromStep(others: seq<Run>, i: nat, node: Node, dev: string, side: Side, target: Node, c: nat)
    requires i < |others| && Find(others[i], node, dev, side).Found?
    ensures Plus(Count(others[i..], node, dev, side, target), c) ==
      Plus(Count(others[i + 1..], node, dev, side, target), c + if target in Find(others[i], node, dev, side).targets then 1 else 0)
  {
    assert others[i..][0] == others[i];
    assert others[i..][1..] == others[i + 1..];
  }

  /** The targets some other run agrees on, in order. */
  function Keep(others: seq<Run>, node: Node, dev: string, side: Side, targets: seq<Node>): seq<Node>
  {
    if |targets| == 0 then []
    else
      var t := targets[|targets| - 1];
      var c := Count(others, node, dev, side, t);
      Keep(others, node, dev, side, targets[..|targets| - 1]) + (if c.Ok? && c.value > 0 then [t] else [])
  }

  /** The targets no other run agrees on, in order. */
  function Flip(others: seq<Run>, node: Node, dev: string, side: Side, targets: seq<Node>): seq<Node>
  {
    if |targets| == 0 then []
    else
      var t := targets[|targets| - 1];
      var c := Count(others, node, dev, side, t);
      Flip(others, node, dev, side, targets[..|targets| - 1]) + (if c.Ok? && c.value == 0 then [t] else [])
  }

  /** What one side's loop appends: agreed targets to their own side, the others to the opposite one. */
  function Part(others: seq<Run>, node: Node, dev: string, side: Side, targets: seq<Node>): Split
  {
    var keep := Keep(others, node, dev, side, targets);
    var flip := Flip(others, node, dev, side, targets);
    if side == In then Split(keep, flip) else Split(flip, keep)
  }

  function Combine(a: Split, b: Split): Split
  {
    Split(a.ins + b.ins, a.outs + b.outs)
  }

  /** One side's loop: nothing is appended when the first count raises TypeError. */
  function SideSplit(others: seq<Run>, node: Node, dev: string, side: Side, targets: seq<Node>): Split
  {
    if Broken(others, node, dev, side) then Split([], []) else Part(others, node, dev, side, targets)
  }

  /** One more target: an agreed one goes to its own side, any other to the opposite side. */
  lemma MergeStep(others: seq<Run>, node: Node, dev: string, side: Side, targets: seq<Node>, i: nat, acc: Split, r: Split)
    requires i < |targets| && r == Combine(acc, Part(others, node, dev, side, targets[..i]))
    requires Count(others, node, dev, side, targets[i]).Ok?
    ensures var t := targets[i];
      var agreed := Count(others, node, dev, side, t).value > 0;
      Combine(acc, Part(others, node, dev, side, targets[..i + 1])) ==
        if agreed == (side == In) then r.(ins := r.ins + [t]) else r.(outs := r.outs + [t])
  {
    assert targets[..i + 1][..i] == targets[..i];
    assert targets[..i + 1][i] == targets[i];
  }

  /** The loop over the targets of one side of the first run's entry. */
  method MergeSide(others: seq<Run>, node: Node, dev: string, side: Side, targets: seq<Node>, acc: Split) returns (r: Split)
    ensures r == Combine(acc, SideSplit(others, node, dev, side, targets))
  {
    r := acc;
    var i := 0;
    while i < |targets|
      invariant 0 <= i <= |targets|
      invariant i > 0 ==> !Broken(others, node, dev, side)
      invariant r == Combine(acc, Part(others, node, dev, side, targets[..i]))
    {
      var t := targets[i];
      var c := CountVotes(others, node, dev, side, t);
      CountErrIff(others, node, dev, side, t);
      if c.Err? {
        return;
      }
      MergeStep(others, node, dev, side, targets, i, acc, r);
      if c.value > 0 {
        if side == In {
          r := r.(ins := r.ins + [t]);
        } else {
          r := r.(outs := r.outs + [t]);
        }
      } else {
        if side == In {
          r := r.(outs := r.outs + [t]);
        } else {
          r := r.(ins := r.ins + [t]);
        }
      }
      i := i + 1;
    }
    assert targets[..i] == targets;
  }

  /**
   * result[node][dev] for one entry of the first run: its "in" loop, then
   * its "out" loop. A dict without "in" or "out" raises KeyError, which
   * nothing catches; a value that is no dict leaves both lists empty.
   */
  function MergeEntry(others: seq<Run>, node: Node, dev: string, e: Entry): (r: Result<Split>)
    ensures e.NotADict? ==> r == Ok(Split([], []))
    ensures r.Err? <==> e.Listed? && (e.lists.inList.None? || e.lists.outList.None?)
    ensures r.Err? ==> r.error == KeyError(if e.lists.inList.None? then "in" else "out")
  {
    match e
    case NotADict => Ok(Split([], []))
    case Listed(l) =>
      if l.inList.None? then Err(KeyError("in"))
      else if l.outList.None? then Err(KeyError("out"))
      else
        var afterIn := SideSplit(others, node, dev, In, l.inList.value);
        Ok(Combine(afterIn, SideSplit(others, node, dev, Out, l.outList.value)))
  }

  method MergeDeviation(others: seq<Run>, node: Node, dev: string, e: Entry) returns (r: Result<Split>)
    ensures r == MergeEntry(others, node, dev, e)
  {
    var s := Split([], []);
    if e.NotADict? {
      return Ok(s);
    }
    if e.lists.inList.None? {
      return Err(KeyError("in"));
    }
    s := MergeSide(others, node, dev, In, e.lists.inList.value, s);
    assert s == SideSplit(others, node, dev, In, e.lists.inList.value) by {
      assert [] + s.ins == s.ins && [] + s.outs == s.outs;
    }
    if e.lists.outList.None? {
      return Err(KeyError("out"));
    }
    s := MergeSide(others, node, dev, Out, e.lists.outList.value, s);
    return Ok(s);
  }

  /** A target is kept exactly when its count succeeds and is positive. */
  lemma {:induction false} KeepIff(others: seq<Run>, node: Node, dev: string, side: Side, targets: seq<Node>, t: Node)
    ensures t in Keep(others, node, dev, side, targets) <==>
      t in targets && Count(others, node, dev, side, t).Ok? && Count(others, node, dev, side, t).value > 0
  {
    if |targets| > 0 {
      var init := targets[..|targets| - 1];
      KeepIff(others, node, dev, side, init, t);
      assert targets == init + [targets[|targets| - 1]];
    }
  }

  /** A target is flipped exactly when its count succeeds and is zero. */
  lemma {:induction false} FlipIff(others: seq<Run>, node: Node, dev: string, side: Side, targets: seq<Node>, t: Node)
    ensures t in Flip(others, node, dev, side, targets) <==>
      t in targets && Count(others, node, dev, side, t).Ok? && Count(others, node, dev, side, t).value == 0
  {
    if |targets| > 0 {
      var init := targets[..|targets| - 1];
      FlipIff(others, node, dev, side, init, t);
      assert targets == init + [targets[|targets| - 1]];
    }
  }

  /** Unless the runs are broken, kept and flipped targets together are the targets, each once. */
  lemma {:induction false} KeepFlipCover(others: seq<Run>, node: Node, dev: string, side: Side, targets: seq<Node>)
    requires !Broken(others, node, dev, side)
    ensures multiset(Keep(others, node, dev, side, targets)) + multiset(Flip(others, node, dev, side, targets)) == multiset(targets)
  {
    if |targets| > 0 {
      var init := targets[..|targets| - 1];
      var t := targets[|targets| - 1];
      KeepFlipCover(others, node, dev, side, init);
      CountErrIff(others, node, dev, side, t);
      KeepFlipStep(others, node, dev, side, targets);
      CoverStep(Keep(others, node, dev, side, init), Flip(others, node, dev, side, init), targets,
        Keep(others, node, dev, side, targets), Flip(others, node, dev, side, targets));
    }
  }

  /** A target whose count is defined goes to exactly one of the kept and the flipped lists. */
  lemma KeepFlipStep(others: seq<Run>, node: Node, dev: string, side: Side, targets: seq<Node>)
    requires |targets| > 0 && Count(others, node, dev, side, targets[|targets| - 1]).Ok?
    ensures var init, t := targets[..|targets| - 1], targets[|targets| - 1];
      var k, f := Keep(others, node, dev, side, init), Flip(others, node, dev, side, init);
      (Keep(others, node, dev, side, targets) == k + [t] && Flip(others, node, dev, side, targets) == f) ||
      (Keep(others, node, dev, side, targets) == k && Flip(others, node, dev, side, targets) == f + [t])
  {
  }

  /** Appending one element to exactly one of two lists that cover a sequence covers it extended by that element. */
  lemma CoverStep<T>(k: seq<T>, f: seq<T>, xs: seq<T>, k': seq<T>, f': seq<T>)
    requires |xs| > 0 && multiset(k) + multiset(f) == multiset(xs[..|xs| - 1])
    requires var t := xs[|xs| - 1]; (k' == k + [t] && f' == f) || (k' == k && f' == f + [t])
    ensures multiset(k') + multiset(f') == multiset(xs)
  {
    assert xs == xs[..|xs| - 1] + [xs[|xs| - 1]];
  }

  /** Without other runs nothing is kept and every target is flipped. */
  lemma {:induction false} AloneFlipsAll(node: Node, dev: string, side: Side, targets: seq<Node>)
    ensures Keep([], node, dev, side, targets) == []
    ensures Flip([], node, dev, side, targets) == targets
  {
    if |targets| > 0 {
      AloneFlipsAll(node, dev, side, targets[..|targets| - 1]);
    }
  }

  /** Unless a side's runs are broken, every target of the first run's entry lands in exactly one merged list. */
  lemma EveryTargetOnce(others: seq<Run>, node: Node, dev: string, ins: seq<Node>, outs: seq<Node>)
    requires !Broken(others, node, dev, In) && !Broken(others, node, dev, Out)
    ensures var r := MergeEntry(others, node, dev, Listed(Lists(Some(ins), Some(outs))));
      r.Ok? && multiset(r.value.ins) + multiset(r.value.outs) == multiset(ins) + multiset(outs)
  {
    KeepFlipCover(others, node, dev, In, ins);
    KeepFlipCover(others, node, dev, Out, outs);
  }

  /** Where one side's loop puts a target: agreed ones on that side, the others on the opposite side, none when broken. */
  lemma SideSplitHas(others: seq<Run>, node: Node, dev: string, side: Side, targets: seq<Node>, t: Node)
    ensures var s := SideSplit(others, node, dev, side, targets);
      var counted := t in targets && !Broken(others, node, dev, side);
      var agreed := ListedBy(others, node, dev, side, t);
      && (t in s.ins <==> counted && (agreed <==> side == In))
      && (t in s.outs <==> counted && (agreed <==> side == Out))
  {
    if !Broken(others, node, dev, side) {
      CountErrIff(others, node, dev, side, t);
      CountPositiveIff(others, node, dev, side, t);
      KeepIff(others, node, dev, side, targets, t);
      FlipIff(others, node, dev, side, targets, t);
    }
  }

  /** With both lists present, the merged entry is the "in" loop's lists followed by the "out" loop's. */
  lemma MergeEntryCombines(others: seq<Run>, node: Node, dev: string, ins: seq<Node>, outs: seq<Node>)
    ensures var a, b := SideSplit(others, node, dev, In, ins), SideSplit(others, node, dev, Out, outs);
      var r := MergeEntry(others, node, dev, Listed(Lists(Some(ins), Some(outs))));
      r.Ok? && (forall t :: t in r.value.ins <==> t in a.ins || t in b.ins) &&
      (forall t :: t in r.value.outs <==> t in a.outs || t in b.outs)
  {
  }

  /**
   * A target the first run puts "in" (and not "out") stays "in" exactly when
   * some other run, before the first one without the key, lists it "in";
   * otherwise it moves "out".
   */
  lemma StaysInIff(others: seq<Run>, node: Node, dev: string, ins: seq<Node>, outs: seq<Node>, t: Node)
    requires t in ins && t !in outs && !Broken(others, node, dev, In)
    ensures var r := MergeEntry(others, node, dev, Listed(Lists(Some(ins), Some(outs)))).value;
      && (t in r.ins <==> ListedBy(others, node, dev, In, t))
      && (t in r.outs <==> !ListedBy(others, node, dev, In, t))
  {
    SideSplitHas(others, node, dev, In, ins, t);
    SideSplitHas(others, node, dev, Out, outs, t);
    MergeEntryCombines(others, node, dev, ins, outs);
  }

  /** A target the first run puts "out" (and not "in") stays "out" exactly when some other run lists it "out". */
  lemma StaysOutIff(others: seq<Run>, node: Node, dev: string, ins: seq<Node>, outs: seq<Node>, t: Node)
    requires t in outs && t !in ins && !Broken(others, node, dev, Out)
    ensures var r := MergeEntry(others, node, dev, Listed(Lists(Some(ins), Some(outs)))).value;
      && (t in r.outs <==> ListedBy(others, node, dev, Out, t))
      && (t in r.ins <==> !ListedBy(others, node, dev, Out, t))
  {
    SideSplitHas(others, node, dev, In, ins, t);
    SideSplitHas(others, node, dev, Out, outs, t);
    MergeEntryCombines(others, node, dev, ins, outs);
  }

  /** With a single run every classification flips. */
  lemma SingleRunFlips(node: Node, dev: string, ins: seq<Node>, outs: seq<Node>)
    ensures MergeEntry([], node, dev, Listed(Lists(Some(ins), Some(outs)))) == Ok(Split(outs, ins))
  {
    AloneFlipsAll(node, dev, In, ins);
    AloneFlipsAll(node, dev, Out, outs);
    assert SideSplit([], node, dev, In, ins) == Split([], ins);
    assert SideSplit([], node, dev, Out, outs) == Split(outs, []);
    assert [] + outs == outs && ins + [] == ins;
  }

  /** A TypeError while counting one side drops every target of that side from the merged lists. */
  lemma BrokenSideDropped(others: seq<Run>, node: Node, dev: string, ins: seq<Node>, outs: seq<Node>)
    requires Broken(others, node, dev, In)
    ensures MergeEntry(others, node, dev, Listed(Lists(Some(ins), Some(outs)))) == Ok(SideSplit(others, node, dev, Out, outs))
  {
    var s := SideSplit(others, node, dev, Out, outs);
    assert [] + s.ins == s.ins && [] + s.outs == s.outs;
  }

  /** result[node] for one node of the first run, or the first KeyError. */
  function MergeNode(others: seq<Run>, node: Node, devs: Dict<string, Entry>): (r: Result<Dict<string, Split>>)
    ensures r.Ok? ==> Keys(r.value) == Keys(devs)
    ensures r.Ok? ==> forall k :: 0 <= k < |devs| ==> MergeEntry(others, node, devs[k].0, devs[k].1) == Ok(r.value[k].1)
    ensures r.Err? <==> exists k :: 0 <= k < |devs| && MergeEntry(others, node, devs[k].0, devs[k].1).Err?
    ensures r.Err? ==> r.error in {KeyError("in"), KeyError("out")}
  {
    if |devs| == 0 then Ok([])
    else
      var init := devs[..|devs| - 1];
      var (dev, e) := devs[|devs| - 1];
      match MergeNode(others, node, init)
      case Err(err) => Err(err)
      case Ok(t) =>
        match MergeEntry(others, node, dev, e)
        case Err(err) => Err(err)
        case Ok(s) => Ok(t + [(dev, s)])
  }

  /** The merged detections of every node of the first run, or the first KeyError. */
  function MergeRun(others: seq<Run>, run1: Run): (r: Result<Dict<Node, Dict<string, Split>>>)
    ensures r.Ok? ==> Keys(r.value) == Keys(run1)
    ensures r.Ok? ==> forall i :: 0 <= i < |run1| ==> MergeNode(others, run1[i].0, run1[i].1) == Ok(r.value[i].1)
    ensures r.Err? <==> exists i :: 0 <= i < |run1| && MergeNode(others, run1[i].0, run1[i].1).Err?
    ensures r.Err? ==> r.error in {KeyError("in"), KeyError("out")}
  {
    if |run1| == 0 then Ok([])
    else
      var init := run1[..|run1| - 1];
      var (node, devs) := run1[|run1| - 1];
      match MergeRun(others, init)
      case Err(err) => Err(err)
      case Ok(t) =>
        match MergeNode(others, node, devs)
        case Err(err) => Err(err)
        case Ok(d) =>
          MergeRunAppend(others, run1, t, d);
          Ok(t + [(node, d)])
  }

  /** Appending the last node's merge to the merge of the others covers the whole run, node by node. */
  lemma MergeRunAppend(others: seq<Run>, run1: Run, t: Dict<Node, Dict<string, Split>>, d: Dict<string, Split>)
    requires |run1| > 0 && Keys(t) == Keys(run1[..|run1| - 1])
    requires forall i :: 0 <= i < |run1| - 1 ==> MergeNode(others, run1[i].0, run1[i].1) == Ok(t[i].1)
    requires MergeNode(others, run1[|run1| - 1].0, run1[|run1| - 1].1) == Ok(d)
    ensures var r := t + [(run1[|run1| - 1].0, d)];
      Keys(r) == Keys(run1) &&
      forall i :: 0 <= i < |run1| ==> MergeNode(others, run1[i].0, run1[i].1) == Ok(r[i].1)
  {
    var r := t + [(run1[|run1| - 1].0, d)];
    assert forall i :: 0 <= i < |run1| ==> Keys(r)[i] == Keys(run1)[i];
  }

  /** The loops over the first run's deviations for one node. */
  method MergeDeviations(others: seq<Run>, node: Node, devs: Dict<string, Entry>) returns (r: Result<Dict<string, Split>>)
    ensures r == MergeNode(others, node, devs)
  {
    var res: Dict<string, Split> := [];
    var k := 0;
    while k < |devs|
      invariant 0 <= k <= |devs|
      invariant MergeNode(others, node, devs[..k]) == Ok(res)
    {
      assert devs[..k + 1][..k] == devs[..k];
      var s := MergeDeviation(others, node, devs[k].0, devs[k].1);
      if s.Err? {
        MergeNodeErrPrefix(others, node, devs, k + 1);
        return Err(s.error);
      }
      res := res + [(devs[k].0, s.value)];
      k := k + 1;
    }
    assert devs[..k] == devs;
    return Ok(res);
  }

  /** A KeyError in a prefix is the KeyError of the whole node. */
  lemma {:induction false} MergeNodeErrPrefix(others: seq<Run>, node: Node, devs: Dict<string, Entry>, k: nat)
    requires k <= |devs| && MergeNode(others, node, devs[..k]).Err?
    ensures MergeNode(others, node, devs) == MergeNode(others, node, devs[..k])
  {
    if k < |devs| {
      assert devs[..|devs| - 1][..k] == devs[..k];
      MergeNodeErrPrefix(others, node, devs[..|devs| - 1], k);
    } else {
      assert devs[..k] == devs;
    }
  }

  /** Merging one more node of the first run extends the merged prefix, or fails with that node's error. */
  lemma MergeRunStep(others: seq<Run>, run1: Run, i: nat, result: Dict<Node, Dict<string, Split>>)
    requires i < |run1| && MergeRun(others, run1[..i]) == Ok(result)
    ensures var d := MergeNode(others, run1[i].0, run1[i].1);
      (d.Err? ==> MergeRun(others, run1[..i + 1]) == Err(d.error)) &&
      (d.Ok? ==> MergeRun(others, run1[..i + 1]) == Ok(result + [(run1[i].0, d.value)]))
  {
    assert run1[..i + 1][..i] == run1[..i];
  }

  /** A KeyError in a prefix is the KeyError of the whole run. */
  lemma {:induction false} MergeRunErrPrefix(others: seq<Run>, run1: Run, i: nat)
    requires i <= |run1| && MergeRun(others, run1[..i]).Err?
    ensures MergeRun(others, run1) == MergeRun(others, run1[..i])
  {
    if i < |run1| {
      assert run1[..|run1| - 1][..i] == run1[..i];
      MergeRunErrPrefix(others, run1[..|run1| - 1], i);
    } else {
      assert run1[..i] == run1;
    }
  }

  /** The merge of every configuration's runs: IndexError without any run. */
  function Merge(runs: seq<Run>): (r: Result<Dict<Node, Dict<string, Split>>>)
    ensures |runs| == 0 ==> r == Err(IndexError)
    ensures r.Ok? ==> |runs| > 0 && Keys(r.value) == Keys(runs[0])
    ensures r.Err? && |runs| > 0 ==> r.error in {KeyError("in"), KeyError("out")}
  {
    if |runs| == 0 then Err(IndexError) else MergeRun(runs[1..], runs[0])
  }

  /** majority_vote's merging: pop the first run, then the loops over its nodes. */
  method MajorityVote(runs: seq<Run>) returns (r: Result<Dict<Node, Dict<string, Split>>>)
    ensures r == Merge(runs)
  {
    if |runs| == 0 {
      return Err(IndexError);
    }
    var run1 := runs[0];
    var others := runs[1..];
    var result: Dict<Node, Dict<string, Split>> := [];
    var i := 0;
    while i < |run1|
      invariant 0 <= i <= |run1|
      invariant MergeRun(others, run1[..i]) == Ok(result)
    {
      var d := MergeDeviations(others, run1[i].0, run1[i].1);
      MergeRunStep(others, run1, i, result);
      if d.Err? {
        MergeRunErrPrefix(others, run1, i + 1);
        return Err(d.error);
      }
      result := result + [(run1[i].0, d.value)];
      i := i + 1;
    }
    assert run1[..i] == run1;
    return Ok(result);
  }
}
