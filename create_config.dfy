/**
 * create_config.py: the .ini file the controller reads, one section per node
 * of the graph. Each section carries the node's id, the model, its neighbours
 * joined with "-" and the run time, then the fields of the chosen model.
 *
 * Command-line values reach ConfigParser as Python values: a string, the
 * integer default of --gamma, or None for an option not given. Setting a
 * section field through update() accepts strings only and raises TypeError
 * otherwise. ConfigParser's interpolation check on '%' is not part of this
 * model.
 */
module CreateConfig {
  import opened Base
  import opened Wire
  import opened Dict
  import NodeCore

  /** A value handed to ConfigParser. */
  datatype Value = Text(s: string) | Number(i: int) | NoValue

  /** The parsed command line. */
  datatype Args = Args(
    kind: string,
    time: string,
    cs: Value,
    maxStates: Value,
    temperature: Value,
    dynamic: Value,
    dynamicTime: Value,
    frequency: Value,
    gamma: Value,
    averageDist: Value,
    randomNeighbor: Value)

  type Section = Dict<string, string>

  /** The DEFAULT section and the node sections, in insertion order. */
  datatype Config = Config(defaults: Section, sections: Dict<string, Section>)

  function Option(opts: map<string, string>, name: string): Value
  {
    if name in opts then Text(opts[name]) else NoValue
  }

  /** argparse as init_argparse configures it: every option defaults to None except --gamma, which defaults to the integer 1. */
  function ArgsOf(kind: string, time: string, opts: map<string, string>): Args
  {
    Args(kind, time, Option(opts, "cs"), Option(opts, "max_states"), Option(opts, "temperature"),
      Option(opts, "dynamic"), Option(opts, "dynamic_time"), Option(opts, "frequency"),
      if "gamma" in opts then Text(opts["gamma"]) else Number(1),
      Option(opts, "average_dist"), Option(opts, "random_neighbor"))
  }

  /** The same, with the --gamma default given as the string "1". */
  function ArgsOfFixed(kind: string, time: string, opts: map<string, string>): Args
  {
    ArgsOf(kind, time, opts).(gamma := if "gamma" in opts then Text(opts["gamma"]) else Text("1"))
  }

  // ---------------------------------------------------------------------------
  // Section construction

  /** relabel_nodes' rule: a name containing "n" loses its first character ("n12" becomes "12"). */
  function Relabel(name: string): string
  {
    if 'n' in name then name[1..] else name
  }

  lemma RelabelGraphmlId(k: nat)
    ensures Relabel("n" + NatToString(k)) == NatToString(k)
  {
    assert ("n" + NatToString(k))[0] == 'n';
    assert ("n" + NatToString(k))[1..] == NatToString(k);
  }

  /** section.update(entries): fields set in order; a value that is not a string raises TypeError. */
  function Update(sec: Section, entries: seq<(string, Value)>): (r: Result<Section>)
    ensures r.Ok? <==> forall i :: 0 <= i < |entries| ==> entries[i].1.Text?
    ensures r.Err? ==> r.error == TypeError("option values must be strings")
    decreases |entries|
  {
    if |entries| == 0 then Ok(sec)
    else if !entries[0].1.Text? then Err(TypeError("option values must be strings"))
    else Update(Put(sec, entries[0].0, entries[0].1.s), entries[1..])
  }

  /** The keys update() leaves behind: the old ones, then each new key in order. */
  lemma {:induction false} UpdateKeys(sec: Section, entries: seq<(string, Value)>, res: Section)
    requires Update(sec, entries) == Ok(res)
    requires forall i :: 0 <= i < |entries| ==> entries[i].0 !in Keys(sec)
    requires DistinctKeys(entries)
    ensures Keys(res) == Keys(sec) + Keys(entries)
    decreases |entries|
  {
    if |entries| > 0 {
      var e := entries[0];
      var next := Put(sec, e.0, e.1.s);
      var rest := entries[1..];
      UpdateStep(sec, entries);
      UpdateKeys(next, rest, res);
      ConsAssoc(Keys(sec), e.0, Keys(rest));
    }
  }

  lemma ConsAssoc<T>(a: seq<T>, x: T, b: seq<T>)
    ensures a + ([x] + b) == (a + [x]) + b
  {
  }

  /** One step of update(): the first key is appended and the remaining keys are still new and distinct. */
  lemma UpdateStep(sec: Section, entries: seq<(string, Value)>)
    requires |entries| > 0 && entries[0].1.Text?
    requires forall i :: 0 <= i < |entries| ==> entries[i].0 !in Keys(sec)
    requires DistinctKeys(entries)
    ensures var next := Put(sec, entries[0].0, entries[0].1.s);
      && Keys(next) == Keys(sec) + [entries[0].0]
      && Update(sec, entries) == Update(next, entries[1..])
      && (forall i :: 0 <= i < |entries[1..]| ==> entries[1..][i].0 !in Keys(next))
      && DistinctKeys(entries[1..])
    ensures Keys(entries) == [entries[0].0] + Keys(entries[1..])
  {
    var e := entries[0];
    var next := Put(sec, e.0, e.1.s);
    var rest := entries[1..];
    assert Keys(next) == Keys(sec) + [e.0];
    forall i | 0 <= i < |rest|
      ensures rest[i].0 !in Keys(next)
    {
      assert rest[i] == entries[i + 1];
    }
    assert Update(sec, entries) == Update(next, rest);
    KeysTail(entries);
    DistinctTail(entries);
  }

  /** After update(), each new key holds its string and every other key is untouched. */
  lemma {:induction false} UpdateValues(sec: Section, entries: seq<(string, Value)>, res: Section)
    requires Update(sec, entries) == Ok(res)
    requires DistinctKeys(entries)
    ensures forall i :: 0 <= i < |entries| ==> Get(res, entries[i].0) == Some(entries[i].1.s)
    ensures forall k :: k !in Keys(entries) ==> Get(res, k) == Get(sec, k)
    decreases |entries|
  {
    if |entries| > 0 {
      var e := entries[0];
      var next := Put(sec, e.0, e.1.s);
      var rest := entries[1..];
      assert Update(sec, entries) == Update(next, rest);
      DistinctTail(entries);
      KeysTail(entries);
      UpdateValues(next, rest, res);
      assert e.0 !in Keys(rest) by {
        forall j | 0 <= j < |rest| ensures Keys(rest)[j] != e.0 {
          assert rest[j] == entries[j + 1];
        }
      }
      forall i | 0 <= i < |entries|
        ensures Get(res, entries[i].0) == Some(entries[i].1.s)
      {
        if i > 0 {
          assert entries[i] == rest[i - 1];
        }
      }
    }
  }

  /** The dict config[str(n)] is first assigned. */
  function BaseSection(kind: string, time: string, node: string, nbrs: seq<string>): Section
  {
    [("node_id", node), ("synchronization_model", kind), ("neighbors", Join(nbrs, '-')), ("time", time)]
  }

  /** The first update(): the fields of the model. */
  function ModelFields(a: Args): seq<(string, Value)>
  {
    if a.kind == "kuramoto" then [("c", a.cs), ("frequency", a.frequency), ("dynamic", a.dynamic)]
    else if a.kind == "metropolis" then
      [("max_states", a.maxStates), ("temperature", a.temperature), ("random_neighbor", a.randomNeighbor)]
    else if a.kind == "mypotts" || a.kind == "clock" then
      [("coupling_strength", a.cs), ("max_states", a.maxStates), ("dynamic", a.dynamic)]
    else []
  }

  /** The second update(), made only when --dynamic is "True". */
  function DynamicFields(a: Args): seq<(string, Value)>
  {
    if a.dynamic != Text("True") then []
    else if a.kind == "kuramoto" then [("dynamic_time", a.dynamicTime)]
    else if a.kind == "mypotts" || a.kind == "clock" then
      [("gamma", a.gamma), ("avg_dist", a.averageDist), ("dynamic_time", a.dynamicTime)]
    else []
  }

  /** Every field a node section adds beyond the four common ones, in order. */
  function Fields(a: Args): (fs: seq<(string, Value)>)
    ensures a.kind == "kuramoto" ==>
      Keys(fs) == ["c", "frequency", "dynamic"] + (if a.dynamic == Text("True") then ["dynamic_time"] else [])
    ensures a.kind == "metropolis" ==> Keys(fs) == ["max_states", "temperature", "random_neighbor"]
    ensures a.kind == "mypotts" || a.kind == "clock" ==>
      Keys(fs) == ["coupling_strength", "max_states", "dynamic"]
        + (if a.dynamic == Text("True") then ["gamma", "avg_dist", "dynamic_time"] else [])
    ensures a.kind !in {"kuramoto", "metropolis", "mypotts", "clock"} ==> fs == []
    ensures forall i :: 0 <= i < |fs| && fs[i].0 == "coupling_strength" ==> fs[i].1 == a.cs
  {
    ModelFields(a) + DynamicFields(a)
  }

  /** config[str(n)] after both updates. */
  function NodeSection(a: Args, node: string, nbrs: seq<string>): Result<Section>
  {
    match Update(BaseSection(a.kind, a.time, node, nbrs), ModelFields(a))
    case Err(e) => Err(e)
    case Ok(sec) => Update(sec, DynamicFields(a))
  }

  /** The model fields are new to the base section and differ from each other, and so are the dynamic ones. */
  lemma FieldsAreFresh(a: Args, node: string, nbrs: seq<string>)
    ensures DistinctKeys(ModelFields(a)) && DistinctKeys(DynamicFields(a))
    ensures forall i :: 0 <= i < |ModelFields(a)| ==>
      ModelFields(a)[i].0 !in Keys(BaseSection(a.kind, a.time, node, nbrs))
    ensures forall i :: 0 <= i < |DynamicFields(a)| ==>
      DynamicFields(a)[i].0 !in Keys(BaseSection(a.kind, a.time, node, nbrs)) && DynamicFields(a)[i].0 !in Keys(ModelFields(a))
  {
    assert Keys(BaseSection(a.kind, a.time, node, nbrs)) == ["node_id", "synchronization_model", "neighbors", "time"];
  }

  /** A node section can be written exactly when every field the model adds is a string. */
  lemma NodeSectionWritten(a: Args, node: string, nbrs: seq<string>)
    ensures NodeSection(a, node, nbrs).Ok? <==> forall i :: 0 <= i < |Fields(a)| ==> Fields(a)[i].1.Text?
  {
    var m := ModelFields(a);
    var d := DynamicFields(a);
    var first := Update(BaseSection(a.kind, a.time, node, nbrs), m);
    assert first.Ok? ==> NodeSection(a, node, nbrs) == Update(first.value, d);
    assert first.Err? ==> NodeSection(a, node, nbrs).Err?;
    assert Fields(a) == m + d;
    AllTextAppend(m, d);
  }

  /** Every entry of m + d is a string exactly when every entry of m and every entry of d is. */
  lemma AllTextAppend(m: seq<(string, Value)>, d: seq<(string, Value)>)
    ensures (forall i :: 0 <= i < |m + d| ==> (m + d)[i].1.Text?) <==>
      (forall i :: 0 <= i < |m| ==> m[i].1.Text?) && (forall i :: 0 <= i < |d| ==> d[i].1.Text?)
  {
    assert forall i :: 0 <= i < |m| ==> (m + d)[i] == m[i];
    assert forall i :: 0 <= i < |d| ==> (m + d)[|m| + i] == d[i];
  }

  /** Two update() calls in a row, with fresh and distinct keys, act as one update() with both lists. */
  lemma {:induction false} UpdateTwice(base: Section, m: seq<(string, Value)>, mid: Section, d: seq<(string, Value)>, sec: Section)
    requires Update(base, m) == Ok(mid) && Update(mid, d) == Ok(sec)
    requires DistinctKeys(m) && DistinctKeys(d)
    requires forall i :: 0 <= i < |m| ==> m[i].0 !in Keys(base)
    requires forall i :: 0 <= i < |d| ==> d[i].0 !in Keys(base) && d[i].0 !in Keys(m)
    ensures Keys(sec) == Keys(base) + Keys(m + d)
    ensures forall i :: 0 <= i < |m + d| ==> Get(sec, (m + d)[i].0) == Some((m + d)[i].1.s)
    ensures forall k :: k in Keys(base) ==> Get(sec, k) == Get(base, k)
  {
    UpdateKeys(base, m, mid);
    assert Keys(mid) == Keys(base) + Keys(m);
    assert forall i :: 0 <= i < |d| ==> d[i].0 !in Keys(mid);
    UpdateKeys(mid, d, sec);
    KeysAppend(m, d);
    ConcatAssoc(Keys(base), Keys(m), Keys(d));
    UpdateValues(base, m, mid);
    UpdateValues(mid, d, sec);
    UpdateTwiceFirst(m, mid, d, sec);
    UpdateTwiceNew(m, d, sec);
    UpdateTwiceBase(base, m, mid, d, sec);
  }

  lemma ConcatAssoc(a: seq<string>, b: seq<string>, c: seq<string>)
    ensures (a + b) + c == a + (b + c)
  {
  }

  /** The second update() leaves the fields of the first in place: no key of the second list is one of them. */
  lemma UpdateTwiceFirst(m: seq<(string, Value)>, mid: Section, d: seq<(string, Value)>, sec: Section)
    requires forall i :: 0 <= i < |m| ==> m[i].1.Text? && Get(mid, m[i].0) == Some(m[i].1.s)
    requires forall k :: k !in Keys(d) ==> Get(sec, k) == Get(mid, k)
    requires forall i :: 0 <= i < |d| ==> d[i].0 !in Keys(m)
    ensures forall i :: 0 <= i < |m| ==> Get(sec, m[i].0) == Some(m[i].1.s)
  {
    forall i | 0 <= i < |m|
      ensures m[i].0 !in Keys(d)
    {
      forall j | 0 <= j < |d| ensures Keys(d)[j] != m[i].0 {
        assert Keys(m)[i] == m[i].0;
      }
    }
  }

  /** Every field of either list holds its string once each holds it after its own update(). */
  lemma UpdateTwiceNew(m: seq<(string, Value)>, d: seq<(string, Value)>, sec: Section)
    requires forall i :: 0 <= i < |m| ==> m[i].1.Text? && Get(sec, m[i].0) == Some(m[i].1.s)
    requires forall i :: 0 <= i < |d| ==> d[i].1.Text? && Get(sec, d[i].0) == Some(d[i].1.s)
    ensures forall i :: 0 <= i < |m + d| ==> (m + d)[i].1.Text? && Get(sec, (m + d)[i].0) == Some((m + d)[i].1.s)
  {
    forall i | 0 <= i < |m + d|
      ensures (m + d)[i].1.Text? && Get(sec, (m + d)[i].0) == Some((m + d)[i].1.s)
    {
      if i < |m| {
        assert (m + d)[i] == m[i];
      } else {
        assert (m + d)[i] == d[i - |m|];
      }
    }
  }

  /** The keys of the base section are in neither list, so both update() calls leave them alone. */
  lemma UpdateTwiceBase(base: Section, m: seq<(string, Value)>, mid: Section, d: seq<(string, Value)>, sec: Section)
    requires forall k :: k !in Keys(m) ==> Get(mid, k) == Get(base, k)
    requires forall k :: k !in Keys(d) ==> Get(sec, k) == Get(mid, k)
    requires forall i :: 0 <= i < |m| ==> m[i].0 !in Keys(base)
    requires forall i :: 0 <= i < |d| ==> d[i].0 !in Keys(base)
    ensures forall k :: k in Keys(base) ==> Get(sec, k) == Get(base, k)
  {
    forall k | k in Keys(base)
      ensures Get(sec, k) == Get(base, k)
    {
      assert k !in Keys(m) by {
        forall j | 0 <= j < |m| ensures Keys(m)[j] != k {
          assert m[j].0 !in Keys(base);
        }
      }
      assert k !in Keys(d) by {
        forall j | 0 <= j < |d| ensures Keys(d)[j] != k {
          assert d[j].0 !in Keys(base);
        }
      }
    }
  }

  /** The base section and the two field lists of a written node section meet UpdateTwice's conditions. */
  lemma NodeSectionSplit(a: Args, node: string, nbrs: seq<string>)
    requires NodeSection(a, node, nbrs).Ok?
    ensures var base := BaseSection(a.kind, a.time, node, nbrs);
      var sec := NodeSection(a, node, nbrs).value;
      && Keys(sec) == Keys(base) + Keys(Fields(a))
      && (forall i :: 0 <= i < |Fields(a)| ==> Get(sec, Fields(a)[i].0) == Some(Fields(a)[i].1.s))
      && (forall k :: k in Keys(base) ==> Get(sec, k) == Get(base, k))
  {
    var base := BaseSection(a.kind, a.time, node, nbrs);
    var mid := Update(base, ModelFields(a)).value;
    FieldsAreFresh(a, node, nbrs);
    UpdateTwice(base, ModelFields(a), mid, DynamicFields(a), NodeSection(a, node, nbrs).value);
  }

  /**
   * A written node section holds node_id, synchronization_model, the
   * "-"-joined neighbours and time, followed by the model's fields.
   */
  lemma NodeSectionKeys(a: Args, node: string, nbrs: seq<string>)
    requires NodeSection(a, node, nbrs).Ok?
    ensures Keys(NodeSection(a, node, nbrs).value)
      == ["node_id", "synchronization_model", "neighbors", "time"] + Keys(Fields(a))
  {
    NodeSectionSplit(a, node, nbrs);
    BaseSectionValues(a.kind, a.time, node, nbrs);
  }

  /** The four common fields of a written node section hold the node, the model, the joined neighbours and the time. */
  lemma NodeSectionCommonValues(a: Args, node: string, nbrs: seq<string>)
    requires NodeSection(a, node, nbrs).Ok?
    ensures var sec := NodeSection(a, node, nbrs).value;
      && Get(sec, "node_id") == Some(node)
      && Get(sec, "synchronization_model") == Some(a.kind)
      && Get(sec, "neighbors") == Some(Join(nbrs, '-'))
      && Get(sec, "time") == Some(a.time)
  {
    NodeSectionSplit(a, node, nbrs);
    BaseSectionValues(a.kind, a.time, node, nbrs);
  }

  /** The dict first assigned holds its four fields in order. */
  lemma BaseSectionValues(kind: string, time: string, node: string, nbrs: seq<string>)
    ensures var base := BaseSection(kind, time, node, nbrs);
      && Keys(base) == ["node_id", "synchronization_model", "neighbors", "time"]
      && Get(base, "node_id") == Some(node)
      && Get(base, "synchronization_model") == Some(kind)
      && Get(base, "neighbors") == Some(Join(nbrs, '-'))
      && Get(base, "time") == Some(time)
  {
    var base := BaseSection(kind, time, node, nbrs);
    assert Keys(base) == ["node_id", "synchronization_model", "neighbors", "time"];
    GetAt(base, 0);
    GetAt(base, 1);
    GetAt(base, 2);
    GetAt(base, 3);
  }

  /**
   * With --dynamic True for clock or mypotts and no --gamma, the integer
   * default 1 reaches update() and raises TypeError: the default cannot be
   * used.
   */
  lemma DefaultGammaIsRejected(kind: string, time: string, opts: map<string, string>, node: string, nbrs: seq<string>)
    requires kind == "clock" || kind == "mypotts"
    requires "dynamic" in opts && opts["dynamic"] == "True" && "gamma" !in opts
    ensures NodeSection(ArgsOf(kind, time, opts), node, nbrs) == Err(TypeError("option values must be strings"))
  {
    var a := ArgsOf(kind, time, opts);
    assert Fields(a)[3] == ("gamma", Number(1));
    NodeSectionWritten(a, node, nbrs);
  }

  /** Every option a dynamic clock or mypotts node writes is given, and gamma falls back to "1". */
  lemma FixedArgsAreText(kind: string, time: string, opts: map<string, string>)
    requires "dynamic" in opts && opts["dynamic"] == "True" && "gamma" !in opts
    requires "cs" in opts && "max_states" in opts && "average_dist" in opts && "dynamic_time" in opts
    ensures var a := ArgsOfFixed(kind, time, opts);
      && a.kind == kind && a.dynamic == Text("True") && a.gamma == Text("1")
      && a.cs.Text? && a.maxStates.Text? && a.averageDist.Text? && a.dynamicTime.Text?
  {
  }

  /** The fields a dynamic clock or mypotts node adds, in order. */
  lemma DynamicPottsFields(a: Args)
    requires (a.kind == "clock" || a.kind == "mypotts") && a.dynamic == Text("True")
    ensures Fields(a) == [("coupling_strength", a.cs), ("max_states", a.maxStates), ("dynamic", a.dynamic),
      ("gamma", a.gamma), ("avg_dist", a.averageDist), ("dynamic_time", a.dynamicTime)]
  {
  }

  /** With the default given as a string, the same command line writes gamma = 1. */
  lemma DefaultGammaFixed(kind: string, time: string, opts: map<string, string>, node: string, nbrs: seq<string>)
    requires kind == "clock" || kind == "mypotts"
    requires "dynamic" in opts && opts["dynamic"] == "True" && "gamma" !in opts
    requires "cs" in opts && "max_states" in opts && "average_dist" in opts && "dynamic_time" in opts
    ensures NodeSection(ArgsOfFixed(kind, time, opts), node, nbrs).Ok?
    ensures Get(NodeSection(ArgsOfFixed(kind, time, opts), node, nbrs).value, "gamma") == Some("1")
  {
    var a := ArgsOfFixed(kind, time, opts);
    var fs := [("coupling_strength", a.cs), ("max_states", a.maxStates), ("dynamic", a.dynamic),
      ("gamma", a.gamma), ("avg_dist", a.averageDist), ("dynamic_time", a.dynamicTime)];
    FixedArgsAreText(kind, time, opts);
    DynamicPottsFields(a);
    assert forall i :: 0 <= i < |fs| ==> fs[i].1.Text?;
    NodeSectionWritten(a, node, nbrs);
    NodeSectionSplit(a, node, nbrs);
    assert fs[3] == ("gamma", Text("1"));
  }

  // ---------------------------------------------------------------------------
  // Neighbour lists against node.py

  function Names(ids: seq<nat>): (names: seq<string>)
    ensures |names| == |ids| && forall i :: 0 <= i < |ids| ==> names[i] == NatToString(ids[i])
  {
    seq(|ids|, i requires 0 <= i < |ids| => NatToString(ids[i]))
  }

  /** Every name is free of the separator '-' and int() reads its id back from it. */
  lemma NamesParseBack(ids: seq<nat>)
    ensures forall i :: 0 <= i < |ids| ==> '-' !in Names(ids)[i] && ParseInt(Names(ids)[i]) == Some(ids[i] as int)
  {
    forall i | 0 <= i < |ids|
      ensures '-' !in Names(ids)[i] && ParseInt(Names(ids)[i]) == Some(ids[i] as int)
    {
      NatToStringDigits(ids[i]);
      ParseIntOfNatToString(ids[i]);
    }
  }

  /**
   * The neighbours field of a node with at least one neighbour, sent to the
   * node as a string, gives register_new_node_config the same ids back.
   */
  lemma NeighborsRoundTrip(ids: seq<nat>)
    requires |ids| > 0
    ensures var r := NodeCore.NeighborList(map["neighbors" := JStr(Join(Names(ids), '-'))]);
      r.Ok? && |r.value| == |ids| && forall i :: 0 <= i < |ids| ==> r.value[i] == ids[i]
  {
    NamesParseBack(ids);
    SplitJoin(Names(ids), '-');
  }

  /** A node without neighbours gets an empty field, and int("") makes its configuration fail. */
  lemma IsolatedNodeCannotBeConfigured()
    ensures NodeCore.NeighborList(map["neighbors" := JStr(Join([], '-'))]) == Err(ValueError(""))
  {
    assert Split("", '-') == [""];
  }

  // ---------------------------------------------------------------------------
  // The loop over nodes and the output file

  /** str() of a value in the file name. */
  function ArgText(v: Value): string
  {
    match v
    case Text(s) => s
    case Number(i) => IntToString(i)
    case NoValue => "None"
  }

  /** s.replace('.', '-'). */
  function ReplaceDots(s: string): (r: string)
    ensures |r| == |s| && '.' !in r
    ensures forall i :: 0 <= i < |s| ==> r[i] == if s[i] == '.' then '-' else s[i]
  {
    seq(|s|, i requires 0 <= i < |s| => if s[i] == '.' then '-' else s[i])
  }

  /** The output path: type, "_d" when dynamic, "_CS" and the coupling strength, "_" and the graph file name. */
  function FileName(a: Args, graph: string): (path: string)
    ensures |path| >= |"./created/" + a.kind| + 4
    ensures path[..|"./created/" + a.kind|] == "./created/" + a.kind && path[|path| - 4..] == ".ini"
    ensures '.' !in path[|"./created/" + a.kind|..|path| - 4]
  {
    var stem := (if a.dynamic == Text("True") then "_d" else "") + "_CS" + ReplaceDots(ArgText(a.cs)) + "_" + ReplaceDots(graph);
    var path := "./created/" + a.kind + stem + ".ini";
    assert path[|"./created/" + a.kind|..|path| - 4] == stem;
    path
  }

  /** Graph files whose names differ only in "." against "-" write the same file, the later one winning. */
  lemma FileNamesCollide(a: Args)
    ensures FileName(a, "ring.graphml") == FileName(a, "ring-graphml")
  {
    assert ReplaceDots("ring.graphml") == ReplaceDots("ring-graphml");
  }

  predicate DistinctIds(nodes: seq<(string, seq<string>)>)
  {
    forall i, j :: 0 <= i < j < |nodes| ==> Relabel(nodes[i].0) != Relabel(nodes[j].0)
  }

  function RelabelAll(names: seq<string>): (r: seq<string>)
    ensures |r| == |names| && forall i :: 0 <= i < |names| ==> r[i] == Relabel(names[i])
  {
    seq(|names|, i requires 0 <= i < |names| => Relabel(names[i]))
  }

  /** GraphML ids n<k> are relabelled to the str() of k, the names the neighbour lists are written with. */
  lemma RelabelAllGraphmlIds(ks: seq<nat>)
    ensures RelabelAll(seq(|ks|, i requires 0 <= i < |ks| => "n" + NatToString(ks[i]))) == Names(ks)
  {
    forall i | 0 <= i < |ks|
      ensures Relabel("n" + NatToString(ks[i])) == NatToString(ks[i])
    {
      RelabelGraphmlId(ks[i]);
    }
  }

  /** The sections written for the first n nodes, each under its relabelled id, in node order. */
  predicate SectionsFor(a: Args, nodes: seq<(string, seq<string>)>, n: nat, sections: Dict<string, Section>)
    requires n <= |nodes|
  {
    && Keys(sections) == RelabelAll(Keys(nodes[..n]))
    && forall j :: 0 <= j < n ==>
         NodeSection(a, Relabel(nodes[j].0), RelabelAll(nodes[j].1)).Ok? &&
         Get(sections, Relabel(nodes[j].0)) == Some(NodeSection(a, Relabel(nodes[j].0), RelabelAll(nodes[j].1)).value)
  }

  /** Writing the next node's section extends the sections by that node. */
  lemma SectionsForStep(a: Args, nodes: seq<(string, seq<string>)>, i: nat, sections: Dict<string, Section>)
    requires i < |nodes| && DistinctIds(nodes) && SectionsFor(a, nodes, i, sections)
    requires NodeSection(a, Relabel(nodes[i].0), RelabelAll(nodes[i].1)).Ok?
    ensures SectionsFor(a, nodes, i + 1,
      Put(sections, Relabel(nodes[i].0), NodeSection(a, Relabel(nodes[i].0), RelabelAll(nodes[i].1)).value))
  {
    var id := Relabel(nodes[i].0);
    var next := Put(sections, id, NodeSection(a, id, RelabelAll(nodes[i].1)).value);
    SectionKeysStep(nodes, i, sections, NodeSection(a, id, RelabelAll(nodes[i].1)).value);
    PutKeepsEarlierIds(nodes, i, sections, NodeSection(a, id, RelabelAll(nodes[i].1)).value);
  }

  /** Writing the next node's section leaves the sections of the nodes before it as they were. */
  lemma PutKeepsEarlierIds(nodes: seq<(string, seq<string>)>, i: nat, sections: Dict<string, Section>, v: Section)
    requires i < |nodes| && DistinctIds(nodes)
    ensures forall j :: 0 <= j < i ==>
      Get(Put(sections, Relabel(nodes[i].0), v), Relabel(nodes[j].0)) == Get(sections, Relabel(nodes[j].0))
  {
    forall j | 0 <= j < i
      ensures Get(Put(sections, Relabel(nodes[i].0), v), Relabel(nodes[j].0)) == Get(sections, Relabel(nodes[j].0))
    {
      assert Relabel(nodes[j].0) != Relabel(nodes[i].0);
    }
  }

  /** The next node's id is not among the ids written so far, and writing it appends it. */
  lemma SectionKeysStep(nodes: seq<(string, seq<string>)>, i: nat, sections: Dict<string, Section>, v: Section)
    requires i < |nodes| && DistinctIds(nodes) && Keys(sections) == RelabelAll(Keys(nodes[..i]))
    ensures Relabel(nodes[i].0) !in Keys(sections)
    ensures Keys(Put(sections, Relabel(nodes[i].0), v)) == RelabelAll(Keys(nodes[..i + 1]))
  {
    var id := Relabel(nodes[i].0);
    assert id !in Keys(sections) by {
      forall j | 0 <= j < i ensures Keys(sections)[j] != id {
        assert Keys(nodes[..i])[j] == nodes[j].0;
      }
    }
    assert Keys(nodes[..i + 1]) == Keys(nodes[..i]) + [nodes[i].0] by {
      assert nodes[..i + 1] == nodes[..i] + [nodes[i]];
      KeysAppend(nodes[..i], [nodes[i]]);
    }
    assert RelabelAll(Keys(nodes[..i + 1])) == RelabelAll(Keys(nodes[..i])) + [id];
  }

  /**
   * The body of main for one graph: the DEFAULT section, then one section per
   * node, named by the relabelled node id, in node order. The command line
   * is read with the string default for --gamma.
   */
  method BuildConfig(kind: string, time: string, opts: map<string, string>, graphml: string, nodes: seq<(string, seq<string>)>)
    returns (r: Result<Config>)
    requires DistinctIds(nodes)
    ensures var a := ArgsOfFixed(kind, time, opts);
      && (r.Err? ==> |nodes| > 0 && NodeSection(a, Relabel(nodes[0].0), RelabelAll(nodes[0].1)).Err?)
      && (r.Ok? ==> r.value.defaults == [("synchronization_model", kind), ("graph", graphml)])
      && (r.Ok? ==> SectionsFor(a, nodes, |nodes|, r.value.sections))
  {
    var a := ArgsOfFixed(kind, time, opts);
    var sections: Dict<string, Section> := [];
    var i := 0;
    while i < |nodes|
      invariant 0 <= i <= |nodes|
      invariant SectionsFor(a, nodes, i, sections)
    {
      var id := Relabel(nodes[i].0);
      var sec := NodeSection(a, id, RelabelAll(nodes[i].1));
      if sec.Err? {
        SectionErrorDoesNotDependOnNode(a, id, RelabelAll(nodes[i].1), Relabel(nodes[0].0), RelabelAll(nodes[0].1));
        return Err(sec.error);
      }
      SectionsForStep(a, nodes, i, sections);
      sections := Put(sections, id, sec.value);
      i := i + 1;
    }
    r := Ok(Config([("synchronization_model", kind), ("graph", graphml)], sections));
  }

  /** Whether a section can be written depends on the command line only. */
  lemma SectionErrorDoesNotDependOnNode(a: Args, n1: string, nb1: seq<string>, n2: string, nb2: seq<string>)
    ensures NodeSection(a, n1, nb1).Ok? <==> NodeSection(a, n2, nb2).Ok?
  {
    NodeSectionWritten(a, n1, nb1);
    NodeSectionWritten(a, n2, nb2);
  }
}
