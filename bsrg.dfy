/**
 * bsrg.py (the "mypotts" model): a node keeps the last state every neighbour
 * announced and, once per step, moves towards the state nearest to the
 * circular mean of those neighbour states, announcing its new state to all
 * neighbours.
 *
 * The circular mean is supplied as the angle `turn` (in turns), cos(2*pi*x)
 * as `cosine`, the seconds since the run started as `elapsed`, and the
 * history time stamp as `stamp`. Attributes the source only sets in
 * register_new_config are None until then.
 */
module Bsrg {
  import opened Base
  import opened Wire
  import opened Dict
  import opened Circle
  import opened SyncSettings
  import NodeCore

  /** The fields register_new_config writes, and the state the step moves. */
  datatype Settings = Settings(
    run: Json,
    runTime: Option<real>,
    maxStates: Option<int>,
    state: Option<int>,
    radianStates: nat,
    couplingStrength: Option<real>,
    dyn: Dynamic)

  /** The values __init__ gives them. */
  const Initial := Settings(JNull, None, None, None, 0, None, Dynamic(false, 1, None, None))

  predicate Consistent(c: Settings)
  {
    && c.maxStates.Some? && c.maxStates.value >= 1
    && c.radianStates == c.maxStates.value
    && c.state.Some? && 0 <= c.state.value < c.maxStates.value
  }

  /** run, time and max_states read and parse, max_states >= 1, and coupling_strength parses. */
  predicate Accepted(msg: Message)
  {
    && "run" in msg
    && RealField(msg, "time").Ok?
    && IntField(msg, "max_states").Ok? && IntField(msg, "max_states").value >= 1
    && RealField(msg, "coupling_strength").Ok?
  }

  /**
   * register_new_config: run, time, max_states, a random state and the radian
   * map, coupling_strength, then the dynamic block; the first field that is
   * missing or does not parse raises and leaves the later ones unchanged.
   */
  function Register(c: Settings, msg: Message, draw: nat): (r: (Settings, Status))
    ensures Accepted(msg) ==>
      && Consistent(r.0)
      && r.0.run == msg["run"]
      && r.0.maxStates == Some(IntField(msg, "max_states").value)
      && r.0.couplingStrength == Some(RealField(msg, "coupling_strength").value)
      && (r.0.dyn, r.1) == ApplyDynamic(c.dyn, msg)
    ensures !Accepted(msg) ==> r.1.Raised? && r.0.dyn == c.dyn && r.0.couplingStrength == c.couplingStrength
  {
    match Lookup(msg, "run")
    case Err(e) => (c, Raised(e))
    case Ok(run) =>
      var c1 := c.(run := run);
      match RealField(msg, "time")
      case Err(e) => (c1, Raised(e))
      case Ok(t) =>
        var c2 := c1.(runTime := Some(t));
        match IntField(msg, "max_states")
        case Err(e) => (c2, Raised(e))
        case Ok(m) =>
          var c3 := c2.(maxStates := Some(m));
          match RandInt(0, m - 1, draw)
          case Err(e) => (c3, Raised(e))
          case Ok(s) =>
            var c4 := c3.(state := Some(s), radianStates := m);
            match RealField(msg, "coupling_strength")
            case Err(e) => (c4, Raised(e))
            case Ok(k) =>
              var (d, st) := ApplyDynamic(c4.dyn, msg);
              (c4.(couplingStrength := Some(k), dyn := d), st)
  }

  /**
   * calculate_hamiltonian: the sum over the neighbour states of
   * cos(angle(state) - angle(neighbour)); it reads the max_states and state
   * attributes only when there is a neighbour state.
   */
  function Hamiltonian(maxStates: Option<int>, state: Option<int>, states: seq<int>, cosine: real -> real): (h: Result<real>)
    ensures |states| == 0 ==> h == Ok(0.0)
    ensures |states| > 0 && maxStates.Some? && state.Some? && maxStates.value != 0 ==>
      h == Ok(Alignment(state.value, states, maxStates.value, cosine))
    ensures h.Err? <==> |states| > 0 && (maxStates.None? || state.None? || maxStates.value == 0)
  {
    if |states| == 0 then Ok(0.0)
    else if state.None? then Err(AttributeError("state"))
    else if maxStates.None? then Err(AttributeError("max_states"))
    else if maxStates.value == 0 then Err(ZeroDivisionError)
    else Ok(Alignment(state.value, states, maxStates.value, cosine))
  }

  /**
   * synchronization_step_brute_force_hamiltonian: the first state of
   * 0..max_states-1 with the largest alignment to the neighbours; max() of
   * the empty list raises ValueError.
   */
  function BruteForce(maxStates: Option<int>, states: seq<int>, cosine: real -> real): (r: Result<nat>)
    ensures maxStates.None? ==> r.Err? && r.error.AttributeError?
    ensures maxStates.Some? && maxStates.value <= 0 ==> r.Err? && r.error.ValueError?
    ensures r.Ok? ==> maxStates.Some? && r.value < maxStates.value
    ensures r.Ok? ==> forall t :: 0 <= t < maxStates.value ==>
      Alignment(t, states, maxStates.value, cosine) <= Alignment(r.value, states, maxStates.value, cosine)
    ensures r.Ok? ==> forall t :: 0 <= t < r.value ==>
      Alignment(t, states, maxStates.value, cosine) < Alignment(r.value, states, maxStates.value, cosine)
  {
    if maxStates.None? then Err(AttributeError("max_states"))
    else if maxStates.value <= 0 then Err(ValueError("max() arg is an empty sequence"))
    else Ok(FirstArgMax(Alignments(states, maxStates.value, cosine)))
  }

  /**
   * calculate_step_distance: before dynamic_time the step is gamma, then
   * gamma * (max_dist - d) // (max_dist - max_dist // 2), at least 1, with
   * max_dist = max_states // 2 and d the distance modulo max_dist. Without
   * dynamic coupling the step is 1.
   */
  function StepDistance(dist: nat, m: int, dyn: Dynamic, elapsed: real): (r: Result<int>)
    ensures !dyn.dynamicCs ==> r == Ok(1)
    ensures dyn.dynamicCs && FloorDiv(m, 2) == 0 ==> r == Err(ZeroDivisionError)
    ensures dyn.dynamicCs && FloorDiv(m, 2) != 0 && dyn.dynamicTime.None? ==> r.Err? && r.error.TypeError?
    ensures dyn.dynamicCs && FloorDiv(m, 2) != 0 && dyn.dynamicTime.Some? && elapsed < dyn.dynamicTime.value ==>
      r == Ok(dyn.gamma)
    ensures dyn.dynamicCs && m > 0 && dyn.dynamicTime.Some? && elapsed >= dyn.dynamicTime.value && r.Ok? ==>
      r.value >= 1
  {
    if !dyn.dynamicCs then Ok(1)
    else
      var maxDist := FloorDiv(m, 2);
      if maxDist == 0 then Err(ZeroDivisionError)
      else
        var d := FloorMod(dist, maxDist);
        match dyn.dynamicTime
        case None => Err(TypeError("'<' not supported between instances of 'float' and 'NoneType'"))
        case Some(t) =>
          if elapsed < t then Ok(dyn.gamma)
          else
            var denominator := maxDist - FloorDiv(maxDist, 2);
            if denominator == 0 then Err(ZeroDivisionError)
            else
              var step := FloorDiv(dyn.gamma * (maxDist - d), denominator);
              Ok(if step < 1 then 1 else step)
  }

  /** What one synchronisation step does. */
  datatype StepOutcome =
    | NoNeighbourStates   // mean() of no data raised StatisticsError, which is caught
    | Kept(state: int)    // already at the nearest state of the mean: only logged
    | Moved(state: int)   // moved: logged and announced

  /** synchronization_step as a function of the settings and the neighbour states, in dict order. */
  function Step(c: Settings, states: seq<int>, turn: real, elapsed: real): (r: Result<StepOutcome>)
    ensures |states| == 0 <==> r == Ok(NoNeighbourStates)
    ensures r.Ok? && Consistent(c) && r.value.Moved? ==> 0 <= r.value.state < c.maxStates.value
  {
    if |states| == 0 then Ok(NoNeighbourStates)
    else if c.maxStates.None? then Err(AttributeError("max_states"))
    else if c.maxStates.value == 0 then Err(ZeroDivisionError)
    else if c.radianStates == 0 then Err(ValueError("min() arg is an empty sequence"))
    else if c.state.None? then Err(AttributeError("state"))
    else
      var m := c.maxStates.value;
      var avg := ClosestState(turn, c.radianStates);
      var dist := Abs(avg - c.state.value);
      if dist == 0 then Ok(Kept(c.state.value))
      else match StepDistance(dist, m, c.dyn, elapsed)
        case Err(e) => Err(e)
        case Ok(step) => Ok(Moved(Approach(c.state.value, avg, step, m)))
  }

  /** A node whose neighbours' mean is its own angle keeps its state. */
  lemma StepKeepsAgreement(c: Settings, states: seq<int>, elapsed: real)
    requires Consistent(c) && |states| > 0
    ensures Step(c, states, Turn(c.state.value, c.maxStates.value), elapsed) == Ok(Kept(c.state.value))
  {
    ClosestStateOfState(c.state.value, c.maxStates.value);
  }

  /**
   * With unit steps (no dynamic coupling) every move brings a registered node
   * exactly one state closer, around the circle, to the nearest state of the
   * mean, whichever way round the rule goes.
   */
  lemma UnitStepApproachesMean(c: Settings, states: seq<int>, turn: real, elapsed: real)
    requires Consistent(c) && !c.dyn.dynamicCs && |states| > 0
    requires ClosestState(turn, c.maxStates.value) != c.state.value
    ensures var m := c.maxStates.value;
      var avg := ClosestState(turn, m);
      && Step(c, states, turn, elapsed).Ok? && Step(c, states, turn, elapsed).value.Moved?
      && CircularDistance(Step(c, states, turn, elapsed).value.state, avg, m) == CircularDistance(c.state.value, avg, m) - 1
  {
    var m := c.maxStates.value;
    var avg := ClosestState(turn, m);
    var st := c.state.value;
    if 2 * Abs(avg - st) < m {
      ApproachWithoutWrap(st, avg, 1, m);
    } else {
      ApproachAroundTheCircle(st, avg, 1, m);
    }
  }

  class BsrgModule {
    const node: NodeCore.Node
    var run: Json
    var runTime: Option<real>
    var maxStates: Option<int>
    var state: Option<int>
    var neighborStates: Dict<Json, int>
    var radianStates: nat
    var couplingStrength: Option<real>
    var dynamicCs: bool
    var gamma: int
    var avgDist: Option<int>
    var dynamicTime: Option<real>
    var logging: bool
    var floodedEnd: bool

    function Snapshot(): Settings
      reads this
    {
      Settings(run, runTime, maxStates, state, radianStates, couplingStrength, Dynamic(dynamicCs, gamma, avgDist, dynamicTime))
    }

    constructor (node: NodeCore.Node)
      ensures this.node == node
      ensures Snapshot() == Initial
      ensures neighborStates == [] && !logging && !floodedEnd
    {
      this.node := node;
      run := JNull;
      runTime := None;
      maxStates := None;
      state := None;
      neighborStates := [];
      radianStates := 0;
      couplingStrength := None;
      dynamicCs := false;
      gamma := 1;
      avgDist := None;
      dynamicTime := None;
      logging := false;
      floodedEnd := false;
    }

    method RegisterNewConfig(msg: Message, draw: nat) returns (s: Status)
      modifies this`run, this`runTime, this`maxStates, this`state, this`radianStates, this`couplingStrength
      modifies this`dynamicCs, this`gamma, this`avgDist, this`dynamicTime
      ensures (Snapshot(), s) == Register(old(Snapshot()), msg, draw)
    {
      var r := Register(Snapshot(), msg, draw);
      run, runTime, maxStates, state, radianStates := r.0.run, r.0.runTime, r.0.maxStates, r.0.state, r.0.radianStates;
      couplingStrength := r.0.couplingStrength;
      dynamicCs, gamma, avgDist, dynamicTime := r.0.dyn.dynamicCs, r.0.dyn.gamma, r.0.dyn.avgDist, r.0.dyn.dynamicTime;
      s := r.1;
    }

    /** update_neighbor_state: the last announcement of each neighbour wins. */
    method UpdateNeighborState(neighbor: Json, neighborState: int)
      modifies this`neighborStates
      ensures neighborStates == Put(old(neighborStates), neighbor, neighborState)
    {
      neighborStates := Put(neighborStates, neighbor, neighborState);
    }

    /** calculate_hamiltonian, summing in dict order. */
    method CalculateHamiltonian(cosine: real -> real) returns (h: Result<real>)
      ensures h == Hamiltonian(maxStates, state, Values(neighborStates), cosine)
    {
      var states := Values(neighborStates);
      var sum := 0.0;
      var i := 0;
      while i < |states|
        invariant 0 <= i <= |states|
        invariant i > 0 ==> maxStates.Some? && state.Some? && maxStates.value != 0
        invariant i > 0 ==> sum == Alignment(state.value, states[..i], maxStates.value, cosine)
        invariant i == 0 ==> sum == 0.0
      {
        if state.None? {
          return Err(AttributeError("state"));
        }
        if maxStates.None? {
          return Err(AttributeError("max_states"));
        }
        if maxStates.value == 0 {
          return Err(ZeroDivisionError);
        }
        assert states[..i + 1][..i] == states[..i];
        sum := sum + cosine(Turn(state.value, maxStates.value) - Turn(states[i], maxStates.value));
        i := i + 1;
      }
      assert states[..i] == states;
      h := Ok(sum);
    }

    /** synchronization_step_brute_force_hamiltonian. */
    method SynchronisationStepBruteForce(cosine: real -> real) returns (s: Status)
      modifies this`state
      ensures match BruteForce(old(maxStates), Values(neighborStates), cosine)
        case Ok(best) => s == Done && state == Some(best)
        case Err(e) => s == Raised(e) && state == old(state)
    {
      if maxStates.None? {
        return Raised(AttributeError("max_states"));
      }
      var m := maxStates.value;
      var states := Values(neighborStates);
      var alignments: seq<real> := [];
      var candidate := 0;
      while candidate < m
        invariant 0 <= candidate <= if m < 0 then 0 else m
        invariant |alignments| == candidate
        invariant forall t :: 0 <= t < candidate ==> alignments[t] == Alignment(t, states, m, cosine)
      {
        var sum := 0.0;
        var i := 0;
        while i < |states|
          invariant 0 <= i <= |states|
          invariant sum == Alignment(candidate, states[..i], m, cosine)
        {
          assert states[..i + 1][..i] == states[..i];
          sum := sum + cosine(Turn(candidate, m) - Turn(states[i], m));
          i := i + 1;
        }
        assert states[..i] == states;
        alignments := alignments + [sum];
        candidate := candidate + 1;
      }
      if |alignments| == 0 {
        return Raised(ValueError("max() arg is an empty sequence"));
      }
      assert alignments == Alignments(states, m, cosine);
      state := Some(FirstArgMax(alignments));
      s := Done;
    }

    /** notify_neighbors_of_new_state: announce the state, retrying until one broadcast succeeds. */
    method NotifyNeighborsOfNewState() returns (s: Status)
      modifies node`attempts, node`delivered
      ensures state.None? ==> s == Raised(AttributeError("state")) && node.delivered == old(node.delivered) && node.attempts == old(node.attempts)
      ensures state.Some? ==>
        var r := NodeCore.BroadcastRetry(node.neighbors, old(node.attempts), NodeCore.Wire(Announcement(node.id, state.value)));
        && (s == if r.0 then Done else Stalled)
        && node.delivered == old(node.delivered) + r.1 && node.attempts == r.2
    {
      if state.None? {
        return Raised(AttributeError("state"));
      }
      var ok := node.BroadcastUntilDelivered(Announcement(node.id, state.value));
      s := if ok then Done else Stalled;
    }

    /** synchronization_step: the step, its log_state, and the announcement of a move. */
    method SynchronizationStep(turn: real, elapsed: real, stamp: string) returns (s: Status)
      modifies this`state, node`history, node`attempts, node`delivered
      ensures match Step(old(Snapshot()), Values(neighborStates), turn, elapsed)
        case Err(e) => s == Raised(e) && state == old(state) && node.history == old(node.history)
          && node.delivered == old(node.delivered) && node.attempts == old(node.attempts)
        case Ok(NoNeighbourStates) => s == Done && state == old(state) && node.history == old(node.history)
          && node.delivered == old(node.delivered) && node.attempts == old(node.attempts)
        case Ok(Kept(k)) => s == Done && state == old(state) && node.history == Put(old(node.history), stamp, k)
          && node.delivered == old(node.delivered) && node.attempts == old(node.attempts)
        case Ok(Moved(n)) =>
          var r := NodeCore.BroadcastRetry(node.neighbors, old(node.attempts), NodeCore.Wire(Announcement(node.id, n)));
          && state == Some(n) && node.history == Put(old(node.history), stamp, n)
          && (s == if r.0 then Done else Stalled)
          && node.delivered == old(node.delivered) + r.1 && node.attempts == r.2
    {
      var outcome := Step(Snapshot(), Values(neighborStates), turn, elapsed);
      match outcome {
        case Err(e) =>
          s := Raised(e);
        case Ok(NoNeighbourStates) =>
          s := Done;
        case Ok(Kept(k)) =>
          node.Record(stamp, k);
          s := Done;
        case Ok(Moved(n)) =>
          state := Some(n);
          node.Record(stamp, n);
          s := NotifyNeighborsOfNewState();
      }
    }

    /** handle_end_synchro: stop logging, and forward the end message the first time only. */
    method HandleEndSynchro(msg: Message) returns (s: Status)
      modifies this`logging, this`floodedEnd, node`attempts, node`delivered
      ensures !logging
      ensures old(floodedEnd) ==>
        s == Done && floodedEnd && node.attempts == old(node.attempts) && node.delivered == old(node.delivered)
      ensures !old(floodedEnd) ==>
        var r := NodeCore.Broadcast(node.neighbors, old(node.attempts), NodeCore.Wire(msg));
        && (s == if r.0 then Done else Raised(SendingMessageError))
        && floodedEnd == r.0
        && node.delivered == old(node.delivered) + r.1 && node.attempts == r.2
    {
      logging := false;
      if floodedEnd {
        return Done;
      }
      s := node.SendMessageToAllNeighbors(msg);
      if s == Done {
        floodedEnd := true;
      }
    }

    /** What Handle does with one message: the reaction, and the state after it against the state before. */
    twostate predicate Handled(msg: Message, r: NodeCore.Reaction)
      reads this, node
    {
      && r.reply == None
      && ("operation" !in msg ==>
          && r == NodeCore.Reaction(None, false, Raised(KeyError("operation")))
          && neighborStates == old(neighborStates) && logging == old(logging) && floodedEnd == old(floodedEnd)
          && node.attempts == old(node.attempts) && node.delivered == old(node.delivered))
      && ("operation" in msg && msg["operation"] == JStr("new_neighbor-state") ==>
          && !r.started
          && logging == old(logging) && floodedEnd == old(floodedEnd)
          && node.attempts == old(node.attempts) && node.delivered == old(node.delivered)
          && ("id" !in msg ==> r.status == Raised(KeyError("id")) && neighborStates == old(neighborStates))
          && ("id" in msg && IntField(msg, "state").Err? ==>
                r.status == Raised(IntField(msg, "state").error) && neighborStates == old(neighborStates))
          && ("id" in msg && IntField(msg, "state").Ok? ==>
                r.status == Done && neighborStates == Put(old(neighborStates), msg["id"], IntField(msg, "state").value)))
      && ("operation" in msg && msg["operation"] == JStr("share_state") ==>
          && !r.started && neighborStates == old(neighborStates)
          && logging == old(logging) && floodedEnd == old(floodedEnd)
          && (state.None? ==>
                r.status == Raised(AttributeError("state"))
                && node.delivered == old(node.delivered) && node.attempts == old(node.attempts))
          && (state.Some? ==>
                var b := NodeCore.BroadcastRetry(node.neighbors, old(node.attempts), NodeCore.Wire(Announcement(node.id, state.value)));
                && r.status == (if b.0 then Done else Stalled)
                && node.delivered == old(node.delivered) + b.1 && node.attempts == b.2))
      && ("operation" in msg && msg["operation"] == JStr("start") ==>
          r == NodeCore.Reaction(None, true, Done) && neighborStates == old(neighborStates)
          && logging == old(logging) && floodedEnd == old(floodedEnd)
          && node.attempts == old(node.attempts) && node.delivered == old(node.delivered))
      && ("operation" in msg && msg["operation"] == JStr("end") ==>
          && !r.started && !logging && neighborStates == old(neighborStates)
          && (old(floodedEnd) ==>
                r.status == Done && floodedEnd && node.attempts == old(node.attempts) && node.delivered == old(node.delivered))
          && (!old(floodedEnd) ==>
                var b := NodeCore.Broadcast(node.neighbors, old(node.attempts), NodeCore.Wire(msg));
                && (r.status == if b.0 then Done else Raised(SendingMessageError))
                && floodedEnd == b.0
                && node.delivered == old(node.delivered) + b.1 && node.attempts == b.2))
      && ("operation" in msg && msg["operation"] !in {JStr("new_neighbor-state"), JStr("share_state"), JStr("start"), JStr("end")} ==>
          r == NodeCore.Reaction(None, false, Done) && neighborStates == old(neighborStates)
          && logging == old(logging) && floodedEnd == old(floodedEnd)
          && node.attempts == old(node.attempts) && node.delivered == old(node.delivered))
    }

    /**
     * handle: a "new_neighbor-state" message is recorded under its "id" as
     * sent; "share_state" announces the own state; "start" spawns the run;
     * "end" floods the end message.
     */
    method Handle(msg: Message) returns (r: NodeCore.Reaction)
      modifies this`neighborStates, this`logging, this`floodedEnd, node`attempts, node`delivered
      ensures Handled(msg, r)
    {
      if "operation" !in msg {
        return NodeCore.Reaction(None, false, Raised(KeyError("operation")));
      }
      var op := msg["operation"];
      if op == JStr("new_neighbor-state") {
        if "id" !in msg {
          return NodeCore.Reaction(None, false, Raised(KeyError("id")));
        }
        var neighborState := IntField(msg, "state");
        if neighborState.Err? {
          return NodeCore.Reaction(None, false, Raised(neighborState.error));
        }
        UpdateNeighborState(msg["id"], neighborState.value);
      }
      if op == JStr("share_state") {
        var s := NotifyNeighborsOfNewState();
        r := NodeCore.Reaction(None, false, s);
      } else if op == JStr("start") {
        r := NodeCore.Reaction(None, true, Done);
      } else if op == JStr("end") {
        var s := HandleEndSynchro(msg);
        r := NodeCore.Reaction(None, false, s);
      } else {
        r := NodeCore.Reaction(None, false, Done);
      }
    }
  }
}
