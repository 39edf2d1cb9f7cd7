/**
 * metrohasting.py (the "metropolis" model): a Metropolis-Hastings step on the
 * discrete phase circle. The candidate state is the one nearest to the
 * circular mean of the neighbour states; it is taken when it does not raise
 * the energy, and otherwise with probability exp(-dH / (k * T)).
 *
 * The circular mean is supplied as the angle `turn` (in turns), cos(2*pi*x)
 * as `cosine`, the exponential as `exp`, the uniform draw as `chance` and the
 * history time stamp as `stamp`. Attributes the source only sets in
 * register_new_config are None until then.
 */
module Metropolis {
  import opened Base
  import opened Wire
  import opened Dict
  import opened Circle
  import opened SyncSettings
  import NodeCore

  /** Boltzmann's constant, the k of the source. */
  const Boltzmann: real := 0.00000000000000000000001380649

  /** The fields register_new_config writes, and the state the step moves. */
  datatype Settings = Settings(
    maxStates: Option<int>,
    state: Option<int>,
    radianStates: Option<nat>,
    temperature: Option<real>,
    run: Option<Json>,
    runTime: Option<real>,
    useRandomNeighborState: bool)

  /** The values __init__ gives them. */
  const Initial := Settings(None, None, None, None, None, None, false)

  predicate Consistent(c: Settings)
  {
    && c.maxStates.Some? && c.maxStates.value >= 1
    && c.radianStates == Some(c.maxStates.value as nat)
    && c.state.Some? && 0 <= c.state.value < c.maxStates.value
  }

  predicate Accepted(msg: Message)
  {
    && IntField(msg, "max_states").Ok? && IntField(msg, "max_states").value >= 1
    && RealField(msg, "temperature").Ok?
    && "run" in msg
    && RealField(msg, "time").Ok?
  }

  /**
   * register_new_config: max_states, a random state and the radian map,
   * temperature, run and time, then the random_neighbor flag, which is on
   * only for the string "True" and off when the key is missing.
   */
  function Register(c: Settings, msg: Message, draw: nat): (r: (Settings, Status))
    ensures Accepted(msg) ==>
      && r.1 == Done && Consistent(r.0)
      && r.0.maxStates == Some(IntField(msg, "max_states").value)
      && r.0.temperature == Some(RealField(msg, "temperature").value)
      && r.0.run == Some(msg["run"])
      && (r.0.useRandomNeighborState <==> "random_neighbor" in msg && msg["random_neighbor"] == JStr("True"))
    ensures !Accepted(msg) ==> r.1.Raised? && r.0.useRandomNeighborState == c.useRandomNeighborState
  {
    match IntField(msg, "max_states")
    case Err(e) => (c, Raised(e))
    case Ok(m) =>
      var c1 := c.(maxStates := Some(m));
      match RandInt(0, m - 1, draw)
      case Err(e) => (c1, Raised(e))
      case Ok(s) =>
        var c2 := c1.(state := Some(s), radianStates := Some(m));
        match RealField(msg, "temperature")
        case Err(e) => (c2, Raised(e))
        case Ok(t) =>
          var c3 := c2.(temperature := Some(t));
          match Lookup(msg, "run")
          case Err(e) => (c3, Raised(e))
          case Ok(run) =>
            var c4 := c3.(run := Some(run));
            match RealField(msg, "time")
            case Err(e) => (c4, Raised(e))
            case Ok(rt) =>
              var random := "random_neighbor" in msg && msg["random_neighbor"] == JStr("True");
              (c4.(runTime := Some(rt), useRandomNeighborState := random), Done)
  }

  /**
   * calculate_hamiltonian(my_state): minus the alignment of my_state with the
   * neighbour states. The default my_state = -1 stands for the node's own
   * state, so an explicit -1 does too.
   */
  function Hamiltonian(c: Settings, myState: int, states: seq<int>, cosine: real -> real): (h: Result<real>)
    ensures myState == -1 && c.state.None? ==> h.Err? && h.error.AttributeError?
    ensures (myState != -1 || c.state.Some?) && c.maxStates.Some? && c.maxStates.value != 0 ==> h.Ok?
    ensures |states| == 0 && (myState != -1 || c.state.Some?) ==> h == Ok(0.0)
    ensures h.Ok? && |states| > 0 ==>
      c.maxStates.Some? && c.maxStates.value != 0 &&
      h.value == -Alignment(if myState == -1 then c.state.value else myState, states, c.maxStates.value, cosine)
  {
    if myState == -1 && c.state.None? then Err(AttributeError("state"))
    else
      var my := if myState == -1 then c.state.value else myState;
      if |states| == 0 then Ok(0.0)
      else if c.maxStates.None? then Err(AttributeError("max_states"))
      else if c.maxStates.value == 0 then Err(ZeroDivisionError)
      else Ok(-Alignment(my, states, c.maxStates.value, cosine))
  }

  /**
   * The Metropolis rule for a candidate that raises the energy by delta:
   * exp(-(delta / (k * T))), where k * T == 0 raises ZeroDivisionError, which
   * is caught as a term of 0; accepted when the uniform draw is below
   * min(1, term). A candidate that does not raise the energy is taken.
   */
  function Accepts(delta: real, temperature: Option<real>, exp: real -> real, chance: real): (r: Result<bool>)
    ensures delta <= 0.0 ==> r == Ok(true)
    ensures delta > 0.0 && temperature.None? ==> r.Err? && r.error.TypeError?
    ensures delta > 0.0 && temperature.Some? && temperature.value != 0.0 ==>
      var term := exp(-(delta / (Boltzmann * temperature.value)));
      r == Ok(chance < term && chance < 1.0)
  {
    if delta <= 0.0 then Ok(true)
    else match temperature
      case None => Err(TypeError("unsupported operand type(s) for *: 'float' and 'NoneType'"))
      case Some(t) =>
        var term := if Boltzmann * t == 0.0 then 0.0 else exp(-(delta / (Boltzmann * t)));
        Ok(chance < (if term < 1.0 then term else 1.0))
  }

  /** At temperature 0 a candidate that raises the energy is never taken. */
  lemma ZeroTemperatureIsGreedy(delta: real, exp: real -> real, chance: real)
    requires delta > 0.0 && 0.0 <= chance
    ensures Accepts(delta, Some(0.0), exp, chance) == Ok(false)
  {
  }

  /** What one step does. */
  datatype StepOutcome =
    | NoNeighbourStates      // mean() of no data raised StatisticsError, which is caught
    | Declined(state: int)   // the candidate was refused: the state is logged
    | Adopted(state: int)    // the candidate was taken: announced, then logged

  /** The end of synchronisation_step: take the candidate when Accepts says so, otherwise keep the current state. */
  function Decide(dH: real, temperature: Option<real>, exp: real -> real, chance: real, candidate: int, current: int): (r: Result<StepOutcome>)
    ensures dH <= 0.0 ==> r == Ok(Adopted(candidate))
    ensures dH > 0.0 && temperature.None? ==> r.Err? && r.error.TypeError?
    ensures dH > 0.0 && temperature == Some(0.0) && 0.0 <= chance ==> r == Ok(Declined(current))
    ensures dH > 0.0 && temperature.Some? && temperature.value != 0.0 ==>
      var term := exp(-(dH / (Boltzmann * temperature.value)));
      r == Ok(if chance < term && chance < 1.0 then Adopted(candidate) else Declined(current))
  {
    match Accepts(dH, temperature, exp, chance)
    case Err(e) => Err(e)
    case Ok(taken) => Ok(if taken then Adopted(candidate) else Declined(current))
  }

  /** synchronisation_step as a function of the settings and the neighbour states, in dict order. */
  function Step(c: Settings, states: seq<int>, turn: real, cosine: real -> real, exp: real -> real, chance: real): (r: Result<StepOutcome>)
    ensures r == Ok(NoNeighbourStates) ==> |states| == 0
    ensures c.state.Some? && |states| == 0 ==> r == Ok(NoNeighbourStates)
    ensures r.Ok? && r.value.Declined? ==> c.state == Some(r.value.state)
    ensures r.Ok? && r.value.Adopted? ==>
      && c.radianStates.Some? && 0 <= r.value.state < c.radianStates.value
      && r.value.state == ClosestState(turn, c.radianStates.value)
    // The Metropolis rule on the energy change dH of moving to the state nearest the mean.
    ensures Consistent(c) && |states| > 0 ==>
      var candidate := ClosestState(turn, c.radianStates.value);
      var dH := Hamiltonian(c, candidate, states, cosine).value - Hamiltonian(c, -1, states, cosine).value;
      r == Decide(dH, c.temperature, exp, chance, candidate, c.state.value)
  {
    match Hamiltonian(c, -1, states, cosine)
    case Err(e) => Err(e)
    case Ok(current) =>
      if |states| == 0 then Ok(NoNeighbourStates)
      else if c.radianStates.None? then Err(AttributeError("state_radiant_map"))
      else if c.radianStates.value == 0 then Err(ValueError("min() arg is an empty sequence"))
      else
        var candidate := ClosestState(turn, c.radianStates.value);
        match Hamiltonian(c, candidate, states, cosine)
        case Err(e) => Err(e)
        case Ok(next) =>
          Decide(next - current, c.temperature, exp, chance, candidate, c.state.value)
  }

  /**
   * The Metropolis rule for one step of registered settings with neighbour
   * states: moving to the state nearest the mean is taken when it does not
   * raise the energy; an uphill move raises TypeError without a temperature,
   * is never taken at temperature 0, and is otherwise taken exactly when the
   * draw is below min(1, exp(-dH / (k * T))).
   */
  lemma StepFollowsMetropolisRule(c: Settings, states: seq<int>, turn: real, cosine: real -> real, exp: real -> real, chance: real)
    requires Consistent(c) && |states| > 0
    ensures
      var candidate := ClosestState(turn, c.radianStates.value);
      var dH := Hamiltonian(c, candidate, states, cosine).value - Hamiltonian(c, -1, states, cosine).value;
      var r := Step(c, states, turn, cosine, exp, chance);
      && (dH <= 0.0 ==> r == Ok(Adopted(candidate)))
      && (dH > 0.0 && c.temperature.None? ==> r.Err? && r.error.TypeError?)
      && (dH > 0.0 && c.temperature == Some(0.0) && 0.0 <= chance ==> r == Ok(Declined(c.state.value)))
      && (dH > 0.0 && c.temperature.Some? && c.temperature.value != 0.0 ==>
            var term := exp(-(dH / (Boltzmann * c.temperature.value)));
            r == Ok(if chance < term && chance < 1.0 then Adopted(candidate) else Declined(c.state.value)))
  {
  }

  /**
   * When every neighbour is in the same state and the mean is that state's
   * angle, the node adopts that state whatever the temperature: the
   * candidate has the lowest possible energy.
   */
  lemma AgreementIsAdopted(c: Settings, s: int, states: seq<int>, cosine: real -> real, exp: real -> real, chance: real)
    requires Consistent(c) && 0 <= s < c.maxStates.value && |states| > 0
    requires forall i :: 0 <= i < |states| ==> states[i] == s
    requires forall x :: -1.0 <= cosine(x) <= 1.0
    requires cosine(0.0) == 1.0
    ensures Step(c, states, Turn(s, c.maxStates.value), cosine, exp, chance) == Ok(Adopted(s))
  {
    var m := c.maxStates.value;
    ClosestStateOfState(s, m);
    AlignmentOfAgreement(s, states, m, cosine);
    AlignmentBounds(c.state.value, states, m, cosine);
  }

  class MetropolisModule {
    const node: NodeCore.Node
    var maxStates: Option<int>
    var state: Option<int>
    var neighborStates: Dict<int, int>
    var radianStates: Option<nat>
    var temperature: Option<real>
    var run: Option<Json>
    var runTime: Option<real>
    var useRandomNeighborState: bool
    var logging: bool

    function Snapshot(): Settings
      reads this
    {
      Settings(maxStates, state, radianStates, temperature, run, runTime, useRandomNeighborState)
    }

    constructor (node: NodeCore.Node)
      ensures this.node == node
      ensures Snapshot() == Initial
      ensures neighborStates == [] && !logging
    {
      this.node := node;
      maxStates := None;
      state := None;
      neighborStates := [];
      radianStates := None;
      temperature := None;
      run := None;
      runTime := None;
      useRandomNeighborState := false;
      logging := false;
    }

    method RegisterNewConfig(msg: Message, draw: nat) returns (s: Status)
      modifies this`maxStates, this`state, this`radianStates, this`temperature, this`run, this`runTime
      modifies this`useRandomNeighborState
      ensures (Snapshot(), s) == Register(old(Snapshot()), msg, draw)
    {
      var r := Register(Snapshot(), msg, draw);
      maxStates, state, radianStates, temperature := r.0.maxStates, r.0.state, r.0.radianStates, r.0.temperature;
      run, runTime, useRandomNeighborState := r.0.run, r.0.runTime, r.0.useRandomNeighborState;
      s := r.1;
    }

    /** update_neighbor_state: keyed by the integer id; the last announcement wins. */
    method UpdateNeighborState(neighbor: int, neighborState: int)
      modifies this`neighborStates
      ensures neighborStates == Put(old(neighborStates), neighbor, neighborState)
    {
      neighborStates := Put(neighborStates, neighbor, neighborState);
    }

    /** calculate_hamiltonian, summing in dict order and negating at the end. */
    method CalculateHamiltonian(myState: int, cosine: real -> real) returns (h: Result<real>)
      ensures h == Hamiltonian(Snapshot(), myState, Values(neighborStates), cosine)
    {
      if myState == -1 && state.None? {
        return Err(AttributeError("state"));
      }
      var my := if myState == -1 then state.value else myState;
      var states := Values(neighborStates);
      var sum := 0.0;
      var i := 0;
      while i < |states|
        invariant 0 <= i <= |states|
        invariant i > 0 ==> maxStates.Some? && maxStates.value != 0
        invariant i > 0 ==> sum == Alignment(my, states[..i], maxStates.value, cosine)
        invariant i == 0 ==> sum == 0.0
      {
        if maxStates.None? {
          return Err(AttributeError("max_states"));
        }
        if maxStates.value == 0 {
          return Err(ZeroDivisionError);
        }
        assert states[..i + 1][..i] == states[..i];
        sum := sum + cosine(Turn(my, maxStates.value) - Turn(states[i], maxStates.value));
        i := i + 1;
      }
      assert states[..i] == states;
      h := Ok(-sum);
    }

    /** notify_neighbors_of_new_state: announce the state, retrying until one broadcast succeeds. */
    method NotifyNeighborsOfNewState() returns (s: Status)
      modifies node`attempts, node`delivered
      ensures state.None? ==>
        s == Raised(AttributeError("state")) && node.delivered == old(node.delivered) && node.attempts == old(node.attempts)
      ensures state.Some? ==>
        var r := NodeCore.BroadcastRetry(node.neighbors, old(node.attempts), NodeCore.Wire(Announcement(node.id, state.value)));
        && (s == if r.0 then Done else Stalled)
        && node.delivered == old(node.delivered) + r.1 && node.attempts == r.2
    {
      if state.None? {
        return Raised(AttributeError("state"));
      }
      var ok := node.BroadcastUntilDelivered(Announcement(node.id, state.value));
      s := if ok then Done else Stalled;
    }

    /** synchronisation_step: the step, the announcement of an adopted state, and log_state. */
    method SynchronisationStep(turn: real, cosine: real -> real, exp: real -> real, chance: real, stamp: string) returns (s: Status)
      modifies this`state, node`history, node`attempts, node`delivered
      ensures match Step(old(Snapshot()), Values(neighborStates), turn, cosine, exp, chance)
        case Err(e) => s == Raised(e) && state == old(state) && node.history == old(node.history)
          && node.delivered == old(node.delivered) && node.attempts == old(node.attempts)
        case Ok(NoNeighbourStates) => s == Done && state == old(state) && node.history == old(node.history)
          && node.delivered == old(node.delivered) && node.attempts == old(node.attempts)
        case Ok(Declined(k)) => s == Done && state == old(state) && node.history == Put(old(node.history), stamp, k)
          && node.delivered == old(node.delivered) && node.attempts == old(node.attempts)
        case Ok(Adopted(n)) =>
          var r := NodeCore.BroadcastRetry(node.neighbors, old(node.attempts), NodeCore.Wire(Announcement(node.id, n)));
          && state == Some(n)
          && (s == if r.0 then Done else Stalled)
          && node.delivered == old(node.delivered) + r.1 && node.attempts == r.2
          && node.history == (if r.0 then Put(old(node.history), stamp, n) else old(node.history))
    {
      var outcome := Step(Snapshot(), Values(neighborStates), turn, cosine, exp, chance);
      match outcome {
        case Err(e) =>
          s := Raised(e);
        case Ok(NoNeighbourStates) =>
          s := Done;
        case Ok(Declined(k)) =>
          node.Record(stamp, k);
          s := Done;
        case Ok(Adopted(n)) =>
          state := Some(n);
          s := NotifyNeighborsOfNewState();
          if s == Done {
            node.Record(stamp, n);
          }
      }
    }

    /** What Handle does with one message: the reaction, and the state after it against the state before. */
    twostate predicate Handled(msg: Message, r: NodeCore.Reaction)
      reads this
    {
      && r.reply == None
      && ("operation" !in msg ==>
          r == NodeCore.Reaction(None, false, Raised(KeyError("operation"))) && neighborStates == old(neighborStates))
      && ("operation" in msg && msg["operation"] == JStr("new_neighbor-state") ==>
          && !r.started
          && (IntField(msg, "id").Err? ==> r.status == Raised(IntField(msg, "id").error) && neighborStates == old(neighborStates))
          && (IntField(msg, "id").Ok? && IntField(msg, "state").Err? ==>
                r.status == Raised(IntField(msg, "state").error) && neighborStates == old(neighborStates))
          && (IntField(msg, "id").Ok? && IntField(msg, "state").Ok? ==>
                r.status == Done
                && neighborStates == Put(old(neighborStates), IntField(msg, "id").value, IntField(msg, "state").value)))
      && ("operation" in msg && msg["operation"] == JStr("start") ==>
          r == NodeCore.Reaction(None, true, Done) && neighborStates == old(neighborStates))
      && ("operation" in msg && msg["operation"] !in {JStr("new_neighbor-state"), JStr("start")} ==>
          r == NodeCore.Reaction(None, false, Done) && neighborStates == old(neighborStates))
    }

    /**
     * handle: a "new_neighbor-state" message is recorded under int(id);
     * "start" spawns the run; every other operation, "share_state" and "end"
     * included, is ignored.
     */
    method Handle(msg: Message) returns (r: NodeCore.Reaction)
      modifies this`neighborStates
      ensures Handled(msg, r)
    {
      if "operation" !in msg {
        return NodeCore.Reaction(None, false, Raised(KeyError("operation")));
      }
      var op := msg["operation"];
      if op == JStr("new_neighbor-state") {
        var neighbor := IntField(msg, "id");
        if neighbor.Err? {
          return NodeCore.Reaction(None, false, Raised(neighbor.error));
        }
        var neighborState := IntField(msg, "state");
        if neighborState.Err? {
          return NodeCore.Reaction(None, false, Raised(neighborState.error));
        }
        UpdateNeighborState(neighbor.value, neighborState.value);
      }
      r := NodeCore.Reaction(None, op == JStr("start"), Done);
    }
  }
}
