/**
 * clock.py: the discrete clock synchronisation. Each node holds one of
 * max_states states; after a pairwise exchange it moves towards the state
 * nearest to the circular mean of its own and its partner's state.
 *
 * The circular mean (atan2 of the mean sine and cosine) is supplied as the
 * angle `turn`, in turns; the time stamp of a history entry as `stamp`.
 */
module Clock {
  import opened Base
  import opened Wire
  import opened Dict
  import opened Circle
  import opened SyncSettings
  import NodeCore

  /** The fields register_new_config and the synchronisation step write. */
  datatype Settings = Settings(
    run: Json,
    runTime: real,
    maxStates: int,
    state: int,
    radianStates: nat,  // the states 0..radianStates-1 of the state-to-radian map
    dyn: Dynamic)

  /** The values __init__ gives them. */
  const Initial := Settings(JStr(""), 30.0, -1, -1, 0, Dynamic(false, 1, Some(100), Some(10.0)))

  /** A registered clock: a radian map over all of its states and a state on it. */
  predicate Consistent(c: Settings)
  {
    c.maxStates >= 1 && c.radianStates == c.maxStates && 0 <= c.state < c.maxStates
  }

  /** The fields up to max_states read and parse, and randint(0, max_states - 1) has a range. */
  predicate Accepted(msg: Message)
  {
    && "run" in msg
    && RealField(msg, "time").Ok?
    && IntField(msg, "max_states").Ok?
    && IntField(msg, "max_states").value >= 1
  }

  /**
   * register_new_config: run, time and max_states are taken in that order, a
   * random state is drawn, the radian map is rebuilt, then the dynamic block.
   * A field that is missing or does not parse raises and leaves every later
   * field as it was.
   */
  function Register(c: Settings, msg: Message, draw: nat): (r: (Settings, Status))
    ensures Accepted(msg) ==>
      && Consistent(r.0)
      && r.0.run == msg["run"]
      && r.0.runTime == RealField(msg, "time").value
      && r.0.maxStates == IntField(msg, "max_states").value
      && (r.0.dyn, r.1) == ApplyDynamic(c.dyn, msg)
    ensures !Accepted(msg) ==>
      r.1.Raised? && r.0.state == c.state && r.0.radianStates == c.radianStates && r.0.dyn == c.dyn
  {
    match Lookup(msg, "run")
    case Err(e) => (c, Raised(e))
    case Ok(run) =>
      var c1 := c.(run := run);
      match RealField(msg, "time")
      case Err(e) => (c1, Raised(e))
      case Ok(t) =>
        var c2 := c1.(runTime := t);
        match IntField(msg, "max_states")
        case Err(e) => (c2, Raised(e))
        case Ok(m) =>
          var c3 := c2.(maxStates := m);
          match RandInt(0, m - 1, draw)
          case Err(e) => (c3, Raised(e))
          case Ok(s) =>
            var (d, st) := ApplyDynamic(c3.dyn, msg);
            (c3.(state := s, radianStates := m, dyn := d), st)
  }

  /**
   * calculate_step_distance as the clock calls it (only with dynamic coupling
   * on, so its first branch is dead): with max_dist = max_states // 2 and the
   * distance taken modulo max_dist, gamma * (max_dist - d) // (0.8 * max_dist),
   * at least 1. Without dynamic coupling the step is gamma.
   */
  function StepDistance(dist: nat, c: Settings): (r: Result<int>)
    ensures !c.dyn.dynamicCs ==> r == Ok(c.dyn.gamma)
    ensures c.dyn.dynamicCs ==> (r.Err? <==> FloorDiv(c.maxStates, 2) == 0)
    ensures c.dyn.dynamicCs && r.Ok? ==> r.value >= 1
    ensures c.dyn.dynamicCs && r.Err? ==> r.error == ZeroDivisionError
  {
    if !c.dyn.dynamicCs then Ok(c.dyn.gamma)
    else
      var maxDist := FloorDiv(c.maxStates, 2);
      if maxDist == 0 then Err(ZeroDivisionError)
      else
        var d := FloorMod(dist, maxDist);
        var step := FloorDiv(5 * c.dyn.gamma * (maxDist - d), 4 * maxDist);
        Ok(if step < 1 then 1 else step)
  }

  /**
   * calculate_and_set_new_state: the state after one exchange with a partner.
   * The partner's angle divides by max_states; the nearest state to the mean
   * angle is looked up in the radian map (min() of an empty map raises); a
   * zero distance keeps the state; otherwise the step is capped and taken.
   */
  function Synchronised(c: Settings, partner: int, turn: real): (r: Result<int>)
    ensures c.maxStates == 0 ==> r == Err(ZeroDivisionError)
    ensures c.maxStates != 0 && c.radianStates == 0 ==> r.Err? && r.error.ValueError?
    ensures r.Ok? && Consistent(c) ==> 0 <= r.value < c.maxStates
    ensures r.Err? ==> c.maxStates == 0 || c.radianStates == 0 || (c.dyn.dynamicCs && FloorDiv(c.maxStates, 2) == 0)
  {
    if c.maxStates == 0 then Err(ZeroDivisionError)
    else if c.radianStates == 0 then Err(ValueError("min() arg is an empty sequence"))
    else
      var avg := ClosestState(turn, c.radianStates);
      var dist := Abs(avg - c.state);
      if dist == 0 then Ok(c.state)
      else match StepDistance(dist, c)
        case Err(e) => Err(e)
        case Ok(step) => Ok(Approach(c.state, avg, step, c.maxStates))
  }

  /** Partners already in agreement: the mean is the node's own angle and the state stays. */
  lemma SynchronisedKeepsAgreement(c: Settings, partner: int)
    requires Consistent(c)
    ensures Synchronised(c, partner, Turn(c.state, c.maxStates)) == Ok(c.state)
  {
    ClosestStateOfState(c.state, c.maxStates);
  }

  /**
   * Without dynamic coupling and without wrap-around, one exchange brings a
   * registered clock gamma states closer to the nearest state of the mean, or
   * onto it when it is at most gamma away.
   */
  lemma SynchronisedApproachesMean(c: Settings, partner: int, turn: real)
    requires Consistent(c) && !c.dyn.dynamicCs && c.dyn.gamma >= 1
    requires var avg := ClosestState(turn, c.maxStates); 2 * Abs(avg - c.state) < c.maxStates
    ensures var avg := ClosestState(turn, c.maxStates);
      var dist := Abs(avg - c.state);
      && Synchronised(c, partner, turn).Ok?
      && CircularDistance(Synchronised(c, partner, turn).value, avg, c.maxStates)
         == if dist <= c.dyn.gamma then 0 else dist - c.dyn.gamma
  {
    var avg := ClosestState(turn, c.maxStates);
    var dist := Abs(avg - c.state);
    if dist > 0 {
      var step := if dist <= c.dyn.gamma then dist else c.dyn.gamma;
      assert Synchronised(c, partner, turn) == Ok(Approach(c.state, avg, c.dyn.gamma, c.maxStates));
      assert Approach(c.state, avg, c.dyn.gamma, c.maxStates) == Approach(c.state, avg, step, c.maxStates);
      ApproachWithoutWrap(c.state, avg, step, c.maxStates);
    } else {
      assert Synchronised(c, partner, turn) == Ok(c.state);
    }
  }

  /** The synchro-response message: the state before the exchange. */
  function Response(state: int): (m: Message)
    ensures "operation" in m && m["operation"] == JStr("synchro-response")
    ensures "state" in m && m["state"] == JInt(state)
  {
    map["type" := JStr("synchronization"), "operation" := JStr("synchro-response"), "state" := JInt(state)]
  }

  class ClockModule {
    const node: NodeCore.Node
    var run: Json
    var runTime: real
    var maxStates: int
    var state: int
    var radianStates: nat
    var dynamicCs: bool
    var gamma: int
    var avgDist: Option<int>
    var dynamicTime: Option<real>
    var logging: bool
    var floodedEnd: bool

    function Snapshot(): Settings
      reads this
    {
      Settings(run, runTime, maxStates, state, radianStates, Dynamic(dynamicCs, gamma, avgDist, dynamicTime))
    }

    constructor (node: NodeCore.Node)
      ensures this.node == node
      ensures Snapshot() == Initial
      ensures !logging && !floodedEnd
    {
      this.node := node;
      run := JStr("");
      runTime := 30.0;
      maxStates := -1;
      state := -1;
      radianStates := 0;
      dynamicCs := false;
      gamma := 1;
      avgDist := Some(100);
      dynamicTime := Some(10.0);
      logging := false;
      floodedEnd := false;
    }

    method RegisterNewConfig(msg: Message, draw: nat) returns (s: Status)
      modifies this`run, this`runTime, this`maxStates, this`state, this`radianStates
      modifies this`dynamicCs, this`gamma, this`avgDist, this`dynamicTime
      ensures (Snapshot(), s) == Register(old(Snapshot()), msg, draw)
    {
      var r := Register(Snapshot(), msg, draw);
      run, runTime, maxStates, state, radianStates := r.0.run, r.0.runTime, r.0.maxStates, r.0.state, r.0.radianStates;
      dynamicCs, gamma, avgDist, dynamicTime := r.0.dyn.dynamicCs, r.0.dyn.gamma, r.0.dyn.avgDist, r.0.dyn.dynamicTime;
      s := r.1;
    }

    /** calculate_and_set_new_state, which logs the resulting state under the stamp. */
    method CalculateAndSetNewState(partner: int, turn: real, stamp: string) returns (s: Status)
      modifies this`state, node`history
      ensures match Synchronised(old(Snapshot()), partner, turn)
        case Ok(n) => s == Done && state == n && node.history == Put(old(node.history), stamp, n)
        case Err(e) => s == Raised(e) && state == old(state) && node.history == old(node.history)
    {
      var next := Synchronised(Snapshot(), partner, turn);
      if next.Err? {
        return Raised(next.error);
      }
      state := next.value;
      node.Record(stamp, state);
      s := Done;
    }

    /** handle_end_synchro: stop logging, and forward the end message the first time only. */
    method HandleEndSynchro(msg: Message) returns (s: Status)
      modifies this`logging, this`floodedEnd, node`attempts, node`delivered
      ensures !logging
      ensures old(floodedEnd) ==>
        s == Done && floodedEnd && node.attempts == old(node.attempts) && node.delivered == old(node.delivered)
      ensures !old(floodedEnd) ==>
        var r := NodeCore.Broadcast(node.neighbors, old(node.attempts), NodeCore.Wire(msg));
        && (s == if r.0 then Done else Raised(SendingMessageError))
        && floodedEnd == r.0
        && node.delivered == old(node.delivered) + r.1 && node.attempts == r.2
    {
      logging := false;
      if floodedEnd {
        return Done;
      }
      s := node.SendMessageToAllNeighbors(msg);
      if s == Done {
        floodedEnd := true;
      }
    }

    /** What Handle does with one message: the reaction, and the state after it against the state before. */
    twostate predicate Handled(msg: Message, turn: real, stamp: string, r: NodeCore.Reaction)
      reads this, node
    {
      && ("operation" !in msg ==> r == NodeCore.Reaction(None, false, Raised(KeyError("operation"))))
      && ("operation" in msg && msg["operation"] == JStr("start") ==> r == NodeCore.Reaction(None, true, Done))
      && ("operation" in msg && msg["operation"] == JStr("synchro-request") ==>
          && r.reply == Some(Response(old(state))) && !r.started
          && logging == old(logging) && floodedEnd == old(floodedEnd)
          && node.attempts == old(node.attempts) && node.delivered == old(node.delivered)
          && (IntField(msg, "state").Err? ==>
                r.status == Raised(IntField(msg, "state").error) && state == old(state) && node.history == old(node.history))
          && (IntField(msg, "state").Ok? ==>
                match Synchronised(old(Snapshot()), IntField(msg, "state").value, turn)
                case Ok(n) => r.status == Done && state == n && node.history == Put(old(node.history), stamp, n)
                case Err(e) => r.status == Raised(e) && state == old(state) && node.history == old(node.history)))
      && ("operation" in msg && msg["operation"] == JStr("end") ==>
          && !r.started && r.reply == None && !logging && state == old(state) && node.history == old(node.history)
          && (old(floodedEnd) ==>
                r.status == Done && floodedEnd && node.attempts == old(node.attempts) && node.delivered == old(node.delivered))
          && (!old(floodedEnd) ==>
                var b := NodeCore.Broadcast(node.neighbors, old(node.attempts), NodeCore.Wire(msg));
                && (r.status == if b.0 then Done else Raised(SendingMessageError))
                && floodedEnd == b.0
                && node.delivered == old(node.delivered) + b.1 && node.attempts == b.2))
      && ("operation" !in msg || msg["operation"] !in {JStr("synchro-request"), JStr("end")} ==>
          state == old(state) && logging == old(logging) && floodedEnd == old(floodedEnd)
          && node.history == old(node.history) && node.delivered == old(node.delivered) && node.attempts == old(node.attempts))
      && ("operation" in msg && msg["operation"] !in {JStr("start"), JStr("synchro-request"), JStr("end")} ==>
          r == NodeCore.Reaction(None, false, Done))
    }

    /**
     * handle: "start" spawns the run; "synchro-request" answers with the
     * current state first and then updates towards the partner's; "end" floods
     * the end message; any other operation is ignored.
     */
    method Handle(msg: Message, turn: real, stamp: string) returns (r: NodeCore.Reaction)
      modifies this`state, this`logging, this`floodedEnd, node`history, node`attempts, node`delivered
      ensures Handled(msg, turn, stamp, r)
    {
      if "operation" !in msg {
        return NodeCore.Reaction(None, false, Raised(KeyError("operation")));
      }
      var op := msg["operation"];
      if op == JStr("start") {
        r := NodeCore.Reaction(None, true, Done);
      } else if op == JStr("synchro-request") {
        var reply := Response(state);
        var partner := IntField(msg, "state");
        if partner.Err? {
          return NodeCore.Reaction(Some(reply), false, Raised(partner.error));
        }
        var s := CalculateAndSetNewState(partner.value, turn, stamp);
        r := NodeCore.Reaction(Some(reply), false, s);
      } else if op == JStr("end") {
        var s := HandleEndSynchro(msg);
        r := NodeCore.Reaction(None, false, s);
      } else {
        r := NodeCore.Reaction(None, false, Done);
      }
    }
  }
}
