/**
 * kuramoto.py: a pulse-coupled oscillator per node. The phase runs with the
 * node's frequency; on each exchange with a neighbour the period is nudged by
 * the coupling strength times the sine of the phase difference, so a node
 * ahead of its partner slows down and one behind speeds up.
 *
 * Phases are kept in turns (fractions of a cycle) instead of radians, and
 * `sine(x)` stands for sin(2*pi*x); every phase a node receives is one that
 * another node's get_phase produced, so the unit does not change behaviour.
 * The clock is the parameter `now`, the module-level start_time is `start`.
 */
module Kuramoto {
  import opened Base
  import opened Wire
  import opened SyncSettings
  import opened Circle
  import NodeCore

  /** The fields register_new_config writes. */
  datatype Settings = Settings(
    frequency: real,
    timeSkew: real,
    run: Json,
    runTime: real,
    floodedEnd: bool,
    c: real,
    s: real,
    dynamicCs: bool,
    dynamicTime: real)

  /** The values __init__ gives them. */
  const Initial := Settings(0.0, 0.0, JStr(""), 30.0, false, 0.00000001, 1.0, false, 10.0)

  // ---------------------------------------------------------------------------
  // register_new_config

  predicate DynamicOn(msg: Message)
  {
    "dynamic" in msg && msg["dynamic"] == JStr("True")
  }

  predicate Accepted(msg: Message)
  {
    && RealField(msg, "frequency").Ok?
    && "run" in msg
    && RealField(msg, "time").Ok?
    && RealField(msg, "c").Ok?
    && ("s" !in msg || ToReal(msg["s"]).Ok?)
    && (DynamicOn(msg) && "dynamic_time" in msg ==> ToReal(msg["dynamic_time"]).Ok?)
  }

  /**
   * frequency, a random time skew of 0..500, run, time, c, then the optional
   * s (a missing key keeps the old value) and the dynamic flag, which is on
   * only for "True" with a dynamic_time present. Fields are written in that
   * order, so a value that does not parse leaves the earlier ones written.
   */
  function Register(c: Settings, msg: Message, draw: nat): (r: (Settings, Status))
    ensures Accepted(msg) ==>
      && r.1 == Done
      && r.0.frequency == RealField(msg, "frequency").value
      && r.0.run == msg["run"] && r.0.runTime == RealField(msg, "time").value
      && r.0.c == RealField(msg, "c").value
      && r.0.s == (if "s" in msg then ToReal(msg["s"]).value else c.s)
      && !r.0.floodedEnd
      && 0.0 <= r.0.timeSkew <= 500.0 && r.0.timeSkew == r.0.timeSkew.Floor as real
      && (r.0.dynamicCs <==> DynamicOn(msg) && "dynamic_time" in msg)
      && (r.0.dynamicCs ==> r.0.dynamicTime == ToReal(msg["dynamic_time"]).value)
    ensures !Accepted(msg) ==> r.1.Raised?
  {
    match RealField(msg, "frequency")
    case Err(e) => (c, Raised(e))
    case Ok(f) =>
      var c1 := c.(frequency := f, timeSkew := RandInt(0, 500, draw).value as real);
      match Lookup(msg, "run")
      case Err(e) => (c1, Raised(e))
      case Ok(run) =>
        var c2 := c1.(run := run);
        match RealField(msg, "time")
        case Err(e) => (c2, Raised(e))
        case Ok(t) =>
          var c3 := c2.(runTime := t, floodedEnd := false);
          match RealField(msg, "c")
          case Err(e) => (c3, Raised(e))
          case Ok(strength) =>
            var c4 := c3.(c := strength);
            match (if "s" in msg then ToReal(msg["s"]) else Ok(c4.s))
            case Err(e) => (c4, Raised(e))
            case Ok(s) =>
              var c5 := c4.(s := s);
              if !DynamicOn(msg) then (c5.(dynamicCs := false), Done)
              else if "dynamic_time" !in msg then (c5.(dynamicCs := false), Done)
              else match ToReal(msg["dynamic_time"])
                case Err(e) => (c5.(dynamicCs := true), Raised(e))
                case Ok(dt) => (c5.(dynamicCs := true, dynamicTime := dt), Done)
  }

  // ---------------------------------------------------------------------------
  // get_phase

  /** Python's float % : the remainder takes the sign of the divisor. */
  function FloatMod(x: real, p: real): real
    requires p != 0.0
  {
    x - p * (x / p).Floor as real
  }

  /** The number of cycles a clock of the given frequency runs in time x. */
  function Cycles(x: real, frequency: real): real
  {
    x * frequency
  }

  /**
   * get_phase: (time + skew) % period over the period, with period
   * 1 / frequency; a frequency of 0 raises ZeroDivisionError. The phase is
   * the fractional part of the number of cycles run so far.
   */
  function Phase(now: real, skew: real, frequency: real): (r: Result<real>)
    ensures r.Err? <==> frequency == 0.0
    ensures r.Err? ==> r.error == ZeroDivisionError
    ensures r.Ok? ==>
      var cycles := Cycles(now + skew, frequency);
      r.value == cycles - cycles.Floor as real
    ensures r.Ok? ==> 0.0 <= r.value < 1.0
  {
    if frequency == 0.0 then Err(ZeroDivisionError)
    else
      CyclesPerPeriod(now + skew, frequency);
      Ok(FloatMod(now + skew, 1.0 / frequency) / (1.0 / frequency))
  }

  /** Dividing the remainder by the period leaves the fractional part of the cycles. */
  lemma CyclesPerPeriod(x: real, f: real)
    requires f != 0.0
    ensures FloatMod(x, 1.0 / f) / (1.0 / f) == Cycles(x, f) - Cycles(x, f).Floor as real
  {
    var p := 1.0 / f;
    assert p * f == 1.0;
    assert x / p == x * f by {
      assert (x * f) * p == x;
    }
    assert Cycles(x, f) == x * f;
    var k := (x * f).Floor as real;
    assert FloatMod(x, p) == x - p * k;
    assert (x - p * k) / p == x * f - k by {
      assert (x * f - k) * p == x - p * k;
    }
  }

  /** The phase repeats after one period. */
  lemma PhaseIsPeriodic(now: real, skew: real, frequency: real)
    requires frequency != 0.0
    ensures Phase(now + 1.0 / frequency, skew, frequency) == Phase(now, skew, frequency)
  {
    var cycles := Cycles(now + skew, frequency);
    assert Cycles(now + 1.0 / frequency + skew, frequency) == cycles + 1.0 by {
      assert (1.0 / frequency) * frequency == 1.0;
      assert (now + 1.0 / frequency + skew) * frequency == (now + skew) * frequency + (1.0 / frequency) * frequency;
    }
    assert (cycles + 1.0).Floor == cycles.Floor + 1;
  }

  // ---------------------------------------------------------------------------
  // Coupling strength and update_new_frequency

  /** coupling_strength_f2: C shared out over the node's degree. */
  function CouplingF2(c: real, degree: int): (r: Result<real>)
    ensures r.Err? <==> degree == 0
    ensures r.Err? ==> r.error == ZeroDivisionError
    ensures r.Ok? ==> r.value * degree as real == c
  {
    if degree == 0 then Err(ZeroDivisionError) else Ok(c / degree as real)
  }

  /** coupling_strength_f3: C plus the neighbour's degree scaled by S, shared out over the degree. */
  function CouplingF3(neighborDegree: int, c: real, s: real, degree: int): (r: Result<real>)
    ensures r.Err? <==> s == 0.0 || degree == 0
    ensures r.Err? ==> r.error == ZeroDivisionError
    ensures r.Ok? ==> r.value * degree as real == c + neighborDegree as real / s
  {
    if s == 0.0 || degree == 0 then Err(ZeroDivisionError)
    else Ok((c + neighborDegree as real / s) / degree as real)
  }

  /** A neighbour of degree 0 adds nothing: f3 falls back to f2. */
  lemma CouplingF3ExtendsF2(c: real, s: real, degree: int)
    requires s != 0.0
    ensures CouplingF3(0, c, s, degree) == CouplingF2(c, degree)
  {
    assert 0 as real / s == 0.0;
  }

  /** Whether the dynamic rule applies: dynamic coupling on and strictly more than dynamic_time elapsed. */
  predicate DynamicPhase(c: Settings, now: real, start: real)
  {
    c.dynamicCs && now - start > c.dynamicTime
  }

  /**
   * The period after one exchange, where sin is the sine of the phase
   * difference: it grows by cs * sin, or in the dynamic phase by
   * cs * (1 - |sin|) in the direction of sin, taken as sin / |sin|, which
   * divides by zero (None) when sin is exactly 0.
   */
  function NextPeriod(period: real, cs: real, sin: real, dynamic: bool): (p: Option<real>)
    ensures p.None? <==> dynamic && sin == 0.0
  {
    if dynamic then
      (if sin == 0.0 then None
       else Some(period + cs * (1.0 - AbsReal(sin)) * (sin / AbsReal(sin))))
    else Some(period + cs * sin)
  }

  /**
   * With a positive coupling strength the period grows when the node is
   * ahead (sin > 0), strictly so outside the dynamic phase, and outside the
   * dynamic phase shrinks when it is behind (sin < 0).
   */
  lemma NextPeriodDirection(period: real, cs: real, sin: real, dynamic: bool)
    requires cs > 0.0 && -1.0 <= sin <= 1.0
    ensures sin > 0.0 ==>
      && NextPeriod(period, cs, sin, dynamic).Some?
      && NextPeriod(period, cs, sin, dynamic).value >= period
      && (!dynamic ==> NextPeriod(period, cs, sin, dynamic).value > period)
    ensures sin < 0.0 && !dynamic ==> NextPeriod(period, cs, sin, dynamic).value < period
  {
    if sin > 0.0 && dynamic {
      assert sin / AbsReal(sin) == 1.0;
      var w := 1.0 - AbsReal(sin);
      assert w >= 0.0;
      assert cs * w >= 0.0;
    }
  }

  /** update_new_frequency: one over the next period; a next period of 0 raises as well. */
  function Update(c: Settings, degree: int, partner: real, now: real, start: real, sine: real -> real): (r: Result<real>)
    ensures r.Ok? ==> degree != 0 && c.frequency != 0.0 && r.value != 0.0
    ensures degree == 0 || c.frequency == 0.0 ==> r == Err(ZeroDivisionError)
  {
    match CouplingF2(c.c, degree)
    case Err(e) => Err(e)
    case Ok(cs) =>
      if c.frequency == 0.0 then Err(ZeroDivisionError)
      else
        var next := NextPeriod(1.0 / c.frequency, cs, sine(Diff(c, partner, now)), DynamicPhase(c, now, start));
        if next.None? || next.value == 0.0 then Err(ZeroDivisionError)
        else
          assert (1.0 / next.value) * next.value == 1.0;
          Ok(1.0 / next.value)
  }

  /** 0 < a < b gives 1/b < 1/a. */
  lemma ReciprocalDecreasing(a: real, b: real)
    requires 0.0 < a < b
    ensures 0.0 < 1.0 / b < 1.0 / a
  {
    assert (1.0 / a) * a == 1.0;
    assert (1.0 / b) * b == 1.0;
    assert (1.0 / b) * a < (1.0 / b) * b;
  }

  /** The phase difference to the partner, in turns. */
  function Diff(c: Settings, partner: real, now: real): real
    requires c.frequency != 0.0
  {
    Phase(now, c.timeSkew, c.frequency).value - partner
  }

  /** Two oscillators in phase leave the frequency alone outside the dynamic phase. */
  lemma InPhaseKeepsFrequency(c: Settings, degree: int, now: real, start: real, sine: real -> real)
    requires degree != 0 && c.frequency != 0.0 && sine(0.0) == 0.0
    requires !DynamicPhase(c, now, start)
    ensures Update(c, degree, Phase(now, c.timeSkew, c.frequency).value, now, start, sine) == Ok(c.frequency)
  {
    assert 1.0 / (1.0 / c.frequency) == c.frequency by {
      assert (1.0 / c.frequency) * c.frequency == 1.0;
    }
  }

  /**
   * In the dynamic phase the sign of sin(diff) is taken by dividing by its
   * absolute value, so two oscillators exactly in phase raise
   * ZeroDivisionError instead of keeping their frequency.
   */
  lemma DynamicInPhaseRaises(c: Settings, degree: int, now: real, start: real, sine: real -> real)
    requires degree != 0 && c.frequency != 0.0 && sine(0.0) == 0.0
    requires DynamicPhase(c, now, start)
    ensures Update(c, degree, Phase(now, c.timeSkew, c.frequency).value, now, start, sine) == Err(ZeroDivisionError)
  {
  }

  /**
   * With positive frequency and coupling, a node ahead of its partner
   * (sin(diff) > 0) slows down, in either phase of the run, and one behind
   * (sin(diff) < 0) outside the dynamic phase speeds up when it still has a
   * positive period.
   */
  lemma {:induction false} CouplingPullsTogether(c: Settings, degree: int, partner: real, now: real, start: real, sine: real -> real)
    requires degree > 0 && c.frequency > 0.0 && c.c > 0.0
    requires -1.0 <= sine(Diff(c, partner, now)) <= 1.0
    ensures sine(Diff(c, partner, now)) > 0.0 ==>
      var r := Update(c, degree, partner, now, start, sine);
      r.Ok? && 0.0 < r.value <= c.frequency && (!DynamicPhase(c, now, start) ==> r.value < c.frequency)
    ensures sine(Diff(c, partner, now)) < 0.0 && !DynamicPhase(c, now, start) ==>
      var r := Update(c, degree, partner, now, start, sine);
      r.Ok? && r.value > 0.0 ==> r.value > c.frequency
  {
    var cs := c.c / degree as real;
    var period := 1.0 / c.frequency;
    assert 1.0 / period == c.frequency by {
      assert period * c.frequency == 1.0;
    }
    var sin := sine(Diff(c, partner, now));
    var dynamic := DynamicPhase(c, now, start);
    NextPeriodDirection(period, cs, sin, dynamic);
    var next := NextPeriod(period, cs, sin, dynamic);
    if sin > 0.0 && next.value > period {
      ReciprocalDecreasing(period, next.value);
    }
    if sin < 0.0 && !dynamic && next.value > 0.0 {
      ReciprocalDecreasing(next.value, period);
    }
  }

  // ---------------------------------------------------------------------------
  // Messages

  /** The synchro-request a node sends to a random neighbour. */
  function SynchroRequest(phase: real, id: Json, degree: int): Message
  {
    map["type" := JStr("synchronization"), "operation" := JStr("synchro-request"),
        "initiator_phase" := JReal(phase), "initiator_id" := id, "degree" := JInt(degree)]
  }

  /** The synchro-response: the responder's phase and degree. */
  function SynchroResponse(phase: real, degree: int): Message
  {
    map["type" := JStr("synchronization"), "operation" := JStr("synchro-response"),
        "response_phase" := JReal(phase), "degree" := JInt(degree)]
  }

  const EndMessage: Message := map["type" := JStr("synchronization"), "operation" := JStr("end")]

  class KuramotoModule {
    const node: NodeCore.Node
    var frequency: real
    var timeSkew: real
    var run: Json
    var runTime: real
    var floodedEnd: bool
    var c: real
    var s: real
    var dynamicCs: bool
    var dynamicTime: real
    var logging: bool

    function Snapshot(): Settings
      reads this
    {
      Settings(frequency, timeSkew, run, runTime, floodedEnd, c, s, dynamicCs, dynamicTime)
    }

    constructor (node: NodeCore.Node)
      ensures this.node == node && Snapshot() == Initial && !logging
    {
      this.node := node;
      frequency, timeSkew, run, runTime := 0.0, 0.0, JStr(""), 30.0;
      floodedEnd, c, s := false, 0.00000001, 1.0;
      dynamicCs, dynamicTime := false, 10.0;
      logging := false;
    }

    method RegisterNewConfig(msg: Message, draw: nat) returns (st: Status)
      modifies this`frequency, this`timeSkew, this`run, this`runTime, this`floodedEnd
      modifies this`c, this`s, this`dynamicCs, this`dynamicTime
      ensures (Snapshot(), st) == Register(old(Snapshot()), msg, draw)
    {
      var r := Register(Snapshot(), msg, draw);
      frequency, timeSkew, run, runTime, floodedEnd := r.0.frequency, r.0.timeSkew, r.0.run, r.0.runTime, r.0.floodedEnd;
      c, s, dynamicCs, dynamicTime := r.0.c, r.0.s, r.0.dynamicCs, r.0.dynamicTime;
      st := r.1;
    }

    /** update_new_frequency: the frequency is written only when the update succeeds. */
    method UpdateNewFrequency(partner: real, now: real, start: real, sine: real -> real) returns (st: Status)
      modifies this`frequency
      ensures match Update(old(Snapshot()), node.degree, partner, now, start, sine)
        case Err(e) => st == Raised(e) && frequency == old(frequency)
        case Ok(f) => st == Done && frequency == f
    {
      var u := Update(Snapshot(), node.degree, partner, now, start, sine);
      match u {
        case Err(e) => st := Raised(e);
        case Ok(f) => frequency := f; st := Done;
      }
    }

    /**
     * One round of handle_start_synchronisation's loop: send a synchro-request
     * with the current phase to a random neighbour and update towards the
     * phase it answers with. A failed send is caught and skips the round;
     * having no neighbour at all raises.
     */
    method RequestSynchro(now: real, start: real, draw: nat, response: real, sine: real -> real) returns (st: Status)
      modifies this`frequency, node`attempts, node`delivered
      ensures old(frequency) == 0.0 ==>
        st == Raised(ZeroDivisionError) && frequency == old(frequency)
        && node.attempts == old(node.attempts) && node.delivered == old(node.delivered)
      ensures old(frequency) != 0.0 && NodeCore.Choice(node.neighbors, draw).Err? ==>
        st == Raised(NodeCore.Choice(node.neighbors, draw).error) && frequency == old(frequency)
        && node.attempts == old(node.attempts) && node.delivered == old(node.delivered)
      ensures old(frequency) != 0.0 && NodeCore.Choice(node.neighbors, draw).Ok? ==>
        node.attempts == NodeCore.Attempt(old(node.attempts)).1
      ensures old(frequency) != 0.0 && NodeCore.Choice(node.neighbors, draw).Ok? && !NodeCore.Attempt(old(node.attempts)).0 ==>
        st == Done && frequency == old(frequency) && node.delivered == old(node.delivered)
      ensures old(frequency) != 0.0 && NodeCore.Choice(node.neighbors, draw).Ok? && NodeCore.Attempt(old(node.attempts)).0 ==>
        var request := SynchroRequest(Phase(now, timeSkew, old(frequency)).value, node.id, node.degree);
        && node.delivered == old(node.delivered) + [NodeCore.Packet(NodeCore.NodeAt(NodeCore.Choice(node.neighbors, draw).value), NodeCore.Wire(request))]
        && match Update(old(Snapshot()), node.degree, response, now, start, sine)
           case Err(e) => st == Raised(e) && frequency == old(frequency)
           case Ok(f) => st == Done && frequency == f
    {
      var phase := Phase(now, timeSkew, frequency);
      if phase.Err? {
        return Raised(phase.error);
      }
      var sent := node.SendMessageToRandomNeighbor(SynchroRequest(phase.value, node.id, node.degree), draw);
      if sent.Err? {
        return if sent.error == SendingMessageError then Done else Raised(sent.error);
      }
      st := UpdateNewFrequency(response, now, start, sine);
    }

    /**
     * handle_incoming_synchro: the response carries the phase from before the
     * update, but it is written only after the update with the initiator's
     * phase succeeded; any error leaves the initiator without an answer.
     */
    method HandleIncomingSynchro(msg: Message, now: real, start: real, sine: real -> real) returns (r: NodeCore.Reaction)
      modifies this`frequency
      ensures !r.started
      ensures r.reply.Some? <==> r.status == Done
      ensures r.status != Done ==> frequency == old(frequency)
      ensures Phase(now, timeSkew, old(frequency)).Err? ==> r.status == Raised(ZeroDivisionError)
      ensures Phase(now, timeSkew, old(frequency)).Ok? && RealField(msg, "initiator_phase").Err? ==>
        r.status == Raised(RealField(msg, "initiator_phase").error)
      ensures Phase(now, timeSkew, old(frequency)).Ok? && RealField(msg, "initiator_phase").Ok? ==>
        match Update(old(Snapshot()), node.degree, RealField(msg, "initiator_phase").value, now, start, sine)
        case Err(e) => r.status == Raised(e)
        case Ok(f) => (frequency == f
          && r.reply == Some(SynchroResponse(Phase(now, timeSkew, old(frequency)).value, node.degree)))
    {
      var phase := Phase(now, timeSkew, frequency);
      if phase.Err? {
        return NodeCore.Reaction(None, false, Raised(phase.error));
      }
      var response := SynchroResponse(phase.value, node.degree);
      var partner := RealField(msg, "initiator_phase");
      if partner.Err? {
        return NodeCore.Reaction(None, false, Raised(partner.error));
      }
      var st := UpdateNewFrequency(partner.value, now, start, sine);
      r := NodeCore.Reaction(if st == Done then Some(response) else None, false, st);
    }

    /** handle_end_synchro: stop logging and pass the end message on once. */
    method HandleEndSynchro(msg: Message) returns (st: Status)
      modifies this`logging, this`floodedEnd, node`attempts, node`delivered
      ensures !logging
      ensures old(floodedEnd) ==>
        st == Done && floodedEnd && node.attempts == old(node.attempts) && node.delivered == old(node.delivered)
      ensures !old(floodedEnd) ==>
        var b := NodeCore.Broadcast(node.neighbors, old(node.attempts), NodeCore.Wire(msg));
        && (st == if b.0 then Done else Raised(SendingMessageError))
        && floodedEnd == b.0
        && node.delivered == old(node.delivered) + b.1 && node.attempts == b.2
    {
      logging := false;
      if floodedEnd {
        return Done;
      }
      st := node.SendMessageToAllNeighbors(msg);
      if st == Done {
        floodedEnd := true;
      }
    }

    /**
     * The end of handle_start_synchronisation: stop logging and flood the end
     * message whether or not it was flooded already.
     */
    method FinishRun() returns (st: Status)
      modifies this`logging, this`floodedEnd, node`attempts, node`delivered
      ensures !logging
      ensures var b := NodeCore.Broadcast(node.neighbors, old(node.attempts), NodeCore.Wire(EndMessage));
        && (st == if b.0 then Done else Raised(SendingMessageError))
        && floodedEnd == (b.0 || old(floodedEnd))
        && node.delivered == old(node.delivered) + b.1 && node.attempts == b.2
    {
      logging := false;
      st := node.SendMessageToAllNeighbors(EndMessage);
      if st == Done {
        floodedEnd := true;
      }
    }

    /** What Handle does with one message: the reaction, and the state after it against the state before. */
    twostate predicate Handled(msg: Message, now: real, start: real, sine: real -> real, r: NodeCore.Reaction)
      reads this, node
    {
      && ("operation" !in msg ==>
          && r == NodeCore.Reaction(None, false, Raised(KeyError("operation")))
          && frequency == old(frequency) && logging == old(logging) && floodedEnd == old(floodedEnd)
          && node.attempts == old(node.attempts) && node.delivered == old(node.delivered))
      && ("operation" in msg && msg["operation"] == JStr("start") ==>
          && r == NodeCore.Reaction(None, true, Done) && frequency == old(frequency)
          && logging == old(logging) && floodedEnd == old(floodedEnd)
          && node.attempts == old(node.attempts) && node.delivered == old(node.delivered))
      && ("operation" in msg && msg["operation"] == JStr("synchro-request") ==>
          && !r.started && (r.reply.Some? <==> r.status == Done)
          && logging == old(logging) && floodedEnd == old(floodedEnd)
          && node.attempts == old(node.attempts) && node.delivered == old(node.delivered)
          && (Phase(now, timeSkew, old(frequency)).Err? ==>
                r.status == Raised(ZeroDivisionError) && frequency == old(frequency))
          && (Phase(now, timeSkew, old(frequency)).Ok? && RealField(msg, "initiator_phase").Err? ==>
                r.status == Raised(RealField(msg, "initiator_phase").error) && frequency == old(frequency))
          && (Phase(now, timeSkew, old(frequency)).Ok? && RealField(msg, "initiator_phase").Ok? ==>
                match Update(old(Snapshot()), node.degree, RealField(msg, "initiator_phase").value, now, start, sine)
                case Err(e) => r.status == Raised(e) && frequency == old(frequency)
                case Ok(f) => (frequency == f
                  && r == NodeCore.Reaction(Some(SynchroResponse(Phase(now, timeSkew, old(frequency)).value, node.degree)), false, Done))))
      && ("operation" in msg && msg["operation"] == JStr("end") ==>
          && r.reply == None && !r.started && !logging && frequency == old(frequency)
          && (old(floodedEnd) ==>
                r.status == Done && floodedEnd && node.attempts == old(node.attempts) && node.delivered == old(node.delivered))
          && (!old(floodedEnd) ==>
                var b := NodeCore.Broadcast(node.neighbors, old(node.attempts), NodeCore.Wire(msg));
                && (r.status == if b.0 then Done else Raised(SendingMessageError))
                && floodedEnd == b.0
                && node.delivered == old(node.delivered) + b.1 && node.attempts == b.2))
      && ("operation" in msg && msg["operation"] !in {JStr("start"), JStr("synchro-request"), JStr("end")} ==>
          && r == NodeCore.Reaction(None, false, Done) && frequency == old(frequency)
          && logging == old(logging) && floodedEnd == old(floodedEnd)
          && node.attempts == old(node.attempts) && node.delivered == old(node.delivered))
    }

    /** handle: "start" spawns the run, "synchro-request" and "end" are answered, the rest is ignored. */
    method Handle(msg: Message, now: real, start: real, sine: real -> real) returns (r: NodeCore.Reaction)
      modifies this`frequency, this`logging, this`floodedEnd, node`attempts, node`delivered
      ensures Handled(msg, now, start, sine, r)
    {
      if "operation" !in msg {
        return NodeCore.Reaction(None, false, Raised(KeyError("operation")));
      }
      var op := msg["operation"];
      if op == JStr("start") {
        r := NodeCore.Reaction(None, true, Done);
      } else if op == JStr("synchro-request") {
        r := HandleIncomingSynchro(msg, now, start, sine);
      } else if op == JStr("end") {
        var st := HandleEndSynchro(msg);
        r := NodeCore.Reaction(None, false, st);
      } else {
        r := NodeCore.Reaction(None, false, Done);
      }
    }
  }
}
