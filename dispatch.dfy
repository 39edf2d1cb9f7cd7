/**
 * node.py, the process side: choosing the synchronisation model a config
 * message names, and handle_connection, which routes every decoded message
 * either to the node itself (type "node") or to the chosen module (type
 * "synchronization").
 *
 * The node keeps one instance of each module class; `active` says which of
 * them plays the role of the source's synchronization_module. A config that
 * names a model replaces that instance by a fresh one; a config with any
 * other name lets the instance already in place read it, keeping everything
 * that instance held, as the source does.
 */
module Dispatch {
  import opened Base
  import opened Wire
  import NodeCore
  import Kuramoto
  import Clock
  import Metropolis
  import Bsrg

  datatype Model = KuramotoModel | ClockModel | MetropolisModel | BsrgModel

  /** The model names a config message can carry; "mypotts" selects BSRG. */
  function ModelNamed(name: Json): (m: Option<Model>)
    ensures m == Some(KuramotoModel) <==> name == JStr("kuramoto")
    ensures m == Some(ClockModel) <==> name == JStr("clock")
    ensures m == Some(MetropolisModel) <==> name == JStr("metropolis")
    ensures m == Some(BsrgModel) <==> name == JStr("mypotts")
  {
    if name == JStr("kuramoto") then Some(KuramotoModel)
    else if name == JStr("clock") then Some(ClockModel)
    else if name == JStr("metropolis") then Some(MetropolisModel)
    else if name == JStr("mypotts") then Some(BsrgModel)
    else None
  }

  /**
   * register_synchronisation_modell's choice: the named model, or the one
   * already in place when the name is unknown (None if there is none yet,
   * and then register_new_config fails with AttributeError).
   */
  function SelectModel(current: Option<Model>, msg: Message): (r: Result<Option<Model>>)
    ensures "synchronization_model" !in msg ==> r == Err(KeyError("synchronization_model"))
    ensures "synchronization_model" in msg ==> r.Ok?
    ensures r.Ok? && r.value != current ==> r.value == ModelNamed(msg["synchronization_model"])
    ensures r.Ok? && ModelNamed(msg["synchronization_model"]).None? ==> r.value == current
  {
    match Lookup(msg, "synchronization_model")
    case Err(e) => Err(e)
    case Ok(name) => Ok(if ModelNamed(name).Some? then ModelNamed(name) else current)
  }

  /** Where handle_connection sends a message. */
  datatype Route =
    | NotJson                // json.loads failed: the error is caught and printed
    | NodeConfig             // type "node", operation "config"
    | ToModule(model: Model) // type "synchronization" with a module in place
    | Dropped                // any other type or node operation, or no module yet
    | Fails(error: Failure)  // a missing key raises out of the connection task

  function RouteOf(input: Option<Message>, active: Option<Model>): (r: Route)
    ensures r == NodeConfig <==>
      input.Some? && "type" in input.value && input.value["type"] == JStr("node")
      && "operation" in input.value && input.value["operation"] == JStr("config")
    ensures r.ToModule? <==>
      input.Some? && "type" in input.value && input.value["type"] == JStr("synchronization") && active.Some?
    ensures r.ToModule? ==> active == Some(r.model)
    ensures r.Fails? ==> input.Some? && r.error.KeyError?
    ensures r == NotJson <==> input.None?
  {
    match input
    case None => NotJson
    case Some(msg) =>
      if "type" !in msg then Fails(KeyError("type"))
      else if msg["type"] == JStr("node") then
        (if "operation" !in msg then Fails(KeyError("operation"))
         else if msg["operation"] == JStr("config") then NodeConfig
         else Dropped)
      else if msg["type"] == JStr("synchronization") && active.Some? then ToModule(active.value)
      else Dropped
  }

  /**
   * A synchronisation message never reaches a module before the first config
   * message has selected one, whatever the message says.
   */
  lemma NothingReachesAModuleBeforeConfig(input: Option<Message>)
    ensures !RouteOf(input, None).ToModule?
  {
  }

  /** What the environment supplies to one connection: the clock, the draws and the oracles. */
  datatype Env = Env(draw: nat, turn: real, stamp: string, now: real, start: real, sine: real -> real)

  /** AttributeError from a module's handle is caught in handle_connection; nothing else is. */
  function Swallow(s: Status): (t: Status)
    ensures t.Raised? ==> !t.error.AttributeError?
    ensures s.Raised? && !s.error.AttributeError? ==> t == s
  {
    if s.Raised? && s.error.AttributeError? then Done else s
  }

  class NodeProcess {
    const node: NodeCore.Node
    var active: Option<Model>
    var kuramoto: Kuramoto.KuramotoModule
    var clock: Clock.ClockModule
    var metropolis: Metropolis.MetropolisModule
    var bsrg: Bsrg.BsrgModule

    /** Every module instance works for this process's node. */
    predicate Valid()
      reads this
    {
      kuramoto.node == node && clock.node == node && metropolis.node == node && bsrg.node == node
    }

    /** Every module instance other than the one named is the same instance, with the same fields. */
    twostate predicate Kept(except: Option<Model>)
      reads this, kuramoto, clock, metropolis, bsrg
    {
      && (except != Some(KuramotoModel) ==> kuramoto == old(kuramoto) && unchanged(kuramoto))
      && (except != Some(ClockModel) ==> clock == old(clock) && unchanged(clock))
      && (except != Some(MetropolisModel) ==> metropolis == old(metropolis) && unchanged(metropolis))
      && (except != Some(BsrgModel) ==> bsrg == old(bsrg) && unchanged(bsrg))
    }

    constructor (transport: seq<bool>)
      ensures Valid() && active == None
      ensures node.attempts == transport && node.delivered == [] && node.neighbors == []
    {
      var n := new NodeCore.Node(transport);
      node := n;
      active := None;
      kuramoto := new Kuramoto.KuramotoModule(n);
      clock := new Clock.ClockModule(n);
      metropolis := new Metropolis.MetropolisModule(n);
      bsrg := new Bsrg.BsrgModule(n);
    }

    /** What Configure does with one config message: its status, the node's new settings and the module in place. */
    twostate predicate Configured(msg: Message, draw: nat, s: Status)
      reads this, node, kuramoto, clock, metropolis, bsrg
    {
      && node.attempts == old(node.attempts) && node.delivered == old(node.delivered)
      && ("node_id" !in msg ==>
          && s == Raised(KeyError("node_id")) && active == old(active) && Kept(None)
          && node.id == old(node.id) && node.neighbors == old(node.neighbors)
          && node.degree == old(node.degree) && node.history == old(node.history))
      && ("node_id" in msg && NodeCore.NeighborList(msg).Err? ==>
          && s == Raised(NodeCore.NeighborList(msg).error) && active == old(active) && Kept(None)
          && node.id == msg["node_id"] && node.neighbors == old(node.neighbors)
          && node.degree == old(node.degree) && node.history == old(node.history))
      && ("node_id" in msg && NodeCore.NeighborList(msg).Ok? ==>
          && node.id == msg["node_id"] && node.history == []
          && node.neighbors == NodeCore.NeighborList(msg).value && node.degree == |node.neighbors|
          && match SelectModel(old(active), msg)
             case Err(e) => s == Raised(e) && active == old(active) && Kept(None)
             case Ok(None) => s == Raised(AttributeError("register_new_config")) && active == None && Kept(None)
             case Ok(Some(m)) => (active == Some(m) && Kept(Some(m)) &&
               if ModelNamed(msg["synchronization_model"]).Some? then
                 (match m
                  case KuramotoModel => fresh(kuramoto) && (kuramoto.Snapshot(), s) == Kuramoto.Register(Kuramoto.Initial, msg, draw)
                  case ClockModel => fresh(clock) && (clock.Snapshot(), s) == Clock.Register(Clock.Initial, msg, draw)
                  case MetropolisModel => fresh(metropolis) && (metropolis.Snapshot(), s) == Metropolis.Register(Metropolis.Initial, msg, draw)
                  case BsrgModel => fresh(bsrg) && (bsrg.Snapshot(), s) == Bsrg.Register(Bsrg.Initial, msg, draw))
               else
                 (match m
                  case KuramotoModel => kuramoto == old(kuramoto) && (kuramoto.Snapshot(), s) == Kuramoto.Register(old(kuramoto.Snapshot()), msg, draw)
                  case ClockModel => clock == old(clock) && (clock.Snapshot(), s) == Clock.Register(old(clock.Snapshot()), msg, draw)
                  case MetropolisModel => metropolis == old(metropolis) && (metropolis.Snapshot(), s) == Metropolis.Register(old(metropolis.Snapshot()), msg, draw)
                  case BsrgModel => bsrg == old(bsrg) && (bsrg.Snapshot(), s) == Bsrg.Register(old(bsrg.Snapshot()), msg, draw))))
    }

    /**
     * The "config" operation: register_new_node_config, then
     * register_synchronisation_modell, which builds a fresh module of a named
     * kind, or keeps the one in place for any other name, and lets it read
     * the rest of the message.
     */
    method Configure(msg: Message, draw: nat) returns (s: Status)
      requires Valid()
      modifies this, node`id, node`neighbors, node`degree, node`history
      modifies kuramoto, clock, metropolis, bsrg
      ensures Valid()
      ensures Configured(msg, draw, s)
    {
      s := node.RegisterNewNodeConfig(msg);
      if s != Done {
        return;
      }
      var chosen := SelectModel(active, msg);
      if chosen.Err? {
        return Raised(chosen.error);
      }
      active := chosen.value;
      if chosen.value.None? {
        s := Raised(AttributeError("register_new_config"));
      } else if ModelNamed(msg["synchronization_model"]).Some? {
        s := StartModule(chosen.value.value, msg, draw);
      } else {
        s := ReregisterModule(chosen.value.value, msg, draw);
      }
    }

    /** A fresh instance of the chosen module, which reads the rest of the config message. */
    method StartModule(m: Model, msg: Message, draw: nat) returns (s: Status)
      requires Valid()
      modifies this
      ensures Valid() && active == old(active) && Kept(Some(m))
      ensures match m
        case KuramotoModel => fresh(kuramoto) && (kuramoto.Snapshot(), s) == Kuramoto.Register(Kuramoto.Initial, msg, draw)
        case ClockModel => fresh(clock) && (clock.Snapshot(), s) == Clock.Register(Clock.Initial, msg, draw)
        case MetropolisModel => fresh(metropolis) && (metropolis.Snapshot(), s) == Metropolis.Register(Metropolis.Initial, msg, draw)
        case BsrgModel => fresh(bsrg) && (bsrg.Snapshot(), s) == Bsrg.Register(Bsrg.Initial, msg, draw)
    {
      match m {
        case KuramotoModel =>
          kuramoto := new Kuramoto.KuramotoModule(node);
          s := kuramoto.RegisterNewConfig(msg, draw);
        case ClockModel =>
          clock := new Clock.ClockModule(node);
          s := clock.RegisterNewConfig(msg, draw);
        case MetropolisModel =>
          metropolis := new Metropolis.MetropolisModule(node);
          s := metropolis.RegisterNewConfig(msg, draw);
        case BsrgModel =>
          bsrg := new Bsrg.BsrgModule(node);
          s := bsrg.RegisterNewConfig(msg, draw);
      }
    }

    /**
     * register_new_config on the instance already in place: it reads the
     * message from the settings it holds, and keeps its other fields
     * (neighbour tables, logging, the flooded end).
     */
    method ReregisterModule(m: Model, msg: Message, draw: nat) returns (s: Status)
      requires Valid()
      modifies kuramoto, clock, metropolis, bsrg
      ensures Kept(Some(m))
      ensures match m
        case KuramotoModel => (kuramoto.Snapshot(), s) == Kuramoto.Register(old(kuramoto.Snapshot()), msg, draw)
        case ClockModel => (clock.Snapshot(), s) == Clock.Register(old(clock.Snapshot()), msg, draw)
        case MetropolisModel => (metropolis.Snapshot(), s) == Metropolis.Register(old(metropolis.Snapshot()), msg, draw)
        case BsrgModel => (bsrg.Snapshot(), s) == Bsrg.Register(old(bsrg.Snapshot()), msg, draw)
    {
      match m {
        case KuramotoModel =>
          s := kuramoto.RegisterNewConfig(msg, draw);
        case ClockModel =>
          s := clock.RegisterNewConfig(msg, draw);
        case MetropolisModel =>
          s := metropolis.RegisterNewConfig(msg, draw);
        case BsrgModel =>
          s := bsrg.RegisterNewConfig(msg, draw);
      }
    }

    /**
     * handle_connection for one received message (None when it is not JSON):
     * routed as RouteOf says; a module's AttributeError is caught.
     */
    method HandleConnection(input: Option<Message>, env: Env) returns (r: NodeCore.Reaction, ghost inner: NodeCore.Reaction)
      requires Valid()
      modifies this, node, kuramoto, clock, metropolis, bsrg
      ensures Valid()
      // A message that reaches neither the node nor a module changes nothing.
      ensures RouteOf(input, old(active)) == NotJson || RouteOf(input, old(active)) == Dropped ==>
        r == NodeCore.Reaction(None, false, Done) && unchanged(this, node) && Kept(None)
      ensures RouteOf(input, old(active)).Fails? ==>
        r == NodeCore.Reaction(None, false, Raised(RouteOf(input, old(active)).error)) && unchanged(this, node) && Kept(None)
      ensures RouteOf(input, old(active)) == NodeConfig ==>
        r.reply == None && !r.started && Configured(input.value, env.draw, r.status)
      // A module's reaction (inner) is passed on with its AttributeError caught.
      ensures RouteOf(input, old(active)).ToModule? ==>
        && active == old(active)
        && kuramoto == old(kuramoto) && clock == old(clock) && metropolis == old(metropolis) && bsrg == old(bsrg)
        && Kept(Some(RouteOf(input, old(active)).model))
        && node.id == old(node.id) && node.neighbors == old(node.neighbors) && node.degree == old(node.degree)
        && r == inner.(status := Swallow(inner.status))
        && match RouteOf(input, old(active)).model
           case KuramotoModel => kuramoto.Handled(input.value, env.now, env.start, env.sine, inner)
           case ClockModel => clock.Handled(input.value, env.turn, env.stamp, inner)
           case MetropolisModel => metropolis.Handled(input.value, inner)
           case BsrgModel => bsrg.Handled(input.value, inner)
    {
      var route := RouteOf(input, active);
      match route {
        case NotJson =>
          r := NodeCore.Reaction(None, false, Done);
          inner := r;
        case Dropped =>
          r := NodeCore.Reaction(None, false, Done);
          inner := r;
        case Fails(e) =>
          r := NodeCore.Reaction(None, false, Raised(e));
          inner := r;
        case NodeConfig =>
          var s := Configure(input.value, env.draw);
          r := NodeCore.Reaction(None, false, s);
          inner := r;
        case ToModule(m) =>
          var msg := input.value;
          match m {
            case KuramotoModel =>
              r := kuramoto.Handle(msg, env.now, env.start, env.sine);
            case ClockModel =>
              r := clock.Handle(msg, env.turn, env.stamp);
            case MetropolisModel =>
              r := metropolis.Handle(msg);
            case BsrgModel =>
              r := bsrg.Handle(msg);
          }
          inner := r;
          r := r.(status := Swallow(r.status));
      }
    }
  }
}
