/**
 * The node of node.py as the synchronisation modules see it: its identity,
 * its neighbours, its history of samples and its outbound transport.
 *
 * The transport is an oracle: `attempts` lists, in order, whether each future
 * connection attempt succeeds (an exhausted list means every further attempt
 * fails), and `delivered` lists every message that was handed to a peer.
 */
module NodeCore {
  import opened Base
  import opened Wire
  import opened Dict

  /** Elapsed time, formatted with two decimals, mapped to the discrete state sampled then. */
  type History = Dict<string, int>

  datatype Dest = NodeAt(id: int) | LogStorage

  datatype Body =
    | Wire(msg: Message)
    | Logs(runId: Json, node: int, data: History)

  datatype Packet = Packet(to: Dest, body: Body)

  datatype LogOutcome = LogsDelivered | LogsPending | LogsFailed(error: Failure)

  /**
   * What a synchronisation module's handle does besides changing its state:
   * the reply written on the incoming connection, whether it spawned a
   * synchronisation run, and the exception that escaped it.
   */
  datatype Reaction = Reaction(reply: Option<Message>, started: bool, status: Status)

  /** One connection attempt: its outcome and the attempts left after it. */
  function Attempt(attempts: seq<bool>): (bool, seq<bool>)
  {
    if |attempts| == 0 then (false, []) else (attempts[0], attempts[1..])
  }

  /**
   * send_message_to_all_neighbors: one send per neighbour in list order; the
   * first failure raises and skips the remaining neighbours.
   * Returns (succeeded, packets delivered, attempts left).
   */
  function Broadcast(nbrs: seq<int>, attempts: seq<bool>, body: Body): (r: (bool, seq<Packet>, seq<bool>))
    ensures |r.2| <= |attempts|
    ensures !r.0 && |attempts| > 0 ==> |r.2| < |attempts|
    ensures !r.0 ==> |nbrs| > 0
  {
    if |nbrs| == 0 then (true, [], attempts)
    else if !Attempt(attempts).0 then (false, [], Attempt(attempts).1)
    else
      var rest := Broadcast(nbrs[1..], attempts[1..], body);
      (rest.0, [Packet(NodeAt(nbrs[0]), body)] + rest.1, rest.2)
  }

  /**
   * A broadcast delivers to a prefix of the neighbour list, in order, one
   * attempt per delivery; it succeeds exactly when the prefix is the whole list,
   * and otherwise the attempt right after the prefix is the one that failed.
   */
  lemma {:induction false} BroadcastDeliversPrefix(nbrs: seq<int>, attempts: seq<bool>, body: Body)
    ensures var r := Broadcast(nbrs, attempts, body);
      && |r.1| <= |nbrs|
      && (r.0 <==> |r.1| == |nbrs|)
      && (forall i :: 0 <= i < |r.1| ==> r.1[i] == Packet(NodeAt(nbrs[i]), body))
      && (forall i :: 0 <= i < |r.1| ==> i < |attempts| && attempts[i])
      && (r.0 ==> |nbrs| <= |attempts| && r.2 == attempts[|nbrs|..])
      && (!r.0 && |r.1| < |attempts| ==> !attempts[|r.1|] && r.2 == attempts[|r.1| + 1..])
      && (!r.0 && |r.1| >= |attempts| ==> r.2 == [])
  {
    BroadcastPrefix(nbrs, attempts, body);
    BroadcastSuccess(nbrs, attempts, body);
    BroadcastFailure(nbrs, attempts, body);
  }

  /** The packets of a broadcast go to the first neighbours, in order, each over a successful attempt. */
  lemma {:induction false} BroadcastPrefix(nbrs: seq<int>, attempts: seq<bool>, body: Body)
    ensures var r := Broadcast(nbrs, attempts, body);
      && |r.1| <= |nbrs| && |r.1| <= |attempts|
      && forall i :: 0 <= i < |r.1| ==> r.1[i] == Packet(NodeAt(nbrs[i]), body) && attempts[i]
  {
    if |nbrs| > 0 && Attempt(attempts).0 {
      BroadcastPrefix(nbrs[1..], attempts[1..], body);
      var rest := Broadcast(nbrs[1..], attempts[1..], body);
      var r := Broadcast(nbrs, attempts, body);
      assert r.1 == [Packet(NodeAt(nbrs[0]), body)] + rest.1;
      forall i | 0 <= i < |r.1|
        ensures r.1[i] == Packet(NodeAt(nbrs[i]), body) && attempts[i]
      {
        if i > 0 {
          assert r.1[i] == rest.1[i - 1];
          assert nbrs[1..][i - 1] == nbrs[i];
          assert attempts[1..][i - 1] == attempts[i];
        }
      }
    }
  }

  /** A broadcast succeeds exactly when every neighbour got the message, using one attempt each. */
  lemma {:induction false} BroadcastSuccess(nbrs: seq<int>, attempts: seq<bool>, body: Body)
    ensures var r := Broadcast(nbrs, attempts, body);
      && (r.0 <==> |r.1| == |nbrs|)
      && (r.0 ==> |nbrs| <= |attempts| && r.2 == attempts[|nbrs|..])
  {
    if |nbrs| == 0 {
      assert attempts[0..] == attempts;
    } else if Attempt(attempts).0 {
      BroadcastSuccess(nbrs[1..], attempts[1..], body);
      var rest := Broadcast(nbrs[1..], attempts[1..], body);
      var r := Broadcast(nbrs, attempts, body);
      assert r == (rest.0, [Packet(NodeAt(nbrs[0]), body)] + rest.1, rest.2);
      if rest.0 {
        assert attempts[1..][|nbrs| - 1..] == attempts[|nbrs|..];
      }
    }
  }

  /** A failed broadcast stopped at the attempt right after its packets, or ran out of attempts. */
  lemma {:induction false} BroadcastFailure(nbrs: seq<int>, attempts: seq<bool>, body: Body)
    ensures var r := Broadcast(nbrs, attempts, body);
      && (!r.0 && |r.1| < |attempts| ==> !attempts[|r.1|] && r.2 == attempts[|r.1| + 1..])
      && (!r.0 && |r.1| >= |attempts| ==> r.2 == [])
  {
    if |nbrs| > 0 && Attempt(attempts).0 {
      BroadcastFailure(nbrs[1..], attempts[1..], body);
      var rest := Broadcast(nbrs[1..], attempts[1..], body);
      var r := Broadcast(nbrs, attempts, body);
      assert r == (rest.0, [Packet(NodeAt(nbrs[0]), body)] + rest.1, rest.2);
      assert |r.1| == |rest.1| + 1;
      if !rest.0 && |rest.1| < |attempts[1..]| {
        assert attempts[1..][|rest.1|] == attempts[|r.1|];
        assert attempts[1..][|rest.1| + 1..] == attempts[|r.1| + 1..];
      }
    }
  }

  /**
   * notify_neighbors_of_new_state: broadcast, and on SendingMessageError start
   * the whole broadcast again, until one succeeds. The model stops when the
   * transport has no attempts left.
   */
  function BroadcastRetry(nbrs: seq<int>, attempts: seq<bool>, body: Body): (r: (bool, seq<Packet>, seq<bool>))
    decreases |attempts|
  {
    var first := Broadcast(nbrs, attempts, body);
    if first.0 || |attempts| == 0 then first
    else
      var rest := BroadcastRetry(nbrs, first.2, body);
      (rest.0, first.1 + rest.1, rest.2)
  }

  /**
   * A retried broadcast either ends with one complete round, whose packets are
   * the last ones delivered, one per neighbour in list order, or gives up only
   * once the transport is exhausted.
   */
  lemma {:induction false} BroadcastRetryEndsWithFullRound(nbrs: seq<int>, attempts: seq<bool>, body: Body)
    ensures var r := BroadcastRetry(nbrs, attempts, body);
      && (r.0 ==> |r.1| >= |nbrs| && forall i :: 0 <= i < |nbrs| ==> r.1[|r.1| - |nbrs| + i] == Packet(NodeAt(nbrs[i]), body))
      && (!r.0 ==> r.2 == [])
    decreases |attempts|
  {
    var first := Broadcast(nbrs, attempts, body);
    BroadcastDeliversPrefix(nbrs, attempts, body);
    if !(first.0 || |attempts| == 0) {
      BroadcastRetryEndsWithFullRound(nbrs, first.2, body);
    }
  }

  /** The position of the first successful attempt, if any. */
  function FirstSuccess(attempts: seq<bool>): (k: Option<nat>)
    ensures k.Some? ==> k.value < |attempts| && attempts[k.value]
    ensures k.Some? ==> forall i :: 0 <= i < k.value ==> !attempts[i]
    ensures k.None? ==> forall i :: 0 <= i < |attempts| ==> !attempts[i]
  {
    if |attempts| == 0 then None
    else if attempts[0] then Some(0)
    else match FirstSuccess(attempts[1..])
      case None => None
      case Some(k) => Some(k + 1)
  }

  /** random.choice(xs): an element picked by the draw; an empty list raises IndexError. */
  function Choice<T>(xs: seq<T>, draw: nat): (r: Result<T>)
    ensures r.Ok? <==> |xs| > 0
    ensures r.Ok? ==> r.value in xs
    ensures r.Err? ==> r.error == IndexError
  {
    if |xs| == 0 then Err(IndexError) else Ok(xs[draw % |xs|])
  }

  /** Every element of the list is the choice of some draw. */
  lemma ChoiceReachesEveryElement<T>(xs: seq<T>, i: nat)
    requires i < |xs|
    ensures Choice(xs, i) == Ok(xs[i])
  {
    assert i % |xs| == i;
  }

  /** The message node.py builds in send_logs. */
  function LogsMessage(runId: Json, nodeId: Json, history: History): (r: Result<Body>)
    ensures r.Ok? <==> ToInt(nodeId).Ok?
    ensures r.Ok? ==> r.value == Logs(runId, ToInt(nodeId).value, history)
  {
    match ToInt(nodeId)
    case Err(e) => Err(e)
    case Ok(n) => Ok(Logs(runId, n, history))
  }

  /** The ids of the "-"-joined neighbour string of a config message. */
  function NeighborList(msg: Message): (r: Result<seq<int>>)
    ensures "neighbors" !in msg ==> r == Err(KeyError("neighbors"))
    ensures "neighbors" in msg && !msg["neighbors"].JStr? ==> r.Err? && r.error.AttributeError?
    ensures "neighbors" in msg && msg["neighbors"].JStr? ==>
      r == ParseInts(Split(msg["neighbors"].s, '-'))
  {
    if "neighbors" !in msg then Err(KeyError("neighbors"))
    else match msg["neighbors"]
      case JStr(s) => ParseInts(Split(s, '-'))
      case _ => Err(AttributeError("split"))
  }

  class Node {
    var id: Json
    var neighbors: seq<int>
    var degree: int
    var history: History
    var attempts: seq<bool>
    var delivered: seq<Packet>

    constructor (transport: seq<bool>)
      ensures id == JNull && neighbors == [] && degree == 0 && history == []
      ensures attempts == transport && delivered == []
    {
      id := JNull;
      neighbors := [];
      degree := 0;
      history := [];
      attempts := transport;
      delivered := [];
    }

    /**
     * register_new_node_config: the id is taken first, so it is updated even
     * when the neighbour string then fails to parse.
     */
    method RegisterNewNodeConfig(msg: Message) returns (s: Status)
      modifies this`id, this`neighbors, this`degree, this`history
      ensures s == Done <==> "node_id" in msg && NeighborList(msg).Ok?
      ensures id == if "node_id" in msg then msg["node_id"] else old(id)
      ensures "node_id" !in msg ==> s == Raised(KeyError("node_id"))
      ensures "node_id" in msg && NeighborList(msg).Err? ==> s == Raised(NeighborList(msg).error)
      ensures s == Done ==> neighbors == NeighborList(msg).value && degree == |neighbors| && history == []
      ensures s != Done ==> neighbors == old(neighbors) && degree == old(degree) && history == old(history)
    {
      if "node_id" !in msg {
        return Raised(KeyError("node_id"));
      }
      id := msg["node_id"];
      var parsed := NeighborList(msg);
      if parsed.Err? {
        return Raised(parsed.error);
      }
      neighbors := parsed.value;
      degree := |neighbors|;
      history := [];
      s := Done;
    }

    /** get_random_neighbor. */
    method GetRandomNeighbor(draw: nat) returns (r: Result<int>)
      ensures r.Ok? <==> |neighbors| > 0
      ensures r.Ok? ==> r.value in neighbors
      ensures r == Choice(neighbors, draw)
    {
      r := Choice(neighbors, draw);
    }

    /** One entry of the history: history[stamp] = value. */
    method Record(stamp: string, value: int)
      modifies this`history
      ensures history == Put(old(history), stamp, value)
    {
      history := Put(history, stamp, value);
    }

    /** send_message_to: one connection attempt; every socket error is SendingMessageError. */
    method SendMessageTo(to: Dest, body: Body) returns (ok: bool)
      modifies this`attempts, this`delivered
      ensures (ok, attempts) == Attempt(old(attempts))
      ensures delivered == old(delivered) + (if ok then [Packet(to, body)] else [])
    {
      ok := |attempts| > 0 && attempts[0];
      if |attempts| > 0 {
        attempts := attempts[1..];
      }
      if ok {
        delivered := delivered + [Packet(to, body)];
      }
    }

    /** send_message_to_random_neighbor: choose a neighbour, then one send to it. */
    method SendMessageToRandomNeighbor(msg: Message, draw: nat) returns (r: Result<int>)
      modifies this`attempts, this`delivered
      ensures Choice(neighbors, draw).Err? ==> r == Choice(neighbors, draw) && attempts == old(attempts) && delivered == old(delivered)
      ensures Choice(neighbors, draw).Ok? ==>
        var to := Choice(neighbors, draw).value;
        && (r.Ok? == Attempt(old(attempts)).0)
        && (r.Ok? ==> r.value == to)
        && (r.Err? ==> r.error == SendingMessageError)
        && attempts == Attempt(old(attempts)).1
        && delivered == old(delivered) + (if r.Ok? then [Packet(NodeAt(to), Wire(msg))] else [])
    {
      var choice := GetRandomNeighbor(draw);
      if choice.Err? {
        return choice;
      }
      var ok := SendMessageTo(NodeAt(choice.value), Wire(msg));
      r := if ok then choice else Err(SendingMessageError);
    }

    /** send_message_to_all_neighbors. */
    method SendMessageToAllNeighbors(msg: Message) returns (s: Status)
      modifies this`attempts, this`delivered
      ensures var r := Broadcast(neighbors, old(attempts), Wire(msg));
        && (s == if r.0 then Done else Raised(SendingMessageError))
        && delivered == old(delivered) + r.1
        && attempts == r.2
    {
      var body := Wire(msg);
      var i := 0;
      ghost var sent: seq<Packet> := [];
      assert neighbors[0..] == neighbors;
      assert [] + Broadcast(neighbors, attempts, body).1 == Broadcast(neighbors, attempts, body).1;
      while i < |neighbors|
        invariant 0 <= i <= |neighbors|
        invariant delivered == old(delivered) + sent
        invariant var r := Broadcast(neighbors[i..], attempts, body);
          Broadcast(neighbors, old(attempts), body) == (r.0, sent + r.1, r.2)
        decreases |neighbors| - i
      {
        ghost var before := attempts;
        ghost var step := Broadcast(neighbors[i..], before, body);
        var ok := SendMessageTo(NodeAt(neighbors[i]), body);
        if !ok {
          assert step == (false, [], attempts);
          return Raised(SendingMessageError);
        }
        assert neighbors[i..][1..] == neighbors[i + 1..];
        ghost var rest := Broadcast(neighbors[i + 1..], attempts, body);
        assert step == (rest.0, [Packet(NodeAt(neighbors[i]), body)] + rest.1, rest.2);
        assert sent + ([Packet(NodeAt(neighbors[i]), body)] + rest.1) == (sent + [Packet(NodeAt(neighbors[i]), body)]) + rest.1;
        sent := sent + [Packet(NodeAt(neighbors[i]), body)];
        i := i + 1;
      }
      s := Done;
    }

    /**
     * notify_neighbors_of_new_state of bsrg.py and metrohasting.py: repeat the
     * broadcast until one round succeeds.
     */
    method BroadcastUntilDelivered(msg: Message) returns (ok: bool)
      modifies this`attempts, this`delivered
      ensures var r := BroadcastRetry(neighbors, old(attempts), Wire(msg));
        ok == r.0 && delivered == old(delivered) + r.1 && attempts == r.2
    {
      ghost var sent: seq<Packet> := [];
      ok := false;
      assert [] + BroadcastRetry(neighbors, attempts, Wire(msg)).1 == BroadcastRetry(neighbors, attempts, Wire(msg)).1;
      while true
        invariant delivered == old(delivered) + sent
        invariant var r := BroadcastRetry(neighbors, attempts, Wire(msg));
          BroadcastRetry(neighbors, old(attempts), Wire(msg)) == (r.0, sent + r.1, r.2)
        decreases |attempts|
      {
        var exhausted := |attempts| == 0;
        ghost var beforeDelivered := delivered;
        ghost var first := Broadcast(neighbors, attempts, Wire(msg));
        ghost var whole := BroadcastRetry(neighbors, attempts, Wire(msg));
        var s := SendMessageToAllNeighbors(msg);
        assert delivered[|beforeDelivered|..] == first.1;
        ghost var sentBefore := sent;
        sent := sent + first.1;
        if s == Done {
          assert whole == first;
          return true;
        }
        if exhausted {
          assert whole == first;
          return false;
        }
        ghost var rest := BroadcastRetry(neighbors, attempts, Wire(msg));
        assert whole == (rest.0, first.1 + rest.1, rest.2);
        assert (sentBefore + first.1) + rest.1 == sentBefore + (first.1 + rest.1);
      }
    }

    /**
     * send_logs: {run_id, node, data = history} to the log store, retried until
     * a send succeeds; int(id) failing raises before any attempt.
     */
    method SendLogs(runId: Json) returns (outcome: LogOutcome)
      modifies this`attempts, this`delivered
      ensures LogsMessage(runId, id, history).Err? ==>
        outcome == LogsFailed(LogsMessage(runId, id, history).error) && attempts == old(attempts) && delivered == old(delivered)
      ensures LogsMessage(runId, id, history).Ok? ==>
        var body := LogsMessage(runId, id, history).value;
        match FirstSuccess(old(attempts))
        case Some(k) =>
          outcome == LogsDelivered && delivered == old(delivered) + [Packet(LogStorage, body)]
          && attempts == old(attempts)[k + 1..]
        case None => outcome == LogsPending && delivered == old(delivered) && attempts == []
    {
      var message := LogsMessage(runId, id, history);
      if message.Err? {
        return LogsFailed(message.error);
      }
      var ok := false;
      ghost var used: nat := 0;
      while !ok && |attempts| > 0
        invariant used <= |old(attempts)| && attempts == old(attempts)[used..]
        invariant forall i :: 0 <= i < used && !(ok && i == used - 1) ==> !old(attempts)[i]
        invariant ok ==> used > 0 && old(attempts)[used - 1]
        invariant delivered == old(delivered) + (if ok then [Packet(LogStorage, message.value)] else [])
        decreases |attempts|
      {
        ok := SendMessageTo(LogStorage, message.value);
        used := used + 1;
      }
      if ok {
        assert FirstSuccess(old(attempts)) == Some(used - 1);
      } else {
        assert FirstSuccess(old(attempts)) == None;
      }
      outcome := if ok then LogsDelivered else LogsPending;
    }
  }
}
