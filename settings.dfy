/**
 * Pieces of register_new_config shared by the synchronisation modules:
 * typed reads of message fields, randint, and the "dynamic coupling" block
 * of clock.py and bsrg.py.
 */
module SyncSettings {
  import opened Base
  import opened Wire

  /** int(msg[key]). */
  function IntField(msg: Message, key: string): (r: Result<int>)
    ensures key !in msg ==> r == Err(KeyError(key))
    ensures key in msg ==> r == ToInt(msg[key])
  {
    match Lookup(msg, key)
    case Err(e) => Err(e)
    case Ok(v) => ToInt(v)
  }

  /** float(msg[key]). */
  function RealField(msg: Message, key: string): (r: Result<real>)
    ensures key !in msg ==> r == Err(KeyError(key))
    ensures key in msg ==> r == ToReal(msg[key])
  {
    match Lookup(msg, key)
    case Err(e) => Err(e)
    case Ok(v) => ToReal(v)
  }

  /**
   * random.randint(lo, hi) driven by a draw: an empty range raises ValueError,
   * otherwise every value of [lo, hi] is the result of some draw.
   */
  function RandInt(lo: int, hi: int, draw: nat): (r: Result<int>)
    ensures r.Ok? <==> lo <= hi
    ensures r.Ok? ==> lo <= r.value <= hi
    ensures r.Err? ==> r.error.ValueError?
  {
    if hi < lo then Err(ValueError("empty range for randrange"))
    else Ok(lo + draw % (hi - lo + 1))
  }

  lemma RandIntReachesEveryValue(lo: int, hi: int, v: int)
    requires lo <= v <= hi
    ensures RandInt(lo, hi, (v - lo) as nat) == Ok(v)
  {
  }

  /** The settings the dynamic-coupling block writes; None is Python's None. */
  datatype Dynamic = Dynamic(dynamicCs: bool, gamma: int, avgDist: Option<int>, dynamicTime: Option<real>)

  /** Message fields that make the dynamic block complete. */
  predicate DynamicRequested(msg: Message)
  {
    && "dynamic" in msg && msg["dynamic"] == JStr("True")
    && "gamma" in msg && ToInt(msg["gamma"]).Ok?
    && "avg_dist" in msg && ToInt(msg["avg_dist"]).Ok?
    && "dynamic_time" in msg && ToReal(msg["dynamic_time"]).Ok?
  }

  /**
   * The try block of register_new_config: with msg["dynamic"] == "True" the
   * flag is set first and gamma, avg_dist and dynamic_time are read in that
   * order; a missing key (KeyError) is caught and clears the flag, while a
   * value that does not parse raises and leaves the flag set. So dynamic
   * coupling ends up on with nothing raised exactly when the message asks for
   * it and carries all three parameters, which are then taken over; when the
   * message does not ask for it nothing but the flag changes.
   */
  function ApplyDynamic(d: Dynamic, msg: Message): (r: (Dynamic, Status))
    ensures r.0.dynamicCs && r.1 == Done <==> DynamicRequested(msg)
    ensures DynamicRequested(msg) ==>
      r.0 == Dynamic(true, ToInt(msg["gamma"]).value, Some(ToInt(msg["avg_dist"]).value), Some(ToReal(msg["dynamic_time"]).value))
    ensures r.1.Raised? ==> r.0.dynamicCs && "dynamic" in msg && msg["dynamic"] == JStr("True")
    ensures "dynamic" !in msg || msg["dynamic"] != JStr("True") ==> r == (d.(dynamicCs := false), Done)
    // Stage by stage: a missing key is caught with the flag cleared, a bad value raises with the flag
    // set, and either way the fields read before it keep their new values.
    ensures "dynamic" in msg && msg["dynamic"] == JStr("True") ==>
      && ("gamma" !in msg ==> r == (d.(dynamicCs := false), Done))
      && ("gamma" in msg && ToInt(msg["gamma"]).Err? ==>
            r == (d.(dynamicCs := true), Raised(ToInt(msg["gamma"]).error)))
      && ("gamma" in msg && ToInt(msg["gamma"]).Ok? ==>
            var g := ToInt(msg["gamma"]).value;
            && ("avg_dist" !in msg ==> r == (d.(dynamicCs := false, gamma := g), Done))
            && ("avg_dist" in msg && ToInt(msg["avg_dist"]).Err? ==>
                  r == (d.(dynamicCs := true, gamma := g), Raised(ToInt(msg["avg_dist"]).error)))
            && ("avg_dist" in msg && ToInt(msg["avg_dist"]).Ok? ==>
                  var a := Some(ToInt(msg["avg_dist"]).value);
                  && ("dynamic_time" !in msg ==> r == (d.(dynamicCs := false, gamma := g, avgDist := a), Done))
                  && ("dynamic_time" in msg && ToReal(msg["dynamic_time"]).Err? ==>
                        r == (d.(dynamicCs := true, gamma := g, avgDist := a), Raised(ToReal(msg["dynamic_time"]).error)))))
  {
    if "dynamic" !in msg || msg["dynamic"] != JStr("True") then (d.(dynamicCs := false), Done)
    else
      var d1 := d.(dynamicCs := true);
      if "gamma" !in msg then (d1.(dynamicCs := false), Done)
      else match ToInt(msg["gamma"])
        case Err(e) => (d1, Raised(e))
        case Ok(g) =>
          var d2 := d1.(gamma := g);
          if "avg_dist" !in msg then (d2.(dynamicCs := false), Done)
          else match ToInt(msg["avg_dist"])
            case Err(e) => (d2, Raised(e))
            case Ok(a) =>
              var d3 := d2.(avgDist := Some(a));
              if "dynamic_time" !in msg then (d3.(dynamicCs := false), Done)
              else match ToReal(msg["dynamic_time"])
                case Err(e) => (d3, Raised(e))
                case Ok(t) => (d3.(dynamicTime := Some(t)), Done)
  }

  /**
   * The new_neighbor-state announcement of bsrg.py and metrohasting.py: the
   * node's id and state, both formatted as strings; the receiver's int()
   * gives the state back.
   */
  function Announcement(id: Json, state: int): (m: Message)
    ensures "operation" in m && m["operation"] == JStr("new_neighbor-state")
    ensures "id" in m && m["id"] == JStr(Str(id))
    ensures "state" in m && m["state"] == JStr(IntToString(state))
    ensures ToInt(m["state"]) == Ok(state)
  {
    IntToStringRoundTrip(state);
    map["type" := JStr("synchronization"), "operation" := JStr("new_neighbor-state"),
        "id" := JStr(Str(id)), "state" := JStr(IntToString(state))]
  }
}
