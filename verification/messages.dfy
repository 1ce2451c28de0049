/**
 * The relay's wire vocabulary: inbound messages decoded once, at the boundary,
 * into a closed set of kinds, and the outbound messages the relay sends.
 */
module Messages {
  import opened Options
  import opened Js

  /**
   * What an inbound frame means to the relay. The fields are the raw property
   * values, `Undefined` when the property is absent: the relay type-checks
   * `join`'s fields but passes the fields of `broadcast` and `state` on as
   * they are.
   */
  datatype Inbound =
    | Malformed                                // JSON.parse threw
    | NonObject                                // parsed to a falsy value or a non-object
    | Join(tableId: Value, clientId: Value)
    | Broadcast(tableId: Value, payload: Value)
    | State(tableId: Value, payload: Value)
    | Other                                    // an object whose `type` the relay does not handle

  /** The message kinds the relay acts on. */
  predicate Handled(m: Inbound) {
    m.Join? || m.Broadcast? || m.State?
  }

  /** The `type` strings the relay dispatches on. */
  const HandledTypes: set<Value> := {Str("join"), Str("broadcast"), Str("state")}

  /**
   * Decodes the result of JSON.parse (`None` when it threw): the guard
   * `!message || typeof message !== 'object'` first, then the `type` field.
   */
  function Decode(parsed: Option<Value>): (m: Inbound)
    ensures m.Malformed? <==> parsed.None?
    ensures m.NonObject? <==> parsed.Some? && !(Truthy(parsed.value) && IsObjectType(parsed.value))
    ensures m.Other? <==> parsed.Some? && Truthy(parsed.value) && IsObjectType(parsed.value)
                          && Get(parsed.value, "type") !in HandledTypes
    ensures Handled(m) ==> parsed.Some? && parsed.value.Obj?
    ensures parsed.Some? && parsed.value.Obj? && Get(parsed.value, "type") == Str("join") ==>
              m == Join(Get(parsed.value, "tableId"), Get(parsed.value, "clientId"))
    ensures parsed.Some? && parsed.value.Obj? && Get(parsed.value, "type") == Str("broadcast") ==>
              m == Broadcast(Get(parsed.value, "tableId"), Get(parsed.value, "payload"))
    ensures parsed.Some? && parsed.value.Obj? && Get(parsed.value, "type") == Str("state") ==>
              m == State(Get(parsed.value, "tableId"), Get(parsed.value, "payload"))
  {
    match parsed
    case None => Malformed
    case Some(v) =>
      if !Truthy(v) || !IsObjectType(v) then NonObject
      else
        var kind := Get(v, "type");
        if kind == Str("join") then Join(Get(v, "tableId"), Get(v, "clientId"))
        else if kind == Str("broadcast") then Broadcast(Get(v, "tableId"), Get(v, "payload"))
        else if kind == Str("state") then State(Get(v, "tableId"), Get(v, "payload"))
        else Other
  }

  /** Adds a property to an object literal unless its value is undefined. */
  function Put(p: map<string, Value>, k: string, v: Value): map<string, Value> {
    if v.Undefined? then p else p[k := v]
  }

  /**
   * The object a client sends for a handled message: JSON.stringify writes
   * every defined property and omits the undefined ones.
   */
  function Encode(m: Inbound): (v: Value)
    requires Handled(m)
    ensures v.Obj? && Truthy(v)
  {
    match m
    case Join(t, c) => Obj(Put(Put(map["type" := Str("join")], "tableId", t), "clientId", c))
    case Broadcast(t, p) => Obj(Put(Put(map["type" := Str("broadcast")], "tableId", t), "payload", p))
    case State(t, p) => Obj(Put(Put(map["type" := Str("state")], "tableId", t), "payload", p))
  }

  /** Every handled message a client can write decodes back to itself. */
  lemma DecodeEncode(m: Inbound)
    requires Handled(m)
    ensures Decode(Some(Encode(m))) == m
  {
    var v := Encode(m);
    match m
    case Join(t, c) =>
      assert Get(v, "type") == Str("join");
      assert Get(v, "tableId") == t;
      assert Get(v, "clientId") == c;
    case Broadcast(t, p) =>
      assert Get(v, "type") == Str("broadcast");
      assert Get(v, "tableId") == t;
      assert Get(v, "payload") == p;
    case State(t, p) =>
      assert Get(v, "type") == Str("state");
      assert Get(v, "tableId") == t;
      assert Get(v, "payload") == p;
  }

  /** What the relay sends. Serialisation is left abstract. */
  datatype Outbound =
    | Joined(boundTableId: Option<string>)         // `{type: "joined", tableId}`
    | BroadcastOut(tableId: Value, payload: Value)  // `{type: "broadcast", tableId, payload}`
    | StateOut(tableId: Value, payload: Value, sender: Option<string>)
}
