/**
 * The relay as a sequential state machine: each connection event takes the
 * client registry and the set of connections whose transport is open to a
 * new registry and the sends it issues.
 */
module Relay {
  import opened Options
  import opened Js
  import opened Clients
  import opened Messages

  /** One `ws.send`: a message handed to a connection's transport. */
  datatype Send = Send(to: Conn, msg: Outbound)

  /** The new registry and the sends issued, in order. */
  datatype Outcome = Outcome(clients: ClientMap, sends: seq<Send>)

  /** How many of `sends` go to `c`. */
  function CountTo(sends: seq<Send>, c: Conn): (n: nat)
    ensures n == 0 <==> forall i :: 0 <= i < |sends| ==> sends[i].to != c
    ensures n <= |sends|
  {
    if sends == [] then 0
    else (if sends[0].to == c then 1 else 0) + CountTo(sends[1..], c)
  }

  /**
   * The three checks a registered connection must pass to receive a room
   * fan-out: its transport is open, its bound table strictly equals the
   * target, and it is not the excluded connection.
   */
  predicate Passes(m: ClientMap, open: set<Conn>, tableId: Value, exclude: Option<Conn>, c: Conn) {
    && c in open
    && Lookup(m, c).Some?
    && StrictEquals(FromNullable(Lookup(m, c).value.tableId), tableId)
    && exclude != Some(c)
  }

  /** The loop over the registry, in insertion order, that sends to every passing connection. */
  function FanOut(m: ClientMap, open: set<Conn>, tableId: Value, msg: Outbound, exclude: Option<Conn>)
    : (sends: seq<Send>)
    requires Valid(m)
    ensures forall s :: s in sends ==> s.msg == msg && Passes(m, open, tableId, exclude, s.to)
    ensures forall c :: Passes(m, open, tableId, exclude, c) ==> CountTo(sends, c) == 1
    decreases |m|
  {
    if m == [] then []
    else
      ValidSplit(m);
      var b := m[0];
      var rest := FanOut(m[1..], open, tableId, msg, exclude);
      assert Lookup(m[1..], b.conn).None?;
      if b.conn in open && StrictEquals(FromNullable(b.entry.tableId), tableId) && exclude != Some(b.conn) then
        var sends := [Send(b.conn, msg)] + rest;
        assert sends[1..] == rest;
        sends
      else
        rest
  }

  /**
   * `broadcastToRoom(tableId, message, exclude)`: nothing for a falsy table
   * id; otherwise one send of the same message to each connection that
   * passes the checks, and to no other.
   */
  function BroadcastToRoom(m: ClientMap, open: set<Conn>, tableId: Value, msg: Outbound, exclude: Option<Conn>)
    : (sends: seq<Send>)
    requires Valid(m)
    ensures !Truthy(tableId) ==> sends == []
    ensures forall s :: s in sends ==> s.msg == msg && Passes(m, open, tableId, exclude, s.to)
    ensures Truthy(tableId) ==> forall c :: Passes(m, open, tableId, exclude, c) ==> CountTo(sends, c) == 1
  {
    if !Truthy(tableId) then [] else FanOut(m, open, tableId, msg, exclude)
  }

  /** A table id that is truthy but not a string matches no stored table and reaches nobody. */
  lemma NonStringRoomReachesNobody(m: ClientMap, open: set<Conn>, tableId: Value, msg: Outbound, exclude: Option<Conn>)
    requires Valid(m)
    requires Truthy(tableId) && !tableId.Str?
    ensures BroadcastToRoom(m, open, tableId, msg, exclude) == []
  {
    var sends := BroadcastToRoom(m, open, tableId, msg, exclude);
    if sends != [] {
      var e := Lookup(m, sends[0].to).value;
      MatchesNullableOnlyAsString(e.tableId, tableId);
    }
  }

  /** `message.tableId ?? info?.tableId`: the room a relayed message goes to. */
  function RoomOf(m: ClientMap, c: Conn, tableId: Value): Value {
    Coalesce(tableId, match Lookup(m, c) case None => Undefined case Some(e) => FromNullable(e.tableId))
  }

  /** `info?.clientId ?? null`: the sender tag on a relayed state. */
  function SenderOf(m: ClientMap, c: Conn): Option<string> {
    match Lookup(m, c)
    case None => None
    case Some(e) => e.clientId
  }

  /** The handler for a decoded message on connection `c`. */
  function Dispatch(m: ClientMap, open: set<Conn>, c: Conn, msg: Inbound): (out: Outcome)
    requires Valid(m)
    ensures Valid(out.clients)
    ensures !msg.Join? ==> out.clients == m
    ensures forall s :: s in out.sends ==> (s.to == c <==> s.msg.Joined?)
  {
    match msg
    case Join(tableId, clientId) =>
      var e := Entry(StringOrNull(tableId), StringOrNull(clientId));
      Outcome(Set(m, c, e), [Send(c, Joined(e.tableId))])
    case Broadcast(tableId, payload) =>
      var room := RoomOf(m, c, tableId);
      Outcome(m, BroadcastToRoom(m, open, room, BroadcastOut(room, Coalesce(payload, Null)), Some(c)))
    case State(tableId, payload) =>
      var room := RoomOf(m, c, tableId);
      Outcome(m, BroadcastToRoom(m, open, room, StateOut(room, Coalesce(payload, Null), SenderOf(m, c)), Some(c)))
    case _ =>
      Outcome(m, [])
  }

  /** What the transport reports about a connection. */
  datatype Event =
    | Connect(conn: Conn)
    | Close(conn: Conn)
    | Message(conn: Conn, parsed: Option<Value>)   // the result of JSON.parse, `None` when it threw

  /**
   * One event. Only the entry of the event's own connection can change, and
   * the only send that can reach that connection is its own `joined` reply.
   */
  function Step(m: ClientMap, open: set<Conn>, ev: Event): (out: Outcome)
    requires Valid(m)
    ensures Valid(out.clients)
    ensures forall d :: d != ev.conn ==> Lookup(out.clients, d) == Lookup(m, d)
    ensures forall s :: s in out.sends ==> (s.to == ev.conn <==> s.msg.Joined?)
    ensures out.clients != m ==> ev.Connect? || ev.Close? || Decode(ev.parsed).Join?
  {
    match ev
    case Connect(c) => Outcome(Set(m, c, Unbound), [])
    case Close(c) => Outcome(Delete(m, c), [])
    case Message(c, parsed) => Dispatch(m, open, c, Decode(parsed))
  }

  /** A new connection is registered unbound and hears nothing. */
  lemma ConnectRegisters(m: ClientMap, open: set<Conn>, c: Conn)
    requires Valid(m)
    ensures View(Step(m, open, Connect(c)).clients) == View(m)[c := Entry(None, None)]
    ensures Step(m, open, Connect(c)).sends == []
  {
    ViewOfSet(m, c, Unbound);
  }

  /** A closed connection loses exactly its own entry, at once. */
  lemma CloseUnregisters(m: ClientMap, open: set<Conn>, c: Conn)
    requires Valid(m)
    ensures View(Step(m, open, Close(c)).clients) == View(m) - {c}
    ensures Step(m, open, Close(c)).sends == []
  {
    ViewOfDelete(m, c);
  }

  /**
   * A `join` overwrites the sender's entry with its string fields (null for
   * anything else), touches no other entry, and sends exactly one `joined`
   * reply, to the sender, whether or not its transport is open.
   */
  lemma JoinBinds(m: ClientMap, open: set<Conn>, c: Conn, v: Value)
    requires Valid(m)
    requires v.Obj? && Get(v, "type") == Str("join")
    ensures var out := Step(m, open, Message(c, Some(v)));
            var tableId := if Get(v, "tableId").Str? then Some(Get(v, "tableId").s) else None;
            var clientId := if Get(v, "clientId").Str? then Some(Get(v, "clientId").s) else None;
            && View(out.clients) == View(m)[c := Entry(tableId, clientId)]
            && out.sends == [Send(c, Joined(tableId))]
  {
    var e := Entry(StringOrNull(Get(v, "tableId")), StringOrNull(Get(v, "clientId")));
    ViewOfSet(m, c, e);
  }

  /**
   * A `broadcast` or `state` goes to the table in its `tableId` field, or,
   * when that is null or missing, to the sender's bound table; its payload
   * is the message's payload, or null when that is null or missing; a
   * relayed state is tagged with the sender's client id, or null.
   */
  lemma RelayFields(m: ClientMap, open: set<Conn>, c: Conn, parsed: Option<Value>)
    requires Valid(m)
    requires Decode(parsed).Broadcast? || Decode(parsed).State?
    ensures var msg := Decode(parsed);
            var room := if !IsNullish(msg.tableId) then msg.tableId
                        else if c in View(m) then FromNullable(View(m)[c].tableId)
                        else Undefined;
            var payload := if IsNullish(msg.payload) then Null else msg.payload;
            var sender := if c in View(m) then View(m)[c].clientId else None;
            forall s :: s in Step(m, open, Message(c, parsed)).sends ==>
              s.msg == if msg.Broadcast? then BroadcastOut(room, payload) else StateOut(room, payload, sender)
  {
  }

  /**
   * A `broadcast` or `state` leaves the registry alone and reaches exactly
   * the open connections bound to its room other than the sender, once each;
   * with no usable room it reaches nobody.
   */
  lemma RelayReachesRoom(m: ClientMap, open: set<Conn>, c: Conn, parsed: Option<Value>)
    requires Valid(m)
    requires Decode(parsed).Broadcast? || Decode(parsed).State?
    ensures var out := Step(m, open, Message(c, parsed));
            var tableId := Decode(parsed).tableId;
            var room := if !IsNullish(tableId) then tableId
                        else if c in View(m) then FromNullable(View(m)[c].tableId)
                        else Undefined;
            && out.clients == m
            && (!Truthy(room) ==> out.sends == [])
            && (forall s :: s in out.sends ==>
                  s.to != c && s.to in open && s.to in View(m) && StrictEquals(FromNullable(View(m)[s.to].tableId), room))
            && (Truthy(room) ==> forall d ::
                  d in open && d in View(m) && d != c && StrictEquals(FromNullable(View(m)[d].tableId), room) ==>
                    CountTo(out.sends, d) == 1)
  {
    var out := Step(m, open, Message(c, parsed));
    var room := RoomOf(m, c, Decode(parsed).tableId);
    forall d | d in open && d in View(m) && d != c
      ensures Passes(m, open, room, Some(c), d) <==> StrictEquals(FromNullable(View(m)[d].tableId), room)
    {
    }
  }

  /**
   * Unparseable input, a falsy or non-object value, and an object whose
   * `type` is not `join`, `broadcast` or `state` change nothing and send
   * nothing.
   */
  lemma IgnoredInputs(m: ClientMap, open: set<Conn>, c: Conn, parsed: Option<Value>)
    requires Valid(m)
    requires parsed.None? || !Truthy(parsed.value) || !IsObjectType(parsed.value)
             || Get(parsed.value, "type") !in HandledTypes
    ensures Step(m, open, Message(c, parsed)) == Outcome(m, [])
  {
  }

  /**
   * A connection that has just closed hears nothing. The exception for a
   * `join` on the same connection arises only because the model admits any
   * event after a close; the transport delivers no message on a closed
   * socket.
   */
  lemma ClosedHearsNothing(m: ClientMap, open: set<Conn>, open': set<Conn>, c: Conn, ev: Event)
    requires Valid(m)
    ensures var m' := Step(m, open, Close(c)).clients;
            forall s :: s in Step(m', open', ev).sends && s.to == c ==>
              ev.Message? && ev.conn == c && Decode(ev.parsed).Join?
  {
  }

  /** Events paired with the connections whose transport is open when each is handled. */
  datatype Tick = Tick(open: set<Conn>, ev: Event)

  /** The registry after handling `ticks` in order. */
  function Run(m: ClientMap, ticks: seq<Tick>): (r: ClientMap)
    requires Valid(m)
    ensures Valid(r)
    decreases |ticks|
  {
    if ticks == [] then m
    else Run(Step(m, ticks[0].open, ticks[0].ev).clients, ticks[1..])
  }

  /** Whether `ev` is one that can rewrite the entry of `c`. */
  predicate Rebinds(ev: Event, c: Conn) {
    ev.conn == c && (ev.Connect? || ev.Close? || Decode(ev.parsed).Join?)
  }

  /**
   * An entry changes only through its own connection's connect, close or
   * join: across any run without one of those, it stays as it was.
   */
  lemma {:induction false} EntryStableAcrossRun(m: ClientMap, ticks: seq<Tick>, c: Conn)
    requires Valid(m)
    requires forall i :: 0 <= i < |ticks| ==> !Rebinds(ticks[i].ev, c)
    ensures Lookup(Run(m, ticks), c) == Lookup(m, c)
    decreases |ticks|
  {
    if ticks != [] {
      var out := Step(m, ticks[0].open, ticks[0].ev);
      assert !Rebinds(ticks[0].ev, c);
      assert forall i :: 0 <= i < |ticks[1..]| ==> !Rebinds(ticks[1..][i].ev, c) by {
        forall i | 0 <= i < |ticks[1..]| ensures !Rebinds(ticks[1..][i].ev, c) {
          assert ticks[1..][i] == ticks[i + 1];
        }
      }
      EntryStableAcrossRun(out.clients, ticks[1..], c);
    }
  }
}
