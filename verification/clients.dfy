/**
 * The relay's `clients` registry: a JavaScript Map from a live connection to
 * the table and client identifier it declared. A Map keeps its keys in
 * insertion order, and the fan-out visits connections in that order, so the
 * registry is modelled as an association list with distinct keys; `View`
 * forgets the order and gives the plain finite map.
 */
module Clients {
  import opened Options

  /** An opaque connection handle. */
  type Conn = nat

  /** `{ tableId, clientId }`: both are a string or null. */
  datatype Entry = Entry(tableId: Option<string>, clientId: Option<string>)

  /** The entry a fresh connection gets before it joins a table. */
  const Unbound := Entry(None, None)

  datatype Binding = Binding(conn: Conn, entry: Entry)

  /** Bindings in Map insertion order. */
  type ClientMap = seq<Binding>

  /** The registry's keys, in insertion order. */
  function Conns(m: ClientMap): (ks: seq<Conn>)
    ensures |ks| == |m|
    ensures forall i :: 0 <= i < |m| ==> ks[i] == m[i].conn
  {
    if m == [] then [] else [m[0].conn] + Conns(m[1..])
  }

  /** A Map holds each key at most once. */
  predicate Valid(m: ClientMap) {
    forall i, j :: 0 <= i < j < |m| ==> m[i].conn != m[j].conn
  }

  /** `clients.get(c)`: the entry of `c`, absent when `c` is not a key. */
  function Lookup(m: ClientMap, c: Conn): (r: Option<Entry>)
    ensures r.Some? <==> c in Conns(m)
  {
    if m == [] then None
    else if m[0].conn == c then Some(m[0].entry)
    else Lookup(m[1..], c)
  }

  /** The registry as an unordered finite map. */
  function View(m: ClientMap): map<Conn, Entry> {
    map c | c in Conns(m) :: Lookup(m, c).value
  }

  /**
   * `clients.set(c, e)`: an existing key keeps its position and gets the new
   * entry; a new key is appended.
   */
  function Set(m: ClientMap, c: Conn, e: Entry): (r: ClientMap)
    requires Valid(m)
    ensures Valid(r)
    ensures forall d :: Lookup(r, d) == if d == c then Some(e) else Lookup(m, d)
    ensures Conns(r) == if c in Conns(m) then Conns(m) else Conns(m) + [c]
  {
    if m == [] then [Binding(c, e)]
    else if m[0].conn == c then
      ValidSplit(m);
      ValidCons(Binding(c, e), m[1..]);
      [Binding(c, e)] + m[1..]
    else
      ValidSplit(m);
      var t := Set(m[1..], c, e);
      ValidCons(m[0], t);
      [m[0]] + t
  }

  /** `clients.delete(c)`: removes the key if present. */
  function Delete(m: ClientMap, c: Conn): (r: ClientMap)
    requires Valid(m)
    ensures Valid(r)
    ensures forall d :: Lookup(r, d) == if d == c then None else Lookup(m, d)
    ensures |r| == if c in Conns(m) then |m| - 1 else |m|
  {
    if m == [] then []
    else if m[0].conn == c then
      ValidSplit(m);
      m[1..]
    else
      ValidSplit(m);
      var t := Delete(m[1..], c);
      assert Lookup(t, m[0].conn) == None;
      ValidCons(m[0], t);
      var r := [m[0]] + t;
      assert r[1..] == t;
      r
  }

  /** A registry splits into its first binding and a registry without that key. */
  lemma ValidSplit(m: ClientMap)
    requires Valid(m) && m != []
    ensures Valid(m[1..])
    ensures m[0].conn !in Conns(m[1..])
  {
  }

  /** Prepending a binding for a new key keeps the keys distinct. */
  lemma ValidCons(b: Binding, t: ClientMap)
    requires Valid(t) && b.conn !in Conns(t)
    ensures Valid([b] + t)
  {
    var m := [b] + t;
    forall i, j | 0 <= i < j < |m|
      ensures m[i].conn != m[j].conn
    {
      if i == 0 {
        assert Conns(t)[j - 1] == m[j].conn;
      } else {
        assert m[i] == t[i - 1] && m[j] == t[j - 1];
      }
    }
  }

  /** Setting a key in the ordered registry is setting it in the map. */
  lemma ViewOfSet(m: ClientMap, c: Conn, e: Entry)
    requires Valid(m)
    ensures View(Set(m, c, e)) == View(m)[c := e]
  {
    var r := Set(m, c, e);
    forall d | d in View(r) || d in View(m)[c := e]
      ensures d in View(r) && d in View(m)[c := e] && View(r)[d] == View(m)[c := e][d]
    {
      assert Lookup(r, d) == if d == c then Some(e) else Lookup(m, d);
    }
  }

  /** Deleting a key from the ordered registry is removing it from the map. */
  lemma ViewOfDelete(m: ClientMap, c: Conn)
    requires Valid(m)
    ensures View(Delete(m, c)) == View(m) - {c}
  {
    var r := Delete(m, c);
    forall d | d in View(r) || d in View(m) - {c}
      ensures d in View(r) && d in View(m) - {c} && View(r)[d] == (View(m) - {c})[d]
    {
      assert Lookup(r, d) == if d == c then None else Lookup(m, d);
    }
  }
}
