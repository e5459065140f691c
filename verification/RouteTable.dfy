/** The two-level routing table of a driver: one row per port, one cell per id, grown on demand. */
module RouteTable {
  import opened Fleet

  function Lookup<T>(routes: seq<seq<Option<T>>>, port: nat, id: nat): Option<T> {
    if port < |routes| && id < |routes[port]| then routes[port][id] else None
  }

  function Grown<T>(s: seq<T>, n: nat, fill: T): (g: seq<T>)
    ensures |g| == if |s| < n then n else |s|
    ensures forall i :: 0 <= i < |g| ==> g[i] == if i < |s| then s[i] else fill
  {
    if |s| < n then s + seq(n - |s|, _ => fill) else s
  }

  function Bound<T>(routes: seq<seq<Option<T>>>, port: nat, id: nat, device: T): seq<seq<Option<T>>> {
    var rows := Grown(routes, port + 1, []);
    rows[port := Grown(rows[port], id + 1, None)[id := Some(device)]]
  }

  datatype Bind<T> = Bind(port: nat, id: nat, device: T)

  function Table<T>(binds: seq<Bind<T>>): seq<seq<Option<T>>> {
    if binds == [] then []
    else
      var last := binds[|binds| - 1];
      Bound(Table(binds[..|binds| - 1]), last.port, last.id, last.device)
  }

  /** A plain map from addresses to devices. */
  function AddressMap<T>(binds: seq<Bind<T>>): map<(nat, nat), T> {
    if binds == [] then map[]
    else
      var last := binds[|binds| - 1];
      AddressMap(binds[..|binds| - 1])[(last.port, last.id) := last.device]
  }

  /** Binding changes the looked-up device at one address only, whatever growing it takes. */
  lemma BoundLookup<T>(routes: seq<seq<Option<T>>>, port: nat, id: nat, device: T, p: nat, i: nat)
    ensures Lookup(Bound(routes, port, id, device), p, i) ==
            if p == port && i == id then Some(device) else Lookup(routes, p, i)
  {
  }

  /** After any binds, at any address, the growing table and the map give the same answer. */
  lemma {:induction false} TableIsMap<T>(binds: seq<Bind<T>>, p: nat, i: nat)
    ensures Lookup(Table(binds), p, i) ==
            var m := AddressMap(binds);
            if (p, i) in m then Some(m[(p, i)]) else None
    decreases |binds|
  {
    hide Lookup, Bound;
    if binds == [] {
      NothingBound<T>(p, i);
    } else {
      var last := binds[|binds| - 1];
      TableIsMap(binds[..|binds| - 1], p, i);
      BoundLookup(Table(binds[..|binds| - 1]), last.port, last.id, last.device, p, i);
    }
  }

  lemma NothingBound<T>(p: nat, i: nat)
    ensures Lookup<T>([], p, i) == None
  {
  }
}
