/** Chain-outbreak propagation (`processOutbreak` in
    client/src/utils/gameLogic.ts). An outbreak at a city adds that city to
    the shared chain set and gives each neighbour one cube of the outbreak
    colour, one per route entry that touches the city. A neighbour that then
    holds more than 3 and is not yet in the chain is set back to 3 and breaks
    out in turn, before the remaining neighbours are served. A neighbour that
    is already in the chain keeps its extra cube and is not capped.

    The source mutates the shared chain set and returns a fresh board; here
    both are returned, together with `trace`, the cities that broke out in
    the order they did. The source does not return the trace; it is recorded
    so that the number of outbreaks can be stated. */
module OutbreakChain {
  import opened Types
  import opened Ledger
  import opened GameLogic

  datatype Propagation = Propagation(cities: Cities, chain: set<string>, trace: seq<string>)

  /** Every city named by some route. */
  function Endpoints(connections: seq<Connection>): set<string>
  {
    if connections == [] then {}
    else {connections[0].0, connections[0].1} + Endpoints(connections[1..])
  }

  /** Every route ends at a city of the board. The source throws only when a
      city that breaks out has a route to a city not on the board (it reads
      the counts of `undefined`); this predicate also rules out route lists
      whose off-board routes are never read. The game's own route list
      meets it. */
  predicate OnBoard(connections: seq<Connection>, cities: Cities)
  {
    Endpoints(connections) <= cities.Keys
  }

  /** The neighbours of `city`, as the source's filter and map list them: one
      entry per route touching `city`, in route order, naming its other end. */
  function Neighbors(city: string, connections: seq<Connection>): (ns: seq<string>)
    ensures forall k :: 0 <= k < |ns| ==> ns[k] in Endpoints(connections)
  {
    if connections == [] then []
    else
      var conn := connections[0];
      var rest := Neighbors(city, connections[1..]);
      if conn.0 == city then [conn.1] + rest
      else if conn.1 == city then [conn.0] + rest
      else rest
  }

  /** The cities an outbreak reaches are exactly those the adjacency test
      accepts. */
  lemma {:induction false} NeighborsAreConnected(city: string, n: string, connections: seq<Connection>)
    ensures n in Neighbors(city, connections) <==> Connected(city, n, connections)
  {
    if connections != [] {
      NeighborsAreConnected(city, n, connections[1..]);
      var conn := connections[0];
      if Connected(city, n, connections) && !Connected(city, n, connections[1..]) {
        assert conn == (city, n) || conn == (n, city);
      }
      if Connected(city, n, connections[1..]) {
        var i :| 0 <= i < |connections[1..]| && (connections[1..][i] == (city, n) || connections[1..][i] == (n, city));
        assert connections[i + 1] == connections[1..][i];
      }
    }
  }

  function Occurrences(s: seq<string>, x: string): nat
  {
    if s == [] then 0 else (if s[0] == x then 1 else 0) + Occurrences(s[1..], x)
  }

  /** The route entries between `a` and `b`, in either direction; a
      self-route `(a, a)` counts once. */
  function RoutesBetween(a: string, b: string, connections: seq<Connection>): nat
  {
    if connections == [] then 0
    else (if connections[0] == (a, b) || connections[0] == (b, a) then 1 else 0) + RoutesBetween(a, b, connections[1..])
  }

  /** An outbreak at `city` lists `n` once per route entry between them, so
      a duplicated route delivers one cube per copy. */
  lemma {:induction false} NeighborOccurrences(city: string, n: string, connections: seq<Connection>)
    ensures Occurrences(Neighbors(city, connections), n) == RoutesBetween(city, n, connections)
  {
    if connections != [] {
      NeighborOccurrences(city, n, connections[1..]);
      var conn := connections[0];
      var rest := Neighbors(city, connections[1..]);
      if conn.0 == city {
        assert ([conn.1] + rest)[1..] == rest;
      } else if conn.1 == city {
        assert ([conn.0] + rest)[1..] == rest;
      }
    }
  }

  /** The cubes that the outbreaks of `trace` hand to `n`: one per route
      entry between an outbreaking city and `n`. */
  function Delivered(trace: seq<string>, n: string, connections: seq<Connection>): nat
  {
    if trace == [] then 0
    else Occurrences(Neighbors(trace[0], connections), n) + Delivered(trace[1..], n, connections)
  }

  lemma {:induction false} DeliveredAppend(a: seq<string>, b: seq<string>, n: string, connections: seq<Connection>)
    ensures Delivered(a + b, n, connections) == Delivered(a, n, connections) + Delivered(b, n, connections)
  {
    if a == [] {
      assert a + b == b;
    } else {
      assert (a + b)[1..] == a[1..] + b;
      DeliveredAppend(a[1..], b, n, connections);
    }
  }

  function Cubes(cities: Cities, n: string, color: Color): int
    requires n in cities
  {
    cities[n].infections.Get(color)
  }

  /** `city` with its `color` count blanked: two cities that agree once
      masked differ at most in that count. */
  function Masked(city: City, color: Color): City
  {
    city.(infections := city.infections.Set(color, 0))
  }

  /** `cities` with the `color` count of `n` set to `v`. */
  function WithCubes(cities: Cities, n: string, color: Color, v: int): (r: Cities)
    requires n in cities
    ensures OnlyColorChanged(cities, r, color)
    ensures Cubes(r, n, color) == v
    ensures forall m :: m in cities && m != n ==> r[m] == cities[m]
  {
    var r := cities[n := cities[n].(infections := cities[n].infections.Set(color, v))];
    SetTwice(cities[n].infections, color, v);
    r
  }

  lemma SetTwice(x: Infections, c: Color, v: int)
    ensures x.Set(c, v).Set(c, 0) == x.Set(c, 0)
  {
    match c
    case Red =>
    case Blue =>
    case Yellow =>
    case Black =>
  }

  /** `after` differs from `before` at most in the `color` count of each city. */
  ghost predicate OnlyColorChanged(before: Cities, after: Cities, color: Color)
  {
    && after.Keys == before.Keys
    && forall n :: n in before ==> Masked(after[n], color) == Masked(before[n], color)
  }

  lemma {:induction false} DistinctConcat(a: seq<string>, b: seq<string>, fence: set<string>)
    requires Distinct(a) && Distinct(b)
    requires forall x :: x in a ==> x in fence
    requires forall x :: x in b ==> x !in fence
    ensures Distinct(a + b)
  {
    forall i, j | 0 <= i < j < |a + b|
      ensures (a + b)[i] != (a + b)[j]
    {
      if j < |a| {
        assert (a + b)[i] == a[i] && (a + b)[j] == a[j];
      } else if i < |a| {
        assert (a + b)[i] == a[i] && (a + b)[j] == b[j - |a|];
        assert a[i] in a && b[j - |a|] in b;
      } else {
        assert (a + b)[i] == b[i - |a|] && (a + b)[j] == b[j - |a|];
      }
    }
  }

  /** An outbreak of `color` at `city` (the caller has already capped it). */
  function ProcessOutbreak(city: string, color: Color, cities: Cities, connections: seq<Connection>, chain: set<string>): (r: Propagation)
    requires OnBoard(connections, cities)
    ensures OnlyColorChanged(cities, r.cities, color)
    ensures |r.trace| >= 1 && r.trace[0] == city && Distinct(r.trace)
    ensures forall x :: x in r.trace[1..] ==> x !in chain + {city} && x in Endpoints(connections)
    ensures r.chain == chain + Elems(r.trace)
    decreases Endpoints(connections) - (chain + {city}), 1
  {
    var s := SpreadTo(Neighbors(city, connections), color, cities, connections, chain + {city});
    DistinctConcat([city], s.trace, chain + {city});
    assert ([city] + s.trace)[1..] == s.trace;
    Propagation(s.cities, s.chain, [city] + s.trace)
  }

  /** Serves the neighbours `ns` in order, as the source's `forEach` does. */
  function SpreadTo(ns: seq<string>, color: Color, cities: Cities, connections: seq<Connection>, chain: set<string>): (r: Propagation)
    requires OnBoard(connections, cities)
    requires forall k :: 0 <= k < |ns| ==> ns[k] in Endpoints(connections)
    ensures OnlyColorChanged(cities, r.cities, color)
    ensures Distinct(r.trace)
    ensures forall x :: x in r.trace ==> x !in chain && x in Endpoints(connections)
    ensures r.chain == chain + Elems(r.trace)
    decreases Endpoints(connections) - chain, 0, |ns|
  {
    if ns == [] then Propagation(cities, chain, [])
    else
      var n := ns[0];
      var bumped := Cubes(cities, n, color) + 1;
      if bumped > CUBE_CAP && n !in chain then
        var o := ProcessOutbreak(n, color, WithCubes(cities, n, color, CUBE_CAP), connections, chain);
        var rest := SpreadTo(ns[1..], color, o.cities, connections, o.chain);
        JoinTraces(chain, Endpoints(connections), o, rest);
        ColorChangeTrans(cities, WithCubes(cities, n, color, CUBE_CAP), o.cities, color);
        ColorChangeTrans(cities, o.cities, rest.cities, color);
        Propagation(rest.cities, rest.chain, o.trace + rest.trace)
      else
        var r := SpreadTo(ns[1..], color, WithCubes(cities, n, color, bumped), connections, chain);
        ColorChangeTrans(cities, WithCubes(cities, n, color, bumped), r.cities, color);
        r
  }

  /** Chaining an outbreak trace `o` with the trace `rest` of the neighbours
      served after it keeps the traces' invariants. */
  lemma JoinTraces(chain: set<string>, endpoints: set<string>, o: Propagation, rest: Propagation)
    requires |o.trace| >= 1 && o.trace[0] !in chain && o.trace[0] in endpoints && Distinct(o.trace)
    requires forall x :: x in o.trace[1..] ==> x !in chain + {o.trace[0]} && x in endpoints
    requires o.chain == chain + Elems(o.trace)
    requires Distinct(rest.trace)
    requires forall x :: x in rest.trace ==> x !in o.chain && x in endpoints
    requires rest.chain == o.chain + Elems(rest.trace)
    ensures Distinct(o.trace + rest.trace)
    ensures forall x :: x in o.trace + rest.trace ==> x !in chain && x in endpoints
    ensures rest.chain == chain + Elems(o.trace + rest.trace)
  {
    forall x | x in o.trace
      ensures x in o.chain && x !in chain && x in endpoints
    {
      assert o.trace == [o.trace[0]] + o.trace[1..];
    }
    DistinctConcat(o.trace, rest.trace, o.chain);
    assert Elems(o.trace + rest.trace) == Elems(o.trace) + Elems(rest.trace);
  }

  lemma ColorChangeTrans(a: Cities, b: Cities, c: Cities, color: Color)
    requires OnlyColorChanged(a, b, color) && OnlyColorChanged(b, c, color)
    ensures OnlyColorChanged(a, c, color)
  {
  }

  /** A count held to at most 3. */
  function Capped(x: int): (r: int)
    ensures r <= CUBE_CAP && r <= x && (r == x || r == CUBE_CAP)
  {
    if x < CUBE_CAP then x else CUBE_CAP
  }

  /** What an outbreak does to the `color` count of each city `n`, where
      `Delivered` counts one cube per route entry between `n` and each
      outbreaking city:
      - a city that does not break out recursively (this includes `city`
        itself, which the caller has capped) ends with its count plus every
        cube delivered, so duplicate entries deliver twice and a city already
        in the chain is never capped (it can end above 3);
      - a city breaks out recursively only when it was delivered a cube that
        took it past 3; the cube that did so is discarded as the count is
        set back to 3, and every later cube is kept, so it ends with its
        count (at most 3) plus the cubes delivered, minus one;
      - a city outside the final chain that received any cube ends with at
        most 3, so it never went past 3. */
  lemma {:induction false} OutbreakCubes(city: string, color: Color, cities: Cities, connections: seq<Connection>, chain: set<string>, n: string)
    requires OnBoard(connections, cities)
    requires n in cities
    ensures var r := ProcessOutbreak(city, color, cities, connections, chain);
            && (n !in r.trace[1..] ==> Cubes(r.cities, n, color) == Cubes(cities, n, color) + Delivered(r.trace, n, connections))
            && (n in r.trace[1..] ==>
                  && Delivered(r.trace, n, connections) > 0
                  && Cubes(cities, n, color) + Delivered(r.trace, n, connections) > CUBE_CAP
                  && Cubes(r.cities, n, color) == Capped(Cubes(cities, n, color)) + Delivered(r.trace, n, connections) - 1)
            && (n !in r.chain && Delivered(r.trace, n, connections) > 0 ==> Cubes(r.cities, n, color) <= CUBE_CAP)
    decreases Endpoints(connections) - (chain + {city}), 1, 0, 0
  {
    var ns := Neighbors(city, connections);
    var s := SpreadTo(ns, color, cities, connections, chain + {city});
    SpreadCubes(ns, color, cities, connections, chain + {city}, n);
    var r := ProcessOutbreak(city, color, cities, connections, chain);
    assert r.trace == [city] + s.trace && r.trace[1..] == s.trace;
    assert Delivered(r.trace, n, connections) == Occurrences(ns, n) + Delivered(s.trace, n, connections);
  }

  /** Which cities an outbreak makes break out: a city outside the chain,
      other than `city`, breaks out exactly when cubes were delivered to it
      and they take its count past 3. */
  lemma BreaksOut(city: string, color: Color, cities: Cities, connections: seq<Connection>, chain: set<string>, n: string)
    requires OnBoard(connections, cities)
    requires n in cities && n !in chain && n != city
    ensures var r := ProcessOutbreak(city, color, cities, connections, chain);
            n in r.trace[1..] <==>
              Delivered(r.trace, n, connections) > 0 && Cubes(cities, n, color) + Delivered(r.trace, n, connections) > CUBE_CAP
  {
    OutbreakCubes(city, color, cities, connections, chain, n);
    var r := ProcessOutbreak(city, color, cities, connections, chain);
    assert r.trace == [city] + r.trace[1..];
    assert n in r.chain <==> n in r.trace[1..];
  }

  /** The account `SpreadCubes` gives of the city `n` after serving
      neighbours that hand `n` the cubes `given` directly. */
  ghost predicate Account(r: Propagation, before: Cities, given: nat, color: Color, connections: seq<Connection>, n: string)
    requires n in before
  {
    && n in r.cities
    && (n !in r.trace ==> Cubes(r.cities, n, color) == Cubes(before, n, color) + given + Delivered(r.trace, n, connections))
    && (n in r.trace ==>
          && given + Delivered(r.trace, n, connections) > 0
          && Cubes(before, n, color) + given + Delivered(r.trace, n, connections) > CUBE_CAP
          && Cubes(r.cities, n, color) == Capped(Cubes(before, n, color)) + given + Delivered(r.trace, n, connections) - 1)
    && (n !in r.chain && given + Delivered(r.trace, n, connections) > 0 ==> Cubes(r.cities, n, color) <= CUBE_CAP)
  }

  /** The same account for serving the neighbours `ns`, counting the cubes
      that `ns` itself hands out. */
  lemma {:induction false} SpreadCubes(ns: seq<string>, color: Color, cities: Cities, connections: seq<Connection>, chain: set<string>, n: string)
    requires OnBoard(connections, cities)
    requires forall k :: 0 <= k < |ns| ==> ns[k] in Endpoints(connections)
    requires n in cities
    ensures Account(SpreadTo(ns, color, cities, connections, chain), cities, Occurrences(ns, n), color, connections, n)
    decreases Endpoints(connections) - chain, 0, |ns|, 1
  {
    if ns != [] {
      if Cubes(cities, ns[0], color) + 1 > CUBE_CAP && ns[0] !in chain {
        SpreadCubesOutbreak(ns, color, cities, connections, chain, n);
      } else {
        // Statement-level variables for these terms make the solver's work
        // far larger, so they are written out.
        GrowStep(ns, color, cities, connections, chain);
        SpreadCubes(ns[1..], color, Grown(ns, color, cities), connections, chain, n);
        assert Occurrences(ns, n) == (if n == ns[0] then 1 else 0) + Occurrences(ns[1..], n);
        AccountShift(SpreadTo(ns[1..], color, Grown(ns, color, cities), connections, chain), Grown(ns, color, cities),
          cities, Occurrences(ns[1..], n), if n == ns[0] then 1 else 0, color, connections, n);
      }
    }
  }

  /** Moving one directly given cube from the starting board into `given`:
      the step `SpreadCubes` takes when the first neighbour keeps its cube. */
  lemma AccountShift(r: Propagation, grown: Cities, cities: Cities, given: nat, own: nat, color: Color, connections: seq<Connection>, n: string)
    requires n in grown && n in cities
    requires Account(r, grown, given, color, connections, n)
    requires Cubes(grown, n, color) == Cubes(cities, n, color) + own
    requires own > 0 && (n !in r.chain || n in r.trace) ==> Cubes(grown, n, color) <= CUBE_CAP
    requires n !in r.chain ==> n !in r.trace
    ensures Account(r, cities, own + given, color, connections, n)
  {
  }

  /** The board after the first neighbour of `ns` takes one cube. */
  function Grown(ns: seq<string>, color: Color, cities: Cities): (r: Cities)
    requires ns != [] && ns[0] in cities
    ensures OnlyColorChanged(cities, r, color)
    ensures Cubes(r, ns[0], color) == Cubes(cities, ns[0], color) + 1
    ensures forall m :: m in cities && m != ns[0] ==> r[m] == cities[m]
  {
    WithCubes(cities, ns[0], color, Cubes(cities, ns[0], color) + 1)
  }

  lemma GrowStep(ns: seq<string>, color: Color, cities: Cities, connections: seq<Connection>, chain: set<string>)
    requires OnBoard(connections, cities)
    requires forall k :: 0 <= k < |ns| ==> ns[k] in Endpoints(connections)
    requires ns != [] && !(Cubes(cities, ns[0], color) + 1 > CUBE_CAP && ns[0] !in chain)
    ensures SpreadTo(ns, color, cities, connections, chain) == SpreadTo(ns[1..], color, Grown(ns, color, cities), connections, chain)
  {
  }

  lemma OutbreakStep(ns: seq<string>, color: Color, cities: Cities, connections: seq<Connection>, chain: set<string>)
    requires OnBoard(connections, cities)
    requires forall k :: 0 <= k < |ns| ==> ns[k] in Endpoints(connections)
    requires ns != [] && Cubes(cities, ns[0], color) + 1 > CUBE_CAP && ns[0] !in chain
    ensures var o := ProcessOutbreak(ns[0], color, WithCubes(cities, ns[0], color, CUBE_CAP), connections, chain);
            var rest := SpreadTo(ns[1..], color, o.cities, connections, o.chain);
            SpreadTo(ns, color, cities, connections, chain) == Propagation(rest.cities, rest.chain, o.trace + rest.trace)
  {
  }

  /** `SpreadCubes` when the first neighbour breaks out. */
  lemma {:induction false} SpreadCubesOutbreak(ns: seq<string>, color: Color, cities: Cities, connections: seq<Connection>, chain: set<string>, n: string)
    requires OnBoard(connections, cities)
    requires forall k :: 0 <= k < |ns| ==> ns[k] in Endpoints(connections)
    requires n in cities
    requires ns != [] && Cubes(cities, ns[0], color) + 1 > CUBE_CAP && ns[0] !in chain
    ensures Account(SpreadTo(ns, color, cities, connections, chain), cities, Occurrences(ns, n), color, connections, n)
    decreases Endpoints(connections) - chain, 0, |ns|, 0
  {
    var m := ns[0];
    var capped := WithCubes(cities, m, color, CUBE_CAP);
    var o := ProcessOutbreak(m, color, capped, connections, chain);
    var rest := SpreadTo(ns[1..], color, o.cities, connections, o.chain);
    OutbreakStep(ns, color, cities, connections, chain);
    OutbreakCubes(m, color, capped, connections, chain, n);
    SpreadCubes(ns[1..], color, o.cities, connections, o.chain, n);
    assert Occurrences(ns, n) == (if n == m then 1 else 0) + Occurrences(ns[1..], n);
    JoinAccounts(cities, capped, o, rest, m, chain, Occurrences(ns[1..], n), color, connections, n);
  }

  /** The account of `SpreadCubesOutbreak`, put together from that of the
      outbreak at the first neighbour `m` (capped from `cities` to give
      `capped`) and that of the neighbours served after it. */
  lemma JoinAccounts(cities: Cities, capped: Cities, o: Propagation, rest: Propagation, m: string, chain: set<string>,
                     given: nat, color: Color, connections: seq<Connection>, n: string)
    requires n in cities && n in capped
    requires Cubes(capped, n, color) == if n == m then CUBE_CAP else Cubes(cities, n, color)
    requires n == m ==> Cubes(cities, n, color) + 1 > CUBE_CAP
    requires |o.trace| >= 1 && o.trace[0] == m && m !in chain
    requires forall x :: x in o.trace[1..] ==> x !in chain + {m}
    requires o.chain == chain + Elems(o.trace)
    requires n in o.cities
    requires n !in o.trace[1..] ==> Cubes(o.cities, n, color) == Cubes(capped, n, color) + Delivered(o.trace, n, connections)
    requires n in o.trace[1..] ==>
               && Delivered(o.trace, n, connections) > 0
               && Cubes(capped, n, color) + Delivered(o.trace, n, connections) > CUBE_CAP
               && Cubes(o.cities, n, color) == Capped(Cubes(capped, n, color)) + Delivered(o.trace, n, connections) - 1
    requires n !in o.chain && Delivered(o.trace, n, connections) > 0 ==> Cubes(o.cities, n, color) <= CUBE_CAP
    requires forall x :: x in rest.trace ==> x !in o.chain
    requires rest.chain == o.chain + Elems(rest.trace)
    requires Account(rest, o.cities, given, color, connections, n)
    ensures Account(Propagation(rest.cities, rest.chain, o.trace + rest.trace), cities,
                    (if n == m then 1 else 0) + given, color, connections, n)
  {
    DeliveredAppend(o.trace, rest.trace, n, connections);
    assert o.trace == [m] + o.trace[1..];
    assert n in o.trace + rest.trace <==> n == m || n in o.trace[1..] || n in rest.trace;
    assert m in o.chain;
    if n == m {
      assert n !in o.trace[1..] && n !in rest.trace;
    } else if n in o.trace[1..] {
      assert n in o.chain && n !in rest.trace;
    }
  }

  /** Every recursive outbreak is at a city new to the chain, so each city
      breaks out at most once per top-level call: the number of outbreaks is
      at most one more than the number of route endpoints not yet in the
      chain, and when the outbreak city was not in the chain it is exactly
      the growth of the chain. */
  lemma OutbreakCount(city: string, color: Color, cities: Cities, connections: seq<Connection>, chain: set<string>)
    requires OnBoard(connections, cities)
    ensures var r := ProcessOutbreak(city, color, cities, connections, chain);
            && |r.trace| <= |Endpoints(connections) - chain| + 1
            && (city !in chain ==> |r.chain| == |chain| + |r.trace|)
  {
    var r := ProcessOutbreak(city, color, cities, connections, chain);
    var later := r.trace[1..];
    assert Distinct(later);
    forall k | 0 <= k < |later|
      ensures later[k] in Endpoints(connections) - chain
    {
      assert later[k] in later;
    }
    DistinctWithin(later, Endpoints(connections) - chain);
    if city !in chain {
      DistinctElems(r.trace);
      assert Elems(r.trace) * chain == {};
    }
  }

  /** An outbreak at a city outside the chain breaks out at most the cities
      (it and the route endpoints) outside the chain; for a board city, at
      most the board's cities outside the chain, so at most the number of
      cities when the chain starts empty. */
  lemma OutbreaksWithinBoard(city: string, color: Color, cities: Cities, connections: seq<Connection>, chain: set<string>)
    requires OnBoard(connections, cities) && city !in chain
    ensures |ProcessOutbreak(city, color, cities, connections, chain).trace| <= |(Endpoints(connections) + {city}) - chain|
    ensures city in cities ==> |ProcessOutbreak(city, color, cities, connections, chain).trace| <= |cities.Keys - chain|
  {
    var r := ProcessOutbreak(city, color, cities, connections, chain);
    TraceWithin(r.trace, Endpoints(connections) - chain, (Endpoints(connections) + {city}) - chain);
    if city in cities {
      TraceWithin(r.trace, Endpoints(connections) - chain, cities.Keys - chain);
    }
  }

  /** A duplicate-free trace whose first city lies in `u` and whose later
      cities lie in `later`, a subset of `u`, is no longer than `u` is large. */
  lemma TraceWithin(trace: seq<string>, later: set<string>, u: set<string>)
    requires Distinct(trace) && |trace| >= 1 && trace[0] in u && later <= u
    requires forall k :: 0 <= k < |trace[1..]| ==> trace[1..][k] in later
    ensures |trace| <= |u|
  {
    forall k | 0 <= k < |trace|
      ensures trace[k] in u
    {
      if k > 0 {
        assert trace[k] == trace[1..][k - 1];
      }
    }
    DistinctWithin(trace, u);
  }

  lemma {:induction false} DistinctElems(s: seq<string>)
    requires Distinct(s)
    ensures |Elems(s)| == |s|
  {
    if s != [] {
      assert Distinct(s[1..]);
      DistinctElems(s[1..]);
      assert Elems(s) == {s[0]} + Elems(s[1..]);
      assert s[0] !in Elems(s[1..]);
    }
  }

  /** Two cities joined by one route. */
  const PAIR: seq<Connection> := [("A", "B")]

  /** The two cities, both red, holding `a` and `b` red cubes. */
  function PairBoard(a: int, b: int): (r: Cities)
    ensures r.Keys == {"A", "B"}
  {
    map["A" := City(Red, Infections(a, 0, 0, 0), false), "B" := City(Red, Infections(b, 0, 0, 0), false)]
  }

  /** The second outbreak of `PairChain`: B breaks out with A already in the
      chain, so A takes a fourth cube and does not break out again. */
  lemma PairSecondOutbreak()
    ensures OnBoard(PAIR, PairBoard(3, 3))
    ensures ProcessOutbreak("B", Red, PairBoard(3, 3), PAIR, {"A"}) == Propagation(PairBoard(4, 3), {"A", "B"}, ["B"])
  {
    assert Endpoints(PAIR) == {"A", "B"};
    assert Neighbors("B", PAIR) == ["A"];
    assert {"A"} + {"B"} == {"A", "B"};
    assert WithCubes(PairBoard(3, 3), "A", Red, 4) == PairBoard(4, 3);
    assert SpreadTo(["A"], Red, PairBoard(3, 3), PAIR, {"A", "B"}) == Propagation(PairBoard(4, 3), {"A", "B"}, []);
  }

  /** An outbreak on a cycle stops: with both cities at 3, an outbreak at A
      makes B break out once, and A ends with 4 cubes because a city already
      in the chain is not capped. */
  lemma PairChain()
    ensures OnBoard(PAIR, PairBoard(3, 3))
    ensures ProcessOutbreak("A", Red, PairBoard(3, 3), PAIR, {}) == Propagation(PairBoard(4, 3), {"A", "B"}, ["A", "B"])
  {
    PairSecondOutbreak();
    assert Neighbors("A", PAIR) == ["B"];
    assert {} + {"A"} == {"A"};
    assert WithCubes(PairBoard(3, 3), "B", Red, 3) == PairBoard(3, 3);
    assert SpreadTo(["B"], Red, PairBoard(3, 3), PAIR, {"A"}) == Propagation(PairBoard(4, 3), {"A", "B"}, ["B"]);
  }

  /** A route listed twice delivers two cubes: an outbreak at A with the
      route A-B entered twice leaves B, which held none, with 2. */
  lemma DuplicateRoute()
    ensures OnBoard([("A", "B"), ("A", "B")], PairBoard(3, 0))
    ensures ProcessOutbreak("A", Red, PairBoard(3, 0), [("A", "B"), ("A", "B")], {}) == Propagation(PairBoard(3, 2), {"A"}, ["A"])
  {
    var routes := [("A", "B"), ("A", "B")];
    assert Endpoints(routes) == {"A", "B"};
    assert Neighbors("A", routes) == ["B", "B"];
    assert {} + {"A"} == {"A"};
    assert WithCubes(PairBoard(3, 0), "B", Red, 1) == PairBoard(3, 1);
    assert WithCubes(PairBoard(3, 1), "B", Red, 2) == PairBoard(3, 2);
    assert SpreadTo(["B"], Red, PairBoard(3, 1), routes, {"A"}) == Propagation(PairBoard(3, 2), {"A"}, []);
  }
}
