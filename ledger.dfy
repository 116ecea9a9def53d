/** Cube bookkeeping on a board, shared by the server's and the front ends'
    rules: adding cubes to a city's home colour, the key order that random
    draws index into, the number of cubes on the board, and the end-of-turn
    infection step (one cube per draw, capped at 3, an outbreak counted on
    overflow, no chaining to neighbours). */
module Ledger {
  import opened Types

  predicate Distinct<T(==)>(s: seq<T>)
  {
    forall i, j :: 0 <= i < j < |s| ==> s[i] != s[j]
  }

  function Elems<T>(s: seq<T>): set<T>
  {
    set x | x in s
  }

  /** `names` lists the keys of `cities` once each, as `Object.keys` does. */
  predicate KeyOrder(names: seq<string>, cities: Cities)
  {
    && Distinct(names)
    && (forall k :: 0 <= k < |names| ==> names[k] in cities)
    && (forall n :: n in cities ==> n in names)
  }

  /** Every draw is an index into `names` (a stand-in for
      `Math.floor(Math.random() * cityNames.length)`). */
  predicate ValidDraws(names: seq<string>, draws: seq<nat>)
  {
    forall k :: 0 <= k < |draws| ==> draws[k] < |names|
  }

  /** The cities the draws select, in draw order. */
  function Picks(names: seq<string>, draws: seq<nat>): (r: seq<string>)
    requires ValidDraws(names, draws)
    ensures |r| == |draws|
    ensures forall k :: 0 <= k < |draws| ==> r[k] == names[draws[k]]
  {
    seq(|draws|, k requires 0 <= k < |draws| => names[draws[k]])
  }

  /** A city with `n` more cubes of its home colour. */
  function AddHome(city: City, n: int): (r: City)
    ensures r.color == city.color && r.researchStation == city.researchStation
    ensures r.infections.Get(city.color) == city.infections.Get(city.color) + n
    ensures forall c :: c != city.color ==> r.infections.Get(c) == city.infections.Get(c)
    ensures r.infections.Total() == city.infections.Total() + n
  {
    city.(infections := city.infections.Set(city.color, city.infections.Get(city.color) + n))
  }

  /** The number of cubes, of every colour, on the cities listed in `names`. */
  function BoardTotal(names: seq<string>, cities: Cities): int
    requires forall k :: 0 <= k < |names| ==> names[k] in cities
  {
    if names == [] then 0
    else cities[names[0]].infections.Total() + BoardTotal(names[1..], cities)
  }

  /** Replacing one city changes the board total by the change in that city's
      own total, and by nothing when the city is not listed. */
  lemma {:induction false} BoardTotalUpdate(names: seq<string>, cities: Cities, n: string, city: City)
    requires Distinct(names)
    requires forall k :: 0 <= k < |names| ==> names[k] in cities
    requires n in cities
    ensures BoardTotal(names, cities[n := city]) ==
            BoardTotal(names, cities) + (if n in names then city.infections.Total() - cities[n].infections.Total() else 0)
  {
    if names != [] {
      assert Distinct(names[1..]);
      BoardTotalUpdate(names[1..], cities, n, city);
      assert n in names <==> n == names[0] || n in names[1..];
      assert names[0] == n ==> n !in names[1..];
    }
  }

  /** A duplicate-free sequence drawn from `u` is no longer than `u` is large. */
  lemma {:induction false} DistinctWithin<T>(s: seq<T>, u: set<T>)
    requires Distinct(s)
    requires forall k :: 0 <= k < |s| ==> s[k] in u
    ensures |s| <= |u|
  {
    if s != [] {
      var x := s[0];
      assert Distinct(s[1..]);
      forall k | 0 <= k < |s[1..]|
        ensures s[1..][k] in u - {x}
      {
        assert s[1..][k] == s[k + 1] && s[0] != s[k + 1];
      }
      DistinctWithin(s[1..], u - {x});
    }
  }

  /** What an infection step leaves: the board and the outbreaks it caused. */
  datatype Infected = Infected(cities: Cities, outbreaks: nat)

  /** One end-of-turn draw of the city `name`: nothing when its colour is in
      `eradicated`; otherwise one more cube of its home colour, and when that
      makes more than 3 the count is set back to 3 and one outbreak is
      counted. Neighbours are never touched. */
  function InfectOnce(cities: Cities, name: string, eradicated: set<Color>): Infected
    requires name in cities
  {
    var city := cities[name];
    if city.color in eradicated then Infected(cities, 0)
    else if city.infections.Get(city.color) + 1 > CUBE_CAP then
      Infected(cities[name := city.(infections := city.infections.Set(city.color, CUBE_CAP))], 1)
    else
      Infected(cities[name := AddHome(city, 1)], 0)
  }

  /** The draws `picks` applied in order. */
  function InfectAll(cities: Cities, picks: seq<string>, eradicated: set<Color>): (r: Infected)
    requires forall k :: 0 <= k < |picks| ==> picks[k] in cities
    ensures r.cities.Keys == cities.Keys
    ensures r.outbreaks <= |picks|
    decreases |picks|
  {
    if picks == [] then Infected(cities, 0)
    else
      var before := InfectAll(cities, picks[..|picks| - 1], eradicated);
      var step := InfectOnce(before.cities, picks[|picks| - 1], eradicated);
      Infected(step.cities, before.outbreaks + step.outbreaks)
  }

  /** The first `k` draws of `picks` applied in order: the state an
      infection loop has reached after `k` rounds. */
  function InfectFirst(cities: Cities, picks: seq<string>, eradicated: set<Color>, k: nat): (r: Infected)
    requires k <= |picks|
    requires forall j :: 0 <= j < |picks| ==> picks[j] in cities
    ensures r.cities.Keys == cities.Keys
    ensures r.outbreaks <= k
    decreases k
  {
    if k == 0 then Infected(cities, 0)
    else
      var before := InfectFirst(cities, picks, eradicated, k - 1);
      var step := InfectOnce(before.cities, picks[k - 1], eradicated);
      Infected(step.cities, before.outbreaks + step.outbreaks)
  }

  /** Running the first `k` draws is running the prefix of length `k`. */
  lemma {:induction false} InfectFirstPrefix(cities: Cities, picks: seq<string>, eradicated: set<Color>, k: nat)
    requires k <= |picks|
    requires forall j :: 0 <= j < |picks| ==> picks[j] in cities
    ensures InfectFirst(cities, picks, eradicated, k) == InfectAll(cities, picks[..k], eradicated)
    decreases k
  {
    if k > 0 {
      InfectFirstPrefix(cities, picks, eradicated, k - 1);
      assert picks[..k][..k - 1] == picks[..k - 1];
    }
  }

  /** What the infection step changes: only the home colour of drawn cities
      whose colour is not eradicated; every such city ends with at most 3
      cubes of it; every other city and colour is left as it was. */
  lemma {:induction false} InfectAllFrame(cities: Cities, picks: seq<string>, eradicated: set<Color>, n: string)
    requires forall k :: 0 <= k < |picks| ==> picks[k] in cities
    requires n in cities
    ensures var after := InfectAll(cities, picks, eradicated).cities[n];
            && after.color == cities[n].color
            && after.researchStation == cities[n].researchStation
            && (forall c :: c != cities[n].color ==> after.infections.Get(c) == cities[n].infections.Get(c))
            && (n !in picks || cities[n].color in eradicated ==> after == cities[n])
            && (n in picks && cities[n].color !in eradicated ==> after.infections.Get(after.color) <= CUBE_CAP)
    decreases |picks|
  {
    if picks != [] {
      var prefix := picks[..|picks| - 1];
      InfectAllFrame(cities, prefix, eradicated, n);
      assert n in picks <==> n in prefix || n == picks[|picks| - 1];
    }
  }

  /** Each draw adds at most one cube to the board, and a draw that overflows
      adds none. */
  lemma {:induction false} InfectAllTotal(names: seq<string>, cities: Cities, picks: seq<string>, eradicated: set<Color>)
    requires KeyOrder(names, cities)
    requires forall k :: 0 <= k < |picks| ==> picks[k] in cities
    ensures var r := InfectAll(cities, picks, eradicated);
            BoardTotal(names, r.cities) <= BoardTotal(names, cities) + |picks| - r.outbreaks
    decreases |picks|
  {
    if picks != [] {
      var prefix := picks[..|picks| - 1];
      var name := picks[|picks| - 1];
      InfectAllTotal(names, cities, prefix, eradicated);
      var before := InfectAll(cities, prefix, eradicated);
      var city := before.cities[name];
      if city.color !in eradicated {
        var capped := city.(infections := city.infections.Set(city.color, CUBE_CAP));
        var grown := AddHome(city, 1);
        var updated := if city.infections.Get(city.color) + 1 > CUBE_CAP then capped else grown;
        BoardTotalUpdate(names, before.cities, name, updated);
        assert capped.infections.Total() == city.infections.Total() - city.infections.Get(city.color) + CUBE_CAP by {
          match city.color
          case Red =>
          case Blue =>
          case Yellow =>
          case Black =>
        }
      }
    }
  }
}
