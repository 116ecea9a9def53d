/** Board utilities of the client: the adjacency test, the win test and the
    random seeding of distinct cities (client/src/utils/gameLogic.ts). The
    chain-outbreak propagation of the same file is module OutbreakChain. */
module GameLogic {
  import opened Types
  import opened Ledger

  /** Whether some route joins `a` and `b`, in either orientation. The route
      list is searched front to back, as `some` does. */
  function Connected(a: string, b: string, connections: seq<Connection>): (r: bool)
    ensures r <==> exists i :: 0 <= i < |connections| && (connections[i] == (a, b) || connections[i] == (b, a))
  {
    if connections == [] then false
    else
      var conn := connections[0];
      (conn.0 == a && conn.1 == b) || (conn.0 == b && conn.1 == a) || Connected(a, b, connections[1..])
  }

  /** The test does not depend on the order of its two cities. */
  lemma ConnectedSymmetric(a: string, b: string, connections: seq<Connection>)
    ensures Connected(a, b, connections) == Connected(b, a, connections)
  {
  }

  /** A city is connected to itself only through a route from it to itself. */
  lemma {:induction false} ConnectedIrreflexiveWithoutLoops(a: string, connections: seq<Connection>)
    requires forall i :: 0 <= i < |connections| ==> connections[i].0 != connections[i].1
    ensures !Connected(a, a, connections)
  {
  }

  /** The win test: every disease record has `cured` set. */
  function AllCured(diseases: Diseases): (r: bool)
    ensures r <==> forall c :: diseases.Get(c).cured
  {
    diseases.Get(Red).cured && diseases.Get(Blue).cured && diseases.Get(Yellow).cured && diseases.Get(Black).cured
  }

  /** Curing a colour never uncures another, so the win test is monotone. */
  lemma CureKeepsOthers(diseases: Diseases, c: Color)
    ensures var after := diseases.Set(c, diseases.Get(c).(cured := true));
            && after.Get(c).cured
            && (AllCured(diseases) ==> AllCured(after))
            && (AllCured(after) <==> forall d :: d != c ==> diseases.Get(d).cured)
  {
  }

  /** `updated` is `cities` with `cubes` more home cubes on each city of
      `picked` (cities of the board) and every other city unchanged, so its
      board total is larger by `cubes` per pick. */
  ghost predicate SeededFrom(names: seq<string>, updated: Cities, cities: Cities, picked: seq<string>, cubes: int)
    requires KeyOrder(names, cities)
  {
    && updated.Keys == cities.Keys
    && (forall k :: 0 <= k < |picked| ==> picked[k] in cities)
    && (forall n :: n in cities ==> updated[n] == if n in picked then AddHome(cities[n], cubes) else cities[n])
    && BoardTotal(names, updated) == BoardTotal(names, cities) + |picked| * cubes
  }

  /** Seeding one more city not picked before. */
  lemma SeededStep(names: seq<string>, updated: Cities, cities: Cities, picked: seq<string>, cubes: int, x: string)
    requires KeyOrder(names, cities)
    requires SeededFrom(names, updated, cities, picked, cubes)
    requires Distinct(picked) && x in cities && x !in picked
    ensures SeededFrom(names, updated[x := AddHome(updated[x], cubes)], cities, picked + [x], cubes)
    ensures Distinct(picked + [x])
  {
    forall n | n in cities
      ensures n in picked + [x] <==> n in picked || n == x
    {
    }
    BoardTotalUpdate(names, updated, x, AddHome(updated[x], cubes));
    assert (|picked| + 1) * cubes == |picked| * cubes + cubes;
  }

  /** The distinct cities among the first `d` draws `picks`, each where it
      first appears: what a loop that redraws repeats has picked after using
      `d` draws. */
  function FreshUpTo(picks: seq<string>, d: nat): (r: seq<string>)
    requires d <= |picks|
    ensures Distinct(r)
    decreases d
  {
    if d == 0 then []
    else
      var before := FreshUpTo(picks, d - 1);
      if picks[d - 1] in before then before else before + [picks[d - 1]]
  }

  /** The distinct cities of `picks`, in order of first appearance. */
  function Fresh(picks: seq<string>): seq<string>
  {
    FreshUpTo(picks, |picks|)
  }

  /** The cities picked are exactly the cities drawn, each once. */
  lemma {:induction false} FreshElems(picks: seq<string>, d: nat)
    requires d <= |picks|
    ensures Elems(FreshUpTo(picks, d)) == Elems(picks[..d])
    ensures |FreshUpTo(picks, d)| == |Elems(picks[..d])|
    decreases d
  {
    if d > 0 {
      FreshElems(picks, d - 1);
      assert picks[..d] == picks[..d - 1] + [picks[d - 1]];
      assert Elems(picks[..d]) == Elems(picks[..d - 1]) + {picks[d - 1]};
      var before := FreshUpTo(picks, d - 1);
      if picks[d - 1] !in before {
        assert Elems(before + [picks[d - 1]]) == Elems(before) + {picks[d - 1]};
      }
    }
  }

  /** Using more draws only appends to the cities picked so far. */
  lemma {:induction false} FreshGrows(picks: seq<string>, d: nat, e: nat)
    requires d <= e <= |picks|
    ensures FreshUpTo(picks, d) <= FreshUpTo(picks, e)
    decreases e
  {
    if d < e {
      FreshGrows(picks, d, e - 1);
    }
  }

  /** The `do { … } while (infectedCities.includes(randomCity))` of
      `infectCities`: draws from draw number `d` on until a city not in
      `infected` comes up, and returns it with the number of draws used so
      far; `None` when the draws run out first. */
  method DrawFresh(names: seq<string>, draws: seq<nat>, d: nat, infected: seq<string>)
    returns (drawn: Option<string>, next: nat)
    requires ValidDraws(names, draws)
    requires d <= |draws| && infected == FreshUpTo(Picks(names, draws), d)
    ensures d <= next <= |draws|
    ensures drawn.None? ==> Fresh(Picks(names, draws)) == infected
    ensures drawn.Some? ==>
              && d < next && drawn.value == Picks(names, draws)[next - 1]
              && drawn.value !in infected
              && FreshUpTo(Picks(names, draws), next) == infected + [drawn.value]
  {
    ghost var picks := Picks(names, draws);
    next := d;
    while next < |draws|
      invariant d <= next <= |draws|
      invariant infected == FreshUpTo(picks, next)
    {
      var randomCity := names[draws[next]];
      next := next + 1;
      assert randomCity == picks[next - 1];
      assert FreshUpTo(picks, next) == if randomCity in infected then infected else infected + [randomCity];
      if randomCity !in infected {
        return Some(randomCity), next;
      }
    }
    drawn := None;
  }

  /** Adds `cubes` cubes of the home colour to `count` pairwise-distinct
      cities. Each pick redraws (do-while) until it selects a city not yet
      picked, so with fewer than `count` cities (but at least one) it never
      finishes; on an empty board the first pick is `undefined` and reading
      its colour throws. The draws are a finite sequence here, and `None`
      stands for both: the loop still running when they are used up, or the
      throw (an empty board admits no draws). The loop finishes exactly when the
      draws name at least `count` distinct cities, and the cities it picks
      are the first `count` of them. `picked` is the local `infectedCities`. */
  method InfectCities(cities: Cities, names: seq<string>, count: int, cubes: int, draws: seq<nat>)
    returns (r: Option<Cities>, ghost picked: seq<string>)
    requires KeyOrder(names, cities)
    requires ValidDraws(names, draws)
    ensures r.Some? <==> count <= |Fresh(Picks(names, draws))|
    ensures r.Some? ==> picked == Fresh(Picks(names, draws))[..if count < 0 then 0 else count]
    ensures r.Some? ==> count <= |cities|
    ensures r.Some? ==> |picked| == (if count < 0 then 0 else count) && Distinct(picked)
    ensures r.Some? ==> SeededFrom(names, r.value, cities, picked, cubes)
  {
    ghost var picks := Picks(names, draws);
    var updated := cities;
    var infected: seq<string> := [];
    var d := 0;
    var i := 0;
    while i < count
      invariant 0 <= d <= |draws|
      invariant 0 <= i <= (if count < 0 then 0 else count)
      invariant |infected| == i && infected == FreshUpTo(picks, d)
      invariant SeededFrom(names, updated, cities, infected, cubes)
    {
      var drawn;
      drawn, d := DrawFresh(names, draws, d, infected);
      if drawn.None? {
        r, picked := None, infected;
        return;
      }
      var randomCity := drawn.value;
      SeededStep(names, updated, cities, infected, cubes, randomCity);
      infected := infected + [randomCity];
      updated := updated[randomCity := AddHome(updated[randomCity], cubes)];
      i := i + 1;
    }
    picked := infected;
    DistinctWithin(picked, cities.Keys);
    FreshGrows(picks, d, |picks|);
    r := Some(updated);
  }
}
