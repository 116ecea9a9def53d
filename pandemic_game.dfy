/** The rule handlers of the React front end (client/src/components/
    PandemicGame.tsx and its older copy src/components/PandemicGame.js).
    A handler reads the component's game state and board, and sets new ones;
    here it maps a `View` (the two together) to the `View` it leaves. The
    handlers that build new records by spread are functions; `startGame` and
    `endTurn`, whose `for` loops add cubes in place, are methods.

    These handlers are the only place where the adjacency rule for moves and
    the Medic and Operations Expert roles are enforced; the server checks
    neither. */
module PandemicGame {
  import opened Types
  import opened Ledger
  import opened GameLogic

  /** The component's game state and its board. */
  datatype View = View(state: GameState, cities: Cities)

  /** Every handler reads `players[currentPlayerIndex]` once the game is
      running; outside the range that read yields `undefined` and the
      handler throws. */
  predicate Seated(st: GameState)
  {
    st.started && !st.gameOver ==> st.currentPlayerIndex < |st.players|
  }

  /** The guard every action handler starts with: the game is running and
      the local player is the current one. */
  predicate MayAct(st: GameState, playerId: string)
    requires Seated(st)
  {
    st.started && !st.gameOver && st.players[st.currentPlayerIndex].id == playerId
  }

  /** `after` is `before` with only player `i` changed, and that player only
      in its location and actions. */
  predicate OnlyPlayerChanged(before: GameState, after: GameState, i: nat)
    requires i < |before.players|
  {
    && |after.players| == |before.players|
    && after.(players := before.players) == before
    && (forall k :: 0 <= k < |before.players| && k != i ==> after.players[k] == before.players[k])
    && after.players[i].(location := before.players[i].location, actions := before.players[i].actions) == before.players[i]
  }

  /** The current player of a running game. */
  function Current(st: GameState): Player
    requires st.currentPlayerIndex < |st.players|
  {
    st.players[st.currentPlayerIndex]
  }

  /** The player after spending one action. */
  function Spend(p: Player): (r: Player)
    ensures r.actions == p.actions - 1 && r.(actions := p.actions) == p
  {
    p.(actions := p.actions - 1)
  }

  /** `movePlayer`: the current player moves to an adjacent city or stays
      where they are; either way one action is spent, and only while one is
      left. */
  function MovePlayer(v: View, connections: seq<Connection>, playerId: string, cityName: string): (r: View)
    requires Seated(v.state)
    ensures r.cities == v.cities
    ensures r != v <==>
              && MayAct(v.state, playerId)
              && (Connected(Current(v.state).location, cityName, connections) || Current(v.state).location == cityName)
              && Current(v.state).actions > 0
    ensures r != v ==>
              && OnlyPlayerChanged(v.state, r.state, v.state.currentPlayerIndex)
              && Current(r.state).location == cityName
              && Current(r.state).actions == Current(v.state).actions - 1
  {
    if !v.state.started || v.state.gameOver then v
    else
      var i := v.state.currentPlayerIndex;
      var p := v.state.players[i];
      if p.id != playerId then v
      else if !Connected(p.location, cityName, connections) && p.location != cityName then v
      else if p.actions > 0 then
        v.(state := v.state.(players := v.state.players[i := p.(location := cityName, actions := p.actions - 1)]))
      else v
  }

  /** The cubes of `color` that treating removes: all of them when the
      colour is cured or the player is a Medic, one otherwise. */
  function CubesToRemove(st: GameState, p: Player, count: int, color: Color): int
  {
    if st.diseases.Get(color).cured || p.role == MEDIC then count else 1
  }

  /** `treatDisease`: at the current player's city, while it holds a cube of
      `color` and an action is left, removes all cubes of the colour (cured,
      or a Medic) or one, and spends the action. */
  function TreatDisease(v: View, playerId: string, color: Color): (r: View)
    requires Seated(v.state)
    ensures r != v <==>
              && MayAct(v.state, playerId)
              && Current(v.state).location in v.cities
              && v.cities[Current(v.state).location].infections.Get(color) > 0
              && Current(v.state).actions > 0
    ensures r != v ==>
              var p := Current(v.state);
              var here := p.location;
              var count := v.cities[here].infections.Get(color);
              && r.state == v.state.(players := v.state.players[v.state.currentPlayerIndex := Spend(p)])
              && r.cities.Keys == v.cities.Keys
              && (forall n :: n in v.cities && n != here ==> r.cities[n] == v.cities[n])
              && r.cities[here].(infections := v.cities[here].infections) == v.cities[here]
              && (forall c :: c != color ==> r.cities[here].infections.Get(c) == v.cities[here].infections.Get(c))
              && r.cities[here].infections.Get(color) ==
                   (if v.state.diseases.Get(color).cured || p.role == MEDIC then 0 else count - 1)
              && 0 <= r.cities[here].infections.Get(color) < count
  {
    if !v.state.started || v.state.gameOver then v
    else
      var i := v.state.currentPlayerIndex;
      var p := v.state.players[i];
      if p.id != playerId then v
      else if p.location in v.cities && v.cities[p.location].infections.Get(color) > 0 && p.actions > 0 then
        var city := v.cities[p.location];
        var count := city.infections.Get(color);
        var removed := CubesToRemove(v.state, p, count, color);
        View(v.state.(players := v.state.players[i := p.(actions := p.actions - 1)]),
             v.cities[p.location := city.(infections := city.infections.Set(color, count - removed))])
      else v
  }

  /** `buildResearchStation`: at the current player's city, while it has no
      station and an action is left, an Operations Expert or a player holding
      the city's card builds one: the city gets a station, its name is
      appended to the station list and the action is spent. */
  function BuildResearchStation(v: View, playerId: string): (r: View)
    requires Seated(v.state)
    ensures r != v <==>
              && MayAct(v.state, playerId)
              && Current(v.state).location in v.cities
              && !v.cities[Current(v.state).location].researchStation
              && Current(v.state).actions > 0
              && (Current(v.state).role == OPERATIONS_EXPERT || Current(v.state).location in Current(v.state).cards)
    ensures r != v ==>
              var p := Current(v.state);
              && r.state == v.state.(players := v.state.players[v.state.currentPlayerIndex := Spend(p)],
                                     researchStations := v.state.researchStations + [p.location])
              && r.cities == v.cities[p.location := v.cities[p.location].(researchStation := true)]
  {
    if !v.state.started || v.state.gameOver then v
    else
      var i := v.state.currentPlayerIndex;
      var p := v.state.players[i];
      if p.id != playerId then v
      else if p.location in v.cities && !v.cities[p.location].researchStation && p.actions > 0 then
        if p.role == OPERATIONS_EXPERT || p.location in p.cards then
          View(v.state.(players := v.state.players[i := p.(actions := p.actions - 1)],
                        researchStations := v.state.researchStations + [p.location]),
               v.cities[p.location := v.cities[p.location].(researchStation := true)])
        else v
      else v
  }

  /** `discoverCure`: at a city with a station, while an action is left, the
      colour is marked cured (cards are not checked, nor whether it was cured
      already), the action is spent, and the game is won and over exactly
      when every colour is now cured. */
  function DiscoverCure(v: View, playerId: string, color: Color): (r: View)
    requires Seated(v.state)
    ensures r.cities == v.cities
    ensures r != v ==>
              MayAct(v.state, playerId) && Current(v.state).location in v.cities
              && v.cities[Current(v.state).location].researchStation && Current(v.state).actions > 0
    ensures MayAct(v.state, playerId) && Current(v.state).location in v.cities
              && v.cities[Current(v.state).location].researchStation && Current(v.state).actions > 0 ==>
              var d := r.state.diseases;
              && d.Get(color).cured
              && (forall c :: c != color ==> d.Get(c) == v.state.diseases.Get(c))
              && d.Get(color).(cured := v.state.diseases.Get(color).cured) == v.state.diseases.Get(color)
              && r.state.players == v.state.players[v.state.currentPlayerIndex := Spend(Current(v.state))]
              && r.state.gameWon == r.state.gameOver == AllCured(d)
              && r.state.(players := v.state.players, diseases := v.state.diseases,
                          gameWon := v.state.gameWon, gameOver := v.state.gameOver) == v.state
  {
    if !v.state.started || v.state.gameOver then v
    else
      var i := v.state.currentPlayerIndex;
      var p := v.state.players[i];
      if p.id != playerId then v
      else if p.location in v.cities && v.cities[p.location].researchStation && p.actions > 0 then
        var diseases := v.state.diseases.Set(color, v.state.diseases.Get(color).(cured := true));
        var allCured := AllCured(diseases);
        v.(state := v.state.(diseases := diseases, players := v.state.players[i := p.(actions := p.actions - 1)],
                             gameWon := allCured, gameOver := allCured))
      else v
  }

  /** A city as `resetGame` leaves it: no cubes, and a station only in
      Atlanta. */
  function CleanCity(name: string, city: City): City
  {
    city.(infections := NO_INFECTIONS, researchStation := name == STARTING_LOCATION)
  }

  /** `resetGame`: the initial game state, and every city of the board with
      no cubes and a station only in Atlanta. */
  function ResetGame(v: View): (r: View)
    ensures r.state == INITIAL_GAME_STATE
    ensures r.cities.Keys == v.cities.Keys
    ensures forall n :: n in r.cities ==>
              && r.cities[n].color == v.cities[n].color
              && (forall c :: r.cities[n].infections.Get(c) == 0)
              && (r.cities[n].researchStation <==> n == STARTING_LOCATION)
  {
    View(INITIAL_GAME_STATE, map n | n in v.cities :: CleanCity(n, v.cities[n]))
  }

  /** Resetting twice is resetting once. */
  lemma ResetIdempotent(v: View)
    ensures ResetGame(ResetGame(v)) == ResetGame(v)
  {
    var once := ResetGame(v);
    assert ResetGame(once).cities == once.cities by {
      forall n | n in once.cities
        ensures CleanCity(n, once.cities[n]) == once.cities[n]
      {
        assert once.cities[n].infections == NO_INFECTIONS;
      }
    }
  }

  /** A reset board holds no cube. */
  lemma {:induction false} ResetEmptiesBoard(names: seq<string>, v: View)
    requires forall k :: 0 <= k < |names| ==> names[k] in v.cities
    ensures BoardTotal(names, ResetGame(v).cities) == 0
    decreases |names|
  {
    if names != [] {
      ResetEmptiesBoard(names[1..], v);
    }
  }

  /** The cubes `startGame` adds on its draw number `k` (counting from 0):
      three rounds of three draws, adding 3, then 2, then 1 cubes. */
  function SeedAmount(k: nat): (r: int)
    ensures 1 <= r <= 3
    ensures r == 3 - k / 3 || k >= 9
  {
    if k < 3 then 3 else if k < 6 then 2 else 1
  }

  /** The cubes the first `n` seeding draws add together. */
  function SeedTotal(n: nat): int
  {
    if n == 0 then 0 else SeedTotal(n - 1) + SeedAmount(n - 1)
  }

  /** The board after the first `k` of `startGame`'s draws `picks`, draw
      number `j` adding `SeedAmount(j)` cubes of its city's home colour,
      with no cap and with repeats allowed. It is also the state a seeding
      loop has reached after `k` rounds. */
  function Seeded(cities: Cities, picks: seq<string>, k: nat): (r: Cities)
    requires k <= |picks|
    requires forall j :: 0 <= j < |picks| ==> picks[j] in cities
    ensures r.Keys == cities.Keys
    decreases k
  {
    if k == 0 then cities
    else
      var before := Seeded(cities, picks, k - 1);
      before[picks[k - 1] := AddHome(before[picks[k - 1]], SeedAmount(k - 1))]
  }

  /** Seeding adds exactly the drawn amounts to the board. */
  lemma {:induction false} SeededTotal(names: seq<string>, cities: Cities, picks: seq<string>, k: nat)
    requires KeyOrder(names, cities)
    requires k <= |picks|
    requires forall j :: 0 <= j < |picks| ==> picks[j] in cities
    ensures BoardTotal(names, Seeded(cities, picks, k)) == BoardTotal(names, cities) + SeedTotal(k)
    decreases k
  {
    if k > 0 {
      SeededTotal(names, cities, picks, k - 1);
      var before := Seeded(cities, picks, k - 1);
      BoardTotalUpdate(names, before, picks[k - 1], AddHome(before[picks[k - 1]], SeedAmount(k - 1)));
    }
  }

  /** Seeding touches only the home colour of each city, and leaves a city
      no draw selected as it was. */
  lemma {:induction false} SeededFrame(cities: Cities, picks: seq<string>, k: nat, n: string)
    requires k <= |picks|
    requires forall j :: 0 <= j < |picks| ==> picks[j] in cities
    requires n in cities
    ensures var after := Seeded(cities, picks, k)[n];
            && after.color == cities[n].color
            && after.researchStation == cities[n].researchStation
            && (forall c :: c != cities[n].color ==> after.infections.Get(c) == cities[n].infections.Get(c))
            && ((forall j :: 0 <= j < k ==> picks[j] != n) ==> after == cities[n])
    decreases k
  {
    if k > 0 {
      SeededFrame(cities, picks, k - 1, n);
    }
  }

  /** Seeding never changes a city's colour. */
  lemma {:induction false} SeededColor(cities: Cities, picks: seq<string>, k: nat, n: string)
    requires k <= |picks|
    requires forall j :: 0 <= j < |picks| ==> picks[j] in cities
    requires n in cities
    ensures Seeded(cities, picks, k)[n].color == cities[n].color
    decreases k
  {
    if k > 0 {
      SeededColor(cities, picks, k - 1, n);
    }
  }

  /** The nine seeding draws add 18 cubes. */
  lemma StartGameAdds18(names: seq<string>, cities: Cities, picks: seq<string>)
    requires KeyOrder(names, cities)
    requires |picks| == 9
    requires forall k :: 0 <= k < |picks| ==> picks[k] in cities
    ensures BoardTotal(names, Seeded(cities, picks, |picks|)) == BoardTotal(names, cities) + 18
  {
    SeededTotal(names, cities, picks, |picks|);
    assert SeedTotal(9) == 18;
  }

  /** The cubes that the first `k` draws of `picks` put on city `n`. */
  function Landed(picks: seq<string>, n: string, k: nat): int
    requires k <= |picks|
    decreases k
  {
    if k == 0 then 0
    else Landed(picks, n, k - 1) + (if picks[k - 1] == n then SeedAmount(k - 1) else 0)
  }

  /** After seeding, a city holds its earlier home-colour cubes plus every
      amount drawn on it. */
  lemma {:induction false} SeededHome(cities: Cities, picks: seq<string>, k: nat, n: string)
    requires k <= |picks|
    requires forall j :: 0 <= j < |picks| ==> picks[j] in cities
    requires n in cities
    ensures Seeded(cities, picks, k)[n].infections.Get(cities[n].color)
            == cities[n].infections.Get(cities[n].color) + Landed(picks, n, k)
    decreases k
  {
    if k > 0 {
      SeededHome(cities, picks, k - 1, n);
      SeededColor(cities, picks, k - 1, n);
      var before := Seeded(cities, picks, k - 1);
      var after := Seeded(cities, picks, k);
      if picks[k - 1] == n {
        assert after[n] == AddHome(before[n], SeedAmount(k - 1));
      } else {
        assert after[n] == before[n];
      }
    }
  }

  /** When every draw selects `n`, all the cubes land on it. */
  lemma {:induction false} LandedAll(picks: seq<string>, n: string, k: nat)
    requires k <= |picks|
    requires forall j :: 0 <= j < |picks| ==> picks[j] == n
    ensures Landed(picks, n, k) == SeedTotal(k)
    decreases k
  {
    if k > 0 {
      LandedAll(picks, n, k - 1);
    }
  }

  /** Seeding does not cap: when all nine draws select the same city, with
      none of its home colour before, it ends with 18 cubes of it. */
  lemma SeedingExceedsCap(cities: Cities, picks: seq<string>, n: string)
    requires n in cities && cities[n].infections.Get(cities[n].color) == 0
    requires |picks| == 9 && forall k :: 0 <= k < |picks| ==> picks[k] == n
    ensures Seeded(cities, picks, |picks|)[n].infections.Get(cities[n].color) == 18 > CUBE_CAP
  {
    SeededHome(cities, picks, |picks|, n);
    LandedAll(picks, n, |picks|);
    assert SeedTotal(9) == 18;
  }

  /** `startGame`: with fewer than two players nothing happens; otherwise
      nine draws add 3, 3, 3, 2, 2, 2, 1, 1 and 1 cubes of the drawn city's
      home colour, and the game is started. Nothing checks that the game has
      not started already, or that the drawn cities differ. */
  method StartGame(v: View, names: seq<string>, draws: seq<nat>) returns (r: View)
    requires KeyOrder(names, v.cities)
    requires ValidDraws(names, draws) && |draws| == 9
    ensures |v.state.players| < 2 ==> r == v
    ensures |v.state.players| >= 2 ==>
              r == View(v.state.(started := true), Seeded(v.cities, Picks(names, draws), |draws|))
  {
    if |v.state.players| < 2 {
      return v;
    }
    ghost var picks := Picks(names, draws);
    assert forall j :: 0 <= j < |picks| ==> picks[j] in v.cities;
    var updatedCities := v.cities;
    updatedCities := SeedRound(updatedCities, v.cities, names, draws, 0, 3);
    updatedCities := SeedRound(updatedCities, v.cities, names, draws, 3, 2);
    updatedCities := SeedRound(updatedCities, v.cities, names, draws, 6, 1);
    r := View(v.state.(started := true), updatedCities);
  }

  /** One of `startGame`'s three `for` loops: draws `first` to `first + 2`
      each add `cubes` cubes to the drawn city's home colour. */
  method SeedRound(updated: Cities, cities: Cities, names: seq<string>, draws: seq<nat>, first: nat, cubes: int)
    returns (next: Cities)
    requires KeyOrder(names, cities)
    requires ValidDraws(names, draws) && first + 3 <= |draws|
    requires forall k :: first <= k < first + 3 ==> SeedAmount(k) == cubes
    requires updated == Seeded(cities, Picks(names, draws), first)
    ensures next == Seeded(cities, Picks(names, draws), first + 3)
  {
    ghost var picks := Picks(names, draws);
    next := updated;
    for i := 0 to 3
      invariant next == Seeded(cities, picks, first + i)
    {
      var randomCity := names[draws[first + i]];
      assert randomCity == picks[first + i] && SeedAmount(first + i) == cubes;
      next := next[randomCity := AddHome(next[randomCity], cubes)];
    }
  }

  /** The infection loop of `endTurn`: `rate` draws, each adding one cube
      of the drawn city's colour, capped at 3 with an outbreak counted on
      overflow, counting on from `outbreaks`. Eradication is not checked. */
  method Infect(cities: Cities, names: seq<string>, draws: seq<nat>, rate: nat, outbreaks: nat)
    returns (updatedCities: Cities, outbreakCount: nat)
    requires KeyOrder(names, cities)
    requires ValidDraws(names, draws) && |draws| == rate
    ensures updatedCities.Keys == cities.Keys
    ensures outbreaks <= outbreakCount <= outbreaks + rate
    ensures InfectAll(cities, Picks(names, draws), {}) == Infected(updatedCities, outbreakCount - outbreaks)
  {
    ghost var picks := Picks(names, draws);
    assert forall j :: 0 <= j < |picks| ==> picks[j] in cities;
    updatedCities := cities;
    outbreakCount := outbreaks;
    var k := 0;
    ghost var added := 0;
    while k < rate
      invariant 0 <= k <= rate
      invariant outbreakCount == outbreaks + added
      invariant InfectFirst(cities, picks, {}, k) == Infected(updatedCities, added)
    {
      var randomCity := names[draws[k]];
      assert randomCity == picks[k];
      var outbreak;
      updatedCities, outbreak := InfectCity(updatedCities, randomCity);
      outbreakCount := outbreakCount + outbreak;
      added := added + outbreak;
      k := k + 1;
    }
    InfectFirstPrefix(cities, picks, {}, k);
    assert picks[..k] == picks;
  }

  /** The body of that loop: one cube of the city's colour is added in
      place, and taken back off, with one outbreak counted, when the count
      passes 3. */
  method InfectCity(cities: Cities, randomCity: string) returns (updatedCities: Cities, outbreak: nat)
    requires randomCity in cities
    ensures Infected(updatedCities, outbreak) == InfectOnce(cities, randomCity, {})
  {
    var city := cities[randomCity];
    var cityColor := city.color;
    updatedCities := cities[randomCity := city.(infections := city.infections.Set(cityColor, city.infections.Get(cityColor) + 1))];
    outbreak := 0;
    if updatedCities[randomCity].infections.Get(cityColor) > CUBE_CAP {
      updatedCities := updatedCities[randomCity := city.(infections := city.infections.Set(cityColor, CUBE_CAP))];
      outbreak := 1;
    }
  }

  /** `endTurn`: the current player's actions are reset to 4 and the turn
      passes to the next player. Each of the `infectionRate` draws adds one
      cube of the drawn city's colour, capped at 3 with an outbreak counted on
      overflow; eradicated colours are not skipped and outbreaks do not
      spread. At 8 or more outbreaks the game is over; `gameWon` is left
      alone. */
  method EndTurn(v: View, playerId: string, names: seq<string>, draws: seq<nat>) returns (r: View)
    requires Seated(v.state)
    requires KeyOrder(names, v.cities)
    requires ValidDraws(names, draws) && |draws| == v.state.infectionRate
    ensures !MayAct(v.state, playerId) ==> r == v
    ensures MayAct(v.state, playerId) ==>
              var i := v.state.currentPlayerIndex;
              var step := InfectAll(v.cities, Picks(names, draws), {});
              var outbreaks := v.state.outbreaks + step.outbreaks;
              && r.cities == step.cities
              && r.state == v.state.(players := v.state.players[i := v.state.players[i].(actions := ACTIONS_PER_TURN)],
                                     currentPlayerIndex := NextIndex(i, |v.state.players|),
                                     outbreaks := outbreaks,
                                     gameOver := outbreaks >= MAX_OUTBREAKS || v.state.gameOver)
              && v.state.outbreaks <= r.state.outbreaks <= v.state.outbreaks + v.state.infectionRate
  {
    if !v.state.started || v.state.gameOver {
      return v;
    }
    var i := v.state.currentPlayerIndex;
    if v.state.players[i].id != playerId {
      return v;
    }
    var updatedPlayers := v.state.players[i := v.state.players[i].(actions := ACTIONS_PER_TURN)];
    var nextPlayerIndex := NextIndex(i, |v.state.players|);
    var updatedCities, outbreakCount := Infect(v.cities, names, draws, v.state.infectionRate, v.state.outbreaks);
    var isGameOver := outbreakCount >= MAX_OUTBREAKS;
    r := View(v.state.(players := updatedPlayers, currentPlayerIndex := nextPlayerIndex, outbreaks := outbreakCount,
                       gameOver := isGameOver || v.state.gameOver),
              updatedCities);
  }
}
