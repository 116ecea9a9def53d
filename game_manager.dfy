/** The server's session store and rules engine
    (server/src/services/gameManager.ts): two module-level maps keyed by game
    id, `activeGames` and `gameCities`, and the actions that look a game up,
    check the acting player and change the game in place.

    Every new game's `diseases` is a shallow copy of the module-level
    `initialDiseases`, so all games share its four disease records: curing or
    eradicating a colour in one game changes that colour in every stored game
    and in every game created later, and resetting a game does not undo it.
    `Store.initialDiseases` holds those shared records, and `Store.Valid()`
    says that every stored game's `diseases` is that value; the actions that
    write a disease record update all games at once.

    `Date.now()` is the parameter `now`; the city drawn by each
    `Math.random()` call is an index into `names`, which lists the keys of the
    game's cities in `Object.keys` order. */
module GameManager {
  import opened Types
  import opened Ledger
  import opened GameLogic

  /** The errors the actions throw, in the words of their messages. */
  datatype GameError =
    | GameFull            // 'Game is full'
    | AlreadyStarted      // 'Game has already started'
    | NotEnoughPlayers    // 'Need at least 2 players to start the game'
    | PlayerNotFound      // 'Player not found'
    | NotYourTurn         // 'Not your turn'
    | NoActionsLeft       // 'No actions left'
    | CityNotFound        // 'City not found'
    | NoCubesToTreat      // 'No disease cubes to treat'
    | StationExists       // 'Research station already exists in this city'
    | NoStationHere       // 'Need a research station to discover a cure'
    | AlreadyCured        // 'Disease already cured'

  /** How an action ends: `undefined` (no such game), a returned value, or a
      thrown error. */
  datatype Reply<T> = Undefined | Returned(value: T) | Thrown(error: GameError)

  /** The outcome of the checks every player action starts with: the acting
      player's index, or the first check that failed. */
  datatype Check = Allowed(index: nat) | Refused(error: GameError)

  /** `getFullGameState`: the game together with its cities, if any. */
  datatype FullState = FullState(game: GameState, cities: Option<Cities>)

  /** `findIndex` on the player id: the first index holding `id`, or -1. */
  function FindPlayer(players: seq<Player>, id: string): (r: int)
    ensures -1 <= r < |players|
    ensures r >= 0 ==> players[r].id == id && forall k :: 0 <= k < r ==> players[k].id != id
    ensures r == -1 <==> forall k :: 0 <= k < |players| ==> players[k].id != id
  {
    if players == [] then -1
    else if players[0].id == id then 0
    else
      var rest := FindPlayer(players[1..], id);
      if rest == -1 then -1 else rest + 1
  }

  /** The checks every player action makes before changing anything, in
      their order: the player must be in the game, it must be their turn and,
      for every action except ending the turn, they must have an action left. */
  function Authorize(game: GameState, playerId: string, spendsAction: bool): (r: Check)
    ensures r == Refused(PlayerNotFound) <==> forall k :: 0 <= k < |game.players| ==> game.players[k].id != playerId
    ensures r == Refused(NotYourTurn) <==>
              FindPlayer(game.players, playerId) != -1 && FindPlayer(game.players, playerId) != game.currentPlayerIndex
    ensures r == Refused(NoActionsLeft) <==>
              && spendsAction
              && FindPlayer(game.players, playerId) == game.currentPlayerIndex
              && game.players[game.currentPlayerIndex].actions <= 0
    ensures r.Refused? ==> r.error in {PlayerNotFound, NotYourTurn, NoActionsLeft}
    ensures r.Allowed? ==>
              && r.index == game.currentPlayerIndex < |game.players|
              && game.players[r.index].id == playerId
              && (spendsAction ==> game.players[r.index].actions > 0)
  {
    var i := FindPlayer(game.players, playerId);
    if i == -1 then Refused(PlayerNotFound)
    else if i != game.currentPlayerIndex then Refused(NotYourTurn)
    else if spendsAction && game.players[i].actions <= 0 then Refused(NoActionsLeft)
    else Allowed(i)
  }

  /** The colours whose disease record has `eradicated` set. */
  function Eradicated(diseases: Diseases): (r: set<Color>)
    ensures forall c :: c in r <==> diseases.Get(c).eradicated
  {
    (if diseases.red.eradicated then {Red} else {})
    + (if diseases.blue.eradicated then {Blue} else {})
    + (if diseases.yellow.eradicated then {Yellow} else {})
    + (if diseases.black.eradicated then {Black} else {})
  }

  /** No city holds a cube of `color` (the `every` test of `treatDisease`). */
  predicate NoneLeft(cities: Cities, color: Color)
  {
    forall n :: n in cities ==> cities[n].infections.Get(color) == 0
  }

  /** The board after treating `cubes` cubes of `color` on `cityName`: the
      count drops by `cubes` but not below zero (a negative `cubes` raises
      it), and nothing else changes. */
  function TreatCity(cities: Cities, cityName: string, color: Color, cubes: int): (r: Cities)
    requires cityName in cities
    ensures r.Keys == cities.Keys
    ensures var before := cities[cityName].infections.Get(color);
            var after := r[cityName].infections.Get(color);
            && after >= 0 && after >= before - cubes
            && (after == 0 || after == before - cubes)
            && (cubes >= 0 && before >= 0 ==> after <= before)
    ensures r[cityName].color == cities[cityName].color && r[cityName].researchStation == cities[cityName].researchStation
    ensures forall c :: c != color ==> r[cityName].infections.Get(c) == cities[cityName].infections.Get(c)
    ensures forall n :: n in cities && n != cityName ==> r[n] == cities[n]
  {
    var city := cities[cityName];
    var count := city.infections.Get(color);
    cities[cityName := city.(infections := city.infections.Set(color, if count - cubes > 0 then count - cubes else 0))]
  }

  /** The shared records after a treatment left `cities`: a cured colour of
      which no city holds a cube is marked eradicated; nothing else changes. */
  function AfterTreatment(d: Diseases, color: Color, cities: Cities): (r: Diseases)
    ensures r.Get(color).eradicated <==> d.Get(color).eradicated || (d.Get(color).cured && NoneLeft(cities, color))
    ensures r.Get(color).cured == d.Get(color).cured && r.Get(color).cubes == d.Get(color).cubes
    ensures forall c :: c != color ==> r.Get(c) == d.Get(c)
    ensures Settled(d) ==> Settled(r)
  {
    if d.Get(color).cured && NoneLeft(cities, color) then d.Set(color, d.Get(color).(eradicated := true)) else d
  }

  /** The shared records after `discoverCure` cures `color`: that colour is
      cured, nothing else changes, and the game is won exactly when every
      other colour was already cured. */
  function Cure(d: Diseases, color: Color): (r: Diseases)
    ensures r.Get(color) == d.Get(color).(cured := true)
    ensures forall c :: c != color ==> r.Get(c) == d.Get(c)
    ensures MoreCured(d, r) && (Settled(d) ==> Settled(r))
    ensures AllCured(r) <==> forall c :: c != color ==> d.Get(c).cured
  {
    CureKeepsOthers(d, color);
    d.Set(color, d.Get(color).(cured := true))
  }

  /** Whether `cleanupInactiveGames` removes a game: it carries a timestamp
      (0 is falsy in the source's test) older than `maxAgeMs`. */
  predicate Stale(game: GameState, maxAgeMs: int, now: int)
  {
    game.lastUpdateTime != 0 && now - game.lastUpdateTime > maxAgeMs
  }

  /** The invariant every stored game keeps. */
  ghost predicate GameInvariant(id: string, game: GameState, shared: Diseases)
  {
    && game.gameId == id
    && game.diseases == shared
    && 1 <= |game.players| <= MAX_PLAYERS
    && game.currentPlayerIndex < |game.players|
    && (game.gameWon ==> game.gameOver && AllCured(shared))
    && (game.gameOver ==> game.gameWon || game.outbreaks >= MAX_OUTBREAKS)
  }

  /** A disease is only ever eradicated after it is cured. */
  predicate Settled(diseases: Diseases)
  {
    forall c :: diseases.Get(c).eradicated ==> diseases.Get(c).cured
  }

  /** Every game in `games` with its disease records replaced by `d`, which
      is what writing a shared record does. */
  function ShareDiseases(games: map<string, GameState>, d: Diseases): (r: map<string, GameState>)
    ensures r.Keys == games.Keys
    ensures forall id :: id in games ==> r[id] == games[id].(diseases := d)
  {
    map id | id in games :: games[id].(diseases := d)
  }

  /** The invariant of the two maps and the shared disease records. */
  ghost predicate Consistent(games: map<string, GameState>, boards: map<string, Cities>, shared: Diseases)
  {
    && boards.Keys <= games.Keys
    && Settled(shared)
    && forall id :: id in games ==> GameInvariant(id, games[id], shared)
  }

  /** `after` has every colour cured that `before` has. */
  predicate MoreCured(before: Diseases, after: Diseases)
  {
    forall c :: before.Get(c).cured ==> after.Get(c).cured
  }

  /** Replacing one stored game by one that keeps the game invariant keeps
      the store's invariant. */
  lemma ReplaceGame(games: map<string, GameState>, boards: map<string, Cities>, shared: Diseases,
                    id: string, game: GameState, boards': map<string, Cities>)
    requires Consistent(games, boards, shared)
    requires id in games && GameInvariant(id, game, shared)
    requires boards'.Keys <= games.Keys
    ensures Consistent(games[id := game], boards', shared)
  {
  }

  /** Writing a shared disease record that cures more, and eradicates only
      cured colours, keeps every game's invariant: a won game stays all
      cured. */
  lemma ShareCures(games: map<string, GameState>, boards: map<string, Cities>, d: Diseases, d': Diseases)
    requires Consistent(games, boards, d)
    requires MoreCured(d, d') && Settled(d')
    ensures Consistent(ShareDiseases(games, d'), boards, d')
  {
    var shared := ShareDiseases(games, d');
    forall id | id in shared
      ensures GameInvariant(id, shared[id], d')
    {
      assert GameInvariant(id, games[id], d);
      assert AllCured(d) ==> AllCured(d');
    }
  }

  /** Writing a shared record and then replacing one game, as curing and
      treating do, keeps the invariant. */
  lemma ShareAndReplace(games: map<string, GameState>, boards: map<string, Cities>, d: Diseases, d': Diseases,
                        id: string, game: GameState, boards': map<string, Cities>)
    requires Consistent(games, boards, d)
    requires MoreCured(d, d') && Settled(d')
    requires id in games && GameInvariant(id, game, d')
    requires boards'.Keys <= games.Keys
    ensures Consistent(ShareDiseases(games, d')[id := game], boards', d')
  {
    ShareCures(games, boards, d, d');
  }

  /** Removing games, and cities of removed games, keeps the invariant. */
  lemma Restrict(games: map<string, GameState>, boards: map<string, Cities>, shared: Diseases,
                 games': map<string, GameState>, boards': map<string, Cities>)
    requires Consistent(games, boards, shared)
    requires games'.Keys <= games.Keys && boards'.Keys <= games'.Keys
    requires forall id :: id in games' ==> games'[id] == games[id]
    ensures Consistent(games', boards', shared)
  {
  }

  /** The games of `games` that `cleanupInactiveGames` keeps. */
  function Kept(games: map<string, GameState>, maxAgeMs: int, now: int): (r: map<string, GameState>)
    ensures r.Keys <= games.Keys
    ensures forall id :: id in r ==> r[id] == games[id] && !Stale(games[id], maxAgeMs, now)
    ensures forall id :: id in games && !Stale(games[id], maxAgeMs, now) ==> id in r
  {
    map id | id in games && !Stale(games[id], maxAgeMs, now) :: games[id]
  }

  /** The ids of the stale games among `ids`. */
  function StaleIds(games: map<string, GameState>, ids: set<string>, maxAgeMs: int, now: int): set<string>
  {
    set id | id in ids && id in games && Stale(games[id], maxAgeMs, now)
  }

  /** The infection loop of `endTurn`: `rate` draws, each handled as
      `InfectOnce` describes, counting outbreaks on from `outbreaks`. */
  method InfectDraws(cities: Cities, names: seq<string>, draws: seq<nat>, rate: nat, eradicated: set<Color>, outbreaks: nat)
    returns (after: Cities, outbreakCount: nat)
    requires KeyOrder(names, cities)
    requires ValidDraws(names, draws) && |draws| == rate
    ensures after.Keys == cities.Keys
    ensures outbreaks <= outbreakCount <= outbreaks + rate
    ensures InfectAll(cities, Picks(names, draws), eradicated) == Infected(after, outbreakCount - outbreaks)
  {
    ghost var picks := Picks(names, draws);
    assert forall j :: 0 <= j < |picks| ==> picks[j] in cities;
    after := cities;
    outbreakCount := outbreaks;
    var i := 0;
    ghost var added := 0;
    while i < rate
      invariant 0 <= i <= rate
      invariant outbreakCount == outbreaks + added
      invariant InfectFirst(cities, picks, eradicated, i) == Infected(after, added)
    {
      var randomCity := names[draws[i]];
      assert randomCity == picks[i];
      var outbreak;
      after, outbreak := InfectCity(after, randomCity, eradicated);
      outbreakCount := outbreakCount + outbreak;
      added := added + outbreak;
      i := i + 1;
    }
    InfectFirstPrefix(cities, picks, eradicated, i);
    assert picks[..i] == picks;
  }

  /** The body of that loop: unless the city's colour is eradicated, one
      cube of it is added in place, and taken back off, with one outbreak
      counted, when the count passes 3. */
  method InfectCity(cities: Cities, randomCity: string, eradicated: set<Color>) returns (after: Cities, outbreak: nat)
    requires randomCity in cities
    ensures Infected(after, outbreak) == InfectOnce(cities, randomCity, eradicated)
  {
    after := cities;
    outbreak := 0;
    var cityColor := after[randomCity].color;
    if cityColor !in eradicated {
      var city := after[randomCity];
      after := after[randomCity := city.(infections := city.infections.Set(cityColor, city.infections.Get(cityColor) + 1))];
      if after[randomCity].infections.Get(cityColor) > CUBE_CAP {
        after := after[randomCity := city.(infections := city.infections.Set(cityColor, CUBE_CAP))];
        outbreak := 1;
      }
    }
  }

  /** The loop of `cleanupInactiveGames` over the two maps: visits every
      game once, deletes it and its cities from both when it is stale, and
      counts the deletions. */
  method SweepStale(games: map<string, GameState>, boards: map<string, Cities>, maxAgeMs: int, now: int)
    returns (active: map<string, GameState>, cities: map<string, Cities>, count: nat)
    ensures active == Kept(games, maxAgeMs, now)
    ensures cities.Keys <= boards.Keys
    ensures forall id :: id in boards ==> (id in cities <==> id !in games || id in active)
    ensures forall id :: id in cities ==> cities[id] == boards[id]
    ensures count == |StaleIds(games, games.Keys, maxAgeMs, now)|
  {
    active := games;
    cities := boards;
    var todo := games.Keys;
    count := 0;
    while todo != {}
      invariant todo <= games.Keys
      invariant active.Keys <= games.Keys && cities.Keys <= boards.Keys
      invariant forall id :: id in active ==> active[id] == games[id]
      invariant forall id :: id in cities ==> cities[id] == boards[id]
      invariant forall id :: id in games ==> (id in active <==> id in todo || !Stale(games[id], maxAgeMs, now))
      invariant forall id :: id in boards ==> (id in cities <==> id !in games || id in active)
      invariant count == |StaleIds(games, games.Keys - todo, maxAgeMs, now)|
      decreases |todo|
    {
      var id :| id in todo;
      ghost var before := StaleIds(games, games.Keys - todo, maxAgeMs, now);
      if Stale(active[id], maxAgeMs, now) {
        active := active - {id};
        cities := cities - {id};
        assert StaleIds(games, games.Keys - (todo - {id}), maxAgeMs, now) == before + {id};
        count := count + 1;
      } else {
        assert StaleIds(games, games.Keys - (todo - {id}), maxAgeMs, now) == before;
      }
      todo := todo - {id};
    }
    assert games.Keys - todo == games.Keys;
    assert active == Kept(games, maxAgeMs, now);
  }

  class Store {
    var activeGames: map<string, GameState>
    var gameCities: map<string, Cities>
    /** The module-level `initialDiseases` records, shared by every game. */
    var initialDiseases: Diseases

    ghost predicate Valid()
      reads this
    {
      Consistent(activeGames, gameCities, initialDiseases)
    }

    /** The store as the server starts it. */
    constructor ()
      ensures Valid()
      ensures activeGames == map[] && gameCities == map[] && initialDiseases == INITIAL_DISEASES
    {
      activeGames := map[];
      gameCities := map[];
      initialDiseases := INITIAL_DISEASES;
    }

    /** `createGame`: stores a fresh game with `player` as its only player,
        replacing without notice any game already stored under `gameId`. Its
        disease records are the shared ones, whatever earlier games did to
        them. */
    method CreateGame(gameId: string, player: Player, now: int) returns (game: GameState)
      requires Valid()
      modifies this
      ensures Valid()
      ensures game == GameState(gameId, false, [player], 0, initialDiseases, INITIAL_INFECTION_RATE,
                                INFECTION_RATE_TRACK, 0, 0, [STARTING_LOCATION], false, false, now)
      ensures activeGames == old(activeGames)[gameId := game]
      ensures gameCities == old(gameCities) && initialDiseases == old(initialDiseases)
    {
      game := GameState(gameId, false, [player], 0, initialDiseases, INITIAL_INFECTION_RATE,
                        INFECTION_RATE_TRACK, 0, 0, [STARTING_LOCATION], false, false, now);
      activeGames := activeGames[gameId := game];
    }

    /** `getGame`. */
    function GetGame(gameId: string): (r: Option<GameState>)
      reads this
      ensures r.Some? <==> gameId in activeGames
      ensures r.Some? ==> r.value == activeGames[gameId]
    {
      if gameId in activeGames then Some(activeGames[gameId]) else None
    }

    /** `getCities`. */
    function GetCities(gameId: string): (r: Option<Cities>)
      reads this
      ensures r.Some? <==> gameId in gameCities
      ensures r.Some? ==> r.value == gameCities[gameId]
    {
      if gameId in gameCities then Some(gameCities[gameId]) else None
    }

    /** `getFullGameState`: the game and the board stored under its id, if
        any. `createGame` does not touch the boards, so a game re-created
        under an id that was already started keeps its previous board. */
    function GetFullGameState(gameId: string): (r: Option<FullState>)
      reads this
      ensures r.Some? <==> gameId in activeGames
      ensures r.Some? ==> r.value.game == activeGames[gameId] && r.value.cities == GetCities(gameId)
    {
      if gameId !in activeGames then None
      else Some(FullState(activeGames[gameId], GetCities(gameId)))
    }

    /** `addPlayer`: appends `player`, checking first that the game holds
        fewer than 4 players and only then that it has not started. */
    method AddPlayer(gameId: string, player: Player, now: int) returns (r: Reply<GameState>)
      requires Valid()
      modifies this
      ensures Valid()
      ensures gameCities == old(gameCities) && initialDiseases == old(initialDiseases)
      ensures gameId !in old(activeGames) ==> r == Undefined && activeGames == old(activeGames)
      ensures gameId in old(activeGames) ==>
                var game := old(activeGames)[gameId];
                if |game.players| >= MAX_PLAYERS then r == Thrown(GameFull) && activeGames == old(activeGames)
                else if game.started then r == Thrown(AlreadyStarted) && activeGames == old(activeGames)
                else
                  && r == Returned(game.(players := game.players + [player], lastUpdateTime := now))
                  && activeGames == old(activeGames)[gameId := r.value]
    {
      if gameId !in activeGames {
        return Undefined;
      }
      var game := activeGames[gameId];
      if |game.players| >= MAX_PLAYERS {
        return Thrown(GameFull);
      }
      if game.started {
        return Thrown(AlreadyStarted);
      }
      game := game.(players := game.players + [player], lastUpdateTime := now);
      activeGames := activeGames[gameId := game];
      r := Returned(game);
    }

    /** `startGame`: with at least two players, marks the game started and
        stores `cities` as its board. Starting a started game starts it
        again. */
    method StartGame(gameId: string, cities: Cities, now: int) returns (r: Reply<GameState>)
      requires Valid()
      modifies this
      ensures Valid()
      ensures initialDiseases == old(initialDiseases)
      ensures gameId !in old(activeGames) ==> r == Undefined && unchanged(this)
      ensures gameId in old(activeGames) ==>
                var game := old(activeGames)[gameId];
                if |game.players| < MIN_PLAYERS_TO_START then r == Thrown(NotEnoughPlayers) && unchanged(this)
                else
                  && r == Returned(game.(started := true, lastUpdateTime := now))
                  && activeGames == old(activeGames)[gameId := r.value]
                  && gameCities == old(gameCities)[gameId := cities]
    {
      if gameId !in activeGames {
        return Undefined;
      }
      var game := activeGames[gameId];
      if |game.players| < MIN_PLAYERS_TO_START {
        return Thrown(NotEnoughPlayers);
      }
      game := game.(started := true, lastUpdateTime := now);
      activeGames := activeGames[gameId := game];
      gameCities := gameCities[gameId := cities];
      r := Returned(game);
    }

    /** `movePlayer`: after the three checks, sets the player's location and
        spends one action. Nothing checks that the destination is adjacent,
        or even a city. */
    method MovePlayer(gameId: string, playerId: string, location: string, now: int) returns (r: Reply<GameState>)
      requires Valid()
      modifies this
      ensures Valid()
      ensures gameCities == old(gameCities) && initialDiseases == old(initialDiseases)
      ensures gameId !in old(activeGames) ==> r == Undefined && activeGames == old(activeGames)
      ensures gameId in old(activeGames) ==>
                var game := old(activeGames)[gameId];
                match Authorize(game, playerId, true)
                case Refused(e) => r == Thrown(e) && activeGames == old(activeGames)
                case Allowed(i) =>
                  var p := game.players[i];
                  && r == Returned(game.(players := game.players[i := p.(location := location, actions := p.actions - 1)],
                                         lastUpdateTime := now))
                  && activeGames == old(activeGames)[gameId := r.value]
    {
      if gameId !in activeGames {
        return Undefined;
      }
      var game := activeGames[gameId];
      var check := Authorize(game, playerId, true);
      if check.Refused? {
        return Thrown(check.error);
      }
      var i := check.index;
      var p := game.players[i];
      game := game.(players := game.players[i := p.(location := location, actions := p.actions - 1)], lastUpdateTime := now);
      activeGames := activeGames[gameId := game];
      r := Returned(game);
    }

    /** `treatDisease`: after the three checks, the named city must exist and
        hold a cube of `color`. Its count becomes `max(0, count - cubes)`
        (`TreatCity`), the player spends one action, and the shared records
        are updated in every game as `AfterTreatment` says. */
    method TreatDisease(gameId: string, playerId: string, cityName: string, color: Color, cubes: int, now: int)
      returns (r: Reply<GameState>)
      requires Valid()
      modifies this
      ensures Valid()
      ensures gameId !in old(activeGames) || gameId !in old(gameCities) ==> r == Undefined && unchanged(this)
      ensures gameId in old(activeGames) && gameId in old(gameCities) ==>
                var game := old(activeGames)[gameId];
                var cities := old(gameCities)[gameId];
                match Authorize(game, playerId, true)
                case Refused(e) => r == Thrown(e) && unchanged(this)
                case Allowed(i) =>
                  if cityName !in cities then r == Thrown(CityNotFound) && unchanged(this)
                  else if cities[cityName].infections.Get(color) <= 0 then r == Thrown(NoCubesToTreat) && unchanged(this)
                  else
                    var treated := TreatCity(cities, cityName, color, cubes);
                    var d := AfterTreatment(old(initialDiseases), color, treated);
                    var p := game.players[i];
                    && gameCities == old(gameCities)[gameId := treated]
                    && initialDiseases == d
                    && r == Returned(game.(players := game.players[i := p.(actions := p.actions - 1)], diseases := d,
                                           lastUpdateTime := now))
                    && activeGames == ShareDiseases(old(activeGames), d)[gameId := r.value]
    {
      if gameId !in activeGames || gameId !in gameCities {
        return Undefined;
      }
      var game := activeGames[gameId];
      var cities := gameCities[gameId];
      var check := Authorize(game, playerId, true);
      if check.Refused? {
        return Thrown(check.error);
      }
      var i := check.index;
      if cityName !in cities {
        return Thrown(CityNotFound);
      }
      if cities[cityName].infections.Get(color) <= 0 {
        return Thrown(NoCubesToTreat);
      }
      cities := TreatCity(cities, cityName, color, cubes);
      var p := game.players[i];
      var d := AfterTreatment(initialDiseases, color, cities);
      game := game.(players := game.players[i := p.(actions := p.actions - 1)], diseases := d, lastUpdateTime := now);
      ShareAndReplace(activeGames, gameCities, initialDiseases, d, gameId, game, gameCities[gameId := cities]);
      activeGames := ShareDiseases(activeGames, d)[gameId := game];
      gameCities := gameCities[gameId := cities];
      initialDiseases := d;
      r := Returned(game);
    }

    /** `buildResearchStation`: after the three checks, the named city must
        exist and have no station; it gets one, the city is appended to the
        game's station list and the player spends one action. */
    method BuildResearchStation(gameId: string, playerId: string, cityName: string, now: int)
      returns (r: Reply<GameState>)
      requires Valid()
      modifies this
      ensures Valid()
      ensures initialDiseases == old(initialDiseases)
      ensures gameId !in old(activeGames) || gameId !in old(gameCities) ==> r == Undefined && unchanged(this)
      ensures gameId in old(activeGames) && gameId in old(gameCities) ==>
                var game := old(activeGames)[gameId];
                var cities := old(gameCities)[gameId];
                match Authorize(game, playerId, true)
                case Refused(e) => r == Thrown(e) && unchanged(this)
                case Allowed(i) =>
                  if cityName !in cities then r == Thrown(CityNotFound) && unchanged(this)
                  else if cities[cityName].researchStation then r == Thrown(StationExists) && unchanged(this)
                  else
                    var p := game.players[i];
                    && gameCities == old(gameCities)[gameId := cities[cityName := cities[cityName].(researchStation := true)]]
                    && r == Returned(game.(players := game.players[i := p.(actions := p.actions - 1)],
                                           researchStations := game.researchStations + [cityName],
                                           lastUpdateTime := now))
                    && activeGames == old(activeGames)[gameId := r.value]
    {
      if gameId !in activeGames || gameId !in gameCities {
        return Undefined;
      }
      var game := activeGames[gameId];
      var cities := gameCities[gameId];
      var check := Authorize(game, playerId, true);
      if check.Refused? {
        return Thrown(check.error);
      }
      var i := check.index;
      if cityName !in cities {
        return Thrown(CityNotFound);
      }
      if cities[cityName].researchStation {
        return Thrown(StationExists);
      }
      cities := cities[cityName := cities[cityName].(researchStation := true)];
      var p := game.players[i];
      game := game.(players := game.players[i := p.(actions := p.actions - 1)],
                    researchStations := game.researchStations + [cityName],
                    lastUpdateTime := now);
      activeGames := activeGames[gameId := game];
      gameCities := gameCities[gameId := cities];
      r := Returned(game);
    }

    /** `discoverCure`: after the three checks, the player's own location must
        be a city with a station and the colour must not be cured yet. The
        shared record is marked cured (`Cure`), in every game; the player
        spends one action; and when every colour is now cured this game is won
        and over. No cards are checked. */
    method DiscoverCure(gameId: string, playerId: string, color: Color, now: int) returns (r: Reply<GameState>)
      requires Valid()
      modifies this
      ensures Valid()
      ensures gameCities == old(gameCities)
      ensures gameId !in old(activeGames) || gameId !in old(gameCities) ==> r == Undefined && unchanged(this)
      ensures gameId in old(activeGames) && gameId in old(gameCities) ==>
                var game := old(activeGames)[gameId];
                var cities := old(gameCities)[gameId];
                match Authorize(game, playerId, true)
                case Refused(e) => r == Thrown(e) && unchanged(this)
                case Allowed(i) =>
                  var here := game.players[i].location;
                  if here !in cities then r == Thrown(CityNotFound) && unchanged(this)
                  else if !cities[here].researchStation then r == Thrown(NoStationHere) && unchanged(this)
                  else if old(initialDiseases).Get(color).cured then r == Thrown(AlreadyCured) && unchanged(this)
                  else
                    var d := Cure(old(initialDiseases), color);
                    var p := game.players[i];
                    && initialDiseases == d
                    && r == Returned(game.(players := game.players[i := p.(actions := p.actions - 1)], diseases := d,
                                           gameWon := game.gameWon || AllCured(d),
                                           gameOver := game.gameOver || AllCured(d),
                                           lastUpdateTime := now))
                    && activeGames == ShareDiseases(old(activeGames), d)[gameId := r.value]
    {
      if gameId !in activeGames || gameId !in gameCities {
        return Undefined;
      }
      var game := activeGames[gameId];
      var cities := gameCities[gameId];
      var check := Authorize(game, playerId, true);
      if check.Refused? {
        return Thrown(check.error);
      }
      var i := check.index;
      var here := game.players[i].location;
      if here !in cities {
        return Thrown(CityNotFound);
      }
      if !cities[here].researchStation {
        return Thrown(NoStationHere);
      }
      if initialDiseases.Get(color).cured {
        return Thrown(AlreadyCured);
      }
      var d := Cure(initialDiseases, color);
      var p := game.players[i];
      var gameWon, gameOver := game.gameWon, game.gameOver;
      if AllCured(d) {
        gameWon, gameOver := true, true;
      }
      game := game.(players := game.players[i := p.(actions := p.actions - 1)], diseases := d,
                    gameWon := gameWon, gameOver := gameOver, lastUpdateTime := now);
      ShareAndReplace(activeGames, gameCities, initialDiseases, d, gameId, game, gameCities);
      activeGames := ShareDiseases(activeGames, d)[gameId := game];
      initialDiseases := d;
      r := Returned(game);
    }

    /** `endTurn`: checks only that the player is in the game and that it is
        their turn. Their actions are reset to 4 and the turn passes to the
        next player. Then each of the `infectionRate` draws adds one cube of
        the drawn city's colour unless that colour is eradicated, capped at 3
        with an outbreak counted on overflow and no spread to neighbours
        (`InfectAll`). At 8 or more outbreaks the game is over and lost. */
    method EndTurn(gameId: string, playerId: string, names: seq<string>, draws: seq<nat>, now: int)
      returns (r: Reply<GameState>)
      requires Valid()
      requires gameId in gameCities ==> KeyOrder(names, gameCities[gameId])
      requires ValidDraws(names, draws)
      requires gameId in activeGames ==> |draws| == activeGames[gameId].infectionRate
      modifies this
      ensures Valid()
      ensures initialDiseases == old(initialDiseases)
      ensures gameId !in old(activeGames) || gameId !in old(gameCities) ==> r == Undefined && unchanged(this)
      ensures gameId in old(activeGames) && gameId in old(gameCities) ==>
                var game := old(activeGames)[gameId];
                match Authorize(game, playerId, false)
                case Refused(e) => r == Thrown(e) && unchanged(this)
                case Allowed(i) =>
                  var step := InfectAll(old(gameCities)[gameId], Picks(names, draws), Eradicated(initialDiseases));
                  var outbreaks := game.outbreaks + step.outbreaks;
                  && gameCities == old(gameCities)[gameId := step.cities]
                  && r == Returned(game.(players := game.players[i := game.players[i].(actions := ACTIONS_PER_TURN)],
                                         currentPlayerIndex := NextIndex(game.currentPlayerIndex, |game.players|),
                                         outbreaks := outbreaks,
                                         gameOver := game.gameOver || outbreaks >= MAX_OUTBREAKS,
                                         gameWon := game.gameWon && outbreaks < MAX_OUTBREAKS,
                                         lastUpdateTime := now))
                  && activeGames == old(activeGames)[gameId := r.value]
                  && game.outbreaks <= r.value.outbreaks <= game.outbreaks + game.infectionRate
    {
      if gameId !in activeGames || gameId !in gameCities {
        return Undefined;
      }
      var game := activeGames[gameId];
      var cities := gameCities[gameId];
      var check := Authorize(game, playerId, false);
      if check.Refused? {
        return Thrown(check.error);
      }
      var i := check.index;
      var outbreakCount;
      cities, outbreakCount := InfectDraws(cities, names, draws, game.infectionRate, Eradicated(initialDiseases), game.outbreaks);
      var gameOver, gameWon := game.gameOver, game.gameWon;
      if outbreakCount >= MAX_OUTBREAKS {
        gameOver, gameWon := true, false;
      }
      game := game.(players := game.players[i := game.players[i].(actions := ACTIONS_PER_TURN)],
                    currentPlayerIndex := NextIndex(game.currentPlayerIndex, |game.players|),
                    outbreaks := outbreakCount, gameOver := gameOver, gameWon := gameWon, lastUpdateTime := now);
      ReplaceGame(activeGames, gameCities, initialDiseases, gameId, game, gameCities[gameId := cities]);
      activeGames := activeGames[gameId := game];
      gameCities := gameCities[gameId := cities];
      r := Returned(game);
    }

    /** `resetGame`: forgets the game and its cities, and reports whether
        both were there, so a game that was never started is removed but
        reported as not reset. The shared disease records are kept. */
    method ResetGame(gameId: string) returns (r: bool)
      requires Valid()
      modifies this
      ensures Valid()
      ensures r <==> gameId in old(activeGames) && gameId in old(gameCities)
      ensures activeGames == old(activeGames) - {gameId}
      ensures gameCities == old(gameCities) - {gameId}
      ensures initialDiseases == old(initialDiseases)
    {
      var gameRemoved := gameId in activeGames;
      activeGames := activeGames - {gameId};
      var citiesRemoved := gameId in gameCities;
      gameCities := gameCities - {gameId};
      r := gameRemoved && citiesRemoved;
    }

    /** `cleanupInactiveGames`: visits every stored game once and removes,
        with its cities, each one that is stale at `now`; returns how many it
        removed. */
    method CleanupInactiveGames(maxAgeMs: int, now: int) returns (count: nat)
      requires Valid()
      modifies this
      ensures Valid()
      ensures activeGames == Kept(old(activeGames), maxAgeMs, now)
      ensures gameCities == map id | id in old(gameCities) && id in activeGames :: old(gameCities)[id]
      ensures initialDiseases == old(initialDiseases)
      ensures count == |StaleIds(old(activeGames), old(activeGames).Keys, maxAgeMs, now)|
    {
      var kept, keptCities;
      kept, keptCities, count := SweepStale(activeGames, gameCities, maxAgeMs, now);
      Restrict(activeGames, gameCities, initialDiseases, kept, keptCities);
      activeGames := kept;
      gameCities := keptCities;
    }
  }
}
