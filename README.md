# Pandemic rules engine, modelled in Dafny

This project models the game rules of a browser clone of the board game
Pandemic, as three parts of the program implement them:

- **The server's session store** (`server/src/services/gameManager.ts`).
  Two maps keyed by game id hold the game states and their boards.
  - The actions are: create, join, start, move, treat, build a research
    station, discover a cure, end the turn, reset, and the sweep of idle
    games.
  - Every player action checks three things, in this order: the player is
    in the game, it is their turn, and they have an action left. It then
    changes the game in place.
  - Every game's disease records are the module-level `initialDiseases`
    records, shared through a shallow copy. Curing or eradicating a colour in
    one game therefore changes it in every game.
- **The board utilities** (`client/src/utils/gameLogic.ts`): the adjacency
  test, the win test, the seeding of distinct cities, and the recursive
  chain-outbreak propagation.
- **The front end's action handlers**
  (`client/src/components/PandemicGame.tsx` and its older copy
  `src/components/PandemicGame.js`). Only here are the Medic and Operations
  Expert roles and the move-adjacency rule enforced, and only here is the
  board seeded when a game starts. The two copies agree rule for rule, so
  one function or method models each handler of both. The `.js` copy has
  `startGame` at lines 590-635, `movePlayer` at 648-686, `treatDisease` at
  689-739, `buildResearchStation` at 742-790, `discoverCure` at 793-844,
  `endTurn` at 847-910 and `resetGame` at 940-984. Its own
  `areCitiesConnected` (lines 638-645) is the same test as the one in
  `client/src/utils/gameLogic.ts`, and `GameLogic.Connected` models both.
  The one difference is noted under "Left out".

Modules:

| file | module | models |
|---|---|---|
| `types.dfy` | `Types` | the records (city, player, disease, game state) and the constants |
| `ledger.dfy` | `Ledger` | cube bookkeeping shared by server and client: adding cubes, random draws as indices, board totals, and the end-of-turn infection step |
| `game_logic.dfy` | `GameLogic` | `areCitiesConnected`, `checkAllDiseasesCured`, `infectCities` |
| `outbreak.dfy` | `OutbreakChain` | `processOutbreak` |
| `game_manager.dfy` | `GameManager` | the server store, as class `Store` |
| `pandemic_game.dfy` | `PandemicGame` | the front end's handlers |

The model follows the code's own form:
- The server store is a class whose fields are the two maps and the shared
  disease records. Its methods change those fields and state the new state
  in full.
- The front end's spread-based handlers are functions from a `View` (game
  state and board) to the `View` they leave.
- `startGame`, `endTurn`, `infectCities` and the server's `endTurn` and
  `cleanupInactiveGames` loops are methods with loops:
  - `startGame`, both `endTurn`s and `cleanupInactiveGames` are proved
    equal to a specification function (`Seeded`, `InfectAll`, `Kept`), and
    the properties are proved about that function;
  - `infectCities` is proved to pick `Fresh(draws)`, the distinct cities
    drawn in order of first appearance, and to leave the board that the
    predicate `SeededFrom` describes.
- `processOutbreak` is a pair of mutually recursive functions. They return
  the new board, the chain set and the order in which cities broke out.

Inputs the program takes from its environment:
- Each `Math.random()` city draw is an index into `names`, the city names
  in `Object.keys` order. `KeyOrder(names, cities)` says that `names` lists
  the board's keys once each. `ValidDraws` says every index is in range.
- `Date.now()` is the parameter `now`.

### Where the model follows the code rather than the documented design

- Cube counts are not kept within 0..3 everywhere:
  - seeding never caps (`SeedingExceedsCap`);
  - `processOutbreak` does not cap a city already in the chain
    (`PairChain`);
  - the end-of-turn step caps at 3 but never chains to neighbours
    (`InfectAll`).
- Nothing calls `processOutbreak`.
- Sessions are not isolated: the disease records are shared between all
  server games (`Store.Valid`, `Store.DiscoverCure`, `Store.TreatDisease`).
- Re-creating a game id silently replaces the stored game
  (`Store.CreateGame`).
- The server never checks that a move goes to an adjacent city, or even to
  a city.
- The server removes `cubes` cubes in `treatDisease`. That amount comes from
  the client request (`cubes || 1` at `server/src/index.ts:291`).
- The front end's `discoverCure` does not check whether the colour is
  already cured, and does not check cards (`requiredCards` is computed and
  never used).

## Model

| member | source | states |
|---|---|---|
| Types.NextIndex | server/src/services/gameManager.ts:426 | the next turn index is below the player count; it is 0 exactly after the last player, and otherwise one more |
| Ledger.Picks | server/src/services/gameManager.ts:432-434 | the k-th drawn city is `names[draws[k]]`, one city per draw |
| Ledger.AddHome | client/src/components/PandemicGame.tsx:612-630 | adding n cubes to a city raises its home colour by n and its total by n; the other colours, the colour and the station are unchanged |
| Ledger.InfectAll | server/src/services/gameManager.ts:432-449 | the infection step keeps the board's cities and counts at most one outbreak per draw |
| Ledger.InfectFirst | server/src/services/gameManager.ts:432-449 | after k rounds of the infection loop, the board keeps its cities and at most k outbreaks were counted |
| Ledger.InfectAllFrame | server/src/services/gameManager.ts:432-449 | the infection step changes only the home colour of drawn cities whose colour is not eradicated, and each such city ends with at most 3; a city not drawn, or of an eradicated colour, is unchanged |
| Ledger.InfectAllTotal | server/src/services/gameManager.ts:432-449 | the board total grows by at most one per draw, minus one for each outbreak (an overflowing draw adds nothing) |
| GameLogic.Connected | client/src/utils/gameLogic.ts:13-18 | true exactly when some route equals (a, b) or (b, a) |
| GameLogic.ConnectedSymmetric | client/src/utils/gameLogic.ts:13-18 | the test does not depend on the order of the two cities |
| GameLogic.ConnectedIrreflexiveWithoutLoops | client/src/utils/gameLogic.ts:13-18 | without a route from a city to itself, no city is connected to itself |
| GameLogic.AllCured | client/src/utils/gameLogic.ts:53-55 | true exactly when every colour's disease record is cured |
| GameLogic.CureKeepsOthers | client/src/utils/gameLogic.ts:53-55 | curing a colour makes it cured, never uncures another, and gives a win exactly when all other colours were cured |
| GameLogic.InfectCities | client/src/utils/gameLogic.ts:27-46 | the loop finishes exactly when the draws name at least `count` distinct cities (`Fresh`); the cities it picks are the first `count` of them, pairwise distinct, and count ≤ number of cities; each picked city has `cubes` more of its home colour, every other city is unchanged, and the board total grew by count × cubes (`SeededFrom`) |
| GameLogic.DrawFresh | client/src/utils/gameLogic.ts:36-38 | the do-while redraws until a city not yet picked comes up: that city is the next one of `Fresh`, or the draws run out when every drawn city has been picked |
| GameLogic.FreshElems | client/src/utils/gameLogic.ts:33-40 | the cities picked are exactly the cities drawn, each once, so there are as many as there are distinct cities drawn |
| GameLogic.FreshGrows | client/src/utils/gameLogic.ts:33-40 | using more draws only appends to the cities picked so far |
| GameLogic.SeededStep | client/src/utils/gameLogic.ts:40-42 | adding `cubes` home cubes to one more city not picked before keeps `SeededFrom` and the picks distinct |
| OutbreakChain.Neighbors | client/src/utils/gameLogic.ts:77-79 | every neighbour listed is a route endpoint |
| OutbreakChain.NeighborsAreConnected | client/src/utils/gameLogic.ts:77-79 | a city is listed as a neighbour exactly when the adjacency test accepts the pair |
| OutbreakChain.ProcessOutbreak | client/src/utils/gameLogic.ts:66-104 | terminates (measure: route endpoints not yet in the chain); only the outbreak colour changes; the outbreaking cities start with the city itself, are pairwise distinct, and the later ones were not in the chain before; the final chain is the old chain plus those cities |
| OutbreakChain.SpreadTo | client/src/utils/gameLogic.ts:84-101 | serving neighbours in order changes only the outbreak colour; every city it makes break out is new to the chain and distinct; the chain grows by exactly those cities |
| OutbreakChain.OutbreakCubes | client/src/utils/gameLogic.ts:84-101 | a city that does not break out ends with its count plus one cube per route entry between it and each outbreaking city (duplicate routes deliver twice, chain members are not capped); a city that breaks out (never one already in the chain, by `ProcessOutbreak`) was delivered cubes taking it past 3, and ends with min(count, 3) plus the cubes delivered minus one, the one discarded when it was set back to 3; a city outside the chain that got a cube ends with at most 3 |
| OutbreakChain.BreaksOut | client/src/utils/gameLogic.ts:94-99 | a city outside the chain, other than the outbreak city, breaks out exactly when cubes were delivered to it and they take its count past 3 |
| OutbreakChain.SpreadCubes | client/src/utils/gameLogic.ts:84-101 | the same per-city account (`Account`) for serving a list of neighbours, counting the cubes the list hands out directly |
| OutbreakChain.JoinAccounts | client/src/utils/gameLogic.ts:94-100 | the account after a neighbour's outbreak followed by the remaining neighbours is the two accounts put together |
| OutbreakChain.SpreadCubesOutbreak | client/src/utils/gameLogic.ts:94-100 | the account when the first neighbour overflows and breaks out |
| OutbreakChain.OutbreakCount | client/src/utils/gameLogic.ts:71-74 | each city breaks out at most once per top-level call: there are at most one plus (endpoints not in the chain) outbreaks, and when the city was not in the chain the chain grows by exactly the number of outbreaks |
| OutbreakChain.OutbreaksWithinBoard | client/src/utils/gameLogic.ts:71-74 | for a city not in the chain, the outbreaks are at most the cities (it and the route endpoints) outside the chain, and for a board city at most the board's cities outside the chain: at most the number of cities when the chain starts empty |
| OutbreakChain.WithCubes | client/src/utils/gameLogic.ts:85-91 | replacing one count changes only that colour of that city |
| OutbreakChain.PairChain | client/src/utils/gameLogic.ts:94-99 | on a two-city cycle with both at 3, an outbreak at A breaks out B once and stops, and A ends with 4 |
| OutbreakChain.PairSecondOutbreak | client/src/utils/gameLogic.ts:94 | a neighbour already in the chain takes its cube and is neither capped nor broken out again |
| OutbreakChain.NeighborOccurrences | client/src/utils/gameLogic.ts:77-79 | an outbreak lists a city once per route entry between the two, in either direction (a self-route once), so each copy of a route delivers a cube |
| OutbreakChain.DuplicateRoute | client/src/utils/gameLogic.ts:77-90 | a route listed twice delivers two cubes |
| GameManager.FindPlayer | server/src/services/gameManager.ts:141 | the first index holding the player id, or -1 exactly when no player has it |
| GameManager.Authorize | server/src/services/gameManager.ts:141-157 | "Player not found", "Not your turn" and "No actions left" are reported exactly in their cases and in that order; when allowed, the index is the current one and the player has an action left |
| GameManager.Eradicated | server/src/services/gameManager.ts:437-440 | the colours whose shared record is eradicated, and only those |
| GameManager.TreatCity | server/src/services/gameManager.ts:225 | the count becomes max(0, count − cubes): never negative, and never higher when cubes ≥ 0; nothing else on the board changes |
| GameManager.AfterTreatment | server/src/services/gameManager.ts:230-238 | a colour becomes eradicated exactly when it is cured and no city holds a cube of it; nothing else changes, and eradicated still implies cured |
| GameManager.Cure | server/src/services/gameManager.ts:370-378 | the colour becomes cured and nothing else changes; the game is won exactly when every other colour was already cured |
| GameManager.ShareDiseases | server/src/services/gameManager.ts:36 | writing a shared record replaces the disease records of every stored game |
| GameManager.ShareCures | server/src/services/gameManager.ts:370-378 | writing a shared record that cures more keeps every game's invariant |
| GameManager.ShareAndReplace | server/src/services/gameManager.ts:230-246 | a shared write followed by replacing the acting game keeps the store's invariant |
| GameManager.Kept | server/src/services/gameManager.ts:558-564 | cleanup keeps exactly the games that are not stale (a nonzero timestamp older than the age limit) |
| GameManager.InfectDraws | server/src/services/gameManager.ts:428-449 | the loop leaves the board and outbreak count that `InfectAll` gives; the count rises by at most `infectionRate` |
| GameManager.InfectCity | server/src/services/gameManager.ts:433-448 | one loop round: eradicated colours are skipped; otherwise one cube, put back to 3 with one outbreak when it overflows |
| GameManager.SweepStale | server/src/services/gameManager.ts:554-567 | the games kept are `Kept`; a board stays exactly when its game stays or was never stored; the count is the number of stale games |
| GameManager.Store.constructor | server/src/services/gameManager.ts:11-21 | both maps empty and the shared disease records uncured; from here every action keeps the store invariant: each stored game has its own id, 1 to 4 players, a current index in range and the shared disease records; it is won only with every colour cured, and over only when won or at 8 outbreaks; a colour is eradicated only once cured |
| GameManager.Store.CreateGame | server/src/services/gameManager.ts:29-51 | stores the fresh game under its id, replacing any game stored there; one player, index 0, no outbreaks, not started, one station in Atlanta |
| GameManager.Store.GetGame | server/src/services/gameManager.ts:58-60 | the stored game, if any |
| GameManager.Store.GetCities | server/src/services/gameManager.ts:492-494 | the stored board, if any |
| GameManager.Store.GetFullGameState | server/src/services/gameManager.ts:535-547 | nothing for an unknown game, otherwise the game with the board stored under its id, if any; a re-created game keeps its previous board |
| GameManager.Store.AddPlayer | server/src/services/gameManager.ts:68-93 | undefined for an unknown game; "Game is full" at 4 or more players, checked before "already started"; otherwise the player is appended and nothing else changes |
| GameManager.Store.StartGame | server/src/services/gameManager.ts:101-124 | undefined for an unknown game; "Need at least 2 players" below 2, changing nothing; otherwise started, with the board stored under the id |
| GameManager.Store.MovePlayer | server/src/services/gameManager.ts:133-170 | after the three ordered checks (a refusal changes nothing), only that player's location and actions change, actions by −1, with no adjacency check |
| GameManager.Store.TreatDisease | server/src/services/gameManager.ts:181-247 | undefined without game or board; the ordered checks, then "City not found", then "No disease cubes to treat", each changing nothing; otherwise the board is `TreatCity`, one action is spent, and the shared records become `AfterTreatment` in every game |
| GameManager.Store.BuildResearchStation | server/src/services/gameManager.ts:256-313 | after the checks and "City not found" / "already exists", the city gets a station, its name is appended to the station list once, and one action is spent |
| GameManager.Store.DiscoverCure | server/src/services/gameManager.ts:322-391 | the player's location must be a city with a station and the colour uncured; then the shared record is cured in every game, one action is spent, and this game becomes won and over when every colour is now cured; otherwise both flags stay as they were (a game already over at 8 outbreaks stays over) |
| GameManager.Store.EndTurn | server/src/services/gameManager.ts:399-472 | only "not found" and "not your turn" are checked; actions reset to 4, the index advances with wrap-around, the board becomes `InfectAll` skipping eradicated colours, outbreaks never decrease and rise by at most `infectionRate`, and at 8 or more the game is over and not won |
| GameManager.Store.ResetGame | server/src/services/gameManager.ts:479-485 | both entries are removed; the result is true exactly when both existed |
| GameManager.Store.CleanupInactiveGames | server/src/services/gameManager.ts:554-567 | removes exactly the stale games and their boards, and returns how many games it removed |
| PandemicGame.Spend | client/src/components/PandemicGame.tsx:667-671 | a player with one action fewer and nothing else changed |
| PandemicGame.MovePlayer | client/src/components/PandemicGame.tsx:648-684 | the state changes exactly when the game is running, it is the local player's turn, the target is adjacent or the current city, and an action is left; only that player's location and actions change |
| PandemicGame.TreatDisease | client/src/components/PandemicGame.tsx:687-738 | changes exactly when the player may act, stands on a board city holding a cube of the colour, and has an action; the count drops to 0 when the colour is cured or the player is a Medic, else by 1, so it never goes negative; one action is spent; nothing else changes |
| PandemicGame.BuildResearchStation | client/src/components/PandemicGame.tsx:741-788 | changes exactly when the player may act, the city has no station, an action is left, and the player is an Operations Expert or holds the city's card; the city gets a station, its name is appended once, one action is spent |
| PandemicGame.DiscoverCure | client/src/components/PandemicGame.tsx:791-840 | at a station city with an action left, the colour is cured whether or not it was, the other colours are unchanged, one action is spent, and gameWon = gameOver = every colour cured |
| PandemicGame.ResetGame | client/src/components/PandemicGame.tsx:906-950 | the initial game state; every city keeps its colour, holds no cube, and has a station exactly when it is Atlanta |
| PandemicGame.ResetIdempotent | client/src/components/PandemicGame.tsx:906-950 | resetting twice is resetting once |
| PandemicGame.ResetEmptiesBoard | client/src/components/PandemicGame.tsx:940-949 | a reset board holds no cube |
| PandemicGame.SeedAmount | client/src/components/PandemicGame.tsx:612-630 | each seeding draw adds 1 to 3 cubes: 3 for the first three draws, 2 for the next three, 1 for the last three |
| PandemicGame.Seeded | client/src/components/PandemicGame.tsx:612-630 | seeding keeps the board's cities |
| PandemicGame.SeededTotal | client/src/components/PandemicGame.tsx:612-630 | seeding adds exactly the drawn amounts to the board total |
| PandemicGame.StartGameAdds18 | client/src/components/PandemicGame.tsx:612-630 | the nine seeding draws add exactly 18 cubes |
| PandemicGame.SeededFrame | client/src/components/PandemicGame.tsx:612-630 | seeding changes only home colours, and leaves every city no draw picked unchanged |
| PandemicGame.SeededColor | client/src/components/PandemicGame.tsx:612-630 | seeding never changes a city's colour |
| PandemicGame.SeededHome | client/src/components/PandemicGame.tsx:612-630 | a city ends with its earlier home count plus every amount drawn on it, repeats included |
| PandemicGame.LandedAll | client/src/components/PandemicGame.tsx:612-630 | when every draw picks the same city, all the cubes land on it |
| PandemicGame.SeedingExceedsCap | client/src/components/PandemicGame.tsx:612-630 | seeding does not cap: nine draws on one empty city leave it with 18 cubes, above 3 |
| PandemicGame.StartGame | client/src/components/PandemicGame.tsx:602-645 | below 2 players nothing changes; otherwise the game is started and the board is `Seeded` by the nine draws |
| PandemicGame.SeedRound | client/src/components/PandemicGame.tsx:612-616 | one of the three seeding loops advances the board by three draws of `Seeded` |
| PandemicGame.Infect | client/src/components/PandemicGame.tsx:873-887 | the front end's infection loop leaves the board and outbreak count that `InfectAll` gives with no colour skipped; the count rises by at most the rate |
| PandemicGame.InfectCity | client/src/components/PandemicGame.tsx:874-886 | one loop round: one cube, put back to 3 with one outbreak when it overflows |
| PandemicGame.EndTurn | client/src/components/PandemicGame.tsx:843-903 | nothing changes unless the local player may act; otherwise actions reset to 4, the index advances with wrap-around, the board is `InfectAll` with no eradication check, outbreaks rise by at most the rate, gameOver becomes (outbreaks ≥ 8 or already over), and gameWon is left alone |

## Left out

- Transport: the Express and socket.io routing, room broadcasts, the
  6-hour cleanup timer (`server/src/index.ts`), `sendMessage`, and the
  WebSocket hooks. Only the effect of `cubes || 1`
  (`server/src/index.ts:291`) is noted: the server's treat amount is a free
  parameter.
- `updatePlayerSocket` (`server/src/services/gameManager.ts:503-533`): it
  records a socket id, which is transport bookkeeping with no game rule.
- The JSX rendering, and the UI state reset in `resetGame` (`setIsHost`,
  `setPlayerId`, `setShowJoinGame`). The front end's `createGame` and
  `joinGame` generate ids and send messages.
- Randomness: `generateGameId`, `generatePlayerId` and the distribution
  behind `Math.random`. Each draw is an index parameter.
- Clocks: `Date.now()` is the parameter `now`. The front end's states carry
  no timestamp; `lastUpdateTime` 0 stands for that.
- Aliasing of city records: `{...cities}` copies are shallow, so the `+=`
  in the front end's `startGame` and `endTurn` changes the city records of
  the previous React state, and the `+=` in `infectCities`
  (`client/src/utils/gameLogic.ts:28`, `:42`) changes the caller's city
  records. `PandemicGame.StartGame`, `PandemicGame.EndTurn` and
  `GameLogic.InfectCities` return a new board and do not capture that the
  board passed in is changed too.
- The default `maxAgeMs` of `cleanupInactiveGames` (one day): the model's
  `CleanupInactiveGames` always takes the age as an argument.
- `PandemicGame.TreatDisease`, `PandemicGame.BuildResearchStation`,
  `PandemicGame.DiscoverCure`: these follow the `.tsx` copy, which does
  nothing when the player's location is not on the board. The `.js` copy
  reads a field of `undefined` there and throws a TypeError; the handler is
  an event callback, so the state is left unchanged either way.
- `PandemicGame.StartGame`, `PandemicGame.EndTurn`, `GameManager.Store.EndTurn`:
  on an empty board, a draw yields `undefined` and the loop throws (on the
  server, after the turn has already advanced). The draws' precondition
  (every index below the number of cities) excludes that case. On an empty
  board with a positive number of draws it also excludes these members'
  refusal paths, which the source takes normally there: fewer than 2
  players for `PandemicGame.StartGame`, a player who may not act for
  `PandemicGame.EndTurn`, and "Not your turn" for a stored game in
  `GameManager.Store.EndTurn` (an unknown game needs no draws and is
  modelled).
- `GameLogic.InfectCities`: on an empty board with `count >= 1` the source
  throws on the first pick (it reads the colour of `undefined`); the model
  returns `None`, the same result it gives for draws that run out.
- `PandemicGame.MovePlayer` and the other handlers require
  `currentPlayerIndex` to be in range while the game is running (`Seated`).
  Otherwise `players[currentPlayerIndex]` is `undefined` and the source
  throws.
- `OutbreakChain.ProcessOutbreak`: requires every route to end at a board
  city (`OnBoard`). The source throws only when a city that breaks out has
  a route to a city not on the board, because it reads the counts of
  `undefined` (client/src/utils/gameLogic.ts:84-88). A route list whose
  off-board routes the source never reads is also excluded, although the
  source handles it normally. The game's own route list meets `OnBoard`:
  every endpoint of `cityConnections` is a board city
  (client/src/components/PandemicGame.tsx:416, src/components/PandemicGame.js:358).
  Nothing in the game calls `processOutbreak` except its own recursion.
- Floating point: counts, actions and `cubes` are integers. A fractional or
  `NaN` amount sent to the server's `treatDisease` is not modelled.
- The card-cost rules (`requiredCards`, the hand limit), the 24-cube supply
  and the infection-rate track: the code never uses or updates them, so
  there is nothing to model beyond their initial values.
- Concurrency: the server is single-threaded.
