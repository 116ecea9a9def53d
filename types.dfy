/** The records the game is made of: disease colours, cities, players, disease
    states and the game state, shared by the server and the two front ends,
    together with the game's constants. */
module Types {

  datatype Option<T> = None | Some(value: T)

  /** The four disease colours of the reference board. */
  datatype Color = Red | Blue | Yellow | Black

  /** Cube counts of one city, one per colour. Counts are plain integers:
      nothing in the type keeps them within [0, 3]. */
  datatype Infections = Infections(red: int, blue: int, yellow: int, black: int)
  {
    function Get(c: Color): int
    {
      match c
      case Red => red
      case Blue => blue
      case Yellow => yellow
      case Black => black
    }

    /** The counts with colour `c` replaced by `n`. */
    function Set(c: Color, n: int): (r: Infections)
      ensures r.Get(c) == n
      ensures forall d :: d != c ==> r.Get(d) == Get(d)
    {
      match c
      case Red => this.(red := n)
      case Blue => this.(blue := n)
      case Yellow => this.(yellow := n)
      case Black => this.(black := n)
    }

    /** All cubes on this city, whatever their colour. */
    function Total(): int
    {
      red + blue + yellow + black
    }
  }

  const NO_INFECTIONS := Infections(0, 0, 0, 0)

  /** A city: its home colour, its cube counts and whether it has a station. */
  datatype City = City(color: Color, infections: Infections, researchStation: bool)

  /** The board: city name to city. */
  type Cities = map<string, City>

  /** A route between two cities, as the pair of their names. */
  type Connection = (string, string)

  datatype Player = Player(
    id: string,
    name: string,
    role: string,
    location: string,
    cards: seq<string>,
    actions: int)

  datatype Disease = Disease(cured: bool, eradicated: bool, cubes: int)

  /** One disease record per colour. */
  datatype Diseases = Diseases(red: Disease, blue: Disease, yellow: Disease, black: Disease)
  {
    function Get(c: Color): Disease
    {
      match c
      case Red => red
      case Blue => blue
      case Yellow => yellow
      case Black => black
    }

    function Set(c: Color, d: Disease): (r: Diseases)
      ensures r.Get(c) == d
      ensures forall e :: e != c ==> r.Get(e) == Get(e)
    {
      match c
      case Red => this.(red := d)
      case Blue => this.(blue := d)
      case Yellow => this.(yellow := d)
      case Black => this.(black := d)
    }
  }

  /** The game state. Counters that the code only ever sets to 0 or
      increments are typed `nat`. `lastUpdateTime` is 0 where the state
      carries no timestamp (the front ends' states never do). */
  datatype GameState = GameState(
    gameId: string,
    started: bool,
    players: seq<Player>,
    currentPlayerIndex: nat,
    diseases: Diseases,
    infectionRate: nat,
    infectionRateTrack: seq<int>,
    infectionRateIndex: int,
    outbreaks: nat,
    researchStations: seq<string>,
    gameOver: bool,
    gameWon: bool,
    lastUpdateTime: int)

  const MAX_PLAYERS := 4
  const ACTIONS_PER_TURN := 4
  const MAX_OUTBREAKS := 8
  const MIN_PLAYERS_TO_START := 2
  const CUBE_CAP := 3
  const INITIAL_SUPPLY := 24
  const INITIAL_INFECTION_RATE := 2
  const STARTING_LOCATION := "Atlanta"
  const MEDIC := "Medic"
  const OPERATIONS_EXPERT := "Operations Expert"

  const UNCURED := Disease(false, false, INITIAL_SUPPLY)
  const INITIAL_DISEASES := Diseases(UNCURED, UNCURED, UNCURED, UNCURED)
  const INFECTION_RATE_TRACK := [2, 2, 2, 3, 3, 4, 4]

  /** The state every front end starts from and returns to on reset. */
  const INITIAL_GAME_STATE := GameState(
    "", false, [], 0, INITIAL_DISEASES, INITIAL_INFECTION_RATE,
    INFECTION_RATE_TRACK, 0, 0, [STARTING_LOCATION], false, false, 0)

  /** The turn order, `(i + 1) % n`: the player after `i` of `n`, wrapping
      from the last to the first. */
  function NextIndex(i: nat, n: nat): (r: nat)
    requires i < n
    ensures r < n
    ensures r == 0 <==> i == n - 1
    ensures r != 0 ==> r == i + 1
  {
    (i + 1) % n
  }
}
