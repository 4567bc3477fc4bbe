/** The text labyrinth as a one-actor game (pychology/games/labyrinth.py):
    the actor, Python's `None`, walks over the level's tiles with 'w', 's',
    'a' and 'd' until it stands on the exit. */
module Labyrinth {
  import opened Common
  import opened Levels
  import opened Scores

  /** The level the module ships with. */
  const Level: string :=
    " .I\n  .\n..... ...\n.     .\n....... .\n.       .\n. .......\n. .   . .\n... ... .\n        .\n.........\n      .\n      O"

  /** The walkable tiles, the actor's position and the exit; the last two
      are `None` when the level has no 'I' or no 'O'. */
  datatype State = State(tiles: set<Coord>, position: Option<Coord>, wayOut: Option<Coord>)

  /** The moves, in the order `legal_moves` offers them. */
  const Moves: seq<char> := ['w', 's', 'a', 'd']

  /** Where a move leads from `c`: up, down, left, right. */
  function Step(c: Coord, m: char): Coord
    requires m in Moves
  {
    if m == 'w' then (c.0 - 1, c.1)
    else if m == 's' then (c.0 + 1, c.1)
    else if m == 'a' then (c.0, c.1 - 1)
    else (c.0, c.1 + 1)
  }

  /** A move's place in `Moves`. */
  function Rank(m: char): int {
    if m == 'w' then 0 else if m == 's' then 1 else if m == 'a' then 2 else 3
  }

  /** `initial_state` for a given level: its tiles, the last 'I' as the
      position and the last 'O' as the exit. */
  method InitialStateOf(level: string) returns (s: State)
    ensures var lines := Split(level, '\n');
            s.tiles == Tiles(lines) &&
            IsLast(lines, 'I', (|lines|, 0), s.position) &&
            IsLast(lines, 'O', (|lines|, 0), s.wayOut)
  {
    var lines, tiles, position, wayOut := Scan(level);
    s := State(tiles, position, wayOut);
  }

  /** `initial_state`: the shipped level. */
  method InitialState() returns (s: State)
    ensures var lines := Split(Level, '\n');
            s.tiles == Tiles(lines) &&
            IsLast(lines, 'I', (|lines|, 0), s.position) &&
            IsLast(lines, 'O', (|lines|, 0), s.wayOut)
  {
    s := InitialStateOf(Level);
  }

  /** `game_winner`: the list holding the one actor once the position is
      the exit (Python compares the two even when both are None), else
      None. */
  function Winner(s: State): (r: Option<seq<()>>)
    ensures r.Some? <==> s.position == s.wayOut
    ensures r.Some? ==> r.value == [()]
  {
    if s.position == s.wayOut then Some([()]) else None
  }

  /** `legal_moves`: the moves whose neighbouring coordinate is a tile, in
      the order 'w', 's', 'a', 'd'; unpacking a missing position raises
      TypeError. */
  function LegalMoves(s: State): (r: Result<seq<char>, Exc>)
    ensures r.Err? <==> s.position.None?
    ensures r.Err? ==> r.error == TypeError
    ensures r.Ok? ==> forall m :: m in r.value <==> m in Moves && Step(s.position.value, m) in s.tiles
    ensures r.Ok? ==> forall i, j :: 0 <= i < j < |r.value| ==> Rank(r.value[i]) < Rank(r.value[j])
  {
    if s.position.None? then Err(TypeError)
    else
      var (l, t) := s.position.value;
      Ok((if (l - 1, t) in s.tiles then ['w'] else []) +
         (if (l + 1, t) in s.tiles then ['s'] else []) +
         (if (l, t - 1) in s.tiles then ['a'] else []) +
         (if (l, t + 1) in s.tiles then ['d'] else []))
  }

  /** `make_move`: one step in the chosen direction; the tiles and the exit
      stay. A move other than the four leaves `position` unbound
      (UnboundLocalError); a missing position raises TypeError. */
  function MakeMove(s: State, move: char): (r: Result<State, Exc>)
    ensures s.position.None? ==> r == Err(TypeError)
    ensures s.position.Some? && move !in Moves ==> r == Err(UnboundLocalError)
    ensures r.Ok? <==> s.position.Some? && move in Moves
    ensures r.Ok? ==> r.value.tiles == s.tiles && r.value.wayOut == s.wayOut &&
                      r.value.position == Some(Step(s.position.value, move))
  {
    if s.position.None? then Err(TypeError)
    else
      var (l, t) := s.position.value;
      if move == 'w' then Ok(State(s.tiles, Some((l - 1, t)), s.wayOut))
      else if move == 's' then Ok(State(s.tiles, Some((l + 1, t)), s.wayOut))
      else if move == 'a' then Ok(State(s.tiles, Some((l, t - 1)), s.wayOut))
      else if move == 'd' then Ok(State(s.tiles, Some((l, t + 1)), s.wayOut))
      else Err(UnboundLocalError)
  }

  /** `hash_state`: the position. */
  function Hash(s: State): Option<Coord> {
    s.position
  }

  /** `evaluate_state`: +inf on the exit, 0 elsewhere. */
  function Evaluate(s: State): (r: Score)
    ensures r == PosInf <==> Winner(s).Some?
    ensures r != PosInf ==> r == Fin(0)
  {
    if Winner(s).Some? then PosInf else Fin(0)
  }

  /** Every legal move keeps the actor on a tile. */
  lemma LegalMovesStayOnTiles(s: State, m: char)
    requires LegalMoves(s).Ok? && m in LegalMoves(s).value
    ensures MakeMove(s, m).Ok? && MakeMove(s, m).value.position.value in s.tiles
  {
  }

  /** The opposite move undoes a move. */
  lemma MoveUndo(s: State, m: char)
    requires s.position.Some? && m in Moves
    ensures var back := if m == 'w' then 's' else if m == 's' then 'w' else if m == 'a' then 'd' else 'a';
            MakeMove(s, m).Ok? && MakeMove(MakeMove(s, m).value, back) == Ok(s)
  {
  }

  /** Over one level, the hash tells states apart. */
  lemma HashDistinguishes(s: State, s': State)
    requires s.tiles == s'.tiles && s.wayOut == s'.wayOut && Hash(s) == Hash(s')
    ensures s == s'
  {
  }
}
