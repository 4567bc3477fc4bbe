/** The text-level scanner shared by the A* maze example and the labyrinth
    game: a level is split into lines, and every '.', 'I' or 'O' character
    is a walkable tile at (line index, column index). */
module Levels {
  import opened Common

  /** A (line, column) position in a level. */
  type Coord = (int, int)

  /** The characters that are walkable tiles. */
  predicate IsTile(ch: char) {
    ch == '.' || ch == 'I' || ch == 'O'
  }

  /** `c` comes strictly before `d` in reading order. */
  predicate Before(c: Coord, d: Coord) {
    c.0 < d.0 || (c.0 == d.0 && c.1 < d.1)
  }

  /** The tiles that come before `end` in reading order. */
  ghost function TilesBefore(lines: seq<string>, end: Coord): set<Coord> {
    set l, t | 0 <= l < |lines| && 0 <= t < |lines[l]| && Before((l, t), end) && IsTile(lines[l][t]) :: (l, t)
  }

  /** Every tile of the level. */
  ghost function Tiles(lines: seq<string>): set<Coord> {
    TilesBefore(lines, (|lines|, 0))
  }

  /** `r` is the last position before `end` that holds `ch`, or `None` when
      no position before `end` holds it. */
  ghost predicate IsLast(lines: seq<string>, ch: char, end: Coord, r: Option<Coord>) {
    (r.None? ==>
       forall l, t :: 0 <= l < |lines| && 0 <= t < |lines[l]| && Before((l, t), end) ==> lines[l][t] != ch) &&
    (r.Some? ==>
       0 <= r.value.0 < |lines| && 0 <= r.value.1 < |lines[r.value.0]| && Before(r.value, end) &&
       lines[r.value.0][r.value.1] == ch &&
       forall l, t :: 0 <= l < |lines| && 0 <= t < |lines[l]| && Before((l, t), end) && lines[l][t] == ch ==>
         !Before(r.value, (l, t)))
  }

  /** Moving `end` one character on adds that character if it is a tile. */
  lemma TilesStep(lines: seq<string>, l: int, t: int)
    requires 0 <= l < |lines| && 0 <= t < |lines[l]|
    ensures TilesBefore(lines, (l, t + 1)) ==
            TilesBefore(lines, (l, t)) + (if IsTile(lines[l][t]) then {(l, t)} else {})
  {
  }

  /** The end of a line and the start of the next bound the same tiles. */
  lemma TilesNextLine(lines: seq<string>, l: int)
    requires 0 <= l < |lines|
    ensures TilesBefore(lines, (l, |lines[l]|)) == TilesBefore(lines, (l + 1, 0))
  {
  }

  /** Moving `end` one character on makes that character the last
      occurrence if it is the one looked for. */
  lemma LastStep(lines: seq<string>, ch: char, l: int, t: int, r: Option<Coord>)
    requires 0 <= l < |lines| && 0 <= t < |lines[l]| && IsLast(lines, ch, (l, t), r)
    ensures IsLast(lines, ch, (l, t + 1), if lines[l][t] == ch then Some((l, t)) else r)
  {
  }

  /** The end of a line and the start of the next bound the same
      occurrences of a character. */
  lemma LastNextLine(lines: seq<string>, ch: char, l: int, r: Option<Coord>)
    requires 0 <= l < |lines| && IsLast(lines, ch, (l, |lines[l]|), r)
    ensures IsLast(lines, ch, (l + 1, 0), r)
  {
  }

  /** The scanning loops of `create_adjacency_from_string` and of the
      labyrinth's `initial_state`: the tiles, and the last 'I' and the
      last 'O' in reading order (a later one overwrites an earlier one). */
  method Scan(level: string) returns (lines: seq<string>, tiles: set<Coord>, start: Option<Coord>, exit: Option<Coord>)
    ensures lines == Split(level, '\n')
    ensures tiles == Tiles(lines)
    ensures IsLast(lines, 'I', (|lines|, 0), start)
    ensures IsLast(lines, 'O', (|lines|, 0), exit)
  {
    lines := Split(level, '\n');
    tiles, start, exit := {}, None, None;
    for l := 0 to |lines|
      invariant tiles == TilesBefore(lines, (l, 0))
      invariant IsLast(lines, 'I', (l, 0), start) && IsLast(lines, 'O', (l, 0), exit)
    {
      var line := lines[l];
      for t := 0 to |line|
        invariant tiles == TilesBefore(lines, (l, t))
        invariant IsLast(lines, 'I', (l, t), start) && IsLast(lines, 'O', (l, t), exit)
      {
        TilesStep(lines, l, t);
        LastStep(lines, 'I', l, t, start);
        LastStep(lines, 'O', l, t, exit);
        var ch := line[t];
        if IsTile(ch) {
          tiles := tiles + {(l, t)};
          if ch == 'I' {
            start := Some((l, t));
          } else if ch == 'O' {
            exit := Some((l, t));
          }
        }
      }
      TilesNextLine(lines, l);
      LastNextLine(lines, 'I', l, start);
      LastNextLine(lines, 'O', l, exit);
    }
  }
}
