/** The text-labyrinth example for A* (examples/a_star_on_text_labyrinth.py):
    a level string becomes an adjacency dict of four-neighbour tiles at
    cost 1, and a found path is drawn back into the level as '*'. */
module Maze {
  import opened Common
  import opened Levels
  import AStar

  /** The four directions, in the order the neighbours are added. */
  const Deltas: seq<Coord> := [(-1, 0), (1, 0), (0, -1), (0, 1)]

  function Shift(c: Coord, d: Coord): Coord {
    (c.0 + d.0, c.1 + d.1)
  }

  /** `a` and `b` are four-neighbours. */
  predicate Adjacent(a: Coord, b: Coord) {
    (a.0 == b.0 && (a.1 - b.1 == 1 || b.1 - a.1 == 1)) ||
    (a.1 == b.1 && (a.0 - b.0 == 1 || b.0 - a.0 == 1))
  }

  /** The (neighbour, cost) entries a tile's dict receives from the
      directions `ds`, in insertion order. */
  function Adjacents(tiles: set<Coord>, c: Coord, ds: seq<Coord>): seq<(Coord, int)> {
    if ds == [] then []
    else
      var d := ds[|ds| - 1];
      Adjacents(tiles, c, ds[..|ds| - 1]) + (if Shift(c, d) in tiles then [(Shift(c, d), 1)] else [])
  }

  /** The entry one direction contributes. */
  function Entry(tiles: set<Coord>, x: Coord): seq<(Coord, int)> {
    if x in tiles then [(x, 1)] else []
  }

  /** The four directions unrolled. */
  lemma AdjacentsUnrolled(tiles: set<Coord>, c: Coord)
    ensures Adjacents(tiles, c, Deltas) ==
            Entry(tiles, (c.0 - 1, c.1)) + Entry(tiles, (c.0 + 1, c.1)) + Entry(tiles, (c.0, c.1 - 1)) + Entry(tiles, (c.0, c.1 + 1))
  {
    assert Deltas[..1] == [(-1, 0)] && Deltas[..1][..0] == [];
    assert Deltas[..2] == [(-1, 0), (1, 0)] && Deltas[..2][..1] == Deltas[..1];
    assert Deltas[..3] == [(-1, 0), (1, 0), (0, -1)] && Deltas[..3][..2] == Deltas[..2];
    assert Deltas[..4][..3] == Deltas[..3];
    assert Adjacents(tiles, c, Deltas[..1][..0]) == [];
    assert Adjacents(tiles, c, Deltas[..1]) == Entry(tiles, (c.0 - 1, c.1));
    assert Adjacents(tiles, c, Deltas[..2]) == Adjacents(tiles, c, Deltas[..1]) + Entry(tiles, (c.0 + 1, c.1));
    assert Adjacents(tiles, c, Deltas[..3]) == Adjacents(tiles, c, Deltas[..2]) + Entry(tiles, (c.0, c.1 - 1));
    assert Deltas[..4] == Deltas;
  }

  /** A tile's entries are exactly its four-neighbours that are tiles, each
      once and at cost 1. */
  lemma NeighbourEntries(tiles: set<Coord>, c: Coord)
    ensures forall x, w :: (x, w) in Adjacents(tiles, c, Deltas) <==> x in tiles && Adjacent(c, x) && w == 1
    ensures forall i, j :: 0 <= i < j < |Adjacents(tiles, c, Deltas)| ==>
              Adjacents(tiles, c, Deltas)[i].0 != Adjacents(tiles, c, Deltas)[j].0
  {
    AdjacentsUnrolled(tiles, c);
    forall x, w ensures (x, w) in Adjacents(tiles, c, Deltas) <==> x in tiles && Adjacent(c, x) && w == 1 {
      NeighbourMember(tiles, c, x, w);
    }
    NeighbourDistinct(tiles, c);
  }

  /** The entry for one direction holds `x` exactly when `x` is that
      neighbour and a tile. */
  lemma EntryMember(tiles: set<Coord>, y: Coord, x: Coord, w: int)
    ensures (x, w) in Entry(tiles, y) <==> x == y && y in tiles && w == 1
  {
  }

  lemma NeighbourMember(tiles: set<Coord>, c: Coord, x: Coord, w: int)
    ensures (x, w) in Entry(tiles, (c.0 - 1, c.1)) + Entry(tiles, (c.0 + 1, c.1)) + Entry(tiles, (c.0, c.1 - 1)) + Entry(tiles, (c.0, c.1 + 1))
            <==> x in tiles && Adjacent(c, x) && w == 1
  {
    var p1, p2, p3, p4 := (c.0 - 1, c.1), (c.0 + 1, c.1), (c.0, c.1 - 1), (c.0, c.1 + 1);
    EntryMember(tiles, p1, x, w);
    EntryMember(tiles, p2, x, w);
    EntryMember(tiles, p3, x, w);
    EntryMember(tiles, p4, x, w);
    assert Adjacent(c, x) <==> x == p1 || x == p2 || x == p3 || x == p4;
  }

  lemma NeighbourDistinct(tiles: set<Coord>, c: Coord)
    ensures DistinctIn(Entry(tiles, (c.0 - 1, c.1)) + Entry(tiles, (c.0 + 1, c.1)) + Entry(tiles, (c.0, c.1 - 1)) + Entry(tiles, (c.0, c.1 + 1)),
                       {(c.0 - 1, c.1), (c.0 + 1, c.1), (c.0, c.1 - 1), (c.0, c.1 + 1)})
  {
    var p1, p2, p3, p4 := (c.0 - 1, c.1), (c.0 + 1, c.1), (c.0, c.1 - 1), (c.0, c.1 + 1);
    var e1, e2, e3, e4 := Entry(tiles, p1), Entry(tiles, p2), Entry(tiles, p3), Entry(tiles, p4);
    EntryDistinct(tiles, p1);
    EntryDistinct(tiles, p2);
    EntryDistinct(tiles, p3);
    EntryDistinct(tiles, p4);
    DistinctAppend(e1, e2, {p1}, {p2});
    DistinctAppend(e1 + e2, e3, {p1} + {p2}, {p3});
    DistinctAppend(e1 + e2 + e3, e4, {p1} + {p2} + {p3}, {p4});
    assert {p1} + {p2} + {p3} + {p4} == {p1, p2, p3, p4};
  }

  /** No two entries share a coordinate, and each coordinate is in `xs`. */
  ghost predicate DistinctIn(s: seq<(Coord, int)>, xs: set<Coord>) {
    (forall i :: 0 <= i < |s| ==> s[i].0 in xs) &&
    forall i, j :: 0 <= i < j < |s| ==> s[i].0 != s[j].0
  }

  /** A single entry, or none, for the coordinate `x`. */
  lemma EntryDistinct(tiles: set<Coord>, x: Coord)
    ensures DistinctIn(Entry(tiles, x), {x})
  {
  }

  /** Entries over disjoint coordinates stay distinct when appended. */
  lemma DistinctAppend(a: seq<(Coord, int)>, b: seq<(Coord, int)>, xs: set<Coord>, ys: set<Coord>)
    requires DistinctIn(a, xs) && DistinctIn(b, ys) && xs !! ys
    ensures DistinctIn(a + b, xs + ys)
  {
    var ab := a + b;
    forall i, j | 0 <= i < j < |ab| ensures ab[i].0 != ab[j].0 {
      if j < |a| {
        assert ab[i] == a[i] && ab[j] == a[j];
      } else if i < |a| {
        assert ab[i] == a[i] && ab[j] == b[j - |a|];
      } else {
        assert ab[i] == b[i - |a|] && ab[j] == b[j - |a|];
      }
    }
    forall i | 0 <= i < |ab| ensures ab[i].0 in xs + ys {
      if i < |a| {
        assert ab[i] == a[i];
      } else {
        assert ab[i] == b[i - |a|];
      }
    }
  }

  /** The adjacency dict of tiles in `tiles`, each mapped to its entries. */
  ghost predicate IsAdjacency(tiles: set<Coord>, adj: map<Coord, seq<(Coord, int)>>) {
    adj.Keys == tiles && forall t :: t in adj ==> adj[t] == Adjacents(tiles, t, Deltas)
  }

  /** An adjacency dict lists exactly the four-neighbour tiles of each
      tile at cost 1, each once; so it is symmetric and no tile neighbours
      itself. */
  lemma AdjacencyFacts(tiles: set<Coord>, adj: map<Coord, seq<(Coord, int)>>)
    requires IsAdjacency(tiles, adj)
    ensures forall t, x, w :: t in adj ==> ((x, w) in adj[t] <==> x in adj && Adjacent(t, x) && w == 1)
    ensures forall t, i, j :: t in adj && 0 <= i < j < |adj[t]| ==> adj[t][i].0 != adj[t][j].0
    ensures forall a, b :: a in adj && (b, 1) in adj[a] ==> b in adj && (a, 1) in adj[b]
    ensures forall a, w :: a in adj ==> (a, w) !in adj[a]
  {
    forall t | t in adj {
      NeighbourEntries(tiles, t);
    }
  }

  /** The inner loop of `create_adjacency_from_string`: one tile's dict. */
  method TileAdjacents(tiles: set<Coord>, tile: Coord) returns (adjacents: seq<(Coord, int)>)
    ensures adjacents == Adjacents(tiles, tile, Deltas)
  {
    adjacents := [];
    for k := 0 to |Deltas|
      invariant adjacents == Adjacents(tiles, tile, Deltas[..k])
    {
      assert Deltas[..k + 1][..k] == Deltas[..k];
      var dc := Shift(tile, Deltas[k]);
      if dc in tiles {
        adjacents := adjacents + [(dc, 1)];
      }
    }
    assert Deltas[..|Deltas|] == Deltas;
  }

  /** The outer loop of `create_adjacency_from_string`: every tile gets its
      dict. */
  method TilesAdjacency(tiles: set<Coord>) returns (adj: map<Coord, seq<(Coord, int)>>)
    ensures IsAdjacency(tiles, adj)
  {
    adj := map[];
    var rest := tiles;
    while rest != {}
      invariant rest <= tiles && adj.Keys == tiles - rest
      invariant forall t :: t in adj ==> adj[t] == Adjacents(tiles, t, Deltas)
      decreases |rest|
    {
      var tile :| tile in rest;
      var adjacents := TileAdjacents(tiles, tile);
      adj := adj[tile := adjacents];
      rest := rest - {tile};
    }
  }

  /** `create_adjacency_from_string`: the tiles as keys, each with its
      (neighbour, 1) entries; the last 'I' as start (None without one); the
      last 'O' as end, and UnboundLocalError when the level has no 'O'. */
  method CreateAdjacency(level: string) returns (r: Result<(map<Coord, seq<(Coord, int)>>, Option<Coord>, Coord), Exc>)
    ensures var lines := Split(level, '\n');
            (r.Err? <==> IsLast(lines, 'O', (|lines|, 0), None)) &&
            (r.Err? ==> r.error == UnboundLocalError) &&
            (r.Ok? ==>
               IsAdjacency(Tiles(lines), r.value.0) &&
               IsLast(lines, 'I', (|lines|, 0), r.value.1) &&
               IsLast(lines, 'O', (|lines|, 0), Some(r.value.2)))
  {
    var lines, tiles, start, exit := Scan(level);
    var adj := TilesAdjacency(tiles);
    if exit.None? {
      return Err(UnboundLocalError);
    }
    return Ok((adj, start, exit.value));
  }

  /** A maze's adjacency, read through `get_neighbors_and_costs` with
      `estimate_zero`, is a graph closed over its tiles in which A* finds a
      cheapest path. */
  lemma {:induction false} MazeIsDijkstra(adj: map<Coord, seq<(Coord, int)>>)
    requires forall t, x, w :: t in adj ==> ((x, w) in adj[t] <==> x in adj && Adjacent(t, x) && w == 1)
    ensures AStar.Closed(AStar.NeighborsAndCosts(adj), adj.Keys)
    ensures AStar.Dijkstra(AStar.NeighborsAndCosts(adj), AStar.EstimateZero)
  {
    var succ := AStar.NeighborsAndCosts(adj);
    forall n, x, c | succ(n).Ok? && (x, c) in succ(n).value
      ensures x in adj && c >= 0
    {
      assert succ(n).value == adj[n];
    }
  }

  // ---------------------------------------------------------------------
  // The string-building part of print_labyrinth

  /** The character drawn for position `c`: '*' on the path, else the
      level's own character. */
  function Mark(ch: char, c: Coord, path: Option<seq<Coord>>): char {
    if path.Some? && c in path.value then '*' else ch
  }

  /** Line `l` of the level, annotated. */
  function AnnotatedLine(line: string, l: int, path: Option<seq<Coord>>): (s: string)
    ensures |s| == |line|
  {
    if |line| == 0 then ""
    else AnnotatedLine(line[..|line| - 1], l, path) + [Mark(line[|line| - 1], (l, |line| - 1), path)]
  }

  /** The annotated level: every line annotated and followed by '\n'. */
  function Annotated(lines: seq<string>, path: Option<seq<Coord>>): string {
    if |lines| == 0 then ""
    else Annotated(lines[..|lines| - 1], path) + AnnotatedLine(lines[|lines| - 1], |lines| - 1, path) + "\n"
  }

  /** The loops of `print_labyrinth` that build the annotated level. */
  method Annotate(level: string, path: Option<seq<Coord>>) returns (out: string)
    ensures out == Annotated(Split(level, '\n'), path)
  {
    var lines := Split(level, '\n');
    out := "";
    for l := 0 to |lines|
      invariant out == Annotated(lines[..l], path)
    {
      var line := lines[l];
      ghost var before := out;
      for t := 0 to |line|
        invariant out == before + AnnotatedLine(line[..t], l, path)
      {
        assert line[..t + 1][..t] == line[..t];
        if path.Some? && (l, t) in path.value {
          out := out + "*";
        } else {
          out := out + [line[t]];
        }
      }
      assert line[..|line|] == line;
      out := out + "\n";
      assert lines[..l + 1][..l] == lines[..l];
    }
    assert lines[..|lines|] == lines;
  }

  /** Each character of an annotated line is the level's own or '*', and it
      is '*' exactly at the path's positions. */
  lemma {:induction false} AnnotatedLineAt(line: string, l: int, path: Option<seq<Coord>>)
    ensures forall t :: 0 <= t < |line| ==>
              AnnotatedLine(line, l, path)[t] == (if path.Some? && (l, t) in path.value then '*' else line[t])
    decreases |line|
  {
    if |line| > 0 {
      AnnotatedLineAt(line[..|line| - 1], l, path);
    }
  }

  lemma {:induction false} JoinSnoc(parts: seq<string>, x: string, sep: char)
    requires |parts| >= 1
    ensures Join(parts + [x], sep) == Join(parts, sep) + [sep] + x
    decreases |parts|
  {
    if |parts| > 1 {
      assert (parts + [x])[1..] == parts[1..] + [x];
      JoinSnoc(parts[1..], x, sep);
    }
  }

  /** With no path the annotated level is the level itself plus a final
      newline. */
  lemma {:induction false} AnnotatedNoPath(level: string)
    ensures Annotated(Split(level, '\n'), None) == level + "\n"
  {
    var lines := Split(level, '\n');
    SplitJoin(level, '\n');
    AnnotatedPlain(lines);
  }

  lemma {:induction false} AnnotatedPlain(lines: seq<string>)
    requires |lines| >= 1
    ensures Annotated(lines, None) == Join(lines, '\n') + "\n"
    decreases |lines|
  {
    var n := |lines|;
    var last := lines[n - 1];
    AnnotatedLineAt(last, n - 1, None);
    assert AnnotatedLine(last, n - 1, None) == last;
    if n == 1 {
      assert Annotated(lines[..0], None) == "";
    } else {
      AnnotatedPlain(lines[..n - 1]);
      JoinSnoc(lines[..n - 1], last, '\n');
      assert lines[..n - 1] + [last] == lines;
    }
  }
}
