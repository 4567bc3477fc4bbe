/** Connect four (pychology/games/four_in_a_row.py): seven columns of at
    most six pieces, X and O alternate dropping a piece into a column, and
    four equal pieces in a column, row or diagonal win. */
module FourInARow {
  import opened Common
  import opened Scores

  datatype Mark = X | O

  /** What `game_winner` reports: a player, or DRAW (Python's 3). */
  datatype Outcome = Win(mark: Mark) | Draw

  const Rows: nat := 6
  const Columns: nat := 7

  /** Each column lists its pieces bottom-up; the player to move. */
  datatype State = State(board: seq<seq<Mark>>, player: Mark)

  predicate WellFormed(s: State) {
    |s.board| == Columns
  }

  /** `initial_state`: seven empty columns, X to move. */
  function InitialState(): (s: State)
    ensures WellFormed(s) && s.player == X
    ensures forall c :: 0 <= c < Columns ==> s.board[c] == []
  {
    State([[], [], [], [], [], [], []], X)
  }

  /** `get_tile`: the piece at a row of a column, absent above its top. */
  function Tile(board: seq<seq<Mark>>, c: int, r: int): Option<Mark> {
    if 0 <= c < |board| && 0 <= r < |board[c]| then Some(board[c][r]) else None
  }

  // ---------------------------------------------------------------------
  // The windows of four that game_winner inspects

  /** The four scans of `game_winner`: 0 columns, 1 rows, 2 upward
      diagonals, 3 downward diagonals. Each scan runs an outer index `i`
      and an inner index `j`; these bound them. */
  function Outer(f: int): nat {
    if f == 0 then Columns else if f == 1 then Rows else Rows - 3
  }

  function Inner(f: int): nat {
    if f == 0 then Rows - 3 else Columns - 3
  }

  predicate InScan(f: int, i: int, j: int) {
    0 <= f < 4 && 0 <= i < Outer(f) && 0 <= j < Inner(f)
  }

  /** The `k`-th cell (column, row) of the window at (i, j) of scan `f`. */
  function Cell(f: int, i: int, j: int, k: int): (int, int) {
    if f == 0 then (i, j + k)
    else if f == 1 then (j + k, i)
    else if f == 2 then (j + k, i + k)
    else (j + k, i + 3 - k)
  }

  lemma CellOnBoard(f: int, i: int, j: int, k: int)
    requires InScan(f, i, j) && 0 <= k < 4
    ensures 0 <= Cell(f, i, j, k).0 < Columns && 0 <= Cell(f, i, j, k).1 < Rows
  {
  }

  /** The scans cover every run of four cells on the board going up, right,
      up-right or down-right. */
  lemma ScansCoverRuns(c: int, r: int, dc: int, dr: int)
    requires (dc, dr) == (0, 1) || (dc, dr) == (1, 0) || (dc, dr) == (1, 1) || (dc, dr) == (1, -1)
    requires forall k :: 0 <= k < 4 ==> 0 <= c + k * dc < Columns && 0 <= r + k * dr < Rows
    ensures exists f, i, j :: InScan(f, i, j) && forall k :: 0 <= k < 4 ==> Cell(f, i, j, k) == (c + k * dc, r + k * dr)
  {
    assert 0 <= c + 3 * dc < Columns && 0 <= r + 3 * dr < Rows;
    assert 0 <= c + 0 * dc < Columns && 0 <= r + 0 * dr < Rows;
    if (dc, dr) == (0, 1) {
      assert InScan(0, c, r);
    } else if (dc, dr) == (1, 0) {
      assert InScan(1, r, c);
    } else if (dc, dr) == (1, 1) {
      assert InScan(2, r, c);
    } else {
      assert InScan(3, r - 3, c) && forall k :: 0 <= k < 4 ==> Cell(3, r - 3, c, k) == (c + k * dc, r + k * dr);
    }
  }

  /** All four cells of a window hold `p`. */
  predicate Uniform(board: seq<seq<Mark>>, f: int, i: int, j: int, p: Mark)
    requires |board| == Columns && InScan(f, i, j)
  {
    forall k :: 0 <= k < 4 ==> Tile(board, Cell(f, i, j, k).0, Cell(f, i, j, k).1) == Some(p)
  }

  /** `p` has four in a row somewhere. */
  ghost predicate HasFour(board: seq<seq<Mark>>, p: Mark)
    requires |board| == Columns
  {
    exists f, i, j :: InScan(f, i, j) && Uniform(board, f, i, j, p)
  }

  /** Every column holds at most six pieces, as in play. */
  predicate Fits(board: seq<seq<Mark>>) {
    forall c :: 0 <= c < |board| ==> |board[c]| <= Rows
  }

  predicate Full(board: seq<seq<Mark>>) {
    forall c :: 0 <= c < |board| ==> |board[c]| == Rows
  }

  /** The owner of window (i, j) of scan `f`: the piece on its four tiles
      when they all exist and are equal. */
  function WindowOwner(board: seq<seq<Mark>>, f: int, i: int, j: int): (o: Option<Mark>)
    requires |board| == Columns && InScan(f, i, j)
    ensures o.Some? ==> Uniform(board, f, i, j, o.value)
    ensures o.None? ==> forall p :: !Uniform(board, f, i, j, p)
  {
    var t1 := Tile(board, Cell(f, i, j, 0).0, Cell(f, i, j, 0).1);
    var t2 := Tile(board, Cell(f, i, j, 1).0, Cell(f, i, j, 1).1);
    var t3 := Tile(board, Cell(f, i, j, 2).0, Cell(f, i, j, 2).1);
    var t4 := Tile(board, Cell(f, i, j, 3).0, Cell(f, i, j, 3).1);
    if t1.Some? && t1 == t2 == t3 == t4 then t1 else None
  }

  /** The owner of the first uniform window of row `i` of scan `f`, from
      inner index `j` on. */
  function FirstInRow(board: seq<seq<Mark>>, f: int, i: int, j: int): (o: Option<Mark>)
    requires |board| == Columns && 0 <= f < 4 && 0 <= i < Outer(f) && 0 <= j <= Inner(f)
    ensures o.Some? ==> exists j' :: j <= j' < Inner(f) && Uniform(board, f, i, j', o.value)
    ensures o.None? ==> forall j', p :: j <= j' < Inner(f) ==> !Uniform(board, f, i, j', p)
    decreases Inner(f) - j
  {
    if j == Inner(f) then None
    else
      var o := WindowOwner(board, f, i, j);
      if o.Some? then o else FirstInRow(board, f, i, j + 1)
  }

  /** The owner of the first uniform window of scan `f`, from outer index
      `i` on. */
  function FirstInScan(board: seq<seq<Mark>>, f: int, i: int): (o: Option<Mark>)
    requires |board| == Columns && 0 <= f < 4 && 0 <= i <= Outer(f)
    ensures o.Some? ==> exists i', j :: i <= i' && InScan(f, i', j) && Uniform(board, f, i', j, o.value)
    ensures o.None? ==> forall i', j, p :: i <= i' && InScan(f, i', j) ==> !Uniform(board, f, i', j, p)
    decreases Outer(f) - i
  {
    if i == Outer(f) then None
    else
      var o := FirstInRow(board, f, i, 0);
      if o.Some? then o else FirstInScan(board, f, i + 1)
  }

  /** The owner of the first uniform window of the scans from `f` on. */
  function FirstFour(board: seq<seq<Mark>>, f: int): (o: Option<Mark>)
    requires |board| == Columns && 0 <= f <= 4
    ensures o.Some? ==> HasFour(board, o.value)
    ensures o.None? ==> forall f', i, j, p :: f <= f' && InScan(f', i, j) ==> !Uniform(board, f', i, j, p)
    decreases 4 - f
  {
    if f == 4 then None
    else
      var o := FirstInScan(board, f, 0);
      if o.Some? then o else FirstFour(board, f + 1)
  }

  /** What `game_winner` reports, as a function: the owner of the first
      uniform window in scan order, else DRAW on a full board, else None. */
  function WinnerOf(s: State): (r: Option<Outcome>)
    requires WellFormed(s)
    ensures r.Some? && r.value.Win? ==> HasFour(s.board, r.value.mark)
    ensures r == Some(Draw) <==> !HasFour(s.board, X) && !HasFour(s.board, O) && Full(s.board)
    ensures r.None? <==> !HasFour(s.board, X) && !HasFour(s.board, O) && !Full(s.board)
  {
    match FirstFour(s.board, 0)
    case Some(m) =>
      assert HasFour(s.board, X) || HasFour(s.board, O) by {
        if m == X {
          assert HasFour(s.board, X);
        } else {
          assert HasFour(s.board, O);
        }
      }
      Some(Win(m))
    case None => if Full(s.board) then Some(Draw) else None
  }

  /** One scan of `game_winner`: the piece of the first window (outer
      index, then inner) whose four tiles exist and are equal. */
  method ScanWindows(board: seq<seq<Mark>>, f: int) returns (w: Option<Mark>)
    requires |board| == Columns && 0 <= f < 4
    ensures w.Some? ==> exists i, j :: InScan(f, i, j) && Uniform(board, f, i, j, w.value)
    ensures w.None? ==> forall i, j, p :: InScan(f, i, j) ==> !Uniform(board, f, i, j, p)
    ensures w == FirstInScan(board, f, 0)
  {
    w := None;
    for i := 0 to Outer(f)
      invariant FirstInScan(board, f, 0) == FirstInScan(board, f, i)
    {
      for j := 0 to Inner(f)
        invariant FirstInRow(board, f, i, 0) == FirstInRow(board, f, i, j)
      {
        CellOnBoard(f, i, j, 0);
        CellOnBoard(f, i, j, 1);
        CellOnBoard(f, i, j, 2);
        CellOnBoard(f, i, j, 3);
        var t1 := Tile(board, Cell(f, i, j, 0).0, Cell(f, i, j, 0).1);
        var t2 := Tile(board, Cell(f, i, j, 1).0, Cell(f, i, j, 1).1);
        var t3 := Tile(board, Cell(f, i, j, 2).0, Cell(f, i, j, 2).1);
        var t4 := Tile(board, Cell(f, i, j, 3).0, Cell(f, i, j, 3).1);
        if t1.Some? && t2.Some? && t3.Some? && t4.Some? && t1 == t2 == t3 == t4 {
          assert FirstInRow(board, f, i, j) == t1;
          return t1;
        }
        assert WindowOwner(board, f, i, j).None?;
      }
    }
  }

  /** `game_winner`: the owner of a four found by the scans, else DRAW when
      every column is full, else None. */
  method GameWinner(s: State) returns (r: Option<Outcome>)
    requires WellFormed(s)
    ensures r.Some? && r.value.Win? ==> HasFour(s.board, r.value.mark)
    ensures r.None? || r == Some(Draw) ==> !HasFour(s.board, X) && !HasFour(s.board, O)
    ensures r == Some(Draw) <==> !HasFour(s.board, X) && !HasFour(s.board, O) && Full(s.board)
    ensures r.None? <==> !HasFour(s.board, X) && !HasFour(s.board, O) && !Full(s.board)
    ensures r == WinnerOf(s)
  {
    for f := 0 to 4
      invariant FirstFour(s.board, 0) == FirstFour(s.board, f)
    {
      var w := ScanWindows(s.board, f);
      if w.Some? {
        assert FirstFour(s.board, 0) == w && WinnerOf(s) == Some(Win(w.value));
        return Some(Win(w.value));
      }
    }
    if Full(s.board) {
      return Some(Draw);
    }
    return None;
  }

  /** The columns with room, in increasing order. */
  function OpenColumns(board: seq<seq<Mark>>, from: nat): (cs: seq<nat>)
    requires from <= |board|
    ensures forall c :: c in cs <==> from <= c < |board| && |board[c]| < Rows
    ensures forall a, b :: 0 <= a < b < |cs| ==> cs[a] < cs[b]
    ensures forall a :: 0 <= a < |cs| ==> from <= cs[a]
    decreases |board| - from
  {
    if from == |board| then []
    else (if |board[from]| < Rows then [from] else []) + OpenColumns(board, from + 1)
  }

  /** `legal_moves`: an entry per player, in the order X, O; the player to
      move gets the columns holding fewer than six pieces, the other []. */
  function LegalMoves(s: State): (r: Dict<Mark, seq<nat>>)
    requires WellFormed(s)
    ensures |r| == 2 && r[0].0 == X && r[1].0 == O
    ensures forall k :: 0 <= k < 2 && r[k].0 != s.player ==> r[k].1 == []
    ensures forall k, c :: 0 <= k < 2 && r[k].0 == s.player ==> (c in r[k].1 <==> 0 <= c < Columns && |s.board[c]| < Rows)
    ensures forall k, a, b :: 0 <= k < 2 && 0 <= a < b < |r[k].1| ==> r[k].1[a] < r[k].1[b]
  {
    var open := OpenColumns(s.board, 0);
    var r := if s.player == X then [(X, open), (O, [])] else [(X, []), (O, open)];
    assert s.player == X || s.player == O;
    r
  }

  function Other(p: Mark): Mark {
    if p == X then O else X
  }

  /** `make_move`: a copy of the board with the mover's piece appended to
      the chosen column, and the other player to move. A missing entry for
      the mover, or a column that is not a key of the board, raises
      KeyError. */
  function MakeMove(s: State, moves: map<Mark, int>): (r: Result<State, Exc>)
    requires WellFormed(s)
    ensures r.Err? <==> s.player !in moves || !(0 <= moves[s.player] < Columns)
    ensures r.Err? ==> r.error == KeyError
    ensures r.Ok? ==>
              var m := moves[s.player];
              WellFormed(r.value) && r.value.player == Other(s.player) &&
              r.value.board[m] == s.board[m] + [s.player] &&
              forall c :: 0 <= c < Columns && c != m ==> r.value.board[c] == s.board[c]
  {
    if s.player !in moves || !(0 <= moves[s.player] < Columns) then Err(KeyError)
    else
      var m := moves[s.player];
      Ok(State(s.board[m := s.board[m] + [s.player]], Other(s.player)))
  }

  /** `make_move` reads only the mover's entry. */
  lemma MakeMoveReadsMover(s: State, m1: map<Mark, int>, m2: map<Mark, int>)
    requires WellFormed(s)
    requires s.player in m1 && s.player in m2 && m1[s.player] == m2[s.player]
    ensures MakeMove(s, m1) == MakeMove(s, m2)
  {
  }

  /** A legal move lands in a column with room and keeps every column at
      six pieces or fewer. */
  lemma LegalMoveFits(s: State, moves: map<Mark, int>)
    requires WellFormed(s) && Fits(s.board)
    requires s.player in moves && moves[s.player] in OpenColumns(s.board, 0)
    ensures MakeMove(s, moves).Ok?
    ensures Fits(MakeMove(s, moves).value.board)
  {
  }

  // ---------------------------------------------------------------------
  // hash_state

  /** The hash character of tile `t` of column `c`. */
  function HashChar(board: seq<seq<Mark>>, c: int, t: int): char
    requires 0 <= c < |board| && 0 <= t
  {
    if |board[c]| - 1 < t then '.' else if board[c][t] == X then 'X' else 'O'
  }

  /** `h` is the board's hash: 42 characters, position c*6+t standing for
      tile t of column c. */
  ghost predicate IsHash(board: seq<seq<Mark>>, h: string)
    requires |board| == Columns
  {
    |h| == Columns * Rows &&
    forall c, t :: 0 <= c < Columns && 0 <= t < Rows ==> h[c * Rows + t] == HashChar(board, c, t)
  }

  /** `hash_state`: '.' for an empty tile, else 'X' or 'O', column by
      column, bottom-up. */
  method Hash(s: State) returns (h: string)
    requires WellFormed(s)
    ensures IsHash(s.board, h)
    ensures h == HashOf(s.board)
  {
    h := "";
    for c := 0 to Columns
      invariant |h| == c * Rows
      invariant forall c', t :: 0 <= c' < c && 0 <= t < Rows ==> h[c' * Rows + t] == HashChar(s.board, c', t)
    {
      for t := 0 to Rows
        invariant |h| == c * Rows + t
        invariant forall c', t' :: 0 <= c' < c && 0 <= t' < Rows ==> h[c' * Rows + t'] == HashChar(s.board, c', t')
        invariant forall t' :: 0 <= t' < t ==> h[c * Rows + t'] == HashChar(s.board, c, t')
      {
        if |s.board[c]| - 1 < t {
          h := h + ".";
        } else if s.board[c][t] == X {
          h := h + "X";
        } else {
          h := h + "O";
        }
      }
    }
    HashOfUnique(s.board, h);
  }

  /** `hash_state` as a function: character c*6+t stands for tile t of
      column c. */
  function HashOf(board: seq<seq<Mark>>): (h: string)
    requires |board| == Columns
    ensures IsHash(board, h)
  {
    var h := seq(Columns * Rows, k requires 0 <= k < Columns * Rows => HashChar(board, k / Rows, k % Rows));
    assert IsHash(board, h) by {
      forall c, t | 0 <= c < Columns && 0 <= t < Rows ensures h[c * Rows + t] == HashChar(board, c, t) {
        assert (c * Rows + t) / Rows == c && (c * Rows + t) % Rows == t;
      }
    }
    h
  }

  /** A board has one hash. */
  lemma HashOfUnique(board: seq<seq<Mark>>, h: string)
    requires |board| == Columns && IsHash(board, h)
    ensures h == HashOf(board)
  {
    var g := HashOf(board);
    forall k | 0 <= k < |h| ensures h[k] == g[k] {
      var c, t := k / Rows, k % Rows;
      assert k == c * Rows + t;
    }
  }

  /** On boards whose columns hold at most six pieces the hash determines
      the board. */
  lemma HashDetermines(b1: seq<seq<Mark>>, b2: seq<seq<Mark>>, h: string)
    requires |b1| == Columns && |b2| == Columns
    requires forall c :: 0 <= c < Columns ==> |b1[c]| <= Rows && |b2[c]| <= Rows
    requires IsHash(b1, h) && IsHash(b2, h)
    ensures b1 == b2
  {
    forall c | 0 <= c < Columns ensures b1[c] == b2[c] {
      ColumnFromHash(b1, b2, h, c);
    }
  }

  lemma ColumnFromHash(b1: seq<seq<Mark>>, b2: seq<seq<Mark>>, h: string, c: int)
    requires |b1| == Columns && |b2| == Columns && 0 <= c < Columns
    requires |b1[c]| <= Rows && |b2[c]| <= Rows
    requires IsHash(b1, h) && IsHash(b2, h)
    ensures b1[c] == b2[c]
  {
    assert forall t :: 0 <= t < Rows ==> HashChar(b1, c, t) == HashChar(b2, c, t) by {
      forall t | 0 <= t < Rows ensures HashChar(b1, c, t) == HashChar(b2, c, t) {
        assert h[c * Rows + t] == HashChar(b1, c, t);
      }
    }
    var m := if |b1[c]| < |b2[c]| then |b1[c]| else |b2[c]|;
    if m < Rows {
      assert HashChar(b1, c, m) == HashChar(b2, c, m);
    }
    forall t | 0 <= t < |b1[c]| ensures b1[c][t] == b2[c][t] {
      assert HashChar(b1, c, t) == HashChar(b2, c, t);
    }
  }

  /** `evaluate_state` as a function: +inf for the winner and -inf for the
      loser; 0 for both otherwise, a draw included. */
  function Evaluation(s: State): (r: (Score, Score))
    requires WellFormed(s)
    ensures HasFour(s.board, X) || HasFour(s.board, O) ==> r == (PosInf, NegInf) || r == (NegInf, PosInf)
    ensures r.0 == PosInf ==> HasFour(s.board, X)
    ensures r.1 == PosInf ==> HasFour(s.board, O)
    ensures !HasFour(s.board, X) && !HasFour(s.board, O) ==> r == (Fin(0), Fin(0))
  {
    match WinnerOf(s)
    case Some(Win(X)) => (PosInf, NegInf)
    case Some(Win(O)) => (NegInf, PosInf)
    case _ => (Fin(0), Fin(0))
  }

  /** `evaluate_state`, run through `game_winner`. */
  method Evaluate(s: State) returns (x: Score, o: Score)
    requires WellFormed(s)
    ensures (x, o) == Evaluation(s)
    ensures HasFour(s.board, X) || HasFour(s.board, O) ==>
              (x == PosInf && o == NegInf) || (x == NegInf && o == PosInf)
    ensures x == PosInf ==> HasFour(s.board, X)
    ensures o == PosInf ==> HasFour(s.board, O)
    ensures !HasFour(s.board, X) && !HasFour(s.board, O) ==> x == Fin(0) && o == Fin(0)
  {
    var winner := GameWinner(s);
    match winner {
      case Some(Win(X)) =>
        x, o := PosInf, NegInf;
      case Some(Win(O)) =>
        x, o := NegInf, PosInf;
      case _ =>
        x, o := Fin(0), Fin(0);
    }
  }
}
