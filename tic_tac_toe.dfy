/** Tic-tac-toe (pychology/games/tic_tac_toe.py): nine tiles, X moves first,
    the marks alternate until a line of three is complete. */
module TicTacToe {
  import opened Common

  /** The two players, Python's X = 1 and O = 2. */
  datatype Mark = X | O

  /** The nine tiles (None when empty) and the player to move, which
      becomes None once someone has won. */
  datatype State = State(board: seq<Option<Mark>>, player: Option<Mark>)

  /** The eight lines of three: rows, columns, diagonals. */
  const Lines: seq<seq<int>> :=
    [[0, 1, 2], [3, 4, 5], [6, 7, 8], [0, 3, 6], [1, 4, 7], [2, 5, 8], [0, 4, 8], [2, 4, 6]]

  predicate WellFormed(s: State) {
    |s.board| == 9
  }

  /** `initial_state`: an empty board with X to move. */
  function InitialState(): (s: State)
    ensures WellFormed(s) && s.player == Some(X)
    ensures forall i :: 0 <= i < 9 ==> s.board[i].None?
  {
    State([None, None, None, None, None, None, None, None, None], Some(X))
  }

  /** Every tile of line `k` holds `p`. */
  predicate Owns(board: seq<Option<Mark>>, k: int, p: Mark)
    requires |board| == 9 && 0 <= k < |Lines|
  {
    forall j :: 0 <= j < |Lines[k]| ==> board[Lines[k][j]] == Some(p)
  }

  /** The inner loop of `game_winner`: some line from the `k`-th on is all `p`. */
  function AnyLine(board: seq<Option<Mark>>, p: Mark, k: nat): (r: bool)
    requires |board| == 9 && k <= |Lines|
    ensures r <==> exists i :: k <= i < |Lines| && Owns(board, i, p)
    decreases |Lines| - k
  {
    if k == |Lines| then false
    else if Owns(board, k, p) then true
    else AnyLine(board, p, k + 1)
  }

  /** `game_winner`: X if any line is all X, else O if any line is all O,
      else None; a full board without a line gives None too. */
  function Winner(board: seq<Option<Mark>>): (r: Option<Mark>)
    requires |board| == 9
    ensures r == Some(X) <==> exists i :: 0 <= i < |Lines| && Owns(board, i, X)
    ensures r == Some(O) <==> (forall i :: 0 <= i < |Lines| ==> !Owns(board, i, X)) &&
                              exists i :: 0 <= i < |Lines| && Owns(board, i, O)
  {
    if AnyLine(board, X, 0) then Some(X)
    else if AnyLine(board, O, 0) then Some(O)
    else None
  }

  /** `legal_moves`: for the player to move only, the indices of the empty
      tiles in increasing order. */
  method LegalMoves(s: State) returns (player: Option<Mark>, moves: seq<int>)
    requires WellFormed(s)
    ensures player == s.player
    ensures forall i :: i in moves <==> 0 <= i < 9 && s.board[i].None?
    ensures forall i, j :: 0 <= i < j < |moves| ==> moves[i] < moves[j]
  {
    moves := [];
    for idx := 0 to |s.board|
      invariant forall i :: i in moves <==> 0 <= i < idx && s.board[i].None?
      invariant forall i, j :: 0 <= i < j < |moves| ==> moves[i] < moves[j]
      invariant forall i :: 0 <= i < |moves| ==> moves[i] < idx
    {
      if s.board[idx].None? {
        moves := moves + [idx];
      }
    }
    player := s.player;
  }

  /** `make_move`: a copy of the board with the chosen tile set to the
      mover's mark; the player alternates, or becomes None when the move
      produced a winner. A missing entry for the mover raises KeyError and
      an index outside the board IndexError. */
  function MakeMove(s: State, moves: map<Option<Mark>, int>): (r: Result<State, Exc>)
    requires WellFormed(s)
    ensures s.player !in moves ==> r == Err(KeyError)
    ensures s.player in moves && ListIndex(moves[s.player], 9).None? ==> r == Err(IndexError)
    ensures r.Ok? ==>
              var i := ListIndex(moves[s.player], 9).value;
              WellFormed(r.value) &&
              r.value.board[i] == s.player &&
              (forall j :: 0 <= j < 9 && j != i ==> r.value.board[j] == s.board[j]) &&
              r.value.player == (if Winner(r.value.board).Some? then None else if s.player == Some(X) then Some(O) else Some(X))
  {
    if s.player !in moves then Err(KeyError)
    else match ListIndex(moves[s.player], 9)
      case None => Err(IndexError)
      case Some(i) =>
        var board := s.board[i := s.player];
        var winner := Winner(board);
        Ok(State(board, if winner.Some? then None else if s.player == Some(X) then Some(O) else Some(X)))
  }

  // ---------------------------------------------------------------------
  // The turn invariant

  /** While the game goes on, X has placed as many marks as O when X is to
      move, and one more when O is. */
  ghost predicate Turns(s: State) {
    WellFormed(s) &&
    (s.player == Some(X) ==> Count(s.board, X) == Count(s.board, O)) &&
    (s.player == Some(O) ==> Count(s.board, X) == Count(s.board, O) + 1)
  }

  /** The initial state keeps turns, and a move onto an empty tile that does
      not end the game keeps them. */
  lemma {:induction false} MakeMoveTurns(s: State, moves: map<Option<Mark>, int>)
    requires Turns(s) && s.player.Some? && s.player in moves
    requires ListIndex(moves[s.player], 9).Some? && s.board[ListIndex(moves[s.player], 9).value].None?
    ensures MakeMove(s, moves).Ok? && Turns(MakeMove(s, moves).value)
  {
    var i := ListIndex(moves[s.player], 9).value;
    CountUpdate(s.board, i, s.player, X);
    CountUpdate(s.board, i, s.player, O);
    var r := MakeMove(s, moves);
    var b := s.board[i := s.player];
    assert r.value.board == b;
    if s.player == Some(O) {
      assert Count(b, O) == Count(s.board, O) + 1;
      assert Count(b, X) == Count(s.board, X);
    } else {
      assert s.board[i].None?;
      assert s.player.value == X;
      assert Count(b, X) == Count(s.board, X) + 1;
      assert Count(b, O) == Count(s.board, O);
      assert r.value.player != Some(X);
    }
  }

  lemma {:induction false} InitialTurns()
    ensures Turns(InitialState())
  {
    CountEmpty(InitialState().board, X);
    CountEmpty(InitialState().board, O);
  }

  lemma {:induction false} CountEmpty(board: seq<Option<Mark>>, p: Mark)
    requires forall i :: 0 <= i < |board| ==> board[i].None?
    ensures Count(board, p) == 0
    decreases |board|
  {
    if |board| > 0 {
      CountEmpty(board[..|board| - 1], p);
    }
  }
}
