/** Two rule modules handed to the search engine as the game object it
    consumes: nine men's morris and connect four, each with its
    `players`, `legal_moves`, `make_move`, `game_winner`, `hash_state` and
    evaluation. The lemmas tie the joint actions the engine generates to
    the rule modules' own legal moves. */
module GameInstances {
  import opened Common
  import opened Scores
  import opened SearchGame
  import opened SearchActions
  import SearchEval
  import Morris = NineMensMorris
  import Four = FourInARow

  /** The dict `make_move` receives, as a map: each player's entry that
      holds a move. A pass (`None`) holds none, so `make_move` finds no
      move for that player. Later entries win, as in `dict(zip(...))`. */
  function Chosen<P(==), M>(ja: JointAction<P, M>): (c: map<P, M>)
    ensures forall p :: p in c ==> exists i :: 0 <= i < |ja| && ja[i] == (p, Some(c[p]))
    ensures DistinctKeys(ja) ==> forall i :: 0 <= i < |ja| ==>
              (ja[i].1.Some? <==> ja[i].0 in c) && (ja[i].1.Some? ==> c[ja[i].0] == ja[i].1.value)
    decreases |ja|
  {
    if |ja| == 0 then map[]
    else
      var front := ja[..|ja| - 1];
      var c := Chosen(front);
      assert forall i :: 0 <= i < |front| ==> front[i] == ja[i];
      var (p, o) := ja[|ja| - 1];
      if o.Some? then c[p := o.value] else c - {p}
  }

  /** In a joint action of the product of moves keyed by distinct players,
      each player's entry holds one of its moves, or is a pass when it has
      none. */
  lemma ProductEntry<P, M>(moves: Dict<P, seq<M>>, ja: JointAction<P, M>, k: nat)
    requires DistinctKeys(moves) && k < |moves|
    requires ja in Combinations(moves)
    ensures moves[k].1 != [] ==> moves[k].0 in Chosen(ja) && Chosen(ja)[moves[k].0] in moves[k].1
    ensures moves[k].1 == [] ==> moves[k].0 !in Chosen(ja)
  {
    CombinationsMembers(moves, ja);
    assert DistinctKeys(ja);
    if moves[k].1 != [] {
      ChoicesMembers(moves[k].1, ja[k].1);
    }
  }

  // ---------------------------------------------------------------------
  // Nine men's morris

  /** The states the morris rules accept: boards of 24 points. */
  type MorrisState = s: Morris.State | Morris.WellFormed(s) witness Morris.InitialState()

  /** `legal_moves`: X's entry, then O's; the player to move has its
      actions, the other none. */
  function MorrisMoves(s: MorrisState): Dict<Morris.Player, seq<seq<int>>> {
    [(Morris.X, if s.player == Morris.X then Morris.PlayerMoves(s) else []),
     (Morris.O, if s.player == Morris.O then Morris.PlayerMoves(s) else [])]
  }

  /** `make_move` on the joint action. The engine's game contract has no
      failing `make_move`; where the rules raise, the state is kept. */
  function MorrisMove(s: MorrisState, ja: JointAction<Morris.Player, seq<int>>): MorrisState {
    var r := Morris.MakeMove(s, Chosen(ja));
    if r.Ok? then r.value else s
  }

  function MorrisSlate(s: MorrisState): Slate<Morris.Player> {
    var e := Morris.Evaluate(s);
    [(Morris.X, e.0), (Morris.O, e.1)]
  }

  /** The `Game` class of the morris module: `evaluation_funcs` holds
      `evaluate_state` under 'default'; the class has neither an
      `evaluate_state` nor a `portfolios` attribute. */
  function MorrisGame(): Game<MorrisState, Morris.Player, seq<int>, string> {
    Game([Morris.X, Morris.O], MorrisMoves, MorrisMove, (s: MorrisState) => Morris.Winner(s), (s: MorrisState) => Morris.Hash(s),
         Some([("default", MorrisSlate)]), None, None)
  }

  /** Every joint action the engine expands a morris state with plays one
      of the mover's legal actions, and the rules accept it; a mover without
      actions gets a pass, which the rules reject. During MOVING a state
      the engine expands, one without a winner, always has an action. A
      Portfolio configuration fails on the missing `portfolios` attribute. */
  lemma MorrisExpansion(eng: Engine<MorrisState, Morris.Player, seq<int>, string>, s: MorrisState, ja: JointAction<Morris.Player, seq<int>>)
    requires eng.game == MorrisGame()
    ensures eng.cfg.actions.Portfolio? ==> ExpandingActions(eng, s) == Err(AttributeError)
    ensures eng.cfg.actions == AllCombinations && ja in ExpandingActions(eng, s).value && Morris.PlayerMoves(s) != [] ==>
              exists a :: a in Morris.PlayerMoves(s) && Morris.MakeMove(s, map[s.player := a]).Ok? &&
                          eng.game.makeMove(s, ja) == Morris.MakeMove(s, map[s.player := a]).value
    ensures eng.cfg.actions == AllCombinations && ja in ExpandingActions(eng, s).value && Morris.PlayerMoves(s) == [] ==>
              Morris.MakeMove(s, Chosen(ja)).Err? && eng.game.makeMove(s, ja) == s
    ensures s.phase == Morris.Moving && eng.game.winner(s).None? ==> Morris.PlayerMoves(s) != []
  {
    if eng.cfg.actions == AllCombinations && ja in ExpandingActions(eng, s).value {
      MorrisMoveLegal(s, ja);
    }
    if s.phase == Morris.Moving && Morris.Winner(s).None? {
      var a :| Morris.IsMovingAction(s, a);
      Morris.PlayerMovesAre(s, a);
    }
  }

  /** The rules' side of MorrisExpansion, for one joint action of the
      product of the legal moves: the action it plays is the mover's entry. */
  lemma MorrisMoveLegal(s: MorrisState, ja: JointAction<Morris.Player, seq<int>>)
    requires ja in Combinations(MorrisMoves(s))
    ensures Morris.PlayerMoves(s) != [] ==>
              s.player in Chosen(ja) &&
              var a := Chosen(ja)[s.player];
              a in Morris.PlayerMoves(s) && Morris.MakeMove(s, map[s.player := a]).Ok? &&
              MorrisMove(s, ja) == Morris.MakeMove(s, map[s.player := a]).value
    ensures Morris.PlayerMoves(s) == [] ==> Morris.MakeMove(s, Chosen(ja)).Err? && MorrisMove(s, ja) == s
  {
    ProductEntry(MorrisMoves(s), ja, if s.player == Morris.X then 0 else 1);
    if Morris.PlayerMoves(s) != [] {
      var a := Chosen(ja)[s.player];
      Morris.LegalMoveCounts(s, a);
      Morris.MakeMoveReadsMover(s, Chosen(ja), map[s.player := a]);
    }
  }

  // ---------------------------------------------------------------------
  // Connect four

  /** The states the connect-four rules accept: seven columns. */
  type FourState = s: Four.State | Four.WellFormed(s) witness Four.InitialState()

  /** `legal_moves`, keyed by player. Python's players are the integers 1
      and 2 and DRAW is 3, so the player type is the outcome type, X and O
      being `Win(X)` and `Win(O)`. */
  function FourMoves(s: FourState): Dict<Four.Outcome, seq<int>> {
    MoverGets(s.player, Four.OpenColumns(s.board, 0))
  }

  /** X's entry, then O's; the player to move gets `open`, the other none. */
  function MoverGets(p: Four.Mark, open: seq<int>): Dict<Four.Outcome, seq<int>> {
    [(Four.Win(Four.X), if p == Four.X then open else []), (Four.Win(Four.O), if p == Four.O then open else [])]
  }

  /** The chosen moves keyed by mark, as `make_move` reads them. */
  function Marks(c: map<Four.Outcome, int>): (m: map<Four.Mark, int>)
    ensures (Four.X in m <==> Four.Win(Four.X) in c) && (Four.X in m ==> m[Four.X] == c[Four.Win(Four.X)])
    ensures (Four.O in m <==> Four.Win(Four.O) in c) && (Four.O in m ==> m[Four.O] == c[Four.Win(Four.O)])
  {
    (if Four.Win(Four.X) in c then map[Four.X := c[Four.Win(Four.X)]] else map[]) +
    (if Four.Win(Four.O) in c then map[Four.O := c[Four.Win(Four.O)]] else map[])
  }

  lemma MarksAt(c: map<Four.Outcome, int>, p: Four.Mark)
    ensures (p in Marks(c) <==> Four.Win(p) in c) && (p in Marks(c) ==> Marks(c)[p] == c[Four.Win(p)])
  {
  }

  /** `make_move` on the joint action; where the rules raise, the state is
      kept. */
  function FourMove(s: FourState, ja: JointAction<Four.Outcome, int>): FourState {
    var r := Four.MakeMove(s, Marks(Chosen(ja)));
    if r.Ok? then r.value else s
  }

  function FourSlate(s: FourState): Slate<Four.Outcome> {
    var e := Four.Evaluation(s);
    [(Four.Win(Four.X), e.0), (Four.Win(Four.O), e.1)]
  }

  /** The `Game` class of the connect-four module: it has an
      `evaluate_state` attribute and neither an `evaluation_funcs` nor a
      `portfolios` attribute. */
  function FourGame(): Game<FourState, Four.Outcome, int, string> {
    Game([Four.Win(Four.X), Four.Win(Four.O)], FourMoves, FourMove, (s: FourState) => Four.WinnerOf(s), (s: FourState) => Four.HashOf(s.board),
         None, Some(FourSlate), None)
  }

  /** Every joint action the engine expands a connect-four state with drops
      the mover's piece into a column with room, and the rules accept it;
      on a full board the mover passes, which the rules reject. A state
      the engine expands, one without a winner whose columns hold at most
      six pieces, always has a column with room. A Portfolio configuration
      fails on the missing `portfolios` attribute, and a game-based
      evaluation on the missing `evaluation_funcs`. */
  lemma FourExpansion(eng: Engine<FourState, Four.Outcome, int, string>, s: FourState, ja: JointAction<Four.Outcome, int>)
    requires eng.game == FourGame()
    ensures eng.cfg.actions.Portfolio? ==> ExpandingActions(eng, s) == Err(AttributeError)
    ensures eng.cfg.playerEvaluation.Some? && eng.cfg.playerEvaluation.value.GameBasedEvaluation? ==>
              SearchEval.PlayerSlate(eng, s) == Err(AttributeError)
    ensures eng.cfg.actions == AllCombinations && ja in ExpandingActions(eng, s).value && Four.OpenColumns(s.board, 0) != [] ==>
              exists col :: col in Four.OpenColumns(s.board, 0) && Four.MakeMove(s, map[s.player := col]).Ok? &&
                            eng.game.makeMove(s, ja) == Four.MakeMove(s, map[s.player := col]).value
    ensures eng.cfg.actions == AllCombinations && ja in ExpandingActions(eng, s).value && Four.OpenColumns(s.board, 0) == [] ==>
              Four.MakeMove(s, Marks(Chosen(ja))).Err? && eng.game.makeMove(s, ja) == s
    ensures Four.Fits(s.board) && eng.game.winner(s).None? ==> Four.OpenColumns(s.board, 0) != []
  {
    if eng.cfg.actions == AllCombinations && ja in ExpandingActions(eng, s).value {
      FourMoveLegal(s, ja);
    }
    if Four.Fits(s.board) && Four.WinnerOf(s).None? {
      FourRoom(s);
    }
  }

  /** The rules' side of FourExpansion, for one joint action of the
      product of the legal moves: the column it plays is the mover's entry. */
  lemma FourMoveLegal(s: FourState, ja: JointAction<Four.Outcome, int>)
    requires ja in Combinations(FourMoves(s))
    ensures Four.OpenColumns(s.board, 0) != [] ==>
              s.player in Marks(Chosen(ja)) &&
              var col := Marks(Chosen(ja))[s.player];
              col in Four.OpenColumns(s.board, 0) && Four.MakeMove(s, map[s.player := col]).Ok? &&
              FourMove(s, ja) == Four.MakeMove(s, map[s.player := col]).value
    ensures Four.OpenColumns(s.board, 0) == [] ==> Four.MakeMove(s, Marks(Chosen(ja))).Err? && FourMove(s, ja) == s
  {
    var open := Four.OpenColumns(s.board, 0);
    var c := Marks(Chosen(ja));
    FourEntry(s.player, open, ja);
    if open != [] {
      var col := c[s.player];
      assert 0 <= col < Four.Columns;
      Four.MakeMoveReadsMover(s, c, map[s.player := col]);
    }
  }

  /** The mover's entry of a joint action of the product: one of its
      columns, or a pass when it has none. */
  lemma FourEntry(p: Four.Mark, open: seq<int>, ja: JointAction<Four.Outcome, int>)
    requires ja in Combinations(MoverGets(p, open))
    ensures open != [] ==> p in Marks(Chosen(ja)) && Marks(Chosen(ja))[p] in open
    ensures open == [] ==> p !in Marks(Chosen(ja))
  {
    ProductEntry(MoverGets(p, open), ja, if p == Four.X then 0 else 1);
    MarksAt(Chosen(ja), p);
  }

  /** A board of columns within six pieces that is not full has a column
      with room. */
  lemma FourRoom(s: FourState)
    requires Four.Fits(s.board) && !Four.Full(s.board)
    ensures Four.OpenColumns(s.board, 0) != []
  {
    var c :| 0 <= c < |s.board| && |s.board[c]| != Four.Rows;
    assert c in Four.OpenColumns(s.board, 0);
  }
}
