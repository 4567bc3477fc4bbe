/** Joint-action generation: `AllCombinations` builds the Cartesian product
    of every player's moves, a player without moves contributing a single
    pass; `Portfolio` first replaces every player's moves by what a named
    portfolio filter returns. */
module SearchActions {
  import opened Common
  import opened SearchGame

  /** A player's options in the product: its moves, or one pass (`None`)
      when it has none. */
  function Choices<M>(moves: seq<M>): (r: seq<Option<M>>)
    ensures |r| == if |moves| == 0 then 1 else |moves|
    ensures |moves| == 0 ==> r == [None]
    ensures |moves| > 0 ==> forall i :: 0 <= i < |moves| ==> r[i] == Some(moves[i])
  {
    if |moves| == 0 then [None] else seq(|moves|, i requires 0 <= i < |moves| => Some(moves[i]))
  }

  /** Every option of player p placed in front of every partial action, the
      first option varying slowest (the order of `itertools.product`). */
  function Extend<P, M>(p: P, options: seq<Option<M>>, rests: seq<JointAction<P, M>>): (r: seq<JointAction<P, M>>)
    ensures |r| == |options| * |rests|
    decreases |options|
  {
    if |options| == 0 then []
    else
      var front := seq(|rests|, j requires 0 <= j < |rests| => [(p, options[0])] + rests[j]);
      var back := Extend(p, options[1..], rests);
      assert |options| * |rests| == |rests| + (|options| - 1) * |rests|;
      front + back
  }

  /** `generate_move_combinations`: one joint action per element of the
      product of the players' options, players in the order of the dict. */
  function Combinations<P, M>(moves: Dict<P, seq<M>>): seq<JointAction<P, M>>
    decreases |moves|
  {
    if |moves| == 0 then [[]]
    else Extend(moves[0].0, Choices(moves[0].1), Combinations(moves[1..]))
  }

  /** The size the product must have: the product of max(1, |moves[p]|). */
  function ProductSize<P, M>(moves: Dict<P, seq<M>>): nat
    decreases |moves|
  {
    if |moves| == 0 then 1
    else (if |moves[0].1| == 0 then 1 else |moves[0].1|) * ProductSize(moves[1..])
  }

  /** A joint action fits the moves when it names the same players in the
      same order and gives each one of its options. */
  ghost predicate Fits<P, M>(ja: JointAction<P, M>, moves: Dict<P, seq<M>>) {
    |ja| == |moves| &&
    forall i :: 0 <= i < |moves| ==> ja[i].0 == moves[i].0 && ja[i].1 in Choices(moves[i].1)
  }

  lemma {:induction false} CombinationsCount<P, M>(moves: Dict<P, seq<M>>)
    ensures |Combinations(moves)| == ProductSize(moves)
    decreases |moves|
  {
    if |moves| > 0 {
      CombinationsCount(moves[1..]);
    }
  }

  lemma {:induction false} ExtendMembers<P, M>(p: P, options: seq<Option<M>>, rests: seq<JointAction<P, M>>, ja: JointAction<P, M>)
    ensures ja in Extend(p, options, rests) <==>
              |ja| > 0 && ja[0].0 == p && ja[0].1 in options && ja[1..] in rests
    decreases |options|
  {
    if |options| > 0 {
      ExtendMembers(p, options[1..], rests, ja);
      var front := seq(|rests|, j requires 0 <= j < |rests| => [(p, options[0])] + rests[j]);
      assert Extend(p, options, rests) == front + Extend(p, options[1..], rests);
      if ja in front {
        var j :| 0 <= j < |rests| && front[j] == ja;
        assert ja[1..] == rests[j];
      }
      if |ja| > 0 && ja[0].0 == p && ja[0].1 == options[0] && ja[1..] in rests {
        var j :| 0 <= j < |rests| && rests[j] == ja[1..];
        assert front[j] == ja;
      }
    }
  }

  /** The product holds exactly the joint actions that fit the moves. */
  lemma {:induction false} CombinationsMembers<P, M>(moves: Dict<P, seq<M>>, ja: JointAction<P, M>)
    ensures ja in Combinations(moves) <==> Fits(ja, moves)
    decreases |moves|
  {
    if |moves| == 0 {
      assert Fits(ja, moves) <==> ja == [];
    } else {
      ExtendMembers(moves[0].0, Choices(moves[0].1), Combinations(moves[1..]), ja);
      if |ja| > 0 {
        CombinationsMembers(moves[1..], ja[1..]);
        if Fits(ja, moves) {
          assert forall i :: 0 <= i < |moves| - 1 ==> ja[1..][i] == ja[i + 1] && moves[1..][i] == moves[i + 1];
        }
        if ja[0].0 == moves[0].0 && ja[0].1 in Choices(moves[0].1) && Fits(ja[1..], moves[1..]) {
          forall i | 0 <= i < |moves| ensures ja[i].0 == moves[i].0 && ja[i].1 in Choices(moves[i].1) {
            if i > 0 {
              assert ja[i] == ja[1..][i - 1] && moves[i] == moves[1..][i - 1];
            }
          }
        }
      }
    }
  }

  /** `b` to the power `k`. */
  function Power(b: nat, k: nat): nat
    decreases k
  {
    if k == 0 then 1 else b * Power(b, k - 1)
  }

  /** A non-empty move list offers exactly its moves. */
  lemma ChoicesMembers<M>(moves: seq<M>, o: Option<M>)
    requires |moves| > 0
    ensures o in Choices(moves) <==> o.Some? && o.value in moves
  {
    var c := Choices(moves);
    if o.Some? && o.value in moves {
      var k :| 0 <= k < |moves| && moves[k] == o.value;
      assert c[k] == o;
    }
  }

  /** The dict `Portfolio` builds: every player of `moves`, in order, with
      the same list of moves. */
  function SameForAll<P, M>(moves: Dict<P, seq<M>>, behavior: seq<M>): (r: Dict<P, seq<M>>)
    ensures |r| == |moves| && forall i :: 0 <= i < |r| ==> r[i] == (moves[i].0, behavior)
  {
    seq(|moves|, i requires 0 <= i < |moves| => (moves[i].0, behavior))
  }

  /** When every player has the same `b > 0` moves, the product has `b`
      to the power of the number of players entries. */
  lemma {:induction false} UniformCount<P, M>(moves: Dict<P, seq<M>>, b: nat)
    requires b > 0 && forall i :: 0 <= i < |moves| ==> |moves[i].1| == b
    ensures ProductSize(moves) == Power(b, |moves|)
    decreases |moves|
  {
    if |moves| > 0 {
      assert forall i :: 0 <= i < |moves| - 1 ==> moves[1..][i] == moves[i + 1];
      UniformCount(moves[1..], b);
    }
  }

  /** The product over a portfolio with a non-empty behaviour: one joint
      action for every way of giving each player, in order, one of the
      behaviour's moves, and |behavior| to the power |players| of them. */
  lemma PortfolioProduct<P, M>(moves: Dict<P, seq<M>>, behavior: seq<M>)
    requires |behavior| > 0
    ensures var combos := Combinations(SameForAll(moves, behavior));
            |combos| == Power(|behavior|, |moves|) &&
            forall ja: JointAction<P, M> :: ja in combos <==>
              |ja| == |moves| &&
              forall i :: 0 <= i < |ja| ==> ja[i].0 == moves[i].0 && ja[i].1.Some? && ja[i].1.value in behavior
  {
    var portfolio := SameForAll(moves, behavior);
    CombinationsCount(portfolio);
    UniformCount(portfolio, |behavior|);
    forall ja: JointAction<P, M>
      ensures ja in Combinations(portfolio) <==>
              |ja| == |moves| &&
              forall i :: 0 <= i < |ja| ==> ja[i].0 == moves[i].0 && ja[i].1.Some? && ja[i].1.value in behavior
    {
      CombinationsMembers(portfolio, ja);
      forall i | 0 <= i < |ja| && i < |moves|
        ensures ja[i].1 in Choices(behavior) <==> ja[i].1.Some? && ja[i].1.value in behavior
      {
        ChoicesMembers(behavior, ja[i].1);
      }
    }
  }

  /** `Portfolio.get_expanding_actions`: the game's `portfolios` attribute
      is read first, so a game class without one fails before any player is
      looked at. Then every player is given the list the named portfolio
      returns for the state and the full moves dict; one empty list abandons
      the state. Otherwise the result is the whole product over the players
      of the behaviour's moves, which `PortfolioProduct` characterises. */
  function PortfolioActions<S, P, M, H>(game: Game<S, P, M, H>, name: string, state: S): (r: Result<seq<JointAction<P, M>>, Exc>)
    ensures game.portfolios.None? ==> r == Err(AttributeError)
    ensures game.portfolios.Some? && |game.legalMoves(state)| == 0 ==> r == Ok([[]])
    ensures game.portfolios.Some? && |game.legalMoves(state)| > 0 && !HasKey(game.portfolios.value, name) ==> r == Err(KeyError)
    ensures game.portfolios.Some? && |game.legalMoves(state)| > 0 && HasKey(game.portfolios.value, name) ==> r.Ok?
    ensures r.Ok? && |game.legalMoves(state)| > 0 ==>
              game.portfolios.Some? &&
              var behavior := Lookup(game.portfolios.value, name)(state, game.legalMoves(state));
              (|behavior| == 0 ==> r.value == []) &&
              (|behavior| > 0 ==> r.value == Combinations(SameForAll(game.legalMoves(state), behavior)) &&
                                   |r.value| == Power(|behavior|, |game.legalMoves(state)|)) &&
              forall ja: JointAction<P, M> :: ja in r.value ==>
                |ja| == |game.legalMoves(state)| &&
                forall i :: 0 <= i < |ja| ==> ja[i].0 == game.legalMoves(state)[i].0 && ja[i].1.Some? && ja[i].1.value in behavior
  {
    var moves := game.legalMoves(state);
    if game.portfolios.None? then Err(AttributeError)
    else if |moves| == 0 then Ok(Combinations(moves))
    else if !HasKey(game.portfolios.value, name) then Err(KeyError)
    else
      var behavior := Lookup(game.portfolios.value, name)(state, moves);
      if |behavior| == 0 then Ok([])
      else
        var portfolio := SameForAll(moves, behavior);
        var combos := Combinations(portfolio);
        CombinationsCount(portfolio);
        UniformCount(portfolio, |behavior|);
        assert forall ja: JointAction<P, M> :: ja in combos ==>
                 |ja| == |moves| &&
                 forall i :: 0 <= i < |ja| ==> ja[i].0 == moves[i].0 && ja[i].1.Some? && ja[i].1.value in behavior by {
          forall ja: JointAction<P, M> | ja in combos
            ensures |ja| == |moves|
            ensures forall i :: 0 <= i < |ja| ==> ja[i].0 == moves[i].0 && ja[i].1.Some? && ja[i].1.value in behavior
          {
            CombinationsMembers(portfolio, ja);
            forall i | 0 <= i < |ja| ensures ja[i].0 == moves[i].0 && ja[i].1.Some? && ja[i].1.value in behavior {
              var c := Choices(behavior);
              var k :| 0 <= k < |c| && c[k] == ja[i].1;
            }
          }
        }
        Ok(combos)
  }

  /** `get_expanding_actions` of the configured action generator. */
  function ExpandingActions<S, P, M, H>(eng: Engine<S, P, M, H>, state: S): Result<seq<JointAction<P, M>>, Exc> {
    match eng.cfg.actions
    case AllCombinations => Ok(Combinations(eng.game.legalMoves(state)))
    case Portfolio(name) => PortfolioActions(eng.game, name, state)
  }
}
