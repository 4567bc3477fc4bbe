/** State evaluation: where per-player scores come from (the game's named
    evaluator, the winner, or rollouts) and how they become the searcher's
    single score (zero-sum or racer aggregation); plus the weighted
    `evaluate_state` helper games use to build their evaluators. */
module SearchEval {
  import opened Common
  import opened Scores
  import opened SearchGame

  // ---------------------------------------------------------------------
  // Per-player scores

  /** `{p: v for p in players}`. */
  function Uniform<P(==)>(players: seq<P>, v: Score): (d: Slate<P>)
    ensures DistinctKeys(d)
    ensures forall p :: p in players ==> HasKey(d, p)
    ensures forall i :: 0 <= i < |d| ==> d[i].0 in players && d[i].1 == v
    decreases |players|
  {
    if |players| == 0 then []
    else
      var front := players[..|players| - 1];
      var last := players[|players| - 1];
      var d := Uniform(front, v);
      PutLookup(d, last, v);
      assert players == front + [last];
      assert forall p :: p in players ==> HasKey(Put(d, last, v), p) by {
        forall p | p in players ensures HasKey(Put(d, last, v), p) {
          PutOthers(d, last, v, p);
        }
      }
      Put(d, last, v)
  }

  /** `WinnerBasedEvaluation.evaluate_state_by_player`: all zeros while the
      game goes on, else -inf for every player and +inf under the winner's
      key, which is appended when the winner is a draw marker rather than a
      player. */
  function WinnerSlate<P(==)>(players: seq<P>, winner: Option<P>): (d: Slate<P>)
    ensures DistinctKeys(d)
    ensures winner.None? ==> (forall p :: p in players ==> HasKey(d, p)) &&
                             forall i :: 0 <= i < |d| ==> d[i].0 in players && d[i].1 == Fin(0)
    ensures winner.Some? ==> HasKey(d, winner.value) && Lookup(d, winner.value) == PosInf
    ensures winner.Some? ==> forall p :: p in players && p != winner.value ==> HasKey(d, p) && Lookup(d, p) == NegInf
    ensures winner.Some? ==> forall i :: 0 <= i < |d| ==> d[i].0 in players || d[i].0 == winner.value
  {
    match winner
    case None => Uniform(players, Fin(0))
    case Some(w) =>
      var base := Uniform(players, NegInf);
      PutLookup(base, w, PosInf);
      WinnerSlateOthers(base, players, w);
      Put(base, w, PosInf)
  }

  lemma WinnerSlateOthers<P>(base: Slate<P>, players: seq<P>, w: P)
    requires DistinctKeys(base)
    requires forall p :: p in players ==> HasKey(base, p)
    requires forall i :: 0 <= i < |base| ==> base[i].0 in players && base[i].1 == NegInf
    ensures forall p :: p in players && p != w ==> HasKey(Put(base, w, PosInf), p) && Lookup(Put(base, w, PosInf), p) == NegInf
    ensures forall i :: 0 <= i < |Put(base, w, PosInf)| ==> Put(base, w, PosInf)[i].0 in players || Put(base, w, PosInf)[i].0 == w
  {
    forall p | p in players && p != w
      ensures HasKey(Put(base, w, PosInf), p) && Lookup(Put(base, w, PosInf), p) == NegInf
    {
      PutOthers(base, w, PosInf, p);
      var i := IndexOf(base, p);
    }
  }

  /** `GameBasedEvaluation`: the game's evaluator of that name. A game
      class without `evaluation_funcs` fails the attribute read first. */
  function GameBased<S, P, M, H>(game: Game<S, P, M, H>, name: string, state: S): (r: Result<Slate<P>, Exc>)
    ensures game.evaluationFuncs.None? ==> r == Err(AttributeError)
    ensures game.evaluationFuncs.Some? && !HasKey(game.evaluationFuncs.value, name) ==> r == Err(KeyError)
    ensures game.evaluationFuncs.Some? && HasKey(game.evaluationFuncs.value, name) ==>
              r == Ok(Lookup(game.evaluationFuncs.value, name)(state))
  {
    match game.evaluationFuncs
    case None => Err(AttributeError)
    case Some(funcs) =>
      if HasKey(funcs, name) then Ok(Lookup(funcs, name)(state)) else Err(KeyError)
  }

  /** `evaluate_state_by_player` of the configured mixin; without one the
      attribute lookup fails. Monte Carlo's rollouts are the engine's
      `rollout` parameter; its terminal case matches the winner-based one. */
  function PlayerSlate<S, P(==), M, H>(eng: Engine<S, P, M, H>, state: S): (r: Result<Slate<P>, Exc>)
    ensures eng.cfg.playerEvaluation.None? ==> r == Err(AttributeError)
    ensures eng.cfg.playerEvaluation == Some(WinnerBasedEvaluation) ==>
              r == Ok(WinnerSlate(eng.game.players, eng.game.winner(state)))
    ensures eng.cfg.playerEvaluation == Some(MonteCarloBasedEvaluation) && eng.game.winner(state).Some? ==>
              r == Ok(WinnerSlate(eng.game.players, eng.game.winner(state)))
  {
    match eng.cfg.playerEvaluation
    case None => Err(AttributeError)
    case Some(GameBasedEvaluation(name)) => GameBased(eng.game, name, state)
    case Some(WinnerBasedEvaluation) => Ok(WinnerSlate(eng.game.players, eng.game.winner(state)))
    case Some(MonteCarloBasedEvaluation) =>
      if eng.game.winner(state).None? then Ok(eng.rollout(state))
      else Ok(WinnerSlate(eng.game.players, eng.game.winner(state)))
  }

  // ---------------------------------------------------------------------
  // Aggregation into one score

  /** The scores of every entry whose key is not the player, in order. */
  function Others<P(==)>(slate: Slate<P>, player: P): (r: seq<Score>)
    ensures |r| <= |slate|
    ensures forall x :: x in r <==> exists i :: 0 <= i < |slate| && slate[i].0 != player && slate[i].1 == x
    decreases |slate|
  {
    if |slate| == 0 then []
    else
      var rest := Others(slate[1..], player);
      assert forall i :: 1 <= i < |slate| ==> slate[i] == slate[1..][i - 1];
      if slate[0].0 != player then [slate[0].1] + rest else rest
  }

  /** `ZeroSumPlayer.evaluate_state`: own score minus the sum of the others'. */
  function ZeroSumValue<P(==)>(slate: Slate<P>, player: P): (r: Result<Score, Exc>)
    ensures r.Err? <==> !HasKey(slate, player)
    ensures r.Err? ==> r.error == KeyError
  {
    if !HasKey(slate, player) then Err(KeyError)
    else Ok(Sub(Lookup(slate, player), Sum(Others(slate, player))))
  }

  /** With finite scores the zero-sum value is own score minus the sum of
      the others': adding the others back gives the player's own score. */
  lemma ZeroSumFinite<P>(slate: Slate<P>, player: P, own: int, others: seq<int>)
    requires HasKey(slate, player) && Lookup(slate, player) == Fin(own)
    requires Others(slate, player) == Finite(others)
    ensures ZeroSumValue(slate, player) == Ok(Fin(own - IntSum(others)))
  {
    SumFinite(others);
  }

  /** The zero-sum value of a winner-based slate, for distinct players that
      include the searcher: 0 while the game goes on, +inf for the searcher's
      own win, -inf for a loss in a two-player game, and NaN for a loss
      among three or more players and for a draw marker outside the
      players, since the others' sum then holds both infinities. */
  lemma ZeroSumOfWinnerSlate<P>(players: seq<P>, player: P, winner: Option<P>)
    requires player in players
    requires forall i, j :: 0 <= i < j < |players| ==> players[i] != players[j]
    ensures winner.None? ==> ZeroSumValue(WinnerSlate(players, winner), player) == Ok(Fin(0))
    ensures winner == Some(player) ==> ZeroSumValue(WinnerSlate(players, winner), player) == Ok(PosInf)
    ensures winner.Some? && winner.value != player && winner.value in players && |players| == 2 ==>
              ZeroSumValue(WinnerSlate(players, winner), player) == Ok(NegInf)
    ensures winner.Some? && winner.value != player && winner.value in players && |players| >= 3 ==>
              ZeroSumValue(WinnerSlate(players, winner), player).value.NaN?
    ensures winner.Some? && winner.value !in players && |players| >= 2 ==>
              ZeroSumValue(WinnerSlate(players, winner), player).value.NaN?
  {
    match winner
    case None => ZeroSumNoWinner(players, player);
    case Some(w) =>
      if w == player {
        ZeroSumOwnWin(players, player);
      } else if w in players && |players| == 2 {
        ZeroSumTwoPlayerLoss(players, player, w);
      } else if (w in players && |players| >= 3) || (w !in players && |players| >= 2) {
        ZeroSumMixedInfinities(players, player, w);
      }
  }

  lemma ZeroSumNoWinner<P>(players: seq<P>, player: P)
    requires player in players
    ensures ZeroSumValue(WinnerSlate(players, None), player) == Ok(Fin(0))
  {
    var d := WinnerSlate(players, None);
    var others := Others(d, player);
    forall k | 0 <= k < |others| ensures others[k] == Fin(0) {
      assert others[k] in others;
    }
    ZeroSumZeros(others);
  }

  lemma ZeroSumOwnWin<P>(players: seq<P>, player: P)
    requires player in players
    ensures ZeroSumValue(WinnerSlate(players, Some(player)), player) == Ok(PosInf)
  {
    var d := WinnerSlate(players, Some(player));
    var others := Others(d, player);
    assert HasKey(d, player) && Lookup(d, player) == PosInf;
    forall k | 0 <= k < |others| ensures others[k] == NegInf {
      assert others[k] in others;
      var i :| 0 <= i < |d| && d[i].0 != player && d[i].1 == others[k];
      LookupAt(d, i);
      assert d[i].0 in players;
    }
    OwnWinTotal(others);
    assert ZeroSumValue(d, player) == Ok(Sub(PosInf, Sum(others)));
  }

  lemma OwnWinTotal(others: seq<Score>)
    requires forall k :: 0 <= k < |others| ==> others[k] == NegInf
    ensures Sub(PosInf, Sum(others)) == PosInf
  {
    if |others| > 0 {
      SumAbsorbs(others, 0);
    }
  }

  lemma ZeroSumTwoPlayerLoss<P>(players: seq<P>, player: P, w: P)
    requires player in players && w in players && w != player && |players| == 2
    ensures ZeroSumValue(WinnerSlate(players, Some(w)), player) == Ok(NegInf)
  {
    var d := WinnerSlate(players, Some(w));
    var others := Others(d, player);
    var iw := IndexOf(d, w);
    LookupAt(d, iw);
    assert PosInf in others;
    forall k | 0 <= k < |others| ensures others[k] == PosInf {
      assert others[k] in others;
      var i :| 0 <= i < |d| && d[i].0 != player && d[i].1 == others[k];
      LookupAt(d, i);
      if d[i].0 != w {
        TwoPlayers(players, player, w, d[i].0);
      }
    }
    var k :| 0 <= k < |others| && others[k] == PosInf;
    SumAbsorbs(others, k);
    assert Sum(others) == PosInf;
  }

  lemma ZeroSumMixedInfinities<P>(players: seq<P>, player: P, w: P)
    requires player in players && player != w
    requires forall i, j :: 0 <= i < j < |players| ==> players[i] != players[j]
    requires (w in players && |players| >= 3) || (w !in players && |players| >= 2)
    ensures ZeroSumValue(WinnerSlate(players, Some(w)), player).value.NaN?
  {
    var d := WinnerSlate(players, Some(w));
    var others := Others(d, player);
    var iw := IndexOf(d, w);
    LookupAt(d, iw);
    assert PosInf in others;
    var q := OtherLoser(players, player, w);
    var iq := IndexOf(d, q);
    LookupAt(d, iq);
    assert NegInf in others;
    var a :| 0 <= a < |others| && others[a] == PosInf;
    var b :| 0 <= b < |others| && others[b] == NegInf;
    SumOpposite(others, a, b);
  }

  lemma ZeroSumZeros(xs: seq<Score>)
    requires forall i :: 0 <= i < |xs| ==> xs[i] == Fin(0)
    ensures Sum(xs) == Fin(0)
    decreases |xs|
  {
    if |xs| > 0 {
      ZeroSumZeros(xs[..|xs| - 1]);
    }
  }

  lemma TwoPlayers<P>(players: seq<P>, a: P, b: P, p: P)
    requires |players| == 2 && a in players && b in players && p in players && a != b && p != a
    ensures p == b
  {
  }

  /** Among three distinct players, or two players and a draw marker, a
      player other than the searcher and the winner exists. */
  lemma OtherLoser<P>(players: seq<P>, player: P, w: P) returns (q: P)
    requires player in players && player != w
    requires forall i, j :: 0 <= i < j < |players| ==> players[i] != players[j]
    requires (w in players && |players| >= 3) || (w !in players && |players| >= 2)
    ensures q in players && q != player && q != w
  {
    var a, b, c := players[0], players[1], if |players| >= 3 then players[2] else players[0];
    if a != player && a != w {
      q := a;
    } else if b != player && b != w {
      q := b;
    } else {
      q := c;
    }
  }

  // Python's sorted() on scores

  /** Insert x after every element it is not smaller than. */
  function Insert(s: seq<Score>, x: Score): (r: seq<Score>)
    ensures multiset(r) == multiset(s) + multiset{x}
    ensures |r| == |s| + 1
    decreases |s|
  {
    if |s| == 0 then [x]
    else if Less(x, s[0]) then [x] + s
    else
      assert s == [s[0]] + s[1..];
      [s[0]] + Insert(s[1..], x)
  }

  function Sort(xs: seq<Score>): (r: seq<Score>)
    ensures multiset(r) == multiset(xs)
    ensures |r| == |xs|
    decreases |xs|
  {
    if |xs| == 0 then []
    else
      assert xs == xs[..|xs| - 1] + [xs[|xs| - 1]];
      Insert(Sort(xs[..|xs| - 1]), xs[|xs| - 1])
  }

  ghost predicate Ascending(s: seq<Score>) {
    forall i, j :: 0 <= i < j < |s| ==> !Less(s[j], s[i])
  }

  /** Every element of an insertion was inserted or was there before. */
  lemma InsertMember(s: seq<Score>, x: Score, y: Score)
    requires y in Insert(s, x)
    ensures y in s || y == x
  {
    assert y in multiset(Insert(s, x));
  }

  /** An element no smaller than the head is inserted into the tail. */
  lemma InsertBehind(s: seq<Score>, x: Score)
    requires |s| > 0 && !Less(x, s[0])
    ensures Insert(s, x) == [s[0]] + Insert(s[1..], x)
  {
  }

  /** Nothing inserted into the tail of an ascending sequence is below its
      head, when the inserted element is not. */
  lemma HeadBelow(s: seq<Score>, x: Score, y: Score)
    requires |s| > 0 && Ascending(s) && !Less(x, s[0])
    requires y in Insert(s[1..], x)
    ensures !Less(y, s[0])
  {
    InsertMember(s[1..], x, y);
    if y != x {
      var k :| 0 <= k < |s[1..]| && s[1..][k] == y;
      assert s[k + 1] == y;
    }
  }

  /** An ascending sequence stays ascending behind a head that nothing in it
      is below. */
  lemma ConsAscending(h: Score, t: seq<Score>)
    requires Ascending(t) && forall k :: 0 <= k < |t| ==> !Less(t[k], h)
    ensures Ascending([h] + t)
  {
    var r := [h] + t;
    forall i, j | 0 <= i < j < |r| ensures !Less(r[j], r[i]) {
      assert r[j] == t[j - 1];
      if i > 0 {
        assert r[i] == t[i - 1];
      }
    }
  }

  /** Inserting behind the head keeps the order once the tail is ordered. */
  lemma InsertBehindHead(s: seq<Score>, x: Score)
    requires |s| > 0 && Ascending(s) && !Less(x, s[0])
    requires Ascending(Insert(s[1..], x))
    ensures Ascending(Insert(s, x))
  {
    var t := Insert(s[1..], x);
    InsertBehind(s, x);
    forall k | 0 <= k < |t| ensures !Less(t[k], s[0]) {
      HeadBelow(s, x, t[k]);
    }
    ConsAscending(s[0], t);
  }

  /** Inserting in front of a larger head keeps the order. */
  lemma InsertInFront(s: seq<Score>, x: Score)
    requires |s| > 0 && Ascending(s) && NoNaN(s) && !x.NaN? && Less(x, s[0])
    ensures Ascending(Insert(s, x))
  {
    var r := Insert(s, x);
    forall i, j | 0 <= i < j < |r| ensures !Less(r[j], r[i]) {
      if i == 0 {
        assert r[j] == s[j - 1];
        if j - 1 > 0 {
          LessOrder(r[j], s[0], x);
        } else {
          LessOrder(s[0], x, x);
        }
      }
    }
  }

  lemma {:induction false} InsertAscending(s: seq<Score>, x: Score)
    requires Ascending(s) && NoNaN(s) && !x.NaN?
    ensures Ascending(Insert(s, x))
    decreases |s|
  {
    if |s| > 0 && !Less(x, s[0]) {
      assert NoNaN(s[1..]) && Ascending(s[1..]);
      InsertAscending(s[1..], x);
      InsertBehindHead(s, x);
    } else if |s| > 0 {
      InsertInFront(s, x);
    }
  }

  lemma {:induction false} SortAscending(xs: seq<Score>)
    requires NoNaN(xs)
    ensures Ascending(Sort(xs)) && NoNaN(Sort(xs))
    decreases |xs|
  {
    if |xs| > 0 {
      var front := xs[..|xs| - 1];
      assert NoNaN(front);
      SortAscending(front);
      InsertAscending(Sort(front), xs[|xs| - 1]);
      var r := Sort(xs);
      forall i | 0 <= i < |r| ensures !r[i].NaN? {
        assert r[i] in multiset(xs);
      }
    }
  }

  /** `RacerPlayer.evaluate_state`: the scores are sorted ascending; a player
      equal to the first (lowest) gets its distance to the second, anyone
      else its distance to the first. */
  function RacerValue<P(==)>(slate: Slate<P>, player: P): (r: Result<Score, Exc>)
    ensures !HasKey(slate, player) ==> r == Err(KeyError)
  {
    if !HasKey(slate, player) then Err(KeyError)
    else
      var points := Lookup(slate, player);
      var all := Sort(ValuesOf(slate));
      if Same(points, all[0]) then
        if |all| < 2 then Err(IndexError) else Ok(Sub(points, all[1]))
      else Ok(Sub(points, all[0]))
  }

  /** The front of a sorted NaN-free sequence: its first item is a least
      item of the input, found at `lo`, and the second, found at `second`,
      is not below the first. */
  lemma SortFront(xs: seq<Score>) returns (lo: int, second: int)
    requires NoNaN(xs) && |xs| > 0
    ensures 0 <= lo < |xs| && xs[lo] == Sort(xs)[0]
    ensures forall j :: 0 <= j < |xs| ==> !Less(xs[j], Sort(xs)[0])
    ensures |xs| >= 2 ==> 0 <= second < |xs| && xs[second] == Sort(xs)[1] && !Less(Sort(xs)[1], Sort(xs)[0])
  {
    SortAscending(xs);
    var all := Sort(xs);
    assert all[0] in multiset(xs);
    lo :| 0 <= lo < |xs| && xs[lo] == all[0];
    second := 0;
    if |xs| >= 2 {
      assert all[1] in multiset(xs);
      second :| 0 <= second < |xs| && xs[second] == all[1];
    }
    forall j | 0 <= j < |xs| ensures !Less(xs[j], all[0]) {
      assert xs[j] in multiset(all);
      var k :| 0 <= k < |all| && all[k] == xs[j];
      if k > 0 {
        assert !Less(all[k], all[0]);
      } else {
        LessOrder(all[0], all[0], all[0]);
      }
    }
  }

  /** What the code computes, against what its docstring describes: with
      finite scores, the lowest-scoring player (not the leader) is the one
      measured against the runner-up, and gets a value of at most 0, or an
      IndexError when it is alone. */
  lemma RacerLowest<P>(slate: Slate<P>, player: P)
    requires HasKey(slate, player)
    requires forall i :: 0 <= i < |slate| ==> slate[i].1.Fin?
    requires forall i :: 0 <= i < |slate| ==> !Less(slate[i].1, Lookup(slate, player))
    ensures |slate| < 2 ==> RacerValue(slate, player) == Err(IndexError)
    ensures |slate| >= 2 ==> RacerValue(slate, player).Ok? && RacerValue(slate, player).value.Fin? &&
                             RacerValue(slate, player).value.n <= 0
  {
    var values := ValuesOf(slate);
    var own := Lookup(slate, player);
    assert NoNaN(values);
    var i0, i1 := SortFront(values);
    var all := Sort(values);
    assert !Less(values[i0], own);
    var io :| 0 <= io < |slate| && slate[io] == (player, own);
    assert values[io] == own;
    assert own.Fin? && all[0].Fin?;
    assert Same(own, all[0]);
    if |slate| >= 2 {
      assert values[i1].Fin?;
      assert !Less(all[1], all[0]);
      assert all[1].n >= own.n;
      assert Sub(own, all[1]) == Fin(own.n - all[1].n);
      assert RacerValue(slate, player) == Ok(Sub(own, all[1]));
    } else {
      assert RacerValue(slate, player) == Err(IndexError);
    }
  }

  /** Every player above the lowest score gets its positive lead over a
      lowest-scoring entry. */
  lemma RacerAhead<P>(slate: Slate<P>, player: P, i: int) returns (low: int)
    requires HasKey(slate, player)
    requires forall k :: 0 <= k < |slate| ==> slate[k].1.Fin?
    requires 0 <= i < |slate| && Less(slate[i].1, Lookup(slate, player))
    ensures 0 <= low < |slate| && forall j :: 0 <= j < |slate| ==> !Less(slate[j].1, slate[low].1)
    ensures RacerValue(slate, player) == Ok(Fin(Lookup(slate, player).n - slate[low].1.n))
    ensures Lookup(slate, player).n - slate[low].1.n > 0
  {
    var values := ValuesOf(slate);
    var own := Lookup(slate, player);
    assert NoNaN(values);
    var second;
    low, second := SortFront(values);
    var all := Sort(values);
    assert values[i] == slate[i].1;
    assert !Less(values[i], all[0]);
    assert own.Fin? && all[0].Fin?;
    assert !Same(own, all[0]);
    assert values[low] == slate[low].1;
    assert Sub(own, all[0]) == Fin(own.n - slate[low].1.n);
    assert RacerValue(slate, player) == Ok(Sub(own, all[0]));
    forall j | 0 <= j < |slate| ensures !Less(slate[j].1, slate[low].1) {
      assert values[j] == slate[j].1;
    }
  }

  /** `evaluate_state` of the configured aggregation mixin. */
  function EvaluateState<S, P(==), M, H>(eng: Engine<S, P, M, H>, state: S): (r: Result<Score, Exc>)
    ensures eng.cfg.stateEvaluation == ZeroSumPlayer && eng.cfg.playerEvaluation.None? ==> r == Err(AttributeError)
    ensures eng.cfg.stateEvaluation == RacerPlayer && eng.game.evaluateState.None? ==> r == Err(AttributeError)
  {
    match eng.cfg.stateEvaluation
    case ZeroSumPlayer =>
      var slate :- PlayerSlate(eng, state);
      ZeroSumValue(slate, eng.player)
    case RacerPlayer =>
      if eng.game.evaluateState.None? then Err(AttributeError)
      else RacerValue(eng.game.evaluateState.value(state), eng.player)
  }

  // ---------------------------------------------------------------------
  // The evaluate_state helper (pychology/search.py:529-547)

  /** The weights the helper uses: one per function by default, else the
      given ones, which must match the functions in number. */
  function HelperWeights<F>(funcs: seq<F>, weights: Option<seq<int>>): (r: Result<seq<int>, Exc>)
    ensures weights.None? ==> r.Ok? && |r.value| == |funcs| && forall i :: 0 <= i < |funcs| ==> r.value[i] == 1
    ensures weights.Some? ==> (r.Ok? <==> |weights.value| == |funcs|)
    ensures weights.Some? && r.Ok? ==> r.value == weights.value
    ensures r.Err? ==> r.error == GeneralException
  {
    match weights
    case None => Ok(seq(|funcs|, _ => 1))
    case Some(ws) => if |ws| != |funcs| then Err(GeneralException) else Ok(ws)
  }

  /** `sum(ps * w for ps, w in zip(p_scores, weights))`. */
  function WeightedSum(scores: seq<Score>, weights: seq<int>): Score
    requires |scores| == |weights|
    decreases |scores|
  {
    if |scores| == 0 then Fin(0)
    else Add(WeightedSum(scores[..|scores| - 1], weights[..|weights| - 1]), Scale(scores[|scores| - 1], weights[|weights| - 1]))
  }

  /** With weight 1 everywhere the weighted sum is the plain sum. */
  lemma {:induction false} WeightedSumOnes(scores: seq<Score>, weights: seq<int>)
    requires |scores| == |weights| && forall i :: 0 <= i < |weights| ==> weights[i] == 1
    ensures WeightedSum(scores, weights) == Sum(scores)
    decreases |scores|
  {
    if |scores| > 0 {
      WeightedSumOnes(scores[..|scores| - 1], weights[..|weights| - 1]);
    }
  }

  /** `[s[p] for s in scores]`, raising KeyError when a slate lacks p. */
  function Column<P(==)>(slates: seq<Slate<P>>, p: P): (r: Result<seq<Score>, Exc>)
    ensures r.Ok? <==> forall i :: 0 <= i < |slates| ==> HasKey(slates[i], p)
    ensures r.Ok? ==> |r.value| == |slates| && forall i :: 0 <= i < |slates| ==> r.value[i] == Lookup(slates[i], p)
    decreases |slates|
  {
    if |slates| == 0 then Ok([])
    else if !HasKey(slates[0], p) then Err(KeyError)
    else
      var rest := Column(slates[1..], p);
      assert forall i :: 1 <= i < |slates| ==> slates[i] == slates[1..][i - 1];
      if rest.Err? then Err(KeyError) else Ok([Lookup(slates[0], p)] + rest.value)
  }

  /** The per-player totals, one `totals[p] = ...` per key of the first slate. */
  function Totals<P(==)>(keys: seq<P>, slates: seq<Slate<P>>, weights: seq<int>): Result<Slate<P>, Exc>
    requires |slates| == |weights|
    decreases |keys|
  {
    if |keys| == 0 then Ok([])
    else
      var totals :- Totals(keys[..|keys| - 1], slates, weights);
      var p := keys[|keys| - 1];
      var column :- Column(slates, p);
      Ok(Put(totals, p, WeightedSum(column, weights)))
  }

  /** The totals hold exactly the given keys, and succeed exactly when every
      slate has every key. */
  lemma {:induction false} TotalsOk<P>(keys: seq<P>, slates: seq<Slate<P>>, weights: seq<int>)
    requires |slates| == |weights|
    ensures Totals(keys, slates, weights).Ok? <==> forall i :: 0 <= i < |keys| ==> Column(slates, keys[i]).Ok?
    decreases |keys|
  {
    if |keys| > 0 {
      var front := keys[..|keys| - 1];
      var last := keys[|keys| - 1];
      TotalsOk(front, slates, weights);
      TotalsUnfold(keys, slates, weights);
      ColumnsSnoc(keys, front, slates);
    }
  }

  /** The totals for one more key succeed exactly when those for the
      earlier keys and the new key's column do. */
  lemma TotalsUnfold<P>(keys: seq<P>, slates: seq<Slate<P>>, weights: seq<int>)
    requires |slates| == |weights| && |keys| > 0
    ensures Totals(keys, slates, weights).Ok? <==>
              Totals(keys[..|keys| - 1], slates, weights).Ok? && Column(slates, keys[|keys| - 1]).Ok?
  {
  }

  /** Every key's column succeeds exactly when every earlier key's and the
      last key's do. */
  lemma ColumnsSnoc<P>(keys: seq<P>, front: seq<P>, slates: seq<Slate<P>>)
    requires |keys| > 0 && front == keys[..|keys| - 1]
    ensures (forall i :: 0 <= i < |keys| ==> Column(slates, keys[i]).Ok?) <==>
              (forall i :: 0 <= i < |front| ==> Column(slates, front[i]).Ok?) &&
              Column(slates, keys[|keys| - 1]).Ok?
  {
    assert forall i :: 0 <= i < |front| ==> front[i] == keys[i];
  }

  lemma {:induction false} TotalsKeys<P>(keys: seq<P>, slates: seq<Slate<P>>, weights: seq<int>)
    requires |slates| == |weights|
    ensures Totals(keys, slates, weights).Ok? ==> forall p :: p in keys ==> HasKey(Totals(keys, slates, weights).value, p)
    ensures Totals(keys, slates, weights).Ok? ==>
              forall i :: 0 <= i < |Totals(keys, slates, weights).value| ==> Totals(keys, slates, weights).value[i].0 in keys
    decreases |keys|
  {
    if |keys| > 0 {
      var front := keys[..|keys| - 1];
      var p := keys[|keys| - 1];
      TotalsKeys(front, slates, weights);
      var rf := Totals(front, slates, weights);
      var rc := Column(slates, p);
      if rf.Ok? && rc.Ok? {
        TotalsStep(rf.value, keys, p, WeightedSum(rc.value, weights));
      }
    }
  }

  lemma TotalsStep<P>(totals: Slate<P>, keys: seq<P>, p: P, v: Score)
    requires |keys| > 0 && p == keys[|keys| - 1]
    requires forall q :: q in keys[..|keys| - 1] ==> HasKey(totals, q)
    requires forall i :: 0 <= i < |totals| ==> totals[i].0 in keys[..|keys| - 1]
    ensures forall q :: q in keys ==> HasKey(Put(totals, p, v), q)
    ensures forall i :: 0 <= i < |Put(totals, p, v)| ==> Put(totals, p, v)[i].0 in keys
  {
    assert keys == keys[..|keys| - 1] + [p];
    forall q | q in keys ensures HasKey(Put(totals, p, v), q) {
      PutOthers(totals, p, v, q);
    }
    forall i | 0 <= i < |Put(totals, p, v)| ensures Put(totals, p, v)[i].0 in keys {
      if i < |totals| {
        assert Put(totals, p, v)[i].0 == totals[i].0;
      } else {
        assert Put(totals, p, v)[i].0 == p;
      }
    }
  }

  /** The `inner` closure of the helper, applied to one state. */
  function WeightedEvaluation<S, P(==)>(winner: S -> Option<P>, players: seq<P>, funcs: seq<S -> Slate<P>>,
                                        weights: seq<int>, state: S): (r: Result<Slate<P>, Exc>)
    requires |weights| == |funcs|
    ensures winner(state).Some? && winner(state).value in players ==>
              r.Ok? && r.value == WinnerSlate(players, winner(state))
    ensures !(winner(state).Some? && winner(state).value in players) && |funcs| == 0 ==> r == Err(IndexError)
    ensures !(winner(state).Some? && winner(state).value in players) && r.Ok? ==>
              |funcs| > 0 &&
              (forall i :: 0 <= i < |funcs[0](state)| ==> HasKey(r.value, funcs[0](state)[i].0)) &&
              (forall i :: 0 <= i < |r.value| ==> HasKey(funcs[0](state), r.value[i].0))
  {
    if winner(state).Some? && winner(state).value in players then Ok(WinnerSlate(players, winner(state)))
    else if |funcs| == 0 then Err(IndexError)
    else
      var slates := seq(|funcs|, i requires 0 <= i < |funcs| => funcs[i](state));
      var keys := KeysOf(slates[0]);
      var r := Totals(keys, slates, weights);
      TotalsKeys(keys, slates, weights);
      TotalsOk(keys, slates, weights);
      assert r.Ok? ==> forall i :: 0 <= i < |r.value| ==> HasKey(funcs[0](state), r.value[i].0) by {
        if r.Ok? {
          forall i | 0 <= i < |r.value| ensures HasKey(funcs[0](state), r.value[i].0) {
            var j :| 0 <= j < |keys| && keys[j] == r.value[i].0;
            assert slates[0][j].0 == r.value[i].0;
          }
        }
      }
      assert forall i :: 0 <= i < |slates[0]| ==> slates[0][i].0 in keys by {
        forall i | 0 <= i < |slates[0]| ensures slates[0][i].0 in keys {
          assert keys[i] == slates[0][i].0;
        }
      }
      r
  }

  /** Each total is the weighted sum of that player's scores. */
  lemma {:induction false} TotalsValues<P>(keys: seq<P>, slates: seq<Slate<P>>, weights: seq<int>, p: P)
    requires |slates| == |weights|
    requires Totals(keys, slates, weights).Ok? && p in keys
    ensures Column(slates, p).Ok? && HasKey(Totals(keys, slates, weights).value, p)
    ensures Lookup(Totals(keys, slates, weights).value, p) == WeightedSum(Column(slates, p).value, weights)
    decreases |keys|
  {
    var front := keys[..|keys| - 1];
    var last := keys[|keys| - 1];
    var rf := Totals(front, slates, weights);
    var rc := Column(slates, last);
    assert rf.Ok? && rc.Ok?;
    var total := WeightedSum(rc.value, weights);
    assert Totals(keys, slates, weights).value == Put(rf.value, last, total);
    PutOthers(rf.value, last, total, p);
    if p == last {
      PutRead(rf.value, last, total);
    } else {
      assert keys == front + [last];
      assert p in front;
      TotalsValues(front, slates, weights, p);
    }
  }
}
