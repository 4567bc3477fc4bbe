/** Nine men's morris (pychology/games/nine_mens_morris.py): X and O first
    set nine men each on the 24 points, then move them along the lines;
    closing a mill of three captures an enemy man. */
module NineMensMorris {
  import opened Common
  import opened Scores

  datatype Player = X | O
  datatype Phase = Setting | Moving

  const Men: int := 9
  const Points: nat := 24

  function Other(p: Player): Player {
    if p == X then O else X
  }

  // ---------------------------------------------------------------------
  // The tables, written with points numbered from 1 and then converted

  const MillsFromOne: seq<seq<int>> := [
    [1, 2, 3], [4, 5, 6], [7, 8, 9], [10, 11, 12], [13, 14, 15], [16, 17, 18], [19, 20, 21], [22, 23, 24],
    [1, 10, 22], [4, 11, 19], [7, 12, 16], [2, 5, 8], [17, 20, 23], [9, 13, 18], [6, 14, 21], [3, 15, 24]]

  /** Entry t-1 lists the neighbours of point t. */
  const AdjacencyFromOne: seq<seq<int>> := [
    [2, 10], [1, 3, 5], [2, 15], [5, 11], [2, 4, 6, 8], [5, 14], [8, 12], [5, 7, 9], [8, 13],
    [1, 11, 22], [4, 10, 12, 19], [7, 11, 16], [9, 14, 18], [6, 13, 15, 21], [3, 14, 24], [12, 17],
    [16, 18, 20], [13, 17], [11, 20], [17, 19, 21, 23], [14, 20], [10, 23], [20, 22, 24], [15, 23]]

  function ZeroBased(xs: seq<int>): (ys: seq<int>)
    ensures |ys| == |xs| && forall i :: 0 <= i < |xs| ==> ys[i] == xs[i] - 1
  {
    seq(|xs|, i requires 0 <= i < |xs| => xs[i] - 1)
  }

  /** `lines` after the conversion: every mill is three points. */
  function Mill(k: int): (m: seq<int>)
    requires 0 <= k < |MillsFromOne|
    ensures |m| == 3 && forall j :: 0 <= j < |m| ==> 0 <= m[j] < Points
  {
    ZeroBased(MillsFromOne[k])
  }

  /** `tile_adjacency[t]` after the conversion: points other than `t`. */
  function Adj(t: int): (ns: seq<int>)
    requires 0 <= t < Points
    ensures forall j :: 0 <= j < |ns| ==> 0 <= ns[j] < Points && ns[j] != t
  {
    ZeroBased(AdjacencyFromOne[t])
  }

  /** Adjacency goes both ways. */
  lemma AdjacencySymmetric()
    ensures forall a, b :: 0 <= a < Points && b in Adj(a) ==> a in Adj(b)
  {
    forall a, b | 0 <= a < Points && b in Adj(a) ensures a in Adj(b) {
      var j :| 0 <= j < |Adj(a)| && Adj(a)[j] == b;
      AdjacencyRow(a);
      var i :| 0 <= i < |AdjacencyFromOne[b]| && AdjacencyFromOne[b][i] == a + 1;
      assert Adj(b)[i] == a;
    }
  }

  lemma AdjacencyRow(a: int)
    requires 0 <= a < Points
    ensures forall j :: 0 <= j < |AdjacencyFromOne[a]| ==>
              var b := AdjacencyFromOne[a][j]; 1 <= b <= Points && a + 1 in AdjacencyFromOne[b - 1]
  {
  }

  // ---------------------------------------------------------------------
  // States

  /** The 24 points, the number of men O has set, the phase and the player
      to move. */
  datatype State = State(board: seq<Option<Player>>, menSet: int, phase: Phase, player: Player)

  predicate WellFormed(s: State) {
    |s.board| == Points
  }

  /** `initial_state`: an empty board, nothing set, X to set first. */
  function InitialState(): (s: State)
    ensures WellFormed(s) && s.menSet == 0 && s.phase == Setting && s.player == X
    ensures forall t :: 0 <= t < Points ==> s.board[t].None?
  {
    State(seq(24, _ => None), 0, Setting, X)
  }

  /** The board `closes_mill` inspects: a copy with `from` emptied (when
      given) and `target` taken by `p`. */
  function Placed(board: seq<Option<Player>>, p: Player, from: Option<int>, target: int): seq<Option<Player>>
    requires |board| == Points && 0 <= target < Points && (from.Some? ==> 0 <= from.value < Points)
  {
    (if from.Some? then board[from.value := None] else board)[target := Some(p)]
  }

  /** Mill `k` is entirely `p`'s. */
  predicate OwnsMill(board: seq<Option<Player>>, k: int, p: Player)
    requires |board| == Points && 0 <= k < |MillsFromOne|
  {
    forall j :: 0 <= j < |Mill(k)| ==> board[Mill(k)[j]] == Some(p)
  }

  /** The loop of `closes_mill` from the `k`-th mill on. */
  function AnyMill(board: seq<Option<Player>>, p: Player, target: int, k: nat): bool
    requires |board| == Points && k <= |MillsFromOne|
    decreases |MillsFromOne| - k
  {
    if k == |MillsFromOne| then false
    else if target in Mill(k) && OwnsMill(board, k, p) then true
    else AnyMill(board, p, target, k + 1)
  }

  lemma {:induction false} AnyMillMeans(board: seq<Option<Player>>, p: Player, target: int, k: nat)
    requires |board| == Points && k <= |MillsFromOne|
    ensures AnyMill(board, p, target, k) <==> exists i :: k <= i < |MillsFromOne| && target in Mill(i) && OwnsMill(board, i, p)
    decreases |MillsFromOne| - k
  {
    if k < |MillsFromOne| {
      AnyMillMeans(board, p, target, k + 1);
    }
  }

  /** `closes_mill`: after the move, some mill through the target is
      entirely the mover's. The state is not changed. */
  function ClosesMill(s: State, from: Option<int>, target: int): bool
    requires WellFormed(s) && 0 <= target < Points && (from.Some? ==> 0 <= from.value < Points)
  {
    AnyMill(Placed(s.board, s.player, from, target), s.player, target, 0)
  }

  /** `closes_mill` is true exactly when some mill through the target is
      entirely the mover's after the move; it reads a copy of the board. */
  lemma ClosesMillMeans(s: State, from: Option<int>, target: int)
    requires WellFormed(s) && 0 <= target < Points && (from.Some? ==> 0 <= from.value < Points)
    ensures ClosesMill(s, from, target) <==>
              exists i :: 0 <= i < |MillsFromOne| && target in Mill(i) && OwnsMill(Placed(s.board, s.player, from, target), i, s.player)
  {
    AnyMillMeans(Placed(s.board, s.player, from, target), s.player, target, 0);
  }

  // ---------------------------------------------------------------------
  // legal_moves

  /** The points held by the other player, in increasing order, among the
      first `n`. */
  function EnemiesBelow(board: seq<Option<Player>>, p: Player, n: nat): (es: seq<int>)
    requires n <= |board|
    ensures forall e :: e in es <==> 0 <= e < n && board[e] == Some(Other(p))
    ensures forall i, j :: 0 <= i < j < |es| ==> es[i] < es[j]
    ensures forall i :: 0 <= i < |es| ==> es[i] < n
  {
    if n == 0 then [] else EnemiesBelow(board, p, n - 1) + (if board[n - 1] == Some(Other(p)) then [n - 1] else [])
  }

  /** The `enemies` comprehension: the points holding the other player's
      men. */
  function Enemies(s: State): seq<int>
    requires WellFormed(s)
  {
    EnemiesBelow(s.board, s.player, Points)
  }

  function EmptyBelow(board: seq<Option<Player>>, n: nat): (ts: seq<int>)
    requires n <= |board|
    ensures forall t :: t in ts <==> 0 <= t < n && board[t].None?
    ensures forall i :: 0 <= i < |ts| ==> 0 <= ts[i] < n
  {
    if n == 0 then [] else EmptyBelow(board, n - 1) + (if board[n - 1].None? then [n - 1] else [])
  }

  /** One action per enemy man: `prefix` followed by its point. */
  function Captures(prefix: seq<int>, enemies: seq<int>): seq<seq<int>> {
    if enemies == [] then [] else Captures(prefix, enemies[..|enemies| - 1]) + [prefix + [enemies[|enemies| - 1]]]
  }

  lemma {:induction false} CapturesMember(prefix: seq<int>, enemies: seq<int>, a: seq<int>)
    ensures a in Captures(prefix, enemies) <==> |a| == |prefix| + 1 && a[..|prefix|] == prefix && a[|prefix|] in enemies
    decreases |enemies|
  {
    if enemies != [] {
      var n := |enemies|;
      CapturesMember(prefix, enemies[..n - 1], a);
      var last := prefix + [enemies[n - 1]];
      assert last[..|prefix|] == prefix;
      assert enemies == enemies[..n - 1] + [enemies[n - 1]];
      if |a| == |prefix| + 1 && a[..|prefix|] == prefix {
        assert a == prefix + [a[|prefix|]];
      }
    }
  }

  /** What placing on empty point `t` offers. */
  function SettingAt(s: State, t: int): seq<seq<int>>
    requires WellFormed(s) && 0 <= t < Points
  {
    if ClosesMill(s, None, t) then Captures([t], Enemies(s)) else [[t]]
  }

  /** The SETTING actions for the given targets, in order. */
  function SettingOver(s: State, targets: seq<int>): seq<seq<int>>
    requires WellFormed(s) && forall i :: 0 <= i < |targets| ==> 0 <= targets[i] < Points
  {
    if targets == [] then []
    else SettingOver(s, targets[..|targets| - 1]) + SettingAt(s, targets[|targets| - 1])
  }

  /** What stepping from `t` to its neighbour `n` offers. */
  function StepTo(s: State, t: int, n: int): seq<seq<int>>
    requires WellFormed(s) && 0 <= t < Points && 0 <= n < Points
  {
    if s.board[n].None? then
      if ClosesMill(s, Some(t), n) then Captures([t, n], Enemies(s)) else [[t, n]]
    else []
  }

  /** The steps from `t` to the neighbours `ns`, in order. */
  function StepsFrom(s: State, t: int, ns: seq<int>): seq<seq<int>>
    requires WellFormed(s) && 0 <= t < Points && forall i :: 0 <= i < |ns| ==> 0 <= ns[i] < Points
  {
    if ns == [] then []
    else StepsFrom(s, t, ns[..|ns| - 1]) + StepTo(s, t, ns[|ns| - 1])
  }

  /** The MOVING actions from the first `n` points. */
  function MovingBelow(s: State, n: nat): seq<seq<int>>
    requires WellFormed(s) && n <= Points
  {
    if n == 0 then []
    else MovingBelow(s, n - 1) + MovingFrom(s, n - 1)
  }

  /** The actions of the player to move. */
  function PlayerMoves(s: State): seq<seq<int>>
    requires WellFormed(s)
  {
    if s.phase == Setting then SettingOver(s, EmptyBelow(s.board, Points)) else MovingBelow(s, Points)
  }

  /** The innermost loops of `legal_moves`: one action per enemy man. */
  method AppendCaptures(acts: seq<seq<int>>, prefix: seq<int>, enemies: seq<int>) returns (acts': seq<seq<int>>)
    ensures acts' == acts + Captures(prefix, enemies)
  {
    acts' := acts;
    for k := 0 to |enemies|
      invariant acts' == acts + Captures(prefix, enemies[..k])
    {
      assert enemies[..k + 1][..k] == enemies[..k];
      acts' := acts' + [prefix + [enemies[k]]];
    }
    assert enemies[..|enemies|] == enemies;
  }

  /** The SETTING branch of `legal_moves`. */
  method SettingMoves(s: State) returns (acts: seq<seq<int>>)
    requires WellFormed(s)
    ensures acts == SettingOver(s, EmptyBelow(s.board, Points))
  {
    acts := [];
    var targets := EmptyBelow(s.board, Points);
    for i := 0 to |targets|
      invariant acts == SettingOver(s, targets[..i])
    {
      assert targets[..i + 1][..i] == targets[..i];
      var t := targets[i];
      if ClosesMill(s, None, t) {
        var enemies := Enemies(s);
        acts := AppendCaptures(acts, [t], enemies);
      } else {
        acts := acts + [[t]];
      }
    }
    assert targets[..|targets|] == targets;
  }

  /** The loop over one own man's neighbours in `legal_moves`. */
  method StepsOf(s: State, t: int, adjacent: seq<int>) returns (steps: seq<seq<int>>)
    requires WellFormed(s) && 0 <= t < Points && forall i :: 0 <= i < |adjacent| ==> 0 <= adjacent[i] < Points
    ensures steps == StepsFrom(s, t, adjacent)
  {
    steps := [];
    for m := 0 to |adjacent|
      invariant steps == StepsFrom(s, t, adjacent[..m])
    {
      var n := adjacent[m];
      assert adjacent[..m + 1][..m] == adjacent[..m];
      assert StepsFrom(s, t, adjacent[..m + 1]) == StepsFrom(s, t, adjacent[..m]) + StepTo(s, t, n);
      if s.board[n].None? {
        if ClosesMill(s, Some(t), n) {
          var enemies := Enemies(s);
          steps := AppendCaptures(steps, [t, n], enemies);
        } else {
          steps := steps + [[t, n]];
        }
      }
    }  assert adjacent[..|adjacent|] == adjacent;
  }

  /** The MOVING branch of `legal_moves`. */
  method MovingMoves(s: State) returns (acts: seq<seq<int>>)
    requires WellFormed(s)
    ensures acts == MovingBelow(s, Points)
  {
    acts := [];
    for t := 0 to Points
      invariant acts == MovingBelow(s, t)
    {
      if s.board[t] == Some(s.player) {
        var steps := StepsOf(s, t, Adj(t));
        acts := acts + steps;
      }
      assert MovingBelow(s, t + 1) == MovingBelow(s, t) + MovingFrom(s, t);
    }
  }

  /** `legal_moves`: an entry per player, X first; the player to move gets
      the SETTING placements or the MOVING steps, the other player []. */
  method LegalMoves(s: State) returns (actions: Dict<Player, seq<seq<int>>>)
    requires WellFormed(s)
    ensures actions == [(X, if s.player == X then PlayerMoves(s) else []), (O, if s.player == O then PlayerMoves(s) else [])]
  {
    var acts;
    if s.phase == Setting {
      acts := SettingMoves(s);
    } else {
      acts := MovingMoves(s);
    }
    if s.player == X {
      actions := [(X, acts), (O, [])];
    } else {
      actions := [(X, []), (O, acts)];
    }
  }

  // ---------------------------------------------------------------------
  // What the actions are

  /** A SETTING action: an empty point, followed by an enemy man's point
      exactly when the placement closes a mill. */
  ghost predicate IsSettingAction(s: State, a: seq<int>)
    requires WellFormed(s)
  {
    (|a| == 1 || |a| == 2) && 0 <= a[0] < Points && s.board[a[0]].None? &&
    (|a| == 2 <==> ClosesMill(s, None, a[0])) &&
    (|a| == 2 ==> 0 <= a[1] < Points && s.board[a[1]] == Some(Other(s.player)))
  }

  /** A step from an own man's point to an empty point, followed by an
      enemy man's point exactly when the step closes a mill. */
  ghost predicate IsStep(s: State, a: seq<int>)
    requires WellFormed(s)
  {
    (|a| == 2 || |a| == 3) && 0 <= a[0] < Points && s.board[a[0]] == Some(s.player) &&
    0 <= a[1] < Points && s.board[a[1]].None? &&
    (|a| == 3 <==> ClosesMill(s, Some(a[0]), a[1])) &&
    (|a| == 3 ==> 0 <= a[2] < Points && s.board[a[2]] == Some(Other(s.player)))
  }

  /** A MOVING action: a step to a neighbouring point. */
  ghost predicate IsMovingAction(s: State, a: seq<int>)
    requires WellFormed(s)
  {
    IsStep(s, a) && a[1] in Adj(a[0])
  }

  lemma SettingAtMembers(s: State, t: int, a: seq<int>)
    requires WellFormed(s) && 0 <= t < Points && s.board[t].None?
    ensures a in SettingAt(s, t) <==> |a| >= 1 && a[0] == t && IsSettingAction(s, a)
  {
    var closes := ClosesMill(s, None, t);
    if closes {
      CapturesMember([t], Enemies(s), a);
      if |a| == 2 && a[0] == t {
        assert a[..1] == [t];
      }
    } else if |a| == 1 && a[0] == t {
      assert a == [t];
    }
  }

  lemma {:induction false} SettingMembers(s: State, targets: seq<int>, a: seq<int>)
    requires WellFormed(s) && forall i :: 0 <= i < |targets| ==> 0 <= targets[i] < Points
    requires forall i :: 0 <= i < |targets| ==> s.board[targets[i]].None?
    ensures a in SettingOver(s, targets) <==> |a| >= 1 && a[0] in targets && IsSettingAction(s, a)
    decreases |targets|
  {
    if targets != [] {
      var n := |targets|;
      var t := targets[n - 1];
      var rest := targets[..n - 1];
      SettingMembers(s, rest, a);
      SettingAtMembers(s, t, a);
      assert SettingOver(s, targets) == SettingOver(s, rest) + SettingAt(s, t);
      assert targets == rest + [t];
    }
  }

  lemma StepToMembers(s: State, t: int, n: int, a: seq<int>)
    requires WellFormed(s) && 0 <= t < Points && s.board[t] == Some(s.player) && 0 <= n < Points
    ensures a in StepTo(s, t, n) <==> |a| >= 2 && a[0] == t && a[1] == n && IsStep(s, a)
  {
    if s.board[n].None? {
      var closes := ClosesMill(s, Some(t), n);
      if closes {
        CapturesMember([t, n], Enemies(s), a);
        if |a| == 3 && a[0] == t && a[1] == n {
          assert a[..2] == [t, n];
        }
      } else if |a| == 2 && a[0] == t && a[1] == n {
        assert a == [t, n];
      }
    }
  }

  lemma {:induction false} StepsMembers(s: State, t: int, ns: seq<int>, a: seq<int>)
    requires WellFormed(s) && 0 <= t < Points && s.board[t] == Some(s.player)
    requires forall i :: 0 <= i < |ns| ==> 0 <= ns[i] < Points
    ensures a in StepsFrom(s, t, ns) <==> |a| >= 2 && a[0] == t && a[1] in ns && IsStep(s, a)
    decreases |ns|
  {
    if ns != [] {
      var k := |ns|;
      var n := ns[k - 1];
      var rest := ns[..k - 1];
      StepsMembers(s, t, rest, a);
      StepToMembers(s, t, n, a);
      assert StepsFrom(s, t, ns) == StepsFrom(s, t, rest) + StepTo(s, t, n);
      assert ns == rest + [n];
    }
  }

  lemma {:induction false} MovingMembers(s: State, n: nat, a: seq<int>)
    requires WellFormed(s) && n <= Points
    ensures a in MovingBelow(s, n) <==> |a| >= 2 && 0 <= a[0] < n && IsMovingAction(s, a)
    decreases n
  {
    if n > 0 {
      var t := n - 1;
      MovingMembers(s, t, a);
      MovingFromMembers(s, t, a);
      assert MovingBelow(s, n) == MovingBelow(s, t) + MovingFrom(s, t);
    }
  }

  /** The MOVING actions starting at one point. */
  function MovingFrom(s: State, t: int): seq<seq<int>>
    requires WellFormed(s) && 0 <= t < Points
  {
    if s.board[t] == Some(s.player) then StepsFrom(s, t, Adj(t)) else []
  }

  lemma MovingFromMembers(s: State, t: int, a: seq<int>)
    requires WellFormed(s) && 0 <= t < Points
    ensures a in MovingFrom(s, t) <==> |a| >= 2 && a[0] == t && IsMovingAction(s, a)
  {
    if s.board[t] == Some(s.player) {
      StepsMembers(s, t, Adj(t), a);
    } else if |a| >= 2 && a[0] == t {
      assert !IsStep(s, a);
    }
  }

  /** The player to move is offered exactly the SETTING or the MOVING
      actions of the state; a mill-closing move once per enemy man. */
  lemma PlayerMovesAre(s: State, a: seq<int>)
    requires WellFormed(s)
    ensures s.phase == Setting ==> (a in PlayerMoves(s) <==> IsSettingAction(s, a))
    ensures s.phase == Moving ==> (a in PlayerMoves(s) <==> IsMovingAction(s, a))
  {
    if s.phase == Setting {
      var targets := EmptyBelow(s.board, Points);
      SettingMembers(s, targets, a);
    } else {
      MovingMembers(s, Points, a);
    }
  }

  // ---------------------------------------------------------------------
  // make_move

  /** `x` indexes the board list, counting from the end when negative. */
  predicate OnBoard(x: int) {
    ListIndex(x, Points).Some?
  }

  /** The point `new_board[x]` writes. */
  function Pos(x: int): (k: nat)
    requires OnBoard(x)
    ensures k < Points && (k == x || k == x + Points)
  {
    ListIndex(x, Points).value
  }

  /** The board part of `make_move`: SETTING puts the mover on the first
      point and, for a two-element action, clears the second; MOVING clears
      the first, puts the mover on the second and, for a three-element
      action, clears the third. Short actions and points outside the board
      raise IndexError. */
  function Apply(board: seq<Option<Player>>, p: Player, phase: Phase, a: seq<int>): (r: Result<seq<Option<Player>>, Exc>)
    requires |board| == Points
    ensures r.Ok? ==> |r.value| == Points
    ensures r.Err? ==> r.error == IndexError
    ensures phase == Setting ==> (r.Ok? <==> |a| >= 1 && OnBoard(a[0]) && (|a| == 2 ==> OnBoard(a[1])))
    ensures phase == Moving ==> (r.Ok? <==> |a| >= 2 && OnBoard(a[0]) && OnBoard(a[1]) && (|a| == 3 ==> OnBoard(a[2])))
    ensures r.Ok? && phase == Setting ==> forall k :: 0 <= k < Points ==>
              r.value[k] == (if |a| == 2 && k == Pos(a[1]) then None else if k == Pos(a[0]) then Some(p) else board[k])
    ensures r.Ok? && phase == Moving ==> forall k :: 0 <= k < Points ==>
              r.value[k] == (if |a| == 3 && k == Pos(a[2]) then None else if k == Pos(a[1]) then Some(p)
                             else if k == Pos(a[0]) then None else board[k])
  {
    if phase == Setting then
      if |a| < 1 || ListIndex(a[0], Points).None? then Err(IndexError)
      else
        var b1 := board[ListIndex(a[0], Points).value := Some(p)];
        if |a| == 2 then
          if ListIndex(a[1], Points).None? then Err(IndexError)
          else Ok(b1[ListIndex(a[1], Points).value := None])
        else Ok(b1)
    else
      if |a| < 2 || ListIndex(a[0], Points).None? || ListIndex(a[1], Points).None? then Err(IndexError)
      else
        var b1 := board[ListIndex(a[0], Points).value := None][ListIndex(a[1], Points).value := Some(p)];
        if |a| == 3 then
          if ListIndex(a[2], Points).None? then Err(IndexError)
          else Ok(b1[ListIndex(a[2], Points).value := None])
        else Ok(b1)
  }

  /** `make_move`: the new board, O's placements counted, MOVING from the
      ninth on, and the other player to move. A missing entry for the mover
      raises KeyError. */
  function MakeMove(s: State, actions: map<Player, seq<int>>): (r: Result<State, Exc>)
    requires WellFormed(s)
    ensures s.player !in actions ==> r == Err(KeyError)
    ensures r.Ok? ==> WellFormed(r.value) && r.value.player == Other(s.player)
    ensures r.Ok? ==> r.value.menSet == s.menSet + (if s.phase == Setting && s.player == O then 1 else 0)
    ensures r.Ok? ==> (r.value.phase == Moving <==> s.phase == Moving || (s.player == O && s.menSet + 1 == Men))
  {
    if s.player !in actions then Err(KeyError)
    else
      var board :- Apply(s.board, s.player, s.phase, actions[s.player]);
      var counted := s.phase == Setting && s.player == O;
      var menSet := if counted then s.menSet + 1 else s.menSet;
      var phase := if counted && menSet == Men then Moving else s.phase;
      Ok(State(board, menSet, phase, Other(s.player)))
  }

  /** `make_move` reads only the mover's entry. */
  lemma MakeMoveReadsMover(s: State, m1: map<Player, seq<int>>, m2: map<Player, seq<int>>)
    requires WellFormed(s)
    requires s.player in m1 && s.player in m2 && m1[s.player] == m2[s.player]
    ensures MakeMove(s, m1) == MakeMove(s, m2)
  {
  }

  /** A legal action adds a man for the mover when setting, keeps the
      mover's men when moving, and removes one enemy man exactly when it
      captures. */
  lemma LegalMoveCounts(s: State, a: seq<int>)
    requires WellFormed(s) && a in PlayerMoves(s)
    ensures var r := MakeMove(s, map[s.player := a]);
            var capture := |a| == (if s.phase == Setting then 2 else 3);
            r.Ok? &&
            Count(r.value.board, s.player) == Count(s.board, s.player) + (if s.phase == Setting then 1 else 0) &&
            Count(r.value.board, Other(s.player)) + (if capture then 1 else 0) == Count(s.board, Other(s.player))
  {
    PlayerMovesAre(s, a);
    var p, q := s.player, Other(s.player);
    if s.phase == Setting {
      var b1 := s.board[a[0] := Some(p)];
      CountUpdate(s.board, a[0], Some(p), p);
      CountUpdate(s.board, a[0], Some(p), q);
      if |a| == 2 {
        CountUpdate(b1, a[1], None, p);
        CountUpdate(b1, a[1], None, q);
      }
    } else {
      var b0 := s.board[a[0] := None];
      var b1 := b0[a[1] := Some(p)];
      CountUpdate(s.board, a[0], None, p);
      CountUpdate(s.board, a[0], None, q);
      CountUpdate(b0, a[1], Some(p), p);
      CountUpdate(b0, a[1], Some(p), q);
      if |a| == 3 {
        CountUpdate(b1, a[2], None, p);
        CountUpdate(b1, a[2], None, q);
      }
    }
  }

  // ---------------------------------------------------------------------
  // game_winner, hash_state, evaluate_state

  /** `game_winner`: nobody during SETTING; then a side with fewer than
      three men loses (X checked first), and otherwise a player to move
      without an action loses. */
  function Winner(s: State): (r: Option<Player>)
    requires WellFormed(s)
    ensures s.phase == Setting ==> r.None?
    ensures s.phase == Moving && Count(s.board, X) < 3 ==> r == Some(O)
    ensures s.phase == Moving && Count(s.board, X) >= 3 && Count(s.board, O) < 3 ==> r == Some(X)
    ensures r.Some? && Count(s.board, X) >= 3 && Count(s.board, O) >= 3 ==>
              r.value == Other(s.player) && forall a :: !IsMovingAction(s, a)
    ensures r.None? && s.phase == Moving ==> exists a :: IsMovingAction(s, a)
  {
    if s.phase == Setting then None
    else if Count(s.board, X) < 3 then Some(O)
    else if Count(s.board, O) < 3 then Some(X)
    else
      var moves := PlayerMoves(s);
      if |moves| == 0 then
        assert forall a :: !IsMovingAction(s, a) by {
          forall a ensures !IsMovingAction(s, a) {
            PlayerMovesAre(s, a);
          }
        }
        Some(Other(s.player))
      else
        PlayerMovesAre(s, moves[0]);
        None
  }

  function PieceChar(t: Option<Player>): char {
    match t
    case Some(X) => 'X'
    case Some(O) => 'O'
    case None => '.'
  }

  /** `hash_state`: a character per point, then `str(men_set)`, then 'S' or
      'M', then the player. */
  function Hash(s: State): string
    requires WellFormed(s)
  {
    seq(Points, i requires 0 <= i < Points => PieceChar(s.board[i])) + IntToString(s.menSet) +
    [if s.phase == Setting then 'S' else 'M'] + [PieceChar(Some(s.player))]
  }

  /** The hash tells states apart. */
  lemma HashDetermines(s1: State, s2: State)
    requires WellFormed(s1) && WellFormed(s2) && Hash(s1) == Hash(s2)
    ensures s1 == s2
  {
    var h := Hash(s1);
    var n1, n2 := IntToString(s1.menSet), IntToString(s2.menSet);
    assert |n1| == |n2| by {
      assert |h| == Points + |n1| + 2 == Points + |n2| + 2;
    }
    forall i | 0 <= i < Points ensures s1.board[i] == s2.board[i] {
      assert h[i] == PieceChar(s1.board[i]) && h[i] == PieceChar(s2.board[i]);
    }
    assert n1 == h[Points..Points + |n1|] == n2;
    IntStringRoundTrip(s1.menSet);
    IntStringRoundTrip(s2.menSet);
    assert h[|h| - 2] == (if s1.phase == Setting then 'S' else 'M') == (if s2.phase == Setting then 'S' else 'M');
    assert h[|h| - 1] == PieceChar(Some(s1.player)) == PieceChar(Some(s2.player));
  }

  /** `evaluate_state`: +inf and -inf once there is a winner, otherwise each
      player's number of men; as (X's score, O's score). */
  function Evaluate(s: State): (r: (Score, Score))
    requires WellFormed(s)
    ensures Winner(s) == Some(X) ==> r == (PosInf, NegInf)
    ensures Winner(s) == Some(O) ==> r == (NegInf, PosInf)
    ensures Winner(s).None? ==> r == (Fin(Count(s.board, X)), Fin(Count(s.board, O)))
  {
    match Winner(s)
    case Some(X) => (PosInf, NegInf)
    case Some(O) => (NegInf, PosInf)
    case None => (Fin(Count(s.board, X)), Fin(Count(s.board, O)))
  }
}
