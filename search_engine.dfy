/** The search object itself: a `TranspositionTable` search whose fields
    the methods update in place, as `Search` and its mixins do. Each method
    is proved against the function of the same name on the table value, so
    the invariants proved there (search_table.dfy, search_step.dfy) carry
    over to the object. */
module SearchEngine {
  import opened Common
  import opened Scores
  import opened SearchGame
  import opened SearchActions
  import opened SearchEval
  import opened Minimax
  import opened SearchTable
  import opened SearchStep
  import opened BestPaths

  /** What `select_action` returns: one own move (`BestMovePlayer`), one
      legal move (`RandomChooser`), or the best paths (`BestPaths`). */
  datatype Choice<M, H> = BestMove(move: Option<M>) | RandomMove(legal: M) | Paths(paths: seq<seq<H>>)

  class Search<S, P(==), M(==), H(==)> {
    const eng: Engine<S, P, M, H>
    const policy: Queue
    const current: S
    var known: map<H, S>
    var children: map<H, seq<Edge<P, M, H>>>
    var parents: map<H, seq<Edge<P, M, H>>>
    var value: map<H, Score>
    var opinion: map<H, Opinion<M>>
    var queue: seq<S>

    /** The fields as a table value. */
    function Snapshot(): Table<S, P, M, H>
      reads this
    {
      Table(known, children, parents, value, opinion, queue)
    }

    /** The table is well formed and every opinion is settled. */
    ghost predicate Valid()
      reads this
    {
      SearchTable.Valid(Snapshot(), eng.game.hash) && Consistent(Snapshot(), eng.game.hash, eng.player, [])
    }

    /** `Search.__init__`: storage set up, the root stored, the queue policy
      set up and the root enqueued. A configuration without a queue mixin
      raises in `setup_expansion` instead (SetupExpansion). */
    constructor (eng: Engine<S, P, M, H>, root: S)
      requires SetupExpansion(eng.cfg).Ok?
      ensures this.eng == eng && this.policy == SetupExpansion(eng.cfg).value && current == root
      ensures Snapshot() == Initial(eng, policy, root)
      ensures Valid()
    {
      this.eng := eng;
      this.policy := eng.cfg.queue.value;
      current := root;
      known, children, parents, value, opinion, queue := map[], map[], map[], map[], map[], [];
      new;
      var _ := StoreState(root);
      Enqueue(root);
      InitialValid(eng, policy, root);
    }

    /** `store_state`. */
    method StoreState(s: S) returns (isNew: bool)
      modifies this
      ensures (Snapshot(), isNew) == SearchTable.StoreState(old(Snapshot()), eng.game.hash, s)
    {
      var h := eng.game.hash(s);
      if h in known {
        return false;
      }
      known := known[h := s];
      return true;
    }

    /** `store_transition`. */
    method StoreTransition(s: S, a: JointAction<P, M>, succ: S)
      modifies this
      ensures Snapshot() == SearchTable.StoreTransition(old(Snapshot()), eng.game.hash, s, a, succ)
    {
      var h, hs := eng.game.hash(s), eng.game.hash(succ);
      var out := if h in children then children[h] else [];
      children := children[h := out + [Edge(hs, a)]];
      var into := if hs in parents then parents[hs] else [];
      parents := parents[hs := into + [Edge(h, a)]];
    }

    /** `enqueue_for_expansion`. */
    method Enqueue(s: S)
      modifies this
      ensures Snapshot() == SearchStep.Enqueue(policy, old(Snapshot()), s)
    {
      if policy != NoExpansionQueue {
        queue := queue + [s];
      }
    }

    /** `select_states_to_expand`. */
    method SelectStates() returns (states: seq<S>)
      modifies this
      ensures (states, Snapshot()) == Select(policy, old(Snapshot()))
    {
      match policy
      case NoExpansionQueue =>
        states := [];
      case SingleNodeBreadthSearch =>
        if |queue| == 0 {
          states := [];
        } else {
          states := [queue[0]];
          queue := queue[1..];
        }
      case SingleNodeDepthSearch =>
        if |queue| == 0 {
          states := [];
        } else {
          states := [queue[|queue| - 1]];
          queue := queue[..|queue| - 1];
        }
      case BreadthSearch =>
        states := queue;
        queue := [];
    }

    /** `backpropagate`: the FIFO worklist loop, cut short after `eng.fuel` turns. */
    method Backpropagate(s: S) returns (r: Result<(), Exc>)
      modifies this
      ensures var spec := Propagate(old(Snapshot()), eng.game.hash, eng.player, [eng.game.hash(s)], eng.fuel);
              (r.Ok? ==> spec == Ok(Snapshot())) && (r.Err? ==> spec == Err(r.error))
    {
      var work := [eng.game.hash(s)];
      var fuel := eng.fuel;
      while |work| > 0
        invariant Propagate(Snapshot(), eng.game.hash, eng.player, work, fuel) ==
                  Propagate(old(Snapshot()), eng.game.hash, eng.player, [eng.game.hash(s)], eng.fuel)
        decreases fuel
      {
        if fuel == 0 {
          return Err(OutOfFuel);
        }
        var h := work[0];
        if h !in known {
          return Err(KeyError);
        }
        var next := Reevaluate(ChildrenOf(Snapshot(), eng.game.hash(known[h])), value, eng.player);
        if next.Err? {
          return Err(next.error);
        }
        var op := next.value;
        opinion := opinion[h := op];
        if h !in value {
          value := value[h := op.score];
          work := work[1..];
        } else if !Same(value[h], op.score) {
          work := work[1..] + Ends(ParentsOf(Snapshot(), h));
          value := value[h := op.score];
        } else {
          work := work[1..];
        }
        fuel := fuel - 1;
      }
      return Ok(());
    }

    /** One turn of `step`'s innermost loop. */
    method ExpandAction(s: S, a: JointAction<P, M>) returns (r: Result<(), Exc>)
      modifies this
      ensures var spec := SearchStep.ExpandAction(eng, policy, old(Snapshot()), s, a);
              (r.Ok? ==> spec == Ok(Snapshot())) && (r.Err? ==> spec == Err(r.error))
    {
      var succ := eng.game.makeMove(s, a);
      var isNew := StoreState(succ);
      StoreTransition(s, a, succ);
      if isNew {
        var v := EvaluateState(eng, succ);
        if v.Err? {
          return Err(v.error);
        }
        value := value[eng.game.hash(succ) := v.value];
        Enqueue(succ);
      }
      return Ok(());
    }

    /** `step`'s body for one selected state without a winner. */
    method ExpandState(s: S) returns (r: Result<(), Exc>)
      modifies this
      ensures var spec := SearchStep.ExpandState(eng, policy, old(Snapshot()), s);
              (r.Ok? ==> spec == Ok(Snapshot())) && (r.Err? ==> spec == Err(r.error))
    {
      var generated := ExpandingActions(eng, s);
      if generated.Err? {
        return Err(generated.error);
      }
      var actions := generated.value;
      ghost var before := Snapshot();
      var i := 0;
      while i < |actions|
        invariant 0 <= i <= |actions|
        invariant ExpandActions(eng, policy, Snapshot(), s, actions[i..]) == ExpandActions(eng, policy, before, s, actions)
      {
        var done := ExpandAction(s, actions[i]);
        if done.Err? {
          return done;
        }
        assert actions[i..][1..] == actions[i + 1..];
        i := i + 1;
      }
      r := Backpropagate(s);
    }

    /** `Search.step`. */
    method Step() returns (r: Result<bool, Exc>)
      modifies this
      ensures var spec := SearchStep.Step(eng, policy, old(Snapshot()));
              (r.Ok? ==> spec == Ok((Snapshot(), r.value))) && (r.Err? ==> spec == Err(r.error))
    {
      var states := SelectStates();
      if |states| == 0 {
        return Ok(false);
      }
      ghost var selected := Snapshot();
      var i := 0;
      while i < |states|
        invariant 0 <= i <= |states|
        invariant ExpandStates(eng, policy, Snapshot(), states[i..]) == ExpandStates(eng, policy, selected, states)
      {
        assert states[i..][1..] == states[i + 1..];
        if eng.game.winner(states[i]).None? {
          var done := ExpandState(states[i]);
          if done.Err? {
            return Err(done.error);
          }
        }
        i := i + 1;
      }
      return Ok(true);
    }

    /** `build_tree` of the configured expansion policy. */
    method BuildTree() returns (r: Result<(), Exc>)
      modifies this
      ensures var spec := SearchStep.BuildTree(eng, policy, old(Snapshot()));
              (r.Ok? ==> spec == Ok(Snapshot())) && (r.Err? ==> spec == Err(r.error))
    {
      match eng.cfg.expansion
      case NoExpansion =>
        r := Ok(());
      case FullExpansion =>
        r := ExpandFully();
      case NodeLimitedExpansion(limit) =>
        r := ExpandToLimit(limit);
      case StepLimitedExpansion(n) =>
        r := ExpandSteps(n);
    }

    /** `FullExpansion.build_tree`: `while self.step(): pass`. */
    method ExpandFully() returns (r: Result<(), Exc>)
      modifies this
      ensures var spec := FullLoop(eng, policy, old(Snapshot()), eng.fuel);
              (r.Ok? ==> spec == Ok(Snapshot())) && (r.Err? ==> spec == Err(r.error))
    {
      var fuel := eng.fuel;
      while true
        invariant FullLoop(eng, policy, Snapshot(), fuel) == FullLoop(eng, policy, old(Snapshot()), eng.fuel)
        decreases fuel
      {
        if fuel == 0 {
          return Err(OutOfFuel);
        }
        ghost var before := Snapshot();
        FullLoopUnfold(eng, policy, before, fuel);
        var more := Step();
        if more.Err? {
          return Err(more.error);
        }
        if !more.value {
          return Ok(());
        }
        fuel := fuel - 1;
      }
    }

    /** `NodeLimitedExpansion.build_tree`. */
    method ExpandToLimit(limit: int) returns (r: Result<(), Exc>)
      modifies this
      ensures var spec := NodeLoop(eng, policy, old(Snapshot()), limit, eng.fuel);
              (r.Ok? ==> spec == Ok(Snapshot())) && (r.Err? ==> spec == Err(r.error))
    {
      var fuel := eng.fuel;
      while true
        invariant NodeLoop(eng, policy, Snapshot(), limit, fuel) == NodeLoop(eng, policy, old(Snapshot()), limit, eng.fuel)
        decreases fuel
      {
        if fuel == 0 {
          return Err(OutOfFuel);
        }
        ghost var before := Snapshot();
        NodeLoopUnfold(eng, policy, before, limit, fuel);
        var more := Step();
        if more.Err? {
          return Err(more.error);
        }
        if !(more.value && |known| < limit) {
          return Ok(());
        }
        fuel := fuel - 1;
      }
    }

    /** `StepLimitedExpansion.build_tree`: `step` called n times. */
    method ExpandSteps(n: int) returns (r: Result<(), Exc>)
      modifies this
      ensures var spec := StepLoop(eng, policy, old(Snapshot()), n);
              (r.Ok? ==> spec == Ok(Snapshot())) && (r.Err? ==> spec == Err(r.error))
    {
      var left := n;
      while left > 0
        invariant StepLoop(eng, policy, Snapshot(), left) == StepLoop(eng, policy, old(Snapshot()), n)
        decreases left
      {
        ghost var before := Snapshot();
        StepLoopUnfold(eng, policy, before, left);
        var stepped := Step();
        if stepped.Err? {
          return Err(stepped.error);
        }
        left := left - 1;
      }
      return Ok(());
    }

    /** `BestMovePlayer.select_action`; `pick` stands for `random.choice`'s
        random draw. A missing opinion raises KeyError, an opinion without
        an action list (a node with no children) TypeError, an empty list
        IndexError. */
    method SelectBestMove(pick: nat) returns (r: Result<Option<M>, Exc>)
      ensures var h := eng.game.hash(current);
              (h !in opinion <==> r == Err(KeyError)) &&
              (h in opinion && opinion[h].best.None? <==> r == Err(TypeError)) &&
              (h in opinion && opinion[h].best.Some? && |opinion[h].best.value| == 0 <==> r == Err(IndexError)) &&
              (r.Ok? ==> h in opinion && opinion[h].best.Some? && r.value in opinion[h].best.value)
    {
      var h := eng.game.hash(current);
      if h !in opinion {
        return Err(KeyError);
      }
      var best := opinion[h].best;
      if best.None? {
        return Err(TypeError);
      }
      if |best.value| == 0 {
        return Err(IndexError);
      }
      return Ok(best.value[pick % |best.value|]);
    }

    /** `RandomChooser.select_action`: one of the searcher's legal moves in
        the current state, `pick` standing for the random draw. */
    method SelectRandomMove(pick: nat) returns (r: Result<M, Exc>)
      ensures var moves := eng.game.legalMoves(current);
              (!HasKey(moves, eng.player) <==> r == Err(KeyError)) &&
              (HasKey(moves, eng.player) && |Lookup(moves, eng.player)| == 0 <==> r == Err(IndexError)) &&
              (r.Ok? ==> HasKey(moves, eng.player) && r.value in Lookup(moves, eng.player))
    {
      var moves := eng.game.legalMoves(current);
      if !HasKey(moves, eng.player) {
        return Err(KeyError);
      }
      var options := Lookup(moves, eng.player);
      if |options| == 0 {
        return Err(IndexError);
      }
      return Ok(options[pick % |options|]);
    }

    /** `TTAnalysis.analyze` without its printing: it reads the current
        opinion and iterates over its action list. */
    method Analyze() returns (r: Result<(), Exc>)
      ensures var h := eng.game.hash(current);
              r.Ok? <==> h in opinion && opinion[h].best.Some?
      ensures r.Err? ==> r.error == (if eng.game.hash(current) in opinion then TypeError else KeyError)
    {
      var h := eng.game.hash(current);
      if h !in opinion {
        return Err(KeyError);
      }
      if opinion[h].best.None? {
        return Err(TypeError);
      }
      return Ok(());
    }

    /** `Search.run`: build the tree, analyse it when `TTAnalysis` is mixed
        in, and select the action. */
    method Run(pick: nat) returns (r: Result<Choice<M, H>, Exc>)
      modifies this
      ensures r.Ok? ==> SearchStep.BuildTree(eng, policy, old(Snapshot())) == Ok(Snapshot())
      ensures old(Valid()) && r.Ok? ==> Valid()
      ensures var h := eng.game.hash(current);
              r.Ok? && eng.cfg.analysis ==> h in opinion && opinion[h].best.Some?
      ensures var h := eng.game.hash(current);
              r.Ok? && eng.cfg.selection == BestMovePlayer ==>
                r.value.BestMove? && h in opinion && opinion[h].best.Some? && r.value.move in opinion[h].best.value
      ensures var moves := eng.game.legalMoves(current);
              r.Ok? && eng.cfg.selection == RandomChooser ==>
                r.value.RandomMove? && HasKey(moves, eng.player) && r.value.legal in Lookup(moves, eng.player)
      ensures r.Ok? && eng.cfg.selection == BestPaths ==>
                r.value.Paths? && SelectPaths(Snapshot(), eng.game.winner, eng.game.hash(current)) == Ok(r.value.paths)
    {
      ghost var valid := Valid();
      var built := BuildTree();
      if built.Err? {
        return Err(built.error);
      }
      if valid {
        BuildTreeValid(eng, policy, old(Snapshot()));
      }
      if eng.cfg.analysis {
        var analysed := Analyze();
        if analysed.Err? {
          return Err(analysed.error);
        }
      }
      match eng.cfg.selection
      case BestMovePlayer =>
        var m := SelectBestMove(pick);
        if m.Err? {
          return Err(m.error);
        }
        return Ok(BestMove(m.value));
      case RandomChooser =>
        var m := SelectRandomMove(pick);
        if m.Err? {
          return Err(m.error);
        }
        return Ok(RandomMove(m.value));
      case BestPaths =>
        var paths := SelectPaths(Snapshot(), eng.game.winner, eng.game.hash(current));
        if paths.Err? {
          return Err(paths.error);
        }
        return Ok(Paths(paths.value));
    }
  }


  /** On a settled node whose children's values are not NaN, every move in
      the opinion's action list is a minimax move: it is one of the
      searcher's own moves, its worst outcome is the node's value, and no
      own move has a better worst outcome. */
  lemma BestMoveIsMinimax<S, P, M, H>(t: Table<S, P, M, H>, hash: S -> H, player: P, h: H, m: Option<M>)
    requires Settled(t, hash, player, h)
    requires NoNaNOutcomes(ChildrenOf(t, hash(t.known[h])), t.value)
    requires t.opinion[h].best.Some? && m in t.opinion[h].best.value
    ensures var children := ChildrenOf(t, hash(t.known[h]));
            Resolvable(children, t.value, player) &&
            m in Moves(children, player) &&
            GroupOf(children, t.value, player, m) == t.opinion[h].score &&
            forall i :: 0 <= i < |children| ==> !Less(t.opinion[h].score, GroupOf(children, t.value, player, MoveOf(children[i], player)))
  {
    var children := ChildrenOf(t, hash(t.known[h]));
    assert |children| > 0;
    MinimaxChoice(children, t.value, player);
    var i :| 0 <= i < |children| && Moves(children, player)[i] == m;
    assert MoveOf(children[i], player) == m;
  }
}
