/** The build loop of the search engine on the table value: the queue
    policies, the expansion of one state (`Search.step`'s inner loops), the
    step itself and the four `build_tree` policies. Every loop the Python
    code leaves unbounded takes explicit fuel. */
module SearchStep {
  import opened Common
  import opened Scores
  import opened SearchGame
  import opened SearchActions
  import opened SearchEval
  import opened Minimax
  import opened SearchTable

  // ---------------------------------------------------------------------
  // Queue policies

  /** `enqueue_for_expansion`: every queue policy but `NoExpansionQueue`
      appends the state. */
  function Enqueue<S, P, M, H>(q: Queue, t: Table<S, P, M, H>, s: S): (r: Table<S, P, M, H>)
    ensures r == t.(queue := r.queue)
    ensures q == NoExpansionQueue ==> r.queue == t.queue
    ensures q != NoExpansionQueue ==> |r.queue| == |t.queue| + 1 && r.queue[..|t.queue|] == t.queue && r.queue[|t.queue|] == s
  {
    if q == NoExpansionQueue then t else t.(queue := t.queue + [s])
  }

  /** `select_states_to_expand`: breadth-first pops the oldest entry,
      depth-first the newest, `BreadthSearch` takes the whole queue, and
      `NoExpansionQueue` never selects anything. */
  function Select<S, P, M, H>(q: Queue, t: Table<S, P, M, H>): (r: (seq<S>, Table<S, P, M, H>))
    ensures r.1 == t.(queue := r.1.queue)
    ensures |r.0| == 0 <==> q == NoExpansionQueue || |t.queue| == 0
    ensures |r.0| == 0 ==> r.1 == t
    ensures multiset(r.0) + multiset(r.1.queue) == multiset(t.queue)
    ensures q == SingleNodeBreadthSearch && |t.queue| > 0 ==> r.0 == [t.queue[0]] && r.1.queue == t.queue[1..]
    ensures q == SingleNodeDepthSearch && |t.queue| > 0 ==>
              r.0 == [t.queue[|t.queue| - 1]] && r.1.queue == t.queue[..|t.queue| - 1]
    ensures q == BreadthSearch ==> r.0 == t.queue && r.1.queue == []
  {
    var n := |t.queue|;
    match q
    case NoExpansionQueue => ([], t)
    case SingleNodeBreadthSearch =>
      if n == 0 then ([], t)
      else
        assert t.queue == [t.queue[0]] + t.queue[1..];
        ([t.queue[0]], t.(queue := t.queue[1..]))
    case SingleNodeDepthSearch =>
      if n == 0 then ([], t)
      else
        assert t.queue == t.queue[..n - 1] + [t.queue[n - 1]];
        ([t.queue[n - 1]], t.(queue := t.queue[..n - 1]))
    case BreadthSearch => (t.queue, t.(queue := []))
  }

  /** A selected or still-queued state was queued before. */
  lemma SelectFrom<S, P, M, H>(q: Queue, t: Table<S, P, M, H>, s: S)
    ensures s in Select(q, t).0 ==> s in t.queue
    ensures s in Select(q, t).1.queue ==> s in t.queue
  {
    var r := Select(q, t);
    if s in r.0 {
      assert s in multiset(r.0);
      assert s in multiset(t.queue);
    }
    if s in r.1.queue {
      assert s in multiset(r.1.queue);
      assert s in multiset(t.queue);
    }
  }

  // ---------------------------------------------------------------------
  // Expanding one state

  /** The body of `step`'s inner loop for one joint action: the successor is
      stored and linked; a new successor is evaluated and enqueued. */
  function ExpandAction<S, P(==), M, H(==)>(eng: Engine<S, P, M, H>, q: Queue, t: Table<S, P, M, H>, s: S, a: JointAction<P, M>)
    : Result<Table<S, P, M, H>, Exc>
  {
    var hash := eng.game.hash;
    var succ := eng.game.makeMove(s, a);
    var (t1, isNew) := StoreState(t, hash, succ);
    var t2 := StoreTransition(t1, hash, s, a, succ);
    if isNew then
      var v :- EvaluateState(eng, succ);
      Ok(Enqueue(q, t2.(value := t2.value[hash(succ) := v]), succ))
    else Ok(t2)
  }

  /** `step`'s loop over the expanding actions of one state. */
  function ExpandActions<S, P(==), M, H(==)>(eng: Engine<S, P, M, H>, q: Queue, t: Table<S, P, M, H>, s: S, actions: seq<JointAction<P, M>>)
    : Result<Table<S, P, M, H>, Exc>
    decreases |actions|
  {
    if |actions| == 0 then Ok(t)
    else
      var t1 :- ExpandAction(eng, q, t, s, actions[0]);
      ExpandActions(eng, q, t1, s, actions[1..])
  }

  /** Expanding a non-terminal state: its actions, then `backpropagate` from it. */
  function ExpandState<S, P(==), M(==), H(==)>(eng: Engine<S, P, M, H>, q: Queue, t: Table<S, P, M, H>, s: S)
    : Result<Table<S, P, M, H>, Exc>
  {
    var actions :- ExpandingActions(eng, s);
    var t1 :- ExpandActions(eng, q, t, s, actions);
    Propagate(t1, eng.game.hash, eng.player, [eng.game.hash(s)], eng.fuel)
  }

  /** `step`'s loop over the selected states; a state with a winner is skipped. */
  function ExpandStates<S, P(==), M(==), H(==)>(eng: Engine<S, P, M, H>, q: Queue, t: Table<S, P, M, H>, states: seq<S>)
    : Result<Table<S, P, M, H>, Exc>
    decreases |states|
  {
    if |states| == 0 then Ok(t)
    else
      var t1 :- if eng.game.winner(states[0]).Some? then Ok(t) else ExpandState(eng, q, t, states[0]);
      ExpandStates(eng, q, t1, states[1..])
  }

  /** `Search.step`: false, with nothing expanded, exactly when the queue
      policy selects nothing. */
  function Step<S, P(==), M(==), H(==)>(eng: Engine<S, P, M, H>, q: Queue, t: Table<S, P, M, H>)
    : (r: Result<(Table<S, P, M, H>, bool), Exc>)
    ensures r.Ok? ==> (r.value.1 <==> |Select(q, t).0| > 0)
    ensures |Select(q, t).0| == 0 ==> r == Ok((t, false))
  {
    var (states, t1) := Select(q, t);
    if |states| == 0 then Ok((t1, false))
    else
      var t2 :- ExpandStates(eng, q, t1, states);
      Ok((t2, true))
  }

  // ---------------------------------------------------------------------
  // build_tree

  /** `FullExpansion`: step until a step reports nothing selected. */
  function FullLoop<S, P(==), M(==), H(==)>(eng: Engine<S, P, M, H>, q: Queue, t: Table<S, P, M, H>, fuel: nat)
    : Result<Table<S, P, M, H>, Exc>
    decreases fuel
  {
    if fuel == 0 then Err(OutOfFuel)
    else
      var (t1, more) :- Step(eng, q, t);
      if more then FullLoop(eng, q, t1, fuel - 1) else Ok(t1)
  }

  /** `NodeLimitedExpansion`: step while steps expand something and fewer
      than `limit` states are known. */
  function NodeLoop<S, P(==), M(==), H(==)>(eng: Engine<S, P, M, H>, q: Queue, t: Table<S, P, M, H>, limit: int, fuel: nat)
    : Result<Table<S, P, M, H>, Exc>
    decreases fuel
  {
    if fuel == 0 then Err(OutOfFuel)
    else
      var (t1, more) :- Step(eng, q, t);
      if more && |t1.known| < limit then NodeLoop(eng, q, t1, limit, fuel - 1) else Ok(t1)
  }

  /** `StepLimitedExpansion`: exactly n steps, whatever they return. */
  function StepLoop<S, P(==), M(==), H(==)>(eng: Engine<S, P, M, H>, q: Queue, t: Table<S, P, M, H>, n: int)
    : Result<Table<S, P, M, H>, Exc>
    decreases n
  {
    if n <= 0 then Ok(t)
    else
      var (t1, _) :- Step(eng, q, t);
      StepLoop(eng, q, t1, n - 1)
  }

  /** One round of `FullExpansion`. */
  lemma FullLoopUnfold<S, P, M, H>(eng: Engine<S, P, M, H>, q: Queue, t: Table<S, P, M, H>, fuel: nat)
    requires fuel > 0
    ensures Step(eng, q, t).Err? ==> FullLoop(eng, q, t, fuel) == Err(Step(eng, q, t).error)
    ensures Step(eng, q, t).Ok? ==>
              var (t1, more) := Step(eng, q, t).value;
              FullLoop(eng, q, t, fuel) == if more then FullLoop(eng, q, t1, fuel - 1) else Ok(t1)
  {
  }

  /** One round of `NodeLimitedExpansion`. */
  lemma NodeLoopUnfold<S, P, M, H>(eng: Engine<S, P, M, H>, q: Queue, t: Table<S, P, M, H>, limit: int, fuel: nat)
    requires fuel > 0
    ensures Step(eng, q, t).Err? ==> NodeLoop(eng, q, t, limit, fuel) == Err(Step(eng, q, t).error)
    ensures Step(eng, q, t).Ok? ==>
              var (t1, more) := Step(eng, q, t).value;
              NodeLoop(eng, q, t, limit, fuel) == if more && |t1.known| < limit then NodeLoop(eng, q, t1, limit, fuel - 1) else Ok(t1)
  {
  }

  /** One round of `StepLimitedExpansion`. */
  lemma StepLoopUnfold<S, P, M, H>(eng: Engine<S, P, M, H>, q: Queue, t: Table<S, P, M, H>, n: int)
    requires n > 0
    ensures Step(eng, q, t).Err? ==> StepLoop(eng, q, t, n) == Err(Step(eng, q, t).error)
    ensures Step(eng, q, t).Ok? ==> StepLoop(eng, q, t, n) == StepLoop(eng, q, Step(eng, q, t).value.0, n - 1)
  {
  }

  /** `build_tree` of the configured expansion policy. */
  function BuildTree<S, P(==), M(==), H(==)>(eng: Engine<S, P, M, H>, q: Queue, t: Table<S, P, M, H>)
    : Result<Table<S, P, M, H>, Exc>
  {
    match eng.cfg.expansion
    case NoExpansion => Ok(t)
    case FullExpansion => FullLoop(eng, q, t, eng.fuel)
    case NodeLimitedExpansion(limit) => NodeLoop(eng, q, t, limit, eng.fuel)
    case StepLimitedExpansion(n) => StepLoop(eng, q, t, n)
  }

  /** `Search.__init__` after the storage and queue are set up: the root is
      stored and enqueued. */
  function Initial<S, P, M, H(==)>(eng: Engine<S, P, M, H>, q: Queue, root: S): (t: Table<S, P, M, H>)
    ensures t.known == map[eng.game.hash(root) := root]
    ensures t.children == map[] && t.parents == map[] && t.value == map[] && t.opinion == map[]
    ensures q == NoExpansionQueue <==> t.queue == []
    ensures q != NoExpansionQueue ==> t.queue == [root]
  {
    Enqueue(q, StoreState(EmptyTable(), eng.game.hash, root).0, root)
  }

  // ---------------------------------------------------------------------
  // The table's invariant through the build loop

  /** Known states stay known, as the same state. */
  ghost predicate KnownGrows<S, P, M, H>(t: Table<S, P, M, H>, t': Table<S, P, M, H>) {
    forall h :: h in t.known ==> h in t'.known && t'.known[h] == t.known[h]
  }

  /** `t'` is valid with every opinion settled, and knows every state `t`
      knew. */
  ghost predicate GrownFrom<S, P, M, H>(t: Table<S, P, M, H>, t': Table<S, P, M, H>, hash: S -> H, player: P) {
    Sound(t', hash, player) && KnownGrows(t, t')
  }

  /** The table is valid and every opinion in it is settled. */
  ghost predicate Sound<S, P, M, H>(t: Table<S, P, M, H>, hash: S -> H, player: P) {
    Valid(t, hash) && Consistent(t, hash, player, [])
  }

  lemma KnownGrowsTrans<S, P, M, H>(t0: Table<S, P, M, H>, t1: Table<S, P, M, H>, t2: Table<S, P, M, H>)
    requires KnownGrows(t0, t1) && KnownGrows(t1, t2)
    ensures KnownGrows(t0, t2)
  {
  }

  /** The search starts valid, with nothing to settle. */
  lemma InitialValid<S, P, M, H>(eng: Engine<S, P, M, H>, q: Queue, root: S)
    ensures Valid(Initial(eng, q, root), eng.game.hash)
    ensures Consistent(Initial(eng, q, root), eng.game.hash, eng.player, [])
  {
  }

  /** Giving a fresh state its heuristic value unsettles nobody: a settled
      node has values for all its children, so the fresh state is not one. */
  lemma SetNewValue<S, P, M, H>(t: Table<S, P, M, H>, hash: S -> H, player: P, work: seq<H>, hs: H, v: Score)
    requires Valid(t, hash) && Consistent(t, hash, player, work)
    requires hs in t.known && hs !in t.value && hs !in t.opinion
    ensures Valid(t.(value := t.value[hs := v]), hash)
    ensures Consistent(t.(value := t.value[hs := v]), hash, player, work)
  {
    var t' := t.(value := t.value[hs := v]);
    forall g | g in t'.opinion && g !in work ensures Settled(t', hash, player, g) {
      assert Settled(t, hash, player, g);
      var children := ChildrenOf(t, hash(t.known[g]));
      forall i | 0 <= i < |children| ensures children[i].other != hs {
        ResolvedChild(children, t.value, player, i);
      }
      assert hs !in Ends(children);
      UnaffectedNode(children, t.value, hs, v, player);
    }
  }

  /** Expanding one action keeps the table valid; only the expanded state
      may be unsettled. */
  lemma ExpandActionValid<S, P, M, H>(eng: Engine<S, P, M, H>, q: Queue, t: Table<S, P, M, H>, s: S, a: JointAction<P, M>, work: seq<H>)
    requires Valid(t, eng.game.hash) && Consistent(t, eng.game.hash, eng.player, work)
    requires eng.game.hash(s) in t.known && eng.game.hash(s) in work
    requires ExpandAction(eng, q, t, s, a).Ok?
    ensures Valid(ExpandAction(eng, q, t, s, a).value, eng.game.hash)
    ensures Consistent(ExpandAction(eng, q, t, s, a).value, eng.game.hash, eng.player, work)
    ensures KnownGrows(t, ExpandAction(eng, q, t, s, a).value)
  {
    var hash, player := eng.game.hash, eng.player;
    var succ := eng.game.makeMove(s, a);
    var t1 := StoreState(t, hash, succ).0;
    StoreStateValid(t, hash, player, succ, work);
    StoreTransitionValid(t1, hash, player, s, a, succ, work);
    var t2 := StoreTransition(t1, hash, s, a, succ);
    assert KnownGrows(t, t2);
    if hash(succ) !in t.known {
      var v := EvaluateState(eng, succ).value;
      SetNewValue(t2, hash, player, work, hash(succ), v);
      var t3 := t2.(value := t2.value[hash(succ) := v]);
      EnqueueValid(q, t3, hash, player, work, succ);
      assert ExpandAction(eng, q, t, s, a).value == Enqueue(q, t3, succ);
    } else {
      assert ExpandAction(eng, q, t, s, a).value == t2;
    }
  }

  /** Enqueueing a known state keeps the table valid. */
  lemma EnqueueValid<S, P, M, H>(q: Queue, t: Table<S, P, M, H>, hash: S -> H, player: P, work: seq<H>, s: S)
    requires Valid(t, hash) && Consistent(t, hash, player, work) && hash(s) in t.known
    ensures Valid(Enqueue(q, t, s), hash) && Consistent(Enqueue(q, t, s), hash, player, work)
  {
    var r := Enqueue(q, t, s);
    forall i | 0 <= i < |r.queue| ensures hash(r.queue[i]) in r.known {
      if i < |t.queue| {
        assert r.queue[i] == r.queue[..|t.queue|][i];
      }
    }
    forall g | g in r.opinion && g !in work ensures Settled(r, hash, player, g) {
      assert Settled(t, hash, player, g);
    }
  }

  /** Expanding the actions of a state keeps the table valid. */
  lemma {:induction false} ExpandActionsValid<S, P, M, H>(eng: Engine<S, P, M, H>, q: Queue, t: Table<S, P, M, H>, s: S, actions: seq<JointAction<P, M>>, work: seq<H>)
    requires Valid(t, eng.game.hash) && Consistent(t, eng.game.hash, eng.player, work)
    requires eng.game.hash(s) in t.known && eng.game.hash(s) in work
    requires ExpandActions(eng, q, t, s, actions).Ok?
    ensures var r := ExpandActions(eng, q, t, s, actions).value;
            Valid(r, eng.game.hash) && Consistent(r, eng.game.hash, eng.player, work) && KnownGrows(t, r)
    decreases |actions|
  {
    if |actions| > 0 {
      ExpandActionValid(eng, q, t, s, actions[0], work);
      var t1 := ExpandAction(eng, q, t, s, actions[0]).value;
      ExpandActionsValid(eng, q, t1, s, actions[1..], work);
    }
  }

  /** Only a successor whose hash is new gets a heuristic value and a place
      in the queue; a repeated hash leaves both untouched and keeps the
      state first stored under it. */
  lemma ExpandActionStores<S, P, M, H>(eng: Engine<S, P, M, H>, q: Queue, t: Table<S, P, M, H>, s: S, a: JointAction<P, M>)
    requires ExpandAction(eng, q, t, s, a).Ok?
    ensures var succ := eng.game.makeMove(s, a); var h := eng.game.hash(succ);
      var r := ExpandAction(eng, q, t, s, a).value;
      r.known.Keys == t.known.Keys + {h} &&
      (h in t.known ==> r.known == t.known && r.value == t.value && r.queue == t.queue) &&
      (h !in t.known ==>
        r.known[h] == succ && r.value == t.value[h := EvaluateState(eng, succ).value] &&
        r.queue == t.queue + (if q == NoExpansionQueue then [] else [succ]))
  {
  }

  /** The edges one expansion appends to the expanded state: one per
      action, in order, repeats included. */
  function ActionEdges<S, P, M, H>(eng: Engine<S, P, M, H>, s: S, actions: seq<JointAction<P, M>>): (edges: seq<Edge<P, M, H>>)
    ensures |edges| == |actions|
    ensures forall i :: 0 <= i < |actions| ==> edges[i] == Edge(eng.game.hash(eng.game.makeMove(s, actions[i])), actions[i])
  {
    seq(|actions|, i requires 0 <= i < |actions| => Edge(eng.game.hash(eng.game.makeMove(s, actions[i])), actions[i]))
  }

  lemma ActionEdge<S, P, M, H>(eng: Engine<S, P, M, H>, q: Queue, t: Table<S, P, M, H>, s: S, a: JointAction<P, M>)
    requires ExpandAction(eng, q, t, s, a).Ok?
    ensures ChildrenOf(ExpandAction(eng, q, t, s, a).value, eng.game.hash(s)) ==
              ChildrenOf(t, eng.game.hash(s)) + [Edge(eng.game.hash(eng.game.makeMove(s, a)), a)]
  {
    var hash := eng.game.hash;
    var succ := eng.game.makeMove(s, a);
    var t1 := StoreState(t, hash, succ).0;
    assert ChildrenOf(t1, hash(s)) == ChildrenOf(t, hash(s));
  }

  /** Each action adds exactly one child edge to the expanded state. */
  lemma {:induction false} ActionsEdges<S, P, M, H>(eng: Engine<S, P, M, H>, q: Queue, t: Table<S, P, M, H>, s: S, actions: seq<JointAction<P, M>>)
    requires ExpandActions(eng, q, t, s, actions).Ok?
    ensures ChildrenOf(ExpandActions(eng, q, t, s, actions).value, eng.game.hash(s)) ==
              ChildrenOf(t, eng.game.hash(s)) + ActionEdges(eng, s, actions)
    decreases |actions|
  {
    if |actions| > 0 {
      var t1 := ExpandAction(eng, q, t, s, actions[0]).value;
      var h := eng.game.hash(s);
      var c := ChildrenOf(t, h);
      var edges := ActionEdges(eng, s, actions);
      var rest := ActionEdges(eng, s, actions[1..]);
      ActionEdge(eng, q, t, s, actions[0]);
      assert ChildrenOf(t1, h) == c + [edges[0]];
      assert ExpandActions(eng, q, t, s, actions) == ExpandActions(eng, q, t1, s, actions[1..]);
      ActionsEdges(eng, q, t1, s, actions[1..]);
      EdgesCons(eng, s, actions);
      EdgesAssoc(c, [edges[0]], rest);
    } else {
      assert ExpandActions(eng, q, t, s, actions) == Ok(t);
      assert ActionEdges(eng, s, actions) == [];
    }
  }

  lemma EdgesAssoc<P, M, H>(a: seq<Edge<P, M, H>>, b: seq<Edge<P, M, H>>, c: seq<Edge<P, M, H>>)
    ensures (a + b) + c == a + (b + c)
  {
  }

  /** The first action's edge comes first. */
  lemma EdgesCons<S, P, M, H>(eng: Engine<S, P, M, H>, s: S, actions: seq<JointAction<P, M>>)
    requires |actions| > 0
    ensures ActionEdges(eng, s, actions) == [ActionEdges(eng, s, actions)[0]] + ActionEdges(eng, s, actions[1..])
  {
    var edges := ActionEdges(eng, s, actions);
    var rest := ActionEdges(eng, s, actions[1..]);
    var cons := [edges[0]] + rest;
    forall i | 0 <= i < |edges| ensures cons[i] == edges[i] {
      if i > 0 {
        assert cons[i] == rest[i - 1];
        assert actions[1..][i - 1] == actions[i];
      }
    }
  }

  /** Expanding a state and back-propagating from it leaves every opinion
      settled. */
  lemma ExpandStateValid<S, P, M, H>(eng: Engine<S, P, M, H>, q: Queue, t: Table<S, P, M, H>, s: S)
    requires Valid(t, eng.game.hash) && Consistent(t, eng.game.hash, eng.player, [])
    requires eng.game.hash(s) in t.known
    requires ExpandState(eng, q, t, s).Ok?
    ensures var r := ExpandState(eng, q, t, s).value;
            Valid(r, eng.game.hash) && Consistent(r, eng.game.hash, eng.player, []) && KnownGrows(t, r)
  {
    var hash := eng.game.hash;
    var work := [hash(s)];
    var actions := ExpandingActions(eng, s).value;
    ExpandActionsValid(eng, q, t, s, actions, work);
    var t1 := ExpandActions(eng, q, t, s, actions).value;
    PropagateConsistent(t1, hash, eng.player, work, eng.fuel);
    PropagateFrame(t1, hash, eng.player, work, eng.fuel);
  }

  lemma {:induction false} ExpandStatesValid<S, P, M, H>(eng: Engine<S, P, M, H>, q: Queue, t: Table<S, P, M, H>, states: seq<S>)
    requires Valid(t, eng.game.hash) && Consistent(t, eng.game.hash, eng.player, [])
    requires forall i :: 0 <= i < |states| ==> eng.game.hash(states[i]) in t.known
    requires ExpandStates(eng, q, t, states).Ok?
    ensures var r := ExpandStates(eng, q, t, states).value;
            Valid(r, eng.game.hash) && Consistent(r, eng.game.hash, eng.player, []) && KnownGrows(t, r)
    decreases |states|
  {
    if |states| > 0 {
      var t1 := if eng.game.winner(states[0]).Some? then t else ExpandState(eng, q, t, states[0]).value;
      if eng.game.winner(states[0]).None? {
        ExpandStateValid(eng, q, t, states[0]);
      }
      ExpandStatesValid(eng, q, t1, states[1..]);
    }
  }

  /** A state with a winner is never expanded: only hashes of selected
      states without a winner get new children. */
  lemma {:induction false} ExpandStatesSkipsWinners<S, P, M, H>(eng: Engine<S, P, M, H>, q: Queue, t: Table<S, P, M, H>, states: seq<S>, h: H)
    requires ExpandStates(eng, q, t, states).Ok?
    requires forall i :: 0 <= i < |states| && eng.game.hash(states[i]) == h ==> eng.game.winner(states[i]).Some?
    ensures ChildrenOf(ExpandStates(eng, q, t, states).value, h) == ChildrenOf(t, h)
    decreases |states|
  {
    if |states| > 0 {
      var t1 := if eng.game.winner(states[0]).Some? then t else ExpandState(eng, q, t, states[0]).value;
      if eng.game.winner(states[0]).None? {
        var s := states[0];
        var actions := ExpandingActions(eng, s).value;
        ActionsChildren(eng, q, t, s, actions, h);
        var t0 := ExpandActions(eng, q, t, s, actions).value;
        PropagateFrame(t0, eng.game.hash, eng.player, [eng.game.hash(s)], eng.fuel);
      }
      ExpandStatesSkipsWinners(eng, q, t1, states[1..], h);
    }
  }

  /** Expanding a state adds children to its own hash only. */
  lemma {:induction false} ActionsChildren<S, P, M, H>(eng: Engine<S, P, M, H>, q: Queue, t: Table<S, P, M, H>, s: S, actions: seq<JointAction<P, M>>, h: H)
    requires ExpandActions(eng, q, t, s, actions).Ok? && h != eng.game.hash(s)
    ensures ChildrenOf(ExpandActions(eng, q, t, s, actions).value, h) == ChildrenOf(t, h)
    decreases |actions|
  {
    if |actions| > 0 {
      var t1 := ExpandAction(eng, q, t, s, actions[0]).value;
      ActionsChildren(eng, q, t1, s, actions[1..], h);
    }
  }

  /** Selection keeps the table valid and picks known states. */
  lemma SelectValid<S, P, M, H>(q: Queue, t: Table<S, P, M, H>, hash: S -> H, player: P)
    requires Valid(t, hash) && Consistent(t, hash, player, [])
    ensures Valid(Select(q, t).1, hash) && Consistent(Select(q, t).1, hash, player, [])
    ensures forall i :: 0 <= i < |Select(q, t).0| ==> hash(Select(q, t).0[i]) in t.known
  {
    var r := Select(q, t);
    forall i | 0 <= i < |r.0| ensures hash(r.0[i]) in t.known {
      SelectFrom(q, t, r.0[i]);
    }
    forall i | 0 <= i < |r.1.queue| ensures hash(r.1.queue[i]) in t.known {
      SelectFrom(q, t, r.1.queue[i]);
    }
    forall g | g in r.1.opinion ensures Settled(r.1, hash, player, g) {
      assert Settled(t, hash, player, g);
    }
  }

  /** A step keeps the table valid with every opinion settled, and known
      states stay known. */
  lemma StepValid<S, P, M, H>(eng: Engine<S, P, M, H>, q: Queue, t: Table<S, P, M, H>)
    requires Valid(t, eng.game.hash) && Consistent(t, eng.game.hash, eng.player, [])
    requires Step(eng, q, t).Ok?
    ensures var r := Step(eng, q, t).value.0;
            Valid(r, eng.game.hash) && Consistent(r, eng.game.hash, eng.player, []) && KnownGrows(t, r)
  {
    SelectValid(q, t, eng.game.hash, eng.player);
    var (states, t1) := Select(q, t);
    if |states| > 0 {
      ExpandStatesValid(eng, q, t1, states);
    }
  }

  lemma {:induction false} FullLoopValid<S, P, M, H>(eng: Engine<S, P, M, H>, q: Queue, t: Table<S, P, M, H>, fuel: nat)
    requires Sound(t, eng.game.hash, eng.player)
    requires FullLoop(eng, q, t, fuel).Ok?
    ensures GrownFrom(t, FullLoop(eng, q, t, fuel).value, eng.game.hash, eng.player)
    decreases fuel
  {
    var t1, more := FullRound(eng, q, t, fuel);
    if more {
      var r1 := FullLoop(eng, q, t1, fuel - 1);
      assert FullLoop(eng, q, t, fuel) == r1;
      FullLoopValid(eng, q, t1, fuel - 1);
      KnownGrowsTrans(t, t1, r1.value);
    } else {
      assert FullLoop(eng, q, t, fuel) == Ok(t1);
    }
  }

  /** One successful round of `FullExpansion` from a sound table. */
  lemma FullRound<S, P, M, H>(eng: Engine<S, P, M, H>, q: Queue, t: Table<S, P, M, H>, fuel: nat)
    returns (t1: Table<S, P, M, H>, more: bool)
    requires Sound(t, eng.game.hash, eng.player)
    requires FullLoop(eng, q, t, fuel).Ok?
    ensures fuel > 0 && GrownFrom(t, t1, eng.game.hash, eng.player)
    ensures FullLoop(eng, q, t, fuel) == if more then FullLoop(eng, q, t1, fuel - 1) else Ok(t1)
  {
    FullLoopUnfold(eng, q, t, fuel);
    StepValid(eng, q, t);
    t1, more := Step(eng, q, t).value.0, Step(eng, q, t).value.1;
  }

  lemma {:induction false} NodeLoopValid<S, P, M, H>(eng: Engine<S, P, M, H>, q: Queue, t: Table<S, P, M, H>, limit: int, fuel: nat,
                                                     r: Table<S, P, M, H>)
    requires Sound(t, eng.game.hash, eng.player)
    requires NodeLoop(eng, q, t, limit, fuel) == Ok(r)
    ensures GrownFrom(t, r, eng.game.hash, eng.player)
    decreases fuel
  {
    var t1, more := NodeRound(eng, q, t, limit, fuel);
    if more && |t1.known| < limit {
      NodeLoopValid(eng, q, t1, limit, fuel - 1, r);
      KnownGrowsTrans(t, t1, r);
    }
  }

  /** One successful round of `NodeLimitedExpansion` from a sound table. */
  lemma NodeRound<S, P, M, H>(eng: Engine<S, P, M, H>, q: Queue, t: Table<S, P, M, H>, limit: int, fuel: nat)
    returns (t1: Table<S, P, M, H>, more: bool)
    requires Sound(t, eng.game.hash, eng.player)
    requires NodeLoop(eng, q, t, limit, fuel).Ok?
    ensures fuel > 0 && GrownFrom(t, t1, eng.game.hash, eng.player)
    ensures NodeLoop(eng, q, t, limit, fuel) == if more && |t1.known| < limit then NodeLoop(eng, q, t1, limit, fuel - 1) else Ok(t1)
  {
    NodeLoopUnfold(eng, q, t, limit, fuel);
    StepValid(eng, q, t);
    t1, more := Step(eng, q, t).value.0, Step(eng, q, t).value.1;
  }

  lemma {:induction false} StepLoopValid<S, P, M, H>(eng: Engine<S, P, M, H>, q: Queue, t: Table<S, P, M, H>, n: int)
    requires Sound(t, eng.game.hash, eng.player)
    requires StepLoop(eng, q, t, n).Ok?
    ensures GrownFrom(t, StepLoop(eng, q, t, n).value, eng.game.hash, eng.player)
    decreases n
  {
    if n > 0 {
      var t1 := StepRound(eng, q, t, n);
      StepLoopValid(eng, q, t1, n - 1);
      KnownGrowsTrans(t, t1, StepLoop(eng, q, t1, n - 1).value);
    } else {
      assert StepLoop(eng, q, t, n) == Ok(t);
    }
  }

  /** One successful round of `StepLimitedExpansion` from a sound table. */
  lemma StepRound<S, P, M, H>(eng: Engine<S, P, M, H>, q: Queue, t: Table<S, P, M, H>, n: int)
    returns (t1: Table<S, P, M, H>)
    requires Sound(t, eng.game.hash, eng.player)
    requires n > 0 && StepLoop(eng, q, t, n).Ok?
    ensures GrownFrom(t, t1, eng.game.hash, eng.player)
    ensures StepLoop(eng, q, t, n) == StepLoop(eng, q, t1, n - 1)
  {
    StepLoopUnfold(eng, q, t, n);
    StepValid(eng, q, t);
    t1 := Step(eng, q, t).value.0;
  }

  /** Whatever the policy, a built tree is valid, every opinion in it is
      settled, and it still holds every state it held before. */
  lemma BuildTreeValid<S, P, M, H>(eng: Engine<S, P, M, H>, q: Queue, t: Table<S, P, M, H>)
    requires Valid(t, eng.game.hash) && Consistent(t, eng.game.hash, eng.player, [])
    requires BuildTree(eng, q, t).Ok?
    ensures var r := BuildTree(eng, q, t).value;
            Valid(r, eng.game.hash) && Consistent(r, eng.game.hash, eng.player, []) && KnownGrows(t, r)
  {
    match eng.cfg.expansion
    case NoExpansion =>
    case FullExpansion => FullLoopValid(eng, q, t, eng.fuel);
    case NodeLimitedExpansion(limit) => NodeLoopValid(eng, q, t, limit, eng.fuel, BuildTree(eng, q, t).value);
    case StepLimitedExpansion(n) => StepLoopValid(eng, q, t, n);
  }

  /** Full expansion ends at a table on which a step selects nothing and
      changes nothing. */
  lemma {:induction false} FullLoopEnds<S, P, M, H>(eng: Engine<S, P, M, H>, q: Queue, t: Table<S, P, M, H>, fuel: nat)
    requires FullLoop(eng, q, t, fuel).Ok?
    ensures var r := FullLoop(eng, q, t, fuel).value;
            Step(eng, q, r) == Ok((r, false))
    decreases fuel
  {
    FullLoopUnfold(eng, q, t, fuel);
    var (t1, more) := Step(eng, q, t).value;
    if more {
      FullLoopEnds(eng, q, t1, fuel - 1);
    }
  }

  /** Node-limited expansion ends once `limit` states are known, possibly
      more after the last step, or when a step selects nothing. */
  lemma {:induction false} NodeLoopEnds<S, P, M, H>(eng: Engine<S, P, M, H>, q: Queue, t: Table<S, P, M, H>, limit: int, fuel: nat)
    requires NodeLoop(eng, q, t, limit, fuel).Ok?
    ensures var r := NodeLoop(eng, q, t, limit, fuel).value;
            |r.known| >= limit || Step(eng, q, r) == Ok((r, false))
    decreases fuel
  {
    NodeLoopUnfold(eng, q, t, limit, fuel);
    var (t1, more) := Step(eng, q, t).value;
    if more && |t1.known| < limit {
      NodeLoopEnds(eng, q, t1, limit, fuel - 1);
    }
  }

  /** `Step` as a function value. */
  function Stepper<S, P(==), M(==), H(==)>(eng: Engine<S, P, M, H>, q: Queue)
    : Table<S, P, M, H> -> Result<(Table<S, P, M, H>, bool), Exc>
  {
    t => Step(eng, q, t)
  }

  /** Repeating a step function `n` times, stopping at the first error. */
  function Iterate<T, E>(f: T -> Result<(T, bool), E>, t: T, n: int): Result<T, E>
    decreases n
  {
    if n <= 0 then Ok(t)
    else
      var (t1, _) :- f(t);
      Iterate(f, t1, n - 1)
  }

  /** Iterating a+b times is iterating a times, then b times; with
      `StepLoopIterate`, step-limited expansion takes exactly its number
      of steps. */
  lemma {:induction false} IterateSplit<T, E>(f: T -> Result<(T, bool), E>, t: T, a: nat, b: nat)
    ensures Iterate(f, t, a).Ok? ==> Iterate(f, t, a + b) == Iterate(f, Iterate(f, t, a).value, b)
    ensures Iterate(f, t, a).Err? ==> Iterate(f, t, a + b) == Iterate(f, t, a)
    decreases a
  {
    if a > 0 && f(t).Ok? {
      IterateSplit(f, f(t).value.0, a - 1, b);
    }
  }

  /** `StepLoop` iterates `Step`. */
  lemma {:induction false} StepLoopIterate<S, P, M, H>(eng: Engine<S, P, M, H>, q: Queue, t: Table<S, P, M, H>, n: int)
    ensures StepLoop(eng, q, t, n) == Iterate(Stepper(eng, q), t, n)
    decreases n
  {
    if n > 0 {
      StepLoopUnfold(eng, q, t, n);
      if Step(eng, q, t).Ok? {
        StepLoopIterate(eng, q, Step(eng, q, t).value.0, n - 1);
      }
    }
  }
}
