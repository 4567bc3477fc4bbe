/** `TranspositionTable`: one node per state hash, the child and parent
    edge lists of every node, each node's value and opinion, and the
    back-propagation worklist that keeps opinions in step with the values
    of the children. The table is a value here; the class `Search`
    (search_engine.dfy) holds the same fields and updates them in place. */
module SearchTable {
  import opened Common
  import opened Scores
  import opened SearchGame
  import opened Minimax

  /** The search's storage: `known_states`, `children`, `parents`, `value`,
      `opinion`, and the expansion queue of the configured queue policy. */
  datatype Table<S, P, M, H> = Table(
    known: map<H, S>,
    children: map<H, seq<Edge<P, M, H>>>,
    parents: map<H, seq<Edge<P, M, H>>>,
    value: map<H, Score>,
    opinion: map<H, Opinion<M>>,
    queue: seq<S>)

  /** `setup_storage`, before any state is stored. */
  function EmptyTable<S, P, M, H>(): Table<S, P, M, H> {
    Table(map[], map[], map[], map[], map[], [])
  }

  /** `children[h]` of the defaultdict: the empty list for a hash without children. */
  function ChildrenOf<S, P, M, H(==)>(t: Table<S, P, M, H>, h: H): seq<Edge<P, M, H>> {
    if h in t.children then t.children[h] else []
  }

  function ParentsOf<S, P, M, H(==)>(t: Table<S, P, M, H>, h: H): seq<Edge<P, M, H>> {
    if h in t.parents then t.parents[h] else []
  }

  /** The hashes at the far ends of some edges, in order. */
  function Ends<P, M, H>(edges: seq<Edge<P, M, H>>): (hs: seq<H>)
    ensures |hs| == |edges| && forall i :: 0 <= i < |edges| ==> hs[i] == edges[i].other
  {
    seq(|edges|, i requires 0 <= i < |edges| => edges[i].other)
  }

  // ---------------------------------------------------------------------
  // store_state and store_transition

  /** `store_state`: stores the state under its hash unless the hash is
      known, and says whether it did. */
  function StoreState<S, P, M, H(==)>(t: Table<S, P, M, H>, hash: S -> H, s: S): (r: (Table<S, P, M, H>, bool))
    ensures r.1 <==> hash(s) !in t.known
    ensures hash(s) in r.0.known
    ensures r.1 ==> r.0.known[hash(s)] == s
    ensures r.0.known.Keys == t.known.Keys + {hash(s)}
    ensures forall h :: h in t.known ==> r.0.known[h] == t.known[h]
    ensures r.0 == t.(known := r.0.known)
  {
    var h := hash(s);
    if h in t.known then (t, false) else (t.(known := t.known[h := s]), true)
  }

  /** `store_transition`: the edge is appended to the child list of the
      state and to the parent list of the successor, repeats included. */
  function StoreTransition<S, P, M, H(==)>(t: Table<S, P, M, H>, hash: S -> H, s: S, a: JointAction<P, M>, succ: S)
    : (r: Table<S, P, M, H>)
    ensures ChildrenOf(r, hash(s)) == ChildrenOf(t, hash(s)) + [Edge(hash(succ), a)]
    ensures ParentsOf(r, hash(succ)) == ParentsOf(t, hash(succ)) + [Edge(hash(s), a)]
    ensures r.children.Keys == t.children.Keys + {hash(s)}
    ensures r.parents.Keys == t.parents.Keys + {hash(succ)}
    ensures forall h :: h in t.children && h != hash(s) ==> r.children[h] == t.children[h]
    ensures forall h :: h in t.parents && h != hash(succ) ==> r.parents[h] == t.parents[h]
    ensures r.known == t.known && r.value == t.value && r.opinion == t.opinion && r.queue == t.queue
  {
    var h := hash(s);
    var hs := hash(succ);
    t.(children := t.children[h := ChildrenOf(t, h) + [Edge(hs, a)]],
       parents := t.parents[hs := ParentsOf(t, hs) + [Edge(h, a)]])
  }

  // ---------------------------------------------------------------------
  // The table's invariant

  /** Every stored state is stored under its own hash. */
  ghost predicate HashConsistent<S, P, M, H>(t: Table<S, P, M, H>, hash: S -> H) {
    forall h :: h in t.known ==> hash(t.known[h]) == h
  }

  /** Both ends of every edge are known states. */
  ghost predicate EdgesKnown<S, P, M, H>(t: Table<S, P, M, H>) {
    (forall h :: h in t.children ==> h in t.known) &&
    (forall h :: h in t.parents ==> h in t.known) &&
    (forall h, i :: h in t.children && 0 <= i < |t.children[h]| ==> t.children[h][i].other in t.known) &&
    (forall h, i :: h in t.parents && 0 <= i < |t.parents[h]| ==> t.parents[h][i].other in t.known)
  }

  /** Every child edge p -> c has a parent edge at c that leads back to p. */
  ghost predicate Mirrored<S, P, M, H>(t: Table<S, P, M, H>) {
    forall p, i :: p in t.children && 0 <= i < |t.children[p]| ==>
      p in Ends(ParentsOf(t, t.children[p][i].other))
  }

  /** Only known states have values and opinions, and every queued state is known. */
  ghost predicate NodesKnown<S, P, M, H>(t: Table<S, P, M, H>, hash: S -> H) {
    (forall h :: h in t.value ==> h in t.known) &&
    (forall h :: h in t.opinion ==> h in t.known) &&
    (forall i :: 0 <= i < |t.queue| ==> hash(t.queue[i]) in t.known)
  }

  ghost predicate Valid<S, P, M, H>(t: Table<S, P, M, H>, hash: S -> H) {
    HashConsistent(t, hash) && EdgesKnown(t) && Mirrored(t) && NodesKnown(t, hash)
  }

  /** A node whose opinion is what `reevaluate_node` gives on the current
      values of its children, and whose value is that opinion's score. */
  ghost predicate Settled<S, P, M, H>(t: Table<S, P, M, H>, hash: S -> H, player: P, h: H) {
    h in t.known && h in t.value && h in t.opinion &&
    Reevaluate(ChildrenOf(t, hash(t.known[h])), t.value, player) == Ok(t.opinion[h]) &&
    t.value[h] == t.opinion[h].score
  }

  /** Every node with an opinion is settled or still waiting in the worklist. */
  ghost predicate Consistent<S, P, M, H>(t: Table<S, P, M, H>, hash: S -> H, player: P, work: seq<H>) {
    forall h :: h in t.opinion ==> h in work || Settled(t, hash, player, h)
  }

  /** The empty table is valid and has nothing to settle. */
  lemma EmptyValid<S, P, M, H>(hash: S -> H, player: P)
    ensures Valid(EmptyTable<S, P, M, H>(), hash)
    ensures Consistent(EmptyTable<S, P, M, H>(), hash, player, [])
  {
  }

  /** Storing a state keeps the table valid and every node as settled as it was. */
  lemma StoreStateValid<S, P, M, H>(t: Table<S, P, M, H>, hash: S -> H, player: P, s: S, work: seq<H>)
    requires Valid(t, hash) && Consistent(t, hash, player, work)
    ensures Valid(StoreState(t, hash, s).0, hash)
    ensures Consistent(StoreState(t, hash, s).0, hash, player, work)
  {
    var r := StoreState(t, hash, s).0;
    forall h | h in r.opinion && h !in work ensures Settled(r, hash, player, h) {
      assert Settled(t, hash, player, h);
    }
    forall p, i | p in r.children && 0 <= i < |r.children[p]|
      ensures p in Ends(ParentsOf(r, r.children[p][i].other))
    {
      assert p in Ends(ParentsOf(t, t.children[p][i].other));
    }
  }

  /** Recording an edge from a known state to a known state keeps the table
      valid; only the state whose child list grew may become unsettled. */
  lemma StoreTransitionValid<S, P, M, H>(t: Table<S, P, M, H>, hash: S -> H, player: P, s: S, a: JointAction<P, M>, succ: S, work: seq<H>)
    requires Valid(t, hash) && Consistent(t, hash, player, work)
    requires hash(s) in t.known && hash(succ) in t.known && hash(s) in work
    ensures Valid(StoreTransition(t, hash, s, a, succ), hash)
    ensures Consistent(StoreTransition(t, hash, s, a, succ), hash, player, work)
  {
    var r := StoreTransition(t, hash, s, a, succ);
    var h, hs := hash(s), hash(succ);
    forall g | g in r.opinion && g !in work ensures Settled(r, hash, player, g) {
      assert Settled(t, hash, player, g);
      assert hash(t.known[g]) == g;
      assert ChildrenOf(r, g) == ChildrenOf(t, g);
    }
    forall p, i | p in r.children && 0 <= i < |r.children[p]|
      ensures p in Ends(ParentsOf(r, r.children[p][i].other))
    {
      var c := r.children[p][i].other;
      if p == h && i == |ChildrenOf(t, h)| {
        assert c == hs;
        assert Ends(ParentsOf(r, hs))[|ParentsOf(t, hs)|] == h;
      } else {
        assert r.children[p][i] == ChildrenOf(t, p)[i];
        assert p in t.children;
        assert p in Ends(ParentsOf(t, c));
        var j :| 0 <= j < |ParentsOf(t, c)| && Ends(ParentsOf(t, c))[j] == p;
        assert ParentsOf(r, c)[j] == ParentsOf(t, c)[j];
        assert Ends(ParentsOf(r, c))[j] == p;
      }
    }
    forall p, i | p in r.children && 0 <= i < |r.children[p]| ensures r.children[p][i].other in r.known {
      if !(p == h && i == |ChildrenOf(t, h)|) {
        assert r.children[p][i] == ChildrenOf(t, p)[i];
      }
    }
    forall p, i | p in r.parents && 0 <= i < |r.parents[p]| ensures r.parents[p][i].other in r.known {
      if !(p == hs && i == |ParentsOf(t, hs)|) {
        assert r.parents[p][i] == ParentsOf(t, p)[i];
      }
    }
  }

  // ---------------------------------------------------------------------
  // backpropagate

  /** One turn of the `backpropagate` loop: pop the oldest hash, recompute
      its opinion, and update its value. A node without a value gets one
      and its parents are not told; a node whose value changes (Python `!=`)
      appends all its parents to the worklist; otherwise nothing else
      happens. */
  function PropagateOne<S, P(==), M(==), H(==)>(t: Table<S, P, M, H>, hash: S -> H, player: P, work: seq<H>)
    : (r: Result<(Table<S, P, M, H>, seq<H>), Exc>)
    requires |work| > 0
    ensures r.Err? <==> work[0] !in t.known || Reevaluate(ChildrenOf(t, hash(t.known[work[0]])), t.value, player).Err?
    ensures r.Err? ==> r.error == KeyError
    ensures r.Ok? ==>
              var (t', work') := r.value;
              var h := work[0];
              var op := Reevaluate(ChildrenOf(t, hash(t.known[h])), t.value, player).value;
              t' == t.(opinion := t.opinion[h := op], value := t'.value) &&
              t'.value == t.value[h := op.score] &&
              (h !in t.value ==> work' == work[1..]) &&
              (h in t.value && Same(t.value[h], op.score) ==> work' == work[1..]) &&
              (h in t.value && !Same(t.value[h], op.score) ==> work' == work[1..] + Ends(ParentsOf(t, h)))
  {
    var h := work[0];
    if h !in t.known then Err(KeyError)
    else
      var op :- Reevaluate(ChildrenOf(t, hash(t.known[h])), t.value, player);
      var t1 := t.(opinion := t.opinion[h := op]);
      if h !in t.value then Ok((t1.(value := t.value[h := op.score]), work[1..]))
      else if !Same(t.value[h], op.score) then Ok((t1.(value := t.value[h := op.score]), work[1..] + Ends(ParentsOf(t, h))))
      else
        assert t.value[h := op.score] == t.value;
        Ok((t1, work[1..]))
  }

  /** The `backpropagate` loop, cut short with OutOfFuel after `fuel` turns. */
  function Propagate<S, P(==), M(==), H(==)>(t: Table<S, P, M, H>, hash: S -> H, player: P, work: seq<H>, fuel: nat)
    : Result<Table<S, P, M, H>, Exc>
    decreases fuel
  {
    if |work| == 0 then Ok(t)
    else if fuel == 0 then Err(OutOfFuel)
    else
      var next :- PropagateOne(t, hash, player, work);
      Propagate(next.0, hash, player, next.1, fuel - 1)
  }

  /** One turn keeps the table valid and leaves every node with an opinion
      settled or queued: a node whose child changed value is among that
      child's parents, which are appended to the worklist. */
  lemma PropagateOneConsistent<S, P, M, H>(t: Table<S, P, M, H>, hash: S -> H, player: P, work: seq<H>)
    requires |work| > 0 && Valid(t, hash) && Consistent(t, hash, player, work)
    requires PropagateOne(t, hash, player, work).Ok?
    ensures Valid(PropagateOne(t, hash, player, work).value.0, hash)
    ensures Consistent(PropagateOne(t, hash, player, work).value.0, hash, player, PropagateOne(t, hash, player, work).value.1)
  {
    var (t', work') := PropagateOne(t, hash, player, work).value;
    assert t'.known == t.known && t'.children == t.children && t'.parents == t.parents && t'.queue == t.queue;
    assert Mirrored(t');
    forall g | g in t'.opinion && g !in work'
      ensures Settled(t', hash, player, g)
    {
      SettledAfterTurn(t, hash, player, work, g);
    }
  }

  /** The case analysis behind `PropagateOneConsistent`, for one node g. */
  lemma SettledAfterTurn<S, P, M, H>(t: Table<S, P, M, H>, hash: S -> H, player: P, work: seq<H>, g: H)
    requires |work| > 0 && Valid(t, hash) && Consistent(t, hash, player, work)
    requires PropagateOne(t, hash, player, work).Ok?
    requires g in PropagateOne(t, hash, player, work).value.0.opinion
    requires g !in PropagateOne(t, hash, player, work).value.1
    ensures Settled(PropagateOne(t, hash, player, work).value.0, hash, player, g)
  {
    var (t', work') := PropagateOne(t, hash, player, work).value;
    var h := work[0];
    assert hash(t.known[h]) == h;
    var op := Reevaluate(ChildrenOf(t, h), t.value, player).value;
    assert t'.value == t.value[h := op.score];
    assert g in t.known && hash(t.known[g]) == g;
    var children := ChildrenOf(t, g);
    assert g != h ==> g !in work[1..];
    assert g != h ==> Settled(t, hash, player, g);
    assert Reevaluate(children, t.value, player).Ok?;
    if h in Ends(children) {
      var i :| 0 <= i < |children| && Ends(children)[i] == h;
      ResolvedChild(children, t.value, player, i);
      assert g in t.children;
      assert g in Ends(ParentsOf(t, children[i].other));
      assert t'.value == t.value;
    } else {
      UnaffectedNode(children, t.value, h, op.score, player);
    }
  }

  /** A node that resolved has a value for every child. */
  lemma ResolvedChild<P, M, H>(children: seq<Edge<P, M, H>>, value: map<H, Score>, player: P, i: int)
    requires Reevaluate(children, value, player).Ok? && 0 <= i < |children|
    ensures children[i].other in value
  {
  }

  /** A node's opinion ignores values of nodes that are not its children. */
  lemma UnaffectedNode<P, M, H>(children: seq<Edge<P, M, H>>, value: map<H, Score>, h: H, v: Score, player: P)
    requires h !in Ends(children)
    ensures Reevaluate(children, value[h := v], player) == Reevaluate(children, value, player)
  {
    forall i | 0 <= i < |children| ensures children[i].other != h {
      assert Ends(children)[i] == children[i].other;
    }
    ReevaluateFrame(children, value[h := v], value, player);
  }

  /** A finished back-propagation leaves the table valid and every node
      with an opinion settled: opinions agree with the children's values. */
  lemma {:induction false} PropagateConsistent<S, P, M, H>(t: Table<S, P, M, H>, hash: S -> H, player: P, work: seq<H>, fuel: nat)
    requires Valid(t, hash) && Consistent(t, hash, player, work)
    requires Propagate(t, hash, player, work, fuel).Ok?
    ensures Valid(Propagate(t, hash, player, work, fuel).value, hash)
    ensures Consistent(Propagate(t, hash, player, work, fuel).value, hash, player, [])
    decreases fuel
  {
    if |work| > 0 {
      PropagateOneConsistent(t, hash, player, work);
      var next := PropagateOne(t, hash, player, work).value;
      PropagateConsistent(next.0, hash, player, next.1, fuel - 1);
    }
  }

  /** Back-propagation changes only values and opinions. */
  lemma {:induction false} PropagateFrame<S, P, M, H>(t: Table<S, P, M, H>, hash: S -> H, player: P, work: seq<H>, fuel: nat)
    requires Propagate(t, hash, player, work, fuel).Ok?
    ensures var t' := Propagate(t, hash, player, work, fuel).value;
            t'.known == t.known && t'.children == t.children && t'.parents == t.parents && t'.queue == t.queue
    decreases fuel
  {
    if |work| > 0 {
      var next := PropagateOne(t, hash, player, work).value;
      PropagateFrame(next.0, hash, player, next.1, fuel - 1);
    }
  }
}
