/** `Minimax.reevaluate_node`: the value of an expanded node from the values
    of its children. Outcomes are grouped by the searcher's own part of the
    joint action; a group is worth its worst outcome (the default being
    +inf), and the node is worth its best group. */
module Minimax {
  import opened Common
  import opened Scores
  import opened SearchGame

  /** An entry of a `children` or `parents` list: the hash at the other end
      and the joint action taken. */
  datatype Edge<P, M, H> = Edge(other: H, action: JointAction<P, M>)

  /** `opinion[h]`: the node's value and its best actions, `None` when the
      node has no children. */
  datatype Opinion<M> = Opinion(score: Score, best: Option<seq<Option<M>>>)

  /** Every edge names the searcher in its joint action and leads to a
      valued node, so that neither lookup of the fold raises KeyError. */
  predicate Resolvable<P(==), M, H(==)>(children: seq<Edge<P, M, H>>, value: map<H, Score>, player: P) {
    forall i :: 0 <= i < |children| ==> HasKey(children[i].action, player) && children[i].other in value
  }

  /** `actions[self.player]`: the searcher's own part of an edge's action. */
  function MoveOf<P(==), M, H>(e: Edge<P, M, H>, player: P): Option<M>
    requires HasKey(e.action, player)
  {
    Lookup(e.action, player)
  }

  /** The searcher's own moves along the edges, in order. */
  function Moves<P(==), M, H>(children: seq<Edge<P, M, H>>, player: P): (ms: seq<Option<M>>)
    requires forall i :: 0 <= i < |children| ==> HasKey(children[i].action, player)
    ensures |ms| == |children| && forall i :: 0 <= i < |children| ==> ms[i] == MoveOf(children[i], player)
  {
    seq(|children|, i requires 0 <= i < |children| => MoveOf(children[i], player))
  }

  /** Every outcome that has a value is a number. */
  predicate NoNaNOutcomes<P, M, H(==)>(children: seq<Edge<P, M, H>>, value: map<H, Score>) {
    forall i :: 0 <= i < |children| && children[i].other in value ==> !value[children[i].other].NaN?
  }

  /** The `score` defaultdict after the loop: one entry per own move in the
      order the moves first occur, each the running `min` of its outcomes. */
  function GroupScores<P(==), M(==), H(==)>(children: seq<Edge<P, M, H>>, value: map<H, Score>, player: P)
    : (r: Result<Dict<Option<M>, Score>, Exc>)
    ensures r.Ok? <==> Resolvable(children, value, player)
    ensures r.Err? ==> r.error == KeyError
    decreases |children|
  {
    if |children| == 0 then Ok([])
    else
      var n := |children| - 1;
      var c := children[n];
      var groups :- GroupScores(children[..n], value, player);
      if !HasKey(c.action, player) || c.other !in value then Err(KeyError)
      else
        var m := MoveOf(c, player);
        var current := if HasKey(groups, m) then Lookup(groups, m) else PosInf;
        Ok(Put(groups, m, Min2(current, value[c.other])))
  }

  /** The groups are keyed, without repetition, by exactly the moves the
      searcher makes along the edges. */
  lemma {:induction false} GroupKeys<P, M, H>(children: seq<Edge<P, M, H>>, value: map<H, Score>, player: P)
    requires Resolvable(children, value, player)
    ensures DistinctKeys(GroupScores(children, value, player).value)
    ensures forall i :: 0 <= i < |children| ==> HasKey(GroupScores(children, value, player).value, MoveOf(children[i], player))
    ensures forall k :: 0 <= k < |GroupScores(children, value, player).value| ==>
              GroupScores(children, value, player).value[k].0 in Moves(children, player)
    decreases |children|
  {
    if |children| > 0 {
      var n := |children| - 1;
      var front := children[..n];
      assert forall i :: 0 <= i < n ==> front[i] == children[i];
      GroupKeys(front, value, player);
      var groups := GroupScores(front, value, player).value;
      var c := children[n];
      var m := MoveOf(c, player);
      var current := if HasKey(groups, m) then Lookup(groups, m) else PosInf;
      var x := Min2(current, value[c.other]);
      assert GroupScores(children, value, player).value == Put(groups, m, x);
      PutLookup(groups, m, x);
      GroupStep(children, player, groups, x);
    }
  }

  lemma GroupStep<P, M, H>(children: seq<Edge<P, M, H>>, player: P, groups: Dict<Option<M>, Score>, x: Score)
    requires |children| > 0 && forall i :: 0 <= i < |children| ==> HasKey(children[i].action, player)
    requires forall i :: 0 <= i < |children| - 1 ==> HasKey(groups, MoveOf(children[i], player))
    requires forall k :: 0 <= k < |groups| ==> groups[k].0 in Moves(children[..|children| - 1], player)
    ensures var r := Put(groups, MoveOf(children[|children| - 1], player), x);
            (forall i :: 0 <= i < |children| ==> HasKey(r, MoveOf(children[i], player))) &&
            forall k :: 0 <= k < |r| ==> r[k].0 in Moves(children, player)
  {
    var n := |children| - 1;
    var m := MoveOf(children[n], player);
    var r := Put(groups, m, x);
    var all := Moves(children, player);
    assert Moves(children[..n], player) == all[..n];
    forall i | 0 <= i < |children| ensures HasKey(r, MoveOf(children[i], player)) {
      PutOthers(groups, m, x, MoveOf(children[i], player));
    }
    forall k | 0 <= k < |r| ensures r[k].0 in all {
      if k < |groups| {
        assert r[k].0 == groups[k].0;
        assert groups[k].0 in all[..n];
      } else {
        assert r[k].0 == m == all[n];
      }
    }
  }

  /** One step of the fold seen from a key m: the written group is the new
      minimum, every other group is read back unchanged. */
  lemma FoldStep<K>(groups: Dict<K, Score>, mc: K, outcome: Score, m: K)
    requires HasKey(Put(groups, mc, Min2(if HasKey(groups, mc) then Lookup(groups, mc) else PosInf, outcome)), m)
    ensures var current := if HasKey(groups, mc) then Lookup(groups, mc) else PosInf;
            var r := Put(groups, mc, Min2(current, outcome));
            (m != mc ==> HasKey(groups, m) && Lookup(r, m) == Lookup(groups, m)) &&
            (m == mc ==> Lookup(r, m) == Min2(current, outcome))
  {
    var current := if HasKey(groups, mc) then Lookup(groups, mc) else PosInf;
    PutOthers(groups, mc, Min2(current, outcome), m);
    PutRead(groups, mc, Min2(current, outcome));
  }

  /** The group of move m on its own: the running `min` of m's outcomes,
      starting from the defaultdict's +inf. */
  function GroupOf<P(==), M(==), H(==)>(children: seq<Edge<P, M, H>>, value: map<H, Score>, player: P, m: Option<M>): (g: Score)
    requires Resolvable(children, value, player)
    ensures m !in Moves(children, player) ==> g == PosInf
    decreases |children|
  {
    if |children| == 0 then PosInf
    else
      var n := |children| - 1;
      assert Moves(children[..n], player) == Moves(children, player)[..n];
      var g := GroupOf(children[..n], value, player, m);
      if MoveOf(children[n], player) == m then Min2(g, value[children[n].other]) else g
  }

  /** The fold's dict holds, under each move, that move's own group. */
  lemma {:induction false} GroupLookup<P, M, H>(children: seq<Edge<P, M, H>>, value: map<H, Score>, player: P, m: Option<M>)
    requires Resolvable(children, value, player)
    requires HasKey(GroupScores(children, value, player).value, m)
    ensures Lookup(GroupScores(children, value, player).value, m) == GroupOf(children, value, player, m)
    decreases |children|
  {
    var n := |children| - 1;
    var front := children[..n];
    assert forall i :: 0 <= i < n ==> front[i] == children[i];
    var groups := GroupScores(front, value, player).value;
    var mc := MoveOf(children[n], player);
    var outcome := value[children[n].other];
    var current := if HasKey(groups, mc) then Lookup(groups, mc) else PosInf;
    assert GroupScores(children, value, player).value == Put(groups, mc, Min2(current, outcome));
    FoldStep(groups, mc, outcome, m);
    if m != mc {
      GroupLookup(front, value, player, m);
    } else if HasKey(groups, m) {
      GroupLookup(front, value, player, m);
    } else {
      GroupKeys(front, value, player);
      assert m !in Moves(front, player);
    }
  }

  /** A move's group over one more child: the last child's outcome is
      folded in with `min` when it belongs to the move. */
  lemma GroupSnoc<P, M, H>(children: seq<Edge<P, M, H>>, value: map<H, Score>, player: P, m: Option<M>)
    requires Resolvable(children, value, player) && |children| > 0
    ensures var n := |children| - 1;
            var front := children[..n];
            (forall i :: 0 <= i < n ==> front[i] == children[i]) &&
            Resolvable(front, value, player) &&
            Moves(front, player) == Moves(children, player)[..n] &&
            GroupOf(children, value, player, m) ==
              if MoveOf(children[n], player) == m then Min2(GroupOf(front, value, player, m), value[children[n].other])
              else GroupOf(front, value, player, m)
  {
    var n := |children| - 1;
    assert forall i :: 0 <= i < n ==> children[..n][i] == children[i];
  }

  /** Without NaN among the outcomes, a move's group is its worst outcome:
      the outcome of edge `w`, and below none of the others. */
  lemma {:induction false} GroupOfMinimum<P, M, H>(children: seq<Edge<P, M, H>>, value: map<H, Score>, player: P, m: Option<M>)
    returns (w: int)
    requires Resolvable(children, value, player) && NoNaNOutcomes(children, value)
    requires m in Moves(children, player)
    ensures 0 <= w < |children| && MoveOf(children[w], player) == m
    ensures value[children[w].other] == GroupOf(children, value, player, m)
    ensures forall i :: 0 <= i < |children| && MoveOf(children[i], player) == m ==>
              !Less(value[children[i].other], GroupOf(children, value, player, m))
    decreases |children|
  {
    var n := |children| - 1;
    var front := children[..n];
    GroupSnoc(children, value, player, m);
    assert NoNaNOutcomes(front, value);
    var g := GroupOf(children, value, player, m);
    var gf := GroupOf(front, value, player, m);
    var outcome := value[children[n].other];
    var last := MoveOf(children[n], player) == m;
    if m in Moves(front, player) {
      var w0 := GroupOfMinimum(front, value, player, m);
      if last && g != gf {
        w := n;
        assert g == outcome;
      } else {
        w := w0;
        assert value[front[w0].other] == g;
      }
      forall i | 0 <= i < |children| && MoveOf(children[i], player) == m ensures !Less(value[children[i].other], g) {
        if i < n {
          assert MoveOf(front[i], player) == m;
          LessOrder(g, gf, value[children[i].other]);
        }
      }
    } else {
      w := n;
      assert MoveOf(children[n], player) == m;
      LessOrder(outcome, PosInf, PosInf);
      forall i | 0 <= i < n ensures MoveOf(children[i], player) != m {
        assert Moves(front, player)[i] == MoveOf(front[i], player);
      }
    }
  }

  /** The moves whose group equals the best value (Python `==`), in order. */
  function Attaining<K>(groups: Dict<K, Score>, top: Score): (best: seq<K>)
    ensures |best| <= |groups|
    ensures forall j :: 0 <= j < |groups| && Same(groups[j].1, top) ==> groups[j].0 in best
    decreases |groups|
  {
    if |groups| == 0 then []
    else
      var rest := Attaining(groups[1..], top);
      assert forall j :: 1 <= j < |groups| ==> groups[j] == groups[1..][j - 1];
      if Same(groups[0].1, top) then [groups[0].0] + rest else rest
  }

  /** Every best action comes from a group equal to the best value. */
  lemma {:induction false} AttainingSource<K>(groups: Dict<K, Score>, top: Score, i: int) returns (j: int)
    requires 0 <= i < |Attaining(groups, top)|
    ensures 0 <= j < |groups| && groups[j].0 == Attaining(groups, top)[i] && Same(groups[j].1, top)
    decreases |groups|
  {
    var tail := groups[1..];
    if Same(groups[0].1, top) && i == 0 {
      j := 0;
    } else {
      var i' := if Same(groups[0].1, top) then i - 1 else i;
      var j' := AttainingSource(tail, top, i');
      j := j' + 1;
    }
  }

  /** Keys that are distinct stay distinct when some are dropped. */
  lemma {:induction false} AttainingDistinct<K>(groups: Dict<K, Score>, top: Score)
    requires DistinctKeys(groups)
    ensures forall i, j :: 0 <= i < j < |Attaining(groups, top)| ==> Attaining(groups, top)[i] != Attaining(groups, top)[j]
    decreases |groups|
  {
    if |groups| > 0 {
      var tail := groups[1..];
      assert forall j :: 1 <= j < |groups| ==> groups[j] == tail[j - 1];
      AttainingDistinct(tail, top);
      var rest := Attaining(tail, top);
      forall i | 0 <= i < |rest| ensures rest[i] != groups[0].0 {
        var j := AttainingSource(tail, top, i);
        assert groups[j + 1].0 == rest[i];
      }
    }
  }

  /** `reevaluate_node` on a node's children list and the stored values:
      (-inf, None) for a node without children; otherwise the best group
      and the moves attaining it. */
  function Reevaluate<P(==), M(==), H(==)>(children: seq<Edge<P, M, H>>, value: map<H, Score>, player: P)
    : (r: Result<Opinion<M>, Exc>)
    ensures |children| == 0 ==> r == Ok(Opinion(NegInf, None))
    ensures |children| > 0 ==> (r.Ok? <==> Resolvable(children, value, player))
    ensures r.Err? ==> r.error == KeyError
    ensures r.Ok? && |children| > 0 ==> r.value.best.Some?
  {
    if |children| == 0 then Ok(Opinion(NegInf, None))
    else
      var groups :- GroupScores(children, value, player);
      GroupKeys(children, value, player);
      assert HasKey(groups, MoveOf(children[0], player));
      var top := MaxOf(ValuesOf(groups));
      Ok(Opinion(top, Some(Attaining(groups, top))))
  }

  /** What the groups hold when nothing is NaN: one number per move, the
      move's own group. */
  lemma GroupFacts<P, M, H>(children: seq<Edge<P, M, H>>, value: map<H, Score>, player: P)
    requires |children| > 0 && Resolvable(children, value, player) && NoNaNOutcomes(children, value)
    ensures var g := GroupScores(children, value, player).value;
            |g| > 0 && DistinctKeys(g) && NoNaN(ValuesOf(g)) &&
            (forall k :: 0 <= k < |g| ==> g[k].1 == GroupOf(children, value, player, g[k].0)) &&
            (forall i :: 0 <= i < |children| ==>
               (HasKey(g, MoveOf(children[i], player)) &&
                Lookup(g, MoveOf(children[i], player)) == GroupOf(children, value, player, MoveOf(children[i], player))))
  {
    var g := GroupScores(children, value, player).value;
    GroupKeys(children, value, player);
    forall k | 0 <= k < |g| ensures g[k].1 == GroupOf(children, value, player, g[k].0) && !g[k].1.NaN? {
      LookupAt(g, k);
      GroupLookup(children, value, player, g[k].0);
      var w := GroupOfMinimum(children, value, player, g[k].0);
    }
    forall i | 0 <= i < |children|
      ensures Lookup(g, MoveOf(children[i], player)) == GroupOf(children, value, player, MoveOf(children[i], player))
    {
      GroupLookup(children, value, player, MoveOf(children[i], player));
    }
    assert HasKey(g, MoveOf(children[0], player));
  }

  /** No move of the searcher's has a worst outcome above the node's value. */
  lemma MoveBound<P, M, H>(children: seq<Edge<P, M, H>>, value: map<H, Score>, player: P, i: int)
    requires |children| > 0 && Resolvable(children, value, player) && NoNaNOutcomes(children, value)
    requires 0 <= i < |children|
    ensures Reevaluate(children, value, player).Ok?
    ensures !Less(Reevaluate(children, value, player).value.score, GroupOf(children, value, player, MoveOf(children[i], player)))
  {
    GroupFacts(children, value, player);
    var g := GroupScores(children, value, player).value;
    var values := ValuesOf(g);
    var m := MoveOf(children[i], player);
    var k := IndexOf(g, m);
    assert values[k] == GroupOf(children, value, player, m);
    assert Reevaluate(children, value, player).value.score == MaxOf(values);
  }

  /** A move is among the best actions exactly when its worst outcome is the
      node's value. */
  lemma MoveBest<P, M, H>(children: seq<Edge<P, M, H>>, value: map<H, Score>, player: P, i: int)
    requires |children| > 0 && Resolvable(children, value, player) && NoNaNOutcomes(children, value)
    requires 0 <= i < |children|
    ensures Reevaluate(children, value, player).Ok?
    ensures var o := Reevaluate(children, value, player).value;
            o.best.Some? &&
            (MoveOf(children[i], player) in o.best.value <==> GroupOf(children, value, player, MoveOf(children[i], player)) == o.score)
  {
    GroupFacts(children, value, player);
    var g := GroupScores(children, value, player).value;
    var values := ValuesOf(g);
    var top := MaxOf(values);
    var best := Attaining(g, top);
    assert Reevaluate(children, value, player) == Ok(Opinion(top, Some(best)));
    var m := MoveOf(children[i], player);
    var k := IndexOf(g, m);
    LookupAt(g, k);
    assert g[k].1 == GroupOf(children, value, player, m);
    if m in best {
      var b :| 0 <= b < |best| && best[b] == m;
      var k2 := AttainingSource(g, top, b);
      assert k2 == k;
    }
  }

  /** The best actions are moves of the searcher's, none of them twice,
      and there is at least one. */
  lemma BestActions<P, M, H>(children: seq<Edge<P, M, H>>, value: map<H, Score>, player: P)
    requires |children| > 0 && Resolvable(children, value, player) && NoNaNOutcomes(children, value)
    ensures Reevaluate(children, value, player).Ok?
    ensures var o := Reevaluate(children, value, player).value;
            o.best.Some? && |o.best.value| > 0 &&
            (forall k :: 0 <= k < |o.best.value| ==> o.best.value[k] in Moves(children, player)) &&
            (forall k, l :: 0 <= k < l < |o.best.value| ==> o.best.value[k] != o.best.value[l])
  {
    GroupFacts(children, value, player);
    var g := GroupScores(children, value, player).value;
    var values := ValuesOf(g);
    var top := MaxOf(values);
    var best := Attaining(g, top);
    assert Reevaluate(children, value, player) == Ok(Opinion(top, Some(best)));
    AttainingDistinct(g, top);
    var kt :| 0 <= kt < |values| && values[kt] == top;
    assert Same(g[kt].1, top);
    assert g[kt].0 in best;
    GroupKeys(children, value, player);
    forall k | 0 <= k < |best| ensures best[k] in Moves(children, player) {
      var j := AttainingSource(g, top, k);
    }
  }

  /** The minimax choice: without NaN among the outcomes, the node's value is
      the largest group, a group being its move's worst outcome (see
      `GroupOfMinimum`). No move's worst outcome exceeds the value, and the
      best actions are, without repetition, exactly the moves whose worst
      outcome is the value. */
  lemma MinimaxChoice<P, M, H>(children: seq<Edge<P, M, H>>, value: map<H, Score>, player: P)
    requires |children| > 0 && Resolvable(children, value, player) && NoNaNOutcomes(children, value)
    ensures Reevaluate(children, value, player).Ok?
    ensures var o := Reevaluate(children, value, player).value;
            o.best.Some? && |o.best.value| > 0 &&
            (forall i :: 0 <= i < |children| ==> !Less(o.score, GroupOf(children, value, player, MoveOf(children[i], player)))) &&
            (forall i :: 0 <= i < |children| ==>
               (MoveOf(children[i], player) in o.best.value <==> GroupOf(children, value, player, MoveOf(children[i], player)) == o.score)) &&
            (forall k :: 0 <= k < |o.best.value| ==> o.best.value[k] in Moves(children, player)) &&
            (forall k, l :: 0 <= k < l < |o.best.value| ==> o.best.value[k] != o.best.value[l])
  {
    BestActions(children, value, player);
    var o := Reevaluate(children, value, player).value;
    forall i | 0 <= i < |children|
      ensures !Less(o.score, GroupOf(children, value, player, MoveOf(children[i], player)))
      ensures MoveOf(children[i], player) in o.best.value <==> GroupOf(children, value, player, MoveOf(children[i], player)) == o.score
    {
      MoveBound(children, value, player, i);
      MoveBest(children, value, player, i);
    }
  }

  /** `reevaluate_node` reads only the values of the node's children. */
  lemma {:induction false} ReevaluateFrame<P, M, H>(children: seq<Edge<P, M, H>>, v1: map<H, Score>, v2: map<H, Score>, player: P)
    requires forall i :: 0 <= i < |children| ==> (children[i].other in v1 <==> children[i].other in v2)
    requires forall i :: 0 <= i < |children| && children[i].other in v1 ==> v1[children[i].other] == v2[children[i].other]
    ensures Reevaluate(children, v1, player) == Reevaluate(children, v2, player)
  {
    GroupFrame(children, v1, v2, player);
  }

  lemma {:induction false} GroupFrame<P, M, H>(children: seq<Edge<P, M, H>>, v1: map<H, Score>, v2: map<H, Score>, player: P)
    requires forall i :: 0 <= i < |children| ==> (children[i].other in v1 <==> children[i].other in v2)
    requires forall i :: 0 <= i < |children| && children[i].other in v1 ==> v1[children[i].other] == v2[children[i].other]
    ensures GroupScores(children, v1, player) == GroupScores(children, v2, player)
    decreases |children|
  {
    if |children| > 0 {
      var n := |children| - 1;
      var front := children[..n];
      assert forall i :: 0 <= i < n ==> front[i] == children[i];
      GroupFrame(front, v1, v2, player);
    }
  }
}
