/** A* search over a graph given by its transition function
    (pychology/simple_search/a_star.py). The priority queue is a sequence
    from which the entry that Python's heap would hand out is taken, the
    `explored` dict is a map from node to (fixed cost, parent), and the path
    is rebuilt by following parents back from the goal. */
module AStar {
  import opened Common

  /** A frontier entry `(total_cost, fixed_cost, node, from_node)`. */
  datatype Entry<N> = Entry(total: int, fixed: int, node: N, from: Option<N>)

  /** `transition_func`: the (neighbour, cost) pairs of a node, in order,
      or the exception the call raises. */
  type Successors<!N> = N -> Result<seq<(N, int)>, Exc>

  /** `cost_heuristic(node, goal)`. */
  type Heuristic<!N> = (N, N) -> int

  /** `explored`: node to (fixed cost, from_node). */
  type Explored<N> = map<N, (int, Option<N>)>

  // ---------------------------------------------------------------------
  // The helpers of the module

  /** `get_neighbors_and_costs(nav_graph)`: the node's own (neighbour, cost)
      entries; a node the graph does not hold raises KeyError. */
  function NeighborsAndCosts<N(==,!new)>(graph: map<N, seq<(N, int)>>): (succ: Successors<N>)
    ensures forall n :: succ(n).Ok? <==> n in graph
    ensures forall n :: n in graph ==> succ(n).value == graph[n]
    ensures forall n :: n !in graph ==> succ(n).error == KeyError
  {
    n => if n in graph then Ok(graph[n]) else Err(KeyError)
  }

  /** Every node a graph mentions, as a key or as a neighbour. */
  ghost function GraphNodes<N(!new)>(graph: map<N, seq<(N, int)>>): set<N> {
    graph.Keys + set n, k | n in graph && 0 <= k < |graph[n]| :: graph[n][k].0
  }

  /** A search over a graph held in a dict stays among the graph's nodes,
      so it meets the finiteness requirement of `Search`. */
  lemma NavGraphClosed<N(!new)>(graph: map<N, seq<(N, int)>>, start: N)
    requires start in graph
    ensures start in GraphNodes(graph) && Closed(NeighborsAndCosts(graph), GraphNodes(graph))
  {
    var succ := NeighborsAndCosts(graph);
    forall n, x, c | n in GraphNodes(graph) && succ(n).Ok? && (x, c) in succ(n).value
      ensures x in GraphNodes(graph)
    {
      var k :| 0 <= k < |graph[n]| && graph[n][k] == (x, c);
      assert graph[n][k].0 == x;
    }
  }

  /** `estimate_zero`: the heuristic that makes the search Dijkstra's. */
  function EstimateZero<N(!new)>(a: N, b: N): (r: int)
    ensures r == 0
  {
    0
  }

  // ---------------------------------------------------------------------
  // Walks: the reference the search result is judged by

  /** `path` follows edges of the graph, `costs[i]` being the cost of an
      edge from `path[i]` to `path[i + 1]`. */
  ghost predicate IsWalk<N(!new)>(succ: Successors<N>, path: seq<N>, costs: seq<int>) {
    |path| == |costs| + 1 &&
    forall i :: 0 <= i < |costs| ==> succ(path[i]).Ok? && (path[i + 1], costs[i]) in succ(path[i]).value
  }

  function Sum(costs: seq<int>): int {
    if |costs| == 0 then 0 else costs[0] + Sum(costs[1..])
  }

  lemma {:induction false} SumAppend(a: seq<int>, b: seq<int>)
    ensures Sum(a + b) == Sum(a) + Sum(b)
    decreases |a|
  {
    if |a| > 0 {
      assert (a + b)[0] == a[0] && (a + b)[1..] == a[1..] + b;
      SumAppend(a[1..], b);
    } else {
      assert a + b == b;
    }
  }

  /** The search cannot leave this set of nodes, which makes it finite. */
  ghost predicate Closed<N(!new)>(succ: Successors<N>, nodes: set<N>) {
    forall n, x, c :: n in nodes && succ(n).Ok? && (x, c) in succ(n).value ==> x in nodes
  }

  /** The setting in which the returned path is a cheapest one: the zero
      estimate and no negative edge cost. */
  ghost predicate Dijkstra<N(!new)>(succ: Successors<N>, h: Heuristic<N>) {
    (forall a, b :: h(a, b) == 0) &&
    (forall n, x, c :: succ(n).Ok? && (x, c) in succ(n).value ==> c >= 0)
  }

  /** Edge costs on a walk add up to no less than zero when none is
      negative. */
  lemma {:induction false} WalkCostNonNegative<N(!new)>(succ: Successors<N>, h: Heuristic<N>, path: seq<N>, costs: seq<int>)
    requires Dijkstra(succ, h) && IsWalk(succ, path, costs)
    ensures Sum(costs) >= 0
    decreases |costs|
  {
    if |costs| > 0 {
      assert (path[1], costs[0]) in succ(path[0]).value;
      assert IsWalk(succ, path[1..], costs[1..]) by {
        forall i | 0 <= i < |costs| - 1
          ensures succ(path[1..][i]).Ok? && (path[1..][i + 1], costs[1..][i]) in succ(path[1..][i]).value
        {
          assert (path[i + 2], costs[i + 1]) in succ(path[i + 1]).value;
        }
      }
      WalkCostNonNegative(succ, h, path[1..], costs[1..]);
    }
  }

  /** A walk from inside a set of nodes to outside it has an edge that
      leaves the set. */
  lemma {:induction false} FirstExit<N(!new)>(path: seq<N>, inside: set<N>) returns (i: nat)
    requires |path| >= 1 && path[0] in inside && path[|path| - 1] !in inside
    ensures i < |path| - 1 && path[i] in inside && path[i + 1] !in inside
    decreases |path|
  {
    if path[1] !in inside {
      i := 0;
    } else {
      var j := FirstExit(path[1..], inside);
      i := j + 1;
    }
  }

  /** A walk cut short after `i` edges. */
  lemma WalkPrefix<N(!new)>(succ: Successors<N>, path: seq<N>, costs: seq<int>, i: nat)
    requires IsWalk(succ, path, costs) && i <= |costs|
    ensures IsWalk(succ, path[..i + 1], costs[..i])
  {
    forall k | 0 <= k < i
      ensures succ(path[..i + 1][k]).Ok? && (path[..i + 1][k + 1], costs[..i][k]) in succ(path[..i + 1][k]).value
    {
      assert (path[k + 1], costs[k]) in succ(path[k]).value;
    }
  }

  /** A walk with one edge added in front. */
  lemma WalkCons<N(!new)>(succ: Successors<N>, p: N, c: int, path: seq<N>, costs: seq<int>)
    requires IsWalk(succ, path, costs) && succ(p).Ok? && (path[0], c) in succ(p).value
    ensures IsWalk(succ, [p] + path, [c] + costs)
  {
    var path', costs' := [p] + path, [c] + costs;
    forall i | 0 <= i < |costs'|
      ensures succ(path'[i]).Ok? && (path'[i + 1], costs'[i]) in succ(path'[i]).value
    {
      if i > 0 {
        assert path'[i] == path[i - 1] && path'[i + 1] == path[i] && costs'[i] == costs[i - 1];
        assert (path[i], costs[i - 1]) in succ(path[i - 1]).value;
      }
    }
  }

  /** The cheapest cost among the edges to `x` in a list of (neighbour,
      cost) pairs. */
  function MinEdge<N(==)>(items: seq<(N, int)>, x: N): (r: Option<int>)
    ensures forall c :: (x, c) in items ==> r.Some? && r.value <= c
    ensures r.Some? ==> (x, r.value) in items
    decreases |items|
  {
    if |items| == 0 then None
    else
      var front := MinEdge(items[..|items| - 1], x);
      var (y, c) := items[|items| - 1];
      assert forall z :: z in items ==> z in items[..|items| - 1] || z == items[|items| - 1];
      if y != x then front
      else if front.Some? && front.value <= c then front
      else Some(c)
  }

  // ---------------------------------------------------------------------
  // The frontier

  /** `a` leaves the priority queue no later than `b`: entries are ordered
      by total cost, then by fixed cost. */
  predicate NoLater<N(!new)>(a: Entry<N>, b: Entry<N>) {
    a.total < b.total || (a.total == b.total && a.fixed <= b.fixed)
  }

  /** `frontier.get()`: the index of the entry the queue hands out next,
      the first of the cheapest. */
  method Lowest<N(!new)>(frontier: seq<Entry<N>>) returns (j: nat)
    requires |frontier| > 0
    ensures j < |frontier|
    ensures forall k :: 0 <= k < |frontier| ==> NoLater(frontier[j], frontier[k])
    ensures forall k :: 0 <= k < j ==> !NoLater(frontier[k], frontier[j])
  {
    j := 0;
    var k := 1;
    while k < |frontier|
      invariant 1 <= k <= |frontier| && j < k
      invariant forall i :: 0 <= i < k ==> NoLater(frontier[j], frontier[i])
      invariant forall i :: 0 <= i < j ==> !NoLater(frontier[i], frontier[j])
    {
      if !NoLater(frontier[j], frontier[k]) {
        j := k;
      }
      k := k + 1;
    }
  }

  /** What the `for` loop over `transition_func(node)` pushes: an entry
      per neighbour not yet explored, in order. */
  function Pushed<N(==,!new)>(explored: Explored<N>, node: N, fixed: int, items: seq<(N, int)>, h: Heuristic<N>, goal: N): seq<Entry<N>>
    decreases |items|
  {
    if |items| == 0 then []
    else
      var front := Pushed(explored, node, fixed, items[..|items| - 1], h, goal);
      var (next, cost) := items[|items| - 1];
      if next in explored then front
      else front + [Entry(fixed + cost + h(next, goal), fixed + cost, next, Some(node))]
  }

  /** Explored neighbours are never pushed again, and every entry pushed
      is a neighbour's, at the popped node's fixed cost plus the edge's. */
  lemma {:induction false} PushedSound<N(!new)>(explored: Explored<N>, node: N, fixed: int, items: seq<(N, int)>, h: Heuristic<N>, goal: N)
    ensures forall e :: e in Pushed(explored, node, fixed, items, h, goal) ==>
              e.node !in explored && e.from == Some(node) && (e.node, e.fixed - fixed) in items &&
              e.total == e.fixed + h(e.node, goal)
    decreases |items|
  {
    if |items| > 0 {
      var front := items[..|items| - 1];
      var pushed := Pushed(explored, node, fixed, front, h, goal);
      PushedSound(explored, node, fixed, front, h, goal);
      var last := items[|items| - 1];
      var entry := Entry(fixed + last.1 + h(last.0, goal), fixed + last.1, last.0, Some(node));
      assert Pushed(explored, node, fixed, items, h, goal) == if last.0 in explored then pushed else pushed + [entry];
      assert forall z :: z in front ==> z in items;
      assert (entry.node, entry.fixed - fixed) == last;
    }
  }

  /** Every neighbour not yet explored is pushed, at the popped node's
      fixed cost plus the edge's. */
  lemma {:induction false} PushedComplete<N(!new)>(explored: Explored<N>, node: N, fixed: int, items: seq<(N, int)>, h: Heuristic<N>, goal: N)
    ensures forall x, c :: (x, c) in items && x !in explored ==>
              Entry(fixed + c + h(x, goal), fixed + c, x, Some(node)) in Pushed(explored, node, fixed, items, h, goal)
    decreases |items|
  {
    if |items| > 0 {
      var front := items[..|items| - 1];
      PushedComplete(explored, node, fixed, front, h, goal);
      forall x, c | (x, c) in items && x !in explored
        ensures Entry(fixed + c + h(x, goal), fixed + c, x, Some(node)) in Pushed(explored, node, fixed, items, h, goal)
      {
        if (x, c) != items[|items| - 1] {
          var k :| 0 <= k < |items| && items[k] == (x, c);
          assert front[k] == (x, c);
        }
      }
    }
  }

  /** The `for` loop over the neighbours of `node`, which was popped with
      fixed cost `fixed`. */
  method Expand<N(==,!new)>(frontier: seq<Entry<N>>, explored: Explored<N>, node: N, fixed: int, items: seq<(N, int)>, h: Heuristic<N>, goal: N)
    returns (next: seq<Entry<N>>)
    ensures next == frontier + Pushed(explored, node, fixed, items, h, goal)
  {
    next := frontier;
    for k := 0 to |items|
      invariant next == frontier + Pushed(explored, node, fixed, items[..k], h, goal)
    {
      var (neighbour, cost) := items[k];
      assert items[..k + 1][..k] == items[..k];
      if neighbour !in explored {
        next := next + [Entry(fixed + cost + h(neighbour, goal), fixed + cost, neighbour, Some(node))];
      }
    }
    assert items[..|items|] == items;
  }

  /** Lines 21-22: the node's explored entry is written when the node is
      new or the new fixed cost is strictly smaller, and only then. */
  function Explore<N(!new)>(explored: Explored<N>, node: N, fixed: int, from: Option<N>): (r: Explored<N>)
    ensures r.Keys == explored.Keys + {node}
    ensures node in explored && explored[node].0 <= fixed ==> r == explored
    ensures node !in explored || explored[node].0 > fixed ==> r[node] == (fixed, from)
    ensures forall n :: n in explored && n != node ==> r[n] == explored[n]
  {
    if node !in explored || explored[node].0 > fixed then explored[node := (fixed, from)] else explored
  }

  /** `list(reversed(path))`. */
  function Reverse<T>(s: seq<T>): (r: seq<T>)
    ensures |r| == |s| && forall i :: 0 <= i < |s| ==> r[i] == s[|s| - 1 - i]
  {
    if |s| == 0 then [] else [s[|s| - 1]] + Reverse(s[..|s| - 1])
  }

  // ---------------------------------------------------------------------
  // The invariant of the search loop

  datatype Problem<!N> = Problem(succ: Successors<N>, h: Heuristic<N>, start: N, goal: N)

  /** Every explored node lies in the finite node set and has been
      expanded. */
  ghost predicate Expanded<N(!new)>(pr: Problem<N>, nodes: set<N>, explored: Explored<N>) {
    forall x :: x in explored ==> x in nodes && pr.succ(x).Ok?
  }

  /** The parent pointer of an explored node: none for the start, else an
      explored node explored earlier, along an edge that accounts for the
      difference of their fixed costs. */
  ghost predicate Linked<N(!new)>(pr: Problem<N>, explored: Explored<N>, rank: map<N, nat>, x: N)
    requires x in explored && explored.Keys == rank.Keys
  {
    match explored[x].1
    case None => x == pr.start
    case Some(p) =>
      p in explored && rank[p] < rank[x] && pr.succ(p).Ok? && (x, explored[x].0 - explored[p].0) in pr.succ(p).value
  }

  ghost predicate Parents<N(!new)>(pr: Problem<N>, explored: Explored<N>, rank: map<N, nat>, counter: nat) {
    rank.Keys == explored.Keys &&
    (forall x :: x in rank ==> rank[x] < counter) &&
    (pr.start in explored ==> explored[pr.start] == (0, None)) &&
    (forall x {:trigger Linked(pr, explored, rank, x)} :: x in explored ==> Linked(pr, explored, rank, x))
  }

  /** Every frontier entry is the start's, or was pushed from an explored
      node along an edge, at no less than that node's fixed cost; an
      explored node's entries cost no less than its own. */
  ghost predicate FrontierOk<N(!new)>(pr: Problem<N>, nodes: set<N>, frontier: seq<Entry<N>>, explored: Explored<N>) {
    forall e :: e in frontier ==>
      e.node in nodes &&
      (e.from.None? ==> e.node == pr.start && e.fixed == 0 && e.total == 0) &&
      (e.from.Some? ==>
         e.total == e.fixed + pr.h(e.node, pr.goal) &&
         e.from.value in explored && pr.succ(e.from.value).Ok? &&
         var m := MinEdge(pr.succ(e.from.value).value, e.node);
         m.Some? && explored[e.from.value].0 + m.value <= e.fixed) &&
      (e.node in explored ==> explored[e.node].0 <= e.fixed)
  }

  /** Every edge from an explored node to an unexplored one has its entry,
      priced at the explored node's fixed cost, waiting in the frontier. */
  ghost predicate Pending<N(!new)>(pr: Problem<N>, frontier: seq<Entry<N>>, explored: Explored<N>) {
    forall p, x, c :: p in explored && pr.succ(p).Ok? && (x, c) in pr.succ(p).value && x !in explored ==>
      Entry(explored[p].0 + c + pr.h(x, pr.goal), explored[p].0 + c, x, Some(p)) in frontier
  }

  /** Under `Dijkstra`, no walk from the start to an explored node is
      cheaper than its fixed cost. */
  ghost predicate Settled<N(!new)>(pr: Problem<N>, explored: Explored<N>) {
    forall path, costs :: IsWalk(pr.succ, path, costs) && path[0] == pr.start && path[|path| - 1] in explored ==>
      explored[path[|path| - 1]].0 <= Sum(costs)
  }

  /** Until the start is explored, its own entry is all the frontier
      holds. */
  ghost predicate StartFirst<N(!new)>(pr: Problem<N>, frontier: seq<Entry<N>>, explored: Explored<N>) {
    pr.start !in explored ==> frontier == [Entry(0, 0, pr.start, None)]
  }

  ghost predicate Inv<N(!new)>(pr: Problem<N>, nodes: set<N>, frontier: seq<Entry<N>>, explored: Explored<N>, rank: map<N, nat>, counter: nat) {
    StartFirst(pr, frontier, explored) &&
    pr.goal !in explored &&
    Expanded(pr, nodes, explored) &&
    Parents(pr, explored, rank, counter) &&
    FrontierOk(pr, nodes, frontier, explored) &&
    Pending(pr, frontier, explored) &&
    (Dijkstra(pr.succ, pr.h) ==> Settled(pr, explored))
  }

  /** The entry the queue hands out next. */
  ghost predicate Cheapest<N(!new)>(frontier: seq<Entry<N>>, j: nat) {
    j < |frontier| && forall k :: 0 <= k < |frontier| ==> NoLater(frontier[j], frontier[k])
  }

  /** The frontier without its `j`-th entry still holds every other one. */
  lemma RemoveKeeps<N(!new)>(frontier: seq<Entry<N>>, j: nat, t: Entry<N>)
    requires j < |frontier| && t in frontier && t != frontier[j]
    ensures t in frontier[..j] + frontier[j + 1..]
  {
    var k :| 0 <= k < |frontier| && frontier[k] == t;
    if k < j {
      assert (frontier[..j] + frontier[j + 1..])[k] == t;
    } else {
      assert (frontier[..j] + frontier[j + 1..])[k - 1] == t;
    }
  }

  /** A popped entry for a node not yet explored is the start's own, or
      its fixed cost is its origin's plus the cost of an edge. */
  ghost predicate TightPop<N(!new)>(pr: Problem<N>, explored: Explored<N>, e: Entry<N>) {
    (e.from.None? ==> e.node == pr.start && e.fixed == 0) &&
    (e.from.Some? ==>
       var p := e.from.value;
       p in explored && pr.succ(p).Ok? && (e.node, e.fixed - explored[p].0) in pr.succ(p).value)
  }

  /** The first time a node leaves the queue, it leaves at the fixed cost of
      its tight entry, so its parent edge accounts for its fixed cost. */
  lemma FirstPop<N(!new)>(pr: Problem<N>, nodes: set<N>, frontier: seq<Entry<N>>, explored: Explored<N>, j: nat)
    requires FrontierOk(pr, nodes, frontier, explored) && Pending(pr, frontier, explored) && Cheapest(frontier, j)
    requires frontier[j].node !in explored
    ensures TightPop(pr, explored, frontier[j])
  {
    var e := frontier[j];
    assert e in frontier;
    if e.from.Some? {
      var p := e.from.value;
      var c := MinEdge(pr.succ(p).value, e.node).value;
      var t := Entry(explored[p].0 + c + pr.h(e.node, pr.goal), explored[p].0 + c, e.node, Some(p));
      assert t in frontier;
      var k :| 0 <= k < |frontier| && frontier[k] == t;
      assert NoLater(e, frontier[k]);
      assert e.fixed - explored[p].0 == c;
    }
  }

  /** Under `Dijkstra`, a node leaving the queue for the first time leaves
      at a fixed cost no walk from the start undercuts. */
  lemma PopBound<N(!new)>(pr: Problem<N>, nodes: set<N>, frontier: seq<Entry<N>>, explored: Explored<N>,
                          j: nat, path: seq<N>, costs: seq<int>)
    requires StartFirst(pr, frontier, explored) && FrontierOk(pr, nodes, frontier, explored) && Pending(pr, frontier, explored)
    requires Settled(pr, explored) && Cheapest(frontier, j) && Dijkstra(pr.succ, pr.h)
    requires frontier[j].node !in explored
    requires IsWalk(pr.succ, path, costs) && path[0] == pr.start && path[|path| - 1] == frontier[j].node
    ensures frontier[j].fixed <= Sum(costs)
  {
    var e := frontier[j];
    assert e in frontier;
    if pr.start !in explored {
      WalkCostNonNegative(pr.succ, pr.h, path, costs);
    } else {
      var i := FirstExit(path, explored.Keys);
      SettledPrefix(pr, explored, path, costs, i);
      ExitEntry(pr, frontier, explored, j, path, costs, i);
      DijkstraTotal(pr, nodes, frontier, explored, j);
      WalkSplit(pr.succ, pr.h, path, costs, i);
    }
  }

  /** Under `Settled`, the part of a walk from the start up to an explored
      node costs no less than that node's fixed cost. */
  lemma SettledPrefix<N(!new)>(pr: Problem<N>, explored: Explored<N>, path: seq<N>, costs: seq<int>, i: nat)
    requires Settled(pr, explored) && IsWalk(pr.succ, path, costs) && path[0] == pr.start
    requires i <= |costs| && path[i] in explored
    ensures explored[path[i]].0 <= Sum(costs[..i])
  {
    WalkPrefix(pr.succ, path, costs, i);
    var front := path[..i + 1];
    assert front[0] == pr.start && front[|front| - 1] == path[i];
  }

  /** The cheapest entry is no later than the entry pushed for the edge on
      which a walk leaves the explored nodes. */
  lemma ExitEntry<N(!new)>(pr: Problem<N>, frontier: seq<Entry<N>>, explored: Explored<N>, j: nat,
                           path: seq<N>, costs: seq<int>, i: nat)
    requires Pending(pr, frontier, explored) && Cheapest(frontier, j) && IsWalk(pr.succ, path, costs)
    requires i < |costs| && path[i] in explored && path[i + 1] !in explored
    ensures var fixed := explored[path[i]].0 + costs[i];
            NoLater(frontier[j], Entry(fixed + pr.h(path[i + 1], pr.goal), fixed, path[i + 1], Some(path[i])))
  {
    var u := path[i];
    assert pr.succ(u).Ok? && (path[i + 1], costs[i]) in pr.succ(u).value;
    var fixed := explored[u].0 + costs[i];
    var t := Entry(fixed + pr.h(path[i + 1], pr.goal), fixed, path[i + 1], Some(u));
    assert t in frontier;
    var k :| 0 <= k < |frontier| && frontier[k] == t;
  }

  /** Under `Dijkstra` an entry's total is its fixed cost. */
  lemma DijkstraTotal<N(!new)>(pr: Problem<N>, nodes: set<N>, frontier: seq<Entry<N>>, explored: Explored<N>, j: nat)
    requires FrontierOk(pr, nodes, frontier, explored) && Dijkstra(pr.succ, pr.h) && j < |frontier|
    ensures frontier[j].total == frontier[j].fixed
  {
    assert frontier[j] in frontier;
  }

  /** Under `Dijkstra`, a walk costs at least its first `i` edges and the
      next one. */
  lemma WalkSplit<N(!new)>(succ: Successors<N>, h: Heuristic<N>, path: seq<N>, costs: seq<int>, i: nat)
    requires Dijkstra(succ, h) && IsWalk(succ, path, costs) && i < |costs|
    ensures Sum(costs[..i]) + costs[i] <= Sum(costs)
  {
    var rest := costs[i + 1..];
    assert IsWalk(succ, path[i + 1..], rest) by {
      forall m | 0 <= m < |rest|
        ensures succ(path[i + 1..][m]).Ok? && (path[i + 1..][m + 1], rest[m]) in succ(path[i + 1..][m]).value
      {
        assert (path[i + 1 + m + 1], costs[i + 1 + m]) in succ(path[i + 1 + m]).value;
      }
    }
    WalkCostNonNegative(succ, h, path[i + 1..], rest);
    assert costs == costs[..i] + [costs[i]] + rest;
    SumAppend(costs[..i] + [costs[i]], rest);
    SumAppend(costs[..i], [costs[i]]);
    assert Sum([costs[i]]) == costs[i];
  }

  /** The edge on which a walk leaves the explored nodes has its entry in
      the frontier. */
  lemma ExitPending<N(!new)>(pr: Problem<N>, frontier: seq<Entry<N>>, explored: Explored<N>, path: seq<N>, costs: seq<int>, i: nat)
    requires Pending(pr, frontier, explored) && IsWalk(pr.succ, path, costs)
    requires i < |costs| && path[i] in explored && path[i + 1] !in explored
    ensures |frontier| > 0
  {
    var u := path[i];
    assert (path[i + 1], costs[i]) in pr.succ(u).value;
    assert Entry(explored[u].0 + costs[i] + pr.h(path[i + 1], pr.goal), explored[u].0 + costs[i], path[i + 1], Some(u)) in frontier;
  }

  /** With the frontier empty, the explored nodes are closed under edges,
      so no walk from the start reaches the goal. */
  lemma NoWayOut<N(!new)>(pr: Problem<N>, nodes: set<N>, explored: Explored<N>, rank: map<N, nat>, counter: nat)
    requires Inv(pr, nodes, [], explored, rank, counter)
    ensures forall path, costs :: IsWalk(pr.succ, path, costs) && path[0] == pr.start ==> path[|path| - 1] != pr.goal
  {
    forall path, costs | IsWalk(pr.succ, path, costs) && path[0] == pr.start
      ensures path[|path| - 1] != pr.goal
    {
      if path[|path| - 1] == pr.goal {
        assert pr.start in explored;
        var i := FirstExit(path, explored.Keys);
        ExitPending(pr, [], explored, path, costs, i);
        assert false;
      }
    }
  }

  /** `explored'` is `explored` with `e`'s node added at no more than
      `e`'s fixed cost, and nothing else changed. */
  ghost predicate Extends<N(!new)>(explored: Explored<N>, explored': Explored<N>, e: Entry<N>) {
    explored'.Keys == explored.Keys + {e.node} &&
    explored'[e.node].0 <= e.fixed &&
    (forall y :: y in explored ==> explored'[y] == explored[y]) &&
    (e.node in explored ==> explored' == explored) &&
    (e.node !in explored ==> explored'[e.node] == (e.fixed, e.from))
  }

  /** Popping a node leaves the explored entries of the other nodes, and
      of the node itself when it was explored already, as they were. */
  lemma PopKeeps<N(!new)>(pr: Problem<N>, nodes: set<N>, frontier: seq<Entry<N>>, explored: Explored<N>, j: nat)
    requires FrontierOk(pr, nodes, frontier, explored) && j < |frontier|
    ensures Extends(explored, Explore(explored, frontier[j].node, frontier[j].fixed, frontier[j].from), frontier[j])
  {
    assert frontier[j] in frontier;
  }

  /** Popping a node keeps the parent pointers sound: a newly explored
      node's pointer is its entry's origin. */
  lemma PopParents<N(!new)>(pr: Problem<N>, nodes: set<N>, frontier: seq<Entry<N>>, explored: Explored<N>, rank: map<N, nat>, counter: nat,
                            j: nat, explored': Explored<N>, rank': map<N, nat>)
    requires StartFirst(pr, frontier, explored) && Parents(pr, explored, rank, counter) && j < |frontier|
    requires frontier[j].node !in explored ==> TightPop(pr, explored, frontier[j])
    requires Extends(explored, explored', frontier[j])
    requires rank' == if frontier[j].node in explored then rank else rank[frontier[j].node := counter]
    ensures Parents(pr, explored', rank', counter + 1) && pr.start in explored'
  {
    var e := frontier[j];
    forall x | x in explored'
      ensures Linked(pr, explored', rank', x)
    {
      if x != e.node || e.node in explored {
        assert Linked(pr, explored, rank, x);
      }
    }
  }

  /** After a pass, every frontier entry still meets `FrontierOk`. */
  lemma StepFrontier<N(!new)>(pr: Problem<N>, nodes: set<N>, frontier: seq<Entry<N>>, explored: Explored<N>,
                              j: nat, explored': Explored<N>, items: seq<(N, int)>)
    requires StartFirst(pr, frontier, explored) && FrontierOk(pr, nodes, frontier, explored) && Cheapest(frontier, j) && Closed(pr.succ, nodes)
    requires pr.succ(frontier[j].node) == Ok(items) && Extends(explored, explored', frontier[j])
    ensures FrontierOk(pr, nodes, frontier[..j] + frontier[j + 1..] + Pushed(explored', frontier[j].node, frontier[j].fixed, items, pr.h, pr.goal), explored')
  {
    var e := frontier[j];
    assert e in frontier;
    var rest := frontier[..j] + frontier[j + 1..];
    var pushed := Pushed(explored', e.node, e.fixed, items, pr.h, pr.goal);
    PushedSound(explored', e.node, e.fixed, items, pr.h, pr.goal);
    assert forall t :: t in rest ==> t in frontier;
    forall t: Entry<N> | t in rest + pushed
      ensures t.node in nodes
      ensures t.node in explored' ==> explored'[t.node].0 <= t.fixed
      ensures t.from.Some? ==> t.from.value in explored' && MinEdge(pr.succ(t.from.value).value, t.node).Some? &&
                               explored'[t.from.value].0 + MinEdge(pr.succ(t.from.value).value, t.node).value <= t.fixed
    {
      if t in pushed {
        assert (t.node, t.fixed - e.fixed) in items;
      } else if t.node == e.node && e.node !in explored {
        assert pr.start in explored ==> t.from.Some? && e.from.Some?;
        var k :| 0 <= k < |frontier| && frontier[k] == t;
        assert NoLater(e, frontier[k]);
      }
    }
  }

  /** After a pass, every edge out of the explored nodes still has its
      entry waiting. */
  lemma StepPending<N(!new)>(pr: Problem<N>, nodes: set<N>, frontier: seq<Entry<N>>, explored: Explored<N>,
                             j: nat, explored': Explored<N>, items: seq<(N, int)>)
    requires Pending(pr, frontier, explored) && j < |frontier|
    requires pr.succ(frontier[j].node) == Ok(items) && Extends(explored, explored', frontier[j])
    ensures Pending(pr, frontier[..j] + frontier[j + 1..] + Pushed(explored', frontier[j].node, frontier[j].fixed, items, pr.h, pr.goal), explored')
  {
    var e := frontier[j];
    var pushed := Pushed(explored', e.node, e.fixed, items, pr.h, pr.goal);
    PushedComplete(explored', e.node, e.fixed, items, pr.h, pr.goal);
    forall p, x, c | p in explored' && pr.succ(p).Ok? && (x, c) in pr.succ(p).value && x !in explored'
      ensures Entry(explored'[p].0 + c + pr.h(x, pr.goal), explored'[p].0 + c, x, Some(p)) in frontier[..j] + frontier[j + 1..] + pushed
    {
      var t := Entry(explored'[p].0 + c + pr.h(x, pr.goal), explored'[p].0 + c, x, Some(p));
      if p == e.node && e.node !in explored {
        assert t in pushed;
      } else {
        assert t in frontier;
        RemoveKeeps(frontier, j, t);
      }
    }
  }

  /** Under `Dijkstra`, a pass keeps every explored node's fixed cost a
      least walk cost. */
  lemma StepSettled<N(!new)>(pr: Problem<N>, nodes: set<N>, frontier: seq<Entry<N>>, explored: Explored<N>, j: nat, explored': Explored<N>)
    requires StartFirst(pr, frontier, explored) && FrontierOk(pr, nodes, frontier, explored) && Pending(pr, frontier, explored)
    requires Settled(pr, explored) && Cheapest(frontier, j) && Dijkstra(pr.succ, pr.h)
    requires Extends(explored, explored', frontier[j])
    ensures Settled(pr, explored')
  {
    forall path, costs | IsWalk(pr.succ, path, costs) && path[0] == pr.start && path[|path| - 1] in explored'
      ensures explored'[path[|path| - 1]].0 <= Sum(costs)
    {
      if path[|path| - 1] !in explored {
        PopBound(pr, nodes, frontier, explored, j, path, costs);
      }
    }
  }

  /** One pass of the loop for a node other than the goal keeps the
      invariant: the popped node's explored entry, then the pushes. */
  lemma StepKeeps<N(!new)>(pr: Problem<N>, nodes: set<N>, frontier: seq<Entry<N>>, explored: Explored<N>, rank: map<N, nat>, counter: nat,
                           j: nat, items: seq<(N, int)>)
    requires Inv(pr, nodes, frontier, explored, rank, counter) && Cheapest(frontier, j) && Closed(pr.succ, nodes)
    requires frontier[j].node != pr.goal && pr.succ(frontier[j].node) == Ok(items)
    ensures var e := frontier[j];
            var explored' := Explore(explored, e.node, e.fixed, e.from);
            var rank' := if e.node in explored then rank else rank[e.node := counter];
            var frontier' := frontier[..j] + frontier[j + 1..] + Pushed(explored', e.node, e.fixed, items, pr.h, pr.goal);
            Inv(pr, nodes, frontier', explored', rank', counter + 1)
  {
    var e := frontier[j];
    assert e in frontier;
    var explored' := Explore(explored, e.node, e.fixed, e.from);
    var rank' := if e.node in explored then rank else rank[e.node := counter];
    PopKeeps(pr, nodes, frontier, explored, j);
    if e.node !in explored {
      FirstPop(pr, nodes, frontier, explored, j);
    }
    PopParents(pr, nodes, frontier, explored, rank, counter, j, explored', rank');
    StepFrontier(pr, nodes, frontier, explored, j, explored', items);
    StepPending(pr, nodes, frontier, explored, j, explored', items);
    if Dijkstra(pr.succ, pr.h) {
      StepSettled(pr, nodes, frontier, explored, j, explored');
    }
  }

  // ---------------------------------------------------------------------
  // The search

  /** `search(transition_func, start, goal, cost_heuristic)`.

      On success the result is the goal's fixed cost and a walk from the
      start to the goal whose edge costs add up to it; with the zero
      estimate and no negative cost no walk is cheaper. When the frontier
      runs dry the call raises, and then no walk leads from the start to
      the goal. An exception of `transition_func` propagates. `nodes` is
      a finite set of nodes the search cannot leave. */
  method Search<N(==,!new)>(succ: Successors<N>, h: Heuristic<N>, start: N, goal: N, ghost nodes: set<N>)
    returns (r: Result<(int, seq<N>), Exc>)
    requires start in nodes && Closed(succ, nodes)
    ensures r.Ok? ==>
              var (cost, path) := r.value;
              |path| >= 1 && path[0] == start && path[|path| - 1] == goal &&
              exists costs :: IsWalk(succ, path, costs) && Sum(costs) == cost
    ensures r.Ok? && Dijkstra(succ, h) ==>
              forall path, costs :: IsWalk(succ, path, costs) && path[0] == start && path[|path| - 1] == goal ==>
                r.value.0 <= Sum(costs)
    ensures r.Ok? && start == goal ==> r.value == (0, [start])
    ensures r.Err? ==>
              (r.error == GeneralException &&
               forall path, costs :: IsWalk(succ, path, costs) && path[0] == start ==> path[|path| - 1] != goal) ||
              (exists n :: n in nodes && succ(n) == Err(r.error))
  {
    ghost var pr := Problem(succ, h, start, goal);
    var frontier := [Entry(0, 0, start, None)];
    var explored: Explored<N> := map[];
    ghost var rank: map<N, nat> := map[];
    ghost var counter: nat := 0;
    while true
      invariant Inv(pr, nodes, frontier, explored, rank, counter)
      decreases |nodes - explored.Keys|, Stale(frontier, explored)
    {
      if |frontier| == 0 {
        NoWayOut(pr, nodes, explored, rank, counter);
        return Err(GeneralException);
      }
      var j := Lowest(frontier);
      var e := frontier[j];
      ghost var explored0, rank0, counter0 := explored, rank, counter;
      if e.node !in explored {
        rank := rank[e.node := counter];
      }
      counter := counter + 1;
      explored := Explore(explored, e.node, e.fixed, e.from);
      Popped(pr, nodes, frontier, explored0, rank0, counter0, j, explored, rank);
      if e.node == goal {
        var path := Rebuild(pr, goal, explored, rank, counter);
        return Ok((e.fixed, path));
      }
      var items := succ(e.node);
      if items.Err? {
        return Err(items.error);
      }
      StepKeeps(pr, nodes, frontier, explored0, rank0, counter0, j, items.value);
      if e.node in explored0 {
        StaleStep(frontier, j, explored0, explored, items.value, h, goal);
      } else {
        FewerLeft(nodes, explored0, explored, e.node);
      }
      frontier := Expand(frontier[..j] + frontier[j + 1..], explored, e.node, e.fixed, items.value, h, goal);
    }
  }

  /** What popping the cheapest entry does to the explored nodes: they
      grow by the entry's node, the parent pointers stay sound, and the
      first time a node is popped its fixed cost is final. */
  lemma Popped<N(!new)>(pr: Problem<N>, nodes: set<N>, frontier: seq<Entry<N>>, explored: Explored<N>, rank: map<N, nat>, counter: nat,
                        j: nat, explored': Explored<N>, rank': map<N, nat>)
    requires Inv(pr, nodes, frontier, explored, rank, counter) && Cheapest(frontier, j)
    requires explored' == Explore(explored, frontier[j].node, frontier[j].fixed, frontier[j].from)
    requires rank' == if frontier[j].node in explored then rank else rank[frontier[j].node := counter]
    ensures Extends(explored, explored', frontier[j]) && Parents(pr, explored', rank', counter + 1)
    ensures frontier[j].node in nodes
    ensures frontier[j].node == pr.goal ==> explored'[pr.goal].0 == frontier[j].fixed
    ensures frontier[j].node == pr.goal && Dijkstra(pr.succ, pr.h) ==>
              forall path, costs :: IsWalk(pr.succ, path, costs) && path[0] == pr.start && path[|path| - 1] == pr.goal ==>
                frontier[j].fixed <= Sum(costs)
  {
    var e := frontier[j];
    assert e in frontier;
    PopKeeps(pr, nodes, frontier, explored, j);
    if e.node !in explored {
      FirstPop(pr, nodes, frontier, explored, j);
    }
    PopParents(pr, nodes, frontier, explored, rank, counter, j, explored', rank');
    if e.node == pr.goal && Dijkstra(pr.succ, pr.h) {
      forall path, costs | IsWalk(pr.succ, path, costs) && path[0] == pr.start && path[|path| - 1] == pr.goal
        ensures e.fixed <= Sum(costs)
      {
        PopBound(pr, nodes, frontier, explored, j, path, costs);
      }
    }
  }

  /** Exploring a new node of the finite set leaves fewer to explore. */
  lemma FewerLeft<N(!new)>(nodes: set<N>, explored: Explored<N>, explored': Explored<N>, x: N)
    requires x in nodes && x !in explored && explored'.Keys == explored.Keys + {x}
    ensures |nodes - explored'.Keys| < |nodes - explored.Keys|
  {
    assert nodes - explored.Keys == (nodes - explored'.Keys) + {x};
    assert x !in nodes - explored'.Keys;
  }

  /** The number of frontier entries whose node is already explored. */
  ghost function Stale<N(!new)>(frontier: seq<Entry<N>>, explored: Explored<N>): nat {
    if |frontier| == 0 then 0
    else Stale(frontier[..|frontier| - 1], explored) + (if frontier[|frontier| - 1].node in explored then 1 else 0)
  }

  lemma {:induction false} StaleAppend<N(!new)>(a: seq<Entry<N>>, b: seq<Entry<N>>, explored: Explored<N>)
    ensures Stale(a + b, explored) == Stale(a, explored) + Stale(b, explored)
    decreases |b|
  {
    if |b| > 0 {
      assert (a + b)[..|a + b| - 1] == a + b[..|b| - 1] && (a + b)[|a + b| - 1] == b[|b| - 1];
      StaleAppend(a, b[..|b| - 1], explored);
    } else {
      assert a + b == a;
    }
  }

  lemma {:induction false} StaleNone<N(!new)>(a: seq<Entry<N>>, explored: Explored<N>)
    requires forall e :: e in a ==> e.node !in explored
    ensures Stale(a, explored) == 0
    decreases |a|
  {
    if |a| > 0 {
      assert forall e :: e in a[..|a| - 1] ==> e in a;
      StaleNone(a[..|a| - 1], explored);
    }
  }

  /** The loop's measure: popping a new node explores one more of the
      finitely many nodes; popping an explored one removes a stale entry
      and pushes only fresh ones. */
  lemma StaleStep<N(!new)>(frontier: seq<Entry<N>>, j: nat, explored: Explored<N>, explored': Explored<N>, items: seq<(N, int)>, h: Heuristic<N>, goal: N)
    requires j < |frontier| && frontier[j].node in explored && explored' == explored
    ensures Stale(frontier[..j] + frontier[j + 1..] + Pushed(explored', frontier[j].node, frontier[j].fixed, items, h, goal), explored') <
            Stale(frontier, explored)
  {
    var e := frontier[j];
    var pushed := Pushed(explored', e.node, e.fixed, items, h, goal);
    PushedSound(explored', e.node, e.fixed, items, h, goal);
    StaleNone(pushed, explored);
    assert frontier == frontier[..j] + [e] + frontier[j + 1..];
    StaleAppend(frontier[..j] + [e], frontier[j + 1..], explored);
    StaleAppend(frontier[..j], [e], explored);
    StaleAppend(frontier[..j], frontier[j + 1..], explored);
    StaleAppend(frontier[..j] + frontier[j + 1..], pushed, explored);
    assert Stale([e], explored) == 1 by {
      assert [e][..0] == [];
    }
  }

  /** Lines 24-31: following the parents from the goal back to the start,
      then reversing. The path is a walk whose edge costs add up to the
      goal's fixed cost. */
  method Rebuild<N(==,!new)>(ghost pr: Problem<N>, goal: N, explored: Explored<N>, ghost rank: map<N, nat>, ghost counter: nat)
    returns (path: seq<N>)
    requires Parents(pr, explored, rank, counter) && goal == pr.goal && goal in explored
    ensures |path| >= 1 && path[0] == pr.start && path[|path| - 1] == goal
    ensures exists costs :: IsWalk(pr.succ, path, costs) && Sum(costs) == explored[goal].0
    ensures pr.start == goal ==> path == [goal]
  {
    var node := goal;
    var back := [node];
    ghost var costs: seq<int> := [];
    while explored[node].1.Some?
      invariant node in explored && |back| >= 1 && back[0] == goal && back[|back| - 1] == node
      invariant IsWalk(pr.succ, Reverse(back), costs) && Sum(costs) == explored[goal].0 - explored[node].0
      invariant pr.start == goal ==> back == [goal]
      decreases rank[node]
    {
      var from := explored[node].1.value;
      assert Linked(pr, explored, rank, node);
      assert Reverse(back + [from]) == [from] + Reverse(back) by {
        assert (back + [from])[..|back|] == back;
      }
      WalkCons(pr.succ, from, explored[node].0 - explored[from].0, Reverse(back), costs);
      costs := [explored[node].0 - explored[from].0] + costs;
      back := back + [from];
      node := from;
    }
    assert Linked(pr, explored, rank, node);
    path := Reverse(back);
  }
}
