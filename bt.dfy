/** Behaviour trees (pychology/behavior_trees.py). A tree is a value: the
    fields the Python nodes update per call (`Counter.counter`,
    `Chain.active_child`, `Priorities.active_child`,
    `DebugPrintOnEnter.fresh`) are fields of the node value, and a call
    returns the node's new value. The entity the actions act on is threaded
    through the calls, and `calls` counts how many leaf actions ran. */
module BehaviorTrees {
  import opened Common

  /** `NodeState`. */
  datatype Status = Failed | Active | Done

  /** One node class of behavior_trees.py per constructor. The classes that
      differ only in their `reaction` (`ReturnActiveAlways`,
      `FailOnPrecondition`, `DoneOnPostcounter`, ...) share a constructor
      that carries the reaction; the ReturnXOnY classes carry the state they
      rewrite in `on`. Printing is a no-op, so the debug nodes keep their
      text only. */
  datatype Node<!E, !A> =
    | Action(func: (E, A) -> (Status, E))
    | DebugPrint(text: string, tree: Node<E, A>)
    | DebugPrintOnEnter(text: string, tree: Node<E, A>, unentered: bool)
    | DebugPrintOnReset(text: string, tree: Node<E, A>)
    | RewriteArguments(rewrite: A -> A, tree: Node<E, A>)
    | ReturnAlways(reaction: Status, tree: Node<E, A>)
    | ReturnOnValue(on: Status, reaction: Status, tree: Node<E, A>)
    | Precondition(condition: (E, A) -> bool, reaction: Status, tree: Node<E, A>)
    | Postcondition(condition: (E, A) -> bool, reaction: Status, tree: Node<E, A>)
    | Precounter(timeout: int, counter: int, reaction: Status, tree: Node<E, A>)
    | Postcounter(timeout: int, counter: int, reaction: Status, tree: Node<E, A>)
    | Chain(children: seq<Node<E, A>>, active: Option<nat>)
    | Priorities(children: seq<Node<E, A>>, active: Option<nat>)

  /** The result of calling a node: what it returns, its new value, the
      entity afterwards and the number of leaf actions that ran. */
  datatype Ran<!E, !A> = Ran(status: Status, node: Node<E, A>, entity: E, calls: nat)

  /** The result of one pass of a Chain or Priorities loop over its
      children: the returned state, the children's new values, the new
      `active_child`, the entity afterwards and the leaf actions run. */
  datatype Sweep<!E, !A> = Sweep(status: Status, kids: seq<Node<E, A>>, active: Option<nat>, entity: E, calls: nat)

  // ---------------------------------------------------------------------
  // Constructors as the Python classes set their fields up

  function NewDebugPrintOnEnter<E, A>(text: string, tree: Node<E, A>): Node<E, A> {
    DebugPrintOnEnter(text, tree, true)
  }

  function NewPrecounter<E, A>(timeout: int, reaction: Status, tree: Node<E, A>): Node<E, A> {
    Precounter(timeout, 0, reaction, tree)
  }

  function NewPostcounter<E, A>(timeout: int, reaction: Status, tree: Node<E, A>): Node<E, A> {
    Postcounter(timeout, 0, reaction, tree)
  }

  function NewChain<E, A>(children: seq<Node<E, A>>): Node<E, A> {
    Chain(children, None)
  }

  function NewPriorities<E, A>(children: seq<Node<E, A>>): Node<E, A> {
    Priorities(children, None)
  }

  // ---------------------------------------------------------------------
  // Calling a node

  /** `node(entity, *args)`. */
  function Tick<E, A>(n: Node<E, A>, e: E, a: A): Ran<E, A>
    decreases n, 1, 0
  {
    match n
    case Action(f) =>
      var out := f(e, a);
      Ran(out.0, n, out.1, 1)
    case DebugPrint(text, c) =>
      var r := Tick(c, e, a);
      Ran(r.status, DebugPrint(text, r.node), r.entity, r.calls)
    case DebugPrintOnEnter(text, c, _) =>
      var r := Tick(c, e, a);
      Ran(r.status, DebugPrintOnEnter(text, r.node, false), r.entity, r.calls)
    case DebugPrintOnReset(text, c) =>
      var r := Tick(c, e, a);
      Ran(r.status, DebugPrintOnReset(text, r.node), r.entity, r.calls)
    case RewriteArguments(f, c) =>
      var r := Tick(c, e, f(a));
      Ran(r.status, RewriteArguments(f, r.node), r.entity, r.calls)
    case ReturnAlways(v, c) =>
      var r := Tick(c, e, a);
      Ran(v, ReturnAlways(v, r.node), r.entity, r.calls)
    case ReturnOnValue(on, v, c) =>
      var r := Tick(c, e, a);
      Ran(if r.status == on then v else r.status, ReturnOnValue(on, v, r.node), r.entity, r.calls)
    case Precondition(cond, v, c) =>
      if cond(e, a) then Ran(v, n, e, 0)
      else
        var r := Tick(c, e, a);
        Ran(r.status, Precondition(cond, v, r.node), r.entity, r.calls)
    case Postcondition(cond, v, c) =>
      var r := Tick(c, e, a);
      Ran(if cond(r.entity, a) then v else r.status, Postcondition(cond, v, r.node), r.entity, r.calls)
    case Precounter(timeout, k, v, c) =>
      if k + 1 == timeout then Ran(v, Precounter(timeout, k + 1, v, c), e, 0)
      else
        var r := Tick(c, e, a);
        Ran(r.status, Precounter(timeout, k + 1, v, r.node), r.entity, r.calls)
    case Postcounter(timeout, k, v, c) =>
      var r := Tick(c, e, a);
      Ran(if k + 1 == timeout then v else r.status, Postcounter(timeout, k + 1, v, r.node), r.entity, r.calls)
    case Chain(cs, act) =>
      var w := ChainFrom(n, cs, if act.Some? then act.value else 0, e, a);
      Ran(w.status, Chain(w.kids, w.active), w.entity, w.calls)
    case Priorities(cs, _) =>
      var w := PrioritiesFrom(n, cs, 0, e, a);
      Ran(w.status, Priorities(w.kids, w.active), w.entity, w.calls)
  }

  /** The loop of `Chain.__call__` from child `i` on; `kids` are the
      children's values so far. A FAILED child is reset and stays the
      active one, an ACTIVE child stays the active one, a DONE child is
      reset and the next one runs; after the last DONE the active child is
      cleared. */
  function ChainFrom<E, A>(n: Node<E, A>, kids: seq<Node<E, A>>, i: nat, e: E, a: A): (w: Sweep<E, A>)
    requires n.Chain? && |kids| == |n.children|
    ensures |w.kids| == |kids|
    decreases n, 0, |n.children| - i
  {
    if i >= |n.children| then Sweep(Done, kids, None, e, 0)
    else
      var r := Tick(n.children[i], e, a);
      match r.status
      case Failed => Sweep(Failed, kids[i := Reset(r.node)], Some(i), r.entity, r.calls)
      case Active => Sweep(Active, kids[i := r.node], Some(i), r.entity, r.calls)
      case Done =>
        var w := ChainFrom(n, kids[i := Reset(r.node)], i + 1, r.entity, a);
        w.(calls := r.calls + w.calls)
  }

  /** The loop of `Priorities.__call__` from child `i` on. The first child
      that does not fail becomes the active one, and the previously active
      child, if different, is reset; when every child fails the previously
      active child is reset and the active child is cleared. */
  function PrioritiesFrom<E, A>(n: Node<E, A>, kids: seq<Node<E, A>>, i: nat, e: E, a: A): (w: Sweep<E, A>)
    requires n.Priorities? && |kids| == |n.children|
    ensures |w.kids| == |kids|
    decreases n, 0, |n.children| - i
  {
    if i >= |n.children| then Sweep(Failed, ResetPrevious(kids, n.active), None, e, 0)
    else
      var r := Tick(n.children[i], e, a);
      if r.status == Failed then
        var w := PrioritiesFrom(n, kids[i := r.node], i + 1, r.entity, a);
        w.(calls := r.calls + w.calls)
      else
        var next := kids[i := r.node];
        Sweep(r.status, if n.active == Some(i) then next else ResetPrevious(next, n.active), Some(i), r.entity, r.calls)
  }

  /** `self.children[self.active_child].reset()` when there is an active
      child. An index out of range, which `WellFormed` rules out, is left
      alone. */
  function ResetPrevious<E, A>(kids: seq<Node<E, A>>, prev: Option<nat>): (r: seq<Node<E, A>>)
    ensures |r| == |kids|
  {
    if prev.Some? && prev.value < |kids| then kids[prev.value := Reset(kids[prev.value])] else kids
  }

  /** The entity after children `i` to `k - 1` each ran, in order, on the
      entity the previous one left, provided every one of them answered
      `s`; None as soon as one answered anything else. */
  function RanThrough<E, A>(cs: seq<Node<E, A>>, s: Status, i: nat, k: nat, e: E, a: A): Option<E>
    requires i <= k <= |cs|
    decreases k - i
  {
    if i == k then Some(e)
    else
      var r := Tick(cs[i], e, a);
      if r.status == s then RanThrough(cs, s, i + 1, k, r.entity, a) else None
  }

  /** `node.reset()`. `Priorities` inherits `Multinode.reset`, which resets
      the children but keeps `active_child`. */
  function Reset<E, A>(n: Node<E, A>): Node<E, A> {
    match n
    case Action(_) => n
    case DebugPrint(text, c) => DebugPrint(text, Reset(c))
    case DebugPrintOnEnter(text, c, _) => DebugPrintOnEnter(text, Reset(c), true)
    case DebugPrintOnReset(text, c) => DebugPrintOnReset(text, Reset(c))
    case RewriteArguments(f, c) => RewriteArguments(f, Reset(c))
    case ReturnAlways(v, c) => ReturnAlways(v, Reset(c))
    case ReturnOnValue(on, v, c) => ReturnOnValue(on, v, Reset(c))
    case Precondition(cond, v, c) => Precondition(cond, v, Reset(c))
    case Postcondition(cond, v, c) => Postcondition(cond, v, Reset(c))
    case Precounter(timeout, _, v, c) => Precounter(timeout, 0, v, Reset(c))
    case Postcounter(timeout, _, v, c) => Postcounter(timeout, 0, v, Reset(c))
    case Chain(cs, _) => Chain(seq(|cs|, j requires 0 <= j < |cs| => Reset(cs[j])), None)
    case Priorities(cs, act) => Priorities(seq(|cs|, j requires 0 <= j < |cs| => Reset(cs[j])), act)
  }

  /** Calling a node `k` times with the same arguments. */
  function TickTimes<E, A>(n: Node<E, A>, e: E, a: A, k: nat): (Node<E, A>, E)
    decreases k
  {
    if k == 0 then (n, e)
    else
      var r := Tick(n, e, a);
      TickTimes(r.node, r.entity, a, k - 1)
  }

  // ---------------------------------------------------------------------
  // Invariants of node values

  /** Every `active_child` indexes a child, so the Python code never raises
      IndexError on it. */
  ghost predicate WellFormed<E, A>(n: Node<E, A>) {
    match n
    case Action(_) => true
    case Chain(cs, act) =>
      (act.Some? ==> act.value < |cs|) && forall j :: 0 <= j < |cs| ==> WellFormed(cs[j])
    case Priorities(cs, act) =>
      (act.Some? ==> act.value < |cs|) && forall j :: 0 <= j < |cs| ==> WellFormed(cs[j])
    case _ => WellFormed(n.tree)
  }

  /** The state a reset leaves a node in: counters at zero, `fresh` set,
      no active Chain child, and the same for every descendant. */
  ghost predicate Fresh<E, A>(n: Node<E, A>) {
    match n
    case Action(_) => true
    case DebugPrintOnEnter(_, c, unentered) => unentered && Fresh(c)
    case Precounter(_, k, _, c) => k == 0 && Fresh(c)
    case Postcounter(_, k, _, c) => k == 0 && Fresh(c)
    case Chain(cs, act) => act.None? && forall j :: 0 <= j < |cs| ==> Fresh(cs[j])
    case Priorities(cs, _) => forall j :: 0 <= j < |cs| ==> Fresh(cs[j])
    case _ => Fresh(n.tree)
  }

  // ---------------------------------------------------------------------
  // The loops, as the Python code runs them

  /** The `for` loop of `Chain.__call__`, starting at `active_child`. */
  method ChainCall<E, A>(n: Node<E, A>, e: E, a: A) returns (w: Sweep<E, A>)
    requires n.Chain?
    ensures w == ChainFrom(n, n.children, if n.active.Some? then n.active.value else 0, e, a)
  {
    var i := if n.active.Some? then n.active.value else 0;
    var kids := n.children;
    var entity := e;
    var calls: nat := 0;
    while i < |n.children|
      invariant |kids| == |n.children|
      invariant ChainFrom(n, kids, i, entity, a).(calls := calls + ChainFrom(n, kids, i, entity, a).calls)
                == ChainFrom(n, n.children, if n.active.Some? then n.active.value else 0, e, a)
      decreases |n.children| - i
    {
      var r := Tick(n.children[i], entity, a);
      if r.status == Failed {
        return Sweep(Failed, kids[i := Reset(r.node)], Some(i), r.entity, calls + r.calls);
      } else if r.status == Active {
        return Sweep(Active, kids[i := r.node], Some(i), r.entity, calls + r.calls);
      }
      kids := kids[i := Reset(r.node)];
      i := i + 1;
      entity := r.entity;
      calls := calls + r.calls;
    }
    w := Sweep(Done, kids, None, entity, calls);
  }

  /** The `for` loop of `Priorities.__call__` and the reset after it. */
  method PrioritiesCall<E, A>(n: Node<E, A>, e: E, a: A) returns (w: Sweep<E, A>)
    requires n.Priorities?
    ensures w == PrioritiesFrom(n, n.children, 0, e, a)
  {
    var i := 0;
    var kids := n.children;
    var entity := e;
    var calls: nat := 0;
    while i < |n.children|
      invariant |kids| == |n.children|
      invariant PrioritiesFrom(n, kids, i, entity, a).(calls := calls + PrioritiesFrom(n, kids, i, entity, a).calls)
                == PrioritiesFrom(n, n.children, 0, e, a)
      decreases |n.children| - i
    {
      var r := Tick(n.children[i], entity, a);
      kids := kids[i := r.node];
      if r.status != Failed {
        if n.active != Some(i) {
          kids := ResetPrevious(kids, n.active);
        }
        return Sweep(r.status, kids, Some(i), r.entity, calls + r.calls);
      }
      i := i + 1;
      entity := r.entity;
      calls := calls + r.calls;
    }
    w := Sweep(Failed, ResetPrevious(kids, n.active), None, entity, calls);
  }

  /** The `for` loop of `Multinode.reset` over the children. */
  method ResetChildren<E, A>(cs: seq<Node<E, A>>) returns (r: seq<Node<E, A>>)
    ensures |r| == |cs| && forall j :: 0 <= j < |cs| ==> r[j] == Reset(cs[j])
  {
    r := cs;
    var i := 0;
    while i < |cs|
      invariant 0 <= i <= |cs| && |r| == |cs|
      invariant forall j :: 0 <= j < i ==> r[j] == Reset(cs[j])
      invariant forall j :: i <= j < |cs| ==> r[j] == cs[j]
    {
      r := r[i := Reset(r[i])];
      i := i + 1;
    }
  }

  /** `BehaviorTree`: the root wrapper, with the default `done` and
      `failed` hooks. */
  class BehaviorTree<E, A> {
    var tree: Node<E, A>

    /** The tree is reset when the wrapper is built. */
    constructor(t: Node<E, A>)
      ensures tree == Reset(t) && Fresh(tree)
    {
      ResetFresh(t);
      tree := Reset(t);
    }

    /** `__call__`: a DONE or FAILED run resets the tree before the hook
        answers; any other result is ACTIVE. */
    method Call(e: E, a: A) returns (r: Status, e': E)
      modifies this
      ensures var ran := Tick(old(tree), e, a);
              r == ran.status && e' == ran.entity &&
              tree == (if ran.status == Active then ran.node else Reset(ran.node))
      ensures r != Active ==> Fresh(tree)
      ensures old(WellFormed(tree)) ==> WellFormed(tree)
    {
      var ran := Tick(tree, e, a);
      if WellFormed(tree) {
        TickWellFormed(tree, e, a);
      }
      e' := ran.entity;
      if ran.status == Done {
        ResetFresh(ran.node);
        if WellFormed(ran.node) {
          ResetWellFormed(ran.node);
        }
        tree := Reset(ran.node);
        r := Done;
      } else if ran.status == Failed {
        ResetFresh(ran.node);
        if WellFormed(ran.node) {
          ResetWellFormed(ran.node);
        }
        tree := Reset(ran.node);
        r := Failed;
      } else {
        tree := ran.node;
        r := Active;
      }
    }

    /** `reset`. */
    method ResetTree()
      modifies this
      ensures tree == Reset(old(tree)) && Fresh(tree)
    {
      ResetFresh(tree);
      tree := Reset(tree);
    }
  }

  // ---------------------------------------------------------------------
  // What the decorators do

  /** `DebugPrint`, `DebugPrintOnEnter` and `DebugPrintOnReset` (which uses
      `Decorator.__call__`) return what their child returns, with the
      child run once on the same arguments. */
  lemma PassThrough<E, A>(n: Node<E, A>, e: E, a: A)
    requires n.DebugPrint? || n.DebugPrintOnEnter? || n.DebugPrintOnReset?
    ensures var r := Tick(n, e, a); var c := Tick(n.tree, e, a);
            r.status == c.status && r.entity == c.entity && r.calls == c.calls
    ensures n.DebugPrintOnEnter? ==> !Tick(n, e, a).node.unentered
  {
  }

  /** `RewriteArguments` runs its child once on the same entity and the
      rewritten arguments, and returns what the child returns. */
  lemma RewritePassesEntity<E, A>(f: A -> A, c: Node<E, A>, e: E, a: A)
    ensures var r := Tick(RewriteArguments(f, c), e, a); var rc := Tick(c, e, f(a));
            r.status == rc.status && r.entity == rc.entity && r.calls == rc.calls
  {
  }

  /** `ReturnActiveAlways`, `ReturnDoneAlways`, `ReturnFailedAlways`: the
      child runs exactly once and the result is the fixed state, whatever
      the child returned. */
  lemma AlwaysFixed<E, A>(v: Status, c: Node<E, A>, e: E, a: A)
    ensures var r := Tick(ReturnAlways(v, c), e, a); var rc := Tick(c, e, a);
            r.status == v && r.entity == rc.entity && r.calls == rc.calls && r.node == ReturnAlways(v, rc.node)
  {
  }

  /** The ReturnXOnY decorators rewrite the one selected state and pass the
      other two through. */
  lemma OnValueRewrites<E, A>(on: Status, v: Status, c: Node<E, A>, e: E, a: A)
    ensures var r := Tick(ReturnOnValue(on, v, c), e, a); var rc := Tick(c, e, a);
            (rc.status == on ==> r.status == v) && (rc.status != on ==> r.status == rc.status) &&
            r.entity == rc.entity && r.calls == rc.calls
  {
  }

  /** A precondition that holds answers with the reaction without running
      the child and without changing anything; one that does not hold runs
      the child and returns what it returns. */
  lemma PreconditionShortCircuits<E, A>(cond: (E, A) -> bool, v: Status, c: Node<E, A>, e: E, a: A)
    ensures cond(e, a) ==> Tick(Precondition(cond, v, c), e, a) == Ran(v, Precondition(cond, v, c), e, 0)
    ensures !cond(e, a) ==> var r := Tick(Precondition(cond, v, c), e, a); var rc := Tick(c, e, a);
              r.status == rc.status && r.entity == rc.entity && r.calls == rc.calls
  {
  }

  /** A postcondition always runs the child, then answers with the reaction
      when the condition holds on the entity the child left. */
  lemma PostconditionOverrides<E, A>(cond: (E, A) -> bool, v: Status, c: Node<E, A>, e: E, a: A)
    ensures var r := Tick(Postcondition(cond, v, c), e, a); var rc := Tick(c, e, a);
            r.status == (if cond(rc.entity, a) then v else rc.status) &&
            r.entity == rc.entity && r.calls == rc.calls
  {
  }

  /** Both counters count every call. A Precounter that reaches its timeout
      answers with the reaction without running the child; at any other
      count it returns what the child returns. A Postcounter always runs the
      child and overrides its result only at the timeout. */
  lemma CounterTick<E, A>(n: Node<E, A>, e: E, a: A)
    requires n.Precounter? || n.Postcounter?
    ensures var r := Tick(n, e, a); var rc := Tick(n.tree, e, a);
            r.node.counter == n.counter + 1 &&
            (n.Precounter? && n.counter + 1 == n.timeout ==> r.status == n.reaction && r.calls == 0 && r.entity == e) &&
            (n.Postcounter? ==> r.calls == rc.calls && r.entity == rc.entity) &&
            (n.Postcounter? && n.counter + 1 == n.timeout ==> r.status == n.reaction) &&
            (n.counter + 1 != n.timeout ==> r.status == rc.status && r.calls == rc.calls)
  {
  }

  /** After `k` calls a counter has counted `k` more and kept its timeout
      and reaction, so the reaction fires only at the one call where the
      count equals the timeout. */
  lemma {:induction false} CounterCounts<E, A>(n: Node<E, A>, e: E, a: A, k: nat)
    requires n.Precounter? || n.Postcounter?
    decreases k
    ensures var m := TickTimes(n, e, a, k).0;
            (m.Precounter? <==> n.Precounter?) && (m.Postcounter? <==> n.Postcounter?) &&
            m.counter == n.counter + k && m.timeout == n.timeout && m.reaction == n.reaction
  {
    if k > 0 {
      var r := Tick(n, e, a);
      CounterCounts(r.node, r.entity, a, k - 1);
    }
  }

  // ---------------------------------------------------------------------
  // The multinodes

  /** A Chain pass returns DONE exactly when it clears the active child,
      which happens exactly when every child from the start on answers
      DONE, each on the entity the previous one left. Otherwise the active
      child is the first from the start on that did not answer DONE, every
      child before it answered DONE, and the pass returns that child's
      status and entity. The children before the start and after the
      active one are not run; the DONE children and a FAILED one are left
      reset, an ACTIVE one keeps its new value. */
  lemma {:induction false} ChainSweep<E, A>(n: Node<E, A>, kids: seq<Node<E, A>>, i: nat, e: E, a: A)
    requires n.Chain? && |kids| == |n.children|
    ensures var w := ChainFrom(n, kids, i, e, a);
            (w.status == Done <==> w.active.None?) &&
            (w.active.Some? ==> i <= w.active.value < |kids|) &&
            (forall j :: 0 <= j < i && j < |kids| ==> w.kids[j] == kids[j]) &&
            (w.active.Some? ==> forall j :: w.active.value < j < |kids| ==> w.kids[j] == kids[j]) &&
            (forall j :: i <= j < (if w.active.Some? then w.active.value else |kids|) ==> Fresh(w.kids[j])) &&
            (w.status == Failed ==> Fresh(w.kids[w.active.value]))
    ensures var w := ChainFrom(n, kids, i, e, a);
            i <= |kids| ==> (w.status == Done <==> RanThrough(n.children, Done, i, |kids|, e, a) == Some(w.entity))
    ensures var w := ChainFrom(n, kids, i, e, a);
            forall k :: i <= k < |kids| ==>
              (w.active == Some(k) <==>
                 RanThrough(n.children, Done, i, k, e, a).Some? &&
                 Tick(n.children[k], RanThrough(n.children, Done, i, k, e, a).value, a).status != Done)
    ensures var w := ChainFrom(n, kids, i, e, a);
            w.active.Some? ==>
              var pre := RanThrough(n.children, Done, i, w.active.value, e, a);
              pre.Some? &&
              var r := Tick(n.children[w.active.value], pre.value, a);
              w.status == r.status && w.entity == r.entity &&
              w.kids[w.active.value] == (if r.status == Failed then Reset(r.node) else r.node)
    decreases |n.children| - i
  {
    if i < |n.children| {
      var r := Tick(n.children[i], e, a);
      ResetFresh(r.node);
      if r.status == Done {
        ChainSweep(n, kids[i := Reset(r.node)], i + 1, r.entity, a);
      }
    }
  }

  /** A fresh Chain of two children: the second runs, on the entity the
      first left, only when the first is DONE; the chain is DONE only when
      both are, and then both children are reset and the chain's calls are
      theirs. */
  lemma ChainOfTwo<E, A>(c0: Node<E, A>, c1: Node<E, A>, e: E, a: A)
    ensures var r := Tick(Chain([c0, c1], None), e, a);
            var r0 := Tick(c0, e, a); var r1 := Tick(c1, r0.entity, a);
            (r0.status != Done ==> r.status == r0.status && r.entity == r0.entity) &&
            (r0.status == Done ==> r.status == r1.status && r.entity == r1.entity) &&
            (r0.status == Done && r1.status == Done ==>
               r.node == Chain([Reset(r0.node), Reset(r1.node)], None) && r.calls == r0.calls + r1.calls)
  {
    var n := Chain([c0, c1], None);
    var r0 := Tick(c0, e, a);
    assert n.children[0] == c0 && n.children[1] == c1;
    var w := ChainFrom(n, [c0, c1], 0, e, a);
    assert Tick(n, e, a) == Ran(w.status, Chain(w.kids, w.active), w.entity, w.calls);
    if r0.status == Done {
      var kids := [c0, c1][0 := Reset(r0.node)];
      var w1 := ChainFrom(n, kids, 1, r0.entity, a);
      assert w == w1.(calls := r0.calls + w1.calls);
      var r1 := Tick(c1, r0.entity, a);
      if r1.status == Done {
        var w2 := ChainFrom(n, kids[1 := Reset(r1.node)], 2, r1.entity, a);
        assert w1 == w2.(calls := r1.calls + w2.calls);
        assert w2.kids == kids[1 := Reset(r1.node)] == [Reset(r0.node), Reset(r1.node)];
      } else {
        assert w1.status == r1.status && w1.entity == r1.entity;
      }
    }
  }

  /** A Priorities pass fails exactly when it clears the active child,
      which happens exactly when every child from the start on answers
      FAILED, each on the entity the previous one left. Otherwise the
      active child is the first from the start on that did not fail, every
      child before it failed, and the pass returns that child's status and
      entity, keeping the child's new value. The children after it are not
      run, except that the previously active child, when it is another
      one, is reset: after its own FAILED tick when the pass ran it, as it
      was otherwise. */
  lemma {:induction false} PrioritiesSweep<E, A>(n: Node<E, A>, kids: seq<Node<E, A>>, i: nat, e: E, a: A)
    requires n.Priorities? && |kids| == |n.children|
    ensures var w := PrioritiesFrom(n, kids, i, e, a);
            (w.status == Failed <==> w.active.None?) &&
            (w.active.Some? ==> i <= w.active.value < |kids|) &&
            (w.active.Some? ==> forall j :: w.active.value < j < |kids| && n.active != Some(j) ==> w.kids[j] == kids[j]) &&
            (n.active.Some? && n.active.value < |kids| && n.active != w.active ==> Fresh(w.kids[n.active.value]))
    ensures var w := PrioritiesFrom(n, kids, i, e, a);
            n.active.Some? && n.active.value < |kids| && n.active != w.active ==>
              var p := n.active.value;
              (i <= p && (w.active.None? || p < w.active.value) ==>
                 var pre := RanThrough(n.children, Failed, i, p, e, a);
                 pre.Some? && w.kids[p] == Reset(Tick(n.children[p], pre.value, a).node)) &&
              (p < i || (w.active.Some? && w.active.value < p) ==> w.kids[p] == Reset(kids[p]))
    ensures var w := PrioritiesFrom(n, kids, i, e, a);
            i <= |kids| ==> (w.status == Failed <==> RanThrough(n.children, Failed, i, |kids|, e, a) == Some(w.entity))
    ensures var w := PrioritiesFrom(n, kids, i, e, a);
            forall k :: i <= k < |kids| ==>
              (w.active == Some(k) <==>
                 RanThrough(n.children, Failed, i, k, e, a).Some? &&
                 Tick(n.children[k], RanThrough(n.children, Failed, i, k, e, a).value, a).status != Failed)
    ensures var w := PrioritiesFrom(n, kids, i, e, a);
            w.active.Some? ==>
              var pre := RanThrough(n.children, Failed, i, w.active.value, e, a);
              pre.Some? &&
              var r := Tick(n.children[w.active.value], pre.value, a);
              w.status == r.status && w.entity == r.entity && w.kids[w.active.value] == r.node
    decreases |n.children| - i
  {
    if i >= |n.children| {
      if n.active.Some? && n.active.value < |kids| {
        ResetFresh(kids[n.active.value]);
      }
    } else {
      var r := Tick(n.children[i], e, a);
      if r.status == Failed {
        PrioritiesSweep(n, kids[i := r.node], i + 1, r.entity, a);
      } else if n.active.Some? && n.active.value < |kids| {
        ResetFresh(kids[i := r.node][n.active.value]);
      }
    }
  }

  // ---------------------------------------------------------------------
  // Reset

  /** Resetting leaves every node in its reset state. */
  lemma {:induction false} ResetFresh<E, A>(n: Node<E, A>)
    ensures Fresh(Reset(n))
  {
    match n
    case Action(_) =>
    case Chain(cs, _) =>
      forall j | 0 <= j < |cs| ensures Fresh(Reset(cs[j])) {
        ResetFresh(cs[j]);
      }
    case Priorities(cs, _) =>
      forall j | 0 <= j < |cs| ensures Fresh(Reset(cs[j])) {
        ResetFresh(cs[j]);
      }
    case _ => ResetFresh(n.tree);
  }

  /** The reset state is exactly what a reset leaves: resetting a node
      already in it changes nothing. */
  lemma {:induction false} FreshResetFixed<E, A>(n: Node<E, A>)
    requires Fresh(n)
    ensures Reset(n) == n
  {
    match n
    case Action(_) =>
    case Chain(cs, _) =>
      forall j | 0 <= j < |cs| ensures Reset(cs[j]) == cs[j] {
        FreshResetFixed(cs[j]);
      }
    case Priorities(cs, _) =>
      forall j | 0 <= j < |cs| ensures Reset(cs[j]) == cs[j] {
        FreshResetFixed(cs[j]);
      }
    case _ => FreshResetFixed(n.tree);
  }

  /** Resetting twice is resetting once. */
  lemma {:induction false} ResetIdempotent<E, A>(n: Node<E, A>)
    ensures Reset(Reset(n)) == Reset(n)
  {
    match n
    case Action(_) =>
    case Chain(cs, _) =>
      forall j | 0 <= j < |cs| ensures Reset(Reset(cs[j])) == Reset(cs[j]) {
        ResetIdempotent(cs[j]);
      }
    case Priorities(cs, _) =>
      forall j | 0 <= j < |cs| ensures Reset(Reset(cs[j])) == Reset(cs[j]) {
        ResetIdempotent(cs[j]);
      }
    case _ => ResetIdempotent(n.tree);
  }

  /** Resetting keeps every active child in range. */
  lemma {:induction false} ResetWellFormed<E, A>(n: Node<E, A>)
    requires WellFormed(n)
    ensures WellFormed(Reset(n))
  {
    match n
    case Action(_) =>
    case Chain(cs, _) =>
      forall j | 0 <= j < |cs| ensures WellFormed(Reset(cs[j])) {
        ResetWellFormed(cs[j]);
      }
    case Priorities(cs, _) =>
      forall j | 0 <= j < |cs| ensures WellFormed(Reset(cs[j])) {
        ResetWellFormed(cs[j]);
      }
    case _ => ResetWellFormed(n.tree);
  }

  /** Calling a node keeps every active child in range. */
  lemma {:induction false} TickWellFormed<E, A>(n: Node<E, A>, e: E, a: A)
    requires WellFormed(n)
    ensures WellFormed(Tick(n, e, a).node)
    decreases n, 1, 0
  {
    match n
    case Action(_) =>
    case Chain(cs, act) =>
      ChainWellFormed(n, cs, if act.Some? then act.value else 0, e, a);
    case Priorities(cs, _) =>
      PrioritiesWellFormed(n, cs, 0, e, a);
    case Precondition(cond, _, c) =>
      if !cond(e, a) {
        TickWellFormed(c, e, a);
      }
    case Precounter(timeout, k, _, c) =>
      if k + 1 != timeout {
        TickWellFormed(c, e, a);
      }
    case RewriteArguments(f, c) => TickWellFormed(c, e, f(a));
    case _ => TickWellFormed(n.tree, e, a);
  }

  lemma {:induction false} ChainWellFormed<E, A>(n: Node<E, A>, kids: seq<Node<E, A>>, i: nat, e: E, a: A)
    requires n.Chain? && |kids| == |n.children| && WellFormed(n)
    requires forall j :: 0 <= j < |kids| ==> WellFormed(kids[j])
    ensures var w := ChainFrom(n, kids, i, e, a);
            (w.active.Some? ==> w.active.value < |kids|) && forall j :: 0 <= j < |kids| ==> WellFormed(w.kids[j])
    decreases n, 0, |n.children| - i
  {
    if i < |n.children| {
      var r := Tick(n.children[i], e, a);
      TickWellFormed(n.children[i], e, a);
      ResetWellFormed(r.node);
      if r.status == Done {
        ChainWellFormed(n, kids[i := Reset(r.node)], i + 1, r.entity, a);
      }
    }
  }

  lemma {:induction false} PrioritiesWellFormed<E, A>(n: Node<E, A>, kids: seq<Node<E, A>>, i: nat, e: E, a: A)
    requires n.Priorities? && |kids| == |n.children| && WellFormed(n)
    requires forall j :: 0 <= j < |kids| ==> WellFormed(kids[j])
    ensures var w := PrioritiesFrom(n, kids, i, e, a);
            (w.active.Some? ==> w.active.value < |kids|) && forall j :: 0 <= j < |kids| ==> WellFormed(w.kids[j])
    decreases n, 0, |n.children| - i
  {
    if i >= |n.children| {
      if n.active.Some? {
        ResetWellFormed(kids[n.active.value]);
      }
    } else {
      var r := Tick(n.children[i], e, a);
      TickWellFormed(n.children[i], e, a);
      var next := kids[i := r.node];
      if r.status == Failed {
        PrioritiesWellFormed(n, next, i + 1, r.entity, a);
      } else if n.active.Some? {
        ResetWellFormed(next[n.active.value]);
      }
    }
  }
}
