/** `BrainJar` (pychology/brainjar.py): an agent whose blackboard holds a
    map of named behaviours, an optional command and an optional plan, and
    whose thought pattern is a behaviour tree that turns a command into a
    plan and runs the plan. Names have type `N`, behaviours type `B` and
    other blackboard values type `V`. The tree's entity is the content of
    the agent's blackboard. */
module BrainJars {
  import opened Common
  import opened BehaviorTrees
  import opened Blackboards

  /** `BBField`, and the other keys agents write (keyword arguments of
      `command`, `add_knowledge` names). */
  datatype Field<N> = Behaviors | Command | Plan | Named(name: N)

  /** `AICommand`. */
  datatype AICommand = FunctionCommand | PlanCommand | BehaviorCommand

  /** What a blackboard entry holds. */
  datatype Entry<N, B, V> =
    | BehaviorMap(behaviors: map<N, B>)
    | CommandEntry(kind: AICommand, arg: N)
    | PlanEntry(plan: B)
    | Datum(datum: V)

  type Mind<N, B, V> = map<Field<N>, Entry<N, B, V>>

  /** Running a behaviour on the agent: what it returns and the blackboard
      it leaves. */
  type Perform<!N, !B, !V> = (B, Mind<N, B, V>) -> (Status, Mind<N, B, V>)

  // ---------------------------------------------------------------------
  // Predicates and actions

  /** `bb_has(field)`. */
  function BbHas<N, B, V>(field: Field<N>): (Mind<N, B, V>, ()) -> bool {
    (m: Mind<N, B, V>, u: ()) => field in m
  }

  /** `bb_has_not(field)`. */
  function BbHasNot<N, B, V>(field: Field<N>): (Mind<N, B, V>, ()) -> bool {
    (m: Mind<N, B, V>, u: ()) => field !in m
  }

  /** `set_plan_to_command`: a BEHAVIOR command copies the named behaviour
      into PLAN and answers DONE; any other command answers DONE and leaves
      the blackboard alone. The read of a missing command or behaviour,
      which raises in Python, answers FAILED here and changes nothing (see
      `Commanded`). */
  function SetPlanToCommand<N, B, V>(m: Mind<N, B, V>): (r: (Status, Mind<N, B, V>))
    ensures Commanded(m) && Command in m ==> r == (Done, m[Plan := PlanEntry(m[Behaviors].behaviors[m[Command].arg])])
    ensures Command in m && m[Command].CommandEntry? && m[Command].kind != BehaviorCommand ==> r == (Done, m)
    ensures r.0 == Done <==> Command in m && m[Command].CommandEntry? && (m[Command].kind == BehaviorCommand ==> Commanded(m))
    ensures r.0 != Done ==> r == (Failed, m)
  {
    if Command !in m || !m[Command].CommandEntry? then (Failed, m)
    else if m[Command].kind != BehaviorCommand then (Done, m)
    else if Behaviors !in m || !m[Behaviors].BehaviorMap? || m[Command].arg !in m[Behaviors].behaviors then (Failed, m)
    else (Done, m[Plan := PlanEntry(m[Behaviors].behaviors[m[Command].arg])])
  }

  /** `execute_plan`: runs the behaviour stored under PLAN, and answers
      what it answers. Without a plan, where Python raises KeyError, it
      answers FAILED and changes nothing. */
  function ExecutePlan<N, B, V>(perform: Perform<N, B, V>, m: Mind<N, B, V>): (r: (Status, Mind<N, B, V>))
    ensures Plan in m && m[Plan].PlanEntry? ==> r == perform(m[Plan].plan, m)
    ensures !(Plan in m && m[Plan].PlanEntry?) ==> r == (Failed, m)
  {
    if Plan in m && m[Plan].PlanEntry? then perform(m[Plan].plan, m) else (Failed, m)
  }

  /** `bb_del(field)`: DONE after removing a field held locally, FAILED
      when the field is not there. */
  function BbDel<N, B, V>(field: Field<N>, m: Mind<N, B, V>): (r: (Status, Mind<N, B, V>))
    ensures r.0 == Done <==> field in m
    ensures r.1 == m - {field}
  {
    if field in m then (Done, m - {field}) else (Failed, m)
  }

  /** The command, if any, is one `command` can have written: a BEHAVIOR
      command naming a known behaviour. */
  ghost predicate Commanded<N, B, V>(m: Mind<N, B, V>) {
    Command in m ==>
      m[Command].CommandEntry? && m[Command].kind == BehaviorCommand &&
      Behaviors in m && m[Behaviors].BehaviorMap? && m[Command].arg in m[Behaviors].behaviors
  }

  // ---------------------------------------------------------------------
  // BT_think

  /** The first block of `BT_think`: skipped without a command, otherwise
      the command becomes the plan and is cleared. */
  function CommandBlock<N, B, V>(): Node<Mind<N, B, V>, ()> {
    Precondition(BbHasNot(Command), Done,
      Chain([Action((m: Mind<N, B, V>, u: ()) => SetPlanToCommand(m)),
             Action((m: Mind<N, B, V>, u: ()) => BbDel(Command, m))], None))
  }

  /** The second block of `BT_think`: skipped without a plan, otherwise
      the plan runs and, once it is DONE, is removed. */
  function PlanBlock<N, B, V>(perform: Perform<N, B, V>): Node<Mind<N, B, V>, ()> {
    Precondition(BbHasNot(Plan), Done,
      Chain([Action((m: Mind<N, B, V>, u: ()) => ExecutePlan(perform, m)),
             Action((m: Mind<N, B, V>, u: ()) => BbDel(Plan, m))], None))
  }

  /** `BT_think()`'s tree. */
  function ThinkTree<N, B, V>(perform: Perform<N, B, V>): Node<Mind<N, B, V>, ()> {
    Chain([CommandBlock(), PlanBlock(perform)], None)
  }

  /** The blackboard after the command block has handled a command. */
  function Planned<N, B, V>(m: Mind<N, B, V>): Mind<N, B, V> {
    SetPlanToCommand(m).1 - {Command}
  }

  /** Without a command the first block is skipped; with a command it is
      turned into a plan and deleted. Either way the block answers DONE and
      is back in its initial state. */
  lemma CommandBlockTick<N, B, V>(m: Mind<N, B, V>)
    requires Commanded(m)
    ensures var r := Tick(CommandBlock<N, B, V>(), m, ());
            r.status == Done && r.node == CommandBlock() &&
            r.entity == (if Command in m then Planned(m) else m)
  {
    if Command in m {
      var inner := CommandBlock<N, B, V>().tree;
      var first := Tick(inner.children[0], m, ());
      assert first.status == Done;
      var second := Tick(inner.children[1], first.entity, ());
      assert second.status == Done;
      assert ChainFrom(inner, inner.children[0 := Reset(first.node)][1 := Reset(second.node)], 2, second.entity, ()).status == Done;
      assert inner.children[0 := Reset(first.node)][1 := Reset(second.node)] == inner.children;
    }
  }

  /** Without a plan the second block is skipped. With a plan, the plan's
      answer is the block's answer, except that a DONE plan whose run
      removed PLAN itself makes the deletion, and so the block, fail. */
  lemma PlanBlockTick<N, B, V>(perform: Perform<N, B, V>, m: Mind<N, B, V>)
    requires Plan in m ==> m[Plan].PlanEntry?
    ensures var r := Tick(PlanBlock(perform), m, ());
            (Plan !in m ==> r.status == Done && r.entity == m && r.node == PlanBlock(perform)) &&
            (Plan in m ==>
              var acted := perform(m[Plan].plan, m);
              (acted.0 != Done ==> r.status == acted.0 && r.entity == acted.1) &&
              (acted.0 == Done ==> r.status == (if Plan in acted.1 then Done else Failed) && r.entity == acted.1 - {Plan}) &&
              (acted.0 == Done && Plan in acted.1 ==> r.node == PlanBlock(perform)))
  {
    if Plan in m {
      var inner := PlanBlock(perform).tree;
      var first := Tick(inner.children[0], m, ());
      if first.status == Done {
        var second := Tick(inner.children[1], first.entity, ());
        if second.status == Done {
          assert ChainFrom(inner, inner.children[0 := Reset(first.node)][1 := Reset(second.node)], 2, second.entity, ()).status == Done;
          assert inner.children[0 := Reset(first.node)][1 := Reset(second.node)] == inner.children;
        }
      }
    }
  }

  /** One tick of `BT_think`: a present command becomes the plan and is
      deleted, then a present plan runs and is deleted once it is DONE.
      With neither, the tick is DONE and changes nothing. */
  lemma ThinkTick<N, B, V>(perform: Perform<N, B, V>, m: Mind<N, B, V>)
    requires Commanded(m) && (Plan in m ==> m[Plan].PlanEntry?)
    ensures var planned := if Command in m then Planned(m) else m;
            var r := Tick(ThinkTree(perform), m, ());
            r.status == Tick(PlanBlock(perform), planned, ()).status &&
            r.entity == Tick(PlanBlock(perform), planned, ()).entity
  {
    var planned := if Command in m then Planned(m) else m;
    CommandBlockTick(m);
    ChainOfTwo(CommandBlock(), PlanBlock(perform), m, ());
  }

  /** With neither a command nor a plan the tick is DONE, changes nothing
      and leaves the tree as it was. */
  lemma ThinkIdle<N, B, V>(perform: Perform<N, B, V>, m: Mind<N, B, V>)
    requires Command !in m && Plan !in m
    ensures Tick(ThinkTree(perform), m, ()) == Ran(Done, ThinkTree(perform), m, 0)
  {
    CommandBlockTick(m);
    PlanBlockTick(perform, m);
    ChainOfTwo(CommandBlock(), PlanBlock(perform), m, ());
    FreshResetFixed(CommandBlock<N, B, V>());
    FreshResetFixed(PlanBlock(perform));
  }

  // ---------------------------------------------------------------------
  // The agent

  class BrainJar<N(==), B, V> {
    const blackboard: Blackboard<Field<N>, Entry<N, B, V>>
    const thoughtPattern: BehaviorTree<Mind<N, B, V>, ()>
    const onIdle: Option<Mind<N, B, V> -> Mind<N, B, V>>

    /** The blackboard has no parent and is not the tree wrapper. */
    ghost predicate Valid()
      reads this, blackboard
    {
      blackboard.Valid() && blackboard.parent == null && blackboard.Repr == {blackboard}
    }

    /** `BrainJar(thought_pattern, on_idle)`: a fresh blackboard holding an
        empty BEHAVIORS map, and `BT_think()` unless another tree is
        given. */
    constructor(perform: Perform<N, B, V>, pattern: Option<Node<Mind<N, B, V>, ()>>, onIdle: Option<Mind<N, B, V> -> Mind<N, B, V>>)
      ensures Valid() && fresh(blackboard) && fresh(thoughtPattern)
      ensures blackboard.values == map[Behaviors := BehaviorMap(map[])]
      ensures thoughtPattern.tree == Reset(if pattern.Some? then pattern.value else ThinkTree(perform))
      ensures this.onIdle == onIdle
    {
      var bb := new Blackboard<Field<N>, Entry<N, B, V>>(null);
      bb.Set(Behaviors, BehaviorMap(map[]));
      blackboard := bb;
      thoughtPattern := new BehaviorTree(if pattern.Some? then pattern.value else ThinkTree(perform));
      this.onIdle := onIdle;
    }

    /** `think`: one call of the thought pattern on the blackboard, then
        `on_idle` exactly when the pattern answered DONE. */
    method Think()
      requires Valid()
      modifies blackboard, thoughtPattern
      ensures Valid()
      ensures var ran := Tick(old(thoughtPattern.tree), old(blackboard.values), ());
              blackboard.values == (if ran.status == Done && onIdle.Some? then onIdle.value(ran.entity) else ran.entity) &&
              thoughtPattern.tree == (if ran.status == Active then ran.node else Reset(ran.node))
    {
      var status, m := thoughtPattern.Call(blackboard.values, ());
      blackboard.values := m;
      if status == Done && onIdle.Some? {
        blackboard.values := onIdle.value(blackboard.values);
      }
    }

    /** `add_knowledge`. */
    method AddKnowledge(name: Field<N>, fact: Entry<N, B, V>)
      requires Valid()
      modifies blackboard
      ensures Valid() && blackboard.values == old(blackboard.values)[name := fact]
    {
      blackboard.Set(name, fact);
    }

    /** `add_behavior`: files the behaviour in the BEHAVIORS map. A missing
        map raises KeyError, an entry that is not a map TypeError. */
    method AddBehavior(name: N, behavior: B) returns (r: Result<(), Exc>)
      requires Valid()
      modifies blackboard
      ensures Valid()
      ensures r.Ok? <==> Behaviors in old(blackboard.values) && old(blackboard.values)[Behaviors].BehaviorMap?
      ensures r.Err? ==> blackboard.values == old(blackboard.values) &&
                         r.error == (if Behaviors in old(blackboard.values) then TypeError else KeyError)
      ensures r.Ok? ==> blackboard.values == old(blackboard.values)[Behaviors :=
                BehaviorMap(old(blackboard.values)[Behaviors].behaviors[name := behavior])]
    {
      blackboard.RootView();
      var found := blackboard.Get(Behaviors);
      if found.Err? {
        return Err(KeyError);
      }
      if !found.value.BehaviorMap? {
        return Err(TypeError);
      }
      blackboard.values := blackboard.values[Behaviors := BehaviorMap(found.value.behaviors[name := behavior])];
      r := Ok(());
    }

    /** `command(behavior, **kwargs)`: an unknown behaviour raises KeyError
        and changes nothing; a known one is stored as a BEHAVIOR command and
        every keyword argument is written to the blackboard, a later one
        winning over an earlier one with the same name. */
    method GiveCommand(behavior: N, kwargs: seq<(N, V)>) returns (r: Result<(), Exc>)
      requires Valid()
      modifies blackboard
      ensures Valid()
      ensures r.Ok? <==> Behaviors in old(blackboard.values) && old(blackboard.values)[Behaviors].BehaviorMap? &&
                         behavior in old(blackboard.values)[Behaviors].behaviors
      ensures r.Err? ==> blackboard.values == old(blackboard.values)
      ensures r.Ok? ==> blackboard.values == Written(old(blackboard.values)[Command := CommandEntry(BehaviorCommand, behavior)], kwargs)
      ensures r.Ok? ==> Commanded(blackboard.values)
    {
      blackboard.RootView();
      var found := blackboard.Get(Behaviors);
      if found.Err? {
        return Err(KeyError);
      }
      if !found.value.BehaviorMap? {
        return Err(TypeError);
      }
      if behavior !in found.value.behaviors {
        return Err(KeyError);
      }
      blackboard.Set(Command, CommandEntry(BehaviorCommand, behavior));
      ghost var start := blackboard.values;
      var i := 0;
      while i < |kwargs|
        invariant 0 <= i <= |kwargs| && Valid()
        invariant blackboard.values == Written(start, kwargs[..i])
      {
        blackboard.Set(Named(kwargs[i].0), Datum(kwargs[i].1));
        assert kwargs[..i + 1][..i] == kwargs[..i];
        i := i + 1;
      }
      assert kwargs[..i] == kwargs;
      WrittenKeeps(start, kwargs);
      r := Ok(());
    }
  }

  /** The blackboard after writing each keyword argument in order. */
  function Written<N, B, V>(m: Mind<N, B, V>, kwargs: seq<(N, V)>): Mind<N, B, V> {
    if |kwargs| == 0 then m
    else Written(m, kwargs[..|kwargs| - 1])[Named(kwargs[|kwargs| - 1].0) := Datum(kwargs[|kwargs| - 1].1)]
  }

  /** Keyword arguments leave the reserved fields alone, and each name ends
      up holding the last value given for it. */
  lemma {:induction false} WrittenKeeps<N, B, V>(m: Mind<N, B, V>, kwargs: seq<(N, V)>)
    ensures var w := Written(m, kwargs);
            (forall f: Field<N> :: !f.Named? ==> (f in w <==> f in m) && (f in m ==> w[f] == m[f])) &&
            (forall i :: 0 <= i < |kwargs| && (forall j :: i < j < |kwargs| ==> kwargs[j].0 != kwargs[i].0) ==>
               Named(kwargs[i].0) in w && w[Named(kwargs[i].0)] == Datum(kwargs[i].1))
    decreases |kwargs|
  {
    if |kwargs| > 0 {
      var front := kwargs[..|kwargs| - 1];
      WrittenKeeps(m, front);
      forall i | 0 <= i < |kwargs| - 1 && (forall j :: i < j < |kwargs| ==> kwargs[j].0 != kwargs[i].0)
        ensures forall j :: i < j < |front| ==> front[j].0 != front[i].0
      {
      }
    }
  }

  /** A new agent's blackboard holds an empty BEHAVIORS map and nothing
      else, so it has no command and no plan. */
  lemma NewBlackboard<N, B, V>()
    ensures var m: Mind<N, B, V> := map[Behaviors := BehaviorMap(map[])];
            Commanded(m) && Command !in m && Plan !in m
  {
  }

  /** `bb_has(f)` and `bb_has_not(f)` disagree on every blackboard. */
  lemma HasComplement<N, B, V>(field: Field<N>, m: Mind<N, B, V>)
    ensures BbHas<N, B, V>(field)(m, ()) != BbHasNot<N, B, V>(field)(m, ())
  {
  }
}
