/** `KnowledgeBase` (pychology/knowledge.py): the arity registry, the
    interning of argument symbols into shared `Value` and `Variable`
    objects, and the storage of facts and rules. Relations have type `R`,
    argument symbols type `S`. */
module Knowledge {
  import opened Common

  /** `Value(symbol)`: the internal object for a value. */
  class Value<S> {
    const symbol: S
    constructor(symbol: S)
      ensures this.symbol == symbol
    {
      this.symbol := symbol;
    }
  }

  /** `Variable(symbol)`: the internal object for a variable. */
  class Variable<S> {
    const symbol: S
    constructor(symbol: S)
      ensures this.symbol == symbol
    {
      this.symbol := symbol;
    }
  }

  /** An argument as the caller passes it: a plain value, or a `Variable`
      with its symbol. */
  datatype Arg<S> = Plain(value: S) | Var(symbol: S)

  /** An argument after `_internalize`. */
  datatype Term<S> = ValueTerm(v: Value<S>) | VariableTerm(x: Variable<S>)

  /** A predicate of a rule: `(relation, *arguments)`. */
  datatype Pred<R, S> = Pred(relation: R, args: seq<Arg<S>>)

  /** The symbols `_internalize` interns as values. */
  function PlainSymbols<S>(args: seq<Arg<S>>): set<S> {
    if |args| == 0 then {}
    else PlainSymbols(args[..|args| - 1]) + (if args[|args| - 1].Plain? then {args[|args| - 1].value} else {})
  }

  /** The symbols `_internalize` interns as variables. */
  function VarSymbols<S>(args: seq<Arg<S>>): set<S> {
    if |args| == 0 then {}
    else VarSymbols(args[..|args| - 1]) + (if args[|args| - 1].Var? then {args[|args| - 1].symbol} else {})
  }

  /** The index of the first variable, or `|args|` when there is none. */
  function FirstVar<S>(args: seq<Arg<S>>): (k: nat)
    ensures k <= |args| && (k < |args| ==> args[k].Var?)
    ensures forall i :: 0 <= i < k ==> args[i].Plain?
  {
    if |args| == 0 then 0
    else if args[0].Var? then 0
    else 1 + FirstVar(args[1..])
  }

  class KnowledgeBase<R(==), S(==)> {
    var values: map<S, Value<S>>
    var variables: map<S, Variable<S>>
    var arity: map<R, nat>
    var facts: map<R, seq<seq<Term<S>>>>
    var rules: map<R, seq<(seq<Arg<S>>, seq<Pred<R, S>>)>>

    /** Every interned object carries the symbol it is filed under. */
    ghost predicate Valid()
      reads this
    {
      (forall s :: s in values ==> values[s].symbol == s) &&
      (forall s :: s in variables ==> variables[s].symbol == s)
    }

    constructor()
      ensures Valid()
      ensures values == map[] && variables == map[] && arity == map[] && facts == map[] && rules == map[]
    {
      values := map[];
      variables := map[];
      arity := map[];
      facts := map[];
      rules := map[];
    }

    /** `_check_arity`: the first use of a relation records its number of
        arguments; a later use with another number raises ArityError. */
    method CheckArity(relation: R, n: nat) returns (r: Result<(), Exc>)
      modifies this
      ensures r.Err? <==> relation in old(arity) && old(arity)[relation] != n
      ensures r.Err? ==> r.error == ArityError
      ensures arity == if relation in old(arity) then old(arity) else old(arity)[relation := n]
      ensures relation in arity
      ensures r.Ok? ==> arity[relation] == n
      ensures values == old(values) && variables == old(variables) && facts == old(facts) && rules == old(rules)
    {
      if relation in arity {
        if arity[relation] != n {
          return Err(ArityError);
        }
      } else {
        arity := arity[relation := n];
      }
      r := Ok(());
    }

    /** `_internalize`: each argument becomes the object filed under its
        symbol, created on first sight, so equal symbols share one object.
        With `noVariables` the first variable fails the assertion, after
        the values before it have been interned. */
    method Internalize(args: seq<Arg<S>>, noVariables: bool) returns (r: Result<seq<Term<S>>, Exc>)
      requires Valid()
      modifies this
      ensures Valid()
      ensures r.Err? <==> noVariables && FirstVar(args) < |args|
      ensures r.Err? ==> r.error == AssertionError
      ensures r.Ok? ==> |r.value| == |args| && forall i :: 0 <= i < |args| ==> InternedIn(values, variables, args[i], r.value[i])
      ensures values.Keys == old(values).Keys + PlainSymbols(if r.Ok? then args else args[..FirstVar(args)])
      ensures variables.Keys == old(variables).Keys + (if r.Ok? then VarSymbols(args) else {})
      ensures noVariables ==> variables == old(variables)
      ensures Grows(old(values), values) && Grows(old(variables), variables)
      ensures forall s :: s in values && s !in old(values) ==> fresh(values[s])
      ensures forall s :: s in variables && s !in old(variables) ==> fresh(variables[s])
      ensures arity == old(arity) && facts == old(facts) && rules == old(rules)
    {
      var replaced: seq<Term<S>> := [];
      var i := 0;
      while i < |args|
        invariant 0 <= i <= |args| && |replaced| == i && Valid()
        invariant noVariables ==> i <= FirstVar(args) && variables == old(variables)
        invariant forall j :: 0 <= j < i ==> InternedIn(values, variables, args[j], replaced[j])
        invariant values.Keys == old(values).Keys + PlainSymbols(args[..i])
        invariant variables.Keys == old(variables).Keys + VarSymbols(args[..i])
        invariant Grows(old(values), values) && Grows(old(variables), variables)
        invariant forall s :: s in values && s !in old(values) ==> fresh(values[s])
        invariant forall s :: s in variables && s !in old(variables) ==> fresh(variables[s])
        invariant arity == old(arity) && facts == old(facts) && rules == old(rules)
      {
        if noVariables && args[i].Var? {
          assert FirstVar(args) == i;
          return Err(AssertionError);
        }
        ghost var values0, variables0 := values, variables;
        var t := Intern(args[i]);
        ghost var values1, variables1 := values, variables;
        SymbolsSnoc(args, i);
        InternedStep(values0, variables0, values1, variables1, args, replaced, t, i);
        GrowsTrans(old(values), values0, values1);
        GrowsTrans(old(variables), variables0, variables1);
        KeysStep(old(values).Keys, values0.Keys, values1.Keys, PlainSymbols(args[..i]), PlainSymbols(args[..i + 1]),
                 if args[i].Plain? then {args[i].value} else {});
        KeysStep(old(variables).Keys, variables0.Keys, variables1.Keys, VarSymbols(args[..i]), VarSymbols(args[..i + 1]),
                 if args[i].Var? then {args[i].symbol} else {});
        assert values.Keys == old(values).Keys + PlainSymbols(args[..i + 1]);
        assert variables.Keys == old(variables).Keys + VarSymbols(args[..i + 1]);
        replaced := replaced + [t];
        i := i + 1;
      }
      assert args[..i] == args;
      if noVariables {
        assert FirstVar(args) == |args|;
      }
      r := Ok(replaced);
    }

    /** One argument of `_internalize`: the object filed under its symbol,
        created and filed when the symbol is new. */
    method Intern(a: Arg<S>) returns (t: Term<S>)
      requires Valid()
      modifies this
      ensures Valid() && InternedIn(values, variables, a, t)
      ensures values.Keys == old(values).Keys + (if a.Plain? then {a.value} else {})
      ensures variables.Keys == old(variables).Keys + (if a.Var? then {a.symbol} else {})
      ensures Grows(old(values), values) && Grows(old(variables), variables)
      ensures a.Plain? ==> variables == old(variables)
      ensures a.Var? ==> values == old(values)
      ensures forall s :: s in values && s !in old(values) ==> fresh(values[s])
      ensures forall s :: s in variables && s !in old(variables) ==> fresh(variables[s])
      ensures arity == old(arity) && facts == old(facts) && rules == old(rules)
    {
      match a
      case Var(s) =>
        if s !in variables {
          var x := new Variable(s);
          variables := variables[s := x];
        }
        t := VariableTerm(variables[s]);
      case Plain(s) =>
        if s !in values {
          var v := new Value(s);
          values := values[s := v];
        }
        t := ValueTerm(values[s]);
    }

    /** `fact(relation, *arguments)`: the arity is checked (and recorded on
        first use) before the arguments are interned, and each successful
        call appends one entry to the relation's list, duplicates kept. */
    method Fact(relation: R, args: seq<Arg<S>>) returns (r: Result<(), Exc>)
      requires Valid()
      modifies this
      ensures Valid()
      ensures r.Ok? <==> (relation !in old(arity) || old(arity)[relation] == |args|) && FirstVar(args) == |args|
      ensures r.Err? ==> r.error == (if relation in old(arity) && old(arity)[relation] != |args| then ArityError
                                     else AssertionError)
      ensures relation in arity
      ensures r.Ok? ==> exists terms: seq<Term<S>> ::
                |terms| == |args| && (forall i :: 0 <= i < |args| ==> InternedIn(values, variables, args[i], terms[i])) &&
                facts == old(facts)[relation := (if relation in old(facts) then old(facts)[relation] else []) + [terms]]
      ensures r.Err? ==> facts == old(facts)
      ensures arity == if relation in old(arity) then old(arity) else old(arity)[relation := |args|]
      ensures Grows(old(values), values)
      ensures values.Keys == old(values).Keys +
                (if relation !in old(arity) || old(arity)[relation] == |args| then PlainSymbols(args[..FirstVar(args)]) else {})
      ensures rules == old(rules) && variables == old(variables)
    {
      var checked := CheckArity(relation, |args|);
      if checked.Err? {
        return Err(checked.error);
      }
      var internal := Internalize(args, true);
      if internal.Err? {
        return Err(internal.error);
      }
      assert args[..FirstVar(args)] == args;
      var terms := internal.value;
      if relation in facts {
        facts := facts[relation := facts[relation] + [terms]];
      } else {
        assert [] + [terms] == [terms];
        facts := facts[relation := [terms]];
      }
      assert |terms| == |args| && (forall i :: 0 <= i < |args| ==> InternedIn(values, variables, args[i], terms[i])) &&
             facts == old(facts)[relation := (if relation in old(facts) then old(facts)[relation] else []) + [terms]];
      r := Ok(());
    }

    /** The arity loop of `rule`: every predicate is checked in order, and
        the first mismatch raises after the earlier ones are recorded. */
    method CheckArities(preds: seq<Pred<R, S>>) returns (r: Result<(), Exc>)
      modifies this
      ensures r.Ok? ==> forall k :: 0 <= k < |preds| ==> preds[k].relation in arity && arity[preds[k].relation] == |preds[k].args|
      ensures r.Ok? <==> ArityConsistent(old(arity), preds)
      ensures r.Err? ==> r.error == ArityError
      ensures arity == Recorded(old(arity), preds)
      ensures values == old(values) && variables == old(variables) && facts == old(facts) && rules == old(rules)
    {
      var i := 0;
      while i < |preds|
        invariant 0 <= i <= |preds|
        invariant forall k :: 0 <= k < i ==> preds[k].relation in arity && arity[preds[k].relation] == |preds[k].args|
        invariant ArityConsistent(old(arity), preds) == ArityConsistent(arity, preds[i..])
        invariant Recorded(old(arity), preds) == Recorded(arity, preds[i..])
        invariant values == old(values) && variables == old(variables) && facts == old(facts) && rules == old(rules)
      {
        var checked := CheckArity(preds[i].relation, |preds[i].args|);
        if checked.Err? {
          return Err(checked.error);
        }
        assert preds[i..][1..] == preds[i + 1..];
        i := i + 1;
      }
      r := Ok(());
    }

    /** `rule(head, *body)`: at least one body predicate is demanded, every
        predicate's arity is checked and every predicate's arguments are
        interned (the interned copies are then dropped), and the head's
        original arguments are stored with the original body under the
        head relation. */
    method Rule(preds: seq<Pred<R, S>>) returns (r: Result<(), Exc>)
      requires Valid()
      modifies this
      ensures Valid()
      ensures |preds| <= 1 ==> r == Err(AssertionError) && unchanged(this)
      ensures r.Ok? <==> |preds| > 1 && ArityConsistent(old(arity), preds)
      ensures r.Err? && |preds| > 1 ==> r.error == ArityError
      ensures r.Ok? ==> rules == old(rules)[preds[0].relation :=
                (if preds[0].relation in old(rules) then old(rules)[preds[0].relation] else []) + [(preds[0].args, preds[1..])]]
      ensures r.Err? ==> rules == old(rules)
      ensures r.Ok? ==> forall k :: 0 <= k < |preds| ==> PlainSymbols(preds[k].args) <= values.Keys && VarSymbols(preds[k].args) <= variables.Keys
      ensures arity == if |preds| <= 1 then old(arity) else Recorded(old(arity), preds)
      ensures Grows(old(values), values) && Grows(old(variables), variables)
      ensures r.Err? ==> values == old(values) && variables == old(variables)
      ensures facts == old(facts)
    {
      if |preds| <= 1 {
        return Err(AssertionError);
      }
      var checked := CheckArities(preds);
      if checked.Err? {
        return Err(checked.error);
      }
      var i := 0;
      while i < |preds|
        invariant 0 <= i <= |preds| && Valid()
        invariant forall k :: 0 <= k < i ==> PlainSymbols(preds[k].args) <= values.Keys && VarSymbols(preds[k].args) <= variables.Keys
        invariant rules == old(rules) && facts == old(facts) && arity == Recorded(old(arity), preds)
        invariant Grows(old(values), values) && Grows(old(variables), variables)
      {
        ghost var values0, variables0 := values, variables;
        var internal := Internalize(preds[i].args, false);
        GrowsTrans(old(values), values0, values);
        GrowsTrans(old(variables), variables0, variables);
        i := i + 1;
      }
      var head, body := preds[0], preds[1..];
      if head.relation in rules {
        rules := rules[head.relation := rules[head.relation] + [(head.args, body)]];
      } else {
        assert [] + [(head.args, body)] == [(head.args, body)];
        rules := rules[head.relation := [(head.args, body)]];
      }
      r := Ok(());
    }

    /** `query` as far as the Python code goes: a relation with neither
        facts nor rules raises RelationError; otherwise the arity is checked
        and the arguments interned, which is where the unfinished query
        stops. */
    method Query(relation: R, args: seq<Arg<S>>) returns (r: Result<seq<Term<S>>, Exc>)
      requires Valid()
      modifies this
      ensures Valid()
      ensures relation !in old(facts) && relation !in old(rules) ==> r == Err(RelationError) && unchanged(this)
      ensures r.Ok? <==> (relation in old(facts) || relation in old(rules)) &&
                         (relation !in old(arity) || old(arity)[relation] == |args|)
      ensures r.Err? && (relation in old(facts) || relation in old(rules)) ==> r.error == ArityError
      ensures r.Ok? ==> |r.value| == |args| && forall i :: 0 <= i < |args| ==> InternedIn(values, variables, args[i], r.value[i])
      ensures arity == if relation in old(arity) || (relation !in old(facts) && relation !in old(rules)) then old(arity)
                       else old(arity)[relation := |args|]
      ensures Grows(old(values), values) && Grows(old(variables), variables)
      ensures r.Err? ==> values == old(values) && variables == old(variables)
      ensures facts == old(facts) && rules == old(rules)
    {
      if relation !in facts && relation !in rules {
        return Err(RelationError);
      }
      var checked := CheckArity(relation, |args|);
      if checked.Err? {
        return Err(checked.error);
      }
      r := Internalize(args, false);
    }
  }

  /** `t` is the object filed under the symbol of `a`. */
  ghost predicate InternedIn<S>(values: map<S, Value<S>>, variables: map<S, Variable<S>>, a: Arg<S>, t: Term<S>) {
    match a
    case Plain(s) => s in values && t == ValueTerm(values[s])
    case Var(s) => s in variables && t == VariableTerm(variables[s])
  }

  /** Every entry of `m0` is still in `m1`, filed under the same key. */
  ghost predicate Grows<S, T>(m0: map<S, T>, m1: map<S, T>) {
    forall s :: s in m0 ==> s in m1 && m1[s] == m0[s]
  }

  lemma GrowsTrans<S, T>(m0: map<S, T>, m1: map<S, T>, m2: map<S, T>)
    requires Grows(m0, m1) && Grows(m1, m2)
    ensures Grows(m0, m2)
  {
  }

  /** The symbols of one more argument. */
  lemma SymbolsSnoc<S>(args: seq<Arg<S>>, i: nat)
    requires i < |args|
    ensures PlainSymbols(args[..i + 1]) == PlainSymbols(args[..i]) + (if args[i].Plain? then {args[i].value} else {})
    ensures VarSymbols(args[..i + 1]) == VarSymbols(args[..i]) + (if args[i].Var? then {args[i].symbol} else {})
  {
    assert args[..i + 1][..i] == args[..i];
  }

  /** Interned arguments stay interned while the registries only grow, and
      the newly interned one joins them. */
  lemma InternedStep<S>(values: map<S, Value<S>>, variables: map<S, Variable<S>>,
                        values': map<S, Value<S>>, variables': map<S, Variable<S>>,
                        args: seq<Arg<S>>, terms: seq<Term<S>>, t: Term<S>, n: nat)
    requires n < |args| && n == |terms|
    requires forall j :: 0 <= j < n ==> InternedIn(values, variables, args[j], terms[j])
    requires Grows(values, values') && Grows(variables, variables')
    requires InternedIn(values', variables', args[n], t)
    ensures forall j :: 0 <= j < n + 1 ==> InternedIn(values', variables', args[j], (terms + [t])[j])
  {
    forall j | 0 <= j < n + 1 ensures InternedIn(values', variables', args[j], (terms + [t])[j]) {
      if j < n {
        assert (terms + [t])[j] == terms[j];
        assert InternedIn(values, variables, args[j], terms[j]);
      }
    }
  }

  /** A registry that grew by what the symbols grew by still holds the
      original keys plus the symbols. */
  lemma KeysStep<S>(start: set<S>, keys: set<S>, keys': set<S>, syms: set<S>, syms': set<S>, added: set<S>)
    requires keys == start + syms && keys' == keys + added && syms' == syms + added
    ensures keys' == start + syms'
  {
  }

  /** Checking the predicates in order against `arity`, recording each new
      relation, meets no mismatch. */
  ghost predicate ArityConsistent<R, S>(arity: map<R, nat>, preds: seq<Pred<R, S>>)
    decreases |preds|
  {
    |preds| == 0 ||
    ((preds[0].relation !in arity || arity[preds[0].relation] == |preds[0].args|) &&
     ArityConsistent(if preds[0].relation in arity then arity else arity[preds[0].relation := |preds[0].args|], preds[1..]))
  }

  /** The registry after checking the predicates in order: each new
      relation is recorded with its number of arguments, and checking
      stops, keeping what was recorded, at the first mismatch. */
  function Recorded<R, S>(arity: map<R, nat>, preds: seq<Pred<R, S>>): map<R, nat>
    decreases |preds|
  {
    if |preds| == 0 then arity
    else if preds[0].relation in arity then
      if arity[preds[0].relation] == |preds[0].args| then Recorded(arity, preds[1..]) else arity
    else Recorded(arity[preds[0].relation := |preds[0].args|], preds[1..])
  }

  /** Checking the predicates only adds entries: every recorded arity is
      kept, and each new entry is a predicate's relation with that
      predicate's number of arguments. When no mismatch occurs, every
      predicate's relation ends up recorded with its own count. */
  lemma {:induction false} RecordedGrows<R, S>(arity: map<R, nat>, preds: seq<Pred<R, S>>)
    ensures Grows(arity, Recorded(arity, preds))
    ensures forall q :: q in Recorded(arity, preds) && q !in arity ==>
              exists k :: 0 <= k < |preds| && preds[k].relation == q && Recorded(arity, preds)[q] == |preds[k].args|
    ensures ArityConsistent(arity, preds) ==>
              forall k :: 0 <= k < |preds| ==> preds[k].relation in Recorded(arity, preds) &&
                                               Recorded(arity, preds)[preds[k].relation] == |preds[k].args|
    decreases |preds|
  {
    if |preds| > 0 {
      var p := preds[0];
      var next := if p.relation in arity then arity else arity[p.relation := |p.args|];
      RecordedGrows(next, preds[1..]);
      var out := Recorded(arity, preds);
      if p.relation in arity && arity[p.relation] != |p.args| {
        assert out == arity;
      } else {
        assert out == Recorded(next, preds[1..]);
        forall q | q in out && q !in arity
          ensures exists k :: 0 <= k < |preds| && preds[k].relation == q && out[q] == |preds[k].args|
        {
          if q == p.relation {
            assert preds[0].relation == q && out[q] == |preds[0].args|;
          } else {
            var k :| 0 <= k < |preds[1..]| && preds[1..][k].relation == q && out[q] == |preds[1..][k].args|;
            assert preds[k + 1] == preds[1..][k];
          }
        }
        if ArityConsistent(arity, preds) {
          forall k | 0 <= k < |preds|
            ensures preds[k].relation in out && out[preds[k].relation] == |preds[k].args|
          {
            if k > 0 {
              assert preds[k] == preds[1..][k - 1];
            }
          }
        }
      }
    }
  }

  /** Using a relation again with the number of arguments of its first use
      is consistent; using it with another number is not. */
  lemma {:induction false} ArityFixedByFirstUse<R, S>(arity: map<R, nat>, p: Pred<R, S>, q: Pred<R, S>)
    requires p.relation == q.relation && p.relation !in arity
    ensures ArityConsistent(arity, [p, q]) <==> |p.args| == |q.args|
  {
    var later := arity[p.relation := |p.args|];
    assert [p, q][1..] == [q];
    assert [q][1..] == [];
    assert ArityConsistent(arity, [p, q]) == ArityConsistent(later, [q]);
    assert ArityConsistent(later, [q]) == (|q.args| == |p.args|);
  }
}
