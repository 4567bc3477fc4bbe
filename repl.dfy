/** Building a search AI from a comma-separated configuration string, and
    assigning AIs to the players of a game. */

module Repl {
  import opened Common
  import SearchGame

  /** A configuration property: the text after '=', or `True` for a bare
      key (and the `False` default of `analysis`). */
  datatype Value = Str(s: string) | Flag(b: bool)

  /** Python truthiness of a property value. */
  predicate Truthy(v: Value) {
    match v
    case Str(s) => |s| > 0
    case Flag(b) => b
  }

  /** The mixins an assembled search class is built from. */
  datatype Component =
    | TranspositionTable
    | FullExpansion
    | NoExpansion
    | StepLimitedExpansion
    | BreadthSearch
    | NodeLimitedExpansion
    | SingleNodeBreadthSearch
    | AllCombinations
    | ZeroSumPlayer
    | Minimax
    | BestMovePlayer
    | RandomChooser
    | TTAnalysis
    | Search

  /** A class attribute of the assembled search: a number of plies or
      nodes, or the `eval_func` property passed on as it is. */
  datatype Attr = Count(n: int) | Passed(v: Value)

  /** An AI class: the two predefined ones, the default one (the
      state-of-the-art search with a 10000 node limit), or an assembled
      one. `None` stands for a human player. */
  datatype AI = StateOfTheArt | RandomAI | DefaultAI | Assembled(bases: seq<Component>, attribs: Dict<string, Attr>)

  // ---------------------------------------------------------------------
  // Properties

  function Defaults(): Dict<string, Value> {
    [("storage", Str("tt")), ("limit_type", Str("none")), ("select_action", Str("best")), ("analysis", Flag(false))]
  }

  /** One comma item: the key before the first '=', and the text after it,
      or `True` when that text is empty. */
  function Setting(item: string): (kv: (string, Value))
    ensures '=' !in item ==> kv == (item, Flag(true))
    ensures '=' in item ==> '=' !in kv.0 && (kv.1.Str? ==> item == kv.0 + "=" + kv.1.s)
  {
    var parts := Partition(item, '=');
    (parts.0, if |parts.1| > 0 then Str(parts.1) else Flag(true))
  }

  /** The defaults with the items applied in order. */
  function Properties(items: seq<string>): Dict<string, Value>
    decreases |items|
  {
    if |items| == 0 then Defaults()
    else
      var kv := Setting(items[|items| - 1]);
      Put(Properties(items[..|items| - 1]), kv.0, kv.1)
  }

  /** The value the last item with key `key` gives, if any item has it. */
  function LastSetting(items: seq<string>, key: string): (r: Option<Value>)
    ensures r.None? <==> forall i :: 0 <= i < |items| ==> Setting(items[i]).0 != key
    decreases |items|
  {
    if |items| == 0 then None
    else if Setting(items[|items| - 1]).0 == key then Some(Setting(items[|items| - 1]).1)
    else
      var r := LastSetting(items[..|items| - 1], key);
      assert forall i :: 0 <= i < |items| - 1 ==> items[..|items| - 1][i] == items[i];
      r
  }

  /** Later items override earlier ones and the defaults; a key no item
      names keeps its default. */
  lemma {:induction false} PropertiesLookup(items: seq<string>, key: string)
    ensures HasKey(Properties(items), key) <==> HasKey(Defaults(), key) || LastSetting(items, key).Some?
    ensures LastSetting(items, key).Some? ==> Lookup(Properties(items), key) == LastSetting(items, key).value
    ensures LastSetting(items, key).None? && HasKey(Defaults(), key) ==>
              Lookup(Properties(items), key) == Lookup(Defaults(), key)
    decreases |items|
  {
    if |items| > 0 {
      var rest := items[..|items| - 1];
      var kv := Setting(items[|items| - 1]);
      PropertiesLookup(rest, key);
      PutOthers(Properties(rest), kv.0, kv.1, key);
      if kv.0 == key {
        PutRead(Properties(rest), kv.0, kv.1);
      }
    }
  }

  lemma DefaultKeys(items: seq<string>)
    ensures HasKey(Properties(items), "storage") && HasKey(Properties(items), "limit_type")
    ensures HasKey(Properties(items), "select_action") && HasKey(Properties(items), "analysis")
  {
    var d := Defaults();
    assert d[0].0 == "storage" && d[1].0 == "limit_type" && d[2].0 == "select_action" && d[3].0 == "analysis";
    PropertiesLookup(items, "storage");
    PropertiesLookup(items, "limit_type");
    PropertiesLookup(items, "select_action");
    PropertiesLookup(items, "analysis");
  }

  /** The parsing loop of `assemble_search`. */
  method ParseSpec(spec: string) returns (properties: Dict<string, Value>)
    ensures properties == Properties(Split(spec, ','))
  {
    var items := Split(spec, ',');
    properties := Defaults();
    for i := 0 to |items|
      invariant properties == Properties(items[..i])
    {
      assert items[..i + 1][..i] == items[..i];
      var kv := Setting(items[i]);
      properties := Put(properties, kv.0, kv.1);
    }
    assert items[..|items|] == items;
  }

  // ---------------------------------------------------------------------
  // assemble_search

  /** `int(value)`: `True` is 1; text must be a decimal integer, anything
      else raises ValueError. */
  function IntOf(v: Value): (r: Result<int, Exc>)
    ensures r.Err? ==> r.error == ValueError && v.Str? && ParseInt(v.s).None?
    ensures v.Str? && ParseInt(v.s).Some? ==> r == Ok(ParseInt(v.s).value)
  {
    match v
    case Flag(b) => Ok(if b then 1 else 0)
    case Str(s) => if ParseInt(s).Some? then Ok(ParseInt(s).value) else Err(ValueError)
  }

  predicate Predefined(spec: string) {
    spec == "human" || spec == "sota" || spec == "random"
  }

  predicate KnownLimit(limitType: Value) {
    limitType in {Str("none"), Str("no_exp"), Str("plies"), Str("nodes")}
  }

  predicate KnownSelector(selector: Value) {
    selector in {Str("best"), Str("random")}
  }

  /** A bounded search reads the `limit` property, and fails when it is no
      integer. */
  predicate BadLimit(props: Dict<string, Value>)
    requires HasKey(props, "limit_type")
  {
    Lookup(props, "limit_type") in {Str("plies"), Str("nodes")} && HasKey(props, "limit") &&
    IntOf(Lookup(props, "limit")).Err?
  }

  /** The expansion mixins each limit type selects; only the bounded ones
      come with a queue policy. */
  function Expansion(limitType: Value): seq<Component> {
    if limitType == Str("none") then [FullExpansion]
    else if limitType == Str("no_exp") then [NoExpansion]
    else if limitType == Str("plies") then [StepLimitedExpansion, BreadthSearch]
    else [NodeLimitedExpansion, SingleNodeBreadthSearch]
  }

  /** The attribute a bounded search sets from the `limit` property. */
  function LimitAttr(props: Dict<string, Value>): Dict<string, Attr>
    requires HasKey(props, "limit_type") && !BadLimit(props)
  {
    var limitType := Lookup(props, "limit_type");
    if limitType in {Str("plies"), Str("nodes")} && HasKey(props, "limit") then
      [(if limitType == Str("plies") then "expansion_steps" else "node_limit", Count(IntOf(Lookup(props, "limit")).value))]
    else []
  }

  /** The limit-type branch of `assemble_search`: the expansion mixins
      and the limit attribute. */
  method ExpansionStep(properties: Dict<string, Value>) returns (r: Result<(seq<Component>, Dict<string, Attr>), Exc>)
    requires HasKey(properties, "limit_type")
    ensures r.Err? <==> !KnownLimit(Lookup(properties, "limit_type")) || BadLimit(properties)
    ensures r.Err? ==> r.error == (if BadLimit(properties) then ValueError else GeneralException)
    ensures r.Ok? ==> r.value == (Expansion(Lookup(properties, "limit_type")), LimitAttr(properties))
  {
    var bases: seq<Component> := [];
    var attribs: Dict<string, Attr> := [];
    var limitType := Lookup(properties, "limit_type");
    assert "plies"[0] != "nodes"[0];
    if limitType == Str("none") {
      bases := bases + [FullExpansion];
    } else if limitType == Str("no_exp") {
      bases := bases + [NoExpansion];
    } else if limitType == Str("plies") {
      bases := bases + [StepLimitedExpansion, BreadthSearch];
      if HasKey(properties, "limit") {
        var steps :- IntOf(Lookup(properties, "limit"));
        attribs := [("expansion_steps", Count(steps))];
      }
    } else if limitType == Str("nodes") {
      bases := bases + [NodeLimitedExpansion, SingleNodeBreadthSearch];
      if HasKey(properties, "limit") {
        var nodes :- IntOf(Lookup(properties, "limit"));
        attribs := [("node_limit", Count(nodes))];
      }
    } else {
      return Err(GeneralException);
    }
    assert bases == Expansion(limitType) && attribs == LimitAttr(properties);
    return Ok((bases, attribs));
  }

  /** The properties a configuration string sets. */
  function Props(spec: string): Dict<string, Value> {
    Properties(Split(spec, ','))
  }

  predicate HasDefaults(props: Dict<string, Value>) {
    HasKey(props, "storage") && HasKey(props, "limit_type") && HasKey(props, "select_action") && HasKey(props, "analysis")
  }

  /** The string is refused: unknown storage, limit type or selector, or an
      unreadable limit for a bounded search. */
  predicate Rejected(props: Dict<string, Value>)
    requires HasDefaults(props)
  {
    Lookup(props, "storage") != Str("tt") || !KnownLimit(Lookup(props, "limit_type")) ||
    BadLimit(props) || !KnownSelector(Lookup(props, "select_action"))
  }

  /** The first failing check is the `int()` of the limit. */
  predicate FirstBadLimit(props: Dict<string, Value>)
    requires HasDefaults(props)
  {
    Lookup(props, "storage") == Str("tt") && KnownLimit(Lookup(props, "limit_type")) && BadLimit(props)
  }

  /** The mixins in their order: storage, expansion, the fixed evaluation
      mixins, the selector, the optional analysis, the search base. */
  function Bases(props: Dict<string, Value>): seq<Component>
    requires HasDefaults(props)
  {
    [TranspositionTable] + Expansion(Lookup(props, "limit_type")) + [AllCombinations, ZeroSumPlayer, Minimax] +
    [if Lookup(props, "select_action") == Str("best") then BestMovePlayer else RandomChooser] +
    (if Truthy(Lookup(props, "analysis")) then [TTAnalysis] else []) + [Search]
  }

  /** The class attributes: the limit, then the evaluation function. */
  function Attribs(props: Dict<string, Value>): Dict<string, Attr>
    requires HasDefaults(props) && !BadLimit(props)
  {
    LimitAttr(props) + (if HasKey(props, "eval_func") then [("evaluation_function", Passed(Lookup(props, "eval_func")))] else [])
  }

  /** `assemble_search`: the predefined AIs by name; otherwise the
      properties parsed from the string select a transposition table, the
      expansion mixins of the limit type, the fixed evaluation mixins, the
      action selector, the analysis mixin when asked for, and the search
      base last. Unknown storage, limit types and selectors raise, checked
      in that order, and so does an unreadable limit (ValueError). */
  method AssembleSearch(spec: string) returns (r: Result<Option<AI>, Exc>)
    ensures spec == "human" ==> r == Ok(None)
    ensures spec == "sota" ==> r == Ok(Some(StateOfTheArt))
    ensures spec == "random" ==> r == Ok(Some(RandomAI))
    ensures !Predefined(spec) ==> HasDefaults(Props(spec)) && (r.Err? <==> Rejected(Props(spec)))
    ensures !Predefined(spec) && r.Err? ==> r.error == (if FirstBadLimit(Props(spec)) then ValueError else GeneralException)
    ensures !Predefined(spec) && r.Ok? ==> r.value == Some(Assembled(Bases(Props(spec)), Attribs(Props(spec))))
  {
    if spec == "human" {
      return Ok(None);
    } else if spec == "sota" {
      return Ok(Some(StateOfTheArt));
    } else if spec == "random" {
      return Ok(Some(RandomAI));
    }
    var properties := ParseSpec(spec);
    DefaultKeys(Split(spec, ','));
    var search :- Assemble(properties);
    r := Ok(Some(search));
  }

  /** The class-building half of `assemble_search`, from the parsed
      properties. */
  method Assemble(properties: Dict<string, Value>) returns (r: Result<AI, Exc>)
    requires HasDefaults(properties)
    ensures r.Err? <==> Rejected(properties)
    ensures r.Err? ==> r.error == (if FirstBadLimit(properties) then ValueError else GeneralException)
    ensures r.Ok? ==> r.value == Assembled(Bases(properties), Attribs(properties))
  {
    var bases: seq<Component> := [];
    var attribs: Dict<string, Attr> := [];

    var storageType := Lookup(properties, "storage");
    if storageType == Str("tt") {
      bases := bases + [TranspositionTable];
    } else {
      return Err(GeneralException);
    }

    var expansion :- ExpansionStep(properties);
    bases := bases + expansion.0;
    attribs := expansion.1;

    bases := bases + [AllCombinations, ZeroSumPlayer, Minimax];
    if HasKey(properties, "eval_func") {
      attribs := attribs + [("evaluation_function", Passed(Lookup(properties, "eval_func")))];
    }

    var actionSelection := Lookup(properties, "select_action");
    if actionSelection == Str("best") {
      bases := bases + [BestMovePlayer];
    } else if actionSelection == Str("random") {
      bases := bases + [RandomChooser];
    } else {
      return Err(GeneralException);
    }

    // The storage is a transposition table by now, so asking for analysis
    // always finds the matching mixin.
    if Truthy(Lookup(properties, "analysis")) {
      bases := bases + [TTAnalysis];
    }

    bases := bases + [Search];
    assert bases == Bases(properties);
    r := Ok(Assembled(bases, attribs));
  }

  /** Only the bounded limit types give an assembled search a queue policy;
      with `none` or `no_exp` none of its mixins supplies one. */
  lemma QueuePolicy(props: Dict<string, Value>)
    requires HasDefaults(props) && KnownLimit(Lookup(props, "limit_type"))
    ensures BreadthSearch in Bases(props) <==> Lookup(props, "limit_type") == Str("plies")
    ensures SingleNodeBreadthSearch in Bases(props) <==> Lookup(props, "limit_type") == Str("nodes")
    ensures Bases(props)[0] == TranspositionTable && Bases(props)[|Bases(props)| - 1] == Search
  {
    var lt := Lookup(props, "limit_type");
    var tail := [AllCombinations, ZeroSumPlayer, Minimax] +
      [if Lookup(props, "select_action") == Str("best") then BestMovePlayer else RandomChooser] +
      (if Truthy(Lookup(props, "analysis")) then [TTAnalysis] else []) + [Search];
    assert Bases(props) == [TranspositionTable] + Expansion(lt) + tail;
    assert BreadthSearch !in tail && SingleNodeBreadthSearch !in tail;
    assert "plies"[0] != "nodes"[0];
  }

  /** The queue policy an assembled class inherits `setup_expansion` from:
      the first queue mixin among its bases, or none. */
  function QueueOf(bases: seq<Component>): (q: Option<SearchGame.Queue>)
    ensures q.None? <==> BreadthSearch !in bases && SingleNodeBreadthSearch !in bases
    decreases |bases|
  {
    if |bases| == 0 then None
    else if bases[0] == BreadthSearch then Some(SearchGame.BreadthSearch)
    else if bases[0] == SingleNodeBreadthSearch then Some(SearchGame.SingleNodeBreadthSearch)
    else
      assert bases == [bases[0]] + bases[1..];
      QueueOf(bases[1..])
  }

  /** The first queue mixin of a concatenation is the first one of its
      front part, when that has one. */
  lemma {:induction false} QueueOfFront(a: seq<Component>, b: seq<Component>)
    ensures QueueOf(a + b) == if QueueOf(a).Some? then QueueOf(a) else QueueOf(b)
    decreases |a|
  {
    if |a| > 0 {
      assert (a + b)[0] == a[0] && (a + b)[1..] == a[1..] + b;
      QueueOfFront(a[1..], b);
    } else {
      assert a + b == b;
    }
  }

  /** Constructing an assembled search: with the `none` or `no_exp` limit
      type no mixin defines `setup_expansion`, so `Search.__init__` raises
      NotImplementedError; `plies` sets up a breadth queue and `nodes` a
      single-node breadth queue. */
  lemma AssembledSetup(props: Dict<string, Value>, cfg: SearchGame.Config)
    requires HasDefaults(props) && KnownLimit(Lookup(props, "limit_type"))
    requires cfg.queue == QueueOf(Bases(props))
    ensures SearchGame.SetupExpansion(cfg) == Err(NotImplementedError) <==>
              Lookup(props, "limit_type") in {Str("none"), Str("no_exp")}
    ensures Lookup(props, "limit_type") == Str("plies") ==> SearchGame.SetupExpansion(cfg) == Ok(SearchGame.BreadthSearch)
    ensures Lookup(props, "limit_type") == Str("nodes") ==> SearchGame.SetupExpansion(cfg) == Ok(SearchGame.SingleNodeBreadthSearch)
  {
    var lt := Lookup(props, "limit_type");
    var front := [TranspositionTable] + Expansion(lt);
    var chooser := if Lookup(props, "select_action") == Str("best") then BestMovePlayer else RandomChooser;
    var extra := if Truthy(Lookup(props, "analysis")) then [TTAnalysis] else [];
    var tail := [AllCombinations, ZeroSumPlayer, Minimax, chooser] + extra + [Search];
    assert Bases(props) == front + tail;
    QueueOfFront(front, tail);
    assert BreadthSearch !in tail && SingleNodeBreadthSearch !in tail;
    FrontQueue(lt);
  }

  /** The queue mixin the storage and expansion mixins bring, per limit type. */
  lemma FrontQueue(lt: Value)
    requires KnownLimit(lt)
    ensures QueueOf([TranspositionTable] + Expansion(lt)) ==
              if lt == Str("plies") then Some(SearchGame.BreadthSearch)
              else if lt == Str("nodes") then Some(SearchGame.SingleNodeBreadthSearch)
              else None
  {
    assert "plies"[0] != "nodes"[0];
    var front := [TranspositionTable] + Expansion(lt);
    if lt == Str("plies") {
      assert "plies"[0] != "none"[0] && "plies"[0] != "no_exp"[0];
      assert front[1..][1..] == [BreadthSearch];
      assert QueueOf(front[1..][1..]) == Some(SearchGame.BreadthSearch);
      assert QueueOf(front[1..]) == Some(SearchGame.BreadthSearch);
    } else if lt == Str("nodes") {
      assert "nodes"[2] != "none"[2] && "nodes"[2] != "no_exp"[2] && "nodes"[0] != "plies"[0];
      assert front[1..][1..] == [SingleNodeBreadthSearch];
      assert QueueOf(front[1..][1..]) == Some(SearchGame.SingleNodeBreadthSearch);
      assert QueueOf(front[1..]) == Some(SearchGame.SingleNodeBreadthSearch);
    }
  }

  /** A configuration string that sets a key twice uses the later value. */
  lemma LaterWins(a: string, key: string, v1: string, v2: string)
    requires '=' !in key && '=' !in v1 && '=' !in v2 && ',' !in key && ',' !in v1 && ',' !in v2
    requires |v2| > 0
    ensures var props := Properties([key + "=" + v1, key + "=" + v2]);
            HasKey(props, key) && Lookup(props, key) == Str(v2)
  {
    var items := [key + "=" + v1, key + "=" + v2];
    var item := key + "=" + v2;
    assert item[|key|] == '=';
    PartitionAt(key, v2);
    assert Setting(items[1]) == (key, Str(v2));
    PropertiesLookup(items, key);
  }

  /** Partitioning `k=v` at its first '=' gives back `k` and `v`. */
  lemma {:induction false} PartitionAt(k: string, v: string)
    requires '=' !in k
    ensures Partition(k + "=" + v, '=') == (k, v)
  {
    var s := k + "=" + v;
    assert s[|k|] == '=';
    var kv := Partition(s, '=');
    assert s == kv.0 + "=" + kv.1;
    assert s[|kv.0|] == '=';
    assert |kv.0| == |k|;
    assert kv.0 == s[..|k|] == k;
    assert kv.1 == s[|k| + 1..] == v;
  }

  // ---------------------------------------------------------------------
  // map_ais_to_players

  /** `{p: v for p, v in zip(ps, vs)}`: later pairs overwrite earlier ones. */
  function FromPairs<P(==,!new), V>(ps: seq<P>, vs: seq<V>): (d: Dict<P, V>)
    requires |ps| == |vs|
    ensures DistinctKeys(d)
    ensures forall p :: HasKey(d, p) <==> p in ps
    decreases |ps|
  {
    if |ps| == 0 then []
    else
      var n := |ps|;
      var rest := FromPairs(ps[..n - 1], vs[..n - 1]);
      PutLookup(rest, ps[n - 1], vs[n - 1]);
      assert forall p :: HasKey(rest, p) <==> p in ps[..n - 1];
      assert ps == ps[..n - 1] + [ps[n - 1]];
      forall p ensures HasKey(Put(rest, ps[n - 1], vs[n - 1]), p) <==> p in ps {
        PutOthers(rest, ps[n - 1], vs[n - 1], p);
      }
      Put(rest, ps[n - 1], vs[n - 1])
  }

  predicate Distinct<P(==,!new)>(ps: seq<P>) {
    forall i, j :: 0 <= i < j < |ps| ==> ps[i] != ps[j]
  }

  /** With distinct players, each is mapped to its own value. */
  lemma {:induction false} FromPairsLookup<P(!new), V>(ps: seq<P>, vs: seq<V>, i: int)
    requires |ps| == |vs| && Distinct(ps) && 0 <= i < |ps|
    ensures HasKey(FromPairs(ps, vs), ps[i]) && Lookup(FromPairs(ps, vs), ps[i]) == vs[i]
    decreases |ps|
  {
    var n := |ps|;
    var rest := FromPairs(ps[..n - 1], vs[..n - 1]);
    if i == n - 1 {
      PutRead(rest, ps[i], vs[i]);
    } else {
      FromPairsLookup(ps[..n - 1], vs[..n - 1], i);
      PutOthers(rest, ps[n - 1], vs[n - 1], ps[i]);
    }
  }

  lemma FromPairsAll<P(!new), V>(ps: seq<P>, vs: seq<V>)
    requires |ps| == |vs|
    ensures Distinct(ps) ==> forall i :: 0 <= i < |ps| ==> Lookup(FromPairs(ps, vs), ps[i]) == vs[i]
  {
    if Distinct(ps) {
      forall i | 0 <= i < |ps| ensures Lookup(FromPairs(ps, vs), ps[i]) == vs[i] {
        FromPairsLookup(ps, vs, i);
      }
    }
  }

  /** The players whose entry is not a human, in the dict's order. */
  function NonHuman<P(==,!new)>(d: Dict<P, Option<AI>>): (ps: seq<P>)
    ensures forall p :: p in ps <==> exists i :: 0 <= i < |d| && d[i].0 == p && d[i].1.Some?
    decreases |d|
  {
    if |d| == 0 then []
    else
      var rest := NonHuman(d[..|d| - 1]);
      assert forall i :: 0 <= i < |d| - 1 ==> d[..|d| - 1][i] == d[i];
      rest + (if d[|d| - 1].1.Some? then [d[|d| - 1].0] else [])
  }

  lemma NonHumanLookup<P(!new)>(d: Dict<P, Option<AI>>, p: P)
    requires DistinctKeys(d)
    ensures p in NonHuman(d) <==> HasKey(d, p) && Lookup(d, p).Some?
  {
    if p in NonHuman(d) {
      var i :| 0 <= i < |d| && d[i].0 == p && d[i].1.Some?;
      LookupAt(d, i);
    }
    if HasKey(d, p) {
      LookupAt(d, IndexOf(d, p));
    }
  }

  lemma NonHumanAll<P(!new)>(d: Dict<P, Option<AI>>)
    requires DistinctKeys(d)
    ensures forall p :: p in NonHuman(d) <==> HasKey(d, p) && Lookup(d, p).Some?
  {
    forall p ensures p in NonHuman(d) <==> HasKey(d, p) && Lookup(d, p).Some? {
      NonHumanLookup(d, p);
    }
  }

  /** `map_ais_to_players`: with no AI classes every player gets the
      default AI, with one class every player gets it, and in both cases
      the AI players are the ones the user names (`queried`). With more
      classes, or none, they are matched to the players in order, a
      differing count raising, and the AI players are exactly the players
      not left to a human. */
  function MapAIsToPlayers<P(==,!new)>(players: seq<P>, aiClasses: Option<seq<Option<AI>>>, queried: seq<P>):
    (r: Result<(seq<P>, Dict<P, Option<AI>>), Exc>)
    ensures aiClasses.None? ==>
              r.Ok? && r.value.0 == queried && forall p :: HasKey(r.value.1, p) <==> p in players
    ensures aiClasses.None? && Distinct(players) ==>
              forall i :: 0 <= i < |players| ==> Lookup(r.value.1, players[i]) == Some(DefaultAI)
    ensures aiClasses.Some? && |aiClasses.value| == 1 ==>
              r.Ok? && r.value.0 == queried && forall p :: HasKey(r.value.1, p) <==> p in players
    ensures aiClasses.Some? && |aiClasses.value| == 1 && Distinct(players) ==>
              forall i :: 0 <= i < |players| ==> Lookup(r.value.1, players[i]) == aiClasses.value[0]
    ensures aiClasses.Some? && |aiClasses.value| != 1 ==>
              (r.Err? <==> |aiClasses.value| != |players|) && (r.Err? ==> r.error == GeneralException)
    ensures aiClasses.Some? && |aiClasses.value| != 1 && r.Ok? ==>
              (forall p :: HasKey(r.value.1, p) <==> p in players) &&
              forall p :: p in r.value.0 <==> HasKey(r.value.1, p) && Lookup(r.value.1, p).Some?
    ensures aiClasses.Some? && |aiClasses.value| != 1 && r.Ok? && Distinct(players) ==>
              forall i :: 0 <= i < |players| ==> Lookup(r.value.1, players[i]) == aiClasses.value[i]
  {
    match aiClasses
    case None =>
      var vs := seq(|players|, _ => Some(DefaultAI));
      FromPairsAll(players, vs);
      Ok((queried, FromPairs(players, vs)))
    case Some(classes) =>
      if |classes| == 1 then
        var vs := seq(|players|, _ => classes[0]);
        FromPairsAll(players, vs);
        Ok((queried, FromPairs(players, vs)))
      else if |classes| != |players| then Err(GeneralException)
      else
        var d := FromPairs(players, classes);
        FromPairsAll(players, classes);
        NonHumanAll(d);
        Ok((NonHuman(d), d))
  }
}
