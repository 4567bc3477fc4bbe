/** `BestPaths.select_action`: every path from the current state that
    follows, edge by edge, children whose value equals the opinion value of
    their parent, without revisiting a hash, down to a state with a winner. */
module BestPaths {
  import opened Common
  import opened Scores
  import opened Minimax
  import opened SearchTable

  /** Every child edge leads to a state that has a value. */
  predicate AllValued<P, M, H(==)>(edges: seq<Edge<P, M, H>>, value: map<H, Score>) {
    forall i :: 0 <= i < |edges| ==> edges[i].other in value
  }

  /** The comprehension over `children[here]` in `find_path`: the targets
      whose value equals `best` (Python `==`) and that are not on the path,
      in edge order, repeats included. Reading `value[h]` comes first, so a
      target without a value raises KeyError even if it is on the path. */
  function Successors<P, M, H(==)>(edges: seq<Edge<P, M, H>>, value: map<H, Score>, best: Score, path: seq<H>)
    : (r: Result<seq<H>, Exc>)
    ensures r.Ok? <==> AllValued(edges, value)
    ensures r.Err? ==> r.error == KeyError
    ensures r.Ok? ==> forall k :: 0 <= k < |r.value| ==>
                        r.value[k] in Ends(edges) && r.value[k] in value && Same(value[r.value[k]], best) && r.value[k] !in path
    ensures r.Ok? ==> forall i :: 0 <= i < |edges| && Same(value[edges[i].other], best) && edges[i].other !in path ==>
                        edges[i].other in r.value
    decreases |edges|
  {
    if |edges| == 0 then Ok([])
    else
      var h := edges[0].other;
      if h !in value then Err(KeyError)
      else
        var rest := Successors(edges[1..], value, best, path);
        assert Ends(edges) == [h] + Ends(edges[1..]);
        assert forall i :: 1 <= i < |edges| ==> edges[i] == edges[1..][i - 1];
        if rest.Err? then Err(KeyError)
        else Ok(if Same(value[h], best) && h !in path then [h] + rest.value else rest.value)
  }

  /** The hashes on a path, as a set. */
  function OnPath<H>(path: seq<H>): set<H> {
    set h | h in path
  }

  /** `[here] + rest_path` for each of the paths found from one successor. */
  function Prefixed<H>(here: H, paths: seq<seq<H>>): (r: seq<seq<H>>)
    ensures |r| == |paths| && forall j :: 0 <= j < |paths| ==> r[j] == [here] + paths[j]
  {
    seq(|paths|, j requires 0 <= j < |paths| => [here] + paths[j])
  }

  /** `find_path(path_so_far)`. Hashes missing from `known_states`,
      `opinion` or `value` raise KeyError, as the dict reads do. */
  function FindPath<S, P, M, H(==)>(t: Table<S, P, M, H>, winner: S -> Option<P>, path: seq<H>)
    : Result<seq<seq<H>>, Exc>
    requires |path| > 0
    decreases t.known.Keys - OnPath(path), 1, 0
  {
    var here := path[|path| - 1];
    if here !in t.known then Err(KeyError)
    else if winner(t.known[here]).Some? then Ok([[here]])
    else if here !in t.opinion then Err(KeyError)
    else
      var succs :- Successors(ChildrenOf(t, here), t.value, t.opinion[here].score, path);
      FollowAll(t, winner, path, succs)
  }

  /** The loop over the successors in `find_path`, one at a time. */
  function FollowAll<S, P, M, H(==)>(t: Table<S, P, M, H>, winner: S -> Option<P>, path: seq<H>, succs: seq<H>)
    : Result<seq<seq<H>>, Exc>
    requires |path| > 0
    requires forall k :: 0 <= k < |succs| ==> succs[k] !in path
    decreases t.known.Keys - OnPath(path), 0, |succs|
  {
    if |succs| == 0 then Ok([])
    else
      var s := succs[0];
      var found :- if s !in t.known then Err(KeyError)
                   else
                     assert OnPath(path + [s]) == OnPath(path) + {s};
                     FindPath(t, winner, path + [s]);
      var others :- FollowAll(t, winner, path, succs[1..]);
      Ok(Prefixed(path[|path| - 1], found) + others)
  }

  /** `select_action`: the paths from the current state's hash. */
  function SelectPaths<S, P, M, H(==)>(t: Table<S, P, M, H>, winner: S -> Option<P>, root: H): Result<seq<seq<H>>, Exc> {
    FindPath(t, winner, [root])
  }

  ghost predicate Distinct<H>(xs: seq<H>) {
    forall i, j :: 0 <= i < j < |xs| ==> xs[i] != xs[j]
  }

  /** Every step of the path goes along a child edge to a child whose value
      equals the opinion value of the node it leaves. */
  ghost predicate FollowsBest<S, P, M, H>(t: Table<S, P, M, H>, p: seq<H>) {
    forall k {:trigger p[k]} :: 0 <= k < |p| - 1 ==> BestEdge(t, p[k], p[k + 1])
  }

  /** b is a child of a whose value equals a's opinion value. */
  ghost predicate BestEdge<S, P, M, H>(t: Table<S, P, M, H>, a: H, b: H) {
    a in t.opinion && b in Ends(ChildrenOf(t, a)) && b in t.value && Same(t.value[b], t.opinion[a].score)
  }

  /** The hash is known and its state has no winner. */
  ghost predicate Undecided<S, P, M, H>(t: Table<S, P, M, H>, winner: S -> Option<P>, h: H) {
    h in t.known && winner(t.known[h]).None?
  }

  /** Every state of the path but the last is known and has no winner. */
  ghost predicate NoEarlyWinner<S, P, M, H>(t: Table<S, P, M, H>, winner: S -> Option<P>, p: seq<H>) {
    forall k {:trigger Undecided(t, winner, p[k])} :: 0 <= k < |p| - 1 ==> Undecided(t, winner, p[k])
  }

  /** A path found from `path_so_far`: it starts at the last hash so far,
      continues the path so far without repeating a hash, follows best
      edges, meets no winner before its end, and ends at a known state with
      a winner. */
  ghost predicate Found<S, P, M, H>(t: Table<S, P, M, H>, winner: S -> Option<P>, prior: seq<H>, p: seq<H>) {
    |p| > 0 && |prior| > 0 && p[0] == prior[|prior| - 1] &&
    Distinct(prior[..|prior| - 1] + p) && FollowsBest(t, p) && NoEarlyWinner(t, winner, p) &&
    p[|p| - 1] in t.known && winner(t.known[p[|p| - 1]]).Some?
  }

  /** Every path `find_path` returns starts where it was asked to, never
      repeats a hash, follows only best edges, and ends at the first winner
      it meets. */
  lemma {:induction false} FindPathFound<S, P, M, H>(t: Table<S, P, M, H>, winner: S -> Option<P>, path: seq<H>)
    requires |path| > 0 && Distinct(path)
    requires FindPath(t, winner, path).Ok?
    ensures forall j :: 0 <= j < |FindPath(t, winner, path).value| ==> Found(t, winner, path, FindPath(t, winner, path).value[j])
    decreases t.known.Keys - OnPath(path), 1, 0
  {
    var here := path[|path| - 1];
    if winner(t.known[here]).None? {
      var succs := Successors(ChildrenOf(t, here), t.value, t.opinion[here].score, path).value;
      FollowAllFound(t, winner, path, succs);
    } else {
      assert path[..|path| - 1] + [here] == path;
    }
  }

  lemma {:induction false} FollowAllFound<S, P, M, H>(t: Table<S, P, M, H>, winner: S -> Option<P>, path: seq<H>, succs: seq<H>)
    requires |path| > 0 && Distinct(path)
    requires forall k :: 0 <= k < |succs| ==> succs[k] !in path
    requires path[|path| - 1] in t.opinion
    requires path[|path| - 1] in t.known && winner(t.known[path[|path| - 1]]).None?
    requires forall k :: 0 <= k < |succs| ==>
               succs[k] in Ends(ChildrenOf(t, path[|path| - 1])) && succs[k] in t.value &&
               Same(t.value[succs[k]], t.opinion[path[|path| - 1]].score)
    requires FollowAll(t, winner, path, succs).Ok?
    ensures forall j :: 0 <= j < |FollowAll(t, winner, path, succs).value| ==> Found(t, winner, path, FollowAll(t, winner, path, succs).value[j])
    decreases t.known.Keys - OnPath(path), 0, |succs|
  {
    if |succs| > 0 {
      var here := path[|path| - 1];
      var s := succs[0];
      var longer := path + [s];
      assert OnPath(longer) == OnPath(path) + {s};
      assert Distinct(longer);
      var found := FindPath(t, winner, longer).value;
      FindPathFound(t, winner, longer);
      FollowAllFound(t, winner, path, succs[1..]);
      var r := FollowAll(t, winner, path, succs).value;
      assert r == Prefixed(here, found) + FollowAll(t, winner, path, succs[1..]).value;
      forall j | 0 <= j < |found| ensures Found(t, winner, path, [here] + found[j]) {
        ExtendFound(t, winner, path, s, found[j]);
      }
    }
  }

  /** Putting the current hash in front of a path found from a best
      successor gives a path found from the current hash. */
  lemma ExtendFound<S, P, M, H>(t: Table<S, P, M, H>, winner: S -> Option<P>, path: seq<H>, s: H, q: seq<H>)
    requires |path| > 0 && Distinct(path)
    requires path[|path| - 1] in t.opinion
    requires path[|path| - 1] in t.known && winner(t.known[path[|path| - 1]]).None?
    requires s in Ends(ChildrenOf(t, path[|path| - 1])) && s in t.value && Same(t.value[s], t.opinion[path[|path| - 1]].score)
    requires Found(t, winner, path + [s], q)
    ensures Found(t, winner, path, [path[|path| - 1]] + q)
  {
    var here := path[|path| - 1];
    var p := [here] + q;
    assert (path + [s])[..|path|] == path;
    assert path[..|path| - 1] + p == path + q;
    forall k | 0 <= k < |p| - 1 ensures BestEdge(t, p[k], p[k + 1]) {
      if k > 0 {
        assert p[k] == q[k - 1] && p[k + 1] == q[k];
        assert BestEdge(t, q[k - 1], q[k - 1 + 1]);
      }
    }
    forall k | 0 <= k < |p| - 1 ensures Undecided(t, winner, p[k]) {
      if k > 0 {
        assert p[k] == q[k - 1];
        assert Undecided(t, winner, q[k - 1]);
      }
    }
  }

  /** Conversely, `find_path` misses no best path: every path from the last
      hash so far that continues it without repeats, follows best edges, and
      meets a winner only at its end is among the paths returned. With
      FindPathFound, membership in the result is exactly `Found`. */
  lemma {:induction false} FindPathComplete<S, P, M, H>(t: Table<S, P, M, H>, winner: S -> Option<P>, path: seq<H>, p: seq<H>)
    requires |path| > 0 && Distinct(path)
    requires FindPath(t, winner, path).Ok?
    requires Found(t, winner, path, p)
    ensures p in FindPath(t, winner, path).value
    decreases t.known.Keys - OnPath(path)
  {
    var here := path[|path| - 1];
    if |p| == 1 {
      TerminalFound(t, winner, path, p);
    } else {
      var s := p[1];
      var longer := path + [s];
      var q := p[1..];
      ShortenFound(t, winner, path, p);
      BestSuccessorCovered(t, winner, path, s);
      assert OnPath(longer) == OnPath(path) + {s};
      FindPathComplete(t, winner, longer, q);
      assert [here] + q == p;
    }
  }

  /** A found path of one hash: the last hash so far, which has a winner,
      and is the one path `find_path` returns. */
  lemma TerminalFound<S, P, M, H>(t: Table<S, P, M, H>, winner: S -> Option<P>, path: seq<H>, p: seq<H>)
    requires |path| > 0 && Found(t, winner, path, p) && |p| == 1
    ensures p == [path[|path| - 1]] && FindPath(t, winner, path) == Ok([p])
  {
  }

  /** The converse of ExtendFound: a found path of two or more hashes
      leaves along a best edge to a hash off the path, and its tail is a
      path found from the path so far extended by that hash. */
  lemma ShortenFound<S, P, M, H>(t: Table<S, P, M, H>, winner: S -> Option<P>, path: seq<H>, p: seq<H>)
    requires |path| > 0 && Distinct(path)
    requires Found(t, winner, path, p) && |p| > 1
    ensures path[|path| - 1] in t.known && winner(t.known[path[|path| - 1]]).None?
    ensures BestEdge(t, path[|path| - 1], p[1]) && p[1] !in path
    ensures Distinct(path + [p[1]]) && Found(t, winner, path + [p[1]], p[1..])
  {
    var here := path[|path| - 1];
    var s := p[1];
    var q := p[1..];
    DropFirst(t, winner, p);
    var ds := path[..|path| - 1] + p;
    assert ds == path + q by {
      assert p == [here] + q;
      assert path == path[..|path| - 1] + [here];
    }
    assert ds[|path|] == s;
    forall j | 0 <= j < |path| ensures path[j] != s {
      assert ds[j] == path[j];
    }
    var longer := path + [s];
    assert longer[..|longer| - 1] == path;
  }

  /** The first step of a best path without an early winner, and the rest
      of it, which is again such a path. */
  lemma DropFirst<S, P, M, H>(t: Table<S, P, M, H>, winner: S -> Option<P>, p: seq<H>)
    requires |p| > 1 && FollowsBest(t, p) && NoEarlyWinner(t, winner, p)
    ensures BestEdge(t, p[0], p[1]) && Undecided(t, winner, p[0])
    ensures FollowsBest(t, p[1..]) && NoEarlyWinner(t, winner, p[1..])
  {
    var q := p[1..];
    forall k | 0 <= k < |q| - 1 ensures BestEdge(t, q[k], q[k + 1]) {
      assert q[k] == p[k + 1] && q[k + 1] == p[k + 1 + 1];
    }
    assert Undecided(t, winner, p[0]);
    forall k | 0 <= k < |q| - 1 ensures Undecided(t, winner, q[k]) {
      assert q[k] == p[k + 1];
      assert Undecided(t, winner, p[k + 1]);
    }
  }

  /** A best child off the path of a state without a winner is one of the
      successors `find_path` follows: its search succeeds, and every path it
      finds comes back with the current hash in front. */
  lemma BestSuccessorCovered<S, P, M, H>(t: Table<S, P, M, H>, winner: S -> Option<P>, path: seq<H>, s: H)
    requires |path| > 0 && FindPath(t, winner, path).Ok?
    requires path[|path| - 1] in t.known && winner(t.known[path[|path| - 1]]).None?
    requires BestEdge(t, path[|path| - 1], s) && s !in path
    ensures s in t.known && FindPath(t, winner, path + [s]).Ok?
    ensures forall q :: q in FindPath(t, winner, path + [s]).value ==> [path[|path| - 1]] + q in FindPath(t, winner, path).value
  {
    var here := path[|path| - 1];
    var succs := Successors(ChildrenOf(t, here), t.value, t.opinion[here].score, path).value;
    assert FindPath(t, winner, path) == FollowAll(t, winner, path, succs);
    var i :| 0 <= i < |succs| && succs[i] == s;
    FollowAllCovers(t, winner, path, succs, i);
  }

  /** When the loop over the successors succeeds, each successor is known,
      its own search succeeds, and every path it finds comes back with the
      current hash in front. */
  lemma {:induction false} FollowAllCovers<S, P, M, H>(t: Table<S, P, M, H>, winner: S -> Option<P>, path: seq<H>, succs: seq<H>, i: nat)
    requires |path| > 0
    requires forall k :: 0 <= k < |succs| ==> succs[k] !in path
    requires FollowAll(t, winner, path, succs).Ok?
    requires i < |succs|
    ensures succs[i] in t.known && FindPath(t, winner, path + [succs[i]]).Ok?
    ensures forall q :: q in FindPath(t, winner, path + [succs[i]]).value ==>
              [path[|path| - 1]] + q in FollowAll(t, winner, path, succs).value
    decreases |succs|
  {
    var found := FindPath(t, winner, path + [succs[0]]);
    var others := FollowAll(t, winner, path, succs[1..]);
    assert FollowAll(t, winner, path, succs) == Ok(Prefixed(path[|path| - 1], found.value) + others.value);
    if i > 0 {
      FollowAllCovers(t, winner, path, succs[1..], i - 1);
    } else {
      forall q | q in found.value ensures [path[|path| - 1]] + q in FollowAll(t, winner, path, succs).value {
        var j :| 0 <= j < |found.value| && found.value[j] == q;
        assert Prefixed(path[|path| - 1], found.value)[j] == [path[|path| - 1]] + q;
      }
    }
  }

  /** A current state that already has a winner yields exactly [[root]]. */
  lemma TerminalRoot<S, P, M, H>(t: Table<S, P, M, H>, winner: S -> Option<P>, root: H)
    requires root in t.known && winner(t.known[root]).Some?
    ensures SelectPaths(t, winner, root) == Ok([[root]])
  {
  }
}
