/** The numbers the search engine computes with: Python ints extended by
    `math.inf`, `-math.inf` and, because `inf + -inf` does occur (a
    zero-sum valuation of a three-player win), by NaN. Every operation
    follows Python's float semantics for these four kinds of value. */
module Scores {

  datatype Score = NegInf | Fin(n: int) | PosInf | NaN

  /** Python `a < b`; every comparison involving NaN is false. */
  predicate Less(a: Score, b: Score) {
    match (a, b)
    case (NaN, _) => false
    case (_, NaN) => false
    case (NegInf, NegInf) => false
    case (NegInf, _) => true
    case (Fin(x), Fin(y)) => x < y
    case (Fin(_), PosInf) => true
    case _ => false
  }

  /** Python `a == b`: NaN equals nothing, not even itself. */
  predicate Same(a: Score, b: Score) {
    a == b && !a.NaN?
  }

  predicate NoNaN(xs: seq<Score>) {
    forall i :: 0 <= i < |xs| ==> !xs[i].NaN?
  }

  /** Without NaN, `<` is a strict total order. */
  lemma LessOrder(a: Score, b: Score, c: Score)
    requires !a.NaN? && !b.NaN? && !c.NaN?
    ensures !Less(a, a)
    ensures Less(a, b) && Less(b, c) ==> Less(a, c)
    ensures Less(a, b) || a == b || Less(b, a)
    ensures Less(a, b) ==> !Less(b, a)
  {
  }

  /** Python `min(a, b)`: b only when it is strictly smaller. */
  function Min2(a: Score, b: Score): (r: Score)
    ensures r == a || r == b
    ensures !a.NaN? && !b.NaN? ==> !Less(a, r) && !Less(b, r)
    ensures a.NaN? ==> r == a
    ensures b.NaN? ==> r == a
  {
    if Less(b, a) then b else a
  }

  /** One step of Python's `max`: the running maximum is replaced only by
      a strictly greater item. */
  function Max2(current: Score, item: Score): Score {
    if Less(current, item) then item else current
  }

  /** Python `max(xs)`, a left fold of Max2 over the items. */
  function MaxOf(xs: seq<Score>): (r: Score)
    requires |xs| > 0
    ensures exists i :: 0 <= i < |xs| && xs[i] == r
    ensures NoNaN(xs) ==> forall i :: 0 <= i < |xs| ==> !Less(r, xs[i])
    decreases |xs|
  {
    if |xs| == 1 then xs[0]
    else
      var front := MaxOf(xs[..|xs| - 1]);
      assert forall i :: 0 <= i < |xs| - 1 ==> xs[..|xs| - 1][i] == xs[i];
      var r := Max2(front, xs[|xs| - 1]);
      assert NoNaN(xs) ==> forall i :: 0 <= i < |xs| ==> !Less(r, xs[i]) by {
        if NoNaN(xs) {
          forall i | 0 <= i < |xs| ensures !Less(r, xs[i]) {
            var j :| 0 <= j < |xs| - 1 && xs[j] == front;
            LessOrder(r, front, xs[i]);
            LessOrder(r, xs[|xs| - 1], xs[i]);
            LessOrder(front, xs[|xs| - 1], xs[i]);
          }
        }
      }
      r
  }

  /** Python unary minus. */
  function Neg(a: Score): (r: Score)
    ensures a.Fin? <==> r.Fin?
    ensures a.NaN? <==> r.NaN?
    ensures a.PosInf? <==> r.NegInf?
  {
    match a
    case NegInf => PosInf
    case Fin(x) => Fin(-x)
    case PosInf => NegInf
    case NaN => NaN
  }

  /** Python `a + b`: opposite infinities give NaN. */
  function Add(a: Score, b: Score): (r: Score)
    ensures a.Fin? && b.Fin? ==> r == Fin(a.n + b.n)
    ensures r.NaN? <==> a.NaN? || b.NaN? || (a.PosInf? && b.NegInf?) || (a.NegInf? && b.PosInf?)
  {
    match (a, b)
    case (NaN, _) => NaN
    case (_, NaN) => NaN
    case (PosInf, NegInf) => NaN
    case (NegInf, PosInf) => NaN
    case (PosInf, _) => PosInf
    case (_, PosInf) => PosInf
    case (NegInf, _) => NegInf
    case (_, NegInf) => NegInf
    case (Fin(x), Fin(y)) => Fin(x + y)
  }

  /** Python `a - b`, which IEEE arithmetic defines as `a + (-b)`. */
  function Sub(a: Score, b: Score): Score {
    Add(a, Neg(b))
  }

  /** Python `a * w` for an integer weight w: an infinity times 0 is NaN. */
  function Scale(a: Score, w: int): (r: Score)
    ensures a.Fin? ==> r == Fin(a.n * w)
    ensures w == 1 ==> r == a
    ensures !a.Fin? && w == 0 ==> r.NaN?
  {
    match a
    case Fin(x) => Fin(x * w)
    case NaN => NaN
    case PosInf => if w > 0 then PosInf else if w < 0 then NegInf else NaN
    case NegInf => if w > 0 then NegInf else if w < 0 then PosInf else NaN
  }

  /** Python `sum(xs)`: a left fold of `+` starting from the int 0. */
  function Sum(xs: seq<Score>): Score
    decreases |xs|
  {
    if |xs| == 0 then Fin(0) else Add(Sum(xs[..|xs| - 1]), xs[|xs| - 1])
  }

  function IntSum(xs: seq<int>): int
    decreases |xs|
  {
    if |xs| == 0 then 0 else IntSum(xs[..|xs| - 1]) + xs[|xs| - 1]
  }

  function Finite(xs: seq<int>): (r: seq<Score>)
    ensures |r| == |xs| && forall i :: 0 <= i < |xs| ==> r[i] == Fin(xs[i])
  {
    seq(|xs|, i requires 0 <= i < |xs| => Fin(xs[i]))
  }

  /** On finite scores Python's sum is the integer sum. */
  lemma {:induction false} SumFinite(xs: seq<int>)
    ensures Sum(Finite(xs)) == Fin(IntSum(xs))
    decreases |xs|
  {
    if |xs| > 0 {
      SumFinite(xs[..|xs| - 1]);
      assert Finite(xs)[..|xs| - 1] == Finite(xs[..|xs| - 1]);
    }
  }

  /** NaN absorbs a sum, and so does an infinity when every other item is
      finite or the same infinity. */
  lemma {:induction false} SumAbsorbs(xs: seq<Score>, i: int)
    requires 0 <= i < |xs|
    ensures xs[i].NaN? ==> Sum(xs).NaN?
    ensures (xs[i].PosInf? || xs[i].NegInf?) && (forall k :: 0 <= k < |xs| ==> xs[k].Fin? || xs[k] == xs[i]) ==>
              Sum(xs) == xs[i]
    decreases |xs|
  {
    var n := |xs| - 1;
    var front := xs[..n];
    assert forall k :: 0 <= k < n ==> front[k] == xs[k];
    if i < n {
      SumAbsorbs(front, i);
    } else if n > 0 {
      SumKinds(front);
    }
  }

  /** A sum of finite items is finite; one holding both infinities is NaN. */
  lemma {:induction false} SumKinds(xs: seq<Score>)
    ensures (forall k :: 0 <= k < |xs| ==> xs[k].Fin?) ==> Sum(xs).Fin?
    ensures (forall k :: 0 <= k < |xs| ==> xs[k].Fin? || xs[k].NegInf?) ==> Sum(xs).Fin? || Sum(xs).NegInf?
    ensures (forall k :: 0 <= k < |xs| ==> xs[k].Fin? || xs[k].PosInf?) ==> Sum(xs).Fin? || Sum(xs).PosInf?
    decreases |xs|
  {
    if |xs| > 0 {
      var front := xs[..|xs| - 1];
      assert forall k :: 0 <= k < |front| ==> front[k] == xs[k];
      SumKinds(front);
    }
  }

  lemma {:induction false} SumOpposite(xs: seq<Score>, i: int, j: int)
    requires 0 <= i < |xs| && 0 <= j < |xs| && xs[i].PosInf? && xs[j].NegInf?
    ensures Sum(xs).NaN?
    decreases |xs|
  {
    var n := |xs| - 1;
    var front := xs[..n];
    assert forall k :: 0 <= k < n ==> front[k] == xs[k];
    if i < n && j < n {
      SumOpposite(front, i, j);
    } else if i == n {
      SumMeetsNegInf(front, j);
    } else {
      SumMeetsPosInf(front, i);
    }
  }

  lemma {:induction false} SumMeetsNegInf(xs: seq<Score>, j: int)
    requires 0 <= j < |xs| && xs[j].NegInf?
    ensures Sum(xs).NegInf? || Sum(xs).NaN?
    decreases |xs|
  {
    var n := |xs| - 1;
    var front := xs[..n];
    assert forall k :: 0 <= k < n ==> front[k] == xs[k];
    if j < n {
      SumMeetsNegInf(front, j);
    }
  }

  lemma {:induction false} SumMeetsPosInf(xs: seq<Score>, i: int)
    requires 0 <= i < |xs| && xs[i].PosInf?
    ensures Sum(xs).PosInf? || Sum(xs).NaN?
    decreases |xs|
  {
    var n := |xs| - 1;
    var front := xs[..n];
    assert forall k :: 0 <= k < n ==> front[k] == xs[k];
    if i < n {
      SumMeetsPosInf(front, i);
    }
  }
}
