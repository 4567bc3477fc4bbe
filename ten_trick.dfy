/** The three-card trick-taking game: three players each hold the cards 1,
    2 and 3; every turn all play one card at once, the highest card takes
    the sum of the cards played, ties going to the first tied player
    counting from the dealer, and the dealer moves on by one seat. */

module TenTrickTake {
  import opened Common
  import opened Scores

  const FullHand: seq<int> := [1, 2, 3]
  const Players: seq<int> := [1, 2, 3]

  /** `cards[p - 1]` is player p's hand and `points[p - 1]` the points p has
      taken; both dicts are keyed 1, 2, 3 in that order. */
  datatype State = State(cards: seq<seq<int>>, points: seq<int>, dealer: int)

  predicate WellFormed(s: State) {
    |s.cards| == 3 && |s.points| == 3 && 1 <= s.dealer <= 3
  }

  /** `initial_state`: a full hand each, no points, player 1 deals. */
  function InitialState(): (s: State)
    ensures WellFormed(s)
    ensures forall i :: 0 <= i < 3 ==> s.cards[i] == FullHand && s.points[i] == 0
    ensures s.dealer == 1
  {
    State([FullHand, FullHand, FullHand], [0, 0, 0], 1)
  }

  // ---------------------------------------------------------------------
  // game_winner

  function MaxInt(xs: seq<int>): (m: int)
    requires |xs| > 0
    ensures forall i :: 0 <= i < |xs| ==> xs[i] <= m
    ensures exists i :: 0 <= i < |xs| && xs[i] == m
    decreases |xs|
  {
    if |xs| == 1 then xs[0]
    else
      var m := MaxInt(xs[..|xs| - 1]);
      if xs[|xs| - 1] > m then xs[|xs| - 1] else m
  }

  /** `game_winner`: nobody while player 1 still holds cards; then every
      player with the most points, listed from the highest seat down (the
      order `reversed(sorted(...))` leaves tied players in). */
  function GameWinner(s: State): (r: Option<seq<int>>)
    requires WellFormed(s)
    ensures r.None? <==> |s.cards[0]| > 0
    ensures r.Some? ==> forall p :: p in r.value <==>
              1 <= p <= 3 && forall i :: 0 <= i < 3 ==> s.points[i] <= s.points[p - 1]
    ensures r.Some? ==> |r.value| >= 1 && forall i, j :: 0 <= i < j < |r.value| ==> r.value[i] > r.value[j]
  {
    if |s.cards[0]| > 0 then None
    else
      var top := MaxInt(s.points);
      Some((if s.points[2] == top then [3] else []) +
           (if s.points[1] == top then [2] else []) +
           (if s.points[0] == top then [1] else []))
  }

  // ---------------------------------------------------------------------
  // legal_moves

  /** `legal_moves`: the hands themselves, keyed by player. */
  function LegalMoves(s: State): (r: Dict<int, seq<int>>)
    requires WellFormed(s)
    ensures KeysOf(r) == Players && DistinctKeys(r)
    ensures forall p :: 1 <= p <= 3 ==> HasKey(r, p) && Lookup(r, p) == s.cards[p - 1]
  {
    var r := [(1, s.cards[0]), (2, s.cards[1]), (3, s.cards[2])];
    assert r[0].0 == 1 && r[1].0 == 2 && r[2].0 == 3;
    assert IndexOf(r, 2) == 1 && IndexOf(r, 3) == 2;
    r
  }

  // ---------------------------------------------------------------------
  // make_move

  /** The hand after playing `c`: every copy of `c` is gone and every other card stays. */
  function Without(hand: seq<int>, c: int): (r: seq<int>)
    ensures multiset(r) == multiset(hand)[c := 0]
    decreases |hand|
  {
    if |hand| == 0 then []
    else
      var rest := Without(hand[..|hand| - 1], c);
      assert hand == hand[..|hand| - 1] + [hand[|hand| - 1]];
      if hand[|hand| - 1] == c then rest else rest + [hand[|hand| - 1]]
  }

  /** A card held once is played once: the hand shrinks by exactly one. */
  lemma PlayOne(hand: seq<int>, c: int)
    requires multiset(hand)[c] == 1
    ensures |Without(hand, c)| == |hand| - 1
  {
    calc {
      |Without(hand, c)|;
      |multiset(Without(hand, c))|;
      |multiset(hand)[c := 0]|;
      |multiset(hand)| - 1;
    }
  }

  /** The highest card played. */
  function Highest(moves: Dict<int, int>): (top: int)
    requires |moves| > 0
    ensures forall i :: 0 <= i < |moves| ==> moves[i].1 <= top
    ensures exists i :: 0 <= i < |moves| && moves[i].1 == top
  {
    MaxInt(ValuesOf(moves))
  }

  /** The players who played `top`, latest first: after a stable sort by
      card, `reversed` lists equal cards in reverse order of play. */
  function PlayedTop(moves: Dict<int, int>, top: int): (ps: seq<int>)
    ensures forall p :: p in ps <==> exists i :: 0 <= i < |moves| && moves[i] == (p, top)
    ensures |ps| <= |moves|
    decreases |moves|
  {
    if |moves| == 0 then []
    else
      var last := moves[|moves| - 1];
      var rest := PlayedTop(moves[..|moves| - 1], top);
      assert forall i :: 0 <= i < |moves| - 1 ==> moves[..|moves| - 1][i] == moves[i];
      (if last.1 == top then [last.0] else []) + rest
  }

  /** `takers`: whoever played the highest card. */
  function Takers(moves: Dict<int, int>): seq<int>
    requires |moves| > 0
  {
    PlayedTop(moves, Highest(moves))
  }

  predicate IsTaker(moves: Dict<int, int>, p: int) {
    |moves| > 0 && exists i :: 0 <= i < |moves| && moves[i] == (p, Highest(moves))
  }

  /** Where seat p comes in the round that starts at the dealer. */
  function Turn(dealer: int, p: int): int {
    (p - dealer) % 3
  }

  /** Player `t` takes the trick: `t` played the highest card, and no other
      player who did sits earlier counting from the dealer. */
  predicate TakesTrick(moves: Dict<int, int>, dealer: int, t: int) {
    1 <= t <= 3 && IsTaker(moves, t) &&
    forall q :: 1 <= q <= 3 && IsTaker(moves, q) ==> Turn(dealer, t) <= Turn(dealer, q)
  }

  /** At most one player takes a trick. */
  lemma TakerUnique(moves: Dict<int, int>, dealer: int, t1: int, t2: int)
    requires TakesTrick(moves, dealer, t1) && TakesTrick(moves, dealer, t2)
    ensures t1 == t2
  {
    var k1, k2 := Turn(dealer, t1), Turn(dealer, t2);
    assert k1 == k2;
    var d1, d2 := (t1 - dealer) / 3, (t2 - dealer) / 3;
    assert t1 - dealer == 3 * d1 + k1 && t2 - dealer == 3 * d2 + k1;
    assert t1 - t2 == 3 * (d1 - d2);
  }

  /** The k-th seat of the round that starts at the dealer. */
  function Seat(dealer: int, k: int): int {
    (k + dealer - 1) % 3 + 1
  }

  lemma SeatTurn(dealer: int, k: int)
    requires 0 <= k < 3
    ensures 1 <= Seat(dealer, k) <= 3 && Turn(dealer, Seat(dealer, k)) == k
  {
    var a := (k + dealer - 1) / 3;
    var m := (k + dealer - 1) % 3;
    assert k + dealer - 1 == 3 * a + m;
    assert Seat(dealer, k) - dealer == k - 3 * a;
    assert (k - 3 * a) % 3 == k;
  }

  lemma TurnSeat(dealer: int, p: int)
    requires 1 <= p <= 3
    ensures 0 <= Turn(dealer, p) < 3 && Seat(dealer, Turn(dealer, p)) == p
  {
    var k := Turn(dealer, p);
    var a := (p - dealer) / 3;
    assert p - dealer == 3 * a + k;
    assert k + dealer - 1 == p - 1 + 3 * (-a);
    assert (p - 1 + 3 * (-a)) % 3 == p - 1;
  }

  /** The tie-break loop of `make_move`: the seats in order from the dealer,
      stopping at the first one among the takers; None when no seat is. */
  method TieBreak(dealer: int, takers: seq<int>) returns (taker: Option<int>)
    ensures taker.Some? ==>
              1 <= taker.value <= 3 && taker.value in takers &&
              forall q :: 1 <= q <= 3 && q in takers ==> Turn(dealer, taker.value) <= Turn(dealer, q)
    ensures taker.None? ==> forall q :: 1 <= q <= 3 ==> q !in takers
  {
    for k := 0 to 3
      invariant forall j :: 0 <= j < k ==> Seat(dealer, j) !in takers
    {
      var p := Seat(dealer, k);
      if p in takers {
        SeatTurn(dealer, k);
        forall q | 1 <= q <= 3 && q in takers ensures Turn(dealer, p) <= Turn(dealer, q) {
          TurnSeat(dealer, q);
        }
        return Some(p);
      }
    }
    forall q | 1 <= q <= 3 ensures q !in takers {
      TurnSeat(dealer, q);
    }
    return None;
  }

  /** Some player 1..3 still holds cards but has no move in `moves`: the
      new hand reads that player's move once per card held, so only a
      non-empty hand looks the move up. */
  predicate Missing(s: State, moves: Dict<int, int>)
    requires WellFormed(s)
  {
    Unplayed(s, moves, 1) || Unplayed(s, moves, 2) || Unplayed(s, moves, 3)
  }

  /** Player `p` holds cards and has no move. */
  predicate Unplayed(s: State, moves: Dict<int, int>, p: int)
    requires WellFormed(s) && 1 <= p <= 3
  {
    |s.cards[p - 1]| > 0 && !HasKey(moves, p)
  }

  /** Player `p`'s hand after the trick: every copy of the played card
      leaves it; an empty hand stays empty without reading a move. */
  function HandAfter(hand: seq<int>, moves: Dict<int, int>, p: int): seq<int>
    requires |hand| == 0 || HasKey(moves, p)
  {
    if |hand| == 0 then [] else Without(hand, Lookup(moves, p))
  }

  /** Points after `t` takes a trick worth `worth`. */
  function Credit(points: seq<int>, t: int, worth: int): seq<int>
    requires 1 <= t <= |points|
  {
    points[t - 1 := points[t - 1] + worth]
  }

  /** Who takes the trick in `make_move`: the single highest card's key,
      or the tie-break among several; KeyError when the single highest card
      was played under a key other than a player, UnboundLocalError when
      the tie is among such keys only. */
  method ChooseTaker(moves: Dict<int, int>, dealer: int) returns (r: Result<int, Exc>)
    requires |moves| > 0
    ensures r.Ok? ==> TakesTrick(moves, dealer, r.value)
    ensures r.Ok? <==> exists t :: 1 <= t <= 3 && IsTaker(moves, t)
    ensures r.Err? ==> r.error == (if |Takers(moves)| > 1 then UnboundLocalError else KeyError)
  {
    var takers := Takers(moves);
    assert forall p :: p in takers <==> IsTaker(moves, p);
    if |takers| > 1 {
      var t := TieBreak(dealer, takers);
      if t.None? {
        return Err(UnboundLocalError);
      }
      return Ok(t.value);
    }
    var top := Highest(moves);
    var i :| 0 <= i < |moves| && moves[i].1 == top;
    assert moves[i].0 in takers;
    var taker := takers[0];
    if !(1 <= taker <= 3) {
      return Err(KeyError);
    }
    return Ok(taker);
  }

  /** `make_move`: each player's played card leaves the hand, the trick's
      taker gains the sum of the cards played, the dealer moves on. A
      player who still holds cards but has no move raises KeyError; no move
      at all leaves no highest card and raises IndexError; otherwise the
      errors are those of `ChooseTaker`. */
  method MakeMove(s: State, moves: Dict<int, int>) returns (r: Result<State, Exc>)
    requires WellFormed(s) && DistinctKeys(moves)
    ensures Missing(s, moves) ==> r == Err(KeyError)
    ensures !Missing(s, moves) && |moves| == 0 ==> r == Err(IndexError)
    ensures !Missing(s, moves) && |moves| > 0 ==> (r.Ok? <==> exists t :: 1 <= t <= 3 && IsTaker(moves, t))
    ensures !Missing(s, moves) && |moves| > 0 && r.Err? ==>
              r.error == (if |Takers(moves)| > 1 then UnboundLocalError else KeyError)
    ensures r.Ok? ==> WellFormed(r.value) && r.value.dealer == s.dealer % 3 + 1
    ensures r.Ok? ==> forall i :: 0 <= i < 3 ==> r.value.cards[i] == HandAfter(s.cards[i], moves, i + 1)
    ensures r.Ok? ==>
              exists t :: TakesTrick(moves, s.dealer, t) && r.value.points == Credit(s.points, t, IntSum(ValuesOf(moves)))
  {
    if Missing(s, moves) {
      return Err(KeyError);
    }
    var hand1, hand2, hand3 := HandAfter(s.cards[0], moves, 1), HandAfter(s.cards[1], moves, 2), HandAfter(s.cards[2], moves, 3);
    var worth := IntSum(ValuesOf(moves));
    if |moves| == 0 {
      return Err(IndexError);
    }
    var chosen := ChooseTaker(moves, s.dealer);
    if chosen.Err? {
      return Err(chosen.error);
    }
    var taker := chosen.value;
    var cards := [hand1, hand2, hand3];
    forall i | 0 <= i < 3 ensures cards[i] == HandAfter(s.cards[i], moves, i + 1) {
      if i == 0 {
        assert cards[0] == hand1;
      } else if i == 1 {
        assert cards[1] == hand2;
      } else {
        assert cards[2] == hand3;
      }
    }
    r := Ok(State(cards, Credit(s.points, taker, worth), s.dealer % 3 + 1));
    assert TakesTrick(moves, s.dealer, taker) && r.value.points == Credit(s.points, taker, IntSum(ValuesOf(moves)));
  }

  /** The dealer goes round the table: 1, 2, 3, 1. */
  lemma DealerRotates(d: int)
    requires 1 <= d <= 3
    ensures d % 3 + 1 == (if d == 3 then 1 else d + 1)
  {
  }

  lemma {:induction false} IntSumCredit(points: seq<int>, t: int, worth: int)
    requires 1 <= t <= |points|
    ensures IntSum(Credit(points, t, worth)) == IntSum(points) + worth
    decreases |points|
  {
    var n := |points|;
    var c := Credit(points, t, worth);
    if t < n {
      IntSumCredit(points[..n - 1], t, worth);
      assert c[..n - 1] == Credit(points[..n - 1], t, worth);
    } else {
      assert c[..n - 1] == points[..n - 1];
    }
  }

  /** A trick adds exactly the cards played to the points on the table. */
  lemma PointsGrowBySum(s: State, moves: Dict<int, int>, t: int, s': State)
    requires WellFormed(s) && 1 <= t <= 3 && s'.points == Credit(s.points, t, IntSum(ValuesOf(moves)))
    ensures IntSum(s'.points) == IntSum(s.points) + IntSum(ValuesOf(moves))
  {
    IntSumCredit(s.points, t, IntSum(ValuesOf(moves)));
  }

  // ---------------------------------------------------------------------
  // hash_state

  /** The hash character for card `FullHand[j]` of a hand. */
  function HandChar(hand: seq<int>, j: int): char
    requires 0 <= j < 3
  {
    if FullHand[j] in hand then DigitChar(FullHand[j]) else '-'
  }

  /** `str(p) + "|"` for each number, in order. */
  function Barred(xs: seq<int>): string
    decreases |xs|
  {
    if |xs| == 0 then "" else IntToString(xs[0]) + "|" + Barred(xs[1..])
  }

  /** `h` is the state's hash: four characters per hand (a card or '-',
      then '|'), a further '|', then the points each followed by '|'. */
  ghost predicate IsHash(s: State, h: string)
    requires WellFormed(s)
  {
    |h| >= 13 &&
    (forall i, j :: 0 <= i < 3 && 0 <= j < 3 ==> h[4 * i + j] == HandChar(s.cards[i], j)) &&
    (forall i :: 0 <= i < 3 ==> h[4 * i + 3] == '|') &&
    h[12] == '|' && h[13..] == Barred(s.points)
  }

  lemma {:induction false} BarredSnoc(xs: seq<int>, x: int)
    ensures Barred(xs + [x]) == Barred(xs) + IntToString(x) + "|"
    decreases |xs|
  {
    if |xs| > 0 {
      assert (xs + [x])[1..] == xs[1..] + [x];
      BarredSnoc(xs[1..], x);
    }
  }

  /** One more number extends the barred text by its digits and a bar. */
  lemma BarredStep(points: seq<int>, k: int)
    requires 0 <= k < |points|
    ensures Barred(points[..k + 1]) == Barred(points[..k]) + IntToString(points[k]) + "|"
  {
    var front, x := points[..k], points[k];
    assert points[..k + 1] == front + [x];
    BarredSnoc(front, x);
  }

  /** The inner loop of `hash_state`: a card or '-' for each of 1, 2, 3. */
  method HashHand(hand: seq<int>) returns (part: string)
    ensures |part| == 3 && forall j :: 0 <= j < 3 ==> part[j] == HandChar(hand, j)
  {
    part := "";
    for j := 0 to 3
      invariant |part| == j && forall j' :: 0 <= j' < j ==> part[j'] == HandChar(hand, j')
    {
      var full := FullHand[j];
      if full in hand {
        part := part + [DigitChar(full)];
      } else {
        part := part + "-";
      }
    }
  }

  /** The hands part of `hash_state`: per hand, a card or '-' for each of
      1, 2, 3 and then '|'. */
  method HashHands(cards: seq<seq<int>>) returns (h: string)
    requires |cards| == 3
    ensures |h| == 12
    ensures forall i, j :: 0 <= i < 3 && 0 <= j < 3 ==> h[4 * i + j] == HandChar(cards[i], j)
    ensures forall i :: 0 <= i < 3 ==> h[4 * i + 3] == '|'
  {
    h := "";
    for i := 0 to 3
      invariant |h| == 4 * i
      invariant forall i', j :: 0 <= i' < i && 0 <= j < 3 ==> h[4 * i' + j] == HandChar(cards[i'], j)
      invariant forall i' :: 0 <= i' < i ==> h[4 * i' + 3] == '|'
    {
      var part := HashHand(cards[i]);
      var h' := h + part + "|";
      assert forall j :: 0 <= j < 3 ==> h'[4 * i + j] == part[j];
      assert forall k :: 0 <= k < |h| ==> h'[k] == h[k];
      h := h';
    }
  }

  /** The points loop of `hash_state`. */
  method HashPoints(points: seq<int>) returns (tail: string)
    ensures tail == Barred(points)
  {
    tail := "";
    for k := 0 to |points|
      invariant tail == Barred(points[..k])
    {
      BarredStep(points, k);
      tail := tail + IntToString(points[k]) + "|";
    }
    assert points[..|points|] == points;
  }

  /** `hash_state`. */
  method Hash(s: State) returns (h: string)
    requires WellFormed(s)
    ensures IsHash(s, h)
  {
    var hands := HashHands(s.cards);
    var tail := HashPoints(s.points);
    h := hands + "|" + tail;
    assert h[..12] == hands && h[12] == '|' && h[13..] == tail;
  }

  lemma NoBar(n: int)
    ensures |IntToString(n)| >= 1 && '|' !in IntToString(n)
  {
    var d := NatToString(if n < 0 then -n else n);
    assert forall i :: 0 <= i < |d| ==> d[i] != '|';
  }

  /** A field that holds no '|' ends at the first '|'. */
  lemma FieldsMatch(a: string, b: string, r1: string, r2: string)
    requires '|' !in a && '|' !in b && a + "|" + r1 == b + "|" + r2
    ensures a == b && r1 == r2
  {
    var h := a + "|" + r1;
    assert h[|a|] == '|' && h[|b|] == '|';
    assert |a| == |b|;
    assert a == h[..|a|] == b;
    assert r1 == h[|a| + 1..] == r2;
  }

  /** Points written with `Barred` are read back unambiguously. */
  lemma {:induction false} BarredInjective(xs: seq<int>, ys: seq<int>)
    requires Barred(xs) == Barred(ys)
    ensures xs == ys
    decreases |xs|
  {
    if |xs| > 0 && |ys| > 0 {
      NoBar(xs[0]);
      NoBar(ys[0]);
      FieldsMatch(IntToString(xs[0]), IntToString(ys[0]), Barred(xs[1..]), Barred(ys[1..]));
      IntStringRoundTrip(xs[0]);
      IntStringRoundTrip(ys[0]);
      BarredInjective(xs[1..], ys[1..]);
      assert xs == [xs[0]] + xs[1..] && ys == [ys[0]] + ys[1..];
    }
  }

  /** The hash determines the points and which of the cards 1, 2, 3 each
      player still holds (the dealer is not part of it). */
  lemma HashDetermines(s1: State, s2: State, h: string)
    requires WellFormed(s1) && WellFormed(s2) && IsHash(s1, h) && IsHash(s2, h)
    ensures s1.points == s2.points
    ensures forall i, c :: 0 <= i < 3 && c in FullHand ==> (c in s1.cards[i] <==> c in s2.cards[i])
  {
    BarredInjective(s1.points, s2.points);
    forall i, c | 0 <= i < 3 && c in FullHand ensures c in s1.cards[i] <==> c in s2.cards[i] {
      var j := c - 1;
      assert FullHand[j] == c;
      assert HandChar(s1.cards[i], j) == h[4 * i + j] == HandChar(s2.cards[i], j);
    }
  }

  // ---------------------------------------------------------------------
  // evaluate_state

  /** `evaluate_state`: once the game is over +inf for each winner and
      -inf for everyone else; before, each player's points plus the cards
      still in hand. */
  function Evaluate(s: State): (r: seq<Score>)
    requires WellFormed(s)
    ensures |r| == 3
    ensures GameWinner(s).Some? ==> forall i :: 0 <= i < 3 ==>
              r[i] == (if i + 1 in GameWinner(s).value then PosInf else NegInf)
    ensures GameWinner(s).None? ==> forall i :: 0 <= i < 3 ==>
              r[i] == Fin(s.points[i] + IntSum(s.cards[i]))
  {
    match GameWinner(s)
    case Some(winners) =>
      seq(3, i requires 0 <= i < 3 => if i + 1 in winners then PosInf else NegInf)
    case None =>
      seq(3, i requires 0 <= i < 3 => Fin(s.points[i] + IntSum(s.cards[i])))
  }

  /** Once the game is over some player scores +inf, namely one with the
      most points. */
  lemma EvaluateFinished(s: State)
    requires WellFormed(s) && |s.cards[0]| == 0
    ensures exists i :: 0 <= i < 3 && Evaluate(s)[i] == PosInf
    ensures forall i :: 0 <= i < 3 && Evaluate(s)[i] == PosInf ==>
              forall j :: 0 <= j < 3 ==> s.points[j] <= s.points[i]
  {
    var w := GameWinner(s).value;
    var p := w[0];
    assert p in w;
    assert Evaluate(s)[p - 1] == PosInf;
  }
}
