/** Helpers shared by the whole model: option and result values, Python's
    string splitting and integer printing, and Python dicts whose insertion
    order matters, modelled as association lists. */
module Common {

  datatype Option<+T> = None | Some(value: T)

  /** A value or the exception the Python code raises instead. */
  datatype Result<+T, +E> = Ok(value: T) | Err(error: E) {
    predicate IsFailure() { Err? }

    function PropagateFailure<U>(): Result<U, E>
      requires Err?
    {
      Err(error)
    }

    function Extract(): T
      requires Ok?
    {
      value
    }
  }

  /** The Python exceptions the modelled code raises, plus `OutOfFuel` for a
      loop the model cuts short because Python gives it no bound. */
  datatype Exc =
    | KeyError
    | IndexError
    | AttributeError
    | TypeError
    | ValueError
    | NotImplementedError
    | AssertionError
    | ArityError
    | RelationError
    | GeneralException
    | UnboundLocalError
    | OutOfFuel

  // ---------------------------------------------------------------------
  // str.split(sep) with a one-character separator

  /** Python's `s.split(sep)`: the pieces between separators, empty pieces included. */
  function Split(s: string, sep: char): (parts: seq<string>)
    ensures |parts| >= 1
    decreases |s|
  {
    if |s| == 0 then [""]
    else
      var rest := Split(s[1..], sep);
      if s[0] == sep then [""] + rest
      else [[s[0]] + rest[0]] + rest[1..]
  }

  /** Python's `sep.join(parts)`. */
  function Join(parts: seq<string>, sep: char): string
    requires |parts| >= 1
    decreases |parts|
  {
    if |parts| == 1 then parts[0] else parts[0] + [sep] + Join(parts[1..], sep)
  }

  /** Splitting loses nothing and no piece holds the separator. */
  lemma {:induction false} SplitJoin(s: string, sep: char)
    ensures Join(Split(s, sep), sep) == s
    ensures forall i :: 0 <= i < |Split(s, sep)| ==> sep !in Split(s, sep)[i]
    decreases |s|
  {
    if |s| > 0 {
      SplitJoin(s[1..], sep);
      var rest := Split(s[1..], sep);
      if s[0] == sep {
        assert Split(s, sep) == [""] + rest;
        assert ([""] + rest)[1..] == rest;
      } else {
        var parts := Split(s, sep);
        assert parts == [[s[0]] + rest[0]] + rest[1..];
        if |rest| > 1 {
          assert parts[1..] == rest[1..];
          assert Join(rest, sep) == rest[0] + [sep] + Join(rest[1..], sep);
        }
        assert s == [s[0]] + s[1..];
        forall i | 0 <= i < |parts| ensures sep !in parts[i] {
          if i == 0 {
            assert sep !in rest[0];
          } else {
            assert parts[i] == rest[i];
          }
        }
      }
    }
  }

  /** Python's `s.partition(sep)[0]` and `[2]`: the text before the first
      separator and the text after it (empty when there is none). */
  function Partition(s: string, sep: char): (kv: (string, string))
    ensures sep !in s ==> kv == (s, "")
    ensures sep in s ==> |kv.0| < |s| && s == kv.0 + [sep] + kv.1 && sep !in kv.0
    decreases |s|
  {
    if |s| == 0 then ("", "")
    else if s[0] == sep then ("", s[1..])
    else
      var rest := Partition(s[1..], sep);
      assert s == [s[0]] + s[1..];
      ([s[0]] + rest.0, rest.1)
  }

  // ---------------------------------------------------------------------
  // str(int) and int(str)

  function DigitChar(d: nat): char
    requires d < 10
  {
    "0123456789"[d]
  }

  function NatToString(n: nat): (s: string)
    ensures |s| >= 1
    ensures forall i :: 0 <= i < |s| ==> '0' <= s[i] <= '9'
    decreases n
  {
    if n < 10 then [DigitChar(n)] else NatToString(n / 10) + [DigitChar(n % 10)]
  }

  /** Python's `str(n)` for an int. */
  function IntToString(n: int): string
  {
    if n < 0 then "-" + NatToString(-n) else NatToString(n)
  }

  function DigitsValue(s: string): nat
    requires forall i :: 0 <= i < |s| ==> '0' <= s[i] <= '9'
    decreases |s|
  {
    if |s| == 0 then 0 else DigitsValue(s[..|s| - 1]) * 10 + (s[|s| - 1] as int - '0' as int)
  }

  predicate AllDigits(s: string) {
    |s| >= 1 && forall i :: 0 <= i < |s| ==> '0' <= s[i] <= '9'
  }

  /** Python's `int(s)` for an optional sign followed by decimal digits;
      anything else raises ValueError, modelled as None. */
  function ParseInt(s: string): Option<int>
  {
    if |s| >= 1 && (s[0] == '-' || s[0] == '+') then
      if AllDigits(s[1..]) then
        var magnitude: int := DigitsValue(s[1..]);
        Some(if s[0] == '-' then -magnitude else magnitude)
      else None
    else if AllDigits(s) then Some(DigitsValue(s))
    else None
  }

  lemma {:induction false} DigitsOfNat(n: nat)
    ensures DigitsValue(NatToString(n)) == n
    decreases n
  {
    var q, d := n / 10, n % 10;
    DigitCharValue(d);
    if n >= 10 {
      DigitsOfNat(q);
      var front := NatToString(q);
      var s := front + [DigitChar(d)];
      assert NatToString(n) == s;
      assert s[..|s| - 1] == front;
      assert DigitsValue(s) == DigitsValue(front) * 10 + d;
    } else {
      assert NatToString(n) == [DigitChar(d)];
      assert [DigitChar(d)][..0] == [];
    }
  }

  /** A digit character stands for its own digit. */
  lemma DigitCharValue(d: nat)
    requires d < 10
    ensures DigitChar(d) as int - '0' as int == d
  {
  }

  /** The digits of a natural number read back as that number. */
  lemma ParseDigits(m: nat)
    ensures ParseInt(NatToString(m)) == Some(m)
  {
    DigitsOfNat(m);
    var s := NatToString(m);
    assert AllDigits(s) && s[0] != '-' && s[0] != '+';
  }

  /** A minus sign followed by the digits of a natural number reads back
      as its negation. */
  lemma ParseNegative(m: nat)
    ensures ParseInt("-" + NatToString(m)) == Some(-(m as int))
  {
    DigitsOfNat(m);
    var s := NatToString(m);
    assert ("-" + s)[1..] == s && AllDigits(s);
  }

  /** Printing an int and reading it back gives the same int. */
  lemma IntStringRoundTrip(n: int)
    ensures ParseInt(IntToString(n)) == Some(n)
  {
    if n < 0 {
      var m: nat := -n;
      ParseNegative(m);
      assert IntToString(n) == "-" + NatToString(m);
    } else {
      var m: nat := n;
      ParseDigits(m);
      assert IntToString(n) == NatToString(m);
    }
  }

  /** Python list indexing `xs[i]` for a list of length n: a negative index
      counts from the end; anything else raises IndexError (None). */
  function ListIndex(i: int, n: nat): (r: Option<nat>)
    ensures r.Some? ==> r.value < n
    ensures r.Some? <==> 0 <= i + n && i < n
  {
    if 0 <= i < n then Some(i) else if i < 0 && 0 <= i + n then Some(i + n) else None
  }

  // ---------------------------------------------------------------------
  // Counting on boards

  /** How many tiles of a board hold `p`. */
  function Count<T(==)>(board: seq<Option<T>>, p: T): (n: nat)
    ensures n <= |board|
  {
    if |board| == 0 then 0 else Count(board[..|board| - 1], p) + (if board[|board| - 1] == Some(p) then 1 else 0)
  }

  /** Writing one tile changes each count by what was removed and added. */
  lemma {:induction false} CountUpdate<T>(board: seq<Option<T>>, i: nat, v: Option<T>, p: T)
    requires i < |board|
    ensures Count(board[i := v], p) + (if board[i] == Some(p) then 1 else 0) ==
            Count(board, p) + (if v == Some(p) then 1 else 0)
    decreases |board|
  {
    var n := |board|;
    if i < n - 1 {
      assert board[i := v][..n - 1] == board[..n - 1][i := v];
      CountUpdate(board[..n - 1], i, v, p);
    } else {
      assert board[i := v][..n - 1] == board[..n - 1];
    }
  }

  // ---------------------------------------------------------------------
  // Python dicts with insertion order

  /** A Python dict: its items in insertion order. */
  type Dict<K, V> = seq<(K, V)>

  predicate HasKey<K(==), V>(d: Dict<K, V>, k: K) {
    exists i :: 0 <= i < |d| && d[i].0 == k
  }

  predicate DistinctKeys<K(==), V>(d: Dict<K, V>) {
    forall i, j :: 0 <= i < j < |d| ==> d[i].0 != d[j].0
  }

  function KeysOf<K, V>(d: Dict<K, V>): (ks: seq<K>)
    ensures |ks| == |d| && forall i :: 0 <= i < |d| ==> ks[i] == d[i].0
  {
    seq(|d|, i requires 0 <= i < |d| => d[i].0)
  }

  function ValuesOf<K, V>(d: Dict<K, V>): (vs: seq<V>)
    ensures |vs| == |d| && forall i :: 0 <= i < |d| ==> vs[i] == d[i].1
  {
    seq(|d|, i requires 0 <= i < |d| => d[i].1)
  }

  /** Position of the first item whose key is k. */
  function IndexOf<K(==), V>(d: Dict<K, V>, k: K): (i: nat)
    requires HasKey(d, k)
    ensures i < |d| && d[i].0 == k
    ensures forall j :: 0 <= j < i ==> d[j].0 != k
  {
    if d[0].0 == k then 0
    else
      assert HasKey(d[1..], k) by {
        var i :| 0 <= i < |d| && d[i].0 == k;
        assert d[1..][i - 1].0 == k;
      }
      IndexOf(d[1..], k) + 1
  }

  /** `d[k]`: the value stored under k. */
  function Lookup<K(==), V>(d: Dict<K, V>, k: K): (v: V)
    requires HasKey(d, k)
    ensures exists i :: 0 <= i < |d| && d[i] == (k, v)
  {
    d[IndexOf(d, k)].1
  }

  /** `d[k] = v`: overwrite in place when k is present, else append. */
  function Put<K(==), V>(d: Dict<K, V>, k: K, v: V): (r: Dict<K, V>)
    ensures HasKey(d, k) ==> |r| == |d|
    ensures !HasKey(d, k) ==> r == d + [(k, v)]
    ensures HasKey(r, k)
    ensures forall i :: 0 <= i < |d| ==> r[i].0 == d[i].0
    ensures forall i :: 0 <= i < |d| && d[i].0 != k ==> r[i] == d[i]
  {
    if HasKey(d, k) then
      var i := IndexOf(d, k);
      assert d[i := (k, v)][i].0 == k;
      d[i := (k, v)]
    else
      assert (d + [(k, v)])[|d|].0 == k;
      d + [(k, v)]
  }

  /** In a dict without repeated keys, a write is read back and keeps keys distinct. */
  lemma PutLookup<K, V>(d: Dict<K, V>, k: K, v: V)
    requires DistinctKeys(d)
    ensures DistinctKeys(Put(d, k, v))
    ensures Lookup(Put(d, k, v), k) == v
  {
    var r := Put(d, k, v);
    if HasKey(d, k) {
      assert r[IndexOf(d, k)] == (k, v);
    } else {
      assert r[|d|] == (k, v);
    }
  }

  /** A write is read back, whatever keys the dict repeats: it replaces
      the first item with that key, which is the one a read finds. */
  lemma PutRead<K, V>(d: Dict<K, V>, k: K, v: V)
    ensures Lookup(Put(d, k, v), k) == v
  {
    var r := Put(d, k, v);
    if HasKey(d, k) {
      var i := IndexOf(d, k);
      assert r[i] == (k, v);
      assert IndexOf(r, k) == i;
    } else {
      assert r[|d|] == (k, v);
      assert IndexOf(r, k) == |d|;
    }
  }

  /** A write adds its key and keeps every other key and its value. */
  lemma PutOthers<K, V>(d: Dict<K, V>, k: K, v: V, p: K)
    ensures HasKey(Put(d, k, v), p) <==> HasKey(d, p) || p == k
    ensures p != k && HasKey(d, p) ==> Lookup(Put(d, k, v), p) == Lookup(d, p)
  {
    var r := Put(d, k, v);
    if HasKey(d, p) {
      var i := IndexOf(d, p);
      assert r[i].0 == p;
      if p != k {
        assert forall j :: 0 <= j < |r| && r[j].0 == p ==> j < |d|;
        assert IndexOf(r, p) == i;
      }
    }
    if HasKey(r, p) && p != k {
      var i :| 0 <= i < |r| && r[i].0 == p;
      if !HasKey(d, k) {
        assert i < |d| && d[i].0 == p;
      } else {
        assert d[i].0 == p;
      }
    }
  }

  /** In a dict without repeated keys every item is what its key looks up. */
  lemma LookupAt<K, V>(d: Dict<K, V>, i: int)
    requires DistinctKeys(d) && 0 <= i < |d|
    ensures HasKey(d, d[i].0) && Lookup(d, d[i].0) == d[i].1
  {
    assert HasKey(d, d[i].0);
    assert IndexOf(d, d[i].0) == i;
  }
}
