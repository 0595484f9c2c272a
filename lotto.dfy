/** The `repeat(num_times)` decorator of lotto/lotto.py: call the wrapped
    function `num_times` times, collect the results and return them sorted
    in ascending order; and `lotto_draw`, which repeats `randint(start, end)`
    seven times.

    The wrapped function is an oracle: `func(i)` is the value the (i+1)-th
    call returns, or the exception it raises. */
module Lotto {
  import opened Outcomes

  /** How many draws `lotto_draw` makes (`@repeat(num_times=7)`). */
  const LottoTimes: nat := 7

  predicate Ascending(s: seq<int>) {
    forall i, j :: 0 <= i < j < |s| ==> s[i] <= s[j]
  }

  /** A head no larger than the first element keeps a list ascending. */
  lemma AscendingCons(y: int, t: seq<int>)
    ensures Ascending(t) && (|t| > 0 ==> y <= t[0]) ==> Ascending([y] + t)
  {
  }

  /** Inserts `x` into `s` in front of the first element not smaller than it. */
  function Insert(x: int, s: seq<int>): (r: seq<int>)
    ensures |r| == |s| + 1
    ensures multiset(r) == multiset(s) + multiset{x}
    ensures r[0] == x || (|s| > 0 && r[0] == s[0])
    ensures Ascending(s) ==> Ascending(r)
  {
    if |s| == 0 then [x]
    else if x <= s[0] then [x] + s
    else
      assert s == [s[0]] + s[1..];
      var rest := Insert(x, s[1..]);
      AscendingCons(s[0], rest);
      [s[0]] + rest
  }

  /** Python's `sorted` on a list of integers: the ascending permutation. */
  function Sort(s: seq<int>): (r: seq<int>)
    ensures |r| == |s|
    ensures multiset(r) == multiset(s)
    ensures Ascending(r)
  {
    if |s| == 0 then []
    else
      assert s == [s[0]] + s[1..];
      Insert(s[0], Sort(s[1..]))
  }

  /** The values the first `n` calls of `func` return, in call order. */
  function Draws(func: nat -> int, n: nat): seq<int> {
    seq(n, i requires 0 <= i => func(i))
  }

  /** Sorting moves values around but never brings a value in from outside
      a range every input lies in. */
  lemma SortKeepsBounds(s: seq<int>, lo: int, hi: int)
    requires forall i :: 0 <= i < |s| ==> lo <= s[i] <= hi
    ensures forall i :: 0 <= i < |Sort(s)| ==> lo <= Sort(s)[i] <= hi
  {
    var r := Sort(s);
    forall i | 0 <= i < |r|
      ensures lo <= r[i] <= hi
    {
      assert r[i] in multiset(r);
      assert r[i] in multiset(s);
      var j :| 0 <= j < |s| && s[j] == r[i];
    }
  }

  /** The values the first `n` calls of `func` return, when none of them
      raises. */
  function Values<E>(func: nat -> Result<int, E>, n: nat): seq<int>
    requires forall i :: 0 <= i < n ==> func(i).Ok?
  {
    seq(n, i requires 0 <= i < n => func(i).value)
  }

  /** `inner`: calls `func` `numTimes` times (none at all when `numTimes`
      is zero or negative, as `range` gives), appending each result, and
      returns the sorted list. An exception from a call propagates at once:
      no further call is made and no list is returned. `calls` is how many
      times `func` was called. */
  method Repeat<E>(numTimes: int, func: nat -> Result<int, E>) returns (r: Result<seq<int>, E>, calls: nat)
    ensures calls <= if numTimes > 0 then numTimes else 0
    ensures r.Ok? <==> forall j :: 0 <= j < numTimes ==> func(j).Ok?
    ensures r.Ok? ==> calls == (if numTimes > 0 then numTimes else 0) && |r.value| == calls
    ensures r.Ok? ==> Ascending(r.value) && multiset(r.value) == multiset(Values(func, calls))
    ensures r.Ok? ==> r.value == Sort(Values(func, calls))
    ensures numTimes <= 0 ==> r == Ok([]) && calls == 0
    ensures r.Err? ==> 0 < calls && func(calls - 1) == Err(r.error) &&
                       forall j :: 0 <= j < calls - 1 ==> func(j).Ok?
  {
    var result: seq<int> := [];
    calls := 0;
    while calls < numTimes
      invariant calls <= if numTimes > 0 then numTimes else 0
      invariant forall j :: 0 <= j < calls ==> func(j).Ok?
      invariant result == Values(func, calls)
    {
      var number := func(calls);
      calls := calls + 1;
      if number.Err? {
        return Err(number.error), calls;
      }
      result := result + [number.value];
    }
    r := Ok(Sort(result));
  }

  /** `randint(start, end)` given the value `value` it would draw: it raises
      on an empty range. */
  function RandInt(start: int, end: int, value: int): (r: Result<int, string>)
    ensures r.Err? <==> start > end
  {
    if start > end then Err("empty range for randrange()") else Ok(value)
  }

  /** The wrapped `lotto_draw`: its (i+1)-th call is `randint(start, end)`
      drawing `draw(i)`. */
  function RandIntCalls(start: int, end: int, draw: nat -> int): nat -> Result<int, string> {
    (i: nat) => RandInt(start, end, draw(i))
  }

  lemma RandIntCallsValues(start: int, end: int, draw: nat -> int, n: nat)
    requires start <= end
    ensures forall j :: 0 <= j < n ==> RandIntCalls(start, end, draw)(j).Ok?
    ensures Values(RandIntCalls(start, end, draw), n) == Draws(draw, n)
  {
    var f := RandIntCalls(start, end, draw);
    assert forall j :: 0 <= j < n ==> f(j) == Ok(draw(j));
    var vs, ds := Values(f, n), Draws(draw, n);
    assert |vs| == |ds|;
    forall j | 0 <= j < n
      ensures vs[j] == ds[j]
    {
    }
  }

  /** `lotto_draw(start, end)`: seven `randint(start, end)` draws, sorted.
      `draw(i)` is the value `randint` draws on the (i+1)-th call; on an
      empty range the first call already raises. */
  method LottoDraw(start: int, end: int, draw: nat -> int) returns (r: Result<seq<int>, string>)
    ensures r.Err? <==> start > end
    ensures r.Ok? ==> |r.value| == LottoTimes && Ascending(r.value)
    ensures r.Ok? ==> multiset(r.value) == multiset(Draws(draw, LottoTimes))
    ensures r.Ok? && (forall i :: 0 <= i < LottoTimes ==> start <= draw(i) <= end) ==>
              forall i :: 0 <= i < |r.value| ==> start <= r.value[i] <= end
  {
    var calls;
    r, calls := Repeat(LottoTimes, RandIntCalls(start, end, draw));
    if start > end {
      assert RandIntCalls(start, end, draw)(0) == RandInt(start, end, draw(0));
      return;
    }
    RandIntCallsValues(start, end, draw, LottoTimes);
    if forall i :: 0 <= i < LottoTimes ==> start <= draw(i) <= end {
      SortKeepsBounds(Draws(draw, LottoTimes), start, end);
    }
  }
}
