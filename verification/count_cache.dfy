/** `cache_for_n_calls(n)`: the wrapped function runs on the first call, its
    result is returned on the calls after it, and the function runs again
    once the call count reaches a multiple of `n`. The count and the cached
    result live in the decorator's closure, one pair per decorated function. */
module CountCache {
  import opened Results

  /** The closure's state: the last result (None before the first run) and the call count. */
  datatype Memo<R> = Memo(cached: Option<R>, count: nat)

  /** The state right after decoration. */
  function Init<R>(): Memo<R> {
    Memo(None, 0)
  }

  /** `call_count % n` with `n == 0` raises ZeroDivisionError. */
  datatype CountError = ZeroDivision

  /** What one call returns or raises, the closure's state after it, and how
      many times the wrapped function has run so far. */
  datatype Step<R> = Step(result: Result<Option<R>, CountError>, memo: Memo<R>, runs: nat)

  function Abs(n: int): nat {
    if n < 0 then -n else n
  }

  /** Python's `a % n`, which takes the sign of `n`: the Euclidean remainder
      by |n|, shifted below zero when `n` is negative and it is not zero. */
  function PyMod(a: int, n: int): (r: int)
    requires n != 0
    ensures n > 0 ==> 0 <= r < n
    ensures n < 0 ==> n < r <= 0
    ensures r == 0 <==> a % Abs(n) == 0
  {
    var m := a % Abs(n);
    if n > 0 || m == 0 then m else m - Abs(n)
  }

  /** One call with arguments `args`; the wrapped function is `op`, which also
      sees how many times it has run before. */
  function Call<A, R>(n: int, op: (A, nat) -> R, args: A, m: Memo<R>, runs: nat): (s: Step<R>)
    // With n == 0 the modulo raises before anything changes.
    ensures n == 0 <==> s.result.Err?
    ensures s.result.Err? ==> s.memo == m && s.runs == runs
    // A call returns exactly what the closure holds after it.
    ensures s.result.Ok? ==> s.result.value == s.memo.cached && s.memo.count >= 1
    // The function runs exactly when the count is a multiple of n, and then
    // its result is cached and the count restarts at one.
    ensures n != 0 && m.count % Abs(n) == 0 ==>
      s.runs == runs + 1 && s.memo == Memo(Some(op(args, runs)), 1)
    // Otherwise the cached value stays and the count goes up by one.
    ensures n != 0 && m.count % Abs(n) != 0 ==>
      s.runs == runs && s.memo == Memo(m.cached, m.count + 1)
  {
    if n == 0 then Step(Err(ZeroDivision), m, runs)
    else if PyMod(m.count, n) != 0 then Step(Ok(m.cached), Memo(m.cached, m.count + 1), runs)
    else
      var r := op(args, runs);
      Step(Ok(Some(r)), Memo(Some(r), 1), runs + 1)
  }

  /** Successive calls from a fresh decoration: what each returned, and the state after the last. */
  datatype Trace<R> = Trace(results: seq<Result<Option<R>, CountError>>, memo: Memo<R>, runs: nat)

  function Run<A, R>(n: int, op: (A, nat) -> R, argss: seq<A>, runs0: nat): (t: Trace<R>)
    ensures |t.results| == |argss|
    decreases |argss|
  {
    if |argss| == 0 then Trace([], Init(), runs0)
    else
      var before := Run(n, op, argss[..|argss| - 1], runs0);
      var s := Call(n, op, argss[|argss| - 1], before.memo, before.runs);
      Trace(before.results + [s.result], s.memo, s.runs)
  }

  /** The call (counting from zero) that opened the cycle of length `p` call `i` is in. */
  function CycleStart(i: nat, p: nat): (s: nat)
    requires p >= 1
    ensures s <= i && i - s < p
  {
    if i < p then 0 else p + CycleStart(i - p, p)
  }

  /** How many cycles of length `p` were complete before call `i`. */
  function CycleNumber(i: nat, p: nat): nat
    requires p >= 1
  {
    if i < p then 0 else 1 + CycleNumber(i - p, p)
  }

  /** The cycle arithmetic is integer division: call `i` lies in cycle
      `i / p`, which starts at `i - i % p`. */
  lemma {:induction false} CycleDivMod(i: nat, p: nat)
    requires p >= 1
    ensures CycleStart(i, p) == CycleNumber(i, p) * p
    ensures CycleNumber(i, p) == i / p && CycleStart(i, p) == i - i % p
    decreases i
  {
    if i >= p {
      CycleDivMod(i - p, p);
      assert CycleNumber(i, p) * p == p + CycleNumber(i - p, p) * p;
    }
    DivModUnique(i, p, CycleNumber(i, p), i - CycleStart(i, p));
  }

  /** Euclidean division has one quotient and one remainder. */
  lemma DivModUnique(a: nat, p: nat, q: nat, r: nat)
    requires p >= 1 && r < p && a == q * p + r
    ensures a / p == q && a % p == r
  {
    var q', r' := a / p, a % p;
    assert a == q' * p + r';
    if q' < q {
      MulNext(q', q, p);
    } else if q' > q {
      MulNext(q, q', p);
    }
  }

  lemma MulNext(x: nat, y: nat, p: nat)
    requires x < y
    ensures x * p + p <= y * p
  {
    var d := y - x - 1;
    assert y * p == x * p + p + d * p;
  }

  /** A count between one and `p` is a multiple of `p` only when it is `p`. */
  lemma CountMod(c: nat, p: nat)
    requires 1 <= c <= p
    ensures c % p == 0 <==> c == p
  {
    if c < p {
      assert c == 0 * p + c;
    } else {
      assert c == 1 * p + 0;
    }
  }

  /** Call `j` opens a new cycle exactly when call `j - 1` was the last of its cycle. */
  lemma {:induction false} CycleStep(j: nat, p: nat)
    requires j >= 1 && p >= 1
    ensures j - CycleStart(j - 1, p) < p ==>
      CycleStart(j, p) == CycleStart(j - 1, p) && CycleNumber(j, p) == CycleNumber(j - 1, p)
    ensures j - CycleStart(j - 1, p) == p ==>
      CycleStart(j, p) == j && CycleNumber(j, p) == CycleNumber(j - 1, p) + 1
    decreases j
  {
    if j > p {
      CycleStep(j - p, p);
    }
  }

  /** Run over a non-empty sequence is one call after the run over all but the last. */
  lemma RunLast<A, R>(n: int, op: (A, nat) -> R, argss: seq<A>, runs0: nat)
    requires |argss| > 0
    ensures var before := Run(n, op, argss[..|argss| - 1], runs0);
      var s := Call(n, op, argss[|argss| - 1], before.memo, before.runs);
      Run(n, op, argss, runs0) == Trace(before.results + [s.result], s.memo, s.runs)
  {
  }

  /** With n != 0, after k calls the count is the position of the last call
      in its cycle of |n| calls, plus one, the function has run once per
      cycle begun, and the cached value is that of the run that opened the
      last cycle. */
  lemma {:induction false} RunState<A, R>(n: int, op: (A, nat) -> R, argss: seq<A>, runs0: nat)
    requires n != 0
    ensures var t := Run(n, op, argss, runs0); var p := Abs(n); var k := |argss|;
      && (k == 0 ==> t.memo == Init() && t.runs == runs0)
      && (k > 0 ==>
            && t.memo.count == k - CycleStart(k - 1, p)
            && t.runs == runs0 + CycleNumber(k - 1, p) + 1
            && t.memo.cached == Some(op(argss[CycleStart(k - 1, p)], runs0 + CycleNumber(k - 1, p))))
    decreases |argss|
  {
    var p := Abs(n);
    var k := |argss|;
    if k > 0 {
      var j := k - 1;
      var prefix := argss[..j];
      RunState(n, op, prefix, runs0);
      RunLast(n, op, argss, runs0);
      var before := Run(n, op, prefix, runs0);
      var s := Call(n, op, argss[j], before.memo, before.runs);
      hide Run, Call;
      assert Run(n, op, argss, runs0).memo == s.memo && Run(n, op, argss, runs0).runs == s.runs;
      if j == 0 {
        assert CycleStart(0, p) == 0 && CycleNumber(0, p) == 0;
      } else {
        CycleStep(j, p);
        CountMod(before.memo.count, p);
        var c := CycleStart(j - 1, p);
        assert prefix[c] == argss[c];
        if before.memo.count < p {
          assert s.memo == Memo(before.memo.cached, before.memo.count + 1);
        } else {
          assert s.memo == Memo(Some(op(argss[j], before.runs)), 1);
        }
      }
    }
  }

  /** With n != 0, call `i` (counting from zero) returns the result of the run
      that opened its cycle of |n| calls: the function runs on calls 0, |n|,
      2|n|, ... and on no other. */
  lemma {:induction false} RunCycles<A, R>(n: int, op: (A, nat) -> R, argss: seq<A>, runs0: nat)
    requires n != 0
    ensures var t := Run(n, op, argss, runs0); var p := Abs(n);
      forall i :: 0 <= i < |argss| ==>
        t.results[i] == Ok(Some(op(argss[CycleStart(i, p)], runs0 + CycleNumber(i, p))))
    decreases |argss|
  {
    var p := Abs(n);
    var k := |argss|;
    if k > 0 {
      var j := k - 1;
      var prefix := argss[..j];
      RunCycles(n, op, prefix, runs0);
      RunState(n, op, argss, runs0);
      RunLast(n, op, argss, runs0);
      var before := Run(n, op, prefix, runs0);
      var t := Run(n, op, argss, runs0);
      hide Run;
      assert t.results[j] == Ok(t.memo.cached);
      forall i | 0 <= i < k
        ensures t.results[i] == Ok(Some(op(argss[CycleStart(i, p)], runs0 + CycleNumber(i, p))))
      {
        if i < j {
          assert t.results[i] == before.results[i];
          assert prefix[CycleStart(i, p)] == argss[CycleStart(i, p)];
        }
      }
    }
  }

  /** With n == 0 every call raises and nothing ever runs. */
  lemma {:induction false} ZeroAlwaysRaises<A, R>(op: (A, nat) -> R, argss: seq<A>, runs0: nat)
    ensures var t := Run(0, op, argss, runs0);
      && t.memo == Init() && t.runs == runs0
      && forall i :: 0 <= i < |argss| ==> t.results[i] == Err(ZeroDivision)
    decreases |argss|
  {
    if |argss| > 0 {
      ZeroAlwaysRaises(op, argss[..|argss| - 1], runs0);
    }
  }

  /** `n` and `-n` cache alike. */
  lemma {:induction false} NegativeIsAbsolute<A, R>(n: int, op: (A, nat) -> R, argss: seq<A>, runs0: nat)
    ensures Run(-n, op, argss, runs0) == Run(n, op, argss, runs0)
    decreases |argss|
  {
    if |argss| > 0 {
      NegativeIsAbsolute(n, op, argss[..|argss| - 1], runs0);
    }
  }
}
