/** Statistics of a NAV history: the running-peak drawdown and the period returns. */
module NavHistory {
  import opened Prelude
  import opened RealFacts

  /** The highest of the initial balance and the first n values. */
  function Peak(initial: real, values: seq<real>, n: nat): (peak: real)
    requires n <= |values|
    ensures initial <= peak
  {
    if n == 0 then initial else Max(Peak(initial, values, n - 1), values[n - 1])
  }

  /** The lowest fraction of its running peak that the history reached, less one; zero at best. */
  function Worst(initial: real, values: seq<real>, n: nat): real
    requires n <= |values| && initial > 0.0
  {
    if n == 0 then 0.0 else Min(Worst(initial, values, n - 1), values[n - 1] / Peak(initial, values, n) - 1.0)
  }

  /** `_max_drawdown`: one pass with a running peak. */
  method MaxDrawdown(values: seq<real>, initial: real) returns (worst: real)
    requires initial > 0.0
    ensures worst == Worst(initial, values, |values|)
  {
    var peak := initial;
    worst := 0.0;
    for i := 0 to |values|
      invariant peak == Peak(initial, values, i) && peak > 0.0
      invariant worst == Worst(initial, values, i)
    {
      var current := values[i];
      peak := Max(peak, current);
      worst := Min(worst, current / peak - 1.0);
    }
  }

  /** The history with the initial balance as element 0. */
  function History(initial: real, values: seq<real>): (h: seq<real>)
    ensures |h| == |values| + 1
  {
    [initial] + values
  }

  lemma {:induction false} PeakIsHighest(initial: real, values: seq<real>, n: nat)
    requires n <= |values|
    ensures forall i :: 0 <= i <= n ==> History(initial, values)[i] <= Peak(initial, values, n)
    ensures exists i :: 0 <= i <= n && History(initial, values)[i] == Peak(initial, values, n)
  {
    var all := History(initial, values);
    if n == 0 {
      assert all[0] == Peak(initial, values, 0);
    } else {
      PeakIsHighest(initial, values, n - 1);
      assert all[n] == values[n - 1];
      if Peak(initial, values, n) != values[n - 1] {
        var i :| 0 <= i <= n - 1 && all[i] == Peak(initial, values, n - 1);
        assert all[i] == Peak(initial, values, n);
      }
    }
  }

  /** The fall from element i of the history to element j. */
  function Fall(history: seq<real>, i: nat, j: nat): real
    requires i < |history| && j < |history| && history[i] != 0.0
  {
    history[j] / history[i] - 1.0
  }

  lemma DeeperFromHigher(value: real, low: real, high: real)
    requires 0.0 <= value && 0.0 < low <= high
    ensures value / high <= value / low
  {
    var q := value / high;
    QuotientMonotone(0.0, value, high);
    QuotientTimes(value, high);
    ProductMonotone(low, high, q);
    QuotientMonotone(q * low, value, low);
    QuotientCancel(q, low);
  }

  /**
   The single pass finds the deepest fall between any two points of the history, the later not
   above the earlier in time: a lower bound of all of them that one of them attains, in [-1, 0].
   */
  lemma WorstIsDeepestFall(initial: real, values: seq<real>, n: nat)
    requires initial > 0.0 && n <= |values| && forall i :: 0 <= i < n ==> values[i] >= 0.0
    ensures -1.0 <= Worst(initial, values, n) <= 0.0
    ensures forall i, j :: 0 <= i <= j <= n && History(initial, values)[i] > 0.0
                           ==> Worst(initial, values, n) <= Fall(History(initial, values), i, j)
    ensures exists i, j :: 0 <= i <= j <= n && History(initial, values)[i] > 0.0
                           && Worst(initial, values, n) == Fall(History(initial, values), i, j)
  {
    hide Worst, Fall, Peak;
    WorstInRange(initial, values, n);
    WorstIsBound(initial, values, n);
    WorstIsAttained(initial, values, n);
  }

  lemma {:induction false} WorstInRange(initial: real, values: seq<real>, n: nat)
    requires initial > 0.0 && n <= |values| && forall i :: 0 <= i < n ==> values[i] >= 0.0
    ensures -1.0 <= Worst(initial, values, n) <= 0.0
  {
    if n > 0 {
      WorstInRange(initial, values, n - 1);
      QuotientMonotone(0.0, values[n - 1], Peak(initial, values, n));
    }
  }

  /** The newest value falls deepest from the running peak. */
  lemma NewestFall(initial: real, values: seq<real>, n: nat, i: nat)
    requires initial > 0.0 && 1 <= n <= |values| && values[n - 1] >= 0.0
    requires i <= n && History(initial, values)[i] > 0.0
    ensures values[n - 1] / Peak(initial, values, n) - 1.0 <= Fall(History(initial, values), i, n)
  {
    PeakIsHighest(initial, values, n);
    DeeperFromHigher(values[n - 1], History(initial, values)[i], Peak(initial, values, n));
  }

  lemma {:induction false} WorstIsBound(initial: real, values: seq<real>, n: nat)
    requires initial > 0.0 && n <= |values| && forall i :: 0 <= i < n ==> values[i] >= 0.0
    ensures forall i, j :: 0 <= i <= j <= n && History(initial, values)[i] > 0.0
                           ==> Worst(initial, values, n) <= Fall(History(initial, values), i, j)
  {
    hide Fall, Peak, History;
    if n == 0 {
      NoFall(initial, values);
    } else {
      WorstIsBound(initial, values, n - 1);
      forall i | 0 <= i <= n && History(initial, values)[i] > 0.0
        ensures values[n - 1] / Peak(initial, values, n) - 1.0 <= Fall(History(initial, values), i, n)
      {
        NewestFall(initial, values, n, i);
      }
    }
  }

  lemma NoFall(initial: real, values: seq<real>)
    requires initial > 0.0
    ensures Fall(History(initial, values), 0, 0) == 0.0
  {
    QuotientCancel(1.0, initial);
  }

  lemma {:induction false} WorstIsAttained(initial: real, values: seq<real>, n: nat)
    requires initial > 0.0 && n <= |values|
    ensures exists i, j :: 0 <= i <= j <= n && History(initial, values)[i] > 0.0
                           && Worst(initial, values, n) == Fall(History(initial, values), i, j)
  {
    var all := History(initial, values);
    if n == 0 {
      NoFall(initial, values);
      assert all[0] > 0.0 && Worst(initial, values, 0) == Fall(all, 0, 0);
    } else if Worst(initial, values, n) == Worst(initial, values, n - 1) {
      WorstIsAttained(initial, values, n - 1);
      var i, j :| 0 <= i <= j <= n - 1 && all[i] > 0.0 && Worst(initial, values, n - 1) == Fall(all, i, j);
      assert Worst(initial, values, n) == Fall(all, i, j);
    } else {
      PeakIsHighest(initial, values, n);
      var i :| 0 <= i <= n && all[i] == Peak(initial, values, n);
      assert Worst(initial, values, n) == Fall(all, i, n);
    }
  }

  /** `_nav_returns`; a zero before the end would be a division by zero. */
  function NavReturns(initial: real, values: seq<real>): Result<seq<real>, Violation> {
    var all := History(initial, values);
    if exists i :: 0 <= i < |values| && all[i] == 0.0 then Err(DivisionByZero)
    else Ok(seq(|values|, i requires 0 <= i < |values| && all[i] != 0.0 => all[i + 1] / all[i] - 1.0))
  }

  /** The growth of the first n periods. */
  function Compound(periodReturns: seq<real>, n: nat): real
    requires n <= |periodReturns|
  {
    if n == 0 then 1.0 else Compound(periodReturns, n - 1) * (1.0 + periodReturns[n - 1])
  }

  /** The period returns compound to the total growth of the account. */
  lemma {:induction false} ReturnsTelescope(initial: real, values: seq<real>, n: nat)
    requires NavReturns(initial, values).Ok? && n <= |values| && initial != 0.0
    ensures Compound(NavReturns(initial, values).value, n) * initial == History(initial, values)[n]
  {
    if n > 0 {
      ReturnsTelescope(initial, values, n - 1);
      var all := History(initial, values);
      var a, b, c := Compound(NavReturns(initial, values).value, n - 1), all[n - 1], all[n];
      QuotientTimes(c, b);
      assert a * (1.0 + (c / b - 1.0)) * initial == (a * initial) * (c / b);
    }
  }
}
