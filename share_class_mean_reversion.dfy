/** ShareClassMeanReversionAlphaModel: trades the spread between two share classes of one company.
    The spread value alpha·close0 − beta·close1 is recorded on every slice; when it stands at or
    above its moving average the algorithm goes long symbols[1] and short symbols[0], otherwise
    the reverse, and once invested it liquidates when the spread has crossed the average. */
module ShareClassMeanReversion {
  import opened Insights

  /** What one call of `OnData` is given by the host. */
  datatype Tick = Tick(
    closes: map<Symbol, real>,  // data.Bars: the close of every symbol that has a TradeBar
    quantity0: real,            // CalculateOrderQuantity(symbols[0], 0.5) at this time
    quantity1: real,            // CalculateOrderQuantity(symbols[1], 0.5) at this time
    smaReady: bool,             // sma.IsReady before this slice's value is added
    smaValue: real,             // sma.Current.Value after this slice's value is added
    invested: bool)             // Portfolio.Invested

  datatype Order = SetHoldings(symbol: Symbol, target: real) | Liquidate

  /** What one call emits: an insight group and the orders placed. */
  datatype Outcome = Outcome(insights: seq<Insight>, orders: seq<Order>)

  const NoAction := Outcome([], [])
  const InsightPeriod: Minutes := 5
  const Weight: real := 0.5

  /** The fields `OnData` updates. */
  datatype ModelState = ModelState(portfolio: seq<real>, periodCounter: int, alpha: Option<real>, beta: Option<real>)

  const Initial := ModelState([], 0, None, None)

  /** The counter never runs ahead of the recorded values, and the two position sizes are set
      together; once a value is recorded they are set. */
  ghost predicate Inv(s: ModelState) {
    && 0 <= s.periodCounter <= |s.portfolio|
    && (s.alpha.None? <==> s.beta.None?)
    && (s.portfolio != [] ==> s.alpha.Some?)
  }

  /** The value of the position: `alpha` shares of the first class against `beta` of the second. */
  function Spread(alpha: real, beta: real, close0: real, close1: real): real {
    alpha * close0 - beta * close1
  }

  /** `current` and `previous` lie on opposite sides of `mean`: one at or above, one below. */
  predicate Straddles(current: real, previous: real, mean: real) {
    (current >= mean && previous < mean) || (current < mean && previous >= mean)
  }

  /** How the "has the position crossed the mean" test is made once the counter is at least 1:
      as written, from the recorded values at the counter and just before it; or, as evidently
      intended, from the two newest recorded values. */
  datatype CrossingRule = AtCounter | Newest

  function Crossed(rule: CrossingRule, portfolio: seq<real>, counter: nat, mean: real): bool
    requires 1 <= counter < |portfolio|
  {
    match rule
    case AtCounter => Straddles(portfolio[counter], portfolio[counter - 1], mean)
    case Newest => Straddles(portfolio[|portfolio| - 1], portfolio[|portfolio| - 2], mean)
  }

  /** Orders and insights on entering: long the leg expected to rise, short the other. */
  function Enter(s0: Symbol, s1: Symbol, value: real, mean: real): Outcome {
    if value >= mean then
      Outcome([Insight(s1, InsightPeriod, Up, None), Insight(s0, InsightPeriod, Down, None)],
              [SetHoldings(s1, Weight), SetHoldings(s0, -Weight)])
    else
      Outcome([Insight(s1, InsightPeriod, Down, None), Insight(s0, InsightPeriod, Up, None)],
              [SetHoldings(s1, -Weight), SetHoldings(s0, Weight)])
  }

  /** One call of `OnData` with the given crossing rule, on the pair (s0, s1). */
  function StepWith(rule: CrossingRule, s: ModelState, t: Tick, s0: Symbol, s1: Symbol): (r: (ModelState, Outcome))
    requires Inv(s)
    ensures Inv(r.0)
    // a slice without a bar for either symbol changes nothing and does nothing
    ensures s0 !in t.closes || s1 !in t.closes ==> r == (s, NoAction)
    // otherwise exactly one value is recorded: the spread under the position sizes
    ensures s0 in t.closes && s1 in t.closes ==>
      r.0.alpha.Some? && r.0.beta.Some? &&
      r.0.portfolio == s.portfolio + [Spread(r.0.alpha.value, r.0.beta.value, t.closes[s0], t.closes[s1])]
    // the position sizes are fixed by the first slice that has both bars, and never change again
    ensures s.alpha.Some? ==> r.0.alpha == s.alpha && r.0.beta == s.beta
    ensures s.alpha.None? && s0 in t.closes && s1 in t.closes ==>
      r.0.alpha == Some(t.quantity0) && r.0.beta == Some(t.quantity1)
    // while the average warms up nothing is ordered and the counter stands still
    ensures !t.smaReady ==> r.1 == NoAction && r.0.periodCounter == s.periodCounter
    // after warm-up every slice with both bars advances the counter by exactly one
    ensures t.smaReady && s0 in t.closes && s1 in t.closes ==> r.0.periodCounter == s.periodCounter + 1
  {
    if s0 !in t.closes || s1 !in t.closes then (s, NoAction)
    else
      var alpha := if s.alpha.None? && s.beta.None? then Some(t.quantity0) else s.alpha;
      var beta := if s.alpha.None? && s.beta.None? then Some(t.quantity1) else s.beta;
      var value := Spread(alpha.value, beta.value, t.closes[s0], t.closes[s1]);
      var portfolio := s.portfolio + [value];
      if !t.smaReady then
        (ModelState(portfolio, s.periodCounter, alpha, beta), NoAction)
      else
        var torf := if s.periodCounter >= 1 then Crossed(rule, portfolio, s.periodCounter, t.smaValue) else true;
        var outcome :=
          if !t.invested then Enter(s0, s1, value, t.smaValue)
          else if torf then Outcome([], [Liquidate])
          else NoAction;
        (ModelState(portfolio, s.periodCounter + 1, alpha, beta), outcome)
  }

  /** `OnData` as written. */
  function Step(s: ModelState, t: Tick, s0: Symbol, s1: Symbol): (r: (ModelState, Outcome))
    requires Inv(s)
    ensures Inv(r.0)
  {
    StepWith(AtCounter, s, t, s0, s1)
  }

  /** `OnData` with the crossing test made on the two newest values. */
  function CorrectedStep(s: ModelState, t: Tick, s0: Symbol, s1: Symbol): (r: (ModelState, Outcome))
    requires Inv(s)
    ensures Inv(r.0)
  {
    StepWith(Newest, s, t, s0, s1)
  }

  /** Every entry is market neutral: one leg long and one short at equal weight, and each leg's
      insight points the way of its holding. When invested the only order is a liquidation. */
  lemma {:induction false} EntriesAreHedged(s: ModelState, t: Tick, s0: Symbol, s1: Symbol)
    requires Inv(s)
    ensures var out := Step(s, t, s0, s1).1;
      && (out.orders == [] || out.orders == [Liquidate] || |out.orders| == 2)
      && (|out.orders| == 2 ==>
            && !t.invested && t.smaReady
            && out.orders[0].symbol == s1 && out.orders[1].symbol == s0
            && out.orders[0].target + out.orders[1].target == 0.0
            && |out.insights| == 2
            && (forall i :: 0 <= i < 2 ==>
                  out.insights[i].symbol == out.orders[i].symbol &&
                  (out.insights[i].direction == Up <==> out.orders[i].target > 0.0)))
      && (out.orders == [Liquidate] ==> t.invested && out.insights == [])
  {
    var out := Step(s, t, s0, s1).1;
    if s0 in t.closes && s1 in t.closes && t.smaReady && !t.invested {
      var alpha := if s.alpha.None? && s.beta.None? then Some(t.quantity0) else s.alpha;
      var beta := if s.alpha.None? && s.beta.None? then Some(t.quantity1) else s.beta;
      var value := Spread(alpha.value, beta.value, t.closes[s0], t.closes[s1]);
      assert out == Enter(s0, s1, value, t.smaValue);
    }
  }

  /** Once the average is ready and the position is entered, the direction follows the
      deviation: at or above the average, long symbols[1] and short symbols[0]; below it, the
      reverse. */
  lemma EntryDirection(s: ModelState, t: Tick, s0: Symbol, s1: Symbol)
    requires Inv(s)
    requires s0 in t.closes && s1 in t.closes && t.smaReady && !t.invested
    ensures var r := Step(s, t, s0, s1);
      var value := r.0.portfolio[|r.0.portfolio| - 1];
      r.1.orders == if value >= t.smaValue then [SetHoldings(s1, Weight), SetHoldings(s0, -Weight)]
                    else [SetHoldings(s1, -Weight), SetHoldings(s0, Weight)]
  {
  }

  /** As written, an invested slice after warm-up places one liquidation or nothing: the
      liquidation comes on the first such slice (counter 0), and afterwards exactly when the
      recorded values at the counter and just before it lie on opposite sides of the average. */
  lemma InvestedExitAsWritten(s: ModelState, t: Tick, s0: Symbol, s1: Symbol)
    requires Inv(s) && HasBars(t, s0, s1) && t.smaReady && t.invested
    ensures var r := Step(s, t, s0, s1);
      var p := r.0.portfolio;
      var c := s.periodCounter;
      && c < |p|
      && (r.1 == Outcome([], [Liquidate]) <==> c == 0 || Straddles(p[c], p[c - 1], t.smaValue))
      && (r.1 == Outcome([], [Liquidate]) || r.1 == NoAction)
  {
  }

  /** The states and outcomes of a run of slices. */
  function Run(s: ModelState, ticks: seq<Tick>, s0: Symbol, s1: Symbol): (r: (ModelState, seq<Outcome>))
    requires Inv(s)
    ensures Inv(r.0) && |r.1| == |ticks|
    decreases |ticks|
  {
    if ticks == [] then (s, [])
    else
      var (next, out) := Step(s, ticks[0], s0, s1);
      var (last, outs) := Run(next, ticks[1..], s0, s1);
      (last, [out] + outs)
  }

  predicate HasBars(t: Tick, s0: Symbol, s1: Symbol) {
    s0 in t.closes && s1 in t.closes
  }

  /** The number of slices with both bars, and of those that came after warm-up. */
  function Accepted(ticks: seq<Tick>, s0: Symbol, s1: Symbol): nat {
    if ticks == [] then 0 else (if HasBars(ticks[0], s0, s1) then 1 else 0) + Accepted(ticks[1..], s0, s1)
  }

  function AcceptedReady(ticks: seq<Tick>, s0: Symbol, s1: Symbol): nat {
    if ticks == [] then 0
    else (if HasBars(ticks[0], s0, s1) && ticks[0].smaReady then 1 else 0) + AcceptedReady(ticks[1..], s0, s1)
  }

  /** Over any run, one value is recorded per slice with both bars, the counter grows by one per
      such slice after warm-up, and the invariant holds, so `crossed_mean` never indexes outside
      the recorded values. */
  lemma {:induction false} RunCounts(s: ModelState, ticks: seq<Tick>, s0: Symbol, s1: Symbol)
    requires Inv(s)
    ensures Inv(Run(s, ticks, s0, s1).0)
    ensures |Run(s, ticks, s0, s1).0.portfolio| == |s.portfolio| + Accepted(ticks, s0, s1)
    ensures Run(s, ticks, s0, s1).0.periodCounter == s.periodCounter + AcceptedReady(ticks, s0, s1)
    decreases |ticks|
  {
    if ticks != [] {
      RunCounts(Step(s, ticks[0], s0, s1).0, ticks[1..], s0, s1);
    }
  }

  /** The position sizes are set at most once: after they are set, no run changes them. */
  lemma {:induction false} SizesSetOnce(s: ModelState, ticks: seq<Tick>, s0: Symbol, s1: Symbol)
    requires Inv(s) && s.alpha.Some?
    ensures Run(s, ticks, s0, s1).0.alpha == s.alpha
    ensures Run(s, ticks, s0, s1).0.beta == s.beta
    decreases |ticks|
  {
    if ticks != [] {
      SizesSetOnce(Step(s, ticks[0], s0, s1).0, ticks[1..], s0, s1);
    }
  }

  /** The host's `SimpleMovingAverage(20)`. It is fed every recorded value, so before a slice it
      is ready exactly when 20 values have been recorded, and once ready its value after the
      update is the mean of the 20 newest recorded values, this slice's included. */
  const SmaPeriod: nat := 20

  function Sum(xs: seq<real>): real {
    if xs == [] then 0.0 else Sum(xs[..|xs| - 1]) + xs[|xs| - 1]
  }

  /** The tick's `smaReady` and `smaValue` are what the moving average reports in state `s`. */
  predicate SmaAgrees(s: ModelState, t: Tick, s0: Symbol, s1: Symbol)
    requires Inv(s)
  {
    HasBars(t, s0, s1) ==>
      && (t.smaReady <==> |s.portfolio| >= SmaPeriod)
      && (t.smaReady ==>
            var p := Step(s, t, s0, s1).0.portfolio;
            |p| >= SmaPeriod && t.smaValue * SmaPeriod as real == Sum(p[|p| - SmaPeriod..]))
  }

  /** Every slice of the run agrees with the moving average. */
  predicate Realizable(s: ModelState, ticks: seq<Tick>, s0: Symbol, s1: Symbol)
    requires Inv(s)
    decreases |ticks|
  {
    ticks == [] ||
    (SmaAgrees(s, ticks[0], s0, s1) && Realizable(Step(s, ticks[0], s0, s1).0, ticks[1..], s0, s1))
  }

  /** Where the counter stands after `n` values have been recorded: it trails them by the
      average's period. */
  function Lag(n: nat): nat {
    if n <= SmaPeriod then 0 else n - SmaPeriod
  }

  /** In a run that agrees with the moving average the counter keeps trailing the recorded
      values by the period: it counts only the slices after warm-up. */
  lemma {:induction false} RealizableCounterLags(s: ModelState, ticks: seq<Tick>, s0: Symbol, s1: Symbol)
    requires Inv(s) && s.periodCounter == Lag(|s.portfolio|)
    requires Realizable(s, ticks, s0, s1)
    ensures var e := Run(s, ticks, s0, s1).0; e.periodCounter == Lag(|e.portfolio|)
    decreases |ticks|
  {
    if ticks != [] {
      RealizableCounterLags(Step(s, ticks[0], s0, s1).0, ticks[1..], s0, s1);
    }
  }

  /** Hence, in such a run, the exit test as written looks a whole period back: it compares the
      value recorded 20 slices before the newest with the one before that, never the newest two. */
  lemma ExitLooksOnePeriodBack(s: ModelState, t: Tick, s0: Symbol, s1: Symbol)
    requires Inv(s) && s.periodCounter == Lag(|s.portfolio|)
    requires HasBars(t, s0, s1) && SmaAgrees(s, t, s0, s1) && t.smaReady && t.invested
    ensures var r := Step(s, t, s0, s1);
      var p := r.0.portfolio;
      var n := |p| - 1;
      && n >= SmaPeriod
      && (r.1 == Outcome([], [Liquidate]) <==>
            n == SmaPeriod || Straddles(p[n - SmaPeriod], p[n - SmaPeriod - 1], t.smaValue))
  {
    InvestedExitAsWritten(s, t, s0, s1);
  }

  /** Running `a` then `b` is running `a + b`, and a run of both that agrees with the average
      is made of two that do. */
  lemma {:induction false} RunAppend(s: ModelState, a: seq<Tick>, b: seq<Tick>, s0: Symbol, s1: Symbol)
    requires Inv(s)
    ensures var m := Run(s, a, s0, s1);
      && Run(s, a + b, s0, s1) == (Run(m.0, b, s0, s1).0, m.1 + Run(m.0, b, s0, s1).1)
      && (Realizable(s, a, s0, s1) && Realizable(m.0, b, s0, s1) ==> Realizable(s, a + b, s0, s1))
    decreases |a|
  {
    if a == [] {
      assert a + b == b;
      assert Run(s, a, s0, s1) == (s, []);
      assert [] + Run(s, b, s0, s1).1 == Run(s, b, s0, s1).1;
    } else {
      var ab := a + b;
      assert ab[0] == a[0] && ab[1..] == a[1..] + b;
      var st := Step(s, a[0], s0, s1);
      var rest := Run(st.0, a[1..], s0, s1);
      var x := Run(rest.0, b, s0, s1);
      RunAppend(st.0, a[1..], b, s0, s1);
      assert Run(s, a, s0, s1) == (rest.0, [st.1] + rest.1);
      assert Run(s, ab, s0, s1) == (x.0, [st.1] + (rest.1 + x.1));
      assert [st.1] + (rest.1 + x.1) == ([st.1] + rest.1) + x.1;
    }
  }

  /** A run of one slice is one step. */
  lemma RunSingle(s: ModelState, t: Tick, s0: Symbol, s1: Symbol)
    requires Inv(s)
    ensures Run(s, [t], s0, s1) == (Step(s, t, s0, s1).0, [Step(s, t, s0, s1).1])
    ensures Realizable(s, [t], s0, s1) == SmaAgrees(s, t, s0, s1)
  {
    var st := Step(s, t, s0, s1);
    assert [t][0] == t && [t][1..] == [];
    assert Run(st.0, [], s0, s1) == (st.0, []);
    assert [st.1] + [] == [st.1];
  }

  function Repeat<T>(x: T, n: nat): (r: seq<T>)
    ensures |r| == n && forall i :: 0 <= i < n ==> r[i] == x
  {
    if n == 0 then [] else Repeat(x, n - 1) + [x]
  }

  lemma {:induction false} SumRepeat(v: real, n: nat)
    ensures Sum(Repeat(v, n)) == n as real * v
  {
    if n > 0 {
      assert Repeat(v, n)[..n - 1] == Repeat(v, n - 1);
      SumRepeat(v, n - 1);
    }
  }

  const Goog: Symbol := "GOOG"
  const Googl: Symbol := "GOOGL"

  /** A warm-up slice: GOOG at 105, GOOGL at 100, one share of each, so the spread is 5. */
  const WarmSlice := Tick(map[Goog := 105.0, Googl := 100.0], 1.0, 1.0, false, 5.0, false)
  /** The first slice after warm-up, not yet invested, with the average at 5. */
  const EnterSlice := Tick(map[Goog := 105.0, Googl := 100.0], 1.0, 1.0, true, 5.0, false)
  /** An invested slice where GOOG drops to 101: the spread is 1 and the average 96/20 = 4.8. */
  const ExitSlice := Tick(map[Goog := 101.0, Googl := 100.0], 1.0, 1.0, true, 4.8, true)

  /** Twenty warm-up slices, one that enters, then an invested slice whose spread falls from
      above the average to below it. */
  function WarmUpThenCross(): seq<Tick> {
    Repeat(WarmSlice, SmaPeriod) + [EnterSlice, ExitSlice]
  }

  function Recorded(k: nat, counter: nat): ModelState {
    ModelState(Repeat(5.0, k), counter, Some(1.0), Some(1.0))
  }

  /** The first slice sets both sizes to one share and records the spread 5. */
  lemma FirstSliceSetsSizes()
    ensures Step(Initial, WarmSlice, Goog, Googl) == (Recorded(1, 0), NoAction)
    ensures SmaAgrees(Initial, WarmSlice, Goog, Googl)
  {
    assert |Goog| != |Googl|;
    assert Spread(1.0, 1.0, 105.0, 100.0) == 5.0;
    assert [] + [5.0] == Repeat(5.0, 1);
  }

  /** Warm-up slices only record: from `k` values of 5, `n` more leave `k + n` of them, place
      nothing, and agree with an average that is not yet ready. */
  lemma {:induction false} WarmUpRecords(k: nat, n: nat)
    requires 1 <= k && k + n <= SmaPeriod
    ensures Realizable(Recorded(k, 0), Repeat(WarmSlice, n), Goog, Googl)
    ensures Run(Recorded(k, 0), Repeat(WarmSlice, n), Goog, Googl) == (Recorded(k + n, 0), Repeat(NoAction, n))
    decreases n
  {
    if n > 0 {
      var w := Repeat(WarmSlice, n);
      assert w[0] == WarmSlice && w[1..] == Repeat(WarmSlice, n - 1);
      assert |Goog| != |Googl|;
      assert Spread(1.0, 1.0, 105.0, 100.0) == 5.0;
      assert Repeat(5.0, k) + [5.0] == Repeat(5.0, k + 1);
      assert Step(Recorded(k, 0), WarmSlice, Goog, Googl) == (Recorded(k + 1, 0), NoAction);
      WarmUpRecords(k + 1, n - 1);
      assert [NoAction] + Repeat(NoAction, n - 1) == Repeat(NoAction, n);
    }
  }

  /** After warm-up the first slice is ready; with the spread at the average it goes long GOOGL
      and short GOOG, and the counter moves to 1. */
  lemma EnterAfterWarmUp()
    ensures SmaAgrees(Recorded(SmaPeriod, 0), EnterSlice, Goog, Googl)
    ensures Step(Recorded(SmaPeriod, 0), EnterSlice, Goog, Googl) ==
      (Recorded(SmaPeriod + 1, 1), Enter(Goog, Googl, 5.0, 5.0))
  {
    assert |Goog| != |Googl|;
    assert Spread(1.0, 1.0, 105.0, 100.0) == 5.0;
    var p := Repeat(5.0, SmaPeriod) + [5.0];
    assert p == Repeat(5.0, SmaPeriod + 1);
    assert p[|p| - SmaPeriod..] == Repeat(5.0, SmaPeriod);
    SumRepeat(5.0, SmaPeriod);
  }

  /** The invested slice records 1 after twenty-one 5s, with the average at 4.8: the newest two
      values lie on opposite sides of it, yet `crossed_mean` compares the first two values, 5
      and 5, and nothing is ordered. */
  lemma InvestedSliceIgnoresCross()
    ensures SmaAgrees(Recorded(SmaPeriod + 1, 1), ExitSlice, Goog, Googl)
    ensures Step(Recorded(SmaPeriod + 1, 1), ExitSlice, Goog, Googl) ==
      (ModelState(Repeat(5.0, SmaPeriod + 1) + [1.0], 2, Some(1.0), Some(1.0)), NoAction)
  {
    assert |Goog| != |Googl|;
    assert Spread(1.0, 1.0, 101.0, 100.0) == 1.0;
    var p := Repeat(5.0, SmaPeriod + 1) + [1.0];
    assert !Crossed(AtCounter, p, 1, 4.8);
    var last := p[|p| - SmaPeriod..];
    assert last[..|last| - 1] == Repeat(5.0, SmaPeriod - 1);
    SumRepeat(5.0, SmaPeriod - 1);
  }

  /** The last two slices: one entry, then nothing, ending on the twenty-one 5s and the 1. */
  lemma EnterThenMissExit()
    ensures Realizable(Recorded(SmaPeriod, 0), [EnterSlice, ExitSlice], Goog, Googl)
    ensures Run(Recorded(SmaPeriod, 0), [EnterSlice, ExitSlice], Goog, Googl) ==
      (ModelState(Repeat(5.0, SmaPeriod + 1) + [1.0], 2, Some(1.0), Some(1.0)),
       [Enter(Goog, Googl, 5.0, 5.0), NoAction])
  {
    EnterAfterWarmUp();
    InvestedSliceIgnoresCross();
    RunSingle(Recorded(SmaPeriod, 0), EnterSlice, Goog, Googl);
    RunSingle(Recorded(SmaPeriod + 1, 1), ExitSlice, Goog, Googl);
    RunAppend(Recorded(SmaPeriod, 0), [EnterSlice], [ExitSlice], Goog, Googl);
    assert [EnterSlice] + [ExitSlice] == [EnterSlice, ExitSlice];
    assert Run(Recorded(SmaPeriod, 0), [EnterSlice], Goog, Googl) ==
      (Recorded(SmaPeriod + 1, 1), [Enter(Goog, Googl, 5.0, 5.0)]);
    assert [Enter(Goog, Googl, 5.0, 5.0)] + [NoAction] == [Enter(Goog, Googl, 5.0, 5.0), NoAction];
  }

  /** From the first recorded 5: nineteen more warm-up slices, the entry, and the missed exit. */
  lemma AfterFirstSlice()
    ensures var ticks := Repeat(WarmSlice, SmaPeriod - 1) + [EnterSlice, ExitSlice];
      && Realizable(Recorded(1, 0), ticks, Goog, Googl)
      && Run(Recorded(1, 0), ticks, Goog, Googl) ==
           (ModelState(Repeat(5.0, SmaPeriod + 1) + [1.0], 2, Some(1.0), Some(1.0)),
            Repeat(NoAction, SmaPeriod - 1) + [Enter(Goog, Googl, 5.0, 5.0), NoAction])
  {
    WarmUpRecords(1, SmaPeriod - 1);
    RunAppend(Recorded(1, 0), Repeat(WarmSlice, SmaPeriod - 1), [EnterSlice, ExitSlice], Goog, Googl);
    EnterThenMissExit();
  }

  /** As written, the exit test misses the crossing in a run that agrees with the moving
      average: the run enters after warm-up, its last two values straddle the average, and
      its invested last slice places nothing. */
  lemma StaleCrossingMissesExit()
    ensures Realizable(Initial, WarmUpThenCross(), Goog, Googl)
    ensures var r := Run(Initial, WarmUpThenCross(), Goog, Googl);
      var p := r.0.portfolio;
      && p == Repeat(5.0, SmaPeriod + 1) + [1.0]
      && r.1[SmaPeriod] == Enter(Goog, Googl, 5.0, 5.0)
      && Straddles(p[|p| - 1], p[|p| - 2], 4.8)
      && r.1[SmaPeriod + 1] == NoAction
  {
    var rest := Repeat(WarmSlice, SmaPeriod - 1) + [EnterSlice, ExitSlice];
    FirstSliceThenRest();
    FirstSliceSetsSizes();
    RunSingle(Initial, WarmSlice, Goog, Googl);
    AfterFirstSlice();
    RunAppend(Initial, [WarmSlice], rest, Goog, Googl);
    OutcomesOfRun();
  }

  lemma FirstSliceThenRest()
    ensures WarmUpThenCross() == [WarmSlice] + (Repeat(WarmSlice, SmaPeriod - 1) + [EnterSlice, ExitSlice])
  {
    assert Repeat(WarmSlice, SmaPeriod) == [WarmSlice] + Repeat(WarmSlice, SmaPeriod - 1);
  }

  lemma OutcomesOfRun()
    ensures var outs := [NoAction] + (Repeat(NoAction, SmaPeriod - 1) + [Enter(Goog, Googl, 5.0, 5.0), NoAction]);
      outs[SmaPeriod] == Enter(Goog, Googl, 5.0, 5.0) && outs[SmaPeriod + 1] == NoAction
  {
  }

  /** With the test on the two newest values, an invested position is liquidated exactly when the
      newly recorded spread and the one before it lie on opposite sides of the average. */
  lemma CorrectedStepExitsOnCross(s: ModelState, t: Tick, s0: Symbol, s1: Symbol)
    requires Inv(s) && s.periodCounter >= 1
    requires HasBars(t, s0, s1) && t.smaReady && t.invested
    ensures var r := CorrectedStep(s, t, s0, s1);
      var p := r.0.portfolio;
      |p| >= 2 &&
      (r.1 == Outcome([], [Liquidate]) <==> Straddles(p[|p| - 1], p[|p| - 2], t.smaValue)) &&
      (r.1 == Outcome([], [Liquidate]) || r.1 == NoAction)
  {
  }

  /** The algorithm object: the symbol pair and the fields `OnData` updates. */
  class Algorithm {
    const symbols: seq<Symbol>
    var portfolio: seq<real>
    var periodCounter: int
    var alpha: Option<real>
    var beta: Option<real>

    function Current(): ModelState
      reads this
    {
      ModelState(portfolio, periodCounter, alpha, beta)
    }

    ghost predicate Valid()
      reads this
    {
      |symbols| == 2 && Inv(Current())
    }

    constructor ()
      ensures Valid() && symbols == [Goog, Googl] && Current() == Initial
    {
      symbols := [Goog, Googl];
      portfolio := [];
      periodCounter := 0;
      alpha := None;
      beta := None;
    }

    /** `crossed_mean`: whether the recorded values at the counter and just before it lie on
        opposite sides of `mean`; the counter advances by one whatever the answer. */
    method CrossedMean(mean: real) returns (crossed: bool)
      requires Valid() && 1 <= periodCounter < |portfolio|
      modifies this`periodCounter
      ensures Valid()
      ensures periodCounter == old(periodCounter) + 1
      ensures crossed == Crossed(AtCounter, portfolio, old(periodCounter), mean)
    {
      if portfolio[periodCounter] >= mean && portfolio[periodCounter - 1] < mean {
        periodCounter := periodCounter + 1;
        return true;
      } else if portfolio[periodCounter] < mean && portfolio[periodCounter - 1] >= mean {
        periodCounter := periodCounter + 1;
        return true;
      } else {
        periodCounter := periodCounter + 1;
        return false;
      }
    }

    /** `OnData`: one step of the model, as `Step` states it. */
    method OnData(tick: Tick) returns (out: Outcome)
      requires Valid()
      modifies this
      ensures Valid()
      ensures (Current(), out) == Step(old(Current()), tick, symbols[0], symbols[1])
    {
      for i := 0 to |symbols|
        invariant forall j :: 0 <= j < i ==> symbols[j] in tick.closes
        invariant Current() == old(Current())
      {
        if symbols[i] !in tick.closes {
          assert symbols[0] !in tick.closes || symbols[1] !in tick.closes;
          return NoAction;
        }
      }
      if alpha.None? && beta.None? {
        alpha := Some(tick.quantity0);
        beta := Some(tick.quantity1);
      }
      var value := Spread(alpha.value, beta.value, tick.closes[symbols[0]], tick.closes[symbols[1]]);
      portfolio := portfolio + [value];
      if !tick.smaReady {
        return NoAction;
      }
      var torf: bool;
      if periodCounter >= 1 {
        torf := CrossedMean(tick.smaValue);
      } else {
        torf := true;
        periodCounter := periodCounter + 1;
      }
      if !tick.invested {
        out := Enter(symbols[0], symbols[1], value, tick.smaValue);
      } else if torf {
        out := Outcome([], [Liquidate]);
      } else {
        out := NoAction;
      }
    }
  }
}
