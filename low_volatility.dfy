/** LowVolatilitySelectionAlphaModel: predicts that the securities with the lowest volatility of
    daily returns go up. */
module LowVolatility {
  import opened Insights
  import opened Sequences
  import opened OrderedDict

  /** What `Update` reads of one active security. */
  datatype SecurityView = SecurityView(symbol: Symbol, hasData: bool)

  const DefaultNumberOfStocks: nat := 10
  const Magnitude: real := 0.0

  predicate HasData(s: SecurityView) {
    s.hasData
  }

  function SymbolOf(s: SecurityView): Symbol {
    s.symbol
  }

  function Volatility(item: (Symbol, real)): real {
    item.1
  }

  /** The symbols of the active securities that have data, in iteration order. */
  function Candidates(active: seq<SecurityView>): (symbols: seq<Symbol>)
    ensures |symbols| == |Filter(active, HasData)|
    ensures forall i :: 0 <= i < |symbols| ==> symbols[i] == Filter(active, HasData)[i].symbol
  {
    var kept := Filter(active, HasData);
    seq(|kept|, i requires 0 <= i < |kept| => kept[i].symbol)
  }

  /** Python's `zip`: pairs by position, as long as the shorter list. */
  function Zip<A, B>(a: seq<A>, b: seq<B>): (r: seq<(A, B)>)
    ensures |r| == if |a| < |b| then |a| else |b|
    ensures forall i :: 0 <= i < |r| ==> r[i] == (a[i], b[i])
  {
    if a == [] || b == [] then [] else [(a[0], b[0])] + Zip(a[1..], b[1..])
  }

  function Min(a: nat, b: nat): nat {
    if a < b then a else b
  }

  /** `Update`. `volatilities` is None when the history request came back empty; otherwise it is
      the list of standard deviations the history yields, paired with the candidates by
      position. One Up insight of magnitude 0 per chosen symbol, in ascending volatility. */
  function Update(active: seq<SecurityView>, volatilities: Option<seq<real>>, numberOfStocks: nat, period: Minutes)
    : (insights: seq<Insight>)
    ensures volatilities.None? ==> insights == []
    ensures volatilities.Some? ==>
      var symbolsVol := FromPairs(Zip(Candidates(active), volatilities.value));
      var chosen := TopBy(symbolsVol, Volatility, false, Min(|symbolsVol|, numberOfStocks));
      |insights| == |chosen| &&
      forall i :: 0 <= i < |insights| ==> insights[i] == Insight(chosen[i].0, period, Up, Some(Magnitude))
  {
    match volatilities
    case None => []
    case Some(stdDev) =>
      var symbolsVol := FromPairs(Zip(Candidates(active), stdDev));
      var chosen := TopBy(symbolsVol, Volatility, false, Min(|symbolsVol|, numberOfStocks));
      seq(|chosen|, i requires 0 <= i < |chosen| => Insight(chosen[i].0, period, Up, Some(Magnitude)))
  }

  /** The host's active securities are a dictionary keyed by symbol, so with distinct symbols
      `dict(zip(symbols, stdDev))` holds the zipped pairs exactly. */
  lemma {:induction false} DistinctCandidatesZip(active: seq<SecurityView>, stdDev: seq<real>)
    requires DistinctBy(active, SymbolOf)
    ensures FromPairs(Zip(Candidates(active), stdDev)) == Zip(Candidates(active), stdDev)
  {
    var kept := Filter(active, HasData);
    FilterKeepsDistinct(active, HasData, SymbolOf);
    var pairs := Zip(Candidates(active), stdDev);
    forall i, j | 0 <= i < j < |pairs| ensures pairs[i].0 != pairs[j].0 {
      assert pairs[i].0 == SymbolOf(kept[i]) && pairs[j].0 == SymbolOf(kept[j]);
    }
    FromDistinctPairs(pairs);
  }

  /** With distinct symbols, exactly min(candidates, volatilities, numberOfStocks) insights come
      out, each Up with magnitude 0 and each for an active security that has data. */
  lemma {:induction false} UpdateSelectsLowest(active: seq<SecurityView>, stdDev: seq<real>, numberOfStocks: nat, period: Minutes)
    requires DistinctBy(active, SymbolOf)
    ensures |Update(active, Some(stdDev), numberOfStocks, period)| ==
      Min(Min(|Candidates(active)|, |stdDev|), numberOfStocks)
    ensures forall x :: x in Update(active, Some(stdDev), numberOfStocks, period) ==>
      x.direction == Up && x.magnitude == Some(Magnitude) && x.period == period &&
      exists s :: s in active && s.hasData && s.symbol == x.symbol
  {
    var pairs := Zip(Candidates(active), stdDev);
    DistinctCandidatesZip(active, stdDev);
    var insights := Update(active, Some(stdDev), numberOfStocks, period);
    var chosen := TopBy(pairs, Volatility, false, Min(|pairs|, numberOfStocks));
    forall x | x in insights
      ensures x.direction == Up && x.magnitude == Some(Magnitude) && x.period == period
      ensures exists s :: s in active && s.hasData && s.symbol == x.symbol
    {
      var i :| 0 <= i < |insights| && insights[i] == x;
      CandidateOfChosen(active, stdDev, chosen[i]);
    }
  }

  /** With the default setting a call emits at most ten insights, and exactly ten once ten
      distinct candidates have a volatility. */
  lemma DefaultEmitsAtMostTen(active: seq<SecurityView>, stdDev: seq<real>, period: Minutes)
    ensures var insights := Update(active, Some(stdDev), DefaultNumberOfStocks, period);
      var symbolsVol := FromPairs(Zip(Candidates(active), stdDev));
      |insights| <= 10 && (|symbolsVol| >= 10 ==> |insights| == 10)
  {
    var symbolsVol := FromPairs(Zip(Candidates(active), stdDev));
    var n := Min(|symbolsVol|, DefaultNumberOfStocks);
    var chosen := TopBy(symbolsVol, Volatility, false, n);
    assert |chosen| == n;
    assert |Update(active, Some(stdDev), DefaultNumberOfStocks, period)| == |chosen|;
  }

  /** The chosen pairs are the least volatile: none left out has a lower volatility than one
      chosen. */
  lemma LowestVolatilityChosen(active: seq<SecurityView>, stdDev: seq<real>, numberOfStocks: nat)
    ensures var symbolsVol := FromPairs(Zip(Candidates(active), stdDev));
      var lowVol := TopBy(symbolsVol, Volatility, false, Min(|symbolsVol|, numberOfStocks));
      forall a, b :: a in lowVol && b in symbolsVol && b !in lowVol ==> a.1 <= b.1
  {
    var symbolsVol := FromPairs(Zip(Candidates(active), stdDev));
    var n := Min(|symbolsVol|, numberOfStocks);
    var lowVol := TopBy(symbolsVol, Volatility, false, n);
    TopByIsBest(symbolsVol, Volatility, false, n);
    forall a, b | a in lowVol && b in symbolsVol && b !in lowVol ensures a.1 <= b.1 {
      assert InOrder(Volatility, false, a, b);
    }
  }

  /** `dict(...)` around the sorted slice changes nothing: its keys are already distinct. */
  lemma LowVolIsItsOwnDict(active: seq<SecurityView>, stdDev: seq<real>, numberOfStocks: nat)
    ensures var symbolsVol := FromPairs(Zip(Candidates(active), stdDev));
      var lowVol := TopBy(symbolsVol, Volatility, false, Min(|symbolsVol|, numberOfStocks));
      FromPairs(lowVol) == lowVol
  {
    var symbolsVol := FromPairs(Zip(Candidates(active), stdDev));
    var lowVol := TopBy(symbolsVol, Volatility, false, Min(|symbolsVol|, numberOfStocks));
    assert DistinctBy(symbolsVol, Key) by {
      forall i, j | 0 <= i < j < |symbolsVol| ensures Key(symbolsVol[i]) != Key(symbolsVol[j]) {
      }
    }
    TopByKeepsDistinct(symbolsVol, Volatility, false, Min(|symbolsVol|, numberOfStocks), Key);
    forall i, j | 0 <= i < j < |lowVol| ensures lowVol[i].0 != lowVol[j].0 {
      assert Key(lowVol[i]) != Key(lowVol[j]);
    }
    FromDistinctPairs(lowVol);
  }

  function Key(item: (Symbol, real)): Symbol {
    item.0
  }

  /** A zipped pair names an active security that has data. */
  lemma CandidateOfChosen(active: seq<SecurityView>, stdDev: seq<real>, item: (Symbol, real))
    requires item in multiset(Zip(Candidates(active), stdDev))
    ensures exists s :: s in active && s.hasData && s.symbol == item.0
  {
    var kept := Filter(active, HasData);
    var pairs := Zip(Candidates(active), stdDev);
    var j :| 0 <= j < |pairs| && pairs[j] == item;
    assert kept[j] in active && kept[j].hasData && kept[j].symbol == item.0;
  }
}
