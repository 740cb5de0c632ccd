/** MeanReversionLunchBreakAlphaModel: at noon, predicts that a security which rose in the hour
    before lunch falls back, and one which did not rise goes up. */
module LunchBreak {
  import opened Insights
  import opened Sequences
  import opened OrderedDict

  /** What `Update` reads of one active security: whether it has data, and the open and close
      of its latest hourly bar. */
  datatype SecurityView = SecurityView(symbol: Symbol, hasData: bool, open: real, close: real)

  const LunchHour: int := 12
  const Magnitude: real := 0.0

  /** A security gets a return when it has data and a non-zero open (no division by zero). */
  predicate Qualifies(s: SecurityView) {
    s.hasData && s.open != 0.0
  }

  function HourReturn(s: SecurityView): real
    requires s.open != 0.0
  {
    s.close / s.open - 1.0
  }

  /** The entries written into `symbolsReturn`, in the order of the active securities. */
  function ReturnPairs(active: seq<SecurityView>): (pairs: seq<(Symbol, real)>)
    ensures |pairs| == |Filter(active, Qualifies)|
    ensures forall i :: 0 <= i < |pairs| ==>
      pairs[i] == (Filter(active, Qualifies)[i].symbol, HourReturn(Filter(active, Qualifies)[i]))
  {
    var q := Filter(active, Qualifies);
    seq(|q|, i requires 0 <= i < |q| => (q[i].symbol, HourReturn(q[i])))
  }

  /** `Update`: off the lunch hour nothing; otherwise one insight for the first entry of
      `symbolsReturn`, Down when its return is positive and Up otherwise, or nothing when no
      security qualifies. */
  function Update(hour: int, active: seq<SecurityView>, period: Minutes): (insights: seq<Insight>)
    ensures hour != LunchHour ==> insights == []
    ensures |insights| <= 1
    ensures insights != [] <==> hour == LunchHour && exists s :: s in active && Qualifies(s)
    ensures insights != [] ==>
      var first := insights[0];
      first.period == period && first.magnitude == Some(Magnitude) &&
      first.symbol in ToMap(ReturnPairs(active)) &&
      first.direction == if ToMap(ReturnPairs(active))[first.symbol] > 0.0 then Down else Up
  {
    if hour != LunchHour then []
    else
      var symbolsReturn := FromPairs(ReturnPairs(active));
      FilterEmpty(active, Qualifies);
      assert symbolsReturn == [] <==> ReturnPairs(active) == [] by {
        if ReturnPairs(active) != [] { FromPairsFirstKey(ReturnPairs(active)); }
      }
      if symbolsReturn == [] then []
      else
        FromPairsValues(ReturnPairs(active));
        var (symbol, value) := symbolsReturn[0];
        [Insight(symbol, period, if value > 0.0 then Down else Up, Some(Magnitude))]
  }

  /** The insight is for the first active security that qualifies, in iteration order. */
  lemma {:induction false} InsightForFirstQualifying(hour: int, active: seq<SecurityView>, period: Minutes, k: nat)
    requires hour == LunchHour
    requires k < |active| && Qualifies(active[k])
    requires forall j :: 0 <= j < k ==> !Qualifies(active[j])
    ensures |Update(hour, active, period)| == 1
    ensures Update(hour, active, period)[0].symbol == active[k].symbol
  {
    FilterHead(active, Qualifies, k);
    FromPairsFirstKey(ReturnPairs(active));
    assert active[k] in active;
  }

  /** The host's active securities are a dictionary keyed by symbol. With distinct symbols the
      direction comes from that first security's own return: Down exactly when close > open. */
  lemma {:induction false} DirectionOpposesReturn(hour: int, active: seq<SecurityView>, period: Minutes, k: nat)
    requires hour == LunchHour
    requires DistinctBy(active, (s: SecurityView) => s.symbol)
    requires k < |active| && Qualifies(active[k])
    requires forall j :: 0 <= j < k ==> !Qualifies(active[j])
    ensures |Update(hour, active, period)| == 1
    ensures Update(hour, active, period)[0].direction == if HourReturn(active[k]) > 0.0 then Down else Up
  {
    var q := Filter(active, Qualifies);
    FilterHead(active, Qualifies, k);
    FilterKeepsDistinct(active, Qualifies, (s: SecurityView) => s.symbol);
    var pairs := ReturnPairs(active);
    assert DistinctKeys(pairs) by {
      forall i, j | 0 <= i < j < |pairs| ensures pairs[i].0 != pairs[j].0 {
        assert pairs[i].0 == q[i].symbol && pairs[j].0 == q[j].symbol;
      }
    }
    FromDistinctPairs(pairs);
    assert active[k] in active;
  }
}
