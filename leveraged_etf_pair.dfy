/** RebalancingTripleLeveragedETFAlphaModel: every update predicts that both ETFs of every
    triple-leveraged pair lose value over the next day (volatility decay). */
module LeveragedEtfPair {
  import opened Insights

  /** ETFGroup: a triple-leveraged ETF on an index and its inverse on the same index. */
  datatype EtfGroup = EtfGroup(ultraLong: Symbol, ultraShort: Symbol)

  const Magnitude: real := 0.0

  /** The algorithm's pairing loop: group `i` joins `ultraLong[i]` and `ultraShort[i]`. It reads
      `ultraShort[i]` for every index of `ultraLong`, so a shorter `ultraShort` is an IndexError
      (None); the extra entries of a longer one are ignored. */
  function PairGroups(ultraLong: seq<Symbol>, ultraShort: seq<Symbol>): (r: Option<seq<EtfGroup>>)
    ensures r.Some? <==> |ultraLong| <= |ultraShort|
    ensures r.Some? ==> |r.value| == |ultraLong|
    ensures r.Some? ==> forall i :: 0 <= i < |ultraLong| ==>
      r.value[i].ultraLong == ultraLong[i] && r.value[i].ultraShort == ultraShort[i]
  {
    if |ultraLong| > |ultraShort| then None
    else if ultraLong == [] then Some([])
    else
      var n := |ultraLong| - 1;
      var front := PairGroups(ultraLong[..n], ultraShort[..n]);
      Some(front.value + [EtfGroup(ultraLong[n], ultraShort[n])])
  }

  /** `Update`: for each group, in order, a Down insight on its ultra-long ETF followed by one on
      its ultra-short ETF, each with magnitude 0 and a one-day period. Nothing else is read: the
      slice of data and the model's `date` field play no part. */
  function Update(groups: seq<EtfGroup>): (insights: seq<Insight>)
    ensures |insights| == 2 * |groups|
    ensures forall i :: 0 <= i < |groups| ==>
      insights[2 * i] == Insight(groups[i].ultraLong, OneDay, Down, Some(Magnitude)) &&
      insights[2 * i + 1] == Insight(groups[i].ultraShort, OneDay, Down, Some(Magnitude))
  {
    if groups == [] then []
    else
      var n := |groups| - 1;
      var front := Update(groups[..n]);
      front + [Insight(groups[n].ultraLong, OneDay, Down, Some(Magnitude)),
               Insight(groups[n].ultraShort, OneDay, Down, Some(Magnitude))]
  }

  /** Every insight is a one-day Down prediction of magnitude 0, and the insights name exactly the
      ETFs of the groups. */
  lemma UpdateIsShortBiased(groups: seq<EtfGroup>)
    ensures forall x :: x in Update(groups) ==>
      x.direction == Down && x.magnitude == Some(Magnitude) && x.period == OneDay &&
      exists g :: g in groups && (x.symbol == g.ultraLong || x.symbol == g.ultraShort)
  {
    var insights := Update(groups);
    forall x | x in insights
      ensures x.direction == Down && x.magnitude == Some(Magnitude) && x.period == OneDay
      ensures exists g :: g in groups && (x.symbol == g.ultraLong || x.symbol == g.ultraShort)
    {
      var j :| 0 <= j < |insights| && insights[j] == x;
      var i := j / 2;
      assert j == 2 * i || j == 2 * i + 1;
      assert groups[i] in groups;
    }
  }

  /** Pairing and emitting compose: insight 2i names ultraLong[i] and insight 2i+1 ultraShort[i]. */
  lemma PairedUpdate(ultraLong: seq<Symbol>, ultraShort: seq<Symbol>)
    requires |ultraLong| <= |ultraShort|
    ensures |Update(PairGroups(ultraLong, ultraShort).value)| == 2 * |ultraLong|
    ensures forall i :: 0 <= i < |ultraLong| ==>
      Update(PairGroups(ultraLong, ultraShort).value)[2 * i].symbol == ultraLong[i] &&
      Update(PairGroups(ultraLong, ultraShort).value)[2 * i + 1].symbol == ultraShort[i]
  {
  }
}
