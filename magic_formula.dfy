/** MagicFormulaUniverseSelectionModel: once a month, the 500 most traded stocks with fundamental
    data; among them US stocks listed on the NYSE or NASDAQ for more than half a year with a
    market cap above 500 million, a dollar-volume quota per sector, then Greenblatt's ranking:
    the 20 with the highest EV/EBITDA, of which the 10 with the lowest ROIC. */
module MagicFormula {
  import opened Insights
  import opened Sequences
  import opened OrderedDict

  /** What coarse selection reads of one security. */
  datatype CoarseFundamental = CoarseFundamental(
    symbol: Symbol,
    month: int,               // EndTime.month
    hasFundamentalData: bool,
    volume: int,
    price: real,
    dollarVolume: real)

  /** What fine selection reads of one security. */
  datatype FineFundamental = FineFundamental(
    symbol: Symbol,
    countryId: string,            // CompanyReference.CountryId
    primaryExchangeId: string,    // CompanyReference.PrimaryExchangeID
    ipoDay: int,                  // SecurityReference.IPODate, as a day number
    basicAverageShares: real,     // EarningReports.BasicAverageShares.ThreeMonths
    basicEps: real,               // EarningReports.BasicEPS.TwelveMonths
    peRatio: real,                // ValuationRatios.PERatio
    industryTemplateCode: string, // CompanyReference.IndustryTemplateCode
    evToEbitda: real,             // ValuationRatios.EVToEBITDA
    roic: real)                   // OperationRatios.ROIC.OneYear

  /** A selection, or the symbol whose dollar-volume lookup raised KeyError. */
  datatype Result<T> = Ok(value: T) | MissingKey(symbol: Symbol)

  const NumberOfSymbolsCoarse: nat := 500
  const NumberOfSymbolsFine: nat := 20
  const NumberOfSymbolsInPortfolio: nat := 10
  const MinimumMarketCap: real := 500000000.0
  const MinimumDaysListed: int := 180
  const SectorCodes: seq<string> := ["N", "M", "U", "T", "B", "I"]

  // ---------------------------------------------------------------- coarse selection

  predicate PassesCoarse(x: CoarseFundamental) {
    x.hasFundamentalData && x.volume > 0 && x.price > 0.0
  }

  function DollarVolume(x: CoarseFundamental): real {
    x.dollarVolume
  }

  /** `top`: the at most 500 securities that pass the coarse filter, largest dollar volume
      first. */
  function CoarseTop(coarse: seq<CoarseFundamental>): (top: seq<CoarseFundamental>)
    ensures |top| <= NumberOfSymbolsCoarse
    ensures forall x :: x in top ==> x in coarse && PassesCoarse(x)
    ensures SortedBy(top, DollarVolume, true)
  {
    var filtered := Filter(coarse, PassesCoarse);
    TopByIsBest(filtered, DollarVolume, true, NumberOfSymbolsCoarse);
    TopBy(filtered, DollarVolume, true, NumberOfSymbolsCoarse)
  }

  /** No security that passes the coarse filter but is left out of the top trades more than one
      taken; and the top is exactly 500 long whenever at least 500 pass. */
  lemma CoarseTopIsBest(coarse: seq<CoarseFundamental>)
    ensures var top := CoarseTop(coarse);
      && |top| == (if NumberOfSymbolsCoarse < |Filter(coarse, PassesCoarse)| then NumberOfSymbolsCoarse else |Filter(coarse, PassesCoarse)|)
      && forall a, b :: a in top && b in coarse && PassesCoarse(b) && b !in top ==> a.dollarVolume >= b.dollarVolume
  {
    var filtered := Filter(coarse, PassesCoarse);
    var top := CoarseTop(coarse);
    TopByIsBest(filtered, DollarVolume, true, NumberOfSymbolsCoarse);
    forall a, b | a in top && b in coarse && PassesCoarse(b) && b !in top ensures a.dollarVolume >= b.dollarVolume {
      assert b in filtered;
      assert InOrder(DollarVolume, true, a, b);
    }
  }

  function SymbolDollarVolumes(top: seq<CoarseFundamental>): (pairs: seq<(Symbol, real)>)
    ensures |pairs| == |top|
    ensures forall i :: 0 <= i < |top| ==> pairs[i] == (top[i].symbol, top[i].dollarVolume)
  {
    seq(|top|, i requires 0 <= i < |top| => (top[i].symbol, top[i].dollarVolume))
  }

  /** `{ i.Symbol: i.DollarVolume for i in top }`. */
  function DollarVolumeBySymbol(coarse: seq<CoarseFundamental>): seq<(Symbol, real)> {
    FromPairs(SymbolDollarVolumes(CoarseTop(coarse)))
  }

  /** The coarse symbols are at most 500, all distinct, and each belongs to a security with
      fundamental data, positive volume and positive price. */
  lemma CoarseSymbolsPass(coarse: seq<CoarseFundamental>)
    ensures var items := DollarVolumeBySymbol(coarse);
      |Keys(items)| <= NumberOfSymbolsCoarse &&
      DistinctKeys(items) &&
      forall k :: k in Keys(items) ==> exists x :: x in coarse && PassesCoarse(x) && x.symbol == k
  {
    KeysFromTop(CoarseTop(coarse), coarse);
  }

  /** Every key of the dict built from `top` is the symbol of a security of `top`. */
  lemma KeysFromTop(top: seq<CoarseFundamental>, coarse: seq<CoarseFundamental>)
    requires forall x :: x in top ==> x in coarse && PassesCoarse(x)
    ensures forall k :: k in Keys(FromPairs(SymbolDollarVolumes(top))) ==>
      exists x :: x in coarse && PassesCoarse(x) && x.symbol == k
  {
    var pairs := SymbolDollarVolumes(top);
    var items := FromPairs(pairs);
    forall k | k in Keys(items) ensures exists x :: x in coarse && PassesCoarse(x) && x.symbol == k {
      var i :| 0 <= i < |items| && Keys(items)[i] == k;
      assert items[i] in items;
      assert k in KeySet(pairs);
      var p :| p in pairs && p.0 == k;
      var j :| 0 <= j < |pairs| && pairs[j] == p;
      assert top[j] in top;
    }
  }

  /** `item` is the symbol and dollar volume of a security that passes the coarse filter. */
  ghost predicate PassingEntry(coarse: seq<CoarseFundamental>, item: (Symbol, real)) {
    exists x :: x in coarse && PassesCoarse(x) && x.symbol == item.0 && x.dollarVolume == item.1
  }

  /** With distinct coarse symbols (the host gives one entry per security), the symbols come in
      descending dollar volume, each with its own dollar volume, and no security that passes the
      filter but is left out trades more than one that is kept. */
  lemma CoarseSymbolsByDollarVolume(coarse: seq<CoarseFundamental>, items: seq<(Symbol, real)>)
    requires DistinctBy(coarse, (x: CoarseFundamental) => x.symbol)
    requires items == DollarVolumeBySymbol(coarse)
    ensures forall i, j :: 0 <= i < j < |items| ==> items[i].1 >= items[j].1
    ensures forall i :: 0 <= i < |items| ==> PassingEntry(coarse, items[i])
    ensures forall x, i :: x in coarse && PassesCoarse(x) && x.symbol !in Keys(items) && 0 <= i < |items| ==>
      items[i].1 >= x.dollarVolume
  {
    CoarseItemsAreTop(coarse);
    CoarseTopIsBest(coarse);
    PairsOfTop(CoarseTop(coarse), coarse, items);
  }

  /** The pairs of a top sorted by dollar volume, whose members pass and beat every passing
      security left out. */
  lemma PairsOfTop(top: seq<CoarseFundamental>, coarse: seq<CoarseFundamental>, pairs: seq<(Symbol, real)>)
    requires forall x :: x in top ==> x in coarse && PassesCoarse(x)
    requires SortedBy(top, DollarVolume, true)
    requires forall a, b :: a in top && b in coarse && PassesCoarse(b) && b !in top ==> a.dollarVolume >= b.dollarVolume
    requires pairs == SymbolDollarVolumes(top)
    ensures forall i, j :: 0 <= i < j < |pairs| ==> pairs[i].1 >= pairs[j].1
    ensures forall i :: 0 <= i < |pairs| ==> PassingEntry(coarse, pairs[i])
    ensures forall x, i :: x in coarse && PassesCoarse(x) && x.symbol !in Keys(pairs) && 0 <= i < |pairs| ==> pairs[i].1 >= x.dollarVolume
  {
    forall i, j | 0 <= i < j < |pairs| ensures pairs[i].1 >= pairs[j].1 {
      assert InOrder(DollarVolume, true, top[i], top[j]);
    }
    forall i | 0 <= i < |pairs| ensures PassingEntry(coarse, pairs[i]) {
      assert top[i] in top;
    }
    forall x, i | x in coarse && PassesCoarse(x) && x.symbol !in Keys(pairs) && 0 <= i < |pairs|
      ensures pairs[i].1 >= x.dollarVolume
    {
      assert top[i] in top;
    }
  }

  /** With distinct coarse symbols the dict holds the top's pairs exactly, in the top's order. */
  lemma CoarseItemsAreTop(coarse: seq<CoarseFundamental>)
    requires DistinctBy(coarse, (x: CoarseFundamental) => x.symbol)
    ensures DollarVolumeBySymbol(coarse) == SymbolDollarVolumes(CoarseTop(coarse))
  {
    var pairs := SymbolDollarVolumes(CoarseTop(coarse));
    forall i, j | 0 <= i < j < |pairs| ensures pairs[i].0 != pairs[j].0 {
      TopDistinct(coarse, i, j);
    }
    FromDistinctPairs(pairs);
  }

  /** Two securities among the coarse top have different symbols when the coarse symbols do. */
  lemma TopDistinct(coarse: seq<CoarseFundamental>, i: nat, j: nat)
    requires DistinctBy(coarse, (x: CoarseFundamental) => x.symbol)
    requires i < j < |CoarseTop(coarse)|
    ensures CoarseTop(coarse)[i].symbol != CoarseTop(coarse)[j].symbol
  {
    var filtered := Filter(coarse, PassesCoarse);
    FilterKeepsDistinct(coarse, PassesCoarse, (x: CoarseFundamental) => x.symbol);
    SortKeepsDistinct(filtered, DollarVolume, true, (x: CoarseFundamental) => x.symbol);
    var ranked := SortBy(filtered, DollarVolume, true);
    assert CoarseTop(coarse) == Take(ranked, NumberOfSymbolsCoarse);
    assert CoarseTop(coarse)[i] == ranked[i] && CoarseTop(coarse)[j] == ranked[j];
  }

  // ---------------------------------------------------------------- fine selection

  /** The QC500 fine filter, with `today` the algorithm's current day number. */
  predicate PassesFine(x: FineFundamental, today: int) {
    && x.countryId == "USA"
    && (x.primaryExchangeId == "NYS" || x.primaryExchangeId == "NAS")
    && today - x.ipoDay > MinimumDaysListed
    && x.basicAverageShares * x.basicEps * x.peRatio > MinimumMarketCap
  }

  function FineFilter(fine: seq<FineFundamental>, today: int): (filtered: seq<FineFundamental>)
    ensures forall x :: x in filtered <==> x in fine && PassesFine(x, today)
  {
    Filter(fine, (x: FineFundamental) => PassesFine(x, today))
  }

  function InSector(code: string): FineFundamental -> bool {
    (x: FineFundamental) => x.industryTemplateCode == code
  }

  /** `ceil(size * percent)` with `percent = 20 / count`, in exact arithmetic. */
  function Quota(size: nat, count: nat): nat
    requires count > 0
  {
    CeilDiv(size * NumberOfSymbolsFine, count)
  }

  /** ⌈n / d⌉, by repeated subtraction. */
  function CeilDiv(n: int, d: nat): nat
    requires d > 0
    decreases if n > 0 then n else 0
  {
    if n <= 0 then 0 else 1 + CeilDiv(n - d, d)
  }

  /** ⌈n / d⌉ is the least q with q·d ≥ n, and q·d ≤ n + d − 1. */
  lemma {:induction false} CeilDivBounds(n: int, d: nat)
    requires d > 0
    ensures n > 0 ==> CeilDiv(n, d) * d >= n
    ensures n > 0 ==> (CeilDiv(n, d) - 1) * d < n
    ensures CeilDiv(n, d) * d <= (if n > 0 then n else 0) + d - 1
    decreases if n > 0 then n else 0
  {
    if n > 0 {
      CeilDivBounds(n - d, d);
      var q := CeilDiv(n - d, d);
      assert CeilDiv(n, d) * d == q * d + d;
    }
  }

  /** The quota is the ceiling of size·20/count: the least q with q·count ≥ size·20. */
  lemma QuotaIsCeiling(size: nat, count: nat)
    requires count > 0
    ensures Quota(size, count) * count >= size * NumberOfSymbolsFine
    ensures Quota(size, count) == 0 || (Quota(size, count) - 1) * count < size * NumberOfSymbolsFine
    ensures Quota(size, count) * count <= size * NumberOfSymbolsFine + count - 1
  {
    CeilDivBounds(size * NumberOfSymbolsFine, count);
  }

  /** The sort key `dollarVolumeBySymbol[x.Symbol]`, used once every key is known to be present. */
  function DollarVolumeOf(dv: map<Symbol, real>): FineFundamental -> real {
    (x: FineFundamental) => if x.symbol in dv then dv[x.symbol] else 0.0
  }

  function Members(filtered: seq<FineFundamental>, code: string): seq<FineFundamental> {
    Filter(filtered, InSector(code))
  }

  /** `myDict[code]`: the sector's filtered securities sorted by dollar volume, largest first,
      cut at the sector's quota. */
  function SectorTop(filtered: seq<FineFundamental>, code: string, dv: map<Symbol, real>, count: nat)
    : (bucket: seq<FineFundamental>)
    requires count > 0
    ensures |bucket| <= Quota(|Members(filtered, code)|, count)
    ensures |bucket| <= |Members(filtered, code)|
  {
    var members := Members(filtered, code);
    TopBy(members, DollarVolumeOf(dv), true, Quota(|members|, count))
  }

  /** Each bucket holds min(size, quota) securities of its sector that pass the filter, largest
      dollar volume first, and none of the sector left out trades more than one kept. */
  lemma SectorLeaders(filtered: seq<FineFundamental>, code: string, dv: map<Symbol, real>, count: nat)
    requires count > 0
    ensures var bucket := SectorTop(filtered, code, dv, count);
      var size := |Members(filtered, code)|;
      && |bucket| == (if Quota(size, count) < size then Quota(size, count) else size)
      && (forall x :: x in bucket ==> x in filtered && x.industryTemplateCode == code)
      && SortedBy(bucket, DollarVolumeOf(dv), true)
      && (forall a, b :: a in bucket && b in filtered && b.industryTemplateCode == code && b !in bucket ==>
            DollarVolumeOf(dv)(a) >= DollarVolumeOf(dv)(b))
  {
    var members := Members(filtered, code);
    var bucket := SectorTop(filtered, code, dv, count);
    TopByIsBest(members, DollarVolumeOf(dv), true, Quota(|members|, count));
    forall a, b | a in bucket && b in filtered && b.industryTemplateCode == code && b !in bucket
      ensures DollarVolumeOf(dv)(a) >= DollarVolumeOf(dv)(b)
    {
      assert InSector(code)(b);
      assert b in members;
      assert InOrder(DollarVolumeOf(dv), true, a, b);
    }
  }

  function BucketOf(filtered: seq<FineFundamental>, dv: map<Symbol, real>, count: nat): string -> seq<FineFundamental>
    requires count > 0
  {
    code => SectorTop(filtered, code, dv, count)
  }

  /** The values of `myDict` after the loop has run over `codes`, in insertion order. */
  function Buckets(filtered: seq<FineFundamental>, dv: map<Symbol, real>, count: nat, codes: seq<string>)
    : seq<seq<FineFundamental>>
    requires count > 0
  {
    MapSeq(codes, BucketOf(filtered, dv, count))
  }

  function EvToEbitda(x: FineFundamental): real {
    x.evToEbitda
  }

  function Roic(x: FineFundamental): real {
    x.roic
  }

  function SymbolsOf(xs: seq<FineFundamental>): (symbols: seq<Symbol>)
    ensures |symbols| == |xs|
    ensures forall i :: 0 <= i < |xs| ==> symbols[i] == xs[i].symbol
  {
    seq(|xs|, i requires 0 <= i < |xs| => xs[i].symbol)
  }

  /** `topFine`: the sector buckets one after another, cut at 500. */
  function TopFine(filtered: seq<FineFundamental>, dv: map<Symbol, real>): seq<FineFundamental>
    requires filtered != []
  {
    Take(Flatten(Buckets(filtered, dv, |filtered|, SectorCodes)), NumberOfSymbolsCoarse)
  }

  /** `sortedByEVToEBITDA[:20]`. */
  function ByEvToEbitda(filtered: seq<FineFundamental>, dv: map<Symbol, real>): seq<FineFundamental>
    requires filtered != []
  {
    TopBy(TopFine(filtered, dv), EvToEbitda, true, NumberOfSymbolsFine)
  }

  /** `top`: of those 20, the 10 with the lowest ROIC. */
  function Ranking(filtered: seq<FineFundamental>, dv: map<Symbol, real>): seq<FineFundamental>
    requires filtered != []
  {
    TopBy(ByEvToEbitda(filtered, dv), Roic, false, NumberOfSymbolsInPortfolio)
  }

  /** The first symbol, sector by sector in `codes` order and then in list order, whose
      dollar-volume lookup fails. */
  function FirstMissing(filtered: seq<FineFundamental>, codes: seq<string>, dv: map<Symbol, real>): Option<Symbol>
    decreases |codes|
  {
    if codes == [] then None
    else
      match FirstNotIn(Members(filtered, codes[0]), dv)
      case Some(k) => Some(k)
      case None => FirstMissing(filtered, codes[1..], dv)
  }

  function FirstNotIn(xs: seq<FineFundamental>, dv: map<Symbol, real>): Option<Symbol>
    decreases |xs|
  {
    if xs == [] then None
    else if xs[0].symbol !in dv then Some(xs[0].symbol)
    else FirstNotIn(xs[1..], dv)
  }

  /** The lookup fails exactly when a filtered security of one of the listed sectors has no
      dollar volume, and then it fails on such a security's symbol. */
  lemma {:induction false} FirstMissingMeans(filtered: seq<FineFundamental>, codes: seq<string>, dv: map<Symbol, real>)
    ensures FirstMissing(filtered, codes, dv).None? <==>
      forall x :: x in filtered && x.industryTemplateCode in codes ==> x.symbol in dv
    ensures FirstMissing(filtered, codes, dv).Some? ==>
      var k := FirstMissing(filtered, codes, dv).value;
      k !in dv && exists x :: x in filtered && x.industryTemplateCode in codes && x.symbol == k
    decreases |codes|
  {
    if codes != [] {
      var members := Members(filtered, codes[0]);
      FirstNotInMeans(members, dv);
      FirstMissingMeans(filtered, codes[1..], dv);
      forall x | x in filtered && x.industryTemplateCode in codes
        ensures x.industryTemplateCode == codes[0] || x.industryTemplateCode in codes[1..]
      {
      }
    }
  }

  lemma {:induction false} FirstNotInMeans(xs: seq<FineFundamental>, dv: map<Symbol, real>)
    ensures FirstNotIn(xs, dv).None? <==> forall x :: x in xs ==> x.symbol in dv
    ensures FirstNotIn(xs, dv).Some? ==>
      FirstNotIn(xs, dv).value !in dv && exists x :: x in xs && x.symbol == FirstNotIn(xs, dv).value
    decreases |xs|
  {
    if xs != [] {
      FirstNotInMeans(xs[1..], dv);
      assert forall x :: x in xs <==> x == xs[0] || x in xs[1..];
    }
  }

  /** `SelectFine`'s answer: [] when nothing passes the filter, the symbol whose lookup raised
      KeyError, or the symbols of the ranking. */
  function FineSelection(fine: seq<FineFundamental>, today: int, dv: map<Symbol, real>): Result<seq<Symbol>> {
    var filtered := FineFilter(fine, today);
    if filtered == [] then Ok([])
    else
      match FirstMissing(filtered, SectorCodes, dv)
      case Some(k) => MissingKey(k)
      case None => Ok(SymbolsOf(Ranking(filtered, dv)))
  }

  /** What the ranking promises: at most 10 securities, all among the at most 20 with the highest
      EV/EBITDA, in ascending ROIC, and none of those 20 left out has a lower ROIC than one
      chosen. */
  lemma RankingIsMagicFormula(filtered: seq<FineFundamental>, dv: map<Symbol, real>)
    requires filtered != []
    ensures var top := Ranking(filtered, dv);
      var byEv := ByEvToEbitda(filtered, dv);
      && |top| <= NumberOfSymbolsInPortfolio
      && |byEv| <= NumberOfSymbolsFine
      && SortedBy(byEv, EvToEbitda, true)
      && SortedBy(top, Roic, false)
      && (forall x :: x in top ==> x in byEv)
      && (forall a, b :: a in top && b in byEv && b !in top ==> a.roic <= b.roic)
  {
    var byEv := ByEvToEbitda(filtered, dv);
    var top := Ranking(filtered, dv);
    TopByIsBest(byEv, Roic, false, NumberOfSymbolsInPortfolio);
    forall a, b | a in top && b in byEv && b !in top ensures a.roic <= b.roic {
      assert InOrder(Roic, false, a, b);
    }
  }

  /** The 20 by EV/EBITDA are the ones with the highest EV/EBITDA among `topFine`. */
  lemma ByEvToEbitdaIsBest(filtered: seq<FineFundamental>, dv: map<Symbol, real>)
    requires filtered != []
    ensures var byEv := ByEvToEbitda(filtered, dv);
      forall a, b :: a in byEv && b in TopFine(filtered, dv) && b !in byEv ==> a.evToEbitda >= b.evToEbitda
  {
    var byEv := ByEvToEbitda(filtered, dv);
    TopByIsBest(TopFine(filtered, dv), EvToEbitda, true, NumberOfSymbolsFine);
    forall a, b | a in byEv && b in TopFine(filtered, dv) && b !in byEv ensures a.evToEbitda >= b.evToEbitda {
      assert InOrder(EvToEbitda, true, a, b);
    }
  }

  /** Every chosen security passes the fine filter and belongs to one of the six sectors. */
  lemma RankingFromSectors(filtered: seq<FineFundamental>, dv: map<Symbol, real>)
    requires filtered != []
    ensures forall x :: x in Ranking(filtered, dv) ==> x in filtered && x.industryTemplateCode in SectorCodes
  {
    var buckets := Buckets(filtered, dv, |filtered|, SectorCodes);
    var chained := Flatten(buckets);
    var topFine := TopFine(filtered, dv);
    var byEv := ByEvToEbitda(filtered, dv);
    var top := Ranking(filtered, dv);
    TopByIsBest(byEv, Roic, false, NumberOfSymbolsInPortfolio);
    TopByIsBest(topFine, EvToEbitda, true, NumberOfSymbolsFine);
    forall x | x in top ensures x in filtered && x.industryTemplateCode in SectorCodes {
      var j :| 0 <= j < |topFine| && topFine[j] == x;
      assert x in chained;
      var i :| 0 <= i < |buckets| && x in buckets[i];
      BucketMembers(filtered, SectorCodes[i], dv, |filtered|, x);
    }
  }

  lemma BucketMembers(filtered: seq<FineFundamental>, code: string, dv: map<Symbol, real>, count: nat, x: FineFundamental)
    requires count > 0 && x in SectorTop(filtered, code, dv, count)
    ensures x in filtered && x.industryTemplateCode == code
  {
    var members := Members(filtered, code);
    TopByIsBest(members, DollarVolumeOf(dv), true, Quota(|members|, count));
  }

  // ---------------------------------------------------------------- the size of `topFine`

  function InSectors(codes: seq<string>): FineFundamental -> bool {
    (x: FineFundamental) => x.industryTemplateCode in codes
  }

  /** The number of filtered securities of each sector of `codes`, added up. */
  function SectorSizes(filtered: seq<FineFundamental>, codes: seq<string>): nat
    decreases |codes|
  {
    if codes == [] then 0
    else SectorSizes(filtered, codes[..|codes| - 1]) + |Members(filtered, codes[|codes| - 1])|
  }

  /** Distinct sectors do not overlap: their sizes add up to the size of their union. */
  lemma {:induction false} SectorSizesPartition(filtered: seq<FineFundamental>, codes: seq<string>)
    requires forall i, j :: 0 <= i < j < |codes| ==> codes[i] != codes[j]
    ensures SectorSizes(filtered, codes) == |Filter(filtered, InSectors(codes))|
    decreases |codes|
  {
    if codes == [] {
      FilterNone(filtered, InSectors(codes));
    } else {
      var n := |codes| - 1;
      var prefix := codes[..n];
      SectorSizesPartition(filtered, prefix);
      assert codes == prefix + [codes[n]];
      assert codes[n] !in prefix;
      InSectorsSnoc(prefix, codes[n]);
      FilterDisjointUnion(filtered, InSectors(prefix), InSector(codes[n]), InSectors(codes));
    }
  }

  /** One more sector code not yet among `prefix` adds exactly its own sector. */
  lemma InSectorsSnoc(prefix: seq<string>, code: string)
    requires code !in prefix
    ensures forall x :: InSectors(prefix + [code])(x) == (InSectors(prefix)(x) || InSector(code)(x))
    ensures forall x :: !(InSectors(prefix)(x) && InSector(code)(x))
  {
  }

  /** Each bucket holds at most its quota, so the buckets of `codes` hold at most
      20·(their sectors' size)/count plus one per sector, rounded down. */
  lemma {:induction false} BucketTotalBound(filtered: seq<FineFundamental>, dv: map<Symbol, real>, count: nat, codes: seq<string>)
    requires count > 0
    ensures TotalLength(Buckets(filtered, dv, count, codes)) * count <=
      SectorSizes(filtered, codes) * NumberOfSymbolsFine + |codes| * (count - 1)
    decreases |codes|
  {
    if codes != [] {
      var n := |codes| - 1;
      BucketTotalBound(filtered, dv, count, codes[..n]);
      var size := |Members(filtered, codes[n])|;
      var b := |SectorTop(filtered, codes[n], dv, count)|;
      TotalLengthSnoc(filtered, dv, count, codes);
      QuotaIsCeiling(size, count);
      BoundStep(TotalLength(Buckets(filtered, dv, count, codes[..n])), b, TotalLength(Buckets(filtered, dv, count, codes)),
                Quota(size, count), count,
                SectorSizes(filtered, codes[..n]), size, SectorSizes(filtered, codes), |codes|);
    }
  }

  /** The buckets of `codes` hold those of all but the last code, plus the last code's. */
  lemma TotalLengthSnoc(filtered: seq<FineFundamental>, dv: map<Symbol, real>, count: nat, codes: seq<string>)
    requires count > 0 && codes != []
    ensures TotalLength(Buckets(filtered, dv, count, codes)) ==
      TotalLength(Buckets(filtered, dv, count, codes[..|codes| - 1])) + |SectorTop(filtered, codes[|codes| - 1], dv, count)|
  {
    var n := |codes| - 1;
    var buckets := Buckets(filtered, dv, count, codes);
    assert buckets[..n] == Buckets(filtered, dv, count, codes[..n]);
    assert buckets[n] == SectorTop(filtered, codes[n], dv, count);
  }

  lemma BoundStep(t: nat, b: nat, total: nat, q: nat, count: nat, z: nat, size: nat, sizes: nat, k: nat)
    requires k > 0 && count > 0 && b <= q && total == t + b && sizes == z + size
    requires q * count <= size * NumberOfSymbolsFine + count - 1
    requires t * count <= z * NumberOfSymbolsFine + (k - 1) * (count - 1)
    ensures total * count <= sizes * NumberOfSymbolsFine + k * (count - 1)
  {
    MulLeq(b, q, count);
    MulAddRight(t, b, count);
    MulAddRight(z, size, NumberOfSymbolsFine);
    MulAddRight(k - 1, 1, count - 1);
  }

  /** t·count ≤ 20·sizes + k·(count − 1) with sizes ≤ count and k > 0 leaves t below 20 + k. */
  lemma TotalBound(t: nat, count: nat, sizes: nat, k: nat)
    requires count > 0 && k > 0 && sizes <= count
    requires t * count <= sizes * NumberOfSymbolsFine + k * (count - 1)
    ensures t < NumberOfSymbolsFine + k
  {
    MulLeq(sizes, count, NumberOfSymbolsFine);
    MulAddRight(count - 1, 1, k);
    if t >= NumberOfSymbolsFine + k {
      MulLeq(NumberOfSymbolsFine + k, t, count);
      MulAddRight(NumberOfSymbolsFine, k, count);
    }
  }

  lemma MulLeq(a: nat, b: nat, c: nat)
    requires a <= b
    ensures a * c <= b * c
  {
  }

  lemma MulAddRight(a: nat, b: nat, c: nat)
    ensures (a + b) * c == a * c + b * c
  {
  }

  /** The buckets of `k` distinct sectors, with quotas taken against all the filtered
      securities, hold fewer than 20 + k securities: 20 shared out in proportion, plus at most
      one from rounding up in each sector. */
  lemma BucketsBound(filtered: seq<FineFundamental>, dv: map<Symbol, real>, codes: seq<string>)
    requires filtered != [] && codes != []
    requires forall i, j :: 0 <= i < j < |codes| ==> codes[i] != codes[j]
    ensures |Flatten(Buckets(filtered, dv, |filtered|, codes))| < NumberOfSymbolsFine + |codes|
  {
    var count := |filtered|;
    var buckets := Buckets(filtered, dv, count, codes);
    FlattenLength(buckets);
    BucketTotalBound(filtered, dv, count, codes);
    SectorSizesPartition(filtered, codes);
    TotalBound(TotalLength(buckets), count, SectorSizes(filtered, codes), |codes|);
  }

  /** The six buckets together never hold more than 25 securities, so the cut at 500 never
      removes anything. */
  lemma TopFineIsAllBuckets(filtered: seq<FineFundamental>, dv: map<Symbol, real>)
    requires filtered != []
    ensures |Flatten(Buckets(filtered, dv, |filtered|, SectorCodes))| <= 25
    ensures TopFine(filtered, dv) == Flatten(Buckets(filtered, dv, |filtered|, SectorCodes))
  {
    SectorCodesDistinct();
    BucketsBound(filtered, dv, SectorCodes);
  }

  lemma SectorCodesDistinct()
    ensures forall i, j :: 0 <= i < j < |SectorCodes| ==> SectorCodes[i] != SectorCodes[j]
  {
    forall i, j | 0 <= i < j < |SectorCodes| ensures SectorCodes[i] != SectorCodes[j] {
      assert SectorCodes[i][0] != SectorCodes[j][0];
    }
  }

  // ---------------------------------------------------------------- the selection model

  /** The key lookups `sorted` makes, in list order: the first symbol that is not a key. */
  method LookUpAll(xs: seq<FineFundamental>, dv: map<Symbol, real>) returns (missing: Option<Symbol>)
    ensures missing == FirstNotIn(xs, dv)
  {
    var k := 0;
    while k < |xs|
      invariant k <= |xs|
      invariant FirstNotIn(xs, dv) == FirstNotIn(xs[k..], dv)
    {
      if xs[k].symbol !in dv {
        return Some(xs[k].symbol);
      }
      assert xs[k..][1..] == xs[k + 1..];
      k := k + 1;
    }
    return None;
  }

  /** One more step of the lookup loop: it fails on this sector's first missing symbol, or goes
      on with the next sector. */
  lemma FirstMissingStep(filtered: seq<FineFundamental>, codes: seq<string>, dv: map<Symbol, real>, i: nat)
    requires i < |codes|
    ensures FirstMissing(filtered, codes[i..], dv) ==
      match FirstNotIn(Members(filtered, codes[i]), dv)
      case Some(k) => Some(k)
      case None => FirstMissing(filtered, codes[i + 1..], dv)
  {
    assert codes[i..][0] == codes[i] && codes[i..][1..] == codes[i + 1..];
  }

  /** Filling `myDict` one sector at a time builds the buckets of the codes seen so far. */
  lemma BucketsSnoc(filtered: seq<FineFundamental>, dv: map<Symbol, real>, count: nat, codes: seq<string>, i: nat)
    requires count > 0 && i < |codes|
    ensures Buckets(filtered, dv, count, codes[..i + 1]) ==
      Buckets(filtered, dv, count, codes[..i]) + [BucketOf(filtered, dv, count)(codes[i])]
  {
    MapSeqSnoc(codes, BucketOf(filtered, dv, count), i);
  }

  /** The loop that fills `myDict`: for each code in turn, the sector's filtered securities
      sorted by dollar volume and cut at the quota. Sorting looks up every member's dollar volume,
      so the loop stops with KeyError on the first member that has none. */
  method SectorBuckets(filtered: seq<FineFundamental>, dv: map<Symbol, real>, codes: seq<string>)
    returns (myDict: Result<seq<seq<FineFundamental>>>)
    requires filtered != []
    ensures myDict.MissingKey? <==> FirstMissing(filtered, codes, dv).Some?
    ensures myDict.MissingKey? ==> myDict.symbol == FirstMissing(filtered, codes, dv).value
    ensures myDict.Ok? ==> myDict.value == Buckets(filtered, dv, |filtered|, codes)
  {
    var count := |filtered|;
    var values: seq<seq<FineFundamental>> := [];
    for i := 0 to |codes|
      invariant FirstMissing(filtered, codes, dv) == FirstMissing(filtered, codes[i..], dv)
      invariant values == Buckets(filtered, dv, count, codes[..i])
    {
      var value := Members(filtered, codes[i]);
      var missing := LookUpAll(value, dv);
      FirstMissingStep(filtered, codes, dv, i);
      if missing.Some? {
        return MissingKey(missing.value);
      }
      BucketsSnoc(filtered, dv, count, codes, i);
      values := values + [SectorTop(filtered, codes[i], dv, count)];
    }
    assert codes[..|codes|] == codes;
    assert codes[|codes|..] == [];
    return Ok(values);
  }

  /** The body of `SelectFine`: filter, fill `myDict` sector by sector, chain the buckets, cut at
      500, take the 20 with the highest EV/EBITDA and of those the 10 with the lowest ROIC. */
  method RankFine(fine: seq<FineFundamental>, today: int, dv: map<Symbol, real>) returns (result: Result<seq<Symbol>>)
    ensures result == FineSelection(fine, today, dv)
  {
    var filtered := FineFilter(fine, today);
    if |filtered| == 0 {
      return Ok([]);
    }
    var myDict := SectorBuckets(filtered, dv, SectorCodes);
    if myDict.MissingKey? {
      return MissingKey(myDict.symbol);
    }
    var topFine := Take(Flatten(myDict.value), NumberOfSymbolsCoarse);
    var sortedByEvToEbitda := TopBy(topFine, EvToEbitda, true, NumberOfSymbolsFine);
    var top := TopBy(sortedByEvToEbitda, Roic, false, NumberOfSymbolsInPortfolio);
    return Ok(SymbolsOf(top));
  }

  class UniverseSelectionModel {
    var lastMonth: int
    /** `dollarVolumeBySymbol`, as the dict's items in insertion order. */
    var dollarVolumeBySymbol: seq<(Symbol, real)>
    var symbols: seq<Symbol>

    ghost predicate Valid()
      reads this
    {
      DistinctKeys(dollarVolumeBySymbol)
    }

    constructor ()
      ensures Valid()
      ensures lastMonth == -1 && dollarVolumeBySymbol == [] && symbols == []
    {
      lastMonth := -1;
      dollarVolumeBySymbol := [];
      symbols := [];
    }

    /** `SelectCoarse`: at most once a month, the coarse top by dollar volume. */
    method SelectCoarse(coarse: seq<CoarseFundamental>) returns (selected: seq<Symbol>)
      requires Valid()
      modifies this
      ensures Valid()
      // an empty list, or one from the month already handled, changes nothing
      ensures coarse == [] || coarse[0].month == old(lastMonth) ==>
        && selected == symbols == old(symbols)
        && lastMonth == old(lastMonth)
        && dollarVolumeBySymbol == old(dollarVolumeBySymbol)
      // otherwise the month is recorded and the symbols are the keys of the new dollar volumes
      ensures coarse != [] && coarse[0].month != old(lastMonth) ==>
        && lastMonth == coarse[0].month
        && dollarVolumeBySymbol == DollarVolumeBySymbol(coarse)
        && selected == symbols == Keys(dollarVolumeBySymbol)
    {
      if |coarse| == 0 {
        return symbols;
      }
      var month := coarse[0].month;
      if month == lastMonth {
        return symbols;
      }
      lastMonth := month;
      var top := CoarseTop(coarse);
      dollarVolumeBySymbol := FromPairs(SymbolDollarVolumes(top));
      symbols := Keys(dollarVolumeBySymbol);
      return symbols;
    }

    /** `SelectFine` on the day `today`. */
    method SelectFine(fine: seq<FineFundamental>, today: int) returns (result: Result<seq<Symbol>>)
      requires Valid()
      modifies this`symbols
      ensures Valid()
      ensures result == FineSelection(fine, today, ToMap(dollarVolumeBySymbol))
      // `symbols` takes the ranking; an empty filter or a failed lookup leaves it as it was
      ensures if result.Ok? && FineFilter(fine, today) != [] then symbols == result.value else symbols == old(symbols)
    {
      result := RankFine(fine, today, ToMap(dollarVolumeBySymbol));
      if result.Ok? && FineFilter(fine, today) != [] {
        symbols := result.value;
      }
    }
  }
}
