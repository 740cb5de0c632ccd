/** MagicFormulaAlphaModel: for every security the universe selection keeps, a one-period rate
    of change; each time the indicator has taken a new sample and is ready, an Up insight whose
    magnitude is the rate of change. */
module MagicFormulaAlpha {
  import opened Insights
  import opened Sequences
  import opened OrderedDict

  /** What the host's `RateOfChange` indicator reports: how many samples it has taken, whether
      it is ready, and its current value. */
  datatype RocReading = RocReading(samples: nat, ready: bool, value: real)

  /** One entry of `symbolDataBySymbol` as `Update` sees it. */
  datatype SymbolState = SymbolState(symbol: Symbol, roc: RocReading, previous: nat)

  /** `CanEmit`'s answer: the indicator took a sample since the last call and is ready. */
  predicate Emits(s: SymbolState) {
    s.previous != s.roc.samples && s.roc.ready
  }

  /** The state `CanEmit` leaves behind: it remembers the sample count. */
  function Advance(s: SymbolState): (t: SymbolState)
    ensures t.symbol == s.symbol && t.roc == s.roc && t.previous == s.roc.samples
  {
    s.(previous := s.roc.samples)
  }

  /** `CanEmit` fires at most once per sample: right after it has been asked, it answers no
      until the indicator takes another sample, and asking again changes nothing. */
  lemma EmitsOncePerSample(s: SymbolState)
    ensures !Emits(Advance(s))
    ensures Advance(Advance(s)) == Advance(s)
    ensures Emits(s) <==> s.roc.ready && Advance(s) != s
  {
  }

  /** The insights `Update` emits for the entries `states`, in dictionary order. */
  function Emissions(states: seq<SymbolState>, interval: Minutes): (insights: seq<Insight>)
    ensures |insights| <= |states|
  {
    if states == [] then []
    else
      var n := |states| - 1;
      var s := states[n];
      Emissions(states[..n], interval) +
        (if Emits(s) then [Insight(s.symbol, interval, Up, Some(s.roc.value))] else [])
  }

  /** One more entry adds its insight, if it emits, at the end. */
  lemma EmissionsStep(states: seq<SymbolState>, interval: Minutes, i: nat)
    requires i < |states|
    ensures Emissions(states[..i + 1], interval) == Emissions(states[..i], interval) +
      (if Emits(states[i]) then [Insight(states[i].symbol, interval, Up, Some(states[i].roc.value))] else [])
  {
    assert states[..i + 1][..i] == states[..i];
  }

  /** Every insight is Up over the prediction interval with the rate of change as magnitude, for
      an entry that may emit; and every entry that may emit gets one. */
  lemma {:induction false} EmissionsMeaning(states: seq<SymbolState>, interval: Minutes)
    ensures forall x :: x in Emissions(states, interval) ==>
      x.direction == Up && x.period == interval &&
      exists s :: s in states && Emits(s) && x.symbol == s.symbol && x.magnitude == Some(s.roc.value)
    ensures forall s :: s in states && Emits(s) ==>
      Insight(s.symbol, interval, Up, Some(s.roc.value)) in Emissions(states, interval)
  {
    if states != [] {
      var n := |states| - 1;
      EmissionsMeaning(states[..n], interval);
      assert states == states[..n] + [states[n]];
      forall s | s in states
        ensures s == states[n] || s in states[..n]
      {
      }
    }
  }

  /** A second `Update` with no new samples in between emits nothing. */
  lemma {:induction false} SecondUpdateEmitsNothing(states: seq<SymbolState>, interval: Minutes)
    ensures Emissions(MapSeq(states, Advance), interval) == []
  {
    if states != [] {
      var n := |states| - 1;
      SecondUpdateEmitsNothing(states[..n], interval);
      assert MapSeq(states, Advance)[..n] == MapSeq(states[..n], Advance);
      assert !Emits(Advance(states[n]));
    }
  }

  /** Appends the symbols of `tickers` that are not keys yet, in order, each once. */
  function AddNew(keys: seq<Symbol>, tickers: seq<Symbol>): (r: seq<Symbol>)
    ensures forall k :: k in r <==> k in keys || k in tickers
  {
    if tickers == [] then keys
    else
      var n := |tickers| - 1;
      var prev := AddNew(keys, tickers[..n]);
      assert tickers == tickers[..n] + [tickers[n]];
      if tickers[n] in prev then prev else prev + [tickers[n]]
  }

  /** Adding keeps the keys in place and keeps them distinct. */
  lemma {:induction false} AddNewKeepsDistinct(keys: seq<Symbol>, tickers: seq<Symbol>)
    requires forall i, j :: 0 <= i < j < |keys| ==> keys[i] != keys[j]
    ensures var r := AddNew(keys, tickers);
      && |keys| <= |r| && r[..|keys|] == keys
      && forall i, j :: 0 <= i < j < |r| ==> r[i] != r[j]
  {
    if tickers != [] {
      AddNewKeepsDistinct(keys, tickers[..|tickers| - 1]);
    }
  }

  /** One more ticker is appended unless it is already a key. */
  lemma AddNewStep(keys: seq<Symbol>, tickers: seq<Symbol>, i: nat)
    requires i < |tickers|
    ensures AddNew(keys, tickers[..i + 1]) ==
      if tickers[i] in AddNew(keys, tickers[..i]) then AddNew(keys, tickers[..i])
      else AddNew(keys, tickers[..i]) + [tickers[i]]
  {
    assert tickers[..i + 1][..i] == tickers[..i];
  }

  /** `reading` is the reading of the first of the first `n` rows of `history` for `ticker`. */
  ghost predicate FirstRowBefore(history: seq<(Symbol, RocReading)>, n: nat, ticker: Symbol, reading: RocReading)
    requires n <= |history|
  {
    exists j :: 0 <= j < n && history[j] == (ticker, reading) &&
      forall i :: 0 <= i < j ==> history[i].0 != ticker
  }

  /** A first row among the first `n` rows is still the first among the first `n + 1`. */
  lemma FirstRowBeforeGrows(history: seq<(Symbol, RocReading)>, n: nat, ticker: Symbol, reading: RocReading)
    requires n < |history| && FirstRowBefore(history, n, ticker, reading)
    ensures FirstRowBefore(history, n + 1, ticker, reading)
  {
  }

  /** Row `n` is its ticker's first row when no earlier row has that ticker. */
  lemma FirstRowBeforeNew(history: seq<(Symbol, RocReading)>, n: nat)
    requires n < |history|
    requires forall j :: 0 <= j < n ==> history[j].0 != history[n].0
    ensures FirstRowBefore(history, n + 1, history[n].0, history[n].1)
  {
  }

  /** First rows among the first `n` rows stay first among the first `n + 1`. */
  lemma ReadingsGrow(history: seq<(Symbol, RocReading)>, n: nat, readings: map<Symbol, RocReading>)
    requires n < |history|
    requires forall k :: k in readings ==> FirstRowBefore(history, n, k, readings[k])
    ensures forall k :: k in readings ==> FirstRowBefore(history, n + 1, k, readings[k])
  {
    forall k | k in readings ensures FirstRowBefore(history, n + 1, k, readings[k]) {
      FirstRowBeforeGrows(history, n, k, readings[k]);
    }
  }

  /** `reading` is the reading of the first row of `history` for `ticker`. */
  ghost predicate FirstRow(history: seq<(Symbol, RocReading)>, ticker: Symbol, reading: RocReading) {
    FirstRowBefore(history, |history|, ticker, reading)
  }

  /** Not one of the removed securities. */
  function Kept(removed: seq<Symbol>): Symbol -> bool {
    k => k !in removed
  }

  /** Not the symbol `r`. */
  function Other(r: Symbol): Symbol -> bool {
    k => k != r
  }

  /** Removing one more symbol is filtering once more. */
  lemma KeptGrows(keys: seq<Symbol>, removed: seq<Symbol>, i: nat)
    requires i < |removed|
    ensures Filter(Filter(keys, Kept(removed[..i])), Other(removed[i])) == Filter(keys, Kept(removed[..i + 1]))
  {
    assert removed[..i + 1] == removed[..i] + [removed[i]];
    FilterTwice(keys, Kept(removed[..i]), Other(removed[i]), Kept(removed[..i + 1]));
  }

  /** A security's data: its rate-of-change reading and the sample count `CanEmit` saw last. */
  class SymbolData {
    const symbol: Symbol
    var roc: RocReading
    var previous: nat

    /** A new entry, its indicator warmed up on the history to `roc`. */
    constructor (symbol: Symbol, roc: RocReading)
      ensures this.symbol == symbol && this.roc == roc && previous == 0
    {
      this.symbol := symbol;
      this.roc := roc;
      previous := 0;
    }

    function State(): SymbolState
      reads this
    {
      SymbolState(symbol, roc, previous)
    }

    /** `Return`. */
    function Return(): (r: real)
      reads this
      ensures r == roc.value
    {
      roc.value
    }

    /** `CanEmit`: no when the sample count has not moved since the last call; otherwise it
        remembers the count and answers whether the indicator is ready. */
    method CanEmit() returns (emit: bool)
      modifies this`previous
      ensures emit == Emits(old(State()))
      ensures State() == Advance(old(State()))
    {
      if previous == roc.samples {
        return false;
      }
      previous := roc.samples;
      return roc.ready;
    }
  }

  /** The states of the entries `keys` of `data`, in that order. */
  ghost function StatesOf(keys: seq<Symbol>, data: map<Symbol, SymbolData>): (r: seq<SymbolState>)
    reads data.Values
    requires forall k :: k in keys ==> k in data
    ensures |r| == |keys|
    ensures forall i :: 0 <= i < |keys| ==> r[i] == data[keys[i]].State()
  {
    if keys == [] then []
    else
      var n := |keys| - 1;
      StatesOf(keys[..n], data) + [data[keys[n]].State()]
  }

  /** The states of `entries`, in order. */
  ghost function StatesOfEntries(entries: seq<SymbolData>): (r: seq<SymbolState>)
    reads entries
    ensures |r| == |entries|
    ensures forall i :: 0 <= i < |entries| ==> r[i] == entries[i].State()
  {
    seq(|entries|, i requires 0 <= i < |entries| reads entries => entries[i].State())
  }

  /** The loop of `Update` over the dictionary's values: asks each entry whether it can emit and
      emits an Up insight over `interval` with the entry's rate of change for each that can. */
  method AskAll(entries: seq<SymbolData>, interval: Minutes) returns (insights: seq<Insight>)
    requires forall i, j :: 0 <= i < j < |entries| ==> entries[i] != entries[j]
    modifies set e | e in entries
    ensures insights == Emissions(old(StatesOfEntries(entries)), interval)
    ensures StatesOfEntries(entries) == MapSeq(old(StatesOfEntries(entries)), Advance)
  {
    ghost var before := StatesOfEntries(entries);
    insights := [];
    for i := 0 to |entries|
      invariant forall j :: 0 <= j < i ==> entries[j].State() == Advance(before[j])
      invariant forall j :: i <= j < |entries| ==> entries[j].State() == before[j]
      invariant insights == Emissions(before[..i], interval)
    {
      insights := AskOne(entries, interval, before, i, insights);
    }
    assert before[..|entries|] == before;
    AllAdvanced(entries, before);
  }

  /** Entries that have each advanced from `before` list the advanced states. */
  lemma AllAdvanced(entries: seq<SymbolData>, before: seq<SymbolState>)
    requires |entries| == |before|
    requires forall j :: 0 <= j < |entries| ==> entries[j].State() == Advance(before[j])
    ensures StatesOfEntries(entries) == MapSeq(before, Advance)
  {
    Extensionality(StatesOfEntries(entries), MapSeq(before, Advance));
  }

  /** The body of that loop for entry `i`: that entry advances and the others keep their
      state. */
  method AskOne(entries: seq<SymbolData>, interval: Minutes, ghost before: seq<SymbolState>, i: nat,
                insights: seq<Insight>) returns (insights': seq<Insight>)
    requires forall i, j :: 0 <= i < j < |entries| ==> entries[i] != entries[j]
    requires i < |entries| == |before|
    requires forall j :: 0 <= j < i ==> entries[j].State() == Advance(before[j])
    requires forall j :: i <= j < |entries| ==> entries[j].State() == before[j]
    requires insights == Emissions(before[..i], interval)
    modifies entries[i]
    ensures forall j :: 0 <= j < i + 1 ==> entries[j].State() == Advance(before[j])
    ensures forall j :: i + 1 <= j < |entries| ==> entries[j].State() == before[j]
    ensures insights' == Emissions(before[..i + 1], interval)
  {
    var emit := entries[i].CanEmit();
    EmissionsStep(before, interval, i);
    insights' := insights;
    if emit {
      insights' := insights + [Insight(entries[i].symbol, interval, Up, Some(entries[i].Return()))];
    }
  }

  /** The entry objects listed in key order have the states `StatesOf` lists. */
  lemma EntriesInKeyOrder(keys: seq<Symbol>, data: map<Symbol, SymbolData>, entries: seq<SymbolData>)
    requires forall k :: k in keys ==> k in data
    requires |entries| == |keys| && forall i :: 0 <= i < |keys| ==> entries[i] == data[keys[i]]
    ensures StatesOfEntries(entries) == StatesOf(keys, data)
  {
    Extensionality(StatesOfEntries(entries), StatesOf(keys, data));
  }

  /** Distinct keys hold distinct objects. */
  lemma DistinctEntries(keys: seq<Symbol>, data: map<Symbol, SymbolData>, entries: seq<SymbolData>)
    requires ValidEntries(keys, data)
    requires |entries| == |keys| && forall i :: 0 <= i < |keys| ==> entries[i] == data[keys[i]]
    ensures forall i, j :: 0 <= i < j < |entries| ==> entries[i] != entries[j]
  {
    forall i, j | 0 <= i < j < |entries| ensures entries[i] != entries[j] {
      assert entries[i].symbol == keys[i] && entries[j].symbol == keys[j];
    }
  }

  /** The dictionary's invariant: the key list holds each key once, the same keys as the map, and
      each entry is filed under its own symbol (so distinct keys hold distinct objects). */
  ghost predicate ValidEntries(keys: seq<Symbol>, data: map<Symbol, SymbolData>) {
    && (forall i, j :: 0 <= i < j < |keys| ==> keys[i] != keys[j])
    && (forall k :: k in keys <==> k in data)
    && (forall k :: k in data ==> data[k].symbol == k)
  }

  /** `pop` of a present key keeps the invariant. */
  lemma PopEntry(keys: seq<Symbol>, data: map<Symbol, SymbolData>, r: Symbol)
    requires ValidEntries(keys, data)
    ensures ValidEntries(Filter(keys, Other(r)), data - {r})
  {
    FilterKeepsDistinct(keys, Other(r), (k: Symbol) => k);
    var f := Filter(keys, Other(r));
    assert forall i, j :: 0 <= i < j < |f| ==> f[i] != f[j] by {
      assert DistinctBy(f, (k: Symbol) => k);
    }
  }

  /** `pop` of a missing key changes nothing. */
  lemma PopMissing(keys: seq<Symbol>, data: map<Symbol, SymbolData>, r: Symbol)
    requires ValidEntries(keys, data) && r !in data
    ensures Filter(keys, Other(r)) == keys
  {
    FilterKeepsAll(keys, Other(r));
  }

  /** The loop over `changes.RemovedSecurities`: `pop(symbol, None)` on each. */
  method PopAll(keys: seq<Symbol>, data: map<Symbol, SymbolData>, removed: seq<Symbol>)
    returns (ks: seq<Symbol>, d: map<Symbol, SymbolData>)
    requires ValidEntries(keys, data)
    ensures ValidEntries(ks, d)
    ensures ks == Filter(keys, Kept(removed))
    ensures forall k :: k in d <==> k in data && k !in removed
    ensures forall k :: k in d ==> d[k] == data[k]
  {
    ks, d := keys, data;
    FilterKeepsAll(ks, Kept([]));
    for i := 0 to |removed|
      invariant ValidEntries(ks, d)
      invariant ks == Filter(keys, Kept(removed[..i]))
      invariant forall k :: k in d <==> k in data && k !in removed[..i]
      invariant forall k :: k in d ==> d[k] == data[k]
    {
      var r := removed[i];
      KeptGrows(keys, removed, i);
      if r in d {
        PopEntry(ks, d, r);
        ks := Filter(ks, Other(r));
        d := d - {r};
      } else {
        PopMissing(ks, d, r);
      }
    }
    assert removed[..|removed|] == removed;
  }

  /** What the loop over the history's tickers keeps after its first `i` tickers: the entries
      are those of `data` plus one for each new ticker, and `readings` holds each new ticker's
      first reading. */
  ghost predicate AddedSoFar(keys: seq<Symbol>, data: map<Symbol, SymbolData>, history: seq<(Symbol, RocReading)>,
                             i: nat, ks: seq<Symbol>, d: map<Symbol, SymbolData>, readings: map<Symbol, RocReading>)
    requires i <= |history|
  {
    && ValidEntries(ks, d)
    && ks == AddNew(keys, Keys(history)[..i])
    && (forall j :: 0 <= j < i ==> history[j].0 in d)
    && (forall k :: k in data ==> k in d && d[k] == data[k])
    && (forall k :: k in d && k !in data ==> k in readings)
    && (forall k :: k in readings ==> FirstRowBefore(history, i, k, readings[k]))
  }

  /** The loop over the history's tickers: a new entry for each ticker that has none, warmed up to
      the reading of the ticker's first row. */
  method AddAll(keys: seq<Symbol>, data: map<Symbol, SymbolData>, history: seq<(Symbol, RocReading)>)
    returns (ks: seq<Symbol>, d: map<Symbol, SymbolData>)
    requires ValidEntries(keys, data)
    ensures ValidEntries(ks, d)
    ensures ks == AddNew(keys, Keys(history))
    ensures forall k :: k in data ==> k in d && d[k] == data[k]
    ensures forall k :: k in d && k !in data ==>
      fresh(d[k]) && d[k].previous == 0 && FirstRow(history, k, d[k].roc)
  {
    ks, d := keys, data;
    ghost var readings: map<Symbol, RocReading> := map[];
    for i := 0 to |history|
      invariant AddedSoFar(keys, data, history, i, ks, d, readings)
      invariant forall k :: k in d && k !in data ==>
        fresh(d[k]) && d[k].previous == 0 && d[k].roc == readings[k]
    {
      ks, d, readings := AddTicker(keys, data, history, i, ks, d, readings);
    }
    assert Keys(history)[..|history|] == Keys(history);
  }

  /** The body of that loop for the ticker of row `i`. */
  method AddTicker(keys: seq<Symbol>, data: map<Symbol, SymbolData>, history: seq<(Symbol, RocReading)>, i: nat,
                   ks: seq<Symbol>, d: map<Symbol, SymbolData>, ghost readings: map<Symbol, RocReading>)
    returns (ks': seq<Symbol>, d': map<Symbol, SymbolData>, ghost readings': map<Symbol, RocReading>)
    requires i < |history| && AddedSoFar(keys, data, history, i, ks, d, readings)
    ensures AddedSoFar(keys, data, history, i + 1, ks', d', readings')
    ensures forall k :: k in d ==> k in d' && d'[k] == d[k] && (k !in data ==> readings'[k] == readings[k])
    ensures forall k :: k in d' && k !in d ==>
      fresh(d'[k]) && d'[k].previous == 0 && d'[k].roc == readings'[k]
  {
    var (ticker, reading) := history[i];
    assert Keys(history)[i] == ticker;
    AddNewStep(keys, Keys(history), i);
    ReadingsGrow(history, i, readings);
    ks', d', readings' := ks, d, readings;
    if ticker !in d {
      FirstRowBeforeNew(history, i);
      var symbolData := new SymbolData(ticker, reading);
      ks' := ks + [ticker];
      d' := d[ticker := symbolData];
      readings' := readings[ticker := reading];
    }
  }

  class MagicFormulaAlphaModel {
    const lookback: nat
    const predictionInterval: Minutes
    /** The keys of `symbolDataBySymbol`, in insertion order. */
    var keys: seq<Symbol>
    var symbolDataBySymbol: map<Symbol, SymbolData>

    ghost predicate Valid()
      reads this
    {
      ValidEntries(keys, symbolDataBySymbol)
    }

    ghost function States(): seq<SymbolState>
      reads this, symbolDataBySymbol.Values
      requires Valid()
    {
      StatesOf(keys, symbolDataBySymbol)
    }

    /** A daily model predicting over `lookback` days. */
    constructor (lookback: nat)
      ensures Valid()
      ensures this.lookback == lookback && predictionInterval == OneDay * lookback
      ensures keys == [] && symbolDataBySymbol == map[]
    {
      this.lookback := lookback;
      predictionInterval := OneDay * lookback;
      keys := [];
      symbolDataBySymbol := map[];
    }

    /** `Update`: asks every entry, in dictionary order, whether it can emit. */
    method Update() returns (insights: seq<Insight>)
      requires Valid()
      modifies symbolDataBySymbol.Values
      ensures Valid()
      ensures insights == Emissions(old(States()), predictionInterval)
      ensures States() == MapSeq(old(States()), Advance)
    {
      ghost var before := States();
      var ks, data := keys, symbolDataBySymbol;
      var entries := seq(|ks|, j requires 0 <= j < |ks| && ks[j] in data => data[ks[j]]);
      DistinctEntries(ks, data, entries);
      EntriesInKeyOrder(ks, data, entries);
      insights := AskAll(entries, predictionInterval);
      EntriesInKeyOrder(ks, data, entries);
    }

    /** `OnSecuritiesChanged`: drops the entries of the removed securities; then, unless the
        history came back empty, adds an entry for every ticker in it that has none, warmed up
        to the ticker's reading. */
    method OnSecuritiesChanged(removed: seq<Symbol>, history: seq<(Symbol, RocReading)>)
      requires Valid()
      modifies this`keys, this`symbolDataBySymbol
      ensures Valid()
      ensures keys == AddNew(Filter(old(keys), Kept(removed)), Keys(history))
      // a kept entry is the same object as before
      ensures forall k :: k in old(symbolDataBySymbol) && k !in removed ==>
        k in symbolDataBySymbol && symbolDataBySymbol[k] == old(symbolDataBySymbol[k])
      // every other entry is new, with nothing emitted yet, warmed up to the reading of the first
      // history row of its ticker
      ensures forall k :: k in symbolDataBySymbol && !(k in old(symbolDataBySymbol) && k !in removed) ==>
        && fresh(symbolDataBySymbol[k])
        && symbolDataBySymbol[k].previous == 0
        && FirstRow(history, k, symbolDataBySymbol[k].roc)
    {
      keys, symbolDataBySymbol := PopAll(keys, symbolDataBySymbol, removed);
      if |history| == 0 {
        return;
      }
      keys, symbolDataBySymbol := AddAll(keys, symbolDataBySymbol, history);
    }
  }
}
