/**
 * The screening data model shared by every screener: raw and normalised quotes,
 * the collaborators the screeners call (quote source, indicator library, pattern
 * detector, query builder, filters), the full/partial/none match rule and the
 * stages more than one screener runs.
 */
module Screening {
  import opened Wrappers
  import opened Markets
  import opened Seqs

  // ----- Records -----

  /** A quote as the provider's screener returns it, under the provider's field names. */
  datatype RawQuote = RawQuote(
    symbol: Option<string>, shortName: Option<string>, longName: Option<string>,
    sector: Option<string>, industry: Option<string>, currency: Option<string>,
    exchange: Option<string>,
    regularMarketPrice: Option<real>, marketCap: Option<real>,
    trailingPE: Option<real>, forwardPE: Option<real>, priceToBook: Option<real>,
    returnOnEquity: Option<real>, dividendYield: Option<real>,
    trailingAnnualDividendYield: Option<real>,
    revenueGrowth: Option<real>, earningsGrowth: Option<real>)

  /**
   * A quote under the project's own field names. Normalised screener quotes and the
   * records `get_stock_info` returns share this shape.
   */
  datatype Quote = Quote(
    symbol: Option<string>, name: Option<string>,
    sector: Option<string>, industry: Option<string>, currency: Option<string>,
    price: Option<real>, marketCap: Option<real>,
    per: Option<real>, forwardPer: Option<real>, pbr: Option<real>, roe: Option<real>,
    dividendYield: Option<real>, dividendYieldTrailing: Option<real>,
    revenueGrowth: Option<real>, earningsGrowth: Option<real>,
    exchange: Option<string>)

  /** Python's `stock.get("symbol")` read as a string: absent and `None` both give "". */
  function Sym(q: Quote): string {
    q.symbol.GetOr("")
  }

  /** Filter criteria, e.g. `{"max_per": 20, "min_roe": 0.08}`. */
  type Criteria = map<string, real>

  /** Per-symbol detail; the fields the screeners read directly plus the rest. */
  datatype Detail = Detail(epsGrowth: Option<real>, revenueGrowth: Option<real>, figures: map<string, real>)

  /** One observation of a price history. */
  datatype Bar = Bar(close: real, volume: real)

  /** What the pullback-in-uptrend detector reports for one price history. */
  datatype Assessment = Assessment(
    uptrend: bool, isPullback: bool, allConditions: bool, bounceScore: Option<real>,
    pullbackPct: Option<real>, rsi: Option<real>, volumeRatio: Option<real>,
    sma50: Option<real>, sma200: Option<real>)
  {
    /** `tech_result.get("bounce_score", 0)`. */
    function Bounce(): real {
      bounceScore.GetOr(0.0)
    }
  }

  /** One sub-score of the change-quality check: its points and its raw measure. */
  datatype Component = Component(score: real, raw: Option<real>)

  /** What the change-quality check reports for one detail record. */
  datatype ChangeResult = ChangeResult(
    changeScore: real, accruals: Component, revenueAcceleration: Component,
    fcfYield: Component, roeTrend: Component, qualityPass: bool, passedCount: int)

  /** Shareholder-return figures and their stability assessment for one detail record. */
  datatype ReturnProfile = ReturnProfile(
    totalReturn: Option<real>, buybackYield: Option<real>,
    stability: Option<string>, stabilityLabel: Option<string>,
    avgRate: Option<real>, stabilityReason: Option<string>)

  /** One ticker surfaced by the trending-topics source; missing keys read as "". */
  datatype TrendingItem = TrendingItem(ticker: string, name: string, reason: string)

  /** The trending-topics source's answer: tickers plus a market commentary. */
  datatype TrendingFeed = TrendingFeed(stocks: seq<TrendingItem>, marketContext: string)

  /** The arguments of `build_query`; the provider filter is a function of these. */
  datatype QuerySpec = QuerySpec(criteria: Criteria, region: string, exchange: Option<string>, sector: Option<string>)

  /** The arguments of one `screen_stocks` call. */
  datatype FetchRequest = FetchRequest(query: QuerySpec, size: int, maxResults: int, sortField: string, sortAsc: bool)

  /** Every call a screener makes outside its own file. */
  datatype Collaborators = Collaborators(
    screenStocks: FetchRequest -> seq<RawQuote>,
    stockDetail: string -> Option<Detail>,
    priceHistory: string -> Attempt<Option<seq<Bar>>>,
    stockInfo: string -> Option<Quote>,
    searchTrending: (string, Option<string>) -> TrendingFeed,
    valueScore: (Quote, Option<Thresholds>) -> real,
    changeScore: Detail -> ChangeResult,
    detectPullback: seq<Bar> -> Attempt<Option<Assessment>>,
    returnProfile: Detail -> ReturnProfile,
    applyFilters: (Quote, Option<ReturnProfile>, Criteria) -> bool,
    loadPreset: string -> Result<Criteria, string>)

  /** Why a screening call did not return a list. */
  datatype ScreenError =
    | PresetError(preset: string, message: string)
    | HistoryRaised(symbol: string)

  // ----- Quote normalisation -----

  /** The value ranges a normalised quote's sanitised fields are kept within. */
  predicate Plausible(q: Quote) {
    && (q.per.Some? ==> !(0.0 < q.per.value < 1.0))
    && (q.pbr.Some? ==> q.pbr.value >= 0.05)
    && (q.dividendYield.Some? ==> q.dividendYield.value <= 0.15)
    && (q.dividendYieldTrailing.Some? ==> q.dividendYieldTrailing.value <= 0.15)
    && (q.roe.Some? ==> -1.0 <= q.roe.value <= 2.0)
  }

  /** The provider's dividend yield is a percentage: always divided by 100, then capped. */
  function NormDividendYield(raw: Option<real>): (r: Option<real>)
    ensures r.Some? <==> raw.Some? && raw.value <= 15.0
    ensures r.Some? ==> r.value * 100.0 == raw.value && r.value <= 0.15
  {
    match raw
    case None => None
    case Some(v) => var d := v / 100.0; if d > 0.15 then None else Some(d)
  }

  /** ROE above 1 is read as a percentage; the scaled value must lie in [-1, 2]. */
  function NormRoe(raw: Option<real>): (r: Option<real>)
    ensures r.Some? <==> raw.Some? && -1.0 <= raw.value <= 200.0
    ensures r.Some? && raw.value <= 1.0 ==> r.value == raw.value
    ensures r.Some? && raw.value > 1.0 ==> r.value * 100.0 == raw.value
    ensures r.Some? ==> -1.0 <= r.value <= 2.0
  {
    match raw
    case None => None
    case Some(v) =>
      var s := if v > 1.0 then v / 100.0 else v;
      if s < -1.0 || s > 2.0 then None else Some(s)
  }

  /** Revenue growth beyond +-5 is read as a percentage; it is never dropped. */
  function NormRevenueGrowth(raw: Option<real>): (r: Option<real>)
    ensures r.Some? <==> raw.Some?
    ensures r.Some? && -5.0 <= raw.value <= 5.0 ==> r.value == raw.value
    ensures r.Some? && !(-5.0 <= raw.value <= 5.0) ==> r.value * 100.0 == raw.value
  {
    match raw
    case None => None
    case Some(v) => if (if v < 0.0 then -v else v) > 5.0 then Some(v / 100.0) else Some(v)
  }

  /** A P/E strictly between 0 and 1 is a data glitch; everything else passes unchanged. */
  function NormPer(raw: Option<real>): (r: Option<real>)
    ensures r.Some? <==> raw.Some? && !(0.0 < raw.value < 1.0)
    ensures r.Some? ==> r == raw
  {
    if raw.Some? && 0.0 < raw.value < 1.0 then None else raw
  }

  /** A P/B below 0.05 is dropped. */
  function NormPbr(raw: Option<real>): (r: Option<real>)
    ensures r.Some? <==> raw.Some? && raw.value >= 0.05
    ensures r.Some? ==> r == raw
  {
    if raw.Some? && raw.value < 0.05 then None else raw
  }

  /** The trailing dividend yield is already a ratio; above 15% it is dropped. */
  function NormTrailingYield(raw: Option<real>): (r: Option<real>)
    ensures r.Some? <==> raw.Some? && raw.value <= 0.15
    ensures r.Some? ==> r == raw
  {
    if raw.Some? && raw.value > 0.15 then None else raw
  }

  /** Python's `a or b` on optional strings: `a` unless it is absent or empty. */
  function OrElse(a: Option<string>, b: Option<string>): (r: Option<string>)
    ensures a.Some? && a.value != "" ==> r == a
    ensures !(a.Some? && a.value != "") ==> r == b
  {
    if a.Some? && a.value != "" then a else b
  }

  /** `QueryScreener._normalize_quote`: renames, rescales and sanitises one raw quote. */
  function Normalize(raw: RawQuote): (q: Quote)
    ensures Plausible(q)
    ensures Sym(q) == raw.symbol.GetOr("")
    ensures q.name == OrElse(raw.shortName, raw.longName)
    ensures q.per == NormPer(raw.trailingPE) && q.pbr == NormPbr(raw.priceToBook)
    ensures q.roe == NormRoe(raw.returnOnEquity)
    ensures q.dividendYield == NormDividendYield(raw.dividendYield)
    ensures q.dividendYieldTrailing == NormTrailingYield(raw.trailingAnnualDividendYield)
    ensures q.revenueGrowth == NormRevenueGrowth(raw.revenueGrowth)
    ensures q.price == raw.regularMarketPrice && q.marketCap == raw.marketCap
    ensures q.forwardPer == raw.forwardPE && q.earningsGrowth == raw.earningsGrowth
    ensures q.sector == raw.sector && q.industry == raw.industry
    ensures q.currency == raw.currency && q.exchange == raw.exchange
  {
    Quote(
      symbol := Some(raw.symbol.GetOr("")),
      name := OrElse(raw.shortName, raw.longName),
      sector := raw.sector, industry := raw.industry, currency := raw.currency,
      price := raw.regularMarketPrice, marketCap := raw.marketCap,
      per := NormPer(raw.trailingPE), forwardPer := raw.forwardPE,
      pbr := NormPbr(raw.priceToBook), roe := NormRoe(raw.returnOnEquity),
      dividendYield := NormDividendYield(raw.dividendYield),
      dividendYieldTrailing := NormTrailingYield(raw.trailingAnnualDividendYield),
      revenueGrowth := NormRevenueGrowth(raw.revenueGrowth),
      earningsGrowth := raw.earningsGrowth,
      exchange := raw.exchange)
  }

  // ----- Criteria and fetch sizes -----

  /** Explicit criteria win over a preset; with neither, the criteria are empty. */
  function ResolveCriteria(criteria: Option<Criteria>, preset: Option<string>,
                           load: string -> Result<Criteria, string>): (r: Result<Criteria, ScreenError>)
    ensures criteria.Some? ==> r == Success(criteria.value)
    ensures criteria.None? && preset.None? ==> r == Success(map[])
    ensures criteria.None? && preset.Some? ==>
      (r.Success? <==> load(preset.value).Success?)
      && (r.Success? ==> r.value == load(preset.value).value)
  {
    if criteria.Some? then Success(criteria.value)
    else if preset.Some? then LoadPreset(load, preset.value)
    else Success(map[])
  }

  /** `load_preset(name)`, its configuration error surfaced as a `ScreenError`. */
  function LoadPreset(load: string -> Result<Criteria, string>, name: string): (r: Result<Criteria, ScreenError>)
    ensures r.Success? <==> load(name).Success?
    ensures r.Success? ==> r.value == load(name).value
    ensures r.Failure? ==> r.error == PresetError(name, load(name).error)
  {
    match load(name)
    case Success(criteria) => Success(criteria)
    case Failure(message) => Failure(PresetError(name, message))
  }

  /** `max(top_n * 5, 250)`: the over-fetch used ahead of a per-symbol technical pass. */
  function WideFetch(topN: int): (n: int)
    ensures n >= 5 * topN && n >= 250
    ensures n == 5 * topN || n == 250
  {
    if topN * 5 > 250 then topN * 5 else 250
  }

  /**
   * The provider query of the pullback and alpha screeners: criteria and region
   * only, largest market caps first, over-fetched for a per-symbol pass.
   */
  function WideRequest(region: string, topN: int, criteria: Criteria): (q: FetchRequest)
    ensures q.query == QuerySpec(criteria, region, None, None)
    ensures q.size == 250
    ensures q.maxResults >= 250 && q.maxResults >= 5 * topN
    ensures q.sortField == "intradaymarketcap" && !q.sortAsc
  {
    FetchRequest(QuerySpec(criteria, region, None, None), 250, WideFetch(topN), "intradaymarketcap", false)
  }

  // ----- Value scoring -----

  /** A normalised quote with the value score computed for it. */
  datatype Scored = Scored(quote: Quote, valueScore: real)

  /** The symbol of a scored quote. */
  function ScoredSym(s: Scored): string {
    Sym(s.quote)
  }

  /** Normalises every raw quote and scores it with the default thresholds. */
  function ScoreAll(c: Collaborators, raw: seq<RawQuote>): (r: seq<Scored>)
    ensures |r| == |raw|
    ensures forall i :: 0 <= i < |r| ==>
      r[i].quote == Normalize(raw[i]) && r[i].valueScore == c.valueScore(r[i].quote, None)
  {
    seq(|raw|, i requires 0 <= i < |raw| => Scored(Normalize(raw[i]), c.valueScore(Normalize(raw[i]), None)))
  }

  // ----- The pullback match rule -----

  /** The match grades; the sort ranks `full` first and everything else after it. */
  datatype Match = Full | Partial | NoMatch {
    function Label(): string {
      match this
      case Full => "full"
      case Partial => "partial"
      case NoMatch => "none"
    }

    /** `0 if match_type == "full" else 1`. */
    function SortRank(): int {
      if this == Full then 0 else 1
    }
  }

  /** The bounce score a non-full assessment needs for a partial match. */
  const PartialBounceMin: real := 30.0

  /**
   * The full/partial/none rule written out identically in the query, pullback and
   * alpha screeners: full when every hard rule holds, partial for a bouncing
   * pullback inside an uptrend, none otherwise.
   */
  function MatchOf(a: Assessment): (m: Match)
    ensures m == Full <==> a.allConditions
    ensures m == Partial <==> !a.allConditions && a.Bounce() >= PartialBounceMin && a.uptrend && a.isPullback
    ensures m == NoMatch <==> !a.allConditions && !(a.Bounce() >= PartialBounceMin && a.uptrend && a.isPullback)
  {
    if a.allConditions then Full
    else if a.Bounce() >= PartialBounceMin && a.uptrend && a.isPullback then Partial
    else NoMatch
  }

  function Grade(m: Match): int {
    match m
    case Full => 2
    case Partial => 1
    case NoMatch => 0
  }

  /** Strengthening an assessment (more rules hold, higher bounce) never lowers its grade. */
  lemma MatchMonotone(a: Assessment, b: Assessment)
    requires a.allConditions ==> b.allConditions
    requires a.uptrend ==> b.uptrend
    requires a.isPullback ==> b.isPullback
    requires a.Bounce() <= b.Bounce()
    ensures Grade(MatchOf(a)) <= Grade(MatchOf(b))
  {
  }

  /** The technical fields a screener copies onto a row that passed the match rule. */
  datatype TechInfo = TechInfo(
    pullbackPct: Option<real>, rsi: Option<real>, volumeRatio: Option<real>,
    sma50: Option<real>, sma200: Option<real>, bounceScore: real, matchType: Match)

  function TechInfoOf(a: Assessment): (t: TechInfo)
    ensures t.matchType == MatchOf(a) && t.bounceScore == a.Bounce()
  {
    TechInfo(a.pullbackPct, a.rsi, a.volumeRatio, a.sma50, a.sma200, a.Bounce(), MatchOf(a))
  }

  // ----- The technical stage -----

  /**
   * Fetches a symbol's price history and runs the pattern detector on it; an absent
   * or empty history is `Done(None)` and does not reach the detector.
   */
  function TechLookup(c: Collaborators, symbol: string): Attempt<Option<Assessment>> {
    match c.priceHistory(symbol)
    case Raised => Raised
    case Done(None) => Done(None)
    case Done(Some(h)) => if |h| == 0 then Done(None) else c.detectPullback(h)
  }

  /** A symbol survives the technical filter: it is non-empty and grades full or partial. */
  predicate TechPasses(c: Collaborators, symbol: string) {
    && symbol != ""
    && TechLookup(c, symbol).Done?
    && TechLookup(c, symbol).value.Some?
    && MatchOf(TechLookup(c, symbol).value.value) != NoMatch
  }

  function TechInfoFor(c: Collaborators, symbol: string): TechInfo
    requires TechPasses(c, symbol)
  {
    TechInfoOf(TechLookup(c, symbol).value.value)
  }

  /** The technical filter as a predicate on rows, for use with `Seqs.Filter`. */
  function TechKeep<T>(c: Collaborators, symbolOf: T -> string): T -> bool {
    (x: T) => TechPasses(c, symbolOf(x))
  }

  /**
   * Row `k` is the first row whose history lookup raises; rows without a symbol
   * never reach the lookup.
   */
  predicate FirstRaise<T>(c: Collaborators, rows: seq<T>, symbolOf: T -> string, k: int) {
    && 0 <= k < |rows|
    && symbolOf(rows[k]) != "" && TechLookup(c, symbolOf(rows[k])).Raised?
    && forall j :: 0 <= j < k ==> symbolOf(rows[j]) == "" || !TechLookup(c, symbolOf(rows[j])).Raised?
  }

  /** A first raising row of `rows[1..]` is, one place later, a first raising row of `rows`. */
  lemma FirstRaiseShift<T>(c: Collaborators, rows: seq<T>, symbolOf: T -> string, k: int)
    requires |rows| > 0
    requires symbolOf(rows[0]) == "" || !TechLookup(c, symbolOf(rows[0])).Raised?
    requires FirstRaise(c, rows[1..], symbolOf, k)
    ensures FirstRaise(c, rows, symbolOf, k + 1)
  {
    forall j | 0 <= j < k + 1 ensures symbolOf(rows[j]) == "" || !TechLookup(c, symbolOf(rows[j])).Raised? {
      if j > 0 {
        assert rows[j] == rows[1..][j - 1];
      }
    }
  }

  /** Applying the technical filter predicate is running the filter on the row's symbol. */
  lemma TechKeepApply<T>(c: Collaborators, symbolOf: T -> string, x: T)
    ensures TechKeep(c, symbolOf)(x) == TechPasses(c, symbolOf(x))
  {
  }

  /** Every row the technical filter keeps passes it. */
  lemma TechKept<T>(c: Collaborators, rows: seq<T>, symbolOf: T -> string)
    ensures var kept := Filter(rows, TechKeep(c, symbolOf));
      forall i :: 0 <= i < |kept| ==> TechPasses(c, symbolOf(kept[i]))
  {
    var kept := Filter(rows, TechKeep(c, symbolOf));
    forall i | 0 <= i < |kept| ensures TechPasses(c, symbolOf(kept[i])) {
      assert TechKeep(c, symbolOf)(kept[i]);
    }
  }

  /**
   * `out` is what the technical stage yields for `rows`: the rows the filter keeps,
   * in input order and as often as `rows` holds them, each with its technical fields.
   */
  ghost predicate StageOutput<T>(c: Collaborators, rows: seq<T>, symbolOf: T -> string, out: seq<(T, TechInfo)>) {
    && Firsts(out) == Filter(rows, TechKeep(c, symbolOf))
    && forall i :: 0 <= i < |out| ==>
      TechPasses(c, symbolOf(out[i].0)) && out[i].1 == TechInfoFor(c, symbolOf(out[i].0))
  }

  /** A row the technical filter drops leaves the output for the rest as it is. */
  lemma TechSkipStep<T>(c: Collaborators, rows: seq<T>, symbolOf: T -> string, tail: Result<seq<(T, TechInfo)>, ScreenError>)
    requires |rows| > 0 && !TechPasses(c, symbolOf(rows[0]))
    requires tail.Success? ==> StageOutput(c, rows[1..], symbolOf, tail.value)
    ensures tail.Success? ==> StageOutput(c, rows, symbolOf, tail.value)
  {
  }

  /** A row the technical filter keeps goes, with its fields, in front of the output for the rest. */
  lemma TechKeepStep<T>(c: Collaborators, rows: seq<T>, symbolOf: T -> string, rest: seq<(T, TechInfo)>)
    requires |rows| > 0 && TechPasses(c, symbolOf(rows[0]))
    requires StageOutput(c, rows[1..], symbolOf, rest)
    ensures StageOutput(c, rows, symbolOf, [(rows[0], TechInfoFor(c, symbolOf(rows[0])))] + rest)
  {
    var out := [(rows[0], TechInfoFor(c, symbolOf(rows[0])))] + rest;
    FirstsCons(out[0], rest);
    assert Filter(rows, TechKeep(c, symbolOf)) == [rows[0]] + Filter(rows[1..], TechKeep(c, symbolOf));
    forall i | 0 <= i < |out|
      ensures TechPasses(c, symbolOf(out[i].0)) && out[i].1 == TechInfoFor(c, symbolOf(out[i].0))
    {
      if i > 0 {
        assert out[i] == rest[i - 1];
      }
    }
  }

  /** Every row of a stage output is an input row, and every passing input row is in it. */
  lemma StageOutputMembers<T>(c: Collaborators, rows: seq<T>, symbolOf: T -> string, out: seq<(T, TechInfo)>)
    requires StageOutput(c, rows, symbolOf, out)
    ensures forall i :: 0 <= i < |out| ==> out[i].0 in rows
    ensures forall x :: x in rows && TechPasses(c, symbolOf(x)) ==> (x, TechInfoFor(c, symbolOf(x))) in out
  {
    var kept := Filter(rows, TechKeep(c, symbolOf));
    forall i | 0 <= i < |out| ensures out[i].0 in rows {
      assert out[i].0 == kept[i];
    }
    forall x | x in rows && TechPasses(c, symbolOf(x)) ensures (x, TechInfoFor(c, symbolOf(x))) in out {
      assert TechKeep(c, symbolOf)(x);
      var i :| 0 <= i < |kept| && kept[i] == x;
      assert out[i].0 == x;
    }
  }

  /**
   * The pullback filter shared by the query and pullback screeners: rows without a
   * symbol, without history or without an assessment are skipped, rows grading
   * `none` are dropped, and an exception from the history fetch or the detector
   * aborts the whole screen.
   */
  function TechnicalStage<T(==)>(c: Collaborators, rows: seq<T>, symbolOf: T -> string): (r: Result<seq<(T, TechInfo)>, ScreenError>)
    ensures r.Success? ==> StageOutput(c, rows, symbolOf, r.value)
    ensures r.Success? ==> forall i :: 0 <= i < |r.value| ==> r.value[i].0 in rows
    ensures r.Success? ==> forall x :: x in rows && TechPasses(c, symbolOf(x)) ==>
      (x, TechInfoFor(c, symbolOf(x))) in r.value
    ensures r.Failure? ==>
      && r.error.HistoryRaised?
      && exists k :: FirstRaise(c, rows, symbolOf, k) && symbolOf(rows[k]) == r.error.symbol
    ensures (forall x :: x in rows ==> !TechLookup(c, symbolOf(x)).Raised?) ==> r.Success?
    decreases |rows|
  {
    if |rows| == 0 then Success([])
    else
      var x := rows[0];
      var sym := symbolOf(x);
      if sym != "" && TechLookup(c, sym).Raised? then Failure(HistoryRaised(sym))
      else
        var tail := TechnicalStage(c, rows[1..], symbolOf);
        assert tail.Failure? ==> exists k :: FirstRaise(c, rows, symbolOf, k) && symbolOf(rows[k]) == tail.error.symbol by {
          if tail.Failure? {
            var k :| FirstRaise(c, rows[1..], symbolOf, k) && symbolOf(rows[1..][k]) == tail.error.symbol;
            FirstRaiseShift(c, rows, symbolOf, k);
          }
        }
        assert forall y :: y in rows[1..] ==> y in rows;
        if sym == "" || TechLookup(c, sym).value.None? || MatchOf(TechLookup(c, sym).value.value) == NoMatch then
          TechSkipStep(c, rows, symbolOf, tail);
          tail
        else
          var rest :- tail;
          var out := [(x, TechInfoOf(TechLookup(c, sym).value.value))] + rest;
          TechKeepStep(c, rows, symbolOf, rest);
          StageOutputMembers(c, rows, symbolOf, out);
          Success(out)
  }}
