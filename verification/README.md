# Stock screening core, modelled in Dafny

This project models the screening core of the stock_skills toolkit:

- the six screeners:
  - the query screener: a provider-side EquityQuery, quote normalisation, value scoring, an optional shareholder-return filter and an optional pullback-in-uptrend filter;
  - the pullback screener;
  - the alpha screener: value plus change quality, with a pullback bonus;
  - the trending screener: tickers surfaced by X/Grok, classified by value score;
  - the growth screener: ranked by EPS growth;
  - the legacy value screener: symbol list by symbol list;
- the market definitions (Japan, US, ASEAN): ticker formatting, region and exchange codes, default symbol lists and value thresholds;
- the auto-context rules: freshness labels, the skill a stock's graph history recommends, the skill vector-search hits suggest, and the merge of a symbol context with vector hits.

Every call a screener makes outside the core is a function-valued field of `Screening.Collaborators`. This covers:
- the Yahoo client;
- `calculate_value_score`;
- `compute_change_score`;
- `detect_pullback_in_uptrend`;
- `build_query`;
- `apply_filters`;
- `load_preset`;
- the Grok trending search.

The model therefore states what each screener does with whatever those calls return. The properties state:
- which inputs can produce a row;
- that every qualifying input yields a row unless the `top_n` cut removed it;
- how rows are ordered;
- how many come back: exactly as many as `qualifying[:top_n]` would hold, and no row more often than the qualifying inputs yield it;
- which rows a binding cut keeps: every copy of every row that sorts ahead of the last row kept, and for each sort key the first qualifying rows with that key in input order. Together these fix the result as the sort-then-slice of the qualifying rows;
- which failures abort a screen.

Some Python details are modelled explicitly:
- **Sorting:** Python's stable `list.sort` is `Ranking.StableSort`, an insertion sort that keys rows by `SortKey(rank, score)`. `Ranking.StableSortKeepsTies` proves it stable.
- **Slicing:** `rows[:top_n]` is `Ranking.Take`, including the negative-`top_n` case.
- **What the cut keeps:** `Ranking.CutOf(r, s, key)` says that `r` holds no row more often than `s` does, and that for every sort key the rows of `r` with that key are a prefix of the rows of `s` with that key, in `s`'s order. `Ranking.TopCut(r, s, key, n)` adds what pins the cut down to the sort-then-slice result. `r` is exactly as long as `s[:n]` would be, including Python's negative `n`. It is sorted. And every row of `s` whose key sorts strictly ahead of `r`'s last row appears in `r` as often as in `s` (`KeepsAhead`), so a repeated row cannot be dropped in favour of a worse one. Every screener states its result as the `TopCut` of its qualifying rows, with the screener's `top_n`. Each screener defines those rows in input order (`Qualified`, `EligibleRows`, `TagPassing`). `RankingUnique.TopCutIsRankTop` shows the description is complete: only the sort-then-slice result satisfies it.
- **Loops with `continue`:** a loop that skips some rows and appends the others is `Seqs.Filter`. Its result is a subsequence of the input that keeps the input's order (`Seqs.FilterAt`, `Seqs.FilterKeepsOrder`), with each kept row exactly as often as the input holds it (`Seqs.FilterCount`).
- **Exceptions:** the two calls whose exceptions the screeners see, the price-history lookup and `detect_pullback_in_uptrend`, return `Wrappers.Attempt`.
- **Configuration errors:** a preset that cannot be loaded is a `Result` failure.

Modules:
- `Wrappers`: `Option`, `Attempt`, `Result`;
- `Text`: `str.strip`, `str.upper`, `endswith`;
- `Markets`;
- `Ranking`;
- `Seqs`: filter and any-loops;
- `Screening`: records, collaborators, normalisation, the match rule and the technical stage;
- `QueryScreener`, `PullbackScreener`, `AlphaScreener`, `TrendingScreener`, `GrowthScreener`, `ValueScreener`;
- `AutoContext`.

## Behaviour worth noting

- **Per-symbol failures:** in the query and pullback screeners, an exception from `get_price_history` or `detect_pullback_in_uptrend` is not caught (query_screener.py:234-238, pullback_screener.py:95-99). One symbol's failure therefore aborts the whole screen. The model returns `HistoryRaised(symbol)` naming the first row whose lookup raises. `Screening.TechnicalStage` proves that this is the only way those screens fail after the preset is loaded. Only the alpha screener catches the exception; it grades the symbol `none`.
- **Over-fetch size:** the code takes `max(top_n * 5, 250)` and `max(top_n * 3, 60)`. Both are floors on the fetch size, not caps (`Screening.WideFetch`, `GrowthScreener.FetchSize`).

## Model

| member | source | states |
|---|---|---|
| Markets.BaseThresholds | src/markets/base.py:59-69 | The base value thresholds: PER at most 15, PBR at most 1, dividend yield at least 3%, ROE at least 8%, and no risk-free rate. |
| Markets.MarketThresholds | src/markets/japan.py:88-96 | Every market's threshold override adds a risk-free rate. None is stricter than the base on PER, PBR or dividend yield, and none is looser on ROE. |
| Markets.JapanThresholdsFromBase | src/markets/japan.py:88-96 | Japan's thresholds are the base ones with a 2.5% dividend floor and a 0.5% risk-free rate. |
| Markets.EquityQueryOf | src/markets/base.py:71-87 | The base equity query carries the market's own region and exchange codes. The region is a list exactly for ASEAN. |
| Markets.AseanCodesAligned | src/markets/asean.py:7-31 | ASEAN's region and exchange lists are `_REGION_MAP` and `_EXCHANGE_CODE_MAP` read in exchange order. The suffix map covers exactly the same five exchanges. |
| Markets.JapanFormat | src/markets/japan.py:32-43 | A stripped code containing a dot is kept. Any other code, four digits or not, gets ".T". The result always contains a dot. |
| Markets.JapanFormatIdempotent | src/markets/japan.py:32-43 | Formatting a Japanese ticker twice equals formatting it once. |
| Markets.UsFormat | src/markets/us.py:32-34 | The result is the stripped code with each letter upper-cased in place: same length, each character the upper-case form of the stripped code's character at that position. |
| Markets.UsFormatIdempotent | src/markets/us.py:32-34 | Formatting a US ticker twice equals formatting it once. |
| Markets.SuffixFor | src/markets/asean.py:95 | A known exchange name, upper-cased, gives its suffix from `EXCHANGE_SUFFIXES`. An unknown one gives the empty suffix. |
| Markets.AseanFormat | src/markets/asean.py:78-99 | A code with a recognised suffix is kept. `TICKER:EXCHANGE` becomes exactly the text before the first colon followed by the suffix of the exchange after it, or nothing for an unknown exchange. Any other code is returned stripped. |
| Markets.AseanColonExample | src/markets/asean.py:83-96 | "D05:SGX" formats to "D05.SI". |
| Markets.JapanDefaultsFormatted | src/markets/japan.py:47-84 | Every Japanese default symbol ends in ".T", so formatting leaves it unchanged. |
| Markets.UsDefaultsFormatted | src/markets/us.py:38-79 | Every US default symbol is already in formatted form. |
| Markets.AseanDefaultsFormatted | src/markets/asean.py:105-175 | Every ASEAN default symbol carries a recognised exchange suffix, so formatting leaves it unchanged. |
| Text.Strip | src/markets/us.py:34 | `str.strip()`: the result starts after the leading whitespace, has no whitespace at either end, and only whitespace follows it. |
| Seqs.Filter | src/core/screening/query_screener.py:201-222 | A loop that skips rows with `continue` keeps at most the input's rows: each kept row is an input row that passes, and every input row that passes is kept. |
| Seqs.FilterCount | src/core/screening/query_screener.py:201-222 | A passing row is kept exactly as often as the input holds it, and a failing row not at all. |
| Seqs.FilterAt | src/core/screening/query_screener.py:201-222 | A passing input row lands in the result right after the passing rows that precede it in the input. |
| Seqs.FilterKeepsOrder | src/core/screening/query_screener.py:201-222 | Of two passing rows, the earlier in the input is the earlier in the result. |
| Ranking.StableSort | src/core/screening/query_screener.py:267-272 | The result is a permutation of the rows, ordered by rank and then by descending score. |
| Ranking.StableSortKeepsTies | src/core/screening/query_screener.py:267-272 | Rows with equal sort keys keep their input order (stability). |
| Ranking.Take | src/core/screening/query_screener.py:273 | `rows[:n]` is a prefix of length `min(n, len)`. A negative `n` drops `-n` rows from the end. |
| Ranking.RankTop | src/core/screening/value_screener.py:105-107 | Sort-then-cut returns `min(top_n, len)` rows, sorted, and is the `TopCut` of its input. It holds no row more often than the input does. For each key it holds the first rows with that key, in input order. Every copy of a row that sorts ahead of the last row kept is kept, and the length is that of the slice `s[:n]` for any `n`. When `top_n` covers the input, the result is a permutation of it. |
| Ranking.SortedPrefixCut | src/core/screening/value_screener.py:105-107 | Any prefix of the stable sort is `CutOf` the input. |
| Ranking.RankTopKeepsBest | src/core/screening/value_screener.py:105-107 | No row the cut left out ranks strictly ahead of the last row kept. Every copy the input holds of such a row is kept, counted as a multiset. |
| RankingUnique.TopCutIsRankTop | src/core/screening/value_screener.py:105-107 | Whatever is a `TopCut` of `s` under `key` and `n` is exactly the sort-then-slice result `RankTop(s, key, n)`. So a screener result stated as a `TopCut` has its rows, their order and their count fully fixed. |
| RankingUnique.TopCutUnique | src/core/screening/value_screener.py:105-107 | Two `TopCut`s of the same input with the same `top_n` are the same sequence. |
| RankingUnique.LastNotAhead | src/core/screening/value_screener.py:105-107 | Of two `TopCut`s of the same input, neither ends on a key strictly ahead of the other's last key. |
| RankingUnique.SameCountPerKey | src/core/screening/value_screener.py:105-107 | Two `TopCut`s of the same input that end on the same key keep equally many rows for every key. |
| RankingUnique.SortedByKeys | src/core/screening/value_screener.py:105-107 | Two sorted sequences of the same length, with the same rows for every key, are equal. |
| Screening.NormDividendYield | src/core/screening/query_screener.py:45-70 | The provider's yield is a percentage. It is kept, as a ratio, exactly when that ratio is at most 15%. |
| Screening.NormRoe | src/core/screening/query_screener.py:50-78 | ROE above 1 is read as a percentage. The value is kept exactly when it lands in [-1, 2]. |
| Screening.NormRevenueGrowth | src/core/screening/query_screener.py:55-58 | Revenue growth is never dropped. Values beyond ±5 are read as percentages. |
| Screening.NormPer | src/core/screening/query_screener.py:61-63 | A P/E strictly between 0 and 1 is dropped. Any other P/E is kept unchanged. |
| Screening.NormPbr | src/core/screening/query_screener.py:65-67 | A P/B below 0.05 is dropped. Any other P/B is kept unchanged. |
| Screening.NormTrailingYield | src/core/screening/query_screener.py:72-75 | A trailing yield above 15% is dropped. Any other trailing yield is kept unchanged. |
| Screening.OrElse | src/core/screening/query_screener.py:82 | Python's `a or b` on strings: `a` unless it is missing or empty. |
| Screening.Normalize | src/core/screening/query_screener.py:36-103 | A normalised quote is always within the plausible ranges. Each field comes from its provider field under the rules above, and the name is the short name unless it is missing or empty, else the long name. |
| Screening.ResolveCriteria | src/core/screening/query_screener.py:156-161 | Explicit criteria win. Otherwise the preset's criteria apply, and a preset that fails to load fails the call. With neither, the criteria are empty. |
| Screening.LoadPreset | src/core/screening/alpha_screener.py:29 | A preset load succeeds exactly when the loader does. A failure is reported as a preset error naming the preset. |
| Screening.WideRequest | src/core/screening/pullback_screener.py:65-73 | The query uses only the criteria and region, 250 quotes per page, largest market caps first, over-fetching at least `max(5·top_n, 250)`. |
| Screening.WideFetch | src/core/screening/pullback_screener.py:70 | The over-fetch is at least five times `top_n` and at least 250, and it equals one of the two. |
| Screening.ScoreAll | src/core/screening/pullback_screener.py:78-84 | Each fetched quote is normalised and value-scored, one for one and in order. |
| Screening.MatchOf | src/core/screening/query_screener.py:242-254 | The match is full exactly when every rule holds. It is partial exactly when the rules do not all hold but the stock is in an uptrend, pulling back, and has a bounce score of at least 30. Otherwise there is no match. |
| Screening.MatchMonotone | src/core/screening/query_screener.py:242-254 | Strengthening an assessment (more rules holding, a higher bounce) never lowers its match grade. |
| Screening.TechInfoOf | src/core/screening/query_screener.py:257-263 | The attached technical fields carry the assessment's match and its bounce score, which defaults to 0. |
| Screening.TechnicalStage | src/core/screening/query_screener.py:227-264 | On success, the rows of the output are `Seqs.Filter` of the input by the technical test: in input order and as often as the input holds them, the rows with a symbol, a non-empty history, an assessment and a full or partial match. Each is paired with its technical fields. An exception aborts the stage, naming the symbol of the first row whose lookup raises. Without one, the stage succeeds. |
| QueryScreener.MaxResults | src/core/screening/query_screener.py:169-172 | Pullback mode fetches `max(5·top_n, 250)`. Otherwise the fetch is `5·top_n`. |
| QueryScreener.ReturnStage | src/core/screening/query_screener.py:201-222 | The output is, in input order and one for one, the input rows with a symbol and a detail record that pass the minimum (`Seqs.Filter`), each carrying its shareholder-return profile. Every input row that passes is kept. |
| QueryScreener.AfterReturns | src/core/screening/query_screener.py:201-222 | Without the `min_total_shareholder_return` key, the rows pass through unchanged. With it, the output is the passing input rows in input order, one for one, each with its profile attached. |
| QueryScreener.InitialRows | src/core/screening/query_screener.py:186-195 | One row per fetched quote, in order: row i holds the i-th quote's normalised form and value score, with no profile or technical fields attached. |
| QueryScreener.TagPassing | src/core/screening/query_screener.py:227-264 | The rows that pass the technical filter, in input order and one for one, each with its technical fields attached. |
| QueryScreener.TaggedPassing | src/core/screening/query_screener.py:227-264 | The technical stage's output, tagged, equals `TagPassing` of its input. |
| QueryScreener.PullbackRank | src/core/screening/query_screener.py:227-273 | Returns at most `top_n` rows, the `TopCut` of the tagged passing rows (`TagPassing`). Each is an input row that passed the technical filter, with its technical fields attached. Every passing row is present unless the cut was binding, and no passing row left out sorts ahead of the last row kept. Full rows precede partial ones, each group ordered by value score. Without a history exception the branch succeeds; a failure is a history exception. |
| QueryScreener.ValueRank | src/core/screening/query_screener.py:275-277 | Returns `min(top_n, len)` input rows, highest value score first, the `TopCut` of the input. When `top_n` covers the input, every row is present. No row left out has a higher score than the last row kept. |
| QueryScreener.CandidatesOf | src/core/screening/query_screener.py:186-222 | The reference candidates: in fetch order and one for one, the scored quotes that pass the return check, as their candidate rows. |
| QueryScreener.ReturnStageBase | src/core/screening/query_screener.py:201-222 | With a minimum, the return stage on the base rows yields the reference candidates. |
| QueryScreener.NoReturnStageBase | src/core/screening/query_screener.py:200 | Without a minimum, the base rows are the reference candidates. |
| QueryScreener.CandidatesExact | src/core/screening/query_screener.py:186-222 | The candidates the pipeline computes equal the reference candidates. |
| QueryScreener.CandidatesSound | src/core/screening/query_screener.py:186-222 | Every row the return stage passes on is the candidate row of a fetched quote that passes the stage. |
| QueryScreener.CandidatesComplete | src/core/screening/query_screener.py:186-222 | Every fetched quote that passes the return stage reaches ranking as its candidate row. |
| QueryScreener.Candidates | src/core/screening/query_screener.py:186-222 | The candidates equal `CandidatesOf` the scored quotes: in fetch order and one for one, the scored quotes that pass the shareholder-return stage, each carrying its profile when the stage is on. Without a minimum, they are all the scored quotes. |
| QueryScreener.EligibleRows | src/core/screening/query_screener.py:186-264 | The result rows of the eligible quotes, in fetch order and one for one: what the final cut selects from. |
| QueryScreener.TaggedCandidates | src/core/screening/query_screener.py:186-264 | Tagging the passing candidates gives the pullback-mode eligible rows. |
| QueryScreener.PlainCandidates | src/core/screening/query_screener.py:186-222 | The candidates are the plain-mode eligible rows. |
| QueryScreener.PullbackCut | src/core/screening/query_screener.py:186-273 | A successful pullback branch is the `TopCut` of the pullback-mode eligible rows. |
| QueryScreener.PullbackMode | src/core/screening/query_screener.py:186-273 | With the pullback filter on, a successful result is the `TopCut` of the eligible quotes' rows in fetch order. Every row comes from an eligible quote, every eligible quote is present unless the cut was binding, none left out sorts ahead of the last row kept, and full rows come first, each group by value score. Without a history exception it succeeds. |
| QueryScreener.ValueMode | src/core/screening/query_screener.py:186-222 | With the pullback filter off, the result is the `TopCut` of the eligible quotes' rows by value score, under the same guarantees. |
| QueryScreener.ScreenWith | src/core/screening/query_screener.py:163-277 | An empty fetch gives no rows. Otherwise a successful result is the `TopCut` of the eligible fetched quotes' rows in the mode's order. Each row comes from an eligible quote, all of them are present unless the cut was binding, and none left out ranks ahead of the last kept. Only the pullback mode can fail, only on a history exception, and without one it succeeds. |
| QueryScreener.Screen | src/core/screening/query_screener.py:105-277 | A preset that fails to load fails the screen. Otherwise the screen runs with the resolved criteria. Any failure is a preset error or a pullback-mode history exception. |
| PullbackScreener.Qualified | src/core/screening/pullback_screener.py:89-155 | The rows of the scored quotes that pass the technical filter, in fetch order and one for one. |
| PullbackScreener.RowsQualified | src/core/screening/pullback_screener.py:89-155 | The technical stage's output, as rows, equals `Qualified`. |
| PullbackScreener.RankRows | src/core/screening/pullback_screener.py:157-164 | The result is the `TopCut` of the qualified rows. Rows come from quotes that passed the technical filter. If fewer than `top_n` come back, every passing quote is present. No passing quote left out sorts ahead of the last row kept. Full rows precede partial ones, each group ordered by final score. |
| PullbackScreener.RankPassing | src/core/screening/pullback_screener.py:89-164 | A successful result is the `TopCut` of the qualified rows. After the technical filter, rows come from quotes that grade full or partial. If fewer than `top_n` come back, every such quote is present, and none left out sorts ahead of the last row kept. Rows are in full-first score order. Without a history exception, the step succeeds. |
| PullbackScreener.Screen | src/core/screening/pullback_screener.py:38-164 | The default criteria apply when none are given, and an empty fetch gives no rows. A successful result is the `TopCut` of the qualified rows of the scored fetch. Rows come from fetched quotes that grade full or partial, each with a symbol. It returns at most `top_n` rows in full-first score order, and no passing quote left out sorts ahead of the last row kept. If no history lookup raises, the screen succeeds. |
| AlphaScreener.Bonus | src/core/screening/alpha_screener.py:122-127 | A full match earns 10, a partial match 5, and no match nothing. |
| AlphaScreener.BonusMonotone | src/core/screening/alpha_screener.py:122-127 | A better pullback grade never earns a smaller bonus. |
| AlphaScreener.Enrich | src/core/screening/alpha_screener.py:83-113 | The pullback check never drops a row. An exception, a missing or empty history, or a missing assessment grades `none` with no figures. |
| AlphaScreener.RowOf | src/core/screening/alpha_screener.py:115-130 | The total score is the value score plus the change score plus the pullback bonus. |
| AlphaScreener.GradeRaisesTotal | src/core/screening/alpha_screener.py:115-130 | Of two rows with equal value plus change scores, the better pullback grade has the higher total. |
| AlphaScreener.Qualified | src/core/screening/alpha_screener.py:52-130 | The rows of the scored quotes that pass the quality gate, in fetch order and one for one. |
| AlphaScreener.RankRows | src/core/screening/alpha_screener.py:132-134 | The result is the `TopCut` of the qualified rows. Rows come from quotes that passed the quality gate. If fewer than `top_n` come back, every passing quote is present. No passing quote left out has a higher total than the last row kept. Rows are ordered by total score. |
| AlphaScreener.ScreenWith | src/core/screening/alpha_screener.py:30-134 | An empty fetch gives no rows. The result is the `TopCut` of the qualified rows of the scored fetch. Every row is a fetched quote with a detail record that passes the 3-of-4 quality check. It returns at most `top_n` rows, ordered by total score, and no passing quote left out has a higher total than the last row kept. |
| AlphaScreener.Screen | src/core/screening/alpha_screener.py:28-29 | A failure to load the value preset fails the screen. After that the screen cannot fail. |
| TrendingScreener.Classify | src/core/screening/trending_screener.py:33-39 | A score of 60 or more is undervalued, 30 up to 60 is fair value, and below 30 is overvalued. |
| TrendingScreener.ClassifyMonotone | src/core/screening/trending_screener.py:33-39 | A higher value score never lands in a later class. |
| TrendingScreener.EarlierClassHigherScore | src/core/screening/trending_screener.py:33-39 | A strictly earlier class implies a strictly higher score. |
| TrendingScreener.RowOf | src/core/screening/trending_screener.py:64-104 | A ticker without fundamentals becomes a no-data row with score 0 and no figures. Otherwise the row carries the fundamentals, the value score and that score's class. |
| TrendingScreener.ClassSortedOrdered | src/core/screening/trending_screener.py:106-112 | Sorting by (class order, −score) puts every data row before every no-data row and orders data rows by score. |
| TrendingScreener.Qualified | src/core/screening/trending_screener.py:64-104 | The rows of the items with a ticker, in feed order and one for one. |
| TrendingScreener.RankRows | src/core/screening/trending_screener.py:106-114 | The result is the `TopCut` of the qualified rows. Rows come from items with a ticker, and if fewer than `top_n` come back, every such item is present, and none left out sorts ahead of the last row kept. The rows are sorted by class and then score. |
| TrendingScreener.Screen | src/core/screening/trending_screener.py:41-114 | The market commentary is passed through. An empty feed gives no rows. The rows are the `TopCut` of the qualified rows of the feed. At most `top_n` rows come back, no-data rows last and data rows by score, and no item left out sorts ahead of the last row kept. |
| GrowthScreener.FetchSize | src/core/screening/growth_screener.py:55 | The fetch is at least three times `top_n` and at least 60, and it equals one of the two. |
| GrowthScreener.Request | src/core/screening/growth_screener.py:52-62 | The query carries the criteria, region and sector, 250 quotes per page, largest market caps first, with the fetch size above. |
| GrowthScreener.OrElseNonZero | src/core/screening/growth_screener.py:88 | Python's `a or b` on numbers: `a` unless it is missing or zero. |
| GrowthScreener.RowOf | src/core/screening/growth_screener.py:73-102 | A kept row has a strictly positive EPS growth taken from the detail record. Its revenue growth falls back to the detail's. |
| GrowthScreener.Qualified | src/core/screening/growth_screener.py:75-102 | The rows of the quotes with a symbol, a detail record and positive EPS growth, in fetch order and one for one. |
| GrowthScreener.RankRows | src/core/screening/growth_screener.py:75-106 | The result is the `TopCut` of the qualified rows. Rows come from quotes with a symbol, a detail record and positive EPS growth. If fewer than `top_n` come back, every such quote is present. No such quote left out has higher EPS growth than the last row kept. Rows are ordered by EPS growth. |
| GrowthScreener.ScreenWith | src/core/screening/growth_screener.py:52-106 | An empty fetch gives no rows. The result is the `TopCut` of the qualified rows of the normalised fetch. Every row has positive EPS growth and comes from a fetched quote. It returns at most `top_n` rows, highest EPS growth first, and no qualifying quote left out has higher EPS growth than the last row kept. |
| GrowthScreener.Screen | src/core/screening/growth_screener.py:49 | A failure to load the growth preset fails the screen. Otherwise the screen runs with the preset's criteria. |
| ValueScreener.RowOf | src/core/screening/value_screener.py:90-103 | The row keeps the fundamentals and is scored under the market's own thresholds. |
| ValueScreener.Qualified | src/core/screening/value_screener.py:81-103 | The rows of the listed symbols that have fundamentals and pass the criteria, in list order and one for one. |
| ValueScreener.ScreenWith | src/core/screening/value_screener.py:79-107 | The result is the `TopCut` of the qualified rows. Rows come from listed symbols that have fundamentals and pass the criteria. If fewer than `top_n` come back, every such symbol is present. No such symbol left out has a higher value score than the last row kept. Rows are ordered by value score. |
| ValueScreener.Screen | src/core/screening/value_screener.py:66-75 | The market's default symbols apply unless a list is given. Criteria resolve as explicit first, then preset, then none. A preset that fails to load fails the screen. |
| AutoContext.DaysSince | src/data/auto_context.py:83-89 | A date that does not parse is 9999 days old. |
| AutoContext.HoursSince | src/data/auto_context.py:112-118 | A date that does not parse is 999999 hours old. |
| AutoContext.FreshnessLabel | src/data/auto_context.py:121-133 | A missing or empty date is NONE. Otherwise the label is FRESH up to the fresh threshold, RECENT up to the recent threshold, and STALE beyond both. |
| AutoContext.FreshnessMonotone | src/data/auto_context.py:121-133 | With fixed thresholds, an older record never gets a fresher label. |
| AutoContext.UnparsedIsStale | src/data/auto_context.py:112-133 | A non-empty date that does not parse is STALE under the default thresholds. |
| AutoContext.FreshnessAction | src/data/auto_context.py:136-143 | Each of FRESH, RECENT and STALE has its own action. NONE and any unknown label get "新規取得" (fetch anew). |
| AutoContext.BuyKeepsHeld | src/data/auto_context.py:146-151 | Recording one more buy on a history whose sells do not outnumber its buys leaves the stock bought-and-not-sold. |
| AutoContext.UndatedThesisDue | src/data/auto_context.py:190-196 | A thesis note whose date does not parse counts as due for review. |
| AutoContext.RecommendSkill | src/data/auto_context.py:209-240 | The skill is "health" exactly when the stock is held or bought-and-not-sold. Each recommendation is given exactly when its rule applies and no earlier rule does. |
| AutoContext.HoldingOverrides | src/data/auto_context.py:216-220 | For a held stock, the bookmark flag makes no difference. |
| AutoContext.TallyCounts | src/data/auto_context.py:399-402 | The label tally has one entry per label with its true count, in first-occurrence order. |
| AutoContext.ArgMax | src/data/auto_context.py:405 | `max(d, key=d.get)` returns an entry with the largest count, and no earlier entry has that count. |
| AutoContext.TopLabel | src/data/auto_context.py:399-405 | The top label is a most frequent label, and among equally frequent labels it appears first. |
| AutoContext.TopLabelUnique | src/data/auto_context.py:399-405 | At most one label has that property. |
| AutoContext.InferSkill | src/data/auto_context.py:395-415 | No hits gives "report". Otherwise the skill is the one the top label of the first five hits maps to, and it is always one of four skills. |
| AutoContext.MergeContext | src/data/auto_context.py:418-441 | There is no context exactly when there is neither a symbol context nor a hit. Hits alone make a vector-only context. Both together append the rendered hits to the symbol context's markdown and change nothing else. |

## Left out

- **Collaborators:** the Yahoo and Grok clients, `calculate_value_score`, `compute_change_score`, `detect_pullback_in_uptrend`, `build_query`, `apply_filters` and `load_preset` live outside the core. They are parameters (`Screening.Collaborators`). Nothing is assumed about the values they return; whether they raise is covered by the last line of this section.
- **Pagination and rate limiting** inside `screen_stocks` are not modelled. One call returns the fetched quotes.
- **Shareholder return:** `calculate_shareholder_return`, `calculate_shareholder_return_history` and `assess_return_stability` are one collaborator, `returnProfile`, because the screener only copies their fields.
- **Missing keys:** a dictionary key holding `None` and a missing key are both `None` in the model. This matters for `quote.get("symbol", "")`, `info.get("symbol", ticker)` and `data.get("symbol", symbol)`, where Python keeps an explicit `None`. It also matters for `tech_result.get("bounce_score", 0)` (query_screener.py:243, pullback_screener.py:104, alpha_screener.py:92): an explicit `None` there makes `bounce_score >= 30` raise `TypeError` (query_screener.py:248), while the model reads the score as 0.
- **Numbers:** floating point, NaN and non-numeric field values are not modelled. Numbers are exact reals.
- **The `_CLASS_ORDER.get(..., 2)` default** is not modelled, because every trending row carries one of the four classes.
- **The value screener's deprecation warning** is not modelled.
- **The market `name` attributes and `load_exchanges_config`:** the first are display strings; the second reads a configuration file.
- **Auto-context symbol detection:** `_extract_symbol`, `_lookup_symbol_by_name`, `_resolve_symbol`, `_is_market_query` and `_is_portfolio_query` use regular expressions and text lookups over free-form user input.
- **Auto-context formatting:** `_format_context`, `_format_market_context` and `_format_vector_results` render markdown. The merge takes the rendering as a parameter.
- **Auto-context I/O:** `_check_bookmarked`, `_vector_search`, `get_context` and every graph-store call are database and embedding I/O. Bookmarked and held are parameters of `AutoContext.RecommendSkill`.
- **`_is_bookmarked`** is a placeholder that always returns False and that no rule calls.
- **`_fresh_hours`, `_recent_hours` and `_today_str`:** the freshness thresholds are parameters, with the defaults 24 and 168 as constants. Elapsed hours and days are parameters, `None` when the date does not parse.
- **Graph history:** the history's screen, report and health-check lists are counts, because the rules only test whether they are non-empty or how long they are.
- **Vector hits:** a hit without a `label` key reads as the empty label. In the source, `_format_vector_results` indexes `label` and `score` (src/data/auto_context.py:388-391), so such a hit raises `KeyError` while the markdown is built (src/data/auto_context.py:431), before skill inference runs (src/data/auto_context.py:432), and the error escapes the merge. The rendering parameter of `AutoContext.MergeContext` is a total function and cannot raise.
- Markets.UsFormat: upper-cases ASCII letters only; Python's `str.upper` also maps non-ASCII letters.
- Markets.AseanFormat: upper-cases the exchange name over ASCII only, as `Markets.UsFormat` does.
- **Collaborators that never raise:** `screen_stocks`, `get_stock_detail`, `get_stock_info`, `calculate_value_score`, `compute_change_score`, `apply_filters`, the shareholder-return calls and the Grok trending search are modelled as never raising, because their documented contracts report a missing result as an absent value rather than an exception. Only the price-history lookup and `detect_pullback_in_uptrend` are modelled with exceptions.
