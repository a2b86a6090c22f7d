/**
 * Market definitions: how each market formats a user-supplied ticker, which
 * region and exchange codes its equity query uses, its fallback symbol list
 * and its value-screening thresholds.
 */
module Markets {
  import opened Wrappers
  import opened Text

  datatype Market = Japan | US | Asean

  /** A region code, or a list of them for a market spanning several regions. */
  datatype RegionSpec = Single(code: string) | Multi(codes: seq<string>)

  /** The base equity-query filter: `{"region": ..., "exchanges": [...]}`. */
  datatype EquityQuery = EquityQuery(region: RegionSpec, exchanges: seq<string>)

  /** Value-screening thresholds; `rf` is the risk-free rate, absent in the base set. */
  datatype Thresholds = Thresholds(perMax: real, pbrMax: real, dividendYieldMin: real, roeMin: real, rf: Option<real>)

  /** `Market.get_thresholds`, the default every market could inherit. */
  function BaseThresholds(): (t: Thresholds)
    ensures t.rf == None
    ensures t.perMax == 15.0 && t.pbrMax == 1.0 && t.dividendYieldMin == 0.03 && t.roeMin == 0.08
  {
    Thresholds(15.0, 1.0, 0.03, 0.08, None)
  }

  /**
   * Each market's own `get_thresholds` override: every market adds a risk-free rate,
   * and none is stricter than the base on valuation or dividend yield, or looser on ROE.
   */
  function MarketThresholds(m: Market): (t: Thresholds)
    ensures t.rf.Some?
    ensures t.perMax >= BaseThresholds().perMax && t.pbrMax >= BaseThresholds().pbrMax
    ensures t.dividendYieldMin <= BaseThresholds().dividendYieldMin && t.roeMin >= BaseThresholds().roeMin
  {
    match m
    case Japan => Thresholds(15.0, 1.0, 0.025, 0.08, Some(0.005))
    case US => Thresholds(20.0, 3.0, 0.02, 0.10, Some(0.04))
    case Asean => Thresholds(15.0, 1.5, 0.03, 0.08, Some(0.03))
  }

  /** Japan differs from the base only by a lower dividend floor and a risk-free rate. */
  lemma JapanThresholdsFromBase()
    ensures MarketThresholds(Japan) == BaseThresholds().(dividendYieldMin := 0.025, rf := Some(0.005))
  {
  }

  /** The ASEAN exchanges, in the order of the module-level maps. */
  const AseanExchangeNames: seq<string> := ["SGX", "SET", "KLSE", "IDX", "PSE"]

  /** `EXCHANGE_SUFFIXES`: legacy exchange name to ticker suffix. */
  const ExchangeSuffixes: map<string, string> :=
    map["SGX" := ".SI", "SET" := ".BK", "KLSE" := ".KL", "IDX" := ".JK", "PSE" := ".PS"]

  /** `_REGION_MAP`: legacy exchange name to equity-query region code. */
  const RegionMap: map<string, string> :=
    map["SGX" := "sg", "SET" := "th", "KLSE" := "my", "IDX" := "id", "PSE" := "ph"]

  /** `_EXCHANGE_CODE_MAP`: legacy exchange name to equity-query exchange code. */
  const ExchangeCodeMap: map<string, string> :=
    map["SGX" := "SES", "SET" := "SET", "KLSE" := "KLS", "IDX" := "JKT", "PSE" := "PHP"]

  /** The suffixes `format_ticker` recognises, i.e. the values of `EXCHANGE_SUFFIXES`. */
  const AseanSuffixes: seq<string> := [".SI", ".BK", ".KL", ".JK", ".PS"]

  function Region(m: Market): RegionSpec {
    match m
    case Japan => Single("jp")
    case US => Single("us")
    case Asean => Multi(["sg", "th", "my", "id", "ph"])
  }

  function Exchanges(m: Market): seq<string> {
    match m
    case Japan => ["JPX"]
    case US => ["NMS", "NYQ"]
    case Asean => ["SES", "SET", "KLS", "JKT", "PHP"]
  }

  /**
   * `get_equity_query`: the base implementation, which ASEAN overrides with a body
   * of the same shape; the query always carries the market's own codes.
   */
  function EquityQueryOf(m: Market): (q: EquityQuery)
    ensures q.region == Region(m) && q.exchanges == Exchanges(m)
    ensures q.region.Single? <==> m != Asean
  {
    EquityQuery(Region(m), Exchanges(m))
  }

  /** The ASEAN region and exchange lists are the two maps read in exchange order. */
  lemma AseanCodesAligned()
    ensures Region(Asean).Multi? && |Region(Asean).codes| == |AseanExchangeNames| == 5
    ensures |Exchanges(Asean)| == 5
    ensures forall i :: 0 <= i < 5 ==>
      AseanExchangeNames[i] in RegionMap && Region(Asean).codes[i] == RegionMap[AseanExchangeNames[i]]
    ensures forall i :: 0 <= i < 5 ==>
      AseanExchangeNames[i] in ExchangeCodeMap && Exchanges(Asean)[i] == ExchangeCodeMap[AseanExchangeNames[i]]
    ensures forall name :: name in ExchangeSuffixes <==> name in AseanExchangeNames
  {
  }

  // ----- Ticker formatting -----

  /** `JapanMarket.format_ticker`: both source branches for a dot-less code append ".T". */
  function JapanFormat(code: string): (r: string)
    ensures '.' in r
    ensures '.' in Strip(code) ==> r == Strip(code)
    ensures '.' !in Strip(code) ==> r == Strip(code) + ".T"
  {
    var c := Strip(code);
    if '.' in c then c else c + ".T"
  }

  /** `USMarket.format_ticker`: strip, then upper-case. */
  function UsFormat(code: string): (r: string)
    ensures |r| == |Strip(code)|
    ensures forall i :: 0 <= i < |r| ==> r[i] == UpperChar(Strip(code)[i])
    ensures forall i :: 0 <= i < |r| ==> !('a' <= r[i] <= 'z')
    ensures Stripped(r)
  {
    var r := Upper(Strip(code));
    assert forall c :: IsSpace(UpperChar(c)) <==> IsSpace(c);
    r
  }

  predicate HasAseanSuffix(c: string) {
    exists k :: 0 <= k < |AseanSuffixes| && EndsWith(c, AseanSuffixes[k])
  }

  /** The suffix for the exchange named after a colon; "" for an unknown exchange. */
  function SuffixFor(exchange: string): (s: string)
    ensures Upper(exchange) in ExchangeSuffixes ==> s == ExchangeSuffixes[Upper(exchange)]
    ensures Upper(exchange) !in ExchangeSuffixes ==> s == ""
    ensures s == "" || s in AseanSuffixes
    ensures ':' !in s
  {
    var e := Upper(exchange);
    if e in ExchangeSuffixes then SuffixValue(e) else ""
  }

  function SuffixValue(e: string): (s: string)
    requires e in ExchangeSuffixes
    ensures s == ExchangeSuffixes[e]
    ensures s in AseanSuffixes && ':' !in s
  {
    if e == "SGX" then ".SI"
    else if e == "SET" then ".BK"
    else if e == "KLSE" then ".KL"
    else if e == "IDX" then ".JK"
    else ".PS"
  }

  /**
   * `ASEANMarket.format_ticker`: a code that already ends in a recognised suffix is
   * kept; `TICKER:EXCHANGE` becomes the ticker part followed by that exchange's
   * suffix; anything else is returned stripped.
   */
  function AseanFormat(code: string): (r: string)
    ensures HasAseanSuffix(Strip(code)) ==> r == Strip(code)
    ensures !HasAseanSuffix(Strip(code)) && ':' in Strip(code) ==>
      var c := Strip(code);
      var i := IndexOf(c, ':');
      && r == c[..i] + SuffixFor(c[i + 1..])
      && ':' !in r
      && |r| >= i && r[..i] == c[..i]
      && (r[i..] == "" || r[i..] in AseanSuffixes)
    ensures !HasAseanSuffix(Strip(code)) && ':' !in Strip(code) ==> r == Strip(code)
  {
    var c := Strip(code);
    if HasAseanSuffix(c) then c
    else if ':' in c then
      var i := IndexOf(c, ':');
      var suffix := SuffixFor(c[i + 1..]);
      var r := c[..i] + suffix;
      assert r[i..] == suffix;
      assert forall j :: 0 <= j < |r| ==> r[j] != ':' by {
        forall j | 0 <= j < |r| ensures r[j] != ':' {
          if j < i {
            assert r[j] == c[..i][j];
          } else {
            assert r[j] == suffix[j - i];
          }
        }
      }
      r
    else c
  }

  /** "D05:SGX" ends in none of the recognised suffixes. */
  lemma ColonCodeUnsuffixed()
    ensures !HasAseanSuffix("D05:SGX")
  {
    var code := "D05:SGX";
    forall k | 0 <= k < |AseanSuffixes| ensures !EndsWith(code, AseanSuffixes[k]) {
      assert AseanSuffixes[k][0] == '.' && code[4] == 'S';
    }
  }

  /** "D05:SGX" is already stripped, has no recognised suffix, and its colon is at index 3. */
  lemma ColonCodeShape()
    ensures Strip("D05:SGX") == "D05:SGX"
    ensures !HasAseanSuffix("D05:SGX")
    ensures ':' in "D05:SGX" && IndexOf("D05:SGX", ':') == 3
  {
    StripStripped("D05:SGX");
    ColonCodeUnsuffixed();
    assert ':' !in "D05:SGX"[..3] && "D05:SGX"[3] == ':';
  }

  /** "SGX" names the Singapore exchange, whose suffix is ".SI". */
  lemma SgxSuffix()
    ensures SuffixFor("SGX") == ".SI"
  {
    assert Upper("SGX") == "SGX" by {
      assert Upper("SGX")[0] == 'S' && Upper("SGX")[1] == 'G' && Upper("SGX")[2] == 'X';
    }
  }

  /** The colon form names its exchange: "D05:SGX" becomes "D05.SI". */
  lemma AseanColonExample()
    ensures AseanFormat("D05:SGX") == "D05.SI"
  {
    ColonCodeShape();
    SgxSuffix();
    var c := Strip("D05:SGX");
    var i := IndexOf(c, ':');
    assert c[..i] == "D05" && c[i + 1..] == "SGX";
    assert AseanFormat("D05:SGX") == c[..i] + SuffixFor(c[i + 1..]);
  }

  /** `Market.format_ticker`, dispatched on the market. */
  function FormatTicker(m: Market, code: string): string {
    match m
    case Japan => JapanFormat(code)
    case US => UsFormat(code)
    case Asean => AseanFormat(code)
  }

  /** Formatting a Japanese ticker twice gives the same ticker as formatting it once. */
  lemma JapanFormatIdempotent(code: string)
    ensures JapanFormat(JapanFormat(code)) == JapanFormat(code)
  {
    var c := Strip(code);
    var r := JapanFormat(code);
    if '.' !in c {
      assert r == c + ".T";
      assert r[|r| - 1] == 'T';
      assert |c| == 0 ==> r[0] == '.';
      assert |c| > 0 ==> r[0] == c[0];
    }
    StripStripped(r);
  }

  /** Formatting a US ticker twice gives the same ticker as formatting it once. */
  lemma UsFormatIdempotent(code: string)
    ensures UsFormat(UsFormat(code)) == UsFormat(code)
  {
    var r := UsFormat(code);
    StripStripped(r);
    assert Upper(r) == r;
  }

  // ----- Default symbol lists -----

  function JapanSymbols(): seq<string> {
    [ "7203.T", "7267.T", "7974.T", "6758.T", "6861.T", "6501.T", "6902.T", "6762.T", "6954.T",
      "4063.T", "8306.T", "8316.T", "8411.T", "8766.T", "8058.T", "8031.T", "8001.T", "9432.T",
      "9433.T", "9984.T", "4502.T", "4568.T", "9983.T", "4452.T", "6301.T", "7751.T" ]
  }

  function UsSymbols(): seq<string> {
    [ "AAPL", "MSFT", "GOOGL", "AMZN", "META", "NVDA", "TSLA", "AVGO", "AMD", "INTC",
      "JPM", "BAC", "GS", "BRK-B", "V", "MA", "JNJ", "UNH", "PFE", "LLY",
      "PG", "KO", "PEP", "WMT", "COST", "XOM", "CVX", "CAT", "DIS", "NFLX" ]
  }

  function SingaporeSymbols(): seq<string> {
    ["D05.SI", "O39.SI", "U11.SI", "Z74.SI", "C6L.SI", "A17U.SI", "BN4.SI"]
  }

  function ThailandSymbols(): seq<string> {
    ["PTT.BK", "AOT.BK", "SCC.BK", "ADVANC.BK", "CPALL.BK", "KBANK.BK", "SCB.BK"]
  }

  function MalaysiaSymbols(): seq<string> {
    ["1155.KL", "1295.KL", "6888.KL", "4707.KL", "5183.KL", "3182.KL"]
  }

  function IndonesiaSymbols(): seq<string> {
    ["BBCA.JK", "BBRI.JK", "TLKM.JK", "ASII.JK", "UNVR.JK", "BMRI.JK"]
  }

  function PhilippinesSymbols(): seq<string> {
    ["SM.PS", "ALI.PS", "BDO.PS", "TEL.PS", "JFC.PS", "AC.PS"]
  }

  /** `get_default_symbols` of each market. */
  function DefaultSymbols(m: Market): seq<string> {
    match m
    case Japan => JapanSymbols()
    case US => UsSymbols()
    case Asean =>
      SingaporeSymbols() + ThailandSymbols() + MalaysiaSymbols() + IndonesiaSymbols() + PhilippinesSymbols()
  }

  /** The shape of every Japanese default symbol: a digit, ..., ".T". */
  predicate JapanSymbolShape(t: string) {
    |t| >= 3 && '0' <= t[0] <= '9' && t[|t| - 2] == '.' && t[|t| - 1] == 'T'
  }

  lemma JapanShapeFormatted(t: string)
    requires JapanSymbolShape(t)
    ensures EndsWith(t, ".T") && JapanFormat(t) == t
  {
    StripStripped(t);
    assert t[|t| - 2..] == ".T";
  }

  /** Every Japanese default symbol already carries ".T", so formatting keeps it. */
  lemma JapanDefaultsFormatted()
    ensures forall i :: 0 <= i < |DefaultSymbols(Japan)| ==>
      EndsWith(DefaultSymbols(Japan)[i], ".T") && JapanFormat(DefaultSymbols(Japan)[i]) == DefaultSymbols(Japan)[i]
  {
    var syms := DefaultSymbols(Japan);
    forall i | 0 <= i < |syms| ensures JapanSymbolShape(syms[i]) {}
    forall i | 0 <= i < |syms| ensures EndsWith(syms[i], ".T") && JapanFormat(syms[i]) == syms[i] {
      JapanShapeFormatted(syms[i]);
    }
  }

  /** The shape of every US default symbol: capital letters and dashes. */
  predicate UsSymbolShape(t: string) {
    |t| > 0 && forall j :: 0 <= j < |t| ==> 'A' <= t[j] <= 'Z' || t[j] == '-'
  }

  lemma UsShapeFormatted(t: string)
    requires UsSymbolShape(t)
    ensures UsFormat(t) == t
  {
    assert !IsSpace(t[0]) && !IsSpace(t[|t| - 1]);
    StripStripped(t);
    var u := Upper(t);
    forall j | 0 <= j < |t| ensures u[j] == t[j] {
      assert UpperChar(t[j]) == t[j];
    }
    assert u == t;
  }

  /** Every US default symbol is upper-case without padding, so formatting keeps it. */
  lemma UsDefaultsFormatted()
    ensures forall i :: 0 <= i < |DefaultSymbols(US)| ==> UsFormat(DefaultSymbols(US)[i]) == DefaultSymbols(US)[i]
  {
    var syms := DefaultSymbols(US);
    forall i | 0 <= i < |syms| ensures UsSymbolShape(syms[i]) {}
    forall i | 0 <= i < |syms| ensures UsFormat(syms[i]) == syms[i] {
      UsShapeFormatted(syms[i]);
    }
  }

  /** The shape of every ASEAN default symbol: alphanumeric start, then a known suffix. */
  predicate AseanSymbolShape(t: string, k: int) {
    && 0 <= k < |AseanSuffixes|
    && |t| >= 4 && ('0' <= t[0] <= '9' || 'A' <= t[0] <= 'Z')
    && t[|t| - 3] == '.' && t[|t| - 2] == AseanSuffixes[k][1] && t[|t| - 1] == AseanSuffixes[k][2]
  }

  lemma AseanShapeFormatted(t: string, k: int)
    requires AseanSymbolShape(t, k)
    ensures HasAseanSuffix(t) && AseanFormat(t) == t
  {
    StripStripped(t);
    assert t[|t| - 3..] == AseanSuffixes[k];
  }

  /** Every ASEAN default symbol ends in a recognised suffix, so formatting keeps it. */
  lemma AseanDefaultsFormatted()
    ensures forall i :: 0 <= i < |DefaultSymbols(Asean)| ==>
      HasAseanSuffix(DefaultSymbols(Asean)[i]) && AseanFormat(DefaultSymbols(Asean)[i]) == DefaultSymbols(Asean)[i]
  {
    var parts := [SingaporeSymbols(), ThailandSymbols(), MalaysiaSymbols(), IndonesiaSymbols(), PhilippinesSymbols()];
    forall k, j | 0 <= k < 5 && 0 <= j < |parts[k]| ensures AseanSymbolShape(parts[k][j], k) {}
    var syms := DefaultSymbols(Asean);
    forall i | 0 <= i < |syms|
      ensures HasAseanSuffix(syms[i]) && AseanFormat(syms[i]) == syms[i]
    {
      var k := if i < 7 then 0 else if i < 14 then 1 else if i < 20 then 2 else if i < 26 then 3 else 4;
      var j := i - (if k == 0 then 0 else if k == 1 then 7 else if k == 2 then 14 else if k == 3 then 20 else 26);
      assert syms[i] == parts[k][j];
      AseanShapeFormatted(syms[i], k);
    }
  }
}
