/** Symbol handling in `backend/app/engine.py`: `split_symbol`, which splits a
    trading symbol such as `BTCUSDT` into its base and quote assets, and
    `bootstrap_price_for_symbol`, the price the initial inventory is valued at. */
module Symbols {
  import opened Wrappers
  import opened Strings

  /** `KNOWN_QUOTES` in the order `split_symbol` tries them: sorted by length,
      longest first, ties kept in their declared order. */
  const KnownQuotes: seq<string> := ["USDT", "USDC", "USD", "ETH", "BTC", "EUR"]

  /** `quote` is a suffix of `value` that leaves a non-empty prefix. */
  predicate IsProperSuffix(value: string, quote: string) {
    EndsWith(value, quote) && |value| > |quote|
  }

  /** The first of `quotes` that is a proper suffix of `value`. */
  function FirstQuote(value: string, quotes: seq<string>): (r: Option<nat>)
    ensures r.Some? ==> r.value < |quotes| && IsProperSuffix(value, quotes[r.value])
    ensures r.Some? ==> forall k :: 0 <= k < r.value ==> !IsProperSuffix(value, quotes[k])
    ensures r.None? ==> forall k :: 0 <= k < |quotes| ==> !IsProperSuffix(value, quotes[k])
  {
    if quotes == [] then None
    else if IsProperSuffix(value, quotes[0]) then Some(0)
    else
      match FirstQuote(value, quotes[1..])
      case None => None
      case Some(k) => Some(k + 1)
  }

  /** The normalisation `symbol.upper().strip()`. */
  function Normalize(symbol: string): string {
    Strip(Upper(symbol))
  }

  /** `split_symbol` after normalisation: the first known quote that is a
      proper suffix, else the last three characters, else `USD`. */
  function SplitNormalised(value: string): (r: (string, string))
    ensures r.0 + r.1 == value || (|value| <= 3 && r == (value, "USD"))
  {
    match FirstQuote(value, KnownQuotes)
    case Some(k) =>
      assert value == value[..|value| - |KnownQuotes[k]|] + KnownQuotes[k];
      (value[..|value| - |KnownQuotes[k]|], KnownQuotes[k])
    case None =>
      if |value| > 3 then
        assert value == value[..|value| - 3] + value[|value| - 3..];
        (value[..|value| - 3], value[|value| - 3..])
      else (value, "USD")
  }

  /** `split_symbol`: the two parts put back together give the normalised
      symbol, except that a short symbol without a known quote is paired
      with `USD`. */
  function SplitSymbol(symbol: string): (r: (string, string))
    ensures r.0 + r.1 == Normalize(symbol) || (|Normalize(symbol)| <= 3 && r == (Normalize(symbol), "USD"))
  {
    SplitNormalised(Normalize(symbol))
  }

  /** A known quote that is a proper suffix is split off, and it is the
      longest such quote; the two parts put back together give the value. */
  lemma SplitOnKnownQuote(value: string, q: string)
    requires q in KnownQuotes && IsProperSuffix(value, q)
    ensures var r := SplitNormalised(value);
      && r.1 in KnownQuotes && IsProperSuffix(value, r.1) && r.0 + r.1 == value
      && |r.1| >= |q|
  {
    var j :| 0 <= j < |KnownQuotes| && KnownQuotes[j] == q;
    var k := FirstQuote(value, KnownQuotes).value;
    assert k <= j;
    assert value == value[..|value| - |KnownQuotes[k]|] + KnownQuotes[k];
  }

  /** Without a known quote a value longer than three characters is split
      before its last three; a shorter one is paired with `USD`. */
  lemma SplitWithoutKnownQuote(value: string)
    requires forall q :: q in KnownQuotes ==> !IsProperSuffix(value, q)
    ensures |value| > 3 ==> SplitNormalised(value) == (value[..|value| - 3], value[|value| - 3..])
    ensures |value| > 3 ==> SplitNormalised(value).0 + SplitNormalised(value).1 == value
    ensures |value| <= 3 ==> SplitNormalised(value) == (value, "USD")
  {
    if |value| > 3 {
      assert value == value[..|value| - 3] + value[|value| - 3..];
    }
  }

  /** The normalised symbol has no lower-case letter. */
  lemma NormalizeIsUpper(symbol: string)
    ensures NoLowerLetter(Normalize(symbol))
  {
    var u := Upper(symbol);
    StripIsTrimmedSlice(u);
    var i, j :| 0 <= i <= j <= |u| && Normalize(symbol) == u[i..j];
  }

  /** Splitting a value without lower-case letters gives two parts without
      lower-case letters. */
  lemma SplitNormalisedIsUpper(value: string)
    requires NoLowerLetter(value)
    ensures NoLowerLetter(SplitNormalised(value).0) && NoLowerLetter(SplitNormalised(value).1)
  {
    match FirstQuote(value, KnownQuotes)
    case Some(k) =>
      assert NoLowerLetter(KnownQuotes[k]);
    case None =>
  }

  /** The split is insensitive to case and to surrounding whitespace, and both
      parts are upper-case. */
  lemma SplitSymbolNormalised(symbol: string)
    ensures SplitSymbol(Normalize(symbol)) == SplitSymbol(symbol)
    ensures NoLowerLetter(SplitSymbol(symbol).0) && NoLowerLetter(SplitSymbol(symbol).1)
  {
    UpperStripIsIdempotent(symbol);
    NormalizeIsUpper(symbol);
    SplitNormalisedIsUpper(Normalize(symbol));
  }

  /** `BTCUSDT` splits as `BTC`/`USDT`: the longer quote wins over `USD`. */
  lemma SplitExampleLongestQuote()
    ensures SplitNormalised("BTCUSDT") == ("BTC", "USDT")
  {
    assert IsProperSuffix("BTCUSDT", "USDT");
    assert FirstQuote("BTCUSDT", KnownQuotes) == Some(0);
    assert "BTCUSDT"[..3] == "BTC";
  }

  /** `ETHBTC` splits as `ETH`/`BTC`: a crypto quote is found after the
      stablecoins have been tried. */
  lemma SplitExampleCryptoQuote()
    ensures SplitNormalised("ETHBTC") == ("ETH", "BTC")
  {
    var tail4 := KnownQuotes[4..];
    assert tail4 == ["BTC", "EUR"];
    assert IsProperSuffix("ETHBTC", "BTC");
    assert FirstQuote("ETHBTC", tail4) == Some(0);
    assert !IsProperSuffix("ETHBTC", "ETH");
    assert FirstQuote("ETHBTC", KnownQuotes[3..]) == Some(1);
    assert !IsProperSuffix("ETHBTC", "USD");
    assert FirstQuote("ETHBTC", KnownQuotes[2..]) == Some(2);
    assert !IsProperSuffix("ETHBTC", "USDC");
    assert FirstQuote("ETHBTC", KnownQuotes[1..]) == Some(3);
    assert !IsProperSuffix("ETHBTC", "USDT");
    assert FirstQuote("ETHBTC", KnownQuotes) == Some(4);
    assert "ETHBTC"[..3] == "ETH";
  }

  /** `XRPGBP` splits as `XRP`/`GBP`: an unknown quote is taken to be the last
      three characters. */
  lemma SplitExampleUnknownQuote()
    ensures SplitNormalised("XRPGBP") == ("XRP", "GBP")
  {
    assert !IsProperSuffix("XRPGBP", "USDT") && !IsProperSuffix("XRPGBP", "USDC");
    assert !IsProperSuffix("XRPGBP", "USD") && !IsProperSuffix("XRPGBP", "ETH");
    assert !IsProperSuffix("XRPGBP", "BTC") && !IsProperSuffix("XRPGBP", "EUR");
    SplitWithoutKnownQuote("XRPGBP");
    assert "XRPGBP"[..3] == "XRP" && "XRPGBP"[3..] == "GBP";
  }

  /** `AB` is too short to split and is quoted in `USD`. */
  lemma SplitExampleShort()
    ensures SplitNormalised("AB") == ("AB", "USD")
  {
    SplitWithoutKnownQuote("AB");
  }

  /** The table `bootstrap_price_for_symbol` looks the upper-cased symbol up in. */
  const BootstrapPrices: map<string, real> := map[
    "BTCUSDT" := 50000.0,
    "ETHUSDT" := 3000.0,
    "ADAUSDT" := 0.8,
    "BNBUSDT" := 500.0,
    "SOLUSDT" := 120.0,
    "BTCETH" := 15.0,
    "ETHBTC" := 0.066]

  /** `bootstrap_price_for_symbol`: the table price of the upper-cased symbol,
      1.0 for a symbol not in the table; always positive, so the initial
      inventory can be divided by it. */
  function BootstrapPrice(symbol: string): (p: real)
    ensures p > 0.0
    ensures Upper(symbol) !in BootstrapPrices ==> p == 1.0
  {
    var key := Upper(symbol);
    if key in BootstrapPrices then BootstrapPrices[key] else 1.0
  }
}
