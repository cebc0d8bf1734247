/** The market state of the `app/` dashboard (app/src/hooks/useMarketData.ts):
    a reducer that moves every price by a small random step and re-ranks all
    assets, and the one-time ranking made when the hook mounts. The two
    `Math.random()` results each asset consumes, and the one for the BTC
    dominance, are parameters; so is the rounding `parseFloat(x.toFixed(2))`. */
module AppMarketData {
  import opened Wrappers
  import opened Sequences
  import opened Sorting

  datatype Asset = Asset(
    symbol: string,
    name: string,
    price: real,
    change24h: real,
    volume: Option<string>,
    marketCap: Option<string>)

  datatype MarketData = MarketData(
    crypto: seq<Asset>,
    stocks: seq<Asset>,
    btcDominance: real,
    totalMarketCap: string,
    topGainers: seq<Asset>,
    topLosers: seq<Asset>)

  /** Number of entries in each of the two ranking lists. */
  const RankSize := 3

  function Abs(x: real): real { if x < 0.0 then -x else x }

  /** Relative price volatility per tick: BTC and ETH move less than the rest. */
  function Volatility(symbol: string): (v: real)
    ensures 0.0 < v <= 0.005
    ensures symbol == "BTC" ==> v == 0.002
    ensures symbol == "ETH" ==> v == 0.003
    ensures symbol != "BTC" && symbol != "ETH" ==> v == 0.005
  {
    if symbol == "BTC" then 0.002 else if symbol == "ETH" then 0.003 else 0.005
  }

  /** The two draws from [0, 1) an asset consumes per tick. */
  datatype AssetDraw = AssetDraw(price: real, change: real)

  predicate ValidDraw(d: AssetDraw)
  {
    0.0 <= d.price < 1.0 && 0.0 <= d.change < 1.0
  }

  /** The new price before any rounding: `price * (1 + (r - 0.5) * v)`. */
  function NextPrice(a: Asset, r: real): (p: real)
    requires 0.0 <= r < 1.0
    ensures Abs(p - a.price) <= Abs(a.price) * Volatility(a.symbol) / 2.0
    ensures a.price > 0.0 ==> p > 0.0
  {
    var v := Volatility(a.symbol);
    var step := (r - 0.5) * v;
    StepBound(r, v);
    ScaledBound(a.price, step, v / 2.0);
    a.price * (1.0 + step)
  }

  lemma StepBound(r: real, v: real)
    requires 0.0 <= r < 1.0 && 0.0 < v <= 0.005
    ensures Abs((r - 0.5) * v) <= v / 2.0
  {
    if r >= 0.5 {
      assert (r - 0.5) * v <= 0.5 * v;
    } else {
      assert (0.5 - r) * v <= 0.5 * v;
    }
  }

  /** Multiplying by `1 + step` moves `x` by at most `|x| * b` when `|step| <= b`;
      for b below 1 it keeps a positive `x` positive. */
  lemma ScaledBound(x: real, step: real, b: real)
    requires Abs(step) <= b < 1.0
    ensures Abs(x * (1.0 + step) - x) <= Abs(x) * b
    ensures x > 0.0 ==> x * (1.0 + step) > 0.0
  {
    assert x * (1.0 + step) - x == x * step;
    if x >= 0.0 {
      if step >= 0.0 {
        assert x * step <= x * b;
      } else {
        assert x * -step <= x * b;
      }
    } else {
      if step >= 0.0 {
        assert -x * step <= -x * b;
      } else {
        assert -x * -step <= -x * b;
      }
    }
    if x > 0.0 {
      assert 1.0 + step > 0.0;
      assert x * (1.0 + step) > 0.0;
    }
  }

  /** The 24-hour change before it is rounded to two decimals. */
  function NextChange(a: Asset, r: real): (c: real)
    requires 0.0 <= r < 1.0
    ensures Abs(c - a.change24h) <= 0.05
  {
    a.change24h + (r - 0.5) * 0.1
  }

  /** `updateAsset`: only the price and the 24-hour change are replaced. */
  function UpdateAsset(a: Asset, d: AssetDraw, round2: real -> real): (r: Asset)
    requires ValidDraw(d)
    ensures r == a.(price := r.price, change24h := r.change24h)
    ensures Abs(r.price - a.price) <= Abs(a.price) * Volatility(a.symbol) / 2.0
    ensures a.price > 0.0 ==> r.price > 0.0
    ensures r.change24h == round2(NextChange(a, d.change))
  {
    a.(price := NextPrice(a, d.price), change24h := round2(NextChange(a, d.change)))
  }

  predicate ValidDraws(ds: seq<AssetDraw>)
  {
    forall i :: 0 <= i < |ds| ==> ValidDraw(ds[i])
  }

  /** The same listing: everything but price and change is equal. */
  predicate SameListing(a: Asset, b: Asset)
  {
    a.symbol == b.symbol && a.name == b.name && a.volume == b.volume && a.marketCap == b.marketCap
  }

  /** The same assets, position by position, whatever their prices. */
  predicate SameListings(xs: seq<Asset>, ys: seq<Asset>)
  {
    |xs| == |ys| && forall i :: 0 <= i < |xs| ==> SameListing(xs[i], ys[i])
  }

  /** `assets.map(updateAsset)`, one pair of draws per asset. */
  function UpdateAll(assets: seq<Asset>, ds: seq<AssetDraw>, round2: real -> real): (r: seq<Asset>)
    requires |ds| == |assets| && ValidDraws(ds)
    ensures |r| == |assets|
    ensures forall i :: 0 <= i < |r| ==>
      Abs(r[i].price - assets[i].price) <= Abs(assets[i].price) * Volatility(assets[i].symbol) / 2.0
    ensures forall i :: 0 <= i < |r| ==> r[i].change24h == round2(NextChange(assets[i], ds[i].change))
    ensures forall i :: 0 <= i < |r| ==> SameListing(r[i], assets[i])
    ensures forall i :: 0 <= i < |r| && assets[i].price > 0.0 ==> r[i].price > 0.0
  {
    seq(|assets|, i requires 0 <= i < |assets| => UpdateAsset(assets[i], ds[i], round2))
  }

  function NegatedChange(a: Asset): real { -a.change24h }

  /** All assets, highest 24-hour change first; ties keep crypto-then-stocks order. */
  function ByChange(all: seq<Asset>): (r: seq<Asset>)
    ensures |r| == |all| && multiset(r) == multiset(all)
    ensures SortedBy(r, NegatedChange)
  {
    SortBy(all, NegatedChange)
  }

  lemma GainersFacts(all: seq<Asset>)
    ensures var r := SliceTo(ByChange(all), RankSize);
      && |r| == (if |all| < RankSize then |all| else RankSize)
      && (forall i, j :: 0 <= i < j < |r| ==> r[i].change24h >= r[j].change24h)
      && multiset(r) <= multiset(all)
  {
    var s := ByChange(all);
    var r := SliceTo(s, RankSize);
    SliceToMultiset(s, RankSize);
    SortedPrefix(s, NegatedChange, |r|);
    forall i, j | 0 <= i < j < |r|
      ensures r[i].change24h >= r[j].change24h
    {
      assert NegatedChange(r[i]) <= NegatedChange(r[j]);
    }
  }

  /** `sortedByChange.slice(0, 3)` */
  function TopGainers(all: seq<Asset>): (r: seq<Asset>)
    ensures |r| == if |all| < RankSize then |all| else RankSize
    ensures forall i, j :: 0 <= i < j < |r| ==> r[i].change24h >= r[j].change24h
    ensures multiset(r) <= multiset(all)
  {
    GainersFacts(all);
    SliceTo(ByChange(all), RankSize)
  }

  /** Reading a list sorted by descending change backwards gives ascending change. */
  lemma ReversedAscending(t: seq<Asset>)
    requires SortedBy(t, NegatedChange)
    ensures var r := Reverse(t);
      forall i, j :: 0 <= i < j < |r| ==> r[i].change24h <= r[j].change24h
  {
    var r := Reverse(t);
    forall i, j | 0 <= i < j < |r|
      ensures r[i].change24h <= r[j].change24h
    {
      assert r[i] == t[|t| - 1 - i] && r[j] == t[|t| - 1 - j];
      assert NegatedChange(t[|t| - 1 - j]) <= NegatedChange(t[|t| - 1 - i]);
    }
  }

  lemma ReversedTailAscending(s: seq<Asset>, n: nat)
    requires SortedBy(s, NegatedChange)
    requires n > 0
    ensures var r := Reverse(LastN(s, n));
      forall i, j :: 0 <= i < j < |r| ==> r[i].change24h <= r[j].change24h
  {
    var tail := LastN(s, n);
    var m := |s| - |tail|;
    assert tail == s[m..];
    SortedSuffix(s, NegatedChange, m);
    ReversedAscending(tail);
  }

  lemma ReversedTailMultiset(s: seq<Asset>, n: nat)
    requires n > 0
    ensures multiset(Reverse(LastN(s, n))) <= multiset(s)
  {
    var tail := LastN(s, n);
    var m := |s| - |tail|;
    assert multiset(s) == multiset(s[..m]) + multiset(tail);
  }

  lemma LosersFacts(all: seq<Asset>)
    ensures var r := Reverse(LastN(ByChange(all), RankSize));
      && |r| == (if |all| < RankSize then |all| else RankSize)
      && (forall i, j :: 0 <= i < j < |r| ==> r[i].change24h <= r[j].change24h)
      && multiset(r) <= multiset(all)
  {
    var s := ByChange(all);
    ReversedTailAscending(s, RankSize);
    ReversedTailMultiset(s, RankSize);
  }

  /** `sortedByChange.slice(-3).reverse()`: the lowest change comes first. */
  function TopLosers(all: seq<Asset>): (r: seq<Asset>)
    ensures |r| == if |all| < RankSize then |all| else RankSize
    ensures forall i, j :: 0 <= i < j < |r| ==> r[i].change24h <= r[j].change24h
    ensures multiset(r) <= multiset(all)
  {
    LosersFacts(all);
    Reverse(LastN(ByChange(all), RankSize))
  }

  /** Assets with equal change keep their crypto-then-stocks order. */
  lemma RankingTiesKeepOrder(all: seq<Asset>, k: real)
    ensures WithKey(ByChange(all), NegatedChange, k) == WithKey(all, NegatedChange, k)
  {
    SortByStable(all, NegatedChange, k);
  }

  /** No asset left off the gainers list has a higher change than one on it. */
  lemma GainersAreTop(all: seq<Asset>, x: Asset, y: Asset)
    requires x in TopGainers(all)
    requires y in multiset(all) - multiset(TopGainers(all))
    ensures y.change24h <= x.change24h
  {
    var s := ByChange(all);
    PrefixBelowRest(s, NegatedChange, SliceEnd(|s|, RankSize), x, y);
  }

  /** No asset left off the losers list has a lower change than one on it. */
  lemma LosersAreBottom(all: seq<Asset>, x: Asset, y: Asset)
    requires y in TopLosers(all)
    requires x in multiset(all) - multiset(TopLosers(all))
    ensures y.change24h <= x.change24h
  {
    var s := ByChange(all);
    var tail := LastN(s, RankSize);
    var n := |s| - |tail|;
    assert s == s[..n] + tail;
    assert multiset(s) == multiset(s[..n]) + multiset(tail);
    assert multiset(TopLosers(all)) == multiset(tail);
    assert x in multiset(s[..n]);
    assert y in multiset(tail);
    PrefixBelowRest(s, NegatedChange, n, x, y);
  }

  /** The ranking of all assets, crypto first, as both effects compute it. */
  function Ranked(m: MarketData): (r: MarketData)
    ensures r.crypto == m.crypto && r.stocks == m.stocks
    ensures r.btcDominance == m.btcDominance && r.totalMarketCap == m.totalMarketCap
    ensures r.topGainers == TopGainers(m.crypto + m.stocks)
    ensures r.topLosers == TopLosers(m.crypto + m.stocks)
  {
    var all := m.crypto + m.stocks;
    m.(topGainers := TopGainers(all), topLosers := TopLosers(all))
  }

  /** BTC dominance drifts by `(r - 0.5) * 0.05` per tick. */
  function NextDominance(dominance: real, r: real): (d: real)
    requires 0.0 <= r < 1.0
    ensures Abs(d - dominance) <= 0.025
  {
    dominance + (r - 0.5) * 0.05
  }

  /** The price step of `updatePrices`: every asset moves, the dominance
      drifts, and the ranking lists are not yet rebuilt. */
  function Tick(prev: MarketData, cryptoDraws: seq<AssetDraw>, stockDraws: seq<AssetDraw>,
                dominanceDraw: real, round2: real -> real): (next: MarketData)
    requires |cryptoDraws| == |prev.crypto| && ValidDraws(cryptoDraws)
    requires |stockDraws| == |prev.stocks| && ValidDraws(stockDraws)
    requires 0.0 <= dominanceDraw < 1.0
    ensures |next.crypto| == |prev.crypto| && |next.stocks| == |prev.stocks|
    ensures SameListings(next.crypto, prev.crypto)
    ensures SameListings(next.stocks, prev.stocks)
    ensures next.totalMarketCap == prev.totalMarketCap
    ensures Abs(next.btcDominance - prev.btcDominance) <= 0.025
    ensures next.crypto == UpdateAll(prev.crypto, cryptoDraws, round2)
    ensures next.stocks == UpdateAll(prev.stocks, stockDraws, round2)
  {
    MarketData(UpdateAll(prev.crypto, cryptoDraws, round2), UpdateAll(prev.stocks, stockDraws, round2),
               NextDominance(prev.btcDominance, dominanceDraw), prev.totalMarketCap,
               prev.topGainers, prev.topLosers)
  }

  /** `updatePrices`: the reducer applied every tick. */
  function UpdatePrices(prev: MarketData, cryptoDraws: seq<AssetDraw>, stockDraws: seq<AssetDraw>,
                        dominanceDraw: real, round2: real -> real): (next: MarketData)
    requires |cryptoDraws| == |prev.crypto| && ValidDraws(cryptoDraws)
    requires |stockDraws| == |prev.stocks| && ValidDraws(stockDraws)
    requires 0.0 <= dominanceDraw < 1.0
    ensures |next.crypto| == |prev.crypto| && |next.stocks| == |prev.stocks|
    ensures SameListings(next.crypto, prev.crypto)
    ensures SameListings(next.stocks, prev.stocks)
    ensures next.totalMarketCap == prev.totalMarketCap
    ensures Abs(next.btcDominance - prev.btcDominance) <= 0.025
    ensures next.crypto == UpdateAll(prev.crypto, cryptoDraws, round2)
    ensures next.stocks == UpdateAll(prev.stocks, stockDraws, round2)
    ensures next.topGainers == TopGainers(next.crypto + next.stocks)
    ensures next.topLosers == TopLosers(next.crypto + next.stocks)
  {
    var ticked := Tick(prev, cryptoDraws, stockDraws, dominanceDraw, round2);
    Ranked(ticked)
  }

  const InitialCrypto: seq<Asset> := [
    Asset("BTC", "Bitcoin", 67420.50, 2.4, Some("34.2B"), Some("1.32T")),
    Asset("ETH", "Ethereum", 3540.25, 1.8, Some("18.5B"), Some("425B")),
    Asset("SOL", "Solana", 148.75, 4.1, Some("4.2B"), Some("68B")),
    Asset("AVAX", "Avalanche", 28.40, -1.2, Some("890M"), Some("11B")),
    Asset("ARB", "Arbitrum", 0.85, 3.5, Some("245M"), Some("2.8B")),
    Asset("OP", "Optimism", 1.45, -0.8, Some("156M"), Some("1.5B"))
  ]

  const InitialStocks: seq<Asset> := [
    Asset("SPX", "S&P 500", 5980.25, 0.6, Some("2.1B"), None),
    Asset("NDX", "Nasdaq 100", 21400.80, 0.8, Some("4.5B"), None),
    Asset("GLD", "Gold", 2485.50, -0.2, Some("12M"), None),
    Asset("DXY", "US Dollar Index", 103.25, 0.1, Some("45K"), None),
    Asset("TNX", "10Y Treasury", 4.25, -0.05, Some("890K"), None),
    Asset("VIX", "Volatility Index", 14.8, -2.1, Some("2.3M"), None)
  ]

  /** The state before the mount effect runs: both ranking lists are empty. */
  const Initial := MarketData(InitialCrypto, InitialStocks, 52.4, "2.48T", [], [])

  /** The initial data: six coins with a market cap, six indices without one,
      every price positive, so every later price is positive too. */
  lemma InitialListings()
    ensures |InitialCrypto| == 6 && |InitialStocks| == 6
    ensures forall i :: 0 <= i < |InitialCrypto| ==> InitialCrypto[i].price > 0.0 && InitialCrypto[i].marketCap.Some?
    ensures forall i :: 0 <= i < |InitialStocks| ==> InitialStocks[i].price > 0.0 && InitialStocks[i].marketCap.None?
    ensures Initial.btcDominance == 52.4 && Initial.totalMarketCap == "2.48T"
  {
  }

  /** Before the mount effect both lists are empty; it fills each with three
      assets ranked from the initial data. */
  lemma MountFillsRankings()
    ensures Initial.topGainers == [] && Initial.topLosers == []
    ensures |Ranked(Initial).topGainers| == RankSize && |Ranked(Initial).topLosers| == RankSize
  {
    assert |Initial.crypto + Initial.stocks| == 12;
  }
}
