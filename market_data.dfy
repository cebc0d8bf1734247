/** The selectors of the `src/` dashboard's market hook
    (src/hooks/use-market-data.ts): symbol lookup, top gainers and losers,
    and the three sector lists. Each takes the current coin list as a plain
    sequence; fetching and polling are not part of this module. */
module MarketData {
  import opened Wrappers
  import opened Text
  import opened Sequences
  import opened Sorting

  /** One coin as delivered by the markets endpoint (`CryptoData`). */
  datatype Coin = Coin(
    id: string,
    symbol: string,
    name: string,
    currentPrice: real,
    change24h: real,
    marketCap: real,
    totalVolume: real,
    image: string,
    sparkline: Option<seq<real>>)

  /** The `limit` every list selector uses when called without one. */
  const DefaultLimit := 5

  predicate SymbolIs(c: Coin, symbol: string)
  {
    Lower(c.symbol) == Lower(symbol)
  }

  /** `getCoinData`: the first coin whose symbol matches case-insensitively. */
  function GetCoinData(coins: seq<Coin>, symbol: string): (r: Option<Coin>)
    ensures r.None? <==> forall i :: 0 <= i < |coins| ==> !SymbolIs(coins[i], symbol)
    ensures r.Some? ==> exists i :: 0 <= i < |coins| && coins[i] == r.value && SymbolIs(coins[i], symbol)
                                   && forall j :: 0 <= j < i ==> !SymbolIs(coins[j], symbol)
  {
    if coins == [] then None
    else if SymbolIs(coins[0], symbol) then
      Some(coins[0])
    else
      var r := GetCoinData(coins[1..], symbol);
      assert forall i :: 1 <= i < |coins| ==> coins[i] == coins[1..][i - 1];
      if r.Some? then
        var i :| 0 <= i < |coins[1..]| && coins[1..][i] == r.value && SymbolIs(coins[1..][i], symbol)
                 && forall j :: 0 <= j < i ==> !SymbolIs(coins[1..][j], symbol);
        assert coins[i + 1] == r.value;
        r
      else r
  }

  /** Looking a symbol up in any letter case finds the same coin. */
  lemma LookupIgnoresCase(coins: seq<Coin>, symbol: string)
    ensures GetCoinData(coins, symbol) == GetCoinData(coins, Lower(symbol))
  {
    LowerIdempotent(symbol);
    LookupSameKey(coins, symbol, Lower(symbol));
  }

  lemma {:induction false} LookupSameKey(coins: seq<Coin>, a: string, b: string)
    requires Lower(a) == Lower(b)
    ensures GetCoinData(coins, a) == GetCoinData(coins, b)
  {
    if coins != [] {
      LookupSameKey(coins[1..], a, b);
    }
  }

  predicate Rising(c: Coin) { c.change24h > 0.0 }

  predicate Falling(c: Coin) { c.change24h < 0.0 }

  function Change(c: Coin): real { c.change24h }

  function NegatedChange(c: Coin): real { -c.change24h }

  /** The rising coins, highest change first (ties in list order). */
  function RankedGainers(coins: seq<Coin>): seq<Coin>
  {
    SortBy(Filter(coins, Rising), NegatedChange)
  }

  /** The falling coins, lowest change first (ties in list order). */
  function RankedLosers(coins: seq<Coin>): seq<Coin>
  {
    SortBy(Filter(coins, Falling), Change)
  }

  lemma RankedGainersFacts(coins: seq<Coin>)
    ensures forall i :: 0 <= i < |RankedGainers(coins)| ==> Rising(RankedGainers(coins)[i])
    ensures multiset(RankedGainers(coins)) <= multiset(coins)
  {
    var ranked := RankedGainers(coins);
    FilterMultiset(coins, Rising);
    forall i | 0 <= i < |ranked|
      ensures Rising(ranked[i])
    {
      assert ranked[i] in multiset(ranked);
      FilterSatisfies(coins, Rising, ranked[i]);
    }
  }

  lemma TopGainersFacts(coins: seq<Coin>, limit: int)
    ensures var r := SliceTo(RankedGainers(coins), limit);
      && (forall i :: 0 <= i < |r| ==> r[i].change24h > 0.0)
      && (forall i, j :: 0 <= i < j < |r| ==> r[i].change24h >= r[j].change24h)
      && |r| == SliceEnd(|Filter(coins, Rising)|, limit)
      && multiset(r) <= multiset(coins)
  {
    var ranked := RankedGainers(coins);
    var r := SliceTo(ranked, limit);
    SortedPrefix(ranked, NegatedChange, SliceEnd(|ranked|, limit));
    RankedGainersFacts(coins);
    SliceToMultiset(ranked, limit);
    forall i | 0 <= i < |r|
      ensures r[i].change24h > 0.0
    {
      assert r[i] == ranked[i];
    }
    forall i, j | 0 <= i < j < |r|
      ensures r[i].change24h >= r[j].change24h
    {
      assert NegatedChange(r[i]) <= NegatedChange(r[j]);
    }
  }

  /** `getTopGainers(limit)` */
  function GetTopGainers(coins: seq<Coin>, limit: int := DefaultLimit): (r: seq<Coin>)
    ensures forall i :: 0 <= i < |r| ==> r[i].change24h > 0.0
    ensures forall i, j :: 0 <= i < j < |r| ==> r[i].change24h >= r[j].change24h
    ensures |r| == SliceEnd(|Filter(coins, Rising)|, limit)
    ensures multiset(r) <= multiset(coins)
  {
    TopGainersFacts(coins, limit);
    SliceTo(RankedGainers(coins), limit)
  }

  lemma RankedLosersFacts(coins: seq<Coin>)
    ensures forall i :: 0 <= i < |RankedLosers(coins)| ==> Falling(RankedLosers(coins)[i])
    ensures multiset(RankedLosers(coins)) <= multiset(coins)
  {
    var ranked := RankedLosers(coins);
    FilterMultiset(coins, Falling);
    forall i | 0 <= i < |ranked|
      ensures Falling(ranked[i])
    {
      assert ranked[i] in multiset(ranked);
      FilterSatisfies(coins, Falling, ranked[i]);
    }
  }

  lemma TopLosersFacts(coins: seq<Coin>, limit: int)
    ensures var r := SliceTo(RankedLosers(coins), limit);
      && (forall i :: 0 <= i < |r| ==> r[i].change24h < 0.0)
      && (forall i, j :: 0 <= i < j < |r| ==> r[i].change24h <= r[j].change24h)
      && |r| == SliceEnd(|Filter(coins, Falling)|, limit)
      && multiset(r) <= multiset(coins)
  {
    var ranked := RankedLosers(coins);
    var r := SliceTo(ranked, limit);
    SortedPrefix(ranked, Change, SliceEnd(|ranked|, limit));
    RankedLosersFacts(coins);
    SliceToMultiset(ranked, limit);
    forall i | 0 <= i < |r|
      ensures r[i].change24h < 0.0
    {
      assert r[i] == ranked[i];
    }
    forall i, j | 0 <= i < j < |r|
      ensures r[i].change24h <= r[j].change24h
    {
      assert Change(r[i]) <= Change(r[j]);
    }
  }

  /** `getTopLosers(limit)` */
  function GetTopLosers(coins: seq<Coin>, limit: int := DefaultLimit): (r: seq<Coin>)
    ensures forall i :: 0 <= i < |r| ==> r[i].change24h < 0.0
    ensures forall i, j :: 0 <= i < j < |r| ==> r[i].change24h <= r[j].change24h
    ensures |r| == SliceEnd(|Filter(coins, Falling)|, limit)
    ensures multiset(r) <= multiset(coins)
  {
    TopLosersFacts(coins, limit);
    SliceTo(RankedLosers(coins), limit)
  }

  /** Every rising coin that did not make the list has moved no more than any
      coin on it. */
  lemma GainersBeatTheRest(coins: seq<Coin>, limit: int, x: Coin, y: Coin)
    requires x in GetTopGainers(coins, limit)
    requires y in multiset(Filter(coins, Rising)) - multiset(GetTopGainers(coins, limit))
    ensures y.change24h <= x.change24h
  {
    var ranked := RankedGainers(coins);
    PrefixBelowRest(ranked, NegatedChange, SliceEnd(|ranked|, limit), x, y);
  }

  /** Every falling coin that did not make the list has dropped no more than
      any coin on it. */
  lemma LosersBeatTheRest(coins: seq<Coin>, limit: int, x: Coin, y: Coin)
    requires x in GetTopLosers(coins, limit)
    requires y in multiset(Filter(coins, Falling)) - multiset(GetTopLosers(coins, limit))
    ensures x.change24h <= y.change24h
  {
    var ranked := RankedLosers(coins);
    PrefixBelowRest(ranked, Change, SliceEnd(|ranked|, limit), x, y);
  }

  /** The sort is stable: gainers with the same change appear in list order. */
  lemma GainersTiesKeepListOrder(coins: seq<Coin>, k: real)
    ensures WithKey(RankedGainers(coins), NegatedChange, k) == WithKey(Filter(coins, Rising), NegatedChange, k)
  {
    SortByStable(Filter(coins, Rising), NegatedChange, k);
  }

  /** The sort is stable: losers with the same change appear in list order. */
  lemma LosersTiesKeepListOrder(coins: seq<Coin>, k: real)
    ensures WithKey(RankedLosers(coins), Change, k) == WithKey(Filter(coins, Falling), Change, k)
  {
    SortByStable(Filter(coins, Falling), Change, k);
  }

  /** A coin that did not move at all is in neither list. */
  lemma UnchangedCoinInNeitherList(coins: seq<Coin>, limit: int, c: Coin)
    requires c.change24h == 0.0
    ensures c !in GetTopGainers(coins, limit) && c !in GetTopLosers(coins, limit)
  {
  }

  const AiCoins: seq<string> := ["near", "rndr", "tao", "grt", "fet", "agix", "ocean", "phb"]
  const Layer1Coins: seq<string> := ["btc", "eth", "sol", "avax", "dot", "ada", "bnb"]
  const Layer2Coins: seq<string> := ["matic", "arb", "op", "imx", "manta"]

  /** Membership test of a sector: the lower-cased symbol is on the list. */
  function MemberOf(sector: seq<string>): Coin -> bool
  {
    (c: Coin) => Lower(c.symbol) in sector
  }

  /** The sector's coins in list order, cut at `limit`. */
  function Sector(coins: seq<Coin>, sector: seq<string>, limit: int): (r: seq<Coin>)
    ensures forall i :: 0 <= i < |r| ==> Lower(r[i].symbol) in sector && r[i] in coins
    ensures |r| == SliceEnd(|Filter(coins, MemberOf(sector))|, limit)
  {
    SliceTo(Filter(coins, MemberOf(sector)), limit)
  }

  /** A sector list is the whole sector of some leading part of the coin
      list: the first sector coins in list order, none skipped. */
  lemma SectorIsLeadingRun(coins: seq<Coin>, sector: seq<string>, limit: int)
    ensures exists n :: 0 <= n <= |coins| && Sector(coins, sector, limit) == Filter(coins[..n], MemberOf(sector))
  {
    var f := Filter(coins, MemberOf(sector));
    FilterTake(coins, MemberOf(sector), SliceEnd(|f|, limit));
  }

  /** When the sector holds no more than `limit` coins, all of them are listed. */
  lemma SectorBelowLimitIsComplete(coins: seq<Coin>, sector: seq<string>, limit: int)
    requires |Filter(coins, MemberOf(sector))| <= limit
    ensures Sector(coins, sector, limit) == Filter(coins, MemberOf(sector))
    ensures forall i :: 0 <= i < |coins| && Lower(coins[i].symbol) in sector ==> coins[i] in Sector(coins, sector, limit)
  {
    var f := Filter(coins, MemberOf(sector));
    assert f[..|f|] == f;
    assert forall i :: 0 <= i < |coins| && Lower(coins[i].symbol) in sector ==> MemberOf(sector)(coins[i]);
  }

  /** `getAISector(limit)` */
  function GetAISector(coins: seq<Coin>, limit: int := DefaultLimit): (r: seq<Coin>)
    ensures forall i :: 0 <= i < |r| ==> Lower(r[i].symbol) in AiCoins && r[i] in coins
    ensures limit >= 0 ==> |r| <= limit
    ensures |r| == SliceEnd(|Filter(coins, MemberOf(AiCoins))|, limit)
    ensures exists n :: 0 <= n <= |coins| && r == Filter(coins[..n], MemberOf(AiCoins))
  {
    SectorIsLeadingRun(coins, AiCoins, limit);
    Sector(coins, AiCoins, limit)
  }

  /** `getLayer1(limit)` */
  function GetLayer1(coins: seq<Coin>, limit: int := DefaultLimit): (r: seq<Coin>)
    ensures forall i :: 0 <= i < |r| ==> Lower(r[i].symbol) in Layer1Coins && r[i] in coins
    ensures limit >= 0 ==> |r| <= limit
    ensures |r| == SliceEnd(|Filter(coins, MemberOf(Layer1Coins))|, limit)
    ensures exists n :: 0 <= n <= |coins| && r == Filter(coins[..n], MemberOf(Layer1Coins))
  {
    SectorIsLeadingRun(coins, Layer1Coins, limit);
    Sector(coins, Layer1Coins, limit)
  }

  /** `getLayer2(limit)` */
  function GetLayer2(coins: seq<Coin>, limit: int := DefaultLimit): (r: seq<Coin>)
    ensures forall i :: 0 <= i < |r| ==> Lower(r[i].symbol) in Layer2Coins && r[i] in coins
    ensures limit >= 0 ==> |r| <= limit
    ensures |r| == SliceEnd(|Filter(coins, MemberOf(Layer2Coins))|, limit)
    ensures exists n :: 0 <= n <= |coins| && r == Filter(coins[..n], MemberOf(Layer2Coins))
  {
    SectorIsLeadingRun(coins, Layer2Coins, limit);
    Sector(coins, Layer2Coins, limit)
  }

  /** Called without a limit, every list holds at most five coins, and the
      gainers hold exactly five as soon as five coins are rising. */
  lemma DefaultLimitIsFive(coins: seq<Coin>)
    ensures |GetTopGainers(coins)| <= 5 && |GetTopLosers(coins)| <= 5
    ensures |GetAISector(coins)| <= 5 && |GetLayer1(coins)| <= 5 && |GetLayer2(coins)| <= 5
    ensures |Filter(coins, Rising)| >= 5 ==> |GetTopGainers(coins)| == 5
    ensures |Filter(coins, Falling)| >= 5 ==> |GetTopLosers(coins)| == 5
  {
  }
}
