/**
 * The market pulse panel (components/market-pulse.tsx): the three strongest
 * and weakest 24h movers, the three largest volumes, and the portfolio's
 * per-holding 24h deltas.
 */
module MarketPulse {
  import opened Wrappers
  import opened Seqs
  import opened Records
  import opened Dashboard
  import opened HoldingsTable

  /** Each list shows three coins. */
  const ListSize: nat := 3

  function ChangeKey(c: Coin): real {
    c.change24h.GetOr(0.0)
  }

  /** Sorting by `a - b` is sorting by the negated key with `b - a`. */
  function DeclineKey(c: Coin): real {
    -ChangeKey(c)
  }

  function VolumeKey(c: Coin): real {
    c.totalVolume.GetOr(0.0)
  }

  predicate HasChange(c: Coin) {
    c.change24h.Some?
  }

  predicate HasVolume(c: Coin) {
    c.totalVolume.Some?
  }

  /**
   * The first `n` coins satisfying `p`, after a stable sort by descending
   * `key`: filter, sort, slice(0, n).
   */
  function TopBy(key: Coin -> real, p: Coin -> bool, coins: seq<Coin>, n: nat): (r: seq<Coin>)
    ensures |r| == Min(n, |Filter(p, coins)|)
    ensures forall i :: 0 <= i < |r| ==> p(r[i])
    ensures SortedDesc(key, r)
  {
    var sorted := SortDesc(key, Filter(p, coins));
    assert forall i :: 0 <= i < |sorted| ==> p(sorted[i]) by {
      forall i | 0 <= i < |sorted|
        ensures p(sorted[i])
      {
        assert sorted[i] in multiset(Filter(p, coins));
      }
    }
    Take(sorted, n)
  }

  /** The shown coins are the first ones of the sorted candidates. */
  lemma TopByPrefix(key: Coin -> real, p: Coin -> bool, coins: seq<Coin>, n: nat)
    ensures TopBy(key, p, coins, n) == SortDesc(key, Filter(p, coins))[..|TopBy(key, p, coins, n)|]
  {
  }

  /** TopBy's coins come from the list, each at most as often as there. */
  lemma TopByFromList(key: Coin -> real, p: Coin -> bool, coins: seq<Coin>, n: nat)
    ensures multiset(TopBy(key, p, coins, n)) <= multiset(coins)
    ensures |Filter(p, coins)| <= n ==> multiset(TopBy(key, p, coins, n)) == multiset(Filter(p, coins))
  {
    var f := Filter(p, coins);
    var sorted := SortDesc(key, f);
    var r := TopBy(key, p, coins, n);
    TopByPrefix(key, p, coins, n);
    FilterMultiset(p, coins);
    assert sorted == r + sorted[|r|..];
    assert multiset(r) <= multiset(sorted);
    assert multiset(f) <= multiset(coins);
    if |f| <= n {
      assert r == sorted;
    }
  }

  /**
   * TopBy really picks the top: the coins shown come from the list, any
   * qualifying coin left out ranks no higher than every coin shown, and with
   * at most `n` qualifying coins all are shown.
   */
  lemma TopByIsTop(key: Coin -> real, p: Coin -> bool, coins: seq<Coin>, n: nat)
    ensures forall i :: 0 <= i < |TopBy(key, p, coins, n)| ==> TopBy(key, p, coins, n)[i] in coins
    ensures forall c :: c in coins && p(c) ==>
              c in TopBy(key, p, coins, n)
              || forall i :: 0 <= i < |TopBy(key, p, coins, n)| ==> key(TopBy(key, p, coins, n)[i]) >= key(c)
    ensures |Filter(p, coins)| <= n ==> forall c :: c in coins && p(c) ==> c in TopBy(key, p, coins, n)
  {
    TopByDrawn(key, p, coins, n);
    TopByRanks(key, p, coins, n);
  }

  /** The shown coins are in the list, and all qualifying coins are shown when there are at most `n`. */
  lemma TopByDrawn(key: Coin -> real, p: Coin -> bool, coins: seq<Coin>, n: nat)
    ensures forall i :: 0 <= i < |TopBy(key, p, coins, n)| ==> TopBy(key, p, coins, n)[i] in coins
    ensures |Filter(p, coins)| <= n ==> forall c :: c in coins && p(c) ==> c in TopBy(key, p, coins, n)
  {
    var r := TopBy(key, p, coins, n);
    TopByFromList(key, p, coins, n);
    FilterMultiset(p, coins);
    forall i | 0 <= i < |r|
      ensures r[i] in coins
    {
      assert r[i] in multiset(r);
    }
    if |Filter(p, coins)| <= n {
      forall c | c in coins && p(c)
        ensures c in r
      {
        assert c in multiset(Filter(p, coins));
      }
    }
  }

  /** Any qualifying coin left out ranks no higher than every coin shown. */
  lemma TopByRanks(key: Coin -> real, p: Coin -> bool, coins: seq<Coin>, n: nat)
    ensures forall c :: c in coins && p(c) ==>
              c in TopBy(key, p, coins, n)
              || forall i :: 0 <= i < |TopBy(key, p, coins, n)| ==> key(TopBy(key, p, coins, n)[i]) >= key(c)
  {
    var f := Filter(p, coins);
    var sorted := SortDesc(key, f);
    var r := TopBy(key, p, coins, n);
    TopByPrefix(key, p, coins, n);
    FilterMultiset(p, coins);
    forall c | c in coins && p(c)
      ensures c in r || forall i :: 0 <= i < |r| ==> key(r[i]) >= key(c)
    {
      assert c in multiset(f);
      assert c in multiset(sorted);
      var j :| 0 <= j < |sorted| && sorted[j] == c;
      if j >= |r| {
        forall i | 0 <= i < |r|
          ensures key(r[i]) >= key(c)
        {
          assert r[i] == sorted[i];
        }
      } else {
        assert r[j] == c;
      }
    }
  }

  /** Coins tied on the key keep their list order (the sort is stable). */
  lemma TopByStable(key: Coin -> real, p: Coin -> bool, coins: seq<Coin>, k: real)
    ensures Filter(KeyIs(key, k), SortDesc(key, Filter(p, coins))) == Filter(KeyIs(key, k), Filter(p, coins))
  {
    SortDescStable(key, Filter(p, coins), k);
  }

  /** gainers: the three largest 24h changes among coins that report one. */
  function Gainers(coins: seq<Coin>): (r: seq<Coin>)
    ensures |r| == Min(ListSize, |Filter(HasChange, coins)|)
    ensures forall i :: 0 <= i < |r| ==> HasChange(r[i])
    ensures forall i, j :: 0 <= i < j < |r| ==> ChangeKey(r[i]) >= ChangeKey(r[j])
    ensures multiset(r) <= multiset(coins)
  {
    TopByFromList(ChangeKey, HasChange, coins, ListSize);
    TopBy(ChangeKey, HasChange, coins, ListSize)
  }

  /** decliners: the three smallest 24h changes among coins that report one. */
  function Decliners(coins: seq<Coin>): (r: seq<Coin>)
    ensures |r| == Min(ListSize, |Filter(HasChange, coins)|)
    ensures forall i :: 0 <= i < |r| ==> HasChange(r[i])
    ensures forall i, j :: 0 <= i < j < |r| ==> ChangeKey(r[i]) <= ChangeKey(r[j])
    ensures multiset(r) <= multiset(coins)
  {
    TopByFromList(DeclineKey, HasChange, coins, ListSize);
    var r := TopBy(DeclineKey, HasChange, coins, ListSize);
    assert forall i, j :: 0 <= i < j < |r| ==> DeclineKey(r[i]) >= DeclineKey(r[j]);
    r
  }

  /** volumeLeaders: the three largest 24h volumes among coins that report one. */
  function VolumeLeaders(coins: seq<Coin>): (r: seq<Coin>)
    ensures |r| == Min(ListSize, |Filter(HasVolume, coins)|)
    ensures forall i :: 0 <= i < |r| ==> HasVolume(r[i])
    ensures forall i, j :: 0 <= i < j < |r| ==> VolumeKey(r[i]) >= VolumeKey(r[j])
    ensures multiset(r) <= multiset(coins)
  {
    TopByFromList(VolumeKey, HasVolume, coins, ListSize);
    TopBy(VolumeKey, HasVolume, coins, ListSize)
  }

  /**
   * No coin reporting a change beats the gainers shown, and none undercuts
   * the decliners shown, unless it is itself on the list.
   */
  lemma MoversAreExtremes(coins: seq<Coin>, c: Coin)
    requires c in coins && HasChange(c)
    ensures c in Gainers(coins) || forall i :: 0 <= i < |Gainers(coins)| ==> ChangeKey(Gainers(coins)[i]) >= ChangeKey(c)
    ensures c in Decliners(coins) || forall i :: 0 <= i < |Decliners(coins)| ==> ChangeKey(Decliners(coins)[i]) <= ChangeKey(c)
    ensures multiset(Gainers(coins)) <= multiset(coins) && multiset(Decliners(coins)) <= multiset(coins)
  {
    TopByIsTop(ChangeKey, HasChange, coins, ListSize);
    TopByIsTop(DeclineKey, HasChange, coins, ListSize);
  }

  /** No coin reporting a volume outranks the volume leaders shown, unless it is one. */
  lemma VolumeLeadersAreTop(coins: seq<Coin>, c: Coin)
    requires c in coins && HasVolume(c)
    ensures c in VolumeLeaders(coins)
            || forall i :: 0 <= i < |VolumeLeaders(coins)| ==> VolumeKey(VolumeLeaders(coins)[i]) >= VolumeKey(c)
    ensures multiset(VolumeLeaders(coins)) <= multiset(coins)
  {
    TopByIsTop(VolumeKey, HasVolume, coins, ListSize);
    TopByFromList(VolumeKey, HasVolume, coins, ListSize);
  }

  /** One line of the portfolio's 24h coverage. */
  datatype CoverageEntry = CoverageEntry(id: string, symbol: string, delta: real, price: real)

  /** coverage: each holding's id and symbol with its quote's 24h change and price, 0 without a quote. */
  function Coverage(portfolio: seq<Enriched>): (r: seq<CoverageEntry>)
    ensures |r| == |portfolio|
    ensures forall i :: 0 <= i < |r| ==>
              r[i].id == portfolio[i].holding.id && r[i].symbol == portfolio[i].holding.symbol
    ensures forall i :: 0 <= i < |r| && portfolio[i].market.None? ==> r[i].delta == 0.0 && r[i].price == 0.0
  {
    seq(|portfolio|, i requires 0 <= i < |portfolio| =>
      var e := portfolio[i];
      CoverageEntry(e.holding.id, e.holding.symbol, QuoteChange(e.market), QuotePrice(e.market)))
  }

  /** The coverage line of a holding shows the same price and 24h change as its table row. */
  lemma CoverageAgreesWithTable(portfolio: seq<Enriched>, totalValue: real)
    ensures forall i :: 0 <= i < |portfolio| ==>
              Coverage(portfolio)[i].price == Valuate(portfolio[i], totalValue).price
              && Coverage(portfolio)[i].delta == Valuate(portfolio[i], totalValue).dailyPct
  {
  }

  /**
   * Over holdings joined with quotes whose ids are unique, a holding with a
   * quote covers that quote's price and change (0 when the quote reports none).
   */
  lemma CoverageOfEnriched(holdings: seq<Holding>, coins: seq<Coin>, i: nat, j: nat)
    requires forall a, b :: 0 <= a < b < |coins| ==> coins[a].id != coins[b].id
    requires i < |holdings| && j < |coins| && coins[j].id == holdings[i].id
    ensures Coverage(Enrich(holdings, coins))[i].price == coins[j].currentPrice
    ensures Coverage(Enrich(holdings, coins))[i].delta == coins[j].change24h.GetOr(0.0)
  {
    CoinsByIdUnique(coins);
    assert holdings[i].id in CoinIds(coins);
  }
}
