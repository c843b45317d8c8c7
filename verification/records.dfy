/**
 * The records the components exchange. Their TypeScript declarations live in
 * lib/portfolio, which is not part of this model; the fields here are the
 * ones the components read and write.
 */
module Records {
  import opened Wrappers

  /**
   * A market quote (CoinMarket): `change24h` is
   * price_change_percentage_24h_in_currency and `totalVolume` is
   * total_volume; both may be missing from a quote.
   */
  datatype Coin = Coin(
    id: string,
    symbol: string,
    name: string,
    image: string,
    currentPrice: real,
    change24h: Option<real>,
    totalVolume: Option<real>)

  /** A recorded position (PortfolioHolding); `note` is optional. */
  datatype Holding = Holding(
    id: string,
    symbol: string,
    name: string,
    image: string,
    amount: real,
    purchasePrice: real,
    note: Option<string>,
    addedAt: string)

  /** A holding joined with the quote for its id, if any (HoldingWithMarket). */
  datatype Enriched = Enriched(holding: Holding, market: Option<Coin>)

  /** `market?.current_price ?? 0`. */
  function QuotePrice(market: Option<Coin>): real {
    match market
    case Some(c) => c.currentPrice
    case None => 0.0
  }

  /** `market?.price_change_percentage_24h_in_currency ?? 0`. */
  function QuoteChange(market: Option<Coin>): real {
    match market
    case Some(c) => c.change24h.GetOr(0.0)
    case None => 0.0
  }

  /** No two holdings share an id. */
  predicate UniqueIds(s: seq<Holding>) {
    forall i, j :: 0 <= i < j < |s| ==> s[i].id != s[j].id
  }

  /** The ids present in a holding list. */
  function Ids(s: seq<Holding>): set<string> {
    set i | 0 <= i < |s| :: s[i].id
  }

  /** `note || fallback`: an absent or empty note is falsy in JavaScript. */
  function NoteOr(note: Option<string>, fallback: Option<string>): Option<string> {
    if note.Some? && note.value != [] then note else fallback
  }
}
