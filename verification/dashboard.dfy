/**
 * The portfolio state transitions of the dashboard (components/portfolio-dashboard.tsx):
 * adding a lot (merging it into an existing position with a cost-weighted
 * average price), patching a holding, removing one, resetting, and joining
 * holdings with the latest market quotes.
 */
module Dashboard {
  import opened Wrappers
  import opened Seqs
  import opened Rounding
  import opened Arith
  import opened Records

  /** Amounts are stored through `toFixed(8)`, prices through `toFixed(4)`. */
  const AmountDigits: nat := 8
  const PriceDigits: nat := 4

  // ---------------------------------------------------------------------------
  // Merging two lots
  // ---------------------------------------------------------------------------

  /**
   * The cost-weighted average price of two lots before rounding, or 0 when the
   * combined amount is not positive.
   */
  function AveragePrice(a1: real, p1: real, a2: real, p2: real): (r: real)
    ensures a1 + a2 > 0.0 ==> r * (a1 + a2) == a1 * p1 + a2 * p2
    ensures a1 + a2 <= 0.0 ==> r == 0.0
  {
    var total := a1 + a2;
    if total > 0.0 then (a1 * p1 + a2 * p2) / total else 0.0
  }

  lemma MulMonotone(x: real, y: real, t: real)
    requires x <= y && t >= 0.0
    ensures x * t <= y * t
  {
  }

  lemma Distrib(p: real, a1: real, a2: real)
    ensures p * (a1 + a2) == p * a1 + p * a2
  {
  }

  lemma DivBetween(c: real, t: real, lo: real, hi: real)
    requires t > 0.0 && lo * t <= c <= hi * t
    ensures lo <= c / t <= hi
  {
  }

  /** The average of two lots with non-negative amounts lies between their prices. */
  lemma AverageBetween(a1: real, p1: real, a2: real, p2: real)
    requires a1 >= 0.0 && a2 >= 0.0 && a1 + a2 > 0.0
    requires p1 <= p2
    ensures p1 <= AveragePrice(a1, p1, a2, p2) <= p2
  {
    MulMonotone(p1, p2, a2);
    MulMonotone(p1, p2, a1);
    Distrib(p1, a1, a2);
    Distrib(p2, a1, a2);
    assert a1 * p1 == p1 * a1 && a2 * p2 == p2 * a2;
    DivBetween(a1 * p1 + a2 * p2, a1 + a2, p1, p2);
  }

  /** The order in which two lots are merged does not change the average. */
  lemma AverageSymmetric(a1: real, p1: real, a2: real, p2: real)
    ensures AveragePrice(a1, p1, a2, p2) == AveragePrice(a2, p2, a1, p1)
  {
    assert a1 + a2 == a2 + a1;
    assert a1 * p1 + a2 * p2 == a2 * p2 + a1 * p1;
  }

  /** Merging a lot at the position's own price keeps that price. */
  lemma AverageSamePrice(a1: real, a2: real, p: real)
    requires a1 + a2 > 0.0
    ensures AveragePrice(a1, p, a2, p) == p
  {
    assert a1 * p + a2 * p == (a1 + a2) * p;
  }

  /**
   * Merging three lots gives the same unrounded price whichever pair is
   * merged first: both ways the price is the total cost over the total amount.
   */
  lemma AverageAssociative(a1: real, p1: real, a2: real, p2: real, a3: real, p3: real)
    requires a1 > 0.0 && a2 > 0.0 && a3 > 0.0
    ensures AveragePrice(a1 + a2, AveragePrice(a1, p1, a2, p2), a3, p3)
            == AveragePrice(a1, p1, a2 + a3, AveragePrice(a2, p2, a3, p3))
  {
    var left := AveragePrice(a1, p1, a2, p2);
    var right := AveragePrice(a2, p2, a3, p3);
    var total := a1 + a2 + a3;
    var x := AveragePrice(a1 + a2, left, a3, p3);
    var y := AveragePrice(a1, p1, a2 + a3, right);
    assert x * total == a1 * p1 + a2 * p2 + a3 * p3 by {
      assert x * (a1 + a2 + a3) == (a1 + a2) * left + a3 * p3;
    }
    assert y * total == a1 * p1 + a2 * p2 + a3 * p3 by {
      assert y * (a1 + (a2 + a3)) == a1 * p1 + (a2 + a3) * right;
    }
    Cancel(x, y, total);
  }

  /**
   * The entry that replaces `item` when `incoming` is added while `existing`
   * (the first holding with the same id) is already recorded: the amounts are
   * summed and stored through toFixed(8), the price is the cost-weighted
   * average stored through toFixed(4), a non-empty incoming note wins over the
   * item's own note, and the timestamp becomes the incoming one.
   */
  function MergedEntry(item: Holding, existing: Holding, incoming: Holding): (r: Holding)
    ensures r.id == item.id && r.symbol == item.symbol && r.name == item.name && r.image == item.image
    ensures r.addedAt == incoming.addedAt
    ensures incoming.note.Some? && incoming.note.value != [] ==> r.note == incoming.note
    ensures incoming.note.None? || incoming.note.value == [] ==> r.note == item.note
  {
    item.(
      amount := RoundTo(existing.amount + incoming.amount, AmountDigits),
      purchasePrice := RoundTo(AveragePrice(existing.amount, existing.purchasePrice,
                                            incoming.amount, incoming.purchasePrice), PriceDigits),
      note := NoteOr(incoming.note, item.note),
      addedAt := incoming.addedAt)
  }

  /**
   * The merged amount is the sum of the two amounts up to half a unit of the
   * eighth decimal place (and exactly the sum from 10^21 up, where toFixed
   * does not round).
   */
  lemma MergedAmountNear(item: Holding, existing: Holding, incoming: Holding)
    ensures var sum := existing.amount + incoming.amount;
            var m := MergedEntry(item, existing, incoming).amount;
            (Abs(sum) < ToFixedLimit ==> Abs(Scaled(m, AmountDigits) - Scaled(sum, AmountDigits)) <= 0.5)
            && (Abs(sum) >= ToFixedLimit ==> m == sum)
  {
  }

  /**
   * The merged price is the cost-weighted average of the two lots, stored on
   * the four-decimal grid within half a unit of its fourth decimal place (and
   * exactly the average from 10^21 up, where toFixed does not round).
   */
  lemma MergedPriceNear(item: Holding, existing: Holding, incoming: Holding)
    ensures var avg := AveragePrice(existing.amount, existing.purchasePrice, incoming.amount, incoming.purchasePrice);
            var m := MergedEntry(item, existing, incoming).purchasePrice;
            (Abs(avg) < ToFixedLimit ==>
               Abs(Scaled(m, PriceDigits) - Scaled(avg, PriceDigits)) <= 0.5 && OnGrid(m, PriceDigits))
            && (Abs(avg) >= ToFixedLimit ==> m == avg)
  {
  }

  function SameId(id: string): Holding -> bool {
    (h: Holding) => h.id == id
  }

  /**
   * handleAddHolding: a lot whose id is not yet recorded is appended; otherwise
   * every holding with that id is replaced by its merge with the lot, amounts
   * and prices taken from the first such holding.
   */
  function AddHolding(prev: seq<Holding>, h: Holding): (r: seq<Holding>)
    ensures h.id !in Ids(prev) ==> r == prev + [h]
    ensures h.id in Ids(prev) ==> |r| == |prev|
    ensures forall i :: 0 <= i < |prev| && prev[i].id != h.id ==> i < |r| && r[i] == prev[i]
  {
    match FirstIndex(SameId(h.id), prev)
    case None =>
      assert h.id !in Ids(prev);
      prev + [h]
    case Some(k) =>
      seq(|prev|, i requires 0 <= i < |prev| =>
        if prev[i].id == h.id then MergedEntry(prev[i], prev[k], h) else prev[i])
  }

  /** The entries of AddHolding on an id already present, position by position. */
  lemma AddHoldingMerges(prev: seq<Holding>, h: Holding, k: nat)
    requires k < |prev| && prev[k].id == h.id
    requires forall j :: 0 <= j < k ==> prev[j].id != h.id
    ensures |AddHolding(prev, h)| == |prev|
    ensures forall i :: 0 <= i < |prev| && prev[i].id == h.id ==>
              AddHolding(prev, h)[i] == MergedEntry(prev[i], prev[k], h)
  {
    assert FirstIndex(SameId(h.id), prev) == Some(k);
  }

  /** Adding a lot records its id and keeps every other id. */
  lemma AddHoldingIds(prev: seq<Holding>, h: Holding)
    ensures Ids(AddHolding(prev, h)) == Ids(prev) + {h.id}
  {
    var r := AddHolding(prev, h);
    if h.id in Ids(prev) {
      var k :| 0 <= k < |prev| && prev[k].id == h.id;
      var f := FirstIndex(SameId(h.id), prev);
      assert forall i :: 0 <= i < |r| ==> r[i].id == prev[i].id;
    } else {
      assert r == prev + [h];
      assert r[|prev|] == h;
    }
  }

  /** Adding a lot never introduces a duplicate id. */
  lemma AddHoldingUnique(prev: seq<Holding>, h: Holding)
    requires UniqueIds(prev)
    ensures UniqueIds(AddHolding(prev, h))
  {
    var r := AddHolding(prev, h);
    if h.id in Ids(prev) {
      var f := FirstIndex(SameId(h.id), prev);
      assert forall i :: 0 <= i < |r| ==> r[i].id == prev[i].id;
    } else {
      assert r == prev + [h];
    }
  }

  /**
   * A holding as the corrected add form stores it: a positive amount and a
   * non-negative price, each already a fixed point of the toFixed rounding
   * it went through. The add form as written can store an amount of 0, and
   * the edit form stores any number that parses, so neither keeps this.
   */
  predicate Valid(h: Holding) {
    h.amount > 0.0 && h.purchasePrice >= 0.0
    && RoundTo(h.amount, AmountDigits) == h.amount
    && RoundTo(h.purchasePrice, PriceDigits) == h.purchasePrice
  }

  predicate AllValid(s: seq<Holding>) {
    forall i :: 0 <= i < |s| ==> Valid(s[i])
  }

  /** The sum of two stored amounts is itself a stored amount. */
  lemma StoredSum(a: real, b: real)
    requires a > 0.0 && b > 0.0
    requires RoundTo(a, AmountDigits) == a && RoundTo(b, AmountDigits) == b
    ensures RoundTo(a + b, AmountDigits) == a + b
  {
    if Abs(a) < ToFixedLimit && Abs(b) < ToFixedLimit {
      OnGridAdd(a, b, AmountDigits);
      RoundToOnGrid(a + b, AmountDigits);
    }
  }

  /**
   * The merge of two valid lots is valid, and its amount is exactly the sum of
   * the two amounts: no rounding happens to amounts that were stored rounded.
   */
  lemma MergedEntryValid(item: Holding, existing: Holding, incoming: Holding)
    requires Valid(existing) && Valid(incoming)
    ensures Valid(MergedEntry(item, existing, incoming))
    ensures MergedEntry(item, existing, incoming).amount == existing.amount + incoming.amount
  {
    StoredSum(existing.amount, incoming.amount);
    var avg := AveragePrice(existing.amount, existing.purchasePrice,
                            incoming.amount, incoming.purchasePrice);
    if existing.purchasePrice <= incoming.purchasePrice {
      AverageBetween(existing.amount, existing.purchasePrice, incoming.amount, incoming.purchasePrice);
    } else {
      AverageSymmetric(existing.amount, existing.purchasePrice, incoming.amount, incoming.purchasePrice);
      AverageBetween(incoming.amount, incoming.purchasePrice, existing.amount, existing.purchasePrice);
    }
    assert avg >= 0.0;
    RoundToIdempotent(avg, PriceDigits);
  }

  /** Adding a valid lot to a portfolio of valid holdings keeps every holding valid. */
  lemma AddHoldingValid(prev: seq<Holding>, h: Holding)
    requires AllValid(prev) && Valid(h)
    ensures AllValid(AddHolding(prev, h))
  {
    var r := AddHolding(prev, h);
    match FirstIndex(SameId(h.id), prev)
    case None =>
    case Some(k) =>
      forall i | 0 <= i < |r|
        ensures Valid(r[i])
      {
        if prev[i].id == h.id {
          MergedEntryValid(prev[i], prev[k], h);
        }
      }
  }

  /**
   * When the cost-weighted average needs no rounding to 4 decimals, a merge
   * conserves the cost basis: the merged amount times the merged price is the
   * cost of the position plus the cost of the lot.
   */
  lemma MergeConservesCost(item: Holding, existing: Holding, incoming: Holding)
    requires Valid(existing) && Valid(incoming)
    ensures var m := MergedEntry(item, existing, incoming);
            OnGrid(AveragePrice(existing.amount, existing.purchasePrice,
                                incoming.amount, incoming.purchasePrice), PriceDigits) ==>
            m.amount * m.purchasePrice
              == existing.amount * existing.purchasePrice + incoming.amount * incoming.purchasePrice
  {
    var avg := AveragePrice(existing.amount, existing.purchasePrice,
                            incoming.amount, incoming.purchasePrice);
    if OnGrid(avg, PriceDigits) {
      MergedEntryValid(item, existing, incoming);
      RoundToOnGrid(avg, PriceDigits);
    }
  }

  /** Buying 1 BTC at 20000 and then 1 BTC at 30000 leaves one position of 2 BTC at 25000. */
  lemma AddHoldingExample()
    ensures var first := Holding("bitcoin", "btc", "Bitcoin", "", 1.0, 20000.0, None, "t0");
            var second := Holding("bitcoin", "btc", "Bitcoin", "", 1.0, 30000.0, Some("dip"), "t1");
            AddHolding([first], second)
              == [Holding("bitcoin", "btc", "Bitcoin", "", 2.0, 25000.0, Some("dip"), "t1")]
  {
    var first := Holding("bitcoin", "btc", "Bitcoin", "", 1.0, 20000.0, None, "t0");
    var second := Holding("bitcoin", "btc", "Bitcoin", "", 1.0, 30000.0, Some("dip"), "t1");
    assert AveragePrice(1.0, 20000.0, 1.0, 30000.0) == 25000.0;
    UnscaleFacts(2 * Pow10(AmountDigits), AmountDigits);
    assert Unscale(2 * Pow10(AmountDigits), AmountDigits) == 2.0;
    RoundToOnGrid(2.0, AmountDigits);
    UnscaleFacts(25000 * Pow10(PriceDigits), PriceDigits);
    assert Unscale(25000 * Pow10(PriceDigits), PriceDigits) == 25000.0;
    RoundToOnGrid(25000.0, PriceDigits);
    AddHoldingMerges([first], second, 0);
  }

  // ---------------------------------------------------------------------------
  // Patching a holding
  // ---------------------------------------------------------------------------

  /** How an update treats the optional note: leave it, set it to undefined, or replace it. */
  datatype NotePatch = Keep | Clear | SetNote(text: string)

  /**
   * A Partial<PortfolioHolding>: None means the key is absent from the patch.
   */
  datatype HoldingUpdate = HoldingUpdate(
    id: Option<string>,
    symbol: Option<string>,
    name: Option<string>,
    image: Option<string>,
    amount: Option<real>,
    purchasePrice: Option<real>,
    note: NotePatch,
    addedAt: Option<string>)

  /** The patch with no keys. */
  const NoChange := HoldingUpdate(None, None, None, None, None, None, Keep, None)

  /** `{...item, ...updates, amount: updates.amount ?? item.amount, purchasePrice: ...}`. */
  function Apply(item: Holding, u: HoldingUpdate): (r: Holding)
    // A key present in the patch overwrites the field.
    ensures u.id.Some? ==> r.id == u.id.value
    ensures u.symbol.Some? ==> r.symbol == u.symbol.value
    ensures u.name.Some? ==> r.name == u.name.value
    ensures u.image.Some? ==> r.image == u.image.value
    ensures u.amount.Some? ==> r.amount == u.amount.value
    ensures u.purchasePrice.Some? ==> r.purchasePrice == u.purchasePrice.value
    ensures u.addedAt.Some? ==> r.addedAt == u.addedAt.value
    // A key absent from the patch keeps the old field.
    ensures u.id.None? ==> r.id == item.id
    ensures u.symbol.None? ==> r.symbol == item.symbol
    ensures u.name.None? ==> r.name == item.name
    ensures u.image.None? ==> r.image == item.image
    ensures u.amount.None? ==> r.amount == item.amount
    ensures u.purchasePrice.None? ==> r.purchasePrice == item.purchasePrice
    ensures u.addedAt.None? ==> r.addedAt == item.addedAt
    // The note: kept, set to undefined, or replaced.
    ensures u.note.Keep? ==> r.note == item.note
    ensures u.note.Clear? ==> r.note.None?
    ensures u.note.SetNote? ==> r.note == Some(u.note.text)
  {
    Holding(
      u.id.GetOr(item.id),
      u.symbol.GetOr(item.symbol),
      u.name.GetOr(item.name),
      u.image.GetOr(item.image),
      u.amount.GetOr(item.amount),
      u.purchasePrice.GetOr(item.purchasePrice),
      match u.note
      case Keep => item.note
      case Clear => None
      case SetNote(t) => Some(t),
      u.addedAt.GetOr(item.addedAt))
  }

  /** The empty patch changes nothing; applying a patch twice is applying it once. */
  lemma ApplyLaws(item: Holding, u: HoldingUpdate)
    ensures Apply(item, NoChange) == item
    ensures Apply(Apply(item, u), u) == Apply(item, u)
  {
  }

  /** handleUpdateHolding: every holding with the given id is patched, the rest kept. */
  function UpdateHolding(prev: seq<Holding>, id: string, u: HoldingUpdate): (r: seq<Holding>)
    ensures |r| == |prev|
    ensures forall i :: 0 <= i < |prev| && prev[i].id != id ==> r[i] == prev[i]
    ensures forall i :: 0 <= i < |prev| && prev[i].id == id ==> r[i] == Apply(prev[i], u)
  {
    seq(|prev|, i requires 0 <= i < |prev| => if prev[i].id == id then Apply(prev[i], u) else prev[i])
  }

  /** Updating an id that is not recorded changes nothing. */
  lemma UpdateUnknownId(prev: seq<Holding>, id: string, u: HoldingUpdate)
    requires id !in Ids(prev)
    ensures UpdateHolding(prev, id, u) == prev
  {
    var r := UpdateHolding(prev, id, u);
    forall i | 0 <= i < |prev|
      ensures r[i] == prev[i]
    {
      assert prev[i].id in Ids(prev);
    }
  }

  /** A patch without an id key keeps every id, and so keeps ids unique. */
  lemma UpdateKeepsIds(prev: seq<Holding>, id: string, u: HoldingUpdate)
    requires u.id.None?
    ensures Ids(UpdateHolding(prev, id, u)) == Ids(prev)
    ensures UniqueIds(prev) ==> UniqueIds(UpdateHolding(prev, id, u))
  {
    var r := UpdateHolding(prev, id, u);
    assert forall i :: 0 <= i < |r| ==> r[i].id == prev[i].id;
  }

  /**
   * Repeating the same update has no further effect. An update that renames
   * the id moves the patched entries out of reach of the second call.
   */
  lemma UpdateIdempotent(prev: seq<Holding>, id: string, u: HoldingUpdate)
    ensures UpdateHolding(UpdateHolding(prev, id, u), id, u) == UpdateHolding(prev, id, u)
  {
    var r := UpdateHolding(prev, id, u);
    forall i | 0 <= i < |r|
      ensures UpdateHolding(r, id, u)[i] == r[i]
    {
      ApplyLaws(prev[i], u);
    }
  }

  // ---------------------------------------------------------------------------
  // Removing and resetting
  // ---------------------------------------------------------------------------

  function OtherId(id: string): Holding -> bool {
    (h: Holding) => h.id != id
  }

  /** handleRemoveHolding: drops every holding with the id, keeping the order of the rest. */
  function RemoveHolding(prev: seq<Holding>, id: string): (r: seq<Holding>)
    ensures id !in Ids(r)
    ensures |r| <= |prev|
  {
    Filter(OtherId(id), prev)
  }

  /** Exactly the id is gone; every other holding survives, as often as before and in order. */
  lemma RemoveHoldingContents(prev: seq<Holding>, id: string)
    ensures Ids(RemoveHolding(prev, id)) == Ids(prev) - {id}
    ensures forall x :: multiset(RemoveHolding(prev, id))[x]
                          == if x.id == id then 0 else multiset(prev)[x]
    ensures IsSubseq(RemoveHolding(prev, id), prev)
  {
    var r := RemoveHolding(prev, id);
    FilterMultiset(OtherId(id), prev);
    FilterIsSubseq(OtherId(id), prev);
    FilterMember(OtherId(id), prev);
    forall k | k in Ids(prev) - {id}
      ensures k in Ids(r)
    {
      var i :| 0 <= i < |prev| && prev[i].id == k;
      assert prev[i] in multiset(prev);
      assert prev[i] in multiset(r);
      assert prev[i] in r;
    }
  }

  /** Removing keeps ids unique. */
  lemma RemoveHoldingUnique(prev: seq<Holding>, id: string)
    requires UniqueIds(prev)
    ensures UniqueIds(RemoveHolding(prev, id))
  {
    FilterPairwise((a: Holding, b: Holding) => a.id != b.id, OtherId(id), prev);
  }

  /** Removing an id that is not recorded changes nothing. */
  lemma RemoveUnknownId(prev: seq<Holding>, id: string)
    requires id !in Ids(prev)
    ensures RemoveHolding(prev, id) == prev
  {
    forall i | 0 <= i < |prev|
      ensures OtherId(id)(prev[i])
    {
      assert prev[i].id in Ids(prev);
    }
    FilterAllPass(OtherId(id), prev);
  }

  /** Removing a freshly added id undoes the addition. */
  lemma RemoveUndoesAdd(prev: seq<Holding>, h: Holding)
    requires h.id !in Ids(prev)
    ensures RemoveHolding(AddHolding(prev, h), h.id) == prev
  {
    FilterAppend(OtherId(h.id), prev, [h]);
    RemoveUnknownId(prev, h.id);
    assert Filter(OtherId(h.id), [h]) == [];
  }

  /** handleReset: the portfolio becomes empty. */
  const Reset: seq<Holding> := []

  /** After a reset, adding a lot starts a one-holding portfolio. */
  lemma AddAfterReset(h: Holding)
    ensures AddHolding(Reset, h) == [h]
    ensures UniqueIds(Reset) && AllValid(Reset)
  {
  }

  // ---------------------------------------------------------------------------
  // Joining holdings with quotes
  // ---------------------------------------------------------------------------

  /** The ids of a quote list. */
  function CoinIds(coins: seq<Coin>): set<string> {
    set i | 0 <= i < |coins| :: coins[i].id
  }

  /** The last quote in the list that carries the id. */
  predicate LastWithId(coins: seq<Coin>, i: int) {
    0 <= i < |coins| && forall j :: i < j < |coins| ==> coins[j].id != coins[i].id
  }

  /**
   * coinsById: quotes folded into a record keyed by id, a later quote
   * overwriting an earlier one with the same id.
   */
  function CoinsById(coins: seq<Coin>): (m: map<string, Coin>)
    ensures m.Keys == CoinIds(coins)
    ensures forall k :: k in m ==> m[k].id == k && m[k] in coins
    decreases |coins|
  {
    if coins == [] then map[]
    else
      var init := coins[..|coins| - 1];
      var last := coins[|coins| - 1];
      var m := CoinsById(init);
      assert coins == init + [last];
      assert CoinIds(coins) == CoinIds(init) + {last.id};
      m[last.id := last]
  }

  /** The quote recorded under an id is the last one in the list with that id. */
  lemma {:induction false} CoinsByIdLatest(coins: seq<Coin>, i: int)
    requires LastWithId(coins, i)
    ensures CoinsById(coins)[coins[i].id] == coins[i]
    decreases |coins|
  {
    if i < |coins| - 1 {
      var init := coins[..|coins| - 1];
      assert LastWithId(init, i);
      CoinsByIdLatest(init, i);
    }
  }

  /** With unique quote ids, every quote is found under its own id. */
  lemma CoinsByIdUnique(coins: seq<Coin>)
    requires forall i, j :: 0 <= i < j < |coins| ==> coins[i].id != coins[j].id
    ensures forall i :: 0 <= i < |coins| ==> CoinsById(coins)[coins[i].id] == coins[i]
  {
    forall i | 0 <= i < |coins|
      ensures CoinsById(coins)[coins[i].id] == coins[i]
    {
      CoinsByIdLatest(coins, i);
    }
  }

  function Lookup(m: map<string, Coin>, id: string): Option<Coin> {
    if id in m then Some(m[id]) else None
  }

  /** A holding is joined with the last quote in the list that carries its id. */
  lemma EnrichLatest(portfolio: seq<Holding>, coins: seq<Coin>, i: nat, j: nat)
    requires i < |portfolio| && LastWithId(coins, j) && coins[j].id == portfolio[i].id
    ensures Enrich(portfolio, coins)[i].market == Some(coins[j])
  {
    CoinsByIdLatest(coins, j);
  }

  /** enrichedHoldings: each holding paired with the quote recorded under its id, order kept. */
  function Enrich(portfolio: seq<Holding>, coins: seq<Coin>): (r: seq<Enriched>)
    ensures |r| == |portfolio|
    ensures forall i :: 0 <= i < |r| ==> r[i].holding == portfolio[i]
    ensures forall i :: 0 <= i < |r| ==> (r[i].market.Some? <==> portfolio[i].id in CoinIds(coins))
    ensures forall i :: 0 <= i < |r| && r[i].market.Some? ==>
              r[i].market.value.id == portfolio[i].id && r[i].market.value in coins
  {
    var m := CoinsById(coins);
    seq(|portfolio|, i requires 0 <= i < |portfolio| => Enriched(portfolio[i], Lookup(m, portfolio[i].id)))
  }
}
