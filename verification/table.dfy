/**
 * The holdings table (components/portfolio-table.tsx): the figures shown on
 * each row and the inline editor that patches a holding's amount, price and
 * note.
 */
module HoldingsTable {
  import opened Wrappers
  import opened Rounding
  import opened Arith
  import opened Text
  import opened Decimal
  import opened Records
  import opened Dashboard

  // ---------------------------------------------------------------------------
  // Row figures
  // ---------------------------------------------------------------------------

  /** The figures of one table row; percentages are in percent, not fractions. */
  datatype Row = Row(
    price: real,
    cost: real,
    value: real,
    profit: real,
    roi: real,
    dailyPct: real,
    dailyChange: real,
    allocation: real)

  /** What the position cost: amount times purchase price. */
  function CostBasis(h: Holding): real {
    h.amount * h.purchasePrice
  }

  /** What the position is worth at the quoted price, 0 without a quote. */
  function MarketValue(e: Enriched): real {
    e.holding.amount * QuotePrice(e.market)
  }

  /**
   * The figures of a row, given the portfolio's total value. A holding
   * without a quote is worth nothing today and shows no daily move.
   */
  function Valuate(e: Enriched, totalValue: real): (r: Row)
    ensures r.price == QuotePrice(e.market) && r.dailyPct == QuoteChange(e.market)
    ensures r.cost == CostBasis(e.holding) && r.value == MarketValue(e)
    ensures e.market.None? ==> r.value == 0.0 && r.profit == -r.cost && r.dailyChange == 0.0
    ensures r.profit == r.value - r.cost
    ensures r.cost > 0.0 ==> r.roi * r.cost == 100.0 * r.profit
    ensures r.cost <= 0.0 ==> r.roi == 0.0
    ensures 100.0 * r.dailyChange == r.value * r.dailyPct
    ensures r.allocation == PercentOf(r.value, totalValue)
  {
    var h := e.holding;
    var price := QuotePrice(e.market);
    var cost := CostBasis(h);
    var value := MarketValue(e);
    var profit := value - cost;
    var roi := if cost > 0.0 then (profit / cost) * 100.0 else 0.0;
    var dailyPct := QuoteChange(e.market);
    var dailyChange := value * (dailyPct / 100.0);
    var allocation := PercentOf(value, totalValue);
    Row(price, cost, value, profit, roi, dailyPct, dailyChange, allocation)
  }

  lemma ProductSign(a: real, b: real)
    requires a > 0.0
    ensures a * b >= 0.0 <==> b >= 0.0
  {
  }

  /**
   * The colour cues agree with the numbers: the P/L cell is green exactly when
   * the return on investment is not negative, and the daily cell is blue
   * exactly when the 24h percentage is not negative (for a position worth
   * something).
   */
  lemma RowSigns(e: Enriched, totalValue: real)
    ensures var r := Valuate(e, totalValue);
            r.cost > 0.0 ==> (r.profit >= 0.0 <==> r.roi >= 0.0)
    ensures var r := Valuate(e, totalValue);
            r.value > 0.0 ==> (r.dailyChange >= 0.0 <==> r.dailyPct >= 0.0)
  {
    var r := Valuate(e, totalValue);
    if r.cost > 0.0 {
      ProductSign(r.cost, r.roi);
      assert r.roi * r.cost == r.cost * r.roi;
    }
    if r.value > 0.0 {
      ProductSign(r.value, r.dailyPct);
    }
  }

  /** The market value of each row. */
  function Values(rows: seq<Enriched>): (r: seq<real>)
    ensures |r| == |rows| && forall i :: 0 <= i < |rows| ==> r[i] == MarketValue(rows[i])
  {
    seq(|rows|, i requires 0 <= i < |rows| => MarketValue(rows[i]))
  }

  /** The allocation column: each row's market value as a percentage of the total. */
  function Allocations(rows: seq<Enriched>, totalValue: real): (r: seq<real>)
    ensures |r| == |rows|
    ensures forall i :: 0 <= i < |rows| ==> r[i] == Valuate(rows[i], totalValue).allocation
  {
    Percentages(Values(rows), totalValue)
  }

  /**
   * When the total is the market value of the rows and is positive, the
   * allocation column adds up to 100 percent.
   */
  lemma AllocationsSumTo100(rows: seq<Enriched>, totalValue: real)
    requires totalValue == Sum(Values(rows)) && totalValue > 0.0
    ensures Sum(Allocations(rows, totalValue)) == 100.0
  {
    PercentagesSumTo100(Values(rows), totalValue);
  }

  /** What the allocation column shows: a dash, or a percentage with one decimal. */
  datatype AllocationCell = Dash | Percent(value: real)

  /**
   * The dash appears exactly when the total is zero; a negative total shows
   * "0.0%", because the allocation falls back to 0 for any total that is not
   * positive.
   */
  function AllocationShown(e: Enriched, totalValue: real): (c: AllocationCell)
    ensures c.Dash? <==> totalValue == 0.0
    ensures totalValue < 0.0 ==> c == Percent(0.0)
    ensures totalValue > 0.0 ==> c == Percent(RoundTo(Valuate(e, totalValue).allocation, 1))
  {
    if totalValue == 0.0 then Dash
    else
      Percent(RoundTo(Valuate(e, totalValue).allocation, 1))
  }

  /** The shown percentage is within a twentieth of a percent of the exact allocation. */
  lemma AllocationShownClose(e: Enriched, totalValue: real)
    requires totalValue > 0.0
    requires Abs(Valuate(e, totalValue).allocation) < ToFixedLimit
    ensures Abs(AllocationShown(e, totalValue).value - Valuate(e, totalValue).allocation) <= 0.05
  {
    var a := Valuate(e, totalValue).allocation;
    var r := RoundTo(a, 1);
    assert Scale(1) == 10.0;
    assert Scaled(r, 1) - Scaled(a, 1) == 10.0 * (r - a);
  }

  // ---------------------------------------------------------------------------
  // Inline editing
  // ---------------------------------------------------------------------------

  /** The editor: which row is open and the three draft texts. */
  datatype EditState = EditState(
    editingId: Option<string>,
    draftAmount: string,
    draftPrice: string,
    draftNote: string)

  /** cancelEditing, and the state before any editing. */
  const Idle := EditState(None, "", "", "")

  /** startEditing: opens the row with drafts holding the current figures and note. */
  function StartEditing(h: Holding): (s: EditState)
    ensures s.editingId == Some(h.id)
    ensures s.draftAmount != [] && s.draftPrice != []
    ensures h.note.Some? ==> s.draftNote == h.note.value
    ensures h.note.None? ==> s.draftNote == ""
  {
    EditState(Some(h.id), NumberToString(h.amount), NumberToString(h.purchasePrice), h.note.GetOr(""))
  }

  /** cancelEditing closes the editor and clears the drafts, whatever state it is in. */
  function CancelEditing(s: EditState): (r: EditState)
    ensures r.editingId.None? && r.draftAmount == [] && r.draftPrice == [] && r.draftNote == []
  {
    Idle
  }

  /**
   * commitEditing: both drafts must parse as numbers, otherwise nothing
   * happens and the editor stays open; then the amount is stored through
   * toFixed(8), the price through toFixed(4), and the trimmed note, or
   * undefined when it is blank, and the editor closes.
   */
  function CommitEditing(s: EditState): (r: (EditState, Option<HoldingUpdate>))
    ensures ParseFloat(s.draftAmount).None? || ParseFloat(s.draftPrice).None? ==> r == (s, None)
    ensures r.1.Some? <==> ParseFloat(s.draftAmount).Some? && ParseFloat(s.draftPrice).Some?
    ensures r.1.Some? ==> r.0 == Idle
    ensures r.1.Some? ==> var u := r.1.value;
              u.id.None? && u.symbol.None? && u.name.None? && u.image.None? && u.addedAt.None?
              && u.amount == Some(RoundTo(ParseFloat(s.draftAmount).value, AmountDigits))
              && u.purchasePrice == Some(RoundTo(ParseFloat(s.draftPrice).value, PriceDigits))
              && (Trim(s.draftNote) == [] ==> u.note == Clear)
              && (Trim(s.draftNote) != [] ==> u.note == SetNote(Trim(s.draftNote)))
  {
    match (ParseFloat(s.draftAmount), ParseFloat(s.draftPrice))
    case (Some(amount), Some(price)) =>
      var note := Trim(s.draftNote);
      var u := HoldingUpdate(None, None, None, None,
                             Some(RoundTo(amount, AmountDigits)),
                             Some(RoundTo(price, PriceDigits)),
                             if note == [] then Clear else SetNote(note),
                             None);
      (CancelEditing(s), Some(u))
    case _ => (s, None)
  }

  /**
   * Opening the editor on a holding and saving without touching the drafts
   * gives back the holding unchanged, as long as its amount and price are
   * already stored rounded to 8 and 4 decimals and its note is absent or has
   * no surrounding blanks.
   */
  lemma EditRoundTrip(h: Holding)
    requires OnGrid(h.amount, AmountDigits) && OnGrid(h.purchasePrice, PriceDigits)
    requires h.note.Some? ==> h.note.value != [] && !IsWhite(h.note.value[0])
                              && !IsWhite(h.note.value[|h.note.value| - 1])
    ensures CommitEditing(StartEditing(h)).0 == Idle
    ensures CommitEditing(StartEditing(h)).1.Some?
    ensures Apply(h, CommitEditing(StartEditing(h)).1.value) == h
  {
    StoredRoundTrip(h.amount, AmountDigits);
    StoredRoundTrip(h.purchasePrice, PriceDigits);
    if h.note.Some? {
      TrimClean(h.note.value);
    }
  }

  /** A figure on a grid of at most twenty decimals survives printing, reading and re-rounding. */
  lemma StoredRoundTrip(x: real, digits: nat)
    requires digits <= MaxFractionDigits && OnGrid(x, digits)
    ensures ParseFloat(NumberToString(x)) == Some(x)
    ensures RoundTo(x, digits) == x
  {
    OnGridFiner(x, digits, MaxFractionDigits);
    NumberToStringRoundTrip(x);
    RoundToOnGrid(x, digits);
  }

  /**
   * Saving an edit whose drafts both parse writes them, rounded to 8 and 4
   * decimals, into every holding with the edited id and keeps that holding's
   * identity and date; the other holdings are untouched. When a draft does
   * not parse there is no patch, so the list is left as it is.
   */
  lemma CommitWritesRounded(s: EditState, prev: seq<Holding>, id: string, i: nat)
    requires i < |prev|
    ensures ParseFloat(s.draftAmount).Some? && ParseFloat(s.draftPrice).Some? ==>
              CommitEditing(s).1.Some? && CommitEditing(s).0 == Idle
    ensures ParseFloat(s.draftAmount).Some? && ParseFloat(s.draftPrice).Some? && prev[i].id == id ==>
              var h := UpdateHolding(prev, id, CommitEditing(s).1.value)[i];
              h.amount == RoundTo(ParseFloat(s.draftAmount).value, AmountDigits)
              && h.purchasePrice == RoundTo(ParseFloat(s.draftPrice).value, PriceDigits)
              && h.id == prev[i].id && h.symbol == prev[i].symbol && h.name == prev[i].name
              && h.image == prev[i].image && h.addedAt == prev[i].addedAt
    ensures ParseFloat(s.draftAmount).Some? && ParseFloat(s.draftPrice).Some? && prev[i].id != id ==>
              UpdateHolding(prev, id, CommitEditing(s).1.value)[i] == prev[i]
    ensures ParseFloat(s.draftAmount).None? || ParseFloat(s.draftPrice).None? ==>
              CommitEditing(s) == (s, None)
  {
    if CommitEditing(s).1.Some? {
      var u := CommitEditing(s).1.value;
      assert UpdateHolding(prev, id, u)[i] == if prev[i].id == id then Apply(prev[i], u) else prev[i];
    }
  }

  /** Saving an edit patches the row without changing any id, so ids stay unique. */
  lemma CommitKeepsIds(s: EditState, prev: seq<Holding>, id: string)
    ensures CommitEditing(s).1.Some? ==>
              Ids(UpdateHolding(prev, id, CommitEditing(s).1.value)) == Ids(prev)
    ensures CommitEditing(s).1.Some? && UniqueIds(prev) ==>
              UniqueIds(UpdateHolding(prev, id, CommitEditing(s).1.value))
  {
    if CommitEditing(s).1.Some? {
      UpdateKeepsIds(prev, id, CommitEditing(s).1.value);
    }
  }
}
