/**
 * The add-transaction form (components/add-asset-form.tsx): numeric input
 * sanitising, the coin suggestion list, picking a coin and submitting a new
 * lot.
 */
module AddAssetForm {
  import opened Wrappers
  import opened Seqs
  import opened Rounding
  import opened Text
  import opened Decimal
  import opened Records
  import opened Dashboard

  // ---------------------------------------------------------------------------
  // Numeric inputs
  // ---------------------------------------------------------------------------

  /** The characters the amount and price inputs accept. */
  predicate IsNumberChar(c: char) {
    '0' <= c <= '9' || c == '.'
  }

  /** Every character is accepted by the numeric inputs. */
  predicate Sanitized(s: string) {
    forall i :: 0 <= i < |s| ==> IsNumberChar(s[i])
  }

  /** sanitizeNumber: `value.replace(/[^0-9.]/g, '')`. */
  function Sanitize(s: string): (r: string)
    ensures Sanitized(r)
    ensures |r| <= |s|
  {
    Filter(IsNumberChar, s)
  }

  /**
   * Sanitising keeps exactly the accepted characters, in order: each accepted
   * character as often as it occurred, nothing else.
   */
  lemma SanitizeKeeps(s: string)
    ensures forall c :: multiset(Sanitize(s))[c] == if IsNumberChar(c) then multiset(s)[c] else 0
    ensures IsSubseq(Sanitize(s), s)
  {
    FilterMultiset(IsNumberChar, s);
    FilterIsSubseq(IsNumberChar, s);
  }

  /** Text that is already clean passes unchanged; sanitising twice is sanitising once. */
  lemma SanitizeFixpoint(s: string)
    ensures Sanitized(s) ==> Sanitize(s) == s
    ensures Sanitize(Sanitize(s)) == Sanitize(s)
  {
    if Sanitized(s) {
      FilterAllPass(IsNumberChar, s);
    }
    FilterIdempotent(IsNumberChar, s);
  }

  /** Sanitised text has no sign, so whatever number it reads as is not negative. */
  lemma SanitizedNotNegative(s: string)
    requires Sanitized(s)
    ensures ParseFloat(s).Some? ==> ParseFloat(s).value >= 0.0
  {
    if s != [] {
      assert IsNumberChar(s[0]);
      assert !IsWhite(s[0]);
      assert TrimStart(s) == s;
    }
  }

  // ---------------------------------------------------------------------------
  // Form state
  // ---------------------------------------------------------------------------

  /** The form's fields; `selectedId` is "" when no coin is picked. */
  datatype FormState = FormState(
    query: string,
    selectedId: string,
    amount: string,
    price: string,
    note: string,
    expanded: bool)

  const Blank := FormState("", "", "", "", "", false)

  /** Typing into the amount input: the amount becomes the filtered text, nothing else changes. */
  function TypeAmount(s: FormState, text: string): (r: FormState)
    ensures Sanitized(r.amount) && r.amount == Sanitize(text)
    ensures r.(amount := s.amount) == s
  {
    s.(amount := Sanitize(text))
  }

  /** Typing into the price input: the price becomes the filtered text, nothing else changes. */
  function TypePrice(s: FormState, text: string): (r: FormState)
    ensures Sanitized(r.price) && r.price == Sanitize(text)
    ensures r.(price := s.price) == s
  {
    s.(price := Sanitize(text))
  }

  // ---------------------------------------------------------------------------
  // Suggestions
  // ---------------------------------------------------------------------------

  /** How many coins are offered with and without a query. */
  const DefaultSuggestions: nat := 6
  const MaxSuggestions: nat := 8

  /** A coin matches a lower-cased query when its lower-cased name contains it or its lower-cased symbol starts with it. */
  function Matches(lowered: string): Coin -> bool {
    (c: Coin) => Contains(Lower(c.name), lowered) || StartsWith(Lower(c.symbol), lowered)
  }

  /** suggestions: the first six coins for an empty query, else the first eight matches in list order. */
  function Suggestions(coins: seq<Coin>, query: string): (r: seq<Coin>)
    ensures query == [] ==> r == coins[..Min(DefaultSuggestions, |coins|)]
    ensures query != [] ==> |r| <= MaxSuggestions
    ensures query != [] ==> forall i :: 0 <= i < |r| ==> Matches(Lower(query))(r[i])
    // With a query: the first min(8, n) of the n matching coins, in list order.
    ensures query != [] ==> var matching := Filter(Matches(Lower(query)), coins);
              |r| == Min(MaxSuggestions, |matching|) && r <= matching
  {
    if query == [] then Take(coins, DefaultSuggestions)
    else Take(Filter(Matches(Lower(query)), coins), MaxSuggestions)
  }

  /** A prefix of a subsequence is a subsequence. */
  lemma {:induction false} PrefixOfSubseq<T>(a: seq<T>, b: seq<T>, c: seq<T>)
    requires a <= b && IsSubseq(b, c)
    ensures IsSubseq(a, c)
    decreases |c|
  {
    if a != [] && c != [] {
      if b[0] == c[0] {
        PrefixOfSubseq(a[1..], b[1..], c[1..]);
      } else {
        PrefixOfSubseq(a, b, c[1..]);
      }
    }
  }

  /**
   * Suggestions keep the list order; when fewer than eight coins match, every
   * matching coin is offered.
   */
  lemma SuggestionsComplete(coins: seq<Coin>, query: string)
    requires query != []
    ensures IsSubseq(Suggestions(coins, query), coins)
    ensures |Suggestions(coins, query)| < MaxSuggestions ==>
              forall c :: c in coins && Matches(Lower(query))(c) ==> c in Suggestions(coins, query)
  {
    var p := Matches(Lower(query));
    var f := Filter(p, coins);
    FilterIsSubseq(p, coins);
    PrefixOfSubseq(Suggestions(coins, query), f, coins);
    if |Suggestions(coins, query)| < MaxSuggestions {
      assert Suggestions(coins, query) == f;
      FilterMultiset(p, coins);
      forall c | c in coins && p(c)
        ensures c in f
      {
        assert multiset(coins)[c] > 0;
        assert multiset(f)[c] > 0;
      }
    }
  }

  lemma LowerUpper(s: string)
    ensures Lower(Upper(s)) == Lower(s)
  {
  }

  /** Matching ignores the case of ASCII letters in the query. */
  lemma SuggestionsCaseInsensitive(coins: seq<Coin>, query: string)
    ensures Suggestions(coins, Upper(query)) == Suggestions(coins, query)
  {
    LowerUpper(query);
  }

  // ---------------------------------------------------------------------------
  // Picking a coin
  // ---------------------------------------------------------------------------

  /**
   * handleSelectCoin: the query shows "name (SYMBOL)", the coin is selected,
   * an empty price is pre-filled with the coin's current price, and the
   * suggestion list closes.
   */
  function SelectCoin(s: FormState, coin: Coin): (r: FormState)
    ensures r.query == coin.name + " (" + Upper(coin.symbol) + ")"
    ensures r.selectedId == coin.id && !r.expanded
    ensures s.price != [] ==> r.price == s.price
    ensures r.amount == s.amount && r.note == s.note
  {
    s.(query := coin.name + " (" + Upper(coin.symbol) + ")",
       selectedId := coin.id,
       price := if s.price == [] then NumberToString(coin.currentPrice) else s.price,
       expanded := false)
  }

  /** selectedCoin: the first coin whose id is the selected one. */
  function SelectedCoin(coins: seq<Coin>, id: string): (r: Option<Coin>)
    ensures r.Some? ==> r.value in coins && r.value.id == id
    ensures r.Some? ==> exists k :: 0 <= k < |coins| && coins[k] == r.value
                                    && forall j :: 0 <= j < k ==> coins[j].id != id
    ensures r.None? ==> forall i :: 0 <= i < |coins| ==> coins[i].id != id
  {
    match FirstIndex((c: Coin) => c.id == id, coins)
    case None => None
    case Some(k) => Some(coins[k])
  }

  /**
   * After picking a listed coin the form has a coin selected, and a pre-filled
   * price reads back as the coin's price when that price has at most twenty
   * decimals.
   */
  lemma SelectCoinThenRead(s: FormState, coins: seq<Coin>, coin: Coin)
    requires coin in coins
    ensures SelectedCoin(coins, SelectCoin(s, coin).selectedId).Some?
    ensures s.price == [] && OnGrid(coin.currentPrice, MaxFractionDigits) ==>
              ParseFloat(SelectCoin(s, coin).price) == Some(coin.currentPrice)
  {
    if s.price == [] && OnGrid(coin.currentPrice, MaxFractionDigits) {
      NumberToStringRoundTrip(coin.currentPrice);
    }
  }

  // ---------------------------------------------------------------------------
  // Submitting
  // ---------------------------------------------------------------------------

  /** `note.trim() || undefined`. */
  function NoteOf(text: string): (r: Option<string>)
    ensures r.None? <==> Trim(text) == []
    ensures r.Some? ==> r.value == Trim(text)
  {
    var t := Trim(text);
    if t == [] then None else Some(t)
  }

  /** The form after a successful submission: everything but `expanded` is cleared. */
  function Cleared(s: FormState): FormState {
    Blank.(expanded := s.expanded)
  }

  /**
   * handleSubmit as written: a coin must be selected and both inputs must read
   * as numbers greater than zero; the lot then stores the amount through
   * toFixed(8) and the price through toFixed(4). The check happens before the
   * rounding. `now` is the ISO timestamp of the submission.
   */
  function Submit(s: FormState, coins: seq<Coin>, now: string): (r: (FormState, Option<Holding>))
    ensures r.1.None? ==> r.0 == s
    ensures r.1.Some? ==>
              r.0 == Cleared(s)
              && SelectedCoin(coins, s.selectedId).Some?
              && ParseFloat(s.amount).Some? && ParseFloat(s.amount).value > 0.0
              && ParseFloat(s.price).Some? && ParseFloat(s.price).value > 0.0
    ensures r.1.Some? ==> var h := r.1.value; var c := SelectedCoin(coins, s.selectedId).value;
              h.id == c.id && h.symbol == c.symbol && h.name == c.name && h.image == c.image
              && h.amount == RoundTo(ParseFloat(s.amount).value, AmountDigits)
              && h.purchasePrice == RoundTo(ParseFloat(s.price).value, PriceDigits)
              && h.note == NoteOf(s.note) && h.addedAt == now
    ensures (SelectedCoin(coins, s.selectedId).Some? && ParseFloat(s.amount).Some? && ParseFloat(s.price).Some?
             && ParseFloat(s.amount).value > 0.0 && ParseFloat(s.price).value > 0.0) ==> r.1.Some?
  {
    match (SelectedCoin(coins, s.selectedId), ParseFloat(s.amount), ParseFloat(s.price))
    case (Some(c), Some(a), Some(p)) =>
      if a <= 0.0 || p <= 0.0 then (s, None)
      else
        var h := Holding(c.id, c.symbol, c.name, c.image,
                         RoundTo(a, AmountDigits), RoundTo(p, PriceDigits), NoteOf(s.note), now);
        (Cleared(s), Some(h))
    case _ => (s, None)
  }

  /** The amount of a one-billionth coin, accepted by Submit. */
  const TinyAmount: string := "0.000000001"

  /** Below half of the eighth decimal place, toFixed(8) gives 0. */
  lemma RoundsToZero(a: real)
    requires 0.0 <= a < 0.000000005
    ensures RoundTo(a, AmountDigits) == 0.0
  {
    assert Scale(AmountDigits) == 100000000.0;
    var m := ScaledRound(a, AmountDigits);
    assert Scaled(a, AmountDigits) < 0.5;
    assert m == 0;
  }

  lemma TinyAmountText()
    ensures TinyAmount == PointText("0", "000000001")
    ensures TrimStart(TinyAmount) == TinyAmount
  {
    assert !IsWhite(TinyAmount[0]);
  }

  lemma TinyAmountDigits()
    ensures AllDigits("0") && IntValue("0") == 0
    ensures AllDigits("000000001") && FracValue("000000001") == 0.000000001
  {
  }

  lemma ParseTinyUnsigned()
    ensures ParseUnsigned(TinyAmount) == Some(0.000000001)
  {
    TinyAmountText();
    TinyAmountDigits();
    ParsePointText("0", "000000001");
  }

  lemma ParseTinyAmount()
    ensures ParseFloat(TinyAmount) == Some(0.000000001)
  {
    TinyAmountText();
    ParseTinyUnsigned();
  }

  lemma ParseOneUnsigned()
    ensures ParseUnsigned("1") == Some(1.0)
  {
    assert "1" == PointText("1", []);
    ParsePointText("1", []);
  }

  lemma OneText()
    ensures TrimStart("1") == "1"
  {
  }

  lemma ParseOne()
    ensures ParseFloat("1") == Some(1.0)
  {
    OneText();
    ParseOneUnsigned();
  }

  /**
   * A one-billionth coin passes the check but is stored as toFixed(8) gives
   * it, 0: Submit records a holding of amount zero, which is not Valid.
   */
  lemma SubmitStoresZeroAmount(s: FormState, coins: seq<Coin>, now: string)
    requires SelectedCoin(coins, s.selectedId).Some?
    requires s.amount == TinyAmount && s.price == "1"
    ensures var r := Submit(s, coins, now);
            r.1.Some? && r.1.value.amount == 0.0 && !Valid(r.1.value)
  {
    ParseTinyAmount();
    ParseOne();
    SubmitStoresTiny(s, coins, now, 0.000000001);
  }

  /** Any amount that reads as positive but below half of the eighth decimal place is stored as 0. */
  lemma SubmitStoresTiny(s: FormState, coins: seq<Coin>, now: string, a: real)
    requires SelectedCoin(coins, s.selectedId).Some?
    requires ParseFloat(s.amount) == Some(a) && 0.0 < a < 0.000000005
    requires ParseFloat(s.price).Some? && ParseFloat(s.price).value > 0.0
    ensures var r := Submit(s, coins, now);
            r.1.Some? && r.1.value.amount == 0.0 && !Valid(r.1.value)
  {
    RoundsToZero(a);
  }

  /**
   * handleSubmit with the check moved after the rounding: the lot is recorded
   * only when the stored amount and the stored price are greater than zero.
   */
  function SubmitChecked(s: FormState, coins: seq<Coin>, now: string): (r: (FormState, Option<Holding>))
    ensures r.1.None? ==> r.0 == s
    ensures r.1.Some? ==> r.0 == Cleared(s) && Valid(r.1.value) && r.1.value.purchasePrice > 0.0
    ensures r.1.Some? ==>
              SelectedCoin(coins, s.selectedId).Some? && ParseFloat(s.amount).Some? && ParseFloat(s.price).Some?
    ensures r.1.Some? ==> var h := r.1.value; var c := SelectedCoin(coins, s.selectedId).value;
              SelectedCoin(coins, s.selectedId).Some?
              && h.id == c.id && h.symbol == c.symbol && h.name == c.name && h.image == c.image
              && h.amount == RoundTo(ParseFloat(s.amount).value, AmountDigits)
              && h.purchasePrice == RoundTo(ParseFloat(s.price).value, PriceDigits)
              && h.note == NoteOf(s.note) && h.addedAt == now
  {
    match (SelectedCoin(coins, s.selectedId), ParseFloat(s.amount), ParseFloat(s.price))
    case (Some(c), Some(a), Some(p)) =>
      var amount := RoundTo(a, AmountDigits);
      var price := RoundTo(p, PriceDigits);
      if amount <= 0.0 || price <= 0.0 then (s, None)
      else
        RoundToIdempotent(a, AmountDigits);
        RoundToIdempotent(p, PriceDigits);
        var h := Holding(c.id, c.symbol, c.name, c.image, amount, price, NoteOf(s.note), now);
        (Cleared(s), Some(h))
    case _ => (s, None)
  }

  /**
   * The corrected submission agrees with the one as written whenever the
   * rounded figures are positive, and only refuses lots the written one would
   * have stored as zero.
   */
  lemma SubmitCheckedRefinesSubmit(s: FormState, coins: seq<Coin>, now: string)
    ensures SubmitChecked(s, coins, now).1.Some? ==> SubmitChecked(s, coins, now) == Submit(s, coins, now)
    ensures SubmitChecked(s, coins, now).1.None? && Submit(s, coins, now).1.Some? ==>
              Submit(s, coins, now).1.value.amount == 0.0 || Submit(s, coins, now).1.value.purchasePrice == 0.0
  {
  }

  /** Every lot the corrected form submits can be added without breaking validity. */
  lemma SubmitCheckedKeepsPortfolioValid(s: FormState, coins: seq<Coin>, now: string, prev: seq<Holding>)
    requires AllValid(prev)
    ensures SubmitChecked(s, coins, now).1.Some? ==>
              AllValid(AddHolding(prev, SubmitChecked(s, coins, now).1.value))
  {
    if SubmitChecked(s, coins, now).1.Some? {
      AddHoldingValid(prev, SubmitChecked(s, coins, now).1.value);
    }
  }

  /** Sanitised inputs stay sanitised through every handler of the form. */
  predicate InputsSanitized(s: FormState) {
    Sanitized(s.amount) && Sanitized(s.price)
  }

  lemma HandlersKeepInputsSanitized(s: FormState, coins: seq<Coin>, coin: Coin, text: string, now: string)
    requires InputsSanitized(s)
    requires coin.currentPrice >= 0.0
    ensures InputsSanitized(TypeAmount(s, text)) && InputsSanitized(TypePrice(s, text))
    ensures InputsSanitized(SelectCoin(s, coin))
    ensures InputsSanitized(Submit(s, coins, now).0) && InputsSanitized(SubmitChecked(s, coins, now).0)
  {
    if s.price == [] {
      NumberToStringSanitized(coin.currentPrice);
    }
  }

  /** String(x) of a non-negative number uses only digits and a point. */
  lemma UnsignedStringSanitized(x: real, k: nat)
    requires x >= 0.0
    ensures Sanitized(UnsignedString(x, k))
  {
    var n := x.Floor;
    var ds := NatDigits(n);
    var frac := FractionDigits(x - n as real, k);
    assert UnsignedString(x, k) == PointText(ds, frac);
    assert Sanitized(ds) && Sanitized(frac);
  }

  lemma NumberToStringSanitized(x: real)
    requires x >= 0.0
    ensures Sanitized(NumberToString(x))
  {
    UnsignedStringSanitized(x, MaxFractionDigits);
  }
}
