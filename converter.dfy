/**
 * The state of the currency converter component and the operations that
 * change it: recomputing the displayed target amount, confirming a
 * conversion, swapping the two sides and refreshing the rate table.
 *
 * The foreign services the component calls (the rate provider and the
 * conversion store) appear only through their outcomes, which the methods
 * take as parameters; so does the clock. Amounts are `real`, and an amount
 * field is `None` when it is empty. `toFixed(2)` is the rounding function
 * `round` the component is built with, left uninterpreted.
 */
module Converter {
  import opened Wrappers
  import opened Rates

  /** One confirmed conversion, as handed to the conversion store. */
  datatype ConversionRecord = ConversionRecord(
    fromCurrency: Currency,
    toCurrency: Currency,
    fromAmount: real,
    toAmount: real,
    exchangeRate: real,
    conversionDate: string)

  /** Why a confirmation produced no stored record. */
  datatype ConvertError =
    | InvalidAmount   // the amount is empty, zero or negative
    | SameCurrencies  // source and target currency are the same
    | StoreFailed     // the conversion store rejected the record

  /** An amount the confirm action and the recompute rule accept: present and positive. */
  predicate IsPositive(amount: Option<real>) {
    amount.Some? && amount.value > 0.0
  }

  /** An amount converted at a rate, before rounding. */
  function Converted(amount: real, rate: real): real {
    amount * rate
  }

  /**
   * The target amount the component displays for a source amount converted
   * at `rate`: cleared when the source is empty or not positive, the rounded
   * product otherwise.
   */
  function DerivedAmount(amount: Option<real>, rate: real, round: real -> real): (shown: Option<real>)
    ensures shown.None? <==> !IsPositive(amount)
    ensures shown.Some? ==> shown.value == round(Converted(amount.value, rate))
  {
    if IsPositive(amount) then Some(round(Converted(amount.value, rate))) else None
  }

  /**
   * The validation and record construction of the confirm action: the amount
   * is checked first, then that the currencies differ; a record carries the
   * selected currencies, the amount, the resolved rate and their product.
   */
  function BuildRecord(amount: Option<real>, from: Currency, to: Currency, table: RateTable,
                       now: string): (r: Result<ConversionRecord, ConvertError>)
    ensures r.Err? <==> !IsPositive(amount) || from == to
    ensures r == Err(InvalidAmount) <==> !IsPositive(amount)
    ensures r.Err? ==> r.error != StoreFailed
    ensures r.Ok? ==>
              && r.value.fromCurrency == from && r.value.toCurrency == to
              && r.value.fromCurrency != r.value.toCurrency
              && r.value.fromAmount == amount.value && r.value.fromAmount > 0.0
              && r.value.exchangeRate == ExchangeRate(from.Code(), to.Code(), table)
              && r.value.toAmount == Converted(r.value.fromAmount, r.value.exchangeRate)
              && r.value.conversionDate == now
  {
    if !IsPositive(amount) then Err(InvalidAmount)
    else if from.Code() == to.Code() then
      CodeInjective(from, to);
      Err(SameCurrencies)
    else
      CodeInjective(from, to);
      var rate := ExchangeRate(from.Code(), to.Code(), table);
      Ok(ConversionRecord(from, to, amount.value, Converted(amount.value, rate), rate, now))
  }

  /** The (fromCurrency, toCurrency, fromAmount, toAmount) selection a swap exchanges. */
  datatype Selection = Selection(from: Currency, to: Currency, fromAmount: Option<real>, toAmount: Option<real>)

  /** The selection after a swap: both currencies and both amounts exchanged. */
  function Swapped(s: Selection): (t: Selection)
    ensures t.from == s.to && t.to == s.from
    ensures t.fromAmount == s.toAmount && t.toAmount == s.fromAmount
  {
    Selection(s.to, s.from, s.toAmount, s.fromAmount)
  }

  /** Swapping is its own inverse. */
  lemma SwapInvolution(s: Selection)
    ensures Swapped(Swapped(s)) == s
  {
  }

  /** The converter component's state. */
  class CurrencyConverter {
    var fromCurrency: Currency
    var toCurrency: Currency
    var fromAmount: Option<real>
    var toAmount: Option<real>
    var exchangeRates: RateTable
    var conversions: seq<ConversionRecord>
    /** `toFixed(2)`, read back as a number. */
    const round: real -> real

    /** The initial state: BRL to USD, both amounts empty, no rates, no history. */
    constructor (round: real -> real)
      ensures fromCurrency == BRL && toCurrency == USD
      ensures fromAmount == None && toAmount == None
      ensures exchangeRates == map[] && conversions == []
      ensures this.round == round
    {
      fromCurrency, toCurrency := BRL, USD;
      fromAmount, toAmount := None, None;
      exchangeRates, conversions := map[], [];
      this.round := round;
    }

    /** The four fields a swap exchanges. */
    function CurrentSelection(): (s: Selection)
      reads this
      ensures s.from == fromCurrency && s.to == toCurrency
      ensures s.fromAmount == fromAmount && s.toAmount == toAmount
    {
      Selection(fromCurrency, toCurrency, fromAmount, toAmount)
    }

    /**
     * The recompute rule that runs whenever the amount, a currency or the
     * table changes: the target amount is cleared or set to the rounded
     * conversion, and nothing else changes.
     */
    method Recompute()
      modifies this`toAmount
      ensures toAmount == DerivedAmount(fromAmount, ExchangeRate(fromCurrency.Code(), toCurrency.Code(), exchangeRates), round)
    {
      if fromAmount.None? || fromAmount.value <= 0.0 {
        toAmount := None;
      } else {
        var rate := ExchangeRate(fromCurrency.Code(), toCurrency.Code(), exchangeRates);
        toAmount := Some(round(Converted(fromAmount.value, rate)));
      }
    }

    /**
     * The confirm action. A failed validation changes nothing and creates no
     * record; a valid one hands the record to the store, whose outcome is
     * `stored`, and only a stored record updates the displayed target amount.
     * `now` is the timestamp the record carries.
     */
    method Convert(stored: bool, now: string) returns (outcome: Result<ConversionRecord, ConvertError>)
      modifies this`toAmount
      ensures BuildRecord(fromAmount, fromCurrency, toCurrency, exchangeRates, now).Err? ==>
        outcome == BuildRecord(fromAmount, fromCurrency, toCurrency, exchangeRates, now) && toAmount == old(toAmount)
      ensures BuildRecord(fromAmount, fromCurrency, toCurrency, exchangeRates, now).Ok? && !stored ==>
        outcome == Err(StoreFailed) && toAmount == old(toAmount)
      ensures BuildRecord(fromAmount, fromCurrency, toCurrency, exchangeRates, now).Ok? && stored ==>
        outcome == BuildRecord(fromAmount, fromCurrency, toCurrency, exchangeRates, now)
        && toAmount == Some(round(outcome.value.toAmount))
    {
      if fromAmount.None? || fromAmount.value <= 0.0 {
        return Err(InvalidAmount);
      }
      if fromCurrency.Code() == toCurrency.Code() {
        return Err(SameCurrencies);
      }
      CodeInjective(fromCurrency, toCurrency);
      var amount := fromAmount.value;
      var rate := ExchangeRate(fromCurrency.Code(), toCurrency.Code(), exchangeRates);
      var converted := Converted(amount, rate);
      var record := ConversionRecord(fromCurrency, toCurrency, amount, converted, rate, now);
      if !stored {
        return Err(StoreFailed);
      }
      toAmount := Some(round(converted));
      outcome := Ok(record);
    }

    /** Exchanges both currencies and both amounts, using the values before the swap. */
    method Swap()
      modifies this`fromCurrency, this`toCurrency, this`fromAmount, this`toAmount
      ensures CurrentSelection() == Swapped(old(CurrentSelection()))
    {
      fromCurrency, toCurrency, fromAmount, toAmount := toCurrency, fromCurrency, toAmount, fromAmount;
    }

    /**
     * Installs the outcome of a rate refresh: the provider's response,
     * wholesale, or the fallback table when the provider failed (`None`).
     */
    method LoadExchangeRates(response: Option<RateTable>)
      modifies this`exchangeRates
      ensures response.Some? ==> exchangeRates == response.value
      ensures response.None? ==> exchangeRates == FallbackRates
    {
      match response
      case Some(table) => exchangeRates := table;
      case None => exchangeRates := FallbackRates;
    }

    /**
     * Installs the outcome of a history load: the store's list of recent
     * conversions, or no change when the store failed (`None`).
     */
    method LoadConversionHistory(listed: Option<seq<ConversionRecord>>)
      modifies this`conversions
      ensures listed.Some? ==> conversions == listed.value
      ensures listed.None? ==> conversions == old(conversions)
    {
      if listed.Some? {
        conversions := listed.value;
      }
    }
  }

  /** A swap applied twice restores the original currencies and amounts. */
  method SwapTwice(c: CurrencyConverter)
    modifies c
    ensures c.CurrentSelection() == old(c.CurrentSelection())
    ensures c.exchangeRates == old(c.exchangeRates) && c.conversions == old(c.conversions)
  {
    c.Swap();
    c.Swap();
    SwapInvolution(old(c.CurrentSelection()));
  }

  /** The amount shown and the record confirmed agree: the display is the rounded record amount. */
  lemma ConfirmMatchesDisplay(amount: Option<real>, from: Currency, to: Currency, table: RateTable,
                              now: string, round: real -> real)
    requires BuildRecord(amount, from, to, table, now).Ok?
    ensures DerivedAmount(amount, ExchangeRate(from.Code(), to.Code(), table), round) == Some(round(BuildRecord(amount, from, to, table, now).value.toAmount))
  {
  }

  /** A same-currency conversion displays the rounded amount itself. */
  lemma IdentityDisplay(amount: real, c: Currency, table: RateTable, round: real -> real)
    requires amount > 0.0
    ensures DerivedAmount(Some(amount), ExchangeRate(c.Code(), c.Code(), table), round) == Some(round(amount))
  {
  }

  /** 100 USD to BRL on the fallback table shows the rounding of 510. */
  method ScenarioUsdToBrl(round: real -> real) returns (shown: Option<real>)
    ensures shown == Some(round(510.0))
  {
    var c := new CurrencyConverter(round);
    c.LoadExchangeRates(None);
    c.fromCurrency, c.toCurrency, c.fromAmount := USD, BRL, Some(100.0);
    c.Recompute();
    QuotedPairRates(FallbackRates);
    shown := c.toAmount;
  }

  /** 50 BRL to USD on the fallback table shows the rounding of 50 / 5.10. */
  method ScenarioBrlToUsd(round: real -> real) returns (shown: Option<real>)
    ensures shown == Some(round(50.0 / 5.10))
  {
    var c := new CurrencyConverter(round);
    c.LoadExchangeRates(None);
    c.fromAmount := Some(50.0);
    c.Recompute();
    FallbackBrlUsdRoundTrip();
    shown := c.toAmount;
  }

  /**
   * EUR to EUR shows the rounded amount itself, and confirming it is refused
   * as a same-currency conversion without touching the display.
   */
  method ScenarioSameCurrency(round: real -> real, amount: real, rates: RateTable, now: string)
    returns (shown: Option<real>, outcome: Result<ConversionRecord, ConvertError>, after: Option<real>)
    requires amount > 0.0
    ensures shown == Some(round(amount))
    ensures outcome == Err(SameCurrencies)
    ensures after == shown
  {
    var c := new CurrencyConverter(round);
    c.LoadExchangeRates(Some(rates));
    c.fromCurrency, c.toCurrency, c.fromAmount := EUR, EUR, Some(amount);
    c.Recompute();
    IdentityDisplay(amount, EUR, rates, round);
    shown := c.toAmount;
    outcome := c.Convert(true, now);
    after := c.toAmount;
  }

  /** A failed refresh leaves exactly the fallback table, whatever was installed before. */
  method ScenarioRefreshFails(round: real -> real, earlier: RateTable) returns (table: RateTable)
    ensures table == map["USDBRL" := 5.10, "EURBRL" := 5.55, "EURUSD" := 1.09, "USDEUR" := 0.92]
  {
    var c := new CurrencyConverter(round);
    c.LoadExchangeRates(Some(earlier));
    c.LoadExchangeRates(None);
    table := c.exchangeRates;
  }

  /** Clearing the amount clears the displayed target amount, whatever was shown before. */
  method ScenarioAmountCleared(round: real -> real, amount: real) returns (before: Option<real>, shown: Option<real>)
    requires amount > 0.0
    ensures before.Some?
    ensures shown == None
  {
    var c := new CurrencyConverter(round);
    c.LoadExchangeRates(None);
    c.fromAmount := Some(amount);
    c.Recompute();
    before := c.toAmount;
    c.fromAmount := None;
    c.Recompute();
    shown := c.toAmount;
  }
}
