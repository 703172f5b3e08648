/**
 * Rate resolution of the currency converter: a rate table keyed by the
 * concatenated codes of a currency pair, and the fixed priority that turns a
 * (from, to) pair into a multiplier.
 *
 * The resolver works on currency codes as strings, as the component does: it
 * compares the two codes and concatenates them into a table key. The three
 * codes the selectors offer are the `Currency` datatype.
 */
module Rates {
  import opened Wrappers

  /** The currencies the converter offers. */
  datatype Currency = BRL | USD | EUR {

    /** The three-letter code the component stores and concatenates into keys. */
    function Code(): (s: string)
      ensures |s| == 3
      ensures IsSupportedCode(s)
    {
      match this
      case BRL => "BRL"
      case USD => "USD"
      case EUR => "EUR"
    }
  }

  /** A code one of the selectors can produce. */
  predicate IsSupportedCode(s: string) {
    s == "BRL" || s == "USD" || s == "EUR"
  }

  /**
   * The rate table as the component holds it: whatever object the rate
   * provider returned, read as a map from keys such as "USDBRL" (one USD in
   * BRL) to numbers.
   */
  type RateTable = map<string, real>

  /** Defaults applied when a quoted entry is missing or zero. */
  const DefaultUsdBrl: real := 5.10
  const DefaultEurBrl: real := 5.55
  const DefaultEurUsd: real := 1.09
  const DefaultUsdEur: real := 0.92

  /** The table installed when the rate provider fails. */
  const FallbackRates: RateTable :=
    map["USDBRL" := 5.10, "EURBRL" := 5.55, "EURUSD" := 1.09, "USDEUR" := 0.92]

  /** JavaScript truthiness of a numeric `table[key]`: present and non-zero. */
  predicate Usable(table: RateTable, key: string) {
    key in table && table[key] != 0.0
  }

  /** `table[key] || fallback`: the entry when it is usable, the constant otherwise. */
  function EntryOr(table: RateTable, key: string, fallback: real): (r: real)
    requires fallback != 0.0
    ensures r != 0.0
    ensures r == fallback || (key in table && r == table[key])
  {
    if Usable(table, key) then table[key] else fallback
  }

  /**
   * The six hardcoded pair rules, tried in the source's order after the direct
   * key; None when no rule names the pair.
   */
  function PairRule(from: string, to: string, table: RateTable): (r: Option<real>)
    ensures r.Some? ==> r.value != 0.0
  {
    if from == "BRL" && to == "USD" then Some(1.0 / EntryOr(table, "USDBRL", DefaultUsdBrl))
    else if from == "BRL" && to == "EUR" then Some(1.0 / EntryOr(table, "EURBRL", DefaultEurBrl))
    else if from == "USD" && to == "BRL" then Some(EntryOr(table, "USDBRL", DefaultUsdBrl))
    else if from == "EUR" && to == "BRL" then Some(EntryOr(table, "EURBRL", DefaultEurBrl))
    else if from == "EUR" && to == "USD" then Some(EntryOr(table, "EURUSD", DefaultEurUsd))
    else if from == "USD" && to == "EUR" then Some(EntryOr(table, "USDEUR", DefaultUsdEur))
    else None
  }

  /**
   * The multiplier that converts an amount in `from` into `to`: identity,
   * then a usable direct entry under `from + to`, then the pair rules, and 1
   * when nothing matches. It is never zero.
   */
  function ExchangeRate(from: string, to: string, table: RateTable): (r: real)
    ensures r != 0.0
  {
    if from == to then 1.0
    else if Usable(table, from + to) then table[from + to]
    else match PairRule(from, to, table)
      case Some(rate) => rate
      case None => 1.0
  }

  /** The direct key a pair of currencies is looked up under. */
  function Key(from: Currency, to: Currency): (k: string)
    ensures |k| == 6 && k[..3] == from.Code() && k[3..] == to.Code()
  {
    from.Code() + to.Code()
  }

  /** Distinct currencies have distinct codes, so `from === to` on codes is equality of currencies. */
  lemma CodeInjective(a: Currency, b: Currency)
    ensures a.Code() == b.Code() <==> a == b
  {
  }

  /** A currency converted into itself uses the rate 1, whatever the table holds. */
  lemma IdentityRate(code: string, table: RateTable, other: RateTable)
    ensures ExchangeRate(code, code, table) == 1.0
    ensures ExchangeRate(code, code, table) == ExchangeRate(code, code, other)
  {
  }

  /** A usable direct entry is returned unchanged, ahead of every pair rule. */
  lemma DirectEntryWins(from: string, to: string, table: RateTable)
    requires from != to && Usable(table, from + to)
    ensures ExchangeRate(from, to, table) == table[from + to]
  {
  }

  /**
   * For the four quoted pairs the result is the table's entry, or the default
   * constant when that entry is missing or zero. No condition on the direct
   * key is needed: for these pairs the direct key is the quoted key itself.
   */
  lemma QuotedPairRates(table: RateTable)
    ensures ExchangeRate("USD", "BRL", table) == EntryOr(table, "USDBRL", DefaultUsdBrl)
    ensures ExchangeRate("EUR", "BRL", table) == EntryOr(table, "EURBRL", DefaultEurBrl)
    ensures ExchangeRate("EUR", "USD", table) == EntryOr(table, "EURUSD", DefaultEurUsd)
    ensures ExchangeRate("USD", "EUR", table) == EntryOr(table, "USDEUR", DefaultUsdEur)
  {
    assert "USD" + "BRL" == "USDBRL";
    assert "EUR" + "BRL" == "EURBRL";
    assert "EUR" + "USD" == "EURUSD";
    assert "USD" + "EUR" == "USDEUR";
  }

  /**
   * Without a usable "BRLUSD" or "BRLEUR" entry, converting out of BRL uses the
   * reciprocal of the quoted rate into BRL, defaults included.
   */
  lemma InversePairRates(table: RateTable)
    ensures !Usable(table, "BRLUSD") ==>
      ExchangeRate("BRL", "USD", table) == 1.0 / EntryOr(table, "USDBRL", DefaultUsdBrl)
    ensures !Usable(table, "BRLEUR") ==>
      ExchangeRate("BRL", "EUR", table) == 1.0 / EntryOr(table, "EURBRL", DefaultEurBrl)
  {
    assert "BRL" + "USD" == "BRLUSD";
    assert "BRL" + "EUR" == "BRLEUR";
  }

  /**
   * Inverse consistency between BRL and a foreign currency: both directions
   * are derived from the same quoted rate, so their product is 1.
   */
  lemma BrlRoundTrip(c: Currency, table: RateTable)
    requires c != BRL && !Usable(table, Key(BRL, c))
    ensures ExchangeRate("BRL", c.Code(), table) * ExchangeRate(c.Code(), "BRL", table) == 1.0
  {
    QuotedPairRates(table);
    InversePairRates(table);
    var q := if c == USD then EntryOr(table, "USDBRL", DefaultUsdBrl) else EntryOr(table, "EURBRL", DefaultEurBrl);
    assert ExchangeRate("BRL", c.Code(), table) == 1.0 / q;
    assert ExchangeRate(c.Code(), "BRL", table) == q;
  }

  /** A zero entry behaves exactly like a missing one, for every pair of codes. */
  lemma ZeroEntryIsMissing(from: string, to: string, table: RateTable, key: string)
    requires key in table && table[key] == 0.0
    ensures ExchangeRate(from, to, table) == ExchangeRate(from, to, table - {key})
  {
  }

  /** A pair rule exists exactly for two distinct supported codes. */
  lemma PairRuleCoverage(from: string, to: string, table: RateTable)
    ensures PairRule(from, to, table).Some? <==> from != to && IsSupportedCode(from) && IsSupportedCode(to)
  {
  }

  /** The last-resort rate 1 is reached only by a pair involving an unsupported code. */
  lemma FallthroughOnlyUnsupported(from: string, to: string, table: RateTable)
    requires from != to && !Usable(table, from + to)
    ensures !(IsSupportedCode(from) && IsSupportedCode(to)) <==> PairRule(from, to, table) == None
    ensures PairRule(from, to, table) == None ==> ExchangeRate(from, to, table) == 1.0
  {
  }

  /** With no negative entry in the table, every resolved rate is positive. */
  lemma PositiveRates(from: string, to: string, table: RateTable)
    requires forall k | k in table :: table[k] >= 0.0
    ensures ExchangeRate(from, to, table) > 0.0
  {
  }

  /**
   * Positive quoted entries alone do not make every rate positive: any key can
   * serve as a direct entry, so a negative "BRLUSD" is returned as it is.
   */
  lemma NegativeDirectEntryWins()
    ensures ExchangeRate("BRL", "USD", map["BRLUSD" := -1.0, "USDBRL" := 5.0]) == -1.0
  {
    assert "BRL" + "USD" == "BRLUSD";
  }

  /** The fallback table holds exactly the four quoted keys, at the default values. */
  lemma FallbackMatchesDefaults()
    ensures FallbackRates.Keys == {"USDBRL", "EURBRL", "EURUSD", "USDEUR"}
    ensures FallbackRates["USDBRL"] == DefaultUsdBrl && FallbackRates["EURBRL"] == DefaultEurBrl
    ensures FallbackRates["EURUSD"] == DefaultEurUsd && FallbackRates["USDEUR"] == DefaultUsdEur
  {
  }

  /** On the fallback table, BRL to USD and back multiplies to exactly 1. */
  lemma FallbackBrlUsdRoundTrip()
    ensures ExchangeRate("BRL", "USD", FallbackRates) == 1.0 / 5.10
    ensures ExchangeRate("USD", "BRL", FallbackRates) == 5.10
    ensures ExchangeRate("BRL", "USD", FallbackRates) * ExchangeRate("USD", "BRL", FallbackRates) == 1.0
  {
    assert Key(BRL, USD) == "BRLUSD";
    BrlRoundTrip(USD, FallbackRates);
    QuotedPairRates(FallbackRates);
    InversePairRates(FallbackRates);
  }

  /**
   * EUR/USD and USD/EUR are quoted independently, so the two directions are
   * not reciprocal: on the fallback table their product is 1.0028.
   */
  lemma FallbackEurUsdNotReciprocal()
    ensures ExchangeRate("EUR", "USD", FallbackRates) * ExchangeRate("USD", "EUR", FallbackRates) == 1.0028
  {
    QuotedPairRates(FallbackRates);
  }
}
