# Currency converter: rate resolution and converter state

A model of the `CurrencyConverter` component of a small browser currency
converter between Brazilian reais (BRL), US dollars (USD) and euros (EUR).
The model holds six of the component's nine pieces of state: the two
selected currencies, the source amount typed by the user, the derived target
amount, the rate table fetched from an AI-backed rate provider and the list
of recent conversions. The two loading flags and `lastUpdate` are left out.

- `wrappers.dfy` (module `Wrappers`): `Option` and `Result`.
- `rates.dfy` (module `Rates`): the rate table as a `map<string, real>`, the
  default constants and the fallback table, and `ExchangeRate`, the
  resolver. It tries identity first. Then it tries a usable direct entry under
  the concatenated key `from + to`. Then it tries six hardcoded pair rules,
  and it returns 1 when none matches. The resolver works on currency codes as
  strings, as the component does, so the last-resort branch is reachable for
  a code outside the three; lemmas state what it returns for the `Currency`
  datatype's three codes.
- `converter.dfy` (module `Converter`): the class `CurrencyConverter`, whose
  fields are the component's state. Its methods are the recompute rule, the
  confirm action, the swap and the outcomes of the two loads. Pure functions
  specify the derived amount (`DerivedAmount`), the validation and record of
  the confirm action (`BuildRecord`) and the swap (`Swapped`). Scenario
  methods drive a fresh converter through five situations: USD to BRL, BRL to
  USD, a same-currency conversion, a failed rate refresh and a cleared amount.

Amounts are `real`; an amount field is `None` when it is empty (the amount
input is a number field, so text that is not a number reads as empty).
`toFixed(2)` is the class's constant `round: real -> real`, supplied at
construction and left uninterpreted. The foreign services appear as method
parameters: the rate provider's response (`None` when it fails), the store's
acceptance of a record (`stored`), the store's history list (`None` when it
fails) and the timestamp (`now`).

Facts about the resolver and the conversion worth knowing:
- 100 USD to BRL at the fallback 5.10 displays the rounding of 510
  (`ScenarioUsdToBrl`).
- Converting between BRL and a foreign currency and back multiplies to
  exactly 1, provided the table has no usable BRLUSD / BRLEUR entry
  (`BrlRoundTrip`). A usable direct entry out of BRL wins over the reciprocal
  rule and breaks the round trip.
- EUR/USD and USD/EUR are two independent quotes: on the fallback table their
  product is 1.0028 (`FallbackEurUsdNotReciprocal`).
- Every resolved rate is positive when no entry of the table is negative
  (`PositiveRates`). Positive values under the four quoted keys are not
  enough: any key can act as a direct entry, so a negative BRLUSD entry is
  returned as it is (`NegativeDirectEntryWins`).

## Model

| member | source | states |
|---|---|---|
| Rates.ExchangeRate | CurrentlyConversor.jsx:24-53 | the resolved multiplier is never zero, for any codes and any table |
| Rates.EntryOr | CurrentlyConversor.jsx:34-49 | the entry-or-default value is never zero and is either the default or the table's entry |
| Rates.PairRule | CurrentlyConversor.jsx:32-50 | a hardcoded pair rule never yields zero |
| Rates.CodeInjective | CurrentlyConversor.jsx:25 | two currencies have equal codes exactly when they are the same currency, so comparing codes is comparing currencies |
| Rates.IdentityRate | CurrentlyConversor.jsx:25 | a code resolved to itself gives 1, the same for every table |
| Rates.DirectEntryWins | CurrentlyConversor.jsx:27-30 | a non-zero entry under `from + to` is returned unchanged, ahead of any pair rule |
| Rates.QuotedPairRates | CurrentlyConversor.jsx:39-50 | USD→BRL, EUR→BRL, EUR→USD and USD→EUR give the table's entry, or 5.10, 5.55, 1.09, 0.92 when it is missing or zero, for every table |
| Rates.InversePairRates | CurrentlyConversor.jsx:33-38 | without a usable BRLUSD / BRLEUR entry, BRL→USD and BRL→EUR are the reciprocals of (USDBRL or 5.10) and (EURBRL or 5.55) |
| Rates.BrlRoundTrip | CurrentlyConversor.jsx:33-43 | for USD and EUR, without a direct entry out of BRL, BRL→c times c→BRL is exactly 1 |
| Rates.ZeroEntryIsMissing | CurrentlyConversor.jsx:28-49 | a zero entry resolves every pair exactly as if the key were absent |
| Rates.PairRuleCoverage | CurrentlyConversor.jsx:33-52 | a pair rule exists if and only if the two codes differ and both are BRL, USD or EUR |
| Rates.FallthroughOnlyUnsupported | CurrentlyConversor.jsx:52 | after identity and the direct key fail, the last-resort 1 is taken exactly when a code is outside the three |
| Rates.PositiveRates | CurrentlyConversor.jsx:24-52 | a table with no negative entry resolves every pair of codes to a positive rate |
| Rates.NegativeDirectEntryWins | CurrentlyConversor.jsx:27-30 | a negative direct BRLUSD entry is returned unchanged although USDBRL is positive, so positive quoted entries do not guarantee a positive rate |
| Rates.FallbackMatchesDefaults | CurrentlyConversor.jsx:108-113 | the fallback table has exactly the keys USDBRL, EURBRL, EURUSD, USDEUR, holding the resolver's default constants 5.10, 5.55, 1.09, 0.92 |
| Rates.FallbackBrlUsdRoundTrip | CurrentlyConversor.jsx:33-43 | on the fallback table BRL→USD is 1/5.10, USD→BRL is 5.10, and their product is 1 |
| Rates.FallbackEurUsdNotReciprocal | CurrentlyConversor.jsx:45-50 | on the fallback table EUR→USD times USD→EUR is 1.0028, not 1 |
| Converter.DerivedAmount | CurrentlyConversor.jsx:55-65 | the target amount is cleared exactly when the source amount is empty, zero or negative, and is otherwise the rounded product of the amount and the rate |
| Converter.BuildRecord | CurrentlyConversor.jsx:129-153 | confirmation is refused exactly when the amount is not positive or the currencies are equal, the amount check first; a record carries the selected currencies, the amount, the resolved rate and amount × rate |
| Converter.Swapped | CurrentlyConversor.jsx:166-171 | a swap exchanges both currencies and both amounts |
| Converter.SwapInvolution | CurrentlyConversor.jsx:166-171 | swapping twice restores the selection |
| Converter.CurrencyConverter.constructor | CurrentlyConversor.jsx:14-19 | initial state: BRL to USD, empty amounts, an empty rate table, no history |
| Converter.CurrencyConverter.Recompute | CurrentlyConversor.jsx:72-78 | the target amount becomes the derived amount of the current amount at the rate resolved from the current currencies and table; nothing else changes |
| Converter.CurrencyConverter.Convert | CurrentlyConversor.jsx:129-164 | a refused validation returns its error and changes nothing; a store failure returns that error and changes nothing; a stored record is returned and the target amount becomes its rounded amount |
| Converter.CurrencyConverter.Swap | CurrentlyConversor.jsx:166-171 | the new selection is the swap of the old one, using pre-swap values; the rate table and history are untouched |
| Converter.CurrencyConverter.LoadExchangeRates | CurrentlyConversor.jsx:103-113 | a response replaces the table wholesale; a failure installs exactly the fallback table |
| Converter.CurrencyConverter.LoadConversionHistory | CurrentlyConversor.jsx:120-127 | a listed history replaces the list; a failed load leaves it unchanged |
| Converter.SwapTwice | CurrentlyConversor.jsx:166-171 | two swaps on a converter restore currencies and amounts and leave rates and history alone |
| Converter.ConfirmMatchesDisplay | CurrentlyConversor.jsx:142-155 | for a valid confirmation, the displayed amount equals the rounding of the record's target amount |
| Converter.IdentityDisplay | CurrentlyConversor.jsx:55-64 | converting a positive amount into the same currency displays the rounded amount itself |
| Converter.ScenarioUsdToBrl | CurrentlyConversor.jsx:39-40 | 100 USD to BRL on the fallback table displays the rounding of 510 |
| Converter.ScenarioBrlToUsd | CurrentlyConversor.jsx:33-34 | 50 BRL to USD on the fallback table displays the rounding of 50 / 5.10 |
| Converter.ScenarioSameCurrency | CurrentlyConversor.jsx:135-138 | EUR to EUR displays the rounded amount; confirming it is refused as same-currency and the display stays |
| Converter.ScenarioRefreshFails | CurrentlyConversor.jsx:105-113 | a failed refresh leaves exactly the four-entry fallback table, whatever was installed before |
| Converter.ScenarioAmountCleared | CurrentlyConversor.jsx:73-77 | clearing the amount clears a previously shown target amount |

## Left out

- The rate provider call itself (the prompt and JSON schema sent to the AI integration) and the store's `create`/`list` calls: only their outcomes are modelled, as parameters.
- Asynchrony and interleaving: the `loading` and `ratesLoading` flags, overlapping refreshes, and the order in which React runs effects. Each operation is one atomic step.
- After a stored conversion the component reloads the history; the model leaves that reload as a separate `LoadConversionHistory` step.
- The recompute effect that follows a swap and overwrites the new target amount: `Swap` and `Recompute` are separate steps.
- `lastUpdate` and the record's timestamp depend on the wall clock; the timestamp is the parameter `now`, and `lastUpdate` is not modelled.
- Toast notifications, console logging and all rendering, including the rate and history panels and their random trend icon.
- The currency selectors and the amount field set the state fields directly; the scenario methods assign those fields.
- IEEE doubles, `parseFloat`, NaN and `toFixed(2)`: amounts and rates are exact reals and rounding is an uninterpreted function.
- A provider response that is not an object (for example `null`): the table is always a map.
