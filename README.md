# coin-converter-api: the greedy conversion service

This project models the core of the coin converter service. The service takes an amount in cents and breaks it down
greedily into US bills ($100 down to $1) and coins (dollar coin down to penny):

- `parseBills` walks the seven bills in declaration order. At each bill it puts `remaining / cents` into a caller-owned
  counter and keeps `remaining % cents`. It returns what is left.
- `parseCoins` does the same over the six coins and returns nothing.
- `convertCurrency` runs both passes. Its response reports the seven bills and the five coins below a dollar.
- `convertCurrencyToCoins` runs the coin pass alone, dollar coin included.
- `convertCurrencyToBills` runs the bill pass alone and reports what it left as `cents`.

Modules:

- `Greedy` (`greedy.dfy`) holds the pure specification of a greedy walk over a table of denominations:
  - `Decompose` is the walk as a recursive function.
  - `Remaining` is the running amount at each step.
  - `IsGreedy` is an independent characterisation: the counts conserve the amount, and at every position what the
    later positions hold is below that position's value.
  - The lemmas prove that `Decompose` conserves the amount and that its remainder is below every denomination. They
    also prove that `Decompose` satisfies `IsGreedy` and that `IsGreedy` has no other solution.
- `BillEnum` and `CoinEnum` (`bill_enum.dfy`, `coin_enum.dfy`) are the two enums. Each holds the constants in
  declaration order, the `cents()` accessor, the value table that iteration order produces, and lemmas about that table.
- `ConverterService` (`converter_service.dfy`) is the imperative part:
  - `Counter` is a class for the `EnumMap` counters, filled in place with `Put`.
  - `ParseBills` and `ParseCoins` are the two loops, each proved against the greedy specification.
  - The three entry points allocate fresh counters, run the passes and read the counters back into the response
    datatypes.
  - Conservation lemmas tie each response to the amount.
- `ServiceScenarios` (`service_scenarios.dfy`) states the service's documented examples about the responses the
  service builds.

Inputs are `nat`. `convertCurrency(0)` is a documented case, so zero is allowed everywhere. The `@Min(1)` on the two
other service methods is not enforced at the service level, so the model asks nothing of callers.

## Model

| member | source | states |
|---|---|---|
| Greedy.Decompose | src/main/java/com/alanensina/coinconverter/services/ConverterService.java:79-94 | the greedy walk gives one count per denomination, and leaves no more than the amount |
| Greedy.WalkSteps | src/main/java/com/alanensina/coinconverter/services/ConverterService.java:80-84 | the count at position `i` is what is left on reaching `i` divided by that value (division first, then modulo, in table order); the final remainder is what is left after the last position |
| Greedy.Conservation | src/main/java/com/alanensina/coinconverter/services/ConverterService.java:79-86 | the counts times the values, plus the remainder, give back the amount |
| Greedy.RemainderBelowEvery | src/main/java/com/alanensina/coinconverter/services/ConverterService.java:79-86 | the remainder is below every denomination of the table |
| Greedy.DecomposeIsGreedy | src/main/java/com/alanensina/coinconverter/services/ConverterService.java:79-94 | the walk's result conserves the amount, and at each position the later positions plus the remainder are below that position's value |
| Greedy.GreedyIsUnique | src/main/java/com/alanensina/coinconverter/services/ConverterService.java:79-94 | any breakdown with that greedy property is the walk's result |
| Greedy.TotalMultipleOf | src/main/java/com/alanensina/coinconverter/enums/BillEnum.java:4-10 | when every value is a multiple of `m`, so is any total of counts over them |
| BillEnum.Bill.Cents | src/main/java/com/alanensina/coinconverter/enums/BillEnum.java:4-14 | a bill's value is its entry in the value table: a positive whole number of dollars |
| BillEnum.Bill.Ordinal | src/main/java/com/alanensina/coinconverter/enums/BillEnum.java:4-10 | a bill's declaration position, at which `Bills` holds that bill |
| BillEnum.BillsInDeclarationOrder | src/main/java/com/alanensina/coinconverter/enums/BillEnum.java:4-10 | `values()` lists all seven bills, each at its declaration position, with its own value |
| BillEnum.BillValuesDescend | src/main/java/com/alanensina/coinconverter/enums/BillEnum.java:4-10 | the bill values are positive and strictly descending, and the smallest is the $1 bill at 100 cents |
| CoinEnum.Coin.Cents | src/main/java/com/alanensina/coinconverter/enums/CoinEnum.java:4-13 | a coin's value is its entry in the value table, from 1 to 100 cents; only the dollar coin is worth 100 |
| CoinEnum.Coin.Ordinal | src/main/java/com/alanensina/coinconverter/enums/CoinEnum.java:4-9 | a coin's declaration position, at which `Coins` holds that coin |
| CoinEnum.CoinsInDeclarationOrder | src/main/java/com/alanensina/coinconverter/enums/CoinEnum.java:4-9 | `values()` lists all six coins, each at its declaration position, with its own value |
| CoinEnum.CoinValuesDescend | src/main/java/com/alanensina/coinconverter/enums/CoinEnum.java:4-9 | the coin values are positive and strictly descending, and the smallest is the penny at 1 cent |
| ConverterService.Counter.constructor | src/main/java/com/alanensina/coinconverter/services/ConverterService.java:22-23 | a new counter is empty |
| ConverterService.Counter.Put | src/main/java/com/alanensina/coinconverter/services/ConverterService.java:82 | `put` sets one key's count and leaves the other entries unchanged |
| ConverterService.BillCounts | src/main/java/com/alanensina/coinconverter/services/ConverterService.java:80-84 | after the bill pass every bill has an entry, zero counts included, holding its greedy count |
| ConverterService.CoinCounts | src/main/java/com/alanensina/coinconverter/services/ConverterService.java:89-93 | after the coin pass every coin has an entry, zero counts included, holding its greedy count |
| ConverterService.ParseBills | src/main/java/com/alanensina/coinconverter/services/ConverterService.java:79-86 | the loop leaves exactly the greedy bill counts in the counter, whatever it held before, and returns the greedy remainder |
| ConverterService.ParseCoins | src/main/java/com/alanensina/coinconverter/services/ConverterService.java:88-94 | the loop leaves exactly the greedy coin counts in the counter, whatever it held before |
| ConverterService.BillPassConserves | src/main/java/com/alanensina/coinconverter/services/ConverterService.java:79-86 | the seven bill counts times their values, plus the returned remainder, give back the amount |
| ConverterService.CoinPassConserves | src/main/java/com/alanensina/coinconverter/services/ConverterService.java:88-94 | the coin pass consumes the amount completely: nothing is left, and the six counts times their values give the amount |
| ConverterService.BillsLeaveCentsPart | src/main/java/com/alanensina/coinconverter/services/ConverterService.java:79-86 | what the bill pass leaves is exactly `amount % 100` |
| ConverterService.CombinedCountsNoDollarCoin | src/main/java/com/alanensina/coinconverter/services/ConverterService.java:25-40 | in `convertCurrency` the coin pass never counts a dollar coin, so the response loses nothing by leaving it out |
| ConverterService.CombinedConserves | src/main/java/com/alanensina/coinconverter/services/ConverterService.java:19-42 | the twelve counts of the combined response are worth exactly the amount |
| ConverterService.CoinsOnlyConserves | src/main/java/com/alanensina/coinconverter/services/ConverterService.java:44-59 | the six counts of the coins response are worth exactly the amount |
| ConverterService.BillsOnlyConserves | src/main/java/com/alanensina/coinconverter/services/ConverterService.java:61-77 | the bills plus the `cents` field give back the amount, and `cents` is the amount modulo 100 |
| ConverterService.ConvertCurrency | src/main/java/com/alanensina/coinconverter/services/ConverterService.java:19-42 | the combined response holds the bill counts, then the coin counts of what the bills left without the dollar coin, and is worth the amount |
| ConverterService.ConvertCurrencyToCoins | src/main/java/com/alanensina/coinconverter/services/ConverterService.java:44-59 | the coins response holds the greedy coin counts, dollar coin included, and is worth the amount |
| ConverterService.ConvertCurrencyToBills | src/main/java/com/alanensina/coinconverter/services/ConverterService.java:61-77 | the bills response holds the greedy bill counts and what they left; together they are worth the amount, and the left-over is the amount modulo 100 |
| ServiceScenarios.BillPassOf18786 | src/test/java/com/alanensina/coinconverter/services/ConverterServiceTest.java:22 | the bill pass on 18 786 cents takes one of each bill from $100 to $2 and leaves 86 |
| ServiceScenarios.CoinPassOf86 | src/test/java/com/alanensina/coinconverter/services/ConverterServiceTest.java:31 | the coin pass on 86 cents is 50 + 25 + 10 + 1 |
| ServiceScenarios.ConvertCurrencyOf18786 | src/test/java/com/alanensina/coinconverter/services/ConverterServiceTest.java:17-37 | `convertCurrency(18786)` gives the documented twelve counts |
| ServiceScenarios.BillPassOf0 | src/test/java/com/alanensina/coinconverter/services/ConverterServiceTest.java:40-56 | the bill pass on zero takes no bill and leaves nothing |
| ServiceScenarios.CoinPassOf0 | src/test/java/com/alanensina/coinconverter/services/ConverterServiceTest.java:40-56 | the coin pass on zero takes no coin |
| ServiceScenarios.ConvertCurrencyOf0 | src/test/java/com/alanensina/coinconverter/services/ConverterServiceTest.java:40-56 | `convertCurrency(0)` gives all-zero counts |
| ServiceScenarios.BillPassOf20000 | src/test/java/com/alanensina/coinconverter/services/ConverterServiceTest.java:59-74 | the bill pass on 20 000 cents takes two $100 bills and leaves nothing |
| ServiceScenarios.ConvertCurrencyOf20000 | src/test/java/com/alanensina/coinconverter/services/ConverterServiceTest.java:59-74 | `convertCurrency(20000)` gives two $100 bills and nothing else |
| ServiceScenarios.BillPassOf25 | src/test/java/com/alanensina/coinconverter/services/ConverterServiceTest.java:77-92 | the bill pass on 25 cents takes no bill and leaves 25 |
| ServiceScenarios.CoinPassOf25 | src/test/java/com/alanensina/coinconverter/services/ConverterServiceTest.java:77-92 | the coin pass on 25 cents is a single quarter |
| ServiceScenarios.ConvertCurrencyOf25 | src/test/java/com/alanensina/coinconverter/services/ConverterServiceTest.java:77-92 | `convertCurrency(25)` gives a single quarter |
| ServiceScenarios.CoinPassOf286 | src/test/java/com/alanensina/coinconverter/services/ConverterServiceTest.java:99 | the coin pass on 286 cents is two dollar coins, then 50 + 25 + 10 + 1 |
| ServiceScenarios.ConvertCurrencyToCoinsOf286 | src/test/java/com/alanensina/coinconverter/services/ConverterServiceTest.java:97-107 | `convertCurrencyToCoins(286)` gives the documented six counts |
| ServiceScenarios.CoinPassOf1 | src/test/java/com/alanensina/coinconverter/services/ConverterServiceTest.java:110-119 | the coin pass on one cent is a single penny |
| ServiceScenarios.ConvertCurrencyToCoinsOf1 | src/test/java/com/alanensina/coinconverter/services/ConverterServiceTest.java:110-119 | `convertCurrencyToCoins(1)` gives a single penny |
| ServiceScenarios.CoinPassOf300 | src/test/java/com/alanensina/coinconverter/services/ConverterServiceTest.java:122-131 | the coin pass on 300 cents is three dollar coins |
| ServiceScenarios.ConvertCurrencyToCoinsOf300 | src/test/java/com/alanensina/coinconverter/services/ConverterServiceTest.java:122-131 | `convertCurrencyToCoins(300)` gives three dollar coins |
| ServiceScenarios.BillPassOf12345 | src/test/java/com/alanensina/coinconverter/services/ConverterServiceTest.java:136-151 | the bill pass on 12 345 cents is $100 + $20 + $2 + $1 and leaves 45 |
| ServiceScenarios.ConvertCurrencyToBillsOf12345 | src/test/java/com/alanensina/coinconverter/services/ConverterServiceTest.java:136-151 | `convertCurrencyToBills(12345)` gives that breakdown, and its bills plus `cents` give back 12 345 |
| ServiceScenarios.BillPassOf3000 | src/test/java/com/alanensina/coinconverter/services/ConverterServiceTest.java:154-165 | the bill pass on 3 000 cents is $20 + $10 and leaves nothing |
| ServiceScenarios.ConvertCurrencyToBillsOf3000 | src/test/java/com/alanensina/coinconverter/services/ConverterServiceTest.java:154-165 | `convertCurrencyToBills(3000)` gives $20 + $10 and no cents |
| ServiceScenarios.BillPassOf1 | src/test/java/com/alanensina/coinconverter/services/ConverterServiceTest.java:168-179 | the bill pass on one cent takes no bill and leaves the cent |
| ServiceScenarios.ConvertCurrencyToBillsOf1 | src/test/java/com/alanensina/coinconverter/services/ConverterServiceTest.java:168-179 | `convertCurrencyToBills(1)` gives no bill and `cents` 1 |

## Left out

- Negative amounts. Java's `/` and `%` truncate toward zero, so a negative amount would give negative counts. The
  amount is a `nat` here, and the documented cases start at zero.
- 32-bit `int` arithmetic. For a non-negative amount every count and remainder is at most the amount, so nothing can
  overflow. The model uses unbounded naturals.
- The HTTP controller and its `@Min(1)` validation with the 400 response. `ConverterController.java` and
  `OpenApiConfig.java` are not part of this model. The controller's own tests mock the service and say nothing about
  the conversion.
- The internals of `EnumMap`. `Counter` keeps a `map` from constants to counts and models only `put` and `get`.
  `get` on a key that was never put would return `null` in Java; the proofs show every key is put first.
- The response records. They appear only as datatypes with the constructor's fields in the service's argument order.
- Minimality of the greedy breakdown (fewest pieces). The service does not claim it, and it is not proved here. What
  is proved is that the result is the unique breakdown with the greedy property (`Greedy.GreedyIsUnique`).
