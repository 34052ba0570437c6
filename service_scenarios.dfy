/** The service's documented examples, each stated about the response the service builds. */
module ServiceScenarios {
  import opened Greedy
  import opened BillEnum
  import opened CoinEnum
  import opened ConverterService

  /** The bill pass on 18 786 cents: one of each bill from $100 down to $2, 86 cents left. */
  lemma BillPassOf18786()
    ensures BillPass(18_786) == Breakdown([1, 1, 1, 1, 1, 1, 0], 86)
  {
    BillValuesDescend();
    WalkSteps(18_786, BillValues);
    assert Remaining(18_786, BillValues, 1) == 8_786;
    assert Remaining(18_786, BillValues, 2) == 3_786;
    assert Remaining(18_786, BillValues, 3) == 1_786;
    assert Remaining(18_786, BillValues, 4) == 786;
    assert Remaining(18_786, BillValues, 5) == 286;
    assert Remaining(18_786, BillValues, 6) == 86;
    assert Remaining(18_786, BillValues, 7) == 86;
  }

  /** The coin pass on 86 cents: 50 + 25 + 10 + 1. */
  lemma CoinPassOf86()
    ensures CoinPass(86) == Breakdown([0, 1, 1, 1, 0, 1], 0)
  {
    CoinValuesDescend();
    WalkSteps(86, CoinValues);
    assert Remaining(86, CoinValues, 1) == 86;
    assert Remaining(86, CoinValues, 2) == 36;
    assert Remaining(86, CoinValues, 3) == 11;
    assert Remaining(86, CoinValues, 4) == 1;
    assert Remaining(86, CoinValues, 5) == 1;
    assert Remaining(86, CoinValues, 6) == 0;
  }

  /** `convertCurrency` on 18 786 cents. */
  lemma ConvertCurrencyOf18786()
    ensures ToBillsAndCoins(18_786) == BillsAndCoinsResponse(1, 1, 1, 1, 1, 1, 0, 1, 1, 1, 0, 1)
  {
    BillPassOf18786();
    CoinPassOf86();
  }

  /** The bill pass on zero cents: no bill, nothing left. */
  lemma BillPassOf0()
    ensures BillPass(0) == Breakdown([0, 0, 0, 0, 0, 0, 0], 0)
  {
    BillValuesDescend();
    WalkSteps(0, BillValues);
    assert Remaining(0, BillValues, 1) == 0;
    assert Remaining(0, BillValues, 2) == 0;
    assert Remaining(0, BillValues, 3) == 0;
    assert Remaining(0, BillValues, 4) == 0;
    assert Remaining(0, BillValues, 5) == 0;
    assert Remaining(0, BillValues, 6) == 0;
    assert Remaining(0, BillValues, 7) == 0;
  }

  /** The coin pass on zero cents: no coin. */
  lemma CoinPassOf0()
    ensures CoinPass(0) == Breakdown([0, 0, 0, 0, 0, 0], 0)
  {
    CoinValuesDescend();
    WalkSteps(0, CoinValues);
    assert Remaining(0, CoinValues, 1) == 0;
    assert Remaining(0, CoinValues, 2) == 0;
    assert Remaining(0, CoinValues, 3) == 0;
    assert Remaining(0, CoinValues, 4) == 0;
    assert Remaining(0, CoinValues, 5) == 0;
    assert Remaining(0, CoinValues, 6) == 0;
  }

  /** `convertCurrency` on zero cents: every count is zero. */
  lemma ConvertCurrencyOf0()
    ensures ToBillsAndCoins(0) == BillsAndCoinsResponse(0, 0, 0, 0, 0, 0, 0, 0, 0, 0, 0, 0)
  {
    BillPassOf0();
    CoinPassOf0();
  }

  /** The bill pass on 20 000 cents: two $100 bills, nothing left. */
  lemma BillPassOf20000()
    ensures BillPass(20_000) == Breakdown([2, 0, 0, 0, 0, 0, 0], 0)
  {
    BillValuesDescend();
    WalkSteps(20_000, BillValues);
    assert Remaining(20_000, BillValues, 1) == 0;
    assert Remaining(20_000, BillValues, 2) == 0;
    assert Remaining(20_000, BillValues, 3) == 0;
    assert Remaining(20_000, BillValues, 4) == 0;
    assert Remaining(20_000, BillValues, 5) == 0;
    assert Remaining(20_000, BillValues, 6) == 0;
    assert Remaining(20_000, BillValues, 7) == 0;
  }

  /** `convertCurrency` on 20 000 cents: two $100 bills and nothing else. */
  lemma ConvertCurrencyOf20000()
    ensures ToBillsAndCoins(20_000) == BillsAndCoinsResponse(2, 0, 0, 0, 0, 0, 0, 0, 0, 0, 0, 0)
  {
    BillPassOf20000();
    CoinPassOf0();
  }

  /** The bill pass on 25 cents: no bill, all 25 cents left. */
  lemma BillPassOf25()
    ensures BillPass(25) == Breakdown([0, 0, 0, 0, 0, 0, 0], 25)
  {
    BillValuesDescend();
    WalkSteps(25, BillValues);
    assert Remaining(25, BillValues, 1) == 25;
    assert Remaining(25, BillValues, 2) == 25;
    assert Remaining(25, BillValues, 3) == 25;
    assert Remaining(25, BillValues, 4) == 25;
    assert Remaining(25, BillValues, 5) == 25;
    assert Remaining(25, BillValues, 6) == 25;
    assert Remaining(25, BillValues, 7) == 25;
  }

  /** The coin pass on 25 cents: a single quarter. */
  lemma CoinPassOf25()
    ensures CoinPass(25) == Breakdown([0, 0, 1, 0, 0, 0], 0)
  {
    CoinValuesDescend();
    WalkSteps(25, CoinValues);
    assert Remaining(25, CoinValues, 1) == 25;
    assert Remaining(25, CoinValues, 2) == 25;
    assert Remaining(25, CoinValues, 3) == 0;
    assert Remaining(25, CoinValues, 4) == 0;
    assert Remaining(25, CoinValues, 5) == 0;
    assert Remaining(25, CoinValues, 6) == 0;
  }

  /** `convertCurrency` on 25 cents: a single quarter. */
  lemma ConvertCurrencyOf25()
    ensures ToBillsAndCoins(25) == BillsAndCoinsResponse(0, 0, 0, 0, 0, 0, 0, 0, 1, 0, 0, 0)
  {
    BillPassOf25();
    CoinPassOf25();
  }

  /** The coin pass on 286 cents: two dollar coins, then 50 + 25 + 10 + 1. */
  lemma CoinPassOf286()
    ensures CoinPass(286) == Breakdown([2, 1, 1, 1, 0, 1], 0)
  {
    CoinValuesDescend();
    WalkSteps(286, CoinValues);
    assert Remaining(286, CoinValues, 1) == 86;
    assert Remaining(286, CoinValues, 2) == 36;
    assert Remaining(286, CoinValues, 3) == 11;
    assert Remaining(286, CoinValues, 4) == 1;
    assert Remaining(286, CoinValues, 5) == 1;
    assert Remaining(286, CoinValues, 6) == 0;
  }

  /** `convertCurrencyToCoins` on 286 cents, the dollar coin counted. */
  lemma ConvertCurrencyToCoinsOf286()
    ensures ToCoins(286) == CoinsResponse(2, 1, 1, 1, 0, 1)
  {
    CoinPassOf286();
  }

  /** The coin pass on one cent: a single penny. */
  lemma CoinPassOf1()
    ensures CoinPass(1) == Breakdown([0, 0, 0, 0, 0, 1], 0)
  {
    CoinValuesDescend();
    WalkSteps(1, CoinValues);
    assert Remaining(1, CoinValues, 1) == 1;
    assert Remaining(1, CoinValues, 2) == 1;
    assert Remaining(1, CoinValues, 3) == 1;
    assert Remaining(1, CoinValues, 4) == 1;
    assert Remaining(1, CoinValues, 5) == 1;
    assert Remaining(1, CoinValues, 6) == 0;
  }

  /** `convertCurrencyToCoins` on one cent: a single penny. */
  lemma ConvertCurrencyToCoinsOf1()
    ensures ToCoins(1) == CoinsResponse(0, 0, 0, 0, 0, 1)
  {
    CoinPassOf1();
  }

  /** The coin pass on 300 cents: three dollar coins. */
  lemma CoinPassOf300()
    ensures CoinPass(300) == Breakdown([3, 0, 0, 0, 0, 0], 0)
  {
    CoinValuesDescend();
    WalkSteps(300, CoinValues);
    assert Remaining(300, CoinValues, 1) == 0;
    assert Remaining(300, CoinValues, 2) == 0;
    assert Remaining(300, CoinValues, 3) == 0;
    assert Remaining(300, CoinValues, 4) == 0;
    assert Remaining(300, CoinValues, 5) == 0;
    assert Remaining(300, CoinValues, 6) == 0;
  }

  /** `convertCurrencyToCoins` on 300 cents: three dollar coins. */
  lemma ConvertCurrencyToCoinsOf300()
    ensures ToCoins(300) == CoinsResponse(3, 0, 0, 0, 0, 0)
  {
    CoinPassOf300();
  }

  /** The bill pass on 12 345 cents: $100 + $20 + $2 + $1, 45 cents left. */
  lemma BillPassOf12345()
    ensures BillPass(12_345) == Breakdown([1, 0, 1, 0, 0, 1, 1], 45)
  {
    BillValuesDescend();
    WalkSteps(12_345, BillValues);
    assert Remaining(12_345, BillValues, 1) == 2_345;
    assert Remaining(12_345, BillValues, 2) == 2_345;
    assert Remaining(12_345, BillValues, 3) == 345;
    assert Remaining(12_345, BillValues, 4) == 345;
    assert Remaining(12_345, BillValues, 5) == 345;
    assert Remaining(12_345, BillValues, 6) == 145;
    assert Remaining(12_345, BillValues, 7) == 45;
  }

  /** `convertCurrencyToBills` on 12 345 cents: the bills plus the left-over cents give back the amount. */
  lemma ConvertCurrencyToBillsOf12345()
    ensures ToBills(12_345) == BillsResponse(1, 0, 1, 0, 0, 1, 1, 45)
    ensures BillsValue(ToBills(12_345)) + ToBills(12_345).cents == 12_345
  {
    BillPassOf12345();
  }

  /** The bill pass on 3 000 cents: $20 + $10, nothing left. */
  lemma BillPassOf3000()
    ensures BillPass(3_000) == Breakdown([0, 0, 1, 1, 0, 0, 0], 0)
  {
    BillValuesDescend();
    WalkSteps(3_000, BillValues);
    assert Remaining(3_000, BillValues, 1) == 3_000;
    assert Remaining(3_000, BillValues, 2) == 3_000;
    assert Remaining(3_000, BillValues, 3) == 1_000;
    assert Remaining(3_000, BillValues, 4) == 0;
    assert Remaining(3_000, BillValues, 5) == 0;
    assert Remaining(3_000, BillValues, 6) == 0;
    assert Remaining(3_000, BillValues, 7) == 0;
  }

  /** `convertCurrencyToBills` on 3 000 cents: $20 + $10, no cents. */
  lemma ConvertCurrencyToBillsOf3000()
    ensures ToBills(3_000) == BillsResponse(0, 0, 1, 1, 0, 0, 0, 0)
  {
    BillPassOf3000();
  }

  /** The bill pass on one cent: no bill, the cent left. */
  lemma BillPassOf1()
    ensures BillPass(1) == Breakdown([0, 0, 0, 0, 0, 0, 0], 1)
  {
    BillValuesDescend();
    WalkSteps(1, BillValues);
    assert Remaining(1, BillValues, 1) == 1;
    assert Remaining(1, BillValues, 2) == 1;
    assert Remaining(1, BillValues, 3) == 1;
    assert Remaining(1, BillValues, 4) == 1;
    assert Remaining(1, BillValues, 5) == 1;
    assert Remaining(1, BillValues, 6) == 1;
    assert Remaining(1, BillValues, 7) == 1;
  }

  /** `convertCurrencyToBills` on one cent: no bill, the cent left over. */
  lemma ConvertCurrencyToBillsOf1()
    ensures ToBills(1) == BillsResponse(0, 0, 0, 0, 0, 0, 0, 1)
  {
    BillPassOf1();
  }
}
