/** The conversion service: two greedy passes that fill per-denomination counters in place, and
    three entry points that run them on fresh counters and read the counters back into responses. */
module ConverterService {
  import opened Greedy
  import opened BillEnum
  import opened CoinEnum

  /** A counter keyed by the constants of one denomination table, filled in place with `Put`. */
  class Counter<K(==)> {
    var entries: map<K, nat>

    constructor ()
      ensures entries == map[]
    {
      entries := map[];
    }

    method Put(key: K, n: nat)
      modifies this
      ensures entries == old(entries)[key := n]
    {
      entries := entries[key := n];
    }
  }

  /** The combined response: seven bill counts, then the coins below a dollar. */
  datatype BillsAndCoinsResponse = BillsAndCoinsResponse(
    oneHundred: nat, fifty: nat, twenty: nat, ten: nat, five: nat, two: nat, one: nat,
    halfDollar: nat, quarter: nat, dime: nat, nickel: nat, penny: nat)

  /** The coins-only response: six coin counts, the dollar coin first. */
  datatype CoinsResponse = CoinsResponse(
    oneDollar: nat, halfDollar: nat, quarter: nat, dime: nat, nickel: nat, penny: nat)

  /** The bills-only response: seven bill counts and the cents no bill could take. */
  datatype BillsResponse = BillsResponse(
    oneHundred: nat, fifty: nat, twenty: nat, ten: nat, five: nat, two: nat, one: nat, cents: nat)

  /** Cents represented by a combined response. */
  function BillsAndCoinsValue(r: BillsAndCoinsResponse): nat
  {
    r.oneHundred * Hundred.Cents() + r.fifty * Fifty.Cents() + r.twenty * Twenty.Cents()
    + r.ten * Ten.Cents() + r.five * Five.Cents() + r.two * Two.Cents() + r.one * One.Cents()
    + r.halfDollar * HalfDollar.Cents() + r.quarter * Quarter.Cents() + r.dime * Dime.Cents()
    + r.nickel * Nickel.Cents() + r.penny * Penny.Cents()
  }

  /** Cents represented by a coins-only response. */
  function CoinsValue(r: CoinsResponse): nat
  {
    r.oneDollar * Dollar.Cents() + r.halfDollar * HalfDollar.Cents() + r.quarter * Quarter.Cents()
    + r.dime * Dime.Cents() + r.nickel * Nickel.Cents() + r.penny * Penny.Cents()
  }

  /** Cents represented by the bills of a bills-only response (its `cents` field excluded). */
  function BillsValue(r: BillsResponse): nat
  {
    r.oneHundred * Hundred.Cents() + r.fifty * Fifty.Cents() + r.twenty * Twenty.Cents()
    + r.ten * Ten.Cents() + r.five * Five.Cents() + r.two * Two.Cents() + r.one * One.Cents()
  }

  /** The greedy breakdown over the bill table. */
  function BillPass(amount: nat): (d: Breakdown)
    ensures |d.counts| == |Bills|
  {
    BillValuesDescend();
    Decompose(amount, BillValues)
  }

  /** The greedy breakdown over the coin table. */
  function CoinPass(amount: nat): (d: Breakdown)
    ensures |d.counts| == |Coins|
  {
    CoinValuesDescend();
    Decompose(amount, CoinValues)
  }

  /** The bill counter once the first `i` bills have been put, `counts` giving each bill's count. */
  function BillsFilled(counts: seq<nat>, i: nat): map<Bill, nat>
    requires |counts| == |Bills|
  {
    map b: Bill | b in Bills && b.Ordinal() < i :: counts[b.Ordinal()]
  }

  /** The coin counter once the first `i` coins have been put, `counts` giving each coin's count. */
  function CoinsFilled(counts: seq<nat>, i: nat): map<Coin, nat>
    requires |counts| == |Coins|
  {
    map c: Coin | c in Coins && c.Ordinal() < i :: counts[c.Ordinal()]
  }

  /** The counter the bill pass leaves for `amount`: every bill has an entry, zero counts included,
      and each entry is that bill's greedy count. */
  function BillCounts(amount: nat): (m: map<Bill, nat>)
    ensures forall b: Bill :: b in m && m[b] == BillPass(amount).counts[b.Ordinal()]
  {
    BillsInDeclarationOrder();
    BillsFilled(BillPass(amount).counts, |Bills|)
  }

  /** The counter the coin pass leaves for `amount`: every coin has an entry, zero counts included,
      and each entry is that coin's greedy count. */
  function CoinCounts(amount: nat): (m: map<Coin, nat>)
    ensures forall c: Coin :: c in m && m[c] == CoinPass(amount).counts[c.Ordinal()]
  {
    CoinsInDeclarationOrder();
    CoinsFilled(CoinPass(amount).counts, |Coins|)
  }

  lemma BillsFilledStep(counts: seq<nat>, i: nat)
    requires |counts| == |Bills| && i < |Bills|
    ensures BillsFilled(counts, i + 1) == BillsFilled(counts, i)[Bills[i] := counts[i]]
  {
    BillsInDeclarationOrder();
  }

  lemma CoinsFilledStep(counts: seq<nat>, i: nat)
    requires |counts| == |Coins| && i < |Coins|
    ensures CoinsFilled(counts, i + 1) == CoinsFilled(counts, i)[Coins[i] := counts[i]]
  {
    CoinsInDeclarationOrder();
  }

  lemma MergeThenPut<K, V>(m: map<K, V>, f: map<K, V>, k: K, v: V)
    ensures (m + f)[k := v] == m + f[k := v]
  {
  }

  /** `parseBills`: for each bill in declaration order, put `remaining / cents` into the counter and
      keep `remaining % cents`; return what is left. Every bill gets an entry, so afterwards the
      counter holds exactly the greedy bill counts, whatever it held before. */
  method ParseBills(remaining: nat, billCounter: Counter<Bill>) returns (rest: nat)
    modifies billCounter
    ensures billCounter.entries == BillCounts(remaining)
    ensures rest == BillPass(remaining).remainder
  {
    BillsInDeclarationOrder();
    BillValuesDescend();
    ghost var goal := BillPass(remaining);
    WalkSteps(remaining, BillValues);
    rest := remaining;
    var i := 0;
    while i < |Bills|
      invariant 0 <= i <= |Bills|
      invariant rest == Remaining(remaining, BillValues, i)
      invariant billCounter.entries == old(billCounter.entries) + BillsFilled(goal.counts, i)
    {
      var b := Bills[i];
      var n := rest / b.Cents();
      BillsFilledStep(goal.counts, i);
      MergeThenPut(old(billCounter.entries), BillsFilled(goal.counts, i), b, n);
      billCounter.Put(b, n);
      rest := rest % b.Cents();
      i := i + 1;
    }
  }

  /** `parseCoins`: for each coin in declaration order, put `remaining / cents` into the counter and
      keep `remaining % cents`. Every coin gets an entry, so afterwards the counter holds exactly the
      greedy coin counts, whatever it held before; what is left is dropped. */
  method ParseCoins(remaining: nat, coinsCounter: Counter<Coin>)
    modifies coinsCounter
    ensures coinsCounter.entries == CoinCounts(remaining)
  {
    CoinsInDeclarationOrder();
    CoinValuesDescend();
    ghost var goal := CoinPass(remaining);
    WalkSteps(remaining, CoinValues);
    var rest: nat := remaining;
    var i := 0;
    while i < |Coins|
      invariant 0 <= i <= |Coins|
      invariant rest == Remaining(remaining, CoinValues, i)
      invariant coinsCounter.entries == old(coinsCounter.entries) + CoinsFilled(goal.counts, i)
    {
      var c := Coins[i];
      var n := rest / c.Cents();
      CoinsFilledStep(goal.counts, i);
      MergeThenPut(old(coinsCounter.entries), CoinsFilled(goal.counts, i), c, n);
      coinsCounter.Put(c, n);
      rest := rest % c.Cents();
      i := i + 1;
    }
  }

  /** The response `convertCurrency` builds for `cents`: the bill counts, then the coin counts of what
      the bill pass left, the dollar coin not reported. */
  function ToBillsAndCoins(cents: nat): BillsAndCoinsResponse
  {
    var d := BillPass(cents);
    var e := CoinPass(d.remainder);
    BillsAndCoinsResponse(
      d.counts[0], d.counts[1], d.counts[2], d.counts[3], d.counts[4], d.counts[5], d.counts[6],
      e.counts[1], e.counts[2], e.counts[3], e.counts[4], e.counts[5])
  }

  /** The response `convertCurrencyToCoins` builds for `cents`. */
  function ToCoins(cents: nat): CoinsResponse
  {
    var e := CoinPass(cents);
    CoinsResponse(e.counts[0], e.counts[1], e.counts[2], e.counts[3], e.counts[4], e.counts[5])
  }

  /** The response `convertCurrencyToBills` builds for `cents`. */
  function ToBills(cents: nat): BillsResponse
  {
    var d := BillPass(cents);
    BillsResponse(
      d.counts[0], d.counts[1], d.counts[2], d.counts[3], d.counts[4], d.counts[5], d.counts[6],
      d.remainder)
  }

  /** The bill pass conserves the amount: its counts times the bill values, plus what it leaves,
      give back `amount`. */
  lemma BillPassConserves(amount: nat)
    ensures var d := BillPass(amount);
      d.counts[0] * Hundred.Cents() + d.counts[1] * Fifty.Cents() + d.counts[2] * Twenty.Cents()
      + d.counts[3] * Ten.Cents() + d.counts[4] * Five.Cents() + d.counts[5] * Two.Cents()
      + d.counts[6] * One.Cents() + d.remainder == amount
  {
    BillValuesDescend();
    var d := BillPass(amount);
    Conservation(amount, BillValues);
    assert d.counts[0..] == d.counts && BillValues[0..] == BillValues;
    TotalFrom(d.counts, BillValues, 0);
    TotalFrom(d.counts, BillValues, 1);
    TotalFrom(d.counts, BillValues, 2);
    TotalFrom(d.counts, BillValues, 3);
    TotalFrom(d.counts, BillValues, 4);
    TotalFrom(d.counts, BillValues, 5);
    TotalFrom(d.counts, BillValues, 6);
  }

  /** The coin pass conserves the amount and leaves nothing, the penny being worth one cent. */
  lemma CoinPassConserves(amount: nat)
    ensures var e := CoinPass(amount);
      e.remainder == 0
      && e.counts[0] * Dollar.Cents() + e.counts[1] * HalfDollar.Cents() + e.counts[2] * Quarter.Cents()
      + e.counts[3] * Dime.Cents() + e.counts[4] * Nickel.Cents() + e.counts[5] * Penny.Cents() == amount
  {
    CoinValuesDescend();
    var e := CoinPass(amount);
    Conservation(amount, CoinValues);
    RemainderBelowEvery(amount, CoinValues);
    assert e.remainder < CoinValues[5];
    assert e.counts[0..] == e.counts && CoinValues[0..] == CoinValues;
    TotalFrom(e.counts, CoinValues, 0);
    TotalFrom(e.counts, CoinValues, 1);
    TotalFrom(e.counts, CoinValues, 2);
    TotalFrom(e.counts, CoinValues, 3);
    TotalFrom(e.counts, CoinValues, 4);
    TotalFrom(e.counts, CoinValues, 5);
  }

  /** Every bill is a whole number of dollars, so what the bill pass leaves is exactly the part of the
      amount below a dollar. */
  lemma BillsLeaveCentsPart(amount: nat)
    ensures BillPass(amount).remainder == amount % 100
  {
    BillsInDeclarationOrder();
    BillValuesDescend();
    var d := BillPass(amount);
    Conservation(amount, BillValues);
    forall i | 0 <= i < |BillValues|
      ensures BillValues[i] % 100 == 0
    {
      assert Bills[i].Cents() == BillValues[i];
    }
    TotalMultipleOf(d.counts, BillValues, 100);
    RemainderBelowEvery(amount, BillValues);
    assert d.remainder < BillValues[6];
    DivModUnique(amount, 100, Total(d.counts, BillValues) / 100, d.remainder);
  }

  /** After the bill pass fewer than 100 cents remain, and the dollar coin is worth 100, so the coin
      pass of `convertCurrency` never counts a dollar coin: leaving it out of the response loses
      nothing. */
  lemma CombinedCountsNoDollarCoin(cents: nat)
    ensures CoinPass(BillPass(cents).remainder).counts[Dollar.Ordinal()] == 0
  {
    BillsLeaveCentsPart(cents);
    CoinValuesDescend();
  }

  /** `convertCurrency` conserves the amount: its twelve reported counts are worth `cents`. */
  lemma CombinedConserves(cents: nat)
    ensures BillsAndCoinsValue(ToBillsAndCoins(cents)) == cents
  {
    BillPassConserves(cents);
    CoinPassConserves(BillPass(cents).remainder);
    CombinedCountsNoDollarCoin(cents);
  }

  /** `convertCurrencyToCoins` conserves the amount exactly. */
  lemma CoinsOnlyConserves(cents: nat)
    ensures CoinsValue(ToCoins(cents)) == cents
  {
    CoinPassConserves(cents);
  }

  /** `convertCurrencyToBills` conserves the amount, bills and `cents` field together, and `cents`
      is the part of the amount below a dollar. */
  lemma BillsOnlyConserves(cents: nat)
    ensures BillsValue(ToBills(cents)) + ToBills(cents).cents == cents
    ensures ToBills(cents).cents == cents % 100 < 100
  {
    BillPassConserves(cents);
    BillsLeaveCentsPart(cents);
  }

  /** `convertCurrency`: run the bill pass, then the coin pass on what it left, and read both
      counters back into the response. */
  method ConvertCurrency(cents: nat) returns (dto: BillsAndCoinsResponse)
    ensures dto == ToBillsAndCoins(cents)
    ensures BillsAndCoinsValue(dto) == cents
  {
    var remaining := cents;
    var billCounter := new Counter<Bill>();
    var coinsCounter := new Counter<Coin>();
    remaining := ParseBills(remaining, billCounter);
    ParseCoins(remaining, coinsCounter);
    var bills, coins := billCounter.entries, coinsCounter.entries;
    dto := BillsAndCoinsResponse(
      bills[Hundred], bills[Fifty], bills[Twenty], bills[Ten], bills[Five], bills[Two], bills[One],
      coins[HalfDollar], coins[Quarter], coins[Dime], coins[Nickel], coins[Penny]);
    CombinedConserves(cents);
  }

  /** `convertCurrencyToCoins`: run the coin pass alone and read the coin counter back. */
  method ConvertCurrencyToCoins(cents: nat) returns (dto: CoinsResponse)
    ensures dto == ToCoins(cents)
    ensures CoinsValue(dto) == cents
  {
    var remaining := cents;
    var coinsCounter := new Counter<Coin>();
    ParseCoins(remaining, coinsCounter);
    var coins := coinsCounter.entries;
    dto := CoinsResponse(coins[Dollar], coins[HalfDollar], coins[Quarter], coins[Dime], coins[Nickel], coins[Penny]);
    CoinsOnlyConserves(cents);
  }

  /** `convertCurrencyToBills`: run the bill pass alone; the response carries what it left as `cents`. */
  method ConvertCurrencyToBills(cents: nat) returns (dto: BillsResponse)
    ensures dto == ToBills(cents)
    ensures BillsValue(dto) + dto.cents == cents
    ensures dto.cents == cents % 100
  {
    var remaining := cents;
    var billCounter := new Counter<Bill>();
    remaining := ParseBills(remaining, billCounter);
    var bills := billCounter.entries;
    dto := BillsResponse(
      bills[Hundred], bills[Fifty], bills[Twenty], bills[Ten], bills[Five], bills[Two], bills[One],
      remaining);
    BillsOnlyConserves(cents);
  }
}
