/** The coin table: six coins, declared from the largest to the smallest. */
module CoinEnum {
  import Greedy

  datatype Coin = Dollar | HalfDollar | Quarter | Dime | Nickel | Penny
  {
    /** The coin's value in cents, as given to its constant: between a penny and a dollar. */
    function Cents(): (c: nat)
      ensures c == CoinValues[Ordinal()]
      ensures 1 <= c <= 100
      ensures c == 100 <==> this == Dollar
    {
      match this
      case Dollar => 100
      case HalfDollar => 50
      case Quarter => 25
      case Dime => 10
      case Nickel => 5
      case Penny => 1
    }

    /** The constant's position in declaration order, which is where `Coins` lists it. */
    function Ordinal(): (i: nat)
      ensures i < |Coins| && Coins[i] == this
    {
      match this
      case Dollar => 0
      case HalfDollar => 1
      case Quarter => 2
      case Dime => 3
      case Nickel => 4
      case Penny => 5
    }
  }

  /** Every coin, in declaration order: the order in which the coin pass visits them. */
  const Coins: seq<Coin> := [Dollar, HalfDollar, Quarter, Dime, Nickel, Penny]

  /** The value in cents of each coin of `Coins`, position by position. */
  const CoinValues: seq<nat> := [100, 50, 25, 10, 5, 1]

  /** There are exactly six coins; the table lists each once, at its ordinal, with its value. */
  lemma CoinsInDeclarationOrder()
    ensures |Coins| == |CoinValues| == 6
    ensures forall c: Coin :: c in Coins
    ensures forall i :: 0 <= i < |Coins| ==> Coins[i].Ordinal() == i && Coins[i].Cents() == CoinValues[i]
  {
    forall c: Coin
      ensures c in Coins
    {
      assert Coins[c.Ordinal()] == c;
    }
  }

  /** The values descend strictly, are all positive, and end at the penny. */
  lemma CoinValuesDescend()
    ensures forall i, j :: 0 <= i < j < |CoinValues| ==> CoinValues[i] > CoinValues[j]
    ensures Greedy.Positive(CoinValues)
    ensures CoinValues[|CoinValues| - 1] == Penny.Cents() == 1
  {
  }
}
