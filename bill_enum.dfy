/** The bill table: seven notes, declared from the largest to the smallest. */
module BillEnum {
  import Greedy

  datatype Bill = Hundred | Fifty | Twenty | Ten | Five | Two | One
  {
    /** The bill's value in cents, as given to its constant: a whole number of dollars. */
    function Cents(): (c: nat)
      ensures c == BillValues[Ordinal()]
      ensures c >= 100 && c % 100 == 0
    {
      match this
      case Hundred => 10_000
      case Fifty => 5_000
      case Twenty => 2_000
      case Ten => 1_000
      case Five => 500
      case Two => 200
      case One => 100
    }

    /** The constant's position in declaration order, which is where `Bills` lists it. */
    function Ordinal(): (i: nat)
      ensures i < |Bills| && Bills[i] == this
    {
      match this
      case Hundred => 0
      case Fifty => 1
      case Twenty => 2
      case Ten => 3
      case Five => 4
      case Two => 5
      case One => 6
    }
  }

  /** Every bill, in declaration order: the order in which the bill pass visits them. */
  const Bills: seq<Bill> := [Hundred, Fifty, Twenty, Ten, Five, Two, One]

  /** The value in cents of each bill of `Bills`, position by position. */
  const BillValues: seq<nat> := [10_000, 5_000, 2_000, 1_000, 500, 200, 100]

  /** There are exactly seven bills; the table lists each once, at its ordinal, with its value. */
  lemma BillsInDeclarationOrder()
    ensures |Bills| == |BillValues| == 7
    ensures forall b: Bill :: b in Bills
    ensures forall i :: 0 <= i < |Bills| ==> Bills[i].Ordinal() == i && Bills[i].Cents() == BillValues[i]
  {
    forall b: Bill
      ensures b in Bills
    {
      assert Bills[b.Ordinal()] == b;
    }
  }

  /** The values descend strictly, are all positive, and end at the one-dollar bill. */
  lemma BillValuesDescend()
    ensures forall i, j :: 0 <= i < j < |BillValues| ==> BillValues[i] > BillValues[j]
    ensures Greedy.Positive(BillValues)
    ensures BillValues[|BillValues| - 1] == One.Cents() == 100
  {
  }
}
