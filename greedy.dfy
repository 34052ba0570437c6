/** The greedy breakdown that `parseBills` and `parseCoins` perform, stated once over a table of
    denomination values (in cents, in iteration order). */
module Greedy {

  /** One count per denomination of the table, in table order, and the cents no denomination took. */
  datatype Breakdown = Breakdown(counts: seq<nat>, remainder: nat)

  /** Every denomination is worth something, so dividing by it is defined. */
  predicate Positive(values: seq<nat>)
  {
    forall i :: 0 <= i < |values| ==> values[i] > 0
  }

  /** Cents represented by `counts[i]` pieces of `values[i]`, summed over the table. */
  function Total(counts: seq<nat>, values: seq<nat>): nat
    requires |counts| == |values|
  {
    if counts == [] then 0 else counts[0] * values[0] + Total(counts[1..], values[1..])
  }

  /** `Total` over a suffix, with its first term split off. */
  lemma TotalFrom(counts: seq<nat>, values: seq<nat>, i: nat)
    requires |counts| == |values| && i < |values|
    ensures Total(counts[i..], values[i..]) == counts[i] * values[i] + Total(counts[i + 1..], values[i + 1..])
  {
    assert counts[i..][1..] == counts[i + 1..] && values[i..][1..] == values[i + 1..];
  }

  /** When every value is a multiple of `m`, so is any total over them. */
  lemma {:induction false} TotalMultipleOf(counts: seq<nat>, values: seq<nat>, m: nat)
    requires |counts| == |values| && m > 0
    requires forall i :: 0 <= i < |values| ==> values[i] % m == 0
    ensures Total(counts, values) % m == 0
  {
    if counts != [] {
      TotalMultipleOf(counts[1..], values[1..], m);
      MultipleTimes(counts[0], values[0], m);
      MultipleSum(counts[0] * values[0], Total(counts[1..], values[1..]), m);
    }
  }

  lemma MultipleTimes(c: nat, v: nat, m: nat)
    requires m > 0 && v % m == 0
    ensures (c * v) % m == 0
  {
    var k := v / m;
    assert v == k * m;
    assert c * v == (c * k) * m by {
      assert c * (k * m) == (c * k) * m;
    }
    DivModUnique(c * v, m, c * k, 0);
  }

  lemma MultipleSum(x: nat, y: nat, m: nat)
    requires m > 0 && x % m == 0 && y % m == 0
    ensures (x + y) % m == 0
  {
    var i, j := x / m, y / m;
    assert x == i * m && y == j * m;
    assert x + y == (i + j) * m;
    DivModUnique(x + y, m, i + j, 0);
  }

  /** The walk over the table: each denomination takes `remaining / value` pieces and passes
      `remaining % value` on to the next one; what is left after the last is the remainder. */
  function Decompose(amount: nat, values: seq<nat>): (b: Breakdown)
    requires Positive(values)
    ensures |b.counts| == |values|
    ensures b.remainder <= amount
  {
    if values == [] then Breakdown([], amount)
    else
      var rest := Decompose(amount % values[0], values[1..]);
      Breakdown([amount / values[0]] + rest.counts, rest.remainder)
  }

  /** A breakdown is greedy when it accounts for the whole amount and, at every position, what the
      later denominations and the remainder hold together is worth less than one more piece of the
      denomination at that position. */
  predicate IsGreedy(amount: nat, values: seq<nat>, b: Breakdown)
  {
    && |b.counts| == |values|
    && Total(b.counts, values) + b.remainder == amount
    && forall i :: 0 <= i < |values| ==> Total(b.counts[i + 1..], values[i + 1..]) + b.remainder < values[i]
  }

  /** Quotient and remainder are the only way to write `a` as `c * v + t` with `t < v`. */
  lemma DivModUnique(a: nat, v: nat, c: nat, t: nat)
    requires v > 0 && t < v && a == c * v + t
    ensures c == a / v && t == a % v
  {
    var q := a / v;
    assert a == q * v + a % v;
    MulMonotone(q + 1, c, v);
    MulMonotone(c + 1, q, v);
    if c > q {
      assert false;
    } else if c < q {
      assert false;
    }
  }

  lemma MulMonotone(x: nat, y: nat, v: nat)
    ensures x <= y ==> x * v + (y - x) * v == y * v && x * v <= y * v
  {
  }

  /** Conservation: the counts times the values, plus the remainder, give back the amount. */
  lemma {:induction false} Conservation(amount: nat, values: seq<nat>)
    requires Positive(values)
    ensures Total(Decompose(amount, values).counts, values) + Decompose(amount, values).remainder == amount
  {
    if values != [] {
      var v := values[0];
      var b := Decompose(amount, values);
      var rest := Decompose(amount % v, values[1..]);
      Conservation(amount % v, values[1..]);
      assert b.counts[1..] == rest.counts;
      assert amount == (amount / v) * v + amount % v;
    }
  }

  /** The remainder is smaller than every denomination of the table, whatever the order. */
  lemma {:induction false} RemainderBelowEvery(amount: nat, values: seq<nat>)
    requires Positive(values)
    ensures forall i :: 0 <= i < |values| ==> Decompose(amount, values).remainder < values[i]
  {
    if values != [] {
      var rest := Decompose(amount % values[0], values[1..]);
      RemainderBelowEvery(amount % values[0], values[1..]);
      assert rest.remainder <= amount % values[0] < values[0];
      forall i | 1 <= i < |values|
        ensures Decompose(amount, values).remainder < values[i]
      {
        assert values[1..][i - 1] == values[i];
      }
    }
  }

  /** The walk produces a greedy breakdown. */
  lemma {:induction false} DecomposeIsGreedy(amount: nat, values: seq<nat>)
    requires Positive(values)
    ensures IsGreedy(amount, values, Decompose(amount, values))
  {
    Conservation(amount, values);
    if values != [] {
      var v := values[0];
      var b := Decompose(amount, values);
      var rest := Decompose(amount % v, values[1..]);
      DecomposeIsGreedy(amount % v, values[1..]);
      assert b.counts[1..] == rest.counts;
      forall i | 0 <= i < |values|
        ensures Total(b.counts[i + 1..], values[i + 1..]) + b.remainder < values[i]
      {
        if i == 0 {
          assert Total(rest.counts, values[1..]) + rest.remainder == amount % v;
        } else {
          assert b.counts[i + 1..] == rest.counts[i..];
          assert values[i + 1..] == values[1..][i..];
          assert values[1..][i - 1] == values[i];
        }
      }
    }
  }

  /** A greedy breakdown is the one the walk produces: there is no other. */
  lemma {:induction false} GreedyIsUnique(amount: nat, values: seq<nat>, b: Breakdown)
    requires Positive(values)
    requires IsGreedy(amount, values, b)
    ensures b == Decompose(amount, values)
  {
    if values != [] {
      var v := values[0];
      var tail := Breakdown(b.counts[1..], b.remainder);
      var t := Total(tail.counts, values[1..]) + b.remainder;
      assert t < v;
      DivModUnique(amount, v, b.counts[0], t);
      forall i | 0 <= i < |values[1..]|
        ensures Total(tail.counts[i + 1..], values[1..][i + 1..]) + tail.remainder < values[1..][i]
      {
        assert tail.counts[i + 1..] == b.counts[i + 2..];
        assert values[1..][i + 1..] == values[i + 2..];
      }
      assert IsGreedy(amount % v, values[1..], tail);
      GreedyIsUnique(amount % v, values[1..], tail);
      assert b.counts == [b.counts[0]] + tail.counts;
    }
  }

  /** What is still to be broken down when the walk reaches position `i`: the amount reduced modulo
      each of the first `i` denominations in turn. */
  function Remaining(amount: nat, values: seq<nat>, i: nat): nat
    requires Positive(values) && i <= |values|
  {
    if i == 0 then amount else Remaining(amount, values, i - 1) % values[i - 1]
  }

  /** Starting the walk one denomination later, on what the first one left, sees the same amounts. */
  lemma {:induction false} RemainingShift(amount: nat, values: seq<nat>, i: nat)
    requires Positive(values) && values != [] && i < |values|
    ensures Remaining(amount, values, i + 1) == Remaining(amount % values[0], values[1..], i)
  {
    if i > 0 {
      RemainingShift(amount, values, i - 1);
      assert values[1..][i - 1] == values[i];
    }
  }

  /** Each step of the walk: the denomination at position `i` takes what is still to be broken down
      there divided by its value, and the final remainder is what is left after the last position. */
  lemma {:induction false} WalkSteps(amount: nat, values: seq<nat>)
    requires Positive(values)
    ensures forall i :: 0 <= i < |values| ==> Decompose(amount, values).counts[i] == Remaining(amount, values, i) / values[i]
    ensures Decompose(amount, values).remainder == Remaining(amount, values, |values|)
  {
    if values != [] {
      var v := values[0];
      var b := Decompose(amount, values);
      var rest := Decompose(amount % v, values[1..]);
      WalkSteps(amount % v, values[1..]);
      forall i | 0 <= i < |values|
        ensures b.counts[i] == Remaining(amount, values, i) / values[i]
      {
        if i > 0 {
          RemainingShift(amount, values, i - 1);
          assert b.counts[i] == rest.counts[i - 1];
          assert values[1..][i - 1] == values[i];
        }
      }
      RemainingShift(amount, values, |values| - 1);
    }
  }
}
