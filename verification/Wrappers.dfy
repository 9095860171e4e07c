/** Small datatypes and a function that several parts share. */
module Wrappers {

  datatype Option<+T> = None | Some(value: T)

  datatype Result<+T, +E> = Ok(value: T) | Err(error: E)

  function Repeat<T>(x: T, n: nat): (xs: seq<T>)
    ensures |xs| == n && forall i | 0 <= i < n :: xs[i] == x
  {
    seq(n, _ => x)
  }
}

/** Sums over the threads of a system, for the measures that show progress. */
module ThreadSums {

  function Total(amounts: seq<nat>): nat {
    if amounts == [] then 0 else amounts[0] + Total(amounts[1..])
  }

  lemma {:induction false} TotalUpdate(amounts: seq<nat>, t: nat, amount: nat)
    requires t < |amounts|
    ensures Total(amounts[t := amount]) + amounts[t] == Total(amounts) + amount
  {
    if t == 0 {
      assert amounts[t := amount][1..] == amounts[1..];
    } else {
      assert amounts[t := amount][1..] == amounts[1..][t - 1 := amount];
      TotalUpdate(amounts[1..], t - 1, amount);
    }
  }
}
