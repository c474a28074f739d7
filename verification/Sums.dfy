/** Weighted sums over the rows of a table, and how a table update moves them. */
module Sums {

  function Sum<T>(rows: seq<T>, weight: T -> int): int {
    if rows == [] then 0 else Sum(rows[..|rows| - 1], weight) + weight(rows[|rows| - 1])
  }

  lemma SumAppend<T>(rows: seq<T>, row: T, weight: T -> int)
    ensures Sum(rows + [row], weight) == Sum(rows, weight) + weight(row)
  {
    assert (rows + [row])[..|rows|] == rows;
  }

  lemma {:induction false} SumUpdate<T>(rows: seq<T>, i: nat, row: T, weight: T -> int)
    requires i < |rows|
    ensures Sum(rows[i := row], weight) == Sum(rows, weight) - weight(rows[i]) + weight(row)
  {
    var last := |rows| - 1;
    if i == last {
      assert rows[i := row][..last] == rows[..last];
    } else {
      assert rows[i := row][..last] == rows[..last][i := row];
      SumUpdate(rows[..last], i, row, weight);
    }
  }

  /** A bulk rewrite of a table whose rows each lose a known amount. */
  lemma {:induction false} SumShift<T>(before: seq<T>, after: seq<T>, weight: T -> int, lost: T -> int)
    requires |before| == |after|
    requires forall i :: 0 <= i < |before| ==> weight(after[i]) == weight(before[i]) - lost(before[i])
    ensures Sum(after, weight) == Sum(before, weight) - Sum(before, lost)
  {
    if before != [] {
      var last := |before| - 1;
      SumShift(before[..last], after[..last], weight, lost);
    }
  }

  lemma {:induction false} SumSame<T>(before: seq<T>, after: seq<T>, weight: T -> int)
    requires |before| == |after|
    requires forall i :: 0 <= i < |before| ==> weight(after[i]) == weight(before[i])
    ensures Sum(after, weight) == Sum(before, weight)
  {
    if before != [] {
      var last := |before| - 1;
      SumSame(before[..last], after[..last], weight);
    }
  }

  lemma {:induction false} SumOrdered<T>(rows: seq<T>, low: T -> int, high: T -> int)
    requires forall i :: 0 <= i < |rows| ==> low(rows[i]) <= high(rows[i])
    ensures Sum(rows, low) <= Sum(rows, high)
  {
    if rows != [] {
      SumOrdered(rows[..|rows| - 1], low, high);
    }
  }

  lemma {:induction false} SumNonNegative<T>(rows: seq<T>, weight: T -> int)
    requires forall i :: 0 <= i < |rows| ==> weight(rows[i]) >= 0
    ensures Sum(rows, weight) >= 0
    ensures forall i :: 0 <= i < |rows| ==> weight(rows[i]) <= Sum(rows, weight)
  {
    if rows != [] {
      SumNonNegative(rows[..|rows| - 1], weight);
    }
  }

  lemma {:induction false} SumZero<T>(rows: seq<T>, weight: T -> int)
    requires forall i :: 0 <= i < |rows| ==> weight(rows[i]) == 0
    ensures Sum(rows, weight) == 0
  {
    if rows != [] {
      SumZero(rows[..|rows| - 1], weight);
    }
  }
}
