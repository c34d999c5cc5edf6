/** Sums over the rows of a document table. */
module Sums {

  function SumOf<T>(rows: seq<T>, f: T -> int): int {
    if rows == [] then 0 else f(rows[0]) + SumOf(rows[1..], f)
  }

  lemma {:induction false} SumOfConcat<T>(a: seq<T>, b: seq<T>, f: T -> int)
    ensures SumOf(a + b, f) == SumOf(a, f) + SumOf(b, f)
  {
    if a == [] {
      assert a + b == b;
    } else {
      SumOfConcat(a[1..], b, f);
      assert (a + b)[1..] == a[1..] + b;
    }
  }

  lemma SumOfOne<T>(row: T, f: T -> int)
    ensures SumOf([row], f) == f(row)
  {
  }

  lemma {:induction false} SumOfUpdate<T>(rows: seq<T>, i: nat, row: T, f: T -> int)
    requires i < |rows|
    ensures SumOf(rows[i := row], f) == SumOf(rows, f) - f(rows[i]) + f(row)
  {
    if i == 0 {
      assert rows[i := row][1..] == rows[1..];
    } else {
      assert rows[i := row][1..] == rows[1..][i - 1 := row];
      SumOfUpdate(rows[1..], i - 1, row, f);
    }
  }

  /** One term of a sum of non-negative terms is at most the sum. */
  lemma {:induction false} TermAtMostSum<T>(rows: seq<T>, i: nat, f: T -> int)
    requires i < |rows|
    requires forall j :: 0 <= j < |rows| ==> f(rows[j]) >= 0
    ensures 0 <= f(rows[i]) <= SumOf(rows, f)
  {
    if i == 0 {
      SumNonNegative(rows[1..], f);
    } else {
      TermAtMostSum(rows[1..], i - 1, f);
    }
  }

  lemma {:induction false} SumNonNegative<T>(rows: seq<T>, f: T -> int)
    requires forall j :: 0 <= j < |rows| ==> f(rows[j]) >= 0
    ensures SumOf(rows, f) >= 0
  {
    if rows != [] {
      SumNonNegative(rows[1..], f);
    }
  }

  /** A sum of non-negative terms is zero exactly when every term is. */
  lemma {:induction false} SumZero<T>(rows: seq<T>, f: T -> int)
    requires forall j :: 0 <= j < |rows| ==> f(rows[j]) >= 0
    ensures SumOf(rows, f) == 0 <==> forall j :: 0 <= j < |rows| ==> f(rows[j]) == 0
  {
    if rows != [] {
      SumNonNegative(rows[1..], f);
      SumZero(rows[1..], f);
      assert forall j :: 0 < j < |rows| ==> rows[j] == rows[1..][j - 1];
    }
  }
}
