/** Sums of vector terms indexed by pairs of bodies, accumulated in the order
    the engines' nested loops visit the pairs, and the two facts the force
    laws need of them: a sum of scaled terms is the scaled sum, and
    antisymmetric terms cancel over all ordered pairs. */
module Sums {
  import opened Bodies

  /** Sum over `j < m`, `j != i`, of `T(i, j)`, in increasing `j`. */
  function RowSum(T: (nat, nat) -> Vector2, i: nat, m: nat): Vector2 {
    if m == 0 then Zero
    else if m - 1 == i then RowSum(T, i, m - 1)
    else Add(RowSum(T, i, m - 1), T(i, m - 1))
  }

  /** Sum over `i < r` of `RowSum(T, i, m)`. */
  function GridSum(T: (nat, nat) -> Vector2, r: nat, m: nat): Vector2 {
    if r == 0 then Zero else Add(GridSum(T, r - 1, m), RowSum(T, r - 1, m))
  }

  /** Sum over `i < r` of `T(i, m)`. */
  function ColumnSum(T: (nat, nat) -> Vector2, r: nat, m: nat): Vector2 {
    if r == 0 then Zero else Add(ColumnSum(T, r - 1, m), T(r - 1, m))
  }

  /** A row of terms that are `s` times other terms sums to `s` times their sum. */
  lemma {:induction false} RowSumScaled(T: (nat, nat) -> Vector2, U: (nat, nat) -> Vector2, s: real, i: nat, m: nat)
    requires forall j: nat :: j < m ==> T(i, j) == Scale(U(i, j), s)
    ensures RowSum(T, i, m) == Scale(RowSum(U, i, m), s)
  {
    if m > 0 {
      RowSumScaled(T, U, s, i, m - 1);
      if m - 1 != i {
        ScaleAdd(RowSum(U, i, m - 1), U(i, m - 1), s);
      }
    }
  }

  /** Scaling distributes over addition. */
  lemma ScaleAdd(u: Vector2, v: Vector2, s: real)
    ensures Scale(Add(u, v), s) == Add(Scale(u, s), Scale(v, s))
  {
  }

  /** Rows of equal terms have equal sums. */
  lemma {:induction false} RowSumAgree(T: (nat, nat) -> Vector2, U: (nat, nat) -> Vector2, i: nat, m: nat)
    requires forall j: nat :: j < m ==> T(i, j) == U(i, j)
    ensures RowSum(T, i, m) == RowSum(U, i, m)
  {
    if m > 0 {
      RowSumAgree(T, U, i, m - 1);
    }
  }

  /** Widening the grid by one column adds that column. */
  lemma {:induction false} GridSumStep(T: (nat, nat) -> Vector2, r: nat, m: nat)
    requires r <= m
    ensures GridSum(T, r, m + 1) == Add(GridSum(T, r, m), ColumnSum(T, r, m))
  {
    if r > 0 {
      GridSumStep(T, r - 1, m);
    }
  }

  /** For antisymmetric terms, column `m` and row `m` of the first `r` indices cancel. */
  lemma {:induction false} ColumnCancelsRow(T: (nat, nat) -> Vector2, r: nat, m: nat)
    requires r <= m
    requires forall i: nat, j: nat :: i <= m && j <= m ==> T(i, j) == Neg(T(j, i))
    ensures Add(ColumnSum(T, r, m), RowSum(T, m, r)) == Zero
  {
    if r > 0 {
      ColumnCancelsRow(T, r - 1, m);
      assert T(r - 1, m) == Neg(T(m, r - 1));
    }
  }

  /** Antisymmetric terms cancel: the sum over all ordered pairs `i != j`
      below `n` is zero. */
  lemma {:induction false} AntisymmetricGridZero(T: (nat, nat) -> Vector2, n: nat)
    requires forall i: nat, j: nat :: i < n && j < n ==> T(i, j) == Neg(T(j, i))
    ensures GridSum(T, n, n) == Zero
  {
    if n > 0 {
      var q := n - 1;
      AntisymmetricGridZero(T, q);
      GridSumStep(T, q, q);
      ColumnCancelsRow(T, q, q);
      assert RowSum(T, q, n) == RowSum(T, q, q);
    }
  }
}
