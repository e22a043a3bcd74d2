/** Tables of amounts between two accounts, with the sums of their rows and columns. */
module Tables {
  import opened Sums

  type Table = map<(nat, nat), int>

  function Cell(t: Table, i: nat, j: nat): int {
    if (i, j) in t then t[(i, j)] else 0
  }

  ghost function RowTerm(t: Table, i: nat): nat -> int {
    (j: nat) => Cell(t, i, j)
  }

  ghost function ColumnTerm(t: Table, j: nat): nat -> int {
    (i: nat) => Cell(t, i, j)
  }

  ghost function RowSum(t: Table, i: nat, n: nat): int {
    Sum(n, RowTerm(t, i))
  }

  ghost function ColumnSum(t: Table, j: nat, n: nat): int {
    Sum(n, ColumnTerm(t, j))
  }

  /** The two tables differ in one cell at most. */
  ghost predicate OneCell(t: Table, t': Table, i: nat, j: nat) {
    forall x: nat, y: nat :: !(x == i && y == j) ==> Cell(t', x, y) == Cell(t, x, y)
  }

  lemma {:induction false} CellChanged(t: Table, t': Table, i: nat, j: nat, n: nat)
    requires OneCell(t, t', i, j) && i < n && j < n
    ensures forall x: nat :: RowSum(t', x, n) == RowSum(t, x, n) + if x == i then Cell(t', i, j) - Cell(t, i, j) else 0
    ensures forall y: nat ::
      ColumnSum(t', y, n) == ColumnSum(t, y, n) + if y == j then Cell(t', i, j) - Cell(t, i, j) else 0
  {
    forall x: nat
      ensures RowSum(t', x, n) == RowSum(t, x, n) + if x == i then Cell(t', i, j) - Cell(t, i, j) else 0
    {
      if x == i {
        SumChange(n, RowTerm(t, i), RowTerm(t', i), j);
      } else {
        SumEqual(n, RowTerm(t, x), RowTerm(t', x));
      }
    }
    forall y: nat
      ensures ColumnSum(t', y, n) == ColumnSum(t, y, n) + if y == j then Cell(t', i, j) - Cell(t, i, j) else 0
    {
      if y == j {
        SumChange(n, ColumnTerm(t, j), ColumnTerm(t', j), i);
      } else {
        SumEqual(n, ColumnTerm(t, y), ColumnTerm(t', y));
      }
    }
  }

  ghost function RowsTerm(t: Table, n: nat): nat -> int {
    (i: nat) => RowSum(t, i, n)
  }

  ghost function ColumnsTerm(t: Table, n: nat): nat -> int {
    (j: nat) => ColumnSum(t, j, n)
  }

  /** All rows together are all columns together. */
  lemma {:induction false} RowsAreColumns(t: Table, n: nat)
    ensures Sum(n, RowsTerm(t, n)) == Sum(n, ColumnsTerm(t, n))
  {
    var f, g := (i: nat) => RowTerm(t, i), (j: nat) => ColumnTerm(t, j);
    SumSwap(n, n, f, g, RowsTerm(t, n), ColumnsTerm(t, n));
  }

  /** No entries beyond the first `n` rows and columns. */
  ghost predicate Inside(t: Table, n: nat) {
    forall x: nat, y: nat :: x >= n || y >= n ==> Cell(t, x, y) == 0
  }

  /** Room for one more account does not change the sums. */
  lemma {:induction false} Grown(t: Table, n: nat)
    requires Inside(t, n)
    ensures forall x: nat :: RowSum(t, x, n + 1) == RowSum(t, x, n) && ColumnSum(t, x, n + 1) == ColumnSum(t, x, n)
    ensures RowSum(t, n, n + 1) == 0 && ColumnSum(t, n, n + 1) == 0
  {
    forall x: nat
      ensures RowSum(t, x, n + 1) == RowSum(t, x, n) && ColumnSum(t, x, n + 1) == ColumnSum(t, x, n)
    {
      assert RowTerm(t, x)(n) == 0 && ColumnTerm(t, x)(n) == 0;
    }
    SumZero(n, RowTerm(t, n));
    SumZero(n, ColumnTerm(t, n));
  }

  /** A row of non-negative cells has a non-negative sum. */
  lemma {:induction false} RowNotNegative(t: Table, i: nat, n: nat)
    requires forall x: nat, y: nat :: Cell(t, x, y) >= 0
    ensures RowSum(t, i, n) >= 0
  {
    SumNotNegative(n, RowTerm(t, i));
  }
}
