/**
 * The number that a slot carries for the property values of its edge: every row of values has its
 * own number, and every number is that of a row.
 */
module Rows {
  // ------------------------------------------------------------------------------------
  // Numbers
  // ------------------------------------------------------------------------------------

  function Fold(n: int): (r: nat) { if n >= 0 then 2 * n else -2 * n - 1 }

  function Unfold(n: nat): (r: int) { if n % 2 == 0 then n / 2 else -(n / 2) - 1 }

  lemma FoldUnfold(n: nat)
    ensures Fold(Unfold(n)) == n
  {
  }

  lemma UnfoldFold(n: int)
    ensures Unfold(Fold(n)) == n
  {
  }

  function Join(a: nat, b: nat): (n: nat)
    ensures n > a
  {
    if a == 0 then 2 * b + 1 else 2 * Join(a - 1, b)
  }

  function Split(n: nat): (p: (nat, nat))
    requires n > 0
    ensures p.0 < n
  {
    if n % 2 == 1 then (0, n / 2) else (Split(n / 2).0 + 1, Split(n / 2).1)
  }

  lemma {:induction false} SplitJoin(a: nat, b: nat)
    ensures Split(Join(a, b)) == (a, b)
  {
    if a > 0 {
      SplitJoin(a - 1, b);
      assert Join(a, b) % 2 == 0 && Join(a, b) / 2 == Join(a - 1, b);
    }
  }

  lemma {:induction false} JoinSplit(n: nat)
    requires n > 0
    ensures Join(Split(n).0, Split(n).1) == n
  {
    if n % 2 == 0 { JoinSplit(n / 2); }
  }

  // ------------------------------------------------------------------------------------
  // Rows
  // ------------------------------------------------------------------------------------

  function Number(row: seq<int>): (n: nat) {
    if row == [] then 0 else Join(Number(row[..|row| - 1]), Fold(row[|row| - 1]))
  }

  function Listed(n: nat): (row: seq<int>) {
    if n == 0 then [] else Listed(Split(n).0) + [Unfold(Split(n).1)]
  }

  function Code(row: seq<int>): (d: int) { Unfold(Number(row)) }

  function Row(d: int): (row: seq<int>) { Listed(Fold(d)) }

  lemma {:induction false} ListedNumber(row: seq<int>)
    ensures Listed(Number(row)) == row
  {
    if row != [] {
      var p, z := row[..|row| - 1], row[|row| - 1];
      ListedNumber(p);
      SplitJoin(Number(p), Fold(z));
      UnfoldFold(z);
    }
  }

  lemma {:induction false} NumberListed(n: nat)
    ensures Number(Listed(n)) == n
  {
    if n > 0 {
      var p := Split(n);
      NumberListed(p.0);
      FoldUnfold(p.1);
      JoinSplit(n);
      assert Listed(n)[..|Listed(n)| - 1] == Listed(p.0);
    }
  }

  lemma RowCode(row: seq<int>)
    ensures Row(Code(row)) == row
  {
    FoldUnfold(Number(row));
    ListedNumber(row);
  }

  lemma CodeRow(d: int)
    ensures Code(Row(d)) == d
  {
    NumberListed(Fold(d));
    UnfoldFold(d);
  }

  /** Two rows with the same number are the same row. */
  lemma OneCode(a: seq<int>, b: seq<int>)
    ensures Code(a) == Code(b) <==> a == b
  {
    RowCode(a);
    RowCode(b);
  }
}
