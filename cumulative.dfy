/**
  `cum2inst` of iRONS/Functions/Data_management/cum2inst.py (the copy in
  Toolbox/Data_management/cum2inst.py is the same kernel): cumulative data,
  one row per time step and one column per variable, turned into the amount
  of each step. Row 0 is kept; every later entry is the increase since the
  previous row, clipped at zero. Columns are handled independently.
 */
module Cumulative {
  import opened Tables
  import opened ReservoirStep

  /** Column i of `cum2inst`'s result for the cumulative column `col`. */
  function Increments(col: seq<real>): seq<real> {
    seq(|col|, j requires 0 <= j < |col| => Increase(col, j))
  }

  /** Entry j of `Increments(col)`. */
  function Increase(col: seq<real>, j: nat): real
    requires j < |col|
  {
    if j == 0 then col[0] else Max(col[j] - col[j - 1], 0.0)
  }

  /** The sum of a column. */
  function Sum(xs: seq<real>): real
    decreases |xs|
  {
    if |xs| == 0 then 0.0 else Sum(xs[..|xs| - 1]) + xs[|xs| - 1]
  }

  /** The running totals of a column (`np.cumsum`), the inverse of differencing. */
  function Totals(xs: seq<real>): seq<real> {
    seq(|xs|, j requires 0 <= j < |xs| => Sum(xs[..j + 1]))
  }

  /** Each value at least the one before it. */
  predicate Rising(col: seq<real>) {
    forall j :: 0 < j < |col| ==> col[j - 1] <= col[j]
  }

  /** Amounts never negative after the first step. */
  predicate NonNegativeAfterFirst(xs: seq<real>) {
    forall j :: 0 < j < |xs| ==> 0.0 <= xs[j]
  }

  /** The increments after row 0 are never negative and never below the
      actual change, and equal it where the data do not fall. */
  lemma IncrementsShape(col: seq<real>)
    ensures var inc := Increments(col);
      && |inc| == |col| && NonNegativeAfterFirst(inc)
      && (0 < |col| ==> inc[0] == col[0])
      && forall j :: 0 < j < |col| ==> (inc[j] >= col[j] - col[j - 1]
           && (col[j - 1] <= col[j] <==> inc[j] == col[j] - col[j - 1]))
  {
  }

  /** Summing one more entry extends the running total. */
  lemma SumOfPrefix(xs: seq<real>, j: nat)
    requires 0 < j <= |xs|
    ensures Sum(xs[..j]) == Sum(xs[..j - 1]) + xs[j - 1]
  {
    assert xs[..j][..j - 1] == xs[..j - 1];
  }

  /** The running totals of the increments never fall below the data. */
  lemma {:induction false} TotalsOfIncrementsAtLeast(col: seq<real>, j: nat)
    requires j < |col|
    ensures Totals(Increments(col))[j] >= col[j]
  {
    var inc := Increments(col);
    SumOfPrefix(inc, j + 1);
    if j > 0 {
      TotalsOfIncrementsAtLeast(col, j - 1);
      SumOfPrefix(inc, j);
    } else {
      assert inc[..0] == [];
    }
  }

  /**
    Round trip: the running totals of the increments give back the
    cumulative data exactly when every value is at least the one before it.
   */
  lemma RoundTrip(col: seq<real>)
    ensures Totals(Increments(col)) == col <==> Rising(col)
  {
    var inc := Increments(col);
    if Rising(col) {
      forall j | 0 <= j < |col|
        ensures Totals(inc)[j] == col[j]
      {
        RisingTotals(col, j);
      }
    }
    if Totals(inc) == col {
      forall j | 0 < j < |col|
        ensures col[j - 1] <= col[j]
      {
        SumOfPrefix(inc, j + 1);
        assert Totals(inc)[j] == Totals(inc)[j - 1] + inc[j];
      }
    }
  }

  /** Induction behind `RoundTrip`: with rising data the running total at j is the data at j. */
  lemma {:induction false} RisingTotals(col: seq<real>, j: nat)
    requires Rising(col) && j < |col|
    ensures Totals(Increments(col))[j] == col[j]
  {
    var inc := Increments(col);
    SumOfPrefix(inc, j + 1);
    if j > 0 {
      RisingTotals(col, j - 1);
      SumOfPrefix(inc, j);
    } else {
      assert inc[..0] == [];
    }
  }

  /** The other direction: differencing the running totals of amounts that
      are never negative after the first gives the amounts back. */
  lemma IncrementsOfTotals(xs: seq<real>)
    requires NonNegativeAfterFirst(xs)
    ensures Increments(Totals(xs)) == xs
  {
    var t := Totals(xs);
    forall j | 0 <= j < |xs|
      ensures Increments(t)[j] == xs[j]
    {
      SumOfPrefix(xs, j + 1);
      if j == 0 {
        assert xs[..0] == [];
      }
    }
  }

  /** `[[10], [20], [20]]` gives `[[10], [10], [0]]`. */
  lemma TenTwentyTwenty()
    ensures Increments(Column([[10.0], [20.0], [20.0]], 0)) == [10.0, 10.0, 0.0]
  {
    var col := Column([[10.0], [20.0], [20.0]], 0);
    assert col == [10.0, 20.0, 20.0];
  }

  /** The inner loop: entries 1.. of column i get the clipped increases. */
  method FillColumn(inst: array2<real>, cum: Matrix, i: nat)
    requires 0 < |cum| == inst.Length0 && i < inst.Length1 && IsShape(cum, |cum|, inst.Length1)
    modifies inst
    ensures forall j :: 0 < j < |cum| ==> inst[j, i] == Increments(Column(cum, i))[j]
    ensures forall j, c :: 0 <= j < inst.Length0 && 0 <= c < inst.Length1 && (c != i || j == 0) ==>
      inst[j, c] == old(inst[j, c])
  {
    var col := Column(cum, i);
    var j := 0;
    while j < |cum| - 1
      invariant 0 <= j <= |cum| - 1
      invariant forall l :: 0 < l <= j ==> inst[l, i] == Increments(col)[l]
      invariant forall l, c :: 0 <= l < inst.Length0 && 0 <= c < inst.Length1 && (c != i || l == 0 || l > j) ==>
        inst[l, c] == old(inst[l, c])
    {
      inst[j + 1, i] := Max(cum[j + 1][i] - cum[j][i], 0.0);
      j := j + 1;
    }
  }

  /**
    `cum2inst`: a table of the same shape whose column i is the increments
    of column i of the input.
   */
  method Cum2Inst(cum: Matrix) returns (inst: array2<real>)
    requires Rectangular(cum)
    ensures fresh(inst) && inst.Length0 == |cum| && inst.Length1 == Width(cum)
    ensures forall j, i :: 0 <= j < |cum| && 0 <= i < Width(cum) ==> inst[j, i] == Increments(Column(cum, i))[j]
  {
    var rows := |cum|;
    var cols := |cum[0]|;
    inst := new real[rows, cols];
    var i := 0;
    while i < cols
      invariant 0 <= i <= cols
      invariant forall j, c :: 0 < j < rows && 0 <= c < i ==> inst[j, c] == Increments(Column(cum, c))[j]
    {
      FillColumn(inst, cum, i);
      i := i + 1;
    }
    var c := 0;
    while c < cols
      invariant 0 <= c <= cols
      invariant forall j, c' :: 0 < j < rows && 0 <= c' < cols ==> inst[j, c'] == Increments(Column(cum, c'))[j]
      invariant forall c' :: 0 <= c' < c ==> inst[0, c'] == cum[0][c']
    {
      inst[0, c] := cum[0][c];
      c := c + 1;
    }
  }
}
