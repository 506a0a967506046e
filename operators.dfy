/** The operators an aggregate-binary instruction carries, as a closed family of values. */
module Operators {

  /** The scalar function objects involved: `Plus.getPlusFnObject()` and `Multiply.getMultiplyFnObject()`. */
  datatype ValueFunction = Plus | Multiply

  /** The covariance function object; `COV.getCOMFnObject()` is its one instance used here. */
  datatype CovFunction = COM

  /** A reduction: the seed every fold starts from and the function that folds each value in. */
  datatype AggregateOperator = AggregateOperator(initialValue: real, increOp: ValueFunction)

  /** `AggregateBinaryOperator` (an elementwise function composed with a reduction) or `COVOperator`. */
  datatype Operator =
    | AggBin(binaryFn: ValueFunction, aggOp: AggregateOperator)
    | Cov(covFn: CovFunction)

  /** The operator built for `ba+*`: elementwise multiply, reduced by (seed 0, plus). */
  const MatrixMultiply: Operator := AggBin(Multiply, AggregateOperator(0.0, Plus))

  /** The operator built for `cov`. */
  const Covariance: Operator := Cov(COM)

  function Apply(f: ValueFunction, a: real, b: real): real
  {
    match f
    case Plus => a + b
    case Multiply => a * b
  }

  /**
   * One cell of an aggregate-binary result: a row of the left operand and a column of the right
   * one are combined pair by pair with `binaryFn`, and the pairs are folded, first to last, into
   * the seed with `aggOp.increOp`.
   */
  function CellValue(op: Operator, row: seq<real>, col: seq<real>): (r: real)
    requires op.AggBin? && |row| == |col|
    ensures row == [] ==> r == op.aggOp.initialValue
    ensures |row| == 1 && op.aggOp == AggregateOperator(0.0, Plus) ==> r == Apply(op.binaryFn, row[0], col[0])
  {
    if row == [] then op.aggOp.initialValue
    else
      var n := |row| - 1;
      Apply(op.aggOp.increOp, CellValue(op, row[..n], col[..n]), Apply(op.binaryFn, row[n], col[n]))
  }

  /** The textbook sum of products, an independent reference for matrix multiplication. */
  function DotProduct(row: seq<real>, col: seq<real>): real
    requires |row| == |col|
  {
    if row == [] then 0.0 else row[0] * col[0] + DotProduct(row[1..], col[1..])
  }

  lemma {:induction false} DotProductSnoc(row: seq<real>, col: seq<real>)
    requires |row| == |col| > 0
    ensures var n := |row| - 1;
            DotProduct(row, col) == DotProduct(row[..n], col[..n]) + row[n] * col[n]
  {
    var n := |row| - 1;
    if n > 0 {
      assert row[1..][..n - 1] == row[..n][1..];
      assert col[1..][..n - 1] == col[..n][1..];
      DotProductSnoc(row[1..], col[1..]);
    }
  }

  /** The reduction built for `ba+*` has its seed as identity and is associative and commutative. */
  lemma MatrixMultiplyReductionIsMonoid(x: real, y: real, z: real)
    ensures var agg := MatrixMultiply.aggOp;
            && Apply(agg.increOp, agg.initialValue, x) == x
            && Apply(agg.increOp, Apply(agg.increOp, x, y), z) == Apply(agg.increOp, x, Apply(agg.increOp, y, z))
            && Apply(agg.increOp, x, y) == Apply(agg.increOp, y, x)
  {
  }

  /** Every cell the `ba+*` operator defines is the sum of products; an empty inner dimension gives 0. */
  lemma {:induction false} MatrixMultiplyCellIsDotProduct(row: seq<real>, col: seq<real>)
    requires |row| == |col|
    ensures CellValue(MatrixMultiply, row, col) == DotProduct(row, col)
  {
    if row != [] {
      var n := |row| - 1;
      MatrixMultiplyCellIsDotProduct(row[..n], col[..n]);
      DotProductSnoc(row, col);
    }
  }
}
