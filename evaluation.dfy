/** `evaluate` of src/App.jsx: parse both operands, apply the pending
    operator, print the result. The number type and its operations are
    parameters; in the source they are JavaScript's `parseFloat`, IEEE-754
    double arithmetic and `Number.prototype.toString`. */
module Evaluation {
  import opened Wrappers
  import opened Calculator

  /** The number primitives `evaluate` uses, over a number type `N`.
      `parseFloat` gives `None` exactly where JavaScript's gives NaN. */
  datatype Numbers<!N> = Numbers(
    parseFloat: string -> Option<N>,
    plus: (N, N) -> N,
    minus: (N, N) -> N,
    times: (N, N) -> N,
    over: (N, N) -> N,
    toString: N -> string)

  /** The pending expression's value as a string. An operand that does not
      parse, or a missing operator, gives the empty string instead of an
      error. */
  function Evaluate<N(!new)>(num: Numbers<N>, previous: string, current: string, operation: Option<Op>): (r: string)
    ensures num.parseFloat(previous).None? || num.parseFloat(current).None? ==> r == ""
    ensures operation.None? ==> r == ""
    ensures r == "" || exists n :: r == num.toString(n)
  {
    var prev := num.parseFloat(previous);
    var cur := num.parseFloat(current);
    if prev.None? || cur.None? then
      ""
    else
      match operation
      case Some(Add) => num.toString(num.plus(prev.value, cur.value))
      case Some(Subtract) => num.toString(num.minus(prev.value, cur.value))
      case Some(Multiply) => num.toString(num.times(prev.value, cur.value))
      case Some(Divide) => num.toString(num.over(prev.value, cur.value))
      case None => ""   // `computation` stays '' and prints as ''
  }

  /** `evaluate` in the shape the reducer calls it. */
  function EvaluatorOf<N(!new)>(num: Numbers<N>): Evaluator {
    (previous, current, operation) => Evaluate(num, previous, current, operation)
  }

  /** If no number prints with two decimal points, neither does `evaluate`. */
  lemma EvaluateDotBounded<N(!new)>(num: Numbers<N>)
    requires forall n :: Dots(num.toString(n)) <= 1
    ensures DotBounded(EvaluatorOf(num))
  {
  }
}
