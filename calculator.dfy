/** The calculator's state machine: the `ACTIONS` table and the `reducer`
    of src/App.jsx. Every transition is a pure function from the old state
    and one action to a fresh state, as React's `useReducer` applies it. */
module Calculator {
  import opened Wrappers

  // ---------------------------------------------------------------------
  // Actions
  // ---------------------------------------------------------------------

  /** The `type` tags of `ACTIONS`. */
  const ADD_DIGIT := "add-digit"
  const CHOOSE_OPERATION := "choose-operation"
  const CLEAR := "clear"
  const DELETE_DIGIT := "delete-digit"
  const EVALUATE := "evaluate"

  const ACTION_TYPES: set<string> :=
    {ADD_DIGIT, CHOOSE_OPERATION, CLEAR, DELETE_DIGIT, EVALUATE}

  /** The four operator keys: `+`, `-`, `*` and the division sign. */
  datatype Op = Add | Subtract | Multiply | Divide

  /** A `type` tag that none of the reducer's cases matches. */
  type UnknownType = t: string | t !in ACTION_TYPES witness ""

  /** A dispatched `{ type, payload }`, with the payload its type carries. */
  datatype Action =
    | AddDigit(digit: string)
    | ChooseOperation(operation: Op)
    | Clear
    | DeleteDigit
    | Evaluate
    | Unrecognised(kind: UnknownType)

  /** The `type` tag the action is dispatched with. */
  function TypeOf(a: Action): (t: string)
    ensures t in ACTION_TYPES <==> !a.Unrecognised?
    ensures a.AddDigit? <==> t == ADD_DIGIT
    ensures a.ChooseOperation? <==> t == CHOOSE_OPERATION
    ensures a.Clear? <==> t == CLEAR
    ensures a.DeleteDigit? <==> t == DELETE_DIGIT
    ensures a.Evaluate? <==> t == EVALUATE
  {
    match a
    case AddDigit(_) => ADD_DIGIT
    case ChooseOperation(_) => CHOOSE_OPERATION
    case Clear => CLEAR
    case DeleteDigit => DELETE_DIGIT
    case Evaluate => EVALUATE
    case Unrecognised(kind) => kind
  }

  // ---------------------------------------------------------------------
  // State
  // ---------------------------------------------------------------------

  /** One snapshot of the calculator. Every field may be absent, as in the
      JavaScript object the reducer spreads. */
  datatype State = State(
    currentOperand: Option<string>,
    previousOperand: Option<string>,
    operation: Option<Op>,
    overwrite: Option<bool>)

  /** `{}`: the initial state of `useReducer` and the result of a clear. */
  const Initial := State(None, None, None, None)

  /** The truthiness of `state.overwrite`. */
  predicate Overwriting(s: State) {
    s.overwrite == Some(true)
  }

  /** `state.currentOperand || ''`: the text being typed. */
  function Text(s: State): string {
    s.currentOperand.GetOr("")
  }

  /** The computation the reducer calls as `evaluate(state)`, given the
      previous operand, the current operand and the pending operation. Its
      floating-point arithmetic is not modelled: every contract in this
      module holds for every evaluator. The invariant of reachable states
      also assumes `DotBounded`. */
  type Evaluator = (string, string, Option<Op>) -> string

  /** An evaluator whose results never hold more than one decimal point, as
      the string form of a JavaScript number never does. */
  ghost predicate DotBounded(ev: Evaluator) {
    forall previous, current, op :: Dots(ev(previous, current, op)) <= 1
  }

  // ---------------------------------------------------------------------
  // Text of the current operand
  // ---------------------------------------------------------------------

  /** The number of decimal points in `s`. */
  function Dots(s: string): (n: nat)
    ensures n <= |s|
    ensures n == 0 <==> '.' !in s
  {
    if s == [] then 0 else (if s[0] == '.' then 1 else 0) + Dots(s[1..])
  }

  lemma {:induction false} DotsAppend(s: string, t: string)
    ensures Dots(s + t) == Dots(s) + Dots(t)
  {
    if s != [] {
      assert (s + t)[1..] == s[1..] + t;
      DotsAppend(s[1..], t);
    } else {
      assert s + t == t;
    }
  }

  lemma DotsPrefix(s: string, k: nat)
    requires k <= |s|
    ensures Dots(s[..k]) <= Dots(s)
  {
    assert s == s[..k] + s[k..];
    DotsAppend(s[..k], s[k..]);
  }

  /** The two guards of add-digit, on the text typed so far: a second
      leading zero, and a second decimal point. Both look at
      `state.currentOperand`, which is `"0"` or contains `.` exactly when
      its text does. */
  predicate Blocked(text: string, digit: string) {
    || (digit == "0" && text == "0")
    || (digit == "." && '.' in text)
  }

  // ---------------------------------------------------------------------
  // The reducer, case by case
  // ---------------------------------------------------------------------

  /** add-digit: after an evaluation the digit replaces the result;
      otherwise it is appended unless a guard refuses it. */
  function AddDigitTo(s: State, digit: string): (r: State)
    ensures r.previousOperand == s.previousOperand && r.operation == s.operation
    ensures !Overwriting(r) && r.currentOperand.Some?
    ensures Overwriting(s) ==> r == s.(currentOperand := Some(digit), overwrite := Some(false))
    ensures !Overwriting(s) && Blocked(Text(s), digit) ==> r == s
    ensures !Overwriting(s) && !Blocked(Text(s), digit) ==>
      && r == s.(currentOperand := Some(Text(s) + digit))
      && |Text(r)| == |Text(s)| + |digit|
      && Text(r)[..|Text(s)|] == Text(s)
  {
    if Overwriting(s) then
      s.(currentOperand := Some(digit), overwrite := Some(false))
    else if digit == "0" && s.currentOperand == Some("0") then
      s
    else if digit == "." && s.currentOperand.Some? && '.' in s.currentOperand.value then
      s
    else
      s.(currentOperand := Some(Text(s) + digit))
  }

  /** choose-operation: commits the current operand (folding it into the
      previous one with the pending operation, if there is one) and makes
      `op` the pending operation. */
  function ChooseOperationOn(ev: Evaluator, s: State, op: Op): (r: State)
    ensures r.overwrite == s.overwrite
    ensures s.currentOperand.None? && s.previousOperand.None? ==> r == s
    ensures s.currentOperand.None? && s.previousOperand.Some? ==> r == s.(operation := Some(op))
    ensures s.currentOperand.Some? ==>
      && r.currentOperand.None?
      && r.operation == Some(op)
      && r.previousOperand == Some(
           if s.previousOperand.None? then s.currentOperand.value
           else ev(s.previousOperand.value, s.currentOperand.value, s.operation))
  {
    if s.currentOperand.None? && s.previousOperand.None? then
      s
    else if s.currentOperand.None? then
      s.(operation := Some(op))
    else if s.previousOperand.None? then
      s.(operation := Some(op), previousOperand := s.currentOperand, currentOperand := None)
    else
      s.(previousOperand := Some(ev(s.previousOperand.value, s.currentOperand.value, s.operation)),
         operation := Some(op),
         currentOperand := None)
  }

  /** delete-digit: discards an evaluation result outright; otherwise
      drops the last character, and a one-character operand becomes absent. */
  function DeleteDigitFrom(s: State): (r: State)
    ensures r.previousOperand == s.previousOperand && r.operation == s.operation
    ensures !Overwriting(r)
    ensures Overwriting(s) ==> r == s.(currentOperand := None, overwrite := Some(false))
    ensures !Overwriting(s) ==> r.overwrite == s.overwrite
    ensures !Overwriting(s) && s.currentOperand.None? ==> r == s
    ensures !Overwriting(s) && s.currentOperand.Some? && |s.currentOperand.value| == 1 ==>
      r.currentOperand.None?
    ensures !Overwriting(s) && s.currentOperand.Some? && |s.currentOperand.value| != 1 ==>
      && r.currentOperand.Some?
      && |r.currentOperand.value| == (if |Text(s)| == 0 then 0 else |Text(s)| - 1)
      && Text(r) == Text(s)[..|Text(r)|]
  {
    if Overwriting(s) then
      s.(overwrite := Some(false), currentOperand := None)
    else if s.currentOperand.None? then
      s
    else if |s.currentOperand.value| == 1 then
      s.(currentOperand := None)
    else
      // `slice(0, -1)`, which leaves the empty string as it is
      var v := s.currentOperand.value;
      s.(currentOperand := Some(if |v| == 0 then v else v[..|v| - 1]))
  }

  /** The three fields evaluate needs are all present. */
  predicate Pending(s: State) {
    s.operation.Some? && s.currentOperand.Some? && s.previousOperand.Some?
  }

  /** evaluate: replaces the pending expression by its value and marks it
      to be overwritten by the next digit. */
  function EvaluateIn(ev: Evaluator, s: State): (r: State)
    ensures !Pending(s) ==> r == s
    ensures Pending(s) ==>
      && r.previousOperand.None? && r.operation.None? && Overwriting(r)
      && r.currentOperand == Some(ev(s.previousOperand.value, s.currentOperand.value, s.operation))
  {
    if s.operation.None? || s.currentOperand.None? || s.previousOperand.None? then
      s
    else
      s.(overwrite := Some(true),
         previousOperand := None,
         operation := None,
         currentOperand := Some(ev(s.previousOperand.value, s.currentOperand.value, s.operation)))
  }

  /** The reducer: one `switch` on the action's type. */
  function Reduce(ev: Evaluator, s: State, a: Action): (r: State)
    ensures a.Clear? ==> r == Initial
    ensures a.Unrecognised? ==> r == s
    ensures a.AddDigit? || a.DeleteDigit? ==>
      r.previousOperand == s.previousOperand && r.operation == s.operation
    ensures !a.Evaluate? && !a.Clear? ==>
      (r.overwrite == s.overwrite || r.overwrite == Some(false))
  {
    match a
    case AddDigit(digit) => AddDigitTo(s, digit)
    case ChooseOperation(op) => ChooseOperationOn(ev, s, op)
    case Clear => Initial
    case DeleteDigit => DeleteDigitFrom(s)
    case Evaluate => EvaluateIn(ev, s)
    case Unrecognised(_) => s
  }
}
