# Calculator reducer, modelled in Dafny

A model of the state machine behind a single-page React calculator
(`src/App.jsx`). The calculator keeps one state object with four optional
fields: the operand being typed (`currentOperand`), the operand already
committed (`previousOperand`), the pending operator (`operation`) and a flag
(`overwrite`) that makes the next digit replace an evaluation result. The
keypad dispatches five kinds of action (add a digit, choose an operation,
clear, delete a digit, evaluate) and the `reducer` maps the old state and
one action to a fresh state. Operators chain left to right with no
precedence: `1 + 2 * 3 =` computes `(1 + 2) * 3`.

Files:

- `wrappers.dfy` (module `Wrappers`): `Option`, for a property that is absent or `null`.
- `calculator.dfy` (module `Calculator`): the `ACTIONS` table, the state, and
  the reducer, one function per action kind, each with a contract that
  says which fields change and which are kept.
- `evaluation.dfy` (module `Evaluation`): `evaluate`, over an abstract
  number type whose parsing, arithmetic and printing are parameters.
- `sessions.dfy` (module `Sessions`): sequences of actions as `useReducer`
  applies them. It holds the invariant every reachable state keeps, the
  type-then-delete round trip, and worked sessions at the keypad.

The reducer takes the evaluator as a parameter (`Calculator.Evaluator`). The
contracts in module `Calculator` hold for every evaluator. The invariant of
reachable states (`Sessions.Wellformed`) also assumes that the evaluator never
prints two decimal points (`Calculator.DotBounded`).
`Evaluation.EvaluatorOf` plugs in the structural model of `evaluate`.

Two invariants one might expect of this calculator need care; the model follows the code:

- It is not true that a set `overwrite` flag means no operator is pending.
  Choosing an operator right after `=` commits the result and keeps the
  flag set (`Sessions.OverwriteWithPendingOperation`). The invariant that
  does hold is `Sessions.Wellformed`.
- "At most one decimal point in the current operand" needs more than the
  guard in add-digit. An evaluation result replaces the operand, so it
  also needs an evaluator that never prints two points. JavaScript
  numbers never do; `Calculator.DotBounded` states this assumption.
- Deleting from an empty-string operand leaves it as the empty string,
  since `slice(0, -1)` of `''` is `''`.
  Such an operand only arises as the result of an evaluation whose
  operand did not parse. Reachable states show it only while `overwrite`
  is set, and delete then clears it (`Sessions.Wellformed`).

## Model

| member | source | states |
|---|---|---|
| `Calculator.TypeOf` | src/App.jsx:8-14 | each action kind is dispatched with its own `ACTIONS` tag; a tag outside the table is exactly an action no case of the reducer handles |
| `Calculator.Dots` | src/App.jsx:33 | the operand has no decimal point (what `includes('.')` tests) exactly when its count of points is zero; the count never exceeds the length |
| `Calculator.AddDigitTo` | src/App.jsx:19-40 | previous operand and operator are kept, and the result is never marked for overwrite. After an evaluation the digit replaces the operand. A second leading zero or a second decimal point leaves the state unchanged. Otherwise the digit is appended: the old text is a prefix of the new and the length grows by the digit's length |
| `Calculator.ChooseOperationOn` | src/App.jsx:42-69 | `overwrite` is never touched. With no operand it is a no-op; with only a previous operand it swaps the operator. With a current operand it clears it, sets the operator, and commits as the previous operand either the current operand or, when one was already committed, the evaluation of the pending expression |
| `Calculator.DeleteDigitFrom` | src/App.jsx:75-96 | previous operand and operator are kept and the result is never marked for overwrite. An evaluation result is discarded; an absent operand is a no-op; a one-character operand becomes absent. Otherwise exactly the last character is dropped: the new text is a prefix one shorter (an empty-string operand stays empty) |
| `Calculator.EvaluateIn` | src/App.jsx:98-114 | a no-op unless operator, current and previous operand are all present. Otherwise the result becomes the current operand, the previous operand and operator are cleared, and the result is marked for overwrite |
| `Calculator.Reduce` | src/App.jsx:17-119 | clear yields `{}` from any state; an unrecognised type returns the state unchanged; digit entry and deletion never touch the previous operand or the operator; only evaluate and clear can change `overwrite` other than by resetting it to false |
| `Evaluation.Evaluate` | src/App.jsx:122-144 | an operand that does not parse as a number, or a missing operator, gives the empty string; any other result is the printed form of a number |
| `Evaluation.EvaluateDotBounded` | src/App.jsx:122-144 | if no number prints with two decimal points, no result of `evaluate` has two |
| `Sessions.Run` | src/App.jsx:162-165 | dispatching actions one after another from a state; a session of only digit entries and deletions leaves the previous operand and operator as they were |
| `Sessions.ClearForgetsHistory` | src/App.jsx:71-73 | whatever was dispatched before, a clear leads to `{}` |
| `Sessions.AcceptsIsNumeral` | src/App.jsx:28-35 | the guards let a sequence of keys through exactly when it adds no second leading zero and no second decimal point to the operand typed so far |
| `Sessions.TypeNumeral` | src/App.jsx:36-40 | typing keys the guards accept appends them all to the operand and changes no other field |
| `Sessions.EraseOperand` | src/App.jsx:84-96 | deleting as many times as the operand is long makes it absent and changes no other field |
| `Sessions.TypeThenErase` | src/App.jsx:19-96 | typing a numeral into an absent operand and then deleting as many times as it has characters restores the original state exactly |
| `Sessions.AddThenDelete` | src/App.jsx:37-95 | one accepted key followed by one delete restores the original state, for an absent or non-empty operand |
| `Sessions.ChooseTwice` | src/App.jsx:44-53 | choosing a second operator right after the first keeps both operands and the overwrite flag, and only replaces the pending operator |
| `Sessions.EvaluateTwice` | src/App.jsx:98-114 | a second evaluate in a row changes nothing |
| `Sessions.AddDigitKeepsOneDot` | src/App.jsx:32-40 | add-digit with one key never raises the number of decimal points in the operand above one |
| `Sessions.ReducePreservesWellformed` | src/App.jsx:17-119 | every keypad action keeps the invariant. An operator is pending exactly when a previous operand is committed, the operand has at most one decimal point, and an empty-string operand is always marked for overwrite |
| `Sessions.RunPreservesWellformed` | src/App.jsx:17-119 | the invariant holds after any sequence of keypad actions from a well-formed state |
| `Sessions.ReachableIsWellformed` | src/App.jsx:162-165 | every state reachable from `{}` through the keypad is well formed |
| `Sessions.OverwriteWithPendingOperation` | src/App.jsx:55-62 | `7 + 3 = *` reaches a state marked for overwrite with an operator pending on the committed result |
| `Sessions.SingleOperation` | src/App.jsx:98-114 | `x op y =` from `{}` leaves exactly the evaluated expression as current operand, marked for overwrite |
| `Sessions.SevenPlusThree` | src/App.jsx:98-114 | `7 + 3 =` from `{}` leaves the sum as the only field besides `overwrite` = true |
| `Sessions.ChainLeftToRight` | src/App.jsx:63-69 | `1 + 2 * 3 =` evaluates `(1 + 2) * 3`: no operator precedence |
| `Sessions.TypeAndErase123` | src/App.jsx:36-96 | typing `1 2 3` from `{}` shows "123", and three deletes return to `{}` |
| `Sessions.DivideByZero` | src/App.jsx:137-138 | `5 / 0 =` shows the printed quotient, "Infinity" for JavaScript doubles |
| `Sessions.UnparsableOperand` | src/App.jsx:125 | an operand that does not parse makes the result the empty string, marked for overwrite |

## Left out

- The arithmetic of `evaluate`: JavaScript's `parseFloat`, IEEE-754 double operations (including division by zero) and `Number.prototype.toString` are parameters (`Evaluation.Numbers`). `parseFloat` returning `None` stands for a NaN result.
- `formatOperand` and `INTEGER_FORMATTER` (src/App.jsx:147-157): a wrapper over `Intl.NumberFormat`, a locale library outside this model.
- The `App` component (src/App.jsx:160-214) and the button components `DigitBtn` and `OperationBtn`: rendering and click wiring only. Their one fact used here is that a digit key dispatches a one-character string (`Sessions.KeyPress`).
- Operator symbols: the four operators are an enumeration (`Calculator.Op`), so an operator string outside the four cannot be dispatched. An absent operator does reach `evaluate`'s default branch, and is modelled.
- Actions dispatched without their payload: the source then throws a TypeError when add-digit reads `payload.digit` or choose-operation reads `payload.operation` (src/App.jsx:24, 29, 51). A payload object that lacks its field reads `undefined` instead, and add-digit then appends the text "undefined" (src/App.jsx:39). The keypad never dispatches either, so every modelled action carries its payload.
- `null` versus `undefined`: the source only tests `== null`, so both are `None`.
- String lengths count characters, while JavaScript counts UTF-16 code units. They agree on the ASCII text the keypad and number printing produce.
