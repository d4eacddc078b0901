/** Sequences of dispatched actions, as `useReducer` applies them one after
    another starting from `{}`, and what the reducer guarantees over them. */
module Sessions {
  import opened Wrappers
  import opened Calculator
  import opened Evaluation

  /** An action that only edits the current operand (or does nothing). */
  predicate Editing(a: Action) {
    a.AddDigit? || a.DeleteDigit? || a.Unrecognised?
  }

  /** The state after dispatching `actions` in order from `s`. */
  function Run(ev: Evaluator, s: State, actions: seq<Action>): (r: State)
    ensures (forall i :: 0 <= i < |actions| ==> Editing(actions[i])) ==>
      r.previousOperand == s.previousOperand && r.operation == s.operation
    decreases |actions|
  {
    if actions == [] then s else Run(ev, Reduce(ev, s, actions[0]), actions[1..])
  }

  lemma {:induction false} RunAppend(ev: Evaluator, s: State, xs: seq<Action>, ys: seq<Action>)
    ensures Run(ev, s, xs + ys) == Run(ev, Run(ev, s, xs), ys)
    decreases |xs|
  {
    if xs == [] {
      assert xs + ys == ys;
    } else {
      assert (xs + ys)[1..] == xs[1..] + ys;
      RunAppend(ev, Reduce(ev, s, xs[0]), xs[1..], ys);
    }
  }

  /** Clear resets the calculator whatever came before it. */
  lemma ClearForgetsHistory(ev: Evaluator, s: State, actions: seq<Action>)
    ensures Run(ev, s, actions + [Clear]) == Initial
  {
    RunAppend(ev, s, actions, [Clear]);
  }

  // ---------------------------------------------------------------------
  // Typing and erasing an operand
  // ---------------------------------------------------------------------

  /** The key presses that type `w`, one character per key. */
  function Keys(w: string): (keys: seq<Action>)
    ensures |keys| == |w|
    ensures forall i :: 0 <= i < |w| ==> keys[i] == AddDigit([w[i]])
  {
    if w == [] then [] else [AddDigit([w[0]])] + Keys(w[1..])
  }

  /** `n` presses of the delete key. */
  function Deletions(n: nat): (keys: seq<Action>)
    ensures |keys| == n
    ensures forall i :: 0 <= i < n ==> keys[i] == DeleteDigit
  {
    if n == 0 then [] else [DeleteDigit] + Deletions(n - 1)
  }

  /** No key of `w` is refused by a guard when typed after `text`. */
  predicate Accepts(text: string, w: string)
    decreases |w|
  {
    w == [] || (!Blocked(text, [w[0]]) && Accepts(text + [w[0]], w[1..]))
  }

  /** A direct description of the keys the guards let through: no second
      leading zero and no second decimal point. */
  predicate Numeral(text: string, w: string) {
    && !(|w| >= 1 && w[0] == '0' && text == "0")
    && !(|w| >= 2 && w[0] == '0' && w[1] == '0' && text == "")
    && (if '.' in text then '.' !in w else Dots(w) <= 1)
  }

  lemma {:induction false} AcceptsIsNumeral(text: string, w: string)
    ensures Accepts(text, w) <==> Numeral(text, w)
    decreases |w|
  {
    if w != [] {
      var c, rest := w[0], w[1..];
      assert w == [c] + rest;
      DotsAppend([c], rest);
      AcceptsIsNumeral(text + [c], rest);
      assert '.' in text + [c] <==> '.' in text || c == '.';
      assert text + [c] == "0" <==> text == "" && c == '0' by {
        if text + [c] == "0" {
          assert |text| == 0;
          assert (text + [c])[0] == c;
        }
        if text == "" {
          assert text + [c] == [c];
        }
      }
      assert text + [c] != "";
      assert '.' in w <==> c == '.' || '.' in rest;
    }
  }

  /** Typing a numeral from an operand that is not being overwritten
      appends it and leaves every other field alone. */
  lemma {:induction false} TypeNumeral(ev: Evaluator, s: State, w: string)
    requires !Overwriting(s) && Accepts(Text(s), w)
    ensures Run(ev, s, Keys(w)) == if w == [] then s else s.(currentOperand := Some(Text(s) + w))
    decreases |w|
  {
    if w != [] {
      var s1 := Reduce(ev, s, AddDigit([w[0]]));
      assert s1 == s.(currentOperand := Some(Text(s) + [w[0]]));
      assert Text(s1) + w[1..] == Text(s) + w by {
        assert w == [w[0]] + w[1..];
      }
      assert Run(ev, s, Keys(w)) == Run(ev, s1, Keys(w[1..])) by {
        assert Keys(w)[0] == AddDigit([w[0]]);
        assert Keys(w)[1..] == Keys(w[1..]);
      }
      TypeNumeral(ev, s1, w[1..]);
      if w[1..] == [] {
        assert Text(s1) + w[1..] == Text(s1);
      }
    }
  }

  /** Deleting as many times as the operand is long makes it absent. */
  lemma {:induction false} EraseOperand(ev: Evaluator, s: State, n: nat)
    requires !Overwriting(s) && s.currentOperand.Some? && |s.currentOperand.value| == n >= 1
    ensures Run(ev, s, Deletions(n)) == s.(currentOperand := None)
    decreases n
  {
    var s1 := Reduce(ev, s, DeleteDigit);
    assert Deletions(n)[1..] == Deletions(n - 1);
    if n > 1 {
      EraseOperand(ev, s1, n - 1);
    }
  }

  /** Typing a numeral into an empty operand and deleting it key by key
      gives back the state typing started from. */
  lemma {:induction false} TypeThenErase(ev: Evaluator, s: State, w: string)
    requires !Overwriting(s) && s.currentOperand.None? && Numeral("", w)
    ensures Run(ev, s, Keys(w) + Deletions(|w|)) == s
  {
    assert Text(s) == "";
    AcceptsIsNumeral("", w);
    RunAppend(ev, s, Keys(w), Deletions(|w|));
    TypeNumeral(ev, s, w);
    var typed := Run(ev, s, Keys(w));
    if w == [] {
      assert Deletions(|w|) == [];
    } else {
      assert "" + w == w;
      assert typed == s.(currentOperand := Some(w));
      EraseOperand(ev, typed, |w|);
    }
  }

  /** One key and one delete cancel out, unless a guard refused the key
      or the operand was the empty string. */
  lemma AddThenDelete(ev: Evaluator, s: State, d: char)
    requires !Overwriting(s) && !Blocked(Text(s), [d])
    requires s.currentOperand != Some("")
    ensures Run(ev, s, [AddDigit([d]), DeleteDigit]) == s
  {
    var s1 := Reduce(ev, s, AddDigit([d]));
    assert (Text(s) + [d])[..|Text(s)|] == Text(s);
    assert [AddDigit([d]), DeleteDigit][1..] == [DeleteDigit];
    assert Run(ev, s1, [DeleteDigit]) == Reduce(ev, s1, DeleteDigit);
  }

  // ---------------------------------------------------------------------
  // Operations
  // ---------------------------------------------------------------------

  /** Choosing a second operator straight after the first only swaps the
      pending operator. */
  lemma ChooseTwice(ev: Evaluator, s: State, first: Op, second: Op)
    ensures var t := Reduce(ev, s, ChooseOperation(first));
      var u := Reduce(ev, t, ChooseOperation(second));
      && u.currentOperand == t.currentOperand
      && u.previousOperand == t.previousOperand
      && u.overwrite == t.overwrite
      && (u == t || u.operation == Some(second))
  {
  }

  /** A second evaluate changes nothing: the expression is gone. */
  lemma EvaluateTwice(ev: Evaluator, s: State)
    ensures var t := Reduce(ev, s, Evaluate); Reduce(ev, t, Evaluate) == t
  {
  }

  // ---------------------------------------------------------------------
  // The invariant of reachable states
  // ---------------------------------------------------------------------

  /** What every state reached from `{}` satisfies: an operator is pending
      exactly when a previous operand is committed, the current operand has
      at most one decimal point, and it is the empty string only as an
      evaluation result waiting to be overwritten. */
  predicate Wellformed(s: State) {
    && (s.operation.Some? <==> s.previousOperand.Some?)
    && Dots(Text(s)) <= 1
    && (s.currentOperand == Some("") ==> Overwriting(s))
  }

  /** The actions the keypad dispatches: digit keys carry one character. */
  predicate KeyPress(a: Action) {
    a.AddDigit? ==> |a.digit| == 1
  }

  /** Add-digit never raises the number of decimal points above one. */
  lemma AddDigitKeepsOneDot(s: State, d: string)
    requires |d| == 1
    ensures Dots(Text(s)) <= 1 ==> Dots(Text(AddDigitTo(s, d))) <= 1
    ensures Dots(Text(AddDigitTo(s, d))) <= Dots(Text(s)) || Dots(Text(AddDigitTo(s, d))) <= 1
  {
    var r := AddDigitTo(s, d);
    if !Overwriting(s) && !Blocked(Text(s), d) {
      DotsAppend(Text(s), d);
    }
  }

  lemma ReducePreservesWellformed(ev: Evaluator, s: State, a: Action)
    requires DotBounded(ev) && KeyPress(a) && Wellformed(s)
    ensures Wellformed(Reduce(ev, s, a))
  {
    match a
    case AddDigit(d) =>
      AddDigitKeepsOneDot(s, d);
    case DeleteDigit =>
      if !Overwriting(s) && s.currentOperand.Some? && |Text(s)| > 1 {
        DotsPrefix(Text(s), |Text(s)| - 1);
      }
    case Evaluate =>
      if Pending(s) {
        assert Dots(ev(s.previousOperand.value, s.currentOperand.value, s.operation)) <= 1;
      }
    case _ =>
  }

  lemma {:induction false} RunPreservesWellformed(ev: Evaluator, s: State, actions: seq<Action>)
    requires DotBounded(ev) && Wellformed(s)
    requires forall i :: 0 <= i < |actions| ==> KeyPress(actions[i])
    ensures Wellformed(Run(ev, s, actions))
    decreases |actions|
  {
    if actions != [] {
      ReducePreservesWellformed(ev, s, actions[0]);
      RunPreservesWellformed(ev, Reduce(ev, s, actions[0]), actions[1..]);
    }
  }

  /** Every state the keypad can reach from `{}` is well formed. */
  lemma ReachableIsWellformed(ev: Evaluator, actions: seq<Action>)
    requires DotBounded(ev)
    requires forall i :: 0 <= i < |actions| ==> KeyPress(actions[i])
    ensures Wellformed(Run(ev, Initial, actions))
  {
    RunPreservesWellformed(ev, Initial, actions);
  }

  /** The overwrite flag survives choosing an operator after an
      evaluation, so a state may be marked for overwrite while an operator
      is pending on a committed operand. */
  lemma OverwriteWithPendingOperation(ev: Evaluator)
    ensures var r := Run(ev, Initial,
        [AddDigit("7"), ChooseOperation(Add), AddDigit("3"), Evaluate, ChooseOperation(Multiply)]);
      && Overwriting(r)
      && r.operation == Some(Multiply)
      && r.previousOperand == Some(ev("7", "3", Some(Add)))
  {
  }

  // ---------------------------------------------------------------------
  // Sessions at the keypad
  // ---------------------------------------------------------------------

  /** `x op y =` from `{}` leaves the value of the expression as the current
      operand, marked for overwrite, and nothing else. */
  lemma SingleOperation(ev: Evaluator, x: string, op: Op, y: string)
    ensures Run(ev, Initial, [AddDigit(x), ChooseOperation(op), AddDigit(y), Evaluate])
         == State(Some(ev(x, y, Some(op))), None, None, Some(true))
  {
    var s1 := Reduce(ev, Initial, AddDigit(x));
    assert s1 == State(Some(x), None, None, None) by { assert "" + x == x; }
    var s2 := Reduce(ev, s1, ChooseOperation(op));
    assert s2 == State(None, Some(x), Some(op), None);
    var s3 := Reduce(ev, s2, AddDigit(y));
    assert s3 == State(Some(y), Some(x), Some(op), None) by { assert "" + y == y; }
    var t := [AddDigit(x), ChooseOperation(op), AddDigit(y), Evaluate];
    assert Run(ev, s3, t[3..]) == Reduce(ev, s3, Evaluate) by { assert t[3..][1..] == []; }
    assert Run(ev, s2, t[2..]) == Run(ev, s3, t[3..]) by { assert t[2..][1..] == t[3..]; }
    assert Run(ev, s1, t[1..]) == Run(ev, s2, t[2..]) by { assert t[1..][1..] == t[2..]; }
  }

  /** `7 + 3 =` leaves the sum as the current operand, marked for overwrite. */
  lemma SevenPlusThree(ev: Evaluator)
    ensures Run(ev, Initial, [AddDigit("7"), ChooseOperation(Add), AddDigit("3"), Evaluate])
         == State(Some(ev("7", "3", Some(Add))), None, None, Some(true))
  {
    SingleOperation(ev, "7", Add, "3");
  }

  /** Operators chain from left to right without precedence:
      `1 + 2 * 3 =` evaluates `(1 + 2) * 3`. */
  lemma ChainLeftToRight(ev: Evaluator)
    ensures Run(ev, Initial,
        [AddDigit("1"), ChooseOperation(Add), AddDigit("2"),
         ChooseOperation(Multiply), AddDigit("3"), Evaluate]).currentOperand
      == Some(ev(ev("1", "2", Some(Add)), "3", Some(Multiply)))
  {
  }

  /** Typing `1 2 3` from `{}` shows "123"; three deletes give `{}` back. */
  lemma TypeAndErase123(ev: Evaluator)
    ensures Run(ev, Initial, Keys("123")).currentOperand == Some("123")
    ensures Run(ev, Initial, Keys("123") + Deletions(3)) == Initial
  {
    assert Numeral("", "123");
    AcceptsIsNumeral("", "123");
    TypeNumeral(ev, Initial, "123");
    assert Text(Initial) + "123" == "123";
    TypeThenErase(ev, Initial, "123");
  }

  /** `5 / 0 =`: the result is whatever the number type prints for the
      quotient, "Infinity" for JavaScript doubles. */
  lemma DivideByZero<N(!new)>(num: Numbers<N>, five: N, zero: N)
    requires num.parseFloat("5") == Some(five) && num.parseFloat("0") == Some(zero)
    requires num.toString(num.over(five, zero)) == "Infinity"
    ensures Run(EvaluatorOf(num), Initial,
        [AddDigit("5"), ChooseOperation(Divide), AddDigit("0"), Evaluate]).currentOperand
      == Some("Infinity")
  {
  }

  /** An operand that does not parse as a number (a lone "." is one)
      makes the result the empty string, shown until the next key. */
  lemma UnparsableOperand<N(!new)>(num: Numbers<N>, x: string, op: Op, y: string)
    requires num.parseFloat(x).None? || num.parseFloat(y).None?
    ensures var r := Run(EvaluatorOf(num), Initial,
        [AddDigit(x), ChooseOperation(op), AddDigit(y), Evaluate]);
      r.currentOperand == Some("") && Overwriting(r)
  {
    SingleOperation(EvaluatorOf(num), x, op, y);
  }
}
