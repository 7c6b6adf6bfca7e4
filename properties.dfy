/**
 * What the calculator's transitions promise, one action at a time and over
 * sequences of actions: the input guards, the order of deletion, the shape
 * of an evaluated state, and the cross-field invariant.
 */
module CalculatorProperties {
  import opened Text
  import opened Calculator

  /** The operand that digit and decimal-point entry extend: the first one until an operation is chosen. */
  function Typed(s: CalculatorState): string {
    if s.operation.None? then s.number1 else s.number2
  }

  function WithTyped(s: CalculatorState, t: string): CalculatorState {
    if s.operation.None? then s.(number1 := t) else s.(number2 := t)
  }

  /** The actions the keypad sends: digit presses carry 0 through 9. */
  predicate IsKeypadAction(a: CalculatorAction) {
    a.Number? ==> 0 <= a.number < 10
  }

  predicate AllDigitKeys(ds: seq<Int32>) {
    forall i :: 0 <= i < |ds| ==> 0 <= ds[i] < 10
  }

  /** The presses of the digit keys `ds`, in order. */
  function Presses(ds: seq<Int32>): (r: seq<CalculatorAction>)
    ensures |r| == |ds|
    decreases |ds|
  {
    if ds == [] then [] else [Number(ds[0])] + Presses(ds[1..])
  }

  /** The text the digit keys `ds` spell. */
  function DigitsText(ds: seq<Int32>): string
    requires AllDigitKeys(ds)
    decreases |ds|
  {
    if ds == [] then "" else [DigitChar(ds[0] as nat)] + DigitsText(ds[1..])
  }

  // ---------------- Clear ----------------

  lemma ClearResets<D>(s: CalculatorState, num: Numerics<D>)
    ensures Reduce(s, Clear, num) == Initial
    ensures Initial.number1 == "" && Initial.number2 == "" && Initial.operation.None?
  {
  }

  // ---------------- Digit entry ----------------

  /**
   * A digit key extends the operand being typed by exactly that digit, unless
   * the operand already has 8 characters; nothing else changes.
   */
  lemma DigitEntry(s: CalculatorState, d: Int32)
    requires 0 <= d < 10
    ensures |Typed(s)| >= MaxTypedLength ==> AfterNumber(s, d) == s
    ensures |Typed(s)| < MaxTypedLength ==> AfterNumber(s, d) == WithTyped(s, Typed(s) + [DigitChar(d as nat)])
    ensures |Typed(s)| <= MaxTypedLength ==> |Typed(AfterNumber(s, d))| <= MaxTypedLength
  {
    IntToStringShape(d as int);
  }

  /** Whatever `Int` a number action carries, the text appended to the operand reads back as that number. */
  lemma NumberEntryReadsBack(s: CalculatorState, n: Int32)
    ensures |Typed(s)| >= MaxTypedLength ==> AfterNumber(s, n) == s
    ensures |Typed(s)| < MaxTypedLength ==> var r := AfterNumber(s, n);
      r.operation == s.operation &&
      Typed(s) < Typed(r) && ParseInt(Typed(r)[|Typed(s)|..]) == Some(n as int) &&
      (s.operation.None? ==> r.number2 == s.number2) &&
      (s.operation.Some? ==> r.number1 == s.number1)
  {
    if |Typed(s)| < MaxTypedLength {
      var r := AfterNumber(s, n);
      assert Typed(r) == Typed(s) + IntToString(n as int);
      assert Typed(r)[|Typed(s)|..] == IntToString(n as int);
      IntToStringRoundTrip(n as int);
    }
  }

  /** One more key on an operand shorter than 8 characters: appending first and cutting later give the same text. */
  lemma TakeAfterKey(x: string, c: char, rest: string)
    requires |x| < MaxTypedLength
    ensures Take(x + ([c] + rest), MaxTypedLength) ==
      if |x + [c]| >= MaxTypedLength then x + [c] else Take((x + [c]) + rest, MaxTypedLength)
  {
    assert x + ([c] + rest) == (x + [c]) + rest;
    if |x + [c]| >= MaxTypedLength {
      assert ((x + [c]) + rest)[..MaxTypedLength] == x + [c];
    }
  }

  /**
   * Typing any run of digits into the operand being typed keeps its first 8
   * characters and drops the rest: keys beyond the 8th character have no effect.
   */
  lemma {:induction false} TypingStopsAtEight<D>(s: CalculatorState, ds: seq<Int32>, num: Numerics<D>)
    requires AllDigitKeys(ds)
    ensures Run(s, Presses(ds), num) ==
      if |Typed(s)| >= MaxTypedLength then s
      else WithTyped(s, Take(Typed(s) + DigitsText(ds), MaxTypedLength))
    decreases |ds|
  {
    var x := Typed(s);
    if ds == [] {
      assert x + DigitsText(ds) == x;
    } else {
      var presses := Presses(ds);
      assert presses[0] == Number(ds[0]) && presses[1..] == Presses(ds[1..]);
      var s1 := AfterNumber(s, ds[0]);
      assert Run(s, presses, num) == Run(s1, Presses(ds[1..]), num);
      DigitEntry(s, ds[0]);
      TypingStopsAtEight(s1, ds[1..], num);
      if |x| < MaxTypedLength {
        var c := DigitChar(ds[0] as nat);
        assert DigitsText(ds) == [c] + DigitsText(ds[1..]);
        TakeAfterKey(x, c, DigitsText(ds[1..]));
        assert Typed(s1) == x + [c] && s1.operation == s.operation;
      }
    }
  }

  // ---------------- Decimal point ----------------

  /**
   * The decimal point goes onto the first operand when no operation is set
   * and it is not blank and has none, else onto the second operand when that
   * is not blank and has none, and nowhere else; so no operand ever gets a
   * second one. With an operation pending and no second operand it does
   * nothing, and on a consistent state without an operation it can only touch
   * the first operand.
   */
  lemma DecimalEntry(s: CalculatorState)
    ensures var r := AfterDecimal(s);
      r.operation == s.operation &&
      (AtMostOneDot(s.number1) ==> AtMostOneDot(r.number1)) &&
      (AtMostOneDot(s.number2) ==> AtMostOneDot(r.number2)) &&
      (r.number1 != s.number1 ==>
         s.operation.None? && s.number1 != "" && !IsBlank(s.number1) && '.' !in s.number1 &&
         r.number1 == s.number1 + "." && r.number2 == s.number2) &&
      (r.number2 != s.number2 ==>
         s.number2 != "" && !IsBlank(s.number2) && '.' !in s.number2 &&
         r.number2 == s.number2 + "." && r.number1 == s.number1) &&
      (s.operation.None? && '.' !in s.number1 && !IsBlank(s.number1) ==>
         r == s.(number1 := s.number1 + ".")) &&
      (!(s.operation.None? && '.' !in s.number1 && !IsBlank(s.number1)) &&
       '.' !in s.number2 && !IsBlank(s.number2) ==>
         r == s.(number2 := s.number2 + ".")) &&
      (s.operation.Some? && s.number2 == "" ==> r == s) &&
      (s.operation.None? && Consistent(s) ==> r.number2 == s.number2)
  {
    ConcatKeeps(s.number1, ".");
    ConcatKeeps(s.number2, ".");
  }

  /** Unlike digit entry, the decimal point has no length check: an 8-digit operand becomes 9 characters long. */
  lemma DecimalPastEight()
    ensures |AfterDecimal(CalculatorState("12345678", "", None)).number1| == MaxTypedLength + 1
  {
    var x := "12345678";
    assert !IsWhitespace(x[0]);
    assert '.' !in x by {
      assert forall i :: 0 <= i < |x| ==> IsDigit(x[i]);
    }
  }

  // ---------------- Operation ----------------

  /** An operation is set, or replaced, only when the first operand is not blank; the operands are never touched. */
  lemma OperationEntry(s: CalculatorState, op: CalculatorOperation)
    ensures var r := AfterOperation(s, op);
      r.number1 == s.number1 && r.number2 == s.number2 &&
      (IsBlank(s.number1) ==> r == s) &&
      (!IsBlank(s.number1) ==> r.operation == Some(op))
  {
  }

  // ---------------- Delete ----------------

  /** Number of fields in which two states differ. */
  function Changed(s: CalculatorState, r: CalculatorState): nat {
    (if s.number1 != r.number1 then 1 else 0) +
    (if s.number2 != r.number2 then 1 else 0) +
    (if s.operation != r.operation then 1 else 0)
  }

  /**
   * Delete removes the last character of the second operand, else the
   * operation, else the last character of the first operand, else nothing;
   * it changes at most one field.
   */
  lemma DeletionOrder(s: CalculatorState)
    ensures var r := AfterDeletion(s);
      Changed(s, r) <= 1 &&
      (!IsBlank(s.number2) ==>
         r.number2 + [s.number2[|s.number2| - 1]] == s.number2 && r.number1 == s.number1 && r.operation == s.operation) &&
      (IsBlank(s.number2) && s.operation.Some? ==> r == s.(operation := None)) &&
      (IsBlank(s.number2) && s.operation.None? && !IsBlank(s.number1) ==>
         r.number1 + [s.number1[|s.number1| - 1]] == s.number1 && r.number2 == s.number2 && r.operation.None?) &&
      (IsBlank(s.number2) && s.operation.None? && IsBlank(s.number1) ==> r == s)
  {
  }

  /** The number of keystrokes Delete still has to undo. */
  function Size(s: CalculatorState): nat {
    |s.number1| + |s.number2| + (if s.operation.Some? then 1 else 0)
  }

  /** On a well-formed state Delete makes progress until the state is empty. */
  lemma DeletionShrinks(s: CalculatorState)
    requires WellFormed(s)
    ensures WellFormed(AfterDeletion(s))
    ensures s != Initial ==> Size(AfterDeletion(s)) == Size(s) - 1
    ensures s == Initial ==> AfterDeletion(s) == s
  {
    BlankIffEmpty(s.number1);
    BlankIffEmpty(s.number2);
    PrefixKeeps(s.number1, DropLast(s.number1));
    PrefixKeeps(s.number2, DropLast(s.number2));
  }

  function Deletes(n: nat): (r: seq<CalculatorAction>)
    ensures |r| == n
  {
    seq(n, _ => Delete)
  }

  /** Pressing Delete once per keystroke empties any well-formed state. */
  lemma {:induction false} DeletingEverything<D>(s: CalculatorState, num: Numerics<D>)
    requires WellFormed(s)
    ensures Run(s, Deletes(Size(s)), num) == Initial
    decreases Size(s)
  {
    if Size(s) > 0 {
      var ds := Deletes(Size(s));
      assert ds[0] == Delete && ds[1..] == Deletes(Size(s) - 1);
      DeletionShrinks(s);
      DeletingEverything(AfterDeletion(s), num);
    } else {
      assert s == Initial;
    }
  }

  // ---------------- Calculate ----------------

  /**
   * Calculate does nothing unless both operands parse and an operation is
   * pending; then the new state holds only the first 15 characters of the
   * result's text as its first operand.
   */
  lemma CalculationOutcome<D>(s: CalculatorState, num: Numerics<D>)
    ensures var r := AfterCalculation(s, num);
      (num.parse(s.number1).None? || num.parse(s.number2).None? || s.operation.None? ==> r == s) &&
      (num.parse(s.number1).Some? && num.parse(s.number2).Some? && s.operation.Some? ==>
         var text := num.show(Evaluate(num, s.operation.value, num.parse(s.number1).value, num.parse(s.number2).value));
         r.number2 == "" && r.operation.None? &&
         r.number1 == Take(text, MaxResultLength) &&
         |r.number1| <= MaxResultLength && r.number1 <= text &&
         (|text| <= MaxResultLength ==> r.number1 == text))
  {
  }

  // ---------------- The invariant ----------------

  /** Every action keeps the invariant in the code's own "blank" terms, whatever the numerics do. */
  lemma ConsistentPreserved<D>(s: CalculatorState, a: CalculatorAction, num: Numerics<D>)
    requires Consistent(s)
    ensures Consistent(Reduce(s, a, num))
  {
    assert IsBlank("");
  }

  lemma InitialWellFormed()
    ensures WellFormed(Initial) && Consistent(Initial)
  {
  }

  /** A well-formed state keeps the invariant in the code's "blank" terms. */
  lemma WellFormedConsistent(s: CalculatorState)
    requires WellFormed(s)
    ensures Consistent(s)
  {
    BlankIffEmpty(s.number1);
    BlankIffEmpty(s.number2);
  }

  /**
   * Every action keeps a second operand only with an operation and an
   * operation only with a first operand, keeps whitespace out of the
   * operands, and never gives an operand a second decimal point.
   */
  lemma WellFormedPreserved<D(!new)>(s: CalculatorState, a: CalculatorAction, num: Numerics<D>)
    requires NumberText(num)
    requires WellFormed(s)
    ensures WellFormed(Reduce(s, a, num))
  {
    BlankIffEmpty(s.number1);
    BlankIffEmpty(s.number2);
    match a
    case Number(n) =>
      IntToStringShape(n as int);
      ConcatKeeps(s.number1, IntToString(n as int));
      ConcatKeeps(s.number2, IntToString(n as int));
    case Decimal =>
      ConcatKeeps(s.number1, ".");
      ConcatKeeps(s.number2, ".");
    case Delete =>
      DeletionShrinks(s);
    case Calculate =>
      var r := AfterCalculation(s, num);
      if r != s {
        var x, y := num.parse(s.number1).value, num.parse(s.number2).value;
        var text := num.show(Evaluate(num, s.operation.value, x, y));
        PrefixKeeps(text, r.number1);
      }
    case Clear =>
    case Operation(op) =>
  }

  /** A sequence of actions keeps the "blank" invariant. */
  lemma {:induction false} RunConsistent<D>(s: CalculatorState, actions: seq<CalculatorAction>, num: Numerics<D>)
    requires Consistent(s)
    ensures Consistent(Run(s, actions, num))
    decreases |actions|
  {
    if actions != [] {
      ConsistentPreserved(s, actions[0], num);
      RunConsistent(Reduce(s, actions[0], num), actions[1..], num);
    }
  }

  /** A sequence of actions keeps the state well formed. */
  lemma {:induction false} RunWellFormed<D(!new)>(s: CalculatorState, actions: seq<CalculatorAction>, num: Numerics<D>)
    requires NumberText(num)
    requires WellFormed(s)
    ensures WellFormed(Run(s, actions, num))
    decreases |actions|
  {
    if actions != [] {
      WellFormedPreserved(s, actions[0], num);
      RunWellFormed(Reduce(s, actions[0], num), actions[1..], num);
    }
  }

  /**
   * Every state reached from `CalculatorState()` has a second operand only
   * with an operation, and an operation only with a first operand.
   */
  lemma ReachableInvariant<D(!new)>(actions: seq<CalculatorAction>, num: Numerics<D>)
    requires NumberText(num)
    ensures var s := Run(Initial, actions, num);
      (s.number2 != "" ==> s.operation.Some?) && (s.operation.Some? ==> s.number1 != "") &&
      AtMostOneDot(s.number1) && AtMostOneDot(s.number2)
  {
    InitialWellFormed();
    RunWellFormed(Initial, actions, num);
  }

  // ---------------- Operand lengths ----------------

  /** A typed second operand has at most 9 characters; the first at most 16 (a 15-character result and a decimal point). */
  predicate Bounded(s: CalculatorState) {
    |s.number1| <= MaxResultLength + 1 && (|s.number1| <= MaxResultLength || '.' in s.number1) &&
    |s.number2| <= MaxTypedLength + 1 && (|s.number2| <= MaxTypedLength || '.' in s.number2)
  }

  /** Keypad actions keep the operand lengths bounded. */
  lemma BoundedPreserved<D>(s: CalculatorState, a: CalculatorAction, num: Numerics<D>)
    requires Bounded(s) && IsKeypadAction(a)
    ensures Bounded(Reduce(s, a, num))
  {
    match a
    case Number(n) =>
      DigitEntry(s, n);
    case Decimal =>
      DecimalEntry(s);
    case _ =>
  }

  // ---------------- Scenarios ----------------

  /** 5, +, 3, = leaves the text of 5 + 3 as the first operand and nothing else. */
  lemma ScenarioAddition<D>(num: Numerics<D>, x: D, y: D)
    requires num.parse("5") == Some(x) && num.parse("3") == Some(y)
    ensures Run(Initial, [Number(5), Operation(Add), Number(3), Calculate], num) ==
      CalculatorState(Take(num.show(num.plus(x, y)), MaxResultLength), "", None)
  {
    IntToStringShape(5);
    IntToStringShape(3);
    var s1 := CalculatorState("5", "", None);
    assert AfterNumber(Initial, 5) == s1;
    assert !IsWhitespace(s1.number1[0]);
    var s2 := CalculatorState("5", "", Some(Add));
    var s3 := CalculatorState("5", "3", Some(Add));
    assert AfterNumber(s2, 3) == s3;
  }

  /** 1, /, 0, = leaves the text of 1 / 0 (floating-point infinity), cut to 15 characters. */
  lemma ScenarioDivideByZero<D>(num: Numerics<D>, x: D, y: D)
    requires num.parse("1") == Some(x) && num.parse("0") == Some(y)
    ensures Run(Initial, [Number(1), Operation(Divide), Number(0), Calculate], num) ==
      CalculatorState(Take(num.show(num.div(x, y)), MaxResultLength), "", None)
  {
    IntToStringShape(1);
    IntToStringShape(0);
    var s1 := CalculatorState("1", "", None);
    assert AfterNumber(Initial, 1) == s1;
    assert !IsWhitespace(s1.number1[0]);
    var s2 := CalculatorState("1", "", Some(Divide));
    var s3 := CalculatorState("1", "0", Some(Divide));
    assert AfterNumber(s2, 0) == s3;
  }

  /** Delete on "12 +" removes the operation before touching the first operand. */
  lemma ScenarioDeleteOperation()
    ensures AfterDeletion(CalculatorState("12", "", Some(Add))) == CalculatorState("12", "", None)
  {
  }
}
