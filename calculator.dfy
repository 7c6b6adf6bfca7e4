/**
 * The calculator's input state machine: the state (two operand texts and an
 * optional pending operation), the user actions, and the view model that
 * replaces its state with a new value on every action.
 *
 * Each private function of the view model has a pure counterpart here
 * (`AfterNumber`, `AfterDecimal`, ...) that says what the new state is; the
 * class's methods update `state` in place and are proved to agree with them;
 * the lemmas state what the transitions promise.
 *
 * Parsing operand text as a `Double`, IEEE-754 arithmetic and
 * `Double.toString` are not modelled: they come in as a `Numerics<D>` value.
 */
module Calculator {
  import opened Text

  /** Kotlin's `Int`, the payload of a digit button press. */
  newtype Int32 = x: int | -0x8000_0000 <= x < 0x8000_0000

  /** Digit entry stops once an operand has this many characters. */
  const MaxTypedLength: nat := 8

  /** The evaluated result's text is cut to this many characters. */
  const MaxResultLength: nat := 15

  datatype CalculatorOperation = Add | Subtract | Multiply | Divide
  {
    /** The symbol the display shows between the operands. */
    function Symbol(): string {
      match this
      case Add => "+"
      case Subtract => "-"
      case Multiply => "x"
      case Divide => "/"
    }
  }

  datatype CalculatorState = CalculatorState(number1: string, number2: string, operation: Option<CalculatorOperation>)

  /** `CalculatorState()`: both operands empty, no operation. */
  const Initial := CalculatorState("", "", None)

  datatype CalculatorAction =
    | Number(number: Int32)
    | Clear
    | Delete
    | Decimal
    | Operation(operation: CalculatorOperation)
    | Calculate

  /**
   * The numeric collaborators of the calculation: `String.toDoubleOrNull`,
   * the four `Double` operators and `Double.toString`, over a number type `D`.
   */
  datatype Numerics<!D> = Numerics(
    parse: string -> Option<D>,
    plus: (D, D) -> D,
    minus: (D, D) -> D,
    times: (D, D) -> D,
    div: (D, D) -> D,
    show: D -> string)

  /** What the JVM's number text satisfies: no whitespace and at most one decimal point. */
  ghost predicate NumberText<D(!new)>(num: Numerics<D>) {
    forall d: D :: NoWhitespace(num.show(d)) && AtMostOneDot(num.show(d))
  }

  function Evaluate<D>(num: Numerics<D>, op: CalculatorOperation, x: D, y: D): D {
    match op
    case Add => num.plus(x, y)
    case Subtract => num.minus(x, y)
    case Multiply => num.times(x, y)
    case Divide => num.div(x, y)
  }

  // ---------------- Transitions ----------------

  /** `enterNumber`: append the number's text to the operand being typed, unless it is full. */
  function AfterNumber(s: CalculatorState, number: Int32): CalculatorState {
    if s.operation.None? then
      if |s.number1| >= MaxTypedLength then s
      else s.(number1 := s.number1 + IntToString(number as int))
    else
      if |s.number2| >= MaxTypedLength then s
      else s.(number2 := s.number2 + IntToString(number as int))
  }

  /** `enterDecimal`: give the operand being typed its decimal point, if it has none and is not blank. */
  function AfterDecimal(s: CalculatorState): CalculatorState {
    if s.operation.None? && '.' !in s.number1 && !IsBlank(s.number1) then
      s.(number1 := s.number1 + ".")
    else if '.' !in s.number2 && !IsBlank(s.number2) then
      s.(number2 := s.number2 + ".")
    else
      s
  }

  /** `enterOperation`: set or replace the operation once there is a first operand. */
  function AfterOperation(s: CalculatorState, op: CalculatorOperation): CalculatorState {
    if !IsBlank(s.number1) then s.(operation := Some(op)) else s
  }

  /** `performDeletion`: undo the last keystroke, second operand first, then the operation, then the first operand. */
  function AfterDeletion(s: CalculatorState): CalculatorState {
    if !IsBlank(s.number2) then s.(number2 := DropLast(s.number2))
    else if s.operation.Some? then s.(operation := None)
    else if !IsBlank(s.number1) then s.(number1 := DropLast(s.number1))
    else s
  }

  /** `performCalculation`: replace the whole state by the result's text, when both operands parse and an operation is pending. */
  function AfterCalculation<D>(s: CalculatorState, num: Numerics<D>): CalculatorState {
    match (num.parse(s.number1), num.parse(s.number2))
    case (Some(x), Some(y)) =>
      (match s.operation
       case None => s
       case Some(op) => CalculatorState(Take(num.show(Evaluate(num, op, x, y)), MaxResultLength), "", None))
    case _ => s
  }

  /** `onAction`: dispatch one action. */
  function Reduce<D>(s: CalculatorState, action: CalculatorAction, num: Numerics<D>): CalculatorState {
    match action
    case Number(n) => AfterNumber(s, n)
    case Decimal => AfterDecimal(s)
    case Clear => Initial
    case Operation(op) => AfterOperation(s, op)
    case Calculate => AfterCalculation(s, num)
    case Delete => AfterDeletion(s)
  }

  /** The state after a sequence of actions, applied first to last. */
  function Run<D>(s: CalculatorState, actions: seq<CalculatorAction>, num: Numerics<D>): CalculatorState
    decreases |actions|
  {
    if actions == [] then s else Run(Reduce(s, actions[0], num), actions[1..], num)
  }

  // ---------------- Invariants ----------------

  /**
   * The cross-field invariant in the terms the code tests: a second operand
   * that is not blank needs an operation, and an operation needs a first
   * operand that is not blank.
   */
  predicate Consistent(s: CalculatorState) {
    (!IsBlank(s.number2) ==> s.operation.Some?) &&
    (s.operation.Some? ==> !IsBlank(s.number1))
  }

  /**
   * The invariant in terms of emptiness, together with the shape of the
   * operand texts that makes "blank" and "empty" coincide.
   */
  predicate WellFormed(s: CalculatorState) {
    (s.number2 != "" ==> s.operation.Some?) &&
    (s.operation.Some? ==> s.number1 != "") &&
    NoWhitespace(s.number1) && NoWhitespace(s.number2) &&
    AtMostOneDot(s.number1) && AtMostOneDot(s.number2)
  }

  // ---------------- The view model ----------------

  class CalculatorViewModel {
    var state: CalculatorState

    ghost predicate Valid()
      reads this
    {
      Consistent(state)
    }

    constructor ()
      ensures Valid() && state == Initial
    {
      state := CalculatorState("", "", None);
    }

    method OnAction<D>(action: CalculatorAction, num: Numerics<D>)
      requires Valid()
      modifies this
      ensures Valid()
      ensures state == Reduce(old(state), action, num)
    {
      match action
      case Number(n) => EnterNumber(n);
      case Decimal => EnterDecimal();
      case Clear => state := CalculatorState("", "", None);
      case Operation(op) => EnterOperation(op);
      case Calculate => PerformCalculation(num);
      case Delete => PerformDeletion();
    }

    method PerformDeletion()
      requires Valid()
      modifies this
      ensures Valid()
      ensures state == AfterDeletion(old(state))
    {
      if !IsBlank(state.number2) {
        state := state.(number2 := DropLast(state.number2));
      } else if state.operation.Some? {
        state := state.(operation := None);
      } else if !IsBlank(state.number1) {
        state := state.(number1 := DropLast(state.number1));
      }
    }

    method PerformCalculation<D>(num: Numerics<D>)
      requires Valid()
      modifies this
      ensures Valid()
      ensures state == AfterCalculation(old(state), num)
    {
      var number1 := num.parse(state.number1);
      var number2 := num.parse(state.number2);
      if number1.Some? && number2.Some? {
        var result;
        match state.operation {
          case Some(Add) => result := num.plus(number1.value, number2.value);
          case Some(Subtract) => result := num.minus(number1.value, number2.value);
          case Some(Multiply) => result := num.times(number1.value, number2.value);
          case Some(Divide) => result := num.div(number1.value, number2.value);
          case None => return;
        }
        state := CalculatorState(Take(num.show(result), MaxResultLength), "", None);
      }
    }

    method EnterOperation(operation: CalculatorOperation)
      requires Valid()
      modifies this
      ensures Valid()
      ensures state == AfterOperation(old(state), operation)
    {
      if !IsBlank(state.number1) {
        state := state.(operation := Some(operation));
      }
    }

    method EnterDecimal()
      requires Valid()
      modifies this
      ensures Valid()
      ensures state == AfterDecimal(old(state))
    {
      if state.operation.None? && '.' !in state.number1 && !IsBlank(state.number1) {
        state := state.(number1 := state.number1 + ".");
        return;
      }
      if '.' !in state.number2 && !IsBlank(state.number2) {
        state := state.(number2 := state.number2 + ".");
      }
    }

    method EnterNumber(number: Int32)
      requires Valid()
      modifies this
      ensures Valid()
      ensures state == AfterNumber(old(state), number)
    {
      if state.operation.None? {
        if |state.number1| >= MaxTypedLength { return; }
        state := state.(number1 := state.number1 + IntToString(number as int));
        return;
      }
      if |state.number2| >= MaxTypedLength { return; }
      state := state.(number2 := state.number2 + IntToString(number as int));
    }
  }
}
