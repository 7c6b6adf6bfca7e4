# Calculator input state machine

A Dafny model of the four-function calculator's view model: the
`CalculatorState` value (first operand text `number1`, second operand text
`number2`, pending `operation` or none), the `CalculatorAction` variants
(digit, decimal point, clear, delete, operation, calculate), and
`CalculatorViewModel`, which keeps one mutable `state` and replaces it on
every `onAction` call.

- `text.dfy`, module `Text`: the Kotlin string operations the view model
  uses: `isBlank` over the JVM's `Char.isWhitespace`, `dropLast(1)`,
  `take(n)`, and the text an `Int` gives when appended to a string. That
  text comes with a parser `ParseInt` that reads it back.
- `calculator.dfy`, module `Calculator`: the datatypes, and one pure
  transition per private function of the view model (`AfterNumber`,
  `AfterDecimal`, `AfterOperation`, `AfterDeletion`, `AfterCalculation`).
  It also has their dispatcher `Reduce` (`onAction`), `Run` for a sequence
  of actions, and the class `CalculatorViewModel`. Each method of the class
  updates `state` in place, with the same guards and early returns as the
  Kotlin, and is proved to leave exactly the state its transition function
  gives. `Valid()` is the cross-field invariant, so every method keeps it.
- `properties.dfy`, module `CalculatorProperties`: what the transitions
  promise. It covers the input guards, the deletion order, the shape of an
  evaluated state, the invariant over any sequence of actions, and a few
  example sessions (5 + 3, 1 / 0, delete with an operation pending).

`String.toDoubleOrNull`, the four `Double` operators and `Double.toString`
enter as a `Numerics<D>` value of functions over an unspecified number type.
Nothing is assumed about them, except where a lemma says so: `NumberText`
states that the result text has no whitespace and at most one decimal point,
as the JVM's number text does.

Notes on the code's behaviour:

- Operands are tested with `isNotBlank`, not for emptiness. The invariant
  holds in those terms for every action (`Consistent`). It holds in terms of
  emptiness for every state reachable from `CalculatorState()` when the
  result text has no whitespace and at most one decimal point (`WellFormed`,
  `ReachableInvariant`).
- Only digit entry has the 8-character cap. A decimal point can make a typed
  operand 9 characters long (`DecimalPastEight`). After a calculation the
  first operand can hold 15 characters, or 16 with a decimal point added
  (`Bounded`).
- Delete on the empty state does nothing. It does not always remove something.
- A digit action carries any `Int`, and its decimal text is appended, with a
  minus sign for a negative number. The keypad only sends 0 to 9.
- The result of 5 + 3 is whatever `Double.toString` writes, which on the JVM
  is `8.0`, not `8`. The model leaves the text to `Numerics.show`.

## Model

| member | source | states |
|---|---|---|
| Text.DropLast | calculator/app/src/main/java/com/bryjogar/calculator/MainActivity.kt:91-99 | `dropLast(1)` gives a prefix that, with the last character put back, is the original; empty stays empty |
| Text.Take | calculator/app/src/main/java/com/bryjogar/calculator/MainActivity.kt:115 | `take(n)` gives a prefix of at most n characters, exactly n when the text is that long, and the whole text when it is shorter |
| Text.NatToStringRoundTrip | calculator/app/src/main/java/com/bryjogar/calculator/MainActivity.kt:144 | the decimal digits written for a natural number read back as that number |
| Text.IntToStringRoundTrip | calculator/app/src/main/java/com/bryjogar/calculator/MainActivity.kt:143-151 | the text an `Int` appends to an operand, with its sign, reads back as that `Int` |
| Calculator.CalculatorViewModel.constructor | calculator/app/src/main/java/com/bryjogar/calculator/MainActivity.kt:75 | the view model starts at `CalculatorState()` and satisfies the invariant |
| Calculator.CalculatorViewModel.OnAction | calculator/app/src/main/java/com/bryjogar/calculator/MainActivity.kt:78-87 | each action's new state is the dispatcher's, and the invariant is kept |
| Calculator.CalculatorViewModel.PerformDeletion | calculator/app/src/main/java/com/bryjogar/calculator/MainActivity.kt:89-101 | the in-place deletion leaves the state `AfterDeletion` gives and keeps the invariant |
| Calculator.CalculatorViewModel.PerformCalculation | calculator/app/src/main/java/com/bryjogar/calculator/MainActivity.kt:103-118 | the in-place calculation, with its early return when no operation is set, leaves the state `AfterCalculation` gives |
| Calculator.CalculatorViewModel.EnterOperation | calculator/app/src/main/java/com/bryjogar/calculator/MainActivity.kt:120-124 | the in-place operation entry leaves the state `AfterOperation` gives |
| Calculator.CalculatorViewModel.EnterDecimal | calculator/app/src/main/java/com/bryjogar/calculator/MainActivity.kt:126-138 | the in-place decimal entry, with its early return, leaves the state `AfterDecimal` gives |
| Calculator.CalculatorViewModel.EnterNumber | calculator/app/src/main/java/com/bryjogar/calculator/MainActivity.kt:140-152 | the in-place digit entry, with its two length guards, leaves the state `AfterNumber` gives |
| CalculatorProperties.ClearResets | calculator/app/src/main/java/com/bryjogar/calculator/MainActivity.kt:82 | Clear gives empty operands and no operation from any state |
| CalculatorProperties.DigitEntry | calculator/app/src/main/java/com/bryjogar/calculator/MainActivity.kt:140-152 | a digit key appends exactly that digit to the operand being typed (the first without an operation, the second with one) unless it has 8 characters, when nothing changes; the other fields stay; an operand of at most 8 stays at most 8 |
| CalculatorProperties.NumberEntryReadsBack | calculator/app/src/main/java/com/bryjogar/calculator/MainActivity.kt:140-152 | for any `Int`, the operand being typed is extended by text that reads back as that `Int`, or left alone once it has 8 characters; the operation and the other operand stay |
| CalculatorProperties.TypingStopsAtEight | calculator/app/src/main/java/com/bryjogar/calculator/MainActivity.kt:140-152 | typing any run of digits leaves the operand as the first 8 characters of its old text plus the digits, or untouched if it already had 8 |
| CalculatorProperties.DecimalEntry | calculator/app/src/main/java/com/bryjogar/calculator/MainActivity.kt:126-138 | a decimal point is appended to the first operand when no operation is set and it is not blank and has none, otherwise to the second operand when that is not blank and has none, and nowhere else, so no operand gets a second; with an operation and no second operand it does nothing; on a state satisfying `Consistent` with no operation it touches only the first operand |
| CalculatorProperties.DecimalPastEight | calculator/app/src/main/java/com/bryjogar/calculator/MainActivity.kt:126-138 | decimal entry has no length guard: an 8-digit operand becomes 9 characters |
| CalculatorProperties.OperationEntry | calculator/app/src/main/java/com/bryjogar/calculator/MainActivity.kt:120-124 | the operation is set or replaced only when the first operand is not blank, and the operands never change |
| CalculatorProperties.DeletionOrder | calculator/app/src/main/java/com/bryjogar/calculator/MainActivity.kt:89-101 | delete drops the last character of the second operand, else clears the operation, else drops the last character of the first operand, else does nothing; at most one field changes |
| CalculatorProperties.DeletionShrinks | calculator/app/src/main/java/com/bryjogar/calculator/MainActivity.kt:89-101 | on a well-formed state delete keeps it well formed and undoes exactly one keystroke, and it does nothing only on the empty state |
| CalculatorProperties.DeletingEverything | calculator/app/src/main/java/com/bryjogar/calculator/MainActivity.kt:89-101 | pressing delete once per keystroke turns any well-formed state into `CalculatorState()` |
| CalculatorProperties.CalculationOutcome | calculator/app/src/main/java/com/bryjogar/calculator/MainActivity.kt:103-118 | calculate changes nothing unless both operands parse and an operation is set; then the second operand is empty, no operation is set, and the first operand is exactly `Take(text, 15)`: the whole result text when it has at most 15 characters, its first 15 otherwise |
| CalculatorProperties.ConsistentPreserved | calculator/app/src/main/java/com/bryjogar/calculator/MainActivity.kt:78-153 | every action keeps "second operand not blank needs an operation, an operation needs a non-blank first operand" |
| CalculatorProperties.InitialWellFormed | calculator/app/src/main/java/com/bryjogar/calculator/MainActivity.kt:52-56 | the default state satisfies both forms of the invariant |
| CalculatorProperties.WellFormedConsistent | calculator/app/src/main/java/com/bryjogar/calculator/MainActivity.kt:91-97 | on operands without whitespace, the emptiness form of the invariant gives the blank form the code tests |
| CalculatorProperties.WellFormedPreserved | calculator/app/src/main/java/com/bryjogar/calculator/MainActivity.kt:78-153 | every action keeps "second operand non-empty needs an operation, an operation needs a non-empty first operand", and keeps each operand free of whitespace and of a second decimal point |
| CalculatorProperties.RunConsistent | calculator/app/src/main/java/com/bryjogar/calculator/MainActivity.kt:74-87 | any sequence of actions keeps the blank form of the invariant |
| CalculatorProperties.RunWellFormed | calculator/app/src/main/java/com/bryjogar/calculator/MainActivity.kt:74-87 | any sequence of actions keeps the state well formed |
| CalculatorProperties.ReachableInvariant | calculator/app/src/main/java/com/bryjogar/calculator/MainActivity.kt:75-153 | every state reached from `CalculatorState()` has a second operand only with an operation, an operation only with a first operand, and at most one decimal point per operand |
| CalculatorProperties.BoundedPreserved | calculator/app/src/main/java/com/bryjogar/calculator/MainActivity.kt:126-152 | keypad actions keep the second operand within 9 characters and the first within 16, with the longest lengths only when a decimal point is present |
| CalculatorProperties.ScenarioAddition | calculator/app/src/main/java/com/bryjogar/calculator/MainActivity.kt:103-117 | 5, +, 3, = leaves the text of 5 + 3, cut to 15 characters, as the only field set |
| CalculatorProperties.ScenarioDivideByZero | calculator/app/src/main/java/com/bryjogar/calculator/MainActivity.kt:103-117 | 1, /, 0, = leaves the text of 1 / 0, cut to 15 characters, as the only field set |
| CalculatorProperties.ScenarioDeleteOperation | calculator/app/src/main/java/com/bryjogar/calculator/MainActivity.kt:89-101 | delete on "12" with + pending clears the operation and keeps "12" |

## Left out

- Floating-point numbers: `toDoubleOrNull`, `Double` addition, subtraction, multiplication and division (with infinity and NaN), and `Double.toString` are parameters (`Numerics`). Their IEEE-754 and JVM formatting behaviour is not modelled.
- Whitespace and decimal points in the result text: the model does not derive these from `Double.toString`. Lemmas that need them take them as the `NumberText` precondition.
- The Compose UI: `MainActivity.onCreate`, `CalculatorTheme`, `CalculatorScreen`, `CalculatorButton`. This includes the display line that joins `number1`, the operation's symbol and `number2`. `CalculatorOperation.Symbol` is modelled without a contract.
- State observation: `mutableStateOf` and redrawing on change. The `private set` on `state` is not enforced; the class only changes `state` through its methods.
- The two build-verification screens. They only show a static message and a clock refreshed every second, which is clock time and concurrency with no logic of its own.
- CalculatorProperties.DigitEntry: stated only for the digits 0 to 9 that the keypad sends. For any other `Int`, `NumberEntryReadsBack` states what is appended.
- CalculatorProperties.BoundedPreserved: stated only for keypad actions. A digit action with a multi-digit or negative `Int` can push an operand past 9 characters.
