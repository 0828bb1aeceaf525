# Calculator home view: the key-handling state machine

This project models the logic of the calculator's home view
(`HomeView` in `CalculatorProject/Views/HomeView.swift`). The view has three
fields:

- the display text;
- the accumulator, which holds the left operand captured when an operator key is pressed;
- the pending operator (`none`, add, subtract, multiply or divide).

`didTap(button:)` handles one key press by editing these fields in place. The
edits are:

- Digits replace a display of exactly "0" and are appended to anything else.
- The decimal key appends "." unless the display already has one.
- The sign key removes a leading "-", or else prepends one unless the display is "0".
- Percent replaces a parseable display with its hundredth, rendered with default formatting.
- Clear resets all three fields.
- An operator key stores itself and the parsed display (zero if the display does not parse), then shows "0".
- Equal applies the pending operator to the accumulator and the parsed display and shows the result with `%g`. It changes neither the accumulator nor the operator, so a second equal applies the same operator to the same accumulator again.

Layout of the Dafny project:

- `wrappers.dfy`: `Option`, the result of the number parser.
- `buttons.dfy`: the key enumeration `CalculatorButtons` and the operator enumeration `Operation`. Their Swift declarations are not in `HomeView.swift`, the file modelled here. The key cases come from the button grid (`HomeView.swift:17-21`). The operator cases come from the switch in `didTap` (`HomeView.swift:99-109`). The raw value of a digit key is its digit, as the `default:` branch uses it (`HomeView.swift:141-147`).
- `numerics.dfy`: the floating-point services, kept abstract. A value `Numerics<Num>` supplies each service as an arbitrary function over an abstract number type `Num`:
  - `Double(String)` parsing;
  - `%g` formatting;
  - default string interpolation;
  - the four arithmetic operations;
  - the constants 0 and 100.

  Everything proved holds whatever these functions compute.
- `home_view.dfy`: the three fields as a value `State`, and the transition function `Step` on it. Also the class `Calculator`, whose fields are the view's three fields. Its constructor sets the view's initial values, and its method `DidTap` mirrors `didTap` statement by statement. `DidTap` is proved to perform exactly `Step`.
- `home_view_properties.dfy`: lemmas about `Step`. They cover what each kind of key does and what it leaves alone, repeated presses, and an invariant on the display that typing keeps.

Three consequences of the code that are easy to miss:

- Equal does not store the accumulator (`HomeView.swift:96-111`). Only the four operator keys do.
- Pressing the sign key twice does not always give the display back. It does not on "-0", which `%g` prints for a negative zero: the first press gives "0" and the second leaves it. It also does not on a display starting with "--": only one minus sign is removed. `HomeViewProperties.ToggleSignTwice` states exactly when the display is restored.
- `didTap` returns nothing. The display is read from the field.

## Model

| member | source | states |
|---|---|---|
| `HomeView.Calculator.constructor` | CalculatorProject/Views/HomeView.swift:12-14 | the view starts with display "0", accumulator 0.0 and no pending operator |
| `HomeView.Calculator.DidTap` | CalculatorProject/Views/HomeView.swift:81-149 | the in-place key handler leaves the three fields exactly as the transition `Step` prescribes for the old fields and the key |
| `Buttons.DigitText` | CalculatorProject/Views/HomeView.swift:141-147 | the raw value of a digit key is one decimal digit, and it is "0" only for the zero key |
| `Buttons.OperatorOf` | CalculatorProject/Views/HomeView.swift:84-95 | each operator key selects an actual operator, never `none` |
| `HomeViewProperties.DigitsText` | CalculatorProject/Views/HomeView.swift:141-147 | the text of n digit keys typed one after another has n characters, all decimal digits |
| `HomeViewProperties.ClearResets` | CalculatorProject/Views/HomeView.swift:116-119 | clear gives display "0", accumulator 0.0 and no operator, whatever the prior state |
| `HomeViewProperties.DigitPress` | CalculatorProject/Views/HomeView.swift:141-147 | a digit replaces a display of exactly "0" and is appended otherwise; accumulator and operator are unchanged |
| `HomeViewProperties.ZeroOnZeroIsNoOp` | CalculatorProject/Views/HomeView.swift:143-144 | pressing zero on "0" changes nothing, so leading zeros are never entered |
| `HomeViewProperties.DigitsAppend` | CalculatorProject/Views/HomeView.swift:145-146 | on a display that is neither empty nor "0", any run of digit keys appends exactly those digits and changes nothing else |
| `HomeViewProperties.DigitsFromZero` | CalculatorProject/Views/HomeView.swift:141-147 | from "0", a run of digits whose first is not zero leaves the display equal to the concatenation of the digits |
| `HomeViewProperties.DecimalPress` | CalculatorProject/Views/HomeView.swift:121-125 | the decimal key appends "." exactly when there is none, leaves the state unchanged otherwise, always leaves a "." on the display and never touches accumulator or operator |
| `HomeViewProperties.DecimalIdempotent` | CalculatorProject/Views/HomeView.swift:121-125 | pressing the decimal key twice is the same as pressing it once |
| `HomeViewProperties.NegativePress` | CalculatorProject/Views/HomeView.swift:127-133 | the sign key changes only the display, and on exactly "0" changes nothing |
| `HomeViewProperties.ToggleSignTwice` | CalculatorProject/Views/HomeView.swift:127-133 | toggling the sign twice restores the display if and only if it is not "-0" and does not start with "--" |
| `HomeViewProperties.NegativeTwice` | CalculatorProject/Views/HomeView.swift:127-133 | two sign presses restore the whole state when the display is not "0" and has no leading minus |
| `HomeViewProperties.OperatorPress` | CalculatorProject/Views/HomeView.swift:83-95 | an operator key sets the pending operator to itself, stores the parsed display (zero when it does not parse) and resets the display to "0" |
| `HomeViewProperties.EqualPress` | CalculatorProject/Views/HomeView.swift:96-111 | equal never changes accumulator or operator; with no operator it changes nothing; otherwise it shows the `%g` rendering of the operator applied to the accumulator and the parsed display (zero when it does not parse) |
| `HomeViewProperties.EqualTwice` | CalculatorProject/Views/HomeView.swift:96-111 | a second equal applies the same operator to the same accumulator and the parsed first result |
| `HomeViewProperties.PercentPress` | CalculatorProject/Views/HomeView.swift:135-140 | percent changes only the display: an unparseable display stays as it is (no fallback to zero), a parseable one becomes the default rendering of its value divided by 100 |
| `HomeViewProperties.EnterDigitKeepsEntry` | CalculatorProject/Views/HomeView.swift:141-147 | entering a digit keeps a typed display well formed: only digits, points and minus signs, at most one point, a minus only in front |
| `HomeViewProperties.EnterDecimalKeepsEntry` | CalculatorProject/Views/HomeView.swift:121-125 | entering the decimal point keeps a typed display well formed |
| `HomeViewProperties.ToggleSignKeepsEntry` | CalculatorProject/Views/HomeView.swift:127-133 | toggling the sign keeps a typed display well formed |
| `HomeViewProperties.StepKeepsEntry` | CalculatorProject/Views/HomeView.swift:113-147 | every key other than percent and equal keeps a well-formed display well formed |
| `HomeViewProperties.RunKeepsEntry` | CalculatorProject/Views/HomeView.swift:81-149 | any sequence of keys other than percent and equal keeps a well-formed display well formed |
| `HomeViewProperties.EntryFromInitial` | CalculatorProject/Views/HomeView.swift:12-14 | from the initial fields, digit, decimal, sign, clear and operator keys never produce a display with two points or starting with "--" |

## Left out

- The SwiftUI `body` is not modelled: the button grid, text rendering and the scroll-to-end animation (`HomeView.swift:24-68`) are presentation with no logic.
- `buttonWidth` and `buttonHeight` (`HomeView.swift:70-79`) are not modelled: they compute sizes from the screen width.
- `Double` arithmetic is not modelled. It is abstract, so results such as "5 + 3 shows 8" or division by zero showing infinity are not stated.
- `Double(String)` parsing is not modelled. Only its optional result matters to the model.
- `String(format: "%g", …)` and default string interpolation are not modelled. They are abstract functions.
- The `#Preview` block is not modelled.
- `HomeViewProperties.EntryFromInitial` does not cover percent and equal keys. Their new display comes from the abstract formatters, so nothing can be said about its shape.
- The Swift declarations of `CalculatorButtons` and `Operation` are not in `HomeView.swift`. So the labels of the non-digit keys and the key colours are not modelled.
