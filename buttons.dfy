/**
 * The two enumerations the home view switches over: the keys of the pad
 * (`CalculatorButtons`) and the pending arithmetic operator (`Operation`).
 * Their declarations live outside the view; their cases are the ones the
 * button grid lays out and `didTap` matches on.
 */
module Buttons {

  /** One key of the calculator pad. */
  datatype CalculatorButtons =
    | Zero | One | Two | Three | Four | Five | Six | Seven | Eight | Nine
    | Decimal | Negative | Percent | Clear
    | Add | Subtract | Multiply | Divide | Equal
  {
    /** The ten keys handled by the `default:` branch of `didTap`. */
    predicate IsDigit() {
      Zero? || One? || Two? || Three? || Four? || Five? || Six? || Seven? || Eight? || Nine?
    }

    /** The four keys that store an operator and the accumulator. */
    predicate IsOperator() {
      Add? || Subtract? || Multiply? || Divide?
    }
  }

  /** The operator awaiting its right-hand operand; `None` when there is none. */
  datatype Operation = None | Add | Subtract | Multiply | Divide

  /** The raw value of a digit key: its single decimal digit as text. */
  function DigitText(b: CalculatorButtons): (r: string)
    requires b.IsDigit()
    ensures |r| == 1 && '0' <= r[0] <= '9'
    ensures r == "0" <==> b == Zero
  {
    match b
    case Zero => "0"
    case One => "1"
    case Two => "2"
    case Three => "3"
    case Four => "4"
    case Five => "5"
    case Six => "6"
    case Seven => "7"
    case Eight => "8"
    case Nine => "9"
  }

  /** The operator an operator key selects. */
  function OperatorOf(b: CalculatorButtons): (o: Operation)
    requires b.IsOperator()
    ensures o != Operation.None
  {
    match b
    case Add => Operation.Add
    case Subtract => Operation.Subtract
    case Multiply => Operation.Multiply
    case Divide => Operation.Divide
  }
}
