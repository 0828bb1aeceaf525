/**
 * The home view's button-event state machine.
 *
 * The view keeps three fields: the text on the display, the accumulator
 * (the left operand captured when an operator key is pressed) and the
 * pending operator. Every key press is one synchronous transition on them.
 * `Step` states that transition as a function of the old state; the class
 * `Calculator` holds the three fields and updates them in place, and its
 * `DidTap` is proved to perform exactly `Step`.
 */
module HomeView {
  import opened Buttons
  import opened Numerics

  /** The three fields of the view at one moment. */
  datatype State<Num> = State(display: string, compute: Num, op: Operation)

  /** The fields as the view starts: "0", 0.0 and no operator. */
  function Initial<Num>(lib: Numerics<Num>): State<Num> {
    State("0", lib.zero, Operation.None)
  }

  /** `s.hasPrefix("-")` */
  predicate StartsWithMinus(s: string) {
    |s| > 0 && s[0] == '-'
  }

  /** The display after a digit key: "0" is replaced, anything else is extended. */
  function EnterDigit(display: string, digit: string): string {
    if display == "0" then digit else display + digit
  }

  /** The display after the decimal-point key: a point is added only if none is there. */
  function EnterDecimal(display: string): string {
    if '.' in display then display else display + "."
  }

  /** The display after the sign key: a leading minus is removed, otherwise one is added unless the display is "0". */
  function ToggleSign(display: string): string {
    if StartsWithMinus(display) then display[1..]
    else if display != "0" then "-" + display
    else display
  }

  /** The new state after pressing `b` in state `s`. */
  function Step<Num>(lib: Numerics<Num>, s: State<Num>, b: CalculatorButtons): State<Num> {
    match b
    case Add | Subtract | Multiply | Divide =>
      State("0", ParseOrZero(lib, s.display), OperatorOf(b))
    case Equal =>
      if s.op == Operation.None then s
      else s.(display := lib.formatG(Apply(lib, s.op, s.compute, ParseOrZero(lib, s.display))))
    case Clear =>
      Initial(lib)
    case Decimal =>
      s.(display := EnterDecimal(s.display))
    case Negative =>
      s.(display := ToggleSign(s.display))
    case Percent =>
      (match lib.parse(s.display)
       case None => s
       case Some(v) => s.(display := lib.formatDefault(lib.divide(v, lib.hundred))))
    case _ =>
      s.(display := EnterDigit(s.display, DigitText(b)))
  }

  /** The state after pressing the keys of `bs` in order, starting in `s`. */
  function Run<Num>(lib: Numerics<Num>, s: State<Num>, bs: seq<CalculatorButtons>): State<Num>
    decreases |bs|
  {
    if bs == [] then s else Run(lib, Step(lib, s, bs[0]), bs[1..])
  }

  /** The view's mutable fields and its key handler. */
  class Calculator<Num> {
    const lib: Numerics<Num>
    var display: string
    var compute: Num
    var op: Operation

    /** The fields as one value. */
    function Snapshot(): State<Num>
      reads this
    {
      State(display, compute, op)
    }

    constructor (lib: Numerics<Num>)
      ensures this.lib == lib
      ensures Snapshot() == Initial(lib)
    {
      this.lib := lib;
      display := "0";
      compute := lib.zero;
      op := Operation.None;
    }

    /** Handles one key press, updating the fields in place. */
    method DidTap(button: CalculatorButtons)
      modifies this
      ensures Snapshot() == Step(lib, old(Snapshot()), button)
    {
      if button.IsOperator() || button == CalculatorButtons.Equal {
        if button == CalculatorButtons.Add {
          op := Operation.Add;
          compute := lib.parse(display).GetOr(lib.zero);
        } else if button == CalculatorButtons.Subtract {
          op := Operation.Subtract;
          compute := lib.parse(display).GetOr(lib.zero);
        } else if button == CalculatorButtons.Divide {
          op := Operation.Divide;
          compute := lib.parse(display).GetOr(lib.zero);
        } else if button == CalculatorButtons.Multiply {
          op := Operation.Multiply;
          compute := lib.parse(display).GetOr(lib.zero);
        } else if button == CalculatorButtons.Equal {
          var runningValue := compute;
          var currentValue := lib.parse(display).GetOr(lib.zero);
          match op {
            case Add => display := lib.formatG(lib.add(runningValue, currentValue));
            case Subtract => display := lib.formatG(lib.subtract(runningValue, currentValue));
            case Divide => display := lib.formatG(lib.divide(runningValue, currentValue));
            case Multiply => display := lib.formatG(lib.multiply(runningValue, currentValue));
            case None =>
          }
        }
        if button != CalculatorButtons.Equal {
          display := "0";
        }
      } else if button == CalculatorButtons.Clear {
        display := "0";
        compute := lib.zero;
        op := Operation.None;
      } else if button == CalculatorButtons.Decimal {
        if '.' !in display {
          display := display + ".";
        }
      } else if button == CalculatorButtons.Negative {
        if |display| > 0 && display[0] == '-' {
          display := display[1..];
        } else if display != "0" {
          display := "-" + display;
        }
      } else if button == CalculatorButtons.Percent {
        match lib.parse(display) {
          case Some(value) =>
            display := lib.formatDefault(lib.divide(value, lib.hundred));
          case None =>
        }
      } else {
        var number := DigitText(button);
        if display == "0" {
          display := number;
        } else {
          display := display + number;
        }
      }
    }
  }
}
