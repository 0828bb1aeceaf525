/**
 * The floating-point services the view calls into, kept abstract.
 *
 * The view stores numbers as `Double`, reads them with `Double(String)`,
 * writes arithmetic results with `String(format: "%g", x)` and percentages
 * with string interpolation. None of that is modelled: a `Numerics<Num>` value
 * supplies each service as an arbitrary function over an abstract number type
 * `Num`, so everything proved about the view holds whatever they compute.
 */
module Numerics {
  import opened Wrappers
  import opened Buttons

  datatype Numerics<!Num> = Numerics(
    parse: string -> Option<Num>,        // Double(String): None when the text is not a number
    formatG: Num -> string,              // String(format: "%g", x)
    formatDefault: Num -> string,        // "\(x)"
    add: (Num, Num) -> Num,              // x + y
    subtract: (Num, Num) -> Num,         // x - y
    multiply: (Num, Num) -> Num,         // x * y
    divide: (Num, Num) -> Num,           // x / y
    zero: Num,                           // 0.0
    hundred: Num                         // 100
  )

  /** `Double(s) ?? 0`: the parsed value, or zero when `s` does not parse. */
  function ParseOrZero<Num>(lib: Numerics<Num>, s: string): Num {
    lib.parse(s).GetOr(lib.zero)
  }

  /** The arithmetic a pending operator stands for. */
  function Apply<Num>(lib: Numerics<Num>, op: Operation, x: Num, y: Num): Num
    requires op != Operation.None
  {
    match op
    case Add => lib.add(x, y)
    case Subtract => lib.subtract(x, y)
    case Multiply => lib.multiply(x, y)
    case Divide => lib.divide(x, y)
  }
}
