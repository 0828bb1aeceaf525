/**
 * Properties of the key handler: what each kind of key does to the three
 * fields, what repeated presses do, and the shape of the display that key
 * entry alone keeps.
 */
module HomeViewProperties {
  import opened Buttons
  import opened Numerics
  import opened HomeView

  /** The accumulator and the pending operator are the same in both states. */
  ghost predicate SameRegisters<Num>(s: State<Num>, r: State<Num>) {
    r.compute == s.compute && r.op == s.op
  }

  predicate AllDigits(ds: seq<CalculatorButtons>) {
    forall i :: 0 <= i < |ds| ==> ds[i].IsDigit()
  }

  /** The raw values of the digit keys `ds`, one after another. */
  function DigitsText(ds: seq<CalculatorButtons>): (r: string)
    requires AllDigits(ds)
    ensures |r| == |ds|
    ensures forall i :: 0 <= i < |r| ==> '0' <= r[i] <= '9'
  {
    if ds == [] then "" else DigitText(ds[0]) + DigitsText(ds[1..])
  }

  // ---------------------------------------------------------------- clear

  /** Clear restores the initial fields whatever the state was. */
  lemma ClearResets<Num>(lib: Numerics<Num>, s: State<Num>)
    ensures Step(lib, s, CalculatorButtons.Clear) == Initial(lib)
    ensures Step(lib, s, CalculatorButtons.Clear) == State("0", lib.zero, Operation.None)
  {
  }

  // --------------------------------------------------------------- digits

  /** A digit replaces a display of exactly "0" and is appended to any other; nothing else changes. */
  lemma DigitPress<Num>(lib: Numerics<Num>, s: State<Num>, b: CalculatorButtons)
    requires b.IsDigit()
    ensures SameRegisters(s, Step(lib, s, b))
    ensures s.display == "0" ==> Step(lib, s, b).display == DigitText(b)
    ensures s.display != "0" ==> Step(lib, s, b).display == s.display + DigitText(b)
  {
  }

  /** Zero pressed on "0" changes nothing: leading zeros are not entered. */
  lemma ZeroOnZeroIsNoOp<Num>(lib: Numerics<Num>, s: State<Num>)
    requires s.display == "0"
    ensures Step(lib, s, CalculatorButtons.Zero) == s
  {
  }

  /** Once the display is longer than "0" can be, digit keys only append. */
  lemma {:induction false} DigitsAppend<Num>(lib: Numerics<Num>, s: State<Num>, ds: seq<CalculatorButtons>)
    requires AllDigits(ds)
    requires |s.display| >= 1 && s.display != "0"
    ensures Run(lib, s, ds) == s.(display := s.display + DigitsText(ds))
    decreases |ds|
  {
    if ds != [] {
      var s1 := Step(lib, s, ds[0]);
      assert s1 == s.(display := s.display + DigitText(ds[0]));
      DigitsAppend(lib, s1, ds[1..]);
      assert s.display + DigitText(ds[0]) + DigitsText(ds[1..]) == s.display + DigitsText(ds);
    }
  }

  /** From "0", digits whose first is not zero leave the display equal to the digits typed. */
  lemma DigitsFromZero<Num>(lib: Numerics<Num>, s: State<Num>, ds: seq<CalculatorButtons>)
    requires AllDigits(ds) && |ds| > 0 && ds[0] != CalculatorButtons.Zero
    requires s.display == "0"
    ensures Run(lib, s, ds) == s.(display := DigitsText(ds))
  {
    var s1 := Step(lib, s, ds[0]);
    assert s1 == s.(display := DigitText(ds[0]));
    DigitsAppend(lib, s1, ds[1..]);
  }

  // -------------------------------------------------------- decimal point

  /** The decimal key appends "." only when there is none; afterwards there is one. */
  lemma DecimalPress<Num>(lib: Numerics<Num>, s: State<Num>)
    ensures SameRegisters(s, Step(lib, s, CalculatorButtons.Decimal))
    ensures '.' in Step(lib, s, CalculatorButtons.Decimal).display
    ensures '.' in s.display ==> Step(lib, s, CalculatorButtons.Decimal) == s
    ensures '.' !in s.display ==> Step(lib, s, CalculatorButtons.Decimal).display == s.display + "."
  {
  }

  /** Pressing the decimal key twice is the same as pressing it once. */
  lemma DecimalIdempotent<Num>(lib: Numerics<Num>, s: State<Num>)
    ensures Step(lib, Step(lib, s, CalculatorButtons.Decimal), CalculatorButtons.Decimal)
         == Step(lib, s, CalculatorButtons.Decimal)
  {
  }

  // ----------------------------------------------------------------- sign

  /** The sign key changes only the display, and leaves "0" as it is. */
  lemma NegativePress<Num>(lib: Numerics<Num>, s: State<Num>)
    ensures SameRegisters(s, Step(lib, s, CalculatorButtons.Negative))
    ensures s.display == "0" ==> Step(lib, s, CalculatorButtons.Negative) == s
  {
  }

  /**
   * Toggling the sign twice gives the display back exactly when it is not
   * "-0" (the first toggle yields "0", which the second leaves alone) and
   * does not start with two minus signs (only one of them is removed).
   */
  lemma ToggleSignTwice(d: string)
    ensures ToggleSign(ToggleSign(d)) == d <==> d != "-0" && !(|d| >= 2 && d[0] == '-' && d[1] == '-')
  {
  }

  /** Two sign presses restore a display that is not "0" and has no leading minus. */
  lemma NegativeTwice<Num>(lib: Numerics<Num>, s: State<Num>)
    requires s.display != "0" && !StartsWithMinus(s.display)
    ensures Step(lib, Step(lib, s, CalculatorButtons.Negative), CalculatorButtons.Negative) == s
  {
  }

  // ------------------------------------------------------------ operators

  /** An operator key stores itself, stores the parsed display (zero if it does not parse) and clears the display. */
  lemma OperatorPress<Num>(lib: Numerics<Num>, s: State<Num>, b: CalculatorButtons)
    requires b.IsOperator()
    ensures Step(lib, s, b).op == OperatorOf(b) && Step(lib, s, b).op != Operation.None
    ensures Step(lib, s, b).display == "0"
    ensures lib.parse(s.display).Some? ==> Step(lib, s, b).compute == lib.parse(s.display).value
    ensures lib.parse(s.display).None? ==> Step(lib, s, b).compute == lib.zero
  {
  }

  // ---------------------------------------------------------------- equal

  /**
   * Equal never touches the accumulator or the operator; with no operator
   * pending it changes nothing, otherwise it shows the operator applied to
   * the accumulator and the parsed display (zero if it does not parse).
   */
  lemma EqualPress<Num>(lib: Numerics<Num>, s: State<Num>)
    ensures SameRegisters(s, Step(lib, s, CalculatorButtons.Equal))
    ensures s.op == Operation.None ==> Step(lib, s, CalculatorButtons.Equal) == s
    ensures s.op != Operation.None ==>
      Step(lib, s, CalculatorButtons.Equal).display == lib.formatG(Apply(lib, s.op, s.compute, ParseOrZero(lib, s.display)))
  {
  }

  /** A second equal applies the same operator to the same accumulator and to the first result. */
  lemma EqualTwice<Num>(lib: Numerics<Num>, s: State<Num>)
    requires s.op != Operation.None
    ensures var first := Step(lib, s, CalculatorButtons.Equal);
            var second := Step(lib, first, CalculatorButtons.Equal);
            SameRegisters(s, second) &&
            second.display == lib.formatG(Apply(lib, s.op, s.compute, ParseOrZero(lib, first.display)))
  {
  }

  // -------------------------------------------------------------- percent

  /**
   * Percent changes only the display; a display that does not parse is left
   * alone (there is no fallback to zero), one that does is replaced by the
   * default rendering of its hundredth.
   */
  lemma PercentPress<Num>(lib: Numerics<Num>, s: State<Num>)
    ensures SameRegisters(s, Step(lib, s, CalculatorButtons.Percent))
    ensures lib.parse(s.display).None? ==> Step(lib, s, CalculatorButtons.Percent) == s
    ensures lib.parse(s.display).Some? ==>
      Step(lib, s, CalculatorButtons.Percent).display == lib.formatDefault(lib.divide(lib.parse(s.display).value, lib.hundred))
  {
  }

  // ------------------------------------------------- shape of typed input

  /** Keys whose effect on the display is a pure text edit (no number is formatted). */
  predicate IsEntryKey(b: CalculatorButtons) {
    !b.Percent? && !b.Equal?
  }

  predicate IsEntryChar(c: char) {
    '0' <= c <= '9' || c == '.' || c == '-'
  }

  /**
   * A display built by typing: only digits, points and minus signs, at most
   * one point, and a minus sign nowhere but in front.
   */
  predicate WellFormedEntry(d: string) {
    && multiset(d)['.'] <= 1
    && (forall i :: 0 <= i < |d| ==> IsEntryChar(d[i]))
    && (forall i :: 0 < i < |d| ==> d[i] != '-')
  }

  /** Entering a digit keeps the display well formed. */
  lemma EnterDigitKeepsEntry(d: string, t: string)
    requires WellFormedEntry(d) && |t| == 1 && '0' <= t[0] <= '9'
    ensures WellFormedEntry(EnterDigit(d, t))
  {
  }

  /** Entering the decimal point keeps the display well formed. */
  lemma EnterDecimalKeepsEntry(d: string)
    requires WellFormedEntry(d)
    ensures WellFormedEntry(EnterDecimal(d))
  {
  }

  /** Toggling the sign keeps the display well formed. */
  lemma ToggleSignKeepsEntry(d: string)
    requires WellFormedEntry(d)
    ensures WellFormedEntry(ToggleSign(d))
  {
    if StartsWithMinus(d) {
      assert d == [d[0]] + d[1..];
      assert multiset(d) == multiset([d[0]]) + multiset(d[1..]);
    } else if d != "0" {
      assert multiset("-" + d) == multiset("-") + multiset(d);
      assert forall i :: 0 < i < |"-" + d| ==> ("-" + d)[i] == d[i - 1];
    }
  }

  /** Every entry key keeps a well-formed display well formed. */
  lemma StepKeepsEntry<Num>(lib: Numerics<Num>, s: State<Num>, b: CalculatorButtons)
    requires IsEntryKey(b) && WellFormedEntry(s.display)
    ensures WellFormedEntry(Step(lib, s, b).display)
  {
    if b.IsDigit() {
      EnterDigitKeepsEntry(s.display, DigitText(b));
    } else if b.Decimal? {
      EnterDecimalKeepsEntry(s.display);
    } else if b.Negative? {
      ToggleSignKeepsEntry(s.display);
    } else if b.Clear? || b.IsOperator() {
      assert multiset("0")['.'] == 0;
    }
  }

  /** Any sequence of entry keys keeps a well-formed display well formed. */
  lemma {:induction false} RunKeepsEntry<Num>(lib: Numerics<Num>, s: State<Num>, bs: seq<CalculatorButtons>)
    requires forall i :: 0 <= i < |bs| ==> IsEntryKey(bs[i])
    requires WellFormedEntry(s.display)
    ensures WellFormedEntry(Run(lib, s, bs).display)
    decreases |bs|
  {
    if bs != [] {
      StepKeepsEntry(lib, s, bs[0]);
      RunKeepsEntry(lib, Step(lib, s, bs[0]), bs[1..]);
    }
  }

  /**
   * From the initial fields, typing digits, points, signs, clears and
   * operators never puts two points on the display, nor two minus signs in
   * front of it.
   */
  lemma EntryFromInitial<Num>(lib: Numerics<Num>, bs: seq<CalculatorButtons>)
    requires forall i :: 0 <= i < |bs| ==> IsEntryKey(bs[i])
    ensures var d := Run(lib, Initial(lib), bs).display;
            multiset(d)['.'] <= 1 && !(|d| >= 2 && d[0] == '-' && d[1] == '-')
  {
    assert multiset("0")['.'] == 0;
    RunKeepsEntry(lib, Initial(lib), bs);
  }
}
