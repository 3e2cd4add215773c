/**
 * The key-entry state machine of the Tkinter calculator (`CalculadoraTkinter`). Its state
 * is the entry on the display (`resultado_actual`, a numeral or "Error") and the pending
 * left operand with its operator (`expresion`). Python's `float()`, `eval()`, `math.sqrt`
 * and the printing of a non-integral float are not modelled; they are the fields of a
 * `Runtime` value the evaluating keys take as a parameter.
 */
module Calculator {
  import opened Wrappers
  import opened Numerals
  import opened Text

  /** `resultado_actual` and `expresion`. */
  datatype Calc = Calc(entry: string, expression: string)

  /**
   * The Python services the evaluating keys call: `float(s)`, `eval(s)` (None when they
   * raise), `str(x)` for a non-integral float, and `math.sqrt`.
   */
  datatype Runtime = Runtime(
    parse: string -> Option<real>,
    eval: string -> Option<real>,
    show: real -> string,
    sqrt: real -> real)

  const Error: string := "Error"

  /** The state after construction and after `limpiar`. */
  const Cleared: Calc := Calc("0", "")

  /** `presionar_numero`: a digit replaces "0" and "Error" and is appended to anything else. */
  function DigitKey(c: Calc, digit: string): Calc {
    if c.entry == "0" || c.entry == Error then Calc(digit, c.expression)
    else Calc(c.entry + digit, c.expression)
  }

  /** `presionar_punto`: append "." unless the entry already has one. */
  function PointKey(c: Calc): Calc {
    if '.' !in c.entry then Calc(c.entry + ".", c.expression) else c
  }

  /**
   * `cambiar_signo`: outside "0" and "Error", drop a leading '-' or add one. On an empty
   * entry `resultado_actual[0]` raises, and the aborted callback leaves the state as it was.
   */
  function SignKey(c: Calc): Calc {
    if c.entry == "0" || c.entry == Error || c.entry == "" then c
    else if c.entry[0] == '-' then Calc(c.entry[1..], c.expression)
    else Calc("-" + c.entry, c.expression)
  }

  /** `borrar_ultimo`: outside "Error", drop the last character, or show "0" when one is left. */
  function BackspaceKey(c: Calc): Calc {
    if c.entry == Error then c
    else if |c.entry| > 1 then Calc(c.entry[..|c.entry| - 1], c.expression)
    else Calc("0", c.expression)
  }

  /** How a result is printed: `str(int(r))` when it is integral, else `str(r)`. */
  function Format(r: real, show: real -> string): string {
    if r == r.Floor as real then IntToString(r.Floor) else show(r)
  }

  /** `a * b / 100` when both operands parsed, None when either `float()` raised. */
  function Percent(a: Option<real>, b: Option<real>): Option<real> {
    if a.Some? && b.Some? then Some(a.value * b.value / 100.0) else None
  }

  /**
   * The value the `try` block of `calcular_resultado` computes, or None when it raises:
   * after '%' the product of the two operands over 100, otherwise `eval` of the expression
   * followed by the entry.
   */
  function Outcome(c: Calc, rt: Runtime): Option<real>
    requires c.expression != ""
  {
    if c.expression[|c.expression| - 1] == '%' then
      Percent(rt.parse(c.expression[..|c.expression| - 1]), rt.parse(c.entry))
    else rt.eval(c.expression + c.entry)
  }

  /**
   * `calcular_resultado`: nothing to do without a pending expression or on "Error";
   * otherwise the result, or "Error" when evaluation raises, and the expression is cleared.
   */
  function Evaluate(c: Calc, rt: Runtime): Calc {
    if c.expression == "" || c.entry == Error then c
    else match Outcome(c, rt)
      case None => Calc(Error, "")
      case Some(r) => Calc(Format(r, rt.show), "")
  }

  /**
   * `presionar_operacion`: outside "Error", evaluate a pending expression first, then keep
   * the entry with the operator as the new expression and reset the entry to "0".
   */
  function OperatorKey(c: Calc, op: string, rt: Runtime): Calc {
    if c.entry == Error then c
    else
      var d := if c.expression != "" then Evaluate(c, rt) else c;
      Calc("0", d.entry + op)
  }

  /** The value `operacion_especial` computes for `tipo == kind`, or None when it raises. */
  function SpecialValue(kind: string, num: real, rt: Runtime): Option<real> {
    if kind == "sqrt" then (if num >= 0.0 then Some(rt.sqrt(num)) else None)
    else if kind == "sqr" then Some(num * num)
    else if kind == "inv" then (if num != 0.0 then Some(1.0 / num) else None)
    else None
  }

  /**
   * `operacion_especial`: outside "Error", replace the entry by the square root, square or
   * inverse of its value, or by "Error" when that raises; the expression is kept.
   */
  function SpecialKey(c: Calc, kind: string, rt: Runtime): Calc {
    if c.entry == Error then c
    else match rt.parse(c.entry)
      case None => Calc(Error, c.expression)
      case Some(num) =>
        match SpecialValue(kind, num, rt)
        case None => Calc(Error, c.expression)
        case Some(r) => Calc(Format(r, rt.show), c.expression)
  }

  // ---------------------------------------------------------------- properties of the keys

  /** The entry holds at most one decimal point. */
  predicate OnePoint(s: string) {
    multiset(s)['.'] <= 1
  }

  /** Pressing "." twice is pressing it once, and afterwards the entry has a point. */
  lemma PointKeyIdempotent(c: Calc)
    ensures PointKey(PointKey(c)) == PointKey(c)
    ensures '.' in PointKey(c).entry
    ensures PointKey(c).expression == c.expression
  {
    if '.' !in c.entry {
      assert (c.entry + ".")[|c.entry|] == '.';
    }
  }

  /** The editing keys never put a second decimal point in the entry. */
  lemma EditingKeepsOnePoint(c: Calc, digit: char, op: string, rt: Runtime)
    requires OnePoint(c.entry) && IsDigit(digit)
    ensures OnePoint(PointKey(c).entry)
    ensures OnePoint(DigitKey(c, [digit]).entry)
    ensures OnePoint(SignKey(c).entry)
    ensures OnePoint(BackspaceKey(c).entry)
    ensures OnePoint(OperatorKey(c, op, rt).entry)
    ensures OnePoint(Cleared.entry)
  {
    PointKeepsOnePoint(c.entry);
    DigitKeepsOnePoint(c.entry, digit);
    SignKeepsOnePoint(c);
    BackspaceKeepsOnePoint(c);
    assert OperatorKey(c, op, rt).entry in {"0", c.entry};
  }

  lemma PointKeepsOnePoint(e: string)
    requires OnePoint(e)
    ensures OnePoint(if '.' !in e then e + "." else e)
  {
    if '.' !in e {
      assert multiset(e + ".") == multiset(e) + multiset{'.'};
    }
  }

  lemma DigitKeepsOnePoint(e: string, digit: char)
    requires OnePoint(e) && IsDigit(digit)
    ensures OnePoint(e + [digit])
  {
    assert multiset(e + [digit]) == multiset(e) + multiset{digit};
  }

  lemma SignKeepsOnePoint(c: Calc)
    requires OnePoint(c.entry)
    ensures OnePoint(SignKey(c).entry)
  {
    var e := c.entry;
    if e != "0" && e != Error && e != "" {
      if e[0] == '-' {
        assert e == [e[0]] + e[1..];
        assert multiset(e) == multiset{'-'} + multiset(e[1..]);
      } else {
        assert multiset("-" + e) == multiset{'-'} + multiset(e);
      }
    }
  }

  lemma BackspaceKeepsOnePoint(c: Calc)
    requires OnePoint(c.entry)
    ensures OnePoint(BackspaceKey(c).entry)
  {
    var e := c.entry;
    if e != Error && |e| > 1 {
      assert e == e[..|e| - 1] + [e[|e| - 1]];
      assert multiset(e) == multiset(e[..|e| - 1]) + multiset{e[|e| - 1]};
    }
  }

  /**
   * The sign key undoes itself, except where its first press lands on a no-op entry ("0",
   * "Error") or the empty entry.
   */
  lemma SignKeyInvolution(c: Calc)
    requires c.entry !in {"0", Error, "", "-", "-0", "-Error"}
    requires !(|c.entry| >= 2 && c.entry[0] == '-' && c.entry[1] == '-')
    ensures SignKey(SignKey(c)) == c
  {
    var e := c.entry;
    assert "-" + "0" == "-0" && "-" + Error == "-Error" && "-" + "" == "-";
    if e[0] == '-' {
      assert e == "-" + e[1..];
    } else {
      assert ("-" + e)[0] == '-' && "0"[0] == '0' && Error[0] == 'E';
      assert ("-" + e)[1..] == e;
    }
  }

  /** The exceptions: "-0" turns into "0" and then stays, and "-" empties the entry for good. */
  lemma SignKeyStuck(e: string)
    ensures SignKey(SignKey(Calc("-0", e))) == Calc("0", e)
    ensures SignKey(SignKey(Calc("-", e))) == Calc("", e)
  {
    assert "-0"[1..] == "0";
    assert "-"[1..] == "";
  }

  /** Backspace removes a digit just typed onto a non-empty entry other than "0" and "Error". */
  lemma BackspaceUndoesDigit(c: Calc, digit: char)
    requires c.entry !in {"0", Error, ""} && IsDigit(digit)
    ensures BackspaceKey(DigitKey(c, [digit])) == c
  {
    var e := c.entry + [digit];
    assert e[|e| - 1] == digit;
    assert e != Error;
    assert e[..|c.entry|] == c.entry;
  }

  /** Backspace turns a one-character entry into "0" and is ignored on "Error". */
  lemma BackspaceShortEntry(c: Calc)
    requires |c.entry| <= 1 || c.entry == Error
    ensures BackspaceKey(c) == if c.entry == Error then c else Calc("0", c.expression)
  {
  }

  /** Pressing "=" twice is pressing it once, and an evaluation always clears the expression. */
  lemma EvaluateIdempotent(c: Calc, rt: Runtime)
    ensures Evaluate(Evaluate(c, rt), rt) == Evaluate(c, rt)
    ensures c.expression != "" && c.entry != Error ==> Evaluate(c, rt).expression == ""
  {
  }

  /** A failing evaluation shows "Error" and drops the expression; a clear leaves nothing to evaluate. */
  lemma EvaluateFailure(c: Calc, rt: Runtime)
    requires c.expression != "" && c.entry != Error && Outcome(c, rt).None?
    ensures Evaluate(c, rt) == Calc(Error, "")
    ensures Evaluate(Cleared, rt) == Cleared
  {
  }

  /** An integral result is shown as `str(int)`, which reads back as the same integer. */
  lemma IntegralResultReadsBack(c: Calc, rt: Runtime, n: int)
    requires c.expression != "" && c.entry != Error && Outcome(c, rt) == Some(n as real)
    ensures ParseInt(Evaluate(c, rt).entry) == Some(n)
    ensures Evaluate(c, rt).expression == ""
  {
    assert (n as real).Floor == n;
    IntToStringRoundTrip(n);
  }

  /**
   * Typing `a`, an operator and one digit, then "=", evaluates `a op digit`; after "%" it
   * multiplies the two operands and divides by 100.
   */
  lemma OperatorThenDigitThenEquals(a: string, op: string, digit: char, rt: Runtime)
    requires a != Error && |op| == 1
    ensures var c := DigitKey(OperatorKey(Calc(a, ""), op, rt), [digit]);
            c == Calc([digit], a + op)
            && Outcome(c, rt) == if op == "%" then Percent(rt.parse(a), rt.parse([digit]))
                                 else rt.eval(a + op + [digit])
  {
    var c := DigitKey(OperatorKey(Calc(a, ""), op, rt), [digit]);
    assert c.expression[..|c.expression| - 1] == a;
    assert c.expression[|c.expression| - 1] == op[0];
    assert op == [op[0]];
    assert c.expression + c.entry == a + op + [digit];
    if op != "%" {
      assert op[0] != '%';
    }
  }

  /** The special keys keep the expression, and each raising case shows "Error". */
  lemma SpecialKeyErrors(c: Calc, kind: string, rt: Runtime)
    requires c.entry != Error
    ensures SpecialKey(c, kind, rt).expression == c.expression
    ensures rt.parse(c.entry).None? ==> SpecialKey(c, kind, rt).entry == Error
    ensures rt.parse(c.entry).Some? && kind !in {"sqrt", "sqr", "inv"} ==> SpecialKey(c, kind, rt).entry == Error
    ensures rt.parse(c.entry).Some? && kind == "sqrt" && rt.parse(c.entry).value < 0.0 ==> SpecialKey(c, kind, rt).entry == Error
    ensures rt.parse(c.entry).Some? && kind == "inv" && rt.parse(c.entry).value == 0.0 ==> SpecialKey(c, kind, rt).entry == Error
  {
  }

  /** Squaring an integer entry shows the integer square. */
  lemma SquareOfInteger(c: Calc, rt: Runtime, n: int)
    requires c.entry != Error && rt.parse(c.entry) == Some(n as real)
    ensures SpecialKey(c, "sqr", rt) == Calc(IntToString(n * n), c.expression)
    ensures ParseInt(SpecialKey(c, "sqr", rt).entry) == Some(n * n)
  {
    assert (n as real) * (n as real) == (n * n) as real;
    assert ((n * n) as real).Floor == n * n;
    IntToStringRoundTrip(n * n);
  }

  // ---------------------------------------------------------------- key events

  /** Python's `key in '0123456789'`: a substring test, true for the empty string too. */
  predicate InDigitString(key: string) {
    Contains("0123456789", key)
  }

  /**
   * `presionar_tecla` as written: `char` is the event's character ("" for keys that type
   * none) and `keysym` its key name.
   */
  function KeyPress(c: Calc, ch: string, keysym: string, rt: Runtime): Calc {
    if InDigitString(ch) then DigitKey(c, ch)
    else KeyPressOther(c, ch, keysym, rt)
  }

  /** The branches of `presionar_tecla` after the digit test. */
  function KeyPressOther(c: Calc, ch: string, keysym: string, rt: Runtime): Calc {
    if ch in {"+", "-", "*", "/", "%"} then OperatorKey(c, ch, rt)
    else if ch == "." then PointKey(c)
    else if keysym == "Return" then Evaluate(c, rt)
    else if keysym == "BackSpace" then BackspaceKey(c)
    else if keysym == "Escape" then Cleared
    else c
  }

  /** `presionar_tecla` with the digit test meant: exactly one digit character. */
  function KeyPressFixed(c: Calc, ch: string, keysym: string, rt: Runtime): Calc {
    if |ch| == 1 && IsDigit(ch[0]) then DigitKey(c, ch)
    else KeyPressOther(c, ch, keysym, rt)
  }

  /**
   * As written, a key that types no character (Shift, an arrow) passes the digit test
   * and blanks an entry of "0" or "Error".
   */
  lemma NonCharacterKeyBlanksEntry(e: string, rt: Runtime)
    ensures KeyPress(Calc("0", e), "", "Shift_L", rt) == Calc("", e)
    ensures KeyPress(Calc(Error, e), "", "Shift_L", rt) == Calc("", e)
  {
    assert OccursAt("0123456789", "", 0);
  }

  /** With the fix, keys that type no character and are not Return, BackSpace or Escape change nothing. */
  lemma FixedIgnoresNonCharacterKeys(c: Calc, keysym: string, rt: Runtime)
    requires keysym !in {"Return", "BackSpace", "Escape"}
    ensures KeyPressFixed(c, "", keysym, rt) == c
  {
  }

  /** A one-character key passes the written digit test exactly when it is a digit. */
  lemma OneCharDigitTest(x: char)
    ensures InDigitString([x]) <==> IsDigit(x)
  {
    var s := "0123456789";
    if IsDigit(x) {
      var i := x as int - '0' as int;
      assert s[i] == x;
      assert OccursAt(s, [x], i);
    }
    if InDigitString([x]) {
      var i :| 0 <= i <= |s| && OccursAt(s, [x], i);
      assert s[i] == x;
    }
  }

  /** The fix changes nothing for keys that type exactly one character. */
  lemma FixedAgreesOnOneCharacter(c: Calc, x: char, keysym: string, rt: Runtime)
    ensures KeyPressFixed(c, [x], keysym, rt) == KeyPress(c, [x], keysym, rt)
  {
    OneCharDigitTest(x);
  }

  // ---------------------------------------------------------------- the window object

  /** `CalculadoraTkinter`: the two state strings and the text shown on the display. */
  class CalculatorApp {
    var entry: string
    var expression: string
    var display: string

    /** The display shows the entry. */
    ghost predicate Valid()
      reads this
    {
      display == entry
    }

    function State(): Calc
      reads this
    {
      Calc(entry, expression)
    }

    constructor ()
      ensures Valid() && State() == Cleared
    {
      expression := "";
      entry := "0";
      display := "0";
    }

    /** `actualizar_pantalla`. */
    method UpdateDisplay()
      modifies this
      ensures Valid() && State() == old(State())
    {
      display := entry;
    }

    method PressDigit(digit: string)
      requires Valid()
      modifies this
      ensures Valid() && State() == DigitKey(old(State()), digit)
    {
      if entry == "0" || entry == Error {
        entry := digit;
      } else {
        entry := entry + digit;
      }
      UpdateDisplay();
    }

    method PressPoint()
      requires Valid()
      modifies this
      ensures Valid() && State() == PointKey(old(State()))
    {
      if '.' !in entry {
        entry := entry + ".";
        UpdateDisplay();
      }
    }

    method CalculateResult(rt: Runtime)
      requires Valid()
      modifies this
      ensures Valid() && State() == Evaluate(old(State()), rt)
    {
      if expression == "" || entry == Error {
        return;
      }
      var outcome := Outcome(State(), rt);
      match outcome {
        case Some(r) =>
          entry := Format(r, rt.show);
          expression := "";
          UpdateDisplay();
        case None =>
          entry := Error;
          expression := "";
          UpdateDisplay();
      }
    }

    method PressOperator(op: string, rt: Runtime)
      requires Valid()
      modifies this
      ensures Valid() && State() == OperatorKey(old(State()), op, rt)
    {
      if entry != Error {
        if expression != "" {
          CalculateResult(rt);
        }
        expression := entry + op;
        entry := "0";
        UpdateDisplay();
      }
    }

    method SpecialOperation(kind: string, rt: Runtime)
      requires Valid()
      modifies this
      ensures Valid() && State() == SpecialKey(old(State()), kind, rt)
    {
      if entry == Error {
        return;
      }
      var num := rt.parse(entry);
      if num.None? {
        entry := Error;
        UpdateDisplay();
        return;
      }
      var result := SpecialValue(kind, num.value, rt);
      if result.None? {
        entry := Error;
      } else {
        entry := Format(result.value, rt.show);
      }
      UpdateDisplay();
    }

    method ChangeSign()
      requires Valid()
      modifies this
      ensures Valid() && State() == SignKey(old(State()))
    {
      if entry != "0" && entry != Error {
        if entry == "" {
          // `resultado_actual[0]` raises IndexError and the callback stops here.
          return;
        }
        if entry[0] == '-' {
          entry := entry[1..];
        } else {
          entry := "-" + entry;
        }
        UpdateDisplay();
      }
    }

    method Clear()
      modifies this
      ensures Valid() && State() == Cleared
    {
      expression := "";
      entry := "0";
      UpdateDisplay();
    }

    method DeleteLast()
      requires Valid()
      modifies this
      ensures Valid() && State() == BackspaceKey(old(State()))
    {
      if entry != Error {
        if |entry| > 1 {
          entry := entry[..|entry| - 1];
        } else {
          entry := "0";
        }
        UpdateDisplay();
      }
    }
  }
}
