/**
 * The two-operand calculator of `calculabasic.py` (`calculadorabasica`): two operands with
 * getters and setters, and the four operations, division answering an error message when
 * the divisor is zero. Operands are Python numbers, modelled as reals.
 */
module BasicCalculator {
  import opened Wrappers

  /** The string `division` returns instead of a quotient. */
  const DivisionByZero: string := "error:division entre cero"

  /** `division` on two operands: the quotient, or the message when the divisor is zero. */
  function Divide(a: real, b: real): Result<real> {
    if b != 0.0 then Ok(a / b) else Err(DivisionByZero)
  }

  /**
   * Division fails exactly on a zero divisor, and a quotient multiplied back by the divisor
   * gives the dividend.
   */
  lemma DivideMeaning(a: real, b: real)
    ensures Divide(a, b).Err? <==> b == 0.0
    ensures Divide(a, b).Err? ==> Divide(a, b).message == DivisionByZero
    ensures Divide(a, b).Ok? ==> Divide(a, b).value * b == a
  {
  }

  /** `calculadorabasica`. */
  class Calculator {
    /** `__numero1`. */
    var first: real
    /** `__numero2`. */
    var second: real

    constructor (first: real, second: real)
      ensures this.first == first && this.second == second
    {
      this.first := first;
      this.second := second;
    }

    /** `obtener_numero1`. */
    method GetFirst() returns (r: real)
      ensures r == first
    {
      r := first;
    }

    /** `obtener_numero2`. */
    method GetSecond() returns (r: real)
      ensures r == second
    {
      r := second;
    }

    /** `establecer_numero1`: the other operand is kept. */
    method SetFirst(value: real)
      modifies this
      ensures first == value && second == old(second)
    {
      first := value;
    }

    /** `establecer_numero2`: the other operand is kept. */
    method SetSecond(value: real)
      modifies this
      ensures second == value && first == old(first)
    {
      second := value;
    }

    /** `suma`: subtracting either operand gives the other back. */
    method Add() returns (r: real)
      ensures r - second == first && r - first == second
    {
      r := first + second;
    }

    /** `resta`: adding the second operand back gives the first. */
    method Subtract() returns (r: real)
      ensures r + second == first
    {
      r := first - second;
    }

    /** `multiplicacion`: dividing by a non-zero operand gives the other back. */
    method Multiply() returns (r: real)
      ensures second != 0.0 ==> r / second == first
      ensures first != 0.0 ==> r / first == second
      ensures r == 0.0 <==> first == 0.0 || second == 0.0
    {
      r := first * second;
    }

    /** `division`. */
    method Division() returns (r: Result<real>)
      ensures r == Divide(first, second)
    {
      if second != 0.0 {
        r := Ok(first / second);
      } else {
        r := Err(DivisionByZero);
      }
    }
  }
}
