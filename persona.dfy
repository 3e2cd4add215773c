/**
 * The person of `emcapsulacion.py` (`persona`): a private name with a getter only, and a
 * private age with a guarded setter, an adulthood test at 18 and a birthday.
 */
module PersonRecord {

  /** The age of majority `es_mayor_de_edad` tests. */
  const AdultAge: int := 18

  /** The age after `establecer_edad(value)`: replaced only by a positive value. */
  function AfterSetAge(age: int, value: int): int {
    if value > 0 then value else age
  }

  /** `es_mayor_de_edad`. */
  predicate IsAdult(age: int) {
    age >= AdultAge
  }

  /** The setter accepts exactly the positive ages, so a positive age stays positive. */
  lemma SetAgeGuard(age: int, value: int)
    ensures AfterSetAge(age, value) == value <==> value > 0 || value == age
    ensures age > 0 ==> AfterSetAge(age, value) > 0
  {
  }

  /**
   * A birthday never takes adulthood away, and the one at 17 grants it: after `n`
   * birthdays from age `a` the person is an adult exactly when `a + n >= 18`.
   */
  lemma {:induction false} BirthdaysToAdulthood(age: int, n: nat)
    ensures IsAdult(Birthdays(age, n)) <==> age + n >= AdultAge
    ensures IsAdult(age) ==> IsAdult(Birthdays(age, n))
    decreases n
  {
    if n > 0 {
      BirthdaysToAdulthood(age + 1, n - 1);
    }
  }

  /** The age after `n` calls of `cumplir_años`. */
  function Birthdays(age: int, n: nat): int
    decreases n
  {
    if n == 0 then age else Birthdays(age + 1, n - 1)
  }

  /** `persona`. */
  class Person {
    /** `__nombre`: there is no setter. */
    const name: string
    /** `__edad`. */
    var age: int

    /** `__init__`: the age is stored without the setter's check. */
    constructor (name: string, age: int)
      ensures this.name == name && this.age == age
    {
      this.name := name;
      this.age := age;
    }

    /** `obtener_nombre`. */
    method GetName() returns (r: string)
      ensures r == name
    {
      r := name;
    }

    /** `obtener_edad`. */
    method GetAge() returns (r: int)
      ensures r == age
    {
      r := age;
    }

    /** `establecer_edad`. */
    method SetAge(value: int)
      modifies this
      ensures age == AfterSetAge(old(age), value)
    {
      if value > 0 {
        age := value;
      }
    }

    /** `es_mayor_de_edad`. */
    method IsOfAge() returns (b: bool)
      ensures b <==> IsAdult(age)
    {
      b := age >= AdultAge;
    }

    /** `cumplir_años`: one year older; the name, a constant, stays. */
    method HaveBirthday()
      modifies this
      ensures age == Birthdays(old(age), 1)
    {
      age := age + 1;
    }
  }
}
