/**
 * The student record of `claseestudiante.py` (`estudiante`): fixed name, age and career, a
 * list of grades that only grows, their average, and the pass mark 11. Grades are Python
 * numbers, modelled as reals.
 */
module StudentRecord {

  /** The pass mark of `es_aprobado`. */
  const PassMark: real := 11.0

  /** Python's `sum(grades)`. */
  function Sum(grades: seq<real>): real
    decreases |grades|
  {
    if grades == [] then 0.0 else Sum(grades[..|grades| - 1]) + grades[|grades| - 1]
  }

  /** `promedio_notas`: 0 for no grades, otherwise their sum over their count. */
  function Average(grades: seq<real>): real {
    if |grades| == 0 then 0.0 else Sum(grades) / (|grades| as real)
  }

  /** `es_aprobado`. */
  predicate Passes(grades: seq<real>) {
    Average(grades) >= PassMark
  }

  /** A student without grades does not pass. */
  lemma NoGradesFails()
    ensures Average([]) == 0.0 && !Passes([])
  {
  }

  /** When every grade is at least `low`, so is the sum of `n` of them at least `n * low`. */
  lemma {:induction false} SumAtLeast(grades: seq<real>, low: real)
    requires forall i :: 0 <= i < |grades| ==> grades[i] >= low
    ensures Sum(grades) >= (|grades| as real) * low
    decreases |grades|
  {
    if grades != [] {
      SumAtLeast(grades[..|grades| - 1], low);
    }
  }

  /** When every grade is at most `high`, so is the sum of `n` of them at most `n * high`. */
  lemma {:induction false} SumAtMost(grades: seq<real>, high: real)
    requires forall i :: 0 <= i < |grades| ==> grades[i] <= high
    ensures Sum(grades) <= (|grades| as real) * high
    decreases |grades|
  {
    if grades != [] {
      SumAtMost(grades[..|grades| - 1], high);
    }
  }

  /** Dividing by a positive count keeps the comparison with a bound. */
  lemma DivideByCount(sum: real, n: real, bound: real)
    requires n > 0.0
    ensures sum >= n * bound ==> sum / n >= bound
    ensures sum <= n * bound ==> sum / n <= bound
    ensures sum < n * bound ==> sum / n < bound
  {
  }

  /** The average of some grades lies between any lower and upper bound of them. */
  lemma AverageBetween(grades: seq<real>, low: real, high: real)
    requires |grades| > 0
    requires forall i :: 0 <= i < |grades| ==> low <= grades[i] <= high
    ensures low <= Average(grades) <= high
  {
    SumAtLeast(grades, low);
    SumAtMost(grades, high);
    DivideByCount(Sum(grades), |grades| as real, low);
    DivideByCount(Sum(grades), |grades| as real, high);
  }

  /** A student whose every grade reaches the mark passes; one below it on every grade fails. */
  lemma PassesByGrades(grades: seq<real>)
    requires |grades| > 0
    ensures (forall i :: 0 <= i < |grades| ==> grades[i] >= PassMark) ==> Passes(grades)
    ensures (forall i :: 0 <= i < |grades| ==> grades[i] < PassMark) ==> !Passes(grades)
  {
    var n := |grades| as real;
    DivideByCount(Sum(grades), n, PassMark);
    if forall i :: 0 <= i < |grades| ==> grades[i] >= PassMark {
      SumAtLeast(grades, PassMark);
    }
    if forall i :: 0 <= i < |grades| ==> grades[i] < PassMark {
      StrictSumBelow(grades, PassMark);
    }
  }

  /** Grades all below `high` sum to less than `n * high`. */
  lemma {:induction false} StrictSumBelow(grades: seq<real>, high: real)
    requires |grades| > 0
    requires forall i :: 0 <= i < |grades| ==> grades[i] < high
    ensures Sum(grades) < (|grades| as real) * high
    decreases |grades|
  {
    if |grades| > 1 {
      StrictSumBelow(grades[..|grades| - 1], high);
    }
  }

  /** Adding a grade at the mark to a passing record keeps it passing. */
  lemma PassingGradeKeepsPassing(grades: seq<real>, grade: real)
    requires |grades| > 0 && Passes(grades) && grade >= PassMark
    ensures Passes(grades + [grade])
  {
    var n := |grades| as real;
    var more := grades + [grade];
    assert more[..|more| - 1] == grades;
    assert Sum(more) == Sum(grades) + grade;
    DivideByCount(Sum(grades), n, PassMark);
    assert Sum(grades) >= n * PassMark;
    DivideByCount(Sum(more), n + 1.0, PassMark);
  }

  /** `estudiante`. */
  class Student {
    const name: string
    const age: int
    const career: string
    /** `notas`. */
    var grades: seq<real>

    /** `__init__`: the given name, age and career, and no grades. */
    constructor (name: string, age: int, career: string)
      ensures this.name == name && this.age == age && this.career == career && grades == []
    {
      this.name := name;
      this.age := age;
      this.career := career;
      grades := [];
    }

    /** `agregar_notas`: one more grade at the end; the earlier ones stay as they were. */
    method AddGrade(grade: real)
      modifies this
      ensures grades == old(grades) + [grade]
    {
      grades := grades + [grade];
    }

    /** `promedio_notas`. */
    method GradeAverage() returns (r: real)
      ensures r == Average(grades)
    {
      if |grades| == 0 {
        return 0.0;
      }
      r := Sum(grades) / (|grades| as real);
    }

    /** `es_aprobado`. */
    method IsPassing() returns (b: bool)
      ensures b <==> Passes(grades)
    {
      var average := GradeAverage();
      b := average >= PassMark;
    }
  }
}
