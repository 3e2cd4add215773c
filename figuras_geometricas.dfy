/**
 * The figures of `practica02.py` (`FiguraGeometrica` and its four classes): area,
 * perimeter and a one-line description. `math.pi` is a parameter, and so is Python's
 * `str` of a number, which the descriptions print.
 */
module GeometricFigures {

  datatype Figure =
    | Circle(radius: real)
    | Square(side: real)
    | Rectangle(base: real, height: real)
    | Triangle(side1: real, side2: real, side3: real, base: real, height: real)

  /** `area`. */
  function Area(f: Figure, pi: real): real {
    match f
    case Circle(r) => pi * (r * r)
    case Square(s) => s * s
    case Rectangle(b, h) => b * h
    case Triangle(_, _, _, b, h) => (b * h) / 2.0
  }

  /** `perimetro`. */
  function Perimeter(f: Figure, pi: real): real {
    match f
    case Circle(r) => 2.0 * pi * r
    case Square(s) => 4.0 * s
    case Rectangle(b, h) => 2.0 * (b + h)
    case Triangle(a, b, c, _, _) => a + b + c
  }

  /** `descripcion`, with `show` for `str` of a number: the figure's name, then its measures. */
  function Description(f: Figure, show: real -> string): string {
    Name(f) + Details(f, show)
  }

  /** The name each description starts with. */
  function Name(f: Figure): string {
    match f
    case Circle(_) => "Círculo"
    case Square(_) => "Cuadrado"
    case Rectangle(_, _) => "Rectángulo"
    case Triangle(_, _, _, _, _) => "Triángulo"
  }

  /** What each description prints after the name. */
  function Details(f: Figure, show: real -> string): string {
    match f
    case Circle(r) => " de radio " + show(r)
    case Square(s) => " de lado " + show(s)
    case Rectangle(b, h) => " de base " + show(b) + " y altura " + show(h)
    case Triangle(a, b, c, base, h) =>
      " con lados " + show(a) + ", " + show(b) + ", " + show(c)
      + ", base " + show(base) + ", altura " + show(h)
  }

  /** A square of side `l` has the area and the perimeter of the `l` by `l` rectangle. */
  lemma SquareIsRectangle(side: real, pi: real)
    ensures Area(Square(side), pi) == Area(Rectangle(side, side), pi)
    ensures Perimeter(Square(side), pi) == Perimeter(Rectangle(side, side), pi)
  {
  }

  /**
   * A triangle's perimeter depends on its three sides only, its area on its base and
   * height only.
   */
  lemma TriangleMeasures(a: real, b: real, c: real, base: real, height: real, base2: real, height2: real, pi: real)
    ensures Perimeter(Triangle(a, b, c, base, height), pi) == Perimeter(Triangle(a, b, c, base2, height2), pi)
    ensures Area(Triangle(a, b, c, base, height), pi) == Area(Triangle(0.0, 0.0, 0.0, base, height), pi)
  {
  }

  /** For any value of pi, a circle's perimeter times its radius is twice its area. */
  lemma CirclePerimeterAndArea(r: real, pi: real)
    ensures Perimeter(Circle(r), pi) * r == 2.0 * Area(Circle(r), pi)
  {
  }

  /** Each description opens with the figure's name followed by a space. */
  lemma DescriptionNamesFigure(f: Figure, show: real -> string)
    ensures |Name(f)| < |Description(f, show)|
    ensures Description(f, show)[..|Name(f)| + 1] == Name(f) + " "
  {
    var d := Description(f, show);
    assert Details(f, show)[0] == ' ';
    assert d[..|Name(f)| + 1] == Name(f) + [Details(f, show)[0]];
  }

  /** Figures of different kinds never share a description. */
  lemma DescriptionsTellKindsApart(f: Figure, g: Figure, show: real -> string)
    requires Name(f) != Name(g)
    ensures Description(f, show) != Description(g, show)
  {
    // the names differ in their second letter: í, u, e, r
    var d, e := Description(f, show), Description(g, show);
    assert d[1] == Name(f)[1] && e[1] == Name(g)[1];
    assert Name(f)[1] != Name(g)[1] by {
      match f
      case Circle(_) =>
      case Square(_) =>
      case Rectangle(_, _) =>
      case Triangle(_, _, _, _, _) =>
    }
  }
}
