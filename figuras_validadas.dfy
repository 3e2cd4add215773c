/**
 * The validated figures of `calculadora.py`: each constructor refuses non-positive
 * dimensions with a `ValueError`, and `calcular_area` computes the area. `math.pi` is a
 * parameter (any positive real); dimensions are Python numbers, modelled as reals.
 */
module ValidatedFigures {
  import opened Wrappers

  datatype Figure =
    | Square(side: real)
    | Triangle(base: real, height: real)
    | Rectangle(base: real, height: real)
    | Circle(radius: real)

  const SideMessage: string := "El lado debe ser mayor que cero"
  const BaseHeightMessage: string := "Base y altura deben ser mayores que cero"
  const RadiusMessage: string := "El radio debe ser mayor que cero"

  /** `Cuadrado(lado)`. */
  function MakeSquare(side: real): Result<Figure> {
    if side <= 0.0 then Err(SideMessage) else Ok(Square(side))
  }

  /** `Triangulo(base, altura)`. */
  function MakeTriangle(base: real, height: real): Result<Figure> {
    if base <= 0.0 || height <= 0.0 then Err(BaseHeightMessage) else Ok(Triangle(base, height))
  }

  /** `Rectangulo(base, altura)`. */
  function MakeRectangle(base: real, height: real): Result<Figure> {
    if base <= 0.0 || height <= 0.0 then Err(BaseHeightMessage) else Ok(Rectangle(base, height))
  }

  /** `Circulo(radio)`. */
  function MakeCircle(radius: real): Result<Figure> {
    if radius <= 0.0 then Err(RadiusMessage) else Ok(Circle(radius))
  }

  /** Every dimension of the figure is positive. */
  predicate Positive(f: Figure) {
    match f
    case Square(s) => s > 0.0
    case Triangle(b, h) => b > 0.0 && h > 0.0
    case Rectangle(b, h) => b > 0.0 && h > 0.0
    case Circle(r) => r > 0.0
  }

  /** `calcular_area`. */
  function Area(f: Figure, pi: real): real {
    match f
    case Square(s) => s * s
    case Triangle(b, h) => (b * h) / 2.0
    case Rectangle(b, h) => b * h
    case Circle(r) => pi * (r * r)
  }

  /**
   * The constructors build a figure exactly from positive dimensions, that figure, and
   * otherwise raise with their message.
   */
  lemma ConstructorsValidate(x: real, y: real)
    ensures MakeSquare(x).Ok? <==> x > 0.0
    ensures MakeSquare(x).Ok? ==> MakeSquare(x).value == Square(x) && Positive(MakeSquare(x).value)
    ensures MakeSquare(x).Err? ==> MakeSquare(x).message == SideMessage
    ensures MakeTriangle(x, y).Ok? <==> x > 0.0 && y > 0.0
    ensures MakeTriangle(x, y).Ok? ==> MakeTriangle(x, y).value == Triangle(x, y)
    ensures MakeTriangle(x, y).Err? ==> MakeTriangle(x, y).message == BaseHeightMessage
    ensures MakeRectangle(x, y).Ok? <==> x > 0.0 && y > 0.0
    ensures MakeRectangle(x, y).Ok? ==> MakeRectangle(x, y).value == Rectangle(x, y)
    ensures MakeRectangle(x, y).Err? ==> MakeRectangle(x, y).message == BaseHeightMessage
    ensures MakeCircle(x).Ok? <==> x > 0.0
    ensures MakeCircle(x).Ok? ==> MakeCircle(x).value == Circle(x)
    ensures MakeCircle(x).Err? ==> MakeCircle(x).message == RadiusMessage
  {
  }

  /** A figure a constructor accepted has a positive area. */
  lemma PositiveArea(f: Figure, pi: real)
    requires Positive(f) && pi > 0.0
    ensures Area(f, pi) > 0.0
  {
    // dividing the area by a positive dimension gives back a positive factor
    match f
    case Square(s) =>
      assert Area(f, pi) / s == s;
    case Triangle(b, h) =>
      assert (2.0 * Area(f, pi)) / b == h;
    case Rectangle(b, h) =>
      assert Area(f, pi) / b == h;
    case Circle(r) =>
      assert Area(f, pi) / pi / r == r;
  }

  /** With the same base and height, the rectangle's area is twice the triangle's. */
  lemma RectangleIsTwoTriangles(base: real, height: real, pi: real)
    ensures Area(Rectangle(base, height), pi) == 2.0 * Area(Triangle(base, height), pi)
  {
  }

  /** A square is the rectangle with equal sides, and its area grows with its side. */
  lemma SquareIsRectangle(side: real, larger: real, pi: real)
    requires 0.0 < side < larger
    ensures Area(Square(side), pi) == Area(Rectangle(side, side), pi)
    ensures Area(Square(side), pi) < Area(Square(larger), pi)
  {
    assert side * side < side * larger < larger * larger;
  }
}
