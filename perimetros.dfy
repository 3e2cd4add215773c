/**
 * The polymorphic perimeters of `polimorfismo.py`: `Figura.calcular_figura` and the four
 * overrides. The base class only prints a notice and so returns `None`. The triangle's
 * `** 0.5` is a parameter `root`; lemmas that need it to be a square root say so.
 */
module Perimeters {
  import opened Wrappers

  /** `3.1416`, the value of pi the circle uses. */
  const PiApprox: real := 3.1416

  datatype Shape =
    | Base
    | Square(side: real)
    | Triangle(height: real, base: real)
    | Rectangle(height: real, base: real)
    | Circle(radius: real)

  /** `calcular_figura`, dispatched on the class; the root of `base² + altura²` is `root`. */
  function Perimeter(f: Shape, root: real -> real): Option<real> {
    match f
    case Base => None
    case Square(s) => Some(4.0 * s)
    case Triangle(h, b) => Some(b + h + root(b * b + h * h))
    case Rectangle(h, b) => Some(2.0 * b + 2.0 * h)
    case Circle(r) => Some(PiApprox * 2.0 * r)
  }

  /** `root` returns the non-negative square root of `x`. */
  predicate IsRootOf(root: real -> real, x: real) {
    root(x) >= 0.0 && root(x) * root(x) == x
  }

  /**
   * Only the base class has no perimeter; a square is the rectangle with equal sides, and
   * the circle's perimeter is exactly 6.2832 times its radius.
   */
  lemma PerimeterCases(f: Shape, side: real, root: real -> real)
    ensures Perimeter(f, root).None? <==> f == Base
    ensures Perimeter(Square(side), root) == Perimeter(Rectangle(side, side), root)
    ensures Perimeter(Circle(side), root) == Some(6.2832 * side)
  {
  }

  /** Positive dimensions give a positive perimeter (for the triangle, with a true root). */
  lemma PositivePerimeter(f: Shape, root: real -> real)
    requires f.Square? ==> f.side > 0.0
    requires f.Triangle? || f.Rectangle? ==> f.height > 0.0 && f.base > 0.0
    requires f.Circle? ==> f.radius > 0.0
    requires f.Triangle? ==> IsRootOf(root, f.base * f.base + f.height * f.height)
    requires f != Base
    ensures Perimeter(f, root).Some? && Perimeter(f, root).value > 0.0
  {
  }

  /** Square, rectangle and circle scale linearly: `k` times the sides, `k` times the perimeter. */
  lemma ScalingPerimeter(f: Shape, k: real, root: real -> real)
    requires f.Square? || f.Rectangle? || f.Circle?
    ensures Perimeter(Scale(f, k), root).value == k * Perimeter(f, root).value
  {
  }

  /** Every dimension multiplied by `k`. */
  function Scale(f: Shape, k: real): Shape {
    match f
    case Base => Base
    case Square(s) => Square(k * s)
    case Triangle(h, b) => Triangle(k * h, k * b)
    case Rectangle(h, b) => Rectangle(k * h, k * b)
    case Circle(r) => Circle(k * r)
  }
}
