/**
 * The mutable 2-D point of the game (`Point` in src/utils.ts, repeated
 * unchanged in src/main.ts). Coordinates are reals: the model assumes no NaN,
 * which is what makes `Equals` reflexive.
 */
module Geometry {

  /** The structural `{ x, y }` shape that the object overloads accept. */
  datatype XY = XY(x: real, y: real)

  class Point {
    var x: real
    var y: real

    /** The coordinates as a value. */
    function Coords(): XY
      reads this
    {
      XY(x, y)
    }

    /** `new Point(x, y)`: the overload taking two numbers. */
    constructor (x0: real, y0: real)
      ensures Coords() == XY(x0, y0)
    {
      x, y := x0, y0;
    }

    /** `new Point({ x, y })`: the overload taking an object with `x` and `y`. */
    constructor FromXY(p: XY)
      ensures Coords() == p
    {
      x, y := p.x, p.y;
    }

    /** `set(x, y)`: overwrite both coordinates in place. */
    method Set(x0: real, y0: real)
      modifies this
      ensures Coords() == XY(x0, y0)
    {
      x, y := x0, y0;
    }

    /** `set({ x, y })` with an object literal. */
    method SetXY(p: XY)
      modifies this
      ensures Coords() == p
    {
      x, y := p.x, p.y;
    }

    /**
     * `set(q)` where `q` is itself a `Point` (the object overload accepts any
     * value with `x` and `y`). `q` may be this very point.
     */
    method SetFrom(q: Point)
      modifies this
      ensures Equals(q)
      ensures Coords() == old(q.Coords())
      ensures q.Coords() == old(q.Coords())
    {
      x, y := q.x, q.y;
    }

    /** `array()`: the coordinates as the pair `[x, y]`. */
    function Array(): (r: seq<real>)
      reads this
      ensures |r| == 2 && r[0] == x && r[1] == y
    {
      [x, y]
    }

    /** `equals(q)`: both coordinates match. */
    function Equals(q: Point): (r: bool)
      reads this, q
      ensures r <==> Coords() == q.Coords()
    {
      q.x == x && q.y == y
    }
  }

  /** Over reals (no NaN) every point equals itself. */
  lemma EqualsReflexive(p: Point)
    ensures p.Equals(p)
  {
  }

  lemma EqualsSymmetric(p: Point, q: Point)
    ensures p.Equals(q) == q.Equals(p)
  {
  }

  lemma EqualsTransitive(p: Point, q: Point, s: Point)
    requires p.Equals(q) && q.Equals(s)
    ensures p.Equals(s)
  {
  }

  /** Both constructor overloads build the same point from the same numbers. */
  method OverloadsAgree(a: real, b: real) returns (same: bool)
    ensures same
  {
    var p := new Point(a, b);
    var q := new Point.FromXY(XY(a, b));
    same := p.Equals(q);
  }
}
