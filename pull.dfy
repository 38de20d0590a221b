/**
 * The getters `pullAngle`, `pullback` and `tension` of `Ball` (src/main.ts),
 * on the value of the held gesture. `Math.atan2` and `Math.sqrt` belong to the
 * host and are parameters here; what the model needs of `Math.sqrt` is stated
 * once, as `IsSquareRoot`.
 *
 * Non-negativity facts are written `!(e < 0.0)`: the nonlinear steps about
 * squares go through more reliably in that form than with `e >= 0.0`.
 */
module Pull {
  import opened Geometry
  import opened Gesture

  /** `Ball.pullbackMultiplier`, never reassigned. */
  const PullbackMultiplier: real := 0.5

  /** The guard shared by the three getters: no gesture, or `current.equals(start)`. */
  predicate Undrawn(g: Option<Gesture>)
  {
    g.None? || g.value.current == g.value.start
  }

  /** `Math.sqrt(dx ** 2 + dy ** 2)`. */
  function Length(dx: real, dy: real, sqrt: real -> real): real
  {
    sqrt(dx * dx + dy * dy)
  }

  /** `pullAngle`: `Math.atan2(dy, dx)` of the drag, or absent. */
  function PullAngle(g: Option<Gesture>, atan2: (real, real) -> real): (r: Option<real>)
    ensures r.None? <==> g.None? || g.value.current == g.value.start
  {
    if Undrawn(g) then None
    else Some(atan2(g.value.current.y - g.value.start.y, g.value.current.x - g.value.start.x))
  }

  /** `tension`: the length of the drag, or absent. */
  function Tension(g: Option<Gesture>, sqrt: real -> real): (r: Option<real>)
    ensures r.None? <==> g.None? || g.value.current == g.value.start
    ensures r.Some? && IsSquareRoot(sqrt) ==> !(r.value < 0.0)
  {
    if Undrawn(g) then None
    else Some(Length(g.value.current.x - g.value.start.x, g.value.current.y - g.value.start.y, sqrt))
  }

  /** `pullback`: `tension * pullbackMultiplier`, or absent. */
  function Pullback(g: Option<Gesture>, sqrt: real -> real): (r: Option<real>)
    ensures r.None? <==> Tension(g, sqrt).None?
    ensures r.Some? ==> r.value == Tension(g, sqrt).value / 2.0
  {
    if Undrawn(g) then None
    else Some(Tension(g, sqrt).value * PullbackMultiplier)
  }

  // ---------------------------------------------------------------------
  // The square root

  /** What the model asks of the host's `Math.sqrt`: the non-negative root of a non-negative number. */
  ghost predicate IsSquareRoot(sqrt: real -> real)
  {
    forall a: real :: !(a < 0.0) ==> !(sqrt(a) < 0.0) && sqrt(a) * sqrt(a) == a
  }

  ghost predicate PositiveOnPositives(sqrt: real -> real)
  {
    forall a: real :: a > 0.0 ==> sqrt(a) > 0.0
  }

  /** A square root in that sense is positive on positive numbers. */
  lemma SquareRootIsPositive(sqrt: real -> real)
    requires IsSquareRoot(sqrt)
    ensures PositiveOnPositives(sqrt)
  {
  }

  /** The length of a drag is non-negative and squares to `dx ** 2 + dy ** 2`. */
  lemma LengthSquared(dx: real, dy: real, sqrt: real -> real)
    requires IsSquareRoot(sqrt)
    ensures !(Length(dx, dy, sqrt) < 0.0)
    ensures Length(dx, dy, sqrt) * Length(dx, dy, sqrt) == dx * dx + dy * dy
  {
  }

  /** A drag with a non-zero component has a positive length. */
  lemma LengthPositive(dx: real, dy: real, sqrt: real -> real)
    requires dx != 0.0 || dy != 0.0
    requires IsSquareRoot(sqrt)
    ensures Length(dx, dy, sqrt) > 0.0
  {
    SquareRootIsPositive(sqrt);
    if dx != 0.0 {
      assert dx * dx > 0.0;
      assert !(dy * dy < 0.0);
    } else {
      assert dy * dy > 0.0;
      assert !(dx * dx < 0.0);
    }
    assert dx * dx + dy * dy > 0.0;
  }

  // ---------------------------------------------------------------------
  // Properties of the getters

  /**
   * The three getters are absent together, and exactly when there is no
   * gesture or its current point equals its start.
   */
  lemma GettersAbsentExactlyWhenUndrawn(g: Option<Gesture>, atan2: (real, real) -> real,
                                        sqrt: real -> real)
    ensures PullAngle(g, atan2).None? == Tension(g, sqrt).None? == Pullback(g, sqrt).None?
    ensures PullAngle(g, atan2).None? <==> g.None? || g.value.current == g.value.start
  {
  }

  /** When present, the pullback is half the tension. */
  lemma PullbackIsHalfTension(g: Option<Gesture>, sqrt: real -> real)
    requires Pullback(g, sqrt).Some?
    ensures Tension(g, sqrt).Some?
    ensures Pullback(g, sqrt).value == Tension(g, sqrt).value / 2.0
  {
  }

  /** When present, the angle is `atan2` of the drag's components, in `(dy, dx)` order. */
  lemma PullAngleOfDrag(g: Gesture, atan2: (real, real) -> real)
    requires g.current != g.start
    ensures PullAngle(Some(g), atan2)
         == Some(atan2(g.current.y - g.start.y, g.current.x - g.start.x))
  {
  }

  /** A present tension is the length of the drag: non-negative, with square `dx ** 2 + dy ** 2`. */
  lemma TensionSquared(g: Gesture, sqrt: real -> real)
    requires g.current != g.start
    requires IsSquareRoot(sqrt)
    ensures Tension(Some(g), sqrt).Some?
    ensures var t := Tension(Some(g), sqrt).value;
      !(t < 0.0) &&
      t * t == (g.current.x - g.start.x) * (g.current.x - g.start.x)
             + (g.current.y - g.start.y) * (g.current.y - g.start.y)
  {
  }

  /** A present tension is strictly positive, and so is the pullback. */
  lemma TensionPositive(g: Gesture, sqrt: real -> real)
    requires g.current != g.start
    requires IsSquareRoot(sqrt)
    ensures Tension(Some(g), sqrt).Some? && Tension(Some(g), sqrt).value > 0.0
    ensures Pullback(Some(g), sqrt).Some? && Pullback(Some(g), sqrt).value > 0.0
  {
    LengthPositive(g.current.x - g.start.x, g.current.y - g.start.y, sqrt);
  }

  /** A gesture that `touchstart` has just taken reports every getter as absent. */
  lemma FreshGestureIsAbsent(ballId: int, turn: int, touches: seq<TouchPoint>,
                             innerHeight: real, atan2: (real, real) -> real, sqrt: real -> real)
    ensures var g := StartNext(None, ballId, turn, touches, innerHeight);
      PullAngle(g, atan2).None? && Tension(g, sqrt).None? && Pullback(g, sqrt).None?
  {
  }
}
