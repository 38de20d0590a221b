/**
 * `Ball.update` of src/main.ts: while the ball flies, each velocity component
 * decays by the factor `1 - friction` and snaps to 0 inside the dead zone
 * `(-0.01, 0.01)`. Floating point is modelled by reals.
 */
module Physics {

  /** The module constant `friction`. */
  const Friction: real := 0.03

  /** The literal bound of the dead-zone test. */
  const DeadZone: real := 0.01

  /** The least amount by which a tick that does not stop a component shrinks it. */
  const MinLoss: real := Friction * DeadZone

  function Abs(v: real): real
  {
    if v < 0.0 then -v else v
  }

  /**
   * One tick of friction on a velocity component: `v *= 1 - friction`, then
   * 0 if the result lies strictly between -0.01 and 0.01.
   */
  function Decay(v: real): (r: real)
    ensures Abs(r) <= Abs(v)
    ensures r == 0.0 || (r > 0.0 <==> v > 0.0)
    ensures r == 0.0 || Abs(r) >= DeadZone
    ensures r == 0.0 <==> Abs(v) * (1.0 - Friction) < DeadZone
    ensures v == 0.0 ==> r == 0.0
  {
    var w := v * (1.0 - Friction);
    if w < 0.01 && w > -0.01 then 0.0 else w
  }

  /** A tick that leaves a component moving removes at least `MinLoss` from its magnitude. */
  lemma DecayLoses(v: real)
    requires Decay(v) != 0.0
    ensures Abs(Decay(v)) <= Abs(v) - MinLoss
  {
  }

  /** `n` ticks of friction; the magnitude never grows. */
  function DecayN(v: real, n: nat): (r: real)
    decreases n
    ensures Abs(r) <= Abs(v)
  {
    if n == 0 then v else DecayN(Decay(v), n - 1)
  }

  lemma {:induction false} DecayNSucc(v: real, n: nat)
    decreases n
    ensures DecayN(v, n + 1) == Decay(DecayN(v, n))
  {
    if n > 0 {
      DecayNSucc(Decay(v), n - 1);
    }
  }

  /** Over any number of ticks the magnitude never grows and the sign never flips. */
  lemma {:induction false} DecayNShrinks(v: real, n: nat)
    decreases n
    ensures Abs(DecayN(v, n)) <= Abs(v)
    ensures DecayN(v, n) == 0.0 || (DecayN(v, n) > 0.0 <==> v > 0.0)
  {
    if n > 0 {
      DecayNShrinks(Decay(v), n - 1);
    }
  }

  /** Once a component has stopped it stays stopped. */
  lemma {:induction false} RestIsFinal(v: real, m: nat, n: nat)
    requires m <= n && DecayN(v, m) == 0.0
    ensures DecayN(v, n) == 0.0
  {
    if m < n {
      RestIsFinal(v, m, n - 1);
      DecayNSucc(v, n - 1);
    }
  }

  /** A component of magnitude at most `n * MinLoss` has stopped after `n` ticks. */
  lemma {:induction false} RestWithin(v: real, n: nat)
    requires Abs(v) <= (n as real) * MinLoss
    ensures DecayN(v, n) == 0.0
    decreases n
  {
    if n > 0 {
      if Decay(v) != 0.0 {
        DecayLoses(v);
      }
      RestWithin(Decay(v), n - 1);
    }
  }

  /** A number of ticks after which a component is surely 0. */
  function RestBound(v: real): (n: nat)
    ensures Abs(v) <= (n as real) * MinLoss
  {
    (Abs(v) / MinLoss).Floor + 1
  }

  /** The termination the dead zone guarantees: every component reaches exactly 0. */
  lemma ComesToRest(v: real)
    ensures forall n: nat :: n >= RestBound(v) ==> DecayN(v, n) == 0.0
  {
    RestWithin(v, RestBound(v));
    forall n: nat | n >= RestBound(v)
      ensures DecayN(v, n) == 0.0
    {
      RestIsFinal(v, RestBound(v), n);
    }
  }

  // ---------------------------------------------------------------------
  // The ball's motion state as `update` sees it.

  /** `Ball.state`. */
  datatype State = Pull | Fly

  /** The part of a ball that `update` reads and writes: its state and velocity. */
  datatype Motion = Motion(state: State, vx: real, vy: real)

  /** `update`: decay both components when flying, otherwise (re)enter `"pull"`. */
  function Tick(m: Motion): (r: Motion)
    ensures r.state == m.state
    ensures m.state == Pull ==> r == m
    ensures Abs(r.vx) <= Abs(m.vx) && Abs(r.vy) <= Abs(m.vy)
  {
    if m.state == Fly then Motion(Fly, Decay(m.vx), Decay(m.vy))
    else assert m.state.Pull?; Motion(Pull, m.vx, m.vy)
  }

  /** `n` calls of `update`: the state is kept and no speed component grows. */
  function TickN(m: Motion, n: nat): (r: Motion)
    decreases n
    ensures r.state == m.state
    ensures Abs(r.vx) <= Abs(m.vx) && Abs(r.vy) <= Abs(m.vy)
  {
    if n == 0 then m else TickN(Tick(m), n - 1)
  }

  /** Without a launch, a pulling ball is a fixed point of `update`: its velocity is left as it is. */
  lemma PullIsFixed(vx: real, vy: real, n: nat)
    ensures TickN(Motion(Pull, vx, vy), n) == Motion(Pull, vx, vy)
  {
  }

  /** Flying for `n` ticks decays each component independently. */
  lemma {:induction false} FlyTicks(vx: real, vy: real, n: nat)
    decreases n
    ensures TickN(Motion(Fly, vx, vy), n) == Motion(Fly, DecayN(vx, n), DecayN(vy, n))
  {
    if n > 0 {
      FlyTicks(Decay(vx), Decay(vy), n - 1);
    }
  }

  /**
   * A flying ball's velocity becomes exactly (0, 0) after finitely many
   * updates, and stays there; its state stays `"fly"`.
   */
  lemma FlightComesToRest(vx: real, vy: real)
    ensures var n := if RestBound(vx) < RestBound(vy) then RestBound(vy) else RestBound(vx);
      forall k: nat :: k >= n ==> TickN(Motion(Fly, vx, vy), k) == Motion(Fly, 0.0, 0.0)
  {
    ComesToRest(vx);
    ComesToRest(vy);
    forall k: nat
      ensures k >= (if RestBound(vx) < RestBound(vy) then RestBound(vy) else RestBound(vx)) ==>
              TickN(Motion(Fly, vx, vy), k) == Motion(Fly, 0.0, 0.0)
    {
      FlyTicks(vx, vy, k);
    }
  }
}
