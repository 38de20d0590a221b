# Golf ball: pull gesture, friction and `Point`, in Dafny

This project models the part of the slingshot mini-golf game (TypeScript,
`src/main.ts` and `src/utils.ts`) that holds decision logic:

- **`Point`** (`src/utils.ts`, repeated in `src/main.ts`). A mutable 2-D point
  with two constructor overloads, an in-place `set` (both overloads), `array`
  and `equals`. It is the class `Geometry.Point`, and `Geometry.XY` is the
  `{ x, y }` object shape that the overloads accept.
- **The pull gesture of a `Ball`**. The decision logic of the three touch
  handlers (`touchstart`, `touchmove`, `touchend`) and the static
  `transformPoint` is written as pure transitions over the held gesture in
  module `Gesture`. The getters `pullAngle`, `tension` and `pullback` are in
  module `Pull`. An event is the global `turn`, the event's `touches` list (a
  sequence of `(identifier, clientX, clientY)`) and `window.innerHeight`.
- **The friction step of `Ball.update`** (module `Physics`). While flying,
  each velocity component is multiplied by `1 - friction` and snapped to 0
  when strictly inside `(-0.01, 0.01)`. In any other state, `update` sets the
  state to `"pull"`.
- **The `Ball` object itself** (module `Balls`). A class with the ball's
  position, its velocity `Point`, its state and its held touch. The touch's
  `start` and `current` are `Point` objects, and `touchmove` moves `current`
  in place.
  - `TouchStart`, `TouchMove` and `TouchEnd` are proved to act on the touch
    exactly as `StartNext`, `MoveNext` and `EndNext` do.
  - `Update` is proved to act on `(state, v.x, v.y)` exactly as
    `Physics.Tick`.
  - The proved properties of those functions therefore carry over to the
    object.

Numbers are `real`, so there are no NaNs, no infinities and no rounding.
`Math.atan2` and `Math.sqrt` are host functions; they are parameters of the
getters. The only property assumed of `sqrt` is `Pull.IsSquareRoot`: it
returns the non-negative root of a non-negative argument.

Behaviour of the code worth noting:

- A flying ball whose velocity has reached (0, 0) stays in `"fly"`. There is
  no `Fly → Pull` transition on rest (`Physics.FlightComesToRest`).
- In `"pull"`, `update` does not force the velocity to zero. It only
  (re)assigns the state (`Physics.PullIsFixed`).
- `touchend` does not look at the turn.
- `touchmove` drops the gesture when the turn has moved on.
- The `Ball` class never launches (there is no `Pull → Fly` assignment in it)
  and never switches the turn. Both occur only in the dead `ball` object
  literal (src/main.ts:59-114). Collision and hole capture appear nowhere in
  the code. The model has none of them.

## Model

| member | source | states |
|---|---|---|
| Geometry.Point.constructor | src/utils.ts:10-13 | `new Point(x, y)` has coordinates `(x, y)` |
| Geometry.Point.FromXY | src/utils.ts:7-9 | `new Point({ x, y })` has coordinates `(x, y)` |
| Geometry.OverloadsAgree | src/utils.ts:6-14 | both constructor overloads build points that are `equals` for the same numbers |
| Geometry.Point.Set | src/utils.ts:22-25 | `set(x, y)` leaves the point at exactly `(x, y)` |
| Geometry.Point.SetXY | src/utils.ts:18-21 | `set({ x, y })` leaves the point at exactly `(x, y)` |
| Geometry.Point.SetFrom | src/utils.ts:18-21 | after `p.set(q)` with a point `q`, `p.equals(q)` holds, `p` has `q`'s old coordinates and `q` is unchanged, even when `q` is `p` |
| Geometry.Point.Array | src/utils.ts:28-30 | `array()` is the pair `[x, y]` in that order; as a function it cannot change the point |
| Geometry.Point.Equals | src/utils.ts:32-34 | `equals` holds exactly when both coordinates agree |
| Geometry.EqualsReflexive | src/utils.ts:32-34 | every point equals itself (true over reals, false for NaN in the source) |
| Geometry.EqualsSymmetric | src/utils.ts:32-34 | `p.equals(q)` and `q.equals(p)` agree |
| Geometry.EqualsTransitive | src/utils.ts:32-34 | `equals` is transitive |
| Gesture.TransformPoint | src/main.ts:140-142 | `transformPoint(y)` reflects `y` about the window's horizontal mid-line `innerHeight / 2` |
| Gesture.TransformPointInvolutive | src/main.ts:140-142 | applying `transformPoint` twice with the same `innerHeight` gives the original value |
| Gesture.GamePoint | src/main.ts:158-159 | a touch's game point keeps `clientX`, and its y maps back to `clientY` under `transformPoint` |
| Gesture.FindTouch | src/main.ts:171 | `find` by identifier: absent exactly when no touch has the identifier; otherwise the index is in range, has the identifier and no earlier touch has it |
| Gesture.StartNext | src/main.ts:150-160 | `touchstart` never replaces a held gesture; a gesture it takes belongs to the ball whose turn it is, needs a touch down, follows `touches[0].identifier` and starts with `current == start` |
| Gesture.MoveNext | src/main.ts:165-177 | `touchmove` never creates a gesture; a gesture it keeps belongs to the ball whose turn it is and keeps its `id` and `start`; it changes a kept gesture only when a touch with that identifier is down |
| Gesture.EndNext | src/main.ts:180-184 | `touchend` either keeps the gesture or drops it, and drops a held one exactly when no remaining touch has its identifier |
| Gesture.StartRule | src/main.ts:150-160 | a touchstart changes the gesture exactly when the ball holds none, `turn === id` and at least one touch is down; then `id` is `touches[0].identifier` and `start` and `current` are both `(clientX, transformPoint(clientY))` of `touches[0]` |
| Gesture.StartIdempotent | src/main.ts:150-160 | a repeated touchstart is refused |
| Gesture.StartIsUndrawn | src/main.ts:156-160 | a gesture just taken has `current == start` |
| Gesture.MoveRule | src/main.ts:165-177 | with no gesture a touchmove changes nothing; out of turn it clears the gesture; in turn, if a touch with the held identifier exists, only `current` moves (to that touch's game point) and `id` and `start` are kept; if none exists, nothing changes |
| Gesture.MoveFollowsFirst | src/main.ts:171-176 | when several touches share the identifier, `current` follows the first of them |
| Gesture.MoveIdempotent | src/main.ts:165-177 | replaying a touchmove changes nothing more |
| Gesture.EndRule | src/main.ts:180-184 | a touchend clears the gesture exactly when no remaining touch has its identifier, and otherwise leaves it unchanged |
| Gesture.EndIdempotent | src/main.ts:180-184 | replaying a touchend changes nothing more |
| Gesture.MoveThenEndKeeps | src/main.ts:165-184 | a touchmove that found its touch is not undone by a touchend carrying the same touches |
| Gesture.StartKeepsOwnership | src/main.ts:150-151 | only the ball whose id is the turn can hold a gesture, and touchstart keeps that |
| Gesture.MoveRestoresOwnership | src/main.ts:166-170 | after any touchmove, a ball holding a gesture is the ball whose turn it is |
| Gesture.EndKeepsOwnership | src/main.ts:180-184 | touchend never adds a gesture, so it keeps the ownership rule |
| Gesture.AtMostOneOwner | src/main.ts:150-151 | among balls with distinct ids that keep the ownership rule, at most one holds a gesture |
| Pull.GettersAbsentExactlyWhenUndrawn | src/main.ts:187-206 | `pullAngle`, `tension` and `pullback` are absent together, and absent exactly when there is no touch or `current` equals `start` |
| Pull.PullAngle | src/main.ts:187-193 | `pullAngle` is absent exactly when there is no touch or `current` equals `start` |
| Pull.Tension | src/main.ts:200-206 | `tension` is absent exactly when there is no touch or `current` equals `start`, and a present one is non-negative |
| Pull.Pullback | src/main.ts:195-198 | `pullback` is absent exactly when `tension` is, and a present one is `tension * 0.5` |
| Pull.PullbackIsHalfTension | src/main.ts:195-198 | a present `pullback` is `tension * 0.5` |
| Pull.PullAngleOfDrag | src/main.ts:187-193 | a present `pullAngle` is `atan2(dy, dx)` of the drag, with the arguments in `(dy, dx)` order |
| Pull.TensionSquared | src/main.ts:200-206 | a present `tension` is non-negative and its square is `dx ** 2 + dy ** 2` |
| Pull.TensionPositive | src/main.ts:195-206 | when `current != start`, `tension` and `pullback` are present and strictly positive |
| Pull.LengthSquared | src/main.ts:202-205 | the length `sqrt(dx ** 2 + dy ** 2)` is non-negative and squares to `dx ** 2 + dy ** 2` |
| Pull.LengthPositive | src/main.ts:202-205 | the length of a drag with a non-zero component is positive |
| Pull.SquareRootIsPositive | src/main.ts:202-205 | a square root in the sense of `IsSquareRoot` is positive on positive numbers |
| Pull.FreshGestureIsAbsent | src/main.ts:156-160 | right after a touchstart all three getters are absent |
| Physics.Decay | src/main.ts:210-213 | one friction tick on a component: the magnitude never grows, the sign never flips, a non-zero result lies outside the dead zone, the result is 0 exactly when `abs(v) * 0.97 < 0.01`, and 0 stays 0 |
| Physics.DecayLoses | src/main.ts:210-213 | a tick that leaves a component non-zero removes at least `0.03 * 0.01` from its magnitude |
| Physics.DecayN | src/main.ts:210-213 | after any number of friction ticks the magnitude of a component has not grown |
| Physics.DecayNSucc | src/main.ts:210-213 | `n + 1` ticks are one tick after `n` ticks |
| Physics.DecayNShrinks | src/main.ts:210-213 | over any number of ticks the magnitude never grows and the sign never flips |
| Physics.RestIsFinal | src/main.ts:210-213 | once a component is 0 it stays 0 |
| Physics.RestWithin | src/main.ts:210-213 | a component of magnitude at most `n * 0.0003` is 0 after `n` ticks |
| Physics.RestBound | src/main.ts:210-213 | an explicit tick count that is large enough for `RestWithin` |
| Physics.ComesToRest | src/main.ts:210-213 | every component is exactly 0 after `RestBound(v)` ticks and at every later tick |
| Physics.Tick | src/main.ts:208-218 | one `update` keeps the state (`"pull"` stays `"pull"`, `"fly"` stays `"fly"`), leaves a pulling ball exactly as it was, and grows neither speed component |
| Physics.TickN | src/main.ts:208-218 | any number of updates keep the state and grow neither speed component |
| Physics.PullIsFixed | src/main.ts:214-216 | a ball that is not flying keeps state `"pull"` and its velocity untouched under any number of updates |
| Physics.FlyTicks | src/main.ts:209-213 | `n` updates of a flying ball decay the two components independently |
| Physics.FlightComesToRest | src/main.ts:209-213 | a flying ball reaches velocity exactly (0, 0) after finitely many updates, stays there, and stays `"fly"` |
| Balls.Ball.constructor | src/main.ts:118-138 | a new ball has its id and position, a fresh velocity point at (0, 0), state `"pull"` and no touch |
| Balls.Ball.TouchStart | src/main.ts:150-160 | the touch becomes `StartNext` of the old one, built from two fresh points; position and state are unchanged |
| Balls.Ball.TouchMove | src/main.ts:165-177 | the touch becomes `MoveNext` of the old one, with `current` updated in place; afterwards only the ball whose turn it is holds a touch; position, state and velocity are unchanged |
| Balls.Ball.TouchEnd | src/main.ts:180-184 | the touch becomes `EndNext` of the old one; position and state are unchanged |
| Balls.Ball.Update | src/main.ts:208-218 | `(state, v.x, v.y)` becomes `Tick` of the old values; position and touch are unchanged |

## Left out

- Canvas, resize and rendering (`render`, camera transforms) are drawing and DOM I/O.
- Listener registration, `preventDefault` and `stopPropagation` in `bindTouchControls` are DOM plumbing. Only the decision logic inside each handler is modelled.
- The `ball` object literal in `src/main.ts` is not modelled. It is dead draft code that refers to undefined names.
- The random `color` and the fields `width`, `height`, `thickness` and `radius` are not modelled. Nothing reads the first three, and `radius` is read only by rendering (src/main.ts:225).
- IEEE-754 behaviour is not modelled: NaN, infinities and rounding. Reals stand for JavaScript numbers, so `equals` is reflexive here, unlike in the source under NaN.
- `Math.atan2` and `Math.sqrt` are parameters, not computed. `pullAngle` is characterised up to the host `atan2`, and `tension` up to a `sqrt` satisfying `IsSquareRoot`.
- Launch (the assignment of `"fly"`) and turn switching occur only in the dead `ball` object literal (src/main.ts:59-114), not in the `Ball` class. Collision and hole capture appear nowhere in the code. None of them is modelled.
- Pull.GettersAbsentExactlyWhenUndrawn: states absence in terms of the getters' own guard, `current` equal to `start`. How that guard relates to the squared length is stated separately, in `LengthPositive` and `TensionPositive`.
- Balls.Ball.TouchEnd, Balls.Ball.TouchMove, Balls.Ball.Update: these require the touch's two points and the velocity to be three distinct objects. The handlers always create them that way, and `Valid` is kept by every method.
