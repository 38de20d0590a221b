/**
 * The `Ball` class of src/main.ts as an object: its position, its velocity
 * `Point`, its `"pull" | "fly"` state and the held touch, whose `start` and
 * `current` are `Point` objects that `touchmove` updates in place. Each handler
 * is proved against the pure transition of the same name in `Gesture`, and
 * `Update` against `Physics.Tick`.
 */
module Balls {
  import opened Geometry
  import opened Gesture
  import opened Physics

  /** The `Touch` record held by a ball: a touch identifier and two point objects. */
  datatype Touch = Touch(id: int, start: Point, current: Point)

  class Ball {
    const id: int
    var x: real
    var y: real
    /** The velocity; the field is never reassigned, only its coordinates are. */
    const v: Point
    var state: State
    var touch: Option<Touch>

    /** The objects the held touch refers to. */
    function TouchObjects(): set<object>
      reads this
    {
      if touch.Some? then {touch.value.start, touch.value.current} else {}
    }

    /** The point that `touchmove` moves: the held touch's `current`. */
    function CurrentObjects(): set<object>
      reads this
    {
      if touch.Some? then {touch.value.current} else {}
    }

    /**
     * The handlers create the two points of a touch separately, so `start`,
     * `current` and `v` are three distinct objects.
     */
    ghost predicate Valid()
      reads this
    {
      touch.Some? ==>
        touch.value.start != touch.value.current &&
        touch.value.start != v && touch.value.current != v
    }

    /** The held touch as a value. */
    function View(): Option<Gesture>
      reads this, TouchObjects()
    {
      match touch
      case None => None
      case Some(t) => Some(Gesture(t.id, t.start.Coords(), t.current.Coords()))
    }

    /** What `update` reads and writes. */
    function MotionState(): Motion
      reads this, v
    {
      Motion(state, v.x, v.y)
    }

    /** `new Ball(id, { x, y })`: at rest, pulling, holding no touch. */
    constructor (id: int, p: XY)
      ensures this.id == id && x == p.x && y == p.y
      ensures fresh(v) && v.Coords() == XY(0.0, 0.0)
      ensures state == Pull && touch == None
      ensures Valid()
    {
      this.id := id;
      x, y := p.x, p.y;
      v := new Point(0.0, 0.0);
      state := Pull;
      touch := None;
    }

    /** The `touchstart` handler. */
    method TouchStart(turn: int, touches: seq<TouchPoint>, innerHeight: real)
      modifies this
      ensures View() == StartNext(old(View()), id, turn, touches, innerHeight)
      ensures touch == old(touch) || (fresh(touch.value.start) && fresh(touch.value.current))
      ensures old(Valid()) ==> Valid()
      ensures x == old(x) && y == old(y) && state == old(state)
    {
      if touch.Some? {
        return;
      }
      if turn != id {
        return;
      }
      if |touches| < 1 {
        return;
      }
      var t := touches[0];
      var start := new Point(t.clientX, TransformPoint(t.clientY, innerHeight));
      var current := new Point(t.clientX, TransformPoint(t.clientY, innerHeight));
      touch := Some(Touch(t.identifier, start, current));
    }

    /** The `touchmove` handler: `current` is moved in place with `set`. */
    method TouchMove(turn: int, touches: seq<TouchPoint>, innerHeight: real)
      requires Valid()
      modifies this, CurrentObjects()
      ensures View() == MoveNext(old(View()), id, turn, touches, innerHeight)
      ensures OwnedByTurn(View(), id, turn)
      ensures touch == old(touch) || touch == None
      ensures Valid()
      ensures x == old(x) && y == old(y) && state == old(state)
      ensures v.Coords() == old(v.Coords())
    {
      if touch.None? {
        return;
      }
      if id != turn {
        touch := None;
        return;
      }
      var k := FindTouch(touches, touch.value.id);
      if k.Some? {
        var t := touches[k.value];
        touch.value.current.SetXY(XY(t.clientX, TransformPoint(t.clientY, innerHeight)));
      }
    }

    /** The `touchend` handler. */
    method TouchEnd(touches: seq<TouchPoint>)
      requires Valid()
      modifies this
      ensures View() == EndNext(old(View()), touches)
      ensures touch == old(touch) || touch == None
      ensures Valid()
      ensures x == old(x) && y == old(y) && state == old(state)
    {
      if touch.None? {
        return;
      }
      if FindTouch(touches, touch.value.id).None? {
        touch := None;
      }
    }

    /** `update`: one tick of friction while flying, otherwise back to `"pull"`. */
    method Update()
      requires Valid()
      modifies this, v
      ensures MotionState() == Tick(old(MotionState()))
      ensures x == old(x) && y == old(y) && touch == old(touch)
      ensures View() == old(View())
      ensures Valid()
    {
      if state == Fly {
        v.x := v.x * (1.0 - Friction);
        if v.x < 0.01 && v.x > -0.01 {
          v.x := 0.0;
        }
        v.y := v.y * (1.0 - Friction);
        if v.y < 0.01 && v.y > -0.01 {
          v.y := 0.0;
        }
      } else {
        state := Pull;
      }
    }
  }
}
