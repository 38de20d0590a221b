/**
 * The decision logic of a ball's three touch handlers (src/main.ts), written
 * as pure transitions of the ball's held gesture. An event is the global
 * `turn`, the list `touches` of the DOM TouchEvent and the window's
 * `innerHeight`; the ball contributes its `id`.
 */
module Gesture {
  import opened Geometry

  datatype Option<T> = None | Some(value: T)

  /** One entry of a TouchEvent's `touches` list, in screen coordinates. */
  datatype TouchPoint = TouchPoint(identifier: int, clientX: real, clientY: real)

  /** A held pull gesture: which touch it follows, where it began, where it is now. */
  datatype Gesture = Gesture(id: int, start: XY, current: XY)

  /** `Ball.transformPoint`: flips a screen y into the game's upward y axis. */
  function TransformPoint(y: real, innerHeight: real): (r: real)
    ensures r - innerHeight / 2.0 == innerHeight / 2.0 - y
  {
    -y + innerHeight
  }

  /** Flipping twice against the same window height gives the value back. */
  lemma TransformPointInvolutive(y: real, innerHeight: real)
    ensures TransformPoint(TransformPoint(y, innerHeight), innerHeight) == y
  {
  }

  /** A touch in game coordinates: `(clientX, transformPoint(clientY))`. */
  function GamePoint(t: TouchPoint, innerHeight: real): (r: XY)
    ensures r.x == t.clientX && TransformPoint(r.y, innerHeight) == t.clientY
  {
    XY(t.clientX, TransformPoint(t.clientY, innerHeight))
  }

  /**
   * `[...touches].find(t => t.identifier === id)`: the index of the first
   * touch with that identifier, or None when there is none.
   */
  function FindTouch(touches: seq<TouchPoint>, id: int): (r: Option<nat>)
    ensures r.None? <==> forall k :: 0 <= k < |touches| ==> touches[k].identifier != id
    ensures r.Some? ==> r.value < |touches| && touches[r.value].identifier == id
    ensures r.Some? ==> forall k :: 0 <= k < r.value ==> touches[k].identifier != id
  {
    if |touches| == 0 then None
    else if touches[0].identifier == id then Some(0)
    else match FindTouch(touches[1..], id)
      case None => None
      case Some(k) => Some(k + 1)
  }

  /** True when some remaining touch carries the identifier. */
  predicate Present(touches: seq<TouchPoint>, id: int)
  {
    exists k :: 0 <= k < |touches| && touches[k].identifier == id
  }

  /**
   * The `touchstart` handler. A held gesture is never replaced, and a new one
   * belongs to the ball whose turn it is and starts undrawn on the first touch.
   */
  function StartNext(g: Option<Gesture>, ballId: int, turn: int,
                     touches: seq<TouchPoint>, innerHeight: real): (r: Option<Gesture>)
    ensures g.Some? ==> r == g
    ensures r != g ==> ballId == turn && |touches| >= 1 && r.Some? &&
                       r.value.id == touches[0].identifier && r.value.start == r.value.current
  {
    if g.Some? then g
    else if turn != ballId then g
    else if |touches| < 1 then g
    else
      var p := GamePoint(touches[0], innerHeight);
      Some(Gesture(touches[0].identifier, p, p))
  }

  /**
   * The `touchmove` handler. It never creates a gesture, keeps one only for
   * the ball whose turn it is, keeps its `id` and `start`, and changes it only
   * when a touch with that identifier is present.
   */
  function MoveNext(g: Option<Gesture>, ballId: int, turn: int,
                    touches: seq<TouchPoint>, innerHeight: real): (r: Option<Gesture>)
    ensures r.Some? ==> g.Some? && ballId == turn &&
                        r.value.id == g.value.id && r.value.start == g.value.start
    ensures r.Some? && r != g ==> Present(touches, r.value.id)
  {
    if g.None? then g
    else if ballId != turn then None
    else match FindTouch(touches, g.value.id)
      case None => g
      case Some(k) => Some(g.value.(current := GamePoint(touches[k], innerHeight)))
  }

  /**
   * The `touchend` handler. It either keeps the gesture or drops it, and it
   * drops a held gesture exactly when its touch is no longer down.
   */
  function EndNext(g: Option<Gesture>, touches: seq<TouchPoint>): (r: Option<Gesture>)
    ensures r == g || r == None
    ensures g.Some? ==> (r.None? <==> !Present(touches, g.value.id))
  {
    if g.None? then g
    else if FindTouch(touches, g.value.id).None? then None
    else g
  }

  // ---------------------------------------------------------------------
  // touchstart

  /**
   * A touchstart takes the gesture exactly when the ball holds none, it is
   * the ball's turn and at least one touch is down; both points are then the
   * first touch in game coordinates. Otherwise nothing changes.
   */
  lemma StartRule(g: Option<Gesture>, ballId: int, turn: int,
                  touches: seq<TouchPoint>, innerHeight: real)
    ensures var r := StartNext(g, ballId, turn, touches, innerHeight);
      (r != g <==> g.None? && turn == ballId && |touches| >= 1) &&
      (r != g ==> r.value.id == touches[0].identifier &&
                  r.value.start == r.value.current ==
                  XY(touches[0].clientX, TransformPoint(touches[0].clientY, innerHeight)))
  {
  }

  /** A second delivery of the same touchstart is refused. */
  lemma StartIdempotent(g: Option<Gesture>, ballId: int, turn: int,
                        touches: seq<TouchPoint>, innerHeight: real)
    ensures var r := StartNext(g, ballId, turn, touches, innerHeight);
      StartNext(r, ballId, turn, touches, innerHeight) == r
  {
  }

  /** A freshly taken gesture has zero drag length. */
  lemma StartIsUndrawn(g: Option<Gesture>, ballId: int, turn: int,
                       touches: seq<TouchPoint>, innerHeight: real)
    requires g.None?
    ensures var r := StartNext(g, ballId, turn, touches, innerHeight);
      r.Some? ==> r.value.current == r.value.start
  {
  }

  // ---------------------------------------------------------------------
  // touchmove

  /**
   * A touchmove without a held gesture changes nothing; out of turn it drops
   * the gesture; otherwise it moves `current` to the touch with the held
   * identifier, keeping `id` and `start`, or changes nothing if that touch is
   * gone.
   */
  lemma MoveRule(g: Option<Gesture>, ballId: int, turn: int,
                 touches: seq<TouchPoint>, innerHeight: real)
    ensures var r := MoveNext(g, ballId, turn, touches, innerHeight);
      (g.None? ==> r == g) &&
      (g.Some? && ballId != turn ==> r.None?) &&
      (g.Some? && ballId == turn && !Present(touches, g.value.id) ==> r == g) &&
      (g.Some? && ballId == turn && Present(touches, g.value.id) ==>
         r.Some? && r.value.id == g.value.id && r.value.start == g.value.start &&
         exists k :: 0 <= k < |touches| && touches[k].identifier == g.value.id &&
                     r.value.current == GamePoint(touches[k], innerHeight))
  {
  }

  /** When several touches share the identifier, the first one is followed. */
  lemma MoveFollowsFirst(g: Gesture, ballId: int, touches: seq<TouchPoint>,
                         innerHeight: real, k: nat)
    requires k < |touches| && touches[k].identifier == g.id
    requires forall j :: 0 <= j < k ==> touches[j].identifier != g.id
    ensures MoveNext(Some(g), ballId, ballId, touches, innerHeight)
         == Some(g.(current := GamePoint(touches[k], innerHeight)))
  {
  }

  /** Replaying the same touchmove changes nothing more. */
  lemma MoveIdempotent(g: Option<Gesture>, ballId: int, turn: int,
                       touches: seq<TouchPoint>, innerHeight: real)
    ensures var r := MoveNext(g, ballId, turn, touches, innerHeight);
      MoveNext(r, ballId, turn, touches, innerHeight) == r
  {
  }

  // ---------------------------------------------------------------------
  // touchend

  /** A touchend drops the gesture exactly when its identifier has vanished. */
  lemma EndRule(g: Option<Gesture>, touches: seq<TouchPoint>)
    ensures var r := EndNext(g, touches);
      (g.Some? && !Present(touches, g.value.id) ==> r.None?) &&
      (g.None? || Present(touches, g.value.id) ==> r == g)
  {
  }

  lemma EndIdempotent(g: Option<Gesture>, touches: seq<TouchPoint>)
    ensures EndNext(EndNext(g, touches), touches) == EndNext(g, touches)
  {
  }

  /** A touchmove that found its touch is not undone by a touchend with the same touches. */
  lemma MoveThenEndKeeps(g: Option<Gesture>, ballId: int, turn: int,
                         touches: seq<TouchPoint>, innerHeight: real)
    requires g.Some? && ballId == turn && Present(touches, g.value.id)
    ensures var r := MoveNext(g, ballId, turn, touches, innerHeight);
      r.Some? && EndNext(r, touches) == r
  {
  }

  // ---------------------------------------------------------------------
  // Ownership: only the ball whose id is the turn holds a gesture.

  /** The ownership rule for one ball. */
  predicate OwnedByTurn(g: Option<Gesture>, ballId: int, turn: int)
  {
    g.Some? ==> ballId == turn
  }

  /** touchstart keeps ownership for the same turn. */
  lemma StartKeepsOwnership(g: Option<Gesture>, ballId: int, turn: int,
                            touches: seq<TouchPoint>, innerHeight: real)
    requires OwnedByTurn(g, ballId, turn)
    ensures OwnedByTurn(StartNext(g, ballId, turn, touches, innerHeight), ballId, turn)
  {
  }

  /** touchmove re-establishes ownership whatever the state was: a stale gesture is dropped. */
  lemma MoveRestoresOwnership(g: Option<Gesture>, ballId: int, turn: int,
                              touches: seq<TouchPoint>, innerHeight: real)
    ensures OwnedByTurn(MoveNext(g, ballId, turn, touches, innerHeight), ballId, turn)
  {
  }

  /** touchend never adds a gesture, so it keeps ownership too. */
  lemma EndKeepsOwnership(g: Option<Gesture>, ballId: int, turn: int, touches: seq<TouchPoint>)
    requires OwnedByTurn(g, ballId, turn)
    ensures OwnedByTurn(EndNext(g, touches), ballId, turn)
  {
  }

  /**
   * Among balls with distinct ids that all keep the ownership rule, at most
   * one holds a gesture.
   */
  lemma AtMostOneOwner(ids: seq<int>, gs: seq<Option<Gesture>>, turn: int, i: nat, j: nat)
    requires |ids| == |gs| && i < |gs| && j < |gs| && i != j
    requires ids[i] != ids[j]
    requires forall k :: 0 <= k < |gs| ==> OwnedByTurn(gs[k], ids[k], turn)
    ensures !(gs[i].Some? && gs[j].Some?)
  {
  }
}
