/** The single-active-corner lock of the corner-drag gesture handler. */
module DragLock {
  import opened Geometry

  /** The gesture states the handler distinguishes. */
  datatype Phase = Began | Changed | Ended | Cancelled | Failed

  predicate Finishes(p: Phase) { p == Ended || p == Cancelled || p == Failed }

  /** The active corner button and the corner whose pan gesture is recorded
      as the active one (each corner button has its own pan gesture). */
  datatype Lock = Lock(button: Option<Corner>, gesture: Option<Corner>)

  /** The new lock, whether the corner is then moved by the translation, and
      the corners whose gestures the handler forces to the ended state. */
  datatype Step = Step(lock: Lock, moves: bool, forcedEnd: set<Corner>)

  function Dispatch(lock: Lock, c: Corner, phase: Phase): (s: Step)
    // only a began on c takes a free lock; it is never taken from another corner
    ensures s.lock.button.Some? && s.lock.button != lock.button
        ==> phase == Began && lock.button.None? && s.lock.button == Some(c)
    // a began while another corner is active moves nothing, leaves no corner
    // active and ends both gestures; the recorded gesture is left as it was
    ensures phase == Began && lock.button.Some? && lock.button != Some(c)
        ==> && !s.moves && s.lock.button.None? && s.lock.gesture == lock.gesture
            && s.forcedEnd == {c} + (if lock.gesture.Some? then {lock.gesture.value} else {})
    // any other began makes c the active corner
    ensures phase == Began && (lock.button.None? || lock.button == Some(c))
        ==> s.moves && s.lock == Lock(Some(c), Some(c))
    // a change is applied only to the active corner and leaves the lock alone
    ensures phase == Changed ==> s.lock == lock && (s.moves <==> lock.button == Some(c))
    // ended, cancelled and failed clear the lock but still apply the translation
    ensures Finishes(phase) ==> s.moves && s.lock == Lock(None, None)
    // gestures are forced to end on that conflict only
    ensures !(phase == Began && lock.button.Some? && lock.button != Some(c)) ==> s.forcedEnd == {}
  {
    match phase
    case Began =>
      if lock.button.Some? && lock.button != Some(c) then
        var other := if lock.gesture.Some? then {lock.gesture.value} else {};
        Step(Lock(None, lock.gesture), false, {c} + other)
      else
        Step(Lock(Some(c), Some(c)), true, {})
    case Changed =>
      Step(lock, lock.button == Some(c), {})
    case _ =>
      Step(Lock(None, None), true, {})
  }

  /** The translation a pan gesture reports to its handler. A began starts a
      new gesture, so only the movement since the touch counts; any later
      event adds its movement to whatever the handler has not yet consumed,
      because the handler resets the translation to zero only after it has
      applied it. */
  function GestureTranslation(pending: Point, delta: Point, phase: Phase): Point {
    if phase == Began then delta else Point(pending.x + delta.x, pending.y + delta.y)
  }

  /** One event of a pan gesture: its phase and the finger movement since the
      previous event. */
  datatype PanEvent = PanEvent(phase: Phase, delta: Point)

  /** The translation after a run of events none of which the handler
      applies, so none of which resets it. */
  function PendingAfter(pending: Point, events: seq<PanEvent>): Point
    decreases |events|
  {
    if events == [] then pending
    else PendingAfter(GestureTranslation(pending, events[0].delta, events[0].phase), events[1..])
  }

  /** The total finger movement of a run of events. */
  function TotalMovement(events: seq<PanEvent>): Point
    decreases |events|
  {
    if events == [] then Point(0.0, 0.0)
    else
      var rest := TotalMovement(events[1..]);
      Point(events[0].delta.x + rest.x, events[0].delta.y + rest.y)
  }

  /** Dropped events lose no movement: after a run of unapplied events that
      starts no new gesture, the translation the handler reads is what was
      pending plus everything the finger moved. */
  lemma {:induction false} DroppedMovesAccumulate(pending: Point, events: seq<PanEvent>)
    requires forall i :: 0 <= i < |events| ==> events[i].phase != Began
    ensures PendingAfter(pending, events)
         == Point(pending.x + TotalMovement(events).x, pending.y + TotalMovement(events).y)
    decreases |events|
  {
    if events != [] {
      var next := GestureTranslation(pending, events[0].delta, events[0].phase);
      DroppedMovesAccumulate(next, events[1..]);
    }
  }

  /** A began discards whatever an earlier gesture left unapplied: the
      translation then depends only on the new gesture's own events. */
  lemma BeganStartsAfresh(p1: Point, p2: Point, events: seq<PanEvent>)
    requires events != [] && events[0].phase == Began
    ensures PendingAfter(p1, events) == PendingAfter(p2, events)
  {
  }

  /** While one corner is active, no began or change on another corner moves it. */
  lemma OneActiveCorner(lock: Lock, a: Corner, b: Corner, phase: Phase)
    requires lock.button == Some(a) && a != b && !Finishes(phase)
    ensures !Dispatch(lock, b, phase).moves
    ensures Dispatch(lock, b, phase).lock.button != Some(b)
  {
  }
}
