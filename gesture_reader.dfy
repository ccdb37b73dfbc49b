/** The gesture reader (frontend/gesture/gesture_reader.py): a state machine
    that turns raw mouse events into clicks, double clicks, drags, holds,
    swipes and scrolls. The wall clock is a parameter: every event carries its
    time in whole milliseconds, and the hold check and the hardware sync take
    the time of the frame. Distances are compared squared, which is exact on
    integer pixel positions. */
module GestureReaders {
  import opened Wrappers

  type Pos = (int, int)

  /** The thresholds of the reader; times in milliseconds, distances in pixels. */
  const DoubleClickMovement := 10
  const DoubleClickTime := 400
  const DragMovement := 5
  const HoldTime := 500
  const HoldMovement := 10
  const SwipeSpeed := 800
  const SwipeMovement := 50

  function DistSq(a: Pos, b: Pos): int
  {
    (a.0 - b.0) * (a.0 - b.0) + (a.1 - b.1) * (a.1 - b.1)
  }

  function Sub(a: Pos, b: Pos): Pos
  {
    (a.0 - b.0, a.1 - b.1)
  }

  datatype GestureState = Idle | Pressed | Dragging | HoldTriggered

  datatype Gesture =
    | Click(pos: Pos)
    | DoubleClick(pos: Pos)
    | Drag(delta: Pos)
    | DragEnd
    | Hold(pos: Pos)
    | Swipe(startPos: Pos, endPos: Pos)
    | Scroll(amount: int)

  datatype MouseEvent =
    | ButtonDown(button: int, pos: Pos)
    | Motion(pos: Pos)
    | ButtonUp(button: int, pos: Pos)
    | Wheel(x: int, y: int)
    | OtherEvent

  datatype TimedEvent = TimedEvent(event: MouseEvent, time: int)

  /** Everything the reader remembers between events except its output queue. */
  datatype Tracking = Tracking(
    state: GestureState,
    startPos: Option<Pos>,
    lastPos: Option<Pos>,
    draggingLastPos: Option<Pos>,
    startTime: Option<int>,
    lastClickTime: Option<int>,
    lastClickPos: Option<Pos>)

  const Initial := Tracking(Idle, None, None, None, None, None, None)

  /** `_on_press`. */
  function Press(t: Tracking, pos: Pos, now: int): Tracking
  {
    t.(state := Pressed, startPos := Some(pos), lastPos := Some(pos), startTime := Some(now))
  }

  /** `_reset_state`: back to idle; the click history survives. */
  function Reset(t: Tracking): Tracking
  {
    t.(state := Idle, startPos := None, lastPos := None, draggingLastPos := None, startTime := None)
  }

  /** `_on_motion`: while the button is down, moving more than the drag
      threshold from the start begins a drag from the previous position; while
      dragging every motion reports its offset from the previous drag position.
      The last position is recorded in every case. */
  function Moved(t: Tracking, pos: Pos): (Tracking, seq<Gesture>)
  {
    if t.state != Idle && t.startPos.Some? && t.lastPos.Some? then
      var t1 :=
        if DistSq(pos, t.startPos.value) > DragMovement * DragMovement && t.state != Dragging
        then t.(state := Dragging, draggingLastPos := t.lastPos)
        else t;
      if t1.state == Dragging && t1.draggingLastPos.Some? then
        (t1.(draggingLastPos := Some(pos), lastPos := Some(pos)), [Drag(Sub(pos, t1.draggingLastPos.value))])
      else
        (t1.(lastPos := Some(pos)), [])
    else
      (t.(lastPos := Some(pos)), [])
  }

  /** The swipe speed test `distance / max(elapsed, 1e-6) >= 800` (pixels per
      second) on a squared distance and a whole number of milliseconds: an
      elapsed time of at most 0 ms divides by 1e-6 s and always passes,
      otherwise `1000 * d >= 800 * e`, that is `25 * d^2 >= 16 * e^2`. */
  predicate FastEnough(distSq: int, elapsed: int)
  {
    elapsed <= 0 || 25 * distSq >= 16 * elapsed * elapsed
  }

  /** `_on_release`: ignored without a recorded press; from PRESSED a double
      click when the last click is recent and near (which is then forgotten),
      else a click (which is then remembered); from DRAGGING a swipe when far
      and fast enough, then the end of the drag; from HOLD_TRIGGERED nothing.
      The reader is then reset. */
  function Released(t: Tracking, pos: Pos, now: int): (Tracking, seq<Gesture>)
  {
    if t.startTime.None? || t.startPos.None? then (t, [])
    else
      var start := t.startPos.value;
      if t.state == Pressed then
        if t.lastClickTime.Some? && t.lastClickPos.Some?
           && now - t.lastClickTime.value <= DoubleClickTime
           && DistSq(pos, t.lastClickPos.value) <= DoubleClickMovement * DoubleClickMovement
        then (Reset(t.(lastClickTime := None, lastClickPos := None)), [DoubleClick(pos)])
        else (Reset(t.(lastClickTime := Some(now), lastClickPos := Some(pos))), [Click(pos)])
      else if t.state == Dragging then
        var swipe :=
          if DistSq(pos, start) >= SwipeMovement * SwipeMovement
             && FastEnough(DistSq(pos, start), now - t.startTime.value)
          then [Swipe(start, pos)] else [];
        (Reset(t), swipe + [DragEnd])
      else
        (Reset(t), [])
  }

  /** `_check_hold`: a press held long enough without moving far becomes a hold,
      reported at the start position. */
  function HoldChecked(t: Tracking, now: int): (Tracking, seq<Gesture>)
  {
    if t.state == Pressed && t.startTime.Some? && t.startPos.Some? && t.lastPos.Some?
       && now - t.startTime.value >= HoldTime
       && DistSq(t.lastPos.value, t.startPos.value) <= HoldMovement * HoldMovement
    then (t.(state := HoldTriggered), [Hold(t.startPos.value)])
    else (t, [])
  }

  /** `_on_scroll`: only the vertical amount is reported, and only when it is
      not zero. */
  function Scrolled(dx: int, dy: int): (r: seq<Gesture>)
    ensures r == [] <==> dy == 0
    ensures r != [] ==> r == [Scroll(dy)]
  {
    if dy != 0 then [Scroll(dy)] else []
  }

  /** `_sync_with_hardware`, with the button state and pointer position read
      from the hardware as parameters. */
  function Synced(t: Tracking, mouseDown: bool, mousePos: Pos, now: int): Tracking
  {
    if !mouseDown && t.state != Idle then Reset(t)
    else if mouseDown && t.state == Idle then Press(t, mousePos, now)
    else t
  }

  /** One event of the loop in `read_events`: only the left button (1) counts. */
  function Dispatch(t: Tracking, e: TimedEvent): (Tracking, seq<Gesture>)
  {
    match e.event
    case ButtonDown(b, p) => if b == 1 then (Press(t, p, e.time), []) else (t, [])
    case Motion(p) => Moved(t, p)
    case ButtonUp(b, p) => if b == 1 then Released(t, p, e.time) else (t, [])
    case Wheel(x, y) => (t, Scrolled(x, y))
    case OtherEvent => (t, [])
  }

  /** The events of one batch, in order. */
  function Batch(t: Tracking, events: seq<TimedEvent>): (Tracking, seq<Gesture>)
  {
    if events == [] then (t, [])
    else
      var prev := Batch(t, events[..|events| - 1]);
      var step := Dispatch(prev.0, events[|events| - 1]);
      (step.0, prev.1 + step.1)
  }

  /** `read_events`: the batch, then the hold check, then the hardware sync. */
  function ReadBatch(t: Tracking, events: seq<TimedEvent>, now: int, mouseDown: bool, mousePos: Pos)
    : (Tracking, seq<Gesture>)
  {
    var b := Batch(t, events);
    var h := HoldChecked(b.0, now);
    (Synced(h.0, mouseDown, mousePos, now), b.1 + h.1)
  }

  class GestureReader {
    var state: GestureState
    var startPos: Option<Pos>
    var lastPos: Option<Pos>
    var draggingLastPos: Option<Pos>
    var startTime: Option<int>
    var lastClickTime: Option<int>
    var lastClickPos: Option<Pos>
    var gestureQueue: seq<Gesture>

    function Snapshot(): Tracking
      reads this
    {
      Tracking(state, startPos, lastPos, draggingLastPos, startTime, lastClickTime, lastClickPos)
    }

    constructor ()
      ensures Snapshot() == Initial && gestureQueue == []
    {
      state := Idle;
      startPos := None;
      lastPos := None;
      draggingLastPos := None;
      startTime := None;
      lastClickTime := None;
      lastClickPos := None;
      gestureQueue := [];
    }

    /** `_on_press`. */
    method OnPress(pos: Pos, now: int)
      modifies this
      ensures Snapshot() == Press(old(Snapshot()), pos, now)
      ensures gestureQueue == old(gestureQueue)
    {
      state := Pressed;
      startPos := Some(pos);
      lastPos := Some(pos);
      startTime := Some(now);
    }

    /** `_reset_state`. */
    method ResetState()
      modifies this
      ensures Snapshot() == Reset(old(Snapshot()))
      ensures gestureQueue == old(gestureQueue)
    {
      state := Idle;
      startPos := None;
      lastPos := None;
      draggingLastPos := None;
      startTime := None;
    }

    /** `_on_motion`. */
    method OnMotion(pos: Pos)
      modifies this
      ensures Snapshot() == Moved(old(Snapshot()), pos).0
      ensures gestureQueue == old(gestureQueue) + Moved(old(Snapshot()), pos).1
    {
      if state != Idle && startPos.Some? && lastPos.Some? {
        if DistSq(pos, startPos.value) > DragMovement * DragMovement && state != Dragging {
          state := Dragging;
          draggingLastPos := lastPos;
        }
        if state == Dragging && draggingLastPos.Some? {
          var delta := Sub(pos, draggingLastPos.value);
          draggingLastPos := Some(pos);
          gestureQueue := gestureQueue + [Drag(delta)];
        }
      }
      lastPos := Some(pos);
    }

    /** `_on_release`. */
    method OnRelease(pos: Pos, now: int)
      modifies this
      ensures Snapshot() == Released(old(Snapshot()), pos, now).0
      ensures gestureQueue == old(gestureQueue) + Released(old(Snapshot()), pos, now).1
    {
      if startTime.None? || startPos.None? {
        return;
      }
      var start := startPos.value;
      var elapsed := now - startTime.value;
      if state == Dragging && DistSq(pos, start) >= SwipeMovement * SwipeMovement {
        if FastEnough(DistSq(pos, start), elapsed) {
          gestureQueue := gestureQueue + [Swipe(start, pos)];
        }
      }
      if state == Pressed {
        if lastClickTime.Some? && lastClickPos.Some?
           && now - lastClickTime.value <= DoubleClickTime
           && DistSq(pos, lastClickPos.value) <= DoubleClickMovement * DoubleClickMovement
        {
          gestureQueue := gestureQueue + [DoubleClick(pos)];
          lastClickTime := None;
          lastClickPos := None;
        } else {
          gestureQueue := gestureQueue + [Click(pos)];
          lastClickTime := Some(now);
          lastClickPos := Some(pos);
        }
      } else if state == Dragging {
        gestureQueue := gestureQueue + [DragEnd];
      }
      ResetState();
    }

    /** `_check_hold`. */
    method CheckHold(now: int)
      modifies this
      ensures Snapshot() == HoldChecked(old(Snapshot()), now).0
      ensures gestureQueue == old(gestureQueue) + HoldChecked(old(Snapshot()), now).1
    {
      if state == Pressed && startTime.Some? && startPos.Some? && lastPos.Some? {
        if now - startTime.value >= HoldTime
           && DistSq(lastPos.value, startPos.value) <= HoldMovement * HoldMovement
        {
          state := HoldTriggered;
          gestureQueue := gestureQueue + [Hold(startPos.value)];
        }
      }
    }

    /** `_on_scroll`. */
    method OnScroll(dx: int, dy: int)
      modifies this
      ensures Snapshot() == old(Snapshot())
      ensures gestureQueue == old(gestureQueue) + Scrolled(dx, dy)
    {
      if dy != 0 {
        gestureQueue := gestureQueue + [Scroll(dy)];
      }
    }

    /** `_sync_with_hardware`. */
    method SyncWithHardware(mouseDown: bool, mousePos: Pos, now: int)
      modifies this
      ensures Snapshot() == Synced(old(Snapshot()), mouseDown, mousePos, now)
      ensures gestureQueue == old(gestureQueue)
    {
      if !mouseDown && state != Idle {
        ResetState();
      } else if mouseDown && state == Idle {
        OnPress(mousePos, now);
      }
    }

    /** `read_events`: the queue is emptied first, so the result holds the
        gestures of this batch only. */
    method ReadEvents(events: seq<TimedEvent>, now: int, mouseDown: bool, mousePos: Pos)
      returns (gestures: seq<Gesture>)
      modifies this
      ensures Snapshot() == ReadBatch(old(Snapshot()), events, now, mouseDown, mousePos).0
      ensures gestures == gestureQueue == ReadBatch(old(Snapshot()), events, now, mouseDown, mousePos).1
    {
      gestureQueue := [];
      ghost var t0 := Snapshot();
      var i := 0;
      while i < |events|
        invariant 0 <= i <= |events|
        invariant (Snapshot(), gestureQueue) == Batch(t0, events[..i])
      {
        assert events[..i + 1][..i] == events[..i];
        var e := events[i];
        ghost var before := Snapshot();
        ghost var queued := gestureQueue;
        match e.event {
          case ButtonDown(b, p) =>
            if b == 1 {
              OnPress(p, e.time);
            }
            assert queued + [] == queued;
          case Motion(p) =>
            OnMotion(p);
          case ButtonUp(b, p) =>
            if b == 1 {
              OnRelease(p, e.time);
            } else {
              assert queued + [] == queued;
            }
          case Wheel(x, y) =>
            OnScroll(x, y);
          case OtherEvent =>
            assert queued + [] == queued;
        }
        assert (Snapshot(), gestureQueue) == (Dispatch(before, e).0, queued + Dispatch(before, e).1);
        i := i + 1;
      }
      assert events[..i] == events;
      CheckHold(now);
      SyncWithHardware(mouseDown, mousePos, now);
      gestures := gestureQueue;
    }
  }

  /** A run of motions, in order. */
  function Motions(t: Tracking, ps: seq<Pos>): (Tracking, seq<Gesture>)
  {
    if ps == [] then (t, [])
    else
      var prev := Motions(t, ps[..|ps| - 1]);
      var step := Moved(prev.0, ps[|ps| - 1]);
      (step.0, prev.1 + step.1)
  }

  /** The summed offsets of the drag gestures in `gs`. */
  function DragTotal(gs: seq<Gesture>): Pos
  {
    if gs == [] then (0, 0)
    else
      var rest := DragTotal(gs[..|gs| - 1]);
      var g := gs[|gs| - 1];
      if g.Drag? then (rest.0 + g.delta.0, rest.1 + g.delta.1) else rest
  }

  lemma DragTotalAppend(gs: seq<Gesture>, d: Pos)
    ensures DragTotal(gs + [Drag(d)]) == (DragTotal(gs).0 + d.0, DragTotal(gs).1 + d.1)
  {
    assert (gs + [Drag(d)])[..|gs|] == gs;
  }

  /** One motion during a drag: the offset from the previous drag position. */
  lemma DragStep(t: Tracking, pos: Pos)
    requires t.state == Dragging && t.startPos.Some? && t.lastPos.Some? && t.draggingLastPos.Some?
    ensures Moved(t, pos) == (t.(draggingLastPos := Some(pos), lastPos := Some(pos)),
                              [Drag(Sub(pos, t.draggingLastPos.value))])
  {
  }

  /** Once dragging, every motion reports one drag whose offset is measured
      from the previous one, so the offsets add up to the distance from the
      point where the drag began to the last position, and the reader stays
      in the drag. */
  lemma {:induction false} DragDeltasSum(t: Tracking, ps: seq<Pos>)
    requires t.state == Dragging && t.startPos.Some? && t.lastPos.Some? && t.draggingLastPos.Some?
    requires |ps| > 0
    ensures |Motions(t, ps).1| == |ps|
    ensures forall i :: 0 <= i < |ps| ==> Motions(t, ps).1[i].Drag?
    ensures DragTotal(Motions(t, ps).1) == Sub(ps[|ps| - 1], t.draggingLastPos.value)
    ensures Motions(t, ps).0 == t.(draggingLastPos := Some(ps[|ps| - 1]), lastPos := Some(ps[|ps| - 1]))
  {
    var last := ps[|ps| - 1];
    var init := ps[..|ps| - 1];
    var prev := Motions(t, init);
    if |ps| == 1 {
      assert init == [] && prev == (t, []);
      DragStep(t, last);
      DragTotalAppend([], Sub(last, t.draggingLastPos.value));
    } else {
      DragDeltasSum(t, init);
      DragStep(prev.0, last);
      DragTotalAppend(prev.1, Sub(last, prev.0.draggingLastPos.value));
    }
  }

  /** Crossing the drag threshold from a press starts the drag at the previous
      position and at once reports the offset from it; staying within the
      threshold keeps the press and reports nothing. */
  lemma DragStart(t: Tracking, pos: Pos)
    requires t.state == Pressed && t.startPos.Some? && t.lastPos.Some?
    ensures DistSq(pos, t.startPos.value) > 25 ==>
              Moved(t, pos) == (t.(state := Dragging, draggingLastPos := Some(pos), lastPos := Some(pos)),
                                [Drag(Sub(pos, t.lastPos.value))])
    ensures DistSq(pos, t.startPos.value) <= 25 ==> Moved(t, pos) == (t.(lastPos := Some(pos)), [])
  {
  }

  /** A press and its release make exactly one click or double click: a double
      click exactly when the previous click is at most 400 ms old and at most
      10 px away, after which it is forgotten; a click is remembered for the
      next release. Either way the reader ends idle. */
  lemma {:induction false} ClickOrDoubleClick(t: Tracking, p: Pos, pressAt: int, q: Pos, releaseAt: int)
    ensures var r := Released(Press(t, p, pressAt), q, releaseAt);
            var double := t.lastClickTime.Some? && t.lastClickPos.Some?
                          && releaseAt - t.lastClickTime.value <= 400
                          && DistSq(q, t.lastClickPos.value) <= 100;
            && (double ==> r.1 == [DoubleClick(q)] && r.0.lastClickTime == None && r.0.lastClickPos == None)
            && (!double ==> r.1 == [Click(q)] && r.0.lastClickTime == Some(releaseAt) && r.0.lastClickPos == Some(q))
            && r.0.state == Idle && r.0.startPos == None && r.0.startTime == None
  {
  }

  /** Two quick clicks at the same place: the second release is a double
      click. */
  lemma QuickSecondClick(t: Tracking, p: Pos, t1: int, t2: int, t3: int, t4: int)
    requires t1 <= t2 <= t3 <= t4 <= t2 + 400
    ensures var first := Released(Press(t, p, t1), p, t2);
            first.1 == [Click(p)] || first.1 == [DoubleClick(p)]
    ensures var first := Released(Press(t, p, t1), p, t2);
            first.1 == [Click(p)] ==> Released(Press(first.0, p, t3), p, t4).1 == [DoubleClick(p)]
  {
    ClickOrDoubleClick(t, p, t1, p, t2);
  }

  /** A release with no recorded press changes nothing and reports nothing. */
  lemma SpuriousRelease(t: Tracking, pos: Pos, now: int)
    requires t.startTime.None? || t.startPos.None?
    ensures Released(t, pos, now) == (t, [])
  {
  }

  /** A release from a drag ends it (after a swipe when far and fast enough),
      and a release after a hold reports nothing; the click history is kept. */
  lemma ReleaseAfterDragOrHold(t: Tracking, pos: Pos, now: int)
    requires t.startTime.Some? && t.startPos.Some?
    ensures t.state == Dragging ==>
              Released(t, pos, now).1 == [DragEnd] || Released(t, pos, now).1 == [Swipe(t.startPos.value, pos), DragEnd]
    ensures t.state == HoldTriggered ==> Released(t, pos, now).1 == []
    ensures t.state != Pressed ==> Released(t, pos, now).0 == Reset(t)
  {
  }

  /** A hold fires once: it is reported at the start position exactly when a
      press has lasted at least 500 ms without moving more than 10 px, and the
      next check reports nothing. */
  lemma HoldFiresOnce(t: Tracking, now: int, later: int)
    ensures var fired := t.state == Pressed && t.startTime.Some? && t.startPos.Some? && t.lastPos.Some?
                         && now - t.startTime.value >= 500 && DistSq(t.lastPos.value, t.startPos.value) <= 100;
            && (fired ==> HoldChecked(t, now).1 == [Hold(t.startPos.value)])
            && (!fired ==> HoldChecked(t, now) == (t, []))
    ensures HoldChecked(t, now).1 != [] ==> HoldChecked(HoldChecked(t, now).0, later).1 == []
  {
  }

  predicate NoLeftPress(events: seq<TimedEvent>)
  {
    forall i :: 0 <= i < |events| ==> !(events[i].event.ButtonDown? && events[i].event.button == 1)
  }

  /** Without a new left press, a reader that is not in PRESSED never gets
      back to it, so no later hold check reports a hold again. */
  lemma {:induction false} NoHoldWithoutPress(t: Tracking, events: seq<TimedEvent>, now: int)
    requires t.state != Pressed
    requires NoLeftPress(events)
    ensures Batch(t, events).0.state != Pressed
    ensures HoldChecked(Batch(t, events).0, now).1 == []
  {
    if events != [] {
      NoHoldWithoutPress(t, events[..|events| - 1], now);
    }
  }

  /** After the sync the reader is out of IDLE exactly when the button is
      down. */
  lemma SyncMatchesButton(t: Tracking, mouseDown: bool, mousePos: Pos, now: int)
    ensures Synced(t, mouseDown, mousePos, now).state != Idle <==> mouseDown
  {
  }

  /** The gestures of a batch are those of its events in order: splitting a
      batch in two gives the same gestures. */
  lemma {:induction false} BatchSplits(t: Tracking, xs: seq<TimedEvent>, ys: seq<TimedEvent>)
    ensures Batch(t, xs + ys).0 == Batch(Batch(t, xs).0, ys).0
    ensures Batch(t, xs + ys).1 == Batch(t, xs).1 + Batch(Batch(t, xs).0, ys).1
    decreases |ys|
  {
    if ys == [] {
      assert xs + ys == xs;
    } else {
      var init := ys[..|ys| - 1];
      assert (xs + ys)[..|xs + ys| - 1] == xs + init;
      BatchSplits(t, xs, init);
    }
  }
}
