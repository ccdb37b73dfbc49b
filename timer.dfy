/** Board timers (timer.py): delayed actions that expire on one side's turn. */
module Timers {
  import opened Wrappers
  import opened Sides

  /** A `Timer` subclass as a mutable class object: `clearSide` is None until
      `timer_data` runs (`_has_timer_data` is then true). */
  class TimerClass {
    var clearSide: Option<Side>

    constructor ()
      ensures clearSide.None?
    {
      clearSide := None;
    }

    /** `timer_data(side)` applied to this class. */
    method Decorate(timerClearSide: Side)
      modifies this
      ensures clearSide == Some(timerClearSide)
    {
      clearSide := Some(timerClearSide);
    }
  }

  /** `should_clear` on the side it reads. */
  function ShouldClearOn(clearSide: Side, turn: Side): (r: bool)
  {
    turn == clearSide
  }

  /** A timer clears on exactly one of the two turns: its class's side. */
  lemma TimerClearsOnOneTurn(clearSide: Side, turn: Side)
    ensures ShouldClearOn(clearSide, turn) != ShouldClearOn(clearSide, OtherSide(turn))
    ensures ShouldClearOn(clearSide, clearSide)
  {
  }

  class Timer {
    const cls: TimerClass
    var duration: int
    var intensity: real

    predicate Valid()
      reads this, cls
    {
      cls.clearSide.Some?
    }

    /** The body of `Timer.__init__` once its class check has passed. */
    constructor (cls: TimerClass, duration: int, intensity: real)
      requires cls.clearSide.Some?
      ensures this.cls == cls && Valid()
      ensures this.duration == duration && this.intensity == intensity
    {
      this.cls := cls;
      this.duration := duration;
      this.intensity := intensity;
    }

    /** `should_clear(turn)`. */
    function ShouldClear(turn: Side): bool
      reads this, cls
      requires Valid()
    {
      ShouldClearOn(cls.clearSide.value, turn)
    }
  }

  /** `Timer(duration=..., intensity=...)` for a subclass: raises TypeError
      unless the class was decorated with `timer_data`. */
  method NewTimer(cls: TimerClass, duration: int, intensity: real) returns (r: Result<Timer>)
    ensures r.Err? <==> cls.clearSide.None?
    ensures r.Err? ==> r.error == TypeError
    ensures r.Ok? ==> fresh(r.value) && r.value.cls == cls && r.value.Valid()
                      && r.value.duration == duration && r.value.intensity == intensity
  {
    if cls.clearSide.None? {
      return Err(TypeError);
    }
    var t := new Timer(cls, duration, intensity);
    return Ok(t);
  }
}
