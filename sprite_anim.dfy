/** Frame animation of a sprite (frontend/visual/anim/core/sprite_anim.py)
    and the component it drives (frontend/visual/asset_management/
    spritesheet_structure.py): eased time in [0, 1] picks a frame of the
    named animation, stepping forward, backward or not at all. */
module SpriteAnims {
  import opened Wrappers
  import opened SpritesheetManagers

  /** What `spritesheet_reference` holds: a key into the spritesheet cache
      or a raw surface. */
  datatype SheetRef = SheetKey(key: string) | RawFrame(frame: Frame)

  /** The attributes `SpritesheetComponent` defines. */
  const ComponentAttributes: set<string> :=
    {"spritesheet_reference", "set_frame", "_fit_with_spatial_rect", "_current_frame",
     "set_overlay", "_apply_overlay", "output_frame"}

  /** `SpritesheetComponent`: the sheet to draw from and the animation frame
      to draw. The overlay fields only affect rendering. */
  class SpritesheetComponent {
    const reference: SheetRef
    var animName: Option<string>
    var frameIndex: Option<int>

    /** `__post_init__` ends with `set_frame("IDLE", 0)`. */
    constructor(reference: SheetRef)
      ensures this.reference == reference && animName == Some("IDLE") && frameIndex == Some(0)
    {
      this.reference := reference;
      animName := Some("IDLE");
      frameIndex := Some(0);
    }

    /** `set_frame`. */
    method SetFrame(name: string, index: int)
      modifies this
      ensures animName == Some(name) && frameIndex == Some(index)
    {
      animName := Some(name);
      frameIndex := Some(index);
    }

    /** `_current_frame`: a raw surface is drawn as it is; a key is looked
        up in the cache (KeyError when missing) and the frame picked by name
        and index; an empty or missing animation name, or a missing index,
        raises AttributeError. */
    function CurrentFrame(manager: SpritesheetManager): (r: Result<Frame>)
      reads this, manager, manager.cached.Values
      ensures reference.RawFrame? ==> r == Ok(reference.frame)
      ensures reference.SheetKey? && reference.key !in manager.cached ==> r == Err(KeyError)
      ensures reference.SheetKey? && reference.key in manager.cached && (animName in {None, Some("")} || frameIndex.None?) ==>
                r == Err(AttributeError)
      ensures reference.SheetKey? && reference.key in manager.cached && animName.Some? && animName.value != "" && frameIndex.Some? ==>
                r == manager.cached[reference.key].GetSpriteByName(animName.value, frameIndex.value)
    {
      match reference
      case RawFrame(f) => Ok(f)
      case SheetKey(k) =>
        match manager.GetSpritesheet(k)
        case Err(e) => Err(e)
        case Ok(sheet) =>
          if animName.Some? && animName.value != "" && frameIndex.Some?
          then sheet.GetSpriteByName(animName.value, frameIndex.value)
          else Err(AttributeError)
    }
  }

  function Abs(n: int): nat
  {
    if n < 0 then -n else n
  }

  /** The frame `update` picks for eased time t: the base index
      `int(t * (total - 1))`, times |direction|, from the start frame,
      wrapped modulo the frame count (Python's `%`, never negative for a
      positive count) and mirrored when the direction is negative; no
      frames raise ZeroDivisionError. */
  function FrameFor(total: nat, start: int, direction: int, t: real): Result<int>
  {
    if total == 0 then Err(ZeroDivisionError)
    else
      var frame := (start + BaseIndex(total, t) * Abs(direction)) % total;
      Ok(if direction < 0 then total - 1 - frame else frame)
  }

  /** `int(eased_t * (total_frames - 1))`. */
  function BaseIndex(total: nat, t: real): int
  {
    PyInt(t * (total - 1) as real)
  }

  /** With frames, any eased time gives a frame within the animation. */
  lemma FrameInRange(total: nat, start: int, direction: int, t: real)
    requires total > 0
    ensures FrameFor(total, start, direction, t).Ok?
    ensures 0 <= FrameFor(total, start, direction, t).value < total
  {
  }

  /** For eased time in [0, 1] the base index lies in [0, total - 1]. */
  lemma BaseIndexInRange(total: nat, t: real)
    requires total > 0 && 0.0 <= t <= 1.0
    ensures 0 <= BaseIndex(total, t) <= total - 1
  {
    var n := (total - 1) as real;
    ScaleInUnit(t, n);
    PyIntAtMost(t * n, total - 1);
  }

  /** A fraction in [0, 1] of a non-negative n lies in [0, n]. */
  lemma ScaleInUnit(t: real, n: real)
    requires 0.0 <= t <= 1.0 && n >= 0.0
    ensures 0.0 <= t * n <= n
  {
    ScaleMonotone(0.0, t, n);
    ScaleMonotone(t, 1.0, n);
  }

  /** Truncating a number in [0, m] gives an integer in [0, m]. */
  lemma PyIntAtMost(x: real, m: int)
    requires 0.0 <= x <= m as real
    ensures 0 <= PyInt(x) <= m
  {
  }

  /** Direction 0 freezes the animation on the start frame (modulo the count). */
  lemma DirectionZeroFreezes(total: nat, start: int, t: real)
    requires total > 0
    ensures FrameFor(total, start, 0, t) == Ok(start % total)
  {
  }

  /** A negative direction plays the mirror image of the positive one. */
  lemma NegativeDirectionMirrors(total: nat, start: int, direction: int, t: real)
    requires total > 0 && direction > 0
    ensures FrameFor(total, start, -direction, t).value == total - 1 - FrameFor(total, start, direction, t).value
  {
  }

  /** At t = 0 a forward animation shows its start frame, and at t = 1 it
      has advanced (total - 1) steps of |direction| frames. */
  lemma Endpoints(total: nat, start: int, direction: int)
    requires total > 0 && direction >= 0
    ensures FrameFor(total, start, direction, 0.0) == Ok(start % total)
    ensures FrameFor(total, start, direction, 1.0) == Ok((start + (total - 1) * direction) % total)
  {
    assert 0.0 * (total - 1) as real == 0.0;
    assert 1.0 * (total - 1) as real == (total - 1) as real;
  }

  /** From frame 0 in direction 1, eased time sweeps the frames in order,
      from the first at t = 0 to the last at t = 1. */
  lemma ForwardSweep(total: nat, t1: real, t2: real)
    requires total > 0 && 0.0 <= t1 <= t2 <= 1.0
    ensures FrameFor(total, 0, 1, t1).value <= FrameFor(total, 0, 1, t2).value
    ensures FrameFor(total, 0, 1, 1.0).value == total - 1
  {
    ForwardIsBase(total, t1);
    ForwardIsBase(total, t2);
    ForwardIsBase(total, 1.0);
    BaseIndexMonotone(total, t1, t2);
    BaseIndexAtOne(total);
  }

  /** From frame 0 in direction 1 the frame is the base index itself. */
  lemma ForwardIsBase(total: nat, t: real)
    requires total > 0 && 0.0 <= t <= 1.0
    ensures FrameFor(total, 0, 1, t) == Ok(BaseIndex(total, t))
  {
    BaseIndexInRange(total, t);
    DivModOf(0, total, BaseIndex(total, t));
  }

  /** Later eased time never gives a smaller base index. */
  lemma BaseIndexMonotone(total: nat, t1: real, t2: real)
    requires total > 0 && 0.0 <= t1 <= t2
    ensures BaseIndex(total, t1) <= BaseIndex(total, t2)
  {
    var n := (total - 1) as real;
    ScaleMonotone(t1, t2, n);
    ScaleMonotone(0.0, t1, n);
    assert 0.0 * n == 0.0;
    PyIntMonotone(t1 * n, t2 * n);
  }

  lemma BaseIndexAtOne(total: nat)
    requires total > 0
    ensures BaseIndex(total, 1.0) == total - 1
  {
    assert 1.0 * (total - 1) as real == (total - 1) as real;
  }

  /** Scaling by a non-negative number keeps the order. */
  lemma ScaleMonotone(a: real, b: real, n: real)
    requires a <= b && n >= 0.0
    ensures a * n <= b * n
  {
    assert b * n - a * n == (b - a) * n;
  }

  /** Truncation keeps the order of non-negative numbers. */
  lemma PyIntMonotone(x: real, y: real)
    requires 0.0 <= x <= y
    ensures PyInt(x) <= PyInt(y)
  {
  }

  /** `SpriteAnim`: the frame animation of one component. The direction is
      the `start_direction` it was made with, and the eased time is given. */
  class SpriteAnim {
    const component: SpritesheetComponent
    const animationName: string
    const startFrame: int
    const startDirection: int
    const frameCount: nat
    var currentFrame: int

    constructor(component: SpritesheetComponent, animationName: string, startFrame: int, startDirection: int, frameCount: nat)
      ensures this.component == component && this.animationName == animationName
      ensures this.startFrame == startFrame && this.startDirection == startDirection
      ensures this.frameCount == frameCount && currentFrame == startFrame
    {
      this.component := component;
      this.animationName := animationName;
      this.startFrame := startFrame;
      this.startDirection := startDirection;
      this.frameCount := frameCount;
      currentFrame := startFrame;
    }

    /** `update` after easing: the frame FrameFor picks is set on the
        component and recorded as the current frame; with no frames the
        modulo raises ZeroDivisionError before anything changes. */
    method Update(easedT: real) returns (r: Result<()>)
      modifies this, component
      ensures var f := FrameFor(frameCount, startFrame, startDirection, easedT);
              && (r.Ok? <==> f.Ok?)
              && (f.Ok? ==> currentFrame == f.value
                            && component.animName == Some(animationName) && component.frameIndex == Some(f.value))
              && (f.Err? ==> r == Err(ZeroDivisionError) && currentFrame == old(currentFrame)
                             && component.animName == old(component.animName)
                             && component.frameIndex == old(component.frameIndex))
    {
      var f := FrameFor(frameCount, startFrame, startDirection, easedT);
      if f.Err? {
        return Err(f.error);
      }
      component.SetFrame(animationName, f.value);
      currentFrame := f.value;
      return Ok(());
    }
  }

  /** `__post_init__` as written: it asks the component for `get_key`,
      which SpritesheetComponent does not define, so making any SpriteAnim
      raises AttributeError. */
  method NewSpriteAnimAsWritten(manager: SpritesheetManager, component: SpritesheetComponent, animationName: string,
                                startFrame: int, startDirection: int)
    returns (r: Result<SpriteAnim>)
    ensures r == Err(AttributeError)
  {
    var getKey: Result<()> := if "get_key" in ComponentAttributes then Ok(()) else Err(AttributeError);
    if getKey.Err? {
      return Err(getKey.error);
    }
    r := NewSpriteAnim(manager, component, animationName, startFrame, startDirection);
  }

  /** `__post_init__` with the component's key read from its reference: the
      frame count is the length of the animation's frame list in the cached
      sheet; a missing sheet or animation raises KeyError, and so does a raw
      surface, which is no key of the cache. */
  method NewSpriteAnim(manager: SpritesheetManager, component: SpritesheetComponent, animationName: string,
                       startFrame: int, startDirection: int)
    returns (r: Result<SpriteAnim>)
    ensures r.Ok? <==> component.reference.SheetKey? && manager.GetFrameCount(component.reference.key, animationName).Ok?
    ensures r.Err? ==> r.error == KeyError
    ensures r.Ok? ==> fresh(r.value) && r.value.component == component && r.value.animationName == animationName
                      && r.value.startFrame == startFrame && r.value.startDirection == startDirection
                      && r.value.currentFrame == startFrame
                      && r.value.frameCount == |manager.cached[component.reference.key].animationList[animationName]|
  {
    if component.reference.RawFrame? {
      return Err(KeyError);
    }
    var count := manager.GetFrameCount(component.reference.key, animationName);
    if count.Err? {
      return Err(count.error);
    }
    var anim := new SpriteAnim(component, animationName, startFrame, startDirection, count.value);
    return Ok(anim);
  }
}
