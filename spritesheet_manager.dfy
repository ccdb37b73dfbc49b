/** The spritesheet cache (frontend/visual/asset_management/
    spritesheet_manager.py): a sheet is cut into equal frames row by row,
    animations name lists of frame numbers, and one manager keeps each sheet
    under its key so that it is loaded once. */
module SpritesheetManagers {
  import opened Wrappers
  import opened SpriteRegistries

  /** A frame cut from a sheet: the rectangle of the frame size whose top
      left corner is (x, y), scaled to width by height. The pixels are not
      modelled. */
  datatype Frame = Frame(x: int, y: int, width: int, height: int)

  // ----- cutting a sheet -----

  /** Python's `range(start, stop, step)` for a non-zero step. */
  function Range(start: int, stop: int, step: int): seq<int>
    requires step != 0
    decreases if step > 0 then stop - start else start - stop
  {
    if (step > 0 && start >= stop) || (step < 0 && start <= stop) then []
    else [start] + Range(start + step, stop, step)
  }

  /** A rising range holds start, start + step, ... and stops before stop:
      ceil((stop - start) / step) numbers. */
  lemma {:induction false} RangeMeaning(start: int, stop: int, step: int)
    requires step > 0
    decreases stop - start
    ensures |Range(start, stop, step)| == if start >= stop then 0 else (stop - start + step - 1) / step
    ensures forall i | 0 <= i < |Range(start, stop, step)| :: Range(start, stop, step)[i] == start + i * step
  {
    var r := Range(start, stop, step);
    if start < stop {
      var rest := Range(start + step, stop, step);
      RangeMeaning(start + step, stop, step);
      assert r == [start] + rest;
      forall i | 0 <= i < |r|
        ensures r[i] == start + i * step
      {
        if i > 0 {
          assert r[i] == rest[i - 1];
          assert (i - 1) * step + step == i * step;
        }
      }
      var len := stop - start + step - 1;
      if start + step >= stop {
        DivModOf(1, step, len - step);
      } else {
        var q := (len - step) / step;
        assert len - step == q * step + (len - step) % step;
        DivModOf(q + 1, step, (len - step) % step);
        assert (q + 1) * step + (len - step) % step == len;
      }
    }
  }

  /** Dividing a * n + c by n, for 0 <= c < n, gives a remainder c. */
  lemma DivModOf(a: int, n: int, c: int)
    requires 0 <= c < n
    ensures (a * n + c) / n == a && (a * n + c) % n == c
  {
    var x := a * n + c;
    var q := x / n;
    var r := x % n;
    assert x == q * n + r;
    var d := a - q;
    assert d * n == r - c by {
      assert a * n - q * n == (a - q) * n;
    }
    if d >= 1 {
      MulAtLeast(d, n);
    } else if d <= -1 {
      MulAtLeast(-d, n);
    }
  }

  lemma MulAtLeast(k: int, n: int)
    requires k >= 1 && n >= 0
    ensures k * n >= n
  {
    assert k * n == (k - 1) * n + n;
    assert (k - 1) * n >= 0;
  }

  /** The frames of one row of the sheet, left to right. */
  function Row(y: int, xs: seq<int>, out: (int, int)): (r: seq<Frame>)
    ensures |r| == |xs| && forall c | 0 <= c < |xs| :: r[c] == Frame(xs[c], y, out.0, out.1)
  {
    seq(|xs|, c requires 0 <= c < |xs| => Frame(xs[c], y, out.0, out.1))
  }

  /** The frames of the rows ys, top to bottom. */
  function Grid(ys: seq<int>, xs: seq<int>, out: (int, int)): seq<Frame>
  {
    if ys == [] then [] else Grid(ys[..|ys| - 1], xs, out) + Row(ys[|ys| - 1], xs, out)
  }

  /** Frame k of a grid is in column k mod |xs| of row k div |xs|. */
  lemma {:induction false} GridIndex(ys: seq<int>, xs: seq<int>, out: (int, int))
    requires xs != []
    ensures |Grid(ys, xs, out)| == |ys| * |xs|
    ensures forall k | 0 <= k < |Grid(ys, xs, out)| ::
              0 <= k / |xs| < |ys| && Grid(ys, xs, out)[k] == Frame(xs[k % |xs|], ys[k / |xs|], out.0, out.1)
  {
    if ys != [] {
      var front := ys[..|ys| - 1];
      var n := |xs|;
      GridIndex(front, xs, out);
      assert |ys| * n == |front| * n + n;
      forall k | 0 <= k < |Grid(ys, xs, out)|
        ensures 0 <= k / n < |ys| && Grid(ys, xs, out)[k] == Frame(xs[k % n], ys[k / n], out.0, out.1)
      {
        GridStep(ys, xs, out, k);
      }
    }
  }

  /** One frame of a grid, given the frames of the grid without its last row. */
  lemma GridStep(ys: seq<int>, xs: seq<int>, out: (int, int), k: int)
    requires ys != [] && xs != []
    requires var front := Grid(ys[..|ys| - 1], xs, out);
             |front| == (|ys| - 1) * |xs|
             && forall k | 0 <= k < |front| ::
                  0 <= k / |xs| < |ys| - 1 && front[k] == Frame(xs[k % |xs|], ys[..|ys| - 1][k / |xs|], out.0, out.1)
    requires 0 <= k < |Grid(ys[..|ys| - 1], xs, out)| + |xs|
    ensures 0 <= k / |xs| < |ys| && Grid(ys, xs, out)[k] == Frame(xs[k % |xs|], ys[k / |xs|], out.0, out.1)
  {
    var front := ys[..|ys| - 1];
    var before := Grid(front, xs, out);
    var n := |xs|;
    var g := Grid(ys, xs, out);
    assert g == before + Row(ys[|ys| - 1], xs, out);
    if k < |before| {
      assert g[k] == before[k];
    } else {
      DivModOf(|front|, n, k - |before|);
    }
  }

  /** An index below rows * n lies in a row below rows. */
  lemma DivBelow(k: int, n: int, rows: int)
    requires 0 <= k < rows * n && n > 0
    ensures 0 <= k / n < rows
  {
    var q := k / n;
    assert k == q * n + k % n;
    if q >= rows {
      NonNegProduct(q - rows, n);
    }
  }

  /** A number at least n holds n at least once. */
  lemma DivAtLeastOne(x: int, n: int)
    requires x >= n > 0
    ensures x / n >= 1
  {
    var q := x / n;
    assert x == q * n + x % n;
    if q <= 0 {
      NonNegProduct(-q, n);
    }
  }

  lemma NonNegProduct(a: int, b: int)
    requires a >= 0 && b >= 0
    ensures a * b >= 0
  {
  }

  /** `load_spritesheet` without the image: for each y of `range(0, h,
      frame_h)` and each x of `range(0, w, frame_w)`, the frame at (x, y);
      `range` with a zero step raises ValueError (for the width step, only
      once a row is reached). */
  function Slices(width: int, height: int, size: (int, int), out: (int, int)): Result<seq<Frame>>
  {
    if size.1 == 0 then Err(ValueError)
    else if Range(0, height, size.1) == [] then Ok([])
    else if size.0 == 0 then Err(ValueError)
    else Ok(Grid(Range(0, height, size.1), Range(0, width, size.0), out))
  }

  /** With positive frame sizes a sheet is cut into ceil(w / frame_w) columns
      by ceil(h / frame_h) rows, and frame k is the rectangle in column
      k mod columns and row k div columns. */
  lemma SlicesLayout(width: int, height: int, size: (int, int), out: (int, int))
    requires size.0 > 0 && size.1 > 0 && width > 0 && height > 0
    ensures Slices(width, height, size, out).Ok?
    ensures var frames := Slices(width, height, size, out).value;
            var cols := (width + size.0 - 1) / size.0;
            var rows := (height + size.1 - 1) / size.1;
            cols > 0 && |frames| == rows * cols
            && forall k | 0 <= k < |frames| ::
                 frames[k] == Frame((k % cols) * size.0, (k / cols) * size.1, out.0, out.1)
  {
    var xs := Range(0, width, size.0);
    var ys := Range(0, height, size.1);
    RangeMeaning(0, width, size.0);
    RangeMeaning(0, height, size.1);
    DivAtLeastOne(height + size.1 - 1, size.1);
    DivAtLeastOne(width + size.0 - 1, size.0);
    GridIndex(ys, xs, out);
    var frames := Grid(ys, xs, out);
    var cols := |xs|;
    forall k | 0 <= k < |frames|
      ensures frames[k] == Frame((k % cols) * size.0, (k / cols) * size.1, out.0, out.1)
    {
      DivBelow(k, cols, |ys|);
    }
  }

  /** The size each cut frame is scaled to: `int()` of the frame size
      times the scale, unless the scale is (1.0, 1.0). */
  function ScaledSize(size: (int, int), scale: (real, real)): (int, int)
  {
    if scale != DefaultScale
    then (PyInt(size.0 as real * scale.0), PyInt(size.1 as real * scale.1))
    else size
  }

  // ----- one sheet -----

  /** `CachedSpritesheet`: the metadata it was made from and, once loaded,
      its frames. */
  class CachedSpritesheet {
    const key: string
    const spriteSize: (int, int)
    const animationList: map<string, seq<int>>
    const frameRate: real
    const scale: (real, real)
    var frames: seq<Frame>

    constructor(key: string, spriteSize: (int, int), animationList: map<string, seq<int>>, frameRate: real, scale: (real, real))
      ensures this.key == key && this.spriteSize == spriteSize && this.animationList == animationList
      ensures this.frameRate == frameRate && this.scale == scale && frames == []
    {
      this.key := key;
      this.spriteSize := spriteSize;
      this.animationList := animationList;
      this.frameRate := frameRate;
      this.scale := scale;
      frames := [];
    }

    /** `load_spritesheet` for a sheet image of width by height pixels: the
        frames are cut as Slices says and replace the old ones; a zero step
        raises ValueError and leaves the frames as they were. */
    method LoadSpritesheet(width: int, height: int) returns (r: Result<()>)
      modifies this
      ensures var s := Slices(width, height, spriteSize, ScaledSize(spriteSize, scale));
              (r.Ok? <==> s.Ok?) && (s.Ok? ==> frames == s.value)
              && (s.Err? ==> r == Err(ValueError) && frames == old(frames))
    {
      var (frameW, frameH) := spriteSize;
      if frameH == 0 {
        return Err(ValueError);
      }
      var ys := Range(0, height, frameH);
      var out := ScaledSize(spriteSize, scale);
      var cut: seq<Frame> := [];
      var i := 0;
      while i < |ys|
        invariant 0 <= i <= |ys|
        invariant frameW != 0 ==> cut == Grid(ys[..i], Range(0, width, frameW), out)
        invariant frameW == 0 ==> i == 0 && cut == []
      {
        if frameW == 0 {
          return Err(ValueError);
        }
        var xs := Range(0, width, frameW);
        var j := 0;
        while j < |xs|
          invariant 0 <= j <= |xs|
          invariant cut == Grid(ys[..i], xs, out) + Row(ys[i], xs[..j], out)
        {
          cut := cut + [Frame(xs[j], ys[i], out.0, out.1)];
          j := j + 1;
        }
        assert ys[..i + 1][..i] == ys[..i] && xs[..j] == xs;
        i := i + 1;
      }
      assert ys[..i] == ys;
      frames := cut;
      return Ok(());
    }

    /** `get_sprite_by_abs_index`: ValueError before any frame is loaded;
        otherwise Python indexing, from the end for a negative index, and
        IndexError out of range. */
    function GetSpriteByAbsIndex(absIndex: int): (r: Result<Frame>)
      reads this
      ensures frames == [] ==> r == Err(ValueError)
      ensures frames != [] ==> (r.Ok? <==> -|frames| <= absIndex < |frames|)
      ensures frames != [] && r.Err? ==> r.error == IndexError
      ensures r.Ok? && absIndex >= 0 ==> r.value == frames[absIndex]
      ensures r.Ok? && absIndex < 0 ==> r.value == frames[|frames| + absIndex]
    {
      if frames == [] then Err(ValueError)
      else match PyIndex(|frames|, absIndex)
        case None => Err(IndexError)
        case Some(k) => Ok(frames[k])
    }

    /** `get_sprite_by_name`: an unknown animation raises ValueError and an
        animation with no frames raises ZeroDivisionError; otherwise the
        frame index wraps around the animation's frame list (see
        SpriteByNameWraps). */
    function GetSpriteByName(animName: string, frameIndex: int): (r: Result<Frame>)
      reads this
      ensures animName !in animationList ==> r == Err(ValueError)
      ensures animName in animationList && animationList[animName] == [] ==> r == Err(ZeroDivisionError)
    {
      if animName !in animationList then Err(ValueError)
      else
        var indices := animationList[animName];
        if indices == [] then Err(ZeroDivisionError)
        else GetSpriteByAbsIndex(indices[frameIndex % |indices|])
    }
  }

  /** A frame index picks the animation's frame list entry at that position,
      counting from the end when negative, and the same index plus the
      list's length picks the same frame. */
  lemma SpriteByNameWraps(sheet: CachedSpritesheet, animName: string, frameIndex: int)
    requires animName in sheet.animationList && sheet.animationList[animName] != []
    ensures var indices := sheet.animationList[animName];
            && sheet.GetSpriteByName(animName, frameIndex + |indices|) == sheet.GetSpriteByName(animName, frameIndex)
            && (0 <= frameIndex < |indices| ==>
                  sheet.GetSpriteByName(animName, frameIndex) == sheet.GetSpriteByAbsIndex(indices[frameIndex]))
            && (-|indices| <= frameIndex < 0 ==>
                  sheet.GetSpriteByName(animName, frameIndex) == sheet.GetSpriteByAbsIndex(indices[|indices| + frameIndex]))
  {
    var n := |sheet.animationList[animName]|;
    DivModOf(1, n, (frameIndex + n) % n);
    if 0 <= frameIndex < n {
      DivModOf(0, n, frameIndex);
    } else if -n <= frameIndex < 0 {
      DivModOf(-1, n, n + frameIndex);
    }
    var q := frameIndex / n;
    assert frameIndex == q * n + frameIndex % n;
    DivModOf(q + 1, n, frameIndex % n);
    assert (q + 1) * n + frameIndex % n == frameIndex + n;
  }

  // ----- the manager -----

  /** `SpritesheetManager`. Its class-level dict is one shared cache; the
      model gives it one instance. */
  class SpritesheetManager {
    var cached: map<string, CachedSpritesheet>

    /** Each sheet is cached under its own key. */
    ghost predicate Valid()
      reads this
    {
      forall k | k in cached :: cached[k].key == k
    }

    constructor()
      ensures cached == map[] && Valid()
    {
      cached := map[];
    }

    /** `register_spritesheet` for a sheet image of width by height pixels:
        a known key returns the cached sheet without loading anything;
        otherwise a new sheet is made from the metadata, loaded (an error
        leaves the cache as it was) and cached under its key. */
    method RegisterSpritesheet(metadata: SpritesheetMetadata, width: int, height: int) returns (r: Result<CachedSpritesheet>)
      requires Valid()
      modifies this
      ensures Valid()
      ensures metadata.key in old(cached) ==> r == Ok(old(cached)[metadata.key]) && cached == old(cached)
      ensures metadata.key !in old(cached) ==>
                var s := Slices(width, height, metadata.spriteSize, ScaledSize(metadata.spriteSize, metadata.scale));
                && (r.Ok? <==> s.Ok?)
                && (r.Err? ==> r == Err(ValueError) && cached == old(cached))
                && (r.Ok? ==> fresh(r.value) && cached == old(cached)[metadata.key := r.value]
                              && r.value.frames == s.value && Describes(r.value, metadata))
      ensures r.Ok? ==> GetSpritesheet(metadata.key) == r
    {
      if metadata.key in cached {
        return Ok(cached[metadata.key]);
      }
      var sheet := new CachedSpritesheet(metadata.key, metadata.spriteSize, metadata.animationList,
                                         metadata.frameRate, metadata.scale);
      var loaded := sheet.LoadSpritesheet(width, height);
      if loaded.Err? {
        return Err(loaded.error);
      }
      cached := cached[metadata.key := sheet];
      return Ok(sheet);
    }

    /** `get_spritesheet`: a sheet object is always truthy, so only a
        missing key raises KeyError. */
    function GetSpritesheet(key: string): (r: Result<CachedSpritesheet>)
      reads this
      ensures r.Ok? <==> key in cached
      ensures r.Ok? ==> r.value == cached[key]
      ensures r.Err? ==> r.error == KeyError
    {
      if key in cached then Ok(cached[key]) else Err(KeyError)
    }

    /** `unregister_spritesheet`: drops the key if present. */
    method UnregisterSpritesheet(key: string)
      requires Valid()
      modifies this
      ensures Valid() && cached == old(cached) - {key}
      ensures GetSpritesheet(key) == Err(KeyError)
    {
      if key in cached {
        cached := cached - {key};
      }
    }

    /** `clear`: empties the cache. */
    method Clear()
      modifies this
      ensures Valid() && cached == map[]
    {
      cached := map[];
    }

    /** `get_frame_count`: the length of the animation's frame list; a
        missing sheet or animation raises KeyError (the TypeError branch
        cannot be reached, a found sheet being truthy). */
    function GetFrameCount(key: string, animName: string): (r: Result<nat>)
      reads this
      ensures r.Ok? <==> key in cached && animName in cached[key].animationList
      ensures r.Ok? ==> r.value == |cached[key].animationList[animName]|
      ensures r.Err? ==> r.error == KeyError
    {
      match GetSpritesheet(key)
      case Err(e) => Err(e)
      case Ok(sheet) =>
        if animName in sheet.animationList then Ok(|sheet.animationList[animName]|) else Err(KeyError)
    }
  }

  /** A sheet carries the metadata it was made from. */
  predicate Describes(sheet: CachedSpritesheet, m: SpritesheetMetadata)
  {
    sheet.key == m.key && sheet.spriteSize == m.spriteSize && sheet.animationList == m.animationList
    && sheet.frameRate == m.frameRate && sheet.scale == m.scale
  }

  /** Registering one key twice loads the sheet once: the second call
      returns the first sheet whatever image it is given. */
  method RegisterTwice(metadata: SpritesheetMetadata, width: int, height: int, otherWidth: int, otherHeight: int)
    returns (first: Result<CachedSpritesheet>, second: Result<CachedSpritesheet>)
    ensures first.Ok? <==> Slices(width, height, metadata.spriteSize, ScaledSize(metadata.spriteSize, metadata.scale)).Ok?
    ensures first.Ok? ==> second == first
  {
    var manager := new SpritesheetManager();
    first := manager.RegisterSpritesheet(metadata, width, height);
    second := manager.RegisterSpritesheet(metadata, otherWidth, otherHeight);
  }
}
