/** Advancing an animation by one frame: the sprite-sheet cell shown, the
    wrap-around of the frame counter and the completion report. */
module Frames {

  import opened States
  import opened Resources
  import opened PyInt
  import opened Qt

  /** The cell of the sprite sheet that holds frame `frame`: sheets are laid
      out row by row, `spriteColumn` frames to a row (Python's % and //). */
  function CellRect(frame: int, props: SpriteProperties): (r: Rect)
    requires props.spriteColumn != 0
    ensures r.w == props.frameWidth && r.h == props.frameHeight
  {
    Rect(FloorMod(frame, props.spriteColumn) * props.frameWidth,
         FloorDiv(frame, props.spriteColumn) * props.frameHeight,
         props.frameWidth, props.frameHeight)
  }

  /** For a frame index and a positive column count, the cell sits in column
      frame % columns and row frame // columns. */
  lemma CellOfFrame(frame: int, props: SpriteProperties)
    requires frame >= 0 && props.spriteColumn > 0
    ensures var r := CellRect(frame, props);
      var col, row := frame % props.spriteColumn, frame / props.spriteColumn;
      0 <= col < props.spriteColumn && 0 <= row && frame == row * props.spriteColumn + col &&
      r.x == col * props.frameWidth && r.y == row * props.frameHeight
  {
  }

  /** With non-empty frames, different frames are cut from different cells. */
  lemma CellsDistinct(f: int, g: int, props: SpriteProperties)
    requires props.spriteColumn > 0 && props.frameWidth > 0 && props.frameHeight > 0
    requires 0 <= f && 0 <= g && f != g
    ensures CellRect(f, props) != CellRect(g, props)
  {
    var c, w, h := props.spriteColumn, props.frameWidth, props.frameHeight;
    if CellRect(f, props) == CellRect(g, props) {
      CellOfFrame(f, props);
      CellOfFrame(g, props);
      MulCancel(f % c, g % c, w);
      MulCancel(f / c, g / c, h);
      assert false;
    }
  }

  lemma MulCancel(a: int, b: int, k: int)
    requires k > 0 && a * k == b * k
    ensures a == b
  {
    if a < b {
      MulLess(a, b, k);
    } else if b < a {
      MulLess(b, a, k);
    }
  }

  lemma MulLess(a: int, b: int, k: int)
    requires k > 0 && a < b
    ensures a * k < b * k
  {
    assert b * k - a * k == (b - a) * k;
  }

  /** The counter after one step: one more, back to 0 once it reaches the
      frame count. */
  function NextFrame(current: int, count: int): (next: int)
    ensures next == 0 || next == current + 1
    ensures current + 1 >= count ==> next == 0
    ensures FrameInRange(AnimationData("", count, current)) ==> FrameInRange(AnimationData("", count, next))
  {
    if current + 1 >= count then 0 else current + 1
  }

  /** The registry after advancing the animation under `k`: only that
      entry's counter moves. */
  function Advanced(anims: map<Key, AnimationData>, k: Key): (r: map<Key, AnimationData>)
    requires k in anims
    ensures r.Keys == anims.Keys
    ensures r[k] == anims[k].(currentFrame := NextFrame(anims[k].currentFrame, anims[k].frameCount))
    ensures forall k' :: k' in anims && k' != k ==> r[k'] == anims[k']
  {
    anims[k := anims[k].(currentFrame := NextFrame(anims[k].currentFrame, anims[k].frameCount))]
  }

  /** A counter in range stays in range: in [0, frame_count) when there are
      frames, at 0 when there are none. */
  lemma AdvancePreservesRange(anims: map<Key, AnimationData>, k: Key)
    requires k in anims && FramesInRange(anims)
    ensures FramesInRange(Advanced(anims, k))
    ensures anims[k].frameCount >= 1 ==> 0 <= Advanced(anims, k)[k].currentFrame < anims[k].frameCount
  {
    var r := Advanced(anims, k);
    forall k' | k' in r ensures FrameInRange(r[k']) {
      if k' == k {
        assert FrameInRange(anims[k]);
      } else {
        assert FrameInRange(anims[k']);
      }
    }
  }

  /** An animation without frames reports completion on every call. */
  lemma EmptyAnimationAlwaysCompletes(current: int, count: int)
    requires count <= 0 && current >= 0
    ensures NextFrame(current, count) == 0
  {
  }

  /** The completion reports of `n` consecutive advances from `current`. */
  function Run(current: int, count: int, n: nat): (flags: seq<bool>)
    ensures |flags| == n
    decreases n
  {
    if n == 0 then [] else
      var next := NextFrame(current, count);
      [next == 0] + Run(next, count, n - 1)
  }

  /** The counter after `n` consecutive advances from `current`. */
  function After(current: int, count: int, n: nat): int
    decreases n
  {
    if n == 0 then current else After(NextFrame(current, count), count, n - 1)
  }

  /** `n` reports of no completion. */
  function Falses(n: nat): seq<bool>
  {
    seq(n, _ => false)
  }

  /** From frame k of an N-frame animation, the remaining N - k advances
      report no completion until the last, which wraps to 0. */
  lemma {:induction false} RunToEnd(k: int, count: int)
    requires 0 <= k < count
    ensures Run(k, count, count - k) == Falses(count - k - 1) + [true]
    ensures After(k, count, count - k) == 0
    decreases count - k
  {
    if k == count - 1 {
      assert Run(0, count, 0) == [];
    } else {
      RunToEnd(k + 1, count);
      assert NextFrame(k, count) == k + 1;
      assert Falses(count - k - 1) == [false] + Falses(count - (k + 1) - 1);
    }
  }

  /** A full loop: N advances of an N-frame animation from frame 0 report
      false N - 1 times, then true, and end at frame 0. */
  lemma FullLoop(count: int)
    requires count >= 1
    ensures Run(0, count, count) == Falses(count - 1) + [true]
    ensures After(0, count, count) == 0
  {
    RunToEnd(0, count);
  }

  class FrameEngine {
    const reg: ResourceRegistry
    const props: SpriteProperties

    /** The sprite-sheet paths and cells copied onto the label, oldest first. */
    ghost var shown: seq<(string, Rect)>

    constructor (reg: ResourceRegistry, props: SpriteProperties)
      ensures this.reg == reg && this.props == props && shown == []
    {
      this.reg := reg;
      this.props := props;
      shown := [];
    }

    /** advance(state, direction): shows the current frame's cell, steps the
        counter and reports whether it wrapped to 0. The animation must exist
        (the source indexes the map directly) and the column count must not
        be 0 (the source divides by it). */
    method Advance(state: State, direction: Direction := None) returns (completed: bool)
      requires (state, direction) in reg.animations
      requires props.spriteColumn != 0
      modifies reg`animations, this`shown
      ensures reg.animations == Advanced(old(reg.animations), (state, direction))
      ensures completed <==> reg.animations[(state, direction)].currentFrame == 0
      ensures shown == old(shown) + [(old(reg.animations[(state, direction)]).spritePath,
                                      CellRect(old(reg.animations[(state, direction)]).currentFrame, props))]
    {
      var frameData := reg.animations[(state, direction)];
      var rect := CellRect(frameData.currentFrame, props);
      shown := shown + [(frameData.spritePath, rect)];
      var next := frameData.currentFrame + 1;
      if next >= frameData.frameCount {
        next := 0;
      }
      reg.animations := reg.animations[(state, direction) := frameData.(currentFrame := next)];
      completed := next == 0;
    }
  }
}
