/** Frame-based sprite animation: an `Animation` steps through a list of frames, each shown for its
    own delay, and a `Sprite` keeps named animations and plays the current one. Times are TimeSpan
    ticks. */
module Sprites {
  import opened Errors
  import Xna

  /** A texture loaded from content; only its size is observed. */
  class Texture {
    const width: int
    const height: int

    constructor (width: int, height: int)
      ensures this.width == width && this.height == height
    {
      this.width := width;
      this.height := height;
    }
  }

  /** How long a frame stays on screen, and the asset it shows. */
  datatype AnimationFrame = AnimationFrame(delayTime: int, textureName: string)

  datatype AnimationDirection = Forward | Backward

  /** The frame index that follows `i` in an animation of `count` frames. Going forward past the
      last frame wraps to the first when repeating and stays on the last otherwise; going backward
      past the first frame wraps to the last or stays on the first. */
  function StepIndex(i: int, count: int, direction: AnimationDirection, repeat: bool): (j: int)
    ensures 0 <= i < count ==> 0 <= j < count
    ensures j == i || j == i + 1 || j == i - 1 || (repeat && (j == 0 || j == count - 1))
  {
    match direction
    case Forward =>
      if i + 1 >= count then (if repeat then 0 else i) else i + 1
    case Backward =>
      if i - 1 < 0 then (if repeat then count - 1 else i) else i - 1
  }

  /** The index after `n` steps. */
  function StepIndexN(i: int, count: int, direction: AnimationDirection, repeat: bool, n: nat): int
  {
    if n == 0 then i else StepIndex(StepIndexN(i, count, direction, repeat, n - 1), count, direction, repeat)
  }

  /** A repeating forward animation visits the frames cyclically. */
  lemma {:induction false} ForwardRepeatCycles(i: int, count: int, n: nat)
    requires 0 <= i < count
    ensures StepIndexN(i, count, Forward, true, n) == (i + n) % count
  {
    if n > 0 {
      ForwardRepeatCycles(i, count, n - 1);
      var q := (i + (n - 1)) % count;
      assert StepIndexN(i, count, Forward, true, n) == StepIndex(q, count, Forward, true);
      Xna.ModSucc(i + (n - 1), count);
      assert i + (n - 1) + 1 == i + n;
    }
  }

  /** A repeating backward animation visits the frames cyclically in reverse. */
  lemma {:induction false} BackwardRepeatCycles(i: int, count: int, n: nat)
    requires 0 <= i < count
    ensures StepIndexN(i, count, Backward, true, n) == (i - n) % count
  {
    if n > 0 {
      BackwardRepeatCycles(i, count, n - 1);
      Xna.ModPred(i - (n - 1), count);
    }
  }

  /** Without repeat, a forward animation runs to its last frame and holds it there. */
  lemma {:induction false} ForwardOnceHolds(i: int, count: int, n: nat)
    requires 0 <= i < count
    ensures StepIndexN(i, count, Forward, false, n) == if i + n < count then i + n else count - 1
  {
    if n > 0 {
      ForwardOnceHolds(i, count, n - 1);
    }
  }

  /** Without repeat, a backward animation runs to its first frame and holds it there. */
  lemma {:induction false} BackwardOnceHolds(i: int, count: int, n: nat)
    requires 0 <= i < count
    ensures StepIndexN(i, count, Backward, false, n) == if i - n >= 0 then i - n else 0
  {
    if n > 0 {
      BackwardOnceHolds(i, count, n - 1);
    }
  }

  /** One animation: parallel lists of frames and their loaded textures, the index of the frame on
      screen, and the time accumulated on it. */
  class Animation {
    var frames: seq<AnimationFrame>
    var frameTextures: seq<Texture>
    var currentFrameIndex: int
    var accumulator: int
    var running: bool
    var direction: AnimationDirection
    var repeat: bool
    var width: real
    var height: real

    /** Every frame has its texture at the same position. The index never goes negative, but it
        can point past the end after `RemoveFrame`. */
    ghost predicate Valid()
      reads this
    {
      |frames| == |frameTextures| && 0 <= currentFrameIndex
    }

    /** A running, forward, repeating animation with no frames yet. */
    constructor (width: real, height: real)
      ensures Valid()
      ensures frames == [] && frameTextures == [] && currentFrameIndex == 0 && accumulator == Xna.ZeroTicks
      ensures running && direction == Forward && repeat
      ensures this.width == width && this.height == height
    {
      frames := [];
      frameTextures := [];
      currentFrameIndex := 0;
      accumulator := Xna.ZeroTicks;
      running := true;
      direction := Forward;
      repeat := true;
      this.width := width;
      this.height := height;
    }

    /** The size of the texture on screen; the list indexer throws when the index is stale. */
    function SourceWidth(): Result<int>
      reads this
    {
      if 0 <= currentFrameIndex < |frameTextures| then Ok(frameTextures[currentFrameIndex].width)
      else Err(ArgumentOutOfRange("index"))
    }

    /** The height of the texture on screen, or the indexer's exception. */
    function SourceHeight(): Result<int>
      reads this
    {
      if 0 <= currentFrameIndex < |frameTextures| then Ok(frameTextures[currentFrameIndex].height)
      else Err(ArgumentOutOfRange("index"))
    }

    /** Where one `Update` by `elapsed` ticks leaves the animation, which stood on frame `index0`
        with `acc0` ticks accumulated, and what it returned: nothing happens while paused or
        without frames; otherwise at most one frame step, taken only when the accumulated time
        strictly exceeds the current frame's delay, which then pays for it with the delay of the
        frame it moved to. A stale index makes the frame lookup throw after the time was added. */
    ghost predicate Played(index0: int, acc0: int, elapsed: int, r: Outcome)
      reads this
    {
      (!running || |frames| == 0 ==>
        r == Pass && currentFrameIndex == index0 && accumulator == acc0) &&
      (running && |frames| > 0 && index0 >= |frames| ==>
        r == Fail(ArgumentOutOfRange("index")) && currentFrameIndex == index0 && accumulator == acc0 + elapsed) &&
      (running && |frames| > 0 && 0 <= index0 < |frames| ==>
        r == Pass && 0 <= currentFrameIndex < |frames| &&
        var acc := acc0 + elapsed;
        if acc > frames[index0].delayTime then
          currentFrameIndex == StepIndex(index0, |frames|, direction, repeat) &&
          accumulator == acc - frames[currentFrameIndex].delayTime
        else
          currentFrameIndex == index0 && accumulator == acc)
    }

    /** Advances the animation by `elapsed` ticks, as `Played` describes. */
    method Update(elapsed: int) returns (r: Outcome)
      requires Valid()
      modifies this`currentFrameIndex, this`accumulator
      ensures Valid()
      ensures Played(old(currentFrameIndex), old(accumulator), elapsed, r)
    {
      if !running || |frames| <= 0 {
        return Pass;
      }
      accumulator := accumulator + elapsed;
      if currentFrameIndex >= |frames| {
        return Fail(ArgumentOutOfRange("index"));
      }
      if accumulator > frames[currentFrameIndex].delayTime {
        UpdateAnimationFrame();
        accumulator := accumulator - frames[currentFrameIndex].delayTime;
      }
      r := Pass;
    }

    /** Rewinds to the first frame with a fresh timer; does nothing without frames. */
    method Reset()
      modifies this`currentFrameIndex, this`accumulator
      ensures |frames| > 0 ==> currentFrameIndex == 0 && accumulator == Xna.ZeroTicks
      ensures |frames| == 0 ==> currentFrameIndex == old(currentFrameIndex) && accumulator == old(accumulator)
    {
      if |frames| <= 0 {
        return;
      }
      currentFrameIndex := 0;
      accumulator := Xna.ZeroTicks;
    }

    /** Moves to the next frame in the animation's direction. */
    method UpdateAnimationFrame()
      modifies this`currentFrameIndex
      ensures currentFrameIndex == StepIndex(old(currentFrameIndex), |frames|, direction, repeat)
    {
      if direction == Forward {
        currentFrameIndex := currentFrameIndex + 1;
        if currentFrameIndex >= |frames| {
          if repeat {
            currentFrameIndex := 0;
          } else {
            currentFrameIndex := currentFrameIndex - 1;
          }
        }
      } else if direction == Backward {
        currentFrameIndex := currentFrameIndex - 1;
        if currentFrameIndex < 0 {
          if repeat {
            currentFrameIndex := |frames| - 1;
          } else {
            currentFrameIndex := currentFrameIndex + 1;
          }
        }
      }
    }

    /** Appends a frame together with the texture loaded for it. */
    method AddFrame(newFrame: AnimationFrame, texture: Texture)
      requires Valid()
      modifies this`frames, this`frameTextures
      ensures Valid()
      ensures frames == old(frames) + [newFrame] && frameTextures == old(frameTextures) + [texture]
    {
      frames := frames + [newFrame];
      frameTextures := frameTextures + [texture];
    }

    /** Removes the frame at `index` and its texture; an index outside the list throws and
        leaves both lists as they were. */
    method RemoveFrame(index: int) returns (r: Outcome)
      requires Valid()
      modifies this`frames, this`frameTextures
      ensures Valid()
      ensures r.Pass? <==> 0 <= index < old(|frames|)
      ensures r.Fail? ==>
        r.error == ArgumentOutOfRange("index") && frames == old(frames) && frameTextures == old(frameTextures)
      ensures r.Pass? ==>
        frames == old(frames[..index] + frames[index + 1..]) &&
        frameTextures == old(frameTextures[..index] + frameTextures[index + 1..])
    {
      if index < 0 || index >= |frames| {
        return Fail(ArgumentOutOfRange("index"));
      }
      frames := frames[..index] + frames[index + 1..];
      frameTextures := frameTextures[..index] + frameTextures[index + 1..];
      r := Pass;
    }
  }

  /** A set of named animations, one of which may be playing. */
  class Sprite {
    var animations: map<string, Animation>
    var currentAnimation: Animation?

    /** The current animation, when there is one, is registered under some name. */
    ghost predicate Valid()
      reads this
    {
      currentAnimation == null || currentAnimation in animations.Values
    }

    constructor ()
      ensures Valid() && animations == map[] && currentAnimation == null
    {
      animations := map[];
      currentAnimation := null;
    }

    /** The on-screen width of the current animation, or 0 with none. */
    function Width(): real
      reads this, currentAnimation
    {
      if currentAnimation != null then currentAnimation.width else 0.0
    }

    /** The on-screen height of the current animation, or 0 with none. */
    function Height(): real
      reads this, currentAnimation
    {
      if currentAnimation != null then currentAnimation.height else 0.0
    }

    /** The texture width of the current frame of the current animation; with no current
        animation the property dereferences null. */
    function SourceWidth(): Result<int>
      reads this, currentAnimation
    {
      if currentAnimation == null then Err(NullReference) else currentAnimation.SourceWidth()
    }

    /** The texture height of the current frame of the current animation, or the exception. */
    function SourceHeight(): Result<int>
      reads this, currentAnimation
    {
      if currentAnimation == null then Err(NullReference) else currentAnimation.SourceHeight()
    }

    /** Registers an animation; a name already in use throws, as Dictionary.Add does. */
    method AddAnimation(name: string, newAnimation: Animation) returns (r: Outcome)
      requires Valid()
      modifies this`animations
      ensures Valid()
      ensures r.Pass? <==> name !in old(animations)
      ensures r.Pass? ==> animations == old(animations)[name := newAnimation]
      ensures r.Fail? ==> r.error == ArgumentError("key") && animations == old(animations)
    {
      if name in animations {
        return Fail(ArgumentError("key"));
      }
      ghost var before := animations;
      animations := animations[name := newAnimation];
      if currentAnimation != null {
        ghost var k :| k in before && before[k] == currentAnimation;
        assert k in animations && animations[k] == currentAnimation;
      }
      r := Pass;
    }

    /** Unregisters an animation; an unknown name throws. If the removed animation is the one
        playing, nothing plays afterwards. */
    method RemoveAnimation(name: string) returns (r: Outcome)
      requires Valid()
      modifies this`animations, this`currentAnimation
      ensures Valid()
      ensures r.Pass? <==> name in old(animations)
      ensures r.Fail? ==>
        r.error == ArgumentError("name") && animations == old(animations) && currentAnimation == old(currentAnimation)
      ensures r.Pass? ==> animations == old(animations) - {name}
      ensures r.Pass? ==>
        currentAnimation == if old(currentAnimation) == old(animations)[name] then null else old(currentAnimation)
    {
      if name !in animations {
        return Fail(ArgumentError("name"));
      }
      var animToRemove := animations[name];
      if currentAnimation == animToRemove {
        currentAnimation := null;
      }
      ghost var before := animations;
      animations := animations - {name};
      if currentAnimation != null {
        ghost var k :| k in before && before[k] == currentAnimation;
        assert k != name && k in animations;
      }
      r := Pass;
    }

    /** Makes the animation registered under `name` the one playing; an unknown name throws. */
    method SetCurrentAnimation(name: string) returns (r: Outcome)
      requires Valid()
      modifies this`currentAnimation
      ensures Valid()
      ensures r.Pass? <==> name in animations
      ensures r.Pass? ==> currentAnimation == animations[name]
      ensures r.Fail? ==> r.error == ArgumentError("name") && currentAnimation == old(currentAnimation)
    {
      if name !in animations {
        return Fail(ArgumentError("name"));
      }
      currentAnimation := animations[name];
      assert currentAnimation in animations.Values;
      r := Pass;
    }

    /** Plays the current animation, if any: it moves as one `Animation.Update` moves it, and its
        outcome is the sprite's. Only its frame index and accumulated time change. */
    method Update(elapsed: int) returns (r: Outcome)
      requires currentAnimation != null ==> currentAnimation.Valid()
      modifies {currentAnimation}`currentFrameIndex, {currentAnimation}`accumulator
      ensures currentAnimation == null ==> r == Pass
      ensures currentAnimation != null ==>
        currentAnimation.Valid() &&
        currentAnimation.Played(old(currentAnimation.currentFrameIndex), old(currentAnimation.accumulator), elapsed, r)
    {
      if currentAnimation == null {
        return Pass;
      }
      r := currentAnimation.Update(elapsed);
    }
  }

  /** `Sprite.CreateStatic`: a sprite whose only animation, "defaultAnim", holds one frame of one
      second showing `textureName`, and plays it. The width and height are the ones given (0 for
      the overload without them). */
  method CreateStatic(textureName: string, texture: Texture, width: real, height: real)
    returns (s: Sprite)
    ensures fresh(s) && s.Valid()
    ensures s.animations.Keys == {"defaultAnim"}
    ensures s.currentAnimation == s.animations["defaultAnim"] && fresh(s.currentAnimation)
    ensures s.currentAnimation.Valid()
    ensures s.currentAnimation.frames == [AnimationFrame(Xna.TicksPerSecond, textureName)]
    ensures s.currentAnimation.frameTextures == [texture]
    ensures s.currentAnimation.currentFrameIndex == 0 && s.currentAnimation.running
    ensures s.Width() == width && s.Height() == height
  {
    s := new Sprite();
    var defaultAnim := new Animation(width, height);
    defaultAnim.AddFrame(AnimationFrame(Xna.TicksPerSecond, textureName), texture);
    var added := s.AddAnimation("defaultAnim", defaultAnim);
    assert added.Pass?;
    var selected := s.SetCurrentAnimation("defaultAnim");
    assert selected.Pass?;
  }
}
