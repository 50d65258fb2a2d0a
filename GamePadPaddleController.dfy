/** The game-pad paddle controller: each frame it advances the fire timers, moves and spins the
    paddle, fires bullets when the right stick is pushed far enough and a gravity ball when X is
    pressed, and keeps the pad vibrating for half a second after a gravity ball is fired. The pad
    state arrives as parameters and the vibration commands leave as a result. */
module GamePad {
  import opened Errors
  import Xna
  import opened Actors
  import opened Paddles

  /** `TimeSpan.FromSeconds(0.5f)` */
  const VibrationInterval: int := Xna.MillisecondsToTicks(500)
  /** The single-precision value of the literal `0.3f` the stick magnitude is compared with. */
  const AimThreshold: real := 0.300000011920928955078125
  /** From this level on the controller fires sprays instead of single bullets. */
  const SprayLevel: int := 20

  /** The vibration latch: whether the pad is vibrating and for how long it has been. */
  datatype Latch = Latch(vibrateNow: bool, timer: int)

  /** What one frame does to the latch, and the `SetVibration` strengths it sends, in order. */
  datatype LatchOut = LatchOut(latch: Latch, vibrations: seq<real>)

  /** The timer runs only while vibrating, and stays below the interval. */
  predicate LatchValid(l: Latch)
  {
    0 <= l.timer < VibrationInterval && (!l.vibrateNow ==> l.timer == 0)
  }

  /** One frame of the latch, given whether X is pressed and whether the gravity ball it fired
      went out. A shot switches the vibration on at strength 0.5 (sent again every frame X is held
      while it lasts); once it has lasted the interval it is switched off with strength 0. */
  function LatchStep(l: Latch, xPressed: bool, fired: bool, elapsed: int): (o: LatchOut)
    ensures o.latch.vibrateNow ==> l.vibrateNow || (xPressed && fired)
    ensures (|o.vibrations| > 0 && o.vibrations[0] == 0.5) <==> xPressed && (l.vibrateNow || fired)
    ensures (|o.vibrations| > 0 && o.vibrations[|o.vibrations| - 1] == 0.0) <==>
              (l.vibrateNow || (xPressed && fired)) && l.timer + elapsed >= VibrationInterval
    ensures !(l.vibrateNow || (xPressed && fired)) ==> o.latch == l
    ensures (l.vibrateNow || (xPressed && fired)) && l.timer + elapsed < VibrationInterval ==>
              o.latch == Latch(true, l.timer + elapsed)
    ensures (l.vibrateNow || (xPressed && fired)) && l.timer + elapsed >= VibrationInterval ==>
              o.latch == Latch(false, 0)
  {
    var on := l.vibrateNow || (xPressed && fired);
    var sent: seq<real> := if xPressed && on then [0.5] else [];
    if !on then LatchOut(l, sent)
    else if l.timer + elapsed >= VibrationInterval then LatchOut(Latch(false, 0), sent + [0.0])
    else LatchOut(Latch(true, l.timer + elapsed), sent)
  }

  /** A frame never breaks the latch's invariant, as long as time does not run backwards. */
  lemma LatchStepValid(l: Latch, xPressed: bool, fired: bool, elapsed: int)
    requires LatchValid(l) && elapsed >= 0
    ensures LatchValid(LatchStep(l, xPressed, fired, elapsed).latch)
  {
  }

  /** A frame of pad input: X pressed, the gravity ball fired, and the elapsed ticks. */
  datatype PadFrame = PadFrame(xPressed: bool, fired: bool, elapsed: int)

  function LatchRun(l: Latch, frames: seq<PadFrame>): Latch
  {
    if frames == [] then l
    else
      var f := frames[|frames| - 1];
      LatchStep(LatchRun(l, frames[..|frames| - 1]), f.xPressed, f.fired, f.elapsed).latch
  }

  function Elapsed(frames: seq<PadFrame>): int
  {
    if frames == [] then 0 else Elapsed(frames[..|frames| - 1]) + frames[|frames| - 1].elapsed
  }

  /** No frame fires a gravity ball and time never runs backwards. */
  predicate Quiet(frames: seq<PadFrame>)
  {
    forall k :: 0 <= k < |frames| ==> !(frames[k].xPressed && frames[k].fired) && frames[k].elapsed >= 0
  }

  /** Without new gravity balls the latch stays valid, and while it vibrates its timer is the
      starting timer plus the time that has passed. */
  lemma {:induction false} QuietRun(l: Latch, frames: seq<PadFrame>)
    requires LatchValid(l) && Quiet(frames)
    ensures LatchValid(LatchRun(l, frames))
    ensures LatchRun(l, frames).vibrateNow ==> l.vibrateNow && LatchRun(l, frames).timer == l.timer + Elapsed(frames)
  {
    if frames != [] {
      var front := frames[..|frames| - 1];
      assert Quiet(front) by {
        forall k | 0 <= k < |front|
          ensures !(front[k].xPressed && front[k].fired) && front[k].elapsed >= 0
        {
          assert front[k] == frames[k];
        }
      }
      QuietRun(l, front);
      var f := frames[|frames| - 1];
      LatchStepValid(LatchRun(l, front), f.xPressed, f.fired, f.elapsed);
    }
  }

  /** The vibration stops once half a second has passed without a new gravity ball. */
  lemma QuietVibrationEnds(l: Latch, frames: seq<PadFrame>)
    requires LatchValid(l) && Quiet(frames) && Elapsed(frames) >= VibrationInterval
    ensures !LatchRun(l, frames).vibrateNow
  {
    QuietRun(l, frames);
  }

  /** The bullets one aimed frame fires: one below the spray level, three from it on. */
  function BulletNames(level: int): (names: seq<string>)
    ensures |names| == 1 || |names| == 3
    ensures forall i :: 0 <= i < |names| ==> names[i] == BulletTemplate
  {
    if level < SprayLevel then [BulletTemplate] else [BulletTemplate, BulletTemplate, BulletTemplate]
  }

  /** GamePadPaddleController, built on the paddle controller it derives from. */
  class GamePadPaddleController {
    const paddle: PaddleController
    var vibrationTimer: int
    var vibrateNow: bool
    /** The level the player has reached (the `Level` property). */
    var level: int

    function LatchState(): Latch
      reads this`vibrateNow, this`vibrationTimer
    {
      Latch(vibrateNow, vibrationTimer)
    }

    /** A controller at level 1, not vibrating, with both fire timers ready. */
    constructor (actorManager: ActorManager)
      ensures fresh(paddle) && paddle.actorManager == actorManager && paddle.parentActor == null
      ensures paddle.gravityBallShootTimer == GravityBallShootInterval && paddle.bulletShootTimer == BulletShootInterval
      ensures LatchState() == Latch(false, 0) && LatchValid(LatchState()) && level == 1
    {
      paddle := new PaddleController(actorManager);
      vibrationTimer := 0;
      vibrateNow := false;
      level := 1;
    }

    /** The right stick: a single bullet below the spray level, a spray from it on. */
    method Aim() returns (r: Outcome)
      modifies paddle`bulletShootTimer, paddle.actorManager`pending
      ensures paddle.bulletShootTimer == TimerAfter(old(paddle.bulletShootTimer), BulletShootInterval, Attempt)
      ensures paddle.gravityBallShootTimer == old(paddle.gravityBallShootTimer)
      ensures old(Ready(paddle.bulletShootTimer, BulletShootInterval)) ==>
        (r.Pass? <==> old(paddle.actorManager.Instantiable(BulletTemplate)) && paddle.ParentHasPhysics())
      ensures !old(Ready(paddle.bulletShootTimer, BulletShootInterval)) ==>
        r.Pass? && paddle.actorManager.pending == old(paddle.actorManager.pending)
      ensures old(Ready(paddle.bulletShootTimer, BulletShootInterval)) && r.Pass? ==>
        ExtendsWithClones(paddle.actorManager.pending, old(paddle.actorManager.pending), BulletNames(level),
                          paddle.actorManager.templates)
      ensures old(paddle.actorManager.Valid()) ==> paddle.actorManager.Valid()
    {
      if level < SprayLevel {
        r := paddle.ShootSingleBullet();
      } else {
        r := paddle.ShootBulletSpray();
      }
    }

    /** One frame. Timers advance first; moving and spinning push the parent's body (and throw
        without one); then the stick, the X button and the vibration latch, in that order. */
    method Update(elapsed: int, aimLength: real, xPressed: bool) returns (r: Outcome, vibrations: seq<real>)
      modifies paddle`gravityBallShootTimer, paddle`bulletShootTimer, paddle.actorManager`pending
      modifies this`vibrationTimer, this`vibrateNow
      ensures !old(paddle.ParentHasBody()) ==>
        r == Fail(NullReference) && paddle.actorManager.pending == old(paddle.actorManager.pending)
      ensures r.Pass? <==>
        old(paddle.ParentHasBody()) &&
        (aimLength >= AimThreshold && Ready(old(paddle.bulletShootTimer) + elapsed, BulletShootInterval) ==>
           old(paddle.actorManager.Instantiable(BulletTemplate)) && old(paddle.ParentHasPhysics())) &&
        (xPressed && Ready(old(paddle.gravityBallShootTimer) + elapsed, GravityBallShootInterval) ==>
           old(paddle.actorManager.Instantiable(GravityBallTemplate)))
      ensures r.Pass? ==>
        paddle.bulletShootTimer ==
          (var t := old(paddle.bulletShootTimer) + elapsed;
           if aimLength >= AimThreshold then TimerAfter(t, BulletShootInterval, Attempt) else t)
      ensures r.Pass? ==>
        paddle.gravityBallShootTimer ==
          (var t := old(paddle.gravityBallShootTimer) + elapsed;
           if xPressed then TimerAfter(t, GravityBallShootInterval, Attempt) else t)
      ensures r.Pass? ==>
        ExtendsWithClones(paddle.actorManager.pending, old(paddle.actorManager.pending),
          (if aimLength >= AimThreshold && Ready(old(paddle.bulletShootTimer) + elapsed, BulletShootInterval)
           then BulletNames(level) else []) +
          (if xPressed && Ready(old(paddle.gravityBallShootTimer) + elapsed, GravityBallShootInterval)
           then [GravityBallTemplate] else []),
          paddle.actorManager.templates)
      ensures r.Pass? ==>
        LatchOut(LatchState(), vibrations) ==
          LatchStep(old(LatchState()), xPressed,
                    Ready(old(paddle.gravityBallShootTimer) + elapsed, GravityBallShootInterval), elapsed)
      ensures r.Fail? ==> LatchState() == old(LatchState()) && vibrations == []
      ensures old(paddle.actorManager.Valid()) ==> paddle.actorManager.Valid()
    {
      paddle.Update(elapsed);
      if paddle.parentActor == null || paddle.parentActor.body == null {
        return Fail(NullReference), [];
      }
      ghost var p0 := paddle.actorManager.pending;
      ghost var bulletReady := Ready(paddle.bulletShootTimer, BulletShootInterval);
      ghost var gravityReady := Ready(paddle.gravityBallShootTimer, GravityBallShootInterval);
      assert bulletReady == Ready(old(paddle.bulletShootTimer) + elapsed, BulletShootInterval);
      assert gravityReady == Ready(old(paddle.gravityBallShootTimer) + elapsed, GravityBallShootInterval);
      ghost var aimed;
      r, aimed := Stick(aimLength);
      if r.Fail? {
        return r, [];
      }
      ghost var p1 := paddle.actorManager.pending;
      ghost var pressed;
      r, vibrations, pressed := Buttons(xPressed, elapsed);
      if r.Pass? {
        ExtendsTrans(paddle.actorManager.pending, p1, p0, aimed, pressed, paddle.actorManager.templates);
        assert aimed + pressed ==
          (if aimLength >= AimThreshold && bulletReady then BulletNames(level) else []) +
          (if xPressed && gravityReady then [GravityBallTemplate] else []);
      }
    }

    /** The right stick, pushed at least the threshold, fires; `aimed` names what was queued. */
    method Stick(aimLength: real) returns (r: Outcome, ghost aimed: seq<string>)
      modifies paddle`bulletShootTimer, paddle.actorManager`pending
      ensures paddle.bulletShootTimer ==
        if aimLength >= AimThreshold then TimerAfter(old(paddle.bulletShootTimer), BulletShootInterval, Attempt)
        else old(paddle.bulletShootTimer)
      ensures paddle.gravityBallShootTimer == old(paddle.gravityBallShootTimer)
      ensures r.Pass? <==>
        (aimLength >= AimThreshold && old(Ready(paddle.bulletShootTimer, BulletShootInterval)) ==>
           old(paddle.actorManager.Instantiable(BulletTemplate)) && paddle.ParentHasPhysics())
      ensures aimed == if aimLength >= AimThreshold && old(Ready(paddle.bulletShootTimer, BulletShootInterval))
                       then BulletNames(level) else []
      ensures r.Pass? ==>
        ExtendsWithClones(paddle.actorManager.pending, old(paddle.actorManager.pending), aimed, paddle.actorManager.templates)
      ensures old(paddle.actorManager.Valid()) ==> paddle.actorManager.Valid()
    {
      r := Pass;
      aimed := [];
      if aimLength >= AimThreshold {
        aimed := if Ready(paddle.bulletShootTimer, BulletShootInterval) then BulletNames(level) else [];
        r := Aim();
      }
    }

    /** The X button and the vibration latch: a gravity ball that goes out starts the vibration,
        which is sent while X is held and stopped once it has lasted the interval. */
    method Buttons(xPressed: bool, elapsed: int) returns (r: Outcome, vibrations: seq<real>, ghost pressed: seq<string>)
      requires paddle.ParentHasBody()
      modifies paddle`gravityBallShootTimer, paddle.actorManager`pending
      modifies this`vibrationTimer, this`vibrateNow
      ensures paddle.gravityBallShootTimer ==
        if xPressed then TimerAfter(old(paddle.gravityBallShootTimer), GravityBallShootInterval, Attempt)
        else old(paddle.gravityBallShootTimer)
      ensures paddle.bulletShootTimer == old(paddle.bulletShootTimer)
      ensures r.Pass? <==>
        (xPressed && old(Ready(paddle.gravityBallShootTimer, GravityBallShootInterval)) ==>
           old(paddle.actorManager.Instantiable(GravityBallTemplate)))
      ensures r.Fail? ==>
        r.error == (if GravityBallTemplate in paddle.actorManager.templates then NullReference else ArgumentError("templateName"))
      ensures pressed == if xPressed && old(Ready(paddle.gravityBallShootTimer, GravityBallShootInterval))
                         then [GravityBallTemplate] else []
      ensures r.Pass? ==>
        ExtendsWithClones(paddle.actorManager.pending, old(paddle.actorManager.pending), pressed, paddle.actorManager.templates)
      ensures r.Pass? ==>
        LatchOut(LatchState(), vibrations) ==
          LatchStep(old(LatchState()), xPressed, old(Ready(paddle.gravityBallShootTimer, GravityBallShootInterval)), elapsed)
      ensures r.Fail? ==> LatchState() == old(LatchState()) && vibrations == []
      ensures old(paddle.actorManager.Valid()) ==> paddle.actorManager.Valid()
    {
      vibrations := [];
      pressed := [];
      var fired := false;
      if xPressed {
        pressed := if Ready(paddle.gravityBallShootTimer, GravityBallShootInterval) then [GravityBallTemplate] else [];
        var shot := paddle.ShootGravityBall(1);
        if shot.Err? {
          return Fail(shot.error), [], pressed;
        }
        fired := shot.value;
        if fired {
          vibrateNow := true;
        }
        if vibrateNow {
          vibrations := [0.5];
        }
      }
      if vibrateNow {
        vibrationTimer := vibrationTimer + elapsed;
        if vibrationTimer >= VibrationInterval {
          vibrationTimer := 0;
          vibrateNow := false;
          vibrations := vibrations + [0.0];
        }
      }
      r := Pass;
    }
  }
}
