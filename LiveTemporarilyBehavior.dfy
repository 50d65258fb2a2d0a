/** Timed expiry: an actor that lives for a fixed time, fading in over `fadeDuration` after it
    appears and fading out over the last `fadeDuration` of its life, and that is killed on every
    update once its lifetime has passed. Times are TimeSpan ticks. */
module Expiry {
  import opened Errors
  import opened Actors

  /** The three tick counters the behavior keeps. */
  datatype Clock = Clock(timePassed: int, fadeIn: int, fadeOut: int)

  datatype Option<T> = None | Some(value: T)

  /** The fade-in branch runs while its timer is below the fade duration. */
  predicate FadesIn(c: Clock, fade: int)
  {
    c.fadeIn < fade
  }

  /** The fade-out branch runs once no more than the fade duration of the lifetime is left. */
  predicate FadesOut(c: Clock, lifetime: int, fade: int)
  {
    lifetime - c.timePassed <= fade
  }

  /** The actor is killed when the time passed, read before this update adds to it, exceeds the
      lifetime. */
  predicate Expired(c: Clock, lifetime: int)
  {
    c.timePassed > lifetime
  }

  /** The counters after an update that completes: time passed always grows by the frame's
      elapsed time, each fade timer only when its branch runs. */
  function Step(c: Clock, lifetime: int, fade: int, elapsed: int): Clock
  {
    Clock(c.timePassed + elapsed,
          if FadesIn(c, fade) then c.fadeIn + elapsed else c.fadeIn,
          if FadesOut(c, lifetime, fade) then c.fadeOut + elapsed else c.fadeOut)
  }

  /** The fade-in opacity for an advanced fade-in timer: the fraction of the fade done, of 255. */
  function FadeInAlpha(fadeIn: int, fade: int): real
    requires fade > 0
  {
    (fadeIn as real / fade as real) * 255.0
  }

  /** The fade-out opacity for an advanced fade-out timer: 255 less the fraction of the fade done. */
  function FadeOutAlpha(fadeOut: int, fade: int): real
    requires fade > 0
  {
    255.0 - (fadeOut as real / fade as real) * 255.0
  }

  /** The opacity an update stores, before the Alpha setter clamps it: the fade-out value when
      that branch runs (it is written last), else the fade-in value, else none. */
  function AlphaWritten(c: Clock, lifetime: int, fade: int, elapsed: int): Option<real>
    requires fade > 0
  {
    if FadesOut(c, lifetime, fade) then Some(FadeOutAlpha(c.fadeOut + elapsed, fade))
    else if FadesIn(c, fade) then Some(FadeInAlpha(c.fadeIn + elapsed, fade))
    else None
  }

  /** A fade that has run its whole duration ends fully opaque (fade-in) or fully transparent
      (fade-out), once the Alpha setter has clamped it. */
  lemma FadeEnds(t: int, fade: int)
    requires fade > 0 && t >= fade
    ensures Clamp(FadeInAlpha(t, fade)) == 255.0
    ensures Clamp(FadeOutAlpha(t, fade)) == 0.0
  {
    var q := t as real / fade as real;
    assert q >= 1.0 by {
      assert q * fade as real == t as real;
    }
    assert q * 255.0 >= 255.0;
  }

  /** Part way through, the two fades are mirror images and both lie in [0, 255]. */
  lemma FadeMidway(t: int, fade: int)
    requires fade > 0 && 0 <= t <= fade
    ensures 0.0 <= FadeInAlpha(t, fade) <= 255.0
    ensures FadeInAlpha(t, fade) + FadeOutAlpha(t, fade) == 255.0
  {
    var q := t as real / fade as real;
    assert 0.0 <= q <= 1.0 by {
      assert q * fade as real == t as real;
    }
  }

  /** Once expired, an actor stays expired: time never runs backwards, so every later update
      kills it again. */
  lemma ExpiryPersists(c: Clock, lifetime: int, fade: int, elapsed: int)
    requires Expired(c, lifetime) && elapsed >= 0
    ensures Expired(Step(c, lifetime, fade, elapsed), lifetime)
  {
  }

  /** Once the fade-out has begun it runs on every later update. */
  lemma FadeOutPersists(c: Clock, lifetime: int, fade: int, elapsed: int)
    requires FadesOut(c, lifetime, fade) && elapsed >= 0
    ensures FadesOut(Step(c, lifetime, fade, elapsed), lifetime, fade)
  {
  }

  /** Once the fade-in has finished it never runs again, whatever time passes. */
  lemma FadeInEnds(c: Clock, lifetime: int, fade: int, elapsed: int)
    requires !FadesIn(c, fade)
    ensures !FadesIn(Step(c, lifetime, fade, elapsed), fade)
    ensures Step(c, lifetime, fade, elapsed).fadeIn == c.fadeIn
  {
  }

  /** The counters after a run of completed updates, one elapsed time per frame. */
  function Run(c: Clock, lifetime: int, fade: int, frames: seq<int>): Clock
  {
    if frames == [] then c
    else Step(Run(c, lifetime, fade, frames[..|frames| - 1]), lifetime, fade, frames[|frames| - 1])
  }

  /** The total of a run of elapsed times. */
  function Total(frames: seq<int>): int
  {
    if frames == [] then 0 else Total(frames[..|frames| - 1]) + frames[|frames| - 1]
  }

  /** How many of a run's updates kill the actor. */
  function Kills(c: Clock, lifetime: int, fade: int, frames: seq<int>): nat
  {
    if frames == [] then 0
    else
      Kills(c, lifetime, fade, frames[..|frames| - 1]) +
      (if Expired(Run(c, lifetime, fade, frames[..|frames| - 1]), lifetime) then 1 else 0)
  }

  /** The time passed after a run is the starting time plus the total elapsed. */
  lemma {:induction false} RunTime(c: Clock, lifetime: int, fade: int, frames: seq<int>)
    ensures Run(c, lifetime, fade, frames).timePassed == c.timePassed + Total(frames)
  {
    if frames != [] {
      RunTime(c, lifetime, fade, frames[..|frames| - 1]);
    }
  }

  /** The update that follows the first `j` frames of a run kills the actor exactly when the
      elapsed time of those frames has carried the time passed beyond the lifetime. */
  lemma KilledExactlyWhen(c: Clock, lifetime: int, fade: int, frames: seq<int>, j: int)
    requires 0 <= j <= |frames|
    ensures Expired(Run(c, lifetime, fade, frames[..j]), lifetime) <==> c.timePassed + Total(frames[..j]) > lifetime
  {
    RunTime(c, lifetime, fade, frames[..j]);
  }

  /** With at least one tick per frame, the update that follows more than `lifetime - timePassed`
      frames kills the actor. */
  lemma {:induction false} KilledWithinLifetime(c: Clock, lifetime: int, fade: int, frames: seq<int>)
    requires forall k :: 0 <= k < |frames| ==> frames[k] >= 1
    requires c.timePassed + |frames| - 1 > lifetime
    requires |frames| >= 1
    ensures Kills(c, lifetime, fade, frames) >= 1
    ensures Expired(Run(c, lifetime, fade, frames[..|frames| - 1]), lifetime)
  {
    var front := frames[..|frames| - 1];
    AtLeastOneTickPerFrame(c, lifetime, fade, front);
  }

  /** With at least one tick per frame, time passed grows by at least the number of frames. */
  lemma {:induction false} AtLeastOneTickPerFrame(c: Clock, lifetime: int, fade: int, frames: seq<int>)
    requires forall k :: 0 <= k < |frames| ==> frames[k] >= 1
    ensures Run(c, lifetime, fade, frames).timePassed >= c.timePassed + |frames|
  {
    if frames != [] {
      var front := frames[..|frames| - 1];
      assert forall k :: 0 <= k < |front| ==> front[k] == frames[k];
      AtLeastOneTickPerFrame(c, lifetime, fade, front);
    }
  }

  /** LiveTemporarilyBehavior. */
  class LiveTemporarilyBehavior {
    const actorManager: ActorManager
    /** ActorBehavior.ParentActor */
    var parentActor: Actor?
    const lifetime: int
    const fadeDuration: int
    var timePassed: int
    var fadeInTimer: int
    var fadeOutTimer: int

    /** The parent actor as a set, empty when there is none. */
    function Parent(): set<Actor>
      reads this`parentActor
    {
      if parentActor == null then {} else {parentActor}
    }

    function Counters(): Clock
      reads this`timePassed, this`fadeInTimer, this`fadeOutTimer
    {
      Clock(timePassed, fadeInTimer, fadeOutTimer)
    }

    /** All counters start at zero. */
    constructor (actorManager: ActorManager, lifetime: int, fadeDuration: int)
      requires fadeDuration > 0
      ensures this.actorManager == actorManager && parentActor == null
      ensures this.lifetime == lifetime && this.fadeDuration == fadeDuration
      ensures Counters() == Clock(0, 0, 0)
    {
      this.actorManager := actorManager;
      parentActor := null;
      this.lifetime := lifetime;
      this.fadeDuration := fadeDuration;
      timePassed := 0;
      fadeInTimer := 0;
      fadeOutTimer := 0;
    }

    /** One frame: fade in, fade out, kill once expired, then count the frame's time. Each of the
        first three touches the parent actor, so without one the first branch that runs throws,
        after advancing its own timer. */
    method Update(elapsed: int) returns (r: Outcome)
      requires fadeDuration > 0
      modifies this`timePassed, this`fadeInTimer, this`fadeOutTimer
      modifies Parent()`alpha, Parent()`alive, Parent()`kills
      ensures parentActor == old(parentActor)
      ensures parentActor != null ==> r.Pass? && Counters() == Step(old(Counters()), lifetime, fadeDuration, elapsed)
      ensures parentActor != null ==>
        parentActor.alpha ==
          match AlphaWritten(old(Counters()), lifetime, fadeDuration, elapsed)
          case Some(a) => Clamp(a)
          case None => old(parentActor.alpha)
      ensures parentActor != null && Expired(old(Counters()), lifetime) ==>
        !parentActor.alive && parentActor.kills == old(parentActor.kills) + 1
      ensures parentActor != null && !Expired(old(Counters()), lifetime) ==>
        parentActor.alive == old(parentActor.alive) && parentActor.kills == old(parentActor.kills)
      ensures parentActor == null ==>
        (r.Fail? <==> FadesIn(old(Counters()), fadeDuration) || FadesOut(old(Counters()), lifetime, fadeDuration) ||
                      Expired(old(Counters()), lifetime))
      ensures r.Fail? ==> r.error == NullReference && timePassed == old(timePassed)
      ensures r.Fail? ==>
        fadeInTimer == (if FadesIn(old(Counters()), fadeDuration) then old(fadeInTimer) + elapsed else old(fadeInTimer))
      ensures r.Fail? ==>
        fadeOutTimer ==
          (if !FadesIn(old(Counters()), fadeDuration) && FadesOut(old(Counters()), lifetime, fadeDuration)
           then old(fadeOutTimer) + elapsed else old(fadeOutTimer))
      ensures parentActor == null && r.Pass? ==> Counters() == Step(old(Counters()), lifetime, fadeDuration, elapsed)
    {
      if fadeInTimer < fadeDuration {
        fadeInTimer := fadeInTimer + elapsed;
        if parentActor == null {
          return Fail(NullReference);
        }
        parentActor.SetAlpha((fadeInTimer as real / fadeDuration as real) * 255.0);
      }
      if lifetime - timePassed <= fadeDuration {
        fadeOutTimer := fadeOutTimer + elapsed;
        if parentActor == null {
          return Fail(NullReference);
        }
        parentActor.SetAlpha(255.0 - (fadeOutTimer as real / fadeDuration as real) * 255.0);
      }
      if timePassed > lifetime {
        if parentActor == null {
          return Fail(NullReference);
        }
        parentActor.Kill();
      }
      timePassed := timePassed + elapsed;
      r := Pass;
    }
  }
}
