/** The paddle's fire-rate limiting: two independent cooldown timers, each of which must have
    reached its interval before a shot of its kind is allowed; a shot resets its timer and clones
    one or three projectiles from the actor manager's templates. Forces, torques, positions and
    velocities go to the physics engine and are not modelled. */
module Paddles {
  import opened Errors
  import Physics
  import Xna
  import opened Actors

  /** `TimeSpan.FromSeconds(4)` */
  const GravityBallShootInterval: int := 4 * Xna.TicksPerSecond
  /** `TimeSpan.FromSeconds(0.1f)` */
  const BulletShootInterval: int := Xna.MillisecondsToTicks(100)

  const GravityBallTemplate: string := "Gravity Ball"
  const BulletTemplate: string := "Bullet"

  /** What happens to a cooldown timer: a frame's time passes, or a shot is attempted. */
  datatype TimerEvent = Elapse(ticks: int) | Attempt

  /** A shot is allowed once the timer has reached the interval. */
  predicate Ready(timer: int, interval: int)
  {
    timer >= interval
  }

  /** The timer after one event: time accumulates; an allowed shot resets it to zero and a
      refused one leaves it alone. */
  function TimerAfter(timer: int, interval: int, e: TimerEvent): int
  {
    match e
    case Elapse(ticks) => timer + ticks
    case Attempt => if Ready(timer, interval) then 0 else timer
  }

  /** The timer after a sequence of events. */
  function TimerAfterAll(timer: int, interval: int, es: seq<TimerEvent>): int
  {
    if es == [] then timer else TimerAfter(TimerAfterAll(timer, interval, es[..|es| - 1]), interval, es[|es| - 1])
  }

  /** How many of the attempts in a sequence of events are allowed. */
  function ShotsFired(timer: int, interval: int, es: seq<TimerEvent>): nat
  {
    if es == [] then 0
    else
      ShotsFired(timer, interval, es[..|es| - 1]) +
      (if es[|es| - 1].Attempt? && Ready(TimerAfterAll(timer, interval, es[..|es| - 1]), interval) then 1 else 0)
  }

  /** The time that passes over a sequence of events. */
  function TimePassed(es: seq<TimerEvent>): int
  {
    if es == [] then 0 else TimePassed(es[..|es| - 1]) + (if es[|es| - 1].Elapse? then es[|es| - 1].ticks else 0)
  }

  predicate TimeRunsForward(es: seq<TimerEvent>)
  {
    forall k :: 0 <= k < |es| && es[k].Elapse? ==> es[k].ticks >= 0
  }

  /** The rate limit: every allowed shot costs a whole interval of accumulated time, so the shots
      fired, times the interval, never exceed the starting timer plus the time that passed. */
  lemma {:induction false} RateLimit(timer: int, interval: int, es: seq<TimerEvent>)
    requires 0 <= timer && 0 < interval && TimeRunsForward(es)
    ensures TimerAfterAll(timer, interval, es) >= 0
    ensures ShotsFired(timer, interval, es) * interval + TimerAfterAll(timer, interval, es) <= timer + TimePassed(es)
  {
    if es != [] {
      var front := es[..|es| - 1];
      assert TimeRunsForward(front) by {
        forall k | 0 <= k < |front| && front[k].Elapse?
          ensures front[k].ticks >= 0
        {
          assert front[k] == es[k];
        }
      }
      RateLimit(timer, interval, front);
    }
  }

  /** From a fresh controller (timer equal to the interval), at most one shot more than the
      number of whole intervals that have passed. */
  lemma FirstShotThenOnePerInterval(interval: int, es: seq<TimerEvent>)
    requires 0 < interval && TimeRunsForward(es)
    ensures Ready(interval, interval)
    ensures ShotsFired(interval, interval, es) * interval <= interval + TimePassed(es)
  {
    RateLimit(interval, interval, es);
  }

  /** PaddleController: the base of every paddle controller behavior. */
  class PaddleController {
    const actorManager: ActorManager
    /** ActorBehavior.ParentActor */
    var parentActor: Actor?
    var gravityBallShootTimer: int
    var bulletShootTimer: int

    /** Both timers start at their intervals, so the first shot of each kind is allowed. */
    constructor (actorManager: ActorManager)
      ensures this.actorManager == actorManager && parentActor == null
      ensures gravityBallShootTimer == GravityBallShootInterval && bulletShootTimer == BulletShootInterval
      ensures Ready(gravityBallShootTimer, GravityBallShootInterval) && Ready(bulletShootTimer, BulletShootInterval)
    {
      this.actorManager := actorManager;
      parentActor := null;
      gravityBallShootTimer := GravityBallShootInterval;
      bulletShootTimer := BulletShootInterval;
    }

    /** ActorBehavior.Clone: a field-by-field copy sharing the manager and the parent. */
    method Clone() returns (c: PaddleController)
      ensures fresh(c) && c.actorManager == actorManager && c.parentActor == parentActor
      ensures c.gravityBallShootTimer == gravityBallShootTimer && c.bulletShootTimer == bulletShootTimer
    {
      c := new PaddleController(actorManager);
      c.parentActor := parentActor;
      c.gravityBallShootTimer := gravityBallShootTimer;
      c.bulletShootTimer := bulletShootTimer;
    }

    /** The parent actor has the physics a shot reads (position and velocity of its body, for a
        bullet also the categories of its geom). */
    ghost predicate ParentHasBody()
      reads this`parentActor, parentActor
    {
      parentActor != null && parentActor.body != null
    }

    ghost predicate ParentHasPhysics()
      reads this`parentActor, parentActor
    {
      parentActor != null && parentActor.body != null && parentActor.geom != null
    }

    /** Adds the frame's elapsed time to both timers. */
    method Update(elapsed: int)
      modifies this`gravityBallShootTimer, this`bulletShootTimer
      ensures gravityBallShootTimer == TimerAfter(old(gravityBallShootTimer), GravityBallShootInterval, Elapse(elapsed))
      ensures bulletShootTimer == TimerAfter(old(bulletShootTimer), BulletShootInterval, Elapse(elapsed))
    {
      gravityBallShootTimer := gravityBallShootTimer + elapsed;
      bulletShootTimer := bulletShootTimer + elapsed;
    }

    /** Shoots a gravity ball if its timer allows: resets the timer and clones the "Gravity Ball"
        template; returns whether it shot. The bullet timer is not touched. */
    method ShootGravityBall(verticalDirection: int) returns (r: Result<bool>)
      modifies this`gravityBallShootTimer, actorManager`pending
      ensures gravityBallShootTimer == TimerAfter(old(gravityBallShootTimer), GravityBallShootInterval, Attempt)
      ensures bulletShootTimer == old(bulletShootTimer)
      ensures r == Ok(false) <==> !old(Ready(gravityBallShootTimer, GravityBallShootInterval))
      ensures r == Ok(true) <==>
        old(Ready(gravityBallShootTimer, GravityBallShootInterval)) && old(actorManager.Instantiable(GravityBallTemplate)) &&
        ParentHasBody()
      ensures r.Err? && !old(actorManager.Instantiable(GravityBallTemplate)) ==>
        r.error == (if GravityBallTemplate in actorManager.templates then NullReference else ArgumentError("templateName"))
      ensures r.Err? && old(actorManager.Instantiable(GravityBallTemplate)) ==> !ParentHasBody() && r.error == NullReference
      ensures old(Ready(gravityBallShootTimer, GravityBallShootInterval)) && old(actorManager.Instantiable(GravityBallTemplate)) ==>
        ExtendsWithClones(actorManager.pending, old(actorManager.pending), [GravityBallTemplate], actorManager.templates) &&
        fresh(actorManager.pending[|actorManager.pending| - 1])
      ensures !(old(Ready(gravityBallShootTimer, GravityBallShootInterval)) && old(actorManager.Instantiable(GravityBallTemplate))) ==>
        actorManager.pending == old(actorManager.pending)
      ensures old(actorManager.Valid()) ==> actorManager.Valid()
    {
      if gravityBallShootTimer >= GravityBallShootInterval {
        gravityBallShootTimer := 0;
        var gravBall :- actorManager.InstantiateTemplate(GravityBallTemplate);
        if parentActor == null || parentActor.body == null {
          return Err(NullReference);
        }
        return Ok(true);
      }
      return Ok(false);
    }

    /** Clones the "Bullet" template and clears, in the bullet's collide-with mask, every category
        of the firing actor, so that the bullet never collides with it. No timing check. `bullet`
        names the actor that was queued. */
    method ShootBullet() returns (r: Outcome, ghost bullet: Actor?)
      modifies actorManager`pending
      ensures r.Pass? <==> old(actorManager.Instantiable(BulletTemplate)) && ParentHasPhysics()
      ensures r.Fail? && !old(actorManager.Instantiable(BulletTemplate)) ==>
        r.error == (if BulletTemplate in actorManager.templates then NullReference else ArgumentError("templateName"))
      ensures r.Fail? && old(actorManager.Instantiable(BulletTemplate)) ==> r.error == NullReference
      ensures old(actorManager.Instantiable(BulletTemplate)) ==>
        bullet != null && fresh(bullet) && actorManager.pending == old(actorManager.pending) + [bullet] &&
        bullet.clonedFrom == actorManager.templates[BulletTemplate]
      ensures !old(actorManager.Instantiable(BulletTemplate)) ==> actorManager.pending == old(actorManager.pending)
      ensures r.Pass? ==> SparesFirer(bullet, old(actorManager.templates[BulletTemplate].geom.collidesWith))
      ensures old(actorManager.Valid()) ==> actorManager.Valid()
    {
      var c := actorManager.InstantiateTemplate(BulletTemplate);
      if c.Err? {
        r, bullet := Fail(c.error), null;
      } else {
        var shot := c.value;
        bullet := shot;
        if parentActor == null || parentActor.body == null || parentActor.geom == null {
          r := Fail(NullReference);
        } else {
          SpareFirer(shot, shot.geom);
          r := Pass;
        }
      }
    }

    /** `bullet.PhysicsGeom.CollidesWith &= ~parentActor.PhysicsGeom.CollisionCategories` */
    method SpareFirer(shot: Actor, g: Physics.Geom)
      requires ParentHasPhysics() && shot.geom == g && g != parentActor.geom
      modifies g`collidesWith
      ensures SparesFirer(shot, old(g.collidesWith))
    {
      g.collidesWith := Physics.ClearBits(g.collidesWith, parentActor.geom.collisionCategories);
    }

    /** The bullet `b` has a geom whose collide-with mask is `template` with every category of the
        firing actor cleared, so it shares no bit with them and keeps all the others
        (`Physics.ClearBits`). */
    ghost predicate SparesFirer(b: Actor, template: Physics.Mask)
      reads this`parentActor, parentActor, b, b.geom, if parentActor != null then {parentActor.geom} else {}
    {
      b.geom != null && parentActor != null && parentActor.geom != null &&
      b.geom.collidesWith == Physics.ClearBits(template, parentActor.geom.collisionCategories)
    }

    /** Whatever the clone's `Initialize` hooks OR into its mask before the clear (a confinement
        behavior adds its wall category), the cleared mask shares no bit with the firer and keeps
        every bit of the template that the firer does not have. */
    lemma SparesFirerAfterHooks(template: Physics.Mask, hooks: Physics.Mask, firer: Physics.Mask)
      ensures Physics.ClearBits(Physics.SetBits(template, hooks), firer) !! firer
      ensures Physics.ClearBits(template, firer) <= Physics.ClearBits(Physics.SetBits(template, hooks), firer)
      ensures Physics.ClearBits(Physics.SetBits(template, hooks), firer) ==
        Physics.SetBits(Physics.ClearBits(template, firer), Physics.ClearBits(hooks, firer))
    {
    }

    /** Shoots one bullet if the bullet timer allows, resetting the timer. */
    method ShootSingleBullet() returns (r: Outcome)
      modifies this`bulletShootTimer, actorManager`pending
      ensures bulletShootTimer == TimerAfter(old(bulletShootTimer), BulletShootInterval, Attempt)
      ensures gravityBallShootTimer == old(gravityBallShootTimer)
      ensures !old(Ready(bulletShootTimer, BulletShootInterval)) ==> r.Pass? && actorManager.pending == old(actorManager.pending)
      ensures old(Ready(bulletShootTimer, BulletShootInterval)) ==>
        (r.Pass? <==> old(actorManager.Instantiable(BulletTemplate)) && ParentHasPhysics())
      ensures old(Ready(bulletShootTimer, BulletShootInterval)) && old(actorManager.Instantiable(BulletTemplate)) ==>
        ExtendsWithClones(actorManager.pending, old(actorManager.pending), [BulletTemplate], actorManager.templates)
      ensures !(old(Ready(bulletShootTimer, BulletShootInterval)) && old(actorManager.Instantiable(BulletTemplate))) ==>
        actorManager.pending == old(actorManager.pending)
      ensures old(Ready(bulletShootTimer, BulletShootInterval)) && r.Pass? ==>
        SparesFirer(actorManager.pending[|actorManager.pending| - 1], old(actorManager.templates[BulletTemplate].geom.collidesWith))
      ensures old(actorManager.Valid()) ==> actorManager.Valid()
    {
      r := Pass;
      if bulletShootTimer >= BulletShootInterval {
        bulletShootTimer := 0;
        ghost var p0 := actorManager.pending;
        ghost var b;
        r, b := ShootBullet();
        if actorManager.pending != p0 {
          CloneExtends(p0, b, BulletTemplate, actorManager.templates);
        }
      }
    }

    /** The second and third bullets of a spray whose first bullet `b1` has been queued. */
    method ShootTwoMore(ghost p0: seq<Actor>, ghost b1: Actor?, ghost mask: Physics.Mask) returns (r: Outcome)
      requires actorManager.Instantiable(BulletTemplate) && ParentHasPhysics()
      requires mask == actorManager.templates[BulletTemplate].geom.collidesWith
      requires b1 != null && actorManager.pending == p0 + [b1] && b1.clonedFrom == actorManager.templates[BulletTemplate]
      requires SparesFirer(b1, mask)
      modifies actorManager`pending
      ensures r.Pass?
      ensures ExtendsWithClones(actorManager.pending, p0, [BulletTemplate, BulletTemplate, BulletTemplate], actorManager.templates)
      ensures SparesFirer(actorManager.pending[|p0|], mask) && SparesFirer(actorManager.pending[|p0| + 1], mask) &&
              SparesFirer(actorManager.pending[|p0| + 2], mask)
      ensures old(actorManager.Valid()) ==> actorManager.Valid()
    {
      ghost var b2, b3;
      r, b2 := ShootBullet();
      r, b3 := ShootBullet();
      assert actorManager.pending == p0 + [b1, b2, b3];
      SprayExtends(p0, b1, b2, b3, BulletTemplate, actorManager.templates);
    }

    /** Shoots three bullets (the aim turned by +22.5, 0 and -22.5 degrees) if the bullet timer
        allows, with a single reset of the timer. As the firer and the templates cannot change
        between the three shots, either all three succeed or the first one fails. */
    method ShootBulletSpray() returns (r: Outcome)
      modifies this`bulletShootTimer, actorManager`pending
      ensures bulletShootTimer == TimerAfter(old(bulletShootTimer), BulletShootInterval, Attempt)
      ensures gravityBallShootTimer == old(gravityBallShootTimer)
      ensures !old(Ready(bulletShootTimer, BulletShootInterval)) ==> r.Pass? && actorManager.pending == old(actorManager.pending)
      ensures old(Ready(bulletShootTimer, BulletShootInterval)) ==>
        (r.Pass? <==> old(actorManager.Instantiable(BulletTemplate)) && ParentHasPhysics())
      ensures old(Ready(bulletShootTimer, BulletShootInterval)) && r.Pass? ==>
        ExtendsWithClones(actorManager.pending, old(actorManager.pending), [BulletTemplate, BulletTemplate, BulletTemplate],
                          actorManager.templates) &&
        SparesFirer(actorManager.pending[|old(actorManager.pending)|], old(actorManager.templates[BulletTemplate].geom.collidesWith)) &&
        SparesFirer(actorManager.pending[|old(actorManager.pending)| + 1], old(actorManager.templates[BulletTemplate].geom.collidesWith)) &&
        SparesFirer(actorManager.pending[|old(actorManager.pending)| + 2], old(actorManager.templates[BulletTemplate].geom.collidesWith))
      ensures old(Ready(bulletShootTimer, BulletShootInterval)) && r.Fail? && old(actorManager.Instantiable(BulletTemplate)) ==>
        ExtendsWithClones(actorManager.pending, old(actorManager.pending), [BulletTemplate], actorManager.templates)
      ensures !(old(Ready(bulletShootTimer, BulletShootInterval)) && old(actorManager.Instantiable(BulletTemplate))) ==>
        actorManager.pending == old(actorManager.pending)
      ensures old(actorManager.Valid()) ==> actorManager.Valid()
    {
      r := Pass;
      if bulletShootTimer >= BulletShootInterval {
        bulletShootTimer := 0;
        ghost var p0 := actorManager.pending;
        ghost var b1;
        r, b1 := ShootBullet();
        if r.Fail? {
          if actorManager.pending != p0 {
            CloneExtends(p0, b1, BulletTemplate, actorManager.templates);
          }
          return;
        }
        ghost var mask := old(actorManager.templates[BulletTemplate].geom.collidesWith);
        r := ShootTwoMore(p0, b1, mask);
      }
    }
  }

  /** Queuing one clone of a template extends the queue by that template's name. */
  lemma CloneExtends(base: seq<Actor>, b: Actor?, name: string, templates: map<string, Actor>)
    requires b != null && name in templates && b.clonedFrom == templates[name]
    ensures ExtendsWithClones(base + [b], base, [name], templates)
  {
    assert (base + [b])[|base| + 0] == b;
  }

  /** Queuing three clones of a template extends the queue by three times that template's name. */
  lemma SprayExtends(base: seq<Actor>, b1: Actor?, b2: Actor?, b3: Actor?, name: string, templates: map<string, Actor>)
    requires b1 != null && b2 != null && b3 != null && name in templates
    requires b1.clonedFrom == templates[name] && b2.clonedFrom == templates[name] && b3.clonedFrom == templates[name]
    ensures ExtendsWithClones(base + [b1, b2, b3], base, [name, name, name], templates)
  {
    var s := base + [b1, b2, b3];
    assert s[|base|] == b1 && s[|base| + 1] == b2 && s[|base| + 2] == b3;
  }
}
