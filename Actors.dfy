/** The actor framework: an `Actor` is a sprite, a physics body and a fixed list of behaviors;
    the `ActorManager` keeps named templates, the live actors and the actors created during the
    current frame, and runs the frame in three phases (sweep the dead, update the survivors,
    promote the new ones). */
module Actors {
  import opened Errors
  import Physics
  import Sprites

  /** The run-time type of a behavior. `ActorBehavior` is the base class itself; every other kind
      derives from it. */
  datatype BehaviorKind =
    | ActorBehavior
    | PaddleController
    | GamePadPaddleController
    | AIPaddleController
    | DistortGrid
    | BlackHole
    | InteractWithBlackHoles
    | ConstrainToRectangle
    | LiveTemporarily
    | DieUponCollision
    | ShootOffRandomly

  /** The `System.Type` handed to a behavior query: a behavior class or some other type. */
  datatype TypeQuery = BehaviorType(kind: BehaviorKind) | OtherType

  /** `behaviorType.IsSubclassOf(typeof(ActorBehavior))`: strict, so the base class fails. */
  predicate IsBehaviorSubclass(q: TypeQuery)
  {
    q.BehaviorType? && q.kind != ActorBehavior
  }

  /** Whether some behavior in the list has exactly the given run-time type. */
  predicate HasKind(bs: seq<Behavior>, k: BehaviorKind)
  {
    exists i :: 0 <= i < |bs| && bs[i].kind == k
  }

  /** What a behavior's update does to the registry: it may ask for a template to be
      instantiated, or kill the actor it belongs to. */
  datatype Effect = Spawn(templateName: string) | KillParent

  /** `Math.Min(Math.Max(v, 0), 255)` */
  function Clamp(v: real): (r: real)
    ensures 0.0 <= r <= 255.0
    ensures 0.0 <= v <= 255.0 ==> r == v
    ensures v < 0.0 ==> r == 0.0
    ensures v > 255.0 ==> r == 255.0
  {
    var atLeastZero := if v > 0.0 then v else 0.0;
    if atLeastZero < 255.0 then atLeastZero else 255.0
  }

  /** ActorBehavior: the part every behavior shares, its run-time type and its owner. */
  class Behavior {
    const kind: BehaviorKind
    var parent: Actor?

    constructor (kind: BehaviorKind)
      ensures this.kind == kind && parent == null
    {
      this.kind := kind;
      parent := null;
    }

    /** MemberwiseClone: a new behavior of the same type with the same owner. */
    method Clone() returns (c: Behavior)
      ensures fresh(c) && c.kind == kind && c.parent == parent
    {
      c := new Behavior(kind);
      c.parent := parent;
    }
  }

  class Actor {
    const behaviors: seq<Behavior>
    var alive: bool
    var sprite: Sprites.Sprite?
    var body: Physics.Body?
    var geom: Physics.Geom?
    var alpha: real
    /** How many times `Kill` has removed this actor's body and geom from the simulator. */
    ghost var kills: nat
    /** The behaviors whose `Initialize` hook has run, in the order it ran. */
    ghost var initialized: seq<Behavior>
    /** The actor this one was cloned from, if any. */
    ghost const clonedFrom: Actor?

    /** A new actor owns exactly the behaviors given, is alive and fully opaque. `source`
        records, for the proof only, the template a clone is made from. */
    constructor (newBehaviors: seq<Behavior>, ghost source: Actor?)
      ensures behaviors == newBehaviors && clonedFrom == source
      ensures alive && alpha == 255.0 && sprite == null && body == null && geom == null
      ensures kills == 0 && initialized == []
    {
      behaviors := newBehaviors;
      clonedFrom := source;
      alive := true;
      sprite := null;
      body := null;
      geom := null;
      alpha := 255.0;
      kills := 0;
      initialized := [];
    }

    /** An actor drawn with a static sprite of one texture. */
    constructor WithStaticSprite(newBehaviors: seq<Behavior>, textureName: string, texture: Sprites.Texture,
                                 width: real, height: real)
      ensures behaviors == newBehaviors && clonedFrom == null
      ensures alive && alpha == 255.0 && body == null && geom == null
      ensures kills == 0 && initialized == []
      ensures sprite != null && fresh(sprite) && sprite.Valid()
      ensures sprite.animations.Keys == {"defaultAnim"} && sprite.currentAnimation == sprite.animations["defaultAnim"]
      ensures sprite.Width() == width && sprite.Height() == height
    {
      var s := Sprites.CreateStatic(textureName, texture, width, height);
      behaviors := newBehaviors;
      clonedFrom := null;
      alive := true;
      sprite := s;
      body := null;
      geom := null;
      alpha := 255.0;
      kills := 0;
      initialized := [];
    }

    /** The Alpha setter: stores the value clamped into [0, 255]. */
    method SetAlpha(value: real)
      modifies this`alpha
      ensures alpha == Clamp(value)
    {
      alpha := Clamp(value);
    }

    /** Removes the body and geom from the simulator and marks the actor dead. Every call
        removes them again. */
    method Kill()
      modifies this`alive, this`kills
      ensures !alive && kills == old(kills) + 1
    {
      kills := kills + 1;
      alive := false;
    }

    /** The first behavior whose exact run-time type is the one asked for, or null. A type that
        does not strictly derive from ActorBehavior throws. */
    method GetBehavior(q: TypeQuery) returns (r: Result<Behavior?>)
      ensures r.Err? <==> !IsBehaviorSubclass(q)
      ensures r.Err? ==> r.error == ArgumentError("behaviorType")
      ensures r.Ok? ==> (r.value == null <==> !HasKind(behaviors, q.kind))
      ensures r.Ok? && r.value != null ==>
        exists i :: 0 <= i < |behaviors| && behaviors[i] == r.value && behaviors[i].kind == q.kind &&
          forall j :: 0 <= j < i ==> behaviors[j].kind != q.kind
    {
      if !IsBehaviorSubclass(q) {
        return Err(ArgumentError("behaviorType"));
      }
      var i := 0;
      while i < |behaviors|
        invariant 0 <= i <= |behaviors|
        invariant forall j :: 0 <= j < i ==> behaviors[j].kind != q.kind
      {
        if behaviors[i].kind == q.kind {
          return Ok(behaviors[i]);
        }
        i := i + 1;
      }
      r := Ok(null);
    }

    /** A clone of this actor: fresh behaviors of the same types in the same order, each owned by
        the clone and initialized in list order; the same sprite; a fresh body and a fresh geom
        with this geom's masks; alive and opaque. Without a body or geom the physics factories
        dereference null. Nothing that existed before is changed. */
    method Clone() returns (r: Result<Actor>)
      ensures r.Err? <==> body == null || geom == null
      ensures r.Err? ==> r.error == NullReference
      ensures r.Ok? ==> fresh(r.value) && IsCloneOf(r.value, this) && r.value.clonedFrom == this
      ensures r.Ok? ==> fresh(r.value.body) && fresh(r.value.geom)
      ensures r.Ok? ==> forall k :: 0 <= k < |r.value.behaviors| ==> fresh(r.value.behaviors[k])
      ensures r.Ok? ==> forall k, m :: 0 <= k < m < |r.value.behaviors| ==> r.value.behaviors[k] != r.value.behaviors[m]
      ensures r.Ok? ==> r.value.initialized == r.value.behaviors
      ensures r.Ok? ==> r.value.alive && r.value.alpha == 255.0 && r.value.kills == 0
    {
      var clones: seq<Behavior> := [];
      var i := 0;
      while i < |behaviors|
        invariant 0 <= i <= |behaviors| && |clones| == i
        invariant forall k :: 0 <= k < i ==> fresh(clones[k]) && clones[k].kind == behaviors[k].kind
        invariant forall k, m :: 0 <= k < m < i ==> clones[k] != clones[m]
      {
        var c := behaviors[i].Clone();
        clones := clones + [c];
        i := i + 1;
      }
      if body == null || geom == null {
        return Err(NullReference);
      }
      var clone := new Actor(clones, this);
      clone.sprite := sprite;
      var newBody := new Physics.Body();
      clone.body := newBody;
      var newGeom := new Physics.Geom.CopyOf(newBody, geom);
      clone.geom := newGeom;
      i := 0;
      while i < |clones|
        invariant 0 <= i <= |clones|
        invariant clone.initialized == clones[..i]
        invariant forall k :: 0 <= k < i ==> clones[k].parent == clone
        modifies clone`initialized, clones`parent
      {
        clones[i].parent := clone;
        clone.initialized := clone.initialized + [clones[i]];
        i := i + 1;
      }
      r := Ok(clone);
    }

    /** What the drawing half of `Update` throws, if anything: the sprite's source size is read
        first (a missing sprite or current animation dereferences null, a stale frame index
        throws from the list indexer), then the body's position (a missing body dereferences
        null). Once the source size can be read, the sprite's own update cannot throw. */
    function Drawn(): Outcome
      reads this`sprite, this`body, sprite, if sprite != null then {sprite.currentAnimation} else {}
    {
      if sprite == null then Fail(NullReference)
      else if sprite.SourceWidth().Err? then Fail(sprite.SourceWidth().error)
      else if sprite.SourceHeight().Err? then Fail(sprite.SourceHeight().error)
      else if body == null then Fail(NullReference)
      else Pass
    }

    /** Runs each behavior's update once, in list order, applying the effects `plan` gives for
        it, then draws. Stops at the first template that cannot be instantiated, as the exception
        would; once every behavior has run, the outcome is that of drawing. */
    method Update(manager: ActorManager, plan: Behavior -> seq<Effect>) returns (r: Outcome)
      modifies this`alive, this`kills, manager`pending, manager`updated
      ensures !old(manager.AllInstantiable(ActorSpawns(this, plan))) ==> r.Fail?
      ensures old(manager.AllInstantiable(ActorSpawns(this, plan))) ==> r == Drawn()
      ensures r.Pass? ==> manager.updated == old(manager.updated) + behaviors
      ensures r.Pass? ==> alive == (old(alive) && !KilledBy(this, plan))
      ensures r.Pass? ==> ExtendsWithClones(manager.pending, old(manager.pending), ActorSpawns(this, plan), manager.templates)
      ensures |manager.pending| >= |old(manager.pending)|
      ensures manager.pending[..|old(manager.pending)|] == old(manager.pending)
      ensures forall k :: |old(manager.pending)| <= k < |manager.pending| ==> fresh(manager.pending[k])
    {
      ghost var p0 := manager.pending;
      ghost var u0 := manager.updated;
      ghost var alive0 := alive;
      var i := 0;
      while i < |behaviors|
        invariant Ran(manager, i, plan, alive0, p0, u0)
        invariant manager.templates == old(manager.templates)
        invariant forall n :: manager.Instantiable(n) == old(manager.Instantiable(n))
        invariant forall k :: |p0| <= k < |manager.pending| ==> fresh(manager.pending[k])
      {
        r := RunAt(manager, i, plan, alive0, p0, u0);
        if r.Fail? {
          ghost var n :| n in Spawns(plan(behaviors[i])) && !old(manager.Instantiable(n));
          BehaviorSpawnsContain(behaviors, i, plan);
          return;
        }
        i := i + 1;
      }
      assert behaviors[..i] == behaviors;
      r := Drawn();
    }

    /** One step of `Update`: runs `behaviors[i]`. */
    method RunAt(manager: ActorManager, i: int, plan: Behavior -> seq<Effect>, ghost alive0: bool,
                 ghost p0: seq<Actor>, ghost u0: seq<Behavior>) returns (r: Outcome)
      requires i < |behaviors| && Ran(manager, i, plan, alive0, p0, u0)
      modifies this`alive, this`kills, manager`pending, manager`updated
      ensures r.Fail? ==> exists n :: n in Spawns(plan(behaviors[i])) && !old(manager.Instantiable(n))
      ensures r.Pass? ==> Ran(manager, i + 1, plan, alive0, p0, u0)
      ensures |manager.pending| >= |old(manager.pending)|
      ensures manager.pending[..|old(manager.pending)|] == old(manager.pending)
      ensures forall k :: |old(manager.pending)| <= k < |manager.pending| ==> fresh(manager.pending[k])
    {
      ghost var before := manager.pending;
      r := RunBehavior(manager, behaviors[i], plan);
      assert behaviors[..i + 1][..i] == behaviors[..i];
      assert behaviors[..i + 1][i] == behaviors[i];
      if r.Pass? {
        ExtendsTrans(manager.pending, before, p0, BehaviorSpawns(behaviors[..i], plan), Spawns(plan(behaviors[i])),
                     manager.templates);
      }
    }

    /** Where this actor's update stands after running `behaviors[..i]`. */
    ghost predicate Ran(manager: ActorManager, i: int, plan: Behavior -> seq<Effect>, alive0: bool,
                        p0: seq<Actor>, u0: seq<Behavior>)
      reads this`alive, manager`updated, manager`pending, manager`templates
      reads manager.templates.Values`body, manager.templates.Values`geom
    {
      0 <= i <= |behaviors| &&
      manager.updated == u0 + behaviors[..i] &&
      manager.AllInstantiable(BehaviorSpawns(behaviors[..i], plan)) &&
      alive == (alive0 && !KilledIn(behaviors[..i], plan)) &&
      ExtendsWithClones(manager.pending, p0, BehaviorSpawns(behaviors[..i], plan), manager.templates)
    }

    /** One behavior's update: its effects in order. */
    method RunBehavior(manager: ActorManager, b: Behavior, plan: Behavior -> seq<Effect>) returns (r: Outcome)
      modifies this`alive, this`kills, manager`pending, manager`updated
      ensures manager.updated == old(manager.updated) + [b]
      ensures r.Pass? <==> old(manager.AllInstantiable(Spawns(plan(b))))
      ensures r.Fail? ==> exists n :: n in Spawns(plan(b)) && !old(manager.Instantiable(n))
      ensures r.Pass? ==> alive == (old(alive) && KillParent !in plan(b))
      ensures r.Pass? ==> ExtendsWithClones(manager.pending, old(manager.pending), Spawns(plan(b)), manager.templates)
      ensures |manager.pending| >= |old(manager.pending)|
      ensures manager.pending[..|old(manager.pending)|] == old(manager.pending)
      ensures forall k :: |old(manager.pending)| <= k < |manager.pending| ==> fresh(manager.pending[k])
    {
      manager.updated := manager.updated + [b];
      ghost var p0 := manager.pending;
      ghost var alive0 := alive;
      var effects := plan(b);
      r := Pass;
      var j := 0;
      while j < |effects|
        invariant r.Pass? && manager.updated == old(manager.updated) + [b]
        invariant Applied(manager, effects, j, alive0, p0)
        invariant forall k :: |p0| <= k < |manager.pending| ==> fresh(manager.pending[k])
      {
        r := ApplyEffect(manager, effects, j, alive0, p0);
        if r.Fail? {
          SpawnsContain(effects, j);
          return;
        }
        j := j + 1;
      }
      assert effects[..j] == effects;
    }

    /** How far a behavior's effects have been applied: the first `j` effects spawned clones of
        templates that could be instantiated, and killed this actor if one of them was a kill. */
    ghost predicate Applied(manager: ActorManager, effects: seq<Effect>, j: int, alive0: bool, p0: seq<Actor>)
      reads this`alive, manager`pending, manager`templates
      reads manager.templates.Values`body, manager.templates.Values`geom
    {
      0 <= j <= |effects| &&
      manager.AllInstantiable(Spawns(effects[..j])) &&
      alive == (alive0 && KillParent !in effects[..j]) &&
      ExtendsWithClones(manager.pending, p0, Spawns(effects[..j]), manager.templates)
    }

    /** Applies `effects[j]`: a spawn instantiates the template, a kill kills this actor. */
    method ApplyEffect(manager: ActorManager, effects: seq<Effect>, j: int, ghost alive0: bool, ghost p0: seq<Actor>)
      returns (r: Outcome)
      requires j < |effects| && Applied(manager, effects, j, alive0, p0)
      modifies this`alive, this`kills, manager`pending
      ensures r.Fail? ==> effects[j].Spawn? && !old(manager.Instantiable(effects[j].templateName))
      ensures r.Fail? ==> manager.pending == old(manager.pending)
      ensures r.Pass? ==> Applied(manager, effects, j + 1, alive0, p0)
      ensures |manager.pending| >= |old(manager.pending)|
      ensures manager.pending[..|old(manager.pending)|] == old(manager.pending)
      ensures forall k :: |old(manager.pending)| <= k < |manager.pending| ==> fresh(manager.pending[k])
    {
      assert effects[..j + 1][..j] == effects[..j];
      assert effects[..j + 1] == effects[..j] + [effects[j]];
      r := Pass;
      match effects[j] {
        case Spawn(name) =>
          ghost var before := manager.pending;
          var c := manager.InstantiateTemplate(name);
          if c.Err? {
            return Fail(c.error);
          }
          ExtendsTrans(manager.pending, before, p0, Spawns(effects[..j]), [name], manager.templates);
        case KillParent =>
          Kill();
      }
    }
  }

  /** `c` was cloned from `t` (before any Initialize hook ran): same length, run-time types and
      order of behaviors, each owned by `c`; the same sprite; its own body and a geom on it with
      the masks of `t`'s geom. */
  ghost predicate IsCloneOf(c: Actor, t: Actor)
    reads c`sprite, c`body, c`geom, t`sprite, t`geom, c.geom, t.geom, c.behaviors
  {
    |c.behaviors| == |t.behaviors| &&
    (forall i :: 0 <= i < |c.behaviors| ==> c.behaviors[i].kind == t.behaviors[i].kind && c.behaviors[i].parent == c) &&
    c.sprite == t.sprite &&
    c.body != null && c.geom != null && t.geom != null && c.geom.body == c.body &&
    c.geom.collisionCategories == t.geom.collisionCategories && c.geom.collidesWith == t.geom.collidesWith
  }

  /** The template names an effect list asks for, in order. */
  function Spawns(es: seq<Effect>): seq<string>
  {
    if es == [] then []
    else Spawns(es[..|es| - 1]) + (if es[|es| - 1].Spawn? then [es[|es| - 1].templateName] else [])
  }

  /** The template names the behaviors of a list ask for, in update order. */
  function BehaviorSpawns(bs: seq<Behavior>, plan: Behavior -> seq<Effect>): seq<string>
  {
    if bs == [] then [] else BehaviorSpawns(bs[..|bs| - 1], plan) + Spawns(plan(bs[|bs| - 1]))
  }

  function ActorSpawns(a: Actor, plan: Behavior -> seq<Effect>): seq<string>
  {
    BehaviorSpawns(a.behaviors, plan)
  }

  /** The template names a list of actors asks for, in update order. */
  function RoundSpawns(s: seq<Actor>, plan: Behavior -> seq<Effect>): seq<string>
  {
    if s == [] then [] else RoundSpawns(s[..|s| - 1], plan) + ActorSpawns(s[|s| - 1], plan)
  }

  /** Some behavior in the list kills its owner. */
  predicate KilledIn(bs: seq<Behavior>, plan: Behavior -> seq<Effect>)
  {
    exists i :: 0 <= i < |bs| && KillParent in plan(bs[i])
  }

  predicate KilledBy(a: Actor, plan: Behavior -> seq<Effect>)
  {
    KilledIn(a.behaviors, plan)
  }

  /** All behaviors of a list of actors, in update order. */
  function BehaviorsOf(s: seq<Actor>): seq<Behavior>
  {
    if s == [] then [] else BehaviorsOf(s[..|s| - 1]) + s[|s| - 1].behaviors
  }

  lemma {:induction false} SpawnsContain(es: seq<Effect>, j: int)
    requires 0 <= j < |es| && es[j].Spawn?
    ensures es[j].templateName in Spawns(es)
  {
    if j < |es| - 1 {
      SpawnsContain(es[..|es| - 1], j);
    }
  }

  lemma {:induction false} BehaviorSpawnsContain(bs: seq<Behavior>, i: int, plan: Behavior -> seq<Effect>)
    requires 0 <= i < |bs|
    ensures forall n :: n in Spawns(plan(bs[i])) ==> n in BehaviorSpawns(bs, plan)
  {
    if i < |bs| - 1 {
      BehaviorSpawnsContain(bs[..|bs| - 1], i, plan);
    }
  }

  lemma {:induction false} RoundSpawnsContain(s: seq<Actor>, i: int, plan: Behavior -> seq<Effect>)
    requires 0 <= i < |s|
    ensures forall n :: n in ActorSpawns(s[i], plan) ==> n in RoundSpawns(s, plan)
  {
    if i < |s| - 1 {
      RoundSpawnsContain(s[..|s| - 1], i, plan);
    }
  }

  /** The actors of a list that are alive, in their order. */
  function Survivors(s: seq<Actor>): (r: seq<Actor>)
    reads s`alive
  {
    if s == [] then [] else (if s[0].alive then [s[0]] else []) + Survivors(s[1..])
  }

  /** The actors of a list that are dead, in their order. */
  function Dead(s: seq<Actor>): (r: seq<Actor>)
    reads s`alive
  {
    if s == [] then [] else (if !s[0].alive then [s[0]] else []) + Dead(s[1..])
  }

  /** The position of the first occurrence of `x` (`List<T>.IndexOf`). */
  function FirstIndex(s: seq<Actor>, x: Actor): (i: nat)
    requires x in s
    ensures i < |s| && s[i] == x && x !in s[..i]
  {
    if s[0] == x then 0
    else
      var j := FirstIndex(s[1..], x);
      assert s[..j + 1] == [s[0]] + s[1..][..j];
      j + 1
  }

  /** `List<T>.Remove`: drops the first occurrence, if any, and keeps the rest in order. */
  function RemoveFirst(s: seq<Actor>, x: Actor): (r: seq<Actor>)
    ensures x !in s ==> r == s
    ensures x in s ==> r == s[..FirstIndex(s, x)] + s[FirstIndex(s, x) + 1..]
  {
    if s == [] then []
    else if s[0] == x then s[1..]
    else
      var t := RemoveFirst(s[1..], x);
      assert x in s ==> x in s[1..] && FirstIndex(s, x) == FirstIndex(s[1..], x) + 1;
      assert x in s ==> s[..FirstIndex(s, x)] == [s[0]] + s[1..][..FirstIndex(s[1..], x)];
      assert x in s ==> s[FirstIndex(s, x) + 1..] == s[1..][FirstIndex(s[1..], x) + 1..];
      [s[0]] + t
  }

  /** The survivors are exactly the live members, and never more than the list. */
  lemma {:induction false} SurvivorsMembers(s: seq<Actor>)
    ensures forall a :: a in Survivors(s) ==> a in s && a.alive
    ensures forall a :: a in s && a.alive ==> a in Survivors(s)
    ensures |Survivors(s)| <= |s|
  {
    if s != [] {
      SurvivorsMembers(s[1..]);
      assert forall a :: a in s <==> a == s[0] || a in s[1..];
    }
  }

  /** The dead list holds only dead members of the list. */
  lemma {:induction false} DeadMembers(s: seq<Actor>)
    ensures forall a :: a in Dead(s) ==> a in s && !a.alive
    ensures forall a :: a in s && !a.alive ==> a in Dead(s)
  {
    if s != [] {
      DeadMembers(s[1..]);
      assert forall a :: a in s <==> a == s[0] || a in s[1..];
    }
  }

  /** Removing a dead actor's first occurrence keeps the survivors, and removes that first
      occurrence from the list of the dead. */
  lemma {:induction false} RemoveDeadKeepsSurvivors(s: seq<Actor>, x: Actor)
    requires !x.alive
    ensures Survivors(RemoveFirst(s, x)) == Survivors(s)
    ensures Dead(RemoveFirst(s, x)) == RemoveFirst(Dead(s), x)
  {
    if s == [] {
    } else if s[0] == x {
      assert Survivors(s) == Survivors(s[1..]);
      assert Dead(s) == [x] + Dead(s[1..]);
    } else {
      var rest := RemoveFirst(s[1..], x);
      RemoveDeadKeepsSurvivors(s[1..], x);
      assert RemoveFirst(s, x) == [s[0]] + rest;
      assert ([s[0]] + rest)[1..] == rest;
      assert Survivors([s[0]] + rest) == (if s[0].alive then [s[0]] else []) + Survivors(rest);
      assert Dead([s[0]] + rest) == (if !s[0].alive then [s[0]] else []) + Dead(rest);
      if !s[0].alive {
        assert Dead(s) == [s[0]] + Dead(s[1..]);
        assert RemoveFirst(Dead(s), x) == [s[0]] + RemoveFirst(Dead(s[1..]), x);
      } else {
        assert Dead(s) == Dead(s[1..]);
      }
    }
  }

  /** A list with no dead actors is its own list of survivors. */
  lemma {:induction false} NoDeadAllSurvive(s: seq<Actor>)
    requires Dead(s) == []
    ensures Survivors(s) == s
  {
    if s != [] {
      NoDeadAllSurvive(s[1..]);
    }
  }

  /** The actors of a list that have a behavior of exactly the given type, in their order. */
  function WithBehavior(s: seq<Actor>, k: BehaviorKind): (r: seq<Actor>)
    ensures forall a :: a in r ==> a in s && HasKind(a.behaviors, k)
    ensures forall i :: 0 <= i < |s| && HasKind(s[i].behaviors, k) ==> s[i] in r
    ensures |r| <= |s|
  {
    if s == [] then []
    else WithBehavior(s[..|s| - 1], k) + (if HasKind(s[|s| - 1].behaviors, k) then [s[|s| - 1]] else [])
  }

  /** Every actor of the list can be drawn. */
  ghost predicate AllDrawn(s: seq<Actor>)
    reads s`sprite, s`body, set a | a in s :: a.sprite,
      set a | a in s && a.sprite != null :: a.sprite.currentAnimation
  {
    forall a :: a in s ==> a.Drawn().Pass?
  }

  /** A drawable prefix followed by a drawable actor is drawable. */
  lemma AllDrawnExtend(s: seq<Actor>, i: int)
    requires 0 <= i < |s| && AllDrawn(s[..i]) && s[i].Drawn().Pass?
    ensures AllDrawn(s[..i + 1])
  {
    assert s[..i + 1] == s[..i] + [s[i]];
  }

  /** `s` is `base` followed by one clone of the template registered under each name. */
  ghost predicate ExtendsWithClones(s: seq<Actor>, base: seq<Actor>, names: seq<string>, templates: map<string, Actor>)
  {
    |s| == |base| + |names| && s[..|base|] == base &&
    forall k :: 0 <= k < |names| ==> names[k] in templates && s[|base| + k].clonedFrom == templates[names[k]]
  }

  lemma ExtendsTrans(s: seq<Actor>, mid: seq<Actor>, base: seq<Actor>, n0: seq<string>, n1: seq<string>,
                     templates: map<string, Actor>)
    requires ExtendsWithClones(mid, base, n0, templates)
    requires ExtendsWithClones(s, mid, n1, templates)
    ensures ExtendsWithClones(s, base, n0 + n1, templates)
  {
    assert s[..|base|] == mid[..|base|];
    forall k | 0 <= k < |n0 + n1|
      ensures (n0 + n1)[k] in templates && s[|base| + k].clonedFrom == templates[(n0 + n1)[k]]
    {
      if k < |n0| {
        assert s[|base| + k] == mid[|base| + k];
      } else {
        assert s[|base| + k] == s[|mid| + (k - |n0|)];
      }
    }
  }

  /** Putting a prefix in front keeps the clone suffix. */
  lemma ExtendsPrefix(s: seq<Actor>, base: seq<Actor>, names: seq<string>, templates: map<string, Actor>,
                      front: seq<Actor>)
    requires ExtendsWithClones(s, base, names, templates)
    ensures ExtendsWithClones(front + s, front + base, names, templates)
  {
    assert (front + s)[..|front + base|] == front + s[..|base|];
    forall k | 0 <= k < |names|
      ensures names[k] in templates && (front + s)[|front + base| + k].clonedFrom == templates[names[k]]
    {
      assert (front + s)[|front + base| + k] == s[|base| + k];
    }
  }

  /** Removes the first occurrence of each actor of `dead`, in turn, from `s`; when `dead` lists
      exactly the dead members of `s`, what is left is the survivors. */
  method RemoveEach(s: seq<Actor>, dead: seq<Actor>) returns (remaining: seq<Actor>)
    requires dead == Dead(s)
    ensures remaining == Survivors(s)
  {
    DeadMembers(s);
    remaining := s;
    var i := 0;
    while i < |dead|
      invariant 0 <= i <= |dead|
      invariant Survivors(remaining) == Survivors(s)
      invariant Dead(remaining) == dead[i..]
    {
      var x := dead[i];
      assert x in dead;
      RemoveDeadKeepsSurvivors(remaining, x);
      assert dead[i..][0] == x && dead[i..][1..] == dead[i + 1..];
      assert RemoveFirst(dead[i..], x) == dead[i + 1..];
      remaining := RemoveFirst(remaining, x);
      i := i + 1;
    }
    assert dead[i..] == [];
    NoDeadAllSurvive(remaining);
  }

  class ActorManager {
    var templates: map<string, Actor>
    var live: seq<Actor>
    var pending: seq<Actor>
    /** Every behavior update run so far, in the order it ran. */
    ghost var updated: seq<Behavior>

    /** No actor is both live and pending. */
    ghost predicate Valid()
      reads this`live, this`pending
    {
      forall i, j :: 0 <= i < |live| && 0 <= j < |pending| ==> live[i] != pending[j]
    }

    constructor ()
      ensures Valid()
      ensures templates == map[] && live == [] && pending == [] && updated == []
    {
      templates := map[];
      live := [];
      pending := [];
      updated := [];
    }

    /** `name` can be instantiated: it is registered and its template has physics to copy. */
    ghost predicate Instantiable(name: string)
      reads this`templates, templates.Values`body, templates.Values`geom
    {
      name in templates && templates[name].body != null && templates[name].geom != null
    }

    ghost predicate AllInstantiable(names: seq<string>)
      reads this`templates, templates.Values`body, templates.Values`geom
    {
      forall n :: n in names ==> Instantiable(n)
    }

    /** One frame. Phase 1 sweeps the actors that are dead at its start out of the live list,
        keeping the order of the rest. Phase 2 updates each survivor once, in order, so an actor
        created now is not updated and an actor killed now stays listed until the next frame.
        Phase 3 appends every actor created before or during this frame to the live list, in
        order, and empties the pending list. A template that cannot be instantiated in phase 2
        throws out of the frame after phase 1. */
    method Update(plan: Behavior -> seq<Effect>) returns (r: Outcome)
      requires Valid()
      modifies this`live, this`pending, this`updated, live`alive, live`kills
      ensures Valid()
      ensures r.Pass? <==> old(AllInstantiable(RoundSpawns(Survivors(live), plan))) && old(AllDrawn(Survivors(live)))
      ensures r.Fail? ==> live == old(Survivors(live))
      ensures r.Pass? ==> pending == []
      ensures r.Pass? ==>
        ExtendsWithClones(live, old(Survivors(live)) + old(pending), RoundSpawns(old(Survivors(live)), plan), templates)
      ensures r.Pass? ==> forall k :: |old(Survivors(live))| + |old(pending)| <= k < |live| ==> fresh(live[k])
      ensures r.Pass? ==> updated == old(updated) + BehaviorsOf(old(Survivors(live)))
      ensures r.Pass? ==> forall a :: a in old(Survivors(live)) ==> (a.alive <==> !KilledBy(a, plan))
      ensures forall a :: a in old(live) && !old(a.alive) ==> !a.alive && a !in live
    {
      ghost var L0 := live;
      ghost var drawn := AllDrawn(Survivors(L0));
      SurvivorsMembers(L0);
      DeadMembers(L0);
      SweepDead();
      assert AllDrawn(live) == drawn;
      assert forall k :: 0 <= k < |live| ==> live[k] in L0 && live[k].alive;
      r := UpdateSurvivors(plan, L0);
    }

    /** Phases 2 and 3, on a live list already swept of the actors in `L0` that were dead. */
    method UpdateSurvivors(plan: Behavior -> seq<Effect>, ghost L0: seq<Actor>) returns (r: Outcome)
      requires Valid()
      requires forall k :: 0 <= k < |live| ==> live[k] in L0 && live[k].alive
      requires forall a :: a in L0 && !a.alive ==> a !in live && a !in pending
      modifies this`live, this`pending, this`updated, live`alive, live`kills
      ensures Valid()
      ensures r.Pass? <==> old(AllInstantiable(RoundSpawns(live, plan))) && old(AllDrawn(live))
      ensures r.Fail? ==> live == old(live)
      ensures r.Pass? ==> pending == []
      ensures r.Pass? ==> ExtendsWithClones(live, old(live) + old(pending), RoundSpawns(old(live), plan), templates)
      ensures r.Pass? ==> forall k :: |old(live)| + |old(pending)| <= k < |live| ==> fresh(live[k])
      ensures r.Pass? ==> updated == old(updated) + BehaviorsOf(old(live))
      ensures r.Pass? ==> forall a :: a in old(live) ==> (a.alive <==> !KilledBy(a, plan))
      ensures forall a :: a in L0 && !old(a.alive) ==> !a.alive && a !in live
    {
      ghost var surv := live;
      ghost var p0 := pending;
      r := UpdateLive(plan);
      if r.Fail? {
        forall i, j | 0 <= i < |live| && 0 <= j < |pending|
          ensures live[i] != pending[j]
        {
          if j < |p0| {
            assert pending[j] == p0[j];
          }
        }
        return;
      }
      ghost var mid := pending;
      Promote();
      assert live == surv + mid;
      ExtendsPrefix(mid, p0, RoundSpawns(surv, plan), templates, surv);
    }

    /** Phase 1: collects the dead actors, then removes each from the live list. */
    method SweepDead()
      modifies this`live
      ensures live == old(Survivors(live))
    {
      var dead := CollectDead();
      live := RemoveEach(live, dead);
    }

    /** The dead live actors, in live order. */
    method CollectDead() returns (dead: seq<Actor>)
      ensures dead == Dead(live)
    {
      dead := [];
      var i := 0;
      while i < |live|
        invariant 0 <= i <= |live|
        invariant dead + Dead(live[i..]) == Dead(live)
      {
        assert live[i..] == [live[i]] + live[i + 1..];
        if !live[i].alive {
          dead := dead + [live[i]];
        }
        i := i + 1;
      }
      assert live[i..] == [];
    }

    /** Phase 2: updates each live actor once, in list order. */
    method UpdateLive(plan: Behavior -> seq<Effect>) returns (r: Outcome)
      modifies this`pending, this`updated, live`alive, live`kills
      ensures r.Pass? <==> old(AllInstantiable(RoundSpawns(live, plan))) && old(AllDrawn(live))
      ensures r.Pass? ==> ExtendsWithClones(pending, old(pending), RoundSpawns(live, plan), templates)
      ensures |pending| >= |old(pending)| && pending[..|old(pending)|] == old(pending)
      ensures forall k :: |old(pending)| <= k < |pending| ==> fresh(pending[k])
      ensures r.Pass? ==> updated == old(updated) + BehaviorsOf(live)
      ensures r.Pass? ==> forall a :: a in live ==> (a.alive <==> old(a.alive) && !KilledBy(a, plan))
    {
      ghost var p0 := pending;
      ghost var u0 := updated;
      var actors := live;
      ghost var alive0 := seq(|actors|, k requires 0 <= k < |actors| reads actors => actors[k].alive);
      ghost var done: set<Actor> := {};
      r := Pass;
      var i := 0;
      while i < |actors|
        invariant 0 <= i <= |actors| && r.Pass?
        invariant forall n :: Instantiable(n) == old(Instantiable(n))
        invariant Tracked(actors, i, plan, alive0, done, p0, u0)
        invariant forall k :: |p0| <= k < |pending| ==> fresh(pending[k])
        invariant AllDrawn(actors[..i]) && AllDrawn(actors) == old(AllDrawn(actors))
      {
        ghost var before := pending;
        r := UpdateNext(actors[i], actors, i, plan, alive0, done, p0, u0);
        forall k | |p0| <= k < |pending|
          ensures fresh(pending[k])
        {
          if k < |before| {
            assert pending[k] == before[k];
          }
        }
        if r.Fail? {
          break;
        }
        done := done + {actors[i]};
        i := i + 1;
      }
      if r.Pass? {
        assert actors[..i] == actors;
      }
    }

    /** Where phase 2 stands after updating `actors[..i]`: those behaviors have run, their
        templates could be cloned and the clones are pending, and exactly the actors updated so
        far (`done`) that a behavior killed are dead. */
    ghost predicate Tracked(actors: seq<Actor>, i: int, plan: Behavior -> seq<Effect>, alive0: seq<bool>,
                            done: set<Actor>, p0: seq<Actor>, u0: seq<Behavior>)
      reads this`updated, this`pending, this`templates, templates.Values`body, templates.Values`geom, actors`alive
    {
      0 <= i <= |actors| == |alive0| &&
      updated == u0 + BehaviorsOf(actors[..i]) &&
      AllInstantiable(RoundSpawns(actors[..i], plan)) &&
      ExtendsWithClones(pending, p0, RoundSpawns(actors[..i], plan), templates) &&
      (forall k :: 0 <= k < i ==> actors[k] in done) &&
      forall k :: 0 <= k < |actors| ==>
        actors[k].alive == (alive0[k] && !(KilledBy(actors[k], plan) && actors[k] in done))
    }

    /** One step of phase 2: updates `actors[i]`. */
    method UpdateNext(a: Actor, actors: seq<Actor>, i: int, plan: Behavior -> seq<Effect>, ghost alive0: seq<bool>,
                      ghost done: set<Actor>, ghost p0: seq<Actor>, ghost u0: seq<Behavior>) returns (r: Outcome)
      requires 0 <= i < |actors| && a == actors[i] && Tracked(actors, i, plan, alive0, done, p0, u0)
      requires AllDrawn(actors[..i])
      modifies this`pending, this`updated, a`alive, a`kills
      ensures r.Fail? ==> (exists n :: n in RoundSpawns(actors, plan) && !old(Instantiable(n))) || !AllDrawn(actors)
      ensures r.Pass? ==> Tracked(actors, i + 1, plan, alive0, done + {a}, p0, u0) && AllDrawn(actors[..i + 1])
      ensures AllDrawn(actors) == old(AllDrawn(actors))
      ensures |pending| >= |old(pending)| && pending[..|old(pending)|] == old(pending)
      ensures forall k :: |old(pending)| <= k < |pending| ==> fresh(pending[k])
    {
      ghost var before := pending;
      r := a.Update(this, plan);
      if r.Pass? {
        AllDrawnExtend(actors, i);
        assert actors[..i + 1][..i] == actors[..i];
        ExtendsTrans(pending, before, p0, RoundSpawns(actors[..i], plan), ActorSpawns(a, plan), templates);
      } else if a.Drawn().Fail? {
        assert a in actors;
      } else {
        ghost var n :| n in ActorSpawns(a, plan) && !old(Instantiable(n));
        RoundSpawnsContain(actors, i, plan);
      }
    }

    /** Phase 3: appends the pending actors to the live list, in order, and clears them. */
    method Promote()
      modifies this`live, this`pending
      ensures live == old(live) + old(pending) && pending == []
    {
      var i := 0;
      while i < |pending|
        invariant 0 <= i <= |pending|
        invariant pending == old(pending)
        invariant live == old(live) + pending[..i]
      {
        assert pending[..i + 1] == pending[..i] + [pending[i]];
        live := live + [pending[i]];
        i := i + 1;
      }
      assert pending[..i] == pending;
      pending := [];
    }

    /** Registers `template` under `name`, replacing any template already there. */
    method AddActorTemplate(template: Actor, name: string)
      modifies this`templates
      ensures templates == old(templates)[name := template]
    {
      templates := templates[name := template];
    }

    /** Appends a clone of the named template to the actors created this frame and returns it.
        An unregistered name throws and changes nothing. */
    method InstantiateTemplate(templateName: string) returns (r: Result<Actor>)
      modifies this`pending
      ensures old(Valid()) ==> Valid()
      ensures r.Ok? <==> Instantiable(templateName)
      ensures templateName !in templates ==> r == Err(ArgumentError("templateName"))
      ensures templateName in templates && !Instantiable(templateName) ==> r == Err(NullReference)
      ensures r.Err? ==> pending == old(pending)
      ensures r.Ok? ==> fresh(r.value) && pending == old(pending) + [r.value]
      ensures r.Ok? ==> IsCloneOf(r.value, templates[templateName]) && r.value.clonedFrom == templates[templateName]
      ensures r.Ok? ==> r.value.alive && fresh(r.value.body) && fresh(r.value.geom)
      ensures r.Ok? ==> ExtendsWithClones(pending, old(pending), [templateName], templates)
    {
      if templateName !in templates {
        return Err(ArgumentError("templateName"));
      }
      var c := templates[templateName].Clone();
      if c.Err? {
        return Err(c.error);
      }
      pending := pending + [c.value];
      r := Ok(c.value);
    }

    /** The live actors that have a behavior of exactly the given type, in live order; dead
        actors not yet swept are included. */
    method FindActorsWithBehavior(q: TypeQuery) returns (r: Result<seq<Actor>>)
      ensures r.Err? <==> !IsBehaviorSubclass(q)
      ensures r.Err? ==> r.error == ArgumentError("behaviorType")
      ensures r.Ok? ==> r.value == WithBehavior(live, q.kind)
    {
      if !IsBehaviorSubclass(q) {
        return Err(ArgumentError("behaviorType"));
      }
      var found: seq<Actor> := [];
      var i := 0;
      while i < |live|
        invariant 0 <= i <= |live|
        invariant found == WithBehavior(live[..i], q.kind)
      {
        var b := live[i].GetBehavior(q);
        assert live[..i + 1][..i] == live[..i];
        if b.Ok? && b.value != null {
          found := found + [live[i]];
        }
        i := i + 1;
      }
      assert live[..i] == live;
      r := Ok(found);
    }

    /** Kills every live and every pending actor, once per listing, then empties all three
        collections. */
    method Unload()
      modifies this`live, this`pending, this`templates, live`alive, live`kills, pending`alive, pending`kills
      ensures Valid()
      ensures live == [] && pending == [] && templates == map[]
      ensures forall a :: a in old(live) || a in old(pending) ==> !a.alive
      ensures forall a :: a in old(live) || a in old(pending) ==>
        a.kills == old(a.kills) + multiset(old(live))[a] + multiset(old(pending))[a]
    {
      KillAll(live);
      KillAll(pending);
      live := [];
      pending := [];
      templates := map[];
    }
  }

  /** Kills each actor of the list once per occurrence, in order. */
  method KillAll(actors: seq<Actor>)
    modifies actors`alive, actors`kills
    ensures forall a :: a in actors ==> !a.alive
    ensures forall a :: a in actors ==> a.kills == old(a.kills) + multiset(actors)[a]
  {
    var i := 0;
    while i < |actors|
      invariant 0 <= i <= |actors|
      invariant forall a :: a in actors[..i] ==> !a.alive
      invariant forall a :: a in actors ==> a.kills == old(a.kills) + multiset(actors[..i])[a]
    {
      assert actors[..i + 1] == actors[..i] + [actors[i]];
      actors[i].Kill();
      i := i + 1;
    }
    assert actors[..i] == actors;
  }
}
