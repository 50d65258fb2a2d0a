/** Confinement: four static wall geoms around a rectangle keep an actor inside it. The walls of
    each rectangle are built once and shared, through a cache that lives as long as the program
    (a static dictionary in the game), by every actor confined to that rectangle; each actor that
    registers adds its categories to the walls' collide-with masks. */
module Confinement {
  import opened Errors
  import Xna
  import Physics
  import opened Actors

  /** The wall geoms are 100 units thick and sit 50 units beyond the rectangle's half extents. */
  const WallThickness: int := 100
  const WallGap: int := 50

  /** CollisionBorders: the walls around one rectangle, on one static body. The offsets are the
      geoms' positions relative to the body. */
  class CollisionBorders {
    const borderBody: Physics.Body
    const position: Xna.Vec2
    const leftBorderGeom: Physics.Geom
    const rightBorderGeom: Physics.Geom
    const topBorderGeom: Physics.Geom
    const bottomBorderGeom: Physics.Geom
    const leftOffset: Xna.Vec2
    const rightOffset: Xna.Vec2
    const topOffset: Xna.Vec2
    const bottomOffset: Xna.Vec2

    constructor (borderBody: Physics.Body, position: Xna.Vec2,
                 left: Physics.Geom, right: Physics.Geom, top: Physics.Geom, bottom: Physics.Geom,
                 leftOffset: Xna.Vec2, rightOffset: Xna.Vec2, topOffset: Xna.Vec2, bottomOffset: Xna.Vec2)
      ensures this.borderBody == borderBody && this.position == position
      ensures leftBorderGeom == left && rightBorderGeom == right && topBorderGeom == top && bottomBorderGeom == bottom
      ensures this.leftOffset == leftOffset && this.rightOffset == rightOffset
      ensures this.topOffset == topOffset && this.bottomOffset == bottomOffset
    {
      this.borderBody := borderBody;
      this.position := position;
      leftBorderGeom := left;
      rightBorderGeom := right;
      topBorderGeom := top;
      bottomBorderGeom := bottom;
      this.leftOffset := leftOffset;
      this.rightOffset := rightOffset;
      this.topOffset := topOffset;
      this.bottomOffset := bottomOffset;
    }

    function Geoms(): set<Physics.Geom>
    {
      {leftBorderGeom, rightBorderGeom, topBorderGeom, bottomBorderGeom}
    }

    /** Four different geoms. */
    predicate Distinct()
    {
      leftBorderGeom != rightBorderGeom && leftBorderGeom != topBorderGeom && leftBorderGeom != bottomBorderGeom &&
      rightBorderGeom != topBorderGeom && rightBorderGeom != bottomBorderGeom && topBorderGeom != bottomBorderGeom
    }

    /** The walls' collide-with masks, in the order left, top, right, bottom. */
    function Masks(): (ms: seq<Physics.Mask>)
      reads Geoms()
      ensures |ms| == 4
    {
      [leftBorderGeom.collidesWith, topBorderGeom.collidesWith, rightBorderGeom.collidesWith, bottomBorderGeom.collidesWith]
    }

    /** These are the walls of `r`, in category `cat`: four different geoms on the border body,
        centred on the rectangle and offset half a wall beyond each edge. */
    ghost predicate Around(r: Xna.Rectangle, cat: Physics.Mask)
      reads Geoms()
    {
      Distinct() && position == Centre(r) &&
      leftOffset == LeftOffset(r) && rightOffset == RightOffset(r) &&
      topOffset == TopOffset(r) && bottomOffset == BottomOffset(r) &&
      leftBorderGeom.body == borderBody && rightBorderGeom.body == borderBody &&
      topBorderGeom.body == borderBody && bottomBorderGeom.body == borderBody &&
      Categories() == [cat, cat, cat, cat]
    }

    /** The walls' categories, in the same order. */
    function Categories(): (cs: seq<Physics.Mask>)
      reads Geoms()
      ensures |cs| == 4
    {
      [leftBorderGeom.collisionCategories, topBorderGeom.collisionCategories,
       rightBorderGeom.collisionCategories, bottomBorderGeom.collisionCategories]
    }
  }

  /** Every mask of `ms` with the bits of `c` set. */
  function OrEach(ms: seq<Physics.Mask>, c: Physics.Mask): seq<Physics.Mask>
  {
    seq(|ms|, k requires 0 <= k < |ms| => Physics.SetBits(ms[k], c))
  }

  /** The masks after actors with the given categories have registered, in order. */
  function Registered(ms: seq<Physics.Mask>, cs: seq<Physics.Mask>): (r: seq<Physics.Mask>)
    ensures |r| == |ms|
  {
    if cs == [] then ms else OrEach(Registered(ms, cs[..|cs| - 1]), cs[|cs| - 1])
  }

  /** All the categories in `cs` together. */
  function Union(cs: seq<Physics.Mask>): (u: Physics.Mask)
    ensures forall j :: 0 <= j < |cs| ==> cs[j] <= u
    ensures forall c :: c in u ==> exists j :: 0 <= j < |cs| && c in cs[j]
  {
    if cs == [] then {} else Union(cs[..|cs| - 1]) + cs[|cs| - 1]
  }

  /** Registration only adds bits, and the order of registration does not matter: each wall ends
      up with the bits it had plus every category of every actor registered since. */
  lemma {:induction false} RegisteredUnion(ms: seq<Physics.Mask>, cs: seq<Physics.Mask>, k: int)
    requires 0 <= k < |ms|
    ensures Registered(ms, cs)[k] == ms[k] + Union(cs)
  {
    if cs != [] {
      RegisteredUnion(ms, cs[..|cs| - 1], k);
    }
  }

  /** The centre of the border body: the rectangle's left and top plus half its width and height,
      halved with C#'s truncating division. */
  function Centre(r: Xna.Rectangle): Xna.Vec2
  {
    Xna.FromInts(r.Left() + Xna.Div(r.width, 2), r.Top() + Xna.Div(r.height, 2))
  }

  /** `new Vector2(-rectangle.Width / 2 - 50f, 0)`: the negation binds before the division. */
  function LeftOffset(r: Xna.Rectangle): Xna.Vec2
  {
    Xna.Vec2((Xna.Div(-r.width, 2) - WallGap) as real, 0.0)
  }

  function RightOffset(r: Xna.Rectangle): Xna.Vec2
  {
    Xna.Vec2((Xna.Div(r.width, 2) + WallGap) as real, 0.0)
  }

  function TopOffset(r: Xna.Rectangle): Xna.Vec2
  {
    Xna.Vec2(0.0, (Xna.Div(-r.height, 2) - WallGap) as real)
  }

  function BottomOffset(r: Xna.Rectangle): Xna.Vec2
  {
    Xna.Vec2(0.0, (Xna.Div(r.height, 2) + WallGap) as real)
  }

  /** The walls face each other: the left and right offsets, and the top and bottom ones, are
      mirror images, because truncating division is symmetric. */
  lemma OffsetsMirror(r: Xna.Rectangle)
    ensures LeftOffset(r).x == -RightOffset(r).x && LeftOffset(r).y == RightOffset(r).y == 0.0
    ensures TopOffset(r).y == -BottomOffset(r).y && TopOffset(r).x == BottomOffset(r).x == 0.0
  {
    Xna.DivNegate(r.width, 2);
    Xna.DivNegate(r.height, 2);
  }

  /** Where the wall centres land, for a rectangle with non-negative size. The left and top walls
      are centred exactly half a wall's thickness outside the rectangle; the right and bottom ones
      are too when the size is even, and one unit further in when it is odd, since the halving
      truncates twice. */
  lemma WallCentres(r: Xna.Rectangle)
    requires r.width >= 0 && r.height >= 0
    ensures Centre(r).x + LeftOffset(r).x == (r.Left() - WallThickness / 2) as real
    ensures Centre(r).y + TopOffset(r).y == (r.Top() - WallThickness / 2) as real
    ensures Centre(r).x + RightOffset(r).x == (r.Right() + WallThickness / 2 - r.width % 2) as real
    ensures Centre(r).y + BottomOffset(r).y == (r.Bottom() + WallThickness / 2 - r.height % 2) as real
    ensures r.Left() <= Xna.Div(r.width, 2) + r.Left() <= r.Right()
    ensures r.Top() <= Xna.Div(r.height, 2) + r.Top() <= r.Bottom()
  {
    Xna.DivNegate(r.width, 2);
    Xna.DivNegate(r.height, 2);
    Xna.DivBounds(r.width, 2);
    Xna.DivBounds(r.height, 2);
    assert r.width == 2 * Xna.Div(r.width, 2) + r.width % 2;
    assert r.height == 2 * Xna.Div(r.height, 2) + r.height % 2;
  }

  /** The static `borderDictionary`, with the count of builds per rectangle kept for the proof. */
  class BorderCache {
    var borders: map<Xna.Rectangle, CollisionBorders>
    ghost var builds: multiset<Xna.Rectangle>

    /** Every rectangle in the dictionary was built exactly once, and no other was built; each
        entry's four walls are different geoms. */
    ghost predicate Valid()
      reads this`borders, this`builds
    {
      (forall r :: builds[r] == if r in borders then 1 else 0) &&
      forall r :: r in borders ==> borders[r].Distinct()
    }

    constructor ()
      ensures borders == map[] && builds == multiset{} && Valid()
    {
      borders := map[];
      builds := multiset{};
    }
  }

  /** ConstrainToRectangleBehavior. */
  class ConstrainToRectangleBehavior {
    const actorManager: ActorManager
    /** ActorBehavior.ParentActor */
    var parentActor: Actor?
    const rectangle: Xna.Rectangle
    const collisionCategory: Physics.Mask
    var assignedCollisionCategoriesYet: bool

    constructor (actorManager: ActorManager, rectangle: Xna.Rectangle, collisionCategory: Physics.Mask)
      ensures this.actorManager == actorManager && parentActor == null
      ensures this.rectangle == rectangle && this.collisionCategory == collisionCategory
      ensures !assignedCollisionCategoriesYet
    {
      this.actorManager := actorManager;
      parentActor := null;
      this.rectangle := rectangle;
      this.collisionCategory := collisionCategory;
      assignedCollisionCategoriesYet := false;
    }

    /** Builds the walls for this behavior's rectangle and adds them to the cache: left and top
        are new rectangle geoms in this behavior's category, right and bottom copies of them, all
        four colliding with nothing yet. Reaching the game's services goes through the parent
        actor, which must exist. */
    method BuildBorders(cache: BorderCache) returns (r: Outcome)
      requires rectangle !in cache.borders
      modifies cache`borders, cache`builds
      ensures r.Pass? <==> parentActor != null
      ensures r.Fail? ==> r.error == NullReference && cache.borders == old(cache.borders) && cache.builds == old(cache.builds)
      ensures r.Pass? ==> rectangle in cache.borders && cache.borders == old(cache.borders)[rectangle := cache.borders[rectangle]]
      ensures r.Pass? ==> cache.builds == old(cache.builds) + multiset{rectangle}
      ensures r.Pass? ==>
        var b := cache.borders[rectangle];
        fresh(b) && fresh(b.Geoms()) && b.Around(rectangle, collisionCategory) &&
        b.Masks() == [Physics.None, Physics.None, Physics.None, Physics.None]
      ensures old(cache.Valid()) ==> cache.Valid()
    {
      if parentActor == null {
        return Fail(NullReference);
      }
      var borders := NewBorders(rectangle, collisionCategory);
      cache.borders := cache.borders[rectangle := borders];
      cache.builds := cache.builds + multiset{rectangle};
      r := Pass;
    }

    /** Registers the parent actor with the walls of its rectangle, building them first if no
        actor has used that rectangle yet: the actor now collides with this behavior's category,
        and each wall with all of the actor's categories. The walls are never an actor's own geom. */
    method Initialize(cache: BorderCache) returns (r: Outcome)
      requires cache.Valid()
      requires parentActor != null && parentActor.geom != null && rectangle in cache.borders ==>
        parentActor.geom !in cache.borders[rectangle].Geoms()
      modifies cache`borders, cache`builds, this`assignedCollisionCategoriesYet
      modifies if parentActor != null && parentActor.geom != null then {parentActor.geom} else {}
      modifies if rectangle in cache.borders then cache.borders[rectangle].Geoms() else {}
      ensures cache.Valid()
      ensures r.Pass? <==> parentActor != null && parentActor.geom != null
      ensures r.Fail? ==> r.error == NullReference && assignedCollisionCategoriesYet == old(assignedCollisionCategoriesYet)
      ensures r.Pass? ==> assignedCollisionCategoriesYet
      ensures old(rectangle in cache.borders) || parentActor == null ==>
        cache.borders == old(cache.borders) && cache.builds == old(cache.builds)
      ensures old(rectangle !in cache.borders) && parentActor != null ==>
        rectangle in cache.borders && cache.borders == old(cache.borders)[rectangle := cache.borders[rectangle]] &&
        cache.builds == old(cache.builds) + multiset{rectangle} &&
        fresh(cache.borders[rectangle]) && fresh(cache.borders[rectangle].Geoms()) &&
        cache.borders[rectangle].Around(rectangle, collisionCategory)
      ensures r.Fail? && old(rectangle in cache.borders) ==>
        rectangle in cache.borders && cache.borders[rectangle].Masks() == old(cache.borders[rectangle].Masks())
      ensures r.Fail? && old(rectangle !in cache.borders) && parentActor != null ==>
        cache.borders[rectangle].Masks() == [Physics.None, Physics.None, Physics.None, Physics.None]
      ensures r.Pass? ==>
        parentActor.geom.collidesWith == Physics.SetBits(old(parentActor.geom.collidesWith), collisionCategory)
      ensures parentActor != null && parentActor.geom != null ==>
        parentActor.geom.collisionCategories == old(parentActor.geom.collisionCategories)
      ensures old(rectangle in cache.borders) ==>
        rectangle in cache.borders && cache.borders[rectangle].Categories() == old(cache.borders[rectangle].Categories())
      ensures r.Pass? ==>
        cache.borders[rectangle].Masks() ==
          OrEach(if old(rectangle in cache.borders) then old(cache.borders[rectangle].Masks())
                 else [Physics.None, Physics.None, Physics.None, Physics.None],
                 parentActor.geom.collisionCategories)
    {
      if rectangle !in cache.borders {
        r := BuildBorders(cache);
        if r.Fail? {
          return;
        }
      }
      r := RegisterParent(cache.borders[rectangle]);
    }

    /** The registration proper, once the walls exist. */
    method RegisterParent(b: CollisionBorders) returns (r: Outcome)
      requires b.Distinct()
      requires parentActor != null && parentActor.geom != null ==> parentActor.geom !in b.Geoms()
      modifies if parentActor != null && parentActor.geom != null then {parentActor.geom} else {}
      modifies b.Geoms(), this`assignedCollisionCategoriesYet
      ensures r.Pass? <==> parentActor != null && parentActor.geom != null
      ensures r.Fail? ==> r.error == NullReference && assignedCollisionCategoriesYet == old(assignedCollisionCategoriesYet)
      ensures r.Fail? ==> b.Masks() == old(b.Masks())
      ensures r.Pass? ==> assignedCollisionCategoriesYet
      ensures r.Pass? ==> parentActor.geom.collidesWith == Physics.SetBits(old(parentActor.geom.collidesWith), collisionCategory)
      ensures r.Pass? ==> b.Masks() == OrEach(old(b.Masks()), parentActor.geom.collisionCategories)
      ensures b.Categories() == old(b.Categories())
      ensures parentActor != null && parentActor.geom != null ==>
        parentActor.geom.collisionCategories == old(parentActor.geom.collisionCategories)
    {
      if parentActor == null || parentActor.geom == null {
        return Fail(NullReference);
      }
      var g := parentActor.geom;
      g.collidesWith := Physics.SetBits(g.collidesWith, collisionCategory);
      Register(b, g);
      assignedCollisionCategoriesYet := true;
      r := Pass;
    }

    /** Nothing to do each frame. */
    method Update(elapsed: int)
    {
    }
  }

  /** The walls of `rect` in category `cat`: left and top are new rectangle geoms in that
      category, right and bottom copies of them, and all four then collide with nothing. */
  method NewBorders(rect: Xna.Rectangle, cat: Physics.Mask) returns (b: CollisionBorders)
    ensures fresh(b) && fresh(b.Geoms()) && b.Around(rect, cat)
    ensures b.Masks() == [Physics.None, Physics.None, Physics.None, Physics.None]
  {
    var body := new Physics.Body();
    var left := new Physics.Geom(body);
    left.collisionCategories := cat;
    var right := new Physics.Geom.CopyOf(body, left);
    var top := new Physics.Geom(body);
    top.collisionCategories := cat;
    var bottom := new Physics.Geom.CopyOf(body, top);
    left.collidesWith := Physics.None;
    top.collidesWith := Physics.None;
    right.collidesWith := Physics.None;
    bottom.collidesWith := Physics.None;
    b := new CollisionBorders(body, Centre(rect), left, right, top, bottom,
                              LeftOffset(rect), RightOffset(rect), TopOffset(rect), BottomOffset(rect));
  }

  /** `CollidesWith |= ...CollisionCategories` on each of the four walls, in the order left, top,
      right, bottom. */
  method Register(b: CollisionBorders, g: Physics.Geom)
    requires b.Distinct() && g !in b.Geoms()
    modifies b.Geoms()
    ensures b.Masks() == OrEach(old(b.Masks()), g.collisionCategories)
    ensures b.Categories() == old(b.Categories())
  {
    b.leftBorderGeom.collidesWith := Physics.SetBits(b.leftBorderGeom.collidesWith, g.collisionCategories);
    b.topBorderGeom.collidesWith := Physics.SetBits(b.topBorderGeom.collidesWith, g.collisionCategories);
    b.rightBorderGeom.collidesWith := Physics.SetBits(b.rightBorderGeom.collidesWith, g.collisionCategories);
    b.bottomBorderGeom.collidesWith := Physics.SetBits(b.bottomBorderGeom.collidesWith, g.collisionCategories);
  }
}
