/** The parts of the Farseer physics engine the core touches, as opaque handles. A body has no
    observable state here; a geom carries the two collision bit masks the core reads and writes. */
module Physics {

  /** A Physics.Enums.CollisionCategories value: a [Flags] enum over the low 31 bits of an int,
      written here as the set of the bit positions it has set (Cat1 is bit 0). */
  type Mask = set<int>

  const None: Mask := {}
  const All: Mask := set k | 0 <= k < 31

  /** `m | b`, as the `|=` the core applies to a mask: every bit of `b` becomes set and every
      bit outside `b` keeps its value in `m`. */
  function SetBits(m: Mask, b: Mask): (r: Mask)
    ensures b <= r && m <= r
    ensures forall k :: k in r && k !in b ==> k in m
  {
    m + b
  }

  /** `m & ~b`: every bit of `b` becomes clear and every other bit of `m` is kept. */
  function ClearBits(m: Mask, b: Mask): (r: Mask)
    ensures r !! b && r <= m
    ensures forall k :: k in m && k !in b ==> k in r
  {
    m - b
  }

  /** Physics.Dynamics.Body. */
  class Body {
    constructor ()
    {
    }
  }

  /** Physics.Collisions.Geom, attached to a body. */
  class Geom {
    const body: Body
    var collisionCategories: Mask
    var collidesWith: Mask

    /** A new geom is in every category and collides with every category. */
    constructor (body: Body)
      ensures this.body == body
      ensures collisionCategories == All && collidesWith == All
    {
      this.body := body;
      collisionCategories := All;
      collidesWith := All;
    }

    /** `GeomFactory.CreateGeom(body, geom)`: a copy of `g` attached to `body`, with its masks. */
    constructor CopyOf(body: Body, g: Geom)
      ensures this.body == body
      ensures collisionCategories == g.collisionCategories && collidesWith == g.collidesWith
    {
      this.body := body;
      collisionCategories := g.collisionCategories;
      collidesWith := g.collidesWith;
    }
  }
}
