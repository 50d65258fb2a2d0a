/** MassSpringGrid: a square lattice of point masses, each tied to its eight neighbours by ideal
    springs. The nodes start evenly spaced inside a rectangle; each update integrates the interior
    nodes in place, and disturbances and twists push on every node's velocity. */
module Springs {
  import Xna

  /** MassSpringGrid.Node, stored by value in the grid. */
  datatype Node = Node(position: Xna.Vec2, velocity: Xna.Vec2, forces: Xna.Vec2)

  /** `new Node()`. */
  const Rest: Node := Node(Xna.Zero2, Xna.Zero2, Xna.Zero2)

  /** A node's mass, which the force is divided by. */
  type NonZero = m: real | m != 0.0 witness 1.0

  /** `v / s` on a Vector2. */
  function Over(v: Xna.Vec2, s: real): (r: Xna.Vec2)
    requires s != 0.0
    ensures r.Times(s) == v
  {
    Xna.Vec2(v.x / s, v.y / s)
  }

  // ---------------------------------------------------------------------------------------------
  // The initial layout

  /** The spacing of `n` nodes over `extent` units: `extent / n`, truncated. */
  function Spacing(extent: int, n: int): (d: int)
    requires n > 0
  {
    Xna.Div(extent, n)
  }

  /** The first node's coordinate: the part of `extent` the spacing leaves over is split between
      both sides. */
  function Start(origin: int, extent: int, n: int): (s: int)
    requires n > 0
  {
    origin + Xna.Div(extent - Spacing(extent, n) * n, 2)
  }

  /** Where node (x, y) of an n-by-n grid over `b` starts out. */
  function Placed(b: Xna.Rectangle, n: int, x: int, y: int): (p: Xna.Vec2)
    requires n > 0
  {
    var w, h := b.Right() - b.Left(), b.Bottom() - b.Top();
    Xna.FromInts(Start(b.x, w, n) + x * Spacing(w, n), Start(b.y, h, n) + y * Spacing(h, n))
  }

  lemma MulMono(a: int, b: int, c: int)
    requires 0 <= a <= b && c >= 0
    ensures a * c <= b * c
  {
    assert b * c - a * c == (b - a) * c;
  }

  /** Along one axis, for a non-negative extent: the spare units are split with at most one more
      on the far side, and every node's cell (the node and one spacing beyond it) lies within the
      extent. */
  lemma {:induction false} AxisLayout(origin: int, extent: int, n: int, i: int)
    requires n > 0 && extent >= 0 && 0 <= i < n
    ensures var d, s := Spacing(extent, n), Start(origin, extent, n);
      var farMargin := origin + extent - (s + n * d);
      origin <= s && s - origin <= farMargin <= s - origin + 1 &&
      origin <= s + i * d && s + i * d + d <= origin + extent
  {
    var d := Spacing(extent, n);
    Xna.DivBounds(extent, n);
    var spare := extent - d * n;
    assert 0 <= spare < n;
    Xna.DivBounds(spare, 2);
    var s := Start(origin, extent, n);
    assert s == origin + spare / 2;
    assert d >= 0;
    MulMono(i, n - 1, d);
    assert (n - 1) * d + d == n * d;
  }

  /** Every node starts inside the rectangle, at least one spacing short of its right and bottom
      edges, with the spare room split evenly (up to one unit) on both sides. */
  lemma LayoutInside(b: Xna.Rectangle, n: int, x: int, y: int)
    requires n > 0 && b.width >= 0 && b.height >= 0 && 0 <= x < n && 0 <= y < n
    ensures b.Left() as real <= Placed(b, n, x, y).x <= (b.Right() - Spacing(b.width, n)) as real
    ensures b.Top() as real <= Placed(b, n, x, y).y <= (b.Bottom() - Spacing(b.height, n)) as real
  {
    AxisLayout(b.x, b.width, n, x);
    AxisLayout(b.y, b.height, n, y);
  }

  /** The average of eight positions, `(a + ... + h) / 8f`. */
  function Average8(a: Xna.Vec2, b: Xna.Vec2, c: Xna.Vec2, d: Xna.Vec2,
                    e: Xna.Vec2, f: Xna.Vec2, g: Xna.Vec2, h: Xna.Vec2): (avg: Xna.Vec2)
  {
    Over(a.Plus(b).Plus(c).Plus(d).Plus(e).Plus(f).Plus(g).Plus(h), 8.0)
  }

  /** The even layout is the springs' equilibrium: each interior node sits exactly at the average
      of its eight neighbours. */
  lemma {:induction false} LayoutBalanced(b: Xna.Rectangle, n: int, x: int, y: int)
    requires n > 0
    ensures Average8(Placed(b, n, x - 1, y - 1), Placed(b, n, x, y - 1), Placed(b, n, x + 1, y - 1),
                     Placed(b, n, x - 1, y), Placed(b, n, x + 1, y),
                     Placed(b, n, x - 1, y + 1), Placed(b, n, x, y + 1), Placed(b, n, x + 1, y + 1))
            == Placed(b, n, x, y)
  {
    var w, h := b.Right() - b.Left(), b.Bottom() - b.Top();
    var sx, dx := Start(b.x, w, n), Spacing(w, n);
    var sy, dy := Start(b.y, h, n), Spacing(h, n);
    assert (x - 1) * dx == x * dx - dx && (x + 1) * dx == x * dx + dx;
    assert (y - 1) * dy == y * dy - dy && (y + 1) * dy == y * dy + dy;
  }

  // ---------------------------------------------------------------------------------------------
  // One node's integration step

  /** The step `Update` applies to one interior node, given the average of its neighbours'
      positions: the spring pulls toward that average, the velocity integrates the force and is
      damped, the position integrates the velocity, and the force is cleared. */
  function Relax(n: Node, average: Xna.Vec2, k: real, mass: NonZero, dt: real, damping: real): (r: Node)
  {
    var forces := n.forces.Plus(n.position.Minus(average).Times(-k));
    var velocity := n.velocity.Plus(Over(forces, mass).Times(dt)).Times(damping);
    Node(n.position.Plus(velocity.Times(dt)), velocity, Xna.Zero2)
  }

  /** A node at rest at the average of its neighbours stays where it is, whatever the constants. */
  lemma RelaxAtRest(n: Node, k: real, mass: NonZero, dt: real, damping: real)
    requires n.velocity == Xna.Zero2 && n.forces == Xna.Zero2
    ensures Relax(n, n.position, k, mass, dt, damping) == n
  {
    var forces := n.forces.Plus(n.position.Minus(n.position).Times(-k));
    assert forces == Xna.Zero2;
    assert Over(forces, mass) == Xna.Zero2;
  }

  /** `g` is an n-by-n grid of nodes. */
  ghost predicate Square(g: seq<seq<Node>>, n: int)
  {
    |g| == n && forall i :: 0 <= i < n ==> |g[i]| == n
  }

  /** The nodes `Update` integrates: all but the outermost rows and columns. */
  predicate Interior(n: int, x: int, y: int)
  {
    1 <= x < n - 1 && 1 <= y < n - 1
  }

  /** (i, j) comes before (x, y) in the update's order, x-major. */
  predicate Before(i: int, j: int, x: int, y: int)
  {
    i < x || (i == x && j < y)
  }

  // ---------------------------------------------------------------------------------------------
  // Velocity kicks

  /** `Math.Min(m / ls, 100)`: a push that falls off with the squared distance `ls`, capped at 100.
      At distance zero the division overflows toward infinity, so the cap applies. */
  function Falloff(m: real, ls: real): (r: real)
    ensures r <= 100.0
    ensures ls != 0.0 ==> r <= m / ls && (r == m / ls || r == 100.0)
  {
    if ls == 0.0 || m / ls > 100.0 then 100.0 else m / ls
  }

  /** The velocity change `ApplyDisturbance` gives a node at `p`: away from `point`, falling off
      with the squared distance. `unit` is the vector normalisation. */
  function Disturbance(point: Xna.Vec2, magnitude: real, unit: Xna.Vec2 -> Xna.Vec2, p: Xna.Vec2): (v: Xna.Vec2)
  {
    var displacement := point.Minus(p);
    unit(displacement).Times(Falloff(magnitude, displacement.LengthSquared())).Times(-1.0)
  }

  /** The velocity change `TwistGrid` gives a node at `p`: perpendicular to its direction from
      `center`, turned by the sign of `wrapDirection`. */
  function Twist(center: Xna.Vec2, wrapDirection: int, torque: real, unit: Xna.Vec2 -> Xna.Vec2, p: Xna.Vec2): (v: Xna.Vec2)
  {
    var displacement := p.Minus(center);
    var u := unit(displacement);
    Xna.Vec2(-u.y, u.x).Times(wrapDirection as real).Times(Falloff(torque, displacement.LengthSquared()))
  }

  /** A twist pushes at right angles to the node's direction from the centre. */
  lemma TwistPerpendicular(center: Xna.Vec2, wrapDirection: int, torque: real, unit: Xna.Vec2 -> Xna.Vec2, p: Xna.Vec2)
    ensures var t, u := Twist(center, wrapDirection, torque, unit, p), unit(p.Minus(center));
      t.x * u.x + t.y * u.y == 0.0
  {
    var u := unit(p.Minus(center));
    var s := (wrapDirection as real) * Falloff(torque, p.Minus(center).LengthSquared());
    var t := Twist(center, wrapDirection, torque, unit, p);
    assert t.x == -u.y * s && t.y == u.x * s;
    assert t.x * u.x + t.y * u.y == s * (u.x * u.y - u.x * u.y);
  }

  /** CreateGrid: an n-by-n array of nodes at rest, node (x, y) at `Placed(bounds, n, x, y)`. */
  method CreateGrid(n: int, bounds: Xna.Rectangle) returns (g: array2<Node>)
    requires n > 0
    ensures fresh(g) && g.Length0 == n && g.Length1 == n
    ensures forall x, y :: 0 <= x < n && 0 <= y < n ==> g[x, y] == Rest.(position := Placed(bounds, n, x, y))
  {
    g := new Node[n, n];
    var x := 0;
    while x < n
      invariant 0 <= x <= n
      invariant forall i, j :: 0 <= i < x && 0 <= j < n ==> g[i, j] == Rest
    {
      var y := 0;
      while y < n
        invariant 0 <= y <= n
        invariant forall i, j :: 0 <= i < x && 0 <= j < n ==> g[i, j] == Rest
        invariant forall j :: 0 <= j < y ==> g[x, j] == Rest
      {
        g[x, y] := Rest;
        y := y + 1;
      }
      x := x + 1;
    }
    PlaceNodes(g, bounds);
  }

  /** The second half of CreateGrid: walks `px` across and `py` down the grid one spacing at a
      time, starting from the split margins. */
  method PlaceNodes(g: array2<Node>, bounds: Xna.Rectangle)
    requires g.Length0 > 0 && g.Length1 == g.Length0
    requires forall i, j :: 0 <= i < g.Length0 && 0 <= j < g.Length1 ==> g[i, j] == Rest
    modifies g
    ensures forall x, y :: 0 <= x < g.Length0 && 0 <= y < g.Length1 ==>
      g[x, y] == Rest.(position := Placed(bounds, g.Length0, x, y))
  {
    var n := g.Length0;
    var regionWidth := bounds.Right() - bounds.Left();
    var regionHeight := bounds.Bottom() - bounds.Top();
    var dx := Xna.Div(regionWidth, n);
    var dy := Xna.Div(regionHeight, n);
    var startX := bounds.x + Xna.Div(regionWidth - dx * n, 2);
    var startY := bounds.y + Xna.Div(regionHeight - dy * n, 2);
    var px, py := startX, startY;
    var x := 0;
    while x < n
      invariant 0 <= x <= n
      invariant px == startX + x * dx && py == startY
      invariant forall i, j :: 0 <= i < x && 0 <= j < n ==> g[i, j] == Rest.(position := Placed(bounds, n, i, j))
      invariant forall i, j :: x <= i < n && 0 <= j < n ==> g[i, j] == Rest
    {
      var y := 0;
      while y < n
        invariant 0 <= y <= n
        invariant py == startY + y * dy
        invariant forall i, j :: 0 <= i < n && 0 <= j < n ==>
          g[i, j] == if Before(i, j, x, y) then Rest.(position := Placed(bounds, n, i, j)) else Rest
      {
        assert Xna.FromInts(px, py) == Placed(bounds, n, x, y);
        g[x, y] := g[x, y].(position := Xna.FromInts(px, py));
        py := py + dy;
        assert (y + 1) * dy == y * dy + dy;
        y := y + 1;
      }
      py := startY;
      px := px + dx;
      assert (x + 1) * dx == x * dx + dx;
      x := x + 1;
    }
  }

  /** The nodes of `g` as a value. */
  ghost function Snapshot(g: array2<Node>): (s: seq<seq<Node>>)
    reads g
    requires g.Length0 == g.Length1
    ensures Square(s, g.Length0)
    ensures forall i, j :: 0 <= i < g.Length0 && 0 <= j < g.Length1 ==> s[i][j] == g[i, j]
  {
    seq(g.Length0, i requires 0 <= i < g.Length0 reads g =>
      seq(g.Length1, j requires 0 <= j < g.Length1 reads g => g[i, j]))
  }

  /** Interior node (i, j) of `g` holds what `step` computes for it from the grid `g0` the sweep
      started from: the new positions of the neighbours swept before it and the old positions of
      the rest. */
  ghost predicate Swept(g: array2<Node>, g0: seq<seq<Node>>, i: int, j: int, step: (Node, Xna.Vec2) -> Node)
    reads g
    requires g.Length0 == g.Length1 && Square(g0, g.Length0) && Interior(g.Length0, i, j)
  {
    g[i, j] == step(g0[i][j],
                    Average8(g[i - 1, j - 1].position, g[i, j - 1].position, g0[i + 1][j - 1].position,
                             g[i - 1, j].position, g0[i + 1][j].position,
                             g[i - 1, j + 1].position, g0[i][j + 1].position, g0[i + 1][j + 1].position))
  }

  /** Update's loops, for any per-node `step`: every interior node, x-major, in place. */
  method SweepInterior(g: array2<Node>, step: (Node, Xna.Vec2) -> Node)
    requires g.Length0 == g.Length1
    modifies g
    ensures forall x, y :: 0 <= x < g.Length0 && 0 <= y < g.Length1 && !Interior(g.Length0, x, y) ==>
      g[x, y] == old(g[x, y])
    ensures forall x, y :: Interior(g.Length0, x, y) ==>
      g[x, y] == step(old(g[x, y]),
                      Average8(g[x - 1, y - 1].position, g[x, y - 1].position, old(g[x + 1, y - 1].position),
                               g[x - 1, y].position, old(g[x + 1, y].position),
                               g[x - 1, y + 1].position, old(g[x, y + 1].position), old(g[x + 1, y + 1].position)))
  {
    var n := g.Length0;
    ghost var g0 := Snapshot(g);
    SweepColumns(g, step, g0);
    forall x, y | Interior(n, x, y)
      ensures g[x, y] == step(old(g[x, y]),
                              Average8(g[x - 1, y - 1].position, g[x, y - 1].position, old(g[x + 1, y - 1].position),
                                       g[x - 1, y].position, old(g[x + 1, y].position),
                                       g[x - 1, y + 1].position, old(g[x, y + 1].position), old(g[x + 1, y + 1].position)))
    {
      assert Swept(g, g0, x, y, step);
      assert g0[x][y] == old(g[x, y]) && g0[x][y + 1] == old(g[x, y + 1]);
      assert g0[x + 1][y - 1] == old(g[x + 1, y - 1]) && g0[x + 1][y] == old(g[x + 1, y]) && g0[x + 1][y + 1] == old(g[x + 1, y + 1]);
    }
  }

  /** The outer loop of the sweep, against the snapshot `g0` of the grid it starts from. */
  method SweepColumns(g: array2<Node>, step: (Node, Xna.Vec2) -> Node, ghost g0: seq<seq<Node>>)
    requires g.Length0 == g.Length1 && Square(g0, g.Length0)
    requires forall i, j :: 0 <= i < g.Length0 && 0 <= j < g.Length1 ==> g[i, j] == g0[i][j]
    modifies g
    ensures forall i, j :: 0 <= i < g.Length0 && 0 <= j < g.Length1 && !Interior(g.Length0, i, j) ==> g[i, j] == g0[i][j]
    ensures forall i, j :: Interior(g.Length0, i, j) ==> Swept(g, g0, i, j, step)
  {
    var n := g.Length0;
    var x := 1;
    while x < n - 1
      invariant 1 <= x && (n >= 2 ==> x <= n - 1)
      invariant forall i, j :: 0 <= i < n && 0 <= j < n && !(Interior(n, i, j) && i < x) ==> g[i, j] == g0[i][j]
      invariant forall i, j :: Interior(n, i, j) && i < x ==> Swept(g, g0, i, j, step)
    {
      label before:
      SweepColumn(g, x, step, g0);
      forall i, j | Interior(n, i, j) && i < x
        ensures Swept(g, g0, i, j, step)
      {
        assert old@before(Swept(g, g0, i, j, step));
      }
      x := x + 1;
    }
  }

  /** One pass of the outer loop: sweeps the interior of column x, the columns after it still as
      they were in `g0`. */
  method SweepColumn(g: array2<Node>, x: int, step: (Node, Xna.Vec2) -> Node, ghost g0: seq<seq<Node>>)
    requires g.Length0 == g.Length1 && Square(g0, g.Length0) && 1 <= x < g.Length0 - 1
    requires forall i, j :: x <= i < g.Length0 && 0 <= j < g.Length1 ==> g[i, j] == g0[i][j]
    modifies g
    ensures forall j :: 1 <= j < g.Length1 - 1 ==> Swept(g, g0, x, j, step)
    ensures forall i, j :: 0 <= i < g.Length0 && 0 <= j < g.Length1 && !(i == x && 1 <= j < g.Length1 - 1) ==>
      g[i, j] == old(g[i, j])
  {
    var n := g.Length0;
    var y := 1;
    while y < n - 1
      invariant 1 <= y <= n - 1
      invariant forall j :: 1 <= j < y ==> Swept(g, g0, x, j, step)
      invariant forall i, j :: 0 <= i < n && 0 <= j < n && !(i == x && 1 <= j < y) ==> g[i, j] == old(g[i, j])
    {
      var average :=
        Average8(g[x - 1, y - 1].position, g[x, y - 1].position, g[x + 1, y - 1].position,
                 g[x - 1, y].position, g[x + 1, y].position,
                 g[x - 1, y + 1].position, g[x, y + 1].position, g[x + 1, y + 1].position);
      label before:
      g[x, y] := step(g[x, y], average);
      forall j | 1 <= j < y
        ensures Swept(g, g0, x, j, step)
      {
        assert old@before(Swept(g, g0, x, j, step));
      }
      y := y + 1;
    }
  }

  class MassSpringGrid {
    const gridSize: int
    const grid: array2<Node>
    const nodeMass: real
    const springConstant: real
    const springDamping: real
    const bounds: Xna.Rectangle

    /** A square array of the declared size, and a mass the force can be divided by. */
    ghost predicate Valid()
      reads this
    {
      gridSize > 0 && grid.Length0 == gridSize && grid.Length1 == gridSize && nodeMass != 0.0
    }

    constructor (gridSize: int, nodeMass: real, springConstant: real, springDamping: real, bounds: Xna.Rectangle)
      requires gridSize > 0 && nodeMass != 0.0
      ensures Valid() && fresh(grid)
      ensures this.gridSize == gridSize && this.nodeMass == nodeMass && this.springConstant == springConstant
      ensures this.springDamping == springDamping && this.bounds == bounds
      ensures forall x, y :: 0 <= x < gridSize && 0 <= y < gridSize ==>
        grid[x, y] == Rest.(position := Placed(bounds, gridSize, x, y))
    {
      this.gridSize := gridSize;
      this.nodeMass := nodeMass;
      this.springConstant := springConstant;
      this.springDamping := springDamping;
      this.bounds := bounds;
      var g := CreateGrid(gridSize, bounds);
      grid := g;
    }

    /** Update, with `Math.Exp(-elapsedTime * springDamping)` passed in as `damping`. The edge nodes
        never move, and every interior node ends with no force on it. The interior is swept in
        place, x-major, so each node sees the new positions of the neighbours already swept (those
        at x - 1, and the one at y - 1) and the old positions of the rest. */
    method Update(dt: real, damping: real)
      requires Valid()
      modifies grid
      ensures forall x, y :: 0 <= x < gridSize && 0 <= y < gridSize && !Interior(gridSize, x, y) ==>
        grid[x, y] == old(grid[x, y])
      ensures forall x, y :: Interior(gridSize, x, y) ==>
        grid[x, y] == Relax(old(grid[x, y]),
                            Average8(grid[x - 1, y - 1].position, grid[x, y - 1].position, old(grid[x + 1, y - 1].position),
                                     grid[x - 1, y].position, old(grid[x + 1, y].position),
                                     grid[x - 1, y + 1].position, old(grid[x, y + 1].position), old(grid[x + 1, y + 1].position)),
                            springConstant, nodeMass, dt, damping)
      ensures forall x, y :: Interior(gridSize, x, y) ==> grid[x, y].forces == Xna.Zero2
    {
      var mass: NonZero := nodeMass;
      var step := (n, average) => Relax(n, average, springConstant, mass, dt, damping);
      SweepInterior(grid, step);
      forall x, y | Interior(gridSize, x, y)
        ensures grid[x, y].forces == Xna.Zero2
      {
        var average := Average8(grid[x - 1, y - 1].position, grid[x, y - 1].position, old(grid[x + 1, y - 1].position),
                                grid[x - 1, y].position, old(grid[x + 1, y].position),
                                grid[x - 1, y + 1].position, old(grid[x, y + 1].position), old(grid[x + 1, y + 1].position));
        assert grid[x, y] == step(old(grid[x, y]), average);
      }
    }

    /** Adds `kick(position)` to every node's velocity, edges included, in the array's own order;
        positions and forces stay as they are. */
    method Nudge(kick: Xna.Vec2 -> Xna.Vec2)
      requires Valid()
      modifies grid
      ensures forall x, y :: 0 <= x < gridSize && 0 <= y < gridSize ==>
        grid[x, y] == old(grid[x, y]).(velocity := old(grid[x, y]).velocity.Plus(kick(old(grid[x, y]).position)))
    {
      var x := 0;
      while x < gridSize
        invariant 0 <= x <= gridSize
        invariant forall i, j :: 0 <= i < x && 0 <= j < gridSize ==>
          grid[i, j] == old(grid[i, j]).(velocity := old(grid[i, j]).velocity.Plus(kick(old(grid[i, j]).position)))
        invariant forall i, j :: x <= i < gridSize && 0 <= j < gridSize ==> grid[i, j] == old(grid[i, j])
      {
        var y := 0;
        while y < gridSize
          invariant 0 <= y <= gridSize
          invariant forall i, j :: 0 <= i < gridSize && 0 <= j < gridSize && Before(i, j, x, y) ==>
            grid[i, j] == old(grid[i, j]).(velocity := old(grid[i, j]).velocity.Plus(kick(old(grid[i, j]).position)))
          invariant forall i, j :: 0 <= i < gridSize && 0 <= j < gridSize && !Before(i, j, x, y) ==> grid[i, j] == old(grid[i, j])
        {
          var node := grid[x, y];
          grid[x, y] := node.(velocity := node.velocity.Plus(kick(node.position)));
          y := y + 1;
        }
        x := x + 1;
      }
    }

    /** ApplyDisturbance: pushes every node away from `point`; only velocities change. */
    method ApplyDisturbance(point: Xna.Vec2, magnitude: real, unit: Xna.Vec2 -> Xna.Vec2)
      requires Valid()
      modifies grid
      ensures forall x, y :: 0 <= x < gridSize && 0 <= y < gridSize ==>
        grid[x, y].position == old(grid[x, y].position) && grid[x, y].forces == old(grid[x, y].forces) &&
        grid[x, y].velocity == old(grid[x, y].velocity).Plus(Disturbance(point, magnitude, unit, old(grid[x, y].position)))
    {
      Nudge(p => Disturbance(point, magnitude, unit, p));
    }

    /** TwistGrid: turns every node around `center`; only velocities change. */
    method TwistGrid(center: Xna.Vec2, wrapDirection: int, torque: real, unit: Xna.Vec2 -> Xna.Vec2)
      requires Valid()
      modifies grid
      ensures forall x, y :: 0 <= x < gridSize && 0 <= y < gridSize ==>
        grid[x, y].position == old(grid[x, y].position) && grid[x, y].forces == old(grid[x, y].forces) &&
        grid[x, y].velocity == old(grid[x, y].velocity).Plus(Twist(center, wrapDirection, torque, unit, old(grid[x, y].position)))
    {
      Nudge(p => Twist(center, wrapDirection, torque, unit, p));
    }
  }
}
