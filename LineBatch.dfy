/** LineBatch: lines are queued two vertices at a time in a fixed 512-slot array and handed to
    the graphics device in batches, when the array is full or the caller ends the batch. */
module Lines {
  import Xna

  /** The maximum number of vertices in the vertex array. */
  const MaxVertexCount: int := 512

  newtype byte = b: int | 0 <= b < 256

  /** Microsoft.Xna.Framework.Graphics.Color. */
  datatype Color = Color(r: byte, g: byte, b: byte, a: byte)

  /** VertexPositionColor: a point in 3-D with a colour. */
  datatype Vertex = Vertex(x: real, y: real, z: real, color: Color)

  /** `new VertexPositionColor(new Vector3(p, 0f), color)`: a point of the plane z = 0. */
  function InPlane(p: Xna.Vec2, color: Color): (v: Vertex)
    ensures v.x == p.x && v.y == p.y && v.z == 0.0 && v.color == color
  {
    Vertex(p.x, p.y, 0.0, color)
  }

  /** All the batches, one after the other. */
  function Concat(batches: seq<seq<Vertex>>): (vs: seq<Vertex>)
    ensures batches == [] ==> vs == []
  {
    if batches == [] then [] else Concat(batches[..|batches| - 1]) + batches[|batches| - 1]
  }

  /** Whether a line may still be written at `index` without flushing: the last two slots are the
      last ones a line may use. */
  predicate HasRoom(index: int)
  {
    index < MaxVertexCount - 2
  }

  class LineBatch {
    const vertices: array<Vertex>
    var currentIndex: int
    var lineCount: int
    /** The batches the device has drawn so far (`DrawUserPrimitives`), oldest first. */
    var submitted: seq<seq<Vertex>>

    /** The counters stay within the array and count whole lines. */
    ghost predicate Valid()
      reads this
    {
      vertices.Length == MaxVertexCount &&
      0 <= currentIndex <= MaxVertexCount - 2 && currentIndex == 2 * lineCount
    }

    /** The vertices queued since the last `Begin`. */
    function Pending(): (vs: seq<Vertex>)
      reads this, vertices
      requires Valid()
      ensures |vs| == 2 * lineCount
    {
      vertices[..currentIndex]
    }

    /** Every vertex submitted so far, batch by batch, then those still pending. A batch that is
        ended twice without a `Begin` in between is submitted, and so counted, twice. */
    function Queued(): seq<Vertex>
      reads this, vertices
      requires Valid()
    {
      Concat(submitted) + Pending()
    }

    /** The graphics device is not modelled; the array starts with every slot left at `fill`. */
    constructor (fill: Vertex)
      ensures Valid() && fresh(vertices)
      ensures currentIndex == 0 && lineCount == 0 && submitted == []
      ensures vertices[..] == seq(MaxVertexCount, _ => fill)
    {
      vertices := new Vertex[MaxVertexCount](_ => fill);
      currentIndex := 0;
      lineCount := 0;
      submitted := [];
    }

    /** Resets both counters; the array keeps its contents. */
    method Begin()
      requires Valid()
      modifies this`currentIndex, this`lineCount
      ensures Valid() && currentIndex == 0 && lineCount == 0 && Pending() == []
    {
      currentIndex := 0;
      lineCount := 0;
    }

    /** Submits the first `lineCount` lines unless nothing is queued; the counters stay as they are,
        so the same lines go out again if the caller does not `Begin` anew. */
    method End()
      requires Valid()
      modifies this`submitted
      ensures currentIndex == 0 ==> submitted == old(submitted)
      ensures currentIndex != 0 ==> submitted == old(submitted) + [Pending()]
    {
      if currentIndex == 0 {
        return;
      }
      submitted := submitted + [vertices[..2 * lineCount]];
    }

    /** Queues one line; when the last two slots are reached the queued lines are drawn first and
        the batch starts over at slot 0. Nothing queued is lost. */
    method DrawLine(start: Vertex, end: Vertex)
      requires Valid()
      modifies this, vertices
      ensures Valid()
      ensures HasRoom(old(currentIndex)) ==>
        currentIndex == old(currentIndex) + 2 && lineCount == old(lineCount) + 1 &&
        submitted == old(submitted) &&
        vertices[..] == old(vertices[..])[old(currentIndex) := start][old(currentIndex) + 1 := end]
      ensures !HasRoom(old(currentIndex)) ==>
        currentIndex == 2 && lineCount == 1 &&
        submitted == old(submitted) + [old(Pending())] &&
        vertices[..] == old(vertices[..])[0 := start][1 := end]
      ensures Pending() == (if HasRoom(old(currentIndex)) then old(Pending()) else []) + [start, end]
      ensures Queued() == old(Queued()) + [start, end]
    {
      if currentIndex >= vertices.Length - 2 {
        End();
        Begin();
      }
      ghost var before := vertices[..];
      vertices[currentIndex] := start;
      currentIndex := currentIndex + 1;
      vertices[currentIndex] := end;
      currentIndex := currentIndex + 1;
      lineCount := lineCount + 1;
      assert vertices[..currentIndex] == before[..currentIndex - 2] + [start, end];
    }

    /** A line of one colour between two points of the plane, queued as `DrawLine` queues it. */
    method DrawLineBetween(start: Xna.Vec2, end: Xna.Vec2, color: Color)
      requires Valid()
      modifies this, vertices
      ensures Valid()
      ensures HasRoom(old(currentIndex)) ==>
        currentIndex == old(currentIndex) + 2 && lineCount == old(lineCount) + 1 &&
        submitted == old(submitted) &&
        vertices[..] == old(vertices[..])[old(currentIndex) := InPlane(start, color)][old(currentIndex) + 1 := InPlane(end, color)]
      ensures !HasRoom(old(currentIndex)) ==>
        currentIndex == 2 && lineCount == 1 &&
        submitted == old(submitted) + [old(Pending())] &&
        vertices[..] == old(vertices[..])[0 := InPlane(start, color)][1 := InPlane(end, color)]
      ensures Queued() == old(Queued()) + [InPlane(start, color), InPlane(end, color)]
    {
      DrawLine(InPlane(start, color), InPlane(end, color));
    }

    /** A line whose colour runs from `startColor` to `endColor`, queued as `DrawLine` queues it. */
    method DrawLineShaded(start: Xna.Vec2, end: Xna.Vec2, startColor: Color, endColor: Color)
      requires Valid()
      modifies this, vertices
      ensures Valid()
      ensures HasRoom(old(currentIndex)) ==>
        currentIndex == old(currentIndex) + 2 && lineCount == old(lineCount) + 1 &&
        submitted == old(submitted) &&
        vertices[..] == old(vertices[..])[old(currentIndex) := InPlane(start, startColor)][old(currentIndex) + 1 := InPlane(end, endColor)]
      ensures !HasRoom(old(currentIndex)) ==>
        currentIndex == 2 && lineCount == 1 &&
        submitted == old(submitted) + [old(Pending())] &&
        vertices[..] == old(vertices[..])[0 := InPlane(start, startColor)][1 := InPlane(end, endColor)]
      ensures Queued() == old(Queued()) + [InPlane(start, startColor), InPlane(end, endColor)]
    {
      DrawLine(InPlane(start, startColor), InPlane(end, endColor));
    }
  }
}
