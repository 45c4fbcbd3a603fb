/**
 * utils/RenderUtils: drawing the outline or the filled area of a polygon or
 * a polyhedron through a Batcher. The Batcher is modelled as the log of the
 * calls it receives; the static scratch vectors are not.
 */
module Render {
  import opened Geometry

  /** The primitives RenderUtils begins a batch with. */
  datatype Primitive = LineLoop | TriangleFan | LineStrip | TriangleStrip

  datatype Color = Color(r: real, g: real, b: real, a: real)

  /** Color.WHITE. */
  const White: Color := Color(1.0, 1.0, 1.0, 1.0)

  /** One call made on a Batcher. */
  datatype BatchOp = Begin(primitive: Primitive) | Vertex2(v2: Vec2) | Vertex3(v3: Vec3) | SetColor(color: Color) | End

  /** An append-only Batcher: every call is recorded in order. */
  class Batcher {
    var log: seq<BatchOp>

    constructor ()
      ensures log == []
    {
      log := [];
    }

    method Begin(p: Primitive)
      modifies this
      ensures log == old(log) + [BatchOp.Begin(p)]
    {
      log := log + [BatchOp.Begin(p)];
    }

    method Vertex2(v: Vec2)
      modifies this
      ensures log == old(log) + [BatchOp.Vertex2(v)]
    {
      log := log + [BatchOp.Vertex2(v)];
    }

    method Vertex3(v: Vec3)
      modifies this
      ensures log == old(log) + [BatchOp.Vertex3(v)]
    {
      log := log + [BatchOp.Vertex3(v)];
    }

    method Color(c: Color)
      modifies this
      ensures log == old(log) + [SetColor(c)]
    {
      log := log + [SetColor(c)];
    }

    method End()
      modifies this
      ensures log == old(log) + [BatchOp.End]
    {
      log := log + [BatchOp.End];
    }
  }

  /** Each vertex call followed by a color call with `c`. */
  function Emit(vertexOps: seq<BatchOp>, c: Color): seq<BatchOp>
    decreases |vertexOps|
  {
    if vertexOps == [] then []
    else Emit(vertexOps[..|vertexOps| - 1], c) + [vertexOps[|vertexOps| - 1], SetColor(c)]
  }

  /** The calls Emit makes: vertex i at position 2i, its color at 2i + 1. */
  lemma {:induction false} EmitShape(vertexOps: seq<BatchOp>, c: Color)
    ensures |Emit(vertexOps, c)| == 2 * |vertexOps|
    ensures forall i :: 0 <= i < |vertexOps| ==> Emit(vertexOps, c)[2 * i] == vertexOps[i] && Emit(vertexOps, c)[2 * i + 1] == SetColor(c)
    decreases |vertexOps|
  {
    if vertexOps != [] {
      var init := vertexOps[..|vertexOps| - 1];
      EmitShape(init, c);
      forall i | 0 <= i < |vertexOps|
        ensures Emit(vertexOps, c)[2 * i] == vertexOps[i] && Emit(vertexOps, c)[2 * i + 1] == SetColor(c)
      {
        if i < |init| {
          assert vertexOps[i] == init[i];
        }
      }
    }
  }

  lemma {:induction false} EmitLength(vertexOps: seq<BatchOp>, c: Color)
    ensures |Emit(vertexOps, c)| == 2 * |vertexOps|
    decreases |vertexOps|
  {
    if vertexOps != [] {
      EmitLength(vertexOps[..|vertexOps| - 1], c);
    }
  }

  /** The calls at 2i and 2i + 1 of Emit are vertex i and the color. */
  lemma {:induction false} EmitAt(vertexOps: seq<BatchOp>, c: Color, i: nat)
    requires i < |vertexOps|
    ensures |Emit(vertexOps, c)| == 2 * |vertexOps|
    ensures Emit(vertexOps, c)[2 * i] == vertexOps[i] && Emit(vertexOps, c)[2 * i + 1] == SetColor(c)
    decreases |vertexOps|
  {
    EmitShape(vertexOps, c);
  }

  /** The vertex calls for a polygon drawn at `position`: vertex + polygon.position + position. */
  function PolygonVertices(polygon: Polygon, position: Vec2): (ops: seq<BatchOp>)
    ensures |ops| == |polygon.vertices|
    ensures forall i :: 0 <= i < |ops| ==> ops[i] == Vertex2(Add(Add(polygon.vertices[i], polygon.position), position))
  {
    seq(|polygon.vertices|, i requires 0 <= i < |polygon.vertices| =>
      Vertex2(Add(Add(polygon.vertices[i], polygon.position), position)))
  }

  /** The vertex calls for the vertices of a polyhedron in the given order, drawn at `position`. */
  function PolyhedronVertices(polyhedron: Polyhedron, order: seq<nat>, position: Vec3): (ops: seq<BatchOp>)
    requires forall k :: 0 <= k < |order| ==> order[k] < |polyhedron.vertices|
    ensures |ops| == |order|
    ensures forall k :: 0 <= k < |ops| ==> ops[k] == Vertex3(Add3(Add3(polyhedron.vertices[order[k]], polyhedron.position), position))
  {
    seq(|order|, k requires 0 <= k < |order| =>
      Vertex3(Add3(Add3(polyhedron.vertices[order[k]], polyhedron.position), position)))
  }

  /** The number of triangles tracePolyhedron draws for n strip vertices: its loop runs while v < n - 2 (RenderUtils.java:99). */
  function TriangleCount(n: int): nat
  {
    if n - 2 > 0 then n - 2 else 0
  }

  /** Triangle v of a strip, in the order tracePolyhedron visits its corners (RenderUtils.java:101-114). */
  function Triangle(v: nat): seq<nat>
  {
    if v % 2 != 0 then [v, v + 1, v + 2] else [v, v + 2, v + 1]
  }

  /** The corners of the first `count` triangles of a strip, triangle after triangle. */
  function StripIndices(count: nat): seq<nat>
    decreases count
  {
    if count == 0 then [] else StripIndices(count - 1) + Triangle(count - 1)
  }

  lemma {:induction false} StripIndicesLength(count: nat)
    ensures |StripIndices(count)| == 3 * count
    decreases count
  {
    if count > 0 {
      StripIndicesLength(count - 1);
    }
  }

  /** Corner j of triangle t sits at 3t + j. */
  lemma {:induction false} StripCorner(count: nat, t: nat, j: nat)
    requires t < count && j < 3
    ensures 3 * t + j < |StripIndices(count)| && StripIndices(count)[3 * t + j] == Triangle(t)[j]
    decreases count
  {
    var init := StripIndices(count - 1);
    var last := Triangle(count - 1);
    assert StripIndices(count) == init + last;
    assert |last| == 3;
    StripIndicesLength(count - 1);
    if t < count - 1 {
      StripCorner(count - 1, t, j);
      assert (init + last)[3 * t + j] == init[3 * t + j];
    } else {
      assert (init + last)[3 * t + j] == last[j];
    }
  }

  /**
   * Three corners per triangle; corner j of triangle t sits at 3t + j, and
   * triangle v is (v, v+1, v+2) for odd v and (v, v+2, v+1) for even v.
   */
  lemma StripIndicesShape(count: nat)
    ensures |StripIndices(count)| == 3 * count
    ensures forall t, j :: 0 <= t < count && 0 <= j < 3 ==> StripIndices(count)[3 * t + j] == Triangle(t)[j]
  {
    StripIndicesLength(count);
    forall t, j | 0 <= t < count && 0 <= j < 3
      ensures StripIndices(count)[3 * t + j] == Triangle(t)[j]
    {
      StripCorner(count, t, j);
    }
  }

  /** Each corner of triangle t is one of t, t + 1 and t + 2. */
  lemma TriangleCorners(t: nat)
    ensures |Triangle(t)| == 3
    ensures forall j :: 0 <= j < 3 ==> t <= Triangle(t)[j] <= t + 2
  {
  }

  /** The corner order tracePolyhedron draws for a strip of n vertices; every corner is a vertex index. */
  function TraceOrder(n: nat): (order: seq<nat>)
    ensures |order| == 3 * TriangleCount(n)
    ensures forall t, j :: 0 <= t < TriangleCount(n) && 0 <= j < 3 ==> order[3 * t + j] == Triangle(t)[j]
    ensures forall k :: 0 <= k < |order| ==> order[k] < n
  {
    var count := TriangleCount(n);
    StripIndicesShape(count);
    var order := StripIndices(count);
    assert forall k :: 0 <= k < |order| ==> order[k] < n by {
      forall k | 0 <= k < |order|
        ensures order[k] < n
      {
        var t, j := k / 3, k % 3;
        StripCorner(count, t, j);
        TriangleCorners(t);
      }
    }
    order
  }

  /** The calls between begin and end for each shape. */
  function PolygonBody(polygon: Polygon, position: Vec2, color: Color): seq<BatchOp>
  {
    Emit(PolygonVertices(polygon, position), color)
  }

  function TracePolyhedronBody(polyhedron: Polyhedron, position: Vec3, color: Color): seq<BatchOp>
  {
    Emit(PolyhedronVertices(polyhedron, TraceOrder(|polyhedron.vertices|), position), color)
  }

  function FillPolyhedronBody(polyhedron: Polyhedron, position: Vec3, color: Color): seq<BatchOp>
  {
    Emit(PolyhedronVertices(polyhedron, seq(|polyhedron.vertices|, i => i), position), color)
  }

  /** No begin or end call. */
  ghost predicate NoBrackets(ops: seq<BatchOp>)
  {
    forall k :: 0 <= k < |ops| ==> !ops[k].Begin? && !ops[k].End?
  }

  /** Emit only interleaves vertex and color calls. */
  lemma EmitNoBrackets(vertexOps: seq<BatchOp>, c: Color)
    requires forall k :: 0 <= k < |vertexOps| ==> vertexOps[k].Vertex2? || vertexOps[k].Vertex3?
    ensures NoBrackets(Emit(vertexOps, c))
  {
    EmitShape(vertexOps, c);
    var e := Emit(vertexOps, c);
    forall k | 0 <= k < |e|
      ensures !e[k].Begin? && !e[k].End?
    {
      var i := k / 2;
      assert k == 2 * i || k == 2 * i + 1;
    }
  }

  /**
   * The polygon is traced as a line loop, or filled as a triangle fan, by
   * one vertex per polygon vertex, in order, each followed by the color
   * (RenderUtils.java:44-55,67-78).
   */
  lemma PolygonBodyShape(polygon: Polygon, position: Vec2, color: Color)
    ensures |PolygonBody(polygon, position, color)| == 2 * |polygon.vertices|
    ensures forall i :: 0 <= i < |polygon.vertices| ==>
              && PolygonBody(polygon, position, color)[2 * i] == Vertex2(Add(Add(polygon.vertices[i], polygon.position), position))
              && PolygonBody(polygon, position, color)[2 * i + 1] == SetColor(color)
    ensures NoBrackets(PolygonBody(polygon, position, color))
  {
    EmitShape(PolygonVertices(polygon, position), color);
    EmitNoBrackets(PolygonVertices(polygon, position), color);
  }

  /**
   * tracePolyhedron draws 3(n - 2) vertices for n >= 3 and none otherwise;
   * triangle t contributes corners t, then t+1 and t+2 in the order Triangle
   * gives, each offset by polyhedron.position + position and followed by the
   * color (RenderUtils.java:99-129).
   */
  lemma TracePolyhedronBodyShape(polyhedron: Polyhedron, position: Vec3, color: Color)
    ensures var n := |polyhedron.vertices|;
            |TracePolyhedronBody(polyhedron, position, color)| == if n >= 3 then 6 * (n - 2) else 0
    ensures forall t, j :: 0 <= t < TriangleCount(|polyhedron.vertices|) && 0 <= j < 3 ==>
              && TracePolyhedronBody(polyhedron, position, color)[6 * t + 2 * j]
                   == Vertex3(Add3(Add3(polyhedron.vertices[Triangle(t)[j]], polyhedron.position), position))
              && TracePolyhedronBody(polyhedron, position, color)[6 * t + 2 * j + 1] == SetColor(color)
    ensures NoBrackets(TracePolyhedronBody(polyhedron, position, color))
  {
    var n := |polyhedron.vertices|;
    var ops := PolyhedronVertices(polyhedron, TraceOrder(n), position);
    EmitNoBrackets(ops, color);
    TraceBodyLength(polyhedron, position, color);
    forall t, j | 0 <= t < TriangleCount(n) && 0 <= j < 3
      ensures && TracePolyhedronBody(polyhedron, position, color)[6 * t + 2 * j]
                   == Vertex3(Add3(Add3(polyhedron.vertices[Triangle(t)[j]], polyhedron.position), position))
              && TracePolyhedronBody(polyhedron, position, color)[6 * t + 2 * j + 1] == SetColor(color)
    {
      TraceBodyAt(polyhedron, position, color, t, j);
    }
  }

  lemma TraceBodyLength(polyhedron: Polyhedron, position: Vec3, color: Color)
    ensures var n := |polyhedron.vertices|;
            |TracePolyhedronBody(polyhedron, position, color)| == if n >= 3 then 6 * (n - 2) else 0
  {
    var ops := PolyhedronVertices(polyhedron, TraceOrder(|polyhedron.vertices|), position);
    EmitLength(ops, color);
  }

  /** Corner j of triangle t and its color, at 6t + 2j and 6t + 2j + 1 of the traced body. */
  lemma TraceBodyAt(polyhedron: Polyhedron, position: Vec3, color: Color, t: nat, j: nat)
    requires t < TriangleCount(|polyhedron.vertices|) && j < 3
    ensures 6 * t + 2 * j + 1 < |TracePolyhedronBody(polyhedron, position, color)|
    ensures TracePolyhedronBody(polyhedron, position, color)[6 * t + 2 * j]
              == Vertex3(Add3(Add3(polyhedron.vertices[Triangle(t)[j]], polyhedron.position), position))
    ensures TracePolyhedronBody(polyhedron, position, color)[6 * t + 2 * j + 1] == SetColor(color)
  {
    var n := |polyhedron.vertices|;
    var ops := PolyhedronVertices(polyhedron, TraceOrder(n), position);
    TraceOrderCorner(n, t, j);
    var k := 3 * t + j;
    assert ops[k] == Vertex3(Add3(Add3(polyhedron.vertices[Triangle(t)[j]], polyhedron.position), position));
    EmitAt(ops, color, k);
    assert 2 * k == 6 * t + 2 * j;
  }

  lemma TraceOrderCorner(n: nat, t: nat, j: nat)
    requires t < TriangleCount(n) && j < 3
    ensures 3 * t + j < |TraceOrder(n)| && TraceOrder(n)[3 * t + j] == Triangle(t)[j]
  {
  }

  /** What tracePolyhedron has emitted after its first v triangles. */
  function TracePrefix(polyhedron: Polyhedron, position: Vec3, color: Color, v: nat): seq<BatchOp>
    requires v <= TriangleCount(|polyhedron.vertices|)
  {
    Emit(PolyhedronVertices(polyhedron, TraceOrder(|polyhedron.vertices|), position)[..3 * v], color)
  }

  /**
   * One iteration of tracePolyhedron's loop: triangle v adds its three
   * corners, each followed by the color.
   */
  lemma TraceStep(polyhedron: Polyhedron, position: Vec3, color: Color, v: nat)
    requires v < TriangleCount(|polyhedron.vertices|)
    ensures var c := Triangle(v);
            && |c| == 3 && c[0] < |polyhedron.vertices| && c[1] < |polyhedron.vertices| && c[2] < |polyhedron.vertices|
            && TracePrefix(polyhedron, position, color, v + 1) == TracePrefix(polyhedron, position, color, v) + [
                 Vertex3(Add3(Add3(polyhedron.vertices[c[0]], polyhedron.position), position)), SetColor(color),
                 Vertex3(Add3(Add3(polyhedron.vertices[c[1]], polyhedron.position), position)), SetColor(color),
                 Vertex3(Add3(Add3(polyhedron.vertices[c[2]], polyhedron.position), position)), SetColor(color)]
  {
    var n := |polyhedron.vertices|;
    var ops := PolyhedronVertices(polyhedron, TraceOrder(n), position);
    TraceOrderCorner(n, v, 0);
    TraceOrderCorner(n, v, 1);
    TraceOrderCorner(n, v, 2);
    EmitStep3(ops, 3 * v, color);
    assert 3 * (v + 1) == 3 * v + 3;
  }

  /** After every triangle, the prefix is the whole body. */
  lemma TracePrefixFull(polyhedron: Polyhedron, position: Vec3, color: Color)
    ensures TracePrefix(polyhedron, position, color, TriangleCount(|polyhedron.vertices|))
            == TracePolyhedronBody(polyhedron, position, color)
  {
    var ops := PolyhedronVertices(polyhedron, TraceOrder(|polyhedron.vertices|), position);
    assert ops[..3 * TriangleCount(|polyhedron.vertices|)] == ops;
  }

  /** fillPolyhedron draws every strip vertex once, in order (RenderUtils.java:145-156). */
  lemma FillPolyhedronBodyShape(polyhedron: Polyhedron, position: Vec3, color: Color)
    ensures |FillPolyhedronBody(polyhedron, position, color)| == 2 * |polyhedron.vertices|
    ensures forall i :: 0 <= i < |polyhedron.vertices| ==>
              && FillPolyhedronBody(polyhedron, position, color)[2 * i] == Vertex3(Add3(Add3(polyhedron.vertices[i], polyhedron.position), position))
              && FillPolyhedronBody(polyhedron, position, color)[2 * i + 1] == SetColor(color)
    ensures NoBrackets(FillPolyhedronBody(polyhedron, position, color))
  {
    var ops := PolyhedronVertices(polyhedron, seq(|polyhedron.vertices|, i => i), position);
    EmitShape(ops, color);
    EmitNoBrackets(ops, color);
  }

  /** How many batches a log has begun and not yet ended. */
  function Depth(log: seq<BatchOp>): int
    decreases |log|
  {
    if log == [] then 0
    else
      var d := Depth(log[..|log| - 1]);
      match log[|log| - 1]
      case Begin(_) => d + 1
      case End => d - 1
      case _ => d
  }

  /** Every begin is closed by an end before the next begin, and nothing is left open. */
  ghost predicate Balanced(log: seq<BatchOp>)
  {
    && Depth(log) == 0
    && forall k :: 0 <= k <= |log| ==> 0 <= Depth(log[..k]) <= 1
  }

  /** Calls without begin or end leave the depth alone. */
  lemma {:induction false} DepthAppendFlat(log: seq<BatchOp>, body: seq<BatchOp>)
    requires NoBrackets(body)
    ensures Depth(log + body) == Depth(log)
    ensures forall k :: |log| <= k <= |log + body| ==> Depth((log + body)[..k]) == Depth(log)
    decreases |body|
  {
    if body != [] {
      var init := body[..|body| - 1];
      assert (log + body)[..|log + body| - 1] == log + init;
      assert (log + body)[|log + body| - 1] == body[|body| - 1];
      assert !body[|body| - 1].Begin? && !body[|body| - 1].End?;
      DepthAppendFlat(log, init);
      assert Depth(log + body) == Depth(log + init);
      forall k | |log| <= k <= |log + body|
        ensures Depth((log + body)[..k]) == Depth(log)
      {
        if k < |log + body| {
          assert (log + body)[..k] == (log + init)[..k];
        } else {
          assert (log + body)[..k] == log + body;
        }
      }
    } else {
      assert log + body == log;
      assert forall k :: |log| <= k <= |log| ==> (log + body)[..k] == log;
    }
  }

  /**
   * Drawing a shape, begin(p) then calls without begin or end then end,
   * keeps a balanced log balanced: each begin is paired with exactly one
   * end (RenderUtils.java:46-54,69-77,92-132,147-155).
   */
  lemma DrawKeepsBalanced(log: seq<BatchOp>, p: Primitive, body: seq<BatchOp>)
    requires Balanced(log) && NoBrackets(body)
    ensures Balanced(log + [Begin(p)] + body + [End])
  {
    var withBegin := log + [Begin(p)];
    assert withBegin[..|withBegin| - 1] == log;
    DepthAppendFlat(withBegin, body);
    var full := withBegin + body + [End];
    assert full[..|full| - 1] == withBegin + body;
    forall k | 0 <= k <= |full|
      ensures 0 <= Depth(full[..k]) <= 1
    {
      if k <= |log| {
        assert full[..k] == log[..k];
      } else if k < |full| {
        assert full[..k] == (withBegin + body)[..k];
      } else {
        assert full[..k] == full;
      }
    }
  }

  /** Appends `Emit(vertexOps[..i + 1], c)` as one more vertex and color call. */
  lemma EmitStep(vertexOps: seq<BatchOp>, i: nat, c: Color)
    requires i < |vertexOps|
    ensures Emit(vertexOps[..i + 1], c) == Emit(vertexOps[..i], c) + [vertexOps[i], SetColor(c)]
  {
    assert vertexOps[..i + 1][..i] == vertexOps[..i];
  }

  /** Three more vertex calls, each followed by the color. */
  lemma EmitStep3(vertexOps: seq<BatchOp>, i: nat, c: Color)
    requires i + 3 <= |vertexOps|
    ensures Emit(vertexOps[..i + 3], c)
            == Emit(vertexOps[..i], c) + [vertexOps[i], SetColor(c), vertexOps[i + 1], SetColor(c), vertexOps[i + 2], SetColor(c)]
  {
    EmitStep(vertexOps, i, c);
    EmitStep(vertexOps, i + 1, c);
    EmitStep(vertexOps, i + 2, c);
  }

  lemma AppendAssoc(a: seq<BatchOp>, b: seq<BatchOp>, c: seq<BatchOp>)
    ensures (a + b) + c == a + (b + c)
  {
  }

  /** tracePolygon(Batcher, Polygon, Vector2, Color) (RenderUtils.java:44-55). */
  method TracePolygonAt(b: Batcher, polygon: Polygon, position: Vec2, color: Color)
    modifies b
    ensures b.log == old(b.log) + [Begin(LineLoop)] + PolygonBody(polygon, position, color) + [End]
  {
    DrawPolygon(b, LineLoop, polygon, position, color);
  }

  /** fillPolygon(Batcher, Polygon, Vector2, Color) (RenderUtils.java:67-78). */
  method FillPolygonAt(b: Batcher, polygon: Polygon, position: Vec2, color: Color)
    modifies b
    ensures b.log == old(b.log) + [Begin(TriangleFan)] + PolygonBody(polygon, position, color) + [End]
  {
    DrawPolygon(b, TriangleFan, polygon, position, color);
  }

  /** The loop tracePolygon and fillPolygon share, under their own primitive. */
  method DrawPolygon(b: Batcher, p: Primitive, polygon: Polygon, position: Vec2, color: Color)
    modifies b
    ensures b.log == old(b.log) + [Begin(p)] + PolygonBody(polygon, position, color) + [End]
  {
    b.Begin(p);
    ghost var ops := PolygonVertices(polygon, position);
    var i := 0;
    while i < |polygon.vertices|
      invariant 0 <= i <= |polygon.vertices|
      invariant b.log == old(b.log) + [Begin(p)] + Emit(ops[..i], color)
    {
      EmitStep(ops, i, color);
      b.Vertex2(Add(Add(polygon.vertices[i], polygon.position), position));
      b.Color(color);
      i := i + 1;
    }
    assert ops[..i] == ops;
    b.End();
  }

  /** tracePolyhedron(Batcher, Polyhedron, Vector3, Color) (RenderUtils.java:90-133). */
  method TracePolyhedronAt(b: Batcher, polyhedron: Polyhedron, position: Vec3, color: Color)
    modifies b
    ensures b.log == old(b.log) + [Begin(LineStrip)] + TracePolyhedronBody(polyhedron, position, color) + [End]
  {
    b.Begin(LineStrip);
    ghost var opening := b.log;
    var n := |polyhedron.vertices|;
    var v := 0;
    while v < n - 2
      invariant 0 <= v <= TriangleCount(n)
      invariant b.log == opening + TracePrefix(polyhedron, position, color, v)
    {
      var v1, v2, v3 := TriangleCornersAt(polyhedron, position, v);
      TraceStep(polyhedron, position, color, v);
      ghost var drawn := TracePrefix(polyhedron, position, color, v);
      ghost var added := [Vertex3(v1), SetColor(color), Vertex3(v2), SetColor(color), Vertex3(v3), SetColor(color)];
      assert TracePrefix(polyhedron, position, color, v + 1) == drawn + added;
      DrawTriangle(b, v1, v2, v3, color);
      AppendAssoc(opening, drawn, added);
      v := v + 1;
    }
    assert v == TriangleCount(n);
    TracePrefixFull(polyhedron, position, color);
    b.End();
  }

  /**
   * The corners of strip triangle v, clockwise for odd v and
   * counter-clockwise for even v, moved by polyhedron.position + position
   * (RenderUtils.java:101-119).
   */
  method TriangleCornersAt(polyhedron: Polyhedron, position: Vec3, v: nat) returns (v1: Vec3, v2: Vec3, v3: Vec3)
    requires v + 2 < |polyhedron.vertices|
    ensures var c := Triangle(v);
            && v1 == Add3(Add3(polyhedron.vertices[c[0]], polyhedron.position), position)
            && v2 == Add3(Add3(polyhedron.vertices[c[1]], polyhedron.position), position)
            && v3 == Add3(Add3(polyhedron.vertices[c[2]], polyhedron.position), position)
  {
    if v % 2 != 0 {
      v1 := polyhedron.vertices[v];
      v2 := polyhedron.vertices[v + 1];
      v3 := polyhedron.vertices[v + 2];
    } else {
      v1 := polyhedron.vertices[v];
      v2 := polyhedron.vertices[v + 2];
      v3 := polyhedron.vertices[v + 1];
    }
    v1 := Add3(Add3(v1, polyhedron.position), position);
    v2 := Add3(Add3(v2, polyhedron.position), position);
    v3 := Add3(Add3(v3, polyhedron.position), position);
  }

  /** The body of tracePolyhedron's loop that draws one triangle as part of the line strip (RenderUtils.java:122-129). */
  method DrawTriangle(b: Batcher, v1: Vec3, v2: Vec3, v3: Vec3, color: Color)
    modifies b
    ensures b.log == old(b.log) + [Vertex3(v1), SetColor(color), Vertex3(v2), SetColor(color), Vertex3(v3), SetColor(color)]
  {
    b.Vertex3(v1);
    b.Color(color);
    b.Vertex3(v2);
    b.Color(color);
    b.Vertex3(v3);
    b.Color(color);
  }

  /** fillPolyhedron(Batcher, Polyhedron, Vector3, Color) (RenderUtils.java:145-156). */
  method FillPolyhedronAt(b: Batcher, polyhedron: Polyhedron, position: Vec3, color: Color)
    modifies b
    ensures b.log == old(b.log) + [Begin(TriangleStrip)] + FillPolyhedronBody(polyhedron, position, color) + [End]
  {
    b.Begin(TriangleStrip);
    ghost var ops := PolyhedronVertices(polyhedron, seq(|polyhedron.vertices|, i => i), position);
    var i := 0;
    while i < |polyhedron.vertices|
      invariant 0 <= i <= |polyhedron.vertices|
      invariant b.log == old(b.log) + [Begin(TriangleStrip)] + Emit(ops[..i], color)
    {
      EmitStep(ops, i, color);
      b.Vertex3(Add3(Add3(polyhedron.vertices[i], polyhedron.position), position));
      b.Color(color);
      i := i + 1;
    }
    assert ops[..i] == ops;
    b.End();
  }

  /** tracePolygon(Batcher, Polygon, Color) and (Batcher, Polygon) (RenderUtils.java:34-42): at ZERO, in WHITE by default. */
  method TracePolygonColored(b: Batcher, polygon: Polygon, color: Color)
    modifies b
    ensures b.log == old(b.log) + [Begin(LineLoop)] + PolygonBody(polygon, Zero2, color) + [End]
  {
    TracePolygonAt(b, polygon, Zero2, color);
  }

  method TracePolygon(b: Batcher, polygon: Polygon)
    modifies b
    ensures b.log == old(b.log) + [Begin(LineLoop)] + PolygonBody(polygon, Zero2, White) + [End]
  {
    TracePolygonColored(b, polygon, White);
  }

  /** fillPolygon(Batcher, Polygon, Color) and (Batcher, Polygon) (RenderUtils.java:57-65). */
  method FillPolygonColored(b: Batcher, polygon: Polygon, color: Color)
    modifies b
    ensures b.log == old(b.log) + [Begin(TriangleFan)] + PolygonBody(polygon, Zero2, color) + [End]
  {
    FillPolygonAt(b, polygon, Zero2, color);
  }

  method FillPolygon(b: Batcher, polygon: Polygon)
    modifies b
    ensures b.log == old(b.log) + [Begin(TriangleFan)] + PolygonBody(polygon, Zero2, White) + [End]
  {
    FillPolygonColored(b, polygon, White);
  }

  /** tracePolyhedron(Batcher, Polyhedron, Color) and (Batcher, Polyhedron) (RenderUtils.java:80-88). */
  method TracePolyhedronColored(b: Batcher, polyhedron: Polyhedron, color: Color)
    modifies b
    ensures b.log == old(b.log) + [Begin(LineStrip)] + TracePolyhedronBody(polyhedron, Zero3, color) + [End]
  {
    TracePolyhedronAt(b, polyhedron, Zero3, color);
  }

  method TracePolyhedron(b: Batcher, polyhedron: Polyhedron)
    modifies b
    ensures b.log == old(b.log) + [Begin(LineStrip)] + TracePolyhedronBody(polyhedron, Zero3, White) + [End]
  {
    TracePolyhedronColored(b, polyhedron, White);
  }

  /** fillPolyhedron(Batcher, Polyhedron, Color) and (Batcher, Polyhedron) (RenderUtils.java:135-143). */
  method FillPolyhedronColored(b: Batcher, polyhedron: Polyhedron, color: Color)
    modifies b
    ensures b.log == old(b.log) + [Begin(TriangleStrip)] + FillPolyhedronBody(polyhedron, Zero3, color) + [End]
  {
    FillPolyhedronAt(b, polyhedron, Zero3, color);
  }

  method FillPolyhedron(b: Batcher, polyhedron: Polyhedron)
    modifies b
    ensures b.log == old(b.log) + [Begin(TriangleStrip)] + FillPolyhedronBody(polyhedron, Zero3, White) + [End]
  {
    FillPolyhedronColored(b, polyhedron, White);
  }
}
