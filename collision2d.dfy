/**
 * The 2D Separating Axis Theorem test of Collision2D: projection of a
 * polygon onto an axis, the per-axis test that updates a mutable Response,
 * and the polygon-polygon test over the edge normals of both shapes.
 *
 * The model keeps the source's behaviour as written: intervals that only
 * touch are not separated, equal minima take the `else` branch, and the
 * `A.min >= B.min && A.max > B.max` branch measures `A.max - B.min`.
 *
 * Vector2.normalizeSelf needs a square root; it is the parameter
 * `normalize` of every operation that uses it.
 */
module Collision2D {
  import opened Geometry
  import opened Wrappers
  import opened Pool

  /** A projection interval [min, max], as the Vector2 (min, max) of flattenPoints. */
  datatype Interval = Interval(min: real, max: real)

  function Abs(x: real): real { if x < 0.0 then -x else x }
  function Min(x: real, y: real): real { if x < y then x else y }

  // ---------------------------------------------------------------------
  // Projection

  /**
   * The interval flattenPoints computes: starting from (Float.MAX_VALUE,
   * -Float.MAX_VALUE), each vertex in order lowers min to its dot product
   * with `normal` when that is smaller and raises max when it is larger.
   */
  function Flatten(vs: seq<Vec2>, normal: Vec2): Interval
    decreases |vs|
  {
    if vs == [] then Interval(FloatMax, -FloatMax)
    else
      var r := Flatten(vs[..|vs| - 1], normal);
      var d := Dot(vs[|vs| - 1], normal);
      Interval(if d < r.min then d else r.min, if d > r.max then d else r.max)
  }

  /** Every dot product of a vertex with `normal` is a finite float. */
  ghost predicate InFloatRange(vs: seq<Vec2>, normal: Vec2)
  {
    forall i :: 0 <= i < |vs| ==> -FloatMax <= Dot(vs[i], normal) <= FloatMax
  }

  /**
   * flattenPoints returns bounds on every dot product; each bound is either
   * its sentinel or attained by some vertex. For a non-empty list of
   * float-range dot products both bounds are attained and min <= max.
   */
  lemma {:induction false} FlattenBounds(vs: seq<Vec2>, normal: Vec2)
    ensures var r := Flatten(vs, normal);
            && (forall i :: 0 <= i < |vs| ==> r.min <= Dot(vs[i], normal) <= r.max)
            && r.min <= FloatMax && -FloatMax <= r.max
            && (r.min == FloatMax || exists i :: 0 <= i < |vs| && Dot(vs[i], normal) == r.min)
            && (r.max == -FloatMax || exists i :: 0 <= i < |vs| && Dot(vs[i], normal) == r.max)
    ensures vs != [] && InFloatRange(vs, normal) ==>
            var r := Flatten(vs, normal);
            && r.min <= r.max
            && (exists i :: 0 <= i < |vs| && Dot(vs[i], normal) == r.min)
            && (exists i :: 0 <= i < |vs| && Dot(vs[i], normal) == r.max)
  {
    if vs != [] {
      var init := vs[..|vs| - 1];
      FlattenBounds(init, normal);
      var r := Flatten(vs, normal);
      var n := |vs| - 1;
      assert forall i :: 0 <= i < n ==> vs[i] == init[i];
      if r.min != FloatMax && r.min != Dot(vs[n], normal) {
        var k :| 0 <= k < |init| && Dot(init[k], normal) == r.min;
        assert Dot(vs[k], normal) == r.min;
      }
      if r.max != -FloatMax && r.max != Dot(vs[n], normal) {
        var k :| 0 <= k < |init| && Dot(init[k], normal) == r.max;
        assert Dot(vs[k], normal) == r.max;
      }
      if InFloatRange(vs, normal) {
        assert r.min <= Dot(vs[0], normal) <= r.max;
        if r.min == FloatMax {
          assert Dot(vs[0], normal) == r.min;
        }
        if r.max == -FloatMax {
          assert Dot(vs[0], normal) == r.max;
        }
      }
    }
  }

  /** Projecting onto the negated axis mirrors the interval, sentinels included. */
  lemma {:induction false} FlattenNegated(vs: seq<Vec2>, normal: Vec2)
    ensures Flatten(vs, Neg(normal)) == Interval(-Flatten(vs, normal).max, -Flatten(vs, normal).min)
  {
    if vs != [] {
      FlattenNegated(vs[..|vs| - 1], normal);
      assert Dot(vs[|vs| - 1], Neg(normal)) == -Dot(vs[|vs| - 1], normal);
    }
  }

  /** flattenPoints (Collision2D.java:24-38). */
  method FlattenPoints(vertices: seq<Vec2>, normal: Vec2) returns (projection: Interval)
    ensures projection == Flatten(vertices, normal)
  {
    var min := FloatMax;
    var max := -min;
    var i := 0;
    while i < |vertices|
      invariant 0 <= i <= |vertices|
      invariant Interval(min, max) == Flatten(vertices[..i], normal)
    {
      var dot := Dot(vertices[i], normal);
      if dot < min { min := dot; }
      if dot > max { max := dot; }
      assert vertices[..i + 1][..i] == vertices[..i];
      i := i + 1;
    }
    assert vertices[..i] == vertices;
    projection := Interval(min, max);
  }

  // ---------------------------------------------------------------------
  // The per-axis test

  /** A's interval on `axis`. */
  function RangeA(a: Polygon, axis: Vec2): Interval
  {
    Flatten(a.vertices, axis)
  }

  /** B's interval on `axis`, shifted by the projection of B's position relative to A's. */
  function RangeB(a: Polygon, b: Polygon, axis: Vec2): Interval
  {
    var r := Flatten(b.vertices, axis);
    var projectedOffset := Dot(Sub(b.position, a.position), axis);
    Interval(r.min + projectedOffset, r.max + projectedOffset)
  }

  /** The strict disjointness test of Collision2D.java:58. */
  predicate Disjoint(ra: Interval, rb: Interval)
  {
    ra.min > rb.max || rb.min > ra.max
  }

  /** `axis` separates a from b. */
  predicate Separates(a: Polygon, b: Polygon, axis: Vec2)
  {
    Disjoint(RangeA(a, axis), RangeB(a, b, axis))
  }

  predicate InInterval(t: real, r: Interval)
  {
    r.min <= t <= r.max
  }

  /**
   * For proper intervals the strict test says "separated" exactly when the
   * closed intervals share no point; in particular intervals that only
   * touch at an endpoint are not separated.
   */
  lemma ClosedIntervalsMeet(ra: Interval, rb: Interval)
    requires ra.min <= ra.max && rb.min <= rb.max
    ensures !Disjoint(ra, rb) <==> exists t :: InInterval(t, ra) && InInterval(t, rb)
  {
    if !Disjoint(ra, rb) {
      var t := if ra.min < rb.min then rb.min else ra.min;
      assert InInterval(t, ra) && InInterval(t, rb);
    }
  }

  lemma DotNeg(u: Vec2, v: Vec2)
    ensures Dot(u, Neg(v)) == -Dot(u, v)
  {
  }

  /** Negating the axis does not change whether it separates. */
  lemma SeparatesNegatedAxis(a: Polygon, b: Polygon, axis: Vec2)
    ensures Separates(a, b, Neg(axis)) == Separates(a, b, axis)
  {
    var fa, fb := Flatten(a.vertices, axis), Flatten(b.vertices, axis);
    FlattenNegated(a.vertices, axis);
    FlattenNegated(b.vertices, axis);
    DotNeg(Sub(b.position, a.position), axis);
    var p := Dot(Sub(b.position, a.position), axis);
    assert RangeA(a, Neg(axis)) == Interval(-fa.max, -fa.min);
    assert RangeB(a, b, Neg(axis)) == Interval(-fb.max - p, -fb.min - p);
  }

  /** Whether an axis separates does not depend on the order of the two polygons. */
  lemma SeparatesSymmetric(a: Polygon, b: Polygon, axis: Vec2)
    ensures Separates(a, b, axis) == Separates(b, a, axis)
  {
    assert Dot(Sub(a.position, b.position), axis) == -Dot(Sub(b.position, a.position), axis);
  }

  /** The signed overlap chosen by the branches at Collision2D.java:69-100. */
  function SignedOverlap(ra: Interval, rb: Interval): real
  {
    if ra.min < rb.min then
      if ra.max < rb.max then ra.max - rb.min
      else
        var option1 := ra.max - rb.min;
        var option2 := rb.max - ra.min;
        if option1 < option2 then option1 else -option2
    else
      if ra.max > rb.max then ra.max - rb.min
      else
        var option1 := ra.max - rb.min;
        var option2 := rb.max - ra.min;
        if option1 < option2 then option1 else -option2
  }

  /**
   * How deep the overlap measured on a non-separating axis is. When one
   * interval contains the other it is the smaller escape distance. When A
   * starts first and ends first it is A.max - B.min. When B starts no later
   * and A ends last it is also A.max - B.min (the source's expression at
   * line 91), which is never less than the escape distance B.max - A.min.
   */
  lemma OverlapDepth(ra: Interval, rb: Interval)
    requires !Disjoint(ra, rb)
    ensures Abs(SignedOverlap(ra, rb)) >= 0.0
    ensures ra.min < rb.min && ra.max < rb.max ==> Abs(SignedOverlap(ra, rb)) == ra.max - rb.min
    ensures (ra.min < rb.min && ra.max >= rb.max) || (ra.min >= rb.min && ra.max <= rb.max) ==>
              Abs(SignedOverlap(ra, rb)) == Min(ra.max - rb.min, rb.max - ra.min)
    ensures ra.min >= rb.min && ra.max > rb.max ==>
              Abs(SignedOverlap(ra, rb)) == ra.max - rb.min >= rb.max - ra.min
  {
  }

  // ---------------------------------------------------------------------
  // The Response record

  /** The value of every field of a Response. */
  datatype ResponseState = ResponseState(
    a: Option<Polygon>, b: Option<Polygon>,
    overlapV: Vec2, overlapN: Vec2, overlap: real,
    aInB: bool, bInA: bool, intersection: bool)

  /** What Response.clear does to the fields. */
  function Cleared(s: ResponseState): ResponseState
  {
    s.(aInB := true, bInA := true, intersection := false, overlap := FloatMax)
  }

  /** Collision2D.Response. */
  class Response {
    var a: Option<Polygon>
    var b: Option<Polygon>
    var overlapV: Vec2
    var overlapN: Vec2
    var overlap: real
    var aInB: bool
    var bInA: bool
    var intersection: bool

    function State(): ResponseState
      reads this
    {
      ResponseState(a, b, overlapV, overlapN, overlap, aInB, bInA, intersection)
    }

    /** Response() (Collision2D.java:190-197): no polygons, zero vectors, then clear(). */
    constructor ()
      ensures State() == ResponseState(None, None, Zero2, Zero2, FloatMax, true, true, false)
    {
      a, b := None, None;
      overlapV, overlapN := Zero2, Zero2;
      aInB, bInA, intersection := true, true, false;
      overlap := FloatMax;
    }

    /** Response.clear (Collision2D.java:199-207). */
    method Clear() returns (r: Response)
      modifies this
      ensures r == this
      ensures aInB && bInA && !intersection && overlap == FloatMax
      ensures a == old(a) && b == old(b) && overlapV == old(overlapV) && overlapN == old(overlapN)
      ensures State() == Cleared(old(State()))
    {
      aInB := true;
      bInA := true;
      intersection := false;
      overlap := FloatMax;
      r := this;
    }

    /** getPolygonA: the polygon recorded by the last collision, None before any. */
    function PolygonA(): (p: Option<Polygon>)
      reads this
      ensures p == a
    {
      a
    }

    /** getPolygonB: the polygon recorded by the last collision, None before any. */
    function PolygonB(): (p: Option<Polygon>)
      reads this
      ensures p == b
    {
      b
    }

    /** getMinimumTranslationVector: the MTV, or ZERO when there was no intersection. */
    function MinimumTranslationVector(): (v: Vec2)
      reads this
      ensures !intersection ==> v == Zero2
    {
      if intersection then overlapV else Zero2
    }

    /** getOverlapAxis: the overlap axis, or ZERO when there was no intersection. */
    function OverlapAxis(): (v: Vec2)
      reads this
      ensures !intersection ==> v == Zero2
    {
      if intersection then overlapN else Zero2
    }

    /** getOverlapDistance: the overlap, or 0 when there was no intersection. */
    function OverlapDistance(): (d: real)
      reads this
      ensures !intersection ==> d == 0.0
    {
      if intersection then overlap else 0.0
    }

    /** isAInsideB: true only for an intersection that never cleared aInB. */
    predicate IsAInsideB()
      reads this
      ensures IsAInsideB() ==> intersection
    {
      aInB && intersection
    }

    /** isBInsideA: true only for an intersection that never cleared bInA. */
    predicate IsBInsideA()
      reads this
      ensures IsBInsideA() ==> intersection
    {
      bInA && intersection
    }
  }

  /** The Response an operation works on: the argument, or the shared tmpResponse for null. */
  function Target(response: Response?, shared: Response): Response
  {
    if response == null then shared else response
  }

  /** Which containment flags a non-separating axis clears (Collision2D.java:69-100). */
  function StepFlags(s: ResponseState, ra: Interval, rb: Interval): ResponseState
  {
    if ra.min < rb.min then
      var s1 := s.(aInB := false);
      if ra.max < rb.max then s1.(bInA := false) else s1
    else
      var s1 := s.(bInA := false);
      if ra.max > rb.max then s1.(aInB := false) else s1
  }

  /**
   * The whole effect of a non-separating axis on a Response: the flags,
   * then the minimum overlap and its axis (Collision2D.java:67-111).
   */
  function AxisStep(s: ResponseState, ra: Interval, rb: Interval, axis: Vec2, normalize: Vec2 -> Vec2): ResponseState
  {
    var s1 := StepFlags(s, ra, rb);
    var overlap := Abs(SignedOverlap(ra, rb));
    if overlap < s1.overlap then
      s1.(overlap := overlap, overlapN := if overlap < 0.0 then Neg(normalize(axis)) else normalize(axis))
    else s1
  }

  /** AxisStep for the ranges of a and b on `axis`. */
  function StepOn(s: ResponseState, a: Polygon, b: Polygon, axis: Vec2, normalize: Vec2 -> Vec2): ResponseState
  {
    AxisStep(s, RangeA(a, axis), RangeB(a, b, axis), axis, normalize)
  }

  /**
   * A non-separating axis only ever clears containment flags, and it clears
   * aInB exactly when A starts first or ends last, bInA exactly when A does
   * not start first or ends first; so at least one flag is false afterwards.
   */
  lemma AxisStepFlags(s: ResponseState, ra: Interval, rb: Interval, axis: Vec2, normalize: Vec2 -> Vec2)
    ensures var r := AxisStep(s, ra, rb, axis, normalize);
            && r.aInB == (s.aInB && !(ra.min < rb.min || ra.max > rb.max))
            && r.bInA == (s.bInA && ra.min < rb.min && ra.max >= rb.max)
            && !(r.aInB && r.bInA)
            && r.a == s.a && r.b == s.b && r.overlapV == s.overlapV && r.intersection == s.intersection
  {
  }

  /**
   * A non-separating axis never raises the overlap, keeps it non-negative,
   * and when it lowers it, the overlap axis becomes the normalized axis
   * itself: the negation at Collision2D.java:109-110 never happens.
   */
  lemma AxisStepOverlap(s: ResponseState, ra: Interval, rb: Interval, axis: Vec2, normalize: Vec2 -> Vec2)
    ensures var r := AxisStep(s, ra, rb, axis, normalize);
            && r.overlap == (if Abs(SignedOverlap(ra, rb)) < s.overlap then Abs(SignedOverlap(ra, rb)) else s.overlap)
            && r.overlap <= s.overlap
            && (s.overlap >= 0.0 ==> r.overlap >= 0.0)
            && (r.overlap < s.overlap ==> r.overlapN == normalize(axis))
            && (r.overlap == s.overlap ==> r.overlapN == s.overlapN)
  {
  }

  /**
   * The containment-flag branches of isSeparatingAxis (Collision2D.java:67-100):
   * clears aInB and bInA as the ranges demand and returns the signed overlap.
   */
  method ClearContainment(r: Response, rangeA: Interval, rangeB: Interval) returns (overlap: real)
    modifies r
    ensures r.State() == StepFlags(old(r.State()), rangeA, rangeB)
    ensures overlap == SignedOverlap(rangeA, rangeB)
  {
    if rangeA.min < rangeB.min {
      r.aInB := false;
      if rangeA.max < rangeB.max {
        overlap := rangeA.max - rangeB.min;
        r.bInA := false;
      } else {
        var option1 := rangeA.max - rangeB.min;
        var option2 := rangeB.max - rangeA.min;
        overlap := if option1 < option2 then option1 else -option2;
      }
    } else {
      r.bInA := false;
      if rangeA.max > rangeB.max {
        overlap := rangeA.max - rangeB.min;
        r.aInB := false;
      } else {
        var option1 := rangeA.max - rangeB.min;
        var option2 := rangeB.max - rangeA.min;
        overlap := if option1 < option2 then option1 else -option2;
      }
    }
  }

  /**
   * isSeparatingAxis (Collision2D.java:40-118). A null `response` means the
   * shared tmpResponse, cleared first. `axisAfter` is the caller's axis
   * vector afterwards: normalizeSelf rewrites it when the overlap improves.
   */
  method IsSeparatingAxis(a: Polygon, b: Polygon, axis: Vec2, response: Response?, shared: Response,
                          pool: VectorPool, normalize: Vec2 -> Vec2)
    returns (separating: bool, axisAfter: Vec2)
    modifies Target(response, shared), pool
    ensures separating == Separates(a, b, axis)
    ensures var before := if response == null then Cleared(old(shared.State())) else old(response.State());
            Target(response, shared).State() == (if separating then before else StepOn(before, a, b, axis, normalize))
    ensures var before := if response == null then Cleared(old(shared.State())) else old(response.State());
            axisAfter == (if !separating && StepOn(before, a, b, axis, normalize).overlap < before.overlap
                          then normalize(axis) else axis)
    ensures pool.outstanding == old(pool.outstanding)
  {
    var r: Response;
    if response == null {
      r := shared.Clear();
    } else {
      r := response;
    }
    ghost var before := r.State();

    pool.Pop();
    pool.Pop();
    pool.Pop();

    var offset := Sub(b.position, a.position);
    var projectedOffset := Dot(offset, axis);
    var rangeA := FlattenPoints(a.vertices, axis);
    var rangeB := FlattenPoints(b.vertices, axis);
    rangeB := Interval(rangeB.min + projectedOffset, rangeB.max + projectedOffset);
    axisAfter := axis;

    if rangeA.min > rangeB.max || rangeB.min > rangeA.max {
      pool.Push();
      pool.Push();
      pool.Push();
      return true, axisAfter;
    }

    var overlap := ClearContainment(r, rangeA, rangeB);

    overlap := Abs(overlap);

    if overlap < r.overlap {
      r.overlap := overlap;
      axisAfter := normalize(axis);
      r.overlapN := axisAfter;
      if overlap < 0.0 {
        // overlap is an absolute value here, so the negation of the overlap axis never runs.
        assert false;
      }
    }

    pool.Push();
    pool.Push();
    pool.Push();
    separating := false;
  }

  // ---------------------------------------------------------------------
  // The polygon-polygon test

  /** The axis tested for edge i of a vertex list: the normalized perpendicular of v[(i+1)%n] - v[i]. */
  function EdgeNormal(vs: seq<Vec2>, i: nat, normalize: Vec2 -> Vec2): Vec2
    requires i < |vs|
  {
    normalize(Perp(Sub(vs[(i + 1) % |vs|], vs[i])))
  }

  /** The edge normals of a polygon, in vertex order. */
  function EdgeNormals(p: Polygon, normalize: Vec2 -> Vec2): (ns: seq<Vec2>)
    ensures |ns| == |p.vertices|
    ensures forall i :: 0 <= i < |ns| ==> ns[i] == EdgeNormal(p.vertices, i, normalize)
  {
    seq(|p.vertices|, i requires 0 <= i < |p.vertices| => EdgeNormal(p.vertices, i, normalize))
  }

  /** Every axis testPolygonCollision tries, in order: A's edge normals, then B's. */
  function Axes(a: Polygon, b: Polygon, normalize: Vec2 -> Vec2): seq<Vec2>
  {
    EdgeNormals(a, normalize) + EdgeNormals(b, normalize)
  }

  datatype SweepResult = SweepResult(separated: bool, state: ResponseState)

  /** Testing `axes` in order, stopping at the first separating one. */
  function Sweep(s: ResponseState, a: Polygon, b: Polygon, axes: seq<Vec2>, normalize: Vec2 -> Vec2): SweepResult
    decreases |axes|
  {
    if axes == [] then SweepResult(false, s)
    else if Separates(a, b, axes[0]) then SweepResult(true, s)
    else Sweep(StepOn(s, a, b, axes[0], normalize), a, b, axes[1..], normalize)
  }

  datatype CollisionResult = CollisionResult(collided: bool, state: ResponseState)

  /** The fields testPolygonCollision sets when no axis separates (Collision2D.java:157-160). */
  function Finalise(s: ResponseState, a: Polygon, b: Polygon): ResponseState
  {
    s.(a := Some(a), b := Some(b), overlapV := Scale(s.overlapN, s.overlap), intersection := true)
  }

  /** The outcome of testPolygonCollision on a Response in state s. */
  function Collide(s: ResponseState, a: Polygon, b: Polygon, normalize: Vec2 -> Vec2): CollisionResult
  {
    var sw := Sweep(s, a, b, Axes(a, b, normalize), normalize);
    if sw.separated then CollisionResult(false, sw.state)
    else CollisionResult(true, Finalise(sw.state, a, b))
  }

  /** The sweep stops early exactly when some axis separates. */
  lemma {:induction false} SweepSeparated(s: ResponseState, a: Polygon, b: Polygon, axes: seq<Vec2>, normalize: Vec2 -> Vec2)
    ensures Sweep(s, a, b, axes, normalize).separated <==> exists k :: 0 <= k < |axes| && Separates(a, b, axes[k])
    decreases |axes|
  {
    if axes != [] && !Separates(a, b, axes[0]) {
      SweepSeparated(StepOn(s, a, b, axes[0], normalize), a, b, axes[1..], normalize);
      if exists k :: 0 <= k < |axes| && Separates(a, b, axes[k]) {
        var k :| 0 <= k < |axes| && Separates(a, b, axes[k]);
        assert axes[1..][k - 1] == axes[k];
      }
    }
  }

  /**
   * Along a sweep the containment flags only go from true to false, the
   * overlap never increases and stays non-negative once it is, the overlap
   * axis is the old one or one of the normalized axes, and the polygons,
   * the MTV and the intersection flag are untouched.
   */
  lemma {:induction false} SweepMonotone(s: ResponseState, a: Polygon, b: Polygon, axes: seq<Vec2>, normalize: Vec2 -> Vec2)
    ensures var r := Sweep(s, a, b, axes, normalize).state;
            && (r.aInB ==> s.aInB) && (r.bInA ==> s.bInA)
            && r.overlap <= s.overlap
            && (s.overlap >= 0.0 ==> r.overlap >= 0.0)
            && (r.overlapN == s.overlapN || exists k :: 0 <= k < |axes| && r.overlapN == normalize(axes[k]))
            && r.a == s.a && r.b == s.b && r.overlapV == s.overlapV && r.intersection == s.intersection
    decreases |axes|
  {
    if axes != [] && !Separates(a, b, axes[0]) {
      var s1 := StepOn(s, a, b, axes[0], normalize);
      AxisStepFlags(s, RangeA(a, axes[0]), RangeB(a, b, axes[0]), axes[0], normalize);
      AxisStepOverlap(s, RangeA(a, axes[0]), RangeB(a, b, axes[0]), axes[0], normalize);
      SweepMonotone(s1, a, b, axes[1..], normalize);
      var r := Sweep(s, a, b, axes, normalize).state;
      if r.overlapN != s1.overlapN {
        var k :| 0 <= k < |axes[1..]| && r.overlapN == normalize(axes[1..][k]);
        assert r.overlapN == normalize(axes[k + 1]);
      } else if r.overlapN != s.overlapN {
        assert r.overlapN == normalize(axes[0]);
      }
    }
  }

  /** Once the first axis fails to separate, at least one containment flag ends up false. */
  lemma {:induction false} SweepClearsAFlag(s: ResponseState, a: Polygon, b: Polygon, axes: seq<Vec2>, normalize: Vec2 -> Vec2)
    requires axes != [] && !Separates(a, b, axes[0])
    ensures !(Sweep(s, a, b, axes, normalize).state.aInB && Sweep(s, a, b, axes, normalize).state.bInA)
  {
    var s1 := StepOn(s, a, b, axes[0], normalize);
    AxisStepFlags(s, RangeA(a, axes[0]), RangeB(a, b, axes[0]), axes[0], normalize);
    SweepMonotone(s1, a, b, axes[1..], normalize);
  }

  /**
   * testPolygonCollision reports a collision exactly when no edge normal of
   * either polygon separates them; it then records both polygons, sets
   * intersection and the MTV overlapN * overlap. Otherwise it leaves the
   * polygons, the MTV and the intersection flag as they were.
   */
  lemma CollideCorrect(s: ResponseState, a: Polygon, b: Polygon, normalize: Vec2 -> Vec2)
    ensures var c := Collide(s, a, b, normalize);
            var axes := Axes(a, b, normalize);
            && (c.collided <==> forall k :: 0 <= k < |axes| ==> !Separates(a, b, axes[k]))
            && (c.collided ==> c.state.a == Some(a) && c.state.b == Some(b) && c.state.intersection
                               && c.state.overlapV == Scale(c.state.overlapN, c.state.overlap))
            && (!c.collided ==> c.state.a == s.a && c.state.b == s.b && c.state.overlapV == s.overlapV
                                && c.state.intersection == s.intersection)
  {
    SweepSeparated(s, a, b, Axes(a, b, normalize), normalize);
    SweepMonotone(s, a, b, Axes(a, b, normalize), normalize);
  }

  /** An axis of Axes(a, b) that separates a from b is also an axis of Axes(b, a) separating b from a. */
  lemma SeparatingAxisSwapped(a: Polygon, b: Polygon, normalize: Vec2 -> Vec2, k: nat)
    requires k < |Axes(a, b, normalize)| && Separates(a, b, Axes(a, b, normalize)[k])
    ensures exists j :: 0 <= j < |Axes(b, a, normalize)| && Separates(b, a, Axes(b, a, normalize)[j])
  {
    var ab := Axes(a, b, normalize);
    var ba := Axes(b, a, normalize);
    var na := EdgeNormals(a, normalize);
    var nb := EdgeNormals(b, normalize);
    SeparatesSymmetric(a, b, ab[k]);
    var j := if k < |na| then |nb| + k else k - |na|;
    assert ba[j] == ab[k];
  }

  /** Whether two polygons collide does not depend on their order. */
  lemma CollideSymmetric(s: ResponseState, t: ResponseState, a: Polygon, b: Polygon, normalize: Vec2 -> Vec2)
    ensures Collide(s, a, b, normalize).collided == Collide(t, b, a, normalize).collided
  {
    var ab := Axes(a, b, normalize);
    var ba := Axes(b, a, normalize);
    SweepSeparated(s, a, b, ab, normalize);
    SweepSeparated(t, b, a, ba, normalize);
    if exists k :: 0 <= k < |ab| && Separates(a, b, ab[k]) {
      var k :| 0 <= k < |ab| && Separates(a, b, ab[k]);
      SeparatingAxisSwapped(a, b, normalize, k);
    }
    if exists k :: 0 <= k < |ba| && Separates(b, a, ba[k]) {
      var k :| 0 <= k < |ba| && Separates(b, a, ba[k]);
      SeparatingAxisSwapped(b, a, normalize, k);
    }
  }

  /**
   * The other sign of the perpendicular: normalizing (y, -x) where the
   * model normalizes (-y, x).
   */
  function FlipPerp(normalize: Vec2 -> Vec2): Vec2 -> Vec2
  {
    v => normalize(Neg(v))
  }

  /**
   * When normalize commutes with negation, as normalizeSelf does, the
   * collision verdict is the same for either sign of the perpendicular.
   */
  lemma CollideVerdictPerpSign(s: ResponseState, t: ResponseState, a: Polygon, b: Polygon, normalize: Vec2 -> Vec2)
    requires forall v :: normalize(Neg(v)) == Neg(normalize(v))
    ensures Collide(s, a, b, normalize).collided == Collide(t, a, b, FlipPerp(normalize)).collided
  {
    var axes := Axes(a, b, normalize);
    var flipped := Axes(a, b, FlipPerp(normalize));
    CollideCorrect(s, a, b, normalize);
    CollideCorrect(t, a, b, FlipPerp(normalize));
    forall k | 0 <= k < |axes|
      ensures Separates(a, b, flipped[k]) == Separates(a, b, axes[k])
    {
      assert flipped[k] == Neg(axes[k]);
      SeparatesNegatedAxis(a, b, axes[k]);
    }
  }

  /**
   * On a cleared Response, a collision between polygons with at least one
   * vertex never reports both A inside B and B inside A.
   */
  lemma CollideNeverMutualContainment(s: ResponseState, a: Polygon, b: Polygon, normalize: Vec2 -> Vec2)
    requires |a.vertices| + |b.vertices| > 0
    requires Collide(s, a, b, normalize).collided
    ensures !(Collide(s, a, b, normalize).state.aInB && Collide(s, a, b, normalize).state.bInA)
  {
    var axes := Axes(a, b, normalize);
    CollideCorrect(s, a, b, normalize);
    assert !Separates(a, b, axes[0]);
    SweepClearsAFlag(s, a, b, axes, normalize);
  }

  /**
   * Testing a polygon against itself: no axis separates it from itself
   * (its interval is never strictly apart from itself), aInB survives
   * every axis, and the first axis clears bInA because equal minima take
   * the `else` branch at Collision2D.java:85-87.
   */
  lemma {:induction false} SweepSelf(s: ResponseState, a: Polygon, axes: seq<Vec2>, normalize: Vec2 -> Vec2)
    requires a.vertices != []
    ensures var r := Sweep(s, a, a, axes, normalize);
            && !r.separated && r.state.aInB == s.aInB && (axes != [] ==> !r.state.bInA)
    decreases |axes|
  {
    if axes != [] {
      var ra := RangeA(a, axes[0]);
      FlattenBounds(a.vertices, axes[0]);
      assert ra.min <= Dot(a.vertices[0], axes[0]) <= ra.max;
      assert Dot(Sub(a.position, a.position), axes[0]) == 0.0;
      assert RangeB(a, a, axes[0]) == ra;
      assert !Separates(a, a, axes[0]);
      var s1 := StepOn(s, a, a, axes[0], normalize);
      AxisStepFlags(s, ra, ra, axes[0], normalize);
      assert forall k :: 0 <= k < |axes[1..]| ==> axes[1..][k] == axes[k + 1];
      SweepSelf(s1, a, axes[1..], normalize);
      SweepMonotone(s1, a, a, axes[1..], normalize);
    }
  }

  /**
   * A polygon with at least one vertex collides with itself, and on a
   * cleared Response the outcome reports A inside B but not B inside A.
   */
  lemma IdenticalPolygons(s: ResponseState, a: Polygon, normalize: Vec2 -> Vec2)
    requires a.vertices != []
    ensures var c := Collide(Cleared(s), a, a, normalize);
            c.collided && c.state.aInB && !c.state.bInA
  {
    SweepSelf(Cleared(s), a, Axes(a, a, normalize), normalize);
  }

  /** After a test that found a separating axis on a cleared Response, every getter reports "no collision". */
  lemma NoCollisionGetters(r: Response, s: ResponseState, a: Polygon, b: Polygon, normalize: Vec2 -> Vec2)
    requires !Collide(Cleared(s), a, b, normalize).collided
    requires r.State() == Collide(Cleared(s), a, b, normalize).state
    ensures r.MinimumTranslationVector() == Zero2 && r.OverlapAxis() == Zero2 && r.OverlapDistance() == 0.0
    ensures !r.IsAInsideB() && !r.IsBInsideA()
  {
    CollideCorrect(Cleared(s), a, b, normalize);
  }

  /** After a test that found a collision, the MTV getter is the overlap axis scaled by the overlap distance. */
  lemma CollisionGetters(r: Response, s: ResponseState, a: Polygon, b: Polygon, normalize: Vec2 -> Vec2)
    requires Collide(s, a, b, normalize).collided
    requires r.State() == Collide(s, a, b, normalize).state
    ensures r.MinimumTranslationVector() == Scale(r.OverlapAxis(), r.OverlapDistance())
    ensures r.PolygonA() == Some(a) && r.PolygonB() == Some(b)
    ensures r.IsAInsideB() == r.aInB && r.IsBInsideA() == r.bInA
  {
    CollideCorrect(s, a, b, normalize);
  }

  /**
   * One of the two edge loops of testPolygonCollision (Collision2D.java:127-140
   * for A's edges, :142-155 for B's): tests the normal of every edge of `p`
   * against a and b, stopping at the first separating one.
   */
  method TestEdges(p: Polygon, a: Polygon, b: Polygon, r: Response, shared: Response, pool: VectorPool,
                   normalize: Vec2 -> Vec2)
    returns (separated: bool)
    modifies r, pool
    ensures var sw := Sweep(old(r.State()), a, b, EdgeNormals(p, normalize), normalize);
            separated == sw.separated && r.State() == sw.state
    ensures pool.outstanding == old(pool.outstanding)
  {
    ghost var ns := EdgeNormals(p, normalize);
    ghost var goal := Sweep(r.State(), a, b, ns, normalize);
    var n := |p.vertices|;
    var i := 0;
    assert ns[0..] == ns;
    while i < n
      invariant 0 <= i <= n
      invariant Sweep(r.State(), a, b, ns[i..], normalize) == goal
      invariant pool.outstanding == old(pool.outstanding)
    {
      var e1 := p.vertices[i];
      var e2 := p.vertices[(i + 1) % n];
      var normal := normalize(Perp(Sub(e2, e1)));
      assert ns[i..][0] == normal;
      assert ns[i..][1..] == ns[i + 1..];
      var sep, _ := IsSeparatingAxis(a, b, normal, r, shared, pool, normalize);
      if sep {
        return true;
      }
      i := i + 1;
    }
    separated := false;
  }

  /** Sweeping two lists of axes in turn is sweeping their concatenation. */
  lemma {:induction false} SweepAppend(s: ResponseState, a: Polygon, b: Polygon, xs: seq<Vec2>, ys: seq<Vec2>, normalize: Vec2 -> Vec2)
    ensures var first := Sweep(s, a, b, xs, normalize);
            Sweep(s, a, b, xs + ys, normalize)
            == if first.separated then first else Sweep(first.state, a, b, ys, normalize)
    decreases |xs|
  {
    if xs == [] {
      assert xs + ys == ys;
    } else {
      assert (xs + ys)[0] == xs[0];
      assert (xs + ys)[1..] == xs[1..] + ys;
      if !Separates(a, b, xs[0]) {
        SweepAppend(StepOn(s, a, b, xs[0], normalize), a, b, xs[1..], ys, normalize);
      }
    }
  }

  /**
   * testPolygonCollision (Collision2D.java:120-165). A null `response`
   * means the shared tmpResponse, cleared first.
   */
  method TestPolygonCollision(a: Polygon, b: Polygon, response: Response?, shared: Response,
                              pool: VectorPool, normalize: Vec2 -> Vec2)
    returns (collided: bool)
    modifies Target(response, shared), pool
    ensures var before := if response == null then Cleared(old(shared.State())) else old(response.State());
            var c := Collide(before, a, b, normalize);
            collided == c.collided && Target(response, shared).State() == c.state
    ensures pool.outstanding == old(pool.outstanding)
  {
    var r: Response;
    if response == null {
      r := shared.Clear();
    } else {
      r := response;
    }
    ghost var before := r.State();
    SweepAppend(before, a, b, EdgeNormals(a, normalize), EdgeNormals(b, normalize), normalize);

    pool.Pop();

    var sep := TestEdges(a, a, b, r, shared, pool, normalize);
    if sep {
      pool.Push();
      return false;
    }
    sep := TestEdges(b, a, b, r, shared, pool, normalize);
    if sep {
      pool.Push();
      return false;
    }

    r.a := Some(a);
    r.b := Some(b);
    r.overlapV := Scale(r.overlapN, r.overlap);
    r.intersection := true;

    pool.Push();
    collided := true;
  }
}
