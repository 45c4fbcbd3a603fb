/**
 * scene/components/CollisionComponent2D: before each collision check the
 * component copies its entity's world transform into its polygon. The world
 * transform folds the entity's own position, scale and rotation with those of
 * every ancestor. Vector2.rotate is trigonometry and is a parameter here.
 */
module Scene {
  import G = Geometry
  import opened Pool

  /** The fields of scene.entity.Entity2D that update reads. */
  class Entity2D {
    var position: G.Vec2
    var scale: G.Vec2
    var rotation: real
    var parent: Entity2D?
    /** entity.transformComponent.transformed */
    var transformed: bool

    constructor (position: G.Vec2, scale: G.Vec2, rotation: real, parent: Entity2D?, transformed: bool)
      ensures this.position == position && this.scale == scale && this.rotation == rotation
      ensures this.parent == parent && this.transformed == transformed
    {
      this.position := position;
      this.scale := scale;
      this.rotation := rotation;
      this.parent := parent;
      this.transformed := transformed;
    }
  }

  /** The transform fields of geom2d.Polygon that update writes. */
  class Polygon {
    var position: G.Vec2
    var scale: G.Vec2
    var rotation: real

    constructor ()
      ensures position == G.Zero2 && scale == G.Vec2(1.0, 1.0) && rotation == 0.0
    {
      position := G.Zero2;
      scale := G.Vec2(1.0, 1.0);
      rotation := 0.0;
    }
  }

  /** A position, scale and rotation, as values. */
  datatype Frame = Frame(position: G.Vec2, scale: G.Vec2, rotation: real)

  /**
   * `chain` lists the ancestors of `e`, nearest first, ending at the root:
   * following `parent` from `e` visits exactly these entities and then null.
   */
  ghost predicate Ancestors(e: Entity2D, chain: seq<Entity2D>)
    reads e, set x | x in chain
  {
    && (if chain == [] then e.parent == null else e.parent == chain[0])
    && (forall i :: 0 <= i < |chain| - 1 ==> chain[i].parent == chain[i + 1])
    && (chain != [] ==> chain[|chain| - 1].parent == null)
  }

  function FrameOf(e: Entity2D): Frame
    reads e
  {
    Frame(e.position, e.scale, e.rotation)
  }

  ghost function Frames(chain: seq<Entity2D>): (fs: seq<Frame>)
    reads set x | x in chain
    ensures |fs| == |chain| && forall i :: 0 <= i < |chain| ==> fs[i] == FrameOf(chain[i])
  {
    if chain == [] then [] else [FrameOf(chain[0])] + Frames(chain[1..])
  }

  /**
   * One iteration of the loop in update (CollisionComponent2D.java:84-86):
   * add the parent's rotation, scale by the parent's scale componentwise, and
   * rotate the position by the parent's rotation before offsetting it by the
   * parent's position.
   */
  function Lift(f: Frame, parent: Frame, rotate: (G.Vec2, real) -> G.Vec2): Frame
  {
    Frame(G.Add(rotate(f.position, parent.rotation), parent.position),
          G.Mul(f.scale, parent.scale),
          f.rotation + parent.rotation)
  }

  /** The world transform: `f` lifted through each ancestor frame in turn, nearest first. */
  function WorldFrame(f: Frame, ancestors: seq<Frame>, rotate: (G.Vec2, real) -> G.Vec2): Frame
    decreases |ancestors|
  {
    if ancestors == [] then f else WorldFrame(Lift(f, ancestors[0], rotate), ancestors[1..], rotate)
  }

  /** The root is applied last: adding one more ancestor lifts the previous world transform once more. */
  lemma {:induction false} WorldFrameSnoc(f: Frame, ancestors: seq<Frame>, p: Frame, rotate: (G.Vec2, real) -> G.Vec2)
    ensures WorldFrame(f, ancestors + [p], rotate) == Lift(WorldFrame(f, ancestors, rotate), p, rotate)
    decreases |ancestors|
  {
    if ancestors == [] {
      assert [] + [p] == [p];
      assert WorldFrame(f, [p], rotate) == WorldFrame(Lift(f, p, rotate), [], rotate);
    } else {
      assert (ancestors + [p])[1..] == ancestors[1..] + [p];
      WorldFrameSnoc(Lift(f, ancestors[0], rotate), ancestors[1..], p, rotate);
    }
  }

  /** The sum of the ancestors' rotations, counted from the root side. */
  function TotalRotation(ancestors: seq<Frame>): real
    decreases |ancestors|
  {
    if ancestors == [] then 0.0 else TotalRotation(ancestors[..|ancestors| - 1]) + ancestors[|ancestors| - 1].rotation
  }

  /** The componentwise product of the ancestors' scales, counted from the root side. */
  function TotalScale(ancestors: seq<Frame>): G.Vec2
    decreases |ancestors|
  {
    if ancestors == [] then G.Vec2(1.0, 1.0) else G.Mul(TotalScale(ancestors[..|ancestors| - 1]), ancestors[|ancestors| - 1].scale)
  }

  /**
   * The final rotation is the entity's rotation plus every ancestor's, and
   * the final scale the entity's scale times every ancestor's, componentwise
   * (CollisionComponent2D.java:77-78,84-85); neither depends on positions or
   * on the rotation function.
   */
  lemma {:induction false} WorldRotationAndScale(f: Frame, ancestors: seq<Frame>, rotate: (G.Vec2, real) -> G.Vec2)
    ensures WorldFrame(f, ancestors, rotate).rotation == f.rotation + TotalRotation(ancestors)
    ensures WorldFrame(f, ancestors, rotate).scale == G.Mul(f.scale, TotalScale(ancestors))
    decreases |ancestors|
  {
    if ancestors != [] {
      var init := ancestors[..|ancestors| - 1];
      var p := ancestors[|ancestors| - 1];
      assert ancestors == init + [p];
      WorldFrameSnoc(f, init, p, rotate);
      WorldRotationAndScale(f, init, rotate);
      var s := f.scale;
      var t := TotalScale(init);
      assert (s.x * t.x) * p.scale.x == s.x * (t.x * p.scale.x);
      assert (s.y * t.y) * p.scale.y == s.y * (t.y * p.scale.y);
    }
  }

  class CollisionComponent2D {
    var polygon: Polygon
    var entity: Entity2D?

    /** CollisionComponent2D(CollisionTag, Polygon) (CollisionComponent2D.java:46-50); the tag is not modelled. */
    constructor (polygon: Polygon)
      ensures this.polygon == polygon && entity == null
    {
      this.polygon := polygon;
      entity := null;
    }

    /** init (CollisionComponent2D.java:60-63). */
    method Init(entity: Entity2D)
      modifies this
      ensures this.entity == entity && polygon == old(polygon)
    {
      this.entity := entity;
    }

    /**
     * update (CollisionComponent2D.java:66-97): `chain` names the ancestors
     * the loop will visit, `rotate` stands for Vector2.rotate and `pool` for
     * Vector2.REUSABLE_STACK.
     */
    method Update(ghost chain: seq<Entity2D>, rotate: (G.Vec2, real) -> G.Vec2, pool: VectorPool)
      requires entity != null && Ancestors(entity, chain)
      modifies polygon, pool
      ensures pool.outstanding == old(pool.outstanding)
      ensures !entity.transformed ==> unchanged(polygon)
      ensures entity.transformed ==>
                var w := WorldFrame(old(FrameOf(entity)), old(Frames(chain)), rotate);
                polygon.position == w.position && polygon.scale == w.scale && polygon.rotation == w.rotation
    {
      ghost var start := FrameOf(entity);
      ghost var frames := Frames(chain);
      if !entity.transformed {
        return;
      }
      pool.Pop();
      pool.Pop();
      var rotation := 0.0;
      var tPosition := entity.position;
      var tScale := entity.scale;
      rotation := rotation + entity.rotation;
      var parent := entity.parent;
      ghost var i := 0;
      while parent != null
        invariant 0 <= i <= |chain|
        invariant parent == if i < |chain| then chain[i] else null
        invariant Frame(tPosition, tScale, rotation) == WorldFrame(start, frames[..i], rotate)
        invariant pool.outstanding == old(pool.outstanding) + 2
        decreases |chain| - i
      {
        assert frames[..i + 1] == frames[..i] + [frames[i]];
        WorldFrameSnoc(start, frames[..i], frames[i], rotate);
        rotation := rotation + parent.rotation;
        tScale := G.Mul(tScale, parent.scale);
        tPosition := G.Add(rotate(tPosition, parent.rotation), parent.position);
        parent := parent.parent;
        i := i + 1;
      }
      assert frames[..i] == frames;
      polygon.position := tPosition;
      polygon.scale := tScale;
      polygon.rotation := rotation;
      pool.Push();
      pool.Push();
    }
  }
}
