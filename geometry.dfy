/**
 * The vector and shape values the engine passes around: Vector2, Vector3,
 * and the vertex data of geom2d.Polygon and geom3d.Polyhedron. All
 * coordinates are reals; IEEE float rounding is not modelled.
 */
module Geometry {

  datatype Vec2 = Vec2(x: real, y: real)
  datatype Vec3 = Vec3(x: real, y: real, z: real)

  const Zero2: Vec2 := Vec2(0.0, 0.0)
  const Zero3: Vec3 := Vec3(0.0, 0.0, 0.0)

  /** Java's Float.MAX_VALUE, (2^24 - 1) * 2^104, as an exact real. */
  const FloatMax: real := 340282346638528859811704183484516925440.0

  function Add(u: Vec2, v: Vec2): Vec2 { Vec2(u.x + v.x, u.y + v.y) }
  function Sub(u: Vec2, v: Vec2): Vec2 { Vec2(u.x - v.x, u.y - v.y) }
  function Neg(v: Vec2): Vec2 { Vec2(-v.x, -v.y) }
  function Scale(v: Vec2, s: real): Vec2 { Vec2(v.x * s, v.y * s) }
  function Dot(u: Vec2, v: Vec2): real { u.x * v.x + u.y * v.y }
  /** Componentwise product, as Vector2.scale(sx, sy). */
  function Mul(u: Vec2, v: Vec2): Vec2 { Vec2(u.x * v.x, u.y * v.y) }
  /** The perpendicular of v, taken as (-y, x). */
  function Perp(v: Vec2): Vec2 { Vec2(-v.y, v.x) }

  function Add3(u: Vec3, v: Vec3): Vec3 { Vec3(u.x + v.x, u.y + v.y, u.z + v.z) }

  /** A convex polygon: its position and its (already transformed) vertices. */
  datatype Polygon = Polygon(position: Vec2, vertices: seq<Vec2>)

  /** A polyhedron: its position and its vertices in triangle-strip order. */
  datatype Polyhedron = Polyhedron(position: Vec3, vertices: seq<Vec3>)
}
