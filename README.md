# SilenceEngine core, modelled in Dafny

This project models six pieces of the SilenceEngine game engine and proves
properties of them.

- **Collision2D**: the 2D Separating Axis Theorem test.
  - `flattenPoints` projects a polygon's vertices onto an axis.
  - `isSeparatingAxis` compares the two projection intervals and updates a mutable `Response`: the containment flags, the smallest overlap and its axis.
  - `testPolygonCollision` tries the edge normals of A, then those of B. It stops at the first separating axis; otherwise it finalises the minimum translation vector (MTV).
- **Window** (LWJGL backend):
  - `getCurrentMonitor`: picks the monitor with the largest intersection area; the earliest wins a tie.
  - The fifteen user callback slots.
  - The title and monitor fields.
- **Monitor**: an object wrapping a native GLFW handle.
  - `hashCode` and `equals`.
  - The registry from handle to Monitor.
  - The lazily cached primary monitor and monitor list.
- **ALSource**: an OpenAL source.
  - A `disposed` flag guards every mutating call.
  - `getState` classifies the queried source state.
- **CollisionComponent2D.update**: copies an entity's world transform into its collision polygon. The transform is folded over the entity's chain of parents.
- **RenderUtils**: draws polygons and polyhedra through a `Batcher`.

Modules (one `.dfy` file each):

- `Wrappers`: `Option`, `Outcome` and `Result`.
- `Geometry`: `Vec2`, `Vec3`, and `Polygon`/`Polyhedron` as values.
- `Pool`: `Vector2.REUSABLE_STACK` as a balance counter.
- `Collision2D`: `Response`, a class with the source's fields.
- `Monitors`: the `Monitor` class, plus a `MonitorRegistry` class that holds Monitor's static fields.
- `Windows`: the `Window` class.
- `Audio`: the `ALSource` class.
- `Scene`: the `Entity2D`, `Polygon` and `CollisionComponent2D` classes.
- `Render`: a `Batcher` class whose `log` records every call in order.

Each imperative method of the source is a Dafny method with the same loops and branches. Its `ensures` ties the new state to a specification function, and lemmas prove the source's promises about that function.

Foreign and native calls become parameters:

- Calls into GLFW and OpenAL.
  - The values they return are parameters: window and monitor rectangles, native handles, and `alGetSourcei` replies.
  - Whether `ALError.check` throws is a boolean parameter.
  - Every OpenAL call after construction is appended to the source's `issued` log.
- `Vector2.normalizeSelf`, which needs a square root, is the function parameter `normalize`.
- `Vector2.rotate`, which needs trigonometry, is the function parameter `rotate`.

Numbers are modelled as follows:

- Coordinates are reals.
- `Float.MAX_VALUE` is the exact real (2^24 − 1)·2^104.
- Java `long` is the newtype `Long`, and `hashCode` works on its 64-bit two's-complement pattern.
- The OpenAL tokens use the values of the OpenAL 1.1 specification:
  - `AL_FALSE` = 0 and `AL_TRUE` = 1;
  - `AL_LOOPING` = 0x1007 and `AL_BUFFER` = 0x1009;
  - `AL_SOURCE_STATE` = 0x1010;
  - `AL_PLAYING` = 0x1012 and `AL_PAUSED` = 0x1013.

  `AudioDevice.Constants` is not part of this model.

### Behaviour worth noting

- **Touching shapes collide.** The separation test at Collision2D.java:58 is strict. So intervals that share one endpoint are not separated, and shapes that only touch at a boundary collide. `Collision2D.ClosedIntervalsMeet` states this.
- **A polygon tested against itself is inside, not around.** With equal minima the code takes the `else` branch, and that branch clears `bInA` (Collision2D.java:85-87). `Collision2D.IdenticalPolygons` proves the outcome for any polygon tested against itself: a collision with A inside B, but not B inside A.
- **The `A.min >= B.min && A.max > B.max` branch measures `A.max − B.min`** (Collision2D.java:91). That is never smaller than the escape distance `B.max − A.min`, so this branch does not record the smaller way out. `Collision2D.OverlapDepth` states this.
- **The negation of the overlap axis never runs.** The overlap has already been made non-negative when Collision2D.java:109-110 tests it. `Collision2D.AxisStepOverlap` states this, and `Collision2D.IsSeparatingAxis` marks the branch as unreachable.

## Model

| member | source | states |
|---|---|---|
| Collision2D.FlattenBounds | src/main/java/com/shc/silenceengine/collision/Collision2D.java:24-38 | Every vertex's dot product with the normal lies in [min, max]. Each bound is its sentinel or is attained by a vertex. For a non-empty list of float-range dot products, min ≤ max and both bounds are attained. |
| Collision2D.FlattenPoints | src/main/java/com/shc/silenceengine/collision/Collision2D.java:24-38 | The loop's result is the interval `Flatten` defines, whose bounds `FlattenBounds` proves. |
| Collision2D.FlattenNegated | src/main/java/com/shc/silenceengine/collision/Collision2D.java:24-38 | Projecting onto the negated axis mirrors the interval, sentinels included. |
| Collision2D.ClosedIntervalsMeet | src/main/java/com/shc/silenceengine/collision/Collision2D.java:58 | For proper intervals, the strict test reports "not separated" exactly when the closed intervals share a point. So intervals that only touch are not separated. |
| Collision2D.SeparatesNegatedAxis | src/main/java/com/shc/silenceengine/collision/Collision2D.java:49-58 | Whether an axis separates does not depend on its sign. The recorded overlap and containment flags can depend on it (see `Geometry.Perp` under Left out). |
| Collision2D.SeparatesSymmetric | src/main/java/com/shc/silenceengine/collision/Collision2D.java:49-58 | Whether an axis separates A from B does not depend on the order of the two polygons. |
| Collision2D.OverlapDepth | src/main/java/com/shc/silenceengine/collision/Collision2D.java:69-102 | The absolute overlap on a non-separating axis, case by case. When one interval contains the other, it is the smaller escape distance. When A starts below B and also ends below B, it is A.max − B.min. In the line-91 branch it is A.max − B.min, which is at least the escape distance B.max − A.min. |
| Collision2D.Response.constructor | src/main/java/com/shc/silenceengine/collision/Collision2D.java:190-197 | A new Response has no polygons, zero vectors and the cleared flags and overlap. |
| Collision2D.Response.Clear | src/main/java/com/shc/silenceengine/collision/Collision2D.java:199-207 | Returns the same object. Sets aInB and bInA to true, intersection to false and overlap to Float.MAX_VALUE. Leaves a, b, overlapV and overlapN unchanged. |
| Collision2D.Response.PolygonA | src/main/java/com/shc/silenceengine/collision/Collision2D.java:209-212 | Returns the recorded polygon A: None on a new Response, Some(a) after a collision of a with b (`Collision2D.CollisionGetters`). |
| Collision2D.Response.PolygonB | src/main/java/com/shc/silenceengine/collision/Collision2D.java:214-217 | Returns the recorded polygon B: None on a new Response, Some(b) after a collision of a with b (`Collision2D.CollisionGetters`). |
| Collision2D.Response.MinimumTranslationVector | src/main/java/com/shc/silenceengine/collision/Collision2D.java:219-222 | Zero unless there was an intersection. |
| Collision2D.Response.OverlapAxis | src/main/java/com/shc/silenceengine/collision/Collision2D.java:224-227 | Zero unless there was an intersection. |
| Collision2D.Response.OverlapDistance | src/main/java/com/shc/silenceengine/collision/Collision2D.java:229-232 | 0 unless there was an intersection. |
| Collision2D.Response.IsAInsideB | src/main/java/com/shc/silenceengine/collision/Collision2D.java:234-237 | True only when there was an intersection. |
| Collision2D.Response.IsBInsideA | src/main/java/com/shc/silenceengine/collision/Collision2D.java:239-242 | True only when there was an intersection. |
| Collision2D.AxisStepFlags | src/main/java/com/shc/silenceengine/collision/Collision2D.java:69-100 | On a non-separating axis, aInB survives only if A neither starts below B nor ends above it. bInA survives only if A starts below B and does not end below it. Neither flag is ever set to true, and afterwards at least one is false. The polygons, the MTV and intersection are untouched. |
| Collision2D.AxisStepOverlap | src/main/java/com/shc/silenceengine/collision/Collision2D.java:102-111 | The overlap becomes the smaller of the old overlap and the absolute overlap on this axis. It never increases and stays non-negative. When it decreases, overlapN becomes exactly normalize(axis), never its negation. |
| Collision2D.ClearContainment | src/main/java/com/shc/silenceengine/collision/Collision2D.java:67-100 | The branches clear the flags as `StepFlags` says and return the signed overlap. |
| Collision2D.IsSeparatingAxis | src/main/java/com/shc/silenceengine/collision/Collision2D.java:40-118 | Returns true exactly when the strict interval test separates A's range from B's shifted range. A null response means the shared tmpResponse, cleared first. On true the Response is left as it was; on false it takes the per-axis step. The caller's axis is normalized in place exactly when the overlap improved. Every scratch vector popped is pushed back. |
| Collision2D.SweepSeparated | src/main/java/com/shc/silenceengine/collision/Collision2D.java:127-155 | The sweep over the axes ends early exactly when some axis separates. |
| Collision2D.SweepMonotone | src/main/java/com/shc/silenceengine/collision/Collision2D.java:127-155 | Across a sweep the flags only go from true to false. The overlap never increases and stays non-negative. overlapN is the old axis or one of the normalized axes. The polygons, the MTV and intersection are untouched. |
| Collision2D.SweepClearsAFlag | src/main/java/com/shc/silenceengine/collision/Collision2D.java:69-100 | Once a first axis fails to separate, the sweep ends with at least one containment flag false. |
| Collision2D.SweepAppend | src/main/java/com/shc/silenceengine/collision/Collision2D.java:127-155 | Sweeping A's normals and then B's is the same as sweeping their concatenation. |
| Collision2D.TestEdges | src/main/java/com/shc/silenceengine/collision/Collision2D.java:127-140 | The edge loop over the normals of the edges (v[i], v[(i+1) % n]) computes the sweep over those normals: the same stop and the same final Response. |
| Collision2D.TestPolygonCollision | src/main/java/com/shc/silenceengine/collision/Collision2D.java:120-165 | The result and the final Response are those of `Collide`: A's edge normals, then B's, stopping at the first separating one. A null response means tmpResponse, cleared. The pool is balanced. |
| Collision2D.CollideCorrect | src/main/java/com/shc/silenceengine/collision/Collision2D.java:127-164 | Reports a collision exactly when no edge normal of either polygon separates them. On a collision it sets a, b, intersection, and overlapV = overlapN·overlap. Otherwise those four fields are unchanged. |
| Collision2D.SeparatingAxisSwapped | src/main/java/com/shc/silenceengine/collision/Collision2D.java:127-155 | A separating axis among A's and B's normals is also a separating axis when the roles are swapped. |
| Collision2D.CollideSymmetric | src/main/java/com/shc/silenceengine/collision/Collision2D.java:120-165 | Whether two polygons collide does not depend on their order or on the Response's starting state. |
| Collision2D.CollideVerdictPerpSign | src/main/java/com/shc/silenceengine/collision/Collision2D.java:127-155 | When normalize commutes with negation, the collision verdict is the same whether the edge normals are built from (−y, x) or from (y, −x), whatever the Responses' starting states. |
| Collision2D.CollideNeverMutualContainment | src/main/java/com/shc/silenceengine/collision/Collision2D.java:69-100 | A collision between polygons with at least one vertex never reports both A inside B and B inside A. |
| Collision2D.SweepSelf | src/main/java/com/shc/silenceengine/collision/Collision2D.java:58-100 | A polygon is never separated from itself. aInB survives and the first axis clears bInA. |
| Collision2D.IdenticalPolygons | src/main/java/com/shc/silenceengine/collision/Collision2D.java:85-92 | A polygon tested against itself on a cleared Response collides, with aInB true and bInA false. |
| Collision2D.NoCollisionGetters | src/main/java/com/shc/silenceengine/collision/Collision2D.java:219-242 | After a test that found a separating axis on a cleared Response, every getter reports "no collision". |
| Collision2D.CollisionGetters | src/main/java/com/shc/silenceengine/collision/Collision2D.java:157-160 | After a collision, the MTV getter equals the overlap axis scaled by the overlap distance. Both polygons are recorded. The inside getters are the raw flags. |
| Windows.Overlap | backend-lwjgl/src/main/java/com/shc/silenceengine/backend/lwjgl/glfw/Window.java:1717 | The length of the overlap on one axis: non-negative, positive exactly when both extents are positive and the intervals overlap strictly, and at most either extent. |
| Windows.Score | backend-lwjgl/src/main/java/com/shc/silenceengine/backend/lwjgl/glfw/Window.java:1717 | The area of the intersection of the window and a monitor. It is ≥ 0. It is positive exactly when both rectangles have positive extents and overlap strictly on both axes. It is 0 when they are apart or merely touch. |
| Windows.CurrentIsUnique | backend-lwjgl/src/main/java/com/shc/silenceengine/backend/lwjgl/glfw/Window.java:1691-1693 | At most one monitor is the current one: the best positive score, with the earliest index winning. |
| Windows.GetCurrentMonitor | backend-lwjgl/src/main/java/com/shc/silenceengine/backend/lwjgl/glfw/Window.java:1697-1727 | Returns None exactly when every monitor scores 0. Otherwise it returns the first monitor with the maximal score: its score is ≥ every score, and > the score of every earlier monitor. |
| Windows.Stored | backend-lwjgl/src/main/java/com/shc/silenceengine/backend/lwjgl/glfw/Window.java:1220-1223 | A setter stores its argument, or the do-nothing callback for null. |
| Windows.InitialSlots | backend-lwjgl/src/main/java/com/shc/silenceengine/backend/lwjgl/glfw/Window.java:594-612 | After the fifteen setters are called with null, every slot holds the do-nothing callback. |
| Windows.Window.constructor | backend-lwjgl/src/main/java/com/shc/silenceengine/backend/lwjgl/glfw/Window.java:275-294 | Stores the handle, title and monitor; every callback slot holds the do-nothing callback. |
| Windows.Window.Create | backend-lwjgl/src/main/java/com/shc/silenceengine/backend/lwjgl/glfw/Window.java:283-286 | Fails with "Cannot create window" exactly when the native handle is null. Otherwise it returns a fresh, fully initialised window. |
| Windows.Window.SetCallback | backend-lwjgl/src/main/java/com/shc/silenceengine/backend/lwjgl/glfw/Window.java:1216-1228 | Returns the previously stored callback and stores the argument, with the do-nothing callback for null. The other slots, the title and the monitor are unchanged. |
| Windows.Window.GetCallback | backend-lwjgl/src/main/java/com/shc/silenceengine/backend/lwjgl/glfw/Window.java:1203-1206 | Returns the stored callback. On an initialised window it never returns null. |
| Windows.Window.InitCustomCallbacks | backend-lwjgl/src/main/java/com/shc/silenceengine/backend/lwjgl/glfw/Window.java:594-612 | Calls all fifteen setters with null, so every slot holds the do-nothing callback. The title and monitor are unchanged. |
| Windows.Window.GetTitle | backend-lwjgl/src/main/java/com/shc/silenceengine/backend/lwjgl/glfw/Window.java:1169-1172 | Returns the title field. |
| Windows.Window.SetTitle | backend-lwjgl/src/main/java/com/shc/silenceengine/backend/lwjgl/glfw/Window.java:1179-1184 | Afterwards getTitle returns the new title; the monitor and callbacks are unchanged. |
| Windows.Window.GetMonitor | backend-lwjgl/src/main/java/com/shc/silenceengine/backend/lwjgl/glfw/Window.java:1154-1157 | Returns the monitor field. |
| Windows.Window.SetMonitor | backend-lwjgl/src/main/java/com/shc/silenceengine/backend/lwjgl/glfw/Window.java:776-778 | Afterwards getMonitor returns the monitor passed; the title and callbacks are unchanged. |
| Monitors.Monitor.constructor | src/main/java/com/shc/silenceengine/core/glfw/Monitor.java:81-85 | Stores the handle and maps it to the new monitor in the registry. Any earlier monitor for the same handle is overwritten. |
| Monitors.Monitor.HashCode | src/main/java/com/shc/silenceengine/core/glfw/Monitor.java:345-348 | The low 32 bits of the handle XOR its high 32 bits. |
| Monitors.HashCodeOfHalves | src/main/java/com/shc/silenceengine/core/glfw/Monitor.java:345-348 | For a handle whose two's-complement pattern is hi·2^32 + lo, the hash code is hi XOR lo. |
| Monitors.Monitor.Equals | src/main/java/com/shc/silenceengine/core/glfw/Monitor.java:350-359 | A monitor equals itself, never equals null, equals only Monitors, and equals another Monitor exactly when the handles are equal. |
| Monitors.EqualsConsistentWithHashCode | src/main/java/com/shc/silenceengine/core/glfw/Monitor.java:345-359 | Two monitors are equal exactly when their handles are equal. Equal monitors have equal hash codes, and equality is symmetric. |
| Monitors.RegisterAllLastWins | src/main/java/com/shc/silenceengine/core/glfw/Monitor.java:84 | After a list of monitors is registered, each handle maps to the last monitor in the list with that handle. |
| Monitors.RegisterAllKeepsOthers | src/main/java/com/shc/silenceengine/core/glfw/Monitor.java:84 | Handles that are not in the list keep their earlier registration. |
| Monitors.MonitorRegistry.GetPrimaryMonitor | src/main/java/com/shc/silenceengine/core/glfw/Monitor.java:93-99 | Constructs and registers a Monitor for the native primary handle on the first call only. Later calls return that same instance and register nothing. |
| Monitors.MonitorRegistry.GetMonitors | src/main/java/com/shc/silenceengine/core/glfw/Monitor.java:136-151 | On the first call it builds one distinct new Monitor per native handle, in buffer order, registers them, and caches the list. Later calls return the cached list unchanged. |
| Monitors.MonitorRegistry.IsPrimary | src/main/java/com/shc/silenceengine/core/glfw/Monitor.java:387-390 | True exactly when the handle of element 0 of getMonitors() is this monitor's handle. For an empty list, get(0) throws and the result is None. |
| Audio.Guarded | silenceengine/src/main/java/com/shc/silenceengine/audio/openal/ALSource.java:73-80 | A disposed source throws with the call's message and issues nothing. Otherwise the call is issued once, and the call fails exactly when the error check throws. |
| Audio.Query | silenceengine/src/main/java/com/shc/silenceengine/audio/openal/ALSource.java:242-248 | There is no disposed guard: the query is always issued. The reply is returned unless the error check throws. |
| Audio.Disposal | silenceengine/src/main/java/com/shc/silenceengine/audio/openal/ALSource.java:255-264 | The source ends disposed exactly when it already was or the delete succeeded. The call succeeds exactly on a live source whose delete succeeded. A disposed source is left unchanged. A live source issues exactly one alDeleteSources. |
| Audio.BoolToAL | silenceengine/src/main/java/com/shc/silenceengine/audio/openal/ALSource.java:91-94 | true maps to AL_TRUE and false to AL_FALSE, in both directions. |
| Audio.BufferValue | silenceengine/src/main/java/com/shc/silenceengine/audio/openal/ALSource.java:59-62 | 0 for a null buffer, otherwise the buffer's id. |
| Audio.Classify | silenceengine/src/main/java/com/shc/silenceengine/audio/openal/ALSource.java:215-227 | LOOPING exactly for PLAYING with looping AL_TRUE. PLAYING for PLAYING otherwise. PAUSED exactly for PAUSED. STOPPED exactly for any other state. |
| Audio.ApplyExtendsLog | silenceengine/src/main/java/com/shc/silenceengine/audio/openal/ALSource.java:73-264 | One operation appends at most one call and never clears the disposed flag. |
| Audio.RunExtendsLog | silenceengine/src/main/java/com/shc/silenceengine/audio/openal/ALSource.java:73-264 | Along any sequence of operations, calls are only appended and a disposed source stays disposed. |
| Audio.DisposedIssuesOnlyQueries | silenceengine/src/main/java/com/shc/silenceengine/audio/openal/ALSource.java:73-202 | After disposal, every operation except getParameter throws before reaching OpenAL. So the only calls still issued are alGetSourcei queries. |
| Audio.DisposedOnlyAfterDelete | silenceengine/src/main/java/com/shc/silenceengine/audio/openal/ALSource.java:255-264 | A source that becomes disposed issued alDeleteSources for its id along the way. |
| Audio.DisposeSucceedsOnce | silenceengine/src/main/java/com/shc/silenceengine/audio/openal/ALSource.java:255-258 | After a successful dispose, a second dispose throws and changes nothing. |
| Audio.ALSource.constructor | silenceengine/src/main/java/com/shc/silenceengine/audio/openal/ALSource.java:47-50 | A new source has the generated id, is not disposed and has issued nothing. |
| Audio.ALSource.IsDisposed | silenceengine/src/main/java/com/shc/silenceengine/audio/openal/ALSource.java:277-280 | Returns the disposed flag. |
| Audio.ALSource.GetId | silenceengine/src/main/java/com/shc/silenceengine/audio/openal/ALSource.java:269-272 | Returns the id. |
| Audio.ALSource.Perform | silenceengine/src/main/java/com/shc/silenceengine/audio/openal/ALSource.java:73-80 | The guard shared by every setter and playback call: a disposed source fails with the call's message and issues nothing; otherwise the call is issued, and the result fails exactly when the AL check fails. The new state is that of `Guarded`. |
| Audio.ALSource.SetParameterInt | silenceengine/src/main/java/com/shc/silenceengine/audio/openal/ALSource.java:73-80 | Has the effect and outcome of `Guarded` for alSourcei, with the message "ALSource is already disposed". |
| Audio.ALSource.SetParameterBool | silenceengine/src/main/java/com/shc/silenceengine/audio/openal/ALSource.java:91-94 | setParameter(int, int) with AL_TRUE or AL_FALSE. |
| Audio.ALSource.AttachBuffer | silenceengine/src/main/java/com/shc/silenceengine/audio/openal/ALSource.java:59-62 | setParameter(AL_BUFFER, 0 for null, otherwise the buffer id). |
| Audio.ALSource.SetParameterFloat | silenceengine/src/main/java/com/shc/silenceengine/audio/openal/ALSource.java:105-112 | The effect and outcome of `Guarded` for alSourcef. |
| Audio.ALSource.SetParameter3 | silenceengine/src/main/java/com/shc/silenceengine/audio/openal/ALSource.java:139-146 | The effect and outcome of `Guarded` for alSource3f. |
| Audio.ALSource.SetParameterVector | silenceengine/src/main/java/com/shc/silenceengine/audio/openal/ALSource.java:123-126 | setParameter with the vector's three components. |
| Audio.ALSource.Play | silenceengine/src/main/java/com/shc/silenceengine/audio/openal/ALSource.java:153-160 | `Guarded` for alSourcePlay, with "Cannot play a disposed ALSource". |
| Audio.ALSource.Pause | silenceengine/src/main/java/com/shc/silenceengine/audio/openal/ALSource.java:167-174 | `Guarded` for alSourcePause, with "Cannot pause a disposed ALSource". |
| Audio.ALSource.Stop | silenceengine/src/main/java/com/shc/silenceengine/audio/openal/ALSource.java:181-188 | `Guarded` for alSourceStop, with "Cannot stop a disposed ALSource". |
| Audio.ALSource.Rewind | silenceengine/src/main/java/com/shc/silenceengine/audio/openal/ALSource.java:195-202 | `Guarded` for alSourceRewind, with "Cannot rewind a disposed ALSource". |
| Audio.ALSource.GetParameter | silenceengine/src/main/java/com/shc/silenceengine/audio/openal/ALSource.java:242-248 | The effect and result of `Query`, issued even on a disposed source. |
| Audio.ALSource.GetState | silenceengine/src/main/java/com/shc/silenceengine/audio/openal/ALSource.java:211-228 | Queries AL_SOURCE_STATE, and AL_LOOPING only when the source is playing. Returns `Classify` of the replies, or the first error-check failure. The disposed flag is unchanged. |
| Audio.ALSource.Dispose | silenceengine/src/main/java/com/shc/silenceengine/audio/openal/ALSource.java:255-264 | The effect and outcome of `Disposal`. The flag is set only after the delete and its error check succeed. |
| Scene.WorldFrameSnoc | silenceengine/src/main/java/com/shc/silenceengine/scene/components/CollisionComponent2D.java:80-89 | One more ancestor lifts the previous world transform once more, by that ancestor's rotation, scale and position. |
| Scene.WorldRotationAndScale | silenceengine/src/main/java/com/shc/silenceengine/scene/components/CollisionComponent2D.java:74-85 | The final rotation is the entity's rotation plus the sum of the ancestors' rotations. The final scale is the entity's scale times every ancestor's scale, componentwise. Neither depends on positions or on the rotation function. |
| Scene.CollisionComponent2D.constructor | silenceengine/src/main/java/com/shc/silenceengine/scene/components/CollisionComponent2D.java:46-50 | Stores the polygon; there is no entity yet. |
| Scene.CollisionComponent2D.Init | silenceengine/src/main/java/com/shc/silenceengine/scene/components/CollisionComponent2D.java:60-63 | Stores the entity. |
| Scene.CollisionComponent2D.Update | silenceengine/src/main/java/com/shc/silenceengine/scene/components/CollisionComponent2D.java:66-97 | An untransformed entity leaves the polygon untouched. Otherwise the loop visits each ancestor once, nearest first, and stops at the root. The polygon receives the world frame: the position rotated and offset by each parent in turn, and the rotation and scale as `WorldRotationAndScale` states. The pool is balanced. |
| Render.EmitShape | src/main/java/com/shc/silenceengine/utils/RenderUtils.java:46-54 | Emitting n vertex calls gives 2n calls: vertex i at 2i and the color at 2i + 1. |
| Render.PolygonBodyShape | src/main/java/com/shc/silenceengine/utils/RenderUtils.java:44-55 | tracePolygon and fillPolygon emit one vertex per polygon vertex, in order. Each equals vertex + polygon.position + position and is followed by one color call. There is no begin or end inside. |
| Render.StripCorner | src/main/java/com/shc/silenceengine/utils/RenderUtils.java:99-114 | In the strip index sequence, corner j of triangle t sits at 3t + j. |
| Render.TriangleCorners | src/main/java/com/shc/silenceengine/utils/RenderUtils.java:101-114 | Triangle t has three corners, each between t and t + 2. |
| Render.TraceOrder | src/main/java/com/shc/silenceengine/utils/RenderUtils.java:99-114 | The corner order has 3·max(0, n − 2) entries. Entry 3t + j is corner j of triangle t: (t, t+1, t+2) for odd t and (t, t+2, t+1) for even t. Every entry is a valid vertex index. |
| Render.TraceBodyAt | src/main/java/com/shc/silenceengine/utils/RenderUtils.java:117-128 | Call 6t + 2j of the traced body is corner j of triangle t, offset by polyhedron.position + position. Call 6t + 2j + 1 is the color. |
| Render.TracePolyhedronBodyShape | src/main/java/com/shc/silenceengine/utils/RenderUtils.java:92-132 | tracePolyhedron emits 3(n − 2) vertices, each followed by a color, when n ≥ 3, and nothing otherwise. Its calls are triangle by triangle in strip order, with no begin or end inside. |
| Render.TraceStep | src/main/java/com/shc/silenceengine/utils/RenderUtils.java:99-129 | One iteration appends the three offset corners of triangle v, each followed by the color. |
| Render.FillPolyhedronBodyShape | src/main/java/com/shc/silenceengine/utils/RenderUtils.java:145-156 | fillPolyhedron emits every strip vertex once, in order. Each is offset by polyhedron.position + position and followed by the color. |
| Render.DrawKeepsBalanced | src/main/java/com/shc/silenceengine/utils/RenderUtils.java:46-54 | A begin, then calls without begin or end, then an end, keeps a balanced log balanced: every begin is paired with exactly one end. |
| Render.DrawPolygon | src/main/java/com/shc/silenceengine/utils/RenderUtils.java:44-55 | The loop tracePolygon and fillPolygon share: begin(primitive), then each polygon vertex in order, offset by the polygon's and the given position and followed by the color, then end. |
| Render.TracePolygonAt | src/main/java/com/shc/silenceengine/utils/RenderUtils.java:44-55 | Appends begin(LINE_LOOP), the polygon body, then end. |
| Render.FillPolygonAt | src/main/java/com/shc/silenceengine/utils/RenderUtils.java:67-78 | Appends begin(TRIANGLE_FAN), the polygon body, then end. |
| Render.TracePolyhedronAt | src/main/java/com/shc/silenceengine/utils/RenderUtils.java:90-133 | Appends begin(LINE_STRIP), the traced body, then end. The loop emits triangles in order, each through the odd/even corner choice. |
| Render.TriangleCornersAt | src/main/java/com/shc/silenceengine/utils/RenderUtils.java:101-119 | The three corners of strip triangle v, in the odd/even order, offset by polyhedron.position + position. |
| Render.DrawTriangle | src/main/java/com/shc/silenceengine/utils/RenderUtils.java:122-129 | Appends the three vertices, each followed by the color. |
| Render.FillPolyhedronAt | src/main/java/com/shc/silenceengine/utils/RenderUtils.java:145-156 | Appends begin(TRIANGLE_STRIP), the filled body, then end. |
| Render.TracePolygonColored | src/main/java/com/shc/silenceengine/utils/RenderUtils.java:39-42 | tracePolygon at ZERO. |
| Render.TracePolygon | src/main/java/com/shc/silenceengine/utils/RenderUtils.java:34-37 | tracePolygon at ZERO in WHITE. |
| Render.FillPolygonColored | src/main/java/com/shc/silenceengine/utils/RenderUtils.java:62-65 | fillPolygon at ZERO. |
| Render.FillPolygon | src/main/java/com/shc/silenceengine/utils/RenderUtils.java:57-60 | fillPolygon at ZERO in WHITE. |
| Render.TracePolyhedronColored | src/main/java/com/shc/silenceengine/utils/RenderUtils.java:85-88 | tracePolyhedron at ZERO. |
| Render.TracePolyhedron | src/main/java/com/shc/silenceengine/utils/RenderUtils.java:80-83 | tracePolyhedron at ZERO in WHITE. |
| Render.FillPolyhedronColored | src/main/java/com/shc/silenceengine/utils/RenderUtils.java:140-143 | fillPolyhedron at ZERO. |
| Render.FillPolyhedron | src/main/java/com/shc/silenceengine/utils/RenderUtils.java:135-138 | fillPolyhedron at ZERO in WHITE. |

## Left out

- Native GLFW calls in Window are foreign I/O. Their results (window position and size, monitor virtual positions and video modes, the native handle) are inputs.
  - This covers window creation, the native callback lambdas, cursor and input modes, `makeCurrent`/`GLCapabilities` and the clipboard.
  - It also covers `setIcon`, which converts pixels and loads images asynchronously.
  - `glfwSetWindowTitle` and `glfwSetWindowMonitor` are not modelled; `setTitle` and `setMonitor` only update the fields.
  - The video-mode handling in `setMonitor(Monitor, VideoMode)` is not modelled.
- `registeredWindows` in Window is not modelled. `Window.Create` returns the new window instead.
- `Window.setFramebufferSize` is not modelled: it is float division and scaling.
- Windows.Score: computed over mathematical integers. The source's 32-bit `int` product at Window.java:1717 can wrap for very large rectangles; the model does not capture that wrap-around.
- Windows.Window.constructor: requires a non-null native handle. The null case, which throws "Cannot create window", is modelled by `Windows.Window.Create`.
- Windows.GetCurrentMonitor: windows and monitors are integer rectangles. The `(int)` casts of float positions and sizes are not modelled.
- The following parts of Monitor are native buffer marshalling or library calls, and are not modelled:
  - the gamma ramp, video modes, physical size, virtual position, `getName` and `getHandle`;
  - `Monitor.setCallback` and its registration with GLFW.
- `Monitors.Monitor.Equals` compares via `o is Monitor`. Java's `getClass() != o.getClass()` is the same test because Monitor has no subclasses here.
- OpenAL library calls and `ALError.check` are modelled only as log entries and boolean outcomes. Only the guard and state logic is modelled.
- Audio.ALSource.constructor: the id that `alGenSources` returns (ALSource.java:49) is the parameter `generated`, and that call is not logged, so a new source's `issued` log is empty. The `ALException.OutOfMemory` that the constructor's documentation (ALSource.java:45) says may be thrown when no memory is available is not modelled: the constructor always succeeds.
- `AndroidRuntime` (platform bootstrapping) is not modelled. Neither is `Geom3DTest`, an interactive demo. There is no 3D SAT, since Collision3D is not part of this model.
- `Vector2`, `Polygon`, `Batcher`, `Color` and `REUSABLE_STACK` are not part of this model.
  - Vectors are pairs of reals and the pool is a balance counter.
  - The Batcher is an append-only log of calls.
  - Aliasing of RenderUtils' static scratch vectors is not modelled. Neither is aliasing of the pooled vectors in Collision2D and CollisionComponent2D.
- `Vector2.normalizeSelf` and `Vector2.rotate` are function parameters. The model proves nothing that depends on unit length or trigonometry.
- `Geometry.Perp`: the perpendicular is taken as (−y, x), since Vector2 is not part of this model. `Collision2D.SeparatesNegatedAxis` shows that an axis and its negation separate alike. `Collision2D.CollideVerdictPerpSign` proves the collision verdict of `Collide` the same for either sign, provided normalize commutes with negation, as normalizeSelf does; for an arbitrary normalize parameter it need not be. The overlap, overlapN, the MTV and the containment flags are not: through the line-91 branch the signed overlap of an axis and of its negation differ (on intervals [1, 3] against [0, 2] it is 3, on the mirrored [−3, −1] against [−2, 0] it is 1), and when A.min < B.min with A.max == B.max, `bInA` survives on the axis but is cleared on its negation. These outputs hold for (−y, x) only.
- IEEE float rounding is not modelled. Coordinates are exact reals, and `Float.MAX_VALUE` is an exact real sentinel.
- Thread safety of the shared `tmpResponse` is not modelled: use is single-threaded.
- The `CollisionTag`, the `CollisionCallback`, `render`, `dispose` and the component id of CollisionComponent2D are not modelled. A null polygon is not modelled either, nor a null entity: `update` before `init` throws a NullPointerException at CollisionComponent2D.java:68, and `Scene.CollisionComponent2D.Update` requires an entity.
- Scene.CollisionComponent2D.Update: `Vector2.scale`, `Vector2.rotate` and `Vector2.add` (CollisionComponent2D.java:84-85) are taken to change their receiver, so `tScale` and `tPosition` accumulate over the ancestors. Vector2 is not part of this model; if those calls returned new vectors instead, their results would be discarded, the polygon would get the entity's own position and scale, and only the rotation would accumulate.
- Scene.CollisionComponent2D.Update: the caller supplies the ancestor chain as a ghost sequence. So a cyclic parent chain, which would make the source loop forever, is excluded by the precondition.
- `Collision2D.getResponse` and `Response.toString` are not modelled.
