# 3dmap viewer: shape and mesh conversion

This project models the conversion core of the 3dmap browser viewer (`js/main.js`). The viewer fetches two WKB geometry collections for a bounding box, one for buildings and one for streets. It turns each polygon into a three.js outline with holes and makes meshes from those outlines. Building polygons are extruded. Street polygons, and every constituent of a street multi-polygon, are laid flat. Every mesh gets the same fixed rotation and offset.

The model starts from the already decoded geometry tree:

- `Geometries`: points, rings, polygons, and the `Geometry` tree. Its variants are `Polygon`, `MultiPolygon`, `GeometryCollection` and `Other`.
- `Outline`: the shape builder (`shapeFromPoly`). A three.js `Shape`/`Path` is modelled as the sequence of `moveTo`/`lineTo` calls made on it, plus the list of hole paths. The first point of a ring is recognised by its position (object identity with `ring[0]`), not by its value. So the closing point of a WKB ring, which equals the first point by value, is still drawn with `lineTo`. `PolyOf` reads a polygon back from an outline and is the inverse of `ShapeOf`. `ValueRingPath` is the value-equality reading, kept only to contrast with `RingPath`.
- `Meshes`: `extrude` and `flat`. A mesh is its geometry call (extrusion with settings, or flat shape), its material and its placement. Rotations are counted in quarter turns, so (π/2, π, 0) is `Rotation(1, 2, 0)`. The position is `Position(1600, 0, -800)`.
- `Loader`: the per-member loops of the buildings and streets branches in `run`, in two forms. `LayerMeshes`/`Skipped` are functional flat-maps; `AddBuildings`/`AddStreets` are loops that mirror the source. It also covers the handling of a failed branch (`LoadLayer`) and the joined load (`Run`), which requests one frame once both branches have settled.

## Model

| member | source | states |
|---|---|---|
| `Outline.RingPath` | js/main.js:54-60 | A ring's path starts with exactly one `moveTo`, followed only by `lineTo`s. The path visits the ring's points in ring order, so the command count equals the ring length. The empty ring gives the empty path. |
| `Outline.TraceRing` | js/main.js:54-60 | The source's loop, testing "first" by position: exactly one leading `moveTo`, one command per point, each carrying that point. |
| `Outline.RingPathRoundTrip` | js/main.js:54-60 | Reading the drawn path back gives the ring unchanged, for rings of any length. No points are dropped, added or reordered. |
| `Outline.RingOfInverse` | js/main.js:54-60 | Every path made of one leading `moveTo` and then `lineTo`s is the path drawn for the ring read back from it. |
| `Outline.ValueAgreesIff` | js/main.js:55-56 | The position test and a value-equality test give the same path if and only if the first point never reappears later in the ring. |
| `Outline.ClosedRingClosingPoint` | js/main.js:54-58 | On a closed ring, the closing point is drawn with `lineTo`. A value test would have drawn it with a second `moveTo`. |
| `Outline.HolePaths` | js/main.js:63-73 | There is exactly one hole per interior ring, in interior-ring order. Each hole reads back as its ring. |
| `Outline.ShapeOf` | js/main.js:50-76 | The outer path reads back as the exterior ring. There is one hole per interior ring, and each reads back as its ring. |
| `Outline.ShapeRoundTrip` | js/main.js:50-76 | The polygon can be read back from its outline, so the conversion loses nothing and validates nothing. |
| `Outline.PolyOfInverse` | js/main.js:50-76 | Every well-formed outline is the outline of the polygon read back from it. |
| `Outline.ShapeOfInjective` | js/main.js:50-76 | Distinct polygons give distinct outlines. |
| `Outline.ShapeFromPoly` | js/main.js:50-76 | The source's two loops build an outline from which exactly the input polygon is read back. |
| `Meshes.Extrude` | js/main.js:79-89 | The mesh is an extrusion of the given shape with the given settings and material. It gets the fixed rotation (π/2, π, 0) and position (1600, 0, -800). |
| `Meshes.Flat` | js/main.js:92-102 | The mesh is a flat (not extruded) shape geometry of the given shape and material, with the same fixed rotation and position. |
| `Meshes.PlacementIndependentOfInput` | js/main.js:85-99 | Extruded and flat meshes get the same placement, independent of shape, settings and material. |
| `Loader.Accepts` | js/main.js:148-173 | Polygons are converted by both layers. Only polygons and multi-polygons are ever converted. A multi-polygon is converted by the streets layer and skipped by the buildings layer. |
| `Loader.LayerMesh` | js/main.js:154-187 | A polygon's mesh is of its layer's kind, with the layer's material and settings and the shared placement. Its outline reads back as exactly that polygon. |
| `Loader.StreetMeshes` | js/main.js:185-190 | A multi-polygon gives one flat street mesh per constituent polygon, in constituent order. |
| `Loader.MemberMeshes` | js/main.js:148-191 | A member the layer does not accept contributes nothing, and a polygon contributes one mesh. For streets, a multi-polygon contributes one flat mesh per constituent polygon, in order. Every mesh is of the layer's kind. |
| `Loader.LayerMeshes` | js/main.js:148-191 | Every building mesh is extruded with depth 15, steps 1 and no bevel, using the buildings material. Every street mesh is flat, using the streets material. All meshes share the fixed placement. |
| `Loader.Skipped` | js/main.js:148-173 | The skip log holds only members of the collection that the layer does not accept. |
| `Loader.LayerMeshesAppend` | js/main.js:148-191 | The meshes of a concatenated collection are the concatenation of the meshes of its parts. This is the in-order, member-by-member flat-map. |
| `Loader.SkippedAppend` | js/main.js:148-173 | The skip log of a concatenated collection is the concatenation of the parts' logs. |
| `Loader.SkippedIff` | js/main.js:148-173 | A member is logged as skipped if and only if the layer does not accept it. |
| `Loader.BuildingAt` | js/main.js:148-158 | A polygon member yields exactly one extruded mesh, placed right after the meshes of the earlier members. Any other member adds nothing. |
| `Loader.StreetAt` | js/main.js:169-191 | A polygon member yields one flat mesh. A multi-polygon member yields one flat mesh per constituent, in order, right after the earlier meshes. Any other member adds nothing. |
| `Loader.BuildingCount` | js/main.js:148-158 | The number of building meshes equals the number of Polygon members, and meshes plus skips equal the number of members. |
| `Loader.StreetCount` | js/main.js:169-191 | The number of street meshes equals the number of Polygon members plus the sum of the multi-polygons' part counts. |
| `Loader.AddBuildings` | js/main.js:148-158 | The source's buildings loop adds exactly the building meshes and logs exactly the skipped members. |
| `Loader.AddMultiPolygon` | js/main.js:184-191 | The inner streets loop makes one flat mesh per constituent polygon, in order. |
| `Loader.StreetMember` | js/main.js:170-191 | One iteration of the streets loop adds exactly the member's meshes. |
| `Loader.AddStreets` | js/main.js:169-193 | The source's streets loop adds exactly the street meshes and logs exactly the skipped members. |
| `Loader.LoadLayer` | js/main.js:142-195 | A branch fails, and the failure is caught and logged, exactly when the fetch or decode failed or the decoded value is not a collection. A failed or still-pending branch has added no mesh and no skip entry. A decoded collection adds exactly the layer's meshes for its members and logs exactly the skipped members. |
| `Loader.Run` | js/main.js:138-199 | The scene holds one branch's meshes as a contiguous block followed by the other's, so it holds exactly the meshes of both branches in any settling order. The load requests one frame once both branches have settled, whether or not they failed. The load itself requests no frame while either fetch is pending. Every mesh lies in the shared display frame. |
| `Loader.FailedBuildingsLeaveStreets` | js/main.js:142-199 | If the buildings branch fails, the scene holds exactly the street meshes. The frame is still rendered once the streets branch has settled. |
| `Loader.BuildingsExample` | js/main.js:148-158 | The collection {Polygon, Point, Polygon} yields two extruded meshes in order and one skip. |
| `Loader.StreetsExample` | js/main.js:169-193 | One three-part multi-polygon plus one polygon yields four flat meshes. |

`shapeFromPoly` accepts rings of any length, and an empty ring gives an empty path (js/main.js:54-60).

## Left out

- WKB decoding (the `wkx` parser) and the network fetches: `LoadLayer` takes the state of each branch as input. That state is the decoded tree, `Failed`, or `Pending`.
- Triangulation and extrusion inside three.js (`ExtrudeBufferGeometry`, `ShapeBufferGeometry`): only the call and its arguments are modelled.
- Scene setup, lights, fog, background, camera and renderer: these are constant engine configuration, not logic.
- Orbit-control changes (js/main.js:30) request a frame at any time, including in the middle of a load, and can render a half-loaded scene. These user-driven renders are not modelled. `Run` counts only the frame the load itself requests.
- The window-resize handler and its `this`-binding defect: this is DOM event wiring.
- Promise scheduling and `requestAnimationFrame`: the order in which the two branches settle is the `buildingsFirst` parameter of `Run`, and the deferred frame is the `renders` count.
- Stale responses from an earlier load appending to a newer scene: this needs a model of overlapping loads and event-loop interleaving. `Run` models one load in isolation.
- Request URL formatting (`/buildings/x1/y1/x2/y2`): this depends on JavaScript's number-to-string conversion.
- Coordinates beyond x and y: the viewer reads only `point.x` and `point.y`, so `Point` has just those two fields.
- `Loader.LoadLayer`: an exception thrown by three.js partway through a loop, which would keep the meshes already added, is not modelled. Branch failure is all or nothing.
- The server (`server/server.py`): database queries, shapely buffering, union and intersection, pyproj projection and WKB serialisation. None of these is local logic that could be modelled.
