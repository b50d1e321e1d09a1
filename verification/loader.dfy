/**
 The data loader's conversion step: each fetch branch walks the members of
 the decoded geometry collection in order, converts the members its layer
 accepts into meshes and skips (with a log line) every other member.
 Fetching, decoding and promise scheduling are inputs here.
 */
module Loader {
  import opened Options
  import opened Geometries
  import opened Outline
  import opened Meshes

  /** The two fetch branches. */
  datatype Layer = Buildings | Streets

  /** Whether the layer converts a member rather than skipping it: buildings
      take only polygons, streets take polygons and multi-polygons. */
  function Accepts(layer: Layer, g: Geometry): (accepted: bool)
    ensures g.Polygon? ==> accepted
    ensures accepted ==> g.Polygon? || g.MultiPolygon?
    ensures g.MultiPolygon? ==> (accepted <==> layer == Streets)
  {
    match layer
    case Buildings => g.Polygon?
    case Streets => g.Polygon? || g.MultiPolygon?
  }

  /** The mesh the layer makes of one polygon. */
  function LayerMesh(layer: Layer, poly: Poly): (mesh: Mesh)
    ensures IsLayerMesh(layer, mesh)
    ensures PolyOf(mesh.geometry.shape) == Some(poly)
  {
    ShapeRoundTrip(poly);
    match layer
    case Buildings => Extrude(ShapeOf(poly), BuildingSettings, BuildingsMaterial)
    case Streets => Flat(ShapeOf(poly), StreetsMaterial)
  }

  /** The kind of mesh a layer makes: buildings are always extruded with
      depth 15, one step and no bevel; streets are always flat. Both use the
      layer's material and the shared placement. */
  predicate IsLayerMesh(layer: Layer, mesh: Mesh)
  {
    && InDisplayPlane(mesh)
    && match layer
       case Buildings =>
         mesh.geometry.ExtrudeGeometry? && mesh.geometry.settings == BuildingSettings
         && mesh.material == BuildingsMaterial
       case Streets =>
         mesh.geometry.ShapeGeometry? && mesh.material == StreetsMaterial
  }

  /** A flat street mesh for each constituent polygon, in order. */
  function StreetMeshes(ps: seq<Poly>): (meshes: seq<Mesh>)
    ensures |meshes| == |ps|
    ensures forall k :: 0 <= k < |ps| ==> meshes[k] == LayerMesh(Streets, ps[k])
  {
    if ps == [] then [] else [LayerMesh(Streets, ps[0])] + StreetMeshes(ps[1..])
  }

  /** The meshes one collection member contributes. */
  function MemberMeshes(layer: Layer, g: Geometry): (meshes: seq<Mesh>)
    ensures !Accepts(layer, g) ==> meshes == []
    ensures g.Polygon? ==> meshes == [LayerMesh(layer, g.poly)]
    ensures layer == Streets && g.MultiPolygon? ==>
              |meshes| == |g.polygons|
              && forall k :: 0 <= k < |g.polygons| ==> meshes[k] == LayerMesh(Streets, g.polygons[k])
    ensures forall m :: m in meshes ==> IsLayerMesh(layer, m)
  {
    match g
    case Polygon(poly) => [LayerMesh(layer, poly)]
    case MultiPolygon(ps) => if layer == Streets then StreetMeshes(ps) else []
    case _ => []
  }

  /** The meshes a layer adds for a collection's members, in member order. */
  function LayerMeshes(layer: Layer, members: seq<Geometry>): (meshes: seq<Mesh>)
    ensures forall m :: m in meshes ==> IsLayerMesh(layer, m)
  {
    if members == [] then []
    else MemberMeshes(layer, members[0]) + LayerMeshes(layer, members[1..])
  }

  /** The members a layer skips (and logs), in member order. */
  function Skipped(layer: Layer, members: seq<Geometry>): (skipped: seq<Geometry>)
    ensures |skipped| <= |members|
    ensures forall g :: g in skipped ==> g in members && !Accepts(layer, g)
  {
    if members == [] then []
    else if Accepts(layer, members[0]) then Skipped(layer, members[1..])
    else [members[0]] + Skipped(layer, members[1..])
  }

  /** Processing a collection in two parts gives the concatenation: the
      loop is a left-to-right flat-map. */
  lemma {:induction false} LayerMeshesAppend(layer: Layer, a: seq<Geometry>, b: seq<Geometry>)
    ensures LayerMeshes(layer, a + b) == LayerMeshes(layer, a) + LayerMeshes(layer, b)
  {
    if a == [] {
      assert a + b == b;
    } else {
      assert (a + b)[1..] == a[1..] + b;
      LayerMeshesAppend(layer, a[1..], b);
    }
  }

  lemma {:induction false} SkippedAppend(layer: Layer, a: seq<Geometry>, b: seq<Geometry>)
    ensures Skipped(layer, a + b) == Skipped(layer, a) + Skipped(layer, b)
  {
    if a == [] {
      assert a + b == b;
    } else {
      assert (a + b)[1..] == a[1..] + b;
      SkippedAppend(layer, a[1..], b);
    }
  }

  /** A member is logged as skipped exactly when the layer does not accept it. */
  lemma {:induction false} SkippedIff(layer: Layer, members: seq<Geometry>, g: Geometry)
    requires g in members
    ensures g in Skipped(layer, members) <==> !Accepts(layer, g)
  {
    if members[0] != g {
      SkippedIff(layer, members[1..], g);
    }
  }

  lemma OneMember(layer: Layer, g: Geometry)
    ensures LayerMeshes(layer, [g]) == MemberMeshes(layer, g)
    ensures Skipped(layer, [g]) == if Accepts(layer, g) then [] else [g]
  {
    assert [g][1..] == [];
  }

  /** One more iteration of a layer's loop. */
  lemma Step(layer: Layer, members: seq<Geometry>, i: nat)
    requires i < |members|
    ensures LayerMeshes(layer, members[..i + 1]) == LayerMeshes(layer, members[..i]) + MemberMeshes(layer, members[i])
    ensures Skipped(layer, members[..i + 1])
            == Skipped(layer, members[..i]) + if Accepts(layer, members[i]) then [] else [members[i]]
  {
    assert members[..i + 1] == members[..i] + [members[i]];
    LayerMeshesAppend(layer, members[..i], [members[i]]);
    SkippedAppend(layer, members[..i], [members[i]]);
    OneMember(layer, members[i]);
  }

  /** Buildings: the polygon at member `i` yields one extruded mesh, placed
      right after the meshes of the members before it; any other member
      adds nothing. */
  lemma BuildingAt(members: seq<Geometry>, i: nat)
    requires i < |members|
    ensures var before := LayerMeshes(Buildings, members[..i]);
            var after := LayerMeshes(Buildings, members[..i + 1]);
            if members[i].Polygon? then
              after == before + [LayerMesh(Buildings, members[i].poly)]
            else
              after == before
  {
    Step(Buildings, members, i);
  }

  /** Streets: member `i` yields one flat mesh if it is a polygon, one flat
      mesh per constituent polygon in order if it is a multi-polygon, and
      nothing otherwise. */
  lemma StreetAt(members: seq<Geometry>, i: nat)
    requires i < |members|
    ensures var before := LayerMeshes(Streets, members[..i]);
            var after := LayerMeshes(Streets, members[..i + 1]);
            && (members[i].Polygon? ==> after == before + [LayerMesh(Streets, members[i].poly)])
            && (members[i].MultiPolygon? ==> after == before + StreetMeshes(members[i].polygons))
            && (!Accepts(Streets, members[i]) ==> after == before)
  {
    Step(Streets, members, i);
  }

  /** The number of polygon members. */
  function PolygonCount(members: seq<Geometry>): (n: nat)
  {
    if members == [] then 0
    else (if members[0].Polygon? then 1 else 0) + PolygonCount(members[1..])
  }

  /** The total number of constituent polygons of the multi-polygon members. */
  function ConstituentCount(members: seq<Geometry>): (n: nat)
  {
    if members == [] then 0
    else (if members[0].MultiPolygon? then |members[0].polygons| else 0) + ConstituentCount(members[1..])
  }

  /** Exactly one building per polygon member; every other member is skipped. */
  lemma {:induction false} BuildingCount(members: seq<Geometry>)
    ensures |LayerMeshes(Buildings, members)| == PolygonCount(members)
    ensures |LayerMeshes(Buildings, members)| + |Skipped(Buildings, members)| == |members|
  {
    if members != [] {
      BuildingCount(members[1..]);
    }
  }

  /** One street per polygon member plus one per constituent polygon of each
      multi-polygon member. */
  lemma {:induction false} StreetCount(members: seq<Geometry>)
    ensures |LayerMeshes(Streets, members)| == PolygonCount(members) + ConstituentCount(members)
  {
    if members != [] {
      StreetCount(members[1..]);
    }
  }

  /** The buildings loop: skips and logs non-polygons, extrudes every polygon. */
  method AddBuildings(members: seq<Geometry>) returns (added: seq<Mesh>, skipped: seq<Geometry>)
    ensures added == LayerMeshes(Buildings, members)
    ensures skipped == Skipped(Buildings, members)
  {
    added, skipped := [], [];
    var i := 0;
    while i < |members|
      invariant 0 <= i <= |members|
      invariant added == LayerMeshes(Buildings, members[..i])
      invariant skipped == Skipped(Buildings, members[..i])
    {
      var obj := members[i];
      Step(Buildings, members, i);
      if !obj.Polygon? {
        skipped := skipped + [obj];
      } else {
        var shape := ShapeFromPoly(obj.poly);
        PolyOfInverse(shape, obj.poly);
        added := added + [Extrude(shape, BuildingSettings, BuildingsMaterial)];
      }
      i := i + 1;
    }
    assert members[..i] == members;
  }

  /** The inner streets loop: one flat mesh per constituent polygon. */
  method AddMultiPolygon(ps: seq<Poly>) returns (added: seq<Mesh>)
    ensures |added| == |ps|
    ensures forall k :: 0 <= k < |ps| ==> added[k] == LayerMesh(Streets, ps[k])
  {
    added := [];
    var j := 0;
    while j < |ps|
      invariant 0 <= j <= |ps|
      invariant |added| == j
      invariant forall k :: 0 <= k < j ==> added[k] == LayerMesh(Streets, ps[k])
    {
      var shape := ShapeFromPoly(ps[j]);
      PolyOfInverse(shape, ps[j]);
      added := added + [Flat(shape, StreetsMaterial)];
      j := j + 1;
    }
  }

  /** The body of the streets loop for one member. */
  method StreetMember(obj: Geometry) returns (added: seq<Mesh>)
    ensures added == MemberMeshes(Streets, obj)
  {
    if !obj.Polygon? && !obj.MultiPolygon? {
      added := [];
    } else if obj.Polygon? {
      var shape := ShapeFromPoly(obj.poly);
      PolyOfInverse(shape, obj.poly);
      added := [Flat(shape, StreetsMaterial)];
    } else {
      added := AddMultiPolygon(obj.polygons);
    }
  }

  /** The streets loop: flattens polygons, flattens each constituent of a
      multi-polygon, skips and logs everything else. */
  method AddStreets(members: seq<Geometry>) returns (added: seq<Mesh>, skipped: seq<Geometry>)
    ensures added == LayerMeshes(Streets, members)
    ensures skipped == Skipped(Streets, members)
  {
    added, skipped := [], [];
    var i := 0;
    while i < |members|
      invariant 0 <= i <= |members|
      invariant added == LayerMeshes(Streets, members[..i])
      invariant skipped == Skipped(Streets, members[..i])
    {
      var obj := members[i];
      Step(Streets, members, i);
      if !Accepts(Streets, obj) {
        skipped := skipped + [obj];
      }
      var meshes := StreetMember(obj);
      added := added + meshes;
      i := i + 1;
    }
    assert members[..i] == members;
  }

  /** What one fetch branch contributes. `failed` records the error that is
      caught and logged: a failed fetch or decode, or a decoded value that is
      not a collection (it has no member list, so the loop throws before
      adding anything). */
  datatype BranchResult = BranchResult(meshes: seq<Mesh>, skipped: seq<Geometry>, failed: bool)

  /** The state of one fetch branch: still waiting for the server (a
      fetch has no timeout), failed (network error or undecodable body), or
      decoded to a geometry tree. */
  datatype Response = Pending | Failed | Decoded(geometry: Geometry)

  /** What one fetch branch has added to the scene. */
  function LoadLayer(layer: Layer, response: Response): (r: BranchResult)
    ensures r.failed <==> response.Failed? || (response.Decoded? && !response.geometry.GeometryCollection?)
    ensures r.failed || response.Pending? ==> r.meshes == [] && r.skipped == []
    ensures response.Decoded? && response.geometry.GeometryCollection? ==>
              && r.meshes == LayerMeshes(layer, response.geometry.geometries)
              && r.skipped == Skipped(layer, response.geometry.geometries)
    ensures forall m :: m in r.meshes ==> IsLayerMesh(layer, m)
  {
    match response
    case Decoded(GeometryCollection(members)) =>
      BranchResult(LayerMeshes(layer, members), Skipped(layer, members), false)
    case Decoded(_) => BranchResult([], [], true)
    case Failed => BranchResult([], [], true)
    case Pending => BranchResult([], [], false)
  }

  /** The scene during or after a load: the meshes added since the scene
      was reset, and the number of frames the load itself requests. */
  datatype Frame = Frame(meshes: seq<Mesh>, renders: nat)

  /** A whole load. The scene is recreated first, so nothing of an earlier
      load survives. Each settled branch adds all its meshes in one callback,
      so the scene holds one branch's meshes as a block followed by the
      other's; `buildingsFirst` says which branch settled first. The load
      requests one frame once both branches have settled, whether or not
      they failed; while either branch is pending, the load itself requests
      none. Frames requested by the camera controls are not counted. */
  function Run(buildings: Response, streets: Response, buildingsFirst: bool): (frame: Frame)
    ensures frame.renders == 1 <==> !buildings.Pending? && !streets.Pending?
    ensures frame.renders <= 1
    ensures var b := LoadLayer(Buildings, buildings).meshes;
            var s := LoadLayer(Streets, streets).meshes;
            frame.meshes == b + s || frame.meshes == s + b
    ensures multiset(frame.meshes)
            == multiset(LoadLayer(Buildings, buildings).meshes) + multiset(LoadLayer(Streets, streets).meshes)
    ensures forall m :: m in frame.meshes ==> InDisplayPlane(m)
  {
    var b := LoadLayer(Buildings, buildings).meshes;
    var s := LoadLayer(Streets, streets).meshes;
    Frame(if buildingsFirst then b + s else s + b,
          if buildings.Pending? || streets.Pending? then 0 else 1)
  }

  /** A failed buildings branch leaves exactly the street meshes, and the
      frame is still rendered once the streets branch has settled. */
  lemma FailedBuildingsLeaveStreets(streets: Response, buildingsFirst: bool)
    ensures Run(Failed, streets, buildingsFirst).meshes == LoadLayer(Streets, streets).meshes
    ensures !streets.Pending? ==> Run(Failed, streets, buildingsFirst).renders == 1
  {
  }

  /** A buildings collection {Polygon, Point, Polygon} yields two meshes and
      one skip. */
  lemma BuildingsExample(p: Poly, q: Poly)
    ensures var r := LoadLayer(Buildings, Decoded(GeometryCollection([Polygon(p), Other, Polygon(q)])));
            r.meshes == [LayerMesh(Buildings, p), LayerMesh(Buildings, q)] && r.skipped == [Other]
  {
    var ms := [Polygon(p), Other, Polygon(q)];
    assert ms == [Polygon(p)] + [Other] + [Polygon(q)];
    LayerMeshesAppend(Buildings, [Polygon(p)] + [Other], [Polygon(q)]);
    LayerMeshesAppend(Buildings, [Polygon(p)], [Other]);
    SkippedAppend(Buildings, [Polygon(p)] + [Other], [Polygon(q)]);
    SkippedAppend(Buildings, [Polygon(p)], [Other]);
    OneMember(Buildings, Polygon(p));
    OneMember(Buildings, Other);
    OneMember(Buildings, Polygon(q));
  }

  /** A streets collection with one three-part multi-polygon and one polygon
      yields four flat meshes. */
  lemma StreetsExample(a: Poly, b: Poly, c: Poly, d: Poly)
    ensures var r := LoadLayer(Streets, Decoded(GeometryCollection([MultiPolygon([a, b, c]), Polygon(d)])));
            |r.meshes| == 4 && forall m :: m in r.meshes ==> m.geometry.ShapeGeometry?
  {
    var ms := [MultiPolygon([a, b, c]), Polygon(d)];
    assert ms == [MultiPolygon([a, b, c])] + [Polygon(d)];
    LayerMeshesAppend(Streets, [MultiPolygon([a, b, c])], [Polygon(d)]);
    OneMember(Streets, MultiPolygon([a, b, c]));
    OneMember(Streets, Polygon(d));
  }
}
