/**
 The mesh builder: a mesh is modelled by the geometry call the viewer makes
 (an extrusion with its settings, or a flat shape), its material and the
 fixed placement every mesh receives. Triangulation and extrusion inside
 the rendering library are not modelled.
 */
module Meshes {
  import opened Outline

  /** Euler angles about x, y and z, counted in quarter turns (one unit is
      pi/2 radians), so that the fixed placement is exact. */
  datatype Rotation = Rotation(x: int, y: int, z: int)

  datatype Position = Position(x: int, y: int, z: int)

  datatype ExtrudeSettings = ExtrudeSettings(depth: nat, steps: nat, bevelEnabled: bool)

  /** A Phong material with a 24-bit RGB colour. */
  datatype Material = PhongMaterial(color: nat, flatShading: bool)

  datatype MeshGeometry =
    | ExtrudeGeometry(shape: Shape, settings: ExtrudeSettings)
    | ShapeGeometry(shape: Shape)

  datatype Mesh = Mesh(geometry: MeshGeometry, material: Material, rotation: Rotation, position: Position)

  /** Rotation (pi/2, pi, 0): lays a mesh drawn in the X-Y plane flat. */
  const DisplayRotation := Rotation(1, 2, 0)

  const DisplayPosition := Position(1600, 0, -800)

  const BuildingSettings := ExtrudeSettings(15, 1, false)

  const BuildingsMaterial := PhongMaterial(0xc0c080, true)

  const StreetsMaterial := PhongMaterial(0xc0c0c0, true)

  /** The shared ground frame: every mesh gets the same rotation and offset. */
  predicate InDisplayPlane(mesh: Mesh)
  {
    mesh.rotation == DisplayRotation && mesh.position == DisplayPosition
  }

  /** An extruded solid of the shape, placed in the shared ground frame. */
  function Extrude(shape: Shape, settings: ExtrudeSettings, material: Material): (mesh: Mesh)
    ensures mesh.geometry.ExtrudeGeometry?
    ensures mesh.geometry.shape == shape && mesh.geometry.settings == settings
    ensures mesh.material == material
    ensures InDisplayPlane(mesh)
  {
    Mesh(ExtrudeGeometry(shape, settings), material, DisplayRotation, DisplayPosition)
  }

  /** A zero-thickness surface of the shape, placed in the shared ground frame. */
  function Flat(shape: Shape, material: Material): (mesh: Mesh)
    ensures mesh.geometry.ShapeGeometry?
    ensures mesh.geometry.shape == shape
    ensures mesh.material == material
    ensures InDisplayPlane(mesh)
  {
    Mesh(ShapeGeometry(shape), material, DisplayRotation, DisplayPosition)
  }

  /** The placement depends on neither the shape, the settings, the
      material nor the kind of mesh. */
  lemma PlacementIndependentOfInput(a: Shape, b: Shape, settings: ExtrudeSettings, m1: Material, m2: Material)
    ensures Extrude(a, settings, m1).rotation == Flat(b, m2).rotation == Rotation(1, 2, 0)
    ensures Extrude(a, settings, m1).position == Flat(b, m2).position == Position(1600, 0, -800)
  {
  }
}
