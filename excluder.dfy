/**
 * `CesiumBoxExcluder`: an axis-aligned box (a Unity `Bounds`, kept in step
 * with a box collider) decides which terrain tiles are excluded.
 */
module TileExcluder {
  import opened Optional
  import opened Geometry

  function Add(a: Vec3, b: Vec3): Vec3 { Vec3(a.x + b.x, a.y + b.y, a.z + b.z) }
  function Sub(a: Vec3, b: Vec3): Vec3 { Vec3(a.x - b.x, a.y - b.y, a.z - b.z) }
  function Scale(a: Vec3, k: real): Vec3 { Vec3(a.x * k, a.y * k, a.z * k) }

  /** `Vector3.Min` and `Vector3.Max`: component-wise. */
  function VMin(a: Vec3, b: Vec3): Vec3 { Vec3(Min(a.x, b.x), Min(a.y, b.y), Min(a.z, b.z)) }
  function VMax(a: Vec3, b: Vec3): Vec3 { Vec3(Max(a.x, b.x), Max(a.y, b.y), Max(a.z, b.z)) }

  /** Unity's `Bounds`: a center and half-size extents. */
  datatype Bounds = Bounds(center: Vec3, extents: Vec3) {
    function Min(): Vec3 { Sub(center, extents) }
    function Max(): Vec3 { Add(center, extents) }
    function Size(): Vec3 { Scale(extents, 2.0) }
  }

  /** `new Bounds(center, size)` and the `size` setter: extents are half the size. */
  function BoundsOf(center: Vec3, size: Vec3): (b: Bounds)
    ensures b.center == center && b.Size() == size
  {
    Bounds(center, Scale(size, 0.5))
  }

  predicate LeV(a: Vec3, b: Vec3) { a.x <= b.x && a.y <= b.y && a.z <= b.z }

  /** The tile lies inside the box on every axis. */
  predicate Encloses(box: Bounds, tile: Bounds) {
    LeV(box.Min(), tile.Min()) && LeV(tile.Max(), box.Max())
  }

  /** The closed intervals overlap on every axis. */
  predicate Overlaps(a: Bounds, b: Bounds) {
    && Max(a.Min().x, b.Min().x) <= Min(a.Max().x, b.Max().x)
    && Max(a.Min().y, b.Min().y) <= Min(a.Max().y, b.Max().y)
    && Max(a.Min().z, b.Min().z) <= Min(a.Max().z, b.Max().z)
  }

  /** CompletelyContains, as written: clamping the tile's corners to the box changes nothing. */
  function CompletelyContains(box: Bounds, tile: Bounds): bool {
    VMin(box.Max(), tile.Max()) == tile.Max() && VMax(box.Min(), tile.Min()) == tile.Min()
  }

  /** `Bounds.Intersects`. */
  function Intersects(a: Bounds, b: Bounds): bool {
    && a.Min().x <= b.Max().x && a.Max().x >= b.Min().x
    && a.Min().y <= b.Max().y && a.Max().y >= b.Min().y
    && a.Min().z <= b.Max().z && a.Max().z >= b.Min().z
  }

  /** The corner-clamping test means per-axis containment, in both directions. */
  lemma CompletelyContainsIff(box: Bounds, tile: Bounds)
    ensures CompletelyContains(box, tile) <==> Encloses(box, tile)
  {
  }

  predicate NonNegative(v: Vec3) { 0.0 <= v.x && 0.0 <= v.y && 0.0 <= v.z }

  /** For boxes of non-negative size, `Intersects` is per-axis closed-interval overlap. */
  lemma IntersectsIff(a: Bounds, b: Bounds)
    ensures NonNegative(a.extents) && NonNegative(b.extents) ==> (Intersects(a, b) <==> Overlaps(a, b))
  {
  }

  /** A tile of non-negative size that the box encloses also overlaps it. */
  lemma EnclosedOverlaps(box: Bounds, tile: Bounds)
    requires NonNegative(tile.extents) && Encloses(box, tile)
    ensures Overlaps(box, tile)
  {
  }

  class CesiumBoxExcluder {
    var colliderCenter: Vec3
    var colliderSize: Vec3
    var bounds: Bounds
    var invert: bool
    /** The component's `enabled` flag. */
    var enabled: bool

    /** OnEnable: bounds from the collider. */
    constructor OnEnable(colliderCenter: Vec3, colliderSize: Vec3, invert: bool)
      ensures this.colliderCenter == colliderCenter && this.colliderSize == colliderSize
      ensures bounds.center == colliderCenter && bounds.Size() == colliderSize
      ensures this.invert == invert && enabled
    {
      this.colliderCenter := colliderCenter;
      this.colliderSize := colliderSize;
      this.bounds := BoundsOf(colliderCenter, colliderSize);
      this.invert := invert;
      this.enabled := true;
    }

    /**
     * Update: with a main camera, the collider moves to the camera's position
     * in local coordinates (`cameraLocal`); then the bounds copy the collider.
     */
    method Update(cameraLocal: Option<Vec3>)
      modifies this`colliderCenter, this`bounds
      ensures colliderCenter == if cameraLocal.Some? then cameraLocal.value else old(colliderCenter)
      ensures bounds.center == colliderCenter && bounds.Size() == colliderSize
    {
      if cameraLocal.Some? {
        colliderCenter := cameraLocal.value;
      }
      bounds := BoundsOf(colliderCenter, colliderSize);
    }

    /** ShouldExclude: a disabled excluder keeps every tile. */
    function ShouldExclude(tile: Bounds): (r: bool)
      reads this
      ensures !enabled ==> !r
      ensures enabled && invert ==> (r <==> Encloses(bounds, tile))
      ensures enabled && !invert && NonNegative(bounds.extents) && NonNegative(tile.extents) ==>
        (r <==> !Overlaps(bounds, tile))
    {
      CompletelyContainsIff(bounds, tile);
      IntersectsIff(bounds, tile);
      if !enabled then false
      else if invert then CompletelyContains(bounds, tile)
      else !Intersects(bounds, tile)
    }
  }

  /** In normal mode a tile of non-negative size that the box encloses is never excluded. */
  lemma EnclosedTileKept(e: CesiumBoxExcluder, tile: Bounds)
    requires !e.invert && NonNegative(tile.extents) && Encloses(e.bounds, tile)
    ensures !e.ShouldExclude(tile)
  {
    EnclosedOverlaps(e.bounds, tile);
  }
}
