/**
 * The planar geometry the layout engine hands to its polygon kernel.
 *
 * The kernel itself (box construction, union, difference, buffering and
 * healing) is not modelled: callers pass its operations in as functions.
 * What is modelled is the shape of its results and the flattening the
 * engine applies to them.
 */
module Geometry {

  /** An axis-aligned box in the kernel's bounds order: min x, min z, max x, max z. */
  datatype Box = Box(xMin: real, zMin: real, xMax: real, zMax: real) {

    /** This box lies within `outer` (edges may touch). */
    predicate Inside(outer: Box) {
      outer.xMin <= xMin && xMax <= outer.xMax && outer.zMin <= zMin && zMax <= outer.zMax
    }
  }

  /** The panel envelope `box(0, 0, width, height)`. */
  function Envelope(width: real, height: real): Box {
    Box(0.0, 0.0, width, height)
  }

  /**
   * A non-empty simple polygon returned by the kernel, seen only through the
   * attributes the engine reads from it: its bounding box, area and validity.
   */
  datatype Polygon = Polygon(bounds: Box, area: real, valid: bool)

  /** The result of a boolean operation: nothing, one polygon, or a collection of results. */
  datatype Geometry = Empty | Poly(polygon: Polygon) | Collection(parts: seq<Geometry>)

  /** The kernel's `is_empty`: a geometry with no polygon anywhere inside it. */
  predicate IsEmpty(g: Geometry)
    decreases g
  {
    match g
    case Empty => true
    case Poly(_) => false
    case Collection(parts) => forall i :: 0 <= i < |parts| ==> IsEmpty(parts[i])
  }

  /** `p` is one of the polygon leaves of `g`. */
  ghost predicate HasLeaf(g: Geometry, p: Polygon)
    decreases g
  {
    match g
    case Empty => false
    case Poly(q) => q == p
    case Collection(parts) => exists i :: 0 <= i < |parts| && HasLeaf(parts[i], p)
  }

  /**
   * `_collect_polygons`: flattens a geometry result into its polygon leaves,
   * left to right. The result is empty exactly when the geometry is, and it
   * holds the polygon leaves of `g` and nothing else.
   */
  function CollectPolygons(g: Geometry): (r: seq<Polygon>)
    ensures r == [] <==> IsEmpty(g)
    ensures forall p :: p in r <==> HasLeaf(g, p)
    decreases g, 1
  {
    if IsEmpty(g) then
      EmptyHasNoLeaf(g);
      []
    else
      match g
      case Empty => []
      case Poly(p) => [p]
      case Collection(parts) => CollectParts(parts)
  }

  /** The flattened leaves of a list of geometries, in list order. */
  function CollectParts(parts: seq<Geometry>): (r: seq<Polygon>)
    ensures r == [] <==> forall i :: 0 <= i < |parts| ==> IsEmpty(parts[i])
    ensures forall p :: p in r <==> exists i :: 0 <= i < |parts| && HasLeaf(parts[i], p)
    decreases parts, 0
  {
    if parts == [] then []
    else
      var head, tail := CollectPolygons(parts[0]), CollectParts(parts[1..]);
      assert forall i :: 1 <= i < |parts| ==> parts[i] == parts[1..][i - 1];
      head + tail
  }

  lemma {:induction false} EmptyHasNoLeaf(g: Geometry)
    requires IsEmpty(g)
    ensures forall p :: !HasLeaf(g, p)
    decreases g
  {
    match g
    case Empty =>
    case Poly(_) =>
    case Collection(parts) =>
      forall i | 0 <= i < |parts| {
        EmptyHasNoLeaf(parts[i]);
      }
  }

  /** Flattening respects list order: the leaves of `a + b` are those of `a`, then those of `b`. */
  lemma {:induction false} CollectPartsAppend(a: seq<Geometry>, b: seq<Geometry>)
    ensures CollectParts(a + b) == CollectParts(a) + CollectParts(b)
    decreases |a|
  {
    if a == [] {
      assert a + b == b;
    } else {
      assert (a + b)[0] == a[0];
      assert (a + b)[1..] == a[1..] + b;
      CollectPartsAppend(a[1..], b);
    }
  }

  /** A collection's leaves, in order, are those of its parts; a lone polygon is its own leaf list. */
  lemma {:induction false} CollectionInOrder(parts: seq<Geometry>, p: Polygon)
    ensures CollectPolygons(Collection(parts)) == CollectParts(parts)
    ensures CollectPolygons(Collection(parts + [Poly(p)])) == CollectParts(parts) + [p]
  {
    CollectPartsAppend(parts, [Poly(p)]);
    assert CollectParts([Poly(p)]) == [p] + CollectParts([]);
  }

  /** Total area of the polygon leaves of a geometry (the kernel's `area` of a multi-part result). */
  function AreaOf(g: Geometry): real {
    SumAreas(CollectPolygons(g))
  }

  function SumAreas(ps: seq<Polygon>): real {
    if ps == [] then 0.0 else ps[0].area + SumAreas(ps[1..])
  }
}
