/**
 * Opening extraction: projecting a panel mesh onto its face plane, deriving
 * the void polygons left in the panel envelope, and turning each void that
 * passes the size thresholds into a rectangular opening.
 */
module Openings {
  import opened Results
  import opened Geometry

  /** A rectangular opening, given by its centre in the x/z plane and its size. */
  datatype Opening = Opening(centerX: real, centerZ: real, width: real, height: real) {

    /** The opening's bounding box: its sides have the opening's size and its midpoint is the centre. */
    function Bounds(): (b: Box)
      ensures b.xMax - b.xMin == width && b.zMax - b.zMin == height
      ensures (b.xMin + b.xMax) / 2.0 == centerX && (b.zMin + b.zMax) / 2.0 == centerZ
    {
      var halfW, halfH := width / 2.0, height / 2.0;
      Box(centerX - halfW, centerZ - halfH, centerX + halfW, centerZ + halfH)
    }
  }

  // ---------------------------------------------------------------------------
  // Projection of the mesh onto a coordinate plane
  // ---------------------------------------------------------------------------

  /** A coordinate axis of the panel-local frame; `AXIS_MAP` maps x, y, z to 0, 1, 2. */
  datatype Axis = X | Y | Z

  type Vertex = (real, real, real)

  /** A triangle face: three indices into the vertex list. */
  type Face = (nat, nat, nat)

  function Coord(v: Vertex, axis: Axis): real {
    match axis
    case X => v.0
    case Y => v.1
    case Z => v.2
  }

  datatype Point2 = Point2(a: real, b: real)

  /** A projected triangle, the polygon built from three 2-D points. */
  datatype Triangle = Triangle(p: Point2, q: Point2, r: Point2) {

    /** Shoelace area of the triangle (never negative). */
    function Area(): (s: real)
      ensures s >= 0.0
    {
      var twice := (q.a - p.a) * (r.b - p.b) - (r.a - p.a) * (q.b - p.b);
      (if twice >= 0.0 then twice else -twice) / 2.0
    }

    /** A three-point ring is a valid polygon exactly when it is not degenerate. */
    predicate Valid() {
      Area() > 0.0
    }
  }

  predicate FacesIndexVertices(vertices: seq<Vertex>, faces: seq<Face>) {
    forall i :: 0 <= i < |faces| ==>
      faces[i].0 < |vertices| && faces[i].1 < |vertices| && faces[i].2 < |vertices|
  }

  /** The triangle of `face` projected onto the plane of axes `a` and `b` by dropping the third coordinate. */
  function ProjectFace(vertices: seq<Vertex>, face: Face, a: Axis, b: Axis): Triangle
    requires face.0 < |vertices| && face.1 < |vertices| && face.2 < |vertices|
  {
    Triangle(Point2(Coord(vertices[face.0], a), Coord(vertices[face.0], b)),
             Point2(Coord(vertices[face.1], a), Coord(vertices[face.1], b)),
             Point2(Coord(vertices[face.2], a), Coord(vertices[face.2], b)))
  }

  /** Whether the projection keeps a triangle: area above the tolerance, and valid. */
  predicate Keeps(t: Triangle, areaTol: real) {
    t.Area() > areaTol && t.Valid()
  }

  /** The projected triangles of `faces` that survive the area filter, in face order. */
  function ProjectedTriangles(vertices: seq<Vertex>, faces: seq<Face>, a: Axis, b: Axis, areaTol: real): seq<Triangle>
    requires FacesIndexVertices(vertices, faces)
  {
    if faces == [] then []
    else
      var prefix := faces[..|faces| - 1];
      var t := ProjectFace(vertices, faces[|faces| - 1], a, b);
      ProjectedTriangles(vertices, prefix, a, b, areaTol) + (if Keeps(t, areaTol) then [t] else [])
  }

  /** The indices of the faces whose projection is kept, in increasing order. */
  function KeptFaces(vertices: seq<Vertex>, faces: seq<Face>, a: Axis, b: Axis, areaTol: real): seq<nat>
    requires FacesIndexVertices(vertices, faces)
  {
    if faces == [] then []
    else
      var n := |faces| - 1;
      KeptFaces(vertices, faces[..n], a, b, areaTol)
        + (if Keeps(ProjectFace(vertices, faces[n], a, b), areaTol) then [n] else [])
  }

  /**
   * `r` and `idx` record the projection of `faces`: one triangle per kept
   * face index, those indices increasing, every face that passes the area
   * filter among them, and every recorded triangle passing it.
   */
  ghost predicate Tracks(vertices: seq<Vertex>, faces: seq<Face>, a: Axis, b: Axis, areaTol: real,
                         r: seq<Triangle>, idx: seq<nat>)
    requires FacesIndexVertices(vertices, faces)
  {
    && |r| == |idx| <= |faces|
    && (forall k :: 0 <= k < |idx| ==> idx[k] < |faces| && r[k] == ProjectFace(vertices, faces[idx[k]], a, b))
    && (forall k, m :: 0 <= k < m < |idx| ==> idx[k] < idx[m])
    && (forall i :: 0 <= i < |faces| ==> (i in idx <==> Keeps(ProjectFace(vertices, faces[i], a, b), areaTol)))
    && (forall k :: 0 <= k < |r| ==> Keeps(r[k], areaTol))
  }

  /**
   * The projection keeps, in face order, exactly the faces whose projected
   * triangle passes the area filter: the result has one entry per kept face
   * index, those indices increase, every face that passes is among them, and
   * so there are never more triangles than faces.
   */
  lemma {:induction false} ProjectedTrianglesInFaceOrder(vertices: seq<Vertex>, faces: seq<Face>, a: Axis, b: Axis, areaTol: real)
    requires FacesIndexVertices(vertices, faces)
    ensures Tracks(vertices, faces, a, b, areaTol,
                   ProjectedTriangles(vertices, faces, a, b, areaTol), KeptFaces(vertices, faces, a, b, areaTol))
  {
    if faces != [] {
      var n := |faces| - 1;
      var prefix := faces[..n];
      assert FacesIndexVertices(vertices, prefix) by {
        forall i | 0 <= i < |prefix| ensures prefix[i] == faces[i] { }
      }
      ProjectedTrianglesInFaceOrder(vertices, prefix, a, b, areaTol);
      var t := ProjectFace(vertices, faces[n], a, b);
      var r0, idx0 := ProjectedTriangles(vertices, prefix, a, b, areaTol), KeptFaces(vertices, prefix, a, b, areaTol);
      if Keeps(t, areaTol) {
        assert ProjectedTriangles(vertices, faces, a, b, areaTol) == r0 + [t];
        assert KeptFaces(vertices, faces, a, b, areaTol) == idx0 + [n];
        TracksKept(vertices, faces, a, b, areaTol, r0, idx0);
      } else {
        assert ProjectedTriangles(vertices, faces, a, b, areaTol) == r0;
        assert KeptFaces(vertices, faces, a, b, areaTol) == idx0;
        TracksDropped(vertices, faces, a, b, areaTol, r0, idx0);
      }
    }
  }

  /** A last face that passes the filter extends the record by its triangle and index. */
  lemma TracksKept(vertices: seq<Vertex>, faces: seq<Face>, a: Axis, b: Axis, areaTol: real,
                   r0: seq<Triangle>, idx0: seq<nat>)
    requires FacesIndexVertices(vertices, faces) && faces != []
    requires FacesIndexVertices(vertices, faces[..|faces| - 1])
    requires Tracks(vertices, faces[..|faces| - 1], a, b, areaTol, r0, idx0)
    requires Keeps(ProjectFace(vertices, faces[|faces| - 1], a, b), areaTol)
    ensures Tracks(vertices, faces, a, b, areaTol,
                   r0 + [ProjectFace(vertices, faces[|faces| - 1], a, b)], idx0 + [|faces| - 1])
  {
    var n := |faces| - 1;
    var r, idx := r0 + [ProjectFace(vertices, faces[n], a, b)], idx0 + [n];
    assert forall i :: 0 <= i < n ==> faces[..n][i] == faces[i];
    forall i | 0 <= i < |faces|
      ensures i in idx <==> Keeps(ProjectFace(vertices, faces[i], a, b), areaTol)
    {
      if i < n {
        assert i in idx <==> i in idx0;
      }
    }
  }

  /** A last face that fails the filter leaves the record as it was. */
  lemma TracksDropped(vertices: seq<Vertex>, faces: seq<Face>, a: Axis, b: Axis, areaTol: real,
                      r0: seq<Triangle>, idx0: seq<nat>)
    requires FacesIndexVertices(vertices, faces) && faces != []
    requires FacesIndexVertices(vertices, faces[..|faces| - 1])
    requires Tracks(vertices, faces[..|faces| - 1], a, b, areaTol, r0, idx0)
    requires !Keeps(ProjectFace(vertices, faces[|faces| - 1], a, b), areaTol)
    ensures Tracks(vertices, faces, a, b, areaTol, r0, idx0)
  {
    var n := |faces| - 1;
    assert forall i :: 0 <= i < n ==> faces[..n][i] == faces[i];
    forall i | 0 <= i < |faces|
      ensures i in idx0 <==> Keeps(ProjectFace(vertices, faces[i], a, b), areaTol)
    {
      if i == n {
        assert forall k :: 0 <= k < |idx0| ==> idx0[k] < n;
      }
    }
  }

  /** `_polygons_from_projection`: the kept projected triangles, built face by face. */
  method PolygonsFromProjection(vertices: seq<Vertex>, faces: seq<Face>, a: Axis, b: Axis, areaTol: real)
    returns (polys: seq<Triangle>)
    requires FacesIndexVertices(vertices, faces)
    ensures polys == ProjectedTriangles(vertices, faces, a, b, areaTol)
  {
    polys := [];
    for i := 0 to |faces|
      invariant FacesIndexVertices(vertices, faces[..i])
      invariant polys == ProjectedTriangles(vertices, faces[..i], a, b, areaTol)
    {
      assert faces[..i + 1][..i] == faces[..i];
      var poly := ProjectFace(vertices, faces[i], a, b);
      if poly.Area() > areaTol && poly.Valid() {
        polys := polys + [poly];
      }
    }
    assert faces[..|faces|] == faces;
  }

  /** The three plane projections of a mesh: width x height, thickness x height, width x thickness. */
  datatype Projections = Projections(zx: Geometry, zy: Geometry, xy: Geometry)

  /** The union of the kept triangles, or the empty polygon when none is kept. */
  function UnionOrEmpty(union: seq<Triangle> -> Geometry, polys: seq<Triangle>): Geometry {
    if polys == [] then Empty else union(polys)
  }

  /**
   * `create_union_projections`: fails exactly when the mesh has no faces;
   * otherwise each plane holds the union of the triangles that survive the
   * filter, so degenerate triangles are dropped rather than failing the call.
   * The polygon union is the kernel's, passed in as `union`.
   */
  method CreateUnionProjections(vertices: seq<Vertex>, faces: seq<Face>, areaTol: real, union: seq<Triangle> -> Geometry)
    returns (r: Result<Projections>)
    requires FacesIndexVertices(vertices, faces)
    ensures r.Err? <==> |faces| == 0
    ensures r.Err? ==> r.error == NoFaces
    ensures r.Ok? ==>
      && r.value.zx == UnionOrEmpty(union, ProjectedTriangles(vertices, faces, X, Z, areaTol))
      && r.value.zy == UnionOrEmpty(union, ProjectedTriangles(vertices, faces, Y, Z, areaTol))
      && r.value.xy == UnionOrEmpty(union, ProjectedTriangles(vertices, faces, X, Y, areaTol))
  {
    if |faces| == 0 {
      return Err(NoFaces);
    }
    var polysZx := PolygonsFromProjection(vertices, faces, X, Z, areaTol);
    var polysZy := PolygonsFromProjection(vertices, faces, Y, Z, areaTol);
    var polysXy := PolygonsFromProjection(vertices, faces, X, Y, areaTol);
    r := Ok(Projections(UnionOrEmpty(union, polysZx), UnionOrEmpty(union, polysZy), UnionOrEmpty(union, polysXy)));
  }

  // ---------------------------------------------------------------------------
  // Voids and openings
  // ---------------------------------------------------------------------------

  /** The kernel operations the void computation uses. */
  datatype VoidKernel = VoidKernel(
    heal: (Geometry, real) -> Geometry,      // dilate by tol, then erode by tol
    difference: (Box, Geometry) -> Geometry  // box minus geometry
  )

  /** The envelope minus the (healed) projected union. */
  function VoidGeometry(unionZx: Geometry, panelWidth: real, panelHeight: real, healTol: real, k: VoidKernel): Geometry {
    var healed := if healTol > 0.0 then k.heal(unionZx, healTol) else unionZx;
    k.difference(Envelope(panelWidth, panelHeight), healed)
  }

  /**
   * `_collect_polys`: the twin of `_collect_polygons`, written as a recursion
   * that extends an output list part by part. It yields exactly the flattening.
   */
  method CollectPolys(g: Geometry) returns (out: seq<Polygon>)
    ensures out == CollectPolygons(g)
    decreases g
  {
    if IsEmpty(g) {
      return [];
    }
    match g
    case Empty =>
      out := [];
    case Poly(p) =>
      out := [p];
    case Collection(parts) =>
      out := [];
      for i := 0 to |parts|
        invariant out == CollectParts(parts[..i])
      {
        var sub := CollectPolys(parts[i]);
        CollectPartsAppend(parts[..i], [parts[i]]);
        assert parts[..i + 1] == parts[..i] + [parts[i]];
        assert CollectParts([parts[i]]) == sub + CollectParts([]);
        out := out + sub;
      }
      assert parts[..|parts|] == parts;
  }

  /** The void pieces: none for an empty union, otherwise the leaves of the envelope minus the union. */
  function OpeningVoids(unionZx: Geometry, panelWidth: real, panelHeight: real, healTol: real, k: VoidKernel): seq<Polygon> {
    if IsEmpty(unionZx) then [] else CollectPolygons(VoidGeometry(unionZx, panelWidth, panelHeight, healTol, k))
  }

  /**
   * `compute_opening_voids`: the polygon pieces of the envelope not covered by
   * the projected union. It is empty when the union is empty or when nothing
   * is left of the envelope, and otherwise lists the leaves of the difference.
   */
  method ComputeOpeningVoids(unionZx: Geometry, panelWidth: real, panelHeight: real, healTol: real, k: VoidKernel)
    returns (voids: seq<Polygon>)
    ensures voids == OpeningVoids(unionZx, panelWidth, panelHeight, healTol, k)
    ensures IsEmpty(unionZx) ==> voids == []
    ensures voids == [] <==> IsEmpty(unionZx) || IsEmpty(VoidGeometry(unionZx, panelWidth, panelHeight, healTol, k))
    ensures !IsEmpty(unionZx) ==> forall p :: p in voids <==> HasLeaf(VoidGeometry(unionZx, panelWidth, panelHeight, healTol, k), p)
  {
    if IsEmpty(unionZx) {
      return [];
    }
    var geom := unionZx;
    if healTol > 0.0 {
      geom := k.heal(geom, healTol);
    }
    var envelope := Envelope(panelWidth, panelHeight);
    var diff := k.difference(envelope, geom);
    if IsEmpty(diff) {
      EmptyHasNoLeaf(diff);
      return [];
    }
    voids := CollectPolys(diff);
  }

  /**
   * The decision `extract_openings_from_zx` takes for one void: it becomes an
   * opening exactly when it is valid, its area reaches `minArea` and its
   * bounding box reaches the minimum width and height; the opening's bounds
   * are then the void's bounding box.
   */
  function OpeningOfVoid(p: Polygon, minWidth: real, minHeight: real, minArea: real): (r: Option<Opening>)
    ensures r.Some? <==>
      p.valid && p.area >= minArea
      && p.bounds.xMax - p.bounds.xMin >= minWidth && p.bounds.zMax - p.bounds.zMin >= minHeight
    ensures r.Some? ==> r.value.Bounds() == p.bounds
    ensures r.Some? ==> r.value.width >= minWidth && r.value.height >= minHeight
  {
    if !p.valid || p.area < minArea then None
    else
      var b := p.bounds;
      var width, height := b.xMax - b.xMin, b.zMax - b.zMin;
      if width < minWidth || height < minHeight then None
      else Some(Opening((b.xMin + b.xMax) / 2.0, (b.zMin + b.zMax) / 2.0, width, height))
  }

  /** The openings of a void list, in void order. */
  function OpeningsOfVoids(voids: seq<Polygon>, minWidth: real, minHeight: real, minArea: real): seq<Opening> {
    if voids == [] then []
    else
      var n := |voids| - 1;
      OpeningsOfVoids(voids[..n], minWidth, minHeight, minArea)
        + match OpeningOfVoid(voids[n], minWidth, minHeight, minArea)
          case None => []
          case Some(o) => [o]
  }

  /** The indices of the voids that pass the thresholds, in increasing order. */
  function PassingVoids(voids: seq<Polygon>, minWidth: real, minHeight: real, minArea: real): seq<nat> {
    if voids == [] then []
    else
      var n := |voids| - 1;
      PassingVoids(voids[..n], minWidth, minHeight, minArea)
        + (if OpeningOfVoid(voids[n], minWidth, minHeight, minArea).Some? then [n] else [])
  }

  /**
   * The passing void indices are exactly the voids that pass the thresholds,
   * each a valid index, in increasing order.
   */
  lemma {:induction false} PassingVoidsExact(voids: seq<Polygon>, minWidth: real, minHeight: real, minArea: real)
    ensures var idx := PassingVoids(voids, minWidth, minHeight, minArea);
      && |idx| <= |voids|
      && (forall k :: 0 <= k < |idx| ==> idx[k] < |voids|)
      && (forall k, m :: 0 <= k < m < |idx| ==> idx[k] < idx[m])
      && (forall i :: 0 <= i < |voids| ==> (i in idx <==> OpeningOfVoid(voids[i], minWidth, minHeight, minArea).Some?))
  {
    if voids != [] {
      var n := |voids| - 1;
      var prefix := voids[..n];
      PassingVoidsExact(prefix, minWidth, minHeight, minArea);
      assert forall i :: 0 <= i < n ==> prefix[i] == voids[i];
      var idx0 := PassingVoids(prefix, minWidth, minHeight, minArea);
      if OpeningOfVoid(voids[n], minWidth, minHeight, minArea).Some? {
        assert PassingVoids(voids, minWidth, minHeight, minArea) == idx0 + [n];
      } else {
        assert PassingVoids(voids, minWidth, minHeight, minArea) == idx0;
      }
    }
  }

  /**
   * Extraction keeps the relative order of the voids and never reports an
   * error: the k-th opening comes from the k-th passing void (its bounds are
   * that void's bounding box), so there are never more openings than voids.
   */
  lemma {:induction false} OpeningsFollowVoids(voids: seq<Polygon>, minWidth: real, minHeight: real, minArea: real)
    ensures var r, idx := OpeningsOfVoids(voids, minWidth, minHeight, minArea), PassingVoids(voids, minWidth, minHeight, minArea);
      && |r| == |idx| <= |voids|
      && (forall k :: 0 <= k < |idx| ==> idx[k] < |voids| && Some(r[k]) == OpeningOfVoid(voids[idx[k]], minWidth, minHeight, minArea))
  {
    if voids != [] {
      var n := |voids| - 1;
      var prefix := voids[..n];
      OpeningsFollowVoids(prefix, minWidth, minHeight, minArea);
      FollowStep(voids, minWidth, minHeight, minArea);
    }
  }

  /** Pairing openings with passing voids survives one more void. */
  lemma FollowStep(voids: seq<Polygon>, minWidth: real, minHeight: real, minArea: real)
    requires voids != []
    requires var prefix := voids[..|voids| - 1];
      var r, idx := OpeningsOfVoids(prefix, minWidth, minHeight, minArea), PassingVoids(prefix, minWidth, minHeight, minArea);
      && |r| == |idx| <= |prefix|
      && (forall k :: 0 <= k < |idx| ==> idx[k] < |prefix| && Some(r[k]) == OpeningOfVoid(prefix[idx[k]], minWidth, minHeight, minArea))
    ensures var r, idx := OpeningsOfVoids(voids, minWidth, minHeight, minArea), PassingVoids(voids, minWidth, minHeight, minArea);
      && |r| == |idx| <= |voids|
      && (forall k :: 0 <= k < |idx| ==> idx[k] < |voids| && Some(r[k]) == OpeningOfVoid(voids[idx[k]], minWidth, minHeight, minArea))
  {
    var n := |voids| - 1;
    var prefix := voids[..n];
    assert forall i :: 0 <= i < n ==> prefix[i] == voids[i];
    var last := OpeningOfVoid(voids[n], minWidth, minHeight, minArea);
    var r0, idx0 := OpeningsOfVoids(prefix, minWidth, minHeight, minArea), PassingVoids(prefix, minWidth, minHeight, minArea);
    if last.Some? {
      assert OpeningsOfVoids(voids, minWidth, minHeight, minArea) == r0 + [last.value];
      assert PassingVoids(voids, minWidth, minHeight, minArea) == idx0 + [n];
    } else {
      assert OpeningsOfVoids(voids, minWidth, minHeight, minArea) == r0;
      assert PassingVoids(voids, minWidth, minHeight, minArea) == idx0;
    }
  }

  /**
   * `extract_openings_from_zx`: the void pieces of the projected union, each
   * turned into its bounding-box opening when it passes the thresholds.
   */
  method ExtractOpeningsFromZx(unionZx: Geometry, panelWidth: real, panelHeight: real,
                               minWidth: real, minHeight: real, minArea: real, healTol: real, k: VoidKernel)
    returns (openings: seq<Opening>)
    ensures openings == OpeningsOfVoids(OpeningVoids(unionZx, panelWidth, panelHeight, healTol, k), minWidth, minHeight, minArea)
    ensures forall o :: o in openings ==> o.width >= minWidth && o.height >= minHeight
  {
    var voidPolys := ComputeOpeningVoids(unionZx, panelWidth, panelHeight, healTol, k);
    openings := [];
    for i := 0 to |voidPolys|
      invariant openings == OpeningsOfVoids(voidPolys[..i], minWidth, minHeight, minArea)
    {
      assert voidPolys[..i + 1][..i] == voidPolys[..i];
      var poly := voidPolys[i];
      if !poly.valid || poly.area < minArea {
        continue;
      }
      var b := poly.bounds;
      var width := b.xMax - b.xMin;
      var height := b.zMax - b.zMin;
      if width < minWidth || height < minHeight {
        continue;
      }
      openings := openings + [Opening((b.xMin + b.xMax) / 2.0, (b.zMin + b.zMax) / 2.0, width, height)];
    }
    assert voidPolys[..|voidPolys|] == voidPolys;
    OpeningsFollowVoids(voidPolys, minWidth, minHeight, minArea);
  }

  // ---------------------------------------------------------------------------
  // Panel metrics
  // ---------------------------------------------------------------------------

  datatype PanelMetrics = PanelMetrics(
    width: real, height: real, thickness: real,
    grossArea: real, openingsArea: real, netArea: real,
    grossVolume: real, netVolume: real,
    openings: seq<Opening>)

  /** The largest coordinate of the vertices along `axis`. */
  function ColumnMax(vertices: seq<Vertex>, axis: Axis): (m: real)
    requires |vertices| > 0
    ensures forall i :: 0 <= i < |vertices| ==> Coord(vertices[i], axis) <= m
  {
    if |vertices| == 1 then Coord(vertices[0], axis)
    else
      var rest := ColumnMax(vertices[1..], axis);
      assert forall i :: 1 <= i < |vertices| ==> vertices[i] == vertices[1..][i - 1];
      if Coord(vertices[0], axis) >= rest then Coord(vertices[0], axis) else rest
  }

  /** The smallest coordinate of the vertices along `axis`. */
  function ColumnMin(vertices: seq<Vertex>, axis: Axis): (m: real)
    requires |vertices| > 0
    ensures forall i :: 0 <= i < |vertices| ==> m <= Coord(vertices[i], axis)
  {
    if |vertices| == 1 then Coord(vertices[0], axis)
    else
      var rest := ColumnMin(vertices[1..], axis);
      assert forall i :: 1 <= i < |vertices| ==> vertices[i] == vertices[1..][i - 1];
      if Coord(vertices[0], axis) <= rest then Coord(vertices[0], axis) else rest
  }

  /** The column maximum and minimum are coordinates of actual vertices. */
  lemma {:induction false} ColumnBoundsAttained(vertices: seq<Vertex>, axis: Axis)
    requires |vertices| > 0
    ensures exists i :: 0 <= i < |vertices| && Coord(vertices[i], axis) == ColumnMax(vertices, axis)
    ensures exists i :: 0 <= i < |vertices| && Coord(vertices[i], axis) == ColumnMin(vertices, axis)
    decreases |vertices|
  {
    if |vertices| > 1 {
      ColumnBoundsAttained(vertices[1..], axis);
      var i :| 0 <= i < |vertices| - 1 && Coord(vertices[1..][i], axis) == ColumnMax(vertices[1..], axis);
      var j :| 0 <= j < |vertices| - 1 && Coord(vertices[1..][j], axis) == ColumnMin(vertices[1..], axis);
      assert vertices[1..][i] == vertices[i + 1] && vertices[1..][j] == vertices[j + 1];
    } else {
      assert Coord(vertices[0], axis) == ColumnMax(vertices, axis);
    }
  }

  /** The extent of the vertices along `axis`: max minus min of the coordinate column. */
  function Extent(vertices: seq<Vertex>, axis: Axis): (e: real)
    requires |vertices| > 0
    ensures e >= 0.0
  {
    assert ColumnMin(vertices, axis) <= Coord(vertices[0], axis) <= ColumnMax(vertices, axis);
    ColumnMax(vertices, axis) - ColumnMin(vertices, axis)
  }

  /** No two vertices are further apart along `axis` than the extent. */
  lemma ExtentBoundsSpread(vertices: seq<Vertex>, axis: Axis, i: nat, j: nat)
    requires i < |vertices| && j < |vertices|
    ensures Coord(vertices[i], axis) - Coord(vertices[j], axis) <= Extent(vertices, axis)
  {
  }

  /** Sum of `width * height` over the openings. */
  function OpeningsArea(openings: seq<Opening>): real {
    if openings == [] then 0.0 else openings[0].width * openings[0].height + OpeningsArea(openings[1..])
  }

  /** The openings area adds up over a split list of openings. */
  lemma {:induction false} OpeningsAreaAppend(a: seq<Opening>, b: seq<Opening>)
    ensures OpeningsArea(a + b) == OpeningsArea(a) + OpeningsArea(b)
    decreases |a|
  {
    if a != [] {
      assert (a + b)[1..] == a[1..] + b;
      OpeningsAreaAppend(a[1..], b);
    } else {
      assert a + b == b;
    }
  }

  /** Openings of non-negative size never have a negative total area. */
  lemma {:induction false} OpeningsAreaNonNegative(openings: seq<Opening>)
    requires forall o :: o in openings ==> o.width >= 0.0 && o.height >= 0.0
    ensures OpeningsArea(openings) >= 0.0
    decreases |openings|
  {
    if openings != [] {
      var o := openings[0];
      assert o in openings;
      assert o.width * o.height >= 0.0;
      OpeningsAreaNonNegative(openings[1..]);
    }
  }

  /**
   * `compute_panel_metrics`: dimensions from the vertex extents, gross area
   * from the projected union, and the net figures after removing the openings.
   * An empty vertex list makes the array reductions fail, hence the requires.
   */
  function ComputePanelMetrics(vertices: seq<Vertex>, unionZx: Geometry, openings: seq<Opening>): (m: PanelMetrics)
    requires |vertices| > 0
    ensures m.width == Extent(vertices, X) && m.thickness == Extent(vertices, Y) && m.height == Extent(vertices, Z)
    ensures m.width >= 0.0 && m.height >= 0.0 && m.thickness >= 0.0
    ensures m.openingsArea == OpeningsArea(openings)
    ensures m.netArea == m.grossArea - OpeningsArea(openings)
    ensures m.netArea + m.openingsArea == m.grossArea
    ensures m.grossArea == AreaOf(unionZx) && m.openings == openings
    ensures m.grossVolume == m.grossArea * m.thickness && m.netVolume == m.netArea * m.thickness
    ensures m.grossVolume - m.netVolume == m.openingsArea * m.thickness
  {
    var width := Extent(vertices, X);
    var thickness := Extent(vertices, Y);
    var height := Extent(vertices, Z);
    var grossArea := AreaOf(unionZx);
    var openingsArea := OpeningsArea(openings);
    var netArea := grossArea - openingsArea;
    VolumeDifference(grossArea, openingsArea, thickness, grossArea * thickness, netArea * thickness);
    PanelMetrics(width, height, thickness, grossArea, openingsArea, netArea,
                 grossArea * thickness, netArea * thickness, openings)
  }

  /** Removing an area from a prism removes that area times the thickness from its volume. */
  lemma VolumeDifference(gross: real, removed: real, thickness: real, grossVolume: real, netVolume: real)
    requires grossVolume == gross * thickness && netVolume == (gross - removed) * thickness
    ensures grossVolume - netVolume == removed * thickness
  {
  }
}
