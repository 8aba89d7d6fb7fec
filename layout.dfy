/**
 * Member and fill generation for one layer of a panel: slats (or battens)
 * cut around the openings at the post or traverse positions, and the
 * insulation pieces between them.
 *
 * The polygon kernel is a parameter: `cut` is a box minus the buffered
 * opening union, healed; `fillAround` is the panel envelope minus the union
 * of the given pieces and the buffered openings, healed.
 */
module Layout {
  import opened Results
  import opened Geometry
  import opened Openings
  import opened Positions
  import opened Thickness
  import opened Bands

  /** Pieces with a side no longer than this are dropped. */
  const SliverTol: real := 0.000001

  /** Slat intervals closer than this are merged, and gaps no longer than this are not filled. */
  const MergeEps: real := 0.000000001

  /** The polygon kernel, with the opening union already fixed. */
  datatype Kernel = Kernel(cut: Box -> Geometry, fillAround: seq<Polygon> -> Geometry)

  datatype Orientation = Vertical | Horizontal | Surface

  /**
   * Element ids, kept structured rather than formatted:
   * `SlatId` is `{panel}-L{layer}-P{index}-{segment}` (posts) or
   * `{panel}-L{layer}-T{index}-{segment}` (traverses), `FillId` is
   * `{panel}-L{layer}-I{piece}`, and `BandId` is `{panel}-L{layer}-I{gap}-{piece}`.
   */
  datatype ElementId =
    | SlatId(panel: string, layer: int, run: Run, index: nat, segment: nat)
    | FillId(panel: string, layer: int, piece: nat)
    | BandId(panel: string, layer: int, gap: nat, piece: nat)

  /** A placed member or fill piece, with its extent along x, y (through the wall) and z. */
  datatype Element = Element(
    id: ElementId, elementType: string, layer: int, orientation: Orientation,
    xMin: real, xMax: real, yMin: real, yMax: real, zMin: real, zMax: real)
  {
    function Length(): real { zMax - zMin }
    function Width(): real { xMax - xMin }
    function Thickness(): real { yMax - yMin }
    function Footprint(): Box { Box(xMin, zMin, xMax, zMax) }
  }

  /** A piece with a side no longer than `SliverTol`; any other piece has a positive area. */
  predicate Sliver(b: Box)
    ensures !Sliver(b) ==> b.xMin < b.xMax && b.zMin < b.zMax
    ensures b.xMax <= b.xMin || b.zMax <= b.zMin ==> Sliver(b)
  {
    b.xMax - b.xMin <= SliverTol || b.zMax - b.zMin <= SliverTol
  }

  /** The element recorded for a kept piece: the piece's bounds, the layer's y-range. */
  function PieceElement(piece: Polygon, id: ElementId, elementType: string, layer: int,
                        orientation: Orientation, yMin: real, yMax: real): (e: Element)
    ensures e.id == id && e.elementType == elementType && e.layer == layer && e.orientation == orientation
    ensures e.Footprint() == piece.bounds && e.yMin == yMin && e.yMax == yMax
    ensures !Sliver(piece.bounds) ==> e.Width() > SliverTol && e.Length() > SliverTol
  {
    var b := piece.bounds;
    Element(id, elementType, layer, orientation, b.xMin, b.xMax, yMin, yMax, b.zMin, b.zMax)
  }

  function RunOrientation(run: Run): Orientation {
    match run
    case Posts => Vertical
    case Traverses => Horizontal
  }

  /**
   * The uncut box of the slat at `pos`: a full-height strip for a post, a
   * full-width strip for a traverse, clamped into the panel.
   */
  function SlatBox(run: Run, pos: real, width: real, height: real, slatWidth: real): (b: Box)
    ensures 0.0 <= width && 0.0 <= height && 0.0 <= slatWidth ==> b.Inside(Envelope(width, height))
    ensures run == Posts ==> b.zMin == 0.0 && b.zMax == height && (b.xMin, b.xMax) == SlatSpan(pos, width, slatWidth)
    ensures run == Traverses ==> b.xMin == 0.0 && b.xMax == width && (b.zMin, b.zMax) == SlatSpan(pos, height, slatWidth)
  {
    match run
    case Posts =>
      var span := SlatSpan(pos, width, slatWidth);
      Box(span.0, 0.0, span.1, height)
    case Traverses =>
      var span := SlatSpan(pos, height, slatWidth);
      Box(0.0, span.0, width, span.1)
  }

  /** The pieces the kernel leaves of the slat at position `i`. */
  function SlatPieces(run: Run, positions: seq<real>, i: nat, width: real, height: real, slatWidth: real, k: Kernel): seq<Polygon>
    requires i < |positions|
  {
    CollectPolygons(k.cut(SlatBox(run, positions[i], width, height, slatWidth)))
  }

  /**
   * `e` is the `n`-th slat element emitted for a layer: it records a
   * non-sliver piece of the slat at the position its id names, and its
   * segment number is `n + 1`.
   */
  ghost predicate SlatElement(e: Element, piece: Polygon, n: nat, panel: string, layer: int, run: Run,
                              positions: seq<real>, width: real, height: real, slatWidth: real,
                              yMin: real, yMax: real, slatType: string, k: Kernel) {
    && e.id.SlatId?
    && e.id.index < |positions|
    && piece in SlatPieces(run, positions, e.id.index, width, height, slatWidth, k)
    && !Sliver(piece.bounds)
    && e == PieceElement(piece, SlatId(panel, layer, run, e.id.index, n + 1), slatType, layer, RunOrientation(run), yMin, yMax)
  }

  /** Some emitted element, with `piece` as its piece, comes from the slat at position `i`. */
  ghost predicate Emitted(elements: seq<Element>, pieces: seq<Polygon>, piece: Polygon, i: nat) {
    exists n :: 0 <= n < |elements| && n < |pieces| && pieces[n] == piece && elements[n].id.SlatId? && elements[n].id.index == i
  }

  /** The non-sliver pieces among `polys`, in order. */
  function Kept(polys: seq<Polygon>): (r: seq<Polygon>)
    ensures forall q :: q in r <==> q in polys && !Sliver(q.bounds)
    ensures |r| <= |polys|
  {
    if polys == [] then []
    else
      var n := |polys| - 1;
      assert polys == polys[..n] + [polys[n]];
      Kept(polys[..n]) + if Sliver(polys[n].bounds) then [] else [polys[n]]
  }

  /** A kept piece of a slat and the index of the position its slat stands at. */
  datatype SlatPiece = SlatPiece(slat: nat, piece: Polygon)

  /** The pieces `ps`, each paired with the index `i` of the position its slat stands at. */
  function Tag(i: nat, ps: seq<Polygon>): seq<SlatPiece> {
    seq(|ps|, j requires 0 <= j < |ps| => SlatPiece(i, ps[j]))
  }

  /** The kernel's pieces of every slat of a layer, in position order. */
  function LayerSlatPieces(run: Run, positions: seq<real>, width: real, height: real, slatWidth: real, k: Kernel)
    : (r: seq<seq<Polygon>>)
    ensures |r| == |positions|
    ensures forall i :: 0 <= i < |positions| ==> r[i] == SlatPieces(run, positions, i, width, height, slatWidth, k)
  {
    seq(|positions|, i requires 0 <= i < |positions| => SlatPieces(run, positions, i, width, height, slatWidth, k))
  }

  /**
   * The kept pieces of the slats whose pieces `perSlat` lists, slat after
   * slat and, within a slat, in the kernel's order, each paired with the
   * index of its slat.
   */
  function SlatRun(perSlat: seq<seq<Polygon>>): seq<SlatPiece> {
    if perSlat == [] then []
    else
      var n := |perSlat| - 1;
      SlatRun(perSlat[..n]) + Tag(n, Kept(perSlat[n]))
  }

  /** The slat elements of a run of tagged pieces: the `n`-th is segment `n + 1` of the layer. */
  function SlatElements(tagged: seq<SlatPiece>, panel: string, layer: int, run: Run,
                        slatType: string, yMin: real, yMax: real): seq<Element>
  {
    if tagged == [] then []
    else
      var n := |tagged| - 1;
      SlatElements(tagged[..n], panel, layer, run, slatType, yMin, yMax)
      + [PieceElement(tagged[n].piece, SlatId(panel, layer, run, tagged[n].slat, n + 1), slatType, layer, RunOrientation(run), yMin, yMax)]
  }

  /** The pieces of a run of tagged pieces. */
  function PiecesOf(tagged: seq<SlatPiece>): seq<Polygon> {
    if tagged == [] then [] else PiecesOf(tagged[..|tagged| - 1]) + [tagged[|tagged| - 1].piece]
  }

  /** The `n`-th slat element records the `n`-th tagged piece, as segment `n + 1` of the slat its tag names. */
  lemma {:induction false} SlatElementsAt(tagged: seq<SlatPiece>, panel: string, layer: int, run: Run,
                                          slatType: string, yMin: real, yMax: real)
    ensures var es := SlatElements(tagged, panel, layer, run, slatType, yMin, yMax);
      var ps := PiecesOf(tagged);
      && |es| == |ps| == |tagged|
      && forall n :: 0 <= n < |tagged| ==>
           && ps[n] == tagged[n].piece
           && es[n] == PieceElement(tagged[n].piece, SlatId(panel, layer, run, tagged[n].slat, n + 1), slatType, layer, RunOrientation(run), yMin, yMax)
    decreases |tagged|
  {
    if tagged != [] {
      var n := |tagged| - 1;
      SlatElementsAt(tagged[..n], panel, layer, run, slatType, yMin, yMax);
      var es := SlatElements(tagged, panel, layer, run, slatType, yMin, yMax);
      var before := SlatElements(tagged[..n], panel, layer, run, slatType, yMin, yMax);
      forall m | 0 <= m < n
        ensures es[m] == before[m] && tagged[..n][m] == tagged[m]
      {
      }
    }
  }

  /** The tagged kept pieces of every slat of a layer. */
  function LayerSlatRun(run: Run, positions: seq<real>, width: real, height: real, slatWidth: real, k: Kernel): seq<SlatPiece> {
    SlatRun(LayerSlatPieces(run, positions, width, height, slatWidth, k))
  }

  /** Every tagged piece is a non-sliver piece of the slat it is tagged with. */
  ghost predicate TaggedSound(tagged: seq<SlatPiece>, perSlat: seq<seq<Polygon>>) {
    forall m :: 0 <= m < |tagged| ==>
      tagged[m].slat < |perSlat| && tagged[m].piece in perSlat[tagged[m].slat] && !Sliver(tagged[m].piece.bounds)
  }

  /** Every non-sliver piece of every slat appears, tagged with its slat. */
  ghost predicate TaggedComplete(tagged: seq<SlatPiece>, perSlat: seq<seq<Polygon>>) {
    forall i, piece :: 0 <= i < |perSlat| && piece in perSlat[i] && !Sliver(piece.bounds) ==> SlatPiece(i, piece) in tagged
  }

  /** Tags never decrease along a run. */
  ghost predicate TagsAscending(tagged: seq<SlatPiece>) {
    forall a, b :: 0 <= a < b < |tagged| ==> tagged[a].slat <= tagged[b].slat
  }

  /** The last step of `SlatRun`, written out. */
  lemma SlatRunSnoc(perSlat: seq<seq<Polygon>>)
    requires perSlat != []
    ensures var n := |perSlat| - 1;
      SlatRun(perSlat) == SlatRun(perSlat[..n]) + Tag(n, Kept(perSlat[n]))
  {
  }

  /** Every tagged piece of a run is a non-sliver piece of the slat it is tagged with. */
  lemma {:induction false} SlatRunSound(perSlat: seq<seq<Polygon>>)
    ensures TaggedSound(SlatRun(perSlat), perSlat)
    decreases |perSlat|
  {
    if perSlat != [] {
      var n := |perSlat| - 1;
      var prefix := perSlat[..n];
      SlatRunSound(prefix);
      SlatRunSnoc(perSlat);
      var before, kept := SlatRun(prefix), Kept(perSlat[n]);
      var tagged := before + Tag(n, kept);
      forall m | 0 <= m < |tagged|
        ensures tagged[m].slat < |perSlat| && tagged[m].piece in perSlat[tagged[m].slat] && !Sliver(tagged[m].piece.bounds)
      {
        if m < |before| {
          assert tagged[m] == before[m] && prefix[before[m].slat] == perSlat[before[m].slat];
        } else {
          assert tagged[m] == SlatPiece(n, kept[m - |before|]);
        }
      }
    }
  }

  /** Tags along a run never decrease. */
  lemma {:induction false} SlatRunAscending(perSlat: seq<seq<Polygon>>)
    ensures TagsAscending(SlatRun(perSlat))
    decreases |perSlat|
  {
    if perSlat != [] {
      var n := |perSlat| - 1;
      var prefix := perSlat[..n];
      SlatRunAscending(prefix);
      SlatRunSound(prefix);
      SlatRunSnoc(perSlat);
      var before, kept := SlatRun(prefix), Kept(perSlat[n]);
      var tagged := before + Tag(n, kept);
      forall a, b | 0 <= a < b < |tagged|
        ensures tagged[a].slat <= tagged[b].slat
      {
        if b >= |before| {
          assert tagged[b] == SlatPiece(n, kept[b - |before|]);
          if a < |before| { assert tagged[a] == before[a]; } else { assert tagged[a] == SlatPiece(n, kept[a - |before|]); }
        } else {
          assert tagged[a] == before[a] && tagged[b] == before[b];
        }
      }
    }
  }

  /** Every non-sliver piece of every slat appears in the run, tagged with its slat. */
  lemma {:induction false} SlatRunComplete(perSlat: seq<seq<Polygon>>)
    ensures TaggedComplete(SlatRun(perSlat), perSlat)
    decreases |perSlat|
  {
    if perSlat != [] {
      var n := |perSlat| - 1;
      var prefix := perSlat[..n];
      SlatRunComplete(prefix);
      SlatRunSnoc(perSlat);
      var before, kept := SlatRun(prefix), Kept(perSlat[n]);
      var tagged := before + Tag(n, kept);
      forall i, piece | 0 <= i < |perSlat| && piece in perSlat[i] && !Sliver(piece.bounds)
        ensures SlatPiece(i, piece) in tagged
      {
        if i < n {
          assert prefix[i] == perSlat[i];
          assert SlatPiece(i, piece) in before;
        } else {
          var j :| 0 <= j < |kept| && kept[j] == piece;
          assert tagged[|before| + j] == SlatPiece(i, piece);
        }
      }
    }
  }

  /** Each element of a layer's slat run records a non-sliver piece of the slat its id names, as its own segment. */
  lemma SlatRunElements(panel: string, layer: int, run: Run, positions: seq<real>, width: real, height: real,
                        slatWidth: real, yMin: real, yMax: real, slatType: string, k: Kernel)
    ensures var tagged := LayerSlatRun(run, positions, width, height, slatWidth, k);
      var slats := SlatElements(tagged, panel, layer, run, slatType, yMin, yMax);
      var pieces := PiecesOf(tagged);
      && |slats| == |pieces|
      && forall n :: 0 <= n < |slats| ==>
           SlatElement(slats[n], pieces[n], n, panel, layer, run, positions, width, height, slatWidth, yMin, yMax, slatType, k)
  {
    var perSlat := LayerSlatPieces(run, positions, width, height, slatWidth, k);
    var tagged := SlatRun(perSlat);
    var slats := SlatElements(tagged, panel, layer, run, slatType, yMin, yMax);
    var pieces := PiecesOf(tagged);
    SlatRunSound(perSlat);
    SlatElementsAt(tagged, panel, layer, run, slatType, yMin, yMax);
    forall n | 0 <= n < |slats|
      ensures SlatElement(slats[n], pieces[n], n, panel, layer, run, positions, width, height, slatWidth, yMin, yMax, slatType, k)
    {
      assert slats[n].id.index == tagged[n].slat && pieces[n] == tagged[n].piece;
    }
  }

  /** The slats of a layer come in position order, and their segment numbers make their ids distinct. */
  lemma SlatRunOrdered(panel: string, layer: int, run: Run, positions: seq<real>, width: real, height: real,
                       slatWidth: real, yMin: real, yMax: real, slatType: string, k: Kernel)
    ensures var slats := SlatElements(LayerSlatRun(run, positions, width, height, slatWidth, k), panel, layer, run, slatType, yMin, yMax);
      && DistinctIds(slats)
      && (forall n :: 0 <= n < |slats| ==> slats[n].id.SlatId?)
      && (forall a, b :: 0 <= a < b < |slats| ==> slats[a].id.index <= slats[b].id.index)
  {
    var perSlat := LayerSlatPieces(run, positions, width, height, slatWidth, k);
    var tagged := SlatRun(perSlat);
    var slats := SlatElements(tagged, panel, layer, run, slatType, yMin, yMax);
    SlatRunAscending(perSlat);
    SlatElementsAt(tagged, panel, layer, run, slatType, yMin, yMax);
    forall a, b | 0 <= a < b < |slats|
      ensures slats[a].id != slats[b].id && slats[a].id.index <= slats[b].id.index
    {
      assert slats[a].id == SlatId(panel, layer, run, tagged[a].slat, a + 1);
      assert slats[b].id == SlatId(panel, layer, run, tagged[b].slat, b + 1);
    }
  }

  /** Every non-sliver piece of every slat of a layer is emitted, under the index of its slat. */
  lemma SlatRunEmitted(panel: string, layer: int, run: Run, positions: seq<real>, width: real, height: real,
                       slatWidth: real, yMin: real, yMax: real, slatType: string, k: Kernel)
    ensures var tagged := LayerSlatRun(run, positions, width, height, slatWidth, k);
      var slats := SlatElements(tagged, panel, layer, run, slatType, yMin, yMax);
      forall i, piece ::
        0 <= i < |positions| && piece in SlatPieces(run, positions, i, width, height, slatWidth, k) && !Sliver(piece.bounds)
        ==> Emitted(slats, PiecesOf(tagged), piece, i)
  {
    var perSlat := LayerSlatPieces(run, positions, width, height, slatWidth, k);
    var tagged := SlatRun(perSlat);
    var slats := SlatElements(tagged, panel, layer, run, slatType, yMin, yMax);
    var pieces := PiecesOf(tagged);
    SlatRunComplete(perSlat);
    SlatElementsAt(tagged, panel, layer, run, slatType, yMin, yMax);
    forall i, piece | 0 <= i < |positions| && piece in SlatPieces(run, positions, i, width, height, slatWidth, k) && !Sliver(piece.bounds)
      ensures Emitted(slats, pieces, piece, i)
    {
      assert piece in perSlat[i];
      var n :| 0 <= n < |tagged| && tagged[n] == SlatPiece(i, piece);
      assert pieces[n] == piece && slats[n].id.index == i;
    }
  }

  /**
   * The elements of a layer's slat run are what the slat loop promises:
   * each records a non-sliver piece of the slat its id names, under its own
   * segment number, so ids are distinct; they come in position order; and
   * every non-sliver piece of every slat is emitted.
   */
  lemma SlatRunLayer(panel: string, layer: int, run: Run, positions: seq<real>, width: real, height: real,
                     slatWidth: real, yMin: real, yMax: real, slatType: string, k: Kernel)
    ensures var tagged := LayerSlatRun(run, positions, width, height, slatWidth, k);
      var slats := SlatElements(tagged, panel, layer, run, slatType, yMin, yMax);
      && SlatLayer(slats, PiecesOf(tagged), panel, layer, run, positions, width, height, slatWidth, yMin, yMax, slatType, k)
      && (forall a, b :: 0 <= a < b < |slats| ==> slats[a].id.index <= slats[b].id.index)
  {
    SlatRunElements(panel, layer, run, positions, width, height, slatWidth, yMin, yMax, slatType, k);
    SlatRunOrdered(panel, layer, run, positions, width, height, slatWidth, yMin, yMax, slatType, k);
    SlatRunEmitted(panel, layer, run, positions, width, height, slatWidth, yMin, yMax, slatType, k);
  }

  /** Looking at one more piece keeps it when it is no sliver. */
  lemma KeptStep(polys: seq<Polygon>, j: nat)
    requires j < |polys|
    ensures Kept(polys[..j + 1]) == Kept(polys[..j]) + if Sliver(polys[j].bounds) then [] else [polys[j]]
  {
    assert polys[..j + 1][..j] == polys[..j];
  }

  /** One piece further along slat `i`: a sliver leaves the run as it is, a kept piece is appended with its tag. */
  lemma SlatStep(before: seq<SlatPiece>, polys: seq<Polygon>, i: nat, j: nat)
    requires j < |polys|
    ensures Sliver(polys[j].bounds) ==> before + Tag(i, Kept(polys[..j + 1])) == before + Tag(i, Kept(polys[..j]))
    ensures !Sliver(polys[j].bounds) ==>
      before + Tag(i, Kept(polys[..j + 1])) == before + Tag(i, Kept(polys[..j])) + [SlatPiece(i, polys[j])]
  {
    KeptStep(polys, j);
    var kept := Kept(polys[..j]);
    if !Sliver(polys[j].bounds) {
      assert Tag(i, kept + [polys[j]]) == Tag(i, kept) + [SlatPiece(i, polys[j])];
    }
  }

  /** Appending a tagged piece appends its element, as the next segment, and its piece. */
  lemma SlatElementsSnoc(tagged: seq<SlatPiece>, t: SlatPiece, panel: string, layer: int,
                         run: Run, slatType: string, yMin: real, yMax: real)
    ensures SlatElements(tagged + [t], panel, layer, run, slatType, yMin, yMax)
      == SlatElements(tagged, panel, layer, run, slatType, yMin, yMax)
         + [PieceElement(t.piece, SlatId(panel, layer, run, t.slat, |tagged| + 1), slatType, layer, RunOrientation(run), yMin, yMax)]
    ensures PiecesOf(tagged + [t]) == PiecesOf(tagged) + [t.piece]
  {
    assert (tagged + [t])[..|tagged|] == tagged;
  }

  /**
   * The piece loop of one slat: each non-sliver piece of slat `i` in turn is
   * recorded as the layer's next segment. Appends the slat's tagged kept
   * pieces to the run so far.
   */
  method SlatSegments(panel: string, layer: int, run: Run, i: nat, polys: seq<Polygon>,
                      slatType: string, yMin: real, yMax: real, ghost before: seq<SlatPiece>,
                      elements0: seq<Element>, pieces0: seq<Polygon>, counter0: nat)
    returns (elements: seq<Element>, pieces: seq<Polygon>, counter: nat)
    requires counter0 == |before|
    requires elements0 == SlatElements(before, panel, layer, run, slatType, yMin, yMax) && pieces0 == PiecesOf(before)
    ensures var tagged := before + Tag(i, Kept(polys));
      && counter == |tagged|
      && elements == SlatElements(tagged, panel, layer, run, slatType, yMin, yMax) && pieces == PiecesOf(tagged)
  {
    elements, pieces, counter := elements0, pieces0, counter0;
    ghost var tagged := before;
    assert polys[..0] == [];
    for j := 0 to |polys|
      invariant tagged == before + Tag(i, Kept(polys[..j]))
      invariant counter == |tagged|
      invariant elements == SlatElements(tagged, panel, layer, run, slatType, yMin, yMax) && pieces == PiecesOf(tagged)
    {
      var piece := polys[j];
      SlatStep(before, polys, i, j);
      if !Sliver(piece.bounds) {
        SlatElementsSnoc(tagged, SlatPiece(i, piece), panel, layer, run, slatType, yMin, yMax);
        counter := counter + 1;
        var e := PieceElement(piece, SlatId(panel, layer, run, i, counter), slatType, layer, RunOrientation(run), yMin, yMax);
        elements, pieces := elements + [e], pieces + [piece];
        tagged := tagged + [SlatPiece(i, piece)];
      }
    }
    assert polys[..|polys|] == polys;
  }

  /**
   * The slat loop of a layer: for each position in turn, the kernel's pieces
   * of its slat, slivers dropped, each kept piece numbered by a counter that
   * runs through the whole layer. The result is exactly the layer's slat
   * run; `SlatRunLayer` states what that run holds.
   */
  method SlatMembers(panel: string, layer: int, run: Run, positions: seq<real>, width: real, height: real,
                     slatWidth: real, yMin: real, yMax: real, slatType: string, k: Kernel)
    returns (elements: seq<Element>, pieces: seq<Polygon>)
    ensures var tagged := LayerSlatRun(run, positions, width, height, slatWidth, k);
      elements == SlatElements(tagged, panel, layer, run, slatType, yMin, yMax) && pieces == PiecesOf(tagged)
  {
    elements, pieces := [], [];
    ghost var perSlat := LayerSlatPieces(run, positions, width, height, slatWidth, k);
    ghost var tagged: seq<SlatPiece> := [];
    var counter: nat := 0;
    for i: nat := 0 to |positions|
      invariant tagged == SlatRun(perSlat[..i])
      invariant counter == |tagged|
      invariant elements == SlatElements(tagged, panel, layer, run, slatType, yMin, yMax) && pieces == PiecesOf(tagged)
    {
      var polys := SlatPieces(run, positions, i, width, height, slatWidth, k);
      elements, pieces, counter := SlatSegments(panel, layer, run, i, polys, slatType, yMin, yMax, tagged, elements, pieces, counter);
      assert perSlat[..i + 1][..i] == perSlat[..i];
      SlatRunSnoc(perSlat[..i + 1]);
      tagged := tagged + Tag(i, Kept(polys));
    }
    assert perSlat[..|positions|] == perSlat;
  }

  // ---------------------------------------------------------------------------
  // Ids and their numbers
  // ---------------------------------------------------------------------------

  /** The ids of a list of elements, in order. */
  function Ids(es: seq<Element>): (r: seq<ElementId>)
    ensures |r| == |es| && forall n :: 0 <= n < |es| ==> r[n] == es[n].id
  {
    seq(|es|, n requires 0 <= n < |es| => es[n].id)
  }

  /** No two elements share an id. */
  predicate DistinctIds(es: seq<Element>) {
    forall a, b :: 0 <= a < b < |es| ==> es[a].id != es[b].id
  }

  /** The last number of an id: a slat's segment, a fill or band piece. */
  function PieceNo(id: ElementId): nat {
    match id
    case SlatId(_, _, _, _, segment) => segment
    case FillId(_, _, piece) => piece
    case BandId(_, _, _, piece) => piece
  }

  /** The band number of a band id (0 for the others). */
  function GapNo(id: ElementId): nat {
    if id.BandId? then id.gap else 0
  }

  // ---------------------------------------------------------------------------
  // Insulation between vertical members
  // ---------------------------------------------------------------------------

  /** The pieces the kernel leaves of the panel once `occupied` and the openings are taken out. */
  function FillPieces(occupied: seq<Polygon>, k: Kernel): seq<Polygon> {
    CollectPolygons(k.fillAround(occupied))
  }

  /** `e` records the non-sliver piece its id numbers (from 1) among `polys`. */
  ghost predicate FillElement(e: Element, polys: seq<Polygon>, panel: string, layer: int, fillType: string, yMin: real, yMax: real) {
    && e.id.FillId?
    && 1 <= e.id.piece <= |polys|
    && !Sliver(polys[e.id.piece - 1].bounds)
    && e == PieceElement(polys[e.id.piece - 1], FillId(panel, layer, e.id.piece), fillType, layer, Surface, yMin, yMax)
  }

  /**
   * The insulation elements of a vertical layer: one per non-sliver piece of
   * `polys`, in piece order, numbered by the piece's place among all pieces
   * (from 1).
   */
  function FillElements(panel: string, layer: int, fillType: string, polys: seq<Polygon>,
                        yMin: real, yMax: real): seq<Element>
  {
    if polys == [] then []
    else
      var n := |polys| - 1;
      FillElements(panel, layer, fillType, polys[..n], yMin, yMax)
      + if Sliver(polys[n].bounds) then []
        else [PieceElement(polys[n], FillId(panel, layer, n + 1), fillType, layer, Surface, yMin, yMax)]
  }

  /** The last step of `FillElements`, written out. */
  lemma FillElementsSnoc(panel: string, layer: int, fillType: string, polys: seq<Polygon>, yMin: real, yMax: real)
    requires polys != []
    ensures var n := |polys| - 1;
      FillElements(panel, layer, fillType, polys, yMin, yMax)
      == FillElements(panel, layer, fillType, polys[..n], yMin, yMax)
         + if Sliver(polys[n].bounds) then []
           else [PieceElement(polys[n], FillId(panel, layer, n + 1), fillType, layer, Surface, yMin, yMax)]
  {
  }

  /**
   * Every insulation element records the non-sliver piece its id numbers,
   * and the numbers increase, staying within the piece count.
   */
  lemma {:induction false} FillElementsShape(panel: string, layer: int, fillType: string, polys: seq<Polygon>,
                                             yMin: real, yMax: real)
    ensures var es := FillElements(panel, layer, fillType, polys, yMin, yMax);
      && (forall n :: 0 <= n < |es| ==> FillElement(es[n], polys, panel, layer, fillType, yMin, yMax))
      && (forall a, b :: 0 <= a < b < |es| ==> PieceNo(es[a].id) < PieceNo(es[b].id))
    decreases |polys|
  {
    if polys != [] {
      var n := |polys| - 1;
      var prefix := polys[..n];
      FillElementsShape(panel, layer, fillType, prefix, yMin, yMax);
      FillElementsSnoc(panel, layer, fillType, polys, yMin, yMax);
      var es := FillElements(panel, layer, fillType, polys, yMin, yMax);
      var before := FillElements(panel, layer, fillType, prefix, yMin, yMax);
      forall m | 0 <= m < |es|
        ensures FillElement(es[m], polys, panel, layer, fillType, yMin, yMax) && PieceNo(es[m].id) <= n + 1
        ensures m < |before| ==> PieceNo(es[m].id) <= n
      {
        if m < |before| {
          assert es[m] == before[m];
          assert FillElement(before[m], prefix, panel, layer, fillType, yMin, yMax);
          assert prefix[PieceNo(es[m].id) - 1] == polys[PieceNo(es[m].id) - 1];
        }
      }
    }
  }

  /** Every non-sliver piece has its insulation element. */
  lemma {:induction false} FillElementsComplete(panel: string, layer: int, fillType: string, polys: seq<Polygon>,
                                                yMin: real, yMax: real)
    ensures var es := FillElements(panel, layer, fillType, polys, yMin, yMax);
      forall i :: 0 <= i < |polys| && !Sliver(polys[i].bounds) ==> FillId(panel, layer, i + 1) in Ids(es)
    decreases |polys|
  {
    if polys != [] {
      var n := |polys| - 1;
      var prefix := polys[..n];
      FillElementsComplete(panel, layer, fillType, prefix, yMin, yMax);
      FillElementsSnoc(panel, layer, fillType, polys, yMin, yMax);
      var es := FillElements(panel, layer, fillType, polys, yMin, yMax);
      var before := FillElements(panel, layer, fillType, prefix, yMin, yMax);
      assert Ids(before) <= Ids(es);
      forall i | 0 <= i < |polys| && !Sliver(polys[i].bounds)
        ensures FillId(panel, layer, i + 1) in Ids(es)
      {
        if i < n {
          assert prefix[i] == polys[i];
        } else {
          assert Ids(es)[|es| - 1] == FillId(panel, layer, i + 1);
        }
      }
    }
  }

  /**
   * The insulation of a vertical layer: the panel minus this layer's slat
   * pieces and the openings, one element per non-sliver piece, numbered by
   * the piece's place among all pieces (from 1).
   */
  method FillMembers(panel: string, layer: int, fillType: string, occupied: seq<Polygon>,
                     yMin: real, yMax: real, k: Kernel) returns (elements: seq<Element>)
    ensures elements == FillElements(panel, layer, fillType, FillPieces(occupied, k), yMin, yMax)
  {
    var polys := FillPieces(occupied, k);
    elements := [];
    for i := 0 to |polys|
      invariant elements == FillElements(panel, layer, fillType, polys[..i], yMin, yMax)
    {
      assert polys[..i + 1][..i] == polys[..i];
      var piece := polys[i];
      if !Sliver(piece.bounds) {
        elements := elements + [PieceElement(piece, FillId(panel, layer, i + 1), fillType, layer, Surface, yMin, yMax)];
      }
    }
    assert polys[..|polys|] == polys;
  }

  /** Ids whose numbers strictly increase are distinct. */
  lemma IncreasingPiecesDistinct(es: seq<Element>)
    requires forall a, b :: 0 <= a < b < |es| ==> PieceNo(es[a].id) < PieceNo(es[b].id)
    ensures DistinctIds(es)
  {
  }

  // ---------------------------------------------------------------------------
  // Insulation bands between horizontal members
  // ---------------------------------------------------------------------------

  /** How band pieces are named: as the layout engine names them, or with the piece number added. */
  datatype IdScheme = AsWritten | Corrected

  /**
   * The id of piece `piece` of band `gap`: the engine gives every piece of a
   * band the band's own `I{gap}`; the corrected scheme appends the piece number.
   */
  function BandPieceId(scheme: IdScheme, panel: string, layer: int, gap: nat, piece: nat): ElementId {
    match scheme
    case AsWritten => FillId(panel, layer, gap)
    case Corrected => BandId(panel, layer, gap, piece)
  }

  /** The full-width box of a gap band. */
  function BandBox(g: Interval, width: real): Box {
    Box(0.0, g.0, width, g.1)
  }

  /** The kernel's pieces of band `i`. */
  function BandPolys(gaps: seq<Interval>, i: nat, width: real, k: Kernel): seq<Polygon>
    requires i < |gaps|
  {
    CollectPolygons(k.cut(BandBox(gaps[i], width)))
  }

  /** The elements of the non-sliver pieces of band `gap`, in piece order, pieces numbered from 1. */
  function GapElements(scheme: IdScheme, panel: string, layer: int, fillType: string, gap: nat,
                       polys: seq<Polygon>, yMin: real, yMax: real): seq<Element>
  {
    if polys == [] then []
    else
      var n := |polys| - 1;
      GapElements(scheme, panel, layer, fillType, gap, polys[..n], yMin, yMax)
      + if Sliver(polys[n].bounds) then []
        else [PieceElement(polys[n], BandPieceId(scheme, panel, layer, gap, n + 1), fillType, layer, Surface, yMin, yMax)]
  }

  /** The elements of every band, band after band, bands numbered from 1. */
  function BandElements(scheme: IdScheme, panel: string, layer: int, fillType: string,
                        gaps: seq<Interval>, width: real, k: Kernel, yMin: real, yMax: real): seq<Element>
  {
    if gaps == [] then []
    else
      var n := |gaps| - 1;
      BandElements(scheme, panel, layer, fillType, gaps[..n], width, k, yMin, yMax)
      + GapElements(scheme, panel, layer, fillType, n + 1, BandPolys(gaps, n, width, k), yMin, yMax)
  }

  /** The band loop of a horizontal layer, with band pieces named by the corrected scheme. */
  method BandMembers(panel: string, layer: int, fillType: string, gaps: seq<Interval>, width: real,
                     yMin: real, yMax: real, k: Kernel) returns (elements: seq<Element>)
    ensures elements == BandElements(Corrected, panel, layer, fillType, gaps, width, k, yMin, yMax)
  {
    elements := [];
    for g := 0 to |gaps|
      invariant elements == BandElements(Corrected, panel, layer, fillType, gaps[..g], width, k, yMin, yMax)
    {
      assert gaps[..g + 1][..g] == gaps[..g];
      assert BandPolys(gaps[..g + 1], g, width, k) == BandPolys(gaps, g, width, k);
      var polys := BandPolys(gaps, g, width, k);
      var before := elements;
      for j := 0 to |polys|
        invariant elements == before + GapElements(Corrected, panel, layer, fillType, g + 1, polys[..j], yMin, yMax)
      {
        assert polys[..j + 1][..j] == polys[..j];
        var piece := polys[j];
        if !Sliver(piece.bounds) {
          elements := elements + [PieceElement(piece, BandId(panel, layer, g + 1, j + 1), fillType, layer, Surface, yMin, yMax)];
        }
      }
      assert polys[..|polys|] == polys;
    }
    assert gaps[..|gaps|] == gaps;
  }

  /** `e` records the non-sliver piece number `e.id.piece` (from 1) of `polys`, in band `gap`. */
  ghost predicate GapPiece(e: Element, polys: seq<Polygon>, panel: string, layer: int, gap: nat,
                           fillType: string, yMin: real, yMax: real) {
    && e.id == BandId(panel, layer, gap, PieceNo(e.id))
    && 1 <= PieceNo(e.id) <= |polys|
    && !Sliver(polys[PieceNo(e.id) - 1].bounds)
    && e == PieceElement(polys[PieceNo(e.id) - 1], e.id, fillType, layer, Surface, yMin, yMax)
  }

  /** The last step of `GapElements`, written out. */
  lemma GapElementsSnoc(scheme: IdScheme, panel: string, layer: int, fillType: string, gap: nat,
                        polys: seq<Polygon>, yMin: real, yMax: real)
    requires polys != []
    ensures var n := |polys| - 1;
      GapElements(scheme, panel, layer, fillType, gap, polys, yMin, yMax)
      == GapElements(scheme, panel, layer, fillType, gap, polys[..n], yMin, yMax)
         + if Sliver(polys[n].bounds) then []
           else [PieceElement(polys[n], BandPieceId(scheme, panel, layer, gap, n + 1), fillType, layer, Surface, yMin, yMax)]
  {
  }

  /** Every corrected element of a band records a non-sliver piece of the band, under its own number. */
  lemma {:induction false} GapElementsShape(panel: string, layer: int, fillType: string, gap: nat,
                                            polys: seq<Polygon>, yMin: real, yMax: real)
    ensures var es := GapElements(Corrected, panel, layer, fillType, gap, polys, yMin, yMax);
      forall n :: 0 <= n < |es| ==> GapPiece(es[n], polys, panel, layer, gap, fillType, yMin, yMax)
    decreases |polys|
  {
    if polys != [] {
      var n := |polys| - 1;
      var prefix := polys[..n];
      GapElementsShape(panel, layer, fillType, gap, prefix, yMin, yMax);
      GapElementsSnoc(Corrected, panel, layer, fillType, gap, polys, yMin, yMax);
      var es := GapElements(Corrected, panel, layer, fillType, gap, polys, yMin, yMax);
      var before := GapElements(Corrected, panel, layer, fillType, gap, prefix, yMin, yMax);
      forall m | 0 <= m < |es|
        ensures GapPiece(es[m], polys, panel, layer, gap, fillType, yMin, yMax)
      {
        if m < |before| {
          assert es[m] == before[m];
          assert GapPiece(before[m], prefix, panel, layer, gap, fillType, yMin, yMax);
          assert prefix[PieceNo(es[m].id) - 1] == polys[PieceNo(es[m].id) - 1];
        }
      }
    }
  }

  /** Corrected piece numbers within a band run from 1 to the piece count and increase. */
  lemma {:induction false} GapElementsIncreasing(panel: string, layer: int, fillType: string, gap: nat,
                                                 polys: seq<Polygon>, yMin: real, yMax: real)
    ensures var es := GapElements(Corrected, panel, layer, fillType, gap, polys, yMin, yMax);
      && (forall n :: 0 <= n < |es| ==> GapNo(es[n].id) == gap && 1 <= PieceNo(es[n].id) <= |polys|)
      && (forall a, b :: 0 <= a < b < |es| ==> PieceNo(es[a].id) < PieceNo(es[b].id))
    decreases |polys|
  {
    if polys != [] {
      var n := |polys| - 1;
      GapElementsIncreasing(panel, layer, fillType, gap, polys[..n], yMin, yMax);
      GapElementsSnoc(Corrected, panel, layer, fillType, gap, polys, yMin, yMax);
    }
  }

  /** Every non-sliver piece of a band has its corrected element. */
  lemma {:induction false} GapElementsComplete(panel: string, layer: int, fillType: string, gap: nat,
                                               polys: seq<Polygon>, yMin: real, yMax: real)
    ensures var es := GapElements(Corrected, panel, layer, fillType, gap, polys, yMin, yMax);
      forall i :: 0 <= i < |polys| && !Sliver(polys[i].bounds) ==> BandId(panel, layer, gap, i + 1) in Ids(es)
    decreases |polys|
  {
    if polys != [] {
      var n := |polys| - 1;
      var prefix := polys[..n];
      GapElementsComplete(panel, layer, fillType, gap, prefix, yMin, yMax);
      GapElementsSnoc(Corrected, panel, layer, fillType, gap, polys, yMin, yMax);
      var es := GapElements(Corrected, panel, layer, fillType, gap, polys, yMin, yMax);
      var before := GapElements(Corrected, panel, layer, fillType, gap, prefix, yMin, yMax);
      assert Ids(before) <= Ids(es);
      forall i | 0 <= i < |polys| && !Sliver(polys[i].bounds)
        ensures BandId(panel, layer, gap, i + 1) in Ids(es)
      {
        if i < n {
          assert prefix[i] == polys[i];
        } else {
          assert Ids(es)[|es| - 1] == BandId(panel, layer, gap, i + 1);
        }
      }
    }
  }

  /** The last step of `BandElements`, written out. */
  lemma BandElementsSnoc(scheme: IdScheme, panel: string, layer: int, fillType: string,
                         gaps: seq<Interval>, width: real, k: Kernel, yMin: real, yMax: real)
    requires gaps != []
    ensures var n := |gaps| - 1;
      BandElements(scheme, panel, layer, fillType, gaps, width, k, yMin, yMax)
      == BandElements(scheme, panel, layer, fillType, gaps[..n], width, k, yMin, yMax)
         + GapElements(scheme, panel, layer, fillType, n + 1, BandPolys(gaps, n, width, k), yMin, yMax)
  {
  }

  /** `e` records a non-sliver piece of the band its id numbers, under the piece number its id carries. */
  ghost predicate BandElement(e: Element, gaps: seq<Interval>, width: real, k: Kernel,
                              panel: string, layer: int, fillType: string, yMin: real, yMax: real) {
    && 1 <= GapNo(e.id) <= |gaps|
    && GapPiece(e, BandPolys(gaps, GapNo(e.id) - 1, width, k), panel, layer, GapNo(e.id), fillType, yMin, yMax)
  }

  /** Corrected band ids in emission order: by band, then by piece. */
  predicate BandBefore(x: ElementId, y: ElementId) {
    GapNo(x) < GapNo(y) || (GapNo(x) == GapNo(y) && PieceNo(x) < PieceNo(y))
  }

  /** Every corrected band element records a non-sliver piece of the band and piece its id names. */
  lemma {:induction false} BandElementsShape(panel: string, layer: int, fillType: string,
                                             gaps: seq<Interval>, width: real, k: Kernel, yMin: real, yMax: real)
    ensures var es := BandElements(Corrected, panel, layer, fillType, gaps, width, k, yMin, yMax);
      forall n :: 0 <= n < |es| ==> BandElement(es[n], gaps, width, k, panel, layer, fillType, yMin, yMax)
    decreases |gaps|
  {
    if gaps != [] {
      var n := |gaps| - 1;
      var prefix := gaps[..n];
      BandElementsShape(panel, layer, fillType, prefix, width, k, yMin, yMax);
      BandElementsSnoc(Corrected, panel, layer, fillType, gaps, width, k, yMin, yMax);
      var polys := BandPolys(gaps, n, width, k);
      GapElementsShape(panel, layer, fillType, n + 1, polys, yMin, yMax);
      var es := BandElements(Corrected, panel, layer, fillType, gaps, width, k, yMin, yMax);
      var before := BandElements(Corrected, panel, layer, fillType, prefix, width, k, yMin, yMax);
      var last := GapElements(Corrected, panel, layer, fillType, n + 1, polys, yMin, yMax);
      forall m | 0 <= m < |es|
        ensures BandElement(es[m], gaps, width, k, panel, layer, fillType, yMin, yMax)
      {
        if m < |before| {
          assert es[m] == before[m];
          assert BandElement(before[m], prefix, width, k, panel, layer, fillType, yMin, yMax);
          var g := GapNo(es[m].id) - 1;
          assert prefix[g] == gaps[g];
          assert BandPolys(prefix, g, width, k) == BandPolys(gaps, g, width, k);
        } else {
          assert es[m] == last[m - |before|];
          assert GapPiece(last[m - |before|], polys, panel, layer, n + 1, fillType, yMin, yMax);
        }
      }
    }
  }

  /** Corrected band ids come out in band order, then piece order. */
  lemma {:induction false} BandElementsOrdered(panel: string, layer: int, fillType: string,
                                               gaps: seq<Interval>, width: real, k: Kernel, yMin: real, yMax: real)
    ensures var es := BandElements(Corrected, panel, layer, fillType, gaps, width, k, yMin, yMax);
      && (forall n :: 0 <= n < |es| ==> 1 <= GapNo(es[n].id) <= |gaps|)
      && (forall a, b :: 0 <= a < b < |es| ==> BandBefore(es[a].id, es[b].id))
    decreases |gaps|
  {
    if gaps != [] {
      var n := |gaps| - 1;
      BandElementsOrdered(panel, layer, fillType, gaps[..n], width, k, yMin, yMax);
      BandElementsSnoc(Corrected, panel, layer, fillType, gaps, width, k, yMin, yMax);
      GapElementsIncreasing(panel, layer, fillType, n + 1, BandPolys(gaps, n, width, k), yMin, yMax);
    }
  }

  /** Every non-sliver piece of every band has its corrected element. */
  lemma {:induction false} BandElementsComplete(panel: string, layer: int, fillType: string,
                                                gaps: seq<Interval>, width: real, k: Kernel, yMin: real, yMax: real)
    ensures var es := BandElements(Corrected, panel, layer, fillType, gaps, width, k, yMin, yMax);
      forall g, i :: 0 <= g < |gaps| && 0 <= i < |BandPolys(gaps, g, width, k)| && !Sliver(BandPolys(gaps, g, width, k)[i].bounds)
        ==> BandId(panel, layer, g + 1, i + 1) in Ids(es)
    decreases |gaps|
  {
    if gaps != [] {
      var n := |gaps| - 1;
      var prefix := gaps[..n];
      BandElementsComplete(panel, layer, fillType, prefix, width, k, yMin, yMax);
      BandElementsSnoc(Corrected, panel, layer, fillType, gaps, width, k, yMin, yMax);
      var polys := BandPolys(gaps, n, width, k);
      GapElementsComplete(panel, layer, fillType, n + 1, polys, yMin, yMax);
      var es := BandElements(Corrected, panel, layer, fillType, gaps, width, k, yMin, yMax);
      var before := BandElements(Corrected, panel, layer, fillType, prefix, width, k, yMin, yMax);
      var last := GapElements(Corrected, panel, layer, fillType, n + 1, polys, yMin, yMax);
      assert Ids(es) == Ids(before) + Ids(last);
      forall g, i | 0 <= g < |gaps| && 0 <= i < |BandPolys(gaps, g, width, k)| && !Sliver(BandPolys(gaps, g, width, k)[i].bounds)
        ensures BandId(panel, layer, g + 1, i + 1) in Ids(es)
      {
        if g < n {
          assert prefix[g] == gaps[g];
          assert BandPolys(prefix, g, width, k) == BandPolys(gaps, g, width, k);
          assert BandId(panel, layer, g + 1, i + 1) in Ids(before);
        } else {
          assert BandId(panel, layer, g + 1, i + 1) in Ids(last);
        }
      }
    }
  }

  /** With the piece number in the id, no two band elements of a layer share an id. */
  lemma BandIdsDistinct(panel: string, layer: int, fillType: string,
                        gaps: seq<Interval>, width: real, k: Kernel, yMin: real, yMax: real)
    ensures DistinctIds(BandElements(Corrected, panel, layer, fillType, gaps, width, k, yMin, yMax))
  {
    BandElementsOrdered(panel, layer, fillType, gaps, width, k, yMin, yMax);
  }

  /** A two-piece collection flattens to its two pieces, in order. */
  lemma TwoPieces(left: Polygon, right: Polygon)
    ensures CollectPolygons(Collection([Poly(left), Poly(right)])) == [left, right]
  {
    CollectionInOrder([Poly(left)], right);
    assert [Poly(left)] + [Poly(right)] == [Poly(left), Poly(right)];
    assert CollectParts([Poly(left)]) == [left] + CollectParts([]);
  }

  /** As the engine names them, the two non-sliver pieces of a band both take the band's id. */
  lemma TwoPiecesAsWritten(panel: string, layer: int, fillType: string, gap: nat,
                           left: Polygon, right: Polygon, yMin: real, yMax: real)
    requires !Sliver(left.bounds) && !Sliver(right.bounds)
    ensures GapElements(AsWritten, panel, layer, fillType, gap, [left, right], yMin, yMax)
      == [PieceElement(left, FillId(panel, layer, gap), fillType, layer, Surface, yMin, yMax),
          PieceElement(right, FillId(panel, layer, gap), fillType, layer, Surface, yMin, yMax)]
  {
    GapElementsSnoc(AsWritten, panel, layer, fillType, gap, [left, right], yMin, yMax);
    assert [left, right][..1] == [left];
    GapElementsSnoc(AsWritten, panel, layer, fillType, gap, [left], yMin, yMax);
    assert [left][..0] == [];
  }

  /** One band: its elements are those of its pieces, numbered as band 1. */
  lemma OneBand(scheme: IdScheme, panel: string, layer: int, fillType: string,
                g: Interval, width: real, k: Kernel, yMin: real, yMax: real)
    ensures BandElements(scheme, panel, layer, fillType, [g], width, k, yMin, yMax)
      == GapElements(scheme, panel, layer, fillType, 1, CollectPolygons(k.cut(BandBox(g, width))), yMin, yMax)
  {
    BandElementsSnoc(scheme, panel, layer, fillType, [g], width, k, yMin, yMax);
    assert [g][..0] == [];
  }

  /** The left piece of the split band in `BandIdsCollide`. */
  function SplitLeft(): Polygon { Polygon(Box(0.0, 0.0, 1.0, 0.5), 0.5, true) }

  /** The right piece of the split band in `BandIdsCollide`. */
  function SplitRight(): Polygon { Polygon(Box(2.0, 0.0, 3.0, 0.5), 0.5, true) }

  /** A kernel whose openings split every band into the same two pieces. */
  function SplitKernel(): Kernel {
    Kernel(b => Collection([Poly(SplitLeft()), Poly(SplitRight())]), occupied => Empty)
  }

  /**
   * As the engine names them, two pieces of one band share an id: a single
   * gap whose band the openings split into two pieces, each 1 wide and 0.5
   * high, gives two elements both named `I1`.
   */
  lemma BandIdsCollide()
    ensures var es := BandElements(AsWritten, "W1", 2, "insulation", [(0.0, 0.5)], 3.0, SplitKernel(), 30.0, 60.0);
      && |es| == 2
      && es[0].id == FillId("W1", 2, 1)
      && es[1].id == FillId("W1", 2, 1)
      && !DistinctIds(es)
  {
    var k := SplitKernel();
    var left, right := SplitLeft(), SplitRight();
    assert k.cut(BandBox((0.0, 0.5), 3.0)) == Collection([Poly(left), Poly(right)]);
    TwoPieces(left, right);
    OneBand(AsWritten, "W1", 2, "insulation", (0.0, 0.5), 3.0, k, 30.0, 60.0);
    assert !Sliver(left.bounds) && !Sliver(right.bounds);
    TwoPiecesAsWritten("W1", 2, "insulation", 1, left, right, 30.0, 60.0);
    var es := BandElements(AsWritten, "W1", 2, "insulation", [(0.0, 0.5)], 3.0, k, 30.0, 60.0);
    var e0 := PieceElement(left, FillId("W1", 2, 1), "insulation", 2, Surface, 30.0, 60.0);
    var e1 := PieceElement(right, FillId("W1", 2, 1), "insulation", 2, Surface, 30.0, 60.0);
    assert es == [e0, e1];
  }

  // ---------------------------------------------------------------------------
  // One layer: members and the fill between them
  // ---------------------------------------------------------------------------

  /** The bands left between the traverses of a layer: slat intervals sorted, merged, then their gaps. */
  function LayerGaps(positions: seq<real>, height: real, slatWidth: real): seq<Interval> {
    Gaps(Merge(SortByStart(Spans(positions, height, slatWidth)), MergeEps), height, MergeEps)
  }

  /**
   * The insulation bands of a layer lie inside the panel's height, are longer
   * than the merge tolerance, come in increasing order, overlap no slat, and
   * with the slats reach every height to within the tolerance.
   */
  lemma LayerGapsPartition(positions: seq<real>, height: real, slatWidth: real)
    requires positions != [] && 0.0 <= height && 0.0 <= slatWidth
    ensures var gaps := LayerGaps(positions, height, slatWidth);
      var spans := Spans(positions, height, slatWidth);
      && (forall i :: 0 <= i < |gaps| ==> 0.0 <= gaps[i].0 && gaps[i].0 + MergeEps < gaps[i].1 <= height)
      && (forall i :: 0 <= i < |gaps| - 1 ==> gaps[i].1 <= gaps[i + 1].0)
      && (forall i, j :: 0 <= i < |gaps| && 0 <= j < |spans| ==> gaps[i].1 <= spans[j].0 || spans[j].1 <= gaps[i].0)
      && (forall z :: 0.0 <= z <= height ==>
            Near(z, Merge(SortByStart(spans), MergeEps), MergeEps) || Near(z, gaps, MergeEps))
  {
    var spans := Spans(positions, height, slatWidth);
    BandsPartition(spans, height, MergeEps);
    var sorted := SortByStart(spans);
    var merged := Merge(sorted, MergeEps);
    SpansAvoided(spans, sorted, merged, Gaps(merged, height, MergeEps));
  }

  /**
   * Gaps that overlap no merged interval overlap none of the intervals the
   * merge swallowed either.
   */
  lemma SpansAvoided(spans: seq<Interval>, sorted: seq<Interval>, merged: seq<Interval>, gaps: seq<Interval>)
    requires multiset(sorted) == multiset(spans)
    requires forall s :: 0 <= s < |sorted| ==> Contained(sorted[s], merged)
    requires forall i, m :: 0 <= i < |gaps| && 0 <= m < |merged| ==> gaps[i].1 <= merged[m].0 || merged[m].1 <= gaps[i].0
    ensures forall i, j :: 0 <= i < |gaps| && 0 <= j < |spans| ==> gaps[i].1 <= spans[j].0 || spans[j].1 <= gaps[i].0
  {
    forall i, j | 0 <= i < |gaps| && 0 <= j < |spans|
      ensures gaps[i].1 <= spans[j].0 || spans[j].1 <= gaps[i].0
    {
      assert spans[j] in multiset(sorted);
      var s :| 0 <= s < |sorted| && sorted[s] == spans[j];
      var m :| 0 <= m < |merged| && merged[m].0 <= spans[j].0 && spans[j].1 <= merged[m].1;
      assert gaps[i].1 <= merged[m].0 || merged[m].1 <= gaps[i].0;
    }
  }

  /** The four parts of the slat loop's promise, about one layer's slats. */
  ghost predicate SlatLayer(slats: seq<Element>, pieces: seq<Polygon>, panel: string, layer: int, run: Run,
                            positions: seq<real>, width: real, height: real, slatWidth: real,
                            yMin: real, yMax: real, slatType: string, k: Kernel) {
    && |slats| == |pieces|
    && (forall n :: 0 <= n < |slats| ==>
          SlatElement(slats[n], pieces[n], n, panel, layer, run, positions, width, height, slatWidth, yMin, yMax, slatType, k))
    && DistinctIds(slats)
    && (forall i, piece ::
          0 <= i < |positions| && piece in SlatPieces(run, positions, i, width, height, slatWidth, k) && !Sliver(piece.bounds)
          ==> Emitted(slats, pieces, piece, i))
  }

  /** The three parts of the vertical insulation loop's promise. */
  ghost predicate FillLayer(fill: seq<Element>, polys: seq<Polygon>, panel: string, layer: int,
                            fillType: string, yMin: real, yMax: real) {
    && (forall n :: 0 <= n < |fill| ==> FillElement(fill[n], polys, panel, layer, fillType, yMin, yMax))
    && (forall a, b :: 0 <= a < b < |fill| ==> PieceNo(fill[a].id) < PieceNo(fill[b].id))
    && (forall i :: 0 <= i < |polys| && !Sliver(polys[i].bounds) ==> FillId(panel, layer, i + 1) in Ids(fill))
  }

  /**
   * The fill of a layer: nothing when insulation is not asked for; around
   * the posts of an odd layer, one element per non-sliver piece the kernel
   * leaves of the panel once the slat pieces and the openings are taken out;
   * between the traverses of an even layer, the insulation bands.
   */
  function LayerFill(panel: string, layer: int, run: Run, positions: seq<real>, width: real, height: real,
                     slatWidth: real, yMin: real, yMax: real, fillType: string, includeInsulation: bool,
                     pieces: seq<Polygon>, k: Kernel): seq<Element>
  {
    if !includeInsulation then []
    else
      match run
      case Posts => FillElements(panel, layer, fillType, FillPieces(pieces, k), yMin, yMax)
      case Traverses => BandElements(Corrected, panel, layer, fillType, LayerGaps(positions, height, slatWidth), width, k, yMin, yMax)
  }

  /** Everything one layer holds: its slats in emission order, then its fill. */
  function LayerElements(panel: string, layer: int, run: Run, positions: seq<real>, width: real, height: real,
                         slatWidth: real, yMin: real, yMax: real, slatType: string, fillType: string,
                         includeInsulation: bool, k: Kernel): seq<Element>
  {
    var tagged := LayerSlatRun(run, positions, width, height, slatWidth, k);
    SlatElements(tagged, panel, layer, run, slatType, yMin, yMax)
    + LayerFill(panel, layer, run, positions, width, height, slatWidth, yMin, yMax, fillType, includeInsulation, PiecesOf(tagged), k)
  }

  /** `slats`, `pieces` and `fill` are exactly the slats, their pieces and the fill of one layer. */
  ghost predicate MembersOf(slats: seq<Element>, pieces: seq<Polygon>, fill: seq<Element>,
                            panel: string, layer: int, run: Run, positions: seq<real>,
                            width: real, height: real, slatWidth: real, yMin: real, yMax: real,
                            slatType: string, fillType: string, includeInsulation: bool, k: Kernel) {
    var tagged := LayerSlatRun(run, positions, width, height, slatWidth, k);
    && slats == SlatElements(tagged, panel, layer, run, slatType, yMin, yMax)
    && pieces == PiecesOf(tagged)
    && fill == LayerFill(panel, layer, run, positions, width, height, slatWidth, yMin, yMax, fillType, includeInsulation, pieces, k)
  }

  /** Every element belongs to the layer: its id names the panel and layer, and it spans the layer's y-range. */
  ghost predicate Placed(es: seq<Element>, panel: string, layer: int, yMin: real, yMax: real) {
    forall n :: 0 <= n < |es| ==>
      && es[n].layer == layer && es[n].yMin == yMin && es[n].yMax == yMax
      && es[n].id.panel == panel && es[n].id.layer == layer
  }

  /** Slats carry slat ids, the slat type and their run's orientation; fill pieces the fill type and no slat id. */
  ghost predicate Typed(slats: seq<Element>, fill: seq<Element>, run: Run, slatType: string, fillType: string) {
    && (forall n :: 0 <= n < |slats| ==>
          slats[n].id.SlatId? && slats[n].id.run == run && slats[n].elementType == slatType && slats[n].orientation == RunOrientation(run))
    && (forall n :: 0 <= n < |fill| ==>
          !fill[n].id.SlatId? && fill[n].elementType == fillType && fill[n].orientation == Surface)
  }

  lemma SlatsPlaced(slats: seq<Element>, pieces: seq<Polygon>, panel: string, layer: int, run: Run,
                    positions: seq<real>, width: real, height: real, slatWidth: real,
                    yMin: real, yMax: real, slatType: string, k: Kernel)
    requires SlatLayer(slats, pieces, panel, layer, run, positions, width, height, slatWidth, yMin, yMax, slatType, k)
    ensures Placed(slats, panel, layer, yMin, yMax)
    ensures Typed(slats, [], run, slatType, "")
  {
    forall n | 0 <= n < |slats|
      ensures slats[n].layer == layer && slats[n].yMin == yMin && slats[n].yMax == yMax
      ensures slats[n].id.panel == panel && slats[n].id.layer == layer
      ensures slats[n].id.SlatId? && slats[n].id.run == run
      ensures slats[n].elementType == slatType && slats[n].orientation == RunOrientation(run)
    {
      assert SlatElement(slats[n], pieces[n], n, panel, layer, run, positions, width, height, slatWidth, yMin, yMax, slatType, k);
    }
  }

  lemma FillPlaced(fill: seq<Element>, polys: seq<Polygon>, panel: string, layer: int,
                   fillType: string, yMin: real, yMax: real)
    requires FillLayer(fill, polys, panel, layer, fillType, yMin, yMax)
    ensures Placed(fill, panel, layer, yMin, yMax)
    ensures Typed([], fill, Posts, "", fillType)
    ensures DistinctIds(fill)
  {
    forall n | 0 <= n < |fill|
      ensures fill[n].layer == layer && fill[n].yMin == yMin && fill[n].yMax == yMax
      ensures fill[n].id.panel == panel && fill[n].id.layer == layer
      ensures !fill[n].id.SlatId? && fill[n].elementType == fillType && fill[n].orientation == Surface
    {
      assert FillElement(fill[n], polys, panel, layer, fillType, yMin, yMax);
    }
  }

  lemma BandsPlaced(panel: string, layer: int, fillType: string,
                    gaps: seq<Interval>, width: real, k: Kernel, yMin: real, yMax: real)
    ensures var fill := BandElements(Corrected, panel, layer, fillType, gaps, width, k, yMin, yMax);
      && Placed(fill, panel, layer, yMin, yMax)
      && Typed([], fill, Traverses, "", fillType)
      && DistinctIds(fill)
  {
    var fill := BandElements(Corrected, panel, layer, fillType, gaps, width, k, yMin, yMax);
    BandElementsShape(panel, layer, fillType, gaps, width, k, yMin, yMax);
    BandIdsDistinct(panel, layer, fillType, gaps, width, k, yMin, yMax);
    forall n | 0 <= n < |fill|
      ensures fill[n].layer == layer && fill[n].yMin == yMin && fill[n].yMax == yMax
      ensures fill[n].id.panel == panel && fill[n].id.layer == layer
      ensures !fill[n].id.SlatId? && fill[n].elementType == fillType && fill[n].orientation == Surface
    {
      assert BandElement(fill[n], gaps, width, k, panel, layer, fillType, yMin, yMax);
    }
  }

  /** Slats and fill of a layer never share an id: their ids are of different kinds. */
  lemma LayerDistinct(slats: seq<Element>, fill: seq<Element>, run: Run, slatType: string, fillType: string)
    requires DistinctIds(slats) && DistinctIds(fill)
    requires Typed(slats, [], run, slatType, "") && Typed([], fill, run, "", fillType)
    ensures DistinctIds(slats + fill)
    ensures Typed(slats, fill, run, slatType, fillType)
  {
    var es := slats + fill;
    forall a, b | 0 <= a < b < |es|
      ensures es[a].id != es[b].id
    {
      if b < |slats| {
        assert es[a] == slats[a] && es[b] == slats[b];
      } else if a >= |slats| {
        assert es[a] == fill[a - |slats|] && es[b] == fill[b - |slats|];
      } else {
        assert es[a] == slats[a] && es[b] == fill[b - |slats|];
      }
    }
  }

  /**
   * The fill of a layer is placed on it, typed as fill, under distinct ids;
   * around posts it is what the insulation loop promises.
   */
  lemma LayerFillFacts(panel: string, layer: int, run: Run, positions: seq<real>,
                       width: real, height: real, slatWidth: real, yMin: real, yMax: real,
                       fillType: string, includeInsulation: bool, pieces: seq<Polygon>, k: Kernel)
    ensures var fill := LayerFill(panel, layer, run, positions, width, height, slatWidth, yMin, yMax, fillType, includeInsulation, pieces, k);
      && (includeInsulation && run == Posts ==> FillLayer(fill, FillPieces(pieces, k), panel, layer, fillType, yMin, yMax))
      && Placed(fill, panel, layer, yMin, yMax)
      && Typed([], fill, run, "", fillType)
      && DistinctIds(fill)
  {
    if includeInsulation {
      match run
      case Posts =>
        var polys := FillPieces(pieces, k);
        var fill := FillElements(panel, layer, fillType, polys, yMin, yMax);
        FillElementsShape(panel, layer, fillType, polys, yMin, yMax);
        FillElementsComplete(panel, layer, fillType, polys, yMin, yMax);
        FillPlaced(fill, polys, panel, layer, fillType, yMin, yMax);
      case Traverses =>
        BandsPlaced(panel, layer, fillType, LayerGaps(positions, height, slatWidth), width, k, yMin, yMax);
    }
  }

  /** Two lists placed on a layer make one placed on it. */
  lemma PlacedAppend(a: seq<Element>, b: seq<Element>, panel: string, layer: int, yMin: real, yMax: real)
    requires Placed(a, panel, layer, yMin, yMax) && Placed(b, panel, layer, yMin, yMax)
    ensures Placed(a + b, panel, layer, yMin, yMax)
  {
    var es := a + b;
    forall n | 0 <= n < |es|
      ensures es[n].layer == layer && es[n].yMin == yMin && es[n].yMax == yMax
      ensures es[n].id.panel == panel && es[n].id.layer == layer
    {
      if n < |a| { assert es[n] == a[n]; } else { assert es[n] == b[n - |a|]; }
    }
  }

  /**
   * What the two loops of a layer promise together: the slat loop's facts,
   * the insulation loop's facts around posts, and every element of the layer
   * placed on it, typed by its kind, under an id no other element shares.
   */
  lemma LayerFacts(panel: string, layer: int, run: Run, positions: seq<real>,
                   width: real, height: real, slatWidth: real, yMin: real, yMax: real,
                   slatType: string, fillType: string, includeInsulation: bool, k: Kernel)
    ensures var tagged := LayerSlatRun(run, positions, width, height, slatWidth, k);
      var slats := SlatElements(tagged, panel, layer, run, slatType, yMin, yMax);
      var fill := LayerFill(panel, layer, run, positions, width, height, slatWidth, yMin, yMax, fillType, includeInsulation, PiecesOf(tagged), k);
      && SlatLayer(slats, PiecesOf(tagged), panel, layer, run, positions, width, height, slatWidth, yMin, yMax, slatType, k)
      && (includeInsulation && run == Posts ==> FillLayer(fill, FillPieces(PiecesOf(tagged), k), panel, layer, fillType, yMin, yMax))
      && Placed(slats + fill, panel, layer, yMin, yMax)
      && Typed(slats, fill, run, slatType, fillType)
      && DistinctIds(slats + fill)
  {
    var tagged := LayerSlatRun(run, positions, width, height, slatWidth, k);
    var slats := SlatElements(tagged, panel, layer, run, slatType, yMin, yMax);
    var pieces := PiecesOf(tagged);
    var fill := LayerFill(panel, layer, run, positions, width, height, slatWidth, yMin, yMax, fillType, includeInsulation, pieces, k);
    SlatRunLayer(panel, layer, run, positions, width, height, slatWidth, yMin, yMax, slatType, k);
    SlatsPlaced(slats, pieces, panel, layer, run, positions, width, height, slatWidth, yMin, yMax, slatType, k);
    LayerFillFacts(panel, layer, run, positions, width, height, slatWidth, yMin, yMax, fillType, includeInsulation, pieces, k);
    LayerDistinct(slats, fill, run, slatType, fillType);
    PlacedAppend(slats, fill, panel, layer, yMin, yMax);
  }

  /**
   * One layer of members: the slat loop, then the insulation loop its
   * orientation calls for. The result is exactly the layer's slats, their
   * pieces and its fill.
   */
  method LayerMembers(panel: string, layer: int, run: Run, positions: seq<real>,
                      width: real, height: real, slatWidth: real, yMin: real, yMax: real,
                      slatType: string, fillType: string, includeInsulation: bool, k: Kernel)
    returns (slats: seq<Element>, pieces: seq<Polygon>, fill: seq<Element>)
    ensures MembersOf(slats, pieces, fill, panel, layer, run, positions, width, height, slatWidth,
                      yMin, yMax, slatType, fillType, includeInsulation, k)
    ensures slats + fill == LayerElements(panel, layer, run, positions, width, height, slatWidth,
                                          yMin, yMax, slatType, fillType, includeInsulation, k)
  {
    slats, pieces := SlatMembers(panel, layer, run, positions, width, height, slatWidth, yMin, yMax, slatType, k);
    fill := [];
    if includeInsulation {
      match run
      case Posts =>
        fill := FillMembers(panel, layer, fillType, pieces, yMin, yMax, k);
      case Traverses =>
        var ivs := SlatIntervals(positions, height, slatWidth);
        var merged := MergeIntervals(SortByStart(ivs), MergeEps);
        var gaps := ComputeGaps(merged, height, MergeEps);
        fill := BandMembers(panel, layer, fillType, gaps, width, yMin, yMax, k);
    }
  }
}
