/**
 * The cross-laminated lattice of a panel: a thickness profile gives the
 * layers, odd layers carry posts at the post positions, even layers carry
 * traverses at the traverse positions, and each layer may be filled with
 * insulation around its members.
 */
module Lattice {
  import opened Results
  import opened Geometry
  import opened Openings
  import opened Positions
  import opened Thickness
  import opened Bands
  import opened Layout

  /** The parameters of the lattice that callers choose. */
  datatype LatticeConfig = LatticeConfig(
    verticalPitch: real, horizontalPitch: real, slatWidth: real,
    panelType: string, includeInsulation: bool)

  /** A generated lattice: its elements, the two position lists and each layer's y-range. */
  datatype LatticeLayout = LatticeLayout(
    elements: seq<Element>, postPositions: seq<real>,
    traversePositions: seq<real>, layerRanges: seq<(real, real)>)
  {
    /** `elements_of_type`: the elements of one type, in order. */
    function ElementsOfType(elementType: string): (r: seq<Element>)
      ensures forall e :: e in r <==> e in elements && e.elementType == elementType
      ensures |r| <= |elements|
    {
      OfType(elements, elementType)
    }
  }

  /** The elements of one type, in order. */
  function OfType(es: seq<Element>, elementType: string): (r: seq<Element>)
    ensures forall e {:trigger e in r} :: e in r <==> e in es && e.elementType == elementType
    ensures |r| <= |es|
  {
    if es == [] then []
    else
      var n := |es| - 1;
      OfType(es[..n], elementType) + if es[n].elementType == elementType then [es[n]] else []
  }

  /** Filtering by type distributes over concatenation. */
  lemma {:induction false} OfTypeAppend(a: seq<Element>, b: seq<Element>, elementType: string)
    ensures OfType(a + b, elementType) == OfType(a, elementType) + OfType(b, elementType)
    decreases |b|
  {
    if b == [] {
      assert a + b == a;
    } else {
      var n := |b| - 1;
      var ab := a + b;
      assert ab[..|ab| - 1] == a + b[..n];
      assert ab[|ab| - 1] == b[n];
      var last := if b[n].elementType == elementType then [b[n]] else [];
      assert OfType(ab, elementType) == OfType(a + b[..n], elementType) + last;
      assert OfType(b, elementType) == OfType(b[..n], elementType) + last;
      OfTypeAppend(a, b[..n], elementType);
    }
  }

  /** The filter keeps the first element exactly when it has the type, and filters the rest alike. */
  lemma OfTypeCons(e: Element, es: seq<Element>, elementType: string)
    ensures OfType([e] + es, elementType) == (if e.elementType == elementType then [e] else []) + OfType(es, elementType)
  {
    OfTypeAppend([e], es, elementType);
    assert [e][..0] == [];
  }

  /** The elements of one layer, in order. */
  function OnLayer(es: seq<Element>, layer: int): seq<Element> {
    if es == [] then []
    else
      var n := |es| - 1;
      OnLayer(es[..n], layer) + if es[n].layer == layer then [es[n]] else []
  }

  /** Filtering by layer distributes over concatenation. */
  lemma {:induction false} OnLayerAppend(a: seq<Element>, b: seq<Element>, layer: int)
    ensures OnLayer(a + b, layer) == OnLayer(a, layer) + OnLayer(b, layer)
    decreases |b|
  {
    if b == [] {
      assert a + b == a;
    } else {
      var n := |b| - 1;
      var ab := a + b;
      assert ab[..|ab| - 1] == a + b[..n];
      assert ab[|ab| - 1] == b[n];
      OnLayerAppend(a, b[..n], layer);
      assert OnLayer(ab, layer) == OnLayer(a + b[..n], layer) + if b[n].layer == layer then [b[n]] else [];
    }
  }

  /** A list whose elements all lie on `layer` is its own layer filter. */
  lemma {:induction false} OnLayerAll(es: seq<Element>, layer: int)
    requires forall n :: 0 <= n < |es| ==> es[n].layer == layer
    ensures OnLayer(es, layer) == es
    decreases |es|
  {
    if es != [] {
      var n := |es| - 1;
      OnLayerAll(es[..n], layer);
      assert es[..n] + [es[n]] == es;
    }
  }

  /** A list with no element on `layer` filters to nothing. */
  lemma OnLayerNone(es: seq<Element>, layer: int)
    requires forall n :: 0 <= n < |es| ==> es[n].layer != layer
    ensures OnLayer(es, layer) == []
  {
  }

  /** Odd layers (counted from 1) carry posts, even layers traverses. */
  function LayerRun(layer: int): (r: Run)
    ensures r == Posts <==> layer % 2 == 1
    ensures RunOrientation(r) == if layer % 2 == 1 then Vertical else Horizontal
  {
    if layer % 2 == 1 then Posts else Traverses
  }

  /** Neighbouring layers run crosswise: posts on one, traverses on the next. */
  lemma {:induction false} LayersCross(layer: int)
    ensures LayerRun(layer) != LayerRun(layer + 1)
    ensures RunOrientation(LayerRun(layer)) != RunOrientation(LayerRun(layer + 1))
  {
    assert (layer + 1) % 2 == 1 <==> layer % 2 == 0;
  }

  /**
   * The positions the filler gives for a run across `extent`, seeded with
   * the panel ends and the opening edges: sorted, within `[0, limit]`,
   * holding both ends and the slats on either side of every opening
   * (pulled into range), and always found when the pitch adds nothing.
   */
  function RunPositions(run: Run, extent: real, pitch: real, slatWidth: real,
                        openings: seq<Opening>, maxPasses: nat): (r: Option<seq<real>>)
    ensures pitch <= 0.0 ==> r.Some?
    ensures r.Some? ==> RunOutput(r.value, run, StartLimit(extent, slatWidth), slatWidth, openings)
  {
    var limit := StartLimit(extent, slatWidth);
    ForcedFill(run, limit, slatWidth, openings, pitch, maxPasses);
    Fill(Forced(run, limit, slatWidth, openings), pitch, slatWidth, limit, maxPasses)
  }

  /** The filler seeded with the forced positions of a run gives a valid run of positions. */
  lemma ForcedFill(run: Run, limit: real, slatWidth: real, openings: seq<Opening>, pitch: real, maxPasses: nat)
    requires 0.0 <= limit
    ensures var r := Fill(Forced(run, limit, slatWidth, openings), pitch, slatWidth, limit, maxPasses);
      && (pitch <= 0.0 ==> r.Some?)
      && (r.Some? ==> RunOutput(r.value, run, limit, slatWidth, openings))
  {
    var base := Forced(run, limit, slatWidth, openings);
    FillOutput(base, pitch, slatWidth, limit, maxPasses);
    if pitch <= 0.0 {
      FillNonPositivePitch(base, pitch, slatWidth, limit, maxPasses);
    }
    ForcedMembers(run, limit, slatWidth, openings);
  }

  /**
   * `ps` is a valid run of positions: increasing, within `[0, limit]`,
   * with both ends and the clamped edge positions of every opening.
   */
  ghost predicate RunOutput(ps: seq<real>, run: Run, limit: real, slatWidth: real, openings: seq<Opening>) {
    && Increasing(ps)
    && 0.0 in ps && limit in ps
    && Within(ps, 0.0, limit)
    && (forall i :: 0 <= i < |openings| ==>
          && Clamp(Edges(run, openings[i]).0 - slatWidth, limit) in ps
          && Clamp(Edges(run, openings[i]).1, limit) in ps)
  }

  /** The post positions of the lattice (across the width, at the horizontal pitch). */
  function PostPositions(width: real, cfg: LatticeConfig, openings: seq<Opening>, maxPasses: nat): (r: Option<seq<real>>)
    ensures cfg.horizontalPitch <= 0.0 ==> r.Some?
    ensures r.Some? ==> RunOutput(r.value, Posts, StartLimit(width, cfg.slatWidth), cfg.slatWidth, openings)
  {
    RunPositions(Posts, width, cfg.horizontalPitch, cfg.slatWidth, openings, maxPasses)
  }

  /** The traverse positions of the lattice (up the height, at the vertical pitch). */
  function TraversePositions(height: real, cfg: LatticeConfig, openings: seq<Opening>, maxPasses: nat): (r: Option<seq<real>>)
    ensures cfg.verticalPitch <= 0.0 ==> r.Some?
    ensures r.Some? ==> RunOutput(r.value, Traverses, StartLimit(height, cfg.slatWidth), cfg.slatWidth, openings)
  {
    RunPositions(Traverses, height, cfg.verticalPitch, cfg.slatWidth, openings, maxPasses)
  }

  /** `es` is exactly one layer's slats followed by its fill. */
  ghost predicate LayerBuilt(es: seq<Element>, panel: string, layer: int, run: Run, positions: seq<real>,
                             width: real, height: real, slatWidth: real, yMin: real, yMax: real,
                             slatType: string, fillType: string, includeInsulation: bool, k: Kernel) {
    es == LayerElements(panel, layer, run, positions, width, height, slatWidth, yMin, yMax,
                        slatType, fillType, includeInsulation, k)
  }

  /** Layer `layer` of the lattice `es` holds exactly the members and fill of that layer. */
  ghost predicate LatticeLayerBuilt(es: seq<Element>, layer: int, panel: string, width: real, height: real,
                                    cfg: LatticeConfig, posts: seq<real>, traverses: seq<real>,
                                    ranges: seq<(real, real)>, k: Kernel)
    requires 1 <= layer <= |ranges|
  {
    var run := LayerRun(layer);
    LayerBuilt(OnLayer(es, layer), panel, layer, run, if run == Posts then posts else traverses,
               width, height, cfg.slatWidth, ranges[layer - 1].0, ranges[layer - 1].1,
               "slat", "insulation", cfg.includeInsulation, k)
  }

  /**
   * The elements of layers 1 to `n`, layer after layer: each layer's slats
   * then its fill, as the layer loop emits them.
   */
  function LatticeElements(panel: string, width: real, height: real, cfg: LatticeConfig,
                           posts: seq<real>, traverses: seq<real>, ranges: seq<(real, real)>, k: Kernel, n: nat)
    : seq<Element>
    requires n <= |ranges|
  {
    if n == 0 then []
    else
      var run := LayerRun(n);
      LatticeElements(panel, width, height, cfg, posts, traverses, ranges, k, n - 1)
      + LayerElements(panel, n, run, if run == Posts then posts else traverses, width, height, cfg.slatWidth,
                      ranges[n - 1].0, ranges[n - 1].1, "slat", "insulation", cfg.includeInsulation, k)
  }

  /** Layer numbers never decrease along `es`. */
  ghost predicate LayersAscending(es: seq<Element>) {
    forall a, b :: 0 <= a < b < |es| ==> es[a].layer <= es[b].layer
  }

  /** Appending elements of a layer above every earlier one keeps layer numbers ascending. */
  lemma {:induction false} AscendingAppend(elements: seq<Element>, added: seq<Element>, layer: int)
    requires LayersAscending(elements)
    requires forall n :: 0 <= n < |elements| ==> elements[n].layer < layer
    requires forall n :: 0 <= n < |added| ==> added[n].layer == layer
    ensures LayersAscending(elements + added)
  {
    var es := elements + added;
    forall a, b | 0 <= a < b < |es|
      ensures es[a].layer <= es[b].layer
    {
      if b < |elements| {
        assert es[a] == elements[a] && es[b] == elements[b];
      } else if a < |elements| {
        assert es[a] == elements[a] && es[b] == added[b - |elements|];
      } else {
        assert es[a] == added[a - |elements|] && es[b] == added[b - |elements|];
      }
    }
  }

  /** The layer filters of layers 1 to `n`, placed end to end. */
  function ByLayers(es: seq<Element>, n: nat): seq<Element> {
    if n == 0 then [] else ByLayers(es, n - 1) + OnLayer(es, n)
  }

  /** Lists that agree layer by layer on layers 1 to `n` regroup alike. */
  lemma {:induction false} ByLayersAgree(a: seq<Element>, b: seq<Element>, n: nat)
    requires forall j :: 1 <= j <= n ==> OnLayer(a, j) == OnLayer(b, j)
    ensures ByLayers(a, n) == ByLayers(b, n)
    decreases n
  {
    if n > 0 {
      ByLayersAgree(a, b, n - 1);
      assert OnLayer(a, n) == OnLayer(b, n);
    }
  }

  /** An ascending list splits into the elements below `n` followed by those on `n`. */
  lemma {:induction false} SplitBelow(es: seq<Element>, n: int) returns (m: nat)
    requires LayersAscending(es)
    requires forall i :: 0 <= i < |es| ==> es[i].layer <= n
    ensures m <= |es|
    ensures forall i :: 0 <= i < m ==> es[i].layer < n
    ensures forall i :: m <= i < |es| ==> es[i].layer == n
    decreases |es|
  {
    if es == [] {
      m := 0;
    } else {
      var last := |es| - 1;
      if es[last].layer < n {
        m := |es|;
        forall i | 0 <= i < m
          ensures es[i].layer < n
        {
          if i < last {
            assert es[i].layer <= es[last].layer;
          }
        }
      } else {
        var init := es[..last];
        assert LayersAscending(init) by {
          forall a, b | 0 <= a < b < |init|
            ensures init[a].layer <= init[b].layer
          {
            assert init[a] == es[a] && init[b] == es[b];
          }
        }
        m := SplitBelow(init, n);
        forall i | m <= i < |es|
          ensures es[i].layer == n
        {
          if i < last {
            assert es[i] == init[i];
          }
        }
      }
    }
  }

  /** An ascending list whose layers lie in 1 to `n` is its layer filters placed end to end. */
  lemma {:induction false} ByLayersOfAscending(es: seq<Element>, n: nat)
    requires LayersAscending(es)
    requires forall i :: 0 <= i < |es| ==> 1 <= es[i].layer <= n
    ensures ByLayers(es, n) == es
    decreases n
  {
    if es == [] {
      ByLayersEmpty(n);
    } else {
      assert 1 <= es[|es| - 1].layer <= n;
      var m := SplitBelow(es, n);
      var lo, hi := es[..m], es[m..];
      assert es == lo + hi;
      assert LayersAscending(lo) by {
        forall a, b | 0 <= a < b < |lo|
          ensures lo[a].layer <= lo[b].layer
        {
          assert lo[a] == es[a] && lo[b] == es[b];
        }
      }
      assert forall i :: 0 <= i < |hi| ==> hi[i].layer == n by {
        forall i | 0 <= i < |hi|
          ensures hi[i].layer == n
        {
          assert hi[i] == es[m + i];
        }
      }
      assert forall i :: 0 <= i < |lo| ==> 1 <= lo[i].layer <= n - 1 by {
        forall i | 0 <= i < |lo|
          ensures 1 <= lo[i].layer <= n - 1
        {
          assert lo[i] == es[i];
        }
      }
      ByLayersOfAscending(lo, n - 1);
      ByLayersSplit(lo, hi, n);
    }
  }

  /** Nothing groups into nothing. */
  lemma {:induction false} ByLayersEmpty(n: nat)
    ensures ByLayers([], n) == []
    decreases n
  {
    if n > 0 {
      ByLayersEmpty(n - 1);
      assert OnLayer([], n) == [];
    }
  }

  /** Appending elements on layer `n` leaves the filters of the layers below unchanged. */
  lemma {:induction false} KeepsLowerLayers(lo: seq<Element>, hi: seq<Element>, n: nat)
    requires forall i :: 0 <= i < |hi| ==> hi[i].layer == n
    ensures forall j :: 1 <= j < n ==> OnLayer(lo + hi, j) == OnLayer(lo, j)
  {
    forall j | 1 <= j < n
      ensures OnLayer(lo + hi, j) == OnLayer(lo, j)
    {
      OnLayerAppend(lo, hi, j);
      OnLayerNone(hi, j);
      assert OnLayer(lo, j) + [] == OnLayer(lo, j);
    }
  }

  /** Elements below layer `n`, already grouped, followed by elements on `n`, group into themselves. */
  lemma {:induction false} ByLayersSplit(lo: seq<Element>, hi: seq<Element>, n: nat)
    requires n >= 1
    requires forall i :: 0 <= i < |lo| ==> lo[i].layer < n
    requires forall i :: 0 <= i < |hi| ==> hi[i].layer == n
    requires ByLayers(lo, n - 1) == lo
    ensures ByLayers(lo + hi, n) == lo + hi
  {
    LowerGrouping(lo, hi, n);
    TopLayer(lo, hi, n);
    assert ByLayers(lo + hi, n) == ByLayers(lo + hi, n - 1) + OnLayer(lo + hi, n);
  }

  /** Appending elements on layer `n` leaves the grouping of the layers below unchanged. */
  lemma {:induction false} LowerGrouping(lo: seq<Element>, hi: seq<Element>, n: nat)
    requires n >= 1
    requires forall i :: 0 <= i < |hi| ==> hi[i].layer == n
    ensures ByLayers(lo + hi, n - 1) == ByLayers(lo, n - 1)
  {
    KeepsLowerLayers(lo, hi, n);
    ByLayersAgree(lo + hi, lo, n - 1);
  }

  /** Of elements below layer `n` followed by elements on `n`, layer `n` holds the latter. */
  lemma {:induction false} TopLayer(lo: seq<Element>, hi: seq<Element>, n: int)
    requires forall i :: 0 <= i < |lo| ==> lo[i].layer < n
    requires forall i :: 0 <= i < |hi| ==> hi[i].layer == n
    ensures OnLayer(lo + hi, n) == hi
  {
    OnLayerAppend(lo, hi, n);
    OnLayerNone(lo, n);
    OnLayerAll(hi, n);
  }

  /** One more built layer extends the grouping by that layer's elements. */
  lemma {:induction false} ByLayersStep(es: seq<Element>, panel: string, width: real, height: real,
                     cfg: LatticeConfig, posts: seq<real>, traverses: seq<real>,
                     ranges: seq<(real, real)>, k: Kernel, n: nat)
    requires 1 <= n <= |ranges|
    requires ByLayers(es, n - 1) == LatticeElements(panel, width, height, cfg, posts, traverses, ranges, k, n - 1)
    requires LatticeLayerBuilt(es, n, panel, width, height, cfg, posts, traverses, ranges, k)
    ensures ByLayers(es, n) == LatticeElements(panel, width, height, cfg, posts, traverses, ranges, k, n)
  {
  }

  /**
   * A lattice whose layers ascend and are each built is exactly layer 1,
   * then layer 2, and so on up to the last layer of the profile.
   */
  lemma {:induction false} LatticeByLayers(es: seq<Element>, panel: string, width: real, height: real,
                        cfg: LatticeConfig, posts: seq<real>, traverses: seq<real>,
                        ranges: seq<(real, real)>, k: Kernel)
    requires LayersAscending(es)
    requires forall i :: 0 <= i < |es| ==> 1 <= es[i].layer <= |ranges|
    requires forall layer :: 1 <= layer <= |ranges| ==>
               LatticeLayerBuilt(es, layer, panel, width, height, cfg, posts, traverses, ranges, k)
    ensures es == LatticeElements(panel, width, height, cfg, posts, traverses, ranges, k, |ranges|)
  {
    ByLayersOfAscending(es, |ranges|);
    for n := 0 to |ranges|
      invariant ByLayers(es, n) == LatticeElements(panel, width, height, cfg, posts, traverses, ranges, k, n)
    {
      ByLayersStep(es, panel, width, height, cfg, posts, traverses, ranges, k, n + 1);
    }
  }

  /**
   * Every lattice element sits on a layer of the profile, within that
   * layer's y-range, under an id naming the panel and the layer; slats have
   * their layer's orientation; anything else is insulation, present only
   * when insulation was asked for.
   */
  ghost predicate InLattice(es: seq<Element>, panel: string, ranges: seq<(real, real)>, includeInsulation: bool) {
    forall n :: 0 <= n < |es| ==>
      && 1 <= es[n].layer <= |ranges|
      && es[n].id.panel == panel && es[n].id.layer == es[n].layer
      && (es[n].yMin, es[n].yMax) == ranges[es[n].layer - 1]
      && (es[n].id.SlatId? ==>
            && es[n].elementType == "slat" && es[n].id.run == LayerRun(es[n].layer)
            && es[n].orientation == RunOrientation(LayerRun(es[n].layer)))
      && (!es[n].id.SlatId? ==>
            includeInsulation && es[n].elementType == "insulation" && es[n].orientation == Surface)
  }

  /** What a successful `generate_lattice_layout` returns, in full. */
  ghost predicate LatticeSpec(lay: LatticeLayout, panel: string, width: real, height: real,
                              openings: seq<Opening>, cfg: LatticeConfig, k: Kernel, maxPasses: nat) {
    && LayerThickness(cfg.panelType).Ok?
    && RangesOf(lay.layerRanges, LayerThickness(cfg.panelType).value)
    && PostPositions(width, cfg, openings, maxPasses) == Some(lay.postPositions)
    && TraversePositions(height, cfg, openings, maxPasses) == Some(lay.traversePositions)
    && InLattice(lay.elements, panel, lay.layerRanges, cfg.includeInsulation)
    && DistinctIds(lay.elements)
    && LayersAscending(lay.elements)
    && lay.elements == LatticeElements(panel, width, height, cfg, lay.postPositions, lay.traversePositions,
                                       lay.layerRanges, k, |lay.layerRanges|)
    && (forall layer :: 1 <= layer <= |lay.layerRanges| ==>
          LatticeLayerBuilt(lay.elements, layer, panel, width, height, cfg, lay.postPositions,
                            lay.traversePositions, lay.layerRanges, k))
  }

  /** A generated lattice's ids are distinct and each names one of its layers. */
  lemma LatticeIds(lay: LatticeLayout, panel: string, width: real, height: real,
                   openings: seq<Opening>, cfg: LatticeConfig, k: Kernel, maxPasses: nat)
    requires LatticeSpec(lay, panel, width, height, openings, cfg, k, maxPasses)
    ensures DistinctIds(lay.elements)
    ensures forall n :: 0 <= n < |lay.elements| ==> 1 <= lay.elements[n].id.layer <= |lay.layerRanges|
  {
  }

  /** Two id-distinct lists with no id in common concatenate to an id-distinct list. */
  lemma DistinctAppend(a: seq<Element>, b: seq<Element>)
    requires DistinctIds(a) && DistinctIds(b)
    requires forall i, j :: 0 <= i < |a| && 0 <= j < |b| ==> a[i].id != b[j].id
    ensures DistinctIds(a + b)
  {
    var es := a + b;
    forall i, j | 0 <= i < j < |es|
      ensures es[i].id != es[j].id
    {
      if j < |a| {
        assert es[i] == a[i] && es[j] == a[j];
      } else if i >= |a| {
        assert es[i] == b[i - |a|] && es[j] == b[j - |a|];
      } else {
        assert es[i] == a[i] && es[j] == b[j - |a|];
      }
    }
  }

  /** Adding the elements of a new, higher layer keeps every earlier layer as it was. */
  lemma EarlierLayersKept(elements: seq<Element>, added: seq<Element>, layer: int)
    requires forall n :: 0 <= n < |elements| ==> elements[n].layer < layer
    requires forall n :: 0 <= n < |added| ==> added[n].layer == layer
    ensures forall j :: j < layer ==> OnLayer(elements + added, j) == OnLayer(elements, j)
    ensures OnLayer(elements + added, layer) == added
  {
    forall j | j < layer
      ensures OnLayer(elements + added, j) == OnLayer(elements, j)
    {
      OnLayerAppend(elements, added, j);
      OnLayerNone(added, j);
    }
    OnLayerAppend(elements, added, layer);
    OnLayerNone(elements, layer);
    OnLayerAll(added, layer);
  }

  /** Each element of a successful lattice is as thick as its layer of the profile. */
  lemma LatticeThickness(lay: LatticeLayout, panel: string, width: real, height: real,
                         openings: seq<Opening>, cfg: LatticeConfig, k: Kernel, maxPasses: nat)
    requires LatticeSpec(lay, panel, width, height, openings, cfg, k, maxPasses)
    ensures forall n :: 0 <= n < |lay.elements| ==>
      lay.elements[n].Thickness() == LayerThickness(cfg.panelType).value[lay.elements[n].layer - 1]
  {
    var ts := LayerThickness(cfg.panelType).value;
    assert InLattice(lay.elements, panel, lay.layerRanges, cfg.includeInsulation) && RangesOf(lay.layerRanges, ts);
    PlacedThickness(lay.elements, panel, lay.layerRanges, ts, cfg.includeInsulation);
  }

  /** Elements placed on the layers of a profile are as thick as their layer. */
  lemma PlacedThickness(es: seq<Element>, panel: string, ranges: seq<(real, real)>, ts: seq<real>, includeInsulation: bool)
    requires InLattice(es, panel, ranges, includeInsulation) && RangesOf(ranges, ts)
    ensures forall n :: 0 <= n < |es| ==> es[n].Thickness() == ts[es[n].layer - 1]
  {
    RangesContiguous(ranges, ts);
  }

  /**
   * `generate_lattice_layout`: an unknown profile is an error naming it; a
   * filler that runs out of passes is `NotConverged`; otherwise the lattice
   * is what `LatticeSpec` describes, layer by layer.
   */
  method GenerateLatticeLayout(panel: string, width: real, height: real, openings: seq<Opening>,
                               cfg: LatticeConfig, k: Kernel, maxPasses: nat)
    returns (r: Result<LatticeLayout>)
    ensures !KnownProfile(cfg.panelType) ==> r == Err(UnknownPanelType(cfg.panelType))
    ensures KnownProfile(cfg.panelType)
            && (PostPositions(width, cfg, openings, maxPasses).None? || TraversePositions(height, cfg, openings, maxPasses).None?)
            ==> r == Err(NotConverged)
    ensures r.Ok? <==> KnownProfile(cfg.panelType) && PostPositions(width, cfg, openings, maxPasses).Some?
                       && TraversePositions(height, cfg, openings, maxPasses).Some?
    ensures r.Ok? ==> LatticeSpec(r.value, panel, width, height, openings, cfg, k, maxPasses)
  {
    var thickness := LayerThickness(cfg.panelType);
    if thickness.Err? {
      return Err(thickness.error);
    }
    var ts := thickness.value;
    var ranges := RangeThickness(ts);
    var postsOpt := ComputePositions(Posts, width, cfg.horizontalPitch, cfg.slatWidth, openings, maxPasses);
    var traversesOpt := ComputePositions(Traverses, height, cfg.verticalPitch, cfg.slatWidth, openings, maxPasses);
    if postsOpt.None? || traversesOpt.None? {
      return Err(NotConverged);
    }
    var posts, traverses := postsOpt.value, traversesOpt.value;
    var elements := BuildLayers(panel, width, height, cfg, posts, traverses, ranges, k);
    r := Ok(LatticeLayout(elements, posts, traverses, ranges));
  }

  /** The layer loop of `generate_lattice_layout`: each layer's members and fill, layer after layer. */
  method BuildLayers(panel: string, width: real, height: real, cfg: LatticeConfig,
                     posts: seq<real>, traverses: seq<real>, ranges: seq<(real, real)>, k: Kernel)
    returns (elements: seq<Element>)
    ensures InLattice(elements, panel, ranges, cfg.includeInsulation)
    ensures DistinctIds(elements)
    ensures forall layer :: 1 <= layer <= |ranges| ==>
      LatticeLayerBuilt(elements, layer, panel, width, height, cfg, posts, traverses, ranges, k)
    ensures LayersAscending(elements)
    ensures elements == LatticeElements(panel, width, height, cfg, posts, traverses, ranges, k, |ranges|)
  {
    elements := [];
    for i := 0 to |ranges|
      invariant InLattice(elements, panel, ranges, cfg.includeInsulation)
      invariant forall n :: 0 <= n < |elements| ==> elements[n].layer <= i
      invariant LayersAscending(elements)
      invariant DistinctIds(elements)
      invariant forall layer :: 1 <= layer <= i ==>
        LatticeLayerBuilt(elements, layer, panel, width, height, cfg, posts, traverses, ranges, k)
    {
      var layer := i + 1;
      var run := LayerRun(layer);
      var positions := if run == Posts then posts else traverses;
      var slats, pieces, fill := LayerMembers(panel, layer, run, positions, width, height, cfg.slatWidth,
                                              ranges[i].0, ranges[i].1, "slat", "insulation",
                                              cfg.includeInsulation, k);
      var added := slats + fill;
      LatticeStep(elements, slats, pieces, fill, panel, layer, run, positions, width, height,
                  cfg, posts, traverses, ranges, k);
      AscendingAppend(elements, added, layer);
      elements := elements + added;
    }
    LatticeByLayers(elements, panel, width, height, cfg, posts, traverses, ranges, k);
  }

  /** Elements of a new, higher layer keep the lattice's element facts. */
  lemma LatticeStepPlaced(elements: seq<Element>, slats: seq<Element>, fill: seq<Element>,
                          panel: string, layer: int, run: Run, ranges: seq<(real, real)>, includeInsulation: bool)
    requires 1 <= layer <= |ranges| && run == LayerRun(layer)
    requires InLattice(elements, panel, ranges, includeInsulation)
    requires forall n :: 0 <= n < |elements| ==> elements[n].layer < layer
    requires !includeInsulation ==> fill == []
    requires Placed(slats + fill, panel, layer, ranges[layer - 1].0, ranges[layer - 1].1)
    requires Typed(slats, fill, run, "slat", "insulation")
    ensures var next := elements + (slats + fill);
      && InLattice(next, panel, ranges, includeInsulation)
      && (forall n :: 0 <= n < |next| ==> next[n].layer <= layer)
  {
    var added := slats + fill;
    var next := elements + added;
    forall n | 0 <= n < |next|
      ensures 1 <= next[n].layer <= |ranges|
      ensures next[n].id.panel == panel && next[n].id.layer == next[n].layer
      ensures (next[n].yMin, next[n].yMax) == ranges[next[n].layer - 1]
      ensures next[n].id.SlatId? ==>
        && next[n].elementType == "slat" && next[n].id.run == LayerRun(next[n].layer)
        && next[n].orientation == RunOrientation(LayerRun(next[n].layer))
      ensures !next[n].id.SlatId? ==>
        includeInsulation && next[n].elementType == "insulation" && next[n].orientation == Surface
      ensures next[n].layer <= layer
    {
      if n >= |elements| {
        var m := n - |elements|;
        assert next[n] == added[m];
        if m < |slats| {
          assert added[m] == slats[m];
        } else {
          assert added[m] == fill[m - |slats|];
        }
      }
    }
  }

  /** Elements of a new, higher layer share no id with the earlier ones. */
  lemma LatticeStepDistinct(elements: seq<Element>, added: seq<Element>, layer: int)
    requires forall n :: 0 <= n < |elements| ==> elements[n].id.layer < layer
    requires forall n :: 0 <= n < |added| ==> added[n].id.layer == layer
    requires DistinctIds(elements) && DistinctIds(added)
    ensures DistinctIds(elements + added)
  {
    forall i, j | 0 <= i < |elements| && 0 <= j < |added|
      ensures elements[i].id != added[j].id
    {
      assert elements[i].id.layer < layer == added[j].id.layer;
    }
    DistinctAppend(elements, added);
  }

  /** One pass of the layer loop keeps the lattice loop's invariant. */
  lemma LatticeStep(elements: seq<Element>, slats: seq<Element>, pieces: seq<Polygon>, fill: seq<Element>,
                    panel: string, layer: int, run: Run, positions: seq<real>, width: real, height: real,
                    cfg: LatticeConfig, posts: seq<real>, traverses: seq<real>,
                    ranges: seq<(real, real)>, k: Kernel)
    requires 1 <= layer <= |ranges| && run == LayerRun(layer)
    requires positions == if run == Posts then posts else traverses
    requires InLattice(elements, panel, ranges, cfg.includeInsulation)
    requires forall n :: 0 <= n < |elements| ==> elements[n].layer < layer
    requires DistinctIds(elements)
    requires forall j :: 1 <= j < layer ==>
      LatticeLayerBuilt(elements, j, panel, width, height, cfg, posts, traverses, ranges, k)
    requires MembersOf(slats, pieces, fill, panel, layer, run, positions, width, height, cfg.slatWidth,
                       ranges[layer - 1].0, ranges[layer - 1].1, "slat", "insulation", cfg.includeInsulation, k)
    ensures var next := elements + (slats + fill);
      && InLattice(next, panel, ranges, cfg.includeInsulation)
      && (forall n :: 0 <= n < |next| ==> next[n].layer <= layer)
      && DistinctIds(next)
      && (forall n :: 0 <= n < |slats + fill| ==> (slats + fill)[n].layer == layer)
      && (forall j :: 1 <= j <= layer ==>
            LatticeLayerBuilt(next, j, panel, width, height, cfg, posts, traverses, ranges, k))
  {
    var added := slats + fill;
    LatticeStepFacts(elements, slats, pieces, fill, panel, layer, run, positions, width, height, cfg, ranges, k);
    MembersBuilt(slats, pieces, fill, panel, layer, run, positions, width, height, cfg.slatWidth,
                 ranges[layer - 1].0, ranges[layer - 1].1, "slat", "insulation", cfg.includeInsulation, k);
    LatticeStepBuilt(elements, added, panel, layer, run, positions, width, height, cfg, posts, traverses, ranges, k);
    var next := elements + added;
    forall j | 1 <= j <= layer
      ensures LatticeLayerBuilt(next, j, panel, width, height, cfg, posts, traverses, ranges, k)
    {
      if j == layer {
        assert LatticeLayerBuilt(next, layer, panel, width, height, cfg, posts, traverses, ranges, k);
      }
    }
  }

  /** The elements of a new, higher layer keep every element placed on its layer and every id distinct. */
  lemma LatticeStepFacts(elements: seq<Element>, slats: seq<Element>, pieces: seq<Polygon>, fill: seq<Element>,
                         panel: string, layer: int, run: Run, positions: seq<real>, width: real, height: real,
                         cfg: LatticeConfig, ranges: seq<(real, real)>, k: Kernel)
    requires 1 <= layer <= |ranges| && run == LayerRun(layer)
    requires InLattice(elements, panel, ranges, cfg.includeInsulation)
    requires forall n :: 0 <= n < |elements| ==> elements[n].layer < layer
    requires DistinctIds(elements)
    requires MembersOf(slats, pieces, fill, panel, layer, run, positions, width, height, cfg.slatWidth,
                       ranges[layer - 1].0, ranges[layer - 1].1, "slat", "insulation", cfg.includeInsulation, k)
    ensures var next := elements + (slats + fill);
      && InLattice(next, panel, ranges, cfg.includeInsulation)
      && (forall n :: 0 <= n < |next| ==> next[n].layer <= layer)
      && DistinctIds(next)
      && (forall n :: 0 <= n < |slats + fill| ==> (slats + fill)[n].layer == layer)
  {
    var added := slats + fill;
    LayerFacts(panel, layer, run, positions, width, height, cfg.slatWidth, ranges[layer - 1].0, ranges[layer - 1].1,
               "slat", "insulation", cfg.includeInsulation, k);
    assert forall n :: 0 <= n < |added| ==> added[n].layer == layer && added[n].id.layer == layer;
    LatticeStepPlaced(elements, slats, fill, panel, layer, run, ranges, cfg.includeInsulation);
    LatticeStepDistinct(elements, added, layer);
  }

  /** The slats, pieces and fill of a layer make up the built layer. */
  lemma MembersBuilt(slats: seq<Element>, pieces: seq<Polygon>, fill: seq<Element>,
                     panel: string, layer: int, run: Run, positions: seq<real>,
                     width: real, height: real, slatWidth: real, yMin: real, yMax: real,
                     slatType: string, fillType: string, includeInsulation: bool, k: Kernel)
    requires MembersOf(slats, pieces, fill, panel, layer, run, positions, width, height, slatWidth,
                       yMin, yMax, slatType, fillType, includeInsulation, k)
    ensures LayerBuilt(slats + fill, panel, layer, run, positions, width, height, slatWidth,
                       yMin, yMax, slatType, fillType, includeInsulation, k)
  {
  }

  /** After one pass of the layer loop, the new layer and every layer below it are built. */
  lemma LatticeStepBuilt(elements: seq<Element>, added: seq<Element>,
                         panel: string, layer: int, run: Run, positions: seq<real>, width: real, height: real,
                         cfg: LatticeConfig, posts: seq<real>, traverses: seq<real>,
                         ranges: seq<(real, real)>, k: Kernel)
    requires 1 <= layer <= |ranges| && run == LayerRun(layer)
    requires positions == if run == Posts then posts else traverses
    requires forall n :: 0 <= n < |elements| ==> elements[n].layer < layer
    requires forall n :: 0 <= n < |added| ==> added[n].layer == layer
    requires forall j :: 1 <= j < layer ==>
      LatticeLayerBuilt(elements, j, panel, width, height, cfg, posts, traverses, ranges, k)
    requires LayerBuilt(added, panel, layer, run, positions, width, height, cfg.slatWidth,
                        ranges[layer - 1].0, ranges[layer - 1].1, "slat", "insulation", cfg.includeInsulation, k)
    ensures forall j :: 1 <= j < layer ==>
      LatticeLayerBuilt(elements + added, j, panel, width, height, cfg, posts, traverses, ranges, k)
    ensures LatticeLayerBuilt(elements + added, layer, panel, width, height, cfg, posts, traverses, ranges, k)
  {
    var next := elements + added;
    EarlierLayersKept(elements, added, layer);
    forall j | 1 <= j < layer
      ensures LatticeLayerBuilt(next, j, panel, width, height, cfg, posts, traverses, ranges, k)
    {
      LayerBuiltKept(elements, next, j, panel, width, height, cfg, posts, traverses, ranges, k);
    }
    NewLayerBuilt(next, added, panel, layer, run, positions, width, height, cfg, posts, traverses, ranges, k);
  }

  /** A lattice whose layer `layer` holds exactly a built layer has that layer built. */
  lemma NewLayerBuilt(next: seq<Element>, added: seq<Element>,
                      panel: string, layer: int, run: Run, positions: seq<real>, width: real, height: real,
                      cfg: LatticeConfig, posts: seq<real>, traverses: seq<real>,
                      ranges: seq<(real, real)>, k: Kernel)
    requires 1 <= layer <= |ranges| && run == LayerRun(layer)
    requires positions == if run == Posts then posts else traverses
    requires OnLayer(next, layer) == added
    requires LayerBuilt(added, panel, layer, run, positions, width, height, cfg.slatWidth,
                        ranges[layer - 1].0, ranges[layer - 1].1, "slat", "insulation", cfg.includeInsulation, k)
    ensures LatticeLayerBuilt(next, layer, panel, width, height, cfg, posts, traverses, ranges, k)
  {
  }

  /** A layer whose elements are unchanged stays built. */
  lemma LayerBuiltKept(elements: seq<Element>, next: seq<Element>, j: int, panel: string, width: real, height: real,
                       cfg: LatticeConfig, posts: seq<real>, traverses: seq<real>,
                       ranges: seq<(real, real)>, k: Kernel)
    requires 1 <= j <= |ranges| && OnLayer(next, j) == OnLayer(elements, j)
    requires LatticeLayerBuilt(elements, j, panel, width, height, cfg, posts, traverses, ranges, k)
    ensures LatticeLayerBuilt(next, j, panel, width, height, cfg, posts, traverses, ranges, k)
  {
  }
}
