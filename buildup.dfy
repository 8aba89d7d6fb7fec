/**
 * The multilayer wall: the lattice plus further layers outside it. A
 * battened layer carries battens at a pitch in one orientation with a fill
 * material between them; any other layer type is recorded without elements.
 */
module BuildUp {
  import opened Results
  import opened Geometry
  import opened Openings
  import opened Positions
  import opened Thickness
  import opened Layout
  import opened Lattice

  /** The parameters of one extra layer, as callers give them. */
  datatype LayerConfig = LayerConfig(
    yMin: real, yMax: real, layerIndex: int, name: string, layerType: string,
    layerPitch: real, orientation: string, battenWidth: real, includeInsulation: bool,
    materials: seq<(string, string)>)

  /** A generated layer: its parameters and its elements. */
  datatype Layer = Layer(
    layerIndex: int, name: string, layerType: string, yMin: real, yMax: real,
    layerPitch: real, orientation: string, battenWidth: real, includeInsulation: bool,
    materials: seq<(string, string)>, elements: seq<Element>)
  {
    function Thickness(): real { yMax - yMin }
  }

  /** The layer a configuration describes, holding `elements`. */
  function LayerOf(cfg: LayerConfig, elements: seq<Element>): Layer {
    Layer(cfg.layerIndex, cfg.name, cfg.layerType, cfg.yMin, cfg.yMax, cfg.layerPitch,
          cfg.orientation, cfg.battenWidth, cfg.includeInsulation, cfg.materials, elements)
  }

  /** The material keys, in order. */
  function Keys(materials: seq<(string, string)>): (r: seq<string>)
    ensures |r| == |materials| && forall i :: 0 <= i < |materials| ==> r[i] == materials[i].0
  {
    seq(|materials|, i requires 0 <= i < |materials| => materials[i].0)
  }

  /** `v` is the key of some material listed after nothing but battens. */
  ghost predicate FirstAfterBattens(materials: seq<(string, string)>, v: string) {
    exists i :: 0 <= i < |materials| && materials[i].0 == v && forall j :: 0 <= j < i ==> materials[j].0 == "batten"
  }

  /** The first material key that is not `batten`: the fill material of a battened layer. */
  function FillMaterial(materials: seq<(string, string)>): (r: Option<string>)
    ensures r.None? <==> forall i :: 0 <= i < |materials| ==> materials[i].0 == "batten"
    ensures r.Some? ==> r.value != "batten" && r.value in Keys(materials) && FirstAfterBattens(materials, r.value)
  {
    if materials == [] then None
    else if materials[0].0 != "batten" then
      assert Keys(materials)[0] == materials[0].0;
      Some(materials[0].0)
    else
      var rest := FillMaterial(materials[1..]);
      assert forall i :: 1 <= i < |materials| ==> materials[i] == materials[1..][i - 1];
      if rest.Some? then
        BehindBatten(materials, rest.value);
        rest
      else rest
  }

  /** A key first after battens in the tail is first after battens behind a leading batten too. */
  lemma BehindBatten(materials: seq<(string, string)>, v: string)
    requires materials != [] && materials[0].0 == "batten" && FirstAfterBattens(materials[1..], v)
    ensures v in Keys(materials) && FirstAfterBattens(materials, v)
  {
    var i :| 0 <= i < |materials[1..]| && materials[1..][i].0 == v
             && forall j :: 0 <= j < i ==> materials[1..][j].0 == "batten";
    assert materials[i + 1].0 == v && Keys(materials)[i + 1] == v;
    assert forall j :: 1 <= j < i + 1 ==> materials[j] == materials[1..][j - 1];
  }

  /** The run a layer orientation names: posts for `vertical`, traverses for `horizontal`, none otherwise. */
  function OrientationRun(orientation: string): (r: Option<Run>)
    ensures r.Some? <==> orientation == "vertical" || orientation == "horizontal"
    ensures r.Some? ==> RunOrientation(r.value) == if orientation == "vertical" then Vertical else Horizontal
  {
    if orientation == "vertical" then Some(Posts)
    else if orientation == "horizontal" then Some(Traverses)
    else None
  }

  /** A battened layer whose orientation names a run: the only kind that gets elements. */
  predicate Battened(cfg: LayerConfig) {
    cfg.layerType == "battened" && OrientationRun(cfg.orientation).Some?
  }

  /** The batten positions of a battened layer, across the width or up the height. */
  function BattenPositions(cfg: LayerConfig, width: real, height: real, openings: seq<Opening>, maxPasses: nat): Option<seq<real>>
    requires Battened(cfg)
  {
    var run := OrientationRun(cfg.orientation).value;
    RunPositions(run, if run == Posts then width else height, cfg.layerPitch, cfg.battenWidth, openings, maxPasses)
  }

  /** The layer's batten filler finishes within its pass budget (trivially so for a layer without battens). */
  predicate LayerConverges(cfg: LayerConfig, width: real, height: real, openings: seq<Opening>, maxPasses: nat) {
    Battened(cfg) ==> BattenPositions(cfg, width, height, openings, maxPasses).Some?
  }

  /** A battened layer's fill-material lookup succeeds: some material other than battens is listed. */
  predicate HasFill(cfg: LayerConfig) {
    cfg.layerType == "battened" ==> FillMaterial(cfg.materials).Some?
  }

  /**
   * What a successful `generate_layer` returns: the layer its configuration
   * describes; its elements are exactly the battens and fill of its run
   * when it is battened with a known orientation, and none otherwise.
   */
  ghost predicate LayerSpec(layer: Layer, panel: string, width: real, height: real, openings: seq<Opening>,
                            cfg: LayerConfig, k: Kernel, maxPasses: nat) {
    && layer == LayerOf(cfg, layer.elements)
    && (!Battened(cfg) ==> layer.elements == [])
    && (Battened(cfg) ==> BattensBuilt(layer.elements, panel, width, height, openings, cfg, k, maxPasses))
  }

  /** The elements of a battened layer: its battens and fill, all placed on the layer under distinct ids. */
  ghost predicate BattensBuilt(es: seq<Element>, panel: string, width: real, height: real, openings: seq<Opening>,
                               cfg: LayerConfig, k: Kernel, maxPasses: nat)
    requires Battened(cfg)
  {
    && HasFill(cfg)
    && BattenPositions(cfg, width, height, openings, maxPasses).Some?
    && LayerBuilt(es, panel, cfg.layerIndex, OrientationRun(cfg.orientation).value,
                  BattenPositions(cfg, width, height, openings, maxPasses).value,
                  width, height, cfg.battenWidth, cfg.yMin, cfg.yMax, "batten",
                  FillMaterial(cfg.materials).value, cfg.includeInsulation, k)
    && Placed(es, panel, cfg.layerIndex, cfg.yMin, cfg.yMax)
    && DistinctIds(es)
  }

  /**
   * `generate_layer`: a battened layer without a fill material fails before
   * anything else is looked at; otherwise the only error is a batten filler
   * that runs out of passes. A successful layer is what `LayerSpec` describes.
   */
  method GenerateLayer(panel: string, width: real, height: real, openings: seq<Opening>,
                       cfg: LayerConfig, k: Kernel, maxPasses: nat) returns (r: Result<Layer>)
    ensures r.Ok? <==> HasFill(cfg) && LayerConverges(cfg, width, height, openings, maxPasses)
    ensures r.Err? ==> r.error == if HasFill(cfg) then NotConverged else NoFillMaterial
    ensures r.Ok? ==> LayerSpec(r.value, panel, width, height, openings, cfg, k, maxPasses)
  {
    if cfg.layerType != "battened" {
      return Ok(LayerOf(cfg, []));
    }
    var fill := FillMaterial(cfg.materials);
    if fill.None? {
      return Err(NoFillMaterial);
    }
    var fillType := fill.value;
    var orientation := OrientationRun(cfg.orientation);
    if orientation.None? {
      return Ok(LayerOf(cfg, []));
    }
    var run := orientation.value;
    var extent := if run == Posts then width else height;
    var positions := ComputePositions(run, extent, cfg.layerPitch, cfg.battenWidth, openings, maxPasses);
    if positions.None? {
      return Err(NotConverged);
    }
    var slats, pieces, fillElements := LayerMembers(panel, cfg.layerIndex, run, positions.value, width, height,
                                                    cfg.battenWidth, cfg.yMin, cfg.yMax, "batten", fillType,
                                                    cfg.includeInsulation, k);
    LayerFacts(panel, cfg.layerIndex, run, positions.value, width, height, cfg.battenWidth, cfg.yMin, cfg.yMax,
               "batten", fillType, cfg.includeInsulation, k);
    r := Ok(LayerOf(cfg, slats + fillElements));
  }

  /** A generated wall: the lattice and the further layers, from the inside out. */
  datatype WallBuildUp = WallBuildUp(
    panel: string, width: real, height: real, openings: seq<Opening>,
    lattice: LatticeLayout, layers: seq<Layer>)
  {
    /** `total_thickness`: the lattice's outer face (0 without layers) plus every further layer's thickness. */
    function TotalThickness(): (r: real)
      ensures (lattice.layerRanges == [] || lattice.layerRanges[|lattice.layerRanges| - 1].1 >= 0.0)
              && (forall i :: 0 <= i < |layers| ==> layers[i].yMin <= layers[i].yMax)
              ==> r >= LayersThickness(layers) >= 0.0
    {
      assert (forall i :: 0 <= i < |layers| ==> layers[i].yMin <= layers[i].yMax) ==> LayersThickness(layers) >= 0.0 by {
        if forall i :: 0 <= i < |layers| ==> layers[i].yMin <= layers[i].yMax {
          LayersThicknessNonNegative(layers);
        }
      }
      (if lattice.layerRanges == [] then 0.0 else lattice.layerRanges[|lattice.layerRanges| - 1].1)
      + LayersThickness(layers)
    }

    /** Every element of the wall: the lattice's, then each further layer's, from the inside out. */
    function Elements(): (r: seq<Element>)
      ensures |r| == |lattice.elements| + |LayersElements(layers)|
      ensures r[..|lattice.elements|] == lattice.elements
    {
      lattice.elements + LayersElements(layers)
    }

    /** `layers_of_type`: the layers with a given name, in order. */
    function LayersOfType(name: string): (r: seq<Layer>)
      ensures forall l :: l in r <==> l in layers && l.name == name
      ensures |r| <= |layers|
    {
      Named(layers, name)
    }
  }

  /** The summed thickness of a list of layers. */
  function LayersThickness(layers: seq<Layer>): real {
    if layers == [] then 0.0 else LayersThickness(layers[..|layers| - 1]) + layers[|layers| - 1].Thickness()
  }

  /** The layers with a given name, in order. */
  function Named(layers: seq<Layer>, name: string): (r: seq<Layer>)
    ensures forall l {:trigger l in r} :: l in r <==> l in layers && l.name == name
    ensures |r| <= |layers|
  {
    if layers == [] then []
    else
      var n := |layers| - 1;
      Named(layers[..n], name) + if layers[n].name == name then [layers[n]] else []
  }

  /** Filtering by name distributes over concatenation. */
  lemma {:induction false} NamedAppend(a: seq<Layer>, b: seq<Layer>, name: string)
    ensures Named(a + b, name) == Named(a, name) + Named(b, name)
    decreases |b|
  {
    if b == [] {
      assert a + b == a;
    } else {
      var n := |b| - 1;
      var ab := a + b;
      assert ab[..|ab| - 1] == a + b[..n];
      assert ab[|ab| - 1] == b[n];
      var last := if b[n].name == name then [b[n]] else [];
      assert Named(ab, name) == Named(a + b[..n], name) + last;
      assert Named(b, name) == Named(b[..n], name) + last;
      NamedAppend(a, b[..n], name);
    }
  }

  /** The filter keeps the first layer exactly when it has the name, and filters the rest alike. */
  lemma NamedCons(l: Layer, layers: seq<Layer>, name: string)
    ensures Named([l] + layers, name) == (if l.name == name then [l] else []) + Named(layers, name)
  {
    NamedAppend([l], layers, name);
    assert [l][..0] == [];
  }

  /**
   * The total thickness of a generated wall is the profile's total (the
   * sum of its layer thicknesses) plus the thicknesses of the further layers.
   */
  lemma TotalThicknessOfProfile(b: WallBuildUp, ts: seq<real>)
    requires RangesOf(b.lattice.layerRanges, ts)
    ensures b.TotalThickness() == Sum(ts) + LayersThickness(b.layers)
  {
    RangesContiguous(b.lattice.layerRanges, ts);
    if ts == [] {
      assert b.lattice.layerRanges == [];
    }
  }

  /** Layers each at least as thick as zero add up to at least zero. */
  lemma {:induction false} LayersThicknessNonNegative(layers: seq<Layer>)
    requires forall i :: 0 <= i < |layers| ==> layers[i].yMin <= layers[i].yMax
    ensures LayersThickness(layers) >= 0.0
    decreases |layers|
  {
    if layers != [] {
      LayersThicknessNonNegative(layers[..|layers| - 1]);
    }
  }

  /** Appending the next configured layer keeps every generated layer matched to its configuration. */
  lemma LayersGrow(layers: seq<Layer>, next: Layer, panel: string, width: real, height: real,
                   openings: seq<Opening>, cfgs: seq<LayerConfig>, k: Kernel, maxPasses: nat)
    requires |layers| < |cfgs|
    requires forall j :: 0 <= j < |layers| ==> LayerSpec(layers[j], panel, width, height, openings, cfgs[j], k, maxPasses)
    requires LayerSpec(next, panel, width, height, openings, cfgs[|layers|], k, maxPasses)
    ensures forall j :: 0 <= j <= |layers| ==>
      LayerSpec((layers + [next])[j], panel, width, height, openings, cfgs[j], k, maxPasses)
  {
    forall j | 0 <= j <= |layers|
      ensures LayerSpec((layers + [next])[j], panel, width, height, openings, cfgs[j], k, maxPasses)
    {
      if j < |layers| {
        assert (layers + [next])[j] == layers[j];
      }
    }
  }

  /** The elements of the further layers, one layer after another. */
  function LayersElements(layers: seq<Layer>): seq<Element> {
    if layers == [] then [] else LayersElements(layers[..|layers| - 1]) + layers[|layers| - 1].elements
  }

  /**
   * The layer indices of the configurations are pairwise distinct and none
   * is the number of a lattice layer (1 to `latticeLayers`), as with inner
   * layers numbered -2, -1 and outer ones 6, 7 around a five-layer lattice.
   */
  ghost predicate SeparateIndices(cfgs: seq<LayerConfig>, latticeLayers: int) {
    && (forall i, j :: 0 <= i < j < |cfgs| ==> cfgs[i].layerIndex != cfgs[j].layerIndex)
    && (forall i :: 0 <= i < |cfgs| ==> cfgs[i].layerIndex < 1 || latticeLayers < cfgs[i].layerIndex)
  }

  /** A generated layer's elements have distinct ids, each carrying the configured layer index. */
  lemma LayerIds(layer: Layer, panel: string, width: real, height: real, openings: seq<Opening>,
                 cfg: LayerConfig, k: Kernel, maxPasses: nat)
    requires LayerSpec(layer, panel, width, height, openings, cfg, k, maxPasses)
    ensures DistinctIds(layer.elements)
    ensures forall n :: 0 <= n < |layer.elements| ==> layer.elements[n].id.layer == cfg.layerIndex
  {
    if Battened(cfg) {
      assert BattensBuilt(layer.elements, panel, width, height, openings, cfg, k, maxPasses);
    }
  }

  /**
   * Layers whose elements carry pairwise distinct layer indices in their
   * ids, and are id-distinct within each layer, are id-distinct together;
   * every id carries one of those indices.
   */
  lemma {:induction false} StackedIdsDistinct(layers: seq<Layer>, indices: seq<int>)
    requires |indices| == |layers|
    requires forall i, j :: 0 <= i < j < |indices| ==> indices[i] != indices[j]
    requires forall i :: 0 <= i < |layers| ==> DistinctIds(layers[i].elements)
    requires forall i, n :: 0 <= i < |layers| && 0 <= n < |layers[i].elements| ==> layers[i].elements[n].id.layer == indices[i]
    ensures DistinctIds(LayersElements(layers))
    ensures forall n :: 0 <= n < |LayersElements(layers)| ==> LayersElements(layers)[n].id.layer in indices
    decreases |layers|
  {
    if layers != [] {
      var m := |layers| - 1;
      var init, last := LayersElements(layers[..m]), layers[m].elements;
      StackedIdsDistinct(layers[..m], indices[..m]);
      forall i, j | 0 <= i < |init| && 0 <= j < |last|
        ensures init[i].id != last[j].id
      {
        assert init[i].id.layer in indices[..m];
        assert last[j].id.layer == indices[m];
      }
      DistinctAppend(init, last);
      forall n | 0 <= n < |init + last|
        ensures (init + last)[n].id.layer in indices
      {
        if n < |init| {
          assert (init + last)[n] == init[n];
        } else {
          assert (init + last)[n] == last[n - |init|];
        }
      }
    }
  }

  /**
   * With separate layer indices, every element of a wall, lattice and
   * further layers together, has an id of its own: the lattice's ids are
   * distinct and name lattice layers, and every further layer is generated.
   */
  lemma WallIdsDistinct(b: WallBuildUp, panel: string, width: real, height: real, openings: seq<Opening>,
                        layerCfgs: seq<LayerConfig>, k: Kernel, maxPasses: nat)
    requires DistinctIds(b.lattice.elements)
    requires forall n :: 0 <= n < |b.lattice.elements| ==>
               1 <= b.lattice.elements[n].id.layer <= |b.lattice.layerRanges|
    requires |b.layers| == |layerCfgs|
    requires forall i :: 0 <= i < |layerCfgs| ==>
               LayerSpec(b.layers[i], panel, width, height, openings, layerCfgs[i], k, maxPasses)
    requires SeparateIndices(layerCfgs, |b.lattice.layerRanges|)
    ensures DistinctIds(b.Elements())
  {
    var indices := seq(|layerCfgs|, i requires 0 <= i < |layerCfgs| => layerCfgs[i].layerIndex);
    forall i | 0 <= i < |layerCfgs|
      ensures DistinctIds(b.layers[i].elements)
      ensures forall n :: 0 <= n < |b.layers[i].elements| ==> b.layers[i].elements[n].id.layer == indices[i]
    {
      LayerIds(b.layers[i], panel, width, height, openings, layerCfgs[i], k, maxPasses);
    }
    StackedIdsDistinct(b.layers, indices);
    var outer := LayersElements(b.layers);
    var inner := b.lattice.elements;
    forall i, j | 0 <= i < |inner| && 0 <= j < |outer|
      ensures inner[i].id != outer[j].id
    {
      assert 1 <= inner[i].id.layer <= |b.lattice.layerRanges|;
      assert outer[j].id.layer in indices;
    }
    DistinctAppend(inner, outer);
  }

  /** The error `generate_layer` stops with for `cfg`, if any: a missing fill material is found first. */
  function LayerError(cfg: LayerConfig, width: real, height: real, openings: seq<Opening>, maxPasses: nat): (r: Option<Error>)
    ensures r.None? <==> HasFill(cfg) && LayerConverges(cfg, width, height, openings, maxPasses)
  {
    if !HasFill(cfg) then Some(NoFillMaterial)
    else if !LayerConverges(cfg, width, height, openings, maxPasses) then Some(NotConverged)
    else None
  }

  /** The error of the first layer configuration in `cfgs` that fails, if any. */
  function FirstLayerError(cfgs: seq<LayerConfig>, width: real, height: real, openings: seq<Opening>, maxPasses: nat)
    : (r: Option<Error>)
    ensures r.None? <==> forall i :: 0 <= i < |cfgs| ==> LayerError(cfgs[i], width, height, openings, maxPasses).None?
    ensures r.Some? ==> exists i :: 0 <= i < |cfgs| && LayerError(cfgs[i], width, height, openings, maxPasses) == r
                          && forall j :: 0 <= j < i ==> LayerError(cfgs[j], width, height, openings, maxPasses).None?
    decreases |cfgs|
  {
    if cfgs == [] then None
    else
      var e := LayerError(cfgs[0], width, height, openings, maxPasses);
      if e.Some? then e
      else
        var rest := FirstLayerError(cfgs[1..], width, height, openings, maxPasses);
        assert forall i :: 1 <= i < |cfgs| ==> cfgs[i] == cfgs[1..][i - 1];
        if rest.Some? then
          var i :| 0 <= i < |cfgs| - 1 && LayerError(cfgs[1..][i], width, height, openings, maxPasses) == rest
                   && forall j :: 0 <= j < i ==> LayerError(cfgs[1..][j], width, height, openings, maxPasses).None?;
          assert LayerError(cfgs[i + 1], width, height, openings, maxPasses) == rest;
          rest
        else rest
  }

  /** Walking the configurations: the first error from `i` on is the `i`-th layer's, or the first from `i + 1` on. */
  lemma FirstLayerErrorStep(cfgs: seq<LayerConfig>, i: nat, width: real, height: real, openings: seq<Opening>, maxPasses: nat)
    requires i < |cfgs|
    ensures FirstLayerError(cfgs[i..], width, height, openings, maxPasses)
         == if LayerError(cfgs[i], width, height, openings, maxPasses).Some?
            then LayerError(cfgs[i], width, height, openings, maxPasses)
            else FirstLayerError(cfgs[i + 1..], width, height, openings, maxPasses)
  {
    assert cfgs[i..][1..] == cfgs[i + 1..];
  }

  /**
   * `generate_wall_buildup`: the lattice, then every configured layer in
   * order; the first error stops generation and is returned. When the
   * configured layer indices are separate, every id in the wall is unique.
   */
  method GenerateWallBuildup(panel: string, width: real, height: real, openings: seq<Opening>,
                             latticeCfg: LatticeConfig, layerCfgs: seq<LayerConfig>, k: Kernel, maxPasses: nat)
    returns (r: Result<WallBuildUp>)
    ensures !KnownProfile(latticeCfg.panelType) ==> r == Err(UnknownPanelType(latticeCfg.panelType))
    ensures r.Err? ==> r.error in {UnknownPanelType(latticeCfg.panelType), NotConverged, NoFillMaterial}
    ensures r.Ok? <==>
      && KnownProfile(latticeCfg.panelType)
      && PostPositions(width, latticeCfg, openings, maxPasses).Some?
      && TraversePositions(height, latticeCfg, openings, maxPasses).Some?
      && forall i :: 0 <= i < |layerCfgs| ==>
           HasFill(layerCfgs[i]) && LayerConverges(layerCfgs[i], width, height, openings, maxPasses)
    ensures r.Ok? ==>
      && r.value.panel == panel && r.value.width == width && r.value.height == height && r.value.openings == openings
      && LatticeSpec(r.value.lattice, panel, width, height, openings, latticeCfg, k, maxPasses)
      && |r.value.layers| == |layerCfgs|
      && forall i :: 0 <= i < |layerCfgs| ==>
           LayerSpec(r.value.layers[i], panel, width, height, openings, layerCfgs[i], k, maxPasses)
    ensures KnownProfile(latticeCfg.panelType)
            && (PostPositions(width, latticeCfg, openings, maxPasses).None?
                || TraversePositions(height, latticeCfg, openings, maxPasses).None?)
            ==> r == Err(NotConverged)
    ensures KnownProfile(latticeCfg.panelType)
            && PostPositions(width, latticeCfg, openings, maxPasses).Some?
            && TraversePositions(height, latticeCfg, openings, maxPasses).Some?
            && FirstLayerError(layerCfgs, width, height, openings, maxPasses).Some?
            ==> r == Err(FirstLayerError(layerCfgs, width, height, openings, maxPasses).value)
    ensures r.Ok? && SeparateIndices(layerCfgs, |r.value.lattice.layerRanges|) ==> DistinctIds(r.value.Elements())
  {
    var lattice := GenerateLatticeLayout(panel, width, height, openings, latticeCfg, k, maxPasses);
    if lattice.Err? {
      return Err(lattice.error);
    }
    var layers: seq<Layer> := [];
    for i := 0 to |layerCfgs|
      invariant |layers| == i
      invariant forall j :: 0 <= j < i ==>
        HasFill(layerCfgs[j]) && LayerConverges(layerCfgs[j], width, height, openings, maxPasses)
      invariant forall j :: 0 <= j < i ==> LayerSpec(layers[j], panel, width, height, openings, layerCfgs[j], k, maxPasses)
      invariant FirstLayerError(layerCfgs, width, height, openings, maxPasses)
             == FirstLayerError(layerCfgs[i..], width, height, openings, maxPasses)
    {
      FirstLayerErrorStep(layerCfgs, i, width, height, openings, maxPasses);
      var layer := GenerateLayer(panel, width, height, openings, layerCfgs[i], k, maxPasses);
      if layer.Err? {
        return Err(layer.error);
      }
      LayersGrow(layers, layer.value, panel, width, height, openings, layerCfgs, k, maxPasses);
      layers := layers + [layer.value];
    }
    var wall := WallBuildUp(panel, width, height, openings, lattice.value, layers);
    if SeparateIndices(layerCfgs, |wall.lattice.layerRanges|) {
      LatticeIds(wall.lattice, panel, width, height, openings, latticeCfg, k, maxPasses);
      WallIdsDistinct(wall, panel, width, height, openings, layerCfgs, k, maxPasses);
    }
    r := Ok(wall);
  }
}
