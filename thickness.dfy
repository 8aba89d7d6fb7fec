/**
 * Thickness profiles of the cross-laminated lattice: the named table of
 * layer thicknesses and the running-offset ranges the layers occupy
 * through the wall, measured from its inner face.
 */
module Thickness {
  import opened Results

  /** Sum of a list of thicknesses, accumulated from the front as the offset loop does. */
  function Sum(ts: seq<real>): real {
    if ts == [] then 0.0 else Sum(ts[..|ts| - 1]) + ts[|ts| - 1]
  }

  /** The profile names the table knows. */
  predicate KnownProfile(panelType: string) {
    panelType in {"3L90", "3L110", "5L150", "5L180", "5L210"}
  }

  /**
   * `get_layer_thickness`: the table lookup. An unknown name is an error
   * naming it; a known one gives as many positive thicknesses as its first
   * character says (3 or 5 layers).
   */
  function LayerThickness(panelType: string): (r: Result<seq<real>>)
    ensures r.Err? <==> !KnownProfile(panelType)
    ensures r.Err? ==> r.error == UnknownPanelType(panelType)
    ensures r.Ok? ==> |r.value| == (if panelType[0] == '3' then 3 else 5)
    ensures r.Ok? ==> forall i :: 0 <= i < |r.value| ==> r.value[i] > 0.0
  {
    if panelType == "3L90" then Ok([30.0, 30.0, 30.0])
    else if panelType == "3L110" then Ok([40.0, 30.0, 40.0])
    else if panelType == "5L150" then Ok([30.0, 30.0, 30.0, 30.0, 30.0])
    else if panelType == "5L180" then Ok([40.0, 30.0, 40.0, 30.0, 40.0])
    else if panelType == "5L210" then Ok([40.0, 40.0, 40.0, 40.0, 40.0])
    else Err(UnknownPanelType(panelType))
  }

  /**
   * The digits after the `L` of a profile name give its total thickness for
   * every profile except `5L210`, whose layers add up to 200.
   */
  lemma ProfileTotals()
    ensures Sum(LayerThickness("3L90").value) == 90.0
    ensures Sum(LayerThickness("3L110").value) == 110.0
    ensures Sum(LayerThickness("5L150").value) == 150.0
    ensures Sum(LayerThickness("5L180").value) == 180.0
    ensures Sum(LayerThickness("5L210").value) == 200.0
  {
    SumSteps(LayerThickness("3L90").value);
    SumSteps(LayerThickness("3L110").value);
    SumSteps(LayerThickness("5L150").value);
    SumSteps(LayerThickness("5L180").value);
    SumSteps(LayerThickness("5L210").value);
  }

  /** The sum of a short list, written out term by term. */
  lemma SumSteps(s: seq<real>)
    requires |s| == 3 || |s| == 5
    ensures |s| == 3 ==> Sum(s) == s[0] + s[1] + s[2]
    ensures |s| == 5 ==> Sum(s) == s[0] + s[1] + s[2] + s[3] + s[4]
  {
    assert s[..0] == [];
    SumSnoc(s, 0);
    SumSnoc(s, 1);
    SumSnoc(s, 2);
    if |s| == 5 {
      SumSnoc(s, 3);
      SumSnoc(s, 4);
    }
    assert s[..|s|] == s;
  }

  /** Appending one thickness adds it to the sum. */
  lemma SumSnoc(ts: seq<real>, i: int)
    requires 0 <= i < |ts|
    ensures Sum(ts[..i + 1]) == Sum(ts[..i]) + ts[i]
  {
    assert ts[..i + 1][..i] == ts[..i];
  }

  /**
   * `ranges` is what `get_range_thickness` gives for `ts`: one range per
   * layer, from the running offset to the offset plus the layer's thickness.
   */
  ghost predicate RangesOf(ranges: seq<(real, real)>, ts: seq<real>) {
    |ranges| == |ts| && forall i :: 0 <= i < |ts| ==> ranges[i] == (Sum(ts[..i]), Sum(ts[..i]) + ts[i])
  }

  /** `get_range_thickness`: the running-offset loop. */
  method RangeThickness(ts: seq<real>) returns (ranges: seq<(real, real)>)
    ensures RangesOf(ranges, ts)
  {
    ranges := [];
    var offset := 0.0;
    for i := 0 to |ts|
      invariant offset == Sum(ts[..i])
      invariant |ranges| == i
      invariant forall j :: 0 <= j < i ==> ranges[j] == (Sum(ts[..j]), Sum(ts[..j]) + ts[j])
    {
      ranges := ranges + [(offset, offset + ts[i])];
      SumSnoc(ts, i);
      offset := offset + ts[i];
    }
  }

  /**
   * The ranges start at 0, each is as wide as its layer, each starts where
   * the previous one ends, and the last ends at the total thickness.
   */
  lemma RangesContiguous(ranges: seq<(real, real)>, ts: seq<real>)
    requires RangesOf(ranges, ts)
    ensures |ranges| > 0 ==> ranges[0].0 == 0.0
    ensures forall i :: 0 <= i < |ranges| ==> ranges[i].1 - ranges[i].0 == ts[i]
    ensures forall i :: 0 <= i < |ranges| - 1 ==> ranges[i].1 == ranges[i + 1].0
    ensures |ranges| > 0 ==> ranges[|ranges| - 1].1 == Sum(ts)
  {
    forall i | 0 <= i < |ranges| - 1
      ensures ranges[i].1 == ranges[i + 1].0
    {
      SumSnoc(ts, i);
    }
    if |ranges| > 0 {
      SumSnoc(ts, |ts| - 1);
      assert ts[..|ts|] == ts;
    }
  }

  /** Positive layer thicknesses add up to a positive total; no layers add up to zero. */
  lemma {:induction false} SumPositive(ts: seq<real>)
    requires forall i :: 0 <= i < |ts| ==> ts[i] > 0.0
    ensures ts != [] ==> Sum(ts) > 0.0
    ensures ts == [] ==> Sum(ts) == 0.0
    decreases |ts|
  {
    if ts != [] {
      SumPositive(ts[..|ts| - 1]);
    }
  }
}
