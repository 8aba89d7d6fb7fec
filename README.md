# Timber wall lattice layout — a Dafny model

This project models the layout engine of a timber-wall design tool. The engine
reads a wall panel's triangle mesh and projects it onto the façade plane. It
finds the openings (windows and doors) as the voids of that projection. From
them it lays out a cross-laminated lattice: odd layers carry vertical posts,
even layers carry horizontal traverses, and insulation fills what the slats
and openings leave free. Further battened layers (battens at a pitch, with a
fill material between them) can be added outside the lattice.

The model covers the following steps:

- Projecting the mesh and extracting openings (`Openings`).
- Looking up the thickness profile of a panel type and stacking its layer
  ranges (`Thickness`).
- Placing slats by repeatedly filling gaps wider than one pitch (`Positions`).
- Merging slat intervals and finding the insulation bands between them
  (`Bands`).
- Turning polygon pieces into elements with ids (`Layout`).
- Generating the lattice (`Lattice`) and the whole build-up (`BuildUp`).

The polygon kernel is not modelled. Cutting a slat or band by the openings,
the dilate-then-erode healing, unions and areas are left to functions passed
in as parameters (`Layout.Kernel`, `Openings.VoidKernel`). The model proves
what the engine does with the pieces the kernel returns. Coordinates are exact
reals.

The filler loop in the source runs until a pass adds nothing. The model gives
it a pass budget. Running out of budget is the `NotConverged` error, and the
filler's specification `Positions.Fill` says exactly when that happens.
Element ids are structured values (`Layout.ElementId`) rather than formatted
strings.

## Model

| member | source | states |
|---|---|---|
| Geometry.CollectPolygons | core/src/wall.py:273-288 | the flattening of a geometry is empty exactly when the geometry is empty, and a polygon is in it exactly when it is a leaf of the geometry tree |
| Geometry.CollectParts | core/src/wall.py:278-282 | a collection's parts flatten to nothing exactly when every part is empty, and a polygon is listed exactly when some part has it as a leaf |
| Geometry.CollectPartsAppend | core/src/wall.py:280-281 | flattening parts one after another concatenates their flattenings in order |
| Geometry.CollectionInOrder | core/src/wall.py:278-282 | a collection yields its parts' polygons in part order, so appending a polygon part appends that polygon |
| Geometry.EmptyHasNoLeaf | core/src/wall.py:274-275 | an empty geometry has no polygon leaf |
| Openings.Opening.Bounds | core/src/openings.py:21-30 | the bounding box is as wide and tall as the opening and is centred on its centre |
| Openings.Triangle.Area | core/src/openings.py:61-65 | a projected triangle's area is never negative |
| Openings.ProjectedTrianglesInFaceOrder | core/src/openings.py:50-67 | the projection keeps, in face order, exactly the faces whose triangle passes the area-and-validity filter, one triangle per kept face |
| Openings.PolygonsFromProjection | core/src/openings.py:50-67 | the face loop returns exactly the filtered projected triangles |
| Openings.CreateUnionProjections | core/src/openings.py:70-89 | fails with the no-faces error exactly when there are no faces; otherwise each of the three planes holds the union of its kept triangles, or the empty polygon when none is kept |
| Openings.CollectPolys | core/src/openings.py:114-124 | the local flattening returns the same polygons, in the same order, as the layout engine's flattening |
| Openings.ComputeOpeningVoids | core/src/openings.py:92-126 | the voids are empty for an empty union or an empty difference; otherwise a polygon is a void exactly when it is a leaf of the envelope minus the union, healed only when the tolerance is positive |
| Openings.OpeningOfVoid | core/src/openings.py:147-162 | a void becomes an opening exactly when it is valid, reaches the minimum area and its box reaches the minimum width and height; the opening's bounds are the void's box |
| Openings.PassingVoidsExact | core/src/openings.py:147-154 | the indices of passing voids increase and are exactly the voids that pass the thresholds |
| Openings.OpeningsFollowVoids | core/src/openings.py:146-163 | the k-th opening comes from the k-th passing void, so void order is kept and there are never more openings than voids |
| Openings.ExtractOpeningsFromZx | core/src/openings.py:129-163 | the openings are the threshold-passing voids of the projected union, in order, each at least the minimum width and height |
| Openings.ColumnMax | core/src/openings.py:173-175 | the column maximum bounds every vertex coordinate on that axis from above |
| Openings.ColumnMin | core/src/openings.py:173-175 | the column minimum bounds every vertex coordinate on that axis from below |
| Openings.ColumnBoundsAttained | core/src/openings.py:173-175 | the column maximum and minimum are each some vertex's coordinate |
| Openings.Extent | core/src/openings.py:173-175 | a panel dimension (max minus min of a column) is never negative |
| Openings.ExtentBoundsSpread | core/src/openings.py:173-175 | no two vertices differ on an axis by more than the extent on that axis |
| Openings.OpeningsAreaAppend | core/src/openings.py:179 | the openings' area of two lists is the sum of their areas |
| Openings.OpeningsAreaNonNegative | core/src/openings.py:179 | openings of non-negative size have a non-negative total area |
| Openings.ComputePanelMetrics | core/src/openings.py:166-194 | width, thickness and height are the extents of the x, y and z columns and are non-negative, the gross area is the union's area, the net area plus the openings' area is the gross area, and gross minus net volume is the openings' area times the thickness |
| Thickness.LayerThickness | core/src/wall.py:186-196 | an unknown panel type is an error naming it; a known one gives 3 or 5 positive thicknesses, as the name's first digit says |
| Thickness.ProfileTotals | core/src/wall.py:187-193 | each profile's layers add up to the number in its name, except 5L210, whose layers add up to 200 |
| Thickness.RangeThickness | core/src/wall.py:199-205 | range i runs from the sum of the thicknesses before layer i to that sum plus layer i's thickness |
| Thickness.RangesContiguous | core/src/wall.py:199-205 | the ranges start at 0, are as wide as their layers, each starts where the previous one ends, and the last ends at the total thickness |
| Thickness.SumPositive | core/src/wall.py:199-205 | positive thicknesses stack to a positive total |
| Positions.Clamp | core/src/wall.py:241 | the clamp lies in [0, limit], keeps values already there, and sends values below 0 to 0 and values above the limit to the limit |
| Positions.Insert | core/src/wall.py:218 | inserting into a sorted duplicate-free list keeps it sorted without duplicates and adds exactly that value |
| Positions.Normalize | core/src/wall.py:218 | sorting a set gives an increasing list with exactly the input's values |
| Positions.IncreasingUnique | core/src/wall.py:218 | two increasing lists with the same values are equal, so the sorted set is unique |
| Positions.NormalizeOfIncreasing | core/src/wall.py:242 | sorting the set of an already increasing list returns it unchanged |
| Positions.StepsBounds | core/src/wall.py:227 | the step count is the number of whole pitches in the gap, and it is at least one in a gap wider than a pitch |
| Positions.GapFillLast | core/src/wall.py:228-231 | a gap wider than a pitch gets one candidate per whole pitch, and the last is pulled back flush with the right end when the slat would overshoot |
| Positions.ProposeGap | core/src/wall.py:224-236 | after the step loop, the new list holds exactly the candidates proposed so far, this gap's included, that are not already placed |
| Positions.ProposePass | core/src/wall.py:221-237 | after one pass the new list holds exactly the pass's candidates that are not already placed, and a change is reported exactly when the list is not yet stable |
| Positions.FreshStable | core/src/wall.py:221-238 | a pass records a new position exactly when the list is not yet stable |
| Positions.FillPositions | core/src/wall.py:208-242 | the filler returns exactly `Fill`: the clamped sorted set for a non-positive pitch, otherwise the passes run to a stable list and the result is clamped; out of passes is None |
| Positions.IterateGrows | core/src/wall.py:219-239 | the passes never drop a position |
| Positions.IterateStable | core/src/wall.py:219-239 | the passes stop only at a list to which a further pass would add nothing |
| Positions.FillOutput | core/src/wall.py:208-242 | any result is increasing, lies in [0, limit] and holds the clamp of every forced position |
| Positions.FillNonPositivePitch | core/src/wall.py:214-216 | a non-positive pitch adds nothing: the result holds exactly the clamped forced positions |
| Positions.CandidatesInside | core/src/wall.py:223-236 | every candidate of a pass lies strictly inside some gap between neighbours and belongs to that gap's fill |
| Positions.OnePassDense | core/src/wall.py:219-239 | with a slat no wider than the pitch, after one pass no two neighbours are more than a pitch apart |
| Positions.OnePassBounds | core/src/wall.py:219-239 | one pass stays within [0, limit] and below the last position |
| Positions.DenseStable | core/src/wall.py:223-237 | a list whose neighbours are at most a pitch apart gets no candidates, so it is stable |
| Positions.FillFixedPoint | core/src/wall.py:208-242 | an increasing, dense list inside [0, limit] is returned unchanged |
| Positions.FillRegular | core/src/wall.py:208-242 | with a slat no wider than the pitch and forced positions inside [0, limit], the filler finishes in two passes with an increasing dense result in range that keeps every forced position |
| Positions.FillIdempotent | core/src/wall.py:208-242 | for forced positions that hold 0 and the limit, filling the filler's own result again, with any budget of at least one pass, returns it unchanged |
| Positions.StartLimit | core/src/wall.py:251 | the start limit is the extent minus the slat width, or 0 when that is negative |
| Positions.Forced | core/src/wall.py:252-255 | the forced positions are 0, the limit, then each opening's near edge minus the slat width and its far edge |
| Positions.SeedPositions | core/src/wall.py:252-255 | the seeding loop builds exactly the forced positions |
| Positions.ComputePositions | core/src/wall.py:245-270 | post and traverse positions are the filler run on the forced positions; any result is increasing, in [0, limit] and holds 0 and the limit |
| Positions.ForcedMembers | core/src/wall.py:252-255 | both ends and both edges of every opening are among the forced positions |
| Positions.ForcedWithin | core/src/wall.py:252-255 | forced positions lie in [0, limit] when the openings' edges do |
| Positions.RegularPositions | core/src/wall.py:245-270 | for openings inside the panel, positions exist within two passes, keep both ends and every opening edge, are dense and are a fixed point of the filler |
| Positions.PositionsIdempotent | core/src/wall.py:245-270 | computing positions again from the positions already computed, with any budget of at least one pass, returns them unchanged |
| Bands.SlatSpan | core/src/wall.py:460-461 | a slat's interval lies in [0, extent], is min(slat width, extent) long, and starts at the position itself when that fits |
| Bands.Spans | core/src/wall.py:458-462 | one slat interval per position; for a non-negative extent and slat width they are well formed and lie in [0, extent] |
| Bands.SlatIntervals | core/src/wall.py:458-462 | the loop builds exactly `Spans`, one interval per traverse position, in position order |
| Bands.InsertByStart | core/src/wall.py:465 | inserting into a start-sorted list keeps it sorted and adds exactly one interval |
| Bands.SortByStart | core/src/wall.py:465 | sorting by start gives a start-sorted permutation of the intervals |
| Bands.SortStable | core/src/wall.py:465 | the sort is stable: the intervals with any one start come out in the order they came in |
| Bands.InsertStable | core/src/wall.py:465 | inserting an interval puts it after every interval with the same start |
| Bands.WithStartAppend | core/src/wall.py:465 | selecting the intervals with one start distributes over concatenation |
| Bands.MergeIntervals | core/src/wall.py:466-477 | the merge loop returns exactly the merge of the sorted intervals |
| Bands.AbsorbSeparated | core/src/wall.py:468-476 | one round of the merge loop keeps the merged intervals well formed and separated by more than eps |
| Bands.AbsorbGrows | core/src/wall.py:468-476 | one round of the merge loop keeps every start, never shrinks an end, and covers the new interval when it starts no earlier than the last merged one |
| Bands.MergeSeparated | core/src/wall.py:466-477 | merged intervals are well formed and separated by more than eps, in increasing order |
| Bands.MergeBounds | core/src/wall.py:466-477 | the merge keeps the intervals' bounds, is empty only for no intervals, and starts where the first interval starts |
| Bands.MergeLastStart | core/src/wall.py:472-476 | the last merged interval starts no later than the last input interval |
| Bands.MergeContains | core/src/wall.py:466-477 | every sorted interval lies within some merged interval |
| Bands.ComputeGaps | core/src/wall.py:479-487 | the gap loop returns exactly the gaps between the merged intervals and the panel's ends |
| Bands.BandsPartition | core/src/wall.py:458-487 | the gaps are sorted, lie in [0, height], are longer than eps, overlap no merged interval, and together with the merged intervals reach every height to within eps |
| Bands.GapsCover | core/src/wall.py:479-487 | every height in [0, height] is within eps of a merged interval or a gap |
| Bands.SortedKeepsBounds | core/src/wall.py:465 | sorting keeps every interval well formed and within the panel |
| Layout.PieceElement | core/src/wall.py:357-376 | an element records its piece's box, its layer's depth range, id, type and orientation, and a non-sliver piece gives width and length above the sliver tolerance |
| Layout.SlatBox | core/src/wall.py:348-350 | a post spans the full height and a traverse the full width, across the slat's interval, inside the panel envelope |
| Layout.SlatMembers | core/src/wall.py:346-377 | the slat loop returns exactly the elements and pieces of the layer's slat run: each position's kernel pieces in position order and, within a slat, in the kernel's order, slivers skipped, the n-th kept piece numbered segment n under its position index |
| Layout.SlatSegments | core/src/wall.py:357-377 | the piece loop of one slat appends, in the kernel's order, one element per non-sliver piece, numbered on from the running segment counter, and skips slivers |
| Layout.Kept | core/src/wall.py:357-360 | a piece is kept exactly when it is one of the slat's pieces and is not a sliver, and no more pieces are kept than there were |
| Layout.SlatRunSound | core/src/wall.py:346-377 | every piece in the slat run is a non-sliver piece of the slat whose position index it carries |
| Layout.SlatRunComplete | core/src/wall.py:346-377 | every non-sliver piece of every slat is in the run, under its slat's position index |
| Layout.SlatRunAscending | core/src/wall.py:346-377 | position indices never decrease along the run: slats come in position order |
| Layout.SlatRunLayer | core/src/wall.py:346-377 | the slat elements are one per kept piece, in order, each recording its piece, its slat's position index and its place as segment number, under distinct ids, every non-sliver piece emitted, position indices in order |
| Layout.FillMembers | core/src/wall.py:424-452 | the insulation loop returns exactly the fill elements of the pieces the kernel leaves around the slat pieces and openings |
| Layout.FillElementsShape | core/src/wall.py:438-452 | every fill element is a non-sliver piece recorded under its place among all pieces, and the places increase |
| Layout.FillElementsComplete | core/src/wall.py:438-452 | every non-sliver insulation piece gets an element under its place number |
| Layout.BandMembers | core/src/wall.py:490-515 | the band loop returns the band elements, with ids numbered by gap and by piece within the gap (the corrected scheme of the finding below) |
| Layout.GapElementsShape | core/src/wall.py:497-515 | every element of a band is a non-sliver piece of that band, recorded under its gap and piece number |
| Layout.GapElementsIncreasing | core/src/wall.py:497-515 | piece numbers within a band increase |
| Layout.GapElementsComplete | core/src/wall.py:497-515 | every non-sliver piece of a band gets an element |
| Layout.BandElementsShape | core/src/wall.py:490-515 | every band element is a non-sliver piece of its gap's band |
| Layout.BandElementsOrdered | core/src/wall.py:490-515 | band elements come in gap order, then piece order |
| Layout.BandElementsComplete | core/src/wall.py:490-515 | every non-sliver piece of every gap's band gets an element |
| Layout.BandIdsDistinct | core/src/wall.py:490-515 | with ids numbered by gap and piece, the band elements of a layer have distinct ids |
| Layout.BandIdsCollide | core/src/wall.py:501 | with the id as written, a band cut in two by an opening gives two elements with the same id |
| Layout.LayerGapsPartition | core/src/wall.py:458-487 | a horizontal layer's insulation bands lie in [0, height], are longer than eps, are sorted, overlap no traverse, and with the traverses reach every height to within eps |
| Layout.SlatsPlaced | core/src/wall.py:361-376 | every slat carries the layer's panel, index, depth range, slat type and run orientation |
| Layout.FillPlaced | core/src/wall.py:438-452 | every insulation piece carries the layer's panel, index, depth range, fill type and surface orientation, under distinct ids |
| Layout.BandsPlaced | core/src/wall.py:500-514 | every band element carries the layer's panel, index, depth range, fill type and surface orientation |
| Layout.LayerDistinct | core/src/wall.py:341-515 | slat ids and insulation ids never clash, so a layer's ids are distinct |
| Layout.LayerMembers | core/src/wall.py:341-515 | a layer is exactly its slats then its insulation (`LayerElements`): the slat run, then nothing when insulation is off, the fill around the slat pieces for posts, and the band elements between the traverses, band pieces numbered by gap and piece |
| Layout.LayerFacts | core/src/wall.py:341-515 | a layer's slats are one per kept slat piece with every non-sliver piece emitted, a post layer's fill is one per non-sliver remainder piece, and every element lies on the layer with its layer's types under distinct ids |
| Lattice.LatticeLayout.ElementsOfType | core/src/wall.py:60-61 | an element is listed exactly when it is in the layout and has the type, in layout order |
| Lattice.OfType | core/src/wall.py:61 | an element is kept exactly when it is in the list and has the type |
| Lattice.OfTypeAppend | core/src/wall.py:61 | filtering by type distributes over concatenation, so the filter keeps the list's order |
| Lattice.OfTypeCons | core/src/wall.py:61 | the filter keeps the first element exactly when it has the type, then filters the rest alike |
| Lattice.OnLayerAppend | core/src/wall.py:341-515 | the elements of one layer in two lists placed end to end are those of each list, in order |
| Lattice.OnLayerAll | core/src/wall.py:341-515 | a list whose elements all lie on one layer is that layer's whole content |
| Lattice.EarlierLayersKept | core/src/wall.py:341-515 | adding a layer leaves every earlier layer's elements unchanged, and the new layer holds exactly what was added |
| Lattice.DistinctAppend | core/src/wall.py:341-515 | two id-distinct lists with no id in common stay id-distinct when joined |
| Lattice.LatticeThickness | core/src/wall.py:326-327 | every lattice element is as thick as its layer in the panel type's profile |
| Lattice.LatticeStepPlaced | core/src/wall.py:341-515 | after each layer, every element lies on a layer of the profile, within that layer's depth range, and carries its layer in its id |
| Lattice.LatticeStepDistinct | core/src/wall.py:341-515 | ids of a new layer never clash with those of earlier layers |
| Lattice.LatticeStep | core/src/wall.py:341-515 | after each layer, every layer built so far holds exactly its slats and insulation |
| Lattice.BuildLayers | core/src/wall.py:341-515 | the layer loop yields elements that all lie on the profile's layers with their layers' ranges, orientations and types, under distinct ids, and every layer holds exactly its slats and insulation, band pieces numbered by gap and piece; layer numbers never decrease, so the list is exactly layer 1's elements, then layer 2's, and so on |
| Lattice.LatticeStepBuilt | core/src/wall.py:341-515 | after each layer, the new layer and every earlier one hold exactly their slats and insulation |
| Lattice.NewLayerBuilt | core/src/wall.py:341-515 | when the elements on the new layer are exactly what its slat and insulation loops emit, the new layer is built as specified |
| Lattice.LatticeStepFacts | core/src/wall.py:341-515 | adding a layer keeps every element on a profile layer within its range, keeps ids distinct, and puts every added element on the new layer |
| Lattice.GenerateLatticeLayout | core/src/wall.py:298-522 | an unknown panel type is an error naming it; otherwise the layout exists exactly when both position fillers finish, and it is the profile's layers of posts and traverses with insulation, under distinct ids, band pieces numbered by gap and piece, placed layer after layer from layer 1 up |
| Lattice.AscendingAppend | core/src/wall.py:341-515 | appending a layer above every earlier one keeps layer numbers ascending along the list |
| Lattice.ByLayersOfAscending | core/src/wall.py:341-515 | a list whose layer numbers ascend within 1 to n is its layers' elements placed end to end, layer 1 first |
| Lattice.ByLayersSplit | core/src/wall.py:341-515 | elements below layer n, already grouped by layer, followed by elements on layer n, group into themselves |
| Lattice.LowerGrouping | core/src/wall.py:341-515 | appending elements on layer n leaves the grouping of the layers below n unchanged |
| Lattice.TopLayer | core/src/wall.py:341-515 | of elements below layer n followed by elements on n, layer n holds exactly the latter |
| Lattice.KeepsLowerLayers | core/src/wall.py:341-515 | appending elements on layer n leaves the content of every lower layer unchanged |
| Lattice.ByLayersStep | core/src/wall.py:341-515 | one more built layer extends the layer-by-layer list by exactly that layer's slats and insulation |
| Lattice.ByLayersEmpty | core/src/wall.py:341-515 | an empty list groups into nothing |
| Lattice.LatticeByLayers | core/src/wall.py:341-515 | a lattice whose layers ascend and are each built is exactly layer 1's slats and insulation, then layer 2's, up to the profile's last layer |
| Lattice.LayerRun | core/src/wall.py:344 | odd layers carry posts, oriented vertically, and even layers traverses, oriented horizontally |
| Lattice.LayersCross | core/src/wall.py:344 | neighbouring layers run crosswise: posts on one, traverses on the next |
| Lattice.RunPositions | core/src/wall.py:245-270 | a run's positions, when the filler finishes, are increasing, lie in [0, limit], hold 0, the limit and both clamped edge positions of every opening; a non-positive pitch always finishes |
| Lattice.ForcedFill | core/src/wall.py:251-256 | the filler seeded with a run's forced positions gives a valid run of positions, and always does for a non-positive pitch |
| Lattice.PostPositions | core/src/wall.py:245-256 | the posts, when found, are increasing within [0, width - slat width], from 0 to that limit, with a post beside each side of every opening |
| Lattice.TraversePositions | core/src/wall.py:259-270 | the traverses, when found, are increasing within [0, height - slat width], from 0 to that limit, with a traverse beside each side of every opening |
| Lattice.LatticeIds | core/src/wall.py:341-515 | a generated lattice's ids are distinct and each names one of its layers |
| Lattice.PlacedThickness | core/src/wall.py:326-327 | elements placed on a profile's layers are as thick as their layer |
| Layout.Sliver | core/src/wall.py:359 | any piece that is not a sliver has a positive width and length, and a degenerate piece is always a sliver |
| BuildUp.FillMaterial | core/src/wall.py:578 | the fill material is the first key that is not `batten`, and there is none exactly when every key is `batten` |
| BuildUp.GenerateLayer | core/src/wall.py:526-775 | a battened layer without a fill material is an error; otherwise the layer fails only when its filler does not finish, and a battened layer with a known orientation holds its battens and fill (band pieces numbered by gap and piece), while any other layer holds nothing |
| BuildUp.WallBuildUp.LayersOfType | core/src/wall.py:169-170 | a layer is listed exactly when it is in the build-up and has the name |
| BuildUp.Named | core/src/wall.py:170 | the name filter keeps exactly the layers with that name |
| BuildUp.NamedAppend | core/src/wall.py:170 | filtering by name distributes over concatenation, so the filter keeps the layers' order |
| BuildUp.NamedCons | core/src/wall.py:170 | the filter keeps the first layer exactly when it has the name, then filters the rest alike |
| BuildUp.TotalThicknessOfProfile | core/src/wall.py:163-167 | the total thickness is the profile's total plus the further layers' thicknesses |
| BuildUp.LayersThicknessNonNegative | core/src/wall.py:166 | layers that are not inverted add a non-negative thickness |
| BuildUp.LayersGrow | core/src/wall.py:800-810 | appending the next generated layer keeps every layer matched to its configuration |
| BuildUp.LayerError | core/src/wall.py:577-585 | a layer configuration has no error exactly when it has a fill material (if battened) and its filler finishes |
| BuildUp.FirstLayerError | core/src/wall.py:800-810 | there is no error exactly when no configuration has one, and otherwise it is the error of the first configuration that has one |
| BuildUp.FirstLayerErrorStep | core/src/wall.py:801-810 | walking the configurations, the first error from one on is that configuration's own, or else the first from the next one on |
| BuildUp.GenerateWallBuildup | core/src/wall.py:777-822 | the build-up exists exactly when the lattice and every layer can be generated; it then holds that lattice and one layer per configuration, in order; otherwise the error is the lattice's (unknown type, then filler) or else the first failing layer's; when the configured layer indices are separate, every id in the wall is unique |
| BuildUp.OrientationRun | core/src/wall.py:580-658 | only `vertical` and `horizontal` name a run, and the battens then have that orientation |
| BuildUp.WallBuildUp.TotalThickness | core/src/wall.py:163-167 | a wall whose lattice ends at a non-negative face and whose layers are not inverted is at least as thick as its further layers, which add a non-negative thickness |
| BuildUp.WallBuildUp.Elements | core/src/wall.py:154-161 | every element of the wall is the lattice's, first, then the further layers' |
| BuildUp.LayerIds | core/src/wall.py:600-604 | a generated layer's elements have distinct ids, each carrying the configured layer index |
| BuildUp.StackedIdsDistinct | core/src/wall.py:800-810 | layers id-distinct within themselves, whose ids carry pairwise distinct layer indices, are id-distinct together |
| BuildUp.WallIdsDistinct | core/src/wall.py:118-120 | with layer indices pairwise distinct and outside the lattice's layer numbers, the lattice and the further layers together have no repeated id |

## Left out

- The polygon kernel is a parameter, so no geometric fact about it is modelled. This covers the box difference, the union of triangles and of the occupied pieces, and the dilate-then-erode healing (`_heal`, wall.py:291-295). It also covers polygon areas and validity. The slat, insulation and band pieces are whatever the kernel returns.
- The opening clearance (`OPENING_CLEARANCE`, wall.py:8) and the choice between precise void shapes and rectangular opening boxes (wall.py:312-324) are folded into the kernel. They only change the geometry the kernel subtracts.
- Floating-point arithmetic is not modelled: coordinates and tolerances are exact reals.
- Set membership tests in the filler compare reals exactly, as the source compares floats exactly.
- The interval sort (`Bands.SortByStart`) is an insertion sort. Like Python's `list.sort`, it is stable (`Bands.SortStable`). Python's algorithm itself is not modelled.
- Positions.FillPositions: the source loops until a pass changes nothing, with no bound. The model gives the loop a pass budget and reports `NotConverged` when the budget runs out. `FillRegular` shows two passes always suffice in the regular case.
- Positions.FillRegular: the regular-case guarantees assume a positive slat width no larger than the pitch. With a wider slat the last candidate of a gap can fall back onto the gap's left end.
- Positions.RegularPositions: density and the two-pass bound also need every opening's forced positions to fall inside [0, limit]. Idempotence needs no such bound (`Positions.PositionsIdempotent`).
- Layout.LayerGapsPartition: stated for a non-empty list of positions, which the filler always returns because it keeps 0 and the limit.
- Openings.ComputePanelMetrics: an empty vertex list makes the array reductions fail in the source. The model requires at least one vertex instead of modelling that failure.
- Layout.BandMembers: band pieces get the corrected ids, numbered by gap and piece. The ids as written (`Layout.BandIdsCollide`) can repeat; see Findings.
- Layout.LayerMembers: the horizontal layers' band pieces get the corrected ids of `Layout.BandMembers`.
- Lattice.BuildLayers: the lattice's band pieces get the corrected ids. The lattice as written is the same with `BandElements(AsWritten, …)`.
- Lattice.GenerateLatticeLayout: the lattice's band pieces get the corrected ids, as in `Lattice.BuildLayers`.
- BuildUp.GenerateLayer: the band pieces of a horizontal battened layer (wall.py:747) get the corrected ids.
- BuildUp.GenerateWallBuildup: ids are unique across the whole wall only when the configured layer indices are pairwise distinct and none is a lattice layer number (the -2, -1, 6, 7 convention of wall.py:120). The source never checks this, so the model states uniqueness under that condition (`BuildUp.SeparateIndices`). Two layers configured with the same index get colliding ids.
- Element ids are kept as structured values rather than the formatted strings of wall.py:362, 397, 438 and 501.
- `LatticeElement.length`, `width` and `thickness` (wall.py:23-33) and `Layer.thickness` (wall.py:133-134) are modelled as plain accessor functions with no contract of their own.
- The `as_dict` serialisers (wall.py:35-50, 63-72, 101-116, 136-150, 172-180) are not modelled.
- `LayerElement` (wall.py:75-116) is not modelled: `generate_layer` emits lattice elements.
- The `continuous` layer type is commented out in the source (wall.py:562-573) and is not modelled. Every non-battened layer has no elements.
- A `materials` value of `None` is modelled as an empty material list. For a battened layer both make the fill-material lookup fail.
- The `layer_index` of `generate_layer` is annotated as a string but used as a layer number. It is modelled as an integer.
- The keyword-argument dictionaries of `generate_wall_buildup` (wall.py:790-810) are modelled as configuration records. A missing or unexpected key is not modelled.
- The `opening_voids` argument and field are folded into the kernel, like the clearance.
- Reading the mesh, numpy array handling and the plotting module (`viz.py`) are not part of this model.

## Findings

| source | as written | input that shows it | evidently intended | confidence | as-written member | corrected member |
|---|---|---|---|---|---|---|
| core/src/wall.py:501 (and 747) | every piece of a horizontal insulation band gets the id `{panel}-L{layer}-I{gap}`, numbered by gap only | panel W1, layer 2, one gap (0, 0.5) across a 3-wide panel, with the kernel cutting the band into two pieces (an opening in the middle): both pieces get the id `W1-L2-I1` | ids unique within the layout, numbering each piece within its gap, as the slat ids do with their segment counter | not executed | Layout.BandIdsCollide | Layout.BandIdsDistinct |
