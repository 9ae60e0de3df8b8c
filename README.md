# shapefile-geo, modelled in Dafny

This project models the core of shapefile-geo, a Java library that answers a
point-in-polygon question for a labelled shapefile, such as "which country or
timezone holds this longitude and latitude?". It answers quickly because it
indexes the map by a grid of cells.

The model covers the library in five layers:

- **The grid index.** A `CellLocationReference` fixes the world envelope and
  the branching factor of each level. A `CellLocation` is a path of
  `(x, y)` child indices from the root cell. The model covers how a location
  is found for a coordinate, how it is written to and read from a shapefile
  attribute, and how its envelope is computed (`CellReference`,
  `CellLocations`).
- **Feature entries.** A `FeatureEntry` is a labelled geometry stored at a
  cell. Entries are written out and read back through `FeatureEntryFactory`
  (`Features`).
- **Simplification.** `LabeledGridSimplifier` splits every shape along the
  grid, level by level. It replaces a cell that holds one label with the cell's
  rectangle, and unions the rest by label (`GridSimplifier`,
  `SimplifierUtils`). `WaterDelaunayTriangulationSimplifier` labels the water
  left between the land shapes after the land around it (`Water`). Only its
  combinatorial part is modelled; the triangulation itself is an operation of
  the geometry engine.
- **Lookup.** `SimplifiedShapefileGeo.load` groups the stored entries by cell.
  `valueForCoordinate` then walks from the deepest cell holding a point toward
  the root, and answers from the first cell the map holds (`ShapefileGeo`).
- **Filters.** The label filters of `LabelFilters`, stacked with
  `BaseIndexedValues.with` (`Filters`).

A few conventions run through the model:

- Geometry operations of the JTS library are uninterpreted functions, held in
  the `Geometry.Engine` record. An operation that may throw inside a `try`
  returns an `Attempt`.
- Java exceptions are `Result` values whose `Error` names the exception's cause.
- A `null` label is `None`.
- Java's `int` is the `Int32` subset type. The hash codes wrap around
  explicitly, through `Wrap32`.
- The iteration order of a `HashMap` or `HashSet` is an arbitrary permutation,
  chosen by an `Order` function parameter. Every property stated about code
  that iterates a hash collection holds for every such order.

The shared modules:

- `Common` holds `Option`, `Result`, the 32-bit integers and hash iteration
  order.
- `Text` holds `Integer.toString`, `Integer.parseInt` and `String.split`.
- `Geometry` holds coordinates, envelopes and the engine.
- `Grouping` holds the "map of lists" that several loops build.

## Model

Source paths are relative to the root of the repository.

| member | source | states |
|---|---|---|
| Common.Wrap32 | src/main/java/com/foursquare/geo/shapes/indexing/CellLocation.java:121-123 | 32-bit `int` arithmetic: a value in range is kept; any value is congruent to its result modulo 2^32 |
| Common.Arrange | src/main/java/com/foursquare/geo/shapes/SimplifierUtils.java:58 | a hash collection yields exactly its keys, each as often as it holds it, in some order |
| Common.ArrangeIn | src/main/java/com/foursquare/geo/shapes/SimplifierUtils.java:58 | the iteration of a hash collection yields a key iff the collection holds it |
| Common.ArrangeDistinct | src/main/java/com/foursquare/geo/shapes/WaterDelaunayTriangulationSimplifier.java:207 | reordering a collection without repeated keys repeats none, and yields exactly its keys |
| Common.FlatMapFirstErr | src/main/java/com/foursquare/geo/shapes/LabeledGridSimplifier.java:173-182 | in a loop appending the results of a throwing call, the first call that throws decides the exception |
| Common.FlatMapFrom | src/main/java/com/foursquare/geo/shapes/LabeledGridSimplifier.java:173-182 | every element of the appended list comes from the result for some kept item |
| Common.FlatMapErr | src/main/java/com/foursquare/geo/shapes/LabeledGridSimplifier.java:173-182 | an exception of the loop is the exception of one kept item |
| Common.FlatMapErrAt | src/main/java/com/foursquare/geo/shapes/LabeledGridSimplifier.java:173-182 | a kept item whose call throws makes the loop throw |
| Text.IntToString | src/main/java/com/foursquare/geo/shapes/indexing/CellLocationReference.java:145 | `append(int)` writes at least one character, all digits except a leading minus sign |
| Text.ParseInt | src/main/java/com/foursquare/geo/shapes/indexing/CellLocationReference.java:67-70 | `Integer.parseInt` raises only NumberFormatException |
| Text.ParseIntToString | src/main/java/com/foursquare/geo/shapes/indexing/CellLocation.java:203-214 | `parseInt` reads back any `int` that `append(int)` wrote |
| Text.SplitJoin | src/main/java/com/foursquare/geo/shapes/indexing/CellLocationReference.java:62-65 | `split` on a separator undoes joining with it, when no part holds the separator and the last part is not empty |
| Text.SplitJoinTrailing | src/main/java/com/foursquare/geo/shapes/indexing/CellLocation.java:64-66 | `split` drops the empty piece after a trailing separator |
| Text.IntToStringFree | src/main/java/com/foursquare/geo/shapes/indexing/CellLocation.java:203-214 | the decimal form of an `int` holds no character other than digits and `-`, so no separator |
| Text.TerminatedJoin | src/main/java/com/foursquare/geo/shapes/indexing/CellLocation.java:203-214 | writing a separator after every part equals joining the parts with one more, empty, part |
| Geometry.CastDivFloor | src/main/java/com/foursquare/geo/shapes/LabeledGridSimplifier.java:61 | the `(int)` cast of a non-negative quotient that fits in an `int` is its floor |
| Grouping.Bucket | src/main/java/com/foursquare/geo/shapes/SimplifierUtils.java:42-54 | the list the map holds for a key is never longer than the input |
| Grouping.KeysBucket | src/main/java/com/foursquare/geo/shapes/SimplifierUtils.java:42-54 | a key is in the map iff some kept item has it, and then its list is not empty |
| Grouping.KeysCover | src/main/java/com/foursquare/geo/shapes/SimplifierUtils.java:42-54 | the key of every kept item is in the map |
| Grouping.KeysFrom | src/main/java/com/foursquare/geo/shapes/SimplifierUtils.java:42-54 | every key in the map is the key of a kept item |
| Grouping.KeysDistinct | src/main/java/com/foursquare/geo/shapes/SimplifierUtils.java:42-54 | the map holds no key twice |
| Grouping.BucketFrom | src/main/java/com/foursquare/geo/shapes/SimplifierUtils.java:42-54 | every value in a key's list comes from a kept item with that key |
| Grouping.GroupStep | src/main/java/com/foursquare/geo/shapes/SimplifierUtils.java:47-52 | one more item adds its key if new, and appends its value to its key's list only |
| Grouping.GroupBy | src/main/java/com/foursquare/geo/shapes/SimplifierUtils.java:42-54 | the grouping loop yields a map whose keys are the keys of the kept items, each holding that key's values in input order |
| CellReference.CellLocationReference.GetLevelSize | src/main/java/com/foursquare/geo/shapes/indexing/CellLocationReference.java:105-107 | the branching factor of a level inside the array; ArrayIndexOutOfBounds for any other level |
| CellReference.CellLocationReference.AttributeName | src/main/java/com/foursquare/geo/shapes/indexing/CellLocationReference.java:138-148 | the loop writes the "GI" prefix, then the level sizes in decimal, separated by "_" |
| CellReference.Tokens | src/main/java/com/foursquare/geo/shapes/indexing/CellLocationReference.java:145 | one decimal token per level size, in order |
| CellReference.NameStep | src/main/java/com/foursquare/geo/shapes/indexing/CellLocationReference.java:141-146 | each iteration of the loop appends "_" (except the first) and the next size |
| CellReference.ParseSizes | src/main/java/com/foursquare/geo/shapes/indexing/CellLocationReference.java:66-70 | the sizes parse iff every token is an `int`, giving one size per token in order; otherwise NumberFormatException |
| CellReference.Create | src/main/java/com/foursquare/geo/shapes/indexing/CellLocationReference.java:39-47 | the reference holds the envelope and a copy of the caller's level sizes |
| CellReference.FromAttributeName | src/main/java/com/foursquare/geo/shapes/indexing/CellLocationReference.java:57-72 | the parsing loop computes what `fromAttributeName` returns or raises |
| CellReference.EqualsIsEquality | src/main/java/com/foursquare/geo/shapes/indexing/CellLocationReference.java:123-132 | `equals` holds iff the envelopes and all level sizes are equal |
| CellReference.EqualsHashCode | src/main/java/com/foursquare/geo/shapes/indexing/CellLocationReference.java:118-120 | equal references have equal hash codes |
| CellReference.AttributeNameRoundTrip | src/main/java/com/foursquare/geo/shapes/indexing/CellLocationReference.java:57-72 | `fromAttributeName(envelope, r.attributeName())` gives back `r` for every reference with at least one level |
| CellReference.EmptyAttributeName | src/main/java/com/foursquare/geo/shapes/indexing/CellLocationReference.java:138-148 | a reference without levels is named "GI", which `fromAttributeName` rejects with NumberFormatException |
| CellReference.ParseAttributeNameErrors | src/main/java/com/foursquare/geo/shapes/indexing/CellLocationReference.java:57-72 | `fromAttributeName` raises the missing-prefix RuntimeException iff the name does not start with "GI"; with the prefix, a rest that splits into no tokens (such as "GI_") raises the no-sizes RuntimeException, a token that is not an `int` raises NumberFormatException, and otherwise the call succeeds |
| CellReference.UnderscoreOnlyName | src/main/java/com/foursquare/geo/shapes/indexing/CellLocationReference.java:62-65 | "GI_" splits into no tokens, because `split` drops trailing empty strings, and raises the no-sizes RuntimeException |
| CellLocations.CellLocation.Child | src/main/java/com/foursquare/geo/shapes/indexing/CellLocation.java:38-50 | `child` succeeds iff the location is above the deepest level, and the child's path is the parent's path followed by (x, y) in the same reference; otherwise IllegalArgumentException |
| CellLocations.CellLocation.AttributeValue | src/main/java/com/foursquare/geo/shapes/indexing/CellLocation.java:203-214 | the loop writes each index in decimal, followed by "," after an x index and ";" after a y index |
| CellLocations.CellLocation.ToString | src/main/java/com/foursquare/geo/shapes/indexing/CellLocation.java:137-151 | the loop writes the indices in brackets, "," inside a pair and " " between pairs |
| CellLocations.CellLocation.Extent | src/main/java/com/foursquare/geo/shapes/indexing/CellLocation.java:165-187 | a cell's envelope keeps the world envelope's coordinate reference system, and its bounds are ordered (minimum at most maximum), as the envelope constructor sorts each pair of bounds when a negative level size makes the cell's side negative |
| CellLocations.CellLocation.Envelope | src/main/java/com/foursquare/geo/shapes/indexing/CellLocation.java:165-187 | the loop over the path computes the cell's bounds level by level and returns exactly `Extent()`, the sorted envelope of the cell |
| Geometry.SortedEnvelope | src/main/java/com/foursquare/geo/shapes/indexing/CellLocation.java:179-185 | `new ReferencedEnvelope(x1, x2, y1, y2, crs)` has ordered bounds, each pair being the two given values, and keeps the reference system |
| CellLocations.Root | src/main/java/com/foursquare/geo/shapes/indexing/CellLocation.java:26-29 | the root location is well formed and at level 0 |
| CellLocations.Groups | src/main/java/com/foursquare/geo/shapes/indexing/CellLocation.java:203-214 | one "x,y" group per pair of the path, in order |
| CellLocations.NextScale | src/main/java/com/foursquare/geo/shapes/indexing/CellLocation.java:172 | the number of cells per side never becomes zero, and stays positive for positive sizes |
| CellLocations.Step | src/main/java/com/foursquare/geo/shapes/indexing/CellLocation.java:106-112 | the index chosen along an axis is never negative, and below `size` for a positive size |
| CellLocations.Clamp | src/main/java/com/foursquare/geo/shapes/indexing/CellLocation.java:110-111 | `max(0, min(i, size - 1))` is never negative, below a positive `size`, and `i` for an index already in range |
| CellLocations.Locate | src/main/java/com/foursquare/geo/shapes/indexing/CellLocation.java:95-118 | after `k` levels the search holds `k` pairs of indices, and the number of cells per side is not zero |
| CellLocations.FromCoordinate | src/main/java/com/foursquare/geo/shapes/indexing/CellLocation.java:95-118 | the loop of `fromCoordinate` computes the path the level-by-level search chooses |
| CellLocations.ParseGroup | src/main/java/com/foursquare/geo/shapes/indexing/CellLocation.java:70-81 | a group that parses gives two indices, both in the grid of its level |
| CellLocations.FromAttributeValue | src/main/java/com/foursquare/geo/shapes/indexing/CellLocation.java:63-86 | the method computes what `fromAttributeValue` returns or raises |
| CellLocations.ParseIndices | src/main/java/com/foursquare/geo/shapes/indexing/CellLocation.java:69-84 | the loop parses the groups in order, and the first failing group decides the error |
| CellLocations.CollectOk | src/main/java/com/foursquare/geo/shapes/indexing/CellLocation.java:69-84 | the loop succeeds iff every group parses |
| CellLocations.CollectErr | src/main/java/com/foursquare/geo/shapes/indexing/CellLocation.java:69-84 | a failing loop raises the error of its first failing group |
| CellLocations.FirstFailure | src/main/java/com/foursquare/geo/shapes/indexing/CellLocation.java:69-84 | once a group fails after good ones, later groups do not change the error |
| CellLocations.ChildParent | src/main/java/com/foursquare/geo/shapes/indexing/CellLocation.java:220-235 | a child is one level deeper, on the same reference, and its `parent()` is the location it came from |
| CellLocations.ParentChild | src/main/java/com/foursquare/geo/shapes/indexing/CellLocation.java:220-225 | `parent()` is null iff the location is the root; otherwise the location is its parent's child along its last pair |
| CellLocations.RootFacts | src/main/java/com/foursquare/geo/shapes/indexing/CellLocation.java:26-29 | the root has no parent, writes "" as its attribute value and shows as "[]" |
| CellLocations.EqualsIsEquality | src/main/java/com/foursquare/geo/shapes/indexing/CellLocation.java:125-135 | `equals` holds iff the references and the index arrays are equal |
| CellLocations.EqualsHashCode | src/main/java/com/foursquare/geo/shapes/indexing/CellLocation.java:120-123 | equal locations have equal hash codes |
| CellLocations.GrandchildValue | src/main/java/com/foursquare/geo/shapes/indexing/CellLocation.java:203-214 | the grandchild (1,0),(1,1) is written "1,0;1,1;" |
| CellLocations.GrandchildString | src/main/java/com/foursquare/geo/shapes/indexing/CellLocation.java:137-151 | the grandchild (1,0),(1,1) is shown as "[1,0 1,1]" |
| CellLocations.ParseGroupCases | src/main/java/com/foursquare/geo/shapes/indexing/CellLocation.java:70-81 | a group parses iff it has two `int` tokens, both in the grid of its level. Otherwise it raises the size error, exactly for a wrong token count, or NumberFormatException, or the range error |
| CellLocations.SerializedGroups | src/main/java/com/foursquare/geo/shapes/indexing/CellLocation.java:203-214 | the attribute value is each "x,y" group followed by ";" |
| CellLocations.SplitSerialized | src/main/java/com/foursquare/geo/shapes/indexing/CellLocation.java:64-66 | splitting an attribute value on ";" gives back its groups |
| CellLocations.PairParses | src/main/java/com/foursquare/geo/shapes/indexing/CellLocation.java:70-81 | a written pair whose indices are in range parses back to them |
| CellLocations.CollectGroups | src/main/java/com/foursquare/geo/shapes/indexing/CellLocation.java:69-84 | the groups of a location in range parse back to its indices |
| CellLocations.AttributeValueRoundTrip | src/main/java/com/foursquare/geo/shapes/indexing/CellLocation.java:63-86 | `fromAttributeValue(reference, loc.attributeValue())` gives back `loc` for every location below the root whose indices are in range |
| CellLocations.RootValue | src/main/java/com/foursquare/geo/shapes/indexing/CellLocation.java:63-86 | the root's value "" does not read back: it raises "unexpected size" without levels, and "group 0 has unexpected size" otherwise |
| CellLocations.ParseAttributeValueOk | src/main/java/com/foursquare/geo/shapes/indexing/CellLocation.java:63-86 | a value with no groups or more groups than levels raises the size error. Otherwise it parses iff every group parses |
| CellLocations.ParseAttributeValueFirstError | src/main/java/com/foursquare/geo/shapes/indexing/CellLocation.java:63-86 | a failing value reports the group-count error or the error of its first failing group |
| CellLocations.ParseAttributeValueValid | src/main/java/com/foursquare/geo/shapes/indexing/CellLocation.java:63-86 | a parsed value is a well-formed location on the reference, one level per group, every index in its level's grid |
| CellLocations.CollectInRange | src/main/java/com/foursquare/geo/shapes/indexing/CellLocation.java:69-85 | the parsed groups form a well-formed location in range |
| CellLocations.AxisStep | src/main/java/com/foursquare/geo/shapes/indexing/CellLocation.java:106-112 | along one axis, the cell chosen for a value in the span holds it, including the clamped far border |
| CellLocations.SideSplit | src/main/java/com/foursquare/geo/shapes/indexing/CellLocation.java:172-175 | a cell one level down is `size` times narrower |
| CellLocations.DescendWithin | src/main/java/com/foursquare/geo/shapes/indexing/CellLocation.java:104-114 | one level of `fromCoordinate` keeps the coordinate inside the chosen cell |
| CellLocations.LocateWithin | src/main/java/com/foursquare/geo/shapes/indexing/CellLocation.java:95-118 | at every level the cell reached holds a coordinate taken from the world envelope |
| CellLocations.CellCornerPrefix | src/main/java/com/foursquare/geo/shapes/indexing/CellLocation.java:165-187 | a cell's corner depends only on the pairs leading to it |
| CellLocations.LocateCorner | src/main/java/com/foursquare/geo/shapes/indexing/CellLocation.java:95-118 | the corner `fromCoordinate` tracks is the corner `envelope` computes for the path so far |
| CellLocations.InRangeAppend | src/main/java/com/foursquare/geo/shapes/indexing/CellLocation.java:38-50 | appending a pair within the next level's grid keeps a location in range |
| CellLocations.LocateInRange | src/main/java/com/foursquare/geo/shapes/indexing/CellLocation.java:95-118 | every index `fromCoordinate` chooses lies in its level's grid |
| CellLocations.FromCoordinateCovers | src/main/java/com/foursquare/geo/shapes/indexing/CellLocation.java:95-118 | for a coordinate in the world envelope, `fromCoordinate(...).envelope()` covers it, at the deepest level |
| CellLocations.ChildCorner | src/main/java/com/foursquare/geo/shapes/indexing/CellLocation.java:165-187 | the corner of child (x, y) is one more step of `envelope`'s loop from the parent's corner |
| CellLocations.SiblingEdges | src/main/java/com/foursquare/geo/shapes/indexing/CellLocation.java:165-187 | neighbouring children share an edge (x-neighbours share a vertical edge and the same y bounds, y-neighbours a horizontal edge and the same x bounds), so the grid has no gaps between cells; with positive level sizes and a world of non-negative extent the right neighbour's left edge is the left one's right edge, and likewise upwards |
| CellLocations.NegativeSizeExtent | src/main/java/com/foursquare/geo/shapes/indexing/CellLocation.java:165-187 | with world [0,10]×[0,10], level sizes [-2] and path [0,0], the cell is [-5,0]×[-5,0]: a negative size mirrors the cell, whose sorted envelope covers (-1,-1) |
| Features.FeatureEntry.Sibling | src/main/java/com/foursquare/geo/shapes/FeatureEntry.java:31-48 | same location and label key; the given label, weak flag and geometry |
| Features.FeatureEntry.GetAttribute | src/main/java/com/foursquare/geo/shapes/FeatureEntry.java:56-64 | the label for the label attribute's name, else the location's attribute value for the reference's attribute name, else null |
| Features.FeatureEntryFactory.MakeLabelEntry | src/main/java/com/foursquare/geo/shapes/FeatureEntryFactory.java:25-30 | the entry pairs the factory's label attribute with the label |
| Features.FeatureEntryFactory.Entry | src/main/java/com/foursquare/geo/shapes/FeatureEntryFactory.java:42-44 | the two-argument `featureEntry` is the three-argument one with a strong label: an entry at the root |
| Features.FeatureEntryFactory.WeakEntry | src/main/java/com/foursquare/geo/shapes/FeatureEntryFactory.java:46-48 | an entry at the root under the factory's label attribute, with the given label, weak flag and geometry |
| Features.FeatureEntryFactory.MaybeLocationFromFeature | src/main/java/com/foursquare/geo/shapes/FeatureEntryFactory.java:50-57 | the root when the feature lacks the index attribute; else what `fromAttributeValue` returns or raises for it |
| Features.FeatureEntryFactory.FromFeature | src/main/java/com/foursquare/geo/shapes/FeatureEntryFactory.java:32-40 | succeeds iff the location parses. The entry is strong, labelled with the feature's label attribute, at that location, with the feature's geometry. Otherwise the parse error escapes |
| Features.FeatureEntryFactory.FeatureEntries | src/main/java/com/foursquare/geo/shapes/FeatureEntryFactory.java:59-66 | the loop converts each feature in order, and the first failure escapes |
| Features.FeatureEntryFactory.FirstEntryError | src/main/java/com/foursquare/geo/shapes/FeatureEntryFactory.java:59-66 | the first feature that does not convert decides the exception |
| Features.FeatureEntryFactory.AllEntriesOk | src/main/java/com/foursquare/geo/shapes/FeatureEntryFactory.java:59-66 | `featureEntries` succeeds iff every feature converts |
| Features.FeatureEntryFactory.AllEntriesInOrder | src/main/java/com/foursquare/geo/shapes/FeatureEntryFactory.java:59-66 | entry `k` is feature `k` converted, one entry per feature |
| Features.WrittenRoundTrip | src/main/java/com/foursquare/geo/shapes/FeatureEntry.java:56-64 | a factory of the entry's label attribute and reference reads a written entry below the root back as itself, made strong |
| Features.WrittenAttributes | src/main/java/com/foursquare/geo/shapes/FeatureEntry.java:56-64 | a written feature carries what `getAttribute` answers for the label attribute and the index attribute |
| SimplifierUtils.ValidGeometryCases | src/main/java/com/foursquare/geo/shapes/SimplifierUtils.java:27-35 | more than 10 points is valid; at most 2 is not; in between, valid iff the area is at least 1e-7 |
| SimplifierUtils.GroupKeysMembers | src/main/java/com/foursquare/geo/shapes/SimplifierUtils.java:42-54 | a label is a key of the grouping iff some valid geometry carries it |
| SimplifierUtils.MembersFromInput | src/main/java/com/foursquare/geo/shapes/SimplifierUtils.java:42-54 | every geometry of a group is a valid input geometry with that label |
| SimplifierUtils.Separate | src/main/java/com/foursquare/geo/shapes/SimplifierUtils.java:91-93 | the fallback adds each geometry of the group on its own, in order, under the group's label |
| SimplifierUtils.GroupOutput | src/main/java/com/foursquare/geo/shapes/SimplifierUtils.java:59-94 | a group adds only its own non-null label. The null label and an empty group add nothing. A non-empty group adds something, and a group of one adds that geometry |
| SimplifierUtils.AddSeparately | src/main/java/com/foursquare/geo/shapes/SimplifierUtils.java:89-94 | the fallback loop appends the group's geometries separately |
| SimplifierUtils.UnionByLabel | src/main/java/com/foursquare/geo/shapes/SimplifierUtils.java:37-97 | the method computes what `unionByLabel` returns for the map's iteration order |
| SimplifierUtils.UnionByLabelPerLabel | src/main/java/com/foursquare/geo/shapes/SimplifierUtils.java:37-97 | for any iteration order, the part of the result under each label is what that label's group yields on its own |
| SimplifierUtils.UnionByLabelLabels | src/main/java/com/foursquare/geo/shapes/SimplifierUtils.java:37-97 | every label in the result is non-null and labels a valid input geometry |
| GridSimplifier.WindowOf | src/main/java/com/foursquare/geo/shapes/LabeledGridSimplifier.java:61-64 | the upper child indices are capped at the last child (for any branching factor but the smallest `int`) |
| GridSimplifier.Piece | src/main/java/com/foursquare/geo/shapes/LabeledGridSimplifier.java:70-80 | a child cell yields at most one piece |
| GridSimplifier.ChildOf | src/main/java/com/foursquare/geo/shapes/LabeledGridSimplifier.java:70 | `child(x, y)` of a location above the deepest level succeeds, on the same reference |
| GridSimplifier.MakeSubFeatures | src/main/java/com/foursquare/geo/shapes/LabeledGridSimplifier.java:49-93 | the method computes what `makeSubFeatures` returns or raises, whenever its loops end (see `GridSimplifier.GridPieces` under Left out) |
| GridSimplifier.ChildWindow | src/main/java/com/foursquare/geo/shapes/LabeledGridSimplifier.java:51-64 | the window arithmetic computes the child cells the bounding box reaches |
| GridSimplifier.GridPieces | src/main/java/com/foursquare/geo/shapes/LabeledGridSimplifier.java:68-82 | the nested loops collect the pieces column by column, and a failure ends both loops |
| GridSimplifier.ColumnPieces | src/main/java/com/foursquare/geo/shapes/LabeledGridSimplifier.java:69-81 | the inner loop collects the pieces of one column |
| GridSimplifier.ColumnFails | src/main/java/com/foursquare/geo/shapes/LabeledGridSimplifier.java:69-81 | a failing piece makes its column fail |
| GridSimplifier.GridFails | src/main/java/com/foursquare/geo/shapes/LabeledGridSimplifier.java:68-82 | a failing column makes the whole grid fail |
| GridSimplifier.ColumnFrom | src/main/java/com/foursquare/geo/shapes/LabeledGridSimplifier.java:69-81 | every piece of a column comes from one of its cells |
| GridSimplifier.GridFrom | src/main/java/com/foursquare/geo/shapes/LabeledGridSimplifier.java:68-82 | every piece of the grid comes from one of its cells |
| GridSimplifier.ColumnCovers | src/main/java/com/foursquare/geo/shapes/LabeledGridSimplifier.java:69-81 | every cell of a finished column contributes all of its pieces to the column |
| GridSimplifier.GridCovers | src/main/java/com/foursquare/geo/shapes/LabeledGridSimplifier.java:68-82 | every cell of a finished grid contributes all of its pieces to the grid |
| GridSimplifier.SubFeaturesComplete | src/main/java/com/foursquare/geo/shapes/LabeledGridSimplifier.java:66-87 | the split succeeds for every entry above the deepest level; unless a geometry failure keeps the entry whole, every window child contributes its piece, and a child whose rectangle meets the geometry in `g` contributes the entry at that child with intersection `g` |
| GridSimplifier.WrappedWindow | src/main/java/com/foursquare/geo/shapes/LabeledGridSimplifier.java:61-68 | with the smallest `int` as branching factor, `n - 1` wraps to the largest `int`, so a window can end at the last `int` (here one column at 2^31 - 1 and no rows), where `Grid` stops |
| GridSimplifier.PieceIsIntersection | src/main/java/com/foursquare/geo/shapes/LabeledGridSimplifier.java:70-80 | a child yields nothing iff its rectangle does not meet the geometry. Otherwise the piece is the intersection, at the child, with the entry's label entry and weak flag |
| GridSimplifier.SubFeaturesErr | src/main/java/com/foursquare/geo/shapes/LabeledGridSimplifier.java:52-53 | `makeSubFeatures` raises ArrayIndexOutOfBounds exactly at the deepest level |
| GridSimplifier.SubFeaturesAreChildren | src/main/java/com/foursquare/geo/shapes/LabeledGridSimplifier.java:49-93 | a sub-feature is the entry itself (after a failed geometry operation) or a piece of it. A piece is one level deeper, a child of the entry's cell, with the same label entry and weak flag, and the intersection as geometry |
| GridSimplifier.SubFeaturesInRange | src/main/java/com/foursquare/geo/shapes/LabeledGridSimplifier.java:61-64 | when the window does not start below zero, every piece's location is in range |
| GridSimplifier.LabeledOf | src/main/java/com/foursquare/geo/shapes/LabeledGridSimplifier.java:138-141 | one (label, geometry) pair per entry, in order |
| GridSimplifier.Siblings | src/main/java/com/foursquare/geo/shapes/LabeledGridSimplifier.java:144-150 | one strong sibling of the first entry per unioned geometry, in order |
| GridSimplifier.SimplifySubFeatures | src/main/java/com/foursquare/geo/shapes/LabeledGridSimplifier.java:96-157 | the method computes what `simplifySubFeatures` returns or raises |
| GridSimplifier.LabeledGeometries | src/main/java/com/foursquare/geo/shapes/LabeledGridSimplifier.java:138-141 | the loop collects each entry's label and geometry |
| GridSimplifier.SiblingsOf | src/main/java/com/foursquare/geo/shapes/LabeledGridSimplifier.java:144-150 | the loop adds a strong sibling per unioned geometry |
| GridSimplifier.CellResultErr | src/main/java/com/foursquare/geo/shapes/LabeledGridSimplifier.java:114-124 | a cell raises iff simplification is on and some label is null, and then it raises NullPointerException |
| GridSimplifier.CellResultFacts | src/main/java/com/foursquare/geo/shapes/LabeledGridSimplifier.java:96-157 | a cell finishes only strong, labelled entries at its first entry's location and label key, with labels from the cell. It passes the whole cell on, and only before the final round, or passes nothing |
| GridSimplifier.SingleLabelCell | src/main/java/com/foursquare/geo/shapes/LabeledGridSimplifier.java:126-132 | a cell of one non-null label with a strong entry becomes the cell's rectangle under that label |
| GridSimplifier.WeakCell | src/main/java/com/foursquare/geo/shapes/LabeledGridSimplifier.java:153-156 | a cell of weak entries yields nothing |
| GridSimplifier.MixedCellFinalRound | src/main/java/com/foursquare/geo/shapes/LabeledGridSimplifier.java:133-152 | a mixed cell waits before the final round, and in it is unioned by label into strong siblings |
| GridSimplifier.CellResultOff | src/main/java/com/foursquare/geo/shapes/LabeledGridSimplifier.java:112-124 | with simplification off, every cell yields nothing |
| GridSimplifier.CellsOf | src/main/java/com/foursquare/geo/shapes/LabeledGridSimplifier.java:187-191 | one list of sub-features per cell, holding the sub-features at that cell |
| GridSimplifier.SplitValid | src/main/java/com/foursquare/geo/shapes/LabeledGridSimplifier.java:173-182 | the map loop splits each valid entry in turn, and the first exception escapes |
| GridSimplifier.SimplifyRound | src/main/java/com/foursquare/geo/shapes/LabeledGridSimplifier.java:171-198 | one round: the map loop, the grouping by cell, and the reduce loop |
| GridSimplifier.IterativelySimplify | src/main/java/com/foursquare/geo/shapes/LabeledGridSimplifier.java:159-203 | the method computes what `iterativelySimplify` returns or raises |
| GridSimplifier.ReduceFirstErr | src/main/java/com/foursquare/geo/shapes/LabeledGridSimplifier.java:187-197 | the first cell that raises decides the round's exception |
| GridSimplifier.ReduceFrom | src/main/java/com/foursquare/geo/shapes/LabeledGridSimplifier.java:187-197 | every entry a round collects was finished or passed on by one of its cells |
| GridSimplifier.ReduceErr | src/main/java/com/foursquare/geo/shapes/LabeledGridSimplifier.java:187-197 | an exception of the reduce step is the exception of some cell |
| GridSimplifier.SubFeatureOrigin | src/main/java/com/foursquare/geo/shapes/LabeledGridSimplifier.java:173-182 | a sub-feature comes from some entry of the round, on the same reference, at most one level deeper, with the same label entry |
| GridSimplifier.BucketMember | src/main/java/com/foursquare/geo/shapes/LabeledGridSimplifier.java:176-179 | the entries grouped under a cell are sub-features located there |
| GridSimplifier.FlatMapOk | src/main/java/com/foursquare/geo/shapes/LabeledGridSimplifier.java:173-182 | the map step cannot raise while the entries are above the deepest level |
| GridSimplifier.RoundErr | src/main/java/com/foursquare/geo/shapes/LabeledGridSimplifier.java:168-199 | a round above the deepest level raises only for a null label |
| GridSimplifier.RoundEntry | src/main/java/com/foursquare/geo/shapes/LabeledGridSimplifier.java:168-199 | a round's finished entries are settled, and what it passes on waits for a later round. Both are at most one level deeper, with labels of the round's input |
| GridSimplifier.RoundOfGood | src/main/java/com/foursquare/geo/shapes/LabeledGridSimplifier.java:168-199 | every round of `iterativelySimplify` keeps those guarantees |
| GridSimplifier.RoundsFacts | src/main/java/com/foursquare/geo/shapes/LabeledGridSimplifier.java:168-202 | the remaining rounds raise only for a null label and return sound entries with input labels. An unsettled entry is returned only when no round is left |
| GridSimplifier.SimplificationFacts | src/main/java/com/foursquare/geo/shapes/LabeledGridSimplifier.java:217-223 | `simplify` of root entries raises only for a null label. It returns sound entries on the reference, labelled from the input, all strong and labelled when there is a level, and the input itself without levels |
| GridSimplifier.RoundOff | src/main/java/com/foursquare/geo/shapes/LabeledGridSimplifier.java:168-199 | with simplification off, a round yields nothing |
| GridSimplifier.RoundsNothing | src/main/java/com/foursquare/geo/shapes/LabeledGridSimplifier.java:168-202 | rounds that yield nothing leave nothing |
| GridSimplifier.SimplificationOff | src/main/java/com/foursquare/geo/shapes/LabeledGridSimplifier.java:217-223 | with `simplifySingleLabelCells` false, `simplify` over a reference with a level returns nothing |
| Water.LabelSet | src/main/java/com/foursquare/geo/shapes/WaterDelaunayTriangulationSimplifier.java:58-67 | the loop builds the label set of a vertex |
| Water.LabelsAtMembers | src/main/java/com/foursquare/geo/shapes/WaterDelaunayTriangulationSimplifier.java:58-67 | a vertex's label set holds each label of its entries once and nothing else; it is empty for a point that is not a vertex |
| Water.SharedLabel | src/main/java/com/foursquare/geo/shapes/WaterDelaunayTriangulationSimplifier.java:69-79 | a non-null answer of `containsAny` is in both collections |
| Water.ContainsAny | src/main/java/com/foursquare/geo/shapes/WaterDelaunayTriangulationSimplifier.java:69-79 | the loop computes what `containsAny` returns |
| Water.SharedLabelFirst | src/main/java/com/foursquare/geo/shapes/WaterDelaunayTriangulationSimplifier.java:69-79 | `containsAny` returns the first element of `other` that the set holds |
| Water.SharedLabelNone | src/main/java/com/foursquare/geo/shapes/WaterDelaunayTriangulationSimplifier.java:69-79 | `containsAny` returns null when the set holds no element of `other` |
| Water.Head | src/main/java/com/foursquare/geo/shapes/WaterDelaunayTriangulationSimplifier.java:81-87 | `head` is null for an empty collection and the first element of a non-empty one |
| Water.Retain | src/main/java/com/foursquare/geo/shapes/WaterDelaunayTriangulationSimplifier.java:114 | `retainAll` keeps exactly the elements both sides hold |
| Water.RetainAllMembers | src/main/java/com/foursquare/geo/shapes/WaterDelaunayTriangulationSimplifier.java:113-115 | after the loop, an element remains iff it was there and every set holds it |
| Water.AgreedMembers | src/main/java/com/foursquare/geo/shapes/WaterDelaunayTriangulationSimplifier.java:111-115 | the common labels are exactly the labels every vertex has |
| Water.CommonLabels | src/main/java/com/foursquare/geo/shapes/WaterDelaunayTriangulationSimplifier.java:111-115 | the `addAll`/`retainAll` steps build the common labels |
| Water.OverlapsLand | src/main/java/com/foursquare/geo/shapes/WaterDelaunayTriangulationSimplifier.java:143-161 | the loop finds an overlap iff some land entry at a vertex overlaps the triangle; skipping geometries already compared changes nothing |
| Water.PairLabel | src/main/java/com/foursquare/geo/shapes/WaterDelaunayTriangulationSimplifier.java:170-191 | the loop body adds what a pair of vertices claims |
| Water.RowLabels | src/main/java/com/foursquare/geo/shapes/WaterDelaunayTriangulationSimplifier.java:169-192 | the inner loop adds the claims of pairs (i, j), j > i |
| Water.PairLabels | src/main/java/com/foursquare/geo/shapes/WaterDelaunayTriangulationSimplifier.java:167-193 | the nested loop adds the claims of every pair in loop order |
| Water.PairClaimsFrom | src/main/java/com/foursquare/geo/shapes/WaterDelaunayTriangulationSimplifier.java:170-191 | each claim of a pair has a non-null label of one of the two vertices, at one of the two points or their midpoint |
| Water.PairClaimsUnshared | src/main/java/com/foursquare/geo/shapes/WaterDelaunayTriangulationSimplifier.java:177-191 | vertices sharing no label claim something iff both have a label |
| Water.ClaimsFrom | src/main/java/com/foursquare/geo/shapes/WaterDelaunayTriangulationSimplifier.java:167-193 | every claimed point has a non-null label of some vertex |
| Water.LabelHulls | src/main/java/com/foursquare/geo/shapes/WaterDelaunayTriangulationSimplifier.java:196-220 | the loops group the claimed points by label and add a hull for each label with at least three points |
| Water.HullsFrom | src/main/java/com/foursquare/geo/shapes/WaterDelaunayTriangulationSimplifier.java:207-220 | every hull piece is marked multi-label, and is the hull of the three or more points claimed for its label |
| Water.HullsCover | src/main/java/com/foursquare/geo/shapes/WaterDelaunayTriangulationSimplifier.java:207-220 | every label with three or more claimed points gets its hull |
| Water.VertexLabels | src/main/java/com/foursquare/geo/shapes/WaterDelaunayTriangulationSimplifier.java:106-109 | one label set per vertex, in ring order |
| Water.CoordLabels | src/main/java/com/foursquare/geo/shapes/WaterDelaunayTriangulationSimplifier.java:106-109 | the loop collects each vertex's label set |
| Water.LabelTriangle | src/main/java/com/foursquare/geo/shapes/WaterDelaunayTriangulationSimplifier.java:106-221 | the loop body classifies one well-formed triangle |
| Water.LabelTriangles | src/main/java/com/foursquare/geo/shapes/WaterDelaunayTriangulationSimplifier.java:90-224 | the method computes what `labelTriangles` returns or raises |
| Water.TriangleShared | src/main/java/com/foursquare/geo/shapes/WaterDelaunayTriangulationSimplifier.java:118-122 | a triangle whose vertices share a non-null label is kept whole, once, not multi-label, under a label every vertex has |
| Water.TriangleOverlapSkipped | src/main/java/com/foursquare/geo/shapes/WaterDelaunayTriangulationSimplifier.java:143-164 | a triangle with no shared label that overlaps land at a vertex yields nothing |
| Water.TriangleErr | src/main/java/com/foursquare/geo/shapes/WaterDelaunayTriangulationSimplifier.java:99-104 | a triangle raises IllegalArgumentException iff its ring does not have four coordinates |
| Water.TriangleFrom | src/main/java/com/foursquare/geo/shapes/WaterDelaunayTriangulationSimplifier.java:98-221 | every piece has a non-null label of a vertex. A piece that is not multi-label is the triangle, under a label every vertex has. A multi-label piece is a convex hull of at least three points |
| Water.LabelledTrianglesErr | src/main/java/com/foursquare/geo/shapes/WaterDelaunayTriangulationSimplifier.java:90-224 | `labelTriangles` raises iff some triangle is malformed |
| Water.LabelledTrianglesFrom | src/main/java/com/foursquare/geo/shapes/WaterDelaunayTriangulationSimplifier.java:90-224 | every piece carries the non-null label of some entry in the vertex map |
| Water.LabeledPairs | src/main/java/com/foursquare/geo/shapes/WaterDelaunayTriangulationSimplifier.java:232-235 | one (label, geometry) pair per labelled triangle, in order |
| Water.WeakEntries | src/main/java/com/foursquare/geo/shapes/WaterDelaunayTriangulationSimplifier.java:242-249 | one weak root entry per unioned pair, in order |
| Water.ToPairs | src/main/java/com/foursquare/geo/shapes/WaterDelaunayTriangulationSimplifier.java:232-235 | the loop converts the labelled triangles to pairs |
| Water.ToWeakEntries | src/main/java/com/foursquare/geo/shapes/WaterDelaunayTriangulationSimplifier.java:242-249 | the loop converts the unioned pairs to weak entries |
| Water.UnionTrianglesByLabel | src/main/java/com/foursquare/geo/shapes/WaterDelaunayTriangulationSimplifier.java:226-251 | the method computes what `unionTrianglesByLabel` returns |
| Water.UnionedTrianglesFrom | src/main/java/com/foursquare/geo/shapes/WaterDelaunayTriangulationSimplifier.java:226-251 | the unioned water entries are weak, at the root, under the factory's label attribute, with the non-null label of some labelled piece |
| Water.IndexMembers | src/main/java/com/foursquare/geo/shapes/WaterDelaunayTriangulationSimplifier.java:268-282 | the vertex map holds an entry under a point iff the entry is labelled and the point is one of its vertices |
| Water.LandMembers | src/main/java/com/foursquare/geo/shapes/WaterDelaunayTriangulationSimplifier.java:268-282 | the land is the geometries of the labelled entries only |
| Water.IndexLand | src/main/java/com/foursquare/geo/shapes/WaterDelaunayTriangulationSimplifier.java:266-282 | the loop builds `coordToFeat` and `allLand` |
| Water.WaterKeptIsValid | src/main/java/com/foursquare/geo/shapes/WaterDelaunayTriangulationSimplifier.java:296 | the water filter keeps exactly what `isValidGeometry` keeps |
| Water.ValidParts | src/main/java/com/foursquare/geo/shapes/WaterDelaunayTriangulationSimplifier.java:293-301 | a part is kept iff the filter keeps it |
| Water.FilterWater | src/main/java/com/foursquare/geo/shapes/WaterDelaunayTriangulationSimplifier.java:290-301 | the loop filters the parts of the water |
| Water.Triangulate | src/main/java/com/foursquare/geo/shapes/WaterDelaunayTriangulationSimplifier.java:305-308 | the loop triangulates each valid part in order |
| Water.Simplify | src/main/java/com/foursquare/geo/shapes/WaterDelaunayTriangulationSimplifier.java:260-320 | the method computes what `simplify` returns or raises |
| Water.WaterSimplifiedFacts | src/main/java/com/foursquare/geo/shapes/WaterDelaunayTriangulationSimplifier.java:260-320 | the water entries are weak, at the factory's root, under its label attribute, each with the non-null label of an input entry. Only a failed union or difference or a malformed triangle raises |
| ShapefileGeo.FirstCovering | src/main/java/com/foursquare/geo/shapes/SimplifiedShapefileGeo.java:69-77 | a non-null answer is the label of an entry whose geometry covers the point |
| ShapefileGeo.FirstCoveringIs | src/main/java/com/foursquare/geo/shapes/SimplifiedShapefileGeo.java:71-75 | the answer is the label of the first covering entry |
| ShapefileGeo.FirstCoveringNone | src/main/java/com/foursquare/geo/shapes/SimplifiedShapefileGeo.java:76 | with no covering entry the answer is null |
| ShapefileGeo.CoveringLabel | src/main/java/com/foursquare/geo/shapes/SimplifiedShapefileGeo.java:71-76 | the loop with its early return computes the first covering label |
| ShapefileGeo.CellValueAt | src/main/java/com/foursquare/geo/shapes/SimplifiedShapefileGeo.java:87-89 | a cell answers its single value, or the first covering label of its entries |
| ShapefileGeo.SimplifiedAnswers | src/main/java/com/foursquare/geo/shapes/SimplifiedShapefileGeo.java:59-67 | `simplified()` changes answers only for a cell of one entry. That cell then answers its label everywhere, which agrees where the entry covers the point and replaces null elsewhere |
| ShapefileGeo.ShapeIndexedValues.constructor | src/main/java/com/foursquare/geo/shapes/SimplifiedShapefileGeo.java:51-53 | a new cell holds no entries |
| ShapefileGeo.ShapeIndexedValues.Add | src/main/java/com/foursquare/geo/shapes/SimplifiedShapefileGeo.java:55-57 | `add` appends the entry and changes nothing else |
| ShapefileGeo.ShapeIndexedValues.ValueForCoordinate | src/main/java/com/foursquare/geo/shapes/SimplifiedShapefileGeo.java:69-77 | the label of the first stored entry covering the point, else null |
| ShapefileGeo.IndexedShapefile.ValueForCoordinate | src/main/java/com/foursquare/geo/shapes/SimplifiedShapefileGeo.java:36-46 | the loop walks from `fromCoordinate`'s cell toward the root and answers from the first cell present |
| ShapefileGeo.UpToRoot | src/main/java/com/foursquare/geo/shapes/SimplifiedShapefileGeo.java:38-44 | the walk through `parent()` ends at the root |
| ShapefileGeo.ValueAlongFirst | src/main/java/com/foursquare/geo/shapes/SimplifiedShapefileGeo.java:38-44 | the lookup answers with the value of the first location on the walk that the map holds |
| ShapefileGeo.ValueAlongNone | src/main/java/com/foursquare/geo/shapes/SimplifiedShapefileGeo.java:45 | with no location of the walk in the map, the answer is null |
| ShapefileGeo.ScanNone | src/main/java/com/foursquare/geo/shapes/SimplifiedShapefileGeo.java:122-126 | a schema without a "GI" attribute leaves the reference unset |
| ShapefileGeo.ScanLast | src/main/java/com/foursquare/geo/shapes/SimplifiedShapefileGeo.java:122-126 | when every "GI" attribute parses, the last one decides the reference |
| ShapefileGeo.ScanFails | src/main/java/com/foursquare/geo/shapes/SimplifiedShapefileGeo.java:122-126 | the first "GI" attribute that fails to parse raises its error |
| ShapefileGeo.Insert | src/main/java/com/foursquare/geo/shapes/SimplifiedShapefileGeo.java:140-144 | one step creates the entry's cell if missing and appends the entry to it, keeping every cell's contents exactly the entries at that location |
| ShapefileGeo.FillCells | src/main/java/com/foursquare/geo/shapes/SimplifiedShapefileGeo.java:138-145 | the loop builds one fresh, distinct cell per location, holding the entries at that location in order. It raises iff some feature does not convert |
| ShapefileGeo.IndexReference | src/main/java/com/foursquare/geo/shapes/SimplifiedShapefileGeo.java:120-126 | the schema loop computes the scan of the "GI" attributes |
| ShapefileGeo.CellContents | src/main/java/com/foursquare/geo/shapes/SimplifiedShapefileGeo.java:148-155 | the cells handed over are each location's entries, simplified or not |
| ShapefileGeo.Load | src/main/java/com/foursquare/geo/shapes/SimplifiedShapefileGeo.java:107-157 | the method computes what `load` returns or raises |
| ShapefileGeo.LoadedSchema | src/main/java/com/foursquare/geo/shapes/SimplifiedShapefileGeo.java:115-131 | `load` raises without the label attribute, and, with it, without a "GI" attribute |
| ShapefileGeo.LoadedReference | src/main/java/com/foursquare/geo/shapes/SimplifiedShapefileGeo.java:120-126 | `load` indexes with the reference the last "GI" attribute names |
| ShapefileGeo.LoadedIndexError | src/main/java/com/foursquare/geo/shapes/SimplifiedShapefileGeo.java:120-126 | the first "GI" attribute that does not parse makes `load` raise its error |
| ShapefileGeo.LoadedCells | src/main/java/com/foursquare/geo/shapes/SimplifiedShapefileGeo.java:138-155 | every entry is in the cell at its location. A location has a cell iff some entry is stored there. An unsimplified cell holds only entries stored at it |
| Filters.With | src/main/java/com/foursquare/geo/shapes/BaseIndexedValues.java:37-40 | `with(filter)` wraps the receiver under that filter |
| Filters.Innermost | src/main/java/com/foursquare/geo/shapes/BaseIndexedValues.java:31-34 | the bottom of a chain is not a wrapper |
| Filters.WithDelegates | src/main/java/com/foursquare/geo/shapes/BaseIndexedValues.java:26-34 | the wrapper answers with its filter applied to the wrapped values, and passes `colocatedFeatures` through |
| Filters.ColocatedInnermost | src/main/java/com/foursquare/geo/shapes/BaseIndexedValues.java:31-34 | whatever the filters, the features near a point come from the bottom of the chain |
| Filters.WithChain | src/main/java/com/foursquare/geo/shapes/BaseIndexedValues.java:37-40 | the last filter added runs first, on the wrapper of the earlier one |
| Filters.ValidLabelsFilter | src/main/java/com/foursquare/geo/shapes/LabelFilters.java:43-50 | the answer is valid or the default; a valid label passes and anything else becomes the default |
| Filters.DefaultLabelFilter | src/main/java/com/foursquare/geo/shapes/LabelFilters.java:92-99 | a non-null label passes, and null becomes the default |
| Filters.TimezoneFilter | src/main/java/com/foursquare/geo/shapes/LabelFilters.java:60-73 | never null; a non-null label passes, and null becomes the timezone of the point's meridian band |
| Filters.ClosestMeridian | src/main/java/com/foursquare/geo/shapes/LabelFilters.java:65 | the band `n` names the meridian at `-15 n` degrees closest to the longitude, and lies in [-12, 12] on the globe |
| Filters.TimezoneNameParses | src/main/java/com/foursquare/geo/shapes/LabelFilters.java:67-71 | the name is "Etc/GMT" followed by the band number, sign included, as `parseInt` reads it back |
| Filters.TimezoneExamples | src/main/java/com/foursquare/geo/shapes/LabelFilters.java:65-71 | longitudes 0, 15 and -15 give "Etc/GMT0", "Etc/GMT-1" and "Etc/GMT+1" |
| Filters.BoundingBoxFilter | src/main/java/com/foursquare/geo/shapes/LabelFilters.java:117-123 | inside the envelope, border included, the wrapped label; outside it null, whatever is wrapped |
| Filters.FeatureFilter | src/main/java/com/foursquare/geo/shapes/LabelFilters.java:136-148 | a non-null label passes. Otherwise the answer is null when no features are near the point, and else the label of the first best-scoring feature |
| Filters.FilterIdempotent | src/main/java/com/foursquare/geo/shapes/BaseIndexedValues.java:37-40 | stacking the same filter twice answers as stacking it once |
| Filters.BestLabel | src/main/java/com/foursquare/geo/shapes/LabelFilters.java:163-176 | the loop keeps the running best score and label, starting from `Double.MAX_VALUE` and null |
| Filters.BestIsFirstMinimum | src/main/java/com/foursquare/geo/shapes/LabelFilters.java:168-174 | the loop ends on the first entry with the smallest score below `Double.MAX_VALUE`; ties do not replace it |
| Filters.BestAbove | src/main/java/com/foursquare/geo/shapes/LabelFilters.java:168-174 | when every scored entry scores above `d`, so does the best |
| Filters.BestWithoutCandidates | src/main/java/com/foursquare/geo/shapes/LabelFilters.java:165-175 | with no score below `Double.MAX_VALUE`, `bestLabel` returns null |
| Filters.BoxAreaWithoutCover | src/main/java/com/foursquare/geo/shapes/LabelFilters.java:216-232 | when no feature's bounding box covers the point, the bounding-box variant returns null |

## Left out

- Reading shapefiles, the `ShapefileDataStore`, `featureIterator`, `dispose`, logging and timing are I/O. `load` takes the schema's attribute names, the file's bounds and its features as parameters.
- JTS geometry is uninterpreted: `covers`, `intersects`, `intersection`, `union`, `difference`, `overlaps`, `distance`, `getCentroid`, `getEnvelope`, `getArea`, `getNumPoints`, `getCoordinates`, `convexHull` and the Delaunay triangulation (`triangularize`) are fields of `Geometry.Engine`. Nothing is proved about their geometry. The point `createPoint` builds is the coordinate itself, so the precision model of the geometry factory is not modelled.
- Doubles are reals: rounding, infinities and NaN are not modelled.
- CellLocations.CellLocation.Extent: requires non-zero level sizes (`HasNonZeroSizes`), because a division by a zero size yields an infinity in doubles, which reals do not have. The same holds for `CellLocations.CellLocation.Envelope`, `CellLocations.Locate` and `CellLocations.FromCoordinate`.
- ShapefileGeo.IndexedShapefile.ValueForCoordinate: requires non-zero level sizes, for the same reason, since it calls `fromCoordinate`.
- GridSimplifier.MakeSubFeatures: requires a sound entry (a well-formed location on a reference with non-zero sizes), for the same reason. The same holds for `GridSimplifier.SimplifySubFeatures` and `GridSimplifier.IterativelySimplify`. Entries read by `load` or built at the root of such a reference are sound.
- GridSimplifier.GridPieces: Java's loop counters are `int`s, and `++` on the largest `int` wraps to the smallest. A window reaching the largest `int` therefore makes the loop run forever. That window needs a level size of the smallest `int`, because `WindowOf` ensures `xMax <= n - 1` and `yMax <= n - 1` otherwise, and `GridSimplifier.WrappedWindow` shows one such input. The model counts with unbounded integers and stops after the last `int`, so for such a level size `GridSimplifier.MakeSubFeatures` returns a result where Java never returns. The same holds for `GridSimplifier.ColumnPieces`.
- CellLocations.NextScale: the cumulative `m *= levelSize` in `fromCoordinate` and `envelope` is an unbounded integer, not a 32-bit `int` that wraps around.
- Labels are strings or null (`Object` labels in the source), compared by value. A `Set<Object>` of valid labels is a `set` of labels.
- `Integer.parseInt` accepts ASCII digits only; other Unicode digits are not modelled.
- The iteration order of `HashMap` and `HashSet` is an arbitrary permutation, chosen by a parameter. `retainAll` is assumed to keep the iteration order of the elements it keeps.
- Java lists and `int[]` buffers are sequences; aliasing between them is not modelled. `ShapeIndexedValues` is a class, and `load` keeps its cells as objects while it fills them. The map handed to `IndexedShapefile` holds value snapshots of them (`CellValues`), so `simplified()` returning `this` is a `Shapes` value.
- Exceptions are `Result` values, and geometry failures caught inside a `try` are `Attempt` values. TopologyException and IllegalArgumentException from JTS are one `Failed` outcome.
- A reference's null envelope, `getGeometryFactory`, `attributeType`, `getEnvelope`, `FeatureEntry.toString`, `getDefaultGeometry` and `getLabelEntry` are plain accessors or debugging output.
- The touching-geometry set in `labelTriangles` compares geometries by model equality, not by JTS `equals`/`hashCode`.
- The parameters `reference` and `location` of `simplifySubFeatures` are not used by the code, so the model leaves them out.
- In `iterativelySimplify` the model groups the sub-features after the map loop rather than inside it. The grouping, and the order of the lists, are the same.
- `GridSimplifier.Splitter` and `GridSimplifier.CellSimplifier` leave an unsound entry whole. No such entry reaches them.
- `LabeledGridSimplifier.simplify` is documented as not simplifying when `simplifySingleLabelCells` is false. The code instead drops every cell, because no cell counts as having a strong entry. The model follows the code (`GridSimplifier.SimplificationOff`).
- `IndexedValues` declares only `valueForCoordinate`, while `BaseIndexedValues` and `LabelFilters` call `labelForCoordinate`, `colocatedFeatures` and `with`. The model follows their use: the values at the bottom of a filter chain are two functions (`Filters.Values.Source`). `IndexedShapefile` is not wired into that chain, because no source file shows how it would answer `colocatedFeatures`.
- The three `bestLabel` methods are one loop over a score function (`Filters.BestLabel`). `FeatureBoundingBoxFilter` is a non-static inner class, which callers outside `LabelFilters` cannot construct; it is modelled anyway.
- `Math.round` is modelled on reals as the floor of `x + 1/2`, saturated to a `long`.
- Filters.ClosestMeridian is stated for longitudes up to 3e10 in magnitude. Beyond that, the `(int)` cast of the rounded `long` wraps, and the band no longer names the closest meridian.
- `ShapefileSimplifier`, `ShapefileUtils`, `WritableFeature` and the example client are not part of this model.
