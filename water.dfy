/** `WaterDelaunayTriangulationSimplifier`: filling the water between labelled land
    with weakly labelled pieces. The water is the reference's envelope minus the
    union of the labelled land; its valid parts are cut into Delaunay triangles;
    each triangle is labelled from the land entries that have its vertices; the
    labelled pieces are unioned label by label into weak entries at the root.
    Triangulation, convex hulls, unions and differences are operations of the
    geometry engine; how the labels are chosen is modelled in full. Every HashSet
    or HashMap of labels is iterated in the order `ord` makes of its insertion
    order. */
module Water {
  import opened Common
  import opened Geometry
  import opened CellReference
  import opened CellLocations
  import opened Features
  import opened Grouping
  import SimplifierUtils

  /** A water part with at most this many points is always dropped. */
  const ImpossiblyLowPoints: int := 2
  /** A water part with at most this many points is dropped when its area is tiny. */
  const SuspiciouslyLowPoints: int := 10
  /** The area below which a water part with few points is dropped. */
  const AreaThreshold: real := 0.0000001

  /** `LabeledWaterFeature`: a piece of water, its label, and whether the triangle
      it comes from had vertices with different labels. */
  datatype WaterFeature = WaterFeature(geometry: Geom, lab: Label, wasMultiLabel: bool)

  /** `ImmutablePair<Object, Coordinate>`: a point claimed for a label. */
  datatype Tagged = Tagged(lab: Label, at: Coordinate)

  /** `coordToFeat`: the land entries that have each vertex. */
  type CoordIndex = map<Coordinate, seq<FeatureEntry>>

  /** `coordToFeat.get(c)`: null for a point that is no land vertex. */
  function Lookup(index: CoordIndex, c: Coordinate): Option<seq<FeatureEntry>> {
    if c in index then Some(index[c]) else None
  }

  function AnyEntry(): FeatureEntry -> bool {
    (e: FeatureEntry) => true
  }

  function LabelOfEntry(e: FeatureEntry): Label {
    e.GetLabel()
  }

  // ---------------------------------------------------------------- labelSet

  /** What `labelSet` returns: the labels of the entries, each once, in the order
      the HashSet yields them; nothing for null or an empty list. */
  function LabelsAt(ord: Order<Label>, entries: Option<seq<FeatureEntry>>): seq<Label> {
    if entries.None? || |entries.value| == 0 then []
    else Arrange(ord, Keys(entries.value, AnyEntry(), LabelOfEntry))
  }

  /** `labelSet`. */
  method LabelSet(ord: Order<Label>, entries: Option<seq<FeatureEntry>>) returns (r: seq<Label>)
    ensures r == LabelsAt(ord, entries)
  {
    if entries.None? || |entries.value| == 0 {
      return [];
    }
    var items := entries.value;
    var labels: seq<Label> := [];
    for i := 0 to |items|
      invariant labels == Keys(items[..i], AnyEntry(), LabelOfEntry)
    {
      GroupStep(items, AnyEntry(), LabelOfEntry, LabelOfEntry, i);
      var lab := items[i].GetLabel();
      if lab !in labels {
        labels := labels + [lab];
      }
    }
    assert items[..|items|] == items;
    r := Arrange(ord, labels);
  }

  /** The label set of a vertex holds each label of its entries exactly once, and
      nothing else; it is empty for a point that is no land vertex. */
  lemma LabelsAtMembers(ord: Order<Label>, entries: Option<seq<FeatureEntry>>, lab: Label)
    ensures Distinct(LabelsAt(ord, entries))
    ensures lab in LabelsAt(ord, entries) <==> entries.Some? && exists e :: e in entries.value && e.GetLabel() == lab
  {
    if entries.Some? && |entries.value| > 0 {
      var items := entries.value;
      var keys := Keys(items, AnyEntry(), LabelOfEntry);
      KeysDistinct(items, AnyEntry(), LabelOfEntry);
      ArrangeDistinct(ord, keys);
      if lab in keys {
        KeysFrom(items, AnyEntry(), LabelOfEntry, lab);
      }
      if exists e :: e in items && e.GetLabel() == lab {
        var e :| e in items && e.GetLabel() == lab;
        var i :| 0 <= i < |items| && items[i] == e;
        KeysCover(items, AnyEntry(), LabelOfEntry, i);
      }
    }
  }

  // ---------------------------------------------------------- containsAny, head

  /** The first element of `other` that `held` holds, or null. */
  function FirstIn(held: seq<Label>, other: seq<Label>): (r: Label)
    ensures r != None ==> r in held && r in other
  {
    if |other| == 0 then None
    else if other[0] in held then other[0]
    else FirstIn(held, other[1..])
  }

  /** What `containsAny` returns: null when either side is empty, otherwise the
      first element of `other`, in its iteration order, that `held` holds, or null. */
  function SharedLabel(held: seq<Label>, other: seq<Label>): (r: Label)
    ensures r != None ==> r in held && r in other
  {
    if |held| == 0 || |other| == 0 then None else FirstIn(held, other)
  }

  /** `containsAny`. */
  method ContainsAny(held: seq<Label>, other: seq<Label>) returns (r: Label)
    ensures r == SharedLabel(held, other)
  {
    if |held| == 0 || |other| == 0 {
      return None;
    }
    for k := 0 to |other|
      invariant FirstIn(held, other[k..]) == FirstIn(held, other)
    {
      if other[k] in held {
        return other[k];
      }
      assert other[k..][1..] == other[k + 1..];
    }
    return None;
  }

  lemma {:induction false} FirstInFirst(held: seq<Label>, other: seq<Label>, k: nat)
    requires k < |other| && other[k] in held
    requires forall j :: 0 <= j < k ==> other[j] !in held
    ensures FirstIn(held, other) == other[k]
    decreases k
  {
    if k > 0 {
      assert other[0] !in held;
      FirstInFirst(held, other[1..], k - 1);
    }
  }

  lemma {:induction false} FirstInNone(held: seq<Label>, other: seq<Label>)
    requires forall k :: 0 <= k < |other| ==> other[k] !in held
    ensures FirstIn(held, other) == None
    decreases |other|
  {
    if |other| > 0 {
      FirstInNone(held, other[1..]);
    }
  }

  /** `containsAny` returns the first element of `other` that `held` holds. */
  lemma SharedLabelFirst(held: seq<Label>, other: seq<Label>, k: nat)
    requires k < |other| && other[k] in held
    requires forall j :: 0 <= j < k ==> other[j] !in held
    ensures SharedLabel(held, other) == other[k]
  {
    FirstInFirst(held, other, k);
  }

  /** `containsAny` returns null when `set` holds no element of `other`. */
  lemma SharedLabelNone(held: seq<Label>, other: seq<Label>)
    requires forall k :: 0 <= k < |other| ==> other[k] !in held
    ensures SharedLabel(held, other) == None
  {
    if |held| > 0 && |other| > 0 {
      FirstInNone(held, other);
    }
  }

  /** `head`: the first element a collection yields, or null when it yields none. */
  function Head(c: seq<Label>): (r: Label)
    ensures |c| == 0 ==> r == None
    ensures r != None ==> r in c
    ensures |c| > 0 ==> r == c[0]
  {
    if |c| == 0 then None else c[0]
  }

  // ------------------------------------------------------------ commonLabels

  /** `retainAll`: the elements of `c` that `s` holds, in their order. */
  function Retain(c: seq<Label>, s: seq<Label>): (r: seq<Label>)
    ensures forall x :: x in r <==> x in c && x in s
  {
    if |c| == 0 then []
    else
      assert c == c[..|c| - 1] + [c[|c| - 1]];
      Retain(c[..|c| - 1], s) + (if c[|c| - 1] in s then [c[|c| - 1]] else [])
  }

  /** `c` after `retainAll` of each of `sets` in turn. */
  function RetainAll(c: seq<Label>, sets: seq<seq<Label>>): seq<Label>
  {
    if |sets| == 0 then c
    else Retain(RetainAll(c, sets[..|sets| - 1]), sets[|sets| - 1])
  }

  lemma {:induction false} RetainAllMembers(c: seq<Label>, sets: seq<seq<Label>>, x: Label)
    ensures x in RetainAll(c, sets) <==> x in c && forall k :: 0 <= k < |sets| ==> x in sets[k]
    decreases |sets|
  {
    if |sets| > 0 {
      var init := sets[..|sets| - 1];
      var last := sets[|sets| - 1];
      RetainAllMembers(c, init, x);
      assert x in RetainAll(c, sets) <==> x in RetainAll(c, init) && x in last;
      if x in c && (forall k :: 0 <= k < |init| ==> x in init[k]) && x in last {
        forall k | 0 <= k < |sets|
          ensures x in sets[k]
        {
          if k < |init| {
            assert init[k] == sets[k];
          }
        }
      }
      if forall k :: 0 <= k < |sets| ==> x in sets[k] {
        forall k | 0 <= k < |init|
          ensures x in init[k]
        {
          assert init[k] == sets[k];
        }
        assert x in last;
      }
    }
  }

  /** What `commonLabels` holds after `addAll` of the first vertex's labels and
      `retainAll` of every vertex's labels, in the order the HashSet yields them. */
  function Agreed(ord: Order<Label>, sets: seq<seq<Label>>): seq<Label>
    requires |sets| > 0
  {
    RetainAll(Arrange(ord, sets[0]), sets)
  }

  /** The common labels are exactly the labels every vertex has. */
  lemma AgreedMembers(ord: Order<Label>, sets: seq<seq<Label>>, x: Label)
    requires |sets| > 0
    ensures x in Agreed(ord, sets) <==> forall k :: 0 <= k < |sets| ==> x in sets[k]
  {
    ArrangeIn(ord, sets[0], x);
    RetainAllMembers(Arrange(ord, sets[0]), sets, x);
  }

  /** The `addAll`/`retainAll` steps that build `commonLabels`. */
  method CommonLabels(ord: Order<Label>, sets: seq<seq<Label>>) returns (common: seq<Label>)
    requires |sets| > 0
    ensures common == Agreed(ord, sets)
  {
    common := Arrange(ord, sets[0]);
    for k := 0 to |sets|
      invariant common == RetainAll(Arrange(ord, sets[0]), sets[..k])
    {
      assert sets[..k + 1][..k] == sets[..k];
      common := Retain(common, sets[k]);
    }
    assert sets[..|sets|] == sets;
  }

  // ---------------------------------------------------------------- overlaps

  /** Some land entry at a vertex of the triangle overlaps it. */
  predicate Overlapping(engine: Engine, index: CoordIndex, coords: seq<Coordinate>, triangle: Geom) {
    exists k, f :: 0 <= k < |coords| && coords[k] in index && f in index[coords[k]] && engine.overlaps(f.geometry, triangle)
  }

  /** The `overlaps` loop: each land geometry at a vertex is compared once, and the
      search stops at the first that overlaps the triangle. Skipping geometries
      already compared does not change the answer. */
  method OverlapsLand(engine: Engine, index: CoordIndex, coords: seq<Coordinate>, triangle: Geom) returns (overlaps: bool)
    ensures overlaps == Overlapping(engine, index, coords, triangle)
  {
    overlaps := false;
    var touching: set<Geom> := {};
    for k := 0 to |coords|
      invariant overlaps ==> Overlapping(engine, index, coords, triangle)
      invariant !overlaps ==> forall g :: g in touching ==> !engine.overlaps(g, triangle)
      invariant !overlaps ==> forall k', f :: 0 <= k' < k && coords[k'] in index && f in index[coords[k']] ==> !engine.overlaps(f.geometry, triangle)
    {
      if overlaps {
        break;
      }
      if coords[k] !in index {
        continue;
      }
      var feats := index[coords[k]];
      for i := 0 to |feats|
        invariant overlaps ==> Overlapping(engine, index, coords, triangle)
        invariant !overlaps ==> forall g :: g in touching ==> !engine.overlaps(g, triangle)
        invariant !overlaps ==> forall i' :: 0 <= i' < i ==> !engine.overlaps(feats[i'].geometry, triangle)
      {
        var g := feats[i].geometry;
        if g !in touching {
          touching := touching + {g};
          if engine.overlaps(g, triangle) {
            assert feats[i] in index[coords[k]];
            overlaps := true;
            break;
          }
        }
      }
    }
  }

  // ------------------------------------------------------------ labeledCoords

  /** The point halfway between two coordinates. */
  function Midpoint(a: Coordinate, b: Coordinate): Coordinate {
    Coordinate((a.x + b.x) / 2.0, (a.y + b.y) / 2.0)
  }

  /** What the pair of vertices `ci`, `cj` (with label sets `si`, `sj`) claims: both
      points for a label they share; otherwise, when both have labels, each point
      and the midpoint for that point's first label; otherwise nothing. */
  function PairClaims(si: seq<Label>, sj: seq<Label>, ci: Coordinate, cj: Coordinate): seq<Tagged> {
    var shared := SharedLabel(si, sj);
    if shared != None then [Tagged(shared, ci), Tagged(shared, cj)]
    else
      var iLabel := Head(si);
      var jLabel := Head(sj);
      if iLabel != None && jLabel != None then
        [Tagged(iLabel, ci), Tagged(iLabel, Midpoint(ci, cj)), Tagged(jLabel, cj), Tagged(jLabel, Midpoint(ci, cj))]
      else []
  }

  /** The claims of the pairs (i, i + 1), ..., (i, hi - 1). */
  function RowClaims(sets: seq<seq<Label>>, coords: seq<Coordinate>, i: nat, hi: nat): seq<Tagged>
    requires |sets| == |coords| && i < hi <= |coords|
    decreases hi
  {
    if hi == i + 1 then []
    else RowClaims(sets, coords, i, hi - 1) + PairClaims(sets[i], sets[hi - 1], coords[i], coords[hi - 1])
  }

  /** The claims of every pair (i, j) with i < n and i < j, in loop order. */
  function Claims(sets: seq<seq<Label>>, coords: seq<Coordinate>, n: nat): seq<Tagged>
    requires |sets| == |coords| && n <= |coords|
  {
    if n == 0 then []
    else Claims(sets, coords, n - 1) + RowClaims(sets, coords, n - 1, |coords|)
  }

  /** The body of the pair loop: what one pair of vertices adds to `labeledCoords`. */
  method PairLabel(si: seq<Label>, sj: seq<Label>, ci: Coordinate, cj: Coordinate) returns (claims: seq<Tagged>)
    ensures claims == PairClaims(si, sj, ci, cj)
  {
    var aCommonLabel := ContainsAny(si, sj);
    if aCommonLabel != None {
      return [Tagged(aCommonLabel, ci), Tagged(aCommonLabel, cj)];
    }
    var iLabel := Head(si);
    var jLabel := Head(sj);
    if iLabel != None && jLabel != None {
      var coordMid := Midpoint(ci, cj);
      return [Tagged(iLabel, ci), Tagged(iLabel, coordMid), Tagged(jLabel, cj), Tagged(jLabel, coordMid)];
    }
    return [];
  }

  /** The inner pair loop: what the pairs (i, j), j > i, add to `labeledCoords`. */
  method RowLabels(sets: seq<seq<Label>>, coords: seq<Coordinate>, i: nat) returns (row: seq<Tagged>)
    requires |sets| == |coords| && i < |coords|
    ensures row == RowClaims(sets, coords, i, |coords|)
  {
    row := [];
    for j := i + 1 to |coords|
      invariant row == RowClaims(sets, coords, i, j)
    {
      var claims := PairLabel(sets[i], sets[j], coords[i], coords[j]);
      row := row + claims;
    }
  }

  /** The nested loop over coordinate pairs that fills `labeledCoords`. */
  method PairLabels(sets: seq<seq<Label>>, coords: seq<Coordinate>) returns (tagged: seq<Tagged>)
    requires |sets| == |coords|
    ensures tagged == Claims(sets, coords, |coords|)
  {
    tagged := [];
    for i := 0 to |coords|
      invariant tagged == Claims(sets, coords, i)
    {
      var row := RowLabels(sets, coords, i);
      tagged := tagged + row;
    }
  }

  /** Each claim of a pair is for a non-null label of one of its two vertices, at
      one of the two points or their midpoint. */
  lemma PairClaimsFrom(si: seq<Label>, sj: seq<Label>, ci: Coordinate, cj: Coordinate, t: Tagged)
    requires t in PairClaims(si, sj, ci, cj)
    ensures t.lab != None && (t.lab in si || t.lab in sj)
    ensures t.at == ci || t.at == cj || t.at == Midpoint(ci, cj)
  {
  }

  /** Two vertices that share no label claim nothing unless both have a label. */
  lemma PairClaimsUnshared(si: seq<Label>, sj: seq<Label>, ci: Coordinate, cj: Coordinate)
    requires forall k :: 0 <= k < |sj| ==> sj[k] !in si
    ensures PairClaims(si, sj, ci, cj) != [] <==> Head(si) != None && Head(sj) != None
  {
    SharedLabelNone(si, sj);
  }

  lemma {:induction false} RowClaimsFrom(sets: seq<seq<Label>>, coords: seq<Coordinate>, i: nat, hi: nat, t: Tagged)
    requires |sets| == |coords| && i < hi <= |coords|
    requires t in RowClaims(sets, coords, i, hi)
    ensures t.lab != None && exists k :: 0 <= k < |sets| && t.lab in sets[k]
    decreases hi
  {
    if hi > i + 1 {
      if t in RowClaims(sets, coords, i, hi - 1) {
        RowClaimsFrom(sets, coords, i, hi - 1, t);
      } else {
        PairClaimsFrom(sets[i], sets[hi - 1], coords[i], coords[hi - 1], t);
      }
    }
  }

  /** Every claimed point is claimed for a non-null label of some vertex. */
  lemma {:induction false} ClaimsFrom(sets: seq<seq<Label>>, coords: seq<Coordinate>, n: nat, t: Tagged)
    requires |sets| == |coords| && n <= |coords|
    requires t in Claims(sets, coords, n)
    ensures t.lab != None && exists k :: 0 <= k < |sets| && t.lab in sets[k]
    decreases n
  {
    if t in Claims(sets, coords, n - 1) {
      ClaimsFrom(sets, coords, n - 1, t);
    } else {
      RowClaimsFrom(sets, coords, n - 1, |coords|, t);
    }
  }

  // ------------------------------------------------------- singleLabelCoords

  function AnyTag(): Tagged -> bool {
    (t: Tagged) => true
  }

  function TagLabel(t: Tagged): Label {
    t.lab
  }

  function TagAt(t: Tagged): Coordinate {
    t.at
  }

  /** The points claimed for `lab`, in order: the list `singleLabelCoords` holds. */
  function Points(tagged: seq<Tagged>, lab: Label): seq<Coordinate> {
    Bucket(tagged, AnyTag(), TagLabel, TagAt, lab)
  }

  /** The hull pieces for the labels `labs`, taken in that order. */
  function HullsFor(engine: Engine, tagged: seq<Tagged>, labs: seq<Label>): seq<WaterFeature> {
    if |labs| == 0 then []
    else
      var lab := labs[|labs| - 1];
      var points := Points(tagged, lab);
      HullsFor(engine, tagged, labs[..|labs| - 1])
        + (if |points| >= 3 then [WaterFeature(engine.convexHull(points), lab, true)] else [])
  }

  /** The pieces a multi-label triangle yields: for each labeller, in the order the
      HashMap yields them, the convex hull of its points when it has three or more. */
  function Hulls(engine: Engine, ord: Order<Label>, tagged: seq<Tagged>): seq<WaterFeature> {
    HullsFor(engine, tagged, Arrange(ord, Keys(tagged, AnyTag(), TagLabel)))
  }

  /** Grouping the claimed points by labeller, then one hull per label with at least
      three points. */
  method LabelHulls(engine: Engine, ord: Order<Label>, tagged: seq<Tagged>) returns (r: seq<WaterFeature>)
    ensures r == Hulls(engine, ord, tagged)
  {
    var keys, groups := GroupBy(tagged, AnyTag(), TagLabel, TagAt);
    var ordered := Arrange(ord, keys);
    r := [];
    for j := 0 to |ordered|
      invariant r == HullsFor(engine, tagged, ordered[..j])
    {
      ArrangeIndex(ord, keys, j);
      var lab := ordered[j];
      var coordList := groups[lab];
      assert ordered[..j + 1][..j] == ordered[..j];
      if |coordList| >= 3 {
        r := r + [WaterFeature(engine.convexHull(coordList), lab, true)];
      }
    }
    assert ordered[..|ordered|] == ordered;
  }

  lemma {:induction false} HullsForFrom(engine: Engine, tagged: seq<Tagged>, labs: seq<Label>, w: WaterFeature)
    requires w in HullsFor(engine, tagged, labs)
    ensures w.wasMultiLabel && w.lab in labs
    ensures |Points(tagged, w.lab)| >= 3 && w.geometry == engine.convexHull(Points(tagged, w.lab))
    decreases |labs|
  {
    if w !in HullsFor(engine, tagged, labs[..|labs| - 1]) {
      assert w.lab == labs[|labs| - 1];
    } else {
      HullsForFrom(engine, tagged, labs[..|labs| - 1], w);
    }
  }

  lemma {:induction false} HullsForCover(engine: Engine, tagged: seq<Tagged>, labs: seq<Label>, lab: Label)
    requires lab in labs && |Points(tagged, lab)| >= 3
    ensures WaterFeature(engine.convexHull(Points(tagged, lab)), lab, true) in HullsFor(engine, tagged, labs)
    decreases |labs|
  {
    if lab != labs[|labs| - 1] {
      assert labs == labs[..|labs| - 1] + [labs[|labs| - 1]];
      HullsForCover(engine, tagged, labs[..|labs| - 1], lab);
    }
  }

  /** Every hull piece is marked multi-label and is the hull of the three or more
      points claimed for its label. */
  lemma HullsFrom(engine: Engine, ord: Order<Label>, tagged: seq<Tagged>, w: WaterFeature)
    requires w in Hulls(engine, ord, tagged)
    ensures w.wasMultiLabel
    ensures |Points(tagged, w.lab)| >= 3 && w.geometry == engine.convexHull(Points(tagged, w.lab))
    ensures exists t :: t in tagged && t.lab == w.lab
  {
    var keys := Keys(tagged, AnyTag(), TagLabel);
    HullsForFrom(engine, tagged, Arrange(ord, keys), w);
    ArrangeIn(ord, keys, w.lab);
    KeysFrom(tagged, AnyTag(), TagLabel, w.lab);
  }

  /** Every label with three or more claimed points gets its hull piece. */
  lemma HullsCover(engine: Engine, ord: Order<Label>, tagged: seq<Tagged>, lab: Label)
    requires |Points(tagged, lab)| >= 3
    ensures WaterFeature(engine.convexHull(Points(tagged, lab)), lab, true) in Hulls(engine, ord, tagged)
  {
    var keys := Keys(tagged, AnyTag(), TagLabel);
    KeysBucket(tagged, AnyTag(), TagLabel, TagAt, lab);
    ArrangeIn(ord, keys, lab);
    HullsForCover(engine, tagged, Arrange(ord, keys), lab);
  }

  // ---------------------------------------------------------- labelTriangles

  /** The label set of each vertex, in ring order. */
  function VertexLabels(ord: Order<Label>, index: CoordIndex, coords: seq<Coordinate>): (r: seq<seq<Label>>)
    ensures |r| == |coords|
    ensures forall k :: 0 <= k < |coords| ==> r[k] == LabelsAt(ord, Lookup(index, coords[k]))
  {
    seq(|coords|, k requires 0 <= k < |coords| => LabelsAt(ord, Lookup(index, coords[k])))
  }

  /** What one triangle contributes to `labelTriangles`: an exception when its ring
      does not have four coordinates, otherwise its classification. */
  function TriangleLabelled(engine: Engine, ord: Order<Label>, index: CoordIndex, triangle: Geom): Result<seq<WaterFeature>>
  {
    var coords := engine.coordinates(triangle);
    if |coords| != 4 then Err(BadTriangle)
    else Ok(Classified(engine, ord, index, triangle, coords, VertexLabels(ord, index, coords)))
  }

  /** The pieces of a triangle whose vertices have the label sets `sets`: itself
      under a label all its vertices share; nothing when it overlaps land at one of
      its vertices; otherwise the hulls of the points claimed pair by pair. */
  function Classified(engine: Engine, ord: Order<Label>, index: CoordIndex, triangle: Geom,
                      coords: seq<Coordinate>, sets: seq<seq<Label>>): seq<WaterFeature>
    requires |sets| == |coords| > 0
  {
    var commonLabel := Head(Agreed(ord, sets));
    if commonLabel != None then [WaterFeature(triangle, commonLabel, false)]
    else if Overlapping(engine, index, coords, triangle) then []
    else Hulls(engine, ord, Claims(sets, coords, |coords|))
  }

  /** `TriangleLabelled` as a function value. */
  function Labeller(engine: Engine, ord: Order<Label>, index: CoordIndex): Geom -> Result<seq<WaterFeature>> {
    (t: Geom) => TriangleLabelled(engine, ord, index, t)
  }

  function AnyGeom(): Geom -> bool {
    (g: Geom) => true
  }

  /** What `labelTriangles` returns: the pieces of every triangle, in order; the
      first malformed triangle raises. */
  function LabelledTriangles(engine: Engine, ord: Order<Label>, index: CoordIndex, triangles: seq<Geom>): Result<seq<WaterFeature>> {
    FlatMap(Labeller(engine, ord, index), AnyGeom(), triangles)
  }

  /** The loop that collects the label set of each vertex. */
  method CoordLabels(ord: Order<Label>, index: CoordIndex, coords: seq<Coordinate>) returns (coordLabels: seq<seq<Label>>)
    ensures coordLabels == VertexLabels(ord, index, coords)
  {
    coordLabels := [];
    for k := 0 to |coords|
      invariant |coordLabels| == k
      invariant forall k' :: 0 <= k' < k ==> coordLabels[k'] == LabelsAt(ord, Lookup(index, coords[k']))
    {
      var labels := LabelSet(ord, Lookup(index, coords[k]));
      coordLabels := coordLabels + [labels];
    }
    VertexLabelsAre(ord, index, coords, coordLabels);
  }

  lemma VertexLabelsAre(ord: Order<Label>, index: CoordIndex, coords: seq<Coordinate>, coordLabels: seq<seq<Label>>)
    requires |coordLabels| == |coords|
    requires forall k :: 0 <= k < |coords| ==> coordLabels[k] == LabelsAt(ord, Lookup(index, coords[k]))
    ensures coordLabels == VertexLabels(ord, index, coords)
  {
  }

  /** The body of the `labelTriangles` loop after the coordinate count check. */
  method LabelTriangle(engine: Engine, ord: Order<Label>, index: CoordIndex, triangle: Geom, coords: seq<Coordinate>,
                       coordLabels: seq<seq<Label>>) returns (out: seq<WaterFeature>)
    requires |coordLabels| == |coords| > 0
    ensures out == Classified(engine, ord, index, triangle, coords, coordLabels)
  {
    var commonLabels := CommonLabels(ord, coordLabels);
    var commonLabel := Head(commonLabels);
    if commonLabel != None {
      return [WaterFeature(triangle, commonLabel, false)];
    }
    var overlaps := OverlapsLand(engine, index, coords, triangle);
    if overlaps {
      return [];
    }
    var labeledCoords := PairLabels(coordLabels, coords);
    out := LabelHulls(engine, ord, labeledCoords);
  }

  /** `labelTriangles`. */
  method LabelTriangles(engine: Engine, ord: Order<Label>, index: CoordIndex, triangles: seq<Geom>)
    returns (r: Result<seq<WaterFeature>>)
    ensures r == LabelledTriangles(engine, ord, index, triangles)
  {
    var labeller := Labeller(engine, ord, index);
    var waterFeatures: seq<WaterFeature> := [];
    for t := 0 to |triangles|
      invariant FlatMap(labeller, AnyGeom(), triangles[..t]) == Ok(waterFeatures)
    {
      var triangle := triangles[t];
      var coords := engine.coordinates(triangle);
      if |coords| != 4 {
        assert labeller(triangle) == Err(BadTriangle);
        FlatMapFirstErr(labeller, AnyGeom(), triangles, t);
        return Err(BadTriangle);
      }
      var coordLabels := CoordLabels(ord, index, coords);
      var out := LabelTriangle(engine, ord, index, triangle, coords, coordLabels);
      assert labeller(triangle) == Ok(out);
      FlatMapStep(labeller, AnyGeom(), triangles, t);
      waterFeatures := waterFeatures + out;
    }
    assert triangles[..|triangles|] == triangles;
    r := Ok(waterFeatures);
  }

  /** A triangle whose vertices share a label is kept whole, once, under one of the
      shared labels, and is not marked multi-label. */
  lemma TriangleShared(engine: Engine, ord: Order<Label>, index: CoordIndex, triangle: Geom, lab: Label)
    requires |engine.coordinates(triangle)| == 4
    requires lab != None
    requires forall k :: 0 <= k < 4 ==> lab in LabelsAt(ord, Lookup(index, engine.coordinates(triangle)[k]))
    requires forall k :: 0 <= k < 4 ==> None !in LabelsAt(ord, Lookup(index, engine.coordinates(triangle)[k]))
    ensures TriangleLabelled(engine, ord, index, triangle).Ok?
    ensures var out := TriangleLabelled(engine, ord, index, triangle).value;
      |out| == 1 && out[0].geometry == triangle && !out[0].wasMultiLabel
    ensures var out := TriangleLabelled(engine, ord, index, triangle).value;
      forall k :: 0 <= k < 4 ==> out[0].lab in LabelsAt(ord, Lookup(index, engine.coordinates(triangle)[k]))
  {
    var coords := engine.coordinates(triangle);
    var sets := VertexLabels(ord, index, coords);
    AgreedMembers(ord, sets, lab);
    var common := Agreed(ord, sets);
    AgreedMembers(ord, sets, common[0]);
  }

  /** A triangle whose vertices share no label and that overlaps land at one of its
      vertices yields nothing. */
  lemma TriangleOverlapSkipped(engine: Engine, ord: Order<Label>, index: CoordIndex, triangle: Geom)
    requires |engine.coordinates(triangle)| == 4
    requires forall lab :: lab in LabelsAt(ord, Lookup(index, engine.coordinates(triangle)[0])) ==>
      exists k :: 0 <= k < 4 && lab !in LabelsAt(ord, Lookup(index, engine.coordinates(triangle)[k]))
    requires Overlapping(engine, index, engine.coordinates(triangle), triangle)
    ensures TriangleLabelled(engine, ord, index, triangle) == Ok([])
  {
    var coords := engine.coordinates(triangle);
    var sets := VertexLabels(ord, index, coords);
    var common := Agreed(ord, sets);
    if |common| > 0 {
      AgreedMembers(ord, sets, common[0]);
      assert false;
    }
  }

  /** A malformed triangle is the only exception a triangle raises. */
  lemma TriangleErr(engine: Engine, ord: Order<Label>, index: CoordIndex, triangle: Geom)
    ensures TriangleLabelled(engine, ord, index, triangle).Err? <==> |engine.coordinates(triangle)| != 4
    ensures TriangleLabelled(engine, ord, index, triangle).Err? ==> TriangleLabelled(engine, ord, index, triangle).error == BadTriangle
  {
  }

  /** Every piece of a triangle has a non-null label that one of its vertices has;
      a piece not marked multi-label is the triangle itself, under a label every
      vertex has; a multi-label piece is a convex hull. */
  lemma TriangleFrom(engine: Engine, ord: Order<Label>, index: CoordIndex, triangle: Geom, w: WaterFeature)
    requires TriangleLabelled(engine, ord, index, triangle).Ok?
    requires w in TriangleLabelled(engine, ord, index, triangle).value
    ensures w.lab != None
    ensures exists k :: 0 <= k < |engine.coordinates(triangle)| && w.lab in LabelsAt(ord, Lookup(index, engine.coordinates(triangle)[k]))
    ensures !w.wasMultiLabel ==> w.geometry == triangle
    ensures !w.wasMultiLabel ==>
      forall k :: 0 <= k < |engine.coordinates(triangle)| ==> w.lab in LabelsAt(ord, Lookup(index, engine.coordinates(triangle)[k]))
    ensures w.wasMultiLabel ==> exists points: seq<Coordinate> :: |points| >= 3 && w.geometry == engine.convexHull(points)
  {
    var coords := engine.coordinates(triangle);
    var sets := VertexLabels(ord, index, coords);
    var common := Agreed(ord, sets);
    if Head(common) != None {
      AgreedMembers(ord, sets, w.lab);
      assert w.lab in sets[0];
    } else {
      var tagged := Claims(sets, coords, |coords|);
      HullsFrom(engine, ord, tagged, w);
      var t :| t in tagged && t.lab == w.lab;
      ClaimsFrom(sets, coords, |coords|, t);
    }
  }

  /** `labelTriangles` raises exactly when some triangle's ring does not have four
      coordinates. */
  lemma LabelledTrianglesErr(engine: Engine, ord: Order<Label>, index: CoordIndex, triangles: seq<Geom>)
    ensures LabelledTriangles(engine, ord, index, triangles).Err? <==>
      exists i :: 0 <= i < |triangles| && |engine.coordinates(triangles[i])| != 4
    ensures LabelledTriangles(engine, ord, index, triangles).Err? ==>
      LabelledTriangles(engine, ord, index, triangles).error == BadTriangle
  {
    var labeller := Labeller(engine, ord, index);
    if FlatMap(labeller, AnyGeom(), triangles).Err? {
      FlatMapErr(labeller, AnyGeom(), triangles);
    }
    if exists i :: 0 <= i < |triangles| && |engine.coordinates(triangles[i])| != 4 {
      var i :| 0 <= i < |triangles| && |engine.coordinates(triangles[i])| != 4;
      FlatMapErrAt(labeller, AnyGeom(), triangles, i);
    }
  }

  /** Every labelled piece comes from some triangle, with a non-null label that a
      land entry at one of that triangle's vertices carries. */
  lemma LabelledTrianglesFrom(engine: Engine, ord: Order<Label>, index: CoordIndex, triangles: seq<Geom>, w: WaterFeature)
    requires LabelledTriangles(engine, ord, index, triangles).Ok?
    requires w in LabelledTriangles(engine, ord, index, triangles).value
    ensures w.lab != None
    ensures exists c, e :: c in index && e in index[c] && e.GetLabel() == w.lab
  {
    var labeller := Labeller(engine, ord, index);
    FlatMapFrom(labeller, AnyGeom(), triangles, w);
    var i :| 0 <= i < |triangles| && labeller(triangles[i]).Ok? && w in labeller(triangles[i]).value;
    var triangle := triangles[i];
    TriangleFrom(engine, ord, index, triangle, w);
    var coords := engine.coordinates(triangle);
    var k :| 0 <= k < |coords| && w.lab in LabelsAt(ord, Lookup(index, coords[k]));
    LabelsAtMembers(ord, Lookup(index, coords[k]), w.lab);
  }

  // ------------------------------------------------------ unionTrianglesByLabel

  /** The labelled triangles as label/geometry pairs. */
  function LabeledPairs(ws: seq<WaterFeature>): (r: seq<SimplifierUtils.Labeled>)
    ensures |r| == |ws|
    ensures forall k :: 0 <= k < |ws| ==> r[k] == SimplifierUtils.Labeled(ws[k].lab, ws[k].geometry)
  {
    seq(|ws|, k requires 0 <= k < |ws| => SimplifierUtils.Labeled(ws[k].lab, ws[k].geometry))
  }

  /** Each pair as a weak entry at the root, made by `factory`. */
  function WeakEntries(factory: FeatureEntryFactory, ls: seq<SimplifierUtils.Labeled>): (r: seq<FeatureEntry>)
    ensures |r| == |ls|
    ensures forall k :: 0 <= k < |ls| ==> r[k] == factory.WeakEntry(ls[k].lab, true, ls[k].geom)
  {
    seq(|ls|, k requires 0 <= k < |ls| => factory.WeakEntry(ls[k].lab, true, ls[k].geom))
  }

  /** What `unionTrianglesByLabel` returns. */
  function UnionedTriangles(engine: Engine, ord: Order<Label>, factory: FeatureEntryFactory, ws: seq<WaterFeature>): seq<FeatureEntry> {
    WeakEntries(factory, SimplifierUtils.UnionedByLabel(engine, ord, LabeledPairs(ws)))
  }

  /** The loop converting the labelled triangles to label/geometry pairs. */
  method ToPairs(ws: seq<WaterFeature>) returns (labeledGeoms: seq<SimplifierUtils.Labeled>)
    ensures labeledGeoms == LabeledPairs(ws)
  {
    labeledGeoms := [];
    for k := 0 to |ws|
      invariant |labeledGeoms| == k
      invariant forall k' :: 0 <= k' < k ==> labeledGeoms[k'] == SimplifierUtils.Labeled(ws[k'].lab, ws[k'].geometry)
    {
      labeledGeoms := labeledGeoms + [SimplifierUtils.Labeled(ws[k].lab, ws[k].geometry)];
    }
  }

  /** The loop converting the unioned pairs to weak entries. */
  method ToWeakEntries(factory: FeatureEntryFactory, unionedGeoms: seq<SimplifierUtils.Labeled>) returns (r: seq<FeatureEntry>)
    ensures r == WeakEntries(factory, unionedGeoms)
  {
    r := [];
    for k := 0 to |unionedGeoms|
      invariant |r| == k
      invariant forall k' :: 0 <= k' < k ==> r[k'] == factory.WeakEntry(unionedGeoms[k'].lab, true, unionedGeoms[k'].geom)
    {
      r := r + [factory.WeakEntry(unionedGeoms[k].lab, true, unionedGeoms[k].geom)];
    }
  }

  /** `unionTrianglesByLabel`. */
  method UnionTrianglesByLabel(engine: Engine, ord: Order<Label>, factory: FeatureEntryFactory, ws: seq<WaterFeature>)
    returns (r: seq<FeatureEntry>)
    ensures r == UnionedTriangles(engine, ord, factory, ws)
  {
    var labeledGeoms := ToPairs(ws);
    var unionedGeoms := SimplifierUtils.UnionByLabel(engine, ord, labeledGeoms);
    r := ToWeakEntries(factory, unionedGeoms);
  }

  /** The unioned water entries are weak, at the root, under the factory's label
      attribute, and each has the non-null label of some labelled piece. */
  lemma UnionedTrianglesFrom(engine: Engine, ord: Order<Label>, factory: FeatureEntryFactory, ws: seq<WaterFeature>, e: FeatureEntry)
    requires e in UnionedTriangles(engine, ord, factory, ws)
    ensures e.IsWeakLabel() && e.location == Root(factory.reference) && e.labelEntry.key == factory.labelAttribute
    ensures e.GetLabel() != None
    ensures exists w :: w in ws && w.lab == e.GetLabel()
  {
    var pairs := LabeledPairs(ws);
    var unioned := SimplifierUtils.UnionedByLabel(engine, ord, pairs);
    var k :| 0 <= k < |unioned| && e == factory.WeakEntry(unioned[k].lab, true, unioned[k].geom);
    SimplifierUtils.UnionByLabelLabels(engine, ord, pairs, unioned[k]);
    var g :| SimplifierUtils.Labeled(unioned[k].lab, g) in pairs && SimplifierUtils.IsValidGeometry(engine, g);
    var j :| 0 <= j < |pairs| && pairs[j] == SimplifierUtils.Labeled(unioned[k].lab, g);
    assert ws[j].lab == e.GetLabel();
  }

  // ---------------------------------------------------------------- simplify

  /** `coordToFeat` after adding `f` under each of `coords`. */
  function AddVertices(index: CoordIndex, coords: seq<Coordinate>, f: FeatureEntry): CoordIndex {
    if |coords| == 0 then index
    else
      var m := AddVertices(index, coords[..|coords| - 1], f);
      var c := coords[|coords| - 1];
      m[c := (if c in m then m[c] else []) + [f]]
  }

  /** `coordToFeat` as `simplify` builds it: each labelled entry under each of its
      vertices, in order. */
  function Index(engine: Engine, features: seq<FeatureEntry>): CoordIndex {
    if |features| == 0 then map[]
    else
      var m := Index(engine, features[..|features| - 1]);
      var f := features[|features| - 1];
      if f.GetLabel() == None then m else AddVertices(m, engine.coordinates(f.geometry), f)
  }

  /** `allLand`: the geometries of the labelled entries, in order. */
  function Land(features: seq<FeatureEntry>): seq<Geom> {
    if |features| == 0 then []
    else
      var f := features[|features| - 1];
      Land(features[..|features| - 1]) + (if f.GetLabel() == None then [] else [f.geometry])
  }

  lemma {:induction false} AddVerticesMembers(index: CoordIndex, coords: seq<Coordinate>, f: FeatureEntry, c: Coordinate, g: FeatureEntry)
    ensures c in AddVertices(index, coords, f) <==> c in index || c in coords
    ensures c in AddVertices(index, coords, f) && g in AddVertices(index, coords, f)[c] <==>
      (c in index && g in index[c]) || (g == f && c in coords)
    decreases |coords|
  {
    if |coords| > 0 {
      var init := coords[..|coords| - 1];
      AddVerticesMembers(index, init, f, c, g);
      assert coords == init + [coords[|coords| - 1]];
    }
  }

  /** The vertex map holds exactly the labelled entries, each under every one of its
      vertices. */
  lemma {:induction false} IndexMembers(engine: Engine, features: seq<FeatureEntry>, c: Coordinate, f: FeatureEntry)
    ensures c in Index(engine, features) && f in Index(engine, features)[c] <==>
      f in features && f.GetLabel() != None && c in engine.coordinates(f.geometry)
    decreases |features|
  {
    if |features| > 0 {
      var init := features[..|features| - 1];
      var last := features[|features| - 1];
      IndexMembers(engine, init, c, f);
      assert features == init + [last];
      if last.GetLabel() != None {
        AddVerticesMembers(Index(engine, init), engine.coordinates(last.geometry), last, c, f);
      }
    }
  }

  /** The land is the geometry of the labelled entries only. */
  lemma {:induction false} LandMembers(features: seq<FeatureEntry>, g: Geom)
    ensures g in Land(features) <==> exists f :: f in features && f.GetLabel() != None && f.geometry == g
    decreases |features|
  {
    if |features| > 0 {
      var init := features[..|features| - 1];
      LandMembers(init, g);
      assert features == init + [features[|features| - 1]];
    }
  }

  /** The building of `coordToFeat` and `allLand`. */
  method IndexLand(engine: Engine, features: seq<FeatureEntry>) returns (index: CoordIndex, allLand: seq<Geom>)
    ensures index == Index(engine, features) && allLand == Land(features)
  {
    index := map[];
    allLand := [];
    for i := 0 to |features|
      invariant index == Index(engine, features[..i]) && allLand == Land(features[..i])
    {
      var feature := features[i];
      assert features[..i + 1][..i] == features[..i];
      if feature.GetLabel() == None {
        continue;
      }
      allLand := allLand + [feature.geometry];
      var coords := engine.coordinates(feature.geometry);
      ghost var before := index;
      for k := 0 to |coords|
        invariant index == AddVertices(before, coords[..k], feature)
      {
        assert coords[..k + 1][..k] == coords[..k];
        var coord := coords[k];
        var entries: seq<FeatureEntry> := [];
        if coord in index {
          entries := index[coord];
        }
        index := index[coord := entries + [feature]];
      }
      assert coords[..|coords|] == coords;
    }
    assert features[..|features|] == features;
  }

  /** The water filter: the same thresholds as `isValidGeometry`. */
  predicate WaterKept(engine: Engine, g: Geom) {
    var points := engine.numPoints(g);
    !(points <= ImpossiblyLowPoints || (points <= SuspiciouslyLowPoints && engine.area(g) < AreaThreshold))
  }

  /** The water filter keeps exactly what `isValidGeometry` keeps. */
  lemma WaterKeptIsValid(engine: Engine, g: Geom)
    ensures WaterKept(engine, g) <==> SimplifierUtils.IsValidGeometry(engine, g)
  {
  }

  /** `validSubGeometries`: the water parts the filter keeps, in order. */
  function ValidParts(engine: Engine, parts: seq<Geom>): (r: seq<Geom>)
    ensures forall g :: g in r <==> g in parts && WaterKept(engine, g)
  {
    if |parts| == 0 then []
    else
      assert parts == parts[..|parts| - 1] + [parts[|parts| - 1]];
      ValidParts(engine, parts[..|parts| - 1]) + (if WaterKept(engine, parts[|parts| - 1]) then [parts[|parts| - 1]] else [])
  }

  /** `waterTriangles`: the triangles of each part, in order. */
  function Triangles(engine: Engine, parts: seq<Geom>): seq<Geom> {
    if |parts| == 0 then []
    else Triangles(engine, parts[..|parts| - 1]) + engine.triangulate(parts[|parts| - 1])
  }

  /** The filtering loop over the parts of the water. */
  method FilterWater(engine: Engine, water: Geom) returns (valid: seq<Geom>)
    ensures valid == ValidParts(engine, engine.parts(water))
  {
    var parts := engine.parts(water);
    valid := [];
    for i := 0 to |parts|
      invariant valid == ValidParts(engine, parts[..i])
    {
      assert parts[..i + 1][..i] == parts[..i];
      var geometry := parts[i];
      var points := engine.numPoints(geometry);
      if !(points <= ImpossiblyLowPoints || (points <= SuspiciouslyLowPoints && engine.area(geometry) < AreaThreshold)) {
        valid := valid + [geometry];
      }
    }
    assert parts[..|parts|] == parts;
  }

  /** The triangulating loop over the valid water parts. */
  method Triangulate(engine: Engine, valid: seq<Geom>) returns (triangles: seq<Geom>)
    ensures triangles == Triangles(engine, valid)
  {
    triangles := [];
    for i := 0 to |valid|
      invariant triangles == Triangles(engine, valid[..i])
    {
      assert valid[..i + 1][..i] == valid[..i];
      triangles := triangles + engine.triangulate(valid[i]);
    }
    assert valid[..|valid|] == valid;
  }

  /** What `simplify` returns: the water (the reference's envelope minus the union
      of the labelled land), its valid parts triangulated, the triangles labelled
      and unioned by label. A failed union or difference escapes, as does a
      malformed triangle. */
  function WaterSimplified(engine: Engine, ord: Order<Label>, reference: CellLocationReference,
                           factory: FeatureEntryFactory, features: seq<FeatureEntry>): Result<seq<FeatureEntry>>
  {
    match engine.unionAll(Land(features))
    case Failed => Err(GeometryFailure)
    case Done(land) =>
      match engine.difference(engine.toGeometry(reference.envelope), land)
      case Failed => Err(GeometryFailure)
      case Done(water) =>
        var triangles := Triangles(engine, ValidParts(engine, engine.parts(water)));
        match LabelledTriangles(engine, ord, Index(engine, features), triangles)
        case Err(e) => Err(e)
        case Ok(ws) => Ok(UnionedTriangles(engine, ord, factory, ws))
  }

  /** `simplify`. */
  method Simplify(engine: Engine, ord: Order<Label>, reference: CellLocationReference,
                  factory: FeatureEntryFactory, features: seq<FeatureEntry>) returns (r: Result<seq<FeatureEntry>>)
    ensures r == WaterSimplified(engine, ord, reference, factory, features)
  {
    var coordToFeat, allLand := IndexLand(engine, features);
    var land := engine.unionAll(allLand);
    if land.Failed? {
      return Err(GeometryFailure);
    }
    var water := engine.difference(engine.toGeometry(reference.envelope), land.value);
    if water.Failed? {
      return Err(GeometryFailure);
    }
    var validSubGeometries := FilterWater(engine, water.value);
    var waterTriangles := Triangulate(engine, validSubGeometries);
    var labeledTriangles := LabelTriangles(engine, ord, coordToFeat, waterTriangles);
    if labeledTriangles.Err? {
      return Err(labeledTriangles.error);
    }
    var unionedLabeledWater := UnionTrianglesByLabel(engine, ord, factory, labeledTriangles.value);
    r := Ok(unionedLabeledWater);
  }

  /** The water entries are weak, at the factory's root, under its label attribute,
      and each carries the non-null label of an input entry: the water is only ever
      labelled after the land around it. The only exceptions are a failed union or
      difference and a malformed triangle. */
  lemma WaterSimplifiedFacts(engine: Engine, ord: Order<Label>, reference: CellLocationReference,
                             factory: FeatureEntryFactory, features: seq<FeatureEntry>)
    ensures var r := WaterSimplified(engine, ord, reference, factory, features);
      r.Err? ==> r.error == GeometryFailure || r.error == BadTriangle
    ensures var r := WaterSimplified(engine, ord, reference, factory, features);
      r.Ok? ==> forall e :: e in r.value ==>
        e.IsWeakLabel() && e.location == Root(factory.reference) && e.labelEntry.key == factory.labelAttribute
    ensures var r := WaterSimplified(engine, ord, reference, factory, features);
      r.Ok? ==> forall e :: e in r.value ==>
        e.GetLabel() != None && exists f :: f in features && f.GetLabel() == e.GetLabel()
  {
    var r := WaterSimplified(engine, ord, reference, factory, features);
    if engine.unionAll(Land(features)).Done? {
      var land := engine.unionAll(Land(features)).value;
      if engine.difference(engine.toGeometry(reference.envelope), land).Done? {
        var water := engine.difference(engine.toGeometry(reference.envelope), land).value;
        var triangles := Triangles(engine, ValidParts(engine, engine.parts(water)));
        var index := Index(engine, features);
        LabelledTrianglesErr(engine, ord, index, triangles);
        if LabelledTriangles(engine, ord, index, triangles).Ok? {
          var ws := LabelledTriangles(engine, ord, index, triangles).value;
          forall e | e in r.value
            ensures e.IsWeakLabel() && e.location == Root(factory.reference) && e.labelEntry.key == factory.labelAttribute
            ensures e.GetLabel() != None && exists f :: f in features && f.GetLabel() == e.GetLabel()
          {
            UnionedTrianglesFrom(engine, ord, factory, ws, e);
            var w :| w in ws && w.lab == e.GetLabel();
            LabelledTrianglesFrom(engine, ord, index, triangles, w);
            var c: Coordinate, f: FeatureEntry :| c in index && f in index[c] && f.GetLabel() == w.lab;
            IndexMembers(engine, features, c, f);
          }
        }
      }
    }
  }
}
