/** `BaseIndexedValues` and `LabelFilters`: queries by coordinate, decorated by a
    chain of label filters. Each filter gets the coordinate and the values it wraps,
    and may ask those values for their label and for the features near the point. */
module Filters {
  import opened Common
  import opened Text
  import opened Geometry
  import opened Features

  /** How a feature filter ranks the features near the point. */
  datatype Measure =
    | Distance           // FeatureDistanceFilter: distance from the geometry
    | CentroidDistance   // FeatureCentroidDistanceFilter: distance from its centroid
    | BoxArea            // FeatureBoundingBoxFilter: area of a bounding box covering the point

  /** The filters of `LabelFilters`. */
  datatype Filter =
    | ValidLabels(validLabels: set<Label>, defaultLabel: Label)   // ValidLabelFilter
    | TimezoneLabel                                              // TimezoneLabelFilter
    | DefaultLabel(defaultLabel: Label)                          // DefaultLabelFilter
    | BoundingBox(envelope: Envelope)                            // BoundingBoxFilter
    | Feature(measure: Measure)                                  // FeatureFilter

  /** Values that can be queried by coordinate: an implementation that answers on its
      own, or `FilteredIndexedValues`, a filter stacked on the values it wraps. */
  datatype Values =
    | Source(labelAt: Coordinate -> Label, colocatedAt: Coordinate -> seq<FeatureEntry>)
    | Filtered(labelFilter: Filter, next: Values)

  /** `with(filter)`: a wrapper whose `next` is the receiver. */
  function With(v: Values, f: Filter): (r: Values)
    ensures r.Filtered? && r.labelFilter == f && r.next == v
  {
    Filtered(f, v)
  }

  /** `labelForCoordinate`. */
  function LabelFor(engine: Engine, v: Values, c: Coordinate): Label
    decreases v, 0
  {
    match v
    case Source(labelAt, _) => labelAt(c)
    case Filtered(f, next) => FilterLabel(engine, f, c, next)
  }

  /** `colocatedFeatures`: a wrapper passes the question to the values it wraps. */
  function Colocated(v: Values, c: Coordinate): seq<FeatureEntry> {
    match v
    case Source(_, colocatedAt) => colocatedAt(c)
    case Filtered(_, next) => Colocated(next, c)
  }

  /** The values at the bottom of a chain. */
  function Innermost(v: Values): (r: Values)
    ensures r.Source?
  {
    match v
    case Source(_, _) => v
    case Filtered(_, next) => Innermost(next)
  }

  /** `filterLabelForCoordinate` of each filter. */
  function FilterLabel(engine: Engine, f: Filter, c: Coordinate, next: Values): Label
    decreases next, 2
  {
    match f
    case ValidLabels(validLabels, defaultLabel) =>
      var lab := LabelFor(engine, next, c);
      if lab in validLabels then lab else defaultLabel
    case TimezoneLabel =>
      var lab := LabelFor(engine, next, c);
      if lab != None then lab else Some(TimezoneName(c.x))
    case DefaultLabel(defaultLabel) =>
      var lab := LabelFor(engine, next, c);
      if lab != None then lab else defaultLabel
    case BoundingBox(envelope) =>
      if envelope.Covers(c) then LabelFor(engine, next, c) else None
    case Feature(measure) =>
      FeatureLabel(engine, measure, c, next)
  }

  /** `FeatureFilter.filterLabelForCoordinate`: a non-null label passes; otherwise the
      best of the features near the point, or null when there are none. */
  function FeatureLabel(engine: Engine, measure: Measure, c: Coordinate, next: Values): Label
    decreases next, 1
  {
    var lab := LabelFor(engine, next, c);
    if lab != None then lab
    else
      var entries := Colocated(next, c);
      if |entries| == 0 then None
      else Best(Score(engine, measure, c), entries).lab
  }

  // ---------------------------------------------------------------------------
  // The timezone band

  const MinLong: int := -0x8000_0000_0000_0000
  const MaxLong: int := 0x7fff_ffff_ffff_ffff

  /** `Math.round(double)`: the floor of `v + 1/2`, saturated to a `long`. */
  function JavaRound(v: real): int {
    var n := (v + 0.5).Floor;
    if n < MinLong then MinLong else if n > MaxLong then MaxLong else n
  }

  /** `(int) -Math.round(x / 15.0)`. The negation of a `long` and the cast to `int`
      both keep the low 32 bits, so the result is the negated rounding wrapped to an
      `int`. */
  function Meridian(x: real): Int32 {
    Wrap32(-JavaRound(x / 15.0))
  }

  /** The timezone of the meridian band around longitude `x`: "Etc/GMT+n" for a
      positive `n`, "Etc/GMT" followed by `n` otherwise. */
  function TimezoneName(x: real): string {
    var n := Meridian(x);
    if n > 0 then "Etc/GMT+" + IntToString(n) else "Etc/GMT" + IntToString(n)
  }

  const ZonePrefix: string := "Etc/GMT"

  /** For any longitude the band's number `n` names the meridian at `-15 n` degrees,
      the one closest to `x`; over the longitudes of the globe `n` is between -12 and
      12. */
  lemma ClosestMeridian(x: real)
    requires -30000000000.0 <= x <= 30000000000.0
    ensures x - 7.5 < -15.0 * Meridian(x) as real <= x + 7.5
    ensures -180.0 <= x <= 180.0 ==> -12 <= Meridian(x) <= 12
  {
    var r := (x / 15.0 + 0.5).Floor;
    assert r as real <= x / 15.0 + 0.5 < r as real + 1.0;
    assert -2000000001 <= r <= 2000000001;
    assert JavaRound(x / 15.0) == r;
    assert Meridian(x) == -r;
  }

  /** The name is "Etc/GMT" followed by the band's number as `Integer.parseInt`
      reads it back, sign and all. */
  lemma TimezoneNameParses(x: real)
    ensures ZonePrefix <= TimezoneName(x)
    ensures ParseInt(TimezoneName(x)[|ZonePrefix|..]) == Ok(Meridian(x))
  {
    var n := Meridian(x);
    var name := TimezoneName(x);
    if n > 0 {
      var digits := NatDigits(n);
      assert name == ZonePrefix + "+" + digits;
      assert name[|ZonePrefix|..] == "+" + digits;
      assert ("+" + digits)[1..] == digits;
      NatDigitsValue(n);
    } else {
      assert name == ZonePrefix + IntToString(n);
      assert name[|ZonePrefix|..] == IntToString(n);
      ParseIntToString(n);
    }
  }

  /** The bands of longitudes 0, 15 and -15. */
  lemma TimezoneExamples()
    ensures TimezoneName(0.0) == "Etc/GMT0"
    ensures TimezoneName(15.0) == "Etc/GMT-1"
    ensures TimezoneName(-15.0) == "Etc/GMT+1"
  {
    assert Meridian(0.0) == 0;
    assert Meridian(15.0) == -1;
    assert Meridian(-15.0) == 1;
    assert NatDigits(0) == "0" && NatDigits(1) == "1";
  }

  // ---------------------------------------------------------------------------
  // bestLabel

  /** The state of a `bestLabel` loop: the best score so far and its label. */
  datatype Choice = Choice(best: real, lab: Label)

  /** The score a feature filter gives an entry near `c`; `None` for an entry the
      loop passes over. */
  function Score(engine: Engine, measure: Measure, c: Coordinate): FeatureEntry -> Option<real> {
    match measure
    case Distance => (e: FeatureEntry) => Some(engine.distance(e.geometry, c))
    case CentroidDistance => (e: FeatureEntry) => Some(engine.distance(engine.centroid(e.geometry), c))
    case BoxArea => (e: FeatureEntry) => BoxScore(engine, c, engine.boundingBox(e.geometry))
  }

  /** The area of a bounding box that covers the point; `None` for one that does not. */
  function BoxScore(engine: Engine, c: Coordinate, box: Geom): Option<real> {
    if engine.covers(box, c) then Some(engine.area(box)) else None
  }

  /** The `bestLabel` loop over `entries`: starting from `Double.MAX_VALUE` and null,
      an entry whose score is strictly below the best so far takes its place. */
  function Best(score: FeatureEntry -> Option<real>, entries: seq<FeatureEntry>): Choice {
    if |entries| == 0 then Choice(MaxDouble, None)
    else
      var prior := Best(score, entries[..|entries| - 1]);
      var e := entries[|entries| - 1];
      match score(e)
      case None => prior
      case Some(d) => if d < prior.best then Choice(d, e.GetLabel()) else prior
  }

  /** `bestLabel`, for each of the three measures. */
  method BestLabel(engine: Engine, measure: Measure, c: Coordinate, entries: seq<FeatureEntry>) returns (bestLabel: Label)
    ensures bestLabel == Best(Score(engine, measure, c), entries).lab
  {
    var score := Score(engine, measure, c);
    var best := MaxDouble;
    bestLabel := None;
    for k := 0 to |entries|
      invariant Best(score, entries[..k]) == Choice(best, bestLabel)
    {
      var e := entries[k];
      assert entries[..k + 1][..k] == entries[..k];
      match score(e)
      case None =>
      case Some(d) =>
        if d < best {
          best := d;
          bestLabel := e.GetLabel();
        }
    }
    assert entries[..|entries|] == entries;
  }

  /** Entry `i` is the first with the smallest score, and that score is below
      `Double.MAX_VALUE`. */
  predicate FirstMinimum(score: FeatureEntry -> Option<real>, entries: seq<FeatureEntry>, i: nat) {
    i < |entries| && score(entries[i]).Some? && score(entries[i]).value < MaxDouble
    && (forall j :: 0 <= j < i ==> score(entries[j]).None? || score(entries[j]).value > score(entries[i]).value)
    && (forall j :: i < j < |entries| ==> score(entries[j]).None? || score(entries[j]).value >= score(entries[i]).value)
  }

  /** When every scored entry scores above `d`, so does the best of them. */
  lemma {:induction false} BestAbove(score: FeatureEntry -> Option<real>, entries: seq<FeatureEntry>, d: real)
    requires d < MaxDouble
    requires forall j :: 0 <= j < |entries| ==> score(entries[j]).None? || score(entries[j]).value > d
    ensures Best(score, entries).best > d
    decreases |entries|
  {
    if |entries| > 0 {
      var init := entries[..|entries| - 1];
      assert forall j :: 0 <= j < |init| ==> init[j] == entries[j];
      BestAbove(score, init, d);
    }
  }

  /** The loop ends on the label of the first entry with the smallest score: later
      entries with the same score do not replace it. */
  lemma {:induction false} BestIsFirstMinimum(score: FeatureEntry -> Option<real>, entries: seq<FeatureEntry>, i: nat)
    requires FirstMinimum(score, entries, i)
    ensures Best(score, entries) == Choice(score(entries[i]).value, entries[i].GetLabel())
    decreases |entries|
  {
    var init := entries[..|entries| - 1];
    var d := score(entries[i]).value;
    assert forall j :: 0 <= j < |init| ==> init[j] == entries[j];
    if i == |entries| - 1 {
      BestAbove(score, init, d);
    } else {
      assert FirstMinimum(score, init, i);
      BestIsFirstMinimum(score, init, i);
    }
  }

  /** With no entry scoring below `Double.MAX_VALUE` the loop returns null. */
  lemma {:induction false} BestWithoutCandidates(score: FeatureEntry -> Option<real>, entries: seq<FeatureEntry>)
    requires forall j :: 0 <= j < |entries| ==> score(entries[j]).None? || score(entries[j]).value >= MaxDouble
    ensures Best(score, entries) == Choice(MaxDouble, None)
    decreases |entries|
  {
    if |entries| > 0 {
      var init := entries[..|entries| - 1];
      assert forall j :: 0 <= j < |init| ==> init[j] == entries[j];
      BestWithoutCandidates(score, init);
    }
  }

  /** The bounding-box measure never picks a feature whose box does not cover the
      point: with no covering box the answer is null. */
  lemma BoxAreaWithoutCover(engine: Engine, c: Coordinate, entries: seq<FeatureEntry>)
    requires forall j :: 0 <= j < |entries| ==> !engine.covers(engine.boundingBox(entries[j].geometry), c)
    ensures Best(Score(engine, BoxArea, c), entries).lab == None
  {
    BestWithoutCandidates(Score(engine, BoxArea, c), entries);
  }

  // ---------------------------------------------------------------------------
  // The chain

  /** The wrapper answers with its filter applied to the values it wraps. */
  lemma WithDelegates(engine: Engine, v: Values, f: Filter, c: Coordinate)
    ensures LabelFor(engine, With(v, f), c) == FilterLabel(engine, f, c, v)
    ensures Colocated(With(v, f), c) == Colocated(v, c)
  {
  }

  /** Whatever the filters, the features near a point are those of the values at the
      bottom of the chain. */
  lemma {:induction false} ColocatedInnermost(v: Values, c: Coordinate)
    ensures Colocated(v, c) == Innermost(v).colocatedAt(c)
  {
    match v
    case Source(_, _) =>
    case Filtered(_, next) => ColocatedInnermost(next, c);
  }

  /** In `v.with(f1).with(f2)` the last filter added runs first, on the wrapper of
      the first, and neither touches the features near the point. */
  lemma WithChain(engine: Engine, v: Values, f1: Filter, f2: Filter, c: Coordinate)
    ensures LabelFor(engine, With(With(v, f1), f2), c) == FilterLabel(engine, f2, c, With(v, f1))
    ensures LabelFor(engine, With(v, f1), c) == FilterLabel(engine, f1, c, v)
    ensures Colocated(With(With(v, f1), f2), c) == Colocated(v, c)
  {
  }

  /** `ValidLabelFilter`: a valid label passes, anything else becomes the default. */
  lemma ValidLabelsFilter(engine: Engine, next: Values, validLabels: set<Label>, defaultLabel: Label, c: Coordinate)
    ensures var r := LabelFor(engine, With(next, ValidLabels(validLabels, defaultLabel)), c);
      r in validLabels || r == defaultLabel
    ensures LabelFor(engine, next, c) in validLabels ==>
      LabelFor(engine, With(next, ValidLabels(validLabels, defaultLabel)), c) == LabelFor(engine, next, c)
    ensures LabelFor(engine, next, c) !in validLabels ==>
      LabelFor(engine, With(next, ValidLabels(validLabels, defaultLabel)), c) == defaultLabel
  {
  }

  /** `DefaultLabelFilter`: a non-null label passes, null becomes the default. */
  lemma DefaultLabelFilter(engine: Engine, next: Values, defaultLabel: Label, c: Coordinate)
    ensures LabelFor(engine, next, c) != None ==>
      LabelFor(engine, With(next, DefaultLabel(defaultLabel)), c) == LabelFor(engine, next, c)
    ensures LabelFor(engine, next, c) == None ==>
      LabelFor(engine, With(next, DefaultLabel(defaultLabel)), c) == defaultLabel
  {
  }

  /** `TimezoneLabelFilter`: never null; a non-null label passes, null becomes the
      timezone of the point's meridian band. */
  lemma TimezoneFilter(engine: Engine, next: Values, c: Coordinate)
    ensures LabelFor(engine, With(next, TimezoneLabel), c) != None
    ensures LabelFor(engine, next, c) != None ==>
      LabelFor(engine, With(next, TimezoneLabel), c) == LabelFor(engine, next, c)
    ensures LabelFor(engine, next, c) == None ==>
      LabelFor(engine, With(next, TimezoneLabel), c) == Some(TimezoneName(c.x))
  {
  }

  /** `BoundingBoxFilter`: inside the envelope, border included, the wrapped label;
      outside it null, whatever the wrapped values. */
  lemma BoundingBoxFilter(engine: Engine, next: Values, other: Values, envelope: Envelope, c: Coordinate)
    ensures envelope.Covers(c) ==> LabelFor(engine, With(next, BoundingBox(envelope)), c) == LabelFor(engine, next, c)
    ensures !envelope.Covers(c) ==> LabelFor(engine, With(next, BoundingBox(envelope)), c) == None
    ensures !envelope.Covers(c) ==>
      LabelFor(engine, With(next, BoundingBox(envelope)), c) == LabelFor(engine, With(other, BoundingBox(envelope)), c)
  {
  }

  /** `FeatureFilter`: a non-null label passes; otherwise null without features near
      the point, and else the label of the first best-scoring one of them. */
  lemma FeatureFilter(engine: Engine, next: Values, measure: Measure, c: Coordinate)
    ensures LabelFor(engine, next, c) != None ==>
      LabelFor(engine, With(next, Feature(measure)), c) == LabelFor(engine, next, c)
    ensures LabelFor(engine, next, c) == None && |Colocated(next, c)| == 0 ==>
      LabelFor(engine, With(next, Feature(measure)), c) == None
    ensures forall i: nat :: LabelFor(engine, next, c) == None && FirstMinimum(Score(engine, measure, c), Colocated(next, c), i) ==>
      LabelFor(engine, With(next, Feature(measure)), c) == Colocated(next, c)[i].GetLabel()
  {
    assert LabelFor(engine, With(next, Feature(measure)), c) == FeatureLabel(engine, measure, c, next);
    forall i: nat | LabelFor(engine, next, c) == None && FirstMinimum(Score(engine, measure, c), Colocated(next, c), i)
      ensures LabelFor(engine, With(next, Feature(measure)), c) == Colocated(next, c)[i].GetLabel()
    {
      BestIsFirstMinimum(Score(engine, measure, c), Colocated(next, c), i);
    }
  }

  /** Stacking the same filter twice answers as stacking it once. */
  lemma FilterIdempotent(engine: Engine, v: Values, f: Filter, c: Coordinate)
    ensures LabelFor(engine, With(With(v, f), f), c) == LabelFor(engine, With(v, f), c)
  {
    var once := With(v, f);
    match f
    case ValidLabels(validLabels, defaultLabel) =>
      ValidLabelsFilter(engine, v, validLabels, defaultLabel, c);
      ValidLabelsFilter(engine, once, validLabels, defaultLabel, c);
    case TimezoneLabel =>
      TimezoneFilter(engine, v, c);
      TimezoneFilter(engine, once, c);
    case DefaultLabel(defaultLabel) =>
      DefaultLabelFilter(engine, v, defaultLabel, c);
      DefaultLabelFilter(engine, once, defaultLabel, c);
    case BoundingBox(envelope) =>
    case Feature(measure) =>
      assert LabelFor(engine, once, c) == FeatureLabel(engine, measure, c, v);
      assert LabelFor(engine, With(once, f), c) == FeatureLabel(engine, measure, c, once);
  }
}
