/** `SimplifierUtils`: the test that drops degenerate geometries and the union of
    labelled geometries label by label that both simplifiers finish with. */
module SimplifierUtils {
  import opened Common
  import opened Geometry
  import opened Features
  import opened Grouping

  /** A geometry with at most this many points is always dropped. */
  const ImpossiblyLowPoints: int := 2
  /** A geometry with at most this many points is dropped when its area is tiny. */
  const SuspiciouslyLowPoints: int := 10
  /** The area below which a geometry with few points is dropped. */
  const AreaThreshold: real := 0.0000001

  /** `ImmutablePair<Object, Geometry>`: a label and a geometry. */
  datatype Labeled = Labeled(lab: Label, geom: Geom)

  /** `isValidGeometry`: a geometry is kept when it has more than ten points, or more
      than two points and an area of at least the threshold. */
  predicate IsValidGeometry(engine: Engine, g: Geom)
  {
    !(engine.numPoints(g) <= ImpossiblyLowPoints
      || (engine.numPoints(g) <= SuspiciouslyLowPoints && engine.area(g) < AreaThreshold))
  }

  lemma ValidGeometryCases(engine: Engine, g: Geom)
    ensures engine.numPoints(g) > SuspiciouslyLowPoints ==> IsValidGeometry(engine, g)
    ensures engine.numPoints(g) <= ImpossiblyLowPoints ==> !IsValidGeometry(engine, g)
    ensures ImpossiblyLowPoints < engine.numPoints(g) <= SuspiciouslyLowPoints ==>
      (IsValidGeometry(engine, g) <==> engine.area(g) >= AreaThreshold)
  {
  }

  function Kept(engine: Engine): Labeled -> bool {
    (t: Labeled) => IsValidGeometry(engine, t.geom)
  }

  function LabelOf(t: Labeled): Label {
    t.lab
  }

  function GeomOf(t: Labeled): Geom {
    t.geom
  }

  /** The labels of the valid geometries of `features`, each once, in the order they
      first occur: the keys of the grouping HashMap in insertion order. */
  function GroupKeys(engine: Engine, features: seq<Labeled>): seq<Label> {
    Keys(features, Kept(engine), LabelOf)
  }

  /** The valid geometries of `features` labelled `lab`, in order: the list the
      grouping HashMap holds for `lab`. */
  function Members(engine: Engine, features: seq<Labeled>, lab: Label): seq<Geom> {
    Bucket(features, Kept(engine), LabelOf, GeomOf, lab)
  }

  /** A label is a key of the grouping exactly when some valid geometry carries it. */
  lemma GroupKeysMembers(engine: Engine, features: seq<Labeled>, lab: Label)
    ensures lab in GroupKeys(engine, features) <==> |Members(engine, features, lab)| > 0
  {
    KeysBucket(features, Kept(engine), LabelOf, GeomOf, lab);
  }

  /** A member of a group is the geometry of a valid input feature with that label. */
  lemma MembersFromInput(engine: Engine, features: seq<Labeled>, lab: Label, g: Geom)
    requires g in Members(engine, features, lab)
    ensures Labeled(lab, g) in features && IsValidGeometry(engine, g)
  {
    BucketFrom(features, Kept(engine), LabelOf, GeomOf, lab, g);
    var i :| 0 <= i < |features| && Kept(engine)(features[i]) && LabelOf(features[i]) == lab && GeomOf(features[i]) == g;
    assert features[i] == Labeled(lab, g);
  }

  /** One union attempt for a group: a single geometry stands for itself, two are
      unioned pairwise, more are built into a collection and unioned; an empty group
      raises IllegalArgumentException, which is caught like a failed union. */
  function Unioned(engine: Engine, geoms: seq<Geom>): Attempt<Geom>
  {
    if |geoms| == 0 then Failed
    else if |geoms| == 1 then Done(geoms[0])
    else if |geoms| == 2 then engine.union(geoms[0], geoms[1])
    else engine.unionAll(geoms)
  }

  /** Each geometry of a group on its own under the group's label. */
  function Separate(lab: Label, geoms: seq<Geom>): (r: seq<Labeled>)
    ensures |r| == |geoms|
    ensures forall k :: 0 <= k < |r| ==> r[k] == Labeled(lab, geoms[k])
  {
    seq(|geoms|, k requires 0 <= k < |geoms| => Labeled(lab, geoms[k]))
  }

  /** What one group adds to the result: nothing for the null label; the union when
      it succeeds; otherwise each geometry separately. */
  function GroupOutput(engine: Engine, lab: Label, geoms: seq<Geom>): (r: seq<Labeled>)
    ensures forall x :: x in r ==> x.lab == lab && lab.Some?
    ensures lab.None? || |geoms| == 0 ==> r == []
    ensures lab.Some? && |geoms| > 0 ==> |r| > 0
    ensures lab.Some? && |geoms| == 1 ==> r == [Labeled(lab, geoms[0])]
  {
    if lab.None? then []
    else
      match Unioned(engine, geoms)
      case Done(u) => [Labeled(lab, u)]
      case Failed => Separate(lab, geoms)
  }

  /** The result for the groups `labs`, taken in that order. */
  function Outputs(engine: Engine, features: seq<Labeled>, labs: seq<Label>): seq<Labeled>
  {
    if |labs| == 0 then []
    else
      Outputs(engine, features, labs[..|labs| - 1])
        + GroupOutput(engine, labs[|labs| - 1], Members(engine, features, labs[|labs| - 1]))
  }

  /** What `unionByLabel` returns, when the HashMap yields its keys in the order `ord`
      makes of them. */
  function UnionedByLabel(engine: Engine, ord: Order<Label>, features: seq<Labeled>): seq<Labeled>
  {
    Outputs(engine, features, Arrange(ord, GroupKeys(engine, features)))
  }

  /** The fallback loop of `unionByLabel`: each geometry added on its own. */
  method AddSeparately(acc: seq<Labeled>, lab: Label, geoms: seq<Geom>) returns (r: seq<Labeled>)
    ensures r == acc + Separate(lab, geoms)
  {
    r := acc;
    for k := 0 to |geoms|
      invariant r == acc + Separate(lab, geoms[..k])
    {
      r := r + [Labeled(lab, geoms[k])];
    }
    assert geoms[..|geoms|] == geoms;
  }

  /** `unionByLabel`: group the valid geometries by label, then union each non-null
      label's group, falling back to its separate geometries when the union fails. */
  method UnionByLabel(engine: Engine, ord: Order<Label>, features: seq<Labeled>) returns (r: seq<Labeled>)
    ensures r == UnionedByLabel(engine, ord, features)
  {
    var keys, groups := GroupBy(features, Kept(engine), LabelOf, GeomOf);
    var ordered := Arrange(ord, keys);
    r := [];
    for j := 0 to |ordered|
      invariant r == Outputs(engine, features, ordered[..j])
    {
      var lab := ordered[j];
      ArrangeIndex(ord, keys, j);
      var geoms := groups[lab];
      OutputsStep(engine, features, ordered, j);
      if lab.Some? {
        match Unioned(engine, geoms)
        case Done(u) =>
          r := r + [Labeled(lab, u)];
        case Failed =>
          r := AddSeparately(r, lab, geoms);
      }
    }
    assert ordered[..|ordered|] == ordered;
  }

  lemma OutputsStep(engine: Engine, features: seq<Labeled>, labs: seq<Label>, j: nat)
    requires j < |labs|
    ensures Outputs(engine, features, labs[..j + 1])
      == Outputs(engine, features, labs[..j]) + GroupOutput(engine, labs[j], Members(engine, features, labs[j]))
  {
    assert labs[..j + 1][..j] == labs[..j];
  }

  /** The items of `items` labelled `lab`, in order. */
  function WithLabel(items: seq<Labeled>, lab: Label): seq<Labeled>
  {
    if |items| == 0 then []
    else WithLabel(items[..|items| - 1], lab) + (if items[|items| - 1].lab == lab then [items[|items| - 1]] else [])
  }

  lemma {:induction false} WithLabelAppend(a: seq<Labeled>, b: seq<Labeled>, lab: Label)
    ensures WithLabel(a + b, lab) == WithLabel(a, lab) + WithLabel(b, lab)
    decreases |b|
  {
    if |b| > 0 {
      var init := b[..|b| - 1];
      assert (a + b)[..|a + b| - 1] == a + init;
      WithLabelAppend(a, init, lab);
    } else {
      assert a + b == a;
    }
  }

  lemma {:induction false} WithLabelUniform(items: seq<Labeled>, l: Label, lab: Label)
    requires forall x :: x in items ==> x.lab == l
    ensures WithLabel(items, lab) == if l == lab then items else []
    decreases |items|
  {
    if |items| > 0 {
      var init := items[..|items| - 1];
      assert forall x :: x in init ==> x in items;
      WithLabelUniform(init, l, lab);
      assert items == init + [items[|items| - 1]];
    }
  }

  lemma {:induction false} OutputsWithLabel(engine: Engine, features: seq<Labeled>, labs: seq<Label>, lab: Label)
    requires Distinct(labs)
    ensures WithLabel(Outputs(engine, features, labs), lab)
      == if lab in labs then GroupOutput(engine, lab, Members(engine, features, lab)) else []
    decreases |labs|
  {
    if |labs| > 0 {
      var init := labs[..|labs| - 1];
      var l := labs[|labs| - 1];
      DistinctLast(labs);
      OutputsWithLabel(engine, features, init, lab);
      var prev := Outputs(engine, features, init);
      var group := GroupOutput(engine, l, Members(engine, features, l));
      assert Outputs(engine, features, labs) == prev + group;
      WithLabelAppend(prev, group, lab);
      WithLabelUniform(group, l, lab);
    }
  }

  /** Whatever the iteration order, the part of the result under each label is
      exactly what that label's group yields on its own: the union of its valid
      geometries, their separate copies when the union fails, and nothing for the
      null label or a label with no valid geometry. */
  lemma UnionByLabelPerLabel(engine: Engine, ord: Order<Label>, features: seq<Labeled>, lab: Label)
    ensures WithLabel(UnionedByLabel(engine, ord, features), lab)
      == GroupOutput(engine, lab, Members(engine, features, lab))
  {
    var keys := GroupKeys(engine, features);
    KeysDistinct(features, Kept(engine), LabelOf);
    ArrangeDistinct(ord, keys);
    OutputsWithLabel(engine, features, Arrange(ord, keys), lab);
    GroupKeysMembers(engine, features, lab);
  }

  /** Every label in the result is non-null and is the label of a valid input
      geometry. */
  lemma UnionByLabelLabels(engine: Engine, ord: Order<Label>, features: seq<Labeled>, x: Labeled)
    requires x in UnionedByLabel(engine, ord, features)
    ensures x.lab.Some?
    ensures exists g :: Labeled(x.lab, g) in features && IsValidGeometry(engine, g)
  {
    var keys := GroupKeys(engine, features);
    KeysDistinct(features, Kept(engine), LabelOf);
    ArrangeDistinct(ord, keys);
    OutputsLabels(engine, features, Arrange(ord, keys), x);
    var m := Members(engine, features, x.lab);
    var g := m[0];
    MembersFromInput(engine, features, x.lab, g);
  }

  lemma {:induction false} OutputsLabels(engine: Engine, features: seq<Labeled>, labs: seq<Label>, x: Labeled)
    requires x in Outputs(engine, features, labs)
    ensures x.lab.Some? && |Members(engine, features, x.lab)| > 0
    decreases |labs|
  {
    var init := labs[..|labs| - 1];
    var l := labs[|labs| - 1];
    if x in Outputs(engine, features, init) {
      OutputsLabels(engine, features, init, x);
    } else {
      assert x in GroupOutput(engine, l, Members(engine, features, l));
    }
  }
}
