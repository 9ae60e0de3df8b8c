/** Feature entries: a labelled geometry placed at a cell of the index, and the factory
    that builds them from shapefile features. A label is any attribute value, and Java
    lets it be null, so it is an `Option`. */
module Features {
  import opened Common
  import opened Geometry
  import opened CellReference
  import opened CellLocations

  /** A label value; `None` is Java's null. */
  type Label = Option<string>

  /** `Map.Entry<String, Object>`: the label attribute's name and the label. */
  datatype LabelEntry = LabelEntry(key: string, value: Label)

  /** A shapefile feature as the core reads it: its default geometry and its
      attributes; an attribute absent from the map reads as null. */
  datatype SimpleFeature = SimpleFeature(geometry: Geom, attributes: map<string, string>)
  {
    function GetAttribute(name: string): Option<string> {
      if name in attributes then Some(attributes[name]) else None
    }
  }

  /** `FeatureEntry`: an immutable labelled geometry at a cell. */
  datatype FeatureEntry = FeatureEntry(location: CellLocation, labelEntry: LabelEntry, isWeak: bool, geometry: Geom)
  {
    /** `sibling`: the same cell and label attribute, with a new label, weak flag and
        geometry. */
    function Sibling(lab: Label, weak: bool, geom: Geom): (r: FeatureEntry)
      ensures r.location == location && r.labelEntry.key == labelEntry.key
      ensures r.GetLabel() == lab && r.IsWeakLabel() == weak && r.geometry == geom
    {
      FeatureEntry(location, LabelEntry(labelEntry.key, lab), weak, geom)
    }

    /** `getAttribute`: the label under the label attribute's name, else the serialized
        location under the reference's attribute name, else null. */
    function GetAttribute(name: string): (r: Option<string>)
      ensures name == labelEntry.key ==> r == labelEntry.value
      ensures name != labelEntry.key && name == AttributeNameOf(location.reference.levelSizes) ==>
        r == Some(Serialized(location.indices))
      ensures name != labelEntry.key && name != AttributeNameOf(location.reference.levelSizes) ==> r == None
    {
      if name == labelEntry.key then labelEntry.value
      else if name == AttributeNameOf(location.reference.levelSizes) then Some(Serialized(location.indices))
      else None
    }

    function GetLabel(): Label {
      labelEntry.value
    }

    predicate IsWeakLabel() {
      isWeak
    }

    /** The attributes this entry is written out with: its label (when not null) and its
        location, as the shapefile writer asks `getAttribute` for each schema name. */
    function Written(): SimpleFeature {
      var name := AttributeNameOf(location.reference.levelSizes);
      var located := map[name := Serialized(location.indices)];
      SimpleFeature(geometry, if labelEntry.value.Some? then located[labelEntry.key := labelEntry.value.value] else located)
    }
  }

  /** `FeatureEntryFactory`: builds entries under one label attribute and reference. */
  datatype FeatureEntryFactory = FeatureEntryFactory(reference: CellLocationReference, labelAttribute: string)
  {
    /** The root location every new entry starts at. */
    function InitialLocation(): CellLocation {
      Root(reference)
    }

    /** `labelEntry`: the factory's label attribute paired with `label`. */
    function MakeLabelEntry(lab: Label): (r: LabelEntry)
      ensures r.key == labelAttribute && r.value == lab
    {
      LabelEntry(labelAttribute, lab)
    }

    /** `featureEntry(label, geometry)`: a non-weak entry at the root. */
    function Entry(lab: Label, geom: Geom): (r: FeatureEntry)
      ensures r == WeakEntry(lab, false, geom)
      ensures r.location.Level() == 0 && !r.IsWeakLabel()
    {
      FeatureEntry(InitialLocation(), MakeLabelEntry(lab), false, geom)
    }

    /** `featureEntry(label, isWeakLabel, geometry)`: an entry at the root. */
    function WeakEntry(lab: Label, weak: bool, geom: Geom): (r: FeatureEntry)
      ensures r.location == Root(reference) && r.labelEntry.key == labelAttribute
      ensures r.GetLabel() == lab && r.IsWeakLabel() == weak && r.geometry == geom
    {
      FeatureEntry(InitialLocation(), MakeLabelEntry(lab), weak, geom)
    }

    /** `maybeLocationFromFeature`: the root when the feature has no index attribute,
        else the location that attribute encodes, or the error parsing it raises. */
    function MaybeLocationFromFeature(feature: SimpleFeature): (r: Result<CellLocation>)
      ensures feature.GetAttribute(AttributeNameOf(reference.levelSizes)).None? ==> r == Ok(Root(reference))
      ensures feature.GetAttribute(AttributeNameOf(reference.levelSizes)).Some? ==>
        r == ParseAttributeValue(reference, feature.GetAttribute(AttributeNameOf(reference.levelSizes)).value)
    {
      match feature.GetAttribute(AttributeNameOf(reference.levelSizes))
      case None => Ok(InitialLocation())
      case Some(value) => ParseAttributeValue(reference, value)
    }

    /** `featureEntry(feature)`: a non-weak entry labelled with the feature's label
        attribute, at the location the feature records. */
    function FromFeature(feature: SimpleFeature): (r: Result<FeatureEntry>)
      ensures r.Ok? <==> MaybeLocationFromFeature(feature).Ok?
      ensures r.Ok? ==> !r.value.IsWeakLabel() && r.value.labelEntry == LabelEntry(labelAttribute, feature.GetAttribute(labelAttribute))
      ensures r.Ok? ==> r.value.location == MaybeLocationFromFeature(feature).value && r.value.geometry == feature.geometry
      ensures r.Err? ==> r.error == MaybeLocationFromFeature(feature).error
    {
      match MaybeLocationFromFeature(feature)
      case Err(e) => Err(e)
      case Ok(location) => Ok(FeatureEntry(location, LabelEntry(labelAttribute, feature.GetAttribute(labelAttribute)), false, feature.geometry))
    }

    /** `featureEntries`: one entry per feature, in order; the first failure escapes. */
    method FeatureEntries(features: seq<SimpleFeature>) returns (r: Result<seq<FeatureEntry>>)
      ensures r == AllEntries(features)
    {
      var entries: seq<FeatureEntry> := [];
      for idx := 0 to |features|
        invariant AllEntries(features[..idx]) == Ok(entries)
      {
        var entry := FromFeature(features[idx]);
        assert features[..idx + 1][..idx] == features[..idx];
        if entry.Err? {
          FirstEntryError(features, idx);
          return Err(entry.error);
        }
        entries := entries + [entry.value];
      }
      assert features[..|features|] == features;
      return Ok(entries);
    }

    /** What `featureEntries` returns: each feature converted in order. */
    function AllEntries(features: seq<SimpleFeature>): Result<seq<FeatureEntry>> {
      if |features| == 0 then Ok([])
      else
        match AllEntries(features[..|features| - 1])
        case Err(e) => Err(e)
        case Ok(init) =>
          match FromFeature(features[|features| - 1])
          case Err(e) => Err(e)
          case Ok(entry) => Ok(init + [entry])
    }

    lemma {:induction false} FirstEntryError(features: seq<SimpleFeature>, idx: nat)
      requires idx < |features| && AllEntries(features[..idx]).Ok? && FromFeature(features[idx]).Err?
      ensures AllEntries(features) == Err(FromFeature(features[idx]).error)
      decreases |features|
    {
      if |features| > idx + 1 {
        var init := features[..|features| - 1];
        assert init[..idx] == features[..idx] && init[idx] == features[idx];
        FirstEntryError(init, idx);
      } else {
        assert features[..idx] == features[..|features| - 1];
      }
    }

    /** `featureEntries` succeeds exactly when every feature converts. */
    lemma {:induction false} AllEntriesOk(features: seq<SimpleFeature>)
      ensures AllEntries(features).Ok? <==> forall k :: 0 <= k < |features| ==> FromFeature(features[k]).Ok?
      decreases |features|
    {
      if |features| > 0 {
        var init := features[..|features| - 1];
        AllEntriesOk(init);
        assert AllEntries(features).Ok? <==> AllEntries(init).Ok? && FromFeature(features[|features| - 1]).Ok?;
        assert forall k :: 0 <= k < |init| ==> init[k] == features[k];
      }
    }

    /** `featureEntries` keeps the features' order: entry `k` is feature `k` converted. */
    lemma {:induction false} AllEntriesInOrder(features: seq<SimpleFeature>)
      requires AllEntries(features).Ok?
      ensures |AllEntries(features).value| == |features|
      ensures forall k :: 0 <= k < |features| ==>
        FromFeature(features[k]).Ok? && AllEntries(features).value[k] == FromFeature(features[k]).value
      decreases |features|
    {
      AllEntriesOk(features);
      if |features| > 0 {
        var init := features[..|features| - 1];
        var last := features[|features| - 1];
        assert AllEntries(init).Ok? && FromFeature(last).Ok?;
        AllEntriesInOrder(init);
        var v := AllEntries(features).value;
        assert v == AllEntries(init).value + [FromFeature(last).value];
        forall k | 0 <= k < |features|
          ensures FromFeature(features[k]).Ok? && v[k] == FromFeature(features[k]).value
        {
          if k < |init| {
            assert init[k] == features[k];
          }
        }
      }
    }
  }

  /** Reading back a written entry: the factory of the entry's own label attribute and
      reference rebuilds the entry, made non-weak, from the attributes `getAttribute`
      yields. A root entry cannot be read back, since "" is not a valid location. */
  lemma WrittenRoundTrip(entry: FeatureEntry)
    requires entry.location.Valid() && entry.location.InRange() && entry.location.Level() >= 1
    requires entry.labelEntry.key != AttributeNameOf(entry.location.reference.levelSizes)
    ensures var factory := FeatureEntryFactory(entry.location.reference, entry.labelEntry.key);
      factory.FromFeature(entry.Written()) == Ok(FeatureEntry(entry.location, entry.labelEntry, false, entry.geometry))
  {
    var loc := entry.location;
    var factory := FeatureEntryFactory(loc.reference, entry.labelEntry.key);
    var written := entry.Written();
    var name := AttributeNameOf(loc.reference.levelSizes);
    assert written.GetAttribute(name) == Some(Serialized(loc.indices));
    assert written.GetAttribute(entry.labelEntry.key) == entry.labelEntry.value;
    AttributeValueRoundTrip(loc);
    assert factory.MaybeLocationFromFeature(written) == Ok(loc);
  }

  /** A written feature carries exactly what `getAttribute` answers for the label
      attribute and the index attribute. */
  lemma WrittenAttributes(entry: FeatureEntry)
    requires entry.labelEntry.key != AttributeNameOf(entry.location.reference.levelSizes)
    ensures var written := entry.Written();
      written.GetAttribute(entry.labelEntry.key) == entry.GetAttribute(entry.labelEntry.key) &&
      written.GetAttribute(AttributeNameOf(entry.location.reference.levelSizes))
        == entry.GetAttribute(AttributeNameOf(entry.location.reference.levelSizes))
  {
  }
}
