/** `SimplifiedShapefileGeo`: the index a simplified shapefile is loaded into, and the
    point lookup over it. Each cell of the index holds either the feature entries
    stored at that cell, asked in order whether they cover the point, or one value
    answered for every point of the cell. */
module ShapefileGeo {
  import opened Common
  import opened Geometry
  import opened CellReference
  import opened CellLocations
  import opened Features
  import opened Grouping

  /** What a cell of the index answers with. */
  datatype CellValues =
    | Shapes(entries: seq<FeatureEntry>)   // ShapeIndexedValues
    | Single(value: Label)                 // SingleIndexedValue

  /** `SingleIndexedValue.NO_VALUE`: the value of a cell with no entries. */
  const NoValue: CellValues := Single(None)

  /** The label of the first entry, in insertion order, whose geometry covers `c`. */
  function FirstCovering(engine: Engine, entries: seq<FeatureEntry>, c: Coordinate): (r: Label)
    ensures r != None ==> exists i :: 0 <= i < |entries| && engine.covers(entries[i].geometry, c) && r == entries[i].GetLabel()
    decreases |entries|
  {
    if |entries| == 0 then None
    else if engine.covers(entries[0].geometry, c) then entries[0].GetLabel()
    else
      var r := FirstCovering(engine, entries[1..], c);
      assert r != None ==> exists i :: 0 <= i < |entries| - 1 && engine.covers(entries[1..][i].geometry, c) && r == entries[1..][i].GetLabel();
      r
  }

  /** The answer is the label of the first covering entry: entries before it that do
      not cover the point are passed over, entries after it are never looked at. */
  lemma {:induction false} FirstCoveringIs(engine: Engine, entries: seq<FeatureEntry>, c: Coordinate, i: nat)
    requires i < |entries| && engine.covers(entries[i].geometry, c)
    requires forall j :: 0 <= j < i ==> !engine.covers(entries[j].geometry, c)
    ensures FirstCovering(engine, entries, c) == entries[i].GetLabel()
    decreases i
  {
    if i > 0 {
      assert !engine.covers(entries[0].geometry, c);
      FirstCoveringIs(engine, entries[1..], c, i - 1);
    }
  }

  /** With no covering entry the answer is null. */
  lemma {:induction false} FirstCoveringNone(engine: Engine, entries: seq<FeatureEntry>, c: Coordinate)
    requires forall j :: 0 <= j < |entries| ==> !engine.covers(entries[j].geometry, c)
    ensures FirstCovering(engine, entries, c) == None
    decreases |entries|
  {
    if |entries| > 0 {
      assert !engine.covers(entries[0].geometry, c);
      FirstCoveringNone(engine, entries[1..], c);
    }
  }

  /** The loop of `ShapeIndexedValues.valueForCoordinate`. */
  method CoveringLabel(engine: Engine, entries: seq<FeatureEntry>, c: Coordinate) returns (r: Label)
    ensures r == FirstCovering(engine, entries, c)
  {
    for k := 0 to |entries|
      invariant FirstCovering(engine, entries[k..], c) == FirstCovering(engine, entries, c)
    {
      assert entries[k..][1..] == entries[k + 1..];
      if engine.covers(entries[k].geometry, c) {
        return entries[k].GetLabel();
      }
    }
    return None;
  }

  /** `valueForCoordinate` of a cell. */
  function CellValue(engine: Engine, v: CellValues, c: Coordinate): Label {
    match v
    case Shapes(entries) => FirstCovering(engine, entries, c)
    case Single(value) => value
  }

  /** `valueForCoordinate` of a cell, as the lookup runs it. */
  method CellValueAt(engine: Engine, v: CellValues, c: Coordinate) returns (r: Label)
    ensures r == CellValue(engine, v, c)
  {
    match v
    case Shapes(entries) =>
      r := CoveringLabel(engine, entries, c);
    case Single(value) =>
      r := value;
  }

  /** What `simplified` makes of a cell holding `entries`: no value for an empty
      cell, the label of the only entry for a cell of one, the cell itself otherwise. */
  function SimplifiedOf(entries: seq<FeatureEntry>): CellValues {
    if |entries| == 0 then NoValue
    else if |entries| == 1 then Single(entries[0].GetLabel())
    else Shapes(entries)
  }

  /** Simplifying a cell changes its answers only for a cell of one entry, which then
      answers that entry's label for every point of the cell, covered or not; where
      the entry covers the point the two answers agree. */
  lemma SimplifiedAnswers(engine: Engine, entries: seq<FeatureEntry>, c: Coordinate)
    ensures |entries| != 1 ==> CellValue(engine, SimplifiedOf(entries), c) == CellValue(engine, Shapes(entries), c)
    ensures |entries| == 1 ==> CellValue(engine, SimplifiedOf(entries), c) == entries[0].GetLabel()
    ensures |entries| == 1 && engine.covers(entries[0].geometry, c) ==>
      CellValue(engine, SimplifiedOf(entries), c) == CellValue(engine, Shapes(entries), c)
    ensures |entries| == 1 && !engine.covers(entries[0].geometry, c) ==> CellValue(engine, Shapes(entries), c) == None
  {
    if |entries| == 1 && !engine.covers(entries[0].geometry, c) {
      FirstCoveringNone(engine, entries, c);
    }
  }

  /** `ShapeIndexedValues`: the entries of one cell, gathered while loading. */
  class ShapeIndexedValues {
    var featureEntries: seq<FeatureEntry>

    constructor()
      ensures featureEntries == []
    {
      featureEntries := [];
    }

    /** `add`: append an entry. */
    method Add(featureEntry: FeatureEntry)
      modifies this
      ensures featureEntries == old(featureEntries) + [featureEntry]
    {
      featureEntries := featureEntries + [featureEntry];
    }

    /** `simplified`. */
    function Simplified(): CellValues
      reads this
    {
      SimplifiedOf(featureEntries)
    }

    /** `valueForCoordinate`: the label of the first entry covering `c`, else null. */
    method ValueForCoordinate(engine: Engine, c: Coordinate) returns (r: Label)
      ensures r == FirstCovering(engine, featureEntries, c)
    {
      r := CoveringLabel(engine, featureEntries, c);
    }
  }

  /** `IndexedShapefile`: the reference of the index and the contents of every cell
      that holds features. */
  datatype IndexedShapefile = IndexedShapefile(reference: CellLocationReference, cells: map<CellLocation, CellValues>)
  {
    /** `valueForCoordinate`: from the deepest cell holding `c`, walk toward the root
        and answer with the first cell present in the map. */
    method ValueForCoordinate(engine: Engine, c: Coordinate) returns (r: Label)
      requires reference.HasNonZeroSizes()
      ensures r == ValueAlong(engine, cells, Deepest(reference, c), c)
    {
      var start := FromCoordinate(reference, c);
      var location: Option<CellLocation> := Some(start);
      while location.Some?
        invariant ValueAlong(engine, cells, Deepest(reference, c), c) == ValueFrom(engine, cells, location, c)
        decreases if location.Some? then |location.value.indices| + 1 else 0
      {
        var here := location.value;
        if here in cells {
          r := CellValueAt(engine, cells[here], c);
          return;
        }
        location := here.Parent();
      }
      return None;
    }
  }

  /** The deepest cell holding `c`: what `fromCoordinate` returns. */
  function Deepest(reference: CellLocationReference, c: Coordinate): CellLocation
    requires reference.HasNonZeroSizes()
  {
    CellLocation(reference, Locate(reference, c, reference.NumLevels()).indices)
  }

  /** The answer of the walk from `location` toward the root. */
  function ValueAlong(engine: Engine, cells: map<CellLocation, CellValues>, location: CellLocation, c: Coordinate): Label
    decreases |location.indices|
  {
    if location in cells then CellValue(engine, cells[location], c)
    else
      match location.Parent()
      case None => None
      case Some(p) => ValueAlong(engine, cells, p, c)
  }

  /** The walk from a location that may be null. */
  function ValueFrom(engine: Engine, cells: map<CellLocation, CellValues>, location: Option<CellLocation>, c: Coordinate): Label {
    match location
    case None => None
    case Some(l) => ValueAlong(engine, cells, l, c)
  }

  /** The `k`-th location on the walk from `location`: `k` pairs fewer. */
  function Up(location: CellLocation, k: nat): CellLocation
    requires 2 * k <= |location.indices|
  {
    CellLocation(location.reference, location.indices[..|location.indices| - 2 * k])
  }

  /** The walk from a location of whole pairs ends at the root. */
  lemma UpToRoot(location: CellLocation)
    requires |location.indices| % 2 == 0
    ensures Up(location, location.Level()) == Root(location.reference)
  {
  }

  /** The lookup answers with the first location on the walk that the map holds. */
  lemma {:induction false} ValueAlongFirst(engine: Engine, cells: map<CellLocation, CellValues>, location: CellLocation, c: Coordinate, k: nat)
    requires 2 * k <= |location.indices| && Up(location, k) in cells
    requires forall j :: 0 <= j < k ==> Up(location, j) !in cells
    ensures ValueAlong(engine, cells, location, c) == CellValue(engine, cells[Up(location, k)], c)
    decreases k
  {
    assert location.indices[..|location.indices|] == location.indices;
    assert Up(location, 0) == location;
    if k > 0 {
      var p := location.Parent().value;
      assert location !in cells;
      forall j | 0 <= j <= k - 1
        ensures Up(p, j) == Up(location, j + 1)
      {
        assert p.indices[..|p.indices| - 2 * j] == location.indices[..|location.indices| - 2 * (j + 1)];
      }
      ValueAlongFirst(engine, cells, p, c, k - 1);
    }
  }

  /** When no location on the walk, the root included, is in the map, the lookup
      answers null. */
  lemma {:induction false} ValueAlongNone(engine: Engine, cells: map<CellLocation, CellValues>, location: CellLocation, c: Coordinate)
    requires forall j :: 0 <= 2 * j <= |location.indices| ==> Up(location, j) !in cells
    ensures ValueAlong(engine, cells, location, c) == None
    decreases |location.indices|
  {
    assert location.indices[..|location.indices|] == location.indices;
    assert Up(location, 0) == location;
    if |location.indices| >= 2 {
      var p := location.Parent().value;
      forall j | 0 <= 2 * j <= |p.indices|
        ensures Up(p, j) !in cells
      {
        assert p.indices[..|p.indices| - 2 * j] == location.indices[..|location.indices| - 2 * (j + 1)];
        assert Up(p, j) == Up(location, j + 1);
      }
      ValueAlongNone(engine, cells, p, c);
    }
  }

  // ---------------------------------------------------------------------------
  // load

  /** The reference the schema scan ends with, starting from `found`: every
      attribute whose name starts with "GI" is parsed in turn by `parse`, the last one
      wins, and the first that fails to parse raises. */
  function ScanReference<R>(parse: string -> Result<R>, names: seq<string>, found: Option<R>): Result<Option<R>>
    decreases |names|
  {
    if |names| == 0 then Ok(found)
    else if Indexing(names[0]) then
      match parse(names[0])
      case Err(e) => Err(e)
      case Ok(r) => ScanReference(parse, names[1..], Some(r))
    else ScanReference(parse, names[1..], found)
  }

  /** An indexing attribute: its name starts with the "GI" prefix. */
  predicate Indexing(name: string) {
    AttributePrefix <= name
  }

  /** `fromAttributeName` for the bounds of the file. */
  function NameParser(bounds: Envelope): string -> Result<CellLocationReference> {
    (name: string) => ParseAttributeName(bounds, name)
  }

  /** A schema without any "GI" attribute leaves the reference as it was. */
  lemma {:induction false} ScanNone<R>(parse: string -> Result<R>, names: seq<string>, found: Option<R>)
    requires forall j :: 0 <= j < |names| ==> !Indexing(names[j])
    ensures ScanReference(parse, names, found) == Ok(found)
    decreases |names|
  {
    if |names| > 0 {
      assert !Indexing(names[0]);
      ScanNone(parse, names[1..], found);
    }
  }

  /** When every "GI" attribute parses, the reference is the one the last of them
      names. */
  lemma {:induction false} ScanLast<R>(parse: string -> Result<R>, names: seq<string>, found: Option<R>, i: nat)
    requires i < |names| && Indexing(names[i])
    requires forall j :: 0 <= j < |names| && Indexing(names[j]) ==> parse(names[j]).Ok?
    requires forall j :: i < j < |names| ==> !Indexing(names[j])
    ensures ScanReference(parse, names, found) == Ok(Some(parse(names[i]).value))
    decreases |names|
  {
    var rest := names[1..];
    if i == 0 {
      assert parse(names[0]).Ok?;
      ScanNone(parse, rest, Some(parse(names[0]).value));
    } else {
      var next := if Indexing(names[0]) then Some(parse(names[0]).value) else found;
      assert Indexing(names[0]) ==> parse(names[0]).Ok?;
      assert ScanReference(parse, names, found) == ScanReference(parse, rest, next);
      ScanLast(parse, rest, next, i - 1);
    }
  }

  /** The first "GI" attribute that fails to parse makes the scan raise its error. */
  lemma {:induction false} ScanFails<R>(parse: string -> Result<R>, names: seq<string>, found: Option<R>, i: nat)
    requires i < |names| && Indexing(names[i]) && parse(names[i]).Err?
    requires forall j :: 0 <= j < i && Indexing(names[j]) ==> parse(names[j]).Ok?
    ensures ScanReference(parse, names, found) == Err(parse(names[i]).error)
    decreases i
  {
    if i > 0 {
      var rest := names[1..];
      var next := if Indexing(names[0]) then Some(parse(names[0]).value) else found;
      assert Indexing(names[0]) ==> parse(names[0]).Ok?;
      assert ScanReference(parse, names, found) == ScanReference(parse, rest, next);
      ScanFails(parse, rest, next, i - 1);
    }
  }

  function Each(): FeatureEntry -> bool {
    (e: FeatureEntry) => true
  }

  function LocationOf(e: FeatureEntry): CellLocation {
    e.location
  }

  function Itself(e: FeatureEntry): FeatureEntry {
    e
  }

  /** The entries stored at `location`, in the order the features were read. */
  function AtLocation(entries: seq<FeatureEntry>, location: CellLocation): seq<FeatureEntry> {
    Bucket(entries, Each(), LocationOf, Itself, location)
  }

  /** The cells `load` builds from the entries: one per location holding an entry,
      simplified or not. */
  function CellsOf(entries: seq<FeatureEntry>, simplify: bool): map<CellLocation, CellValues> {
    map location | location in Keys(entries, Each(), LocationOf) ::
      if simplify then SimplifiedOf(AtLocation(entries, location)) else Shapes(AtLocation(entries, location))
  }

  /** What `load` returns or raises for a schema with attributes `names`, data within
      `bounds` and the features read from the file. */
  function Loaded(names: seq<string>, bounds: Envelope, features: seq<SimpleFeature>, labelAttribute: string, simplify: bool): Result<IndexedShapefile>
  {
    if labelAttribute !in names then Err(MissingLabelAttribute)
    else
      match ScanReference(NameParser(bounds), names, None)
      case Err(e) => Err(e)
      case Ok(None) => Err(MissingIndexAttribute)
      case Ok(Some(reference)) =>
        match FeatureEntryFactory(reference, labelAttribute).AllEntries(features)
        case Err(e) => Err(e)
        case Ok(entries) => Ok(IndexedShapefile(reference, CellsOf(entries, simplify)))
  }

  /** The cell map holds, for each location of `entries`, its own
      `ShapeIndexedValues` with the entries stored at that location, in order. */
  ghost predicate Grouped(cellMap: map<CellLocation, ShapeIndexedValues>, entries: seq<FeatureEntry>)
    reads cellMap.Values
  {
    (forall l :: l in cellMap <==> l in Keys(entries, Each(), LocationOf))
    && (forall l, m :: l in cellMap && m in cellMap && l != m ==> cellMap[l] != cellMap[m])
    && (forall l :: l in cellMap ==> cellMap[l].featureEntries == AtLocation(entries, l))
  }

  /** One step of the loading loop: create the cell of the entry's location if it is
      missing, then add the entry to it. */
  method Insert(cellMap: map<CellLocation, ShapeIndexedValues>, ghost entries: seq<FeatureEntry>, e: FeatureEntry)
    returns (updated: map<CellLocation, ShapeIndexedValues>)
    requires Grouped(cellMap, entries)
    modifies cellMap.Values
    ensures Grouped(updated, entries + [e])
    ensures forall v :: v in updated.Values ==> v in cellMap.Values || fresh(v)
  {
    var loc := e.location;
    var grown := entries + [e];
    GroupStep(grown, Each(), LocationOf, Itself, |entries|);
    assert grown[..|entries|] == entries && grown[..|entries| + 1] == grown;
    updated := cellMap;
    if loc !in updated {
      var created := new ShapeIndexedValues();
      updated := updated[loc := created];
      KeysBucket(entries, Each(), LocationOf, Itself, loc);
    }
    var cell := updated[loc];
    cell.Add(e);
    forall l | l in updated
      ensures updated[l].featureEntries == AtLocation(grown, l)
    {
      if l != loc {
        assert updated[l] != cell;
      }
    }
  }

  /** The loading loop: one `ShapeIndexedValues` per location, fresh and distinct,
      each gathering the entries stored at its location in order; the first feature
      that does not convert raises. */
  method FillCells(factory: FeatureEntryFactory, features: seq<SimpleFeature>)
    returns (r: Result<map<CellLocation, ShapeIndexedValues>>)
    ensures r.Err? <==> factory.AllEntries(features).Err?
    ensures r.Err? ==> r.error == factory.AllEntries(features).error
    ensures r.Ok? ==> Grouped(r.value, factory.AllEntries(features).value)
    ensures r.Ok? ==> forall v :: v in r.value.Values ==> fresh(v)
  {
    var cellMap: map<CellLocation, ShapeIndexedValues> := map[];
    ghost var entries: seq<FeatureEntry> := [];
    for idx := 0 to |features|
      invariant factory.AllEntries(features[..idx]) == Ok(entries)
      invariant Grouped(cellMap, entries)
      invariant forall v :: v in cellMap.Values ==> fresh(v)
    {
      var featureEntry := factory.FromFeature(features[idx]);
      assert features[..idx + 1][..idx] == features[..idx];
      if featureEntry.Err? {
        factory.FirstEntryError(features, idx);
        return Err(featureEntry.error);
      }
      cellMap := Insert(cellMap, entries, featureEntry.value);
      entries := entries + [featureEntry.value];
    }
    assert features[..|features|] == features;
    return Ok(cellMap);
  }

  /** The schema loop of `load`: parse every "GI" attribute, keeping the last. */
  method IndexReference(bounds: Envelope, names: seq<string>) returns (r: Result<Option<CellLocationReference>>)
    ensures r == ScanReference(NameParser(bounds), names, None)
  {
    var reference: Option<CellLocationReference> := None;
    for i := 0 to |names|
      invariant ScanReference(NameParser(bounds), names, None) == ScanReference(NameParser(bounds), names[i..], reference)
    {
      assert names[i..][1..] == names[i + 1..];
      if AttributePrefix <= names[i] {
        var parsed := FromAttributeName(bounds, names[i]);
        if parsed.Err? {
          return Err(parsed.error);
        }
        reference := Some(parsed.value);
      }
    }
    assert names[|names|..] == [];
    return Ok(reference);
  }

  /** The cells handed to `IndexedShapefile`: each `ShapeIndexedValues` simplified,
      or kept as it is. */
  method CellContents(cellMap: map<CellLocation, ShapeIndexedValues>, ghost entries: seq<FeatureEntry>, simplify: bool)
    returns (cells: map<CellLocation, CellValues>)
    requires Grouped(cellMap, entries)
    ensures cells == CellsOf(entries, simplify)
  {
    if simplify {
      cells := map l | l in cellMap :: cellMap[l].Simplified();
    } else {
      cells := map l | l in cellMap :: Shapes(cellMap[l].featureEntries);
    }
  }

  /** `load` over the schema's attribute names and the features of the file. */
  method Load(names: seq<string>, bounds: Envelope, features: seq<SimpleFeature>, labelAttribute: string, simplifySingleLabelCells: bool)
    returns (r: Result<IndexedShapefile>)
    ensures r == Loaded(names, bounds, features, labelAttribute, simplifySingleLabelCells)
  {
    if labelAttribute !in names {
      return Err(MissingLabelAttribute);
    }
    var reference := IndexReference(bounds, names);
    if reference.Err? {
      return Err(reference.error);
    }
    if reference.value.None? {
      return Err(MissingIndexAttribute);
    }
    var factory := FeatureEntryFactory(reference.value.value, labelAttribute);
    var filled := FillCells(factory, features);
    if filled.Err? {
      return Err(filled.error);
    }
    var cells := CellContents(filled.value, factory.AllEntries(features).value, simplifySingleLabelCells);
    return Ok(IndexedShapefile(reference.value.value, cells));
  }

  /** `load` fails without the label attribute, and, with it, without a "GI"
      attribute. */
  lemma LoadedSchema(names: seq<string>, bounds: Envelope, features: seq<SimpleFeature>, labelAttribute: string, simplify: bool)
    ensures labelAttribute !in names ==> Loaded(names, bounds, features, labelAttribute, simplify) == Err(MissingLabelAttribute)
    ensures labelAttribute in names && (forall j :: 0 <= j < |names| ==> !Indexing(names[j])) ==>
      Loaded(names, bounds, features, labelAttribute, simplify) == Err(MissingIndexAttribute)
  {
    if labelAttribute in names && (forall j :: 0 <= j < |names| ==> !Indexing(names[j])) {
      ScanNone(NameParser(bounds), names, None);
    }
  }

  /** When every "GI" attribute parses, `load` indexes with the reference the last of
      them names. */
  lemma LoadedReference(names: seq<string>, bounds: Envelope, features: seq<SimpleFeature>, labelAttribute: string, simplify: bool, i: nat)
    requires i < |names| && Indexing(names[i])
    requires forall j :: i < j < |names| ==> !Indexing(names[j])
    requires forall j :: 0 <= j < |names| && Indexing(names[j]) ==> ParseAttributeName(bounds, names[j]).Ok?
    requires Loaded(names, bounds, features, labelAttribute, simplify).Ok?
    ensures Loaded(names, bounds, features, labelAttribute, simplify).value.reference == ParseAttributeName(bounds, names[i]).value
  {
    ScanLast(NameParser(bounds), names, None, i);
  }

  /** With the label attribute present, the first "GI" attribute that does not parse
      makes `load` raise that parse error. */
  lemma LoadedIndexError(names: seq<string>, bounds: Envelope, features: seq<SimpleFeature>, labelAttribute: string, simplify: bool, i: nat)
    requires labelAttribute in names
    requires i < |names| && Indexing(names[i]) && ParseAttributeName(bounds, names[i]).Err?
    requires forall j :: 0 <= j < i && Indexing(names[j]) ==> ParseAttributeName(bounds, names[j]).Ok?
    ensures Loaded(names, bounds, features, labelAttribute, simplify) == Err(ParseAttributeName(bounds, names[i]).error)
  {
    ScanFails(NameParser(bounds), names, None, i);
  }

  /** Every entry `load` reads is in the cell at its own location, and a cell holds
      only entries stored at it, in the order they were read. */
  lemma LoadedCells(entries: seq<FeatureEntry>, simplify: bool, i: nat, location: CellLocation)
    requires i < |entries|
    ensures entries[i].location in CellsOf(entries, simplify)
    ensures !simplify ==> entries[i] in CellsOf(entries, simplify)[entries[i].location].entries
    ensures location in CellsOf(entries, simplify) <==> exists j :: 0 <= j < |entries| && entries[j].location == location
    ensures !simplify && location in CellsOf(entries, simplify) ==>
      forall e :: e in CellsOf(entries, simplify)[location].entries ==> e.location == location && e in entries
  {
    var here := entries[i].location;
    KeysCover(entries, Each(), LocationOf, i);
    if !simplify {
      KeysBucket(entries, Each(), LocationOf, Itself, here);
      BucketHolds(entries, i);
    }
    if location in Keys(entries, Each(), LocationOf) {
      KeysFrom(entries, Each(), LocationOf, location);
    }
    if exists j :: 0 <= j < |entries| && entries[j].location == location {
      var j :| 0 <= j < |entries| && entries[j].location == location;
      KeysCover(entries, Each(), LocationOf, j);
    }
    if !simplify && location in CellsOf(entries, simplify) {
      forall e | e in CellsOf(entries, simplify)[location].entries
        ensures e.location == location && e in entries
      {
        BucketFrom(entries, Each(), LocationOf, Itself, location, e);
      }
    }
  }

  lemma {:induction false} BucketHolds(entries: seq<FeatureEntry>, i: nat)
    requires i < |entries|
    ensures entries[i] in AtLocation(entries, entries[i].location)
    decreases |entries|
  {
    var init := entries[..|entries| - 1];
    if i < |init| {
      assert init[i] == entries[i];
      BucketHolds(init, i);
    }
  }
}
