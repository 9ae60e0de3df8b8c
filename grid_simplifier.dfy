/** `LabeledGridSimplifier`: split every feature along the grid of its cell's
    children, round after round down the levels of the reference, and replace a
    cell whose features all share one label by the cell's rectangle. */
module GridSimplifier {
  import opened Common
  import opened Geometry
  import opened CellReference
  import opened CellLocations
  import opened Features
  import opened SimplifierUtils
  import opened Grouping

  /** What the model needs of every entry: a well-formed location whose reference has
      cells of finite size. */
  predicate Sound(e: FeatureEntry) {
    e.location.Valid() && e.location.reference.HasNonZeroSizes()
  }

  predicate AllSound(entries: seq<FeatureEntry>) {
    forall i :: 0 <= i < |entries| ==> Sound(entries[i])
  }

  // ---------------------------------------------------------------------------
  // makeSubFeatures

  /** The rectangle of child indices that may meet the geometry: the child cells its
      bounding box reaches, truncated toward zero and capped at the last child, but
      not raised to the first. */
  datatype Window = Window(xMin: Int32, xMax: Int32, yMin: Int32, yMax: Int32)

  function Min32(a: Int32, b: Int32): Int32 {
    if a <= b then a else b
  }

  /** The window of a geometry whose bounding box is `g`, in a cell with bounds
      `envelope` and `n` children to a side. */
  function WindowOf(g: Envelope, envelope: Envelope, n: Int32): (w: Window)
    requires n != 0
    ensures w.xMax <= n - 1 || n == MinInt32
    ensures w.yMax <= n - 1 || n == MinInt32
  {
    var childWidth := envelope.Width() / n as real;
    var childHeight := envelope.Height() / n as real;
    Window(CastDiv(g.minX - envelope.minX, childWidth),
           Min32(Wrap32(n as int - 1), CastDiv(g.maxX - envelope.minX, childWidth)),
           CastDiv(g.minY - envelope.minY, childHeight),
           Min32(Wrap32(n as int - 1), CastDiv(g.maxY - envelope.minY, childHeight)))
  }

  /** With a branching factor of the smallest `int`, `n - 1` wraps to the largest, so
      the window can end at the last `int`: a box left of a [0,10] x [0,10] cell gives
      the single column x = 2^31 - 1 and no rows. Java's `++` on that column wraps
      around and its loop does not end, while `Grid` stops after the column. */
  lemma WrappedWindow(crs: Crs, piece: (Int32, Int32) -> Attempt<seq<FeatureEntry>>)
    ensures var w := WindowOf(Envelope(-20.0, -10.0, 0.0, 10.0, crs), Envelope(0.0, 10.0, 0.0, 10.0, crs), MinInt32);
      w == Window(MaxInt32, MaxInt32, 0, MinInt32) &&
      Grid(piece, w.xMin, w.xMax as int + 1, w.yMin, w.yMax as int + 1) == Done([])
  {
    var side := 10.0 / MinInt32 as real;
    assert (-20.0 - 0.0) / side == 0x1_0000_0000 as real;
    assert (-10.0 - 0.0) / side == 0x8000_0000 as real;
    assert (10.0 - 0.0) / side == MinInt32 as real;
    assert Wrap32(MinInt32 as int - 1) == MaxInt32;
    assert Column(piece, MaxInt32, 0, MinInt32 as int + 1) == Done([]);
    assert Grid(piece, MaxInt32, MaxInt32, 0, MinInt32 as int + 1) == Done([]);
    var empty: seq<FeatureEntry> := [];
    assert empty + empty == empty;
    assert Grid(piece, MaxInt32, MaxInt32 as int + 1, 0, MinInt32 as int + 1) == Done(empty);
  }

  /** The piece of `entry` in its child cell (x, y): nothing when the cell's rectangle
      does not meet the geometry, else the intersection, as an entry at the child with
      the same label entry and weak flag. */
  function Piece(engine: Engine, entry: FeatureEntry, x: Int32, y: Int32): (r: Attempt<seq<FeatureEntry>>)
    requires Sound(entry) && entry.location.Level() < entry.location.reference.NumLevels()
    ensures r.Done? ==> |r.value| <= 1
  {
    var child := ChildOf(entry.location, x, y);
    var cell := child.EnvelopeGeometry(engine);
    match engine.intersects(cell, entry.geometry)
    case Failed => Failed
    case Done(meets) =>
      if !meets then Done([])
      else
        match engine.intersection(cell, entry.geometry)
        case Failed => Failed
        case Done(g) => Done([FeatureEntry(child, entry.labelEntry, entry.isWeak, g)])
  }

  /** `child(x, y)` of a location above the deepest level. */
  function ChildOf(loc: CellLocation, x: Int32, y: Int32): (child: CellLocation)
    requires loc.Valid() && loc.Level() < loc.reference.NumLevels()
    ensures child.Valid() && child.reference == loc.reference
    ensures loc.Child(x, y) == Ok(child)
  {
    ChildParent(loc, x, y);
    loc.Child(x, y).value
  }

  /** The pieces of one entry, cell by cell. */
  function Pieces(engine: Engine, entry: FeatureEntry): (Int32, Int32) -> Attempt<seq<FeatureEntry>>
    requires Sound(entry) && entry.location.Level() < entry.location.reference.NumLevels()
  {
    (x: Int32, y: Int32) => Piece(engine, entry, x, y)
  }

  /** The pieces of the cells (x, yMin) .. (x, yEnd - 1), in that order; the first
      failure fails them all. */
  function Column(piece: (Int32, Int32) -> Attempt<seq<FeatureEntry>>, x: Int32, yMin: Int32, yEnd: int): Attempt<seq<FeatureEntry>>
    requires yEnd <= MaxInt32 + 1
    decreases yEnd - yMin
  {
    if yEnd <= yMin then Done([])
    else
      match Column(piece, x, yMin, yEnd - 1)
      case Failed => Failed
      case Done(init) =>
        match piece(x, yEnd - 1)
        case Failed => Failed
        case Done(p) => Done(init + p)
  }

  /** The pieces of the columns xMin .. xEnd - 1, in that order. */
  function Grid(piece: (Int32, Int32) -> Attempt<seq<FeatureEntry>>, xMin: Int32, xEnd: int, yMin: Int32, yEnd: int): Attempt<seq<FeatureEntry>>
    requires xEnd <= MaxInt32 + 1 && yEnd <= MaxInt32 + 1
    decreases xEnd - xMin
  {
    if xEnd <= xMin then Done([])
    else
      match Grid(piece, xMin, xEnd - 1, yMin, yEnd)
      case Failed => Failed
      case Done(init) =>
        match Column(piece, xEnd - 1, yMin, yEnd)
        case Failed => Failed
        case Done(c) => Done(init + c)
  }

  /** What `makeSubFeatures` returns: reading the branching factor of a cell at the
      deepest level raises; otherwise the pieces of the window, or the entry itself
      when a geometry operation fails. */
  function SubFeatures(engine: Engine, entry: FeatureEntry): Result<seq<FeatureEntry>>
    requires Sound(entry)
  {
    var location := entry.location;
    match location.reference.GetLevelSize(location.Level())
    case Err(e) => Err(e)
    case Ok(n) =>
      var w := WindowOf(engine.bounds(entry.geometry), location.Extent(), n);
      match Grid(Pieces(engine, entry), w.xMin, w.xMax as int + 1, w.yMin, w.yMax as int + 1)
      case Done(pieces) => Ok(pieces)
      case Failed => Ok([entry])
  }

  /** `makeSubFeatures`: split the entry by the grid of its cell's children. */
  method MakeSubFeatures(engine: Engine, entry: FeatureEntry) returns (r: Result<seq<FeatureEntry>>)
    requires Sound(entry)
    ensures r == SubFeatures(engine, entry)
  {
    var envelope := entry.location.Envelope();
    var numChildCells := entry.location.reference.GetLevelSize(entry.location.Level());
    if numChildCells.Err? {
      return Err(numChildCells.error);
    }
    var n := numChildCells.value;
    var geomEnvelope := engine.bounds(entry.geometry);
    var w := ChildWindow(geomEnvelope, envelope, n);

    var piece := Pieces(engine, entry);
    var pieces := GridPieces(piece, w.xMin, w.xMax, w.yMin, w.yMax);
    assert entry.location.reference.GetLevelSize(entry.location.Level()) == Ok(n);
    SubFeaturesOfGrid(engine, entry, n, envelope, w, piece, pieces);
    if pieces.Failed? {
      return Ok([entry]);
    }
    r := Ok(pieces.value);
  }

  /** The child cells the geometry's bounding box reaches, as `makeSubFeatures`
      computes them. */
  method ChildWindow(geomEnvelope: Envelope, envelope: Envelope, n: Int32) returns (w: Window)
    requires n != 0
    ensures w == WindowOf(geomEnvelope, envelope, n)
  {
    var childWidth := envelope.Width() / n as real;
    var childHeight := envelope.Height() / n as real;
    var startX := envelope.minX;
    var startY := envelope.minY;
    var xMin := CastDiv(geomEnvelope.minX - startX, childWidth);
    var xMax := Min32(Wrap32(n as int - 1), CastDiv(geomEnvelope.maxX - startX, childWidth));
    var yMin := CastDiv(geomEnvelope.minY - startY, childHeight);
    var yMax := Min32(Wrap32(n as int - 1), CastDiv(geomEnvelope.maxY - startY, childHeight));
    w := Window(xMin, xMax, yMin, yMax);
  }

  lemma SubFeaturesOfGrid(engine: Engine, entry: FeatureEntry, n: Int32, envelope: Envelope, w: Window,
                          piece: (Int32, Int32) -> Attempt<seq<FeatureEntry>>, pieces: Attempt<seq<FeatureEntry>>)
    requires Sound(entry) && entry.location.reference.GetLevelSize(entry.location.Level()) == Ok(n)
    requires envelope == entry.location.Extent()
    requires w == WindowOf(engine.bounds(entry.geometry), envelope, n)
    requires entry.location.Level() < entry.location.reference.NumLevels() && piece == Pieces(engine, entry)
    requires pieces == Grid(piece, w.xMin, w.xMax as int + 1, w.yMin, w.yMax as int + 1)
    ensures SubFeatures(engine, entry) == if pieces.Done? then Ok(pieces.value) else Ok([entry])
  {
  }

  /** The nested loops of `makeSubFeatures`: x from xMin to xMax, and within it y
      from yMin to yMax, collecting the pieces; the first failure ends both loops. */
  method GridPieces(piece: (Int32, Int32) -> Attempt<seq<FeatureEntry>>, xMin: Int32, xMax: Int32, yMin: Int32, yMax: Int32)
    returns (r: Attempt<seq<FeatureEntry>>)
    ensures r == Grid(piece, xMin, xMax as int + 1, yMin, yMax as int + 1)
  {
    var subFeatures: seq<FeatureEntry> := [];
    var x: int := xMin;
    while x <= xMax
      invariant x == xMin || xMin < x <= xMax as int + 1
      invariant Grid(piece, xMin, x, yMin, yMax as int + 1) == Done(subFeatures)
      decreases xMax - x
    {
      var column := ColumnPieces(piece, x, yMin, yMax);
      if column.Failed? {
        GridFails(piece, xMin, x, yMin, yMax as int + 1, xMax as int + 1);
        return Failed;
      }
      GridStep(piece, xMin, x, yMin, yMax as int + 1);
      subFeatures := subFeatures + column.value;
      x := x + 1;
    }
    assert x == xMax as int + 1 || x == xMin as int;
    r := Done(subFeatures);
  }

  /** The inner loop of `makeSubFeatures`: the pieces of one column of children. */
  method ColumnPieces(piece: (Int32, Int32) -> Attempt<seq<FeatureEntry>>, x: Int32, yMin: Int32, yMax: Int32)
    returns (r: Attempt<seq<FeatureEntry>>)
    ensures r == Column(piece, x, yMin, yMax as int + 1)
  {
    var pieces: seq<FeatureEntry> := [];
    var y: int := yMin;
    while y <= yMax
      invariant y == yMin || yMin < y <= yMax as int + 1
      invariant Column(piece, x, yMin, y) == Done(pieces)
      decreases yMax - y
    {
      var cut := piece(x, y);
      if cut.Failed? {
        ColumnFails(piece, x, yMin, y, yMax as int + 1);
        return Failed;
      }
      ColumnStep(piece, x, yMin, y);
      pieces := pieces + cut.value;
      y := y + 1;
    }
    assert y == yMax as int + 1 || y == yMin as int;
    r := Done(pieces);
  }

  /** A failing piece makes its whole column fail. */
  lemma {:induction false} ColumnFails(piece: (Int32, Int32) -> Attempt<seq<FeatureEntry>>, x: Int32, yMin: Int32, y: int, yEnd: int)
    requires yMin <= y < yEnd <= MaxInt32 + 1
    requires Column(piece, x, yMin, y).Done? && piece(x, y).Failed?
    ensures Column(piece, x, yMin, yEnd).Failed?
    decreases yEnd - y
  {
    if yEnd > y + 1 {
      ColumnFails(piece, x, yMin, y, yEnd - 1);
    }
  }

  lemma ColumnStep(piece: (Int32, Int32) -> Attempt<seq<FeatureEntry>>, x: Int32, yMin: Int32, y: Int32)
    requires yMin <= y && Column(piece, x, yMin, y).Done? && piece(x, y).Done?
    ensures Column(piece, x, yMin, y as int + 1) == Done(Column(piece, x, yMin, y).value + piece(x, y).value)
  {
  }

  /** A failing column makes the whole grid fail. */
  lemma {:induction false} GridFails(piece: (Int32, Int32) -> Attempt<seq<FeatureEntry>>, xMin: Int32, x: int, yMin: Int32, yEnd: int, xEnd: int)
    requires xMin <= x < xEnd <= MaxInt32 + 1 && yEnd <= MaxInt32 + 1
    requires Grid(piece, xMin, x, yMin, yEnd).Done? && Column(piece, x, yMin, yEnd).Failed?
    ensures Grid(piece, xMin, xEnd, yMin, yEnd).Failed?
    decreases xEnd - x
  {
    if xEnd > x + 1 {
      GridFails(piece, xMin, x, yMin, yEnd, xEnd - 1);
    }
  }

  lemma GridStep(piece: (Int32, Int32) -> Attempt<seq<FeatureEntry>>, xMin: Int32, x: Int32, yMin: Int32, yEnd: int)
    requires xMin <= x && yEnd <= MaxInt32 + 1
    requires Grid(piece, xMin, x, yMin, yEnd).Done? && Column(piece, x, yMin, yEnd).Done?
    ensures Grid(piece, xMin, x as int + 1, yMin, yEnd) == Done(Grid(piece, xMin, x, yMin, yEnd).value + Column(piece, x, yMin, yEnd).value)
  {
  }

  /** Every piece of a column comes from one of its cells. */
  lemma {:induction false} ColumnFrom(piece: (Int32, Int32) -> Attempt<seq<FeatureEntry>>, x: Int32, yMin: Int32, yEnd: int, e: FeatureEntry)
    requires yEnd <= MaxInt32 + 1
    requires Column(piece, x, yMin, yEnd).Done? && e in Column(piece, x, yMin, yEnd).value
    ensures exists y: Int32 :: yMin <= y < yEnd && piece(x, y).Done? && e in piece(x, y).value
    decreases yEnd - yMin
  {
    if yEnd > yMin {
      if e in Column(piece, x, yMin, yEnd - 1).value {
        ColumnFrom(piece, x, yMin, yEnd - 1, e);
      } else {
        var y: Int32 := yEnd - 1;
        assert piece(x, y).Done? && e in piece(x, y).value;
      }
    }
  }

  /** Every piece of a grid comes from one of its cells. */
  lemma {:induction false} GridFrom(piece: (Int32, Int32) -> Attempt<seq<FeatureEntry>>, xMin: Int32, xEnd: int, yMin: Int32, yEnd: int, e: FeatureEntry)
    requires xEnd <= MaxInt32 + 1 && yEnd <= MaxInt32 + 1
    requires Grid(piece, xMin, xEnd, yMin, yEnd).Done? && e in Grid(piece, xMin, xEnd, yMin, yEnd).value
    ensures exists x: Int32, y: Int32 :: xMin <= x < xEnd && yMin <= y < yEnd && piece(x, y).Done? && e in piece(x, y).value
    decreases xEnd - xMin
  {
    if xEnd > xMin {
      if e in Grid(piece, xMin, xEnd - 1, yMin, yEnd).value {
        GridFrom(piece, xMin, xEnd - 1, yMin, yEnd, e);
      } else {
        var x: Int32 := xEnd - 1;
        ColumnFrom(piece, x, yMin, yEnd, e);
      }
    }
  }

  /** Every cell of a column that finishes contributes all of its pieces. */
  lemma {:induction false} ColumnCovers(piece: (Int32, Int32) -> Attempt<seq<FeatureEntry>>, x: Int32, yMin: Int32, yEnd: int, y: Int32)
    requires yEnd <= MaxInt32 + 1 && yMin <= y < yEnd
    requires Column(piece, x, yMin, yEnd).Done?
    ensures piece(x, y).Done?
    ensures forall e :: e in piece(x, y).value ==> e in Column(piece, x, yMin, yEnd).value
    decreases yEnd - yMin
  {
    if y < yEnd - 1 {
      ColumnCovers(piece, x, yMin, yEnd - 1, y);
    }
  }

  /** Every cell of a grid that finishes contributes all of its pieces. */
  lemma {:induction false} GridCovers(piece: (Int32, Int32) -> Attempt<seq<FeatureEntry>>, xMin: Int32, xEnd: int, yMin: Int32, yEnd: int, x: Int32, y: Int32)
    requires xEnd <= MaxInt32 + 1 && yEnd <= MaxInt32 + 1
    requires xMin <= x < xEnd && yMin <= y < yEnd
    requires Grid(piece, xMin, xEnd, yMin, yEnd).Done?
    ensures piece(x, y).Done?
    ensures forall e :: e in piece(x, y).value ==> e in Grid(piece, xMin, xEnd, yMin, yEnd).value
    decreases xEnd - xMin
  {
    if x < xEnd - 1 {
      GridCovers(piece, xMin, xEnd - 1, yMin, yEnd, x, y);
    } else {
      ColumnCovers(piece, x, yMin, yEnd, y);
    }
  }

  /** The split is complete: unless a geometry operation failed and the entry is kept
      whole, every child cell of the window contributes its piece, which is the part
      of the geometry inside that child's rectangle. */
  lemma SubFeaturesComplete(engine: Engine, entry: FeatureEntry, x: Int32, y: Int32, g: Geom)
    requires Sound(entry) && entry.location.Level() < entry.location.reference.NumLevels()
    requires var w := WindowOf(engine.bounds(entry.geometry), entry.location.Extent(), entry.location.reference.levelSizes[entry.location.Level()]);
      w.xMin <= x <= w.xMax && w.yMin <= y <= w.yMax
    ensures SubFeatures(engine, entry).Ok?
    ensures SubFeatures(engine, entry).value == [entry] ||
      (Piece(engine, entry, x, y).Done? && forall e :: e in Piece(engine, entry, x, y).value ==> e in SubFeatures(engine, entry).value)
    ensures var child := ChildOf(entry.location, x, y);
      engine.intersects(child.EnvelopeGeometry(engine), entry.geometry) == Done(true) &&
      engine.intersection(child.EnvelopeGeometry(engine), entry.geometry) == Done(g) ==>
      SubFeatures(engine, entry).value == [entry] ||
      FeatureEntry(child, entry.labelEntry, entry.isWeak, g) in SubFeatures(engine, entry).value
  {
    var n := entry.location.reference.levelSizes[entry.location.Level()];
    var w := WindowOf(engine.bounds(entry.geometry), entry.location.Extent(), n);
    var grid := Grid(Pieces(engine, entry), w.xMin, w.xMax as int + 1, w.yMin, w.yMax as int + 1);
    if grid.Done? {
      GridCovers(Pieces(engine, entry), w.xMin, w.xMax as int + 1, w.yMin, w.yMax as int + 1, x, y);
      assert Pieces(engine, entry)(x, y) == Piece(engine, entry, x, y);
    }
  }

  /** The piece of a child cell is the part of the geometry inside the cell's
      rectangle, at the child, with the entry's label entry and weak flag; there is
      none exactly when the rectangle does not meet the geometry. */
  lemma PieceIsIntersection(engine: Engine, entry: FeatureEntry, x: Int32, y: Int32)
    requires Sound(entry) && entry.location.Level() < entry.location.reference.NumLevels()
    ensures var cell := ChildOf(entry.location, x, y).EnvelopeGeometry(engine);
      Piece(engine, entry, x, y) == Done([]) <==> engine.intersects(cell, entry.geometry) == Done(false)
    ensures var child := ChildOf(entry.location, x, y);
      forall e :: Piece(engine, entry, x, y).Done? && e in Piece(engine, entry, x, y).value ==>
        e.location == child && e.labelEntry == entry.labelEntry && e.isWeak == entry.isWeak &&
        engine.intersects(child.EnvelopeGeometry(engine), entry.geometry) == Done(true) &&
        engine.intersection(child.EnvelopeGeometry(engine), entry.geometry) == Done(e.geometry)
  {
  }

  /** A sub-feature produced by a successful split lies in a child cell (x, y) of the
      entry's window. */
  lemma SubFeatureCell(engine: Engine, entry: FeatureEntry, e: FeatureEntry) returns (n: Int32, x: Int32, y: Int32)
    requires Sound(entry) && SubFeatures(engine, entry).Ok? && e in SubFeatures(engine, entry).value && e != entry
    ensures entry.location.reference.GetLevelSize(entry.location.Level()) == Ok(n)
    ensures var w := WindowOf(engine.bounds(entry.geometry), entry.location.Extent(), n);
      w.xMin <= x <= w.xMax && w.yMin <= y <= w.yMax
    ensures entry.location.Level() < entry.location.reference.NumLevels()
    ensures Pieces(engine, entry)(x, y).Done? && e in Pieces(engine, entry)(x, y).value
  {
    n := entry.location.reference.GetLevelSize(entry.location.Level()).value;
    var w := SubFeaturesGrid(engine, entry, e);
    x, y := GridCell(Pieces(engine, entry), w, e);
  }

  lemma SubFeaturesGrid(engine: Engine, entry: FeatureEntry, e: FeatureEntry) returns (w: Window)
    requires Sound(entry) && SubFeatures(engine, entry).Ok? && e in SubFeatures(engine, entry).value && e != entry
    ensures entry.location.Level() < entry.location.reference.NumLevels()
    ensures w == WindowOf(engine.bounds(entry.geometry), entry.location.Extent(), entry.location.reference.levelSizes[entry.location.Level()])
    ensures Grid(Pieces(engine, entry), w.xMin, w.xMax as int + 1, w.yMin, w.yMax as int + 1).Done?
    ensures e in Grid(Pieces(engine, entry), w.xMin, w.xMax as int + 1, w.yMin, w.yMax as int + 1).value
  {
    var n := entry.location.reference.levelSizes[entry.location.Level()];
    w := WindowOf(engine.bounds(entry.geometry), entry.location.Extent(), n);
  }

  lemma GridCell(piece: (Int32, Int32) -> Attempt<seq<FeatureEntry>>, w: Window, e: FeatureEntry) returns (x: Int32, y: Int32)
    requires Grid(piece, w.xMin, w.xMax as int + 1, w.yMin, w.yMax as int + 1).Done?
    requires e in Grid(piece, w.xMin, w.xMax as int + 1, w.yMin, w.yMax as int + 1).value
    ensures w.xMin <= x <= w.xMax && w.yMin <= y <= w.yMax
    ensures piece(x, y).Done? && e in piece(x, y).value
  {
    GridFrom(piece, w.xMin, w.xMax as int + 1, w.yMin, w.yMax as int + 1, e);
    x, y :| w.xMin <= x < w.xMax as int + 1 && w.yMin <= y < w.yMax as int + 1 && piece(x, y).Done? && e in piece(x, y).value;
  }

  /** `makeSubFeatures` fails exactly at the deepest level, where reading the
      branching factor raises. */
  lemma SubFeaturesErr(engine: Engine, entry: FeatureEntry)
    requires Sound(entry)
    ensures SubFeatures(engine, entry).Err? <==> entry.location.Level() == entry.location.reference.NumLevels()
    ensures SubFeatures(engine, entry).Err? ==> SubFeatures(engine, entry).error == IndexOutOfBounds
  {
  }

  /** Each sub-feature is either the entry itself (a geometry operation failed) or
      the piece of the entry inside one of its child cells: one level deeper, with
      the entry as parent, the same label entry and weak flag, and as geometry the
      intersection of the child's rectangle with the entry's geometry. */
  lemma SubFeaturesAreChildren(engine: Engine, entry: FeatureEntry, e: FeatureEntry)
    requires Sound(entry) && SubFeatures(engine, entry).Ok? && e in SubFeatures(engine, entry).value
    ensures e != entry ==> Sound(e)
    ensures e != entry ==> e.location.Parent() == Some(entry.location) && e.location.Level() == entry.location.Level() + 1
    ensures e != entry ==> e.labelEntry == entry.labelEntry && e.isWeak == entry.isWeak
    ensures e != entry ==> Sound(e) && engine.intersection(e.location.EnvelopeGeometry(engine), entry.geometry) == Done(e.geometry)
  {
    if e != entry {
      var n, x, y := SubFeatureCell(engine, entry, e);
      PieceIsIntersection(engine, entry, x, y);
      ChildParent(entry.location, x, y);
    }
  }

  /** When the entry's location is in range and the window does not start left of or
      below the cell, every child cell of the split is in range: the cap at the last
      child keeps the upper indices inside the grid. */
  lemma SubFeaturesInRange(engine: Engine, entry: FeatureEntry, e: FeatureEntry)
    requires Sound(entry) && entry.location.reference.HasPositiveSizes() && entry.location.InRange()
    requires entry.location.Level() < entry.location.reference.NumLevels()
    requires var w := WindowOf(engine.bounds(entry.geometry), entry.location.Extent(), entry.location.reference.levelSizes[entry.location.Level()]);
      w.xMin >= 0 && w.yMin >= 0
    requires SubFeatures(engine, entry).Ok? && e in SubFeatures(engine, entry).value && e != entry
    ensures Sound(e) && e.location.InRange()
  {
    var n, x, y := SubFeatureCell(engine, entry, e);
    PieceIsIntersection(engine, entry, x, y);
    InRangeAppend(entry.location, x, y);
  }

  // ---------------------------------------------------------------------------
  // simplifySubFeatures

  /** `SimplifiedFeatureEntries`: the entries a cell is done with, and those to split
      again in the next round. */
  datatype Simplified = Simplified(finished: seq<FeatureEntry>, toSimplify: seq<FeatureEntry>)

  /** No entry of the cell has a null label. */
  predicate Labelled(cell: seq<FeatureEntry>) {
    forall k :: 0 <= k < |cell| ==> cell[k].GetLabel().Some?
  }

  /** Every entry of the cell has the label of the first. */
  predicate SameLabel(cell: seq<FeatureEntry>)
    requires |cell| > 0
  {
    forall k :: 0 <= k < |cell| ==> cell[k].GetLabel() == cell[0].GetLabel()
  }

  predicate AllWeak(cell: seq<FeatureEntry>) {
    forall k :: 0 <= k < |cell| ==> cell[k].IsWeakLabel()
  }

  /** The labels carried by some entry. */
  function LabelsOf(entries: seq<FeatureEntry>): set<Label> {
    set e | e in entries :: e.GetLabel()
  }

  /** An entry the simplifier is done with: a strong label that is not null. */
  predicate Settled(e: FeatureEntry) {
    !e.IsWeakLabel() && e.GetLabel().Some?
  }

  /** The (label, geometry) pairs of a cell's entries, in order. */
  function LabeledOf(cell: seq<FeatureEntry>): (r: seq<Labeled>)
    ensures |r| == |cell|
    ensures forall k :: 0 <= k < |r| ==> r[k] == Labeled(cell[k].GetLabel(), cell[k].geometry)
  {
    seq(|cell|, k requires 0 <= k < |cell| => Labeled(cell[k].GetLabel(), cell[k].geometry))
  }

  /** Strong siblings of `first` for the labelled geometries `items`, in order. */
  function Siblings(first: FeatureEntry, items: seq<Labeled>): (r: seq<FeatureEntry>)
    ensures |r| == |items|
    ensures forall k :: 0 <= k < |r| ==> r[k] == first.Sibling(items[k].lab, false, items[k].geom)
  {
    seq(|items|, k requires 0 <= k < |items| => first.Sibling(items[k].lab, false, items[k].geom))
  }

  /** What `simplifySubFeatures` returns for the entries of one cell. With
      simplification on, comparing labels dereferences every label, so a null label
      raises. A cell with a single label and some strong entry becomes the cell's
      rectangle; a cell with several labels and some strong entry waits for the next
      round, or, in the final round, is unioned label by label; a cell of weak
      entries only yields nothing. With simplification off the flags are never
      computed and every cell counts as weak. */
  function CellResult(engine: Engine, ord: Order<Label>, cell: seq<FeatureEntry>, simplify: bool, finalRound: bool): Result<Simplified>
    requires AllSound(cell)
  {
    if |cell| == 0 then Ok(Simplified([], []))
    else if simplify && !Labelled(cell) then Err(NullLabel)
    else
      var first := cell[0];
      var allSame := simplify && SameLabel(cell);
      var allWeak := !simplify || AllWeak(cell);
      if allSame && !allWeak then
        Ok(Simplified([first.Sibling(first.GetLabel(), false, first.location.EnvelopeGeometry(engine))], []))
      else if !allWeak && !finalRound then Ok(Simplified([], cell))
      else if !allWeak then Ok(Simplified(Siblings(first, UnionedByLabel(engine, ord, LabeledOf(cell))), []))
      else Ok(Simplified([], []))
  }

  /** `simplifySubFeatures`. */
  method SimplifySubFeatures(engine: Engine, ord: Order<Label>, cell: seq<FeatureEntry>, simplify: bool, finalRound: bool)
    returns (r: Result<Simplified>)
    requires AllSound(cell)
    ensures r == CellResult(engine, ord, cell, simplify, finalRound)
  {
    if |cell| == 0 {
      return Ok(Simplified([], []));
    }
    var first := cell[0];
    var allSame := simplify;
    var allWeak := true;
    if simplify {
      var single := first.GetLabel();
      for i := 0 to |cell|
        invariant forall k :: 0 <= k < i ==> cell[k].GetLabel().Some?
        invariant allSame <==> forall k :: 0 <= k < i ==> cell[k].GetLabel() == single
        invariant allWeak <==> forall k :: 0 <= k < i ==> cell[k].IsWeakLabel()
      {
        var entry := cell[i];
        if entry.GetLabel().None? {
          return Err(NullLabel);
        }
        if entry.GetLabel() != single {
          allSame := false;
        }
        if !entry.IsWeakLabel() {
          allWeak := false;
        }
      }
    }
    if allSame && !allWeak {
      r := Ok(Simplified([first.Sibling(first.GetLabel(), false, first.location.EnvelopeGeometry(engine))], []));
    } else if !allWeak {
      if !finalRound {
        return Ok(Simplified([], cell));
      }
      var labeled := LabeledGeometries(cell);
      var unioned := UnionByLabel(engine, ord, labeled);
      var simplified := SiblingsOf(first, unioned);
      r := Ok(Simplified(simplified, []));
    } else {
      r := Ok(Simplified([], []));
    }
  }

  /** The loop collecting each entry's label and geometry. */
  method LabeledGeometries(cell: seq<FeatureEntry>) returns (r: seq<Labeled>)
    ensures r == LabeledOf(cell)
  {
    r := [];
    for i := 0 to |cell|
      invariant |r| == i
      invariant forall k :: 0 <= k < i ==> r[k] == Labeled(cell[k].GetLabel(), cell[k].geometry)
    {
      r := r + [Labeled(cell[i].GetLabel(), cell[i].geometry)];
    }
  }

  /** The loop adding a strong sibling of `first` for each unioned geometry. */
  method SiblingsOf(first: FeatureEntry, items: seq<Labeled>) returns (r: seq<FeatureEntry>)
    ensures r == Siblings(first, items)
  {
    r := [];
    for i := 0 to |items|
      invariant |r| == i
      invariant forall k :: 0 <= k < i ==> r[k] == first.Sibling(items[k].lab, false, items[k].geom)
    {
      r := r + [first.Sibling(items[i].lab, false, items[i].geom)];
    }
  }

  /** The only exception `simplifySubFeatures` raises is the null label. */
  lemma CellResultErr(engine: Engine, ord: Order<Label>, cell: seq<FeatureEntry>, simplify: bool, finalRound: bool)
    requires AllSound(cell)
    ensures CellResult(engine, ord, cell, simplify, finalRound).Err? <==> simplify && !Labelled(cell)
    ensures CellResult(engine, ord, cell, simplify, finalRound).Err? ==> CellResult(engine, ord, cell, simplify, finalRound).error == NullLabel
  {
  }

  /** Whatever a cell finishes is settled (strong and labelled), lies in the cell of
      the first entry, keeps its label attribute, and carries a label of the cell;
      the cell is passed on whole, and only before the final round, or not at all. */
  lemma CellResultFacts(engine: Engine, ord: Order<Label>, cell: seq<FeatureEntry>, simplify: bool, finalRound: bool, x: FeatureEntry)
    requires AllSound(cell) && CellResult(engine, ord, cell, simplify, finalRound).Ok?
    ensures var s := CellResult(engine, ord, cell, simplify, finalRound).value;
      s.toSimplify == [] || (s.toSimplify == cell && !finalRound)
    ensures x in CellResult(engine, ord, cell, simplify, finalRound).value.finished ==>
      |cell| > 0 && x.location == cell[0].location && x.labelEntry.key == cell[0].labelEntry.key
    ensures x in CellResult(engine, ord, cell, simplify, finalRound).value.finished ==>
      Settled(x) && x.GetLabel() in LabelsOf(cell)
  {
    var s := CellResult(engine, ord, cell, simplify, finalRound).value;
    if x in s.finished {
      var first := cell[0];
      if simplify && SameLabel(cell) && !AllWeak(cell) {
        assert first in cell;
      } else {
        var unioned := UnionedByLabel(engine, ord, LabeledOf(cell));
        assert s.finished == Siblings(first, unioned);
        var k :| 0 <= k < |unioned| && x == first.Sibling(unioned[k].lab, false, unioned[k].geom);
        var u := unioned[k];
        UnionByLabelLabels(engine, ord, LabeledOf(cell), u);
        var g :| Labeled(u.lab, g) in LabeledOf(cell) && IsValidGeometry(engine, g);
        var i :| 0 <= i < |cell| && LabeledOf(cell)[i] == Labeled(u.lab, g);
        assert cell[i] in cell;
      }
    }
  }

  /** A cell whose entries all carry the same non-null label, one of them strong, is
      replaced by the cell's own rectangle under that label. */
  lemma SingleLabelCell(engine: Engine, ord: Order<Label>, cell: seq<FeatureEntry>, finalRound: bool, lab: string)
    requires AllSound(cell) && |cell| > 0
    requires forall k :: 0 <= k < |cell| ==> cell[k].GetLabel() == Some(lab)
    requires exists k :: 0 <= k < |cell| && !cell[k].IsWeakLabel()
    ensures var first := cell[0];
      CellResult(engine, ord, cell, true, finalRound)
        == Ok(Simplified([FeatureEntry(first.location, LabelEntry(first.labelEntry.key, Some(lab)), false,
                                       engine.toGeometry(first.location.Extent()))], []))
  {
  }

  /** A cell whose entries are all weak yields nothing. */
  lemma WeakCell(engine: Engine, ord: Order<Label>, cell: seq<FeatureEntry>, finalRound: bool)
    requires AllSound(cell) && Labelled(cell) && AllWeak(cell)
    ensures CellResult(engine, ord, cell, true, finalRound) == Ok(Simplified([], []))
  {
  }

  /** In the final round a cell with several labels is unioned label by label: the
      part of the finished entries under each label is the union of that label's
      valid geometries in the cell, as strong siblings of the first entry. */
  lemma MixedCellFinalRound(engine: Engine, ord: Order<Label>, cell: seq<FeatureEntry>)
    requires AllSound(cell) && |cell| > 0 && Labelled(cell) && !SameLabel(cell) && !AllWeak(cell)
    ensures CellResult(engine, ord, cell, true, true)
      == Ok(Simplified(Siblings(cell[0], UnionedByLabel(engine, ord, LabeledOf(cell))), []))
    ensures CellResult(engine, ord, cell, true, false) == Ok(Simplified([], cell))
  {
  }

  /** With simplification off, every cell yields nothing, whatever its labels. */
  lemma CellResultOff(engine: Engine, ord: Order<Label>, cell: seq<FeatureEntry>, finalRound: bool)
    requires AllSound(cell)
    ensures CellResult(engine, ord, cell, false, finalRound) == Ok(Simplified([], []))
  {
  }

  // ---------------------------------------------------------------------------
  // iterativelySimplify

  /** `makeSubFeatures` as a function value. A location that is not sound is left
      whole; no such location reaches it (see `RoundFacts`). */
  function Splitter(engine: Engine): FeatureEntry -> Result<seq<FeatureEntry>> {
    (f: FeatureEntry) => if Sound(f) then SubFeatures(engine, f) else Ok([f])
  }

  /** The entries `isValidGeometry` keeps. */
  function ValidEntry(engine: Engine): FeatureEntry -> bool {
    (f: FeatureEntry) => IsValidGeometry(engine, f.geometry)
  }

  function Everything(): FeatureEntry -> bool {
    (e: FeatureEntry) => true
  }

  function LocationOf(e: FeatureEntry): CellLocation {
    e.location
  }

  function Itself(e: FeatureEntry): FeatureEntry {
    e
  }

  /** The sub-features grouped by cell, the cells taken in the order `locs`. */
  function CellsOf(subs: seq<FeatureEntry>, locs: seq<CellLocation>): (r: seq<seq<FeatureEntry>>)
    ensures |r| == |locs|
    ensures forall j :: 0 <= j < |r| ==> r[j] == Bucket(subs, Everything(), LocationOf, Itself, locs[j])
  {
    seq(|locs|, j requires 0 <= j < |locs| => Bucket(subs, Everything(), LocationOf, Itself, locs[j]))
  }

  /** `simplifySubFeatures` as a function value. A cell that is not sound yields
      nothing; no such cell occurs (see `RoundFacts`). */
  function CellSimplifier(engine: Engine, ord: Order<Label>, simplify: bool, finalRound: bool): seq<FeatureEntry> -> Result<Simplified> {
    (cell: seq<FeatureEntry>) => if AllSound(cell) then CellResult(engine, ord, cell, simplify, finalRound) else Ok(Simplified([], []))
  }

  /** The reduce step of a round: each cell simplified in turn, the finished entries
      and those to split again collected in order; the first exception escapes. */
  function Reduce(reduce: seq<FeatureEntry> -> Result<Simplified>, cells: seq<seq<FeatureEntry>>): Result<Simplified>
  {
    if |cells| == 0 then Ok(Simplified([], []))
    else
      match Reduce(reduce, cells[..|cells| - 1])
      case Err(e) => Err(e)
      case Ok(acc) =>
        match reduce(cells[|cells| - 1])
        case Err(e) => Err(e)
        case Ok(s) => Ok(Simplified(acc.finished + s.finished, acc.toSimplify + s.toSimplify))
  }

  /** One round of `iterativelySimplify`: split the valid entries, group the pieces
      by cell in a HashMap whose iteration order is `ordCell`, and simplify each
      cell. */
  function Round(engine: Engine, ordLabel: Order<Label>, ordCell: Order<CellLocation>, current: seq<FeatureEntry>,
                 simplify: bool, finalRound: bool): Result<Simplified>
  {
    match FlatMap(Splitter(engine), ValidEntry(engine), current)
    case Err(e) => Err(e)
    case Ok(subs) =>
      var locs := Arrange(ordCell, Keys(subs, Everything(), LocationOf));
      Reduce(CellSimplifier(engine, ordLabel, simplify, finalRound), CellsOf(subs, locs))
  }

  /** A round as a function value: from the entries and whether the round is the
      final one to its result. */
  type RoundFn = (seq<FeatureEntry>, bool) -> Result<Simplified>

  function RoundOf(engine: Engine, ordLabel: Order<Label>, ordCell: Order<CellLocation>, simplify: bool): RoundFn {
    (current: seq<FeatureEntry>, finalRound: bool) => Round(engine, ordLabel, ordCell, current, simplify, finalRound)
  }

  /** The rounds `iteration` .. `numLevels - 1`, from the entries `current` and the
      entries already `finished`; what is left after the last round is finished too. */
  function Rounds(round: RoundFn, numLevels: nat, iteration: nat, current: seq<FeatureEntry>, finished: seq<FeatureEntry>): Result<seq<FeatureEntry>>
    decreases numLevels - iteration
  {
    if iteration >= numLevels then Ok(finished + current)
    else
      match round(current, iteration == numLevels - 1)
      case Err(e) => Err(e)
      case Ok(s) => Rounds(round, numLevels, iteration + 1, s.toSimplify, finished + s.finished)
  }

  /** What `simplify` returns: one round per level of the reference. */
  function Simplification(engine: Engine, ordLabel: Order<Label>, ordCell: Order<CellLocation>, reference: CellLocationReference,
                          features: seq<FeatureEntry>, simplify: bool): Result<seq<FeatureEntry>>
  {
    Rounds(RoundOf(engine, ordLabel, ordCell, simplify), reference.NumLevels(), 0, features, [])
  }

  /** The map loop of a round: each entry with a valid geometry split in turn. */
  method SplitValid(engine: Engine, current: seq<FeatureEntry>) returns (r: Result<seq<FeatureEntry>>)
    requires AllSound(current)
    ensures r == FlatMap(Splitter(engine), ValidEntry(engine), current)
  {
    var split := Splitter(engine);
    var keep := ValidEntry(engine);
    var subs: seq<FeatureEntry> := [];
    for i := 0 to |current|
      invariant FlatMap(split, keep, current[..i]) == Ok(subs)
    {
      var feature := current[i];
      FlatMapStep(split, keep, current, i);
      if IsValidGeometry(engine, feature.geometry) {
        var more := MakeSubFeatures(engine, feature);
        assert split(feature) == more;
        if more.Err? {
          FlatMapFirstErr(split, keep, current, i);
          return Err(more.error);
        }
        subs := subs + more.value;
      }
    }
    assert current[..|current|] == current;
    r := Ok(subs);
  }

  /** One round: the map loop, the grouping by cell, and the reduce loop. */
  method SimplifyRound(engine: Engine, ordLabel: Order<Label>, ordCell: Order<CellLocation>, current: seq<FeatureEntry>,
                       simplify: bool, finalRound: bool) returns (r: Result<Simplified>)
    requires AllSound(current)
    ensures r == Round(engine, ordLabel, ordCell, current, simplify, finalRound)
  {
    var split := SplitValid(engine, current);
    if split.Err? {
      return Err(split.error);
    }
    var subs := split.value;
    FlatMapSound(engine, current);
    var locs, groups := GroupBy(subs, Everything(), LocationOf, Itself);
    var ordered := Arrange(ordCell, locs);
    ghost var cells := CellsOf(subs, ordered);
    var reduce := CellSimplifier(engine, ordLabel, simplify, finalRound);
    var finished: seq<FeatureEntry> := [];
    var mustIterate: seq<FeatureEntry> := [];
    for j := 0 to |ordered|
      invariant Reduce(reduce, cells[..j]) == Ok(Simplified(finished, mustIterate))
    {
      ArrangeIndex(ordCell, locs, j);
      var cell := groups[ordered[j]];
      assert cell == cells[j];
      BucketSound(subs, ordered[j]);
      var s := SimplifySubFeatures(engine, ordLabel, cell, simplify, finalRound);
      assert reduce(cell) == s;
      if s.Err? {
        ReduceFirstErr(reduce, cells, j);
        return Err(s.error);
      }
      ReduceStep(reduce, cells, j);
      finished := finished + s.value.finished;
      mustIterate := mustIterate + s.value.toSimplify;
    }
    assert cells[..|ordered|] == cells;
    r := Ok(Simplified(finished, mustIterate));
  }

  /** `iterativelySimplify`: a round per level, the last one final; the entries left
      after the last round are added to the finished ones. */
  method IterativelySimplify(engine: Engine, ordLabel: Order<Label>, ordCell: Order<CellLocation>, reference: CellLocationReference,
                             origFeatures: seq<FeatureEntry>, simplify: bool) returns (r: Result<seq<FeatureEntry>>)
    requires AllSound(origFeatures)
    ensures r == Simplification(engine, ordLabel, ordCell, reference, origFeatures, simplify)
  {
    var finalSimplified: seq<FeatureEntry> := [];
    var currentFeatures := origFeatures;
    var numLevels := reference.NumLevels();
    var round := RoundOf(engine, ordLabel, ordCell, simplify);
    for iteration := 0 to numLevels
      invariant AllSound(currentFeatures)
      invariant Rounds(round, numLevels, iteration, currentFeatures, finalSimplified)
        == Simplification(engine, ordLabel, ordCell, reference, origFeatures, simplify)
    {
      var finalRound := iteration == numLevels - 1;
      var simplified := SimplifyRound(engine, ordLabel, ordCell, currentFeatures, simplify, finalRound);
      assert round(currentFeatures, finalRound) == simplified;
      if simplified.Err? {
        return Err(simplified.error);
      }
      RoundSound(engine, ordLabel, ordCell, currentFeatures, simplify, finalRound);
      finalSimplified := finalSimplified + simplified.value.finished;
      currentFeatures := simplified.value.toSimplify;
    }
    r := Ok(finalSimplified + currentFeatures);
  }

  lemma ReduceStep(reduce: seq<FeatureEntry> -> Result<Simplified>, cells: seq<seq<FeatureEntry>>, j: nat)
    requires j < |cells| && Reduce(reduce, cells[..j]).Ok? && reduce(cells[j]).Ok?
    ensures Reduce(reduce, cells[..j + 1]) == Ok(Simplified(
      Reduce(reduce, cells[..j]).value.finished + reduce(cells[j]).value.finished,
      Reduce(reduce, cells[..j]).value.toSimplify + reduce(cells[j]).value.toSimplify))
  {
    assert cells[..j + 1][..j] == cells[..j];
  }

  /** The first cell whose simplification raises decides the outcome. */
  lemma {:induction false} ReduceFirstErr(reduce: seq<FeatureEntry> -> Result<Simplified>, cells: seq<seq<FeatureEntry>>, j: nat)
    requires j < |cells| && Reduce(reduce, cells[..j]).Ok? && reduce(cells[j]).Err?
    ensures Reduce(reduce, cells) == Err(reduce(cells[j]).error)
    decreases |cells|
  {
    if |cells| > j + 1 {
      var init := cells[..|cells| - 1];
      assert init[..j] == cells[..j] && init[j] == cells[j];
      ReduceFirstErr(reduce, init, j);
    } else {
      assert cells[..j] == cells[..|cells| - 1];
    }
  }

  /** Every entry a round collects was finished, or passed on, by one of its cells. */
  lemma {:induction false} ReduceFrom(reduce: seq<FeatureEntry> -> Result<Simplified>, cells: seq<seq<FeatureEntry>>, x: FeatureEntry)
    requires Reduce(reduce, cells).Ok?
    ensures x in Reduce(reduce, cells).value.finished ==>
      exists j :: 0 <= j < |cells| && reduce(cells[j]).Ok? && x in reduce(cells[j]).value.finished
    ensures x in Reduce(reduce, cells).value.toSimplify ==>
      exists j :: 0 <= j < |cells| && reduce(cells[j]).Ok? && x in reduce(cells[j]).value.toSimplify
    decreases |cells|
  {
    if |cells| > 0 {
      var init := cells[..|cells| - 1];
      ReduceFrom(reduce, init, x);
      assert forall j :: 0 <= j < |init| ==> init[j] == cells[j];
    }
  }

  /** An exception of the reduce step is the exception of some cell. */
  lemma {:induction false} ReduceErr(reduce: seq<FeatureEntry> -> Result<Simplified>, cells: seq<seq<FeatureEntry>>)
    requires Reduce(reduce, cells).Err?
    ensures exists j :: 0 <= j < |cells| && reduce(cells[j]) == Err(Reduce(reduce, cells).error)
    decreases |cells|
  {
    var init := cells[..|cells| - 1];
    if Reduce(reduce, init).Err? {
      ReduceErr(reduce, init);
      var j :| 0 <= j < |init| && reduce(init[j]) == Err(Reduce(reduce, init).error);
      assert cells[j] == init[j];
    } else {
      assert reduce(cells[|cells| - 1]) == Err(Reduce(reduce, cells).error);
    }
  }

  // ---------------------------------------------------------------------------
  // What the rounds guarantee

  /** An entry on `reference`, sound, no deeper than `depth`. */
  predicate Fits(e: FeatureEntry, reference: CellLocationReference, depth: nat) {
    Sound(e) && e.location.reference == reference && e.location.Level() <= depth
  }

  /** A sub-feature of the map step is a piece of one of the round's entries: sound,
      on the same reference, at most one level deeper, with the same label entry. */
  lemma SubFeatureOrigin(engine: Engine, current: seq<FeatureEntry>, x: FeatureEntry) returns (i: nat)
    requires AllSound(current)
    requires FlatMap(Splitter(engine), ValidEntry(engine), current).Ok?
    requires x in FlatMap(Splitter(engine), ValidEntry(engine), current).value
    ensures i < |current| && Sound(x) && x.labelEntry == current[i].labelEntry
    ensures x.location.reference == current[i].location.reference
    ensures x.location.Level() <= current[i].location.Level() + 1
  {
    var split := Splitter(engine);
    FlatMapFrom(split, ValidEntry(engine), current, x);
    i :| 0 <= i < |current| && ValidEntry(engine)(current[i]) && split(current[i]).Ok? && x in split(current[i]).value;
    SubFeaturesAreChildren(engine, current[i], x);
  }

  lemma FlatMapSound(engine: Engine, current: seq<FeatureEntry>)
    requires AllSound(current) && FlatMap(Splitter(engine), ValidEntry(engine), current).Ok?
    ensures AllSound(FlatMap(Splitter(engine), ValidEntry(engine), current).value)
  {
    var subs := FlatMap(Splitter(engine), ValidEntry(engine), current).value;
    forall k | 0 <= k < |subs|
      ensures Sound(subs[k])
    {
      var i := SubFeatureOrigin(engine, current, subs[k]);
    }
  }

  /** The entries grouped under a cell are sub-features located in that cell. */
  lemma BucketMember(subs: seq<FeatureEntry>, loc: CellLocation, y: FeatureEntry)
    requires y in Bucket(subs, Everything(), LocationOf, Itself, loc)
    ensures y in subs && y.location == loc
  {
    BucketFrom(subs, Everything(), LocationOf, Itself, loc, y);
  }

  lemma BucketSound(subs: seq<FeatureEntry>, loc: CellLocation)
    requires AllSound(subs)
    ensures AllSound(Bucket(subs, Everything(), LocationOf, Itself, loc))
  {
    var cell := Bucket(subs, Everything(), LocationOf, Itself, loc);
    forall k | 0 <= k < |cell|
      ensures Sound(cell[k])
    {
      BucketMember(subs, loc, cell[k]);
    }
  }

  /** What a round passes on to the next is sound. */
  lemma RoundSound(engine: Engine, ordLabel: Order<Label>, ordCell: Order<CellLocation>, current: seq<FeatureEntry>,
                   simplify: bool, finalRound: bool)
    requires AllSound(current) && Round(engine, ordLabel, ordCell, current, simplify, finalRound).Ok?
    ensures AllSound(Round(engine, ordLabel, ordCell, current, simplify, finalRound).value.toSimplify)
  {
    var subs := FlatMap(Splitter(engine), ValidEntry(engine), current).value;
    var cells := CellsOf(subs, Arrange(ordCell, Keys(subs, Everything(), LocationOf)));
    var reduce := CellSimplifier(engine, ordLabel, simplify, finalRound);
    var next := Round(engine, ordLabel, ordCell, current, simplify, finalRound).value.toSimplify;
    assert Reduce(reduce, cells).value.toSimplify == next;
    forall k | 0 <= k < |next|
      ensures Sound(next[k])
    {
      ReduceFrom(reduce, cells, next[k]);
      var j :| 0 <= j < |cells| && reduce(cells[j]).Ok? && next[k] in reduce(cells[j]).value.toSimplify;
      assert AllSound(cells[j]);
      CellResultFacts(engine, ordLabel, cells[j], simplify, finalRound, next[k]);
    }
  }

  lemma FitsSound(current: seq<FeatureEntry>, reference: CellLocationReference, depth: nat)
    requires AllFit(current, reference, depth)
    ensures AllSound(current)
  {
    forall k | 0 <= k < |current|
      ensures Sound(current[k])
    {
      assert current[k] in current;
    }
  }

  /** The map step of a round cannot raise when every entry lies above the deepest
      level. */
  lemma FlatMapOk(engine: Engine, current: seq<FeatureEntry>, reference: CellLocationReference, depth: nat)
    requires depth < reference.NumLevels()
    requires AllFit(current, reference, depth)
    ensures FlatMap(Splitter(engine), ValidEntry(engine), current).Ok?
  {
    var split := Splitter(engine);
    var keep := ValidEntry(engine);
    if FlatMap(split, keep, current).Err? {
      FlatMapErr(split, keep, current);
      var i :| 0 <= i < |current| && keep(current[i]) && split(current[i]) == Err(FlatMap(split, keep, current).error);
      assert current[i] in current;
      SubFeaturesErr(engine, current[i]);
      assert false;
    }
  }

  /** One round over entries at most `depth` deep, above the deepest level, raises
      only for a null label. */
  lemma RoundErr(engine: Engine, ordLabel: Order<Label>, ordCell: Order<CellLocation>, current: seq<FeatureEntry>,
                 simplify: bool, finalRound: bool, reference: CellLocationReference, depth: nat)
    requires depth < reference.NumLevels() && AllFit(current, reference, depth)
    ensures var r := Round(engine, ordLabel, ordCell, current, simplify, finalRound);
      r.Err? ==> r.error == NullLabel
  {
    FlatMapOk(engine, current, reference, depth);
    FitsSound(current, reference, depth);
    var subs := FlatMap(Splitter(engine), ValidEntry(engine), current).value;
    FlatMapSound(engine, current);
    var locs := Arrange(ordCell, Keys(subs, Everything(), LocationOf));
    var cells := CellsOf(subs, locs);
    var reduce := CellSimplifier(engine, ordLabel, simplify, finalRound);
    var r := Reduce(reduce, cells);
    assert Round(engine, ordLabel, ordCell, current, simplify, finalRound) == r;
    if r.Err? {
      ReduceErr(reduce, cells);
      var j :| 0 <= j < |cells| && reduce(cells[j]) == Err(r.error);
      BucketSound(subs, locs[j]);
      CellResultErr(engine, ordLabel, cells[j], simplify, finalRound);
    }
  }

  /** What one round over entries at most `depth` deep, above the deepest level,
      finishes is settled, and what it passes on waits for a later round; both are at
      most one level deeper and carry labels of the round's entries. */
  lemma RoundEntry(engine: Engine, ordLabel: Order<Label>, ordCell: Order<CellLocation>, current: seq<FeatureEntry>,
                   simplify: bool, finalRound: bool, reference: CellLocationReference, depth: nat, x: FeatureEntry)
    requires depth < reference.NumLevels() && AllFit(current, reference, depth)
    ensures var r := Round(engine, ordLabel, ordCell, current, simplify, finalRound);
      r.Ok? && x in r.value.finished ==> Fits(x, reference, depth + 1) && Settled(x) && x.GetLabel() in LabelsOf(current)
    ensures var r := Round(engine, ordLabel, ordCell, current, simplify, finalRound);
      r.Ok? && x in r.value.toSimplify ==> Fits(x, reference, depth + 1) && x.GetLabel() in LabelsOf(current) && !finalRound
  {
    FlatMapOk(engine, current, reference, depth);
    FitsSound(current, reference, depth);
    var subs := FlatMap(Splitter(engine), ValidEntry(engine), current).value;
    FlatMapSound(engine, current);
    var locs := Arrange(ordCell, Keys(subs, Everything(), LocationOf));
    var cells := CellsOf(subs, locs);
    var reduce := CellSimplifier(engine, ordLabel, simplify, finalRound);
    var r := Reduce(reduce, cells);
    assert Round(engine, ordLabel, ordCell, current, simplify, finalRound) == r;
    if r.Ok? {
      ReduceFrom(reduce, cells, x);
      if x in r.value.finished {
        var j :| 0 <= j < |cells| && reduce(cells[j]).Ok? && x in reduce(cells[j]).value.finished;
        BucketSound(subs, locs[j]);
        CellResultFacts(engine, ordLabel, cells[j], simplify, finalRound, x);
        var first := cells[j][0];
        BucketMember(subs, locs[j], first);
        var i := SubFeatureOrigin(engine, current, first);
        assert current[i] in current;
        var y: FeatureEntry :| y in cells[j] && y.GetLabel() == x.GetLabel();
        BucketMember(subs, locs[j], y);
        var i' := SubFeatureOrigin(engine, current, y);
        assert current[i'] in current;
      }
      if x in r.value.toSimplify {
        var j :| 0 <= j < |cells| && reduce(cells[j]).Ok? && x in reduce(cells[j]).value.toSimplify;
        BucketSound(subs, locs[j]);
        CellResultFacts(engine, ordLabel, cells[j], simplify, finalRound, x);
        BucketMember(subs, locs[j], x);
        var i := SubFeatureOrigin(engine, current, x);
        assert current[i] in current;
      }
    }
  }

  predicate AllFit(entries: seq<FeatureEntry>, reference: CellLocationReference, depth: nat) {
    forall e :: e in entries ==> Fits(e, reference, depth)
  }

  /** What a round guarantees of its result `r` on `current`, entries at most `depth`
      deep: it raises only for a null label; what it finishes is settled and what it
      passes on is left for a later round, both at most one level deeper and
      carrying labels of `current`. */
  predicate GoodRound(reference: CellLocationReference, depth: nat, current: seq<FeatureEntry>, finalRound: bool, r: Result<Simplified>) {
    && (r.Err? ==> r.error == NullLabel)
    && (r.Ok? ==> forall x :: x in r.value.finished ==>
          Fits(x, reference, depth + 1) && Settled(x) && x.GetLabel() in LabelsOf(current))
    && (r.Ok? ==> forall x :: x in r.value.toSimplify ==>
          Fits(x, reference, depth + 1) && x.GetLabel() in LabelsOf(current))
    && (r.Ok? && finalRound ==> r.value.toSimplify == [])
  }

  /** Every round over entries above the deepest level is good. */
  ghost predicate GoodRounds(round: RoundFn, reference: CellLocationReference) {
    forall depth: nat, current: seq<FeatureEntry>, finalRound: bool ::
      depth < reference.NumLevels() && AllFit(current, reference, depth) ==>
        GoodRound(reference, depth, current, finalRound, round(current, finalRound))
  }

  /** The rounds of `iterativelySimplify` are good. */
  lemma RoundOfGood(engine: Engine, ordLabel: Order<Label>, ordCell: Order<CellLocation>, simplify: bool, reference: CellLocationReference)
    ensures GoodRounds(RoundOf(engine, ordLabel, ordCell, simplify), reference)
  {
    var round := RoundOf(engine, ordLabel, ordCell, simplify);
    forall depth: nat, current: seq<FeatureEntry>, finalRound: bool | depth < reference.NumLevels() && AllFit(current, reference, depth)
      ensures GoodRound(reference, depth, current, finalRound, round(current, finalRound))
    {
      var r := Round(engine, ordLabel, ordCell, current, simplify, finalRound);
      RoundErr(engine, ordLabel, ordCell, current, simplify, finalRound, reference, depth);
      forall x | r.Ok? && x in r.value.finished
        ensures Fits(x, reference, depth + 1) && Settled(x) && x.GetLabel() in LabelsOf(current)
      {
        RoundEntry(engine, ordLabel, ordCell, current, simplify, finalRound, reference, depth, x);
      }
      forall x | r.Ok? && x in r.value.toSimplify
        ensures Fits(x, reference, depth + 1) && x.GetLabel() in LabelsOf(current) && !finalRound
      {
        RoundEntry(engine, ordLabel, ordCell, current, simplify, finalRound, reference, depth, x);
      }
      if r.Ok? && finalRound && r.value.toSimplify != [] {
        RoundEntry(engine, ordLabel, ordCell, current, simplify, finalRound, reference, depth, r.value.toSimplify[0]);
      }
    }
  }

  lemma LabelsWithin(entries: seq<FeatureEntry>, labels: set<Label>, l: Label)
    requires forall e :: e in entries ==> e.GetLabel() in labels
    requires l in LabelsOf(entries)
    ensures l in labels
  {
  }

  /** Good rounds from `iteration` on, from entries at most `iteration` deep and
      settled finished entries: they raise only for a null label, and yield sound
      entries on the reference whose labels are among `labels`; an unsettled entry is
      in the result only when no round is left to run. */
  lemma {:induction false} RoundsFacts(round: RoundFn, reference: CellLocationReference, iteration: nat,
                                       current: seq<FeatureEntry>, finished: seq<FeatureEntry>, labels: set<Label>, x: FeatureEntry)
    requires GoodRounds(round, reference)
    requires iteration <= reference.NumLevels() && AllFit(current, reference, iteration)
    requires forall e :: e in current ==> e.GetLabel() in labels
    requires forall e :: e in finished ==> Sound(e) && e.location.reference == reference && Settled(e) && e.GetLabel() in labels
    ensures var r := Rounds(round, reference.NumLevels(), iteration, current, finished);
      r.Err? ==> r.error == NullLabel
    ensures var r := Rounds(round, reference.NumLevels(), iteration, current, finished);
      r.Ok? && x in r.value ==> Sound(x) && x.location.reference == reference && x.GetLabel() in labels
    ensures var r := Rounds(round, reference.NumLevels(), iteration, current, finished);
      r.Ok? && x in r.value && !Settled(x) ==> iteration == reference.NumLevels() && x in current
    decreases reference.NumLevels() - iteration
  {
    var n := reference.NumLevels();
    if iteration < n {
      var finalRound := iteration == n - 1;
      var r := round(current, finalRound);
      assert GoodRound(reference, iteration, current, finalRound, r);
      if r.Ok? {
        var s := r.value;
        forall e | e in s.toSimplify
          ensures e.GetLabel() in labels
        {
          LabelsWithin(current, labels, e.GetLabel());
        }
        forall e | e in finished + s.finished
          ensures Sound(e) && e.location.reference == reference && Settled(e) && e.GetLabel() in labels
        {
          if e !in finished {
            LabelsWithin(current, labels, e.GetLabel());
          }
        }
        RoundsFacts(round, reference, iteration + 1, s.toSimplify, finished + s.finished, labels, x);
      }
    }
  }

  /** `simplify` over entries at the root of `reference`: it raises only for a null
      label (never for the depth of the index); every entry it returns is sound, on
      the reference, and carries a label of the input; with at least one level every
      entry returned is strong and labelled; with none the input is returned as is. */
  lemma SimplificationFacts(engine: Engine, ordLabel: Order<Label>, ordCell: Order<CellLocation>, reference: CellLocationReference,
                            features: seq<FeatureEntry>, simplify: bool, x: FeatureEntry)
    requires forall e :: e in features ==> Sound(e) && e.location.reference == reference && e.location.Level() == 0
    ensures var r := Simplification(engine, ordLabel, ordCell, reference, features, simplify);
      r.Err? ==> r.error == NullLabel
    ensures var r := Simplification(engine, ordLabel, ordCell, reference, features, simplify);
      r.Ok? && x in r.value ==> Sound(x) && x.location.reference == reference && x.GetLabel() in LabelsOf(features)
    ensures var r := Simplification(engine, ordLabel, ordCell, reference, features, simplify);
      r.Ok? && x in r.value && reference.NumLevels() > 0 ==> Settled(x)
    ensures reference.NumLevels() == 0 ==> Simplification(engine, ordLabel, ordCell, reference, features, simplify) == Ok(features)
  {
    RoundOfGood(engine, ordLabel, ordCell, simplify, reference);
    RoundsFacts(RoundOf(engine, ordLabel, ordCell, simplify), reference, 0, features, [], LabelsOf(features), x);
    assert [] + features == features;
  }

  lemma {:induction false} ReduceNothing(reduce: seq<FeatureEntry> -> Result<Simplified>, cells: seq<seq<FeatureEntry>>)
    requires forall j :: 0 <= j < |cells| ==> reduce(cells[j]) == Ok(Simplified([], []))
    ensures Reduce(reduce, cells) == Ok(Simplified([], []))
    decreases |cells|
  {
    if |cells| > 0 {
      var init := cells[..|cells| - 1];
      assert forall j :: 0 <= j < |init| ==> init[j] == cells[j];
      ReduceNothing(reduce, init);
      var none: seq<FeatureEntry> := [];
      assert reduce(cells[|cells| - 1]) == Ok(Simplified(none, none));
      assert none + none == none;
      assert Reduce(reduce, cells) == Ok(Simplified(none + none, none + none));
    }
  }

  /** With simplification off, a round above the deepest level yields nothing. */
  lemma RoundOff(engine: Engine, ordLabel: Order<Label>, ordCell: Order<CellLocation>, current: seq<FeatureEntry>,
                 finalRound: bool, reference: CellLocationReference, depth: nat)
    requires depth < reference.NumLevels() && AllFit(current, reference, depth)
    ensures Round(engine, ordLabel, ordCell, current, false, finalRound) == Ok(Simplified([], []))
  {
    FlatMapOk(engine, current, reference, depth);
    var subs := FlatMap(Splitter(engine), ValidEntry(engine), current).value;
    var cells := CellsOf(subs, Arrange(ordCell, Keys(subs, Everything(), LocationOf)));
    var reduce := CellSimplifier(engine, ordLabel, false, finalRound);
    forall j | 0 <= j < |cells|
      ensures reduce(cells[j]) == Ok(Simplified([], []))
    {
      if AllSound(cells[j]) {
        CellResultOff(engine, ordLabel, cells[j], finalRound);
      }
    }
    ReduceNothing(reduce, cells);
  }

  /** Rounds that yield nothing, on the first entries and on no entries, yield
      nothing. */
  lemma {:induction false} RoundsNothing(round: RoundFn, n: nat, iteration: nat, current: seq<FeatureEntry>)
    requires iteration < n
    requires round(current, iteration == n - 1) == Ok(Simplified([], []))
    requires forall finalRound: bool :: round([], finalRound) == Ok(Simplified([], []))
    ensures Rounds(round, n, iteration, current, []) == Ok([])
    decreases n - iteration
  {
    var none: seq<FeatureEntry> := [];
    assert none + none == none;
    if iteration + 1 < n {
      RoundsNothing(round, n, iteration + 1, none);
    }
  }

  /** With simplification off, `simplify` over root entries of a reference with at
      least one level returns nothing at all: every cell counts as weak. */
  lemma SimplificationOff(engine: Engine, ordLabel: Order<Label>, ordCell: Order<CellLocation>, reference: CellLocationReference,
                          features: seq<FeatureEntry>)
    requires forall e :: e in features ==> Sound(e) && e.location.reference == reference && e.location.Level() == 0
    requires reference.NumLevels() > 0
    ensures Simplification(engine, ordLabel, ordCell, reference, features, false) == Ok([])
  {
    var round := RoundOf(engine, ordLabel, ordCell, false);
    var n := reference.NumLevels();
    RoundOff(engine, ordLabel, ordCell, features, n == 1, reference, 0);
    forall finalRound: bool
      ensures round([], finalRound) == Ok(Simplified([], []))
    {
      RoundOff(engine, ordLabel, ordCell, [], finalRound, reference, 0);
    }
    RoundsNothing(round, n, 0, features);
  }
}
