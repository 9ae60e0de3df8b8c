/** A cell of the index: the path of (x, y) index pairs from the root of a
    quadtree-like grid down to the cell, relative to a reference. A location is
    stored as Java stores it, one flat sequence x0, y0, x1, y1, ... */
module CellLocations {
  import opened Common
  import opened Text
  import opened Geometry
  import opened CellReference

  datatype CellLocation = CellLocation(reference: CellLocationReference, indices: seq<Int32>)
  {
    /** What the constructors guarantee: whole pairs, no deeper than the reference. */
    predicate Valid() {
      |indices| % 2 == 0 && |indices| / 2 <= reference.NumLevels()
    }

    /** Every index lies in `[0, levelSize)` of its level. */
    predicate InRange()
      requires Valid()
    {
      forall k :: 0 <= k < Level() ==>
        0 <= indices[2 * k] < reference.levelSizes[k] && 0 <= indices[2 * k + 1] < reference.levelSizes[k]
    }

    /** `level`: the number of index pairs. */
    function Level(): nat {
      |indices| / 2
    }

    /** `child(x, y)`: one level deeper, or IllegalArgumentException at the deepest level.
        The indices themselves are not checked. */
    function Child(x: Int32, y: Int32): (r: Result<CellLocation>)
      ensures r.Ok? <==> Level() < reference.NumLevels()
      ensures r.Err? ==> r.error == MaxDepth
      ensures r.Ok? ==> r.value.reference == reference && r.value.indices == indices + [x, y]
    {
      if Level() >= reference.NumLevels() then Err(MaxDepth)
      else Ok(CellLocation(reference, indices + [x, y]))
    }

    /** `parent`: the path without its last pair, or null at the root. */
    function Parent(): Option<CellLocation> {
      if |indices| < 2 then None else Some(CellLocation(reference, indices[..|indices| - 2]))
    }

    /** `equals`: equal references and equal index arrays. */
    predicate Equals(other: CellLocation) {
      reference.Equals(other.reference) && ArraysEqual(indices, other.indices)
    }

    /** `hashCode`. */
    function HashCode(envelopeHash: Envelope -> Int32): Int32 {
      Wrap32(reference.HashCode(envelopeHash) + ArraysHashCode(indices))
    }

    /** `attributeValue`: each index in decimal, followed by "," after an x index and
        by ";" after a y index. */
    method AttributeValue() returns (value: string)
      ensures value == Serialized(indices)
    {
      value := "";
      for idx := 0 to |indices|
        invariant value == Serialized(indices[..idx])
      {
        value := value + IntToString(indices[idx]);
        if idx % 2 == 0 {
          value := value + ",";
        } else {
          value := value + ";";
        }
        assert indices[..idx + 1][..idx] == indices[..idx];
      }
      assert indices[..|indices|] == indices;
    }

    /** `toString`: the indices in brackets, "," inside a pair, " " between pairs. */
    method ToString() returns (s: string)
      ensures s == Described(indices)
    {
      var body := "";
      for idx := 0 to |indices|
        invariant body == DescribedBody(indices, idx)
      {
        DescribedStep(indices, idx);
        body := body + IntToString(indices[idx]);
        if idx % 2 == 0 {
          body := body + ",";
        } else if idx != |indices| - 1 {
          body := body + " ";
        }
      }
      s := "[" + body + "]";
    }

    /** The bounds of the cell: the world envelope cut `Level()` times. A negative
        level size makes the cell's side negative, and the envelope then sorts the
        bounds. */
    function Extent(): (e: Envelope)
      requires Valid() && reference.HasNonZeroSizes()
      ensures e.crs == reference.envelope.crs
      ensures e.minX <= e.maxX && e.minY <= e.maxY
    {
      var corner := CellCorner(reference, indices, Level());
      SortedEnvelope(corner.minX, corner.minX + CellSide(reference.envelope.Width(), corner.scale),
                     corner.minY, corner.minY + CellSide(reference.envelope.Height(), corner.scale),
                     reference.envelope.crs)
    }

    /** `envelope`: walk down the path, shrinking the cell size by each level's
        branching factor and moving the lower corner by the cell's index. */
    method Envelope() returns (e: Geometry.Envelope)
      requires Valid() && reference.HasNonZeroSizes()
      ensures e == Extent()
    {
      var world := reference.envelope;
      var corner := Corner(world.minX, world.minY, 1);
      for idx := 0 to Level()
        invariant corner == CellCorner(reference, indices, idx)
      {
        corner := Descend(reference, corner, idx, indices[2 * idx], indices[2 * idx + 1]);
      }
      e := SortedEnvelope(corner.minX, corner.minX + CellSide(world.Width(), corner.scale),
                          corner.minY, corner.minY + CellSide(world.Height(), corner.scale), world.crs);
    }

    /** `envelopeGeometry`: the envelope as a polygon. */
    function EnvelopeGeometry(engine: Engine): Geom
      requires Valid() && reference.HasNonZeroSizes()
    {
      engine.toGeometry(Extent())
    }
  }

  /** The root location of a reference. */
  function Root(reference: CellLocationReference): (r: CellLocation)
    ensures r.Valid() && r.Level() == 0
  {
    CellLocation(reference, [])
  }

  /** What `attributeValue` writes for a path, index by index. */
  function Serialized(indices: seq<Int32>): string {
    if |indices| == 0 then ""
    else
      var k := |indices| - 1;
      Serialized(indices[..k]) + IntToString(indices[k]) + (if k % 2 == 0 then "," else ";")
  }

  /** What `toString` writes between the brackets for the first `n` indices of a path. */
  function DescribedBody(indices: seq<Int32>, n: nat): string
    requires n <= |indices|
  {
    if n == 0 then ""
    else
      var k := n - 1;
      DescribedBody(indices, k) + IntToString(indices[k])
        + (if k % 2 == 0 then "," else if k != |indices| - 1 then " " else "")
  }

  lemma DescribedStep(indices: seq<Int32>, idx: nat)
    requires idx < |indices|
    ensures var body, text := DescribedBody(indices, idx), IntToString(indices[idx]);
      DescribedBody(indices, idx + 1)
        == if idx % 2 == 0 then body + text + ","
           else if idx != |indices| - 1 then body + text + " "
           else body + text
  {
  }

  function Described(indices: seq<Int32>): string {
    "[" + DescribedBody(indices, |indices|) + "]"
  }

  /** A pair written as "x,y". */
  function Pair(x: Int32, y: Int32): string {
    IntToString(x) + "," + IntToString(y)
  }

  /** The pairs of a path, each written as "x,y". */
  function Groups(indices: seq<Int32>): (g: seq<string>)
    requires |indices| % 2 == 0
    ensures |g| == |indices| / 2
    ensures forall k :: 0 <= k < |g| ==> g[k] == Pair(indices[2 * k], indices[2 * k + 1])
  {
    Grouped(indices, Pair)
  }

  /** The pairs of a path, each mapped by `pair`. */
  function Grouped<T>(indices: seq<Int32>, pair: (Int32, Int32) -> T): (g: seq<T>)
    requires |indices| % 2 == 0
    ensures |g| == |indices| / 2
    ensures forall k :: 0 <= k < |g| ==> g[k] == pair(indices[2 * k], indices[2 * k + 1])
  {
    seq(|indices| / 2, k requires 0 <= k < |indices| / 2 => pair(indices[2 * k], indices[2 * k + 1]))
  }

  /** The lower corner of a cell and the number of cells per side of the world at
      its level. */
  datatype Corner = Corner(minX: real, minY: real, scale: int)

  /** The number of cells per side one level down: `m *= levelSize` (without the
      32-bit wrap-around). */
  function NextScale(scale: int, size: Int32): (m: int)
    requires scale != 0 && size != 0
    ensures m != 0
    ensures scale > 0 && size > 0 ==> m > 0
  {
    ProductSign(scale, size);
    scale * size
  }

  lemma ProductSign(a: int, b: int)
    requires a != 0 && b != 0
    ensures a * b != 0
    ensures a > 0 && b > 0 ==> a * b > 0
  {
  }

  /** The side of a cell `m` cells to a side of the world along a side of `length`. */
  function CellSide(length: real, m: int): real
    requires m != 0
  {
    length / m as real
  }

  /** The lower corner of child (x, y) at level `k` of the cell whose corner is `corner`. */
  function Descend(reference: CellLocationReference, corner: Corner, k: nat, x: Int32, y: Int32): (next: Corner)
    requires k < reference.NumLevels() && reference.HasNonZeroSizes() && corner.scale != 0
    ensures next.scale != 0
    ensures corner.scale > 0 && reference.levelSizes[k] > 0 ==> next.scale > 0
  {
    var m := NextScale(corner.scale, reference.levelSizes[k]);
    Corner(Offset(corner.minX, CellSide(reference.envelope.Width(), m), x),
           Offset(corner.minY, CellSide(reference.envelope.Height(), m), y),
           m)
  }

  /** The lower edge of cell `i` along one axis, for cells of side `side`. */
  function Offset(lo: real, side: real, i: Int32): real {
    lo + side * i as real
  }

  /** The cell index along one axis holding `v`, clamped to `[0, size - 1]`. */
  function Step(lo: real, side: real, size: Int32, v: real): (i: Int32)
    ensures 0 <= i && (size > 0 ==> i < size)
  {
    Clamp(CastDiv(v - lo, side), size)
  }

  /** The lower corner of the cell the first `k` pairs of a path lead to, as
      `envelope` accumulates it. */
  function CellCorner(reference: CellLocationReference, indices: seq<Int32>, k: nat): (c: Corner)
    requires 2 * k <= |indices| && k <= reference.NumLevels() && reference.HasNonZeroSizes()
    ensures c.scale != 0
    ensures reference.HasPositiveSizes() ==> c.scale > 0
  {
    if k == 0 then Corner(reference.envelope.minX, reference.envelope.minY, 1)
    else
      var j := k - 1;
      Descend(reference, CellCorner(reference, indices, j), j, indices[2 * j], indices[2 * j + 1])
  }

  /** `Math.max(0, Math.min(index, levelSize - 1))` in `int` arithmetic. */
  function Clamp(index: Int32, size: Int32): (r: Int32)
    ensures r >= 0
    ensures size > 0 ==> r < size
    ensures size > 0 && 0 <= index < size ==> r == index
  {
    var top := Wrap32(size - 1);
    var low := if index < top then index else top;
    if low > 0 then low else 0
  }

  /** The index of the child at level `k` of the cell at `corner` that holds `c`,
      clamped to the grid, along x and along y. */
  function LocateX(reference: CellLocationReference, corner: Corner, k: nat, c: Coordinate): (i: Int32)
    requires k < reference.NumLevels() && reference.HasNonZeroSizes() && corner.scale != 0
    ensures 0 <= i && (reference.levelSizes[k] > 0 ==> i < reference.levelSizes[k])
  {
    var size := reference.levelSizes[k];
    Step(corner.minX, CellSide(reference.envelope.Width(), NextScale(corner.scale, size)), size, c.x)
  }

  function LocateY(reference: CellLocationReference, corner: Corner, k: nat, c: Coordinate): (i: Int32)
    requires k < reference.NumLevels() && reference.HasNonZeroSizes() && corner.scale != 0
    ensures 0 <= i && (reference.levelSizes[k] > 0 ==> i < reference.levelSizes[k])
  {
    var size := reference.levelSizes[k];
    Step(corner.minY, CellSide(reference.envelope.Height(), NextScale(corner.scale, size)), size, c.y)
  }

  /** The path `fromCoordinate` has built after `k` levels, and the lower corner of
      the cell it leads to. */
  datatype Cursor = Cursor(indices: seq<Int32>, corner: Corner)

  /** The state of `fromCoordinate` after `k` levels: at each level it takes the child
      of the current cell that holds the coordinate, clamped to the grid. */
  function Locate(reference: CellLocationReference, c: Coordinate, k: nat): (r: Cursor)
    requires reference.HasNonZeroSizes() && k <= reference.NumLevels()
    ensures |r.indices| == 2 * k && r.corner.scale != 0
  {
    if k == 0 then Cursor([], Corner(reference.envelope.minX, reference.envelope.minY, 1))
    else
      var prior := Locate(reference, c, k - 1);
      var x := LocateX(reference, prior.corner, k - 1, c);
      var y := LocateY(reference, prior.corner, k - 1, c);
      Cursor(prior.indices + [x, y], Descend(reference, prior.corner, k - 1, x, y))
  }

  /** `fromCoordinate`: the deepest cell holding the coordinate; coordinates outside the
      world envelope land in the nearest edge cell. */
  method FromCoordinate(reference: CellLocationReference, c: Coordinate) returns (loc: CellLocation)
    requires reference.HasNonZeroSizes()
    ensures loc == CellLocation(reference, Locate(reference, c, reference.NumLevels()).indices)
  {
    var levelSizes := reference.levelSizes;
    var locationIndices: seq<Int32> := [];
    var corner := Corner(reference.envelope.minX, reference.envelope.minY, 1);
    for idx := 0 to |levelSizes|
      invariant Locate(reference, c, idx) == Cursor(locationIndices, corner)
    {
      var x := LocateX(reference, corner, idx, c);
      var y := LocateY(reference, corner, idx, c);
      locationIndices := locationIndices + [x, y];
      corner := Descend(reference, corner, idx, x, y);
    }
    loc := CellLocation(reference, locationIndices);
  }

  /** One pair of an attribute value, at level `k`: two comma-separated `int`s, each in
      `[0, levelSize(k))`. */
  function ParseGroup(reference: CellLocationReference, group: string, k: nat): (r: Result<seq<Int32>>)
    requires k < reference.NumLevels()
    ensures r.Ok? ==> |r.value| == 2
    ensures r.Ok? ==> 0 <= r.value[0] < reference.levelSizes[k] && 0 <= r.value[1] < reference.levelSizes[k]
  {
    var tokens := Split(group, ',');
    if |tokens| != 2 then Err(GroupSize(k))
    else
      match ParseInt(tokens[0])
      case Err(e) => Err(e)
      case Ok(x) =>
        match ParseInt(tokens[1])
        case Err(e) => Err(e)
        case Ok(y) =>
          var size := reference.levelSizes[k];
          if x < 0 || x >= size || y < 0 || y >= size then Err(GroupValue(k)) else Ok([x, y])
  }

  /** Each group of an attribute value parsed on its own, at its own level. */
  function GroupResults(reference: CellLocationReference, groups: seq<string>): (r: seq<Result<seq<Int32>>>)
    requires |groups| <= reference.NumLevels()
    ensures |r| == |groups|
    ensures forall k :: 0 <= k < |groups| ==> r[k] == ParseGroup(reference, groups[k], k)
  {
    seq(|groups|, k requires 0 <= k < |groups| => ParseGroup(reference, groups[k], k))
  }

  /** The first `n` parsed groups in order, concatenated; the first failing group
      decides the error. */
  function Collect(results: seq<Result<seq<Int32>>>, n: nat): Result<seq<Int32>>
    requires n <= |results|
  {
    if n == 0 then Ok([])
    else
      match Collect(results, n - 1)
      case Err(e) => Err(e)
      case Ok(v) =>
        match results[n - 1]
        case Err(e) => Err(e)
        case Ok(pair) => Ok(v + pair)
  }

  /** What `fromAttributeValue` returns or raises. */
  function ParseAttributeValue(reference: CellLocationReference, value: string): Result<CellLocation> {
    var groups := Split(value, ';');
    if |groups| < 1 || |groups| > reference.NumLevels() then Err(UnexpectedSize)
    else
      match Collect(GroupResults(reference, groups), |groups|)
      case Err(e) => Err(e)
      case Ok(v) => Ok(CellLocation(reference, v))
  }

  /** `fromAttributeValue`: split on ";", then parse each group in turn. */
  method FromAttributeValue(reference: CellLocationReference, value: string) returns (r: Result<CellLocation>)
    ensures r == ParseAttributeValue(reference, value)
  {
    var groups := Split(value, ';');
    if |groups| < 1 || |groups| > reference.NumLevels() {
      return Err(UnexpectedSize);
    }
    var indices := ParseIndices(reference, groups);
    match indices
    case Err(e) => return Err(e);
    case Ok(v) => return Ok(CellLocation(reference, v));
  }

  /** The loop of `fromAttributeValue`: the groups parsed in order, the first failing
      group deciding the error. */
  method ParseIndices(reference: CellLocationReference, groups: seq<string>) returns (r: Result<seq<Int32>>)
    requires |groups| <= reference.NumLevels()
    ensures r == Collect(GroupResults(reference, groups), |groups|)
  {
    ghost var results := GroupResults(reference, groups);
    var locationIndices: seq<Int32> := [];
    for idx := 0 to |groups|
      invariant Collect(results, idx) == Ok(locationIndices)
    {
      var group := ParseGroup(reference, groups[idx], idx);
      if group.Err? {
        FirstFailure(results, idx, |groups|);
        return Err(group.error);
      }
      locationIndices := locationIndices + group.value;
    }
    return Ok(locationIndices);
  }

  /** Once result `k` fails after good results, collecting more keeps its error. */
  lemma {:induction false} FirstFailure(results: seq<Result<seq<Int32>>>, k: nat, n: nat)
    requires k < n <= |results|
    requires Collect(results, k).Ok? && results[k].Err?
    ensures Collect(results, n) == Err(results[k].error)
    decreases n
  {
    if n > k + 1 {
      FirstFailure(results, k, n - 1);
    }
  }

  /** The collection succeeds exactly when every result does, and then it is their
      concatenation in order. */
  lemma {:induction false} CollectOk(results: seq<Result<seq<Int32>>>, n: nat)
    requires n <= |results|
    ensures Collect(results, n).Ok? <==> forall k :: 0 <= k < n ==> results[k].Ok?
    decreases n
  {
    if n > 0 {
      CollectOk(results, n - 1);
    }
  }

  /** When the collection fails, its error is that of the first failing result. */
  lemma {:induction false} CollectErr(results: seq<Result<seq<Int32>>>, n: nat)
    requires n <= |results| && Collect(results, n).Err?
    ensures exists k :: 0 <= k < n && results[k].Err? && Collect(results, k).Ok? &&
                        Collect(results, n).error == results[k].error
    decreases n
  {
    if Collect(results, n - 1).Err? {
      CollectErr(results, n - 1);
      var k :| 0 <= k < n - 1 && results[k].Err? && Collect(results, k).Ok? &&
               Collect(results, n - 1).error == results[k].error;
    } else {
      assert results[n - 1].Err? && Collect(results, n - 1).Ok?;
    }
  }

  /** A child is one level deeper, on the same reference, and its parent is the
      location it came from. */
  lemma ChildParent(loc: CellLocation, x: Int32, y: Int32)
    requires loc.Valid() && loc.Level() < loc.reference.NumLevels()
    ensures loc.Child(x, y).Ok?
    ensures loc.Child(x, y).value.Valid()
    ensures loc.Child(x, y).value.reference == loc.reference
    ensures loc.Child(x, y).value.Level() == loc.Level() + 1
    ensures loc.Child(x, y).value.Parent() == Some(loc)
  {
    var child := loc.Child(x, y).value;
    assert child.indices[..|child.indices| - 2] == loc.indices;
  }

  /** Only the root has no parent; any other location is the child of its parent
      along its last pair. */
  lemma ParentChild(loc: CellLocation)
    requires loc.Valid()
    ensures loc.Parent().None? <==> loc.Level() == 0
    ensures loc.Parent().Some? ==>
      var parent := loc.Parent().value;
      parent.Valid() && parent.Level() == loc.Level() - 1 &&
      parent.Child(loc.indices[|loc.indices| - 2], loc.indices[|loc.indices| - 1]) == Ok(loc)
  {
    if loc.Parent().Some? {
      var n := |loc.indices|;
      assert loc.indices[..n - 2] + [loc.indices[n - 2], loc.indices[n - 1]] == loc.indices;
    }
  }

  /** The root: level 0, no parent, written "" by `attributeValue` and "[]" by
      `toString`. */
  lemma RootFacts(reference: CellLocationReference)
    ensures Root(reference).Parent() == None
    ensures Serialized(Root(reference).indices) == ""
    ensures Described(Root(reference).indices) == "[]"
  {
  }

  /** `equals` is equality of the modelled values. */
  lemma EqualsIsEquality(a: CellLocation, b: CellLocation)
    ensures a.Equals(b) <==> a == b
  {
    CellReference.EqualsIsEquality(a.reference, b.reference);
    if a.Equals(b) {
      assert a.indices == b.indices;
    }
  }

  /** Equal locations have equal hash codes. */
  lemma EqualsHashCode(a: CellLocation, b: CellLocation, envelopeHash: Envelope -> Int32)
    requires a.Equals(b)
    ensures a.HashCode(envelopeHash) == b.HashCode(envelopeHash)
  {
    EqualsIsEquality(a, b);
  }

  /** `toString` and `attributeValue` of single digits. */
  lemma SmallNumbers()
    ensures IntToString(0) == "0" && IntToString(1) == "1"
  {
    assert DigitChar(0) == '0' && DigitChar(1) == '1';
  }

  /** The grandchild (1, 0), (1, 1) is written "1,0;1,1;". */
  lemma GrandchildValue()
    ensures Serialized([1, 0, 1, 1]) == "1,0;1,1;"
  {
    SmallNumbers();
    var s: seq<Int32> := [1, 0, 1, 1];
    assert s[..3] == [1, 0, 1] && s[..3][..2] == s[..2] == [1, 0] && s[..2][..1] == s[..1] == [1];
    assert Serialized(s[..1]) == "1,";
    assert Serialized(s[..2]) == "1,0;";
    assert Serialized(s[..3]) == "1,0;1,";
  }

  /** A cell whose level size is negative has its bounds mirrored: the first child of
      a 10 by 10 world split -2 ways lies below and left of the world's corner, and
      its envelope sorts the bounds as `ReferencedEnvelope` does. */
  lemma NegativeSizeExtent(crs: Crs)
    ensures var loc := CellLocation(CellLocationReference(Geometry.Envelope(0.0, 10.0, 0.0, 10.0, crs), [-2]), [0, 0]);
      loc.Valid() && loc.Extent() == Geometry.Envelope(-5.0, 0.0, -5.0, 0.0, crs) &&
      loc.Extent().Covers(Coordinate(-1.0, -1.0))
  {
    var reference := CellLocationReference(Geometry.Envelope(0.0, 10.0, 0.0, 10.0, crs), [-2]);
    var loc := CellLocation(reference, [0, 0]);
    assert loc.Level() == 1;
    var root := CellCorner(reference, loc.indices, 0);
    assert root == Corner(0.0, 0.0, 1);
    assert NextScale(1, -2) == -2;
    assert CellSide(reference.envelope.Width(), -2) == -5.0;
    assert CellCorner(reference, loc.indices, 1) == Descend(reference, root, 0, 0, 0) == Corner(0.0, 0.0, -2);
  }

  /** The grandchild (1, 0), (1, 1) is shown as "[1,0 1,1]". */
  lemma GrandchildString()
    ensures Described([1, 0, 1, 1]) == "[1,0 1,1]"
  {
    SmallNumbers();
    var s: seq<Int32> := [1, 0, 1, 1];
    assert DescribedBody(s, 1) == "1,";
    assert DescribedBody(s, 2) == "1,0 ";
    assert DescribedBody(s, 3) == "1,0 1,";
  }

  /** What one group parses to: a pair in range of its level, or the first of a wrong
      number of tokens, a token that is not an `int`, or an index out of range. */
  lemma ParseGroupCases(reference: CellLocationReference, group: string, k: nat)
    requires k < reference.NumLevels()
    ensures var tokens := Split(group, ',');
      var r := ParseGroup(reference, group, k);
      (r.Ok? <==> |tokens| == 2 && ParseInt(tokens[0]).Ok? && ParseInt(tokens[1]).Ok? &&
                  0 <= ParseInt(tokens[0]).value < reference.levelSizes[k] &&
                  0 <= ParseInt(tokens[1]).value < reference.levelSizes[k]) &&
      (r.Ok? ==> r.value == [ParseInt(tokens[0]).value, ParseInt(tokens[1]).value]) &&
      (r.Err? ==> (r.error == GroupSize(k) <==> |tokens| != 2)) &&
      (r.Err? ==> r.error in {GroupSize(k), NumberFormat, GroupValue(k)})
  {
  }

  /** Collecting results that each hold one pair lays the pairs out in order. */
  lemma {:induction false} CollectPairs(results: seq<Result<seq<Int32>>>, n: nat)
    requires n <= |results|
    requires forall k :: 0 <= k < n ==> results[k].Ok? ==> |results[k].value| == 2
    ensures Collect(results, n).Ok? ==>
      var v := Collect(results, n).value;
      |v| == 2 * n &&
      forall k :: 0 <= k < n ==> results[k].Ok? && v[2 * k] == results[k].value[0] && v[2 * k + 1] == results[k].value[1]
    decreases n
  {
    if n > 0 {
      CollectPairs(results, n - 1);
      if Collect(results, n).Ok? {
        var v := Collect(results, n).value;
        var prior := Collect(results, n - 1).value;
        assert v == prior + results[n - 1].value;
      }
    }
  }

  /** The last two indices of a whole path are written "x,y;". */
  lemma SerializedLastPair(indices: seq<Int32>)
    requires |indices| >= 2 && |indices| % 2 == 0
    ensures Serialized(indices)
         == Serialized(indices[..|indices| - 2]) + Pair(indices[|indices| - 2], indices[|indices| - 1]) + ";"
  {
    var n := |indices|;
    SerializedOpen(indices);
    SerializedClose(indices);
    Regroup(Serialized(indices[..n - 2]), IntToString(indices[n - 2]), ",", IntToString(indices[n - 1]));
  }

  /** Before the last index of a whole path, its x index was written with ",". */
  lemma SerializedOpen(indices: seq<Int32>)
    requires |indices| >= 2 && |indices| % 2 == 0
    ensures Serialized(indices[..|indices| - 1])
         == Serialized(indices[..|indices| - 2]) + IntToString(indices[|indices| - 2]) + ","
  {
    var n := |indices|;
    var t := indices[..n - 1];
    SerializedStep(t);
    PrefixOfPrefix(indices, n - 2, n - 1);
    Parity(n);
  }

  /** A whole path ends with its y index and ";". */
  lemma SerializedClose(indices: seq<Int32>)
    requires |indices| >= 2 && |indices| % 2 == 0
    ensures Serialized(indices) == Serialized(indices[..|indices| - 1]) + IntToString(indices[|indices| - 1]) + ";"
  {
    SerializedStep(indices);
    Parity(|indices|);
  }

  /** The last index of a path is written after the rest of it, followed by "," if it
      is an x index and ";" if it is a y index. */
  lemma SerializedStep(indices: seq<Int32>)
    requires |indices| >= 1
    ensures Serialized(indices) == Serialized(indices[..|indices| - 1]) + IntToString(indices[|indices| - 1]) +
                                   (if (|indices| - 1) % 2 == 0 then "," else ";")
  {
  }

  lemma PrefixOfPrefix<T>(s: seq<T>, a: nat, b: nat)
    requires a < b <= |s|
    ensures s[..b][..a] == s[..a] && s[..b][a] == s[a]
  {
  }

  lemma Halves(n: nat)
    ensures (2 * n) % 2 == 0 && (2 * n) / 2 == n
  {
  }

  lemma Parity(n: int)
    requires n % 2 == 0
    ensures (n - 1) % 2 == 1 && (n - 2) % 2 == 0
  {
  }

  lemma Regroup(s: string, a: string, b: string, c: string)
    ensures s + a + b + c == s + (a + b + c)
  {
  }

  /** Dropping the last pair of a path drops its last group. */
  lemma GroupsInit(indices: seq<Int32>)
    requires |indices| >= 2 && |indices| % 2 == 0
    ensures var g := Groups(indices);
      g[..|g| - 1] == Groups(indices[..|indices| - 2]) &&
      g[|g| - 1] == Pair(indices[|indices| - 2], indices[|indices| - 1])
  {
    GroupedInit(indices, Pair);
  }

  lemma GroupedInit<T>(indices: seq<Int32>, pair: (Int32, Int32) -> T)
    requires |indices| >= 2 && |indices| % 2 == 0
    ensures var g := Grouped(indices, pair);
      g[..|g| - 1] == Grouped(indices[..|indices| - 2], pair) &&
      g[|g| - 1] == pair(indices[|indices| - 2], indices[|indices| - 1])
  {
    var h := |indices| / 2;
    var init := indices[..|indices| - 2];
    assert |indices| == 2 * h && |init| == 2 * (h - 1);
    Halves(h - 1);
    var g, gi := Grouped(indices, pair), Grouped(init, pair);
    forall k | 0 <= k < h - 1 ensures g[k] == gi[k] {
      assert init[2 * k] == indices[2 * k] && init[2 * k + 1] == indices[2 * k + 1];
    }
  }

  /** `attributeValue` writes the pairs as "x,y", each followed by ";". */
  lemma {:induction false} SerializedGroups(indices: seq<Int32>)
    requires |indices| % 2 == 0
    ensures Serialized(indices) == Terminated(Groups(indices), ';')
    decreases |indices|
  {
    if |indices| > 0 {
      var n := |indices|;
      SerializedGroups(indices[..n - 2]);
      SerializedLastPair(indices);
      var g, init := Groups(indices), indices[..n - 2];
      GroupsInit(indices);
      assert g[..|g| - 1] == Groups(init);
    }
  }

  /** A pair written "x,y" holds no character other than digits, signs and the comma. */
  lemma PairFree(x: Int32, y: Int32, c: char)
    requires c != '-' && c != ',' && !IsDigit(c)
    ensures c !in Pair(x, y)
  {
    IntToStringFree(x, c);
    IntToStringFree(y, c);
  }

  /** A pair written "x,y" parses back at its level when both indices are in range. */
  lemma PairParses(reference: CellLocationReference, x: Int32, y: Int32, k: nat)
    requires k < reference.NumLevels()
    requires 0 <= x < reference.levelSizes[k] && 0 <= y < reference.levelSizes[k]
    ensures ParseGroup(reference, Pair(x, y), k) == Ok([x, y])
  {
    var parts := [IntToString(x), IntToString(y)];
    assert Join(parts, ',') == Pair(x, y);
    IntToStringFree(x, ',');
    IntToStringFree(y, ',');
    SplitJoin(parts, ',');
    ParseIntToString(x);
    ParseIntToString(y);
  }

  /** Splitting what `attributeValue` wrote on ";" gives back its groups. */
  lemma SplitSerialized(indices: seq<Int32>)
    requires |indices| >= 2 && |indices| % 2 == 0
    ensures Split(Serialized(indices), ';') == Groups(indices)
  {
    var g := Groups(indices);
    SerializedGroups(indices);
    TerminatedJoin(g, ';');
    forall k | 0 <= k < |g| ensures ';' !in g[k] {
      PairFree(indices[2 * k], indices[2 * k + 1], ';');
    }
    SplitJoinTrailing(g, ';');
  }

  /** The groups of a location whose indices are in range parse back to its indices. */
  lemma CollectGroups(loc: CellLocation)
    requires loc.Valid() && loc.InRange()
    ensures Collect(GroupResults(loc.reference, Groups(loc.indices)), loc.Level()) == Ok(loc.indices)
  {
    var indices := loc.indices;
    var g := Groups(indices);
    var results := GroupResults(loc.reference, g);
    forall k | 0 <= k < |g| ensures results[k] == Ok([indices[2 * k], indices[2 * k + 1]]) {
      PairParses(loc.reference, indices[2 * k], indices[2 * k + 1], k);
    }
    CollectLaidOut(results, indices, |g|);
    assert indices[..2 * |g|] == indices;
  }

  /** Results that hold the consecutive pairs of `v` collect to the start of `v`. */
  lemma {:induction false} CollectLaidOut(results: seq<Result<seq<Int32>>>, v: seq<Int32>, n: nat)
    requires n <= |results| && 2 * n <= |v|
    requires forall k :: 0 <= k < n ==> results[k] == Ok([v[2 * k], v[2 * k + 1]])
    ensures Collect(results, n) == Ok(v[..2 * n])
    decreases n
  {
    if n > 0 {
      CollectLaidOut(results, v, n - 1);
      assert v[..2 * n] == v[..2 * (n - 1)] + [v[2 * (n - 1)], v[2 * (n - 1) + 1]];
    }
  }

  /** `fromAttributeValue` reads back what `attributeValue` wrote, for every location
      below the root whose indices are in range. */
  lemma AttributeValueRoundTrip(loc: CellLocation)
    requires loc.Valid() && loc.InRange() && loc.Level() >= 1
    ensures ParseAttributeValue(loc.reference, Serialized(loc.indices)) == Ok(loc)
  {
    SplitSerialized(loc.indices);
    CollectGroups(loc);
  }

  /** The root writes "", which no reference reads back: it is one empty group, which
      is too many groups without levels and a group of the wrong size otherwise. */
  lemma RootValue(reference: CellLocationReference)
    ensures reference.NumLevels() == 0 ==> ParseAttributeValue(reference, Serialized([])) == Err(UnexpectedSize)
    ensures reference.NumLevels() >= 1 ==> ParseAttributeValue(reference, Serialized([])) == Err(GroupSize(0))
  {
    assert Split("", ';') == [""];
    if reference.NumLevels() >= 1 {
      assert Split("", ',') == [""];
      var results := GroupResults(reference, [""]);
      assert results[0] == Err(GroupSize(0));
      assert Collect(results, 1) == Err(GroupSize(0));
    }
  }

  /** When `fromAttributeValue` accepts a value: the number of groups is between one
      and the number of levels, and every group parses. */
  lemma ParseAttributeValueOk(reference: CellLocationReference, value: string)
    ensures var groups := Split(value, ';');
      (|groups| < 1 || |groups| > reference.NumLevels()) ==>
        ParseAttributeValue(reference, value) == Err(UnexpectedSize)
    ensures var groups := Split(value, ';');
      1 <= |groups| <= reference.NumLevels() ==>
        (ParseAttributeValue(reference, value).Ok? <==>
          forall k :: 0 <= k < |groups| ==> ParseGroup(reference, groups[k], k).Ok?)
  {
    var groups := Split(value, ';');
    if 1 <= |groups| <= reference.NumLevels() {
      CollectOk(GroupResults(reference, groups), |groups|);
    }
  }

  /** A failing attribute value reports the error of its first failing group. */
  lemma ParseAttributeValueFirstError(reference: CellLocationReference, value: string)
    requires ParseAttributeValue(reference, value).Err?
    ensures var groups := Split(value, ';');
      (|groups| < 1 || |groups| > reference.NumLevels()) ||
        exists k :: 0 <= k < |groups| &&
          (forall j :: 0 <= j < k ==> ParseGroup(reference, groups[j], j).Ok?) &&
          ParseGroup(reference, groups[k], k) == Err(ParseAttributeValue(reference, value).error)
  {
    var groups := Split(value, ';');
    if 1 <= |groups| <= reference.NumLevels() {
      var results := GroupResults(reference, groups);
      CollectErr(results, |groups|);
      var k :| 0 <= k < |groups| && results[k].Err? && Collect(results, k).Ok? &&
        Collect(results, |groups|).error == results[k].error;
      CollectOk(results, k);
    }
  }

  /** A parsed attribute value is a valid location with one level per group, every
      index in its level's grid. */
  lemma ParseAttributeValueValid(reference: CellLocationReference, value: string)
    requires ParseAttributeValue(reference, value).Ok?
    ensures var loc := ParseAttributeValue(reference, value).value;
      loc.reference == reference && loc.Valid() && loc.InRange() && loc.Level() == |Split(value, ';')| >= 1
  {
    var groups := Split(value, ';');
    var v := Collect(GroupResults(reference, groups), |groups|).value;
    assert ParseAttributeValue(reference, value) == Ok(CellLocation(reference, v));
    CollectInRange(reference, groups);
  }

  /** The groups of an attribute value, once all parsed, form a location in range. */
  lemma CollectInRange(reference: CellLocationReference, groups: seq<string>)
    requires |groups| <= reference.NumLevels()
    requires Collect(GroupResults(reference, groups), |groups|).Ok?
    ensures |Collect(GroupResults(reference, groups), |groups|).value| == 2 * |groups|
    ensures var loc := CellLocation(reference, Collect(GroupResults(reference, groups), |groups|).value);
      loc.Valid() && loc.Level() == |groups|
    ensures var loc := CellLocation(reference, Collect(GroupResults(reference, groups), |groups|).value);
      loc.Valid() && loc.InRange()
  {
    var results := GroupResults(reference, groups);
    CollectPairs(results, |groups|);
    var v := Collect(results, |groups|).value;
    Halves(|groups|);
    forall k | 0 <= k < |groups|
      ensures 0 <= v[2 * k] < reference.levelSizes[k] && 0 <= v[2 * k + 1] < reference.levelSizes[k]
    {
      var pair := ParseGroup(reference, groups[k], k);
      assert results[k] == pair && pair.Ok?;
      assert v[2 * k] == pair.value[0] && v[2 * k + 1] == pair.value[1];
    }
  }



  /** Along one axis: a value within a span of `size` cells of side `side` starting at
      `lo` lies within the cell `fromCoordinate` picks for it, even when it sits on the
      far border and the index has to be clamped. */
  lemma AxisStep(lo: real, side: real, size: Int32, v: real)
    requires side > 0.0 && size > 0
    requires lo <= v <= lo + side * size as real
    ensures InSpan(Offset(lo, side, Step(lo, side, size, v)), side, v)
  {
    var d := v - lo;
    Quotient(d, side, size as real);
    CastDivFloor(d, side);
    var f := CastDiv(d, side);
    assert Step(lo, side, size, v) == Clamp(f, size);
    ClampSpan(lo, v, side, size, f, d / side);
  }

  /** The quotient of a distance within `bound` cells by the cell side. */
  lemma Quotient(d: real, side: real, bound: real)
    requires side > 0.0 && 0.0 <= d <= side * bound
    ensures 0.0 <= d / side <= bound && d / side * side == d
  {
    var q := d / side;
    if q > bound {
      MultiplyLess(side, bound, q);
    }
  }

  /** Cell `Clamp(f, size)`, where `f` is the whole part of `q = (v - lo) / side`,
      spans `v`. */
  lemma ClampSpan(lo: real, v: real, side: real, size: Int32, f: Int32, q: real)
    requires side > 0.0 && size > 0 && 0.0 <= q <= size as real && q * side == v - lo
    requires 0 <= f && f as real <= q < f as real + 1.0
    ensures InSpan(Offset(lo, side, Clamp(f, size)), side, v)
  {
    var d := v - lo;
    assert d == side * q;
    if f <= size - 1 {
      assert Clamp(f, size) == f;
      MultiplyLess(side, f as real, q);
      MultiplyLess(side, q, f as real + 1.0);
      assert side * (f as real + 1.0) == side * f as real + side;
    } else {
      assert Clamp(f, size) == size - 1 && q == size as real;
      assert side * size as real == side * (size - 1) as real + side;
    }
  }


  lemma MultiplyLess(c: real, a: real, b: real)
    requires c > 0.0
    ensures a <= b ==> c * a <= c * b
    ensures a < b ==> c * a < c * b
  {
  }

  /** A cell one level down is `size` times narrower. */
  lemma SideSplit(length: real, scale: int, size: Int32)
    requires scale > 0 && size > 0
    ensures CellSide(length, scale) == CellSide(length, NextScale(scale, size)) * size as real
  {
    var m := NextScale(scale, size);
    var side := CellSide(length, m);
    assert side * m as real == length;
    assert m as real == scale as real * size as real;
    assert (side * size as real) * scale as real == length;
  }

  /** The coordinate lies in the cell whose lower corner is `corner`. */
  predicate Within(reference: CellLocationReference, corner: Corner, c: Coordinate) {
    corner.scale > 0 &&
    InSpan(corner.minX, CellSide(reference.envelope.Width(), corner.scale), c.x) &&
    InSpan(corner.minY, CellSide(reference.envelope.Height(), corner.scale), c.y)
  }

  /** `v` lies between `lo` and `lo + side`, borders included. */
  predicate InSpan(lo: real, side: real, v: real) {
    lo <= v <= lo + side
  }

  /** One level of `fromCoordinate` along one axis, in terms of the cell sides. */
  lemma AxisWithin(lo: real, length: real, scale: int, size: Int32, v: real)
    requires length > 0.0 && scale > 0 && size > 0
    requires InSpan(lo, CellSide(length, scale), v)
    ensures var m := NextScale(scale, size);
      InSpan(Offset(lo, CellSide(length, m), Step(lo, CellSide(length, m), size, v)), CellSide(length, m), v)
  {
    SideSplit(length, scale, size);
    var side := CellSide(length, NextScale(scale, size));
    assert side > 0.0;
    AxisStep(lo, side, size, v);
  }


  /** One level of `fromCoordinate` keeps the coordinate inside the current cell. */
  lemma DescendWithin(reference: CellLocationReference, corner: Corner, k: nat, c: Coordinate)
    requires k < reference.NumLevels() && reference.HasPositiveSizes()
    requires reference.envelope.Width() > 0.0 && reference.envelope.Height() > 0.0
    requires Within(reference, corner, c)
    ensures Within(reference, Descend(reference, corner, k, LocateX(reference, corner, k, c), LocateY(reference, corner, k, c)), c)
  {
    var size := reference.levelSizes[k];
    AxisWithin(corner.minX, reference.envelope.Width(), corner.scale, size, c.x);
    AxisWithin(corner.minY, reference.envelope.Height(), corner.scale, size, c.y);
  }

  /** At every level, the cell `fromCoordinate` has reached holds a coordinate taken
      from inside the world envelope. */
  lemma {:induction false} LocateWithin(reference: CellLocationReference, c: Coordinate, k: nat)
    requires k <= reference.NumLevels() && reference.HasPositiveSizes()
    requires reference.envelope.Width() > 0.0 && reference.envelope.Height() > 0.0
    requires reference.envelope.Covers(c)
    ensures Within(reference, Locate(reference, c, k).corner, c)
  {
    if k > 0 {
      LocateWithin(reference, c, k - 1);
      DescendWithin(reference, Locate(reference, c, k - 1).corner, k - 1, c);
    }
  }

  /** The corner of a cell depends only on the pairs that lead to it. */
  lemma {:induction false} CellCornerPrefix(reference: CellLocationReference, indices: seq<Int32>, more: seq<Int32>, k: nat)
    requires 2 * k <= |indices| && k <= reference.NumLevels() && reference.HasNonZeroSizes()
    ensures CellCorner(reference, indices + more, k) == CellCorner(reference, indices, k)
  {
    if k > 0 {
      CellCornerPrefix(reference, indices, more, k - 1);
      var j := k - 1;
      assert (indices + more)[2 * j] == indices[2 * j] && (indices + more)[2 * j + 1] == indices[2 * j + 1];
    }
  }

  /** The corner `fromCoordinate` tracks is the corner `envelope` computes for the
      path built so far. */
  lemma {:induction false} LocateCorner(reference: CellLocationReference, c: Coordinate, k: nat)
    requires reference.HasNonZeroSizes() && k <= reference.NumLevels()
    ensures Locate(reference, c, k).corner == CellCorner(reference, Locate(reference, c, k).indices, k)
  {
    if k > 0 {
      var prior := Locate(reference, c, k - 1);
      LocateCorner(reference, c, k - 1);
      var x := LocateX(reference, prior.corner, k - 1, c);
      var y := LocateY(reference, prior.corner, k - 1, c);
      var indices := prior.indices + [x, y];
      CellCornerPrefix(reference, prior.indices, [x, y], k - 1);
      assert indices[2 * (k - 1)] == x && indices[2 * (k - 1) + 1] == y;
    }
  }

  /** Appending a pair in the grid of the next level keeps a location in range. */
  lemma InRangeAppend(loc: CellLocation, x: Int32, y: Int32)
    requires loc.Valid() && loc.InRange() && loc.Level() < loc.reference.NumLevels()
    requires 0 <= x < loc.reference.levelSizes[loc.Level()] && 0 <= y < loc.reference.levelSizes[loc.Level()]
    ensures var next := CellLocation(loc.reference, loc.indices + [x, y]);
      next.Valid() && next.Level() == loc.Level() + 1 && next.InRange()
  {
    var next := CellLocation(loc.reference, loc.indices + [x, y]);
    forall j | 0 <= j < next.Level()
      ensures 0 <= next.indices[2 * j] < loc.reference.levelSizes[j]
      ensures 0 <= next.indices[2 * j + 1] < loc.reference.levelSizes[j]
    {
      if j < loc.Level() {
        assert next.indices[2 * j] == loc.indices[2 * j] && next.indices[2 * j + 1] == loc.indices[2 * j + 1];
      }
    }
  }

  /** Every index `fromCoordinate` chooses lies in the grid of its level. */
  lemma {:induction false} LocateInRange(reference: CellLocationReference, c: Coordinate, k: nat)
    requires k <= reference.NumLevels() && reference.HasPositiveSizes()
    ensures var loc := CellLocation(reference, Locate(reference, c, k).indices);
      loc.Valid() && loc.Level() == k && loc.InRange()
  {
    if k > 0 {
      LocateInRange(reference, c, k - 1);
      var prior := Locate(reference, c, k - 1);
      var x := LocateX(reference, prior.corner, k - 1, c);
      var y := LocateY(reference, prior.corner, k - 1, c);
      var loc := CellLocation(reference, prior.indices);
      assert loc.Valid() && loc.InRange() && loc.Level() == k - 1;
      assert 0 <= x < reference.levelSizes[k - 1] && 0 <= y < reference.levelSizes[k - 1];
      InRangeAppend(loc, x, y);
    }
  }

  /** `fromCoordinate` on a coordinate inside the world envelope yields a cell at the
      deepest level whose envelope covers the coordinate. */
  lemma FromCoordinateCovers(reference: CellLocationReference, c: Coordinate)
    requires reference.HasPositiveSizes()
    requires reference.envelope.Width() > 0.0 && reference.envelope.Height() > 0.0
    requires reference.envelope.Covers(c)
    ensures var loc := CellLocation(reference, Locate(reference, c, reference.NumLevels()).indices);
      loc.Valid() && loc.InRange() && loc.Level() == reference.NumLevels() && loc.Extent().Covers(c)
  {
    var n := reference.NumLevels();
    LocateInRange(reference, c, n);
    LocateWithin(reference, c, n);
    LocateCorner(reference, c, n);
  }

  /** The corner of child (x, y) of a cell is one `Descend` from the cell's corner. */
  lemma ChildCorner(loc: CellLocation, x: Int32, y: Int32)
    requires loc.Valid() && loc.reference.HasNonZeroSizes() && loc.Level() < loc.reference.NumLevels()
    ensures var child := CellLocation(loc.reference, loc.indices + [x, y]);
      child.Valid() && child.Level() == loc.Level() + 1 &&
      CellCorner(loc.reference, child.indices, child.Level())
        == Descend(loc.reference, CellCorner(loc.reference, loc.indices, loc.Level()), loc.Level(), x, y)
  {
    var k := loc.Level();
    var indices := loc.indices + [x, y];
    assert |indices| == 2 * (k + 1);
    Halves(k + 1);
    CellCornerPrefix(loc.reference, loc.indices, [x, y], k);
    assert indices[2 * k] == x && indices[2 * k + 1] == y;
  }

  /** The upper edge of cell `i` along an axis is the lower edge of cell `i + 1`. */
  lemma OffsetNext(lo: real, side: real, i: Int32)
    requires i < MaxInt32
    ensures Offset(lo, side, i) + side == Offset(lo, side, i + 1)
  {
  }

  /** Neighbouring children share an edge: (x, y) and (x + 1, y) meet on a vertical
      edge and span the same rows, and (x, y) and (x, y + 1) meet on a horizontal edge
      and span the same columns. With positive level sizes over a world of non-negative
      width and height, (x + 1, y) lies to the right of (x, y) and (x, y + 1) above it;
      a negative level size mirrors the order of the children. */
  lemma SiblingEdges(loc: CellLocation, x: Int32, y: Int32)
    requires loc.Valid() && loc.reference.HasNonZeroSizes() && loc.Level() < loc.reference.NumLevels()
    requires x < MaxInt32 && y < MaxInt32
    ensures var left, right := CellLocation(loc.reference, loc.indices + [x, y]), CellLocation(loc.reference, loc.indices + [x + 1, y]);
      left.Valid() && right.Valid() &&
      (left.Extent().maxX == right.Extent().minX || left.Extent().minX == right.Extent().maxX) &&
      left.Extent().minY == right.Extent().minY && left.Extent().maxY == right.Extent().maxY
    ensures var bottom, top := CellLocation(loc.reference, loc.indices + [x, y]), CellLocation(loc.reference, loc.indices + [x, y + 1]);
      bottom.Valid() && top.Valid() &&
      (bottom.Extent().maxY == top.Extent().minY || bottom.Extent().minY == top.Extent().maxY) &&
      bottom.Extent().minX == top.Extent().minX && bottom.Extent().maxX == top.Extent().maxX
    ensures loc.reference.HasPositiveSizes() && loc.reference.envelope.Width() >= 0.0 ==>
      CellLocation(loc.reference, loc.indices + [x, y]).Extent().maxX
        == CellLocation(loc.reference, loc.indices + [x + 1, y]).Extent().minX
    ensures loc.reference.HasPositiveSizes() && loc.reference.envelope.Height() >= 0.0 ==>
      CellLocation(loc.reference, loc.indices + [x, y]).Extent().maxY
        == CellLocation(loc.reference, loc.indices + [x, y + 1]).Extent().minY
  {
    var reference, k := loc.reference, loc.Level();
    var corner := CellCorner(reference, loc.indices, k);
    var m := NextScale(corner.scale, reference.levelSizes[k]);
    ChildCorner(loc, x, y);
    ChildCorner(loc, x + 1, y);
    ChildCorner(loc, x, y + 1);
    var w, h := CellSide(reference.envelope.Width(), m), CellSide(reference.envelope.Height(), m);
    OffsetNext(corner.minX, w, x);
    OffsetNext(corner.minY, h, y);
    if reference.HasPositiveSizes() {
      assert m > 0;
      SideSign(reference.envelope.Width(), m);
      SideSign(reference.envelope.Height(), m);
    }
  }

  /** A cell's side has the sign of the world's side when the scale is positive. */
  lemma SideSign(length: real, m: int)
    requires m > 0
    ensures length >= 0.0 ==> CellSide(length, m) >= 0.0
  {
  }
}
