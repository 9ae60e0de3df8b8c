/** The reference of a cell index: the bounding envelope of the indexed data and the
    branching factor of each level of the grid. Its attribute name ("GI" followed by
    the level sizes joined by "_") is how a shapefile schema records the index. */
module CellReference {
  import opened Common
  import opened Text
  import opened Geometry

  /** The prefix that marks an indexing attribute in a schema. */
  const AttributePrefix: string := "GI"

  datatype CellLocationReference = CellLocationReference(envelope: Envelope, levelSizes: seq<Int32>)
  {
    /** The maximum depth of the index. */
    function NumLevels(): nat {
      |levelSizes|
    }

    /** The branching factor of a level; reading past the array raises. */
    function GetLevelSize(level: int): (r: Result<Int32>)
      ensures r.Ok? <==> 0 <= level < NumLevels()
      ensures r.Ok? ==> r.value == levelSizes[level]
      ensures r.Err? ==> r.error == IndexOutOfBounds
    {
      if 0 <= level < |levelSizes| then Ok(levelSizes[level]) else Err(IndexOutOfBounds)
    }

    /** No level has branching factor zero, so every cell has a finite size. */
    predicate HasNonZeroSizes() {
      forall i :: 0 <= i < |levelSizes| ==> levelSizes[i] != 0
    }

    predicate HasPositiveSizes() {
      forall i :: 0 <= i < |levelSizes| ==> levelSizes[i] > 0
    }

    /** `equals`: same envelope and the same level sizes, element by element. */
    predicate Equals(other: CellLocationReference) {
      envelope == other.envelope && ArraysEqual(levelSizes, other.levelSizes)
    }

    /** `hashCode`, computed once by the constructor from the envelope's hash. */
    function HashCode(envelopeHash: Envelope -> Int32): Int32 {
      Wrap32(envelopeHash(envelope) + ArraysHashCode(levelSizes))
    }

    /** `attributeName`: the prefix, then each level size in decimal, separated by
        underscores. */
    method AttributeName() returns (name: string)
      ensures name == AttributeNameOf(levelSizes)
    {
      name := AttributePrefix;
      var idx := 0;
      while idx < |levelSizes|
        invariant 0 <= idx <= |levelSizes|
        invariant name == AttributeNameOf(levelSizes[..idx])
      {
        if idx != 0 {
          name := name + "_";
        }
        name := name + IntToString(levelSizes[idx]);
        NameStep(levelSizes, idx);
        idx := idx + 1;
      }
      assert levelSizes[..idx] == levelSizes;
    }
  }

  /** `Arrays.equals` on two `int[]`. */
  predicate ArraysEqual(a: seq<Int32>, b: seq<Int32>) {
    |a| == |b| && forall i :: 0 <= i < |a| ==> a[i] == b[i]
  }

  /** `Arrays.hashCode` on an `int[]`: 31 * h + element for each element, from 1,
      in 32-bit arithmetic. */
  function ArraysHashCode(a: seq<Int32>): Int32 {
    if |a| == 0 then 1 else Wrap32(31 * ArraysHashCode(a[..|a| - 1]) + a[|a| - 1])
  }

  /** The decimal form of each level size. */
  function Tokens(sizes: seq<Int32>): (t: seq<string>)
    ensures |t| == |sizes|
    ensures forall i :: 0 <= i < |sizes| ==> t[i] == IntToString(sizes[i])
  {
    seq(|sizes|, i requires 0 <= i < |sizes| => IntToString(sizes[i]))
  }

  /** The attribute name of a reference with these level sizes. */
  function AttributeNameOf(sizes: seq<Int32>): string {
    AttributePrefix + if |sizes| == 0 then "" else Join(Tokens(sizes), '_')
  }

  /** The name of the first `idx + 1` sizes extends the name of the first `idx`. */
  lemma NameStep(sizes: seq<Int32>, idx: nat)
    requires idx < |sizes|
    ensures AttributeNameOf(sizes[..idx + 1])
         == AttributeNameOf(sizes[..idx]) + (if idx == 0 then "" else "_") + IntToString(sizes[idx])
  {
    assert sizes[..idx + 1] == sizes[..idx] + [sizes[idx]];
    NameAppend(sizes[..idx], sizes[idx]);
  }

  lemma NameAppend(sizes: seq<Int32>, size: Int32)
    ensures AttributeNameOf(sizes + [size])
         == AttributeNameOf(sizes) + (if |sizes| == 0 then "" else "_") + IntToString(size)
  {
    if |sizes| > 0 {
      JoinAppend(Tokens(sizes), IntToString(size), '_');
      assert Tokens(sizes + [size]) == Tokens(sizes) + [IntToString(size)];
    } else {
      assert Tokens([size]) == [IntToString(size)];
    }
  }

  /** The sizes an attribute name lists, parsed left to right; the first token that
      is not an `int` raises NumberFormatException. */
  function ParseSizes(tokens: seq<string>): (r: Result<seq<Int32>>)
    ensures r.Ok? <==> forall i :: 0 <= i < |tokens| ==> ParseInt(tokens[i]).Ok?
    ensures r.Ok? ==> |r.value| == |tokens|
    ensures r.Ok? ==> forall i :: 0 <= i < |tokens| ==> ParseInt(tokens[i]) == Ok(r.value[i])
    ensures r.Err? ==> r.error == NumberFormat
  {
    if |tokens| == 0 then Ok([])
    else
      var init := tokens[..|tokens| - 1];
      assert forall i :: 0 <= i < |init| ==> init[i] == tokens[i];
      match ParseSizes(init)
      case Err(e) => Err(e)
      case Ok(v) =>
        match ParseInt(tokens[|tokens| - 1])
        case Err(e) => Err(e)
        case Ok(x) => Ok(v + [x])
  }

  /** What `fromAttributeName` returns or raises. */
  function ParseAttributeName(envelope: Envelope, name: string): Result<CellLocationReference> {
    if !(AttributePrefix <= name) then Err(MissingPrefix)
    else
      var sizes := Split(name[|AttributePrefix|..], '_');
      if |sizes| < 1 then Err(NoSizes)
      else
        match ParseSizes(sizes)
        case Err(e) => Err(e)
        case Ok(v) => Ok(CellLocationReference(envelope, v))
  }

  /** The constructor: the reference keeps a copy of the caller's array. */
  method Create(envelope: Envelope, levelSizes: array<Int32>) returns (r: CellLocationReference)
    ensures r.envelope == envelope && r.levelSizes == levelSizes[..]
  {
    r := CellLocationReference(envelope, levelSizes[..]);
  }

  /** `fromAttributeName`: check the prefix, split the rest on "_", and parse each
      token into a fresh array of level sizes. */
  method FromAttributeName(envelope: Envelope, name: string) returns (r: Result<CellLocationReference>)
    ensures r == ParseAttributeName(envelope, name)
  {
    if !(AttributePrefix <= name) {
      return Err(MissingPrefix);
    }
    var sizes := Split(name[|AttributePrefix|..], '_');
    if |sizes| < 1 {
      return Err(NoSizes);
    }
    var levelSizes: seq<Int32> := [];
    for idx := 0 to |sizes|
      invariant ParseSizes(sizes[..idx]) == Ok(levelSizes)
    {
      var parsed := ParseInt(sizes[idx]);
      assert sizes[..idx + 1][..idx] == sizes[..idx];
      if parsed.Err? {
        assert ParseSizes(sizes[..idx + 1]).Err?;
        assert !ParseSizes(sizes).Ok? by {
          assert sizes[idx] == sizes[..idx + 1][idx];
        }
        return Err(parsed.error);
      }
      levelSizes := levelSizes + [parsed.value];
    }
    assert sizes[..|sizes|] == sizes;
    return Ok(CellLocationReference(envelope, levelSizes));
  }

  /** `equals` is equality of the modelled values: the envelope and every level size. */
  lemma EqualsIsEquality(a: CellLocationReference, b: CellLocationReference)
    ensures a.Equals(b) <==> a == b
  {
    if a.Equals(b) {
      assert a.levelSizes == b.levelSizes;
    }
  }

  /** Equal references have equal hash codes, whatever the envelope's hash. */
  lemma EqualsHashCode(a: CellLocationReference, b: CellLocationReference, envelopeHash: Envelope -> Int32)
    requires a.Equals(b)
    ensures a.HashCode(envelopeHash) == b.HashCode(envelopeHash)
  {
    EqualsIsEquality(a, b);
  }

  /** Parsing a reference's attribute name gives back its level sizes, and with its
      own envelope the reference itself; this needs at least one level. */
  lemma AttributeNameRoundTrip(r: CellLocationReference)
    requires r.NumLevels() >= 1
    ensures ParseAttributeName(r.envelope, AttributeNameOf(r.levelSizes)) == Ok(r)
  {
    var tokens := Tokens(r.levelSizes);
    var name := AttributeNameOf(r.levelSizes);
    assert name[|AttributePrefix|..] == Join(tokens, '_');
    forall i | 0 <= i < |tokens| ensures '_' !in tokens[i] {
      IntToStringFree(r.levelSizes[i], '_');
    }
    SplitJoin(tokens, '_');
    forall i | 0 <= i < |tokens| ensures ParseInt(tokens[i]) == Ok(r.levelSizes[i]) {
      ParseIntToString(r.levelSizes[i]);
    }
    var parsed := ParseSizes(tokens);
    assert parsed.value == r.levelSizes;
  }

  /** A reference without levels prints as the bare prefix, which does not parse: the
      empty token after the prefix is not an `int`. */
  lemma EmptyAttributeName(envelope: Envelope)
    ensures AttributeNameOf([]) == AttributePrefix
    ensures ParseAttributeName(envelope, AttributeNameOf([])) == Err(NumberFormat)
  {
    var rest := AttributeNameOf([])[|AttributePrefix|..];
    assert rest == "";
    assert Split(rest, '_') == [""];
  }

  /** `fromAttributeName` raises exactly when the prefix is missing, the rest splits
      into no tokens (it consists only of underscores), or some token is not an `int`. */
  lemma ParseAttributeNameErrors(envelope: Envelope, name: string)
    ensures !(AttributePrefix <= name) ==> ParseAttributeName(envelope, name) == Err(MissingPrefix)
    ensures AttributePrefix <= name && |Split(name[|AttributePrefix|..], '_')| == 0 ==>
      ParseAttributeName(envelope, name) == Err(NoSizes)
    ensures AttributePrefix <= name ==>
      var sizes := Split(name[|AttributePrefix|..], '_');
      (ParseAttributeName(envelope, name).Ok? <==>
        |sizes| >= 1 && forall i :: 0 <= i < |sizes| ==> ParseInt(sizes[i]).Ok?)
    ensures AttributePrefix <= name ==>
      var sizes := Split(name[|AttributePrefix|..], '_');
      (|sizes| >= 1 && (exists i :: 0 <= i < |sizes| && ParseInt(sizes[i]).Err?) ==>
        ParseAttributeName(envelope, name) == Err(NumberFormat))
  {
  }

  /** "GI_" has the prefix, but the rest splits into no tokens, since `split` drops
      trailing empty strings: `fromAttributeName` reports that no sizes are given. */
  lemma UnderscoreOnlyName(envelope: Envelope)
    ensures ParseAttributeName(envelope, AttributePrefix + "_") == Err(NoSizes)
  {
    var name := AttributePrefix + "_";
    assert AttributePrefix <= name;
    assert name[|AttributePrefix|..] == "_";
    assert Split("_", '_') == [];
  }
}
