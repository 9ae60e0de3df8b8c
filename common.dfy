/** Values shared by every part of the model: nullable values, the exceptions the
    Java code raises, Java's 32-bit `int`, and the iteration order of Java's hash
    collections. */
module Common {

  /** A Java reference that may be null. */
  datatype Option<+T> = None | Some(value: T)

  /** The exceptions of the source that escape the operation that raises them. */
  datatype Error =
    | MissingPrefix              // fromAttributeName: name without the "GI" prefix
    | NoSizes                    // fromAttributeName: no level sizes after the prefix
    | NumberFormat               // Integer.parseInt rejected a token
    | UnexpectedSize             // fromAttributeValue: no group, or more groups than levels
    | GroupSize(group: nat)      // fromAttributeValue: a group is not two comma-separated tokens
    | GroupValue(group: nat)     // fromAttributeValue: an index outside its level's range
    | MaxDepth                   // child of a location already at the deepest level
    | IndexOutOfBounds           // an int[] read past its end
    | NullLabel                  // a null label dereferenced while comparing labels
    | BadTriangle                // a triangle whose ring does not have four coordinates
    | GeometryFailure            // a geometry operation failed outside any try block
    | MissingLabelAttribute      // load: the schema has no label attribute
    | MissingIndexAttribute      // load: the schema has no "GI" attribute

  datatype Result<+T> = Ok(value: T) | Err(error: Error)

  const MinInt32: int := -0x8000_0000
  const MaxInt32: int := 0x7fff_ffff

  /** Java's `int`. */
  type Int32 = x: int | -0x8000_0000 <= x <= 0x7fff_ffff

  /** The value a 32-bit two's-complement register holds after computing `x`. */
  function Wrap32(x: int): (r: Int32)
    ensures MinInt32 <= x <= MaxInt32 ==> r == x
    ensures (r - x) % 0x1_0000_0000 == 0
  {
    var m := x % 0x1_0000_0000;
    if m <= MaxInt32 then m else m - 0x1_0000_0000
  }

  /** The largest finite Java `double`, (2 - 2^-52) * 2^1023. */
  const MaxDouble: real :=
    179769313486231570814527423731704356798070567525844996598917476803157260780028538760589558632766878171540458953514382464234321326889464182768467546703537516986049910576551282076245490090389328944075868508455133942304583236903222948165808559332123348274797826204144723168738177180919299881250404026184124858368 as real

  /** Iteration order of a hash collection: a function from the keys in the order
      they were first inserted to the order in which the collection yields them. */
  type Order<!T> = seq<T> -> seq<T>

  /** The order in which a hash collection holding `keys` (in insertion order) is
      iterated: whatever `ord` says, as long as it is a permutation of `keys`. Any
      fixed iteration order can be represented this way. */
  function Arrange<T(==)>(ord: Order<T>, keys: seq<T>): (r: seq<T>)
    ensures multiset(r) == multiset(keys)
    ensures |r| == |keys|
  {
    var o := ord(keys);
    if multiset(o) == multiset(keys) then
      assert |multiset(o)| == |o| && |multiset(keys)| == |keys|;
      o
    else keys
  }

  /** No element occurs twice, as in the key set of a map. */
  predicate Distinct<T(==)>(s: seq<T>) {
    forall i, j :: 0 <= i < j < |s| ==> s[i] != s[j]
  }

  lemma ArrangeDistinct<T>(ord: Order<T>, keys: seq<T>)
    requires Distinct(keys)
    ensures Distinct(Arrange(ord, keys))
    ensures forall k :: k in Arrange(ord, keys) <==> k in keys
  {
    var r := Arrange(ord, keys);
    forall k ensures k in r <==> k in keys {
      assert k in r <==> k in multiset(r);
      assert k in keys <==> k in multiset(keys);
    }
    forall i, j | 0 <= i < j < |r| ensures r[i] != r[j] {
      if r[i] == r[j] {
        var x := r[i];
        MultiplicityAtLeastTwo(r, i, j);
        DistinctMultiplicity(keys, x);
        assert false;
      }
    }
  }

  /** Reordering keeps exactly the same elements. */
  lemma ArrangeIn<T>(ord: Order<T>, keys: seq<T>, x: T)
    ensures x in Arrange(ord, keys) <==> x in keys
  {
    var r := Arrange(ord, keys);
    assert x in r <==> x in multiset(r);
    assert x in keys <==> x in multiset(keys);
  }

  /** Taking the last element off a sequence without repetitions. */
  lemma DistinctLast<T>(s: seq<T>)
    requires Distinct(s) && |s| > 0
    ensures Distinct(s[..|s| - 1])
    ensures s[|s| - 1] !in s[..|s| - 1]
    ensures forall x :: x in s <==> x in s[..|s| - 1] || x == s[|s| - 1]
  {
    assert s == s[..|s| - 1] + [s[|s| - 1]];
  }

  /** Every key the collection yields is one of its keys. */
  lemma ArrangeIndex<T>(ord: Order<T>, keys: seq<T>, j: nat)
    requires j < |Arrange(ord, keys)|
    ensures Arrange(ord, keys)[j] in keys
  {
    var r := Arrange(ord, keys);
    assert r[j] in multiset(r);
  }

  lemma MultiplicityAtLeastTwo<T>(s: seq<T>, i: nat, j: nat)
    requires i < j < |s| && s[i] == s[j]
    ensures multiset(s)[s[i]] >= 2
  {
    assert s == s[..i] + [s[i]] + s[i+1..j] + [s[j]] + s[j+1..];
    assert multiset(s) == multiset(s[..i]) + multiset{s[i]} + multiset(s[i+1..j]) + multiset{s[j]} + multiset(s[j+1..]);
  }

  lemma DistinctMultiplicity<T>(s: seq<T>, x: T)
    requires Distinct(s)
    ensures multiset(s)[x] <= 1
  {
    if |s| > 0 {
      assert s == [s[0]] + s[1..];
      assert Distinct(s[1..]);
      DistinctMultiplicity(s[1..], x);
      if x == s[0] {
        assert x !in s[1..];
        assert multiset(s[1..])[x] == 0;
      }
    }
  }

  /** The results of `split` on the kept items, concatenated in order; the first
      failure escapes, as in a loop that appends each result to one list. */
  function FlatMap<T, U>(split: T -> Result<seq<U>>, keep: T -> bool, items: seq<T>): Result<seq<U>>
  {
    if |items| == 0 then Ok([])
    else
      match FlatMap(split, keep, items[..|items| - 1])
      case Err(e) => Err(e)
      case Ok(init) =>
        var last := items[|items| - 1];
        if !keep(last) then Ok(init)
        else
          match split(last)
          case Err(e) => Err(e)
          case Ok(more) => Ok(init + more)
  }

  lemma FlatMapStep<T, U>(split: T -> Result<seq<U>>, keep: T -> bool, items: seq<T>, i: nat)
    requires i < |items| && FlatMap(split, keep, items[..i]).Ok?
    ensures !keep(items[i]) ==> FlatMap(split, keep, items[..i + 1]) == FlatMap(split, keep, items[..i])
    ensures keep(items[i]) && split(items[i]).Ok? ==>
      FlatMap(split, keep, items[..i + 1]) == Ok(FlatMap(split, keep, items[..i]).value + split(items[i]).value)
  {
    assert items[..i + 1][..i] == items[..i];
  }

  /** The first kept item whose split fails decides the outcome. */
  lemma {:induction false} FlatMapFirstErr<T, U>(split: T -> Result<seq<U>>, keep: T -> bool, items: seq<T>, i: nat)
    requires i < |items| && FlatMap(split, keep, items[..i]).Ok? && keep(items[i]) && split(items[i]).Err?
    ensures FlatMap(split, keep, items) == Err(split(items[i]).error)
    decreases |items|
  {
    if |items| > i + 1 {
      var init := items[..|items| - 1];
      assert init[..i] == items[..i] && init[i] == items[i];
      FlatMapFirstErr(split, keep, init, i);
    } else {
      assert items[..i] == items[..|items| - 1];
    }
  }

  /** Every element of the result comes from the split of a kept item. */
  lemma {:induction false} FlatMapFrom<T, U>(split: T -> Result<seq<U>>, keep: T -> bool, items: seq<T>, x: U)
    requires FlatMap(split, keep, items).Ok? && x in FlatMap(split, keep, items).value
    ensures exists i :: 0 <= i < |items| && keep(items[i]) && split(items[i]).Ok? && x in split(items[i]).value
    decreases |items|
  {
    var init := items[..|items| - 1];
    if x in FlatMap(split, keep, init).value {
      FlatMapFrom(split, keep, init, x);
      var i :| 0 <= i < |init| && keep(init[i]) && split(init[i]).Ok? && x in split(init[i]).value;
      assert items[i] == init[i];
    } else {
      assert x in split(items[|items| - 1]).value;
    }
  }

  /** A failure of the whole is the failure of some kept item's split. */
  lemma {:induction false} FlatMapErr<T, U>(split: T -> Result<seq<U>>, keep: T -> bool, items: seq<T>)
    requires FlatMap(split, keep, items).Err?
    ensures exists i :: 0 <= i < |items| && keep(items[i]) && split(items[i]) == Err(FlatMap(split, keep, items).error)
    decreases |items|
  {
    var init := items[..|items| - 1];
    if FlatMap(split, keep, init).Err? {
      FlatMapErr(split, keep, init);
      var i :| 0 <= i < |init| && keep(init[i]) && split(init[i]) == Err(FlatMap(split, keep, init).error);
      assert items[i] == init[i];
    } else {
      assert split(items[|items| - 1]) == Err(FlatMap(split, keep, items).error);
    }
  }

  /** A kept item whose split fails makes the whole fail. */
  lemma {:induction false} FlatMapErrAt<T, U>(split: T -> Result<seq<U>>, keep: T -> bool, items: seq<T>, i: nat)
    requires i < |items| && keep(items[i]) && split(items[i]).Err?
    ensures FlatMap(split, keep, items).Err?
    decreases |items|
  {
    var init := items[..|items| - 1];
    if i < |init| {
      assert init[i] == items[i];
      FlatMapErrAt(split, keep, init, i);
    }
  }
}
