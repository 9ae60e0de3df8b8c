/** The pieces of the Java library that the core uses on strings: decimal printing of
    an `int` (`StringBuilder.append(int)`), `Integer.parseInt` and `String.split` with a
    one-character separator. */
module Text {
  import opened Common

  predicate IsDigit(ch: char) {
    '0' <= ch <= '9'
  }

  predicate AllDigits(s: string) {
    forall i :: 0 <= i < |s| ==> IsDigit(s[i])
  }

  function DigitChar(d: nat): (ch: char)
    requires d < 10
    ensures IsDigit(ch)
  {
    ('0' as int + d) as char
  }

  function DigitValue(ch: char): (d: nat)
    requires IsDigit(ch)
    ensures d < 10
  {
    ch as int - '0' as int
  }

  /** The decimal digits of `n`, most significant first, without leading zeros. */
  function NatDigits(n: nat): (s: string)
    ensures |s| >= 1 && AllDigits(s)
    ensures |s| > 1 ==> s[0] != '0'
    decreases n
  {
    if n < 10 then [DigitChar(n)] else NatDigits(n / 10) + [DigitChar(n % 10)]
  }

  /** The value of a string of decimal digits. */
  function DigitsValue(s: string): nat
    requires AllDigits(s)
  {
    if |s| == 0 then 0 else DigitsValue(s[..|s| - 1]) * 10 + DigitValue(s[|s| - 1])
  }

  /** `Integer.toString(n)`, also what `StringBuilder.append(int)` appends. */
  function IntToString(n: int): (s: string)
    ensures |s| >= 1
    ensures forall i :: 0 <= i < |s| ==> IsDigit(s[i]) || (i == 0 && s[i] == '-')
  {
    if n < 0 then "-" + NatDigits(-n) else NatDigits(n)
  }

  /** `Integer.parseInt(s)`: an optional sign and at least one decimal digit, whose
      value fits in an `int`; anything else raises NumberFormatException. */
  function ParseInt(s: string): (r: Result<Int32>)
    ensures r.Err? ==> r.error == NumberFormat
  {
    if |s| == 0 then Err(NumberFormat)
    else if s[0] == '-' || s[0] == '+' then
      if |s| == 1 || !AllDigits(s[1..]) then Err(NumberFormat)
      else
        var d: int := DigitsValue(s[1..]);
        var v := if s[0] == '-' then -d else d;
        if MinInt32 <= v <= MaxInt32 then Ok(v) else Err(NumberFormat)
    else if !AllDigits(s) then Err(NumberFormat)
    else
      var v := DigitsValue(s);
      if v <= MaxInt32 then Ok(v) else Err(NumberFormat)
  }

  lemma {:induction false} NatDigitsValue(n: nat)
    ensures DigitsValue(NatDigits(n)) == n
    decreases n
  {
    var s := NatDigits(n);
    if n >= 10 {
      NatDigitsValue(n / 10);
      assert s[..|s| - 1] == NatDigits(n / 10);
    }
  }

  /** Parsing what `IntToString` printed gives the number back. */
  lemma ParseIntToString(n: Int32)
    ensures ParseInt(IntToString(n)) == Ok(n)
  {
    var s := IntToString(n);
    var k: int := n;
    if k < 0 {
      NatDigitsValue(-k);
      assert s[1..] == NatDigits(-k);
    } else {
      NatDigitsValue(n);
    }
  }

  /** The pieces of `s` around every occurrence of `c`, empty pieces included. */
  function Pieces(s: string, c: char): (r: seq<string>)
    ensures |r| >= 1
  {
    if |s| == 0 then [""]
    else
      var rest := Pieces(s[1..], c);
      if s[0] == c then [""] + rest else [[s[0]] + rest[0]] + rest[1..]
  }

  function DropTrailingEmpty(r: seq<string>): (t: seq<string>)
    ensures |t| <= |r| && t == r[..|t|]
    ensures |t| > 0 ==> t[|t| - 1] != ""
    ensures forall i :: |t| <= i < |r| ==> r[i] == ""
  {
    if |r| > 0 && r[|r| - 1] == "" then DropTrailingEmpty(r[..|r| - 1]) else r
  }

  /** `s.split(c)` for a separator that is not a regular-expression metacharacter: a
      string without `c` is returned whole (even when empty); otherwise the pieces
      around each `c`, with the empty pieces at the end removed. */
  function Split(s: string, c: char): (r: seq<string>)
  {
    if c !in s then [s] else DropTrailingEmpty(Pieces(s, c))
  }

  /** `parts` with one `c` between each two. */
  function Join(parts: seq<string>, c: char): (s: string)
    requires |parts| >= 1
  {
    if |parts| == 1 then parts[0] else parts[0] + [c] + Join(parts[1..], c)
  }

  predicate Free(parts: seq<string>, c: char) {
    forall i :: 0 <= i < |parts| ==> c !in parts[i]
  }

  lemma {:induction false} PiecesWithout(p: string, c: char)
    requires c !in p
    ensures Pieces(p, c) == [p]
  {
    if |p| > 0 {
      PiecesWithout(p[1..], c);
      assert [p[0]] + p[1..] == p;
    }
  }

  lemma {:induction false} PiecesAfter(p: string, t: string, c: char)
    requires c !in p
    ensures Pieces(p + [c] + t, c) == [p] + Pieces(t, c)
    decreases |p|
  {
    var s := p + [c] + t;
    if |p| == 0 {
      assert s[1..] == t;
    } else {
      assert s[1..] == p[1..] + [c] + t;
      PiecesAfter(p[1..], t, c);
      assert [p[0]] + p[1..] == p;
    }
  }

  lemma {:induction false} PiecesJoin(parts: seq<string>, c: char)
    requires |parts| >= 1 && Free(parts, c)
    ensures Pieces(Join(parts, c), c) == parts
    decreases |parts|
  {
    if |parts| == 1 {
      PiecesWithout(parts[0], c);
    } else {
      PiecesJoin(parts[1..], c);
      PiecesAfter(parts[0], Join(parts[1..], c), c);
      assert [parts[0]] + parts[1..] == parts;
    }
  }

  lemma {:induction false} SeparatorInJoin(parts: seq<string>, c: char)
    requires |parts| >= 2
    ensures c in Join(parts, c)
  {
    assert Join(parts, c)[|parts[0]|] == c;
  }

  lemma {:induction false} NoSeparatorInJoin(parts: seq<string>, c: char)
    requires |parts| == 1 && c !in parts[0]
    ensures c !in Join(parts, c)
  {
  }

  /** `split` undoes `Join` when no part holds the separator and the last part is
      not empty. */
  lemma SplitJoin(parts: seq<string>, c: char)
    requires |parts| >= 1 && Free(parts, c) && parts[|parts| - 1] != ""
    ensures Split(Join(parts, c), c) == parts
  {
    if |parts| == 1 {
      NoSeparatorInJoin(parts, c);
    } else {
      SeparatorInJoin(parts, c);
      PiecesJoin(parts, c);
    }
  }

  /** `split` of a joined string whose last part is empty (a string that ends with the
      separator) drops that last part. */
  lemma SplitJoinTrailing(parts: seq<string>, c: char)
    requires |parts| >= 1 && Free(parts, c) && parts[|parts| - 1] != ""
    ensures Split(Join(parts + [""], c), c) == parts
  {
    var all := parts + [""];
    assert all[|all| - 1] == "";
    assert Free(all, c);
    SeparatorInJoin(all, c);
    PiecesJoin(all, c);
    assert all[..|all| - 1] == parts;
  }

  /** The decimal form of an `int` holds only digits and a leading minus sign. */
  lemma IntToStringFree(n: int, c: char)
    requires c != '-' && !IsDigit(c)
    ensures c !in IntToString(n)
  {
  }

  lemma {:induction false} JoinAppend(parts: seq<string>, last: string, c: char)
    requires |parts| >= 1
    ensures Join(parts + [last], c) == Join(parts, c) + [c] + last
    decreases |parts|
  {
    if |parts| > 1 {
      JoinAppend(parts[1..], last, c);
      assert (parts + [last])[1..] == parts[1..] + [last];
    }
  }

  /** Each part followed by `c`. */
  function Terminated(parts: seq<string>, c: char): string {
    if |parts| == 0 then "" else Terminated(parts[..|parts| - 1], c) + parts[|parts| - 1] + [c]
  }

  /** Writing `c` after every part is joining with one more, empty, part. */
  lemma {:induction false} TerminatedJoin(parts: seq<string>, c: char)
    requires |parts| >= 1
    ensures Terminated(parts, c) == Join(parts + [""], c)
    decreases |parts|
  {
    var init := parts[..|parts| - 1];
    var last := parts[|parts| - 1];
    JoinAppend(parts, "", c);
    if |parts| > 1 {
      TerminatedJoin(init, c);
      JoinAppend(init, "", c);
      JoinAppend(init, last, c);
      assert init + [last] == parts;
    }
  }
}
