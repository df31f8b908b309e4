/**
 * The string operations the participants rely on, with the semantics of the
 * Java and Python library routines they call: `indexOf`, `lastIndexOf`,
 * `String.split` with a one-character separator, `trim().isEmpty()`, decimal
 * formatting of a non-negative int and `Integer.parseInt` on ASCII digits.
 */
module Text {
  import opened Wrappers

  const INT_MIN: int := -0x8000_0000
  const INT_MAX: int := 0x7FFF_FFFF

  /** Java `s.indexOf(c, from)`: the first position at or after `from` holding `c`, or -1. */
  function IndexOf(s: string, c: char, from: nat): (r: int)
    ensures r == -1 || from <= r < |s|
    ensures r == -1 <==> forall j :: from <= j < |s| ==> s[j] != c
    ensures r >= 0 ==> s[r] == c && forall j :: from <= j < r ==> s[j] != c
    decreases |s| - from
  {
    if from >= |s| then -1
    else if s[from] == c then from
    else IndexOf(s, c, from + 1)
  }

  /** Java `s.lastIndexOf(c)`: the last position holding `c`, or -1. */
  function LastIndexOf(s: string, c: char): (r: int)
    ensures -1 <= r < |s|
    ensures r == -1 <==> c !in s
    ensures r >= 0 ==> s[r] == c && c !in s[r + 1..]
  {
    if s == [] then -1
    else if s[|s| - 1] == c then |s| - 1
    else
      var r := LastIndexOf(s[..|s| - 1], c);
      assert s == s[..|s| - 1] + [s[|s| - 1]];
      r
  }

  /** The pieces between occurrences of `c`, empty pieces included. */
  function SplitAll(s: string, c: char): (r: seq<string>)
    ensures |r| >= 1
    ensures forall k :: 0 <= k < |r| ==> c !in r[k]
    decreases |s|
  {
    var i := IndexOf(s, c, 0);
    if i < 0 then [s] else [s[..i]] + SplitAll(s[i + 1..], c)
  }

  function DropTrailingEmpty(ps: seq<string>): (r: seq<string>)
    ensures |r| <= |ps| && r == ps[..|r|]
    ensures r == [] || r[|r| - 1] != []
  {
    if ps == [] then []
    else if ps[|ps| - 1] == [] then DropTrailingEmpty(ps[..|ps| - 1])
    else ps
  }

  /**
   * Java `s.split(String.valueOf(c))` for a separator that is not a regular
   * expression meta character: without an occurrence the whole string (even
   * an empty one), otherwise the pieces with trailing empty pieces removed.
   */
  function JavaSplit(s: string, c: char): (r: seq<string>)
    ensures forall k :: 0 <= k < |r| ==> c !in r[k]
    ensures c !in s ==> r == [s]
  {
    if c !in s then [s] else DropTrailingEmpty(SplitAll(s, c))
  }

  /** The pieces joined with `c` between consecutive ones. */
  function Join(ps: seq<string>, c: char): string
    requires |ps| >= 1
  {
    if |ps| == 1 then ps[0] else ps[0] + [c] + Join(ps[1..], c)
  }

  lemma {:induction false} SplitAllJoin(ps: seq<string>, c: char)
    requires |ps| >= 1
    requires forall k :: 0 <= k < |ps| ==> c !in ps[k]
    ensures SplitAll(Join(ps, c), c) == ps
    decreases |ps|
  {
    var s := Join(ps, c);
    if |ps| == 1 {
      assert IndexOf(s, c, 0) == -1;
    } else {
      var rest := Join(ps[1..], c);
      assert s == ps[0] + [c] + rest;
      assert s[|ps[0]|] == c;
      assert forall j :: 0 <= j < |ps[0]| ==> s[j] == ps[0][j];
      assert IndexOf(s, c, 0) == |ps[0]|;
      assert s[..|ps[0]|] == ps[0];
      assert s[|ps[0]| + 1..] == rest;
      SplitAllJoin(ps[1..], c);
      assert [ps[0]] + ps[1..] == ps;
    }
  }

  /**
   * Splitting joined pieces gives them back when no piece holds the separator,
   * there are at least two, and the last one is not empty.
   */
  lemma JavaSplitJoin(ps: seq<string>, c: char)
    requires |ps| >= 2 && ps[|ps| - 1] != []
    requires forall k :: 0 <= k < |ps| ==> c !in ps[k]
    ensures JavaSplit(Join(ps, c), c) == ps
  {
    var s := Join(ps, c);
    assert s == ps[0] + [c] + Join(ps[1..], c);
    assert s[|ps[0]|] == c;
    SplitAllJoin(ps, c);
  }

  /** Java `s.trim().isEmpty()`: every character is at most U+0020. */
  predicate IsBlank(s: string) {
    forall k :: 0 <= k < |s| ==> s[k] <= ' '
  }

  predicate IsDigit(c: char) {
    '0' <= c <= '9'
  }

  function DigitChar(d: int): (c: char)
    requires 0 <= d < 10
    ensures IsDigit(c)
  {
    ['0', '1', '2', '3', '4', '5', '6', '7', '8', '9'][d]
  }

  function DigitValue(c: char): (d: int)
    requires IsDigit(c)
    ensures 0 <= d < 10 && DigitChar(d) == c
  {
    c as int - '0' as int
  }

  /** Decimal text of a non-negative number, as Java's `append(int)` and Python's f-strings write it. */
  function Decimal(n: nat): (r: string)
    ensures |r| >= 1
    ensures forall k :: 0 <= k < |r| ==> IsDigit(r[k])
  {
    if n < 10 then [DigitChar(n)] else Decimal(n / 10) + [DigitChar(n % 10)]
  }

  /** The value of a non-empty run of decimal digits. */
  function DigitsValue(s: string): (n: nat)
    requires forall k :: 0 <= k < |s| ==> IsDigit(s[k])
  {
    if s == [] then 0 else DigitsValue(s[..|s| - 1]) * 10 + DigitValue(s[|s| - 1])
  }

  lemma {:induction false} DigitsValueDecimal(n: nat)
    ensures DigitsValue(Decimal(n)) == n
  {
    if n >= 10 {
      var d := Decimal(n);
      assert d[..|d| - 1] == Decimal(n / 10);
      DigitsValueDecimal(n / 10);
    }
  }

  predicate AllDigits(s: string) {
    |s| >= 1 && forall k :: 0 <= k < |s| ==> IsDigit(s[k])
  }

  /**
   * Java `Integer.parseInt(s)` restricted to ASCII digits: an optional sign and
   * at least one digit, whose value fits a 32-bit int; None where Java throws
   * NumberFormatException.
   */
  function ParseInt(s: string): (r: Option<int>)
    ensures r.Some? ==> INT_MIN <= r.value <= INT_MAX
    ensures r.Some? ==> |s| >= 1
  {
    if s == [] then None
    else
      var neg := s[0] == '-';
      var digits := if s[0] == '-' || s[0] == '+' then s[1..] else s;
      if !AllDigits(digits) then None
      else
        var v: int := if neg then -(DigitsValue(digits) as int) else DigitsValue(digits);
        if INT_MIN <= v <= INT_MAX then Some(v) else None
  }

  /** The decimal text of every non-negative int parses back to it. */
  lemma ParseIntDecimal(n: nat)
    requires n <= INT_MAX
    ensures ParseInt(Decimal(n)) == Some(n)
  {
    DigitsValueDecimal(n);
  }
}
