/**
 * The string handling the parsers rely on: `String.Split` on one separator, joining,
 * whitespace trimming, decimal printing (`ToString()`), and integer parsing in the
 * style of `Int32.TryParse` (leading and trailing white space, an optional sign,
 * decimal digits).
 */
module Text {
  import opened Wrappers

  /** `String.Split(c)`: the pieces between occurrences of `c`; always at least one. */
  function Split(s: string, c: char): (pieces: seq<string>)
    ensures |pieces| >= 1
  {
    if |s| == 0 then [""]
    else
      var front := Split(s[..|s| - 1], c);
      var last := s[|s| - 1];
      if last == c then front + [""]
      else front[..|front| - 1] + [front[|front| - 1] + [last]]
  }

  /** `String.Join(sep, pieces)`. */
  function Join(pieces: seq<string>, sep: string): string {
    if |pieces| == 0 then ""
    else if |pieces| == 1 then pieces[0]
    else Join(pieces[..|pieces| - 1], sep) + sep + pieces[|pieces| - 1]
  }

  /** Splitting and joining back with the same separator gives the original string. */
  lemma {:induction false} JoinSplit(s: string, c: char)
    ensures Join(Split(s, c), [c]) == s
  {
    if |s| > 0 {
      var front := s[..|s| - 1];
      JoinSplit(front, c);
      var pieces := Split(front, c);
      var last := s[|s| - 1];
      if last != c {
        var n := |pieces| - 1;
        var p := pieces[..n] + [pieces[n] + [last]];
        assert p[..n] == pieces[..n];
        if n > 0 {
          assert pieces == pieces[..n] + [pieces[n]];
          assert Join(pieces, [c]) == Join(pieces[..n], [c]) + [c] + pieces[n];
        }
      } else {
        assert (pieces + [""])[..|pieces|] == pieces;
      }
      assert s == front + [last];
    }
  }

  /** Appending text without the separator extends the last piece. */
  lemma {:induction false} SplitAppendPlain(x: string, b: string, c: char)
    requires c !in b
    ensures var p := Split(x, c);
      Split(x + b, c) == p[..|p| - 1] + [p[|p| - 1] + b]
  {
    if |b| > 0 {
      var b' := b[..|b| - 1];
      var last := b[|b| - 1];
      assert last in b;
      SplitAppendPlain(x, b', c);
      assert (x + b)[..|x + b| - 1] == x + b';
      assert (x + b)[|x + b| - 1] == last;
      var p := Split(x, c);
      var f := Split(x + b', c);
      assert f[..|f| - 1] == p[..|p| - 1];
      assert f[|f| - 1] == p[|p| - 1] + b';
      assert Split(x + b, c) == f[..|f| - 1] + [f[|f| - 1] + [last]];
      assert p[|p| - 1] + b' + [last] == p[|p| - 1] + b;
    } else {
      assert x + b == x;
      var p := Split(x, c);
      assert p[|p| - 1] + b == p[|p| - 1];
      assert p == p[..|p| - 1] + [p[|p| - 1]];
    }
  }

  /** Text after a separator starts a new piece. */
  lemma SplitAfterSeparator(a: string, b: string, c: char)
    requires c !in b
    ensures Split(a + [c] + b, c) == Split(a, c) + [b]
  {
    SplitAppendPlain(a + [c], b, c);
    assert (a + [c])[..|a + [c]| - 1] == a;
    var p := Split(a + [c], c);
    assert p == Split(a, c) + [""];
    assert p[..|p| - 1] == Split(a, c);
    assert "" + b == b;
  }

  /** `" " + p` for every piece but the first. */
  function Spaced(pieces: seq<string>): (r: seq<string>)
    ensures |r| == |pieces|
    ensures forall i :: 0 <= i < |pieces| ==> r[i] == if i == 0 then pieces[0] else " " + pieces[i]
  {
    if |pieces| <= 1 then pieces else Spaced(pieces[..|pieces| - 1]) + [" " + pieces[|pieces| - 1]]
  }

  lemma SplitJoinedOne(p: string)
    requires ',' !in p
    ensures Split(Join([p], ", "), ',') == [p]
  {
    SplitAppendPlain("", p, ',');
    assert "" + p == p;
  }

  lemma CommaSpace(a: string, b: string)
    ensures a + ", " + b == a + [','] + (" " + b)
  {
    assert ", " == [','] + " ";
  }

  lemma SplitJoinedMore(pieces: seq<string>)
    requires |pieces| >= 2 && ',' !in pieces[|pieces| - 1]
    requires Split(Join(pieces[..|pieces| - 1], ", "), ',') == Spaced(pieces[..|pieces| - 1])
    ensures Split(Join(pieces, ", "), ',') == Spaced(pieces)
  {
    var n := |pieces| - 1;
    var j := Join(pieces[..n], ", ");
    var last := " " + pieces[n];
    assert Join(pieces, ", ") == j + ", " + pieces[n];
    CommaSpace(j, pieces[n]);
    SplitAfterSeparator(j, last, ',');
  }

  /** Splitting a ", "-joined list on ',' gives the pieces, with the blank kept in front. */
  lemma {:induction false} SplitJoined(pieces: seq<string>)
    requires |pieces| >= 1 && forall i :: 0 <= i < |pieces| ==> ',' !in pieces[i]
    ensures Split(Join(pieces, ", "), ',') == Spaced(pieces)
  {
    var n := |pieces| - 1;
    if n == 0 {
      SplitJoinedOne(pieces[0]);
      assert pieces == [pieces[0]];
    } else {
      SplitJoined(pieces[..n]);
      SplitJoinedMore(pieces);
    }
  }

  // ---------------------------------------------------------------------------
  // Decimal numbers.

  predicate IsDigit(c: char) {
    '0' <= c <= '9'
  }

  predicate AllDigits(s: string) {
    forall i :: 0 <= i < |s| ==> IsDigit(s[i])
  }

  function DigitChar(d: nat): char
    requires d < 10
  {
    ('0' as int + d) as char
  }

  /** The decimal text of a natural number, without leading zeros. */
  function NatText(n: nat): (s: string)
    ensures |s| >= 1 && AllDigits(s)
    decreases n
  {
    if n < 10 then [DigitChar(n)] else NatText(n / 10) + [DigitChar(n % 10)]
  }

  /** `Int32.ToString()`: a minus sign for negative numbers. */
  function IntText(v: int): (s: string)
    ensures |s| >= 1 && ',' !in s && IsDigit(s[|s| - 1]) && (IsDigit(s[0]) || s[0] == '-')
  {
    if v < 0 then "-" + NatText(-v) else NatText(v)
  }

  function DigitValue(c: char): (d: nat)
    requires IsDigit(c)
    ensures d < 10
  {
    c as int - '0' as int
  }

  /** The value of a string of decimal digits. */
  function DigitsValue(s: string): nat
    requires AllDigits(s)
  {
    if |s| == 0 then 0 else 10 * DigitsValue(s[..|s| - 1]) + DigitValue(s[|s| - 1])
  }

  lemma {:induction false} DigitsOfNatText(n: nat)
    ensures DigitsValue(NatText(n)) == n
    decreases n
  {
    if n >= 10 {
      DigitsOfNatText(n / 10);
      var s := NatText(n);
      assert s[..|s| - 1] == NatText(n / 10);
    }
  }

  /** The white-space characters `Int32.TryParse` skips at either end. */
  predicate IsWhite(c: char) {
    c == ' ' || c == '\t' || c == '\n' || c == '\r' || c == '\U{B}' || c == '\U{C}'
  }

  function TrimWhite(s: string): (t: string)
    ensures |t| > 0 ==> !IsWhite(t[0]) && !IsWhite(t[|t| - 1])
  {
    if |s| == 0 then s
    else if IsWhite(s[0]) then TrimWhite(s[1..])
    else if IsWhite(s[|s| - 1]) then TrimWhite(s[..|s| - 1])
    else s
  }

  /**
   * An integer in the `NumberStyles.Integer` style: optional white space, an optional
   * `+` or `-`, at least one digit, optional white space. No range check.
   */
  function ParseInteger(s: string): Option<int> {
    ParseTrimmed(TrimWhite(s))
  }

  /** The sign and digits left once the white space is gone. */
  function ParseTrimmed(t: string): Option<int> {
    var negative := |t| > 0 && t[0] == '-';
    var digits := if |t| > 0 && (t[0] == '-' || t[0] == '+') then t[1..] else t;
    if |digits| > 0 && AllDigits(digits) then
      var magnitude: int := DigitsValue(digits);
      Some(if negative then -magnitude else magnitude)
    else None
  }

  lemma TrimUntrimmed(s: string)
    requires |s| > 0 && !IsWhite(s[0]) && !IsWhite(s[|s| - 1])
    ensures TrimWhite(s) == s && TrimWhite(" " + s) == s
  {
    assert (" " + s)[1..] == s;
  }

  lemma ParseNatText(n: nat)
    ensures ParseTrimmed(NatText(n)) == Some(n)
  {
    var t := NatText(n);
    assert IsDigit(t[0]);
    DigitsOfNatText(n);
  }

  lemma ParseNegativeText(n: nat)
    requires n > 0
    ensures ParseTrimmed("-" + NatText(n)) == Some(-(n as int))
  {
    var d := NatText(n);
    var t := "-" + d;
    assert t[0] == '-' && t[1..] == d;
    DigitsOfNatText(n);
  }

  lemma ParseIntText(v: int)
    ensures ParseTrimmed(IntText(v)) == Some(v)
  {
    if v < 0 {
      ParseNegativeText(-v);
    } else {
      ParseNatText(v);
    }
  }

  /** Printing then parsing gives the number back, with or without a blank in front. */
  lemma ParsePrinted(v: int)
    ensures ParseInteger(IntText(v)) == Some(v)
    ensures ParseInteger(" " + IntText(v)) == Some(v)
  {
    var t := IntText(v);
    TrimUntrimmed(t);
    ParseIntText(v);
  }
}
