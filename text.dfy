/** The text layer under the project and image formats: how java.util.Scanner,
    with its default delimiter, splits a string into tokens and reads ints from
    them, and how Java prints a non-negative int. */
module Tokens {
  import opened Wrappers

  /** Character.isWhitespace: the ASCII spaces and controls 9-13 and 28-31, and
      the Unicode space, line and paragraph separators other than the no-break
      spaces U+00A0, U+2007 and U+202F. */
  predicate IsWhitespace(c: char) {
    || c == ' ' || ('\t' <= c <= '\r') || ('\U{1C}' <= c <= '\U{1F}')
    || c == '\U{1680}' || ('\U{2000}' <= c <= '\U{2006}') || ('\U{2008}' <= c <= '\U{200A}')
    || c == '\U{2028}' || c == '\U{2029}' || c == '\U{205F}' || c == '\U{3000}'
  }

  /** A token: a non-empty run of non-whitespace characters. */
  predicate IsToken(t: string) {
    |t| >= 1 && forall i :: 0 <= i < |t| ==> !IsWhitespace(t[i])
  }

  /** The longest prefix of `s` without whitespace. */
  function Word(s: string): (w: string)
    ensures w <= s
    ensures forall i :: 0 <= i < |w| ==> !IsWhitespace(w[i])
    ensures |w| < |s| ==> IsWhitespace(s[|w|])
  {
    if s == [] || IsWhitespace(s[0]) then [] else [s[0]] + Word(s[1..])
  }

  /** The tokens a Scanner with the default delimiter (runs of whitespace)
      returns from `s`, in order. */
  function Tokenize(s: string): (ts: seq<string>)
    ensures forall i :: 0 <= i < |ts| ==> IsToken(ts[i])
    decreases |s|
  {
    if s == [] then []
    else if IsWhitespace(s[0]) then Tokenize(s[1..])
    else
      var w := Word(s);
      [w] + Tokenize(s[|w|..])
  }

  /** The word of a text that holds whitespace ends before that whitespace, so
      whatever follows the text does not change it. */
  lemma {:induction false} WordAppend(a: string, b: string)
    requires |a| >= 1 && IsWhitespace(a[|a| - 1])
    ensures Word(a + b) == Word(a)
  {
    if IsWhitespace(a[0]) {
    } else {
      assert |a| >= 2;
      assert (a + b)[1..] == a[1..] + b;
      WordAppend(a[1..], b);
    }
  }

  /** A text that is empty or ends with whitespace splits independently of what
      follows it. */
  lemma {:induction false} TokenizeAppend(a: string, b: string)
    requires a == [] || IsWhitespace(a[|a| - 1])
    ensures Tokenize(a + b) == Tokenize(a) + Tokenize(b)
    decreases |a|
  {
    if a == [] {
      assert a + b == b;
    } else if IsWhitespace(a[0]) {
      assert (a + b)[1..] == a[1..] + b;
      TokenizeAppend(a[1..], b);
    } else {
      var w := Word(a);
      WordAppend(a, b);
      assert |w| < |a|;
      assert (a + b)[|w|..] == a[|w|..] + b;
      TokenizeAppend(a[|w|..], b);
    }
  }

  /** A token followed by one whitespace character is read as that one token. */
  lemma {:induction false} TokenizeWord(t: string, sep: char)
    requires IsToken(t) && IsWhitespace(sep)
    ensures Tokenize(t + [sep]) == [t]
  {
    var s := t + [sep];
    WordOfToken(t, sep);
    assert s[|t|..] == [sep];
    assert Tokenize([sep]) == Tokenize([]);
  }

  /** The word of a token followed by whitespace is the token. */
  lemma {:induction false} WordOfToken(t: string, sep: char)
    requires forall i :: 0 <= i < |t| ==> !IsWhitespace(t[i])
    requires IsWhitespace(sep)
    ensures Word(t + [sep]) == t
    decreases |t|
  {
    if t != [] {
      assert (t + [sep])[1..] == t[1..] + [sep];
      WordOfToken(t[1..], sep);
    }
  }

  // ---------------------------------------------------------------------------
  // Integers

  const INT_MIN: int := -0x8000_0000
  const INT_MAX: int := 0x7fff_ffff

  predicate IsDigit(c: char) {
    '0' <= c <= '9'
  }

  predicate AllDigits(s: string) {
    forall i :: 0 <= i < |s| ==> IsDigit(s[i])
  }

  /** The number a string of decimal digits denotes. */
  function DigitsValue(s: string): nat
    requires AllDigits(s)
  {
    if s == [] then 0
    else 10 * DigitsValue(s[..|s| - 1]) + (s[|s| - 1] as int - '0' as int)
  }

  /** Scanner's reading of a token as an int: an optional sign, then one or more
      decimal digits, and a value inside the 32-bit range; anything else is not
      an int. */
  function ParseInt(t: string): (r: Option<int>)
    ensures r.Some? ==> INT_MIN <= r.value <= INT_MAX
    ensures r.Some? ==> |t| >= 1
  {
    var signed := |t| >= 1 && (t[0] == '-' || t[0] == '+');
    var digits := if signed then t[1..] else t;
    if |digits| == 0 || !AllDigits(digits) then None
    else
      var v: int := if signed && t[0] == '-' then -(DigitsValue(digits) as int) else DigitsValue(digits);
      if INT_MIN <= v <= INT_MAX then Some(v) else None
  }

  /** Integer.toString for a non-negative value: its decimal digits without
      leading zeros; reading the digits back gives the number. */
  function NatToString(n: nat): (s: string)
    ensures |s| >= 1 && AllDigits(s) && DigitsValue(s) == n
    ensures s[0] == '0' ==> n == 0
  {
    if n < 10 then ['0' + n as char]
    else
      var s := NatToString(n / 10) + ['0' + (n % 10) as char];
      assert s[..|s| - 1] == NatToString(n / 10);
      s
  }

  /** A printed number is a token. */
  lemma NatToStringIsToken(n: nat)
    ensures IsToken(NatToString(n))
  {
    var s := NatToString(n);
    assert forall i :: 0 <= i < |s| ==> IsDigit(s[i]);
  }

  /** nextInt reads back what Integer.toString printed. */
  lemma {:induction false} ParseIntOfNat(n: nat)
    requires n <= INT_MAX
    ensures ParseInt(NatToString(n)) == Some(n)
  {
    var s := NatToString(n);
    assert IsDigit(s[0]);
    assert !(s[0] == '-' || s[0] == '+');
  }

  // ---------------------------------------------------------------------------
  // The scanner: its state is the list of tokens not yet read.

  /** next(): the next token, or NoSuchElementException when none is left. */
  function Next(rest: seq<string>): (r: Result<(string, seq<string>)>)
    ensures r.Err? <==> rest == []
    ensures r.Err? ==> r.error == Malformed
    ensures r.Ok? ==> rest == [r.value.0] + r.value.1
  {
    if rest == [] then Err(Malformed) else Ok((rest[0], rest[1..]))
  }

  /** nextInt(): the next token read as an int; NoSuchElementException when no
      token is left and InputMismatchException when it is not an int. */
  function NextInt(rest: seq<string>): (r: Result<(int, seq<string>)>)
    ensures r.Err? <==> rest == [] || ParseInt(rest[0]).None?
    ensures r.Err? ==> r.error == Malformed
    ensures r.Ok? ==> ParseInt(rest[0]) == Some(r.value.0) && r.value.1 == rest[1..]
  {
    if rest == [] then Err(Malformed)
    else match ParseInt(rest[0])
      case None => Err(Malformed)
      case Some(v) => Ok((v, rest[1..]))
  }

  /** nextInt accepts a sign and rejects a lone sign and a trailing letter. */
  lemma ParseIntExamples()
    ensures ParseInt("255") == Some(255) && ParseInt("-12") == Some(-12) && ParseInt("+7") == Some(7)
    ensures ParseInt("-") == None && ParseInt("1x") == None
  {
    assert "255"[..2] == "25" && "25"[..1] == "2" && "2"[..0] == "";
    assert "-12"[1..] == "12" && "12"[..1] == "1";
    assert "+7"[1..] == "7";
    assert !IsDigit("1x"[1]);
  }

  /** nextInt rejects the value just past the 32-bit range. */
  lemma ParseIntOverflow()
    ensures ParseInt("2147483648") == None
  {
    var big := "2147483648";
    var d := [big[..1], big[..2], big[..3], big[..4], big[..5], big[..6], big[..7], big[..8], big[..9]];
    assert d[8][..8] == d[7] && d[7][..7] == d[6] && d[6][..6] == d[5] && d[5][..5] == d[4];
    assert d[4][..4] == d[3] && d[3][..3] == d[2] && d[2][..2] == d[1] && d[1][..1] == d[0];
    assert DigitsValue(d[0]) == 2;
    assert DigitsValue(d[1]) == 21;
    assert DigitsValue(d[2]) == 214;
    assert DigitsValue(d[3]) == 2147;
    assert DigitsValue(d[4]) == 21474;
    assert DigitsValue(d[5]) == 214748;
    assert DigitsValue(d[6]) == 2147483;
    assert DigitsValue(d[7]) == 21474836;
    assert DigitsValue(d[8]) == 214748364;
    assert big[..9] == d[8];
  }
}
