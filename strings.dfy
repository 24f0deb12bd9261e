/**
 * The parts of Python's `str` that the chunking code relies on, written out
 * so that their edge cases are explicit: `strip`, `strip(chars)`, `split`
 * on one character, `join`, `count`, `startswith` and `int(...)` on decimal
 * text.
 */
module Strings {
  import opened Common

  /** Python's `str.isspace()` for one character: the ASCII tab, line
      feed, vertical tab, form feed, carriage return, the four information
      separators and space, and the Unicode spaces and line or paragraph
      separators. `str.strip()` with no argument removes exactly these. */
  predicate IsSpace(c: char)
  {
    || '\t' <= c <= '\r'
    || '\U{001C}' <= c <= ' '
    || c == '\U{0085}' || c == '\U{00A0}' || c == '\U{1680}'
    || '\U{2000}' <= c <= '\U{200A}'
    || c == '\U{2028}' || c == '\U{2029}' || c == '\U{202F}' || c == '\U{205F}'
    || c == '\U{3000}'
  }

  /** The whitespace `int()` skips around its digits: the ASCII tab, line
      feed, vertical tab, form feed, carriage return and space, and every
      `str.isspace()` character outside ASCII (which `int()` first maps to a
      space). The ASCII information separators U+001C to U+001F, spaces for
      `strip()`, are not skipped. */
  predicate IsIntSpace(c: char)
  {
    || '\t' <= c <= '\r'
    || c == ' '
    || (c >= '\U{0080}' && IsSpace(c))
  }

  /** The characters a strip removes: the whitespace of `strip()`, the
      whitespace `int()` skips, or the characters given to `strip(chars)`. */
  datatype CharClass = Whitespace | IntWhitespace | OneOf(chars: set<char>)

  predicate InClass(c: char, drop: CharClass)
  {
    match drop
    case Whitespace => IsSpace(c)
    case IntWhitespace => IsIntSpace(c)
    case OneOf(chars) => c in chars
  }

  /** Drops the leading characters that belong to `drop`. */
  function TrimLeft(s: string, drop: CharClass): string
  {
    if |s| > 0 && InClass(s[0], drop) then TrimLeft(s[1..], drop) else s
  }

  /** Drops the trailing characters that belong to `drop`. */
  function TrimRight(s: string, drop: CharClass): string
  {
    if |s| > 0 && InClass(s[|s| - 1], drop) then TrimRight(s[..|s| - 1], drop) else s
  }

  /** `TrimLeft` removes a prefix made only of `drop` characters, and the
      longest one. */
  lemma {:induction false} TrimLeftSpec(s: string, drop: CharClass)
    ensures var r := TrimLeft(s, drop);
      && |r| <= |s| && r == s[|s| - |r|..]
      && (r == [] || !InClass(r[0], drop))
      && (forall i :: 0 <= i < |s| - |r| ==> InClass(s[i], drop))
  {
    if |s| > 0 && InClass(s[0], drop) {
      TrimLeftSpec(s[1..], drop);
    }
  }

  /** `TrimRight` removes a suffix made only of `drop` characters, and the
      longest one. */
  lemma {:induction false} TrimRightSpec(s: string, drop: CharClass)
    ensures var r := TrimRight(s, drop);
      && |r| <= |s| && r == s[..|r|]
      && (r == [] || !InClass(r[|r| - 1], drop))
      && (forall i :: |r| <= i < |s| ==> InClass(s[i], drop))
  {
    if |s| > 0 && InClass(s[|s| - 1], drop) {
      TrimRightSpec(s[..|s| - 1], drop);
    }
  }

  /** Python's `s.strip(chars)`, with `chars` given as `OneOf(chars)`. */
  function StripChars(s: string, drop: CharClass): string
  {
    TrimRight(TrimLeft(s, drop), drop)
  }

  /** Python's `s.strip()`. */
  function Strip(s: string): string
  {
    StripChars(s, Whitespace)
  }

  /** `s.strip(chars)` is the middle of `s` left once every leading and
      trailing `chars` character is gone: it neither starts nor ends with
      one, and what was cut off on either side is made of them. */
  lemma StripCharsSpec(s: string, drop: CharClass)
    ensures var r := StripChars(s, drop); var k := |s| - |TrimLeft(s, drop)|;
      && 0 <= k <= k + |r| <= |s|
      && r == s[k..k + |r|]
      && (r == [] || (!InClass(r[0], drop) && !InClass(r[|r| - 1], drop)))
      && (forall i :: 0 <= i < k ==> InClass(s[i], drop))
      && (forall i :: k + |r| <= i < |s| ==> InClass(s[i], drop))
  {
    var l := TrimLeft(s, drop);
    TrimLeftSpec(s, drop);
    TrimRightSpec(l, drop);
    var r := TrimRight(l, drop);
    var k := |s| - |l|;
    if r != [] {
      assert r[0] == l[0];
    }
    assert r == s[k..k + |r|];
  }

  /** A string that starts and ends with a kept character is left alone by
      `StripChars`, and so stripping twice is stripping once. */
  lemma StripCharsFixed(s: string, drop: CharClass)
    requires s == [] || (!InClass(s[0], drop) && !InClass(s[|s| - 1], drop))
    ensures StripChars(s, drop) == s
  {
    assert TrimLeft(s, drop) == s;
    assert TrimRight(s, drop) == s;
  }

  lemma StripCharsIdempotent(s: string, drop: CharClass)
    ensures StripChars(StripChars(s, drop), drop) == StripChars(s, drop)
  {
    StripCharsSpec(s, drop);
    StripCharsFixed(StripChars(s, drop), drop);
  }

  /** Python's `sep.join(parts)`. */
  function Join(sep: string, parts: seq<string>): (r: string)
    ensures |parts| == 1 ==> r == parts[0]
  {
    if |parts| == 0 then ""
    else if |parts| == 1 then parts[0]
    else parts[0] + sep + Join(sep, parts[1..])
  }

  /** Python's `s.split(c)` for a one-character separator: always at least
      one piece, no piece holds `c`, and joining the pieces with `c` gives
      back `s`. */
  function Split(s: string, c: char): (r: seq<string>)
    ensures |r| >= 1
    ensures forall k :: 0 <= k < |r| ==> c !in r[k]
    ensures Join([c], r) == s
  {
    if s == [] then [""]
    else
      var rest := Split(s[1..], c);
      if s[0] == c then
        assert Join([c], [""] + rest) == [c] + Join([c], rest) by {
          assert ([""] + rest)[1..] == rest;
        }
        [""] + rest
      else
        var r := [[s[0]] + rest[0]] + rest[1..];
        assert Join([c], r) == [s[0]] + Join([c], rest) by {
          if |rest| > 1 {
            assert r[1..] == rest[1..];
          }
        }
        r
  }

  /** Python's `s.count(c)` for one character: the number of occurrences. */
  function Count(s: string, c: char): (n: nat)
    ensures n == multiset(s)[c]
    ensures n <= |s|
    ensures n == 0 <==> c !in s
  {
    if s == [] then 0
    else
      assert s == [s[0]] + s[1..];
      (if s[0] == c then 1 else 0) + Count(s[1..], c)
  }

  /** Python's `s.startswith(p)`. */
  predicate StartsWith(s: string, p: string)
  {
    |p| <= |s| && s[..|p|] == p
  }

  predicate IsDigit(c: char)
  {
    '0' <= c <= '9'
  }

  /** The digit body Python's `int()` accepts after an optional sign: decimal
      digits, with single underscores allowed only between two digits. */
  predicate WellFormedDigits(d: string)
  {
    && |d| > 0
    && IsDigit(d[0]) && IsDigit(d[|d| - 1])
    && (forall i :: 0 <= i < |d| ==> IsDigit(d[i]) || d[i] == '_')
    && (forall i :: 0 <= i < |d| - 1 ==> d[i] == '_' ==> d[i + 1] != '_')
  }

  /** The value of a digit string, underscores ignored. */
  function DigitsValue(d: string): (n: nat)
    requires forall i :: 0 <= i < |d| ==> IsDigit(d[i]) || d[i] == '_'
  {
    if d == [] then 0
    else if d[|d| - 1] == '_' then DigitsValue(d[..|d| - 1])
    else
      assert IsDigit(d[|d| - 1]);
      DigitsValue(d[..|d| - 1]) * 10 + (d[|d| - 1] as int - '0' as int)
  }

  /** Python's `int(s)` for base 10: surrounding `int()` whitespace is
      ignored, one sign is allowed, anything else raises `ValueError` (here
      `None`). */
  function ParseInt(s: string): (r: Option<int>)
    ensures r.Some? ==> StripChars(s, IntWhitespace) != []
  {
    var t := StripChars(s, IntWhitespace);
    if |t| > 0 && (t[0] == '-' || t[0] == '+') then
      var d := t[1..];
      if WellFormedDigits(d) then
        var n: int := DigitsValue(d);
        Some(if t[0] == '-' then -n else n)
      else None
    else if WellFormedDigits(t) then Some(DigitsValue(t))
    else None
  }

  /** Python's `str(n)` for a non-negative integer. */
  function DecimalString(n: nat): (r: string)
    ensures |r| > 0
    ensures forall i :: 0 <= i < |r| ==> IsDigit(r[i])
  {
    if n < 10 then ['0' + n as char]
    else DecimalString(n / 10) + ['0' + (n % 10) as char]
  }

  /** The decimal text of `n` is a well-formed digit string of value `n`. */
  lemma {:induction false} DecimalStringDigits(n: nat)
    ensures WellFormedDigits(DecimalString(n))
    ensures DigitsValue(DecimalString(n)) == n
  {
    var d := DecimalString(n);
    if n >= 10 {
      DecimalStringDigits(n / 10);
      assert d[..|d| - 1] == DecimalString(n / 10);
    }
  }

  /** `int(str(n)) == n`: the decimal text of an index parses back to it. */
  lemma DecimalStringParses(n: nat)
    ensures ParseInt(DecimalString(n)) == Some(n)
  {
    var d := DecimalString(n);
    DecimalStringDigits(n);
    assert !IsDigit('-') && !IsDigit('+');
    assert !IsIntSpace(d[0]) && !IsIntSpace(d[|d| - 1]);
    StripCharsFixed(d, IntWhitespace);
  }

  /** Python's `str(i)` for any integer: an optional `-`, then the decimal
      digits of `|i|`. */
  function IntString(i: int): (r: string)
    ensures forall j :: 0 <= j < |r| ==> IsDigit(r[j]) || r[j] == '-'
  {
    if i >= 0 then DecimalString(i) else "-" + DecimalString(-i)
  }

  /** `'-'` followed by well-formed digits parses to their value negated. */
  lemma NegatedParses(d: string)
    requires WellFormedDigits(d)
    ensures ParseInt("-" + d) == Some(-(DigitsValue(d) as int))
  {
    var t := "-" + d;
    assert t[0] == '-' && !IsIntSpace(t[0]);
    assert t[|t| - 1] == d[|d| - 1];
    assert !IsIntSpace(d[|d| - 1]);
    StripCharsFixed(t, IntWhitespace);
    assert t[1..] == d;
  }

  /** `int(str(i)) == i` for every integer. */
  lemma IntStringParses(i: int)
    ensures ParseInt(IntString(i)) == Some(i)
  {
    if i >= 0 {
      DecimalStringParses(i);
    } else {
      DecimalStringDigits(-i);
      NegatedParses(DecimalString(-i));
    }
  }

  /** `int()` skips ASCII whitespace and non-ASCII spaces, but an ASCII
      information separator, a space for `strip()`, makes it raise. */
  lemma IntSpaces()
    ensures ParseInt(" 7\n") == Some(7)
    ensures ParseInt("\U{00A0}7") == Some(7)
    ensures ParseInt("\U{001C}7") == None
    ensures Strip("\U{001C}7") == "7"
  {
    assert StripChars(" 7\n", IntWhitespace) == "7";
    assert StripChars("\U{00A0}7", IntWhitespace) == "7";
    assert StripChars("\U{001C}7", IntWhitespace) == "\U{001C}7";
  }
}
