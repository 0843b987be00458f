/**
 * Go's url.QueryEscape and url.QueryUnescape (the application/x-www-form-urlencoded
 * convention). QueryEscape keeps the unreserved bytes of section 2.3 of RFC 3986
 * (ASCII letters, digits, '-', '_', '.', '~'), turns a space into '+', and writes
 * every other byte as '%' followed by two uppercase hexadecimal digits.
 * QueryUnescape reverses this, accepts hexadecimal digits of either case, and
 * fails on the first '%' that is not followed by two hexadecimal digits.
 */
module QueryEscaping {
  import opened GoStrings
  import opened Wrappers

  predicate IsUnreserved(c: Byte) {
    ('a' <= c <= 'z') || ('A' <= c <= 'Z') || ('0' <= c <= '9') ||
    c == '-' || c == '_' || c == '.' || c == '~'
  }

  predicate IsUpperHexDigit(c: Byte) {
    ('0' <= c <= '9') || ('A' <= c <= 'F')
  }

  predicate IsHexDigit(c: Byte) {
    IsUpperHexDigit(c) || ('a' <= c <= 'f')
  }

  function HexValue(c: Byte): (v: nat)
    requires IsHexDigit(c)
    ensures v < 16
  {
    if '0' <= c <= '9' then c as int - '0' as int
    else if 'A' <= c <= 'F' then c as int - 'A' as int + 10
    else c as int - 'a' as int + 10
  }

  /** The uppercase hexadecimal digit for a value below 16. */
  function HexDigit(v: nat): (c: Byte)
    requires v < 16
    ensures IsUpperHexDigit(c) && HexValue(c) == v
  {
    if v < 10 then ('0' as int + v) as char else ('A' as int + v - 10) as char
  }

  /** The escape of one byte. */
  function EscapeByte(b: Byte): GoString {
    if b == ' ' then "+"
    else if IsUnreserved(b) then [b]
    else ['%', HexDigit(b as int / 16), HexDigit(b as int % 16)]
  }

  function QueryEscape(s: GoString): (t: GoString)
    ensures |t| >= |s|
    ensures t == [] <==> s == []
    decreases |s|
  {
    if s == [] then [] else EscapeByte(s[0]) + QueryEscape(s[1..])
  }

  /** The offending fragment of a bad escape: the '%' and at most two bytes after it. */
  datatype EscapeError = EscapeError(fragment: GoString)

  function Prepend(b: Byte, r: Result<GoString, EscapeError>): Result<GoString, EscapeError> {
    match r
    case Success(rest) => Success([b] + rest)
    case Failure(e) => Failure(e)
  }

  function QueryUnescape(s: GoString): (r: Result<GoString, EscapeError>)
    decreases |s|
  {
    if s == [] then Success([])
    else if s[0] == '%' then
      if |s| < 3 || !IsHexDigit(s[1]) || !IsHexDigit(s[2]) then
        Failure(EscapeError(if |s| < 3 then s else s[..3]))
      else
        Prepend((HexValue(s[1]) * 16 + HexValue(s[2])) as char, QueryUnescape(s[3..]))
    else if s[0] == '+' then Prepend(' ', QueryUnescape(s[1..]))
    else Prepend(s[0], QueryUnescape(s[1..]))
  }

  /**
   * What QueryEscape can produce: only unreserved bytes, '+' and '%', and every
   * '%' followed by two uppercase hexadecimal digits.
   */
  predicate IsEscapedForm(t: GoString) {
    && (forall i | 0 <= i < |t| :: IsUnreserved(t[i]) || t[i] == '+' || t[i] == '%')
    && (forall i | 0 <= i < |t| && t[i] == '%' ::
          i + 2 < |t| && IsUpperHexDigit(t[i + 1]) && IsUpperHexDigit(t[i + 2]))
  }

  lemma EscapedFormAppend(a: GoString, b: GoString)
    requires IsEscapedForm(a) && IsEscapedForm(b)
    ensures IsEscapedForm(a + b)
  {
  }

  lemma {:induction false} EscapeIsEscapedForm(s: GoString)
    ensures IsEscapedForm(QueryEscape(s))
    decreases |s|
  {
    if s != [] {
      EscapeIsEscapedForm(s[1..]);
      EscapedFormAppend(EscapeByte(s[0]), QueryEscape(s[1..]));
    }
  }

  /** Unescaping past the escape of one byte yields that byte. */
  lemma UnescapeEscapedByte(b: Byte, t: GoString)
    ensures QueryUnescape(EscapeByte(b) + t) == Prepend(b, QueryUnescape(t))
  {
  }

  /** Unescaping an escaped string gives back the original bytes. */
  lemma {:induction false} UnescapeEscape(s: GoString)
    ensures QueryUnescape(QueryEscape(s)) == Success(s)
    decreases |s|
  {
    if s != [] {
      UnescapeEscape(s[1..]);
      UnescapeEscapedByte(s[0], QueryEscape(s[1..]));
      assert [s[0]] + s[1..] == s;
    }
  }

  /** Two different strings never escape to the same text. */
  lemma EscapeInjective(a: GoString, b: GoString)
    requires QueryEscape(a) == QueryEscape(b)
    ensures a == b
  {
    UnescapeEscape(a);
    UnescapeEscape(b);
  }

  /** A string of unreserved bytes is left as it is. */
  lemma {:induction false} EscapeUnreservedIdentity(s: GoString)
    requires forall i | 0 <= i < |s| :: IsUnreserved(s[i])
    ensures QueryEscape(s) == s
    decreases |s|
  {
    if s != [] {
      EscapeUnreservedIdentity(s[1..]);
      assert [s[0]] + s[1..] == s;
    }
  }

  /** Escaping a concatenation escapes the parts one after the other. */
  lemma {:induction false} EscapeAppend(a: GoString, b: GoString)
    ensures QueryEscape(a + b) == QueryEscape(a) + QueryEscape(b)
    decreases |a|
  {
    if a == [] {
      assert a + b == b;
    } else {
      assert (a + b)[1..] == a[1..] + b;
      EscapeAppend(a[1..], b);
    }
  }

  /** Escaping a byte c in any context: what precedes and follows is escaped on its own. */
  lemma EscapeInContext(a: GoString, c: Byte, b: GoString)
    ensures QueryEscape(a + [c] + b) == QueryEscape(a) + EscapeByte(c) + QueryEscape(b)
  {
    EscapeAppend(a + [c], b);
    EscapeAppend(a, [c]);
    assert QueryEscape([c]) == EscapeByte(c) + QueryEscape([]);
  }

  /** A space anywhere becomes '+'. */
  lemma EscapeSpace(a: GoString, b: GoString)
    ensures QueryEscape(a + " " + b) == QueryEscape(a) + "+" + QueryEscape(b)
  {
    EscapeInContext(a, ' ', b);
  }

  /** An unreserved byte anywhere is kept as it is. */
  lemma EscapeUnreserved(a: GoString, c: Byte, b: GoString)
    requires IsUnreserved(c)
    ensures QueryEscape(a + [c] + b) == QueryEscape(a) + [c] + QueryEscape(b)
  {
    EscapeInContext(a, c, b);
  }

  /**
   * Any other byte anywhere becomes '%' and two uppercase hexadecimal digits
   * whose value is the byte.
   */
  lemma EscapeReserved(a: GoString, c: Byte, b: GoString)
    requires c != ' ' && !IsUnreserved(c)
    ensures exists h: GoString ::
      && |h| == 2 && IsUpperHexDigit(h[0]) && IsUpperHexDigit(h[1])
      && HexValue(h[0]) * 16 + HexValue(h[1]) == c as int
      && QueryEscape(a + [c] + b) == QueryEscape(a) + ['%'] + h + QueryEscape(b)
  {
    EscapeInContext(a, c, b);
    var h: GoString := [HexDigit(c as int / 16), HexDigit(c as int % 16)];
    assert EscapeByte(c) == ['%'] + h;
    assert QueryEscape(a + [c] + b) == QueryEscape(a) + ['%'] + h + QueryEscape(b);
  }

  /** Two escapes written out: ':' becomes %3A and a space becomes '+'. */
  lemma EscapeExamples()
    ensures QueryEscape(":") == "%3A"
    ensures QueryEscape(" ") == "+"
  {
  }

  /** A '%' that opens no valid escape. */
  predicate IsBadEscape(t: GoString) {
    |t| > 0 && t[0] == '%' && (|t| < 3 || !IsHexDigit(t[1]) || !IsHexDigit(t[2]))
  }

  /**
   * After a part that unescapes cleanly, the first malformed '%' is the one
   * reported, with at most the two bytes that follow it.
   */
  lemma {:induction false} UnescapeReportsFirstBadEscape(p: GoString, t: GoString)
    requires QueryUnescape(p).Success? && IsBadEscape(t)
    ensures QueryUnescape(p + t) == Failure(EscapeError(if |t| < 3 then t else t[..3]))
    decreases |p|
  {
    if p == [] {
      assert p + t == t;
    } else if p[0] == '%' {
      assert (p + t)[..3] == p[..3];
      assert (p + t)[3..] == p[3..] + t;
      UnescapeReportsFirstBadEscape(p[3..], t);
    } else {
      assert (p + t)[1..] == p[1..] + t;
      UnescapeReportsFirstBadEscape(p[1..], t);
    }
  }

  /** Lowercase hexadecimal digits are accepted; a '%' without two hexadecimal digits is reported. */
  lemma UnescapeExamples()
    ensures QueryUnescape("%3a") == Success(":")
    ensures QueryUnescape("%G1") == Failure(EscapeError("%G1"))
    ensures QueryUnescape("%4") == Failure(EscapeError("%4"))
  {
    var s: GoString := "%3a";
    assert s[3..] == [] && HexValue(s[1]) * 16 + HexValue(s[2]) == ':' as int;
    var empty: GoString := [];
    assert QueryUnescape(empty) == Success(empty);
    assert QueryUnescape(s) == Prepend(':', QueryUnescape(empty));
    assert [':'] + empty == ":";
    var t: GoString := "%G1";
    assert !IsHexDigit(t[1]) && t[..3] == t;
  }
}
