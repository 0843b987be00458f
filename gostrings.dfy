/**
 * Go strings are immutable sequences of bytes. A byte is written here as the
 * character with the same code, so that byte strings can be written as string
 * literals ("%3A" is the three bytes 0x25 0x33 0x41).
 */
module GoStrings {

  type Byte = c: char | c as int < 0x100

  type GoString = seq<Byte>

  /** Number of occurrences of the byte `b` in `s`. */
  function Count(s: GoString, b: Byte): (n: nat)
    ensures n <= |s|
  {
    if s == [] then 0 else (if s[0] == b then 1 else 0) + Count(s[1..], b)
  }

  lemma {:induction false} CountAppend(s: GoString, t: GoString, b: Byte)
    ensures Count(s + t, b) == Count(s, b) + Count(t, b)
  {
    if s == [] {
      assert s + t == t;
    } else {
      assert (s + t)[1..] == s[1..] + t;
      CountAppend(s[1..], t, b);
    }
  }

  lemma {:induction false} CountAbsent(s: GoString, b: Byte)
    requires forall i | 0 <= i < |s| :: s[i] != b
    ensures Count(s, b) == 0
  {
    if s != [] {
      CountAbsent(s[1..], b);
    }
  }
}
