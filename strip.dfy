/**
 * Python's `str.strip()` with no argument, which trims each line of the
 * label list into a tag name.
 */
module Strip {

  /** The characters Python's `str.isspace` accepts, by code point. */
  predicate IsSpace(c: char)
  {
    var n := c as int;
    || n == 0x20 || 0x09 <= n <= 0x0D || 0x1C <= n <= 0x1F
    || n == 0x85 || n == 0xA0 || n == 0x1680 || 0x2000 <= n <= 0x200A
    || n == 0x2028 || n == 0x2029 || n == 0x202F || n == 0x205F || n == 0x3000
  }

  /** How many characters at the start of `s` are whitespace. */
  function LeadingSpaces(s: string): (n: nat)
    ensures n <= |s|
    ensures forall i :: 0 <= i < n ==> IsSpace(s[i])
    ensures n < |s| ==> !IsSpace(s[n])
    decreases |s|
  {
    if s != [] && IsSpace(s[0]) then 1 + LeadingSpaces(s[1..]) else 0
  }

  /** How many characters at the end of `s` are whitespace. */
  function TrailingSpaces(s: string): (n: nat)
    ensures n <= |s|
    ensures forall i :: |s| - n <= i < |s| ==> IsSpace(s[i])
    ensures n < |s| ==> !IsSpace(s[|s| - 1 - n])
    decreases |s|
  {
    if s != [] && IsSpace(s[|s| - 1]) then 1 + TrailingSpaces(s[..|s| - 1]) else 0
  }

  /** `str.strip()`: whitespace removed from both ends, nothing left to remove. */
  function StripSpace(s: string): (r: string)
    ensures r != [] ==> !IsSpace(r[0]) && !IsSpace(r[|r| - 1])
  {
    var lead := LeadingSpaces(s);
    if lead == |s| then []
    else
      var trail := TrailingSpaces(s);
      s[lead..|s| - trail]
  }

  /** `r` sits in `s` at offset `a`, with only whitespace before and after it. */
  predicate SpaceAround(s: string, r: string, a: nat)
  {
    && a + |r| <= |s|
    && (forall i :: 0 <= i < |r| ==> r[i] == s[a + i])
    && (forall i :: 0 <= i < a ==> IsSpace(s[i]))
    && (forall i :: a + |r| <= i < |s| ==> IsSpace(s[i]))
  }

  /**
   * The stripped string is a contiguous piece of the original, and everything
   * cut away on either side of it is whitespace.
   */
  lemma StripKeepsMiddle(s: string)
    ensures exists a: nat :: SpaceAround(s, StripSpace(s), a)
  {
    assert SpaceAround(s, StripSpace(s), LeadingSpaces(s));
  }

  /** Stripping twice changes nothing more. */
  lemma StripIdempotent(s: string)
    ensures StripSpace(StripSpace(s)) == StripSpace(s)
  {
    var r := StripSpace(s);
    if r != [] {
      assert LeadingSpaces(r) == 0;
      assert TrailingSpaces(r) == 0;
      assert r[0..|r|] == r;
    }
  }
}
