/** The few string operations the modelled scripts rely on: whitespace, stripping and fixed-width hexadecimal. */
module Text {

  /** What `str.strip` removes and `str.split` splits on. */
  predicate IsSpace(c: char) {
    var n := c as int;
    || 9 <= n <= 13 || 28 <= n <= 32 || n == 0x85 || n == 0xA0 || n == 0x1680
    || 0x2000 <= n <= 0x200A || n == 0x2028 || n == 0x2029 || n == 0x202F || n == 0x205F || n == 0x3000
  }

  function StripLeft(s: string): string {
    if |s| > 0 && IsSpace(s[0]) then StripLeft(s[1..]) else s
  }

  function StripRight(s: string): string {
    if |s| > 0 && IsSpace(s[|s| - 1]) then StripRight(s[..|s| - 1]) else s
  }

  function Strip(s: string): string {
    StripRight(StripLeft(s))
  }

  /** Neither end is whitespace. */
  predicate Stripped(s: string) {
    |s| > 0 ==> !IsSpace(s[0]) && !IsSpace(s[|s| - 1])
  }

  lemma {:induction false} StrippedIsFixed(s: string)
    requires Stripped(s)
    ensures Strip(s) == s
  {
  }

  lemma {:induction false} StripLeftEnds(s: string)
    ensures |StripLeft(s)| > 0 ==> !IsSpace(StripLeft(s)[0])
  {
    if |s| > 0 && IsSpace(s[0]) {
      StripLeftEnds(s[1..]);
    }
  }

  lemma {:induction false} StripRightEnds(s: string)
    ensures StripRight(s) <= s
    ensures |StripRight(s)| > 0 ==> !IsSpace(StripRight(s)[|StripRight(s)| - 1])
  {
    if |s| > 0 && IsSpace(s[|s| - 1]) {
      StripRightEnds(s[..|s| - 1]);
    }
  }

  lemma {:induction false} StripStrips(s: string)
    ensures Stripped(Strip(s))
  {
    StripLeftEnds(s);
    StripRightEnds(StripLeft(s));
  }

  /** Stripping removes nothing but whitespace at the two ends. */
  lemma {:induction false} StripRemovesSpaces(s: string) returns (i: nat, j: nat)
    ensures i <= j <= |s| && Strip(s) == s[i..j]
    ensures forall k :: 0 <= k < |s| && !(i <= k < j) ==> IsSpace(s[k])
  {
    i := LeftSpaces(s);
    j := i + |StripRight(s[i..])|;
    StripRightEnds(s[i..]);
    RightSpaces(s[i..]);
    forall k | j <= k < |s| ensures IsSpace(s[k]) {
      assert s[i..][k - i] == s[k];
    }
    assert s[i..j] == s[i..][..j - i];
  }

  lemma {:induction false} LeftSpaces(s: string) returns (i: nat)
    ensures i <= |s| && StripLeft(s) == s[i..]
    ensures forall k :: 0 <= k < i ==> IsSpace(s[k])
  {
    i := 0;
    if |s| > 0 && IsSpace(s[0]) {
      var n := LeftSpaces(s[1..]);
      i := n + 1;
      forall k | 0 <= k < i ensures IsSpace(s[k]) {
        assert k > 0 ==> s[1..][k - 1] == s[k];
      }
    }
  }

  lemma {:induction false} RightSpaces(s: string)
    ensures |StripRight(s)| <= |s|
    ensures forall k :: |StripRight(s)| <= k < |s| ==> IsSpace(s[k])
  {
    if |s| > 0 && IsSpace(s[|s| - 1]) {
      RightSpaces(s[..|s| - 1]);
    }
  }

  // ---------- fixed-width hexadecimal ----------

  const DIGITS := "0123456789abcdef"

  /** The last `width` hexadecimal digits of `n`. */
  function Hex(n: nat, width: nat): (s: string)
    ensures |s| == width
  {
    if width == 0 then "" else Hex(n / 16, width - 1) + [DIGITS[n % 16]]
  }

  function DigitValue(c: char): (d: nat)
    ensures d < 16
  {
    if '0' <= c <= '9' then c as int - '0' as int
    else if 'a' <= c <= 'f' then c as int - 'a' as int + 10
    else 0
  }

  function ParseHex(s: string): nat {
    if |s| == 0 then 0 else 16 * ParseHex(s[..|s| - 1]) + DigitValue(s[|s| - 1])
  }

  function Power16(k: nat): nat {
    if k == 0 then 1 else 16 * Power16(k - 1)
  }

  lemma {:induction false} DigitRoundTrip(d: nat)
    requires d < 16
    ensures DigitValue(DIGITS[d]) == d
  {
  }

  /** Writing a number that fits and reading it back gives the number. */
  lemma {:induction false} HexRoundTrip(n: nat, width: nat)
    requires n < Power16(width)
    ensures ParseHex(Hex(n, width)) == n
  {
    if width > 0 {
      HexRoundTrip(n / 16, width - 1);
      DigitRoundTrip(n % 16);
      assert Hex(n, width)[..width - 1] == Hex(n / 16, width - 1);
    }
  }
}
