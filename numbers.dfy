/** The number conventions of the Zebra wire format, as Python spells them:
    `int(s, 16)`, `f"{v:0NX}"`, `bin(x).count("1")`, `x & (1 << b)` and the
    32-bit two's complement reading of encoder fields. */
module Numbers {
  import opened Results

  predicate IsUpperHexDigit(c: char) {
    '0' <= c <= '9' || 'A' <= c <= 'F'
  }

  /** A digit `int(_, 16)` accepts: either case. */
  predicate IsHexDigit(c: char) {
    IsUpperHexDigit(c) || 'a' <= c <= 'f'
  }

  predicate AllUpperHex(s: string) {
    forall i :: 0 <= i < |s| ==> IsUpperHexDigit(s[i])
  }

  predicate AllHex(s: string) {
    forall i :: 0 <= i < |s| ==> IsHexDigit(s[i])
  }

  /** Text on which Python's `int(_, 16)` is decided by the digits alone: printable
      ASCII with no sign, no whitespace and no underscore. Lines read back from the
      instrument may also carry line feeds. */
  predicate IsPlainChar(c: char) {
    '!' <= c <= '~' && c != '+' && c != '-' && c != '_'
  }

  predicate PlainText(s: string) {
    forall i :: 0 <= i < |s| ==> IsPlainChar(s[i])
  }

  /** Text that `str.encode("ascii")` accepts and `bytes.decode("ascii")` produces. */
  predicate Ascii(s: string) {
    forall i :: 0 <= i < |s| ==> s[i] as int < 0x80
  }

  function DigitValue(c: char): (d: nat)
    requires IsHexDigit(c)
    ensures d < 16
  {
    if '0' <= c <= '9' then c as int - '0' as int
    else if 'A' <= c <= 'F' then c as int - 'A' as int + 10
    else c as int - 'a' as int + 10
  }

  function UpperDigit(d: nat): (c: char)
    requires d < 16
    ensures IsUpperHexDigit(c) && DigitValue(c) == d
  {
    if d < 10 then ('0' as int + d) as char else ('A' as int + d - 10) as char
  }

  function Pow16(n: nat): (p: nat)
    ensures p >= 1
  {
    if n == 0 then 1 else 16 * Pow16(n - 1)
  }

  function Pow2(n: nat): (p: nat)
    ensures p >= 1
  {
    if n == 0 then 1 else 2 * Pow2(n - 1)
  }

  /** The value of a string of hex digits, most significant first. */
  function HexValue(s: string): (v: nat)
    requires AllHex(s)
    ensures v < Pow16(|s|)
  {
    if s == [] then 0 else HexValue(s[..|s| - 1]) * 16 + DigitValue(s[|s| - 1])
  }

  /** The last `w` upper-case hex digits of `v`. */
  function Fixed(v: nat, w: nat): (s: string)
    ensures |s| == w
  {
    if w == 0 then [] else Fixed(v / 16, w - 1) + [UpperDigit(v % 16)]
  }

  /** Number of hex digits Python prints for `v` with no padding. */
  function Digits(v: nat): (n: nat)
    ensures 1 <= n && v < Pow16(n)
    ensures n == 1 || Pow16(n - 1) <= v
  {
    if v < 16 then 1 else 1 + Digits(v / 16)
  }

  /** `f"{v:0{w}X}"` for a non-negative `v`: upper case, zero padded to at least
      `w` digits and never truncated. */
  function Format(v: nat, w: nat): (s: string)
    ensures |s| >= w
    ensures v < Pow16(w) ==> s == Fixed(v, w)
  {
    if v < Pow16(w) then Fixed(v, w)
    else
      DigitsMonotone(v, w);
      Fixed(v, Digits(v))
  }

  lemma DigitsMonotone(v: nat, w: nat)
    requires Pow16(w) <= v
    ensures w < Digits(v)
  {
    if Digits(v) <= w {
      Pow16Monotone(Digits(v), w);
    }
  }

  lemma {:induction false} Pow16Monotone(m: nat, n: nat)
    requires m <= n
    ensures Pow16(m) <= Pow16(n)
    decreases n
  {
    if m < n {
      Pow16Monotone(m, n - 1);
    }
  }

  /** `int(s, 16)` on plain text: an optional `0x`/`0X` prefix followed by at least
      one hex digit of either case; anything else raises ValueError (None). */
  function ParseInt(s: string): (r: Option<nat>)
    ensures r.Some? <==> (s != [] && AllHex(s)) || (|s| > 2 && s[0] == '0' && s[1] in "xX" && AllHex(s[2..]))
    ensures r.Some? ==> r.value < Pow16(|s|)
  {
    if s != [] && AllHex(s) then Some(HexValue(s))
    else if |s| > 2 && s[0] == '0' && (s[1] == 'x' || s[1] == 'X') && AllHex(s[2..]) then
      Pow16Monotone(|s| - 2, |s|);
      Some(HexValue(s[2..]))
    else None
  }

  /** On bare hex digits `int(_, 16)` is the value of the digits. */
  lemma ParseIntHex(s: string)
    requires s != [] && AllHex(s)
    ensures ParseInt(s) == Some(HexValue(s))
  {
  }

  /** Characters Python's `str.isspace` accepts, which `str.strip()` removes. */
  predicate IsSpace(c: char) {
    var n := c as int;
    n == 0x20 || 0x09 <= n <= 0x0D || 0x1C <= n <= 0x1F || n == 0x85 || n == 0xA0 || n == 0x1680 ||
    0x2000 <= n <= 0x200A || n == 0x2028 || n == 0x2029 || n == 0x202F || n == 0x205F || n == 0x3000
  }

  /** `s.strip()`: `s` without leading and trailing whitespace. */
  function Strip(s: string): (t: string)
    ensures t != [] ==> !IsSpace(t[0]) && !IsSpace(t[|t| - 1])
    ensures (forall i :: 0 <= i < |s| ==> !IsSpace(s[i])) ==> t == s
  {
    StripEnd(StripStart(s))
  }

  /** `t` is the slice of `s` starting at `i`, and everything of `s` around it is whitespace. */
  predicate StrippedAt(s: string, t: string, i: int) {
    && 0 <= i <= |s| - |t| && t == s[i..i + |t|]
    && (forall j :: 0 <= j < i ==> IsSpace(s[j]))
    && (forall j :: i + |t| <= j < |s| ==> IsSpace(s[j]))
  }

  /** `strip()` is characterised without reference to how it is computed: its
      result is the one slice of the text with only whitespace around it whose
      ends are not whitespace. */
  lemma StripCharacterised(s: string, t: string)
    ensures t == Strip(s) <==>
      (exists i :: StrippedAt(s, t, i)) && (t != [] ==> !IsSpace(t[0]) && !IsSpace(t[|t| - 1]))
  {
    StripIsSlice(s);
    if (exists i :: StrippedAt(s, t, i)) && (t != [] ==> !IsSpace(t[0]) && !IsSpace(t[|t| - 1])) {
      var i :| StrippedAt(s, t, i);
      StrippedUnique(s, t, i);
    }
  }

  /** The stripped text is a slice with only whitespace around it. */
  lemma StripIsSlice(s: string)
    ensures StrippedAt(s, Strip(s), |s| - |StripStart(s)|)
  {
    var u := StripStart(s);
    var k := |s| - |u|;
    SliceOfSuffix(s, k, StripEnd(u));
  }

  /** A prefix of the suffix from `k` with only whitespace before `k` and
      after it is a stripped slice. */
  lemma SliceOfSuffix(s: string, k: int, v: string)
    requires 0 <= k <= |s| && |v| <= |s| - k && v == s[k..][..|v|]
    requires forall j :: 0 <= j < k ==> IsSpace(s[j])
    requires forall j :: |v| <= j < |s| - k ==> IsSpace(s[k..][j])
    ensures StrippedAt(s, v, k)
  {
    forall j | k + |v| <= j < |s|
      ensures IsSpace(s[j])
    {
      assert s[j] == s[k..][j - k];
    }
  }

  /** Only the stripped text is such a slice with non-whitespace ends. */
  lemma StrippedUnique(s: string, t: string, i: int)
    requires StrippedAt(s, t, i)
    requires t != [] ==> !IsSpace(t[0]) && !IsSpace(t[|t| - 1])
    ensures t == Strip(s)
  {
    var u := StripStart(s);
    var k := |s| - |u|;
    var v := StripEnd(u);
    StripIsSlice(s);
    if t == [] {
      if v != [] {
        assert false;
      }
    } else {
      StartUnique(s, t, i);
      EndUnique(u, t);
    }
  }

  /** A slice after only whitespace that starts with a non-whitespace character
      starts where `StripStart` does. */
  lemma StartUnique(s: string, t: string, i: int)
    requires StrippedAt(s, t, i) && t != [] && !IsSpace(t[0])
    ensures i == |s| - |StripStart(s)| && t == StripStart(s)[..|t|]
    ensures forall j :: |t| <= j < |StripStart(s)| ==> IsSpace(StripStart(s)[j])
  {
    var u := StripStart(s);
    var k := |s| - |u|;
    assert s[i] == t[0];
    SpaceRunEnds(s, k, i);
    assert s[k] == u[0];
    SpaceRunEnds(s, i, k);
    SuffixOfSlice(s, t, k);
  }

  /** A character that is not whitespace lies at or after the end of a run of
      leading whitespace. */
  lemma SpaceRunEnds(s: string, k: int, i: int)
    requires 0 <= k <= |s| && forall j :: 0 <= j < k ==> IsSpace(s[j])
    requires 0 <= i < |s| && !IsSpace(s[i])
    ensures k <= i
  {
  }

  /** Seen from `k`, a stripped slice starting at `k` is a prefix with only
      whitespace after it. */
  lemma SuffixOfSlice(s: string, t: string, k: int)
    requires StrippedAt(s, t, k)
    ensures t == s[k..][..|t|]
    ensures forall j :: |t| <= j < |s| - k ==> IsSpace(s[k..][j])
  {
    forall j | |t| <= j < |s| - k
      ensures IsSpace(s[k..][j])
    {
      assert s[k..][j] == s[k + j];
    }
  }

  /** A prefix with only whitespace after it that ends with a non-whitespace
      character is what `StripEnd` keeps. */
  lemma EndUnique(u: string, t: string)
    requires t != [] && !IsSpace(t[|t| - 1]) && |t| <= |u| && t == u[..|t|]
    requires forall j :: |t| <= j < |u| ==> IsSpace(u[j])
    ensures t == StripEnd(u)
  {
    var v := StripEnd(u);
    if |t| < |v| {
      assert false;
    }
    if |v| < |t| {
      assert false;
    }
  }

  /** `s` without its leading whitespace. */
  function StripStart(s: string): (t: string)
    ensures t != [] ==> !IsSpace(t[0])
    ensures |t| <= |s| && t == s[|s| - |t|..]
    ensures forall i :: 0 <= i < |s| - |t| ==> IsSpace(s[i])
  {
    if s != [] && IsSpace(s[0]) then StripStart(s[1..]) else s
  }

  /** `s` without its trailing whitespace. */
  function StripEnd(s: string): (t: string)
    ensures t != [] ==> !IsSpace(t[|t| - 1])
    ensures |t| <= |s| && t == s[..|t|]
    ensures forall i :: |t| <= i < |s| ==> IsSpace(s[i])
  {
    if s != [] && IsSpace(s[|s| - 1]) then StripEnd(s[..|s| - 1]) else s
  }

  /** The text a regular expression ending in `$` sees: `$` also matches just
      before a single final line feed. */
  function Chomp(s: string): (t: string)
    ensures s != [] && s[|s| - 1] == '\n' ==> s == t + "\n"
    ensures (s == [] || s[|s| - 1] != '\n') ==> t == s
  {
    if s != [] && s[|s| - 1] == '\n' then s[..|s| - 1] else s
  }

  /** `s.rstrip("\n")`: `s` without any trailing line feeds. */
  function RStripNewlines(s: string): (t: string)
    ensures t == [] || t[|t| - 1] != '\n'
    ensures |t| <= |s| && t == s[..|t|]
    ensures forall i :: |t| <= i < |s| ==> s[i] == '\n'
  {
    if s != [] && s[|s| - 1] == '\n' then RStripNewlines(s[..|s| - 1]) else s
  }

  /** `s[start:start + n]`: Python slices stop at the end of the string. */
  function Slice(s: string, start: nat, n: nat): (t: string)
    ensures start + n <= |s| ==> t == s[start..start + n]
    ensures |s| <= start ==> t == []
    ensures |t| <= n
  {
    if |s| <= start then [] else if start + n <= |s| then s[start..start + n] else s[start..]
  }

  /** 2^32: one past the largest 32-bit unsigned value. */
  const Word := 0x1_0000_0000

  /** `(c >> 16) & 0xFFFF` and `c & 0xFFFF`, recombined as `(hi << 16) | lo`, give back
      the low 32 bits of `c`. */
  lemma SplitHalves(c: nat)
    ensures ((c / 0x10000) % 0x10000) * 0x10000 + c % 0x10000 == c % Word
  {
    var q, r := c / 0x10000, c % 0x10000;
    var h, g := q / 0x10000, q % 0x10000;
    assert c == Word * h + (0x10000 * g + r);
  }

  /** 32-bit two's complement reading of an unsigned 32-bit field. */
  function ToSigned32(u: nat): (v: int)
    requires u < Word
    ensures -0x8000_0000 <= v < 0x8000_0000
    ensures v % Word == u
  {
    if u >= 0x8000_0000 then u - Word else u
  }

  /** `bin(x).count("1")`: the number of one bits of the magnitude of `x`. */
  function Popcount(x: int): (n: nat)
    decreases if x < 0 then 1 - x else x
  {
    if x < 0 then Popcount(-x)
    else if x == 0 then 0
    else x % 2 + Popcount(x / 2)
  }

  /** `(x >> b) & 1 == 1` (equivalently `x & (1 << b) != 0`); `/ 2` rounds towards
      minus infinity like Python's `>> 1`, so negative `x` reads as two's complement. */
  predicate BitSet(x: int, b: nat)
    decreases b
  {
    if b == 0 then x % 2 == 1 else BitSet(x / 2, b - 1)
  }

  /** Number of set bits of `x` strictly below bit `b`. */
  function SetBitsBelow(x: int, b: nat): (n: nat)
    ensures n <= b
  {
    if b == 0 then 0 else SetBitsBelow(x, b - 1) + (if BitSet(x, b - 1) then 1 else 0)
  }

  // ---------------------------------------------------------------------------
  // Round trips between hex text and numbers

  /** Printed values are upper-case hex digits. */
  lemma {:induction false} FixedUpperHex(v: nat, w: nat)
    ensures AllUpperHex(Fixed(v, w))
  {
    if w > 0 {
      FixedUpperHex(v / 16, w - 1);
    }
  }

  lemma FormatUpperHex(v: nat, w: nat)
    ensures AllUpperHex(Format(v, w))
  {
    if v < Pow16(w) {
      FixedUpperHex(v, w);
    } else {
      FixedUpperHex(v, Digits(v));
    }
  }

  /** Upper-case hex digits are plain text. */
  lemma UpperHexPlain(s: string)
    requires AllUpperHex(s)
    ensures PlainText(s) && AllHex(s)
  {
  }

  /** Printing a value that fits in `w` digits and reading it back gives the value. */
  lemma {:induction false} HexValueFixed(v: nat, w: nat)
    requires v < Pow16(w)
    ensures AllUpperHex(Fixed(v, w)) && HexValue(Fixed(v, w)) == v
  {
    FixedUpperHex(v, w);
    if w > 0 {
      var s := Fixed(v, w);
      assert s[..w - 1] == Fixed(v / 16, w - 1);
      HexValueFixed(v / 16, w - 1);
    }
  }

  /** Reading upper-case digits then printing as many digits gives the text back. */
  lemma {:induction false} FixedHexValue(s: string)
    requires AllUpperHex(s)
    ensures Fixed(HexValue(s), |s|) == s
  {
    if s != [] {
      var init, d := s[..|s| - 1], s[|s| - 1];
      var v := HexValue(s);
      assert v / 16 == HexValue(init) && v % 16 == DigitValue(d);
      FixedHexValue(init);
      assert UpperDigit(DigitValue(d)) == d;
      assert s == init + [d];
    }
  }

  /** A value that fits in `w` digits is printed in exactly `w` digits and read back. */
  lemma FormatRoundTrip(v: nat, w: nat)
    requires v < Pow16(w)
    ensures |Format(v, w)| == w && AllUpperHex(Format(v, w)) && HexValue(Format(v, w)) == v
  {
    HexValueFixed(v, w);
  }

  /** Two upper-case hex strings of equal length with equal values are equal. */
  lemma HexValueInjective(s: string, t: string)
    requires AllUpperHex(s) && AllUpperHex(t) && |s| == |t|
    requires HexValue(s) == HexValue(t)
    ensures s == t
  {
    FixedHexValue(s);
    FixedHexValue(t);
  }

  /** `Popcount` counts exactly the bits `BitSet` reports, for a non-negative
      value below `2^b`. */
  lemma {:induction false} PopcountBelow(x: nat, b: nat)
    requires x < Pow2(b)
    ensures Popcount(x) == SetBitsBelow(x, b)
  {
    if b > 0 {
      PopcountBelow(x / 2, b - 1);
      SetBitsBelowShift(x, b - 1);
    }
  }

  /** Shifting right by one moves every bit down by one. */
  lemma {:induction false} SetBitsBelowShift(x: nat, b: nat)
    ensures SetBitsBelow(x, b + 1) == x % 2 + SetBitsBelow(x / 2, b)
  {
    if b > 0 {
      SetBitsBelowShift(x, b - 1);
    }
  }
}
