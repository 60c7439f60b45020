/** 128-bit identifiers and their canonical text form. */
module Identifiers {

  /** Ordered as PostgreSQL orders uuids: byte by byte from the most significant end. */
  type Uuid = n: int | 0 <= n < 0x1_0000_0000_0000_0000_0000_0000_0000_0000

  const HEX := "0123456789abcdef"

  function Pow16(k: nat): (p: nat)
    ensures p >= 1
  {
    if k == 0 then 1 else 16 * Pow16(k - 1)
  }

  /** The last `k` hexadecimal digits of `n`. */
  function HexDigits(n: nat, k: nat): (s: string)
    ensures |s| == k && forall i :: 0 <= i < k ==> s[i] in HEX
  {
    if k == 0 then "" else HexDigits(n / 16, k - 1) + [HEX[n % 16]]
  }

  function DigitValue(c: char): int {
    if '0' <= c <= '9' then c as int - '0' as int
    else if 'a' <= c <= 'f' then c as int - 'a' as int + 10
    else if 'A' <= c <= 'F' then c as int - 'A' as int + 10
    else -1
  }

  /** The number a string of hexadecimal digits stands for, or -1. */
  function HexValue(s: string): (v: int)
    ensures -1 <= v < Pow16(|s|)
  {
    if s == "" then 0
    else
      var high, low := HexValue(s[..|s| - 1]), DigitValue(s[|s| - 1]);
      if high < 0 || low < 0 then -1 else 16 * high + low
  }

  /** Digits in groups of 8-4-4-4-12. */
  function Text(u: Uuid): (s: string)
    ensures |s| == 36
  {
    Group(HexDigits(u, 32))
  }

  function Group(h: string): (s: string)
    requires |h| == 32
    ensures |s| == 36
  {
    h[..8] + "-" + h[8..12] + "-" + h[12..16] + "-" + h[16..20] + "-" + h[20..]
  }

  function Ungroup(s: string): string
    requires |s| == 36
  {
    s[..8] + s[9..13] + s[14..18] + s[19..23] + s[24..]
  }

  /** Reads the canonical form; -1 when the text is not one. */
  function Parse(s: string): (v: int)
    ensures v >= 0 ==> v < 0x1_0000_0000_0000_0000_0000_0000_0000_0000
  {
    if |s| != 36 || s[8] != '-' || s[13] != '-' || s[18] != '-' || s[23] != '-' then -1
    else
      Pow16Of32();
      HexValue(Ungroup(s))
  }

  lemma Pow16Of32()
    ensures Pow16(32) == 0x1_0000_0000_0000_0000_0000_0000_0000_0000
  {
    assert Pow16(8) == 0x1_0000_0000;
    assert Pow16(16) == 0x1_0000_0000_0000_0000;
    assert Pow16(24) == 0x1_0000_0000_0000_0000_0000_0000;
  }

  lemma DigitRoundTrip(d: int)
    requires 0 <= d < 16
    ensures DigitValue(HEX[d]) == d
  {
  }

  lemma {:induction false} HexRoundTrip(n: nat, k: nat)
    requires n < Pow16(k)
    ensures HexValue(HexDigits(n, k)) == n
  {
    if k > 0 {
      HexRoundTrip(n / 16, k - 1);
      DigitRoundTrip(n % 16);
      var s := HexDigits(n, k);
      assert s[..|s| - 1] == HexDigits(n / 16, k - 1);
    }
  }

  lemma GroupRoundTrip(h: string)
    requires |h| == 32
    ensures var s := Group(h); s[8] == s[13] == s[18] == s[23] == '-' && Ungroup(s) == h
  {
    var s := Group(h);
    assert s[..8] == h[..8];
    assert s[9..13] == h[8..12];
    assert s[14..18] == h[12..16];
    assert s[19..23] == h[16..20];
    assert s[24..] == h[20..];
    assert Ungroup(s) == h[..8] + h[8..12] + h[12..16] + h[16..20] + h[20..];
  }

  /** Reading undoes writing, so distinct identifiers have distinct texts. */
  lemma TextRoundTrip(u: Uuid)
    ensures Parse(Text(u)) == u
  {
    Pow16Of32();
    HexRoundTrip(u, 32);
    GroupRoundTrip(HexDigits(u, 32));
  }
}
