/** The opaque cursor of the journal: a timestamp and an identifier, in base64url. */
module Cursor {
  import opened Options
  import opened Identifiers

  type Byte = n: int | 0 <= n < 256

  // ---- Base64url without padding (RFC 4648, section 5) ----

  /** The character for six bits. */
  function Digit64(v: int): char
    requires 0 <= v < 64
  {
    if v < 26 then 'A' + v as char
    else if v < 52 then 'a' + (v - 26) as char
    else if v < 62 then '0' + (v - 52) as char
    else if v == 62 then '-' else '_'
  }

  function Value64(c: char): (v: int)
    ensures -1 <= v < 64
  {
    if 'A' <= c <= 'Z' then c as int - 'A' as int
    else if 'a' <= c <= 'z' then c as int - 'a' as int + 26
    else if '0' <= c <= '9' then c as int - '0' as int + 52
    else if c == '-' then 62 else if c == '_' then 63 else -1
  }

  function Encode64(b: seq<Byte>): string {
    if |b| == 0 then ""
    else if |b| == 1 then [Digit64(b[0] / 4), Digit64(b[0] % 4 * 16)]
    else if |b| == 2 then [Digit64(b[0] / 4), Digit64(b[0] % 4 * 16 + b[1] / 16), Digit64(b[1] % 16 * 4)]
    else
      [Digit64(b[0] / 4), Digit64(b[0] % 4 * 16 + b[1] / 16), Digit64(b[1] % 16 * 4 + b[2] / 64), Digit64(b[2] % 64)]
        + Encode64(b[3..])
  }

  /** Bits left over in the last character are ignored. */
  function Decode64(s: string): Option<seq<Byte>> {
    if |s| == 0 then Some([])
    else if |s| == 1 || Value64(s[0]) < 0 || Value64(s[1]) < 0 then None
    else
      var first := Value64(s[0]) * 4 + Value64(s[1]) / 16;
      if |s| == 2 then Some([first])
      else if Value64(s[2]) < 0 then None
      else
        var second := Value64(s[1]) % 16 * 16 + Value64(s[2]) / 4;
        if |s| == 3 then Some([first, second])
        else if Value64(s[3]) < 0 then None
        else
          var rest := Decode64(s[4..]);
          if rest.None? then None else Some([first, second, Value64(s[2]) % 4 * 64 + Value64(s[3])] + rest.value)
  }

  /** The decoder skips line breaks. */
  function WithoutBreaks(s: string): string {
    if s == "" then "" else (if s[0] == '\r' || s[0] == '\n' then "" else [s[0]]) + WithoutBreaks(s[1..])
  }

  lemma Digit64RoundTrip(v: int)
    requires 0 <= v < 64
    ensures Value64(Digit64(v)) == v && Digit64(v) != '\r' && Digit64(v) != '\n'
  {
  }

  lemma Decode64Four(s: string, rest: string, v0: int, v1: int, v2: int, v3: int)
    requires 0 <= v0 < 64 && 0 <= v1 < 64 && 0 <= v2 < 64 && 0 <= v3 < 64
    requires s == [Digit64(v0), Digit64(v1), Digit64(v2), Digit64(v3)] + rest && Decode64(rest).Some?
    ensures Decode64(s) == Some([v0 * 4 + v1 / 16, v1 % 16 * 16 + v2 / 4, v2 % 4 * 64 + v3] + Decode64(rest).value)
  {
    hide Digit64, Value64;
    Digit64RoundTrip(v0);
    Digit64RoundTrip(v1);
    Digit64RoundTrip(v2);
    Digit64RoundTrip(v3);
    assert s[4..] == rest;
  }

  /** The first byte from two groups of six bits. */
  lemma FirstByte(a: Byte, low: int)
    requires 0 <= low < 16
    ensures a / 4 < 64 && a % 4 * 16 + low < 64
    ensures a / 4 * 4 + (a % 4 * 16 + low) / 16 == a && (a % 4 * 16 + low) % 16 == low
  {
  }

  lemma SecondByte(b: Byte, low: int)
    requires 0 <= low < 4
    ensures b / 16 < 16 && b % 16 * 4 + low < 64
    ensures b / 16 * 16 + (b % 16 * 4 + low) / 4 == b && (b % 16 * 4 + low) % 4 == low
  {
  }

  lemma ThirdByte(c: Byte)
    ensures c / 64 < 4 && c % 64 < 64 && c / 64 * 64 + c % 64 == c
  {
  }

  lemma TripleBits(a: Byte, b: Byte, c: Byte)
    ensures
      var v0, v1, v2, v3 := a / 4, a % 4 * 16 + b / 16, b % 16 * 4 + c / 64, c % 64;
      && 0 <= v0 < 64 && 0 <= v1 < 64 && 0 <= v2 < 64 && 0 <= v3 < 64
      && v0 * 4 + v1 / 16 == a && v1 % 16 * 16 + v2 / 4 == b && v2 % 4 * 64 + v3 == c
  {
    FirstByte(a, b / 16);
    SecondByte(b, c / 64);
    ThirdByte(c);
  }

  lemma OneByte(a: Byte)
    ensures Decode64([Digit64(a / 4), Digit64(a % 4 * 16)]) == Some([a])
  {
    hide Digit64, Value64;
    FirstByte(a, 0);
    Digit64RoundTrip(a / 4);
    Digit64RoundTrip(a % 4 * 16);
  }

  lemma TwoBytes(a: Byte, b: Byte)
    ensures Decode64([Digit64(a / 4), Digit64(a % 4 * 16 + b / 16), Digit64(b % 16 * 4)]) == Some([a, b])
  {
    hide Digit64, Value64;
    FirstByte(a, b / 16);
    SecondByte(b, 0);
    Digit64RoundTrip(a / 4);
    Digit64RoundTrip(a % 4 * 16 + b / 16);
    Digit64RoundTrip(b % 16 * 4);
  }

  lemma ThreeBytes(a: Byte, b: Byte, c: Byte, rest: string)
    requires Decode64(rest).Some?
    ensures Decode64([Digit64(a / 4), Digit64(a % 4 * 16 + b / 16), Digit64(b % 16 * 4 + c / 64), Digit64(c % 64)] + rest)
         == Some([a, b, c] + Decode64(rest).value)
  {
    hide Digit64, Value64, Decode64;
    TripleBits(a, b, c);
    var v0, v1, v2, v3 := a / 4, a % 4 * 16 + b / 16, b % 16 * 4 + c / 64, c % 64;
    Decode64Four([Digit64(v0), Digit64(v1), Digit64(v2), Digit64(v3)] + rest, rest, v0, v1, v2, v3);
  }

  lemma {:induction false} Base64RoundTrip(b: seq<Byte>)
    ensures Decode64(Encode64(b)) == Some(b)
  {
    hide Digit64, Value64, Decode64;
    if |b| == 0 {
      DecodeNothing();
    } else if |b| == 1 {
      OneByte(b[0]);
      assert b == [b[0]];
    } else if |b| == 2 {
      TwoBytes(b[0], b[1]);
      assert b == [b[0], b[1]];
    } else {
      Base64RoundTrip(b[3..]);
      ThreeBytes(b[0], b[1], b[2], Encode64(b[3..]));
      assert b == [b[0], b[1], b[2]] + b[3..];
    }
  }

  lemma DecodeNothing()
    ensures Decode64("") == Some([])
  {
  }

  lemma {:induction false} NoBreaks(b: seq<Byte>)
    ensures forall i :: 0 <= i < |Encode64(b)| ==> Encode64(b)[i] != '\r' && Encode64(b)[i] != '\n'
  {
    if |b| > 2 { NoBreaks(b[3..]); }
  }

  lemma {:induction false} StripNothing(s: string)
    requires forall i :: 0 <= i < |s| ==> s[i] != '\r' && s[i] != '\n'
    ensures WithoutBreaks(s) == s
  {
    if s != "" { StripNothing(s[1..]); }
  }

  // ---- Decimal digits ----

  predicate IsDigit(c: char) { '0' <= c <= '9' }

  function Pow10(k: nat): (p: nat)
    ensures p >= 1
  {
    if k == 0 then 1 else 10 * Pow10(k - 1)
  }

  /** The last `k` decimal digits of `n`. */
  function Dec(n: nat, k: nat): (s: string)
    ensures |s| == k && forall i :: 0 <= i < k ==> IsDigit(s[i])
  {
    if k == 0 then "" else Dec(n / 10, k - 1) + ['0' + (n % 10) as char]
  }

  function DecValue(s: string): (v: int)
    ensures v >= -1
  {
    if s == "" then 0
    else
      var high, last := DecValue(s[..|s| - 1]), s[|s| - 1];
      if high < 0 || !IsDigit(last) then -1 else 10 * high + (last as int - '0' as int)
  }

  lemma {:induction false} DecRoundTrip(n: nat, k: nat)
    requires n < Pow10(k)
    ensures DecValue(Dec(n, k)) == n
  {
    if k > 0 {
      DecRoundTrip(n / 10, k - 1);
      assert Dec(n, k)[..k - 1] == Dec(n / 10, k - 1);
    }
  }

  // ---- Timestamps (RFC 3339, section 5.6), in UTC ----

  datatype Civil = Civil(year: int, month: int, day: int, hour: int, minute: int, second: int, nano: int)

  predicate Leap(year: int) { year % 4 == 0 && (year % 100 != 0 || year % 400 == 0) }

  function DaysIn(year: int, month: int): int {
    if month == 2 then (if Leap(year) then 29 else 28)
    else if month == 4 || month == 6 || month == 9 || month == 11 then 30 else 31
  }

  predicate ValidCivil(t: Civil) {
    && 0 <= t.year <= 9999 && 1 <= t.month <= 12 && 1 <= t.day <= DaysIn(t.year, t.month)
    && 0 <= t.hour < 24 && 0 <= t.minute < 60 && 0 <= t.second < 60 && 0 <= t.nano < 1_000_000_000
  }

  function TrimZeros(s: string): string {
    if s == "" || s[|s| - 1] != '0' then s else TrimZeros(s[..|s| - 1])
  }

  /** The fraction without trailing zeros; nothing for a whole second. */
  function Fraction(nano: nat): string { if nano == 0 then "" else "." + TrimZeros(Dec(nano, 9)) }

  function TimeText(t: Civil): string
    requires ValidCivil(t)
  {
    Dec(t.year, 4) + "-" + Dec(t.month, 2) + "-" + Dec(t.day, 2) + "T"
      + Dec(t.hour, 2) + ":" + Dec(t.minute, 2) + ":" + Dec(t.second, 2) + Fraction(t.nano) + "Z"
  }

  function Digits(s: string): (n: nat)
    ensures n <= |s|
  {
    if s == "" || !IsDigit(s[0]) then 0 else 1 + Digits(s[1..])
  }

  function Nine(s: string): (r: string)
    ensures |r| == 9
  {
    if |s| >= 9 then s[..9] else s + seq(9 - |s|, _ => '0')
  }

  /** The nanoseconds and what follows them. */
  function ParseFraction(s: string): (int, string) {
    if |s| >= 2 && s[0] == '.' && IsDigit(s[1]) then
      var n := Digits(s[1..]);
      (DecValue(Nine(s[1..1 + n])), s[1 + n..])
    else (0, s)
  }

  function ParseTime(s: string): Option<Civil> {
    if |s| < 19 || s[4] != '-' || s[7] != '-' || s[10] != 'T' || s[13] != ':' || s[16] != ':' then None
    else
      var (nano, rest) := ParseFraction(s[19..]);
      var t := Civil(DecValue(s[..4]), DecValue(s[5..7]), DecValue(s[8..10]),
                     DecValue(s[11..13]), DecValue(s[14..16]), DecValue(s[17..19]), nano);
      if rest == "Z" && ValidCivil(t) then Some(t) else None
  }

  lemma {:induction false} TrimmedZeros(s: string)
    ensures |TrimZeros(s)| <= |s| && s == TrimZeros(s) + seq(|s| - |TrimZeros(s)|, _ => '0')
    ensures (exists i :: 0 <= i < |s| && s[i] != '0') ==> TrimZeros(s) != ""
  {
    if s != "" && s[|s| - 1] == '0' {
      TrimmedZeros(s[..|s| - 1]);
      assert s == s[..|s| - 1] + "0";
    }
  }

  lemma {:induction false} AllDigits(a: string, b: string)
    requires forall i :: 0 <= i < |a| ==> IsDigit(a[i])
    requires b == "" || !IsDigit(b[0])
    ensures Digits(a + b) == |a|
  {
    if a == "" {
      assert a + b == b;
    } else {
      assert (a + b)[1..] == a[1..] + b;
      AllDigits(a[1..], b);
    }
  }

  lemma {:induction false} ZeroValue(s: string)
    requires forall i :: 0 <= i < |s| ==> s[i] == '0'
    ensures DecValue(s) == 0
  {
    if s != "" { ZeroValue(s[..|s| - 1]); }
  }

  lemma FractionRoundTrip(nano: nat)
    requires nano < 1_000_000_000
    ensures ParseFraction(Fraction(nano) + "Z") == (nano, "Z")
  {
    if nano == 0 {
      assert Fraction(nano) + "Z" == "Z";
    } else {
      var all := Dec(nano, 9);
      var f := TrimZeros(all);
      TrimmedZeros(all);
      assert Pow10(9) == 1_000_000_000;
      DecRoundTrip(nano, 9);
      assert f != "" by {
        if forall i :: 0 <= i < 9 ==> all[i] == '0' { ZeroValue(all); }
      }
      var s := Fraction(nano) + "Z";
      assert s[1..] == f + "Z";
      forall i | 0 <= i < |f| ensures IsDigit(f[i]) { assert f[i] == all[i]; }
      AllDigits(f, "Z");
      assert s[1..1 + |f|] == f && s[1 + |f|..] == "Z" && Nine(f) == all;
    }
  }

  lemma TwoDigits(n: nat)
    requires n < 100
    ensures DecValue(Dec(n, 2)) == n
  {
    assert Pow10(2) == 100;
    DecRoundTrip(n, 2);
  }

  lemma TimeParts(t: Civil)
    requires ValidCivil(t)
    ensures
      var s := TimeText(t);
      && |s| >= 19 && s[4] == '-' && s[7] == '-' && s[10] == 'T' && s[13] == ':' && s[16] == ':'
      && s[..4] == Dec(t.year, 4) && s[5..7] == Dec(t.month, 2) && s[8..10] == Dec(t.day, 2)
      && s[11..13] == Dec(t.hour, 2) && s[14..16] == Dec(t.minute, 2) && s[17..19] == Dec(t.second, 2)
      && s[19..] == Fraction(t.nano) + "Z"
  {
    hide Dec, Fraction;
  }

  lemma TimeRoundTrip(t: Civil)
    requires ValidCivil(t)
    ensures ParseTime(TimeText(t)) == Some(t)
  {
    hide Dec, Fraction, TimeText, ParseFraction;
    TimeParts(t);
    assert Pow10(4) == 10000;
    DecRoundTrip(t.year, 4);
    TwoDigits(t.month);
    TwoDigits(t.day);
    TwoDigits(t.hour);
    TwoDigits(t.minute);
    TwoDigits(t.second);
    FractionRoundTrip(t.nano);
  }

  // ---- The cursor ----

  function BytesOf(s: string): seq<Byte>
    requires forall i :: 0 <= i < |s| ==> s[i] as int < 256
  {
    seq(|s|, i requires 0 <= i < |s| => s[i] as int)
  }

  function StringOf(b: seq<Byte>): string { seq(|b|, i requires 0 <= i < |b| => b[i] as char) }

  /** The first bar, or the length. */
  function Bar(s: string): (n: nat)
    ensures n <= |s|
  {
    if s == "" || s[0] == '|' then 0 else 1 + Bar(s[1..])
  }

  datatype Place = Place(at: Civil, id: Uuid)

  predicate Plain(s: string) { forall i :: 0 <= i < |s| ==> s[i] as int < 128 && s[i] != '|' }

  lemma {:induction false} PlainHex(n: nat, k: nat)
    ensures Plain(HexDigits(n, k))
  {
    forall i | 0 <= i < k ensures HexDigits(n, k)[i] as int < 128 && HexDigits(n, k)[i] != '|' {
      assert HexDigits(n, k)[i] in HEX;
      var j :| 0 <= j < 16 && HEX[j] == HexDigits(n, k)[i];
    }
  }

  lemma PlainTexts(p: Place)
    requires ValidCivil(p.at)
    ensures Plain(TimeText(p.at)) && Plain(Text(p.id))
  {
    hide HexDigits, Dec;
    PlainHex(p.id, 32);
    PlainFraction(p.at.nano);
  }

  lemma PlainFraction(nano: nat)
    ensures Plain(Fraction(nano))
  {
    var all := Dec(nano, 9);
    var f := TrimZeros(all);
    TrimmedZeros(all);
    forall i | 0 <= i < |f| ensures f[i] as int < 128 && f[i] != '|' { assert f[i] == all[i] && IsDigit(all[i]); }
  }

  function RawCursor(p: Place): (s: string)
    requires ValidCivil(p.at)
    ensures forall i :: 0 <= i < |s| ==> s[i] as int < 256
  {
    PlainTexts(p);
    TimeText(p.at) + "|" + Text(p.id)
  }

  function Encode(p: Place): string
    requires ValidCivil(p.at)
  {
    Encode64(BytesOf(RawCursor(p)))
  }

  datatype Decoded = NoCursor | At(place: Place) | BadCursor

  function Decode(cursor: string): Decoded {
    if cursor == "" then NoCursor
    else
      var raw := Decode64(WithoutBreaks(cursor));
      if raw.None? then BadCursor
      else
        var s := StringOf(raw.value);
        var bar := Bar(s);
        if bar == |s| then BadCursor
        else
          var at, id := ParseTime(s[..bar]), Parse(s[bar + 1..]);
          if at.None? || id < 0 then BadCursor else At(Place(at.value, id))
  }

  lemma {:induction false} BarAfter(a: string, b: string)
    requires Plain(a)
    ensures Bar(a + "|" + b) == |a|
  {
    if a == "" {
      assert a + "|" + b == "|" + b;
    } else {
      assert (a + "|" + b)[1..] == a[1..] + "|" + b;
      BarAfter(a[1..], b);
    }
  }

  /** Decoding a cursor gives back the position it was made from. */
  lemma CursorRoundTrip(p: Place)
    requires ValidCivil(p.at)
    ensures Encode(p) != "" && Decode(Encode(p)) == At(p)
  {
    hide TimeText, Text, ParseTime, Parse, Plain, Encode64, Decode64, ValidCivil;
    var raw := RawCursor(p);
    var b := BytesOf(raw);
    Base64RoundTrip(b);
    NoBreaks(b);
    StripNothing(Encode64(b));
    assert StringOf(b) == raw;
    PlainTexts(p);
    BarAfter(TimeText(p.at), Text(p.id));
    assert raw[..|TimeText(p.at)|] == TimeText(p.at) && raw[|TimeText(p.at)| + 1..] == Text(p.id);
    TimeRoundTrip(p.at);
    TextRoundTrip(p.id);
    EncodedSomething(b);
  }

  lemma EncodedSomething(b: seq<Byte>)
    requires b != []
    ensures Encode64(b) != ""
  {
  }

  // ---- The written form ----

  /** Bytes as base64url writes them, padding left out. */
  lemma WrittenBytes()
    ensures Encode64([77, 97, 110]) == "TWFu" && Encode64([77, 97]) == "TWE" && Encode64([77]) == "TQ"
    ensures Encode64([251, 255]) == "-_8"
  {
    assert Encode64([77, 97, 110]) == [Digit64(19), Digit64(22), Digit64(5), Digit64(46)] + Encode64([]);
  }

  lemma TwoDigitText(n: nat, a: char, b: char)
    requires n < 100 && a == '0' + (n / 10) as char && b == '0' + (n % 10) as char
    ensures Dec(n, 2) == [a, b]
  {
    assert Dec(n / 10, 1) == Dec(n / 100, 0) + ['0' + (n / 10 % 10) as char];
  }

  lemma TrimOne(s: string)
    ensures TrimZeros(s + "0") == TrimZeros(s)
  {
    assert (s + "0")[..|s|] == s;
  }

  lemma Tenfold(n: nat, k: nat)
    ensures Dec(10 * n, k + 1) == Dec(n, k) + "0" && TrimZeros(Dec(10 * n, k + 1)) == TrimZeros(Dec(n, k))
  {
    assert 10 * n / 10 == n && 10 * n % 10 == 0;
    TrimOne(Dec(n, k));
  }

  lemma TwelveHundredths()
    ensures Fraction(120_000_000) == ".12"
  {
    hide Dec, TrimZeros;
    Tenfold(12_000_000, 8);
    Tenfold(1_200_000, 7);
    Tenfold(120_000, 6);
    Tenfold(12_000, 5);
    Tenfold(1_200, 4);
    Tenfold(120, 3);
    Tenfold(12, 2);
    TwoDigitText(12, '1', '2');
    NothingToTrim();
  }

  lemma NothingToTrim()
    ensures TrimZeros("12") == "12"
  {
  }

  /** A timestamp as RFC 3339 writes it, its fraction without trailing zeros. */
  lemma WrittenTime()
    ensures TimeText(Civil(1020, 2, 28, 7, 5, 9, 120_000_000)) == "1020-02-28T07:05:09.12Z"
  {
    hide Dec;
    TwelveHundredths();
    TenTwenty();
    TwoDigitText(2, '0', '2');
    TwoDigitText(28, '2', '8');
    TwoDigitText(7, '0', '7');
    TwoDigitText(5, '0', '5');
    TwoDigitText(9, '0', '9');
  }

  lemma TenTwenty()
    ensures Dec(1020, 4) == "1020"
  {
    TwoDigitText(10, '1', '0');
    assert Dec(102, 3) == Dec(10, 2) + "2";
    assert Dec(1020, 4) == Dec(102, 3) + "0";
  }

  /** The cursor is the timestamp, a bar and the identifier. */
  lemma CursorForm(p: Place)
    requires ValidCivil(p.at)
    ensures Decode64(Encode(p)) == Some(BytesOf(TimeText(p.at) + "|" + Text(p.id)))
  {
    Base64RoundTrip(BytesOf(RawCursor(p)));
  }

  /** Text that is not base64, has no bar, or holds no valid time or identifier is refused. */
  lemma BadCursors(cursor: string)
    ensures Decode(cursor).NoCursor? <==> cursor == ""
    ensures cursor != "" && Decode64(WithoutBreaks(cursor)).None? ==> Decode(cursor) == BadCursor
    ensures Decode(cursor).At? ==> ValidCivil(Decode(cursor).place.at)
  {
  }
}
