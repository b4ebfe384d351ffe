/** The pieces of text that the password string is made of: splitting, decimals, trimming and unpadded base64. */
module Text {
  import opened Common

  type Byte = b: int | 0 <= b < 256

  // ---- splitting -----------------------------------------------------------------------------------------

  function Split(s: string, c: char): (parts: seq<string>)
    ensures |parts| >= 1
  {
    if s == "" then [""]
    else
      var rest := Split(s[1..], c);
      if s[0] == c then [""] + rest else [[s[0]] + rest[0]] + rest[1..]
  }

  lemma {:induction false} SplitNone(s: string, c: char)
    requires c !in s
    ensures Split(s, c) == [s]
  {
    if s != "" {
      assert s == [s[0]] + s[1..];
      SplitNone(s[1..], c);
    }
  }

  /** Up to the first separator is the first part. */
  lemma {:induction false} SplitFirst(a: string, c: char, b: string)
    requires c !in a
    ensures Split(a + [c] + b, c) == [a] + Split(b, c)
  {
    var s := a + [c] + b;
    if a == "" {
      assert s[1..] == b;
    } else {
      assert a == [a[0]] + a[1..];
      assert s[1..] == a[1..] + [c] + b;
      SplitFirst(a[1..], c, b);
    }
  }

  /** The parts with a separator between each two. */
  function Join(parts: seq<string>, c: char): string
    requires |parts| >= 1
  {
    if |parts| == 1 then parts[0] else parts[0] + [c] + Join(parts[1..], c)
  }

  lemma JoinTwo(a: string, b: string, c: char)
    ensures Join([a, b], c) == a + [c] + b
  {
  }

  /** A joined text has no other characters than its parts and the separator. */
  lemma {:induction false} JoinLacks(parts: seq<string>, c: char, x: char)
    requires |parts| >= 1 && x != c && forall i :: 0 <= i < |parts| ==> x !in parts[i]
    ensures x !in Join(parts, c)
  {
    if |parts| > 1 {
      JoinLacks(parts[1..], c, x);
    }
  }

  lemma {:induction false} SplitOfJoin(parts: seq<string>, c: char)
    requires |parts| >= 1 && forall i :: 0 <= i < |parts| ==> c !in parts[i]
    ensures Split(Join(parts, c), c) == parts
  {
    if |parts| == 1 {
      SplitNone(parts[0], c);
    } else {
      SplitFirst(parts[0], c, Join(parts[1..], c));
      SplitOfJoin(parts[1..], c);
    }
  }

  lemma {:induction false} JoinOfSplit(s: string, c: char)
    ensures Join(Split(s, c), c) == s
    ensures forall i :: 0 <= i < |Split(s, c)| ==> c !in Split(s, c)[i]
  {
    if s != "" {
      var rest := Split(s[1..], c);
      JoinOfSplit(s[1..], c);
      assert s == [s[0]] + s[1..];
      if s[0] == c {
        assert ([""] + rest)[1..] == rest;
      } else if |rest| > 1 {
        assert ([[s[0]] + rest[0]] + rest[1..])[1..] == rest[1..];
        assert [s[0]] + (rest[0] + [c] + Join(rest[1..], c)) == [s[0]] + rest[0] + [c] + Join(rest[1..], c);
      }
    }
  }

  // ---- trimming ------------------------------------------------------------------------------------------

  predicate IsSpace(c: char) {
    c in "\t\n\r \U{000B}\U{000C}\U{0085}\U{00A0}\U{1680}\U{2028}\U{2029}\U{202F}\U{205F}\U{3000}"
    || '\U{2000}' <= c <= '\U{200A}'
  }

  function TrimSpace(s: string): string {
    if s != "" && IsSpace(s[0]) then TrimSpace(s[1..])
    else if s != "" && IsSpace(s[|s| - 1]) then TrimSpace(s[..|s| - 1])
    else s
  }

  // ---- decimals ------------------------------------------------------------------------------------------

  predicate IsDigit(c: char) {
    '0' <= c <= '9'
  }

  predicate AllDigits(s: string) {
    forall i :: 0 <= i < |s| ==> IsDigit(s[i])
  }

  function DigitValue(c: char): nat
    requires IsDigit(c)
  {
    c as int - '0' as int
  }

  function Decimal(s: string): nat
    requires AllDigits(s)
  {
    if s == "" then 0 else 10 * Decimal(s[..|s| - 1]) + DigitValue(s[|s| - 1])
  }

  function PrintNat(n: nat): string {
    (if n < 10 then "" else PrintNat(n / 10)) + [(n % 10 + '0' as int) as char]
  }

  lemma {:induction false} DecimalOfPrint(n: nat)
    ensures PrintNat(n) != "" && AllDigits(PrintNat(n)) && Decimal(PrintNat(n)) == n
  {
    var s := PrintNat(n);
    if n >= 10 {
      DecimalOfPrint(n / 10);
      assert s[..|s| - 1] == PrintNat(n / 10);
    } else {
      assert s[..|s| - 1] == "";
    }
  }

  /** An unsigned decimal that fits in the given number of values; no sign, no separators. */
  function ParseUint(s: string, limit: nat): Option<nat> {
    if s != "" && AllDigits(s) && Decimal(s) < limit then Some(Decimal(s)) else None
  }

  const MAX_INT64: int := 0x7FFF_FFFF_FFFF_FFFF

  /** An optionally signed decimal that fits in 64 bits. */
  function Atoi(s: string): Option<int> {
    var signed := s != "" && s[0] in {'+', '-'};
    var digits := if signed then s[1..] else s;
    if digits == "" || !AllDigits(digits) then None
    else
      var value: int := if signed && s[0] == '-' then -(Decimal(digits) as int) else Decimal(digits) as int;
      if -MAX_INT64 - 1 <= value <= MAX_INT64 then Some(value) else None
  }

  lemma PrintedParses(n: nat, limit: nat)
    requires n < limit
    ensures ParseUint(PrintNat(n), limit) == Some(n)
  {
    DecimalOfPrint(n);
  }

  lemma DigitsAreNot(s: string, c: char)
    requires AllDigits(s) && !IsDigit(c)
    ensures c !in s
  {
  }

  lemma PrintedIsTrimmed(n: nat)
    ensures TrimSpace(PrintNat(n)) == PrintNat(n)
  {
    DecimalOfPrint(n);
    TrimmedAlready(PrintNat(n));
  }

  lemma TrimmedAlready(s: string)
    requires AllDigits(s) && s != ""
    ensures TrimSpace(s) == s
  {
    var first, last := s[0], s[|s| - 1];
    assert IsDigit(first) && IsDigit(last);
    assert !IsSpace(first) && !IsSpace(last);
  }

  // ---- base64 without padding --------------------------------------------------------------------------------

  function Letter(v: int): char
    requires 0 <= v < 64
  {
    if v < 26 then ('A' as int + v) as char
    else if v < 52 then ('a' as int + v - 26) as char
    else if v < 62 then ('0' as int + v - 52) as char
    else if v == 62 then '+'
    else '/'
  }

  function LetterValue(c: char): (v: Option<int>)
    ensures v.Some? ==> 0 <= v.value < 64 && Letter(v.value) == c
  {
    if 'A' <= c <= 'Z' then Some(c as int - 'A' as int)
    else if 'a' <= c <= 'z' then Some(c as int - 'a' as int + 26)
    else if '0' <= c <= '9' then Some(c as int - '0' as int + 52)
    else if c == '+' then Some(62)
    else if c == '/' then Some(63)
    else None
  }

  function Encode(bytes: seq<Byte>): string {
    if |bytes| == 0 then ""
    else if |bytes| == 1 then [Letter(bytes[0] / 4), Letter(bytes[0] % 4 * 16)]
    else if |bytes| == 2 then
      [Letter(bytes[0] / 4), Letter(bytes[0] % 4 * 16 + bytes[1] / 16), Letter(bytes[1] % 16 * 4)]
    else
      [Letter(bytes[0] / 4), Letter(bytes[0] % 4 * 16 + bytes[1] / 16), Letter(bytes[1] % 16 * 4 + bytes[2] / 64),
       Letter(bytes[2] % 64)] + Encode(bytes[3..])
  }

  function WithoutLineBreaks(s: string): string {
    if s == "" then ""
    else (if s[0] in {'\r', '\n'} then "" else [s[0]]) + WithoutLineBreaks(s[1..])
  }

  /** The decoder skips line breaks and does not look at the unused bits of the last letter. */
  function Decode(s: string): Option<seq<Byte>> {
    DecodeLetters(WithoutLineBreaks(s))
  }

  function DecodeLetters(s: string): Option<seq<Byte>> {
    if |s| == 0 then Some([])
    else if |s| == 1 || LetterValue(s[0]).None? || LetterValue(s[1]).None? then None
    else
      var v0, v1 := LetterValue(s[0]).value, LetterValue(s[1]).value;
      var b0: Byte := v0 * 4 + v1 / 16;
      if |s| == 2 then Some([b0])
      else if LetterValue(s[2]).None? then None
      else
        var v2 := LetterValue(s[2]).value;
        var b1: Byte := v1 % 16 * 16 + v2 / 4;
        if |s| == 3 then Some([b0, b1])
        else if LetterValue(s[3]).None? then None
        else
          var rest := DecodeLetters(s[4..]);
          if rest.None? then None else Some([b0, b1, v2 % 4 * 64 + LetterValue(s[3]).value] + rest.value)
  }

  lemma LetterRoundTrip(v: int)
    requires 0 <= v < 64
    ensures LetterValue(Letter(v)) == Some(v)
    ensures Letter(v) !in {'$', ',', '=', '\r', '\n'}
  {
  }

  predicate AllLetters(s: string) {
    forall i :: 0 <= i < |s| ==> LetterValue(s[i]).Some?
  }

  /** Three bytes in four letters and back; with fewer bytes the rest is zero. */
  lemma Regrouped(b0: Byte, b1: Byte, b2: Byte)
    ensures var v0, v1, v2, v3 := b0 / 4, b0 % 4 * 16 + b1 / 16, b1 % 16 * 4 + b2 / 64, b2 % 64;
      && 0 <= v0 < 64 && 0 <= v1 < 64 && 0 <= v2 < 64 && 0 <= v3 < 64
      && v0 * 4 + v1 / 16 == b0 && v1 % 16 * 16 + v2 / 4 == b1 && v2 % 4 * 64 + v3 == b2
  {
  }

  lemma Regrouped1(b0: Byte, v0: int, v1: int)
    requires v0 == b0 / 4 && v1 == b0 % 4 * 16
    ensures 0 <= v0 < 64 && 0 <= v1 < 64 && v0 * 4 + v1 / 16 == b0
  {
  }

  lemma Regrouped2(b0: Byte, b1: Byte, v0: int, v1: int, v2: int)
    requires v0 == b0 / 4 && v1 == b0 % 4 * 16 + b1 / 16 && v2 == b1 % 16 * 4
    ensures 0 <= v0 < 64 && 0 <= v1 < 64 && 0 <= v2 < 64
    ensures v0 * 4 + v1 / 16 == b0 && v1 % 16 * 16 + v2 / 4 == b1
  {
  }

  lemma DecodeFour(v0: int, v1: int, v2: int, v3: int, rest: string)
    requires 0 <= v0 < 64 && 0 <= v1 < 64 && 0 <= v2 < 64 && 0 <= v3 < 64
    ensures DecodeLetters([Letter(v0), Letter(v1)]) == Some([v0 * 4 + v1 / 16])
    ensures DecodeLetters([Letter(v0), Letter(v1), Letter(v2)]) == Some([v0 * 4 + v1 / 16, v1 % 16 * 16 + v2 / 4])
    ensures DecodeLetters(rest).Some? ==>
      DecodeLetters([Letter(v0), Letter(v1), Letter(v2), Letter(v3)] + rest)
      == Some([v0 * 4 + v1 / 16, v1 % 16 * 16 + v2 / 4, v2 % 4 * 64 + v3] + DecodeLetters(rest).value)
  {
    hide Letter, LetterValue;
    LetterRoundTrip(v0);
    LetterRoundTrip(v1);
    LetterRoundTrip(v2);
    LetterRoundTrip(v3);
    assert ([Letter(v0), Letter(v1), Letter(v2), Letter(v3)] + rest)[4..] == rest;
  }

  lemma {:induction false} EncodeDecodes(bytes: seq<Byte>)
    ensures DecodeLetters(Encode(bytes)) == Some(bytes)
    decreases |bytes|
  {
    hide Letter, LetterValue, DecodeLetters;
    if |bytes| == 0 {
      NothingDecodes();
    } else if |bytes| == 1 {
      OneDecodes(bytes);
    } else if |bytes| == 2 {
      TwoDecodes(bytes);
    } else {
      var b0, b1, b2, rest := bytes[0], bytes[1], bytes[2], bytes[3..];
      Regrouped(b0, b1, b2);
      EncodeDecodes(rest);
      DecodeFour(b0 / 4, b0 % 4 * 16 + b1 / 16, b1 % 16 * 4 + b2 / 64, b2 % 64, Encode(rest));
      assert bytes == [b0, b1, b2] + rest;
    }
  }

  lemma OneDecodes(bytes: seq<Byte>)
    requires |bytes| == 1
    ensures DecodeLetters(Encode(bytes)) == Some(bytes)
  {
    hide Letter, LetterValue, DecodeLetters;
    var v0, v1 := bytes[0] / 4, bytes[0] % 4 * 16;
    Regrouped1(bytes[0], v0, v1);
    assert Encode(bytes) == [Letter(v0), Letter(v1)];
    hide Encode;
    DecodeFour(v0, v1, 0, 0, "");
    assert bytes == [bytes[0]];
  }

  lemma TwoDecodes(bytes: seq<Byte>)
    requires |bytes| == 2
    ensures DecodeLetters(Encode(bytes)) == Some(bytes)
  {
    hide Letter, LetterValue, DecodeLetters;
    var v0, v1, v2 := bytes[0] / 4, bytes[0] % 4 * 16 + bytes[1] / 16, bytes[1] % 16 * 4;
    Regrouped2(bytes[0], bytes[1], v0, v1, v2);
    assert Encode(bytes) == [Letter(v0), Letter(v1), Letter(v2)];
    hide Encode;
    DecodeFour(v0, v1, v2, 0, "");
    assert bytes == [bytes[0], bytes[1]];
  }

  lemma NothingDecodes()
    ensures DecodeLetters("") == Some([])
  {
  }

  lemma {:induction false} EncodedLetters(bytes: seq<Byte>)
    ensures AllLetters(Encode(bytes))
    ensures bytes != [] ==> Encode(bytes) != ""
  {
    hide Letter, LetterValue;
    if |bytes| != 0 {
      Regrouped(bytes[0], if |bytes| > 1 then bytes[1] else 0, if |bytes| > 2 then bytes[2] else 0);
      forall v | 0 <= v < 64 ensures LetterValue(Letter(v)).Some? {
        LetterRoundTrip(v);
      }
      if |bytes| > 2 {
        EncodedLetters(bytes[3..]);
      }
    }
  }

  lemma {:induction false} LettersHaveNoBreaks(s: string)
    requires AllLetters(s)
    ensures WithoutLineBreaks(s) == s
  {
    if s != "" {
      assert s == [s[0]] + s[1..];
      LettersHaveNoBreaks(s[1..]);
    }
  }

  /** Decoding undoes encoding, for every byte string. */
  lemma Base64RoundTrip(bytes: seq<Byte>)
    ensures Decode(Encode(bytes)) == Some(bytes)
  {
    EncodeDecodes(bytes);
    EncodedLetters(bytes);
    LettersHaveNoBreaks(Encode(bytes));
  }

  /** The other way round it does not hold: several strings decode to the same bytes. */
  lemma DecodingIsNotInjective()
    ensures Decode("AA") == Decode("AB") == Decode("A\nA") == Some([0])
  {
  }

  lemma EncodedIsNot(bytes: seq<Byte>, c: char)
    requires c in {'$', ',', '='}
    ensures c !in Encode(bytes)
  {
    EncodedLetters(bytes);
  }
}
