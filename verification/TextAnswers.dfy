/** What the library functions of `Text` are, said without them. */
module TextAnswers {
  import opened Common
  import opened Text

  // ---- trimming ------------------------------------------------------------------------------------------

  /** The characters of the Unicode property White_Space. */
  lemma SpacesAre(c: char)
    ensures IsSpace(c) <==>
      c as int in {0x9, 0xA, 0xB, 0xC, 0xD, 0x20, 0x85, 0xA0, 0x1680, 0x2000, 0x2001, 0x2002, 0x2003, 0x2004, 0x2005, 0x2006, 0x2007,
                   0x2008, 0x2009, 0x200A, 0x2028, 0x2029, 0x202F, 0x205F, 0x3000}
  {
  }

  predicate AllSpaces(s: string) {
    forall i :: 0 <= i < |s| ==> IsSpace(s[i])
  }

  /** Trimming takes away the spaces on both sides and nothing else. */
  lemma {:induction false} TrimsBothSides(left: string, s: string, right: string)
    requires AllSpaces(left) && AllSpaces(right) && (s != "" ==> !IsSpace(s[0]) && !IsSpace(s[|s| - 1]))
    ensures TrimSpace(left + s + right) == s
    decreases |left| + |right|
  {
    hide IsSpace;
    var all := left + s + right;
    if left != "" {
      assert all[0] == left[0] && all[1..] == left[1..] + s + right;
      TrimsBothSides(left[1..], s, right);
    } else if s == "" && right != "" {
      assert all[0] == right[0] && all[1..] == left + s + right[1..];
      TrimsBothSides(left, s, right[1..]);
    } else if right != "" {
      assert all[|all| - 1] == right[|right| - 1] && all[..|all| - 1] == left + s + right[..|right| - 1];
      TrimsBothSides(left, s, right[..|right| - 1]);
    } else {
      assert all == s;
    }
  }

  // ---- decimals ------------------------------------------------------------------------------------------

  /** A digit at the end adds its value to ten times the number. */
  lemma LastDigit(s: string, v: nat)
    requires AllDigits(s) && v < 10
    ensures var d := "0123456789"[v]; AllDigits(s + [d]) && Decimal(s + [d]) == 10 * Decimal(s) + v
    ensures Decimal("") == 0
  {
    var d := "0123456789"[v];
    assert d as int == '0' as int + v;
    assert (s + [d])[..|s|] == s;
  }

  /** Zeros in front count nothing. */
  lemma {:induction false} LeadingZeros(zeros: string, s: string)
    requires AllDigits(s) && forall i :: 0 <= i < |zeros| ==> zeros[i] == '0'
    ensures AllDigits(zeros + s) && Decimal(zeros + s) == Decimal(s)
    decreases |zeros| + |s|
  {
    var all := zeros + s;
    if s != "" {
      assert all[..|all| - 1] == zeros + s[..|s| - 1];
      LeadingZeros(zeros, s[..|s| - 1]);
    } else if zeros != "" {
      assert all[..|all| - 1] == zeros[..|zeros| - 1] + s;
      LeadingZeros(zeros[..|zeros| - 1], s);
    }
  }

  /** An integer is a number with an optional sign, from -2^63 to 2^63 - 1, and a number without a sign is one below the limit. */
  lemma SignedReads(n: nat, limit: nat)
    ensures Atoi(PrintNat(n)) == Atoi("+" + PrintNat(n)) == if n < 0x8000_0000_0000_0000 then Some(n) else None
    ensures Atoi("-" + PrintNat(n)) == if n <= 0x8000_0000_0000_0000 then Some(-(n as int)) else None
    ensures ParseUint(PrintNat(n), limit) == if n < limit then Some(n) else None
    ensures ParseUint("-" + PrintNat(n), limit) == None && ParseUint("+" + PrintNat(n), limit) == None
  {
    hide PrintNat, Decimal;
    DecimalOfPrint(n);
    var s := PrintNat(n);
    assert IsDigit(s[0]);
    assert ("-" + s)[1..] == s && ("+" + s)[1..] == s;
    assert !IsDigit(("-" + s)[0]) && !IsDigit(("+" + s)[0]);
  }

  /** Anything else is not a number. */
  lemma OthersDoNotRead(s: string, i: nat, limit: nat)
    requires s == "" || s in {"+", "-"} || (i < |s| && !IsDigit(s[i]) && (i == 0 ==> s[i] !in {'+', '-'}))
    ensures Atoi(s) == None && ParseUint(s, limit) == None
  {
    hide Decimal;
    if s != "" && s !in {"+", "-"} && s[0] in {'+', '-'} {
      assert s[1..][i - 1] == s[i];
    }
  }

  // ---- base64 ----------------------------------------------------------------------------------------------

  /** The alphabet of table 1 of RFC 4648: A to Z, a to z, 0 to 9, and two signs. */
  lemma Alphabet(v: nat)
    requires v < 63
    ensures Letter(0) == 'A' && Letter(26) == 'a' && Letter(52) == '0' && Letter(62) == '+' && Letter(63) == '/'
    ensures v !in {25, 51, 61, 62} ==> Letter(v + 1) as int == Letter(v) as int + 1
  {
  }

  lemma GroupNumber(b0: Byte, b1: Byte, b2: Byte)
    ensures ((b0 / 4 * 64 + b0 % 4 * 16 + b1 / 16) * 64 + b1 % 16 * 4 + b2 / 64) * 64 + b2 % 64 == b0 * 0x1_0000 + b1 * 0x100 + b2
    ensures (b0 / 4 * 64 + b0 % 4 * 16 + b1 / 16) * 64 + b1 % 16 * 4 == (b0 * 0x100 + b1) * 4
    ensures b0 / 4 * 64 + b0 % 4 * 16 == b0 * 16
  {
    assert b0 == b0 / 4 * 4 + b0 % 4 && b1 == b1 / 16 * 16 + b1 % 16 && b2 == b2 / 64 * 64 + b2 % 64;
  }

  /** Three bytes make four letters, with the same number read to base 256 and to base 64; one and two bytes are filled up with zero
    * bits. */
  lemma LettersSpellBytes(b0: Byte, b1: Byte, b2: Byte, rest: seq<Byte>)
    ensures Encode([b0, b1, b2] + rest) == Encode([b0, b1, b2]) + Encode(rest)
    ensures Spells(Encode([b0, b1, b2]), 4, b0 * 0x1_0000 + b1 * 0x100 + b2)
    ensures Spells(Encode([b0, b1]), 3, (b0 * 0x100 + b1) * 4)
    ensures Spells(Encode([b0]), 2, b0 * 16)
    ensures Encode([]) == ""
  {
    Groups(b0, b1, b2, rest);
    GroupNumber(b0, b1, b2);
    hide *;
    SpelledBy(b0 / 4, b0 % 4 * 16 + b1 / 16, b1 % 16 * 4 + b2 / 64, b2 % 64);
    SpelledBy(b0 / 4, b0 % 4 * 16 + b1 / 16, b1 % 16 * 4, 0);
    SpelledBy(b0 / 4, b0 % 4 * 16, 0, 0);
  }

  lemma Groups(b0: Byte, b1: Byte, b2: Byte, rest: seq<Byte>)
    ensures var v0, v1, v2, v3 := b0 / 4, b0 % 4 * 16 + b1 / 16, b1 % 16 * 4 + b2 / 64, b2 % 64;
      && 0 <= v0 < 64 && 0 <= v1 < 64 && 0 <= v2 < 64 && 0 <= v3 < 64
      && 0 <= b1 % 16 * 4 < 64 && 0 <= b0 % 4 * 16 < 64
      && Encode([b0, b1, b2] + rest) == [Letter(v0), Letter(v1), Letter(v2), Letter(v3)] + Encode(rest)
      && Encode([b0, b1, b2]) == [Letter(v0), Letter(v1), Letter(v2), Letter(v3)]
      && Encode([b0, b1]) == [Letter(v0), Letter(v1), Letter(b1 % 16 * 4)]
      && Encode([b0]) == [Letter(v0), Letter(b0 % 4 * 16)]
      && Encode([]) == ""
  {
    hide Letter;
    Regrouped(b0, b1, b2);
    assert ([b0, b1, b2] + rest)[3..] == rest && [b0, b1, b2][3..] == [];
  }

  lemma SpelledBy(v0: int, v1: int, v2: int, v3: int)
    requires 0 <= v0 < 64 && 0 <= v1 < 64 && 0 <= v2 < 64 && 0 <= v3 < 64
    ensures Spells([Letter(v0), Letter(v1)], 2, v0 * 64 + v1)
    ensures Spells([Letter(v0), Letter(v1), Letter(v2)], 3, (v0 * 64 + v1) * 64 + v2)
    ensures Spells([Letter(v0), Letter(v1), Letter(v2), Letter(v3)], 4, ((v0 * 64 + v1) * 64 + v2) * 64 + v3)
  {
    hide Letter, LetterValue;
    LetterRoundTrip(v0);
    LetterRoundTrip(v1);
    LetterRoundTrip(v2);
    LetterRoundTrip(v3);
    var two, three := [Letter(v0), Letter(v1)], [Letter(v0), Letter(v1), Letter(v2)];
    var four := [Letter(v0), Letter(v1), Letter(v2), Letter(v3)];
    assert two[..1] == [Letter(v0)] && [Letter(v0)][..0] == "";
    assert three[..2] == two && four[..3] == three;
    assert ToBase64([Letter(v0)]) == v0;
    assert ToBase64(two) == v0 * 64 + v1;
    assert ToBase64(three) == (v0 * 64 + v1) * 64 + v2;
    assert ToBase64(four) == ((v0 * 64 + v1) * 64 + v2) * 64 + v3;
  }

  /** The letters are the digits, to base 64, of the number. */
  predicate Spells(letters: string, count: nat, number: int) {
    |letters| == count && AllLetters(letters) && ToBase64(letters) == number
  }

  function ToBase64(letters: string): int
    requires AllLetters(letters)
  {
    if letters == "" then 0 else ToBase64(letters[..|letters| - 1]) * 64 + LetterValue(letters[|letters| - 1]).value
  }

  /** The test vectors of section 10 of RFC 4648, without their padding. */
  lemma TestVectors()
    ensures Encode([102]) == "Zg" && Encode([102, 111]) == "Zm8" && Encode([102, 111, 111]) == "Zm9v"
    ensures Encode([102, 111, 111] + [98]) == "Zm9vYg" && Encode([102, 111, 111] + [98, 97]) == "Zm9vYmE"
    ensures Encode([102, 111, 111] + [98, 97, 114]) == "Zm9vYmFy"
  {
    LettersSpellBytes(102, 111, 111, [98]);
    LettersSpellBytes(102, 111, 111, [98, 97]);
    LettersSpellBytes(102, 111, 111, [98, 97, 114]);
    SingleGroups();
    hide Encode;
  }

  lemma SingleGroups()
    ensures Encode([102]) == "Zg" && Encode([102, 111]) == "Zm8" && Encode([102, 111, 111]) == "Zm9v"
    ensures Encode([98]) == "Yg" && Encode([98, 97]) == "YmE" && Encode([98, 97, 114]) == "YmFy"
  {
  }
}
