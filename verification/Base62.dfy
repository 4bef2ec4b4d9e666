/** Opaque tokens in base 62: big-endian bytes to digits and back. */
module Base62 {

  type Byte = b: nat | b < 256

  /** The alphabet: the digits, then upper-case, then lower-case letters. */
  function Digit(d: nat): (c: char)
    requires d < 62
    ensures IsDigit(c) && DigitValue(c) == d
  {
    if d < 10 then ('0' as int + d) as char
    else if d < 36 then ('A' as int + d - 10) as char
    else ('a' as int + d - 36) as char
  }

  const ALPHABET := "0123456789" + "ABCDEFGHIJKLMNOPQRSTUVWXYZ" + "abcdefghijklmnopqrstuvwxyz"

  lemma DigitsAreTheAlphabet(d: nat)
    requires d < 62
    ensures |ALPHABET| == 62 && Digit(d) == ALPHABET[d]
  {
    hide IsDigit, DigitValue;
    var digits, upper, lower := "0123456789", "ABCDEFGHIJKLMNOPQRSTUVWXYZ", "abcdefghijklmnopqrstuvwxyz";
    assert digits == seq(10, i requires 0 <= i < 10 => ('0' as int + i) as char);
    assert upper == seq(26, i requires 0 <= i < 26 => ('A' as int + i) as char);
    assert lower == seq(26, i requires 0 <= i < 26 => ('a' as int + i) as char);
  }

  predicate IsDigit(c: char) {
    '0' <= c <= '9' || 'A' <= c <= 'Z' || 'a' <= c <= 'z'
  }

  function Pow(base: nat, e: nat): nat {
    if e == 0 then 1 else base * Pow(base, e - 1)
  }

  /** big.Int.SetBytes. */
  function Number(bytes: seq<Byte>): nat {
    if bytes == [] then 0 else 256 * Number(bytes[..|bytes| - 1]) + bytes[|bytes| - 1]
  }

  /** The first byte weighs most. */
  lemma {:induction false} NumberIsBigEndian(bytes: seq<Byte>)
    requires bytes != []
    ensures Number(bytes) == bytes[0] * Pow(256, |bytes| - 1) + Number(bytes[1..])
  {
    if |bytes| > 1 {
      var front, n := bytes[..|bytes| - 1], |bytes| - 1;
      NumberIsBigEndian(front);
      assert bytes[1..][..|bytes[1..]| - 1] == front[1..];
      assert Pow(256, n) == 256 * Pow(256, n - 1);
      Shift(bytes[0], Pow(256, n - 1), Number(front[1..]));
    }
  }

  lemma Shift(x: nat, y: nat, z: nat)
    ensures 256 * (x * y + z) == x * (256 * y) + 256 * z
  {}

  function DigitValue(c: char): (d: nat)
    ensures d < 62
  {
    if '0' <= c <= '9' then c as int - '0' as int
    else if 'A' <= c <= 'Z' then c as int - 'A' as int + 10
    else if 'a' <= c <= 'z' then c as int - 'a' as int + 36
    else 0
  }

  /** Positional value of a text, most significant digit first. */
  function Decode(text: string): nat {
    if text == "" then 0 else 62 * Decode(text[..|text| - 1]) + DigitValue(text[|text| - 1])
  }

  /** Digits only, and no leading zero digit. */
  predicate Canonical(text: string) {
    IsDigits(text) && (text != "" ==> text[0] != '0')
  }

  /** Positional value of a text, least significant digit first. */
  function DecodeReversed(text: string): nat {
    if text == "" then 0 else DigitValue(text[0]) + 62 * DecodeReversed(text[1..])
  }

  predicate IsDigits(text: string) {
    forall c :: c in text ==> IsDigit(c)
  }

  lemma Commutes(x: nat, y: nat, z: nat)
    ensures x * (y * z) == y * (x * z)
  {}

  lemma {:induction false} DecodeAppendReversed(text: string, c: char)
    ensures DecodeReversed(text + [c]) == DecodeReversed(text) + DigitValue(c) * Pow(62, |text|)
  {
    if text != "" {
      DecodeAppendReversed(text[1..], c);
      assert (text + [c])[1..] == text[1..] + [c];
      Commutes(62, DigitValue(c), Pow(62, |text| - 1));
    }
  }

  function Reversed(text: string): string {
    seq(|text|, i requires 0 <= i < |text| => text[|text| - 1 - i])
  }

  lemma {:induction false} DecodeOfReversed(text: string)
    ensures Decode(Reversed(text)) == DecodeReversed(text)
  {
    if text != "" {
      DecodeOfReversed(text[1..]);
      assert Reversed(text)[..|text| - 1] == Reversed(text[1..]);
    }
  }

  lemma Regroup(x: nat, y: nat, z: nat)
    ensures (62 * x + y) * z == x * (62 * z) + y * z
  {}

  /** What a reversed text and the number still to be written stand for together. */
  function Value(text: string, n: nat): nat {
    DecodeReversed(text) + n * Pow(62, |text|)
  }

  /** Moving one digit from the number to the text keeps the value. */
  lemma DigitStep(text: string, n: nat, quotient: nat, mod: nat)
    requires n == 62 * quotient + mod && mod < 62
    ensures Value(text + [Digit(mod)], quotient) == Value(text, n)
  {
    var p := Pow(62, |text|);
    DecodeAppendReversed(text, Digit(mod));
    assert Pow(62, |text| + 1) == 62 * p;
    Regroup(quotient, mod, p);
    hide DecodeReversed, Pow, Digit, DigitValue;
  }

  lemma NothingWritten(n: nat)
    ensures Value("", n) == n
  {}

  lemma AllWritten(text: string)
    ensures Value(text, 0) == DecodeReversed(text)
  {
    hide Pow, DecodeReversed;
  }

  method ToBase62(bytes: seq<Byte>) returns (text: string)
    ensures Decode(text) == Number(bytes)
    ensures Canonical(text)
  {
    assert DigitValue('0') == 0;
    hide Number, Decode, DecodeReversed, DigitValue, Digit, Pow, Value;
    var n := Number(bytes);
    var result: string := "";
    NothingWritten(n);
    while n > 0
      invariant IsDigits(result)
      invariant Value(result, n) == Number(bytes)
      invariant n == 0 ==> result == "" || result[|result| - 1] != '0'
    {
      var quotient, mod := n / 62, n % 62;
      DigitStep(result, n, quotient, mod);
      result := result + [Digit(mod)];
      n := quotient;
    }
    AllWritten(result);
    var s := new char[|result|](i requires 0 <= i < |result| => result[i]);
    assert s[..] == result;
    ReverseInPlace(s);
    DecodeOfReversed(result);
    text := s[..];
  }

  method ReverseInPlace(s: array<char>)
    modifies s
    ensures s[..] == Reversed(old(s[..]))
  {
    var i, j := 0, s.Length - 1;
    while i < j
      invariant 0 <= i <= s.Length && j == s.Length - 1 - i && i <= j + 1
      invariant forall k :: 0 <= k < i ==> s[k] == old(s[s.Length - 1 - k]) && s[s.Length - 1 - k] == old(s[k])
      invariant forall k :: i <= k <= j ==> s[k] == old(s[k])
    {
      s[i], s[j] := s[j], s[i];
      i, j := i + 1, j - 1;
    }
  }

  // ---------------------------------------------------------------- what the text determines

  lemma DigitsDiffer(a: char, b: char)
    requires IsDigit(a) && IsDigit(b) && DigitValue(a) == DigitValue(b)
    ensures a == b
  {}

  /** The last digit counts once, everything before it 62 times. */
  lemma DecodeUnfold(text: string)
    requires text != ""
    ensures Decode(text) == 62 * Decode(text[..|text| - 1]) + DigitValue(text[|text| - 1])
  {}

  lemma CanonicalPrefix(text: string)
    requires Canonical(text) && |text| > 1
    ensures Canonical(text[..|text| - 1])
  {
    assert forall c :: c in text[..|text| - 1] ==> c in text;
  }

  lemma SplitBase(m: nat, n: nat, x: nat, y: nat, base: nat)
    requires base == 62 || base == 256
    requires x < base && y < base && base * m + x == base * n + y
    ensures m == n && x == y
  {}

  /** A text without a leading zero digit lies between two powers of 62 that give its length. */
  lemma {:induction false} DecodeBounds(text: string)
    requires Canonical(text) && text != ""
    ensures Pow(62, |text| - 1) <= Decode(text) < Pow(62, |text|)
  {
    DecodeUnfold(text);
    assert Pow(62, |text|) == 62 * Pow(62, |text| - 1);
    if |text| == 1 {
      assert text[0] in text;
      if DigitValue(text[0]) == 0 {
        DigitsDiffer(text[0], '0');
        assert false;
      }
    } else {
      CanonicalPrefix(text);
      DecodeBounds(text[..|text| - 1]);
    }
  }

  /** Without leading zero digits a number has one text. */
  lemma {:induction false} DecodeIsInjective(a: string, b: string)
    requires Canonical(a) && Canonical(b) && Decode(a) == Decode(b)
    ensures a == b
    decreases |a|
  {
    hide Canonical, Decode, Pow, DigitValue;
    if a == "" || b == "" {
      EmptyIsZero();
      if a != b {
        DecodeIsPositive(if a == "" then b else a);
        assert false;
      }
    } else {
      DecodeUnfold(a);
      DecodeUnfold(b);
      var a', b' := a[..|a| - 1], b[..|b| - 1];
      SplitBase(Decode(a'), Decode(b'), DigitValue(a[|a| - 1]), DigitValue(b[|b| - 1]), 62);
      LastDigits(a, b);
      PrefixCanonical(a);
      PrefixCanonical(b);
      DecodeIsInjective(a', b');
      assert a == a' + [a[|a| - 1]] && b == b' + [b[|b| - 1]];
    }
  }

  lemma EmptyIsZero()
    ensures Decode("") == 0
  {}

  lemma DecodeIsPositive(text: string)
    requires Canonical(text) && text != ""
    ensures Decode(text) > 0
  {
    DecodeBounds(text);
    PowPositive(62, |text| - 1);
  }

  lemma {:induction false} PowPositive(base: nat, e: nat)
    requires base > 0
    ensures Pow(base, e) > 0
  {
    if e > 0 {
      PowPositive(base, e - 1);
    }
  }

  lemma LastDigits(a: string, b: string)
    requires Canonical(a) && Canonical(b) && a != "" && b != ""
    requires DigitValue(a[|a| - 1]) == DigitValue(b[|b| - 1])
    ensures a[|a| - 1] == b[|b| - 1]
  {
    DigitsDiffer(a[|a| - 1], b[|b| - 1]);
  }

  lemma PrefixCanonical(text: string)
    requires Canonical(text) && text != ""
    ensures Canonical(text[..|text| - 1])
  {
    if |text| > 1 {
      CanonicalPrefix(text);
    } else {
      assert text[..0] == "";
    }
  }

  lemma {:induction false} NumberBound(bytes: seq<Byte>)
    ensures Number(bytes) < Pow(256, |bytes|)
  {
    if bytes != [] {
      NumberBound(bytes[..|bytes| - 1]);
    }
  }

  lemma {:induction false} NumberIsInjective(a: seq<Byte>, b: seq<Byte>)
    requires |a| == |b| && Number(a) == Number(b)
    ensures a == b
  {
    if a != [] {
      SplitBase(Number(a[..|a| - 1]), Number(b[..|b| - 1]), a[|a| - 1], b[|b| - 1], 256);
      NumberIsInjective(a[..|a| - 1], b[..|b| - 1]);
      assert a == a[..|a| - 1] + [a[|a| - 1]] && b == b[..|b| - 1] + [b[|b| - 1]];
    }
  }

  /** Inputs of equal length have the same text exactly when they are the same. */
  lemma EqualTexts(a: seq<Byte>, b: seq<Byte>, s: string, t: string)
    requires |a| == |b|
    requires Canonical(s) && Decode(s) == Number(a)
    requires Canonical(t) && Decode(t) == Number(b)
    ensures s == t <==> a == b
  {
    if s == t {
      NumberIsInjective(a, b);
    }
    if a == b {
      DecodeIsInjective(s, t);
    }
  }

  lemma TimesGrows(x: nat, y: nat)
    requires x > 0
    ensures x * y >= y
  {}

  lemma {:induction false} PowMonotone(base: nat, a: nat, b: nat)
    requires base > 0 && a <= b
    ensures Pow(base, a) <= Pow(base, b)
  {
    if a < b {
      PowMonotone(base, a, b - 1);
      TimesGrows(base, Pow(base, b - 1));
    }
  }

  /** The text has at most k digits exactly when the number is below 62^k. */
  lemma LengthIff(text: string, k: nat)
    requires Canonical(text)
    ensures |text| <= k <==> Decode(text) < Pow(62, k)
  {
    if text == "" {
      PowPositive(62, k);
    } else {
      DecodeBounds(text);
      if |text| > k {
        PowMonotone(62, k, |text| - 1);
      } else {
        PowMonotone(62, |text|, k);
      }
    }
  }

  lemma Associates(x: nat, y: nat, z: nat)
    ensures x * (y * z) == (x * y) * z
  {}

  lemma {:induction false} PowAdd(base: nat, a: nat, b: nat)
    ensures Pow(base, a + b) == Pow(base, a) * Pow(base, b)
  {
    if a > 0 {
      PowAdd(base, a - 1, b);
      Associates(base, Pow(base, a - 1), Pow(base, b));
    }
  }

  lemma Times(base: nat, a: nat, b: nat, x: nat, y: nat)
    requires Pow(base, a) == x && Pow(base, b) == y
    ensures Pow(base, a + b) == x * y
  {
    PowAdd(base, a, b);
  }

  /** Codes of 16 bytes take at most 22 characters, tokens of 32 bytes at most 43. */
  lemma TokenLengths(bytes: seq<Byte>, text: string)
    requires Canonical(text) && Decode(text) == Number(bytes)
    ensures |bytes| == 16 ==> |text| <= 22
    ensures |bytes| == 32 ==> |text| <= 43
  {
    hide Pow, Canonical, Decode, Number;
    NumberBound(bytes);
    LengthIff(text, 22);
    LengthIff(text, 43);
    Powers();
  }

  lemma Powers()
    ensures Pow(256, 16) <= Pow(62, 22) && Pow(256, 32) <= Pow(62, 43)
  {
    assert Pow(62, 1) == 62 * Pow(62, 0) && Pow(256, 1) == 256 * Pow(256, 0);
    hide Pow;
    Times(62, 1, 1, 62, 62);
    Times(62, 2, 2, 3844, 3844);
    Times(62, 4, 1, 14776336, 62);
    Times(62, 5, 5, 916132832, 916132832);
    Times(62, 10, 10, 839299365868340224, 839299365868340224);
    Times(62, 20, 1, 704423425546998022968330264616370176, 62);
    Times(62, 21, 1, 43674252383913877424036476406214950912, 62);
    Times(62, 21, 22, 43674252383913877424036476406214950912, 2707803647802660400290261537185326956544);
    Times(256, 1, 1, 256, 256);
    Times(256, 2, 2, 0x1_0000, 0x1_0000);
    Times(256, 4, 4, 0x1_0000_0000, 0x1_0000_0000);
    Times(256, 8, 8, 0x1_0000_0000_0000_0000, 0x1_0000_0000_0000_0000);
    Times(256, 16, 16, 340282366920938463463374607431768211456, 340282366920938463463374607431768211456);
  }
}
