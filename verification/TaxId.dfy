/** Brazilian tax ids: mask removal, the two check digits, and the canonical form. */
module TaxId {
  import opened Wrappers

  datatype Kind = Cnpj | Cpf

  const CNPJ_LENGTH := 14
  const CPF_LENGTH := 11
  const CNPJ_BODY := 12

  predicate IsDigit(c: char) { '0' <= c <= '9' }

  predicate IsUpper(c: char) { 'A' <= c <= 'Z' }

  predicate IsMask(c: char) { c == '.' || c == '/' || c == '-' || c == ' ' }

  /** Keeps letters and digits, upper-cases, drops mask punctuation; anything else is an error. */
  function Canonicalize(raw: string): Option<string> {
    if raw == "" then Some("")
    else
      var rest := Canonicalize(raw[1..]);
      var c := raw[0];
      if rest.None? then None
      else if IsDigit(c) || IsUpper(c) then Some([c] + rest.value)
      else if 'a' <= c <= 'z' then Some([(c as int - 'a' as int + 'A' as int) as char] + rest.value)
      else if IsMask(c) then rest
      else None
  }

  predicate AllDigits(s: string) {
    forall i :: 0 <= i < |s| ==> IsDigit(s[i])
  }

  predicate AllSame(s: string) {
    forall i :: 0 <= i < |s| ==> s[i] == s[0]
  }

  function Weight(kind: Kind, fromRight: nat): nat {
    if kind == Cnpj then fromRight % 8 + 2 else fromRight + 2
  }

  /** The weighted sum of the last n characters. */
  function WeightedSum(kind: Kind, body: string, n: nat): int
    requires n <= |body|
  {
    if n == 0 then 0
    else WeightedSum(kind, body, n - 1) + (body[|body| - n] as int - 48) * Weight(kind, n - 1)
  }

  /** Upper-case letters and digits weigh at least zero, so the remainder is the truncated one. */
  function CheckDigit(kind: Kind, body: string): char {
    var rem := WeightedSum(kind, body, |body|) % 11;
    if rem >= 2 then ('0' as int + 11 - rem) as char else '0'
  }

  predicate ValidCheckDigits(kind: Kind, s: string, body: nat)
    requires |s| == body + 2
  {
    s[body] == CheckDigit(kind, s[..body]) && s[body + 1] == CheckDigit(kind, s[..body + 1])
  }

  function Normalize(raw: string): Option<(string, Kind)> {
    var canonical := Canonicalize(raw);
    if canonical.None? || AllSame(canonical.value) then None
    else
      var s := canonical.value;
      if |s| == CPF_LENGTH then
        if AllDigits(s) && ValidCheckDigits(Cpf, s, CPF_LENGTH - 2) then Some((s, Cpf)) else None
      else if |s| == CNPJ_LENGTH then
        if AllDigits(s[CNPJ_BODY..]) && ValidCheckDigits(Cnpj, s, CNPJ_BODY) then Some((s, Cnpj)) else None
      else None
  }

  predicate IsCanonical(s: string) {
    forall i :: 0 <= i < |s| ==> IsDigit(s[i]) || IsUpper(s[i])
  }

  lemma {:induction false} CanonicalizeGives(raw: string)
    ensures Canonicalize(raw).Some? ==> IsCanonical(Canonicalize(raw).value)
    ensures IsCanonical(raw) ==> Canonicalize(raw) == Some(raw)
  {
    if raw != "" {
      CanonicalizeGives(raw[1..]);
      assert raw == [raw[0]] + raw[1..];
    }
  }

  /** The canonical form is a fixed point: it normalizes to itself, as the same kind. Two spellings of
      one document therefore meet in one value. */
  lemma NormalizeIsIdempotent(raw: string)
    requires Normalize(raw).Some?
    ensures Normalize(Normalize(raw).value.0) == Normalize(raw)
    ensures IsCanonical(Normalize(raw).value.0)
  {
    CanonicalizeGives(raw);
    CanonicalizeGives(Canonicalize(raw).value);
  }

  // ---------------------------------------------------------------- the published rule

  /** The weights as they are published, from left to right, for the first and the second check digit. */
  const CPF_FIRST := [10, 9, 8, 7, 6, 5, 4, 3, 2]
  const CPF_SECOND := [11, 10, 9, 8, 7, 6, 5, 4, 3, 2]
  const CNPJ_FIRST := [5, 4, 3, 2, 9, 8, 7, 6, 5, 4, 3, 2]
  const CNPJ_SECOND := [6, 5, 4, 3, 2, 9, 8, 7, 6, 5, 4, 3, 2]

  /** Characters times weights; a character counts its code less 48, so that '0' to '9' count 0 to 9. */
  function Dot(s: string, weights: seq<int>): int
    requires |s| == |weights|
  {
    if s == "" then 0 else (s[0] as int - 48) * weights[0] + Dot(s[1..], weights[1..])
  }

  predicate Checks(s: string, weights: seq<int>, digit: char)
    requires |s| == |weights|
  {
    var rem := Dot(s, weights) % 11;
    digit as int - 48 == if rem < 2 then 0 else 11 - rem
  }

  lemma {:induction false} SumIsDot(kind: Kind, body: string, n: nat, weights: seq<int>)
    requires n <= |body| && |weights| == n
    requires forall i :: 0 <= i < n ==> weights[i] == Weight(kind, n - 1 - i)
    ensures WeightedSum(kind, body, n) == Dot(body[|body| - n..], weights)
  {
    hide Weight;
    if n > 0 {
      SumIsDot(kind, body, n - 1, weights[1..]);
      var tail := body[|body| - n..];
      assert tail[0] == body[|body| - n] && tail[1..] == body[|body| - (n - 1)..];
    }
  }

  lemma DigitIffChecks(kind: Kind, body: string, weights: seq<int>, digit: char)
    requires |weights| == |body| && forall i :: 0 <= i < |body| ==> weights[i] == Weight(kind, |body| - 1 - i)
    ensures digit == CheckDigit(kind, body) <==> Checks(body, weights, digit)
  {
    hide Weight, Dot, WeightedSum;
    SumIsDot(kind, body, |body|, weights);
    assert body[0..] == body;
    var rem := Dot(body, weights) % 11;
    assert 0 <= rem < 11;
    assert CheckDigit(kind, body) as int - 48 == if rem < 2 then 0 else 11 - rem;
  }

  /** A text is accepted exactly when it is, but for case and mask, eleven digits whose last two are the published
      check digits of a CPF, or twelve letters or digits and two digits that are those of a CNPJ; and not one
      character over and over. */
  lemma NormalizeIff(raw: string)
    ensures var s := Canonicalize(raw);
            && (Normalize(raw).Some? && Normalize(raw).value.1 == Cpf <==>
                && s.Some? && |s.value| == 11 && !AllSame(s.value) && AllDigits(s.value)
                && Checks(s.value[..9], CPF_FIRST, s.value[9]) && Checks(s.value[..10], CPF_SECOND, s.value[10]))
            && (Normalize(raw).Some? && Normalize(raw).value.1 == Cnpj <==>
                && s.Some? && |s.value| == 14 && !AllSame(s.value) && AllDigits(s.value[12..])
                && Checks(s.value[..12], CNPJ_FIRST, s.value[12]) && Checks(s.value[..13], CNPJ_SECOND, s.value[13]))
            && (Normalize(raw).Some? ==> Normalize(raw).value.0 == s.value)
  {
    hide Checks, CheckDigit, AllSame, AllDigits, Canonicalize;
    var canonical := Canonicalize(raw);
    if canonical.Some? {
      var s := canonical.value;
      if |s| == 11 {
        DigitIffChecks(Cpf, s[..9], CPF_FIRST, s[9]);
        DigitIffChecks(Cpf, s[..10], CPF_SECOND, s[10]);
      } else if |s| == 14 {
        DigitIffChecks(Cnpj, s[..12], CNPJ_FIRST, s[12]);
        DigitIffChecks(Cnpj, s[..13], CNPJ_SECOND, s[13]);
      }
    }
  }

  /** What becomes of one character: kept, raised to upper case, dropped as mask, or refused. */
  lemma CanonicalizeOne(c: char)
    ensures '0' <= c <= '9' || 'A' <= c <= 'Z' ==> Canonicalize([c]) == Some([c])
    ensures c == '.' || c == '/' || c == '-' || c == ' ' ==> Canonicalize([c]) == Some("")
    ensures 'a' <= c <= 'z' ==> Canonicalize([c]) == Some([(c as int - 32) as char])
    ensures Canonicalize([c]).None? <==>
              !('0' <= c <= '9') && !('A' <= c <= 'Z') && !('a' <= c <= 'z') && c !in "./- "
  {
    assert [c][1..] == "" && forall d: char :: [d] + "" == [d];
  }

  /** And a text is the sum of its characters. */
  lemma {:induction false} CanonicalizeAppend(a: string, b: string)
    ensures Canonicalize(a + b) ==
            if Canonicalize(a).Some? && Canonicalize(b).Some? then Some(Canonicalize(a).value + Canonicalize(b).value)
            else None
  {
    if a == "" {
      assert a + b == b;
      assert forall t: string :: "" + t == t;
    } else {
      assert (a + b)[1..] == a[1..] + b && (a + b)[0] == a[0];
      CanonicalizeAppend(a[1..], b);
      if Canonicalize(a[1..]).Some? && Canonicalize(b).Some? {
        var s, t := Canonicalize(a[1..]).value, Canonicalize(b).value;
        assert forall d: char :: [d] + (s + t) == [d] + s + t;
      }
    }
  }
}
