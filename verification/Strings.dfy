/** The pieces of Go's strings package the registry relies on. */
module Strings {

  /** A nil or missing map entry reads as the empty string, as in Go. */
  function Lookup(m: map<string, string>, key: string): string {
    if key in m then m[key] else ""
  }

  predicate HasPrefix(s: string, prefix: string) {
    prefix <= s
  }

  /** unicode.IsSpace. */
  predicate IsSpace(c: char) {
    || c in "\t\n\r "
    || c as int in {0x0B, 0x0C, 0x85, 0xA0, 0x1680, 0x2028, 0x2029, 0x202F, 0x205F, 0x3000}
    || 0x2000 <= c as int <= 0x200A
  }

  function TrimLeft(s: string): (r: string)
    ensures |r| <= |s|
    ensures r == "" || !IsSpace(r[0])
    ensures s != "" && !IsSpace(s[0]) ==> r == s
    ensures r != "" ==> r[|r| - 1] == s[|s| - 1]
  {
    if s != "" && IsSpace(s[0]) then TrimLeft(s[1..]) else s
  }

  function TrimRight(s: string): (r: string)
    ensures r <= s
    ensures r == "" || !IsSpace(r[|r| - 1])
    ensures s != "" && !IsSpace(s[|s| - 1]) ==> r == s
  {
    if s != "" && IsSpace(s[|s| - 1]) then TrimRight(s[..|s| - 1]) else s
  }

  /** strings.TrimSpace. The result has no space at either end, so trimming again changes nothing. */
  function TrimSpace(s: string): (r: string)
    ensures |r| <= |s|
    ensures r == "" || (!IsSpace(r[0]) && !IsSpace(r[|r| - 1]))
    ensures s == "" || (!IsSpace(s[0]) && !IsSpace(s[|s| - 1])) ==> r == s
  {
    TrimRight(TrimLeft(s))
  }

  /** The bytes of a character in UTF-8. */
  function Width(c: char): nat {
    if c as int < 0x80 then 1 else if c as int < 0x800 then 2 else if c as int < 0x10000 then 3 else 4
  }

  /** len(s): bytes, not characters. */
  function ByteLen(s: string): (n: nat)
    ensures |s| <= n <= 4 * |s|
  {
    if s == "" then 0 else Width(s[0]) + ByteLen(s[1..])
  }

  lemma {:induction false} ByteLenAppend(a: string, b: string)
    ensures ByteLen(a + b) == ByteLen(a) + ByteLen(b)
  {
    if a == "" {
      assert a + b == b;
    } else {
      ByteLenAppend(a[1..], b);
      assert (a + b)[1..] == a[1..] + b;
    }
  }

  lemma {:induction false} TrimLeftShortens(s: string)
    ensures ByteLen(TrimLeft(s)) <= ByteLen(s)
  {
    if s != "" && IsSpace(s[0]) {
      TrimLeftShortens(s[1..]);
    }
  }

  /** Trimming never adds bytes. */
  lemma TrimSpaceShortens(s: string)
    ensures ByteLen(TrimSpace(s)) <= ByteLen(s)
  {
    TrimLeftShortens(s);
    var left, r := TrimLeft(s), TrimSpace(s);
    ByteLenAppend(r, left[|r|..]);
    assert left == r + left[|r|..];
  }

  /** strings.Compare(a, b) <= 0. */
  predicate LexLe(a: string, b: string) {
    || a == ""
    || (b != "" && (a[0] < b[0] || (a[0] == b[0] && LexLe(a[1..], b[1..]))))
  }

  /** a is the beginning of b, or at the first character where they part a has the smaller one. */
  ghost predicate Precedes(a: string, b: string) {
    a <= b || exists k :: 0 <= k < |a| && k < |b| && a[..k] == b[..k] && a[k] < b[k]
  }

  lemma {:induction false} LexLeMeans(a: string, b: string)
    ensures LexLe(a, b) <==> Precedes(a, b)
  {
    if a != "" && b != "" && a[0] == b[0] {
      LexLeMeans(a[1..], b[1..]);
      assert a == [a[0]] + a[1..] && b == [b[0]] + b[1..];
      if Precedes(a[1..], b[1..]) && !(a[1..] <= b[1..]) {
        var k :| 0 <= k < |a[1..]| && k < |b[1..]| && a[1..][..k] == b[1..][..k] && a[1..][k] < b[1..][k];
        assert a[..k + 1] == [a[0]] + a[1..][..k] && b[..k + 1] == [b[0]] + b[1..][..k];
        assert a[k + 1] < b[k + 1];
      }
      if Precedes(a, b) && !(a <= b) {
        var k :| 0 <= k < |a| && k < |b| && a[..k] == b[..k] && a[k] < b[k];
        assert a[1..][..k - 1] == a[..k][1..] && b[1..][..k - 1] == b[..k][1..];
        assert a[1..][k - 1] < b[1..][k - 1];
      }
    } else if a != "" && b != "" && a[0] < b[0] {
      assert a[..0] == b[..0];
    }
  }

  lemma LexLeTotal(a: string, b: string)
    ensures LexLe(a, b) || LexLe(b, a)
  {}

  lemma LexLeAntisymmetric(a: string, b: string)
    requires LexLe(a, b) && LexLe(b, a)
    ensures a == b
  {
    if a != "" {
      LexLeAntisymmetric(a[1..], b[1..]);
      assert a == [a[0]] + a[1..] && b == [b[0]] + b[1..];
    }
  }

  lemma LexLeTransitive(a: string, b: string, c: string)
    requires LexLe(a, b) && LexLe(b, c)
    ensures LexLe(a, c)
  {}

  lemma LexLeReflexive(a: string)
    ensures LexLe(a, a)
  {}

  /** strings.Split(s, sep). */
  function Split(s: string, sep: char): (parts: seq<string>)
    ensures |parts| >= 1
    ensures forall i :: 0 <= i < |parts| ==> sep !in parts[i]
  {
    if s == "" then [""]
    else
      var rest := Split(s[1..], sep);
      if s[0] == sep then [""] + rest else [[s[0]] + rest[0]] + rest[1..]
  }

  lemma {:induction false} SplitFirst(a: string, rest: string, sep: char)
    requires sep !in a
    ensures Split(a + [sep] + rest, sep) == [a] + Split(rest, sep)
  {
    var s := a + [sep] + rest;
    if a == "" {
      assert s[1..] == rest;
    } else {
      assert s[1..] == a[1..] + [sep] + rest && a == [a[0]] + a[1..];
      SplitFirst(a[1..], rest, sep);
    }
  }

  lemma {:induction false} SplitNone(a: string, sep: char)
    requires sep !in a
    ensures Split(a, sep) == [a]
  {
    if a != "" {
      assert a == [a[0]] + a[1..];
      SplitNone(a[1..], sep);
    }
  }

  /** The text before the first separator is determined by any prefix that ends in one. */
  lemma PrefixBeforeSeparator(s: string, a: string, b: string, sep: char)
    requires sep !in a && sep !in b
    requires HasPrefix(s, a + [sep]) && HasPrefix(s, b + [sep])
    ensures a == b
  {
    PrefixElements(s, a, sep);
    PrefixElements(s, b, sep);
    if |a| < |b| {
      assert false;
    } else if |b| < |a| {
      assert false;
    }
  }

  lemma PrefixElements(s: string, a: string, sep: char)
    requires HasPrefix(s, a + [sep])
    ensures |a| < |s| && s[|a|] == sep
    ensures forall i :: 0 <= i < |a| ==> s[i] == a[i]
  {
    assert s[..|a| + 1] == a + [sep];
    assert s[|a|] == s[..|a| + 1][|a|];
    forall i | 0 <= i < |a| ensures s[i] == a[i] {
      assert s[i] == s[..|a| + 1][i];
    }
  }

  /** strconv.Itoa. */
  function Decimal(n: int): string
    decreases if n < 0 then 1 - n else n
  {
    if n < 0 then "-" + Decimal(-n)
    else if n < 10 then ["0123456789"[n]]
    else Decimal(n / 10) + ["0123456789"[n % 10]]
  }

  /** strings.Join with a one-character separator. */
  function Join(parts: seq<string>, sep: char): string {
    if parts == [] then ""
    else if |parts| == 1 then parts[0]
    else parts[0] + [sep] + Join(parts[1..], sep)
  }

  function WordLength(s: string): (n: nat)
    ensures n <= |s|
  {
    if s == "" || IsSpace(s[0]) then 0 else 1 + WordLength(s[1..])
  }

  /** strings.Fields. */
  function Fields(s: string): seq<string>
    decreases |s|
  {
    if s == "" then []
    else if IsSpace(s[0]) then Fields(s[1..])
    else [s[..WordLength(s)]] + Fields(s[WordLength(s)..])
  }

  predicate IsWord(s: string) {
    s != "" && forall i :: 0 <= i < |s| ==> !IsSpace(s[i])
  }

  lemma {:induction false} WordThenRest(word: string, rest: string)
    requires forall i :: 0 <= i < |word| ==> !IsSpace(word[i])
    requires rest == "" || IsSpace(rest[0])
    ensures WordLength(word + rest) == |word|
  {
    if word == "" {
      assert word + rest == rest;
    } else {
      assert (word + rest)[1..] == word[1..] + rest;
      WordThenRest(word[1..], rest);
    }
  }

  /** Words joined by a blank are read back one by one. */
  lemma {:induction false} FieldsOfJoin(words: seq<string>)
    requires forall w :: w in words ==> IsWord(w)
    ensures Fields(Join(words, ' ')) == words
  {
    if words != [] {
      var word, rest := words[0], if |words| == 1 then "" else " " + Join(words[1..], ' ');
      assert word in words;
      assert Join(words, ' ') == word + rest;
      WordThenRest(word, rest);
      assert (word + rest)[..|word|] == word && (word + rest)[|word|..] == rest;
      FieldsOfJoin(words[1..]);
      if |words| > 1 {
        assert rest[1..] == Join(words[1..], ' ');
      } else {
        assert words == [word];
      }
    }
  }
}
