/**
 * Sorting records by a text key, as slices.SortFunc and sort.Slice do. The library does not
 * promise an order among equal keys; Unique shows that for distinct keys there is only one
 * sorted arrangement, so there the choice made here does not matter.
 */
module Sorting {
  import opened Strings

  ghost predicate Sorted<T>(key: T -> string, s: seq<T>) {
    forall i, j :: 0 <= i < j < |s| ==> LexLe(key(s[i]), key(s[j]))
  }

  ghost predicate DistinctKeys<T>(key: T -> string, s: seq<T>) {
    forall i, j :: 0 <= i < j < |s| ==> key(s[i]) != key(s[j])
  }

  function Insert<T>(key: T -> string, x: T, s: seq<T>): seq<T> {
    if s == [] || LexLe(key(x), key(s[0])) then [x] + s
    else [s[0]] + Insert(key, x, s[1..])
  }

  function SortBy<T>(key: T -> string, s: seq<T>): seq<T> {
    if s == [] then [] else Insert(key, s[0], SortBy(key, s[1..]))
  }

  lemma SortedCons<T>(key: T -> string, x: T, s: seq<T>)
    requires Sorted(key, s) && forall y :: y in s ==> LexLe(key(x), key(y))
    ensures Sorted(key, [x] + s)
  {
    forall i, j | 0 <= i < j < |[x] + s| ensures LexLe(key(([x] + s)[i]), key(([x] + s)[j])) {
      assert ([x] + s)[j] == s[j - 1];
    }
  }

  lemma {:induction false} InsertKeepsSorted<T>(key: T -> string, x: T, s: seq<T>)
    requires Sorted(key, s)
    ensures Sorted(key, Insert(key, x, s))
    ensures multiset(Insert(key, x, s)) == multiset{x} + multiset(s)
  {
    hide LexLe;
    if s == [] {
    } else if LexLe(key(x), key(s[0])) {
      forall y | y in s ensures LexLe(key(x), key(y)) {
        var j :| 0 <= j < |s| && s[j] == y;
        if j > 0 {
          LexLeTransitive(key(x), key(s[0]), key(s[j]));
        }
      }
      SortedCons(key, x, s);
    } else {
      InsertKeepsSorted(key, x, s[1..]);
      LexLeTotal(key(x), key(s[0]));
      assert s == [s[0]] + s[1..];
      var rest := Insert(key, x, s[1..]);
      forall y | y in rest ensures LexLe(key(s[0]), key(y)) {
        assert y in multiset(rest);
        if y != x {
          assert y in s[1..];
          var j :| 0 <= j < |s[1..]| && s[1..][j] == y;
          assert s[j + 1] == y;
        }
      }
      SortedCons(key, s[0], rest);
      hide Sorted;
    }
  }

  lemma {:induction false} SortBySorts<T>(key: T -> string, s: seq<T>)
    ensures Sorted(key, SortBy(key, s))
    ensures multiset(SortBy(key, s)) == multiset(s)
    ensures |SortBy(key, s)| == |s|
  {
    if s != [] {
      SortBySorts(key, s[1..]);
      InsertKeepsSorted(key, s[0], SortBy(key, s[1..]));
      assert s == [s[0]] + s[1..];
    }
    assert |multiset(SortBy(key, s))| == |multiset(s)|;
  }

  lemma SameElements<T>(a: seq<T>, b: seq<T>, x: T)
    requires multiset(a) == multiset(b)
    ensures x in a <==> x in b
  {
    assert x in a <==> x in multiset(a);
    assert x in b <==> x in multiset(b);
  }

  lemma DistinctTail<T>(key: T -> string, s: seq<T>)
    requires s != [] && DistinctKeys(key, s)
    ensures DistinctKeys(key, s[1..])
  {}

  lemma SortedTail<T>(key: T -> string, s: seq<T>)
    requires s != [] && Sorted(key, s)
    ensures Sorted(key, s[1..])
  {}

  /** Two sorted arrangements of the same records with distinct keys are equal. */
  lemma {:induction false} Unique<T>(key: T -> string, a: seq<T>, b: seq<T>)
    requires Sorted(key, a) && Sorted(key, b)
    requires multiset(a) == multiset(b)
    requires DistinctKeys(key, a)
    ensures a == b
  {
    assert |a| == |multiset(a)| == |multiset(b)| == |b|;
    if a != [] {
      SameHead(key, a, b);
      SortedTail(key, a);
      SortedTail(key, b);
      DistinctTail(key, a);
      hide Sorted, DistinctKeys;
      SameTail(a, b);
      Unique(key, a[1..], b[1..]);
      assert a == [a[0]] + a[1..] && b == [b[0]] + b[1..];
    }
  }

  lemma SameTail<T>(a: seq<T>, b: seq<T>)
    requires a != [] && b != [] && a[0] == b[0] && multiset(a) == multiset(b)
    ensures multiset(a[1..]) == multiset(b[1..])
  {
    TailElements(a);
    TailElements(b);
  }

  lemma TailElements<T>(s: seq<T>)
    requires s != []
    ensures multiset(s[1..]) == multiset(s) - multiset{s[0]}
  {
    assert s == [s[0]] + s[1..];
  }

  lemma SameHead<T>(key: T -> string, a: seq<T>, b: seq<T>)
    requires Sorted(key, a) && Sorted(key, b)
    requires multiset(a) == multiset(b)
    requires DistinctKeys(key, a)
    requires a != [] && b != []
    ensures a[0] == b[0]
  {
    SameElements(a, b, a[0]);
    SameElements(a, b, b[0]);
    var i :| 0 <= i < |a| && a[i] == b[0];
    var j :| 0 <= j < |b| && b[j] == a[0];
    if i > 0 && j > 0 {
      assert LexLe(key(a[0]), key(a[i])) && LexLe(key(b[0]), key(b[j]));
      LexLeAntisymmetric(key(a[0]), key(b[0]));
      assert false;
    }
  }

  /** Distinctness only depends on which records there are. */
  lemma DistinctIsOrderFree<T>(key: T -> string, a: seq<T>, b: seq<T>)
    requires multiset(a) == multiset(b)
    requires DistinctKeys(key, a)
    ensures DistinctKeys(key, b)
  {
    forall i, j | 0 <= i < j < |b| ensures key(b[i]) != key(b[j]) {
      SameElements(a, b, b[i]);
      SameElements(a, b, b[j]);
      if key(b[i]) == key(b[j]) {
        var p :| 0 <= p < |a| && a[p] == b[i];
        var q :| 0 <= q < |a| && a[q] == b[j];
        assert p == q;
        CountAtLeastTwo(b, i, j);
        CountAtMostOne(key, a, p);
        assert false;
      }
    }
  }

  lemma CountAtLeastTwo<T>(s: seq<T>, i: nat, j: nat)
    requires i < j < |s| && s[i] == s[j]
    ensures multiset(s)[s[i]] >= 2
  {
    assert s == s[..j] + [s[j]] + s[j + 1..];
    assert multiset(s) == multiset(s[..j]) + multiset{s[j]} + multiset(s[j + 1..]);
    assert s[..j][i] == s[i];
    assert s[i] in multiset(s[..j]);
  }

  lemma CountAtMostOne<T>(key: T -> string, s: seq<T>, i: nat)
    requires i < |s| && DistinctKeys(key, s)
    ensures multiset(s)[s[i]] == 1
  {
    assert s == s[..i] + [s[i]] + s[i + 1..];
    assert multiset(s) == multiset(s[..i]) + multiset{s[i]} + multiset(s[i + 1..]);
    assert s[i] !in s[..i] && s[i] !in s[i + 1..];
  }
}
