/**
 * Counting with Incr: one key, one ttl, calls at non-decreasing times, nothing else touching the
 * key. The trace records what each call returned.
 */
module FixedWindow {
  import opened CacheClient

  ghost predicate NonDecreasing(times: seq<int>) {
    forall i, j :: 0 <= i < j < |times| ==> times[i] <= times[j]
  }

  /** The store after the calls at times[..n], starting from a store without the key. */
  function After(key: string, times: seq<int>, ttl: int, n: nat): (mem: Mem<()>)
    requires n <= |times|
    ensures forall now :: Countable(mem, now, key)
    ensures n > 0 ==> key in mem
  {
    if n == 0 then map[] else Bump(After(key, times, ttl, n - 1), times[n - 1], key, ttl)
  }

  /** What call i returned. */
  function Returned(key: string, times: seq<int>, ttl: int, i: nat): int
    requires i < |times|
  {
    CountOf(After(key, times, ttl, i), times[i], key) + 1
  }

  /** Call i fell into a window that was already open. */
  predicate Continues(key: string, times: seq<int>, ttl: int, i: nat)
    requires i < |times|
  {
    Readable(After(key, times, ttl, i), times[i], key)
  }

  /** The call that opened the window call i belongs to. */
  function Opener(key: string, times: seq<int>, ttl: int, i: nat): (w: nat)
    requires i < |times|
    ensures w <= i
  {
    if i == 0 || !Continues(key, times, ttl, i) then i else Opener(key, times, ttl, i - 1)
  }

  /** Call i returns one plus the number of earlier calls of its window; the window's expiry is the
      one its opener set, and every later window opens after it. */
  lemma {:induction false} IncrCountsTheWindow(key: string, times: seq<int>, ttl: nat, i: nat)
    requires i < |times| && NonDecreasing(times)
    ensures var w := Opener(key, times, ttl, i);
            && Returned(key, times, ttl, i) == 1 + (i - w)
            && After(key, times, ttl, i + 1)[key].expires == times[w] + ttl
            && times[i] <= times[w] + ttl
            && (forall j :: w <= j <= i ==> Opener(key, times, ttl, j) == w)
            && (w > 0 ==> times[w] > times[Opener(key, times, ttl, w - 1)] + ttl)
  {
    if i > 0 {
      IncrCountsTheWindow(key, times, ttl, i - 1);
      var v := Opener(key, times, ttl, i - 1);
      assert After(key, times, ttl, i)[key] == Entry(Number(i - v), times[v] + ttl);
    }
  }

  /** How many of the calls lo..hi-1 were told a count of at most max. */
  function Allowed(key: string, times: seq<int>, ttl: nat, max: int, lo: nat, hi: nat): (n: nat)
    requires lo <= hi <= |times|
    decreases hi
  {
    if lo == hi then 0
    else Allowed(key, times, ttl, max, lo, hi - 1) + if Returned(key, times, ttl, hi - 1) <= max then 1 else 0
  }

  function Min(a: int, b: int): int {
    if a < b then a else b
  }

  /** Inside one window at most max calls are allowed. */
  lemma {:induction false} AllowedInOneWindow(key: string, times: seq<int>, ttl: nat, max: nat, lo: nat, hi: nat,
                                              w: nat)
    requires lo <= hi <= |times| && NonDecreasing(times)
    requires forall i :: lo <= i < hi ==> Opener(key, times, ttl, i) == w
    ensures lo < hi ==> w <= lo && Allowed(key, times, ttl, max, lo, hi) <= Min(hi - w, max)
    ensures Allowed(key, times, ttl, max, lo, hi) <= max
    decreases hi
  {
    if lo < hi {
      AllowedInOneWindow(key, times, ttl, max, lo, hi - 1, w);
      IncrCountsTheWindow(key, times, ttl, hi - 1);
    }
  }

  lemma {:induction false} AllowedSplits(key: string, times: seq<int>, ttl: nat, max: nat, lo: nat, mid: nat, hi: nat)
    requires lo <= mid <= hi <= |times|
    ensures Allowed(key, times, ttl, max, lo, hi) ==
            Allowed(key, times, ttl, max, lo, mid) + Allowed(key, times, ttl, max, mid, hi)
    decreases hi
  {
    if mid < hi {
      AllowedSplits(key, times, ttl, max, lo, mid, hi - 1);
    }
  }

  /** Calls between a window's opener and a later call of the same window belong to it. */
  lemma {:induction false} SameWindow(key: string, times: seq<int>, ttl: nat, lo: nat, hi: nat)
    requires lo < hi <= |times| && NonDecreasing(times)
    requires Opener(key, times, ttl, hi - 1) <= lo
    ensures forall i :: lo <= i < hi ==> Opener(key, times, ttl, i) == Opener(key, times, ttl, hi - 1)
  {
    IncrCountsTheWindow(key, times, ttl, hi - 1);
  }

  /** Any stretch of calls no longer than ttl touches at most two windows, so at most 2*max of them
      are allowed. */
  lemma AtMostTwiceTheLimit(key: string, times: seq<int>, ttl: nat, max: nat, lo: nat, hi: nat)
    requires lo < hi <= |times| && NonDecreasing(times)
    requires times[hi - 1] - times[lo] <= ttl
    ensures Allowed(key, times, ttl, max, lo, hi) <= 2 * max
  {
    var w := Opener(key, times, ttl, hi - 1);
    IncrCountsTheWindow(key, times, ttl, hi - 1);
    if w <= lo {
      SameWindow(key, times, ttl, lo, hi);
      AllowedInOneWindow(key, times, ttl, max, lo, hi, w);
    } else {
      var v := Opener(key, times, ttl, w - 1);
      IncrCountsTheWindow(key, times, ttl, w - 1);
      // a window opened between the first call and w's would close before w opens, too late for hi - 1
      assert v <= lo;
      SameWindow(key, times, ttl, lo, w);
      SameWindow(key, times, ttl, w, hi);
      AllowedInOneWindow(key, times, ttl, max, lo, w, v);
      AllowedInOneWindow(key, times, ttl, max, w, hi, w);
      AllowedSplits(key, times, ttl, max, lo, w, hi);
    }
  }
}
