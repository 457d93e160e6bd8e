/**
 * The two list operations of Python's `random` module the quiz uses.  The
 * random draws are nondeterministic choices: only what every run guarantees
 * (a permutation, a sample without replacement) is specified, never an order.
 */
module Randomness {
  import opened Basics

  /**
   * `random.shuffle(x)`: for i from len(x)-1 down to 1, swap x[i] with a
   * randomly drawn x[j], 0 <= j <= i.
   */
  method Shuffle<T>(a: array<T>)
    modifies a
    ensures multiset(a[..]) == old(multiset(a[..]))
  {
    var i := a.Length - 1;
    while i > 0
      invariant i < a.Length
      invariant multiset(a[..]) == old(multiset(a[..]))
      decreases i
    {
      var j :| 0 <= j <= i;
      a[i], a[j] := a[j], a[i];
      i := i - 1;
    }
  }

  /** `random.shuffle` applied to a fresh list holding `s`: the result is a permutation of `s`. */
  method ShuffleList<T>(s: seq<T>) returns (r: seq<T>)
    ensures multiset(r) == multiset(s)
    ensures |r| == |s|
  {
    var a := new T[|s|](i requires 0 <= i < |s| => s[i]);
    assert a[..] == s;
    Shuffle(a);
    r := a[..];
    assert |r| == |multiset(r)| == |multiset(s)| == |s|;
  }

  /** Replacing s[j] by the last element and dropping the last slot removes exactly s[j]. */
  lemma RemoveByLast<T>(s: seq<T>, j: nat)
    requires j < |s|
    ensures multiset(s[j := s[|s| - 1]][..|s| - 1]) + multiset{s[j]} == multiset(s)
  {
    var m := |s| - 1;
    if j < m {
      assert s == s[..j] + [s[j]] + s[j + 1..m] + [s[m]];
      assert s[j := s[m]][..m] == s[..j] + [s[m]] + s[j + 1..m];
    } else {
      assert s == s[..m] + [s[m]];
      assert s[j := s[m]][..m] == s[..m];
    }
  }

  /**
   * `random.sample(population, k)`: `None` stands for the `ValueError` raised
   * when k is negative or larger than the population; otherwise k elements
   * drawn without replacement (CPython's pool algorithm: draw a position of
   * the remaining pool, fill the hole with the pool's last element).
   */
  method Sample<T>(population: seq<T>, k: int) returns (r: Option<seq<T>>)
    ensures r.None? <==> !(0 <= k <= |population|)
    ensures r.Some? ==> |r.value| == k && multiset(r.value) <= multiset(population)
  {
    var n := |population|;
    if !(0 <= k <= n) {
      return None;
    }
    var pool := population;
    var result: seq<T> := [];
    var i := 0;
    assert pool[..n] == population;
    while i < k
      invariant 0 <= i <= k
      invariant |result| == i && |pool| == n
      invariant multiset(result) + multiset(pool[..n - i]) == multiset(population)
    {
      var j :| 0 <= j < n - i;
      RemoveByLast(pool[..n - i], j);
      assert pool[..n - i][j := pool[n - i - 1]][..n - i - 1] == pool[j := pool[n - i - 1]][..n - i - 1];
      result := result + [pool[j]];
      pool := pool[j := pool[n - i - 1]];
      i := i + 1;
    }
    r := Some(result);
  }
}
